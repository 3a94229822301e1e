/**
 Keyboard focus among desktop layers and ordinary windows.

 Exclusive layers come first, then the layer a press asked for, then what ordinary policy chose last. The
 object's methods are the source's systems; they are proved against functions on the focus state.
 */
module LayerFocus {
  import opened Wrappers

  type Surface = nat

  datatype Keyboard = NoKeyboard | OnDemand | Exclusive

  /** Background, bottom, top and overlay, in this order. */
  type Rank = r: nat | r < 4

  const TOP: Rank := 2

  datatype Layer = Layer(surface: Surface, rank: Rank, stackIndex: nat, keyboard: Keyboard, visible: bool)

  datatype Popup = Popup(surface: Surface, owner: Surface)

  datatype Action = Focus(surface: Option<Surface>) | Other(id: nat)

  datatype State = State(
    ordinary: Option<Surface>,
    onDemand: Option<Surface>,
    exclusive: Option<Surface>,
    applied: Option<Surface>,
    reassert: bool)

  const START := State(None, None, None, None, false)

  const STACK_LIMIT: nat := 999_999

  function Base(rank: Rank): int {
    match rank
    case 0 => -2_000_000
    case 1 => -1_000_000
    case 2 => 1_000_000
    case _ => 2_000_000
  }

  function ZIndex(layer: Layer): int {
    Base(layer.rank) + if layer.stackIndex < STACK_LIMIT then layer.stackIndex else STACK_LIMIT
  }

  /** Layers order before stack positions, and only positions beyond the limit are told apart no more. */
  lemma LayersOrderFirst(a: Layer, b: Layer)
    ensures a.rank < b.rank ==> ZIndex(a) < ZIndex(b)
    ensures a.rank == b.rank && a.stackIndex <= STACK_LIMIT && b.stackIndex <= STACK_LIMIT ==>
              (ZIndex(a) < ZIndex(b) <==> a.stackIndex < b.stackIndex)
    ensures a.rank < TOP <= b.rank ==> ZIndex(a) < 0 <= STACK_LIMIT < ZIndex(b)
  {
  }

  predicate Candidate(layer: Layer) {
    layer.visible && layer.keyboard.Exclusive? && layer.rank >= TOP
  }

  predicate HasKeyboard(layers: seq<Layer>, surface: Surface) {
    exists i :: 0 <= i < |layers| && layers[i].surface == surface && !layers[i].keyboard.NoKeyboard?
  }

  predicate AsksOnDemand(layers: seq<Layer>, surface: Surface) {
    exists i :: 0 <= i < |layers| && layers[i].surface == surface && layers[i].keyboard.OnDemand?
  }

  /** A visible layer presents itself and its popups. */
  predicate Presents(layer: Layer, popups: seq<Popup>, surface: Surface) {
    layer.visible
    && (layer.surface == surface
        || exists j :: 0 <= j < |popups| && popups[j].owner == layer.surface && popups[j].surface == surface)
  }

  predicate Active(layers: seq<Layer>, popups: seq<Popup>, surface: Surface) {
    exists i :: 0 <= i < |layers| && Presents(layers[i], popups, surface)
  }

  /** The first of the highest candidates, by index. */
  ghost predicate Highest(layers: seq<Layer>, i: nat) {
    && i < |layers| && Candidate(layers[i])
    && (forall j | 0 <= j < |layers| && Candidate(layers[j]) :: ZIndex(layers[j]) <= ZIndex(layers[i]))
    && (forall j | 0 <= j < i && Candidate(layers[j]) :: ZIndex(layers[j]) < ZIndex(layers[i]))
  }

  function Best(layers: seq<Layer>): (r: Option<nat>)
    ensures r.Some? ==> Highest(layers, r.value)
    ensures r.None? ==> forall j :: 0 <= j < |layers| ==> !Candidate(layers[j])
  {
    if layers == [] then None
    else
      var n := |layers| - 1;
      var best := Best(layers[..n]);
      assert forall j :: 0 <= j < n ==> layers[..n][j] == layers[j];
      if Candidate(layers[n]) && (best.None? || ZIndex(layers[best.value]) < ZIndex(layers[n])) then Some(n) else best
  }

  function Presented(s: State, layers: seq<Layer>, popups: seq<Popup>): State {
    var best := Best(layers);
    s.(exclusive := if best.Some? then Some(layers[best.value].surface) else None,
       onDemand := if s.onDemand.Some?
                      && (!Active(layers, popups, s.onDemand.value) || !HasKeyboard(layers, s.onDemand.value))
                   then None else s.onDemand)
  }

  /** A press on the popup of a layer counts for the layer; `root` is the presented surface pressed, if any. */
  function Pressed(s: State, root: Option<Surface>, layers: seq<Layer>, popups: seq<Popup>): State {
    var surface := if root.Some? then Some(OwnerOf(popups, root.value)) else None;
    s.(reassert := s.reassert || (surface.Some? && HasKeyboard(layers, surface.value)),
       onDemand := if surface.Some? && AsksOnDemand(layers, surface.value) then surface else None)
  }

  function OwnerOf(popups: seq<Popup>, surface: Surface): Surface {
    if popups == [] then surface
    else if popups[0].surface == surface then popups[0].owner
    else OwnerOf(popups[1..], surface)
  }

  /** A press on `root` is one on `surface`: the owner of the first popup of that name, else `root` itself. */
  ghost predicate PressesOn(root: Option<Surface>, popups: seq<Popup>, surface: Surface) {
    && root.Some?
    && if exists i :: 0 <= i < |popups| && popups[i].surface == root.value then
         exists i :: 0 <= i < |popups| && popups[i] == Popup(root.value, surface)
                     && forall j :: 0 <= j < i ==> popups[j].surface != root.value
       else surface == root.value
  }

  lemma {:induction false} OwnerIsFirst(popups: seq<Popup>, root: Surface, surface: Surface)
    ensures OwnerOf(popups, root) == surface <==> PressesOn(Some(root), popups, surface)
  {
    if popups != [] && popups[0].surface != root {
      var rest := popups[1..];
      OwnerIsFirst(rest, root, surface);
      assert forall i :: 0 < i < |popups| ==> popups[i] == rest[i - 1];
      assert forall i :: 0 <= i < |rest| ==> rest[i] == popups[i + 1];
    }
  }

  /** After a press, the layer on demand is the one pressed, if it asks for that, and no other. */
  lemma PressMeaning(s: State, root: Option<Surface>, layers: seq<Layer>, popups: seq<Popup>)
    ensures var t := Pressed(s, root, layers, popups);
            && (forall surface: Surface :: t.onDemand == Some(surface) <==>
                  PressesOn(root, popups, surface) && AsksOnDemand(layers, surface))
            && (t.reassert <==>
                  || s.reassert
                  || exists surface: Surface :: PressesOn(root, popups, surface) && HasKeyboard(layers, surface))
  {
    if root.Some? {
      forall surface
        ensures OwnerOf(popups, root.value) == surface <==> PressesOn(root, popups, surface)
      {
        OwnerIsFirst(popups, root.value, surface);
      }
    }
  }

  function Others(actions: seq<Action>): seq<Action> {
    if actions == [] then []
    else Others(actions[..|actions| - 1])
         + if actions[|actions| - 1].Focus? then [] else [actions[|actions| - 1]]
  }

  /** The last focus action, as what it asked for. */
  function LastFocus(actions: seq<Action>): Option<Option<Surface>> {
    if actions == [] then None
    else if actions[|actions| - 1].Focus? then Some(actions[|actions| - 1].surface)
    else LastFocus(actions[..|actions| - 1])
  }

  function Selected(s: State): Option<Surface> {
    if s.exclusive.Some? then s.exclusive else if s.onDemand.Some? then s.onDemand else s.ordinary
  }

  /** The state once the batch's own choices have been taken in. */
  function Chosen(s: State, actions: seq<Action>): State {
    var last := LastFocus(actions);
    if last.Some? then s.(ordinary := last.value, onDemand := None) else s
  }

  predicate Emits(s: State, actions: seq<Action>) {
    Selected(Chosen(s, actions)) != s.applied || s.reassert || LastFocus(actions).Some?
  }

  function Resolved(s: State, actions: seq<Action>): (State, seq<Action>) {
    var selected := Selected(Chosen(s, actions));
    (Chosen(s, actions).(reassert := false, applied := selected),
     Others(actions) + if Emits(s, actions) then [Focus(selected)] else [])
  }

  class LayerFocus {
    var ordinary: Option<Surface>
    var onDemand: Option<Surface>
    var exclusive: Option<Surface>
    var applied: Option<Surface>
    var reassert: bool

    ghost function Now(): State
      reads this
    {
      State(ordinary, onDemand, exclusive, applied, reassert)
    }

    constructor ()
      ensures Now() == START
    {
      ordinary, onDemand, exclusive, applied, reassert := None, None, None, None, false;
    }

    method PresentLayers(layers: seq<Layer>, popups: seq<Popup>)
      modifies this
      ensures Now() == Presented(old(Now()), layers, popups)
    {
      var active: set<Surface> := {};
      var best: Option<nat> := None;
      for i := 0 to |layers|
        invariant best == Best(layers[..i])
        invariant forall surface :: surface in active <==> exists j :: 0 <= j < i && Presents(layers[j], popups, surface)
      {
        assert layers[..i + 1][..i] == layers[..i];
        if layers[i].visible {
          if Candidate(layers[i]) && (best.None? || ZIndex(layers[i]) > ZIndex(layers[best.value])) {
            best := Some(i);
          }
          active := active + {layers[i].surface}
                    + set j | 0 <= j < |popups| && popups[j].owner == layers[i].surface :: popups[j].surface;
        }
      }
      assert layers[..|layers|] == layers;
      exclusive := if best.Some? then Some(layers[best.value].surface) else None;
      if onDemand.Some? && (onDemand.value !in active || !HasKeyboard(layers, onDemand.value)) {
        onDemand := None;
      }
    }

    method PointerFocus(root: Option<Surface>, layers: seq<Layer>, popups: seq<Popup>)
      modifies this
      ensures Now() == Pressed(old(Now()), root, layers, popups)
      ensures forall surface: Surface :: onDemand == Some(surface) <==>
                PressesOn(root, popups, surface) && AsksOnDemand(layers, surface)
      ensures reassert <==>
                || old(reassert)
                || exists surface: Surface :: PressesOn(root, popups, surface) && HasKeyboard(layers, surface)
      ensures ordinary == old(ordinary) && exclusive == old(exclusive) && applied == old(applied)
    {
      PressMeaning(Now(), root, layers, popups);
      var surface := if root.Some? then Some(OwnerOf(popups, root.value)) else None;
      reassert := reassert || (surface.Some? && HasKeyboard(layers, surface.value));
      onDemand := if surface.Some? && AsksOnDemand(layers, surface.value) then surface else None;
    }

    method RestoreInputFocus()
      modifies this
      ensures Now() == old(Now()).(reassert := true)
    {
      reassert := true;
    }

    method ResolveFocusActions(actions: seq<Action>) returns (result: seq<Action>)
      modifies this
      ensures (Now(), result) == Resolved(old(Now()), actions)
    {
      result := [];
      var again := reassert;
      reassert := false;
      for i := 0 to |actions|
        invariant result == Others(actions[..i])
        invariant Now() == Chosen(old(Now()), actions[..i]).(reassert := false)
        invariant again <==> old(reassert) || LastFocus(actions[..i]).Some?
      {
        assert actions[..i + 1][..i] == actions[..i];
        match actions[i]
        case Focus(surface) =>
          ordinary := surface;
          onDemand := None;
          again := true;
        case Other(_) =>
          result := result + [actions[i]];
      }
      assert actions[..|actions|] == actions;
      var selected := if exclusive.Some? then exclusive else if onDemand.Some? then onDemand else ordinary;
      assert result + [] == result;
      if selected != applied || again {
        applied := selected;
        result := result + [Focus(selected)];
      }
    }
  }

  // ---------------------------------------------------------------------
  // What resolving means
  // ---------------------------------------------------------------------

  lemma {:induction false} OthersAppend(a: seq<Action>, b: seq<Action>)
    ensures Others(a + b) == Others(a) + Others(b)
    ensures LastFocus(a + b) == if LastFocus(b).Some? then LastFocus(b) else LastFocus(a)
    decreases |b|
  {
    if b == [] {
      assert a + b == a;
    } else {
      assert (a + b)[..|a + b| - 1] == a + b[..|b| - 1];
      OthersAppend(a, b[..|b| - 1]);
    }
  }

  lemma {:induction false} OthersHaveNoFocus(actions: seq<Action>)
    ensures LastFocus(Others(actions)).None? && Others(Others(actions)) == Others(actions)
    ensures forall action | action in Others(actions) :: !action.Focus?
  {
    if actions != [] {
      var init, last := Others(actions[..|actions| - 1]), actions[|actions| - 1];
      OthersHaveNoFocus(actions[..|actions| - 1]);
      if last.Focus? {
        assert Others(actions) == init;
      } else {
        assert (init + [last])[..|init|] == init;
        assert Others(init + [last]) == init + [last];
      }
    }
  }

  /**
   One batch: all other actions in their order, at most one focus action and that one last, sent exactly if
   the choice changed, was asked for again, or was made in this batch.
   */
  lemma ResolvesToOneFocus(s: State, actions: seq<Action>)
    ensures var (t, result) := Resolved(s, actions);
            && Others(result) == Others(actions)
            && (forall i :: 0 <= i < |result| - 1 ==> !result[i].Focus?)
            && LastFocus(result) == (if Emits(s, actions) then Some(t.applied) else None)
            && t.applied == Selected(t) && !t.reassert
  {
    var (t, result) := Resolved(s, actions);
    OthersHaveNoFocus(actions);
    if Emits(s, actions) {
      assert result[..|result| - 1] == Others(actions);
    } else {
      assert result == Others(actions);
    }
    forall i | 0 <= i < |result| - 1
      ensures !result[i].Focus?
    {
      assert i < |Others(actions)| && result[i] == Others(actions)[i] && result[i] in Others(actions);
    }
  }

  /** A batch may be split anywhere: the state it leads to is the same, and so is the focus sent last. */
  lemma ResolvingSplits(s: State, a: seq<Action>, b: seq<Action>)
    ensures var (whole, together) := Resolved(s, a + b);
            var (half, first) := Resolved(s, a);
            var (both, second) := Resolved(half, b);
            && whole == both && Others(together) == Others(first + second)
            && (LastFocus(together).Some? ==> LastFocus(first + second) == LastFocus(together))
            && (LastFocus(together).None? ==> LastFocus(first + second) in {None, Some(s.applied)})
  {
    OthersAppend(a, b);
    var (whole, together) := Resolved(s, a + b);
    var (half, first) := Resolved(s, a);
    var (both, second) := Resolved(half, b);
    ResolvesToOneFocus(s, a + b);
    ResolvesToOneFocus(s, a);
    ResolvesToOneFocus(half, b);
    OthersAppend(first, second);
  }

  /**
   A press on a layer with a keyboard is answered by a focus action, even if focus was there already: for that
   layer if it asks on demand and none is exclusive. A press elsewhere gives focus back to the ordinary choice.
   */
  lemma PressIsAnswered(s: State, root: Option<Surface>, layers: seq<Layer>, popups: seq<Popup>, surface: Surface)
    requires PressesOn(root, popups, surface)
    ensures var (t, sent) := Resolved(Pressed(s, root, layers, popups), []);
            && (HasKeyboard(layers, surface) ==> sent == [Focus(t.applied)])
            && (AsksOnDemand(layers, surface) && s.exclusive.None? ==> sent == [Focus(Some(surface))])
            && (!AsksOnDemand(layers, surface) && s.exclusive.None? ==> t.applied == s.ordinary)
            && (s.exclusive.Some? ==> t.applied == s.exclusive)
  {
    OwnerIsFirst(popups, root.value, surface);
    if AsksOnDemand(layers, surface) {
      assert HasKeyboard(layers, surface);
    }
  }

  // ---------------------------------------------------------------------
  // Whole runs
  // ---------------------------------------------------------------------

  datatype Event =
    | Present(layers: seq<Layer>, popups: seq<Popup>)
    | Press(root: Option<Surface>, layers: seq<Layer>, popups: seq<Popup>)
    | Restore
    | Resolve(actions: seq<Action>)

  /** The state after some events, everything sent so far, and every action ordinary policy asked for. */
  function After(events: seq<Event>): (State, seq<Action>, seq<Action>) {
    if events == [] then (START, [], [])
    else
      var (s, sent, asked) := After(events[..|events| - 1]);
      match events[|events| - 1]
      case Present(layers, popups) => (Presented(s, layers, popups), sent, asked)
      case Press(root, layers, popups) => (Pressed(s, root, layers, popups), sent, asked)
      case Restore => (s.(reassert := true), sent, asked)
      case Resolve(actions) => var (t, result) := Resolved(s, actions); (t, sent + result, asked + actions)
  }

  function Settled(last: Option<Option<Surface>>): Option<Surface> {
    if last.Some? then last.value else None
  }

  /**
   Over any run, what was sent last is what counts as applied, and the ordinary choice is the latest asked
   for; nothing else that was asked for is lost or reordered.
   */
  lemma {:induction false} SentIsApplied(events: seq<Event>)
    ensures var (s, sent, asked) := After(events);
            && s.applied == Settled(LastFocus(sent)) && s.ordinary == Settled(LastFocus(asked))
            && Others(sent) == Others(asked)
  {
    if events != [] {
      SentIsApplied(events[..|events| - 1]);
      var (s, sent, asked) := After(events[..|events| - 1]);
      if events[|events| - 1].Resolve? {
        var actions := events[|events| - 1].actions;
        ResolvesToOneFocus(s, actions);
        OthersAppend(sent, Resolved(s, actions).1);
        OthersAppend(asked, actions);
      }
    }
  }

  /** After a resolve, focus is with the exclusive layer, else the one on demand, else the latest ordinary choice. */
  lemma FocusIsArbitrated(events: seq<Event>)
    requires events != [] && events[|events| - 1].Resolve?
    ensures var (s, sent, asked) := After(events);
            Settled(LastFocus(sent)) == if s.exclusive.Some? then s.exclusive
                                        else if s.onDemand.Some? then s.onDemand
                                        else Settled(LastFocus(asked))
  {
    SentIsApplied(events);
    ResolvesToOneFocus(After(events[..|events| - 1]).0, events[|events| - 1].actions);
  }

  /** The surface is that of a visible layer, or of a popup that such a layer owns. */
  ghost predicate OnScreen(layers: seq<Layer>, popups: seq<Popup>, surface: Surface) {
    exists layer | layer in layers ::
      && layer.visible
      && (layer.surface == surface || exists popup :: popup in popups && popup == Popup(surface, layer.surface))
  }

  /** The layer may take focus by itself: visible, on top of the windows, and asking for it. */
  ghost predicate Demands(layer: Layer) {
    layer.visible && layer.rank in {2, 3} && layer.keyboard == Exclusive
  }

  lemma PresentationMeans(layers: seq<Layer>, popups: seq<Popup>, surface: Surface)
    ensures Active(layers, popups, surface) <==> OnScreen(layers, popups, surface)
    ensures HasKeyboard(layers, surface) <==>
              exists layer :: layer in layers && layer.surface == surface && layer.keyboard != NoKeyboard
    ensures AsksOnDemand(layers, surface) <==>
              exists layer :: layer in layers && layer.surface == surface && layer.keyboard == OnDemand
  {
    assert forall i :: 0 <= i < |layers| ==> layers[i] in layers;
    assert forall j :: 0 <= j < |popups| ==> popups[j] in popups;
    if Active(layers, popups, surface) {
      var i :| 0 <= i < |layers| && Presents(layers[i], popups, surface);
      assert layers[i] in layers;
    }
    if OnScreen(layers, popups, surface) {
      var layer :| layer in layers && layer.visible
                   && (layer.surface == surface || exists popup :: popup in popups && popup == Popup(surface, layer.surface));
      var i :| 0 <= i < |layers| && layers[i] == layer;
      assert Presents(layers[i], popups, surface);
    }
  }

  /**
   After a presentation the exclusive layer is one that demands focus, if any does: none that demands it is higher,
   none as high comes first. The layer on demand stays if it is on screen and some layer of that surface has a keyboard.
   */
  lemma PresentationArbitrates(s: State, layers: seq<Layer>, popups: seq<Popup>)
    ensures var t := Presented(s, layers, popups);
            && (t.exclusive.Some? <==> exists layer :: layer in layers && Demands(layer))
            && (t.exclusive.Some? ==>
                  exists i: nat ::
                    && i < |layers| && layers[i].surface == t.exclusive.value && Demands(layers[i])
                    && (forall j :: 0 <= j < |layers| && Demands(layers[j]) ==> ZIndex(layers[j]) <= ZIndex(layers[i]))
                    && (forall j :: 0 <= j < i && Demands(layers[j]) ==> ZIndex(layers[j]) < ZIndex(layers[i])))
            && (t.onDemand ==
                  if s.onDemand.Some? && OnScreen(layers, popups, s.onDemand.value)
                     && exists layer :: layer in layers && layer.surface == s.onDemand.value && layer.keyboard != NoKeyboard
                  then s.onDemand else None)
            && t.ordinary == s.ordinary && t.applied == s.applied && t.reassert == s.reassert
  {
    assert forall i :: 0 <= i < |layers| ==> layers[i] in layers && (Demands(layers[i]) <==> Candidate(layers[i]));
    if s.onDemand.Some? {
      PresentationMeans(layers, popups, s.onDemand.value);
    }
    var best := Best(layers);
    if best.Some? {
      assert Highest(layers, best.value);
    }
    hide Active, HasKeyboard, OnScreen, Candidate, Demands, ZIndex;
  }

  /** A press takes focus on demand for the layer pressed if one of that surface asks so, and else from any. */
  lemma PressArbitrates(s: State, root: Option<Surface>, layers: seq<Layer>, popups: seq<Popup>)
    ensures var t := Pressed(s, root, layers, popups);
            && (forall surface: Surface :: t.onDemand == Some(surface) <==>
                  && PressesOn(root, popups, surface)
                  && exists layer :: layer in layers && layer.surface == surface && layer.keyboard == OnDemand)
            && (t.reassert <==>
                  || s.reassert
                  || exists layer :: layer in layers && layer.keyboard != NoKeyboard && PressesOn(root, popups, layer.surface))
            && t.exclusive == s.exclusive && t.ordinary == s.ordinary && t.applied == s.applied
  {
    PressMeaning(s, root, layers, popups);
    forall surface: Surface
      ensures AsksOnDemand(layers, surface) <==>
                exists layer :: layer in layers && layer.surface == surface && layer.keyboard == OnDemand
      ensures HasKeyboard(layers, surface) <==>
                exists layer :: layer in layers && layer.surface == surface && layer.keyboard != NoKeyboard
    {
      PresentationMeans(layers, popups, surface);
    }
    hide AsksOnDemand, HasKeyboard, PressesOn;
  }

  /**
   A batch sends a focus action exactly if it contains one, if focus is to be reasserted, or if it is not where it
   was applied. A focus action of the batch is the ordinary choice, and ends focus on demand.
   */
  lemma BatchArbitrates(s: State, actions: seq<Action>)
    ensures var (t, sent) := Resolved(s, actions);
            && ((exists action :: action in sent && action.Focus?) <==>
                  s.reassert || t.applied != s.applied || exists action :: action in actions && action.Focus?)
            && ((exists action :: action in actions && action.Focus?) ==>
                  t.onDemand == None && LastFocus(actions) == Some(t.ordinary))
            && ((forall action :: action in actions ==> !action.Focus?) ==>
                  t.onDemand == s.onDemand && t.ordinary == s.ordinary)
            && t.exclusive == s.exclusive && !t.reassert
  {
    ResolvesToOneFocus(s, actions);
    OthersHaveNoFocus(actions);
    LastFocusExists(actions);
    var (t, sent) := Resolved(s, actions);
    if Emits(s, actions) {
      assert Focus(t.applied) in sent;
    }
  }

  lemma {:induction false} LastFocusExists(actions: seq<Action>)
    ensures LastFocus(actions).Some? <==> exists action :: action in actions && action.Focus?
  {
    if actions != [] {
      LastFocusExists(actions[..|actions| - 1]);
      assert forall action :: action in actions <==> action in actions[..|actions| - 1] || action == actions[|actions| - 1];
    }
  }

  /** Asked to restore input focus, the next batch sends it, even if nothing changed. */
  lemma RestoreIsAnswered(events: seq<Event>, actions: seq<Action>)
    ensures var (s, sent, _) := After(events + [Restore]);
            var (t, answer) := Resolved(s, actions);
            answer != [] && answer[|answer| - 1] == Focus(t.applied)
  {
    assert (events + [Restore])[..|events|] == events;
  }

  /** A layer that lost its keyboard or its presentation no longer holds focus on demand. */
  lemma OnDemandIsPresented(s: State, layers: seq<Layer>, popups: seq<Popup>)
    ensures var t := Presented(s, layers, popups);
            && (t.onDemand.Some? <==> s.onDemand.Some? && Active(layers, popups, s.onDemand.value)
                                      && HasKeyboard(layers, s.onDemand.value))
            && (t.exclusive.Some? ==> exists i: nat :: Highest(layers, i) && layers[i].surface == t.exclusive.value)
            && (t.exclusive.None? ==> forall j :: 0 <= j < |layers| ==> !Candidate(layers[j]))
  {
    if Best(layers).Some? {
      assert Highest(layers, Best(layers).value);
    }
  }
}
