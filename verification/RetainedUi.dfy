/**
 Reuse of prepared drawing data.

 `Renderer.Render` is one frame as the source runs it. It is proved against `Rendered`, a function of the
 state before and of what the frame meets; over whole runs, the pictures it draws are those of full
 preparation on every frame. A scene has a part drawn as it is in the frame itself, like border colours,
 and a part that is ready one frame late, like images and pipelines.
 */
module RetainedUi {
  import opened Wrappers

  type Entity = nat

  datatype Scene = Scene(direct: nat, delayed: nat)

  /** What is drawn: the direct part, and the part that was ready; a fresh renderer has nothing ready. */
  datatype Picture = Picture(direct: nat, ready: Option<nat>)

  datatype PreparedUi = PreparedUi(rebuild: bool, retain: bool, settling: nat, imagesTick: Option<nat>)

  const SETTLING_FRAMES: nat := 2

  const MAX_COUNT: nat := 0xFFFF_FFFF_FFFF_FFFF

  /** What one frame meets. `reset` is a renderer start-up during the frame's update. */
  datatype Frame = Frame(
    scene: Scene,
    dirty: bool,
    needsSettling: bool,
    enabled: bool,
    pendingPipeline: bool,
    imagesTick: Option<nat>,
    reset: bool,
    extracted: set<Entity>)

  datatype Stats = Stats(prepared: nat, reused: nat, lastPrepared: bool)

  datatype State = State(
    ui: PreparedUi,
    batches: Option<Picture>,
    retained: set<Entity>,
    drawn: Option<Picture>,
    lastDelayed: Option<nat>,
    stats: Stats)

  predicate RenderDirty(ui: PreparedUi, f: Frame) {
    f.pendingPipeline || ui.imagesTick != f.imagesTick || ui.retain != f.enabled
  }

  predicate Settles(ui: PreparedUi, f: Frame) {
    f.needsSettling || RenderDirty(ui, f)
  }

  predicate Changed(ui: PreparedUi, f: Frame) {
    f.dirty || RenderDirty(ui, f)
  }

  /** The decision taken before the renderer runs. */
  function Decided(ui: PreparedUi, f: Frame): PreparedUi {
    var settling := if Settles(ui, f) then SETTLING_FRAMES else ui.settling;
    PreparedUi(!f.enabled || Changed(ui, f) || settling > 0, f.enabled,
               if settling > 0 then settling - 1 else 0, f.imagesTick)
  }

  function Reset(ui: PreparedUi): PreparedUi {
    PreparedUi(true, ui.retain, SETTLING_FRAMES, None)
  }

  /** A preparation from scratch in this frame. */
  function Fresh(lastDelayed: Option<nat>, f: Frame): Picture {
    Picture(f.scene.direct, if f.reset then None else lastDelayed)
  }

  function Counted(stats: Stats, prepared: bool): Stats {
    if prepared then Stats(if stats.prepared < MAX_COUNT then stats.prepared + 1 else MAX_COUNT, stats.reused, true)
    else Stats(stats.prepared, if stats.reused < MAX_COUNT then stats.reused + 1 else MAX_COUNT, false)
  }

  function Rendered(s: State, f: Frame): State {
    var decided := Decided(s.ui, f);
    var ui := if f.reset then Reset(decided) else decided;
    var drawn := if ui.rebuild then Some(Fresh(s.lastDelayed, f)) else s.batches;
    State(
      ui,
      if ui.retain then drawn else None,
      if ui.rebuild then (if ui.retain then f.extracted else {}) else s.retained,
      drawn,
      Some(f.scene.delayed),
      Counted(s.stats, ui.rebuild))
  }

  const START := State(PreparedUi(true, false, SETTLING_FRAMES, None), None, {}, None, None, Stats(0, 0, false))

  // ---------------------------------------------------------------------
  // The frame as a program
  // ---------------------------------------------------------------------

  class Renderer {
    var ui: PreparedUi
    var batches: Option<Picture>
    var temporary: set<Entity>
    var retained: set<Entity>
    var drawn: Option<Picture>
    var lastDelayed: Option<nat>
    var stats: Stats

    ghost function Now(): State
      reads this
    {
      State(ui, batches, retained, drawn, lastDelayed, stats)
    }

    constructor ()
      ensures Now() == START && temporary == {}
    {
      ui, batches, temporary, retained := START.ui, None, {}, {};
      drawn, lastDelayed, stats := None, None, START.stats;
    }

    /** Despawns the entities of the last retained preparation, highest index first. */
    method RetireEntities()
      modifies this`retained
      ensures retained == {}
    {
      while retained != {}
        decreases |retained|
      {
        var entity := Highest(retained);
        retained := retained - {entity};
      }
    }

    /** Turns what the extraction spawned for this frame into entities that stay. */
    method RetainEntities()
      modifies this`retained, this`temporary
      ensures retained == old(retained) + old(temporary) && temporary == {}
    {
      while temporary != {}
        invariant retained + temporary == old(retained) + old(temporary)
        decreases |temporary|
      {
        var entity :| entity in temporary;
        temporary := temporary - {entity};
        retained := retained + {entity};
      }
    }

    method ResetRenderer()
      modifies this`ui, this`retained
      ensures ui == Reset(old(ui)) && retained == {}
    {
      RetireEntities();
      ui := PreparedUi(true, ui.retain, SETTLING_FRAMES, None);
    }

    /** The renderer's own update of a frame: start-up if due, preparation if due, drawing and clean-up. */
    method Update(f: Frame)
      requires ui.rebuild ==> retained == {}
      modifies this
      ensures stats == old(stats) && ui == (if f.reset then Reset(old(ui)) else old(ui))
      ensures drawn == if ui.rebuild then Some(Fresh(old(lastDelayed), f)) else old(batches)
      ensures batches == (if ui.retain then drawn else None) && lastDelayed == Some(f.scene.delayed)
      ensures retained == if ui.rebuild then (if ui.retain then f.extracted else {}) else old(retained)
      ensures temporary == {}
    {
      if f.reset {
        ResetRenderer();
      }
      temporary := {};
      if ui.rebuild {
        temporary := f.extracted;
        batches := Some(Picture(f.scene.direct, if f.reset then None else lastDelayed));
      }
      drawn := batches;
      lastDelayed := Some(f.scene.delayed);
      if ui.rebuild && ui.retain {
        RetainEntities();
      }
      temporary := {};
      if !ui.retain {
        batches := None;
      }
    }

    method Render(f: Frame)
      modifies this
      ensures Now() == Rendered(old(Now()), f)
    {
      var imagesChanged := ui.imagesTick != f.imagesTick;
      var renderDirty := f.pendingPipeline || imagesChanged || ui.retain != f.enabled;
      var dirty := f.dirty || renderDirty;
      var settling := if f.needsSettling || renderDirty then SETTLING_FRAMES else ui.settling;
      ui := PreparedUi(!f.enabled || dirty || settling > 0, f.enabled,
                       if settling > 0 then settling - 1 else 0, f.imagesTick);
      if ui.rebuild {
        RetireEntities();
      }
      Update(f);
      stats := stats.(lastPrepared := ui.rebuild);
      if ui.rebuild {
        stats := stats.(prepared := if stats.prepared < MAX_COUNT then stats.prepared + 1 else MAX_COUNT);
      } else {
        stats := stats.(reused := if stats.reused < MAX_COUNT then stats.reused + 1 else MAX_COUNT);
      }
    }
  }

  /** The highest of some entities. */
  method Highest(entities: set<Entity>) returns (highest: Entity)
    requires entities != {}
    ensures highest in entities && forall other | other in entities :: other <= highest
  {
    highest :| highest in entities;
    var rest := entities - {highest};
    while rest != {}
      invariant rest <= entities && highest in entities
      invariant forall other | other in entities :: other in rest || other <= highest
      decreases |rest|
    {
      var other :| other in rest;
      rest := rest - {other};
      if highest < other {
        highest := other;
      }
    }
  }

  // ---------------------------------------------------------------------
  // Whole runs
  // ---------------------------------------------------------------------

  function After(frames: seq<Frame>): State {
    if frames == [] then START else Rendered(After(frames[..|frames| - 1]), frames[|frames| - 1])
  }

  predicate Prepared(frames: seq<Frame>, i: nat)
    requires i < |frames|
  {
    After(frames[..i + 1]).stats.lastPrepared
  }

  /** Detection misses no change from one frame to the next, and asks to settle what is ready late. */
  ghost predicate Detecting(frames: seq<Frame>) {
    forall i :: 0 < i < |frames| ==>
      && (frames[i].scene != frames[i - 1].scene ==> frames[i].dirty)
      && (frames[i].scene.delayed != frames[i - 1].scene.delayed ==> frames[i].needsSettling)
  }

  /** What full preparation on every frame draws in frame `i`. */
  function Uncached(frames: seq<Frame>, i: nat): Picture
    requires i < |frames|
  {
    Fresh(if i == 0 then None else Some(frames[i - 1].scene.delayed), frames[i])
  }

  /** The state a frame leaves, as far as the next frame may rely on it. */
  ghost predicate Kept(frames: seq<Frame>) {
    var s, n := After(frames), |frames|;
    && (n > 0 ==> s.lastDelayed == Some(frames[n - 1].scene.delayed) && s.drawn == Some(Uncached(frames, n - 1)))
    && (n == 0 ==> s == START)
    && (s.ui.retain && n > 0 ==> s.batches == s.drawn)
    && (s.ui.settling == 0 ==>
          n > 1 && !frames[n - 1].reset && frames[n - 1].scene.delayed == frames[n - 2].scene.delayed)
    && (s.ui.settling <= 1 ==> n > 0)
  }

  lemma {:induction false} AlwaysKept(frames: seq<Frame>)
    requires Detecting(frames)
    ensures Kept(frames)
  {
    if frames != [] {
      var n := |frames| - 1;
      var before := frames[..n];
      AlwaysKept(before);
      if n > 0 {
        assert before[n - 1] == frames[n - 1];
        assert n > 1 ==> before[n - 2] == frames[n - 2];
      }
    }
  }

  /** Every frame draws what full preparation on every frame would have drawn. */
  lemma CacheRefinesPreparation(frames: seq<Frame>, i: nat)
    requires Detecting(frames) && i < |frames|
    ensures After(frames[..i + 1]).drawn == Some(Uncached(frames, i))
  {
    AlwaysKept(frames[..i + 1]);
    assert Uncached(frames[..i + 1], i) == Uncached(frames, i);
  }

  /** The renderer's own state when frame `i` begins. */
  function Before(frames: seq<Frame>, i: nat): PreparedUi
    requires i < |frames|
  {
    After(frames[..i]).ui
  }

  lemma OneFrame(frames: seq<Frame>, i: nat)
    requires i < |frames|
    ensures After(frames[..i + 1]) == Rendered(After(frames[..i]), frames[i])
  {
    assert frames[..i + 1][..i] == frames[..i];
  }

  /** The images tick the frame compares its own with: a renderer start-up forgets it. */
  function LastTick(frames: seq<Frame>, i: nat): Option<nat>
    requires i < |frames|
  {
    if i == 0 || frames[i - 1].reset then None else frames[i - 1].imagesTick
  }

  /** Something in the frame takes one more frame to settle. */
  predicate Disturbs(frames: seq<Frame>, i: nat)
    requires i < |frames|
  {
    || frames[i].needsSettling || frames[i].pendingPipeline || frames[i].imagesTick != LastTick(frames, i)
    || frames[i].enabled != (i > 0 && frames[i - 1].enabled)
  }

  /** How many frames are still to be prepared when frame `i` begins. */
  function ToSettle(frames: seq<Frame>, i: nat): nat
    requires i <= |frames|
  {
    if i == 0 || frames[i - 1].reset then 2
    else if i == 1 || Disturbs(frames, i - 1) || frames[i - 2].reset then 1
    else 0
  }

  lemma {:induction false} UiIsRemembered(frames: seq<Frame>, i: nat)
    requires i <= |frames|
    ensures var ui := After(frames[..i]).ui;
            && ui.settling == ToSettle(frames, i)
            && (i < |frames| ==> ui.imagesTick == LastTick(frames, i))
            && ui.retain == (i > 0 && frames[i - 1].enabled)
  {
    if i > 0 {
      UiIsRemembered(frames, i - 1);
      OneFrame(frames, i - 1);
    }
  }

  /**
   Exactly these frames are prepared: the first two; every one while retention is off; every one that is dirty or
   in which the renderer starts up; one that needs settling, waits for a pipeline, has new images, or turns
   retention on or off, and the one after it; and the two after a start-up.
   */
  lemma PreparedExactly(frames: seq<Frame>, i: nat)
    requires i < |frames|
    ensures Prepared(frames, i) <==>
              || i <= 1 || !frames[i].enabled || frames[i].dirty || frames[i].reset
              || Disturbs(frames, i) || Disturbs(frames, i - 1)
              || frames[i - 1].reset || frames[i - 2].reset
  {
    UiIsRemembered(frames, i);
    OneFrame(frames, i);
  }

  /** A changed frame is prepared, and so is the one after a change that needs settling or a renderer start. */
  lemma ChangesArePrepared(frames: seq<Frame>, i: nat)
    requires i < |frames|
    ensures Changed(Before(frames, i), frames[i]) || frames[i].reset ==> Prepared(frames, i)
    ensures Settles(Before(frames, i), frames[i]) || frames[i].reset ==>
              Prepared(frames, i) && (i + 1 < |frames| ==> Prepared(frames, i + 1))
  {
    OneFrame(frames, i);
    if i + 1 < |frames| {
      OneFrame(frames, i + 1);
    }
  }

  /** When nothing changes any more, preparation stops after at most two frames, and what is drawn stays. */
  lemma StableScenesAreReused(frames: seq<Frame>, i: nat)
    requires i + 2 < |frames| && frames[i + 2].enabled
    requires forall j :: i <= j < i + 3 ==> !Changed(Before(frames, j), frames[j]) && !frames[j].reset && !frames[j].needsSettling
    ensures !Prepared(frames, i + 2) && After(frames[..i + 3]).drawn == After(frames[..i + 2]).batches
  {
    OneFrame(frames, i);
    OneFrame(frames, i + 1);
    OneFrame(frames, i + 2);
    SettlingIsBounded(frames, i);
  }

  lemma {:induction false} SettlingIsBounded(frames: seq<Frame>, i: nat)
    requires i <= |frames|
    ensures After(frames[..i]).ui.settling <= SETTLING_FRAMES
  {
    if i > 0 {
      OneFrame(frames, i - 1);
      SettlingIsBounded(frames, i - 1);
    }
  }

  /** The entities that stay are exactly those of the last preparation, if preparations are retained at all. */
  lemma {:induction false} RetainedEntities(frames: seq<Frame>, p: nat, i: nat)
    requires p <= i < |frames| && Prepared(frames, p)
    requires forall j :: p < j <= i ==> !Prepared(frames, j)
    ensures After(frames[..i + 1]).retained == if After(frames[..p + 1]).ui.retain then frames[p].extracted else {}
    decreases i
  {
    OneFrame(frames, i);
    if p < i {
      assert !Prepared(frames, i);
      RetainedEntities(frames, p, i - 1);
    }
  }

  /** The counters account for every frame, until one of them saturates. */
  lemma {:induction false} FramesAreCounted(frames: seq<Frame>)
    requires |frames| <= MAX_COUNT
    ensures After(frames).stats.prepared + After(frames).stats.reused == |frames|
  {
    if frames != [] {
      FramesAreCounted(frames[..|frames| - 1]);
    }
  }

  // ---------------------------------------------------------------------
  // Detection
  // ---------------------------------------------------------------------

  /** `Intermediate` stands for the components rewritten on every update, which are skipped. */
  datatype Component = Intermediate(id: nat) | BorderColor | Other(id: nat)

  /** A component's value, and whether it was added or written since the last check. */
  datatype Cell = Cell(value: nat, ticked: bool)

  datatype Visual = Visual(entity: Entity, components: map<Component, Cell>)

  datatype Report = Report(counts: (nat, nat), dirty: bool, needsSettling: bool)

  function Components(visuals: seq<Visual>): nat {
    if visuals == [] then 0 else Components(visuals[..|visuals| - 1]) + |visuals[|visuals| - 1].components|
  }

  /** What a check looks at: all but intermediates, or, to settle, all but border colours either. */
  predicate Watched(c: Component, border: bool) {
    !c.Intermediate? && (border || !c.BorderColor?)
  }

  predicate Ticks(visual: Visual, border: bool) {
    exists c | c in visual.components :: Watched(c, border) && visual.components[c].ticked
  }

  /** One pass raises a flag if something watched ticked, or the counts are not those of the pass before. */
  ghost predicate Flagged(before: seq<Visual>, after: seq<Visual>, border: bool) {
    (exists i :: 0 <= i < |after| && Ticks(after[i], border))
    || (|after|, Components(after)) != (|before|, Components(before))
  }

  /** One run over all visual entities. */
  method DetectComponents(visuals: seq<Visual>, counts: (nat, nat), continuous: bool) returns (report: Report)
    ensures report.counts == (|visuals|, Components(visuals))
    ensures report.dirty <==> (exists i :: 0 <= i < |visuals| && Ticks(visuals[i], true))
                              || report.counts != counts || continuous
    ensures report.needsSettling <==> (exists i :: 0 <= i < |visuals| && Ticks(visuals[i], false))
                                      || report.counts != counts || continuous
    ensures forall before: seq<Visual> {:trigger Flagged(before, visuals, true)} :: counts == (|before|, Components(before)) ==>
              && (report.dirty <==> Flagged(before, visuals, true) || continuous)
              && (report.needsSettling <==> Flagged(before, visuals, false) || continuous)
  {
    var current := (0, 0);
    var dirty, settling := false, false;
    for i := 0 to |visuals|
      invariant current == (i, Components(visuals[..i]))
      invariant dirty <==> exists j :: 0 <= j < i && Ticks(visuals[j], true)
      invariant settling <==> exists j :: 0 <= j < i && Ticks(visuals[j], false)
    {
      assert visuals[..i + 1][..i] == visuals[..i];
      current := (current.0 + 1, current.1 + |visuals[i].components|);
      dirty := dirty || Ticks(visuals[i], true);
      settling := settling || Ticks(visuals[i], false);
    }
    assert visuals[..|visuals|] == visuals;
    var structural := current != counts || continuous;
    report := Report(current, dirty || structural, settling || structural);
    forall before | counts == (|before|, Components(before))
      ensures report.dirty <==> Flagged(before, visuals, true) || continuous
      ensures report.needsSettling <==> Flagged(before, visuals, false) || continuous
    {
    }
  }

  /** The same entities in both checks; their order plays no role in what is counted. */
  ghost predicate Aligned(before: seq<Visual>, after: seq<Visual>) {
    |before| == |after| && forall i :: 0 <= i < |before| ==> before[i].entity == after[i].entity
  }

  /** Added and rewritten components are ticked; removed ones leave no trace. */
  ghost predicate Recorded(before: Visual, after: Visual) {
    forall c | c in after.components && !after.components[c].ticked ::
      c in before.components && before.components[c].value == after.components[c].value
  }

  function Look(visual: Visual, border: bool): map<Component, nat> {
    map c | c in visual.components && Watched(c, border) :: visual.components[c].value
  }

  function Unwatched(visual: Visual, border: bool): set<Component> {
    set c | c in visual.components && !Watched(c, border)
  }

  /** Watched components lost, and unwatched ones gained, over all entities. */
  function Lost(before: seq<Visual>, after: seq<Visual>, border: bool): int
    requires |before| == |after|
  {
    if before == [] then 0
    else
      var n := |before| - 1;
      Lost(before[..n], after[..n], border) + |Look(before[n], border)| - |Look(after[n], border)|
  }

  function Gained(before: seq<Visual>, after: seq<Visual>, border: bool): int
    requires |before| == |after|
  {
    if before == [] then 0
    else
      var n := |before| - 1;
      Gained(before[..n], after[..n], border) + |Unwatched(after[n], border)| - |Unwatched(before[n], border)|
  }

  lemma SplitsComponents(visual: Visual, border: bool)
    ensures |visual.components| == |Look(visual, border)| + |Unwatched(visual, border)|
  {
    assert visual.components.Keys == Look(visual, border).Keys + Unwatched(visual, border);
  }

  lemma {:induction false} CountsBalance(before: seq<Visual>, after: seq<Visual>, border: bool)
    requires |before| == |after|
    ensures Components(after) == Components(before) + Gained(before, after, border) - Lost(before, after, border)
  {
    if before != [] {
      var n := |before| - 1;
      CountsBalance(before[..n], after[..n], border);
      SplitsComponents(before[n], border);
      SplitsComponents(after[n], border);
    }
  }

  /** Without a tick, an entity can only have lost what is watched. */
  lemma OnlyLosses(before: Visual, after: Visual, border: bool)
    requires Recorded(before, after) && !Ticks(after, border)
    ensures |Look(after, border)| <= |Look(before, border)|
    ensures Look(before, border) != Look(after, border) ==> |Look(after, border)| < |Look(before, border)|
  {
    var old_, new_ := Look(before, border), Look(after, border);
    assert new_.Keys <= old_.Keys;
    Fewer(new_.Keys, old_.Keys);
    if new_.Keys == old_.Keys {
      assert forall c | c in new_ :: new_[c] == old_[c];
    }
  }

  lemma Fewer<T>(a: set<T>, b: set<T>)
    requires a <= b
    ensures |a| <= |b| && (a != b ==> |a| < |b|)
  {
    assert b == a + (b - a);
  }

  lemma {:induction false} LossesAdd(before: seq<Visual>, after: seq<Visual>, border: bool)
    requires |before| == |after|
    requires forall i :: 0 <= i < |before| ==> Recorded(before[i], after[i]) && !Ticks(after[i], border)
    ensures Lost(before, after, border) >= 0
    ensures (exists i :: 0 <= i < |before| && Look(before[i], border) != Look(after[i], border)) ==>
              Lost(before, after, border) > 0
  {
    if before != [] {
      var n := |before| - 1;
      LossesAdd(before[..n], after[..n], border);
      OnlyLosses(before[n], after[n], border);
      forall i | 0 <= i < n && Look(before[i], border) != Look(after[i], border)
        ensures Lost(before, after, border) > 0
      {
        assert before[..n][i] == before[i] && after[..n][i] == after[i];
      }
    }
  }

  /**
   Detection is not complete: losses leave no tick, and the counts hide them if as many components that are
   not watched were gained. It is exactly then that a change of the same entities goes unnoticed.
   */
  lemma DetectionIsExact(before: seq<Visual>, after: seq<Visual>, border: bool)
    requires Aligned(before, after) && forall i :: 0 <= i < |before| ==> Recorded(before[i], after[i])
    requires exists i :: 0 <= i < |before| && Look(before[i], border) != Look(after[i], border)
    ensures !Flagged(before, after, border) <==>
            && (forall i :: 0 <= i < |after| ==> !Ticks(after[i], border))
            && Gained(before, after, border) == Lost(before, after, border)
    ensures Gained(before, after, border) <= 0 ==> Flagged(before, after, border)
  {
    CountsBalance(before, after, border);
    if forall i :: 0 <= i < |after| ==> !Ticks(after[i], border) {
      LossesAdd(before, after, border);
    }
  }

  /** An entity that becomes visible brings a ticked component; so a change of the entities is always noticed. */
  lemma NewEntitiesAreNoticed(before: seq<Visual>, after: seq<Visual>)
    requires forall i, j :: 0 <= i < j < |before| ==> before[i].entity != before[j].entity
    requires forall i, j :: 0 <= i < j < |after| ==> after[i].entity != after[j].entity
    requires forall i :: 0 <= i < |after| && after[i].entity !in Entities(before) ==> Ticks(after[i], false)
    requires Entities(before) != Entities(after)
    ensures Flagged(before, after, true) && Flagged(before, after, false)
  {
    if forall i :: 0 <= i < |after| ==> after[i].entity in Entities(before) {
      CountEntities(before);
      CountEntities(after);
      Fewer(Entities(after), Entities(before));
    } else {
      var i :| 0 <= i < |after| && after[i].entity !in Entities(before);
      var c :| c in after[i].components && Watched(c, false) && after[i].components[c].ticked;
      assert Watched(c, true);
    }
  }

  function Entities(visuals: seq<Visual>): set<Entity> {
    set i | 0 <= i < |visuals| :: visuals[i].entity
  }

  lemma {:induction false} CountEntities(visuals: seq<Visual>)
    requires forall i, j :: 0 <= i < j < |visuals| ==> visuals[i].entity != visuals[j].entity
    ensures |Entities(visuals)| == |visuals|
  {
    if visuals != [] {
      var n := |visuals| - 1;
      CountEntities(visuals[..n]);
      assert Entities(visuals) == Entities(visuals[..n]) + {visuals[n].entity};
    }
  }

  /** A style lost while an intermediate is added changes the look, and no flag is raised. */
  lemma LossGoesUnnoticed() returns (before: seq<Visual>, after: seq<Visual>)
    ensures Aligned(before, after) && |before| == 1 && Recorded(before[0], after[0])
    ensures Look(before[0], true) != Look(after[0], true) && Look(before[0], false) != Look(after[0], false)
    ensures !Flagged(before, after, true) && !Flagged(before, after, false)
    ensures !Ticks(before[0], true) && !Ticks(before[0], false)
  {
    before := [Visual(0, map[Other(0) := Cell(0, false), Other(1) := Cell(5, false)])];
    after := [Visual(0, map[Other(0) := Cell(0, false), Intermediate(0) := Cell(0, true)])];
    OneVisual(before[0]);
    OneVisual(after[0]);
    assert Other(1) in Look(before[0], true) && Other(1) !in Look(after[0], true);
    assert Other(1) in Look(before[0], false) && Other(1) !in Look(after[0], false);
  }

  lemma OneVisual(visual: Visual)
    ensures Components([visual]) == |visual.components|
  {
    assert [visual][..0] == [];
  }

  /** A style that gives way to a border colour is noticed, but not as something that has to settle. */
  lemma LossDoesNotSettle() returns (before: seq<Visual>, after: seq<Visual>)
    ensures Aligned(before, after) && |before| == 1 && Recorded(before[0], after[0])
    ensures Look(before[0], false) != Look(after[0], false)
    ensures Flagged(before, after, true) && !Flagged(before, after, false)
  {
    before := [Visual(0, map[Other(0) := Cell(0, false), Other(1) := Cell(5, false)])];
    after := [Visual(0, map[Other(0) := Cell(0, false), BorderColor := Cell(0, true)])];
    OneVisual(before[0]);
    OneVisual(after[0]);
    assert Other(1) in Look(before[0], false) && Other(1) !in Look(after[0], false);
    assert Watched(BorderColor, true) && after[0].components[BorderColor].ticked;
  }

  // ---------------------------------------------------------------------
  // Frames whose changes are detected
  // ---------------------------------------------------------------------

  /** What is watched of the same entities differs, or the entities do. */
  ghost predicate LooksDiffer(before: seq<Visual>, after: seq<Visual>, border: bool) {
    || Entities(before) != Entities(after)
    || (Aligned(before, after)
        && exists i :: 0 <= i < |before| && Look(before[i], border) != Look(after[i], border))
  }

  /** A change of what is watched that goes unnoticed: nothing ticked, and as much was gained as lost. */
  ghost predicate Balanced(before: seq<Visual>, after: seq<Visual>, border: bool) {
    && Aligned(before, after)
    && (exists i :: 0 <= i < |before| && Look(before[i], border) != Look(after[i], border))
    && (forall i :: 0 <= i < |after| ==> !Ticks(after[i], border))
    && Gained(before, after, border) == Lost(before, after, border)
  }

  predicate Distinct(visuals: seq<Visual>) {
    forall i, j :: 0 <= i < j < |visuals| ==> visuals[i].entity != visuals[j].entity
  }

  /** What the engine guarantees from one pass to the next: ticks of what was added, written or came into view. */
  ghost predicate Ticked(before: seq<Visual>, after: seq<Visual>) {
    && Distinct(before) && Distinct(after)
    && (forall i :: 0 <= i < |after| && after[i].entity !in Entities(before) ==> Ticks(after[i], false))
    && (Entities(before) == Entities(after) ==> Aligned(before, after))
    && (Aligned(before, after) ==> forall i :: 0 <= i < |before| ==> Recorded(before[i], after[i]))
  }

  /**
   A frame shows what its visual entities look like, and carries the flags of the pass over them. Whatever else
   changes, as assets and resources do, raises the flags itself.
   */
  ghost predicate Observed(visuals: seq<seq<Visual>>, frames: seq<Frame>) {
    && |visuals| == |frames|
    && forall i :: 0 < i < |frames| ==> ObservedStep(visuals[i - 1], frames[i - 1], visuals[i], frames[i])
  }

  ghost predicate ObservedStep(before: seq<Visual>, f: Frame, after: seq<Visual>, g: Frame) {
    && Ticked(before, after)
    && (f.scene != g.scene ==> LooksDiffer(before, after, true) || g.dirty)
    && (f.scene.delayed != g.scene.delayed ==> LooksDiffer(before, after, false) || g.needsSettling)
    && (Flagged(before, after, true) ==> g.dirty) && (Flagged(before, after, false) ==> g.needsSettling)
  }

  lemma UnbalancedIsFlagged(before: seq<Visual>, after: seq<Visual>, border: bool)
    requires Ticked(before, after) && LooksDiffer(before, after, border) && !Balanced(before, after, border)
    ensures Flagged(before, after, border)
  {
    if Entities(before) != Entities(after) {
      NewEntitiesAreNoticed(before, after);
    } else {
      DetectionIsExact(before, after, border);
    }
  }

  /**
   With the flags of the detection itself, every frame draws what full preparation on every frame would have
   drawn, unless some change before it was balanced.
   */
  lemma DetectedFramesAreFresh(visuals: seq<seq<Visual>>, frames: seq<Frame>, i: nat)
    requires Observed(visuals, frames) && i < |frames|
    requires forall j :: 0 < j <= i ==>
               !Balanced(visuals[j - 1], visuals[j], true) && !Balanced(visuals[j - 1], visuals[j], false)
    ensures After(frames[..i + 1]).drawn == Some(Uncached(frames, i))
  {
    var seen := frames[..i + 1];
    forall j | 0 < j < |seen|
      ensures seen[j].scene != seen[j - 1].scene ==> seen[j].dirty
      ensures seen[j].scene.delayed != seen[j - 1].scene.delayed ==> seen[j].needsSettling
    {
      assert ObservedStep(visuals[j - 1], frames[j - 1], visuals[j], frames[j]);
      if seen[j].scene != seen[j - 1].scene && !seen[j].dirty {
        UnbalancedIsFlagged(visuals[j - 1], visuals[j], true);
      }
      if seen[j].scene.delayed != seen[j - 1].scene.delayed && !seen[j].needsSettling {
        UnbalancedIsFlagged(visuals[j - 1], visuals[j], false);
      }
    }
    CacheRefinesPreparation(seen, i);
    assert seen[..i + 1] == seen && Uncached(seen, i) == Uncached(frames, i);
  }

  /** A balanced change does leave an outdated picture on screen. */
  lemma BalancedChangeIsOutdated() returns (visuals: seq<seq<Visual>>, frames: seq<Frame>)
    ensures Observed(visuals, frames) && |frames| == 4 && Balanced(visuals[2], visuals[3], true)
    ensures After(frames[..4]).drawn.Some? && After(frames[..4]).drawn != Some(Uncached(frames, 3))
  {
    var before, after := LossGoesUnnoticed();
    visuals := [before, before, before, after];
    var frame := Frame(Scene(5, 5), false, false, true, false, None, false, {});
    frames := [frame, frame, frame, frame.(scene := Scene(0, 0))];
    LossIsBalanced(before, after, true);
    LossIsBalanced(before, after, false);
    StillnessIsObserved(before, frame);
    assert ObservedStep(before, frame, after, frames[3]);
    ThreeFramesSettle(frames, frame);
  }

  lemma StillnessIsObserved(visuals: seq<Visual>, f: Frame)
    requires |visuals| == 1 && !Ticks(visuals[0], true) && !Ticks(visuals[0], false)
    ensures ObservedStep(visuals, f, visuals, f)
  {
    assert forall i :: 0 <= i < |visuals| ==> visuals[i].entity in Entities(visuals);
  }

  lemma LossIsBalanced(before: seq<Visual>, after: seq<Visual>, border: bool)
    requires Aligned(before, after) && |before| == 1 && Recorded(before[0], after[0])
    requires Look(before[0], border) != Look(after[0], border) && !Flagged(before, after, border)
    ensures Balanced(before, after, border) && LooksDiffer(before, after, border)
    ensures Entities(before) == Entities(after)
  {
    DetectionIsExact(before, after, border);
    assert Entities(before) == {before[0].entity} && Entities(after) == {after[0].entity};
  }

  lemma ThreeFramesSettle(frames: seq<Frame>, frame: Frame)
    requires frame == Frame(Scene(5, 5), false, false, true, false, None, false, {})
    requires frames == [frame, frame, frame, frame.(scene := Scene(0, 0))]
    ensures After(frames[..4]).drawn == Some(Picture(5, Some(5)))
  {
    assert After(frames[..0]) == START;
    OneFrame(frames, 0);
    OneFrame(frames, 1);
    OneFrame(frames, 2);
    OneFrame(frames, 3);
  }
}
