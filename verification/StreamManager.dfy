/**
 Which peer's window plays, and which is being recovered.

 `Manager` updates its fields as the source does; its methods are proved against functions on the
 state, and what the manager promises is proved about those functions. What other threads and the
 network answer at each moment comes in as parameters.
 */
module StreamManager {
  import opened Wrappers

  type Identity = nat

  /** A window some host offers. */
  datatype Application = Application(window: nat, surface: nat, appId: nat, available: bool, hoistedHere: bool)

  datatype Target = Target(identity: Identity, window: nat)

  datatype Receiver = Receiver(requested: Option<Application>)

  /** A saved host: the instance it is connected to, and the receiver for its streams. */
  datatype Peer = Peer(instance: Option<nat>, receiver: Option<Receiver>)

  datatype Playback = Playback(identity: Identity, window: nat, instance: nat, application: Application)

  datatype Recovery = Recovery(stream: Playback, until: nat)

  datatype State = State(
    playback: Option<Playback>,
    recovery: Option<Recovery>,
    selected: Option<Target>,
    reconnecting: bool,
    returnTo: Option<Target>,
    revision: nat,
    peers: map<Identity, Peer>)

  const RECOVERY_SECONDS: nat := 10

  /** What polling one peer meets: whether its connection lives or opens, its control error, its receiver. */
  datatype Report = Report(healthy: bool, arrived: Option<nat>, error: bool, fails: bool, closes: bool)

  /** What a hoist meets: the catalogue at that moment, and whether its two calls succeed. */
  datatype Answer = Answer(applications: seq<Application>, receiverFails: bool, hoistFails: bool)

  predicate Usable(application: Application, window: nat) {
    application.window == window && (application.available || application.hoistedHere)
  }

  function First(applications: seq<Application>, window: nat): (r: Option<Application>)
    ensures r.Some? ==> r.value in applications && Usable(r.value, window)
    ensures r.None? ==> forall application | application in applications :: !Usable(application, window)
  {
    if applications == [] then None
    else if Usable(applications[0], window) then Some(applications[0])
    else First(applications[1..], window)
  }

  predicate SameWindow(a: Application, b: Application) {
    a.window == b.window && a.surface == b.surface && a.appId == b.appId
  }

  predicate CanResume(stream: Playback, instance: nat, applications: seq<Application>) {
    && instance == stream.instance
    && exists i :: 0 <= i < |applications| && Usable(applications[i], stream.window)
                   && applications[i].surface == stream.application.surface
                   && applications[i].appId == stream.application.appId
  }

  function TargetOf(stream: Playback): Target {
    Target(stream.identity, stream.window)
  }

  // ---------------------------------------------------------------------
  // The operations as functions of the state
  // ---------------------------------------------------------------------

  function Deselected(peers: map<Identity, Peer>, identity: Identity): map<Identity, Peer> {
    if identity in peers && peers[identity].receiver.Some?
    then peers[identity := peers[identity].(receiver := Some(Receiver(None)))]
    else peers
  }

  function Stopped(s: State): State {
    s.(playback := None, recovery := None, reconnecting := false, selected := None,
       peers := if s.playback.Some? then Deselected(s.peers, s.playback.value.identity) else s.peers)
  }

  /** The hoist proper, after whatever played has been stopped. */
  function Begun(s: State, target: Target, answer: Answer): (State, bool) {
    if target.identity !in s.peers || s.peers[target.identity].instance.None? then (s, false)
    else
      var peer := s.peers[target.identity];
      var application := First(answer.applications, target.window);
      if application.None? || (peer.receiver.None? && answer.receiverFails) then (s, false)
      else if answer.hoistFails then
        var receiver := if peer.receiver.Some? then peer.receiver else Some(Receiver(None));
        (s.(peers := s.peers[target.identity := peer.(receiver := receiver)]), false)
      else
        (s.(peers := s.peers[target.identity := peer.(receiver := Some(Receiver(application)))],
            selected := Some(target),
            playback := Some(Playback(target.identity, target.window, peer.instance.value, application.value))),
         true)
  }

  function Hoisted(s: State, target: Target, answer: Answer): (State, bool) {
    if s.selected == Some(target) then (s, true)
    else Begun(Stopped(s).(returnTo := None), target, answer)
  }

  function Current(s: State): Option<Target> {
    if s.playback.Some? then Some(TargetOf(s.playback.value))
    else if s.recovery.Some? then Some(TargetOf(s.recovery.value.stream))
    else None
  }

  function Released(s: State, target: Target): State {
    if Current(s) == Some(target) then Stopped(s) else s
  }

  /** A peer after its poll, and whether that interrupts its stream: `Some(true)` asks for recovery. */
  function PolledPeer(peer: Peer, report: Report, selected: bool): (Peer, Option<bool>) {
    var instance := if peer.instance.Some? then (if report.healthy then peer.instance else None) else report.arrived;
    if instance.None? then (Peer(None, None), if selected then Some(true) else None)
    else
      var interrupted := if report.error && selected then Some(false) else None;
      if peer.receiver.None? then (Peer(instance, None), interrupted)
      else if report.fails then (Peer(None, None), if selected then Some(true) else interrupted)
      else
        var requested := if report.closes then None else peer.receiver.value.requested;
        (Peer(instance, Some(Receiver(requested))),
         if selected && requested.None? then Some(false) else interrupted)
  }

  predicate Plays(s: State, identity: Identity) {
    s.playback.Some? && s.playback.value.identity == identity
  }

  function PolledPeers(s: State, reports: Identity -> Report): map<Identity, Peer> {
    map identity | identity in s.peers :: PolledPeer(s.peers[identity], reports(identity), Plays(s, identity)).0
  }

  function Interruption(s: State, reports: Identity -> Report): Option<bool> {
    if s.playback.Some? && s.playback.value.identity in s.peers then
      var identity := s.playback.value.identity;
      PolledPeer(s.peers[identity], reports(identity), true).1
    else None
  }

  function Interrupted(s: State, retry: bool, now: nat): State {
    var t := Stopped(s);
    if s.playback.Some? && retry then
      t.(selected := Some(TargetOf(s.playback.value)), reconnecting := true,
         recovery := Some(Recovery(s.playback.value, now + RECOVERY_SECONDS)))
    else t
  }

  /** `seen` is the catalogue on which the decision to resume rests; the hoist reads it anew. */
  function Recovered(s: State, now: nat, seen: seq<Application>, answer: Answer): State {
    if s.recovery.None? then s
    else
      var recovery := s.recovery.value;
      var target := TargetOf(recovery.stream);
      if now >= recovery.until then
        Stopped(s).(returnTo := Some(target), revision := (s.revision + 1) % 0x1_0000_0000_0000_0000)
      else if Ready(s, recovery.stream, seen) then
        var (t, ok) := Hoisted(s.(selected := None), target, answer);
        if ok then t else t.(returnTo := Some(target), revision := (t.revision + 1) % 0x1_0000_0000_0000_0000)
      else s
  }

  predicate Ready(s: State, stream: Playback, seen: seq<Application>) {
    && stream.identity in s.peers && s.peers[stream.identity].instance.Some?
    && CanResume(stream, s.peers[stream.identity].instance.value, seen)
  }

  function Polled(s: State, now: nat, reports: Identity -> Report, seen: seq<Application>, answer: Answer): State {
    var t := s.(peers := PolledPeers(s, reports));
    var interruption := Interruption(s, reports);
    var u := if interruption.Some? then Interrupted(t, interruption.value, now) else t;
    Recovered(u, now, seen, answer)
  }

  /** A newly paired host is added without touching those already there. */
  function Remembered(s: State, identity: Identity): State {
    if identity in s.peers then s else s.(peers := s.peers[identity := Peer(None, None)])
  }

  /** The peers of the first `i` identities are polled; the others are as they were. */
  ghost predicate Halfway(s: State, reports: Identity -> Report, order: seq<Identity>, i: nat,
                          peers: map<Identity, Peer>, interruption: Option<bool>)
    requires i <= |order|
  {
    && peers.Keys == s.peers.Keys
    && (forall identity | identity in peers ::
          peers[identity] == if identity in order[..i] then PolledPeers(s, reports)[identity] else s.peers[identity])
    && interruption == if s.playback.Some? && s.playback.value.identity in order[..i]
                       then Interruption(s, reports) else None
  }

  lemma NothingPolled(s: State, reports: Identity -> Report, order: seq<Identity>)
    ensures Halfway(s, reports, order, 0, s.peers, None)
  {
  }

  lemma OnePolled(s: State, reports: Identity -> Report, order: seq<Identity>, i: nat,
                  peers: map<Identity, Peer>, interruption: Option<bool>)
    requires i < |order| && forall identity :: identity in order <==> identity in s.peers
    requires forall j, k :: 0 <= j < k < |order| ==> order[j] != order[k]
    requires Halfway(s, reports, order, i, peers, interruption)
    ensures order[i] in peers
    ensures var polled := PolledPeer(peers[order[i]], reports(order[i]), Plays(s, order[i]));
            Halfway(s, reports, order, i + 1, peers[order[i] := polled.0],
                    if Plays(s, order[i]) then polled.1 else interruption)
  {
    hide PolledPeer;
    assert order[i] in order;
    assert order[..i + 1] == order[..i] + [order[i]];
  }

  lemma AllPolled(s: State, reports: Identity -> Report, order: seq<Identity>,
                  peers: map<Identity, Peer>, interruption: Option<bool>)
    requires forall identity :: identity in order <==> identity in s.peers
    requires Halfway(s, reports, order, |order|, peers, interruption)
    ensures peers == PolledPeers(s, reports) && interruption == Interruption(s, reports)
  {
    hide PolledPeer;
    assert order[..|order|] == order;
  }

  // ---------------------------------------------------------------------
  // The manager as the program it is
  // ---------------------------------------------------------------------

  class Manager {
    var playback: Option<Playback>
    var recovery: Option<Recovery>
    var selected: Option<Target>
    var reconnecting: bool
    var returnTo: Option<Target>
    var revision: nat
    var peers: map<Identity, Peer>

    ghost function Now(): State
      reads this
    {
      State(playback, recovery, selected, reconnecting, returnTo, revision, peers)
    }

    method StopStream()
      modifies this
      ensures Now() == Stopped(old(Now()))
    {
      recovery := None;
      reconnecting := false;
      if playback.Some? {
        var stream := playback.value;
        playback := None;
        if stream.identity in peers && peers[stream.identity].receiver.Some? {
          peers := peers[stream.identity := peers[stream.identity].(receiver := Some(Receiver(None)))];
        }
      }
      selected := None;
    }

    method Hoist(target: Target, answer: Answer) returns (ok: bool)
      modifies this
      ensures (Now(), ok) == Hoisted(old(Now()), target, answer)
    {
      if selected == Some(target) {
        return true;
      }
      StopStream();
      returnTo := None;
      ok := Begin(target, answer);
    }

    method Begin(target: Target, answer: Answer) returns (ok: bool)
      modifies this
      ensures (Now(), ok) == Begun(old(Now()), target, answer)
    {
      if target.identity !in peers || peers[target.identity].instance.None? {
        return false;
      }
      var peer := peers[target.identity];
      var application := First(answer.applications, target.window);
      if application.None? {
        return false;
      }
      if peer.receiver.None? {
        if answer.receiverFails {
          return false;
        }
        peer := peer.(receiver := Some(Receiver(None)));
        peers := peers[target.identity := peer];
      }
      if answer.hoistFails {
        assert peers == old(peers)[target.identity := peer];
        return false;
      }
      peers := peers[target.identity := peer.(receiver := Some(Receiver(application)))];
      selected := Some(target);
      playback := Some(Playback(target.identity, target.window, peer.instance.value, application.value));
      assert peers == old(peers)[target.identity := peer.(receiver := Some(Receiver(application)))];
      return true;
    }

    method Release(target: Target)
      modifies this
      ensures Now() == Released(old(Now()), target)
    {
      var stream :=
        if playback.Some? then playback
        else if recovery.Some? then Some(recovery.value.stream)
        else None;
      if stream.Some? && stream.value.identity == target.identity && stream.value.window == target.window {
        StopStream();
      }
    }

    /** Polls every peer once, in the order of `order`. */
    method PollPeers(order: seq<Identity>, reports: Identity -> Report) returns (interruption: Option<bool>)
      requires forall identity :: identity in order <==> identity in peers
      requires forall i, j :: 0 <= i < j < |order| ==> order[i] != order[j]
      modifies this`peers
      ensures Now() == old(Now()).(peers := PolledPeers(old(Now()), reports))
      ensures interruption == Interruption(old(Now()), reports)
    {
      hide PolledPeer, Halfway;
      interruption := None;
      ghost var before := Now();
      NothingPolled(before, reports, order);
      for i := 0 to |order|
        invariant Now() == before.(peers := peers) && peers.Keys == before.peers.Keys
        invariant Halfway(before, reports, order, i, peers, interruption)
      {
        var identity := order[i];
        OnePolled(before, reports, order, i, peers, interruption);
        var plays := playback.Some? && playback.value.identity == identity;
        var polled := PolledPeer(peers[identity], reports(identity), plays);
        peers := peers[identity := polled.0];
        if plays {
          interruption := polled.1;
        }
      }
      AllPolled(before, reports, order, peers, interruption);
    }

    method RecoverStream(now: nat, seen: seq<Application>, answer: Answer)
      modifies this
      ensures Now() == Recovered(old(Now()), now, seen, answer)
    {
      if recovery.None? {
        return;
      }
      var stream := recovery.value.stream;
      var target := Target(stream.identity, stream.window);
      if now >= recovery.value.until {
        StopStream();
        returnTo := Some(target);
        revision := (revision + 1) % 0x1_0000_0000_0000_0000;
        return;
      }
      var ready := stream.identity in peers && peers[stream.identity].instance.Some?
                   && CanResume(stream, peers[stream.identity].instance.value, seen);
      if ready {
        selected := None;
        var ok := Hoist(target, answer);
        if !ok {
          returnTo := Some(target);
          revision := (revision + 1) % 0x1_0000_0000_0000_0000;
        }
      }
    }

    method Poll(now: nat, order: seq<Identity>, reports: Identity -> Report, seen: seq<Application>, answer: Answer)
      requires forall identity :: identity in order <==> identity in peers
      requires forall i, j :: 0 <= i < j < |order| ==> order[i] != order[j]
      modifies this
      ensures Now() == Polled(old(Now()), now, reports, seen, answer)
    {
      var interruption := PollPeers(order, reports);
      if interruption.Some? {
        var stream := playback;
        StopStream();
        if stream.Some? && interruption.value {
          selected := Some(Target(stream.value.identity, stream.value.window));
          reconnecting := true;
          recovery := Some(Recovery(stream.value, now + RECOVERY_SECONDS));
        }
      }
      RecoverStream(now, seen, answer);
    }
  }

  // ---------------------------------------------------------------------
  // What holds between commands and polls
  // ---------------------------------------------------------------------

  /** The receiver of `identity` asks for a window. */
  predicate Requests(s: State, identity: Identity) {
    && identity in s.peers && s.peers[identity].receiver.Some?
    && s.peers[identity].receiver.value.requested.Some?
  }

  /**
   Nothing plays while it is recovered, the selection is the target of whichever there is, and exactly the
   receiver of the playing peer asks for a window: the one that plays, of the connected instance.
   */
  ghost predicate Coherent(s: State) {
    && !(s.playback.Some? && s.recovery.Some?)
    && s.selected == Current(s)
    && s.reconnecting == s.recovery.Some?
    && (s.recovery.Some? ==> s.recovery.value.stream.application.window == s.recovery.value.stream.window)
    && (forall identity :: Requests(s, identity) ==> Plays(s, identity))
    && (s.playback.Some? ==>
          var stream := s.playback.value;
          && Requests(s, stream.identity)
          && s.peers[stream.identity].receiver.value.requested == Some(stream.application)
          && s.peers[stream.identity].instance == Some(stream.instance)
          && stream.application.window == stream.window)
  }

  lemma StopClears(s: State)
    requires forall identity :: Requests(s, identity) ==> Plays(s, identity)
    ensures forall identity :: !Requests(Stopped(s), identity)
    ensures Coherent(Stopped(s))
  {
    forall identity
      ensures !Requests(Stopped(s), identity)
    {
      assert Requests(Stopped(s), identity) ==> Requests(s, identity);
    }
  }

  /** No other receiver asks for a window when a receiver is given one. */
  lemma HoistIsCoherent(s: State, target: Target, answer: Answer)
    requires forall identity :: Requests(s, identity) ==> Plays(s, identity)
    requires s.selected == Some(target) ==> Coherent(s)
    ensures Coherent(Hoisted(s, target, answer).0)
    ensures Hoisted(s, target, answer).1 ==> Hoisted(s, target, answer).0.selected == Some(target)
  {
    StopClears(s);
    if s.selected != Some(target) {
      var stopped := Stopped(s).(returnTo := None);
      assert forall identity :: Requests(stopped, identity) == Requests(Stopped(s), identity);
      var t := Hoisted(s, target, answer).0;
      forall identity | Requests(t, identity)
        ensures Plays(t, identity)
      {
        assert !Requests(stopped, identity);
      }
    }
  }

  lemma ReleaseIsCoherent(s: State, target: Target)
    requires Coherent(s)
    ensures Coherent(Released(s, target))
    ensures Released(s, target).selected != Some(target)
    ensures s.selected != Some(target) ==> Released(s, target) == s
  {
    StopClears(s);
  }

  lemma RecoveryIsCoherent(s: State, now: nat, seen: seq<Application>, answer: Answer)
    requires Coherent(s)
    ensures Coherent(Recovered(s, now, seen, answer))
  {
    StopClears(s);
    if s.recovery.Some? {
      var cleared := s.(selected := None);
      assert forall identity :: Requests(cleared, identity) == Requests(s, identity);
      HoistIsCoherent(cleared, TargetOf(s.recovery.value.stream), answer);
      var t := Recovered(s, now, seen, answer);
      assert forall identity :: Requests(Stopped(s).(returnTo := t.returnTo, revision := t.revision), identity)
                                == Requests(Stopped(s), identity);
      var u := Hoisted(cleared, TargetOf(s.recovery.value.stream), answer).0;
      assert forall identity :: Requests(u.(returnTo := t.returnTo, revision := t.revision), identity)
                                == Requests(u, identity);
    }
  }

  /** A poll drops requests but makes none. */
  lemma PollingOnlyDropsRequests(s: State, reports: Identity -> Report, identity: Identity)
    requires Requests(s.(peers := PolledPeers(s, reports)), identity)
    ensures Requests(s, identity)
    ensures PolledPeers(s, reports)[identity].receiver == s.peers[identity].receiver
  {
  }

  lemma PollIsCoherent(s: State, now: nat, reports: Identity -> Report, seen: seq<Application>, answer: Answer)
    requires Coherent(s)
    ensures Coherent(Polled(s, now, reports, seen, answer))
  {
    var t := s.(peers := PolledPeers(s, reports));
    var interruption := Interruption(s, reports);
    forall identity | Requests(t, identity)
      ensures Plays(t, identity)
    {
      PollingOnlyDropsRequests(s, reports, identity);
    }
    var u := if interruption.Some? then Interrupted(t, interruption.value, now) else t;
    if interruption.Some? {
      StopClears(t);
      assert forall identity :: Requests(u, identity) == Requests(Stopped(t), identity);
    }
    assert Coherent(u);
    RecoveryIsCoherent(u, now, seen, answer);
  }

  datatype Operation =
    | Hoist(target: Target, answer: Answer)
    | Release(target: Target)
    | Poll(now: nat, reports: Identity -> Report, seen: seq<Application>, answer: Answer)
    | Remember(identity: Identity)

  function After(operations: seq<Operation>): State {
    if operations == [] then State(None, None, None, false, None, 0, map[])
    else
      var s := After(operations[..|operations| - 1]);
      match operations[|operations| - 1]
      case Hoist(target, answer) => Hoisted(s, target, answer).0
      case Release(target) => Released(s, target)
      case Poll(now, reports, seen, answer) => Polled(s, now, reports, seen, answer)
      case Remember(identity) => Remembered(s, identity)
  }

  lemma {:induction false} AlwaysCoherent(operations: seq<Operation>)
    ensures Coherent(After(operations))
  {
    if operations != [] {
      AlwaysCoherent(operations[..|operations| - 1]);
      var s := After(operations[..|operations| - 1]);
      match operations[|operations| - 1]
      case Hoist(target, answer) => HoistIsCoherent(s, target, answer);
      case Release(target) => ReleaseIsCoherent(s, target);
      case Poll(now, reports, seen, answer) => PollIsCoherent(s, now, reports, seen, answer);
      case Remember(identity) =>
        assert forall other :: Requests(Remembered(s, identity), other) == Requests(s, other);
    }
  }

  /**
   What a poll makes of a stream that plays. A lost connection, or a receiver that fails, starts its recovery; an
   error of the control, or a request that was closed, ends it; else it plays on.
   */
  lemma PollDecides(s: State, now: nat, reports: Identity -> Report, seen: seq<Application>, answer: Answer)
    requires Coherent(s) && s.playback.Some?
    ensures var t, stream := Polled(s, now, reports, seen, answer), s.playback.value;
            var report := reports(stream.identity);
            if !report.healthy || report.fails then
              && t.playback.None? && t.recovery == Some(Recovery(stream, now + 10))
              && t.selected == Some(Target(stream.identity, stream.window)) && t.reconnecting
              && t.peers[stream.identity] == Peer(None, None)
            else if report.error || report.closes then
              t.playback.None? && t.recovery.None? && t.selected.None? && !t.reconnecting
            else
              t.playback == s.playback && t.recovery.None? && t.selected == s.selected && !t.reconnecting
  {
  }

  lemma RestLeavesPeer(s: State, now: nat, reports: Identity -> Report, seen: seq<Application>, answer: Answer,
                       identity: Identity)
    requires Coherent(s) && identity in s.peers && !Plays(s, identity)
    requires s.recovery.Some? ==> s.recovery.value.stream.identity != identity
    ensures var t := Polled(s, now, reports, seen, answer);
            identity in t.peers && t.peers[identity] == PolledPeer(s.peers[identity], reports(identity), false).0
  {
    hide PolledPeer;
  }

  /** A poll of the other peers follows their connections, and never gives one a request. */
  lemma PollFollowsConnections(s: State, now: nat, reports: Identity -> Report, seen: seq<Application>, answer: Answer,
                               identity: Identity)
    requires Coherent(s) && identity in s.peers && !Plays(s, identity)
    requires s.recovery.Some? ==> s.recovery.value.stream.identity != identity
    ensures var peer, report, t := s.peers[identity], reports(identity), Polled(s, now, reports, seen, answer);
            && identity in t.peers
            && t.peers[identity].instance ==
                 (if peer.instance.None? then
                    if report.arrived.Some? && peer.receiver.Some? && report.fails then None else report.arrived
                  else if report.healthy && !(peer.receiver.Some? && report.fails) then peer.instance else None)
            && (t.peers[identity].receiver.Some? <==>
                  peer.receiver.Some? && !report.fails
                  && if peer.instance.Some? then report.healthy else report.arrived.Some?)
            && !Requests(t, identity)
  {
    RestLeavesPeer(s, now, reports, seen, answer, identity);
    assert !Requests(s, identity);
    hide Polled, Coherent;
  }

  // ---------------------------------------------------------------------
  // Resumption
  // ---------------------------------------------------------------------

  /** A poll that leaves a recovery pending leaves it a deadline ahead, at most ten seconds away if new. */
  lemma RecoveryEndsInTime(s: State, now: nat, reports: Identity -> Report, seen: seq<Application>, answer: Answer)
    requires Coherent(s)
    ensures var t := Polled(s, now, reports, seen, answer);
            t.recovery.Some? ==>
              && now < t.recovery.value.until
              && (t.recovery == s.recovery
                  || (s.playback == Some(t.recovery.value.stream)
                      && t.recovery.value.until == now + RECOVERY_SECONDS))
  {
  }

  /** Only a recovery resumes by itself: strictly before its deadline, on the same host, instance and window. */
  lemma ResumesInTime(s: State, now: nat, seen: seq<Application>, answer: Answer)
    requires Coherent(s) && Recovered(s, now, seen, answer).playback != s.playback
    ensures s.recovery.Some? && now < s.recovery.value.until
    ensures var old_, new_ := s.recovery.value.stream, Recovered(s, now, seen, answer).playback;
            && new_.Some? && new_.value.identity == old_.identity && new_.value.window == old_.window
            && new_.value.instance == old_.instance
            && CanResume(old_, old_.instance, seen)
            && new_.value.application == First(answer.applications, old_.window).value
  {
  }

  /** Some entry of the catalogue is the window that was lost, and may be hoisted. */
  ghost predicate Offers(applications: seq<Application>, stream: Playback) {
    exists application :: application in applications && SameWindow(application, stream.application.(window := stream.window))
                          && (application.available || application.hoistedHere)
  }

  /** The catalogue as the hoist reads it offers the window's id, and both of its calls succeed. */
  ghost predicate Grants(s: State, target: Target, answer: Answer) {
    && target.identity in s.peers && s.peers[target.identity].instance.Some?
    && (exists application :: application in answer.applications && Usable(application, target.window))
    && (s.peers[target.identity].receiver.None? ==> !answer.receiverFails)
    && !answer.hoistFails
  }

  /**
   A recovery in time waits until its host is connected with the same instance and offers the window again. Then
   the window plays, or, if the hoist fails, the recovery is over and points back to the application list.
   */
  lemma RecoveryResumes(s: State, now: nat, seen: seq<Application>, answer: Answer)
    requires Coherent(s) && s.recovery.Some? && now < s.recovery.value.until
    ensures var stream, t := s.recovery.value.stream, Recovered(s, now, seen, answer);
            var target := Target(stream.identity, stream.window);
            if !(stream.identity in s.peers && s.peers[stream.identity].instance == Some(stream.instance) && Offers(seen, stream))
            then t == s
            else
              && t.recovery.None? && !t.reconnecting
              && (if Grants(s, target, answer) then
                    && t.playback.Some? && TargetOf(t.playback.value) == target && t.selected == Some(target)
                    && t.returnTo.None? && t.revision == s.revision
                  else
                    && t.playback.None? && t.selected.None? && t.returnTo == Some(target)
                    && t.revision == (s.revision + 1) % 0x1_0000_0000_0000_0000)
  {
    var stream := s.recovery.value.stream;
    if Offers(seen, stream) {
      var application :| application in seen && SameWindow(application, stream.application.(window := stream.window))
                         && (application.available || application.hoistedHere);
      var i :| 0 <= i < |seen| && seen[i] == application;
      assert Usable(seen[i], stream.window);
    }
  }

  /**
   A hoist of a window that is not selected yet succeeds exactly if the window is granted, whatever played or was
   recovered before; in either case that is over.
   */
  lemma HoistIsGranted(s: State, target: Target, answer: Answer)
    requires Coherent(s) && s.selected != Some(target)
    ensures var (t, ok) := Hoisted(s, target, answer);
            && (ok <==> Grants(s, target, answer)) && t.recovery.None? && t.returnTo.None? && !t.reconnecting
            && (if ok then
                  && t.playback.Some? && TargetOf(t.playback.value) == target && t.selected == Some(target)
                  && s.peers[target.identity].instance == Some(t.playback.value.instance)
                  && t.playback.value.application in answer.applications
                  && Usable(t.playback.value.application, target.window)
                else t.playback.None? && t.selected.None?)
            && (!ok && Grants(s, target, answer.(hoistFails := false)) ==>
                  t.peers[target.identity] == Peer(s.peers[target.identity].instance, Some(Receiver(None))))
  {
    StopClears(s);
    assert !Requests(Stopped(s), target.identity);
  }

  /** Hoisting what is selected changes nothing, and releasing anything else neither. */
  lemma SelectedStays(s: State, target: Target, answer: Answer)
    requires Coherent(s)
    ensures s.selected == Some(target) ==> Hoisted(s, target, answer) == (s, true)
    ensures s.selected == Some(target) ==>
              var t := Released(s, target);
              t.playback.None? && t.recovery.None? && t.selected.None? && !t.reconnecting
    ensures s.selected != Some(target) ==> Released(s, target) == s
  {
  }

  /** A host that is remembered is there, not connected if it is new, and no other is touched. */
  lemma RememberAdds(s: State, identity: Identity)
    ensures var t := Remembered(s, identity);
            && t == s.(peers := t.peers) && t.peers.Keys == s.peers.Keys + {identity}
            && (forall other | other in s.peers :: t.peers[other] == s.peers[other])
            && (identity !in s.peers ==> t.peers[identity] == Peer(None, None))
  {
  }

  /** A time-out ends the recovery and points back to the application list. */
  lemma TimeoutReturns(s: State, now: nat, seen: seq<Application>, answer: Answer)
    requires Coherent(s) && s.recovery.Some? && now >= s.recovery.value.until
    ensures var t := Recovered(s, now, seen, answer);
            && t.recovery.None? && t.playback.None? && t.selected.None?
            && t.returnTo == Some(TargetOf(s.recovery.value.stream)) && !t.reconnecting
            && t.revision == (s.revision + 1) % 0x1_0000_0000_0000_0000
  {
  }

  /** No catalogue entry shares its window id with another. */
  ghost predicate UniqueWindows(applications: seq<Application>) {
    forall i, j :: 0 <= i < j < |applications| ==> applications[i].window != applications[j].window
  }

  lemma {:induction false} FirstIsUnique(applications: seq<Application>, i: nat, window: nat)
    requires UniqueWindows(applications) && i < |applications| && Usable(applications[i], window)
    ensures First(applications, window) == Some(applications[i])
  {
    if i > 0 {
      assert applications[0].window != applications[i].window;
      FirstIsUnique(applications[1..], i - 1, window);
    }
  }

  /** With unique window ids in an unchanged catalogue, what resumes is the very window that was lost. */
  lemma ResumesTheSameWindow(s: State, now: nat, seen: seq<Application>, answer: Answer)
    requires Coherent(s) && s.recovery.Some?
    requires Recovered(s, now, seen, answer).playback.Some?
    requires UniqueWindows(seen) && answer.applications == seen
    ensures SameWindow(Recovered(s, now, seen, answer).playback.value.application, s.recovery.value.stream.application)
  {
    var stream := s.recovery.value.stream;
    var i :| 0 <= i < |seen| && Usable(seen[i], stream.window)
             && seen[i].surface == stream.application.surface && seen[i].appId == stream.application.appId;
    FirstIsUnique(seen, i, stream.window);
  }

  /**
   What resumes is the window that was lost if and only if, in the catalogue as the hoist reads it again, the
   first usable entry of its id has its surface and application id.
   */
  lemma ResumesThatWindow(s: State, now: nat, seen: seq<Application>, answer: Answer)
    requires Coherent(s) && s.recovery.Some? && Recovered(s, now, seen, answer).playback.Some?
    ensures var stream := s.recovery.value.stream;
            var first := First(answer.applications, stream.window);
            SameWindow(Recovered(s, now, seen, answer).playback.value.application, stream.application) <==>
              first.Some? && first.value.surface == stream.application.surface
              && first.value.appId == stream.application.appId
  {
    ResumesInTime(s, now, seen, answer);
  }

  /** A duplicate id is enough to resume another window, even if the catalogue did not change. */
  lemma ResumesAnotherWindow(instance: nat) returns (s: State, seen: seq<Application>, answer: Answer)
    ensures Coherent(s) && s.recovery.Some? && answer.applications == seen && !UniqueWindows(seen)
    ensures Recovered(s, 0, seen, answer).playback.Some?
    ensures !SameWindow(Recovered(s, 0, seen, answer).playback.value.application, s.recovery.value.stream.application)
  {
    var lost, other := Application(1, 1, 1, true, false), Application(1, 2, 2, true, false);
    var stream := Playback(0, 1, instance, lost);
    s := State(None, Some(Recovery(stream, 10)), Some(Target(0, 1)), true, None, 0, map[0 := Peer(Some(instance), None)]);
    seen := [other, lost];
    answer := Answer(seen, false, false);
    assert seen[0].window == seen[1].window;
    assert Usable(seen[1], 1);
  }
}
