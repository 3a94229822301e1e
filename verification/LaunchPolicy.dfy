/**
 Launch policies: inserted before a process may start, kept as long as it may run.

 Launchers, the policy system and the native host take steps in any order. A launcher sends its
 preparation, waits, and only after a positive reply asks the host for a process; after a definite
 rejection it sends a cancellation. Launch ids are random and may collide.
 */
module LaunchPolicy {
  import opened Wrappers

  type Id = nat
  type LauncherId = nat

  /** `policies` tells for each launch id whose preparation inserted it. */
  type Policies = map<Id, LauncherId>

  const MAX_ATTRIBUTED_LAUNCHES: nat := 256

  const CHANNEL: nat := 32

  datatype Message = Prepare(launcher: LauncherId, id: Id) | Cancel(launcher: LauncherId, id: Id)

  /** What handling one message meets: its deadline, workspace and permit, and whether anyone awaits the reply. */
  datatype Meeting = Meeting(expired: bool, refused: bool, listening: bool)

  predicate Accepts(policies: Policies, id: Id, m: Meeting) {
    !m.expired && |policies| < MAX_ATTRIBUTED_LAUNCHES && id !in policies && !m.refused
  }

  /** The policies after one message; an insertion whose reply cannot be delivered is taken back. */
  function Handled(policies: Policies, message: Message, m: Meeting): Policies {
    match message
    case Cancel(_, id) => policies - {id}
    case Prepare(launcher, id) =>
      if Accepts(policies, id, m) && m.listening then policies[id := launcher] else policies
  }

  /** The policies after a share of the channel, and the replies to it: whether each message prepared a launch. */
  function HandledAll(policies: Policies, messages: seq<(Message, Meeting)>): (Policies, seq<bool>) {
    if messages == [] then (policies, [])
    else
      var n := |messages| - 1;
      var (before, replies) := HandledAll(policies, messages[..n]);
      var (message, meeting) := messages[n];
      (Handled(before, message, meeting), replies + [message.Prepare? && Accepts(before, message.id, meeting)])
  }

  /** The policies before message `k` of a share. */
  function Before(policies: Policies, messages: seq<(Message, Meeting)>, k: nat): Policies
    requires k <= |messages|
  {
    HandledAll(policies, messages[..k]).0
  }

  /** `after` and `reply` are what one message comes to, given the policies before it. */
  ghost predicate Judged(before: Policies, message: Message, m: Meeting, after: Policies, reply: bool) {
    match message
    case Cancel(_, id) => !reply && after == map other | other in before && other != id :: before[other]
    case Prepare(launcher, id) =>
      if m.expired || m.refused || |before| >= 256 || id in before then !reply && after == before
      else
        && reply && after.Keys == before.Keys + (if m.listening then {id} else {})
        && (m.listening ==> after[id] == launcher)
        && forall other | other in before :: after[other] == before[other]
  }

  lemma OneIsJudged(before: Policies, message: Message, m: Meeting)
    ensures Judged(before, message, m, Handled(before, message, m), message.Prepare? && Accepts(before, message.id, m))
  {
  }

  /**
   What each message of a share comes to, given the policies that those before it left. A preparation that is
   late, refused, one too many, or under an id in use changes nothing and is told so. Any other is told that it is
   prepared, and its policy is in place, unless nobody hears that. A cancellation takes the policy of its id away.
   */
  lemma {:induction false} EachIsJudged(policies: Policies, messages: seq<(Message, Meeting)>, k: nat)
    requires k < |messages|
    ensures |HandledAll(policies, messages).1| == |messages|
    ensures Judged(Before(policies, messages, k), messages[k].0, messages[k].1, Before(policies, messages, k + 1),
                   HandledAll(policies, messages).1[k])
  {
    hide Judged, Handled, Accepts;
    var n := |messages| - 1;
    if k < n {
      EachIsJudged(policies, messages[..n], k);
      assert messages[..n][..k] == messages[..k] && messages[..n][..k + 1] == messages[..k + 1];
    } else {
      RepliesCount(policies, messages[..n]);
      OneIsJudged(HandledAll(policies, messages[..n]).0, messages[n].0, messages[n].1);
      assert messages[..k + 1] == messages && messages[..k] == messages[..n];
    }
  }

  lemma {:induction false} RepliesCount(policies: Policies, messages: seq<(Message, Meeting)>)
    ensures |HandledAll(policies, messages).1| == |messages|
  {
    if messages != [] {
      RepliesCount(policies, messages[..|messages| - 1]);
    }
  }

  class Launches {
    var policies: Policies

    method HandleOne(message: Message, m: Meeting) returns (prepared: bool)
      modifies this
      ensures policies == Handled(old(policies), message, m)
      ensures prepared <==> message.Prepare? && Accepts(old(policies), message.id, m)
    {
      match message
      case Cancel(_, id) =>
        policies := policies - {id};
        return false;
      case Prepare(launcher, id) =>
        prepared := !m.expired && |policies| < MAX_ATTRIBUTED_LAUNCHES && id !in policies && !m.refused;
        if prepared {
          policies := policies[id := launcher];
          if !m.listening {
            policies := policies - {id};
            assert policies == old(policies);
          }
        }
    }

    /** One frame's share of the channel. */
    method PrepareAll(messages: seq<(Message, Meeting)>) returns (replies: seq<bool>)
      requires |messages| <= CHANNEL
      modifies this
      ensures (policies, replies) == HandledAll(old(policies), messages)
    {
      replies := [];
      for i := 0 to |messages|
        invariant (policies, replies) == HandledAll(old(policies), messages[..i])
      {
        assert messages[..i + 1][..i] == messages[..i];
        var prepared := HandleOne(messages[i].0, messages[i].1);
        replies := replies + [prepared];
      }
      assert messages[..|messages|] == messages;
    }
  }

  // ---------------------------------------------------------------------
  // All actors together
  // ---------------------------------------------------------------------

  /** `Unknown`: the launcher stopped waiting for the host, which may still start the process. */
  datatype Phase =
    | Waiting(reply: Option<bool>)
    | GaveUp
    | Failed
    | Launching
    | Unknown
    | Started
    | Rejected
    | Cancelling
    | Cancelled

  datatype Launcher = Launcher(id: Id, phase: Phase)

  datatype State = State(policies: Policies, channel: seq<Message>, launchers: map<LauncherId, Launcher>)

  const IDLE := State(map[], [], map[])

  datatype Step =
    | Send(launcher: LauncherId, id: Id)
    | Process(expired: bool, refused: bool)
    | Receive(launcher: LauncherId)
    | GiveUp(launcher: LauncherId)
    | Forget(launcher: LauncherId)
    | Start(launcher: LauncherId)
    | Reject(launcher: LauncherId)
    | SendCancel(launcher: LauncherId)

  predicate In(s: State, l: LauncherId, phases: set<Phase>) {
    l in s.launchers && s.launchers[l].phase in phases
  }

  predicate Awaits(s: State, l: LauncherId) {
    l in s.launchers && s.launchers[l].phase.Waiting?
  }

  predicate Can(step: Step, s: State) {
    match step
    case Send(l, _) => l !in s.launchers && |s.channel| < CHANNEL
    case Process(_, _) => s.channel != []
    case Receive(l) => Awaits(s, l) && s.launchers[l].phase.reply.Some?
    case GiveUp(l) => Awaits(s, l)
    case Forget(l) => In(s, l, {Launching})
    case Start(l) => In(s, l, {Launching, Unknown})
    case Reject(l) => In(s, l, {Launching})
    case SendCancel(l) => In(s, l, {Rejected}) && |s.channel| < CHANNEL
  }

  function Moved(s: State, l: LauncherId, phase: Phase): State
    requires l in s.launchers
  {
    s.(launchers := s.launchers[l := s.launchers[l].(phase := phase)])
  }

  /** The first message of the channel, handled. */
  function Processed(s: State, expired: bool, refused: bool): State
    requires s.channel != []
  {
    var message := s.channel[0];
    var l := message.launcher;
    var meeting := Meeting(expired, refused, Awaits(s, l));
    var t := s.(channel := s.channel[1..], policies := Handled(s.policies, message, meeting));
    match message
    case Cancel(_, _) => if l in s.launchers then Moved(t, l, Cancelled) else t
    case Prepare(_, id) => if Awaits(s, l) then Moved(t, l, Waiting(Some(Accepts(s.policies, id, meeting)))) else t
  }

  function Do(step: Step, s: State): State
    requires Can(step, s)
  {
    match step
    case Send(l, id) =>
      s.(channel := s.channel + [Prepare(l, id)], launchers := s.launchers[l := Launcher(id, Waiting(None))])
    case Process(expired, refused) => Processed(s, expired, refused)
    case Receive(l) => Moved(s, l, if s.launchers[l].phase.reply.value then Launching else Failed)
    case GiveUp(l) => Moved(s, l, GaveUp)
    case Forget(l) => Moved(s, l, Unknown)
    case Start(l) => Moved(s, l, Started)
    case Reject(l) => Moved(s, l, Rejected)
    case SendCancel(l) => Moved(s, l, Cancelling).(channel := s.channel + [Cancel(l, s.launchers[l].id)])
  }

  /** Its own policy is in place for a launcher in one of these phases. */
  predicate Holding(phase: Phase) {
    phase == Waiting(Some(true)) || phase in {Launching, Unknown, Started, Rejected, Cancelling}
  }

  predicate Owns(s: State, l: LauncherId) {
    l in s.launchers && s.launchers[l].id in s.policies && s.policies[s.launchers[l].id] == l
  }

  /** A preparation nobody has answered yet, and a cancellation not handled yet, are in the channel. */
  ghost predicate NothingLost(s: State) {
    && (forall l | l in s.launchers && s.launchers[l].phase == Waiting(None) :: Prepare(l, s.launchers[l].id) in s.channel)
    && (forall l | l in s.launchers && s.launchers[l].phase == Cancelling :: Cancel(l, s.launchers[l].id) in s.channel)
  }

  ghost predicate Inv(s: State) {
    Ordered(s) && NothingLost(s)
  }

  /** Launchers that may run have their policy, and the channel holds one message of a launcher at most. */
  ghost predicate Ordered(s: State) {
    && |s.channel| <= CHANNEL
    && |s.policies| <= MAX_ATTRIBUTED_LAUNCHES
    && (forall l | l in s.launchers :: Holding(s.launchers[l].phase) ==> Owns(s, l))
    && (forall i | 0 <= i < |s.channel| ::
          var l := s.channel[i].launcher;
          && l in s.launchers && s.launchers[l].id == s.channel[i].id
          && (s.channel[i].Prepare? ==> s.launchers[l].phase in {Waiting(None), GaveUp})
          && (s.channel[i].Cancel? ==> s.launchers[l].phase == Cancelling))
    && (forall i, j | 0 <= i < j < |s.channel| :: s.channel[i].launcher != s.channel[j].launcher)
  }

  lemma HandledIsLimited(policies: Policies, message: Message, m: Meeting)
    requires |policies| <= MAX_ATTRIBUTED_LAUNCHES
    ensures |Handled(policies, message, m)| <= MAX_ATTRIBUTED_LAUNCHES
  {
    if message.Cancel? && message.id in policies {
      assert policies.Keys == (policies - {message.id}).Keys + {message.id};
    } else if message.Cancel? {
      assert policies - {message.id} == policies;
    }
  }

  lemma ProcessLosesNothing(s: State, expired: bool, refused: bool)
    requires NothingLost(s) && s.channel != []
    ensures NothingLost(Processed(s, expired, refused))
  {
    var t, head := Processed(s, expired, refused), s.channel[0];
    assert forall message | message in s.channel :: message == head || message in s.channel[1..];
  }

  lemma SendLosesNothing(step: Step, s: State)
    requires NothingLost(s) && Can(step, s) && !step.Process?
    ensures NothingLost(Do(step, s))
  {
    match step
    case Send(l, id) => assert (s.channel + [Prepare(l, id)])[|s.channel|] == Prepare(l, id);
    case SendCancel(l) =>
      assert (s.channel + [Cancel(l, s.launchers[l].id)])[|s.channel|] == Cancel(l, s.launchers[l].id);
    case _ =>
  }

  lemma ProcessOrdered(s: State, expired: bool, refused: bool)
    requires Ordered(s) && s.channel != []
    ensures Ordered(Processed(s, expired, refused))
  {
    var t, message := Processed(s, expired, refused), s.channel[0];
    HandledIsLimited(s.policies, message, Meeting(expired, refused, Awaits(s, message.launcher)));
    assert forall i :: 0 <= i < |t.channel| ==> t.channel[i] == s.channel[i + 1];
    forall l | l in t.launchers && Holding(t.launchers[l].phase)
      ensures Owns(t, l)
    {
      assert l != message.launcher ==> Owns(s, l);
    }
  }

  lemma StepOrdered(step: Step, s: State)
    requires Ordered(s) && Can(step, s) && !step.Process?
    ensures Ordered(Do(step, s))
  {
    var t := Do(step, s);
    assert forall l | l in s.launchers :: Owns(s, l) ==> Owns(t, l);
  }

  lemma StepInv(step: Step, s: State)
    requires Inv(s) && Can(step, s)
    ensures Inv(Do(step, s))
  {
    hide Ordered, NothingLost;
    match step
    case Process(expired, refused) =>
      ProcessOrdered(s, expired, refused);
      ProcessLosesNothing(s, expired, refused);
    case _ =>
      StepOrdered(step, s);
      SendLosesNothing(step, s);
  }

  // ---------------------------------------------------------------------
  // Whole runs
  // ---------------------------------------------------------------------

  ghost predicate Legal(states: seq<State>, steps: seq<Step>) {
    && |states| == |steps| + 1 && states[0] == IDLE
    && forall i {:trigger steps[i]} :: 0 <= i < |steps| ==> Can(steps[i], states[i]) && states[i + 1] == Do(steps[i], states[i])
  }

  lemma {:induction false} AlwaysInv(states: seq<State>, steps: seq<Step>, k: nat)
    requires Legal(states, steps) && k < |states|
    ensures Inv(states[k])
  {
    if k > 0 {
      AlwaysInv(states, steps, k - 1);
      assert Can(steps[k - 1], states[k - 1]);
      StepInv(steps[k - 1], states[k - 1]);
    }
  }

  /** A policy goes away only through the cancellation of its own launcher, whose launch the host rejected. */
  lemma OnlyOwnCancelRemoves(s: State, step: Step, id: Id)
    requires Inv(s) && Can(step, s) && id in s.policies
    ensures id !in Do(step, s).policies ==>
              && step.Process? && s.channel[0] == Cancel(s.policies[id], id) && In(s, s.policies[id], {Cancelling})
    ensures id in Do(step, s).policies ==> Do(step, s).policies[id] == s.policies[id]
  {
    if step.Process? && s.channel[0].Cancel? {
      assert Owns(s, s.channel[0].launcher);
    }
  }

  /** Being started is final, and so is the id a launcher chose. */
  lemma LauncherStays(s: State, step: Step, l: LauncherId)
    requires Inv(s) && Can(step, s) && l in s.launchers
    ensures l in Do(step, s).launchers && Do(step, s).launchers[l].id == s.launchers[l].id
    ensures s.launchers[l].phase == Started ==> Do(step, s).launchers[l].phase == Started
  {
    if step.Process? {
      assert s.launchers[s.channel[0].launcher].phase != Started;
    }
    hide Inv;
    match step
    case _ =>
  }

  /** Step `p` inserted the launcher's policy. */
  ghost predicate InsertedAt(states: seq<State>, steps: seq<Step>, p: nat, l: LauncherId, id: Id)
    requires p < |steps| && |states| == |steps| + 1
  {
    && steps[p].Process? && states[p].channel != [] && states[p].channel[0] == Prepare(l, id)
    && id !in states[p].policies && id in states[p + 1].policies && states[p + 1].policies[id] == l
  }

  lemma NewPolicy(s: State, step: Step, id: Id)
    requires Inv(s) && Can(step, s) && id in Do(step, s).policies
    ensures (id in s.policies && Do(step, s).policies[id] == s.policies[id])
            || (&& step.Process? && s.channel != [] && s.channel[0] == Prepare(Do(step, s).policies[id], id)
                && id !in s.policies)
  {
  }

  lemma {:induction false} PolicyWasInserted(states: seq<State>, steps: seq<Step>, k: nat, l: LauncherId, id: Id)
    returns (p: nat)
    requires Legal(states, steps) && k < |states| && id in states[k].policies && states[k].policies[id] == l
    ensures p < k && InsertedAt(states, steps, p, l, id)
  {
    AlwaysInv(states, steps, k - 1);
    assert Can(steps[k - 1], states[k - 1]);
    NewPolicy(states[k - 1], steps[k - 1], id);
    if id in states[k - 1].policies && states[k - 1].policies[id] == l {
      p := PolicyWasInserted(states, steps, k - 1, l, id);
    } else {
      p := k - 1;
    }
  }

  lemma {:induction false} StartedStays(states: seq<State>, steps: seq<Step>, i: nat, k: nat, l: LauncherId)
    requires Legal(states, steps) && i < k < |states| && steps[i] == Start(l)
    ensures l in states[k].launchers && states[k].launchers[l].phase == Started
    ensures l in states[i].launchers && states[k].launchers[l].id == states[i].launchers[l].id
    decreases k
  {
    assert Can(steps[i], states[i]);
    if i + 1 < k {
      StartedStays(states, steps, i, k - 1, l);
      AlwaysInv(states, steps, k - 1);
      assert Can(steps[k - 1], states[k - 1]);
      LauncherStays(states[k - 1], steps[k - 1], l);
    }
  }

  /** A process is started only after its launcher's policy was inserted, which then stays for good. */
  lemma PolicyBeforeProcess(states: seq<State>, steps: seq<Step>, i: nat, k: nat, l: LauncherId) returns (p: nat)
    requires Legal(states, steps) && i < |steps| && steps[i] == Start(l) && i <= k < |states|
    ensures l in states[i].launchers && p < i && InsertedAt(states, steps, p, l, states[i].launchers[l].id)
    ensures states[i].launchers[l].id in states[k].policies && states[k].policies[states[i].launchers[l].id] == l
  {
    AlwaysInv(states, steps, i);
    AlwaysInv(states, steps, k);
    assert Can(steps[i], states[i]) && Owns(states[i], l);
    p := PolicyWasInserted(states, steps, i, l, states[i].launchers[l].id);
    if i < k {
      StartedStays(states, steps, i, k, l);
      assert Owns(states[k], l);
    }
  }

  /** Two processes never share a launch id, although ids may collide. */
  lemma ProcessesAreTold(states: seq<State>, steps: seq<Step>, i: nat, j: nat, a: LauncherId, b: LauncherId)
    requires Legal(states, steps) && i < j < |steps| && steps[i] == Start(a) && steps[j] == Start(b) && a != b
    ensures a in states[i].launchers && b in states[j].launchers
    ensures states[i].launchers[a].id != states[j].launchers[b].id
  {
    var p := PolicyBeforeProcess(states, steps, i, j, a);
    var q := PolicyBeforeProcess(states, steps, j, j, b);
  }

  lemma LimitHolds(states: seq<State>, steps: seq<Step>, k: nat)
    requires Legal(states, steps) && k < |states|
    ensures |states[k].policies| <= MAX_ATTRIBUTED_LAUNCHES
  {
    AlwaysInv(states, steps, k);
  }
}
