/**
 The service and the recovery of the isolated network test, as the programs they are.

 Every command and record write goes through `Take`: others may act first, the command may fail with or
 without effect, and the process may be killed before or after it. A `calm` call is one that nobody
 disturbs. The run carried along shows that every execution is a legal run of `NetworkProtocol`.
 */
module NetworkSupervisor {
  import opened Wrappers
  import opened NetworkProtocol

  datatype Fate = Done | Refused | Killed

  datatype Exit = Code(code: nat) | Died

  /** Polls that fit into the readiness deadline for a returning device. */
  const READINESS_POLLS: nat := 50

  /**
   The present state of record, world and lock holder, and how it came about: nobody has taken the lock
   since step `entered`, and nobody but its holder has acted since step `alone`.
   */
  datatype Run = Run(now: State, states: seq<State>, steps: seq<Step>, entered: nat, alone: nat)

  predicate TakesLock(step: Step) {
    step.BeginSetup? || step.BeginRecovery?
  }

  /** Nobody has taken the lock, or nobody else has acted, since some steps. */
  ghost predicate Marked(r: Run) {
    && r.entered <= |r.steps| && r.alone <= |r.steps|
    && (forall i :: r.entered <= i < |r.steps| ==> !TakesLock(r.steps[i]))
    && (forall i :: r.alone <= i < |r.steps| ==> !r.steps[i].Elsewhere?)
  }

  ghost predicate Valid(r: Run) {
    Legal(r.states, r.steps) && r.states[|r.steps|] == r.now && Marked(r)
  }

  lemma Invariant(r: Run)
    requires Valid(r)
    ensures Inv(r.now)
  {
    AlwaysInv(r.states, r.steps, |r.steps|);
  }

  /** `r` goes on where `before` ends. */
  ghost predicate Extends(before: Run, r: Run) {
    before.steps <= r.steps && before.states <= r.states
  }

  /** `r` continues `before` without anybody taking the lock. */
  ghost predicate Continues(before: Run, r: Run) {
    && Valid(r) && Extends(before, r) && r.entered == before.entered
    && r.now.plan == before.now.plan && r.now.started == before.now.started
  }

  /** `r` is `before`, and then all that happened while one process held the lock and let it go again. */
  ghost predicate OneHolder(before: Run, r: Run, first: Step, calm: bool) {
    && Extends(before, r) && |before.steps| < |r.steps| && r.steps[|before.steps|] == first
    && r.now.actor == Nobody
    && forall i :: |before.steps| < i < |r.steps| ==>
         !TakesLock(r.steps[i]) && (calm ==> !r.steps[i].Elsewhere?)
  }

  /** Only others acted between `before` and `r`. */
  ghost predicate OnlyOthers(before: Run, r: Run) {
    && Continues(before, r)
    && r.now.record == before.now.record && r.now.actor == before.now.actor
    && forall i :: |before.steps| <= i < |r.steps| ==> r.steps[i].Elsewhere?
  }

  /** The world of `r` is `world`, and no one intruded. */
  ghost predicate Calm(before: Run, r: Run, world: World) {
    r.now.world == world && r.now.intruded == before.now.intruded
  }

  /** What the device is called and does is as recorded. */
  predicate Present(s: State) {
    s.world.identity == s.plan.device && !s.world.place.Absent?
  }

  predicate Unchanged(s: State) {
    Present(s) && s.world.profile == s.plan.profile
  }

  predicate NeedsAdoption(r: Record) {
    r.namespaceRequested && r.namespaceInode.None? && !r.released && !r.moveRequested
  }

  /** A namespace under the run's name is empty, and the one recorded or one announced and never recorded. */
  predicate Claimable(s: State) {
    s.world.namespace.Some? ==>
      && !s.world.namespace.value.held && !s.world.namespace.value.cluttered
      && (NeedsAdoption(s.record)
          || (s.record.namespaceRequested && s.record.namespaceInode == Some(s.world.namespace.value.inode)))
  }

  /** The surroundings a restoration needs: a namespace it may claim, if any, and an unchanged device, if released. */
  predicate Cooperative(s: State) {
    Claimable(s) && (s.record.released ==> Unchanged(s))
  }

  /** The device is back where it was found, managed and under its own profile, and the test's lease is over. */
  predicate DeviceHome(s: State) {
    && s.world.identity == s.plan.device && s.world.place == Home && s.world.managed
    && s.world.active == Some(s.plan.profile) && !s.world.lease
  }

  /** What is left at a directory once those this run made are removed. */
  function LeftAt(s: State, d: Directory): Option<Folder> {
    var folder := s.world.dirs.At(d);
    if folder.Some? && s.record.mountpoints.At(d) == Made(folder.value.inode) then None else folder
  }

  function DirsLeft(s: State): Each<Option<Folder>> {
    Each(LeftAt(s, RunDhcpcd), LeftAt(s, LibDhcpcd))
  }

  function HomeAgain(w: World, profile: nat, ifindex: nat): World {
    w.(place := Home, ifindex := ifindex, managed := true, active := Some(profile))
  }

  /** What a restoration makes of the world of `s`; a device that returns gets a new interface index. */
  function Undone(s: State, ifindex: nat): World {
    var cleared := s.world.(lease := false, namespace := None, dirs := DirsLeft(s));
    if s.record.released then HomeAgain(cleared, s.plan.profile, ifindex) else cleared
  }

  /** `t` is what a successful cleanup leaves of `s`, which undoes nothing if that was closed already. */
  predicate Restored(s: State, t: State) {
    && t.record.closed && !t.record.released && !Owned(t.world)
    && (Present(s) ==> DeviceHome(t))
    && t.world == if s.record.closed then s.world else Undone(s, t.world.ifindex)
  }

  /** What was established stays established. */
  ghost predicate Keeps(c: Checks, d: Checks) {
    c.passed <= d.passed && (c.gone ==> d.gone)
  }

  /** The recovery attempt goes on, forgetting nothing. */
  ghost predicate Advances(before: Run, r: Run) {
    && before.now.actor.Recovery? && r.now.actor.Recovery?
    && Keeps(before.now.actor.checks, r.now.actor.checks)
  }

  /** Besides, the attempt saw no other namespace or interface. */
  ghost predicate Proceeds(before: Run, r: Run) {
    && Advances(before, r)
    && r.now.actor.checks.adoptable == before.now.actor.checks.adoptable
    && r.now.actor.checks.inside == before.now.actor.checks.inside
  }

  /** `at` is a state `r` was in since `before`. */
  ghost predicate Met(before: Run, r: Run, at: State) {
    exists k: nat :: |before.steps| <= k < |r.states| && r.states[k] == at
  }

  /** Since `before`, and with the run closed, the host's routes and names worked, or did not. */
  ghost predicate RouteSeen(before: Run, r: Run, routed: bool) {
    exists k: nat :: |before.steps| <= k < |r.states| && SeesRoute(r.states[k], routed)
  }

  predicate SeesRoute(s: State, routed: bool) {
    s.record.closed && s.world.routed == routed
  }

  /** A cleanup of `s` has nothing left to do. */
  predicate Settled(s: State) {
    s.record.closed && !s.record.verificationError
  }

  /** Since `before` only others acted, but for this one step and the end of its process. */
  ghost predicate OnlyTakes(before: Run, r: Run, step: Step) {
    forall i :: |before.steps| <= i < |r.steps| ==>
      || r.steps[i].Elsewhere? || r.steps[i].Leave?
      || (r.steps[i] == step && forall l :: |before.steps| <= l < i ==> r.steps[l].Elsewhere?)
  }

  /** Since `before` this check was passed, and no command came after it. */
  ghost predicate Passed(before: Run, r: Run, check: Check, n: nat)
    requires n <= |r.steps|
  {
    exists j: nat :: |before.steps| <= j < n && r.steps[j] == Verify(check) && forall l :: j < l < n ==> !r.steps[l].Repair?
  }

  /** Each time since `before` that the device was to be managed, all of this had been checked anew. */
  ghost predicate Rechecked(before: Run, r: Run) {
    forall i: nat :: |before.steps| <= i < |r.steps| && r.steps[i] == Repair(Manage) ==>
      Passed(before, r, Physical, i) && Passed(before, r, HomeMatches, i) && Passed(before, r, ProfileKept, i)
  }

  // ---------------------------------------------------------------------
  // Atomic steps, and the ways they can go wrong
  // ---------------------------------------------------------------------

  method Perform(before: Run, step: Step) returns (r: Run)
    requires Valid(before) && Permitted(step, before.now) && Possible(step, before.now)
    ensures Valid(r) && r.now == Apply(step, before.now)
    ensures r.steps == before.steps + [step] && r.states == before.states + [r.now]
    ensures r.entered == if TakesLock(step) then |r.steps| else before.entered
    ensures r.alone == if step.Elsewhere? then |r.steps| else before.alone
  {
    LegalSnoc(before.states, before.steps, step);
    var next, length := Apply(step, before.now), |before.steps| + 1;
    r := Run(next, before.states + [next], before.steps + [step],
             if TakesLock(step) then length else before.entered,
             if step.Elsewhere? then length else before.alone);
  }

  /** Gives the device lock back, by exit or by death. */
  method Release(before: Run) returns (r: Run)
    requires Valid(before) && !before.now.actor.Nobody?
    ensures Continues(before, r) && r.now == before.now.(actor := Nobody) && r.alone == before.alone
    ensures r.steps == before.steps + [Leave]
  {
    r := Perform(before, Leave);
  }

  method Act(before: Run, step: Step) returns (r: Run)
    requires Valid(before) && MayAct(step, before.now.record, before.now.actor) && Possible(step, before.now)
    ensures Continues(before, r) && r.now == Apply(step, before.now) && !r.now.actor.Nobody?
    ensures r.alone == before.alone && r.steps == before.steps + [step]
  {
    r := Perform(before, step);
  }

  /** Any number of actions of others; none when calm. */
  method Interfere(before: Run, calm: bool) returns (r: Run)
    requires Valid(before)
    ensures OnlyOthers(before, r)
    ensures calm ==> r == before
  {
    r := before;
    var events: nat := *;
    if calm {
      events := 0;
    }
    while events > 0
      invariant OnlyOthers(before, r)
      invariant calm ==> r == before
    {
      var event: Event := *;
      if CanHappen(event, r.now) {
        r := Perform(r, Elsewhere(event));
      }
      events := events - 1;
    }
  }

  lemma EndsNow(r: Run)
    requires Valid(r)
    ensures |r.states| == |r.steps| + 1 && r.states[|r.steps|] == r.now
  {
  }

  lemma ActsOnRecord(s: State, step: Step)
    requires MayAct(step, s.record, s.actor)
    ensures Possible(step, s) ==> Apply(step, s).record == if step.Write? then step.record else s.record
  {
  }

  /**
   Attempts one step of the lock holder. A killed process has left the lock; a refused command may still
   have taken effect, a refused check has not. `at` is the state of the run that the step met.
   */
  method Take(before: Run, step: Step, calm: bool) returns (r: Run, fate: Fate, ghost at: State)
    requires Valid(before) && MayAct(step, before.now.record, before.now.actor) && !before.now.actor.Nobody?
    ensures Continues(before, r) && at.plan == r.now.plan && Met(before, r, at)
    ensures at.record == before.now.record && at.actor == before.now.actor
    ensures fate == Done ==> Possible(step, at) && r.now == Apply(step, at)
    ensures fate == Refused ==> r.now == at || (!step.Verify? && Possible(step, at) && r.now == Apply(step, at))
    ensures fate == Killed ==> r.now.actor == Nobody
    ensures r.now.record == before.now.record || (step.Write? && r.now.record == step.record)
    ensures calm ==> at == before.now && fate != Killed && (fate == Refused ==> r.now == at)
    ensures calm ==> (fate == Done <==> Possible(step, at))
    ensures calm ==> r.alone == before.alone
    ensures OnlyTakes(before, r, step)
    ensures fate == Done ==> |before.steps| < |r.steps| && r.steps[|r.steps| - 1] == step
  {
    hide Legal, Marked, MayAct, Possible, Permitted, Apply;
    r := Interfere(before, calm);
    at := r.now;
    EndsNow(r);
    ActsOnRecord(at, step);
    var early: bool, failing: bool, late: bool := *, *, *;
    if !calm && early {
      r := Release(r);
      return r, Killed, at;
    }
    if !Possible(step, r.now) || (!calm && failing && (step.Verify? || late)) {
      return r, Refused, at;
    }
    r := Act(r, step);
    if !calm && failing {
      return r, Refused, at;
    }
    if !calm && late {
      r := Release(r);
      return r, Killed, at;
    }
    return r, Done, at;
  }

  /** Replaces the durable record. */
  method Mark(before: Run, record: Record, calm: bool) returns (r: Run, fate: Fate)
    requires Valid(before) && MayWrite(before.now.actor, before.now.record, record) && !before.now.actor.Nobody?
    ensures Continues(before, r)
    ensures r.now.actor == if fate == Killed then Nobody else before.now.actor
    ensures fate == Done ==> r.now.record == record
    ensures r.now.record == record || r.now.record == before.now.record
    ensures calm ==> fate == Done && Calm(before, r, before.now.world)
    ensures calm ==> fate != Killed && r.alone == before.alone
  {
    hide Legal, Marked;
    ghost var at;
    r, fate, at := Take(before, Write(record), calm);
  }

  /** Checks something about the world as it is at that moment. */
  method Check(before: Run, check: Check, calm: bool) returns (r: Run, fate: Fate)
    requires Valid(before) && before.now.actor.Recovery?
    ensures Continues(before, r) && r.now.record == before.now.record
    ensures if fate == Killed then r.now.actor == Nobody else Advances(before, r)
    ensures fate != Killed && (fate == Refused || (!check.Adoptable? && !check.InsideMatches?)) ==> Proceeds(before, r)
    ensures fate == Done ==> check in r.now.actor.checks.passed
    ensures fate == Done && check.Adoptable? ==>
              && r.now.world.namespace.Some?
              && r.now.actor.checks.adoptable == Some(r.now.world.namespace.value.inode)
    ensures fate == Done && check.InsideMatches? ==> r.now.actor.checks.inside == Some(r.now.world.ifindex)
    ensures OnlyTakes(before, r, Verify(check))
    ensures fate == Done ==> |before.steps| < |r.steps| && r.steps[|r.steps| - 1] == Verify(check)
    ensures calm ==> fate == (if Holds(check, before.now) then Done else Refused)
    ensures calm ==> Calm(before, r, before.now.world)
    ensures calm ==> fate != Killed && r.alone == before.alone
  {
    hide Legal, Marked;
    ghost var at;
    r, fate, at := Take(before, Verify(check), calm);
  }

  /** Runs one command of a recovery attempt. */
  method Command(before: Run, repair: RepairStep, calm: bool) returns (r: Run, fate: Fate)
    requires Valid(before) && MayRepair(repair, before.now.record, before.now.actor)
    ensures Continues(before, r) && r.now.record == before.now.record
    ensures if fate == Killed then r.now.actor == Nobody else Proceeds(before, r)
    ensures fate == Done && repair.DeleteNamespace? ==> r.now.actor.checks.gone
    ensures OnlyTakes(before, r, Repair(repair))
    ensures calm ==> fate == (if CanRepair(repair, before.now.record, before.now.world) then Done else Refused)
    ensures calm ==> Calm(before, r, if fate == Done then RepairWorld(repair, before.now.plan, before.now.world)
                                     else before.now.world)
    ensures calm ==> fate != Killed && r.alone == before.alone
  {
    hide Legal, Marked;
    ghost var at;
    r, fate, at := Take(before, Repair(repair), calm);
  }

  // ---------------------------------------------------------------------
  // Restoration. `memory` is the attempt's copy of the record; it always
  // remains something the attempt may write.
  // ---------------------------------------------------------------------

  /** `memory` is what is durable, and the attempt goes on. */
  ghost predicate Restoring(r: Run, memory: Record) {
    Valid(r) && r.now.actor.Recovery? && !r.now.record.closed && memory == r.now.record
  }

  /** What the attempt remembers may replace the record, in particular to note an error. */
  ghost predicate Remembering(r: Run, memory: Record) {
    && Valid(r) && r.now.actor.Recovery? && !r.now.record.closed && !memory.closed
    && MayRecord(r.now.actor.checks, r.now.record, memory)
  }

  /** How every phase of a restoration may end. */
  ghost predicate Ends(before: Run, r: Run, fate: Fate, memory: Record) {
    && Continues(before, r)
    && if fate == Killed then r.now.actor == Nobody else Remembering(r, memory) && Advances(before, r)
  }

  method StopTestLease(before: Run, memory: Record, calm: bool) returns (r: Run, fate: Fate)
    requires Restoring(before, memory)
    ensures Ends(before, r, fate, memory) && r.now.record == memory
    ensures fate == Done && memory.leaseRequested ==> LeaseStopped in r.now.actor.checks.passed
    ensures calm ==> fate == Done && Calm(before, r, before.now.world.(lease := false))
    ensures calm ==> fate != Killed && r.alone == before.alone
  {
    hide Legal, Marked;
    Invariant(before);
    r := before;
    if !memory.leaseRequested {
      return r, Done;
    }
    r, fate := Command(r, StopLease, calm);
    var timedOut: bool := *;
    if fate == Killed || (fate == Refused && timedOut) {
      return;
    }
    r, fate := Check(r, LeaseStopped, calm);
  }

  /** Tells whether the run's namespace exists; its absence is something the attempt has checked. */
  method NamespaceExists(before: Run, calm: bool) returns (r: Run, found: bool)
    requires Valid(before) && before.now.actor.Recovery?
    ensures Continues(before, r) && r.now.record == before.now.record && Proceeds(before, r)
    ensures !found ==> IsAbsent in r.now.actor.checks.passed && r.now.actor.checks.gone
    ensures calm ==> Calm(before, r, before.now.world) && found == before.now.world.namespace.Some?
    ensures calm ==> r.alone == before.alone
  {
    hide Legal, Marked;
    r := Interfere(before, calm);
    found := r.now.world.namespace.Some?;
    if !found {
      r := Act(r, Verify(IsAbsent));
    }
  }

  /** Adopts a namespace whose checkpoint is missing: only an empty one, and only before any release. */
  method Adopt(before: Run, loaded: Record, calm: bool) returns (r: Run, fate: Fate, memory: Record)
    requires Restoring(before, loaded)
    ensures Ends(before, r, fate, memory)
    ensures fate == Done ==> Restoring(r, memory) && memory == loaded.(namespaceInode := memory.namespaceInode)
    ensures calm ==> Calm(before, r, before.now.world)
    ensures !NeedsAdoption(loaded) ==> fate == Done && memory == loaded
    ensures calm && NeedsAdoption(loaded) && !before.now.world.lease ==>
              && (fate == Done <==> Claimable(before.now) && before.now.world.namespace.Some?)
              && (fate == Done ==> memory.namespaceInode == Some(before.now.world.namespace.value.inode))
    ensures calm ==> fate != Killed && r.alone == before.alone
  {
    hide Legal, Marked;
    r, fate, memory := before, Done, loaded;
    Invariant(before);
    if NeedsAdoption(memory) {
      r, fate := Check(r, Adoptable, calm);
      if fate == Done {
        memory := memory.(namespaceInode := r.now.actor.checks.adoptable);
        r, fate := Mark(r, memory, calm);
      }
    }
  }

  /** Insists that the namespace is owned, without holders and without strange interfaces. */
  method Insist(before: Run, memory: Record, calm: bool) returns (r: Run, fate: Fate, inside: bool)
    requires Restoring(before, memory)
    ensures Ends(before, r, fate, memory) && r.now.record == memory
    ensures fate == Done ==> {IsOwned, Unheld, Tidy} <= r.now.actor.checks.passed
    ensures calm ==> Calm(before, r, before.now.world)
    ensures calm && !before.now.world.lease && before.now.world.namespace.Some? ==>
              var namespace := before.now.world.namespace.value;
              fate == Done <==>
                && memory.namespaceRequested && memory.namespaceInode == Some(namespace.inode)
                && !namespace.held && !namespace.cluttered
    ensures calm && fate == Done ==> inside == before.now.world.place.Inside?
    ensures calm ==> fate != Killed && r.alone == before.alone
  {
    hide Legal, Marked;
    Invariant(before);
    inside := false;
    r, fate := Check(before, IsOwned, calm);
    if fate == Done {
      r, fate := Check(r, Unheld, calm);
    }
    if fate == Done {
      r, fate := Check(r, Tidy, calm);
      inside := r.now.world.place.Inside?;
    }
  }

  /** Makes sure an existing namespace is this run's, adopting it if need be. */
  method ClaimNamespace(before: Run, loaded: Record, calm: bool)
    returns (r: Run, fate: Fate, memory: Record, inside: bool)
    requires Restoring(before, loaded)
    ensures Ends(before, r, fate, memory)
    ensures fate == Done ==> var c := r.now.actor.checks;
              && Restoring(r, memory) && memory == loaded.(namespaceInode := memory.namespaceInode)
              && IsOwned in c.passed && Unheld in c.passed && Tidy in c.passed
    ensures calm && !before.now.world.lease && before.now.world.namespace.Some? ==>
              (fate == Done <==> Claimable(before.now))
    ensures calm ==> Calm(before, r, before.now.world)
    ensures calm && fate == Done ==> inside == before.now.world.place.Inside?
    ensures calm ==> fate != Killed && r.alone == before.alone
  {
    hide Legal, Marked;
    inside := false;
    r, fate, memory := Adopt(before, loaded, calm);
    if fate == Done {
      r, fate, inside := Insist(r, memory, calm);
    }
  }

  /** The namespace part of a restoration, up to the question whether the interface is inside. */
  method InspectNamespace(before: Run, loaded: Record, calm: bool)
    returns (r: Run, fate: Fate, memory: Record, inside: bool)
    requires Restoring(before, loaded)
    ensures Ends(before, r, fate, memory)
    ensures fate == Done ==> var c := r.now.actor.checks;
              && Restoring(r, memory) && memory == loaded.(namespaceInode := memory.namespaceInode)
              && (IsOwned in c.passed || IsAbsent in c.passed)
              && (inside ==> IsOwned in c.passed && Unheld in c.passed && Tidy in c.passed)
    ensures calm && !before.now.world.lease ==> (fate == Done <==> Claimable(before.now))
    ensures calm ==> Calm(before, r, before.now.world)
    ensures calm && fate == Done ==> inside == before.now.world.place.Inside?
    ensures calm ==> fate != Killed && r.alone == before.alone
  {
    hide Legal, Marked;
    Invariant(before);
    var found;
    r, found := NamespaceExists(before, calm);
    if found {
      r, fate, memory, inside := ClaimNamespace(r, loaded, calm);
    } else {
      fate, memory, inside := Done, loaded, false;
    }
  }

  /** Moves the interface out, once it proves to be the instance that was moved in. */
  method BringOut(before: Run, loaded: Record, calm: bool) returns (r: Run, fate: Fate, memory: Record)
    requires Restoring(before, loaded) && loaded.released
    requires var c := before.now.actor.checks;
             && IsOwned in c.passed && Unheld in c.passed && Tidy in c.passed && Physical in c.passed && ProfileKept in c.passed
             && (loaded.leaseRequested ==> LeaseStopped in c.passed)
    ensures Ends(before, r, fate, memory) && r.now.record == loaded
    ensures memory == loaded.(namespaceIfindex := memory.namespaceIfindex)
    ensures calm && Unchanged(before.now) && before.now.world.place.Inside? ==>
              fate == Done && Calm(before, r, before.now.world.(place := Home, ifindex := r.now.world.ifindex))
    ensures calm ==> fate != Killed && r.alone == before.alone
  {
    hide Legal, Marked;
    memory := loaded;
    Invariant(before);
    r, fate := Check(before, InsideMatches, calm);
    if fate != Done {
      return;
    }
    if memory.namespaceIfindex.None? {
      if !memory.moveRequested {
        return r, Refused, memory;
      }
      memory := memory.(namespaceIfindex := r.now.actor.checks.inside);
    }
    if memory.namespaceIfindex != r.now.actor.checks.inside {
      return r, Refused, memory;
    }
    var ifindex: nat := *;
    r, fate := Command(r, MoveOut(ifindex), calm);
  }

  lemma PassedLater(before: Run, r: Run, later: Run, check: Check, n: nat, m: nat)
    requires Extends(r, later) && n <= |r.steps| && n <= m <= |later.steps| && Passed(before, r, check, n)
    requires forall l :: n <= l < m ==> !later.steps[l].Repair?
    ensures Passed(before, later, check, m)
  {
    var j: nat :| |before.steps| <= j < n && r.steps[j] == Verify(check) && forall l :: j < l < n ==> !r.steps[l].Repair?;
    assert later.steps[j] == Verify(check);
    assert forall l :: j < l < n ==> later.steps[l] == r.steps[l];
  }

  lemma NothingManaged(before: Run)
    ensures Rechecked(before, before)
  {
  }

  lemma JustPassed(before: Run, r: Run, check: Check)
    requires |before.steps| < |r.steps| && r.steps[|r.steps| - 1] == Verify(check)
    ensures Passed(before, r, check, |r.steps|)
  {
  }

  /** What had been checked anew before the attempts to manage the device stays so when more is done. */
  lemma RecheckedLater(before: Run, r: Run, later: Run)
    requires Extends(before, r) && Extends(r, later) && Rechecked(before, r)
    requires forall i :: |r.steps| <= i < |later.steps| ==> later.steps[i] != Repair(Manage)
    ensures Rechecked(before, later)
  {
    forall i: nat | |before.steps| <= i < |later.steps| && later.steps[i] == Repair(Manage)
      ensures Passed(before, later, Physical, i) && Passed(before, later, HomeMatches, i)
      ensures Passed(before, later, ProfileKept, i)
    {
      assert r.steps[i] == Repair(Manage);
      PassedLater(before, r, later, Physical, i, i);
      PassedLater(before, r, later, HomeMatches, i, i);
      PassedLater(before, r, later, ProfileKept, i, i);
    }
  }

  lemma ManagedAfterRecheck(before: Run, start: Run, r: Run, later: Run)
    requires Extends(before, start) && Extends(start, r) && Extends(r, later) && Rechecked(before, r)
    requires OnlyTakes(r, later, Repair(Manage))
    requires forall check | check in {Physical, HomeMatches, ProfileKept} :: Passed(start, r, check, |r.steps|)
    ensures Rechecked(before, later)
  {
    forall i: nat | |before.steps| <= i < |later.steps| && later.steps[i] == Repair(Manage)
      ensures Passed(before, later, Physical, i) && Passed(before, later, HomeMatches, i)
      ensures Passed(before, later, ProfileKept, i)
    {
      forall check | check in {Physical, HomeMatches, ProfileKept}
        ensures Passed(before, later, check, i)
      {
        if i < |r.steps| {
          assert r.steps[i] == Repair(Manage);
          PassedLater(before, r, later, check, i, i);
        } else {
          PassedLater(start, r, later, check, |r.steps|, i);
        }
      }
    }
  }

  /** Re-checks device and profile before NetworkManager is asked to take the device over. */
  method RecheckDevice(before: Run, calm: bool) returns (r: Run, fate: Fate)
    requires Valid(before) && before.now.actor.Recovery?
    ensures Continues(before, r) && r.now.record == before.now.record
    ensures if fate == Killed then r.now.actor == Nobody else Proceeds(before, r)
    ensures forall i :: |before.steps| <= i < |r.steps| ==> !r.steps[i].Repair?
    ensures fate == Done ==> forall check | check in {Physical, HomeMatches, ProfileKept} :: Passed(before, r, check, |r.steps|)
    ensures calm && Unchanged(before.now) && before.now.world.place.Home? ==>
              fate == Done && Calm(before, r, before.now.world)
    ensures calm ==> fate != Killed && r.alone == before.alone
  {
    hide Legal, Marked, Passed;
    r, fate := Check(before, Physical, calm);
    if fate != Done {
      return;
    }
    JustPassed(before, r, Physical);
    ghost var first := r;
    r, fate := Check(r, HomeMatches, calm);
    if fate != Done {
      return;
    }
    JustPassed(before, r, HomeMatches);
    PassedLater(before, first, r, Physical, |first.steps|, |r.steps|);
    ghost var second := r;
    r, fate := Check(r, ProfileKept, calm);
    if fate == Done {
      JustPassed(before, r, ProfileKept);
      PassedLater(before, second, r, Physical, |second.steps|, |r.steps|);
      PassedLater(before, second, r, HomeMatches, |second.steps|, |r.steps|);
    }
  }

  /** Waits, within the readiness deadline, until NetworkManager manages the unchanged returning device. */
  method WaitForManagedDevice(before: Run, calm: bool) returns (r: Run, fate: Fate)
    requires Valid(before) && before.now.actor.Recovery? && !before.now.record.closed && before.now.record.released
    requires var c := before.now.actor.checks; ReturnedHome(c)
    ensures Continues(before, r) && r.now.record == before.now.record
    ensures if fate == Killed then r.now.actor == Nobody else Proceeds(before, r)
    ensures fate == Done ==> IsManaged in r.now.actor.checks.passed
    ensures Rechecked(before, r)
    ensures calm && Unchanged(before.now) && before.now.world.place.Home? ==>
              fate == Done && Calm(before, r, before.now.world.(managed := true))
    ensures calm ==> fate != Killed && r.alone == before.alone
  {
    hide Legal, Marked, Rechecked, Passed;
    r := before;
    NothingManaged(before);
    var remaining := READINESS_POLLS;
    while true
      invariant Rechecked(before, r)
      invariant Continues(before, r) && r.now.record == before.now.record && Proceeds(before, r)
      invariant calm ==> r.alone == before.alone
      invariant calm && Unchanged(before.now) && before.now.world.place.Home? ==>
                  remaining == READINESS_POLLS && Calm(before, r, before.now.world)
      decreases remaining
    {
      ghost var start := r;
      r, fate := RecheckDevice(r, calm);
      RecheckedLater(before, start, r);
      if fate != Done {
        return;
      }
      if remaining == 0 {
        return r, Refused;
      }
      ghost var checked := r;
      r, fate := Command(r, Manage, calm);
      ManagedAfterRecheck(before, start, checked, r);
      var late: bool := *;
      if fate == Killed || (!calm && late) {
        return r, if fate == Killed then Killed else Refused;
      }
      if fate == Done {
        ghost var managed := r;
        r, fate := Check(r, IsManaged, calm);
        RecheckedLater(before, managed, r);
        if fate != Refused {
          return;
        }
      }
      remaining := remaining - 1;
    }
  }

  /** Brings the original profile up again, and asks whether it is the one in use. */
  method Reactivate(before: Run, calm: bool) returns (r: Run, fate: Fate)
    requires Valid(before) && before.now.actor.Recovery? && !before.now.record.closed && before.now.record.released
    requires var c := before.now.actor.checks; ReturnedHome(c) && IsManaged in c.passed
    ensures Continues(before, r) && r.now.record == before.now.record
    ensures if fate == Killed then r.now.actor == Nobody else Proceeds(before, r)
    ensures fate == Done ==> IsActive in r.now.actor.checks.passed
    ensures calm && before.now.world.place.Home? && before.now.world.managed ==>
              fate == Done && Calm(before, r, before.now.world.(active := Some(before.now.plan.profile)))
    ensures calm ==> fate != Killed && r.alone == before.alone
  {
    hide Legal, Marked;
    r, fate := Command(before, Activate, calm);
    if fate == Done {
      r, fate := Check(r, IsActive, calm);
    }
  }

  /** Brings a device that is home again back under NetworkManager, with its profile. */
  method HandOver(before: Run, calm: bool) returns (r: Run, fate: Fate)
    requires Valid(before) && before.now.actor.Recovery? && !before.now.record.closed && before.now.record.released
    requires Physical in before.now.actor.checks.passed && ProfileKept in before.now.actor.checks.passed
    ensures Continues(before, r) && r.now.record == before.now.record
    ensures if fate == Killed then r.now.actor == Nobody else Proceeds(before, r)
    ensures fate == Done ==> var c := r.now.actor.checks;
                             ReturnedHome(c) && IsManaged in c.passed && IsActive in c.passed
    ensures calm && Unchanged(before.now) && before.now.world.place.Home? ==>
              && fate == Done
              && Calm(before, r, before.now.world.(managed := true, active := Some(before.now.plan.profile)))
    ensures calm ==> fate != Killed && r.alone == before.alone
  {
    hide Legal, Marked;
    r, fate := Check(before, HomeMatches, calm);
    if fate == Done {
      r, fate := WaitForManagedDevice(r, calm);
    }
    if fate == Done {
      r, fate := Reactivate(r, calm);
    }
  }

  /** Whether device and profile are still those recorded, before anything is moved or managed. */
  method RecogniseDevice(before: Run, calm: bool) returns (r: Run, fate: Fate)
    requires Valid(before) && before.now.actor.Recovery?
    ensures Continues(before, r) && r.now.record == before.now.record
    ensures if fate == Killed then r.now.actor == Nobody else Proceeds(before, r)
    ensures fate == Done ==> Physical in r.now.actor.checks.passed && ProfileKept in r.now.actor.checks.passed
    ensures calm ==> (fate == Done <==> Unchanged(before.now)) && Calm(before, r, before.now.world)
    ensures calm ==> fate != Killed && r.alone == before.alone
  {
    hide Legal, Marked;
    r, fate := Check(before, Physical, calm);
    if fate == Done {
      r, fate := Check(r, ProfileKept, calm);
    }
  }

  lemma MayKeep(c: Checks, record: Record)
    ensures MayRecord(c, record, record)
  {
  }

  lemma StillUnchanged(s: State, t: State)
    requires t.plan == s.plan && t.world == s.world
    ensures Unchanged(t) <==> Unchanged(s)
  {
  }

  lemma AlreadyHome(s: State)
    ensures Unchanged(s) && !s.world.place.Inside? ==> s.world == s.world.(place := Home, ifindex := s.world.ifindex)
  {
  }

  /** Recognises a released device, and brings it out of the namespace if it is in there. */
  method FetchDevice(before: Run, loaded: Record, inside: bool, calm: bool)
    returns (r: Run, fate: Fate, memory: Record)
    requires Restoring(before, loaded) && loaded.released
    requires var c := before.now.actor.checks;
             && (inside ==> IsOwned in c.passed && Unheld in c.passed && Tidy in c.passed)
             && (loaded.leaseRequested ==> LeaseStopped in c.passed)
    ensures Ends(before, r, fate, memory) && r.now.record == loaded
    ensures memory == loaded.(namespaceIfindex := memory.namespaceIfindex)
    ensures fate == Done ==>
              Physical in r.now.actor.checks.passed && ProfileKept in r.now.actor.checks.passed
    ensures calm && inside == before.now.world.place.Inside? ==>
              && (fate == Done <==> Unchanged(before.now))
              && (fate == Done ==> Calm(before, r, before.now.world.(place := Home, ifindex := r.now.world.ifindex)))
    ensures calm ==> fate != Killed && r.alone == before.alone
  {
    hide Legal, Marked, MayRecord, Unchanged;
    MayKeep(before.now.actor.checks, loaded);
    memory := loaded;
    r, fate := RecogniseDevice(before, calm);
    if fate != Killed {
      MayKeep(r.now.actor.checks, loaded);
    }
    if fate != Done || !inside {
      AlreadyHome(before.now);
      return;
    }
    if calm {
      StillUnchanged(before.now, r.now);
    }
    r, fate, memory := BringOut(r, loaded, calm);
  }

  /** Brings a released device out of the namespace if it is in there, and hands it over. */
  method ReturnDevice(before: Run, loaded: Record, inside: bool, calm: bool)
    returns (r: Run, fate: Fate, memory: Record)
    requires Restoring(before, loaded) && loaded.released
    requires var c := before.now.actor.checks;
             && (inside ==> IsOwned in c.passed && Unheld in c.passed && Tidy in c.passed)
             && (loaded.leaseRequested ==> LeaseStopped in c.passed)
    ensures Ends(before, r, fate, memory) && r.now.record == loaded
    ensures memory.released && fate == Done ==> MayRecord(r.now.actor.checks, loaded, memory.(released := false))
    ensures memory.released
    ensures calm && inside == before.now.world.place.Inside? ==>
              && (fate == Done <==> Unchanged(before.now))
              && (fate == Done ==>
                    Calm(before, r, HomeAgain(before.now.world, before.now.plan.profile, r.now.world.ifindex)))
    ensures calm ==> fate != Killed && r.alone == before.alone
  {
    hide Legal, Marked;
    r, fate, memory := FetchDevice(before, loaded, inside, calm);
    if fate == Done {
      r, fate := HandOver(r, calm);
    }
  }

  /** Checkpoints that the device is back. */
  method NoteReturn(before: Run, loaded: Record, calm: bool) returns (r: Run, fate: Fate, memory: Record)
    requires Remembering(before, loaded)
    requires MayRecord(before.now.actor.checks, before.now.record, loaded.(released := false))
    ensures Ends(before, r, fate, memory)
    ensures memory == loaded.(released := false)
    ensures fate == Done ==> Restoring(r, memory)
    ensures calm ==> fate == Done && Calm(before, r, before.now.world)
    ensures calm ==> fate != Killed && r.alone == before.alone
  {
    hide Legal, Marked;
    memory := loaded.(released := false);
    r, fate := Mark(before, memory, calm);
  }

  /** Returns the device to the host if it was released, and notes that it is back. */
  method BringDeviceHome(before: Run, loaded: Record, calm: bool) returns (r: Run, fate: Fate, memory: Record)
    requires Restoring(before, loaded)
    requires loaded.leaseRequested ==> LeaseStopped in before.now.actor.checks.passed
    ensures Ends(before, r, fate, memory)
    ensures fate == Done ==>
              && Restoring(r, memory) && !memory.released && memory.leaseRequested == loaded.leaseRequested
              && (IsOwned in r.now.actor.checks.passed || IsAbsent in r.now.actor.checks.passed)
    ensures fate == Done ==> memory.mountpoints == loaded.mountpoints
    ensures calm && !before.now.world.lease ==>
              && (fate == Done <==> Cooperative(before.now))
              && (fate == Done ==>
                    && !r.now.world.place.Inside?
                    && Calm(before, r, if loaded.released
                                       then HomeAgain(before.now.world, before.now.plan.profile, r.now.world.ifindex)
                                       else before.now.world))
    ensures calm ==> fate != Killed && r.alone == before.alone
  {
    hide Legal, Marked;
    var inside;
    r, fate, memory, inside := InspectNamespace(before, loaded, calm);
    if fate != Done {
      return;
    }
    if !memory.released {
      Invariant(r);
      return;
    }
    r, fate, memory := ReturnDevice(r, memory, inside, calm);
    if fate == Done {
      r, fate, memory := NoteReturn(r, memory, calm);
    }
  }

  /** Nobody is in the namespace, if there is one. */
  predicate Vacant(w: World) {
    !w.lease && !w.place.Inside? && (w.namespace.Some? ==> !w.namespace.value.held && !w.namespace.value.cluttered)
  }

  /** Deletes the run's namespace if it is there, empty as it must be. */
  method RemoveNamespace(before: Run, calm: bool) returns (r: Run, fate: Fate)
    requires Valid(before) && before.now.actor.Recovery? && !before.now.record.closed && !before.now.record.released
    requires IsOwned in before.now.actor.checks.passed || IsAbsent in before.now.actor.checks.passed
    ensures Continues(before, r) && r.now.record == before.now.record
    ensures if fate == Killed then r.now.actor == Nobody else Proceeds(before, r)
    ensures fate == Done ==> r.now.actor.checks.gone
    ensures calm && Vacant(before.now.world) ==> fate == Done && Calm(before, r, before.now.world.(namespace := None))
    ensures calm ==> fate != Killed && r.alone == before.alone
  {
    hide Legal, Marked;
    var found;
    r, found := NamespaceExists(before, calm);
    if !found {
      return r, Done;
    }
    r, fate := Check(r, IsEmpty, calm);
    if fate == Done {
      r, fate := Command(r, DeleteNamespace, calm);
    }
  }

  /** Removes a directory this run made; whatever else is there, and any failure to remove it, is only noted. */
  method RemoveDirectory(before: Run, d: Directory, calm: bool) returns (r: Run, alive: bool)
    requires Valid(before) && before.now.actor.Recovery? && !before.now.record.closed && !before.now.record.released
    requires before.now.actor.checks.gone
    ensures Continues(before, r) && r.now.record == before.now.record
    ensures if alive then Proceeds(before, r) else r.now.actor == Nobody
    ensures calm ==>
              && alive
              && Calm(before, r, before.now.world.(dirs := before.now.world.dirs.With(d, LeftAt(before.now, d))))
    ensures calm ==> r.alone == before.alone
  {
    hide Legal, Marked;
    r := before;
    alive := true;
    var fate;
    if r.now.record.mountpoints.At(d).Made? {
      r, fate := Command(r, NetworkProtocol.RemoveDirectory(d), calm);
      alive := fate != Killed;
    }
  }

  /** Removes what is left of the run: its namespace and its directories. */
  method ClearHost(before: Run, calm: bool) returns (r: Run, fate: Fate)
    requires Restoring(before, before.now.record) && !before.now.record.released
    requires IsOwned in before.now.actor.checks.passed || IsAbsent in before.now.actor.checks.passed
    ensures Continues(before, r) && r.now.record == before.now.record
    ensures if fate == Killed then r.now.actor == Nobody else Advances(before, r)
    ensures fate == Done ==> r.now.actor.checks.gone
    ensures calm && Vacant(before.now.world) ==>
              fate == Done && Calm(before, r, before.now.world.(namespace := None, dirs := DirsLeft(before.now)))
    ensures calm ==> fate != Killed && r.alone == before.alone
  {
    hide Legal, Marked;
    r, fate := RemoveNamespace(before, calm);
    if fate != Done {
      return;
    }
    var alive;
    r, alive := RemoveDirectory(r, RunDhcpcd, calm);
    if !alive {
      return r, Killed;
    }
    r, alive := RemoveDirectory(r, LibDhcpcd, calm);
    fate := if alive then Done else Killed;
  }

  /** A whole restoration attempt. */
  method Restore(before: Run, loaded: Record, calm: bool) returns (r: Run, fate: Fate, memory: Record)
    requires Restoring(before, loaded)
    ensures Ends(before, r, fate, memory)
    ensures fate == Done ==>
              && Restoring(r, memory) && !memory.released && r.now.actor.checks.gone
              && (memory.leaseRequested ==> LeaseStopped in r.now.actor.checks.passed)
    ensures calm ==> (fate == Done <==> Cooperative(before.now))
    ensures calm && fate == Done ==> Calm(before, r, Undone(before.now, r.now.world.ifindex))
    ensures calm ==> fate != Killed && r.alone == before.alone
  {
    hide Legal, Marked;
    memory := loaded;
    r, fate := StopTestLease(before, loaded, calm);
    if fate == Done {
      r, fate, memory := BringDeviceHome(r, loaded, calm);
    }
    if fate == Done {
      r, fate := ClearHost(r, calm);
    }
  }

  /** Marks the run as closed. */
  method Close(before: Run, loaded: Record, calm: bool) returns (r: Run, fate: Fate)
    requires Restoring(before, loaded) && !loaded.released && before.now.actor.checks.gone
    requires loaded.leaseRequested ==> LeaseStopped in before.now.actor.checks.passed
    ensures Continues(before, r)
    ensures fate == Killed ==> r.now.actor == Nobody
    ensures fate != Killed ==> r.now.actor.Recovery?
    ensures fate == Done ==> r.now.record.closed
    ensures calm ==> fate == Done && Calm(before, r, before.now.world)
    ensures calm ==> r.now.record == loaded.(recoveryError := false, closed := true)
    ensures calm ==> fate != Killed && r.alone == before.alone
  {
    hide Legal, Marked;
    r, fate := Mark(before, loaded.(recoveryError := false, closed := true), calm);
  }

  lemma RouteIsSeen(before: Run, r: Run, later: Run)
    requires Valid(r) && Extends(before, r) && r.now.record.closed && Extends(r, later)
    ensures RouteSeen(before, later, r.now.world.routed)
  {
    assert later.states[|r.steps|] == r.now;
  }

  lemma SeenSince(before: Run, r: Run, later: Run)
    requires Extends(before, r)
    ensures forall routed :: RouteSeen(r, later, routed) ==> RouteSeen(before, later, routed)
  {
  }

  /** Notes the outcome of the routing check, which never undoes a restoration. */
  method VerifyRoute(before: Run, calm: bool) returns (r: Run, exit: Exit)
    requires Valid(before) && before.now.actor.Recovery? && before.now.record.closed
    ensures Continues(before, r) && r.now.record.closed
    ensures r.now.actor == Nobody
    ensures exit == Code(0) ==> !r.now.record.verificationError && RouteSeen(before, r, true)
    ensures exit == Code(2) ==> r.now.record.verificationError && RouteSeen(before, r, false)
    ensures calm ==>
              && exit == (if before.now.world.routed then Code(0) else Code(2))
              && Calm(before, r, before.now.world)
              && r.now.record == before.now.record.(verificationError := !before.now.world.routed)
    ensures calm ==> r.alone == before.alone
  {
    hide Legal, Marked, RouteSeen;
    r := Interfere(before, calm);
    var routed := r.now.world.routed;
    ghost var seen := r;
    var fate;
    r, fate := Mark(r, r.now.record.(verificationError := !routed), calm);
    if fate == Killed {
      return r, Died;
    }
    r := Release(r);
    RouteIsSeen(before, seen, r);
    exit := if fate == Refused then Code(1) else if routed then Code(0) else Code(2);
  }

  /** Notes why a restoration failed, and lets the device lock go. */
  method NoteFailure(before: Run, memory: Record, calm: bool) returns (r: Run, exit: Exit)
    requires Remembering(before, memory)
    ensures Continues(before, r) && r.now.actor == Nobody && !r.now.record.closed
    ensures exit == Code(1) || exit == Died
    ensures calm ==> exit == Code(1) && r.now.record == memory.(recoveryError := true)
    ensures calm ==> r.alone == before.alone
  {
    hide Legal, Marked;
    var fate;
    r, fate := Mark(before, memory.(recoveryError := true), calm);
    if fate == Killed {
      return r, Died;
    }
    r := Release(r);
    exit := Code(1);
  }

  /** How an undisturbed cleanup of `s` ends, and what it leaves on record. */
  predicate EndsBy(s: State, t: State, exit: Exit) {
    if Settled(s) then exit == Code(0) && t.record == s.record
    else if s.record.closed || Cooperative(s) then
      && exit == (if s.world.routed then Code(0) else Code(2))
      && t.record.verificationError == !s.world.routed
    else exit == Code(1) && !t.record.closed && t.record.recoveryError
  }

  /** Everything a cleanup does once it holds the device lock. */
  method Recover(before: Run, calm: bool) returns (r: Run, exit: Exit)
    requires Valid(before) && before.now.actor == Recovery(UNCHECKED)
    ensures Continues(before, r) && r.now.actor == Nobody
    ensures exit == Code(0) ==>
              && r.now.record.closed && !r.now.record.verificationError
              && (Settled(before.now) || RouteSeen(before, r, true))
    ensures exit == Code(2) ==> r.now.record.closed && r.now.record.verificationError && RouteSeen(before, r, false)
    ensures calm ==> EndsBy(before.now, r.now, exit)
    ensures calm ==> (exit == Code(0) || exit == Code(2) <==> before.now.record.closed || Cooperative(before.now))
    ensures calm ==> (exit == Code(0) || exit == Code(2) <==> Restored(before.now, r.now))
    ensures calm ==> r.alone == before.alone
  {
    hide Legal, Marked, RouteSeen;
    r := before;
    Invariant(r);
    if r.now.record.closed && !r.now.record.verificationError {
      r := Release(r);
      return r, Code(0);
    }
    if !r.now.record.closed {
      var fate, memory;
      r, fate, memory := Restore(r, r.now.record, calm);
      if fate == Refused {
        r, exit := NoteFailure(r, memory, calm);
        return;
      }
      if fate == Done {
        r, fate := Close(r, memory, calm);
      }
      if fate == Killed {
        return r, Died;
      }
      if fate == Refused {
        r := Release(r);
        return r, Code(1);
      }
    }
    ghost var closed := r;
    r, exit := VerifyRoute(r, calm);
    SeenSince(before, closed, r);
  }

  lemma EndsBySame(s: State, t: State)
    requires t == s.(actor := t.actor)
    ensures forall u, exit :: EndsBy(s, u, exit) == EndsBy(t, u, exit)
    ensures forall u :: Restored(s, u) == Restored(t, u)
    ensures Cooperative(s) == Cooperative(t) && Settled(s) == Settled(t)
  {
  }

  /** Waits a bounded time for the device lock, while its holder, and everybody else, goes on. */
  method AwaitLock(before: Run) returns (r: Run)
    requires Valid(before)
    ensures Valid(r) && Extends(before, r) && r.now.plan == before.now.plan
    ensures before.now.actor.Nobody? ==> r == before
    ensures before.now.started ==> r.now.started
  {
    hide Legal, Marked;
    r := before;
    var moments: nat := *;
    var waiting := !r.now.actor.Nobody?;
    while moments > 0 && waiting
      invariant Valid(r) && Extends(before, r) && r.now.plan == before.now.plan
      invariant before.now.actor.Nobody? ==> r == before && !waiting
      invariant before.now.started ==> r.now.started
    {
      var step: Step := *;
      if Permitted(step, r.now) && Possible(step, r.now) {
        r := Perform(r, step);
      }
      var looks: bool := *;
      waiting := !(looks && r.now.actor.Nobody?);
      moments := moments - 1;
    }
  }

  /**
   One cleanup, which may have to wait for the lock; `taken` is where that ends. Whatever happened before, by a
   service or by other cleanups that died at any point, an undisturbed one restores the host completely, exactly
   if the surroundings cooperate or that was done already.
   */
  method Cleanup(before: Run, calm: bool) returns (r: Run, exit: Exit, ghost taken: Run)
    requires Valid(before)
    ensures Valid(r) && r.now.plan == before.now.plan
    ensures Valid(taken) && Extends(before, taken) && (before.now.actor.Nobody? ==> taken == before)
    ensures before.now.actor.Nobody? ==> r.now.started == before.now.started
    ensures before.now.started ==> r.now.started
    ensures if taken.now.actor.Nobody? then OneHolder(taken, r, BeginRecovery, calm) else r == taken && exit == Code(1)
    ensures exit == Code(0) ==>
              && taken.now.actor.Nobody? && r.now.record.closed && !r.now.record.verificationError
              && (Settled(taken.now) || RouteSeen(taken, r, true))
    ensures exit == Code(2) ==>
              && taken.now.actor.Nobody? && r.now.record.closed && r.now.record.verificationError
              && RouteSeen(taken, r, false)
    ensures calm && taken.now.actor.Nobody? ==> EndsBy(taken.now, r.now, exit)
    ensures calm && taken.now.actor.Nobody? ==>
              && (exit == Code(0) || exit == Code(2) <==> taken.now.record.closed || Cooperative(taken.now))
              && (exit == Code(0) || exit == Code(2) <==> Restored(taken.now, r.now))
  {
    hide Legal, RouteSeen, EndsBy, Restored, Cooperative;
    r := AwaitLock(before);
    taken := r;
    if !r.now.actor.Nobody? {
      return r, Code(1), r;
    }
    r := Perform(r, BeginRecovery);
    ghost var begun := r;
    EndsBySame(taken.now, begun.now);
    r, exit := Recover(r, calm);
    SeenSince(taken, begun, r);
  }

  // ---------------------------------------------------------------------
  // The service
  // ---------------------------------------------------------------------

  /** All that must be durable once the device is inside. */
  ghost predicate Isolated(record: Record) {
    && record.namespaceRequested && record.namespaceInode.Some? && record.released
    && record.moveRequested && record.namespaceIfindex.Some?
  }

  /** What one command or observation of the service adds to what it knows. */
  ghost predicate Learns(a: Actor, b: Actor, setup: SetupStep) {
    && a.Setup? && b.Setup?
    && b.vetted == (a.vetted || setup.Vet?)
    && b.unmanaged == (a.unmanaged || setup.SeeUnmanaged?)
    && (if setup.SeeNamespace? then b.inode.Some? else b.inode == a.inode)
    && (if setup.SeeInside? then b.ifindex.Some? else b.ifindex == a.ifindex)
    && (setup.SeeDirectory? ==> b.made.At(setup.dir).Some?)
  }

  /** How a phase of the service may end: killed, refused, or with `record` durable. */
  ghost predicate Built(before: Run, r: Run, fate: Fate, record: Record) {
    && Continues(before, r)
    && (fate == Killed ==> r.now.actor == Nobody)
    && (fate != Killed ==> r.now.actor.Setup?)
    && (fate == Done ==> r.now.record == record)
  }

  /** Since `before` the service took this step. */
  ghost predicate Took(before: Run, r: Run, setup: SetupStep) {
    exists j: nat :: |before.steps| <= j < |r.steps| && r.steps[j] == Prepare(setup)
  }

  /** Since `before` the directory was there. */
  ghost predicate DirSeen(before: Run, r: Run, d: Directory) {
    exists k: nat :: |before.steps| <= k < |r.states| && r.states[k].world.dirs.At(d).Some?
  }

  lemma SinceEarlier(before: Run, start: Run, r: Run, later: Run)
    requires Extends(before, start) && Extends(start, r) && Extends(r, later)
    ensures forall setup :: Took(start, r, setup) ==> Took(before, later, setup)
    ensures forall d :: DirSeen(start, r, d) ==> DirSeen(before, later, d)
  {
    forall setup | Took(start, r, setup)
      ensures Took(before, later, setup)
    {
      var j: nat :| |start.steps| <= j < |r.steps| && r.steps[j] == Prepare(setup);
      assert later.steps[j] == Prepare(setup);
    }
    forall d | DirSeen(start, r, d)
      ensures DirSeen(before, later, d)
    {
      var k: nat :| |start.steps| <= k < |r.states| && r.states[k].world.dirs.At(d).Some?;
      assert later.states[k].world.dirs.At(d).Some?;
    }
  }

  lemma SeenWhenLookedAt(before: Run, r: Run, d: Directory)
    requires Valid(r) && Took(before, r, SeeDirectory(d))
    ensures DirSeen(before, r, d)
  {
    var j: nat :| |before.steps| <= j < |r.steps| && r.steps[j] == Prepare(SeeDirectory(d));
    assert Next(r.states[j], r.steps[j], r.states[j + 1]);
  }

  lemma SeenNow(before: Run, r: Run, d: Directory)
    requires Valid(r) && Extends(before, r) && r.now.world.dirs.At(d).Some?
    ensures DirSeen(before, r, d)
  {
    assert r.states[|r.steps|] == r.now;
  }

  /** One command or observation of the service. */
  method Build(before: Run, setup: SetupStep, calm: bool) returns (r: Run, fate: Fate)
    requires Valid(before) && MayPrepare(setup, before.now.record, before.now.actor)
    ensures Built(before, r, fate, before.now.record)
    ensures fate == Done ==> Learns(before.now.actor, r.now.actor, setup)
    ensures fate == Done ==> Took(before, r, setup)
    ensures calm ==> fate == (if CanPrepare(setup, before.now.plan, before.now.world) then Done else Refused)
    ensures calm && fate == Done ==>
              && Calm(before, r, PrepareWorld(setup, before.now.plan, before.now.world))
              && r.now.actor == Observe(setup, before.now.plan, before.now.world, before.now.actor)
    ensures calm ==> fate != Killed && r.alone == before.alone
  {
    hide Legal, Marked;
    ghost var at;
    r, fate, at := Take(before, Prepare(setup), calm);
  }

  /** Makes an intent durable, and only then acts on it. */
  method AnnounceAndBuild(before: Run, record: Record, setup: SetupStep, calm: bool) returns (r: Run, fate: Fate)
    requires Valid(before) && before.now.actor.Setup?
    requires MayPlan(before.now.actor, before.now.record, record) && MayPrepare(setup, record, before.now.actor)
    ensures Built(before, r, fate, record)
    ensures fate == Done ==> Learns(before.now.actor, r.now.actor, setup)
    ensures fate == Done ==> Took(before, r, setup)
    ensures calm ==> fate == (if CanPrepare(setup, before.now.plan, before.now.world) then Done else Refused)
    ensures calm && fate == Done ==>
              && Calm(before, r, PrepareWorld(setup, before.now.plan, before.now.world))
              && r.now.actor == Observe(setup, before.now.plan, before.now.world, before.now.actor)
    ensures calm ==> fate != Killed && r.alone == before.alone
  {
    hide Took, DirSeen, Legal, Marked, MayPlan, MayPrepare, CanPrepare, PrepareWorld, Observe, Learns;
    r, fate := Mark(before, record, calm);
    if fate == Done {
      ghost var announced := r;
      r, fate := Build(r, setup, calm);
      SinceEarlier(before, announced, r, r);
    }
  }

  /** The service has seen that everything is as planned, and nothing else. */
  ghost predicate Vetted(actor: Actor) {
    actor.Setup? && actor.vetted && actor.inode.None? && !actor.unmanaged && actor.ifindex.None?
  }

  /** Nothing has been planned; a cleanup may have noted an error. */
  ghost predicate Fresh(record: Record) {
    record.(recoveryError := false, verificationError := false, closed := false) == PREPARED
  }

  /** Adds the namespace and records which one it is. */
  method OpenNamespace(before: Run, calm: bool) returns (r: Run, fate: Fate, record: Record)
    requires Valid(before) && Vetted(before.now.actor) && Fresh(before.now.record)
    ensures Built(before, r, fate, record)
    ensures fate == Done ==>
              && record == before.now.record.(namespaceRequested := true, namespaceInode := record.namespaceInode)
              && record.namespaceInode.Some?
              && !r.now.actor.unmanaged && r.now.actor.ifindex.None?
    ensures calm && before.now.world.namespace.None? ==>
              && fate == Done
              && Calm(before, r, before.now.world.(
                      namespace := Some(Namespace(record.namespaceInode.value, true, false, false))))
    ensures calm ==> fate != Killed && r.alone == before.alone
  {
    hide Legal, Marked;
    var inode: nat := *;
    record := before.now.record.(namespaceRequested := true);
    r, fate := AnnounceAndBuild(before, record, AddNamespace(inode), calm);
    if fate == Done {
      r, fate := Build(r, SeeNamespace, calm);
    }
    if fate == Done {
      record := record.(namespaceInode := r.now.actor.inode);
      r, fate := Mark(r, record, calm);
    }
  }

  /** Takes the device from NetworkManager. */
  method TakeDevice(before: Run, noted: Record, calm: bool) returns (r: Run, fate: Fate)
    requires Valid(before) && before.now.actor.Setup? && before.now.record == noted
    requires noted.namespaceInode.Some? && noted.namespaceRequested
    requires !before.now.actor.unmanaged && before.now.actor.ifindex.None?
    ensures Built(before, r, fate, noted.(released := true))
    ensures fate == Done ==> r.now.actor.unmanaged && r.now.actor.ifindex.None?
    ensures calm && before.now.world.place.Home? ==>
              fate == Done && Calm(before, r, before.now.world.(managed := false, active := None))
    ensures calm ==> fate != Killed && r.alone == before.alone
  {
    hide Legal, Marked;
    r, fate := AnnounceAndBuild(before, noted.(released := true), Unmanage, calm);
    if fate == Done {
      r, fate := Build(r, SeeUnmanaged, calm);
    }
  }

  /** Moves the device into the namespace and looks at it there. */
  method MoveDevice(before: Run, taken: Record, calm: bool) returns (r: Run, fate: Fate)
    requires Valid(before) && before.now.actor.Setup? && before.now.record == taken
    requires taken.released && taken.namespaceIfindex.None?
    requires before.now.actor.unmanaged && before.now.actor.ifindex.None?
    ensures Built(before, r, fate, taken.(moveRequested := true))
    ensures fate == Done ==> r.now.actor.ifindex.Some?
    ensures calm && Present(before.now) && before.now.world.place.Home? && before.now.world.namespace.Some? ==>
              && fate == Done && r.now.actor.ifindex == Some(r.now.world.ifindex)
              && Calm(before, r, before.now.world.(place := Inside, ifindex := r.now.world.ifindex))
    ensures calm ==> fate != Killed && r.alone == before.alone
  {
    hide Legal, Marked;
    var ifindex: nat := *;
    r, fate := AnnounceAndBuild(before, taken.(moveRequested := true), MoveIn(ifindex), calm);
    if fate == Done {
      r, fate := Build(r, SeeInside, calm);
    }
  }

  /** The world once the device is inside the run's namespace. */
  function Moved(w: World, record: Record): World
    requires record.namespaceInode.Some? && record.namespaceIfindex.Some?
  {
    w.(namespace := Some(Namespace(record.namespaceInode.value, true, false, false)), managed := false, active := None,
       place := Inside, ifindex := record.namespaceIfindex.value)
  }

  /** The planned device is at home, and nothing has this run's namespace name. */
  predicate Ready(s: State) {
    Present(s) && s.world.place.Home? && s.world.namespace.None?
  }

  /** Everything up to the checkpoint that the device is inside. */
  method Isolate(before: Run, calm: bool) returns (r: Run, fate: Fate)
    requires Valid(before) && Vetted(before.now.actor) && Fresh(before.now.record)
    ensures Built(before, r, fate, r.now.record)
    ensures fate == Done ==> Isolated(r.now.record) && r.now.record.mountpoints == PREPARED.mountpoints
    ensures calm && Ready(before.now) ==> fate == Done && Calm(before, r, Moved(before.now.world, r.now.record))
    ensures calm ==> fate != Killed && r.alone == before.alone
  {
    hide Legal, Marked;
    var record;
    r, fate, record := OpenNamespace(before, calm);
    if fate == Done {
      r, fate := TakeDevice(r, record, calm);
    }
    if fate == Done {
      r, fate := MoveDevice(r, record.(released := true), calm);
    }
    if fate == Done {
      record := r.now.record.(namespaceIfindex := r.now.actor.ifindex);
      r, fate := Mark(r, record, calm);
    }
  }

  function Noting(r: Record, d: Directory, mount: Mount): Record {
    r.(mountpoints := r.mountpoints.With(d, mount))
  }

  lemma NotingTwice(r: Record, d: Directory, a: Mount, b: Mount)
    ensures Noting(Noting(r, d, a), d, b) == Noting(r, d, b)
    ensures Noting(r, d, a).mountpoints.At(d) == a && Noting(r, d, b).mountpoints.At(d) == b
  {
  }

  /** The record after a directory was found, or made, planned and seen. */
  ghost predicate Provided(old_: Record, new_: Record, d: Directory) {
    new_ == old_ || (new_.mountpoints.At(d).Made? && new_ == Noting(old_, d, new_.mountpoints.At(d)))
  }

  /** Changing what is recorded of one directory is judged by that directory alone. */
  lemma MayNoteDirectory(actor: Actor, record: Record, d: Directory, mount: Mount)
    requires actor.Setup? && MayMount(record.mountpoints.At(d), mount, actor.made.At(d))
    ensures MayPlan(actor, record, Noting(record, d, mount))
  {
  }

  /** Announces a directory and makes it, so that its inode can be noted. */
  method MakeMountpoint(before: Run, d: Directory, calm: bool) returns (r: Run, fate: Fate)
    requires Valid(before) && before.now.actor.Setup? && before.now.record.mountpoints.At(d).Unplanned?
    ensures Built(before, r, fate, Noting(before.now.record, d, Intended))
    ensures fate == Done ==> r.now.actor.made.At(d).Some?
    ensures fate == Done ==> Took(before, r, SeeDirectory(d))
    ensures calm && before.now.world.dirs.At(d).None? ==>
              && fate == Done
              && Calm(before, r, before.now.world.(
                      dirs := before.now.world.dirs.With(d, Some(Folder(r.now.actor.made.At(d).value, true)))))
    ensures calm ==> fate != Killed && r.alone == before.alone
  {
    hide Legal, Marked, Took, DirSeen;
    var inode: nat := *;
    MayNoteDirectory(before.now.actor, before.now.record, d, Intended);
    r, fate := AnnounceAndBuild(before, Noting(before.now.record, d, Intended), MakeDirectory(d, inode), calm);
    if fate == Done {
      ghost var made := r;
      r, fate := Build(r, SeeDirectory(d), calm);
      SinceEarlier(before, made, r, r);
    }
  }

  /** Records the inode of a directory that was made. */
  method NoteMountpoint(before: Run, d: Directory, calm: bool) returns (r: Run, fate: Fate)
    requires Valid(before) && before.now.actor.Setup? && before.now.actor.made.At(d).Some?
    requires before.now.record.mountpoints.At(d).Intended?
    ensures Built(before, r, fate, Noting(before.now.record, d, Made(before.now.actor.made.At(d).value)))
    ensures fate != Killed ==> r.now.actor == before.now.actor
    ensures calm ==> fate == Done && Calm(before, r, before.now.world)
    ensures calm ==> fate != Killed && r.alone == before.alone
  {
    hide Legal, Marked;
    var record, made := before.now.record, Made(before.now.actor.made.At(d).value);
    MayNoteDirectory(before.now.actor, record, d, made);
    r, fate := Mark(before, Noting(record, d, made), calm);
  }

  /** A directory that is missing: intent, directory, inode. */
  method ProvideDirectory(before: Run, d: Directory, calm: bool) returns (r: Run, fate: Fate)
    requires Valid(before) && before.now.actor.Setup? && before.now.record.mountpoints.At(d).Unplanned?
    ensures Built(before, r, fate, r.now.record)
    ensures fate == Done ==> Took(before, r, SeeDirectory(d))
    ensures fate == Done ==>
              && r.now.actor.made.At(d).Some?
              && r.now.record == Noting(before.now.record, d, Made(r.now.actor.made.At(d).value))
    ensures calm && before.now.world.dirs.At(d).None? ==>
              && fate == Done
              && Calm(before, r, before.now.world.(
                      dirs := before.now.world.dirs.With(d, Some(Folder(r.now.actor.made.At(d).value, true)))))
    ensures calm ==> fate != Killed && r.alone == before.alone
  {
    hide Took, DirSeen, Legal, Marked, Each.With, Each.At, Noting;
    NotingTwice(before.now.record, d, Intended, Unplanned);
    r, fate := MakeMountpoint(before, d, calm);
    if fate == Done {
      NotingTwice(before.now.record, d, Intended, Made(r.now.actor.made.At(d).value));
      ghost var made := r;
      r, fate := NoteMountpoint(r, d, calm);
      SinceEarlier(before, before, made, r);
    }
  }

  /** What is there at a directory is what was, unless this run made it and knows. */
  ghost predicate Provides(s: State, t: State, d: Directory) {
    && LeftAt(t, d) == s.world.dirs.At(d)
    && t.world == s.world.(dirs := s.world.dirs.With(d, t.world.dirs.At(d)))
  }

  lemma ProvidesFound(s: State, d: Directory)
    requires s.record.mountpoints.At(d).Unplanned?
    ensures Provides(s, s, d)
  {
  }

  lemma ProvidesMade(s: State, t: State, d: Directory, inode: Inode)
    requires s.world.dirs.At(d).None? && t.record.mountpoints.At(d) == Made(inode)
    requires t.world == s.world.(dirs := s.world.dirs.With(d, Some(Folder(inode, true))))
    ensures Provides(s, t, d) && t.world.dirs.At(d).Some?
  {
  }

  /** Makes one mount point if it is missing: intent, directory, inode. One that is there may not be usable. */
  method CreateMountpoint(before: Run, d: Directory, calm: bool) returns (r: Run, fate: Fate)
    requires Valid(before) && before.now.actor.Setup? && before.now.record.mountpoints.At(d).Unplanned?
    ensures Built(before, r, fate, r.now.record)
    ensures fate == Done ==> Provided(before.now.record, r.now.record, d) && DirSeen(before, r, d)
    ensures fate == Done && r.now.record == before.now.record ==> OnlyOthers(before, r) && r.now.world.dirs.At(d).Some?
    ensures fate == Done && r.now.record != before.now.record ==>
              r.now.actor.made.At(d) == Some(r.now.record.mountpoints.At(d).inode)
    ensures calm ==> fate == Done && Provides(before.now, r.now, d) && r.now.intruded == before.now.intruded
    ensures calm ==> r.now.world.dirs.At(d).Some?
    ensures calm ==> fate != Killed && r.alone == before.alone
  {
    hide Took, DirSeen, Legal, Marked, Each.With, Each.At, Provides, Noting;
    r := Interfere(before, calm);
    var usable: bool := *;
    ProvidesFound(before.now, d);
    if r.now.world.dirs.At(d).Some? {
      SeenNow(before, r, d);
      return r, if usable || calm then Done else Refused;
    }
    ghost var missing := r;
    r, fate := ProvideDirectory(r, d, calm);
    if fate == Done {
      SinceEarlier(before, missing, r, r);
      SeenWhenLookedAt(before, r, d);
      NotingTwice(before.now.record, d, Unplanned, Made(r.now.actor.made.At(d).value));
      if calm {
        ProvidesMade(before.now, r.now, d, r.now.actor.made.At(d).value);
      }
    }
  }

  lemma BothProvided(s: State, t: State, u: State)
    requires Isolated(s.record) && s.record.mountpoints == PREPARED.mountpoints
    requires Provided(s.record, t.record, RunDhcpcd) && Provided(t.record, u.record, LibDhcpcd)
    ensures Isolated(u.record) && u.record == s.record.(mountpoints := u.record.mountpoints)
    ensures Provides(s, t, RunDhcpcd) && Provides(t, u, LibDhcpcd) ==>
              && DirsLeft(u) == s.world.dirs && u.world == s.world.(dirs := u.world.dirs)
              && u.world.dirs.At(RunDhcpcd) == t.world.dirs.At(RunDhcpcd)
  {
  }

  lemma StillUnplanned(record: Record, provided: Record)
    requires record.mountpoints == PREPARED.mountpoints && Provided(record, provided, RunDhcpcd)
    ensures provided.mountpoints.At(LibDhcpcd).Unplanned?
  {
  }

  method CreateMountpoints(before: Run, calm: bool) returns (r: Run, fate: Fate)
    requires Valid(before) && before.now.actor.Setup? && Isolated(before.now.record)
    requires before.now.record.mountpoints == PREPARED.mountpoints
    ensures Built(before, r, fate, r.now.record)
    ensures fate == Done ==> Isolated(r.now.record)
    ensures fate == Done ==> r.now.record == before.now.record.(mountpoints := r.now.record.mountpoints)
    ensures calm ==> fate == Done && Calm(before, r, before.now.world.(dirs := r.now.world.dirs))
    ensures calm ==> DirsLeft(r.now) == before.now.world.dirs && forall d :: r.now.world.dirs.At(d).Some?
    ensures fate == Done ==> forall d :: DirSeen(before, r, d)
    ensures calm ==> fate != Killed && r.alone == before.alone
  {
    hide Took, DirSeen, Legal, Marked, Isolated, Provided, Provides, DirsLeft;
    r, fate := CreateMountpoint(before, RunDhcpcd, calm);
    if fate == Done {
      ghost var first, provided := r.now, r;
      StillUnplanned(before.now.record, first.record);
      r, fate := CreateMountpoint(r, LibDhcpcd, calm);
      if fate == Done {
        BothProvided(before.now, first, r.now);
        SinceEarlier(before, before, provided, r);
        SinceEarlier(before, provided, r, r);
        forall d
          ensures DirSeen(before, r, d)
        {
          match d
          case RunDhcpcd =>
          case LibDhcpcd =>
        }
      }
    }
  }

  /** The test's lease and, once it is ready, the two Weld peers. */
  method Populate(before: Run, calm: bool) returns (r: Run, fate: Fate)
    requires Valid(before) && before.now.actor.Setup?
    ensures Built(before, r, fate, before.now.record.(leaseRequested := true))
    ensures fate == Done ==> Took(before, r, StartLease) && Took(before, r, StartPeers)
    ensures calm && before.now.world.namespace.Some? ==>
              && fate == Done
              && Calm(before, r, before.now.world.(
                      lease := true, namespace := Some(before.now.world.namespace.value.(held := true))))
    ensures calm ==> fate != Killed && r.alone == before.alone
  {
    hide Legal, Marked, Took, DirSeen;
    r, fate := AnnounceAndBuild(before, before.now.record.(leaseRequested := true), StartLease, calm);
    var ready: bool := *;
    if fate == Done && !ready && !calm {
      fate := Refused;
    }
    if fate == Done {
      ghost var leased := r;
      r, fate := Build(r, StartPeers, calm);
      SinceEarlier(before, before, leased, r);
      SinceEarlier(before, leased, r, r);
    }
  }

  /** The test network is up: the device and the peers are inside, and a cleanup will find out what to undo. */
  ghost predicate Running(s: State, t: State) {
    && Isolated(t.record) && t.record.leaseRequested && !t.record.closed
    && t.world == Moved(s.world, t.record).(
                    lease := true, dirs := t.world.dirs,
                    namespace := Some(Namespace(t.record.namespaceInode.value, true, true, false)))
    && DirsLeft(t) == s.world.dirs && forall d :: t.world.dirs.At(d).Some?
  }

  /** All that a service which ends well has done, or seen done. */
  ghost predicate Served(before: Run, r: Run) {
    && Took(before, r, Vet) && Took(before, r, StartLease) && Took(before, r, StartPeers)
    && forall d :: DirSeen(before, r, d)
  }

  /** What the service does once it holds the lock. */
  method Serve(before: Run, calm: bool) returns (r: Run, exit: Exit)
    requires Valid(before) && Fresh(before.now.record) && !before.now.record.closed
    requires before.now.actor == Setup(false, None, false, None, Each(None, None))
    ensures Continues(before, r) && r.now.actor == Nobody
    ensures exit == Code(0) ==> Isolated(r.now.record) && r.now.record.leaseRequested
    ensures exit == Code(0) ==> Served(before, r)
    ensures calm ==> (exit == Code(0) <==> CanPrepare(Vet, before.now.plan, before.now.world))
    ensures calm && exit == Code(0) ==> Running(before.now, r.now)
    ensures calm ==> r.alone == before.alone
  {
    hide Legal, Marked, Took, DirSeen;
    var fate;
    r, fate := Build(before, Vet, calm);
    ghost var vetted := r;
    if fate == Done {
      r, fate := Isolate(r, calm);
    }
    ghost var isolated := r;
    if fate == Done {
      r, fate := CreateMountpoints(r, calm);
    }
    ghost var mounted := r;
    if fate == Done {
      r, fate := Populate(r, calm);
    }
    if fate == Killed {
      return r, Died;
    }
    Invariant(r);
    exit := if fate == Done then Code(0) else Code(1);
    ghost var populated := r;
    r := Release(r);
    SinceEarlier(before, before, vetted, r);
    SinceEarlier(before, isolated, mounted, r);
    SinceEarlier(before, mounted, populated, r);
  }

  /**
   The service. It does nothing once the run is closed or cancelled; otherwise it takes the lock and every one
   of its steps is announced first, and a service that ends well has recorded all it did. An undisturbed one,
   with usable directories and a network that answers, ends well exactly if the host is as planned.
   */
  method Service(before: Run, calm: bool) returns (r: Run, exit: Exit)
    requires Valid(before) && !before.now.started
    ensures Valid(r) && r.now.plan == before.now.plan
    ensures !before.now.actor.Nobody? ==> r == before && exit == Code(1)
    ensures before.now.actor.Nobody? && (before.now.record.closed || before.now.cancelled) ==>
              r == before && exit == Code(0)
    ensures before.now.actor.Nobody? && !before.now.record.closed && !before.now.cancelled ==>
              && OneHolder(before, r, BeginSetup, calm)
              && (exit == Code(0) ==> Isolated(r.now.record) && r.now.record.leaseRequested && Served(before, r))
              && (calm ==> (exit == Code(0) <==> CanPrepare(Vet, before.now.plan, before.now.world)))
              && (calm && exit == Code(0) ==> Running(before.now, r.now))
  {
    hide Legal, Took, DirSeen;
    if !before.now.actor.Nobody? {
      return before, Code(1);
    }
    if before.now.record.closed || before.now.cancelled {
      return before, Code(0);
    }
    Invariant(before);
    r := Perform(before, BeginSetup);
    ghost var begun := r;
    r, exit := Serve(r, calm);
    SinceEarlier(before, begun, r, r);
  }

  /**
   A whole run: any number of cleanups, disturbed and killed at any point, around a service that may be
   killed at any point too. One undisturbed cleanup in the end restores exactly if it finds the surroundings
   cooperating, or that done already.
   */
  method Converge(start: Run) returns (r: Run, exit: Exit, ghost last: Run)
    requires Valid(start) && start.now.actor.Nobody?
    ensures Valid(r) && r.now.plan == start.now.plan
    ensures Valid(last) && Extends(start, last) && OneHolder(last, r, BeginRecovery, true)
    ensures EndsBy(last.now, r.now, exit)
    ensures exit == Code(0) || exit == Code(2) <==> last.now.record.closed || Cooperative(last.now)
    ensures exit == Code(0) || exit == Code(2) <==> Restored(last.now, r.now)
  {
    hide Legal, Marked;
    r := start;
    ghost var taken;
    var attempts: nat := *;
    while attempts > 0
      invariant Valid(r) && Extends(start, r) && r.now.actor.Nobody? && r.now.plan == start.now.plan
    {
      var serve: bool := *;
      if serve && !r.now.started {
        r, exit := Service(r, false);
      } else {
        r, exit, taken := Cleanup(r, false);
      }
      r := Interfere(r, false);
      attempts := attempts - 1;
    }
    last := r;
    r, exit, taken := Cleanup(r, true);
  }

  /**
   An undisturbed test on a host that is as planned: the service sets it up, its processes end, and one cleanup
   leaves the world it found; only the interface index is another one.
   */
  method RunTest(before: Run) returns (r: Run, exit: Exit)
    requires Valid(before) && before.now.actor.Nobody? && !before.now.started && !before.now.cancelled
    requires !before.now.record.closed
    requires CanPrepare(Vet, before.now.plan, before.now.world)
    ensures Valid(r) && Extends(before, r) && r.now.record.closed
    ensures exit == (if before.now.world.routed then Code(0) else Code(2))
    ensures r.now.world == before.now.world.(ifindex := r.now.world.ifindex)
  {
    hide Legal, Marked;
    ghost var taken;
    Invariant(before);
    r, exit := Service(before, true);
    r := Perform(r, Elsewhere(Hold(false)));
    r, exit, taken := Cleanup(r, true);
  }
}
