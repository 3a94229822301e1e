/**
 The isolated network test as a protocol between its durable record and the host.

 A step is one atomic action of one process: a replacement of the record, one command, or one
 check whose result the process remembers. `Permitted` is the discipline a process must follow,
 judged only by what is durable and by what it has itself observed since it took the device lock.
 `Possible` is what the host demands of the step. Processes can die between any two steps.
 */
module NetworkProtocol {
  import opened Wrappers

  type Inode = nat

  /** The two directories dhcpcd may lack: /run/dhcpcd and /var/lib/dhcpcd. */
  datatype Directory = RunDhcpcd | LibDhcpcd

  /** One value for each directory. */
  datatype Each<T> = Each(run: T, lib: T) {
    function At(d: Directory): T {
      match d
      case RunDhcpcd => run
      case LibDhcpcd => lib
    }

    function With(d: Directory, value: T): Each<T> {
      match d
      case RunDhcpcd => Each(value, lib)
      case LibDhcpcd => Each(run, value)
    }
  }

  /** A key of `mountpoints`: missing, an intent without inode, or the inode of the directory made. */
  datatype Mount = Unplanned | Intended | Made(inode: Inode)

  /** Device path, binding event and inode of one physical instance. */
  datatype Identity = Identity(path: nat, event: nat, inode: Inode)

  /** What was recorded before the run: the device and its connection profile. */
  datatype Plan = Plan(device: Identity, profile: nat)

  /** `state.json`, replaced as a whole. */
  datatype Record = Record(
    namespaceRequested: bool,
    namespaceInode: Option<Inode>,
    released: bool,
    moveRequested: bool,
    namespaceIfindex: Option<nat>,
    leaseRequested: bool,
    mountpoints: Each<Mount>,
    recoveryError: bool,
    verificationError: bool,
    closed: bool)

  const PREPARED :=
    Record(false, None, false, false, None, false, Each(Unplanned, Unplanned), false, false, false)

  datatype Place = Home | Inside | Absent

  /** The namespace under this run's name; `ours` tells whether this run added it. */
  datatype Namespace = Namespace(inode: Inode, ours: bool, held: bool, cluttered: bool)

  datatype Folder = Folder(inode: Inode, ours: bool)

  datatype World = World(
    identity: Identity,
    place: Place,
    ifindex: nat,
    managed: bool,
    active: Option<nat>,
    profile: nat,
    namespace: Option<Namespace>,
    lease: bool,
    dirs: Each<Option<Folder>>,
    routed: bool)

  /** What one recovery attempt has established by its own checks, and the values it saw. */
  datatype Checks = Checks(passed: set<Check>, adoptable: Option<Inode>, inside: Option<nat>, gone: bool)

  const UNCHECKED := Checks({}, None, None, false)

  /** The process holding the device lock. */
  datatype Actor =
    | Nobody
    | Setup(vetted: bool, inode: Option<Inode>, unmanaged: bool, ifindex: Option<nat>, made: Each<Option<Inode>>)
    | Recovery(checks: Checks)

  /** `started` and `intruded` remember that the service ran and that the run's name was used by others. */
  datatype State = State(
    plan: Plan,
    record: Record,
    world: World,
    cancelled: bool,
    actor: Actor,
    started: bool,
    intruded: bool)

  /** Commands and observations of the service while it builds the test network. */
  datatype SetupStep =
    | Vet
    | AddNamespace(inode: Inode)
    | SeeNamespace
    | Unmanage
    | SeeUnmanaged
    | MoveIn(ifindex: nat)
    | SeeInside
    | MakeDirectory(dir: Directory, inode: Inode)
    | SeeDirectory(dir: Directory)
    | StartLease
    | StartPeers

  /** Checks of a recovery attempt; each succeeds only if it is true of the world at that moment. */
  datatype Check =
    | LeaseStopped | Adoptable | IsOwned | Unheld | Tidy | Physical | ProfileKept
    | InsideMatches | HomeMatches | IsManaged | IsActive | IsEmpty | IsAbsent

  /** Commands of a recovery attempt. */
  datatype RepairStep =
    | StopLease
    | MoveOut(ifindex: nat)
    | Manage
    | Activate
    | DeleteNamespace
    | RemoveDirectory(dir: Directory)

  /** What others do meanwhile: the cancelling launcher, the kernel, NetworkManager, other root processes. */
  datatype Event =
    | Cancel
    | Unplug
    | Replug(identity: Identity, ifindex: nat, active: Option<nat>)
    | EditProfile(profile: nat)
    | Reconnect(active: Option<nat>)
    | Remanage
    | Hold(held: bool)
    | Clutter(cluttered: bool)
    | Intrude(inode: Inode)
    | DropNamespace(ifindex: nat)
    | LeaseExit
    | PutDirectory(dir: Directory, inode: Inode)
    | DropDirectory(dir: Directory)
    | Reroute(routed: bool)

  /** Taking the device lock, leaving it (by exit or death), and everything done meanwhile. */
  datatype Step =
    | BeginSetup
    | BeginRecovery
    | Leave
    | Write(record: Record)
    | Prepare(setup: SetupStep)
    | Verify(check: Check)
    | Repair(repair: RepairStep)
    | Elsewhere(event: Event)

  predicate Owned(w: World) {
    w.namespace.Some? && w.namespace.value.ours
  }

  /** Nobody is inside: neither a process nor an interface besides loopback. */
  predicate Empty(w: World) {
    w.namespace.Some? && !w.namespace.value.held && !w.lease && !w.namespace.value.cluttered && !w.place.Inside?
  }

  predicate SameBinding(a: Identity, b: Identity) {
    a.path == b.path && a.event == b.event
  }

  // ---------------------------------------------------------------------
  // The discipline: what must be durable and observed before each step
  // ---------------------------------------------------------------------

  /** How the service may replace the record. */
  predicate MayPlan(actor: Actor, old_: Record, new_: Record)
    requires actor.Setup?
  {
    && new_.closed == old_.closed && new_.recoveryError == old_.recoveryError
    && new_.verificationError == old_.verificationError
    && (old_.namespaceRequested ==> new_.namespaceRequested)
    && (new_.namespaceRequested && !old_.namespaceRequested ==> actor.vetted)
    && (new_.namespaceInode == old_.namespaceInode
        || (old_.namespaceInode.None? && old_.namespaceRequested && new_.namespaceInode.Some?
            && new_.namespaceInode == actor.inode))
    && (old_.released ==> new_.released)
    && (new_.released && !old_.released ==> old_.namespaceInode.Some?)
    && (old_.moveRequested ==> new_.moveRequested)
    && (new_.moveRequested && !old_.moveRequested ==> old_.released && actor.unmanaged)
    && (new_.namespaceIfindex == old_.namespaceIfindex
        || (old_.moveRequested && new_.namespaceIfindex.Some? && new_.namespaceIfindex == actor.ifindex))
    && (old_.leaseRequested ==> new_.leaseRequested)
    && (forall d :: MayMount(old_.mountpoints.At(d), new_.mountpoints.At(d), actor.made.At(d)))
  }

  /** First the intent, then the inode seen. */
  predicate MayMount(old_: Mount, new_: Mount, seen: Option<Inode>) {
    new_ == old_ || (old_.Unplanned? && new_.Intended?) || (!old_.Unplanned? && seen.Some? && new_ == Made(seen.value))
  }

  /** The device at home is the one that left, with the profile it had. */
  predicate ReturnedHome(c: Checks) {
    Physical in c.passed && ProfileKept in c.passed && HomeMatches in c.passed
  }

  /** How a recovery attempt may replace the record. */
  predicate MayRecord(c: Checks, old_: Record, new_: Record) {
    && new_.namespaceRequested == old_.namespaceRequested && new_.moveRequested == old_.moveRequested
    && new_.leaseRequested == old_.leaseRequested && new_.mountpoints == old_.mountpoints
    && (new_.namespaceInode == old_.namespaceInode
        || (old_.namespaceInode.None? && old_.namespaceRequested && !old_.released && !old_.moveRequested
            && c.adoptable.Some? && new_.namespaceInode == c.adoptable))
    && (new_.namespaceIfindex == old_.namespaceIfindex
        || (old_.moveRequested && c.inside.Some? && new_.namespaceIfindex == c.inside))
    && (new_.released ==> old_.released)
    && (old_.released && !new_.released ==> ReturnedHome(c) && IsManaged in c.passed && IsActive in c.passed)
    && (old_.closed ==> new_.closed)
    && (new_.closed && !old_.closed ==>
          !old_.released && c.gone && (old_.leaseRequested ==> LeaseStopped in c.passed))
  }

  predicate MayWrite(actor: Actor, old_: Record, new_: Record) {
    match actor
    case Nobody => false
    case Setup(_, _, _, _, _) => MayPlan(actor, old_, new_)
    case Recovery(checks) => MayRecord(checks, old_, new_)
  }

  predicate MayPrepare(step: SetupStep, r: Record, actor: Actor) {
    && actor.Setup?
    && match step
       case AddNamespace(_) => actor.vetted && actor.inode.None? && r.namespaceRequested && r.namespaceInode.None?
       case Unmanage => r.released
       case MoveIn(_) =>
         actor.unmanaged && actor.ifindex.None? && r.released && r.moveRequested && r.namespaceIfindex.None?
       case MakeDirectory(d, _) => !r.mountpoints.At(d).Unplanned?
       case SeeDirectory(d) => !r.mountpoints.At(d).Unplanned?
       case StartLease => r.leaseRequested
       case _ => true
  }

  predicate MayRepair(step: RepairStep, r: Record, actor: Actor) {
    && actor.Recovery? && !r.closed
    && var c := actor.checks;
       match step
       case StopLease => r.leaseRequested
       case MoveOut(_) =>
         && r.released
         && IsOwned in c.passed && Unheld in c.passed && Tidy in c.passed
         && Physical in c.passed && ProfileKept in c.passed
         && InsideMatches in c.passed && c.inside.Some? && (r.namespaceIfindex.Some? ==> r.namespaceIfindex == c.inside)
         && (r.leaseRequested ==> LeaseStopped in c.passed)
       case Manage => r.released && ReturnedHome(c)
       case Activate => r.released && ReturnedHome(c) && IsManaged in c.passed
       case DeleteNamespace => !r.released && (IsOwned in c.passed || IsAbsent in c.passed) && IsEmpty in c.passed
       case RemoveDirectory(d) => !r.released && c.gone && r.mountpoints.At(d).Made?
  }

  /** Steps of the lock holder, judged by the record and by what the holder remembers. */
  predicate MayAct(step: Step, r: Record, actor: Actor) {
    match step
    case Write(record) => MayWrite(actor, r, record)
    case Prepare(setup) => MayPrepare(setup, r, actor)
    case Verify(_) => actor.Recovery?
    case Repair(repair) => MayRepair(repair, r, actor)
    case _ => false
  }

  predicate Permitted(step: Step, s: State) {
    match step
    case BeginSetup => s.actor.Nobody? && !s.started && !s.record.closed && !s.cancelled
    case BeginRecovery => s.actor.Nobody?
    case Leave => !s.actor.Nobody?
    case Elsewhere(_) => true
    case _ => MayAct(step, s.record, s.actor)
  }

  // ---------------------------------------------------------------------
  // The host: what each step demands of the world, and what it does
  // ---------------------------------------------------------------------

  predicate CanPrepare(step: SetupStep, plan: Plan, w: World) {
    match step
    case Vet => w.identity == plan.device && w.place.Home? && w.managed && w.profile == plan.profile && w.namespace.None?
    case AddNamespace(_) => w.namespace.None?
    case SeeNamespace => w.namespace.Some?
    case Unmanage => w.place.Home?
    case SeeUnmanaged => w.place.Home? && !w.managed
    case MoveIn(_) => w.place.Home? && w.namespace.Some?
    case SeeInside => w.place.Inside? && SameBinding(w.identity, plan.device)
    case MakeDirectory(d, _) => w.dirs.At(d).None?
    case SeeDirectory(d) => w.dirs.At(d).Some?
    case StartLease => w.namespace.Some?
    case StartPeers => w.namespace.Some?
  }

  /** What a check demands to succeed. */
  predicate Holds(check: Check, s: State) {
    var r, w := s.record, s.world;
    match check
    case LeaseStopped => !w.lease
    case Adoptable => Empty(w)
    case IsOwned => w.namespace.Some? && r.namespaceRequested && r.namespaceInode == Some(w.namespace.value.inode)
    case Unheld => w.namespace.Some? && !w.namespace.value.held && !w.lease
    case Tidy => w.namespace.Some? && !w.namespace.value.cluttered
    case Physical => !w.place.Absent? && w.identity == s.plan.device
    case ProfileKept => w.profile == s.plan.profile
    case InsideMatches => w.place.Inside? && SameBinding(w.identity, s.plan.device)
    case HomeMatches => w.place.Home? && w.identity == s.plan.device
    case IsManaged => w.place.Home? && w.managed
    case IsActive => w.place.Home? && w.active == Some(s.plan.profile)
    case IsEmpty => Empty(w)
    case IsAbsent => w.namespace.None?
  }

  /** What each check finds out about the host, compared with what is on record. */
  lemma ChecksMean(s: State)
    ensures var w, r, device := s.world, s.record, s.plan.device;
            var there := w.namespace.Some?;
            var nobody := there && !w.namespace.value.held && !w.lease;
            var alone := there && !w.namespace.value.cluttered;
            && (Holds(LeaseStopped, s) <==> !w.lease)
            && (Holds(IsAbsent, s) <==> !there)
            && (Holds(Unheld, s) <==> nobody)
            && (Holds(Tidy, s) <==> alone)
            && (Holds(IsEmpty, s) <==> nobody && alone && w.place != Inside)
            && (Holds(Adoptable, s) <==> nobody && alone && w.place != Inside)
            && (Holds(IsOwned, s) <==>
                  there && r.namespaceRequested && r.namespaceInode == Some(w.namespace.value.inode))
            && (Holds(Physical, s) <==> w.place != Absent && w.identity == device)
            && (Holds(HomeMatches, s) <==> w.place == Home && w.identity == device)
            && (Holds(InsideMatches, s) <==>
                  w.place == Inside && w.identity.path == device.path && w.identity.event == device.event)
            && (Holds(ProfileKept, s) <==> w.profile == s.plan.profile)
            && (Holds(IsManaged, s) <==> w.place == Home && w.managed)
            && (Holds(IsActive, s) <==> w.place == Home && w.active == Some(s.plan.profile))
  {
  }

  predicate CanRepair(step: RepairStep, r: Record, w: World) {
    match step
    case StopLease => true
    case MoveOut(_) => w.place.Inside?
    case Manage => w.place.Home?
    case Activate => w.place.Home? && w.managed
    case DeleteNamespace => w.namespace.Some?
    case RemoveDirectory(d) => w.dirs.At(d).Some? && r.mountpoints.At(d) == Made(w.dirs.At(d).value.inode)
  }

  /** Assumptions about everybody else; README.md spells them out. */
  predicate CanHappen(event: Event, s: State) {
    var w := s.world;
    match event
    case Replug(identity, _, _) => w.place.Absent? && identity != s.plan.device
    case Reconnect(_) => s.record.released && !(s.actor.Recovery? && IsActive in s.actor.checks.passed)
    case Hold(_) => w.namespace.Some?
    case Clutter(_) => w.namespace.Some?
    case Intrude(_) => w.namespace.None?
    case PutDirectory(d, _) => w.dirs.At(d).None?
    case _ => true
  }

  predicate Possible(step: Step, s: State) {
    match step
    case Prepare(setup) => CanPrepare(setup, s.plan, s.world)
    case Verify(check) => Holds(check, s)
    case Repair(repair) => CanRepair(repair, s.record, s.world)
    case Elsewhere(event) => CanHappen(event, s)
    case _ => true
  }

  function PrepareWorld(step: SetupStep, plan: Plan, w: World): World
    requires CanPrepare(step, plan, w)
  {
    match step
    case AddNamespace(inode) => w.(namespace := Some(Namespace(inode, true, false, false)))
    case Unmanage => w.(managed := false, active := None)
    case MoveIn(ifindex) => w.(place := Inside, ifindex := ifindex)
    case MakeDirectory(d, inode) => w.(dirs := w.dirs.With(d, Some(Folder(inode, true))))
    case StartLease => w.(lease := true)
    case StartPeers => w.(namespace := Some(w.namespace.value.(held := true)))
    case _ => w
  }

  function Observe(step: SetupStep, plan: Plan, w: World, actor: Actor): (next: Actor)
    requires CanPrepare(step, plan, w) && actor.Setup?
    ensures next.Setup?
  {
    match step
    case Vet => actor.(vetted := true)
    case SeeNamespace => actor.(inode := Some(w.namespace.value.inode))
    case SeeUnmanaged => actor.(unmanaged := true)
    case SeeInside => actor.(ifindex := Some(w.ifindex))
    case SeeDirectory(d) => actor.(made := actor.made.With(d, Some(w.dirs.At(d).value.inode)))
    case _ => actor
  }

  function Establish(check: Check, w: World, c: Checks): Checks {
    Checks(
      c.passed + {check},
      if check.Adoptable? && w.namespace.Some? then Some(w.namespace.value.inode) else c.adoptable,
      if check.InsideMatches? then Some(w.ifindex) else c.inside,
      c.gone || check.IsAbsent?)
  }

  function RepairWorld(step: RepairStep, plan: Plan, w: World): World {
    match step
    case StopLease => w.(lease := false)
    case MoveOut(ifindex) => w.(place := Home, ifindex := ifindex)
    case Manage => w.(managed := true)
    case Activate => w.(active := Some(plan.profile))
    case DeleteNamespace => w.(namespace := None, place := if w.place.Inside? then Home else w.place)
    case RemoveDirectory(d) => w.(dirs := w.dirs.With(d, None))
  }

  function EventWorld(event: Event, w: World): World
    requires event.Hold? || event.Clutter? ==> w.namespace.Some?
  {
    match event
    case Cancel => w
    case Unplug => w.(place := Absent)
    case Replug(identity, ifindex, active) =>
      w.(identity := identity, place := Home, ifindex := ifindex, managed := true, active := active)
    case EditProfile(profile) => w.(profile := profile)
    case Reconnect(active) => w.(active := active)
    case Remanage => w.(managed := true)
    case Hold(held) => w.(namespace := Some(w.namespace.value.(held := held)))
    case Clutter(cluttered) => w.(namespace := Some(w.namespace.value.(cluttered := cluttered)))
    case Intrude(inode) => w.(namespace := Some(Namespace(inode, false, false, false)))
    case DropNamespace(ifindex) =>
      if w.place.Inside? then w.(namespace := None, place := Home, ifindex := ifindex) else w.(namespace := None)
    case LeaseExit => w.(lease := false)
    case PutDirectory(d, inode) => w.(dirs := w.dirs.With(d, Some(Folder(inode, false))))
    case DropDirectory(d) => w.(dirs := w.dirs.With(d, None))
    case Reroute(routed) => w.(routed := routed)
  }

  /** The state after an event, which is no step of the lock holder. */
  function Meanwhile(event: Event, s: State): State
    requires CanHappen(event, s)
  {
    s.(world := EventWorld(event, s.world),
       cancelled := s.cancelled || event.Cancel?,
       intruded := s.intruded || event.Intrude?)
  }

  function Apply(step: Step, s: State): State
    requires Permitted(step, s) && Possible(step, s)
  {
    match step
    case BeginSetup => s.(actor := Setup(false, None, false, None, Each(None, None)), started := true)
    case BeginRecovery => s.(actor := Recovery(UNCHECKED))
    case Leave => s.(actor := Nobody)
    case Write(record) => s.(record := record)
    case Prepare(setup) =>
      s.(world := PrepareWorld(setup, s.plan, s.world), actor := Observe(setup, s.plan, s.world, s.actor))
    case Verify(check) => s.(actor := Recovery(Establish(check, s.world, s.actor.checks)))
    case Repair(repair) =>
      s.(world := RepairWorld(repair, s.plan, s.world),
         actor := if repair.DeleteNamespace? then Recovery(s.actor.checks.(gone := true)) else s.actor)
    case Elsewhere(event) => Meanwhile(event, s)
  }

  // ---------------------------------------------------------------------
  // Runs
  // ---------------------------------------------------------------------

  ghost predicate Init(s: State) {
    && s.record == PREPARED && s.actor == Nobody && !s.cancelled && !s.started && !s.intruded
    && s.world.identity == s.plan.device && s.world.place == Home && s.world.managed
    && s.world.active == Some(s.plan.profile) && s.world.namespace == None && !s.world.lease
    && forall d :: s.world.dirs.At(d).Some? ==> !s.world.dirs.At(d).value.ours
  }

  ghost predicate Next(s: State, step: Step, t: State) {
    Permitted(step, s) && Possible(step, s) && t == Apply(step, s)
  }

  /** Any interleaving of lock holders, deaths and everybody else, as the states passed and the steps taken. */
  ghost predicate Legal(states: seq<State>, steps: seq<Step>) {
    && |states| == |steps| + 1
    && Init(states[0])
    && forall i {:trigger steps[i]} :: 0 <= i < |steps| ==> Next(states[i], steps[i], states[i + 1])
  }

  lemma LegalSnoc(states: seq<State>, steps: seq<Step>, step: Step)
    requires Legal(states, steps)
    requires Permitted(step, states[|steps|]) && Possible(step, states[|steps|])
    ensures Legal(states + [Apply(step, states[|steps|])], steps + [step])
  {
    var states', steps' := states + [Apply(step, states[|steps|])], steps + [step];
    forall i | 0 <= i < |steps'|
      ensures Next(states'[i], steps'[i], states'[i + 1])
    {
      assert i < |steps| ==> Next(states[i], steps[i], states[i + 1]);
    }
  }

  // ---------------------------------------------------------------------
  // Intent before effect
  // ---------------------------------------------------------------------

  /** Every effect left in the world is announced by the durable record. */
  ghost predicate WriteAhead(s: State) {
    var r, w := s.record, s.world;
    && (Owned(w) ==> r.namespaceRequested)
    && (Owned(w) && r.namespaceInode.None? ==> !r.released)
    && (!w.managed || w.place.Inside? ==> r.released)
    && (w.place.Inside? ==> r.moveRequested && r.namespaceInode.Some? && w.namespace.Some?)
    && (w.lease ==> r.leaseRequested)
    && (forall d :: w.dirs.At(d).Some? && w.dirs.At(d).value.ours ==> !r.mountpoints.At(d).Unplanned?)
    && (r.released || r.moveRequested ==> r.namespaceInode.Some?)
    && (r.namespaceInode.Some? ==> r.namespaceRequested)
    && (r.namespaceIfindex.Some? ==> r.moveRequested)
  }

  /** The record tells the truth about what it names. */
  ghost predicate Truthful(s: State) {
    var r, w := s.record, s.world;
    && (w.place.Inside? && r.namespaceIfindex.Some? ==> r.namespaceIfindex == Some(w.ifindex))
    && (!s.intruded && w.namespace.Some? ==>
          && w.namespace.value.ours
          && (r.namespaceInode.Some? ==> r.namespaceInode == Some(w.namespace.value.inode)))
    && (!r.released && w.identity == s.plan.device ==> w.active == Some(s.plan.profile))
    && (r.closed ==> !r.released && !Owned(w) && !w.lease && !s.actor.Setup?)
    && (!s.started ==>
          && !s.actor.Setup? && !Owned(w)
          && r.(recoveryError := false, verificationError := false, closed := false) == PREPARED)
  }

  /** What the lock holder remembers is still so, where it matters. */
  ghost predicate Remembered(s: State) {
    var r, w := s.record, s.world;
    match s.actor
    case Nobody => true
    case Setup(_, inode, _, ifindex, _) =>
      && (inode.Some? && w.namespace.Some? && !s.intruded ==> inode == Some(w.namespace.value.inode))
      && (ifindex.Some? && w.place.Inside? ==> ifindex == Some(w.ifindex))
    case Recovery(c) =>
      && (LeaseStopped in c.passed ==> !w.lease)
      && (c.gone ==> !Owned(w)) && (IsAbsent in c.passed ==> c.gone)
      && (HomeMatches in c.passed ==> !w.place.Inside?)
      && (IsManaged in c.passed ==> w.managed && !w.place.Inside?)
      && (IsActive in c.passed && w.identity == s.plan.device ==> w.active == Some(s.plan.profile))
      && (c.inside.Some? && w.place.Inside? ==> c.inside == Some(w.ifindex))
      && (c.adoptable.Some? && w.namespace.Some? && !s.intruded ==> c.adoptable == Some(w.namespace.value.inode))
  }

  ghost predicate Inv(s: State) {
    WriteAhead(s) && Truthful(s) && Remembered(s)
  }

  lemma InitInv(s: State)
    requires Init(s)
    ensures Inv(s)
  {
  }

  lemma PrepareInv(s: State, step: SetupStep)
    requires Inv(s) && MayPrepare(step, s.record, s.actor) && CanPrepare(step, s.plan, s.world)
    ensures Inv(s.(world := PrepareWorld(step, s.plan, s.world), actor := Observe(step, s.plan, s.world, s.actor)))
  {
  }

  lemma VerifyInv(s: State, check: Check)
    requires Inv(s) && s.actor.Recovery? && Holds(check, s)
    ensures Inv(s.(actor := Recovery(Establish(check, s.world, s.actor.checks))))
  {
  }

  lemma RepairInv(s: State, step: RepairStep)
    requires Inv(s) && MayRepair(step, s.record, s.actor) && CanRepair(step, s.record, s.world)
    ensures Inv(s.(world := RepairWorld(step, s.plan, s.world),
                   actor := if step.DeleteNamespace? then Recovery(s.actor.checks.(gone := true)) else s.actor))
  {
  }

  lemma EventKeepsIntent(s: State, event: Event)
    requires WriteAhead(s) && CanHappen(event, s)
    ensures WriteAhead(Meanwhile(event, s))
  {
  }

  lemma EventKeepsTruth(s: State, event: Event)
    requires WriteAhead(s) && Truthful(s) && CanHappen(event, s)
    ensures Truthful(Meanwhile(event, s))
  {
  }

  lemma EventKeepsMemory(s: State, event: Event)
    requires Inv(s) && CanHappen(event, s)
    ensures Remembered(Meanwhile(event, s))
  {
  }

  lemma EventInv(s: State, event: Event)
    requires Inv(s) && CanHappen(event, s)
    ensures Inv(Meanwhile(event, s))
  {
    hide WriteAhead, Truthful, Remembered, CanHappen, Meanwhile;
    EventKeepsIntent(s, event);
    EventKeepsTruth(s, event);
    EventKeepsMemory(s, event);
  }

  lemma WriteInv(s: State, record: Record)
    requires Inv(s) && MayWrite(s.actor, s.record, record)
    ensures Inv(s.(record := record))
  {
  }

  lemma LockInv(s: State)
    requires Inv(s)
    ensures Inv(s.(actor := Nobody)) && Inv(s.(actor := Recovery(UNCHECKED)))
    ensures !s.started && !s.record.closed ==>
              Inv(s.(actor := Setup(false, None, false, None, Each(None, None)), started := true))
  {
  }

  lemma NextInv(s: State, step: Step, t: State)
    requires Inv(s) && Next(s, step, t)
    ensures Inv(t)
  {
    match step
    case BeginSetup | BeginRecovery | Leave => LockInv(s);
    case Write(record) => WriteInv(s, record);
    case Prepare(setup) => PrepareInv(s, setup);
    case Verify(check) => VerifyInv(s, check);
    case Repair(repair) => RepairInv(s, repair);
    case Elsewhere(event) => EventInv(s, event);
  }

  lemma {:induction false} AlwaysInv(states: seq<State>, steps: seq<Step>, i: nat)
    requires Legal(states, steps) && i < |states|
    ensures Inv(states[i])
  {
    if i == 0 {
      InitInv(states[0]);
    } else {
      AlwaysInv(states, steps, i - 1);
      assert Next(states[i - 1], steps[i - 1], states[i]);
      NextInv(states[i - 1], steps[i - 1], states[i]);
    }
  }

  // ---------------------------------------------------------------------
  // Safety of whole runs
  // ---------------------------------------------------------------------

  /** Once `closed` is durable, nothing is built, moved, repaired or deleted any more. */
  lemma {:induction false} ClosedIsTerminal(states: seq<State>, steps: seq<Step>, i: nat, j: nat)
    requires Legal(states, steps) && i <= j < |states| && states[i].record.closed
    ensures states[j].record.closed && !states[j].record.released
    ensures !Owned(states[j].world) && !states[j].world.place.Inside? && !states[j].world.lease
    ensures j < |steps| ==> !steps[j].Prepare? && !steps[j].Repair?
    decreases j
  {
    AlwaysInv(states, steps, j);
    if i < j {
      ClosedIsTerminal(states, steps, i, j - 1);
      assert Next(states[j - 1], steps[j - 1], states[j]);
    }
    if j < |steps| {
      assert Next(states[j], steps[j], states[j + 1]);
    }
  }

  /** A service that has not taken the lock before the cancellation marker exists never builds anything. */
  lemma {:induction false} CancelledServiceStaysOut(states: seq<State>, steps: seq<Step>, i: nat, j: nat)
    requires Legal(states, steps) && i <= j < |states| && states[i].cancelled && !states[i].actor.Setup?
    ensures states[j].cancelled && !states[j].actor.Setup?
    ensures j < |steps| ==> !steps[j].Prepare? && !steps[j].BeginSetup?
    decreases j
  {
    if i < j {
      CancelledServiceStaysOut(states, steps, i, j - 1);
      assert Next(states[j - 1], steps[j - 1], states[j]);
    }
    if j < |steps| {
      assert Next(states[j], steps[j], states[j + 1]);
    }
  }

  /** The host as the run was prepared for it. */
  predicate AsPlanned(s: State) {
    var w := s.world;
    w.identity == s.plan.device && w.place == Home && w.managed && w.profile == s.plan.profile && w.namespace == None
  }

  /** NetworkManager has let go of the device. */
  predicate LetGo(s: State) {
    s.world.place == Home && !s.world.managed
  }

  /** The planned device is in the namespace, with this interface index. */
  predicate Arrived(s: State, ifindex: nat) {
    && s.world.place == Inside && s.world.ifindex == ifindex
    && s.world.identity.path == s.plan.device.path && s.world.identity.event == s.plan.device.event
  }

  /** The service has held the lock from step `a` on, and saw for itself what it goes by at `k`. */
  ghost predicate Informed(states: seq<State>, a: nat, k: nat)
    requires k < |states| && states[k].actor.Setup?
  {
    var actor, r := states[k].actor, states[k].record;
    && (actor.vetted ==> exists j: nat :: a < j < k && AsPlanned(states[j]))
    && (actor.unmanaged ==> exists j: nat :: a < j < k && LetGo(states[j]))
    && (actor.ifindex.Some? ==> exists j: nat :: a < j < k && Arrived(states[j], actor.ifindex.value))
    && (r.namespaceRequested ==> actor.vetted)
  }

  /** What the service learns in one step is so. */
  lemma Learns(s: State, step: Step, t: State)
    requires Next(s, step, t) && s.actor.Setup? && t.actor.Setup?
    ensures t.actor.vetted ==> s.actor.vetted || AsPlanned(s)
    ensures t.actor.unmanaged ==> s.actor.unmanaged || LetGo(s)
    ensures t.actor.ifindex.Some? ==> t.actor.ifindex == s.actor.ifindex || Arrived(s, t.actor.ifindex.value)
    ensures s.actor.vetted ==> t.actor.vetted
    ensures t.record.namespaceRequested ==> s.record.namespaceRequested || s.actor.vetted
  {
  }

  lemma StaysInformed(states: seq<State>, a: nat, k: nat, step: Step)
    requires 0 < k < |states| && a < k - 1 && Next(states[k - 1], step, states[k])
    requires states[k - 1].actor.Setup? && states[k].actor.Setup? && Informed(states, a, k - 1)
    ensures Informed(states, a, k)
  {
    hide Next, AsPlanned, LetGo, Arrived;
    Learns(states[k - 1], step, states[k]);
  }

  /** Whatever the service relies on it has seen itself, since it took the lock. */
  lemma {:induction false} ServiceSawItself(states: seq<State>, steps: seq<Step>, k: nat) returns (a: nat)
    requires Legal(states, steps) && k < |states| && states[k].actor.Setup?
    ensures a < k && steps[a] == BeginSetup && Informed(states, a, k)
  {
    assert Next(states[k - 1], steps[k - 1], states[k]);
    if steps[k - 1].BeginSetup? {
      AlwaysInv(states, steps, k - 1);
      a := k - 1;
    } else {
      a := ServiceSawItself(states, steps, k - 1);
      StaysInformed(states, a, k, steps[k - 1]);
    }
  }

  /** The host is touched only after this service found it as planned, and the device moved only once let go. */
  lemma BuildingIsGuarded(states: seq<State>, steps: seq<Step>, k: nat) returns (a: nat)
    requires Legal(states, steps) && k < |steps| && steps[k].Prepare?
    ensures a < k && steps[a] == BeginSetup
    ensures steps[k].setup.AddNamespace? || steps[k].setup.Unmanage? || steps[k].setup.MoveIn? ==>
              exists j: nat :: a < j < k && AsPlanned(states[j])
    ensures steps[k].setup.MoveIn? ==> exists j: nat :: a < j < k && LetGo(states[j])
    ensures steps[k].setup.MoveIn? ==>
              states[k + 1].world.place == Inside && states[k + 1].world.ifindex == steps[k].setup.ifindex
    ensures var r := states[k].record;
            && (steps[k].setup.AddNamespace? ==> r.namespaceRequested)
            && (steps[k].setup.Unmanage? ==> r.released && r.namespaceInode.Some?)
            && (steps[k].setup.MoveIn? ==> r.released && r.moveRequested && r.namespaceInode.Some?)
            && (steps[k].setup.StartLease? ==> r.leaseRequested)
  {
    assert Next(states[k], steps[k], states[k + 1]);
    AlwaysInv(states, steps, k);
    a := ServiceSawItself(states, steps, k);
  }

  /** An interface index the service records was seen on the planned device inside the namespace. */
  lemma RecordedIndexWasSeen(states: seq<State>, steps: seq<Step>, k: nat) returns (a: nat)
    requires Legal(states, steps) && k < |steps| && states[k].actor.Setup?
    requires states[k + 1].record.namespaceIfindex != states[k].record.namespaceIfindex
    ensures a < k && steps[a] == BeginSetup && states[k].record.moveRequested
    ensures var ifindex := states[k + 1].record.namespaceIfindex;
            ifindex.Some? && exists j: nat :: a < j < k && Arrived(states[j], ifindex.value)
  {
    assert Next(states[k], steps[k], states[k + 1]);
    a := ServiceSawItself(states, steps, k);
  }

  /** One recovery process has held the lock from step `a` on, up to step `k`. */
  ghost predicate Attempt(steps: seq<Step>, a: nat, k: nat)
    requires k <= |steps|
  {
    && a < k && steps[a] == BeginRecovery
    && forall j :: a < j < k ==> !steps[j].BeginSetup? && !steps[j].BeginRecovery? && !steps[j].Leave?
  }

  /** The check was made, and was true of the world, between steps `a` and `k`. */
  ghost predicate Verified(states: seq<State>, steps: seq<Step>, a: nat, k: nat, check: Check)
    requires k <= |steps| && |states| == |steps| + 1
  {
    exists j: nat :: a < j < k && steps[j] == Verify(check) && Holds(check, states[j])
  }

  lemma NewClaim(s: State, step: Step, t: State)
    requires Next(s, step, t) && t.actor.Recovery? && !step.BeginRecovery?
    ensures s.actor.Recovery? && !step.BeginSetup? && !step.Leave?
    ensures forall check :: check in t.actor.checks.passed ==>
              check in s.actor.checks.passed || (step == Verify(check) && Holds(check, s))
  {
    match step
    case Verify(new_) =>
      forall check | check in t.actor.checks.passed && check !in s.actor.checks.passed
        ensures check == new_
      {
      }
    case _ =>
  }

  lemma VerifiedLater(states: seq<State>, steps: seq<Step>, a: nat, k: nat, check: Check)
    requires 0 < k <= |steps| && |states| == |steps| + 1
    requires Verified(states, steps, a, k - 1, check)
             || (a < k - 1 && steps[k - 1] == Verify(check) && Holds(check, states[k - 1]))
    ensures Verified(states, steps, a, k, check)
  {
  }

  lemma {:induction false} ClaimsWereVerified(states: seq<State>, steps: seq<Step>, k: nat) returns (a: nat)
    requires Legal(states, steps) && k < |states| && states[k].actor.Recovery?
    ensures Attempt(steps, a, k)
    ensures forall check :: check in states[k].actor.checks.passed ==> Verified(states, steps, a, k, check)
  {
    assert Next(states[k - 1], steps[k - 1], states[k]);
    if steps[k - 1].BeginRecovery? {
      a := k - 1;
    } else {
      NewClaim(states[k - 1], steps[k - 1], states[k]);
      a := ClaimsWereVerified(states, steps, k - 1);
      forall check | check in states[k].actor.checks.passed
        ensures Verified(states, steps, a, k, check)
      {
        VerifiedLater(states, steps, a, k, check);
      }
    }
  }

  lemma {:induction false} AttemptRecovers(states: seq<State>, steps: seq<Step>, a: nat, k: nat, i: nat)
    requires Legal(states, steps) && k <= |steps| && Attempt(steps, a, k) && a < i <= k
    ensures states[i].actor.Recovery?
    decreases i
  {
    assert Next(states[i - 1], steps[i - 1], states[i]);
    if a + 1 < i {
      AttemptRecovers(states, steps, a, k, i - 1);
    }
  }

  /** Within an attempt nothing enters the namespace: an interface that is inside was so all the time. */
  lemma {:induction false} InsideAllAlong(states: seq<State>, steps: seq<Step>, a: nat, k: nat, i: nat)
    requires Legal(states, steps) && k <= |steps| && Attempt(steps, a, k) && a < i <= k
    requires states[k].world.place.Inside?
    ensures states[i].world.place.Inside?
    decreases k - i
  {
    if i < k {
      InsideAllAlong(states, steps, a, k, i + 1);
      AttemptRecovers(states, steps, a, k, i);
      assert Next(states[i], steps[i], states[i + 1]);
    }
  }

  /** One and the same namespace has had this run's name from `j` up to `k`. */
  ghost predicate Lasts(states: seq<State>, j: nat, k: nat)
    requires k < |states|
  {
    forall i :: j <= i <= k ==> states[i].world.namespace.Some?
  }

  /**
   The interface leaves the namespace only after this attempt checked everything about it. All checks were of
   the namespace it leaves.
   */
  lemma MoveOutIsGuarded(states: seq<State>, steps: seq<Step>, k: nat) returns (a: nat)
    requires Legal(states, steps) && k < |steps| && steps[k].Repair? && steps[k].repair.MoveOut?
    ensures Attempt(steps, a, k) && states[k].record.released && states[k].record.moveRequested
    ensures forall check :: check in {IsOwned, Unheld, Tidy, Physical, ProfileKept, InsideMatches} ==>
              Verified(states, steps, a, k, check)
    ensures states[k].record.leaseRequested ==> Verified(states, steps, a, k, LeaseStopped)
    ensures Lasts(states, a + 1, k)
    ensures states[k + 1].world.place == Home && states[k + 1].world.ifindex == steps[k].repair.ifindex
  {
    assert Next(states[k], steps[k], states[k + 1]);
    AlwaysInv(states, steps, k);
    a := ClaimsWereVerified(states, steps, k);
    forall i | a + 1 <= i <= k
      ensures states[i].world.namespace.Some?
    {
      InsideAllAlong(states, steps, a, k, i);
      AlwaysInv(states, steps, i);
    }
  }

  /** A device is managed, and its profile activated, only if this attempt checked that it is the planned one, at home. */
  lemma HandOverIsGuarded(states: seq<State>, steps: seq<Step>, k: nat) returns (a: nat)
    requires Legal(states, steps) && k < |steps| && steps[k] in {Repair(Manage), Repair(Activate)}
    ensures Attempt(steps, a, k) && states[k].record.released && states[k].world.place.Home?
    ensures forall check :: check in {Physical, ProfileKept, HomeMatches} ==> Verified(states, steps, a, k, check)
    ensures steps[k] == Repair(Activate) ==> Verified(states, steps, a, k, IsManaged) && states[k].world.managed
  {
    assert Next(states[k], steps[k], states[k + 1]);
    a := ClaimsWereVerified(states, steps, k);
  }

  predicate IsIntrusion(step: Step) {
    step.Elsewhere? && step.event.Intrude?
  }

  predicate Adds(step: Step) {
    step.Prepare? && step.setup.AddNamespace?
  }

  /** Step `m` put the namespace there that has had this run's name since, up to `k`. */
  ghost predicate PutAt(states: seq<State>, steps: seq<Step>, m: nat, k: nat)
    requires k <= |steps| && |states| == |steps| + 1
  {
    m < k && (Adds(steps[m]) || IsIntrusion(steps[m])) && states[m].world.namespace.None? && Lasts(states, m + 1, k)
  }

  /** The namespace under the run's name is the one there was. */
  predicate SameNamespace(v: World, w: World) {
    && v.namespace.Some? && w.namespace.Some?
    && w.namespace.value.ours == v.namespace.value.ours && w.namespace.value.inode == v.namespace.value.inode
  }

  lemma EventKeepsNamespace(s: State, event: Event)
    requires CanHappen(event, s) && EventWorld(event, s.world).namespace.Some?
    ensures var w := EventWorld(event, s.world);
            if event.Intrude? then s.world.namespace.None? && !w.namespace.value.ours else SameNamespace(s.world, w)
  {
  }

  lemma PrepareKeepsNamespace(step: SetupStep, plan: Plan, w: World)
    requires CanPrepare(step, plan, w) && PrepareWorld(step, plan, w).namespace.Some?
    ensures var w' := PrepareWorld(step, plan, w);
            if step.AddNamespace? then w.namespace.None? && w'.namespace.value.ours else SameNamespace(w, w')
  {
  }

  lemma RepairKeepsNamespace(step: RepairStep, plan: Plan, w: World)
    requires RepairWorld(step, plan, w).namespace.Some?
    ensures SameNamespace(w, RepairWorld(step, plan, w))
  {
  }

  lemma NamespaceStays(s: State, step: Step, t: State)
    requires Next(s, step, t) && t.world.namespace.Some?
    ensures if Adds(step) then s.world.namespace.None? && t.world.namespace.value.ours
            else if IsIntrusion(step) then s.world.namespace.None? && !t.world.namespace.value.ours
            else SameNamespace(s.world, t.world)
  {
    hide Permitted, Observe, Establish, CanHappen, CanPrepare, EventWorld, PrepareWorld, RepairWorld;
    match step
    case Elsewhere(event) => EventKeepsNamespace(s, event);
    case Prepare(setup) => PrepareKeepsNamespace(setup, s.plan, s.world);
    case Repair(repair) => RepairKeepsNamespace(repair, s.plan, s.world);
    case _ =>
  }

  /** Every namespace was put there by one step, and is this run's own exactly if the service did that. */
  lemma {:induction false} WasPutThere(states: seq<State>, steps: seq<Step>, k: nat) returns (m: nat)
    requires Legal(states, steps) && k < |states| && states[k].world.namespace.Some?
    ensures PutAt(states, steps, m, k)
    ensures Owned(states[k].world) <==> Adds(steps[m])
  {
    assert Next(states[k - 1], steps[k - 1], states[k]);
    NamespaceStays(states[k - 1], steps[k - 1], states[k]);
    if states[k - 1].world.namespace.Some? {
      m := WasPutThere(states, steps, k - 1);
    } else {
      m := k - 1;
    }
  }

  /** Within an attempt only others put namespaces there. */
  lemma {:induction false} StaysUnlessIntruded(states: seq<State>, steps: seq<Step>, a: nat, j: nat, k: nat)
    requires Legal(states, steps) && k <= |steps| && Attempt(steps, a, k) && a < j <= k
    requires states[k].world.namespace.Some? && forall i :: j <= i < k ==> !IsIntrusion(steps[i])
    ensures Lasts(states, j, k)
    decreases k - j
  {
    if j < k {
      StaysUnlessIntruded(states, steps, a, j + 1, k);
      AttemptRecovers(states, steps, a, k, j);
      assert Next(states[j], steps[j], states[j + 1]);
      NamespaceStays(states[j], steps[j], states[j + 1]);
    }
  }

  lemma LastsUnlessIntruded(states: seq<State>, steps: seq<Step>, a: nat, j: nat, k: nat)
    requires Legal(states, steps) && k <= |steps| && Attempt(steps, a, k) && a < j <= k
    requires states[k].world.namespace.Some?
    ensures Lasts(states, j, k) <==> forall i :: j <= i < k ==> !IsIntrusion(steps[i])
  {
    if forall i :: j <= i < k ==> !IsIntrusion(steps[i]) {
      StaysUnlessIntruded(states, steps, a, j, k);
    } else {
      var i :| j <= i < k && IsIntrusion(steps[i]);
      assert Next(states[i], steps[i], states[i + 1]);
    }
  }

  /** A recorded namespace inode is not changed by a restoration, nor does a lasting namespace change its own. */
  lemma {:induction false} RecordedInodeLasts(states: seq<State>, steps: seq<Step>, a: nat, j: nat, k: nat)
    requires Legal(states, steps) && k <= |steps| && Attempt(steps, a, k) && a < j <= k
    requires Lasts(states, j, k) && Holds(IsOwned, states[j])
    ensures states[k].record.namespaceInode == Some(states[k].world.namespace.value.inode)
    decreases k
  {
    if j < k {
      RecordedInodeLasts(states, steps, a, j, k - 1);
      AttemptRecovers(states, steps, a, k, k - 1);
      assert Next(states[k - 1], steps[k - 1], states[k]);
      NamespaceStays(states[k - 1], steps[k - 1], states[k]);
    }
  }

  /** Step `j` of an attempt found the name unused, or the namespace to be the one recorded. */
  ghost predicate Cleared(states: seq<State>, steps: seq<Step>, j: nat) {
    && j < |steps| && j < |states|
    && (steps[j] == Verify(IsAbsent) || steps[j] == Verify(IsOwned))
    && Holds(steps[j].check, states[j])
  }

  /**
   What a deletion rests on. The attempt found a namespace empty, and either the one recorded or none at all;
   and the deletion never takes the interface with it. But these checks are of a name: step `m` put the
   namespace there that is deleted, which is this run's own exactly if that was the service. A check was of
   this very namespace exactly if nobody put one there since; and if all of them put theirs there earlier, it
   carries the inode recorded.
   */
  lemma DeletionIsGuarded(states: seq<State>, steps: seq<Step>, k: nat) returns (a: nat, j: nat, m: nat)
    requires Legal(states, steps) && k < |steps| && steps[k] == Repair(DeleteNamespace)
    ensures Attempt(steps, a, k) && Verified(states, steps, a, k, IsEmpty)
    ensures a < j < k && Cleared(states, steps, j)
    ensures !states[k].world.place.Inside? && !states[k].record.released
    ensures PutAt(states, steps, m, k) && (Owned(states[k].world) <==> Adds(steps[m]))
    ensures !states[k].intruded ==> Owned(states[k].world)
    ensures forall i :: a < i < k && (steps[i] == Verify(IsEmpty) || steps[i] == Verify(IsOwned)) ==>
              (Lasts(states, i, k) <==> forall n :: i < n < k ==> !IsIntrusion(steps[n]))
    ensures (j < m && IsIntrusion(steps[m]))
            || (m < j && steps[j] == Verify(IsOwned)
                && states[k].record.namespaceInode == Some(states[k].world.namespace.value.inode))
  {
    assert Next(states[k], steps[k], states[k + 1]);
    AlwaysInv(states, steps, k);
    a := ClaimsWereVerified(states, steps, k);
    j := WasCleared(states, steps, a, k);
    m := WasPutThere(states, steps, k);
    ChecksLast(states, steps, a, k);
    ClearedOrReplaced(states, steps, a, j, m, k);
  }

  lemma WasCleared(states: seq<State>, steps: seq<Step>, a: nat, k: nat) returns (j: nat)
    requires k <= |steps| && |states| == |steps| + 1
    requires Verified(states, steps, a, k, IsOwned) || Verified(states, steps, a, k, IsAbsent)
    ensures a < j < k && Cleared(states, steps, j)
  {
    if Verified(states, steps, a, k, IsOwned) {
      j :| a < j < k && steps[j] == Verify(IsOwned) && Holds(IsOwned, states[j]);
    } else {
      j :| a < j < k && steps[j] == Verify(IsAbsent) && Holds(IsAbsent, states[j]);
    }
  }

  lemma ChecksLast(states: seq<State>, steps: seq<Step>, a: nat, k: nat)
    requires Legal(states, steps) && k <= |steps| && Attempt(steps, a, k) && states[k].world.namespace.Some?
    ensures forall i :: a < i < k && (steps[i] == Verify(IsEmpty) || steps[i] == Verify(IsOwned)) ==>
              (Lasts(states, i, k) <==> forall n :: i < n < k ==> !IsIntrusion(steps[n]))
  {
    forall i | a < i < k && (steps[i] == Verify(IsEmpty) || steps[i] == Verify(IsOwned))
      ensures Lasts(states, i, k) <==> forall n :: i < n < k ==> !IsIntrusion(steps[n])
    {
      assert Next(states[i], steps[i], states[i + 1]);
      LastsUnlessIntruded(states, steps, a, i, k);
    }
  }

  lemma ClearedOrReplaced(states: seq<State>, steps: seq<Step>, a: nat, j: nat, m: nat, k: nat)
    requires Legal(states, steps) && k <= |steps| && Attempt(steps, a, k) && a < j < k
    requires Cleared(states, steps, j) && PutAt(states, steps, m, k)
    ensures (j < m && IsIntrusion(steps[m]))
            || (m < j && steps[j] == Verify(IsOwned)
                && states[k].record.namespaceInode == Some(states[k].world.namespace.value.inode))
  {
    if j <= m {
      AttemptRecovers(states, steps, a, k, m);
      assert Next(states[m], steps[m], states[m + 1]);
    } else {
      assert states[j].world.namespace.Some? && Lasts(states, j, k);
      RecordedInodeLasts(states, steps, a, j, k);
    }
  }

  // ---------------------------------------------------------------------
  // Three runs that delete a namespace of others
  // ---------------------------------------------------------------------

  lemma Extend(states: seq<State>, steps: seq<Step>, step: Step, t: State)
    returns (states': seq<State>, steps': seq<Step>)
    requires Legal(states, steps) && Next(states[|states| - 1], step, t)
    ensures Legal(states', steps') && steps' == steps + [step] && states' == states + [t]
  {
    LegalSnoc(states, steps, step);
    states', steps' := states + [t], steps + [step];
  }

  function Clean(plan: Plan): State {
    State(plan, PREPARED,
          World(plan.device, Home, 2, true, Some(plan.profile), plan.profile, None, false, Each(None, None), true),
          false, Nobody, false, false)
  }

  lemma CleanIsLegal(plan: Plan)
    ensures Legal([Clean(plan)], [])
  {
  }

  const FOREIGN := Namespace(7, false, false, false)

  function Found(s: State, namespace: Option<Namespace>): State {
    s.(world := s.world.(namespace := namespace))
  }

  /** A recovery attempt has passed these checks, and may have seen a namespace to adopt. */
  function Attempting(s: State, passed: set<Check>, adoptable: Option<Inode>): State {
    s.(actor := Recovery(Checks(passed, adoptable, None, IsAbsent in passed)))
  }

  function Deleted(s: State): State
    requires s.actor.Recovery?
  {
    Found(s, None).(actor := Recovery(s.actor.checks.(gone := true)))
  }

  lemma Begins(s: State)
    requires s.actor.Nobody?
    ensures Next(s, BeginRecovery, Attempting(s, {}, None))
  {
  }

  lemma Passes(s: State, passed: set<Check>, adoptable: Option<Inode>, check: Check)
    requires Holds(check, s) && !check.Adoptable? && !check.InsideMatches?
    ensures Next(Attempting(s, passed, adoptable), Verify(check), Attempting(s, passed + {check}, adoptable))
  {
  }

  lemma Intrudes(s: State)
    requires s.world.namespace.None?
    ensures Next(s, Elsewhere(Intrude(7)), Found(s, Some(FOREIGN)).(intruded := true))
  {
  }

  lemma Deletes(s: State, passed: set<Check>, adoptable: Option<Inode>)
    requires IsEmpty in passed && (IsOwned in passed || IsAbsent in passed) && !s.record.closed && !s.record.released
    requires s.world.namespace.Some? && s.world.place.Home?
    ensures Next(Attempting(s, passed, adoptable), Repair(DeleteNamespace), Deleted(Attempting(s, passed, adoptable)))
  {
  }

  lemma FindsNone(plan: Plan) returns (states: seq<State>, steps: seq<Step>)
    ensures Legal(states, steps) && steps == [BeginRecovery, Verify(IsAbsent), Elsewhere(Intrude(7))]
    ensures states[3] == Attempting(Found(Clean(plan), Some(FOREIGN)).(intruded := true), {IsAbsent}, None)
  {
    var s := Clean(plan);
    assert {} + {IsAbsent} == {IsAbsent};
    CleanIsLegal(plan);
    Begins(s);
    Passes(s, {}, None, IsAbsent);
    Intrudes(Attempting(s, {IsAbsent}, None));
    hide Next, Legal, Clean;
    states, steps := Extend([s], [], BeginRecovery, Attempting(s, {}, None));
    states, steps := Extend(states, steps, Verify(IsAbsent), Attempting(s, {IsAbsent}, None));
    states, steps := Extend(states, steps, Elsewhere(Intrude(7)),
                            Attempting(Found(s, Some(FOREIGN)).(intruded := true), {IsAbsent}, None));
  }

  /** The name was unused, and then was not: nothing was checked of the namespace but that it is empty. */
  lemma UncheckedDeletion(plan: Plan) returns (states: seq<State>, steps: seq<Step>)
    ensures Legal(states, steps) && |steps| == 5 && steps[4] == Repair(DeleteNamespace)
    ensures !Owned(states[4].world) && forall j :: 0 <= j < |steps| ==> steps[j] != Verify(IsOwned)
  {
    states, steps := FindsNone(plan);
    var t, passed := Found(Clean(plan), Some(FOREIGN)).(intruded := true), {IsAbsent} + {IsEmpty};
    Passes(t, {IsAbsent}, None, IsEmpty);
    Deletes(t, passed, None);
    assert !Owned(t.world);
    hide Next, Legal, Clean, Owned;
    states, steps := Extend(states, steps, Verify(IsEmpty), Attempting(t, passed, None));
    states, steps := Extend(states, steps, Repair(DeleteNamespace), Deleted(Attempting(t, passed, None)));
  }

  /** A run that never found the name unused, and where it ends. */
  ghost predicate EndsAt(states: seq<State>, steps: seq<Step>, n: nat, s: State) {
    && Legal(states, steps) && |steps| == n && states[n] == s
    && forall j :: 0 <= j < |steps| ==> steps[j] != Verify(IsAbsent)
  }

  lemma Goes(states: seq<State>, steps: seq<Step>, s: State, step: Step, t: State)
    returns (states': seq<State>, steps': seq<Step>)
    requires EndsAt(states, steps, |steps|, s) && Next(s, step, t) && step != Verify(IsAbsent)
    ensures EndsAt(states', steps', |steps| + 1, t)
    ensures steps' == steps + [step] && states' == states + [t]
  {
    states', steps' := Extend(states, steps, step, t);
  }

  /** The service holds the lock and has announced a namespace. */
  function Announced(plan: Plan): State {
    Clean(plan).(record := PREPARED.(namespaceRequested := true), started := true,
                 actor := Setup(true, None, false, None, Each(None, None)))
  }

  lemma Announces(plan: Plan) returns (states: seq<State>, steps: seq<Step>)
    ensures EndsAt(states, steps, 3, Announced(plan))
  {
    var s := Clean(plan);
    CleanIsLegal(plan);
    var begun := s.(actor := Setup(false, None, false, None, Each(None, None)), started := true);
    var vetted := begun.(actor := begun.actor.(vetted := true));
    assert Next(s, BeginSetup, begun) && Next(begun, Prepare(Vet), vetted);
    assert Next(vetted, Write(PREPARED.(namespaceRequested := true)), Announced(plan));
    hide Next, Legal, Clean, Announced;
    states, steps := Goes([s], [], s, BeginSetup, begun);
    states, steps := Goes(states, steps, begun, Prepare(Vet), vetted);
    states, steps := Goes(states, steps, vetted, Write(PREPARED.(namespaceRequested := true)), Announced(plan));
  }

  /** The service is gone, and a namespace is recorded. */
  function Recorded(plan: Plan, namespace: Namespace): State {
    Found(Announced(plan), Some(namespace)).(
      actor := Nobody, record := PREPARED.(namespaceRequested := true, namespaceInode := Some(namespace.inode)))
  }

  const OWN := Namespace(9, true, false, false)

  lemma Adds9(plan: Plan) returns (states: seq<State>, steps: seq<Step>)
    ensures EndsAt(states, steps, 7, Recorded(plan, OWN))
  {
    states, steps := Announces(plan);
    var s := Announced(plan);
    var added := Found(s, Some(OWN));
    var seen := added.(actor := s.actor.(inode := Some(9)));
    var noted := seen.(record := s.record.(namespaceInode := Some(9)));
    assert Next(s, Prepare(AddNamespace(9)), added) && Next(added, Prepare(SeeNamespace), seen);
    assert Next(seen, Write(noted.record), noted) && Next(noted, Leave, Recorded(plan, OWN));
    hide Next, Legal, Announced, Recorded;
    states, steps := Goes(states, steps, s, Prepare(AddNamespace(9)), added);
    states, steps := Goes(states, steps, added, Prepare(SeeNamespace), seen);
    states, steps := Goes(states, steps, seen, Write(noted.record), noted);
    states, steps := Goes(states, steps, noted, Leave, Recorded(plan, OWN));
  }

  /** An attempt finds a namespace that is the one recorded, and empty. */
  lemma FindsItsOwn(plan: Plan) returns (states: seq<State>, steps: seq<Step>)
    ensures EndsAt(states, steps, 10, Attempting(Recorded(plan, OWN), {IsOwned, IsEmpty}, None))
    ensures steps[7] == BeginRecovery && steps[8] == Verify(IsOwned) && steps[9] == Verify(IsEmpty)
  {
    states, steps := Adds9(plan);
    var s := Recorded(plan, OWN);
    Begins(s);
    Passes(s, {}, None, IsOwned);
    Passes(s, {IsOwned}, None, IsEmpty);
    assert {} + {IsOwned} == {IsOwned} && {IsOwned} + {IsEmpty} == {IsOwned, IsEmpty};
    hide Next, Legal, Recorded;
    states, steps := Goes(states, steps, s, BeginRecovery, Attempting(s, {}, None));
    states, steps := Goes(states, steps, Attempting(s, {}, None), Verify(IsOwned), Attempting(s, {IsOwned}, None));
    states, steps := Goes(states, steps, Attempting(s, {IsOwned}, None), Verify(IsEmpty),
                          Attempting(s, {IsOwned, IsEmpty}, None));
  }

  /** The record speaks of this run's namespace, but another one has its name. */
  function Swapped(plan: Plan, namespace: Namespace): State {
    Found(Recorded(plan, OWN), Some(namespace)).(intruded := true)
  }

  lemma Swaps(plan: Plan) returns (states: seq<State>, steps: seq<Step>)
    ensures EndsAt(states, steps, 12, Attempting(Swapped(plan, FOREIGN), {IsOwned, IsEmpty}, None))
    ensures steps[7] == BeginRecovery && steps[8] == Verify(IsOwned) && steps[9] == Verify(IsEmpty)
    ensures steps[10].Elsewhere? && steps[11].Elsewhere?
  {
    states, steps := FindsItsOwn(plan);
    var passed, own, gone := {IsOwned, IsEmpty}, Recorded(plan, OWN), Found(Recorded(plan, OWN), None);
    assert Next(Attempting(own, passed, None), Elsewhere(DropNamespace(2)), Attempting(gone, passed, None));
    Intrudes(Attempting(gone, passed, None));
    assert Swapped(plan, FOREIGN) == Found(gone, Some(FOREIGN)).(intruded := true);
    hide Next, Legal, Recorded, Swapped;
    states, steps := Goes(states, steps, Attempting(own, passed, None), Elsewhere(DropNamespace(2)),
                          Attempting(gone, passed, None));
    states, steps := Goes(states, steps, Attempting(gone, passed, None), Elsewhere(Intrude(7)),
                          Attempting(Swapped(plan, FOREIGN), passed, None));
  }

  lemma Clutters(plan: Plan, passed: set<Check>)
    ensures var s, t := Swapped(plan, FOREIGN), Swapped(plan, FOREIGN.(cluttered := true));
            && Next(Attempting(s, passed, None), Elsewhere(Clutter(true)), Attempting(t, passed, None))
            && !Owned(t.world) && t.record.namespaceInode == Some(9)
            && t.world.namespace == Some(FOREIGN.(cluttered := true))
  {
  }

  lemma Fills(plan: Plan) returns (states: seq<State>, steps: seq<Step>)
    ensures EndsAt(states, steps, 13, Attempting(Swapped(plan, FOREIGN.(cluttered := true)), {IsOwned, IsEmpty}, None))
    ensures Attempt(steps, 7, 13) && steps[8] == Verify(IsOwned) && steps[9] == Verify(IsEmpty)
  {
    states, steps := Swaps(plan);
    Clutters(plan, {IsOwned, IsEmpty});
    hide Next, Legal, Swapped;
    states, steps := Goes(states, steps, Attempting(Swapped(plan, FOREIGN), {IsOwned, IsEmpty}, None), Elsewhere(Clutter(true)),
                          Attempting(Swapped(plan, FOREIGN.(cluttered := true)), {IsOwned, IsEmpty}, None));
  }

  /** The namespace checked gives way to another one, which is not even empty. */
  lemma SwappedDeletion(plan: Plan) returns (states: seq<State>, steps: seq<Step>)
    ensures Legal(states, steps) && |steps| == 14 && Attempt(steps, 7, 13) && steps[13] == Repair(DeleteNamespace)
    ensures steps[8] == Verify(IsOwned) && steps[9] == Verify(IsEmpty)
    ensures forall j :: 0 <= j < |steps| ==> steps[j] != Verify(IsAbsent)
    ensures !Owned(states[13].world) && states[13].world.namespace.value.cluttered
    ensures states[13].record.namespaceInode != Some(states[13].world.namespace.value.inode)
  {
    states, steps := Fills(plan);
    var s := Swapped(plan, FOREIGN.(cluttered := true));
    Clutters(plan, {IsOwned, IsEmpty});
    Deletes(s, {IsOwned, IsEmpty}, None);
    hide Next, Legal, Swapped, Owned;
    states, steps := Goes(states, steps, Attempting(s, {IsOwned, IsEmpty}, None), Repair(DeleteNamespace),
                          Deleted(Attempting(s, {IsOwned, IsEmpty}, None)));
  }

  /** The service died before it added the namespace it had announced, and others put one there. */
  function Expecting(plan: Plan): State {
    Found(Announced(plan), Some(FOREIGN)).(intruded := true)
  }

  lemma FindsAnother(plan: Plan) returns (states: seq<State>, steps: seq<Step>)
    ensures EndsAt(states, steps, 6, Attempting(Expecting(plan), {}, None)) && steps[5] == BeginRecovery
  {
    states, steps := Announces(plan);
    var left := Announced(plan).(actor := Nobody);
    var found := Expecting(plan).(actor := Nobody);
    assert Next(Announced(plan), Leave, left);
    Intrudes(left);
    Begins(found);
    hide Next, Legal, Announced;
    states, steps := Goes(states, steps, Announced(plan), Leave, left);
    states, steps := Goes(states, steps, left, Elsewhere(Intrude(7)), found);
    states, steps := Goes(states, steps, found, BeginRecovery, Attempting(found, {}, None));
  }

  function Adopted(plan: Plan): State {
    Expecting(plan).(record := PREPARED.(namespaceRequested := true, namespaceInode := Some(7)))
  }

  lemma Adopts(plan: Plan) returns (states: seq<State>, steps: seq<Step>)
    ensures EndsAt(states, steps, 8, Attempting(Adopted(plan), {Adoptable}, Some(7)))
    ensures steps[5] == BeginRecovery && steps[6].Verify? && steps[7].Write?
  {
    states, steps := FindsAnother(plan);
    var s, t := Expecting(plan), Adopted(plan);
    assert {} + {Adoptable} == {Adoptable};
    assert Next(Attempting(s, {}, None), Verify(Adoptable), Attempting(s, {Adoptable}, Some(7)));
    assert Next(Attempting(s, {Adoptable}, Some(7)), Write(t.record), Attempting(t, {Adoptable}, Some(7)));
    hide Next, Legal, Expecting, Adopted;
    states, steps := Goes(states, steps, Attempting(s, {}, None), Verify(Adoptable), Attempting(s, {Adoptable}, Some(7)));
    states, steps := Goes(states, steps, Attempting(s, {Adoptable}, Some(7)), Write(t.record),
                          Attempting(t, {Adoptable}, Some(7)));
  }

  lemma FindsItRecorded(plan: Plan) returns (states: seq<State>, steps: seq<Step>)
    ensures EndsAt(states, steps, 10, Attempting(Adopted(plan), {Adoptable, IsOwned, IsEmpty}, Some(7)))
    ensures Attempt(steps, 5, 10) && steps[8] == Verify(IsOwned) && steps[9] == Verify(IsEmpty)
  {
    states, steps := Adopts(plan);
    var t := Adopted(plan);
    Passes(t, {Adoptable}, Some(7), IsOwned);
    Passes(t, {Adoptable, IsOwned}, Some(7), IsEmpty);
    assert {Adoptable} + {IsOwned} == {Adoptable, IsOwned};
    assert {Adoptable, IsOwned} + {IsEmpty} == {Adoptable, IsOwned, IsEmpty};
    hide Next, Legal, Adopted;
    states, steps := Goes(states, steps, Attempting(t, {Adoptable}, Some(7)), Verify(IsOwned),
                          Attempting(t, {Adoptable, IsOwned}, Some(7)));
    states, steps := Goes(states, steps, Attempting(t, {Adoptable, IsOwned}, Some(7)), Verify(IsEmpty),
                          Attempting(t, {Adoptable, IsOwned, IsEmpty}, Some(7)));
  }

  /** That namespace is adopted: recorded, found to be the one recorded, found empty, and deleted. */
  lemma AdoptedDeletion(plan: Plan) returns (states: seq<State>, steps: seq<Step>)
    ensures Legal(states, steps) && |steps| == 11 && Attempt(steps, 5, 10) && steps[10] == Repair(DeleteNamespace)
    ensures steps[8] == Verify(IsOwned) && steps[9] == Verify(IsEmpty)
    ensures forall j :: 0 <= j < |steps| ==> steps[j] != Verify(IsAbsent)
    ensures !Owned(states[10].world)
    ensures states[10].record.namespaceInode == Some(states[10].world.namespace.value.inode)
  {
    states, steps := FindsItRecorded(plan);
    var t := Adopted(plan);
    Deletes(t, {Adoptable, IsOwned, IsEmpty}, Some(7));
    assert !Owned(t.world) && t.record.namespaceInode == Some(t.world.namespace.value.inode);
    hide Next, Legal, Adopted, Owned;
    states, steps := Goes(states, steps, Attempting(t, {Adoptable, IsOwned, IsEmpty}, Some(7)), Repair(DeleteNamespace),
                          Deleted(Attempting(t, {Adoptable, IsOwned, IsEmpty}, Some(7))));
  }

  /** The inode was read at the planned directory at an earlier step. */
  ghost predicate Seen(states: seq<State>, steps: seq<Step>, k: nat, d: Directory, inode: Inode)
    requires k <= |steps| && |states| == |steps| + 1
  {
    exists j: nat :: j < k && steps[j] == Prepare(SeeDirectory(d)) && SeenAt(states[j], d, inode)
  }

  predicate SeenAt(s: State, d: Directory, inode: Inode) {
    s.world.dirs.At(d).Some? && s.world.dirs.At(d).value.inode == inode && !s.record.mountpoints.At(d).Unplanned?
  }

  /** A removed directory carries the inode this run read and recorded after writing its intent. */
  lemma RemovalIsGuarded(states: seq<State>, steps: seq<Step>, k: nat, d: Directory)
    requires Legal(states, steps) && k < |steps| && steps[k] == Repair(RemoveDirectory(d))
    ensures states[k].world.dirs.At(d).Some? && Seen(states, steps, k, d, states[k].world.dirs.At(d).value.inode)
  {
    assert Next(states[k], steps[k], states[k + 1]);
    RecordedInodeWasSeen(states, steps, k, d, states[k].world.dirs.At(d).value.inode);
  }

  predicate Noted(s: State, d: Directory, inode: Inode) {
    s.record.mountpoints.At(d) == Made(inode) || (s.actor.Setup? && s.actor.made.At(d) == Some(inode))
  }

  lemma NewNote(s: State, step: Step, t: State, d: Directory, inode: Inode)
    requires Next(s, step, t) && Noted(t, d, inode) && !Noted(s, d, inode)
    ensures step == Prepare(SeeDirectory(d)) && SeenAt(s, d, inode)
  {
  }

  lemma {:induction false} RecordedInodeWasSeen(states: seq<State>, steps: seq<Step>, k: nat, d: Directory, inode: Inode)
    requires Legal(states, steps) && k < |states| && Noted(states[k], d, inode)
    ensures Seen(states, steps, k, d, inode)
  {
    if k > 0 {
      assert Next(states[k - 1], steps[k - 1], states[k]);
      if Noted(states[k - 1], d, inode) {
        RecordedInodeWasSeen(states, steps, k - 1, d, inode);
      } else {
        NewNote(states[k - 1], steps[k - 1], states[k], d, inode);
      }
    }
  }
}
