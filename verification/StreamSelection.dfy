/**
 The manager's operations as steps of the session worker: what `StreamManager` does to the receivers of its
 peers is what `Stream` lets the worker do, so the one request at a time that `Stream` asks for is kept.
 */
module StreamSelection {
  import opened Wrappers
  import Worker = Stream
  import Manager = StreamManager

  type Identity = Manager.Identity

  /** The worker's receivers are those of the manager's peers, and the same ones ask for a window. */
  ghost predicate Mirrors(m: Manager.State, s: Worker.State) {
    && s.worker.Free?
    && (forall id: Identity :: id in s.receivers <==> id in m.peers && m.peers[id].receiver.Some?)
    && (forall id: Identity :: Worker.Requests(s, id) <==> Manager.Requests(m, id))
  }

  /** A receiver's `select`, as the three steps it takes. */
  ghost function Selecting(s: Worker.State, r: nat, application: Option<Worker.Application>): Worker.State
    requires Worker.CanWork(Worker.WorkerStep.Select(r, application), s)
  {
    var cleared := Worker.DoWork(Worker.WorkerStep.Select(r, application), s);
    Worker.DoWork(Worker.Finish, Worker.DoWork(Worker.Drain, cleared))
  }

  lemma SelectingChangesOne(s: Worker.State, r: nat, application: Option<Worker.Application>)
    requires Worker.CanWork(Worker.WorkerStep.Select(r, application), s)
    ensures var t := Selecting(s, r, application);
            && t.worker.Free? && t.receivers.Keys == s.receivers.Keys
            && forall id: nat :: Worker.Requests(t, id) <==> if id == r then application.Some? else Worker.Requests(s, id)
  {
    var t := Selecting(s, r, application);
    assert t.receivers == s.receivers[r := Worker.Receiver(application, None, None, s.receivers[r].active)];
  }

  /** Stopping deselects the playing receiver, and nothing else. */
  ghost function Stopping(m: Manager.State, s: Worker.State): Worker.State
    requires s.worker.Free?
  {
    if m.playback.Some? && m.playback.value.identity in s.receivers
    then Selecting(s, m.playback.value.identity, None) else s
  }

  lemma StopIsMirrored(m: Manager.State, s: Worker.State)
    requires Mirrors(m, s)
    ensures Mirrors(Manager.Stopped(m), Stopping(m, s))
  {
    var n, t := Manager.Stopped(m), Stopping(m, s);
    if m.playback.Some? && m.playback.value.identity in s.receivers {
      SelectingChangesOne(s, m.playback.value.identity, None);
    }
    forall id: Identity
      ensures id in t.receivers <==> id in n.peers && n.peers[id].receiver.Some?
      ensures Worker.Requests(t, id) <==> Manager.Requests(n, id)
    {
      assert Worker.Requests(s, id) <==> Manager.Requests(m, id);
    }
  }

  /** The receiver a hoist selects with: a new one, if the peer has none yet. */
  ghost function Equipped(s: Worker.State, r: nat): Worker.State
    requires s.worker.Free?
  {
    if r in s.receivers then s else Worker.DoWork(Worker.Create(r), s)
  }

  lemma EquippingRequestsNothing(s: Worker.State, r: nat)
    requires s.worker.Free?
    ensures var t := Equipped(s, r);
            && t.worker.Free? && t.receivers.Keys == s.receivers.Keys + {r}
            && forall id: nat :: Worker.Requests(t, id) <==> Worker.Requests(s, id)
  {
  }

  /**
   A hoist that succeeds meets no other request: after the stop it begins with, the worker may select for the
   peer, and does what the manager does.
   */
  lemma HoistIsMirrored(m: Manager.State, s: Worker.State, target: Manager.Target, answer: Manager.Answer,
                        application: Worker.Application)
    requires Manager.Coherent(m) && Mirrors(m, s)
    requires m.selected != Some(target) && Manager.Hoisted(m, target, answer).1
    ensures var ready := Equipped(Stopping(m, s), target.identity);
            && Worker.CanWork(Worker.WorkerStep.Select(target.identity, Some(application)), ready)
            && Mirrors(Manager.Hoisted(m, target, answer).0, Selecting(ready, target.identity, Some(application)))
  {
    var stopped := Stopping(m, s);
    StopIsMirrored(m, s);
    Manager.StopClears(m);
    assert forall id: Identity :: !Worker.Requests(stopped, id);
    EquippingRequestsNothing(stopped, target.identity);
    var ready := Equipped(stopped, target.identity);
    SelectingChangesOne(ready, target.identity, Some(application));
    var n, t := Manager.Hoisted(m, target, answer).0, Selecting(ready, target.identity, Some(application));
    hide Selecting, Equipped, Stopping;
    forall id: Identity
      ensures id in t.receivers <==> id in n.peers && n.peers[id].receiver.Some?
      ensures Worker.Requests(t, id) <==> Manager.Requests(n, id)
    {
      assert id in stopped.receivers <==>
        id in Manager.Stopped(m).peers && Manager.Stopped(m).peers[id].receiver.Some?;
      assert !Manager.Requests(Manager.Stopped(m), id);
    }
  }

  /** In a poll a receiver can only go away or give its own request up: steps that ask for nothing new. */
  lemma PollOnlyDrops(m: Manager.State, s: Worker.State, reports: Identity -> Manager.Report, id: Identity)
    requires Mirrors(m, s) && id in s.receivers
    ensures var peer := Manager.PolledPeers(m, reports)[id];
            && (peer.receiver.None? ==> Worker.CanWork(Worker.Discard(id), s))
            && (peer.receiver.Some? && peer.receiver.value.requested != m.peers[id].receiver.value.requested ==>
                  && peer.receiver.value.requested.None?
                  && Worker.CanWork(Worker.WorkerStep.Select(id, None), s))
  {
  }
}
