/**
 Requests to a window's remote control, and the one reply each of them gets.

 `Administer` takes up to sixteen requests; an input request it admits waits on its window, where it is put
 when the frame's commands are applied. There it stays until it is completed, dropped, replaced, or its
 window goes away. `log` records every reply ever sent.
 */
module ControlRequests {
  import opened Wrappers

  type Window = nat
  type RequestId = nat

  datatype Grant = Grant(id: nat, active: bool, available: bool, permitted: bool)

  datatype Controlled = Controlled(window: Window, grant: Grant)

  /** Changing a window's policy may revoke its grant on the way, whether or not it succeeds. */
  datatype Command = Configure(window: Window, revokes: bool, ok: bool) | RequestInput(control: nat)

  datatype Request = Request(id: RequestId, command: Command, deadline: nat, cancelled: bool)

  /** A waiting input request; `open` until its completion has been used. */
  datatype Pending = Pending(request: RequestId, control: nat, deadline: nat, open: bool)

  datatype Reply = Reply(request: RequestId, ok: bool)

  datatype Insert = Insert(window: Window, pending: Pending)

  datatype State = State(
    grants: seq<Controlled>,
    pending: map<Window, Pending>,
    inserts: seq<Insert>,
    log: seq<Reply>,
    consumed: set<RequestId>)

  const BATCH: nat := 16

  function FindControl(grants: seq<Controlled>, control: nat): (r: Option<Controlled>)
    ensures r.Some? ==> r.value in grants && r.value.grant.id == control && r.value.grant.active
    ensures r.None? ==> forall c | c in grants :: c.grant.id != control || !c.grant.active
  {
    if grants == [] then None
    else if grants[0].grant.id == control && grants[0].grant.active then Some(grants[0])
    else FindControl(grants[1..], control)
  }

  function GrantOf(grants: seq<Controlled>, window: Window): Option<Grant> {
    if grants == [] then None
    else if grants[0].window == window then Some(grants[0].grant)
    else GrantOf(grants[1..], window)
  }

  function Revoke(grants: seq<Controlled>, window: Window): seq<Controlled> {
    seq(|grants|, i requires 0 <= i < |grants| =>
      if grants[i].window == window then grants[i].(grant := grants[i].grant.(active := false)) else grants[i])
  }

  function Answer(s: State, id: RequestId, ok: bool): State {
    s.(log := s.log + [Reply(id, ok)])
  }

  /** One request of a batch; `admitted` are the windows for which an input request was already considered. */
  function Taken(s: State, admitted: set<Window>, request: Request, now: nat): (State, set<Window>) {
    var t := s.(consumed := s.consumed + {request.id});
    if request.deadline <= now || request.cancelled then (Answer(t, request.id, false), admitted)
    else
      match request.command
      case Configure(window, revokes, ok) =>
        (Answer(t.(grants := if revokes then Revoke(t.grants, window) else t.grants), request.id, ok), admitted)
      case RequestInput(control) =>
        var target := FindControl(t.grants, control);
        if target.None? || target.value.window in t.pending || target.value.window in admitted
        then (Answer(t, request.id, false), admitted)
        else
          var window := target.value.window;
          if !target.value.grant.permitted then (Answer(t, request.id, false), admitted + {window})
          else (t.(inserts := t.inserts + [Insert(window, Pending(request.id, control, request.deadline, true))]),
                admitted + {window})
  }

  function TakenAll(s: State, requests: seq<Request>, now: nat): (State, set<Window>) {
    if requests == [] then (s, {})
    else
      var n := |requests| - 1;
      var (t, admitted) := TakenAll(s, requests[..n], now);
      Taken(t, admitted, requests[n], now)
  }

  /** A pending request goes; if it was not answered yet, it is answered as cancelled. */
  function Dropped(s: State, window: Window): State {
    if window !in s.pending then s
    else
      var p := s.pending[window];
      var t := s.(pending := s.pending - {window});
      if p.open then Answer(t, p.request, false) else t
  }

  /** Applies the first waiting insert: it replaces what was there, or is dropped with its window. */
  function AppliedOne(s: State, alive: set<Window>): State
    requires s.inserts != []
  {
    var insert := s.inserts[0];
    var t := s.(inserts := s.inserts[1..]);
    if insert.window !in alive then
      if insert.pending.open then Answer(t, insert.pending.request, false) else t
    else
      var u := Dropped(t, insert.window);
      u.(pending := u.pending[insert.window := insert.pending])
  }

  /** What completing decides about one waiting request, if anything. */
  function Outcome(p: Pending, grant: Option<Grant>, cancelled: bool, now: nat): Option<bool> {
    if cancelled || p.deadline <= now then Some(false)
    else if grant.Some? && grant.value.active && grant.value.id == p.control then
      if grant.value.available then Some(true) else None
    else Some(false)
  }

  function Finished(s: State, window: Window, ok: bool): State
    requires window in s.pending
  {
    var p := s.pending[window];
    if p.open then Answer(s.(pending := s.pending[window := p.(open := false)]), p.request, ok) else s
  }

  /** Completing one window's request: its answer, and then its removal, which finds the completion used. */
  function Completed(s: State, window: Window, cancelled: bool, now: nat): State {
    if window !in s.pending then s
    else
      var result := Outcome(s.pending[window], GrantOf(s.grants, window), cancelled, now);
      if result.None? then s else Dropped(Finished(s, window, result.value), window)
  }

  // ---------------------------------------------------------------------
  // The control as the program it is
  // ---------------------------------------------------------------------

  class Control {
    var grants: seq<Controlled>
    var pending: map<Window, Pending>
    var inserts: seq<Insert>
    var log: seq<Reply>
    var consumed: set<RequestId>

    ghost function Now(): State
      reads this
    {
      State(grants, pending, inserts, log, consumed)
    }

    method Send(id: RequestId, ok: bool)
      modifies this`log
      ensures log == old(log) + [Reply(id, ok)]
    {
      log := log + [Reply(id, ok)];
    }

    /** One batch; what is left in the channel waits for the next frame. */
    method Administer(requests: seq<Request>, now: nat)
      requires |requests| <= BATCH
      modifies this
      ensures Now() == TakenAll(old(Now()), requests, now).0
    {
      var admitted: set<Window> := {};
      for i := 0 to |requests|
        invariant (Now(), admitted) == TakenAll(old(Now()), requests[..i], now)
      {
        assert requests[..i + 1][..i] == requests[..i];
        admitted := Take(requests[i], admitted, now);
      }
      assert requests[..|requests|] == requests;
    }

    method Take(request: Request, seen: set<Window>, now: nat) returns (admitted: set<Window>)
      modifies this
      ensures (Now(), admitted) == Taken(old(Now()), seen, request, now)
    {
      admitted := seen;
      consumed := consumed + {request.id};
      var result := false;
      if request.deadline > now && !request.cancelled {
        match request.command
        case Configure(window, revokes, ok) =>
          if revokes {
            grants := Revoke(grants, window);
          }
          result := ok;
        case RequestInput(control) =>
          var target := FindControl(grants, control);
          if target.Some? && target.value.window !in pending && target.value.window !in admitted {
            admitted := admitted + {target.value.window};
            if target.value.grant.permitted {
              inserts := inserts + [Insert(target.value.window, Pending(request.id, control, request.deadline, true))];
              return;
            }
          }
      }
      Send(request.id, result);
    }

    /** Dropping the component of a window answers its request, if that is still due. */
    method Drop(window: Window)
      modifies this`pending, this`log
      ensures Now() == Dropped(old(Now()), window)
    {
      if window in pending {
        var p := pending[window];
        pending := pending - {window};
        if p.open {
          Send(p.request, false);
        }
      }
    }

    method Complete(window: Window, cancelled: bool, now: nat)
      modifies this`pending, this`log
      ensures Now() == Completed(old(Now()), window, cancelled, now)
    {
      if window !in pending {
        return;
      }
      var result := Outcome(pending[window], GrantOf(grants, window), cancelled, now);
      if result.Some? {
        var p := pending[window];
        if p.open {
          pending := pending[window := p.(open := false)];
          Send(p.request, result.value);
        }
        Drop(window);
      }
    }
  }

  // ---------------------------------------------------------------------
  // What single steps mean
  // ---------------------------------------------------------------------

  /** `grant` is that of the first controlled window of this name. */
  ghost predicate IsGrantOf(grants: seq<Controlled>, window: Window, grant: Grant) {
    exists i: nat :: i < |grants| && grants[i] == Controlled(window, grant)
                     && forall j :: 0 <= j < i ==> grants[j].window != window
  }

  lemma {:induction false} GrantMeans(grants: seq<Controlled>, window: Window)
    ensures GrantOf(grants, window).Some? ==> IsGrantOf(grants, window, GrantOf(grants, window).value)
    ensures GrantOf(grants, window).None? <==> forall c :: c in grants ==> c.window != window
  {
    if grants != [] && grants[0].window != window {
      var rest := grants[1..];
      GrantMeans(rest, window);
      assert forall c :: c in grants <==> c == grants[0] || c in rest;
      if GrantOf(rest, window).Some? {
        var i: nat :| i < |rest| && rest[i] == Controlled(window, GrantOf(rest, window).value)
                      && forall j :: 0 <= j < i ==> rest[j].window != window;
        assert grants[i + 1] == rest[i];
        forall j | 0 <= j < i + 1
          ensures grants[j].window != window
        {
          assert j > 0 ==> grants[j] == rest[j - 1];
        }
      }
    } else if grants != [] {
      assert grants[0] == Controlled(window, grants[0].grant);
    }
  }

  /** Revoking ends the grant of that window, and leaves those of others as they are. */
  lemma {:induction false} RevokeMeans(grants: seq<Controlled>, window: Window, other: Window)
    ensures var was, now := GrantOf(grants, other), GrantOf(Revoke(grants, window), other);
            && (was.Some? <==> now.Some?)
            && (was.Some? ==> now.value == if other == window then was.value.(active := false) else was.value)
  {
    if grants != [] {
      RevokeMeans(grants[1..], window, other);
      assert Revoke(grants, window)[1..] == Revoke(grants[1..], window);
    }
  }

  /** The first active grant under this id is for a window with no request waiting or considered. */
  ghost predicate Open(s: State, admitted: set<Window>, control: nat, target: Controlled) {
    && FindControl(s.grants, control) == Some(target)
    && target.window !in s.pending && target.window !in admitted
  }

  /**
   What one request of a batch comes to. A late or cancelled one is answered at once, with failure; a change of a
   policy with how it went, and it ends the window's grant if it revokes that. An input request is put on its
   window, unanswered, if the grant it names is active and permits it and the window is free; else it fails.
   */
  lemma RequestIsJudged(s: State, admitted: set<Window>, request: Request, now: nat)
    ensures var (t, considered) := Taken(s, admitted, request, now);
            && t.pending == s.pending && t.consumed == s.consumed + {request.id}
            && if now >= request.deadline || request.cancelled then
                 t.log == s.log + [Reply(request.id, false)] && t.inserts == s.inserts && t.grants == s.grants
                 && considered == admitted
               else if request.command.Configure? then
                 && t.log == s.log + [Reply(request.id, request.command.ok)] && t.inserts == s.inserts
                 && considered == admitted
                 && (forall window :: GrantOf(t.grants, window) ==
                       if request.command.revokes && window == request.command.window && GrantOf(s.grants, window).Some?
                       then Some(GrantOf(s.grants, window).value.(active := false)) else GrantOf(s.grants, window))
               else
                 var control := request.command.control;
                 && t.grants == s.grants
                 && (forall target :: Open(s, admitted, control, target) ==>
                       && considered == admitted + {target.window}
                       && if target.grant.permitted then
                            t.log == s.log && t.inserts == s.inserts + [
                              Insert(target.window, Pending(request.id, control, request.deadline, true))]
                          else t.log == s.log + [Reply(request.id, false)] && t.inserts == s.inserts)
                 && ((forall target :: !Open(s, admitted, control, target)) ==>
                       t.log == s.log + [Reply(request.id, false)] && t.inserts == s.inserts && considered == admitted)
  {
    if request.command.Configure? {
      forall window
        ensures var was, ended := GrantOf(s.grants, window), GrantOf(Revoke(s.grants, request.command.window), window);
                && (was.Some? <==> ended.Some?)
                && (was.Some? ==>
                      ended.value == if window == request.command.window then was.value.(active := false) else was.value)
      {
        RevokeMeans(s.grants, request.command.window, window);
      }
    } else {
      var found := FindControl(s.grants, request.command.control);
      if found.Some? && found.value.window !in s.pending && found.value.window !in admitted {
        assert Open(s, admitted, request.command.control, found.value);
      }
    }
    hide Revoke, GrantOf, FindControl;
  }

  /** A batch is judged request by request, each after those before it. */
  lemma BatchIsJudged(s: State, requests: seq<Request>, now: nat, k: nat)
    requires k < |requests|
    ensures var (before, admitted) := TakenAll(s, requests[..k], now);
            TakenAll(s, requests[..k + 1], now) == Taken(before, admitted, requests[k], now)
    ensures TakenAll(s, [], now) == (s, {})
  {
    assert requests[..k + 1][..k] == requests[..k];
  }

  /** An admitted request is put on its window, if that still lives, and fails with it if not. */
  lemma ApplyMeans(s: State, alive: set<Window>)
    requires s.inserts != [] && s.inserts[0].window !in s.pending
    ensures var insert, t := s.inserts[0], AppliedOne(s, alive);
            && t.inserts == s.inserts[1..] && t.grants == s.grants && t.consumed == s.consumed
            && if insert.window in alive then t.log == s.log && t.pending == s.pending[insert.window := insert.pending]
               else
                 && t.pending == s.pending
                 && t.log == if insert.pending.open then s.log + [Reply(insert.pending.request, false)] else s.log
  {
  }

  /**
   A waiting request fails as soon as it is cancelled or late, or the window's grant is not, or no longer, the one it
   was made under; while that is active but not available it waits.
   */
  lemma CompletionMeans(s: State, window: Window, cancelled: bool, now: nat)
    requires window in s.pending && s.pending[window].open
    ensures var p, grant, t := s.pending[window], GrantOf(s.grants, window), Completed(s, window, cancelled, now);
            var valid := grant.Some? && grant.value.id == p.control && grant.value.active;
            && (t.log == s.log + [Reply(p.request, false)] <==> cancelled || now >= p.deadline || !valid)
            && (t == s <==> !cancelled && now < p.deadline && valid && !grant.value.available)
            && (t != s ==> t.pending == s.pending - {window} && t.grants == s.grants && t.inserts == s.inserts)
  {
    var p := s.pending[window];
    assert (s.log + [Reply(p.request, true)])[|s.log|] == Reply(p.request, true);
    assert (s.log + [Reply(p.request, false)])[|s.log|] == Reply(p.request, false);
    assert s.pending[window := p.(open := false)] - {window} == s.pending - {window};
  }

  // ---------------------------------------------------------------------
  // One reply for each consumed request
  // ---------------------------------------------------------------------

  datatype Step =
    | Batch(requests: seq<Request>, now: nat)
    | Apply(alive: set<Window>)
    | Complete(window: Window, cancelled: bool, now: nat)
    | Drop(window: Window)
    | Regrant(grants: seq<Controlled>)

  /** Requests are delivered once. */
  ghost predicate Fresh(s: State, requests: seq<Request>) {
    && (forall i :: 0 <= i < |requests| ==> requests[i].id !in s.consumed)
    && (forall i, j :: 0 <= i < j < |requests| ==> requests[i].id != requests[j].id)
  }

  ghost predicate Can(step: Step, s: State) {
    match step
    case Batch(requests, _) => |requests| <= BATCH && Fresh(s, requests) && s.inserts == []
    case Apply(_) => s.inserts != []
    case _ => true
  }

  function Do(step: Step, s: State): State
    requires Can(step, s)
  {
    match step
    case Batch(requests, now) => TakenAll(s, requests, now).0
    case Apply(alive) => AppliedOne(s, alive)
    case Complete(window, cancelled, now) => Completed(s, window, cancelled, now)
    case Drop(window) => Dropped(s, window)
    case Regrant(grants) => s.(grants := grants)
  }

  function Replies(log: seq<Reply>, id: RequestId): nat {
    if log == [] then 0
    else Replies(log[..|log| - 1], id) + if log[|log| - 1].request == id then 1 else 0
  }

  function Inserts(inserts: seq<Insert>, id: RequestId): nat {
    if inserts == [] then 0
    else Inserts(inserts[1..], id) + if inserts[0].pending.open && inserts[0].pending.request == id then 1 else 0
  }

  function Holders(pending: map<Window, Pending>, id: RequestId): set<Window> {
    set w | w in pending && pending[w].open && pending[w].request == id
  }

  function Accounts(s: State, id: RequestId): nat {
    Replies(s.log, id) + |Holders(s.pending, id)| + Inserts(s.inserts, id)
  }

  /** What was consumed is answered or waits to be, once; nothing else is. */
  ghost predicate Conserved(s: State) {
    forall id :: Accounts(s, id) == if id in s.consumed then 1 else 0
  }

  lemma AnswerCounts(s: State, request: RequestId, ok: bool)
    ensures forall id :: Replies(Answer(s, request, ok).log, id)
                         == Replies(s.log, id) + if id == request then 1 else 0
  {
    var t := Answer(s, request, ok);
    assert t.log[..|t.log| - 1] == s.log;
  }

  lemma {:induction false} InsertCounts(inserts: seq<Insert>, insert: Insert, id: RequestId)
    ensures Inserts(inserts + [insert], id)
            == Inserts(inserts, id) + if insert.pending.open && insert.pending.request == id then 1 else 0
  {
    if inserts == [] {
      assert inserts + [insert] == [insert];
    } else {
      assert (inserts + [insert])[1..] == inserts[1..] + [insert];
      InsertCounts(inserts[1..], insert, id);
    }
  }

  lemma RemoveCounts(pending: map<Window, Pending>, window: Window, id: RequestId)
    requires window in pending
    ensures |Holders(pending, id)| == |Holders(pending - {window}, id)|
                                      + if pending[window].open && pending[window].request == id then 1 else 0
  {
    var was, now := Holders(pending, id), Holders(pending - {window}, id);
    assert was == if pending[window].open && pending[window].request == id then now + {window} else now;
  }

  lemma PutCounts(pending: map<Window, Pending>, window: Window, p: Pending, id: RequestId)
    requires window !in pending
    ensures |Holders(pending[window := p], id)| == |Holders(pending, id)| + if p.open && p.request == id then 1 else 0
  {
    var was, now := Holders(pending, id), Holders(pending[window := p], id);
    assert now == if p.open && p.request == id then was + {window} else was;
  }

  lemma TakeConserves(s: State, admitted: set<Window>, request: Request, now: nat)
    requires Conserved(s) && request.id !in s.consumed
    ensures Conserved(Taken(s, admitted, request, now).0)
  {
    var t := Taken(s, admitted, request, now).0;
    AnswerCounts(s, request.id, true);
    AnswerCounts(s, request.id, false);
    forall id
      ensures Accounts(t, id) == if id in t.consumed then 1 else 0
    {
      assert Accounts(s, id) == if id in s.consumed then 1 else 0;
      if t.inserts != s.inserts {
        InsertCounts(s.inserts, t.inserts[|s.inserts|], id);
      }
    }
  }

  lemma TakeConsumes(s: State, admitted: set<Window>, request: Request, now: nat)
    ensures Taken(s, admitted, request, now).0.consumed == s.consumed + {request.id}
  {
  }

  function Named(requests: seq<Request>): set<RequestId> {
    if requests == [] then {} else Named(requests[..|requests| - 1]) + {requests[|requests| - 1].id}
  }

  lemma {:induction false} NotNamed(requests: seq<Request>, id: RequestId)
    requires forall i :: 0 <= i < |requests| ==> requests[i].id != id
    ensures id !in Named(requests)
  {
    if requests != [] {
      NotNamed(requests[..|requests| - 1], id);
    }
  }

  lemma {:induction false} BatchConserves(s: State, requests: seq<Request>, now: nat)
    requires Conserved(s) && Fresh(s, requests)
    ensures Conserved(TakenAll(s, requests, now).0)
    ensures TakenAll(s, requests, now).0.consumed == s.consumed + Named(requests)
  {
    if requests != [] {
      var n := |requests| - 1;
      BatchConserves(s, requests[..n], now);
      NotNamed(requests[..n], requests[n].id);
      var (t, admitted) := TakenAll(s, requests[..n], now);
      hide Taken, Conserved;
      TakeConserves(t, admitted, requests[n], now);
      TakeConsumes(t, admitted, requests[n], now);
    }
  }

  lemma DropConserves(s: State, window: Window)
    requires Conserved(s)
    ensures Conserved(Dropped(s, window)) && window !in Dropped(s, window).pending
  {
    if window in s.pending {
      var t := Dropped(s, window);
      AnswerCounts(s, s.pending[window].request, false);
      forall id
        ensures Accounts(t, id) == if id in t.consumed then 1 else 0
      {
        assert Accounts(s, id) == if id in s.consumed then 1 else 0;
        RemoveCounts(s.pending, window, id);
      }
    }
  }

  lemma FinishConserves(s: State, window: Window, ok: bool)
    requires Conserved(s) && window in s.pending
    ensures Conserved(Finished(s, window, ok))
  {
    var p, t := s.pending[window], Finished(s, window, ok);
    if p.open {
      AnswerCounts(s, p.request, ok);
      forall id
        ensures Accounts(t, id) == if id in t.consumed then 1 else 0
      {
        assert Accounts(s, id) == if id in s.consumed then 1 else 0;
        RemoveCounts(s.pending, window, id);
        PutCounts(s.pending - {window}, window, p.(open := false), id);
        assert (s.pending - {window})[window := p.(open := false)] == t.pending;
      }
    }
  }

  lemma ApplyConserves(s: State, alive: set<Window>)
    requires Conserved(s) && s.inserts != []
    ensures Conserved(AppliedOne(s, alive))
  {
    var insert, t := s.inserts[0], AppliedOne(s, alive);
    DropConserves(s, insert.window);
    AnswerCounts(s, insert.pending.request, false);
    if insert.window in alive {
      var u := Dropped(s, insert.window);
      assert t == u.(inserts := s.inserts[1..], pending := u.pending[insert.window := insert.pending]);
      assert u.inserts == s.inserts;
      hide Dropped, AppliedOne;
      forall id
        ensures Accounts(t, id) == if id in t.consumed then 1 else 0
      {
        assert Accounts(u, id) == if id in u.consumed then 1 else 0;
        PutCounts(u.pending, insert.window, insert.pending, id);
      }
    } else {
      forall id
        ensures Accounts(t, id) == if id in t.consumed then 1 else 0
      {
        assert Accounts(s, id) == if id in s.consumed then 1 else 0;
      }
    }
  }

  lemma StepConserves(step: Step, s: State)
    requires Conserved(s) && Can(step, s)
    ensures Conserved(Do(step, s))
  {
    match step
    case Batch(requests, now) => BatchConserves(s, requests, now);
    case Apply(alive) => ApplyConserves(s, alive);
    case Complete(window, cancelled, now) =>
      if window in s.pending {
        var result := Outcome(s.pending[window], GrantOf(s.grants, window), cancelled, now);
        if result.Some? {
          FinishConserves(s, window, result.value);
          DropConserves(Finished(s, window, result.value), window);
        }
      }
    case Drop(window) => DropConserves(s, window);
    case Regrant(grants) =>
  }

  // ---------------------------------------------------------------------
  // Whole runs
  // ---------------------------------------------------------------------

  const NOTHING := State([], map[], [], [], {})

  ghost predicate Legal(steps: seq<Step>) {
    steps == [] || (Legal(steps[..|steps| - 1]) && Can(steps[|steps| - 1], After(steps[..|steps| - 1])))
  }

  ghost function After(steps: seq<Step>): State {
    if steps == [] then NOTHING
    else
      var s, step := After(steps[..|steps| - 1]), steps[|steps| - 1];
      if Can(step, s) then Do(step, s) else s
  }

  /** The request waits, on a window or among the commands not yet applied. */
  ghost predicate Waits(s: State, id: RequestId) {
    || (exists w | w in s.pending :: s.pending[w].open && s.pending[w].request == id)
    || (exists i :: 0 <= i < |s.inserts| && s.inserts[i].pending.open && s.inserts[i].pending.request == id)
  }

  lemma {:induction false} AlwaysConserved(steps: seq<Step>)
    requires Legal(steps)
    ensures Conserved(After(steps))
  {
    if steps != [] {
      AlwaysConserved(steps[..|steps| - 1]);
      StepConserves(steps[|steps| - 1], After(steps[..|steps| - 1]));
    }
  }

  lemma {:induction false} InsertsCount(inserts: seq<Insert>, id: RequestId)
    ensures Inserts(inserts, id) > 0 <==>
            exists i :: 0 <= i < |inserts| && inserts[i].pending.open && inserts[i].pending.request == id
  {
    if inserts != [] {
      InsertsCount(inserts[1..], id);
      assert forall i :: 0 < i < |inserts| ==> inserts[i] == inserts[1..][i - 1];
    }
  }

  /** Every consumed request has exactly one reply, or waits and has none; a request not consumed has none. */
  lemma ExactlyOneReply(steps: seq<Step>, id: RequestId)
    requires Legal(steps)
    ensures var s := After(steps);
            && Replies(s.log, id) <= 1
            && (Replies(s.log, id) == 1 <==> id in s.consumed && !Waits(s, id))
            && (Waits(s, id) ==> id in s.consumed)
  {
    var s := After(steps);
    AlwaysConserved(steps);
    assert Accounts(s, id) == if id in s.consumed then 1 else 0;
    InsertsCount(s.inserts, id);
    if w :| w in s.pending && s.pending[w].open && s.pending[w].request == id {
      assert w in Holders(s.pending, id);
    } else {
      assert Holders(s.pending, id) == {};
    }
  }

  /** Success means the very grant, active and available, in time, at that moment. */
  lemma SuccessIsEarned(s: State, window: Window, cancelled: bool, now: nat)
    requires window in s.pending && s.pending[window].open
    ensures var p, grant, t := s.pending[window], GrantOf(s.grants, window), Completed(s, window, cancelled, now);
            && (t.log == s.log + [Reply(p.request, true)] <==>
                  && !cancelled && now < p.deadline && grant.Some?
                  && grant.value.id == p.control && grant.value.active && grant.value.available)
            && (t.log == s.log ==> t == s)
            && (t != s ==> window !in t.pending)
  {
    assert (s.log + [Reply(s.pending[window].request, true)])[|s.log|] == Reply(s.pending[window].request, true);
    assert (s.log + [Reply(s.pending[window].request, false)])[|s.log|] == Reply(s.pending[window].request, false);
  }

  /** A step that completes the request while the very grant it was made under is active and available, in time. */
  ghost predicate Earns(s: State, step: Step, id: RequestId) {
    && step.Complete? && step.window in s.pending
    && var p, grant := s.pending[step.window], GrantOf(s.grants, step.window);
       && p.open && p.request == id && !step.cancelled && step.now < p.deadline
       && grant.Some? && grant.value.id == p.control && grant.value.active && grant.value.available
  }

  /** A batch with this request, to change a policy, which is in time and succeeds. */
  predicate Configures(step: Step, id: RequestId) {
    && step.Batch?
    && exists i :: 0 <= i < |step.requests| && step.requests[i].id == id && Changes(step.requests[i], step.now)
  }

  predicate Changes(request: Request, now: nat) {
    request.command.Configure? && request.command.ok && now < request.deadline && !request.cancelled
  }

  lemma {:induction false} BatchReplies(s: State, requests: seq<Request>, now: nat, id: RequestId)
    ensures s.log <= TakenAll(s, requests, now).0.log
    ensures Reply(id, true) in TakenAll(s, requests, now).0.log <==>
              Reply(id, true) in s.log || Configures(Batch(requests, now), id)
  {
    if requests != [] {
      var n := |requests| - 1;
      var (t, admitted) := TakenAll(s, requests[..n], now);
      BatchReplies(s, requests[..n], now, id);
      TakeReplies(t, admitted, requests[n], now, id);
      OneMoreConfigures(requests, now, id);
      hide Taken, Configures, Changes;
    }
  }

  lemma OneMoreConfigures(requests: seq<Request>, now: nat, id: RequestId)
    requires requests != []
    ensures var n := |requests| - 1;
            Configures(Batch(requests, now), id) <==>
              Configures(Batch(requests[..n], now), id) || (requests[n].id == id && Changes(requests[n], now))
  {
    hide Changes;
    var n := |requests| - 1;
    assert forall i :: 0 <= i < n ==> requests[i] == requests[..n][i];
  }

  lemma TakeReplies(s: State, admitted: set<Window>, request: Request, now: nat, id: RequestId)
    ensures s.log <= Taken(s, admitted, request, now).0.log
    ensures Reply(id, true) in Taken(s, admitted, request, now).0.log <==>
              Reply(id, true) in s.log || (request.id == id && Changes(request, now))
  {
  }

  lemma StepReplies(s: State, step: Step, id: RequestId)
    requires Can(step, s)
    ensures s.log <= Do(step, s).log
    ensures Reply(id, true) in Do(step, s).log <==>
              Reply(id, true) in s.log || Earns(s, step, id) || Configures(step, id)
  {
    match step
    case Batch(requests, now) => BatchReplies(s, requests, now, id);
    case _ =>
  }

  ghost predicate SucceedsAt(steps: seq<Step>, k: nat, id: RequestId)
    requires k < |steps|
  {
    Earns(After(steps[..k]), steps[k], id) || Configures(steps[k], id)
  }

  ghost predicate Succeeds(steps: seq<Step>, id: RequestId) {
    exists k: nat :: k < |steps| && SucceedsAt(steps, k, id)
  }

  lemma OneMoreSucceeds(steps: seq<Step>, id: RequestId)
    requires steps != []
    ensures Succeeds(steps, id) <==> Succeeds(steps[..|steps| - 1], id) || SucceedsAt(steps, |steps| - 1, id)
  {
    var n := |steps| - 1;
    forall k: nat | k < n
      ensures SucceedsAt(steps[..n], k, id) <==> SucceedsAt(steps, k, id)
    {
      assert steps[..n][..k] == steps[..k];
    }
    hide SucceedsAt;
  }

  /** A reply of success comes from a policy that was changed, or from a completion that earned it; and each of
   them gives one. */
  lemma {:induction false} SuccessIsEarnedInRuns(steps: seq<Step>, id: RequestId)
    requires Legal(steps)
    ensures Reply(id, true) in After(steps).log <==> Succeeds(steps, id)
  {
    if steps != [] {
      var n := |steps| - 1;
      SuccessIsEarnedInRuns(steps[..n], id);
      StepReplies(After(steps[..n]), steps[n], id);
      OneMoreSucceeds(steps, id);
      assert steps[..n] == steps[..|steps| - 1];
      hide Succeeds, SucceedsAt, Earns, Configures, Do;
    }
  }

  /** A batch in which this input request was admitted in time, under this grant. */
  predicate Admits(step: Step, p: Pending) {
    && step.Batch?
    && exists i :: 0 <= i < |step.requests| && AdmitsAs(step.requests[i], step.now, p)
  }

  predicate AdmitsAs(request: Request, now: nat, p: Pending) {
    request == Request(p.request, RequestInput(p.control), p.deadline, false) && now < p.deadline
  }

  /** The request waits, on a window or among the commands, whether or not its completion has been used. */
  ghost predicate Kept(s: State, p: Pending) {
    || (exists w | w in s.pending :: s.pending[w] == p)
    || (exists i :: 0 <= i < |s.inserts| && s.inserts[i].pending == p)
  }

  lemma TakeKeeps(s: State, admitted: set<Window>, request: Request, now: nat, p: Pending)
    requires Kept(Taken(s, admitted, request, now).0, p) && !Kept(s, p)
    ensures AdmitsAs(request, now, p)
  {
    var t := Taken(s, admitted, request, now).0;
    assert forall i :: 0 <= i < |s.inserts| ==> t.inserts[i] == s.inserts[i];
  }

  lemma {:induction false} BatchKeeps(s: State, requests: seq<Request>, now: nat, p: Pending)
    requires Kept(TakenAll(s, requests, now).0, p) && !Kept(s, p)
    ensures Admits(Batch(requests, now), p)
  {
    var n := |requests| - 1;
    var (t, admitted) := TakenAll(s, requests[..n], now);
    hide Kept, Taken, AdmitsAs;
    if Kept(t, p) {
      BatchKeeps(s, requests[..n], now, p);
      var i :| 0 <= i < n && AdmitsAs(requests[..n][i], now, p);
      assert AdmitsAs(requests[i], now, p);
    } else {
      TakeKeeps(t, admitted, requests[n], now, p);
    }
  }

  lemma StepKeeps(s: State, step: Step, p: Pending)
    requires Can(step, s) && Kept(Do(step, s), p) && !Kept(s, p) && p.open
    ensures Admits(step, p)
  {
    match step
    case Batch(requests, now) => BatchKeeps(s, requests, now, p);
    case _ =>
  }

  lemma {:induction false} WaitingWasAdmitted(steps: seq<Step>, p: Pending) returns (j: nat)
    requires Legal(steps) && Kept(After(steps), p) && p.open
    ensures j < |steps| && Admits(steps[j], p)
  {
    var n := |steps| - 1;
    if Kept(After(steps[..n]), p) {
      j := WaitingWasAdmitted(steps[..n], p);
    } else {
      StepKeeps(After(steps[..n]), steps[n], p);
      j := n;
    }
  }

  lemma {:induction false} LegalBefore(steps: seq<Step>, k: nat)
    requires Legal(steps) && k <= |steps|
    ensures Legal(steps[..k])
  {
    if k < |steps| {
      LegalBefore(steps[..|steps| - 1], k);
      assert steps[..|steps| - 1][..k] == steps[..k];
    } else {
      assert steps[..k] == steps;
    }
  }

  /** An input request that succeeds was admitted under the grant, and for the deadline, that it succeeds with. */
  lemma EarnedWasAdmitted(steps: seq<Step>, k: nat, id: RequestId) returns (j: nat)
    requires Legal(steps) && k < |steps| && Earns(After(steps[..k]), steps[k], id)
    ensures j < k && Admits(steps[j], After(steps[..k]).pending[steps[k].window])
  {
    LegalBefore(steps, k);
    var s := After(steps[..k]);
    assert Kept(s, s.pending[steps[k].window]);
    j := WaitingWasAdmitted(steps[..k], s.pending[steps[k].window]);
  }

  /** The windows a batch has put requests on: considered, one request each, and none that had one waiting. */
  ghost predicate OnePerWindow(s: State, admitted: set<Window>) {
    && (forall i :: 0 <= i < |s.inserts| ==> s.inserts[i].window in admitted && s.inserts[i].window !in s.pending)
    && (forall i, j :: 0 <= i < j < |s.inserts| ==> s.inserts[i].window != s.inserts[j].window)
  }

  lemma {:induction false} BatchAdmitsOnePerWindow(s: State, requests: seq<Request>, now: nat)
    requires s.inserts == []
    ensures var (t, admitted) := TakenAll(s, requests, now); OnePerWindow(t, admitted) && t.pending == s.pending
  {
    if requests != [] {
      BatchAdmitsOnePerWindow(s, requests[..|requests| - 1], now);
    }
  }

  /** So no admitted request ever pushes another out: applying the batch's commands replaces nothing. */
  lemma ApplyReplacesNothing(s: State, admitted: set<Window>, alive: set<Window>)
    requires s.inserts != [] && OnePerWindow(s, admitted)
    ensures OnePerWindow(AppliedOne(s, alive), admitted)
    ensures forall w | w in s.pending :: w in AppliedOne(s, alive).pending && AppliedOne(s, alive).pending[w] == s.pending[w]
  {
    var t := AppliedOne(s, alive);
    assert forall i :: 0 <= i < |t.inserts| ==> t.inserts[i] == s.inserts[i + 1];
  }
}
