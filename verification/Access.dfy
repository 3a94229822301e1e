/**
 Revocable access permits.

 The registry only refers to permits weakly: a permit lives as long as someone holds it, and the registry
 forgets dead ones when the next is opened. `permits` records every permit ever issued with the number of
 its holders, so that statements about permits can outlive them. One call is one step; ending and dropping
 a permit need no lock and are steps of their own.
 */
module Access {
  import opened Wrappers

  type Id = nat

  datatype Permit = Permit(participant: string, holders: nat, authorized: bool)

  datatype State = State(
    accepting: bool,
    blocked: set<string>,
    registered: set<Id>,
    next: Option<Id>,
    permits: map<Id, Permit>,
    open: bool)

  const MAX_SESSIONS: nat := 256

  const MAX_ID: nat := 0xFFFF_FFFF_FFFF_FFFF

  const FIRST := State(true, {}, {}, Some(1), map[], true)

  predicate Control(c: char) {
    c < ' ' || '\U{7F}' <= c <= '\U{9F}'
  }

  predicate ValidParticipant(participant: string) {
    0 < |participant| <= 160 && forall i :: 0 <= i < |participant| ==> !Control(participant[i])
  }

  predicate Live(s: State, id: Id) {
    id in s.permits && s.permits[id].holders > 0
  }

  predicate Authorized(s: State, id: Id) {
    id in s.permits && s.permits[id].authorized
  }

  function Pruned(s: State): set<Id> {
    set id | id in s.registered && Live(s, id)
  }

  predicate Admits(s: State, participant: string) {
    s.open && ValidParticipant(participant) && s.accepting && participant !in s.blocked
  }

  function Opened(s: State, participant: string): (State, Option<Id>) {
    if !Admits(s, participant) then (s, None)
    else
      var t := s.(registered := Pruned(s));
      if |t.registered| >= MAX_SESSIONS || s.next.None? then (t, None)
      else
        var id := s.next.value;
        (t.(next := if id < MAX_ID then Some(id + 1) else None,
            registered := t.registered + {id},
            permits := t.permits[id := Permit(participant, 1, true)]),
         Some(id))
  }

  function Retired(permits: map<Id, Permit>, ids: set<Id>): map<Id, Permit> {
    map id | id in permits ::
      if id in ids && permits[id].holders > 0 then permits[id].(authorized := false) else permits[id]
  }

  function Revoked(s: State, id: Id): (State, bool) {
    if !s.open || id !in s.registered || !Live(s, id) then (s, false)
    else (s.(blocked := s.blocked + {s.permits[id].participant}, permits := Retired(s.permits, {id})), true)
  }

  datatype Step = Open(participant: string) | Clone(id: Id) | Release(id: Id) | End(id: Id)
                | Revoke(id: Id) | RevokeAll | Allow | Close

  function Do(step: Step, s: State): State {
    match step
    case Open(participant) => Opened(s, participant).0
    case Clone(id) =>
      if Live(s, id) then s.(permits := s.permits[id := s.permits[id].(holders := s.permits[id].holders + 1)]) else s
    case Release(id) =>
      if Live(s, id) then s.(permits := s.permits[id := s.permits[id].(holders := s.permits[id].holders - 1)]) else s
    case End(id) => if Live(s, id) then s.(permits := Retired(s.permits, {id})) else s
    case Revoke(id) => Revoked(s, id).0
    case RevokeAll =>
      if s.open then s.(accepting := false, blocked := {}, permits := Retired(s.permits, s.registered)) else s
    case Allow => if s.open then s.(accepting := true, blocked := {}) else s
    case Close => if s.open then s.(permits := Retired(s.permits, s.registered), open := false) else s
  }

  // ---------------------------------------------------------------------
  // The authority as the program it is
  // ---------------------------------------------------------------------

  class Authority {
    var accepting: bool
    var blocked: set<string>
    var registered: set<Id>
    var next: Option<Id>
    var permits: map<Id, Permit>
    var open: bool

    ghost function Now(): State
      reads this
    {
      State(accepting, blocked, registered, next, permits, open)
    }

    constructor ()
      ensures Now() == FIRST
    {
      accepting, blocked, registered, next, permits, open := true, {}, {}, Some(1), map[], true;
    }

    method Open(participant: string) returns (id: Option<Id>)
      modifies this
      ensures (Now(), id) == Opened(old(Now()), participant)
    {
      if !open || !ValidParticipant(participant) || !accepting || participant in blocked {
        return None;
      }
      registered := set i | i in registered && i in permits && permits[i].holders > 0;
      assert registered == Pruned(old(Now()));
      if |registered| >= MAX_SESSIONS || next.None? {
        return None;
      }
      var raw := next.value;
      next := if raw < MAX_ID then Some(raw + 1) else None;
      permits := permits[raw := Permit(participant, 1, true)];
      registered := registered + {raw};
      return Some(raw);
    }

    /** Clears the flag of every registered permit still held. */
    method Retire(ids: set<Id>)
      modifies this`permits
      ensures permits == Retired(old(permits), ids)
    {
      var rest := ids;
      while rest != {}
        invariant rest <= ids && permits.Keys == old(permits).Keys
        invariant forall id | id in permits && (id in rest || id !in ids) :: permits[id] == old(permits)[id]
        invariant forall id | id in permits && id in ids - rest :: permits[id] == Retired(old(permits), ids)[id]
        decreases |rest|
      {
        var id :| id in rest;
        if id in permits && permits[id].holders > 0 {
          permits := permits[id := permits[id].(authorized := false)];
        }
        rest := rest - {id};
      }
    }

    method Revoke(id: Id) returns (ok: bool)
      modifies this
      ensures (Now(), ok) == Revoked(old(Now()), id)
    {
      if !open || id !in registered || id !in permits || permits[id].holders == 0 {
        return false;
      }
      blocked := blocked + {permits[id].participant};
      Retire({id});
      return true;
    }

    method RevokeAll()
      modifies this
      ensures Now() == Do(Step.RevokeAll, old(Now()))
    {
      if open {
        accepting := false;
        blocked := {};
        Retire(registered);
      }
    }

    method AllowNewSessions()
      modifies this
      ensures Now() == Do(Allow, old(Now()))
    {
      if open {
        accepting := true;
        blocked := {};
      }
    }

    /** The registry goes away with its last owner. */
    method Close()
      modifies this
      ensures Now() == Do(Step.Close, old(Now()))
    {
      if open {
        Retire(registered);
        open := false;
      }
    }
  }

  // ---------------------------------------------------------------------
  // What single calls mean
  // ---------------------------------------------------------------------

  /** Admitted names have 1 to 160 characters, none of them below U+0020 or in U+007F to U+009F. */
  lemma ParticipantNames(participant: string)
    ensures ValidParticipant(participant) <==>
              && 1 <= |participant| <= 160
              && forall c | c in participant :: 0x20 <= c as int && (c as int < 0x7F || 0x9F < c as int)
  {
    assert forall i :: 0 <= i < |participant| ==> participant[i] in participant;
    assert forall c: char :: Control(c) <==> c as int < 0x20 || 0x7F <= c as int <= 0x9F;
  }

  /** A permit is issued exactly if all goes well: to that participant, held once, authorized, and registered. */
  lemma OpenIssues(s: State, participant: string)
    requires s.next.Some? ==> s.next.value <= MAX_ID
    ensures var (t, id) := Opened(s, participant);
            && (id.Some? <==>
                  && s.open && s.accepting && ValidParticipant(participant) && participant !in s.blocked
                  && |set i | i in s.registered && i in s.permits && s.permits[i].holders > 0| < 256 && s.next.Some?)
            && (id.Some? ==>
                  && id == s.next && t.permits == s.permits[id.value := Permit(participant, 1, true)]
                  && id.value in t.registered
                  && t.next == if id.value == 0xFFFF_FFFF_FFFF_FFFF then None else Some(id.value + 1))
            && (id.None? ==> t.permits == s.permits && t.next == s.next)
            && t.accepting == s.accepting && t.blocked == s.blocked && t.open == s.open
  {
    assert Pruned(s) == set i | i in s.registered && i in s.permits && s.permits[i].holders > 0;
  }

  /** Only these permits lost their authorization between `s` and `t`, and nothing else happened to any. */
  ghost predicate Unauthorizes(s: State, t: State, ids: set<Id>) {
    && t.permits.Keys == s.permits.Keys
    && forall id | id in s.permits ::
         t.permits[id] == if id in ids && s.permits[id].holders > 0 then s.permits[id].(authorized := false)
                          else s.permits[id]
  }

  /** Revoking a permit somebody holds ends it, and blocks its participant; anything else is refused. */
  lemma RevokeEnds(s: State, id: Id)
    ensures var (t, ok) := Revoked(s, id);
            && (ok <==> s.open && id in s.registered && id in s.permits && s.permits[id].holders > 0)
            && (ok ==>
                  && !Authorized(t, id) && Unauthorizes(s, t, {id})
                  && t.blocked == s.blocked + {s.permits[id].participant}
                  && !Admits(t, s.permits[id].participant))
            && (!ok ==> t == s)
            && t.accepting == s.accepting && t.registered == s.registered && t.next == s.next && t.open == s.open
  {
  }

  /** A holder ends its own permit without keeping its participant out. */
  lemma EndEnds(s: State, id: Id)
    ensures var t := Do(End(id), s);
            && (Live(s, id) ==> !Authorized(t, id)) && Unauthorizes(s, t, {id}) && t == s.(permits := t.permits)
  {
  }

  /** A general revocation ends every permit registered; afterwards nobody is admitted, and nobody is blocked. */
  lemma RevokeAllEnds(s: State)
    requires s.open
    ensures var t := Do(RevokeAll, s);
            && Unauthorizes(s, t, s.registered) && t.registered == s.registered && t.next == s.next && t.open
            && t.blocked == {} && forall participant :: !Admits(t, participant)
  {
  }

  /** An allowance admits everybody again, and revives no permit. */
  lemma AllowAdmits(s: State)
    requires s.open
    ensures var t := Do(Allow, s);
            && (forall participant :: Admits(t, participant) <==> ValidParticipant(participant))
            && t.permits == s.permits && t.registered == s.registered && t.next == s.next
  {
  }

  /** Nothing is authorized, or ever admitted, once the registry is gone. */
  lemma CloseEnds(s: State)
    requires s.open
    ensures var t := Do(Close, s);
            && Unauthorizes(s, t, s.registered)
            && forall participant :: Opened(t, participant) == (t, None)
  {
  }

  // ---------------------------------------------------------------------
  // Whole runs
  // ---------------------------------------------------------------------

  function After(steps: seq<Step>): State {
    if steps == [] then FIRST else Do(steps[|steps| - 1], After(steps[..|steps| - 1]))
  }

  /** Ids count upwards, every living permit is registered, and nothing outlives the registry authorized. */
  ghost predicate Inv(s: State) {
    && s.registered <= s.permits.Keys && |s.registered| <= MAX_SESSIONS
    && (forall id | id in s.permits :: s.next.Some? ==> id < s.next.value)
    && (s.next.Some? ==> s.next.value <= MAX_ID)
    && (forall id | id in s.permits && s.permits[id].holders > 0 :: id in s.registered)
    && (!s.open ==> forall id | Live(s, id) :: !s.permits[id].authorized)
  }

  lemma Fewer<T>(a: set<T>, b: set<T>)
    requires a <= b
    ensures |a| <= |b|
  {
    assert b == a + (b - a);
  }

  lemma OpenInv(s: State, participant: string)
    requires Inv(s)
    ensures Inv(Opened(s, participant).0)
  {
    Fewer(Pruned(s), s.registered);
    var (t, id) := Opened(s, participant);
    if id.Some? {
      assert t.permits.Keys == s.permits.Keys + {id.value};
    }
  }

  /** What changes no id and revives nobody keeps the invariant. */
  lemma SamePermitsInv(s: State, t: State)
    requires Inv(s) && t.permits.Keys == s.permits.Keys && t.registered == s.registered && t.next == s.next
    requires forall id | Live(t, id) :: Live(s, id) && (t.permits[id].authorized ==> s.permits[id].authorized)
    requires s.open && !t.open ==> forall id | Live(t, id) && id in s.registered :: !t.permits[id].authorized
    requires t.open ==> s.open
    ensures Inv(t)
  {
  }

  lemma DoInv(step: Step, s: State)
    requires Inv(s)
    ensures Inv(Do(step, s))
  {
    hide Inv, Opened, Admits;
    match step
    case Open(participant) => OpenInv(s, participant);
    case _ => SamePermitsInv(s, Do(step, s));
  }

  lemma {:induction false} AlwaysInv(steps: seq<Step>)
    ensures Inv(After(steps))
  {
    if steps != [] {
      AlwaysInv(steps[..|steps| - 1]);
      DoInv(steps[|steps| - 1], After(steps[..|steps| - 1]));
    }
  }

  /** One step issues at most one id, and never one that was issued before; it revives no permit. */
  lemma StepKeepsPermits(step: Step, s: State, id: Id)
    requires Inv(s)
    ensures id in s.permits ==>
              && id in Do(step, s).permits
              && Do(step, s).permits[id].participant == s.permits[id].participant
              && (Authorized(Do(step, s), id) ==> Authorized(s, id))
              && (s.permits[id].holders == 0 ==> Do(step, s).permits[id].holders == 0)
    ensures id !in s.permits && id in Do(step, s).permits ==>
              step.Open? && Opened(s, step.participant).1 == Some(id)
  {
  }

  lemma FreshId(s: State, participant: string, id: Id)
    requires Inv(s) && id in s.permits
    ensures Opened(s, participant).1 != Some(id)
  {
  }

  lemma Prefix(steps: seq<Step>, j: nat)
    requires 0 < j <= |steps|
    ensures After(steps[..j]) == Do(steps[j - 1], After(steps[..j - 1]))
  {
    assert steps[..j][..j - 1] == steps[..j - 1];
  }

  /** A permit that is not authorized never is again, and its id is never issued a second time. */
  lemma {:induction false} RevokedForever(steps: seq<Step>, i: nat, j: nat, id: Id)
    requires i <= j <= |steps| && id in After(steps[..i]).permits
    ensures id in After(steps[..j]).permits
    ensures Authorized(After(steps[..j]), id) ==> Authorized(After(steps[..i]), id)
    ensures After(steps[..j]).permits[id].participant == After(steps[..i]).permits[id].participant
    ensures j < |steps| && steps[j].Open? ==> Opened(After(steps[..j]), steps[j].participant).1 != Some(id)
    decreases j
  {
    AlwaysInv(steps[..j]);
    if i < j {
      RevokedForever(steps, i, j - 1, id);
      Prefix(steps, j);
      AlwaysInv(steps[..j - 1]);
      StepKeepsPermits(steps[j - 1], After(steps[..j - 1]), id);
    }
    FreshId(After(steps[..j]), if j < |steps| && steps[j].Open? then steps[j].participant else "", id);
    hide *;
  }

  /** Revocation is total: no permit survives it, not even one that pruning might have forgotten. */
  lemma RevokeAllIsTotal(steps: seq<Step>, i: nat, id: Id)
    requires i < |steps| && steps[i] == RevokeAll && Live(After(steps[..i + 1]), id)
    ensures !Authorized(After(steps[..i + 1]), id)
  {
    Prefix(steps, i + 1);
    AlwaysInv(steps[..i]);
  }

  /** Step `o` issued the permit, and some step between `i` and `o` allowed new sessions. */
  ghost predicate AllowedAfter(steps: seq<Step>, i: nat, o: nat, id: Id)
    requires o < |steps|
  {
    && i < o && steps[o].Open? && Opened(After(steps[..o]), steps[o].participant).1 == Some(id)
    && exists a: nat :: i < a < o && steps[a] == Allow
  }

  lemma {:induction false} ClosedUntilAllowed(steps: seq<Step>, i: nat, j: nat)
    requires i < j <= |steps| && steps[i] == RevokeAll
    requires forall a :: i < a < j ==> steps[a] != Allow
    ensures After(steps[..j]).open ==> !After(steps[..j]).accepting
    decreases j
  {
    Prefix(steps, j);
    if i + 1 < j {
      ClosedUntilAllowed(steps, i, j - 1);
    }
  }

  lemma OpenedAdmits(s: State, participant: string)
    ensures Opened(s, participant).1.Some? ==> s.open && s.accepting
  {
  }

  /** Whoever is authorized and alive after a general revocation was let in by a later, explicit allowance. */
  lemma {:induction false} AuthorizedMeansAllowed(steps: seq<Step>, i: nat, j: nat, id: Id) returns (o: nat)
    requires i < j <= |steps| && steps[i] == RevokeAll
    requires Live(After(steps[..j]), id) && Authorized(After(steps[..j]), id)
    ensures o < j && AllowedAfter(steps, i, o, id)
    decreases j
  {
    hide Inv, Do, After, Opened;
    Prefix(steps, j);
    AlwaysInv(steps[..j - 1]);
    if i + 1 == j {
      RevokeAllIsTotal(steps, i, id);
      assert false;
    } else {
      StepKeepsPermits(steps[j - 1], After(steps[..j - 1]), id);
      if id in After(steps[..j - 1]).permits {
        o := AuthorizedMeansAllowed(steps, i, j - 1, id);
      } else {
        o := j - 1;
        if forall a :: i < a < o ==> steps[a] != Allow {
          OpenedAdmits(After(steps[..o]), steps[o].participant);
          ClosedUntilAllowed(steps, i, o);
          assert false;
        }
      }
    }
  }

  /** A revoked participant stays out until an explicit allowance, although `RevokeAll` empties the block list. */
  lemma RevokedStaysOut(steps: seq<Step>, i: nat, j: nat, participant: string)
    requires i < j <= |steps| && steps[i].Revoke? && Revoked(After(steps[..i]), steps[i].id).1
    requires participant == After(steps[..i]).permits[steps[i].id].participant
    requires forall a :: i < a < j ==> steps[a] != Allow
    ensures !Admits(After(steps[..j]), participant)
    ensures Opened(After(steps[..j]), participant).1.None?
  {
    BlockedStays(steps, i, j, participant);
  }

  lemma {:induction false} BlockedStays(steps: seq<Step>, i: nat, j: nat, participant: string)
    requires i < j <= |steps| && steps[i].Revoke? && Revoked(After(steps[..i]), steps[i].id).1
    requires participant == After(steps[..i]).permits[steps[i].id].participant
    requires forall a :: i < a < j ==> steps[a] != Allow
    ensures After(steps[..j]).open && After(steps[..j]).accepting ==> participant in After(steps[..j]).blocked
    decreases j
  {
    Prefix(steps, j);
    if i + 1 < j {
      BlockedStays(steps, i, j - 1, participant);
    }
  }

  /** How often the permit was taken, when it was issued or from another holder, and how often it was let go. */
  function Takes(steps: seq<Step>, id: Id): nat {
    if steps == [] then 0
    else
      var before, step := After(steps[..|steps| - 1]), steps[|steps| - 1];
      Takes(steps[..|steps| - 1], id)
      + if (step == Clone(id) && Live(before, id)) || (step.Open? && Opened(before, step.participant).1 == Some(id)) then 1 else 0
  }

  function Drops(steps: seq<Step>, id: Id): nat {
    if steps == [] then 0
    else
      Drops(steps[..|steps| - 1], id)
      + if steps[|steps| - 1] == Release(id) && Live(After(steps[..|steps| - 1]), id) then 1 else 0
  }

  /** A permit lives as long as it was taken more often than let go. */
  lemma {:induction false} HoldersAreCounted(steps: seq<Step>, id: Id)
    ensures Takes(steps, id) - Drops(steps, id) == (if id in After(steps).permits then After(steps).permits[id].holders else 0)
    ensures Live(After(steps), id) <==> Takes(steps, id) > Drops(steps, id)
  {
    if steps != [] {
      var n := |steps| - 1;
      HoldersAreCounted(steps[..n], id);
      AlwaysInv(steps[..n]);
      StepCounts(steps[n], After(steps[..n]), id);
    }
  }

  function Held(s: State, id: Id): nat {
    if id in s.permits then s.permits[id].holders else 0
  }

  lemma StepCounts(step: Step, s: State, id: Id)
    requires Inv(s)
    ensures Held(Do(step, s), id) ==
              if (step == Clone(id) && Live(s, id)) || (step.Open? && Opened(s, step.participant).1 == Some(id))
              then Held(s, id) + 1
              else if step == Release(id) && Live(s, id) then Held(s, id) - 1
              else Held(s, id)
  {
  }

  /** The status lists exactly the permits still held, with their present authorization. */
  function Status(s: State): map<Id, Permit> {
    map id | id in s.registered && Live(s, id) :: s.permits[id]
  }

  lemma StatusIsComplete(steps: seq<Step>, id: Id)
    ensures id in Status(After(steps)) <==> Live(After(steps), id)
  {
    AlwaysInv(steps);
  }
}
