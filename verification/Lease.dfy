/**
 What the DHCP hook publishes about the namespace's lease.

 Hooks of one interface run one after another. Each may replace the published status as a whole; before
 that, a successful one rewrites the namespace's resolver in place. A hook can be cut short in between.
 */
module Lease {
  import opened Wrappers

  type Address = nat

  datatype Reason = Success(name: nat) | Failure(name: nat) | NoCarrier | Ignored

  datatype Status = Status(ready: bool, acquired: bool, error: bool)

  /** Where a hook ends that does not run to its end: before the resolver, within it, or before publishing. */
  datatype Ending = Whole | Unwritable | WriteFails(partial: seq<Address>) | CutShort(partial: seq<Address>) | Unpublished

  /** `servers` are the words dhcpcd passed on; a word that is no address is `None`. */
  datatype Event = Event(reason: Reason, servers: seq<Option<Address>>, ending: Ending)

  datatype State = State(status: Option<Status>, resolver: seq<Address>)

  const MAX_SERVERS: nat := 8

  /** Unspecified, loopback and multicast addresses cannot serve. */
  predicate Usable(address: Address) {
    address != 0 && address / 0x100_0000 != 127 && !(224 <= address / 0x100_0000 < 240)
  }

  /** The addresses in order of first appearance. */
  function Distinct(words: seq<Option<Address>>): seq<Address> {
    if words == [] then []
    else
      var before, word := Distinct(words[..|words| - 1]), words[|words| - 1];
      if word.Some? && word.value !in before then before + [word.value] else before
  }

  predicate AllUsable(words: seq<Option<Address>>) {
    forall i :: 0 <= i < |words| ==> words[i].Some? && Usable(words[i].value)
  }

  function Servers(words: seq<Option<Address>>): Option<seq<Address>> {
    if AllUsable(words) && 1 <= |Distinct(words)| <= MAX_SERVERS then Some(Distinct(words)) else None
  }

  method DnsServers(words: seq<Option<Address>>) returns (servers: Option<seq<Address>>)
    ensures servers == Servers(words)
  {
    var result: seq<Address> := [];
    for i := 0 to |words|
      invariant result == Distinct(words[..i]) && AllUsable(words[..i])
    {
      assert words[..i + 1][..i] == words[..i];
      if words[i].None? || !Usable(words[i].value) {
        return None;
      }
      if words[i].value !in result {
        result := result + [words[i].value];
      }
    }
    assert words[..|words|] == words;
    return if result == [] || |result| > MAX_SERVERS then None else Some(result);
  }

  /** Of the dotted quads, only 0.0.0.0, 127/8 and 224/4 are unusable. */
  lemma UsableQuads(a: nat, b: nat, c: nat, d: nat)
    requires a < 256 && b < 256 && c < 256 && d < 256
    ensures Usable(((a * 256 + b) * 256 + c) * 256 + d) <==>
              !(a == 0 && b == 0 && c == 0 && d == 0) && a != 127 && (a < 224 || 239 < a)
  {
    var rest := (b * 256 + c) * 256 + d;
    var address := ((a * 256 + b) * 256 + c) * 256 + d;
    assert address == a * 0x100_0000 + rest && rest < 0x100_0000;
    assert address / 0x100_0000 == a;
  }

  ghost function Named(words: seq<Option<Address>>): set<Address> {
    set i | 0 <= i < |words| && words[i].Some? :: words[i].value
  }

  ghost function Elements(addresses: seq<Address>): set<Address> {
    set address | address in addresses
  }

  lemma {:induction false} DifferentCount(addresses: seq<Address>)
    requires forall i, j :: 0 <= i < j < |addresses| ==> addresses[i] != addresses[j]
    ensures |Elements(addresses)| == |addresses|
  {
    if addresses != [] {
      var n := |addresses| - 1;
      DifferentCount(addresses[..n]);
      assert addresses[n] !in addresses[..n];
      assert addresses == addresses[..n] + [addresses[n]];
      assert Elements(addresses) == Elements(addresses[..n]) + {addresses[n]};
    }
  }

  /** A list is accepted exactly if every word is a usable address, and they name one to eight. */
  lemma AcceptedLists(words: seq<Option<Address>>)
    ensures Servers(words).Some? <==>
              (forall word | word in words :: word.Some? && Usable(word.value)) && 1 <= |Named(words)| <= 8
  {
    DistinctIsFaithful(words);
    DifferentCount(Distinct(words));
    forall address
      ensures address in Named(words) <==> Some(address) in words
    {
      if Some(address) in words {
        var i :| 0 <= i < |words| && words[i] == Some(address);
      }
    }
    assert Named(words) == Elements(Distinct(words));
    assert (forall word | word in words :: word.Some? && Usable(word.value)) <==> AllUsable(words);
  }

  /** Servers keep the order in which the words first name them. */
  lemma {:induction false} FirstNamedFirst(words: seq<Option<Address>>, i: nat, j: nat) returns (p: nat)
    requires i < j < |Distinct(words)|
    ensures p < |words| && words[p] == Some(Distinct(words)[i])
    ensures forall q :: 0 <= q <= p ==> words[q] != Some(Distinct(words)[j])
  {
    var n := |words| - 1;
    var before := Distinct(words[..n]);
    DistinctIsFaithful(words[..n]);
    if j < |before| {
      p := FirstNamedFirst(words[..n], i, j);
    } else {
      assert before[i] in before && Some(before[i]) in words[..n];
      p :| 0 <= p < n && words[..n][p] == Some(before[i]);
    }
  }

  /** Accepted servers are exactly the words, each once, between one and eight of them. */
  lemma ServersAreTheWords(words: seq<Option<Address>>)
    ensures Servers(words).Some? ==> var servers := Servers(words).value;
              && 1 <= |servers| <= MAX_SERVERS
              && (forall i, j :: 0 <= i < j < |servers| ==> servers[i] != servers[j])
              && (forall address :: address in servers <==> Some(address) in words)
              && (forall address | address in servers :: Usable(address))
  {
    DistinctIsFaithful(words);
  }

  lemma {:induction false} DistinctIsFaithful(words: seq<Option<Address>>)
    ensures forall i, j :: 0 <= i < j < |Distinct(words)| ==> Distinct(words)[i] != Distinct(words)[j]
    ensures forall address :: address in Distinct(words) <==> Some(address) in words
  {
    if words != [] {
      DistinctIsFaithful(words[..|words| - 1]);
      assert words == words[..|words| - 1] + [words[|words| - 1]];
    }
  }

  predicate Failing(status: Option<Status>) {
    status.Some? && status.value.error
  }

  predicate Acquired(status: Option<Status>) {
    status.Some? && status.value.acquired
  }

  /** What the hook of one event leaves behind. */
  function Hooked(s: State, e: Event): State {
    if e.reason.Ignored? || Failing(s.status) then s
    else
      var acquired := Acquired(s.status);
      if e.reason.NoCarrier? && !acquired then Published(s, e, s.resolver, Status(false, acquired, false))
      else if !e.reason.Success? then Published(s, e, s.resolver, Status(false, acquired, true))
      else
        var servers := Servers(e.servers);
        if servers.None? || e.ending.Unwritable? then Published(s, e, s.resolver, Status(false, acquired, true))
        else
          match e.ending
          case WriteFails(partial) => Published(s, e, partial, Status(false, acquired, true))
          case CutShort(partial) => s.(resolver := partial)
          case _ => Published(s, e, servers.value, Status(true, true, false))
  }

  function Published(s: State, e: Event, resolver: seq<Address>, status: Status): State {
    State(if e.ending.Unpublished? || e.ending.CutShort? then s.status else Some(status), resolver)
  }

  class Hook {
    var status: Option<Status>
    var resolver: seq<Address>

    method Run(e: Event)
      modifies this
      ensures State(status, resolver) == Hooked(old(State(status, resolver)), e)
    {
      if e.reason.Ignored? {
        return;
      }
      if status.Some? && status.value.error {
        return;
      }
      var acquired := status.Some? && status.value.acquired;
      var next := Status(false, acquired, false);
      if !e.reason.NoCarrier? || acquired {
        if !e.reason.Success? {
          next := next.(error := true);
        } else {
          var servers := DnsServers(e.servers);
          if servers.None? || e.ending.Unwritable? {
            next := next.(error := true);
          } else {
            resolver := if e.ending.WriteFails? || e.ending.CutShort? then e.ending.partial else servers.value;
            next := if e.ending.WriteFails? then next.(error := true) else Status(true, true, false);
          }
        }
      }
      if e.ending.Unpublished? || e.ending.CutShort? {
        return;
      }
      status := Some(next);
    }
  }

  // ---------------------------------------------------------------------
  // Any sequence of hooks
  // ---------------------------------------------------------------------

  function After(events: seq<Event>): State {
    if events == [] then State(None, []) else Hooked(After(events[..|events| - 1]), events[|events| - 1])
  }

  predicate Ready(s: State) {
    s.status.Some? && s.status.value.ready
  }

  /** Ready means acquired without error. */
  lemma {:induction false} ReadyIffAcquired(events: seq<Event>)
    ensures var s := After(events); Ready(s) <==> Acquired(s.status) && !Failing(s.status)
  {
    if events != [] {
      ReadyIffAcquired(events[..|events| - 1]);
    }
  }

  /** Errors are sticky, and a lease once acquired stays acquired. */
  lemma {:induction false} StatusOnlyAdvances(events: seq<Event>, i: nat, j: nat)
    requires i <= j <= |events|
    ensures Acquired(After(events[..i]).status) ==> Acquired(After(events[..j]).status)
    ensures Failing(After(events[..i]).status) ==> After(events[..j]).status == After(events[..i]).status
    decreases j
  {
    if i < j {
      StatusOnlyAdvances(events, i, j - 1);
      assert events[..j][..j - 1] == events[..j - 1];
    }
  }

  /** Losing the carrier is an error exactly once there is a lease to lose. */
  lemma CarrierLoss(s: State, e: Event)
    requires e.reason.NoCarrier? && e.ending.Whole? && !Failing(s.status)
    ensures Failing(Hooked(s, e).status) <==> Acquired(s.status)
    ensures Hooked(s, e).status.Some? && !Ready(Hooked(s, e))
  {
  }

  /** The hook of event `i` published readiness. */
  ghost predicate Succeeded(events: seq<Event>, i: nat)
    requires i < |events|
  {
    && !Failing(After(events[..i]).status)
    && events[i].reason.Success? && events[i].ending.Whole? && Servers(events[i].servers).Some?
  }

  /** The hook of event `i` rewrote the resolver, wholly or in part, but never published that. */
  ghost predicate Interrupted(events: seq<Event>, i: nat)
    requires i < |events|
  {
    && !Failing(After(events[..i]).status)
    && events[i].reason.Success? && Servers(events[i].servers).Some?
    && (events[i].ending.CutShort? || events[i].ending.Unpublished?)
  }

  /** What an event leaves in the resolver once it has begun to rewrite it. */
  function LeftBy(e: Event): seq<Address>
    requires Servers(e.servers).Some?
  {
    if e.ending.CutShort? || e.ending.WriteFails? then e.ending.partial else Servers(e.servers).value
  }

  /** Nothing that came after the first `i` events was interrupted. */
  ghost predicate Undisturbed(events: seq<Event>, i: nat) {
    forall j :: i <= j < |events| ==> !Interrupted(events, j)
  }

  /** What is so of the events before `n` is so of them among all events. */
  lemma SamePrefix(events: seq<Event>, n: nat)
    requires n <= |events|
    ensures forall j :: 0 <= j < n ==> Succeeded(events[..n], j) == Succeeded(events, j)
    ensures forall j :: 0 <= j < n ==> Interrupted(events[..n], j) == Interrupted(events, j)
  {
    forall j | 0 <= j < n
      ensures events[..n][..j] == events[..j]
    {
    }
  }

  /** `i` is the last successful hook, and `k` the last one since that rewrote the resolver. */
  ghost predicate LastRewrite(events: seq<Event>, i: nat, k: nat) {
    && i <= k < |events| && Succeeded(events, i) && (k == i || Interrupted(events, k))
    && (forall j :: i < j < |events| ==> !Succeeded(events, j))
    && (forall j :: k < j < |events| ==> !Interrupted(events, j))
  }

  lemma LongerRewrite(events: seq<Event>, n: nat, i: nat, k: nat)
    requires n + 1 == |events| && LastRewrite(events[..n], i, k) && !Succeeded(events, n)
    ensures LastRewrite(events, i, if Interrupted(events, n) then n else k)
  {
    SamePrefix(events, n);
    hide Succeeded, Interrupted;
  }

  lemma {:induction false} ResolverIsLastRewrite(events: seq<Event>) returns (i: nat, k: nat)
    requires Ready(After(events))
    ensures LastRewrite(events, i, k) && After(events).resolver == LeftBy(events[k])
  {
    var n := |events| - 1;
    if Succeeded(events, n) {
      i, k := n, n;
    } else {
      i, k := ResolverIsLastRewrite(events[..n]);
      LongerRewrite(events, n, i, k);
      k := if Interrupted(events, n) then n else k;
    }
  }

  /**
   While the status says ready, `i` is the last successful hook, and the resolver holds what `k` left there,
   the last hook since that rewrote it. These are the servers of `i` exactly if no later hook was interrupted
   while it rewrote them, or the last one that was left just these.
   */
  lemma ReadyResolves(events: seq<Event>) returns (i: nat, k: nat)
    requires Ready(After(events))
    ensures LastRewrite(events, i, k) && After(events).resolver == LeftBy(events[k])
    ensures After(events).resolver == Servers(events[i].servers).value <==>
              Undisturbed(events, i + 1) || LeftBy(events[k]) == Servers(events[i].servers).value
  {
    i, k := ResolverIsLastRewrite(events);
  }

  /** That does happen: a renewal cut short leaves a ready status over a half-written resolver. */
  lemma CutShortStaysReady(server: Address, other: Address) returns (events: seq<Event>)
    requires Usable(server) && Usable(other) && server != other
    ensures |events| == 2 && Ready(After(events)) && Succeeded(events, 0) && Interrupted(events, 1)
    ensures After(events).resolver == [] && Servers(events[0].servers) == Some([server])
  {
    var bound := Event(Reason.Success(0), [Some(server)], Whole);
    var renewed := Event(Reason.Success(1), [Some(other)], CutShort([]));
    events := [bound, renewed];
    OneServer(server);
    OneServer(other);
    assert events[..1] == [bound] && events[..1][..0] == [] && events[..0] == [];
    assert After([bound]) == Hooked(After([]), bound);
  }

  lemma OneServer(server: Address)
    requires Usable(server)
    ensures Servers([Some(server)]) == Some([server])
  {
    assert [Some(server)][..0] == [];
    assert Distinct([Some(server)]) == [server];
  }
}
