/**
 Assignment of windows to remote endpoints, and the catalogues those endpoints are shown.

 A batch of remote actions is decided against one state of the world; the requests it accepts become
 sessions later. `Devices.RemoteActions` runs the batch; `Decided` says what one action comes to after the
 actions before it.
 */
module Hoisting {
  import opened Wrappers

  type Entity = nat
  type Endpoint = nat
  type SessionId = nat

  datatype Surface = Surface(source: nat, client: nat, local: nat)

  /** The client source of local Wayland windows, the only ones that can be hoisted. */
  const WAYLAND_CLIENT_SOURCE: nat := 0

  datatype Window = Window(entity: Entity, id: nat, occupant: Option<Entity>, hoisted: Option<Entity>)

  datatype Hoist = Hoist(entity: Entity, endpoint: Endpoint, surface: Surface, closed: bool)

  /** Windows, mapped client surfaces by entity, hoist sessions, and the endpoints that are available. */
  datatype World = World(windows: seq<Window>, clients: map<Entity, Surface>, sessions: seq<Hoist>, available: set<Endpoint>)

  datatype Action =
    | RequestHoist(session: SessionId, window: nat, abandoned: bool)
    | RequestRelease(session: SessionId, abandoned: bool)

  datatype Request = Request(window: Entity, endpoint: Endpoint, surface: Surface)

  /** What a batch has produced so far: an answer per action, unless nobody waits for it. */
  datatype Batch = Batch(requests: seq<Request>, reclaims: seq<Entity>, answers: seq<Option<bool>>)

  const NOTHING := Batch([], [], [])

  function FindWindow(windows: seq<Window>, id: nat): (r: Option<Window>)
    ensures r.Some? ==> r.value in windows && r.value.id == id
    ensures r.None? ==> forall w | w in windows :: w.id != id
  {
    if windows == [] then None
    else if windows[0].id == id then Some(windows[0])
    else FindWindow(windows[1..], id)
  }

  function FindSession(sessions: seq<Hoist>, entity: Entity): (r: Option<Hoist>)
    ensures r.Some? ==> r.value in sessions && r.value.entity == entity
    ensures r.None? ==> forall s | s in sessions :: s.entity != entity
  {
    if sessions == [] then None
    else if sessions[0].entity == entity then Some(sessions[0])
    else FindSession(sessions[1..], entity)
  }

  predicate Occupied(sessions: seq<Hoist>, endpoint: Endpoint) {
    exists i :: 0 <= i < |sessions| && sessions[i].endpoint == endpoint && !sessions[i].closed
  }

  predicate Elsewhere(sessions: seq<Hoist>, client: nat, endpoint: Endpoint) {
    exists i :: 0 <= i < |sessions| && sessions[i].surface.client == client
                && sessions[i].endpoint != endpoint && !sessions[i].closed
  }

  predicate EndpointRequested(requests: seq<Request>, endpoint: Endpoint) {
    exists i :: 0 <= i < |requests| && requests[i].endpoint == endpoint
  }

  predicate ClientRequested(requests: seq<Request>, client: nat) {
    exists i :: 0 <= i < |requests| && requests[i].surface.client == client
  }

  /** A fresh hoist: the occupant's surface, if nothing stands in the way. */
  function FreshRequest(w: World, requests: seq<Request>, window: Window, endpoint: Endpoint): Option<Request> {
    if Occupied(w.sessions, endpoint) then None
    else if window.occupant.None? || window.occupant.value !in w.clients then None
    else
      var surface := w.clients[window.occupant.value];
      if ClientRequested(requests, surface.client) || surface.source != WAYLAND_CLIENT_SOURCE
         || Elsewhere(w.sessions, surface.client, endpoint)
      then None
      else Some(Request(window.entity, endpoint, surface))
  }

  /** Refused, already hoisted to this very endpoint, or a new request. */
  datatype Verdict = Refused | Already | New(request: Request)

  function Judge(w: World, endpoints: map<SessionId, Endpoint>, requests: seq<Request>, session: SessionId, id: nat): Verdict {
    if session !in endpoints then Refused
    else
      var endpoint := endpoints[session];
      if EndpointRequested(requests, endpoint) || endpoint !in w.available then Refused
      else
        var window := FindWindow(w.windows, id);
        if window.None? then Refused
        else if window.value.hoisted.Some? then
          var current := FindSession(w.sessions, window.value.hoisted.value);
          if current.Some? && current.value.endpoint == endpoint then Already else Refused
        else
          var request := FreshRequest(w, requests, window.value, endpoint);
          if request.Some? then New(request.value) else Refused
  }

  function Reclaimed(sessions: seq<Hoist>, endpoint: Option<Endpoint>): seq<Entity> {
    if sessions == [] then []
    else
      var n := |sessions| - 1;
      Reclaimed(sessions[..n], endpoint)
      + if endpoint == Some(sessions[n].endpoint) then [sessions[n].entity] else []
  }

  function Lookup(endpoints: map<SessionId, Endpoint>, session: SessionId): Option<Endpoint> {
    if session in endpoints then Some(endpoints[session]) else None
  }

  /** One action after what the batch has produced so far. */
  function Decided(w: World, endpoints: map<SessionId, Endpoint>, b: Batch, action: Action): Batch {
    if action.abandoned then b.(answers := b.answers + [None])
    else
      match action
      case RequestHoist(session, id, _) =>
        var verdict := Judge(w, endpoints, b.requests, session, id);
        b.(requests := b.requests + if verdict.New? then [verdict.request] else [],
           answers := b.answers + [Some(!verdict.Refused?)])
      case RequestRelease(session, _) =>
        var endpoint := Lookup(endpoints, session);
        b.(reclaims := b.reclaims + Reclaimed(w.sessions, endpoint),
           answers := b.answers + [Some(endpoint.Some?)])
  }

  function Produced(w: World, endpoints: map<SessionId, Endpoint>, actions: seq<Action>): Batch {
    if actions == [] then NOTHING
    else Decided(w, endpoints, Produced(w, endpoints, actions[..|actions| - 1]), actions[|actions| - 1])
  }

  predicate Retains(w: World, endpoint: Endpoint) {
    endpoint in w.available || exists i :: 0 <= i < |w.sessions| && w.sessions[i].endpoint == endpoint
  }

  class Devices {
    var endpoints: map<SessionId, Endpoint>

    /** Runs a batch of actions, then forgets endpoints that are gone for good. */
    method RemoteActions(w: World, actions: seq<Action>) returns (b: Batch, retired: set<Endpoint>)
      modifies this
      ensures b == Produced(w, old(endpoints), actions)
      ensures endpoints == map id | id in old(endpoints) && Retains(w, old(endpoints)[id]) :: old(endpoints)[id]
      ensures retired == set id | id in old(endpoints) && !Retains(w, old(endpoints)[id]) :: old(endpoints)[id]
      ensures forall id | id in old(endpoints) ::
                id in endpoints <==>
                  old(endpoints)[id] in w.available || exists h :: h in w.sessions && h.endpoint == old(endpoints)[id]
    {
      b := NOTHING;
      for i := 0 to |actions|
        invariant b == Produced(w, endpoints, actions[..i])
        invariant endpoints == old(endpoints)
      {
        assert actions[..i + 1][..i] == actions[..i];
        var action := actions[i];
        if action.abandoned {
          b := b.(answers := b.answers + [None]);
          continue;
        }
        match action
        case RequestHoist(session, id, _) =>
          var verdict := Judge(w, endpoints, b.requests, session, id);
          if verdict.New? {
            b := b.(requests := b.requests + [verdict.request]);
          }
          b := b.(answers := b.answers + [Some(!verdict.Refused?)]);
        case RequestRelease(session, _) =>
          var endpoint := Lookup(endpoints, session);
          var reclaims := Reclaim(w.sessions, endpoint);
          b := b.(reclaims := b.reclaims + reclaims, answers := b.answers + [Some(endpoint.Some?)]);
      }
      assert actions[..|actions|] == actions;
      retired := set id | id in endpoints && !Retains(w, endpoints[id]) :: endpoints[id];
      endpoints := map id | id in endpoints && Retains(w, endpoints[id]) :: endpoints[id];
    }

    method Reclaim(sessions: seq<Hoist>, endpoint: Option<Endpoint>) returns (reclaims: seq<Entity>)
      ensures reclaims == Reclaimed(sessions, endpoint)
    {
      reclaims := [];
      for i := 0 to |sessions|
        invariant reclaims == Reclaimed(sessions[..i], endpoint)
      {
        assert sessions[..i + 1][..i] == sessions[..i];
        if endpoint == Some(sessions[i].endpoint) {
          reclaims := reclaims + [sessions[i].entity];
        }
      }
      assert sessions[..|sessions|] == sessions;
    }
  }

  // ---------------------------------------------------------------------
  // What a verdict means
  // ---------------------------------------------------------------------

  /** A session that has not closed shows something at this endpoint. */
  ghost predicate ShowsAt(w: World, endpoint: Endpoint) {
    exists h :: h in w.sessions && h.endpoint == endpoint && !h.closed
  }

  /** A session that has not closed shows a window of this client at another endpoint. */
  ghost predicate ShowsElsewhere(w: World, client: nat, endpoint: Endpoint) {
    exists h :: h in w.sessions && h.surface.client == client && h.endpoint != endpoint && !h.closed
  }

  /** The window may be hoisted to the endpoint after these requests, with this surface. */
  ghost predicate MayHoist(w: World, requests: seq<Request>, window: Window, endpoint: Endpoint, surface: Surface) {
    && window.hoisted.None? && window.occupant.Some? && window.occupant.value in w.clients
    && w.clients[window.occupant.value] == surface && surface.source == 0
    && !ShowsAt(w, endpoint) && !ShowsElsewhere(w, surface.client, endpoint)
    && forall request :: request in requests ==> request.surface.client != surface.client
  }

  lemma OccupiedMeans(w: World, client: nat, endpoint: Endpoint)
    ensures Occupied(w.sessions, endpoint) <==> ShowsAt(w, endpoint)
    ensures Elsewhere(w.sessions, client, endpoint) <==> ShowsElsewhere(w, client, endpoint)
  {
    assert forall i :: 0 <= i < |w.sessions| ==> w.sessions[i] in w.sessions;
  }

  /**
   A request to hoist is accepted if its endpoint is connected, available and not asked for before in the batch,
   and the window is hoisted to this very endpoint already, or may be hoisted there now. Only the latter asks for
   anything: for that window's entity, that endpoint, and the surface of its occupant.
   */
  lemma VerdictMeans(w: World, endpoints: map<SessionId, Endpoint>, requests: seq<Request>, session: SessionId, id: nat)
    ensures var verdict, window := Judge(w, endpoints, requests, session, id), FindWindow(w.windows, id);
            if session in endpoints && endpoints[session] in w.available && window.Some?
               && forall request :: request in requests ==> request.endpoint != endpoints[session]
            then
              var endpoint := endpoints[session];
              && (verdict.Already? <==>
                    && window.value.hoisted.Some? && FindSession(w.sessions, window.value.hoisted.value).Some?
                    && FindSession(w.sessions, window.value.hoisted.value).value.endpoint == endpoint)
              && (verdict.New? <==> exists surface :: MayHoist(w, requests, window.value, endpoint, surface))
              && (verdict.New? ==>
                    && verdict.request == Request(window.value.entity, endpoint, verdict.request.surface)
                    && MayHoist(w, requests, window.value, endpoint, verdict.request.surface))
            else verdict.Refused?
  {
    assert forall i :: 0 <= i < |requests| ==> requests[i] in requests;
    if session in endpoints && FindWindow(w.windows, id).Some? {
      var window, endpoint := FindWindow(w.windows, id).value, endpoints[session];
      if window.occupant.Some? && window.occupant.value in w.clients {
        var surface := w.clients[window.occupant.value];
        OccupiedMeans(w, surface.client, endpoint);
        assert ClientRequested(requests, surface.client) <==>
          exists request :: request in requests && request.surface.client == surface.client;
        assert window.hoisted.None? ==>
          (FreshRequest(w, requests, window, endpoint).Some? <==> MayHoist(w, requests, window, endpoint, surface));
      }
      assert EndpointRequested(requests, endpoint) <==>
        exists request :: request in requests && request.endpoint == endpoint;
    }
    hide Occupied, Elsewhere, ShowsAt, ShowsElsewhere, EndpointRequested, ClientRequested;
  }

  // ---------------------------------------------------------------------
  // Exclusive assignment
  // ---------------------------------------------------------------------

  /** No endpoint shows two windows, and no client's windows go to two endpoints. */
  ghost predicate Exclusive(sessions: seq<Hoist>) {
    forall i, j | 0 <= i < j < |sessions| && !sessions[i].closed && !sessions[j].closed ::
      && sessions[i].endpoint != sessions[j].endpoint
      && sessions[i].surface.client != sessions[j].surface.client
  }

  /** An accepted request as the session it becomes, under whatever entity. */
  function Started(requests: seq<Request>, entities: Entity -> Entity): seq<Hoist> {
    seq(|requests|, i requires 0 <= i < |requests| =>
      Hoist(entities(i), requests[i].endpoint, requests[i].surface, false))
  }

  ghost predicate Unclaimed(w: World, requests: seq<Request>, request: Request) {
    && !EndpointRequested(requests, request.endpoint) && !ClientRequested(requests, request.surface.client)
    && !Occupied(w.sessions, request.endpoint)
    && !Elsewhere(w.sessions, request.surface.client, request.endpoint)
  }

  lemma NewIsUnclaimed(w: World, endpoints: map<SessionId, Endpoint>, requests: seq<Request>, session: SessionId, id: nat)
    requires Judge(w, endpoints, requests, session, id).New?
    ensures Unclaimed(w, requests, Judge(w, endpoints, requests, session, id).request)
  {
  }

  lemma StartedExclusive(w: World, requests: seq<Request>, request: Request, entities: Entity -> Entity)
    requires Unclaimed(w, requests, request) && Exclusive(w.sessions + Started(requests, entities))
    ensures Exclusive(w.sessions + Started(requests + [request], entities))
  {
    var before, after := w.sessions + Started(requests, entities), w.sessions + Started(requests + [request], entities);
    var n := |before|;
    assert after == before + [Hoist(entities(|requests|), request.endpoint, request.surface, false)];
    forall i | 0 <= i < n && !before[i].closed
      ensures before[i].endpoint != request.endpoint && before[i].surface.client != request.surface.client
    {
      if i >= |w.sessions| {
        var k := i - |w.sessions|;
        assert before[i].endpoint == requests[k].endpoint && before[i].surface == requests[k].surface;
      } else {
        assert before[i] == w.sessions[i];
      }
    }
  }

  /** Whatever a batch asks for, exclusive assignment survives once all accepted requests have become sessions. */
  lemma {:induction false} BatchKeepsExclusive(
    w: World, endpoints: map<SessionId, Endpoint>, actions: seq<Action>, entities: Entity -> Entity)
    requires Exclusive(w.sessions)
    ensures Exclusive(w.sessions + Started(Produced(w, endpoints, actions).requests, entities))
  {
    if actions == [] {
      assert w.sessions + Started([], entities) == w.sessions;
    } else {
      var n := |actions| - 1;
      BatchKeepsExclusive(w, endpoints, actions[..n], entities);
      var b, action := Produced(w, endpoints, actions[..n]), actions[n];
      if !action.abandoned && action.RequestHoist? && Judge(w, endpoints, b.requests, action.session, action.window).New? {
        NewIsUnclaimed(w, endpoints, b.requests, action.session, action.window);
        StartedExclusive(w, b.requests, Judge(w, endpoints, b.requests, action.session, action.window).request, entities);
      } else {
        assert b.requests + [] == b.requests;
      }
    }
  }

  /** One answer for every action somebody waits for, in order. */
  lemma {:induction false} EveryActionIsAnswered(w: World, endpoints: map<SessionId, Endpoint>, actions: seq<Action>)
    ensures |Produced(w, endpoints, actions).answers| == |actions|
    ensures forall i :: 0 <= i < |actions| ==>
              (Produced(w, endpoints, actions).answers[i].Some? <==> !actions[i].abandoned)
  {
    if actions != [] {
      EveryActionIsAnswered(w, endpoints, actions[..|actions| - 1]);
    }
  }

  /** A release reclaims every session of the endpoint and no other. */
  lemma {:induction false} ReleaseReclaimsAll(sessions: seq<Hoist>, endpoint: Endpoint)
    ensures forall entity :: entity in Reclaimed(sessions, Some(endpoint)) <==>
              exists i :: 0 <= i < |sessions| && sessions[i].entity == entity && sessions[i].endpoint == endpoint
  {
    if sessions != [] {
      var n := |sessions| - 1;
      ReleaseReclaimsAll(sessions[..n], endpoint);
      forall entity | entity in Reclaimed(sessions[..n], Some(endpoint))
        ensures exists i :: 0 <= i < |sessions| && sessions[i].entity == entity && sessions[i].endpoint == endpoint
      {
        var i :| 0 <= i < n && sessions[..n][i].entity == entity && sessions[..n][i].endpoint == endpoint;
        assert sessions[i] == sessions[..n][i];
      }
      forall i | 0 <= i < n && sessions[i].endpoint == endpoint
        ensures sessions[i].entity in Reclaimed(sessions, Some(endpoint))
      {
        assert sessions[..n][i] == sessions[i];
      }
    }
  }

  /** Action `k` releases the endpoint, and somebody waits for the answer. */
  predicate Releases(endpoints: map<SessionId, Endpoint>, action: Action, endpoint: Endpoint) {
    action.RequestRelease? && !action.abandoned && action.session in endpoints && endpoints[action.session] == endpoint
  }

  /** A batch reclaims exactly the sessions of the endpoints it releases. */
  lemma {:induction false} BatchReclaims(w: World, endpoints: map<SessionId, Endpoint>, actions: seq<Action>, entity: Entity)
    ensures entity in Produced(w, endpoints, actions).reclaims <==>
              exists k, h :: 0 <= k < |actions| && h in w.sessions && h.entity == entity
                             && Releases(endpoints, actions[k], h.endpoint)
  {
    if actions != [] {
      var n := |actions| - 1;
      var action, before := actions[n], Produced(w, endpoints, actions[..n]);
      BatchReclaims(w, endpoints, actions[..n], entity);
      assert forall k :: 0 <= k < n ==> actions[..n][k] == actions[k];
      OneReclaims(w, endpoints, before, action, entity);
      hide Decided, Releases;
      if entity in Produced(w, endpoints, actions).reclaims {
        if entity in before.reclaims {
          var k, h :| 0 <= k < n && h in w.sessions && h.entity == entity && Releases(endpoints, actions[..n][k], h.endpoint);
          assert Releases(endpoints, actions[k], h.endpoint);
        } else {
          var h :| h in w.sessions && h.entity == entity && Releases(endpoints, action, h.endpoint);
          assert Releases(endpoints, actions[n], h.endpoint);
        }
      }
    }
  }

  lemma OneReclaims(w: World, endpoints: map<SessionId, Endpoint>, b: Batch, action: Action, entity: Entity)
    ensures entity in Decided(w, endpoints, b, action).reclaims <==>
              || entity in b.reclaims
              || exists h :: h in w.sessions && h.entity == entity && Releases(endpoints, action, h.endpoint)
  {
    if action.RequestRelease? && action.session in endpoints {
      ReleaseReclaimsAll(w.sessions, endpoints[action.session]);
      assert forall i :: 0 <= i < |w.sessions| ==> w.sessions[i] in w.sessions;
    } else {
      NothingReclaimed(w.sessions);
    }
  }

  lemma {:induction false} NothingReclaimed(sessions: seq<Hoist>)
    ensures Reclaimed(sessions, None) == []
  {
    if sessions != [] {
      NothingReclaimed(sessions[..|sessions| - 1]);
    }
  }

  // ---------------------------------------------------------------------
  // Catalogues
  // ---------------------------------------------------------------------

  datatype Entry = Entry(window: nat, surface: Surface, available: bool, hoistedHere: bool)

  function SessionOf(w: World, window: Window): Option<Hoist> {
    if window.hoisted.Some? then FindSession(w.sessions, window.hoisted.value) else None
  }

  /** The surface a window is listed with: its occupant's, else the one its session shows, if still mapped. */
  function Listed(w: World, window: Window): Option<Surface> {
    if window.occupant.Some? && window.occupant.value in w.clients then Some(w.clients[window.occupant.value])
    else
      var session := SessionOf(w, window);
      if session.Some? && session.value.surface in w.clients.Values then Some(session.value.surface) else None
  }

  function EntryOf(w: World, endpoint: Endpoint, window: Window): Option<Entry> {
    var surface, session := Listed(w, window), SessionOf(w, window);
    if surface.None? || surface.value.source != WAYLAND_CLIENT_SOURCE then None
    else Some(Entry(window.id, surface.value,
                    session.None? && !Occupied(w.sessions, endpoint),
                    session.Some? && session.value.endpoint == endpoint))
  }

  /**
   What an entry says: the surface of the window's occupant, or of the session that its mark names, while mapped;
   available while that mark names no session and nothing is shown at the endpoint; hoisted here if that session
   is at the endpoint. Windows that are not local Wayland ones have none.
   */
  lemma EntryMeans(w: World, endpoint: Endpoint, window: Window)
    ensures var entry := EntryOf(w, endpoint, window);
            var session := if window.hoisted.Some? then FindSession(w.sessions, window.hoisted.value) else None;
            && (entry.Some? ==>
                  && entry.value.window == window.id && entry.value.surface.source == 0
                  && (entry.value.available <==> session.None? && !ShowsAt(w, endpoint))
                  && (entry.value.hoistedHere <==> session.Some? && session.value.endpoint == endpoint))
            && (if window.occupant.Some? && window.occupant.value in w.clients then
                  (entry.Some? <==> w.clients[window.occupant.value].source == 0)
                  && (entry.Some? ==> entry.value.surface == w.clients[window.occupant.value])
                else
                  (entry.Some? <==> && session.Some? && session.value.surface.source == 0
                                    && exists client :: client in w.clients && w.clients[client] == session.value.surface)
                  && (entry.Some? ==> entry.value.surface == session.value.surface))
  {
    OccupiedMeans(w, 0, endpoint);
  }

  predicate InCatalogue(w: World, endpoint: Endpoint, entry: Entry) {
    exists i :: 0 <= i < |w.windows| && EntryOf(w, endpoint, w.windows[i]) == Some(entry)
  }

  /** The catalogue shown to one endpoint, before it is sorted by window. */
  method Catalogue(w: World, endpoint: Endpoint) returns (entries: seq<Entry>)
    ensures forall entry :: entry in entries <==> InCatalogue(w, endpoint, entry)
    ensures |entries| <= |w.windows|
  {
    entries := [];
    for i := 0 to |w.windows|
      invariant |entries| <= i
      invariant forall entry :: entry in entries <==> exists j :: 0 <= j < i && EntryOf(w, endpoint, w.windows[j]) == Some(entry)
    {
      var entry := EntryOf(w, endpoint, w.windows[i]);
      if entry.Some? {
        entries := entries + [entry.value];
      }
    }
  }

  lemma NewIsOffered(w: World, endpoints: map<SessionId, Endpoint>, requests: seq<Request>, session: SessionId, id: nat)
    requires Judge(w, endpoints, requests, session, id).New?
    ensures var request := Judge(w, endpoints, requests, session, id).request;
            InCatalogue(w, request.endpoint, Entry(id, request.surface, true, false))
  {
    var window := FindWindow(w.windows, id).value;
    var i :| 0 <= i < |w.windows| && w.windows[i] == window;
    assert EntryOf(w, endpoints[session], w.windows[i]).Some?;
  }

  /** The action asks for a hoist, and somebody waits for the answer. */
  predicate Asks(action: Action) {
    action.RequestHoist? && !action.abandoned
  }

  function VerdictOf(w: World, endpoints: map<SessionId, Endpoint>, actions: seq<Action>, k: nat): Verdict
    requires k < |actions| && Asks(actions[k])
  {
    Judge(w, endpoints, Produced(w, endpoints, actions[..k]).requests, actions[k].session, actions[k].window)
  }

  /** Every request of a batch is the verdict on one of its actions. */
  lemma {:induction false} RequestWasJudged(w: World, endpoints: map<SessionId, Endpoint>, actions: seq<Action>, i: nat)
    returns (k: nat)
    requires i < |Produced(w, endpoints, actions).requests|
    ensures k < |actions| && Asks(actions[k])
    ensures VerdictOf(w, endpoints, actions, k) == New(Produced(w, endpoints, actions).requests[i])
  {
    var n := |actions| - 1;
    if i < |Produced(w, endpoints, actions[..n]).requests| {
      k := RequestWasJudged(w, endpoints, actions[..n], i);
      assert actions[..n][..k] == actions[..k];
    } else {
      k := n;
    }
    hide Judge;
  }

  /** What any batch accepts was listed as available to that endpoint in the catalogue of the same state. */
  lemma AcceptedWasOffered(w: World, endpoints: map<SessionId, Endpoint>, actions: seq<Action>, i: nat) returns (k: nat)
    requires i < |Produced(w, endpoints, actions).requests|
    ensures k < |actions| && Asks(actions[k])
    ensures var request := Produced(w, endpoints, actions).requests[i];
            && Lookup(endpoints, actions[k].session) == Some(request.endpoint)
            && InCatalogue(w, request.endpoint, Entry(actions[k].window, request.surface, true, false))
  {
    k := RequestWasJudged(w, endpoints, actions, i);
    NewIsOffered(w, endpoints, Produced(w, endpoints, actions[..k]).requests, actions[k].session, actions[k].window);
  }

  lemma DecidingAnswers(w: World, endpoints: map<SessionId, Endpoint>, b: Batch, action: Action) returns (answer: Option<bool>)
    ensures Decided(w, endpoints, b, action).answers == b.answers + [answer]
    ensures Asks(action) ==> answer == Some(!Judge(w, endpoints, b.requests, action.session, action.window).Refused?)
    ensures action.RequestRelease? && !action.abandoned ==> answer == Some(action.session in endpoints)
  {
    answer := Decided(w, endpoints, b, action).answers[|b.answers|];
  }

  lemma {:induction false} AnswerStays(w: World, endpoints: map<SessionId, Endpoint>, actions: seq<Action>, k: nat)
    requires k < |actions| && Asks(actions[k])
    ensures |Produced(w, endpoints, actions).answers| == |actions|
    ensures Produced(w, endpoints, actions).answers[k] == Some(!VerdictOf(w, endpoints, actions, k).Refused?)
  {
    var n := |actions| - 1;
    EveryActionIsAnswered(w, endpoints, actions[..n]);
    var answer := DecidingAnswers(w, endpoints, Produced(w, endpoints, actions[..n]), actions[n]);
    hide Judge, Decided;
    if k < n {
      AnswerStays(w, endpoints, actions[..n], k);
      assert actions[..n][..k] == actions[..k];
    }
  }

  /** A release is answered with success exactly if its session is connected. */
  lemma {:induction false} ReleasesAreAnswered(w: World, endpoints: map<SessionId, Endpoint>, actions: seq<Action>, k: nat)
    requires k < |actions| && actions[k].RequestRelease? && !actions[k].abandoned
    ensures |Produced(w, endpoints, actions).answers| == |actions|
    ensures Produced(w, endpoints, actions).answers[k] == Some(actions[k].session in endpoints)
  {
    var n := |actions| - 1;
    EveryActionIsAnswered(w, endpoints, actions[..n]);
    var answer := DecidingAnswers(w, endpoints, Produced(w, endpoints, actions[..n]), actions[n]);
    hide Judge, Decided;
    if k < n {
      ReleasesAreAnswered(w, endpoints, actions[..n], k);
    }
  }

  /**
   The converse needs more. A window listed as available to a connected, available endpoint is accepted anywhere
   in a batch exactly if it carries no hoist mark, which one whose session is gone still does, its client is not
   shown elsewhere, and the batch has not asked for anything for that endpoint or of that client before.
   */
  lemma OfferedIsAccepted(w: World, endpoints: map<SessionId, Endpoint>, actions: seq<Action>, k: nat, window: Window)
    requires k < |actions| && Asks(actions[k]) && actions[k].window == window.id
    requires actions[k].session in endpoints && endpoints[actions[k].session] in w.available
    requires FindWindow(w.windows, window.id) == Some(window)
    requires var entry := EntryOf(w, endpoints[actions[k].session], window); entry.Some? && entry.value.available
    ensures var endpoint, requests := endpoints[actions[k].session], Produced(w, endpoints, actions[..k]).requests;
            var client := EntryOf(w, endpoint, window).value.surface.client;
            && |Produced(w, endpoints, actions).answers| == |actions|
            && (Produced(w, endpoints, actions).answers[k] == Some(true) <==>
                  && window.hoisted.None? && !Elsewhere(w.sessions, client, endpoint)
                  && !EndpointRequested(requests, endpoint) && !ClientRequested(requests, client))
            && (Produced(w, endpoints, actions).answers[k] == Some(true) <==> VerdictOf(w, endpoints, actions, k).New?)
  {
    AnswerStays(w, endpoints, actions, k);
  }

  /** A stale hoist mark keeps a window on offer that nobody can have. */
  lemma StaleMarkIsRefused(endpoint: Endpoint) returns (w: World, endpoints: map<SessionId, Endpoint>)
    ensures InCatalogue(w, endpoint, Entry(1, Surface(WAYLAND_CLIENT_SOURCE, 0, 0), true, false))
    ensures endpoints == map[0 := endpoint] && endpoint in w.available && Exclusive(w.sessions)
    ensures forall requests :: Judge(w, endpoints, requests, 0, 1).Refused?
  {
    var window := Window(10, 1, Some(20), Some(30));
    w := World([window], map[20 := Surface(WAYLAND_CLIENT_SOURCE, 0, 0)], [], {endpoint});
    endpoints := map[0 := endpoint];
    assert EntryOf(w, endpoint, w.windows[0]).Some?;
  }
}
