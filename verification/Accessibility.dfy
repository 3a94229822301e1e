/**
 Bounded breadth-first inspection of an application's accessibility objects.

 The provider is an arbitrary, possibly cyclic object graph whose objects may fail to answer any single
 question. Some failures make the traversal call itself truncated; a name or an id that cannot be read only
 counts as missing, so a text filter may pass over an object in silence. When permission is lost, the
 deadline passes or the bus breaks is up to the `Environment`.
 */
module Accessibility {
  import opened Wrappers

  const MAX_VISITED_NODES: nat := 1024

  /** A reference on the accessibility bus; the null reference names no object. */
  datatype ObjectRef = Null | Object(owner: string, path: string) {
    function Name(): Option<string> {
      match this
      case Null => None
      case Object(owner, _) => Some(owner)
    }
  }

  /** What is true of an object, and whether asking the object tells. */
  datatype Answer<T> = Answer(value: T, read: bool)

  /**
   An application as its objects answer. A failed role or `details` fails the whole object; `details` stands
   for states, interfaces, bounds and actions, and tells whether all of them were complete.
   */
  datatype Provider = Provider(
    role: ObjectRef -> Answer<string>,
    name: ObjectRef -> Answer<string>,
    accessibleId: ObjectRef -> Answer<string>,
    details: ObjectRef -> Answer<bool>,
    childCount: ObjectRef -> Option<int>,
    child: (ObjectRef, nat) -> Option<ObjectRef>)

  /** `role` and `text` are in lower case already; `lower` is how strings are put into lower case. */
  datatype Query = Query(maxNodes: nat, maxDepth: nat, role: Option<string>, text: Option<string>,
                         lower: string -> string) {
    predicate PassesRole(r: string) {
      role.None? || lower(r) == role.value
    }

    predicate Contains(s: string)
      requires text.Some?
    {
      Within(lower(s), text.value)
    }

    predicate Matches(r: string, name: string, accessibleId: Option<string>) {
      && PassesRole(r)
      && (text.None? || Contains(name) || (accessibleId.Some? && Contains(accessibleId.value)))
    }
  }

  predicate At(s: string, part: string, i: int) {
    0 <= i <= |s| - |part| && s[i..i + |part|] == part
  }

  predicate Within(s: string, part: string) {
    exists i :: 0 <= i <= |s| && At(s, part, i)
  }

  /** What the reader learnt about one object, unless that failed as a whole. */
  datatype Reading = Unread | Read(role: string, name: Option<string>, accessibleId: Option<string>, complete: bool)

  datatype Node = Node(id: nat, parent: Option<nat>, depth: nat,
                       role: string, name: string, accessibleId: Option<string>, incomplete: bool)

  datatype Snapshot = Snapshot(nodes: seq<Node>, truncated: bool, visitedNodes: nat)

  datatype Error = Unauthorized | BusFailure

  datatype Entry = Entry(item: ObjectRef, parent: Option<nat>, depth: nat)

  // ---------------------------------------------------------------------
  // The object graph
  // ---------------------------------------------------------------------

  function Count(p: Provider, o: ObjectRef): nat {
    match p.childCount(o)
    case None => 0
    case Some(count) => if count < 0 then 0 else count
  }

  ghost predicate Edge(p: Provider, a: ObjectRef, b: ObjectRef) {
    b != Null && exists i: nat :: i < Count(p, a) && p.child(a, i) == Some(b)
  }

  /** `o` can be reached from `root` along `n` child references. */
  ghost predicate Walk(p: Provider, root: ObjectRef, o: ObjectRef, n: nat)
    decreases n
  {
    if n == 0 then
      o == root && root != Null
    else
      exists m :: Walk(p, root, m, n - 1) && Edge(p, m, o)
  }

  ghost predicate Reachable(p: Provider, root: ObjectRef, o: ObjectRef) {
    exists n: nat :: Walk(p, root, o, n)
  }

  ghost predicate IsDistance(p: Provider, root: ObjectRef, o: ObjectRef, d: nat) {
    Walk(p, root, o, d) && forall n: nat :: Walk(p, root, o, n) ==> d <= n
  }

  // ---------------------------------------------------------------------
  // What a report says
  // ---------------------------------------------------------------------

  function NameOf(r: Reading): string
    requires r.Read?
  {
    if r.name.Some? then r.name.value else ""
  }

  predicate Selects(query: Query, r: Reading) {
    r.Read? && query.Matches(r.role, NameOf(r), r.accessibleId)
  }

  function Told<T>(answer: Answer<T>): Option<T> {
    if answer.read then Some(answer.value) else None
  }

  /** What reading an object in time, and with permission, learns. */
  function ReadingOf(p: Provider, query: Query, o: ObjectRef): Reading {
    if !p.role(o).read then Unread
    else
      var r := Read(p.role(o).value, Told(p.name(o)), Told(p.accessibleId(o)), p.details(o).value);
      if Selects(query, r) && !p.details(o).read then Unread else r
  }

  /** One inspected object: the counterpart of a snapshot-local id. */
  datatype Visit = Visit(item: ObjectRef, parent: Option<nat>, depth: nat, reading: Reading)

  function NodeOf(id: nat, v: Visit): Node
    requires v.reading.Read?
  {
    var r := v.reading;
    Node(id, v.parent, v.depth, r.role, NameOf(r),
         if r.accessibleId.Some? && r.accessibleId.value != "" then r.accessibleId else None,
         r.name.None? || !r.complete)
  }

  /** The selected visits, in visiting order, under their visiting numbers. */
  function Report(query: Query, visits: seq<Visit>): (nodes: seq<Node>)
    ensures |nodes| <= |visits|
    ensures forall k :: 0 <= k < |nodes| ==> nodes[k].id < |visits|
  {
    if visits == [] then
      []
    else
      var last := |visits| - 1;
      Report(query, visits[..last]) + Found(query, last, visits[last])
  }

  function Found(query: Query, id: nat, v: Visit): (nodes: seq<Node>)
    ensures |nodes| <= 1
  {
    if Selects(query, v.reading) then [NodeOf(id, v)] else []
  }

  /** What the query asks for, going by what is true of the object. */
  predicate Wanted(p: Provider, query: Query, o: ObjectRef) {
    query.Matches(p.role(o).value, p.name(o).value, Some(p.accessibleId(o).value))
  }

  /** What the query asks for, going by what can be read of the object. */
  predicate Readable(p: Provider, query: Query, o: ObjectRef) {
    Selects(query, ReadingOf(p, query, o))
  }

  /** Of the name and the id of an object that is asked for, none that carries the text can be read. */
  predicate Dropped(p: Provider, query: Query, o: ObjectRef) {
    && query.text.Some? && query.text.value != "" && query.PassesRole(p.role(o).value)
    && (query.Contains(p.name(o).value) || query.Contains(p.accessibleId(o).value))
    && (query.Contains(p.name(o).value) ==> !p.name(o).read)
    && (query.Contains(p.accessibleId(o).value) ==> !p.accessibleId(o).read)
  }

  /** A fully read object is selected exactly if it is wanted and not dropped. */
  lemma DroppedIsTheDifference(p: Provider, query: Query, o: ObjectRef)
    requires query.lower("") == "" && ReadingOf(p, query, o).Read?
    ensures Readable(p, query, o) <==> Wanted(p, query, o) && !Dropped(p, query, o)
    ensures Dropped(p, query, o) ==> Wanted(p, query, o)
  {
    if query.text.Some? {
      if query.text.value == "" {
        assert At(query.lower(p.name(o).value), "", 0) && At("", "", 0);
      } else {
        assert !Within("", query.text.value);
      }
    }
  }

  predicate Describes(query: Query, visits: seq<Visit>, node: Node) {
    && node.id < |visits| && Selects(query, visits[node.id].reading)
    && node == NodeOf(node.id, visits[node.id])
  }

  predicate Increasing(nodes: seq<Node>) {
    forall k, l :: 0 <= k < l < |nodes| ==> nodes[k].id < nodes[l].id
  }

  /** A report lists only selected visits, each at most once, in visiting order. */
  lemma {:induction false} ReportIsSound(query: Query, visits: seq<Visit>)
    ensures var nodes := Report(query, visits);
            && Increasing(nodes)
            && (forall k :: 0 <= k < |nodes| ==> Describes(query, visits, nodes[k]))
  {
    if visits != [] {
      var last := |visits| - 1;
      var nodes := Report(query, visits);
      ReportIsSound(query, visits[..last]);
      forall k | 0 <= k < |nodes|
        ensures Describes(query, visits, nodes[k])
      {
        if k < |nodes| - |Found(query, last, visits[last])| {
          assert Describes(query, visits[..last], nodes[k]);
        }
      }
    }
  }

  lemma SelectedIsFound(query: Query, id: nat, v: Visit)
    requires Selects(query, v.reading)
    ensures |Found(query, id, v)| == 1 && Found(query, id, v)[0].id == id
  {
  }

  /** A report misses no selected visit. */
  lemma {:induction false} ReportIsFull(query: Query, visits: seq<Visit>, i: nat)
    requires i < |visits| && Selects(query, visits[i].reading)
    ensures exists k :: 0 <= k < |Report(query, visits)| && Report(query, visits)[k].id == i
  {
    var last := |visits| - 1;
    var before := Report(query, visits[..last]);
    if i < last {
      ReportIsFull(query, visits[..last], i);
      var k :| 0 <= k < |before| && before[k].id == i;
      assert Report(query, visits)[k] == before[k];
    } else {
      SelectedIsFound(query, last, visits[last]);
      assert Report(query, visits)[|before|].id == last;
    }
    hide Found, Selects;
  }

  /** The node says of the object what could be read, and admits to a missing name or missing details. */
  predicate Tells(p: Provider, o: ObjectRef, node: Node) {
    && node.role == p.role(o).value
    && node.name == (if p.name(o).read then p.name(o).value else "")
    && (node.incomplete <==> !p.name(o).read || !p.details(o).value)
    && node.accessibleId == (if p.accessibleId(o).read && p.accessibleId(o).value != ""
                             then Some(p.accessibleId(o).value) else None)
  }

  /** `nodes` describe `objects` one by one, each at its shortest distance, and no object twice. */
  ghost predicate Lists(p: Provider, root: ObjectRef, nodes: seq<Node>, objects: seq<ObjectRef>) {
    && |objects| == |nodes|
    && (forall k :: 0 <= k < |nodes| ==>
          && Tells(p, objects[k], nodes[k]) && IsDistance(p, root, objects[k], nodes[k].depth)
          && (nodes[k].parent.Some? ==> nodes[k].parent.value < nodes[k].id))
    && Differ(objects)
  }

  predicate Differ(objects: seq<ObjectRef>) {
    forall i, j :: 0 <= i < j < |objects| ==> objects[i] != objects[j]
  }

  ghost predicate AreReadable(p: Provider, root: ObjectRef, query: Query, objects: seq<ObjectRef>) {
    forall o :: o in objects <==> Reachable(p, root, o) && Readable(p, query, o)
  }

  ghost predicate AreWanted(p: Provider, root: ObjectRef, query: Query, objects: seq<ObjectRef>) {
    forall o :: o in objects <==> Reachable(p, root, o) && Wanted(p, query, o)
  }

  /** All reachable objects were read, and the nodes list exactly those the query selects as read. */
  ghost predicate ExactAsRead(p: Provider, root: ObjectRef, query: Query, nodes: seq<Node>) {
    && Increasing(nodes)
    && (forall o :: Reachable(p, root, o) ==> ReadingOf(p, query, o).Read?)
    && exists objects :: Lists(p, root, nodes, objects) && AreReadable(p, root, query, objects)
  }

  /** The nodes list exactly the reachable objects the query asks for. */
  ghost predicate Exact(p: Provider, root: ObjectRef, query: Query, nodes: seq<Node>) {
    Increasing(nodes) && exists objects :: Lists(p, root, nodes, objects) && AreWanted(p, root, query, objects)
  }

  ghost predicate NothingDropped(p: Provider, root: ObjectRef, query: Query) {
    forall o :: Reachable(p, root, o) ==> !Dropped(p, query, o)
  }

  lemma {:induction false} DifferentCount(objects: seq<ObjectRef>)
    requires Differ(objects)
    ensures |set o | o in objects| == |objects|
  {
    if objects != [] {
      var n := |objects| - 1;
      DifferentCount(objects[..n]);
      assert (set o | o in objects) == (set o | o in objects[..n]) + {objects[n]};
    }
  }

  /** As many different objects, all among the others, are the others. */
  lemma SameObjects(some: seq<ObjectRef>, all: seq<ObjectRef>)
    requires Differ(some) && Differ(all) && |some| == |all|
    requires forall o :: o in some ==> o in all
    ensures forall o :: o in all ==> o in some
  {
    DifferentCount(some);
    DifferentCount(all);
    var a, b := set o | o in some, set o | o in all;
    assert b == a + (b - a);
    assert b - a == {};
    forall o | o in all
      ensures o in some
    {
      assert o in b;
    }
  }

  /** A report exact as read is exact if and only if no reachable object is dropped. */
  lemma ExactIffNothingDropped(p: Provider, root: ObjectRef, query: Query, nodes: seq<Node>)
    requires query.lower("") == "" && ExactAsRead(p, root, query, nodes)
    ensures Exact(p, root, query, nodes) <==> NothingDropped(p, root, query)
  {
    hide Reachable, IsDistance, Readable, Wanted, Dropped, Tells, ReadingOf, Increasing;
    forall o | Reachable(p, root, o)
      ensures Readable(p, query, o) <==> Wanted(p, query, o) && !Dropped(p, query, o)
      ensures Dropped(p, query, o) ==> Wanted(p, query, o)
    {
      DroppedIsTheDifference(p, query, o);
    }
    var readable :| Lists(p, root, nodes, readable) && AreReadable(p, root, query, readable);
    if NothingDropped(p, root, query) {
      assert AreWanted(p, root, query, readable);
    }
    if Exact(p, root, query, nodes) {
      var wanted :| Lists(p, root, nodes, wanted) && AreWanted(p, root, query, wanted);
      SameObjects(readable, wanted);
      assert forall o :: Reachable(p, root, o) && Wanted(p, query, o) ==> o in wanted && o in readable;
    }
  }

  // ---------------------------------------------------------------------
  // What the filters mean
  // ---------------------------------------------------------------------

  /** `part` is a substring of `s`. */
  ghost predicate Occurs(part: string, s: string) {
    exists before: string, after: string :: s == before + part + after
  }

  lemma WithinIsOccurs(s: string, part: string)
    ensures Within(s, part) <==> Occurs(part, s)
  {
    if Within(s, part) {
      var i :| 0 <= i <= |s| && At(s, part, i);
      assert s == s[..i] + part + s[i + |part|..];
    }
    if Occurs(part, s) {
      var before: string, after: string :| s == before + part + after;
      assert At(s, part, |before|);
    }
  }

  /** The node has the role asked for, and its name or its id contains the text, both in lower case. */
  ghost predicate Meets(query: Query, node: Node) {
    && (query.role.Some? ==> query.lower(node.role) == query.role.value)
    && (query.text.Some? ==>
          || Occurs(query.text.value, query.lower(node.name))
          || (node.accessibleId.Some? && Occurs(query.text.value, query.lower(node.accessibleId.value))))
  }

  /** The object has the role asked for, and, but for an empty text, a name or id with that text that can be read. */
  ghost predicate Offers(p: Provider, query: Query, o: ObjectRef) {
    && (query.role.Some? ==> query.lower(p.role(o).value) == query.role.value)
    && (query.text.Some? && query.text.value != "" ==>
          || (p.name(o).read && Occurs(query.text.value, query.lower(p.name(o).value)))
          || (p.accessibleId(o).read && Occurs(query.text.value, query.lower(p.accessibleId(o).value))))
  }

  lemma SelectedMeets(query: Query, id: nat, v: Visit)
    requires query.lower("") == "" && Selects(query, v.reading)
    ensures Meets(query, NodeOf(id, v))
  {
    if query.text.Some? {
      var r := v.reading;
      WithinIsOccurs(query.lower(NameOf(r)), query.text.value);
      if r.accessibleId.Some? {
        WithinIsOccurs(query.lower(r.accessibleId.value), query.text.value);
        if r.accessibleId.value == "" && Occurs(query.text.value, "") {
          assert query.text.value == "";
          assert query.lower(NameOf(r)) == "" + "" + query.lower(NameOf(r));
        }
      }
    }
  }

  lemma OfferedIsReadable(p: Provider, query: Query, o: ObjectRef)
    requires ReadingOf(p, query, o).Read? && Offers(p, query, o)
    ensures Readable(p, query, o)
  {
    if query.text.Some? {
      WithinIsOccurs(query.lower(p.name(o).value), query.text.value);
      WithinIsOccurs(query.lower(p.accessibleId(o).value), query.text.value);
      assert query.text.value == "" ==> At(query.lower(NameOf(ReadingOf(p, query, o))), "", 0);
    }
  }

  /**
   An object in time is read unless its role fails, or the details of one that the filters ask for. What is read
   are its role, and its name, its id and whether its details are complete as far as it tells.
   */
  lemma ReadingMeans(p: Provider, query: Query, o: ObjectRef)
    requires query.lower("") == ""
    ensures var reading := ReadingOf(p, query, o);
            && (reading.Unread? <==> !p.role(o).read || (Offers(p, query, o) && !p.details(o).read))
            && (reading.Read? ==>
                  && reading.role == p.role(o).value && reading.complete == p.details(o).value
                  && reading.name == (if p.name(o).read then Some(p.name(o).value) else None)
                  && reading.accessibleId == (if p.accessibleId(o).read then Some(p.accessibleId(o).value) else None)
                  && (Readable(p, query, o) <==> Offers(p, query, o)))
  {
    if query.text.Some? {
      WithinIsOccurs(query.lower(p.name(o).value), query.text.value);
      WithinIsOccurs(query.lower(p.accessibleId(o).value), query.text.value);
      if query.text.value == "" {
        assert At(query.lower(if p.name(o).read then p.name(o).value else ""), "", 0);
      } else {
        assert !Within("", query.text.value);
      }
    }
  }

  /** Every node of a report is one the filters ask for. */
  lemma ReportMeetsQuery(query: Query, visits: seq<Visit>)
    requires query.lower("") == ""
    ensures forall k :: 0 <= k < |Report(query, visits)| ==> Meets(query, Report(query, visits)[k])
  {
    var nodes := Report(query, visits);
    ReportIsSound(query, visits);
    forall k | 0 <= k < |nodes|
      ensures Meets(query, nodes[k])
    {
      assert Describes(query, visits, nodes[k]);
      SelectedMeets(query, nodes[k].id, visits[nodes[k].id]);
    }
  }

  /** The nodes leave out nothing reachable that offers what the filters ask for. */
  ghost predicate Covers(p: Provider, root: ObjectRef, query: Query, nodes: seq<Node>) {
    forall o :: Reachable(p, root, o) && Offers(p, query, o) ==>
      exists k :: 0 <= k < |nodes| && Tells(p, o, nodes[k]) && IsDistance(p, root, o, nodes[k].depth)
  }

  lemma ExactAsReadCovers(p: Provider, root: ObjectRef, query: Query, nodes: seq<Node>)
    requires ExactAsRead(p, root, query, nodes)
    ensures Covers(p, root, query, nodes)
  {
    var objects :| Lists(p, root, nodes, objects) && AreReadable(p, root, query, objects);
    forall o | Reachable(p, root, o) && Offers(p, query, o)
      ensures exists k :: 0 <= k < |nodes| && Tells(p, o, nodes[k]) && IsDistance(p, root, o, nodes[k].depth)
    {
      OfferedIsReadable(p, query, o);
      assert o in objects;
      var k :| 0 <= k < |objects| && objects[k] == o;
      assert Tells(p, o, nodes[k]);
    }
  }

  function ItemOf(visits: seq<Visit>, node: Node): ObjectRef {
    if node.id < |visits| then visits[node.id].item else Null
  }

  lemma VisitsDiffer(p: Provider, root: ObjectRef, query: Query, visits: seq<Visit>, nodes: seq<Node>)
    requires Tree(p, root, visits) && Increasing(nodes)
    requires forall k :: 0 <= k < |nodes| ==> Describes(query, visits, nodes[k])
    ensures forall i, j :: 0 <= i < j < |nodes| ==> ItemOf(visits, nodes[i]) != ItemOf(visits, nodes[j])
  {
    forall i, j | 0 <= i < j < |nodes|
      ensures ItemOf(visits, nodes[i]) != ItemOf(visits, nodes[j])
    {
      assert nodes[i].id < nodes[j].id;
      assert Describes(query, visits, nodes[i]) && Describes(query, visits, nodes[j]);
    }
  }

  /** A node of a complete traversal tells of a reachable object, at its shortest distance. */
  lemma NodeIsHonest(p: Provider, root: ObjectRef, query: Query, visits: seq<Visit>, node: Node)
    requires Tree(p, root, visits) && Complete(p, root, query, visits) && Describes(query, visits, node)
    ensures var o := ItemOf(visits, node);
            && Reachable(p, root, o) && Readable(p, query, o) && Tells(p, o, node)
            && IsDistance(p, root, o, node.depth)
            && (node.parent.Some? ==> node.parent.value < node.id)
  {
    assert Placed(p, root, visits, node.id, visits[node.id]);
  }

  lemma ReadableIsListed(p: Provider, root: ObjectRef, query: Query, visits: seq<Visit>, o: ObjectRef)
    requires Complete(p, root, query, visits) && Reachable(p, root, o) && Readable(p, query, o)
    ensures exists k :: 0 <= k < |Report(query, visits)| && ItemOf(visits, Report(query, visits)[k]) == o
  {
    var i :| 0 <= i < |visits| && visits[i].item == o;
    ReportIsFull(query, visits, i);
  }

  function ItemsOf(visits: seq<Visit>, nodes: seq<Node>): seq<ObjectRef> {
    seq(|nodes|, k requires 0 <= k < |nodes| => ItemOf(visits, nodes[k]))
  }

  lemma NodesAreHonest(p: Provider, root: ObjectRef, query: Query, visits: seq<Visit>, nodes: seq<Node>)
    requires Tree(p, root, visits) && Complete(p, root, query, visits)
    requires forall k :: 0 <= k < |nodes| ==> Describes(query, visits, nodes[k])
    requires Increasing(nodes)
    ensures Lists(p, root, nodes, ItemsOf(visits, nodes))
    ensures forall o :: o in ItemsOf(visits, nodes) ==> Reachable(p, root, o) && Readable(p, query, o)
  {
    VisitsDiffer(p, root, query, visits, nodes);
    hide Tree, Complete, Reachable, IsDistance, Readable, Tells, Describes, ItemOf;
    var objects := ItemsOf(visits, nodes);
    forall k | 0 <= k < |nodes|
      ensures Reachable(p, root, objects[k]) && Readable(p, query, objects[k]) && Tells(p, objects[k], nodes[k])
      ensures IsDistance(p, root, objects[k], nodes[k].depth)
      ensures nodes[k].parent.Some? ==> nodes[k].parent.value < nodes[k].id
    {
      NodeIsHonest(p, root, query, visits, nodes[k]);
    }
  }

  /** A complete traversal reports exactly the reachable objects the query selects as read. */
  lemma CompleteReportIsExact(p: Provider, root: ObjectRef, query: Query, visits: seq<Visit>, nodes: seq<Node>)
    requires Tree(p, root, visits) && Complete(p, root, query, visits) && nodes == Report(query, visits)
    ensures ExactAsRead(p, root, query, nodes)
  {
    AllRead(p, root, query, visits);
    hide Tree, Complete, Report, Reachable, Readable, ReadingOf, Describes, ItemOf, Lists, Increasing;
    ReportIsSound(query, visits);
    NodesAreHonest(p, root, query, visits, nodes);
    var objects := ItemsOf(visits, nodes);
    forall o | Reachable(p, root, o) && Readable(p, query, o)
      ensures o in objects
    {
      ReadableIsListed(p, root, query, visits, o);
      var k :| 0 <= k < |nodes| && ItemOf(visits, nodes[k]) == o;
      assert objects[k] == o;
    }
    assert Lists(p, root, nodes, objects) && AreReadable(p, root, query, objects);
  }

  lemma AllRead(p: Provider, root: ObjectRef, query: Query, visits: seq<Visit>)
    requires Complete(p, root, query, visits)
    ensures forall o :: Reachable(p, root, o) ==> ReadingOf(p, query, o).Read?
  {
  }

  /** Visits form a tree of real child references, parents visited first. */
  ghost predicate Tree(p: Provider, root: ObjectRef, visits: seq<Visit>) {
    && (forall i, j :: 0 <= i < j < |visits| ==> visits[i].item != visits[j].item)
    && (forall i :: 0 <= i < |visits| ==> Placed(p, root, visits, i, visits[i]))
  }

  /** `v` hangs below one of the first `n` visits, or is the root. */
  ghost predicate Placed(p: Provider, root: ObjectRef, visits: seq<Visit>, n: nat, v: Visit)
    requires n <= |visits|
  {
    && v.item != Null
    && match v.parent
       case None => v.item == root && v.depth == 0
       case Some(q) =>
         && q < n
         && v.depth == visits[q].depth + 1
         && Edge(p, visits[q].item, v.item)
  }

  predicate AsRead(p: Provider, query: Query, v: Visit) {
    v.reading.Read? && v.reading == ReadingOf(p, query, v.item)
  }

  ghost predicate AllAsRead(p: Provider, query: Query, visits: seq<Visit>) {
    forall i :: 0 <= i < |visits| ==> AsRead(p, query, visits[i])
  }

  ghost predicate Visited(visits: seq<Visit>, o: ObjectRef, within: nat) {
    exists i :: 0 <= i < |visits| && visits[i].item == o && visits[i].depth <= within
  }

  /** Every object reachable from the root was visited, at its true distance, and read. */
  ghost predicate Complete(p: Provider, root: ObjectRef, query: Query, visits: seq<Visit>) {
    && (forall o :: Reachable(p, root, o) <==> exists i :: 0 <= i < |visits| && visits[i].item == o)
    && (forall i :: 0 <= i < |visits| ==> IsDistance(p, root, visits[i].item, visits[i].depth))
    && AllAsRead(p, query, visits)
  }

  // ---------------------------------------------------------------------
  // Why a report may be cut short
  // ---------------------------------------------------------------------

  /** All child references announced by the inspected objects, and the root's own. */
  function References(p: Provider, visits: seq<Visit>): nat {
    if visits == [] then 1 else References(p, visits[..|visits| - 1]) + Count(p, visits[|visits| - 1].item)
  }

  ghost predicate Obstacle(p: Provider, query: Query, v: Visit) {
    || ReadingOf(p, query, v.item).Unread?
    || p.childCount(v.item).None?
    || p.childCount(v.item).value < 0
    || (v.depth >= query.maxDepth && Count(p, v.item) > 0)
    || (exists i: nat :: i < Count(p, v.item) && p.child(v.item, i).None?)
    || (exists b :: Edge(p, v.item, b) && Foreign(v.item, b))
  }

  predicate Foreign(a: ObjectRef, b: ObjectRef) {
    a.Name() != b.Name()
  }

  /** A provider or a limit gives the traversal a reason to call itself truncated. */
  ghost predicate Justified(p: Provider, query: Query, visits: seq<Visit>, nodes: seq<Node>) {
    || |nodes| >= query.maxNodes
    || References(p, visits) > MAX_VISITED_NODES
    || exists i :: 0 <= i < |visits| && Obstacle(p, query, visits[i])
  }

  // ---------------------------------------------------------------------
  // Breadth-first frontier
  // ---------------------------------------------------------------------

  ghost predicate Queued(p: Provider, root: ObjectRef, query: Query, visits: seq<Visit>, e: Entry) {
    && e.depth <= query.maxDepth
    && match e.parent
       case None => e.item == root && e.depth == 0
       case Some(q) =>
         && q < |visits|
         && e.depth == visits[q].depth + 1
         && (e.item != Null ==> Edge(p, visits[q].item, e.item))
  }

  ghost predicate Pending(pending: seq<Entry>, o: ObjectRef, within: nat) {
    exists k :: 0 <= k < |pending| && pending[k].item == o && pending[k].depth <= within
  }

  ghost predicate Known(visits: seq<Visit>, pending: seq<Entry>, o: ObjectRef, within: nat) {
    Visited(visits, o, within) || Pending(pending, o, within)
  }

  /** Nothing is lost: children of visited objects are visited or queued in time. */
  ghost predicate Closed(p: Provider, root: ObjectRef, visits: seq<Visit>, pending: seq<Entry>) {
    && (root != Null ==> Known(visits, pending, root, 0))
    && (forall i, b :: 0 <= i < |visits| && Edge(p, visits[i].item, b) ==>
          Known(visits, pending, b, visits[i].depth + 1))
  }

  /** Depths never decrease along visits and queue, and the queue spans two levels. */
  ghost predicate Ordered(visits: seq<Visit>, pending: seq<Entry>) {
    && (forall i, k :: 0 <= i < |visits| && 0 <= k < |pending| ==> visits[i].depth <= pending[k].depth)
    && (forall k, l :: 0 <= k < l < |pending| ==> pending[k].depth <= pending[l].depth)
    && (forall k :: 0 <= k < |pending| ==> pending[k].depth <= pending[0].depth + 1)
  }

  ghost predicate Waiting(pending: seq<Entry>, within: nat) {
    exists k :: 0 <= k < |pending| && pending[k].depth <= within
  }

  /** An object `n` steps away is visited by then, or the queue still holds something that near. */
  lemma {:induction false} KnownWithin(p: Provider, root: ObjectRef, visits: seq<Visit>, pending: seq<Entry>,
                                       o: ObjectRef, n: nat)
    requires Closed(p, root, visits, pending)
    requires Walk(p, root, o, n)
    ensures Visited(visits, o, n) || Waiting(pending, n)
    decreases n
  {
    if n == 0 {
      assert Known(visits, pending, o, 0);
    } else {
      var m :| Walk(p, root, m, n - 1) && Edge(p, m, o);
      KnownWithin(p, root, visits, pending, m, n - 1);
      if Visited(visits, m, n - 1) {
        var i :| 0 <= i < |visits| && visits[i].item == m && visits[i].depth <= n - 1;
        assert Known(visits, pending, o, visits[i].depth + 1);
      }
    }
  }

  lemma {:induction false} TreeWalk(p: Provider, root: ObjectRef, visits: seq<Visit>, i: nat)
    requires Tree(p, root, visits) && i < |visits|
    ensures Walk(p, root, visits[i].item, visits[i].depth)
    decreases i
  {
    var v := visits[i];
    assert Placed(p, root, visits, i, v);
    if v.parent.Some? {
      var u := visits[v.parent.value];
      TreeWalk(p, root, visits, v.parent.value);
      assert Walk(p, root, u.item, u.depth) && Edge(p, u.item, v.item) && u.depth == v.depth - 1;
    }
  }

  lemma TreeSnoc(p: Provider, root: ObjectRef, visits: seq<Visit>, v: Visit)
    requires Tree(p, root, visits) && Placed(p, root, visits, |visits|, v)
    requires forall i :: 0 <= i < |visits| ==> visits[i].item != v.item
    ensures Tree(p, root, visits + [v])
  {
    var after := visits + [v];
    forall i | 0 <= i < |after|
      ensures Placed(p, root, after, i, after[i])
    {
      assert i < |visits| ==> Placed(p, root, visits, i, visits[i]);
    }
  }

  /** The first queue entry, if new, is met at its true distance. */
  lemma FirstIsNearest(p: Provider, root: ObjectRef, visits: seq<Visit>, pending: seq<Entry>, n: nat)
    requires Closed(p, root, visits, pending) && Ordered(visits, pending) && pending != []
    requires Walk(p, root, pending[0].item, n)
    requires forall i :: 0 <= i < |visits| ==> visits[i].item != pending[0].item
    ensures pending[0].depth <= n
  {
    KnownWithin(p, root, visits, pending, pending[0].item, n);
  }

  /** Skipping a null or already visited entry loses nothing. */
  lemma SkipKeepsClosed(p: Provider, root: ObjectRef, visits: seq<Visit>, pending: seq<Entry>)
    requires Closed(p, root, visits, pending) && Ordered(visits, pending) && pending != []
    requires pending[0].item == Null || pending[0].item in Items(visits)
    ensures Closed(p, root, visits, pending[1..]) && Ordered(visits, pending[1..])
  {
    var rest := pending[1..];
    forall o, w: nat | o != Null && Known(visits, pending, o, w)
      ensures Known(visits, rest, o, w)
    {
      if Pending(pending, o, w) {
        var k :| 0 <= k < |pending| && pending[k].item == o && pending[k].depth <= w;
        if k > 0 {
          assert rest[k - 1] == pending[k];
        } else {
          var i :| 0 <= i < |visits| && visits[i].item == o;
          assert Visited(visits, o, w);
        }
      }
    }
  }

  ghost predicate ChildEntries(p: Provider, o: ObjectRef, id: nat, depth: nat, children: seq<Entry>) {
    forall j: nat :: j < |children| ==>
      children[j].parent == Some(id) && children[j].depth == depth + 1
      && j < Count(p, o) && p.child(o, j) == Some(children[j].item)
  }

  predicate Enters(v: Visit, e: Entry) {
    v.item == e.item && v.parent == e.parent && v.depth == e.depth
  }

  /** Visiting a new first entry and queueing all its children keeps the frontier closed. */
  lemma ExpandKeepsClosed(p: Provider, root: ObjectRef, visits: seq<Visit>, pending: seq<Entry>, children: seq<Entry>,
                          v: Visit)
    requires Closed(p, root, visits, pending) && Ordered(visits, pending) && pending != []
    requires ChildEntries(p, pending[0].item, |visits|, pending[0].depth, children)
    requires |children| == Count(p, pending[0].item) && Enters(v, pending[0])
    ensures var visits', pending' := visits + [v], pending[1..] + children;
            Closed(p, root, visits', pending') && Ordered(visits', pending')
  {
    var first := pending[0];
    var visits' := visits + [v];
    var pending' := pending[1..] + children;
    forall o, w: nat | Known(visits, pending, o, w)
      ensures Known(visits', pending', o, w)
    {
      if Visited(visits, o, w) {
        var i :| 0 <= i < |visits| && visits[i].item == o && visits[i].depth <= w;
        assert visits'[i] == visits[i];
      } else {
        var k :| 0 <= k < |pending| && pending[k].item == o && pending[k].depth <= w;
        if k > 0 {
          assert pending'[k - 1] == pending[k];
        } else {
          assert visits'[|visits|].item == o;
        }
      }
    }
    forall i, b | 0 <= i < |visits'| && Edge(p, visits'[i].item, b)
      ensures Known(visits', pending', b, visits'[i].depth + 1)
    {
      if i < |visits| {
        assert Known(visits, pending, b, visits[i].depth + 1);
      } else {
        var j: nat :| j < Count(p, first.item) && p.child(first.item, j) == Some(b);
        assert pending'[|pending| - 1 + j] == children[j];
        assert Pending(pending', b, first.depth + 1);
      }
    }
  }

  lemma EmptyQueueIsComplete(p: Provider, root: ObjectRef, query: Query, visits: seq<Visit>)
    requires Tree(p, root, visits) && Closed(p, root, visits, []) && AllAsRead(p, query, visits)
    ensures Complete(p, root, query, visits)
  {
    forall i | 0 <= i < |visits|
      ensures IsDistance(p, root, visits[i].item, visits[i].depth)
    {
      TreeWalk(p, root, visits, i);
      forall n: nat | Walk(p, root, visits[i].item, n)
        ensures visits[i].depth <= n
      {
        KnownWithin(p, root, visits, [], visits[i].item, n);
      }
    }
    forall o | Reachable(p, root, o)
      ensures exists i :: 0 <= i < |visits| && visits[i].item == o
    {
      var n: nat :| Walk(p, root, o, n);
      KnownWithin(p, root, visits, [], o, n);
    }
  }

  // ---------------------------------------------------------------------
  // The traversal
  // ---------------------------------------------------------------------

  ghost function Items(visits: seq<Visit>): set<ObjectRef> {
    set v | v in visits :: v.item
  }

  lemma {:induction false} ItemsCount(visits: seq<Visit>, visited: set<ObjectRef>)
    requires forall i, j :: 0 <= i < j < |visits| ==> visits[i].item != visits[j].item
    requires Items(visits) <= visited
    ensures |visits| <= |visited|
  {
    if visits != [] {
      var last := |visits| - 1;
      var item := visits[last].item;
      forall v | v in visits[..last]
        ensures v.item in visited - {item}
      {
        assert v in visits && v.item in Items(visits);
      }
      assert visits[last] in visits && item in Items(visits);
      ItemsCount(visits[..last], visited - {item});
    }
  }

  lemma ReportSnoc(p: Provider, query: Query, visits: seq<Visit>, v: Visit)
    ensures Report(query, visits + [v]) == Report(query, visits) + Found(query, |visits|, v)
    ensures Items(visits + [v]) == Items(visits) + {v.item}
    ensures References(p, visits + [v]) == References(p, visits) + Count(p, v.item)
  {
    assert (visits + [v])[..|visits|] == visits;
    assert forall u :: u in visits + [v] <==> u in visits || u == v;
  }

  /** What was read of the object is true of it, also if it came late: details are not complete unless they are. */
  predicate Honest(p: Provider, o: ObjectRef, reading: Reading) {
    reading.Read? ==>
      && reading.role == p.role(o).value
      && (reading.name.Some? ==> p.name(o).read && reading.name.value == p.name(o).value)
      && (reading.accessibleId.Some? ==> p.accessibleId(o).read && reading.accessibleId.value == p.accessibleId(o).value)
      && (reading.complete ==> p.details(o).value)
  }

  /** All objects inspected belong to the application of the root and lie within the depth asked for. */
  predicate InScope(p: Provider, root: ObjectRef, query: Query, visits: seq<Visit>) {
    forall i :: 0 <= i < |visits| ==>
      && visits[i].item.Name() == root.Name() && visits[i].depth <= query.maxDepth
      && Honest(p, visits[i].item, visits[i].reading)
  }

  /** Whatever a node says is true of an object that was inspected, and missing names and details are admitted. */
  ghost predicate Truthful(p: Provider, visits: seq<Visit>, node: Node) {
    && node.id < |visits|
    && var v := visits[node.id];
       && node.depth == v.depth && node.parent == v.parent && node.role == p.role(v.item).value
       && (node.name == p.name(v.item).value || (node.name == "" && node.incomplete))
       && (node.accessibleId.Some? ==> node.accessibleId.value == p.accessibleId(v.item).value)
       && (!node.incomplete ==> p.name(v.item).read && p.details(v.item).value)
  }

  /** What holds of the traversal's variables whether or not the report is cut short. */
  ghost predicate Sound(p: Provider, root: ObjectRef, query: Query,
                        visits: seq<Visit>, pending: seq<Entry>, visited: set<ObjectRef>) {
    && |visited| + |pending| <= MAX_VISITED_NODES
    && |visited| + |pending| <= References(p, visits)
    && Tree(p, root, visits)
    && Items(visits) <= visited
    && InScope(p, root, query, visits)
    && (forall k :: 0 <= k < |pending| ==> Queued(p, root, query, visits, pending[k]))
  }

  /** What holds as long as the report has not been cut short. */
  ghost predicate Exhaustive(p: Provider, root: ObjectRef, query: Query,
                             visits: seq<Visit>, pending: seq<Entry>, visited: set<ObjectRef>) {
    && visited == Items(visits)
    && AllAsRead(p, query, visits)
    && Closed(p, root, visits, pending) && Ordered(visits, pending)
  }

  ghost predicate Children(p: Provider, o: ObjectRef, id: nat, depth: nat, children: seq<Entry>) {
    forall k :: 0 <= k < |children| ==>
      && children[k].parent == Some(id) && children[k].depth == depth + 1
      && (children[k].item != Null ==> Edge(p, o, children[k].item))
  }

  lemma SoundSkip(p: Provider, root: ObjectRef, query: Query,
                  visits: seq<Visit>, pending: seq<Entry>, visited: set<ObjectRef>)
    requires Sound(p, root, query, visits, pending, visited) && pending != []
    ensures Sound(p, root, query, visits, pending[1..], visited)
    ensures Sound(p, root, query, visits, pending[1..], visited + {pending[0].item})
  {
  }

  lemma QueuedVisit(p: Provider, root: ObjectRef, query: Query,
                    visits: seq<Visit>, pending: seq<Entry>, children: seq<Entry>, v: Visit)
    requires forall k :: 0 <= k < |pending| ==> Queued(p, root, query, visits, pending[k])
    requires Children(p, v.item, |visits|, v.depth, children)
    requires children != [] ==> v.depth < query.maxDepth
    ensures forall k :: 0 <= k < |pending + children| ==>
              Queued(p, root, query, visits + [v], (pending + children)[k])
  {
    forall k | 0 <= k < |pending + children|
      ensures Queued(p, root, query, visits + [v], (pending + children)[k])
    {
      if k < |pending| {
        assert Queued(p, root, query, visits, pending[k]);
      } else {
        assert (pending + children)[k] == children[k - |pending|];
      }
    }
  }

  lemma TreeAfterVisit(p: Provider, root: ObjectRef, query: Query,
                       visits: seq<Visit>, pending: seq<Entry>, visited: set<ObjectRef>, v: Visit)
    requires Sound(p, root, query, visits, pending, visited) && pending != []
    requires Enters(v, pending[0])
    requires v.item != Null && v.item !in visited && v.item.Name() == root.Name() && Honest(p, v.item, v.reading)
    ensures Tree(p, root, visits + [v])
    ensures InScope(p, root, query, visits + [v])
  {
    assert Queued(p, root, query, visits, pending[0]);
    FreshItem(visits, visited, v.item);
    TreeSnoc(p, root, visits, v);
  }

  lemma QueueAfterVisit(p: Provider, root: ObjectRef, query: Query,
                        visits: seq<Visit>, pending: seq<Entry>, children: seq<Entry>, v: Visit)
    requires pending != [] && forall k :: 0 <= k < |pending| ==> Queued(p, root, query, visits, pending[k])
    requires Children(p, v.item, |visits|, v.depth, children)
    requires children != [] ==> v.depth < query.maxDepth
    ensures forall k :: 0 <= k < |pending[1..] + children| ==>
              Queued(p, root, query, visits + [v], (pending[1..] + children)[k])
  {
    assert forall k :: 0 <= k < |pending[1..]| ==> pending[1..][k] == pending[k + 1];
    QueuedVisit(p, root, query, visits, pending[1..], children, v);
  }

  lemma SoundVisit(p: Provider, root: ObjectRef, query: Query,
                   visits: seq<Visit>, pending: seq<Entry>, visited: set<ObjectRef>, children: seq<Entry>, v: Visit)
    requires Sound(p, root, query, visits, pending, visited) && pending != []
    requires Enters(v, pending[0])
    requires v.item != Null && v.item !in visited && v.item.Name() == root.Name() && Honest(p, v.item, v.reading)
    requires Children(p, v.item, |visits|, v.depth, children)
    requires children != [] ==> v.depth < query.maxDepth
    requires |visited| + |pending| + |children| <= MAX_VISITED_NODES
    requires |children| <= Count(p, v.item)
    ensures Sound(p, root, query, visits + [v], pending[1..] + children, visited + {v.item})
  {
    hide Tree, Queued, Children, Enters, Honest, InScope;
    TreeAfterVisit(p, root, query, visits, pending, visited, v);
    QueueAfterVisit(p, root, query, visits, pending, children, v);
    ReportSnoc(p, query, visits, v);
  }

  lemma FreshItem(visits: seq<Visit>, visited: set<ObjectRef>, item: ObjectRef)
    requires Items(visits) <= visited && item !in visited
    ensures forall i :: 0 <= i < |visits| ==> visits[i].item != item
  {
    forall i | 0 <= i < |visits|
      ensures visits[i].item != item
    {
      assert visits[i] in visits && visits[i].item in Items(visits);
    }
  }

  lemma ExhaustiveSkip(p: Provider, root: ObjectRef, query: Query,
                       visits: seq<Visit>, pending: seq<Entry>, visited: set<ObjectRef>)
    requires Exhaustive(p, root, query, visits, pending, visited) && pending != []
    requires pending[0].item == Null || pending[0].item in visited
    ensures Exhaustive(p, root, query, visits, pending[1..], visited)
  {
    SkipKeepsClosed(p, root, visits, pending);
  }

  lemma ExhaustiveVisit(p: Provider, root: ObjectRef, query: Query,
                        visits: seq<Visit>, pending: seq<Entry>, visited: set<ObjectRef>, children: seq<Entry>, v: Visit)
    requires Exhaustive(p, root, query, visits, pending, visited) && pending != []
    requires Enters(v, pending[0]) && AsRead(p, query, v)
    requires ChildEntries(p, pending[0].item, |visits|, pending[0].depth, children)
    requires |children| == Count(p, pending[0].item)
    ensures Exhaustive(p, root, query, visits + [v], pending[1..] + children, visited + {v.item})
  {
    ExpandKeepsClosed(p, root, visits, pending, children, v);
    ReportSnoc(p, query, visits, v);
  }

  lemma JustifiedBy(p: Provider, query: Query, visits: seq<Visit>, nodes: seq<Node>, i: nat)
    requires i < |visits| && Obstacle(p, query, visits[i])
    ensures Justified(p, query, visits, nodes)
  {
  }

  lemma StillJustified(p: Provider, query: Query, visits: seq<Visit>, v: Visit)
    requires Justified(p, query, visits, Report(query, visits))
    ensures Justified(p, query, visits + [v], Report(query, visits + [v]))
  {
    ReportSnoc(p, query, visits, v);
    if i :| 0 <= i < |visits| && Obstacle(p, query, visits[i]) {
      assert (visits + [v])[i] == visits[i];
    }
  }

  datatype Progress = Progress(
    visits: seq<Visit>, pending: seq<Entry>, visited: set<ObjectRef>, nodes: seq<Node>, truncated: bool, late: bool)

  /** The traversal's loop invariant. */
  ghost predicate Consistent(p: Provider, root: ObjectRef, query: Query, s: Progress) {
    && Sound(p, root, query, s.visits, s.pending, s.visited)
    && s.nodes == Report(query, s.visits) && |s.nodes| <= query.maxNodes
    && (!s.truncated ==> Exhaustive(p, root, query, s.visits, s.pending, s.visited))
    && (s.truncated ==> s.late || Justified(p, query, s.visits, s.nodes))
  }

  lemma SkipStep(p: Provider, root: ObjectRef, query: Query, s: Progress)
    requires Consistent(p, root, query, s) && s.pending != []
    requires s.pending[0].item == Null || s.pending[0].item in s.visited
    ensures Consistent(p, root, query, s.(pending := s.pending[1..]))
  {
    if !s.truncated {
      ExhaustiveSkip(p, root, query, s.visits, s.pending, s.visited);
    }
  }

  lemma ForeignStep(p: Provider, root: ObjectRef, query: Query, s: Progress)
    requires Consistent(p, root, query, s) && s.pending != []
    requires s.pending[0].item != Null && s.pending[0].item.Name() != root.Name()
    ensures Consistent(p, root, query, s.(pending := s.pending[1..], visited := s.visited + {s.pending[0].item},
                                          truncated := true))
  {
    var first := s.pending[0];
    SoundSkip(p, root, query, s.visits, s.pending, s.visited);
    assert Queued(p, root, query, s.visits, first);
    assert Obstacle(p, query, s.visits[first.parent.value]);
  }

  /** What reading one object with `room` queue places left yields. */
  ghost predicate Yields(p: Provider, query: Query, id: nat, v: Visit, room: int,
                         found: seq<Node>, children: seq<Entry>, cut: bool) {
    && found == Found(query, id, v) && Honest(p, v.item, v.reading)
    && Children(p, v.item, id, v.depth, children)
    && |children| <= room && |children| <= Count(p, v.item)
    && (children != [] ==> v.depth < query.maxDepth)
    && (!cut ==> && AsRead(p, query, v) && |children| == Count(p, v.item)
                 && ChildEntries(p, v.item, id, v.depth, children))
  }

  /** Why reading an object may fall short: too late, no room for its children, or an obstacle at the object. */
  ghost predicate CutBy(p: Provider, query: Query, v: Visit, room: int, late: bool) {
    late || Count(p, v.item) > room || Obstacle(p, query, v)
  }

  lemma VisitStep(p: Provider, root: ObjectRef, query: Query, s: Progress, v: Visit,
                  found: seq<Node>, children: seq<Entry>, cut: bool, late: bool)
    requires Consistent(p, root, query, s) && s.pending != [] && |s.nodes| < query.maxNodes
    requires Enters(v, s.pending[0])
    requires v.item != Null && v.item !in s.visited && v.item.Name() == root.Name()
    requires Yields(p, query, |s.visits|, v, MAX_VISITED_NODES - (|s.visited| + |s.pending|), found, children, cut)
    requires cut ==> CutBy(p, query, v, MAX_VISITED_NODES - (|s.visited| + |s.pending|), late)
    ensures Consistent(p, root, query, Progress(s.visits + [v], s.pending[1..] + children, s.visited + {v.item},
                                                s.nodes + found, s.truncated || cut, s.late || late))
  {
    var visits, nodes := s.visits + [v], s.nodes + found;
    SoundVisit(p, root, query, s.visits, s.pending, s.visited, children, v);
    ReportSnoc(p, query, s.visits, v);
    if s.truncated {
      if !s.late {
        StillJustified(p, query, s.visits, v);
      }
    } else if cut {
      if !late && Obstacle(p, query, v) {
        JustifiedBy(p, query, visits, nodes, |s.visits|);
      }
    } else {
      ExhaustiveVisit(p, root, query, s.visits, s.pending, s.visited, children, v);
    }
  }

  /**
   What changes while the traversal runs, by the number of the moment at which it is asked: whether the
   reader is still authorized, from which moment on answers come too late, and whether the bus works.
   */
  datatype Environment = Environment(authorized: nat -> bool, deadline: Option<nat>, busWorks: nat -> bool) {
    predicate OnTime(moment: nat) {
      deadline.None? || moment < deadline.value
    }
  }

  ghost predicate Trusting(env: Environment) {
    forall n :: env.authorized(n) && env.busWorks(n)
  }

  /** By this moment the deadline has passed, or permission or the bus is lost at some time. */
  ghost predicate Disturbed(env: Environment, moment: nat) {
    !env.OnTime(moment) || !Trusting(env)
  }

  /** Children of one object, in order, until permission is lost. */
  method ReadChildren(p: Provider, env: Environment, start: nat, item: ObjectRef, id: nat, depth: nat, take: nat)
    returns (children: seq<Entry>, missing: bool, authorized: bool, moment: nat)
    requires take <= Count(p, item)
    ensures moment >= start && |children| <= take
    ensures Children(p, item, id, depth, children)
    ensures env.authorized(start) ==> (authorized <==> env.authorized(moment))
    ensures authorized && !missing ==> |children| == take && ChildEntries(p, item, id, depth, children)
    ensures missing ==> !env.OnTime(moment) || exists i: nat :: i < take && p.child(item, i).None?
    ensures !authorized ==> !env.authorized(moment)
  {
    children, missing, authorized, moment := [], false, true, start;
    for index := 0 to take
      invariant moment >= start && |children| <= index
      invariant env.authorized(start) ==> env.authorized(moment)
      invariant Children(p, item, id, depth, children)
      invariant !missing ==> |children| == index && ChildEntries(p, item, id, depth, children)
      invariant missing ==> !env.OnTime(moment) || exists i: nat :: i < take && p.child(item, i).None?
    {
      moment := moment + 1;
      if !env.authorized(moment) {
        authorized := false;
        return;
      }
      match if env.OnTime(moment) then p.child(item, index) else None {
        case Some(child) =>
          children := children + [Entry(child, Some(id), depth + 1)];
        case None =>
          missing := true;
      }
    }
  }

  datatype Outcome = Inspected | TimedOut | Aborted(error: Error)

  /** One answer that may be missing: `None` if it fails or comes too late. */
  method Optional<T>(answer: Answer<T>, env: Environment, start: nat)
    returns (told: Option<T>, authorized: bool, moment: nat)
    ensures moment == start + 1 && (authorized <==> env.authorized(moment))
    ensures told == if env.OnTime(moment) then Told(answer) else None
  {
    moment := start + 1;
    authorized := env.authorized(moment);
    told := if env.OnTime(moment) && answer.read then Some(answer.value) else None;
  }

  /** Reads the properties of one object; a failure of the whole object leaves it unread. */
  method ReadNode(p: Provider, env: Environment, start: nat, query: Query, item: ObjectRef)
    returns (reading: Reading, timedOut: bool, moment: nat)
    ensures moment >= start
    ensures timedOut <==> !env.OnTime(start + 1)
    ensures timedOut ==> moment == start + 1
    ensures Honest(p, item, reading)
    ensures reading.Read? && Selects(query, reading) && !env.OnTime(moment) ==> !reading.complete
    ensures reading == ReadingOf(p, query, item) || if reading.Read? then !env.OnTime(moment) else Disturbed(env, moment)
  {
    reading, timedOut, moment := Unread, false, start + 1;
    if !env.OnTime(moment) {
      timedOut := true;
      return;
    }
    if !p.role(item).read {
      return;
    }
    var name, accessibleId, details, authorized;
    name, authorized, moment := Optional(p.name(item), env, moment);
    if !authorized {
      return;
    }
    accessibleId, authorized, moment := Optional(p.accessibleId(item), env, moment);
    if !authorized {
      return;
    }
    var read := Read(p.role(item).value, name, accessibleId, p.details(item).value);
    if Selects(query, read) {
      details, authorized, moment := Optional(p.details(item), env, moment);
      if !authorized || (details.None? && env.OnTime(moment)) {
        return;
      }
      read := read.(complete := details == Some(true));
    }
    reading := read;
  }

  /** Reads one object and, within the depth limit and the room left, its child references. */
  method Inspect(p: Provider, env: Environment, start: nat, query: Query,
                 item: ObjectRef, id: nat, parent: Option<nat>, depth: nat, room: nat)
    returns (outcome: Outcome, reading: Reading, found: seq<Node>, children: seq<Entry>, cut: bool, moment: nat)
    ensures moment >= start
    ensures outcome == TimedOut ==> !env.OnTime(moment)
    ensures outcome == Aborted(Unauthorized) ==> !env.authorized(moment)
    ensures outcome == Aborted(BusFailure) ==> !env.busWorks(moment)
    ensures outcome == Inspected ==> env.authorized(moment)
    ensures outcome == Inspected ==>
              Yields(p, query, id, Visit(item, parent, depth, reading), room, found, children, cut)
    ensures outcome == Inspected && cut ==>
              CutBy(p, query, Visit(item, parent, depth, reading), room, Disturbed(env, moment))
  {
    outcome, found, children, cut := Inspected, [], [], false;
    var timedOut: bool;
    reading, timedOut, moment := ReadNode(p, env, start, query, item);
    if timedOut {
      outcome := TimedOut;
      return;
    }
    if reading.Unread? {
      cut := true;
      moment := moment + 1;
      if !env.authorized(moment) {
        outcome := Aborted(Unauthorized);
      }
      return;
    }
    found := Found(query, id, Visit(item, parent, depth, reading));
    if !env.busWorks(moment) {
      outcome := Aborted(BusFailure);
      return;
    }
    moment := moment + 1;
    if !env.authorized(moment) {
      outcome := Aborted(Unauthorized);
      return;
    }
    var announced := if env.OnTime(moment) then p.childCount(item) else None;
    if announced.None? || announced.value < 0 {
      cut := true;
      return;
    }
    var count := announced.value;
    var take := if depth >= query.maxDepth then 0 else if count < room then count else room;
    cut := take < count;
    var missing: bool, authorized: bool;
    children, missing, authorized, moment := ReadChildren(p, env, moment, item, id, depth, take);
    if !authorized {
      outcome := Aborted(Unauthorized);
      return;
    }
    cut := cut || missing;
  }

  lemma StartStep(p: Provider, root: ObjectRef, query: Query)
    ensures Consistent(p, root, query, Progress([], [Entry(root, None, 0)], {}, [], false, false))
  {
    assert [Entry(root, None, 0)][0].item == root;
  }

  /** Running late, or having found enough, is reason to stop. */
  lemma StopStep(p: Provider, root: ObjectRef, query: Query, s: Progress, late: bool)
    requires Consistent(p, root, query, s) && (late || |s.nodes| >= query.maxNodes)
    ensures Consistent(p, root, query, s.(truncated := true, late := s.late || late))
  {
  }

  lemma Bounds(p: Provider, root: ObjectRef, query: Query, s: Progress)
    requires Consistent(p, root, query, s)
    ensures |s.visits| <= |s.visited| && |s.visited| + |s.pending| <= MAX_VISITED_NODES && |s.nodes| <= query.maxNodes
  {
    ItemsCount(s.visits, s.visited);
  }

  lemma TreeSoFar(p: Provider, root: ObjectRef, query: Query, s: Progress)
    requires Consistent(p, root, query, s)
    ensures Tree(p, root, s.visits) && InScope(p, root, query, s.visits)
  {
  }

  /** A report, cut short or not, says nothing that is not true, and names no object beyond the depth asked for. */
  lemma ReportIsTrue(p: Provider, root: ObjectRef, query: Query, visits: seq<Visit>)
    requires InScope(p, root, query, visits)
    ensures forall k :: 0 <= k < |Report(query, visits)| ==>
              Report(query, visits)[k].depth <= query.maxDepth && Truthful(p, visits, Report(query, visits)[k])
  {
    ReportIsSound(query, visits);
    var nodes := Report(query, visits);
    assert forall k :: 0 <= k < |nodes| ==> Describes(query, visits, nodes[k]);
  }

  /** What the traversal has to show for when it stops. */
  lemma Ending(p: Provider, root: ObjectRef, query: Query, s: Progress)
    requires Consistent(p, root, query, s) && (s.truncated || s.pending == [])
    ensures Tree(p, root, s.visits) && s.nodes == Report(query, s.visits)
    ensures !s.truncated ==> Complete(p, root, query, s.visits) && ExactAsRead(p, root, query, s.nodes)
    ensures s.truncated ==> s.late || Justified(p, query, s.visits, s.nodes)
  {
    hide ExactAsRead;
    if !s.truncated {
      EmptyQueueIsComplete(p, root, query, s.visits);
      CompleteReportIsExact(p, root, query, s.visits, s.nodes);
    }
  }

  /** All that a report can be relied on for. */
  lemma Concluding(p: Provider, root: ObjectRef, query: Query, s: Progress)
    requires Consistent(p, root, query, s) && (s.truncated || s.pending == [])
    ensures Tree(p, root, s.visits) && InScope(p, root, query, s.visits) && s.nodes == Report(query, s.visits)
    ensures |s.visits| <= MAX_VISITED_NODES && |s.nodes| <= query.maxNodes
    ensures forall k :: 0 <= k < |s.nodes| ==> s.nodes[k].depth <= query.maxDepth && Truthful(p, s.visits, s.nodes[k])
    ensures query.lower("") == "" ==> forall k :: 0 <= k < |s.nodes| ==> Meets(query, s.nodes[k])
    ensures !s.truncated ==>
              && Complete(p, root, query, s.visits) && ExactAsRead(p, root, query, s.nodes)
              && Covers(p, root, query, s.nodes)
              && (query.lower("") == "" ==> (Exact(p, root, query, s.nodes) <==> NothingDropped(p, root, query)))
    ensures s.truncated ==> s.late || Justified(p, query, s.visits, s.nodes)
  {
    hide Consistent, Exact, ExactAsRead, NothingDropped, Complete, Tree, Report, Justified, Covers, Meets, InScope, Truthful;
    Bounds(p, root, query, s);
    Ending(p, root, query, s);
    TreeSoFar(p, root, query, s);
    ReportIsTrue(p, root, query, s.visits);
    if query.lower("") == "" {
      ReportMeetsQuery(query, s.visits);
    }
    if !s.truncated {
      ExactAsReadCovers(p, root, query, s.nodes);
      if query.lower("") == "" {
        ExactIffNothingDropped(p, root, query, s.nodes);
      }
    }
  }

  /**
   Inspects the objects below `root`. Only lost permission or a broken bus end it with an error. `visits` are
   the objects inspected, and `limitReached` tells whether the guard on visited objects ever fired.
   */
  method Traverse(p: Provider, env: Environment, root: ObjectRef, query: Query)
    returns (result: Result<Snapshot, Error>, moment: nat, ghost visits: seq<Visit>, ghost limitReached: bool)
    ensures Trusting(env) ==> result.Success?
    ensures match result
            case Success(_) => env.authorized(moment)
            case Failure(Unauthorized) => !env.authorized(moment)
            case Failure(BusFailure) => !env.busWorks(moment)
    ensures !limitReached
    ensures Tree(p, root, visits) && InScope(p, root, query, visits)
    ensures result.Success? ==>
              var snapshot := result.value;
              && snapshot.nodes == Report(query, visits)
              && |snapshot.nodes| <= query.maxNodes
              && (forall k :: 0 <= k < |snapshot.nodes| ==>
                    snapshot.nodes[k].depth <= query.maxDepth && Truthful(p, visits, snapshot.nodes[k]))
              && |visits| <= snapshot.visitedNodes <= MAX_VISITED_NODES
              && (!snapshot.truncated ==>
                    && snapshot.visitedNodes == |visits| && Complete(p, root, query, visits)
                    && ExactAsRead(p, root, query, snapshot.nodes)
                    && Covers(p, root, query, snapshot.nodes)
                    && (query.lower("") == "" ==>
                          (Exact(p, root, query, snapshot.nodes) <==> NothingDropped(p, root, query))))
              && (query.lower("") == "" ==>
                    forall k :: 0 <= k < |snapshot.nodes| ==> Meets(query, snapshot.nodes[k]))
              && (snapshot.truncated ==> Disturbed(env, moment) || Justified(p, query, visits, snapshot.nodes))
  {
    hide Consistent, Exact, ExactAsRead, NothingDropped, Complete, Tree, Report, Justified, Yields, CutBy;
    hide Covers, Meets, InScope, Truthful, Honest, Children, ChildEntries, AsRead;
    var owner := root.Name();
    var nodes: seq<Node> := [];
    var truncated := false;
    var visitedNodes := 0;
    var pending := [Entry(root, None, 0)];
    var visited: set<ObjectRef> := {};
    moment := 0;
    visits, limitReached := [], false;
    StartStep(p, root, query);
    ghost var s := Progress(visits, pending, visited, nodes, truncated, false);
    while pending != []
      invariant s == Progress(visits, pending, visited, nodes, truncated, s.late)
      invariant s.late ==> Disturbed(env, moment)
      invariant Consistent(p, root, query, s)
      invariant visitedNodes == |visits| && !limitReached
      decreases MAX_VISITED_NODES - |visited|, |pending|
    {
      Bounds(p, root, query, s);
      var Entry(item, parent, depth) := pending[0];
      pending := pending[1..];
      moment := moment + 1;
      if !env.authorized(moment) {
        TreeSoFar(p, root, query, s);
        result := Failure(Unauthorized);
        return;
      }
      limitReached := |visited| >= MAX_VISITED_NODES;
      if !env.OnTime(moment) || |nodes| >= query.maxNodes || |visited| >= MAX_VISITED_NODES {
        StopStep(p, root, query, s, !env.OnTime(moment));
        s := s.(truncated := true, late := s.late || !env.OnTime(moment));
        truncated := true;
        break;
      }
      if item == Null || item in visited {
        SkipStep(p, root, query, s);
        s := s.(pending := pending);
        continue;
      }
      visited := visited + {item};
      if item.Name() != owner {
        ForeignStep(p, root, query, s);
        s := s.(pending := pending, visited := visited, truncated := true);
        truncated := true;
        continue;
      }
      var id := visitedNodes;
      visitedNodes := visitedNodes + 1;
      var room := MAX_VISITED_NODES - (|visited| + |pending|);
      var outcome, reading, found, children, cut;
      outcome, reading, found, children, cut, moment := Inspect(p, env, moment, query, item, id, parent, depth, room);
      match outcome {
        case Aborted(error) =>
          assert if error == Unauthorized then !env.authorized(moment) else !env.busWorks(moment);
          TreeSoFar(p, root, query, s);
          result := Failure(error);
          return;
        case TimedOut =>
          StopStep(p, root, query, s, true);
          s := s.(truncated := true, late := true);
          truncated := true;
          break;
        case Inspected =>
      }
      var visit := Visit(item, parent, depth, reading);
      VisitStep(p, root, query, s, visit, found, children, cut, Disturbed(env, moment));
      visits := visits + [visit];
      nodes := nodes + found;
      pending := pending + children;
      truncated := truncated || cut;
      s := Progress(visits, pending, visited, nodes, truncated, s.late || Disturbed(env, moment));
    }
    Concluding(p, root, query, s);
    moment := moment + 1;
    if !env.authorized(moment) {
      result := Failure(Unauthorized);
      return;
    }
    result := Success(Snapshot(nodes, truncated, visitedNodes));
  }

  // ---------------------------------------------------------------------
  // An object that goes missing in silence
  // ---------------------------------------------------------------------

  const WINDOW := Object("editor", "/window")
  const BUTTON := Object("editor", "/window/save")

  /** An unnamed window with one button, called Save, whose name cannot be read. */
  const EDITOR := Provider(
    (o: ObjectRef) => Answer(if o == BUTTON then "button" else "frame", true),
    (o: ObjectRef) => Answer(if o == BUTTON then "Save" else "", o != BUTTON),
    (o: ObjectRef) => Answer("", true),
    (o: ObjectRef) => Answer(true, true),
    (o: ObjectRef) => Some(if o == WINDOW then 1 else 0),
    (o: ObjectRef, i: nat) => if o == WINDOW && i == 0 then Some(BUTTON) else None)

  const SAVE := Query(256, 24, None, Some("save"), (s: string) => if s == "Save" then "save" else s)

  lemma OnlyTheButtonHangsBelow(a: ObjectRef, b: ObjectRef)
    ensures Edge(EDITOR, a, b) <==> a == WINDOW && b == BUTTON
  {
    if a == WINDOW && b == BUTTON {
      assert Count(EDITOR, WINDOW) == 1 && EDITOR.child(WINDOW, 0) == Some(BUTTON);
    }
  }

  lemma EditorVisit(visits: seq<Visit>, i: nat)
    requires Tree(EDITOR, WINDOW, visits) && i < |visits|
    ensures visits[i].item == WINDOW || visits[i].item == BUTTON
    ensures !Obstacle(EDITOR, SAVE, visits[i])
  {
    var v := visits[i];
    assert Placed(EDITOR, WINDOW, visits, i, v);
    if v.parent.Some? {
      OnlyTheButtonHangsBelow(visits[v.parent.value].item, v.item);
    }
    forall b | Edge(EDITOR, v.item, b)
      ensures !Foreign(v.item, b)
    {
      OnlyTheButtonHangsBelow(v.item, b);
    }
    NothingIsReadable(v.item);
  }

  lemma {:induction false} FewReferences(visits: seq<Visit>)
    ensures References(EDITOR, visits) <= 1 + |visits|
  {
    if visits != [] {
      FewReferences(visits[..|visits| - 1]);
    }
  }

  lemma NothingIsReadable(o: ObjectRef)
    ensures !Readable(EDITOR, SAVE, o) && ReadingOf(EDITOR, SAVE, o).Read?
  {
    assert !Within("", "save");
  }

  lemma NoReasonToStop(visits: seq<Visit>)
    requires Tree(EDITOR, WINDOW, visits)
    ensures !Justified(EDITOR, SAVE, visits, Report(SAVE, visits))
  {
    forall i | 0 <= i < |visits|
      ensures visits[i].item == WINDOW || visits[i].item == BUTTON
      ensures !Obstacle(EDITOR, SAVE, visits[i])
    {
      EditorVisit(visits, i);
    }
    assert Items(visits) <= {WINDOW, BUTTON};
    ItemsCount(visits, {WINDOW, BUTTON});
    FewReferences(visits);
  }

  /** The button is asked for and reachable; the report lacks it and still claims to be complete. */
  method SaveGoesMissing() returns (snapshot: Snapshot)
    ensures Reachable(EDITOR, WINDOW, BUTTON) && Wanted(EDITOR, SAVE, BUTTON) && Dropped(EDITOR, SAVE, BUTTON)
    ensures snapshot.nodes == [] && !snapshot.truncated
  {
    hide ExactAsRead, Exact, Covers, NothingDropped, Complete, Truthful, Meets, InScope, Tree, Reachable, Justified;
    hide Readable, Wanted, Dropped, Report;
    var env := Environment(_ => true, None, _ => true);
    var result, moment;
    ghost var visits, limitReached;
    result, moment, visits, limitReached := Traverse(EDITOR, env, WINDOW, SAVE);
    snapshot := result.value;
    NoReasonToStop(visits);
    ButtonIsDropped();
    NothingIsListed(snapshot.nodes);
  }

  lemma NothingIsListed(nodes: seq<Node>)
    requires ExactAsRead(EDITOR, WINDOW, SAVE, nodes)
    ensures nodes == []
  {
    forall o
      ensures !Readable(EDITOR, SAVE, o)
    {
      NothingIsReadable(o);
    }
    var objects :| Lists(EDITOR, WINDOW, nodes, objects) && AreReadable(EDITOR, WINDOW, SAVE, objects);
    DifferentCount(objects);
    assert (set o | o in objects) == {};
  }

  lemma ButtonIsDropped()
    ensures Reachable(EDITOR, WINDOW, BUTTON) && Wanted(EDITOR, SAVE, BUTTON) && Dropped(EDITOR, SAVE, BUTTON)
  {
    OnlyTheButtonHangsBelow(WINDOW, BUTTON);
    assert Walk(EDITOR, WINDOW, WINDOW, 0) && Walk(EDITOR, WINDOW, BUTTON, 1);
    assert At("save", "save", 0) && !Within("", "save");
  }
}
