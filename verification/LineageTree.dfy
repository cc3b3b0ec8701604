/**
 Depth-first listing of a lineage graph, which may hold cycles, self-loops,
 parallel edges and edges to unknown nodes. Ids and times are numbers that stand
 for their place in collation order.
 */
module LineageTree {
  import opened Wrappers

  type Id = int

  datatype Node = Node(id: Id, createdAt: int)

  datatype Edge = Edge(id: int, from: Id, to: Id, kind: int)

  datatype Row = Row(node: Node, depth: nat, incoming: Option<Edge>)

  const MAX_DEPTH := 4

  // ------------------------------------------------------------------------- sort

  ghost predicate TotalOrder<T(!new)>(leq: (T, T) -> bool) {
    && (forall x, y :: leq(x, y) || leq(y, x))
    && (forall x, y, z :: leq(x, y) && leq(y, z) ==> leq(x, z))
  }

  function Insert<T(!new)>(x: T, s: seq<T>, leq: (T, T) -> bool): (r: seq<T>)
    ensures forall y :: y in r <==> y == x || y in s
    ensures |r| == |s| + 1
  {
    if s == [] then [x]
    else if leq(x, s[0]) then [x] + s
    else [s[0]] + Insert(x, s[1..], leq)
  }

  /** A stable sort. */
  function Sort<T(!new)>(s: seq<T>, leq: (T, T) -> bool): (r: seq<T>)
    ensures forall y :: y in r <==> y in s
    ensures |r| == |s|
  {
    if s == [] then [] else Insert(s[0], Sort(s[1..], leq), leq)
  }

  ghost predicate Sorted<T>(s: seq<T>, leq: (T, T) -> bool) {
    forall i, j :: 0 <= i < j < |s| ==> leq(s[i], s[j])
  }

  lemma {:induction false} InsertSorted<T(!new)>(x: T, s: seq<T>, leq: (T, T) -> bool)
    requires TotalOrder(leq) && Sorted(s, leq)
    ensures Sorted(Insert(x, s, leq), leq)
  {
    if s != [] && !leq(x, s[0]) {
      InsertSorted(x, s[1..], leq);
      var rest := Insert(x, s[1..], leq);
      forall j | 0 <= j < |rest| ensures leq(s[0], rest[j]) {
        assert rest[j] in rest;
      }
    }
  }

  lemma {:induction false} SortSorted<T(!new)>(s: seq<T>, leq: (T, T) -> bool)
    requires TotalOrder(leq)
    ensures Sorted(Sort(s, leq), leq)
  {
    if s != [] {
      SortSorted(s[1..], leq);
      InsertSorted(s[0], Sort(s[1..], leq), leq);
    }
  }

  function NodeLeq(): (Node, Node) -> bool {
    (a: Node, b: Node) => a.createdAt < b.createdAt || (a.createdAt == b.createdAt && a.id <= b.id)
  }

  /** Edges by their target node, then by kind, then by id. */
  function EdgeLeq(byId: map<Id, Node>): (Edge, Edge) -> bool {
    (a: Edge, b: Edge) =>
      var x, y := TimeOf(byId, a.to), TimeOf(byId, b.to);
      x < y || (x == y && (a.to < b.to || (a.to == b.to &&
        (a.kind < b.kind || (a.kind == b.kind && a.id <= b.id)))))
  }

  function TimeOf(byId: map<Id, Node>, id: Id): int {
    if id in byId then byId[id].createdAt else 0
  }

  // ------------------------------------------------------------------------ graph

  ghost predicate DistinctIds(nodes: seq<Node>) {
    forall i, j :: 0 <= i < |nodes| && 0 <= j < |nodes| && nodes[i].id == nodes[j].id ==> i == j
  }

  function ById(nodes: seq<Node>): (m: map<Id, Node>)
    ensures forall n :: n in nodes ==> n.id in m
    ensures forall id :: id in m ==> m[id] in nodes && m[id].id == id
  {
    if nodes == [] then map[]
    else
      var n := |nodes| - 1;
      assert forall x :: x in nodes ==> x in nodes[..n] || x == nodes[n];
      ById(nodes[..n])[nodes[n].id := nodes[n]]
  }

  function EdgesFrom(edges: seq<Edge>, id: Id): seq<Edge> {
    if edges == [] then []
    else
      var n := |edges| - 1;
      EdgesFrom(edges[..n], id) + (if edges[n].from == id then [edges[n]] else [])
  }

  function EdgesTo(edges: seq<Edge>, id: Id): seq<Edge> {
    if edges == [] then []
    else
      var n := |edges| - 1;
      EdgesTo(edges[..n], id) + (if edges[n].to == id then [edges[n]] else [])
  }

  lemma {:induction false} EdgesMembers(edges: seq<Edge>, id: Id)
    ensures forall e :: e in EdgesFrom(edges, id) <==> e in edges && e.from == id
    ensures forall e :: e in EdgesTo(edges, id) <==> e in edges && e.to == id
  {
    if edges != [] {
      EdgesMembers(edges[..|edges| - 1], id);
      assert edges == edges[..|edges| - 1] + [edges[|edges| - 1]];
    }
  }

  lemma EdgesSnoc(edges: seq<Edge>, i: nat, id: Id)
    requires i < |edges|
    ensures EdgesFrom(edges[..i + 1], id) ==
            EdgesFrom(edges[..i], id) + (if edges[i].from == id then [edges[i]] else [])
    ensures EdgesTo(edges[..i + 1], id) ==
            EdgesTo(edges[..i], id) + (if edges[i].to == id then [edges[i]] else [])
  {
    assert edges[..i + 1][..i] == edges[..i];
  }

  function Get(m: map<Id, seq<Edge>>, id: Id): seq<Edge> {
    if id in m then m[id] else []
  }

  function ValidEdges(edges: seq<Edge>, byId: map<Id, Node>): (r: seq<Edge>)
    ensures forall e :: e in r <==> e in edges && e.from in byId && e.to in byId
  {
    if edges == [] then []
    else (if edges[0].from in byId && edges[0].to in byId then [edges[0]] else [])
         + ValidEdges(edges[1..], byId)
  }

  /** One more edge in the map that files edges under a key. */
  function Filed(m: map<Id, seq<Edge>>, key: Id, e: Edge): map<Id, seq<Edge>> {
    m[key := Get(m, key) + [e]]
  }

  lemma AdjacencyStep(edges: seq<Edge>, i: nat, to: map<Id, seq<Edge>>, from: map<Id, seq<Edge>>)
    requires i < |edges|
    requires forall id :: Get(to, id) == EdgesTo(edges[..i], id)
    requires forall id :: Get(from, id) == EdgesFrom(edges[..i], id)
    ensures forall id :: Get(Filed(to, edges[i].to, edges[i]), id) == EdgesTo(edges[..i + 1], id)
    ensures forall id :: Get(Filed(from, edges[i].from, edges[i]), id) == EdgesFrom(edges[..i + 1], id)
  {
    var e := edges[i];
    forall id ensures Get(Filed(to, e.to, e), id) == EdgesTo(edges[..i + 1], id) {
      EdgesSnoc(edges, i, id);
    }
    forall id ensures Get(Filed(from, e.from, e), id) == EdgesFrom(edges[..i + 1], id) {
      EdgesSnoc(edges, i, id);
    }
  }

  method Adjacency(edges: seq<Edge>)
    returns (incoming: map<Id, seq<Edge>>, outgoing: map<Id, seq<Edge>>)
    ensures forall id :: Get(incoming, id) == EdgesTo(edges, id)
    ensures forall id :: Get(outgoing, id) == EdgesFrom(edges, id)
  {
    incoming, outgoing := map[], map[];
    for i := 0 to |edges|
      invariant forall id :: Get(incoming, id) == EdgesTo(edges[..i], id)
      invariant forall id :: Get(outgoing, id) == EdgesFrom(edges[..i], id)
    {
      AdjacencyStep(edges, i, incoming, outgoing);
      incoming := Filed(incoming, edges[i].to, edges[i]);
      outgoing := Filed(outgoing, edges[i].from, edges[i]);
    }
    assert edges[..|edges|] == edges;
  }

  // ------------------------------------------------------- what a listing must be

  /** The known nodes by id, and the edges both of whose ends are known. */
  datatype Graph = Graph(byId: map<Id, Node>, edges: seq<Edge>)

  function GraphOf(nodes: seq<Node>, edges: seq<Edge>): Graph {
    Graph(ById(nodes), ValidEdges(edges, ById(nodes)))
  }

  predicate Knows(g: Graph, node: Node) {
    node.id in g.byId && g.byId[node.id] == node
  }

  predicate IsRoot(g: Graph, id: Id) {
    forall e :: e in g.edges ==> e.to != id
  }

  function Capped(depth: nat): nat {
    if depth + 1 < MAX_DEPTH then depth + 1 else MAX_DEPTH
  }

  predicate From(row: Row, id: Id) {
    row.incoming.Some? && row.incoming.value.from == id
  }

  /** Row i hangs under an earlier row, by its incoming edge, one level deeper. */
  ghost predicate HangsUnder(rows: seq<Row>, i: nat, parent: nat)
    requires i < |rows|
  {
    && parent < i && From(rows[i], rows[parent].node.id)
    && rows[i].node.id == rows[i].incoming.value.to
    && rows[i].depth == if rows[parent].depth < 3 then rows[parent].depth + 1 else 4
  }

  /** Row i starts a tree: no edge leads to it from any row listed before it. */
  ghost predicate StartsTree(g: Graph, rows: seq<Row>, i: nat)
    requires i < |rows|
  {
    && rows[i].depth == 0
    && forall e, j :: e in g.edges && 0 <= j < i && e.from == rows[j].node.id ==> e.to != rows[i].node.id
  }

  ghost predicate RowFits(g: Graph, rows: seq<Row>, i: nat)
    requires i < |rows|
  {
    && Knows(g, rows[i].node)
    && (rows[i].incoming.None? ==> StartsTree(g, rows, i))
    && (rows[i].incoming.Some? ==> rows[i].incoming.value in g.edges && exists p: nat :: HangsUnder(rows, i, p))
  }

  ghost predicate ListedOnce(rows: seq<Row>) {
    forall i, j :: 0 <= i < j < |rows| ==> rows[i].node.id != rows[j].node.id
  }

  ghost predicate SiblingsOrdered(g: Graph, rows: seq<Row>) {
    forall i, j :: 0 <= i < j < |rows| && rows[i].incoming.Some? && rows[j].incoming.Some?
                   && rows[i].incoming.value.from == rows[j].incoming.value.from
      ==> EdgeLeq(g.byId)(rows[i].incoming.value, rows[j].incoming.value)
  }

  /** Trees that start at a root come first, in order; the rest follow, in order. */
  ghost predicate TreesOrdered(g: Graph, rows: seq<Row>) {
    forall i, j :: 0 <= i < j < |rows| && rows[i].incoming.None? && rows[j].incoming.None?
      ==> TreeLeq(g, rows[i].node, rows[j].node)
  }

  predicate TreeLeq(g: Graph, a: Node, b: Node) {
    if IsRoot(g, a.id) == IsRoot(g, b.id) then NodeLeq()(a, b) else IsRoot(g, a.id)
  }

  /** Between a row and a row that hangs under it stand only rows of its own subtree. */
  ghost predicate DepthFirst(rows: seq<Row>) {
    forall p, k, i :: 0 <= p < k < i < |rows| && From(rows[i], rows[p].node.id) ==> Within(rows, p, k)
  }

  /** Row k hangs under row p or under a row after it. */
  ghost predicate Within(rows: seq<Row>, p: nat, k: nat)
    requires p < k < |rows|
  {
    rows[k].incoming.Some? && forall q :: 0 <= q < p ==> !From(rows[k], rows[q].node.id)
  }

  ghost predicate Listing(g: Graph, rows: seq<Row>) {
    && ListedOnce(rows)
    && DepthFirst(rows)
    && (forall i: nat :: i < |rows| ==> RowFits(g, rows, i))
    && SiblingsOrdered(g, rows)
    && TreesOrdered(g, rows)
  }

  // ------------------------------------------------------------- a walk in progress

  /** `seen` are the ids listed so far. */
  ghost predicate Records(rows: seq<Row>, seen: set<Id>) {
    && (forall i :: 0 <= i < |rows| ==> rows[i].node.id in seen)
    && (forall id :: id in seen ==> exists i :: 0 <= i < |rows| && rows[i].node.id == id)
  }

  /** Every successor of these nodes has been listed. */
  ghost predicate Closed(g: Graph, ids: set<Id>, seen: set<Id>) {
    forall e :: e in g.edges && e.from in ids ==> e.to in seen
  }

  ghost predicate InPlace(rows: seq<Row>, e: Edge, depth: nat, parent: nat) {
    && parent < |rows| && rows[parent].node.id == e.from && depth == Capped(rows[parent].depth)
    && forall k: nat :: parent < k < |rows| ==> Within(rows, parent, k)
  }

  /** A row for this node, depth and edge may be added now. */
  ghost predicate Admits(g: Graph, rows: seq<Row>, seen: set<Id>, node: Node, depth: nat, via: Option<Edge>) {
    match via
    case None =>
      && depth == 0 && Closed(g, seen, seen)
      && (forall i :: 0 <= i < |rows| && rows[i].incoming.None? ==> TreeLeq(g, rows[i].node, node))
    case Some(e) =>
      && e in g.edges && e.to == node.id
      && (exists p: nat :: InPlace(rows, e, depth, p))
      && (forall i :: 0 <= i < |rows| && From(rows[i], e.from) ==> EdgeLeq(g.byId)(rows[i].incoming.value, e))
  }

  lemma RowStillFits(g: Graph, rows: seq<Row>, row: Row, i: nat)
    requires i < |rows| && RowFits(g, rows, i)
    ensures RowFits(g, rows + [row], i)
  {
    if rows[i].incoming.Some? {
      var p: nat :| HangsUnder(rows, i, p);
      assert HangsUnder(rows + [row], i, p);
    }
  }

  lemma NewRowFits(g: Graph, rows: seq<Row>, seen: set<Id>, node: Node, depth: nat, via: Option<Edge>)
    requires Records(rows, seen) && Knows(g, node) && node.id !in seen
    requires Admits(g, rows, seen, node, depth, via)
    ensures RowFits(g, rows + [Row(node, depth, via)], |rows|)
  {
    if via.Some? {
      var p: nat :| InPlace(rows, via.value, depth, p);
      assert HangsUnder(rows + [Row(node, depth, via)], |rows|, p);
    }
  }

  lemma PushKeepsDepthFirst(g: Graph, rows: seq<Row>, seen: set<Id>, node: Node, depth: nat, via: Option<Edge>)
    requires ListedOnce(rows) && DepthFirst(rows) && Admits(g, rows, seen, node, depth, via)
    ensures DepthFirst(rows + [Row(node, depth, via)])
  {
    var more := rows + [Row(node, depth, via)];
    forall p, k, i | 0 <= p < k < i < |more| && From(more[i], more[p].node.id) ensures Within(more, p, k) {
      if i == |rows| {
        var parent: nat :| InPlace(rows, via.value, depth, parent);
        assert p == parent;
      }
      assert Within(rows, p, k);
    }
  }

  lemma PushKeepsOrder(g: Graph, rows: seq<Row>, seen: set<Id>, node: Node, depth: nat, via: Option<Edge>)
    requires SiblingsOrdered(g, rows) && TreesOrdered(g, rows) && Admits(g, rows, seen, node, depth, via)
    ensures SiblingsOrdered(g, rows + [Row(node, depth, via)])
    ensures TreesOrdered(g, rows + [Row(node, depth, via)])
  {
    var more := rows + [Row(node, depth, via)];
    forall i, j | 0 <= i < j < |more| && more[i].incoming.Some? && more[j].incoming.Some?
                  && more[i].incoming.value.from == more[j].incoming.value.from
      ensures EdgeLeq(g.byId)(more[i].incoming.value, more[j].incoming.value)
    {
      if j == |rows| {
        assert From(rows[i], via.value.from);
      }
    }
  }

  lemma PushKeepsListing(g: Graph, rows: seq<Row>, seen: set<Id>, node: Node, depth: nat, via: Option<Edge>)
    requires Listing(g, rows) && Records(rows, seen)
    requires Knows(g, node) && node.id !in seen && Admits(g, rows, seen, node, depth, via)
    ensures Listing(g, rows + [Row(node, depth, via)])
    ensures Records(rows + [Row(node, depth, via)], seen + {node.id})
  {
    var more := rows + [Row(node, depth, via)];
    NewRowFits(g, rows, seen, node, depth, via);
    PushKeepsDepthFirst(g, rows, seen, node, depth, via);
    forall i: nat | i < |more| ensures RowFits(g, more, i) {
      if i < |rows| {
        RowStillFits(g, rows, Row(node, depth, via), i);
      }
    }
    PushKeepsOrder(g, rows, seen, node, depth, via);
    assert more[|rows|].node.id == node.id;
    forall id | id in seen ensures exists i :: 0 <= i < |more| && more[i].node.id == id {
      var i :| 0 <= i < |rows| && rows[i].node.id == id;
      assert more[i].node.id == id;
    }
  }

  /** A node that is not listed is nobody's parent yet. */
  lemma NoChildrenYet(g: Graph, rows: seq<Row>, seen: set<Id>, id: Id)
    requires Listing(g, rows) && Records(rows, seen) && id !in seen
    ensures forall i :: 0 <= i < |rows| ==> !From(rows[i], id)
  {
    forall i: nat | i < |rows| && rows[i].incoming.Some? ensures !From(rows[i], id) {
      assert RowFits(g, rows, i);
      var p: nat :| HangsUnder(rows, i, p);
    }
  }

  /** What a visit adds: the node's own row, then rows under nodes that it also added. */
  ghost predicate Grew(rows: seq<Row>, seen: set<Id>, row: Row, rows': seq<Row>, seen': set<Id>) {
    && rows + [row] <= rows'
    && seen + {row.node.id} <= seen'
    && (forall i :: |rows| < i < |rows'| ==> rows'[i].incoming.Some? && rows'[i].incoming.value.from in seen' - seen)
  }

  /** The rows under a node are its children visited so far. */
  ghost predicate ChildrenOnly(rows: seq<Row>, id: Id, children: seq<Edge>) {
    forall j :: 0 <= j < |rows| && From(rows[j], id) ==> rows[j].incoming.value in children
  }

  lemma FirstRow(g: Graph, rows: seq<Row>, seen: set<Id>, row: Row)
    requires Listing(g, rows) && Records(rows, seen) && row.node.id !in seen
    requires Admits(g, rows, seen, row.node, row.depth, row.incoming)
    ensures Grew(rows, seen, row, rows + [row], seen + {row.node.id})
    ensures ChildrenOnly(rows + [row], row.node.id, [])
  {
    NoChildrenYet(g, rows, seen, row.node.id);
  }

  /** The next child of a node whose row comes first after `rows` may be visited. */
  lemma ChildIsAdmitted(g: Graph, rows: seq<Row>, seen: set<Id>, row: Row, mid: seq<Row>, midSeen: set<Id>,
                        children: seq<Edge>, i: nat)
    requires Records(rows, seen) && Grew(rows, seen, row, mid, midSeen) && i < |children|
    requires Sorted(children, EdgeLeq(g.byId)) && ChildrenOnly(mid, row.node.id, children[..i])
    requires children[i] in g.edges && children[i].from == row.node.id
    requires children[i].to in g.byId && g.byId[children[i].to].id == children[i].to
    ensures Admits(g, mid, midSeen, g.byId[children[i].to], Capped(row.depth), Some(children[i]))
  {
    assert mid[|rows|] == (rows + [row])[|rows|];
    assert InPlace(mid, children[i], Capped(row.depth), |rows|);
    forall j | 0 <= j < |mid| && From(mid[j], row.node.id)
      ensures EdgeLeq(g.byId)(mid[j].incoming.value, children[i])
    {
      var k :| 0 <= k < i && children[..i][k] == mid[j].incoming.value;
    }
  }

  /** These are the node's edges, in order. */
  ghost predicate ChildrenOf(g: Graph, id: Id, children: seq<Edge>) {
    (forall e :: e in children <==> e in g.edges && e.from == id) && Sorted(children, EdgeLeq(g.byId))
  }

  /** Since `rows` the node's own row was added, and its first i children were visited. */
  ghost predicate Visiting(g: Graph, rows: seq<Row>, seen: set<Id>, row: Row, mid: seq<Row>, midSeen: set<Id>,
                           children: seq<Edge>, i: nat)
    requires i <= |children|
  {
    && row.node.id !in seen && Grew(rows, seen, row, mid, midSeen)
    && Closed(g, midSeen - seen - {row.node.id}, midSeen)
    && (forall j :: 0 <= j < i ==> children[j].to in midSeen)
    && ChildrenOnly(mid, row.node.id, children[..i])
  }

  lemma VisitingStarts(g: Graph, rows: seq<Row>, seen: set<Id>, row: Row, children: seq<Edge>)
    requires Listing(g, rows) && Records(rows, seen) && row.node.id !in seen
    requires Admits(g, rows, seen, row.node, row.depth, row.incoming)
    ensures Visiting(g, rows, seen, row, rows + [row], seen + {row.node.id}, children, 0)
  {
    FirstRow(g, rows, seen, row);
    assert children[..0] == [];
  }

  lemma NextChildIsAdmitted(g: Graph, rows: seq<Row>, seen: set<Id>, row: Row, mid: seq<Row>, midSeen: set<Id>,
                            children: seq<Edge>, i: nat)
    requires WellFormed(g) && Records(rows, seen) && i < |children| && ChildrenOf(g, row.node.id, children)
    requires Visiting(g, rows, seen, row, mid, midSeen, children, i)
    ensures children[i].to in g.byId
    ensures Admits(g, mid, midSeen, g.byId[children[i].to], Capped(row.depth), Some(children[i]))
  {
    assert children[i] in children;
    ChildIsAdmitted(g, rows, seen, row, mid, midSeen, children, i);
  }

  /** With a known node listed, fewer nodes are left to visit. */
  lemma FewerLeft(g: Graph, before: set<Id>, seen: set<Id>, node: Node)
    requires WellFormed(g) && Knows(g, node)
    requires before + {node.id} <= seen && node.id !in before
    ensures g.byId.Keys - seen < g.byId.Keys - before
  {
    assert node.id in g.byId.Keys - before && node.id !in g.byId.Keys - seen;
  }

  lemma VisitingStep(g: Graph, rows: seq<Row>, seen: set<Id>, row: Row, mid: seq<Row>, midSeen: set<Id>,
                     rows': seq<Row>, seen': set<Id>, children: seq<Edge>, i: nat)
    requires WellFormed(g) && i < |children| && ChildrenOf(g, row.node.id, children) && children[i].to in g.byId
    requires Visiting(g, rows, seen, row, mid, midSeen, children, i)
    requires var child := Row(g.byId[children[i].to], Capped(row.depth), Some(children[i]));
             if children[i].to in midSeen then rows' == mid && seen' == midSeen
             else Grew(mid, midSeen, child, rows', seen')
    requires Closed(g, seen' - midSeen, seen')
    ensures Visiting(g, rows, seen, row, rows', seen', children, i + 1)
  {
    var child := Row(g.byId[children[i].to], Capped(row.depth), Some(children[i]));
    assert children[i] in children;
  }

  lemma VisitingEnds(g: Graph, rows: seq<Row>, seen: set<Id>, row: Row, rows': seq<Row>, seen': set<Id>,
                     children: seq<Edge>)
    requires ChildrenOf(g, row.node.id, children)
    requires Visiting(g, rows, seen, row, rows', seen', children, |children|)
    ensures Grew(rows, seen, row, rows', seen') && Closed(g, seen' - seen, seen')
  {
  }

  // ------------------------------------------------------------------------- walk

  class Walk {
    const g: Graph
    const outgoing: map<Id, seq<Edge>>
    var seen: set<Id>
    var result: seq<Row>

    constructor (g: Graph, outgoing: map<Id, seq<Edge>>)
      requires WellFormed(g) && forall id :: Get(outgoing, id) == EdgesFrom(g.edges, id)
      ensures this.g == g && this.outgoing == outgoing
      ensures seen == {} && result == [] && Valid()
    {
      this.g, this.outgoing := g, outgoing;
      seen, result := {}, [];
    }

    ghost predicate Valid()
      reads this
    {
      && WellFormed(g)
      && (forall id :: Get(outgoing, id) == EdgesFrom(g.edges, id))
      && Listing(g, result) && Records(result, seen)
    }

    method Push(node: Node, depth: nat, via: Option<Edge>)
      requires Valid() && Knows(g, node) && node.id !in seen && Admits(g, result, seen, node, depth, via)
      modifies this
      ensures Valid()
      ensures seen == old(seen) + {node.id}
      ensures result == old(result) + [Row(node, depth, via)]
    {
      PushKeepsListing(g, result, seen, node, depth, via);
      seen := seen + {node.id};
      result := result + [Row(node, depth, via)];
    }

    method Children(id: Id) returns (children: seq<Edge>)
      requires Valid()
      ensures ChildrenOf(g, id, children)
    {
      children := Sort(Get(outgoing, id), EdgeLeq(g.byId));
      EdgesMembers(g.edges, id);
      SortSorted(Get(outgoing, id), EdgeLeq(g.byId));
    }

    method Visit(node: Node, depth: nat, via: Option<Edge>)
      requires Valid() && Knows(g, node)
      requires node.id !in seen ==> Admits(g, result, seen, node, depth, via)
      modifies this
      ensures Valid()
      ensures node.id in old(seen) ==> result == old(result) && seen == old(seen)
      ensures node.id !in old(seen) ==> Grew(old(result), old(seen), Row(node, depth, via), result, seen)
      ensures Closed(g, seen - old(seen), seen)
      decreases g.byId.Keys - seen, 0
    {
      if node.id in seen {
        return;
      }
      ghost var row, rows, before := Row(node, depth, via), result, seen;
      Push(node, depth, via);
      var children := Children(node.id);
      VisitingStarts(g, rows, before, row, children);
      for i := 0 to |children|
        invariant Valid() && Visiting(g, rows, before, row, result, seen, children, i)
      {
        FewerLeft(g, before, seen, node);
        VisitChild(depth, children, i, rows, before, row);
      }
      VisitingEnds(g, rows, before, row, result, seen, children);
    }

    /** One turn of the loop over the children of the node in `row`. */
    method VisitChild(depth: nat, children: seq<Edge>, i: nat,
                      ghost rows: seq<Row>, ghost before: set<Id>, ghost row: Row)
      requires Valid() && i < |children| && row.depth == depth && Records(rows, before)
      requires ChildrenOf(g, row.node.id, children)
      requires Visiting(g, rows, before, row, result, seen, children, i)
      modifies this
      ensures Valid() && Visiting(g, rows, before, row, result, seen, children, i + 1)
      decreases g.byId.Keys - seen, 1
    {
      var edge := children[i];
      ghost var mid, midSeen := result, seen;
      NextChildIsAdmitted(g, rows, before, row, mid, midSeen, children, i);
      Visit(g.byId[edge.to], Capped(depth), Some(edge));
      VisitingStep(g, rows, before, row, mid, midSeen, result, seen, children, i);
    }
  }

  ghost predicate WellFormed(g: Graph) {
    && (forall id :: id in g.byId ==> g.byId[id].id == id)
    && (forall e :: e in g.edges ==> e.from in g.byId && e.to in g.byId)
  }

  function Roots(nodes: seq<Node>, incoming: map<Id, seq<Edge>>): (r: seq<Node>)
    ensures forall n :: n in r <==> n in nodes && Get(incoming, n.id) == []
  {
    if nodes == [] then []
    else (if Get(incoming, nodes[0].id) == [] then [nodes[0]] else []) + Roots(nodes[1..], incoming)
  }

  lemma RootsAreRoots(nodes: seq<Node>, g: Graph, incoming: map<Id, seq<Edge>>, n: Node)
    requires n in nodes
    requires forall id :: Get(incoming, id) == EdgesTo(g.edges, id)
    ensures n in Roots(nodes, incoming) <==> IsRoot(g, n.id)
  {
    var to := Get(incoming, n.id);
    EdgesMembers(g.edges, n.id);
    if to != [] {
      assert to[0] in to;
    }
  }

  /** The nodes that start a tree are these. */
  ghost predicate StartedBy(rows: seq<Row>, nodes: seq<Node>) {
    forall i :: 0 <= i < |rows| && rows[i].incoming.None? ==> rows[i].node in nodes
  }

  lemma AllListed(nodes: seq<Node>, rows: seq<Row>)
    requires DistinctIds(nodes) && ListedOnce(rows)
    requires forall i :: 0 <= i < |rows| ==> rows[i].node in nodes
    requires forall n :: n in nodes ==> Lists(rows, n.id)
    ensures forall n :: n in nodes ==> exists i :: 0 <= i < |rows| && rows[i].node == n
    ensures |rows| == |nodes|
  {
    var listed := seq(|rows|, i requires 0 <= i < |rows| => rows[i].node);
    forall n | n in nodes ensures n in listed && exists i :: 0 <= i < |rows| && rows[i].node == n {
      var i :| 0 <= i < |rows| && rows[i].node.id == n.id;
      assert listed[i] == n;
    }
    SameLength(nodes, listed);
  }

  ghost predicate Lists(rows: seq<Row>, id: Id) {
    exists i :: 0 <= i < |rows| && rows[i].node.id == id
  }

  /** Lists without repetition that have the same members are equally long. */
  lemma SameLength(a: seq<Node>, b: seq<Node>)
    requires DistinctIds(a) && DistinctIds(b) && forall n :: n in a <==> n in b
    ensures |a| == |b|
  {
    DistinctLength(a);
    DistinctLength(b);
    assert (set n | n in a) == (set n | n in b);
  }

  lemma {:induction false} DistinctLength(nodes: seq<Node>)
    requires DistinctIds(nodes)
    ensures |set n | n in nodes| == |nodes|
  {
    if nodes != [] {
      var n := |nodes| - 1;
      DistinctLength(nodes[..n]);
      assert nodes == nodes[..n] + [nodes[n]];
      assert (set x | x in nodes) == (set x | x in nodes[..n]) + {nodes[n]};
    }
  }

  /** Visits the nodes in turn, each as the start of a tree unless it is listed already. */
  method VisitAll(walk: Walk, order: seq<Node>, ghost started: seq<Node>)
    requires walk.Valid() && Closed(walk.g, walk.seen, walk.seen) && StartedBy(walk.result, started)
    requires forall n :: n in order ==> Knows(walk.g, n)
    requires InTreeOrder(walk.g, walk.seen, started, order)
    modifies walk
    ensures walk.Valid() && Closed(walk.g, walk.seen, walk.seen)
    ensures StartedBy(walk.result, started + order)
    ensures old(walk.seen) <= walk.seen && forall n :: n in order ==> n.id in walk.seen
  {
    ghost var before := walk.seen;
    assert order[..0] == [] && started + [] == started;
    for k := 0 to |order|
      invariant walk.Valid() && Starting(walk.g, before, started, order, k, walk.result, walk.seen)
    {
      ghost var rows, seen := walk.result, walk.seen;
      if order[k].id !in seen {
        StartIsAdmitted(walk.g, before, started, order, k, rows, seen);
      }
      walk.Visit(order[k], 0, None);
      StartingStep(walk.g, before, started, order, k, rows, seen, walk.result, walk.seen);
    }
    assert order[..|order|] == order;
  }

  /** This node of the order has been visited, and started a tree. */
  ghost predicate StartedEarlier(order: seq<Node>, k: nat, before: set<Id>, node: Node)
    requires k <= |order|
  {
    exists j :: 0 <= j < k && order[j] == node && order[j].id !in before
  }

  ghost predicate Starting(g: Graph, before: set<Id>, started: seq<Node>, order: seq<Node>, k: nat,
                           rows: seq<Row>, seen: set<Id>)
    requires k <= |order|
  {
    && Closed(g, seen, seen) && StartedBy(rows, started + order[..k]) && before <= seen
    && (forall j :: 0 <= j < k ==> order[j].id in seen)
    && (forall i :: 0 <= i < |rows| && rows[i].incoming.None? ==>
          rows[i].node in started || StartedEarlier(order, k, before, rows[i].node))
  }

  /** The nodes still to start are in order, after those started before, and either all roots or none. */
  ghost predicate InTreeOrder(g: Graph, seen: set<Id>, started: seq<Node>, order: seq<Node>) {
    && Sorted(order, NodeLeq())
    && (forall n, m :: n in started && m in order && m.id !in seen ==> TreeLeq(g, n, m))
    && (forall i, j :: 0 <= i < j < |order| && order[i].id !in seen && order[j].id !in seen ==>
          IsRoot(g, order[i].id) == IsRoot(g, order[j].id))
  }

  lemma StartIsAdmitted(g: Graph, before: set<Id>, started: seq<Node>, order: seq<Node>, k: nat,
                        rows: seq<Row>, seen: set<Id>)
    requires k < |order| && Starting(g, before, started, order, k, rows, seen) && order[k].id !in seen
    requires InTreeOrder(g, before, started, order)
    ensures Admits(g, rows, seen, order[k], 0, None)
  {
    forall i | 0 <= i < |rows| && rows[i].incoming.None? ensures TreeLeq(g, rows[i].node, order[k]) {
      if rows[i].node !in started {
        var j :| 0 <= j < k && order[j] == rows[i].node && order[j].id !in before;
      }
    }
  }

  lemma StartingStep(g: Graph, before: set<Id>, started: seq<Node>, order: seq<Node>, k: nat,
                     rows: seq<Row>, seen: set<Id>, rows': seq<Row>, seen': set<Id>)
    requires k < |order| && Starting(g, before, started, order, k, rows, seen)
    requires if order[k].id in seen then rows' == rows && seen' == seen
             else Grew(rows, seen, Row(order[k], 0, None), rows', seen')
    requires Closed(g, seen' - seen, seen')
    ensures Starting(g, before, started, order, k + 1, rows', seen')
  {
    assert started + order[..k + 1] == (started + order[..k]) + [order[k]];
  }

  ghost predicate RootsOf(g: Graph, roots: seq<Node>, nodes: seq<Node>) {
    && (forall n :: n in roots ==> n in nodes)
    && (forall n :: n in nodes ==> (n in roots <==> IsRoot(g, n.id)))
  }

  lemma Ordered(nodes: seq<Node>, g: Graph, incoming: map<Id, seq<Edge>>, roots: seq<Node>, all: seq<Node>)
    requires forall id :: Get(incoming, id) == EdgesTo(g.edges, id)
    requires roots == Sort(Roots(nodes, incoming), NodeLeq()) && all == Sort(nodes, NodeLeq())
    ensures Sorted(roots, NodeLeq()) && Sorted(all, NodeLeq())
    ensures RootsOf(g, roots, all) && forall n :: n in all <==> n in nodes
  {
    SortSorted(Roots(nodes, incoming), NodeLeq());
    SortSorted(nodes, NodeLeq());
    forall n | n in nodes ensures n in roots <==> IsRoot(g, n.id) {
      RootsAreRoots(nodes, g, incoming, n);
    }
  }

  lemma ListedNodesAreGiven(nodes: seq<Node>, edges: seq<Edge>, rows: seq<Row>, seen: set<Id>)
    requires DistinctIds(nodes) && Listing(GraphOf(nodes, edges), rows) && Records(rows, seen)
    requires forall n :: n in nodes ==> n.id in seen
    ensures forall n :: n in nodes ==> exists i :: 0 <= i < |rows| && rows[i].node == n
    ensures |rows| == |nodes|
  {
    var g := GraphOf(nodes, edges);
    forall i | 0 <= i < |rows| ensures rows[i].node in nodes {
      assert RowFits(g, rows, i);
    }
    forall n | n in nodes ensures Lists(rows, n.id) {
      assert n.id in seen;
    }
    AllListed(nodes, rows);
  }

  /** Roots first, then whatever they did not reach. */
  method WalkFrom(g: Graph, outgoing: map<Id, seq<Edge>>, roots: seq<Node>, all: seq<Node>)
    returns (rows: seq<Row>, ghost seen: set<Id>)
    requires WellFormed(g) && forall id :: Get(outgoing, id) == EdgesFrom(g.edges, id)
    requires Sorted(roots, NodeLeq()) && Sorted(all, NodeLeq()) && RootsOf(g, roots, all)
    requires forall n :: n in all ==> Knows(g, n)
    ensures Listing(g, rows) && Records(rows, seen) && forall n :: n in all ==> n.id in seen
  {
    var walk := new Walk(g, outgoing);
    VisitAll(walk, roots, []);
    VisitAll(walk, all, roots);
    rows, seen := walk.result, walk.seen;
  }

  predicate Earlier(a: Node, b: Node) {
    a.createdAt < b.createdAt || (a.createdAt == b.createdAt && a.id <= b.id)
  }

  /** Siblings by time and id of their nodes; between edges to one node by kind and id of the edge. */
  predicate EdgeEarlier(a: Row, b: Row)
    requires a.incoming.Some? && b.incoming.Some?
  {
    if a.node.id != b.node.id then Earlier(a.node, b.node)
    else
      a.incoming.value.kind < b.incoming.value.kind
      || (a.incoming.value.kind == b.incoming.value.kind && a.incoming.value.id <= b.incoming.value.id)
  }

  /** Some edge between given nodes leads here. */
  ghost predicate LedTo(nodes: seq<Node>, edges: seq<Edge>, id: Id) {
    exists e, n :: e in edges && n in nodes && e.to == id && e.from == n.id
  }

  /** A listing read in the fields of the nodes and edges that were given. */
  lemma ListingByFields(nodes: seq<Node>, edges: seq<Edge>, rows: seq<Row>)
    requires DistinctIds(nodes) && Listing(GraphOf(nodes, edges), rows)
    ensures forall i :: 0 <= i < |rows| ==>
              && rows[i].node in nodes && rows[i].depth <= 4
              && (rows[i].incoming.None? ==> rows[i].depth == 0)
              && (rows[i].incoming.Some? ==> rows[i].incoming.value in edges && exists p :: HangsUnder(rows, i, p))
    ensures forall i, j :: 0 <= i < j < |rows| && rows[i].incoming.Some? && rows[j].incoming.Some?
                           && rows[i].incoming.value.from == rows[j].incoming.value.from
              ==> EdgeEarlier(rows[i], rows[j])
    ensures forall i, j :: 0 <= i < j < |rows| && rows[i].incoming.None? && rows[j].incoming.None? ==>
              if LedTo(nodes, edges, rows[i].node.id) == LedTo(nodes, edges, rows[j].node.id)
              then Earlier(rows[i].node, rows[j].node) else LedTo(nodes, edges, rows[j].node.id)
  {
    var g := GraphOf(nodes, edges);
    assert forall i: nat :: i < |rows| ==> RowFits(g, rows, i) && Knows(g, rows[i].node);
    forall i | 0 <= i < |rows| && rows[i].incoming.Some? ensures rows[i].depth <= 4 {
      var p: nat :| HangsUnder(rows, i, p);
    }
    forall i, j | 0 <= i < j < |rows| && rows[i].incoming.Some? && rows[j].incoming.Some?
                  && rows[i].incoming.value.from == rows[j].incoming.value.from
      ensures EdgeEarlier(rows[i], rows[j])
    {
      EdgesInOrder(g, rows[i], rows[j]);
    }
    forall i | 0 <= i < |rows| ensures IsRoot(g, rows[i].node.id) <==> !LedTo(nodes, edges, rows[i].node.id) {
      RootsAreNotLedTo(nodes, edges, rows[i].node);
    }
  }

  lemma EdgesInOrder(g: Graph, a: Row, b: Row)
    requires a.incoming.Some? && b.incoming.Some? && Knows(g, a.node) && Knows(g, b.node)
    requires a.incoming.value.to == a.node.id && b.incoming.value.to == b.node.id
    requires EdgeLeq(g.byId)(a.incoming.value, b.incoming.value)
    ensures EdgeEarlier(a, b)
  {
  }

  lemma RootsAreNotLedTo(nodes: seq<Node>, edges: seq<Edge>, node: Node)
    requires node in nodes
    ensures IsRoot(GraphOf(nodes, edges), node.id) <==> !LedTo(nodes, edges, node.id)
  {
    var g := GraphOf(nodes, edges);
    if e, n :| e in edges && n in nodes && e.to == node.id && e.from == n.id {
      assert e in g.edges;
    }
    if e :| e in g.edges && e.to == node.id {
      assert g.byId[e.from] in nodes;
    }
  }

  method OrderedTree(nodes: seq<Node>, edges: seq<Edge>) returns (rows: seq<Row>)
    requires DistinctIds(nodes)
    ensures Listing(GraphOf(nodes, edges), rows)
    ensures forall n :: n in nodes ==> exists i :: 0 <= i < |rows| && rows[i].node == n
    ensures |rows| == |nodes|
  {
    var g := GraphOf(nodes, edges);
    var incoming, outgoing := Adjacency(g.edges);
    var roots := Sort(Roots(nodes, incoming), NodeLeq());
    var all := Sort(nodes, NodeLeq());
    Ordered(nodes, g, incoming, roots, all);
    ghost var seen;
    rows, seen := WalkFrom(g, outgoing, roots, all);
    ListedNodesAreGiven(nodes, edges, rows, seen);
  }
}
