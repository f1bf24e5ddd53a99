/**
 The local critical path (Graph::getCriticalPath): a greedy walk backwards from an end node that
 follows the shortest non-blocking in-edge and falls back to a predecessor in the node list
 where a node has no such edge.
 */
module CriticalPath {
  import opened Common
  import opened NodeOrder
  import BinarySearch

  const INFINITE := 0xFFFF_FFFF_FFFF_FFFF

  datatype Edge = Edge(start: Node, end: Node, duration: nat, blocking: bool)

  // `inEdges` by node ID; `withCaller` are the IDs of nodes inside another region.
  datatype Graph = Graph(nodes: seq<Node>, inEdges: map<nat, seq<Edge>>, withCaller: set<nat>)

  // Weights are complementary to durations; durations zero and one weigh the same.
  function Weight(e: Edge): int {
    if e.blocking then INFINITE else INFINITE - if e.duration == 0 then 1 else e.duration
  }

  predicate IsReverse(e: Edge) { e.start.time > e.end.time }

  predicate Beats(e: Edge, maxWeight: int) {
    || (IsReverse(e) && e.start.stream != e.end.stream)
    || (!e.blocking && Weight(e) > maxWeight && Weight(e) != INFINITE)
  }

  // The in-edge the walk follows, and its weight.
  function Choose(edges: seq<Edge>): (int, Option<Edge>) {
    if edges == [] then (0, None)
    else
      var (w, c) := Choose(edges[..|edges| - 1]); var e := edges[|edges| - 1];
      if Beats(e, w) then (Weight(e), Some(e)) else (w, c)
  }

  function InEdges(g: Graph, n: Node): seq<Edge> { if n.id in g.inEdges then g.inEdges[n.id] else [] }

  // ----- Graphs the walk is meant for -----

  // Forward edges only, between nodes of the list, as long as the time they span.
  predicate EdgeOk(g: Graph, n: Node, e: Edge) {
    e.end == n && e.start in g.nodes && CompareLess(e.start, n) && e.duration == n.time - e.start.time < INFINITE
  }

  predicate HasEarlierOnStream(nodes: seq<Node>, p: nat)
    requires p < |nodes|
  {
    exists q :: 0 <= q < p && nodes[q].stream == nodes[p].stream
  }

  ghost predicate GoodGraph(g: Graph) {
    && Sorted(g.nodes)
    && (forall n, e :: n in g.nodes && e in InEdges(g, n) ==> EdgeOk(g, n, e))
    && (forall p :: 0 <= p < |g.nodes| && g.nodes[p].id in g.withCaller ==> HasEarlierOnStream(g.nodes, p))
  }

  // ----- One step -----

  // The last position before `p` with a node of the given stream.
  function LastOnStream(nodes: seq<Node>, p: nat, stream: nat): (q: nat)
    requires p <= |nodes| && exists i :: 0 <= i < p && nodes[i].stream == stream
    ensures q < p && nodes[q].stream == stream && forall i :: q < i < p ==> nodes[i].stream != stream
  {
    if nodes[p - 1].stream == stream then p - 1 else LastOnStream(nodes, p - 1, stream)
  }

  // Used where no edge can be followed: the node before in the list, or on the same stream if
  // the node is inside another region.
  function Fallback(g: Graph, n: Node): Node
    requires GoodGraph(g) && n in g.nodes && n != g.nodes[0]
  {
    var p := IndexOf(g.nodes, n);
    assert p > 0;
    if n.id in g.withCaller then
      assert HasEarlierOnStream(g.nodes, p);
      g.nodes[LastOnStream(g.nodes, p, n.stream)]
    else g.nodes[p - 1]
  }

  function Predecessor(g: Graph, n: Node): (m: Node)
    requires GoodGraph(g) && n in g.nodes && n != g.nodes[0]
    ensures m in g.nodes && CompareLess(m, n) && IndexOf(g.nodes, m) < IndexOf(g.nodes, n)
  {
    ChosenIsShortest(InEdges(g, n));
    var c := Choose(InEdges(g, n)).1;
    var m := if c.Some? then c.value.start else Fallback(g, n);
    Earlier(g, m, n);
    m
  }

  lemma {:induction false} Earlier(g: Graph, m: Node, n: Node)
    requires Sorted(g.nodes) && m in g.nodes && n in g.nodes
    ensures CompareLess(m, n) <==> IndexOf(g.nodes, m) < IndexOf(g.nodes, n)
  {
    var (i, j) := (IndexOf(g.nodes, m), IndexOf(g.nodes, n));
    assert i < j ==> CompareLess(g.nodes[i], g.nodes[j]);
    assert j < i ==> !CompareLess(g.nodes[i], g.nodes[j]);
    assert !CompareLess(m, m);
  }

  predicate Forward(edges: seq<Edge>) {
    forall e :: e in edges ==> !IsReverse(e) && e.duration < INFINITE
  }

  // The last edge that comes back in time from another stream; such edges are always taken.
  predicate LastOverride(edges: seq<Edge>, o: int) {
    && -1 <= o < |edges|
    && (o >= 0 ==> IsReverse(edges[o]) && edges[o].start.stream != edges[o].end.stream)
    && forall j :: o < j < |edges| ==> !(IsReverse(edges[j]) && edges[j].start.stream != edges[j].end.stream)
  }

  // Behind it only a heavier non-blocking edge is.
  predicate Heavier(edges: seq<Edge>, o: int, k: nat)
    requires -1 <= o < |edges|
  {
    o < k < |edges| && !edges[k].blocking && Weight(edges[k]) > if o >= 0 then Weight(edges[o]) else 0
  }

  // The edge at `k` is the override, or the first of the heaviest edges behind it.
  ghost predicate Chosen(edges: seq<Edge>, o: int, k: nat)
    requires -1 <= o < |edges|
  {
    && k < |edges| && (k == o || Heavier(edges, o, k))
    && forall j: nat :: Heavier(edges, o, j) ==>
         Weight(edges[j]) <= Weight(edges[k]) && (j < k ==> Weight(edges[j]) < Weight(edges[k]))
  }

  // What the loop has to end with.
  ghost predicate RightChoice(edges: seq<Edge>, o: int, w: int, c: Option<Edge>)
    requires -1 <= o < |edges|
  {
    match c
    case None => o == -1 && w == 0 && forall k: nat :: !Heavier(edges, o, k)
    case Some(e) => exists k: nat :: Chosen(edges, o, k) && edges[k] == e && w == Weight(e)
  }

  lemma {:induction false} HeavierBefore(edges: seq<Edge>, o: int)
    requires edges != [] && -1 <= o < |edges| - 1
    ensures forall j: nat :: j < |edges| - 1 ==> (Heavier(edges, o, j) <==> Heavier(edges[..|edges| - 1], o, j))
  {
  }

  /** For any list of edges: the edge the loop ends with. */
  lemma {:induction false} ChoiceExactly(edges: seq<Edge>) returns (o: int)
    ensures LastOverride(edges, o) && RightChoice(edges, o, Choose(edges).0, Choose(edges).1)
  {
    if edges == [] {
      o := -1;
    } else {
      var n := |edges| - 1; var b := edges[..n];
      o := ChoiceExactly(b);
      if IsReverse(edges[n]) && edges[n].start.stream != edges[n].end.stream {
        o := n;
        assert Chosen(edges, o, n);
      } else {
        HeavierBefore(edges, o);
        ChoiceNext(edges, o);
      }
    }
  }

  lemma {:induction false} ChoiceNext(edges: seq<Edge>, o: int)
    requires edges != [] && -1 <= o < |edges| - 1
    requires !(IsReverse(edges[|edges| - 1]) && edges[|edges| - 1].start.stream != edges[|edges| - 1].end.stream)
    requires forall j: nat :: j < |edges| - 1 ==> (Heavier(edges, o, j) <==> Heavier(edges[..|edges| - 1], o, j))
    requires RightChoice(edges[..|edges| - 1], o, Choose(edges[..|edges| - 1]).0, Choose(edges[..|edges| - 1]).1)
    ensures RightChoice(edges, o, Choose(edges).0, Choose(edges).1)
  {
    var n := |edges| - 1; var b := edges[..n]; var (w, c) := Choose(b);
    if c.Some? {
      var k: nat :| Chosen(b, o, k) && b[k] == c.value;
      if Beats(edges[n], w) { LastIsHeavier(edges, o, k); } else { LastIsNot(edges, o, k); }
    } else if Beats(edges[n], w) {
      assert Chosen(edges, o, n);
    }
  }

  lemma {:induction false} LastIsHeavier(edges: seq<Edge>, o: int, k: nat)
    requires edges != [] && -1 <= o < |edges| - 1 && Chosen(edges[..|edges| - 1], o, k)
    requires forall j: nat :: j < |edges| - 1 ==> (Heavier(edges, o, j) <==> Heavier(edges[..|edges| - 1], o, j))
    requires !edges[|edges| - 1].blocking && Weight(edges[|edges| - 1]) > Weight(edges[k])
    ensures Chosen(edges, o, |edges| - 1)
  {
  }

  lemma {:induction false} LastIsNot(edges: seq<Edge>, o: int, k: nat)
    requires edges != [] && -1 <= o < |edges| - 1 && Chosen(edges[..|edges| - 1], o, k)
    requires forall j: nat :: j < |edges| - 1 ==> (Heavier(edges, o, j) <==> Heavier(edges[..|edges| - 1], o, j))
    requires edges[|edges| - 1].blocking || Weight(edges[|edges| - 1]) <= Weight(edges[k])
    ensures Chosen(edges, o, k)
  {
  }

  // Shorter, where durations zero and one count as equal.
  predicate Shorter(e: Edge, c: Edge) { e.duration < c.duration && c.duration != 1 }

  // No other non-blocking edge is shorter, and all before it are longer.
  predicate Shortest(edges: seq<Edge>, c: Edge) {
    exists k :: 0 <= k < |edges| && edges[k] == c && !c.blocking
      && forall j :: 0 <= j < |edges| && !edges[j].blocking ==>
           !Shorter(edges[j], c) && (j < k ==> Shorter(c, edges[j]))
  }

  /** Among forward edges the choice is the first of the shortest non-blocking edges, if there is
      one. */
  lemma {:induction false} ChosenIsShortest(edges: seq<Edge>)
    ensures var (w, c) := Choose(edges);
            && (c.Some? ==> c.value in edges)
            && (Forward(edges) ==>
                  && (c.None? <==> forall e :: e in edges ==> e.blocking)
                  && (c.Some? ==> Shortest(edges, c.value) && w == Weight(c.value) > 0) && (c.None? ==> w == 0))
  {
    var o := ChoiceExactly(edges);
    if Forward(edges) {
      OpenEdgesCount(edges, o);
      if Choose(edges).1.Some? {
        var k: nat :| Chosen(edges, o, k) && edges[k] == Choose(edges).1.value;
        HeaviestIsShortest(edges, k);
      }
    }
  }

  lemma {:induction false} OpenEdgesCount(edges: seq<Edge>, o: int)
    requires Forward(edges) && LastOverride(edges, o)
    ensures o == -1 && forall k: nat :: Heavier(edges, o, k) <==> k < |edges| && !edges[k].blocking
    ensures (forall k: nat :: !Heavier(edges, o, k)) <==> forall e :: e in edges ==> e.blocking
  {
    assert forall k: nat :: k < |edges| ==> edges[k] in edges;
    assert o == -1;
    assert forall k: nat :: Heavier(edges, -1, k) <==> k < |edges| && !edges[k].blocking;
  }

  lemma {:induction false} HeaviestIsShortest(edges: seq<Edge>, k: nat)
    requires Forward(edges) && Chosen(edges, -1, k)
    ensures Shortest(edges, edges[k]) && Weight(edges[k]) > 0
  {
    assert forall j: nat :: j < |edges| ==> edges[j] in edges;
    forall j: nat | j < |edges| && !edges[j].blocking
      ensures !Shorter(edges[j], edges[k]) && (j < k ==> Shorter(edges[k], edges[j]))
    {
      assert Heavier(edges, -1, j);
    }
  }

  // ----- The walk -----

  // Nodes of the path after the start node.
  function Backward(g: Graph, start: Node, n: Node): seq<Node>
    requires GoodGraph(g) && start in g.nodes && n in g.nodes
    decreases IndexOf(g.nodes, n)
  {
    if CompareLess(start, n) then
      NotFirst(g, start, n);
      Backward(g, start, Predecessor(g, n)) + [n]
    else []
  }

  lemma {:induction false} NotFirst(g: Graph, start: Node, n: Node)
    requires GoodGraph(g) && start in g.nodes && n in g.nodes && CompareLess(start, n)
    ensures n != g.nodes[0]
  {
    Earlier(g, start, n);
    Earlier(g, n, g.nodes[0]);
  }

  // Is the node among the first `num` of the path?
  predicate FindInFirst(n: Node, path: seq<Node>, num: nat) {
    exists i :: 0 <= i < |path| && i < num && path[i].id == n.id
  }

  ghost predicate DistinctIds(nodes: seq<Node>) {
    forall i, j :: 0 <= i < j < |nodes| ==> nodes[i].id != nodes[j].id
  }

  // Every node of the path comes after `n`.
  predicate AllAfter(nodes: seq<Node>, n: Node, path: seq<Node>) {
    forall i :: 0 <= i < |path| ==> path[i] in nodes && CompareLess(n, path[i])
  }

  /** The critical path between two nodes of the list. The check for loops never finds one. */
  method GetCriticalPath(g: Graph, startNode: Node, endNode: Node, loopCheck: nat) returns (path: seq<Node>)
    requires GoodGraph(g) && DistinctIds(g.nodes) && startNode in g.nodes && endNode in g.nodes
    ensures path == [startNode] + Backward(g, startNode, endNode)
  {
    path := [];
    var currentNode := endNode;
    while CompareLess(startNode, currentNode)
      invariant currentNode in g.nodes && AllAfter(g.nodes, currentNode, path)
      invariant Backward(g, startNode, currentNode) + path == Backward(g, startNode, endNode)
      decreases IndexOf(g.nodes, currentNode)
    {
      NotFirst(g, startNode, currentNode);
      var predecessorNode := FindPredecessor(g, currentNode);
      WalkStep(g, startNode, currentNode, path);
      if loopCheck > 0 && FindInFirst(currentNode, path, loopCheck) {
        assert false;
      }
      path := [currentNode] + path;
      currentNode := predecessorNode;
    }
    path := [startNode] + path;
  }

  // What one round of the walk keeps.
  lemma {:induction false} WalkStep(g: Graph, start: Node, n: Node, path: seq<Node>)
    requires GoodGraph(g) && DistinctIds(g.nodes) && start in g.nodes && n in g.nodes && n != g.nodes[0]
    requires CompareLess(start, n) && AllAfter(g.nodes, n, path)
    ensures AllAfter(g.nodes, Predecessor(g, n), [n] + path)
    ensures Backward(g, start, Predecessor(g, n)) + ([n] + path) == Backward(g, start, n) + path
    ensures forall k :: !FindInFirst(n, path, k)
  {
    var m := Predecessor(g, n);
    AfterBoth(g, m, n, path);
    NotOnPath(g, n, path);
    var rest := Backward(g, start, m);
    assert Backward(g, start, n) == rest + [n];
    assert (rest + [n]) + path == rest + ([n] + path);
  }

  lemma {:induction false} AfterBoth(g: Graph, m: Node, n: Node, path: seq<Node>)
    requires Sorted(g.nodes) && m in g.nodes && n in g.nodes && CompareLess(m, n) && AllAfter(g.nodes, n, path)
    ensures AllAfter(g.nodes, m, [n] + path)
  {
    forall i | 0 <= i < |path| ensures CompareLess(m, path[i]) {
      Earlier(g, m, n);
      Earlier(g, n, path[i]);
      Earlier(g, m, path[i]);
    }
  }

  lemma {:induction false} NotOnPath(g: Graph, n: Node, path: seq<Node>)
    requires Sorted(g.nodes) && DistinctIds(g.nodes) && n in g.nodes && AllAfter(g.nodes, n, path)
    ensures forall i :: 0 <= i < |path| ==> path[i].id != n.id
  {
    forall i | 0 <= i < |path| ensures path[i].id != n.id {
      Earlier(g, n, path[i]);
      assert g.nodes[IndexOf(g.nodes, path[i])].id != g.nodes[IndexOf(g.nodes, n)].id;
    }
  }

  method FindPredecessor(g: Graph, n: Node) returns (m: Node)
    requires GoodGraph(g) && n in g.nodes && n != g.nodes[0]
    ensures m == Predecessor(g, n)
  {
    var edges := InEdges(g, n);
    var maxWeight := 0;
    var chosen: Option<Edge> := None;
    for i := 0 to |edges|
      invariant (maxWeight, chosen) == Choose(edges[..i])
    {
      assert edges[..i + 1][..i] == edges[..i];
      if Beats(edges[i], maxWeight) {
        maxWeight, chosen := Weight(edges[i]), Some(edges[i]);
      }
    }
    assert edges[..|edges|] == edges;
    if chosen.Some? { return chosen.value.start; }
    var at := BinarySearch.FindNode(n, g.nodes);
    IndexUnique(g.nodes, n, at.value);
    var p := at.value - 1;
    if n.id in g.withCaller {
      assert HasEarlierOnStream(g.nodes, at.value);
      while n.stream != g.nodes[p].stream
        invariant 0 <= p < at.value && LastOnStream(g.nodes, at.value, n.stream) <= p
        decreases p
      {
        p := p - 1;
      }
    }
    return g.nodes[p];
  }

  // ----- The path -----

  lemma {:induction false} BackwardEnds(g: Graph, start: Node, n: Node)
    requires GoodGraph(g) && start in g.nodes && n in g.nodes
    ensures var b := Backward(g, start, n);
            && (b != [] <==> CompareLess(start, n)) && (b != [] ==> b[|b| - 1] == n)
  {
    if CompareLess(start, n) { NotFirst(g, start, n); }
  }

  lemma {:induction false} BackwardNodes(g: Graph, start: Node, n: Node)
    requires GoodGraph(g) && start in g.nodes && n in g.nodes
    ensures forall m :: m in Backward(g, start, n) ==>
            m in g.nodes && CompareLess(start, m) && (m == n || CompareLess(m, n))
    decreases IndexOf(g.nodes, n)
  {
    if CompareLess(start, n) {
      NotFirst(g, start, n);
      var p := Predecessor(g, n);
      BackwardNodes(g, start, p);
      forall m | m in Backward(g, start, p) ensures CompareLess(m, n) {
        Earlier(g, m, p);
        Earlier(g, p, n);
        Earlier(g, m, n);
      }
    }
  }

  // Each node of the path is the predecessor of the next.
  lemma {:induction false} BackwardLinked(g: Graph, start: Node, n: Node, i: nat)
    requires GoodGraph(g) && start in g.nodes && n in g.nodes && 0 < i < |Backward(g, start, n)|
    ensures var b := Backward(g, start, n);
            b[i] in g.nodes && b[i] != g.nodes[0] && b[i - 1] == Predecessor(g, b[i])
    decreases IndexOf(g.nodes, n)
  {
    NotFirst(g, start, n);
    var p := Predecessor(g, n);
    var b := Backward(g, start, p);
    BackwardEnds(g, start, p);
    if i < |b| {
      BackwardLinked(g, start, p, i);
    }
  }

  lemma {:induction false} BackwardBefore(g: Graph, start: Node, n: Node)
    requires GoodGraph(g) && start in g.nodes && n in g.nodes && n != g.nodes[0] && CompareLess(start, n)
    ensures forall m :: m in [start] + Backward(g, start, Predecessor(g, n)) ==> m in g.nodes && CompareLess(m, n)
  {
    var p := Predecessor(g, n);
    BackwardNodes(g, start, p);
    forall m | m in Backward(g, start, p) ensures CompareLess(m, n) {
      Earlier(g, m, p);
      Earlier(g, p, n);
      Earlier(g, m, n);
    }
  }

  lemma {:induction false} SortedAppend(g: Graph, path: seq<Node>, n: Node)
    requires Sorted(g.nodes) && Sorted(path) && n in g.nodes
    requires forall m :: m in path ==> m in g.nodes && CompareLess(m, n)
    ensures Sorted(path + [n])
  {
    forall i | 0 <= i < |path| ensures !CompareLess(n, path[i]) {
      assert path[i] in path;
      Earlier(g, path[i], n);
      Earlier(g, n, path[i]);
    }
  }

  lemma {:induction false} BackwardAscends(g: Graph, start: Node, n: Node)
    requires GoodGraph(g) && start in g.nodes && n in g.nodes
    ensures Sorted([start] + Backward(g, start, n))
    decreases IndexOf(g.nodes, n)
  {
    if CompareLess(start, n) {
      NotFirst(g, start, n);
      var p := Predecessor(g, n);
      BackwardAscends(g, start, p);
      BackwardBefore(g, start, n);
      SortedAppend(g, [start] + Backward(g, start, p), n);
      assert [start] + Backward(g, start, n) == [start] + Backward(g, start, p) + [n];
    }
  }

  /** The path ascends strictly in the order of the nodes, starts with the start node and ends
      with the end node if that comes later. */
  lemma {:induction false} PathAscends(g: Graph, start: Node, end: Node)
    requires GoodGraph(g) && start in g.nodes && end in g.nodes
    ensures var path := [start] + Backward(g, start, end);
            && Sorted(path) && path[0] == start
            && (if CompareLess(start, end) then path[|path| - 1] == end else path == [start])
  {
    BackwardAscends(g, start, end);
    BackwardEnds(g, start, end);
  }

  predicate FollowsEdge(g: Graph, n: Node) { Choose(InEdges(g, n)).1.Some? }

  function EdgeOf(g: Graph, n: Node): Edge
    requires FollowsEdge(g, n)
  {
    Choose(InEdges(g, n)).1.value
  }

  // The walk comes to node `i` of the path from `m`: from the node before it, or it stops because
  // `m` is not behind the start node.
  predicate ComesFrom(start: Node, b: seq<Node>, i: nat, m: Node)
    requires i < |b|
  {
    if i > 0 then b[i - 1] == m else !CompareLess(start, m)
  }

  lemma {:induction false} StepOfPath(g: Graph, start: Node, end: Node, i: nat)
    requires GoodGraph(g) && start in g.nodes && end in g.nodes && i < |Backward(g, start, end)|
    ensures var b := Backward(g, start, end);
            b[i] in g.nodes && b[i] != g.nodes[0] && ComesFrom(start, b, i, Predecessor(g, b[i]))
    decreases IndexOf(g.nodes, end)
  {
    var b := Backward(g, start, end);
    if i > 0 {
      BackwardLinked(g, start, end, i);
    } else {
      NotFirst(g, start, end);
      var p := Predecessor(g, end);
      BackwardEnds(g, start, p);
      if CompareLess(start, p) { StepOfPath(g, start, p, 0); }
    }
  }

  /** The path follows the first of the shortest non-blocking in-edges of every node that has one; a
      node is left by the fallback only if all its in-edges are blocking. */
  lemma {:induction false} PathFollowsShortest(g: Graph, start: Node, end: Node, i: nat)
    requires GoodGraph(g) && start in g.nodes && end in g.nodes && i < |Backward(g, start, end)|
    ensures var b := Backward(g, start, end); var n := b[i];
            && (FollowsEdge(g, n) ==>
                  Shortest(InEdges(g, n), EdgeOf(g, n)) && ComesFrom(start, b, i, EdgeOf(g, n).start))
            && (!FollowsEdge(g, n) <==> forall e :: e in InEdges(g, n) ==> e.blocking)
  {
    var n := Backward(g, start, end)[i];
    StepOfPath(g, start, end, i);
    assert forall e :: e in InEdges(g, n) ==> EdgeOk(g, n, e);
    ChosenIsShortest(InEdges(g, n));
  }

  // Node `q` of the list is the one before `p`; or, if that is inside another region, the last one
  // before it on its stream.
  predicate InFrontOf(g: Graph, q: nat, p: nat) {
    && q < p < |g.nodes|
    && if g.nodes[p].id in g.withCaller then
         && g.nodes[q].stream == g.nodes[p].stream
         && forall k :: q < k < p ==> g.nodes[k].stream != g.nodes[p].stream
       else q == p - 1
  }

  /** A node with blocking in-edges only is left to the node in front of it. */
  lemma {:induction false} PathFallsBack(g: Graph, start: Node, end: Node, i: nat) returns (q: nat, p: nat)
    requires GoodGraph(g) && start in g.nodes && end in g.nodes && i < |Backward(g, start, end)|
    requires forall e :: e in InEdges(g, Backward(g, start, end)[i]) ==> e.blocking
    ensures InFrontOf(g, q, p) && g.nodes[p] == Backward(g, start, end)[i]
    ensures ComesFrom(start, Backward(g, start, end), i, g.nodes[q])
  {
    var n := Backward(g, start, end)[i];
    StepOfPath(g, start, end, i);
    assert forall e :: e in InEdges(g, n) ==> EdgeOk(g, n, e);
    ChosenIsShortest(InEdges(g, n));
    p := IndexOf(g.nodes, n);
    q := FallbackIn(g, n, p);
  }

  lemma {:induction false} FallbackIn(g: Graph, n: Node, p: nat) returns (q: nat)
    requires GoodGraph(g) && n in g.nodes && n != g.nodes[0] && p == IndexOf(g.nodes, n)
    ensures InFrontOf(g, q, p) && g.nodes[q] == Fallback(g, n)
  {
    if n.id in g.withCaller {
      assert HasEarlierOnStream(g.nodes, p);
      q := LastOnStream(g.nodes, p, n.stream);
    } else {
      q := p - 1;
    }
  }

  function Length(g: Graph, path: seq<Node>): nat
    requires forall i :: 0 <= i < |path| ==> FollowsEdge(g, path[i])
  {
    if path == [] then 0 else Length(g, path[..|path| - 1]) + EdgeOf(g, path[|path| - 1]).duration
  }

  /** If the walk meets the start node through edges only, the durations of the edges add up to
      the time between both nodes. */
  lemma {:induction false} PathLength(g: Graph, start: Node, end: Node)
    requires GoodGraph(g) && start in g.nodes && end in g.nodes && CompareLess(start, end)
    requires forall i :: 0 <= i < |Backward(g, start, end)| ==> FollowsEdge(g, Backward(g, start, end)[i])
    requires EdgeOf(g, Backward(g, start, end)[0]).start == start
    ensures Length(g, Backward(g, start, end)) == end.time - start.time
    decreases IndexOf(g.nodes, end)
  {
    NotFirst(g, start, end);
    var m := Predecessor(g, end);
    var b := Backward(g, start, end);
    var rest := Backward(g, start, m);
    assert b == rest + [end] && b[..|rest|] == rest && b[|rest|] == end;
    ChosenIsShortest(InEdges(g, end));
    assert EdgeOk(g, end, EdgeOf(g, end));
    BackwardEnds(g, start, m);
    if rest != [] {
      assert forall i :: 0 <= i < |rest| ==> rest[i] == b[i];
      PathLength(g, start, m);
    } else {
      assert b[0] == end;
    }
  }
}
