/**
 Adding a node as the program does it: predecessors are kept per paradigm, or searched for in
 both directions after an insertion, and the direct neighbours are found among them.
 */
module GraphEngine {
  import opened Common
  import opened NodeOrder
  import opened EdgeLists
  import opened StreamGraph
  import opened ChainInvariant

  // For each paradigm the last node in front of a position.
  ghost predicate Preds(nodes: seq<Node>, p: nat, m: map<nat, Node>)
    requires p <= |nodes|
  {
    forall k: nat :: k < PARADIGM_COUNT ==>
      if LastBefore(nodes, p, k).Some? then k in m && m[k] == nodes[LastBefore(nodes, p, k).value] else k !in m
  }

  // For each paradigm the first node from a position on.
  ghost predicate Succs(nodes: seq<Node>, p: nat, m: map<nat, Node>)
    requires p <= |nodes|
  {
    forall k: nat :: k < PARADIGM_COUNT ==>
      if FirstFrom(nodes, p, k).Some? then k in m && m[k] == nodes[FirstFrom(nodes, p, k).value] else k !in m
  }

  class EventStream {
    const id: nat
    var nodes: seq<Node>
    var lastNode: Option<Node>
    // Last node of each paradigm.
    var lastOf: map<nat, Node>

    ghost predicate Valid()
      reads this
    {
      && GoodNodes(nodes, id)
      && lastNode == (if nodes == [] then None else Some(nodes[|nodes| - 1]))
      && Preds(nodes, |nodes|, lastOf)
    }

    constructor (id: nat)
      ensures this.id == id && Valid() && nodes == []
    {
      this.id, nodes, lastNode, lastOf := id, [], None, map[];
    }

    // Puts the node at the end and returns the last nodes there were before.
    method AddGraphNode(node: Node) returns (predNodes: map<nat, Node>)
      requires Valid() && Addable(nodes, node, id) && (nodes == [] || CompareLess(nodes[|nodes| - 1], node))
      modifies this
      ensures Valid() && nodes == Inserted(old(nodes), node, |old(nodes)|)
      ensures Preds(old(nodes), |old(nodes)|, predNodes)
    {
      predNodes := lastOf;
      NodesKept(nodes, node, id);
      AppendPosition(nodes, node);
      lastOf := Replace(lastOf, node, map[]);
      LastAfterAppend(nodes, node, predNodes, lastOf);
      nodes := nodes + [node];
      lastNode := Some(node);
    }

    // Puts the node in front of the first later one and searches for its neighbours.
    method InsertGraphNode(node: Node) returns (p: nat, predNodes: map<nat, Node>, nextNodes: map<nat, Node>)
      requires Valid() && nodes != [] && Addable(nodes, node, id) && !CompareLess(nodes[|nodes| - 1], node)
      modifies this
      ensures Valid() && p == Position(old(nodes), node) && nodes == Inserted(old(nodes), node, p)
      ensures Preds(old(nodes), p, predNodes) && Succs(old(nodes), p, nextNodes)
    {
      NodesKept(nodes, node, id);
      p := InsertPosition(nodes, node, id);
      InsertedAt(nodes, node, p);
      nodes := nodes[..p] + [node] + nodes[p..];
      predNodes, nextNodes := FindNeighbours(nodes, p);
      NeighboursAgree(old(nodes), nodes, node, p, predNodes, nextNodes);
      lastOf := Replace(lastOf, node, nextNodes);
      LastAfterInsert(old(nodes), node, p, nodes, old(lastOf), nextNodes, lastOf);
    }
  }

  // The node becomes the last of its paradigms where no other follows.
  method Replace(lastOf: map<nat, Node>, node: Node, nextNodes: map<nat, Node>) returns (updated: map<nat, Node>)
    ensures Replaced(lastOf, node, nextNodes, updated)
  {
    updated := lastOf;
    for i := 0 to PARADIGM_COUNT
      invariant forall k: nat :: k < i ==> Entry(lastOf, node, nextNodes, updated, k)
      invariant forall k: nat :: i <= k ==> (k in updated <==> k in lastOf) && (k in lastOf ==> updated[k] == lastOf[k])
    {
      ghost var before := updated;
      if Has(node, i) && i !in nextNodes { updated := updated[i := node]; }
      forall k: nat | k < i ensures Entry(lastOf, node, nextNodes, updated, k) {
        assert Entry(lastOf, node, nextNodes, before, k);
      }
    }
  }

  ghost predicate Entry(lastOf: map<nat, Node>, node: Node, nextNodes: map<nat, Node>, updated: map<nat, Node>,
                        k: nat) {
    if Has(node, k) && k !in nextNodes then k in updated && updated[k] == node
    else (k in updated <==> k in lastOf) && (k in lastOf ==> updated[k] == lastOf[k])
  }

  ghost predicate Replaced(lastOf: map<nat, Node>, node: Node, nextNodes: map<nat, Node>, updated: map<nat, Node>) {
    forall k: nat :: k < PARADIGM_COUNT ==> Entry(lastOf, node, nextNodes, updated, k)
  }

  method InsertPosition(nodes: seq<Node>, node: Node, id: nat) returns (p: nat)
    requires GoodNodes(nodes, id) && nodes != [] && Addable(nodes, node, id) && !CompareLess(nodes[|nodes| - 1], node)
    ensures p == Position(nodes, node) && 0 < p < |nodes|
  {
    PositionSplits(nodes, node, id);
    p := 1;
    while !CompareLess(node, nodes[p])
      invariant 0 < p < |nodes| && p <= Position(nodes, node)
      decreases |nodes| - p
    {
      p := p + 1;
    }
  }

  // The nearest nodes of each paradigm before and behind position `p`.
  method FindNeighbours(nodes: seq<Node>, p: nat) returns (predNodes: map<nat, Node>, nextNodes: map<nat, Node>)
    requires p < |nodes|
    ensures Preds(nodes, p, predNodes) && Succs(nodes, p + 1, nextNodes)
  {
    predNodes := FindPreds(nodes, p);
    nextNodes := FindSuccs(nodes, p + 1);
  }

  method FindPreds(nodes: seq<Node>, p: nat) returns (predNodes: map<nat, Node>)
    requires p <= |nodes|
    ensures Preds(nodes, p, predNodes)
  {
    predNodes := map[];
    for k := 0 to PARADIGM_COUNT
      invariant forall j: nat :: j < k ==>
        if LastBefore(nodes, p, j).Some? then j in predNodes && predNodes[j] == nodes[LastBefore(nodes, p, j).value]
        else j !in predNodes
      invariant forall j: nat :: j >= k ==> j !in predNodes
    {
      var pred := SearchBack(nodes, p, k);
      if pred.Some? { predNodes := predNodes[k := nodes[pred.value]]; }
    }
  }

  method FindSuccs(nodes: seq<Node>, p: nat) returns (nextNodes: map<nat, Node>)
    requires p <= |nodes|
    ensures Succs(nodes, p, nextNodes)
  {
    nextNodes := map[];
    for k := 0 to PARADIGM_COUNT
      invariant forall j: nat :: j < k ==>
        if FirstFrom(nodes, p, j).Some? then j in nextNodes && nextNodes[j] == nodes[FirstFrom(nodes, p, j).value]
        else j !in nextNodes
      invariant forall j: nat :: j >= k ==> j !in nextNodes
    {
      var next := SearchOn(nodes, p, k);
      if next.Some? { nextNodes := nextNodes[k := nodes[next.value]]; }
    }
  }

  method SearchBack(nodes: seq<Node>, p: nat, k: nat) returns (i: Option<nat>)
    requires p <= |nodes|
    ensures i == LastBefore(nodes, p, k)
  {
    var current: nat := p;
    while current > 0
      invariant current <= p && LastBefore(nodes, p, k) == LastBefore(nodes, current, k)
    {
      current := current - 1;
      if Has(nodes[current], k) { return Some(current); }
    }
    return None;
  }

  method SearchOn(nodes: seq<Node>, p: nat, k: nat) returns (i: Option<nat>)
    requires p <= |nodes|
    ensures i == FirstFrom(nodes, p, k)
  {
    for next := p to |nodes|
      invariant FirstFrom(nodes, p, k) == FirstFrom(nodes, next, k)
    {
      if Has(nodes[next], k) { return Some(next); }
    }
    return None;
  }

  // ----- Searches before and after the node is in the list -----

  lemma {:induction false} AppendPosition(nodes: seq<Node>, n: Node)
    requires nodes == [] || CompareLess(nodes[|nodes| - 1], n)
    ensures Position(nodes, n) == |nodes| && Inserted(nodes, n, |nodes|) == nodes + [n]
  {
  }

  lemma {:induction false} LastAgrees(nodes: seq<Node>, all: seq<Node>, n: Node, p: nat, k: nat)
    requires IsInserted(nodes, n, p, all)
    ensures LastBefore(all, p, k) == LastBefore(nodes, p, k)
  {
    LastIs(all, p, k, LastBefore(nodes, p, k));
  }

  lemma {:induction false} FirstAgrees(nodes: seq<Node>, all: seq<Node>, n: Node, p: nat, k: nat)
    requires IsInserted(nodes, n, p, all)
    ensures FirstFrom(all, p + 1, k) == (var i := FirstFrom(nodes, p, k); if i.None? then None else Some(i.value + 1))
  {
    var i := FirstFrom(nodes, p, k);
    forall j | p + 1 <= j < |all| && (i.None? || j < i.value + 1) ensures !Has(all[j], k) {
      assert all[j] == nodes[j - 1];
    }
    FirstIs(all, p + 1, k, if i.None? then None else Some(i.value + 1));
  }

  lemma {:induction false} LastAtEnd(nodes: seq<Node>, n: Node, p: nat, all: seq<Node>, k: nat)
    requires IsInserted(nodes, n, p, all)
    ensures LastBefore(all, |all|, k) ==
            var i := LastBefore(nodes, |nodes|, k);
            if i.Some? && i.value >= p then Some(i.value + 1) else if Has(n, k) then Some(p) else i
  {
    var i := LastBefore(nodes, |nodes|, k);
    forall j | 0 <= j < |all| && j != p ensures all[j] == nodes[if j < p then j else j - 1] { }
    LastIs(all, |all|, k, if i.Some? && i.value >= p then Some(i.value + 1) else if Has(n, k) then Some(p) else i);
  }

  lemma {:induction false} NeighboursAgree(nodes: seq<Node>, all: seq<Node>, n: Node, p: nat,
                                           predNodes: map<nat, Node>, nextNodes: map<nat, Node>)
    requires IsInserted(nodes, n, p, all) && Preds(all, p, predNodes) && Succs(all, p + 1, nextNodes)
    ensures Preds(nodes, p, predNodes) && Succs(nodes, p, nextNodes)
  {
    forall k: nat | k < PARADIGM_COUNT
      ensures if LastBefore(nodes, p, k).Some?
              then k in predNodes && predNodes[k] == nodes[LastBefore(nodes, p, k).value] else k !in predNodes
    {
      LastAgrees(nodes, all, n, p, k);
    }
    forall k: nat | k < PARADIGM_COUNT
      ensures if FirstFrom(nodes, p, k).Some?
              then k in nextNodes && nextNodes[k] == nodes[FirstFrom(nodes, p, k).value] else k !in nextNodes
    {
      FirstAgrees(nodes, all, n, p, k);
    }
  }

  lemma {:induction false} LastAfterInsert(nodes: seq<Node>, n: Node, p: nat, all: seq<Node>,
                                           was: map<nat, Node>, nextNodes: map<nat, Node>, updated: map<nat, Node>)
    requires IsInserted(nodes, n, p, all) && Preds(nodes, |nodes|, was) && Succs(nodes, p, nextNodes)
    requires Replaced(was, n, nextNodes, updated)
    ensures Preds(all, |all|, updated)
  {
    forall k: nat | k < PARADIGM_COUNT
      ensures if LastBefore(all, |all|, k).Some?
              then k in updated && updated[k] == all[LastBefore(all, |all|, k).value] else k !in updated
    {
      LastAtEnd(nodes, n, p, all, k);
      assert Entry(was, n, nextNodes, updated, k);
      var i := LastBefore(nodes, |nodes|, k);
      if i.Some? { assert all[if i.value < p then i.value else i.value + 1] == nodes[i.value]; }
    }
  }

  lemma {:induction false} LastAfterAppend(nodes: seq<Node>, n: Node, was: map<nat, Node>, updated: map<nat, Node>)
    requires Preds(nodes, |nodes|, was) && Replaced(was, n, map[], updated)
    ensures Preds(nodes + [n], |nodes| + 1, updated)
  {
    InsertedAt(nodes, n, |nodes|);
    forall k: nat | k < PARADIGM_COUNT
      ensures LastBefore(nodes + [n], |nodes| + 1, k) == if Has(n, k) then Some(|nodes|)
              else LastBefore(nodes, |nodes|, k)
      ensures Entry(was, n, map[], updated, k)
    {
      LastIs(nodes + [n], |nodes| + 1, k, if Has(n, k) then Some(|nodes|) else LastBefore(nodes, |nodes|, k));
    }
  }

  // ----- Direct neighbours -----

  // The latest of the predecessors found so far.
  ghost predicate LatestPred(nodes: seq<Node>, p: nat, i: nat, d: Option<Node>)
    requires p <= |nodes|
  {
    && (d.None? ==> forall k: nat :: k < i ==> LastBefore(nodes, p, k).None?)
    && (d.Some? ==> exists m: nat {:trigger nodes[m]} :: m < p && d.value == nodes[m]
                      && forall k: nat :: k < i && LastBefore(nodes, p, k).Some? ==> LastBefore(nodes, p, k).value <= m)
  }

  ghost predicate EarliestSucc(nodes: seq<Node>, p: nat, i: nat, d: Option<Node>)
    requires p <= |nodes|
  {
    && (d.None? ==> forall k: nat :: k < i ==> FirstFrom(nodes, p, k).None?)
    && (d.Some? ==> exists m: nat {:trigger nodes[m]} :: p <= m < |nodes| && d.value == nodes[m]
                      && forall k: nat :: k < i && FirstFrom(nodes, p, k).Some? ==> m <= FirstFrom(nodes, p, k).value)
  }

  lemma {:induction false} PredStep(nodes: seq<Node>, p: nat, i: nat, d: Option<Node>, m: map<nat, Node>)
    requires p <= |nodes| && Sorted(nodes) && LatestPred(nodes, p, i, d) && Preds(nodes, p, m) && i < PARADIGM_COUNT
    ensures LatestPred(nodes, p, i + 1, if i in m && (d.None? || CompareLess(d.value, m[i])) then Some(m[i]) else d)
  {
    var c := LastBefore(nodes, p, i);
    if c.Some? && d.Some? {
      var j: nat :| j < p && d.value == nodes[j]
                    && forall k: nat :: k < i && LastBefore(nodes, p, k).Some? ==> LastBefore(nodes, p, k).value <= j;
      SortedOrder(nodes, j, c.value);
    }
  }

  lemma {:induction false} SuccStep(nodes: seq<Node>, p: nat, i: nat, d: Option<Node>, m: map<nat, Node>)
    requires p <= |nodes| && Sorted(nodes) && EarliestSucc(nodes, p, i, d) && Succs(nodes, p, m) && i < PARADIGM_COUNT
    ensures EarliestSucc(nodes, p, i + 1, if i in m && (d.None? || CompareLess(m[i], d.value)) then Some(m[i]) else d)
  {
    var c := FirstFrom(nodes, p, i);
    if c.Some? && d.Some? {
      var j: nat :| p <= j < |nodes| && d.value == nodes[j]
                    && forall k: nat :: k < i && FirstFrom(nodes, p, k).Some? ==> j <= FirstFrom(nodes, p, k).value;
      SortedOrder(nodes, c.value, j);
    }
  }

  lemma {:induction false} SortedOrder(nodes: seq<Node>, i: nat, j: nat)
    requires Sorted(nodes) && i < |nodes| && j < |nodes|
    ensures CompareLess(nodes[i], nodes[j]) <==> i < j
  {
    if i == j { assert !CompareLess(nodes[i], nodes[i]); }
  }

  lemma {:induction false} PredFound(nodes: seq<Node>, p: nat, d: Option<Node>)
    requires p <= |nodes| && (forall i :: 0 <= i < |nodes| ==> Tracked(nodes[i]))
    requires LatestPred(nodes, p, PARADIGM_COUNT, d)
    ensures d == if p == 0 then None else Some(nodes[p - 1])
  {
    if p > 0 {
      var k: nat :| k < PARADIGM_COUNT && Has(nodes[p - 1], k);
      assert LastBefore(nodes, p, k) == Some(p - 1);
    }
  }

  lemma {:induction false} SuccFound(nodes: seq<Node>, p: nat, d: Option<Node>)
    requires p <= |nodes| && (forall i :: 0 <= i < |nodes| ==> Tracked(nodes[i]))
    requires EarliestSucc(nodes, p, PARADIGM_COUNT, d)
    ensures d == if p == |nodes| then None else Some(nodes[p])
  {
    if p < |nodes| {
      var k: nat :| k < PARADIGM_COUNT && Has(nodes[p], k);
      assert FirstFrom(nodes, p, k) == Some(p);
    }
  }

  // Among the neighbours of all paradigms the closest ones are the direct neighbours.
  method DirectNeighbours(ghost nodes: seq<Node>, ghost p: nat, ghost id: nat, predNodes: map<nat, Node>,
                          nextNodes: map<nat, Node>)
    returns (pred: Option<Node>, succ: Option<Node>)
    requires GoodNodes(nodes, id) && p <= |nodes| && Preds(nodes, p, predNodes) && Succs(nodes, p, nextNodes)
    ensures pred == if p == 0 then None else Some(nodes[p - 1])
    ensures succ == if p == |nodes| then None else Some(nodes[p])
  {
    pred, succ := None, None;
    for i := 0 to PARADIGM_COUNT
      invariant LatestPred(nodes, p, i, pred) && EarliestSucc(nodes, p, i, succ)
    {
      PredStep(nodes, p, i, pred, predNodes);
      SuccStep(nodes, p, i, succ, nextNodes);
      if i in predNodes && (pred.None? || CompareLess(pred.value, predNodes[i])) { pred := Some(predNodes[i]); }
      if i in nextNodes && (succ.None? || CompareLess(nextNodes[i], succ.value)) { succ := Some(nextNodes[i]); }
    }
    PredFound(nodes, p, pred);
    SuccFound(nodes, p, succ);
  }

  // ----- Edges -----

  // Links an MPI node to the MPI nodes around it, which is the only paradigm with such edges.
  method LinkMpi(graph: Graph, node: Node, pred: Node, next: Option<Node>) returns (thrown: bool)
    requires graph.Valid()
    modifies graph
    ensures graph.Valid()
    ensures var l1 := Add(old(graph.Value()), Edge(pred, node, Blocks(pred, node), PARADIGM_MPI));
            if next.None? then !thrown && graph.Value() == l1
            else (thrown <==> Pair(l1, pred, next.value) == [])
                 && (!thrown ==>
                       graph.Value() ==
                       Add(Remove(l1, pred, next.value), Edge(node, next.value, false, PARADIGM_MPI)))
  {
    thrown := false;
    graph.AddEdge(Edge(pred, node, Blocks(pred, node), PARADIGM_MPI));
    if next.Some? {
      ghost var l1 := graph.Value();
      var oldEdge := graph.GetEdge(pred, next.value);
      if oldEdge.None? { return true; }
      FoundEnds(l1, pred, next.value);
      graph.RemoveEdge(oldEdge.value);
      graph.AddEdge(Edge(node, next.value, false, PARADIGM_MPI));
    }
  }

  lemma {:induction false} FoundEnds(l: Lists, a: Node, b: Node)
    requires Mirror(l) && Pair(l, a, b) != []
    ensures Pair(l, a, b)[0].start == a && Pair(l, a, b)[0].end == b
  {
    assert AllStart(Of(l.outs, a), a);
    ToSubset(Of(l.outs, a), b);
  }

  // Puts the node between its direct neighbours.
  method LinkSucc(graph: Graph, node: Node, pred: Node, succ: Node)
    requires graph.Valid()
    modifies graph
    ensures graph.Valid()
    ensures var l := old(graph.Value());
            graph.Value() == Add(if Pair(l, pred, succ) == [] then l
                else Remove(l, pred, succ), Edge(node, succ, false, succ.paradigm))
  {
    var oldEdge := graph.GetEdge(pred, succ);
    if oldEdge.Some? {
      FoundEnds(graph.Value(), pred, succ);
      graph.RemoveEdge(oldEdge.value);
    }
    graph.AddEdge(Edge(node, succ, false, succ.paradigm));
  }

  class Engine {
    const graph: Graph

    constructor ()
      ensures fresh(graph) && graph.Valid() && graph.Value() == Lists(map[], map[])
    {
      graph := new Graph();
    }

    /** Adds a node to a stream. The list and the edges end up as Connect says, and the stream
        is still a chain. */
    method AddNewGraphNode(node: Node, stream: EventStream) returns (thrown: bool)
      requires graph.Valid() && stream.Valid() && Addable(stream.nodes, node, stream.id)
      requires Chain(stream.nodes, graph.Value(), stream.id)
      modifies stream, graph
      ensures graph.Valid() && stream.Valid()
      ensures stream.nodes == Inserted(old(stream.nodes), node, Position(old(stream.nodes), node))
      ensures var l := Connect(old(graph.Value()), old(stream.nodes), node, Position(old(stream.nodes), node));
              (thrown <==> l.None?) && (!thrown ==>
                  graph.Value() == l.value && Chain(stream.nodes, graph.Value(), stream.id))
    {
      ghost var nodes := stream.nodes;
      ghost var p := Position(nodes, node);
      var predNodes, nextNodes := PlaceNode(node, stream);
      SortedDistinct(nodes);
      var directPredecessor, directSuccessor := DirectNeighbours(nodes, p, stream.id, predNodes, nextNodes);
      thrown := Link(graph, nodes, p, node, predNodes, nextNodes, directPredecessor, directSuccessor);
      if !thrown { ChainKept(nodes, old(graph.Value()), node, stream.id); }
    }
  }

  // Puts the node into the list and returns its neighbours of all paradigms.
  method PlaceNode(node: Node, stream: EventStream) returns (predNodes: map<nat, Node>, nextNodes: map<nat, Node>)
    requires stream.Valid() && Addable(stream.nodes, node, stream.id)
    modifies stream
    ensures stream.Valid() && stream.nodes == Inserted(old(stream.nodes), node, Position(old(stream.nodes), node))
    ensures Preds(old(stream.nodes), Position(old(stream.nodes), node), predNodes)
    ensures Succs(old(stream.nodes), Position(old(stream.nodes), node), nextNodes)
  {
    nextNodes := map[];
    if stream.lastNode.None? || CompareLess(stream.lastNode.value, node) {
      AppendPosition(stream.nodes, node);
      predNodes := stream.AddGraphNode(node);
    } else {
      var at;
      at, predNodes, nextNodes := stream.InsertGraphNode(node);
    }
  }

  method Link(graph: Graph, ghost nodes: seq<Node>, ghost p: nat, node: Node, predNodes: map<nat, Node>,
              nextNodes: map<nat, Node>,
              directPredecessor: Option<Node>, directSuccessor: Option<Node>) returns (thrown: bool)
    requires graph.Valid() && p <= |nodes| && Distinct(nodes) && Preds(nodes, p, predNodes)
    requires Succs(nodes, p, nextNodes)
    requires directPredecessor == if p == 0 then None else Some(nodes[p - 1])
    requires directSuccessor == if p == |nodes| then None else Some(nodes[p])
    modifies graph
    ensures graph.Valid()
    ensures var l := Connect(old(graph.Value()), nodes, node, p);
            (thrown <==> l.None?) && (!thrown ==> graph.Value() == l.value)
  {
    thrown := false;
    if directPredecessor.None? { return; }
    var pred := directPredecessor.value;
    var predLinked, succLinked := false, false;
    if node.paradigm == PARADIGM_MPI && MPI in predNodes {
      var next := if directSuccessor.Some? && MPI in nextNodes then Some(nextNodes[MPI]) else None;
      thrown := LinkMpi(graph, node, predNodes[MPI], next);
      if thrown { return; }
      predLinked := predNodes[MPI] == pred;
      succLinked := next.Some? && next == directSuccessor;
    }
    LinkDirect(graph, nodes, p, node, pred, directSuccessor, predLinked, succLinked);
  }

  method LinkDirect(graph: Graph, ghost nodes: seq<Node>, ghost p: nat, node: Node, pred: Node, succ: Option<Node>,
                    predLinked: bool, succLinked: bool)
    requires graph.Valid() && 0 < p <= |nodes| && pred == nodes[p - 1]
    requires succ == if p == |nodes| then None else Some(nodes[p])
    requires predLinked <==> MpiBefore(nodes, node, p) == Some(p - 1)
    requires succ.Some? ==> (succLinked <==> MpiBehind(nodes, node, p) == Some(p))
    modifies graph
    ensures graph.Valid()
    ensures graph.Value() == ConnectSucc(ConnectPred(old(graph.Value()), nodes, node, p), nodes, node, p)
  {
    if !predLinked { graph.AddEdge(Edge(pred, node, Blocks(pred, node), pred.paradigm)); }
    if succ.Some? && !succLinked { LinkSucc(graph, node, pred, succ.value); }
  }
}
