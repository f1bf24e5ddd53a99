/**
 The blame distribution relies on the graph construction: it gives up where two adjacent nodes
 of a walk have no edge. On a graph that was built as GraphGrowth says this cannot happen.
 */
module GraphForBlame {
  import opened NodeOrder
  import opened EdgeLists
  import opened StreamGraph
  import opened ChainInvariant
  import opened GraphGrowth
  import StreamBlame

  // An edge as the blame distribution sees it. An edge back in time has no duration.
  function Blank(e: Edge): StreamBlame.Edge {
    StreamBlame.Edge(e.start.id, e.end.id, if e.start.time <= e.end.time then e.end.time - e.start.time
        else 0, e.blocking, map[])
  }

  function Blanks(edges: seq<Edge>): (r: seq<StreamBlame.Edge>)
    ensures |r| == |edges| && forall i :: 0 <= i < |r| ==> r[i] == Blank(edges[i])
  {
    seq(|edges|, i requires 0 <= i < |edges| => Blank(edges[i]))
  }

  // The edges out of all nodes of a list.
  function OutOf(l: Lists, nodes: seq<Node>): seq<Edge> {
    if nodes == [] then [] else OutOf(l, nodes[..|nodes| - 1]) + Of(l.outs, nodes[|nodes| - 1])
  }

  lemma {:induction false} OutOfHas(l: Lists, nodes: seq<Node>, a: Node, e: Edge)
    requires a in nodes && e in Of(l.outs, a)
    ensures e in OutOf(l, nodes)
  {
    if a != nodes[|nodes| - 1] { OutOfHas(l, nodes[..|nodes| - 1], a, e); }
  }

  lemma {:induction false} OutOfFrom(l: Lists, nodes: seq<Node>, e: Edge) returns (i: nat)
    requires e in OutOf(l, nodes)
    ensures i < |nodes| && e in Of(l.outs, nodes[i])
  {
    var n := |nodes| - 1;
    if e in Of(l.outs, nodes[n]) { i := n; } else { i := OutOfFrom(l, nodes[..n], e); }
  }

  // An edge that ends at a node of some ID ends at the listed node of that ID.
  ghost predicate UniqueIds(nodes: seq<Node>, l: Lists) {
    forall e, n :: e in OutOf(l, nodes) && n in nodes && e.end.id == n.id ==> e.end == n
  }

  // ----- Edge lists stay mirrored over runs -----

  lemma {:induction false} ConnectKeepsMirror(l: Lists, nodes: seq<Node>, n: Node, p: nat)
    requires Mirror(l) && p <= |nodes| && Connect(l, nodes, n, p).Some?
    ensures Mirror(Connect(l, nodes, n, p).value)
  {
    if p > 0 {
      var l1 := ConnectMpi(l, nodes, n, p).value;
      MpiKeepsMirror(l, nodes, n, p);
      var pred := nodes[p - 1];
      AddKeepsMirror(l1, Edge(pred, n, Blocks(pred, n), pred.paradigm));
      SuccKeepsMirror(ConnectPred(l1, nodes, n, p), nodes, n, p);
    }
  }

  lemma {:induction false} MpiKeepsMirror(l: Lists, nodes: seq<Node>, n: Node, p: nat)
    requires Mirror(l) && 0 < p <= |nodes| && ConnectMpi(l, nodes, n, p).Some?
    ensures Mirror(ConnectMpi(l, nodes, n, p).value)
  {
    var (mp, ms) := (MpiBefore(nodes, n, p), MpiBehind(nodes, n, p));
    if mp.Some? {
      var e := Edge(nodes[mp.value], n, Blocks(nodes[mp.value], n), PARADIGM_MPI);
      AddKeepsMirror(l, e);
      if ms.Some? {
        RemoveKeepsMirror(Add(l, e), nodes[mp.value], nodes[ms.value]);
        AddKeepsMirror(Remove(Add(l, e), nodes[mp.value], nodes[ms.value]),
            Edge(n, nodes[ms.value], false, PARADIGM_MPI));
      }
    }
  }

  lemma {:induction false} SuccKeepsMirror(l: Lists, nodes: seq<Node>, n: Node, p: nat)
    requires Mirror(l) && 0 < p <= |nodes|
    ensures Mirror(ConnectSucc(l, nodes, n, p))
  {
    if p < |nodes| {
      var (pred, succ) := (nodes[p - 1], nodes[p]);
      RemoveKeepsMirror(l, pred, succ);
      AddKeepsMirror(l, Edge(n, succ, false, succ.paradigm));
      AddKeepsMirror(Remove(l, pred, succ), Edge(n, succ, false, succ.paradigm));
    }
  }

  lemma {:induction false} RunKeepsMirror(h: History)
    requires Run(h).Some?
    ensures Mirror(Run(h).value.edges)
  {
    if h.Then? {
      RunKeepsMirror(h.before);
      var w := Run(h.before).value;
      match h.op
      case AddNode(n) => ConnectKeepsMirror(w.edges, NodesOf(w, n.stream), n, Position(NodesOf(w, n.stream), n));
      case AddEdge(e) => AddKeepsMirror(w.edges, e);
    }
  }

  // ----- Node IDs come from one global counter -----

  // A new node has a new ID; edges lead to nodes that are listed.
  ghost predicate FreshOp(w: World, op: Op) {
    match op
    case AddNode(n) => forall s: nat, m :: m in NodesOf(w, s) ==> m.id != n.id
    case AddEdge(e) => e.end in NodesOf(w, e.end.stream)
  }

  ghost predicate FreshIds(h: History) {
    h.Then? ==> FreshIds(h.before) && (Run(h.before).Some? ==> FreshOp(Run(h.before).value, h.op))
  }

  ghost predicate EndsListed(w: World) { forall a, b :: Pair(w.edges, a, b) != [] ==> b in NodesOf(w, b.stream) }

  ghost predicate IdsDiffer(w: World) {
    forall s: nat, t: nat, m, n :: m in NodesOf(w, s) && n in NodesOf(w, t) && m.id == n.id ==> m == n
  }

  lemma {:induction false} EndsAfterNode(w: World, n: Node)
    requires EndsListed(w) && Chain(NodesOf(w, n.stream), w.edges, n.stream)
    requires Addable(NodesOf(w, n.stream), n, n.stream)
    requires Step(w, AddNode(n)).Some?
    ensures EndsListed(Step(w, AddNode(n)).value)
  {
    var nodes := NodesOf(w, n.stream);
    var p := Position(nodes, n);
    var next := Step(w, AddNode(n)).value;
    PositionSplits(nodes, n, n.stream);
    SortedDistinct(nodes);
    InsertedHas(nodes, n, p);
    forall a, b | Pair(next.edges, a, b) != [] ensures b in NodesOf(next, b.stream) {
      if p > 0 { EndAfter(w.edges, nodes, n, p, a, b); }
    }
  }

  lemma {:induction false} EndAfter(l: Lists, nodes: seq<Node>, n: Node, p: nat, a: Node, b: Node)
    requires 0 < p <= |nodes| && n !in nodes && Distinct(nodes) && Connect(l, nodes, n, p).Some?
    requires Pair(Connect(l, nodes, n, p).value, a, b) != []
    ensures Pair(l, a, b) != [] || b == n || b in nodes
  {
    Effect(l, nodes, n, p, a, b);
  }

  lemma {:induction false} IdsAfterNode(w: World, n: Node)
    requires IdsDiffer(w) && FreshOp(w, AddNode(n)) && Step(w, AddNode(n)).Some?
    ensures IdsDiffer(Step(w, AddNode(n)).value)
  {
    var next := Step(w, AddNode(n)).value;
    InsertedHas(NodesOf(w, n.stream), n, Position(NodesOf(w, n.stream), n));
    assert forall s: nat, m :: m in NodesOf(next, s) ==> m in NodesOf(w, s) || m == n;
    forall s: nat, t: nat, x, y | x in NodesOf(next, s) && y in NodesOf(next, t) && x.id == y.id ensures x == y {
      if x != n && y != n { assert x in NodesOf(w, s) && y in NodesOf(w, t); }
    }
  }

  lemma {:induction false} EndsAfterEdge(w: World, e: Edge)
    requires EndsListed(w) && FreshOp(w, AddEdge(e))
    ensures EndsListed(Step(w, AddEdge(e)).value)
  {
    var next := Step(w, AddEdge(e)).value;
    forall a, b | Pair(next.edges, a, b) != [] ensures b in NodesOf(next, b.stream) { PairAdd(w.edges, e, a, b); }
  }

  lemma {:induction false} IdsAfterEdge(w: World, e: Edge)
    requires IdsDiffer(w)
    ensures IdsDiffer(Step(w, AddEdge(e)).value)
  {
    var next := Step(w, AddEdge(e)).value;
    forall s: nat ensures NodesOf(next, s) == NodesOf(w, s) { }
  }

  lemma {:induction false} RunKeepsIds(h: History)
    requires Legal(h) && FreshIds(h) && Run(h).Some?
    ensures EndsListed(Run(h).value) && IdsDiffer(Run(h).value)
  {
    if h.Then? {
      RunKeepsIds(h.before);
      var w := Run(h.before).value;
      match h.op
      case AddNode(n) =>
        AlwaysChained(h.before, n.stream);
        EndsAfterNode(w, n);
        IdsAfterNode(w, n);
      case AddEdge(e) =>
        EndsAfterEdge(w, e);
        IdsAfterEdge(w, e);
    }
  }

  lemma {:induction false} IdsAreUnique(w: World, id: nat)
    requires EndsListed(w) && IdsDiffer(w)
    ensures UniqueIds(NodesOf(w, id), w.edges)
  {
    var nodes := NodesOf(w, id);
    forall e, n | e in OutOf(w.edges, nodes) && n in nodes && e.end.id == n.id ensures e.end == n {
      var i := OutOfFrom(w.edges, nodes, e);
      InPair(Of(w.edges.outs, nodes[i]), e);
      assert Pair(w.edges, nodes[i], e.end) != [];
    }
  }

  lemma {:induction false} InPair(edges: seq<Edge>, e: Edge)
    requires e in edges
    ensures e in To(edges, e.end)
  {
    if edges[0] != e { InPair(edges[1..], e); }
  }

  // ----- No edge is missing -----

  lemma {:induction false} LinkedForBlame(nodes: seq<Node>, l: Lists, id: nat, i: nat)
    requires Chain(nodes, l, id) && Mirror(l) && UniqueIds(nodes, l) && 0 < i < |nodes|
    ensures StreamBlame.Linked(nodes, Blanks(OutOf(l, nodes)), i)
  {
    var out := OutOf(l, nodes);
    var j := LinkInOut(nodes, l, nodes[i - 1], nodes[i]);
    FindsBlank(out, nodes[i - 1].id, nodes[i].id, j);
    var k := StreamBlame.FindEdge(Blanks(out), nodes[i - 1].id, nodes[i].id);
    EndsKnown(nodes, l, id, out[k], i);
    InOrder(nodes, i - 1, i);
    BlankIsLong(nodes, out, i, k);
  }

  lemma {:induction false} BlankIsLong(nodes: seq<Node>, edges: seq<Edge>, i: nat, k: nat)
    requires 0 < i < |nodes| && k < |edges| && edges[k].start == nodes[i - 1] && edges[k].end == nodes[i]
    requires k == StreamBlame.FindEdge(Blanks(edges), nodes[i - 1].id, nodes[i].id)
    requires CompareLess(nodes[i - 1], nodes[i])
    ensures StreamBlame.Linked(nodes, Blanks(edges), i)
  {
    assert Blanks(edges)[k] == Blank(edges[k]);
  }

  lemma {:induction false} FindsBlank(edges: seq<Edge>, start: nat, end: nat, j: nat)
    requires j < |edges| && edges[j].start.id == start && edges[j].end.id == end
    ensures var k := StreamBlame.FindEdge(Blanks(edges), start, end);
            k < |edges| && edges[k].start.id == start && edges[k].end.id == end
  {
    assert Blanks(edges)[j] == Blank(edges[j]);
    var k := StreamBlame.FindEdge(Blanks(edges), start, end);
    assert k <= j;
    assert Blanks(edges)[k] == Blank(edges[k]);
  }

  lemma {:induction false} LinkInOut(nodes: seq<Node>, l: Lists, a: Node, b: Node) returns (j: nat)
    requires Mirror(l) && a in nodes && Pair(l, a, b) != []
    ensures j < |OutOf(l, nodes)| && OutOf(l, nodes)[j].start == a && OutOf(l, nodes)[j].end == b
  {
    LinkIsListed(l, a, b);
    var e :| e in Of(l.outs, a) && e.start == a && e.end == b;
    OutOfHas(l, nodes, a, e);
    j :| 0 <= j < |OutOf(l, nodes)| && OutOf(l, nodes)[j] == e;
  }

  lemma {:induction false} LinkIsListed(l: Lists, a: Node, b: Node)
    requires Mirror(l) && Pair(l, a, b) != []
    ensures exists e :: e in Of(l.outs, a) && e.start == a && e.end == b
  {
    assert AllStart(Of(l.outs, a), a);
    ToSubset(Of(l.outs, a), b);
    assert Pair(l, a, b)[0] in Pair(l, a, b);
  }

  lemma {:induction false} EndsKnown(nodes: seq<Node>, l: Lists, id: nat, e: Edge, i: nat)
    requires GoodNodes(nodes, id) && Mirror(l) && UniqueIds(nodes, l) && 0 < i < |nodes| && e in OutOf(l, nodes)
    requires e.start.id == nodes[i - 1].id && e.end.id == nodes[i].id
    ensures e.start == nodes[i - 1] && e.end == nodes[i]
  {
    var j := OutOfFrom(l, nodes, e);
    assert AllStart(Of(l.outs, nodes[j]), nodes[j]);
    assert nodes[i] in nodes;
    SameId(nodes, id, j, i - 1);
  }

  lemma {:induction false} SameId(nodes: seq<Node>, id: nat, i: nat, j: nat)
    requires GoodNodes(nodes, id) && i < |nodes| && j < |nodes| && nodes[i].id == nodes[j].id
    ensures i == j
  {
  }

  /** However the graph grew, the blame distribution finds the edge between any two adjacent
      nodes of a stream, and it is as long as the time between them. */
  lemma {:induction false} EdgesForBlame(h: History, id: nat)
    requires Legal(h) && FreshIds(h) && Run(h).Some?
    ensures var w := Run(h).value; var nodes := NodesOf(w, id);
            StreamBlame.Chain(nodes, Blanks(OutOf(w.edges, nodes)))
  {
    var w := Run(h).value;
    var nodes := NodesOf(w, id);
    AlwaysChained(h, id);
    RunKeepsMirror(h);
    RunKeepsIds(h);
    IdsAreUnique(w, id);
    forall i | 0 < i < |nodes| ensures StreamBlame.Linked(nodes, Blanks(OutOf(w.edges, nodes)), i) {
      LinkedForBlame(nodes, w.edges, id, i);
    }
  }
}
