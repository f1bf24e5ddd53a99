/**
 Runs of the event graph's construction: nodes are added to any streams in any interleaving,
 and analysis rules add edges in between, across streams or forward on one stream.
 */
module GraphGrowth {
  import opened Common
  import opened NodeOrder
  import opened EdgeLists
  import opened StreamGraph
  import opened ChainInvariant
  import opened MpiChain

  datatype World = World(streams: map<nat, seq<Node>>, edges: Lists)

  datatype Op = AddNode(node: Node) | AddEdge(edge: Edge)

  datatype History = Start | Then(before: History, op: Op)

  function NodesOf(w: World, id: nat): seq<Node> { if id in w.streams then w.streams[id] else [] }

  // None where the program gives up.
  function Step(w: World, op: Op): Option<World> {
    match op
    case AddNode(n) =>
      var nodes := NodesOf(w, n.stream);
      var p := Position(nodes, n);
      var l := Connect(w.edges, nodes, n, p);
      if l.None? then None else Some(World(w.streams[n.stream := Inserted(nodes, n, p)], l.value))
    case AddEdge(e) => Some(World(w.streams, Add(w.edges, e)))
  }

  function Run(h: History): Option<World> {
    match h
    case Start => Some(World(map[], Lists(map[], map[])))
    case Then(before, op) => var w := Run(before); if w.None? then None else Step(w.value, op)
  }

  ghost predicate LegalOp(w: World, op: Op) {
    match op
    case AddNode(n) => Addable(NodesOf(w, n.stream), n, n.stream)
    case AddEdge(e) => e.start.stream != e.end.stream || NewForward(NodesOf(w, e.end.stream), w.edges, e)
  }

  // A rule adds an edge on one stream only after it found none between the two nodes.
  predicate NewForward(nodes: seq<Node>, l: Lists, e: Edge) {
    e.start in nodes && e.end in nodes && CompareLess(e.start, e.end) && Pair(l, e.start, e.end) == []
  }

  ghost predicate Legal(h: History) {
    h.Then? ==> Legal(h.before) && Run(h.before).Some? && LegalOp(Run(h.before).value, h.op)
  }

  // ----- Other streams -----

  // No edge between nodes of stream `id` changes.
  ghost predicate SameOn(l: Lists, m: Lists, id: nat) {
    forall a: Node, b: Node :: a.stream == id == b.stream ==> Pair(m, a, b) == Pair(l, a, b)
  }

  lemma {:induction false} OthersKept(nodes: seq<Node>, l: Lists, n: Node, id: nat)
    requires GoodNodes(nodes, n.stream) && Addable(nodes, n, n.stream) && id != n.stream
    requires Connect(l, nodes, n, Position(nodes, n)).Some?
    ensures SameOn(l, Connect(l, nodes, n, Position(nodes, n)).value, id)
  {
    var p := Position(nodes, n);
    PositionSplits(nodes, n, n.stream);
    SortedDistinct(nodes);
    if p > 0 {
      forall a: Node, b: Node | a.stream == id == b.stream
        ensures Pair(Connect(l, nodes, n, p).value, a, b) == Pair(l, a, b)
      {
        Effect(l, nodes, n, p, a, b);
      }
    }
  }

  lemma {:induction false} CrossEdge(l: Lists, e: Edge, id: nat)
    requires e.start.stream != e.end.stream || e.start.stream != id
    ensures SameOn(l, Add(l, e), id)
  {
    forall a: Node, b: Node | a.stream == id == b.stream ensures Pair(Add(l, e), a, b) == Pair(l, a, b) {
      PairAdd(l, e, a, b);
    }
  }

  lemma {:induction false} ChainOnlyLooksAt(nodes: seq<Node>, l: Lists, m: Lists, id: nat)
    requires Chain(nodes, l, id) && SameOn(l, m, id)
    ensures Chain(nodes, m, id)
  {
  }

  lemma {:induction false} ForwardEdge(nodes: seq<Node>, l: Lists, e: Edge, id: nat)
    requires Chain(nodes, l, id) && NewForward(nodes, l, e)
    ensures Chain(nodes, Add(l, e), id)
  {
    forall a: Node, b: Node | a.stream == id == b.stream && Pair(Add(l, e), a, b) != []
      ensures a in nodes && b in nodes && CompareLess(a, b) && |Pair(Add(l, e), a, b)| == 1
    {
      PairAdd(l, e, a, b);
    }
    forall i | 0 < i < |nodes| ensures Pair(Add(l, e), nodes[i - 1], nodes[i]) != [] {
      PairAdd(l, e, nodes[i - 1], nodes[i]);
    }
  }

  // ----- Chains over runs -----

  lemma {:induction false} StepKeepsChains(w: World, op: Op, id: nat)
    requires (forall s: nat :: Chain(NodesOf(w, s), w.edges, s)) && LegalOp(w, op) && Step(w, op).Some?
    ensures Chain(NodesOf(Step(w, op).value, id), Step(w, op).value.edges, id)
  {
    assert Chain(NodesOf(w, id), w.edges, id);
    match op
    case AddNode(n) =>
      var nodes := NodesOf(w, n.stream);
      assert Chain(nodes, w.edges, n.stream);
      if id == n.stream {
        ChainKept(nodes, w.edges, n, id);
      } else {
        OthersKept(nodes, w.edges, n, id);
        ChainOnlyLooksAt(NodesOf(w, id), w.edges, Step(w, op).value.edges, id);
      }
    case AddEdge(e) =>
      if e.start.stream == e.end.stream == id {
        ForwardEdge(NodesOf(w, id), w.edges, e, id);
      } else {
        CrossEdge(w.edges, e, id);
        ChainOnlyLooksAt(NodesOf(w, id), w.edges, Step(w, op).value.edges, id);
      }
  }

  /** However the graph grows, each stream is a strictly sorted chain. */
  lemma {:induction false} AlwaysChained(h: History, id: nat)
    requires Legal(h) && Run(h).Some?
    ensures Chain(NodesOf(Run(h).value, id), Run(h).value.edges, id)
  {
    if h.Then? {
      forall s: nat ensures Chain(NodesOf(Run(h.before).value, s), Run(h.before).value.edges, s) {
        AlwaysChained(h.before, s);
      }
      StepKeepsChains(Run(h.before).value, h.op, id);
    }
  }

  // ----- MPI chains over runs -----

  // MPI nodes go to the streams of processes, which start with the artificial first node or an
  // MPI node, adjacent MPI nodes are not separated, and rules add no edges between MPI nodes of
  // one stream.
  predicate MpiLegalOp(w: World, op: Op) {
    match op
    case AddNode(n) =>
      var nodes := NodesOf(w, n.stream);
      nodes == [] || (PlainMpi(n) && (Has(n, MPI) ==> Has(nodes[0], MPI)) && !Severs(nodes, n, Position(nodes, n)))
    case AddEdge(e) => e.start.stream == e.end.stream ==> !Has(e.start, MPI) || !Has(e.end, MPI)
  }

  ghost predicate MpiLegal(h: History) {
    h.Then? ==> MpiLegal(h.before) && (Run(h.before).Some? ==> MpiLegalOp(Run(h.before).value, h.op))
  }

  ghost predicate MpiGood(nodes: seq<Node>, l: Lists) {
    && MpiLinked(nodes, l) && MpiOnlyNext(nodes, l)
    && (nodes != [] && !Has(nodes[0], MPI) ==> forall i :: 0 <= i < |nodes| ==> !Has(nodes[i], MPI))
  }

  lemma {:induction false} MpiOnlyLooksAt(nodes: seq<Node>, l: Lists, m: Lists, id: nat)
    requires MpiGood(nodes, l) && SameOn(l, m, id) && forall i :: 0 <= i < |nodes| ==> nodes[i].stream == id
    ensures MpiGood(nodes, m)
  {
  }

  lemma {:induction false} MpiGoodKept(nodes: seq<Node>, l: Lists, n: Node, id: nat)
    requires Chain(nodes, l, id) && Addable(nodes, n, id) && MpiGood(nodes, l)
    requires nodes == [] || (PlainMpi(n) && (Has(n, MPI) ==> Has(nodes[0], MPI))
            && !Severs(nodes, n, Position(nodes, n)))
    ensures Connect(l, nodes, n, Position(nodes, n)).Some?
    ensures var p := Position(nodes, n);
            MpiGood(Inserted(nodes, n, p), Connect(l, nodes, n, p).value)
  {
    var p := Position(nodes, n);
    PositionSplits(nodes, n, id);
    if nodes != [] {
      FailsExactly(nodes, l, n, p);
      MpiOnlyNextKept(nodes, l, n, id);
      InsertedAt(nodes, n, p);
      if Has(nodes[0], MPI) {
        MpiLinkedExactly(nodes, l, n, id);
      } else {
        NoMpi(nodes, n, p, Inserted(nodes, n, p));
      }
    }
  }

  lemma {:induction false} NoMpi(nodes: seq<Node>, n: Node, p: nat, all: seq<Node>)
    requires IsInserted(nodes, n, p, all) && !Has(n, MPI) && forall i :: 0 <= i < |nodes| ==> !Has(nodes[i], MPI)
    ensures forall i :: 0 <= i < |all| ==> !Has(all[i], MPI)
  {
    forall i | 0 <= i < |all| ensures !Has(all[i], MPI) {
      assert all[i] == n || all[i] == nodes[if i < p then i else i - 1];
    }
  }

  lemma {:induction false} StepKeepsMpi(w: World, op: Op, id: nat)
    requires forall s: nat :: Chain(NodesOf(w, s), w.edges, s) && MpiGood(NodesOf(w, s), w.edges)
    requires LegalOp(w, op) && MpiLegalOp(w, op)
    ensures Step(w, op).Some? && MpiGood(NodesOf(Step(w, op).value, id), Step(w, op).value.edges)
  {
    assert Chain(NodesOf(w, id), w.edges, id);
    match op
    case AddNode(n) =>
      var nodes := NodesOf(w, n.stream);
      assert Chain(nodes, w.edges, n.stream);
      MpiGoodKept(nodes, w.edges, n, n.stream);
      if id != n.stream {
        OthersKept(nodes, w.edges, n, id);
        MpiOnlyLooksAt(NodesOf(w, id), w.edges, Step(w, op).value.edges, id);
      }
    case AddEdge(e) =>
      if e.start.stream == e.end.stream == id {
        OtherEdge(NodesOf(w, id), w.edges, e);
      } else {
        CrossEdge(w.edges, e, id);
        MpiOnlyLooksAt(NodesOf(w, id), w.edges, Step(w, op).value.edges, id);
      }
  }

  lemma {:induction false} OtherEdge(nodes: seq<Node>, l: Lists, e: Edge)
    requires MpiGood(nodes, l) && (!Has(e.start, MPI) || !Has(e.end, MPI))
    ensures MpiGood(nodes, Add(l, e))
  {
    forall a, b | Has(a, MPI) && Has(b, MPI) ensures Pair(Add(l, e), a, b) == Pair(l, a, b) { PairAdd(l, e, a, b); }
  }

  /** If no addition separates adjacent MPI nodes, the program never gives up, and on each stream
      the edges of the MPI subgraph are exactly those between consecutive MPI nodes: the search
      for the predecessor of an MPI node always succeeds. */
  lemma {:induction false} MpiAlwaysChained(h: History, id: nat)
    requires Legal(h) && MpiLegal(h)
    ensures Run(h).Some? && MpiLinked(NodesOf(Run(h).value, id), Run(h).value.edges)
    ensures MpiOnlyNext(NodesOf(Run(h).value, id), Run(h).value.edges)
  {
    MpiRun(h, id);
  }

  lemma {:induction false} MpiRun(h: History, id: nat)
    requires Legal(h) && MpiLegal(h)
    ensures Run(h).Some? && MpiGood(NodesOf(Run(h).value, id), Run(h).value.edges)
  {
    if h.Then? {
      forall s: nat
        ensures Chain(NodesOf(Run(h.before).value, s), Run(h.before).value.edges, s)
        ensures MpiGood(NodesOf(Run(h.before).value, s), Run(h.before).value.edges)
      {
        AlwaysChained(h.before, s);
        MpiRun(h.before, s);
      }
      StepKeepsMpi(Run(h.before).value, h.op, id);
    }
  }

  /** Appending never separates nodes. */
  lemma {:induction false} AppendNeverSevers(nodes: seq<Node>, n: Node)
    requires nodes == [] || CompareLess(nodes[|nodes| - 1], n)
    ensures Position(nodes, n) == |nodes| && !Severs(nodes, n, Position(nodes, n))
  {
  }

  /** After an addition that separates two MPI nodes, no MPI node can be added between them: not
      before and not behind the node that separates them. */
  lemma {:induction false} SeveredThenFails(nodes: seq<Node>, l: Lists, n: Node, m: Node, id: nat, p: nat, q: nat)
    requires Chain(nodes, l, id) && Addable(nodes, n, id) && p == Position(nodes, n) && Severs(nodes, n, p)
    requires m.paradigm == PARADIGM_MPI && m != n && m !in nodes && p <= q <= p + 1
    ensures Connect(l, nodes, n, p).Some? ==> Connect(Connect(l, nodes, n, p).value, Inserted(nodes, n, p), m, q).None?
  {
    var all := Inserted(nodes, n, p);
    PositionSplits(nodes, n, id);
    if Connect(l, nodes, n, p).Some? {
      Ready(nodes, l, n, id);
      InsertedAt(nodes, n, p);
      InsertedHas(nodes, n, p);
      SeveredPair(nodes, l, n, p);
      assert all[p - 1] == nodes[p - 1] && all[p] == n && all[p + 1] == nodes[p];
      FailsBetween(all, Connect(l, nodes, n, p).value, m, p, q);
    }
  }

  lemma {:induction false} SeveredPair(nodes: seq<Node>, l: Lists, n: Node, p: nat)
    requires ReadyFor(nodes, l, n, p) && Severs(nodes, n, p)
    ensures Pair(Connect(l, nodes, n, p).value, nodes[p - 1], nodes[p]) == []
  {
    Effect(l, nodes, n, p, nodes[p - 1], nodes[p]);
    assert |Pair(l, nodes[p - 1], nodes[p])| <= 1;
  }

  lemma {:induction false} FailsBetween(all: seq<Node>, l: Lists, m: Node, p: nat, q: nat)
    requires 0 < p < |all| - 1 && p <= q <= p + 1 && m !in all && m.paradigm == PARADIGM_MPI
    requires Has(all[p - 1], MPI) && !Has(all[p], MPI) && Has(all[p + 1], MPI) && Pair(l, all[p - 1], all[p + 1]) == []
    ensures Connect(l, all, m, q).None?
  {
    Around(all, p, q);
    MissingFails(l, all, m, q, p - 1, p + 1);
  }

  lemma {:induction false} MissingFails(l: Lists, nodes: seq<Node>, n: Node, q: nat, i: nat, j: nat)
    requires i < q <= j < |nodes| && n.paradigm == PARADIGM_MPI && nodes[j] != n && Pair(l, nodes[i], nodes[j]) == []
    requires LastBefore(nodes, q, MPI) == Some(i) && FirstFrom(nodes, q, MPI) == Some(j)
    ensures Connect(l, nodes, n, q).None?
  {
    PairAdd(l, Edge(nodes[i], n, Blocks(nodes[i], n), PARADIGM_MPI), nodes[i], nodes[j]);
  }

  lemma {:induction false} Around(all: seq<Node>, p: nat, q: nat)
    requires 0 < p < |all| - 1 && p <= q <= p + 1 && Has(all[p - 1], MPI) && !Has(all[p], MPI) && Has(all[p + 1], MPI)
    ensures LastBefore(all, q, MPI) == Some(p - 1) && FirstFrom(all, q, MPI) == Some(p + 1)
  {
  }
}
