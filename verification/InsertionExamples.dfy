/**
 Traces on which adding a node does harm. Nodes that are read with the time of the last node, but
 come before it in the order of nodes, are inserted in front of it, so this needs no analysis
 rule that adds nodes later.
 */
module InsertionExamples {
  import opened Common
  import opened NodeOrder
  import opened EdgeLists
  import opened StreamGraph
  import opened ChainInvariant
  import opened MpiChain
  import opened GraphGrowth

  // The process starts, an MPI region lasts from time 3 to 5.
  function Process(): Node { Node(1, 0, 0, Atomic, 63, 0x8000_0000) }

  function MpiEnter(): Node { Node(2, 3, 0, Enter, PARADIGM_MPI, 0) }

  function MpiLeave(): Node { Node(3, 5, 0, Leave, PARADIGM_MPI, 0) }

  // A CUDA region is entered when the MPI region is left.
  function CudaEnter(): Node { Node(4, 5, 0, Enter, PARADIGM_CUDA, 0) }

  // An MPI node is added later within the MPI region.
  function LateMpi(): Node { Node(5, 4, 0, Enter, PARADIGM_MPI, 0) }

  function Region(): History { Then(Then(Then(Start, AddNode(Process())), AddNode(MpiEnter())), AddNode(MpiLeave())) }

  // Appending on stream zero.
  lemma {:induction false} Appended(h: History, nodes: seq<Node>, n: Node)
    requires Legal(h) && MpiLegal(h) && Run(h).Some? && NodesOf(Run(h).value, 0) == nodes && n.stream == 0
    requires Addable(nodes, n, 0) && (nodes == [] || CompareLess(nodes[|nodes| - 1], n))
    requires nodes != [] ==> PlainMpi(n) && Has(nodes[0], MPI)
    ensures var next := Then(h, AddNode(n));
            Legal(next) && MpiLegal(next) && Run(next).Some? && NodesOf(Run(next).value, 0) == nodes + [n]
  {
    AppendNeverSevers(nodes, n);
    MpiAlwaysChained(Then(h, AddNode(n)), 0);
    assert Inserted(nodes, n, |nodes|) == nodes + [n];
  }

  lemma {:induction false} Ordered()
    ensures Has(Process(), MPI) && Tracked(Process()) && Tracked(MpiEnter()) && Tracked(MpiLeave())
    ensures Tracked(CudaEnter()) && Tracked(LateMpi())
    ensures PlainMpi(MpiEnter()) && PlainMpi(MpiLeave()) && PlainMpi(CudaEnter())
    ensures Has(MpiEnter(), MPI) && Has(MpiLeave(), MPI) && !Has(CudaEnter(), MPI)
    ensures CompareLess(Process(), MpiEnter()) && CompareLess(MpiEnter(), MpiLeave())
    ensures CompareLess(Process(), CudaEnter()) && CompareLess(MpiEnter(), CudaEnter())
    ensures !CompareLess(MpiLeave(), CudaEnter())
    ensures CompareLess(Process(), LateMpi()) && CompareLess(MpiEnter(), LateMpi())
    ensures !CompareLess(CudaEnter(), LateMpi())
    ensures !CompareLess(MpiLeave(), LateMpi())
  {
    assert Has(Process(), MPI) && Has(MpiEnter(), MPI) && Has(MpiLeave(), MPI) && Has(CudaEnter(), 0)
        && Has(LateMpi(), MPI);
  }

  lemma {:induction false} RegionRuns()
    ensures Legal(Region()) && MpiLegal(Region()) && Run(Region()).Some?
    ensures NodesOf(Run(Region()).value, 0) == [Process(), MpiEnter(), MpiLeave()]
  {
    Ordered();
    FirstAdded(Process());
    EnterAdded(Then(Start, AddNode(Process())));
    var h2 := Then(Then(Start, AddNode(Process())), AddNode(MpiEnter()));
    Appended(h2, [Process(), MpiEnter()], MpiLeave());
    assert [Process(), MpiEnter()] + [MpiLeave()] == [Process(), MpiEnter(), MpiLeave()];
  }

  lemma {:induction false} FirstAdded(n: Node)
    requires n.stream == 0 && Tracked(n)
    ensures var h := Then(Start, AddNode(n));
            && Legal(h) && MpiLegal(h) && Run(h) == Some(World(map[0 := [n]], Lists(map[], map[])))
            && NodesOf(Run(h).value, 0) == [n]
  {
    assert Inserted([], n, 0) == [n];
  }

  lemma {:induction false} EnterAdded(h: History)
    requires Legal(h) && MpiLegal(h) && Run(h).Some? && NodesOf(Run(h).value, 0) == [Process()]
    ensures var next := Then(h, AddNode(MpiEnter()));
            Legal(next) && MpiLegal(next) && Run(next).Some? && NodesOf(Run(next).value, 0) == [Process(), MpiEnter()]
  {
    Ordered();
    Appended(h, [Process()], MpiEnter());
    assert [Process()] + [MpiEnter()] == [Process(), MpiEnter()];
  }

  lemma {:induction false} TiePosition(nodes: seq<Node>)
    requires nodes == [Process(), MpiEnter(), MpiLeave()]
    ensures Addable(nodes, CudaEnter(), 0) && Position(nodes, CudaEnter()) == 2 && Severs(nodes, CudaEnter(), 2)
  {
    Ordered();
    assert nodes[..2] == [Process(), MpiEnter()];
  }

  /** At equal times the CUDA node goes in front of the MPI leave and takes away the edge of the MPI
      region, which the reverse replay looks for. */
  lemma {:induction false} TieSevers()
    ensures var h := Then(Region(), AddNode(CudaEnter()));
            && Legal(h) && Run(h).Some?
            && Pair(Run(Region()).value.edges, MpiEnter(), MpiLeave()) != []
            && Pair(Run(h).value.edges, MpiEnter(), MpiLeave()) == []
            && !MpiLinked(NodesOf(Run(h).value, 0), Run(h).value.edges)
  {
    RegionRuns();
    var w := Run(Region()).value;
    var nodes := NodesOf(w, 0);
    TiePosition(nodes);
    AlwaysChained(Region(), 0);
    MpiAlwaysChained(Region(), 0);
    FailsExactly(nodes, w.edges, CudaEnter(), 2);
    MpiLinkedExactly(nodes, w.edges, CudaEnter(), 0);
    Ready(nodes, w.edges, CudaEnter(), 0);
    SeveredPair(nodes, w.edges, CudaEnter(), 2);
    assert Pair(w.edges, nodes[1], nodes[2]) != [];
  }

  /** If an MPI node is added to that region later, the program throws. */
  lemma {:induction false} LateNodeThrows()
    ensures var h := Then(Then(Region(), AddNode(CudaEnter())), AddNode(LateMpi())); Legal(h) && Run(h).None?
  {
    var h := Then(Region(), AddNode(CudaEnter()));
    RegionRuns();
    TieSevers();
    AlwaysChained(Region(), 0);
    var nodes := NodesOf(Run(Region()).value, 0);
    TiePosition(nodes);
    var all := [Process(), MpiEnter(), CudaEnter(), MpiLeave()];
    LateFails(Run(Region()).value.edges, nodes, all);
    LatePosition(all);
    StepFails(h, LateMpi());
  }

  lemma {:induction false} LatePosition(all: seq<Node>)
    requires all == [Process(), MpiEnter(), CudaEnter(), MpiLeave()]
    ensures Addable(all, LateMpi(), 0) && Position(all, LateMpi()) == 2
  {
    Ordered();
    var (three, two) := ([Process(), MpiEnter(), CudaEnter()], [Process(), MpiEnter()]);
    assert all[..3] == three && three[..2] == two;
    assert Position(two, LateMpi()) == 2;
    assert Position(three, LateMpi()) == Position(two, LateMpi());
  }

  lemma {:induction false} LateFails(l: Lists, nodes: seq<Node>, all: seq<Node>)
    requires nodes == [Process(), MpiEnter(), MpiLeave()] && all == [Process(), MpiEnter(), CudaEnter(), MpiLeave()]
    requires Chain(nodes, l, 0) && Connect(l, nodes, CudaEnter(), 2).Some?
    ensures Inserted(nodes, CudaEnter(), 2) == all
    ensures Connect(Connect(l, nodes, CudaEnter(), 2).value, all, LateMpi(), 2).None?
  {
    TiePosition(nodes);
    LatePosition(all);
    assert Inserted(nodes, CudaEnter(), 2) == all;
    SeveredThenFails(nodes, l, CudaEnter(), LateMpi(), 0, 2, 2);
  }

  lemma {:induction false} StepFails(h: History, n: Node)
    requires Run(h).Some?
    requires Connect(Run(h).value.edges, NodesOf(Run(h).value, n.stream), n,
            Position(NodesOf(Run(h).value, n.stream), n)).None?
    ensures Run(Then(h, AddNode(n))).None?
  {
  }

  // ----- A wait state is split -----

  function WaitEnter(id: nat, time: nat): Node { Node(id, time, 0, Enter, PARADIGM_CUDA, OFLD_WAITSTATE) }

  function WaitLeave(): Node { Node(2, 5, 0, Leave, PARADIGM_CUDA, OFLD_WAITSTATE) }

  function Waiting(): History { Then(Then(Start, AddNode(WaitEnter(1, 3))), AddNode(WaitLeave())) }

  lemma {:induction false} WaitOrder()
    ensures Has(WaitEnter(1, 3), 0) && Has(WaitEnter(3, 4), 0) && Has(WaitLeave(), 0)
    ensures CompareLess(WaitEnter(1, 3), WaitLeave()) && CompareLess(WaitEnter(1, 3), WaitEnter(3, 4))
    ensures !CompareLess(WaitLeave(), WaitEnter(3, 4))
    ensures Blocks(WaitEnter(1, 3), WaitLeave()) && Blocks(WaitEnter(3, 4), WaitLeave())
  {
  }

  lemma {:induction false} WaitingRuns()
    ensures Legal(Waiting()) && Run(Waiting()).Some?
    ensures NodesOf(Run(Waiting()).value, 0) == [WaitEnter(1, 3), WaitLeave()]
    ensures FlagsRight([WaitEnter(1, 3), WaitLeave()], Run(Waiting()).value.edges)
  {
    WaitOrder();
    FirstAdded(WaitEnter(1, 3));
    WaitAdded(Then(Start, AddNode(WaitEnter(1, 3))), WaitEnter(1, 3), WaitLeave());
  }

  lemma {:induction false} WaitAdded(h: History, a: Node, b: Node)
    requires Legal(h) && Run(h) == Some(World(map[0 := [a]], Lists(map[], map[]))) && Addable([a], b, 0)
    requires CompareLess(a, b) && !Has(b, MPI)
    ensures var next := Then(h, AddNode(b));
            Legal(next) && Run(next).Some? && NodesOf(Run(next).value, 0) == [a, b]
                && FlagsRight([a, b], Run(next).value.edges)
  {
    AlwaysChained(h, 0);
    var l := Run(h).value.edges;
    AppendNeverSevers([a], b);
    FailsExactly([a], l, b, 1);
    FlagsRightExactly([a], l, b, 0);
    assert Inserted([a], b, 1) == [a, b];
  }

  /** A wait state is entered at 3 and left at 5; later another enter is added at 4. The edge from
      there to the leave is not blocking, which the program's own sanity check, runSanityCheck, rejects. */
  lemma {:induction false} SplitWaitState()
    ensures var h := Then(Waiting(), AddNode(WaitEnter(3, 4)));
            && Legal(h) && Run(h).Some? && Blocks(WaitEnter(3, 4), WaitLeave())
            && Pair(Run(h).value.edges, WaitEnter(3, 4), WaitLeave()) != []
            && !Pair(Run(h).value.edges, WaitEnter(3, 4), WaitLeave())[0].blocking
  {
    WaitingRuns();
    AlwaysChained(Waiting(), 0);
    SplitsHere(Run(Waiting()).value.edges, [WaitEnter(1, 3), WaitLeave()], WaitEnter(3, 4));
  }

  lemma {:induction false} SplitsHere(l: Lists, nodes: seq<Node>, n: Node)
    requires nodes == [WaitEnter(1, 3), WaitLeave()] && n == WaitEnter(3, 4) && Chain(nodes, l, 0)
    ensures Addable(nodes, n, 0) && Position(nodes, n) == 1 && Connect(l, nodes, n, 1).Some?
    ensures var p := Pair(Connect(l, nodes, n, 1).value, n, WaitLeave()); p != [] && !p[0].blocking
  {
    WaitOrder();
    assert nodes[..1] == [WaitEnter(1, 3)];
    FailsExactly(nodes, l, n, 1);
    SortedDistinct(nodes);
    Effect(l, nodes, n, 1, n, WaitLeave());
  }
}
