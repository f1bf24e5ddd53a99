/**
 The MPI subgraph of a stream and the blocking flags of its edges. Each claim is kept by one
 addition exactly if that addition is not of a kind that can be named beforehand.
 */
module MpiChain {
  import opened Common
  import opened NodeOrder
  import opened EdgeLists
  import opened StreamGraph
  import opened ChainInvariant

  predicate HasMpiEdge(l: Lists, a: Node, b: Node) {
    Pair(l, a, b) != [] && Pair(l, a, b)[0].paradigm & PARADIGM_MPI != 0
  }

  // Every MPI node but the first has an MPI edge from the MPI node before it. The reverse replay
  // looks for the predecessor of an MPI node among these edges.
  ghost predicate MpiLinked(nodes: seq<Node>, l: Lists) {
    forall j :: 0 <= j < |nodes| && Has(nodes[j], MPI) && LastBefore(nodes, j, MPI).Some? ==>
      HasMpiEdge(l, nodes[LastBefore(nodes, j, MPI).value], nodes[j])
  }

  // And no other edge leads to it from an MPI node.
  ghost predicate MpiOnlyNext(nodes: seq<Node>, l: Lists) {
    forall i, j ::
      0 <= i < j < |nodes| && Has(nodes[i], MPI) && Has(nodes[j], MPI) && Pair(l, nodes[i], nodes[j]) != [] ==>
        LastBefore(nodes, j, MPI) == Some(i)
  }

  // Only the artificial first node of a process belongs to more than one paradigm.
  predicate PlainMpi(n: Node) { Has(n, MPI) ==> n.paradigm == PARADIGM_MPI }

  // Another paradigm's node comes between two MPI nodes that were adjacent.
  predicate Severs(nodes: seq<Node>, n: Node, p: nat)
    requires p <= |nodes|
  {
    !Has(n, MPI) && 0 < p < |nodes| && Has(nodes[p - 1], MPI) && Has(nodes[p], MPI)
  }

  // ----- Predecessors after an addition -----

  lemma {:induction false} LastBeforeIn(nodes: seq<Node>, n: Node, p: nat, all: seq<Node>, j: nat)
    requires IsInserted(nodes, n, p, all) && j <= |nodes|
    ensures j <= p ==> LastBefore(all, j, MPI) == LastBefore(nodes, j, MPI)
    ensures j >= p ==>
              var was := LastBefore(nodes, j, MPI);
              LastBefore(all, j + 1, MPI) ==
              if was.Some? && was.value >= p then Some(was.value + 1) else if Has(n, MPI) then Some(p) else was
  {
    if j <= p {
      LastIs(all, j, MPI, LastBefore(nodes, j, MPI));
    } else {
      var was := LastBefore(nodes, j, MPI);
      forall k | 0 <= k < j + 1 && k != p ensures all[k] == nodes[if k < p then k else k - 1] { }
      LastIs(all, j + 1, MPI, if was.Some? && was.value >= p then Some(was.value + 1)
          else if Has(n, MPI) then Some(p) else was);
    }
  }

  // ----- One addition -----

  // The new node has no edges yet, and no two edges are parallel.
  ghost predicate ReadyFor(nodes: seq<Node>, l: Lists, n: Node, p: nat) {
    && 0 < p <= |nodes| && Distinct(nodes) && n !in nodes && Connect(l, nodes, n, p).Some?
    && Pair(l, n, n) == [] && (forall a :: a in nodes ==> Pair(l, a, n) == [] == Pair(l, n, a))
    && (forall a, b :: a in nodes && b in nodes ==> |Pair(l, a, b)| <= 1)
  }

  lemma {:induction false} Ready(nodes: seq<Node>, l: Lists, n: Node, id: nat)
    requires Chain(nodes, l, id) && Addable(nodes, n, id) && nodes != []
    requires Connect(l, nodes, n, Position(nodes, n)).Some?
    ensures ReadyFor(nodes, l, n, Position(nodes, n))
  {
    PositionSplits(nodes, n, id);
    SortedDistinct(nodes);
    forall a | a in nodes ensures Pair(l, a, n) == [] == Pair(l, n, a) { }
  }

  // Around a new MPI node.
  lemma {:induction false} MpiLinksNew(nodes: seq<Node>, l: Lists, n: Node, p: nat)
    requires ReadyFor(nodes, l, n, p) && Has(nodes[0], MPI) && n.paradigm == PARADIGM_MPI
    ensures var (mp, ms) := (LastBefore(nodes, p, MPI), FirstFrom(nodes, p, MPI));
            var l' := Connect(l, nodes, n, p).value;
            && mp.Some? && HasMpiEdge(l', nodes[mp.value], n)
            && (ms.Some? ==> HasMpiEdge(l', n, nodes[ms.value]))
  {
    var (mp, ms) := (LastBefore(nodes, p, MPI), FirstFrom(nodes, p, MPI));
    Effect(l, nodes, n, p, nodes[mp.value], n);
    if ms.Some? { Effect(l, nodes, n, p, n, nodes[ms.value]); }
  }

  // Between two MPI nodes that were in the list before.
  lemma {:induction false} MpiLinksOld(nodes: seq<Node>, l: Lists, n: Node, p: nat, j: nat)
    requires ReadyFor(nodes, l, n, p) && PlainMpi(n) && MpiLinked(nodes, l)
    requires j < |nodes| && Has(nodes[j], MPI) && LastBefore(nodes, j, MPI).Some?
    requires j < p || LastBefore(nodes, j, MPI).value >= p || !Has(n, MPI)
    ensures HasMpiEdge(Connect(l, nodes, n, p).value, nodes[LastBefore(nodes, j, MPI).value], nodes[j])
            <==> !(Severs(nodes, n, p) && j == p)
  {
    var i := LastBefore(nodes, j, MPI).value;
    Effect(l, nodes, n, p, nodes[i], nodes[j]);
    assert nodes[i] in nodes && nodes[j] in nodes;
    CutOnly(nodes, n, p, i, j);
  }

  lemma {:induction false} CutOnly(nodes: seq<Node>, n: Node, p: nat, i: nat, j: nat)
    requires 0 < p <= |nodes| && Distinct(nodes) && i < j < |nodes|
    ensures Cut(nodes, n, p, nodes[i], nodes[j]) ==> i < p <= j
    ensures n.paradigm != PARADIGM_MPI ==>
            (Cut(nodes, n, p, nodes[i], nodes[j]) <==> p < |nodes| && i == p - 1 && j == p)
  {
  }

  // Position of the new list as a position of the old one.
  function Back(p: nat, k: nat): nat { if k <= p then k else k - 1 }

  // Consecutive MPI nodes of the new list, neither of them new, were consecutive before.
  lemma {:induction false} WereConsecutive(nodes: seq<Node>, n: Node, p: nat, all: seq<Node>, i: nat, j: nat)
    requires IsInserted(nodes, n, p, all) && j < |all| && Has(all[j], MPI) && LastBefore(all, j, MPI) == Some(i)
    requires !Has(n, MPI) || (i != p && j != p)
    ensures i != p && j != p && all[i] == nodes[Back(p, i)] && all[j] == nodes[Back(p, j)]
    ensures LastBefore(nodes, Back(p, j), MPI) == Some(Back(p, i))
    ensures j < p || Back(p, i) >= p || !Has(n, MPI)
    ensures Back(p, j) == p <==> j == p + 1
  {
    LastBeforeIn(nodes, n, p, all, Back(p, j));
  }

  lemma {:induction false} MpiLinkToNew(nodes: seq<Node>, l: Lists, n: Node, p: nat, all: seq<Node>)
    requires ReadyFor(nodes, l, n, p) && Has(nodes[0], MPI) && n.paradigm == PARADIGM_MPI
    requires IsInserted(nodes, n, p, all)
    ensures LastBefore(all, p, MPI).Some?
    ensures HasMpiEdge(Connect(l, nodes, n, p).value, all[LastBefore(all, p, MPI).value], all[p])
  {
    LastBeforeIn(nodes, n, p, all, p);
    MpiLinksNew(nodes, l, n, p);
  }

  lemma {:induction false} MpiLinkFromNew(nodes: seq<Node>, l: Lists, n: Node, p: nat, all: seq<Node>, j: nat)
    requires ReadyFor(nodes, l, n, p) && Has(nodes[0], MPI) && n.paradigm == PARADIGM_MPI
    requires IsInserted(nodes, n, p, all)
    requires p < j < |all| && Has(all[j], MPI) && LastBefore(all, j, MPI) == Some(p)
    ensures HasMpiEdge(Connect(l, nodes, n, p).value, all[p], all[j])
  {
    FirstBehind(nodes, n, p, all, j);
    MpiLinksNew(nodes, l, n, p);
  }

  lemma {:induction false} FirstBehind(nodes: seq<Node>, n: Node, p: nat, all: seq<Node>, j: nat)
    requires IsInserted(nodes, n, p, all) && p < j < |all| && Has(all[j], MPI) && LastBefore(all, j, MPI) == Some(p)
    ensures all[p] == n && all[j] == nodes[j - 1] && FirstFrom(nodes, p, MPI) == Some(j - 1)
  {
    LastBeforeIn(nodes, n, p, all, j - 1);
    FirstIs(nodes, p, MPI, Some(j - 1));
  }

  lemma {:induction false} MpiLinkAt(nodes: seq<Node>, l: Lists, n: Node, p: nat, all: seq<Node>, j: nat)
    requires ReadyFor(nodes, l, n, p) && Has(nodes[0], MPI) && PlainMpi(n) && MpiLinked(nodes, l)
    requires IsInserted(nodes, n, p, all)
    requires j < |all| && Has(all[j], MPI) && LastBefore(all, j, MPI).Some?
    ensures HasMpiEdge(Connect(l, nodes, n, p).value, all[LastBefore(all, j, MPI).value], all[j])
            <==> !(Severs(nodes, n, p) && j == p + 1)
  {
    var i := LastBefore(all, j, MPI).value;
    if Has(n, MPI) && j == p {
      MpiLinkToNew(nodes, l, n, p, all);
    } else if Has(n, MPI) && i == p {
      MpiLinkFromNew(nodes, l, n, p, all, j);
    } else {
      WereConsecutive(nodes, n, p, all, i, j);
      MpiLinksOld(nodes, l, n, p, Back(p, j));
    }
  }

  /** On the stream of a process every addition that is possible keeps the chain of MPI edges,
      unless it puts a node of another paradigm between two adjacent MPI nodes. */
  lemma {:induction false} MpiLinkedExactly(nodes: seq<Node>, l: Lists, n: Node, id: nat)
    requires Chain(nodes, l, id) && Addable(nodes, n, id) && nodes != [] && Has(nodes[0], MPI) && PlainMpi(n)
    requires MpiLinked(nodes, l) && Connect(l, nodes, n, Position(nodes, n)).Some?
    ensures var p := Position(nodes, n);
            MpiLinked(Inserted(nodes, n, p), Connect(l, nodes, n, p).value) <==> !Severs(nodes, n, p)
  {
    var p := Position(nodes, n);
    var all := Inserted(nodes, n, p);
    PositionSplits(nodes, n, id);
    Ready(nodes, l, n, id);
    InsertedAt(nodes, n, p);
    forall j | 0 <= j < |all| && Has(all[j], MPI) && LastBefore(all, j, MPI).Some?
      ensures HasMpiEdge(Connect(l, nodes, n, p).value, all[LastBefore(all, j, MPI).value], all[j])
              <==> !(Severs(nodes, n, p) && j == p + 1)
    {
      MpiLinkAt(nodes, l, n, p, all, j);
    }
    if Severs(nodes, n, p) {
      assert all[p + 1] == nodes[p];
      LastBeforeIn(nodes, n, p, all, p);
    }
  }

  /** The program gives up exactly if the edge between the two MPI neighbours is missing, which
      cannot happen while the chain is whole. */
  lemma {:induction false} FailsExactly(nodes: seq<Node>, l: Lists, n: Node, p: nat)
    requires 0 < p <= |nodes| && n !in nodes
    ensures Connect(l, nodes, n, p).None? <==>
            var (mp, ms) := (MpiBefore(nodes, n, p), MpiBehind(nodes, n, p));
            mp.Some? && ms.Some? && Pair(l, nodes[mp.value], nodes[ms.value]) == []
    ensures MpiLinked(nodes, l) ==> Connect(l, nodes, n, p).Some?
  {
    var (mp, ms) := (MpiBefore(nodes, n, p), MpiBehind(nodes, n, p));
    if mp.Some? && ms.Some? {
      var (a, b) := (nodes[mp.value], nodes[ms.value]);
      PairAdd(l, Edge(a, n, Blocks(a, n), PARADIGM_MPI), a, b);
      LastIs(nodes, ms.value, MPI, mp);
    }
  }

  // ----- No other MPI edges -----

  lemma {:induction false} OnlyNextToNew(nodes: seq<Node>, l: Lists, n: Node, p: nat, i: nat)
    requires ReadyFor(nodes, l, n, p) && PlainMpi(n) && Has(n, MPI) && i < |nodes| && Has(nodes[i], MPI)
    requires Pair(Connect(l, nodes, n, p).value, nodes[i], n) != []
    ensures LastBefore(nodes, p, MPI) == Some(i)
  {
    assert nodes[i] in nodes;
    Effect(l, nodes, n, p, nodes[i], n);
    InFromLast(nodes, n, p, i);
  }

  lemma {:induction false} InFromLast(nodes: seq<Node>, n: Node, p: nat, i: nat)
    requires 0 < p <= |nodes| && Distinct(nodes) && i < |nodes| && Has(nodes[i], MPI)
    requires n.paradigm == PARADIGM_MPI && InEdges(nodes, n, p, nodes[i]) != []
    ensures LastBefore(nodes, p, MPI) == Some(i)
  {
    if i == p - 1 { LastIs(nodes, p, MPI, Some(p - 1)); }
  }

  lemma {:induction false} OutToFirst(nodes: seq<Node>, n: Node, p: nat, i: nat)
    requires 0 < p <= |nodes| && Distinct(nodes) && i < |nodes| && Has(nodes[i], MPI)
    requires OutEdges(nodes, n, p, nodes[i]) != []
    ensures FirstFrom(nodes, p, MPI) == Some(i)
  {
  }

  lemma {:induction false} OnlyNextFromNew(nodes: seq<Node>, l: Lists, n: Node, p: nat, i: nat)
    requires ReadyFor(nodes, l, n, p) && PlainMpi(n) && Has(n, MPI) && i < |nodes| && Has(nodes[i], MPI)
    requires Pair(Connect(l, nodes, n, p).value, n, nodes[i]) != []
    ensures FirstFrom(nodes, p, MPI) == Some(i)
  {
    assert nodes[i] in nodes;
    Effect(l, nodes, n, p, n, nodes[i]);
    OutToFirst(nodes, n, p, i);
  }

  lemma {:induction false} OnlyNextOld(nodes: seq<Node>, l: Lists, n: Node, p: nat, i: nat, j: nat)
    requires ReadyFor(nodes, l, n, p) && PlainMpi(n) && MpiOnlyNext(nodes, l)
    requires i < j < |nodes| && Has(nodes[i], MPI) && Has(nodes[j], MPI)
    requires Pair(Connect(l, nodes, n, p).value, nodes[i], nodes[j]) != []
    ensures LastBefore(nodes, j, MPI) == Some(i)
    ensures !(Has(n, MPI) && i < p <= j)
  {
    Effect(l, nodes, n, p, nodes[i], nodes[j]);
    assert nodes[i] in nodes && nodes[j] in nodes;
    if Has(n, MPI) && i < p <= j {
      LastIs(nodes, p, MPI, Some(i));
      FirstIs(nodes, p, MPI, Some(j));
    }
  }

  lemma {:induction false} BehindNew(nodes: seq<Node>, n: Node, p: nat, all: seq<Node>, j: nat)
    requires IsInserted(nodes, n, p, all) && p < j < |all| && Has(n, MPI) && FirstFrom(nodes, p, MPI) == Some(j - 1)
    ensures LastBefore(all, j, MPI) == Some(p)
  {
    forall k | p < k < j ensures !Has(all[k], MPI) { assert all[k] == nodes[k - 1]; }
    LastIs(all, j, MPI, Some(p));
  }

  lemma {:induction false} StayConsecutive(nodes: seq<Node>, n: Node, p: nat, all: seq<Node>, i: nat, j: nat)
    requires IsInserted(nodes, n, p, all) && i < j < |all| && i != p && j != p
    requires LastBefore(nodes, Back(p, j), MPI) == Some(Back(p, i))
    requires !(Has(n, MPI) && Back(p, i) < p <= Back(p, j))
    ensures LastBefore(all, j, MPI) == Some(i)
  {
    LastBeforeIn(nodes, n, p, all, Back(p, j));
  }

  lemma {:induction false} OnlyNextOther(nodes: seq<Node>, l: Lists, n: Node, p: nat, all: seq<Node>, i: nat, j: nat)
    requires ReadyFor(nodes, l, n, p) && PlainMpi(n) && MpiOnlyNext(nodes, l) && IsInserted(nodes, n, p, all)
    requires i < j < |all| && i != p && j != p && Has(all[i], MPI) && Has(all[j], MPI)
    requires Pair(Connect(l, nodes, n, p).value, all[i], all[j]) != []
    ensures LastBefore(all, j, MPI) == Some(i)
  {
    var (x, y) := (Back(p, i), Back(p, j));
    assert all[i] == nodes[x] && all[j] == nodes[y];
    OnlyNextOld(nodes, l, n, p, x, y);
    StayConsecutive(nodes, n, p, all, i, j);
  }

  lemma {:induction false} OnlyNextAt(nodes: seq<Node>, l: Lists, n: Node, p: nat, all: seq<Node>, i: nat, j: nat)
    requires ReadyFor(nodes, l, n, p) && PlainMpi(n) && MpiOnlyNext(nodes, l) && IsInserted(nodes, n, p, all)
    requires i < j < |all| && Has(all[i], MPI) && Has(all[j], MPI)
    requires Pair(Connect(l, nodes, n, p).value, all[i], all[j]) != []
    ensures LastBefore(all, j, MPI) == Some(i)
  {
    if j == p {
      LastBeforeIn(nodes, n, p, all, p);
      OnlyNextToNew(nodes, l, n, p, i);
    } else if i == p {
      assert all[j] == nodes[j - 1];
      OnlyNextFromNew(nodes, l, n, p, j - 1);
      BehindNew(nodes, n, p, all, j);
    } else {
      OnlyNextOther(nodes, l, n, p, all, i, j);
    }
  }

  /** Edges of the MPI subgraph only ever join consecutive MPI nodes of a stream. */
  lemma {:induction false} MpiOnlyNextKept(nodes: seq<Node>, l: Lists, n: Node, id: nat)
    requires Chain(nodes, l, id) && Addable(nodes, n, id) && nodes != [] && PlainMpi(n)
    requires MpiOnlyNext(nodes, l) && Connect(l, nodes, n, Position(nodes, n)).Some?
    ensures var p := Position(nodes, n);
            MpiOnlyNext(Inserted(nodes, n, p), Connect(l, nodes, n, p).value)
  {
    var p := Position(nodes, n);
    var all := Inserted(nodes, n, p);
    PositionSplits(nodes, n, id);
    Ready(nodes, l, n, id);
    InsertedAt(nodes, n, p);
    forall i, j | 0 <= i < j < |all| && Has(all[i], MPI) && Has(all[j], MPI)
        && Pair(Connect(l, nodes, n, p).value, all[i], all[j]) != []
      ensures LastBefore(all, j, MPI) == Some(i)
    {
      OnlyNextAt(nodes, l, n, p, all, i, j);
    }
  }

  // ----- Blocking flags -----

  // Exactly the edges over a whole wait state are blocking.
  ghost predicate FlagsRight(nodes: seq<Node>, l: Lists) {
    forall a, b :: a in nodes && b in nodes && Pair(l, a, b) != [] ==>
      (Pair(l, a, b)[0].blocking <==> a.record == Enter && b.record == Leave && IsWaitstate(a) && IsWaitstate(b))
  }

  /** Each paradigm has its own bit for wait states. */
  lemma {:induction false} WaitstateBits(n: Node)
    ensures n.paradigm == PARADIGM_MPI ==> (IsWaitstate(n) <==> n.kind & MPI_WAITSTATE != 0)
    ensures n.paradigm == PARADIGM_OMP ==> (IsWaitstate(n) <==> n.kind & OMP_WAITSTATE != 0)
    ensures n.paradigm == 1 || n.paradigm == 2 ==> (IsWaitstate(n) <==> n.kind & OFLD_WAITSTATE != 0)
  {
  }

  // The node starts a wait state and comes right before a leave node of one.
  predicate SplitsWait(nodes: seq<Node>, n: Node, p: nat)
    requires p <= |nodes|
  {
    var ms := MpiBehind(nodes, n, p);
    p < |nodes| && (Blocks(n, nodes[p]) || (ms.Some? && Blocks(n, nodes[ms.value])))
  }

  /** Edges to later nodes are made non-blocking without a look at them. The flags stay right
      exactly if this never splits a wait state. */
  lemma {:induction false} FlagsRightExactly(nodes: seq<Node>, l: Lists, n: Node, id: nat)
    requires Chain(nodes, l, id) && Addable(nodes, n, id) && nodes != []
    requires FlagsRight(nodes, l) && Connect(l, nodes, n, Position(nodes, n)).Some?
    ensures var p := Position(nodes, n);
            FlagsRight(Inserted(nodes, n, p), Connect(l, nodes, n, p).value) <==> !SplitsWait(nodes, n, p)
  {
    var p := Position(nodes, n);
    PositionSplits(nodes, n, id);
    Ready(nodes, l, n, id);
    InsertedHas(nodes, n, p);
    var l' := Connect(l, nodes, n, p).value;
    if SplitsWait(nodes, n, p) {
      FlagLost(nodes, l, n, p);
    } else {
      forall a, b | (a in nodes || a == n) && (b in nodes || b == n) && Pair(l', a, b) != []
        ensures Pair(l', a, b)[0].blocking == Blocks(a, b)
      {
        FlagKept(nodes, l, n, p, a, b);
      }
    }
  }

  lemma {:induction false} FlagKept(nodes: seq<Node>, l: Lists, n: Node, p: nat, a: Node, b: Node)
    requires ReadyFor(nodes, l, n, p) && FlagsRight(nodes, l) && !SplitsWait(nodes, n, p)
    requires (a in nodes || a == n) && (b in nodes || b == n) && Pair(Connect(l, nodes, n, p).value, a, b) != []
    ensures Pair(Connect(l, nodes, n, p).value, a, b)[0].blocking == Blocks(a, b)
  {
    Effect(l, nodes, n, p, a, b);
    if a != n && b != n { assert |Pair(l, a, b)| <= 1; }
  }

  lemma {:induction false} FlagLost(nodes: seq<Node>, l: Lists, n: Node, p: nat)
    requires ReadyFor(nodes, l, n, p) && SplitsWait(nodes, n, p)
    ensures exists b :: b in nodes && Pair(Connect(l, nodes, n, p).value, n, b) != []
                        && Pair(Connect(l, nodes, n, p).value, n, b)[0].blocking != Blocks(n, b)
  {
    var b := if Blocks(n, nodes[p]) then nodes[p] else nodes[MpiBehind(nodes, n, p).value];
    Effect(l, nodes, n, p, n, b);
    assert b in nodes;
  }
}
