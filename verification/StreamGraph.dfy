/**
 How the event graph of a stream grows (GraphEngine::addNewGraphNodeInternal). A new node goes
 to its place in the sorted node list and is linked to its neighbours; MPI nodes are also
 linked to the MPI nodes before and behind them, which gives the subgraph that the critical
 path analysis replays. Node positions index the list before the node is added.
 */
module StreamGraph {
  import opened Common
  import opened NodeOrder
  import opened EdgeLists

  // Graph nodes are looked up by the first four paradigms only.
  const PARADIGM_COUNT: nat := 4
  const MPI: nat := 2

  function Bit(k: nat): bv8 { if k == 0 then 1 else if k == 1 then 2 else if k == MPI then PARADIGM_MPI else 8 }

  predicate Has(n: Node, k: nat) { n.paradigm & Bit(k) != 0 }

  predicate Tracked(n: Node) { exists k: nat :: k < PARADIGM_COUNT && Has(n, k) }

  const OMP_WAITSTATE: bv32 := 64
  const OFLD_WAITSTATE: bv32 := 32
  const MPI_WAITSTATE: bv32 := 256

  predicate IsWaitstate(n: Node) {
    || (n.paradigm & PARADIGM_OMP != 0 && n.kind & OMP_WAITSTATE != 0)
    || (IsOffload(n) && n.kind & OFLD_WAITSTATE != 0)
    || (IsMpi(n) && n.kind & MPI_WAITSTATE != 0)
  }

  // An edge over a whole wait state is blocking.
  predicate Blocks(a: Node, b: Node) { a.record.Enter? && b.record.Leave? && IsWaitstate(a) && IsWaitstate(b) }

  // ----- Places in a node list -----

  // How many leading nodes stay in front of the new one.
  function Position(nodes: seq<Node>, n: Node): (p: nat)
    ensures p <= |nodes|
    ensures p > 0 ==> CompareLess(nodes[p - 1], n)
    ensures forall i :: p <= i < |nodes| ==> !CompareLess(nodes[i], n)
  {
    if nodes == [] then 0
    else if CompareLess(nodes[|nodes| - 1], n) then |nodes|
    else Position(nodes[..|nodes| - 1], n)
  }

  function Inserted(nodes: seq<Node>, n: Node, p: nat): seq<Node>
    requires p <= |nodes|
  {
    nodes[..p] + [n] + nodes[p..]
  }

  // The last node of a paradigm in front of a position, and the first one from there on.
  function LastBefore(nodes: seq<Node>, p: nat, k: nat): (i: Option<nat>)
    requires p <= |nodes|
    ensures i.Some? ==> i.value < p && Has(nodes[i.value], k)
    ensures forall j :: 0 <= j < p && (i.None? || i.value < j) ==> !Has(nodes[j], k)
  {
    if p == 0 then None else if Has(nodes[p - 1], k) then Some(p - 1) else LastBefore(nodes, p - 1, k)
  }

  function FirstFrom(nodes: seq<Node>, p: nat, k: nat): (i: Option<nat>)
    requires p <= |nodes|
    ensures i.Some? ==> p <= i.value < |nodes| && Has(nodes[i.value], k)
    ensures forall j :: p <= j < |nodes| && (i.None? || j < i.value) ==> !Has(nodes[j], k)
    decreases |nodes| - p
  {
    if p == |nodes| then None else if Has(nodes[p], k) then Some(p) else FirstFrom(nodes, p + 1, k)
  }

  lemma {:induction false} LastIs(nodes: seq<Node>, p: nat, k: nat, i: Option<nat>)
    requires p <= |nodes|
    requires i.Some? ==> i.value < p && Has(nodes[i.value], k)
    requires forall j :: 0 <= j < p && (i.None? || i.value < j) ==> !Has(nodes[j], k)
    ensures LastBefore(nodes, p, k) == i
  {
  }

  lemma {:induction false} FirstIs(nodes: seq<Node>, p: nat, k: nat, i: Option<nat>)
    requires p <= |nodes|
    requires i.Some? ==> p <= i.value < |nodes| && Has(nodes[i.value], k)
    requires forall j :: p <= j < |nodes| && (i.None? || j < i.value) ==> !Has(nodes[j], k)
    ensures FirstFrom(nodes, p, k) == i
  {
  }

  // ----- New edges -----

  // The MPI nodes around an MPI node at position `p`.
  function MpiBefore(nodes: seq<Node>, n: Node, p: nat): (i: Option<nat>)
    requires p <= |nodes|
    ensures i.Some? ==> i.value < p
  {
    if n.paradigm == PARADIGM_MPI then LastBefore(nodes, p, MPI) else None
  }

  function MpiBehind(nodes: seq<Node>, n: Node, p: nat): (i: Option<nat>)
    requires p <= |nodes|
    ensures i.Some? ==> p <= i.value < |nodes|
  {
    if MpiBefore(nodes, n, p).Some? then FirstFrom(nodes, p, MPI) else None
  }

  // None where the program gives up because the edge between two MPI nodes is missing.
  function ConnectMpi(l: Lists, nodes: seq<Node>, n: Node, p: nat): Option<Lists>
    requires p <= |nodes|
  {
    var (mp, ms) := (MpiBefore(nodes, n, p), MpiBehind(nodes, n, p));
    if mp.None? then Some(l)
    else
      var pred := nodes[mp.value];
      var l1 := Add(l, Edge(pred, n, Blocks(pred, n), PARADIGM_MPI));
      if ms.None? then Some(l1)
      else if Pair(l1, pred, nodes[ms.value]) == [] then None
      else Some(Add(Remove(l1, pred, nodes[ms.value]), Edge(n, nodes[ms.value], false, PARADIGM_MPI)))
  }

  function ConnectPred(l: Lists, nodes: seq<Node>, n: Node, p: nat): Lists
    requires 0 < p <= |nodes|
  {
    var pred := nodes[p - 1];
    if MpiBefore(nodes, n, p) == Some(p - 1) then l else Add(l, Edge(pred, n, Blocks(pred, n), pred.paradigm))
  }

  function ConnectSucc(l: Lists, nodes: seq<Node>, n: Node, p: nat): Lists
    requires 0 < p <= |nodes|
  {
    if p == |nodes| || MpiBehind(nodes, n, p) == Some(p) then l
    else
      var (pred, succ) := (nodes[p - 1], nodes[p]);
      Add(if Pair(l, pred, succ) == [] then l else Remove(l, pred, succ), Edge(n, succ, false, succ.paradigm))
  }

  function Connect(l: Lists, nodes: seq<Node>, n: Node, p: nat): Option<Lists>
    requires p <= |nodes|
  {
    if p == 0 then Some(l)
    else
      var m := ConnectMpi(l, nodes, n, p);
      if m.None? then None else Some(ConnectSucc(ConnectPred(m.value, nodes, n, p), nodes, n, p))
  }

  // ----- What one addition does to the edges between two nodes -----

  function InEdges(nodes: seq<Node>, n: Node, p: nat, a: Node): seq<Edge>
    requires 0 < p <= |nodes|
  {
    var mp := MpiBefore(nodes, n, p);
    if mp.Some? && a == nodes[mp.value] then [Edge(a, n, Blocks(a, n), PARADIGM_MPI)]
    else if a == nodes[p - 1] then [Edge(a, n, Blocks(a, n), a.paradigm)]
    else []
  }

  function OutEdges(nodes: seq<Node>, n: Node, p: nat, b: Node): seq<Edge>
    requires 0 < p <= |nodes|
  {
    var ms := MpiBehind(nodes, n, p);
    if ms.Some? && b == nodes[ms.value] then [Edge(n, b, false, PARADIGM_MPI)]
    else if p < |nodes| && b == nodes[p] then [Edge(n, b, false, b.paradigm)]
    else []
  }

  // The edges that are taken out: between the two MPI neighbours, and between the direct ones
  // unless the direct successor is already linked as the MPI successor.
  predicate Cut(nodes: seq<Node>, n: Node, p: nat, a: Node, b: Node)
    requires 0 < p <= |nodes|
  {
    var (mp, ms) := (MpiBefore(nodes, n, p), MpiBehind(nodes, n, p));
    || (ms.Some? && a == nodes[mp.value] && b == nodes[ms.value])
    || (p < |nodes| && ms != Some(p) && a == nodes[p - 1] && b == nodes[p])
  }

  ghost predicate Distinct(nodes: seq<Node>) {
    forall i, j :: 0 <= i < j < |nodes| ==> nodes[i] != nodes[j]
  }

  function PairAfter(l: Lists, nodes: seq<Node>, n: Node, p: nat, a: Node, b: Node): seq<Edge>
    requires 0 < p <= |nodes|
  {
    if b == n then Pair(l, a, b) + InEdges(nodes, n, p, a)
    else if a == n then Pair(l, a, b) + OutEdges(nodes, n, p, b)
    else if Cut(nodes, n, p, a, b) then Rest(Pair(l, a, b))
    else Pair(l, a, b)
  }

  lemma {:induction false} MpiEffect(l: Lists, nodes: seq<Node>, n: Node, p: nat, a: Node, b: Node)
    requires 0 < p <= |nodes| && n !in nodes && ConnectMpi(l, nodes, n, p).Some?
    ensures var (mp, ms) := (MpiBefore(nodes, n, p), MpiBehind(nodes, n, p));
            Pair(ConnectMpi(l, nodes, n, p).value, a, b) ==
            if b == n then Pair(l, a, b) +
                if mp.Some? && a == nodes[mp.value] then [Edge(a, n, Blocks(a, n), PARADIGM_MPI)] else []
            else if a == n then Pair(l, a, b) +
                if ms.Some? && b == nodes[ms.value] then [Edge(n, b, false, PARADIGM_MPI)] else []
            else if ms.Some? && a == nodes[mp.value] && b == nodes[ms.value] then Rest(Pair(l, a, b))
            else Pair(l, a, b)
  {
    var (mp, ms) := (MpiBefore(nodes, n, p), MpiBehind(nodes, n, p));
    if mp.Some? {
      var pred := nodes[mp.value];
      var l1 := Add(l, Edge(pred, n, Blocks(pred, n), PARADIGM_MPI));
      if ms.None? {
        assert ConnectMpi(l, nodes, n, p).value == l1;
        PairAdd(l, Edge(pred, n, Blocks(pred, n), PARADIGM_MPI), a, b);
      } else {
        var succ := nodes[ms.value];
        assert ConnectMpi(l, nodes, n, p).value == Add(Remove(l1, pred, succ), Edge(n, succ, false, PARADIGM_MPI));
        BetweenEffect(l, pred, n, succ, a, b);
      }
    }
  }

  lemma {:induction false} BetweenEffect(l: Lists, pred: Node, n: Node, succ: Node, a: Node, b: Node)
    requires n != pred && n != succ
    ensures var l1 := Add(l, Edge(pred, n, Blocks(pred, n), PARADIGM_MPI));
            Pair(Add(Remove(l1, pred, succ), Edge(n, succ, false, PARADIGM_MPI)), a, b) ==
            if b == n then Pair(l, a, b) + if a == pred then [Edge(a, n, Blocks(a, n), PARADIGM_MPI)] else []
            else if a == n then Pair(l, a, b) + if b == succ then [Edge(n, b, false, PARADIGM_MPI)] else []
            else if a == pred && b == succ then Rest(Pair(l, a, b))
            else Pair(l, a, b)
  {
    var e := Edge(pred, n, Blocks(pred, n), PARADIGM_MPI);
    PairAdd(l, e, a, b);
    PairRemove(Add(l, e), pred, succ, a, b);
    PairAdd(Remove(Add(l, e), pred, succ), Edge(n, succ, false, PARADIGM_MPI), a, b);
  }

  lemma {:induction false} PredEffect(l: Lists, nodes: seq<Node>, n: Node, p: nat, a: Node, b: Node)
    requires 0 < p <= |nodes|
    ensures Pair(ConnectPred(l, nodes, n, p), a, b) ==
            Pair(l, a, b) + if MpiBefore(nodes, n, p) != Some(p - 1) && a == nodes[p - 1] && b == n
                            then [Edge(a, n, Blocks(a, n), a.paradigm)] else []
  {
    var pred := nodes[p - 1];
    PairAdd(l, Edge(pred, n, Blocks(pred, n), pred.paradigm), a, b);
  }

  lemma {:induction false} SuccEffect(l: Lists, nodes: seq<Node>, n: Node, p: nat, a: Node, b: Node)
    requires 0 < p <= |nodes| && n !in nodes
    ensures Pair(ConnectSucc(l, nodes, n, p), a, b) ==
            if p == |nodes| || MpiBehind(nodes, n, p) == Some(p) || b != nodes[p] then Pair(l, a, b)
            else if a == n then Pair(l, a, b) + [Edge(n, b, false, b.paradigm)]
            else if a == nodes[p - 1] then Rest(Pair(l, a, b))
            else Pair(l, a, b)
  {
    if p < |nodes| {
      var (pred, succ) := (nodes[p - 1], nodes[p]);
      PairRemove(l, pred, succ, a, b);
      PairAdd(l, Edge(n, succ, false, succ.paradigm), a, b);
      PairAdd(Remove(l, pred, succ), Edge(n, succ, false, succ.paradigm), a, b);
    }
  }

  /** Every pair of nodes keeps its edges except the new node and the pairs that are cut. */
  lemma {:induction false} Effect(l: Lists, nodes: seq<Node>, n: Node, p: nat, a: Node, b: Node)
    requires 0 < p <= |nodes| && n !in nodes && Distinct(nodes) && Connect(l, nodes, n, p).Some?
    ensures Pair(Connect(l, nodes, n, p).value, a, b) == PairAfter(l, nodes, n, p, a, b)
  {
    if b == n {
      EffectTo(l, nodes, n, p, a);
    } else if a == n {
      EffectFrom(l, nodes, n, p, b);
    } else {
      EffectBetween(l, nodes, n, p, a, b);
    }
  }

  lemma {:induction false} EffectTo(l: Lists, nodes: seq<Node>, n: Node, p: nat, a: Node)
    requires 0 < p <= |nodes| && n !in nodes && Distinct(nodes) && Connect(l, nodes, n, p).Some?
    ensures Pair(Connect(l, nodes, n, p).value, a, n) == Pair(l, a, n) + InEdges(nodes, n, p, a)
  {
    var l1 := ConnectMpi(l, nodes, n, p).value;
    MpiEffect(l, nodes, n, p, a, n);
    PredEffect(l1, nodes, n, p, a, n);
    SuccEffect(ConnectPred(l1, nodes, n, p), nodes, n, p, a, n);
    Neighbours(nodes, n, p);
  }

  lemma {:induction false} EffectFrom(l: Lists, nodes: seq<Node>, n: Node, p: nat, b: Node)
    requires 0 < p <= |nodes| && n !in nodes && Distinct(nodes) && Connect(l, nodes, n, p).Some? && b != n
    ensures Pair(Connect(l, nodes, n, p).value, n, b) == Pair(l, n, b) + OutEdges(nodes, n, p, b)
  {
    var l1 := ConnectMpi(l, nodes, n, p).value;
    MpiEffect(l, nodes, n, p, n, b);
    PredEffect(l1, nodes, n, p, n, b);
    SuccEffect(ConnectPred(l1, nodes, n, p), nodes, n, p, n, b);
    Neighbours(nodes, n, p);
  }

  lemma {:induction false} EffectBetween(l: Lists, nodes: seq<Node>, n: Node, p: nat, a: Node, b: Node)
    requires 0 < p <= |nodes| && n !in nodes && Distinct(nodes) && Connect(l, nodes, n, p).Some? && a != n && b != n
    ensures Pair(Connect(l, nodes, n, p).value, a, b) == if Cut(nodes, n, p, a, b) then Rest(Pair(l, a, b))
            else Pair(l, a, b)
  {
    var l1 := ConnectMpi(l, nodes, n, p).value;
    MpiEffect(l, nodes, n, p, a, b);
    PredEffect(l1, nodes, n, p, a, b);
    SuccEffect(ConnectPred(l1, nodes, n, p), nodes, n, p, a, b);
    Neighbours(nodes, n, p);
  }

  lemma {:induction false} Neighbours(nodes: seq<Node>, n: Node, p: nat)
    requires 0 < p <= |nodes| && n !in nodes && Distinct(nodes)
    ensures var (mp, ms) := (MpiBefore(nodes, n, p), MpiBehind(nodes, n, p));
            && (mp.Some? ==> nodes[mp.value] != n && (nodes[mp.value] == nodes[p - 1] <==> mp.value == p - 1))
            && (ms.Some? ==>
                  && mp.Some? && nodes[ms.value] != n
                  && (p < |nodes| ==> (nodes[ms.value] == nodes[p] <==> ms.value == p)))
            && nodes[p - 1] != n && (p < |nodes| ==> nodes[p] != n && nodes[p - 1] != nodes[p])
  {
  }
}
