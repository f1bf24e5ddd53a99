/**
 Nodes of the event graph and the order Node::compareLess puts them in.

 Nodes with different times are ordered by time. The rules for equal times are not one key:
 a kernel goes before a wait of another stream, everything else goes by stream ID. This
 module states exactly when the result is a strict total order.
 */
module NodeOrder {

  datatype RecordType = Atomic | Enter | Leave | Single

  // `paradigm` and `kind` are the bit sets of the enumerations in Node.hpp.
  datatype Node = Node(id: nat, time: nat, stream: nat, record: RecordType, paradigm: bv8, kind: bv32)

  const PARADIGM_CUDA: bv8 := 1
  const PARADIGM_MPI: bv8 := 4
  const PARADIGM_OMP: bv8 := 8
  const PARADIGM_OFFLOAD: bv8 := 3

  const OFLD_WAIT: bv32 := 2
  const OFLD_TASK_KERNEL: bv32 := 64
  const MPI_EXIT: bv32 := 128

  predicate IsOffload(n: Node) { n.paradigm & PARADIGM_OFFLOAD != 0 }

  predicate IsMpi(n: Node) { n.paradigm & PARADIGM_MPI != 0 }

  predicate IsKernel(n: Node) { IsOffload(n) && n.kind & OFLD_TASK_KERNEL != 0 }

  predicate IsWait(n: Node) { IsOffload(n) && n.kind & OFLD_WAIT != 0 }

  predicate IsExit(n: Node) { IsMpi(n) && n.kind & MPI_EXIT != 0 }

  predicate CompareLess(a: Node, b: Node) {
    if a.time != b.time then a.time < b.time
    else if a.record.Atomic? && !b.record.Atomic? then true
    else if !a.record.Atomic? && b.record.Atomic? then false
    else if a.paradigm != b.paradigm then a.paradigm < b.paradigm
    else if a.stream == b.stream then a.id < b.id
    else if IsKernel(a) && IsWait(b) then true
    else if IsKernel(b) && IsWait(a) then false
    else if IsExit(a) then false
    else if IsExit(b) then true
    else a.stream > b.stream
  }

  // The comparison gets past time, atomicity and paradigm.
  predicate Tied(a: Node, b: Node) {
    a.time == b.time && a.record.Atomic? == b.record.Atomic? && a.paradigm == b.paradigm
  }

  // ----- Two nodes -----

  predicate BothKernelAndWait(a: Node, b: Node) {
    IsKernel(a) && IsWait(a) && IsKernel(b) && IsWait(b)
  }

  predicate KernelMeetsWait(a: Node, b: Node) {
    (IsKernel(a) && IsWait(b)) || (IsKernel(b) && IsWait(a))
  }

  /** Of two nodes with different IDs exactly one is less than the other, unless both are exit
      nodes of different streams, or both are kernel and wait at once. */
  lemma {:induction false} Comparable(a: Node, b: Node)
    requires a.id != b.id
    ensures (CompareLess(a, b) <==> !CompareLess(b, a)) <==>
            !(Tied(a, b) && a.stream != b.stream
              && (BothKernelAndWait(a, b) || (IsExit(a) && IsExit(b) && !KernelMeetsWait(a, b))))
  {
    assert a.paradigm != b.paradigm ==> (a.paradigm < b.paradigm <==> !(b.paradigm < a.paradigm));
  }

  /** On one stream the order needs no assumption at all. */
  lemma {:induction false} SameStreamOrder(a: Node, b: Node, c: Node)
    requires a.stream == b.stream == c.stream
    ensures !CompareLess(a, a)
    ensures a.id != b.id ==> (CompareLess(a, b) <==> !CompareLess(b, a))
    ensures CompareLess(a, b) && CompareLess(b, c) ==> CompareLess(a, c)
  {
    ParadigmOrder(a.paradigm, b.paradigm, c.paradigm);
  }

  lemma {:induction false} ParadigmOrder(a: bv8, b: bv8, c: bv8)
    ensures a < b && b < c ==> a < c
    ensures a < b ==> !(b < a)
    ensures a != b ==> a < b || b < a
  {
  }

  // ----- Sets of nodes -----

  ghost predicate DistinctIds(s: set<Node>) {
    forall a, b :: a in s && b in s && a != b ==> a.id != b.id
  }

  ghost predicate StrictTotalOrder(s: set<Node>) {
    && (forall a :: a in s ==> !CompareLess(a, a))
    && (forall a, b :: a in s && b in s && a != b ==> (CompareLess(a, b) <==> !CompareLess(b, a)))
    && (forall a, b, c :: a in s && b in s && c in s && CompareLess(a, b) && CompareLess(b, c) ==> CompareLess(a, c))
  }

  // No node is a kernel and a wait at once, and none is an MPI exit.
  ghost predicate PlainRoles(s: set<Node>) {
    forall n :: n in s ==> !(IsKernel(n) && IsWait(n)) && !IsExit(n)
  }

  // Kernel `k` goes before wait `w` although its stream ID is the lower one.
  predicate Inverted(k: Node, w: Node) {
    Tied(k, w) && IsKernel(k) && IsWait(w) && k.stream < w.stream
  }

  // Node `x` would have to go after `w` and before `k`.
  predicate Between(k: Node, w: Node, x: Node) {
    && Tied(k, x)
    && (|| (x.stream == k.stream && x.id < k.id && !IsKernel(x))
        || (x.stream == w.stream && w.id < x.id && !IsWait(x))
        || (k.stream < x.stream < w.stream && !IsKernel(x) && !IsWait(x)))
  }

  // No third node lies between the ends of an inverted pair.
  ghost predicate Coherent(s: set<Node>) {
    forall k, w, x :: k in s && w in s && x in s && Inverted(k, w) ==> !Between(k, w, x)
  }

  lemma {:induction false} TransitiveUntied(a: Node, b: Node, c: Node)
    requires CompareLess(a, b) && CompareLess(b, c) && (!Tied(a, b) || !Tied(b, c))
    ensures CompareLess(a, c)
  {
    ParadigmOrder(a.paradigm, b.paradigm, c.paradigm);
  }

  lemma {:induction false} Transitive(s: set<Node>, a: Node, b: Node, c: Node)
    requires DistinctIds(s) && PlainRoles(s) && Coherent(s) && a in s && b in s && c in s
    requires CompareLess(a, b) && CompareLess(b, c)
    ensures CompareLess(a, c)
  {
    if !Tied(a, b) || !Tied(b, c) {
      TransitiveUntied(a, b, c);
    } else if !CompareLess(a, c) {
      assert a != b && b != c && a != c;
      TiedCycle(s, a, b, c);
    }
  }

  // A cycle of tied nodes has an inverted pair with the third node in between.
  lemma {:induction false} TiedCycle(s: set<Node>, a: Node, b: Node, c: Node)
    requires DistinctIds(s) && PlainRoles(s) && a in s && b in s && c in s && Tied(a, b) && Tied(b, c)
    requires a != b && b != c && a != c && CompareLess(a, b) && CompareLess(b, c) && !CompareLess(a, c)
    ensures !Coherent(s)
  {
    assert a.id != b.id && b.id != c.id && a.id != c.id;
    assert (Inverted(a, b) && Between(a, b, c)) || (Inverted(b, c) && Between(b, c, a))
        || (Inverted(c, a) && Between(c, a, b));
  }

  /** compareLess is a strict total order on a set of nodes exactly if no third node lies between
      the ends of an inverted kernel-wait pair. */
  lemma {:induction false} TotalOrderExactly(s: set<Node>)
    requires DistinctIds(s) && PlainRoles(s)
    ensures StrictTotalOrder(s) <==> Coherent(s)
  {
    forall a, b | a in s && b in s && a != b ensures CompareLess(a, b) <==> !CompareLess(b, a) {
      Comparable(a, b);
    }
    if Coherent(s) {
      forall a, b, c | a in s && b in s && c in s && CompareLess(a, b) && CompareLess(b, c)
        ensures CompareLess(a, c)
      {
        Transitive(s, a, b, c);
      }
    } else {
      var k, w, x :| k in s && w in s && x in s && Inverted(k, w) && Between(k, w, x);
      assert CompareLess(k, w) && CompareLess(w, x) && CompareLess(x, k);
    }
  }

  /** In particular it is one if device streams are numbered after all streams that wait. */
  lemma {:induction false} KernelsOnHigherStreams(s: set<Node>)
    requires DistinctIds(s) && PlainRoles(s)
    requires forall k, w :: k in s && w in s && IsKernel(k) && IsWait(w) ==> k.stream > w.stream
    ensures StrictTotalOrder(s)
  {
    TotalOrderExactly(s);
  }

  /** Without that numbering three nodes can form a cycle. */
  lemma {:induction false} KernelWaitCycle()
    ensures exists k: Node, w: Node, x: Node ::
              && DistinctIds({k, w, x}) && PlainRoles({k, w, x})
              && CompareLess(k, w) && CompareLess(w, x) && CompareLess(x, k)
  {
    var k := Node(1, 5, 1, Enter, PARADIGM_CUDA, OFLD_TASK_KERNEL);
    var w := Node(2, 5, 3, Leave, PARADIGM_CUDA, OFLD_WAIT);
    var x := Node(3, 5, 2, Enter, PARADIGM_CUDA, 256);
    assert CompareLess(k, w) && CompareLess(w, x) && CompareLess(x, k);
    assert DistinctIds({k, w, x}) && PlainRoles({k, w, x});
  }

  // ----- Sorted sequences -----

  ghost predicate Sorted(nodes: seq<Node>) {
    forall i, j :: 0 <= i < j < |nodes| ==> CompareLess(nodes[i], nodes[j]) && !CompareLess(nodes[j], nodes[i])
  }

  // A property of nodes of some paradigm, given by a bit of their kind.
  predicate Is(n: Node, paradigm: bv8, bit: bv32) { n.paradigm & paradigm != 0 && n.kind & bit != 0 }

  // One node is a kernel and the other a wait for the device.
  predicate KernelThenWait(a: Node, b: Node) {
    Is(a, PARADIGM_OFFLOAD, OFLD_TASK_KERNEL) && Is(b, PARADIGM_OFFLOAD, OFLD_WAIT)
  }

  /** What stands where in a sorted list: earlier nodes first, then process nodes, then by paradigm;
      on one stream in the order of reading; between streams kernels before waits, MPI exits last,
      all others by falling stream ID. */
  lemma {:induction false} SortedMeans(nodes: seq<Node>, i: nat, j: nat)
    requires Sorted(nodes) && i < j < |nodes|
    ensures nodes[i].time <= nodes[j].time
    ensures nodes[i].time == nodes[j].time && nodes[j].record == Atomic ==> nodes[i].record == Atomic
    ensures nodes[i].time == nodes[j].time && (nodes[i].record == Atomic <==> nodes[j].record == Atomic) ==>
              nodes[i].paradigm <= nodes[j].paradigm
    ensures Tied(nodes[i], nodes[j]) && nodes[i].stream == nodes[j].stream ==> nodes[i].id < nodes[j].id
    ensures Tied(nodes[i], nodes[j]) && nodes[i].stream != nodes[j].stream && KernelThenWait(nodes[j], nodes[i]) ==>
              KernelThenWait(nodes[i], nodes[j])
    ensures Tied(nodes[i], nodes[j]) && nodes[i].stream != nodes[j].stream
            && !KernelThenWait(nodes[i], nodes[j]) && !KernelThenWait(nodes[j], nodes[i]) ==>
              && !Is(nodes[i], PARADIGM_MPI, MPI_EXIT)
              && (Is(nodes[j], PARADIGM_MPI, MPI_EXIT) || nodes[i].stream > nodes[j].stream)
  {
    ParadigmOrder(nodes[i].paradigm, nodes[j].paradigm, nodes[j].paradigm);
  }

  /** Sorting the nodes of all streams has only one result. */
  lemma {:induction false} SortedUnique(a: seq<Node>, b: seq<Node>)
    requires Sorted(a) && Sorted(b) && multiset(a) == multiset(b)
    ensures a == b
  {
    SameSize(a, b);
    if a != [] {
      SameFirst(a, b);
      RestOf(a);
      RestOf(b);
      SortedUnique(a[1..], b[1..]);
      FromRest(a, b);
    }
  }

  lemma {:induction false} SameSize(a: seq<Node>, b: seq<Node>)
    requires multiset(a) == multiset(b)
    ensures |a| == |b|
  {
    assert |a| == |multiset(a)| && |b| == |multiset(b)|;
  }

  lemma {:induction false} FromRest(a: seq<Node>, b: seq<Node>)
    requires a != [] && b != [] && a[0] == b[0] && a[1..] == b[1..]
    ensures a == b
  {
    assert a == [a[0]] + a[1..] && b == [b[0]] + b[1..];
  }

  lemma {:induction false} RestOf(a: seq<Node>)
    requires Sorted(a) && a != []
    ensures Sorted(a[1..]) && multiset(a[1..]) == multiset(a) - multiset{a[0]}
  {
    assert a == [a[0]] + a[1..];
  }

  lemma {:induction false} SameFirst(a: seq<Node>, b: seq<Node>)
    requires Sorted(a) && Sorted(b) && multiset(a) == multiset(b) && a != [] && b != []
    ensures a[0] == b[0]
  {
    assert b[0] in multiset(a) && a[0] in multiset(b);
    var i :| 0 <= i < |a| && a[i] == b[0];
    var j :| 0 <= j < |b| && b[j] == a[0];
    if i > 0 { assert CompareLess(a[0], a[i]); }
  }

  // Position of a node in a list.
  function IndexOf(nodes: seq<Node>, n: Node): (i: nat)
    requires n in nodes
    ensures i < |nodes| && nodes[i] == n
  {
    if nodes[0] == n then 0 else 1 + IndexOf(nodes[1..], n)
  }

  lemma {:induction false} InOrder(nodes: seq<Node>, i: nat, j: nat)
    requires Sorted(nodes) && i < |nodes| && j < |nodes|
    ensures i < j ==> CompareLess(nodes[i], nodes[j]) && !CompareLess(nodes[j], nodes[i])
  {
  }

  lemma {:induction false} IndexUnique(nodes: seq<Node>, n: Node, i: nat)
    requires Sorted(nodes) && i < |nodes| && nodes[i] == n
    ensures IndexOf(nodes, n) == i
  {
    var j := IndexOf(nodes, n);
    InOrder(nodes, i, j);
    InOrder(nodes, j, i);
  }
}
