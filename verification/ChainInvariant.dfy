/**
 What holds of the event graph of a stream however it grows: the node list stays strictly
 sorted and each node is linked to the next by one edge. With it come the conditions for the MPI
 nodes to form a chain of MPI edges, and for the blocking flags to be right.
 */
module ChainInvariant {
  import opened Common
  import opened NodeOrder
  import opened EdgeLists
  import opened StreamGraph

  // ----- Invariant of one stream -----

  ghost predicate GoodNodes(nodes: seq<Node>, id: nat) {
    && Sorted(nodes)
    && (forall i :: 0 <= i < |nodes| ==> nodes[i].stream == id && Tracked(nodes[i]))
    && (forall i, j :: 0 <= i < j < |nodes| ==> nodes[i].id != nodes[j].id)
  }

  // Edges on the stream go forward between listed nodes, and none is parallel to another.
  ghost predicate GoodEdges(nodes: seq<Node>, l: Lists, id: nat) {
    forall a: Node, b: Node :: a.stream == id == b.stream && Pair(l, a, b) != [] ==>
      a in nodes && b in nodes && CompareLess(a, b) && |Pair(l, a, b)| == 1
  }

  // Each adjacent pair of nodes is joined by an edge.
  ghost predicate Linked(nodes: seq<Node>, l: Lists) {
    forall i :: 0 < i < |nodes| ==> Pair(l, nodes[i - 1], nodes[i]) != []
  }

  ghost predicate Chain(nodes: seq<Node>, l: Lists, id: nat) {
    GoodNodes(nodes, id) && GoodEdges(nodes, l, id) && Linked(nodes, l)
  }

  // A node the program may add: on top of an existing first node, and never in front of it.
  ghost predicate Addable(nodes: seq<Node>, n: Node, id: nat) {
    && n.stream == id && Tracked(n)
    && (forall i :: 0 <= i < |nodes| ==> nodes[i].id != n.id)
    && (nodes != [] ==> CompareLess(nodes[0], n))
  }

  lemma {:induction false} PositionSplits(nodes: seq<Node>, n: Node, id: nat)
    requires GoodNodes(nodes, id) && Addable(nodes, n, id)
    ensures var p := Position(nodes, n);
            && (p == 0 <==> nodes == [])
            && (forall i :: 0 <= i < p ==> CompareLess(nodes[i], n) && !CompareLess(n, nodes[i]))
            && (forall i :: p <= i < |nodes| ==> CompareLess(n, nodes[i]) && !CompareLess(nodes[i], n))
  {
    var p := Position(nodes, n);
    forall i | 0 <= i < |nodes|
      ensures CompareLess(nodes[i], n) <==> !CompareLess(n, nodes[i])
      ensures i < p ==> CompareLess(nodes[i], n)
    {
      SameStreamOrder(nodes[i], n, n);
      if i < p - 1 { SameStreamOrder(nodes[i], nodes[p - 1], n); }
    }
  }

  lemma {:induction false} SortedDistinct(nodes: seq<Node>)
    requires Sorted(nodes)
    ensures Distinct(nodes)
  {
  }

  ghost predicate IsInserted(nodes: seq<Node>, n: Node, p: nat, all: seq<Node>) {
    && p <= |nodes| && |all| == |nodes| + 1
    && forall i {:trigger all[i]} :: 0 <= i < |all| ==>
         all[i] == if i < p then nodes[i] else if i == p then n else nodes[i - 1]
  }

  lemma {:induction false} InsertedAt(nodes: seq<Node>, n: Node, p: nat)
    requires p <= |nodes|
    ensures IsInserted(nodes, n, p, Inserted(nodes, n, p))
  {
  }

  lemma {:induction false} NodesKept(nodes: seq<Node>, n: Node, id: nat)
    requires GoodNodes(nodes, id) && Addable(nodes, n, id)
    ensures GoodNodes(Inserted(nodes, n, Position(nodes, n)), id)
  {
    var p := Position(nodes, n);
    PositionSplits(nodes, n, id);
    InsertedAt(nodes, n, p);
    SortedWith(nodes, n, p, Inserted(nodes, n, p), id);
  }

  lemma {:induction false} SortedWith(nodes: seq<Node>, n: Node, p: nat, all: seq<Node>, id: nat)
    requires GoodNodes(nodes, id) && Addable(nodes, n, id) && IsInserted(nodes, n, p, all)
    requires forall i :: 0 <= i < p ==> CompareLess(nodes[i], n) && !CompareLess(n, nodes[i])
    requires forall i :: p <= i < |nodes| ==> CompareLess(n, nodes[i]) && !CompareLess(nodes[i], n)
    ensures GoodNodes(all, id)
  {
    forall i | 0 <= i < |all| ensures all[i].stream == id && Tracked(all[i]) {
      assert all[i] == n || all[i] == nodes[if i < p then i else i - 1];
    }
    forall i, j | 0 <= i < j < |all|
      ensures CompareLess(all[i], all[j]) && !CompareLess(all[j], all[i]) && all[i].id != all[j].id {
      assert all[i] == n || all[i] == nodes[if i < p then i else i - 1];
      assert all[j] == n || all[j] == nodes[if j < p then j else j - 1];
    }
  }

  lemma {:induction false} EdgesKept(nodes: seq<Node>, l: Lists, n: Node, id: nat)
    requires Chain(nodes, l, id) && Addable(nodes, n, id) && nodes != []
    requires Connect(l, nodes, n, Position(nodes, n)).Some?
    ensures var p := Position(nodes, n);
            GoodEdges(Inserted(nodes, n, p), Connect(l, nodes, n, p).value, id)
  {
    var p := Position(nodes, n);
    var l' := Connect(l, nodes, n, p).value;
    PositionSplits(nodes, n, id);
    SortedDistinct(nodes);
    InsertedHas(nodes, n, p);
    forall a: Node, b: Node | a.stream == id == b.stream && Pair(l', a, b) != []
      ensures a in Inserted(nodes, n, p) && b in Inserted(nodes, n, p) && CompareLess(a, b) && |Pair(l', a, b)| == 1
    {
      Effect(l, nodes, n, p, a, b);
      EdgeKept(nodes, l, n, id, p, a, b);
    }
  }

  lemma {:induction false} InsertedHas(nodes: seq<Node>, n: Node, p: nat)
    requires p <= |nodes|
    ensures forall a :: a in Inserted(nodes, n, p) <==> a in nodes || a == n
  {
    assert nodes == nodes[..p] + nodes[p..];
  }

  lemma {:induction false} EdgeKept(nodes: seq<Node>, l: Lists, n: Node, id: nat, p: nat, a: Node, b: Node)
    requires GoodEdges(nodes, l, id) && 0 < p <= |nodes| && n !in nodes && n.stream == id
    requires forall i :: 0 <= i < p ==> CompareLess(nodes[i], n)
    requires forall i :: p <= i < |nodes| ==> CompareLess(n, nodes[i])
    requires a.stream == id == b.stream && PairAfter(l, nodes, n, p, a, b) != []
    ensures (a in nodes || a == n) && (b in nodes || b == n) && CompareLess(a, b)
    ensures |PairAfter(l, nodes, n, p, a, b)| == 1
  {
    if a == n || b == n { assert Pair(l, a, b) == []; }
  }

  /** Wherever a node is added, the chain survives. */
  lemma {:induction false} ChainKept(nodes: seq<Node>, l: Lists, n: Node, id: nat)
    requires Chain(nodes, l, id) && Addable(nodes, n, id)
    requires Connect(l, nodes, n, Position(nodes, n)).Some?
    ensures var p := Position(nodes, n);
            Chain(Inserted(nodes, n, p), Connect(l, nodes, n, p).value, id)
  {
    var p := Position(nodes, n);
    NodesKept(nodes, n, id);
    PositionSplits(nodes, n, id);
    if nodes != [] {
      EdgesKept(nodes, l, n, id);
      SortedDistinct(nodes);
      LinksKept(nodes, l, n, p);
    }
  }

  lemma {:induction false} LinksKept(nodes: seq<Node>, l: Lists, n: Node, p: nat)
    requires Linked(nodes, l) && Distinct(nodes) && 0 < p <= |nodes| && n !in nodes && Connect(l, nodes, n, p).Some?
    ensures Linked(Inserted(nodes, n, p), Connect(l, nodes, n, p).value)
  {
    NewLink(nodes, l, n, p);
    forall k | 0 < k < |nodes| && k != p ensures Pair(Connect(l, nodes, n, p).value, nodes[k - 1], nodes[k]) != [] {
      OldLink(nodes, l, n, p, k);
    }
    InsertedAt(nodes, n, p);
    LinkedAll(nodes, n, p, Inserted(nodes, n, p), Connect(l, nodes, n, p).value);
  }

  // All links of the list with the new node, given those of the old list and the new ones.
  lemma {:induction false} LinkedAll(nodes: seq<Node>, n: Node, p: nat, all: seq<Node>, l: Lists)
    requires 0 < p <= |nodes| && IsInserted(nodes, n, p, all)
    requires forall k :: 0 < k < |nodes| && k != p ==> Pair(l, nodes[k - 1], nodes[k]) != []
    requires Pair(l, nodes[p - 1], n) != [] && (p < |nodes| ==> Pair(l, n, nodes[p]) != [])
    ensures Linked(all, l)
  {
    forall i | 0 < i < |all| ensures Pair(l, all[i - 1], all[i]) != [] {
      assert all[i - 1] == if i <= p then nodes[i - 1] else if i == p + 1 then n else nodes[i - 2];
      assert all[i] == if i < p then nodes[i] else if i == p then n else nodes[i - 1];
    }
  }

  lemma {:induction false} NewLink(nodes: seq<Node>, l: Lists, n: Node, p: nat)
    requires Distinct(nodes) && 0 < p <= |nodes| && n !in nodes && Connect(l, nodes, n, p).Some?
    ensures Pair(Connect(l, nodes, n, p).value, nodes[p - 1], n) != []
    ensures p < |nodes| ==> Pair(Connect(l, nodes, n, p).value, n, nodes[p]) != []
  {
    NewLinks(nodes, n, p);
    Effect(l, nodes, n, p, nodes[p - 1], n);
    if p < |nodes| { Effect(l, nodes, n, p, n, nodes[p]); }
  }

  lemma {:induction false} OldLink(nodes: seq<Node>, l: Lists, n: Node, p: nat, k: nat)
    requires Linked(nodes, l) && Distinct(nodes) && 0 < p <= |nodes| && n !in nodes && Connect(l, nodes, n, p).Some?
    requires 0 < k < |nodes| && k != p
    ensures Pair(Connect(l, nodes, n, p).value, nodes[k - 1], nodes[k]) != []
  {
    Effect(l, nodes, n, p, nodes[k - 1], nodes[k]);
    NotCut(nodes, n, p, k);
  }

  // The new node is linked to both neighbours.
  lemma {:induction false} NewLinks(nodes: seq<Node>, n: Node, p: nat)
    requires Distinct(nodes) && 0 < p <= |nodes|
    ensures InEdges(nodes, n, p, nodes[p - 1]) != []
    ensures p < |nodes| ==> OutEdges(nodes, n, p, nodes[p]) != []
  {
  }

  lemma {:induction false} NotCut(nodes: seq<Node>, n: Node, p: nat, k: nat)
    requires Distinct(nodes) && 0 < p <= |nodes| && 0 < k < |nodes| && k != p
    ensures !Cut(nodes, n, p, nodes[k - 1], nodes[k])
  {
  }
}
