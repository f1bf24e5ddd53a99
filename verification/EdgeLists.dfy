/**
 The edges of the event graph. Every edge stands in two lists: the in-edges of its end node and
 the out-edges of its start node. Removing an edge searches both lists on its own; this module
 shows that they stay mirror images of each other.
 */
module EdgeLists {
  import opened Common
  import opened NodeOrder

  datatype Edge = Edge(start: Node, end: Node, blocking: bool, paradigm: bv8)

  datatype Lists = Lists(ins: map<Node, seq<Edge>>, outs: map<Node, seq<Edge>>)

  function Of(m: map<Node, seq<Edge>>, n: Node): seq<Edge> { if n in m then m[n] else [] }

  // The edges of a list that end at, or start from, a node.
  function To(edges: seq<Edge>, b: Node): seq<Edge> {
    if edges == [] then [] else (if edges[0].end == b then [edges[0]] else []) + To(edges[1..], b)
  }

  function From(edges: seq<Edge>, a: Node): seq<Edge> {
    if edges == [] then [] else (if edges[0].start == a then [edges[0]] else []) + From(edges[1..], a)
  }

  // The edges from one node to another, oldest first.
  function Pair(l: Lists, a: Node, b: Node): seq<Edge> { To(Of(l.outs, a), b) }

  predicate AllStart(edges: seq<Edge>, a: Node) { forall e :: e in edges ==> e.start == a }

  predicate AllEnd(edges: seq<Edge>, b: Node) { forall e :: e in edges ==> e.end == b }

  ghost predicate Mirror(l: Lists) {
    && (forall a, b :: From(Of(l.ins, b), a) == Pair(l, a, b))
    && (forall a :: AllStart(Of(l.outs, a), a))
    && (forall b :: AllEnd(Of(l.ins, b), b))
  }

  function Add(l: Lists, e: Edge): Lists {
    Lists(l.ins[e.end := Of(l.ins, e.end) + [e]], l.outs[e.start := Of(l.outs, e.start) + [e]])
  }

  function WithoutFirstTo(edges: seq<Edge>, b: Node): (r: seq<Edge>)
    ensures forall e :: e in r ==> e in edges
  {
    if edges == [] then [] else if edges[0].end == b then edges[1..] else [edges[0]] + WithoutFirstTo(edges[1..], b)
  }

  function WithoutFirstFrom(edges: seq<Edge>, a: Node): (r: seq<Edge>)
    ensures forall e :: e in r ==> e in edges
  {
    if edges == [] then [] else if edges[0].start == a then edges[1..] else [edges[0]] + WithoutFirstFrom(edges[1..], a)
  }

  function Remove(l: Lists, a: Node, b: Node): Lists {
    Lists(l.ins[b := WithoutFirstFrom(Of(l.ins, b), a)], l.outs[a := WithoutFirstTo(Of(l.outs, a), b)])
  }

  function Rest(edges: seq<Edge>): seq<Edge> { if edges == [] then [] else edges[1..] }

  // ----- Lists -----

  lemma {:induction false} ToAppend(edges: seq<Edge>, e: Edge, b: Node)
    ensures To(edges + [e], b) == To(edges, b) + if e.end == b then [e] else []
  {
    if edges != [] {
      assert (edges + [e])[1..] == edges[1..] + [e];
      ToAppend(edges[1..], e, b);
    }
  }

  lemma {:induction false} FromAppend(edges: seq<Edge>, e: Edge, a: Node)
    ensures From(edges + [e], a) == From(edges, a) + if e.start == a then [e] else []
  {
    if edges != [] {
      assert (edges + [e])[1..] == edges[1..] + [e];
      FromAppend(edges[1..], e, a);
    }
  }

  lemma {:induction false} ToWithoutFirst(edges: seq<Edge>, b: Node, c: Node)
    ensures To(WithoutFirstTo(edges, b), c) == if b == c then Rest(To(edges, c)) else To(edges, c)
  {
    if edges != [] && edges[0].end != b {
      var rest := WithoutFirstTo(edges[1..], b);
      assert ([edges[0]] + rest)[1..] == rest;
      ToWithoutFirst(edges[1..], b, c);
    }
  }

  lemma {:induction false} FromWithoutFirst(edges: seq<Edge>, a: Node, c: Node)
    ensures From(WithoutFirstFrom(edges, a), c) == if a == c then Rest(From(edges, c)) else From(edges, c)
  {
    if edges != [] && edges[0].start != a {
      var rest := WithoutFirstFrom(edges[1..], a);
      assert ([edges[0]] + rest)[1..] == rest;
      FromWithoutFirst(edges[1..], a, c);
    }
  }

  lemma {:induction false} ToSubset(edges: seq<Edge>, b: Node)
    ensures forall e :: e in To(edges, b) ==> e in edges && e.end == b
  {
    if edges != [] { ToSubset(edges[1..], b); }
  }

  // ----- Both sides -----

  lemma {:induction false} PairAdd(l: Lists, e: Edge, a: Node, b: Node)
    ensures Pair(Add(l, e), a, b) == Pair(l, a, b) + if e.start == a && e.end == b then [e] else []
  {
    ToAppend(Of(l.outs, e.start), e, b);
  }

  lemma {:induction false} PairRemove(l: Lists, x: Node, y: Node, a: Node, b: Node)
    ensures Pair(Remove(l, x, y), a, b) == if x == a && y == b then Rest(Pair(l, a, b)) else Pair(l, a, b)
  {
    ToWithoutFirst(Of(l.outs, x), y, b);
  }

  /** Adding an edge keeps both sides in step. */
  lemma {:induction false} AddKeepsMirror(l: Lists, e: Edge)
    requires Mirror(l)
    ensures Mirror(Add(l, e))
  {
    var m := Add(l, e);
    forall a ensures AllStart(Of(m.outs, a), a) { assert AllStart(Of(l.outs, a), a); }
    forall b ensures AllEnd(Of(m.ins, b), b) { assert AllEnd(Of(l.ins, b), b); }
    forall a, b ensures From(Of(m.ins, b), a) == Pair(m, a, b) {
      PairAdd(l, e, a, b);
      FromAppend(Of(l.ins, e.end), e, a);
      assert From(Of(l.ins, b), a) == Pair(l, a, b);
    }
  }

  /** So does removing the edge that a search between two nodes finds, and every other edge
      stays where it is. */
  lemma {:induction false} RemoveKeepsMirror(l: Lists, x: Node, y: Node)
    requires Mirror(l)
    ensures Mirror(Remove(l, x, y))
  {
    var m := Remove(l, x, y);
    forall a ensures AllStart(Of(m.outs, a), a) { assert AllStart(Of(l.outs, a), a); }
    forall b ensures AllEnd(Of(m.ins, b), b) { assert AllEnd(Of(l.ins, b), b); }
    forall a, b ensures From(Of(m.ins, b), a) == Pair(m, a, b) {
      PairRemove(l, x, y, a, b);
      FromWithoutFirst(Of(l.ins, y), x, a);
      assert From(Of(l.ins, b), a) == Pair(l, a, b);
    }
  }

  class Graph {
    var inEdges: map<Node, seq<Edge>>
    var outEdges: map<Node, seq<Edge>>

    ghost function Value(): Lists
      reads this
    {
      Lists(inEdges, outEdges)
    }

    ghost predicate Valid()
      reads this
    {
      Mirror(Value())
    }

    constructor ()
      ensures Valid() && Value() == Lists(map[], map[])
    {
      inEdges, outEdges := map[], map[];
    }

    method AddEdge(edge: Edge)
      requires Valid()
      modifies this
      ensures Valid() && Value() == Add(old(Value()), edge)
    {
      AddKeepsMirror(Value(), edge);
      inEdges := inEdges[edge.end := (if edge.end in inEdges then inEdges[edge.end] else []) + [edge]];
      outEdges := outEdges[edge.start := (if edge.start in outEdges then outEdges[edge.start] else []) + [edge]];
    }

    /** Takes out the first edge between the two nodes on either side. The caller got its edge
        from a search for the first one, so it is this edge that goes, from both lists. */
    method RemoveEdge(edge: Edge)
      requires Valid() && Pair(Value(), edge.start, edge.end) != []
      requires Pair(Value(), edge.start, edge.end)[0] == edge
      modifies this
      ensures Valid() && Value() == Remove(old(Value()), edge.start, edge.end)
      ensures From(Of(inEdges, edge.end), edge.start) == old(From(Of(inEdges, edge.end), edge.start))[1..]
      ensures To(Of(outEdges, edge.start), edge.end) == old(To(Of(outEdges, edge.start), edge.end))[1..]
    {
      ghost var was := Value();
      RemoveKeepsMirror(was, edge.start, edge.end);
      PairRemove(was, edge.start, edge.end, edge.start, edge.end);
      FromWithoutFirst(Of(inEdges, edge.end), edge.start, edge.start);
      assert From(Of(was.ins, edge.end), edge.start) == Pair(was, edge.start, edge.end);
      var outs := EraseTo(if edge.start in outEdges then outEdges[edge.start] else [], edge.end);
      var ins := EraseFrom(if edge.end in inEdges then inEdges[edge.end] else [], edge.start);
      outEdges := outEdges[edge.start := outs];
      inEdges := inEdges[edge.end := ins];
    }

    static method EraseTo(edges: seq<Edge>, endNode: Node) returns (rest: seq<Edge>)
      ensures rest == WithoutFirstTo(edges, endNode)
    {
      for i := 0 to |edges|
        invariant WithoutFirstTo(edges, endNode) == edges[..i] + WithoutFirstTo(edges[i..], endNode)
      {
        if edges[i].end == endNode { return edges[..i] + edges[i + 1..]; }
      }
      return edges;
    }

    static method EraseFrom(edges: seq<Edge>, startNode: Node) returns (rest: seq<Edge>)
      ensures rest == WithoutFirstFrom(edges, startNode)
    {
      for i := 0 to |edges|
        invariant WithoutFirstFrom(edges, startNode) == edges[..i] + WithoutFirstFrom(edges[i..], startNode)
      {
        if edges[i].start == startNode { return edges[..i] + edges[i + 1..]; }
      }
      return edges;
    }

    /** The oldest edge from source to target. */
    method GetEdge(source: Node, target: Node) returns (edge: Option<Edge>)
      ensures edge == (var p := Pair(Value(), source, target); if p == [] then None else Some(p[0]))
    {
      if source !in outEdges { return None; }
      var edges := outEdges[source];
      for i := 0 to |edges|
        invariant To(edges, target) == To(edges[i..], target)
      {
        if edges[i].end == target { return Some(edges[i]); }
      }
      return None;
    }
  }
}
