/**
 Blame distribution on one stream: walkBackward with the MPI and the OpenMP stop rule, and
 distributeBlame without propagation. A walk collects the nodes before a late node up to the
 last wait state; the blame is spread over the edges in between in proportion to their
 durations.
 */
module StreamBlame {
  import opened Common
  import opened Scaling
  import opened NodeOrder
  import BinarySearch

  const MISC_PROCESS: bv32 := 0x8000_0000
  const MPI_BLOCKING: bv32 := 0x8_0000
  const OMP_SYNC: bv32 := 2

  predicate IsProcess(n: Node) { n.record.Atomic? && n.kind & MISC_PROCESS != 0 }

  predicate IsMpiBlocking(n: Node) { IsMpi(n) && n.kind & MPI_BLOCKING != 0 }

  predicate IsOmpSync(n: Node) { n.paradigm & PARADIGM_OMP != 0 && n.kind & OMP_SYNC != 0 }

  // An edge with the blame that was put on it, by reason.
  datatype Edge = Edge(start: nat, end: nat, duration: nat, blocking: bool, blame: map<Reason, real>)

  function BlameOf(e: Edge, reason: Reason): real { if reason in e.blame then e.blame[reason] else 0.0 }

  function AddBlame(e: Edge, reason: Reason, value: real): (e': Edge)
    ensures BlameOf(e', reason) == BlameOf(e, reason) + value
    ensures forall other :: other != reason ==> BlameOf(e', other) == BlameOf(e, other)
  {
    e.(blame := e.blame[reason := BlameOf(e, reason) + value])
  }

  // Position of the first edge from `start` to `end`, as getEdge finds it.
  function FindEdge(edges: seq<Edge>, start: nat, end: nat): (k: nat)
    ensures k <= |edges|
    ensures k < |edges| ==> edges[k].start == start && edges[k].end == end
    ensures forall i :: 0 <= i < k ==> !(edges[i].start == start && edges[i].end == end)
  {
    if edges == [] || (edges[0].start == start && edges[0].end == end) then 0 else
      assert forall i :: 0 < i < |edges| ==> edges[i] == edges[1..][i - 1];
      1 + FindEdge(edges[1..], start, end)
  }

  function TotalBlame(edges: seq<Edge>, reason: Reason): real {
    if edges == [] then 0.0 else TotalBlame(edges[..|edges| - 1], reason) + BlameOf(edges[|edges| - 1], reason)
  }

  // Adjacent nodes of the stream are linked by an edge of their time difference, and no other
  // pair of nodes shares an edge with them.
  predicate Linked(nodes: seq<Node>, edges: seq<Edge>, i: nat)
    requires 0 < i < |nodes|
  {
    var k := FindEdge(edges, nodes[i - 1].id, nodes[i].id);
    k < |edges| && edges[k].duration == nodes[i].time - nodes[i - 1].time
  }

  predicate Chain(nodes: seq<Node>, edges: seq<Edge>) {
    && (forall i, j :: 0 <= i < j < |nodes| ==> nodes[i].time <= nodes[j].time && nodes[i].id != nodes[j].id)
    && (forall i :: 0 < i < |nodes| ==> Linked(nodes, edges, i))
  }

  // ----- The walk -----

  // What the callbacks look at besides the node itself.
  datatype WalkRule = MpiWalk | OmpWalk(withCaller: set<nat>, ignoredBarriers: set<nat>)

  // The callback returns false at position `p` of a walk that started at `from`.
  predicate Stops(rule: WalkRule, nodes: seq<Node>, from: nat, p: nat)
    requires p <= from < |nodes|
  {
    var n := nodes[p];
    match rule
    case MpiWalk => IsProcess(n) || (IsMpiBlocking(n) && n.record.Leave?)
    case OmpWalk(withCaller, ignored) =>
      if n.id !in withCaller && p < from && n.time < nodes[p + 1].time then true
      else if n.record.Leave? && IsOmpSync(n) then n.id !in ignored
      else IsProcess(n)
  }

  // The last position of the walk: the first stop, or the beginning of the stream.
  function WalkEnd(rule: WalkRule, nodes: seq<Node>, from: nat, p: nat): (end: nat)
    requires p <= from < |nodes|
    ensures end <= p && (end == 0 || Stops(rule, nodes, from, end))
    ensures forall q :: end < q <= p ==> !Stops(rule, nodes, from, q)
  {
    if p == 0 || Stops(rule, nodes, from, p) then p else WalkEnd(rule, nodes, from, p - 1)
  }

  /** Collects the positions of the walk, latest node first: a contiguous run of the stream that
      ends at the first stop of the callback. */
  method WalkBackward(nodes: seq<Node>, node: Node, rule: WalkRule) returns (list: seq<nat>)
    requires Sorted(nodes) && node in nodes
    ensures |list| > 0 && list[0] < |nodes| && nodes[list[0]] == node
    ensures forall i :: 0 <= i < |list| ==> list[i] == list[0] - i
    ensures list[|list| - 1] == WalkEnd(rule, nodes, list[0], list[0])
  {
    var at := BinarySearch.FindNode(node, nodes);
    var from := at.value;
    list := [from];
    var p := from;
    while p > 0 && !Stops(rule, nodes, from, p)
      invariant 0 <= p <= from && |list| == from - p + 1
      invariant forall i :: 0 <= i < |list| ==> list[i] == from - i
      invariant WalkEnd(rule, nodes, from, from) == WalkEnd(rule, nodes, from, p)
    {
      p := p - 1;
      list := list + [p];
    }
  }

  // ----- The distribution -----

  // Part of `total` that belongs to an edge of the given duration.
  function Share(total: nat, duration: nat, span: nat): real
    requires span > 0
  {
    total as real * duration as real / span as real
  }

  function Charge(edges: seq<Edge>, start: nat, end: nat, total: nat, span: nat, reason: Reason): (r: seq<Edge>)
    requires span > 0
  {
    var k := FindEdge(edges, start, end);
    if k == |edges| then edges
    else edges[k := AddBlame(edges[k], reason, Share(total, edges[k].duration, span))]
  }

  // The edges after the walk from `from` back to `to` has been charged.
  function Spread(nodes: seq<Node>, edges: seq<Edge>, from: nat, to: nat, total: nat, span: nat,
                  reason: Reason): seq<Edge>
    requires to <= from < |nodes| && span > 0
    decreases from
  {
    if from == to then edges
    else Spread(nodes, Charge(edges, nodes[from - 1].id, nodes[from].id, total, span, reason), from - 1, to, total,
        span, reason)
  }

  // A walk of one node violates an assertion of the source; a walk without duration divides by
  // zero there.
  datatype Outcome = NothingToBlame | SingleNode | NoDuration | Blamed(edges: seq<Edge>)

  function Distribute(nodes: seq<Node>, edges: seq<Edge>, from: nat, total: nat, rule: WalkRule,
                      reason: Reason): Outcome
    requires from < |nodes| && Chain(nodes, edges)
  {
    var to := WalkEnd(rule, nodes, from, from);
    if total == 0 then NothingToBlame
    else if to == from then SingleNode
    else if nodes[to].time == nodes[from].time then NoDuration
    else Blamed(Spread(nodes, edges, from, to, total, nodes[from].time - nodes[to].time, reason))
  }

  function EdgesAfter(edges: seq<Edge>, o: Outcome): seq<Edge> { if o.Blamed? then o.edges else edges }

  // ----- Edges keep their shape -----

  predicate SameShape(a: seq<Edge>, b: seq<Edge>) {
    |a| == |b| && forall k :: 0 <= k < |a| ==>
      a[k].start == b[k].start && a[k].end == b[k].end && a[k].duration == b[k].duration
  }

  lemma {:induction false} FindUnique(edges: seq<Edge>, start: nat, end: nat, k: nat)
    requires k <= |edges| && (k < |edges| ==> edges[k].start == start && edges[k].end == end)
    requires forall i :: 0 <= i < k ==> !(edges[i].start == start && edges[i].end == end)
    ensures FindEdge(edges, start, end) == k
  {
  }

  lemma {:induction false} SameShapeFind(a: seq<Edge>, b: seq<Edge>, start: nat, end: nat)
    requires SameShape(a, b)
    ensures FindEdge(a, start, end) == FindEdge(b, start, end)
  {
    FindUnique(b, start, end, FindEdge(a, start, end));
  }

  lemma {:induction false} SameShapeChain(nodes: seq<Node>, a: seq<Edge>, b: seq<Edge>)
    requires SameShape(a, b) && Chain(nodes, a)
    ensures Chain(nodes, b)
  {
    forall i | 0 < i < |nodes| ensures Linked(nodes, b, i) {
      assert Linked(nodes, a, i);
      SameShapeFind(a, b, nodes[i - 1].id, nodes[i].id);
    }
  }

  lemma {:induction false} SpreadShape(nodes: seq<Node>, edges: seq<Edge>, from: nat, to: nat, total: nat, span: nat,
                                       reason: Reason)
    requires to <= from < |nodes| && span > 0
    ensures SameShape(edges, Spread(nodes, edges, from, to, total, span, reason))
    decreases from
  {
    if from > to {
      var next := Charge(edges, nodes[from - 1].id, nodes[from].id, total, span, reason);
      SpreadShape(nodes, next, from - 1, to, total, span, reason);
      SameShapeThrough(edges, next, Spread(nodes, next, from - 1, to, total, span, reason));
    }
  }

  lemma {:induction false} SameShapeThrough(a: seq<Edge>, b: seq<Edge>, c: seq<Edge>)
    requires SameShape(a, b) && SameShape(b, c)
    ensures SameShape(a, c)
  {
  }

  // ----- Conservation -----

  lemma {:induction false} TotalUpdate(edges: seq<Edge>, k: nat, e: Edge, reason: Reason)
    requires k < |edges|
    ensures TotalBlame(edges[k := e], reason) ==
            TotalBlame(edges, reason) - BlameOf(edges[k], reason) + BlameOf(e, reason)
  {
    var n := |edges| - 1;
    if k < n {
      assert edges[k := e][..n] == edges[..n][k := e];
      TotalUpdate(edges[..n], k, e, reason);
    } else {
      assert edges[k := e][..n] == edges[..n];
    }
  }

  lemma {:induction false} ShareAdds(total: nat, a: nat, b: nat, span: nat)
    requires span > 0
    ensures Share(total, a, span) + Share(total, b, span) == Share(total, a + b, span)
    ensures Share(total, 0, span) == 0.0 && Share(total, span, span) == total as real
  {
    ScaleAdds(total as real, a as real, b as real, span as real);
  }

  // Position of the edge into node `i` of the stream.
  function EdgeInto(nodes: seq<Node>, edges: seq<Edge>, i: nat): nat
    requires 0 < i < |nodes|
  {
    FindEdge(edges, nodes[i - 1].id, nodes[i].id)
  }

  // Charging the edge into node `i` changes that edge only.
  lemma {:induction false} ChargeStep(nodes: seq<Node>, edges: seq<Edge>, i: nat, total: nat, span: nat, reason: Reason)
    returns (next: seq<Edge>)
    requires 0 < i < |nodes| && span > 0 && Chain(nodes, edges)
    ensures next == Charge(edges, nodes[i - 1].id, nodes[i].id, total, span, reason)
    ensures EdgeInto(nodes, edges, i) < |edges|
    ensures var k := EdgeInto(nodes, edges, i);
            && edges[k].duration == nodes[i].time - nodes[i - 1].time
            && next == edges[k := AddBlame(edges[k], reason, Share(total, edges[k].duration, span))]
    ensures SameShape(edges, next) && Chain(nodes, next)
  {
    assert Linked(nodes, edges, i);
    next := Charge(edges, nodes[i - 1].id, nodes[i].id, total, span, reason);
    SameShapeChain(nodes, edges, next);
  }

  lemma {:induction false} ChargeTotal(nodes: seq<Node>, edges: seq<Edge>, i: nat, total: nat, span: nat,
                                       reason: Reason, r: Reason)
    requires 0 < i < |nodes| && span > 0 && Chain(nodes, edges)
    ensures TotalBlame(Charge(edges, nodes[i - 1].id, nodes[i].id, total, span, reason), r) == TotalBlame(edges, r)
              + if r == reason then Share(total, nodes[i].time - nodes[i - 1].time, span) else 0.0
  {
    var next := ChargeStep(nodes, edges, i, total, span, reason);
    var k := EdgeInto(nodes, edges, i);
    TotalUpdate(edges, k, next[k], r);
  }

  function SumOfShares(nodes: seq<Node>, from: nat, to: nat, total: nat, span: nat): real
    requires to <= from < |nodes| && span > 0
    requires forall i, j :: 0 <= i < j < |nodes| ==> nodes[i].time <= nodes[j].time
  {
    if from == to then 0.0
    else Share(total, nodes[from].time - nodes[from - 1].time, span) + SumOfShares(nodes, from - 1, to, total, span)
  }

  lemma {:induction false} SpreadTotal(nodes: seq<Node>, edges: seq<Edge>, from: nat, to: nat, total: nat, span: nat,
                                       reason: Reason, r: Reason)
    requires to <= from < |nodes| && span > 0 && Chain(nodes, edges)
    ensures TotalBlame(Spread(nodes, edges, from, to, total, span, reason), r) == TotalBlame(edges, r)
              + if r == reason then SumOfShares(nodes, from, to, total, span) else 0.0
    decreases from
  {
    if from > to {
      var next := ChargeStep(nodes, edges, from, total, span, reason);
      ChargeTotal(nodes, edges, from, total, span, reason, r);
      SpreadTotal(nodes, next, from - 1, to, total, span, reason, r);
    }
  }

  // The shares of a run of edges add up to the share of its whole duration.
  lemma {:induction false} SharesTelescope(nodes: seq<Node>, from: nat, to: nat, total: nat, span: nat)
    requires to <= from < |nodes| && span > 0
    requires forall i, j :: 0 <= i < j < |nodes| ==> nodes[i].time <= nodes[j].time
    ensures SumOfShares(nodes, from, to, total, span) == Share(total, nodes[from].time - nodes[to].time, span)
    decreases from
  {
    if from > to {
      SharesTelescope(nodes, from - 1, to, total, span);
      ShareAdds(total, nodes[from].time - nodes[from - 1].time, nodes[from - 1].time - nodes[to].time, span);
    } else {
      ShareAdds(total, 0, 0, span);
    }
  }

  /** Distributing blame adds exactly the blame to the edges, under its reason only. */
  lemma {:induction false} DistributeConserves(nodes: seq<Node>, edges: seq<Edge>, from: nat, total: nat,
                                               rule: WalkRule, reason: Reason, r: Reason)
    requires from < |nodes| && Chain(nodes, edges)
    ensures var o := Distribute(nodes, edges, from, total, rule, reason);
            && SameShape(edges, EdgesAfter(edges, o))
            && (o.Blamed? ==>
                  TotalBlame(o.edges, r) ==
                  TotalBlame(edges, r) + if r == reason then total as real else 0.0)
            && (!o.Blamed? ==> total == 0 || nodes[WalkEnd(rule, nodes, from, from)].time == nodes[from].time)
  {
    var to := WalkEnd(rule, nodes, from, from);
    if total > 0 && nodes[to].time < nodes[from].time {
      SpreadWhole(nodes, edges, from, to, total, reason, r);
      SpreadShape(nodes, edges, from, to, total, nodes[from].time - nodes[to].time, reason);
    }
  }

  lemma {:induction false} SpreadWhole(nodes: seq<Node>, edges: seq<Edge>, from: nat, to: nat, total: nat,
                                       reason: Reason, r: Reason)
    requires to <= from < |nodes| && Chain(nodes, edges) && nodes[to].time < nodes[from].time
    ensures var span := nodes[from].time - nodes[to].time;
            TotalBlame(Spread(nodes, edges, from, to, total, span, reason), r) ==
            TotalBlame(edges, r) + if r == reason then total as real else 0.0
  {
    var span := nodes[from].time - nodes[to].time;
    SpreadTotal(nodes, edges, from, to, total, span, reason, r);
    SharesTelescope(nodes, from, to, total, span);
    ShareAdds(total, 0, 0, span);
  }

  /** Edges outside the walk keep their blame. */
  lemma {:induction false} SpreadOutside(nodes: seq<Node>, edges: seq<Edge>, from: nat, to: nat, total: nat,
                                         span: nat, reason: Reason, k: nat)
    requires to <= from < |nodes| && span > 0 && Chain(nodes, edges) && k < |edges|
    requires forall i :: to < i <= from ==> k != EdgeInto(nodes, edges, i)
    ensures var after := Spread(nodes, edges, from, to, total, span, reason);
            |after| == |edges| && after[k] == edges[k]
    decreases from
  {
    if from > to {
      var next := ChargeStep(nodes, edges, from, total, span, reason);
      forall i | to < i < from ensures k != EdgeInto(nodes, next, i) {
        assert k != EdgeInto(nodes, edges, i);
        SameShapeFind(edges, next, nodes[i - 1].id, nodes[i].id);
      }
      SpreadOutside(nodes, next, from - 1, to, total, span, reason, k);
    }
  }

  lemma {:induction false} OtherEdges(nodes: seq<Node>, edges: seq<Edge>, k: nat, i: nat)
    requires Chain(nodes, edges) && 0 < i < |nodes| && k < |edges| && edges[k].end == nodes[i].id
    ensures forall j :: 0 < j < i ==> k != EdgeInto(nodes, edges, j)
  {
    forall j | 0 < j < i ensures k != EdgeInto(nodes, edges, j) {
      assert Linked(nodes, edges, j);
    }
  }

  /** Each edge of the walk gets its share, once. */
  lemma {:induction false} SpreadInside(nodes: seq<Node>, edges: seq<Edge>, from: nat, to: nat, total: nat,
                                        span: nat, reason: Reason, i: nat)
    requires to < i <= from < |nodes| && span > 0 && Chain(nodes, edges)
    ensures var after := Spread(nodes, edges, from, to, total, span, reason); var k := EdgeInto(nodes, edges, i);
            && |after| == |edges| && k < |edges|
            && after[k] == AddBlame(edges[k], reason, Share(total, nodes[i].time - nodes[i - 1].time, span))
    decreases from
  {
    var next := ChargeStep(nodes, edges, from, total, span, reason);
    var after := Spread(nodes, next, from - 1, to, total, span, reason);
    assert Spread(nodes, edges, from, to, total, span, reason) == after;
    var k := EdgeInto(nodes, edges, i);
    assert Linked(nodes, edges, i);
    if i < from {
      SameShapeFind(edges, next, nodes[i - 1].id, nodes[i].id);
      OtherEdges(nodes, edges, EdgeInto(nodes, edges, from), from);
      SpreadInside(nodes, next, from - 1, to, total, span, reason, i);
    } else {
      OtherEdges(nodes, next, k, i);
      SpreadOutside(nodes, next, from - 1, to, total, span, reason, k);
    }
  }

  /** An MPI walk from an enter never has only one node: the stream begins with its process
      node. It fails exactly if no time passed since the node it ends at. */
  lemma {:induction false} MpiWalkOutcome(nodes: seq<Node>, edges: seq<Edge>, from: nat, total: nat, reason: Reason)
    requires 0 < from < |nodes| && Chain(nodes, edges) && nodes[from].record.Enter? && total > 0
    ensures var o := Distribute(nodes, edges, from, total, MpiWalk, reason);
            && !o.SingleNode?
            && (o.Blamed? <==> nodes[WalkEnd(MpiWalk, nodes, from, from)].time < nodes[from].time)
  {
    assert !Stops(MpiWalk, nodes, from, from);
    assert nodes[WalkEnd(MpiWalk, nodes, from, from)].time <= nodes[from].time;
  }

  // ----- Which edges get the blame -----

  predicate IsFirst(edges: seq<Edge>, start: nat, end: nat, k: nat) {
    && k < |edges| && edges[k].start == start && edges[k].end == end
    && forall i :: 0 <= i < k ==> !(edges[i].start == start && edges[i].end == end)
  }

  // Edge `k` leads into node `i` of the stream.
  predicate LeadsInto(nodes: seq<Node>, edges: seq<Edge>, i: nat, k: nat)
    requires 0 < i < |nodes|
  {
    IsFirst(edges, nodes[i - 1].id, nodes[i].id, k)
  }

  ghost predicate GotBlame(e: Edge, e': Edge, reason: Reason, value: real) {
    && e' == e.(blame := e'.blame)
    && forall r :: BlameOf(e', r) == BlameOf(e, r) + if r == reason then value else 0.0
  }

  // The edges into the nodes behind `to` and up to `from` have got the total, each in proportion
  // to its duration; no other edge changed.
  ghost predicate Shared(nodes: seq<Node>, before: seq<Edge>, after: seq<Edge>, to: nat, from: nat, total: nat,
                         reason: Reason)
    requires to <= from < |nodes| && nodes[to].time < nodes[from].time
  {
    && |after| == |before|
    && (forall i, k: nat :: to < i <= from && LeadsInto(nodes, before, i, k) && nodes[i - 1].time <= nodes[i].time ==>
          GotBlame(before[k], after[k], reason,
                   Share(total, nodes[i].time - nodes[i - 1].time, nodes[from].time - nodes[to].time)))
    && (forall k: nat :: k < |before| && (forall i :: to < i <= from ==> !LeadsInto(nodes, before, i, k)) ==>
          after[k] == before[k])
  }

  lemma {:induction false} SpreadShares(nodes: seq<Node>, edges: seq<Edge>, from: nat, to: nat, total: nat,
                                        reason: Reason)
    requires to <= from < |nodes| && Chain(nodes, edges) && nodes[to].time < nodes[from].time
    ensures var span := nodes[from].time - nodes[to].time;
            Shared(nodes, edges, Spread(nodes, edges, from, to, total, span, reason), to, from, total, reason)
  {
    var span := nodes[from].time - nodes[to].time;
    SpreadShape(nodes, edges, from, to, total, span, reason);
    var after := Spread(nodes, edges, from, to, total, span, reason);
    forall i, k: nat | to < i <= from && LeadsInto(nodes, edges, i, k) && nodes[i - 1].time <= nodes[i].time
      ensures GotBlame(edges[k], after[k], reason, Share(total, nodes[i].time - nodes[i - 1].time, span))
    {
      FindUnique(edges, nodes[i - 1].id, nodes[i].id, k);
      SpreadInside(nodes, edges, from, to, total, span, reason, i);
    }
    forall k: nat | k < |edges| && (forall i :: to < i <= from ==> !LeadsInto(nodes, edges, i, k))
      ensures after[k] == edges[k]
    {
      forall i | to < i <= from ensures k != EdgeInto(nodes, edges, i) {
        assert !LeadsInto(nodes, edges, i, k);
        assert Linked(nodes, edges, i);
      }
      SpreadOutside(nodes, edges, from, to, total, span, reason, k);
    }
  }

  // Blame that is to be charged from position `from` back to `to`.
  ghost predicate ChargedBackTo(nodes: seq<Node>, edges: seq<Edge>, from: nat, to: nat, total: nat, reason: Reason,
                                o: Outcome)
    requires to <= from < |nodes|
  {
    if total == 0 then o == NothingToBlame
    else if to == from then o == SingleNode
    else if nodes[to].time >= nodes[from].time then o == NoDuration
    else o.Blamed? && Shared(nodes, edges, o.edges, to, from, total, reason)
  }

  lemma {:induction false} DistributeCharges(nodes: seq<Node>, edges: seq<Edge>, from: nat, total: nat,
                                             rule: WalkRule, reason: Reason)
    requires from < |nodes| && Chain(nodes, edges)
    ensures ChargedBackTo(nodes, edges, from, WalkEnd(rule, nodes, from, from), total, reason,
                          Distribute(nodes, edges, from, total, rule, reason))
  {
    var to := WalkEnd(rule, nodes, from, from);
    if nodes[to].time < nodes[from].time { SpreadShares(nodes, edges, from, to, total, reason); }
  }

  // Where an MPI walk ends: at a process node or at the leave of a blocking MPI region.
  predicate EndsMpiWalk(n: Node) {
    || (n.record == Atomic && n.kind & MISC_PROCESS != 0)
    || (n.record == Leave && n.paradigm & PARADIGM_MPI != 0 && n.kind & MPI_BLOCKING != 0)
  }

  // The last such position up to `from`, or the beginning of the stream.
  predicate LastMpiEnd(nodes: seq<Node>, from: nat, to: nat) {
    && to <= from < |nodes| && (to == 0 || EndsMpiWalk(nodes[to]))
    && forall q :: to < q <= from ==> !EndsMpiWalk(nodes[q])
  }

  /** MPI blame goes to the edges since the last process node or blocking MPI leave, and to no
      others. */
  lemma {:induction false} MpiBlame(nodes: seq<Node>, edges: seq<Edge>, from: nat, to: nat, total: nat,
                                    reason: Reason)
    requires Chain(nodes, edges) && LastMpiEnd(nodes, from, to)
    ensures WalkEnd(MpiWalk, nodes, from, from) == to
    ensures ChargedBackTo(nodes, edges, from, to, total, reason,
                          Distribute(nodes, edges, from, total, MpiWalk, reason))
  {
    DistributeCharges(nodes, edges, from, total, MpiWalk, reason);
    assert forall q :: to <= q <= from ==> (Stops(MpiWalk, nodes, from, q) <==> EndsMpiWalk(nodes[q]));
    WalkEndIs(MpiWalk, nodes, from, from, to);
  }

  lemma {:induction false} WalkEndIs(rule: WalkRule, nodes: seq<Node>, from: nat, p: nat, to: nat)
    requires to <= p <= from < |nodes| && (to == 0 || Stops(rule, nodes, from, to))
    requires forall q :: to < q <= p ==> !Stops(rule, nodes, from, q)
    ensures WalkEnd(rule, nodes, from, p) == to
  {
    if to < p { WalkEndIs(rule, nodes, from, p - 1, to); }
  }

  // Where an OpenMP walk from `from` ends: before a region outside all others that time separates
  // from the next node, at the leave of a barrier that is not ignored, or at a process node.
  predicate EndsOmpWalk(nodes: seq<Node>, withCaller: set<nat>, ignored: set<nat>, from: nat, p: nat)
    requires p <= from < |nodes|
  {
    var n := nodes[p];
    || (p != from && n.id !in withCaller && n.time < nodes[p + 1].time)
    || (n.record == Leave && n.paradigm & PARADIGM_OMP != 0 && n.kind & OMP_SYNC != 0 && n.id !in ignored)
    || (n.record == Atomic && n.kind & MISC_PROCESS != 0)
  }

  predicate LastOmpEnd(nodes: seq<Node>, withCaller: set<nat>, ignored: set<nat>, from: nat, to: nat) {
    && to <= from < |nodes| && (to == 0 || EndsOmpWalk(nodes, withCaller, ignored, from, to))
    && forall q :: to < q <= from ==> !EndsOmpWalk(nodes, withCaller, ignored, from, q)
  }

  /** OpenMP blame goes to the edges since the last of these places. */
  lemma {:induction false} OmpBlame(nodes: seq<Node>, edges: seq<Edge>, withCaller: set<nat>, ignored: set<nat>,
                                    from: nat, to: nat, total: nat, reason: Reason)
    requires Chain(nodes, edges) && LastOmpEnd(nodes, withCaller, ignored, from, to)
    ensures WalkEnd(OmpWalk(withCaller, ignored), nodes, from, from) == to
    ensures ChargedBackTo(nodes, edges, from, to, total, reason,
                          Distribute(nodes, edges, from, total, OmpWalk(withCaller, ignored), reason))
  {
    var rule := OmpWalk(withCaller, ignored);
    DistributeCharges(nodes, edges, from, total, rule, reason);
    assert forall q :: to <= q <= from ==>
      (Stops(rule, nodes, from, q) <==> EndsOmpWalk(nodes, withCaller, ignored, from, q));
    WalkEndIs(rule, nodes, from, from, to);
  }
}
