/**
 Blaming kernels for a wait of the host (AnalysisParadigmOffload::blameShortestPath). From the
 last kernel a walk follows the shortest edge into each kernel, to an earlier kernel or to the
 launch that ends the walk; the kernels passed share the blame by their run times.
 */
module ShortestPathBlame {
  import opened Common
  import opened StreamBlame

  // Node IDs that launch a kernel, the enter of each leave node, and the time of each node.
  datatype Device = Device(launches: set<nat>, enterOf: map<nat, nat>, time: map<nat, nat>)

  function Time(dev: Device, n: nat): nat { if n in dev.time then dev.time[n] else 0 }

  // ----- The shortest edge into a node -----

  // Among the first `k` edges; of equally short ones the first.
  function ShortestInEdge(edges: seq<Edge>, n: nat, k: nat): (s: Option<nat>)
    requires k <= |edges|
    ensures s.Some? ==> s.value < k && edges[s.value].end == n
  {
    if k == 0 then None
    else
      var s := ShortestInEdge(edges, n, k - 1);
      if edges[k - 1].end == n && (s.None? || edges[k - 1].duration < edges[s.value].duration) then Some(k - 1) else s
  }

  /** There is one if there is any edge into the node, none is shorter, and all before it are
      longer. */
  lemma {:induction false} ShortestIsFirst(edges: seq<Edge>, n: nat, k: nat)
    requires k <= |edges|
    ensures var s := ShortestInEdge(edges, n, k);
            && (s.None? <==> forall i :: 0 <= i < k ==> edges[i].end != n)
            && (s.Some? ==> forall i :: 0 <= i < k && edges[i].end == n ==>
                  edges[s.value].duration <= edges[i].duration
                      && (i < s.value ==> edges[s.value].duration < edges[i].duration))
  {
    if k > 0 { ShortestIsFirst(edges, n, k - 1); }
  }

  // ----- The walk -----

  // The edge over a kernel, given its leave node.
  function KernelEdge(dev: Device, edges: seq<Edge>, leave: nat): nat
    requires leave in dev.enterOf
  {
    FindEdge(edges, dev.enterOf[leave], leave)
  }

  predicate IsKernel(dev: Device, edges: seq<Edge>, leave: nat) {
    leave in dev.enterOf && KernelEdge(dev, edges, leave) < |edges|
  }

  // The node that the shortest edge into the kernel comes from.
  function Source(dev: Device, edges: seq<Edge>, leave: nat): nat {
    if leave !in dev.enterOf then 0
    else
      var s := ShortestInEdge(edges, dev.enterOf[leave], |edges|);
      if s.None? then 0 else edges[s.value].start
  }

  // The edge followed out of an enter node leads to a launch, or to a kernel that started earlier.
  predicate Leads(dev: Device, edges: seq<Edge>, enter: nat) {
    var s := ShortestInEdge(edges, enter, |edges|);
    && s.Some?
    && var from := edges[s.value].start;
       from in dev.launches || (IsKernel(dev, edges, from) && Time(dev, dev.enterOf[from]) < Time(dev, enter))
  }

  // So do the edges that a walk from this kernel follows.
  predicate WellLinked(dev: Device, edges: seq<Edge>, leave: nat)
    decreases if leave in dev.enterOf then Time(dev, dev.enterOf[leave]) else 0
  {
    && IsKernel(dev, edges, leave) && Leads(dev, edges, dev.enterOf[leave])
    && (Source(dev, edges, leave) in dev.launches || WellLinked(dev, edges, Source(dev, edges, leave)))
  }

  // Leave nodes of the kernels passed.
  function Path(dev: Device, edges: seq<Edge>, leave: nat): (p: seq<nat>)
    requires WellLinked(dev, edges, leave)
    ensures p != []
    decreases Time(dev, dev.enterOf[leave])
  {
    var from := Source(dev, edges, leave);
    if from in dev.launches then [leave] else [leave] + Path(dev, edges, from)
  }

  // The launch that the walk ends at.
  function Launch(dev: Device, edges: seq<Edge>, leave: nat): (launch: nat)
    requires WellLinked(dev, edges, leave)
    ensures launch in dev.launches
    decreases Time(dev, dev.enterOf[leave])
  {
    var from := Source(dev, edges, leave);
    if from in dev.launches then from else Launch(dev, edges, from)
  }

  lemma {:induction false} PathStep(dev: Device, edges: seq<Edge>, leave: nat)
    requires WellLinked(dev, edges, leave)
    ensures var from := Source(dev, edges, leave);
            from !in dev.launches ==>
              && IsKernel(dev, edges, from) && Time(dev, dev.enterOf[from]) < Time(dev, dev.enterOf[leave])
              && Path(dev, edges, leave) == [leave] + Path(dev, edges, from)
                   && Launch(dev, edges, leave) == Launch(dev, edges, from)
  {
    assert Leads(dev, edges, dev.enterOf[leave]);
  }

  // Kernels, each but the first the source of the one before, strictly back in time to a launch.
  ghost predicate LeadsBack(dev: Device, edges: seq<Edge>, p: seq<nat>, launch: nat) {
    && p != [] && (forall i :: 0 <= i < |p| ==> WellLinked(dev, edges, p[i]))
    && (forall i :: 0 < i < |p| ==> Source(dev, edges, p[i - 1]) == p[i])
    && BackInTime(dev, p)
    && Source(dev, edges, p[|p| - 1]) == launch
  }

  ghost predicate BackInTime(dev: Device, p: seq<nat>) {
    && (forall i :: 0 <= i < |p| ==> p[i] in dev.enterOf)
    && (forall i, j :: 0 <= i < j < |p| ==> Time(dev, dev.enterOf[p[j]]) < Time(dev, dev.enterOf[p[i]]))
  }

  lemma {:induction false} BackInTimeFrom(dev: Device, leave: nat, p: seq<nat>)
    requires BackInTime(dev, p) && p != [] && leave in dev.enterOf
    requires Time(dev, dev.enterOf[p[0]]) < Time(dev, dev.enterOf[leave])
    ensures BackInTime(dev, [leave] + p)
  {
    var q := [leave] + p;
    assert forall i :: 0 < i < |q| ==> q[i] == p[i - 1];
    forall i, j | 0 <= i < j < |q| ensures Time(dev, dev.enterOf[q[j]]) < Time(dev, dev.enterOf[q[i]]) {
      assert q[j] == p[j - 1] && (i > 0 ==> q[i] == p[i - 1]);
    }
  }

  lemma {:induction false} SourcesFrom(dev: Device, edges: seq<Edge>, leave: nat, p: seq<nat>)
    requires WellLinked(dev, edges, leave) && p != [] && (forall i :: 0 <= i < |p| ==> WellLinked(dev, edges, p[i]))
    requires Source(dev, edges, leave) == p[0] && forall i :: 0 < i < |p| ==> Source(dev, edges, p[i - 1]) == p[i]
    ensures var q := [leave] + p;
            && (forall i :: 0 <= i < |q| ==> WellLinked(dev, edges, q[i]))
            && (forall i :: 0 < i < |q| ==> Source(dev, edges, q[i - 1]) == q[i])
            && q[|q| - 1] == p[|p| - 1]
  {
    var q := [leave] + p;
    assert forall i :: 0 < i < |q| ==> q[i] == p[i - 1];
    forall i | 0 < i < |q| ensures Source(dev, edges, q[i - 1]) == q[i] {
      if i > 1 { assert Source(dev, edges, p[i - 2]) == p[i - 1]; }
    }
  }

  lemma {:induction false} LeadsBackFrom(dev: Device, edges: seq<Edge>, leave: nat, p: seq<nat>, launch: nat)
    requires LeadsBack(dev, edges, p, launch) && WellLinked(dev, edges, leave)
    requires Source(dev, edges, leave) == p[0] && Time(dev, dev.enterOf[p[0]]) < Time(dev, dev.enterOf[leave])
    ensures LeadsBack(dev, edges, [leave] + p, launch)
  {
    SourcesFrom(dev, edges, leave, p);
    BackInTimeFrom(dev, leave, p);
  }

  // The first of the shortest edges into the kernel's enter comes from `from`.
  ghost predicate ShortestFrom(dev: Device, edges: seq<Edge>, leave: nat, from: nat) {
    && leave in dev.enterOf
    && exists k :: 0 <= k < |edges| && edges[k].start == from && edges[k].end == dev.enterOf[leave]
         && forall j :: 0 <= j < |edges| && edges[j].end == dev.enterOf[leave] ==>
              edges[k].duration <= edges[j].duration && (j < k ==> edges[k].duration < edges[j].duration)
  }

  lemma {:induction false} SourceIsShortest(dev: Device, edges: seq<Edge>, leave: nat)
    requires WellLinked(dev, edges, leave)
    ensures ShortestFrom(dev, edges, leave, Source(dev, edges, leave))
  {
    assert Leads(dev, edges, dev.enterOf[leave]);
    ShortestIsFirst(edges, dev.enterOf[leave], |edges|);
  }

  /** From every kernel of the walk the shortest edge leads on: to the next kernel, or to the launch
      where the walk ends. */
  lemma {:induction false} PathByShortest(dev: Device, edges: seq<Edge>, leave: nat, i: nat)
    requires WellLinked(dev, edges, leave) && i < |Path(dev, edges, leave)|
    ensures var p := Path(dev, edges, leave);
            ShortestFrom(dev, edges, p[i], if i + 1 < |p| then p[i + 1] else Launch(dev, edges, leave))
    ensures Launch(dev, edges, leave) in dev.launches
    ensures i > 0 ==> Path(dev, edges, leave)[i] !in dev.launches
  {
    PathGoesBack(dev, edges, leave);
    var p := Path(dev, edges, leave);
    SourceIsShortest(dev, edges, p[i]);
    PathNotLaunched(dev, edges, leave);
  }

  lemma {:induction false} PathNotLaunched(dev: Device, edges: seq<Edge>, leave: nat)
    requires WellLinked(dev, edges, leave)
    ensures forall i :: 0 < i < |Path(dev, edges, leave)| ==> Path(dev, edges, leave)[i] !in dev.launches
    decreases Time(dev, dev.enterOf[leave])
  {
    PathStep(dev, edges, leave);
    var from := Source(dev, edges, leave);
    if from !in dev.launches {
      PathNotLaunched(dev, edges, from);
      PathGoesBack(dev, edges, from);
    }
  }

  /** The walk passes kernels only, each but the first by the shortest edge into the one before,
      strictly back in time, and its last kernel is the one the launch leads to. */
  lemma {:induction false} PathGoesBack(dev: Device, edges: seq<Edge>, leave: nat)
    requires WellLinked(dev, edges, leave)
    ensures Path(dev, edges, leave)[0] == leave
    ensures LeadsBack(dev, edges, Path(dev, edges, leave), Launch(dev, edges, leave))
    decreases Time(dev, dev.enterOf[leave])
  {
    PathStep(dev, edges, leave);
    var from := Source(dev, edges, leave);
    if from !in dev.launches {
      PathGoesBack(dev, edges, from);
      LeadsBackFrom(dev, edges, leave, Path(dev, edges, from), Launch(dev, edges, from));
    }
  }

  // ----- The blame -----

  function Durations(edges: seq<Edge>, path: seq<nat>): nat
    requires forall i :: 0 <= i < |path| ==> path[i] < |edges|
  {
    if path == [] then 0 else Durations(edges, path[..|path| - 1]) + edges[path[|path| - 1]].duration
  }

  function Blame(edges: seq<Edge>, path: seq<nat>, total: nat, span: nat, reason: Reason): (r: seq<Edge>)
    requires span > 0 && forall i :: 0 <= i < |path| ==> path[i] < |edges|
    ensures SameShape(edges, r)
  {
    if path == [] then edges
    else
      var k := path[|path| - 1];
      var before := Blame(edges, path[..|path| - 1], total, span, reason);
      before[k := AddBlame(before[k], reason, Share(total, edges[k].duration, span))]
  }

  lemma {:induction false} BlameTotal(edges: seq<Edge>, path: seq<nat>, total: nat, span: nat, reason: Reason,
                                      r: Reason)
    requires span > 0 && forall i :: 0 <= i < |path| ==> path[i] < |edges|
    ensures TotalBlame(Blame(edges, path, total, span, reason), r) ==
            TotalBlame(edges, r) + if r == reason then Share(total, Durations(edges, path), span) else 0.0
  {
    if path == [] {
      ShareAdds(total, 0, 0, span);
    } else {
      BlameTotal(edges, path[..|path| - 1], total, span, reason, r);
      BlameLast(edges, path, total, span, reason, r);
    }
  }

  // What the last edge of the path adds.
  lemma {:induction false} BlameLast(edges: seq<Edge>, path: seq<nat>, total: nat, span: nat, reason: Reason, r: Reason)
    requires span > 0 && path != [] && forall i :: 0 <= i < |path| ==> path[i] < |edges|
    ensures var front := path[..|path| - 1];
            TotalBlame(Blame(edges, path, total, span, reason), r) ==
            TotalBlame(Blame(edges, front, total, span, reason), r)
              + if r == reason then Share(total, Durations(edges, path), span)
                  - Share(total, Durations(edges, front), span) else 0.0
  {
    var (k, front) := (path[|path| - 1], path[..|path| - 1]);
    BlameEnd(edges, path, total, span, reason, r);
    ShareRest(total, Durations(edges, front), edges[k].duration, span);
    DurationsEnd(edges, path);
  }

  lemma {:induction false} DurationsEnd(edges: seq<Edge>, path: seq<nat>)
    requires path != [] && forall i :: 0 <= i < |path| ==> path[i] < |edges|
    ensures Durations(edges, path) == Durations(edges, path[..|path| - 1]) + edges[path[|path| - 1]].duration
  {
  }

  lemma {:induction false} BlameEnd(edges: seq<Edge>, path: seq<nat>, total: nat, span: nat, reason: Reason, r: Reason)
    requires span > 0 && path != [] && forall i :: 0 <= i < |path| ==> path[i] < |edges|
    ensures TotalBlame(Blame(edges, path, total, span, reason), r) ==
            TotalBlame(Blame(edges, path[..|path| - 1], total, span, reason), r)
              + if r == reason then Share(total, edges[path[|path| - 1]].duration, span) else 0.0
  {
    var (k, front) := (path[|path| - 1], path[..|path| - 1]);
    BlameOne(Blame(edges, front, total, span, reason), k, Share(total, edges[k].duration, span), reason, r);
  }

  lemma {:induction false} ShareRest(total: nat, a: nat, b: nat, span: nat)
    requires span > 0
    ensures Share(total, a + b, span) - Share(total, a, span) == Share(total, b, span)
  {
    ShareAdds(total, a, b, span);
  }

  lemma {:induction false} BlameOne(edges: seq<Edge>, k: nat, share: real, reason: Reason, r: Reason)
    requires k < |edges|
    ensures TotalBlame(edges[k := AddBlame(edges[k], reason, share)], r) == TotalBlame(edges, r)
            + if r == reason then share else 0.0
  {
    TotalUpdate(edges, k, AddBlame(edges[k], reason, share), r);
  }

  lemma {:induction false} BlameAt(edges: seq<Edge>, path: seq<nat>, total: nat, span: nat, reason: Reason, k: nat)
    requires span > 0 && k < |edges| && forall i :: 0 <= i < |path| ==> path[i] < |edges|
    requires forall i, j :: 0 <= i < j < |path| ==> path[i] != path[j]
    ensures Blame(edges, path, total, span, reason)[k] ==
            if k in path then AddBlame(edges[k], reason, Share(total, edges[k].duration, span)) else edges[k]
  {
    if path != [] {
      var n := |path| - 1;
      assert path == path[..n] + [path[n]];
      BlameAt(edges, path[..n], total, span, reason, k);
    }
  }

  // Edges over the kernels of the walk.
  function PathEdges(dev: Device, edges: seq<Edge>, leave: nat): (p: seq<nat>)
    requires WellLinked(dev, edges, leave)
    ensures forall i :: 0 <= i < |p| ==> p[i] < |edges|
    decreases Time(dev, dev.enterOf[leave])
  {
    var from := Source(dev, edges, leave);
    [KernelEdge(dev, edges, leave)] + if from in dev.launches then [] else PathEdges(dev, edges, from)
  }

  lemma {:induction false} PathEdgesAt(dev: Device, edges: seq<Edge>, leave: nat)
    requires WellLinked(dev, edges, leave)
    ensures var p := Path(dev, edges, leave); var e := PathEdges(dev, edges, leave);
            |e| == |p| && forall i :: 0 <= i < |p| ==>
                IsKernel(dev, edges, p[i]) && e[i] == KernelEdge(dev, edges, p[i])
    decreases Time(dev, dev.enterOf[leave])
  {
    assert Leads(dev, edges, dev.enterOf[leave]);
    var from := Source(dev, edges, leave);
    if from !in dev.launches { PathEdgesAt(dev, edges, from); }
  }

  /** The blame goes to the kernels on the path in full, to each its share by run time and once,
      and to no other edge. */
  lemma {:induction false} BlameFullySpread(dev: Device, edges: seq<Edge>, leave: nat, total: nat, reason: Reason)
    requires WellLinked(dev, edges, leave) && Durations(edges, PathEdges(dev, edges, leave)) > 0
    ensures var p := PathEdges(dev, edges, leave); var span := Durations(edges, p);
            var after := Blame(edges, p, total, span, reason);
            && (forall r :: TotalBlame(after, r) == TotalBlame(edges, r) + if r == reason then total as real else 0.0)
            && (forall k :: 0 <= k < |edges| ==>
                  after[k] == (if k in p then AddBlame(edges[k], reason, Share(total, edges[k].duration, span))
                      else edges[k]))
  {
    var p := PathEdges(dev, edges, leave); var span := Durations(edges, p);
    forall r ensures TotalBlame(Blame(edges, p, total, span, reason), r) == TotalBlame(edges, r)
        + if r == reason then total as real else 0.0 {
      BlameTotal(edges, p, total, span, reason, r);
      ShareAdds(total, 0, 0, span);
    }
    PathEdgesDistinct(dev, edges, leave);
    forall k | 0 <= k < |edges|
      ensures Blame(edges, p, total, span, reason)[k] ==
              if k in p then AddBlame(edges[k], reason, Share(total, edges[k].duration, span)) else edges[k]
    {
      BlameAt(edges, p, total, span, reason, k);
    }
  }

  lemma {:induction false} PathEdgesDistinct(dev: Device, edges: seq<Edge>, leave: nat)
    requires WellLinked(dev, edges, leave)
    ensures var p := PathEdges(dev, edges, leave); forall i, j :: 0 <= i < j < |p| ==> p[i] != p[j]
  {
    PathGoesBack(dev, edges, leave);
    PathEdgesAt(dev, edges, leave);
    var p := Path(dev, edges, leave);
    forall i, j | 0 <= i < j < |p| ensures KernelEdge(dev, edges, p[i]) != KernelEdge(dev, edges, p[j]) {
      assert edges[KernelEdge(dev, edges, p[i])].start == dev.enterOf[p[i]];
    }
  }

  // With the edges collected before the kernel of `leave` the whole walk has edges `all` and ends
  // at the launch.
  ghost predicate OnPath(dev: Device, edges: seq<Edge>, leave: nat, collected: seq<nat>, time: nat, all: seq<nat>,
                         launch: nat) {
    && WellLinked(dev, edges, leave)
    && collected + PathEdges(dev, edges, leave) == all && Launch(dev, edges, leave) == launch
    && (forall i :: 0 <= i < |collected| ==> collected[i] < |edges|) && time == Durations(edges, collected)
  }

  lemma {:induction false} OnPathStep(dev: Device, edges: seq<Edge>, leave: nat, collected: seq<nat>, time: nat,
                                      all: seq<nat>, launch: nat)
    requires OnPath(dev, edges, leave, collected, time, all, launch)
    ensures ShortestInEdge(edges, dev.enterOf[leave], |edges|).Some?
    ensures var k := KernelEdge(dev, edges, leave); var from := Source(dev, edges, leave);
            && (from !in dev.launches ==>
                 from in dev.enterOf && Time(dev, dev.enterOf[from]) < Time(dev, dev.enterOf[leave]))
            && var (next, spent) := (collected + [k], time + edges[k].duration);
            if from in dev.launches then next == all && spent == Durations(edges, next) && from == launch
            else OnPath(dev, edges, from, next, spent, all, launch)
  {
    assert Leads(dev, edges, dev.enterOf[leave]);
    var k := KernelEdge(dev, edges, leave); var from := Source(dev, edges, leave);
    var rest := if from in dev.launches then [] else PathEdges(dev, edges, from);
    assert PathEdges(dev, edges, leave) == [k] + rest;
    DurationsGrow(edges, collected, k, rest);
  }

  lemma {:induction false} DurationsGrow(edges: seq<Edge>, collected: seq<nat>, k: nat, rest: seq<nat>)
    requires k < |edges| && forall i :: 0 <= i < |collected| ==> collected[i] < |edges|
    ensures Durations(edges, collected + [k]) == Durations(edges, collected) + edges[k].duration
    ensures collected + ([k] + rest) == collected + [k] + rest
    ensures (rest == [] ==> collected + ([k] + rest) == collected + [k])
  {
    assert (collected + [k])[..|collected|] == collected;
  }

  // ----- In place -----

  method GetShortestInEdge(edges: seq<Edge>, node: nat) returns (shortest: Option<nat>)
    ensures shortest == ShortestInEdge(edges, node, |edges|)
  {
    shortest := None;
    for i := 0 to |edges|
      invariant shortest == ShortestInEdge(edges, node, i)
    {
      if edges[i].end == node && (shortest.None? || edges[i].duration < edges[shortest.value].duration) {
        shortest := Some(i);
      }
    }
  }

  method CollectPath(dev: Device, edges: seq<Edge>, kernelLeave: nat)
    returns (pathStart: nat, edges2Blame: seq<nat>, totalTimeToBlame: nat)
    requires WellLinked(dev, edges, kernelLeave)
    ensures pathStart == Time(dev, Launch(dev, edges, kernelLeave))
    ensures edges2Blame == PathEdges(dev, edges, kernelLeave)
    ensures totalTimeToBlame == Durations(edges, edges2Blame)
  {
    var leaveNode := kernelLeave;
    ghost var all, launch := PathEdges(dev, edges, kernelLeave), Launch(dev, edges, kernelLeave);
    edges2Blame, totalTimeToBlame := [], 0;
    while true
      invariant OnPath(dev, edges, leaveNode, edges2Blame, totalTimeToBlame, all, launch)
      decreases Time(dev, dev.enterOf[leaveNode])
    {
      OnPathStep(dev, edges, leaveNode, edges2Blame, totalTimeToBlame, all, launch);
      var kernelEnter := dev.enterOf[leaveNode];
      var k := FindEdge(edges, kernelEnter, leaveNode);
      edges2Blame, totalTimeToBlame := edges2Blame + [k], totalTimeToBlame + edges[k].duration;
      var shortest := GetShortestInEdge(edges, kernelEnter);
      var from := edges[shortest.value].start;
      assert from == Source(dev, edges, leaveNode);
      if from in dev.launches {
        return Time(dev, from), edges2Blame, totalTimeToBlame;
      }
      leaveNode := from;
    }
  }

  class KernelBlame {
    const dev: Device
    var edges: seq<Edge>

    constructor (dev: Device, edges: seq<Edge>)
      ensures this.dev == dev && this.edges == edges
    {
      this.dev, this.edges := dev, edges;
    }

    /** Returns the time of the launch. Without any run time to share by, the division has no
        result. */
    method BlameShortestPath(kernelLeave: nat, totalBlame: nat, reason: Reason) returns (pathStart: nat, ok: bool)
      requires WellLinked(dev, edges, kernelLeave)
      modifies this
      ensures pathStart == Time(dev, Launch(dev, old(edges), kernelLeave))
      ensures ok <==> Durations(old(edges), PathEdges(dev, old(edges), kernelLeave)) > 0
      ensures !ok ==> edges == old(edges)
      ensures ok ==> var p := PathEdges(dev, old(edges), kernelLeave);
                     edges == Blame(old(edges), p, totalBlame, Durations(old(edges), p), reason)
    {
      var edges2Blame, totalTimeToBlame;
      pathStart, edges2Blame, totalTimeToBlame := CollectPath(dev, edges, kernelLeave);
      ok := totalTimeToBlame > 0;
      if ok { ChargeAll(edges2Blame, totalBlame, totalTimeToBlame, reason); }
    }

    method ChargeAll(edges2Blame: seq<nat>, totalBlame: nat, totalTimeToBlame: nat, reason: Reason)
      requires totalTimeToBlame > 0 && forall i :: 0 <= i < |edges2Blame| ==> edges2Blame[i] < |edges|
      modifies this
      ensures edges == Blame(old(edges), edges2Blame, totalBlame, totalTimeToBlame, reason)
    {
      for i := 0 to |edges2Blame|
        invariant edges == Blame(old(edges), edges2Blame[..i], totalBlame, totalTimeToBlame, reason)
      {
        assert edges2Blame[..i + 1][..i] == edges2Blame[..i];
        var k := edges2Blame[i];
        edges := edges[k := AddBlame(edges[k], reason, Share(totalBlame, edges[k].duration, totalTimeToBlame))];
      }
      assert edges2Blame[..|edges2Blame|] == edges2Blame;
    }
  }
}
