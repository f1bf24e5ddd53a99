/**
 What each wait-state rule leaves behind on its process, said in terms of times, edges and nodes:
 which edges are marked as blocking, which remote node is remembered, what is booked, and which
 walk is charged.
 */
module WaitOutcomes {
  import opened Common
  import opened NodeOrder
  import opened StreamBlame
  import opened WaitRules

  // The first edge from the enter to the leave of the region, if there is one.
  predicate IsEdgeOf(edges: seq<Edge>, r: Region, k: nat) { IsFirst(edges, r.enter.id, r.leave.id, k) }

  // That edge is blocking now; nothing else changed.
  ghost predicate MarkedOnly(before: seq<Edge>, after: seq<Edge>, r: Region) {
    && |after| == |before|
    && forall k: nat :: k < |before| ==>
         after[k] == if IsEdgeOf(before, r, k) then before[k].(blocking := true) else before[k]
  }

  lemma {:induction false} MakeBlockingMarks(edges: seq<Edge>, r: Region)
    ensures MarkedOnly(edges, MakeBlocking(edges, r.enter.id, r.leave.id), r)
    ensures FindEdge(edges, r.enter.id, r.leave.id) < |edges| <==> exists k: nat :: IsEdgeOf(edges, r, k)
  {
    var f := FindEdge(edges, r.enter.id, r.leave.id);
    assert f < |edges| ==> IsEdgeOf(edges, r, f);
    forall k: nat | IsEdgeOf(edges, r, k) ensures k == f { FindUnique(edges, r.enter.id, r.leave.id, k); }
  }

  // The region waited: `time` is booked under the reason and on its leave, its edge is blocking
  // and, if it has one, the releasing node is remembered.
  ghost predicate Waited(p: Process, p': Process, r: Region, reason: Reason, time: nat, releasedBy: RemoteNode) {
    && p'.streams == p.streams
    && MarkedOnly(p.edges, p'.edges, r)
    && p'.remote == (if exists k: nat :: IsEdgeOf(p.edges, r, k) then p.remote[r.leave.id := releasedBy] else p.remote)
    && p'.waiting == p.waiting[r.leave.id := time]
    && forall x :: StatOf(p', x) == StatOf(p, x) + if x == reason then time else 0
  }

  lemma {:induction false} WaitsWaited(p: Process, reason: Reason, r: Region, time: nat, releasedBy: RemoteNode)
    ensures Waited(p, Waits(p, reason, r, time, releasedBy), r, reason, time, releasedBy)
  {
    MakeBlockingMarks(p.edges, r);
  }

  // The edges before the node, back to position `to` of its stream, are charged; or the rule
  // fails because there is no time between.
  ghost predicate Charged(p: Process, o: Result, n: Node, to: nat, total: nat, reason: Reason)
    requires OnStream(p, n) && to <= IndexOf(p.streams[n.stream], n)
  {
    var nodes := p.streams[n.stream]; var from := IndexOf(nodes, n);
    if total > 0 && nodes[to].time >= n.time then o == Failed
    else
      && o.Done? && o.process == p.(edges := o.process.edges)
      && if total == 0 then o.process.edges == p.edges
         else Shared(nodes, p.edges, o.process.edges, to, from, total, reason)
  }

  // The same for the last place where an MPI walk from the node ends.
  ghost predicate MpiCharged(p: Process, o: Result, n: Node, total: nat, reason: Reason)
    requires OnStream(p, n)
  {
    exists to :: LastMpiEnd(p.streams[n.stream], IndexOf(p.streams[n.stream], n), to)
                 && Charged(p, o, n, to, total, reason)
  }

  lemma {:induction false} IsBlamedCharges(p: Process, n: Node, total: nat, rule: WalkRule, reason: Reason)
    requires OnStream(p, n) && Chain(p.streams[n.stream], p.edges)
    ensures var nodes := p.streams[n.stream]; var from := IndexOf(nodes, n);
            Charged(p, IsBlamed(p, n, total, rule, reason), n, WalkEnd(rule, nodes, from, from), total, reason)
  {
    var nodes := p.streams[n.stream]; var from := IndexOf(nodes, n);
    DistributeCharges(nodes, p.edges, from, total, rule, reason);
  }

  lemma {:induction false} BlamedMpi(p: Process, n: Node, total: nat, reason: Reason, o: Result)
    requires OnStream(p, n) && Chain(p.streams[n.stream], p.edges) && o == IsBlamed(p, n, total, MpiWalk, reason)
    ensures MpiCharged(p, o, n, total, reason)
  {
    var nodes := p.streams[n.stream]; var from := IndexOf(nodes, n);
    var to := WalkEnd(MpiWalk, nodes, from, from);
    assert forall q :: to <= q <= from ==> (Stops(MpiWalk, nodes, from, q) <==> EndsMpiWalk(nodes[q]));
    IsBlamedCharges(p, n, total, MpiWalk, reason);
  }

  // Charging changes no flag.
  lemma {:induction false} ChargedKeepsFlags(p: Process, o: Result, n: Node, to: nat, total: nat, reason: Reason)
    requires OnStream(p, n) && to <= IndexOf(p.streams[n.stream], n) && Chain(p.streams[n.stream], p.edges)
    requires Charged(p, o, n, to, total, reason) && o.Done?
    ensures |o.process.edges| == |p.edges|
    ensures forall k :: 0 <= k < |p.edges| ==> o.process.edges[k] == p.edges[k].(blame := o.process.edges[k].blame)
  {
    var nodes := p.streams[n.stream]; var from := IndexOf(nodes, n);
    if total > 0 {
      forall k: nat | k < |p.edges| ensures o.process.edges[k] == p.edges[k].(blame := o.process.edges[k].blame) {
        SharedKeeps(nodes, p.edges, o.process.edges, to, from, total, reason, k);
      }
    }
  }

  lemma {:induction false} SharedKeeps(nodes: seq<Node>, before: seq<Edge>, after: seq<Edge>, to: nat, from: nat,
                                       total: nat, reason: Reason, k: nat)
    requires to <= from < |nodes| && nodes[to].time < nodes[from].time && Chain(nodes, before)
    requires Shared(nodes, before, after, to, from, total, reason) && k < |before|
    ensures after[k] == before[k].(blame := after[k].blame)
  {
    if i :| to < i <= from && LeadsInto(nodes, before, i, k) {
      assert GotBlame(before[k], after[k], reason,
                      Share(total, nodes[i].time - nodes[i - 1].time, nodes[from].time - nodes[to].time));
    }
  }

  // ----- Collectives -----

  // Entry `i` entered last, as the first of those.
  predicate LastToEnter(buffer: seq<Entry>, i: nat) {
    && i < |buffer|
    && forall j :: 0 <= j < |buffer| ==>
         buffer[j].enterTime <= buffer[i].enterTime && (j < i ==> buffer[j].enterTime < buffer[i].enterTime)
  }

  /** Members on other streams than the last one to enter have waited for it; the last one is
      charged with the waiting of all. */
  lemma {:induction false} CollectiveOutcome(p: Process, r: Region, buffer: seq<Entry>, i: nat)
    requires OnStream(p, r.enter) && Chain(p.streams[r.enter.stream], p.edges) && EntryOf(r) in buffer
    requires LastToEnter(buffer, i) && buffer[i].enterTime > 0
    ensures r.enter.time <= buffer[i].enterTime
    ensures var o := CollectiveRule(p, r, buffer); var last := buffer[i];
            if r.leave.stream != last.stream then
              && o.Done?
              && Waited(p, o.process, r, MpiCollective, last.enterTime - r.enter.time,
                        RemoteNode(last.enterId, last.stream))
            else
              && Lateness(buffer, last.enterTime) >= 0
              && MpiCharged(p, o, r.enter, Lateness(buffer, last.enterTime), MpiCollective)
  {
    ElectedIsLatest(buffer);
    var j: nat :| FirstLatest(buffer, j);
    assert i == j;
    var last := buffer[i];
    var e :| 0 <= e < |buffer| && buffer[e] == EntryOf(r);
    if r.leave.stream != last.stream {
      WaitsWaited(p, MpiCollective, r, last.enterTime - r.enter.time, RemoteNode(last.enterId, last.stream));
    } else {
      LatenessNonNegative(buffer, last.enterTime);
      BlamedMpi(p, r.enter, CollectiveBlame(buffer), MpiCollective, CollectiveRule(p, r, buffer));
    }
  }

  /** If all enter at time zero, stream zero and node zero stand for the last one to enter. */
  lemma {:induction false} CollectiveAtZero(p: Process, r: Region, buffer: seq<Entry>)
    requires OnStream(p, r.enter) && Chain(p.streams[r.enter.stream], p.edges) && EntryOf(r) in buffer
    requires forall j :: 0 <= j < |buffer| ==> buffer[j].enterTime == 0
    ensures var o := CollectiveRule(p, r, buffer);
            if r.leave.stream != 0 then o.Done? && Waited(p, o.process, r, MpiCollective, 0, RemoteNode(0, 0))
            else o == Done(p)
  {
    ElectedIsLatest(buffer);
    assert Elect(buffer).time == 0 by {
      if j: nat :| FirstLatest(buffer, j) { assert buffer[j].enterTime == 0; }
    }
    AllAtZero(buffer);
    WaitsWaited(p, MpiCollective, r, 0, RemoteNode(0, 0));
  }

  // The edge over the region is blocking after the rule, if it was or the member was not elected.
  lemma {:induction false} CollectiveFlag(p: Process, r: Region, buffer: seq<Entry>, k: nat)
    requires OnStream(p, r.enter) && Chain(p.streams[r.enter.stream], p.edges) && EntryOf(r) in buffer
    requires IsEdgeOf(p.edges, r, k) && CollectiveRule(p, r, buffer).Done?
    ensures var after := CollectiveRule(p, r, buffer).process.edges;
            && |after| == |p.edges| && (forall j: nat :: IsEdgeOf(after, r, j) <==> j == k)
            && (after[k].blocking <==> p.edges[k].blocking || !IsElected(buffer, r))
  {
    var o := CollectiveRule(p, r, buffer);
    ElectedIsLatest(buffer);
    if IsElected(buffer, r) {
      var nodes := p.streams[r.enter.stream]; var from := IndexOf(nodes, r.enter);
      IsBlamedCharges(p, r.enter, CollectiveBlame(buffer), MpiWalk, MpiCollective);
      ChargedKeepsFlags(p, o, r.enter, WalkEnd(MpiWalk, nodes, from, from), CollectiveBlame(buffer), MpiCollective);
    } else {
      MakeBlockingMarks(p.edges, r);
    }
    SameEdge(p.edges, o.process.edges, r, k);
  }

  lemma {:induction false} SameEdge(before: seq<Edge>, after: seq<Edge>, r: Region, k: nat)
    requires |before| == |after| && IsEdgeOf(before, r, k)
    requires forall j :: 0 <= j < |before| ==> after[j].start == before[j].start && after[j].end == before[j].end
    ensures forall j: nat :: IsEdgeOf(after, r, j) <==> j == k
  {
    forall j: nat ensures IsEdgeOf(after, r, j) <==> IsEdgeOf(before, r, j) {
      if j < |before| { SameFirstEdge(before, after, r, j); }
    }
  }

  lemma {:induction false} AllAtZero(buffer: seq<Entry>)
    requires forall j :: 0 <= j < |buffer| ==> buffer[j].enterTime == 0
    ensures Lateness(buffer, 0) == 0
  {
    if buffer != [] { AllAtZero(buffer[..|buffer| - 1]); }
  }

  // ----- Point-to-point communication -----

  /** A receive waits for its send's enter exactly if it was entered before. */
  lemma {:induction false} RecvWaits(p: Process, recv: Region, send: Region)
    requires OnStream(p, recv.enter) && Chain(p.streams[recv.enter.stream], p.edges)
    requires recv.enter.time < send.enter.time
    ensures var o := RecvRule(p, recv, send);
            && o.Done?
            && Waited(p, o.process, recv, MpiLateSender, send.enter.time - recv.enter.time,
                      RemoteNode(send.enter.id, send.enter.stream))
  {
    WaitsWaited(p, MpiLateSender, recv, send.enter.time - recv.enter.time,
                RemoteNode(send.enter.id, send.enter.stream));
  }

  /** One entered while the send lasts is charged with the sender's waiting. */
  lemma {:induction false} RecvBlamed(p: Process, recv: Region, send: Region)
    requires OnStream(p, recv.enter) && Chain(p.streams[recv.enter.stream], p.edges)
    requires send.enter.time < recv.enter.time < send.leave.time
    ensures MpiCharged(p, RecvRule(p, recv, send), recv.enter, recv.enter.time - send.enter.time, MpiLateReceiver)
  {
    BlamedMpi(p, recv.enter, recv.enter.time - send.enter.time, MpiLateReceiver, RecvRule(p, recv, send));
  }

  /** A send that lasts beyond the enter of its receive waits for the receive, and remembers the
      receive's leave. */
  lemma {:induction false} SendWaits(p: Process, send: Region, recv: Region)
    requires OnStream(p, send.enter) && Chain(p.streams[send.enter.stream], p.edges)
    requires send.enter.time < recv.enter.time < send.leave.time
    ensures var o := SendRule(p, send, recv);
            && o.Done?
            && Waited(p, o.process, send, MpiLateReceiver, recv.enter.time - send.enter.time,
                      RemoteNode(recv.leave.id, recv.leave.stream))
  {
    WaitsWaited(p, MpiLateReceiver, send, recv.enter.time - send.enter.time,
                RemoteNode(recv.leave.id, recv.leave.stream));
  }

  /** One entered while the receive lasts is charged with the receiver's waiting. */
  lemma {:induction false} SendBlamed(p: Process, send: Region, recv: Region)
    requires OnStream(p, send.enter) && Chain(p.streams[send.enter.stream], p.edges)
    requires recv.enter.time < send.enter.time < recv.leave.time
    ensures MpiCharged(p, SendRule(p, send, recv), send.enter, send.enter.time - recv.enter.time, MpiLateSender)
  {
    BlamedMpi(p, send.enter, send.enter.time - recv.enter.time, MpiLateSender, SendRule(p, send, recv));
  }

  // The region was entered while the other lasted.
  predicate EnteredDuring(r: Region, other: Region) { other.enter.time < r.enter.time < other.leave.time }

  /** In all other cases the rules leave the process alone. */
  lemma {:induction false} RecvSilent(p: Process, recv: Region, send: Region)
    requires OnStream(p, recv.enter) && Chain(p.streams[recv.enter.stream], p.edges)
    requires send.enter.time <= recv.enter.time && !EnteredDuring(recv, send)
    ensures RecvRule(p, recv, send) == Done(p)
  {
  }

  lemma {:induction false} SendSilent(p: Process, send: Region, recv: Region)
    requires OnStream(p, send.enter) && Chain(p.streams[send.enter.stream], p.edges)
    requires !EnteredDuring(recv, send) && !EnteredDuring(send, recv)
    ensures SendRule(p, send, recv) == Done(p)
  {
  }

  // ----- OpenMP barriers -----

  // Region `i` waited at the barrier.
  predicate WaitsAt(regions: seq<Region>, i: nat, latest: Node) { i < |regions| && regions[i].enter != latest }

  // Old edges only become blocking, namely those over the regions that waited.
  ghost predicate OldEdges(before: seq<Edge>, after: seq<Edge>, regions: seq<Region>, latest: Node) {
    && |before| <= |after|
    && forall k: nat :: k < |before| ==>
         after[k] == before[k].(blocking := before[k].blocking || Waiting(before, regions, latest, k))
  }

  ghost predicate Waiting(edges: seq<Edge>, regions: seq<Region>, latest: Node, k: nat) {
    exists i: nat :: WaitsAt(regions, i, latest) && IsEdgeOf(edges, regions[i], k)
  }

  // The region has a blocking edge, and the latest enter leads to its leave. If no other region has
  // that enter, the latter edge is not blocking.
  ghost predicate LinkedToLatest(edges: seq<Edge>, r: Region, latest: Node, apart: bool) {
    && (exists k: nat :: k < |edges| && HasEnds(edges[k], r.enter, r.leave) && edges[k].blocking)
    && (exists k: nat :: k < |edges| && FromLatest(edges[k], r, latest, apart))
  }

  predicate HasEnds(e: Edge, a: Node, b: Node) { e.start == a.id && e.end == b.id }

  predicate FromLatest(e: Edge, r: Region, latest: Node, apart: bool) {
    && HasEnds(e, latest, r.leave) && (apart ==> !e.blocking)
    && (latest.time <= r.leave.time ==> e.duration == r.leave.time - latest.time)
  }

  // No region that waited has the ID of the latest enter.
  predicate Apart(regions: seq<Region>, latest: Node) {
    forall i :: 0 <= i < |regions| && regions[i].enter != latest ==> regions[i].enter.id != latest.id
  }

  // One region more: its edge is marked or made, and the edge from the latest enter comes last.
  lemma {:induction false} BarrierEdgesShape(edges: seq<Edge>, r: Region, latest: Node)
    ensures var after := BarrierEdges(edges, r, latest); var n := |after| - 1;
            && |edges| <= n
            && (forall k: nat :: k < |edges| ==>
                  after[k] == if IsEdgeOf(edges, r, k) then edges[k].(blocking := true) else edges[k])
            && (exists k: nat :: k < n && HasEnds(after[k], r.enter, r.leave) && after[k].blocking)
            && FromLatest(after[n], r, latest, true)
  {
    MakeBlockingMarks(edges, r);
    var after := BarrierEdges(edges, r, latest);
    if k: nat :| IsEdgeOf(edges, r, k) {
      assert HasEnds(after[k], r.enter, r.leave) && after[k].blocking;
    } else {
      assert HasEnds(after[|edges|], r.enter, r.leave) && after[|edges|].blocking;
    }
    assert FromLatest(after[|after| - 1], r, latest, true);
  }

  lemma {:induction false} SameFirstEdge(before: seq<Edge>, edges: seq<Edge>, r: Region, k: nat)
    requires k < |before| <= |edges|
    requires forall j :: 0 <= j < |before| ==> edges[j].start == before[j].start && edges[j].end == before[j].end
    ensures IsEdgeOf(edges, r, k) <==> IsEdgeOf(before, r, k)
  {
  }

  lemma {:induction false} BarrierMarks(p: Process, regions: seq<Region>, latest: Node)
    requires forall i :: 0 <= i < |regions| ==> regions[i].enter.time <= latest.time
    ensures OldEdges(p.edges, BarrierWaits(p, regions, latest).edges, regions, latest)
  {
    if regions == [] {
      assert forall k: nat :: !Waiting(p.edges, regions, latest, k);
    } else {
      var n := |regions| - 1; var r := regions[n];
      var b := BarrierWaits(p, regions[..n], latest);
      BarrierMarks(p, regions[..n], latest);
      forall k: nat ensures Waiting(p.edges, regions, latest, k) <==>
          Waiting(p.edges, regions[..n], latest, k) || (r.enter != latest && IsEdgeOf(p.edges, r, k)) {
        OneMoreWaits(p.edges, regions, latest, k);
      }
      BarrierEdgesShape(b.edges, r, latest);
      forall k: nat | k < |p.edges| ensures IsEdgeOf(b.edges, r, k) <==> IsEdgeOf(p.edges, r, k) {
        SameFirstEdge(p.edges, b.edges, r, k);
      }
    }
  }

  lemma {:induction false} OneMoreWaits(edges: seq<Edge>, regions: seq<Region>, latest: Node, k: nat)
    requires regions != []
    ensures var n := |regions| - 1;
            Waiting(edges, regions, latest, k) <==>
            Waiting(edges, regions[..n], latest, k) || (WaitsAt(regions, n, latest) && IsEdgeOf(edges, regions[n], k))
  {
    var n := |regions| - 1;
    if i: nat :| WaitsAt(regions[..n], i, latest) && IsEdgeOf(edges, regions[..n][i], k) {
      assert WaitsAt(regions, i, latest) && IsEdgeOf(edges, regions[i], k);
    }
    if i: nat :| WaitsAt(regions, i, latest) && IsEdgeOf(edges, regions[i], k) && i < n {
      assert WaitsAt(regions[..n], i, latest) && IsEdgeOf(edges, regions[..n][i], k);
    }
  }

  lemma {:induction false} BarrierLinks(p: Process, regions: seq<Region>, latest: Node, i: nat)
    requires forall j :: 0 <= j < |regions| ==> regions[j].enter.time <= latest.time
    requires WaitsAt(regions, i, latest)
    ensures LinkedToLatest(BarrierWaits(p, regions, latest).edges, regions[i], latest, Apart(regions, latest))
  {
    var n := |regions| - 1;
    var b := BarrierWaits(p, regions[..n], latest);
    if i == n {
      BarrierEdgesShape(b.edges, regions[n], latest);
    } else {
      BarrierLinks(p, regions[..n], latest, i);
      assert Apart(regions, latest) ==> Apart(regions[..n], latest);
      if regions[n].enter != latest {
        NextRegionKeepsLinks(b.edges, regions[n], regions[i], latest, Apart(regions[..n], latest),
                             Apart(regions, latest));
      } else {
        LinksStay(b.edges, b.edges, regions[i], latest, Apart(regions[..n], latest), Apart(regions, latest));
      }
    }
  }

  lemma {:induction false} NextRegionKeepsLinks(edges: seq<Edge>, next: Region, r: Region, latest: Node, was: bool,
                                                apart: bool)
    requires LinkedToLatest(edges, r, latest, was) && (apart ==> was && next.enter.id != latest.id)
    ensures LinkedToLatest(BarrierEdges(edges, next, latest), r, latest, apart)
  {
    BarrierEdgesShape(edges, next, latest);
    LinksStay(edges, BarrierEdges(edges, next, latest), r, latest, was, apart);
  }

  // Marking edges that do not come from the latest enter.
  lemma {:induction false} LinksStay(edges: seq<Edge>, after: seq<Edge>, r: Region, latest: Node, was: bool,
                                     apart: bool)
    requires LinkedToLatest(edges, r, latest, was) && |edges| <= |after| && (apart ==> was)
    requires forall k: nat :: k < |edges| ==>
               || after[k] == edges[k]
               || (after[k] == edges[k].(blocking := true) && (apart ==> edges[k].start != latest.id))
    ensures LinkedToLatest(after, r, latest, apart)
  {
    var j: nat :| j < |edges| && HasEnds(edges[j], r.enter, r.leave) && edges[j].blocking;
    assert HasEnds(after[j], r.enter, r.leave);
    var k: nat :| k < |edges| && FromLatest(edges[k], r, latest, was);
    assert FromLatest(after[k], r, latest, apart);
  }

  // Each region that waited has its time on its leave.
  lemma {:induction false} BarrierTimes(p: Process, regions: seq<Region>, latest: Node, i: nat)
    requires forall j :: 0 <= j < |regions| ==> regions[j].enter.time <= latest.time
    requires forall j, k :: 0 <= j < k < |regions| ==> regions[j].leave.id != regions[k].leave.id
    requires WaitsAt(regions, i, latest)
    ensures var w := BarrierWaits(p, regions, latest).waiting;
            regions[i].leave.id in w && w[regions[i].leave.id] == latest.time - regions[i].enter.time
  {
    var n := |regions| - 1;
    if i < n { BarrierTimes(p, regions[..n], latest, i); }
  }

  // The first of the regions that were entered latest.
  predicate LatestRegion(regions: seq<Region>, l: nat) {
    && l < |regions|
    && forall j :: 0 <= j < |regions| ==>
         regions[j].enter.time <= regions[l].enter.time && (j < l ==> regions[j].enter.time < regions[l].enter.time)
  }

  /** After a barrier, all regions but the one entered last have waited for its enter: they have a
      blocking edge, an edge from that enter to their leave, and their time. No other edge becomes
      blocking. */
  lemma {:induction false} BarrierOutcome(p: Process, regions: seq<Region>, rule: WalkRule, l: nat)
    requires LatestRegion(regions, l) && ProcessOk(p) && OnStream(p, regions[l].enter)
    requires forall j, k :: 0 <= j < k < |regions| ==> regions[j].leave.id != regions[k].leave.id
    ensures Latest(regions) == l
    ensures var o := BarrierRule(p, regions, rule); var latest := regions[l].enter;
            o.Done? ==>
              && OldFlags(p.edges, o.process.edges, regions, latest)
              && o.process.remote == p.remote
              && forall i: nat :: WaitsAt(regions, i, latest) ==>
                   && LinkedToLatest(o.process.edges, regions[i], latest, Apart(regions, latest))
                   && regions[i].leave.id in o.process.waiting
                   && o.process.waiting[regions[i].leave.id] == latest.time - regions[i].enter.time
  {
    var latest := regions[l].enter;
    assert Latest(regions) == l;
    var w := BarrierWaits(p, regions, latest);
    BarrierWaitsChain(p, regions, latest);
    BarrierRemote(p, regions, latest);
    BarrierMarks(p, regions, latest);
    var o := BarrierRule(p, regions, rule);
    if o.Done? {
      BarrierKeepsFlags(w, latest, BarrierBlame(regions, latest), rule);
      forall i: nat | WaitsAt(regions, i, latest)
        ensures LinkedToLatest(o.process.edges, regions[i], latest, Apart(regions, latest))
        ensures regions[i].leave.id in w.waiting
        ensures w.waiting[regions[i].leave.id] == latest.time - regions[i].enter.time
      {
        BarrierLinks(p, regions, latest, i);
        BlameKeepsLinks(w.edges, o.process.edges, regions[i], latest, Apart(regions, latest));
        BarrierTimes(p, regions, latest, i);
      }
    }
  }

  // The flags after the rule, which also changed the blame of some edges.
  ghost predicate OldFlags(before: seq<Edge>, after: seq<Edge>, regions: seq<Region>, latest: Node) {
    && |before| <= |after|
    && forall k: nat :: k < |before| ==>
         (after[k].blocking <==> before[k].blocking || Waiting(before, regions, latest, k))
  }

  lemma {:induction false} BarrierRemote(p: Process, regions: seq<Region>, latest: Node)
    requires forall j :: 0 <= j < |regions| ==> regions[j].enter.time <= latest.time
    ensures BarrierWaits(p, regions, latest).remote == p.remote
  {
    if regions != [] { BarrierRemote(p, regions[..|regions| - 1], latest); }
  }

  lemma {:induction false} BarrierKeepsFlags(w: Process, n: Node, total: nat, rule: WalkRule)
    requires OnStream(w, n) && Chain(w.streams[n.stream], w.edges) && IsBlamed(w, n, total, rule, OmpBarrier).Done?
    ensures var after := IsBlamed(w, n, total, rule, OmpBarrier).process;
            && after == w.(edges := after.edges) && |after.edges| == |w.edges|
            && forall k :: 0 <= k < |w.edges| ==> after.edges[k] == w.edges[k].(blame := after.edges[k].blame)
  {
    var nodes := w.streams[n.stream]; var from := IndexOf(nodes, n);
    IsBlamedCharges(w, n, total, rule, OmpBarrier);
    ChargedKeepsFlags(w, IsBlamed(w, n, total, rule, OmpBarrier), n, WalkEnd(rule, nodes, from, from), total,
                      OmpBarrier);
  }

  lemma {:induction false} BlameKeepsLinks(edges: seq<Edge>, after: seq<Edge>, r: Region, latest: Node, apart: bool)
    requires LinkedToLatest(edges, r, latest, apart) && |edges| == |after|
    requires forall k :: 0 <= k < |edges| ==> after[k] == edges[k].(blame := after[k].blame)
    ensures LinkedToLatest(after, r, latest, apart)
  {
    var j: nat :| j < |edges| && HasEnds(edges[j], r.enter, r.leave) && edges[j].blocking;
    assert HasEnds(after[j], r.enter, r.leave);
    var k: nat :| k < |edges| && FromLatest(edges[k], r, latest, apart);
    assert FromLatest(after[k], r, latest, apart);
  }
}
