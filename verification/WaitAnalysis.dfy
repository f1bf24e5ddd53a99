/**
 One process of the analysis with its edges, counters and statistics as fields that the rules
 update in place. WaitRules says what each rule does; WaitConservation what that adds up to.
 */
module WaitAnalysis {
  import opened Common
  import opened NodeOrder
  import opened StreamBlame
  import opened WaitRules

  method BlameStream(nodes: seq<Node>, edges: seq<Edge>, node: Node, totalBlame: nat, rule: WalkRule, reason: Reason)
    returns (outcome: Outcome)
    requires Sorted(nodes) && Chain(nodes, edges) && node in nodes
    ensures outcome == Distribute(nodes, edges, IndexOf(nodes, node), totalBlame, rule, reason)
  {
    if totalBlame == 0 { return NothingToBlame; }
    var walk := WalkBackward(nodes, node, rule);
    var from, to := walk[0], walk[|walk| - 1];
    IndexUnique(nodes, node, from);
    if |walk| < 2 { return SingleNode; }
    var totalWalkTime := nodes[from].time - nodes[to].time;
    if totalWalkTime == 0 { return NoDuration; }
    var charged := ChargeWalk(nodes, edges, walk, totalBlame, totalWalkTime, reason);
    return Blamed(charged);
  }

  /** The edges between consecutive nodes of the walk get their shares. */
  method ChargeWalk(nodes: seq<Node>, edges: seq<Edge>, walk: seq<nat>, totalBlame: nat, totalWalkTime: nat,
                    reason: Reason)
    returns (charged: seq<Edge>)
    requires |walk| > 0 && walk[0] < |nodes| && |walk| <= walk[0] + 1 && totalWalkTime > 0
    requires forall i :: 0 <= i < |walk| ==> walk[i] == walk[0] - i
    requires Chain(nodes, edges)
    ensures charged == Spread(nodes, edges, walk[0], walk[|walk| - 1], totalBlame, totalWalkTime, reason)
  {
    charged := edges;
    var lastWalkNode, to := walk[0], walk[|walk| - 1];
    ghost var goal := Spread(nodes, edges, walk[0], to, totalBlame, totalWalkTime, reason);
    for i := 1 to |walk|
      invariant lastWalkNode == walk[i - 1] && to <= lastWalkNode < |nodes|
      invariant Chain(nodes, charged)
      invariant Spread(nodes, charged, lastWalkNode, to, totalBlame, totalWalkTime, reason) == goal
    {
      assert walk[i] == lastWalkNode - 1;
      ghost var next := ChargeStep(nodes, charged, lastWalkNode, totalBlame, totalWalkTime, reason);
      var k := FindEdge(charged, nodes[walk[i]].id, nodes[lastWalkNode].id);
      charged := charged[k := AddBlame(charged[k], reason, Share(totalBlame, charged[k].duration, totalWalkTime))];
      assert charged == next;
      lastWalkNode := walk[i];
    }
  }

  method MarkBlocking(edges: seq<Edge>, region: Region) returns (found: bool, marked: seq<Edge>)
    ensures found == (FindEdge(edges, region.enter.id, region.leave.id) < |edges|)
    ensures marked == MakeBlocking(edges, region.enter.id, region.leave.id)
  {
    var k := FindEdge(edges, region.enter.id, region.leave.id);
    found := k < |edges|;
    marked := if found then edges[k := edges[k].(blocking := true)] else edges;
  }

  function AddStat(statistics: map<Reason, nat>, reason: Reason, time: nat): map<Reason, nat> {
    statistics[reason := (if reason in statistics then statistics[reason] else 0) + time]
  }

  method LastEnter(recvBuffer: seq<Entry>) returns (time: nat, remoteNodeId: nat, processId: nat)
    ensures Elected(time, remoteNodeId, processId) == Elect(recvBuffer)
  {
    time, remoteNodeId, processId := 0, 0, 0;
    for i := 0 to |recvBuffer|
      invariant Elected(time, remoteNodeId, processId) == Elect(recvBuffer[..i])
    {
      assert recvBuffer[..i + 1][..i] == recvBuffer[..i];
      var entry := recvBuffer[i];
      if entry.enterTime > time {
        time, remoteNodeId, processId := entry.enterTime, entry.enterId, entry.stream;
      }
    }
    assert recvBuffer[..|recvBuffer|] == recvBuffer;
  }

  method TotalBlameOf(recvBuffer: seq<Entry>, lastEnterTime: nat) returns (totalBlame: nat)
    requires forall i :: 0 <= i < |recvBuffer| ==> recvBuffer[i].enterTime <= lastEnterTime
    ensures totalBlame == Lateness(recvBuffer, lastEnterTime)
  {
    totalBlame := 0;
    for i := 0 to |recvBuffer|
      invariant totalBlame == Lateness(recvBuffer[..i], lastEnterTime)
    {
      assert recvBuffer[..i + 1][..i] == recvBuffer[..i];
      totalBlame := totalBlame + (lastEnterTime - recvBuffer[i].enterTime);
    }
    assert recvBuffer[..|recvBuffer|] == recvBuffer;
  }

  method LatestEnter(barrierList: seq<Region>) returns (latestEnter: nat)
    requires barrierList != []
    ensures latestEnter == Latest(barrierList)
  {
    latestEnter := 0;
    for i := 1 to |barrierList|
      invariant latestEnter == Latest(barrierList[..i])
    {
      assert barrierList[..i + 1][..i] == barrierList[..i];
      if barrierList[i].enter.time > barrierList[latestEnter].enter.time {
        latestEnter := i;
      }
    }
    assert barrierList[..|barrierList|] == barrierList;
  }

  lemma {:induction false} BarrierNext(p: Process, regions: seq<Region>, i: nat, latest: Node)
    requires i < |regions| && forall j :: 0 <= j < |regions| ==> regions[j].enter.time <= latest.time
    ensures BarrierWaits(p, regions[..i + 1], latest) ==
            BarrierWait(BarrierWaits(p, regions[..i], latest), regions[i], latest)
    ensures BarrierBlame(regions[..i + 1], latest) ==
            BarrierBlame(regions[..i], latest)
                + if regions[i].enter == latest then 0 else latest.time - regions[i].enter.time
  {
    assert regions[..i + 1][..i] == regions[..i];
  }

  class Analysis {
    var streams: map<nat, seq<Node>>
    var edges: seq<Edge>
    var waitingTime: map<nat, nat>
    var remoteNodes: map<nat, RemoteNode>
    var statistics: map<Reason, nat>

    ghost function View(): Process
      reads this
    {
      Process(streams, edges, waitingTime, remoteNodes, statistics)
    }

    ghost predicate Valid()
      reads this
    {
      ProcessOk(View())
    }

    constructor (nodes: map<nat, seq<Node>>, graph: seq<Edge>)
      requires ProcessOk(Process(nodes, graph, map[], map[], map[]))
      ensures Valid() && View() == Process(nodes, graph, map[], map[], map[])
    {
      streams, edges, waitingTime, remoteNodes, statistics := nodes, graph, map[], map[], map[];
    }

    /** Walks back from `node` and adds a share of the blame to every edge passed. The result is
        false where the source runs into its assertion or divides by zero. */
    method DistributeBlame(node: Node, totalBlame: nat, rule: WalkRule, reason: Reason) returns (ok: bool)
      requires Valid() && OnStream(View(), node)
      modifies this`edges
      ensures ok ==> IsBlamed(old(View()), node, totalBlame, rule, reason) == Done(View())
      ensures !ok ==> IsBlamed(old(View()), node, totalBlame, rule, reason).Failed?
    {
      var outcome := BlameStream(streams[node.stream], edges, node, totalBlame, rule, reason);
      ok := !outcome.SingleNode? && !outcome.NoDuration?;
      if outcome.Blamed? { edges := outcome.edges; }
    }

    method WaitAt(reason: Reason, region: Region, time: nat, releasedBy: RemoteNode)
      modifies this
      ensures View() == Waits(old(View()), reason, region, time, releasedBy)
    {
      var found, marked := MarkBlocking(edges, region);
      if found {
        edges, remoteNodes := marked, remoteNodes[region.leave.id := releasedBy];
      }
      statistics := AddStat(statistics, reason, time);
      waitingTime := waitingTime[region.leave.id := time];
    }

    /** Applied at the leave of a collective with the gathered entries of all processes. */
    method ApplyCollectiveRule(region: Region, recvBuffer: seq<Entry>) returns (ok: bool)
      requires Valid() && OnStream(View(), region.enter) && EntryOf(region) in recvBuffer
      modifies this
      ensures ok ==> CollectiveRule(old(View()), region, recvBuffer) == Done(View())
      ensures !ok ==> CollectiveRule(old(View()), region, recvBuffer).Failed?
    {
      var lastEnterTime, lastEnterRemoteNodeId, lastEnterProcessId := LastEnter(recvBuffer);
      ElectedIsLatest(recvBuffer);
      if lastEnterProcessId != region.leave.stream {
        WaitAt(MpiCollective, region, lastEnterTime - region.enter.time,
            RemoteNode(lastEnterRemoteNodeId, lastEnterProcessId));
        return true;
      }
      var totalBlame := TotalBlameOf(recvBuffer, lastEnterTime);
      ok := DistributeBlame(region.enter, totalBlame, MpiWalk, MpiCollective);
    }

    /** Applied at the leave of a receive, after the times of the send arrived. */
    method ApplyRecvRule(recv: Region, send: Region) returns (ok: bool)
      requires Valid() && OnStream(View(), recv.enter)
      modifies this
      ensures ok ==> RecvRule(old(View()), recv, send) == Done(View())
      ensures !ok ==> RecvRule(old(View()), recv, send).Failed?
    {
      var recvStartTime := recv.enter.time;
      if recvStartTime < send.enter.time {
        WaitAt(MpiLateSender, recv, send.enter.time - recvStartTime, RemoteNode(send.enter.id, send.enter.stream));
        ok := true;
      } else if recvStartTime != send.enter.time && recvStartTime < send.leave.time {
        ok := DistributeBlame(recv.enter, recvStartTime - send.enter.time, MpiWalk, MpiLateReceiver);
      } else {
        ok := true;
      }
    }

    /** Applied at the leave of a send, after the times of the receive arrived. */
    method ApplySendRule(send: Region, recv: Region) returns (ok: bool)
      requires Valid() && OnStream(View(), send.enter)
      modifies this
      ensures ok ==> SendRule(old(View()), send, recv) == Done(View())
      ensures !ok ==> SendRule(old(View()), send, recv).Failed?
    {
      var sendStartTime, recvStartTime := send.enter.time, recv.enter.time;
      ok := true;
      if sendStartTime <= recvStartTime {
        if sendStartTime < recvStartTime && send.leave.time > recvStartTime {
          WaitAt(MpiLateReceiver, send, recvStartTime - sendStartTime, RemoteNode(recv.leave.id, recv.leave.stream));
        }
      } else if sendStartTime < recv.leave.time {
        ok := DistributeBlame(send.enter, sendStartTime - recvStartTime, MpiWalk, MpiLateSender);
      }
    }

    method WaitAtBarrier(region: Region, latest: Node)
      requires region.enter.time <= latest.time && region.enter != latest
      modifies this
      ensures View() == BarrierWait(old(View()), region, latest)
    {
      var found, marked := MarkBlocking(edges, region);
      if !found {
        marked := NewEdge(edges, region.enter, region.leave, true);
      }
      var wtime := latest.time - region.enter.time;
      statistics := AddStat(statistics, OmpBarrier, wtime);
      waitingTime := waitingTime[region.leave.id := wtime];
      edges := NewEdge(marked, latest, region.leave, false);
    }

    /** Applied when the last thread of the team has left the barrier. */
    method ApplyBarrierRule(barrierList: seq<Region>, rule: WalkRule) returns (ok: bool)
      requires Valid() && barrierList != [] && OnStream(View(), barrierList[Latest(barrierList)].enter)
      modifies this
      ensures ok ==> BarrierRule(old(View()), barrierList, rule) == Done(View())
      ensures !ok ==> BarrierRule(old(View()), barrierList, rule).Failed?
    {
      var latestEnter := LatestEnter(barrierList);
      var latest := barrierList[latestEnter].enter;
      var blame := 0;
      for i := 0 to |barrierList|
        invariant View() == BarrierWaits(old(View()), barrierList[..i], latest)
        invariant blame == BarrierBlame(barrierList[..i], latest)
      {
        BarrierNext(old(View()), barrierList, i, latest);
        var barrier := barrierList[i];
        if barrier.enter != latest {
          WaitAtBarrier(barrier, latest);
          blame := blame + (latest.time - barrier.enter.time);
        }
      }
      assert barrierList[..|barrierList|] == barrierList;
      BarrierWaitsChain(old(View()), barrierList, latest);
      ok := DistributeBlame(latest, blame, rule, OmpBarrier);
    }
  }
}
