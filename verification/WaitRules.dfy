/**
 The wait-state rules: CollectiveRule, SendRule, RecvRule and OMPBarrierRule. Each process
 decides alone, from the times it exchanged, whether its region waited or is to blame for
 the waiting of others.
 */
module WaitRules {
  import opened Common
  import opened NodeOrder
  import opened StreamBlame

  datatype RemoteNode = RemoteNode(nodeId: nat, stream: nat)

  // What the rules read and write on one process: its streams, edges, WAITING_TIME counters by
  // leave node, remote edges, and the waiting-time statistics by reason.
  datatype Process = Process(streams: map<nat, seq<Node>>, edges: seq<Edge>, waiting: map<nat, nat>,
                             remote: map<nat, RemoteNode>, stats: map<Reason, nat>)

  datatype Region = Region(enter: Node, leave: Node)

  function StatOf(p: Process, r: Reason): nat { if r in p.stats then p.stats[r] else 0 }

  ghost predicate ProcessOk(p: Process) {
    forall s :: s in p.streams ==> Sorted(p.streams[s]) && Chain(p.streams[s], p.edges)
  }

  predicate OnStream(p: Process, n: Node) { n.stream in p.streams && n in p.streams[n.stream] }

  // A rule leaves a new process state, or runs into an assertion or a division by zero of the
  // blame distribution.
  datatype Result = Done(process: Process) | Failed

  // ----- The two reactions -----

  function MakeBlocking(edges: seq<Edge>, start: nat, end: nat): seq<Edge> {
    var k := FindEdge(edges, start, end);
    if k < |edges| then edges[k := edges[k].(blocking := true)] else edges
  }

  // The region waited: its edge becomes blocking and is linked to the node that released it.
  function Waits(p: Process, reason: Reason, region: Region, time: nat, releasedBy: RemoteNode): Process {
    var known := FindEdge(p.edges, region.enter.id, region.leave.id) < |p.edges|;
    p.(edges := MakeBlocking(p.edges, region.enter.id, region.leave.id),
       remote := if known then p.remote[region.leave.id := releasedBy] else p.remote,
       stats := p.stats[reason := StatOf(p, reason) + time],
       waiting := p.waiting[region.leave.id := time])
  }

  // Others waited: what precedes the node on its stream is charged with their waiting time.
  function IsBlamed(p: Process, node: Node, time: nat, rule: WalkRule, reason: Reason): Result
    requires OnStream(p, node) && Chain(p.streams[node.stream], p.edges)
  {
    var nodes := p.streams[node.stream];
    var o := Distribute(nodes, p.edges, IndexOf(nodes, node), time, rule, reason);
    if o.SingleNode? || o.NoDuration? then Failed else Done(p.(edges := EdgesAfter(p.edges, o)))
  }

  // ----- Collectives -----

  // One process in the all-gather buffer.
  datatype Entry = Entry(enterTime: nat, enterId: nat, leaveId: nat, stream: nat)

  datatype Elected = Elected(time: nat, enterId: nat, stream: nat)

  function EntryOf(r: Region): Entry { Entry(r.enter.time, r.enter.id, r.leave.id, r.leave.stream) }

  // The last one to enter; the first in the buffer among equals.
  function Elect(buffer: seq<Entry>): Elected {
    if buffer == [] then Elected(0, 0, 0)
    else
      var before := Elect(buffer[..|buffer| - 1]); var e := buffer[|buffer| - 1];
      if e.enterTime > before.time then Elected(e.enterTime, e.enterId, e.stream) else before
  }

  // Time the processes of the buffer spent waiting for `time`.
  function Lateness(buffer: seq<Entry>, time: nat): int {
    if buffer == [] then 0
    else Lateness(buffer[..|buffer| - 1], time) + time - buffer[|buffer| - 1].enterTime
  }

  // The elected entry is at position `i`, and all before it entered earlier.
  predicate FirstLatest(buffer: seq<Entry>, i: nat) {
    && i < |buffer|
    && Elect(buffer) == Elected(buffer[i].enterTime, buffer[i].enterId, buffer[i].stream)
    && forall j :: 0 <= j < i ==> buffer[j].enterTime < buffer[i].enterTime
  }

  /** The elected time is the maximum, and it comes from the first entry that has it. */
  lemma {:induction false} ElectedIsLatest(buffer: seq<Entry>)
    ensures forall i :: 0 <= i < |buffer| ==> buffer[i].enterTime <= Elect(buffer).time
    ensures Elect(buffer).time > 0 ==> exists i :: FirstLatest(buffer, i)
    ensures Elect(buffer).time == 0 ==> Elect(buffer) == Elected(0, 0, 0)
  {
    if buffer != [] {
      var n := |buffer| - 1; var before := buffer[..n];
      ElectedIsLatest(before);
      assert forall i :: 0 <= i < n ==> buffer[i] == before[i];
      if buffer[n].enterTime <= Elect(before).time && Elect(buffer).time > 0 {
        var i :| FirstLatest(before, i);
        assert FirstLatest(buffer, i);
      } else if Elect(buffer).time > 0 {
        assert FirstLatest(buffer, n);
      }
    }
  }

  lemma {:induction false} LatenessNonNegative(buffer: seq<Entry>, time: nat)
    requires forall i :: 0 <= i < |buffer| ==> buffer[i].enterTime <= time
    ensures Lateness(buffer, time) >= 0
  {
    if buffer != [] { LatenessNonNegative(buffer[..|buffer| - 1], time); }
  }

  function CollectiveBlame(buffer: seq<Entry>): nat {
    ElectedIsLatest(buffer);
    LatenessNonNegative(buffer, Elect(buffer).time);
    Lateness(buffer, Elect(buffer).time)
  }

  predicate IsElected(buffer: seq<Entry>, r: Region) { Elect(buffer).stream == r.leave.stream }

  function CollectiveRule(p: Process, r: Region, buffer: seq<Entry>): Result
    requires OnStream(p, r.enter) && Chain(p.streams[r.enter.stream], p.edges) && EntryOf(r) in buffer
  {
    var last := Elect(buffer);
    ElectedIsLatest(buffer);
    if !IsElected(buffer, r) then
      Done(Waits(p, MpiCollective, r, last.time - r.enter.time, RemoteNode(last.enterId, last.stream)))
    else
      IsBlamed(p, r.enter, CollectiveBlame(buffer), MpiWalk, MpiCollective)
  }

  // ----- Point-to-point communication -----

  // The receiver's half; `send` is what the sender told about its region.
  function RecvRule(p: Process, recv: Region, send: Region): Result
    requires OnStream(p, recv.enter) && Chain(p.streams[recv.enter.stream], p.edges)
  {
    var recvStart := recv.enter.time; var sendStart := send.enter.time; var sendEnd := send.leave.time;
    if recvStart < sendStart then
      Done(Waits(p, MpiLateSender, recv, sendStart - recvStart, RemoteNode(send.enter.id, send.enter.stream)))
    else if recvStart != sendStart && recvStart < sendEnd then
      IsBlamed(p, recv.enter, recvStart - sendStart, MpiWalk, MpiLateReceiver)
    else Done(p)
  }

  // The sender's half; `recv` is what the receiver told about its region.
  function SendRule(p: Process, send: Region, recv: Region): Result
    requires OnStream(p, send.enter) && Chain(p.streams[send.enter.stream], p.edges)
  {
    var sendStart := send.enter.time; var sendEnd := send.leave.time;
    var recvStart := recv.enter.time; var recvEnd := recv.leave.time;
    if sendStart <= recvStart then
      if sendStart < recvStart && sendEnd > recvStart then
        Done(Waits(p, MpiLateReceiver, send, recvStart - sendStart, RemoteNode(recv.leave.id, recv.leave.stream)))
      else Done(p)
    else if sendStart < recvEnd then
      IsBlamed(p, send.enter, sendStart - recvStart, MpiWalk, MpiLateSender)
    else Done(p)
  }

  // ----- OpenMP barriers -----

  // The first of the latest entered barrier regions.
  function Latest(regions: seq<Region>): (i: nat)
    requires regions != []
    ensures i < |regions|
    ensures forall j :: 0 <= j < |regions| ==> regions[j].enter.time <= regions[i].enter.time
    ensures forall j :: 0 <= j < i ==> regions[j].enter.time < regions[i].enter.time
  {
    if |regions| == 1 then 0
    else
      var n := |regions| - 1; var i := Latest(regions[..n]);
      assert forall j :: 0 <= j < n ==> regions[..n][j] == regions[j];
      if regions[n].enter.time > regions[i].enter.time then n else i
  }

  function NewEdge(edges: seq<Edge>, from: Node, to: Node, blocking: bool): seq<Edge> {
    edges + [Edge(from.id, to.id, if from.time <= to.time then to.time - from.time else 0, blocking, map[])]
  }

  function BarrierEdges(edges: seq<Edge>, region: Region, latest: Node): seq<Edge> {
    var known := FindEdge(edges, region.enter.id, region.leave.id) < |edges|;
    var marked := if known then MakeBlocking(edges, region.enter.id, region.leave.id)
                  else NewEdge(edges, region.enter, region.leave, true);
    NewEdge(marked, latest, region.leave, false)
  }

  function BarrierWait(p: Process, region: Region, latest: Node): Process
    requires region.enter.time <= latest.time
  {
    var time := latest.time - region.enter.time;
    if region.enter == latest then p
    else p.(edges := BarrierEdges(p.edges, region, latest),
            stats := p.stats[OmpBarrier := StatOf(p, OmpBarrier) + time],
            waiting := p.waiting[region.leave.id := time])
  }

  function BarrierWaits(p: Process, regions: seq<Region>, latest: Node): Process
    requires forall i :: 0 <= i < |regions| ==> regions[i].enter.time <= latest.time
  {
    if regions == [] then p
    else BarrierWait(BarrierWaits(p, regions[..|regions| - 1], latest), regions[|regions| - 1], latest)
  }

  function BarrierBlame(regions: seq<Region>, latest: Node): nat
    requires forall i :: 0 <= i < |regions| ==> regions[i].enter.time <= latest.time
  {
    if regions == [] then 0
    else BarrierBlame(regions[..|regions| - 1], latest)
         + if regions[|regions| - 1].enter == latest then 0 else latest.time - regions[|regions| - 1].enter.time
  }

  // All threads of the team have left the barrier.
  function BarrierRule(p: Process, regions: seq<Region>, rule: WalkRule): Result
    requires regions != [] && ProcessOk(p) && OnStream(p, regions[Latest(regions)].enter)
  {
    var latest := regions[Latest(regions)].enter;
    var waited := BarrierWaits(p, regions, latest);
    BarrierWaitsChain(p, regions, latest);
    IsBlamed(waited, latest, BarrierBlame(regions, latest), rule, OmpBarrier)
  }

  // ----- Edges and their blame under the two reactions -----

  lemma {:induction false} MakeBlockingKeeps(edges: seq<Edge>, start: nat, end: nat, r: Reason)
    ensures SameShape(edges, MakeBlocking(edges, start, end))
    ensures TotalBlame(MakeBlocking(edges, start, end), r) == TotalBlame(edges, r)
  {
    var k := FindEdge(edges, start, end);
    if k < |edges| { TotalUpdate(edges, k, edges[k].(blocking := true), r); }
  }

  lemma {:induction false} FindAppended(edges: seq<Edge>, e: Edge, start: nat, end: nat)
    requires FindEdge(edges, start, end) < |edges|
    ensures FindEdge(edges + [e], start, end) == FindEdge(edges, start, end)
  {
    FindUnique(edges + [e], start, end, FindEdge(edges, start, end));
  }

  lemma {:induction false} NewEdgeKeeps(nodes: seq<Node>, edges: seq<Edge>, from: Node, to: Node, blocking: bool,
                                        r: Reason)
    ensures Chain(nodes, edges) ==> Chain(nodes, NewEdge(edges, from, to, blocking))
    ensures TotalBlame(NewEdge(edges, from, to, blocking), r) == TotalBlame(edges, r)
  {
    var after := NewEdge(edges, from, to, blocking);
    assert after[..|edges|] == edges;
    if Chain(nodes, edges) {
      forall i | 0 < i < |nodes| ensures Linked(nodes, after, i) {
        assert Linked(nodes, edges, i);
        FindAppended(edges, after[|edges|], nodes[i - 1].id, nodes[i].id);
      }
    }
  }

  lemma {:induction false} BarrierEdgesKeep(nodes: seq<Node>, edges: seq<Edge>, region: Region, latest: Node, r: Reason)
    ensures Chain(nodes, edges) ==> Chain(nodes, BarrierEdges(edges, region, latest))
    ensures TotalBlame(BarrierEdges(edges, region, latest), r) == TotalBlame(edges, r)
  {
    var (a, b) := (region.enter.id, region.leave.id);
    MakeBlockingKeeps(edges, a, b, r);
    if Chain(nodes, edges) { SameShapeChain(nodes, edges, MakeBlocking(edges, a, b)); }
    NewEdgeKeeps(nodes, edges, region.enter, region.leave, true, r);
    var marked := if FindEdge(edges, a, b) < |edges| then MakeBlocking(edges, a, b)
        else NewEdge(edges, region.enter, region.leave, true);
    NewEdgeKeeps(nodes, marked, latest, region.leave, false, r);
  }

  lemma {:induction false} BarrierWaitsChain(p: Process, regions: seq<Region>, latest: Node)
    requires forall i :: 0 <= i < |regions| ==> regions[i].enter.time <= latest.time
    requires ProcessOk(p)
    ensures ProcessOk(BarrierWaits(p, regions, latest)) && BarrierWaits(p, regions, latest).streams == p.streams
  {
    if regions != [] {
      var before := BarrierWaits(p, regions[..|regions| - 1], latest);
      BarrierWaitsChain(p, regions[..|regions| - 1], latest);
      forall s | s in p.streams ensures Chain(p.streams[s], BarrierWaits(p, regions, latest).edges) {
        BarrierEdgesKeep(p.streams[s], before.edges, regions[|regions| - 1], latest, OmpBarrier);
      }
    }
  }
}
