/**
 What the wait-state rules add up to over all processes. Every process books the waiting time
 of its own regions and the blame on its own edges; nobody sees both sides of a wait state.
 Still the books of all processes balance after any run of collectives, send-receive pairs and
 barriers, except for the receives that ended before their send started.
 */
module WaitConservation {
  import opened Common
  import opened MapSum
  import opened NodeOrder
  import opened StreamBlame
  import opened WaitRules

  type World = seq<Process>

  datatype Member = Member(rank: nat, region: Region)

  datatype Operation =
    | Collective(members: seq<Member>)
    | PointToPoint(send: Member, recv: Member)
    | Barrier(rank: nat, regions: seq<Region>, rule: WalkRule)

  // Waiting time booked minus blame placed, for one reason.
  function Balance(p: Process, r: Reason): real { StatOf(p, r) as real - TotalBlame(p.edges, r) }

  function WorldBalance(w: World, r: Reason): real {
    if w == [] then 0.0 else Balance(w[0], r) + WorldBalance(w[1..], r)
  }

  // The WAITING_TIME counters of the leave nodes add up to the statistics.
  ghost predicate Booked(p: Process) {
    Sum(p.waiting) == Sum(p.stats)
  }

  ghost predicate WorldOk(w: World) {
    forall i :: 0 <= i < |w| ==> ProcessOk(w[i]) && Booked(w[i])
  }

  // ----- Runs -----

  // The region belongs to this process and has not been analysed yet.
  predicate Applicable(w: World, m: Member) {
    m.rank < |w| && OnStream(w[m.rank], m.region.enter) && m.region.leave.id !in w[m.rank].waiting
  }

  function Updated(w: World, rank: nat, o: Result): Option<World>
    requires rank < |w|
  {
    if o.Done? then Some(w[rank := o.process]) else None
  }

  // The buffer that the all-gather leaves on every process.
  function Gather(members: seq<Member>): (buffer: seq<Entry>)
    ensures |buffer| == |members|
    ensures forall i :: 0 <= i < |members| ==> buffer[i] == EntryOf(members[i].region)
  {
    seq(|members|, i requires 0 <= i < |members| => EntryOf(members[i].region))
  }

  ghost function CollectiveAt(w: World, m: Member, buffer: seq<Entry>): Option<World> {
    if Applicable(w, m) && ProcessOk(w[m.rank]) && EntryOf(m.region) in buffer
    then Updated(w, m.rank, CollectiveRule(w[m.rank], m.region, buffer)) else None
  }

  ghost function CollectiveAll(w: World, members: seq<Member>, buffer: seq<Entry>): Option<World> {
    if members == [] then Some(w)
    else
      var before := CollectiveAll(w, members[..|members| - 1], buffer);
      if before.None? then None else CollectiveAt(before.value, members[|members| - 1], buffer)
  }

  ghost function SendAt(w: World, send: Member, recv: Member): Option<World> {
    if Applicable(w, send) && ProcessOk(w[send.rank])
    then Updated(w, send.rank, SendRule(w[send.rank], send.region, recv.region)) else None
  }

  ghost function RecvAt(w: World, send: Member, recv: Member): Option<World> {
    if Applicable(w, recv) && ProcessOk(w[recv.rank])
    then Updated(w, recv.rank, RecvRule(w[recv.rank], recv.region, send.region)) else None
  }

  predicate FreshRegions(p: Process, regions: seq<Region>) {
    && (forall i :: 0 <= i < |regions| ==> regions[i].leave.id !in p.waiting)
    && (forall i, j :: 0 <= i < j < |regions| ==> regions[i].leave.id != regions[j].leave.id)
  }

  ghost function BarrierAt(w: World, rank: nat, regions: seq<Region>, rule: WalkRule): Option<World> {
    if rank < |w| && regions != [] && ProcessOk(w[rank]) && OnStream(w[rank], regions[Latest(regions)].enter)
       && FreshRegions(w[rank], regions)
    then Updated(w, rank, BarrierRule(w[rank], regions, rule)) else None
  }

  predicate DistinctStreams(members: seq<Member>) {
    forall i, j :: 0 <= i < j < |members| ==> members[i].region.leave.stream != members[j].region.leave.stream
  }

  ghost function Perform(w: World, op: Operation): Option<World> {
    match op
    case Collective(members) =>
      if DistinctStreams(members) then CollectiveAll(w, members, Gather(members)) else None
    case PointToPoint(send, recv) =>
      var sent := SendAt(w, send, recv);
      if sent.None? then None else RecvAt(sent.value, send, recv)
    case Barrier(rank, regions, rule) => BarrierAt(w, rank, regions, rule)
  }

  ghost function Run(w: World, ops: seq<Operation>): Option<World> {
    if ops == [] then Some(w)
    else
      var before := Run(w, ops[..|ops| - 1]);
      if before.None? then None else Perform(before.value, ops[|ops| - 1])
  }

  // ----- Effects on one process -----

  lemma {:induction false} WaitsEffect(p: Process, reason: Reason, region: Region, time: nat, releasedBy: RemoteNode,
                                       r: Reason)
    requires ProcessOk(p) && Booked(p) && region.leave.id !in p.waiting
    ensures var p' := Waits(p, reason, region, time, releasedBy);
            && ProcessOk(p') && Booked(p')
            && Balance(p', r) == Balance(p, r) + if r == reason then time as real else 0.0
  {
    var p' := Waits(p, reason, region, time, releasedBy);
    MakeBlockingKeeps(p.edges, region.enter.id, region.leave.id, r);
    forall s | s in p.streams ensures Chain(p.streams[s], p'.edges) {
      SameShapeChain(p.streams[s], p.edges, p'.edges);
    }
    SumUpdate(p.waiting, region.leave.id, time);
    SumUpdate(p.stats, reason, StatOf(p, reason) + time);
  }

  lemma {:induction false} BlamedEffect(p: Process, node: Node, time: nat, rule: WalkRule, reason: Reason, r: Reason)
    requires ProcessOk(p) && Booked(p) && OnStream(p, node)
    ensures var o := IsBlamed(p, node, time, rule, reason);
            o.Done? ==>
              && ProcessOk(o.process) && Booked(o.process)
              && Balance(o.process, r) == Balance(p, r) - if r == reason then time as real else 0.0
  {
    var nodes := p.streams[node.stream];
    var o := Distribute(nodes, p.edges, IndexOf(nodes, node), time, rule, reason);
    DistributeConserves(nodes, p.edges, IndexOf(nodes, node), time, rule, reason, r);
    forall s | s in p.streams ensures Chain(p.streams[s], EdgesAfter(p.edges, o)) {
      SameShapeChain(p.streams[s], p.edges, EdgesAfter(p.edges, o));
    }
  }

  /** A charged walk fails exactly if there is blame but no time to put it on. */
  lemma {:induction false} BlameFailsExactly(p: Process, node: Node, time: nat, rule: WalkRule, reason: Reason)
    requires ProcessOk(p) && OnStream(p, node)
    ensures var nodes := p.streams[node.stream]; var at := IndexOf(nodes, node);
            IsBlamed(p, node, time, rule, reason).Failed? <==>
              time > 0 && nodes[WalkEnd(rule, nodes, at, at)].time == node.time
  {
    assert node.stream in p.streams;
  }

  lemma {:induction false} BarrierWaitEffect(p: Process, region: Region, latest: Node, r: Reason)
    requires ProcessOk(p) && Booked(p) && region.leave.id !in p.waiting && region.enter.time <= latest.time
    ensures var p' := BarrierWait(p, region, latest);
            && ProcessOk(p') && Booked(p')
            && Balance(p', r) == Balance(p, r)
                 + if r == OmpBarrier && region.enter != latest then (latest.time - region.enter.time) as real else 0.0
  {
    if region.enter != latest {
      BarrierEdgesKeep([], p.edges, region, latest, r);
      BarrierWaitOk(p, region, latest);
      SumUpdate(p.waiting, region.leave.id, latest.time - region.enter.time);
      SumUpdate(p.stats, OmpBarrier, StatOf(p, OmpBarrier) + latest.time - region.enter.time);
    }
  }

  lemma {:induction false} BarrierWaitOk(p: Process, region: Region, latest: Node)
    requires ProcessOk(p) && region.enter.time <= latest.time
    ensures ProcessOk(BarrierWait(p, region, latest))
  {
    forall s | s in p.streams ensures Chain(p.streams[s], BarrierWait(p, region, latest).edges) {
      BarrierEdgesKeep(p.streams[s], p.edges, region, latest, OmpBarrier);
    }
  }

  lemma {:induction false} BarrierWaitsEffect(p: Process, regions: seq<Region>, latest: Node, r: Reason)
    requires ProcessOk(p) && Booked(p) && FreshRegions(p, regions)
    requires forall i :: 0 <= i < |regions| ==> regions[i].enter.time <= latest.time
    ensures var p' := BarrierWaits(p, regions, latest);
            && ProcessOk(p') && Booked(p')
            && (forall id :: id in p'.waiting ==>
                 id in p.waiting || exists i :: 0 <= i < |regions| && regions[i].leave.id == id)
            && Balance(p', r) == Balance(p, r) + if r == OmpBarrier then BarrierBlame(regions, latest) as real else 0.0
  {
    if regions != [] {
      var n := |regions| - 1;
      BarrierWaitsEffect(p, regions[..n], latest, r);
      assert forall i :: 0 <= i < n ==> regions[..n][i] == regions[i];
      BarrierWaitEffect(BarrierWaits(p, regions[..n], latest), regions[n], latest, r);
    }
  }

  // ----- Effects on the world -----

  lemma {:induction false} BalanceUpdate(w: World, i: nat, p: Process, r: Reason)
    requires i < |w|
    ensures WorldBalance(w[i := p], r) == WorldBalance(w, r) - Balance(w[i], r) + Balance(p, r)
  {
    if i == 0 {
      assert w[i := p][1..] == w[1..];
    } else {
      assert w[i := p][1..] == w[1..][i - 1 := p];
      BalanceUpdate(w[1..], i - 1, p, r);
    }
  }

  predicate Elects(buffer: seq<Entry>, m: Member) { IsElected(buffer, m.region) }

  // Change of the balance when one member applies the collective rule.
  function CollectiveShare(m: Member, buffer: seq<Entry>): int {
    if Elects(buffer, m) then -(CollectiveBlame(buffer) as int) else Elect(buffer).time - m.region.enter.time
  }

  function CollectiveShares(members: seq<Member>, buffer: seq<Entry>): int {
    if members == [] then 0
    else CollectiveShares(members[..|members| - 1], buffer) + CollectiveShare(members[|members| - 1], buffer)
  }

  lemma {:induction false} CollectiveAtEffect(w: World, m: Member, buffer: seq<Entry>, r: Reason)
    requires WorldOk(w) && CollectiveAt(w, m, buffer).Some?
    ensures var w' := CollectiveAt(w, m, buffer).value;
            && WorldOk(w')
            && WorldBalance(w', r) == WorldBalance(w, r)
                 + if r == MpiCollective then CollectiveShare(m, buffer) as real else 0.0
  {
    var p := w[m.rank]; var region := m.region; var last := Elect(buffer);
    ElectedIsLatest(buffer);
    if Elects(buffer, m) {
      BlamedEffect(p, region.enter, CollectiveBlame(buffer), MpiWalk, MpiCollective, r);
    } else {
      WaitsEffect(p, MpiCollective, region, last.time - region.enter.time, RemoteNode(last.enterId, last.stream), r);
    }
    BalanceUpdate(w, m.rank, CollectiveRule(p, region, buffer).process, r);
  }

  lemma {:induction false} CollectiveAllEffect(w: World, members: seq<Member>, buffer: seq<Entry>, r: Reason)
    requires WorldOk(w) && CollectiveAll(w, members, buffer).Some?
    ensures var w' := CollectiveAll(w, members, buffer).value;
            && WorldOk(w')
            && WorldBalance(w', r) == WorldBalance(w, r)
                 + if r == MpiCollective then CollectiveShares(members, buffer) as real else 0.0
  {
    if members != [] {
      var n := |members| - 1;
      CollectiveAllEffect(w, members[..n], buffer, r);
      CollectiveAtEffect(CollectiveAll(w, members[..n], buffer).value, members[n], buffer, r);
    }
  }

  function ElectedCount(members: seq<Member>, buffer: seq<Entry>): nat {
    if members == [] then 0
    else ElectedCount(members[..|members| - 1], buffer) + if Elects(buffer, members[|members| - 1]) then 1 else 0
  }

  lemma {:induction false} ElectedOnce(members: seq<Member>, buffer: seq<Entry>)
    requires DistinctStreams(members)
    ensures ElectedCount(members, buffer) == if exists i :: 0 <= i < |members| && Elects(buffer, members[i]) then 1
            else 0
  {
    if members != [] {
      var n := |members| - 1;
      ElectedOnce(members[..n], buffer);
      assert forall i :: 0 <= i < n ==> members[..n][i] == members[i];
    }
  }

  // An elected member entered at the elected time.
  lemma {:induction false} ElectedEntersLast(members: seq<Member>, m: Member)
    requires DistinctStreams(members) && m in members && Elects(Gather(members), m)
    ensures m.region.enter.time == Elect(Gather(members)).time
  {
    var buffer := Gather(members);
    ElectedIsLatest(buffer);
    var k :| 0 <= k < |members| && members[k] == m;
    assert buffer[k].enterTime == m.region.enter.time;
    if Elect(buffer).time > 0 {
      var i: nat :| FirstLatest(buffer, i);
      assert members[i].region.leave.stream == m.region.leave.stream;
      assert i == k;
    }
  }

  lemma {:induction false} SharesAreLateness(all: seq<Member>, members: seq<Member>)
    requires DistinctStreams(all) && forall m :: m in members ==> m in all
    ensures CollectiveShares(members, Gather(all)) ==
              Lateness(Gather(members), Elect(Gather(all)).time)
                  - ElectedCount(members, Gather(all)) * CollectiveBlame(Gather(all))
  {
    if members != [] {
      var n := |members| - 1; var m := members[n]; var buffer := Gather(all);
      SharesAreLateness(all, members[..n]);
      assert Gather(members)[..n] == Gather(members[..n]);
      if Elects(buffer, m) {
        ElectedEntersLast(all, m);
        NextMultiple(ElectedCount(members[..n], buffer), CollectiveBlame(buffer));
      }
    }
  }

  lemma {:induction false} NextMultiple(n: int, b: int)
    ensures (n + 1) * b == n * b + b
  {
  }

  /** In a collective the waiting times of all members add up to the blame of the elected one. */
  lemma {:induction false} CollectiveBalances(members: seq<Member>)
    requires DistinctStreams(members)
    ensures CollectiveShares(members, Gather(members)) == 0
  {
    var buffer := Gather(members); var last := Elect(buffer);
    SharesAreLateness(members, members);
    ElectedOnce(members, buffer);
    ElectedIsLatest(buffer);
    if last.time > 0 {
      var i: nat :| FirstLatest(buffer, i);
      assert Elects(buffer, members[i]);
    } else {
      NoLateness(buffer);
    }
  }

  lemma {:induction false} NoLateness(buffer: seq<Entry>)
    requires forall i :: 0 <= i < |buffer| ==> buffer[i].enterTime == 0
    ensures Lateness(buffer, 0) == 0
  {
    if buffer != [] { NoLateness(buffer[..|buffer| - 1]); }
  }

  /** Exactly one member of a collective is not blocked, unless all enter at time zero; then it
      is the member on stream zero, if there is one. This member is the master the reverse
      replay starts with. */
  lemma {:induction false} SingleMaster(members: seq<Member>)
    requires DistinctStreams(members)
    ensures (ElectedCount(members, Gather(members)) == 1) <==>
              ((exists i :: 0 <= i < |members| && members[i].region.enter.time > 0)
               || (exists i :: 0 <= i < |members| && members[i].region.leave.stream == 0))
    ensures ElectedCount(members, Gather(members)) <= 1
  {
    var buffer := Gather(members); var last := Elect(buffer);
    ElectedOnce(members, buffer);
    ElectedIsLatest(buffer);
    if last.time > 0 {
      var i: nat :| FirstLatest(buffer, i);
      assert Elects(buffer, members[i]) && members[i].region.enter.time > 0;
    } else {
      forall i | 0 <= i < |members| ensures members[i].region.enter.time == 0 { assert buffer[i].enterTime <= 0; }
      forall i | 0 <= i < |members| ensures Elects(buffer, members[i]) <==> members[i].region.leave.stream == 0 {}
    }
  }

  // ----- Send-receive pairs -----

  // The receive ended before its send started: the receiver books a late sender, the sender
  // sees no overlap and takes no blame.
  predicate EndsBeforeSend(send: Region, recv: Region) {
    recv.enter.time < send.enter.time && recv.leave.time <= send.enter.time
  }

  function Unblamed(op: Operation, r: Reason): nat {
    if op.PointToPoint? && r == MpiLateSender && EndsBeforeSend(op.send.region, op.recv.region)
    then op.send.region.enter.time - op.recv.region.enter.time else 0
  }

  function SendShare(send: Region, recv: Region, r: Reason): int {
    var (s, t) := (send.enter.time, recv.enter.time);
    if r == MpiLateReceiver && s < t && t < send.leave.time then t - s
    else if r == MpiLateSender && t < s && s < recv.leave.time then t - s else 0
  }

  function RecvShare(send: Region, recv: Region, r: Reason): int {
    var (s, t) := (send.enter.time, recv.enter.time);
    if r == MpiLateSender && t < s then s - t
    else if r == MpiLateReceiver && s < t && t < send.leave.time then s - t else 0
  }

  lemma {:induction false} SendEffect(p: Process, send: Region, recv: Region, r: Reason)
    requires ProcessOk(p) && Booked(p) && OnStream(p, send.enter) && send.leave.id !in p.waiting
    ensures var o := SendRule(p, send, recv);
            o.Done? ==> ProcessOk(o.process) && Booked(o.process)
                        && Balance(o.process, r) == Balance(p, r) + SendShare(send, recv, r) as real
  {
    var (s, t) := (send.enter.time, recv.enter.time);
    if s < t && send.leave.time > t {
      WaitsEffect(p, MpiLateReceiver, send, t - s, RemoteNode(recv.leave.id, recv.leave.stream), r);
    } else if t < s && s < recv.leave.time {
      BlamedEffect(p, send.enter, s - t, MpiWalk, MpiLateSender, r);
    }
  }

  lemma {:induction false} RecvEffect(p: Process, recv: Region, send: Region, r: Reason)
    requires ProcessOk(p) && Booked(p) && OnStream(p, recv.enter) && recv.leave.id !in p.waiting
    ensures var o := RecvRule(p, recv, send);
            o.Done? ==> ProcessOk(o.process) && Booked(o.process)
                        && Balance(o.process, r) == Balance(p, r) + RecvShare(send, recv, r) as real
  {
    var (s, t) := (send.enter.time, recv.enter.time);
    if t < s {
      WaitsEffect(p, MpiLateSender, recv, s - t, RemoteNode(send.enter.id, send.enter.stream), r);
    } else if s < t && t < send.leave.time {
      BlamedEffect(p, recv.enter, t - s, MpiWalk, MpiLateReceiver, r);
    }
  }

  lemma {:induction false} PairEffect(w: World, send: Member, recv: Member, r: Reason)
    requires WorldOk(w) && SendAt(w, send, recv).Some? && RecvAt(SendAt(w, send, recv).value, send, recv).Some?
    ensures var w' := RecvAt(SendAt(w, send, recv).value, send, recv).value;
            WorldOk(w') && WorldBalance(w', r) == WorldBalance(w, r)
                             + SendShare(send.region, recv.region, r) as real
                                 + RecvShare(send.region, recv.region, r) as real
  {
    SendEffect(w[send.rank], send.region, recv.region, r);
    BalanceUpdate(w, send.rank, SendRule(w[send.rank], send.region, recv.region).process, r);
    var v := SendAt(w, send, recv).value;
    RecvEffect(v[recv.rank], recv.region, send.region, r);
    BalanceUpdate(v, recv.rank, RecvRule(v[recv.rank], recv.region, send.region).process, r);
  }

  /** The two halves of a pair cancel exactly if the receive does not end before its send. */
  lemma {:induction false} PairBalances(send: Region, recv: Region)
    ensures (forall r :: SendShare(send, recv, r) + RecvShare(send, recv, r) == 0) <==> !EndsBeforeSend(send, recv)
  {
    if EndsBeforeSend(send, recv) {
      assert SendShare(send, recv, MpiLateSender) + RecvShare(send, recv, MpiLateSender) > 0;
    }
  }

  // ----- Whole runs -----

  lemma {:induction false} BarrierAtEffect(w: World, rank: nat, regions: seq<Region>, rule: WalkRule, r: Reason)
    requires WorldOk(w) && BarrierAt(w, rank, regions, rule).Some?
    ensures var w' := BarrierAt(w, rank, regions, rule).value;
            WorldOk(w') && WorldBalance(w', r) == WorldBalance(w, r)
  {
    var p := w[rank]; var latest := regions[Latest(regions)].enter;
    BarrierWaitsEffect(p, regions, latest, r);
    BarrierWaitsChain(p, regions, latest);
    BlamedEffect(BarrierWaits(p, regions, latest), latest, BarrierBlame(regions, latest), rule, OmpBarrier, r);
    BalanceUpdate(w, rank, BarrierRule(p, regions, rule).process, r);
  }

  lemma {:induction false} PerformEffect(w: World, op: Operation, r: Reason)
    requires WorldOk(w) && Perform(w, op).Some?
    ensures var w' := Perform(w, op).value;
            WorldOk(w') && WorldBalance(w', r) == WorldBalance(w, r) + Unblamed(op, r) as real
  {
    match op
    case Collective(members) =>
      CollectiveAllEffect(w, members, Gather(members), r);
      CollectiveBalances(members);
    case PointToPoint(send, recv) =>
      PairEffect(w, send, recv, r);
    case Barrier(rank, regions, rule) => BarrierAtEffect(w, rank, regions, rule, r);
  }

  function UnblamedIn(ops: seq<Operation>, r: Reason): nat {
    if ops == [] then 0 else UnblamedIn(ops[..|ops| - 1], r) + Unblamed(ops[|ops| - 1], r)
  }

  /** Over any run and for every reason, waiting time booked minus blame placed is exactly the
      waiting time of receives that ended before their send started. */
  lemma {:induction false} RunBalance(w: World, ops: seq<Operation>, r: Reason)
    requires WorldOk(w) && Run(w, ops).Some?
    ensures var w' := Run(w, ops).value;
            WorldOk(w') && WorldBalance(w', r) == WorldBalance(w, r) + UnblamedIn(ops, r) as real
  {
    if ops != [] {
      var n := |ops| - 1;
      RunBalance(w, ops[..n], r);
      PerformEffect(Run(w, ops[..n]).value, ops[n], r);
    }
  }

  predicate AllOverlap(ops: seq<Operation>) {
    forall i :: 0 <= i < |ops| && ops[i].PointToPoint? ==> !EndsBeforeSend(ops[i].send.region, ops[i].recv.region)
  }

  lemma {:induction false} NothingUnblamed(ops: seq<Operation>, r: Reason)
    ensures UnblamedIn(ops, r) == 0 <==> r != MpiLateSender || AllOverlap(ops)
  {
    if ops != [] {
      var n := |ops| - 1;
      NothingUnblamed(ops[..n], r);
      assert AllOverlap(ops) <==> AllOverlap(ops[..n]) && Unblamed(ops[n], MpiLateSender) == 0 by {
        assert forall i :: 0 <= i < n ==> ops[..n][i] == ops[i];
      }
    }
  }

  lemma {:induction false} FinalBalance(w: World, ops: seq<Operation>, r: Reason)
    requires WorldOk(w) && WorldBalance(w, r) == 0.0 && Run(w, ops).Some?
    ensures WorldOk(Run(w, ops).value)
    ensures WorldBalance(Run(w, ops).value, r) == 0.0 <==> r != MpiLateSender || AllOverlap(ops)
  {
    RunBalance(w, ops, r);
    NothingUnblamed(ops, r);
  }

  /** Conservation: a run that starts with balanced books ends with balanced books, for every
      reason, exactly if no receive in it ends before its send starts. The books then include
      all WAITING_TIME counters. */
  lemma {:induction false} Conservation(w: World, ops: seq<Operation>)
    requires WorldOk(w) && (forall r :: WorldBalance(w, r) == 0.0) && Run(w, ops).Some?
    ensures forall i :: 0 <= i < |Run(w, ops).value| ==> Booked(Run(w, ops).value[i])
    ensures (forall r :: WorldBalance(Run(w, ops).value, r) == 0.0) <==> AllOverlap(ops)
  {
    forall r ensures WorldBalance(Run(w, ops).value, r) == 0.0 <==> r != MpiLateSender || AllOverlap(ops) {
      FinalBalance(w, ops, r);
    }
    FinalBalance(w, ops, MpiLateSender);
  }

  // ----- What the reverse replay needs -----

  // The node that releases a waiting region entered before the region left.
  predicate ReleasedBefore(region: Region, releaser: Region) { releaser.enter.time < region.leave.time }

  /** Blocking sends always point to a receive that entered before the send left; blocking
      receives point to an earlier send exactly if the pair is balanced. */
  lemma {:induction false} ReleaserEntersBefore(p: Process, q: Process, send: Region, recv: Region)
    requires ProcessOk(p) && ProcessOk(q) && OnStream(p, send.enter) && OnStream(q, recv.enter)
    requires send.leave.id !in p.waiting && recv.leave.id !in q.waiting
    ensures SendRule(p, send, recv).Done? && send.leave.id in SendRule(p, send, recv).process.waiting ==>
            ReleasedBefore(send, recv)
    ensures RecvRule(q, recv, send).Done? && recv.leave.id in RecvRule(q, recv, send).process.waiting ==>
              (ReleasedBefore(recv, send) <==> !EndsBeforeSend(send, recv))
  {
  }

  // The member that the others of a collective wait for.
  predicate Releases(members: seq<Member>, i: nat) { i < |members| && FirstLatest(Gather(members), i) }

  /** The leave of a blocked member of a collective points to the enter of the last one to enter,
      which is earlier exactly if the member did not leave before. Without a positive enter time
      there is no such member. */
  lemma {:induction false} CollectiveReleaser(p: Process, members: seq<Member>, r: Region) returns (i: nat)
    requires ProcessOk(p) && OnStream(p, r.enter) && EntryOf(r) in Gather(members) && !IsElected(Gather(members), r)
    requires Elect(Gather(members)).time > 0
    ensures Releases(members, i) && r.enter.time <= members[i].region.enter.time
    ensures var after := CollectiveRule(p, r, Gather(members));
            && after.Done? && r.leave.id in after.process.waiting
            && (FindEdge(p.edges, r.enter.id, r.leave.id) < |p.edges| ==>
                  r.leave.id in after.process.remote
                  && after.process.remote[r.leave.id] ==
                       RemoteNode(members[i].region.enter.id, members[i].region.leave.stream))
    ensures ReleasedBefore(r, members[i].region) <==> Elect(Gather(members)).time < r.leave.time
  {
    var buffer := Gather(members);
    ElectedIsLatest(buffer);
    i :| FirstLatest(buffer, i);
    var j :| 0 <= j < |buffer| && buffer[j] == EntryOf(r);
    assert buffer[i] == EntryOf(members[i].region);
  }

  /** In a reduction a member may leave before the last one enters; it is blocked all the same and
      points to a later enter. */
  lemma {:induction false} EarlyLeaver(p: Process, early: Member, late: Member) returns (i: nat)
    requires early.region.enter.time < early.region.leave.time < late.region.enter.time
    requires early.region.leave.stream != late.region.leave.stream && ProcessOk(p) && OnStream(p, early.region.enter)
    ensures !IsElected(Gather([early, late]), early.region) && Releases([early, late], i)
    ensures [early, late][i] == late && !ReleasedBefore(early.region, late.region)
  {
    var buffer := Gather([early, late]);
    assert buffer == [EntryOf(early.region), EntryOf(late.region)];
    ElectedIsLatest(buffer);
    assert buffer[1].enterTime <= Elect(buffer).time;
    i :| FirstLatest(buffer, i);
  }
}
