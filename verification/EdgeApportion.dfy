/**
 Blame of edges handed out to events (computeBlameMap). Edges are opened at the event of their
 start node; every later event of the stream up to the end node gets the part of the edge's
 blame that belongs to the time since the previous event. The module has the loop over the open
 edges twice: as it is meant, with one advance per edge, and as it is written, with a second
 advance after an edge was erased.
 */
module EdgeApportion {
  import opened Common
  import opened Scaling

  // An out-edge of a node, with the times of both nodes.
  datatype OpenEdge = OpenEdge(start: nat, end: nat, duration: nat, blame: map<Reason, real>)

  function BlameOf(e: OpenEdge, r: Reason): real { if r in e.blame then e.blame[r] else 0.0 }

  predicate EdgeOk(e: OpenEdge) { e.start <= e.end && e.duration == e.end - e.start }

  // The edge has a duration and the event lies between its nodes.
  predicate Covers(e: OpenEdge, time: nat) { e.duration > 0 && e.start <= time <= e.end }

  // The edge's blame for a part of its duration.
  function Part(e: OpenEdge, r: Reason, time: nat): real {
    if e.duration == 0 then 0.0 else BlameOf(e, r) * time as real / e.duration as real
  }

  function Given(e: OpenEdge, r: Reason, last: nat, time: nat): real
    requires last <= time
  {
    if Covers(e, time) then Part(e, r, time - last) else 0.0
  }

  // What one event gets from all open edges.
  function GivenAll(edges: seq<OpenEdge>, r: Reason, last: nat, time: nat): real
    requires last <= time
  {
    if edges == [] then 0.0 else Given(edges[0], r, last, time) + GivenAll(edges[1..], r, last, time)
  }

  // Edges that stay open: they cover the event and end later.
  function Remaining(edges: seq<OpenEdge>, time: nat): seq<OpenEdge> {
    if edges == [] then []
    else if Covers(edges[0], time) && edges[0].end != time then [edges[0]] + Remaining(edges[1..], time)
    else Remaining(edges[1..], time)
  }

  // Blame of the open edges that was not handed out by time `last`.
  function Outstanding(edges: seq<OpenEdge>, r: Reason, last: nat): real {
    if edges == [] then 0.0
    else
      (if last <= edges[0].end then Part(edges[0], r, edges[0].end - last) else 0.0)
      + Outstanding(edges[1..], r, last)
  }

  // Blame of open edges that a late event drops: it comes after their end node.
  function Missed(edges: seq<OpenEdge>, r: Reason, last: nat, time: nat): real {
    if edges == [] then 0.0
    else
      (if last <= edges[0].end < time then Part(edges[0], r, edges[0].end - last) else 0.0)
      + Missed(edges[1..], r, last, time)
  }

  // ----- The writer's state for one stream -----

  class StreamState {
    var openEdges: seq<OpenEdge>
    var lastEventTime: nat
    // running totals by reason: blame of opened edges, handed out, dropped
    ghost var accepted: Reason -> real
    ghost var given: Reason -> real
    ghost var missed: Reason -> real

    // Nothing is lost or handed out twice.
    ghost predicate Valid()
      reads this
    {
      && (forall i :: 0 <= i < |openEdges| ==> EdgeOk(openEdges[i]) && openEdges[i].start <= lastEventTime)
      && (forall r :: accepted(r) == given(r) + missed(r) + Outstanding(openEdges, r, lastEventTime))
    }

    constructor ()
      ensures Valid() && openEdges == []
      ensures forall r :: accepted(r) == given(r) == missed(r) == 0.0
    {
      openEdges, lastEventTime := [], 0;
      accepted, given, missed := r => 0.0, r => 0.0, r => 0.0;
    }

    /** What the event at `time` gets from each open edge. Edges that end here are closed. The
        list is advanced once per edge. */
    method ComputeBlameMap(time: nat) returns (blameMap: map<Reason, real>, totalBlame: real)
      requires Valid() && lastEventTime <= time
      modifies this
      ensures Valid() && lastEventTime == time && accepted == old(accepted)
      ensures openEdges == Remaining(old(openEdges), time)
      ensures forall r :: ValueAt(blameMap, r) == GivenAll(old(openEdges), r, old(lastEventTime), time)
      ensures forall r :: given(r) == old(given)(r) + GivenAll(old(openEdges), r, old(lastEventTime), time)
      ensures forall r :: missed(r) == old(missed)(r) + Missed(old(openEdges), r, old(lastEventTime), time)
      ensures totalBlame == Sum(blameMap)
    {
      ghost var (edges, last, g, m) := (openEdges, lastEventTime, given, missed);
      openEdges, blameMap := VisitOpenEdges(openEdges, lastEventTime, time);
      totalBlame := Sum(blameMap);
      forall r { PassBalances(edges, r, last, time); }
      RemainingOk(edges, time);
      lastEventTime := time;
      given := r => g(r) + GivenAll(edges, r, last, time);
      missed := r => m(r) + Missed(edges, r, last, time);
    }

    static method VisitOpenEdges(edges: seq<OpenEdge>, last: nat, time: nat)
      returns (kept: seq<OpenEdge>, blameMap: map<Reason, real>)
      requires last <= time
      ensures kept == Remaining(edges, time)
      ensures forall r :: ValueAt(blameMap, r) == GivenAll(edges, r, last, time)
    {
      kept, blameMap := [], map[];
      for i := 0 to |edges|
        invariant forall r ::
                    ValueAt(blameMap, r) + GivenAll(edges[i..], r, last, time) == GivenAll(edges, r, last, time)
        invariant kept + Remaining(edges[i..], time) == Remaining(edges, time)
      {
        var edge := edges[i];
        assert edges[i..][0] == edge && edges[i..][1..] == edges[i + 1..];
        if Covers(edge, time) {
          blameMap := AddAll(blameMap, edge, last, time);
          if edge.end != time {
            kept := kept + [edge];
          }
        }
      }
      assert kept + [] == kept;
    }

    /** The same with the loop as it is written. Where that is defined, the books still balance, but
        what the edges passed over should have given to this event is missed. */
    method ComputeBlameMapAsWritten(time: nat) returns (defined: bool, blameMap: map<Reason, real>, totalBlame: real)
      requires Valid() && lastEventTime <= time
      modifies this
      ensures defined <==> AsWritten(old(openEdges), time).Finished?
      ensures defined ==> Valid() && lastEventTime == time && accepted == old(accepted)
      ensures defined ==> openEdges == AsWritten(old(openEdges), time).kept
      ensures defined ==>
                forall r :: ValueAt(blameMap, r) ==
                            GivenSum(AsWritten(old(openEdges), time).visited, r, old(lastEventTime), time)
      ensures defined ==> forall r :: given(r) == old(given)(r) + ValueAt(blameMap, r)
      ensures defined ==>
                forall r :: missed(r) ==
                            old(missed)(r) +
                            MissedAsWritten(old(openEdges), |old(openEdges)|, r, old(lastEventTime), time)
      ensures totalBlame == Sum(blameMap)
    {
      ghost var (edges, last, g, m) := (openEdges, lastEventTime, given, missed);
      defined, openEdges, blameMap := VisitAsWritten(openEdges, lastEventTime, time);
      totalBlame := Sum(blameMap);
      if defined {
        AsWrittenOk(edges, last, time);
        lastEventTime := time;
        ghost var handed := blameMap;
        given := r => g(r) + ValueAt(handed, r);
        missed := r => m(r) + MissedAsWritten(edges, |edges|, r, last, time);
      }
    }

    /** After the event: the out-edges of its node that carry blame are opened. */
    method OpenOutEdges(outEdges: seq<OpenEdge>)
      requires Valid() && forall i :: 0 <= i < |outEdges| ==> EdgeOk(outEdges[i]) && outEdges[i].start == lastEventTime
      modifies this
      ensures Valid() && lastEventTime == old(lastEventTime) && openEdges == old(openEdges) + outEdges
      ensures given == old(given) && missed == old(missed)
      ensures forall r :: accepted(r) == old(accepted)(r) + Worth(outEdges, r)
    {
      ghost var o := accepted;
      forall r ensures Outstanding(openEdges + outEdges, r, lastEventTime) ==
          Outstanding(openEdges, r, lastEventTime) + Worth(outEdges, r) {
        OutstandingAppend(openEdges, outEdges, r, lastEventTime);
        OutstandingFresh(outEdges, r, lastEventTime);
      }
      openEdges := openEdges + outEdges;
      accepted := r => o(r) + Worth(outEdges, r);
    }
  }

  function ValueAt(m: map<Reason, real>, r: Reason): real { if r in m then m[r] else 0.0 }

  function Sum(m: map<Reason, real>): real {
    ValueAt(m, DeviceIdle) + ValueAt(m, WaitForDevice) + ValueAt(m, BlockingTransfer)
    + ValueAt(m, MpiCollective) + ValueAt(m, MpiLateSender) + ValueAt(m, MpiLateReceiver)
    + ValueAt(m, MpiLateSendRecv) + ValueAt(m, OmpBarrier) + ValueAt(m, Unclassified)
  }

  /** The sum takes in every reason once. */
  lemma {:induction false} SumTakesEach(m: map<Reason, real>, r: Reason, v: real)
    ensures Sum(map[]) == 0.0
    ensures Sum(m[r := v]) == Sum(m) - ValueAt(m, r) + v
  {
  }

  // The blame map with the parts of one edge added, for every reason the edge has.
  function AddAll(m: map<Reason, real>, e: OpenEdge, last: nat, time: nat): (m': map<Reason, real>)
    requires last <= time && Covers(e, time)
    ensures forall r :: ValueAt(m', r) == ValueAt(m, r) + Given(e, r, last, time)
  {
    map r | r in m.Keys + e.blame.Keys :: ValueAt(m, r) + Part(e, r, time - last)
  }

  // Blame of edges; an edge without duration cannot hand out any.
  function Worth(edges: seq<OpenEdge>, r: Reason): real {
    if edges == [] then 0.0
    else (if edges[0].duration > 0 then BlameOf(edges[0], r) else 0.0) + Worth(edges[1..], r)
  }

  // ----- Balance -----

  lemma {:induction false} PartAdds(e: OpenEdge, r: Reason, a: nat, b: nat)
    ensures Part(e, r, a) + Part(e, r, b) == Part(e, r, a + b)
  {
    if e.duration > 0 {
      ScaleAdds(BlameOf(e, r), a as real, b as real, e.duration as real);
    }
  }

  lemma {:induction false} PartWhole(e: OpenEdge, r: Reason)
    ensures e.duration > 0 ==> Part(e, r, e.duration) == BlameOf(e, r)
    ensures Part(e, r, 0) == 0.0
  {
    if e.duration > 0 {
      ScaleAdds(BlameOf(e, r), 0.0, e.duration as real, e.duration as real);
    }
  }

  // One event: what was outstanding is given, missed or still outstanding.
  lemma {:induction false} PassBalances(edges: seq<OpenEdge>, r: Reason, last: nat, time: nat)
    requires last <= time && forall i :: 0 <= i < |edges| ==> EdgeOk(edges[i]) && edges[i].start <= last
    ensures Outstanding(edges, r, last)
         == GivenAll(edges, r, last, time) + Missed(edges, r, last, time) + Outstanding(Remaining(edges, time), r, time)
  {
    if edges != [] {
      var e := edges[0];
      PassBalances(edges[1..], r, last, time);
      PartWhole(e, r);
      if time <= e.end { PartAdds(e, r, time - last, e.end - time); }
    }
  }

  lemma {:induction false} RemainingOk(edges: seq<OpenEdge>, time: nat)
    requires forall i :: 0 <= i < |edges| ==> EdgeOk(edges[i])
    ensures forall i :: 0 <= i < |Remaining(edges, time)| ==>
            EdgeOk(Remaining(edges, time)[i]) && Remaining(edges, time)[i].start <= time
  {
    if edges != [] { RemainingOk(edges[1..], time); }
  }

  lemma {:induction false} OutstandingAppend(a: seq<OpenEdge>, b: seq<OpenEdge>, r: Reason, last: nat)
    ensures Outstanding(a + b, r, last) == Outstanding(a, r, last) + Outstanding(b, r, last)
  {
    if a == [] {
      assert a + b == b;
    } else {
      assert (a + b)[1..] == a[1..] + b;
      OutstandingAppend(a[1..], b, r, last);
    }
  }

  lemma {:induction false} OutstandingFresh(edges: seq<OpenEdge>, r: Reason, last: nat)
    requires forall i :: 0 <= i < |edges| ==> EdgeOk(edges[i]) && edges[i].start == last
    ensures Outstanding(edges, r, last) == Worth(edges, r)
  {
    if edges != [] {
      PartWhole(edges[0], r);
      OutstandingFresh(edges[1..], r, last);
    }
  }

  // What an edge gives to the events at `times`, the first of which opened it.
  function SharesOver(e: OpenEdge, r: Reason, times: seq<nat>): real
    requires forall i, j :: 0 <= i < j < |times| ==> times[i] <= times[j]
  {
    if |times| < 2 then 0.0
    else SharesOver(e, r, times[..|times| - 1]) + Given(e, r, times[|times| - 2], times[|times| - 1])
  }

  lemma {:induction false} SharesSoFar(e: OpenEdge, r: Reason, times: seq<nat>)
    requires forall i, j :: 0 <= i < j < |times| ==> times[i] <= times[j]
    requires EdgeOk(e) && e.duration > 0 && |times| > 0 && times[0] == e.start && times[|times| - 1] <= e.end
    ensures SharesOver(e, r, times) == Part(e, r, times[|times| - 1] - e.start)
  {
    var n := |times| - 1;
    if n == 0 {
      PartWhole(e, r);
    } else {
      SharesSoFar(e, r, times[..n]);
      PartAdds(e, r, times[n - 1] - e.start, times[n] - times[n - 1]);
    }
  }

  /** Over the events from its start to its end node an edge hands out its whole blame, for
      every reason and however the events divide the time. */
  lemma {:induction false} EdgeHandedOut(e: OpenEdge, r: Reason, times: seq<nat>)
    requires forall i, j :: 0 <= i < j < |times| ==> times[i] <= times[j]
    requires EdgeOk(e) && e.duration > 0 && |times| > 0 && times[0] == e.start && times[|times| - 1] == e.end
    ensures SharesOver(e, r, times) == BlameOf(e, r)
  {
    SharesSoFar(e, r, times);
    PartWhole(e, r);
  }

  /** When no edge is open any more and no event came after the end of an open edge, all blame of
      the opened edges has been handed out, for every reason. */
  lemma {:induction false} FullyApportioned(s: StreamState, r: Reason)
    requires s.Valid() && s.openEdges == []
    ensures s.given(r) == s.accepted(r) <==> s.missed(r) == 0.0
  {
  }

  /** An event that no open edge ends before misses nothing. */
  lemma {:induction false} NothingMissed(edges: seq<OpenEdge>, r: Reason, last: nat, time: nat)
    requires last <= time && forall i :: 0 <= i < |edges| && edges[i].duration > 0 ==> time <= edges[i].end
    ensures Missed(edges, r, last, time) == 0.0
  {
    if edges != [] {
      assert forall i :: 0 < i < |edges| ==> edges[1..][i - 1] == edges[i];
      NothingMissed(edges[1..], r, last, time);
    }
  }

  // ----- Whole runs -----

  // An event of the stream, and the edges that its node opens.
  datatype Happening = Happening(time: nat, outEdges: seq<OpenEdge>)

  function TimeBefore(hs: seq<Happening>, n: nat): nat
    requires n <= |hs|
  {
    if n == 0 then 0 else hs[n - 1].time
  }

  // After the first `n` events: the open edges, and for a reason the blame that was opened, handed
  // out and dropped.
  function OpenAfter(hs: seq<Happening>, n: nat): seq<OpenEdge>
    requires n <= |hs|
  {
    if n == 0 then [] else Remaining(OpenAfter(hs, n - 1), hs[n - 1].time) + hs[n - 1].outEdges
  }

  predicate InOrder(hs: seq<Happening>) {
    && (forall i, j :: 0 <= i < j < |hs| ==> hs[i].time <= hs[j].time)
    && (forall i, k :: 0 <= i < |hs| && 0 <= k < |hs[i].outEdges| ==>
          EdgeOk(hs[i].outEdges[k]) && hs[i].outEdges[k].start == hs[i].time)
  }

  function Opened(hs: seq<Happening>, n: nat, r: Reason): real
    requires n <= |hs|
  {
    if n == 0 then 0.0 else Opened(hs, n - 1, r) + Worth(hs[n - 1].outEdges, r)
  }

  function HandedOut(hs: seq<Happening>, n: nat, r: Reason): real
    requires n <= |hs| && InOrder(hs)
  {
    if n == 0 then 0.0
    else HandedOut(hs, n - 1, r) + GivenAll(OpenAfter(hs, n - 1), r, TimeBefore(hs, n - 1), hs[n - 1].time)
  }

  function Dropped(hs: seq<Happening>, n: nat, r: Reason): real
    requires n <= |hs| && InOrder(hs)
  {
    if n == 0 then 0.0
    else Dropped(hs, n - 1, r) + Missed(OpenAfter(hs, n - 1), r, TimeBefore(hs, n - 1), hs[n - 1].time)
  }

  // An open edge ends after the last event.
  predicate StillOpen(e: OpenEdge, last: nat) { EdgeOk(e) && e.start <= last && (e.duration > 0 ==> last < e.end) }

  lemma {:induction false} RemainingOpen(edges: seq<OpenEdge>, time: nat)
    requires forall e :: e in edges ==> EdgeOk(e)
    ensures forall e :: e in Remaining(edges, time) ==> e in edges && StillOpen(e, time)
  {
    if edges != [] { RemainingOpen(edges[1..], time); }
  }

  lemma {:induction false} OpenEdges(hs: seq<Happening>, n: nat)
    requires n <= |hs| && InOrder(hs)
    ensures forall e :: e in OpenAfter(hs, n) ==> StillOpen(e, TimeBefore(hs, n))
    ensures forall e :: e in OpenAfter(hs, n) ==> exists i :: 0 <= i < n && e in hs[i].outEdges
  {
    if n > 0 {
      OpenEdges(hs, n - 1);
      RemainingOpen(OpenAfter(hs, n - 1), hs[n - 1].time);
      forall e | e in OpenAfter(hs, n) ensures exists i :: 0 <= i < n && e in hs[i].outEdges {
        if e in hs[n - 1].outEdges {
        } else {
          var i :| 0 <= i < n - 1 && e in hs[i].outEdges;
        }
      }
    }
  }

  lemma {:induction false} RunBalances(hs: seq<Happening>, n: nat, r: Reason)
    requires n <= |hs| && InOrder(hs)
    ensures Book(hs, n, r) == 0.0
  {
    if n > 0 {
      RunBalances(hs, n - 1, r);
      BookKept(hs, n, r);
    }
  }

  // The difference between both sides of the book.
  function Book(hs: seq<Happening>, n: nat, r: Reason): real
    requires n <= |hs| && InOrder(hs)
  {
    Opened(hs, n, r) - HandedOut(hs, n, r) - Dropped(hs, n, r) - Outstanding(OpenAfter(hs, n), r, TimeBefore(hs, n))
  }

  lemma {:induction false} BookKept(hs: seq<Happening>, n: nat, r: Reason)
    requires 0 < n <= |hs| && InOrder(hs)
    ensures Book(hs, n, r) == Book(hs, n - 1, r)
  {
    RunStep(hs, n, r);
    RunTotals(hs, n, r);
  }

  lemma {:induction false} RunTotals(hs: seq<Happening>, n: nat, r: Reason)
    requires 0 < n <= |hs| && InOrder(hs)
    ensures Opened(hs, n, r) == Opened(hs, n - 1, r) + Worth(hs[n - 1].outEdges, r)
    ensures HandedOut(hs, n, r) ==
            HandedOut(hs, n - 1, r) + GivenAll(OpenAfter(hs, n - 1), r, TimeBefore(hs, n - 1), hs[n - 1].time)
    ensures Dropped(hs, n, r) ==
            Dropped(hs, n - 1, r) + Missed(OpenAfter(hs, n - 1), r, TimeBefore(hs, n - 1), hs[n - 1].time)
  {
  }

  lemma {:induction false} RunStep(hs: seq<Happening>, n: nat, r: Reason)
    requires 0 < n <= |hs| && InOrder(hs)
    ensures var (before, last, h) := (OpenAfter(hs, n - 1), TimeBefore(hs, n - 1), hs[n - 1]);
            Outstanding(before, r, last) + Worth(h.outEdges, r) ==
            GivenAll(before, r, last, h.time) + Missed(before, r, last, h.time)
              + Outstanding(OpenAfter(hs, n), r, TimeBefore(hs, n))
  {
    OpenEdges(hs, n - 1);
    HappeningBalances(OpenAfter(hs, n - 1), hs[n - 1], r, TimeBefore(hs, n - 1));
  }

  lemma {:induction false} HappeningBalances(before: seq<OpenEdge>, h: Happening, r: Reason, last: nat)
    requires last <= h.time && forall e :: e in before ==> StillOpen(e, last)
    requires forall k :: 0 <= k < |h.outEdges| ==> EdgeOk(h.outEdges[k]) && h.outEdges[k].start == h.time
    ensures Outstanding(before, r, last) + Worth(h.outEdges, r) ==
            GivenAll(before, r, last, h.time) + Missed(before, r, last, h.time)
              + Outstanding(Remaining(before, h.time) + h.outEdges, r, h.time)
  {
    forall i | 0 <= i < |before| ensures EdgeOk(before[i]) && before[i].start <= last { assert before[i] in before; }
    PassBalances(before, r, last, h.time);
    OutstandingAppend(Remaining(before, h.time), h.outEdges, r, h.time);
    OutstandingFresh(h.outEdges, r, h.time);
  }

  // Every edge ends at some event of the stream.
  ghost predicate AllEnd(hs: seq<Happening>) {
    forall i, e :: 0 <= i < |hs| && e in hs[i].outEdges && e.duration > 0 ==> EndsAtEvent(hs, e)
  }

  predicate EndsAtEvent(hs: seq<Happening>, e: OpenEdge) { exists j :: 0 <= j < |hs| && hs[j].time == e.end }

  lemma {:induction false} EndsFromHere(hs: seq<Happening>, n: nat, e: OpenEdge)
    requires n <= |hs| && InOrder(hs) && AllEnd(hs) && e in OpenAfter(hs, n) && e.duration > 0
    ensures n < |hs| && hs[n].time <= e.end
  {
    OpenEdges(hs, n);
    var i :| 0 <= i < n && e in hs[i].outEdges;
    var j :| 0 <= j < |hs| && hs[j].time == e.end;
  }

  lemma {:induction false} NothingDropped(hs: seq<Happening>, n: nat, r: Reason)
    requires n <= |hs| && InOrder(hs) && AllEnd(hs)
    ensures Dropped(hs, n, r) == 0.0
  {
    if n > 0 {
      NothingDropped(hs, n - 1, r);
      var edges := OpenAfter(hs, n - 1);
      forall k | 0 <= k < |edges| && edges[k].duration > 0 ensures hs[n - 1].time <= edges[k].end {
        EndsFromHere(hs, n - 1, edges[k]);
      }
      NothingMissed(edges, r, TimeBefore(hs, n - 1), hs[n - 1].time);
    }
  }

  lemma {:induction false} NothingLeft(edges: seq<OpenEdge>, r: Reason, last: nat)
    requires forall e :: e in edges ==> e.duration == 0
    ensures Outstanding(edges, r, last) == 0.0
  {
    if edges != [] { NothingLeft(edges[1..], r, last); }
  }

  /** Over any run in which every edge ends at the time of a later event of the stream, nothing is
      dropped, and the events are handed exactly the blame of all edges, for every reason. */
  lemma {:induction false} AllHandedOut(hs: seq<Happening>, r: Reason)
    requires InOrder(hs) && AllEnd(hs)
    ensures Dropped(hs, |hs|, r) == 0.0 && HandedOut(hs, |hs|, r) == Opened(hs, |hs|, r)
  {
    NothingDropped(hs, |hs|, r);
    RunBalances(hs, |hs|, r);
    forall e | e in OpenAfter(hs, |hs|) ensures e.duration == 0 {
      if e.duration > 0 { EndsFromHere(hs, |hs|, e); }
    }
    NothingLeft(OpenAfter(hs, |hs|), r, TimeBefore(hs, |hs|));
  }

  // ----- The loop as written -----

  // The loop erases an edge that ends at the event, which makes the iterator point to the edge
  // behind it, and then advances once more.
  predicate Ends(e: OpenEdge, time: nat) { Covers(e, time) && e.end == time }

  // How many edges that end at the event stand directly in front of position `n`.
  function EndsInFront(edges: seq<OpenEdge>, n: nat, time: nat): (k: nat)
    requires n <= |edges|
    ensures k <= n && (k > 0 <==> n > 0 && Ends(edges[n - 1], time))
  {
    if n > 0 && Ends(edges[n - 1], time) then 1 + EndsInFront(edges, n - 1, time) else 0
  }

  // The loop passes over position `n`. At the end of the list it advances past the end, which is
  // undefined.
  predicate PassedOver(edges: seq<OpenEdge>, n: nat, time: nat)
    requires n <= |edges|
  {
    EndsInFront(edges, n, time) % 2 == 1
  }

  // Among the first `n` edges those that get a share, and those that stay open.
  function Visited(edges: seq<OpenEdge>, n: nat, time: nat): seq<OpenEdge>
    requires n <= |edges|
  {
    if n == 0 then []
    else if !PassedOver(edges, n - 1, time) && Covers(edges[n - 1], time)
        then Visited(edges, n - 1, time) + [edges[n - 1]]
    else Visited(edges, n - 1, time)
  }

  function Kept(edges: seq<OpenEdge>, n: nat, time: nat): seq<OpenEdge>
    requires n <= |edges|
  {
    if n == 0 then []
    else if PassedOver(edges, n - 1, time) || (Covers(edges[n - 1], time) && edges[n - 1].end != time)
    then Kept(edges, n - 1, time) + [edges[n - 1]]
    else Kept(edges, n - 1, time)
  }

  datatype Pass = Undefined | Finished(visited: seq<OpenEdge>, kept: seq<OpenEdge>)

  function AsWritten(edges: seq<OpenEdge>, time: nat): Pass {
    if PassedOver(edges, |edges|, time) then Undefined
    else Finished(Visited(edges, |edges|, time), Kept(edges, |edges|, time))
  }

  function GivenSum(edges: seq<OpenEdge>, r: Reason, last: nat, time: nat): real
    requires last <= time
  {
    if edges == [] then 0.0
    else GivenSum(edges[..|edges| - 1], r, last, time) + Given(edges[|edges| - 1], r, last, time)
  }

  // What the blame map holds after the visited edges have given their shares.
  ghost predicate Shares(m: map<Reason, real>, visited: seq<OpenEdge>, last: nat, time: nat)
    requires last <= time
  {
    forall r :: ValueAt(m, r) == GivenSum(visited, r, last, time)
  }

  lemma {:induction false} SharesMore(m: map<Reason, real>, visited: seq<OpenEdge>, e: OpenEdge, last: nat, time: nat)
    requires last <= time && Covers(e, time) && Shares(m, visited, last, time)
    ensures Shares(AddAll(m, e, last, time), visited + [e], last, time)
  {
    GivenMore(visited, e, last, time);
  }

  // The loop is at the first edge of `edges[n..]`, the list holds what was kept before it.
  ghost predicate AtPosition(edges: seq<OpenEdge>, n: nat, time: nat, list: seq<OpenEdge>, iter: nat) {
    n <= |edges| && !PassedOver(edges, n, time) && list == Kept(edges, n, time) + edges[n..]
        && iter == |Kept(edges, n, time)|
  }

  lemma {:induction false} EraseDropped(edges: seq<OpenEdge>, n: nat, time: nat, list: seq<OpenEdge>, iter: nat)
    requires AtPosition(edges, n, time, list, iter) && n < |edges| && !Covers(edges[n], time)
    ensures AtPosition(edges, n + 1, time, list[..iter] + list[iter + 1..], iter)
    ensures Visited(edges, n + 1, time) == Visited(edges, n, time)
  {
    AtHead(edges, n, time);
  }

  lemma {:induction false} AdvanceKept(edges: seq<OpenEdge>, n: nat, time: nat, list: seq<OpenEdge>, iter: nat)
    requires AtPosition(edges, n, time, list, iter) && n < |edges| && Covers(edges[n], time) && edges[n].end != time
    ensures AtPosition(edges, n + 1, time, list, iter + 1)
    ensures Visited(edges, n + 1, time) == Visited(edges, n, time) + [edges[n]]
  {
    AtHead(edges, n, time);
  }

  lemma {:induction false} EraseEnded(edges: seq<OpenEdge>, n: nat, time: nat, list: seq<OpenEdge>, iter: nat)
    requires AtPosition(edges, n, time, list, iter) && n < |edges| && Ends(edges[n], time)
    ensures |list| - 1 == iter <==> n + 1 == |edges|
    ensures n + 1 == |edges| ==> PassedOver(edges, |edges|, time)
    ensures n + 1 < |edges| ==>
              && AtPosition(edges, n + 2, time, list[..iter] + list[iter + 1..], iter + 1)
              && Visited(edges, n + 2, time) == Visited(edges, n, time) + [edges[n]]
  {
    AtHead(edges, n, time);
  }

  /** The loop over the list as it is written, with the iterator as a position. The result is not
      defined where the iterator is advanced past the end of the list. */
  method VisitAsWritten(edges: seq<OpenEdge>, last: nat, time: nat)
    returns (defined: bool, openEdges: seq<OpenEdge>, blameMap: map<Reason, real>)
    requires last <= time
    ensures defined <==> AsWritten(edges, time).Finished?
    ensures defined ==>
              && openEdges == AsWritten(edges, time).kept
              && Shares(blameMap, AsWritten(edges, time).visited, last, time)
  {
    openEdges, blameMap := edges, map[];
    var edgeIter := 0;
    ghost var n := 0;
    while edgeIter != |openEdges|
      invariant AtPosition(edges, n, time, openEdges, edgeIter) && Shares(blameMap, Visited(edges, n, time), last, time)
      decreases |edges| - n
    {
      var edge := openEdges[edgeIter];
      if Covers(edge, time) {
        SharesMore(blameMap, Visited(edges, n, time), edge, last, time);
        blameMap := AddAll(blameMap, edge, last, time);
        if edge.end == time {
          EraseEnded(edges, n, time, openEdges, edgeIter);
          openEdges := openEdges[..edgeIter] + openEdges[edgeIter + 1..];
          if edgeIter == |openEdges| { return false, openEdges, blameMap; }
          n := n + 1;
        } else {
          AdvanceKept(edges, n, time, openEdges, edgeIter);
        }
        edgeIter := edgeIter + 1;
      } else {
        EraseDropped(edges, n, time, openEdges, edgeIter);
        openEdges := openEdges[..edgeIter] + openEdges[edgeIter + 1..];
      }
      n := n + 1;
    }
    assert n == |edges|;
    return true, openEdges, blameMap;
  }

  // One round of the loop, which is never at an edge it passes over.
  lemma {:induction false} AtHead(edges: seq<OpenEdge>, n: nat, time: nat)
    requires n < |edges| && !PassedOver(edges, n, time)
    ensures PassedOver(edges, n + 1, time) <==> Ends(edges[n], time)
    ensures Visited(edges, n + 1, time) == if Covers(edges[n], time) then Visited(edges, n, time) + [edges[n]]
            else Visited(edges, n, time)
    ensures Kept(edges, n + 1, time) ==
            if Covers(edges[n], time) && edges[n].end != time then Kept(edges, n, time) + [edges[n]]
            else Kept(edges, n, time)
    ensures Ends(edges[n], time) && n + 1 < |edges| ==>
              && !PassedOver(edges, n + 2, time) && Visited(edges, n + 2, time) == Visited(edges, n + 1, time)
              && Kept(edges, n + 2, time) == Kept(edges, n + 1, time) + [edges[n + 1]]
  {
  }

  lemma {:induction false} GivenMore(edges: seq<OpenEdge>, e: OpenEdge, last: nat, time: nat)
    requires last <= time
    ensures forall r :: GivenSum(edges + [e], r, last, time) == GivenSum(edges, r, last, time) + Given(e, r, last, time)
  {
    assert (edges + [e])[..|edges|] == edges;
  }

  // ----- What the second advance costs -----

  // The edges that should get a share.
  function Covering(edges: seq<OpenEdge>, time: nat): seq<OpenEdge> {
    if edges == [] then []
    else if Covers(edges[0], time) then [edges[0]] + Covering(edges[1..], time)
    else Covering(edges[1..], time)
  }

  // What the loop is meant to do: GivenIsCovering says that this is one advance per edge.
  function Meant(edges: seq<OpenEdge>, time: nat): Pass { Finished(Covering(edges, time), Remaining(edges, time)) }

  lemma {:induction false} RemainingMore(edges: seq<OpenEdge>, e: OpenEdge, time: nat)
    ensures Remaining(edges + [e], time) == if Covers(e, time) && e.end != time then Remaining(edges, time) + [e]
            else Remaining(edges, time)
  {
    if edges != [] {
      assert (edges + [e])[1..] == edges[1..] + [e];
      RemainingMore(edges[1..], e, time);
    }
  }

  lemma {:induction false} CoveringMore(edges: seq<OpenEdge>, e: OpenEdge, time: nat)
    ensures Covering(edges + [e], time) == if Covers(e, time) then Covering(edges, time) + [e]
            else Covering(edges, time)
  {
    if edges != [] {
      assert (edges + [e])[1..] == edges[1..] + [e];
      CoveringMore(edges[1..], e, time);
    }
  }

  lemma {:induction false} GivenAllMore(edges: seq<OpenEdge>, e: OpenEdge, r: Reason, last: nat, time: nat)
    requires last <= time
    ensures GivenAll(edges + [e], r, last, time) == GivenAll(edges, r, last, time) + Given(e, r, last, time)
  {
    if edges != [] {
      assert (edges + [e])[1..] == edges[1..] + [e];
      GivenAllMore(edges[1..], e, r, last, time);
    }
  }

  /** With one advance per edge exactly the covering edges give their shares. */
  lemma {:induction false} GivenIsCovering(edges: seq<OpenEdge>, r: Reason, last: nat, time: nat)
    requires last <= time
    ensures GivenSum(Covering(edges, time), r, last, time) == GivenAll(edges, r, last, time)
  {
    if edges != [] {
      var n := |edges| - 1;
      assert edges == edges[..n] + [edges[n]];
      GivenIsCovering(edges[..n], r, last, time);
      GivenAllMore(edges[..n], edges[n], r, last, time);
      CoveringMore(edges[..n], edges[n], time);
      GivenMore(Covering(edges[..n], time), edges[n], last, time);
    }
  }

  // Shares of the edges that are passed over.
  function Skipped(edges: seq<OpenEdge>, n: nat, r: Reason, last: nat, time: nat): real
    requires n <= |edges| && last <= time
  {
    if n == 0 then 0.0
    else
      Skipped(edges, n - 1, r, last, time)
      + if PassedOver(edges, n - 1, time) then Given(edges[n - 1], r, last, time) else 0.0
  }

  lemma {:induction false} SkippedSoFar(edges: seq<OpenEdge>, n: nat, r: Reason, last: nat, time: nat)
    requires n <= |edges| && last <= time
    ensures GivenSum(Visited(edges, n, time), r, last, time) + Skipped(edges, n, r, last, time) ==
            GivenAll(edges[..n], r, last, time)
  {
    if n > 0 {
      SkippedSoFar(edges, n - 1, r, last, time);
      assert edges[..n] == edges[..n - 1] + [edges[n - 1]];
      GivenAllMore(edges[..n - 1], edges[n - 1], r, last, time);
      GivenMore(Visited(edges, n - 1, time), edges[n - 1], last, time);
    }
  }

  lemma {:induction false} Counts(edges: seq<OpenEdge>, n: nat, time: nat)
    requires n <= |edges|
    ensures |Visited(edges, n, time)| <= |Covering(edges[..n], time)|
    ensures |Remaining(edges[..n], time)| <= |Kept(edges, n, time)|
    ensures (forall i :: 0 <= i < n ==> !PassedOver(edges, i, time)) ==>
              Visited(edges, n, time) == Covering(edges[..n], time)
                  && Kept(edges, n, time) == Remaining(edges[..n], time)
    ensures |Visited(edges, n, time)| == |Covering(edges[..n], time)|
            && |Kept(edges, n, time)| == |Remaining(edges[..n], time)| ==>
              forall i :: 0 <= i < n ==> !PassedOver(edges, i, time)
  {
    if n > 0 {
      Counts(edges, n - 1, time);
      assert edges[..n][..n - 1] == edges[..n - 1];
      assert edges[..n] == edges[..n - 1] + [edges[n - 1]];
      RemainingMore(edges[..n - 1], edges[n - 1], time);
      CoveringMore(edges[..n - 1], edges[n - 1], time);
    }
  }

  lemma {:induction false} NonePassedOver(edges: seq<OpenEdge>, n: nat, time: nat)
    requires n <= |edges|
    ensures (forall i :: 0 <= i <= n ==> !PassedOver(edges, i, time)) <==>
            (forall i :: 0 <= i < n ==> !Ends(edges[i], time))
  {
    if n > 0 {
      NonePassedOver(edges, n - 1, time);
      if !PassedOver(edges, n - 1, time) { AtHead(edges, n - 1, time); }
    }
  }

  /** For any list of open edges the loop as written does what it is meant to do exactly if no edge
      ends at the event. */
  lemma {:induction false} AsWrittenExactly(edges: seq<OpenEdge>, time: nat)
    ensures AsWritten(edges, time) == Meant(edges, time) <==> forall i :: 0 <= i < |edges| ==> !Ends(edges[i], time)
  {
    Counts(edges, |edges|, time);
    assert edges[..|edges|] == edges;
    NonePassedOver(edges, |edges|, time);
  }

  /** It is undefined exactly if an odd number of edges that end at the event stand at the end of
      the list. */
  lemma {:induction false} UndefinedExactly(edges: seq<OpenEdge>, time: nat, k: nat)
    requires k <= |edges| && (forall i :: |edges| - k <= i < |edges| ==> Ends(edges[i], time))
    requires k < |edges| ==> !Ends(edges[|edges| - k - 1], time)
    ensures AsWritten(edges, time).Undefined? <==> k % 2 == 1
  {
    RunLength(edges, |edges|, time, k);
  }

  lemma {:induction false} RunLength(edges: seq<OpenEdge>, n: nat, time: nat, k: nat)
    requires k <= n <= |edges| && (forall i :: n - k <= i < n ==> Ends(edges[i], time))
    requires k < n ==> !Ends(edges[n - k - 1], time)
    ensures EndsInFront(edges, n, time) == k
  {
    if k > 0 { RunLength(edges, n - 1, time, k - 1); }
  }

  /** Where it is defined, an event gets too little by exactly the shares of the edges passed over. */
  lemma {:induction false} AsWrittenLoses(edges: seq<OpenEdge>, r: Reason, last: nat, time: nat)
    requires last <= time && AsWritten(edges, time).Finished?
    ensures GivenSum(AsWritten(edges, time).visited, r, last, time) ==
            GivenAll(edges, r, last, time) - Skipped(edges, |edges|, r, last, time)
  {
    SkippedSoFar(edges, |edges|, r, last, time);
    assert edges[..|edges|] == edges;
  }

  // What an edge has not handed out by time `last`.
  function Left(e: OpenEdge, r: Reason, last: nat): real { if last <= e.end then Part(e, r, e.end - last) else 0.0 }

  // Blame that an event makes unreachable: of edges dropped late, and of edges passed over.
  function MissedAsWritten(edges: seq<OpenEdge>, n: nat, r: Reason, last: nat, time: nat): real
    requires n <= |edges| && last <= time
  {
    if n == 0 then 0.0
    else
      var e := edges[n - 1];
      MissedAsWritten(edges, n - 1, r, last, time)
      + if PassedOver(edges, n - 1, time) then Left(e, r, last) - Left(e, r, time)
        else if last <= e.end < time then Left(e, r, last) else 0.0
  }

  lemma {:induction false} OutstandingMore(edges: seq<OpenEdge>, e: OpenEdge, r: Reason, last: nat)
    ensures Outstanding(edges + [e], r, last) == Outstanding(edges, r, last) + Left(e, r, last)
  {
    assert [e][1..] == [];
    OutstandingAppend(edges, [e], r, last);
  }

  // One edge: what it had left is given, missed or still left.
  lemma {:induction false} EdgeBalances(e: OpenEdge, r: Reason, last: nat, time: nat)
    requires EdgeOk(e) && e.start <= last <= time
    ensures Covers(e, time) && e.end != time ==> Left(e, r, last) == Given(e, r, last, time) + Left(e, r, time)
    ensures Covers(e, time) && e.end == time ==> Left(e, r, last) == Given(e, r, last, time)
    ensures !Covers(e, time) ==> Left(e, r, last) == if last <= e.end < time then Left(e, r, last) else 0.0
  {
    PartWhole(e, r);
    if time <= e.end { PartAdds(e, r, time - last, e.end - time); }
  }

  lemma {:induction false} AsWrittenBalances(edges: seq<OpenEdge>, n: nat, r: Reason, last: nat, time: nat)
    requires n <= |edges| && last <= time && forall i :: 0 <= i < |edges| ==> EdgeOk(edges[i]) && edges[i].start <= last
    ensures Outstanding(edges[..n], r, last) == GivenSum(Visited(edges, n, time), r, last, time)
              + MissedAsWritten(edges, n, r, last, time) + Outstanding(Kept(edges, n, time), r, time)
  {
    if n > 0 {
      var e := edges[n - 1];
      AsWrittenBalances(edges, n - 1, r, last, time);
      assert edges[..n] == edges[..n - 1] + [e];
      OutstandingMore(edges[..n - 1], e, r, last);
      OutstandingMore(Kept(edges, n - 1, time), e, r, time);
      GivenMore(Visited(edges, n - 1, time), e, last, time);
      EdgeBalances(e, r, last, time);
    }
  }

  lemma {:induction false} KeptOk(edges: seq<OpenEdge>, n: nat, time: nat)
    requires n <= |edges| && forall i :: 0 <= i < |edges| ==> EdgeOk(edges[i]) && edges[i].start <= time
    ensures forall i :: 0 <= i < |Kept(edges, n, time)| ==>
            EdgeOk(Kept(edges, n, time)[i]) && Kept(edges, n, time)[i].start <= time
  {
    if n > 0 { KeptOk(edges, n - 1, time); }
  }

  lemma {:induction false} AsWrittenOk(edges: seq<OpenEdge>, last: nat, time: nat)
    requires last <= time && forall i :: 0 <= i < |edges| ==> EdgeOk(edges[i]) && edges[i].start <= last
    requires AsWritten(edges, time).Finished?
    ensures var p := AsWritten(edges, time);
            && (forall i :: 0 <= i < |p.kept| ==> EdgeOk(p.kept[i]) && p.kept[i].start <= time)
            && (forall r :: Outstanding(edges, r, last) == GivenSum(p.visited, r, last, time)
                              + MissedAsWritten(edges, |edges|, r, last, time) + Outstanding(p.kept, r, time))
  {
    KeptOk(edges, |edges|, time);
    assert edges[..|edges|] == edges;
    forall r ensures Outstanding(edges, r, last) == GivenSum(Visited(edges, |edges|, time), r, last, time)
                       + MissedAsWritten(edges, |edges|, r, last, time)
                           + Outstanding(Kept(edges, |edges|, time), r, time) {
      AsWrittenBalances(edges, |edges|, r, last, time);
    }
  }

  /** An edge in front ends: the open edge behind it gets nothing at this event. */
  lemma {:induction false} EndsInFrontOf(b: OpenEdge, a: OpenEdge, time: nat)
    requires Ends(b, time) && Covers(a, time) && a.end != time
    ensures AsWritten([b, a], time) == Finished([b], [a]) && Meant([b, a], time) == Finished([b, a], [a])
  {
    var edges := [b, a];
    AtHead(edges, 0, time);
    assert edges == [b] + [a] && [a][1..] == [] && [b][1..] == [];
    Concatenated([b], [a], time);
  }

  /** The last edge ends behind an open one: the loop advances past the end of the list. */
  lemma {:induction false} EndsBehind(a: OpenEdge, b: OpenEdge, time: nat)
    requires Ends(b, time) && Covers(a, time) && a.end != time
    ensures AsWritten([a, b], time) == Undefined && Meant([a, b], time) == Finished([a, b], [a])
  {
    var edges := [a, b];
    AtHead(edges, 0, time);
    AtHead(edges, 1, time);
    assert edges == [a] + [b] && [a][1..] == [] && [b][1..] == [];
    Concatenated([a], [b], time);
  }

  // ----- Past the end of a ring -----

  // On a list that is a ring with the end between its last and first element, the undefined
  // advance starts over. `front` are the edges left behind in this round.
  function OnRing(front: seq<OpenEdge>, rest: seq<OpenEdge>, time: nat): (p: Pass)
    ensures p.Finished?
    decreases |front| + |rest|, |rest|
  {
    if rest == [] then Finished([], front)
    else
      var e := rest[0];
      if !Covers(e, time) then OnRing(front, rest[1..], time)
      else if e.end != time then
        var p := OnRing(front + [e], rest[1..], time); Finished([e] + p.visited, p.kept)
      else
        var p := if |rest| > 1 then OnRing(front + [rest[1]], rest[2..], time)
                 else if front == [] then Finished([], []) else OnRing([], front, time);
        Finished([e] + p.visited, p.kept)
  }

  lemma {:induction false} RingWithoutEnds(front: seq<OpenEdge>, rest: seq<OpenEdge>, time: nat)
    requires forall i :: 0 <= i < |rest| ==> !Ends(rest[i], time)
    ensures OnRing(front, rest, time) == Finished(Covering(rest, time), front + Remaining(rest, time))
    decreases |rest|
  {
    if rest != [] {
      var e := rest[0];
      assert forall i :: 0 < i < |rest| ==> rest[1..][i - 1] == rest[i];
      RingWithoutEnds(if Covers(e, time) then front + [e] else front, rest[1..], time);
    }
  }

  lemma {:induction false} RingSplit(front: seq<OpenEdge>, a: seq<OpenEdge>, rest: seq<OpenEdge>, time: nat)
    requires forall i :: 0 <= i < |a| ==> !Ends(a[i], time)
    ensures var p := OnRing(front + Remaining(a, time), rest, time);
            OnRing(front, a + rest, time) == Finished(Covering(a, time) + p.visited, p.kept)
    decreases |a|
  {
    if a == [] {
      assert a + rest == rest && front + [] == front;
    } else {
      var e := a[0];
      assert (a + rest)[1..] == a[1..] + rest;
      assert forall i :: 0 < i < |a| ==> a[1..][i - 1] == a[i];
      RingSplit(if Covers(e, time) then front + [e] else front, a[1..], rest, time);
      if Covers(e, time) { assert front + [e] + Remaining(a[1..], time) == front + Remaining(a, time); }
    }
  }

  lemma {:induction false} Concatenated(a: seq<OpenEdge>, b: seq<OpenEdge>, time: nat)
    ensures Covering(a + b, time) == Covering(a, time) + Covering(b, time)
    ensures Remaining(a + b, time) == Remaining(a, time) + Remaining(b, time)
  {
    if a == [] {
      assert a + b == b;
    } else {
      assert (a + b)[1..] == a[1..] + b;
      Concatenated(a[1..], b, time);
    }
  }

  lemma {:induction false} RemainingAgain(a: seq<OpenEdge>, time: nat)
    ensures forall i :: 0 <= i < |Remaining(a, time)| ==> !Ends(Remaining(a, time)[i], time)
    ensures Covering(Remaining(a, time), time) == Remaining(Remaining(a, time), time) == Remaining(a, time)
  {
    if a != [] {
      RemainingAgain(a[1..], time);
      assert ([a[0]] + Remaining(a[1..], time))[1..] == Remaining(a[1..], time);
    }
  }

  lemma {:induction false} RingLast(a: seq<OpenEdge>, e: OpenEdge, time: nat)
    requires Ends(e, time) && forall i :: 0 <= i < |a| ==> !Ends(a[i], time)
    ensures OnRing([], a + [e], time) == Finished(Covering(a, time) + ([e] + Remaining(a, time)), Remaining(a, time))
  {
    var kept := Remaining(a, time);
    RingSplit([], a, [e], time);
    assert [] + kept == kept;
    RemainingAgain(a, time);
    RingWithoutEnds([], kept, time);
  }

  lemma {:induction false} RingInFront(a: seq<OpenEdge>, e: OpenEdge, x: OpenEdge, b: seq<OpenEdge>, time: nat)
    requires Ends(e, time) && (forall i :: 0 <= i < |a| ==> !Ends(a[i], time))
    requires forall i :: 0 <= i < |b| ==> !Ends(b[i], time)
    ensures OnRing([], a + ([e, x] + b), time) ==
            Finished(Covering(a, time) + ([e] + Covering(b, time)), Remaining(a, time) + [x] + Remaining(b, time))
  {
    var kept := Remaining(a, time);
    RingSplit([], a, [e, x] + b, time);
    assert [] + kept == kept && ([e, x] + b)[2..] == b;
    RingWithoutEnds(kept + [x], b, time);
  }

  // Every covering edge gives its share once, and the edges that go on stay open.
  ghost predicate AsMeant(p: Pass, edges: seq<OpenEdge>, time: nat) {
    p.Finished? && multiset(p.visited) == multiset(Covering(edges, time)) && p.kept == Remaining(edges, time)
  }

  /** If one edge ends at the event, on a ring the result is as meant exactly if that edge is the last
      of the list and no edge stays open. */
  lemma {:induction false} RingOneEnds(a: seq<OpenEdge>, e: OpenEdge, b: seq<OpenEdge>, time: nat)
    requires Ends(e, time) && (forall i :: 0 <= i < |a| ==> !Ends(a[i], time))
    requires forall i :: 0 <= i < |b| ==> !Ends(b[i], time)
    ensures AsMeant(OnRing([], a + ([e] + b), time), a + ([e] + b), time) <==> b == [] && Remaining(a, time) == []
  {
    Concatenated(a, [e] + b, time);
    Concatenated([e], b, time);
    assert [e][1..] == [];
    if b == [] {
      assert [e] + b == [e];
      RingLast(a, e, time);
      assert |Covering(a, time) + ([e] + Remaining(a, time))| == |Covering(a, time) + [e]| + |Remaining(a, time)|;
    } else {
      assert [e] + b == [e, b[0]] + b[1..];
      assert forall i :: 0 < i < |b| ==> b[1..][i - 1] == b[i];
      RingInFront(a, e, b[0], b[1..], time);
    }
    SameSize(OnRing([], a + ([e] + b), time).visited, Covering(a + ([e] + b), time));
  }

  lemma {:induction false} SameSize(a: seq<OpenEdge>, b: seq<OpenEdge>)
    ensures multiset(a) == multiset(b) ==> |a| == |b|
  {
    assert |multiset(a)| == |a| && |multiset(b)| == |b|;
  }

  /** An open edge in front of the last one, which ends, gives its share twice on a ring. */
  lemma {:induction false} RingGivesTwice(a: OpenEdge, e: OpenEdge, time: nat)
    requires Ends(e, time) && Covers(a, time) && a.end != time
    ensures OnRing([], [a, e], time) == Finished([a, e, a], [a])
  {
    RingLast([a], e, time);
    assert [a] + [e] == [a, e] && [a][1..] == [];
    assert [a] + ([e] + [a]) == [a, e, a];
  }
}
