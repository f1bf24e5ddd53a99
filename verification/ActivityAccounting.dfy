/**
 The profile of program regions. For every event the trace writer charges the time since the
 last event of the stream to the region on top of that stream's activity stack
 (updateActivityGroupMap, end of processNextEvent).
 */
module ActivityAccounting {
  import opened MapSum

  type Region = nat
  type Location = nat

  datatype RecordType = Enter | Leave | Other

  // `onCP` is the decision of the writer whether the time up to this event is critical.
  datatype Event = Event(time: nat, region: Region, record: RecordType, onCP: bool)

  // The events of one stream, the latest one outermost.
  datatype History = Empty | Then(before: History, last: Event)

  function Now(h: History): nat { if h.Then? then h.last.time else 0 }

  // ----- Regions, independently of any stack -----

  function Size(h: History): nat { if h.Then? then Size(h.before) + 1 else 0 }

  // The first `n` events.
  function First(h: History, n: nat): (p: History)
    requires n <= Size(h)
    ensures Size(p) == n
  {
    if n == Size(h) then h else First(h.before, n)
  }

  // Enters minus leaves.
  function Depth(h: History): int {
    match h
    case Empty => 0
    case Then(before, e) => Depth(before) + if e.record.Enter? then 1 else if e.record.Leave? then -1 else 0
  }

  // Event `i` is the enter of `r`, and the depth has not been below its depth since.
  ghost predicate StillOpen(h: History, i: nat, r: Region) {
    && i < Size(h)
    && First(h, i + 1).last.record.Enter? && First(h, i + 1).last.region == r
    && forall j :: i < j <= Size(h) ==> Depth(First(h, i + 1)) <= Depth(First(h, j))
  }

  // The latest enter that is still open is one of `r`.
  ghost predicate Inner(h: History, r: Region) {
    exists i: nat :: StillOpen(h, i, r) && forall j: nat, q :: i < j ==> !StillOpen(h, j, q)
  }

  // Events in order of time, every leave closes a region.
  predicate WellNested(h: History) {
    h.Then? ==> WellNested(h.before) && Now(h.before) <= h.last.time && Depth(h) >= 0
  }

  // The events up to tick `x`.
  function Upto(h: History, x: nat): History {
    if h.Then? && x < h.last.time then Upto(h.before, x) else h
  }

  // ----- The activity stack -----

  function Nest(stack: seq<Region>, e: Event): seq<Region> {
    match e.record
    case Enter => stack + [e.region]
    case Leave => if stack == [] then [] else stack[..|stack| - 1]
    case Other => stack
  }

  // Open regions, innermost last.
  function Open(h: History): seq<Region> {
    match h case Empty => [] case Then(before, e) => Nest(Open(before), e)
  }

  predicate Innermost(stack: seq<Region>, r: Region) { stack != [] && stack[|stack| - 1] == r }

  lemma {:induction false} OpenNext(h: History, e: Event, i: nat, r: Region)
    requires i < Size(h)
    ensures StillOpen(Then(h, e), i, r) <==> StillOpen(h, i, r) && Depth(First(h, i + 1)) <= Depth(Then(h, e))
  {
    var all := Then(h, e);
    assert forall j: nat :: j <= Size(h) ==> First(all, j) == First(h, j);
    assert First(all, Size(all)) == all;
  }

  // Place `d` of the stack is taken by a region whose enter is still open at that depth.
  ghost predicate OnStack(h: History, d: nat, i: nat) {
    d < |Open(h)| && StillOpen(h, i, Open(h)[d]) && Depth(First(h, i + 1)) == d + 1
  }

  lemma {:induction false} StackHolds(h: History, d: nat) returns (i: nat)
    requires WellNested(h) && d < |Open(h)|
    ensures |Open(h)| == Depth(h) && OnStack(h, d, i)
  {
    StackDepth(h);
    StackDepth(h.before);
    if d < |Open(h.before)| && Open(h)[d] == Open(h.before)[d] {
      i := StackHolds(h.before, d);
      OpenNext(h.before, h.last, i, Open(h)[d]);
    } else {
      i := Size(h) - 1;
      assert First(h, i + 1) == h;
    }
  }

  lemma {:induction false} StackDepth(h: History)
    requires WellNested(h)
    ensures |Open(h)| == Depth(h)
  {
    if h.Then? { StackDepth(h.before); }
  }

  // An enter that is still open is on the stack, at its depth.
  lemma {:induction false} OpenIsOnStack(h: History, i: nat, r: Region)
    requires WellNested(h) && StillOpen(h, i, r)
    ensures 1 <= Depth(First(h, i + 1)) <= |Open(h)| && Open(h)[Depth(First(h, i + 1)) - 1] == r
  {
    StackDepth(h);
    StackDepth(h.before);
    if i < Size(h.before) {
      OpenNext(h.before, h.last, i, r);
      OpenIsOnStack(h.before, i, r);
    }
  }

  lemma {:induction false} DeeperLater(h: History, i: nat, q: Region, j: nat, r: Region)
    requires i < j && StillOpen(h, i, q) && StillOpen(h, j, r)
    ensures Depth(First(h, i + 1)) < Depth(First(h, j + 1))
  {
    PrefixStep(h, j);
  }

  lemma {:induction false} PrefixStep(h: History, j: nat)
    requires j < Size(h)
    ensures First(h, j + 1).Then? && First(h, j + 1).before == First(h, j)
  {
    if j + 1 < Size(h) { PrefixStep(h.before, j); }
  }

  /** The top of the stack is the region of the latest enter that is still open. */
  lemma {:induction false} TopIsInner(h: History, r: Region)
    requires WellNested(h)
    ensures Innermost(Open(h), r) <==> Inner(h, r)
    ensures Open(h) != [] <==> Depth(h) > 0
  {
    StackDepth(h);
    if Open(h) != [] {
      var i := StackHolds(h, |Open(h)| - 1);
      forall j: nat, q | i < j ensures !StillOpen(h, j, q) {
        if StillOpen(h, j, q) {
          DeeperLater(h, i, Open(h)[|Open(h)| - 1], j, q);
          OpenIsOnStack(h, j, q);
        }
      }
      if Inner(h, r) {
        var k: nat :| StillOpen(h, k, r) && forall j: nat, q :: k < j ==> !StillOpen(h, j, q);
        assert k == i;
      }
    } else if Inner(h, r) {
      var k: nat :| StillOpen(h, k, r);
      OpenIsOnStack(h, k, r);
    }
  }

  // ----- Ticks -----

  // The decision for the interval that contains tick `x`: that of the first event after it.
  predicate Critical(h: History, x: nat) {
    h.Then? && if x < Now(h.before) then Critical(h.before, x) else h.last.onCP
  }

  // Ticks before `hi` at which `r` is the innermost open region; with `cp` only critical ones.
  ghost function Exclusive(h: History, hi: nat, r: Region, cp: bool): nat {
    if hi == 0 then 0
    else Exclusive(h, hi - 1, r, cp)
         + if Inner(Upto(h, hi - 1), r) && (cp ==> Critical(h, hi - 1)) then 1 else 0
  }

  // Ticks before `hi` at which any region is open.
  function Inside(h: History, hi: nat): nat {
    if hi == 0 then 0 else Inside(h, hi - 1) + if Depth(Upto(h, hi - 1)) > 0 then 1 else 0
  }

  // Sum of the durations of outermost regions: their leave times minus their enter times.
  function Outermost(h: History): int {
    match h
    case Empty => 0
    case Then(before, e) =>
      Outermost(before)
      - (if e.record.Enter? && Depth(before) == 0 then e.time else 0)
      + (if e.record.Leave? && Depth(before) == 1 then e.time else 0)
  }

  // ----- Ticks and events -----

  // An event does not change the ticks before its predecessor.
  lemma {:induction false} TicksKept(h: History, e: Event, hi: nat, r: Region, cp: bool)
    requires hi <= Now(h) <= e.time
    ensures Exclusive(Then(h, e), hi, r, cp) == Exclusive(h, hi, r, cp)
    ensures Inside(Then(h, e), hi) == Inside(h, hi)
    decreases hi
  {
    if hi > 0 { TicksKept(h, e, hi - 1, r, cp); }
  }

  // Between an event and its predecessor nothing opens or closes.
  lemma {:induction false} TicksPass(h: History, e: Event, hi: nat, r: Region, cp: bool)
    requires WellNested(Then(h, e)) && Now(h) <= hi <= e.time
    ensures Exclusive(Then(h, e), hi, r, cp) == Exclusive(h, Now(h), r, cp)
              + if Inner(h, r) && (cp ==> e.onCP) then hi - Now(h) else 0
    ensures Inside(Then(h, e), hi) == Inside(h, Now(h)) + if Depth(h) > 0 then hi - Now(h) else 0
    decreases hi
  {
    if hi > Now(h) {
      TicksPass(h, e, hi - 1, r, cp);
      assert Upto(Then(h, e), hi - 1) == h;
    } else {
      TicksKept(h, e, hi, r, cp);
    }
  }

  /** The time inside regions is the sum of the outermost durations; an outermost region still
      open counts up to now. */
  lemma {:induction false} InsideIsOutermost(h: History)
    requires WellNested(h)
    ensures Inside(h, Now(h)) == Outermost(h) + if Depth(h) > 0 then Now(h) else 0
  {
    if h.Then? {
      InsideIsOutermost(h.before);
      TicksPass(h.before, h.last, Now(h), 0, false);
    }
  }

  // ----- All streams -----

  ghost function ExclusiveOf(hs: map<Location, History>, r: Region, cp: bool): map<Location, nat> {
    map l | l in hs :: Exclusive(hs[l], Now(hs[l]), r, cp)
  }

  ghost function InsideOf(hs: map<Location, History>): map<Location, nat> {
    map l | l in hs :: Inside(hs[l], Now(hs[l]))
  }

  datatype Status = Status(activityStack: seq<Region>, lastEventTime: nat)

  ghost predicate StreamsOk(status: map<Location, Status>, hs: map<Location, History>) {
    && status.Keys == hs.Keys
    && forall l :: l in hs ==>
         && WellNested(hs[l]) && status[l].activityStack == Open(hs[l])
         && (hs[l].Then? ==> status[l].lastEventTime == Now(hs[l]))
  }

  lemma {:induction false} StreamsOkNext(status: map<Location, Status>, hs: map<Location, History>, l: Location,
                                         e: Event)
    requires StreamsOk(status, hs) && l in hs && WellNested(Then(hs[l], e))
    ensures StreamsOk(status[l := Status(Nest(status[l].activityStack, e), e.time)], hs[l := Then(hs[l], e)])
  {
  }

  // Add to the entry of a region, which is created if needed.
  function Charge(m: map<Region, nat>, r: Region, time: nat): map<Region, nat> {
    m[r := At(m, r) + time]
  }

  lemma {:induction false} ChargeSum(m: map<Region, nat>, r: Region, time: nat)
    ensures Sum(Charge(m, r, time)) == Sum(m) + time
    ensures forall x :: At(Charge(m, r, time), x) == At(m, x) + if x == r then time else 0
  {
    SumUpdate(m, r, At(m, r) + time);
  }

  // One of the two sums per region after an event: the region of the event has an entry, and the
  // innermost open region gets the time.
  function Accounted(m: map<Region, nat>, stack: seq<Region>, e: Event, time: nat): map<Region, nat> {
    var m' := if e.region in m then m else Charge(m, e.region, 0);
    if stack == [] then m' else Charge(m', stack[|stack| - 1], time)
  }

  lemma {:induction false} AccountedSum(m: map<Region, nat>, stack: seq<Region>, e: Event, time: nat)
    ensures Sum(Accounted(m, stack, e, time)) == Sum(m) + if stack == [] then 0 else time
    ensures forall x :: At(Accounted(m, stack, e, time), x) == At(m, x) + if Innermost(stack, x) then time else 0
  {
    ChargeSum(m, e.region, 0);
    var m' := if e.region in m then m else Charge(m, e.region, 0);
    if stack != [] { ChargeSum(m', stack[|stack| - 1], time); }
  }

  // Every region has exactly the time (and the critical time) in which it was innermost on some
  // stream, and all regions together have the time the streams spent inside any region.
  ghost predicate LedgerOk(total: map<Region, nat>, onCP: map<Region, nat>, hs: map<Location, History>) {
    && (forall r :: At(total, r) == Sum(ExclusiveOf(hs, r, false)) && At(onCP, r) == Sum(ExclusiveOf(hs, r, true)))
    && Sum(total) == Sum(InsideOf(hs))
  }

  lemma {:induction false} ExclusiveNext(hs: map<Location, History>, l: Location, e: Event, r: Region, cp: bool)
    requires l in hs && WellNested(Then(hs[l], e))
    ensures Sum(ExclusiveOf(hs[l := Then(hs[l], e)], r, cp)) == Sum(ExclusiveOf(hs, r, cp))
              + if Innermost(Open(hs[l]), r) && (cp ==> e.onCP) then e.time - Now(hs[l]) else 0
  {
    var h := Then(hs[l], e);
    TicksPass(hs[l], e, e.time, r, cp);
    TopIsInner(hs[l], r);
    SumUpdate(ExclusiveOf(hs, r, cp), l, Exclusive(h, e.time, r, cp));
    assert ExclusiveOf(hs[l := h], r, cp) == ExclusiveOf(hs, r, cp)[l := Exclusive(h, e.time, r, cp)];
  }

  lemma {:induction false} InsideNext(hs: map<Location, History>, l: Location, e: Event)
    requires l in hs && WellNested(Then(hs[l], e))
    ensures Sum(InsideOf(hs[l := Then(hs[l], e)])) == Sum(InsideOf(hs))
              + if Open(hs[l]) != [] then e.time - Now(hs[l]) else 0
  {
    var h := Then(hs[l], e);
    TicksPass(hs[l], e, e.time, 0, false);
    StackDepth(hs[l]);
    SumUpdate(InsideOf(hs), l, Inside(h, e.time));
    assert InsideOf(hs[l := h]) == InsideOf(hs)[l := Inside(h, e.time)];
  }

  // Charging the innermost region with the time since the last event keeps the ledger right.
  lemma {:induction false} LedgerNext(total: map<Region, nat>, onCP: map<Region, nat>, hs: map<Location, History>,
                                      l: Location, e: Event, time: nat)
    requires LedgerOk(total, onCP, hs) && l in hs && WellNested(Then(hs[l], e))
    requires time == if Open(hs[l]) == [] then 0 else e.time - Now(hs[l])
    ensures LedgerOk(Accounted(total, Open(hs[l]), e, time),
                     Accounted(onCP, Open(hs[l]), e, if e.onCP then time else 0), hs[l := Then(hs[l], e)])
  {
    EntriesNext(total, hs, l, e, time, false);
    EntriesNext(onCP, hs, l, e, if e.onCP then time else 0, true);
    SumNext(total, hs, l, e, time);
  }

  lemma {:induction false} SumNext(total: map<Region, nat>, hs: map<Location, History>, l: Location, e: Event,
                                   time: nat)
    requires Sum(total) == Sum(InsideOf(hs)) && l in hs && WellNested(Then(hs[l], e))
    requires time == if Open(hs[l]) == [] then 0 else e.time - Now(hs[l])
    ensures Sum(Accounted(total, Open(hs[l]), e, time)) == Sum(InsideOf(hs[l := Then(hs[l], e)]))
  {
    AccountedSum(total, Open(hs[l]), e, time);
    InsideNext(hs, l, e);
  }

  lemma {:induction false} EntriesNext(m: map<Region, nat>, hs: map<Location, History>, l: Location, e: Event,
                                       time: nat, cp: bool)
    requires (forall r :: At(m, r) == Sum(ExclusiveOf(hs, r, cp))) && l in hs && WellNested(Then(hs[l], e))
    requires time == if Open(hs[l]) == [] || (cp && !e.onCP) then 0 else e.time - Now(hs[l])
    ensures forall r :: At(Accounted(m, Open(hs[l]), e, time), r) == Sum(ExclusiveOf(hs[l := Then(hs[l], e)], r, cp))
  {
    AccountedSum(m, Open(hs[l]), e, time);
    forall r ensures At(Accounted(m, Open(hs[l]), e, time), r) == Sum(ExclusiveOf(hs[l := Then(hs[l], e)], r, cp)) {
      ExclusiveNext(hs, l, e, r, cp);
    }
  }

  class Profile {
    var totalDuration: map<Region, nat>
    var totalDurationOnCP: map<Region, nat>
    var streamStatus: map<Location, Status>
    ghost var histories: map<Location, History>

    ghost predicate Valid()
      reads this
    {
      StreamsOk(streamStatus, histories) && LedgerOk(totalDuration, totalDurationOnCP, histories)
    }

    constructor (locations: set<Location>)
      ensures Valid() && histories == map l | l in locations :: Empty
    {
      totalDuration, totalDurationOnCP := map[], map[];
      streamStatus := map l | l in locations :: Status([], 0);
      histories := map l | l in locations :: Empty;
      new;
      forall r, cp { NothingSpent(ExclusiveOf(histories, r, cp)); }
      NothingSpent(InsideOf(histories));
    }

    method ProcessEvent(location: Location, e: Event)
      requires Valid() && location in streamStatus
      requires WellNested(Then(histories[location], e))
      modifies this
      ensures Valid() && histories == old(histories)[location := Then(old(histories)[location], e)]
      ensures e.region in totalDuration && e.region in totalDurationOnCP
    {
      var status := streamStatus[location];
      StreamsOkNext(streamStatus, histories, location, e);
      ghost var timeDiff := if status.activityStack == [] then 0 else e.time - status.lastEventTime;
      LedgerNext(totalDuration, totalDurationOnCP, histories, location, e, timeDiff);
      ghost var total := Accounted(totalDuration, status.activityStack, e, timeDiff);
      ghost var onCP := Accounted(totalDurationOnCP, status.activityStack, e, if e.onCP then timeDiff else 0);
      CreateGroup(e.region);
      if status.activityStack != [] {
        ChargeTop(status.activityStack[|status.activityStack| - 1], e.time - status.lastEventTime, e.onCP);
      }
      assert totalDuration == total && totalDurationOnCP == onCP;
      streamStatus := streamStatus[location := Status(Nest(status.activityStack, e), e.time)];
      histories := histories[location := Then(histories[location], e)];
    }

    method CreateGroup(region: Region)
      modifies this`totalDuration, this`totalDurationOnCP
      ensures totalDuration == if region in old(totalDuration) then old(totalDuration)
              else Charge(old(totalDuration), region, 0)
      ensures totalDurationOnCP == if region in old(totalDurationOnCP) then old(totalDurationOnCP)
              else Charge(old(totalDurationOnCP), region, 0)
    {
      if region !in totalDuration {
        totalDuration := totalDuration[region := 0];
      }
      if region !in totalDurationOnCP {
        totalDurationOnCP := totalDurationOnCP[region := 0];
      }
    }

    method ChargeTop(region: Region, timeDiff: nat, onCP: bool)
      modifies this`totalDuration, this`totalDurationOnCP
      ensures totalDuration == Charge(old(totalDuration), region, timeDiff)
      ensures totalDurationOnCP == Charge(old(totalDurationOnCP), region, if onCP then timeDiff else 0)
    {
      totalDuration := Charge(totalDuration, region, timeDiff);
      totalDurationOnCP := Charge(totalDurationOnCP, region, if onCP then timeDiff else 0);
    }
  }

  lemma {:induction false} NothingSpent(m: map<Location, nat>)
    requires forall l :: l in m ==> m[l] == 0
    ensures Sum(m) == 0
    decreases |m|
  {
    if m != map[] {
      var l :| l in m;
      SumWithout(m, l);
      NothingSpent(m - {l});
    }
  }

  // ----- What the profile adds up to -----

  ghost function OutermostOf(hs: map<Location, History>): map<Location, nat>
    requires forall l :: l in hs ==> WellNested(hs[l]) && Depth(hs[l]) == 0
  {
    assert forall l :: l in hs ==> Outermost(hs[l]) >= 0 by { forall l | l in hs { InsideIsOutermost(hs[l]); } }
    map l | l in hs :: Outermost(hs[l]) as nat
  }

  /** When all regions are closed, the durations of all regions add up to the durations of the
      outermost regions of all streams. */
  lemma {:induction false} DurationsAddUp(p: Profile)
    requires p.Valid() && forall l :: l in p.histories ==> Depth(p.histories[l]) == 0
    ensures Sum(p.totalDuration) == Sum(OutermostOf(p.histories))
  {
    forall l | l in p.histories { InsideIsOutermost(p.histories[l]); }
    assert OutermostOf(p.histories) == InsideOf(p.histories);
  }

  lemma {:induction false} CriticalPart(h: History, hi: nat, r: Region)
    ensures Exclusive(h, hi, r, true) <= Exclusive(h, hi, r, false)
  {
    if hi > 0 { CriticalPart(h, hi - 1, r); }
  }

  /** No region is longer on the critical path than it is at all. */
  lemma {:induction false} CriticalDurationBounded(p: Profile, r: Region)
    requires p.Valid()
    ensures At(p.totalDurationOnCP, r) <= At(p.totalDuration, r)
  {
    forall l | l in p.histories { CriticalPart(p.histories[l], Now(p.histories[l]), r); }
    SumMonotone(ExclusiveOf(p.histories, r, true), ExclusiveOf(p.histories, r, false));
  }
}
