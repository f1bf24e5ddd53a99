/**
 Device idle, compute-idle and transfer time. The trace writer accumulates them with reference
 counters while it reads device task events (handleDeviceTaskEnter, handleDeviceTaskLeave,
 handleFinalDeviceIdleLeave). Here each of them is proved equal to the number of clock ticks
 at which its condition holds.
 */
module DeviceOccupancy {

  datatype Task = Compute | Transfer

  // An API event of a wrapper region counts for the end of offloading, any other does not.
  datatype Event = Api(time: nat, wrapper: bool) | TaskEnter(time: nat, task: Task) | TaskLeave(time: nat, task: Task)

  // The events read so far, the latest one outermost.
  datatype History = Empty | Then(before: History, last: Event)

  function Change(e: Event, task: Task): int {
    if e.TaskEnter? && e.task == task then 1 else if e.TaskLeave? && e.task == task then -1 else 0
  }

  // Tasks of one kind that run during tick `x`: entered by then and not yet left.
  function Active(h: History, task: Task, x: nat): int {
    match h
    case Empty => 0
    case Then(before, e) => Active(before, task, x) + if e.time <= x then Change(e, task) else 0
  }

  function Running(h: History, task: Task): int {
    match h
    case Empty => 0
    case Then(before, e) => Running(before, task) + Change(e, task)
  }

  datatype Condition = NoTask | NoCompute | SomeTransfer | TransferOnly | TransferAndCompute

  predicate Holds(compute: int, transfer: int, c: Condition) {
    match c
    case NoTask => compute + transfer == 0
    case NoCompute => compute == 0
    case SomeTransfer => transfer > 0
    case TransferOnly => compute == 0 && transfer > 0
    case TransferAndCompute => compute > 0 && transfer > 0
  }

  predicate HoldsAt(h: History, x: nat, c: Condition) {
    Holds(Active(h, Compute, x), Active(h, Transfer, x), c)
  }

  // Number of ticks x with lo <= x < hi at which the condition holds.
  function Ticks(h: History, lo: nat, hi: nat, c: Condition): nat {
    if hi <= lo then 0 else Ticks(h, lo, hi - 1, c) + if HoldsAt(h, hi - 1, c) then 1 else 0
  }

  // Events in order of time, starting with an API event; a task leaves only if it runs.
  predicate Legal(h: History) {
    h.Then? ==>
      && Legal(h.before)
      && (if h.before.Empty? then h.last.Api? else Now(h.before) <= h.last.time)
      && Running(h, Compute) >= 0 && Running(h, Transfer) >= 0
  }

  function First(h: History): nat
    requires h.Then?
  {
    if h.before.Empty? then h.last.time else First(h.before)
  }

  function Now(h: History): nat
    requires h.Then?
  {
    h.last.time
  }

  // ----- Ticks and events -----

  lemma {:induction false} ActiveAfter(h: History, task: Task, x: nat)
    requires Legal(h) && (h.Then? ==> Now(h) <= x)
    ensures Active(h, task, x) == Running(h, task)
  {
    if h.Then? { ActiveAfter(h.before, task, x); }
  }

  lemma {:induction false} ActiveNonNegative(h: History, task: Task, x: nat)
    requires Legal(h)
    ensures Active(h, task, x) >= 0
  {
    if h.Then? {
      if Now(h) <= x { ActiveAfter(h, task, x); } else { ActiveNonNegative(h.before, task, x); }
    }
  }

  // Between two events the counts do not change.
  lemma {:induction false} TicksPass(h: History, lo: nat, hi: nat, c: Condition)
    requires Legal(h) && h.Then? && lo <= Now(h) <= hi
    ensures Ticks(h, lo, hi, c) == Ticks(h, lo, Now(h), c)
              + if Holds(Running(h, Compute), Running(h, Transfer), c) then hi - Now(h) else 0
    decreases hi
  {
    if hi > Now(h) {
      TicksPass(h, lo, hi - 1, c);
      ActiveAfter(h, Compute, hi - 1);
      ActiveAfter(h, Transfer, hi - 1);
    }
  }

  // An event does not change the past.
  lemma {:induction false} TicksKept(h: History, e: Event, lo: nat, hi: nat, c: Condition)
    requires hi <= e.time
    ensures Ticks(Then(h, e), lo, hi, c) == Ticks(h, lo, hi, c)
    decreases hi
  {
    if hi > lo {
      TicksKept(h, e, lo, hi - 1, c);
    }
  }

  predicate HoldsNow(h: History, c: Condition) { Holds(Running(h, Compute), Running(h, Transfer), c) }

  // When the condition last began to hold; zero if it never did.
  function Since(h: History, c: Condition): nat {
    if h.Empty? then 0
    else if HoldsNow(h, c) && (h.before.Empty? || !HoldsNow(h.before, c)) then h.last.time
    else Since(h.before, c)
  }

  // The intervals with the condition that have ended.
  function Closed(h: History, c: Condition): int {
    if h.Empty? || h.before.Empty? then 0
    else Closed(h.before, c) + if HoldsNow(h.before, c) && !HoldsNow(h, c) then h.last.time - Since(h.before, c) else 0
  }

  // The last event that counts for the end of offloading; zero if there was none.
  function Mark(h: History): nat {
    if h.Empty? then 0 else if h.last.Api? && !h.last.wrapper then Mark(h.before) else h.last.time
  }

  lemma {:induction false} SinceBefore(h: History, c: Condition)
    requires Legal(h) && h.Then?
    ensures Since(h, c) <= Now(h) && Mark(h) <= Now(h) && First(h) <= Now(h)
    ensures HoldsNow(h, c) ==> First(h) <= Since(h, c)
  {
    if h.before.Then? { SinceBefore(h.before, c); }
  }

  /** What the intervals add up to, with the one still open, is the number of ticks at which the
      condition held. */
  lemma {:induction false} IntervalsAreTicks(h: History, c: Condition)
    requires Legal(h) && h.Then?
    ensures Closed(h, c) + (if HoldsNow(h, c) then Now(h) - Since(h, c) else 0) == Ticks(h, First(h), Now(h), c)
  {
    if h.before.Then? {
      IntervalsAreTicks(h.before, c);
      SinceBefore(h.before, c);
      TicksKept(h.before, h.last, First(h), Now(h), c);
      TicksPass(h.before, First(h), Now(h), c);
    }
  }

  // After the mark no task began or ended.
  lemma {:induction false} TicksAfterMark(h: History, c: Condition)
    requires Legal(h) && h.Then? && Mark(h) > 0
    ensures First(h) <= Mark(h)
    ensures Ticks(h, First(h), Now(h), c) == Ticks(h, First(h), Mark(h), c)
            + if HoldsNow(h, c) then Now(h) - Mark(h) else 0
    ensures Since(h, c) <= Mark(h)
  {
    SinceBefore(h, c);
    if Mark(h) != Now(h) {
      var b := h.before;
      assert h.last.Api? && !h.last.wrapper;
      TicksAfterMark(b, c);
      SinceBefore(b, c);
      TicksKept(b, h.last, First(h), Now(h), c);
      TicksPass(b, First(h), Now(h), c);
      TicksKept(b, h.last, First(h), Mark(h), c);
    }
  }

  lemma {:induction false} NothingBeforeMark(h: History, c: Condition)
    requires Legal(h) && h.Then? && Mark(h) == 0
    ensures Closed(h, c) == 0 && (!HoldsNow(h, c) ==> Since(h, c) == 0) && (c.SomeTransfer? ==> Since(h, c) == 0)
  {
    if h.before.Then? {
      SinceBefore(h.before, c);
      NothingBeforeMark(h.before, c);
    }
    CountsNext(h.before, h.last);
  }

  // ----- The statistics at the end -----

  // The idle intervals are closed at the mark, whether they are open or not.
  function FinalIdle(h: History, c: Condition): int { Closed(h, c) + if Mark(h) == 0 then 0 else Mark(h) - Since(h, c) }

  // The transfer statistic is left as it is.
  function FinalTransfer(h: History): int { Closed(h, SomeTransfer) }

  // From the first event to the mark.
  function Measured(h: History, c: Condition): nat
    requires h.Then?
  {
    Ticks(h, First(h), Mark(h), c)
  }

  // What the final idle leave adds to the statistic of a condition that does not hold.
  function Surplus(h: History, c: Condition): int { if HoldsNow(h, c) then 0 else Mark(h) - Since(h, c) }

  // What the transfer statistic lacks while a transfer runs.
  function Loss(h: History): int { if Running(h, Transfer) > 0 then Mark(h) - Since(h, SomeTransfer) else 0 }

  /** The idle statistics are the ticks without any task, or without kernel, plus the surplus. They
      are right exactly if the device is idle at the end, or the last idle interval began at the
      mark. */
  lemma {:induction false} FinalIdleExactly(h: History, c: Condition)
    requires Legal(h) && h.Then? && (c == NoTask || c == NoCompute)
    ensures FinalIdle(h, c) == Measured(h, c) + Surplus(h, c) && Surplus(h, c) >= 0
    ensures FinalIdle(h, c) == Measured(h, c) <==> HoldsNow(h, c) || Since(h, c) == Mark(h)
  {
    if Mark(h) == 0 {
      NothingBeforeMark(h, c);
    } else {
      IntervalsAreTicks(h, c);
      TicksAfterMark(h, c);
    }
  }

  /** The transfer statistic is right exactly if no transfer runs at the end, or the first of them
      began at the mark. */
  lemma {:induction false} FinalTransferExactly(h: History)
    requires Legal(h) && h.Then?
    ensures FinalTransfer(h) == Measured(h, SomeTransfer) - Loss(h) && Loss(h) >= 0
    ensures FinalTransfer(h) == Measured(h, SomeTransfer) <==>
            Running(h, Transfer) == 0 || Since(h, SomeTransfer) == Mark(h)
  {
    if Mark(h) == 0 {
      NothingBeforeMark(h, SomeTransfer);
    } else {
      IntervalsAreTicks(h, SomeTransfer);
      TicksAfterMark(h, SomeTransfer);
    }
  }

  // ----- The trace writer's counters -----

  // The fields of the writer, and the statistics it has accumulated.
  datatype Counters = Counters(refCount: int, computeRefCount: int,
                               idleStart: nat, computeIdleStart: nat, transferStart: nat,
                               firstApi: nat, lastApi: nat, idle: int, computeIdle: int, transfer: int)

  const NEVER := 0xFFFF_FFFF_FFFF_FFFF

  function Fresh(): Counters { Counters(-1, -1, 0, 0, 0, NEVER, 0, 0, 0, 0) }

  function ReadEnter(s: Counters, time: nat, isCompute: bool): Counters {
    var n := if s.refCount == 0 then 1 else s.refCount + 1;
    var k := if !isCompute then s.computeRefCount else if s.computeRefCount == 0 then 1 else s.computeRefCount + 1;
    s.(refCount := n, computeRefCount := k, lastApi := time,
       idle := if s.refCount == 0 then s.idle + time - s.idleStart else s.idle,
       computeIdle := if isCompute && s.computeRefCount == 0 then s.computeIdle + time - s.computeIdleStart
           else s.computeIdle,
       transferStart := if !isCompute && n - k == 1 then time else s.transferStart)
  }

  function ReadLeave(s: Counters, time: nat, isCompute: bool): Counters {
    var k := if isCompute then s.computeRefCount - 1 else s.computeRefCount;
    s.(refCount := s.refCount - 1, computeRefCount := k, lastApi := time,
       idleStart := if s.refCount == 1 then time else s.idleStart,
       computeIdleStart := if isCompute && k == 0 then time else s.computeIdleStart,
       transfer := if !isCompute && s.refCount - k == 1 then s.transfer + time - s.transferStart else s.transfer)
  }

  function Read(s: Counters, e: Event): Counters {
    match e
    case Api(time, wrapper) =>
      var started := if s.refCount < 0
                     then s.(refCount := 0, computeRefCount := 0, idleStart := time, computeIdleStart := time,
                             firstApi := time)
                     else s;
      if wrapper then started.(lastApi := time) else started
    case TaskEnter(time, task) => ReadEnter(s, time, task.Compute?)
    case TaskLeave(time, task) => ReadLeave(s, time, task.Compute?)
  }

  function After(h: History): Counters {
    if h.Empty? then Fresh() else Read(After(h.before), h.last)
  }

  // What the counters mean.
  predicate Means(h: History, s: Counters) {
    && s.refCount == (if h.Empty? then -1 else Running(h, Compute) + Running(h, Transfer))
    && s.computeRefCount == (if h.Empty? then -1 else Running(h, Compute))
    && s.idleStart == Since(h, NoTask) && s.computeIdleStart == Since(h, NoCompute)
         && s.transferStart == Since(h, SomeTransfer)
    && s.firstApi == (if h.Empty? then NEVER else First(h)) && s.lastApi == Mark(h)
    && s.idle == Closed(h, NoTask) && s.computeIdle == Closed(h, NoCompute) && s.transfer == Closed(h, SomeTransfer)
  }

  lemma {:induction false} StatisticNext(h: History, e: Event, c: Condition)
    requires h.Then?
    ensures Since(Then(h, e), c) == if HoldsNow(Then(h, e), c) && !HoldsNow(h, c) then e.time else Since(h, c)
    ensures Closed(Then(h, e), c) == Closed(h, c)
            + if HoldsNow(h, c) && !HoldsNow(Then(h, e), c) then e.time - Since(h, c) else 0
  {
  }

  lemma {:induction false} CountsNext(h: History, e: Event)
    ensures Running(Then(h, e), Compute) == Running(h, Compute) + Change(e, Compute)
    ensures Running(Then(h, e), Transfer) == Running(h, Transfer) + Change(e, Transfer)
  {
  }

  lemma {:induction false} ReadMeans(h: History, s: Counters, e: Event)
    requires Legal(Then(h, e)) && Means(h, s)
    ensures Means(Then(h, e), Read(s, e))
  {
    CountsNext(h, e);
    if h.Then? {
      StatisticNext(h, e, NoTask);
      StatisticNext(h, e, NoCompute);
      StatisticNext(h, e, SomeTransfer);
    }
  }

  /** After any legal history the reference counters count the running tasks, the start times say
      when their intervals began, and each statistic is what the ended intervals add up to. */
  lemma {:induction false} CountersMean(h: History)
    requires Legal(h)
    ensures Means(h, After(h))
  {
    if h.Then? {
      CountersMean(h.before);
      ReadMeans(h.before, After(h.before), h.last);
    }
  }

  class DeviceTracker {
    var deviceRefCount: int
    var deviceComputeRefCount: int
    var lastIdleStart: nat
    var lastComputeIdleStart: nat
    var transferStart: nat
    var firstOffloadApiEvtTime: nat
    var lastOffloadApiEvtTime: nat
    // statistics
    var idleTime: int
    var computeIdleTime: int
    var transferTime: int
    var offloadTime: nat

    ghost function View(): Counters
      reads this
    {
      Counters(deviceRefCount, deviceComputeRefCount, lastIdleStart, lastComputeIdleStart, transferStart,
               firstOffloadApiEvtTime, lastOffloadApiEvtTime, idleTime, computeIdleTime, transferTime)
    }

    constructor ()
      ensures View() == After(Empty) && offloadTime == 0
    {
      deviceRefCount, deviceComputeRefCount := -1, -1;
      lastIdleStart, lastComputeIdleStart, transferStart := 0, 0, 0;
      firstOffloadApiEvtTime, lastOffloadApiEvtTime := NEVER, 0;
      idleTime, computeIdleTime, transferTime, offloadTime := 0, 0, 0, 0;
    }

    /** An offloading event of the internal nodes; the first one opens the idle intervals. */
    method ApiEvent(time: nat, wrapper: bool)
      modifies this
      ensures View() == Read(old(View()), Api(time, wrapper)) && offloadTime == old(offloadTime)
    {
      if deviceRefCount < 0 {
        deviceRefCount, deviceComputeRefCount := 0, 0;
        lastIdleStart, lastComputeIdleStart := time, time;
        firstOffloadApiEvtTime := time;
      }
      if wrapper {
        lastOffloadApiEvtTime := time;
      }
    }

    method OnTaskEnter(time: nat, isCompute: bool)
      modifies this
      ensures View() == Read(old(View()), TaskEnter(time, if isCompute then Compute else Transfer))
      ensures offloadTime == old(offloadTime)
    {
      if deviceRefCount == 0 {
        idleTime := idleTime + (time - lastIdleStart);
        deviceRefCount := 1;
      } else {
        deviceRefCount := deviceRefCount + 1;
      }
      if isCompute {
        if deviceComputeRefCount == 0 {
          computeIdleTime := computeIdleTime + (time - lastComputeIdleStart);
          deviceComputeRefCount := 1;
        } else {
          deviceComputeRefCount := deviceComputeRefCount + 1;
        }
      } else {
        if deviceRefCount - deviceComputeRefCount == 1 {
          transferStart := time;
        }
      }
      lastOffloadApiEvtTime := time;
    }

    method OnTaskLeave(time: nat, isCompute: bool)
      modifies this
      ensures View() == Read(old(View()), TaskLeave(time, if isCompute then Compute else Transfer))
      ensures offloadTime == old(offloadTime)
    {
      if isCompute {
        deviceComputeRefCount := deviceComputeRefCount - 1;
        if deviceComputeRefCount == 0 {
          lastComputeIdleStart := time;
        }
      } else {
        if deviceRefCount - deviceComputeRefCount == 1 {
          transferTime := transferTime + (time - transferStart);
        }
      }
      deviceRefCount := deviceRefCount - 1;
      if deviceRefCount == 0 {
        lastIdleStart := time;
      }
      lastOffloadApiEvtTime := time;
    }

    /** Closes the idle intervals, also of a device that still runs a task: there the last idle
        start is one that has been counted already. */
    method FinalIdleLeave(ghost h: History)
      requires Legal(h) && View() == After(h) && offloadTime == 0
      modifies this
      ensures lastOffloadApiEvtTime == 0
      ensures idleTime == FinalIdle(h, NoTask) && computeIdleTime == FinalIdle(h, NoCompute)
      ensures transferTime == FinalTransfer(h)
      ensures offloadTime == if Mark(h) == 0 then 0 else Mark(h) - First(h)
    {
      CountersMean(h);
      if lastOffloadApiEvtTime == 0 {
        return;
      }
      TicksAfterMark(h, NoTask);
      idleTime := idleTime + (lastOffloadApiEvtTime - lastIdleStart);
      computeIdleTime := computeIdleTime + (lastOffloadApiEvtTime - lastComputeIdleStart);
      if lastOffloadApiEvtTime > firstOffloadApiEvtTime {
        offloadTime := offloadTime + (lastOffloadApiEvtTime - firstOffloadApiEvtTime);
      }
      lastOffloadApiEvtTime := 0;
    }
  }

  // ----- The report -----

  const U64 := 0x1_0000_0000_0000_0000

  // Unsigned subtraction.
  function Sub64(a: int, b: int): (r: int)
    requires 0 <= a < U64 && 0 <= b < U64
    ensures 0 <= r < U64 && (r == a - b <==> b <= a)
  {
    if b <= a then a - b else a - b + U64
  }

  lemma {:induction false} ConditionsAddUp(h: History, lo: nat, hi: nat)
    requires Legal(h)
    ensures Ticks(h, lo, hi, NoCompute) == Ticks(h, lo, hi, NoTask) + Ticks(h, lo, hi, TransferOnly)
    ensures Ticks(h, lo, hi, SomeTransfer) == Ticks(h, lo, hi, TransferOnly) + Ticks(h, lo, hi, TransferAndCompute)
    decreases hi
  {
    if hi > lo {
      ConditionsAddUp(h, lo, hi - 1);
      ActiveNonNegative(h, Compute, hi - 1);
      ActiveNonNegative(h, Transfer, hi - 1);
    }
  }

  lemma {:induction false} TicksBounded(h: History, lo: nat, hi: nat, c: Condition)
    ensures Ticks(h, lo, hi, c) <= if hi <= lo then 0 else hi - lo
    decreases hi
  {
    if hi > lo { TicksBounded(h, lo, hi - 1, c); }
  }

  // What the report reads or should read, for one rank.
  datatype Quantity = Idle | ComputeIdle | TransferTime
                    | IdleSurplus | ComputeSurplus | TransferLoss | Ticked(c: Condition) | Duration

  function ValueOf(h: History, q: Quantity): int
    requires h.Then?
  {
    match q
    case Idle => FinalIdle(h, NoTask)
    case ComputeIdle => FinalIdle(h, NoCompute)
    case TransferTime => FinalTransfer(h)
    case IdleSurplus => Surplus(h, NoTask)
    case ComputeSurplus => Surplus(h, NoCompute)
    case TransferLoss => Loss(h)
    case Ticked(c) => Measured(h, c)
    case Duration => if Mark(h) == 0 then 0 else Mark(h) - First(h)
  }

  predicate AllRanks(hs: seq<History>) { forall i :: 0 <= i < |hs| ==> hs[i].Then? && Legal(hs[i]) }

  // The statistics of all ranks are added up before the report subtracts them.
  function Total(hs: seq<History>, q: Quantity): int
    requires AllRanks(hs)
  {
    if hs == [] then 0 else Total(hs[..|hs| - 1], q) + ValueOf(hs[|hs| - 1], q)
  }

  lemma {:induction false} SinceFirst(h: History)
    requires Legal(h) && h.Then?
    ensures First(h) <= Since(h, NoTask) && First(h) <= Since(h, NoCompute)
    ensures Running(h, Transfer) > 0 ==> First(h) <= Since(h, SomeTransfer)
  {
    SinceBefore(h, NoTask);
    CountsNext(h.before, h.last);
    if h.before.Then? {
      SinceFirst(h.before);
      SinceBefore(h.before, NoTask);
    }
  }

  lemma {:induction false} RankBounded(h: History)
    requires Legal(h) && h.Then?
    ensures 0 <= Surplus(h, NoTask) <= ValueOf(h, Duration) && 0 <= Surplus(h, NoCompute) <= ValueOf(h, Duration)
    ensures 0 <= Loss(h) <= ValueOf(h, Duration)
    ensures forall c :: Measured(h, c) <= ValueOf(h, Duration)
  {
    FinalIdleExactly(h, NoTask);
    FinalIdleExactly(h, NoCompute);
    FinalTransferExactly(h);
    SinceFirst(h);
    SinceBefore(h, NoTask);
    if Mark(h) == 0 { MarklessSurplus(h); } else { TicksAfterMark(h, NoTask); }
    forall c ensures Measured(h, c) <= ValueOf(h, Duration) {
      TicksBounded(h, First(h), Mark(h), c);
    }
  }

  lemma {:induction false} MarklessSurplus(h: History)
    requires Legal(h) && h.Then? && Mark(h) == 0
    ensures Surplus(h, NoTask) == Surplus(h, NoCompute) == Loss(h) == 0
  {
    NothingBeforeMark(h, NoTask);
    NothingBeforeMark(h, NoCompute);
    NothingBeforeMark(h, SomeTransfer);
  }

  lemma {:induction false} TotalsAddUp(hs: seq<History>)
    requires AllRanks(hs)
    ensures Total(hs, Idle) == Total(hs, Ticked(NoTask)) + Total(hs, IdleSurplus)
    ensures Total(hs, ComputeIdle) ==
            Total(hs, Ticked(NoTask)) + Total(hs, Ticked(TransferOnly)) + Total(hs, ComputeSurplus)
    ensures Total(hs, TransferTime) ==
            Total(hs, Ticked(TransferOnly)) + Total(hs, Ticked(TransferAndCompute)) - Total(hs, TransferLoss)
  {
    if hs != [] {
      var h := hs[|hs| - 1];
      TotalsAddUp(hs[..|hs| - 1]);
      ConditionsAddUp(h, First(h), Mark(h));
      FinalIdleExactly(h, NoTask);
      FinalIdleExactly(h, NoCompute);
      FinalTransferExactly(h);
    }
  }

  lemma {:induction false} BothIdleAddUp(hs: seq<History>)
    requires AllRanks(hs)
    ensures Total(hs, Ticked(NoCompute)) == Total(hs, Ticked(NoTask)) + Total(hs, Ticked(TransferOnly))
    ensures Total(hs, Ticked(SomeTransfer)) == Total(hs, Ticked(TransferOnly)) + Total(hs, Ticked(TransferAndCompute))
    ensures Total(hs, TransferLoss) <= Total(hs, Ticked(SomeTransfer))
  {
    if hs != [] {
      var h := hs[|hs| - 1];
      BothIdleAddUp(hs[..|hs| - 1]);
      ConditionsAddUp(h, First(h), Mark(h));
      FinalTransferExactly(h);
      ClosedNonNegative(h, SomeTransfer);
    }
  }

  lemma {:induction false} ClosedNonNegative(h: History, c: Condition)
    requires Legal(h)
    ensures Closed(h, c) >= 0
  {
    if h.Then? && h.before.Then? {
      ClosedNonNegative(h.before, c);
      SinceBefore(h.before, c);
    }
  }

  lemma {:induction false} TotalsBounded(hs: seq<History>)
    requires AllRanks(hs)
    ensures 0 <= Total(hs, IdleSurplus) <= Total(hs, Duration) && 0 <= Total(hs, ComputeSurplus) <= Total(hs, Duration)
    ensures 0 <= Total(hs, TransferLoss) <= Total(hs, Duration)
    ensures forall c :: 0 <= Total(hs, Ticked(c)) <= Total(hs, Duration)
  {
    if hs != [] {
      TotalsBounded(hs[..|hs| - 1]);
      RankBounded(hs[|hs| - 1]);
    }
  }

  // Twice the offload time of all ranks fits into 64 bits.
  predicate Measurable(hs: seq<History>) { AllRanks(hs) && 2 * Total(hs, Duration) < U64 }

  lemma {:induction false} TotalsInRange(hs: seq<History>)
    requires Measurable(hs)
    ensures 0 <= Total(hs, Idle) < U64 && 0 <= Total(hs, ComputeIdle) < U64 && 0 <= Total(hs, TransferTime) < U64
  {
    BothIdleAddUp(hs);
    TotalsAddUp(hs);
    TotalsBounded(hs);
  }

  // "Exclusive communication" and "Copy-compute overlap" of the report.
  function ReportedExclusive(hs: seq<History>): nat
    requires Measurable(hs)
  {
    TotalsInRange(hs);
    Sub64(Total(hs, ComputeIdle), Total(hs, Idle))
  }

  function ReportedOverlap(hs: seq<History>): nat
    requires Measurable(hs)
  {
    TotalsInRange(hs);
    Sub64(Total(hs, TransferTime), ReportedExclusive(hs))
  }

  /** No unsigned subtraction of the report wraps exactly if the idle surplus does not exceed the
      transfer-only time and the compute-idle surplus, and the transfer loss and the compute-idle
      surplus do not exceed the overlap and the idle surplus. */
  lemma {:induction false} ReportDoesNotWrap(hs: seq<History>)
    requires Measurable(hs)
    ensures (Total(hs, Idle) <= Total(hs, ComputeIdle) && ReportedExclusive(hs) <= Total(hs, TransferTime)) <==>
              (Total(hs, IdleSurplus) <= Total(hs, Ticked(TransferOnly)) + Total(hs, ComputeSurplus)
               && Total(hs, TransferLoss) + Total(hs, ComputeSurplus) <= Total(hs, Ticked(TransferAndCompute))
                    + Total(hs, IdleSurplus))
  {
    TotalsAddUp(hs);
    TotalsBounded(hs);
  }

  /** The reported times are the ticks with a transfer and no kernel, and with both, exactly if the
      surpluses are equal, or differ by the transfer loss. */
  lemma {:induction false} ReportExactly(hs: seq<History>)
    requires Measurable(hs)
    ensures ReportedExclusive(hs) == Total(hs, Ticked(TransferOnly)) <==>
            Total(hs, IdleSurplus) == Total(hs, ComputeSurplus)
    ensures ReportedOverlap(hs) == Total(hs, Ticked(TransferAndCompute)) <==>
              Total(hs, IdleSurplus) == Total(hs, ComputeSurplus) + Total(hs, TransferLoss)
  {
    TotalsAddUp(hs);
    TotalsBounded(hs);
    assert Total(hs, Ticked(TransferOnly)) >= 0 && Total(hs, Ticked(TransferAndCompute)) >= 0;
  }

  predicate IdleAtEnd(h: History) { Running(h, Compute) == 0 && Running(h, Transfer) == 0 }

  /** In particular both are right, and nothing wraps, if every device is idle at the end. */
  lemma {:induction false} IdleEndsAreRight(hs: seq<History>)
    requires Measurable(hs) && forall i :: 0 <= i < |hs| ==> IdleAtEnd(hs[i])
    ensures ReportedExclusive(hs) == Total(hs, ComputeIdle) - Total(hs, Idle) == Total(hs, Ticked(TransferOnly))
    ensures ReportedOverlap(hs) == Total(hs, TransferTime) - ReportedExclusive(hs) ==
            Total(hs, Ticked(TransferAndCompute))
  {
    NoSurplus(hs);
    TotalsAddUp(hs);
    ReportExactly(hs);
  }

  lemma {:induction false} NoSurplus(hs: seq<History>)
    requires AllRanks(hs) && forall i :: 0 <= i < |hs| ==> IdleAtEnd(hs[i])
    ensures Total(hs, IdleSurplus) == Total(hs, ComputeSurplus) == Total(hs, TransferLoss) == 0
  {
    if hs != [] { NoSurplus(hs[..|hs| - 1]); }
  }

  // ----- A device that is busy at the end -----

  // From tick `a` a transfer and a kernel run, the kernel until `b` and again from `c`; the last
  // API event comes at `d`, when both still run.
  function BusyAtEnd(h: History, a: nat, b: nat, c: nat, d: nat): History {
    Then(Then(Then(Then(Then(h, TaskEnter(a, Transfer)), TaskEnter(a, Compute)), TaskLeave(b, Compute)),
        TaskEnter(c, Compute)),
         Api(d, true))
  }

  // The counters after the events so far are `s`.
  ghost predicate Reads(h: History, s: Counters) { Legal(h) && After(h) == s && Means(h, s) }

  lemma {:induction false} ReadsNext(h: History, s: Counters, e: Event)
    requires Reads(h, s)
    requires if h.Empty? then e.Api? else Now(h) <= e.time
    requires e.TaskLeave? ==> Running(h, e.task) > 0
    ensures Reads(Then(h, e), Read(s, e))
  {
    CountsNext(h, e);
    assert Running(h, Compute) >= 0 && Running(h, Transfer) >= 0;
    ReadMeans(h, s, e);
  }

  lemma {:induction false} ReadsFirst(h: History)
    requires h.Empty?
    ensures Reads(Then(h, Api(0, true)), Counters(0, 0, 0, 0, 0, 0, 0, 0, 0, 0))
  {
    ReadsNext(h, Fresh(), Api(0, true));
  }

  lemma {:induction false} ReadsTransfer(h: History, a: nat)
    requires h.Then? && Now(h) <= a && Reads(h, Counters(0, 0, 0, 0, 0, 0, 0, 0, 0, 0))
    ensures Reads(Then(h, TaskEnter(a, Transfer)), Counters(1, 0, 0, 0, a, 0, a, a, 0, 0))
  {
    ReadsNext(h, Counters(0, 0, 0, 0, 0, 0, 0, 0, 0, 0), TaskEnter(a, Transfer));
  }

  lemma {:induction false} ReadsKernel(h: History, a: nat)
    requires h.Then? && Now(h) <= a && Reads(h, Counters(1, 0, 0, 0, a, 0, a, a, 0, 0))
    ensures Reads(Then(h, TaskEnter(a, Compute)), Counters(2, 1, 0, 0, a, 0, a, a, a, 0))
  {
    ReadsNext(h, Counters(1, 0, 0, 0, a, 0, a, a, 0, 0), TaskEnter(a, Compute));
  }

  lemma {:induction false} ReadsPause(h: History, a: nat, b: nat)
    requires h.Then? && Now(h) == a <= b && Reads(h, Counters(2, 1, 0, 0, a, 0, a, a, a, 0))
    ensures Reads(Then(h, TaskLeave(b, Compute)), Counters(1, 0, 0, b, a, 0, b, a, a, 0))
  {
    ReadsNext(h, Counters(2, 1, 0, 0, a, 0, a, a, a, 0), TaskLeave(b, Compute));
  }

  lemma {:induction false} ReadsAgain(h: History, a: nat, b: nat, c: nat)
    requires h.Then? && Now(h) == b <= c && Reads(h, Counters(1, 0, 0, b, a, 0, b, a, a, 0))
    ensures Reads(Then(h, TaskEnter(c, Compute)), Counters(2, 1, 0, b, a, 0, c, a, a + c - b, 0))
  {
    ReadsNext(h, Counters(1, 0, 0, b, a, 0, b, a, a, 0), TaskEnter(c, Compute));
  }

  lemma {:induction false} ReadsEnd(h: History, a: nat, b: nat, c: nat, d: nat)
    requires h.Then? && Now(h) == c <= d && 0 < d && Reads(h, Counters(2, 1, 0, b, a, 0, c, a, a + c - b, 0))
    ensures var end := Then(h, Api(d, true));
            && Legal(end) && Mark(end) == d && First(end) == 0
            && FinalIdle(end, NoTask) == a + d && FinalIdle(end, NoCompute) == a + (c - b) + (d - b)
  {
    ReadsNext(h, Counters(2, 1, 0, b, a, 0, c, a, a + c - b, 0), Api(d, true));
  }

  ghost predicate BusyOutcome(end: History, a: nat, b: nat, c: nat, d: nat) {
    && Legal(end) && end.Then? && Mark(end) == d && First(end) == 0
    && FinalIdle(end, NoTask) == a + d && FinalIdle(end, NoCompute) == a + (c - b) + (d - b)
  }

  lemma {:induction false} TotalOfOne(h: History, q: Quantity)
    requires Legal(h) && h.Then?
    ensures Total([h], q) == ValueOf(h, q)
  {
    assert [h][..0] == [];
  }

  // The report of one rank: both statistics, and the first difference, which wraps if the
  // second statistic is the smaller one.
  ghost predicate Reports(h: History, idle: nat, computeIdle: nat) {
    && h.Then? && Measurable([h]) && Total([h], Idle) == idle && Total([h], ComputeIdle) == computeIdle
    && ReportedExclusive([h]) == if idle <= computeIdle then computeIdle - idle else U64 - (idle - computeIdle)
  }

  lemma {:induction false} BusyReport(h: History, a: nat, b: nat, c: nat, d: nat)
    requires BusyOutcome(h, a, b, c, d) && a <= b <= c <= d && 4 * d < U64
    ensures Reports(h, a + d, a + (c - b) + (d - b))
  {
    TotalOfOne(h, Duration);
    TotalOfOne(h, Idle);
    TotalOfOne(h, ComputeIdle);
  }

  lemma {:induction false} FromLeave(h: History, a: nat, b: nat, c: nat, d: nat)
    requires h.Then? && a <= Now(h) == b <= c <= d && 0 < d && 4 * d < U64
    requires Reads(h, Counters(1, 0, 0, b, a, 0, b, a, a, 0))
    ensures Reports(Then(Then(h, TaskEnter(c, Compute)), Api(d, true)), a + d, a + (c - b) + (d - b))
  {
    ReadsAgain(h, a, b, c);
    ReadsEnd(Then(h, TaskEnter(c, Compute)), a, b, c, d);
    BusyReport(Then(Then(h, TaskEnter(c, Compute)), Api(d, true)), a, b, c, d);
  }

  lemma {:induction false} FromKernel(h: History, a: nat, b: nat, c: nat, d: nat)
    requires h.Then? && Now(h) == a <= b <= c <= d && 0 < d && 4 * d < U64
    requires Reads(h, Counters(2, 1, 0, 0, a, 0, a, a, a, 0))
    ensures Reports(Then(Then(Then(h, TaskLeave(b, Compute)), TaskEnter(c, Compute)), Api(d, true)), a + d,
            a + (c - b) + (d - b))
  {
    ReadsPause(h, a, b);
    FromLeave(Then(h, TaskLeave(b, Compute)), a, b, c, d);
  }

  lemma {:induction false} FromApi(h: History, a: nat, b: nat, c: nat, d: nat)
    requires h.Then? && Now(h) <= a <= b <= c <= d && 0 < d && 4 * d < U64
    requires Reads(h, Counters(0, 0, 0, 0, 0, 0, 0, 0, 0, 0))
    ensures Reports(BusyAtEnd(h, a, b, c, d), a + d, a + (c - b) + (d - b))
  {
    ReadsTransfer(h, a);
    var h2 := Then(h, TaskEnter(a, Transfer));
    ReadsKernel(h2, a);
    FromKernel(Then(h2, TaskEnter(a, Compute)), a, b, c, d);
  }

  lemma {:induction false} FirstRead(h: History)
    requires h.Then? && h.before.Empty? && h.last == Api(0, true)
    ensures Reads(h, Counters(0, 0, 0, 0, 0, 0, 0, 0, 0, 0))
  {
    ReadsFirst(h.before);
  }

  /** After an API event at time zero, the subtraction wraps exactly if the kernel's pause was shorter
      than the time before it. */
  lemma {:induction false} BusyEndWraps(h: History, a: nat, b: nat, c: nat, d: nat)
    requires h.Then? && h.before.Empty? && h.last == Api(0, true) && 0 < a <= b <= c <= d && 4 * d < U64
    ensures Reports(BusyAtEnd(h, a, b, c, d), a + d, a + (c - b) + (d - b))
    ensures a + (c - b) + (d - b) < a + d <==> c - b < b
  {
    FirstRead(h);
    FromApi(h, a, b, c, d);
  }

  /** A transfer at tick 1, a kernel from 1 to 2 and again from 3, the last API event at 10: the
      statistics are 11 and 10, and their difference is reported as 2^64 - 1. */
  lemma {:induction false} BusyEndExample(h: History)
    requires h.Then? && h.before.Empty? && h.last == Api(0, true)
    ensures Reports(BusyAtEnd(h, 1, 2, 3, 10), 11, 10)
  {
    BusyEndWraps(h, 1, 2, 3, 10);
  }
}
