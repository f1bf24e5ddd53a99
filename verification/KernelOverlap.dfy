/**
 The compute-overlap statistic. DeviceIdleRule counts active kernels in an 8-bit counter,
 KernelOverlapRule runs after it on the same node and adds overlapping kernel time. The
 statistic is proved to be the integral of (active kernels - 1) as long as fewer than 256
 kernels run at once.
 */
module KernelOverlap {

  datatype Event = KernelEnter(time: nat) | KernelLeave(time: nat)

  datatype History = Empty | Then(before: History, last: Event)

  const COUNTER_RANGE := 256

  // ----- What is measured -----

  function Change(e: Event): int { if e.KernelEnter? then 1 else -1 }

  function Count(h: History): int {
    match h case Empty => 0 case Then(before, e) => Count(before) + Change(e)
  }

  function Active(h: History, x: nat): int {
    match h
    case Empty => 0
    case Then(before, e) => Active(before, x) + if e.time <= x then Change(e) else 0
  }

  // Events in order of time; a kernel ends only if one is running.
  predicate Legal(h: History) {
    h.Then? ==> Legal(h.before) && (h.before.Then? ==> h.before.last.time <= h.last.time) && Count(h) >= 0
  }

  // Fewer than 256 kernels run at any time.
  predicate Fits(h: History) {
    Count(h) < COUNTER_RANGE && (h.Then? ==> Fits(h.before))
  }

  datatype Weight = Kernels | Busy | Overlap

  function WeightOf(w: Weight, active: int): int {
    match w
    case Kernels => active
    case Busy => if active > 0 then 1 else 0
    case Overlap => if active > 1 then active - 1 else 0
  }

  // Sum of the weight over all ticks before `hi`.
  function Integral(h: History, hi: nat, w: Weight): int {
    if hi == 0 then 0 else Integral(h, hi - 1, w) + WeightOf(w, Active(h, hi - 1))
  }

  function Now(h: History): nat { if h.Then? then h.last.time else 0 }

  // Leave times minus enter times: the sum of the durations once every kernel has ended,
  // however leaves are matched to enters.
  function KernelTime(h: History): int {
    match h case Empty => 0 case Then(before, e) => KernelTime(before) - Change(e) * e.time
  }

  // ----- The rules -----

  datatype Rules = Rules(activeTasks: nat, idleStart: nat, overlapStart: nat, overlapTime: int)

  // An unsigned 8-bit number.
  function Increment(k: nat): nat { if k == COUNTER_RANGE - 1 then 0 else k + 1 }

  function Decrement(k: nat): nat { if k == 0 then COUNTER_RANGE - 1 else k - 1 }

  // DeviceIdleRule: the counter is an unsigned 8-bit number.
  function IdleRule(s: Rules, e: Event): Rules {
    match e
    case KernelEnter(_) => s.(activeTasks := Increment(s.activeTasks))
    case KernelLeave(t) =>
      var n := Decrement(s.activeTasks);
      s.(activeTasks := n, idleStart := if n == 0 then t else s.idleStart)
  }

  // KernelOverlapRule: the counter already includes this event.
  function OverlapRule(s: Rules, e: Event): Rules {
    match e
    case KernelEnter(t) =>
      if s.activeTasks > 1 then
        s.(overlapTime := if s.activeTasks > 2 then s.overlapTime + (t - s.overlapStart) * (s.activeTasks - 2)
            else s.overlapTime,
           overlapStart := t)
      else s
    case KernelLeave(t) =>
      if s.activeTasks > 0 then
        s.(overlapTime := s.overlapTime + (t - s.overlapStart) * s.activeTasks, overlapStart := t)
      else s
  }

  function AfterRules(h: History): Rules {
    match h
    case Empty => Rules(0, 0, 0, 0)
    case Then(before, e) => OverlapRule(IdleRule(AfterRules(before), e), e)
  }

  /** The fields the rules share, updated in place. */
  class OffloadAnalysis {
    var active_compute_tasks: nat
    var idle_start_time: nat
    var overlapIntervalStart: nat
    var computeOverlapTime: int

    ghost function View(): Rules
      reads this
    {
      Rules(active_compute_tasks, idle_start_time, overlapIntervalStart, computeOverlapTime)
    }

    constructor ()
      ensures View() == AfterRules(Empty)
    {
      active_compute_tasks, idle_start_time, overlapIntervalStart, computeOverlapTime := 0, 0, 0, 0;
    }

    method ApplyIdleRule(e: Event)
      modifies this`active_compute_tasks, this`idle_start_time
      ensures View() == IdleRule(old(View()), e)
    {
      if e.KernelEnter? {
        active_compute_tasks := Increment(active_compute_tasks);
      } else {
        active_compute_tasks := Decrement(active_compute_tasks);
        if active_compute_tasks == 0 {
          idle_start_time := e.time;
        }
      }
    }

    method ApplyOverlapRule(e: Event)
      modifies this`computeOverlapTime, this`overlapIntervalStart
      ensures View() == OverlapRule(old(View()), e)
    {
      if e.KernelLeave? {
        if active_compute_tasks > 0 {
          computeOverlapTime := computeOverlapTime + (e.time - overlapIntervalStart) * active_compute_tasks;
          overlapIntervalStart := e.time;
        }
      } else if active_compute_tasks > 1 {
        if active_compute_tasks > 2 {
          computeOverlapTime := computeOverlapTime + (e.time - overlapIntervalStart) * (active_compute_tasks - 2);
        }
        overlapIntervalStart := e.time;
      }
    }

    /** Rules run in descending priority: the idle rule first. */
    method ApplyRules(ghost before: History, e: Event)
      requires View() == AfterRules(before)
      modifies this
      ensures View() == AfterRules(Then(before, e))
    {
      ApplyIdleRule(e);
      ApplyOverlapRule(e);
    }
  }

  // ----- Integrals and events -----

  lemma {:induction false} ActiveAfter(h: History, x: nat)
    requires Legal(h) && Now(h) <= x
    ensures Active(h, x) == Count(h)
  {
    if h.Then? { ActiveAfter(h.before, x); }
  }

  lemma {:induction false} Distribute(n: int, k: int)
    ensures (n + 1) * k == n * k + k
  {
  }

  lemma {:induction false} IntegralPass(h: History, hi: nat, w: Weight)
    requires Legal(h) && Now(h) <= hi
    ensures Integral(h, hi, w) == Integral(h, Now(h), w) + (hi - Now(h)) * WeightOf(w, Count(h))
    decreases hi
  {
    if hi > Now(h) {
      IntegralPass(h, hi - 1, w);
      ActiveAfter(h, hi - 1);
      Distribute(hi - 1 - Now(h), WeightOf(w, Count(h)));
    }
  }

  lemma {:induction false} IntegralKept(h: History, e: Event, hi: nat, w: Weight)
    requires hi <= e.time
    ensures Integral(Then(h, e), hi, w) == Integral(h, hi, w)
    decreases hi
  {
    if hi > 0 { IntegralKept(h, e, hi - 1, w); }
  }

  lemma {:induction false} IntegralNext(h: History, e: Event, w: Weight)
    requires Legal(Then(h, e))
    ensures Integral(Then(h, e), e.time, w) == Integral(h, Now(h), w) + (e.time - Now(h)) * WeightOf(w, Count(h))
  {
    IntegralKept(h, e, e.time, w);
    IntegralPass(h, e.time, w);
  }

  // ----- The statistic -----

  lemma {:induction false} WrapStep(n: nat, q: nat, k: nat)
    requires n == 256 * q + k && k < 256
    ensures n % 256 == k
    ensures (n + 1) % 256 == Increment(k)
    ensures n > 0 ==> (n - 1) % 256 == Decrement(k)
  {
    if k == 255 { assert n + 1 == 256 * (q + 1); } else { assert n + 1 == 256 * q + (k + 1); }
    if k == 0 && q > 0 { assert n - 1 == 256 * (q - 1) + 255; }
  }

  /** The counter is the number of running kernels modulo 256. */
  lemma {:induction false} CounterWraps(h: History)
    requires Legal(h)
    ensures AfterRules(h).activeTasks == Count(h) % 256
  {
    if h.Then? {
      CounterWraps(h.before);
      WrapStep(Count(h.before), Count(h.before) / 256, Count(h.before) % 256);
    }
  }

  /** It is the number itself exactly if fewer than 256 kernels run. */
  lemma {:induction false} CounterExact(h: History)
    requires Legal(h)
    ensures AfterRules(h).activeTasks == Count(h) <==> Count(h) < COUNTER_RANGE
  {
    CounterWraps(h);
  }

  ghost predicate Prefix(p: History, h: History) { p == h || (h.Then? && Prefix(p, h.before)) }

  // A kernel ended, and the counter says that none is running; below 256 kernels that is true.
  predicate Idles(h: History) { h.Then? && h.last.KernelLeave? && Count(h) % COUNTER_RANGE == 0 }

  /** The start of the idle interval is the time of the last such event. */
  lemma {:induction false} IdleStart(h: History, p: History)
    requires Legal(h) && Prefix(p, h) && Idles(p)
    requires forall q :: Prefix(p, q) && Prefix(q, h) && Idles(q) ==> q == p
    ensures AfterRules(h).idleStart == p.last.time
  {
    CounterWraps(h);
    if p != h {
      assert Prefix(p, h) && Prefix(h, h);
      IdleStart(h.before, p);
    }
  }

  // How often the time since the last event is counted, by the counter before the event.
  function Factor(k: nat, e: Event): nat {
    match e
    case KernelEnter(_) => if Increment(k) > 2 then Increment(k) - 2 else 0
    case KernelLeave(_) => Decrement(k)
  }

  // The event does no harm: no time passed, or fewer than 255 kernels ran, or one of 255 or 256 ends.
  predicate Passes(n: int, from: nat, e: Event) { e.time == from || n < 255 || (n <= 256 && e.KernelLeave?) }

  // One event, if the overlap interval began with the event before.
  lemma {:induction false} OverlapStep(s: Rules, e: Event, n: nat, from: nat)
    requires (n < 256 ==> s.activeTasks == n) && (n == 256 ==> s.activeTasks == 0) && n + Change(e) >= 0
    requires n >= 2 ==> s.overlapStart == from
    ensures var after := OverlapRule(IdleRule(s, e), e);
            && after.overlapTime == s.overlapTime + (e.time - from) * Factor(s.activeTasks, e)
            && (Passes(n, from, e) && n + Change(e) >= 2 ==> after.overlapStart == e.time)
  {
  }

  // The counter for up to 256 kernels.
  lemma {:induction false} SmallCounter(h: History)
    requires Legal(h)
    ensures Count(h) < 256 ==> AfterRules(h).activeTasks == Count(h)
    ensures Count(h) == 256 ==> AfterRules(h).activeTasks == 0
  {
    CounterWraps(h);
  }

  lemma {:induction false} RulesNext(h: History)
    requires Legal(h) && h.Then?
    ensures AfterRules(h) == OverlapRule(IdleRule(AfterRules(h.before), h.last), h.last)
    ensures Count(h) == Count(h.before) + Change(h.last) >= 0
  {
  }

  lemma {:induction false} FactorExactly(n: nat, e: Event)
    requires n + Change(e) >= 0
    ensures Factor(n % 256, e) == WeightOf(Overlap, n) <==> n < 255 || (n <= 256 && e.KernelLeave?)
  {
    var (q, k) := (n / 256, n % 256);
    assert n == 256 * q + k;
  }

  lemma {:induction false} SameProduct(d: int, x: int, y: int)
    ensures d * x == d * y <==> d == 0 || x == y
  {
    if d * x == d * y { assert d * (x - y) == 0; }
  }

  // The statistic is the integral of (active kernels - 1) after every event.
  predicate RightThroughout(h: History) {
    (h.Then? ==> RightThroughout(h.before)) && AfterRules(h).overlapTime == Integral(h, Now(h), Overlap)
  }

  // Time only passes while fewer than 255 kernels run, or until a kernel ends while 255 or 256 do.
  predicate Harmless(h: History) {
    h.Then? ==> Harmless(h.before) && Passes(Count(h.before), Now(h.before), h.last)
  }

  lemma {:induction false} RightStep(h: History)
    requires Legal(h) && h.Then? && AfterRules(h.before).overlapTime == Integral(h.before, Now(h.before), Overlap)
    requires Count(h.before) >= 2 ==> AfterRules(h.before).overlapStart == Now(h.before)
    ensures AfterRules(h).overlapTime == Integral(h, Now(h), Overlap) <==>
            Passes(Count(h.before), Now(h.before), h.last)
    ensures Passes(Count(h.before), Now(h.before), h.last) && Count(h) >= 2 ==> AfterRules(h).overlapStart == Now(h)
  {
    var (d, n) := (Now(h) - Now(h.before), Count(h.before));
    IntegralNext(h.before, h.last, Overlap);
    StatisticGrows(h);
    CounterWraps(h.before);
    FactorExactly(n, h.last);
    SameProduct(d, Factor(n % 256, h.last), WeightOf(Overlap, n));
  }

  lemma {:induction false} StatisticGrows(h: History)
    requires Legal(h) && h.Then?
    requires Count(h.before) >= 2 ==> AfterRules(h.before).overlapStart == Now(h.before)
    ensures AfterRules(h).overlapTime ==
            AfterRules(h.before).overlapTime
                + (h.last.time - Now(h.before)) * Factor(AfterRules(h.before).activeTasks, h.last)
    ensures Passes(Count(h.before), Now(h.before), h.last) && Count(h) >= 2 ==>
              AfterRules(h).overlapStart == h.last.time
  {
    RulesNext(h);
    SmallCounter(h.before);
    OverlapStep(AfterRules(h.before), h.last, Count(h.before), Now(h.before));
  }

  lemma {:induction false} RightSoFar(h: History)
    requires Legal(h)
    ensures RightThroughout(h) <==> Harmless(h)
    ensures Harmless(h) && Count(h) >= 2 ==> AfterRules(h).overlapStart == Now(h)
  {
    if h.Then? {
      RightSoFar(h.before);
      if Harmless(h.before) { RightStep(h); }
    }
  }

  /** Over any history the statistic is right after every event exactly if time only passes while
      fewer than 255 kernels run, or until a kernel ends while 255 or 256 do. */
  lemma {:induction false} RightExactly(h: History)
    requires Legal(h)
    ensures RightThroughout(h) <==> Harmless(h)
  {
    RightSoFar(h);
  }

  lemma {:induction false} FitsIsHarmless(h: History)
    requires Fits(h)
    ensures Harmless(h)
  {
    if h.Then? { FitsIsHarmless(h.before); }
  }

  /** In particular it is right after every event as long as fewer than 256 kernels run. */
  lemma {:induction false} OverlapIsIntegral(h: History)
    requires Legal(h) && Fits(h)
    ensures AfterRules(h).overlapTime == Integral(h, Now(h), Overlap)
    ensures Count(h) >= 2 ==> AfterRules(h).overlapStart == Now(h)
  {
    FitsIsHarmless(h);
    RightSoFar(h);
  }

  lemma {:induction false} KernelTimeIsIntegral(h: History)
    requires Legal(h)
    ensures KernelTime(h) + Count(h) * Now(h) == Integral(h, Now(h), Kernels)
  {
    if h.Then? {
      KernelTimeIsIntegral(h.before);
      IntegralNext(h.before, h.last, Kernels);
      KernelTimeStep(KernelTime(h.before), Count(h.before), Change(h.last), Now(h.before), h.last.time);
    }
  }

  lemma {:induction false} KernelTimeStep(spent: int, n: int, change: int, from: int, to: int)
    ensures spent - change * to + (n + change) * to == spent + n * from + (to - from) * n
  {
    Spread(n, change, to);
    Spread(to, -from, n);
  }

  lemma {:induction false} Spread(a: int, b: int, k: int)
    ensures (a + b) * k == a * k + b * k
  {
  }

  lemma {:induction false} WeightsAddUp(h: History, hi: nat)
    requires Legal(h)
    ensures Integral(h, hi, Kernels) == Integral(h, hi, Busy) + Integral(h, hi, Overlap)
    decreases hi
  {
    if hi > 0 {
      WeightsAddUp(h, hi - 1);
      ActiveNonNegative(h, hi - 1);
    }
  }

  lemma {:induction false} ActiveNonNegative(h: History, x: nat)
    requires Legal(h)
    ensures Active(h, x) >= 0
  {
    if h.Then? {
      if Now(h) <= x { ActiveAfter(h, x); } else { ActiveNonNegative(h.before, x); }
    }
  }

  /** Once all kernels have ended, their total duration is the time with at least one kernel
      plus the overlap statistic. */
  lemma {:induction false} OverlapIdentity(h: History)
    requires Legal(h) && Fits(h) && Count(h) == 0
    ensures KernelTime(h) == Integral(h, Now(h), Busy) + AfterRules(h).overlapTime
  {
    OverlapIsIntegral(h);
    KernelTimeIsIntegral(h);
    WeightsAddUp(h, Now(h));
  }

  // ----- 256 kernels at once -----

  function Enters(n: nat, time: nat): History {
    if n == 0 then Empty else Then(Enters(n - 1, time), KernelEnter(time))
  }

  lemma {:induction false} EntersLegal(n: nat, time: nat)
    ensures Legal(Enters(n, time)) && Count(Enters(n, time)) == n
    ensures n > 0 ==> Enters(n, time).Then? && Now(Enters(n, time)) == time
  {
    if n > 0 { EntersLegal(n - 1, time); }
  }

  lemma {:induction false} EntersNothing(n: nat, time: nat)
    requires n <= COUNTER_RANGE
    ensures AfterRules(Enters(n, time)).overlapTime == 0
    ensures n >= 2 ==> AfterRules(Enters(n, time)).overlapStart == time
  {
    if n > 0 {
      EntersNothing(n - 1, time);
      CounterWrapsEnters(n - 1, time);
      EnterAtOnce(AfterRules(Enters(n - 1, time)), time);
    }
  }

  lemma {:induction false} EnterAtOnce(s: Rules, time: nat)
    requires s.overlapTime == 0 && s.activeTasks < COUNTER_RANGE && (s.activeTasks >= 2 ==> s.overlapStart == time)
    ensures var after := OverlapRule(IdleRule(s, KernelEnter(time)), KernelEnter(time));
            after.overlapTime == 0 && (s.activeTasks >= 1 ==> after.overlapStart == time)
  {
  }

  lemma {:induction false} CounterWrapsEnters(n: nat, time: nat)
    requires n <= COUNTER_RANGE
    ensures AfterRules(Enters(n, time)).activeTasks == if n == COUNTER_RANGE then 0 else n
  {
    if n > 0 { CounterWrapsEnters(n - 1, time); }
  }

  // ----- The error at the first wrap -----

  // The last event of the history is the enter of the 256th concurrent kernel, the first such.
  predicate FirstWrap(h: History) { Legal(h) && h.Then? && Fits(h.before) && Count(h) == COUNTER_RANGE }

  /** The enter that makes the counter wrap adds nothing: the statistic lacks the overlap since the
      event before, and is right exactly if no time passed since then. */
  lemma {:induction false} WrapLoses(h: History)
    requires FirstWrap(h)
    ensures var gap := Now(h) - Now(h.before);
            && AfterRules(h).activeTasks == 0 && AfterRules(h).overlapStart == Now(h.before)
            && AfterRules(h).overlapTime == Integral(h, Now(h), Overlap) - gap * 254
            && (AfterRules(h).overlapTime == Integral(h, Now(h), Overlap) <==> gap == 0)
  {
    OverlapIsIntegral(h.before);
    CounterWraps(h.before);
    IntegralNext(h.before, h.last, Overlap);
  }

  /** If a kernel ends next, the whole time since the event before the wrap counts with 255 kernels:
      the statistic has the gap too much. If another kernel starts next, the loss grows by the
      overlap of all 256. */
  lemma {:induction false} AfterWrap(h: History, e: Event)
    requires FirstWrap(h) && Legal(Then(h, e))
    ensures var gap := Now(h) - Now(h.before);
            var error := AfterRules(Then(h, e)).overlapTime - Integral(Then(h, e), e.time, Overlap);
            error == if e.KernelLeave? then gap else -(gap * 254) - (e.time - Now(h)) * 255
  {
    WrapLoses(h);
    IntegralNext(h, e, Overlap);
    var gap := Now(h) - Now(h.before);
    Spread(e.time - Now(h), gap, 255);
  }

  /** The statistic loses the whole overlap of 256 kernels if the next event is an enter. */
  lemma {:induction false} OverlapLostAt256(start: nat, next: nat)
    requires start < next
    ensures var h := Then(Enters(COUNTER_RANGE, start), KernelEnter(next));
            && Legal(h) && AfterRules(h).overlapTime == 0
            && Integral(h, Now(h), Overlap) - Integral(h.before, Now(h.before), Overlap) == 255 * (next - start)
  {
    var b := Enters(COUNTER_RANGE, start);
    EntersLegal(COUNTER_RANGE, start);
    EntersNothing(COUNTER_RANGE, start);
    CounterWrapsEnters(COUNTER_RANGE, start);
    IntegralNext(b, KernelEnter(next), Overlap);
  }
}
