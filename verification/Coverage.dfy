/** The bounded history against an unbounded one: how long a delay a ring of a given capacity can serve
    when it is fed by the capture limiter. */
module Coverage {
  import opened Numerics
  import opened SampleHistory
  import opened SelectionProperties
  import opened CaptureLimiting
  import opened MeasurementDelays
  import opened DelayValidation

  /** One capture: the limiter's clock reading and the wall stamp read after it, on one clock. */
  datatype Capture = Capture(steady: int, wall: int)

  function Steadies(captures: seq<Capture>): seq<int> {
    seq(|captures|, i requires 0 <= i < |captures| => captures[i].steady)
  }

  /** The stamp of a capture is read between its own limiter reading and the next one. */
  ghost predicate OneClock(captures: seq<Capture>) {
    && (forall i :: 0 <= i < |captures| ==> captures[i].steady <= captures[i].wall)
    && (forall i, j :: 0 <= i < j < |captures| ==> captures[i].wall <= captures[j].steady)
  }

  ghost predicate SingleRead(captures: seq<Capture>) {
    forall i :: 0 <= i < |captures| ==> captures[i].steady == captures[i].wall
  }

  ghost predicate StampedBy(samples: seq<TrackerSample>, captures: seq<Capture>) {
    && |samples| == |captures|
    && forall i :: 0 <= i < |samples| ==> samples[i].wallTime == Seconds(captures[i].wall)
  }

  lemma SecondsMono(a: int, b: int)
    ensures a <= b <==> Seconds(a) <= Seconds(b)
    ensures a < b <==> Seconds(a) < Seconds(b)
  {}

  lemma StampsAreOrdered(samples: seq<TrackerSample>, captures: seq<Capture>)
    requires OneClock(captures) && StampedBy(samples, captures)
    ensures Ordered(samples)
  {
    forall i, j | 0 <= i < j < |samples|
      ensures samples[i].wallTime <= samples[j].wallTime
    {
      assert captures[i].wall <= captures[j].steady <= captures[j].wall;
      SecondsMono(captures[i].wall, captures[j].wall);
    }
  }

  // What a full ring spans, in ticks.

  lemma RingSpan(captures: seq<Capture>, first: int, period: int, oldest: nat, newest: nat, single: bool)
    requires period >= 1 && OneClock(captures) && SlotIncreasing(Steadies(captures), first, period)
    requires single ==> SingleRead(captures)
    requires oldest + (if single then 1 else 2) <= newest < |captures|
    ensures (newest - oldest - (if single then 1 else 2)) * period + 1 <= captures[newest].wall - captures[oldest].wall
  {
    CaptureSpan(Steadies(captures), first, period, if single then oldest else oldest + 1, newest);
    assert captures[oldest].wall <= captures[oldest + 1].steady;
  }

  /** How far a reading lies past the midpoint of two earlier ones, `c - b` captures after the second. */
  lemma SpanFromMidpoint(times: seq<int>, first: int, period: int, a: nat, b: nat, c: nat)
    requires period >= 1 && SlotIncreasing(times, first, period) && a < b <= c < |times|
    ensures (2 * (c - b) - 1) * period + 2 <= 2 * times[c] - times[b] - times[a]
  {
    SlotsApart(times, first, period, a, b);
    SlotsApart(times, first, period, b, c);
    SlotBounds(first, period, times[a]);
    SlotBounds(first, period, times[b]);
    SlotBounds(first, period, times[c]);
    MidpointArithmetic(Slot(first, period, times[a]), Slot(first, period, times[b]), Slot(first, period, times[c]),
                       c - b, period, times[a] - first, times[b] - first, times[c] - first);
  }

  lemma MidpointArithmetic(early: int, low: int, high: int, gap: int, period: int, x: int, y: int, z: int)
    requires period >= 1 && early < low && low + gap <= high
    requires x < early * period + period && y < low * period + period && high * period <= z
    ensures (2 * gap - 1) * period + 2 <= 2 * z - y - x
  {
    MulMono(early + 1, low, period);
    MulMono(low + gap, high, period);
    assert (low + gap) * period == low * period + gap * period;
    assert (2 * gap - 1) * period == 2 * (gap * period) - period;
  }

  /** Twice the longest delay a ring covers, in ticks.  A capture is stamped when its own clock reading was taken
      if one reading serves both purposes, and otherwise by the time of the next capture. */
  function CoveredHalfTicks(capacity: int, period: int, single: bool): int {
    (2 * capacity - (if single then 3 else 5)) * period + 2
  }

  /** A delay of that many ticks is within the bound of a ring. */
  ghost predicate Within(capacity: int, period: int, ticks: real, single: bool) {
    2.0 * ticks <= CoveredHalfTicks(capacity, period, single) as real
  }

  lemma WithinLess(capacity: int, period: int, ticks: real, more: real, single: bool)
    requires ticks <= more && Within(capacity, period, more, single)
    ensures Within(capacity, period, ticks, single)
  {}

  /** How many ticks a full ring spans at least: one slot less where the oldest capture may be stamped late. */
  function SpannedTicks(capacity: int, period: int, single: bool): int {
    (capacity - (if single then 2 else 3)) * period + 1
  }

  ghost predicate Spans(capacity: int, period: int, ticks: real, single: bool) {
    ticks <= SpannedTicks(capacity, period, single) as real
  }

  lemma SpansLess(capacity: int, period: int, ticks: real, more: real, single: bool)
    requires ticks <= more && Spans(capacity, period, more, single)
    ensures Spans(capacity, period, ticks, single)
  {}

  lemma MidpointSpan(captures: seq<Capture>, first: int, period: int, oldest: nat, newest: nat, single: bool)
    requires period >= 1 && OneClock(captures) && SlotIncreasing(Steadies(captures), first, period)
    requires single ==> SingleRead(captures)
    requires 1 <= oldest && oldest + (if single then 0 else 1) <= newest < |captures|
    ensures CoveredHalfTicks(newest - oldest + 1, period, single) <=
            2 * captures[newest].wall - captures[oldest].wall - captures[oldest - 1].wall
  {
    var times := Steadies(captures);
    if single {
      SpanFromMidpoint(times, first, period, oldest - 1, oldest, newest);
    } else {
      SpanFromMidpoint(times, first, period, oldest, oldest + 1, newest);
      assert captures[oldest - 1].wall <= times[oldest] && captures[oldest].wall <= times[oldest + 1];
    }
  }

  /** A full ring never leaves the target of a delay it spans older than its oldest sample. */
  lemma FullRingSpans(h: History, captures: seq<Capture>, first: int, period: int, send: real, target: real,
                      single: bool)
    requires period >= 1 && OneClock(captures) && SlotIncreasing(Steadies(captures), first, period)
    requires single ==> SingleRead(captures)
    requires StampedBy(h.pushed, captures) && |h.pushed| >= h.capacity >= (if single then 2 else 3)
    requires send >= h.pushed[|h.pushed| - 1].wallTime
    requires Spans(h.capacity, period, (send - target) * TICKS_PER_SECOND, single)
    ensures h.pushed[h.Evicted()].wallTime <= target
  {
    RingSpan(captures, first, period, h.Evicted(), |captures| - 1, single);
  }

  /** A delay within the bound: the ring selects the sample an unbounded history would select. */
  lemma RingCovers(h: History, captures: seq<Capture>, first: int, period: int, send: real, target: real, single: bool)
    requires period >= 1 && OneClock(captures) && SlotIncreasing(Steadies(captures), first, period)
    requires single ==> SingleRead(captures)
    requires StampedBy(h.pushed, captures) && h.pushed != [] && h.capacity >= (if single then 1 else 2)
    requires send >= h.pushed[|h.pushed| - 1].wallTime
    requires Within(h.capacity, period, (send - target) * TICKS_PER_SECOND, single)
    ensures h.NearestNumber(target) == NearestIndex(h.pushed, target)
  {
    StampsAreOrdered(h.pushed, captures);
    var e := h.Evicted();
    if e > 0 {
      MidpointSpan(captures, first, period, e, |captures| - 1, single);
      MidpointPassed(captures[e - 1].wall, captures[e].wall, captures[|captures| - 1].wall,
                     CoveredHalfTicks(h.capacity, period, single), send, target);
    }
    BoundedAgrees(h, target);
  }

  lemma RingAgreesWithin(h: History, captures: seq<Capture>, first: int, period: int, send: real, target: real,
                         ticks: real, single: bool)
    requires period >= 1 && OneClock(captures) && SlotIncreasing(Steadies(captures), first, period)
    requires single ==> SingleRead(captures)
    requires StampedBy(h.pushed, captures) && h.capacity >= (if single then 1 else 2)
    requires Within(h.capacity, period, ticks, single) && (send - target) * TICKS_PER_SECOND <= ticks
    ensures Agrees(h, send, target)
  {
    if h.pushed != [] && send >= h.pushed[|h.pushed| - 1].wallTime {
      WithinLess(h.capacity, period, (send - target) * TICKS_PER_SECOND, ticks, single);
      RingCovers(h, captures, first, period, send, target, single);
    }
  }

  lemma MidpointPassed(a: int, b: int, newest: int, halfTicks: int, send: real, target: real)
    requires halfTicks <= 2 * newest - b - a && send >= Seconds(newest)
    requires 2.0 * ((send - target) * TICKS_PER_SECOND) <= halfTicks as real
    ensures Seconds(a) + Seconds(b) <= 2.0 * target
  {}

  // The bound is exact.

  function HistoryOf(capacity: nat, captures: seq<Capture>): History {
    History(capacity, seq(|captures|, i requires 0 <= i < |captures| =>
      BLANK_SAMPLE.(wallTime := Seconds(captures[i].wall))))
  }

  /** The captures of one run of the limiter, each stamped before the next one. */
  ghost predicate LimiterCaptures(captures: seq<Capture>, readings: seq<int>, period: int)
    requires period >= 1
  {
    ClockReadings(readings) && Steadies(captures) == Captures(readings, period) && OneClock(captures)
  }

  /** A query sent no earlier than the newest sample is answered as without a bound. */
  ghost predicate Agrees(h: History, send: real, target: real)
    requires h.capacity >= 1
  {
    h.pushed != [] && send >= h.pushed[|h.pushed| - 1].wallTime ==>
      h.NearestNumber(target) == NearestIndex(h.pushed, target)
  }

  ghost predicate AgreesAfter(h: History, send: real, delay: real)
    requires h.capacity >= 1
  {
    Agrees(h, send, send - delay)
  }

  lemma AgreesAtTarget(h: History, send: real, delay: real, target: real)
    requires h.capacity >= 1 && target == send - delay
    ensures Agrees(h, send, target) <==> AgreesAfter(h, send, delay)
  {}

  ghost predicate CoversRun(capacity: nat, captures: seq<Capture>, send: real, delay: real)
    requires capacity >= 1
  {
    AgreesAfter(HistoryOf(capacity, captures), send, delay)
  }

  ghost predicate CoversAllRuns(capacity: nat, period: int, maxDelay: real, single: bool)
    requires period >= 1 && capacity >= 1
  {
    forall captures: seq<Capture>, readings: seq<int>, send: real, delay: real ::
      LimiterCaptures(captures, readings, period) && (single ==> SingleRead(captures)) && 0.0 <= delay <= maxDelay ==>
        CoversRun(capacity, captures, send, delay)
  }

  /** A ring agrees with an unbounded history on every run of the limiter exactly when twice the longest delay is
      at most `2 * capacity - 5` periods and two ticks, or `2 * capacity - 3` periods and two ticks if the clock is read
      once a capture. */
  lemma CoverageIsExact(capacity: nat, period: int, maxDelay: real, single: bool)
    requires capacity >= (if single then 2 else 3) && period >= 1 && maxDelay >= 0.0
    ensures CoversAllRuns(capacity, period, maxDelay, single) <==>
            Within(capacity, period, maxDelay * TICKS_PER_SECOND, single)
  {
    if Within(capacity, period, maxDelay * TICKS_PER_SECOND, single) {
      forall captures: seq<Capture>, readings: seq<int>, send: real, delay: real |
        LimiterCaptures(captures, readings, period) && (single ==> SingleRead(captures)) && 0.0 <= delay <= maxDelay
        ensures CoversRun(capacity, captures, send, delay)
      {
        LimiterRunIsCovered(capacity, period, captures, readings, send, delay, maxDelay, single);
      }
    } else {
      var captures, readings, send := StarvedRun(capacity, period, maxDelay, single);
      assert !CoversRun(capacity, captures, send, maxDelay);
    }
  }

  lemma TicksToTarget(send: real, delay: real, target: real, maxDelay: real)
    requires delay <= maxDelay && target == send - delay
    ensures (send - target) * TICKS_PER_SECOND <= maxDelay * TICKS_PER_SECOND
  {}

  lemma LimiterFillsSlots(captures: seq<Capture>, readings: seq<int>, period: int) returns (first: int)
    requires period >= 1 && LimiterCaptures(captures, readings, period)
    ensures SlotIncreasing(Steadies(captures), first, period)
  {
    first := 0;
    assert |captures| == |Steadies(captures)|;
    if readings != [] {
      CapturesFillSlots(readings, period);
      first := readings[0];
    }
  }

  lemma LimiterRunIsCovered(capacity: nat, period: int, captures: seq<Capture>, readings: seq<int>, send: real,
                            delay: real, maxDelay: real, single: bool)
    requires capacity >= (if single then 1 else 2) && period >= 1 && delay <= maxDelay
    requires LimiterCaptures(captures, readings, period) && (single ==> SingleRead(captures))
    requires Within(capacity, period, maxDelay * TICKS_PER_SECOND, single)
    ensures AgreesAfter(HistoryOf(capacity, captures), send, delay)
  {
    var h, target := HistoryOf(capacity, captures), send - delay;
    var first := LimiterFillsSlots(captures, readings, period);
    TicksToTarget(send, delay, target, maxDelay);
    RingAgreesWithin(h, captures, first, period, send, target, maxDelay * TICKS_PER_SECOND, single);
    AgreesAtTarget(h, send, delay, target);
  }

  lemma SlotsOrderTimes(times: seq<int>, first: int, period: int)
    requires period >= 1 && SlotIncreasing(times, first, period)
    ensures forall i, j :: 0 <= i < j < |times| ==> times[i] < times[j]
  {
    forall i, j | 0 <= i < j < |times|
      ensures times[i] < times[j]
    {
      if times[j] <= times[i] {
        DivMono(times[j] - first, times[i] - first, period);
      }
    }
  }

  /** The worst cases: after the first reading `late` readings at the ends of their slots, the later ones at the start
      of theirs. */
  function WorstReading(period: int, late: nat, i: nat): int {
    if 1 <= i <= late then (i + 1) * period - 1 else i * period
  }

  /** With two readings the first `late` captures are stamped at the last moment. */
  function WorstCapture(period: int, late: nat, i: nat, single: bool): Capture {
    Capture(WorstReading(period, late, i), WorstReading(period, late, if !single && i < late then i + 1 else i))
  }

  /** So many captures that the last but `capacity` are the first ones up to one that is stamped late. */
  function WorstCaptures(capacity: nat, period: int, late: nat, single: bool): seq<Capture>
    requires late >= 1
  {
    var n := capacity + (if single then late else late - 1);
    seq(n, i requires 0 <= i < n => WorstCapture(period, late, i, single))
  }

  lemma WorstReadingSlot(period: int, late: nat, i: nat)
    requires period >= 1
    ensures var time := WorstReading(period, late, i); Slot(0, period, time) == i && 0 <= time
  {
    MulMono(0, i, period);
    SlotIs(0, period, WorstReading(period, late, i), i);
  }

  lemma WorstReadingsFillSlots(capacity: nat, period: int, late: nat, single: bool)
    requires capacity >= 1 && period >= 1 && late >= 1
    ensures var r := Steadies(WorstCaptures(capacity, period, late, single));
      && (forall i :: 0 <= i < |r| ==> Slot(0, period, r[i]) == i)
      && ClockReadings(r) && Captures(r, period) == r
  {
    var r := Steadies(WorstCaptures(capacity, period, late, single));
    forall i: nat | i < |r|
      ensures Slot(0, period, r[i]) == i && 0 <= r[i]
    {
      WorstReadingSlot(period, late, i);
    }
    SlotsOrderTimes(r, 0, period);
    AllCaptured(r, 0, period);
  }

  lemma WorstReadingsIncrease(period: int, late: nat, i: nat, j: nat)
    requires period >= 1 && i < j
    ensures WorstReading(period, late, i) < WorstReading(period, late, j)
  {
    MulMono(i + 1, j, period);
    if i == 0 {
      MulMono(1, j, period);
    }
  }

  lemma WorstIsOneClock(capacity: nat, period: int, late: nat, single: bool)
    requires capacity >= (if single then 2 else 3) && period >= 1 && late >= 1
    ensures OneClock(WorstCaptures(capacity, period, late, single))
    ensures single ==> SingleRead(WorstCaptures(capacity, period, late, single))
  {
    var captures := WorstCaptures(capacity, period, late, single);
    forall i: nat | i < |captures|
      ensures captures[i].steady <= captures[i].wall
    {
      WorstReadingsIncrease(period, late, i, i + 1);
    }
    forall i: nat, j: nat | i < j < |captures|
      ensures captures[i].wall <= captures[j].steady
    {
      WorstReadingsIncrease(period, late, i, j);
      if i + 1 < j {
        WorstReadingsIncrease(period, late, i + 1, j);
      }
    }
  }

  lemma WorstIsARun(capacity: nat, period: int, late: nat, single: bool)
    requires capacity >= (if single then 2 else 3) && period >= 1 && late >= 1
    ensures var captures := WorstCaptures(capacity, period, late, single);
      LimiterCaptures(captures, Steadies(captures), period) && (single ==> SingleRead(captures))
  {
    WorstReadingsFillSlots(capacity, period, late, single);
    WorstIsOneClock(capacity, period, late, single);
  }

  lemma {:induction false} AllCaptured(readings: seq<int>, first: int, period: int)
    requires period >= 1 && ClockReadings(readings)
    requires readings != [] ==> readings[0] == first
    requires forall i :: 0 < i < |readings| ==> Slot(first, period, readings[i - 1]) < Slot(first, period, readings[i])
    ensures Captures(readings, period) == readings
  {
    if readings != [] {
      var last := |readings| - 1;
      var front := readings[..last];
      assert front != [] ==> front[0] == first;
      AllCaptured(front, first, period);
      CapturedIffFirstInSlot(readings, period, last);
      assert Captured(readings, period, last);
      assert readings == front + [readings[last]];
    }
  }

  lemma StarvedRun(capacity: nat, period: int, delay: real, single: bool)
    returns (captures: seq<Capture>, readings: seq<int>, send: real)
    requires capacity >= (if single then 2 else 3) && period >= 1
    requires !Within(capacity, period, delay * TICKS_PER_SECOND, single)
    ensures LimiterCaptures(captures, readings, period) && (single ==> SingleRead(captures))
    ensures !CoversRun(capacity, captures, send, delay)
  {
    captures := WorstCaptures(capacity, period, 2, single);
    readings := Steadies(captures);
    WorstIsARun(capacity, period, 2, single);
    var h := HistoryOf(capacity, captures);
    send := h.pushed[|h.pushed| - 1].wallTime;
    WorstIsMissed(h, capacity, period, delay, single);
  }

  lemma WorstIsMissed(h: History, capacity: nat, period: int, delay: real, single: bool)
    requires capacity >= (if single then 2 else 3) && period >= 1
    requires h == HistoryOf(capacity, WorstCaptures(capacity, period, 2, single))
    requires OneClock(WorstCaptures(capacity, period, 2, single))
    requires !Within(capacity, period, delay * TICKS_PER_SECOND, single)
    ensures !AgreesAfter(h, h.pushed[|h.pushed| - 1].wallTime, delay)
  {
    var send := h.pushed[|h.pushed| - 1].wallTime;
    var target := send - delay;
    StampsAreOrdered(h.pushed, WorstCaptures(capacity, period, 2, single));
    WorstMidpoint(capacity, period, single);
    MidpointMissed(h, send, target);
    AgreesAtTarget(h, send, delay, target);
  }

  lemma MidpointMissed(h: History, send: real, target: real)
    requires h.pushed != [] && h.capacity >= 1 && h.Evicted() > 0 && Ordered(h.pushed)
    requires send >= h.pushed[|h.pushed| - 1].wallTime
    requires h.pushed[h.Evicted() - 1].wallTime < h.pushed[h.Evicted()].wallTime
    requires h.pushed[h.Evicted() - 1].wallTime + h.pushed[h.Evicted()].wallTime > 2.0 * target
    ensures !Agrees(h, send, target)
  {
    BoundedAgreesIff(h, target);
  }

  lemma WorstMidpoint(capacity: nat, period: int, single: bool)
    requires capacity >= (if single then 2 else 3) && period >= 1
    ensures var captures := WorstCaptures(capacity, period, 2, single);
      var n, e := |captures|, |captures| - capacity;
      && captures[e - 1].wall == 2 * period - 1 && captures[e].wall == 3 * period - 1
      && 2 * captures[n - 1].wall - captures[e - 1].wall - captures[e].wall ==
         CoveredHalfTicks(capacity, period, single)
  {}

  // What a full ring spans, exactly.

  /** A full ring reaches the target of a query sent no earlier than its newest sample. */
  ghost predicate Reaches(h: History, send: real, target: real)
    requires h.capacity >= 1
  {
    |h.pushed| >= h.capacity && send >= h.pushed[|h.pushed| - 1].wallTime ==>
      h.pushed[h.Evicted()].wallTime <= target
  }

  ghost predicate ReachesAfter(h: History, send: real, delay: real)
    requires h.capacity >= 1
  {
    Reaches(h, send, send - delay)
  }

  lemma ReachesTarget(h: History, send: real, delay: real, target: real)
    requires h.capacity >= 1 && target == send - delay
    ensures Reaches(h, send, target) <==> ReachesAfter(h, send, delay)
  {}

  ghost predicate ReachesInRun(capacity: nat, captures: seq<Capture>, send: real, delay: real)
    requires capacity >= 1
  {
    ReachesAfter(HistoryOf(capacity, captures), send, delay)
  }

  ghost predicate ReachesInAllRuns(capacity: nat, period: int, maxDelay: real, single: bool)
    requires period >= 1 && capacity >= 1
  {
    forall captures: seq<Capture>, readings: seq<int>, send: real, delay: real ::
      LimiterCaptures(captures, readings, period) && (single ==> SingleRead(captures)) && 0.0 <= delay <= maxDelay ==>
        ReachesInRun(capacity, captures, send, delay)
  }

  /** Full rings reach every target on every run of the limiter exactly when the longest delay is at most
      `capacity - 3` periods and a tick, or `capacity - 2` periods and a tick if the clock is read once a capture. */
  lemma SpanIsExact(capacity: nat, period: int, maxDelay: real, single: bool)
    requires capacity >= (if single then 2 else 3) && period >= 1 && maxDelay >= 0.0
    ensures ReachesInAllRuns(capacity, period, maxDelay, single) <==>
            Spans(capacity, period, maxDelay * TICKS_PER_SECOND, single)
  {
    if Spans(capacity, period, maxDelay * TICKS_PER_SECOND, single) {
      forall captures: seq<Capture>, readings: seq<int>, send: real, delay: real |
        LimiterCaptures(captures, readings, period) && (single ==> SingleRead(captures)) && 0.0 <= delay <= maxDelay
        ensures ReachesInRun(capacity, captures, send, delay)
      {
        LimiterRunIsReached(capacity, period, captures, readings, send, delay, maxDelay, single);
      }
    } else {
      var captures := WorstCaptures(capacity, period, 1, single);
      WorstIsARun(capacity, period, 1, single);
      WorstIsNotReached(capacity, period, maxDelay, single);
      assert !ReachesInRun(capacity, captures, Seconds(captures[|captures| - 1].wall), maxDelay);
    }
  }

  lemma LimiterRunIsReached(capacity: nat, period: int, captures: seq<Capture>, readings: seq<int>, send: real,
                            delay: real, maxDelay: real, single: bool)
    requires capacity >= (if single then 2 else 3) && period >= 1 && delay <= maxDelay
    requires LimiterCaptures(captures, readings, period) && (single ==> SingleRead(captures))
    requires Spans(capacity, period, maxDelay * TICKS_PER_SECOND, single)
    ensures ReachesAfter(HistoryOf(capacity, captures), send, delay)
  {
    var h, target := HistoryOf(capacity, captures), send - delay;
    var first := LimiterFillsSlots(captures, readings, period);
    TicksToTarget(send, delay, target, maxDelay);
    RingReachesWithin(h, captures, first, period, send, target, maxDelay * TICKS_PER_SECOND, single);
    ReachesTarget(h, send, delay, target);
  }

  lemma RingReachesWithin(h: History, captures: seq<Capture>, first: int, period: int, send: real, target: real,
                          ticks: real, single: bool)
    requires period >= 1 && OneClock(captures) && SlotIncreasing(Steadies(captures), first, period)
    requires single ==> SingleRead(captures)
    requires StampedBy(h.pushed, captures) && h.capacity >= (if single then 2 else 3)
    requires Spans(h.capacity, period, ticks, single) && (send - target) * TICKS_PER_SECOND <= ticks
    ensures Reaches(h, send, target)
  {
    if |h.pushed| >= h.capacity && send >= h.pushed[|h.pushed| - 1].wallTime {
      SpansLess(h.capacity, period, (send - target) * TICKS_PER_SECOND, ticks, single);
      FullRingSpans(h, captures, first, period, send, target, single);
    }
  }

  lemma WorstIsNotReached(capacity: nat, period: int, delay: real, single: bool)
    requires capacity >= (if single then 2 else 3) && period >= 1
    requires !Spans(capacity, period, delay * TICKS_PER_SECOND, single)
    ensures var captures := WorstCaptures(capacity, period, 1, single);
      !ReachesInRun(capacity, captures, Seconds(captures[|captures| - 1].wall), delay)
  {
    var captures := WorstCaptures(capacity, period, 1, single);
    var n, e := |captures|, |captures| - capacity;
    assert captures[e].wall == 2 * period - 1;
    assert captures[n - 1].wall - captures[e].wall == SpannedTicks(capacity, period, single);
  }

  // The capacity formula.

  function MaxDelayTicks(config: DelayConfig, name: string): real {
    MaxDelayMs(config, name) / 1000.0 * TICKS_PER_SECOND
  }

  /** Truncating the period to ticks changes nothing. */
  predicate WholePeriod(rateHz: real)
    requires rateHz > 0.0
  {
    PeriodTicks(rateHz) as real * rateHz == TICKS_PER_SECOND
  }

  /** The history sized by `HistoryCapacity` covers every clamped delay: when the period is a whole number of ticks,
      or the margin is at least 0.01 ms, or the rate is at most 50 kHz; for one clock reading per capture also
      whenever the rate is at most 150 kHz.  Once full it spans every clamped delay in the first two cases, and for
      one clock reading per capture whenever the rate is at most 100 kHz. */
  lemma CapacityCovers(config: DelayConfig, name: string, rateHz: real, limit: nat)
    requires config.enabled && Accepts(config, rateHz, limit) && 4 <= limit <= MAX_HISTORY_SAMPLES
    requires EmptyNameIsUnset(config) && rateHz <= TICKS_PER_SECOND
    ensures var capacity, period := HistoryCapacity(config, name, rateHz), PeriodTicks(rateHz);
      var ticks := MaxDelayTicks(config, name);
      && capacity >= 4 && period >= 1
      && (config.historyMarginMs >= 0.01 || WholePeriod(rateHz) ==> Spans(capacity, period, ticks, false))
      && (rateHz <= 100000.0 ==> Spans(capacity, period, ticks, true))
      && (config.historyMarginMs >= 0.01 || WholePeriod(rateHz) || rateHz <= 50000.0 ==>
            Within(capacity, period, ticks, false))
      && (rateHz <= 150000.0 ==> Within(capacity, period, ticks, true))
  {
    AcceptedBoundsEveryName(config, rateHz, limit);
    WindowCovers(MaxDelayMs(config, name), config.historyMarginMs, rateHz, HistoryCapacity(config, name, rateHz));
  }

  lemma WindowCovers(maxDelayMs: real, marginMs: real, rateHz: real, capacity: nat)
    requires marginMs >= 0.0 && 0.0 < rateHz <= TICKS_PER_SECOND && 4 <= capacity <= MAX_HISTORY_SAMPLES
    requires capacity == CapacityForWindow((maxDelayMs + marginMs) / 1000.0, rateHz)
    ensures var period, ticks := PeriodTicks(rateHz), maxDelayMs / 1000.0 * TICKS_PER_SECOND;
      && period >= 1
      && (marginMs >= 0.01 || WholePeriod(rateHz) ==> Spans(capacity, period, ticks, false))
      && (rateHz <= 100000.0 ==> Spans(capacity, period, ticks, true))
      && (marginMs >= 0.01 || WholePeriod(rateHz) || rateHz <= 50000.0 ==> Within(capacity, period, ticks, false))
      && (rateHz <= 150000.0 ==> Within(capacity, period, ticks, true))
  {
    PeriodIsATickIff(rateHz);
    var period := PeriodTicks(rateHz);
    CapacityHoldsWindow((maxDelayMs + marginMs) / 1000.0, rateHz, capacity);
    HalfTicksAre(capacity, period);
    if rateHz <= 150000.0 {
      PeriodIsAtLeast(rateHz, 150000.0, 6666);
      if rateHz <= 100000.0 {
        PeriodIsAtLeast(rateHz, 100000.0, 10000);
      }
      if rateHz <= 50000.0 {
        PeriodIsAtLeast(rateHz, 50000.0, 20000);
      }
    }
  }

  lemma HalfTicksAre(capacity: int, period: int)
    ensures CoveredHalfTicks(capacity, period, false) == 2 * ((capacity - 3) * period) + period + 2
    ensures CoveredHalfTicks(capacity, period, true) == 2 * ((capacity - 3) * period) + 3 * period + 2
    ensures SpannedTicks(capacity, period, false) == (capacity - 3) * period + 1
    ensures SpannedTicks(capacity, period, true) == (capacity - 3) * period + period + 1
  {}

  /** Truncating the period to ticks costs at most one tick per stored sample. */
  lemma CapacityHoldsWindow(window: real, rateHz: real, capacity: nat)
    requires rateHz > 0.0 && capacity == CapacityForWindow(window, rateHz)
    ensures var period := PeriodTicks(rateHz);
      && window * TICKS_PER_SECOND <= ((capacity - 3) * period) as real + (capacity - 3) as real
      && (WholePeriod(rateHz) ==> window * TICKS_PER_SECOND <= ((capacity - 3) * period) as real)
  {
    var period, exact, spare := PeriodTicks(rateHz), TICKS_PER_SECOND / rateHz, (capacity - 3) as real;
    CeilBounds(window * rateHz);
    assert exact * rateHz == TICKS_PER_SECOND;
    ScaleBound(window, rateHz, exact, spare, period as real + 1.0);
    if WholePeriod(rateHz) {
      ScaleBound(window, rateHz, exact, spare, period as real);
    }
    assert spare * (period as real + 1.0) == spare * period as real + spare;
    assert spare * period as real == ((capacity - 3) * period) as real;
  }

  lemma ScaleBound(x: real, rate: real, exact: real, spare: real, bound: real)
    requires x * rate <= spare && 0.0 <= exact <= bound && exact * rate == TICKS_PER_SECOND && spare >= 0.0
    ensures x * TICKS_PER_SECOND <= spare * bound
  {
    RealMulMono(x * rate, spare, exact);
    assert (x * rate) * exact == x * (exact * rate);
    RealMulMono(exact, bound, spare);
  }

  lemma PeriodIsAtLeast(rateHz: real, fastest: real, ticks: nat)
    requires 0.0 < rateHz <= fastest && ticks as real * fastest <= TICKS_PER_SECOND
    ensures PeriodTicks(rateHz) >= ticks
  {
    var exact := TICKS_PER_SECOND / rateHz;
    assert exact * rateHz == TICKS_PER_SECOND;
    RealMulMono(rateHz, fastest, ticks as real);
    assert (exact - ticks as real) * rateHz >= 0.0;
    NonnegativeFactor(exact - ticks as real, rateHz);
  }

  const FAST_CONFIG :=
    DelayConfig(true, SendTime, 1, 0.000008, 0.0, DEFAULT_COMPONENT, map[])

  /** Without a margin an accepted configuration can be starved: at 625 MHz the 1.6 ns period truncates to
      one tick, and eight samples do not span an 8 ns delay. */
  lemma TruncatedPeriodStarves(single: bool)
    ensures Accepts(FAST_CONFIG, 625000000.0, MAX_HISTORY_SAMPLES)
    ensures PeriodTicks(625000000.0) == 1 && HistoryCapacity(FAST_CONFIG, "uav1", 625000000.0) == 8
    ensures !CoversAllRuns(8, 1, MaxDelayMs(FAST_CONFIG, "uav1") / 1000.0, single)
  {
    assert 0.000008 / 1000.0 * 625000000.0 == 5.0;
    assert TICKS_PER_SECOND / 625000000.0 == 1.6;
    CoverageIsExact(8, 1, 0.000008 / 1000.0, single);
  }

  const NO_MARGIN_CONFIG :=
    DelayConfig(true, SendTime, 1, 33.3333333, 0.0, DEFAULT_COMPONENT, map[])

  /** And an ordinary one can have a full ring that falls short of its delay: at 60 Hz the 16666666.7 ns period loses
      two thirds of a tick, and if the oldest of five samples was stamped late they may span 33333333 ticks only, a
      fraction of a tick less than the delay.  Stamped at the limiter's reading they do reach it. */
  lemma FullRingMayFallShort()
    ensures Accepts(NO_MARGIN_CONFIG, 60.0, MAX_HISTORY_SAMPLES)
    ensures PeriodTicks(60.0) == 16666666 && HistoryCapacity(NO_MARGIN_CONFIG, "uav1", 60.0) == 5
    ensures !ReachesInAllRuns(5, 16666666, MaxDelayMs(NO_MARGIN_CONFIG, "uav1") / 1000.0, false)
    ensures ReachesInAllRuns(5, 16666666, MaxDelayMs(NO_MARGIN_CONFIG, "uav1") / 1000.0, true)
  {
    assert 33.3333333 / 1000.0 * 60.0 == 1.999999998;
    assert 16666666.0 <= TICKS_PER_SECOND / 60.0 < 16666667.0;
    SpanIsExact(5, 16666666, 33.3333333 / 1000.0, false);
    SpanIsExact(5, 16666666, 33.3333333 / 1000.0, true);
  }
}
