/** The plugin's capture limiter: Gazebo updates far faster than the report rate, so a pose copy is
    taken at most once per slot of a fixed time grid.  Times are steady-clock ticks. */
module CaptureLimiting {
  import opened Numerics

  /** The value of a default-constructed time point: no capture has been scheduled yet. */
  const UNSET := 0

  /** A period in seconds truncated to clock ticks. */
  function PeriodTicks(rateHz: real): int
    requires rateHz > 0.0
  {
    (TICKS_PER_SECOND / rateHz).Floor
  }

  function GridPoint(start: int, period: int, k: int): int {
    start + k * period
  }

  datatype Admission = Admission(captured: bool, next: int)

  /** One update at `now`: skipped before the scheduled time, otherwise captured and rescheduled to
      the first grid point after `now`. */
  function Admit(next: int, period: int, now: int): Admission
    requires period >= 1
  {
    if next != UNSET && now < next then
      Admission(false, next)
    else
      var start := if next == UNSET then now else next;
      Admission(true, GridPoint(start, period, (now - start) / period + 1))
  }

  class CaptureLimiter {
    const period: int
    var nextCaptureTime: int

    constructor (rateHz: real)
      requires rateHz > 0.0
      ensures period == PeriodTicks(rateHz) && nextCaptureTime == UNSET
    {
      period := PeriodTicks(rateHz);
      nextCaptureTime := UNSET;
    }

    method OnUpdate(now: int) returns (captured: bool)
      requires period >= 1
      modifies this
      ensures Admission(captured, nextCaptureTime) == Admit(old(nextCaptureTime), period, now)
    {
      if nextCaptureTime != UNSET && now < nextCaptureTime {
        return false;
      }
      if nextCaptureTime == UNSET {
        nextCaptureTime := now;
      }
      ghost var start, k := nextCaptureTime, 1;
      nextCaptureTime := nextCaptureTime + period;
      while nextCaptureTime <= now
        invariant nextCaptureTime == GridPoint(start, period, k) && k >= 1
        invariant nextCaptureTime - period <= now
        decreases now - nextCaptureTime
      {
        nextCaptureTime := nextCaptureTime + period;
        k := k + 1;
      }
      DivUnique(now - start, period, k - 1);
      return true;
    }
  }

  /** The catch-up loop leaves its guard exactly when a period is at least one tick. */
  lemma CatchUpEndsIff(start: int, period: int, now: int)
    requires start <= now && period >= 0
    ensures (exists k :: k >= 1 && GridPoint(start, period, k) > now) <==> period >= 1
  {
    if period >= 1 {
      var k := now - start + 1;
      MulMono(1, period, k);
      assert GridPoint(start, period, k) > now;
    }
  }

  lemma PeriodIsATickIff(rateHz: real)
    requires rateHz > 0.0
    ensures PeriodTicks(rateHz) >= 1 <==> rateHz <= TICKS_PER_SECOND
  {
    var ratio := TICKS_PER_SECOND / rateHz;
    assert ratio * rateHz == TICKS_PER_SECOND;
    if rateHz <= TICKS_PER_SECOND && ratio < 1.0 {
      RealMulMono(ratio, 1.0, rateHz);
      assert false;
    }
    if ratio >= 1.0 {
      RealMulMono(1.0, ratio, rateHz);
    }
  }

  // Whole runs: the readings of one nondecreasing clock, one per update.

  ghost predicate ClockReadings(readings: seq<int>) {
    && (forall i :: 0 <= i < |readings| ==> 0 <= readings[i])
    && (forall i, j :: 0 <= i <= j < |readings| ==> readings[i] <= readings[j])
  }

  function NextAfter(readings: seq<int>, period: int): int
    requires period >= 1
  {
    if readings == [] then UNSET
    else Admit(NextAfter(readings[..|readings| - 1], period), period, readings[|readings| - 1]).next
  }

  predicate Captured(readings: seq<int>, period: int, i: nat)
    requires period >= 1 && i < |readings|
  {
    Admit(NextAfter(readings[..i], period), period, readings[i]).captured
  }

  function Slot(first: int, period: int, time: int): int
    requires period >= 1
  {
    (time - first) / period
  }

  lemma SlotBounds(first: int, period: int, time: int)
    requires period >= 1
    ensures var slot := Slot(first, period, time); slot * period <= time - first < slot * period + period
  {}

  lemma SlotIs(first: int, period: int, time: int, slot: int)
    requires period >= 1 && slot * period <= time - first < slot * period + period
    ensures Slot(first, period, time) == slot
  {
    DivUnique(time - first, period, slot);
  }

  lemma SlotAfterHops(first: int, period: int, now: int, slot: int, hops: int)
    requires period >= 1
    requires hops * period <= now - GridPoint(first, period, slot + 1) < hops * period + period
    ensures Slot(first, period, now) == slot + 1 + hops
  {
    GridPointsAdd(first, period, slot + 1, hops);
    SlotIs(first, period, now, slot + 1 + hops);
  }

  lemma NextPoint(first: int, period: int, slot: int)
    ensures GridPoint(first, period, slot + 1) == first + slot * period + period
  {}

  /** One update from a schedule that lies on the grid just after the previous reading. */
  lemma AdmitKeepsGrid(first: int, period: int, last: int, now: int)
    requires period >= 1 && 0 <= first <= last <= now
    ensures var slot, next := Slot(first, period, last), GridPoint(first, period, Slot(first, period, last) + 1);
      && next - period <= last < next && next > 0
      && Admit(next, period, now).next == GridPoint(first, period, Slot(first, period, now) + 1)
      && (Admit(next, period, now).captured <==> slot < Slot(first, period, now))
  {
    var slot := Slot(first, period, last);
    var next := GridPoint(first, period, slot + 1);
    SlotBounds(first, period, last);
    NextPoint(first, period, slot);
    if now < next {
      SlotIs(first, period, now, slot);
    } else {
      var hops := Slot(next, period, now);
      SlotBounds(next, period, now);
      SlotAfterHops(first, period, now, slot, hops);
      GridPointsAdd(first, period, slot + 1, hops + 1);
      assert 0 <= hops by { DivMono(0, now - next, period); }
    }
  }

  lemma GridPointsAdd(start: int, period: int, j: int, k: int)
    ensures GridPoint(GridPoint(start, period, j), period, k) == GridPoint(start, period, j + k)
  {}

  /** The next capture time always lies on the grid the first capture started. */
  lemma {:induction false} NextIsOnGrid(readings: seq<int>, period: int)
    requires period >= 1 && readings != [] && ClockReadings(readings)
    ensures var first, last := readings[0], readings[|readings| - 1];
      && NextAfter(readings, period) == GridPoint(first, period, Slot(first, period, last) + 1)
      && NextAfter(readings, period) - period <= last < NextAfter(readings, period)
  {
    var front := readings[..|readings| - 1];
    var first, now := readings[0], readings[|readings| - 1];
    AdmitKeepsGrid(first, period, now, now);
    if front == [] {
      DivUnique(0, period, 0);
    } else {
      NextIsOnGrid(front, period);
      AdmitKeepsGrid(first, period, front[|front| - 1], now);
    }
  }

  /** The limiter captures exactly the first update that falls in each slot. */
  lemma CapturedIffFirstInSlot(readings: seq<int>, period: int, i: nat)
    requires period >= 1 && i < |readings| && ClockReadings(readings)
    ensures Captured(readings, period, i) <==>
      i == 0 || Slot(readings[0], period, readings[i - 1]) < Slot(readings[0], period, readings[i])
  {
    if i > 0 {
      NextIsOnGrid(readings[..i], period);
      AdmitKeepsGrid(readings[0], period, readings[i - 1], readings[i]);
    }
  }

  /** The capture times of a run, in order. */
  function Captures(readings: seq<int>, period: int): seq<int>
    requires period >= 1
  {
    if readings == [] then []
    else
      var last := |readings| - 1;
      Captures(readings[..last], period) + (if Captured(readings, period, last) then [readings[last]] else [])
  }

  ghost predicate SlotIncreasing(times: seq<int>, first: int, period: int)
    requires period >= 1
  {
    forall i, j :: 0 <= i < j < |times| ==> Slot(first, period, times[i]) < Slot(first, period, times[j])
  }

  /** Each slot yields at most one capture, and every update's slot has yielded one. */
  lemma {:induction false} CapturesFillSlots(readings: seq<int>, period: int)
    requires period >= 1 && readings != [] && ClockReadings(readings)
    ensures var c := Captures(readings, period);
      && c != [] && c[0] == readings[0]
      && SlotIncreasing(c, readings[0], period)
      && Slot(readings[0], period, c[|c| - 1]) == Slot(readings[0], period, readings[|readings| - 1])
      && c[|c| - 1] <= readings[|readings| - 1]
  {
    var last := |readings| - 1;
    CapturedIffFirstInSlot(readings, period, last);
    if last > 0 {
      var front := readings[..last];
      CapturesFillSlots(front, period);
      DivMono(readings[last - 1] - readings[0], readings[last] - readings[0], period);
    }
  }

  lemma {:induction false} SlotsApart(times: seq<int>, first: int, period: int, a: nat, b: nat)
    requires period >= 1 && a <= b < |times| && SlotIncreasing(times, first, period)
    ensures Slot(first, period, times[a]) + (b - a) <= Slot(first, period, times[b])
    decreases b
  {
    if a < b {
      SlotsApart(times, first, period, a, b - 1);
    }
  }

  /** Any m + 1 successive captures span more than (m - 1) periods. */
  lemma CaptureSpan(times: seq<int>, first: int, period: int, a: nat, b: nat)
    requires period >= 1 && a < b < |times| && SlotIncreasing(times, first, period)
    ensures (b - a - 1) * period < times[b] - times[a]
  {
    SlotsApart(times, first, period, a, b);
    SlotBounds(first, period, times[a]);
    SlotBounds(first, period, times[b]);
    SpanArithmetic(Slot(first, period, times[a]), Slot(first, period, times[b]), b - a, period, times[a] - first,
                   times[b] - first);
  }

  lemma SpanArithmetic(low: int, high: int, gap: int, period: int, x: int, y: int)
    requires period >= 1 && low + gap <= high && x < low * period + period && high * period <= y
    ensures (gap - 1) * period < y - x
  {
    MulMono(low + gap, high, period);
    assert (low + gap) * period == low * period + gap * period;
    assert (gap - 1) * period == gap * period - period;
  }
}
