/** Conversion of seconds to the `timeval` of a VRPN report. */
module Timevals {
  import opened Numerics

  const MICROS := 1000000

  datatype Timeval = Timeval(sec: int, usec: int)

  /** Round half away from zero, for nonnegative values. */
  function Round(x: real): int
    requires x >= 0.0
  {
    (x + 0.5).Floor
  }

  function SecondsToTimeval(timeS: real): Timeval {
    var time := Max(timeS, 0.0);
    var whole := time.Floor;
    var usec := Round((time - whole as real) * 1000000.0);
    if usec >= MICROS then Timeval(whole + 1, usec - MICROS) else Timeval(whole, usec)
  }

  function TotalMicros(t: Timeval): int {
    t.sec * MICROS + t.usec
  }

  ghost predicate NotAfter(a: Timeval, b: Timeval) {
    a.sec < b.sec || (a.sec == b.sec && a.usec <= b.usec)
  }

  /** The result is normalised and is the nearest microsecond to the time, negative times read as zero. */
  lemma TimevalIsNearest(timeS: real)
    ensures var t := SecondsToTimeval(timeS);
      && 0 <= t.usec < MICROS && 0 <= t.sec
      && TotalMicros(t) == Round(Max(timeS, 0.0) * 1000000.0)
      && 2.0 * Abs(TotalMicros(t) as real - Max(timeS, 0.0) * 1000000.0) <= 1.0
  {
    var time := Max(timeS, 0.0);
    var whole := time.Floor;
    var fraction := (time - whole as real) * 1000000.0;
    assert time * 1000000.0 + 0.5 == (whole * MICROS) as real + (fraction + 0.5);
    assert (time * 1000000.0 + 0.5).Floor == whole * MICROS + (fraction + 0.5).Floor;
  }

  lemma TimevalIsMonotone(a: real, b: real)
    requires a <= b
    ensures NotAfter(SecondsToTimeval(a), SecondsToTimeval(b))
  {
    TimevalIsNearest(a);
    TimevalIsNearest(b);
  }

  /** A time that falls by no more than a given amount takes its conversion back by that and one microsecond. */
  lemma TimevalFallsLittle(a: real, b: real, fall: real)
    requires a - b <= fall && fall >= 0.0
    ensures (TotalMicros(SecondsToTimeval(a)) - TotalMicros(SecondsToTimeval(b))) as real <= 1.0 + fall * 1000000.0
  {
    TimevalIsNearest(a);
    TimevalIsNearest(b);
  }

  lemma ExactMicrosecondsSurvive(sec: nat, usec: nat)
    requires usec < MICROS
    ensures SecondsToTimeval(sec as real + usec as real / 1000000.0) == Timeval(sec, usec)
  {
    var time := sec as real + usec as real / 1000000.0;
    assert 0.0 <= usec as real / 1000000.0 < 1.0;
    assert time.Floor == sec;
    assert (time - sec as real) * 1000000.0 == usec as real;
  }
}
