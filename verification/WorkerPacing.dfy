/** The worker's paced loop: a fixed cycle with catch-up when it has fallen behind.  Times are ticks. */
module WorkerPacing {

  /** The next wait deadline, from the previous one and the time read in this cycle. */
  function Paced(next: int, period: int, now: int): int {
    if next + period + period < now then now + period else next + period
  }

  class CyclePacer {
    const period: int
    var nextCycle: int

    constructor (period: int, start: int)
      ensures this.period == period && nextCycle == start
    {
      this.period, nextCycle := period, start;
    }

    method EndCycle(now: int)
      modifies this
      ensures nextCycle == Paced(old(nextCycle), period, now)
      ensures old(nextCycle) + 2 * period < now ==> nextCycle == now + period
      ensures old(nextCycle) + 2 * period >= now ==> nextCycle == old(nextCycle) + period
    {
      nextCycle := nextCycle + period;
      if nextCycle + period < now {
        nextCycle := now + period;
      }
    }
  }

  /** The deadline after cycles in which the given times were read. */
  function Deadline(start: int, period: int, nows: seq<int>): int {
    if nows == [] then start
    else Paced(Deadline(start, period, nows[..|nows| - 1]), period, nows[|nows| - 1])
  }

  /** Without a stop request a wait ends no earlier than its deadline, and a cycle may take any time. */
  ghost predicate Waited(start: int, period: int, nows: seq<int>) {
    forall i {:trigger nows[i]} :: 0 <= i < |nows| ==> Deadline(start, period, nows[..i]) <= nows[i]
  }

  /** At each wait the deadline is within one period of the time read in that cycle: a stop whose
      notification is missed is seen at most one period after that read. */
  lemma DeadlineIsNear(start: int, period: int, nows: seq<int>)
    requires period >= 0 && nows != [] && Waited(start, period, nows)
    ensures var now, next := nows[|nows| - 1], Deadline(start, period, nows);
      now - period <= next <= now + period
  {
    assert Deadline(start, period, nows[..|nows| - 1]) <= nows[|nows| - 1];
  }

  lemma OneMorePeriod(n: int, period: int)
    ensures (n + 1) * period == n * period + period
  {}

  lemma DeadlineStep(start: int, period: int, nows: seq<int>, i: nat)
    requires period >= 0 && i < |nows| && Waited(start, period, nows)
    ensures Deadline(start, period, nows[..i]) + period <= Deadline(start, period, nows[..i + 1])
  {
    assert nows[..i + 1][..i] == nows[..i];
    assert Deadline(start, period, nows[..i]) <= nows[i];
  }

  lemma {:induction false} DeadlinesAdvance(start: int, period: int, nows: seq<int>, i: nat)
    requires period >= 0 && i <= |nows| && Waited(start, period, nows)
    ensures Deadline(start, period, nows[..i]) + (|nows| - i) * period <= Deadline(start, period, nows)
    decreases |nows| - i
  {
    if i == |nows| {
      assert nows[..i] == nows;
    } else {
      DeadlinesAdvance(start, period, nows, i + 1);
      DeadlineStep(start, period, nows, i);
      OneMorePeriod(|nows| - (i + 1), period);
    }
  }

  lemma WaitedPrefix(start: int, period: int, nows: seq<int>, k: nat)
    requires k <= |nows| && Waited(start, period, nows)
    ensures Waited(start, period, nows[..k])
  {
    forall i | 0 <= i < k
      ensures Deadline(start, period, nows[..k][..i]) <= nows[..k][i]
    {
      assert nows[..k][..i] == nows[..i];
      assert Deadline(start, period, nows[..i]) <= nows[i];
    }
  }

  /** However long individual cycles run, m further cycles take at least m - 2 periods. */
  lemma CyclesArePaced(start: int, period: int, nows: seq<int>, i: nat, m: nat)
    requires period >= 0 && m >= 1 && i + m < |nows| && Waited(start, period, nows)
    ensures (m - 2) * period <= nows[i + m] - nows[i]
  {
    var upTo := nows[..i + m];
    WaitedPrefix(start, period, nows, i + 1);
    WaitedPrefix(start, period, nows, i + m);
    DeadlineIsNear(start, period, nows[..i + 1]);
    DeadlinesAdvance(start, period, upTo, i + 1);
    assert upTo[..i + 1] == nows[..i + 1];
    assert Deadline(start, period, upTo) <= nows[i + m];
    assert (m - 2) * period == (m - 1) * period - period;
  }

  /** The bound is met: a worker that is late, but not late enough to be caught up, runs three cycles at one
      instant. */
  lemma PacingBoundIsMet(period: int)
    requires period >= 1
    ensures var nows := [2 * period, 2 * period, 2 * period];
      Waited(0, period, nows) && nows[2] - nows[0] == (2 - 2) * period
  {
    var nows := [2 * period, 2 * period, 2 * period];
    assert nows[..0] == [] && nows[..1] == [2 * period] && nows[..2] == [2 * period, 2 * period];
    assert nows[..1][..0] == [] && nows[..2][..1] == nows[..1];
    assert Deadline(0, period, nows[..1]) == period;
    assert Deadline(0, period, nows[..2]) == 2 * period;
  }
}
