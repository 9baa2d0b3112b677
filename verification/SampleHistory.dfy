/** The bounded per-tracker sample history: a ring buffer with a nearest-in-time query. */
module SampleHistory {
  import opened Numerics
  import opened Geometry
  import opened Folding

  datatype TrackerSample = TrackerSample(
    wallTime: real,
    sourceTime: real,
    pose: Pose,
    linearVelocity: Vector3,
    angularVelocity: Vector3,
    linearAcceleration: Vector3,
    angularAcceleration: Vector3,
    haveVelocity: bool,
    haveAcceleration: bool,
    reportInterval: real)

  const BLANK_SAMPLE :=
    TrackerSample(0.0, 0.0, NO_POSE, ZERO, ZERO, ZERO, ZERO, false, false, 0.0)

  function Distance(sample: TrackerSample, target: real): real {
    Abs(sample.wallTime - target)
  }

  /** What the query promises: no stored sample is closer, and no later one is as close. */
  ghost predicate IsNearest(samples: seq<TrackerSample>, target: real, i: nat) {
    && i < |samples|
    && (forall j :: 0 <= j < |samples| ==> Distance(samples[i], target) <= Distance(samples[j], target))
    && (forall j :: i < j < |samples| ==> Distance(samples[i], target) < Distance(samples[j], target))
  }

  /** The scan itself, oldest first, keeping the later sample on ties. */
  function NearestIndex(samples: seq<TrackerSample>, target: real): (i: nat)
    requires samples != []
    ensures i < |samples|
  {
    var last := |samples| - 1;
    if last == 0 then 0
    else
      var best := NearestIndex(samples[..last], target);
      if Distance(samples[last], target) <= Distance(samples[best], target) then last else best
  }

  lemma {:induction false} NearestIndexIsNearest(samples: seq<TrackerSample>, target: real)
    requires samples != []
    ensures IsNearest(samples, target, NearestIndex(samples, target))
  {
    var last := |samples| - 1;
    if last > 0 {
      var front := samples[..last];
      NearestIndexIsNearest(front, target);
      var best := NearestIndex(front, target);
      forall j | 0 <= j < last
        ensures Distance(samples[best], target) <= Distance(samples[j], target)
        ensures best < j ==> Distance(samples[best], target) < Distance(samples[j], target)
      {
        assert front[j] == samples[j];
      }
    }
  }

  lemma NearestIsUnique(samples: seq<TrackerSample>, target: real, i: nat)
    requires IsNearest(samples, target, i)
    ensures NearestIndex(samples, target) == i
  {
    NearestIndexIsNearest(samples, target);
  }

  /** One more step of the scan. */
  lemma NearestIndexStep(samples: seq<TrackerSample>, target: real, i: nat)
    requires 0 < i < |samples|
    ensures var best := NearestIndex(samples[..i], target);
      NearestIndex(samples[..i + 1], target) ==
      if Distance(samples[i], target) <= Distance(samples[best], target) then i else best
  {
    assert samples[..i + 1][..i] == samples[..i];
  }

  function EmptyHistory(capacity: nat): History {
    History(if capacity < 1 then 1 else capacity, [])
  }

  /** The value of a history: its capacity and every sample pushed since the last reset. */
  datatype History = History(capacity: nat, pushed: seq<TrackerSample>) {

    /** A moved-from history has no buffer; pushing to it first makes room for one sample. */
    function Push(sample: TrackerSample): History {
      History(if capacity == 0 then 1 else capacity, pushed + [sample])
    }

    function Cleared(): History {
      EmptyHistory(capacity)
    }

    /** How many of the pushed samples have been evicted. */
    function Evicted(): nat {
      if |pushed| <= capacity then 0 else |pushed| - capacity
    }

    function Stored(): seq<TrackerSample> {
      pushed[Evicted()..]
    }

    /** The push number of the sample `latest` returns. */
    function LatestNumber(): nat
      requires pushed != []
    {
      |pushed| - 1
    }

    /** The push number of the sample `nearest` returns. */
    function NearestNumber(target: real): (n: nat)
      requires pushed != [] && capacity > 0
      ensures Evicted() <= n < |pushed|
    {
      Evicted() + NearestIndex(Stored(), target)
    }
  }

  lemma Wrap(x: nat, n: nat)
    requires 0 < n && x < 2 * n
    ensures x % n == if x < n then x else x - n
  {
    DivUnique(x, n, if x < n then 0 else 1);
  }

  /** `(oldest + offset) % capacity`, without the remainder. */
  function RingIndex(oldest: nat, offset: nat, capacity: nat): (i: nat)
    requires oldest < capacity && offset < capacity
    ensures i < capacity
  {
    if oldest + offset < capacity then oldest + offset else oldest + offset - capacity
  }

  function Oldest(capacity: nat, nextIndex: nat, size: nat): nat {
    if size == capacity then nextIndex else 0
  }

  /** A ring holds the last `size` pushed samples, oldest first from its oldest index.
      An empty buffer is what a moved-from history has. */
  ghost predicate Holds(ring: seq<TrackerSample>, nextIndex: nat, size: nat, pushed: seq<TrackerSample>) {
    if ring == [] then nextIndex == size == 0 && pushed == []
    else
      && nextIndex < |ring|
      && size == (if |pushed| <= |ring| then |pushed| else |ring|)
      && (size < |ring| ==> nextIndex == size)
      && forall k :: 0 <= k < size ==>
        ring[RingIndex(Oldest(|ring|, nextIndex, size), k, |ring|)] == pushed[|pushed| - size + k]
  }

  lemma StoreHolds(ring: seq<TrackerSample>, nextIndex: nat, size: nat, pushed: seq<TrackerSample>,
                   sample: TrackerSample)
    requires ring != [] && Holds(ring, nextIndex, size, pushed)
    ensures Holds(ring[nextIndex := sample], (nextIndex + 1) % |ring|,
                  if size < |ring| then size + 1 else size, pushed + [sample])
  {
    var n, next, now := |ring|, (nextIndex + 1) % |ring|, if size < |ring| then size + 1 else size;
    Wrap(nextIndex + 1, n);
    forall k | 0 <= k < now - 1
      ensures ring[nextIndex := sample][RingIndex(Oldest(n, next, now), k, n)] ==
              (pushed + [sample])[|pushed| + 1 - now + k]
    {
      var before := RingIndex(Oldest(n, nextIndex, size), if size == n then k + 1 else k, n);
      assert before == RingIndex(Oldest(n, next, now), k, n) != nextIndex;
    }
  }

  class TrackerSampleHistory {
    var samples: array<TrackerSample>
    var nextIndex: nat
    var size: nat
    ghost var pushed: seq<TrackerSample>

    /** The buffer holds the pushed samples.  The quantifier stands for opacity (see `Folding`): it says
        `Holds(samples[..], nextIndex, size, pushed)`, to be unfolded by the methods that look inside the buffer. */
    ghost predicate Valid()
      reads this, samples
    {
      forall m: Mark {:trigger Open(m)} :: Open(m) && m == InsideRing ==> Holds(samples[..], nextIndex, size, pushed)
    }

    ghost function Value(): History
      reads this
    {
      History(samples.Length, pushed)
    }

    constructor (capacity: nat)
      ensures Valid() && fresh(samples)
      ensures Value() == EmptyHistory(capacity)
    {
      samples := new TrackerSample[if capacity < 1 then 1 else capacity](_ => BLANK_SAMPLE);
      nextIndex, size, pushed := 0, 0, [];
    }

    /** A buffer of the right length is reused. */
    method Reset(capacity: nat)
      modifies this, samples
      ensures Valid() && Value() == EmptyHistory(capacity)
      ensures if EmptyHistory(capacity).capacity == old(samples.Length) then samples == old(samples) else fresh(samples)
    {
      var length := if capacity < 1 then 1 else capacity;
      if length == samples.Length {
        forall i | 0 <= i < length {
          samples[i] := BLANK_SAMPLE;
        }
      } else {
        samples := new TrackerSample[length](_ => BLANK_SAMPLE);
      }
      nextIndex, size, pushed := 0, 0, [];
    }

    method Push(sample: TrackerSample)
      requires Valid()
      modifies this, samples
      ensures Valid()
      ensures Value() == old(Value()).Push(sample)
      ensures if old(samples.Length) > 0 then samples == old(samples) else fresh(samples)
    {
      assert Open(InsideRing);
      if samples.Length == 0 {
        Reset(1);
      }
      StoreHolds(samples[..], nextIndex, size, pushed, sample);
      ghost var stored := samples[..][nextIndex := sample];
      samples[nextIndex] := sample;
      assert samples[..] == stored;
      nextIndex := (nextIndex + 1) % samples.Length;
      if size < samples.Length {
        size := size + 1;
      }
      pushed := pushed + [sample];
    }

    method Latest() returns (r: Option<TrackerSample>)
      requires Valid()
      ensures if pushed == [] then r == None
              else Value().capacity > 0 && r == Some(pushed[Value().LatestNumber()])
    {
      assert Open(InsideRing);
      if size == 0 {
        return None;
      }
      var index := (nextIndex + samples.Length - 1) % samples.Length;
      Wrap(nextIndex + samples.Length - 1, samples.Length);
      assert index == RingIndex(Oldest(samples.Length, nextIndex, size), size - 1, samples.Length);
      return Some(samples[index]);
    }

    method Nearest(target: real) returns (r: Option<TrackerSample>)
      requires Valid()
      ensures if pushed == [] then r == None
              else Value().capacity > 0 && r == Some(pushed[Value().NearestNumber(target)])
    {
      assert Open(InsideRing);
      if size == 0 {
        return None;
      }
      var best: Option<TrackerSample>, bestDistance := None, 0.0;
      ghost var stored := Value().Stored();
      for i := 0 to size
        invariant i == 0 <==> best == None
        invariant i > 0 ==> best == Some(stored[NearestIndex(stored[..i], target)])
        invariant i > 0 ==> bestDistance == Distance(best.value, target)
      {
        var index := OldestOffsetToIndex(i);
        var sample := samples[index];
        assert sample == stored[i];
        if i > 0 {
          NearestIndexStep(stored, target, i);
        }
        var distance := Distance(sample, target);
        if best == None || distance <= bestDistance {
          best, bestDistance := Some(sample), distance;
        }
      }
      assert stored[..size] == stored;
      return best;
    }

    method OldestOffsetToIndex(offset: nat) returns (index: nat)
      requires Oldest(samples.Length, nextIndex, size) < samples.Length && offset < samples.Length
      ensures index == RingIndex(Oldest(samples.Length, nextIndex, size), offset, samples.Length)
    {
      var oldestIndex := if size == samples.Length then nextIndex else 0;
      Wrap(oldestIndex + offset, samples.Length);
      index := (oldestIndex + offset) % samples.Length;
    }
  }
}
