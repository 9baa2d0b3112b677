/** The diagnostic tool that compares two recorded streams: percentiles, and pairing each record with the
    nearest one of the other stream. */
module BackendComparison {
  import opened Numerics

  // Percentiles

  ghost predicate Sorted(s: seq<real>) {
    forall i, j :: 0 <= i <= j < |s| ==> s[i] <= s[j]
  }

  function InsertValue(s: seq<real>, x: real): (r: seq<real>)
    ensures |r| == |s| + 1
  {
    if s == [] then [x]
    else if x <= s[0] then [x] + s
    else [s[0]] + InsertValue(s[1..], x)
  }

  function SortedValues(values: seq<real>): (r: seq<real>)
    ensures |r| == |values|
  {
    if values == [] then [] else InsertValue(SortedValues(values[1..]), values[0])
  }

  lemma {:induction false} InsertKeepsValues(s: seq<real>, x: real)
    ensures multiset(InsertValue(s, x)) == multiset(s) + multiset{x}
  {
    if s != [] && x > s[0] {
      var rest := s[1..];
      InsertKeepsValues(rest, x);
      assert s == [s[0]] + rest;
      assert InsertValue(s, x) == [s[0]] + InsertValue(rest, x);
    }
  }

  lemma {:induction false} InsertKeepsSorted(s: seq<real>, x: real)
    requires Sorted(s)
    ensures Sorted(InsertValue(s, x))
    ensures forall j :: 0 <= j < |InsertValue(s, x)| ==> InsertValue(s, x)[j] == x || InsertValue(s, x)[j] in s
  {
    if s != [] && x > s[0] {
      InsertKeepsSorted(s[1..], x);
    }
  }

  lemma {:induction false} SortedValuesAre(values: seq<real>)
    ensures Sorted(SortedValues(values)) && multiset(SortedValues(values)) == multiset(values)
  {
    if values != [] {
      SortedValuesAre(values[1..]);
      InsertKeepsSorted(SortedValues(values[1..]), values[0]);
      InsertKeepsValues(SortedValues(values[1..]), values[0]);
      assert values == [values[0]] + values[1..];
    }
  }

  lemma SortedHasTheSame(values: seq<real>)
    ensures forall v :: v in values <==> v in SortedValues(values)
  {
    SortedValuesAre(values);
    forall v
      ensures v in values <==> v in SortedValues(values)
    {
      assert v in multiset(values) <==> v in multiset(SortedValues(values));
    }
  }

  function Mean(low: real, high: real, weight: real): real {
    low * (1.0 - weight) + high * weight
  }

  /** Linear interpolation between the two neighbours of a fractional position. */
  function Interpolated(ordered: seq<real>, position: real): real
    requires 0.0 <= position <= (|ordered| - 1) as real
  {
    var lower, upper := position.Floor, Ceil(position);
    CeilBounds(position);
    if lower == upper then ordered[lower]
    else Mean(ordered[lower], ordered[upper], position - lower as real)
  }

  function Position(fraction: real, last: nat): (position: real)
    requires 0.0 <= fraction <= 1.0
    ensures 0.0 <= position <= last as real
  {
    var bound := last as real;
    RealMulMono(0.0, fraction, bound);
    RealMulMono(fraction, 1.0, bound);
    fraction * bound
  }

  function Percentile(values: seq<real>, fraction: real): Option<real>
    requires 0.0 <= fraction <= 1.0
  {
    if values == [] then None
    else Some(Interpolated(SortedValues(values), Position(fraction, |values| - 1)))
  }

  /** Two values in the given proportion. */
  function Weighted(low: real, high: real, w: real): real {
    (1.0 - w) * low + w * high
  }

  lemma InterpolatedAt(ordered: seq<real>, position: real, k: nat, w: real)
    requires 0.0 <= position <= (|ordered| - 1) as real
    requires 0.0 <= w < 1.0 && position == k as real + w
    ensures k < |ordered| && (w == 0.0 ==> Interpolated(ordered, position) == ordered[k])
    ensures w > 0.0 ==>
      k + 1 < |ordered| && Interpolated(ordered, position) == Weighted(ordered[k], ordered[k + 1], w)
  {
    assert position.Floor == k;
    CeilBounds(position);
    assert Ceil(position) == if w == 0.0 then k else k + 1;
    if w > 0.0 {
      MeanIs(ordered[k], ordered[k + 1], position - k as real, w);
    }
  }

  lemma MeanIs(low: real, high: real, weight: real, w: real)
    requires weight == w
    ensures Mean(low, high, weight) == Weighted(low, high, w)
  {}

  lemma PercentileAt(values: seq<real>, fraction: real, k: nat, w: real)
    requires 0.0 <= fraction <= 1.0
    requires values != [] && 0.0 <= w < 1.0 && Position(fraction, |values| - 1) == k as real + w
    ensures k < |values| && (w == 0.0 ==> Percentile(values, fraction) == Some(SortedValues(values)[k]))
    ensures w > 0.0 ==>
      && k + 1 < |values|
      && Percentile(values, fraction) == Some(Weighted(SortedValues(values)[k], SortedValues(values)[k + 1], w))
  {
    InterpolatedAt(SortedValues(values), Position(fraction, |values| - 1), k, w);
  }

  lemma PositionIs(fraction: real, last: nat, position: real)
    requires 0.0 <= fraction <= 1.0 && fraction * last as real == position
    ensures Position(fraction, last) == position
  {}

  /** A percentile: the value whose rank is the fraction of the way from the first to the last one, and between two
      ranks the two values in proportion to how near they are. */
  lemma PercentileIs(values: seq<real>, fraction: real, ordered: seq<real>, k: nat, w: real)
    requires 0.0 <= fraction <= 1.0 && Sorted(ordered) && multiset(ordered) == multiset(values)
    requires values != [] && 0.0 <= w < 1.0 && fraction * (|values| - 1) as real == k as real + w
    ensures |ordered| == |values| && k < |values|
    ensures w == 0.0 ==> Percentile(values, fraction) == Some(ordered[k])
    ensures w > 0.0 ==>
      k + 1 < |values| && Percentile(values, fraction) == Some(Weighted(ordered[k], ordered[k + 1], w))
  {
    PositionIs(fraction, |values| - 1, k as real + w);
    PercentileAt(values, fraction, k, w);
    SortedValuesAre(values);
    SortedIsUnique(SortedValues(values), ordered);
  }

  lemma Between(low: real, high: real, weight: real)
    requires low <= high && 0.0 <= weight <= 1.0
    ensures low <= Mean(low, high, weight) <= high
  {
    RealMulMono(0.0, weight, high - low);
    RealMulMono(weight, 1.0, high - low);
    assert Mean(low, high, weight) == low + weight * (high - low);
  }

  lemma WeightMoves(low: real, high: real, v: real, w: real)
    requires low <= high && v <= w
    ensures Mean(low, high, v) <= Mean(low, high, w)
  {
    RealMulMono(v, w, high - low);
    assert Mean(low, high, v) == low + v * (high - low);
    assert Mean(low, high, w) == low + w * (high - low);
  }

  lemma InterpolationIsBetween(ordered: seq<real>, position: real)
    requires Sorted(ordered) && 0.0 <= position <= (|ordered| - 1) as real
    ensures ordered[position.Floor] <= Interpolated(ordered, position)
    ensures position.Floor + 1 < |ordered| ==> Interpolated(ordered, position) <= ordered[position.Floor + 1]
    ensures position == position.Floor as real ==> Interpolated(ordered, position) == ordered[position.Floor]
  {
    CeilBounds(position);
    var lower, upper := position.Floor, Ceil(position);
    if lower != upper {
      assert upper == lower + 1;
      Between(ordered[lower], ordered[upper], position - lower as real);
    }
  }

  lemma InterpolationInRange(ordered: seq<real>, position: real)
    requires Sorted(ordered) && 0.0 <= position <= (|ordered| - 1) as real
    ensures ordered[0] <= Interpolated(ordered, position) <= ordered[|ordered| - 1]
  {
    InterpolationIsBetween(ordered, position);
    CeilBounds(position);
  }

  /** A percentile lies between the least and the greatest value, which are the 0 and the 1 percentile. */
  lemma PercentileInRange(values: seq<real>, fraction: real)
    requires values != [] && 0.0 <= fraction <= 1.0
    ensures var least, greatest := Percentile(values, 0.0).value, Percentile(values, 1.0).value;
      && least in values && greatest in values
      && (forall v :: v in values ==> least <= v <= greatest)
      && least <= Percentile(values, fraction).value <= greatest
  {
    var ordered, last := SortedValues(values), |values| - 1;
    SortedValuesAre(values);
    SortedHasTheSame(values);
    assert Position(0.0, last) == 0.0 && Position(1.0, last) == last as real;
    InterpolationIsBetween(ordered, 0.0);
    InterpolationIsBetween(ordered, last as real);
    InterpolationInRange(ordered, Position(fraction, last));
    assert ordered[0] in ordered && ordered[last] in ordered;
  }

  /** Percentiles are monotone in the fraction. */
  lemma InterpolationIsMonotone(ordered: seq<real>, p: real, q: real)
    requires Sorted(ordered) && 0.0 <= p <= q <= (|ordered| - 1) as real
    ensures Interpolated(ordered, p) <= Interpolated(ordered, q)
  {
    CeilBounds(p);
    CeilBounds(q);
    InterpolationIsBetween(ordered, p);
    InterpolationIsBetween(ordered, q);
    if p.Floor == q.Floor && p.Floor as real < p {
      assert Ceil(p) == Ceil(q) == p.Floor + 1;
      WeightMoves(ordered[p.Floor], ordered[p.Floor + 1], p - p.Floor as real, q - q.Floor as real);
    }
  }

  lemma PositionIsMonotone(f: real, g: real, last: nat)
    requires 0.0 <= f <= g <= 1.0
    ensures Position(f, last) <= Position(g, last)
  {
    var bound := last as real;
    assert (g - f) * bound >= 0.0;
    assert Position(g, last) - Position(f, last) == (g - f) * bound;
  }

  lemma PercentileIsMonotone(values: seq<real>, f: real, g: real)
    requires values != [] && 0.0 <= f <= g <= 1.0
    ensures Percentile(values, f).value <= Percentile(values, g).value
  {
    var last := |values| - 1;
    SortedValuesAre(values);
    PositionIsMonotone(f, g, last);
    InterpolationIsMonotone(SortedValues(values), Position(f, last), Position(g, last));
  }

  lemma LeastComesFirst(a: seq<real>, b: seq<real>)
    requires Sorted(a) && Sorted(b) && multiset(a) == multiset(b) && a != [] && b != []
    ensures a[0] == b[0]
  {
    assert a[0] in multiset(b) && b[0] in multiset(a);
  }

  lemma RestOf(s: seq<real>)
    requires s != []
    ensures multiset(s[1..]) == multiset(s) - multiset{s[0]}
  {
    assert s == [s[0]] + s[1..];
  }

  lemma {:induction false} SortedIsUnique(a: seq<real>, b: seq<real>)
    requires Sorted(a) && Sorted(b) && multiset(a) == multiset(b)
    ensures a == b
  {
    assert |multiset(a)| == |a| && |multiset(b)| == |b|;
    if a != [] {
      LeastComesFirst(a, b);
      RestOf(a);
      RestOf(b);
      SortedIsUnique(a[1..], b[1..]);
      assert a == [a[0]] + a[1..] && b == [b[0]] + b[1..];
    }
  }

  /** Percentiles do not depend on the order of the values. */
  lemma PercentileIgnoresOrder(values: seq<real>, permuted: seq<real>, fraction: real)
    requires multiset(values) == multiset(permuted) && 0.0 <= fraction <= 1.0
    ensures Percentile(values, fraction) == Percentile(permuted, fraction)
  {
    SortedValuesAre(values);
    SortedValuesAre(permuted);
    SortedIsUnique(SortedValues(values), SortedValues(permuted));
  }

  // Pairing

  /** The first index whose time is not before the given one. */
  method BisectLeft(times: seq<real>, time: real) returns (index: nat)
    requires Sorted(times)
    ensures index <= |times|
    ensures forall k :: 0 <= k < index ==> times[k] < time
    ensures forall k :: index <= k < |times| ==> time <= times[k]
  {
    var low, high := 0, |times|;
    while low < high
      invariant 0 <= low <= high <= |times|
      invariant forall k :: 0 <= k < low ==> times[k] < time
      invariant forall k :: high <= k < |times| ==> time <= times[k]
    {
      var middle := (low + high) / 2;
      if times[middle] < time {
        low := middle + 1;
      } else {
        high := middle;
      }
    }
    return low;
  }

  /** No record is nearer, none of an earlier time is as near, and among records of one time it is the one
      next to the insertion point. */
  ghost predicate NearestTo(times: seq<real>, time: real, k: nat) {
    && k < |times|
    && (forall j :: 0 <= j < |times| ==> Abs(times[k] - time) <= Abs(times[j] - time))
    && (forall j :: 0 <= j < |times| && times[j] < times[k] ==> Abs(times[k] - time) < Abs(times[j] - time))
    && (times[k] < time ==> forall j :: k < j < |times| ==> times[k] < times[j])
    && (times[k] >= time ==> forall j :: 0 <= j < k ==> times[j] < times[k])
  }

  lemma NearestToIsUnique(times: seq<real>, time: real, i: nat, k: nat)
    requires NearestTo(times, time, i) && NearestTo(times, time, k)
    ensures i == k
  {
    assert times[i] == times[k];
  }

  /** Of the two records around the insertion point, the earlier one on ties. */
  method NearestRecord(times: seq<real>, time: real) returns (nearest: nat)
    requires Sorted(times) && times != []
    ensures NearestTo(times, time, nearest)
  {
    var index := BisectLeft(times, time);
    if index == 0 {
      nearest := 0;
    } else if index == |times| {
      nearest := index - 1;
    } else if Abs(times[index - 1] - time) <= Abs(times[index] - time) {
      nearest := index - 1;
    } else {
      nearest := index;
    }
  }

  datatype Pair = Pair(left: nat, right: nat, offset: real)

  function Elapsed(times: seq<real>, k: nat): real
    requires k < |times|
  {
    times[k] - times[0]
  }

  function AllElapsed(times: seq<real>): seq<real> {
    seq(|times|, k requires 0 <= k < |times| => Elapsed(times, k))
  }

  /** Whether some record of the other stream lies within the window. */
  ghost predicate HasPartner(left: seq<real>, right: seq<real>, window: real, i: nat)
    requires i < |left|
  {
    exists j :: 0 <= j < |right| && Abs((right[j] - right[0]) - (left[i] - left[0])) <= window
  }

  /** Pairs exactly the left records that have any partner within the window, in order, each with a right
      record that no full scan could improve on. */
  method PairRecords(left: seq<real>, right: seq<real>, window: real) returns (pairs: seq<Pair>)
    requires Sorted(right)
    ensures forall k :: 0 <= k < |pairs| ==>
      && pairs[k].left < |left| && pairs[k].right < |right|
      && NearestTo(AllElapsed(right), Elapsed(left, pairs[k].left), pairs[k].right)
      && pairs[k].offset == (right[pairs[k].right] - right[0]) - (left[pairs[k].left] - left[0])
      && Abs(pairs[k].offset) <= window
    ensures forall j, k :: 0 <= j < k < |pairs| ==> pairs[j].left < pairs[k].left
    ensures forall i :: 0 <= i < |left| ==>
      (HasPartner(left, right, window, i) <==> exists k :: 0 <= k < |pairs| && pairs[k].left == i)
  {
    pairs := [];
    if left == [] || right == [] {
      return;
    }
    var elapsed := AllElapsed(right);
    for i := 0 to |left|
      invariant forall k :: 0 <= k < |pairs| ==>
        && pairs[k].left < i && pairs[k].right < |right|
        && NearestTo(elapsed, Elapsed(left, pairs[k].left), pairs[k].right)
        && pairs[k].offset == Elapsed(right, pairs[k].right) - Elapsed(left, pairs[k].left)
        && Abs(pairs[k].offset) <= window
      invariant forall j, k :: 0 <= j < k < |pairs| ==> pairs[j].left < pairs[k].left
      invariant forall j :: 0 <= j < i ==>
        (HasPartner(left, right, window, j) <==> exists k :: 0 <= k < |pairs| && pairs[k].left == j)
    {
      var nearest := NearestRecord(elapsed, Elapsed(left, i));
      var offset := elapsed[nearest] - Elapsed(left, i);
      NearestDecides(left, right, window, i, nearest);
      ghost var before := pairs;
      if Abs(offset) <= window {
        pairs := pairs + [Pair(i, nearest, offset)];
        assert pairs[|before|].left == i;
        forall j | 0 <= j < i
          ensures HasPartner(left, right, window, j) <==> exists k :: 0 <= k < |pairs| && pairs[k].left == j
        {
          if k :| 0 <= k < |before| && before[k].left == j {
            assert pairs[k].left == j;
          }
        }
      }
    }
  }

  lemma NearestDecides(left: seq<real>, right: seq<real>, window: real, i: nat, nearest: nat)
    requires i < |left| && right != [] && NearestTo(AllElapsed(right), Elapsed(left, i), nearest)
    ensures HasPartner(left, right, window, i) <==> Abs(Elapsed(right, nearest) - Elapsed(left, i)) <= window
  {
    assert Elapsed(right, nearest) == right[nearest] - right[0];
    forall j | 0 <= j < |right|
      ensures Abs(Elapsed(right, nearest) - Elapsed(left, i)) <= Abs((right[j] - right[0]) - (left[i] - left[0]))
    {
      assert AllElapsed(right)[j] == Elapsed(right, j);
    }
  }
}
