/** What the nearest-in-time query guarantees about a history, evictions included. */
module SelectionProperties {
  import opened SampleHistory

  ghost predicate Ordered(samples: seq<TrackerSample>) {
    forall i, j :: 0 <= i <= j < |samples| ==> samples[i].wallTime <= samples[j].wallTime
  }

  /** The chosen push number is nearest among the stored samples, by push number. */
  lemma ChosenIsNearest(h: History, target: real)
    requires h.pushed != [] && h.capacity > 0
    ensures var n := h.NearestNumber(target);
      forall j :: h.Evicted() <= j < |h.pushed| ==>
        && Distance(h.pushed[n], target) <= Distance(h.pushed[j], target)
        && (n < j ==> Distance(h.pushed[n], target) < Distance(h.pushed[j], target))
  {
    NearestIndexIsNearest(h.Stored(), target);
    forall j | h.Evicted() <= j < |h.pushed|
      ensures h.pushed[j] == h.Stored()[j - h.Evicted()]
    {}
  }

  /** The bounded ring makes the choice an unbounded history would make, as soon as the target
      is not on the far side of the midpoint between the newest evicted and the oldest stored sample. */
  lemma BoundedAgrees(h: History, target: real)
    requires h.pushed != [] && h.capacity > 0 && Ordered(h.pushed)
    requires h.Evicted() > 0 ==>
      h.pushed[h.Evicted() - 1].wallTime + h.pushed[h.Evicted()].wallTime <= 2.0 * target
    ensures h.NearestNumber(target) == NearestIndex(h.pushed, target)
  {
    ChosenIsNearest(h, target);
    var e, n := h.Evicted(), h.NearestNumber(target);
    forall j | 0 <= j < |h.pushed|
      ensures Distance(h.pushed[n], target) <= Distance(h.pushed[j], target)
      ensures n < j ==> Distance(h.pushed[n], target) < Distance(h.pushed[j], target)
    {
      if j < e {
        assert h.pushed[j].wallTime <= h.pushed[e - 1].wallTime <= h.pushed[e].wallTime;
        assert Distance(h.pushed[e], target) <= Distance(h.pushed[j], target);
      }
    }
    NearestIsUnique(h.pushed, target, n);
  }

  /** The midpoint condition is exact unless the two samples were taken at one time. */
  lemma BoundedAgreesIff(h: History, target: real)
    requires h.pushed != [] && h.capacity > 0 && Ordered(h.pushed) && h.Evicted() > 0
    requires h.pushed[h.Evicted() - 1].wallTime < h.pushed[h.Evicted()].wallTime
    ensures h.NearestNumber(target) == NearestIndex(h.pushed, target) <==>
      h.pushed[h.Evicted() - 1].wallTime + h.pushed[h.Evicted()].wallTime <= 2.0 * target
  {
    var e, n := h.Evicted(), h.NearestNumber(target);
    if h.pushed[e - 1].wallTime + h.pushed[e].wallTime <= 2.0 * target {
      BoundedAgrees(h, target);
    } else {
      NearestIndexIsNearest(h.pushed, target);
      assert h.pushed[n].wallTime >= h.pushed[e].wallTime;
      assert Distance(h.pushed[e - 1], target) < Distance(h.pushed[n], target);
    }
  }

  /** Later in the same epoch, and for a target that has not moved back, the choice has not moved back,
      however many samples were pushed and evicted in between. */
  lemma ChoiceNeverGoesBack(earlier: History, later: History, target: real, laterTarget: real)
    requires earlier.pushed != [] && earlier.pushed <= later.pushed
    requires earlier.capacity == later.capacity > 0
    requires Ordered(later.pushed) && target <= laterTarget
    ensures earlier.NearestNumber(target) <= later.NearestNumber(laterTarget)
  {
    assert forall k :: 0 <= k < |earlier.pushed| ==> earlier.pushed[k] == later.pushed[k];
    ChosenIsNearest(earlier, target);
    ChosenIsNearest(later, laterTarget);
  }

  /** A target inside the stored window is met to within half the largest gap. */
  lemma DelayIsRealised(h: History, target: real, gap: real)
    requires h.pushed != [] && h.capacity > 0 && Ordered(h.pushed)
    requires forall k :: h.Evicted() <= k < |h.pushed| - 1 ==>
      h.pushed[k + 1].wallTime - h.pushed[k].wallTime <= gap
    requires h.pushed[h.Evicted()].wallTime <= target <= h.pushed[|h.pushed| - 1].wallTime && gap >= 0.0
    ensures 2.0 * Distance(h.pushed[h.NearestNumber(target)], target) <= gap
  {
    RealisedFrom(h, target, gap, h.Evicted());
  }

  lemma {:induction false} RealisedFrom(h: History, target: real, gap: real, i: nat)
    requires h.pushed != [] && h.capacity > 0 && Ordered(h.pushed)
    requires h.Evicted() <= i < |h.pushed|
    requires forall k :: h.Evicted() <= k < |h.pushed| - 1 ==>
      h.pushed[k + 1].wallTime - h.pushed[k].wallTime <= gap
    requires h.pushed[i].wallTime <= target <= h.pushed[|h.pushed| - 1].wallTime && gap >= 0.0
    ensures 2.0 * Distance(h.pushed[h.NearestNumber(target)], target) <= gap
    decreases |h.pushed| - i
  {
    if i == |h.pushed| - 1 {
      ChosenIsNearest(h, target);
    } else if h.pushed[i + 1].wallTime <= target {
      RealisedFrom(h, target, gap, i + 1);
    } else {
      ChosenIsNearest(h, target);
      assert Distance(h.pushed[i], target) + Distance(h.pushed[i + 1], target) <= gap;
    }
  }
}
