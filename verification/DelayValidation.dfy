/** Validation of a delay configuration, and the history bound it buys. */
module DelayValidation {
  import opened Numerics
  import opened MeasurementDelays

  const MAX_HISTORY_SAMPLES: nat := 10000

  datatype ComponentError = SlowStddev | SlowTau | Jitter | BurstProbability | BurstExtra

  /** `name` is None for the common section and the global values. */
  datatype DelayError =
    | PublishRate
    | HistoryMargin
    | Component(name: Option<string>, error: ComponentError)
    | MaxDelay(name: Option<string>)
    | Capacity(name: Option<string>)

  function CheckComponent(c: DelayComponent): Option<ComponentError> {
    if c.slowStddevMs < 0.0 then Some(SlowStddev)
    else if c.slowTauS <= 0.0 then Some(SlowTau)
    else if c.jitterStddevMs < 0.0 then Some(Jitter)
    else if c.burstProbability < 0.0 || c.burstProbability > 1.0 then Some(BurstProbability)
    else if c.burstExtraMinMs < 0.0 || c.burstExtraMaxMs < 0.0 || c.burstExtraMaxMs < c.burstExtraMinMs
    then Some(BurstExtra)
    else None
  }

  /** The capacity the check computes: that of the tracker with the empty name, in an enabled copy whose
      global maximum is the one under test. */
  function CheckedCapacity(config: DelayConfig, maxDelayMs: real, rateHz: real): nat {
    HistoryCapacity(config.(enabled := true, maxDelayMs := maxDelayMs), "", rateHz)
  }

  function CheckCapacity(config: DelayConfig, name: Option<string>, maxDelayMs: real, rateHz: real, limit: nat):
    Option<DelayError>
  {
    if maxDelayMs < 0.0 then Some(MaxDelay(name))
    else if CheckedCapacity(config, maxDelayMs, rateHz) > limit then Some(Capacity(name))
    else None
  }

  function CheckTracker(config: DelayConfig, name: string, rateHz: real, limit: nat): Option<DelayError>
    requires name in config.trackers
  {
    var tracker := config.trackers[name];
    var component := CheckComponent(tracker.component);
    if component.Some? then Some(Component(Some(name), component.value))
    else if tracker.maxDelayMs < -1.0 then Some(MaxDelay(Some(name)))
    else CheckCapacity(config, Some(name), MaxDelayMs(config, name), rateHz, limit)
  }

  function CheckGlobal(config: DelayConfig, rateHz: real, limit: nat): Option<DelayError> {
    var common := CheckComponent(config.common);
    if rateHz <= 0.0 then Some(PublishRate)
    else if config.maxDelayMs < 0.0 then Some(MaxDelay(None))
    else if config.historyMarginMs < 0.0 then Some(HistoryMargin)
    else if common.Some? then Some(Component(None, common.value))
    else CheckCapacity(config, None, config.maxDelayMs, rateHz, limit)
  }

  ghost predicate Accepts(config: DelayConfig, rateHz: real, limit: nat) {
    && CheckGlobal(config, rateHz, limit) == None
    && forall name :: name in config.trackers ==> CheckTracker(config, name, rateHz, limit) == None
  }

  /** Nothing fails and there is no error, or the error is that of the first check that fails. */
  ghost predicate IsFirstError(config: DelayConfig, order: seq<string>, rateHz: real, limit: nat,
                               error: Option<DelayError>)
    requires forall name :: name in order ==> name in config.trackers
  {
    if CheckGlobal(config, rateHz, limit).Some? then error == CheckGlobal(config, rateHz, limit)
    else if error == None then forall k :: 0 <= k < |order| ==> CheckTracker(config, order[k], rateHz, limit) == None
    else exists k :: 0 <= k < |order| && FirstErrorAt(config, order, rateHz, limit, error, k)
  }

  ghost predicate FirstErrorAt(config: DelayConfig, order: seq<string>, rateHz: real, limit: nat,
                               error: Option<DelayError>, k: nat)
    requires k < |order| && forall name :: name in order ==> name in config.trackers
  {
    && error == CheckTracker(config, order[k], rateHz, limit)
    && forall j :: 0 <= j < k ==> CheckTracker(config, order[j], rateHz, limit) == None
  }

  // The checks, told from the values.

  /** Which error a component has: that of the first value that is out of its range. */
  lemma ComponentErrorIs(c: DelayComponent)
    ensures CheckComponent(c) == None <==>
            && c.slowStddevMs >= 0.0 && c.slowTauS > 0.0 && c.jitterStddevMs >= 0.0
            && 0.0 <= c.burstProbability <= 1.0 && 0.0 <= c.burstExtraMinMs <= c.burstExtraMaxMs
    ensures CheckComponent(c) == Some(SlowStddev) <==> c.slowStddevMs < 0.0
    ensures CheckComponent(c) == Some(SlowTau) <==> c.slowStddevMs >= 0.0 && c.slowTauS <= 0.0
    ensures CheckComponent(c) == Some(Jitter) <==>
            c.slowStddevMs >= 0.0 && c.slowTauS > 0.0 && c.jitterStddevMs < 0.0
    ensures CheckComponent(c) == Some(BurstProbability) <==>
            && c.slowStddevMs >= 0.0 && c.slowTauS > 0.0 && c.jitterStddevMs >= 0.0
            && !(0.0 <= c.burstProbability <= 1.0)
  {}

  /** The history for a maximum delay is within the limit, where an override under the empty name is measured in its
      place: the samples of maximum and margin at the rate, and three more, but at least four. */
  predicate Fits(config: DelayConfig, maxDelayMs: real, rateHz: real, limit: nat) {
    var measured := if "" in config.trackers && config.trackers[""].maxDelayMs >= 0.0
                    then config.trackers[""].maxDelayMs
                    else maxDelayMs;
    var margin := if config.historyMarginMs < 0.0 then 0.0 else config.historyMarginMs;
    4 <= limit && (measured + margin) / 1000.0 * rateHz <= (limit - 3) as real
  }

  lemma CapacityFits(config: DelayConfig, maxDelayMs: real, rateHz: real, limit: nat)
    ensures CheckedCapacity(config, maxDelayMs, rateHz) <= limit <==> Fits(config, maxDelayMs, rateHz, limit)
  {
    var copy := config.(enabled := true, maxDelayMs := maxDelayMs);
    var window := (MaxDelayMs(copy, "") + Max(config.historyMarginMs, 0.0)) / 1000.0;
    CeilBounds(window * rateHz);
  }

  /** The global error: rate, maximum, margin, common component, history, the first of these that is wrong. */
  lemma GlobalErrorIs(config: DelayConfig, rateHz: real, limit: nat)
    ensures var error, common := CheckGlobal(config, rateHz, limit), CheckComponent(config.common);
      error ==
      if rateHz <= 0.0 then Some(PublishRate)
      else if config.maxDelayMs < 0.0 then Some(MaxDelay(None))
      else if config.historyMarginMs < 0.0 then Some(HistoryMargin)
      else if common != None then Some(Component(None, common.value))
      else if !Fits(config, config.maxDelayMs, rateHz, limit) then Some(Capacity(None))
      else None
  {
    CapacityFits(config, config.maxDelayMs, rateHz, limit);
  }

  /** A tracker's error: its component, its maximum, the history for the maximum it has in effect. */
  lemma TrackerErrorIs(config: DelayConfig, name: string, rateHz: real, limit: nat)
    requires name in config.trackers && config.maxDelayMs >= 0.0
    ensures var error, tracker := CheckTracker(config, name, rateHz, limit), config.trackers[name];
      var component := CheckComponent(tracker.component);
      var most := if tracker.maxDelayMs >= 0.0 then tracker.maxDelayMs else config.maxDelayMs;
      error ==
      if component != None then Some(Component(Some(name), component.value))
      else if tracker.maxDelayMs < -1.0 then Some(MaxDelay(Some(name)))
      else if !Fits(config, most, rateHz, limit) then Some(Capacity(Some(name)))
      else None
  {
    CapacityFits(config, MaxDelayMs(config, name), rateHz, limit);
  }

  /** `order` is the map's iteration order.  The first failing check is reported. */
  method Validate(config: DelayConfig, order: seq<string>, rateHz: real, limit: nat)
    returns (error: Option<DelayError>)
    requires forall name :: name in order <==> name in config.trackers
    ensures error == None <==> Accepts(config, rateHz, limit)
    ensures IsFirstError(config, order, rateHz, limit, error)
  {
    error := CheckGlobal(config, rateHz, limit);
    if error.Some? {
      return;
    }
    for i := 0 to |order|
      invariant error == None
      invariant forall j :: 0 <= j < i ==> CheckTracker(config, order[j], rateHz, limit) == None
    {
      assert order[i] in config.trackers;
      error := CheckTracker(config, order[i], rateHz, limit);
      if error.Some? {
        assert FirstErrorAt(config, order, rateHz, limit, error, i);
        return;
      }
    }
  }

  /** Every tracker name, configured or not, has a nonnegative maximum delay and a bounded history. */
  ghost predicate BoundsEveryName(config: DelayConfig, rateHz: real, limit: nat) {
    forall name :: MaxDelayMs(config, name) >= 0.0 && 4 <= HistoryCapacity(config, name, rateHz) <= limit
  }

  /** No override under the empty name captures the capacity check. */
  predicate EmptyNameIsUnset(config: DelayConfig) {
    "" in config.trackers ==> config.trackers[""].maxDelayMs < 0.0
  }

  lemma CheckMeasuresTheName(config: DelayConfig, name: string, rateHz: real)
    requires EmptyNameIsUnset(config)
    ensures CheckedCapacity(config, MaxDelayMs(config, name), rateHz) ==
            HistoryCapacity(config.(enabled := true), name, rateHz)
  {
    var copy := config.(enabled := true, maxDelayMs := MaxDelayMs(config, name));
    assert MaxDelayMs(copy, "") == MaxDelayMs(config, name);
  }

  lemma AcceptedBoundsEveryName(config: DelayConfig, rateHz: real, limit: nat)
    requires Accepts(config, rateHz, limit) && limit >= 4 && EmptyNameIsUnset(config)
    ensures BoundsEveryName(config, rateHz, limit)
  {
    forall name
      ensures MaxDelayMs(config, name) >= 0.0 && 4 <= HistoryCapacity(config, name, rateHz) <= limit
    {
      if name in config.trackers {
        assert CheckTracker(config, name, rateHz, limit) == None;
      }
      CheckMeasuresTheName(config, name, rateHz);
    }
  }

  function WithMaxDelay(config: DelayConfig, maxDelayMs: real): DelayConfig {
    config.(maxDelayMs := maxDelayMs)
  }

  /** The check is not sound for every configuration value: an override under the empty name is measured
      in place of the value under test.  Keeping that name out is exactly what the bound needs. */
  lemma BoundNeedsEmptyNameUnset(config: DelayConfig, rateHz: real, limit: nat)
    requires Accepts(config, rateHz, limit) && limit >= 4 && config.enabled
    ensures EmptyNameIsUnset(config) <==>
      forall m: real :: Accepts(WithMaxDelay(config, m), rateHz, limit) ==>
        BoundsEveryName(WithMaxDelay(config, m), rateHz, limit)
  {
    if EmptyNameIsUnset(config) {
      forall m: real | Accepts(WithMaxDelay(config, m), rateHz, limit)
        ensures BoundsEveryName(WithMaxDelay(config, m), rateHz, limit)
      {
        AcceptedBoundsEveryName(WithMaxDelay(config, m), rateHz, limit);
      }
    } else {
      var m := (limit as real + 1.0) / rateHz * 1000.0;
      HiddenByEmptyName(config, m, rateHz, limit);
      var wide := WithMaxDelay(config, m);
      var name := FreshName(config.trackers.Keys);
      CapacityOutgrows(wide, name, rateHz, limit);
    }
  }

  /** A delay of a quarter of an hour, hidden behind an override of zero under the empty name. */
  const HIDING_CONFIG :=
    DelayConfig(true, SendTime, 1, 1000000.0, 0.0, DEFAULT_COMPONENT, map["" := TrackerDelay(DEFAULT_COMPONENT, 0.0)])

  lemma AcceptedHistoryMayBeUnbounded()
    ensures Accepts(HIDING_CONFIG, 60.0, MAX_HISTORY_SAMPLES) && !EmptyNameIsUnset(HIDING_CONFIG)
    ensures HistoryCapacity(HIDING_CONFIG, "uav1", 60.0) == 60003
  {
    assert MaxDelayMs(HIDING_CONFIG, "uav1") == 1000000.0;
    assert CapacityForWindow(0.0, 60.0) == 4 && CapacityForWindow(1000.0, 60.0) == 60003;
    assert forall max: real :: CheckedCapacity(HIDING_CONFIG, max, 60.0) == CapacityForWindow(0.0, 60.0);
  }

  /** Although its message calls for a non-negative value, the range check of a tracker's maximum lets values from -1
      up to zero pass; those mean "the global maximum", which nonnegative ones never do. */
  lemma OverrideRange(config: DelayConfig, name: string, rateHz: real, limit: nat)
    requires CheckGlobal(config, rateHz, limit) == None && name in config.trackers
    requires CheckComponent(config.trackers[name].component) == None
    ensures var max := config.trackers[name].maxDelayMs;
      && (CheckTracker(config, name, rateHz, limit) != Some(MaxDelay(Some(name))) <==> max >= -1.0)
      && (max >= 0.0 <==> forall global: real :: MaxDelayMs(WithMaxDelay(config, global), name) == max)
      && (max < 0.0 <==> forall global: real :: MaxDelayMs(WithMaxDelay(config, global), name) == global)
  {
    var max := config.trackers[name].maxDelayMs;
    assert MaxDelayMs(WithMaxDelay(config, max + 1.0), name) == if max >= 0.0 then max else max + 1.0;
  }

  /** For example minus one half, which is accepted and ignored. */
  lemma NegativeOverrideIsAccepted()
    ensures var config := HIDING_CONFIG.(maxDelayMs := 30.0,
                                         trackers := map["uav1" := TrackerDelay(DEFAULT_COMPONENT, -0.5)]);
      Accepts(config, 60.0, MAX_HISTORY_SAMPLES) && MaxDelayMs(config, "uav1") == 30.0
  {
    assert 30.0 / 1000.0 * 60.0 == 1.8;
  }

  /** With an override under the empty name, the global maximum is never measured. */
  lemma HiddenByEmptyName(config: DelayConfig, m: real, rateHz: real, limit: nat)
    requires Accepts(config, rateHz, limit) && !EmptyNameIsUnset(config) && m >= 0.0
    ensures Accepts(WithMaxDelay(config, m), rateHz, limit)
  {
    var wide := WithMaxDelay(config, m);
    forall max: real
      ensures CheckedCapacity(wide, max, rateHz) == CheckedCapacity(config, config.maxDelayMs, rateHz)
    {
      SameWhenHidden(config, wide, max, rateHz);
    }
    forall name | name in wide.trackers
      ensures CheckTracker(wide, name, rateHz, limit) == None
    {
      assert CheckTracker(config, name, rateHz, limit) == None;
    }
  }

  lemma SameWhenHidden(config: DelayConfig, wide: DelayConfig, max: real, rateHz: real)
    requires !EmptyNameIsUnset(config)
    requires wide.trackers == config.trackers && wide.historyMarginMs == config.historyMarginMs
    ensures CheckedCapacity(wide, max, rateHz) == CheckedCapacity(config, config.maxDelayMs, rateHz)
  {
    var a, b := wide.(enabled := true, maxDelayMs := max), config.(enabled := true);
    assert MaxDelayMs(a, "") == MaxDelayMs(b, "");
  }

  lemma CapacityOutgrows(config: DelayConfig, name: string, rateHz: real, limit: nat)
    requires name !in config.trackers && rateHz > 0.0 && config.enabled && config.historyMarginMs >= 0.0
    requires config.maxDelayMs == (limit as real + 1.0) / rateHz * 1000.0
    ensures HistoryCapacity(config, name, rateHz) > limit
  {
    var window := (config.maxDelayMs + config.historyMarginMs) / 1000.0;
    var least := (limit as real + 1.0) / rateHz;
    assert window >= least;
    RealMulMono(least, window, rateHz);
    assert least * rateHz == limit as real + 1.0;
    CeilBounds(window * rateHz);
  }

  /** A name longer than all the given ones. */
  lemma {:induction false} FreshName(names: set<string>) returns (name: string)
    ensures name !in names
  {
    var longest := LongestName(names);
    name := seq(longest + 1, _ => 'x');
  }

  lemma {:induction false} LongestName(names: set<string>) returns (length: nat)
    ensures forall n :: n in names ==> |n| <= length
    decreases names
  {
    if names == {} {
      length := 0;
    } else {
      var n :| n in names;
      var rest := LongestName(names - {n});
      length := if rest < |n| then |n| else rest;
    }
  }
}
