/** The headline: a ring sized by the capacity formula alone publishes what an unbounded history would, for every
    interleaving of the two threads. */
module BoundedHistories {
  import opened Numerics
  import opened SampleHistory
  import opened SelectionProperties
  import opened CaptureLimiting
  import opened Coverage
  import opened MeasurementDelays
  import opened ServerConfigs
  import opened TrackerStates
  import opened ServerRuns
  import opened Registrations
  import opened Selections
  import opened Pipeline
  import DelayValidation

  /** Publish `i` of what the worker did has an `a`-th report. */
  ghost predicate Reported(p: Platform, config: ServerConfig, events: seq<Event>, i: nat, a: nat) {
    i < |events| && events[i].Send? && a < |SentAt(p, config, events, i)|
  }

  /** The history a report draws on: every sample pushed for its model since the last reset. */
  function HistoryBehind(p: Platform, config: ServerConfig, events: seq<Event>, i: nat, model: string): History
    requires i <= |events|
  {
    ServerRuns.Run(p, config, events[..i]).registry.HistoryOf(model)
  }

  function CapacityOf(config: ServerConfig, tracker: string): nat {
    HistoryCapacity(config.delay, tracker, config.publishRateHz)
  }

  /** The tracker's maximum delay is within the exact bound of its ring: that for two clock readings per capture, or,
      where each capture was stamped at its limiter's reading, that for one. */
  ghost predicate Covered(config: ServerConfig, tracker: string, captures: seq<Capture>)
    requires config.publishRateHz > 0.0
  {
    var capacity, period, ticks := CapacityOf(config, tracker), PeriodTicks(config.publishRateHz),
                                   MaxDelayTicks(config.delay, tracker);
    Within(capacity, period, ticks, false) || (SingleRead(captures) && Within(capacity, period, ticks, true))
  }

  /** The ring of a tracker, sized by the capacity formula alone, answers every publish of every interleaving as
      a history that never evicts would: it selects the sample of all those pushed since the last reset that
      is nearest to the delayed target, the later one on ties. */
  lemma BoundedHistoryIsEnough(p: Platform, config: ServerConfig, actions: seq<Action>, i: nat, a: nat)
    requires Loaded(config) && PeriodTicks(config.publishRateHz) >= 1
    requires AllAllowed(PeriodTicks(config.publishRateHz), actions)
    requires Reported(p, config, Pipeline.Run(PeriodTicks(config.publishRateHz), actions).events, i, a)
    requires config.delay.enabled ==>
      var s := Pipeline.Run(PeriodTicks(config.publishRateHz), actions);
      Covered(config, SentAt(p, config, s.events, i)[a].tracker, s.captures)
    ensures var events := Pipeline.Run(PeriodTicks(config.publishRateHz), actions).events;
      var sel := SentAt(p, config, events, i)[a];
      var pushed := HistoryBehind(p, config, events, i, sel.model).pushed;
      && pushed != []
      && sel.number == (if sel.target.None? then |pushed| - 1 else NearestIndex(pushed, sel.target.value))
      && sel.sample == pushed[sel.number]
  {
    var period := PeriodTicks(config.publishRateHz);
    var s := Pipeline.Run(period, actions);
    EveryInterleavingFits(period, actions);
    SentIsSound(p, config, s.events, i, a);
    var sel := SentAt(p, config, s.events, i)[a];
    if sel.target.Some? {
      DelayedHistoryAgrees(p, config, s, i, sel);
    }
  }

  /** Every accepted configuration meets the bound whose margin is at least 0.01 ms, whose period is a whole number of
      ticks, or whose rate is at most 50 kHz, and with one reading per capture also up to 150 kHz. */
  lemma AcceptedIsCovered(config: ServerConfig, tracker: string, captures: seq<Capture>)
    requires Loaded(config) && config.publishRateHz <= TICKS_PER_SECOND && config.delay.enabled
    requires
      || config.delay.historyMarginMs >= 0.01
      || WholePeriod(config.publishRateHz)
      || config.publishRateHz <= 50000.0
      || (config.publishRateHz <= 150000.0 && SingleRead(captures))
    ensures Covered(config, tracker, captures)
  {
    LoadedBoundsEveryName(config);
    CapacityCovers(config.delay, tracker, config.publishRateHz, DelayValidation.MAX_HISTORY_SAMPLES);
  }

  /** A tracker's ring, fed with captures of the limiter, and a target within its maximum delay of the send time. */
  ghost predicate Fed(config: ServerConfig, tracker: string, h: History, captures: seq<Capture>, first: int, send: real,
                      target: real)
    requires config.publishRateHz > 0.0
  {
    && PeriodTicks(config.publishRateHz) >= 1
    && OneClock(captures) && SlotIncreasing(Steadies(captures), first, PeriodTicks(config.publishRateHz))
    && StampedBy(h.pushed, captures) && h.capacity == CapacityOf(config, tracker)
    && h.pushed != [] && h.pushed[|h.pushed| - 1].wallTime <= send
    && send - MaxDelayMs(config.delay, tracker) / 1000.0 <= target
  }

  lemma SelectionIsFed(p: Platform, config: ServerConfig, s: Plugin, i: nat, sel: Selection)
    returns (captures: seq<Capture>, first: int)
    requires Loaded(config) && PeriodTicks(config.publishRateHz) >= 1
    requires PluginInv(s, PeriodTicks(config.publishRateHz)) && i < |s.events| && s.events[i].Send?
    requires var t := ServerRuns.Run(p, config, s.events[..i]);
      Sound(config, t.registry, t.clock, s.events[i].time, sel)
    requires sel.target.Some?
    ensures Fed(config, sel.tracker, HistoryBehind(p, config, s.events, i, sel.model), captures, first,
                s.events[i].time, sel.target.value)
    ensures SingleRead(s.captures) ==> SingleRead(captures)
  {
    var t := ServerRuns.Run(p, config, s.events[..i]);
    TargetInReach(config, t.registry, t.clock, s.events[i].time, sel);
    CapacityIsConfigured(p, config, s.events[..i], sel.model);
    captures, first := SourcesFit(p, config, s, i, sel.model);
  }

  lemma SourcesFit(p: Platform, config: ServerConfig, s: Plugin, i: nat, name: string)
    returns (captures: seq<Capture>, first: int)
    requires config.publishRateHz > 0.0 && PeriodTicks(config.publishRateHz) >= 1
    requires PluginInv(s, PeriodTicks(config.publishRateHz)) && i < |s.events| && s.events[i].Send?
    requires name in ServerRuns.Run(p, config, s.events[..i]).registry.tracked
    requires HistoryBehind(p, config, s.events, i, name).pushed != []
    ensures OneClock(captures) && SlotIncreasing(Steadies(captures), first, PeriodTicks(config.publishRateHz))
    ensures SingleRead(s.captures) ==> SingleRead(captures)
    ensures var pushed := HistoryBehind(p, config, s.events, i, name).pushed;
      StampedBy(pushed, captures) && pushed[|pushed| - 1].wallTime <= s.events[i].time
  {
    SamplesFit(p, config, s, PeriodTicks(config.publishRateHz), i, name);
    captures, first := Picked(s.captures, SampleSources(p, config, s, i, name)), s.readings[0];
    PickedFit(s.captures, SampleSources(p, config, s, i, name), first, PeriodTicks(config.publishRateHz));
  }

  lemma TargetInReach(config: ServerConfig, r: Registry, clock: Clock, send: real, sel: Selection)
    requires Loaded(config) && Sound(config, r, clock, send, sel) && sel.target.Some?
    ensures config.delay.enabled && sel.tracker == r.tracked[sel.model].trackerName
    ensures send - MaxDelayMs(config.delay, sel.tracker) / 1000.0 <= sel.target.value <= send
  {
    LoadedBoundsEveryName(config);
  }

  lemma DelayedHistoryAgrees(p: Platform, config: ServerConfig, s: Plugin, i: nat, sel: Selection)
    requires Loaded(config) && PeriodTicks(config.publishRateHz) >= 1
    requires PluginInv(s, PeriodTicks(config.publishRateHz)) && Covered(config, sel.tracker, s.captures)
    requires i < |s.events| && s.events[i].Send?
    requires var t := ServerRuns.Run(p, config, s.events[..i]);
      Sound(config, t.registry, t.clock, s.events[i].time, sel)
    requires sel.target.Some?
    ensures var h := HistoryBehind(p, config, s.events, i, sel.model);
      h.capacity >= 4 && h.NearestNumber(sel.target.value) == NearestIndex(h.pushed, sel.target.value)
  {
    var captures, first := SelectionIsFed(p, config, s, i, sel);
    CoveredRingAgrees(config, sel.tracker, HistoryBehind(p, config, s.events, i, sel.model), captures, first,
                      s.events[i].time, sel.target.value);
  }

  lemma CoveredRingAgrees(config: ServerConfig, tracker: string, h: History, captures: seq<Capture>, first: int,
                          send: real, target: real)
    requires config.publishRateHz > 0.0 && Fed(config, tracker, h, captures, first, send, target)
    requires Covered(config, tracker, captures)
    ensures h.capacity >= 4 && h.NearestNumber(target) == NearestIndex(h.pushed, target)
  {
    var period, ticks := PeriodTicks(config.publishRateHz), MaxDelayTicks(config.delay, tracker);
    CapacityIsAtLeastFour(config, tracker);
    DelayTicks(config, tracker, send, target);
    RingAgreesWithin(h, captures, first, period, send, target, ticks, !Within(h.capacity, period, ticks, false));
  }

  lemma DelayTicks(config: ServerConfig, tracker: string, send: real, target: real)
    requires send - MaxDelayMs(config.delay, tracker) / 1000.0 <= target
    ensures (send - target) * TICKS_PER_SECOND <= MaxDelayTicks(config.delay, tracker)
  {}

  // How well the delay is met.

  /** Successive stored samples are at most `gap` apart. */
  ghost predicate GapsWithin(h: History, gap: real) {
    forall k :: h.Evicted() <= k < |h.pushed| - 1 ==> h.pushed[k + 1].wallTime - h.pushed[k].wallTime <= gap
  }

  /** A full ring spans the tracker's maximum delay, given two clock readings per capture or, where each capture was
      stamped at its limiter's reading, one. */
  ghost predicate FullRingCovers(config: ServerConfig, tracker: string, captures: seq<Capture>)
    requires config.publishRateHz > 0.0
  {
    var capacity, period, ticks := CapacityOf(config, tracker), PeriodTicks(config.publishRateHz),
                                   MaxDelayTicks(config.delay, tracker);
    Spans(capacity, period, ticks, false) || (SingleRead(captures) && Spans(capacity, period, ticks, true))
  }

  /** That holds of every accepted configuration with a margin or a whole number of ticks per period, and with one
      reading per capture also up to 100 kHz. */
  lemma AcceptedFullRingCovers(config: ServerConfig, tracker: string, captures: seq<Capture>)
    requires Loaded(config) && config.publishRateHz <= TICKS_PER_SECOND && config.delay.enabled
    requires
      || config.delay.historyMarginMs >= 0.01
      || WholePeriod(config.publishRateHz)
      || (config.publishRateHz <= 100000.0 && SingleRead(captures))
    ensures FullRingCovers(config, tracker, captures)
  {
    LoadedBoundsEveryName(config);
    CapacityCovers(config.delay, tracker, config.publishRateHz, DelayValidation.MAX_HISTORY_SAMPLES);
  }

  /** The selection is within half the gap of its target, or the newest sample if the target is later than that. */
  ghost predicate Realised(pushed: seq<TrackerSample>, sel: Selection, gap: real)
    requires pushed != [] && sel.target.Some?
  {
    if sel.target.value <= pushed[|pushed| - 1].wallTime then 2.0 * Distance(sel.sample, sel.target.value) <= gap
    else sel.number == |pushed| - 1
  }

  /** The ring behind a delayed selection is full, spans the maximum delay and has no larger gap. */
  ghost predicate FullAndDense(config: ServerConfig, h: History, captures: seq<Capture>, sel: Selection, gap: real)
    requires config.publishRateHz > 0.0
  {
    && sel.target.Some? && |h.pushed| >= h.capacity && GapsWithin(h, gap)
    && FullRingCovers(config, sel.tracker, captures)
  }

  /** Once its ring is full, a report with a target no later than the newest sample is within half the largest gap of
      that target, and one with a later target is the newest sample. */
  lemma PublishedDelayIsRealised(p: Platform, config: ServerConfig, actions: seq<Action>, i: nat, a: nat, gap: real)
    requires Loaded(config) && PeriodTicks(config.publishRateHz) >= 1 && gap >= 0.0
    requires AllAllowed(PeriodTicks(config.publishRateHz), actions)
    requires Reported(p, config, Pipeline.Run(PeriodTicks(config.publishRateHz), actions).events, i, a)
    requires var s := Pipeline.Run(PeriodTicks(config.publishRateHz), actions);
      var sel := SentAt(p, config, s.events, i)[a];
      FullAndDense(config, HistoryBehind(p, config, s.events, i, sel.model), s.captures, sel, gap)
    ensures var events := Pipeline.Run(PeriodTicks(config.publishRateHz), actions).events;
      var sel := SentAt(p, config, events, i)[a];
      var pushed := HistoryBehind(p, config, events, i, sel.model).pushed;
      pushed != [] && Realised(pushed, sel, gap)
  {
    var period := PeriodTicks(config.publishRateHz);
    var s := Pipeline.Run(period, actions);
    EveryInterleavingFits(period, actions);
    SentIsSound(p, config, s.events, i, a);
    DelayIsRealisedFor(p, config, s, i, SentAt(p, config, s.events, i)[a], gap);
  }

  lemma DelayIsRealisedFor(p: Platform, config: ServerConfig, s: Plugin, i: nat, sel: Selection, gap: real)
    requires Loaded(config) && PeriodTicks(config.publishRateHz) >= 1 && gap >= 0.0
    requires PluginInv(s, PeriodTicks(config.publishRateHz)) && i < |s.events| && s.events[i].Send?
    requires var t := ServerRuns.Run(p, config, s.events[..i]);
      Sound(config, t.registry, t.clock, s.events[i].time, sel)
    requires FullAndDense(config, HistoryBehind(p, config, s.events, i, sel.model), s.captures, sel, gap)
    ensures var pushed := HistoryBehind(p, config, s.events, i, sel.model).pushed;
      pushed != [] && Realised(pushed, sel, gap)
  {
    var t, h := ServerRuns.Run(p, config, s.events[..i]), HistoryBehind(p, config, s.events, i, sel.model);
    SelectedNearest(config, t.registry, t.clock, s.events[i].time, sel);
    var captures, first := SelectionIsFed(p, config, s, i, sel);
    FullRingRealises(config, h, captures, first, s.events[i].time, sel, gap);
  }

  lemma SelectedNearest(config: ServerConfig, r: Registry, clock: Clock, send: real, sel: Selection)
    requires Sound(config, r, clock, send, sel) && sel.target.Some?
    ensures var h := r.HistoryOf(sel.model);
      && h.pushed != [] && h.capacity >= 4
      && sel.number == h.NearestNumber(sel.target.value) && sel.sample == h.pushed[sel.number]
  {}

  lemma FullRingRealises(config: ServerConfig, h: History, captures: seq<Capture>, first: int, send: real,
                         sel: Selection, gap: real)
    requires config.publishRateHz > 0.0 && gap >= 0.0 && FullAndDense(config, h, captures, sel, gap) && h.capacity >= 4
    requires Fed(config, sel.tracker, h, captures, first, send, sel.target.value)
    requires sel.number == h.NearestNumber(sel.target.value) && sel.sample == h.pushed[sel.number]
    ensures Realised(h.pushed, sel, gap)
  {
    var period, ticks, target := PeriodTicks(config.publishRateHz), MaxDelayTicks(config.delay, sel.tracker),
                                 sel.target.value;
    DelayTicks(config, sel.tracker, send, target);
    RingReachesWithin(h, captures, first, period, send, target, ticks, !Spans(h.capacity, period, ticks, false));
    StampsAreOrdered(h.pushed, captures);
    if target <= h.pushed[|h.pushed| - 1].wallTime {
      DelayIsRealised(h, target, gap);
    } else {
      ChosenIsNearest(h, target);
    }
  }
}
