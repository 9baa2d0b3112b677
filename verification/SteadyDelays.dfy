/** Configurations without randomness: the delay of a tracker is a constant, so what is selected for it only
    ever moves forward. */
module SteadyDelays {
  import opened Numerics
  import opened MeasurementDelays
  import opened ServerConfigs
  import opened Timevals
  import opened TrackerStates
  import opened ServerRuns
  import opened Registrations
  import opened Epochs
  import opened Selections

  predicate Quiet(c: DelayComponent) {
    c.slowStddevMs <= 0.0 && c.jitterStddevMs <= 0.0 && c.burstProbability <= 0.0
  }

  ghost predicate QuietConfig(config: DelayConfig) {
    Quiet(config.common) && forall t :: t in config.trackers ==> Quiet(config.trackers[t].component)
  }

  ghost predicate QuietComponent(c: DelayComponent, s: ComponentState) {
    s.slowMs == 0.0 && (s.haveCycleDelay ==> s.cycleDelayMs == c.baseMs)
  }

  ghost predicate QuietState(config: DelayConfig, s: DelayState) {
    && s.config == config
    && QuietComponent(config.common, s.common)
    && (config.enabled && s.cycleValid ==> s.commonDelayMs == config.common.baseMs)
    && forall t :: t in s.trackers ==> QuietComponent(TrackerComponent(config, t), s.trackers[t])
  }

  lemma QuietSample(math: RealFunctions, engine: Engine, seed: nat, position: nat, c: DelayComponent,
                    s: ComponentState, now: real)
    requires Quiet(c) && QuietComponent(c, s)
    ensures var r := SampleForCycle(math, engine, seed, position, c, s, now);
      r.ms == c.baseMs && QuietComponent(c, r.state) && r.position == position
  {}

  lemma QuietStart(math: RealFunctions, engine: Engine, config: DelayConfig, s: DelayState, now: real)
    requires QuietConfig(config) && QuietState(config, s)
    ensures QuietState(config, StartCycle(math, engine, s, now))
    ensures config.enabled ==> StartCycle(math, engine, s, now).commonDelayMs == config.common.baseMs
  {
    QuietSample(math, engine, s.seed, s.position, config.common, s.common, now);
  }

  function SteadySeconds(config: DelayConfig, tracker: string): real {
    Clamp(config.common.baseMs + TrackerComponent(config, tracker).baseMs, 0.0, MaxDelayMs(config, tracker)) / 1000.0
  }

  /** Without randomness a delay is its two base terms, clamped, whatever was asked before. */
  lemma QuietDelayIsSteady(math: RealFunctions, engine: Engine, config: DelayConfig, s: DelayState, tracker: string,
                           now: real)
    requires QuietConfig(config) && QuietState(config, s)
    ensures var d := DelayFor(math, engine, s, tracker, now);
      QuietState(config, d.state) && (config.enabled ==> d.seconds == SteadySeconds(config, tracker))
  {
    if config.enabled {
      QuietStart(math, engine, config, s, now);
      var c := InCycle(math, engine, s, now);
      assert QuietState(config, c);
      QuietSample(math, engine, c.seed, c.position, TrackerComponent(config, tracker),
                  if tracker in c.trackers then c.trackers[tracker] else FRESH_COMPONENT, now);
    }
  }

  lemma {:induction false} QuietPublish(p: Platform, config: ServerConfig, r: Registry, clock: Clock, start: DelayState,
                                        names: seq<string>, send: real)
    requires QuietConfig(config.delay) && QuietState(config.delay, start)
    ensures var published := PublishModels(p, config, r, clock, start, names, send);
      && QuietState(config.delay, published.delay)
      && forall k :: 0 <= k < |published.selections| && published.selections[k].target.Some? ==>
           published.selections[k].target.value == send - SteadySeconds(config.delay, published.selections[k].tracker)
  {
    if names != [] {
      var last := names[|names| - 1];
      QuietPublish(p, config, r, clock, start, names[..|names| - 1], send);
      if last in r.tracked {
        QuietDelayIsSteady(p.math, p.engine, config.delay,
                           PublishModels(p, config, r, clock, start, names[..|names| - 1], send).delay,
                           r.tracked[last].trackerName, send);
      }
    }
  }

  lemma {:induction false} QuietRun(p: Platform, config: ServerConfig, events: seq<Event>)
    requires QuietConfig(config.delay)
    ensures QuietState(config.delay, Run(p, config, events).delay)
  {
    if events != [] {
      var front := events[..|events| - 1];
      QuietRun(p, config, front);
      if events[|events| - 1].Send? {
        var s, send := Run(p, config, front), events[|events| - 1].time;
        QuietStart(p.math, p.engine, config.delay, s.delay, send);
        QuietPublish(p, config, s.registry, s.clock, StartCycle(p.math, p.engine, s.delay, send), s.registry.order,
                     send);
      }
    }
  }

  lemma QuietTarget(p: Platform, config: ServerConfig, events: seq<Event>, i: nat, k: nat)
    requires QuietConfig(config.delay) && i < |events| && events[i].Send? && k < |SentAt(p, config, events, i)|
    ensures var sel := SentAt(p, config, events, i)[k];
      sel.target.Some? ==> sel.target.value == events[i].time - SteadySeconds(config.delay, sel.tracker)
  {
    var s, send := Run(p, config, events[..i]), events[i].time;
    QuietRun(p, config, events[..i]);
    QuietStart(p.math, p.engine, config.delay, s.delay, send);
    QuietPublish(p, config, s.registry, s.clock, StartCycle(p.math, p.engine, s.delay, send), s.registry.order, send);
  }

  /** Without randomness, with delays enabled or not, neither the selected sample nor, with simulation time in order
      since the epoch began, its time stamp under either policy ever goes backwards within an epoch. */
  lemma SteadySelectionMovesForward(p: Platform, config: ServerConfig, events: seq<Event>, i: nat, j: nat, a: nat,
                                    b: nat)
    requires QuietConfig(config.delay) && SameModelLater(p, config, events, i, j, a, b)
    requires CapturesInOrder(events) && events[i].time <= events[j].time
    ensures SentAt(p, config, events, i)[a].number <= SentAt(p, config, events, j)[b].number
    ensures EpochInOrder(events[..j]) ==>
      NotAfter(SentAt(p, config, events, i)[a].timestamp, SentAt(p, config, events, j)[b].timestamp)
  {
    QuietTarget(p, config, events, i, a);
    QuietTarget(p, config, events, j, b);
    SameTracker(p, config, events, i, j, a, b);
    SelectionNeverGoesBack(p, config, events, i, j, a, b);
    if EpochInOrder(events[..j]) {
      StampsNeverDecrease(p, config, events, i, j, a, b);
    }
  }

  lemma SameTracker(p: Platform, config: ServerConfig, events: seq<Event>, i: nat, j: nat, a: nat, b: nat)
    requires SameModelLater(p, config, events, i, j, a, b)
    ensures SentAt(p, config, events, i)[a].tracker == SentAt(p, config, events, j)[b].tracker
  {
    SentIsSound(p, config, events, i, a);
    SentIsSound(p, config, events, j, b);
    assert events[..j][..i] == events[..i];
    RegistrationsOnlyGrow(p, config, events[..j], i);
  }
}
