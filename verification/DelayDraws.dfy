/** What a delay is worth, told from the random draws it is made of. */
module DelayDraws {
  import opened Numerics
  import opened MeasurementDelays

  // One component: the three random terms, each with the position behind the draws it took.

  /** A burst is decided by one uniform draw and, if its range is not a single value, sized by another. */
  function Burst(engine: Engine, seed: nat, position: nat, c: DelayComponent): Draw {
    var first := engine.uniform(seed, position);
    var second := engine.uniform(seed, first.next);
    if c.burstProbability <= 0.0 then Draw(0.0, position)
    else if first.value >= c.burstProbability then Draw(0.0, first.next)
    else if c.burstExtraMinMs < c.burstExtraMaxMs
    then Draw(c.burstExtraMinMs + (c.burstExtraMaxMs - c.burstExtraMinMs) * second.value, second.next)
    else Draw(c.burstExtraMinMs, first.next)
  }

  /** A normal draw times a deviation; without a deviation there is no draw. */
  function Deviated(engine: Engine, seed: nat, position: nat, deviation: real): Draw {
    var draw := engine.normal(seed, position);
    if deviation > 0.0 then Draw(deviation * draw.value, draw.next) else Draw(0.0, position)
  }

  function Elapsed(s: ComponentState, now: real): real {
    if now < s.lastTime then 0.0 else now - s.lastTime
  }

  function Left(factor: real): real {
    if 1.0 - factor * factor < 0.0 then 0.0 else 1.0 - factor * factor
  }

  /** The slow value drifts from the second sample on: it decays by the elapsed time, and a draw makes up for the
      variance that was lost. */
  function Drifted(math: RealFunctions, engine: Engine, seed: nat, position: nat, c: DelayComponent,
                   s: ComponentState, now: real): Draw
  {
    if !s.haveTime || c.slowStddevMs <= 0.0 || c.slowTauS <= 0.0 then Draw(s.slowMs, position)
    else
      var factor := math.exp(-Elapsed(s, now) / c.slowTauS);
      var noise := Deviated(engine, seed, position, c.slowStddevMs * math.sqrt(Left(factor)));
      Draw(factor * s.slowMs + noise.value, noise.next)
  }

  lemma ChanceIs(engine: Engine, seed: nat, position: nat)
    ensures UniformAt(engine, seed, position, 0.0, 1.0) == engine.uniform(seed, position)
  {}

  lemma SizeIs(engine: Engine, seed: nat, position: nat, low: real, high: real)
    ensures var draw := engine.uniform(seed, position);
      UniformAt(engine, seed, position, low, high) ==
      if low < high then Draw(low + (high - low) * draw.value, draw.next) else Draw(low, position)
  {}

  /** Without drift and jitter a sample is the base, the slow value it found and a burst. */
  lemma BurstIsAdded(math: RealFunctions, engine: Engine, seed: nat, position: nat, c: DelayComponent,
                     s: ComponentState, now: real)
    requires c.slowStddevMs <= 0.0 && c.jitterStddevMs <= 0.0
    ensures var r, burst := SampleComponent(math, engine, seed, position, c, s, now), Burst(engine, seed, position, c);
      r.ms == c.baseMs + s.slowMs + burst.value && r.position == burst.next
  {
    var first := engine.uniform(seed, position);
    ChanceIs(engine, seed, position);
    SizeIs(engine, seed, first.next, c.burstExtraMinMs, c.burstExtraMaxMs);
  }

  /** A jitter deviation shifts that by one more draw, made last; the state is the same. */
  lemma JitterShifts(math: RealFunctions, engine: Engine, seed: nat, position: nat, c: DelayComponent,
                     s: ComponentState, now: real)
    ensures var r := SampleComponent(math, engine, seed, position, c, s, now);
      var without := SampleComponent(math, engine, seed, position, c.(jitterStddevMs := 0.0), s, now);
      var jitter := Deviated(engine, seed, without.position, c.jitterStddevMs);
      r.state == without.state && r.ms == without.ms + jitter.value && r.position == jitter.next
  {}

  lemma FactorIs(math: RealFunctions, tau: real, s: ComponentState, now: real)
    requires tau > 0.0
    ensures SlowFactor(math, tau, Max(0.0, now - s.lastTime)) == math.exp(-Elapsed(s, now) / tau)
  {
    assert Max(0.0, now - s.lastTime) == Elapsed(s, now);
  }

  lemma SigmaIs(math: RealFunctions, stddev: real, factor: real)
    ensures SlowSigma(math, stddev, factor) == stddev * math.sqrt(Left(factor))
  {
    assert Max(0.0, 1.0 - factor * factor) == Left(factor);
  }

  lemma NoiseIs(engine: Engine, seed: nat, position: nat, deviation: real)
    ensures NormalAt(engine, seed, position, 0.0, deviation) == Deviated(engine, seed, position, deviation)
  {}

  /** The drift comes first, and the rest is what a component without drift makes of the new slow value. */
  lemma DriftComesFirst(math: RealFunctions, engine: Engine, seed: nat, position: nat, c: DelayComponent,
                        s: ComponentState, now: real)
    ensures var r := SampleComponent(math, engine, seed, position, c, s, now);
      var slow := Drifted(math, engine, seed, position, c, s, now);
      && r == SampleComponent(math, engine, seed, slow.next, c.(slowStddevMs := 0.0), s.(slowMs := slow.value), now)
      && r.state == s.(slowMs := slow.value, lastTime := now, haveTime := true)
  {
    if s.haveTime && c.slowStddevMs > 0.0 && c.slowTauS > 0.0 {
      var factor := math.exp(-Elapsed(s, now) / c.slowTauS);
      FactorIs(math, c.slowTauS, s, now);
      SigmaIs(math, c.slowStddevMs, factor);
      NoiseIs(engine, seed, position, SlowSigma(math, c.slowStddevMs, factor));
    }
  }

  /** All of it: base, new slow value, burst and jitter add up, and the draws are made in the order drift, burst
      decision, burst size, jitter. */
  lemma SampleIsTheSum(math: RealFunctions, engine: Engine, seed: nat, position: nat, c: DelayComponent,
                       s: ComponentState, now: real)
    ensures var r := SampleComponent(math, engine, seed, position, c, s, now);
      var slow := Drifted(math, engine, seed, position, c, s, now);
      var burst := Burst(engine, seed, slow.next, c);
      var jitter := Deviated(engine, seed, burst.next, c.jitterStddevMs);
      && r.ms == c.baseMs + slow.value + burst.value + jitter.value && r.position == jitter.next
      && r.state == s.(slowMs := slow.value, lastTime := now, haveTime := true)
  {
    var slow := Drifted(math, engine, seed, position, c, s, now);
    var calm := c.(slowStddevMs := 0.0);
    DriftComesFirst(math, engine, seed, position, c, s, now);
    JitterShifts(math, engine, seed, slow.next, calm, s.(slowMs := slow.value), now);
    BurstIsAdded(math, engine, seed, slow.next, calm.(jitterStddevMs := 0.0), s.(slowMs := slow.value), now);
    SameBurst(engine, seed, slow.next, c, calm.(jitterStddevMs := 0.0));
  }

  lemma SameBurst(engine: Engine, seed: nat, position: nat, c: DelayComponent, d: DelayComponent)
    requires d == c.(slowStddevMs := 0.0, jitterStddevMs := 0.0)
    ensures Burst(engine, seed, position, d) == Burst(engine, seed, position, c)
  {}

  // The delay of a tracker.

  /** The component sampled for a tracker: its own one, or the default. */
  function OwnComponent(config: DelayConfig, tracker: string): DelayComponent {
    if tracker in config.trackers then config.trackers[tracker].component
    else DelayComponent(0.0, 0.0, 5.0, 0.0, 0.0, 0.0, 0.0)
  }

  function OwnState(s: DelayState, tracker: string): ComponentState {
    if tracker in s.trackers then s.trackers[tracker] else ComponentState(0.0, 0.0, 0.0, 0.0, false, false)
  }

  /** Sampled for the given cycle already. */
  predicate Cached(s: ComponentState, now: real) {
    s.haveCycleDelay && s.cycleTime == now
  }

  /** A sum of terms, kept between zero and the tracker's maximum. */
  function Limited(config: DelayConfig, tracker: string, sumMs: real): real {
    var most := if tracker in config.trackers && config.trackers[tracker].maxDelayMs >= 0.0
                then config.trackers[tracker].maxDelayMs
                else config.maxDelayMs;
    var least := if sumMs < 0.0 then 0.0 else sumMs;
    if most < least then most else least
  }

  /** What a cycle's start samples: the common component, once. */
  lemma CommonIsSampled(math: RealFunctions, engine: Engine, s: DelayState, now: real)
    requires s.config.enabled
    ensures var t := StartCycle(math, engine, s, now);
      var sampled := SampleComponent(math, engine, s.seed, s.position, s.config.common, s.common, now);
      && t.trackers == s.trackers && t.config == s.config && t.seed == s.seed
      && t.cycleValid && t.cycleTime == now && Cached(t.common, now)
      && t.common.cycleDelayMs == t.commonDelayMs
      && if Cached(s.common, now) then t.commonDelayMs == s.common.cycleDelayMs && t.position == s.position
         else && t.commonDelayMs == sampled.ms && t.position == sampled.position
              && t.common.slowMs == sampled.state.slowMs && t.common.lastTime == now && t.common.haveTime
  {}

  /** Within a cycle a tracker's own component is sampled once, from its own state, and the delay is that plus the
      common term, limited. */
  lemma OwnIsAdded(math: RealFunctions, engine: Engine, s: DelayState, tracker: string, now: real)
    requires s.config.enabled && s.cycleValid && s.cycleTime == now
    ensures var d := DelayFor(math, engine, s, tracker, now);
      var before := OwnState(s, tracker);
      var own := SampleComponent(math, engine, s.seed, s.position, OwnComponent(s.config, tracker), before, now);
      var ms := if Cached(before, now) then before.cycleDelayMs else own.ms;
      && d.seconds == Limited(s.config, tracker, s.commonDelayMs + ms) / 1000.0
      && d.state.position == (if Cached(before, now) then s.position else own.position)
      && d.state.trackers == s.trackers[tracker := d.state.trackers[tracker]]
      && d.state.trackers[tracker] ==
         (if Cached(before, now) then before
          else own.state.(cycleDelayMs := own.ms, cycleTime := now, haveCycleDelay := true))
      && d.state == s.(trackers := d.state.trackers, position := d.state.position)
  {}

  /** Outside the cycle the cycle is started first. */
  lemma CycleIsStarted(math: RealFunctions, engine: Engine, s: DelayState, tracker: string, now: real)
    requires s.config.enabled && !(s.cycleValid && s.cycleTime == now)
    ensures DelayFor(math, engine, s, tracker, now) ==
            DelayFor(math, engine, StartCycle(math, engine, s, now), tracker, now)
  {}

  /** So the first delay of a fresh sampler is made of the common component's sample and then the tracker's own,
      drawn one after the other from the configured seed, where zero stands for one. */
  lemma FirstDelayIs(math: RealFunctions, engine: Engine, config: DelayConfig, tracker: string, now: real)
    requires config.enabled
    ensures var unsampled := ComponentState(0.0, 0.0, 0.0, 0.0, false, false);
      var seed := if config.seed == 0 then 1 else config.seed;
      var common := SampleComponent(math, engine, seed, 0, config.common, unsampled, now);
      var own := SampleComponent(math, engine, seed, common.position, OwnComponent(config, tracker), unsampled, now);
      var d := DelayFor(math, engine, InitialDelay(config), tracker, now);
      && d.seconds == Limited(config, tracker, common.ms + own.ms) / 1000.0
      && d.state.position == own.position
  {
    CycleIsStarted(math, engine, InitialDelay(config), tracker, now);
    CommonIsSampled(math, engine, InitialDelay(config), now);
    OwnIsAdded(math, engine, StartCycle(math, engine, InitialDelay(config), now), tracker, now);
  }

  /** For example a base of 5 ms and a burst of 20 ms that a uniform draw of a quarter sets off: 25 ms. */
  lemma BurstExample(math: RealFunctions, engine: Engine, tracker: string, now: real)
    requires engine.uniform(7, 0).value == 0.25
    ensures var config := DelayConfig(true, SendTime, 7, 30.0, 0.0,
                                      DelayComponent(5.0, 0.0, 5.0, 0.0, 0.5, 20.0, 20.0), map[]);
      DelayFor(math, engine, InitialDelay(config), tracker, now).seconds == 0.025
  {
    var config := DelayConfig(true, SendTime, 7, 30.0, 0.0, DelayComponent(5.0, 0.0, 5.0, 0.0, 0.5, 20.0, 20.0), map[]);
    var unsampled := ComponentState(0.0, 0.0, 0.0, 0.0, false, false);
    var common := SampleComponent(math, engine, 7, 0, config.common, unsampled, now);
    FirstDelayIs(math, engine, config, tracker, now);
    BurstIsAdded(math, engine, 7, 0, config.common, unsampled, now);
    BurstIsAdded(math, engine, 7, common.position, OwnComponent(config, tracker), unsampled, now);
  }
}
