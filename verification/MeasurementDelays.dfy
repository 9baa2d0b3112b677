/** The simulated transport delay: a stateful sampler with one common term, one term per tracker and a
    per-cycle cache.  The random engine is a seed and a position in that seed's stream. */
module MeasurementDelays {
  import opened Numerics

  datatype TimestampPolicy = SendTime | SampleTime

  datatype DelayComponent = DelayComponent(
    baseMs: real,
    slowStddevMs: real,
    slowTauS: real,
    jitterStddevMs: real,
    burstProbability: real,
    burstExtraMinMs: real,
    burstExtraMaxMs: real)

  const DEFAULT_COMPONENT := DelayComponent(0.0, 0.0, 5.0, 0.0, 0.0, 0.0, 0.0)

  /** A negative maximum means "use the global one". */
  datatype TrackerDelay = TrackerDelay(component: DelayComponent, maxDelayMs: real)

  datatype DelayConfig = DelayConfig(
    enabled: bool,
    policy: TimestampPolicy,
    seed: nat,
    maxDelayMs: real,
    historyMarginMs: real,
    common: DelayComponent,
    trackers: map<string, TrackerDelay>)

  datatype Draw = Draw(value: real, next: nat)

  /** What the engine seeded with the first argument yields at the position given by the second: a
      standard normal or a uniform [0, 1) variate, and the position after it.  Distribution objects
      live for one draw only, so there is no other state. */
  datatype Engine = Engine(normal: (nat, nat) -> Draw, uniform: (nat, nat) -> Draw)

  datatype ComponentState = ComponentState(
    slowMs: real,
    lastTime: real,
    cycleTime: real,
    cycleDelayMs: real,
    haveTime: bool,
    haveCycleDelay: bool)

  const FRESH_COMPONENT := ComponentState(0.0, 0.0, 0.0, 0.0, false, false)

  datatype DelayState = DelayState(
    config: DelayConfig,
    seed: nat,
    position: nat,
    common: ComponentState,
    trackers: map<string, ComponentState>,
    cycleValid: bool,
    cycleTime: real,
    commonDelayMs: real)

  function Seed(config: DelayConfig): nat {
    if config.seed == 0 then 1 else config.seed
  }

  function InitialDelay(config: DelayConfig): DelayState {
    DelayState(config, Seed(config), 0, FRESH_COMPONENT, map[], false, 0.0, 0.0)
  }

  function TrackerComponent(config: DelayConfig, tracker: string): DelayComponent {
    if tracker in config.trackers then config.trackers[tracker].component else DEFAULT_COMPONENT
  }

  function MaxDelayMs(config: DelayConfig, tracker: string): real {
    if tracker in config.trackers && config.trackers[tracker].maxDelayMs >= 0.0
    then config.trackers[tracker].maxDelayMs
    else config.maxDelayMs
  }

  /** Room for every sample of a delay window at the publish rate, and three to spare. */
  function CapacityForWindow(windowS: real, publishRateHz: real): nat {
    var raw := Ceil(windowS * publishRateHz) + 3;
    if raw < 4 then 4 else raw
  }

  function HistoryCapacity(config: DelayConfig, tracker: string, publishRateHz: real): nat {
    if !config.enabled then 4
    else CapacityForWindow((MaxDelayMs(config, tracker) + Max(config.historyMarginMs, 0.0)) / 1000.0, publishRateHz)
  }

  // Draws

  function NormalAt(engine: Engine, seed: nat, position: nat, mean: real, stddev: real): Draw {
    if stddev <= 0.0 then Draw(mean, position)
    else var z := engine.normal(seed, position); Draw(mean + stddev * z.value, z.next)
  }

  function UniformAt(engine: Engine, seed: nat, position: nat, low: real, high: real): Draw {
    if high <= low then Draw(low, position)
    else var u := engine.uniform(seed, position); Draw(low + (high - low) * u.value, u.next)
  }

  // One component

  function SlowFactor(math: RealFunctions, tau: real, dt: real): real
    requires tau > 0.0
  {
    math.exp(-dt / tau)
  }

  function SlowSigma(math: RealFunctions, stddev: real, alpha: real): real {
    stddev * math.sqrt(Max(0.0, 1.0 - alpha * alpha))
  }

  datatype Sampled = Sampled(ms: real, state: ComponentState, position: nat)

  /** Draw order: slow drift, burst decision, burst size, jitter. */
  function SampleComponent(math: RealFunctions, engine: Engine, seed: nat, position: nat,
                           config: DelayComponent, state: ComponentState, now: real): Sampled
  {
    var dt := if state.haveTime then Max(0.0, now - state.lastTime) else 0.0;
    var slow :=
      if state.haveTime && config.slowStddevMs > 0.0 && config.slowTauS > 0.0 then
        var alpha := SlowFactor(math, config.slowTauS, dt);
        var drift := NormalAt(engine, seed, position, 0.0, SlowSigma(math, config.slowStddevMs, alpha));
        Draw(alpha * state.slowMs + drift.value, drift.next)
      else Draw(state.slowMs, position);
    var burst :=
      if config.burstProbability > 0.0 then
        var chance := UniformAt(engine, seed, slow.next, 0.0, 1.0);
        if chance.value < config.burstProbability
        then UniformAt(engine, seed, chance.next, config.burstExtraMinMs, config.burstExtraMaxMs)
        else Draw(0.0, chance.next)
      else Draw(0.0, slow.next);
    var jitter := NormalAt(engine, seed, burst.next, 0.0, config.jitterStddevMs);
    Sampled(config.baseMs + slow.value + jitter.value + burst.value,
            state.(slowMs := slow.value, lastTime := now, haveTime := true),
            jitter.next)
  }

  function SampleForCycle(math: RealFunctions, engine: Engine, seed: nat, position: nat,
                          config: DelayComponent, state: ComponentState, now: real): Sampled
  {
    if state.haveCycleDelay && state.cycleTime == now then Sampled(state.cycleDelayMs, state, position)
    else
      var s := SampleComponent(math, engine, seed, position, config, state, now);
      Sampled(s.ms, s.state.(cycleDelayMs := s.ms, cycleTime := now, haveCycleDelay := true), s.position)
  }

  // Publish cycles

  function StartCycle(math: RealFunctions, engine: Engine, s: DelayState, now: real): DelayState {
    if !s.config.enabled then s.(cycleValid := true, cycleTime := now, commonDelayMs := 0.0)
    else
      var c := SampleForCycle(math, engine, s.seed, s.position, s.config.common, s.common, now);
      s.(common := c.state, position := c.position, commonDelayMs := c.ms, cycleTime := now, cycleValid := true)
  }

  function InCycle(math: RealFunctions, engine: Engine, s: DelayState, now: real): DelayState {
    if !s.cycleValid || s.cycleTime != now then StartCycle(math, engine, s, now) else s
  }

  datatype Delayed = Delayed(seconds: real, state: DelayState)

  function DelayFor(math: RealFunctions, engine: Engine, s: DelayState, tracker: string, now: real): Delayed {
    if !s.config.enabled then Delayed(0.0, s)
    else
      var c := InCycle(math, engine, s, now);
      var before := if tracker in c.trackers then c.trackers[tracker] else FRESH_COMPONENT;
      var t := SampleForCycle(math, engine, c.seed, c.position, TrackerComponent(c.config, tracker), before, now);
      var clamped := Clamp(c.commonDelayMs + t.ms, 0.0, MaxDelayMs(c.config, tracker));
      Delayed(clamped / 1000.0, c.(trackers := c.trackers[tracker := t.state], position := t.position))
  }

  class MeasurementDelay {
    const math: RealFunctions
    const engine: Engine
    var config: DelayConfig
    var seed: nat
    var position: nat
    var commonState: ComponentState
    var trackerStates: map<string, ComponentState>
    var commonCycleValid: bool
    var currentCycleTime: real
    var currentCommonDelayMs: real

    ghost function State(): DelayState
      reads this
    {
      DelayState(config, seed, position, commonState, trackerStates,
                 commonCycleValid, currentCycleTime, currentCommonDelayMs)
    }

    constructor (math: RealFunctions, engine: Engine, config: DelayConfig)
      ensures this.math == math && this.engine == engine
      ensures State() == InitialDelay(config)
    {
      this.math, this.engine, this.config := math, engine, config;
      seed, position := Seed(config), 0;
      commonState, trackerStates := FRESH_COMPONENT, map[];
      commonCycleValid, currentCycleTime, currentCommonDelayMs := false, 0.0, 0.0;
    }

    method Reset(config: DelayConfig)
      modifies this
      ensures State() == InitialDelay(config)
    {
      this.config := config;
      seed, position := Seed(config), 0;
      commonState := FRESH_COMPONENT;
      trackerStates := map[];
      commonCycleValid := false;
      currentCommonDelayMs := 0.0;
      currentCycleTime := 0.0;
    }

    method StartPublishCycle(now: real)
      modifies this
      ensures State() == StartCycle(math, engine, old(State()), now)
    {
      if !config.enabled {
        commonCycleValid := true;
        currentCycleTime := now;
        currentCommonDelayMs := 0.0;
        return;
      }
      currentCommonDelayMs, commonState := SampleCached(config.common, commonState, now);
      currentCycleTime := now;
      commonCycleValid := true;
    }

    method DelaySecondsForTracker(tracker: string, now: real) returns (seconds: real)
      modifies this
      ensures Delayed(seconds, State()) == DelayFor(math, engine, old(State()), tracker, now)
    {
      if !config.enabled {
        return 0.0;
      }
      if !commonCycleValid || currentCycleTime != now {
        StartPublishCycle(now);
      }
      var state := if tracker in trackerStates then trackerStates[tracker] else FRESH_COMPONENT;
      var trackerDelayMs;
      trackerDelayMs, state := SampleCached(TrackerComponent(config, tracker), state, now);
      trackerStates := trackerStates[tracker := state];
      seconds := Clamp(currentCommonDelayMs + trackerDelayMs, 0.0, MaxDelayMs(config, tracker)) / 1000.0;
    }

    method SampleCached(component: DelayComponent, state: ComponentState, now: real)
      returns (ms: real, after: ComponentState)
      modifies `position
      ensures Sampled(ms, after, position) ==
              SampleForCycle(math, engine, seed, old(position), component, state, now)
    {
      if state.haveCycleDelay && state.cycleTime == now {
        return state.cycleDelayMs, state;
      }
      ms, after := Sample(component, state, now);
      after := after.(cycleDelayMs := ms, cycleTime := now, haveCycleDelay := true);
    }

    method Sample(component: DelayComponent, state: ComponentState, now: real)
      returns (ms: real, after: ComponentState)
      modifies `position
      ensures Sampled(ms, after, position) ==
              SampleComponent(math, engine, seed, old(position), component, state, now)
    {
      after := state;
      var dt := 0.0;
      if state.haveTime {
        dt := Max(0.0, now - state.lastTime);
      }
      if state.haveTime && component.slowStddevMs > 0.0 && component.slowTauS > 0.0 {
        var alpha := SlowFactor(math, component.slowTauS, dt);
        var drift := SampleNormal(0.0, SlowSigma(math, component.slowStddevMs, alpha));
        after := after.(slowMs := alpha * state.slowMs + drift);
      }
      after := after.(lastTime := now, haveTime := true);
      var burstMs := 0.0;
      if component.burstProbability > 0.0 {
        var chance := SampleUniform(0.0, 1.0);
        if chance < component.burstProbability {
          burstMs := SampleUniform(component.burstExtraMinMs, component.burstExtraMaxMs);
        }
      }
      var jitter := SampleNormal(0.0, component.jitterStddevMs);
      ms := component.baseMs + after.slowMs + jitter + burstMs;
    }

    method SampleNormal(mean: real, stddev: real) returns (value: real)
      modifies `position
      ensures Draw(value, position) == NormalAt(engine, seed, old(position), mean, stddev)
    {
      if stddev <= 0.0 {
        return mean;
      }
      var z := engine.normal(seed, position);
      position := z.next;
      value := mean + stddev * z.value;
    }

    method SampleUniform(low: real, high: real) returns (value: real)
      modifies `position
      ensures Draw(value, position) == UniformAt(engine, seed, old(position), low, high)
    {
      if high <= low {
        return low;
      }
      var u := engine.uniform(seed, position);
      position := u.next;
      value := low + (high - low) * u.value;
    }
  }
}
