/** What holds of every call sequence on a measurement delay. */
module DelayCycles {
  import opened Numerics
  import opened MeasurementDelays

  /** The two calls the tracker server makes. */
  datatype Call = Start | Query(tracker: string)

  function Apply(math: RealFunctions, engine: Engine, s: DelayState, call: Call, now: real): DelayState {
    match call
    case Start => StartCycle(math, engine, s, now)
    case Query(tracker) => DelayFor(math, engine, s, tracker, now).state
  }

  datatype TimedCall = TimedCall(call: Call, now: real)

  function Run(math: RealFunctions, engine: Engine, s: DelayState, calls: seq<TimedCall>): DelayState {
    if calls == [] then s
    else
      var last := calls[|calls| - 1];
      Apply(math, engine, Run(math, engine, s, calls[..|calls| - 1]), last.call, last.now)
  }

  /** The common term a state reports as current is the one its cache holds. */
  ghost predicate Coherent(s: DelayState) {
    s.config.enabled && s.cycleValid ==>
      && s.common.haveCycleDelay
      && s.common.cycleTime == s.cycleTime
      && s.common.cycleDelayMs == s.commonDelayMs
  }

  lemma ApplyKeeps(math: RealFunctions, engine: Engine, s: DelayState, call: Call, now: real)
    requires Coherent(s)
    ensures var t := Apply(math, engine, s, call, now);
      Coherent(t) && t.config == s.config && t.seed == s.seed
  {}

  lemma {:induction false} RunKeeps(math: RealFunctions, engine: Engine, config: DelayConfig, calls: seq<TimedCall>)
    ensures var t := Run(math, engine, InitialDelay(config), calls);
      Coherent(t) && t.config == config && t.seed == Seed(config)
  {
    if calls != [] {
      var front := calls[..|calls| - 1];
      RunKeeps(math, engine, config, front);
      var last := calls[|calls| - 1];
      ApplyKeeps(math, engine, Run(math, engine, InitialDelay(config), front), last.call, last.now);
    }
  }

  /** Whatever was called before, and whatever the engine yields, a delay lies between zero and the
      tracker's maximum; it is zero when delays are disabled. */
  lemma EveryDelayInRange(math: RealFunctions, engine: Engine, config: DelayConfig, calls: seq<TimedCall>,
                          tracker: string, now: real)
    requires MaxDelayMs(config, tracker) >= 0.0
    ensures var d := DelayFor(math, engine, Run(math, engine, InitialDelay(config), calls), tracker, now).seconds;
      && 0.0 <= d <= MaxDelayMs(config, tracker) / 1000.0
      && (!config.enabled ==> d == 0.0)
  {
    RunKeeps(math, engine, config, calls);
  }

  // Calls at one cycle time.

  function After(math: RealFunctions, engine: Engine, s: DelayState, calls: seq<Call>, now: real): DelayState {
    if calls == [] then s
    else Apply(math, engine, After(math, engine, s, calls[..|calls| - 1], now), calls[|calls| - 1], now)
  }

  function Distinct(calls: seq<Call>): seq<Call> {
    if calls == [] then []
    else
      var front := Distinct(calls[..|calls| - 1]);
      if calls[|calls| - 1] in front then front else front + [calls[|calls| - 1]]
  }

  /** The calls made so far are answered from the caches from now on. */
  ghost predicate Answered(s: DelayState, calls: seq<Call>, now: real) {
    && (calls != [] && (s.config.enabled || Start in calls) ==> s.cycleValid && s.cycleTime == now)
    && (!s.config.enabled && Start in calls ==> s.commonDelayMs == 0.0)
    && (s.config.enabled ==> forall t :: Query(t) in calls ==>
          t in s.trackers && s.trackers[t].haveCycleDelay && s.trackers[t].cycleTime == now)
  }

  lemma RepeatChangesNothing(math: RealFunctions, engine: Engine, s: DelayState, calls: seq<Call>, call: Call,
                             now: real)
    requires Coherent(s) && Answered(s, calls, now) && call in calls
    ensures Apply(math, engine, s, call, now) == s
  {
    if call.Query? && s.config.enabled {
      assert s.trackers[call.tracker := s.trackers[call.tracker]] == s.trackers;
    }
  }

  lemma {:induction false} CallsAreAnswered(math: RealFunctions, engine: Engine, s: DelayState, calls: seq<Call>,
                                            now: real)
    requires Coherent(s)
    ensures var t := After(math, engine, s, calls, now);
      Coherent(t) && t.config == s.config && Answered(t, calls, now)
  {
    if calls != [] {
      CallsAreAnswered(math, engine, s, calls[..|calls| - 1], now);
    }
  }

  lemma {:induction false} DistinctHasTheSame(calls: seq<Call>)
    ensures forall c :: c in calls <==> c in Distinct(calls)
    ensures forall i, j :: 0 <= i < j < |Distinct(calls)| ==> Distinct(calls)[i] != Distinct(calls)[j]
  {
    if calls != [] {
      DistinctHasTheSame(calls[..|calls| - 1]);
      assert calls == calls[..|calls| - 1] + [calls[|calls| - 1]];
    }
  }

  /** At one cycle time every component is sampled at most once: repeated calls leave the caches, the
      current common term and the engine's position as the first occurrences alone leave them. */
  lemma {:induction false} SampledAtMostOnce(math: RealFunctions, engine: Engine, s: DelayState, calls: seq<Call>,
                                             now: real)
    requires Coherent(s)
    ensures After(math, engine, s, calls, now) == After(math, engine, s, Distinct(calls), now)
  {
    if calls != [] {
      var front, last := calls[..|calls| - 1], calls[|calls| - 1];
      SampledAtMostOnce(math, engine, s, front, now);
      DistinctHasTheSame(front);
      if last in Distinct(front) {
        CallsAreAnswered(math, engine, s, front, now);
        RepeatChangesNothing(math, engine, After(math, engine, s, front, now), front, last, now);
      } else {
        assert Distinct(calls)[..|Distinct(calls)| - 1] == Distinct(front);
      }
    }
  }

  /** What a query answers after the given calls. */
  function Answer(math: RealFunctions, engine: Engine, s: DelayState, calls: seq<Call>, tracker: string,
                  now: real): real
  {
    DelayFor(math, engine, After(math, engine, s, calls, now), tracker, now).seconds
  }

  /** Within a cycle all trackers share the common term sampled first, and a tracker's answer is that
      term plus its own, clamped: nothing asked later in the cycle changes either. */
  lemma {:induction false} CommonTermIsShared(math: RealFunctions, engine: Engine, s: DelayState, calls: seq<Call>,
                                              tracker: string, now: real)
    requires Coherent(s) && s.config.enabled && Query(tracker) in calls
    ensures var t := After(math, engine, s, calls, now);
      && t.commonDelayMs == InCycle(math, engine, s, now).commonDelayMs
      && tracker in t.trackers
      && Answer(math, engine, s, calls, tracker, now) ==
         Clamp(t.commonDelayMs + t.trackers[tracker].cycleDelayMs, 0.0, MaxDelayMs(s.config, tracker)) / 1000.0
  {
    CallsAreAnswered(math, engine, s, calls, now);
    CommonTermIsFixed(math, engine, s, calls, now);
  }

  lemma {:induction false} CommonTermIsFixed(math: RealFunctions, engine: Engine, s: DelayState, calls: seq<Call>,
                                             now: real)
    requires Coherent(s) && s.config.enabled && calls != []
    ensures After(math, engine, s, calls, now).commonDelayMs == InCycle(math, engine, s, now).commonDelayMs
  {
    var front := calls[..|calls| - 1];
    CallsAreAnswered(math, engine, s, front, now);
    if front != [] {
      CommonTermIsFixed(math, engine, s, front, now);
    }
  }

  /** A repeated query returns what the first one returned, whatever is asked in between. */
  lemma RepeatedQueryAgrees(math: RealFunctions, engine: Engine, s: DelayState,
                            before: seq<Call>, between: seq<Call>, tracker: string, now: real)
    requires Coherent(s)
    ensures Answer(math, engine, s, before, tracker, now) ==
            Answer(math, engine, s, before + [Query(tracker)] + between, tracker, now)
  {
    var asked := before + [Query(tracker)];
    assert asked[..|asked| - 1] == before;
    CallsAreAnswered(math, engine, s, before, now);
    if s.config.enabled {
      assert Query(tracker) in asked && Query(tracker) in asked + between;
      AnswerIsCached(math, engine, After(math, engine, s, before, now), tracker, now);
      CommonTermIsFixed(math, engine, s, asked, now);
      CommonTermIsShared(math, engine, s, asked + between, tracker, now);
      TrackerTermIsFixed(math, engine, s, asked, between, tracker, now);
    } else {
      CallsAreAnswered(math, engine, s, asked + between, now);
    }
  }

  lemma AnswerIsCached(math: RealFunctions, engine: Engine, s: DelayState, tracker: string, now: real)
    requires s.config.enabled
    ensures var d := DelayFor(math, engine, s, tracker, now);
      && tracker in d.state.trackers
      && d.seconds == Clamp(d.state.commonDelayMs + d.state.trackers[tracker].cycleDelayMs,
                            0.0, MaxDelayMs(s.config, tracker)) / 1000.0
  {}

  lemma {:induction false} TrackerTermIsFixed(math: RealFunctions, engine: Engine, s: DelayState,
                                              before: seq<Call>, between: seq<Call>, tracker: string, now: real)
    requires Coherent(s) && s.config.enabled && Query(tracker) in before
    ensures var first, last := After(math, engine, s, before, now), After(math, engine, s, before + between, now);
      && tracker in first.trackers && tracker in last.trackers
      && first.trackers[tracker].cycleDelayMs == last.trackers[tracker].cycleDelayMs
  {
    CallsAreAnswered(math, engine, s, before, now);
    if between == [] {
      assert before + between == before;
    } else {
      var front := between[..|between| - 1];
      TrackerTermIsFixed(math, engine, s, before, front, tracker, now);
      CallsAreAnswered(math, engine, s, before + front, now);
      assert (before + between)[..|before + between| - 1] == before + front;
      assert Query(tracker) in before + front;
    }
  }
}
