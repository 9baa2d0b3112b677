/** What a publish of a run sends: under which time stamp, for which target, and in which reports. */
module WireStamps {
  import opened Numerics
  import opened MeasurementDelays
  import opened ServerConfigs
  import opened Timevals
  import opened TrackerStates
  import opened ServerRuns
  import opened Epochs
  import opened Selections
  import opened DelayDraws

  // Time stamps.

  /** The nearest microsecond of a time, where a negative one reads as zero and halves go up. */
  ghost predicate ShowsTime(stamp: Timeval, time: real) {
    && 0 <= stamp.sec && 0 <= stamp.usec < 1000000
    && stamp.sec * 1000000 + stamp.usec == ((if time < 0.0 then 0.0 else time) * 1000000.0 + 0.5).Floor
  }

  lemma ConversionShows(time: real)
    ensures ShowsTime(SecondsToTimeval(time), time)
  {
    TimevalIsNearest(time);
  }

  /** The snapshot that a model's sample with the given number was taken from. */
  ghost predicate TakenAt(p: Platform, config: ServerConfig, events: seq<Event>, name: string, number: nat,
                          snapshot: Snapshot)
  {
    var origins := Origins(p, config, events, name);
    && number < |origins| && origins[number] < |events|
    && events[origins[number]] == Snap(snapshot)
  }

  lemma SelectedSample(p: Platform, config: ServerConfig, events: seq<Event>, i: nat, k: nat)
    returns (snapshot: Snapshot)
    requires i < |events| && events[i].Send? && k < |SentAt(p, config, events, i)|
    ensures var x := SentAt(p, config, events, i)[k];
      && TakenAt(p, config, events[..i], x.model, x.number, snapshot)
      && TakenFrom(x.sample, snapshot)
  {
    var x := SentAt(p, config, events, i)[k];
    SentIsSound(p, config, events, i, k);
    EverySampleIsExplained(p, config, events[..i], x.model);
    snapshot := events[..i][Origins(p, config, events[..i], x.model)[x.number]].snapshot;
  }

  lemma {:induction false} SnapshotWasSeen(events: seq<Event>, i: nat)
    requires i < |events| && events[i].Snap?
    ensures LastSnapshot(events).Some?
  {
    if !events[|events| - 1].Snap? {
      SnapshotWasSeen(events[..|events| - 1], i);
    }
  }

  /** Which time is on the wire, over every run.  Under `send_time` it is the simulation time of the last snapshot
      processed, or the send time where the wall clock is the source; under `sample_time` the simulation time of the
      snapshot the sample was taken from, or the wall time it was captured at. */
  lemma StampIs(p: Platform, config: ServerConfig, events: seq<Event>, i: nat, k: nat) returns (taken: Snapshot)
    requires i < |events| && events[i].Send? && k < |SentAt(p, config, events, i)|
    ensures LastSnapshot(events[..i]).Some?
    ensures var x, last := SentAt(p, config, events, i)[k], LastSnapshot(events[..i]).value;
      && TakenAt(p, config, events[..i], x.model, x.number, taken)
      && (config.delay.policy == SendTime ==>
            ShowsTime(x.timestamp, if last.source == SimulationTime then last.sampleTime else events[i].time))
      && (config.delay.policy == SampleTime ==>
            ShowsTime(x.timestamp, if taken.source == SimulationTime then taken.sampleTime else taken.captureWallTime))
  {
    var x, clock := SentAt(p, config, events, i)[k], Run(p, config, events[..i]).clock;
    SentIsSound(p, config, events, i, k);
    taken := SelectedSample(p, config, events, i, k);
    SnapshotWasSeen(events[..i], Origins(p, config, events[..i], x.model)[x.number]);
    ClockFollowsSnapshots(p, config, events[..i]);
    ConversionShows(x.sample.sourceTime);
    ConversionShows(if clock.source == SimulationTime then clock.lastSampleTime else events[i].time);
  }

  // Targets.

  /** The selection's target is the send time minus the delay made of the cycle's common term and its tracker's own,
      both sampled for this cycle. */
  ghost predicate Aimed(config: DelayConfig, d: DelayState, x: Selection, send: real) {
    && x.tracker in d.trackers && d.trackers[x.tracker].haveCycleDelay && d.trackers[x.tracker].cycleTime == send
    && x.target ==
       Some(send - Limited(config, x.tracker, d.commonDelayMs + d.trackers[x.tracker].cycleDelayMs) / 1000.0)
  }

  ghost predicate CycleHolds(config: DelayConfig, d: DelayState, send: real) {
    d.config == config && d.cycleValid && d.cycleTime == send
  }

  lemma DelayAims(p: Platform, config: DelayConfig, s: DelayState, tracker: string, send: real)
    requires config.enabled && CycleHolds(config, s, send)
    ensures var d := DelayFor(p.math, p.engine, s, tracker, send);
      && CycleHolds(config, d.state, send) && d.state.commonDelayMs == s.commonDelayMs
      && tracker in d.state.trackers
      && d.state.trackers[tracker].haveCycleDelay && d.state.trackers[tracker].cycleTime == send
      && d.seconds == Limited(config, tracker, s.commonDelayMs + d.state.trackers[tracker].cycleDelayMs) / 1000.0
  {}

  lemma DelayKeeps(p: Platform, config: DelayConfig, s: DelayState, tracker: string, send: real, x: Selection)
    requires config.enabled && CycleHolds(config, s, send) && Aimed(config, s, x, send)
    ensures Aimed(config, DelayFor(p.math, p.engine, s, tracker, send).state, x, send)
  {}

  lemma {:induction false} SelectionsAreAimed(p: Platform, config: ServerConfig, r: Registry, clock: Clock,
                                              start: DelayState, names: seq<string>, send: real)
    requires config.delay.enabled && CycleHolds(config.delay, start, send)
    ensures var published := PublishModels(p, config, r, clock, start, names, send);
      && CycleHolds(config.delay, published.delay, send) && published.delay.commonDelayMs == start.commonDelayMs
      && forall k :: 0 <= k < |published.selections| ==>
           Aimed(config.delay, published.delay, published.selections[k], send)
  {
    if names != [] {
      var front, last := names[..|names| - 1], names[|names| - 1];
      SelectionsAreAimed(p, config, r, clock, start, front, send);
      var before := PublishModels(p, config, r, clock, start, front, send);
      if last in r.tracked && r.tracked[last].havePose {
        var tracker := r.tracked[last].trackerName;
        DelayAims(p, config.delay, before.delay, tracker, send);
        forall k | 0 <= k < |before.selections|
          ensures Aimed(config.delay, DelayFor(p.math, p.engine, before.delay, tracker, send).state,
                        before.selections[k], send)
        {
          DelayKeeps(p, config.delay, before.delay, tracker, send, before.selections[k]);
        }
      }
    }
  }

  /** Where every target of a run comes from: all selections of a publish share the common term sampled when its
      cycle started, and each adds the term of its own tracker. */
  lemma TargetIs(p: Platform, config: ServerConfig, events: seq<Event>, i: nat, k: nat)
    requires i < |events| && events[i].Send? && k < |SentAt(p, config, events, i)|
    ensures var x, d := SentAt(p, config, events, i)[k], Run(p, config, events[..i + 1]).delay;
      if config.delay.enabled
      then && Aimed(config.delay, d, x, events[i].time)
           && d.commonDelayMs ==
              StartCycle(p.math, p.engine, Run(p, config, events[..i]).delay, events[i].time).commonDelayMs
      else x.target == None
  {
    var s, send := Run(p, config, events[..i]), events[i].time;
    DelayConfigStays(p, config, events[..i]);
    assert events[..i + 1][..i] == events[..i];
    SentIsSound(p, config, events, i, k);
    if config.delay.enabled {
      SelectionsAreAimed(p, config, s.registry, s.clock, StartCycle(p.math, p.engine, s.delay, send),
                         s.registry.order, send);
    }
  }

  // Reports.

  /** How many reports the given selections make: one each, and one more for each derivative the sample has. */
  function Count(selections: seq<Selection>): nat {
    if selections == [] then 0
    else
      var s := selections[|selections| - 1].sample;
      Count(selections[..|selections| - 1]) + 1 +
      (if s.haveVelocity then 1 else 0) + (if s.haveAcceleration then 1 else 0)
  }

  /** The reports from the given index on are those of one selection: its tracker's pose, then its velocity and its
      acceleration if it has them, all under one stamp. */
  ghost predicate Reported(reports: seq<Report>, at: nat, x: Selection) {
    var s := x.sample;
    var next := if s.haveVelocity then at + 2 else at + 1;
    && at < |reports| && reports[at] == PoseReport(x.tracker, x.timestamp, s.pose)
    && (s.haveVelocity ==>
          && at + 1 < |reports|
          && reports[at + 1] ==
             VelocityReport(x.tracker, x.timestamp, s.linearVelocity, s.angularVelocity, s.reportInterval))
    && (s.haveAcceleration ==>
          && next < |reports|
          && reports[next] ==
             AccelerationReport(x.tracker, x.timestamp, s.linearAcceleration, s.angularAcceleration,
                                s.reportInterval))
  }

  lemma StaysReported(reports: seq<Report>, more: seq<Report>, at: nat, x: Selection)
    requires Reported(reports, at, x)
    ensures Reported(reports + more, at, x)
  {}

  lemma LastIsReported(reports: seq<Report>, x: Selection)
    ensures Reported(reports + ReportsOf(x.tracker, x.timestamp, x.sample), |reports|, x)
  {}

  lemma {:induction false} CountIs(selections: seq<Selection>)
    ensures |Reports(selections)| == Count(selections)
  {
    if selections != [] {
      CountIs(selections[..|selections| - 1]);
    }
  }

  lemma {:induction false} ReportIs(selections: seq<Selection>, k: nat)
    requires k < |selections|
    ensures Reported(Reports(selections), Count(selections[..k]), selections[k])
  {
    var last := |selections| - 1;
    var front, x := selections[..last], selections[last];
    if k == last {
      CountIs(front);
      LastIsReported(Reports(front), x);
    } else {
      ReportIs(front, k);
      assert front[..k] == selections[..k];
      StaysReported(Reports(front), ReportsOf(x.tracker, x.timestamp, x.sample), Count(front[..k]), front[k]);
    }
  }

  /** The reports of a publish are those of its selections, one after the other, and no others. */
  lemma ReportsAre(selections: seq<Selection>)
    ensures |Reports(selections)| == Count(selections)
    ensures forall k :: 0 <= k < |selections| ==>
      Reported(Reports(selections), Count(selections[..k]), selections[k])
  {
    CountIs(selections);
    forall k | 0 <= k < |selections|
      ensures Reported(Reports(selections), Count(selections[..k]), selections[k])
    {
      ReportIs(selections, k);
    }
  }
}
