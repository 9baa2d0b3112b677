/** What is published over whole runs: which sample is chosen, and under which time stamp. */
module Selections {
  import opened Numerics
  import opened SelectionProperties
  import opened MeasurementDelays
  import opened ServerConfigs
  import opened Timevals
  import opened TrackerStates
  import opened ServerRuns
  import opened Epochs

  // One publish cycle.

  /** A selection is the chosen sample of a tracked model's history, for a target no further back than the
      tracker's maximum delay. */
  ghost predicate Sound(config: ServerConfig, r: Registry, clock: Clock, send: real, sel: Selection) {
    && sel.model in r.tracked && r.HistoryOf(sel.model).pushed != [] && r.HistoryOf(sel.model).capacity >= 4
    && sel == Select(config, r, clock, sel.model, sel.target, send)
    && (sel.target.Some? <==> config.delay.enabled)
    && (sel.target.Some? && MaxDelayMs(config.delay, sel.tracker) >= 0.0 ==>
          send - MaxDelayMs(config.delay, sel.tracker) / 1000.0 <= sel.target.value <= send)
  }

  lemma DelayBounds(p: Platform, s: DelayState, tracker: string, send: real)
    ensures var d := DelayFor(p.math, p.engine, s, tracker, send);
      && d.state.config == s.config
      && (MaxDelayMs(s.config, tracker) >= 0.0 ==> 0.0 <= d.seconds <= MaxDelayMs(s.config, tracker) / 1000.0)
  {}

  lemma {:induction false} SelectionsAreSound(p: Platform, config: ServerConfig, r: Registry, clock: Clock,
                                              start: DelayState, names: seq<string>, send: real)
    requires RegistryInv(r) && start.config == config.delay
    ensures var published := PublishModels(p, config, r, clock, start, names, send);
      && published.delay.config == config.delay
      && forall k :: 0 <= k < |published.selections| ==> Sound(config, r, clock, send, published.selections[k])
  {
    if names != [] {
      var last := names[|names| - 1];
      SelectionsAreSound(p, config, r, clock, start, names[..|names| - 1], send);
      var before := PublishModels(p, config, r, clock, start, names[..|names| - 1], send);
      if last in r.tracked && r.tracked[last].havePose {
        assert last in r.histories;
        DelayBounds(p, before.delay, r.tracked[last].trackerName, send);
      }
    }
  }

  lemma {:induction false} DelayConfigStays(p: Platform, config: ServerConfig, events: seq<Event>)
    ensures Run(p, config, events).delay.config == config.delay
  {
    if events != [] {
      var front := events[..|events| - 1];
      DelayConfigStays(p, config, front);
      EveryRegistryIsConsistent(p, config, front);
      if events[|events| - 1].Send? {
        var s, send := Run(p, config, front), events[|events| - 1].time;
        SelectionsAreSound(p, config, s.registry, s.clock, StartCycle(p.math, p.engine, s.delay, send),
                           s.registry.order, send);
      }
    }
  }

  /** What the publish at event `i` of a run selects. */
  function SentAt(p: Platform, config: ServerConfig, events: seq<Event>, i: nat): seq<Selection>
    requires i < |events| && events[i].Send?
  {
    Publish(p, config, Run(p, config, events[..i]), events[i].time).selections
  }

  lemma SentIsSound(p: Platform, config: ServerConfig, events: seq<Event>, i: nat, k: nat)
    requires i < |events| && events[i].Send? && k < |SentAt(p, config, events, i)|
    ensures var s := Run(p, config, events[..i]);
      Sound(config, s.registry, s.clock, events[i].time, SentAt(p, config, events, i)[k])
  {
    var s, send := Run(p, config, events[..i]), events[i].time;
    EveryRegistryIsConsistent(p, config, events[..i]);
    DelayConfigStays(p, config, events[..i]);
    SelectionsAreSound(p, config, s.registry, s.clock, StartCycle(p.math, p.engine, s.delay, send),
                       s.registry.order, send);
  }

  // Two publishes in one epoch.

  ghost predicate TargetNotBefore(earlier: Option<real>, later: Option<real>) {
    earlier.Some? && later.Some? ==> earlier.value <= later.value
  }

  /** Publishes `i` and `j` of a run lie in one epoch and selected, as their `a`-th and `b`-th reports,
      samples of one model. */
  ghost predicate SameModelLater(p: Platform, config: ServerConfig, events: seq<Event>, i: nat, j: nat, a: nat,
                                 b: nat)
  {
    && i <= j < |events| && events[i].Send? && events[j].Send?
    && EpochStart(events[..i]) == EpochStart(events[..j])
    && a < |SentAt(p, config, events, i)| && b < |SentAt(p, config, events, j)|
    && SentAt(p, config, events, i)[a].model == SentAt(p, config, events, j)[b].model
  }

  lemma OrderedPrefix(events: seq<Event>, j: nat)
    requires j <= |events| && CapturesInOrder(events)
    ensures CapturesInOrder(events[..j])
  {}

  lemma SameModelGrows(p: Platform, config: ServerConfig, events: seq<Event>, i: nat, j: nat, a: nat, b: nat)
    requires SameModelLater(p, config, events, i, j, a, b)
    ensures var name := SentAt(p, config, events, i)[a].model;
      var before, after := Run(p, config, events[..i]).registry, Run(p, config, events[..j]).registry;
      && name in before.tracked && name in after.tracked
      && before.HistoryOf(name).pushed != [] && before.HistoryOf(name).pushed <= after.HistoryOf(name).pushed
      && before.HistoryOf(name).capacity == after.HistoryOf(name).capacity >= 4
  {
    SentIsSound(p, config, events, i, a);
    SentIsSound(p, config, events, j, b);
    assert events[..j][..i] == events[..i];
    HistoryGrowsWithinEpoch(p, config, events[..j], i, SentAt(p, config, events, i)[a].model);
  }

  /** Selection never goes backwards: across any pushes, evictions and publishes of an epoch, a later publish
      whose target has not moved back selects a sample pushed no earlier. */
  lemma SelectionNeverGoesBack(p: Platform, config: ServerConfig, events: seq<Event>, i: nat, j: nat, a: nat, b: nat)
    requires SameModelLater(p, config, events, i, j, a, b) && CapturesInOrder(events)
    requires TargetNotBefore(SentAt(p, config, events, i)[a].target, SentAt(p, config, events, j)[b].target)
    ensures SentAt(p, config, events, i)[a].number <= SentAt(p, config, events, j)[b].number
  {
    var x, y := SentAt(p, config, events, i)[a], SentAt(p, config, events, j)[b];
    SentIsSound(p, config, events, i, a);
    SentIsSound(p, config, events, j, b);
    SameModelGrows(p, config, events, i, j, a, b);
    if config.delay.enabled {
      OrderedPrefix(events, j);
      HistoriesAreOrdered(p, config, events[..j], x.model);
      ChoiceNeverGoesBack(Run(p, config, events[..i]).registry.HistoryOf(x.model),
                          Run(p, config, events[..j]).registry.HistoryOf(x.model), x.target.value, y.target.value);
    }
  }

  // Time stamps.

  predicate NotEarlier(earlier: Snapshot, later: Snapshot) {
    later.source == SimulationTime ==> earlier.sampleTime <= later.sampleTime
  }

  /** Since the current epoch began, simulation time has never run backwards where it is what the wire shows. */
  ghost predicate EpochInOrder(events: seq<Event>) {
    forall i, j :: EpochStart(events) <= i <= j < |events| && events[i].Snap? && events[j].Snap? ==>
      NotEarlier(events[i].snapshot, events[j].snapshot)
  }

  /** Every step back of simulation time starts a new epoch. */
  ghost predicate FallsAreSeen(events: seq<Event>) {
    forall n :: 0 <= n < |events| && events[n].Snap? ==> FallIsSeen(LastSnapshot(events[..n]), events[n].snapshot)
  }

  predicate FallIsSeen(previous: Option<Snapshot>, next: Snapshot) {
    previous.Some? ==> NotEarlier(previous.value, next) || StartsEpoch(previous.value, next)
  }

  /** The last snapshot, which lies in the current epoch. */
  lemma {:induction false} LastSnapshotAt(events: seq<Event>) returns (k: nat)
    requires LastSnapshot(events).Some?
    ensures EpochStart(events) <= k < |events| && events[k].Snap? && events[k].snapshot == LastSnapshot(events).value
    ensures forall j :: k < j < |events| ==> events[j].Send?
  {
    var n := |events| - 1;
    if events[n].Snap? {
      k := n;
      EpochStartIsPast(events);
    } else {
      k := LastSnapshotAt(events[..n]);
    }
  }

  lemma NoSnapshotYet(events: seq<Event>, i: nat)
    requires i < |events| && events[i].Snap?
    ensures LastSnapshot(events).Some?
    decreases |events|
  {
    if !events[|events| - 1].Snap? {
      NoSnapshotYet(events[..|events| - 1], i);
    }
  }

  /** Simulation time is in order within every epoch exactly when every step back of it starts a new one, that is
      when it is by more than the tolerance. */
  lemma EpochsAreInOrderIff(events: seq<Event>)
    ensures FallsAreSeen(events) <==> forall j :: 0 <= j <= |events| ==> EpochInOrder(events[..j])
  {
    if FallsAreSeen(events) {
      forall j | 0 <= j <= |events|
        ensures EpochInOrder(events[..j])
      {
        EpochIsInOrder(events, j);
      }
    }
    if forall j :: 0 <= j <= |events| ==> EpochInOrder(events[..j]) {
      forall n | 0 <= n < |events| && events[n].Snap?
        ensures FallIsSeen(LastSnapshot(events[..n]), events[n].snapshot)
      {
        assert EpochInOrder(events[..n + 1]);
        OrderShowsFall(events, n);
      }
    }
  }

  lemma {:induction false} EpochIsInOrder(events: seq<Event>, j: nat)
    requires FallsAreSeen(events) && j <= |events|
    ensures EpochInOrder(events[..j])
  {
    if j > 0 {
      var n := j - 1;
      var front, upTo := events[..n], events[..j];
      EpochIsInOrder(events, n);
      assert upTo[..n] == front;
      if events[n].Snap? && !BreaksAt(upTo, n) {
        forall i | EpochStart(upTo) <= i < n && upTo[i].Snap?
          ensures NotEarlier(upTo[i].snapshot, events[n].snapshot)
        {
          assert front[i] == upTo[i];
          NoSnapshotYet(front, i);
          var k := LastSnapshotAt(front);
          assert NotEarlier(front[i].snapshot, front[k].snapshot);
        }
      }
    }
  }

  lemma OrderShowsFall(events: seq<Event>, n: nat)
    requires n < |events| && events[n].Snap? && EpochInOrder(events[..n + 1])
    ensures FallIsSeen(LastSnapshot(events[..n]), events[n].snapshot)
  {
    var front, upTo := events[..n], events[..n + 1];
    assert upTo[..n] == front;
    if LastSnapshot(front).Some? && !BreaksAt(upTo, n) {
      var k := LastSnapshotAt(front);
      assert upTo[k] == front[k];
    }
  }

  lemma SourceTimesAreOrdered(p: Platform, config: ServerConfig, events: seq<Event>, name: string, a: nat, b: nat)
    requires CapturesInOrder(events) && EpochInOrder(events)
    requires name in Run(p, config, events).registry.tracked
    requires a <= b < |Run(p, config, events).registry.HistoryOf(name).pushed|
    ensures var pushed := Run(p, config, events).registry.HistoryOf(name).pushed;
      pushed[a].sourceTime <= pushed[b].sourceTime
  {
    EverySampleIsExplained(p, config, events, name);
    EpochsNeverMix(p, config, events, name, a, b);
  }

  lemma LastSnapshotMoves(events: seq<Event>, i: nat)
    requires i <= |events| && EpochStart(events[..i]) == EpochStart(events) && LastSnapshot(events[..i]).Some?
    requires EpochInOrder(events)
    ensures var before, after := LastSnapshot(events[..i]), LastSnapshot(events);
      && after.Some? && after.value.source == before.value.source
      && (after.value.source == SimulationTime ==> before.value.sampleTime <= after.value.sampleTime)
  {
    var j := LastSnapshotAt(events[..i]);
    EpochIsPureSoFar(events, j);
    var k := LastSnapshotAt(events);
    assert events[j] == events[..i][j] && j <= k;
  }

  /** Wire time stamps never decrease within an epoch in which simulation time, if it is what the wire shows, is in
      order: `send_time` stamps for any delays and a send clock that does not run backwards, `sample_time` stamps
      whenever the target does not move back.  Earlier and later epochs do not matter. */
  lemma StampsNeverDecrease(p: Platform, config: ServerConfig, events: seq<Event>, i: nat, j: nat, a: nat, b: nat)
    requires SameModelLater(p, config, events, i, j, a, b) && EpochInOrder(events[..j])
    requires config.delay.policy == SendTime ==> events[i].time <= events[j].time
    requires config.delay.policy == SampleTime ==> CapturesInOrder(events)
    requires config.delay.policy == SampleTime ==>
      TargetNotBefore(SentAt(p, config, events, i)[a].target, SentAt(p, config, events, j)[b].target)
    ensures NotAfter(SentAt(p, config, events, i)[a].timestamp, SentAt(p, config, events, j)[b].timestamp)
  {
    var x, y := SentAt(p, config, events, i)[a], SentAt(p, config, events, j)[b];
    SentIsSound(p, config, events, i, a);
    SentIsSound(p, config, events, j, b);
    SameModelGrows(p, config, events, i, j, a, b);
    var s, t := Run(p, config, events[..i]), Run(p, config, events[..j]);
    if config.delay.policy == SendTime {
      SendSourceMoves(p, config, events, i, j, x.model);
      TimevalIsMonotone(SourceSeconds(s.clock.source, s.clock.lastSampleTime, events[i].time),
                        SourceSeconds(t.clock.source, t.clock.lastSampleTime, events[j].time));
    } else {
      SelectionNeverGoesBack(p, config, events, i, j, a, b);
      OrderedPrefix(events, j);
      SourceTimesAreOrdered(p, config, events[..j], x.model, x.number, y.number);
      TimevalIsMonotone(x.sample.sourceTime, y.sample.sourceTime);
    }
  }

  lemma SendSourceMoves(p: Platform, config: ServerConfig, events: seq<Event>, i: nat, j: nat, name: string)
    requires i <= j < |events| && events[i].Send? && events[j].Send? && events[i].time <= events[j].time
    requires EpochStart(events[..i]) == EpochStart(events[..j]) && EpochInOrder(events[..j])
    requires name in Run(p, config, events[..i]).registry.tracked
    requires Run(p, config, events[..i]).registry.HistoryOf(name).pushed != []
    ensures var s, t := Run(p, config, events[..i]), Run(p, config, events[..j]);
      SourceSeconds(s.clock.source, s.clock.lastSampleTime, events[i].time) <=
      SourceSeconds(t.clock.source, t.clock.lastSampleTime, events[j].time)
  {
    EverySampleIsExplained(p, config, events[..i], name);
    EpochIsPureSoFar(events[..i], Origins(p, config, events[..i], name)[0]);
    assert events[..j][..i] == events[..i];
    LastSnapshotMoves(events[..j], i);
    ClockFollowsSnapshots(p, config, events[..i]);
    ClockFollowsSnapshots(p, config, events[..j]);
  }

  // Without any order of simulation time.

  lemma {:induction false} NoMoreSnaps(events: seq<Event>, k: nat)
    requires k < |events| && forall j :: k < j < |events| ==> events[j].Send?
    ensures Snaps(events[..k + 1]) == Snaps(events)
  {
    if k == |events| - 1 {
      assert events[..k + 1] == events;
    } else {
      var front := events[..|events| - 1];
      assert front[..k + 1] == events[..k + 1];
      NoMoreSnaps(front, k);
    }
  }

  /** Between two states of one epoch the last simulation time falls by at most the tolerance per snapshot. */
  lemma LastSnapshotFallsLittle(events: seq<Event>, i: nat)
    requires i <= |events| && EpochStart(events[..i]) == EpochStart(events) && LastSnapshot(events[..i]).Some?
    ensures var before, after := LastSnapshot(events[..i]), LastSnapshot(events);
      && after.Some? && after.value.source == before.value.source
      && before.value.sampleTime - after.value.sampleTime <= 0.000000001 * (Snaps(events) - Snaps(events[..i])) as real
  {
    var before := events[..i];
    var j := LastSnapshotAt(before);
    assert events[j] == before[j];
    EpochIsPureSoFar(events, j);
    NoMoreSnaps(before, j);
    assert before[..j + 1] == events[..j + 1];
  }

  lemma {:induction false} SnapsGrow(events: seq<Event>, i: nat)
    requires i <= |events|
    ensures Snaps(events[..i]) <= Snaps(events)
  {
    if i == |events| {
      assert events[..i] == events;
    } else {
      assert events[..|events| - 1][..i] == events[..i];
      SnapsGrow(events[..|events| - 1], i);
    }
  }

  lemma SendSourceFallsLittle(p: Platform, config: ServerConfig, events: seq<Event>, i: nat, j: nat, name: string)
    requires i <= j < |events| && events[i].Send? && events[j].Send? && events[i].time <= events[j].time
    requires EpochStart(events[..i]) == EpochStart(events[..j])
    requires name in Run(p, config, events[..i]).registry.tracked
    requires Run(p, config, events[..i]).registry.HistoryOf(name).pushed != []
    ensures var s, t := Run(p, config, events[..i]), Run(p, config, events[..j]);
      && Snaps(events[..i]) <= Snaps(events[..j])
      && SourceSeconds(s.clock.source, s.clock.lastSampleTime, events[i].time) -
         SourceSeconds(t.clock.source, t.clock.lastSampleTime, events[j].time)
         <= 0.000000001 * (Snaps(events[..j]) - Snaps(events[..i])) as real
  {
    EverySampleIsExplained(p, config, events[..i], name);
    EpochIsPureSoFar(events[..i], Origins(p, config, events[..i], name)[0]);
    assert events[..j][..i] == events[..i];
    LastSnapshotFallsLittle(events[..j], i);
    SnapsGrow(events[..j], i);
    ClockFollowsSnapshots(p, config, events[..i]);
    ClockFollowsSnapshots(p, config, events[..j]);
  }

  /** Whatever simulation time does, a later `send_time` stamp of an epoch is earlier by at most one microsecond and
      the tolerance per snapshot in between. */
  lemma SendStampsFallLittle(p: Platform, config: ServerConfig, events: seq<Event>, i: nat, j: nat, a: nat, b: nat)
    requires SameModelLater(p, config, events, i, j, a, b)
    requires config.delay.policy == SendTime && events[i].time <= events[j].time
    ensures Snaps(events[..i]) <= Snaps(events[..j])
    ensures (TotalMicros(SentAt(p, config, events, i)[a].timestamp) -
             TotalMicros(SentAt(p, config, events, j)[b].timestamp)) as real
         <= 1.0 + 0.000000001 * (Snaps(events[..j]) - Snaps(events[..i])) as real * 1000000.0
  {
    var s, t := Run(p, config, events[..i]), Run(p, config, events[..j]);
    SentIsSound(p, config, events, i, a);
    SentIsSound(p, config, events, j, b);
    SendSourceFallsLittle(p, config, events, i, j, SentAt(p, config, events, i)[a].model);
    TimevalFallsLittle(SourceSeconds(s.clock.source, s.clock.lastSampleTime, events[i].time),
                       SourceSeconds(t.clock.source, t.clock.lastSampleTime, events[j].time),
                       0.000000001 * (Snaps(events[..j]) - Snaps(events[..i])) as real);
  }

  /** The microsecond is needed: half a nanosecond back stays in the epoch and takes the stamp back by one. */
  lemma StampMayStepBack(models: seq<ModelPose>)
    ensures var first, second := Snapshot(0.0000005, 0.0, SimulationTime, models),
                                 Snapshot(0.0000004995, 0.0, SimulationTime, models);
      && EpochStart([Snap(first), Snap(second)]) == EpochStart([Snap(first)])
      && !EpochInOrder([Snap(first), Snap(second)])
      && SecondsToTimeval(first.sampleTime) == Timeval(0, 1) && SecondsToTimeval(second.sampleTime) == Timeval(0, 0)
  {
    var first, second := Snapshot(0.0000005, 0.0, SimulationTime, models),
                         Snapshot(0.0000004995, 0.0, SimulationTime, models);
    var events := [Snap(first), Snap(second)];
    assert events[..1] == [Snap(first)] && events[..1][..0] == [];
    assert !StartsEpoch(first, second) && LastSnapshot(events[..1]) == Some(first);
    assert events[0].Snap? && events[1].Snap? && !NotEarlier(events[0].snapshot, events[1].snapshot);
  }
}
