/** Measurement epochs over whole runs: where every stored sample comes from. */
module Epochs {
  import opened Numerics
  import opened Geometry
  import opened SampleHistory
  import opened SelectionProperties
  import opened ServerConfigs
  import opened TrackerStates
  import opened ServerRuns
  import opened Registrations
  import Motion

  predicate Resets(clock: Clock, snapshot: Snapshot) {
    SourceChanged(clock, snapshot) || RolledBack(clock, snapshot)
  }

  // What one snapshot does to one history.

  /** `index`, once per occurrence of the model among the given ones. */
  function Marks(models: seq<ModelPose>, name: string, index: nat): seq<nat> {
    if models == [] then []
    else
      var last := |models| - 1;
      Marks(models[..last], name, index) + (if models[last].name == name then [index] else [])
  }

  lemma {:induction false} MarksAre(models: seq<ModelPose>, name: string, index: nat)
    ensures forall k :: 0 <= k < |Marks(models, name, index)| ==> Marks(models, name, index)[k] == index
  {
    if models != [] {
      MarksAre(models[..|models| - 1], name, index);
    }
  }

  /** `later` is `earlier` with one sample of the snapshot per mark appended. */
  ghost predicate Extends(earlier: seq<TrackerSample>, later: seq<TrackerSample>, marks: nat, snapshot: Snapshot) {
    && |later| == |earlier| + marks
    && earlier <= later
    && forall k :: |earlier| <= k < |later| ==> TakenFrom(later[k], snapshot)
  }

  lemma UpdateExtends(f: Motion.MotionFunctions, config: ServerConfig, r: Registry, sample: ModelPose,
                      snapshot: Snapshot, name: string, earlier: seq<TrackerSample>, marks: nat)
    requires RegistryInv(r) && name in r.tracked && Extends(earlier, r.histories[name].pushed, marks, snapshot)
    ensures var t := UpdateModel(f, config, r, sample, snapshot);
      && name in t.tracked && name in t.histories
      && t.histories[name].capacity == r.histories[name].capacity
      && Extends(earlier, t.histories[name].pushed, if sample.name == name then marks + 1 else marks, snapshot)
  {
    if sample.name in r.tracked {
      UpdateChangesOne(f, config, r, sample, snapshot);
    }
  }

  lemma {:induction false} UpdatesExtend(f: Motion.MotionFunctions, config: ServerConfig, r: Registry,
                                         models: seq<ModelPose>, snapshot: Snapshot, name: string)
    requires RegistryInv(r) && name in r.tracked
    ensures var t := UpdateModels(f, config, r, models, snapshot);
      && name in t.tracked && name in t.histories
      && t.histories[name].capacity == r.histories[name].capacity
      && Extends(r.histories[name].pushed, t.histories[name].pushed, |Marks(models, name, 0)|, snapshot)
  {
    if models != [] {
      var last := |models| - 1;
      UpdatesExtend(f, config, r, models[..last], snapshot, name);
      UpdatesKeepInv(f, config, r, models[..last], snapshot);
      UpdateExtends(f, config, UpdateModels(f, config, r, models[..last], snapshot), models[last], snapshot, name,
                    r.histories[name].pushed, |Marks(models[..last], name, 0)|);
    }
  }

  /** The samples after the first `n` show the model as the snapshot has it. */
  ghost predicate ShownFrom(f: Motion.MotionFunctions, extrinsic: Transform, name: string, pushed: seq<TrackerSample>,
                            n: nat, snapshot: Snapshot)
  {
    forall k :: n <= k < |pushed| ==> Shows(f, extrinsic, name, pushed[k], snapshot)
  }

  lemma UpdateShows(f: Motion.MotionFunctions, config: ServerConfig, r: Registry, i: nat, snapshot: Snapshot,
                    name: string, n: nat)
    requires RegistryInv(r) && name in r.tracked && i < |snapshot.models| && n <= |r.histories[name].pushed|
    requires ShownFrom(f, r.tracked[name].bodyToTracker, name, r.histories[name].pushed, n, snapshot)
    ensures var t := UpdateModel(f, config, r, snapshot.models[i], snapshot);
      && name in t.histories && n <= |t.histories[name].pushed|
      && ShownFrom(f, r.tracked[name].bodyToTracker, name, t.histories[name].pushed, n, snapshot)
  {
    if snapshot.models[i].name in r.tracked {
      UpdateChangesOne(f, config, r, snapshot.models[i], snapshot);
    }
  }

  lemma {:induction false} UpdatesShow(f: Motion.MotionFunctions, config: ServerConfig, r: Registry,
                                       models: seq<ModelPose>, snapshot: Snapshot, name: string)
    requires RegistryInv(r) && name in r.tracked && models <= snapshot.models
    ensures var t := UpdateModels(f, config, r, models, snapshot);
      && name in t.histories && |r.histories[name].pushed| <= |t.histories[name].pushed|
      && ShownFrom(f, r.tracked[name].bodyToTracker, name, t.histories[name].pushed, |r.histories[name].pushed|,
                   snapshot)
  {
    if models != [] {
      var last := |models| - 1;
      UpdatesShow(f, config, r, models[..last], snapshot, name);
      UpdatesKeepInv(f, config, r, models[..last], snapshot);
      UpdatesKeepRegistrations(f, config, r, models[..last], snapshot);
      var t := UpdateModels(f, config, r, models[..last], snapshot);
      assert SameIdentity(r.tracked[name], t.tracked[name]);
      UpdateShows(f, config, t, last, snapshot, name, |r.histories[name].pushed|);
    }
  }

  lemma ResetHistory(r: Registry, name: string)
    requires RegistryInv(r) && name in r.tracked
    ensures var t := ResetMeasurement(r);
      && name in t.histories && t.histories[name].pushed == []
      && t.histories[name].capacity == r.histories[name].capacity
  {
    ResetMeasurementIs(r);
  }

  lemma EnteredHistory(r: Registry, clock: Clock, snapshot: Snapshot, name: string)
    requires RegistryInv(r) && name in r.tracked
    ensures var t := Entered(r, clock, snapshot);
      && name in t.histories
      && t.histories[name].pushed == (if Resets(clock, snapshot) then [] else r.histories[name].pushed)
      && t.histories[name].capacity == r.histories[name].capacity
  {
    ResetHistory(r, name);
    ResetKeepsInv(r);
    ResetKeepsRegistrations(r);
    ResetHistory(ResetMeasurement(r), name);
  }

  lemma {:induction false} ScanHistory(config: ServerConfig, r: Registry, models: seq<ModelPose>, name: string)
    requires RegistryInv(r) && name in ScanModels(config, r, models).tracked
    ensures var t := ScanModels(config, r, models);
      && name in t.histories
      && t.histories[name].pushed == (if name in r.tracked then r.histories[name].pushed else [])
      && (name in r.tracked ==> t.histories[name].capacity == r.histories[name].capacity)
  {
    if models != [] {
      var front := models[..|models| - 1];
      ScanKeepsInv(config, r, front);
      var t := ScanModels(config, r, front);
      ScanKeeps(config, r, front);
      if name in t.tracked {
        ScanHistory(config, r, front, name);
      }
    }
  }

  /** What is kept of a model's history when a snapshot arrives. */
  function Kept(s: ServerState, snapshot: Snapshot, name: string): seq<TrackerSample> {
    if Resets(s.clock, snapshot) || name !in s.registry.tracked then [] else s.registry.HistoryOf(name).pushed
  }

  lemma PreparedHistory(config: ServerConfig, s: ServerState, snapshot: Snapshot, name: string)
    requires RegistryInv(s.registry) && name in Prepared(config, s, snapshot).tracked
    ensures var t := Prepared(config, s, snapshot);
      && name in t.histories && t.histories[name].pushed == Kept(s, snapshot, name)
      && (name in s.registry.tracked ==> t.histories[name].capacity == s.registry.HistoryOf(name).capacity)
  {
    EnteredKeepsInv(s.registry, s.clock, snapshot);
    EnteredKeepsRegistrations(s.registry, s.clock, snapshot);
    if name in s.registry.tracked {
      EnteredHistory(s.registry, s.clock, snapshot, name);
    }
    if ShouldScan(config, s.clock, snapshot.captureWallTime) {
      ScanHistory(config, Entered(s.registry, s.clock, snapshot), snapshot.models, name);
    }
  }

  lemma ProcessExtends(p: Platform, config: ServerConfig, s: ServerState, snapshot: Snapshot, name: string)
    requires RegistryInv(s.registry) && name in Process(p, config, s, snapshot).registry.tracked
    ensures var t := Process(p, config, s, snapshot).registry;
      && name in t.histories
      && Extends(Kept(s, snapshot, name), t.histories[name].pushed, |Marks(snapshot.models, name, 0)|, snapshot)
      && (name in s.registry.tracked ==> t.histories[name].capacity == s.registry.HistoryOf(name).capacity)
  {
    var prepared := Prepared(config, s, snapshot);
    PreparedKeepsInv(config, s, snapshot);
    ProcessKeeps(p, config, s, snapshot);
    PreparedHistory(config, s, snapshot, name);
    ClearKeepsHistories(prepared);
    ClearKeepsInv(prepared);
    UpdatesExtend(p.motion, config, ClearPoses(prepared), snapshot.models, snapshot, name);
  }

  lemma ProcessShows(p: Platform, config: ServerConfig, s: ServerState, snapshot: Snapshot, name: string)
    requires RegistryInv(s.registry) && name in Process(p, config, s, snapshot).registry.tracked
    ensures var t := Process(p, config, s, snapshot).registry;
      && name in t.histories
      && ShownFrom(p.motion, t.tracked[name].bodyToTracker, name, t.histories[name].pushed,
                   |Kept(s, snapshot, name)|, snapshot)
  {
    var prepared, t := Prepared(config, s, snapshot), Process(p, config, s, snapshot).registry;
    PreparedKeepsInv(config, s, snapshot);
    ProcessKeeps(p, config, s, snapshot);
    PreparedHistory(config, s, snapshot, name);
    ClearKeepsHistories(prepared);
    ClearKeepsInv(prepared);
    assert SameIdentity(prepared.tracked[name], ClearPoses(prepared).tracked[name]);
    assert SameIdentity(prepared.tracked[name], t.tracked[name]);
    UpdatesShow(p.motion, config, ClearPoses(prepared), snapshot.models, snapshot, name);
  }

  // Whole runs.

  function LastSnapshot(events: seq<Event>): Option<Snapshot> {
    if events == [] then None
    else if events[|events| - 1].Snap? then Some(events[|events| - 1].snapshot)
    else LastSnapshot(events[..|events| - 1])
  }

  lemma {:induction false} ClockFollowsSnapshots(p: Platform, config: ServerConfig, events: seq<Event>)
    ensures var clock, last := Run(p, config, events).clock, LastSnapshot(events);
      && (clock.haveSource <==> last.Some?) && (clock.haveSampleTime <==> last.Some?)
      && (last.Some? ==> clock.source == last.value.source && clock.lastSampleTime == last.value.sampleTime)
  {
    if events != [] {
      ClockFollowsSnapshots(p, config, events[..|events| - 1]);
    }
  }

  /** The clock source changed, or simulation time moved backwards by more than the tolerance. */
  predicate StartsEpoch(previous: Snapshot, next: Snapshot) {
    next.source != previous.source || next.sampleTime + 0.000000001 < previous.sampleTime
  }

  predicate BreaksAt(events: seq<Event>, i: nat)
    requires i < |events|
  {
    var previous := LastSnapshot(events[..i]);
    events[i].Snap? && previous.Some? && StartsEpoch(previous.value, events[i].snapshot)
  }

  /** The event that began the current epoch. */
  function EpochStart(events: seq<Event>): nat {
    if events == [] then 0
    else if BreaksAt(events, |events| - 1) then |events| - 1
    else EpochStart(events[..|events| - 1])
  }

  /** The event each pushed sample of a model was taken from. */
  function Origins(p: Platform, config: ServerConfig, events: seq<Event>, name: string): seq<nat> {
    if events == [] then []
    else
      var n := |events| - 1;
      var front := Origins(p, config, events[..n], name);
      if events[n].Send? then front
      else (if BreaksAt(events, n) then [] else front) +
           (if name in Run(p, config, events).registry.tracked then Marks(events[n].snapshot.models, name, n) else [])
  }

  lemma ResetsWhenEpochBreaks(p: Platform, config: ServerConfig, events: seq<Event>, n: nat)
    requires n < |events| && events[n].Snap?
    ensures Resets(Run(p, config, events[..n]).clock, events[n].snapshot) <==> BreaksAt(events, n)
  {
    ClockFollowsSnapshots(p, config, events[..n]);
  }

  ghost predicate Explained(f: Motion.MotionFunctions, extrinsic: Transform, name: string, events: seq<Event>,
                            pushed: seq<TrackerSample>, origins: seq<nat>)
  {
    && |pushed| == |origins|
    && (forall k :: 0 <= k < |origins| ==>
          && EpochStart(events) <= origins[k] < |events|
          && events[origins[k]].Snap?
          && TakenFrom(pushed[k], events[origins[k]].snapshot)
          && Shows(f, extrinsic, name, pushed[k], events[origins[k]].snapshot))
    && (forall j, k :: 0 <= j <= k < |origins| ==> origins[j] <= origins[k])
  }

  lemma {:induction false} EpochStartIsPast(events: seq<Event>)
    ensures EpochStart(events) <= |events|
    ensures events != [] ==> EpochStart(events) < |events|
  {
    if events != [] {
      EpochStartIsPast(events[..|events| - 1]);
    }
  }

  lemma MarkedTracks(p: Platform, config: ServerConfig, events: seq<Event>, name: string)
    requires events != [] && name !in Run(p, config, events).registry.tracked
    ensures name !in Run(p, config, events[..|events| - 1]).registry.tracked
  {
    RegistrationsOnlyGrow(p, config, events, |events| - 1);
  }

  /** Every sample a history has accumulated was taken, in order, from a snapshot of the current epoch that
      contained the model, and shows the model's pose there under the configured extrinsic. */
  lemma {:induction false} EverySampleIsExplained(p: Platform, config: ServerConfig, events: seq<Event>, name: string)
    ensures var r := Run(p, config, events).registry;
      if name in r.tracked
      then Explained(p.motion, BodyToTracker(config, TrackerName(config, name)), name, events, r.HistoryOf(name).pushed,
                     Origins(p, config, events, name))
      else Origins(p, config, events, name) == []
  {
    if events != [] {
      var n := |events| - 1;
      var front := events[..n];
      EverySampleIsExplained(p, config, front, name);
      EveryRegistryIsConsistent(p, config, front);
      EpochStartIsPast(front);
      var s := Run(p, config, front);
      if name !in Run(p, config, events).registry.tracked {
        MarkedTracks(p, config, events, name);
      } else if events[n].Snap? {
        var snapshot := events[n].snapshot;
        ProcessExtends(p, config, s, snapshot, name);
        ProcessShows(p, config, s, snapshot, name);
        ExtrinsicIsConfigured(p, config, events, name);
        ResetsWhenEpochBreaks(p, config, events, n);
        MarksAre(snapshot.models, name, n);
        MarksSameLength(snapshot.models, name, 0, n);
        ExplainedFurther(p.motion, BodyToTracker(config, TrackerName(config, name)), name, events,
                         Kept(s, snapshot, name), Run(p, config, events).registry.HistoryOf(name).pushed,
                         if BreaksAt(events, n) then [] else Origins(p, config, front, name),
                         Marks(snapshot.models, name, n));
      }
    }
  }

  lemma {:induction false} MarksSameLength(models: seq<ModelPose>, name: string, i: nat, j: nat)
    ensures |Marks(models, name, i)| == |Marks(models, name, j)|
  {
    if models != [] {
      MarksSameLength(models[..|models| - 1], name, i, j);
    }
  }

  lemma ExplainedFurther(f: Motion.MotionFunctions, extrinsic: Transform, name: string, events: seq<Event>,
                         kept: seq<TrackerSample>, pushed: seq<TrackerSample>, origins: seq<nat>, marks: seq<nat>)
    requires events != [] && events[|events| - 1].Snap?
    requires ShownFrom(f, extrinsic, name, pushed, |kept|, events[|events| - 1].snapshot)
    requires Extends(kept, pushed, |marks|, events[|events| - 1].snapshot)
    requires forall k :: 0 <= k < |marks| ==> marks[k] == |events| - 1
    requires if BreaksAt(events, |events| - 1) then kept == [] && origins == []
             else Explained(f, extrinsic, name, events[..|events| - 1], kept, origins)
    ensures Explained(f, extrinsic, name, events, pushed, origins + marks)
  {
    EpochStartIsPast(events);
    forall k | 0 <= k < |origins|
      ensures pushed[k] == kept[k]
    {}
  }

  // Purity.

  function Snaps(events: seq<Event>): nat {
    if events == [] then 0
    else Snaps(events[..|events| - 1]) + (if events[|events| - 1].Snap? then 1 else 0)
  }

  lemma {:induction false} EpochStartMono(events: seq<Event>, i: nat)
    requires i <= |events|
    ensures EpochStart(events[..i]) <= EpochStart(events)
  {
    if i == |events| {
      assert events[..i] == events;
    } else {
      var front := events[..|events| - 1];
      assert front[..i] == events[..i];
      EpochStartMono(front, i);
      EpochStartIsPast(front);
    }
  }

  lemma {:induction false} EpochIsPureSoFar(events: seq<Event>, i: nat)
    requires EpochStart(events) <= i < |events| && events[i].Snap?
    ensures var last := LastSnapshot(events);
      && last.Some? && events[i].snapshot.source == last.value.source
      && events[i].snapshot.sampleTime - last.value.sampleTime <=
         0.000000001 * (Snaps(events) - Snaps(events[..i + 1])) as real
  {
    var n := |events| - 1;
    var front := events[..n];
    if i == n {
      assert events[..i + 1] == events;
    } else {
      assert front[..i + 1] == events[..i + 1];
      EpochIsPureSoFar(front, i);
    }
  }

  /** Simulation time falls by at most the tolerance per snapshot processed from `a` to `b`. */
  ghost predicate FallsLittle(events: seq<Event>, a: nat, b: nat)
    requires a <= b < |events| && events[a].Snap? && events[b].Snap?
  {
    events[a].snapshot.sampleTime - events[b].snapshot.sampleTime <=
    0.000000001 * (Snaps(events[..b + 1]) - Snaps(events[..a + 1])) as real
  }

  lemma EpochFallsLittle(events: seq<Event>, a: nat, b: nat)
    requires EpochStart(events) <= a <= b < |events| && events[a].Snap? && events[b].Snap?
    ensures FallsLittle(events, a, b)
  {
    var upTo := events[..b + 1];
    EpochStartMono(events, b + 1);
    EpochIsPureSoFar(upTo, a);
    assert upTo[..a + 1] == events[..a + 1];
  }

  /** Clock domains and simulation epochs never mix: any two samples of one history were taken under one
      clock source, the current one, and simulation time fell between them by at most the tolerance per
      snapshot processed in between. */
  lemma EpochsNeverMix(p: Platform, config: ServerConfig, events: seq<Event>, name: string, a: nat, b: nat)
    requires name in Run(p, config, events).registry.tracked
    requires a <= b < |Run(p, config, events).registry.HistoryOf(name).pushed|
    ensures var origins, source := Origins(p, config, events, name), Run(p, config, events).clock.source;
      && |origins| == |Run(p, config, events).registry.HistoryOf(name).pushed|
      && EpochStart(events) <= origins[a] <= origins[b] < |events|
      && events[origins[a]].Snap? && events[origins[b]].Snap?
      && events[origins[a]].snapshot.source == events[origins[b]].snapshot.source == source
      && FallsLittle(events, origins[a], origins[b])
  {
    EverySampleIsExplained(p, config, events, name);
    var origins := Origins(p, config, events, name);
    ClockFollowsSnapshots(p, config, events);
    EpochIsPureSoFar(events, origins[a]);
    EpochIsPureSoFar(events, origins[b]);
    EpochFallsLittle(events, origins[a], origins[b]);
  }

  // Growth within an epoch.

  lemma {:induction false} HistoryGrowsWithinEpoch(p: Platform, config: ServerConfig, events: seq<Event>, i: nat,
                                                   name: string)
    requires i <= |events| && EpochStart(events[..i]) == EpochStart(events)
    requires name in Run(p, config, events[..i]).registry.tracked
    ensures var before, after := Run(p, config, events[..i]).registry, Run(p, config, events).registry;
      && name in after.tracked
      && before.HistoryOf(name).pushed <= after.HistoryOf(name).pushed
      && before.HistoryOf(name).capacity == after.HistoryOf(name).capacity
  {
    if i == |events| {
      assert events[..i] == events;
    } else {
      var n := |events| - 1;
      var front := events[..n];
      assert front[..i] == events[..i];
      EpochStartMono(front, i);
      EpochStartIsPast(front);
      EpochStartIsPast(events[..i]);
      HistoryGrowsWithinEpoch(p, config, front, i, name);
      EveryRegistryIsConsistent(p, config, front);
      RegistrationsOnlyGrow(p, config, events, n);
      if events[n].Snap? {
        ResetsWhenEpochBreaks(p, config, events, n);
        ProcessExtends(p, config, Run(p, config, front), events[n].snapshot, name);
      }
    }
  }

  // Order.

  /** Capture times never run backwards along a run. */
  ghost predicate CapturesInOrder(events: seq<Event>) {
    forall i, j :: 0 <= i <= j < |events| && events[i].Snap? && events[j].Snap? ==>
      events[i].snapshot.captureWallTime <= events[j].snapshot.captureWallTime
  }

  lemma HistoriesAreOrdered(p: Platform, config: ServerConfig, events: seq<Event>, name: string)
    requires CapturesInOrder(events) && name in Run(p, config, events).registry.tracked
    ensures Ordered(Run(p, config, events).registry.HistoryOf(name).pushed)
  {
    EverySampleIsExplained(p, config, events, name);
  }

  /** Gazebo model names are unique, so a snapshot holds each at most once. */
  ghost predicate NamesDistinct(models: seq<ModelPose>) {
    forall i, j :: 0 <= i < j < |models| ==> models[i].name != models[j].name
  }

  lemma {:induction false} DistinctMarks(models: seq<ModelPose>, name: string, index: nat)
    requires NamesDistinct(models)
    ensures |Marks(models, name, index)| <= 1
    ensures (forall i :: 0 <= i < |models| ==> models[i].name != name) ==> Marks(models, name, index) == []
  {
    if models != [] {
      DistinctMarks(models[..|models| - 1], name, index);
    }
  }

  ghost predicate Increasing(s: seq<nat>, bound: nat) {
    && (forall k :: 0 <= k < |s| ==> s[k] < bound)
    && forall j, k :: 0 <= j < k < |s| ==> s[j] < s[k]
  }

  lemma IncreaseAppended(front: seq<nat>, marks: seq<nat>, n: nat)
    requires Increasing(front, n)
    requires |marks| <= 1 && forall k :: 0 <= k < |marks| ==> marks[k] == n
    ensures Increasing(front + marks, n + 1)
  {}

  /** With distinct names the samples of one history come from distinct snapshots. */
  lemma {:induction false} OriginsIncrease(p: Platform, config: ServerConfig, events: seq<Event>, name: string)
    requires forall i :: 0 <= i < |events| && events[i].Snap? ==> NamesDistinct(events[i].snapshot.models)
    ensures Increasing(Origins(p, config, events, name), |events|)
  {
    if events != [] {
      var n := |events| - 1;
      OriginsIncrease(p, config, events[..n], name);
      var front := Origins(p, config, events[..n], name);
      if events[n].Snap? {
        MarksAre(events[n].snapshot.models, name, n);
        DistinctMarks(events[n].snapshot.models, name, n);
        var kept := if BreaksAt(events, n) then [] else front;
        var tracked := name in Run(p, config, events).registry.tracked;
        IncreaseAppended(kept, if tracked then Marks(events[n].snapshot.models, name, n) else [], n);
      }
    }
  }
}
