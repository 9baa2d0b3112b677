/** Registration and publication over whole runs: who owns a tracker name, and who gets a report. */
module Registrations {
  import opened MeasurementDelays
  import opened ServerConfigs
  import Motion
  import opened TrackerStates
  import opened ServerRuns
  import KeyOrder

  // Registrations only grow.

  ghost predicate Keeps(r: Registry, t: Registry) {
    && (forall n :: n in r.trackerNames ==> n in t.trackerNames && t.trackerNames[n] == r.trackerNames[n])
    && (forall m :: m in r.tracked ==> m in t.tracked && SameIdentity(r.tracked[m], t.tracked[m]))
  }

  lemma KeepsIsTransitive(r: Registry, t: Registry, u: Registry)
    requires Keeps(r, t) && Keeps(t, u)
    ensures Keeps(r, u)
  {
    forall m | m in r.tracked
      ensures m in u.tracked && SameIdentity(r.tracked[m], u.tracked[m])
    {
      assert SameIdentity(r.tracked[m], t.tracked[m]);
    }
  }

  lemma SameKeeps(r: Registry, t: Registry)
    requires SameRegistrations(r, t)
    ensures Keeps(r, t)
  {}

  lemma {:induction false} ScanKeeps(config: ServerConfig, r: Registry, models: seq<ModelPose>)
    ensures Keeps(r, ScanModels(config, r, models))
  {
    if models != [] {
      var front := models[..|models| - 1];
      ScanKeeps(config, r, front);
      EnsureKeeps(config, ScanModels(config, r, front), models[|models| - 1].name);
      KeepsIsTransitive(r, ScanModels(config, r, front), ScanModels(config, r, models));
    }
  }

  lemma EnsureKeeps(config: ServerConfig, r: Registry, model: string)
    ensures Keeps(r, ScanModel(config, r, model))
  {}

  lemma {:induction false} UpdatesKeepRegistrations(f: Motion.MotionFunctions, config: ServerConfig, r: Registry,
                                                    models: seq<ModelPose>, snapshot: Snapshot)
    requires r.Listed()
    ensures var t := UpdateModels(f, config, r, models, snapshot);
      SameRegistrations(r, t) && t.Listed()
  {
    if models != [] {
      var front, last := models[..|models| - 1], models[|models| - 1];
      UpdatesKeepRegistrations(f, config, r, front, snapshot);
      var t := UpdateModels(f, config, r, front, snapshot);
      if last.name in t.tracked {
        UpdateChangesOne(f, config, t, last, snapshot);
      }
      SameIsTransitive(r, t, UpdateModels(f, config, r, models, snapshot));
    }
  }

  lemma SameIsTransitive(r: Registry, t: Registry, u: Registry)
    requires SameRegistrations(r, t) && SameRegistrations(t, u)
    ensures SameRegistrations(r, u)
  {
    forall m | m in r.tracked && m in u.tracked
      ensures SameIdentity(r.tracked[m], u.tracked[m])
    {
      assert SameIdentity(r.tracked[m], t.tracked[m]);
    }
  }

  lemma EnteredKeepsRegistrations(r: Registry, clock: Clock, snapshot: Snapshot)
    requires r.Listed()
    ensures SameRegistrations(r, Entered(r, clock, snapshot)) && Entered(r, clock, snapshot).Listed()
  {
    ResetKeepsRegistrations(r);
    if SourceChanged(clock, snapshot) && RolledBack(clock, snapshot) {
      ResetKeepsRegistrations(ResetMeasurement(r));
      SameIsTransitive(r, ResetMeasurement(r), Entered(r, clock, snapshot));
    }
  }

  lemma PosesKeepRegistrations(f: Motion.MotionFunctions, config: ServerConfig, r: Registry, snapshot: Snapshot)
    requires r.Listed()
    ensures SameRegistrations(r, UpdateModels(f, config, ClearPoses(r), snapshot.models, snapshot))
  {
    var cleared := ClearPoses(r);
    assert SameRegistrations(r, cleared) && cleared.Listed() by {
      ClearPosesIs(r);
    }
    UpdatesKeepRegistrations(f, config, cleared, snapshot.models, snapshot);
    SameIsTransitive(r, cleared, UpdateModels(f, config, cleared, snapshot.models, snapshot));
  }

  lemma ProcessKeeps(p: Platform, config: ServerConfig, s: ServerState, snapshot: Snapshot)
    requires RegistryInv(s.registry)
    ensures Keeps(s.registry, Process(p, config, s, snapshot).registry)
    ensures SameRegistrations(Prepared(config, s, snapshot), Process(p, config, s, snapshot).registry)
  {
    var entered, prepared := Entered(s.registry, s.clock, snapshot), Prepared(config, s, snapshot);
    EnteredKeepsRegistrations(s.registry, s.clock, snapshot);
    ScanKeeps(config, entered, snapshot.models);
    PreparedKeepsInv(config, s, snapshot);
    PosesKeepRegistrations(p.motion, config, prepared, snapshot);
    KeepsThrough(s.registry, entered, prepared, Process(p, config, s, snapshot).registry);
  }

  lemma KeepsThrough(r: Registry, t: Registry, u: Registry, v: Registry)
    requires SameRegistrations(r, t) && (u == t || Keeps(t, u)) && SameRegistrations(u, v)
    ensures Keeps(r, v)
  {
    SameKeeps(r, t);
    SameKeeps(u, v);
    if u != t {
      KeepsIsTransitive(r, t, u);
    }
    KeepsIsTransitive(r, u, v);
  }

  /** Names once given are never taken back, whatever follows: rollbacks and source changes included. */
  lemma {:induction false} RegistrationsOnlyGrow(p: Platform, config: ServerConfig, events: seq<Event>, n: nat)
    requires n <= |events|
    ensures Keeps(Run(p, config, events[..n]).registry, Run(p, config, events).registry)
    decreases |events| - n
  {
    if n == |events| {
      assert events[..n] == events;
    } else {
      EveryRegistryIsConsistent(p, config, events[..n]);
      assert events[..n + 1][..n] == events[..n];
      if events[n].Snap? {
        ProcessKeeps(p, config, Run(p, config, events[..n]), events[n].snapshot);
      }
      RegistrationsOnlyGrow(p, config, events, n + 1);
      KeepsIsTransitive(Run(p, config, events[..n]).registry, Run(p, config, events[..n + 1]).registry,
                        Run(p, config, events).registry);
    }
  }

  // What registration fixed.

  /** A model is served under the name, with the extrinsic and with the history capacity the configuration
      gives. */
  ghost predicate Configured(config: ServerConfig, model: string, m: TrackedModel, capacity: nat) {
    && m.modelName == model
    && m.trackerName == TrackerName(config, model) != ""
    && m.bodyToTracker == BodyToTracker(config, m.trackerName)
    && capacity == HistoryCapacity(config.delay, m.trackerName, config.publishRateHz)
  }

  lemma {:induction false} ScanConfigures(config: ServerConfig, r: Registry, models: seq<ModelPose>, name: string)
    requires RegistryInv(r) && name in ScanModels(config, r, models).tracked && name !in r.tracked
    ensures var t := ScanModels(config, r, models);
      name in t.histories && Configured(config, name, t.tracked[name], t.histories[name].capacity)
  {
    var front, model := models[..|models| - 1], models[|models| - 1].name;
    ScanKeepsInv(config, r, front);
    var t := ScanModels(config, r, front);
    EnsureKeeps(config, t, model);
    if name in t.tracked {
      ScanConfigures(config, r, front, name);
    } else {
      CapacityIsAtLeastFour(config, TrackerName(config, name));
    }
  }

  lemma {:induction false} ScanKeepsHistories(config: ServerConfig, r: Registry, models: seq<ModelPose>, name: string)
    requires RegistryInv(r) && name in r.tracked
    ensures var t := ScanModels(config, r, models);
      && name in t.tracked && name in t.histories
      && t.tracked[name] == r.tracked[name] && t.histories[name] == r.histories[name]
  {
    if models != [] {
      ScanKeepsHistories(config, r, models[..|models| - 1], name);
    }
  }

  lemma {:induction false} UpdatesKeepCapacity(f: Motion.MotionFunctions, config: ServerConfig, r: Registry,
                                               models: seq<ModelPose>, snapshot: Snapshot, name: string)
    requires RegistryInv(r) && name in r.tracked
    ensures var t := UpdateModels(f, config, r, models, snapshot);
      name in t.histories && t.histories[name].capacity == r.histories[name].capacity
  {
    if models != [] {
      var front, last := models[..|models| - 1], models[|models| - 1];
      UpdatesKeepCapacity(f, config, r, front, snapshot, name);
      UpdatesKeepInv(f, config, r, front, snapshot);
      var t := UpdateModels(f, config, r, front, snapshot);
      if last.name in t.tracked {
        UpdateChangesOne(f, config, t, last, snapshot);
      }
    }
  }

  lemma ResetKeepsCapacity(r: Registry, name: string)
    requires RegistryInv(r) && name in r.tracked
    ensures var t := ResetMeasurement(r);
      name in t.histories && t.histories[name].capacity == r.histories[name].capacity
  {
    ResetMeasurementIs(r);
  }

  lemma EnteredKeepsCapacity(r: Registry, clock: Clock, snapshot: Snapshot, name: string)
    requires RegistryInv(r) && name in r.tracked
    ensures var t := Entered(r, clock, snapshot);
      name in t.histories && t.histories[name].capacity == r.histories[name].capacity
  {
    ResetKeepsCapacity(r, name);
    ResetKeepsInv(r);
    ResetKeepsRegistrations(r);
    ResetKeepsCapacity(ResetMeasurement(r), name);
  }

  lemma ClearKeepsHistories(r: Registry)
    requires r.Listed()
    ensures ClearPoses(r).histories == r.histories
  {
    ClearPosesIs(r);
  }

  lemma ProcessConfigures(p: Platform, config: ServerConfig, s: ServerState, snapshot: Snapshot, name: string)
    requires RegistryInv(s.registry) && name in Process(p, config, s, snapshot).registry.tracked
    requires name in s.registry.tracked ==>
      Configured(config, name, s.registry.tracked[name], s.registry.HistoryOf(name).capacity)
    ensures var t := Process(p, config, s, snapshot).registry;
      Configured(config, name, t.tracked[name], t.HistoryOf(name).capacity)
  {
    var entered, prepared := Entered(s.registry, s.clock, snapshot), Prepared(config, s, snapshot);
    var t := Process(p, config, s, snapshot).registry;
    EnteredKeepsInv(s.registry, s.clock, snapshot);
    EnteredKeepsRegistrations(s.registry, s.clock, snapshot);
    PreparedKeepsInv(config, s, snapshot);
    ProcessKeeps(p, config, s, snapshot);
    if name in s.registry.tracked {
      EnteredKeepsCapacity(s.registry, s.clock, snapshot, name);
      ScanKeepsHistories(config, entered, snapshot.models, name);
    } else {
      ScanConfigures(config, entered, snapshot.models, name);
    }
    ClearKeepsInv(prepared);
    ClearKeepsHistories(prepared);
    UpdatesKeepCapacity(p.motion, config, ClearPoses(prepared), snapshot.models, snapshot, name);
    if name in s.registry.tracked {
      SameStaysConfigured(config, name, s.registry.tracked[name], prepared.tracked[name], t.HistoryOf(name).capacity);
    }
    SameStaysConfigured(config, name, prepared.tracked[name], t.tracked[name], t.HistoryOf(name).capacity);
  }

  lemma SameStaysConfigured(config: ServerConfig, name: string, a: TrackedModel, b: TrackedModel, capacity: nat)
    requires Configured(config, name, a, capacity) && SameIdentity(a, b)
    ensures Configured(config, name, b, capacity)
  {}

  /** In every reachable state, whatever was reset in between, each tracked model is served as the
      configuration says, with the history capacity it gives. */
  lemma {:induction false} EveryModelIsConfigured(p: Platform, config: ServerConfig, events: seq<Event>, name: string)
    requires name in Run(p, config, events).registry.tracked
    ensures var r := Run(p, config, events).registry;
      Configured(config, name, r.tracked[name], r.HistoryOf(name).capacity)
  {
    var front := events[..|events| - 1];
    EveryRegistryIsConsistent(p, config, front);
    if name in Run(p, config, front).registry.tracked {
      EveryModelIsConfigured(p, config, front, name);
    }
    if events[|events| - 1].Snap? {
      ProcessConfigures(p, config, Run(p, config, front), events[|events| - 1].snapshot, name);
    }
  }

  lemma CapacityIsConfigured(p: Platform, config: ServerConfig, events: seq<Event>, name: string)
    requires name in Run(p, config, events).registry.tracked
    ensures var r := Run(p, config, events).registry;
      r.HistoryOf(name).capacity ==
      HistoryCapacity(config.delay, r.tracked[name].trackerName, config.publishRateHz)
  {
    EveryModelIsConfigured(p, config, events, name);
  }

  lemma ExtrinsicIsConfigured(p: Platform, config: ServerConfig, events: seq<Event>, name: string)
    requires name in Run(p, config, events).registry.tracked
    ensures Run(p, config, events).registry.tracked[name].bodyToTracker ==
            BodyToTracker(config, TrackerName(config, name))
  {
    EveryModelIsConfigured(p, config, events, name);
  }

  /** First come, first served: once a model owns a tracker name, no other model is ever registered under it. */
  lemma FirstComeOwnership(p: Platform, config: ServerConfig, events: seq<Event>, n: nat, tracker: string,
                           rival: string)
    requires n <= |events| && tracker in Run(p, config, events[..n]).registry.trackerNames
    requires TrackerName(config, rival) == tracker
    ensures var r := Run(p, config, events).registry;
      && tracker in r.trackerNames
      && r.trackerNames[tracker] == Run(p, config, events[..n]).registry.trackerNames[tracker]
      && (rival in r.tracked <==> rival == r.trackerNames[tracker])
  {
    RegistrationsOnlyGrow(p, config, events, n);
    EveryRegistryIsConsistent(p, config, events);
    if rival in Run(p, config, events).registry.tracked {
      EveryModelIsConfigured(p, config, events, rival);
    }
  }

  // A scan serves every name in the snapshot.

  ghost predicate Named(config: ServerConfig, models: seq<ModelPose>, tracker: string) {
    exists i :: 0 <= i < |models| && TrackerName(config, models[i].name) == tracker
  }

  ghost predicate NamedAsConfigured(config: ServerConfig, r: Registry) {
    forall m :: m in r.tracked ==> r.tracked[m].trackerName == TrackerName(config, m)
  }

  lemma {:induction false} ScanKeepsNaming(config: ServerConfig, r: Registry, models: seq<ModelPose>)
    requires NamedAsConfigured(config, r)
    ensures NamedAsConfigured(config, ScanModels(config, r, models))
  {
    if models != [] {
      ScanKeepsNaming(config, r, models[..|models| - 1]);
    }
  }

  lemma EnsureServes(config: ServerConfig, r: Registry, model: string, tracker: string)
    requires RegistryInv(r) && NamedAsConfigured(config, r) && tracker != ""
    ensures tracker in ScanModel(config, r, model).trackerNames <==>
            tracker in r.trackerNames || TrackerName(config, model) == tracker
  {}

  lemma {:induction false} ScanServes(config: ServerConfig, r: Registry, models: seq<ModelPose>, tracker: string)
    requires RegistryInv(r) && NamedAsConfigured(config, r) && tracker != ""
    ensures tracker in ScanModels(config, r, models).trackerNames <==>
            tracker in r.trackerNames || Named(config, models, tracker)
  {
    if models != [] {
      var last := |models| - 1;
      var front := models[..last];
      ScanServes(config, r, front, tracker);
      ScanKeepsInv(config, r, front);
      ScanKeepsNaming(config, r, front);
      EnsureServes(config, ScanModels(config, r, front), models[last].name, tracker);
      NamedByLast(config, models, tracker);
    }
  }

  lemma NamedByLast(config: ServerConfig, models: seq<ModelPose>, tracker: string)
    requires models != []
    ensures Named(config, models, tracker) <==>
      Named(config, models[..|models| - 1], tracker) || TrackerName(config, models[|models| - 1].name) == tracker
  {
    var front := models[..|models| - 1];
    if Named(config, front, tracker) {
      var i :| 0 <= i < |front| && TrackerName(config, front[i].name) == tracker;
      assert TrackerName(config, models[i].name) == tracker;
    }
    if Named(config, models, tracker) && TrackerName(config, models[|models| - 1].name) != tracker {
      var i :| 0 <= i < |models| && TrackerName(config, models[i].name) == tracker;
      assert front[i] == models[i];
    }
  }

  // When a scan is due.

  /** There was no scan yet, or the interval has passed since the last one.  A last scan at time zero counts as none. */
  predicate ScanDue(intervalS: real, scans: seq<real>, captureWallTime: real) {
    || scans == []
    || scans[|scans| - 1] == 0.0
    || captureWallTime - scans[|scans| - 1] >= intervalS
  }

  /** The capture times of the snapshots of a run that were scanned. */
  function ScanTimes(intervalS: real, events: seq<Event>): seq<real> {
    if events == [] then []
    else
      var scans, last := ScanTimes(intervalS, events[..|events| - 1]), events[|events| - 1];
      if last.Snap? && ScanDue(intervalS, scans, last.snapshot.captureWallTime)
      then scans + [last.snapshot.captureWallTime]
      else scans
  }

  /** The server remembers its last scan and nothing else of them. */
  lemma {:induction false} LastScanIs(p: Platform, config: ServerConfig, events: seq<Event>)
    ensures var scans := ScanTimes(config.scanIntervalS, events);
      Run(p, config, events).clock.lastScanWallTime == if scans == [] then 0.0 else scans[|scans| - 1]
  {
    if events != [] {
      LastScanIs(p, config, events[..|events| - 1]);
    }
  }

  /** Scans are an interval apart, except after one at time zero. */
  lemma {:induction false} ScansAreSpaced(intervalS: real, events: seq<Event>, k: nat)
    requires k + 1 < |ScanTimes(intervalS, events)|
    ensures var scans := ScanTimes(intervalS, events);
      scans[k] == 0.0 || scans[k + 1] - scans[k] >= intervalS
  {
    var front := ScanTimes(intervalS, events[..|events| - 1]);
    if k + 1 < |front| {
      ScansAreSpaced(intervalS, events[..|events| - 1], k);
    }
  }

  /** A snapshot that triggers a scan leaves a tracker exactly for the names served before and the
      names its own models ask for; any other snapshot leaves the trackers alone. */
  lemma TrackersAfterSnapshot(p: Platform, config: ServerConfig, events: seq<Event>, snapshot: Snapshot,
                              tracker: string)
    requires tracker != ""
    ensures var s := Run(p, config, events);
      tracker in Process(p, config, s, snapshot).registry.trackerNames <==>
        || tracker in s.registry.trackerNames
        || (ScanDue(config.scanIntervalS, ScanTimes(config.scanIntervalS, events), snapshot.captureWallTime) &&
            Named(config, snapshot.models, tracker))
  {
    var s := Run(p, config, events);
    EveryRegistryIsConsistent(p, config, events);
    ProcessKeeps(p, config, s, snapshot);
    EnteredKeepsInv(s.registry, s.clock, snapshot);
    EnteredKeepsRegistrations(s.registry, s.clock, snapshot);
    EnteredIsNamed(p, config, events, snapshot);
    ScanServes(config, Entered(s.registry, s.clock, snapshot), snapshot.models, tracker);
    LastScanIs(p, config, events);
  }

  /** The first model of a list that asks for a tracker. */
  ghost predicate AsksFirst(config: ServerConfig, models: seq<ModelPose>, tracker: string, i: nat) {
    && i < |models| && TrackerName(config, models[i].name) == tracker
    && forall j :: 0 <= j < i ==> TrackerName(config, models[j].name) != tracker
  }

  ghost predicate OwnedByFirst(config: ServerConfig, models: seq<ModelPose>, tracker: string, owner: string) {
    exists i: nat :: AsksFirst(config, models, tracker, i) && owner == models[i].name
  }

  lemma ScanGives(config: ServerConfig, r: Registry, model: string, tracker: string)
    ensures var t := ScanModel(config, r, model);
      if tracker in r.trackerNames then tracker in t.trackerNames && t.trackerNames[tracker] == r.trackerNames[tracker]
      else tracker in t.trackerNames ==> t.trackerNames[tracker] == model && TrackerName(config, model) == tracker
  {}

  lemma StillFirst(config: ServerConfig, models: seq<ModelPose>, tracker: string, owner: string)
    requires models != [] && OwnedByFirst(config, models[..|models| - 1], tracker, owner)
    ensures OwnedByFirst(config, models, tracker, owner)
  {
    var front := models[..|models| - 1];
    var i: nat :| AsksFirst(config, front, tracker, i) && owner == front[i].name;
    assert AsksFirst(config, models, tracker, i);
  }

  lemma NowFirst(config: ServerConfig, models: seq<ModelPose>, tracker: string)
    requires models != [] && TrackerName(config, models[|models| - 1].name) == tracker
    requires !Named(config, models[..|models| - 1], tracker)
    ensures OwnedByFirst(config, models, tracker, models[|models| - 1].name)
  {
    var front := models[..|models| - 1];
    assert forall j :: 0 <= j < |front| ==> front[j] == models[j];
    assert AsksFirst(config, models, tracker, |models| - 1);
  }

  lemma {:induction false} ScanGivesToFirst(config: ServerConfig, r: Registry, models: seq<ModelPose>, tracker: string)
    requires RegistryInv(r) && NamedAsConfigured(config, r) && tracker != "" && tracker !in r.trackerNames
    ensures var t := ScanModels(config, r, models);
      tracker in t.trackerNames ==> OwnedByFirst(config, models, tracker, t.trackerNames[tracker])
  {
    if models != [] {
      var front, model := models[..|models| - 1], models[|models| - 1].name;
      var t := ScanModels(config, r, front);
      ScanGivesToFirst(config, r, front, tracker);
      ScanServes(config, r, front, tracker);
      ScanGives(config, t, model, tracker);
      if tracker in t.trackerNames {
        StillFirst(config, models, tracker, t.trackerNames[tracker]);
      } else if TrackerName(config, model) == tracker {
        NowFirst(config, models, tracker);
      }
    }
  }

  lemma EnteredIsNamed(p: Platform, config: ServerConfig, events: seq<Event>, snapshot: Snapshot)
    ensures var s := Run(p, config, events);
      NamedAsConfigured(config, Entered(s.registry, s.clock, snapshot))
  {
    var s := Run(p, config, events);
    EveryRegistryIsConsistent(p, config, events);
    EnteredKeepsRegistrations(s.registry, s.clock, snapshot);
    var entered := Entered(s.registry, s.clock, snapshot);
    forall m | m in entered.tracked
      ensures entered.tracked[m].trackerName == TrackerName(config, m)
    {
      EveryModelIsConfigured(p, config, events, m);
      assert SameIdentity(s.registry.tracked[m], entered.tracked[m]);
    }
  }

  /** A tracker that a snapshot brings about belongs to the first of its models that asks for it. */
  lemma NewTrackerGoesToFirst(p: Platform, config: ServerConfig, events: seq<Event>, snapshot: Snapshot,
                              tracker: string)
    requires tracker != "" && tracker !in Run(p, config, events).registry.trackerNames
    requires tracker in Process(p, config, Run(p, config, events), snapshot).registry.trackerNames
    ensures OwnedByFirst(config, snapshot.models, tracker,
                         Process(p, config, Run(p, config, events), snapshot).registry.trackerNames[tracker])
  {
    var s := Run(p, config, events);
    EveryRegistryIsConsistent(p, config, events);
    ProcessKeeps(p, config, s, snapshot);
    EnteredKeepsInv(s.registry, s.clock, snapshot);
    EnteredKeepsRegistrations(s.registry, s.clock, snapshot);
    EnteredIsNamed(p, config, events, snapshot);
    ScanGivesToFirst(config, Entered(s.registry, s.clock, snapshot), snapshot.models, tracker);
  }

  // Publication.

  ghost predicate InSnapshot(models: seq<ModelPose>, name: string) {
    exists i :: 0 <= i < |models| && models[i].name == name
  }

  /** The current pose is that of the newest sample, and both are as old as the snapshot. */
  ghost predicate ShowsLast(r: Registry, name: string, snapshot: Snapshot)
    requires name in r.tracked
  {
    var pushed := r.HistoryOf(name).pushed;
    && pushed != []
    && r.tracked[name].latestPose == pushed[|pushed| - 1].pose
    && r.tracked[name].lastWallTime == pushed[|pushed| - 1].wallTime == snapshot.captureWallTime
  }

  lemma {:induction false} UpdatesSetPoses(f: Motion.MotionFunctions, config: ServerConfig, r: Registry,
                                           models: seq<ModelPose>, snapshot: Snapshot, name: string)
    requires r.Listed() && name in r.tracked
    ensures var t := UpdateModels(f, config, r, models, snapshot);
      && name in t.tracked
      && (t.tracked[name].havePose <==> r.tracked[name].havePose || InSnapshot(models, name))
  {
    UpdatesKeepRegistrations(f, config, r, models, snapshot);
    if models != [] {
      var last := |models| - 1;
      var front := models[..last];
      UpdatesSetPoses(f, config, r, front, snapshot, name);
      UpdatesKeepRegistrations(f, config, r, front, snapshot);
      var t := UpdateModels(f, config, r, front, snapshot);
      if models[last].name in t.tracked {
        UpdateChangesOne(f, config, t, models[last], snapshot);
      }
      InSnapshotByLast(models, name);
    }
  }

  lemma UpdateShowsLast(f: Motion.MotionFunctions, config: ServerConfig, r: Registry, sample: ModelPose,
                        snapshot: Snapshot)
    requires sample.name in r.tracked
    ensures var t := UpdateModel(f, config, r, sample, snapshot);
      sample.name in t.tracked && ShowsLast(t, sample.name, snapshot)
  {}

  lemma OtherShowsLast(f: Motion.MotionFunctions, config: ServerConfig, r: Registry, sample: ModelPose,
                       snapshot: Snapshot, name: string)
    requires r.Listed() && name in r.tracked && sample.name != name && ShowsLast(r, name, snapshot)
    ensures var t := UpdateModel(f, config, r, sample, snapshot);
      name in t.tracked && ShowsLast(t, name, snapshot)
  {
    if sample.name in r.tracked {
      UpdateChangesOne(f, config, r, sample, snapshot);
    }
  }

  lemma {:induction false} UpdatesShowLast(f: Motion.MotionFunctions, config: ServerConfig, r: Registry,
                                           models: seq<ModelPose>, snapshot: Snapshot, name: string)
    requires r.Listed() && name in r.tracked && InSnapshot(models, name)
    ensures var t := UpdateModels(f, config, r, models, snapshot);
      name in t.tracked && ShowsLast(t, name, snapshot)
  {
    var last := |models| - 1;
    var front := models[..last];
    UpdatesKeepRegistrations(f, config, r, front, snapshot);
    var t := UpdateModels(f, config, r, front, snapshot);
    if models[last].name == name {
      UpdateShowsLast(f, config, t, models[last], snapshot);
    } else {
      InSnapshotByLast(models, name);
      UpdatesShowLast(f, config, r, front, snapshot, name);
      OtherShowsLast(f, config, t, models[last], snapshot, name);
    }
  }

  lemma InSnapshotByLast(models: seq<ModelPose>, name: string)
    requires models != []
    ensures InSnapshot(models, name) <==>
      InSnapshot(models[..|models| - 1], name) || models[|models| - 1].name == name
  {
    var front := models[..|models| - 1];
    if InSnapshot(front, name) {
      var i :| 0 <= i < |front| && front[i].name == name;
      assert models[i].name == name;
    }
    if InSnapshot(models, name) && models[|models| - 1].name != name {
      var i :| 0 <= i < |models| && models[i].name == name;
      assert front[i] == models[i];
    }
  }

  /** After a snapshot, exactly the tracked models it contains have a current pose, and each of those has
      a sample of that snapshot to publish. */
  lemma PosesAreCurrent(p: Platform, config: ServerConfig, events: seq<Event>, snapshot: Snapshot, name: string)
    requires name in Process(p, config, Run(p, config, events), snapshot).registry.tracked
    ensures var r := Process(p, config, Run(p, config, events), snapshot).registry;
      && (r.tracked[name].havePose <==> InSnapshot(snapshot.models, name))
      && (r.tracked[name].havePose ==> ShowsLast(r, name, snapshot))
  {
    var s := Run(p, config, events);
    EveryRegistryIsConsistent(p, config, events);
    PreparedKeepsInv(config, s, snapshot);
    ProcessKeeps(p, config, s, snapshot);
    ProcessKeepsInv(p, config, s, snapshot);
    var prepared := Prepared(config, s, snapshot);
    ClearPosesIs(prepared);
    UpdatesSetPoses(p.motion, config, ClearPoses(prepared), snapshot.models, snapshot, name);
    if InSnapshot(snapshot.models, name) {
      UpdatesShowLast(p.motion, config, ClearPoses(prepared), snapshot.models, snapshot, name);
    }
  }

  /** The models with a current pose, in publication order. */
  function WithPose(r: Registry, names: seq<string>): seq<string> {
    if names == [] then []
    else
      var last := names[|names| - 1];
      WithPose(r, names[..|names| - 1]) +
      (if last in r.tracked && r.tracked[last].havePose then [last] else [])
  }

  function ModelsOf(selections: seq<Selection>): seq<string> {
    seq(|selections|, i requires 0 <= i < |selections| => selections[i].model)
  }

  lemma {:induction false} PublishesWithPose(p: Platform, config: ServerConfig, r: Registry, clock: Clock,
                                             start: DelayState, names: seq<string>, send: real)
    requires RegistryInv(r)
    ensures ModelsOf(PublishModels(p, config, r, clock, start, names, send).selections) == WithPose(r, names)
  {
    if names != [] {
      PublishesWithPose(p, config, r, clock, start, names[..|names| - 1], send);
      var last := names[|names| - 1];
      if last in r.tracked {
        assert last in r.histories;
      }
    }
  }

  /** Every publish cycle reports exactly the models with a current pose, once each, in key order. */
  lemma PublishReportsEveryPose(p: Platform, config: ServerConfig, events: seq<Event>, send: real)
    ensures var s := Run(p, config, events);
      ModelsOf(Publish(p, config, s, send).selections) == WithPose(s.registry, s.registry.order)
  {
    EveryRegistryIsConsistent(p, config, events);
    var s := Run(p, config, events);
    PublishesWithPose(p, config, s.registry, s.clock, StartCycle(p.math, p.engine, s.delay, send), s.registry.order,
                      send);
  }

  // Key order.

  lemma {:induction false} ScanKeepsOrder(config: ServerConfig, r: Registry, models: seq<ModelPose>)
    requires RegistryInv(r) && KeyOrder.Ascending(r.order)
    ensures KeyOrder.Ascending(ScanModels(config, r, models).order)
  {
    if models != [] {
      var front := models[..|models| - 1];
      ScanKeepsOrder(config, r, front);
      ScanKeepsInv(config, r, front);
      var t, model := ScanModels(config, r, front), models[|models| - 1].name;
      if model !in t.tracked {
        KeyOrder.InsertKeepsAscending(t.order, model);
      }
    }
  }

  lemma {:induction false} OrderStaysAscending(p: Platform, config: ServerConfig, events: seq<Event>)
    ensures KeyOrder.Ascending(Run(p, config, events).registry.order)
  {
    if events != [] {
      var front, last := events[..|events| - 1], events[|events| - 1];
      OrderStaysAscending(p, config, front);
      EveryRegistryIsConsistent(p, config, front);
      if last.Snap? {
        var s := Run(p, config, front);
        ProcessKeeps(p, config, s, last.snapshot);
        EnteredKeepsInv(s.registry, s.clock, last.snapshot);
        EnteredKeepsRegistrations(s.registry, s.clock, last.snapshot);
        ScanKeepsOrder(config, Entered(s.registry, s.clock, last.snapshot), last.snapshot.models);
      }
    }
  }

  /** The publication order lists every tracked model exactly once, ascending. */
  lemma OrderIsTheKeys(p: Platform, config: ServerConfig, events: seq<Event>)
    ensures var r := Run(p, config, events).registry;
      && KeyOrder.Ascending(r.order)
      && (forall m :: m in r.order <==> m in r.tracked)
      && forall i, j :: 0 <= i < j < |r.order| ==> r.order[i] != r.order[j]
  {
    OrderStaysAscending(p, config, events);
    EveryRegistryIsConsistent(p, config, events);
    KeyOrder.AscendingIsDistinct(Run(p, config, events).registry.order);
  }
}
