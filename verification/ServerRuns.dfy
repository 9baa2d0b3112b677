/** Runs of the tracker server: what every reachable state satisfies. */
module ServerRuns {
  import opened Geometry
  import opened SampleHistory
  import opened MeasurementDelays
  import opened ServerConfigs
  import opened Motion
  import opened TrackerStates
  import KeyOrder

  datatype Event = Snap(snapshot: Snapshot) | Send(time: real)

  function Step(p: Platform, config: ServerConfig, s: ServerState, event: Event): ServerState {
    match event
    case Snap(snapshot) => Process(p, config, s, snapshot)
    case Send(time) => AfterPublish(p, config, s, time)
  }

  function Run(p: Platform, config: ServerConfig, events: seq<Event>): ServerState {
    if events == [] then Initial(config)
    else Step(p, config, Run(p, config, events[..|events| - 1]), events[|events| - 1])
  }

  // Registration

  /** The two name tables are mutually inverse. */
  ghost predicate NamesAgree(r: Registry) {
    && (forall t :: t in r.trackerNames ==>
          r.trackerNames[t] in r.tracked && r.tracked[r.trackerNames[t]].trackerName == t)
    && (forall m :: m in r.tracked ==>
          r.tracked[m].trackerName in r.trackerNames && r.trackerNames[r.tracked[m].trackerName] == m)
  }

  /** Every history has room, and a current pose has a sample. */
  ghost predicate HistoriesFit(r: Registry) {
    forall m :: m in r.tracked && m in r.histories ==>
      r.histories[m].capacity >= 4 && (r.tracked[m].havePose ==> r.histories[m].pushed != [])
  }

  ghost predicate RegistryInv(r: Registry) {
    r.Listed() && NamesAgree(r) && HistoriesFit(r)
  }

  ghost predicate SameIdentity(a: TrackedModel, b: TrackedModel) {
    a.modelName == b.modelName && a.trackerName == b.trackerName && a.bodyToTracker == b.bodyToTracker
  }

  /** Nothing but registration touches names, trackers or extrinsics. */
  ghost predicate SameRegistrations(r: Registry, t: Registry) {
    && t.order == r.order && t.trackerNames == r.trackerNames
    && (forall m :: m in r.tracked <==> m in t.tracked)
    && (forall m :: m in r.tracked && m in t.tracked ==> SameIdentity(r.tracked[m], t.tracked[m]))
  }

  lemma NamesStillAgree(r: Registry, t: Registry)
    requires NamesAgree(r) && SameRegistrations(r, t)
    ensures NamesAgree(t)
  {
    forall m | m in t.tracked
      ensures t.tracked[m].trackerName in t.trackerNames && t.trackerNames[t.tracked[m].trackerName] == m
    {
      assert SameIdentity(r.tracked[m], t.tracked[m]);
    }
  }

  /** The times a sample of the given snapshot carries: when it was captured, and the time of its clock source. */
  ghost predicate TakenFrom(sample: TrackerSample, snapshot: Snapshot) {
    && sample.wallTime == snapshot.captureWallTime
    && sample.sourceTime ==
       (if snapshot.source == SimulationTime then snapshot.sampleTime else snapshot.captureWallTime)
  }

  /** The pose a sample of the given model carries: that model's pose in the snapshot, seen by its tracker. */
  ghost predicate Shows(f: MotionFunctions, extrinsic: Transform, name: string, sample: TrackerSample,
                        snapshot: Snapshot)
  {
    exists i :: 0 <= i < |snapshot.models| && snapshot.models[i].name == name &&
      sample.pose == TransformToPose(f.worldTracker(snapshot.models[i].pose, extrinsic))
  }

  lemma UpdateChangesOne(f: MotionFunctions, config: ServerConfig, r: Registry, sample: ModelPose, snapshot: Snapshot)
    requires r.Listed() && sample.name in r.tracked
    ensures var t := UpdateModel(f, config, r, sample, snapshot);
      && t.Listed() && SameRegistrations(r, t)
      && t.tracked[sample.name].havePose
      && |t.histories[sample.name].pushed| == |r.histories[sample.name].pushed| + 1
      && r.histories[sample.name].pushed <= t.histories[sample.name].pushed
      && (r.histories[sample.name].capacity > 0 ==>
            t.histories[sample.name].capacity == r.histories[sample.name].capacity)
      && TakenFrom(t.histories[sample.name].pushed[|r.histories[sample.name].pushed|], snapshot)
      && t.histories[sample.name].pushed[|r.histories[sample.name].pushed|].pose ==
         TransformToPose(f.worldTracker(sample.pose, r.tracked[sample.name].bodyToTracker))
      && forall m :: m in r.tracked && m != sample.name ==>
           t.tracked[m] == r.tracked[m] && t.histories[m] == r.histories[m]
  {}

  lemma ResetKeepsRegistrations(r: Registry)
    requires r.Listed()
    ensures SameRegistrations(r, ResetMeasurement(r)) && ResetMeasurement(r).Listed()
  {
    ResetMeasurementIs(r);
  }

  lemma ResetKeepsInv(r: Registry)
    requires RegistryInv(r)
    ensures RegistryInv(ResetMeasurement(r))
  {
    ResetKeepsRegistrations(r);
    NamesStillAgree(r, ResetMeasurement(r));
    assert HistoriesFit(ResetMeasurement(r)) by {
      ResetMeasurementIs(r);
    }
  }

  lemma EnteredKeepsInv(r: Registry, clock: Clock, snapshot: Snapshot)
    requires RegistryInv(r)
    ensures RegistryInv(Entered(r, clock, snapshot))
  {
    ResetKeepsInv(r);
    if SourceChanged(clock, snapshot) {
      ResetKeepsInv(ResetMeasurement(r));
    }
  }

  lemma EnsureKeepsInv(config: ServerConfig, r: Registry, model: string, tracker: string)
    requires RegistryInv(r)
    ensures RegistryInv(EnsureTracked(config, r, model, tracker))
  {
    if model !in r.tracked && tracker !in r.trackerNames {
      KeyOrder.InsertKeys(r.order, model);
      CapacityIsAtLeastFour(config, tracker);
    }
  }

  lemma CapacityIsAtLeastFour(config: ServerConfig, tracker: string)
    ensures HistoryCapacity(config.delay, tracker, config.publishRateHz) >= 4
  {}

  lemma {:induction false} ScanKeepsInv(config: ServerConfig, r: Registry, models: seq<ModelPose>)
    requires RegistryInv(r)
    ensures RegistryInv(ScanModels(config, r, models))
  {
    if models != [] {
      var front, model := models[..|models| - 1], models[|models| - 1].name;
      ScanKeepsInv(config, r, front);
      EnsureKeepsInv(config, ScanModels(config, r, front), model, TrackerName(config, model));
    }
  }

  lemma PreparedKeepsInv(config: ServerConfig, s: ServerState, snapshot: Snapshot)
    requires RegistryInv(s.registry)
    ensures RegistryInv(Prepared(config, s, snapshot))
  {
    EnteredKeepsInv(s.registry, s.clock, snapshot);
    ScanKeepsInv(config, Entered(s.registry, s.clock, snapshot), snapshot.models);
  }

  lemma ClearKeepsInv(r: Registry)
    requires RegistryInv(r)
    ensures RegistryInv(ClearPoses(r)) && SameRegistrations(r, ClearPoses(r))
  {
    ClearPosesIs(r);
    NamesStillAgree(r, ClearPoses(r));
  }

  lemma UpdateKeepsInv(f: MotionFunctions, config: ServerConfig, r: Registry, sample: ModelPose, snapshot: Snapshot)
    requires RegistryInv(r)
    ensures RegistryInv(UpdateModel(f, config, r, sample, snapshot))
  {
    if sample.name in r.tracked {
      UpdateChangesOne(f, config, r, sample, snapshot);
      NamesStillAgree(r, UpdateModel(f, config, r, sample, snapshot));
    }
  }

  lemma {:induction false} UpdatesKeepInv(f: MotionFunctions, config: ServerConfig, r: Registry, models: seq<ModelPose>,
                                          snapshot: Snapshot)
    requires RegistryInv(r)
    ensures RegistryInv(UpdateModels(f, config, r, models, snapshot))
  {
    if models != [] {
      var front := models[..|models| - 1];
      UpdatesKeepInv(f, config, r, front, snapshot);
      UpdateKeepsInv(f, config, UpdateModels(f, config, r, front, snapshot), models[|models| - 1], snapshot);
    }
  }

  lemma ProcessKeepsInv(p: Platform, config: ServerConfig, s: ServerState, snapshot: Snapshot)
    requires RegistryInv(s.registry)
    ensures RegistryInv(Process(p, config, s, snapshot).registry)
  {
    PreparedKeepsInv(config, s, snapshot);
    ClearKeepsInv(Prepared(config, s, snapshot));
    UpdatesKeepInv(p.motion, config, ClearPoses(Prepared(config, s, snapshot)), snapshot.models, snapshot);
  }

  /** In every reachable state the registry is consistent. */
  lemma {:induction false} EveryRegistryIsConsistent(p: Platform, config: ServerConfig, events: seq<Event>)
    ensures RegistryInv(Run(p, config, events).registry)
  {
    if events != [] {
      var front := events[..|events| - 1];
      EveryRegistryIsConsistent(p, config, front);
      if events[|events| - 1].Snap? {
        ProcessKeepsInv(p, config, Run(p, config, front), events[|events| - 1].snapshot);
      }
    }
  }
}
