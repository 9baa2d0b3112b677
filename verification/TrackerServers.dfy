/** The single-threaded server core, updated in place. */
module TrackerServers {
  import opened Numerics
  import opened SampleHistory
  import opened MeasurementDelays
  import opened ServerConfigs
  import opened HistoryTables
  import opened Timevals
  import opened TrackerStates
  import KeyOrder

  class VrpnTrackerServer {
    const platform: Platform
    const config: ServerConfig
    const measurementDelay: MeasurementDelay
    const histories: HistoryTable
    var trackedModels: map<string, TrackedModel>
    var order: seq<string>
    var trackerNames: map<string, string>
    var lastScanWallTime: real
    var lastSampleTime: real
    var haveSampleTime: bool
    var wireSource: WireSource
    var haveWireSource: bool

    ghost predicate Valid()
      reads this, measurementDelay, histories, histories.Repr
    {
      && histories.Valid() && this !in histories.Repr && measurementDelay !in histories.Repr
      && measurementDelay.math == platform.math
      && measurementDelay.engine == platform.engine
      && measurementDelay.config == config.delay
      && Registry().Listed()
    }

    ghost function Registry(): Registry
      reads this, histories
    {
      TrackerStates.Registry(trackedModels, histories.values, order, trackerNames)
    }

    ghost function Clock(): Clock
      reads this
    {
      TrackerStates.Clock(lastScanWallTime, lastSampleTime, haveSampleTime, wireSource, haveWireSource)
    }

    ghost function State(): ServerState
      reads this, measurementDelay, histories
    {
      ServerState(Registry(), Clock(), measurementDelay.State())
    }

    constructor (platform: Platform, config: ServerConfig)
      ensures Valid() && fresh(measurementDelay) && fresh(histories.Repr)
      ensures this.platform == platform && this.config == config
      ensures State() == Initial(config)
    {
      this.platform, this.config := platform, config;
      measurementDelay := new MeasurementDelay(platform.math, platform.engine, config.delay);
      histories := new HistoryTable();
      trackedModels, order, trackerNames := map[], [], map[];
      lastScanWallTime, lastSampleTime, haveSampleTime := 0.0, 0.0, false;
      wireSource, haveWireSource := WallTime, false;
    }

    method ResetTrackedModel(name: string)
      requires Valid() && name in trackedModels
      modifies `trackedModels, histories`values, histories.Repr
      ensures Valid()
      ensures Registry() == ResetOne(old(Registry()), name)
    {
      histories.Clear(name);
      trackedModels := trackedModels[name := ResetModel(trackedModels[name])];
    }

    method ResetMeasurementState()
      requires Valid()
      modifies `trackedModels, histories`values, histories.Repr
      ensures Valid()
      ensures Registry() == ResetMeasurement(old(Registry()))
    {
      ghost var before := Registry();
      for i := 0 to |order|
        invariant Valid()
        invariant Registry() == ResetFirst(before, order[..i])
      {
        assert order[..i + 1][..i] == order[..i];
        var name := order[i];
        assert name in trackedModels;
        ResetTrackedModel(name);
      }
      assert order[..|order|] == order;
    }

    method EnsureTrackedModel(model: string, tracker: string)
      requires Valid()
      modifies `trackedModels, `order, `trackerNames, histories
      ensures Valid() && fresh(histories.Repr - old(histories.Repr))
      ensures Registry() == EnsureTracked(config, old(Registry()), model, tracker)
    {
      if model in trackedModels {
        return;
      }
      if tracker in trackerNames {
        return;
      }
      KeyOrder.InsertKeys(order, model);
      histories.Add(model, HistoryCapacity(measurementDelay.config, tracker, config.publishRateHz));
      trackedModels := trackedModels[model := Registered(config, model, tracker)];
      order := KeyOrder.Insert(order, model);
      trackerNames := trackerNames[tracker := model];
    }

    method ScanModelList(snapshot: Snapshot)
      requires Valid()
      modifies `trackedModels, `order, `trackerNames, `lastScanWallTime, histories
      ensures Valid() && fresh(histories.Repr - old(histories.Repr))
      ensures Registry() == ScanModels(config, old(Registry()), snapshot.models)
      ensures lastScanWallTime == snapshot.captureWallTime
    {
      for i := 0 to |snapshot.models|
        invariant Valid() && fresh(histories.Repr - old(histories.Repr))
        invariant Registry() == ScanModels(config, old(Registry()), snapshot.models[..i])
      {
        assert snapshot.models[..i + 1][..i] == snapshot.models[..i];
        var model := snapshot.models[i].name;
        var tracker := TrackerName(config, model);
        if tracker == "" {
          continue;
        }
        EnsureTrackedModel(model, tracker);
      }
      assert snapshot.models[..|snapshot.models|] == snapshot.models;
      lastScanWallTime := snapshot.captureWallTime;
    }

    method ClearTrackedModel(name: string)
      requires Valid() && name in trackedModels
      modifies `trackedModels
      ensures Valid()
      ensures Registry() == ClearOne(old(Registry()), name)
    {
      trackedModels := trackedModels[name := trackedModels[name].(havePose := false)];
    }

    method ClearHavePose()
      requires Valid()
      modifies `trackedModels
      ensures Valid()
      ensures Registry() == ClearPoses(old(Registry()))
    {
      ghost var before := Registry();
      for i := 0 to |order|
        invariant Valid() && Registry() == ClearFirst(before, order[..i])
      {
        assert order[..i + 1][..i] == order[..i];
        var name := order[i];
        assert name in trackedModels;
        ClearTrackedModel(name);
      }
      assert order[..|order|] == order;
    }

    method UpdateTrackedModel(sample: ModelPose, snapshot: Snapshot)
      requires Valid()
      modifies `trackedModels, histories`values, histories.Repr
      ensures Valid()
      ensures Registry() == UpdateModel(platform.motion, config, old(Registry()), sample, snapshot)
    {
      if sample.name !in trackedModels {
        return;
      }
      var sourceTime := SourceSeconds(snapshot.source, snapshot.sampleTime, snapshot.captureWallTime);
      var moved := Moved(platform.motion, config, trackedModels[sample.name], sample.pose,
                         snapshot.sampleTime, snapshot.captureWallTime);
      trackedModels := trackedModels[sample.name := moved];
      histories.Push(sample.name, SampleOf(config, moved, snapshot.captureWallTime, sourceTime));
    }

    method UpdateTrackedModels(snapshot: Snapshot)
      requires Valid()
      modifies `trackedModels, histories`values, histories.Repr
      ensures Valid()
      ensures Registry() == UpdateModels(platform.motion, config, old(Registry()), snapshot.models, snapshot)
    {
      for i := 0 to |snapshot.models|
        invariant Valid()
        invariant Registry() == UpdateModels(platform.motion, config, old(Registry()), snapshot.models[..i], snapshot)
      {
        assert snapshot.models[..i + 1][..i] == snapshot.models[..i];
        UpdateTrackedModel(snapshot.models[i], snapshot);
      }
      assert snapshot.models[..|snapshot.models|] == snapshot.models;
    }

    method EnterSource(snapshot: Snapshot)
      requires Valid()
      modifies `trackedModels, `wireSource, `haveWireSource, histories`values, histories.Repr
      ensures Valid()
      ensures Registry() ==
              if SourceChanged(old(Clock()), snapshot) then ResetMeasurement(old(Registry())) else old(Registry())
      ensures wireSource == snapshot.source && haveWireSource
    {
      if haveWireSource && snapshot.source != wireSource {
        ResetMeasurementState();
      }
      wireSource := snapshot.source;
      haveWireSource := true;
    }

    method EnterTime(snapshot: Snapshot)
      requires Valid()
      modifies `trackedModels, `lastSampleTime, `haveSampleTime, histories`values, histories.Repr
      ensures Valid()
      ensures Registry() ==
              if RolledBack(old(Clock()), snapshot) then ResetMeasurement(old(Registry())) else old(Registry())
      ensures lastSampleTime == snapshot.sampleTime && haveSampleTime
    {
      if haveSampleTime && snapshot.sampleTime + TIME_EPSILON < lastSampleTime {
        ResetMeasurementState();
      }
      lastSampleTime := snapshot.sampleTime;
      haveSampleTime := true;
    }

    method PrepareModels(snapshot: Snapshot)
      requires Valid()
      modifies this, histories, histories.Repr
      ensures Valid() && fresh(histories.Repr - old(histories.Repr))
      ensures Registry() == Prepared(config, old(State()), snapshot)
      ensures Clock() == ClockAfter(config, old(Clock()), snapshot)
    {
      EnterSource(snapshot);
      EnterTime(snapshot);
      if lastScanWallTime == 0.0 || snapshot.captureWallTime - lastScanWallTime >= config.scanIntervalS {
        ScanModelList(snapshot);
      }
    }

    method ProcessSnapshot(snapshot: Snapshot)
      requires Valid()
      modifies this, histories, histories.Repr
      ensures Valid() && fresh(histories.Repr - old(histories.Repr))
      ensures State() == Process(platform, config, old(State()), snapshot)
    {
      PrepareModels(snapshot);
      ClearHavePose();
      UpdateTrackedModels(snapshot);
    }

    method SampleForPublish(name: string, send: real)
      returns (sample: Option<TrackerSample>, ghost target: Option<real>)
      requires Valid() && name in trackedModels
      modifies measurementDelay
      ensures Valid()
      ensures var d := DelayFor(platform.math, platform.engine, old(measurementDelay.State()),
                                trackedModels[name].trackerName, send);
        && measurementDelay.State() == (if config.delay.enabled then d.state else old(measurementDelay.State()))
        && target == (if config.delay.enabled then Some(send - d.seconds) else None)
      ensures var h := histories.values[name];
        if h.pushed == [] then sample == None
        else h.capacity > 0 && sample == Some(h.pushed[SelectNumber(h, target)])
    {
      if !config.delay.enabled {
        target := None;
        sample := histories.Latest(name);
      } else {
        var delay := measurementDelay.DelaySecondsForTracker(trackedModels[name].trackerName, send);
        target := Some(send - delay);
        sample := histories.Nearest(name, send - delay);
      }
    }

    method PublishTrackedModel(name: string, send: real, ghost before: Published) returns (reports: seq<Report>)
      requires Valid() && name in trackedModels && measurementDelay.State() == before.delay
      modifies measurementDelay
      ensures Valid()
      ensures var after := PublishModel(platform, config, Registry(), Clock(), before, name, send);
        && measurementDelay.State() == after.delay
        && Reports(after.selections) == Reports(before.selections) + reports
    {
      reports := [];
      if !trackedModels[name].havePose {
        return;
      }
      var sample, target := SampleForPublish(name, send);
      if sample == None {
        return;
      }
      var sendSourceTime := SourceSeconds(wireSource, lastSampleTime, send);
      var timestamp := SecondsToTimeval(WireTime(config, sendSourceTime, sample.value));
      reports := ReportSample(trackedModels[name].trackerName, timestamp, sample.value);
      ghost var selection := Select(config, Registry(), Clock(), name, target, send);
      ghost var after := PublishModel(platform, config, Registry(), Clock(), before, name, send);
      assert after.selections == before.selections + [selection];
      ReportsAppended(before.selections, selection);
    }

    static method ReportSample(tracker: string, timestamp: Timeval, sample: TrackerSample)
      returns (reports: seq<Report>)
      ensures reports == ReportsOf(tracker, timestamp, sample)
    {
      reports := [PoseReport(tracker, timestamp, sample.pose)];
      if sample.haveVelocity {
        reports := reports + [VelocityReport(tracker, timestamp, sample.linearVelocity, sample.angularVelocity,
                                             sample.reportInterval)];
      }
      if sample.haveAcceleration {
        reports := reports + [AccelerationReport(tracker, timestamp, sample.linearAcceleration,
                                                 sample.angularAcceleration, sample.reportInterval)];
      }
    }

    method PublishReports(send: real) returns (reports: seq<Report>)
      requires Valid()
      modifies measurementDelay
      ensures Valid()
      ensures State() == AfterPublish(platform, config, old(State()), send)
      ensures reports == Reports(Publish(platform, config, old(State()), send).selections)
    {
      measurementDelay.StartPublishCycle(send);
      ghost var start := measurementDelay.State();
      ghost var published := Published(start, []);
      reports := [];
      for i := 0 to |order|
        invariant Valid() && measurementDelay.State() == published.delay
        invariant published == PublishModels(platform, config, Registry(), Clock(), start, order[..i], send)
        invariant reports == Reports(published.selections)
      {
        assert order[..i + 1][..i] == order[..i];
        assert order[i] in trackedModels;
        var more := PublishTrackedModel(order[i], send, published);
        published := PublishModel(platform, config, Registry(), Clock(), published, order[i], send);
        reports := reports + more;
      }
      assert order[..|order|] == order;
    }
  }
}
