/** The tracker server as a state machine over values: what processing a snapshot and publishing do. */
module TrackerStates {
  import opened Numerics
  import opened Geometry
  import opened SampleHistory
  import opened MeasurementDelays
  import opened ServerConfigs
  import opened Motion
  import opened Timevals
  import KeyOrder

  datatype WireSource = WallTime | SimulationTime

  datatype ModelPose = ModelPose(name: string, pose: Pose)

  datatype Snapshot = Snapshot(sampleTime: real, captureWallTime: real, source: WireSource, models: seq<ModelPose>)

  datatype Platform = Platform(math: RealFunctions, motion: MotionFunctions, engine: Engine)

  const TIME_EPSILON := 0.000000001

  /** One registered model, apart from its sample history. */
  datatype TrackedModel = TrackedModel(
    modelName: string,
    trackerName: string,
    latestPose: Pose,
    motion: Derivatives,
    bodyToTracker: Transform,
    lastWallTime: real,
    havePose: bool)

  /** The registered models, their histories and their names.  `tracked` and `histories` have the same keys,
      which `order` lists ascending. */
  datatype Registry = Registry(
    tracked: map<string, TrackedModel>,
    histories: map<string, History>,
    order: seq<string>,
    trackerNames: map<string, string>)
  {
    function HistoryOf(model: string): History {
      if model in histories then histories[model] else EmptyHistory(4)
    }

    ghost predicate Listed() {
      && tracked.Keys == histories.Keys
      && forall k :: k in order <==> k in tracked
    }
  }

  datatype Clock = Clock(
    lastScanWallTime: real,
    lastSampleTime: real,
    haveSampleTime: bool,
    source: WireSource,
    haveSource: bool)

  datatype ServerState = ServerState(registry: Registry, clock: Clock, delay: DelayState)

  function Initial(config: ServerConfig): ServerState {
    ServerState(Registry(map[], map[], [], map[]), Clock(0.0, 0.0, false, WallTime, false), InitialDelay(config.delay))
  }

  function SourceSeconds(source: WireSource, simulationTime: real, wallTime: real): real {
    if source == SimulationTime then simulationTime else wallTime
  }

  function MotionSettings(config: ServerConfig): MotionConfig {
    MotionConfig(config.derivativeResetTimeoutS, config.velocityCutoffHz, config.accelerationCutoffHz)
  }

  // Resets

  function ResetModel(m: TrackedModel): TrackedModel {
    m.(havePose := false, motion := Forgotten(m.motion))
  }

  function ResetOne(r: Registry, name: string): Registry {
    if name !in r.tracked then r
    else r.(tracked := r.tracked[name := ResetModel(r.tracked[name])],
            histories := r.histories[name := r.HistoryOf(name).Cleared()])
  }

  function ResetFirst(r: Registry, names: seq<string>): Registry {
    if names == [] then r else ResetOne(ResetFirst(r, names[..|names| - 1]), names[|names| - 1])
  }

  /** The reset visits the models in key order. */
  function ResetMeasurement(r: Registry): Registry {
    ResetFirst(r, r.order)
  }

  function ClearOne(r: Registry, name: string): Registry {
    if name !in r.tracked then r else r.(tracked := r.tracked[name := r.tracked[name].(havePose := false)])
  }

  function ClearFirst(r: Registry, names: seq<string>): Registry {
    if names == [] then r else ClearOne(ClearFirst(r, names[..|names| - 1]), names[|names| - 1])
  }

  function ClearPoses(r: Registry): Registry {
    ClearFirst(r, r.order)
  }

  lemma {:induction false} ResetFirstIs(r: Registry, names: seq<string>)
    requires r.tracked.Keys == r.histories.Keys && forall k :: k in names ==> k in r.tracked
    ensures var t := ResetFirst(r, names);
      && t.order == r.order && t.trackerNames == r.trackerNames
      && t.tracked.Keys == t.histories.Keys == r.tracked.Keys
      && forall k :: k in r.tracked ==>
        && t.tracked[k] == (if k in names then ResetModel(r.tracked[k]) else r.tracked[k])
        && t.histories[k] == (if k in names then r.histories[k].Cleared() else r.histories[k])
  {
    if names != [] {
      ResetFirstIs(r, names[..|names| - 1]);
    }
  }

  /** No current pose, no derivatives, and everything else as it was. */
  ghost predicate WasReset(m: TrackedModel, after: TrackedModel) {
    && after.motion == m.motion.(haveState := false, haveRawVelocity := false, haveVelocity := false,
                                 haveAcceleration := false)
    && after == m.(havePose := false, motion := after.motion)
  }

  /** A reset reaches every registered model, empties its history and forgets its derivatives, and keeps
      capacities, names and everything else about the models. */
  lemma ResetMeasurementIs(r: Registry)
    requires r.Listed()
    ensures var t := ResetMeasurement(r);
      && t.Listed() && t.order == r.order && t.trackerNames == r.trackerNames
      && t.tracked.Keys == r.tracked.Keys
      && forall k :: k in r.tracked ==>
           t.tracked[k] == ResetModel(r.tracked[k]) && t.histories[k] == r.histories[k].Cleared()
  {
    ResetFirstIs(r, r.order);
  }

  /** So of each model only the current pose, the derivatives and the samples are gone. */
  lemma ResetForgets(r: Registry, model: string)
    requires r.Listed() && model in r.tracked
    ensures var t := ResetMeasurement(r);
      && model in t.tracked && model in t.histories
      && WasReset(r.tracked[model], t.tracked[model])
      && t.histories[model].pushed == []
      && (r.histories[model].capacity > 0 ==> t.histories[model].capacity == r.histories[model].capacity)
  {
    ResetMeasurementIs(r);
  }

  lemma {:induction false} ClearFirstIs(r: Registry, names: seq<string>)
    requires forall k :: k in names ==> k in r.tracked
    ensures var t := ClearFirst(r, names);
      && t == r.(tracked := t.tracked)
      && t.tracked.Keys == r.tracked.Keys
      && forall k :: k in r.tracked ==>
        t.tracked[k] == (if k in names then r.tracked[k].(havePose := false) else r.tracked[k])
  {
    if names != [] {
      ClearFirstIs(r, names[..|names| - 1]);
    }
  }

  lemma ClearPosesIs(r: Registry)
    requires r.Listed()
    ensures var t := ClearPoses(r);
      && t == r.(tracked := t.tracked) && t.Listed()
      && t.tracked.Keys == r.tracked.Keys
      && forall k :: k in r.tracked ==> t.tracked[k] == r.tracked[k].(havePose := false)
  {
    ClearFirstIs(r, r.order);
  }

  // Registration

  predicate ShouldScan(config: ServerConfig, clock: Clock, captureWallTime: real) {
    clock.lastScanWallTime == 0.0 || captureWallTime - clock.lastScanWallTime >= config.scanIntervalS
  }

  function Registered(config: ServerConfig, model: string, tracker: string): TrackedModel {
    TrackedModel(model, tracker, NO_POSE, NO_MOTION, BodyToTracker(config, tracker), 0.0, false)
  }

  function EnsureTracked(config: ServerConfig, r: Registry, model: string, tracker: string): Registry {
    if model in r.tracked || tracker in r.trackerNames then r
    else
      var capacity := HistoryCapacity(config.delay, tracker, config.publishRateHz);
      Registry(r.tracked[model := Registered(config, model, tracker)],
               r.histories[model := EmptyHistory(capacity)],
               KeyOrder.Insert(r.order, model),
               r.trackerNames[tracker := model])
  }

  function ScanModel(config: ServerConfig, r: Registry, model: string): Registry {
    var tracker := TrackerName(config, model);
    if tracker == "" then r else EnsureTracked(config, r, model, tracker)
  }

  function ScanModels(config: ServerConfig, r: Registry, models: seq<ModelPose>): Registry {
    if models == [] then r
    else ScanModel(config, ScanModels(config, r, models[..|models| - 1]), models[|models| - 1].name)
  }

  // Poses

  function Moved(f: MotionFunctions, config: ServerConfig, m: TrackedModel, pose: Pose, sampleTime: real,
                 captureWallTime: real): TrackedModel
  {
    var world := f.worldTracker(pose, m.bodyToTracker);
    m.(motion := Updated(f, MotionSettings(config), m.motion, world, sampleTime),
       latestPose := TransformToPose(world),
       lastWallTime := captureWallTime,
       havePose := true)
  }

  function SampleOf(config: ServerConfig, m: TrackedModel, captureWallTime: real, sourceTime: real): TrackerSample {
    TrackerSample(captureWallTime, sourceTime, m.latestPose,
                  m.motion.linearVelocity, m.motion.angularVelocity,
                  m.motion.linearAcceleration, m.motion.angularAcceleration,
                  m.motion.haveVelocity, m.motion.haveAcceleration,
                  ReportInterval(m.motion, config.publishRateHz))
  }

  function UpdateModel(f: MotionFunctions, config: ServerConfig, r: Registry, sample: ModelPose, snapshot: Snapshot):
    Registry
  {
    if sample.name !in r.tracked then r
    else
      var sourceTime := SourceSeconds(snapshot.source, snapshot.sampleTime, snapshot.captureWallTime);
      var moved := Moved(f, config, r.tracked[sample.name], sample.pose, snapshot.sampleTime, snapshot.captureWallTime);
      var pushed := SampleOf(config, moved, snapshot.captureWallTime, sourceTime);
      r.(tracked := r.tracked[sample.name := moved],
         histories := r.histories[sample.name := r.HistoryOf(sample.name).Push(pushed)])
  }

  function UpdateModels(f: MotionFunctions, config: ServerConfig, r: Registry, models: seq<ModelPose>,
                        snapshot: Snapshot): Registry
  {
    if models == [] then r
    else UpdateModel(f, config, UpdateModels(f, config, r, models[..|models| - 1], snapshot),
                     models[|models| - 1], snapshot)
  }

  // One snapshot

  predicate SourceChanged(clock: Clock, snapshot: Snapshot) {
    clock.haveSource && snapshot.source != clock.source
  }

  predicate RolledBack(clock: Clock, snapshot: Snapshot) {
    clock.haveSampleTime && snapshot.sampleTime + TIME_EPSILON < clock.lastSampleTime
  }

  /** Measurement state is reset when the clock source changed and again when simulation time moved
      backwards. */
  function Entered(r: Registry, clock: Clock, snapshot: Snapshot): Registry {
    var current := if SourceChanged(clock, snapshot) then ResetMeasurement(r) else r;
    if RolledBack(clock, snapshot) then ResetMeasurement(current) else current
  }

  /** The registry the snapshot's models are matched against: models are registered if a scan is due. */
  function Prepared(config: ServerConfig, s: ServerState, snapshot: Snapshot): Registry {
    var current := Entered(s.registry, s.clock, snapshot);
    if ShouldScan(config, s.clock, snapshot.captureWallTime) then ScanModels(config, current, snapshot.models)
    else current
  }

  function ClockAfter(config: ServerConfig, clock: Clock, snapshot: Snapshot): Clock {
    var scanTime :=
      if ShouldScan(config, clock, snapshot.captureWallTime) then snapshot.captureWallTime else clock.lastScanWallTime;
    Clock(scanTime, snapshot.sampleTime, true, snapshot.source, true)
  }

  function Process(p: Platform, config: ServerConfig, s: ServerState, snapshot: Snapshot): ServerState {
    ServerState(UpdateModels(p.motion, config, ClearPoses(Prepared(config, s, snapshot)), snapshot.models, snapshot),
                ClockAfter(config, s.clock, snapshot),
                s.delay)
  }

  // Publishing

  /** A published sample and where it came from: its push number since the last reset and the delayed
      target it was nearest to, None when delays are disabled. */
  datatype Selection = Selection(
    model: string,
    tracker: string,
    target: Option<real>,
    number: nat,
    sample: TrackerSample,
    timestamp: Timeval)

  /** What goes out on the wire, before measurement noise and encoding. */
  datatype Report =
    | PoseReport(tracker: string, timestamp: Timeval, pose: Pose)
    | VelocityReport(tracker: string, timestamp: Timeval, linear: Vector3, angular: Vector3, interval: real)
    | AccelerationReport(tracker: string, timestamp: Timeval, linear: Vector3, angular: Vector3, interval: real)

  /** A pose report, then a velocity and an acceleration report if the sample has them, under one timestamp. */
  function ReportsOf(tracker: string, timestamp: Timeval, s: TrackerSample): seq<Report> {
    [PoseReport(tracker, timestamp, s.pose)] +
    (if s.haveVelocity
     then [VelocityReport(tracker, timestamp, s.linearVelocity, s.angularVelocity, s.reportInterval)]
     else []) +
    (if s.haveAcceleration
     then [AccelerationReport(tracker, timestamp, s.linearAcceleration, s.angularAcceleration, s.reportInterval)]
     else [])
  }

  function Reports(selections: seq<Selection>): seq<Report> {
    if selections == [] then []
    else
      var last := selections[|selections| - 1];
      Reports(selections[..|selections| - 1]) + ReportsOf(last.tracker, last.timestamp, last.sample)
  }

  lemma ReportsAppended(selections: seq<Selection>, last: Selection)
    ensures Reports(selections + [last]) == Reports(selections) + ReportsOf(last.tracker, last.timestamp, last.sample)
  {
    assert (selections + [last])[..|selections|] == selections;
  }

  datatype Published = Published(delay: DelayState, selections: seq<Selection>)

  function SelectNumber(h: History, target: Option<real>): (n: nat)
    requires h.pushed != [] && h.capacity > 0
    ensures n < |h.pushed|
  {
    if target.None? then h.LatestNumber() else h.NearestNumber(target.value)
  }

  function WireTime(config: ServerConfig, sendSourceTime: real, sample: TrackerSample): real {
    if config.delay.policy == SampleTime then sample.sourceTime else sendSourceTime
  }

  function Select(config: ServerConfig, r: Registry, clock: Clock, name: string, target: Option<real>,
                  send: real): Selection
    requires name in r.tracked && r.HistoryOf(name).pushed != [] && r.HistoryOf(name).capacity > 0
  {
    var number := SelectNumber(r.HistoryOf(name), target);
    var sample := r.HistoryOf(name).pushed[number];
    var sendSourceTime := SourceSeconds(clock.source, clock.lastSampleTime, send);
    Selection(name, r.tracked[name].trackerName, target, number, sample,
              SecondsToTimeval(WireTime(config, sendSourceTime, sample)))
  }

  function PublishModel(p: Platform, config: ServerConfig, r: Registry, clock: Clock, before: Published, name: string,
                        send: real): Published
  {
    if name !in r.tracked || !r.tracked[name].havePose then before
    else
      var d := DelayFor(p.math, p.engine, before.delay, r.tracked[name].trackerName, send);
      var delay := if config.delay.enabled then d.state else before.delay;
      var target := if config.delay.enabled then Some(send - d.seconds) else None;
      if r.HistoryOf(name).pushed == [] || r.HistoryOf(name).capacity == 0 then Published(delay, before.selections)
      else Published(delay, before.selections + [Select(config, r, clock, name, target, send)])
  }

  /** `start` is the delay state once the publish cycle has been started. */
  function PublishModels(p: Platform, config: ServerConfig, r: Registry, clock: Clock, start: DelayState,
                         names: seq<string>, send: real): Published
  {
    if names == [] then Published(start, [])
    else PublishModel(p, config, r, clock, PublishModels(p, config, r, clock, start, names[..|names| - 1], send),
                      names[|names| - 1], send)
  }

  function Publish(p: Platform, config: ServerConfig, s: ServerState, send: real): Published {
    PublishModels(p, config, s.registry, s.clock, StartCycle(p.math, p.engine, s.delay, send), s.registry.order, send)
  }

  function AfterPublish(p: Platform, config: ServerConfig, s: ServerState, send: real): ServerState {
    s.(delay := Publish(p, config, s, send).delay)
  }
}
