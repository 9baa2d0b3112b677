/** The derivative ladder and the report intervals, as the server's histories show them. */
module ServerMotion {
  import opened Geometry
  import opened SampleHistory
  import opened ServerConfigs
  import opened TrackerStates
  import opened ServerRuns
  import opened Registrations
  import opened Epochs
  import opened Rotations
  import Motion

  /** The derivative steps one snapshot adds for a model. */
  function StepsIn(f: Motion.MotionFunctions, extrinsic: Transform, models: seq<ModelPose>, snapshot: Snapshot,
                   name: string): seq<Motion.Step>
  {
    if models == [] then []
    else
      var last := models[|models| - 1];
      StepsIn(f, extrinsic, models[..|models| - 1], snapshot, name) +
      (if last.name == name
       then [Motion.Step(f.worldTracker(last.pose, extrinsic), snapshot.sampleTime)]
       else [])
  }

  lemma RunAppended(f: Motion.MotionFunctions, config: Motion.MotionConfig, d: Motion.Derivatives,
                    steps: seq<Motion.Step>, more: Motion.Step)
    ensures Motion.Run(f, config, d, steps + [more]) ==
            Motion.Updated(f, config, Motion.Run(f, config, d, steps), more.world, more.time)
  {
    assert (steps + [more])[..|steps|] == steps;
  }

  lemma {:induction false} UpdatesRunMotion(f: Motion.MotionFunctions, config: ServerConfig, r: Registry,
                                            models: seq<ModelPose>, snapshot: Snapshot, name: string)
    requires RegistryInv(r) && name in r.tracked
    ensures var t := UpdateModels(f, config, r, models, snapshot);
      && name in t.tracked
      && t.tracked[name].bodyToTracker == r.tracked[name].bodyToTracker
      && t.tracked[name].motion ==
         Motion.Run(f, MotionSettings(config), r.tracked[name].motion,
                    StepsIn(f, r.tracked[name].bodyToTracker, models, snapshot, name))
  {
    if models != [] {
      var front, last, extrinsic := models[..|models| - 1], models[|models| - 1], r.tracked[name].bodyToTracker;
      UpdatesRunMotion(f, config, r, front, snapshot, name);
      UpdatesKeepInv(f, config, r, front, snapshot);
      var t := UpdateModels(f, config, r, front, snapshot);
      var steps := StepsIn(f, extrinsic, front, snapshot, name);
      if last.name == name {
        RunAppended(f, MotionSettings(config), r.tracked[name].motion, steps,
                    Motion.Step(f.worldTracker(last.pose, extrinsic), snapshot.sampleTime));
        assert StepsIn(f, extrinsic, models, snapshot, name) ==
               steps + [Motion.Step(f.worldTracker(last.pose, extrinsic), snapshot.sampleTime)];
        UpdateMoves(f, config, t, last, snapshot);
      } else {
        assert StepsIn(f, extrinsic, models, snapshot, name) == steps;
        if last.name in t.tracked {
          UpdateChangesOne(f, config, t, last, snapshot);
        }
      }
    }
  }

  lemma UpdateMoves(f: Motion.MotionFunctions, config: ServerConfig, r: Registry, sample: ModelPose, snapshot: Snapshot)
    requires sample.name in r.tracked
    ensures var t := UpdateModel(f, config, r, sample, snapshot);
      var m := r.tracked[sample.name];
      && sample.name in t.tracked
      && t.tracked[sample.name].bodyToTracker == m.bodyToTracker
      && t.tracked[sample.name].motion ==
         Motion.Updated(f, MotionSettings(config), m.motion, f.worldTracker(sample.pose, m.bodyToTracker),
                        snapshot.sampleTime)
  {}

  lemma ResetMotion(r: Registry, name: string)
    requires r.Listed() && name in r.tracked
    ensures name in ResetMeasurement(r).tracked
    ensures ResetMeasurement(r).tracked[name].motion == Motion.Forgotten(r.tracked[name].motion)
  {
    ResetMeasurementIs(r);
  }

  lemma EnteredMotion(r: Registry, clock: Clock, snapshot: Snapshot, name: string)
    requires r.Listed() && name in r.tracked
    ensures var t := Entered(r, clock, snapshot);
      && name in t.tracked
      && t.tracked[name].motion ==
         (if Resets(clock, snapshot) then Motion.Forgotten(r.tracked[name].motion) else r.tracked[name].motion)
  {
    ResetMotion(r, name);
    ResetKeepsRegistrations(r);
    ResetMotion(ResetMeasurement(r), name);
  }

  lemma {:induction false} ScanMotion(config: ServerConfig, r: Registry, models: seq<ModelPose>, name: string)
    requires RegistryInv(r) && name in ScanModels(config, r, models).tracked
    ensures ScanModels(config, r, models).tracked[name].motion ==
            if name in r.tracked then r.tracked[name].motion else Motion.NO_MOTION
  {
    if models != [] {
      var front := models[..|models| - 1];
      ScanKeepsInv(config, r, front);
      ScanKeeps(config, r, front);
      if name in ScanModels(config, r, front).tracked {
        ScanMotion(config, r, front, name);
      }
    }
  }

  /** The derivative state a snapshot's steps start from. */
  function KeptMotion(s: ServerState, snapshot: Snapshot, name: string): Motion.Derivatives {
    if name !in s.registry.tracked then Motion.NO_MOTION
    else if Resets(s.clock, snapshot) then Motion.Forgotten(s.registry.tracked[name].motion)
    else s.registry.tracked[name].motion
  }

  lemma PreparedMotion(config: ServerConfig, s: ServerState, snapshot: Snapshot, name: string)
    requires RegistryInv(s.registry) && name in Prepared(config, s, snapshot).tracked
    ensures Prepared(config, s, snapshot).tracked[name].motion == KeptMotion(s, snapshot, name)
  {
    EnteredKeepsInv(s.registry, s.clock, snapshot);
    EnteredKeepsRegistrations(s.registry, s.clock, snapshot);
    if name in s.registry.tracked {
      EnteredMotion(s.registry, s.clock, snapshot, name);
    }
    if ShouldScan(config, s.clock, snapshot.captureWallTime) {
      ScanMotion(config, Entered(s.registry, s.clock, snapshot), snapshot.models, name);
    }
  }

  lemma ProcessRunsMotion(p: Platform, config: ServerConfig, s: ServerState, snapshot: Snapshot, name: string)
    requires RegistryInv(s.registry) && name in Process(p, config, s, snapshot).registry.tracked
    ensures var m := Process(p, config, s, snapshot).registry.tracked[name];
      m.motion == Motion.Run(p.motion, MotionSettings(config), KeptMotion(s, snapshot, name),
                             StepsIn(p.motion, m.bodyToTracker, snapshot.models, snapshot, name))
  {
    var prepared := Prepared(config, s, snapshot);
    PreparedKeepsInv(config, s, snapshot);
    ProcessKeeps(p, config, s, snapshot);
    PreparedMotion(config, s, snapshot, name);
    ClearKeepsInv(prepared);
    ClearKeepsMotion(prepared, name);
    UpdatesRunMotion(p.motion, config, ClearPoses(prepared), snapshot.models, snapshot, name);
  }

  lemma ClearKeepsMotion(r: Registry, name: string)
    requires r.Listed() && name in r.tracked
    ensures name in ClearPoses(r).tracked && ClearPoses(r).tracked[name].motion == r.tracked[name].motion
  {
    ClearPosesIs(r);
  }

  // Whole runs.

  /** The derivative steps of a model since its epoch began. */
  function EpochSteps(p: Platform, config: ServerConfig, events: seq<Event>, name: string): seq<Motion.Step> {
    if events == [] then []
    else
      var n := |events| - 1;
      var front := EpochSteps(p, config, events[..n], name);
      if events[n].Send? then front
      else (if BreaksAt(events, n) then [] else front) +
           (if name in Run(p, config, events).registry.tracked
            then StepsIn(p.motion, BodyToTracker(config, TrackerName(config, name)), events[n].snapshot.models,
                         events[n].snapshot, name)
            else [])
  }

  lemma {:induction false} RunConcatenates(f: Motion.MotionFunctions, config: Motion.MotionConfig,
                                           d: Motion.Derivatives, steps: seq<Motion.Step>, more: seq<Motion.Step>)
    ensures Motion.Run(f, config, Motion.Run(f, config, d, steps), more) == Motion.Run(f, config, d, steps + more)
  {
    if more == [] {
      assert steps + more == steps;
    } else {
      RunConcatenates(f, config, d, steps, more[..|more| - 1]);
      assert (steps + more)[..|steps + more| - 1] == steps + more[..|more| - 1];
    }
  }

  /** The derivative state a model's epoch began with. */
  function EpochBase(p: Platform, config: ServerConfig, events: seq<Event>, name: string): Motion.Derivatives {
    if events == [] then Motion.NO_MOTION
    else
      var n := |events| - 1;
      if BreaksAt(events, n) then KeptMotion(Run(p, config, events[..n]), events[n].snapshot, name)
      else EpochBase(p, config, events[..n], name)
  }

  lemma {:induction false} EpochBaseForgets(p: Platform, config: ServerConfig, events: seq<Event>, name: string)
    ensures !EpochBase(p, config, events, name).haveState
  {
    if events != [] {
      var n := |events| - 1;
      if BreaksAt(events, n) {
        ResetsWhenEpochBreaks(p, config, events, n);
      } else {
        EpochBaseForgets(p, config, events[..n], name);
      }
    }
  }

  lemma {:induction false} UntrackedHasNoSteps(p: Platform, config: ServerConfig, events: seq<Event>, name: string)
    requires name !in Run(p, config, events).registry.tracked
    ensures EpochBase(p, config, events, name) == Motion.NO_MOTION && EpochSteps(p, config, events, name) == []
  {
    if events != [] {
      MarkedTracks(p, config, events, name);
      UntrackedHasNoSteps(p, config, events[..|events| - 1], name);
    }
  }

  /** What the last snapshot adds to the derivative run of its epoch. */
  function LastSteps(p: Platform, config: ServerConfig, events: seq<Event>, name: string): seq<Motion.Step>
    requires events != [] && events[|events| - 1].Snap?
  {
    var snapshot := events[|events| - 1].snapshot;
    StepsIn(p.motion, BodyToTracker(config, TrackerName(config, name)), snapshot.models, snapshot, name)
  }

  lemma SnapshotRunsMotion(p: Platform, config: ServerConfig, events: seq<Event>, name: string)
    requires events != [] && events[|events| - 1].Snap? && name in Run(p, config, events).registry.tracked
    ensures Run(p, config, events).registry.tracked[name].motion ==
            Motion.Run(p.motion, MotionSettings(config),
                       KeptMotion(Run(p, config, events[..|events| - 1]), events[|events| - 1].snapshot, name),
                       LastSteps(p, config, events, name))
  {
    var n := |events| - 1;
    EveryRegistryIsConsistent(p, config, events[..n]);
    ProcessRunsMotion(p, config, Run(p, config, events[..n]), events[n].snapshot, name);
    ExtrinsicIsConfigured(p, config, events, name);
  }

  /** In every reachable state a model's derivative state is the run of its epoch's steps from a state that
      remembers nothing. */
  lemma {:induction false} MotionIsAnEpochRun(p: Platform, config: ServerConfig, events: seq<Event>, name: string)
    requires name in Run(p, config, events).registry.tracked
    ensures !EpochBase(p, config, events, name).haveState
    ensures Run(p, config, events).registry.tracked[name].motion ==
            Motion.Run(p.motion, MotionSettings(config), EpochBase(p, config, events, name),
                       EpochSteps(p, config, events, name))
    decreases |events|, 1
  {
    EpochBaseForgets(p, config, events, name);
    var n := |events| - 1;
    var front := events[..n];
    if events[n].Send? {
      MotionIsAnEpochRun(p, config, front, name);
    } else {
      SnapshotRunsMotion(p, config, events, name);
      if BreaksAt(events, n) {
        assert [] + LastSteps(p, config, events, name) == LastSteps(p, config, events, name);
      } else {
        MotionBefore(p, config, events, name);
        RunConcatenates(p.motion, MotionSettings(config), EpochBase(p, config, front, name),
                        EpochSteps(p, config, front, name), LastSteps(p, config, events, name));
      }
    }
  }

  /** Where no epoch begins, a snapshot's steps start from the run of the earlier ones. */
  lemma {:induction false} MotionBefore(p: Platform, config: ServerConfig, events: seq<Event>, name: string)
    requires events != [] && events[|events| - 1].Snap? && !BreaksAt(events, |events| - 1)
    ensures var front := events[..|events| - 1];
      KeptMotion(Run(p, config, front), events[|events| - 1].snapshot, name) ==
      Motion.Run(p.motion, MotionSettings(config), EpochBase(p, config, front, name),
                 EpochSteps(p, config, front, name))
    decreases |events|, 0
  {
    var front := events[..|events| - 1];
    ResetsWhenEpochBreaks(p, config, events, |events| - 1);
    if name in Run(p, config, front).registry.tracked {
      MotionIsAnEpochRun(p, config, front, name);
    } else {
      UntrackedHasNoSteps(p, config, front, name);
    }
  }

  /** The derivative ladder over whole runs: after k successive in-range intervals of the epoch a model has a
      velocity iff k >= 1 and an acceleration iff k >= 2; its raw velocities integrate to its displacement
      over those intervals and its raw accelerations to the change of raw velocity. */
  lemma DerivativesClimb(p: Platform, config: ServerConfig, events: seq<Event>, name: string)
    requires name in Run(p, config, events).registry.tracked && EpochSteps(p, config, events, name) != []
    ensures Motion.Climbed(MotionSettings(config), EpochSteps(p, config, events, name),
                           Run(p, config, events).registry.tracked[name].motion)
  {
    MotionIsAnEpochRun(p, config, events, name);
    Motion.RunClimbs(p.motion, MotionSettings(config), EpochBase(p, config, events, name),
                     EpochSteps(p, config, events, name));
  }

  // Angular velocity.

  function PosesIn(models: seq<ModelPose>, name: string): seq<Pose> {
    if models == [] then []
    else
      var last := models[|models| - 1];
      PosesIn(models[..|models| - 1], name) + (if last.name == name then [last.pose] else [])
  }

  /** The poses of a model since its epoch began, one for each derivative step. */
  function EpochPoses(p: Platform, config: ServerConfig, events: seq<Event>, name: string): seq<Pose> {
    if events == [] then []
    else
      var n := |events| - 1;
      var front := EpochPoses(p, config, events[..n], name);
      if events[n].Send? then front
      else (if BreaksAt(events, n) then [] else front) +
           (if name in Run(p, config, events).registry.tracked then PosesIn(events[n].snapshot.models, name) else [])
  }

  /** Every step is the pose with its number, seen by the tracker. */
  ghost predicate StepsShow(f: Motion.MotionFunctions, extrinsic: Transform, steps: seq<Motion.Step>,
                            poses: seq<Pose>)
  {
    |steps| == |poses| && forall k :: 0 <= k < |steps| ==> steps[k].world == f.worldTracker(poses[k], extrinsic)
  }

  lemma {:induction false} StepsInShow(f: Motion.MotionFunctions, extrinsic: Transform, models: seq<ModelPose>,
                                       snapshot: Snapshot, name: string)
    ensures StepsShow(f, extrinsic, StepsIn(f, extrinsic, models, snapshot, name), PosesIn(models, name))
  {
    if models != [] {
      StepsInShow(f, extrinsic, models[..|models| - 1], snapshot, name);
    }
  }

  lemma {:induction false} EpochStepsShow(p: Platform, config: ServerConfig, events: seq<Event>, name: string)
    ensures StepsShow(p.motion, BodyToTracker(config, TrackerName(config, name)), EpochSteps(p, config, events, name),
                      EpochPoses(p, config, events, name))
  {
    if events != [] {
      var n := |events| - 1;
      EpochStepsShow(p, config, events[..n], name);
      if events[n].Snap? {
        StepsInShow(p.motion, BodyToTracker(config, TrackerName(config, name)), events[n].snapshot.models,
                    events[n].snapshot, name);
      }
    }
  }

  lemma LastStepIs(f: Motion.MotionFunctions, config: Motion.MotionConfig, base: Motion.Derivatives,
                   steps: seq<Motion.Step>) returns (before: Motion.Derivatives)
    requires !base.haveState && Motion.Rung(config, steps) >= 1
    ensures |steps| >= 2
    ensures before.haveState && Motion.InRange(config, steps[|steps| - 1].time - before.lastTime)
    ensures before.lastTransform == steps[|steps| - 2].world && before.lastTime == steps[|steps| - 2].time
    ensures Motion.Run(f, config, base, steps) ==
            Motion.Updated(f, config, before, steps[|steps| - 1].world, steps[|steps| - 1].time)
  {
    var front := steps[..|steps| - 1];
    Motion.DerivativeLadder(f, config, base, front);
    before := Motion.Run(f, config, base, front);
  }

  ghost predicate UnitPoses(poses: seq<Pose>) {
    forall k :: 0 <= k < |poses| ==> Unit(poses[k].orientation)
  }

  /** The stored raw angular velocity is that from the last pose but one to the last. */
  ghost predicate LastTurn(tf: Motion.Tf2, steps: seq<Motion.Step>, poses: seq<Pose>, motion: Motion.Derivatives) {
    var n := |steps| - 1;
    && n >= 1 && |poses| == |steps|
    && TurnsFrom(tf, motion.previousRawAngular, poses[n - 1].orientation, poses[n].orientation,
                 steps[n].time - steps[n - 1].time)
  }

  lemma RunTurns(f: Motion.MotionFunctions, tf: Motion.Tf2, config: Motion.MotionConfig, base: Motion.Derivatives,
                 steps: seq<Motion.Step>, poses: seq<Pose>, extrinsic: Transform, motion: Motion.Derivatives)
    requires motion == Motion.Run(f, config, base, steps)
    requires f == Motion.Tf2Motion(tf) && tf.math.SqrtLaw() && tf.GivesBack()
    requires !base.haveState && Motion.Rung(config, steps) >= 1 && StepsShow(f, extrinsic, steps, poses)
    requires UnitPoses(poses) && Unit(extrinsic.rotation)
    ensures LastTurn(tf, steps, poses, motion)
  {
    var n := |steps| - 1;
    var before := LastStepIs(f, config, base, steps);
    RawAngularOfPoses(tf, config, before, steps[n].world, steps[n].time, poses[n - 1], poses[n], extrinsic);
  }

  /** In every reachable state, after an interval in range, the raw angular velocity of a tracker is the angular
      velocity of its body between the two poses, whatever the extrinsic; only after an exact half turn it may be that
      of the body given by its other quaternion. */
  lemma RawAngularIsOfTheModel(p: Platform, config: ServerConfig, events: seq<Event>, name: string, tf: Motion.Tf2)
    requires p.motion == Motion.Tf2Motion(tf) && tf.math.SqrtLaw() && tf.GivesBack()
    requires name in Run(p, config, events).registry.tracked
    requires Motion.Rung(MotionSettings(config), EpochSteps(p, config, events, name)) >= 1
    requires Unit(BodyToTracker(config, TrackerName(config, name)).rotation)
    requires UnitPoses(EpochPoses(p, config, events, name))
    ensures LastTurn(tf, EpochSteps(p, config, events, name), EpochPoses(p, config, events, name),
                     Run(p, config, events).registry.tracked[name].motion)
  {
    MotionIsAnEpochRun(p, config, events, name);
    EpochStepsShow(p, config, events, name);
    RunTurns(p.motion, tf, MotionSettings(config), EpochBase(p, config, events, name),
             EpochSteps(p, config, events, name), EpochPoses(p, config, events, name),
             BodyToTracker(config, TrackerName(config, name)),
             Run(p, config, events).registry.tracked[name].motion);
  }

  // Samples.

  /** A sample shows a derivative state: its last transform, velocities, accelerations, flags and interval. */
  ghost predicate ShowsMotion(config: ServerConfig, sample: TrackerSample, d: Motion.Derivatives) {
    && sample.pose == TransformToPose(d.lastTransform)
    && sample.linearVelocity == d.linearVelocity && sample.angularVelocity == d.angularVelocity
    && sample.linearAcceleration == d.linearAcceleration && sample.angularAcceleration == d.angularAcceleration
    && sample.haveVelocity == d.haveVelocity && sample.haveAcceleration == d.haveAcceleration
    && sample.reportInterval == Motion.ReportInterval(d, config.publishRateHz)
  }

  /** Sample `n + j` shows the state after the first `j + 1` steps. */
  ghost predicate TracedAt(f: Motion.MotionFunctions, config: ServerConfig, d: Motion.Derivatives,
                           steps: seq<Motion.Step>, pushed: seq<TrackerSample>, n: nat, j: nat)
    requires j < |steps| && n + j < |pushed|
  {
    ShowsMotion(config, pushed[n + j], Motion.Run(f, MotionSettings(config), d, steps[..j + 1]))
  }

  /** From the `n`-th on, each sample shows the state after one more of the steps. */
  ghost predicate Traced(f: Motion.MotionFunctions, config: ServerConfig, d: Motion.Derivatives,
                         steps: seq<Motion.Step>, pushed: seq<TrackerSample>, n: nat)
  {
    && |pushed| == n + |steps|
    && forall j :: 0 <= j < |steps| ==> TracedAt(f, config, d, steps, pushed, n, j)
  }

  lemma TracedFurther(f: Motion.MotionFunctions, config: ServerConfig, d: Motion.Derivatives, steps: seq<Motion.Step>,
                      pushed: seq<TrackerSample>, n: nat, step: Motion.Step, sample: TrackerSample)
    requires Traced(f, config, d, steps, pushed, n)
    requires ShowsMotion(config, sample, Motion.Run(f, MotionSettings(config), d, steps + [step]))
    ensures Traced(f, config, d, steps + [step], pushed + [sample], n)
  {
    forall j | 0 <= j < |steps| + 1
      ensures TracedAt(f, config, d, steps + [step], pushed + [sample], n, j)
    {
      if j < |steps| {
        assert TracedAt(f, config, d, steps, pushed, n, j);
        assert (steps + [step])[..j + 1] == steps[..j + 1];
      } else {
        assert (steps + [step])[..j + 1] == steps + [step];
      }
    }
  }

  lemma UpdatePushesMotion(f: Motion.MotionFunctions, config: ServerConfig, r: Registry, sample: ModelPose,
                           snapshot: Snapshot) returns (more: TrackerSample)
    requires r.Listed() && sample.name in r.tracked
    ensures var t := UpdateModel(f, config, r, sample, snapshot);
      && sample.name in t.tracked && sample.name in t.histories
      && t.histories[sample.name].pushed == r.histories[sample.name].pushed + [more]
      && ShowsMotion(config, more, t.tracked[sample.name].motion)
  {
    more := SampleOf(config, Moved(f, config, r.tracked[sample.name], sample.pose, snapshot.sampleTime,
                                   snapshot.captureWallTime),
                     snapshot.captureWallTime,
                     SourceSeconds(snapshot.source, snapshot.sampleTime, snapshot.captureWallTime));
  }

  lemma {:induction false} UpdatesTrace(f: Motion.MotionFunctions, config: ServerConfig, r: Registry,
                                        models: seq<ModelPose>, snapshot: Snapshot, name: string)
    requires RegistryInv(r) && name in r.tracked
    ensures var t := UpdateModels(f, config, r, models, snapshot);
      && name in t.histories
      && Traced(f, config, r.tracked[name].motion,
                StepsIn(f, r.tracked[name].bodyToTracker, models, snapshot, name), t.histories[name].pushed,
                |r.histories[name].pushed|)
  {
    if models != [] {
      var front, last, extrinsic := models[..|models| - 1], models[|models| - 1], r.tracked[name].bodyToTracker;
      UpdatesTrace(f, config, r, front, snapshot, name);
      UpdatesKeepInv(f, config, r, front, snapshot);
      UpdatesRunMotion(f, config, r, front, snapshot, name);
      UpdatesRunMotion(f, config, r, models, snapshot, name);
      var t, steps := UpdateModels(f, config, r, front, snapshot), StepsIn(f, extrinsic, front, snapshot, name);
      if last.name == name {
        var step := Motion.Step(f.worldTracker(last.pose, extrinsic), snapshot.sampleTime);
        var more := UpdatePushesMotion(f, config, t, last, snapshot);
        assert StepsIn(f, extrinsic, models, snapshot, name) == steps + [step];
        TracedFurther(f, config, r.tracked[name].motion, steps, t.histories[name].pushed, |r.histories[name].pushed|,
                      step, more);
      } else {
        assert StepsIn(f, extrinsic, models, snapshot, name) == steps;
        if last.name in t.tracked {
          UpdateChangesOne(f, config, t, last, snapshot);
        }
      }
    }
  }

  lemma ProcessTraces(p: Platform, config: ServerConfig, s: ServerState, snapshot: Snapshot, name: string)
    requires RegistryInv(s.registry) && name in Process(p, config, s, snapshot).registry.tracked
    ensures var t := Process(p, config, s, snapshot).registry;
      && name in t.histories && Kept(s, snapshot, name) <= t.histories[name].pushed
      && Traced(p.motion, config, KeptMotion(s, snapshot, name),
                StepsIn(p.motion, t.tracked[name].bodyToTracker, snapshot.models, snapshot, name),
                t.histories[name].pushed, |Kept(s, snapshot, name)|)
  {
    var prepared := Prepared(config, s, snapshot);
    PreparedKeepsInv(config, s, snapshot);
    ProcessKeeps(p, config, s, snapshot);
    ProcessExtends(p, config, s, snapshot, name);
    PreparedMotion(config, s, snapshot, name);
    PreparedHistory(config, s, snapshot, name);
    ClearKeepsHistories(prepared);
    ClearKeepsInv(prepared);
    ClearKeepsMotion(prepared, name);
    assert SameIdentity(prepared.tracked[name], ClearPoses(prepared).tracked[name]);
    assert SameIdentity(prepared.tracked[name], Process(p, config, s, snapshot).registry.tracked[name]);
    UpdatesTrace(p.motion, config, ClearPoses(prepared), snapshot.models, snapshot, name);
  }

  lemma TracesConcatenate(f: Motion.MotionFunctions, config: ServerConfig, d: Motion.Derivatives,
                          steps: seq<Motion.Step>, more: seq<Motion.Step>, kept: seq<TrackerSample>,
                          pushed: seq<TrackerSample>)
    requires Traced(f, config, d, steps, kept, 0) && kept <= pushed
    requires Traced(f, config, Motion.Run(f, MotionSettings(config), d, steps), more, pushed, |kept|)
    ensures Traced(f, config, d, steps + more, pushed, 0)
  {
    forall j | 0 <= j < |steps + more|
      ensures TracedAt(f, config, d, steps + more, pushed, 0, j)
    {
      if j < |steps| {
        assert TracedAt(f, config, d, steps, kept, 0, j);
        assert (steps + more)[..j + 1] == steps[..j + 1] && pushed[j] == kept[j];
      } else {
        var i := j - |steps|;
        assert TracedAt(f, config, Motion.Run(f, MotionSettings(config), d, steps), more, pushed, |kept|, i);
        assert (steps + more)[..j + 1] == steps + more[..i + 1] && pushed[|kept| + i] == pushed[j];
        RunConcatenates(f, MotionSettings(config), d, steps, more[..i + 1]);
      }
    }
  }

  lemma SnapshotTraces(p: Platform, config: ServerConfig, events: seq<Event>, name: string)
    requires events != [] && events[|events| - 1].Snap? && name in Run(p, config, events).registry.tracked
    ensures var front, snapshot := events[..|events| - 1], events[|events| - 1].snapshot;
      var s, pushed := Run(p, config, front), Run(p, config, events).registry.HistoryOf(name).pushed;
      && Kept(s, snapshot, name) <= pushed
      && Traced(p.motion, config, KeptMotion(s, snapshot, name), LastSteps(p, config, events, name), pushed,
                |Kept(s, snapshot, name)|)
  {
    var n := |events| - 1;
    EveryRegistryIsConsistent(p, config, events[..n]);
    ProcessTraces(p, config, Run(p, config, events[..n]), events[n].snapshot, name);
    ExtrinsicIsConfigured(p, config, events, name);
  }

  /** In every reachable state the samples of a model's history are its epoch's derivative steps, one each: sample k
      shows the derivative state after the first k + 1 of them, whatever has been pushed since. */
  lemma {:induction false} EverySampleShowsMotion(p: Platform, config: ServerConfig, events: seq<Event>, name: string)
    requires name in Run(p, config, events).registry.tracked
    ensures !EpochBase(p, config, events, name).haveState
    ensures Traced(p.motion, config, EpochBase(p, config, events, name), EpochSteps(p, config, events, name),
                   Run(p, config, events).registry.HistoryOf(name).pushed, 0)
    decreases |events|, 1
  {
    EpochBaseForgets(p, config, events, name);
    var n := |events| - 1;
    var front := events[..n];
    if events[n].Send? {
      EverySampleShowsMotion(p, config, front, name);
    } else {
      SnapshotTraces(p, config, events, name);
      ResetsWhenEpochBreaks(p, config, events, n);
      if BreaksAt(events, n) {
        assert [] + LastSteps(p, config, events, name) == LastSteps(p, config, events, name);
      } else {
        MotionBefore(p, config, events, name);
        KeptIsTraced(p, config, events, name);
        TracesConcatenate(p.motion, config, EpochBase(p, config, front, name), EpochSteps(p, config, front, name),
                          LastSteps(p, config, events, name),
                          Kept(Run(p, config, front), events[n].snapshot, name),
                          Run(p, config, events).registry.HistoryOf(name).pushed);
      }
    }
  }

  lemma {:induction false} KeptIsTraced(p: Platform, config: ServerConfig, events: seq<Event>, name: string)
    requires events != [] && events[|events| - 1].Snap? && !BreaksAt(events, |events| - 1)
    ensures var front := events[..|events| - 1];
      Traced(p.motion, config, EpochBase(p, config, front, name), EpochSteps(p, config, front, name),
             Kept(Run(p, config, front), events[|events| - 1].snapshot, name), 0)
    decreases |events|, 0
  {
    var front := events[..|events| - 1];
    ResetsWhenEpochBreaks(p, config, events, |events| - 1);
    if name in Run(p, config, front).registry.tracked {
      EverySampleShowsMotion(p, config, front, name);
    } else {
      UntrackedHasNoSteps(p, config, front, name);
    }
  }

  lemma {:induction false} StepsAreMarked(f: Motion.MotionFunctions, extrinsic: Transform, models: seq<ModelPose>,
                                          snapshot: Snapshot, name: string, index: nat)
    ensures |StepsIn(f, extrinsic, models, snapshot, name)| == |Marks(models, name, index)|
    ensures forall k :: 0 <= k < |StepsIn(f, extrinsic, models, snapshot, name)| ==>
      StepsIn(f, extrinsic, models, snapshot, name)[k].time == snapshot.sampleTime
  {
    if models != [] {
      StepsAreMarked(f, extrinsic, models[..|models| - 1], snapshot, name, index);
    }
  }

  /** The steps are taken at the simulation times of the snapshots the samples come from. */
  lemma {:induction false} StepsHaveOrigins(p: Platform, config: ServerConfig, events: seq<Event>, name: string)
    ensures var steps, origins := EpochSteps(p, config, events, name), Origins(p, config, events, name);
      && |steps| == |origins|
      && forall k :: 0 <= k < |origins| ==>
        && origins[k] < |events| && events[origins[k]].Snap?
        && steps[k].time == events[origins[k]].snapshot.sampleTime
  {
    if events != [] {
      var n := |events| - 1;
      StepsHaveOrigins(p, config, events[..n], name);
      if events[n].Snap? {
        MarksAre(events[n].snapshot.models, name, n);
        StepsAreMarked(p.motion, BodyToTracker(config, TrackerName(config, name)), events[n].snapshot.models,
                       events[n].snapshot, name, n);
      }
    }
  }
}
