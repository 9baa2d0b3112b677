/** The flags, velocities and accelerations of a sample, told from the poses and the simulation times of the samples
    before it. */
module SampleMotion {
  import opened Geometry
  import opened SampleHistory
  import opened ServerConfigs
  import opened TrackerStates
  import opened ServerRuns
  import opened Epochs
  import opened ServerMotion
  import Motion

  /** The interval that leads to number `k` is neither empty nor too long. */
  predicate Close(timeoutS: real, times: seq<real>, k: nat)
    requires k < |times|
  {
    k >= 1 && 0.000001 < times[k] - times[k - 1] <= timeoutS
  }

  /** From number `s` to number `k` every interval is, and the one that leads to `s` is not. */
  ghost predicate Unbroken(timeoutS: real, times: seq<real>, s: nat, k: nat)
    requires s <= k < |times|
  {
    !Close(timeoutS, times, s) && forall i :: s < i <= k ==> Close(timeoutS, times, i)
  }

  function Quotient(x: real, dt: real): real {
    if dt == 0.0 then 0.0 else x / dt
  }

  function Difference(after: Vector3, before: Vector3, dt: real): Vector3 {
    Vector3(Quotient(after.x - before.x, dt), Quotient(after.y - before.y, dt), Quotient(after.z - before.z, dt))
  }

  function Interval(times: seq<real>, k: nat): real
    requires 1 <= k < |times|
  {
    times[k] - times[k - 1]
  }

  function RawLinear(poses: seq<Pose>, times: seq<real>, k: nat): Vector3
    requires 1 <= k < |poses| == |times|
  {
    Difference(poses[k].position, poses[k - 1].position, Interval(times, k))
  }

  function RawAngular(f: Motion.MotionFunctions, poses: seq<Pose>, times: seq<real>, k: nat): Vector3
    requires 1 <= k < |poses| == |times|
  {
    f.angularVelocity(poses[k - 1].orientation, poses[k].orientation, Interval(times, k))
  }

  /** The raw velocities from number `s` to number `k`. */
  function LinearVelocities(poses: seq<Pose>, times: seq<real>, s: nat, k: nat): seq<Motion.FilterInput>
    requires s <= k < |poses| == |times|
  {
    if k == s then []
    else LinearVelocities(poses, times, s, k - 1) + [Motion.FilterInput(RawLinear(poses, times, k), Interval(times, k))]
  }

  function AngularVelocities(f: Motion.MotionFunctions, poses: seq<Pose>, times: seq<real>, s: nat, k: nat):
    seq<Motion.FilterInput>
    requires s <= k < |poses| == |times|
  {
    if k == s then []
    else AngularVelocities(f, poses, times, s, k - 1) +
         [Motion.FilterInput(RawAngular(f, poses, times, k), Interval(times, k))]
  }

  /** The raw accelerations: there is none from the first raw velocity to itself. */
  function LinearAccelerations(poses: seq<Pose>, times: seq<real>, s: nat, k: nat): seq<Motion.FilterInput>
    requires s <= k < |poses| == |times|
  {
    if k <= s + 1 then []
    else LinearAccelerations(poses, times, s, k - 1) +
         [Motion.FilterInput(Difference(RawLinear(poses, times, k), RawLinear(poses, times, k - 1), Interval(times, k)),
                             Interval(times, k))]
  }

  function AngularAccelerations(f: Motion.MotionFunctions, poses: seq<Pose>, times: seq<real>, s: nat, k: nat):
    seq<Motion.FilterInput>
    requires s <= k < |poses| == |times|
  {
    if k <= s + 1 then []
    else AngularAccelerations(f, poses, times, s, k - 1) +
         [Motion.FilterInput(Difference(RawAngular(f, poses, times, k), RawAngular(f, poses, times, k - 1),
                                        Interval(times, k)),
                             Interval(times, k))]
  }

  // One run.

  /** The steps are those poses at those times. */
  ghost predicate StepsAre(steps: seq<Motion.Step>, poses: seq<Pose>, times: seq<real>) {
    && |steps| == |poses| == |times|
    && forall j :: 0 <= j < |steps| ==> IsStep(steps[j], poses[j], times[j])
  }

  ghost predicate IsStep(step: Motion.Step, pose: Pose, time: real) {
    pose == Pose(step.world.origin, step.world.rotation) && step.time == time
  }

  /** What the filters have been fed, and what was last. */
  ghost predicate Fed(f: Motion.MotionFunctions, d: Motion.Derivatives, poses: seq<Pose>, times: seq<real>, s: nat,
                      k: nat)
    requires s <= k < |poses| == |times|
  {
    && d.linearVelocityInputs == LinearVelocities(poses, times, s, k)
    && d.angularVelocityInputs == AngularVelocities(f, poses, times, s, k)
    && d.linearAccelerationInputs == LinearAccelerations(poses, times, s, k)
    && d.angularAccelerationInputs == AngularAccelerations(f, poses, times, s, k)
    && (k > s ==> d.previousRawLinear == RawLinear(poses, times, k)
                  && d.previousRawAngular == RawAngular(f, poses, times, k))
  }

  ghost predicate Standing(d: Motion.Derivatives, times: seq<real>, s: nat, k: nat)
    requires s <= k < |times|
  {
    && (d.haveVelocity <==> k > s) && (d.haveRawVelocity <==> k > s) && (d.haveAcceleration <==> k > s + 1)
    && d.lastDt == (if k > s then Interval(times, k) else 0.0)
  }

  /** The state after step `k` of an unbroken stretch from step `s`. */
  ghost predicate StateIs(f: Motion.MotionFunctions, config: Motion.MotionConfig, d: Motion.Derivatives,
                          poses: seq<Pose>, times: seq<real>, s: nat, k: nat)
    requires s <= k < |poses| == |times|
  {
    && d.haveState && d.lastTime == times[k] && Pose(d.lastTransform.origin, d.lastTransform.rotation) == poses[k]
    && Standing(d, times, s, k) && Fed(f, d, poses, times, s, k)
    && d.linearVelocity == (if k > s then f.lowPass(config.velocityCutoffHz, d.linearVelocityInputs) else ZERO)
    && d.angularVelocity == (if k > s then f.lowPass(config.velocityCutoffHz, d.angularVelocityInputs) else ZERO)
    && d.linearAcceleration ==
       (if k > s + 1 then f.lowPass(config.accelerationCutoffHz, d.linearAccelerationInputs) else ZERO)
    && d.angularAcceleration ==
       (if k > s + 1 then f.lowPass(config.accelerationCutoffHz, d.angularAccelerationInputs) else ZERO)
  }

  lemma StepStarts(f: Motion.MotionFunctions, config: Motion.MotionConfig, d: Motion.Derivatives,
                   steps: seq<Motion.Step>, poses: seq<Pose>, times: seq<real>, k: nat)
    requires StepsAre(steps, poses, times) && k < |steps| && !Close(config.resetTimeoutS, times, k)
    requires if k == 0 then !d.haveState else d.lastTime == times[k - 1]
    ensures StateIs(f, config, Motion.Updated(f, config, d, steps[k].world, steps[k].time), poses, times, k, k)
  {
    assert IsStep(steps[k], poses[k], times[k]);
  }

  lemma StepContinues(f: Motion.MotionFunctions, config: Motion.MotionConfig, d: Motion.Derivatives,
                      steps: seq<Motion.Step>, poses: seq<Pose>, times: seq<real>, s: nat, k: nat)
    requires StepsAre(steps, poses, times) && s < k < |steps| && Close(config.resetTimeoutS, times, k)
    requires StateIs(f, config, d, poses, times, s, k - 1)
    ensures StateIs(f, config, Motion.Updated(f, config, d, steps[k].world, steps[k].time), poses, times, s, k)
  {
    assert IsStep(steps[k], poses[k], times[k]);
  }

  lemma RunStarts(f: Motion.MotionFunctions, config: Motion.MotionConfig, base: Motion.Derivatives,
                  steps: seq<Motion.Step>, poses: seq<Pose>, times: seq<real>, k: nat)
    requires !base.haveState && StepsAre(steps, poses, times) && k < |steps|
    requires !Close(config.resetTimeoutS, times, k)
    ensures StateIs(f, config, Motion.Run(f, config, base, steps[..k + 1]), poses, times, k, k)
  {
    var before := Motion.Run(f, config, base, steps[..k]);
    assert steps[..k + 1][..k] == steps[..k];
    if k > 0 {
      assert IsStep(steps[k - 1], poses[k - 1], times[k - 1]);
      Motion.DerivativeLadder(f, config, base, steps[..k]);
    }
    StepStarts(f, config, before, steps, poses, times, k);
  }

  /** Whatever was before, the state after step `k` depends on the steps since the last break only. */
  lemma {:induction false} RunShows(f: Motion.MotionFunctions, config: Motion.MotionConfig, base: Motion.Derivatives,
                                    steps: seq<Motion.Step>, poses: seq<Pose>, times: seq<real>, s: nat, k: nat)
    requires !base.haveState && StepsAre(steps, poses, times) && s <= k < |steps|
    requires Unbroken(config.resetTimeoutS, times, s, k)
    ensures StateIs(f, config, Motion.Run(f, config, base, steps[..k + 1]), poses, times, s, k)
  {
    if k == s {
      RunStarts(f, config, base, steps, poses, times, k);
    } else {
      RunShows(f, config, base, steps, poses, times, s, k - 1);
      assert steps[..k + 1][..k] == steps[..k];
      StepContinues(f, config, Motion.Run(f, config, base, steps[..k]), steps, poses, times, s, k);
    }
  }

  // Samples.

  function PosesOf(pushed: seq<TrackerSample>): seq<Pose> {
    seq(|pushed|, k requires 0 <= k < |pushed| => pushed[k].pose)
  }

  /** The simulation times of the snapshots the samples were taken from. */
  function TimesOf(events: seq<Event>, origins: seq<nat>): seq<real> {
    seq(|origins|, k requires 0 <= k < |origins| =>
      if origins[k] < |events| && events[origins[k]].Snap? then events[origins[k]].snapshot.sampleTime else 0.0)
  }

  lemma SamplesAreSteps(p: Platform, config: ServerConfig, events: seq<Event>, name: string)
    requires name in Run(p, config, events).registry.tracked
    ensures StepsAre(EpochSteps(p, config, events, name),
                     PosesOf(Run(p, config, events).registry.HistoryOf(name).pushed),
                     TimesOf(events, Origins(p, config, events, name)))
  {
    var pushed, steps := Run(p, config, events).registry.HistoryOf(name).pushed, EpochSteps(p, config, events, name);
    var base := EpochBase(p, config, events, name);
    EverySampleShowsMotion(p, config, events, name);
    StepsHaveOrigins(p, config, events, name);
    forall j | 0 <= j < |steps|
      ensures IsStep(steps[j], PosesOf(pushed)[j], TimesOf(events, Origins(p, config, events, name))[j])
    {
      assert TracedAt(p.motion, config, base, steps, pushed, 0, j);
      Motion.DerivativeLadder(p.motion, MotionSettings(config), base, steps[..j + 1]);
    }
  }

  /** A sample whose last break is at number `s`: its flags, its interval, and its velocities and accelerations, which
      are the low-passed differences of the poses since, linear from positions and angular from orientations. */
  ghost predicate ShowsDerivatives(f: Motion.MotionFunctions, config: ServerConfig, pushed: seq<TrackerSample>,
                                   times: seq<real>, s: nat, k: nat)
    requires s <= k < |pushed| == |times|
  {
    var sample, poses := pushed[k], PosesOf(pushed);
    && sample.linearVelocity ==
       (if k > s then f.lowPass(config.velocityCutoffHz, LinearVelocities(poses, times, s, k)) else ZERO)
    && sample.angularVelocity ==
       (if k > s then f.lowPass(config.velocityCutoffHz, AngularVelocities(f, poses, times, s, k)) else ZERO)
    && sample.linearAcceleration ==
       (if k > s + 1 then f.lowPass(config.accelerationCutoffHz, LinearAccelerations(poses, times, s, k)) else ZERO)
    && sample.angularAcceleration ==
       (if k > s + 1 then f.lowPass(config.accelerationCutoffHz, AngularAccelerations(f, poses, times, s, k))
        else ZERO)
  }

  lemma SampleState(p: Platform, config: ServerConfig, events: seq<Event>, name: string, s: nat, k: nat)
    requires name in Run(p, config, events).registry.tracked
    requires s <= k < |Run(p, config, events).registry.HistoryOf(name).pushed|
    requires |TimesOf(events, Origins(p, config, events, name))| ==
             |Run(p, config, events).registry.HistoryOf(name).pushed|
    requires Unbroken(config.derivativeResetTimeoutS, TimesOf(events, Origins(p, config, events, name)), s, k)
    ensures var pushed := Run(p, config, events).registry.HistoryOf(name).pushed;
      exists d: Motion.Derivatives :: ShowsMotion(config, pushed[k], d)
           && StateIs(p.motion, MotionSettings(config), d, PosesOf(pushed),
                      TimesOf(events, Origins(p, config, events, name)), s, k)
  {
    var pushed, steps := Run(p, config, events).registry.HistoryOf(name).pushed, EpochSteps(p, config, events, name);
    var base := EpochBase(p, config, events, name);
    EverySampleShowsMotion(p, config, events, name);
    SamplesAreSteps(p, config, events, name);
    assert TracedAt(p.motion, config, base, steps, pushed, 0, k);
    RunShows(p.motion, MotionSettings(config), base, steps, PosesOf(pushed),
             TimesOf(events, Origins(p, config, events, name)), s, k);
  }

  /** In every reachable state a sample's velocities and accelerations are those low-passed differences, over the
      samples since the last interval that was empty or too long. */
  lemma SampleDerivativesAre(p: Platform, config: ServerConfig, events: seq<Event>, name: string, s: nat, k: nat)
    requires name in Run(p, config, events).registry.tracked
    requires s <= k < |Run(p, config, events).registry.HistoryOf(name).pushed|
    ensures |TimesOf(events, Origins(p, config, events, name))| ==
            |Run(p, config, events).registry.HistoryOf(name).pushed|
    ensures var times := TimesOf(events, Origins(p, config, events, name));
      Unbroken(config.derivativeResetTimeoutS, times, s, k) ==>
        ShowsDerivatives(p.motion, config, Run(p, config, events).registry.HistoryOf(name).pushed, times, s, k)
  {
    SamplesAreSteps(p, config, events, name);
    if Unbroken(config.derivativeResetTimeoutS, TimesOf(events, Origins(p, config, events, name)), s, k) {
      SampleState(p, config, events, name, s, k);
    }
  }

  lemma {:induction false} LastBreak(timeoutS: real, times: seq<real>, k: nat) returns (s: nat)
    requires k < |times|
    ensures s <= k && Unbroken(timeoutS, times, s, k)
  {
    if Close(timeoutS, times, k) {
      s := LastBreak(timeoutS, times, k - 1);
    } else {
      s := k;
    }
  }

  /** A sample has a velocity exactly if it is more than a microsecond and no more than the timeout later than the one
      before it, and an acceleration exactly if that one is too; its report interval is that distance, or without a
      velocity one period. */
  ghost predicate FlagsAre(sample: TrackerSample, t: seq<real>, k: nat, timeoutS: real, rateHz: real)
    requires k < |t| && rateHz > 0.0
  {
    && (sample.haveVelocity <==> k >= 1 && 0.000001 < t[k] - t[k - 1] <= timeoutS)
    && (sample.haveAcceleration <==> sample.haveVelocity && k >= 2 && 0.000001 < t[k - 1] - t[k - 2] <= timeoutS)
    && sample.reportInterval == (if sample.haveVelocity then t[k] - t[k - 1] else 1.0 / rateHz)
  }

  lemma StandingShows(config: ServerConfig, sample: TrackerSample, d: Motion.Derivatives, times: seq<real>, s: nat,
                      k: nat)
    requires config.publishRateHz > 0.0 && s <= k < |times| && Unbroken(config.derivativeResetTimeoutS, times, s, k)
    requires ShowsMotion(config, sample, d) && Standing(d, times, s, k)
    ensures FlagsAre(sample, times, k, config.derivativeResetTimeoutS, config.publishRateHz)
  {
    assert k > s ==> Close(config.derivativeResetTimeoutS, times, k);
    assert k > s + 1 ==> Close(config.derivativeResetTimeoutS, times, k - 1);
  }

  /** In every reachable state that holds of each sample of a history, where the times are the simulation times of the
      snapshots the samples were taken from. */
  lemma SampleFlagsAre(p: Platform, config: ServerConfig, events: seq<Event>, name: string, k: nat)
    requires config.publishRateHz > 0.0 && name in Run(p, config, events).registry.tracked
    requires k < |Run(p, config, events).registry.HistoryOf(name).pushed|
    ensures |TimesOf(events, Origins(p, config, events, name))| ==
            |Run(p, config, events).registry.HistoryOf(name).pushed|
    ensures FlagsAre(Run(p, config, events).registry.HistoryOf(name).pushed[k],
                     TimesOf(events, Origins(p, config, events, name)), k,
                     config.derivativeResetTimeoutS, config.publishRateHz)
  {
    SamplesAreSteps(p, config, events, name);
    var pushed := Run(p, config, events).registry.HistoryOf(name).pushed;
    var times := TimesOf(events, Origins(p, config, events, name));
    var s := LastBreak(config.derivativeResetTimeoutS, times, k);
    SampleState(p, config, events, name, s, k);
    var d: Motion.Derivatives :| ShowsMotion(config, pushed[k], d)
      && StateIs(p.motion, MotionSettings(config), d, PosesOf(pushed), times, s, k);
    StandingShows(config, pushed[k], d, times, s, k);
  }
}
