/** Velocities and accelerations by finite differences of successive tracker transforms. */
module Motion {
  import opened Numerics
  import opened Geometry

  datatype FilterInput = FilterInput(value: Vector3, dt: real)

  /** What the derivative code calls: the world transform of a tracker from a body pose and an extrinsic,
      the angular velocity between two rotations, and a low-pass filter, whose output is some function of
      its cutoff and of the inputs since its last reset. */
  datatype MotionFunctions = MotionFunctions(
    worldTracker: (Pose, Transform) -> Transform,
    angularVelocity: (Quaternion, Quaternion, real) -> Vector3,
    lowPass: (real, seq<FilterInput>) -> Vector3)

  /** What the server takes from tf2 and its filters.  A transform holds a rotation matrix; `giveBack` is the
      quaternion that is read from the matrix of a given one. */
  datatype Tf2 = Tf2(
    math: RealFunctions,
    giveBack: Quaternion -> Quaternion,
    angle: Quaternion -> real,
    axis: Quaternion -> Vector3,
    lowPass: (real, seq<FilterInput>) -> Vector3)
  {
    /** A unit quaternion and its negative have one matrix, and either may be read from it. */
    ghost predicate GivesBack() {
      forall q {:trigger giveBack(q)} :: Norm2(q) == 1.0 ==> giveBack(q) == q || giveBack(q) == Negate(q)
    }
  }

  /** The functions the server uses.  It never asks for the angular velocity over an empty interval. */
  function Tf2Motion(tf: Tf2): MotionFunctions {
    MotionFunctions(
      (pose, extrinsic) => ReadBack(tf, Compose(PoseToTransform(tf.math, pose), extrinsic)),
      (previous, current, dt) =>
        if dt == 0.0 then ZERO else AngularVelocityBetween(tf.math, tf.angle, tf.axis, previous, current, dt),
      tf.lowPass)
  }

  function ReadBack(tf: Tf2, transform: Transform): Transform {
    Transform(tf.giveBack(transform.rotation), transform.origin)
  }

  datatype MotionConfig = MotionConfig(resetTimeoutS: real, velocityCutoffHz: real, accelerationCutoffHz: real)

  datatype Derivatives = Derivatives(
    lastTransform: Transform,
    lastTime: real,
    lastDt: real,
    linearVelocity: Vector3,
    angularVelocity: Vector3,
    linearAcceleration: Vector3,
    angularAcceleration: Vector3,
    previousRawLinear: Vector3,
    previousRawAngular: Vector3,
    linearVelocityInputs: seq<FilterInput>,
    angularVelocityInputs: seq<FilterInput>,
    linearAccelerationInputs: seq<FilterInput>,
    angularAccelerationInputs: seq<FilterInput>,
    haveState: bool,
    haveRawVelocity: bool,
    haveVelocity: bool,
    haveAcceleration: bool)

  const AT_ORIGIN := Transform(IDENTITY, ZERO)

  const NO_MOTION :=
    Derivatives(AT_ORIGIN, 0.0, 0.0, ZERO, ZERO, ZERO, ZERO, ZERO, ZERO, [], [], [], [], false, false, false, false)

  /** The rotation from `previous` to `current`, with a nonnegative scalar part. */
  function CanonicalDelta(math: RealFunctions, previous: Quaternion, current: Quaternion): Quaternion {
    var delta := Normalize(math, Product(current, Conjugate(previous)));
    if delta.w < 0.0 then Negate(delta) else delta
  }

  function AngularVelocityBetween(math: RealFunctions, angle: Quaternion -> real, axis: Quaternion -> Vector3,
                                  previous: Quaternion, current: Quaternion, dt: real): Vector3
    requires dt != 0.0
  {
    var delta := CanonicalDelta(math, previous, current);
    if Abs(angle(delta)) < 0.000000001 then ZERO else Times(axis(delta), angle(delta) / dt)
  }

  predicate InRange(config: MotionConfig, dt: real) {
    0.000001 < dt <= config.resetTimeoutS
  }

  function Initialized(d: Derivatives, world: Transform, time: real): Derivatives {
    Derivatives(world, time, 0.0, ZERO, ZERO, ZERO, ZERO, ZERO, ZERO, [], [], [], [], true, false, false, false)
  }

  function Differentiated(f: MotionFunctions, config: MotionConfig, d: Derivatives, world: Transform, time: real):
    Derivatives
    requires time != d.lastTime
  {
    var dt := time - d.lastTime;
    var rawLinear := Over(Subtract(world.origin, d.lastTransform.origin), dt);
    var rawAngular := f.angularVelocity(d.lastTransform.rotation, world.rotation, dt);
    var linearInputs := d.linearVelocityInputs + [FilterInput(rawLinear, dt)];
    var angularInputs := d.angularVelocityInputs + [FilterInput(rawAngular, dt)];
    var moved := d.(
      linearVelocity := f.lowPass(config.velocityCutoffHz, linearInputs),
      angularVelocity := f.lowPass(config.velocityCutoffHz, angularInputs),
      linearVelocityInputs := linearInputs,
      angularVelocityInputs := angularInputs,
      previousRawLinear := rawLinear,
      previousRawAngular := rawAngular,
      lastTransform := world,
      lastTime := time,
      lastDt := dt,
      haveRawVelocity := true,
      haveVelocity := true);
    if !d.haveRawVelocity then moved
    else
      var linear := d.linearAccelerationInputs +
                    [FilterInput(Over(Subtract(rawLinear, d.previousRawLinear), dt), dt)];
      var angular := d.angularAccelerationInputs +
                     [FilterInput(Over(Subtract(rawAngular, d.previousRawAngular), dt), dt)];
      moved.(
        linearAcceleration := f.lowPass(config.accelerationCutoffHz, linear),
        angularAcceleration := f.lowPass(config.accelerationCutoffHz, angular),
        linearAccelerationInputs := linear,
        angularAccelerationInputs := angular,
        haveAcceleration := true)
  }

  function Updated(f: MotionFunctions, config: MotionConfig, d: Derivatives, world: Transform,
                   time: real): Derivatives
  {
    if !d.haveState || !InRange(config, time - d.lastTime) then Initialized(d, world, time)
    else Differentiated(f, config, d, world, time)
  }

  /** What a measurement reset does to the derivative state: flags only. */
  function Forgotten(d: Derivatives): Derivatives {
    d.(haveState := false, haveRawVelocity := false, haveVelocity := false, haveAcceleration := false)
  }

  function ReportInterval(d: Derivatives, publishRateHz: real): real {
    if d.lastDt > 0.0 then d.lastDt
    else if publishRateHz > 0.0 then 1.0 / publishRateHz
    else 0.0
  }

  // Runs

  datatype Step = Step(world: Transform, time: real)

  function Run(f: MotionFunctions, config: MotionConfig, d: Derivatives, steps: seq<Step>): Derivatives {
    if steps == [] then d
    else
      var last := steps[|steps| - 1];
      Updated(f, config, Run(f, config, d, steps[..|steps| - 1]), last.world, last.time)
  }

  /** How many successive intervals up to the last step are in range. */
  function Rung(config: MotionConfig, steps: seq<Step>): (k: nat)
    ensures steps != [] ==> k < |steps|
  {
    var n := |steps|;
    if n <= 1 then 0
    else if InRange(config, steps[n - 1].time - steps[n - 2].time) then Rung(config, steps[..n - 1]) + 1
    else 0
  }

  function Integral(inputs: seq<FilterInput>): Vector3 {
    if inputs == [] then ZERO
    else
      var last := inputs[|inputs| - 1];
      Add(Integral(inputs[..|inputs| - 1]), Times(last.value, last.dt))
  }

  /** From any state whose flags were cleared, velocity is present after one in-range interval and
      acceleration after two; each filter has been fed once per interval since. */
  lemma {:induction false} DerivativeLadder(f: MotionFunctions, config: MotionConfig, d: Derivatives, steps: seq<Step>)
    requires !d.haveState && steps != []
    ensures var k, r := Rung(config, steps), Run(f, config, d, steps);
      && r.haveState
      && (r.haveRawVelocity <==> k >= 1) && (r.haveVelocity <==> k >= 1) && (r.haveAcceleration <==> k >= 2)
      && |r.linearVelocityInputs| == |r.angularVelocityInputs| == k
      && |r.linearAccelerationInputs| == |r.angularAccelerationInputs| == (if k == 0 then 0 else k - 1)
      && r.lastTime == steps[|steps| - 1].time && r.lastTransform == steps[|steps| - 1].world
      && r.lastDt == (if k == 0 then 0.0 else steps[|steps| - 1].time - steps[|steps| - 2].time)
  {
    if |steps| > 1 {
      DerivativeLadder(f, config, d, steps[..|steps| - 1]);
    }
  }

  lemma QuotientTimes(v: Vector3, dt: real)
    requires dt != 0.0
    ensures Times(Over(v, dt), dt) == v
  {}

  lemma IntegralOfAppended(inputs: seq<FilterInput>, last: FilterInput)
    ensures Integral(inputs + [last]) == Add(Integral(inputs), Times(last.value, last.dt))
  {
    assert (inputs + [last])[..|inputs|] == inputs;
  }

  /** The step that initialised the state the last one belongs to: before it an interval was out of range. */
  function Start(config: MotionConfig, steps: seq<Step>): (start: nat)
    requires steps != []
    ensures start < |steps|
  {
    |steps| - 1 - Rung(config, steps)
  }

  lemma StartStays(config: MotionConfig, steps: seq<Step>)
    requires Rung(config, steps) > 0
    ensures |steps| >= 2
    ensures var front := steps[..|steps| - 1];
      Start(config, front) == Start(config, steps) && front[Start(config, front)] == steps[Start(config, steps)]
  {}

  lemma {:induction false} VelocityTelescopes(f: MotionFunctions, config: MotionConfig, d: Derivatives,
                                              steps: seq<Step>)
    requires !d.haveState && steps != []
    ensures Integral(Run(f, config, d, steps).linearVelocityInputs) ==
            Subtract(steps[|steps| - 1].world.origin, steps[Start(config, steps)].world.origin)
  {
    DerivativeLadder(f, config, d, steps);
    var n := |steps| - 1;
    if Rung(config, steps) > 0 {
      var front := steps[..n];
      VelocityTelescopes(f, config, d, front);
      DerivativeLadder(f, config, d, front);
      var before, after := Run(f, config, d, front), Run(f, config, d, steps);
      var start, last := steps[Start(config, steps)].world.origin, steps[n - 1].world.origin;
      var now := steps[n].world.origin;
      assert Integral(before.linearVelocityInputs) == Subtract(last, start) by {
        StartStays(config, steps);
        assert front[n - 1] == steps[n - 1];
      }
      assert before.lastTransform.origin == last;
      StepIntegrals(f, config, before, steps[n].world, steps[n].time);
      assert Integral(after.linearVelocityInputs) == Add(Subtract(last, start), Subtract(now, last));
      Chained(start, last, now);
    } else {
      assert Run(f, config, d, steps).linearVelocityInputs == [] && steps[Start(config, steps)] == steps[n];
      Chained(steps[n].world.origin, steps[n].world.origin, steps[n].world.origin);
    }
  }

  lemma {:induction false} AccelerationTelescopes(f: MotionFunctions, config: MotionConfig, d: Derivatives,
                                                  steps: seq<Step>)
    requires !d.haveState && steps != [] && Rung(config, steps) > 0
    ensures var r := Run(f, config, d, steps);
      && r.linearVelocityInputs != []
      && Integral(r.linearAccelerationInputs) == Subtract(r.previousRawLinear, r.linearVelocityInputs[0].value)
  {
    DerivativeLadder(f, config, d, steps);
    var n := |steps| - 1;
    var front := steps[..n];
    DerivativeLadder(f, config, d, front);
    var before, after := Run(f, config, d, front), Run(f, config, d, steps);
    StepIntegrals(f, config, before, steps[n].world, steps[n].time);
    if Rung(config, front) > 0 {
      AccelerationTelescopes(f, config, d, front);
    }
    Chained(after.linearVelocityInputs[0].value, before.previousRawLinear, after.previousRawLinear);
  }

  /** Raw velocity integrates to the displacement since the initialising step, and raw acceleration to the
      change of raw velocity since the first one. */
  lemma Telescoping(f: MotionFunctions, config: MotionConfig, d: Derivatives, steps: seq<Step>)
    requires !d.haveState && steps != []
    ensures var k, r, n := Rung(config, steps), Run(f, config, d, steps), |steps| - 1;
      && Integral(r.linearVelocityInputs) ==
         Subtract(steps[n].world.origin, steps[Start(config, steps)].world.origin)
      && |r.linearVelocityInputs| == k
      && (k > 0 ==> Integral(r.linearAccelerationInputs) ==
                    Subtract(r.previousRawLinear, r.linearVelocityInputs[0].value))
  {
    DerivativeLadder(f, config, d, steps);
    VelocityTelescopes(f, config, d, steps);
    if Rung(config, steps) > 0 {
      AccelerationTelescopes(f, config, d, steps);
    }
  }

  lemma Chained(a: Vector3, b: Vector3, c: Vector3)
    ensures Add(Subtract(b, a), Subtract(c, b)) == Subtract(c, a)
    ensures Subtract(a, a) == ZERO
  {}

  /** Where a derivative state stands on the ladder after the given steps. */
  ghost predicate Climbed(config: MotionConfig, steps: seq<Step>, d: Derivatives)
    requires steps != []
  {
    var k, n := Rung(config, steps), |steps| - 1;
    && (d.haveVelocity <==> k >= 1) && (d.haveAcceleration <==> k >= 2)
    && |d.linearVelocityInputs| == k
    && Integral(d.linearVelocityInputs) ==
       Subtract(steps[n].world.origin, steps[Start(config, steps)].world.origin)
    && (k > 0 ==> Integral(d.linearAccelerationInputs) ==
                  Subtract(d.previousRawLinear, d.linearVelocityInputs[0].value))
  }

  lemma RunClimbs(f: MotionFunctions, config: MotionConfig, d: Derivatives, steps: seq<Step>)
    requires !d.haveState && steps != []
    ensures Climbed(config, steps, Run(f, config, d, steps))
  {
    DerivativeLadder(f, config, d, steps);
    Telescoping(f, config, d, steps);
  }

  lemma StepIntegrals(f: MotionFunctions, config: MotionConfig, d: Derivatives, world: Transform, time: real)
    requires time != d.lastTime
    ensures var r := Differentiated(f, config, d, world, time);
      && Integral(r.linearVelocityInputs) ==
         Add(Integral(d.linearVelocityInputs), Subtract(world.origin, d.lastTransform.origin))
      && r.linearVelocityInputs == d.linearVelocityInputs + [FilterInput(r.previousRawLinear, time - d.lastTime)]
      && Integral(r.linearAccelerationInputs) ==
         (if d.haveRawVelocity
          then Add(Integral(d.linearAccelerationInputs), Subtract(r.previousRawLinear, d.previousRawLinear))
          else Integral(d.linearAccelerationInputs))
  {
    var dt := time - d.lastTime;
    var moved := Subtract(world.origin, d.lastTransform.origin);
    var raw := Over(moved, dt);
    QuotientTimes(moved, dt);
    IntegralOfAppended(d.linearVelocityInputs, FilterInput(raw, dt));
    var gained := Subtract(raw, d.previousRawLinear);
    QuotientTimes(gained, dt);
    IntegralOfAppended(d.linearAccelerationInputs, FilterInput(Over(gained, dt), dt));
  }

  /** Every sample pushed after an update carries a positive report interval. */
  lemma ReportIntervalIsPositive(f: MotionFunctions, config: MotionConfig, d: Derivatives, world: Transform,
                                 time: real, publishRateHz: real)
    requires publishRateHz > 0.0
    ensures var r := Updated(f, config, d, world, time);
      && r.lastDt >= 0.0
      && ReportInterval(r, publishRateHz) > 0.0
      && (r.haveVelocity ==> ReportInterval(r, publishRateHz) == time - d.lastTime)
  {}
}
