/** The slow delay term is an exactly discretised first-order process. */
module SlowDrift {
  import opened Numerics
  import opened MeasurementDelays

  /** The variance a step with this mean factor must add to keep the stationary variance. */
  function NoiseVariance(variance: real, alpha: real): real {
    variance * (1.0 - alpha * alpha)
  }

  lemma FactorInUnitInterval(math: RealFunctions, tau: real, dt: real)
    requires math.ExpLaw() && tau > 0.0 && dt >= 0.0
    ensures 0.0 < SlowFactor(math, tau, dt) <= 1.0
  {
    RatioSign(dt, tau);
  }

  lemma RatioSign(dt: real, tau: real)
    requires tau > 0.0 && dt >= 0.0
    ensures -dt / tau <= 0.0
  {
    var ratio := dt / tau;
    assert ratio * tau == dt;
    NonnegativeFactor(ratio, tau);
    assert -dt / tau == -ratio;
  }

  lemma SquareInUnitInterval(a: real)
    requires 0.0 <= a <= 1.0
    ensures 0.0 <= a * a <= 1.0
  {
    assert 0.0 <= a * a;
    RealMulMono(a, 1.0, a);
    assert a * a <= a;
  }

  /** The noise the sampler draws has exactly that variance. */
  lemma SigmaIsExact(math: RealFunctions, stddev: real, tau: real, dt: real)
    requires math.ExpLaw() && math.SqrtLaw() && tau > 0.0 && dt >= 0.0
    ensures var alpha := SlowFactor(math, tau, dt);
      SlowSigma(math, stddev, alpha) * SlowSigma(math, stddev, alpha) == NoiseVariance(stddev * stddev, alpha)
  {
    var alpha := SlowFactor(math, tau, dt);
    FactorInUnitInterval(math, tau, dt);
    SquareInUnitInterval(alpha);
    var root := math.sqrt(1.0 - alpha * alpha);
    assert (stddev * root) * (stddev * root) == stddev * stddev * (root * root);
  }

  /** The sampler's next slow value, in terms of its previous one and a standard normal draw. */
  lemma SlowStep(math: RealFunctions, engine: Engine, seed: nat, position: nat, config: DelayComponent,
                 state: ComponentState, now: real)
    requires state.haveTime && config.slowStddevMs > 0.0 && config.slowTauS > 0.0
    requires math.ExpLaw() && math.SqrtLaw() && now >= state.lastTime
    ensures var dt := now - state.lastTime;
      var z := if SlowSigma(math, config.slowStddevMs, SlowFactor(math, config.slowTauS, dt)) > 0.0
               then engine.normal(seed, position).value else 0.0;
      SampleComponent(math, engine, seed, position, config, state, now).state.slowMs ==
      SlowFactor(math, config.slowTauS, dt) * state.slowMs +
      SlowSigma(math, config.slowStddevMs, SlowFactor(math, config.slowTauS, dt)) * z
  {
    var alpha := SlowFactor(math, config.slowTauS, now - state.lastTime);
    FactorInUnitInterval(math, config.slowTauS, now - state.lastTime);
    SquareInUnitInterval(alpha);
    var root := math.sqrt(1.0 - alpha * alpha);
    RealMulMono(0.0, root, config.slowStddevMs);
  }

  /** Two steps compose to one: the mean factors multiply, and the first step's noise, damped by the second
      factor, adds to the second step's noise in variance. */
  lemma StepsCompose(math: RealFunctions, variance: real, tau: real, dt1: real, dt2: real)
    requires math.ExpLaw() && tau > 0.0
    ensures var a1, a2, a := SlowFactor(math, tau, dt1), SlowFactor(math, tau, dt2), SlowFactor(math, tau, dt1 + dt2);
      && a2 * a1 == a
      && a2 * a2 * NoiseVariance(variance, a1) + NoiseVariance(variance, a2) == NoiseVariance(variance, a)
  {
    assert Sum(-dt1 / tau, -dt2 / tau) == -(dt1 + dt2) / tau;
    VarianceAlgebra(variance, SlowFactor(math, tau, dt1), SlowFactor(math, tau, dt2));
  }

  lemma VarianceAlgebra(v: real, a: real, b: real)
    ensures b * b * (v * (1.0 - a * a)) + v * (1.0 - b * b) == v * (1.0 - (b * a) * (b * a))
  {}

  // Any list of steps.

  function SquaredFactor(math: RealFunctions, tau: real, dt: real): real
    requires tau > 0.0
  {
    SlowFactor(math, tau, dt) * SlowFactor(math, tau, dt)
  }

  /** The variance of the slow term after the given steps, started from a known value. */
  function Variance(math: RealFunctions, variance: real, tau: real, steps: seq<real>): real
    requires tau > 0.0
  {
    if steps == [] then 0.0
    else
      var dt := steps[|steps| - 1];
      SquaredFactor(math, tau, dt) * Variance(math, variance, tau, steps[..|steps| - 1]) +
      NoiseVariance(variance, SlowFactor(math, tau, dt))
  }

  /** The product of the squared mean factors. */
  function Damping(math: RealFunctions, tau: real, steps: seq<real>): real
    requires tau > 0.0
  {
    if steps == [] then 1.0
    else SquaredFactor(math, tau, steps[|steps| - 1]) * Damping(math, tau, steps[..|steps| - 1])
  }

  /** Started from zero the variance after any steps is the stationary one short of what is still damped. */
  lemma {:induction false} VarianceAfter(math: RealFunctions, variance: real, tau: real, steps: seq<real>)
    requires math.ExpLaw() && tau > 0.0
    ensures Variance(math, variance, tau, steps) == variance * (1.0 - Damping(math, tau, steps))
  {
    if steps != [] {
      var front, dt := steps[..|steps| - 1], steps[|steps| - 1];
      VarianceAfter(math, variance, tau, front);
      DampedAlgebra(variance, SquaredFactor(math, tau, dt), Damping(math, tau, front));
    }
  }

  lemma DampedAlgebra(v: real, e: real, d: real)
    ensures e * (v * (1.0 - d)) + v * (1.0 - e) == v * (1.0 - e * d)
  {}

  lemma {:induction false} DampingDecreases(math: RealFunctions, tau: real, steps: seq<real>)
    requires math.ExpLaw() && tau > 0.0
    requires forall i :: 0 <= i < |steps| ==> steps[i] >= 0.0
    ensures 0.0 <= Damping(math, tau, steps) <= 1.0
    ensures steps != [] ==> Damping(math, tau, steps) <= Damping(math, tau, steps[..|steps| - 1])
  {
    if steps != [] {
      var front, dt := steps[..|steps| - 1], steps[|steps| - 1];
      DampingDecreases(math, tau, front);
      FactorInUnitInterval(math, tau, dt);
      SquareInUnitInterval(SlowFactor(math, tau, dt));
      var e, before := SquaredFactor(math, tau, dt), Damping(math, tau, front);
      ProductShrinks(e, before);
      assert Damping(math, tau, steps) == e * before <= before;
    }
  }

  lemma ProductShrinks(e: real, d: real)
    requires 0.0 <= e <= 1.0 && 0.0 <= d
    ensures 0.0 <= e * d <= d
  {
    RealMulMono(e, 1.0, d);
  }

  /** The variance never decreases and never exceeds the configured one. */
  lemma VarianceIsBounded(math: RealFunctions, variance: real, tau: real, steps: seq<real>)
    requires math.ExpLaw() && tau > 0.0 && variance >= 0.0
    requires forall i :: 0 <= i < |steps| ==> steps[i] >= 0.0
    ensures 0.0 <= Variance(math, variance, tau, steps) <= variance
    ensures steps != [] ==>
      Variance(math, variance, tau, steps[..|steps| - 1]) <= Variance(math, variance, tau, steps)
  {
    VarianceInRange(math, variance, tau, steps);
    if steps != [] {
      VarianceGrows(math, variance, tau, steps);
    }
  }

  lemma VarianceInRange(math: RealFunctions, variance: real, tau: real, steps: seq<real>)
    requires math.ExpLaw() && tau > 0.0 && variance >= 0.0
    requires forall i :: 0 <= i < |steps| ==> steps[i] >= 0.0
    ensures 0.0 <= Variance(math, variance, tau, steps) <= variance
  {
    VarianceAfter(math, variance, tau, steps);
    DampingDecreases(math, tau, steps);
    DampedInRange(variance, Damping(math, tau, steps));
  }

  lemma VarianceGrows(math: RealFunctions, variance: real, tau: real, steps: seq<real>)
    requires math.ExpLaw() && tau > 0.0 && variance >= 0.0 && steps != []
    requires forall i :: 0 <= i < |steps| ==> steps[i] >= 0.0
    ensures Variance(math, variance, tau, steps[..|steps| - 1]) <= Variance(math, variance, tau, steps)
  {
    VarianceAfter(math, variance, tau, steps);
    DampingDecreases(math, tau, steps);
    VarianceAfter(math, variance, tau, steps[..|steps| - 1]);
    DampedOrder(variance, Damping(math, tau, steps), Damping(math, tau, steps[..|steps| - 1]));
  }

  lemma DampedInRange(variance: real, damping: real)
    requires variance >= 0.0 && 0.0 <= damping <= 1.0
    ensures 0.0 <= variance * (1.0 - damping) <= variance
  {
    ProductShrinks(1.0 - damping, variance);
  }

  lemma DampedOrder(variance: real, damping: real, before: real)
    requires variance >= 0.0 && damping <= before
    ensures variance * (1.0 - before) <= variance * (1.0 - damping)
  {
    RealMulMono(1.0 - before, 1.0 - damping, variance);
  }
}
