/** The quaternion algebra behind angular velocity. */
module Rotations {
  import opened Numerics
  import opened Geometry
  import opened Motion

  ghost predicate Unit(q: Quaternion) {
    Norm2(q) == 1.0
  }

  // The Hamilton product is linear in each factor, so its laws need checking on the basis only.

  function Plus(p: Quaternion, q: Quaternion): Quaternion {
    Quaternion(p.x + q.x, p.y + q.y, p.z + q.z, p.w + q.w)
  }

  function Scale(k: real, q: Quaternion): Quaternion {
    Quaternion(k * q.x, k * q.y, k * q.z, k * q.w)
  }

  const I := Quaternion(1.0, 0.0, 0.0, 0.0)
  const J := Quaternion(0.0, 1.0, 0.0, 0.0)
  const K := Quaternion(0.0, 0.0, 1.0, 0.0)

  ghost predicate Basis(e: Quaternion) {
    e == I || e == J || e == K || e == IDENTITY
  }

  lemma Decomposed(q: Quaternion)
    ensures q == Plus(Plus(Scale(q.x, I), Scale(q.y, J)), Plus(Scale(q.z, K), Scale(q.w, IDENTITY)))
  {}

  lemma SumDistributesX(p: Quaternion, q: Quaternion, c: Quaternion)
    ensures Product(Plus(p, q), c).x == Product(p, c).x + Product(q, c).x
  {}

  lemma SumDistributesY(p: Quaternion, q: Quaternion, c: Quaternion)
    ensures Product(Plus(p, q), c).y == Product(p, c).y + Product(q, c).y
  {}

  lemma SumDistributesZ(p: Quaternion, q: Quaternion, c: Quaternion)
    ensures Product(Plus(p, q), c).z == Product(p, c).z + Product(q, c).z
  {}

  lemma SumDistributesW(p: Quaternion, q: Quaternion, c: Quaternion)
    ensures Product(Plus(p, q), c).w == Product(p, c).w + Product(q, c).w
  {}

  lemma SumDistributes(p: Quaternion, q: Quaternion, c: Quaternion)
    ensures Product(Plus(p, q), c) == Plus(Product(p, c), Product(q, c))
  {
    SumDistributesX(p, q, c);
    SumDistributesY(p, q, c);
    SumDistributesZ(p, q, c);
    SumDistributesW(p, q, c);
  }

  lemma SumDistributesRightX(c: Quaternion, p: Quaternion, q: Quaternion)
    ensures Product(c, Plus(p, q)).x == Product(c, p).x + Product(c, q).x
  {}

  lemma SumDistributesRightY(c: Quaternion, p: Quaternion, q: Quaternion)
    ensures Product(c, Plus(p, q)).y == Product(c, p).y + Product(c, q).y
  {}

  lemma SumDistributesRightZ(c: Quaternion, p: Quaternion, q: Quaternion)
    ensures Product(c, Plus(p, q)).z == Product(c, p).z + Product(c, q).z
  {}

  lemma SumDistributesRightW(c: Quaternion, p: Quaternion, q: Quaternion)
    ensures Product(c, Plus(p, q)).w == Product(c, p).w + Product(c, q).w
  {}

  lemma SumDistributesRight(c: Quaternion, p: Quaternion, q: Quaternion)
    ensures Product(c, Plus(p, q)) == Plus(Product(c, p), Product(c, q))
  {
    SumDistributesRightX(c, p, q);
    SumDistributesRightY(c, p, q);
    SumDistributesRightZ(c, p, q);
    SumDistributesRightW(c, p, q);
  }

  lemma ScaleOfSum(k: real, p: Quaternion, q: Quaternion)
    ensures Scale(k, Plus(p, q)) == Plus(Scale(k, p), Scale(k, q))
  {}

  lemma ScaleTwice(k: real, m: real, q: Quaternion)
    ensures Scale(k, Scale(m, q)) == Scale(k * m, q)
  {}

  lemma BasisScales(k: real, e: Quaternion, c: Quaternion)
    requires Basis(e)
    ensures Product(Scale(k, e), c) == Scale(k, Product(e, c))
  {}

  lemma ConjugateScales(k: real, q: Quaternion)
    ensures Conjugate(Scale(k, q)) == Scale(k, Conjugate(q))
  {}

  lemma BasisScalesRight(k: real, e: Quaternion, c: Quaternion)
    requires Basis(e)
    ensures Product(c, Scale(k, Conjugate(e))) == Scale(k, Product(c, Conjugate(e)))
  {}

  // Scalar factors.

  ghost predicate MovesOut(k: real, p: Quaternion, c: Quaternion) {
    Product(Scale(k, p), c) == Scale(k, Product(p, c))
  }

  lemma BasisMovesOut(k: real, m: real, e: Quaternion, c: Quaternion)
    requires Basis(e)
    ensures MovesOut(k, Scale(m, e), c)
  {
    ScaleTwice(k, m, e);
    BasisScales(k * m, e, c);
    BasisScales(m, e, c);
    ScaleTwice(k, m, Product(e, c));
  }

  lemma SumMovesOut(k: real, p: Quaternion, q: Quaternion, c: Quaternion)
    requires MovesOut(k, p, c) && MovesOut(k, q, c)
    ensures MovesOut(k, Plus(p, q), c)
  {
    ScaleOfSum(k, p, q);
    SumDistributes(p, q, c);
    SumDistributes(Scale(k, p), Scale(k, q), c);
    ScaleOfSum(k, Product(p, c), Product(q, c));
  }

  lemma ScaleMovesOut(k: real, p: Quaternion, c: Quaternion)
    ensures Product(Scale(k, p), c) == Scale(k, Product(p, c))
  {
    var x, y, z, w := Scale(p.x, I), Scale(p.y, J), Scale(p.z, K), Scale(p.w, IDENTITY);
    BasisMovesOut(k, p.x, I, c);
    BasisMovesOut(k, p.y, J, c);
    BasisMovesOut(k, p.z, K, c);
    BasisMovesOut(k, p.w, IDENTITY, c);
    SumMovesOut(k, x, y, c);
    SumMovesOut(k, z, w, c);
    SumMovesOut(k, Plus(x, y), Plus(z, w), c);
    Decomposed(p);
  }

  // Conjugation.

  ghost predicate Reverses(a: Quaternion, b: Quaternion) {
    Conjugate(Product(a, b)) == Product(Conjugate(b), Conjugate(a))
  }

  lemma IReverses(b: Quaternion)
    ensures Reverses(I, b)
  {}

  lemma JReverses(b: Quaternion)
    ensures Reverses(J, b)
  {}

  lemma KReverses(b: Quaternion)
    ensures Reverses(K, b)
  {}

  lemma MultipleReverses(k: real, e: Quaternion, b: Quaternion)
    requires Basis(e) && Reverses(e, b)
    ensures Reverses(Scale(k, e), b)
  {
    BasisScales(k, e, b);
    ConjugateScales(k, Product(e, b));
    ConjugateScales(k, e);
    BasisScalesRight(k, e, Conjugate(b));
  }

  lemma ConjugateOfSum(p: Quaternion, q: Quaternion)
    ensures Conjugate(Plus(p, q)) == Plus(Conjugate(p), Conjugate(q))
  {}

  lemma SumReverses(p: Quaternion, q: Quaternion, b: Quaternion)
    requires Reverses(p, b) && Reverses(q, b)
    ensures Reverses(Plus(p, q), b)
  {
    SumDistributes(p, q, b);
    ConjugateOfSum(Product(p, b), Product(q, b));
    ConjugateOfSum(p, q);
    SumDistributesRight(Conjugate(b), Conjugate(p), Conjugate(q));
  }

  lemma ConjugateOfProduct(a: Quaternion, b: Quaternion)
    ensures Conjugate(Product(a, b)) == Product(Conjugate(b), Conjugate(a))
  {
    var x, y, z, w := Scale(a.x, I), Scale(a.y, J), Scale(a.z, K), Scale(a.w, IDENTITY);
    IReverses(b);
    JReverses(b);
    KReverses(b);
    MultipleReverses(a.x, I, b);
    MultipleReverses(a.y, J, b);
    MultipleReverses(a.z, K, b);
    MultipleReverses(a.w, IDENTITY, b);
    SumReverses(x, y, b);
    SumReverses(z, w, b);
    SumReverses(Plus(x, y), Plus(z, w), b);
    Decomposed(a);
  }

  lemma ScaleMovesOutRight(k: real, p: Quaternion, c: Quaternion)
    ensures Product(p, Scale(k, c)) == Scale(k, Product(p, c))
  {
    var cp, cc := Conjugate(p), Conjugate(c);
    ScaleMovesOut(k, cc, cp);
    ConjugateScales(k, cc);
    ConjugateScales(k, Product(cc, cp));
    ConjugateOfProduct(Scale(k, cc), cp);
    ConjugateOfProduct(cc, cp);
    ConjugateTwice(p);
    ConjugateTwice(c);
  }

  lemma ConjugateTwice(q: Quaternion)
    ensures Conjugate(Conjugate(q)) == q
  {}

  // Associativity.

  ghost predicate Associates(a: Quaternion, b: Quaternion, c: Quaternion) {
    Product(Product(a, b), c) == Product(a, Product(b, c))
  }

  lemma IAssociates(b: Quaternion, c: Quaternion)
    ensures Associates(I, b, c)
  {
    var d := Product(b, c);
    assert Product(I, b) == Quaternion(b.w, -b.z, b.y, -b.x);
    assert Product(I, d) == Quaternion(d.w, -d.z, d.y, -d.x);
  }

  lemma JAssociates(b: Quaternion, c: Quaternion)
    ensures Associates(J, b, c)
  {}

  lemma KAssociates(b: Quaternion, c: Quaternion)
    ensures Associates(K, b, c)
  {}

  lemma MultipleAssociates(k: real, q: Quaternion, b: Quaternion, c: Quaternion)
    requires Associates(q, b, c)
    ensures Associates(Scale(k, q), b, c)
  {
    ScaleMovesOut(k, q, b);
    ScaleMovesOut(k, Product(q, b), c);
    ScaleMovesOut(k, q, Product(b, c));
  }

  lemma SumAssociates(p: Quaternion, q: Quaternion, b: Quaternion, c: Quaternion)
    requires Associates(p, b, c) && Associates(q, b, c)
    ensures Associates(Plus(p, q), b, c)
  {
    SumDistributes(p, q, b);
    SumDistributes(Product(p, b), Product(q, b), c);
    SumDistributes(p, q, Product(b, c));
  }

  lemma ProductAssociates(a: Quaternion, b: Quaternion, c: Quaternion)
    ensures Product(Product(a, b), c) == Product(a, Product(b, c))
  {
    var x, y, z, w := Scale(a.x, I), Scale(a.y, J), Scale(a.z, K), Scale(a.w, IDENTITY);
    IAssociates(b, c);
    JAssociates(b, c);
    KAssociates(b, c);
    MultipleAssociates(a.x, I, b, c);
    MultipleAssociates(a.y, J, b, c);
    MultipleAssociates(a.z, K, b, c);
    MultipleAssociates(a.w, IDENTITY, b, c);
    SumAssociates(x, y, b, c);
    SumAssociates(z, w, b, c);
    SumAssociates(Plus(x, y), Plus(z, w), b, c);
    Decomposed(a);
  }

  lemma TimesConjugate(q: Quaternion)
    ensures Product(q, Conjugate(q)) == Scale(Norm2(q), IDENTITY)
  {}

  lemma IdentityIsNeutral(q: Quaternion)
    ensures Product(IDENTITY, q) == q
  {}

  /** The norm of a product, by way of (ab)(ab)* = a(bb*)a*. */
  lemma NormIsMultiplicative(a: Quaternion, b: Quaternion)
    ensures Norm2(Product(a, b)) == Norm2(a) * Norm2(b)
  {
    var p, ca, cb := Product(a, b), Conjugate(a), Conjugate(b);
    ConjugateOfProduct(a, b);
    ProductAssociates(a, b, Product(cb, ca));
    ProductAssociates(b, cb, ca);
    TimesConjugate(b);
    ScaleMovesOut(Norm2(b), IDENTITY, ca);
    IdentityIsNeutral(ca);
    ScaleMovesOutRight(Norm2(b), a, ca);
    TimesConjugate(a);
    TimesConjugate(p);
    NormsAgree(Norm2(p), Norm2(a), Norm2(b));
  }

  lemma NormsAgree(p: real, a: real, b: real)
    requires Scale(p, IDENTITY) == Scale(b, Scale(a, IDENTITY))
    ensures p == a * b
  {}

  lemma UnitInverse(q: Quaternion)
    requires Unit(q)
    ensures Product(q, Conjugate(q)) == IDENTITY && Unit(Conjugate(q))
  {}

  lemma UnitLength(math: RealFunctions, q: Quaternion)
    requires math.SqrtLaw() && Unit(q)
    ensures Normalize(math, q) == q
  {
    var length := math.sqrt(1.0);
    assert length >= 0.0 && length * length == 1.0;
    if length < 1.0 {
      RealMulMono(length, 1.0, length);
    } else if length > 1.0 {
      RealMulMono(1.0, length, length);
    }
  }

  /** A common body-to-tracker rotation cancels in `current` times the inverse of `previous`. */
  lemma ExtrinsicCancels(previous: Quaternion, current: Quaternion, extrinsic: Quaternion)
    requires Unit(extrinsic)
    ensures Product(Product(current, extrinsic), Conjugate(Product(previous, extrinsic))) ==
            Product(current, Conjugate(previous))
  {
    ConjugateOfProduct(previous, extrinsic);
    ProductAssociates(current, extrinsic, Product(Conjugate(extrinsic), Conjugate(previous)));
    ProductAssociates(extrinsic, Conjugate(extrinsic), Conjugate(previous));
    UnitInverse(extrinsic);
    assert Product(IDENTITY, Conjugate(previous)) == Conjugate(previous);
  }

  /** The two quaternions of one rotation. */
  function Signed(q: Quaternion, negated: bool): Quaternion {
    if negated then Negate(q) else q
  }

  lemma NegationFactorsOut(a: Quaternion, b: Quaternion)
    ensures Product(Negate(a), b) == Negate(Product(a, b))
    ensures Product(a, Negate(b)) == Negate(Product(a, b))
  {
    assert Negate(a) == Scale(-1.0, a) && Negate(b) == Scale(-1.0, b);
    ScaleMovesOut(-1.0, a, b);
    ScaleMovesOutRight(-1.0, a, b);
  }

  lemma SignsFactorOut(a: Quaternion, b: Quaternion, s: bool, t: bool)
    ensures Product(Signed(a, s), Conjugate(Signed(b, t))) == Signed(Product(a, Conjugate(b)), s != t)
  {
    NegationFactorsOut(a, Conjugate(b));
    NegationFactorsOut(Signed(a, s), Conjugate(b));
    assert Conjugate(Negate(b)) == Negate(Conjugate(b));
    assert Negate(Negate(Product(a, Conjugate(b)))) == Product(a, Conjugate(b));
  }

  lemma CanonicalOfUnit(math: RealFunctions, previous: Quaternion, current: Quaternion, delta: Quaternion)
    requires math.SqrtLaw() && Unit(delta) && delta == Product(current, Conjugate(previous))
    ensures CanonicalDelta(math, previous, current) == Signed(delta, delta.w < 0.0)
  {
    UnitLength(math, delta);
  }

  /** Angular velocity depends on neither the extrinsic nor, as long as the relative rotation is not a half turn, on
      which of its two quaternions either rotation is given by. */
  lemma AngularVelocityIsIntrinsic(math: RealFunctions, angle: Quaternion -> real, axis: Quaternion -> Vector3,
                                   previous: Quaternion, current: Quaternion, extrinsic: Quaternion,
                                   s: bool, t: bool, dt: real)
    requires math.SqrtLaw() && Unit(previous) && Unit(current) && Unit(extrinsic) && dt != 0.0
    requires s == t || Product(current, Conjugate(previous)).w != 0.0
    ensures AngularVelocityBetween(math, angle, axis, Signed(Product(previous, extrinsic), s),
                                   Signed(Product(current, extrinsic), t), dt)
         == AngularVelocityBetween(math, angle, axis, previous, current, dt)
  {
    var delta := Product(current, Conjugate(previous));
    ExtrinsicCancels(previous, current, extrinsic);
    SignsFactorOut(Product(current, extrinsic), Product(previous, extrinsic), t, s);
    UnitRelative(previous, current);
    UnitNegated(delta);
    CanonicalOfUnit(math, previous, current, delta);
    CanonicalOfUnit(math, Signed(Product(previous, extrinsic), s), Signed(Product(current, extrinsic), t),
                    Signed(delta, t != s));
  }

  /** At half turns too the sign matters only as if the body itself had been given by its other quaternion. */
  lemma AngularVelocityUpToSign(math: RealFunctions, angle: Quaternion -> real, axis: Quaternion -> Vector3,
                                previous: Quaternion, current: Quaternion, extrinsic: Quaternion,
                                s: bool, t: bool, dt: real)
    requires Unit(extrinsic) && dt != 0.0
    ensures AngularVelocityBetween(math, angle, axis, Signed(Product(previous, extrinsic), s),
                                   Signed(Product(current, extrinsic), t), dt)
         == AngularVelocityBetween(math, angle, axis, previous, Signed(current, t != s), dt)
  {
    ExtrinsicCancels(previous, current, extrinsic);
    SignsFactorOut(Product(current, extrinsic), Product(previous, extrinsic), t, s);
    SignsFactorOut(current, previous, t != s, false);
  }

  /** So the raw angular velocity one derivative step stores is that of the body, whichever extrinsic the tracker has
      and, away from half turns, whichever quaternions are read from the transforms. */
  lemma RawAngularIsOfTheBody(tf: Tf2, config: MotionConfig, d: Derivatives, world: Transform, time: real,
                              previous: Quaternion, current: Quaternion, extrinsic: Quaternion, s: bool, t: bool)
    requires tf.math.SqrtLaw() && Unit(previous) && Unit(current) && Unit(extrinsic)
    requires d.haveState && InRange(config, time - d.lastTime)
    requires d.lastTransform.rotation == Signed(Product(previous, extrinsic), s)
    requires world.rotation == Signed(Product(current, extrinsic), t)
    ensures var velocity, dt := Updated(Tf2Motion(tf), config, d, world, time).previousRawAngular, time - d.lastTime;
      && TurnsAt(tf, velocity, previous, Signed(current, t != s), dt)
      && (Product(current, Conjugate(previous)).w != 0.0 ==> TurnsAt(tf, velocity, previous, current, dt))
  {
    AngularVelocityUpToSign(tf.math, tf.angle, tf.axis, previous, current, extrinsic, s, t, time - d.lastTime);
    if Product(current, Conjugate(previous)).w != 0.0 {
      AngularVelocityIsIntrinsic(tf.math, tf.angle, tf.axis, previous, current, extrinsic, s, t, time - d.lastTime);
    }
  }

  /** The angular velocity from one orientation to the next. */
  ghost predicate TurnsAt(tf: Tf2, velocity: Vector3, previous: Quaternion, current: Quaternion, dt: real) {
    dt > 0.0 && velocity == AngularVelocityBetween(tf.math, tf.angle, tf.axis, previous, current, dt)
  }

  /** The same where at half turns either quaternion may stand for the later orientation. */
  ghost predicate TurnsFrom(tf: Tf2, velocity: Vector3, previous: Quaternion, current: Quaternion, dt: real) {
    && (TurnsAt(tf, velocity, previous, current, dt) || TurnsAt(tf, velocity, previous, Negate(current), dt))
    && (Product(current, Conjugate(previous)).w != 0.0 ==> TurnsAt(tf, velocity, previous, current, dt))
  }

  lemma WorldRotation(tf: Tf2, pose: Pose, extrinsic: Transform) returns (negated: bool)
    requires tf.math.SqrtLaw() && tf.GivesBack() && Unit(pose.orientation) && Unit(extrinsic.rotation)
    ensures Tf2Motion(tf).worldTracker(pose, extrinsic).rotation ==
            Signed(Product(pose.orientation, extrinsic.rotation), negated)
  {
    UnitLength(tf.math, pose.orientation);
    NormIsMultiplicative(pose.orientation, extrinsic.rotation);
    var q := Product(pose.orientation, extrinsic.rotation);
    negated := tf.giveBack(q) != q;
  }

  lemma RawAngularOfPoses(tf: Tf2, config: MotionConfig, d: Derivatives, world: Transform, time: real,
                          previous: Pose, current: Pose, extrinsic: Transform)
    requires tf.math.SqrtLaw() && tf.GivesBack()
    requires Unit(previous.orientation) && Unit(current.orientation) && Unit(extrinsic.rotation)
    requires d.haveState && InRange(config, time - d.lastTime)
    requires d.lastTransform == Tf2Motion(tf).worldTracker(previous, extrinsic)
    requires world == Tf2Motion(tf).worldTracker(current, extrinsic)
    ensures TurnsFrom(tf, Updated(Tf2Motion(tf), config, d, world, time).previousRawAngular,
                      previous.orientation, current.orientation, time - d.lastTime)
  {
    var s := WorldRotation(tf, previous, extrinsic);
    var t := WorldRotation(tf, current, extrinsic);
    RawAngularIsOfTheBody(tf, config, d, world, time, previous.orientation, current.orientation, extrinsic.rotation,
                          s, t);
  }

  /** The half turn is the only exception: there, negating a quaternion does change the delta. */
  lemma SignIsIrrelevantIff(math: RealFunctions, previous: Quaternion, current: Quaternion)
    requires math.SqrtLaw() && Unit(previous) && Unit(current)
    ensures CanonicalDelta(math, previous, Negate(current)) == CanonicalDelta(math, previous, current) <==>
            Product(current, Conjugate(previous)).w != 0.0
  {
    var delta := Product(current, Conjugate(previous));
    UnitRelative(previous, current);
    NegationFactorsOut(current, Conjugate(previous));
    UnitNegated(delta);
    CanonicalOfUnit(math, previous, current, delta);
    CanonicalOfUnit(math, previous, Negate(current), Negate(delta));
    UnitIsNotZero(delta);
    OnlyZeroIsItsNegative(delta);
  }

  lemma TimesIdentity(q: Quaternion)
    ensures Product(q, Conjugate(IDENTITY)) == q
  {
    ConjugateOfProduct(IDENTITY, Conjugate(q));
    IdentityIsNeutral(Conjugate(q));
    ConjugateTwice(q);
  }

  lemma IIsUnit()
    ensures Unit(I) && I.w == Negate(I).w == 0.0 && Negate(I) != I
  {}

  lemma DeltaFromIdentity(math: RealFunctions, q: Quaternion)
    requires math.SqrtLaw() && Unit(q) && q.w >= 0.0
    ensures CanonicalDelta(math, IDENTITY, q) == q
  {
    TimesIdentity(q);
    CanonicalOfUnit(math, IDENTITY, q, q);
  }

  lemma HalfTurnFromIdentity(math: RealFunctions, q: Quaternion)
    requires math.SqrtLaw() && Unit(q) && q.w == 0.0
    ensures CanonicalDelta(math, IDENTITY, q) == q && CanonicalDelta(math, IDENTITY, Negate(q)) == Negate(q)
  {
    UnitNegated(q);
    DeltaFromIdentity(math, q);
    DeltaFromIdentity(math, Negate(q));
  }

  /** For example about the x axis: the two quaternions of a half turn give opposite deltas. */
  lemma HalfTurnDependsOnSign(math: RealFunctions, half: Quaternion)
    requires math.SqrtLaw() && half == I
    ensures CanonicalDelta(math, IDENTITY, Negate(half)) == Negate(half) != half == CanonicalDelta(math, IDENTITY, half)
  {
    IIsUnit();
    HalfTurnFromIdentity(math, half);
  }

  /** And, with the angle and axis of those deltas, opposite velocities: a body that turns from the identity to that
      half turn is reported with the one or the other, depending on what is read from its transform. */
  lemma HalfTurnIsReversed(tf: Tf2, dt: real)
    requires tf.math.SqrtLaw() && dt > 0.0 && tf.angle(I) == tf.angle(Negate(I)) >= 3.0
    requires tf.axis(I) == Vector3(1.0, 0.0, 0.0) && tf.axis(Negate(I)) == Vector3(-1.0, 0.0, 0.0)
    ensures AngularVelocityBetween(tf.math, tf.angle, tf.axis, IDENTITY, I, dt) !=
            AngularVelocityBetween(tf.math, tf.angle, tf.axis, IDENTITY, Negate(I), dt)
  {
    HalfTurnDependsOnSign(tf.math, I);
    OppositeDiffer(tf.angle(I), dt);
  }

  lemma OppositeDiffer(angle: real, dt: real)
    requires angle >= 3.0 && dt > 0.0
    ensures Times(Vector3(1.0, 0.0, 0.0), angle / dt) != Times(Vector3(-1.0, 0.0, 0.0), angle / dt)
  {
    var rate := angle / dt;
    assert rate * dt == angle;
  }

  lemma UnitRelative(previous: Quaternion, current: Quaternion)
    requires Unit(previous) && Unit(current)
    ensures Unit(Product(current, Conjugate(previous)))
  {
    UnitInverse(previous);
    NormIsMultiplicative(current, Conjugate(previous));
  }

  lemma UnitNegated(q: Quaternion)
    requires Unit(q)
    ensures Unit(Negate(q))
  {}

  lemma UnitIsNotZero(q: Quaternion)
    requires Unit(q)
    ensures q != Quaternion(0.0, 0.0, 0.0, 0.0)
  {
    assert Norm2(Quaternion(0.0, 0.0, 0.0, 0.0)) == 0.0;
  }

  lemma OnlyZeroIsItsNegative(q: Quaternion)
    ensures q != Quaternion(0.0, 0.0, 0.0, 0.0) ==> Negate(q) != q
  {}
}
