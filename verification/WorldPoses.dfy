/** Where a tracker is and how it turns, told from the coordinates of its body. */
module WorldPoses {
  import opened Numerics
  import opened Geometry
  import opened Rotations
  import opened ServerConfigs
  import opened TrackerStates
  import opened ServerRuns
  import opened Epochs
  import Motion

  // Rotating a vector.

  /** The first row of the rotation matrix of a unit quaternion with the given components, applied to a vector; the
      other rows are the same with the axes exchanged cyclically. */
  function Row(x: real, y: real, z: real, w: real, a: real, b: real, c: real): real {
    a * (1.0 - 2.0 * (y * y + z * z)) + b * (2.0 * (x * y - w * z)) + c * (2.0 * (x * z + w * y))
  }

  function Turned(q: Quaternion, v: Vector3): Vector3 {
    Vector3(Row(q.x, q.y, q.z, q.w, v.x, v.y, v.z),
            Row(q.y, q.z, q.x, q.w, v.y, v.z, v.x),
            Row(q.z, q.x, q.y, q.w, v.z, v.x, v.y))
  }

  /** The same coordinate by two Hamilton products. */
  function Sandwich(x: real, y: real, z: real, w: real, a: real, b: real, c: real): real {
    x * (x * a + y * b + z * c) + w * (w * a + y * c - z * b) -
    z * (w * b + z * a - x * c) + y * (w * c + x * b - y * a)
  }

  lemma UnitFactor(n: real, a: real)
    requires n == 1.0
    ensures a * n == a
  {}

  lemma SandwichIsRow(x: real, y: real, z: real, w: real, a: real, b: real, c: real)
    requires x * x + y * y + z * z + w * w == 1.0
    ensures Sandwich(x, y, z, w, a, b, c) == Row(x, y, z, w, a, b, c)
  {
    UnitFactor(x * x + y * y + z * z + w * w, a);
    assert Sandwich(x, y, z, w, a, b, c) ==
           a * (x * x + y * y + z * z + w * w) - 2.0 * a * (y * y + z * z)
           + b * (2.0 * (x * y - w * z)) + c * (2.0 * (x * z + w * y));
  }

  lemma RotateX(q: Quaternion, v: Vector3)
    ensures Rotate(q, v).x == Sandwich(q.x, q.y, q.z, q.w, v.x, v.y, v.z)
  {}

  lemma RotateY(q: Quaternion, v: Vector3)
    ensures Rotate(q, v).y == Sandwich(q.y, q.z, q.x, q.w, v.y, v.z, v.x)
  {}

  lemma RotateZ(q: Quaternion, v: Vector3)
    ensures Rotate(q, v).z == Sandwich(q.z, q.x, q.y, q.w, v.z, v.x, v.y)
  {}

  lemma UnitIs(q: Quaternion)
    requires Unit(q)
    ensures q.x * q.x + q.y * q.y + q.z * q.z + q.w * q.w == 1.0
    ensures q.y * q.y + q.z * q.z + q.x * q.x + q.w * q.w == 1.0
    ensures q.z * q.z + q.x * q.x + q.y * q.y + q.w * q.w == 1.0
  {}

  /** Conjugating by a unit quaternion is multiplying by its rotation matrix. */
  lemma RotateIsTurned(q: Quaternion, v: Vector3)
    requires Unit(q)
    ensures Rotate(q, v) == Turned(q, v)
  {
    UnitIs(q);
    RotateX(q, v);
    RotateY(q, v);
    RotateZ(q, v);
    SandwichIsRow(q.x, q.y, q.z, q.w, v.x, v.y, v.z);
    SandwichIsRow(q.y, q.z, q.x, q.w, v.y, v.z, v.x);
    SandwichIsRow(q.z, q.x, q.y, q.w, v.z, v.x, v.y);
  }

  // Normalising.

  lemma Rescaled(x: real, length: real)
    requires length != 0.0
    ensures length * (x / length) == x
  {}

  lemma UnitQuotient(n: real, m: real)
    requires n * m == m && m > 0.0
    ensures n == 1.0
  {}

  lemma SquareScales(a: real, k: real, square: real)
    requires square == k * k
    ensures (k * a) * (k * a) == a * a * square
  {
    assert (k * a) * (k * a) == a * a * (k * k);
  }

  lemma SumScales(a: real, b: real, c: real, d: real, k: real)
    ensures a * k + b * k + c * k + d * k == (a + b + c + d) * k
  {}

  lemma NormScales(u: Quaternion, k: real, square: real)
    requires square == k * k
    ensures Norm2(Scale(k, u)) == Norm2(u) * square
  {
    SquareScales(u.x, k, square);
    SquareScales(u.y, k, square);
    SquareScales(u.z, k, square);
    SquareScales(u.w, k, square);
    SumScales(u.x * u.x, u.y * u.y, u.z * u.z, u.w * u.w, square);
  }

  lemma UnitIfScaled(u: Quaternion, scaled: real, n: real)
    requires scaled == n > 0.0 && scaled == Norm2(u) * n
    ensures Unit(u)
  {
    UnitQuotient(Norm2(u), n);
  }

  lemma DirectionOf(q: Quaternion, k: real)
    requires k > 0.0
    ensures q == Scale(k, Quaternion(q.x / k, q.y / k, q.z / k, q.w / k))
  {
    Rescaled(q.x, k);
    Rescaled(q.y, k);
    Rescaled(q.z, k);
    Rescaled(q.w, k);
  }

  lemma PositiveRoot(length: real, n: real)
    requires length >= 0.0 && length * length == n > 0.0
    ensures length > 0.0
  {
    if length == 0.0 {
      assert length * length == 0.0 * length;
    }
  }

  /** A quaternion that is not zero is normalised to the unit one in its direction. */
  lemma NormalizeIs(math: RealFunctions, q: Quaternion) returns (length: real)
    requires math.SqrtLaw() && Norm2(q) > 0.0
    ensures length > 0.0 && q == Scale(length, Normalize(math, q)) && Unit(Normalize(math, q))
  {
    length := math.sqrt(Norm2(q));
    PositiveRoot(length, Norm2(q));
    DirectionOf(q, length);
    NormScales(Normalize(math, q), length, Norm2(q));
    UnitIfScaled(Normalize(math, q), Norm2(Scale(length, Normalize(math, q))), Norm2(q));
  }

  // The pose of a tracker.

  /** A tracker on a body at the given position, turned by the unit quaternion `q`: its offset is turned with the body,
      and its orientation is the body's after its own, as one of two quaternions. */
  ghost predicate Placed(pose: Pose, position: Vector3, q: Quaternion, extrinsic: Transform) {
    && pose.position.x == position.x + Turned(q, extrinsic.origin).x
    && pose.position.y == position.y + Turned(q, extrinsic.origin).y
    && pose.position.z == position.z + Turned(q, extrinsic.origin).z
    && pose.orientation in {Product(q, extrinsic.rotation), Negate(Product(q, extrinsic.rotation))}
  }

  /** `q` is the unit quaternion in the direction of the one given. */
  ghost predicate Directed(given: Quaternion, q: Quaternion) {
    Unit(q) && exists length: real :: length > 0.0 && given == Scale(length, q)
  }

  lemma TrackerIsPlaced(tf: Motion.Tf2, pose: Pose, extrinsic: Transform) returns (q: Quaternion)
    requires tf.math.SqrtLaw() && tf.GivesBack() && Norm2(pose.orientation) > 0.0 && Unit(extrinsic.rotation)
    ensures Directed(pose.orientation, q)
    ensures Placed(TransformToPose(Motion.Tf2Motion(tf).worldTracker(pose, extrinsic)), pose.position, q, extrinsic)
  {
    var length := NormalizeIs(tf.math, pose.orientation);
    q := Normalize(tf.math, pose.orientation);
    assert length > 0.0 && pose.orientation == Scale(length, q);
    RotateIsTurned(q, extrinsic.origin);
    NormIsMultiplicative(q, extrinsic.rotation);
  }

  /** In every reachable state a sample has the pose of its tracker on the body as a snapshot of the epoch had it: there
      is such a model in the snapshot the sample was taken from, and the tracker is placed on it by the extrinsic. */
  lemma SamplePoseIs(p: Platform, config: ServerConfig, events: seq<Event>, name: string, k: nat, tf: Motion.Tf2)
    returns (body: Pose, q: Quaternion)
    requires p.motion == Motion.Tf2Motion(tf) && tf.math.SqrtLaw() && tf.GivesBack()
    requires name in Run(p, config, events).registry.tracked
    requires k < |Run(p, config, events).registry.HistoryOf(name).pushed|
    requires forall i, j :: 0 <= i < |events| && events[i].Snap? && 0 <= j < |events[i].snapshot.models| ==>
      Norm2(events[i].snapshot.models[j].pose.orientation) > 0.0
    requires Unit(BodyToTracker(config, TrackerName(config, name)).rotation)
    ensures var origins := Origins(p, config, events, name);
      k < |origins| && origins[k] < |events| && events[origins[k]].Snap? &&
      ModelPose(name, body) in events[origins[k]].snapshot.models
    ensures Directed(body.orientation, q)
    ensures Placed(Run(p, config, events).registry.HistoryOf(name).pushed[k].pose, body.position, q,
                   BodyToTracker(config, TrackerName(config, name)))
  {
    EverySampleIsExplained(p, config, events, name);
    var snapshot := events[Origins(p, config, events, name)[k]].snapshot;
    var sample, extrinsic := Run(p, config, events).registry.HistoryOf(name).pushed[k],
                             BodyToTracker(config, TrackerName(config, name));
    assert Shows(p.motion, extrinsic, name, sample, snapshot);
    var i :| 0 <= i < |snapshot.models| && snapshot.models[i].name == name &&
      sample.pose == TransformToPose(p.motion.worldTracker(snapshot.models[i].pose, extrinsic));
    body := snapshot.models[i].pose;
    assert snapshot.models[i] == ModelPose(name, body);
    q := TrackerIsPlaced(tf, body, extrinsic);
  }

  // Turning.

  /** The canonical delta is the rotation that takes the previous orientation to the current one, as the quaternion
      with no negative scalar part. */
  lemma DeltaTurns(math: RealFunctions, previous: Quaternion, current: Quaternion)
    requires math.SqrtLaw() && Unit(previous) && Unit(current)
    ensures var delta := Motion.CanonicalDelta(math, previous, current);
      && Unit(delta) && delta.w >= 0.0
      && (Product(delta, previous) == current || Product(delta, previous) == Negate(current))
  {
    var delta := Product(current, Conjugate(previous));
    UnitRelative(previous, current);
    UnitNegated(delta);
    CanonicalOfUnit(math, previous, current, delta);
    ProductAssociates(current, Conjugate(previous), previous);
    UnitInverse(previous);
    UnitInverse(Conjugate(previous));
    ConjugateTwice(previous);
    TimesIdentityIs(current);
    NegationFactorsOut(delta, previous);
  }

  lemma TimesIdentityIs(q: Quaternion)
    ensures Product(q, IDENTITY) == q
  {}

  /** A velocity of which an interval makes an angle about an axis; angles less than a billionth count as none. */
  ghost predicate TurnsBy(velocity: Vector3, axis: Vector3, angle: real, dt: real) {
    if -0.000000001 < angle < 0.000000001 then velocity == Vector3(0.0, 0.0, 0.0)
    else velocity.x * dt == axis.x * angle && velocity.y * dt == axis.y * angle && velocity.z * dt == axis.z * angle
  }

  lemma RateTimes(a: real, rate: real, angle: real, dt: real)
    requires rate * dt == angle
    ensures (a * rate) * dt == a * angle
  {}

  lemma AngleOverInterval(axis: Vector3, angle: real, dt: real)
    requires dt != 0.0
    ensures TurnsBy(if Abs(angle) < 0.000000001 then ZERO else Times(axis, angle / dt), axis, angle, dt)
  {
    var rate := angle / dt;
    assert rate * dt == angle;
    RateTimes(axis.x, rate, angle, dt);
    RateTimes(axis.y, rate, angle, dt);
    RateTimes(axis.z, rate, angle, dt);
  }

  /** So over the interval the angular velocity turns about the delta's axis by the delta's angle. */
  lemma VelocityTurns(math: RealFunctions, angle: Quaternion -> real, axis: Quaternion -> Vector3,
                      previous: Quaternion, current: Quaternion, dt: real)
    requires dt != 0.0
    ensures var delta := Motion.CanonicalDelta(math, previous, current);
      TurnsBy(Motion.AngularVelocityBetween(math, angle, axis, previous, current, dt), axis(delta), angle(delta), dt)
  {
    var delta := Motion.CanonicalDelta(math, previous, current);
    AngleOverInterval(axis(delta), angle(delta), dt);
  }
}
