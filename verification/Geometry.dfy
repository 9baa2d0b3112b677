/** Vectors, quaternions, poses and rigid transforms as tf2 defines them. */
module Geometry {
  import opened Numerics

  datatype Vector3 = Vector3(x: real, y: real, z: real)

  datatype Quaternion = Quaternion(x: real, y: real, z: real, w: real)

  datatype Pose = Pose(position: Vector3, orientation: Quaternion)

  datatype Transform = Transform(rotation: Quaternion, origin: Vector3)

  const ZERO := Vector3(0.0, 0.0, 0.0)
  const IDENTITY := Quaternion(0.0, 0.0, 0.0, 1.0)

  /** A pose message nobody has filled in. */
  const NO_POSE := Pose(ZERO, Quaternion(0.0, 0.0, 0.0, 0.0))

  function Add(a: Vector3, b: Vector3): Vector3 {
    Vector3(a.x + b.x, a.y + b.y, a.z + b.z)
  }

  function Subtract(a: Vector3, b: Vector3): Vector3 {
    Vector3(a.x - b.x, a.y - b.y, a.z - b.z)
  }

  function Times(a: Vector3, k: real): Vector3 {
    Vector3(a.x * k, a.y * k, a.z * k)
  }

  function Over(a: Vector3, k: real): Vector3
    requires k != 0.0
  {
    Vector3(a.x / k, a.y / k, a.z / k)
  }

  /** The Hamilton product. */
  function Product(a: Quaternion, b: Quaternion): Quaternion {
    Quaternion(
      a.w * b.x + a.x * b.w + a.y * b.z - a.z * b.y,
      a.w * b.y - a.x * b.z + a.y * b.w + a.z * b.x,
      a.w * b.z + a.x * b.y - a.y * b.x + a.z * b.w,
      a.w * b.w - a.x * b.x - a.y * b.y - a.z * b.z)
  }

  function Conjugate(q: Quaternion): Quaternion {
    Quaternion(-q.x, -q.y, -q.z, q.w)
  }

  function Negate(q: Quaternion): Quaternion {
    Quaternion(-q.x, -q.y, -q.z, -q.w)
  }

  function Norm2(q: Quaternion): real {
    q.x * q.x + q.y * q.y + q.z * q.z + q.w * q.w
  }

  function Normalize(math: RealFunctions, q: Quaternion): Quaternion {
    var length := math.sqrt(Norm2(q));
    if length == 0.0 then q else Quaternion(q.x / length, q.y / length, q.z / length, q.w / length)
  }

  function Rotate(q: Quaternion, v: Vector3): Vector3 {
    var turned := Product(Product(q, Quaternion(v.x, v.y, v.z, 0.0)), Conjugate(q));
    Vector3(turned.x, turned.y, turned.z)
  }

  /** Transform composition: `outer` applied after `inner`. */
  function Compose(outer: Transform, inner: Transform): Transform {
    Transform(Product(outer.rotation, inner.rotation), Add(outer.origin, Rotate(outer.rotation, inner.origin)))
  }

  function PoseToTransform(math: RealFunctions, pose: Pose): Transform {
    Transform(Normalize(math, pose.orientation), pose.position)
  }

  function TransformToPose(transform: Transform): Pose {
    Pose(transform.origin, transform.rotation)
  }
}
