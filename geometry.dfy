/**
 * World-space vectors as exact reals. Linear interpolation is the only vector
 * arithmetic the core relies on for its own properties; Euclidean distance,
 * normalisation and the "nearly zero" test are floating-point engine helpers and
 * are supplied to the tracer as oracles (see TraceModel.Engine).
 */
module Geometry {

  datatype Vec3 = Vec3(x: real, y: real, z: real)

  /** The engine's zero vector. */
  const Zero := Vec3(0.0, 0.0, 0.0)

  /** The engine's world forward axis, used when a hit has no owner to take a forward vector from. */
  const WorldForward := Vec3(1.0, 0.0, 0.0)

  function Sub(a: Vec3, b: Vec3): Vec3
  {
    Vec3(a.x - b.x, a.y - b.y, a.z - b.z)
  }

  /** a + (b - a) * t, component-wise. */
  function Lerp(a: Vec3, b: Vec3, t: real): (r: Vec3)
    ensures t == 0.0 ==> r == a
    ensures t == 1.0 ==> r == b
  {
    Vec3(a.x + (b.x - a.x) * t, a.y + (b.y - a.y) * t, a.z + (b.z - a.z) * t)
  }
}
