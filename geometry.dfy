/**
 * Vectors, camera corrections and the floating-point camera geometry that the
 * bundle-adjustment model calls but does not itself define.
 */
module Geometry {

  datatype Vec2 = Vec2(x: real, y: real)
  datatype Vec3 = Vec3(x: real, y: real, z: real)

  const Zero3: Vec3 := Vec3(0.0, 0.0, 0.0)

  function Sub2(p: Vec2, q: Vec2): Vec2 { Vec2(p.x - q.x, p.y - q.y) }
  function Sub3(p: Vec3, q: Vec3): Vec3 { Vec3(p.x - q.x, p.y - q.y, p.z - q.z) }

  function Abs(r: real): real { if r < 0.0 then -r else r }

  /**
   * The six adjustment parameters of one camera: elements 0..2 of the
   * source's 6-vector are the position correction, elements 3..5 the
   * pose correction as Euler angles in "xyz" order.
   */
  datatype CameraParams = CameraParams(position: Vec3, euler: Vec3)

  /** A default-constructed 6-vector: all six elements zero. */
  const ZeroParams: CameraParams := CameraParams(Zero3, Zero3)

  /**
   * The camera geometry the model consumes as a capability:
   *  - project(camera, correction, point): the pixel of `point` seen through
   *    an AdjustedCameraModel built from `camera` and `correction`;
   *  - norm2, norm3: Euclidean norms of 2- and 3-vectors;
   *  - rotationAngle(e): the angle of the axis-angle decomposition of the
   *    quaternion for Euler angles `e`.
   */
  datatype Oracles<!Camera> = Oracles(
    project: (Camera, CameraParams, Vec3) -> Vec2,
    norm2: Vec2 -> real,
    norm3: Vec3 -> real,
    rotationAngle: Vec3 -> real)

  /** The one fact about a norm that the model needs: it vanishes at zero. */
  predicate NormVanishesAtZero<Camera>(o: Oracles<Camera>)
  {
    o.norm3(Zero3) == 0.0
  }

  /** M_PI, written out to the precision of a double literal. */
  const Pi: real := 3.141592653589793

  /** Radians to degrees, as in `angle * 180.0/M_PI`. */
  function Degrees(radians: real): real { radians * 180.0 / Pi }
}
