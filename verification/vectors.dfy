/**
 * Three-dimensional vectors over the reals, standing in for `THREE.Vector3`.
 * Distances are compared through their squares, so no square root is needed.
 */
module Vectors {

  datatype Vec3 = Vec3(x: real, y: real, z: real)

  /** `new THREE.Vector3(0, 0, 0)` */
  const Origin: Vec3 := Vec3(0.0, 0.0, 0.0)

  /** Squared Euclidean distance between two points. */
  function DistSq(a: Vec3, b: Vec3): (r: real)
    ensures r >= 0.0
  {
    (a.x - b.x) * (a.x - b.x) + (a.y - b.y) * (a.y - b.y) + (a.z - b.z) * (a.z - b.z)
  }

  /** `a.lerp(b, alpha)`: each coordinate moves by `(b - a) * alpha`. */
  function Lerp(a: Vec3, b: Vec3, alpha: real): Vec3
  {
    Vec3(a.x + (b.x - a.x) * alpha, a.y + (b.y - a.y) * alpha, a.z + (b.z - a.z) * alpha)
  }

  /**
   * For non-negative reals, comparing a distance with a threshold is the same as
   * comparing their squares; this is why the model may replace
   * `Math.sqrt(sq) < t` by `sq < t * t`.
   */
  lemma BelowIffSquareBelow(d: real, t: real)
    requires 0.0 <= d && 0.0 <= t
    ensures d < t <==> d * d < t * t
  {
    if d < t {
      SquareBelow(d, t);
    } else {
      SquareBelow(t, d);
    }
  }

  lemma SquareBelow(a: real, b: real)
    requires 0.0 <= a <= b
    ensures a * a <= b * b
    ensures a < b ==> a * a < b * b
  {
    assert b * b - a * a == (b - a) * (b + a);
    if a < b {
      assert (b - a) > 0.0 && (b + a) > 0.0;
    } else {
      assert a == b;
    }
  }
}
