/** Vectors of the vehicle's local frame and the horizontal comparisons the
    mission makes on them. Components are `real`: floating-point rounding of
    the vehicle software is not modelled. */
module Geometry {

  /** A position, velocity or offset: north, east and a third component that is
      "down" in telemetry and altitude in the box waypoints. */
  datatype Vec3 = Vec3(x: real, y: real, z: real)

  function Add(a: Vec3, b: Vec3): Vec3
  {
    Vec3(a.x + b.x, a.y + b.y, a.z + b.z)
  }

  /** Square of the Euclidean norm of the first two components. */
  function HorizontalNormSquared(v: Vec3): (n: real)
    ensures n >= 0.0
    ensures v.x == 0.0 && v.y == 0.0 ==> n == 0.0
  {
    v.x * v.x + v.y * v.y
  }

  /** Square of the horizontal distance between two points. */
  function HorizontalDistanceSquared(a: Vec3, b: Vec3): (d: real)
    ensures d >= 0.0
    ensures a.x == b.x && a.y == b.y ==> d == 0.0
  {
    HorizontalNormSquared(Vec3(a.x - b.x, a.y - b.y, 0.0))
  }

  /** A norm is below 1.0 exactly when its square is: the mission's
      `norm(...) < 1.0` tests may be read on squared norms. */
  lemma NormBelowOneIffSquareBelowOne(norm: real, square: real)
    requires norm >= 0.0 && norm * norm == square
    ensures norm < 1.0 <==> square < 1.0
  {
    if norm >= 1.0 {
      assert norm * norm >= 1.0 * norm;
    } else {
      assert norm * norm <= norm;
    }
  }

  /** The same on the horizontal speed or distance the mission compares: a
      norm of `v` is below 1.0 exactly when `HorizontalNormSquared(v)` is. */
  lemma NormBelowOneIffHorizontalSquareBelowOne(v: Vec3, norm: real)
    requires norm >= 0.0 && norm * norm == HorizontalNormSquared(v)
    ensures norm < 1.0 <==> HorizontalNormSquared(v) < 1.0
  {
    NormBelowOneIffSquareBelowOne(norm, HorizontalNormSquared(v));
  }
}
