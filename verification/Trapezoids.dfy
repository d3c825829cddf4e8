/** Integration by trapezoids, as the state-of-charge estimator and the energy counters do
    it, and the arithmetic it needs.
 */
module Trapezoids {
  function Max(x: real, y: real): real { if x >= y then x else y }
  function Min(x: real, y: real): real { if x <= y then x else y }
  function Abs(x: real): real { if x >= 0.0 then x else -x }

  /** The amount, per hour, of a rate that goes from `a` to `b` in `elapsed` seconds. */
  function Trapezoid(elapsed: real, a: real, b: real): real { elapsed / 3600.0 * (a + b) / 2.0 }

  lemma ProductIsPositive(x: real, y: real)
    requires x > 0.0 && y > 0.0
    ensures x * y > 0.0
  {
  }

  lemma ProductGrows(x: real, y: real, z: real)
    requires x <= y && z > 0.0
    ensures x * z <= y * z
    ensures x < y ==> x * z < y * z
  {
    if x < y {
      ProductIsPositive(y - x, z);
      assert (y - x) * z == y * z - x * z;
    }
  }

  lemma TrapezoidGrows(elapsed: real, a: real, b: real, c: real, d: real)
    requires elapsed >= 0.0 && a <= c && b <= d
    ensures Trapezoid(elapsed, a, b) <= Trapezoid(elapsed, c, d)
  {
    if elapsed > 0.0 {
      ProductGrows(a + b, c + d, elapsed / 3600.0);
    }
  }
}
