/**
 The magnitude-to-radius rule of the earthquake markers:
 radius = 2 * Math.max(mag, 1), a linear size with a floor.
 */
module MarkerRadius {

  /** `Math.max` of two numbers; NaN is not modelled. */
  function Max(a: real, b: real): (m: real)
    ensures m >= a && m >= b
    ensures m == a || m == b
  {
    if a >= b then a else b
  }

  /** The pixel radius a quake of magnitude `mag` is drawn with. */
  function Radius(mag: real): (r: real)
    ensures r >= 2.0
    ensures r >= 2.0 * mag
    ensures r == 2.0 || r == 2.0 * mag
  {
    2.0 * Max(mag, 1.0)
  }

  /** Above the floor the radius is twice the magnitude; at or below it, exactly 2. */
  lemma RadiusCases(mag: real)
    ensures mag >= 1.0 ==> Radius(mag) == 2.0 * mag
    ensures mag <= 1.0 ==> Radius(mag) == 2.0
  {
  }

  /** A stronger quake never gets a smaller marker. */
  lemma RadiusMonotone(m1: real, m2: real)
    requires m1 <= m2
    ensures Radius(m1) <= Radius(m2)
  {
  }

  /**
   The radius determines the magnitude above the floor, and the floor radius
   is drawn exactly for magnitudes at most 1.
   */
  lemma RadiusRecoversMagnitude(mag: real)
    ensures Radius(mag) > 2.0 <==> mag > 1.0
    ensures Radius(mag) > 2.0 ==> Radius(mag) / 2.0 == mag
    ensures Radius(mag) == 2.0 <==> mag <= 1.0
  {
  }
}
