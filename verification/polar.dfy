/**
 * Points placed around a centre by angle, as the regular-polygon, star and
 * ellipse constructors of laser/shapes place them with numpy's cos and sin.
 */
module Polar {
  import opened Numeric
  import opened Geometry

  /** The angle of step i of n around the circle: 2 pi i / n, evaluated left to right. */
  function Angle(m: MathFns, i: nat, n: nat): real
    requires 0 < n
  {
    2.0 * m.pi * i as real / n as real
  }

  /** The point at distance `radius` from `center` in direction `angle`. */
  function PolarPoint(m: MathFns, center: Vec, radius: real, angle: real): Vec {
    Vec(center.x + radius * m.cos(angle), center.y + radius * m.sin(angle))
  }

  /** Step 0 of any n is angle 0. */
  lemma AngleZero(m: MathFns, n: nat)
    requires 0 < n
    ensures Angle(m, 0, n) == 0.0
  {
  }

  /** At angle 0 the point lies on the positive x axis through the centre. */
  lemma PolarPointAtZero(m: MathFns, center: Vec, radius: real)
    requires Lawful(m)
    ensures PolarPoint(m, center, radius, 0.0) == Vec(center.x + radius, center.y)
  {
  }

  /** Every polar point lies on the circle of its radius: its squared distance from the centre is radius squared. */
  lemma PolarPointOnCircle(m: MathFns, center: Vec, radius: real, angle: real)
    requires Lawful(m)
    ensures var d := Sub(PolarPoint(m, center, radius, angle), center); Dot(d, d) == radius * radius
  {
    var c, s := m.cos(angle), m.sin(angle);
    assert Sub(PolarPoint(m, center, radius, angle), center) == Vec(radius * c, radius * s);
    SumOfScaledSquares(radius, c, s);
  }

  lemma SumOfScaledSquares(r: real, c: real, s: real)
    requires c * c + s * s == 1.0
    ensures (r * c) * (r * c) + (r * s) * (r * s) == r * r
  {
    assert (r * c) * (r * c) + (r * s) * (r * s) == (r * r) * (c * c + s * s);
  }
}
