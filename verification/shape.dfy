/**
 * laser/shapes/shape.py: the base class every shape derives from. A shape
 * keeps a stack of homogeneous 3x3 matrices and a list of noise
 * displacements; `get_render_lines` samples the figure, transforms and
 * displaces the samples, drops those outside the open square (-1, 1)^2 and
 * joins the survivors into render lines.
 */
module Shapes {
  import opened Wrappers
  import opened Errors
  import opened Numeric
  import opened Geometry
  import opened Colors
  import opened RenderLines
  import opened Figures
  import Polylines

  /** `ILDA_RESOLUTION`: the span of the 16-bit coordinate range. */
  const ILDA_RESOLUTION: int := 0x1_0000

  // ---------------------------------------------------------------------
  // The transformation matrices

  /** A 3x3 matrix, row by row. */
  datatype Matrix = Matrix(a: real, b: real, c: real, d: real, e: real, f: real, g: real, h: real, k: real)

  /** Homogeneous coordinates (x, y, w). */
  datatype Homogeneous = Homogeneous(x: real, y: real, w: real)

  function Mul(mat: Matrix, v: Homogeneous): Homogeneous {
    Homogeneous(
      mat.a * v.x + mat.b * v.y + mat.c * v.w,
      mat.d * v.x + mat.e * v.y + mat.f * v.w,
      mat.g * v.x + mat.h * v.y + mat.k * v.w)
  }

  /** A matrix whose bottom row is (0, 0, 1). */
  predicate IsAffine(mat: Matrix) {
    mat.g == 0.0 && mat.h == 0.0 && mat.k == 1.0
  }

  predicate AllAffine(ms: seq<Matrix>) {
    forall i :: 0 <= i < |ms| ==> IsAffine(ms[i])
  }

  /** What an affine matrix does to a point: the linear part, then the translation column. */
  function AffineImage(mat: Matrix, p: Vec): Vec {
    Vec(mat.a * p.x + mat.b * p.y + mat.c, mat.d * p.x + mat.e * p.y + mat.f)
  }

  /** `rotate`'s linear part: rotation by `angle` about the origin. */
  function Rotated(m: MathFns, angle: real, p: Vec): Vec {
    Vec(m.cos(angle) * p.x - m.sin(angle) * p.y, m.sin(angle) * p.x + m.cos(angle) * p.y)
  }

  /** The matrix `translate(v)` appends: it moves every point by v. */
  function TranslationMatrix(v: Vec): (r: Matrix)
    ensures IsAffine(r)
    ensures forall p :: AffineImage(r, p) == Add(p, v)
  {
    Matrix(1.0, 0.0, v.x, 0.0, 1.0, v.y, 0.0, 0.0, 1.0)
  }

  /** The matrix `rotate(angle, center)` appends: rotate about the origin, then shift by the centre. */
  function RotationMatrix(m: MathFns, angle: real, center: Vec): (r: Matrix)
    ensures IsAffine(r)
  {
    Matrix(m.cos(angle), -m.sin(angle), center.x, m.sin(angle), m.cos(angle), center.y, 0.0, 0.0, 1.0)
  }

  /** The matrix `scale(factor, center)` appends: scale each axis about the origin, then shift by the centre. */
  function ScaleMatrix(factor: Vec, center: Vec): (r: Matrix)
    ensures IsAffine(r)
  {
    Matrix(factor.x, 0.0, center.x, 0.0, factor.y, center.y, 0.0, 0.0, 1.0)
  }

  /** `rotate` and `scale` put the centre in the translation column: they act about the origin, then shift by the centre. */
  lemma CenterIsAShift(m: MathFns, angle: real, factor: Vec, center: Vec, p: Vec)
    ensures AffineImage(RotationMatrix(m, angle, center), p) == Add(Rotated(m, angle, p), center)
    ensures AffineImage(ScaleMatrix(factor, center), p) == Add(Vec(factor.x * p.x, factor.y * p.y), center)
  {
    var c, s := m.cos(angle), m.sin(angle);
    assert -s * p.y == -(s * p.y);
    assert 0.0 * p.y == 0.0 && 0.0 * p.x == 0.0;
  }

  /** The optional centre argument: the origin when omitted. */
  function CenterOrOrigin(center: Option<Vec>): Vec {
    if center.Some? then center.value else Vec(0.0, 0.0)
  }

  /** The stack applied to v in insertion order: the last matrix is applied last. */
  function ApplyAll(ms: seq<Matrix>, v: Homogeneous): Homogeneous {
    if |ms| == 0 then v else Mul(ms[|ms| - 1], ApplyAll(ms[..|ms| - 1], v))
  }

  function Lift(p: Vec): Homogeneous {
    Homogeneous(p.x, p.y, 1.0)
  }

  /** Affine matrices never change w, so the final division is by 1. */
  lemma {:induction false} AffineKeepsW(ms: seq<Matrix>, v: Homogeneous)
    requires AllAffine(ms)
    ensures ApplyAll(ms, v).w == v.w
  {
    if |ms| > 0 {
      AffineKeepsW(ms[..|ms| - 1], v);
    }
  }

  /** `_apply_transformartions`: (x, y, 1) through the stack, then x and y divided by w. */
  function Transformed(ms: seq<Matrix>, p: Vec): Vec
    requires AllAffine(ms)
  {
    var v := ApplyAll(ms, Lift(p));
    AffineKeepsW(ms, Lift(p));
    Vec(v.x / v.w, v.y / v.w)
  }

  /** An empty stack leaves every point where it is. */
  lemma TransformedEmpty(p: Vec)
    ensures Transformed([], p) == p
  {
  }

  /** Appending a matrix applies it after all earlier ones. */
  lemma TransformedAppend(ms: seq<Matrix>, mat: Matrix, p: Vec)
    requires AllAffine(ms) && IsAffine(mat)
    ensures AllAffine(ms + [mat])
    ensures Transformed(ms + [mat], p) == AffineImage(mat, Transformed(ms, p))
  {
    assert (ms + [mat])[..|ms|] == ms;
    AffineKeepsW(ms, Lift(p));
  }

  /** `translate(v)` followed by `translate(-v)` maps every point back to where it was. */
  lemma TranslateThenBack(ms: seq<Matrix>, v: Vec, p: Vec)
    requires AllAffine(ms)
    ensures AllAffine(ms + [TranslationMatrix(v), TranslationMatrix(Scale(-1.0, v))])
    ensures Transformed(ms + [TranslationMatrix(v), TranslationMatrix(Scale(-1.0, v))], p) == Transformed(ms, p)
  {
    var there, back := TranslationMatrix(v), TranslationMatrix(Scale(-1.0, v));
    TransformedAppend(ms, there, p);
    TransformedAppend(ms + [there], back, p);
    assert ms + [there] + [back] == ms + [there, back];
  }

  /** Rotating by zero does not rotate: `rotate(0, c)` only shifts by c. */
  lemma RotateByZero(m: MathFns, center: Vec, p: Vec)
    requires Lawful(m)
    ensures AffineImage(RotationMatrix(m, 0.0, center), p) == Add(p, center)
  {
  }

  /** Rotation keeps the distance from the origin; the centre is then added on top. */
  lemma RotationKeepsLength(m: MathFns, angle: real, center: Vec, p: Vec)
    requires Lawful(m)
    ensures var q := Sub(AffineImage(RotationMatrix(m, angle, center), p), center);
      Dot(q, q) == Dot(p, p)
  {
    var c, s := m.cos(angle), m.sin(angle);
    var q := Rotated(m, angle, p);
    assert Sub(AffineImage(RotationMatrix(m, angle, center), p), center) == q;
    RotatedSquares(c, s, p.x, p.y);
  }

  lemma RotatedSquares(c: real, s: real, x: real, y: real)
    requires c * c + s * s == 1.0
    ensures (c * x - s * y) * (c * x - s * y) + (s * x + c * y) * (s * x + c * y) == x * x + y * y
  {
    calc {
      (c * x - s * y) * (c * x - s * y) + (s * x + c * y) * (s * x + c * y);
      (c * c + s * s) * (x * x) + (c * c + s * s) * (y * y);
    }
  }

  /**
   * The idiom that rotates about a pivot c: translate by -c, rotate about
   * the origin, translate by c. It keeps c fixed, which `rotate(angle, c)`
   * alone does not.
   */
  lemma RotateAboutPivot(m: MathFns, angle: real, c: Vec, p: Vec)
    ensures AffineImage(TranslationMatrix(c), AffineImage(RotationMatrix(m, angle, Vec(0.0, 0.0)), AffineImage(TranslationMatrix(Scale(-1.0, c)), p)))
      == Add(c, Rotated(m, angle, Sub(p, c)))
    ensures AffineImage(TranslationMatrix(c), AffineImage(RotationMatrix(m, angle, Vec(0.0, 0.0)), AffineImage(TranslationMatrix(Scale(-1.0, c)), c)))
      == c
  {
    assert Sub(c, c) == Vec(0.0, 0.0);
  }

  // ---------------------------------------------------------------------
  // `_get_tangent`

  /** `np.linalg.norm` of a 2D vector. */
  function Length(m: MathFns, v: Vec): real {
    Polylines.Norm(m, v.x, v.y)
  }

  /**
   * The chordal tangent at p2: the two chords weighted by their lengths.
   * When both chords are empty numpy divides 0 by 0 (a NaN vector); the
   * model returns the zero vector there.
   */
  function ChordalTangent(m: MathFns, p1: Vec, p2: Vec, p3: Vec): Vec {
    var v12, v23 := Sub(p2, p1), Sub(p3, p2);
    var w12, w23 := Length(m, v12), Length(m, v23);
    if w12 + w23 == 0.0 then Vec(0.0, 0.0)
    else
      var s := Add(Scale(w12, v12), Scale(w23, v23));
      Vec(s.x / (w12 + w23), s.y / (w12 + w23))
  }

  /** The point lists `_get_tangent` raises ValueError for. */
  predicate TangentFails(pts: seq<Vec>) {
    |pts| == 1 || (|pts| == 2 && pts[0] == pts[1])
  }

  function TangentError(pts: seq<Vec>): Error {
    if |pts| == 1 then ValueError("Cannot get tangent for single point")
    else ValueError("Cannot get tangent for two identical points")
  }

  /** The tangent before normalising: the chord at either end, the chordal tangent inside. */
  function RawTangent(m: MathFns, i: nat, pts: seq<Vec>): Vec
    requires 2 <= |pts| && i < |pts|
  {
    if |pts| == 2 || i == 0 then Sub(pts[1], pts[0])
    else if i == |pts| - 1 then Sub(pts[|pts| - 1], pts[|pts| - 2])
    else ChordalTangent(m, pts[i - 1], pts[i], pts[i + 1])
  }

  /** Divided by its norm when the norm is positive, else returned as is. */
  function Normalize(m: MathFns, v: Vec): Vec {
    var n := Length(m, v);
    if n > 0.0 then Vec(v.x / n, v.y / n) else v
  }

  function TangentVector(m: MathFns, i: nat, pts: seq<Vec>): Vec
    requires 2 <= |pts| && i < |pts|
  {
    Normalize(m, RawTangent(m, i, pts))
  }

  /** `_get_tangent(i, points)`. */
  function Tangent(m: MathFns, i: nat, pts: seq<Vec>): Result<Vec, Error>
    requires i < |pts|
  {
    if TangentFails(pts) then Err(TangentError(pts)) else Ok(TangentVector(m, i, pts))
  }

  /**
   * `_get_tangent` raises ValueError exactly for a single point or two
   * identical points, whatever the index; otherwise a non-zero raw vector
   * comes back as a unit vector.
   */
  lemma TangentSpec(m: MathFns, i: nat, pts: seq<Vec>)
    requires Lawful(m) && i < |pts|
    ensures Tangent(m, i, pts).Err? <==> TangentFails(pts)
    ensures Tangent(m, i, pts).Err? ==> Tangent(m, i, pts).error.ValueError?
    ensures !TangentFails(pts) && RawTangent(m, i, pts) != Vec(0.0, 0.0) ==>
      var t := Tangent(m, i, pts).value;
      Dot(t, t) == 1.0
  {
    if !TangentFails(pts) && RawTangent(m, i, pts) != Vec(0.0, 0.0) {
      NormalizeIsUnit(m, RawTangent(m, i, pts));
    }
  }

  lemma NormalizeIsUnit(m: MathFns, v: Vec)
    requires Lawful(m) && v != Vec(0.0, 0.0)
    ensures Dot(Normalize(m, v), Normalize(m, v)) == 1.0
  {
    SumOfSquaresPositive(v.x, v.y);
    var n := Length(m, v);
    assert 0.0 < n && n * n == v.x * v.x + v.y * v.y;
    UnitScale(v.x / n, v.y / n, n, v.x, v.y);
  }

  lemma SumOfSquaresPositive(x: real, y: real)
    requires x != 0.0 || y != 0.0
    ensures 0.0 < x * x + y * y
  {
    SquareNonnegative(x);
    SquareNonnegative(y);
    if x != 0.0 {
      SquarePositive(x);
    } else {
      SquarePositive(y);
    }
  }

  lemma SquarePositive(x: real)
    requires x != 0.0
    ensures 0.0 < x * x
  {
    if x < 0.0 {
      MulPositive(-x, -x);
    } else {
      MulPositive(x, x);
    }
  }

  /** A vector n times (a, b) of length n has (a, b) of length 1. */
  lemma UnitScale(a: real, b: real, n: real, x: real, y: real)
    requires 0.0 < n && x == a * n && y == b * n && n * n == x * x + y * y
    ensures a * a + b * b == 1.0
  {
    calc {
      n * n;
      x * x + y * y;
      (a * n) * (a * n) + (b * n) * (b * n);
      { assert (a * n) * (a * n) == (a * a) * (n * n); assert (b * n) * (b * n) == (b * b) * (n * n); }
      (a * a) * (n * n) + (b * b) * (n * n);
      (a * a + b * b) * (n * n);
    }
    CancelSquare(a, b, n);
  }

  lemma CancelSquare(a: real, b: real, n: real)
    requires 0.0 < n && (a * a + b * b) * (n * n) == n * n
    ensures a * a + b * b == 1.0
  {
    MulPositive(n, n);
    var u := a * a + b * b;
    if u < 1.0 {
      MulPositive(1.0 - u, n * n);
    } else if u > 1.0 {
      MulPositive(u - 1.0, n * n);
    }
  }

  /** Two distinct points always have a unit tangent, the direction from the first to the second. */
  lemma TwoPointTangent(m: MathFns, i: nat, p: Vec, q: Vec)
    requires Lawful(m) && i < 2 && p != q
    ensures Tangent(m, i, [p, q]).Ok?
    ensures var t := Tangent(m, i, [p, q]).value;
      Dot(t, t) == 1.0 && t == Normalize(m, Sub(q, p))
  {
    assert Sub(q, p) != Vec(0.0, 0.0);
    TangentSpec(m, i, [p, q]);
  }

  // ---------------------------------------------------------------------
  // `_apply_displacements`; the noise itself is opaque

  /** A 2D noise is sampled at the point; a 3D noise at the point and the timestamp. */
  datatype Noise =
    | Noise2D(sample2: (Vec, Option<string>) -> real)
    | Noise3D(sample3: (Vec, real, Option<string>) -> real)

  /** One `displace(noise, swizzle=...)` entry. */
  datatype Displacement = Displacement(noise: Noise, swizzle: Option<string>)

  /** `noise.get_value(point, None or timestamp, swizzle=swizzle)`. */
  function Amount(d: Displacement, p: Vec, t: real): real {
    match d.noise
    case Noise2D(f) => f(p, d.swizzle)
    case Noise3D(f) => f(p, t, d.swizzle)
  }

  /** The tangent turned a quarter to the left. */
  function Normal(tangent: Vec): Vec {
    Vec(-tangent.y, tangent.x)
  }

  /** The displacement the loop accumulates, one noise value times the normal at a time. */
  function Offset(ds: seq<Displacement>, p: Vec, t: real, normal: Vec): Vec {
    if |ds| == 0 then Vec(0.0, 0.0)
    else Add(Offset(ds[..|ds| - 1], p, t, normal), Scale(Amount(ds[|ds| - 1], p, t), normal))
  }

  /** The summed noise values. */
  function TotalAmount(ds: seq<Displacement>, p: Vec, t: real): real {
    if |ds| == 0 then 0.0 else TotalAmount(ds[..|ds| - 1], p, t) + Amount(ds[|ds| - 1], p, t)
  }

  /** The accumulated displacement is the summed noise along the normal. */
  lemma {:induction false} OffsetAlongNormal(ds: seq<Displacement>, p: Vec, t: real, normal: Vec)
    ensures Offset(ds, p, t, normal) == Scale(TotalAmount(ds, p, t), normal)
  {
    if |ds| > 0 {
      OffsetAlongNormal(ds[..|ds| - 1], p, t, normal);
      var a, b := TotalAmount(ds[..|ds| - 1], p, t), Amount(ds[|ds| - 1], p, t);
      assert (a + b) * normal.x == a * normal.x + b * normal.x;
      assert (a + b) * normal.y == a * normal.y + b * normal.y;
    }
  }

  /** Displacements only move a point across the outline, never along it. */
  lemma OffsetIsPerpendicular(ds: seq<Displacement>, p: Vec, t: real, tangent: Vec)
    ensures Dot(Offset(ds, p, t, Normal(tangent)), tangent) == 0.0
  {
    OffsetAlongNormal(ds, p, t, Normal(tangent));
    var k := TotalAmount(ds, p, t);
    assert k * -tangent.y * tangent.x + k * tangent.x * tangent.y == 0.0;
  }

  /** The displaced point i, once the tangent is known to exist. */
  function DisplacedAt(m: MathFns, ds: seq<Displacement>, i: nat, t: real, pts: seq<Vec>): Vec
    requires i < |pts| && !TangentFails(pts)
  {
    Add(pts[i], Offset(ds, pts[i], t, Normal(TangentVector(m, i, pts))))
  }

  /** `_apply_displacements(i, t, points)`: the tangent is taken first, so its ValueError comes even without displacements. */
  function Displaced(m: MathFns, ds: seq<Displacement>, i: nat, t: real, pts: seq<Vec>): Result<Vec, Error>
    requires i < |pts|
  {
    if TangentFails(pts) then Err(TangentError(pts)) else Ok(DisplacedAt(m, ds, i, t, pts))
  }

  /** Without displacements every point stays where it is, unless the tangent raises. */
  lemma NoDisplacementKeepsPoint(m: MathFns, i: nat, t: real, pts: seq<Vec>)
    requires i < |pts|
    ensures Displaced(m, [], i, t, pts) == if TangentFails(pts) then Err(TangentError(pts)) else Ok(pts[i])
  {
  }

  /** The loop of `_apply_displacements` (lines 113-124). */
  method ApplyDisplacements(m: MathFns, ds: seq<Displacement>, i: nat, t: real, pts: seq<Vec>)
    returns (r: Result<Vec, Error>)
    requires i < |pts|
    ensures r == Displaced(m, ds, i, t, pts)
  {
    if TangentFails(pts) {
      return Err(TangentError(pts));
    }
    var tangent := TangentVector(m, i, pts);
    var normal := Normal(tangent);
    var point := pts[i];
    var displacement := Vec(0.0, 0.0);
    for j := 0 to |ds|
      invariant displacement == Offset(ds[..j], point, t, normal)
    {
      assert ds[..j + 1][..j] == ds[..j];
      displacement := Add(displacement, Scale(Amount(ds[j], point, t), normal));
    }
    assert ds[..|ds|] == ds;
    r := Ok(Add(pts[i], displacement));
  }

  /** The list comprehension over every index: the first call raises if any does. */
  function DisplaceAll(m: MathFns, ds: seq<Displacement>, t: real, pts: seq<Vec>): Result<seq<Vec>, Error> {
    if |pts| == 0 then Ok([])
    else if TangentFails(pts) then Err(TangentError(pts))
    else Ok(seq(|pts|, i requires 0 <= i < |pts| => DisplacedAt(m, ds, i, t, pts)))
  }

  method DisplacePoints(m: MathFns, ds: seq<Displacement>, t: real, pts: seq<Vec>)
    returns (r: Result<seq<Vec>, Error>)
    ensures r == DisplaceAll(m, ds, t, pts)
  {
    var out := [];
    for i := 0 to |pts|
      invariant |out| == i
      invariant 0 < i ==> !TangentFails(pts)
      invariant forall j :: 0 <= j < i ==> !TangentFails(pts) && out[j] == DisplacedAt(m, ds, j, t, pts)
    {
      var d := ApplyDisplacements(m, ds, i, t, pts);
      if d.Err? {
        return Err(d.error);
      }
      out := out + [d.value];
    }
    if |pts| > 0 {
      assert !TangentFails(pts);
      assert out == seq(|pts|, i requires 0 <= i < |pts| => DisplacedAt(m, ds, i, t, pts));
    }
    r := Ok(out);
  }

  // ---------------------------------------------------------------------
  // Clipping and joining

  /** The open square (-1, 1)^2 the filter keeps. */
  predicate InSquare(p: Vec) {
    -1.0 < p.x < 1.0 && -1.0 < p.y < 1.0
  }

  /** A sample with its colour, as `zip(points, colors)` pairs them. */
  datatype Survivor = Survivor(point: Vec, color: Color)

  /** `zip`: pairs up to the shorter list. */
  function Zip(points: seq<Vec>, colors: seq<Color>): (r: seq<Survivor>)
    ensures |r| == if |points| <= |colors| then |points| else |colors|
  {
    var n := if |points| <= |colors| then |points| else |colors|;
    seq(n, i requires 0 <= i < n => Survivor(points[i], colors[i]))
  }

  /** The filter of lines 94-100: samples with a coordinate at or beyond +-1 are dropped with their colour. */
  function Keep(ps: seq<Survivor>): seq<Survivor> {
    if |ps| == 0 then []
    else Keep(ps[..|ps| - 1]) + (if InSquare(ps[|ps| - 1].point) then [ps[|ps| - 1]] else [])
  }

  /** Exactly the pairs inside the square survive, in their order, never more of them than there were. */
  lemma {:induction false} KeepSpec(ps: seq<Survivor>)
    ensures |Keep(ps)| <= |ps|
    ensures forall x :: x in Keep(ps) <==> x in ps && InSquare(x.point)
    ensures forall i :: 0 <= i < |Keep(ps)| ==> InSquare(Keep(ps)[i].point)
  {
    if |ps| > 0 {
      KeepSpec(ps[..|ps| - 1]);
      assert ps == ps[..|ps| - 1] + [ps[|ps| - 1]];
    }
  }

  /** Filtering a concatenation filters each part: the survivors keep their relative order. */
  lemma {:induction false} KeepAppend(a: seq<Survivor>, b: seq<Survivor>)
    ensures Keep(a + b) == Keep(a) + Keep(b)
    decreases |b|
  {
    if |b| > 0 {
      KeepAppend(a, b[..|b| - 1]);
      assert (a + b)[..|a + b| - 1] == a + b[..|b| - 1];
    } else {
      assert a + b == a;
    }
  }

  /** When every sample is inside, nothing is dropped. */
  lemma {:induction false} KeepAllInside(ps: seq<Survivor>)
    requires forall i :: 0 <= i < |ps| ==> InSquare(ps[i].point)
    ensures Keep(ps) == ps
  {
    if |ps| > 0 {
      KeepAllInside(ps[..|ps| - 1]);
      assert ps == ps[..|ps| - 1] + [ps[|ps| - 1]];
    }
  }

  /** The loop of lines 94-100. */
  method Clip(points: seq<Vec>, colors: seq<Color>) returns (kept: seq<Survivor>)
    ensures kept == Keep(Zip(points, colors))
  {
    var all := Zip(points, colors);
    kept := [];
    for i := 0 to |all|
      invariant kept == Keep(all[..i])
    {
      assert all[..i + 1][..i] == all[..i];
      var p := all[i].point;
      if p.x <= -1.0 || p.x >= 1.0 || p.y <= -1.0 || p.y >= 1.0 {
        continue;
      }
      kept := kept + [all[i]];
    }
    assert all[..|all|] == all;
  }

  /** Lines 102-103: consecutive survivors joined, each line in its start point's colour. */
  function Join(kept: seq<Survivor>): seq<LineData> {
    if |kept| <= 1 then []
    else seq(|kept| - 1, i requires 0 <= i < |kept| - 1 => LineData(kept[i].point, kept[i + 1].point, kept[i].color, false))
  }

  /**
   * k survivors give max(k - 1, 0) unblanked lines that chain end to start;
   * line i runs from survivor i to survivor i + 1 in survivor i's colour.
   */
  lemma JoinSpec(kept: seq<Survivor>)
    ensures |Join(kept)| == if |kept| == 0 then 0 else |kept| - 1
    ensures forall i :: 0 <= i < |Join(kept)| ==>
      && Join(kept)[i].start == kept[i].point && Join(kept)[i].end == kept[i + 1].point
      && Join(kept)[i].color == kept[i].color && !Join(kept)[i].blanked
    ensures forall i :: 0 < i < |Join(kept)| ==> Join(kept)[i - 1].end == Join(kept)[i].start
  {
    var r := Join(kept);
    forall i | 0 <= i < |r|
      ensures r[i] == LineData(kept[i].point, kept[i + 1].point, kept[i].color, false)
    {
    }
  }

  // ---------------------------------------------------------------------
  // The whole of `get_render_lines`, on the shape's value

  /** Everything `get_render_lines` reads from a shape. */
  datatype ShapeState = ShapeState(
    figure: Figure,
    gradient: Gradient,
    density: Option<real>,
    matrices: seq<Matrix>,
    displacements: seq<Displacement>)

  predicate Renderable(s: ShapeState) {
    WellFormed(s.figure) && AllAffine(s.matrices) && 1 <= |s.gradient.colors|
  }

  /** `self._color_gradient.get_color` as the function the samplers take. */
  function ColorAt(g: Gradient): real -> Color {
    (s: real) => if 1 <= |g.colors| then GetColor(g, s) else Black()
  }

  function TransformAll(ms: seq<Matrix>, pts: seq<Vec>): (r: seq<Vec>)
    requires AllAffine(ms)
    ensures |r| == |pts|
  {
    seq(|pts|, i requires 0 <= i < |pts| => Transformed(ms, pts[i]))
  }

  /** `get_render_lines(timestamp)` as a list. */
  function RenderLinesOf(m: MathFns, s: ShapeState, t: real): Result<seq<LineData>, Error>
    requires Renderable(s)
  {
    var sampled := Figures.ComputePoints(m, s.figure, s.density, ColorAt(s.gradient));
    if sampled.Err? then Err(sampled.error)
    else
      var displaced := DisplaceAll(m, s.displacements, t, TransformAll(s.matrices, sampled.value.points));
      if displaced.Err? then Err(displaced.error)
      else Ok(Join(Keep(Zip(displaced.value, sampled.value.colors))))
  }

  /**
   * Every emitted line lies strictly inside (-1, 1)^2, is unblanked, and
   * starts where the previous one ended.
   */
  lemma RenderLinesInSquare(m: MathFns, s: ShapeState, t: real)
    requires Renderable(s)
    ensures var r := RenderLinesOf(m, s, t);
      r.Ok? ==>
        && (forall i :: 0 <= i < |r.value| ==>
              InSquare(r.value[i].start) && InSquare(r.value[i].end) && !r.value[i].blanked)
        && (forall i :: 0 < i < |r.value| ==> r.value[i - 1].end == r.value[i].start)
  {
    var sampled := Figures.ComputePoints(m, s.figure, s.density, ColorAt(s.gradient));
    if sampled.Ok? {
      var displaced := DisplaceAll(m, s.displacements, t, TransformAll(s.matrices, sampled.value.points));
      if displaced.Ok? {
        var kept := Keep(Zip(displaced.value, sampled.value.colors));
        KeepSpec(Zip(displaced.value, sampled.value.colors));
        JoinSpec(kept);
      }
    }
  }

  /** The samples a figure yields never reach the displacement step's tangent when it has a single sample. */
  lemma SingleSampleFails(m: MathFns, ds: seq<Displacement>, t: real, p: Vec)
    ensures DisplaceAll(m, ds, t, [p]) == Err(ValueError("Cannot get tangent for single point"))
  {
  }

  /**
   * A Point shape never renders: its two samples are the same point, and
   * stay the same point under any transformation, so the tangent taken
   * before the displacements raises ValueError (density 0 raises
   * ZeroDivisionError first).
   */
  lemma PointShapeTangentFails(m: MathFns, p: Vec, g: Gradient, density: real, ms: seq<Matrix>, ds: seq<Displacement>, t: real)
    requires Lawful(m) && AllAffine(ms) && 1 <= |g.colors|
    ensures var r := RenderLinesOf(m, ShapeState(PointFigure(p), g, Some(density), ms, ds), t);
      r == if density == 0.0 then Err(ZeroDivisionError)
           else Err(ValueError("Cannot get tangent for two identical points"))
  {
    var s := ShapeState(PointFigure(p), g, Some(density), ms, ds);
    assert Outline(s.figure) == [p, p];
    Figures.ComputePointsSpec(m, s.figure, s.density, ColorAt(g));
    if density != 0.0 {
      Polylines.RepeatedPointDividesByZero(m, p, density, ColorAt(g));
      var pts := TransformAll(ms, [p, p]);
      assert pts[0] == pts[1];
      assert TangentFails(pts);
    }
  }

  /**
   * The gradient `Polyline.copy` gives the copy: the corrected gradient copy,
   * which keeps every waypoint (see `Colors.CopyLosesEndColour` for the copy
   * as written).
   */
  function CopiedGradient(g: Gradient): Gradient
    requires 1 <= |g.colors|
  {
    Gradient(ExactCopy(g.colors), g.mode)
  }

  /**
   * `copy` is `Polyline.copy`, so a triangle, line or point comes back as
   * the plain polyline of its vertices; ellipses keep their figure.
   */
  function CopiedFigure(f: Figure): (r: Figure)
    ensures WellFormed(f) ==> WellFormed(r)
  {
    if f.EllipseFigure? then f else PolylineFigure(Outline(f), IsClosed(f))
  }

  /** The copy samples exactly as the original does. */
  lemma CopySamplesAlike(m: MathFns, f: Figure, density: Option<real>, colorAt: real -> Color)
    requires WellFormed(f)
    ensures Figures.ComputePoints(m, CopiedFigure(f), density, colorAt) == Figures.ComputePoints(m, f, density, colorAt)
  {
  }

  // ---------------------------------------------------------------------
  // The shape object

  /** The displacement list, an object of its own because `Polyline.copy` shares it with the copy. */
  class DisplacementList {
    var items: seq<Displacement>

    constructor ()
      ensures items == []
    {
      items := [];
    }

    method Append(d: Displacement)
      modifies this
      ensures items == old(items) + [d]
    {
      items := items + [d];
    }
  }

  class Shape {
    const figure: Figure
    const gradient: ColorGradient
    var density: Option<real>
    var matrices: seq<Matrix>
    const displacements: DisplacementList

    ghost predicate Valid()
      reads this, gradient
    {
      WellFormed(figure) && gradient.Valid() && AllAffine(matrices)
    }

    function State(): ShapeState
      reads this, gradient, displacements
    {
      ShapeState(figure, gradient.Value(), density, matrices, displacements.items)
    }

    /** `Shape.__init__`: no matrices and no displacements yet. */
    constructor (figure: Figure, gradient: ColorGradient, density: Option<real>)
      requires WellFormed(figure) && gradient.Valid()
      ensures Valid() && fresh(displacements)
      ensures this.figure == figure && this.gradient == gradient && this.density == density
      ensures matrices == [] && displacements.items == []
    {
      this.figure := figure;
      this.gradient := gradient;
      this.density := density;
      matrices := [];
      displacements := new DisplacementList();
    }

    /** The object `Polyline.copy` builds: fresh matrices, the given displacement list. */
    constructor Copied(figure: Figure, gradient: ColorGradient, density: Option<real>, matrices: seq<Matrix>, displacements: DisplacementList)
      requires WellFormed(figure) && gradient.Valid() && AllAffine(matrices)
      ensures Valid()
      ensures this.figure == figure && this.gradient == gradient && this.density == density
      ensures this.matrices == matrices && this.displacements == displacements
    {
      this.figure := figure;
      this.gradient := gradient;
      this.density := density;
      this.matrices := matrices;
      this.displacements := displacements;
    }

    /** `translate(v)`: one more matrix, and the same shape back. */
    method Translate(v: Vec) returns (s: Shape)
      requires Valid()
      modifies this
      ensures s == this && Valid()
      ensures matrices == old(matrices) + [TranslationMatrix(v)] && density == old(density)
    {
      matrices := matrices + [TranslationMatrix(v)];
      s := this;
    }

    /** `rotate(angle, center=None)`. */
    method Rotate(m: MathFns, angle: real, center: Option<Vec>) returns (s: Shape)
      requires Valid()
      modifies this
      ensures s == this && Valid()
      ensures matrices == old(matrices) + [RotationMatrix(m, angle, CenterOrOrigin(center))] && density == old(density)
    {
      matrices := matrices + [RotationMatrix(m, angle, CenterOrOrigin(center))];
      s := this;
    }

    /** `scale(factor, center=None)`. */
    method Scale(factor: Vec, center: Option<Vec>) returns (s: Shape)
      requires Valid()
      modifies this
      ensures s == this && Valid()
      ensures matrices == old(matrices) + [ScaleMatrix(factor, CenterOrOrigin(center))] && density == old(density)
    {
      matrices := matrices + [ScaleMatrix(factor, CenterOrOrigin(center))];
      s := this;
    }

    /** `displace(noise, swizzle=...)`: one more entry in the (possibly shared) displacement list. */
    method Displace(noise: Noise, swizzle: Option<string>) returns (s: Shape)
      modifies displacements
      ensures s == this
      ensures displacements.items == old(displacements.items) + [Displacement(noise, swizzle)]
    {
      displacements.Append(Displacement(noise, swizzle));
      s := this;
    }

    /** The `point_density` setter. */
    method SetPointDensity(value: Option<real>)
      modifies this
      ensures density == value && matrices == old(matrices)
    {
      density := value;
    }

    /**
     * `Polyline.copy`: the vertices, a copied gradient, the density and the
     * matrices, with the displacement list shared rather than copied.
     */
    method Copy() returns (c: Shape)
      requires Valid()
      ensures fresh(c) && fresh(c.gradient) && c.Valid()
      ensures c.figure == CopiedFigure(figure) && c.density == density && c.matrices == matrices
      ensures c.displacements == displacements
      ensures c.gradient.Value() == CopiedGradient(gradient.Value())
    {
      var g := gradient.CopyExact();
      c := new Shape.Copied(CopiedFigure(figure), g, density, matrices, displacements);
    }

    /** `_apply_transformartions` (lines 106-110). */
    method ApplyTransformations(p: Vec) returns (q: Vec)
      requires AllAffine(matrices)
      ensures q == Transformed(matrices, p)
    {
      var ms := matrices;
      var v := Lift(p);
      for i := 0 to |ms|
        invariant v == ApplyAll(ms[..i], Lift(p))
      {
        assert ms[..i + 1][..i] == ms[..i];
        v := Mul(ms[i], v);
      }
      assert ms[..|ms|] == ms;
      AffineKeepsW(ms, Lift(p));
      q := Vec(v.x / v.w, v.y / v.w);
    }

    /** The comprehension of lines 85-88. */
    method TransformPoints(pts: seq<Vec>) returns (r: seq<Vec>)
      requires AllAffine(matrices)
      ensures r == TransformAll(matrices, pts)
    {
      r := [];
      for i := 0 to |pts|
        invariant |r| == i
        invariant forall j :: 0 <= j < i ==> r[j] == Transformed(matrices, pts[j])
      {
        var q := ApplyTransformations(pts[i]);
        r := r + [q];
      }
    }

    /** `get_render_lines(timestamp)`, collected into a list. */
    method GetRenderLines(m: MathFns, t: real) returns (r: Result<seq<LineData>, Error>)
      requires Valid()
      ensures Renderable(State())
      ensures r == RenderLinesOf(m, State(), t)
    {
      var colorAt := ColorAt(gradient.Value());
      var sampled := SampleFigure(m, figure, density, colorAt);
      if sampled.Err? {
        return Err(sampled.error);
      }
      var moved := TransformPoints(sampled.value.points);
      var displaced := DisplacePoints(m, displacements.items, t, moved);
      if displaced.Err? {
        return Err(displaced.error);
      }
      var kept := Clip(displaced.value, sampled.value.colors);
      r := Ok(Join(kept));
    }
  }

  /** A copy shares its displacement list: displacing the original displaces the copy too. */
  method DisplaceAfterCopy(s: Shape, noise: Noise) returns (c: Shape)
    requires s.Valid()
    modifies s.displacements
    ensures fresh(c)
    ensures c.displacements.items == old(s.displacements.items) + [Displacement(noise, None)]
  {
    c := s.Copy();
    var _ := s.Displace(noise, None);
  }
}
