/**
 * laser/shapes/star.py: a star is the closed polygon of 2n vertices that
 * alternate between an inner and an outer circle about its centre.
 */
module Stars {
  import opened Wrappers
  import opened Errors
  import opened Numeric
  import opened Geometry
  import opened Polar
  import Polylines

  /** The radius of vertex i: the inner radius at even i, the outer one at odd i. */
  function Radius(inner: real, outer: real, i: nat): real {
    if i % 2 == 0 then inner else outer
  }

  /** Vertex i of a star with n points: at angle 2 pi i / 2n. */
  function Vertex(m: MathFns, center: Vec, inner: real, outer: real, n: nat, i: nat): Vec
    requires 0 < n
  {
    PolarPoint(m, center, Radius(inner, outer, i), Angle(m, i, 2 * n))
  }

  /** The vertex list the constructor loop builds: none when n is not positive (`range(2 * n)` is empty). */
  function Vertices(m: MathFns, center: Vec, inner: real, outer: real, n: int): (r: seq<Vec>)
    ensures |r| == if n <= 0 then 0 else 2 * n
  {
    if n <= 0 then []
    else seq(2 * n, i requires 0 <= i < 2 * n => Vertex(m, center, inner, outer, n, i))
  }

  /**
   * The outcome of the constructor: the closed polygon of the vertices, or
   * the IndexError the polygon's length computation raises on an empty
   * closed vertex list.
   */
  function Construct(m: MathFns, center: Vec, inner: real, outer: real, n: int): Result<seq<Vec>, Error> {
    var v := Vertices(m, center, inner, outer, n);
    if Polylines.TotalLength(m, v, true).Err? then Err(Polylines.TotalLength(m, v, true).error) else Ok(v)
  }

  /** The constructor loop (lines 18-23): one vertex per i in range(2 * n), appended in order. */
  method Build(m: MathFns, center: Vec, inner: real, outer: real, n: int) returns (points: seq<Vec>)
    ensures points == Vertices(m, center, inner, outer, n)
  {
    points := [];
    var i := 0;
    while i < 2 * n
      invariant 0 <= i && |points| == i && (0 < i ==> 0 < n && i <= 2 * n)
      invariant 0 < n ==> forall j :: 0 <= j < i ==> points[j] == Vertex(m, center, inner, outer, n, j)
    {
      var radius := if i % 2 == 0 then inner else outer;
      var angle := 2.0 * m.pi * i as real / (2 * n) as real;
      var x := center.x + radius * m.cos(angle);
      var y := center.y + radius * m.sin(angle);
      assert radius == Radius(inner, outer, i) && angle == Angle(m, i, 2 * n);
      points := points + [Vec(x, y)];
      i := i + 1;
    }
  }

  /** A star with n >= 1 points is a closed polygon of exactly 2n vertices; with n <= 0 the constructor raises IndexError. */
  lemma ConstructSpec(m: MathFns, center: Vec, inner: real, outer: real, n: int)
    ensures var r := Construct(m, center, inner, outer, n);
      && (r.Err? <==> n <= 0)
      && (r.Err? ==> r.error == IndexError)
      && (r.Ok? ==> |r.value| == 2 * n && Polylines.Constructible(r.value, true))
  {
  }

  /** Even vertices lie on the inner circle and odd ones on the outer circle. */
  lemma VerticesOnCircles(m: MathFns, center: Vec, inner: real, outer: real, n: int, i: nat)
    requires Lawful(m) && i < |Vertices(m, center, inner, outer, n)|
    ensures var d := Sub(Vertices(m, center, inner, outer, n)[i], center);
      Dot(d, d) == if i % 2 == 0 then inner * inner else outer * outer
  {
    PolarPointOnCircle(m, center, Radius(inner, outer, i), Angle(m, i, 2 * n));
  }

  /** Vertex 0 is the centre shifted right by the inner radius. */
  lemma FirstVertex(m: MathFns, center: Vec, inner: real, outer: real, n: int)
    requires Lawful(m) && 0 < n
    ensures Vertices(m, center, inner, outer, n)[0] == Vec(center.x + inner, center.y)
  {
    AngleZero(m, 2 * n);
    PolarPointAtZero(m, center, inner);
  }
}
