/**
 * laser/shapes/regular_n_gon.py: a regular n-gon is the closed polygon of
 * n vertices spaced evenly on a circle about its centre.
 */
module RegularNGons {
  import opened Wrappers
  import opened Errors
  import opened Numeric
  import opened Geometry
  import opened Polar
  import Polylines
  import Stars

  /** Vertex i of n: at angle 2 pi i / n. */
  function Vertex(m: MathFns, center: Vec, radius: real, n: nat, i: nat): Vec
    requires 0 < n
  {
    PolarPoint(m, center, radius, Angle(m, i, n))
  }

  /** The vertex list the constructor loop builds: none when n is not positive (`range(n)` is empty). */
  function Vertices(m: MathFns, center: Vec, radius: real, n: int): (r: seq<Vec>)
    ensures |r| == if n <= 0 then 0 else n
  {
    if n <= 0 then []
    else seq(n, i requires 0 <= i < n => Vertex(m, center, radius, n, i))
  }

  /**
   * The outcome of the constructor: the closed polygon of the vertices, or
   * the IndexError the polygon's length computation raises on an empty
   * closed vertex list.
   */
  function Construct(m: MathFns, center: Vec, radius: real, n: int): Result<seq<Vec>, Error> {
    var v := Vertices(m, center, radius, n);
    if Polylines.TotalLength(m, v, true).Err? then Err(Polylines.TotalLength(m, v, true).error) else Ok(v)
  }

  /** The constructor loop (lines 17-21): one vertex per i in range(n), appended in order. */
  method Build(m: MathFns, center: Vec, radius: real, n: int) returns (points: seq<Vec>)
    ensures points == Vertices(m, center, radius, n)
  {
    points := [];
    var i := 0;
    while i < n
      invariant 0 <= i && |points| == i && (0 < i ==> i <= n)
      invariant 0 < n ==> forall j :: 0 <= j < i ==> points[j] == Vertex(m, center, radius, n, j)
    {
      var angle := 2.0 * m.pi * i as real / n as real;
      var x := center.x + radius * m.cos(angle);
      var y := center.y + radius * m.sin(angle);
      assert angle == Angle(m, i, n);
      points := points + [Vec(x, y)];
      i := i + 1;
    }
  }

  /** With n >= 1 the result is a closed polygon of exactly n vertices; with n <= 0 the constructor raises IndexError. */
  lemma ConstructSpec(m: MathFns, center: Vec, radius: real, n: int)
    ensures var r := Construct(m, center, radius, n);
      && (r.Err? <==> n <= 0)
      && (r.Err? ==> r.error == IndexError)
      && (r.Ok? ==> |r.value| == n && Polylines.Constructible(r.value, true))
  {
  }

  /** Every vertex lies on the circle of the given radius. */
  lemma VerticesOnCircle(m: MathFns, center: Vec, radius: real, n: int, i: nat)
    requires Lawful(m) && i < |Vertices(m, center, radius, n)|
    ensures var d := Sub(Vertices(m, center, radius, n)[i], center); Dot(d, d) == radius * radius
  {
    PolarPointOnCircle(m, center, radius, Angle(m, i, n));
  }

  /** Vertex 0 is the centre shifted right by the radius. */
  lemma FirstVertex(m: MathFns, center: Vec, radius: real, n: int)
    requires Lawful(m) && 0 < n
    ensures Vertices(m, center, radius, n)[0] == Vec(center.x + radius, center.y)
  {
    AngleZero(m, n);
    PolarPointAtZero(m, center, radius);
  }

  /** A star's vertices with equal radii are those of the regular 2n-gon. */
  lemma EqualRadiiStarIsPolygon(m: MathFns, center: Vec, radius: real, n: int)
    ensures Stars.Vertices(m, center, radius, radius, n) == Vertices(m, center, radius, if n <= 0 then 0 else 2 * n)
  {
  }
}
