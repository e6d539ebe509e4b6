/**
 * laser/shapes/triangle.py: a triangle is the closed polyline of its three
 * vertices, with barycentric containment.
 */
module Triangles {
  import opened Geometry
  import Polylines

  /** The vertex list handed to the polyline constructor (closed). */
  function Vertices(a: Vec, b: Vec, c: Vec): (r: seq<Vec>)
    ensures |r| == 3 && r[0] == a && r[1] == b && r[2] == c
    ensures Polylines.Constructible(r, true)
  {
    [a, b, c]
  }

  /** The shared denominator of the barycentric coordinates; zero exactly for collinear vertices. */
  function Denominator(p0: Vec, p1: Vec, p2: Vec): real {
    (p1.y - p2.y) * (p0.x - p2.x) + (p2.x - p1.x) * (p0.y - p2.y)
  }

  /** The barycentric weights of p with respect to p0 and p1 (the third is 1 - a - b). */
  function WeightA(p0: Vec, p1: Vec, p2: Vec, p: Vec): real
    requires Denominator(p0, p1, p2) != 0.0
  {
    ((p1.y - p2.y) * (p.x - p2.x) + (p2.x - p1.x) * (p.y - p2.y)) / Denominator(p0, p1, p2)
  }

  function WeightB(p0: Vec, p1: Vec, p2: Vec, p: Vec): real
    requires Denominator(p0, p1, p2) != 0.0
  {
    ((p2.y - p0.y) * (p.x - p2.x) + (p0.x - p2.x) * (p.y - p2.y)) / Denominator(p0, p1, p2)
  }

  predicate InUnit(x: real) {
    0.0 <= x <= 1.0
  }

  /** `is_point_inside`: all three barycentric weights lie in [0, 1]. */
  predicate IsPointInside(p0: Vec, p1: Vec, p2: Vec, p: Vec)
    requires Denominator(p0, p1, p2) != 0.0
  {
    var a := WeightA(p0, p1, p2, p);
    var b := WeightB(p0, p1, p2, p);
    InUnit(a) && InUnit(b) && InUnit(1.0 - a - b)
  }

  /** The three edges the source zips together, the closing edge last. */
  function EdgeList(p0: Vec, p1: Vec, p2: Vec): (r: seq<Polylines.Segment>)
    ensures |r| == 3
  {
    [Polylines.Segment(p0, p1), Polylines.Segment(p1, p2), Polylines.Segment(p2, p0)]
  }

  /** `is_line_inside`: an endpoint inside, or some edge met (tried in order). */
  predicate IsLineInside(p0: Vec, p1: Vec, p2: Vec, q0: Vec, q1: Vec)
    requires Denominator(p0, p1, p2) != 0.0
  {
    IsPointInside(p0, p1, p2, q0) || IsPointInside(p0, p1, p2, q1) || Polylines.MeetsAny(EdgeList(p0, p1, p2), q0, q1)
  }

  /** `is_line_outside`: both endpoints outside (not the negation of `is_line_inside`). */
  predicate IsLineOutside(p0: Vec, p1: Vec, p2: Vec, q0: Vec, q1: Vec)
    requires Denominator(p0, p1, p2) != 0.0
  {
    !IsPointInside(p0, p1, p2, q0) && !IsPointInside(p0, p1, p2, q1)
  }

  /** The weights of the vertices are the unit vectors, so each vertex is inside. */
  lemma VerticesInside(p0: Vec, p1: Vec, p2: Vec)
    requires Denominator(p0, p1, p2) != 0.0
    ensures WeightA(p0, p1, p2, p0) == 1.0 && WeightB(p0, p1, p2, p0) == 0.0
    ensures WeightA(p0, p1, p2, p1) == 0.0 && WeightB(p0, p1, p2, p1) == 1.0
    ensures WeightA(p0, p1, p2, p2) == 0.0 && WeightB(p0, p1, p2, p2) == 0.0
    ensures IsPointInside(p0, p1, p2, p0) && IsPointInside(p0, p1, p2, p1) && IsPointInside(p0, p1, p2, p2)
  {
    var d := Denominator(p0, p1, p2);
    assert (p2.y - p0.y) * (p1.x - p2.x) + (p0.x - p2.x) * (p1.y - p2.y) == d;
  }

  /** The same three edges as the closed polyline on the three vertices, so the edge part is the polyline's. */
  lemma EdgesArePolylineEdges(p0: Vec, p1: Vec, p2: Vec)
    ensures EdgeList(p0, p1, p2) == Polylines.Edges(Vertices(p0, p1, p2), true)
  {
  }

  /** The edge loop of `is_line_inside`: one of the three edges, the closing one included, is met. */
  lemma EdgeTestSpec(p0: Vec, p1: Vec, p2: Vec, q0: Vec, q1: Vec)
    ensures Polylines.MeetsAny(EdgeList(p0, p1, p2), q0, q1) <==>
      DoLinesIntersect(q0, q1, p0, p1) || DoLinesIntersect(q0, q1, p1, p2) || DoLinesIntersect(q0, q1, p2, p0)
  {
    var e := EdgeList(p0, p1, p2);
    var e1, e2 := e[1..], e[1..][1..];
    assert e2 == [Polylines.Segment(p2, p0)] && e2[1..] == [];
    assert Polylines.MeetsAny(e2, q0, q1) == DoLinesIntersect(q0, q1, p2, p0);
    assert e1 == [Polylines.Segment(p1, p2)] + e2;
    assert Polylines.MeetsAny(e1, q0, q1) == (DoLinesIntersect(q0, q1, p1, p2) || Polylines.MeetsAny(e2, q0, q1));
  }

  /**
   * A segment crossing the triangle with both ends outside is reported both
   * "inside" and "outside": the segment (-1, 1) -> (5, 1) across the
   * triangle (0, 0), (4, 0), (0, 4).
   */
  lemma CrossingSegmentIsInsideAndOutside()
    ensures var p0, p1, p2 := Vec(0.0, 0.0), Vec(4.0, 0.0), Vec(0.0, 4.0);
      Denominator(p0, p1, p2) == 16.0
      && IsLineInside(p0, p1, p2, Vec(-1.0, 1.0), Vec(5.0, 1.0))
      && IsLineOutside(p0, p1, p2, Vec(-1.0, 1.0), Vec(5.0, 1.0))
  {
    var p0, p1, p2 := Vec(0.0, 0.0), Vec(4.0, 0.0), Vec(0.0, 4.0);
    var q0, q1 := Vec(-1.0, 1.0), Vec(5.0, 1.0);
    assert WeightB(p0, p1, p2, q0) == -0.25;
    assert WeightA(p0, p1, p2, q1) == -0.5;
    assert Orientation(q0, q1, p2) == -1 && Orientation(q0, q1, p0) == 1;
    assert Orientation(p2, p0, q0) != Orientation(p2, p0, q1);
    EdgeTestSpec(p0, p1, p2, q0, q1);
  }
}
