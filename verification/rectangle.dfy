/**
 * laser/shapes/rectangle.py: an axis-aligned rectangle is the closed
 * polygon of its four corners, listed from the top-left corner downwards.
 */
module Rectangles {
  import opened Wrappers
  import opened Numeric
  import opened Geometry
  import opened Seqs
  import Polylines

  /** The corner list handed to the polygon constructor: top-left, bottom-left, bottom-right, top-right. */
  function Vertices(topLeft: Vec, bottomRight: Vec): (r: seq<Vec>)
    ensures |r| == 4 && Polylines.Constructible(r, true)
    ensures r[0] == topLeft && r[2] == bottomRight
    ensures r[1] == Vec(topLeft.x, bottomRight.y) && r[3] == Vec(bottomRight.x, topLeft.y)
  {
    var topRight := Vec(bottomRight.x, topLeft.y);
    var bottomLeft := Vec(topLeft.x, bottomRight.y);
    [topLeft, bottomLeft, bottomRight, topRight]
  }

  /** `center`: the midpoint of vertices 0 and 2. */
  function Center(points: seq<Vec>): Vec
    requires |points| == 4
  {
    Scale(0.5, Add(points[0], points[2]))
  }

  /** `width`: x of vertex 2 minus x of vertex 0. */
  function Width(points: seq<Vec>): real
    requires |points| == 4
  {
    points[2].x - points[0].x
  }

  /** `height`: y of vertex 3 minus y of vertex 1. */
  function Height(points: seq<Vec>): real
    requires |points| == 4
  {
    points[3].y - points[1].y
  }

  /** The properties recover the corners: centre halfway between them, width and height their differences. */
  lemma PropertiesOfCorners(topLeft: Vec, bottomRight: Vec)
    ensures var v := Vertices(topLeft, bottomRight);
      && Center(v) == Vec((topLeft.x + bottomRight.x) / 2.0, (topLeft.y + bottomRight.y) / 2.0)
      && Width(v) == bottomRight.x - topLeft.x
      && Height(v) == topLeft.y - bottomRight.y
  {
  }

  /** The centre is offset from the top-left corner by half the width and minus half the height. */
  lemma CenterFromSize(topLeft: Vec, bottomRight: Vec)
    ensures var v := Vertices(topLeft, bottomRight);
      Center(v) == Vec(topLeft.x + Width(v) / 2.0, topLeft.y - Height(v) / 2.0)
  {
  }

  /** Consecutive corners, the closing pair included, share an x or a y: every edge is axis-parallel. */
  lemma EdgesAxisParallel(topLeft: Vec, bottomRight: Vec, i: nat)
    requires i < 4
    ensures var v := Vertices(topLeft, bottomRight); var j := (i + 1) % 4;
      v[i].x == v[j].x || v[i].y == v[j].y
  {
  }

  /** With the top-left corner above and left of the bottom-right one, the rectangle contains its centre (winding test on the closed polygon). */
  lemma ContainsCenter(topLeft: Vec, bottomRight: Vec)
    requires topLeft.x < bottomRight.x && bottomRight.y < topLeft.y
    ensures var v := Vertices(topLeft, bottomRight);
      Polylines.IsPointInside(v, true, Center(v)) == Ok(true)
  {
    var v := Vertices(topLeft, bottomRight);
    var c := Center(v);
    var w := bottomRight.x - topLeft.x;
    var h := topLeft.y - bottomRight.y;
    MulPositive(h, w / 2.0);
    assert Turn(v[0], v[1], c) == -(h * (w / 2.0));
    assert Turn(v[2], v[3], c) == -(h * (w / 2.0));
    var crossings := Polylines.Crossings(v, c);
    assert crossings == [-1, 0, 0, 0];
    assert crossings[..3] == [-1, 0, 0] && [-1, 0, 0][..2] == [-1, 0] && [-1, 0][..1] == [-1];
    assert Sum([-1]) == -1;
    assert Sum(crossings) == -1;
  }
}
