# ILDA laser frames and DMX lighting tracks — a Dafny model

The repository generates a laser show and a lighting track for one timeline.

**Laser side.**
- Shapes are geometric figures sampled into points:
  - polyline, polygon, triangle, line, point, rectangle, star, regular n-gon and ellipse.
- Each shape carries a colour gradient, a stack of 3×3 homogeneous transformation matrices and a list of noise displacements.
- A frame collects copies of shapes. Each copy is marked as a drawn shape or an exclusion shape.
- `IldxFactory` builds the frames of every animation and turns each frame into render lines:
  - the lines are clipped to the projection square (-1, 1)²;
  - lines that meet an exclusion zone are blanked;
  - consecutive shapes are joined by blanked black transit lines;
  - each frame's line list is primed with a copy of its first line.
- The factory then optionally mirrors the lines and encodes them in the ILDA image-data format:
  - one big-endian 32-byte header per frame;
  - one 8-byte 2D true-colour record per line;
  - a terminating header.

**DMX side.**
- A fixture hands out consecutive channel addresses.
- Channels and subchannels scale levels in [0, 1] onto byte ranges, with `lerp` and `smooth` easing.
- The DMX factory delta-encodes the channel values of successive frames and writes them as little-endian ctypes records.

**Utilities.**
- The `np_cache` memo wrapper.
- The argument and swizzle checks of the noise wrapper.
- GLSL-style shader helpers.
- The "mm:ss" timing parser of the 2025 show script.

## How the model is built

- Pure code becomes datatypes, functions and lemmas. State that Python updates in place becomes classes:
  - `Shapes.Shape`, `Shapes.DisplacementList`;
  - `Colors.ColorGradient`;
  - `RenderLines.RenderLine`;
  - `Frames.Frame`, `DmxFrames.Frame`;
  - `Channels.Channel`, `Fixtures.Fixture`;
  - `Memos.Memo`, `IldxFactories.IldxFactory`.
- Loops become methods with invariants. Each method is proved against a function that specifies it, and the properties the code promises are lemmas about those functions.
- Python exceptions are an `Errors.Error` value inside a `Result`: `ZeroDivisionError`, `IndexError`, `ValueError`, `KeyError`, `TypeError`, `OverflowError`, `UnicodeEncodeError`, `NotImplementedError` (an abstract base-class method reached) and `MathDomainError` (Python's `ValueError("math domain error")` from `math.sqrt` of a negative number).
- Floats are exact reals. Python's `int()`, `round()`, `math.ceil` and float `%` are written out in `Numeric`, and ctypes integer fields wrap modulo 2^(8·width).
- `sqrt`, `cos`, `sin` and `pi` are a parameter, `Numeric.MathFns`. The model assumes only these laws about them, collected in `Numeric.Lawful`:
  - for x ≥ 0, `sqrt x` is non-negative and squares back to x;
  - for x > 0, `sqrt x > 0`, and `sqrt 0 = 0`;
  - `cos 0 = 1` and `sin 0 = 0`;
  - `cos² x + sin² x = 1` for every x;
  - `pi > 0`.
- The source files come from different refactoring stages. The model bridges the gaps as follows:
  - a render line's `p0`/`p1` are its `start`/`end`;
  - `Shape.ILDX_RESOLUTION` is the `ILDA_RESOLUTION` of 65536 that `laser/shapes/shape.py` defines;
  - the DMX frame's `timestamp` is its `t`;
  - the `displacement` argument that Ellipse, Line and Point pass to their parents is dropped;
  - `Shape.get_centroid` is abstract (`laser/shapes/shape.py:33-35`) and only Line, Point and Ellipse define it. So Polyline, Polygon, Triangle, Rectangle, Star and RegularNGon cannot be instantiated as written: construction raises TypeError. The model constructs them as if they could;
  - `Polyline.copy` constructs the abstract `Polyline` (`laser/shapes/polyline.py:368`). It reads `_transformations` and `_inverse_transformations` (lines 374-375), which no constructor assigns; the constructor of `laser/shapes/shape.py:30` assigns `_transformation_matrices`. The model's copy carries the transformation matrices over;
  - Ellipse defines no `copy`, so `Frame.add_shape` raises AttributeError on an ellipse (`laser/frame.py:59`). The model's copy of an ellipse keeps its figure.
- Start times are integers. `adjust_start_time` (`laser/ildx.py:76-79`) fills the 3-byte big-endian `starttime` field (`laser/ildx.py:14`) with `int.to_bytes`, which a float does not have. The model counts them in the unit the caller passes them in.

## Model

| member | source | states |
|---|---|---|
| Geometry.Orientation | laser/shapes/polyline.py:144-157 | 1, 0 or -1 exactly as the turn quantity is positive, zero or negative |
| Geometry.OrientationCyclic | laser/shapes/polyline.py:144-157 | rotating the three arguments leaves the orientation unchanged |
| Geometry.OrientationSwap | laser/shapes/polyline.py:144-157 | exchanging two arguments negates the orientation |
| Geometry.OrientationDegenerate | laser/shapes/polyline.py:144-157 | a repeated point is always reported collinear |
| Geometry.OrientationExample | laser/shapes/polyline.py:144-157 | the formula, not the docstring, decides: (0,0),(1,0),(1,1) gives -1 |
| Geometry.IntersectSymmetric | laser/shapes/polyline.py:159-190 | exchanging the two segments does not change the intersection answer |
| Geometry.IntersectReverseFirst | laser/shapes/polyline.py:159-190 | reversing the first segment does not change the answer |
| Geometry.IntersectReverseSecond | laser/shapes/polyline.py:159-190 | reversing the second segment does not change the answer |
| Geometry.IntersectSharedEndpoint | laser/shapes/polyline.py:159-190 | segments sharing an endpoint always intersect |
| Points.Vertices | laser/shapes/point.py:18 | the Point's polyline is open on exactly [point, point] |
| Points.CentroidInside | laser/shapes/point.py:20-24 | the centroid is the point, it is inside, and no other point is |
| Points.SegmentThroughPoint | laser/shapes/point.py:26-33 | a segment starting or ending at the point is inside |
| Points.DegenerateSegment | laser/shapes/point.py:26-33 | for p0 = p1 the line test is equality with p0 |
| Points.SegmentContainsPointIsLineTest | laser/shapes/point.py:26-33 | the point's line test equals the Line shape's point test on that segment |
| Polar.AngleZero | laser/shapes/regular_n_gon.py:17-21 | step 0 of any count is angle 0 |
| Polar.PolarPointAtZero | laser/shapes/regular_n_gon.py:18-21 | at angle 0 the vertex is the centre shifted right by the radius |
| Polar.PolarPointOnCircle | laser/shapes/regular_n_gon.py:18-21 | every polar vertex lies at squared distance radius² from the centre |
| Lines.Vertices | laser/shapes/line.py:18 | the Line's polyline is open on exactly [start, end] |
| Lines.EndpointsAndCentroidInside | laser/shapes/line.py:20-30 | both endpoints and the midpoint centroid are inside the line |
| Lines.LineInsideIsPolylineTest | laser/shapes/line.py:32-36 | the line test is the intersection test with [start, end], the polyline test on its open vertex list; outside is its negation |
| Lines.LineThroughEndpointInside | laser/shapes/line.py:32-33 | a segment through an endpoint is always inside |
| Polylines.PathLengthNonnegative | laser/shapes/polyline.py:61-66 | the open path length is never negative |
| Polylines.TotalLengthSpec | laser/shapes/polyline.py:61-71 | the total length fails exactly for a closed empty list; otherwise it is non-negative and at least the open path |
| Polylines.ComputeTotalLength | laser/shapes/polyline.py:61-71 | the accumulating loop computes exactly the specified total length or its IndexError |
| Polylines.Spacing | laser/shapes/polyline.py:74 | for any density but 0 the spacing has the density's sign and times density·65536 gives 1 |
| Polylines.InsertCount | laser/shapes/polyline.py:87-92 | for a positive spacing an edge longer than it gets round(len/spacing) ≥ 1 points, others none; for a negative spacing every edge gets none, because the count is at most 0 and `range(1, n + 1)` is then empty |
| Polylines.InsertedSpec | laser/shapes/polyline.py:92-101 | the inner loop appends exactly count points a + j·(dx, dy), j = 1..count, keeping the three lists aligned |
| Polylines.OpenEdgeSpec | laser/shapes/polyline.py:81-109 | one open edge appends its inserted points and then its end vertex |
| Polylines.ClosingEdgeSpec | laser/shapes/polyline.py:111-140 | the closing edge appends its inserted points and then vertex 0 |
| Polylines.WalkToSpec | laser/shapes/polyline.py:76-109 | after vertex k-1 the lists are aligned, start with (vertex 0, colour at 0, 0) and end with vertex k-1 |
| Polylines.VertexAtIndex | laser/shapes/polyline.py:81-109 | every earlier vertex stays at its vertex index as the walk goes on |
| Polylines.VertexIndexIncreasing | laser/shapes/polyline.py:81-109 | vertices are emitted in order: their indices strictly increase |
| Polylines.VertexGap | laser/shapes/polyline.py:87-107 | the gap between consecutive vertex indices is one plus the edge's inserted count |
| Polylines.ComputePointsSpec | laser/shapes/polyline.py:73-142 | ZeroDivisionError for density 0, else IndexError without vertices; otherwise aligned lists of the stated length, starting with (vertex 0, colour at 0, 0), every vertex at its index in order, ending with the last vertex (open) or vertex 0 (closed) |
| Polylines.ComputePointsVertices | laser/shapes/polyline.py:73-142 | for any density but 0, every vertex appears at its index in the sampled points |
| Polylines.ComputePointsZeroLength | laser/shapes/polyline.py:133-136 | with zero total length every arc parameter of the corrected sampling is 0 |
| Polylines.RepeatedPointDividesByZero | laser/shapes/polyline.py:103-105 | the two-vertex polyline on one point makes the code as written raise ZeroDivisionError, while the corrected sampling returns both vertices with parameter 0 |
| Polylines.AsWrittenAgreesElsewhere | laser/shapes/polyline.py:73-142 | the as-written sampling equals the corrected one whenever it does not raise the division error; the corrected one raises it exactly for density 0 |
| Polylines.WalkToNegative | laser/shapes/polyline.py:79-109 | with a negative spacing the open edges insert nothing, keep the accumulated length at 0 and emit each vertex at parameter 0 |
| Polylines.NegativeDensitySamples | laser/shapes/polyline.py:73-142 | a negative density samples exactly the vertices (and vertex 0 again when closed), open vertices at parameter 0 and the closing vertex at the closing edge's share of the total |
| Polylines.InsertEdgePoints | laser/shapes/polyline.py:87-101 | the method appends exactly the inserted points of the specification |
| Polylines.OpenEdgeStep | laser/shapes/polyline.py:81-109 | one loop iteration moves the state from vertex i-1 to vertex i of the walk |
| Polylines.EdgeStep | laser/shapes/polyline.py:81-109 | one pass of the edge loop produces the specified walk state |
| Polylines.SampleOpenEdges | laser/shapes/polyline.py:76-109 | the first sample and the edge loop build the specified walk |
| Polylines.SamplePoints | laser/shapes/polyline.py:73-142 | the method returns exactly the corrected sampling's result |
| Polylines.ClosingEdgeStep | laser/shapes/polyline.py:111-140 | the closing edge extends the walk as specified |
| Polylines.Next | laser/shapes/polyline.py:202 | the successor index wraps to 0 after the last vertex, as `(i + 1) % n` |
| Polylines.PointInside | laser/shapes/polyline.py:193-212 | the counting loop returns exactly the winding-number containment over every edge including the closing one |
| Polylines.CrossingSwap | laser/shapes/polyline.py:200-208 | traversing an edge the other way negates its crossing contribution |
| Polylines.WindingNumberReverse | laser/shapes/polyline.py:193-212 | reversing the vertex order negates the winding number |
| Polylines.PointInsideReverse | laser/shapes/polyline.py:193-212 | containment does not depend on the vertex direction |
| Polylines.SquareContainsCentre | laser/shapes/polyline.py:193-212 | the ±1 square contains its centre |
| Polylines.CrossingsOfReverse | laser/shapes/polyline.py:200-208 | the crossings of the reversed polygon are the negated crossings in reverse order, the closing edge's last |
| Polylines.Edges | laser/shapes/polyline.py:214-234 | the edges iterated: i-1 → i for every i, plus the closing edge exactly when closed |
| Polylines.MeetsAnySpec | laser/shapes/polyline.py:218-233 | the edge loop returns true exactly when some edge meets the segment |
| Polylines.LineInsideSpec | laser/shapes/polyline.py:214-234 | inside ⇔ (closed and an endpoint inside) or some edge, closing edge included, meets the segment |
| Polylines.LineOutsideSpec | laser/shapes/polyline.py:236-239 | outside ⇔ no edge met and, when closed, no endpoint inside: the exact negation |
| Polylines.LineFromVertexIsInside | laser/shapes/polyline.py:214-234 | a segment starting at a vertex of a polyline with an edge is inside |
| Polylines.Reaches | laser/shapes/polyline.py:302-324 | the cumulative length each edge reaches, one per edge |
| Polylines.FirstReachingSpec | laser/shapes/polyline.py:302-324 | -1 with no reach at or above the target, else the first index whose reach is |
| Polylines.FindLineSegmentIndex | laser/shapes/polyline.py:302-324 | the loop returns the first edge whose cumulative length reaches s·total (len-1 for the closing edge) or -1 |
| Polylines.SegmentIndexFound | laser/shapes/polyline.py:302-324 | on an open polyline of positive length every s in [0, 1] finds an edge |
| Polylines.SignedDistanceSign | laser/shapes/polyline.py:264-269 | for a positive distance the value is negative exactly for a point inside a closed polyline, and its magnitude is the distance |
| Triangles.Vertices | laser/shapes/triangle.py:17 | a triangle is the closed polyline on exactly its three vertices |
| Triangles.EdgeList | laser/shapes/triangle.py:29 | the three zipped edges, the closing edge last |
| Triangles.VerticesInside | laser/shapes/triangle.py:19-24 | each vertex has a unit weight vector, so each vertex is inside |
| Triangles.EdgesArePolylineEdges | laser/shapes/triangle.py:29-31 | the zipped edges are exactly the closed polyline's edges |
| Triangles.EdgeTestSpec | laser/shapes/triangle.py:29-32 | the edge loop is true ⇔ one of the three edges, closing one included, is met |
| Triangles.CrossingSegmentIsInsideAndOutside | laser/shapes/triangle.py:26-35 | a segment crossing the triangle with both ends outside is reported both inside and outside |
| Ellipses.CentreAndAxisEndsInside | laser/shapes/ellipse.py:63-68 | the centre and the axis ends are inside (boundary counts) |
| Ellipses.NoRootWhenNegative | laser/shapes/ellipse.py:80-82 | with a negative discriminant no point of the line lies on the boundary form |
| Ellipses.RootOnBoundary | laser/shapes/ellipse.py:76-85 | with a non-negative discriminant each root of the centred quadratic puts the line point on the ellipse |
| Ellipses.LineInsideMeetsBoundary | laser/shapes/ellipse.py:76-90 | when the corrected test reports a segment with both ends outside, some point of it lies on the ellipse |
| Ellipses.LineMissesBoundary | laser/shapes/ellipse.py:80-82 | a negative discriminant makes the corrected test false for outside endpoints |
| Ellipses.OffCentreSegmentMissed | laser/shapes/ellipse.py:76-90 | the code as written misses the segment x = 4.5, y ∈ [-2, 2] through the unit circle about (5, 0); the corrected test finds it |
| Ellipses.OutsideIsNotNegation | laser/shapes/ellipse.py:92-93 | a segment from the centre to a far point is both inside and outside |
| Ellipses.NotOutsideIsInside | laser/shapes/ellipse.py:70-93 | when outside is false both endpoints are inside, so inside is true |
| Ellipses.CountNeedsCircumference | laser/shapes/ellipse.py:31-34 | a positive sample count implies a circumference of the density's sign, never 0, so `t` never divides by zero |
| Ellipses.ComputePointsSpec | laser/shapes/ellipse.py:30-61 | fails exactly when the product under the root is negative (MathDomainError) or the density is 0 (ZeroDivisionError, checked second); otherwise the n samples of the angle walk |
| Ellipses.SamplesOnEllipse | laser/shapes/ellipse.py:43-59 | every sample lies on the ellipse |
| Ellipses.PointOnEllipse | laser/shapes/ellipse.py:44-46 | the sample at any angle step lies on the ellipse |
| Ellipses.FirstSample | laser/shapes/ellipse.py:43-46 | the first sample is the end of the x radius, at parameter 0 |
| Ellipses.ParametersIncrease | laser/shapes/ellipse.py:48-59 | for a positive density the parameters start at 0, are non-negative and never decrease |
| Ellipses.CirclePerimeter | laser/shapes/ellipse.py:31 | for a circle the perimeter approximation is exactly 2πr |
| Ellipses.CircumferencePositive | laser/shapes/ellipse.py:31 | positive radii give a positive circumference and a root argument `sqrt` accepts |
| Ellipses.NegativeDensityNoSamples | laser/shapes/ellipse.py:30-43 | a negative density with positive radii rounds the count to at most 0, so no samples |
| Ellipses.SampleEllipse | laser/shapes/ellipse.py:30-61 | the method returns exactly the specified sampling |
| Ellipses.SampleLoop | laser/shapes/ellipse.py:43-59 | the loop builds the first n samples of the specification |
| Ellipses.SampleStep | laser/shapes/ellipse.py:48-59 | one iteration adds the chord and emits sample i at its parameter |
| Rectangles.Vertices | laser/shapes/rectangle.py:16-21 | the corners in order tl, (tl.x, br.y), br, (br.x, tl.y), closed |
| Rectangles.PropertiesOfCorners | laser/shapes/rectangle.py:23-33 | centre is the midpoint of the corners, width br.x − tl.x, height tl.y − br.y |
| Rectangles.CenterFromSize | laser/shapes/rectangle.py:23-33 | the centre is tl offset by half the width and minus half the height |
| Rectangles.EdgesAxisParallel | laser/shapes/rectangle.py:16-21 | every edge, closing one included, is axis-parallel |
| Rectangles.ContainsCenter | laser/shapes/rectangle.py:16-25 | a rectangle with tl above-left of br contains its centre |
| Stars.Vertices | laser/shapes/star.py:18-23 | 2n vertices for n ≥ 1, vertex i at radius inner (even) or outer (odd), angle iπ/n |
| Stars.Build | laser/shapes/star.py:18-23 | the constructor loop builds exactly the specified vertex list |
| Stars.ConstructSpec | laser/shapes/star.py:8-24 | a closed polygon of exactly 2n vertices for n ≥ 1; IndexError for n ≤ 0 |
| Stars.VerticesOnCircles | laser/shapes/star.py:19-23 | even vertices lie on the inner circle, odd ones on the outer |
| Stars.FirstVertex | laser/shapes/star.py:18-23 | vertex 0 is the centre shifted right by the inner radius |
| RegularNGons.Vertices | laser/shapes/regular_n_gon.py:17-21 | n vertices for n ≥ 1, vertex i at angle 2πi/n on the radius |
| RegularNGons.Build | laser/shapes/regular_n_gon.py:17-21 | the constructor loop builds exactly the specified vertex list |
| RegularNGons.ConstructSpec | laser/shapes/regular_n_gon.py:8-22 | a closed polygon of exactly n vertices for n ≥ 1; IndexError for n ≤ 0 |
| RegularNGons.VerticesOnCircle | laser/shapes/regular_n_gon.py:18-21 | every vertex lies on the circle of the radius |
| RegularNGons.FirstVertex | laser/shapes/regular_n_gon.py:18-21 | vertex 0 is the centre shifted right by the radius |
| RegularNGons.EqualRadiiStarIsPolygon | laser/shapes/star.py:18-23 | a star with equal radii has the vertices of the regular 2n-gon |
| Shapes.TranslationMatrix | laser/shapes/shape.py:127-134 | an affine matrix that moves every point by v |
| Shapes.RotationMatrix | laser/shapes/shape.py:136-145 | an affine matrix: rotation about the origin, then the centre added |
| Shapes.ScaleMatrix | laser/shapes/shape.py:147-156 | an affine matrix: axis scaling about the origin, then the centre added |
| Shapes.CenterIsAShift | laser/shapes/shape.py:139-154 | rotate and scale act about the origin and then shift by the centre |
| Shapes.AffineKeepsW | laser/shapes/shape.py:106-110 | affine matrices keep w = 1, so the final division is by 1 |
| Shapes.TransformedEmpty | laser/shapes/shape.py:106-110 | an empty stack returns every point unchanged |
| Shapes.TransformedAppend | laser/shapes/shape.py:106-110 | matrices apply in insertion order: an appended one applies last |
| Shapes.TranslateThenBack | laser/shapes/shape.py:127-134 | translate(v) then translate(-v) maps every point back to itself |
| Shapes.RotateByZero | laser/shapes/shape.py:136-145 | rotate(0, c) only shifts by c |
| Shapes.RotationKeepsLength | laser/shapes/shape.py:136-145 | the rotation part keeps the distance from the origin |
| Shapes.RotateAboutPivot | laser/shapes/shape.py:127-145 | translate(-c), rotate, translate(c) keeps c fixed, which rotate(angle, c) alone does not |
| Shapes.TangentSpec | laser/shapes/shape.py:53-80 | ValueError exactly for one point or two identical points; otherwise a non-zero raw vector comes back with length 1 |
| Shapes.NormalizeIsUnit | laser/shapes/shape.py:77-79 | a non-zero vector divided by its norm has length one |
| Shapes.TwoPointTangent | laser/shapes/shape.py:56-59 | two distinct points have the unit tangent from the first to the second |
| Shapes.OffsetAlongNormal | laser/shapes/shape.py:112-124 | the displacement is the summed noise along the normal |
| Shapes.OffsetIsPerpendicular | laser/shapes/shape.py:112-124 | displacements move a point only across the outline, never along the tangent |
| Shapes.NoDisplacementKeepsPoint | laser/shapes/shape.py:112-124 | with no displacements every point is returned unchanged (unless the tangent raises) |
| Shapes.ApplyDisplacements | laser/shapes/shape.py:112-124 | the loop returns exactly the specified displaced point or the tangent's error |
| Shapes.DisplacePoints | laser/shapes/shape.py:89-92 | every point displaced in order, or the first error |
| Shapes.Zip | laser/shapes/shape.py:96 | pairs up to the shorter list |
| Shapes.KeepSpec | laser/shapes/shape.py:94-100 | exactly the pairs strictly inside the square survive, in order, never more than given |
| Shapes.KeepAppend | laser/shapes/shape.py:94-100 | filtering a concatenation filters each part, keeping relative order |
| Shapes.KeepAllInside | laser/shapes/shape.py:94-100 | when every sample is inside nothing is dropped |
| Shapes.Clip | laser/shapes/shape.py:94-100 | the loop returns exactly the surviving points and colours |
| Shapes.JoinSpec | laser/shapes/shape.py:102-103 | k survivors give max(k-1, 0) unblanked lines, line i from survivor i to i+1 in survivor i's colour, chained end to start |
| Shapes.RenderLinesInSquare | laser/shapes/shape.py:83-103 | every emitted line lies strictly inside (-1, 1)², is unblanked and starts where the previous one ended |
| Shapes.SingleSampleFails | laser/shapes/shape.py:53-55 | a single sample makes the displacement step's tangent raise |
| Shapes.PointShapeTangentFails | laser/shapes/shape.py:56-58 | a Point shape never renders: ZeroDivisionError for density 0, otherwise its two identical samples, under any transformation, make the tangent raise ValueError for two identical points |
| Shapes.CopiedFigure | laser/shapes/polyline.py:367-377 | a copy is the plain polyline of the vertices; ellipses keep their figure |
| Shapes.CopySamplesAlike | laser/shapes/polyline.py:367-377 | the copy samples exactly as the original |
| Shapes.DisplacementList.constructor | laser/shapes/shape.py:31 | a new displacement list is empty |
| Shapes.DisplacementList.Append | laser/shapes/shape.py:159 | appends exactly one entry |
| Shapes.Shape.constructor | laser/shapes/shape.py:22-31 | keeps gradient and density, no matrices and no displacements |
| Shapes.Shape.Copied | laser/shapes/polyline.py:367-377 | the copy object holds the given matrices and shares the given displacement list |
| Shapes.Shape.Translate | laser/shapes/shape.py:127-134 | one more matrix, the translation, and the same shape returned |
| Shapes.Shape.Rotate | laser/shapes/shape.py:136-145 | one more matrix, the rotation with the centre (0 when None), same shape |
| Shapes.Shape.Scale | laser/shapes/shape.py:147-156 | one more matrix, the scaling with the centre (0 when None), same shape |
| Shapes.Shape.Displace | laser/shapes/shape.py:158-160 | one more (noise, swizzle) entry in the shared list, same shape |
| Shapes.Shape.SetPointDensity | laser/shapes/shape.py:166-168 | the density changes and nothing else |
| Shapes.Shape.Copy | laser/shapes/polyline.py:367-377 | vertices, a copied gradient, the density and the matrices copied; the displacement list shared |
| Shapes.Shape.ApplyTransformations | laser/shapes/shape.py:106-110 | the loop returns the point transformed by the stack in insertion order |
| Shapes.Shape.TransformPoints | laser/shapes/shape.py:85-88 | every sampled point transformed |
| Shapes.Shape.GetRenderLines | laser/shapes/shape.py:83-103 | the lines of the specified render pipeline, or its error |
| Shapes.DisplaceAfterCopy | laser/shapes/polyline.py:374 | displacing the original after a copy displaces the copy too |
| Figures.OutlineConstructible | laser/shapes/polyline.py:48-71 | every well-formed polyline-based figure is one the polyline constructor accepts |
| Figures.ComputePointsSpec | laser/shapes/shape.py:38 | aligned sample lists; the only errors are, in this order, the ellipse's root domain, the unset density (TypeError), the density 0 (ZeroDivisionError) and the empty polyline's IndexError |
| Figures.SampleFigure | laser/shapes/polyline.py:73-142 | the dispatched sampling loop returns exactly the figure's specified samples |
| Figures.OutsideIsNegationForPaths | laser/shapes/triangle.py:34-35 | polylines, lines and points define outside as not inside; triangles and ellipses only test endpoints |
| Colors.Sextant | laser/color.py:42-65 | the hue sextant selected; hues outside [0, 5/6) fall in the last branch |
| Colors.FromRgb | laser/color.py:19-24 | an RGB colour whose HSV components are the computed ones |
| Colors.FromHsv | laser/color.py:25-29 | an HSV colour whose RGB components are the computed ones |
| Colors.Black | laser/color.py:15-17 | black is RGB (0, 0, 0) |
| Colors.CopyColor | laser/color.py:109-110 | the copy equals the original under `__eq__` |
| Colors.HsvRanges | laser/color.py:71-92 | for components in [0,1]: v is the max, s = 0 ⇔ max = 0, h = 0 for greys, h ∈ [0,1), s ∈ [0,1] |
| Colors.HsvRoundTrip | laser/color.py:37-92 | RGB → HSV → RGB gives the colour back |
| Colors.HueCases | laser/color.py:72-90 | for non-grey colours: v is the largest, v·s the spread, h the branch of the largest component |
| Colors.HueRoundTrip | laser/color.py:37-92 | a non-grey colour's HSV converts back to its RGB |
| Colors.GreyRoundTrip | laser/color.py:37-92 | a grey colour (max = min) converts back to itself |
| Colors.ComputeRgbFrom | laser/color.py:37-69 | the RGB is the sextant's arrangement of (c, x, 0) lifted by m = v − c |
| Colors.Chroma | laser/color.py:72-90 | the chroma v·s is max − min |
| Colors.RedHueRoundTrip | laser/color.py:78-79 | red largest: the conversion back lands on (r, g, b) |
| Colors.GreenHueRoundTrip | laser/color.py:80-81 | green largest: the conversion back lands on (r, g, b) |
| Colors.BlueHueRoundTrip | laser/color.py:82-83 | blue largest: the conversion back lands on (r, g, b) |
| Colors.SecondComponent | laser/color.py:38-39 | x is c times the fractional distance, on both sides of 1 |
| Colors.InsertionIndex | laser/color.py:137-139 | a stable sort places the appended entry after every entry at or before its position |
| Colors.InsertStablePlacement | laser/color.py:137-139 | exactly one entry added, after equal positions and before later ones, others in order |
| Colors.InsertStableMultiset | laser/color.py:137-139 | add_color is a permutation of the old list plus the new entry |
| Colors.InsertStableSorted | laser/color.py:137-139 | inserting into a sorted list keeps it sorted |
| Colors.FindBracketSpec | laser/color.py:141-143 | the first bracket p_i < s ≤ p_{i+1} at or after `from`; None exactly when there is none |
| Colors.RatioBounds | laser/color.py:143-144 | the ratio lies in (0, 1]; equal adjacent positions never divide |
| Colors.GetColorOutside | laser/color.py:141-150 | at or before the first position and beyond the last, the first colour |
| Colors.GetColorRgbBetween | laser/color.py:145-146 | in 'rgb' mode each channel lies between the bracket's two colours |
| Colors.InterpolateRgbBetween | laser/color.py:94-99 | a ratio in [0,1] keeps each channel between the two colours |
| Colors.InterpolateRgbChannels | laser/color.py:94-99 | each channel is a + (b − a)·t |
| Colors.GetColorAtWaypoint | laser/color.py:141-148 | at a waypoint closing a bracket the gradient gives that waypoint's RGB in either mode |
| Colors.CopiedWaypoints | laser/color.py:154-155 | every later waypoint with its colour copied |
| Colors.RebuildSpec | laser/color.py:153-156 | re-adding keeps the list sorted and holds exactly the base and the re-added entries |
| Colors.CopyStep | laser/color.py:154-155 | one more re-added waypoint is one more stable insertion |
| Colors.ColorGradient.constructor | laser/color.py:118-122 | [(0.0, start), (1.0, end or start)] with the mode |
| Colors.ColorGradient.AddColor | laser/color.py:137-139 | the list becomes the stable insertion of the new entry |
| Colors.ColorGradient.Copy | laser/color.py:152-156 | the copy holds the two-point start on the first colour plus every later waypoint re-added |
| Colors.ColorGradient.CopyExact | laser/color.py:152-156 | the corrected copy holds the same waypoints with copied colours |
| Colors.CopyLosesEndColour | laser/color.py:152-156 | the copy of red→blue gives red at 1.0 where the original gives blue |
| Colors.ExactCopyIsEqual | laser/color.py:124-132 | the corrected copy compares equal to the original and stays sorted |
| Colors.CopyIsNotEqual | laser/color.py:124-132 | the copy as written never compares equal: it has one more waypoint |
| Colors.FreshGradientEnds | laser/color.py:118-150 | a fresh gradient gives its start colour at 0 and its end colour at 1 |
| RenderLines.BlankData | laser/render_line.py:21-22 | only the flag changes, to true |
| RenderLines.FlipXData | laser/render_line.py:24-26 | both x coordinates negated, all else unchanged |
| RenderLines.FlipYData | laser/render_line.py:28-30 | both y coordinates negated, all else unchanged |
| RenderLines.BlankIdempotent | laser/render_line.py:21-22 | blanking twice is blanking once |
| RenderLines.FlipsAreInvolutions | laser/render_line.py:24-30 | each flip undoes itself |
| RenderLines.FlipsCommute | laser/render_line.py:21-30 | the flips commute with each other and with blanking |
| RenderLines.RenderLine.constructor | laser/render_line.py:12-16 | the line holds fresh copies of the endpoints, the colour and the flag |
| RenderLines.RenderLine.Copy | laser/render_line.py:18-19 | equal fields in fresh storage |
| RenderLines.RenderLine.Blank | laser/render_line.py:21-22 | the line becomes its blanked data |
| RenderLines.RenderLine.FlipX | laser/render_line.py:24-26 | the line becomes its x-flipped data |
| RenderLines.RenderLine.FlipY | laser/render_line.py:28-30 | the line becomes its y-flipped data |
| RenderLines.CopyIsIndependent | laser/render_line.py:18-30 | blanking and flipping a copy leaves the original unchanged |
| Frames.ProgressOf | laser/frame.py:46-48 | ZeroDivisionError exactly for zero duration; otherwise progress · duration = t − start_t |
| Frames.IndexOfFrameTime | laser/frame.py:50-52 | the frame at start_t + i/fps has index i |
| Frames.ProgressOfFrameTime | laser/frame.py:46-52 | frames i < fps·duration have progress in [0, 1), 0 on the first |
| Frames.DefaultDensity | laser/frame.py:57-58 | the shape's own density, or the frame's when it has none |
| Frames.CopiedStateRenderable | laser/frame.py:54-59 | the kept copy renders whenever the shape could, sampling as the shape with the density filled in |
| Frames.Frame.constructor | laser/frame.py:14-20 | the given fields and no shapes |
| Frames.Frame.AddShape | laser/frame.py:54-59 | None is a no-op; otherwise the caller's density is filled if unset and a copy with its flag is appended |
| Frames.Frame.AddAssign | laser/frame.py:61-63 | add_shape with flag false, the same frame returned |
| Frames.Frame.Pickle | laser/ildx_factory.py:112-117 | the frame value handed to a worker |
| FrameAssembly.ShapeResults | laser/ildx_factory.py:123-125 | what each shape yields at the frame's time, in order |
| FrameAssembly.ShapeResultsTidy | laser/shapes/shape.py:83-103 | every shape's successful lines are in the square, chained and unblanked |
| FrameAssembly.Primed | laser/ildx_factory.py:150-152 | a copy of the first line put in front of a non-empty list |
| FrameAssembly.BlankAllTidy | laser/ildx_factory.py:125-135 | blanking keeps lines in the square and chained, and leaves drawn only what no zone hits |
| FrameAssembly.AssembleFromFails | laser/ildx_factory.py:123-148 | the rest of the loop fails exactly when a later shape fails |
| FrameAssembly.GatherStep | laser/ildx_factory.py:123-148 | one round keeps the gathered lines inside the square, chained, and clear where drawn |
| FrameAssembly.GatherTransit | laser/ildx_factory.py:137-148 | the blanked black transit from the last end to the next shape's first start keeps the lines chained |
| FrameAssembly.GatherShape | laser/ildx_factory.py:125-135 | a shape's blanked lines continue what is gathered |
| FrameAssembly.AssembleFromKeeps | laser/ildx_factory.py:123-148 | a successful rest of the loop returns lines in the square, chained, clear of zones where drawn |
| FrameAssembly.AssembledSpec | laser/ildx_factory.py:121-152 | error exactly when a shape fails; otherwise empty or a copy of the first line before chained in-square lines, drawn ones missed by the zones |
| FrameAssembly.FrameLinesSpec | laser/ildx_factory.py:121-152 | the same for a whole frame's shape list |
| FrameAssembly.EmptyFrameHasNoLines | laser/ildx_factory.py:150-152 | a frame without shapes has no lines |
| FrameAssembly.BlankByZones | laser/ildx_factory.py:128-133 | the zone loop blanks a line exactly when some zone's inside/outside test hits it |
| FrameAssembly.ComputeRenderLinesForFrame | laser/ildx_factory.py:121-152 | the method returns exactly the specified assembly |
| FrameAssembly.AppendBlanked | laser/ildx_factory.py:125-135 | each line through the zones, then appended |
| Ildx.BigEndian | laser/ildx.py:11-23 | a width-byte big-endian field whose last byte is v mod 256 |
| Ildx.BigEndianRoundTrip | laser/ildx.py:11-23 | reading a field back gives v modulo the field's range |
| Ildx.FieldRoundTrip | laser/ildx.py:11-23 | a value that fits the field comes back unchanged |
| Ildx.Int16RoundTrip | laser/ildx.py:65-73 | a signed 16-bit field holds any value in [-32768, 32767] exactly |
| Ildx.MagicSpellsFormat | laser/ildx.py:4-5 | the magic numbers spell "ILDA" and "ILDX" |
| Ildx.StatusCodeBits | laser/ildx.py:7-8 | bit 6 set exactly when blanked, bit 7 exactly for the last point, no other bit |
| Ildx.AdjustStartTime | laser/ildx.py:76-79 | three big-endian bytes, or OverflowError outside [0, 2^24) |
| Ildx.AdjustStartTimeRoundTrip | laser/ildx.py:76-79 | the three bytes read back as the time |
| Ildx.ZeroStartTime | laser/ildx.py:82-83 | three zero bytes |
| Ildx.ZeroStartTimeIsAdjustedZero | laser/ildx.py:76-83 | zero_start_time equals adjust_start_time(0) |
| Ildx.EncodeHeader | laser/ildx.py:11-23 | the header is 32 bytes |
| Ildx.HeaderLayout | laser/ildx.py:11-23 | each field's offset, as in the ILDA header table, and each reads back as its value modulo its range |
| Ildx.EncodeRecord | laser/ildx.py:65-73 | the record is 8 bytes |
| Ildx.RecordLayout | laser/ildx.py:65-73 | int16 coordinates read back exactly; the other four fields modulo 256 |
| IldxWriter.FormatName | laser/ildx_factory.py:96-102 | exactly 8 characters: truncated, or padded with spaces |
| IldxWriter.FormatNameIdempotent | laser/ildx_factory.py:96-102 | a formatted name formats to itself |
| IldxWriter.FormatNameKeepsPrefix | laser/ildx_factory.py:96-102 | names agreeing in their first 8 characters format alike |
| IldxWriter.AsciiBytes | laser/ildx_factory.py:198-199 | one byte per ASCII character, UnicodeEncodeError otherwise |
| IldxWriter.AsciiBytesRoundTrip | laser/ildx_factory.py:198-199 | the bytes read back as the name |
| IldxWriter.CoordinateFits | laser/ildx_factory.py:217-218 | a coordinate in (-1, 1) scaled by 32768 fits int16 |
| IldxWriter.ColorByteFits | laser/ildx_factory.py:220-222 | a channel in [0,1] is a byte, 0 and 255 at its ends |
| IldxWriter.FrameRecords | laser/ildx_factory.py:210-224 | one record per line; only the last line carries the last-point bit |
| IldxWriter.EncodeRecords | laser/ildx_factory.py:210-224 | 8 bytes per line |
| IldxWriter.RecordReadsBack | laser/ildx_factory.py:210-224 | record k reads back as the scaled end point, the blanking flag and the last-point bit on the last line only |
| IldxWriter.RecordOfReadsBack | laser/ildx_factory.py:211-223 | one record reads back as its end point and two flags |
| IldxWriter.SharedFields | laser/ildx_factory.py:193-199 | start time (unless legacy), company, frame name, in argument order |
| IldxWriter.SharedFieldsFail | laser/ildx_factory.py:193-199 | fails exactly when the start time does not fit 3 bytes (non-legacy) or a name is not ASCII |
| IldxWriter.Terminator | laser/ildx_factory.py:226-237 | the closing header has no records and format code 5 |
| IldxWriter.TerminatorNames | laser/ildx_factory.py:230-231 | its names are the bytes of eight spaces |
| IldxWriter.EncodeFrame | laser/ildx_factory.py:191-224 | a header then the records: 32 + 8·lines bytes |
| IldxWriter.EncodeFrames | laser/ildx_factory.py:186-224 | the first n frames one after another |
| IldxWriter.AnimationBytes | laser/ildx_factory.py:185-224 | nothing for no frames; else the frames or the shared fields' error |
| IldxWriter.AnimationParts | laser/ildx_factory.py:185-224 | the bytes of each animation in order |
| IldxWriter.JoinPartsFails | laser/ildx_factory.py:185-224 | joining stops at the first failing part with its error |
| IldxWriter.FailureStops | laser/ildx_factory.py:185-224 | once a part fails, more parts keep its error |
| IldxWriter.JoinedLength | laser/ildx_factory.py:185-224 | joined parts take a header per frame and a record per line |
| IldxWriter.JoinFails | laser/ildx_factory.py:185-224 | a failing part after joined parts fails the whole file |
| IldxWriter.EncodeFileSpec | laser/ildx_factory.py:182-238 | fails exactly when an animation with frames cannot encode its fields (first one's error); else a header per frame, a record per line and the terminator |
| IldxWriter.TerminatorLayout | laser/ildx_factory.py:226-237 | the terminator announces no records, no frames and format 5 |
| IldxWriter.FrameHeaderLayout | laser/ildx_factory.py:191-208 | record count, frame number and frame total (mod 2^16), ILDA magic, format 5, shared fields, projector, and 0 / fps / 1 in the rate byte |
| IldxWriter.WriteFile | laser/ildx_factory.py:182-238 | the method returns exactly the specified file bytes or error |
| IldxWriter.WriteTerminator | laser/ildx_factory.py:226-238 | the closing header as specified |
| IldxWriter.WriteAnimation | laser/ildx_factory.py:186-224 | the frame loop returns the animation's specified bytes |
| IldxWriter.HeaderFields | laser/ildx_factory.py:193-199 | the shared fields in argument order |
| IldxWriter.WriteFrame | laser/ildx_factory.py:191-224 | one frame's specified bytes |
| IldxWriter.WriteRecords | laser/ildx_factory.py:210-224 | the record loop's specified bytes |
| IldxFactories.Zones | laser/ildx_factory.py:128 | each zone's figure with its flag |
| IldxFactories.AddAll | laser/frame.py:54-59 | copies with the frame's density filled in |
| IldxFactories.ZoneCopies | laser/ildx_factory.py:27-29 | the zone shapes added as exclusion shapes |
| IldxFactories.Filled | laser/ildx_factory.py:25-30 | the factory's shapes, then the zones when shown |
| IldxFactories.FilledSpec | laser/ildx_factory.py:25-30 | timing, density and earlier shapes kept; one shape per handed shape and, when shown, one exclusion shape per zone |
| IldxFactories.FrameCount | laser/ildx_factory.py:110 | ceil(fps·duration) frames |
| IldxFactories.FrameCountSpec | laser/ildx_factory.py:108-111 | frame i exists exactly when i < fps·duration |
| IldxFactories.AnimationCount | laser/ildx_factory.py:107 | zip stops at the shortest list |
| IldxFactories.AnimationFrames | laser/ildx_factory.py:108-117 | the filled frames of one animation |
| IldxFactories.Animations | laser/ildx_factory.py:104-119 | the filled frames of every animation |
| IldxFactories.FrameTiming | laser/ildx_factory.py:108-111 | frame i sits i/fps seconds into the animation, has index i and progress in [0,1), 0 first |
| IldxFactories.FlipLine | laser/ildx_factory.py:169-177 | endpoints mirrored as the flags say, nothing else touched |
| IldxFactories.FlipLineInvolution | laser/ildx_factory.py:169-177 | mirroring twice gives the line back |
| IldxFactories.FlipKeepsFramed | laser/ildx_factory.py:169-177 | mirroring keeps the frame's shape and blanking; drawn lines avoid the mirrored zones |
| IldxFactories.FrameResults | laser/ildx_factory.py:157-165 | the assembly of each frame of an animation |
| IldxFactories.Flipped | laser/ildx_factory.py:169-177 | every line of every frame mirrored |
| IldxFactories.FlippedCollect | laser/ildx_factory.py:157-177 | each frame's lines are its result mirrored, keeping what the result guaranteed |
| IldxFactories.AnimationLinesSpec | laser/ildx_factory.py:154-180 | error exactly when a frame's assembly fails (first one's error); else one mirrored, framed list per frame |
| IldxFactories.RenderedFails | laser/ildx_factory.py:154-180 | all lines fail exactly when some frame's assembly fails |
| IldxFactories.RenderedShape | laser/ildx_factory.py:154-180 | one list per animation with its frame count, every frame framed |
| IldxFactories.RenderedClear | laser/ildx_factory.py:121-180 | without exclusion shapes every drawn line is clear of the mirrored zones |
| IldxFactories.NoExclusionShapes | laser/ildx_factory.py:25-30 | without shown zones and none handed over no frame holds an exclusion shape |
| IldxFactories.RunSpec | laser/ildx_factory.py:242-245 | when every frame assembles, the file fails exactly when header fields cannot be encoded; else a header per frame, a record per line and the terminator |
| IldxFactories.FillFrame | laser/ildx_factory.py:25-30 | the method fills the frame as specified |
| IldxFactories.ComputeFrames | laser/ildx_factory.py:104-119 | the method returns exactly the specified animations |
| IldxFactories.ComputeAnimationFrames | laser/ildx_factory.py:108-117 | one animation's frames as specified |
| IldxFactories.ComputeRenderLines | laser/ildx_factory.py:154-180 | the method returns exactly the specified lines |
| IldxFactories.AnimationRenderLines | laser/ildx_factory.py:157-179 | one animation's lines, then the flips |
| IldxFactories.FlipPasses | laser/ildx_factory.py:169-177 | every line flipped in x, then in y, as the flags say |
| IldxFactories.MapLines | laser/ildx_factory.py:170-172 | one flip loop over every line |
| IldxFactories.FormattedNames | laser/ildx_factory.py:80-89 | formatted names padded with blank names up to the count |
| IldxFactories.IldxFactory.constructor | laser/ildx_factory.py:55-91 | lists as given, names formatted and padded, no zones |
| IldxFactories.IldxFactory.AddExclusionZone | laser/ildx_factory.py:93-94 | the zone and its flag appended |
| IldxFactories.IldxFactory.Run | laser/ildx_factory.py:242-245 | the specified file bytes or the error that stops the run |
| DmxRecords.Wrap | dmx/dmx.py:7-28 | the value a ctypes unsigned field keeps, modulo 2^(8·width) |
| DmxRecords.LittleEndian | dmx/dmx.py:7-28 | a width-byte little-endian field, first byte v mod 256 |
| DmxRecords.LittleEndianRoundTrip | dmx/dmx.py:7-28 | reading back gives the wrapped value |
| DmxRecords.EncodeHeader | dmx/dmx.py:7-14 | the 16-byte header |
| DmxRecords.EncodeElement | dmx/dmx.py:17-21 | 8 bytes, with two bytes of alignment padding |
| DmxRecords.EncodeValue | dmx/dmx.py:24-28 | 4 bytes, with one byte of alignment padding |
| DmxRecords.HeaderFields | dmx/dmx.py:7-14 | where each header field lies |
| DmxRecords.HeaderRoundTrip | dmx/dmx.py:7-14 | a header whose fields fit reads back exactly |
| DmxRecords.ElementRoundTrip | dmx/dmx.py:17-21 | an element whose fields fit reads back exactly |
| DmxRecords.ValueRoundTrip | dmx/dmx.py:24-28 | a value whose fields fit reads back exactly |
| DmxRecords.BlockRoundTrip | dmx/dmx.py:17-28 | an element followed by its values reads back as that element and those values, leaving the rest |
| DmxRecords.DecodeFile | dmx/dmx.py:7-28 | a decoded file holds as many blocks as its header counts |
| DmxRecords.ValuesRoundTrip | dmx/dmx.py:24-28 | values written in sequence read back in order, the rest untouched |
| DmxRecords.BlocksRoundTrip | dmx/dmx.py:17-28 | blocks written in sequence read back in order, the rest untouched |
| DmxRecords.FileRoundTrip | dmx/dmx.py:7-28 | a well-formed file reads back exactly as written |
| DmxRecords.MagicBytes | dmx/dmx.py:3-4 | the magic lies in the file as "DXM ", not "DMX " |
| DmxFrames.Frame.constructor | dmx/frame.py:12-17 | the given fields and no channel values |
| DmxFrames.Frame.RelT | dmx/frame.py:27-29 | start_t + rel_t = t |
| DmxFrames.Frame.Progress | dmx/frame.py:43-45 | ZeroDivisionError exactly for zero duration; otherwise progress · duration = rel_t |
| DmxFrames.Frame.Index | dmx/frame.py:47-49 | rel_t·fps truncated toward zero |
| DmxFrames.Frame.TotalFrames | dmx/frame.py:51-53 | duration·fps truncated toward zero |
| DmxFrames.Frame.AddValue | dmx/frame.py:55-56 | the pair appended, never merged |
| DmxFrames.Frame.AddAssign | dmx/frame.py:58-60 | add_value and the same frame returned |
| DmxFrames.IndexBelowTotal | dmx/frame.py:43-53 | an index below total_frames means progress in [0, 1) |
| Subchannels.Clamp01 | dmx/subchannel.py:20 | the level clamped into [0, 1], unchanged inside it |
| Subchannels.Scaled | dmx/subchannel.py:21 | the scaled level lies between min and max |
| Subchannels.Level | dmx/subchannel.py:19-22 | the byte lies in the range; ≤ 0 gives min, ≥ 1 gives max |
| Subchannels.SetValue | dmx/subchannel.py:19-22 | (channel index, byte in range), min at ≤ 0 and max at ≥ 1 |
| Subchannels.SetValueMonotone | dmx/subchannel.py:19-22 | a higher level never gives a lower byte on an ascending range |
| Subchannels.Zero | dmx/subchannel.py:91-92 | (index, min) |
| Subchannels.Max | dmx/subchannel.py:94-95 | (index, max) |
| Subchannels.Activate | dmx/subchannel.py:100-104 | (index, the middle of the range truncated) |
| Subchannels.LerpLevel | dmx/subchannel.py:65-71 | start before the window, end after it, the blend between; ZeroDivisionError exactly for the one-instant window at t |
| Subchannels.Progress | dmx/subchannel.py:70 | the progress lies in [0, 1], 0 at the start, 1 at the end |
| Subchannels.Lerp | dmx/subchannel.py:57-72 | set_value of the lerp level, or its error |
| Subchannels.SmoothLevel | dmx/subchannel.py:82-88 | like lerp outside the window, (end − start)·p² + start inside |
| Subchannels.SmoothTrailsLerp | dmx/subchannel.py:65-88 | on a rising window smooth never runs ahead of lerp |
| Subchannels.Smooth | dmx/subchannel.py:74-89 | set_value of the smooth level, or its error |
| Channels.DefaultSubchannel | dmx/channel.py:16-18 | 'default', 0..255, continuous |
| Channels.Channel.constructor | dmx/channel.py:13-18 | only the default subchannel |
| Channels.Channel.Register | dmx/channel.py:24-27 | the first added subchannel discards what was held; later ones accumulate |
| Channels.Channel.AddContinuousSubchannel | dmx/channel.py:23-28 | registers a continuous subchannel under its name |
| Channels.Channel.AddCategorySubchannel | dmx/channel.py:30-35 | registers a category subchannel under its name |
| Channels.Channel.Get | dmx/channel.py:37-41 | the subchannel, or KeyError |
| Channels.Channel.Value | dmx/channel.py:63-65 | a lookup of a subchannel named '_value' |
| Channels.Channel.SetValue | dmx/channel.py:43-47 | (index, int(value·255)), not clamped |
| Channels.Channel.Zero | dmx/channel.py:49-50 | (index, 0) |
| Channels.Channel.Max | dmx/channel.py:52-53 | (index, 255) |
| Channels.ChannelAgreesWithDefault | dmx/channel.py:43-53 | agrees with the default subchannel on [0, 1]; above 1 it leaves the byte range |
| Fixtures.NewChannel | dmx/fixture.py:39 | a channel at the given address |
| Fixtures.AddTo | dmx/channel.py:23-35 | what an add call does to a channel's value |
| Fixtures.ApplyEntry | dmx/fixture.py:26-30 | 'value' adds continuous, 'category' adds category, other types nothing; a bad range is TypeError |
| Fixtures.ApplyEntries | dmx/fixture.py:25-30 | entries applied in order, stopping at the first malformed one |
| Fixtures.ApplyEntriesFails | dmx/fixture.py:25-30 | fails exactly when an entry is malformed |
| Fixtures.ApplyEntriesNames | dmx/fixture.py:25-30 | the default subchannel stays until an add; then exactly the named subchannels |
| Fixtures.ChannelFrom | dmx/fixture.py:23-30 | the channel built for one entry at its address |
| Fixtures.Names | dmx/fixture.py:23-24 | the entry names in order |
| Fixtures.RegisteredConsecutive | dmx/fixture.py:38-41 | distinct names are filed at start, start+1, …; the count is the number of names |
| Fixtures.ReAddSharesAddress | dmx/fixture.py:38-41 | re-adding a name keeps the count, and the next new name gets the same address |
| Fixtures.FixtureFrom | dmx/fixture.py:14-31 | channels in list order at the next address; later duplicates replace |
| Fixtures.FixtureFromAddresses | dmx/fixture.py:14-31 | one channel per distinct name at its handed-out address |
| Fixtures.FixtureFromStep | dmx/fixture.py:23-30 | one more entry of a built description |
| Fixtures.FixtureFromFails | dmx/fixture.py:14-31 | fails, with TypeError, exactly when some subchannel entry is malformed |
| Fixtures.Fixture.constructor | dmx/fixture.py:33-36 | no channels yet |
| Fixtures.Fixture.ChannelCount | dmx/fixture.py:54-59 | the number of channels held |
| Fixtures.Fixture.Value | dmx/fixture.py:43-44 | the channels' values by name |
| Fixtures.Fixture.Get | dmx/fixture.py:43-44 | the channel, or KeyError |
| Fixtures.Fixture.AddChannel | dmx/fixture.py:38-41 | a channel at start + count, filed under its name |
| Fixtures.AddressesOf | dmx/fixture.py:38-41 | every channel's address by name |
| Fixtures.AddChannelRegisters | dmx/fixture.py:38-41 | add_channel moves the addresses as the registration function says |
| Fixtures.AddDescribed | dmx/fixture.py:23-30 | one entry: a new channel, then its subchannels |
| Fixtures.FromDict | dmx/fixture.py:14-31 | the fixture of the description, named by `name` or the description |
| Fixtures.AddSubchannels | dmx/fixture.py:26-30 | the subchannel loop as specified |
| DmxFactories.NewValuesKeys | dmx/dmx_factory.py:53-55 | a channel is in the map exactly when some pair sets it |
| DmxFactories.NewValuesLastWins | dmx/dmx_factory.py:53-55 | the last pair for a channel wins |
| DmxFactories.Diff | dmx/dmx_factory.py:56 | the new pairs the last map lacks; laid over the last map gives the new pairs; empty exactly when nothing changed |
| DmxFactories.PutAppends | dmx/dmx_factory.py:58 | a new timestamp goes to the end |
| DmxFactories.PutReplaces | dmx/dmx_factory.py:58 | an existing timestamp keeps its place and takes the new diff |
| DmxFactories.StepPersistsIffChanged | dmx/dmx_factory.py:52-59 | a frame is stored exactly when it changes something; its pairs are then held by the last map |
| DmxFactories.RepeatAddsNothing | dmx/dmx_factory.py:56-59 | repeating the last persisted values adds nothing |
| DmxFactories.EmptyFrameAddsNothing | dmx/dmx_factory.py:56-59 | a frame setting nothing adds nothing |
| DmxFactories.PersistedDiffsNonEmpty | dmx/dmx_factory.py:57-58 | every stored diff changes at least one channel |
| DmxFactories.DeltaBefore | dmx/dmx_factory.py:52-59 | diffs are stored under frame times only |
| DmxFactories.StepKeepsInSync | dmx/dmx_factory.py:52-59 | one frame keeps the receiver holding every pair of the last persisted map |
| DmxFactories.DeltaInSync | dmx/dmx_factory.py:48-60 | for increasing frame times the replayed diffs hold every pair of the last map |
| DmxFactories.ReceiverSeesEveryFrame | dmx/dmx_factory.py:48-60 | applying the stored diffs up to a frame's time gives every channel it set at its last value |
| DmxFactories.Contents | dmx/dmx_factory.py:52-54 | each frame's time and pairs in order |
| DmxFactories.ComputeChannels | dmx/dmx_factory.py:48-60 | the loop returns exactly the specified delta track |
| DmxFactories.FloorDiv | dmx/dmx_factory.py:69 | Python's floor division |
| DmxFactories.HeaderFor | dmx/dmx_factory.py:64-70 | the header for count frames, duration 1000·count // fps |
| DmxFactories.ElementFor | dmx/dmx_factory.py:73-76 | time in whole milliseconds, truncated, and the diff size |
| DmxFactories.ElementAsWritten | dmx/dmx_factory.py:73-76 | the element as written keeps time 0 |
| DmxFactories.ElementTimeLost | dmx/dmx_factory.py:73-76 | a frame one second in is written at 0 ms instead of 1000 ms |
| DmxFactories.ElementTimesFollowFrames | dmx/dmx_factory.py:73-76 | later frames get later or equal element times while they fit 32 bits |
| DmxFactories.ValueFor | dmx/dmx_factory.py:79-82 | the value record of one entry |
| DmxFactories.ValuesFor | dmx/dmx_factory.py:78-83 | the values of a diff in the dict's key order |
| DmxFactories.FileFor | dmx/dmx_factory.py:62-83 | the file the writer means to write |
| DmxFactories.WriteBinary | dmx/dmx_factory.py:62-83 | the method builds exactly the specified file |
| DmxFactories.WriteBlocks | dmx/dmx_factory.py:72-83 | per frame its element, then its values |
| DmxFactories.WriteValues | dmx/dmx_factory.py:78-83 | one value per diff entry in the given order |
| DmxFactories.ValuesReadBack | dmx/dmx_factory.py:78-83 | reading back a diff's values gives the diff in any key order |
| DmxFactories.WrittenFileReadsBack | dmx/dmx_factory.py:62-83 | the written file reads back as written and each element's values give back its diff |
| Noises.Dimensions | noise.py:80 | N_DIMENSIONS is 1 to 4 |
| Noises.MaxWrapped | noise.py:81 | MAX_N_WRAPPED_DIMENSIONS never exceeds the dimensions |
| Noises.Repeat | noise.py:30 | n copies of x |
| Noises.New | noise.py:22-43 | accepts exactly a (1,) or (N,) frequency and 0 ≤ wrapped ≤ MAX, frequency checked first; broadcasts a single one |
| Noises.ClassMethodsBuild | noise.py:84-90 | the class methods' defaults always build |
| Noises.Translation | noise.py:14-20 | axes map to their position, 't' to -1 |
| Noises.DefaultSwizzle | noise.py:56-60 | the first N axes, or N-1 axes and 't' |
| Noises.DefaultMembers | noise.py:56-60 | every default swizzle character is an axis or 't', names a slot below N, and 't' is exactly the last slot when timed |
| Noises.Extended | noise.py:61 | the position, then the time when given |
| Noises.SwizzleCoordinates | noise.py:52-75 | the shape, length and character checks with their errors; the reordered coordinates otherwise |
| Noises.DefaultSwizzleIsIdentity | noise.py:56-75 | the default swizzle, by None or "", hands the coordinates over unchanged |
| Noises.AxisTranslation | noise.py:14-20 | each axis character translates back to its position |
| Noises.TimeNeedsATime | noise.py:53-68 | without a time no swizzle may name 't' |
| Memos.AsKey | util.py:10-11 | an array becomes its flattened elements; other values stay |
| Memos.AsKeys | util.py:17 | one key per argument |
| Memos.Values | util.py:18-19 | the keyword values in order, names dropped |
| Memos.ShapeIsForgotten | util.py:10-11 | the same elements under another shape give the same key |
| Memos.KeywordNamesAreForgotten | util.py:18-19 | renaming a keyword keeps the key |
| Memos.KeywordMatchesPositional | util.py:17-19 | a keyword value keys like the next positional one |
| Memos.PlainCallsKeyedApart | util.py:17 | plain positional calls share a key exactly when they are the same call |
| Memos.StoreKeepsTable | util.py:22-23 | storing a new key keeps the table's invariant |
| Memos.StoredAnswer | util.py:20-24 | a stored entry answers what func answers |
| Memos.Memo.constructor | util.py:26 | an empty table |
| Memos.Memo.Call | util.py:16-24 | a known key answers from the table without calling; a new one calls once and stores; nothing is overwritten |
| ShaderFunctions.Clamp | functions.py:4-5 | the value clamped, unchanged inside the range |
| ShaderFunctions.Fract | functions.py:12-13 | in [0, 1) and differing from the value by an integer |
| ShaderFunctions.FractOfFraction | functions.py:12-13 | a fraction is its own fractional part |
| ShaderFunctions.FractPeriodic | functions.py:12-13 | period one |
| ShaderFunctions.Mix | functions.py:16-17 | x at 0, y at 1, between them for a in [0, 1] |
| ShaderFunctions.MixReachesEverything | functions.py:16-17 | every value is reached at weight (r − x)/(y − x) |
| ShaderFunctions.Step | functions.py:39-40 | 1 from the edge on, 0 below |
| ShaderFunctions.HermiteInUnit | functions.py:34-36 | the cubic stays in [0, 1] and fixes both ends |
| ShaderFunctions.SmoothStep | functions.py:34-36 | the clamped ramp through the cubic; ZeroDivisionError for equal edges |
| ShaderFunctions.SmoothStepIsStepOutside | functions.py:34-40 | outside the ramp smoothstep is step at the upper edge |
| ShaderFunctions.HermiteMonotone | functions.py:36 | the cubic never decreases on [0, 1] |
| ShaderFunctions.HermiteSymmetric | functions.py:36 | point-symmetric about (½, ½) |
| ShaderFunctions.SmoothStepMonotone | functions.py:34-36 | on a rising ramp smoothstep never decreases in x |
| ShaderFunctions.SmoothStepSymmetric | functions.py:34-36 | mirrored positions sum to one |
| ShaderFunctions.DotAxpy | functions.py:24-25 | the dot product is linear in its second argument |
| ShaderFunctions.Reflect | functions.py:24-25 | i − 2(n·i)n, same length as i |
| ShaderFunctions.ReflectFlipsNormal | functions.py:24-25 | for a unit normal the component along it changes sign |
| ShaderFunctions.ReflectTwice | functions.py:24-25 | reflecting twice gives the vector back |
| ShaderFunctions.ReflectKeepsTangent | functions.py:24-25 | a vector orthogonal to the normal is unchanged |
| ShowTimings.TimeBetween | 2025/2025.py:269-270 | inclusive at both ends |
| ShowTimings.EqualTime | 2025/2025.py:266-267 | t2 within E of t1 |
| ShowTimings.EqualTimeSymmetric | 2025/2025.py:266-270 | reflexive and symmetric |
| ShowTimings.ToleranceSpansTwoFrames | 2025/2025.py:222 | E is more than two and less than three frames at 24 fps |
| ShowTimings.Split | 2025/2025.py:273 | the pieces between separators, empty ones included |
| ShowTimings.JoinSplit | 2025/2025.py:273 | joining the pieces gives the string back |
| ShowTimings.ParseInt | 2025/2025.py:273 | optional sign and at least one digit, else ValueError |
| ShowTimings.ShowReadsBack | 2025/2025.py:273 | the digits of n read back as n |
| ShowTimings.StringToSeconds | 2025/2025.py:272-274 | m·60 + s; the first bad literal among three pieces, or the unpacking ValueError |
| ShowTimings.StringToSecondsSpec | 2025/2025.py:272-274 | reads exactly when two integer pieces; a time with no separator never reads |
| ShowTimings.ClockReadsBack | 2025/2025.py:272-274 | every "mm:ss" reads as its seconds |
| ShowTimings.TwoSeparatorsRefused | 2025/2025.py:273 | two separators are refused |
| ShowTimings.Reads | 2025/2025.py:280-281 | each time as read |
| ShowTimings.Differences | 2025/2025.py:283 | one fewer element, consecutive differences |
| ShowTimings.TimingsSpec | 2025/2025.py:276-284 | one animation per consecutive pair (start, difference); error exactly when a time does not read, the first one's |
| ShowTimings.AnimationsAreContiguous | 2025/2025.py:276-284 | each animation starts where the previous ends |
| ShowTimings.DurationsSpanTheShow | 2025/2025.py:276-284 | durations add up to last − first |
| ShowTimings.SumOfDifferences | 2025/2025.py:283 | the consecutive differences add up to last − first |
| ShowTimings.NondecreasingTimesGiveNonnegativeDurations | 2025/2025.py:276-284 | non-decreasing times give no negative duration |
| ShowTimings.BuildTimings | 2025/2025.py:276-284 | the loop returns exactly the specified timings or error |
| ShowTimings.BuildStep | 2025/2025.py:279-283 | a pair that reads extends the result by one animation |
| ShowTimings.FirstReadFails | 2025/2025.py:280 | only the first pair's start can fail first |
| ShowTimings.EndReadFails | 2025/2025.py:281 | a failing end fails the whole show with its error |
| ShowTimings.FiveCharacterTime | 2025/2025.py:272-274 | a five-character "mm:ss" reads as its minutes and seconds |
| ShowTimings.ShippedShow | 2025/2025.py:101-131 | the twelve shipped times give eleven contiguous animations spanning 14:30, one per frame name |
| ShowTimings.ShippedClocks | 2025/2025.py:102-115 | every shipped time is an "mm:ss" clock |
| ShowTimings.ShippedDurations | 2025/2025.py:102-115 | the shipped times give durations 1, 239, 135, 75, 80, 90, 60, 4, 61, 78, 47 seconds |
| ShowTimings.FrameNamesFit | 2025/2025.py:119-131 | no frame name is cut by the 8-character name field |
| Numeric.Trunc | dmx/subchannel.py:21 | Python's `int()`: truncation toward zero |
| Numeric.Round | laser/shapes/ellipse.py:34 | Python's `round()`: nearest, ties to even |
| Numeric.Ceil | laser/ildx_factory.py:110 | `math.ceil`: the least integer at or above |
| Numeric.BelowCeil | laser/ildx_factory.py:110 | `range(ceil(x))` holds exactly the naturals below x |
| Numeric.FloorMod | laser/color.py:79 | Python float `%`: result in [0, m) |

## Left out

- Noise sampling is not modelled: the opensimplex functions, the seed set at `noise.py:41-43` and the per-class `get_value`. Displacements take the noise value as a function parameter, so `laser/displacement.py` is not part of this model.
- `ensure_np_array` (`util.py:30-45`) is not modelled: it inspects type hints at run time.
- `_compute_frames` and `_compute_render_lines` run frames in a process pool. The model computes them one after another, in the order the pool's `map` returns them. Progress bars, `print`, opening and writing files, and the JSON writer are left out.
- The DMX ctypes structures use the host's native byte order and alignment. The model assumes a little-endian host with the usual alignment padding.
- The DMX factory's `_compute_frames` and `run` (`dmx/dmx_factory.py:35-46`, `98-102`) are not modelled. They construct `Frame(timestamp, fps)` and read `frame.is_last`, which the frame class of `dmx/frame.py` does not have.
- `Subchannels`: `ContinousSubchannel.pulse` (`dmx/subchannel.py:34-55`) is not modelled. It needs `sin`, `arcsin` and real powers.
- `_nearest_point_and_distance`, `nearest_point`, `point_by_s`, `tangent`, `from_sdf` and `from_parametric_equation` (`laser/shapes/polyline.py`) are not modelled. They call helpers that no file defines (`_transform`, `_displace`, `_combine_shapes`).
- `Polylines.SignedDistanceSign` takes the distance as a parameter instead of computing it. The distance comes from `_nearest_point_and_distance`, which is not modelled.
- `laser/projection_square.py`, `laser/projector.py`, `laser/frame_factory.py` and `laser/ilda_factory.py` are not part of this model. Nor are the wrapper classes Polygon, Circle and Square. Each of those only passes fixed arguments to the polyline, ellipse or rectangle constructor.
- Floating point: every float is an exact real. Rounding is not modelled. Comparisons and divisions are exact.
- `Ellipses`: when p0 = p1 with both ends outside, the numpy division by 2A = 0 yields NaN, so no root lies in [0, 1]. The model states the test as false there.
- `Ellipses`: radii must be non-zero. The model takes that as a precondition (`ProperRadii`).
- `Triangles`: a collinear triangle makes the barycentric denominator zero. The model takes a non-zero denominator as a precondition.
- `Memos.Memo.Call` compares keys by value. Python compares them by hash and `==`, and numpy scalars inside a key may compare differently. The function being memoised is a parameter.
- `Arrays`: array elements are reals whatever their numpy dtype. Only the shape and `flatten` are modelled.
- `ShowTimings.ParseInt` does not accept the surrounding whitespace, the digit-group underscores or the non-ASCII decimal digits (such as Arabic-Indic or fullwidth digits) that Python's `int()` accepts.
- `ShowTimings`: the tolerance E is the exact real 2.1/24, not its float value.
- `ShowTimings.BuildTimings` is stated for any conversion, given as a parameter, as well as for `StringToSeconds`.
- `ShaderFunctions`: `distance`, `modf` and `refract` (`functions.py:8-9`, `20-21`, `28-31`) are not modelled. They need a square root or numpy's float decomposition.
- `ShaderFunctions.SmoothStep` divides exactly: no float rounding at the ramp's edges.
- `Shapes.Shape.Rotate`: the matrix entries are `cos angle` and `sin angle` taken from the `MathFns` parameter, not numpy's float values.
- `Shapes.ChordalTangent`: for three equal consecutive points numpy divides 0 by 0, and `_get_tangent` passes the NaN tangent on, because `norm > 0` is false for NaN (`laser/shapes/shape.py:72-79`). The displaced point is then NaN. The model returns the zero vector there and leaves the point undisplaced.
- Construction of the polyline-based shapes: as written, Polyline, Polygon, Triangle, Rectangle, Star and RegularNGon raise TypeError on construction, because `get_centroid` is abstract (`laser/shapes/shape.py:33-35`) and they do not define it. The members below model the construction the code evidently intends and do not report that TypeError.
- `Triangles.Vertices` does not report the TypeError that constructing a Triangle raises as written.
- `Rectangles.Vertices` does not report the TypeError that constructing a Rectangle raises as written.
- `Stars.ConstructSpec` does not report the TypeError that constructing a Star raises as written; its IndexError for n ≤ 0 is the intended constructor's.
- `RegularNGons.ConstructSpec` does not report the TypeError that constructing a RegularNGon raises as written; its IndexError for n ≤ 0 is the intended constructor's.
- `Shapes.CopiedFigure` models the copy the code evidently intends. As written, `Polyline.copy` raises TypeError (it constructs the abstract Polyline) and then AttributeError (it reads the unassigned `_transformations`), and an ellipse has no `copy` at all. The model keeps an ellipse's figure instead of raising.
- `Shapes.CopySamplesAlike` is stated for that intended copy, not for the errors the copy raises as written.
- `Shapes.Shape.Copy` models the intended copy: it carries over the transformation matrices, and it works on ellipses. The AttributeError and TypeError of the code as written are not reported. Its gradient is the corrected exact copy of the Findings row for `laser/color.py:152-156`; the copy as written is `Colors.CopyLosesEndColour`.
- `Frames.Frame.AddShape` appends the intended copy. As written, `shape.copy()` raises for every shape, as the `Shapes.Shape.Copy` line says. The copy's gradient is the corrected exact copy of the `laser/color.py:152-156` row.
- `Frames.CopiedStateRenderable` is stated for the intended copy with the corrected gradient copy of the `laser/color.py:152-156` row.
- `IldxFactories.AddAll` keeps the intended copies with the corrected gradient copy of the `laser/color.py:152-156` row.
- `IldxFactories.ZoneCopies` keeps the intended copies with the corrected gradient copy of the `laser/color.py:152-156` row.
- `Polylines.SamplePoints` builds the corrected sampling of the Findings row for `laser/shapes/polyline.py:103-105`: every arc parameter is guarded against a zero total length. The sampling as written is `Polylines.ComputePointsAsWritten`, which raises ZeroDivisionError for two or more vertices of total length 0.
- `Figures.ComputePointsSpec` is stated for the corrected polyline sampling of the `laser/shapes/polyline.py:103-105` row.
- `Figures.SampleFigure` calls the corrected polyline sampling of the `laser/shapes/polyline.py:103-105` row.
- `Shapes.Shape.GetRenderLines` samples with the corrected polyline sampling of the `laser/shapes/polyline.py:103-105` row. A Point shape still does not render: its two identical samples make `_get_tangent` raise ValueError ("Cannot get tangent for two identical points", `laser/shapes/shape.py:56-58`) instead of the ZeroDivisionError of the sampling as written (`Shapes.PointShapeTangentFails`).
- `IldxFactories.IldxFactory.AddExclusionZone` records the zone shape's state when the zone is added. The source keeps the Shape object (`laser/ildx_factory.py:93-94`), so transforms, displacements or a density set on that shape afterwards reach `run`; in the model they do not.
- `FrameAssembly.BlankByZones` uses the corrected ellipse line test of the Findings row for `laser/shapes/ellipse.py:76-78`, which takes the segment relative to the centre. As written, an ellipse zone away from the origin misses segments through it (`Ellipses.OffCentreSegmentMissed`).
- `FrameAssembly.AssembledSpec` is stated with the corrected polyline sampling of the `laser/shapes/polyline.py:103-105` row and the corrected ellipse line test of the `laser/shapes/ellipse.py:76-78` row.
- `FrameAssembly.ComputeRenderLinesForFrame` uses the corrected polyline sampling of the `laser/shapes/polyline.py:103-105` row and the corrected ellipse line test of the `laser/shapes/ellipse.py:76-78` row.
- `IldxFactories.RunSpec` is stated with the corrected sampling, ellipse line test and gradient copy of the Findings rows for `laser/shapes/polyline.py:103-105`, `laser/shapes/ellipse.py:76-78` and `laser/color.py:152-156`, and with the intended shape copy.
- `IldxFactories.IldxFactory.Run` uses the same corrected sampling, ellipse line test, gradient copy and intended shape copy as `IldxFactories.RunSpec`.
- `DmxFactories.FileFor` gives each element the time of its frame in milliseconds, the corrected behaviour of the Findings row for `dmx/dmx_factory.py:73-76`. As written the element time stays 0 (`DmxFactories.ElementTimeLost`). It takes fps as an integer, as `DmxFactories.HeaderFor` does.
- `DmxFactories.WriteBlocks` writes the corrected element time of the `dmx/dmx_factory.py:73-76` row.
- `DmxFactories.WriteBinary` writes the corrected element time of the `dmx/dmx_factory.py:73-76` row. It also takes fps as an integer; the TypeError a float fps raises at the header (`dmx/dmx_factory.py:69`) is not modelled.
- `IldxFactories.IldxFactory.constructor` takes fps as an integer, where the source declares `fps: float` (`laser/ildx_factory.py:57`). In legacy mode a fractional fps is legal, because the rate byte is 0 (lines 204-206); the model does not cover fractional frame rates. Outside legacy mode a Python float fps in the `c_uint8` rate field raises TypeError, even a whole one such as 30.0; the model does not report it.
- `IldxWriter.FrameHeaderLayout` writes an integer fps into the rate byte. The TypeError that a Python float fps raises there is not modelled.
- `IldxWriter.EncodeFileSpec` and `IldxWriter.WriteFile` take fps and start times as integers. A float fps outside legacy mode raises TypeError in the rate field, and a float start time outside legacy mode raises AttributeError at `to_bytes` (`laser/ildx.py:77`); neither is modelled.
- `IldxWriter.SharedFields` takes the start time as an integer; the AttributeError that a float start time raises at `to_bytes` is not modelled.
- `DmxFactories.HeaderFor` takes fps as an integer, where the source declares `fps: float` (`dmx/dmx_factory.py:21`). With a float fps, `//` yields a float, and the `c_uint32` duration field raises TypeError (`dmx/dmx_factory.py:69`); the model does not report it.
- The 2025 show's factory functions, fixtures and displacements (`2025/2025.py:162-264`, `286-841`) are not part of this model. Only its timing helpers are.

## Findings

| source | as written | input that shows it | evidently intended | confidence | as-written member | corrected member |
|---|---|---|---|---|---|---|
| laser/shapes/polyline.py:103-105 | after an edge without inserted points, `t = accumulated_length / self._total_length` is computed with no zero guard, unlike the closing edge at lines 133-136 | a Point shape: the open polyline [p, p] has total length 0 and raises ZeroDivisionError when sampled | t = 0 when the total length is 0, as on the closing edge (a Point shape then gets as far as `_get_tangent`, which raises ValueError for its two identical samples, see `Shapes.PointShapeTangentFails`) | high, not executed | Polylines.RepeatedPointDividesByZero | Polylines.ComputePointsSpec |
| laser/shapes/ellipse.py:76-78 | the quadratic's coefficients use p0 and p1 without subtracting the centre, so the test is against the ellipse centred at the origin | unit circle about (5, 0); segment from (4.5, -2) to (4.5, 2): both ends are outside, (4.5, 0) is inside, and the test says not inside | take the segment relative to the centre, as `is_point_inside` does | high, not executed | Ellipses.OffCentreSegmentMissed | Ellipses.LineInsideMeetsBoundary |
| laser/color.py:152-156 | copy starts from `ColorGradient(first colour)`, which already holds (1.0, first colour), and then re-adds every later waypoint; the stable sort puts the re-added end colour after that entry | red→blue gradient in 'rgb' mode: the copy gives red at s = 1.0 where the original gives blue | a copy equal to the original | high, not executed | Colors.CopyLosesEndColour | Colors.ExactCopyIsEqual |
| dmx/dmx_factory.py:73-76 | `DmxElement(timestamp=...)` names no field of the structure, whose field is `time` (dmx/dmx.py:19); ctypes keeps the keyword as a plain attribute and `time` stays 0 | a frame at t = 1.0 s is written with element time 0 ms | `time=int(timestamp * 1000)` | medium, not executed | DmxFactories.ElementTimeLost | DmxFactories.ElementTimesFollowFrames |
