/**
 * `_compute_render_lines_for_frame` of laser/ildx_factory.py: the lines of
 * every shape of a frame in order, blanked where an exclusion zone covers
 * them, joined by a blanked black transit line from the last line drawn to
 * the next shape's first line, and primed with a copy of the first line.
 */
module FrameAssembly {
  import opened Wrappers
  import opened Errors
  import opened Numeric
  import opened Geometry
  import opened Colors
  import opened RenderLines
  import opened Figures
  import opened Shapes
  import opened Frames

  /** A registered exclusion zone: the shape's figure and whether its inside is excluded. */
  datatype Zone = Zone(figure: Figure, inside: bool)

  predicate ZonesWellFormed(zones: seq<Zone>) {
    forall j :: 0 <= j < |zones| ==> WellFormed(zones[j].figure)
  }

  predicate AllRenderable(shapes: seq<PlacedState>) {
    forall i :: 0 <= i < |shapes| ==> Renderable(shapes[i].state)
  }

  /** The zone test of lines 129-132. */
  predicate ZoneHits(m: MathFns, z: Zone, l: LineData)
    requires WellFormed(z.figure)
  {
    (z.inside && IsLineInside(m, z.figure, l.start, l.end))
      || (!z.inside && IsLineOutside(z.figure, l.start, l.end))
  }

  /** Some registered zone hits the line. */
  predicate AnyZoneHits(m: MathFns, zones: seq<Zone>, l: LineData) {
    exists j :: 0 <= j < |zones| && WellFormed(zones[j].figure) && ZoneHits(m, zones[j], l)
  }

  /**
   * The zone test as a value. The assembly below is written over any such
   * test, so that what it guarantees does not depend on the geometry.
   */
  function ZoneTest(m: MathFns, zones: seq<Zone>): LineData -> bool {
    l => AnyZoneHits(m, zones, l)
  }

  /** A line after the zone loop: blanked when it is not an exclusion shape's and some zone hits it. */
  function ZoneBlanked(hits: LineData -> bool, exclusion: bool, l: LineData): LineData {
    if !exclusion && hits(l) then BlankData(l) else l
  }

  function BlankAll(hits: LineData -> bool, exclusion: bool, ls: seq<LineData>): (r: seq<LineData>)
    ensures |r| == |ls|
  {
    seq(|ls|, k requires 0 <= k < |ls| => ZoneBlanked(hits, exclusion, ls[k]))
  }

  /** The blanked black line from the end of `last` to the start of `next`. */
  function Transit(last: LineData, next: LineData): LineData {
    LineData(last.end, next.start, Black(), true)
  }

  /** What `get_render_lines(frame.t)` yields for each shape of the frame, in order. */
  function ShapeResults(m: MathFns, shapes: seq<PlacedState>, t: real): (r: seq<Result<seq<LineData>, Error>>)
    requires AllRenderable(shapes)
    ensures |r| == |shapes|
  {
    seq(|shapes|, i requires 0 <= i < |shapes| => RenderLinesOf(m, shapes[i].state, t))
  }

  function Flags(shapes: seq<PlacedState>): (r: seq<bool>)
    ensures |r| == |shapes|
  {
    seq(|shapes|, i requires 0 <= i < |shapes| => shapes[i].exclusion)
  }

  /**
   * The loop of lines 123-148 from shape i on, given each shape's lines and
   * exclusion flag, with `acc` the lines so far. The transit is skipped when
   * there is no line yet (the IndexError of `render_lines[-1]`), when the
   * next shape yields nothing (StopIteration) or when it fails with an
   * IndexError; any other failure of the next shape propagates.
   */
  function AssembleFrom(hits: LineData -> bool, flags: seq<bool>, results: seq<Result<seq<LineData>, Error>>,
                        i: nat, acc: seq<LineData>): Result<seq<LineData>, Error>
    requires |flags| == |results| && i <= |results|
    decreases |results| - i
  {
    if i == |results| then Ok(acc)
    else if results[i].Err? then Err(results[i].error)
    else
      var acc1 := acc + BlankAll(hits, flags[i], results[i].value);
      if i + 1 < |results| && |acc1| > 0 then
        var next := results[i + 1];
        if next.Err? && next.error != IndexError then Err(next.error)
        else if next.Err? || |next.value| == 0 then AssembleFrom(hits, flags, results, i + 1, acc1)
        else AssembleFrom(hits, flags, results, i + 1, acc1 + [Transit(acc1[|acc1| - 1], next.value[0])])
      else AssembleFrom(hits, flags, results, i + 1, acc1)
  }

  /** `render_lines.insert(0, render_lines[0].copy())` when there is a line. */
  function Primed(ls: seq<LineData>): (r: seq<LineData>)
    ensures |ls| == 0 ==> r == []
    ensures |ls| > 0 ==> |r| == |ls| + 1 && r[0] == r[1] && r[1..] == ls
  {
    if |ls| > 0 then [ls[0]] + ls else ls
  }

  /** The whole loop, then the priming copy. */
  function Assembled(hits: LineData -> bool, flags: seq<bool>, results: seq<Result<seq<LineData>, Error>>)
    : Result<seq<LineData>, Error>
    requires |flags| == |results|
  {
    var r := AssembleFrom(hits, flags, results, 0, []);
    if r.Err? then r else Ok(Primed(r.value))
  }

  /** `_compute_render_lines_for_frame(frame)`. */
  function FrameLines(m: MathFns, zones: seq<Zone>, frame: FrameData): Result<seq<LineData>, Error>
    requires ZonesWellFormed(zones) && AllRenderable(frame.shapes)
  {
    Assembled(ZoneTest(m, zones), Flags(frame.shapes), ShapeResults(m, frame.shapes, frame.t))
  }

  // ---------------------------------------------------------------------
  // What the assembly guarantees

  predicate Chained(ls: seq<LineData>) {
    forall k :: 0 < k < |ls| ==> ls[k - 1].end == ls[k].start
  }

  predicate AllInSquare(ls: seq<LineData>) {
    forall k :: 0 <= k < |ls| ==> InSquare(ls[k].start) && InSquare(ls[k].end)
  }

  /** Every line the laser draws (not blanked) is clear of every zone. */
  predicate DrawnLinesClear(hits: LineData -> bool, ls: seq<LineData>) {
    forall k :: 0 <= k < |ls| && !ls[k].blanked ==> !hits(ls[k])
  }

  /** Lines as a shape yields them: inside the square, chained, none blanked. */
  predicate Tidy(r: Result<seq<LineData>, Error>) {
    r.Ok? ==> AllInSquare(r.value) && Chained(r.value) && forall k :: 0 <= k < |r.value| ==> !r.value[k].blanked
  }

  lemma ShapeResultsTidy(m: MathFns, shapes: seq<PlacedState>, t: real)
    requires AllRenderable(shapes)
    ensures forall i :: 0 <= i < |shapes| ==> Tidy(ShapeResults(m, shapes, t)[i])
  {
    forall i | 0 <= i < |shapes|
      ensures Tidy(ShapeResults(m, shapes, t)[i])
    {
      RenderLinesInSquare(m, shapes[i].state, t);
    }
  }

  predicate NoneExcluded(flags: seq<bool>) {
    forall i :: 0 <= i < |flags| ==> !flags[i]
  }

  predicate SomeFails(results: seq<Result<seq<LineData>, Error>>, from: nat) {
    exists j :: from <= j < |results| && results[j].Err?
  }

  /** What holds of the lines gathered before shape i. */
  predicate Gathered(hits: LineData -> bool, flags: seq<bool>, results: seq<Result<seq<LineData>, Error>>,
                     i: nat, acc: seq<LineData>)
  {
    && AllInSquare(acc)
    && Chained(acc)
    && (NoneExcluded(flags) ==> DrawnLinesClear(hits, acc))
    && (0 < |acc| && i < |results| && results[i].Ok? && 0 < |results[i].value| ==>
          acc[|acc| - 1].end == results[i].value[0].start)
  }

  /** Blanking keeps a shape's lines inside the square and chained, and leaves drawn only what no zone hits. */
  lemma BlankAllTidy(hits: LineData -> bool, exclusion: bool, ls: seq<LineData>)
    requires Tidy(Ok(ls))
    ensures var b := BlankAll(hits, exclusion, ls);
      && AllInSquare(b) && Chained(b)
      && (!exclusion ==> DrawnLinesClear(hits, b))
      && (0 < |ls| ==> b[0].start == ls[0].start && b[|b| - 1].end == ls[|ls| - 1].end)
  {
    var b := BlankAll(hits, exclusion, ls);
    forall k | 0 <= k < |ls|
      ensures b[k].start == ls[k].start && b[k].end == ls[k].end
    {
    }
  }

  /** Appending a chained block that starts where `acc` ends keeps everything. */
  lemma GatherBlock(hits: LineData -> bool, clear: bool, acc: seq<LineData>, b: seq<LineData>)
    requires AllInSquare(acc) && Chained(acc) && (clear ==> DrawnLinesClear(hits, acc))
    requires AllInSquare(b) && Chained(b) && (clear ==> DrawnLinesClear(hits, b))
    requires 0 < |acc| && 0 < |b| ==> acc[|acc| - 1].end == b[0].start
    ensures var r := acc + b;
      AllInSquare(r) && Chained(r) && (clear ==> DrawnLinesClear(hits, r))
  {
    var r := acc + b;
    forall k | 0 < k < |r|
      ensures r[k - 1].end == r[k].start
    {
      if k < |acc| {
      } else if k == |acc| {
      } else {
        assert r[k - 1] == b[k - 1 - |acc|] && r[k] == b[k - |acc|];
      }
    }
  }

  /** The rest of the loop fails exactly when a later shape fails. */
  lemma {:induction false} AssembleFromFails(hits: LineData -> bool, flags: seq<bool>,
                                             results: seq<Result<seq<LineData>, Error>>, i: nat, acc: seq<LineData>)
    requires |flags| == |results| && i <= |results|
    ensures AssembleFrom(hits, flags, results, i, acc).Err? <==> SomeFails(results, i)
    decreases |results| - i
  {
    if i < |results| {
      if results[i].Err? {
        assert SomeFails(results, i);
      } else {
        var acc1 := acc + BlankAll(hits, flags[i], results[i].value);
        StepFailures(results, i);
        if i + 1 < |results| && |acc1| > 0 {
          var next := results[i + 1];
          if next.Err? && next.error != IndexError {
            assert SomeFails(results, i + 1);
          } else if next.Err? || |next.value| == 0 {
            AssembleFromFails(hits, flags, results, i + 1, acc1);
          } else {
            AssembleFromFails(hits, flags, results, i + 1, acc1 + [Transit(acc1[|acc1| - 1], next.value[0])]);
          }
        } else {
          AssembleFromFails(hits, flags, results, i + 1, acc1);
        }
      }
    }
  }

  /**
   * One round of the loop keeps the gathered lines in shape: shape i's
   * blanked lines continue them, and so does the transit to shape i + 1
   * when there is one.
   */
  lemma GatherStep(hits: LineData -> bool, flags: seq<bool>, results: seq<Result<seq<LineData>, Error>>,
                   i: nat, acc: seq<LineData>)
    requires |flags| == |results| && i < |results| && results[i].Ok?
    requires forall j :: 0 <= j < |results| ==> Tidy(results[j])
    requires Gathered(hits, flags, results, i, acc)
    ensures Gathered(hits, flags, results, i + 1, NextAcc(hits, flags, results, i, acc))
  {
    var ls := results[i].value;
    assert Tidy(results[i]);
    var acc1 := acc + BlankAll(hits, flags[i], ls);
    var clear := NoneExcluded(flags);
    assert clear ==> !flags[i];
    GatherShape(hits, flags[i], clear, acc, ls);
    if i + 1 < |results| && 0 < |acc1| && results[i + 1].Ok? && 0 < |results[i + 1].value| {
      var first := results[i + 1].value[0];
      assert Tidy(results[i + 1]);
      assert InSquare(first.start);
      GatherTransit(hits, clear, acc1, first);
      assert NextAcc(hits, flags, results, i, acc) == acc1 + [Transit(acc1[|acc1| - 1], first)];
    } else {
      assert NextAcc(hits, flags, results, i, acc) == acc1;
    }
  }

  /** The transit to the next shape's first line keeps the gathered lines in shape. */
  lemma GatherTransit(hits: LineData -> bool, clear: bool, acc: seq<LineData>, first: LineData)
    requires 0 < |acc| && InSquare(first.start)
    requires AllInSquare(acc) && Chained(acc) && (clear ==> DrawnLinesClear(hits, acc))
    ensures var r := acc + [Transit(acc[|acc| - 1], first)];
      && AllInSquare(r) && Chained(r) && (clear ==> DrawnLinesClear(hits, r))
      && r[|r| - 1].end == first.start
  {
    GatherBlock(hits, clear, acc, [Transit(acc[|acc| - 1], first)]);
  }

  /** A shape's blanked lines continue what is gathered when they start where it ends. */
  lemma GatherShape(hits: LineData -> bool, exclusion: bool, clear: bool, acc: seq<LineData>, ls: seq<LineData>)
    requires Tidy(Ok(ls)) && (clear ==> !exclusion)
    requires AllInSquare(acc) && Chained(acc) && (clear ==> DrawnLinesClear(hits, acc))
    requires 0 < |acc| && 0 < |ls| ==> acc[|acc| - 1].end == ls[0].start
    ensures var acc1 := acc + BlankAll(hits, exclusion, ls);
      && AllInSquare(acc1) && Chained(acc1) && (clear ==> DrawnLinesClear(hits, acc1))
      && (0 < |ls| ==> acc1[|acc1| - 1].end == ls[|ls| - 1].end)
      && (|ls| == 0 ==> acc1 == acc)
  {
    var b := BlankAll(hits, exclusion, ls);
    BlankAllTidy(hits, exclusion, ls);
    GatherBlock(hits, clear, acc, b);
    if |ls| == 0 {
      assert acc + b == acc;
    }
  }


  /**
   * From any gathered state, a successful rest of the loop returns lines
   * that lie inside the square, are chained end to start, and are clear of the zones where drawn when no shape is an
   * exclusion shape.
   */
  lemma {:induction false} AssembleFromKeeps(hits: LineData -> bool, flags: seq<bool>,
                                             results: seq<Result<seq<LineData>, Error>>, i: nat, acc: seq<LineData>)
    requires |flags| == |results| && i <= |results|
    requires forall j :: 0 <= j < |results| ==> Tidy(results[j])
    requires Gathered(hits, flags, results, i, acc)
    ensures Kept(hits, flags, results, i, acc)
    decreases |results| - i
  {
    if i < |results| && results[i].Ok? {
      var next := NextAcc(hits, flags, results, i, acc);
      GatherStep(hits, flags, results, i, acc);
      AssembleFromKeeps(hits, flags, results, i + 1, next);
      AssembleFromNext(hits, flags, results, i, acc);
    }
  }

  /** What a successful rest of the loop from shape i on returns keeps the lines in shape. */
  ghost predicate Kept(hits: LineData -> bool, flags: seq<bool>, results: seq<Result<seq<LineData>, Error>>,
                       i: nat, acc: seq<LineData>)
    requires |flags| == |results| && i <= |results|
  {
    var r := AssembleFrom(hits, flags, results, i, acc);
    r.Ok? ==>
      && AllInSquare(r.value) && Chained(r.value)
      && (NoneExcluded(flags) ==> DrawnLinesClear(hits, r.value))
  }

  /** The lines handed on to shape i + 1: shape i's blanked lines, and the transit when there is one. */
  ghost function NextAcc(hits: LineData -> bool, flags: seq<bool>, results: seq<Result<seq<LineData>, Error>>,
                         i: nat, acc: seq<LineData>): seq<LineData>
    requires |flags| == |results| && i < |results| && results[i].Ok?
  {
    var acc1 := acc + BlankAll(hits, flags[i], results[i].value);
    if i + 1 < |results| && 0 < |acc1| && results[i + 1].Ok? && 0 < |results[i + 1].value|
    then acc1 + [Transit(acc1[|acc1| - 1], results[i + 1].value[0])]
    else acc1
  }

  /** A successful loop from shape i on is the loop from i + 1 on, given what shape i hands on. */
  lemma AssembleFromNext(hits: LineData -> bool, flags: seq<bool>, results: seq<Result<seq<LineData>, Error>>,
                         i: nat, acc: seq<LineData>)
    requires |flags| == |results| && i < |results| && results[i].Ok?
    ensures var r := AssembleFrom(hits, flags, results, i, acc);
      r.Ok? ==> r == AssembleFrom(hits, flags, results, i + 1, NextAcc(hits, flags, results, i, acc))
  {
  }

  /** When shape i renders, a failure from i on is a failure from i + 1 on. */
  lemma StepFailures(results: seq<Result<seq<LineData>, Error>>, i: nat)
    requires i < |results| && results[i].Ok?
    ensures SomeFails(results, i) <==> SomeFails(results, i + 1)
  {
    if SomeFails(results, i) {
      var j :| i <= j < |results| && results[j].Err?;
      assert j != i;
    }
  }

  /**
   * The assembled lines: an error exactly when some shape fails; otherwise
   * empty, or a copy of the first line followed by lines that are all inside
   * (-1, 1)^2 and chained end to start, the drawn ones missed by the zone
   * test when no shape is an exclusion shape.
   */
  lemma AssembledSpec(hits: LineData -> bool, flags: seq<bool>, results: seq<Result<seq<LineData>, Error>>)
    requires |flags| == |results|
    requires forall j :: 0 <= j < |results| ==> Tidy(results[j])
    ensures var r := Assembled(hits, flags, results);
      && (r.Err? <==> SomeFails(results, 0))
      && (r.Ok? ==>
            && (|r.value| == 0 || (1 < |r.value| && r.value[0] == r.value[1] && Chained(r.value[1..])))
            && AllInSquare(r.value)
            && (NoneExcluded(flags) ==> DrawnLinesClear(hits, r.value)))
  {
    AssembleFromFails(hits, flags, results, 0, []);
    AssembleFromKeeps(hits, flags, results, 0, []);
    var a := AssembleFrom(hits, flags, results, 0, []);
    if a.Ok? && 0 < |a.value| {
      var r := Primed(a.value);
      assert r[1..] == a.value;
      assert r[0] == a.value[0];
    }
  }

  /**
   * The lines of a frame: an error exactly when some shape fails; otherwise
   * empty, or a copy of the first line followed by lines that are all inside
   * (-1, 1)^2 and chained end to start, the drawn ones clear of every zone
   * when the frame holds no exclusion shape.
   */
  lemma FrameLinesSpec(m: MathFns, zones: seq<Zone>, frame: FrameData)
    requires ZonesWellFormed(zones) && AllRenderable(frame.shapes)
    ensures var r := FrameLines(m, zones, frame);
      && (r.Err? <==> SomeFails(ShapeResults(m, frame.shapes, frame.t), 0))
      && (r.Ok? ==>
            && (|r.value| == 0 || (1 < |r.value| && r.value[0] == r.value[1] && Chained(r.value[1..])))
            && AllInSquare(r.value)
            && (NoneExcluded(Flags(frame.shapes)) ==> DrawnLinesClear(ZoneTest(m, zones), r.value)))
  {
    ShapeResultsTidy(m, frame.shapes, frame.t);
    AssembledSpec(ZoneTest(m, zones), Flags(frame.shapes), ShapeResults(m, frame.shapes, frame.t));
  }

  /** A frame without shapes has no lines. */
  lemma EmptyFrameHasNoLines(m: MathFns, zones: seq<Zone>, frame: FrameData)
    requires ZonesWellFormed(zones) && frame.shapes == []
    ensures FrameLines(m, zones, frame) == Ok([])
  {
  }

  // ---------------------------------------------------------------------
  // The loops themselves

  /** The zone loop of lines 128-133: one `blank()` per zone that hits the line. */
  method BlankByZones(m: MathFns, zones: seq<Zone>, l: LineData) returns (r: LineData)
    requires ZonesWellFormed(zones)
    ensures r == ZoneBlanked(ZoneTest(m, zones), false, l)
  {
    r := l;
    for j := 0 to |zones|
      invariant r == (if exists k :: 0 <= k < j && ZoneHits(m, zones[k], l) then BlankData(l) else l)
    {
      if (zones[j].inside && IsLineInside(m, zones[j].figure, r.start, r.end))
        || (!zones[j].inside && IsLineOutside(zones[j].figure, r.start, r.end))
      {
        BlankIdempotent(l);
        r := BlankData(r);
      }
    }
  }

  /** `_compute_render_lines_for_frame(frame)`. */
  method ComputeRenderLinesForFrame(m: MathFns, zones: seq<Zone>, frame: FrameData) returns (r: Result<seq<LineData>, Error>)
    requires ZonesWellFormed(zones) && AllRenderable(frame.shapes)
    ensures r == FrameLines(m, zones, frame)
  {
    var shapes, t := frame.shapes, frame.t;
    ghost var hits, results, flags := ZoneTest(m, zones), ShapeResults(m, shapes, t), Flags(shapes);
    var acc: seq<LineData> := [];
    for i := 0 to |shapes|
      invariant AssembleFrom(hits, flags, results, i, acc) == AssembleFrom(hits, flags, results, 0, [])
    {
      var lines := RenderLinesOf(m, shapes[i].state, t);
      assert lines == results[i] && shapes[i].exclusion == flags[i];
      if lines.Err? {
        return Err(lines.error);
      }
      var acc1 := AppendBlanked(m, zones, shapes[i].exclusion, acc, lines.value);
      if i + 1 < |shapes| && |acc1| > 0 {
        var next := RenderLinesOf(m, shapes[i + 1].state, t);
        assert next == results[i + 1];
        if next.Err? && next.error != IndexError {
          return Err(next.error);
        }
        if next.Ok? && |next.value| > 0 {
          acc1 := acc1 + [Transit(acc1[|acc1| - 1], next.value[0])];
        }
      }
      assert AssembleFrom(hits, flags, results, i, acc) == AssembleFrom(hits, flags, results, i + 1, acc1);
      acc := acc1;
    }
    if |acc| > 0 {
      acc := [acc[0]] + acc;
    }
    r := Ok(acc);
  }

  /** The inner loop of lines 125-135: each line through the zones, then appended. */
  method AppendBlanked(m: MathFns, zones: seq<Zone>, exclusion: bool, acc: seq<LineData>, lines: seq<LineData>)
    returns (r: seq<LineData>)
    requires ZonesWellFormed(zones)
    ensures r == acc + BlankAll(ZoneTest(m, zones), exclusion, lines)
  {
    r := acc;
    for k := 0 to |lines|
      invariant r == acc + BlankAll(ZoneTest(m, zones), exclusion, lines[..k])
    {
      var l := lines[k];
      if !exclusion {
        l := BlankByZones(m, zones, l);
      }
      assert BlankAll(ZoneTest(m, zones), exclusion, lines[..k + 1])
        == BlankAll(ZoneTest(m, zones), exclusion, lines[..k]) + [l];
      r := r + [l];
    }
    assert lines[..|lines|] == lines;
  }
}
