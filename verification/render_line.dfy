/**
 * laser/render_line.py: one drawable segment of a laser frame, with a colour
 * and a blanking flag, that the encoder later turns into one point record.
 */
module RenderLines {
  import opened Geometry
  import opened Colors

  /** The value of a render line at one moment. */
  datatype LineData = LineData(start: Vec, end: Vec, color: Color, blanked: bool)

  /** `blank()`: only the flag changes, and it becomes true. */
  function BlankData(l: LineData): (r: LineData)
    ensures r.blanked
    ensures r.start == l.start && r.end == l.end && r.color == l.color
  {
    l.(blanked := true)
  }

  function NegateX(p: Vec): Vec { Vec(-p.x, p.y) }

  function NegateY(p: Vec): Vec { Vec(p.x, -p.y) }

  /** `flip_x()`: both endpoints mirrored in the y axis. */
  function FlipXData(l: LineData): (r: LineData)
    ensures r.start.x == -l.start.x && r.end.x == -l.end.x
    ensures r.start.y == l.start.y && r.end.y == l.end.y
    ensures r.color == l.color && r.blanked == l.blanked
  {
    l.(start := NegateX(l.start), end := NegateX(l.end))
  }

  /** `flip_y()`: both endpoints mirrored in the x axis. */
  function FlipYData(l: LineData): (r: LineData)
    ensures r.start.y == -l.start.y && r.end.y == -l.end.y
    ensures r.start.x == l.start.x && r.end.x == l.end.x
    ensures r.color == l.color && r.blanked == l.blanked
  {
    l.(start := NegateY(l.start), end := NegateY(l.end))
  }

  /** Blanking twice is blanking once. */
  lemma BlankIdempotent(l: LineData)
    ensures BlankData(BlankData(l)) == BlankData(l)
  {
  }

  /** Each flip undoes itself. */
  lemma FlipsAreInvolutions(l: LineData)
    ensures FlipXData(FlipXData(l)) == l
    ensures FlipYData(FlipYData(l)) == l
  {
  }

  /** The two flips commute with each other and with blanking. */
  lemma FlipsCommute(l: LineData)
    ensures FlipXData(FlipYData(l)) == FlipYData(FlipXData(l))
    ensures FlipXData(BlankData(l)) == BlankData(FlipXData(l))
    ensures FlipYData(BlankData(l)) == BlankData(FlipYData(l))
  {
  }

  /**
   * A render line. The endpoints are held by value, which is what the
   * source's `start.copy()`/`end.copy()` achieve: no later change to the
   * caller's arrays, and no flip of another line, can reach them.
   */
  class RenderLine {
    var start: Vec
    var end: Vec
    const color: Color
    var blanked: bool

    function Snapshot(): LineData
      reads this
    {
      LineData(start, end, color, blanked)
    }

    constructor (start: Vec, end: Vec, color: Color, blanked: bool)
      ensures Snapshot() == LineData(start, end, color, blanked)
    {
      this.start := start;
      this.end := end;
      this.color := color;
      this.blanked := blanked;
    }

    /** `copy()`: a new line with the same fields and storage of its own. */
    method Copy() returns (r: RenderLine)
      ensures fresh(r) && r.Snapshot() == Snapshot()
    {
      r := new RenderLine(start, end, color, blanked);
    }

    method Blank()
      modifies this
      ensures Snapshot() == BlankData(old(Snapshot()))
    {
      blanked := true;
    }

    method FlipX()
      modifies this
      ensures Snapshot() == FlipXData(old(Snapshot()))
    {
      start := NegateX(start);
      end := NegateX(end);
    }

    method FlipY()
      modifies this
      ensures Snapshot() == FlipYData(old(Snapshot()))
    {
      start := NegateY(start);
      end := NegateY(end);
    }
  }

  /** Blanking and flipping a copy leaves the original line as it was. */
  method CopyIsIndependent(l: RenderLine) returns (c: RenderLine)
    ensures fresh(c)
    ensures l.Snapshot() == old(l.Snapshot())
    ensures c.Snapshot() == FlipXData(BlankData(l.Snapshot()))
  {
    c := l.Copy();
    c.Blank();
    c.FlipX();
  }
}
