/**
 * `_write_file` and `_format_ildx_name` of laser/ildx_factory.py: every
 * frame of every animation becomes a 32-byte header followed by one 8-byte
 * point record per render line, and a header with no records ends the file.
 */
module IldxWriter {
  import opened Wrappers
  import opened Errors
  import opened Numeric
  import opened Geometry
  import opened Colors
  import opened RenderLines
  import opened Ildx

  const NAME_LENGTH: nat := 8
  const FORMAT_CODE_2D_TRUE_COLOR: int := 5
  /** `Shape.ILDX_RESOLUTION`: the span of the 16-bit coordinate range. */
  const RESOLUTION: int := 0x1_0000

  // ---------------------------------------------------------------------
  // Names

  function Spaces(n: nat): (r: string)
    ensures |r| == n && forall k :: 0 <= k < n ==> r[k] == ' '
  {
    if n == 0 then "" else Spaces(n - 1) + " "
  }

  /** `_format_ildx_name(name)`: cut to eight characters, or padded with spaces to eight. */
  function FormatName(name: string): (r: string)
    ensures |r| == NAME_LENGTH
    ensures NAME_LENGTH <= |name| ==> r == name[..NAME_LENGTH]
    ensures |name| < NAME_LENGTH ==> r[..|name|] == name && forall k :: |name| <= k < NAME_LENGTH ==> r[k] == ' '
  {
    if |name| > NAME_LENGTH then name[..NAME_LENGTH]
    else if |name| < NAME_LENGTH then name + Spaces(NAME_LENGTH - |name|)
    else name
  }

  /** A formatted name formats to itself. */
  lemma FormatNameIdempotent(name: string)
    ensures FormatName(FormatName(name)) == FormatName(name)
  {
    assert FormatName(name)[..NAME_LENGTH] == FormatName(name);
  }

  /** Names that agree in their first eight characters format alike. */
  lemma FormatNameKeepsPrefix(a: string, b: string)
    requires NAME_LENGTH <= |a| && NAME_LENGTH <= |b| && a[..NAME_LENGTH] == b[..NAME_LENGTH]
    ensures FormatName(a) == FormatName(b)
  {
  }

  predicate IsAscii(s: string) {
    forall k :: 0 <= k < |s| ==> (s[k] as int) < 128
  }

  /** `bytes(s, encoding="ascii")`: one byte per character, a UnicodeEncodeError for any other character. */
  function AsciiBytes(s: string): (r: Result<seq<Byte>, Error>)
    ensures r.Ok? <==> IsAscii(s)
    ensures r.Err? ==> r.error == UnicodeEncodeError
    ensures r.Ok? ==> |r.value| == |s| && forall k :: 0 <= k < |s| ==> r.value[k] == s[k] as int
  {
    if IsAscii(s) then Ok(seq(|s|, k requires 0 <= k < |s| && IsAscii(s) => s[k] as int))
    else Err(UnicodeEncodeError)
  }

  /** The ASCII bytes of a name read back as the name. */
  lemma AsciiBytesRoundTrip(s: string)
    requires IsAscii(s)
    ensures var b := AsciiBytes(s).value;
      |b| == |s| && forall k :: 0 <= k < |b| ==> b[k] as char == s[k]
  {
  }

  // ---------------------------------------------------------------------
  // Records

  /** `int(v * ILDX_RESOLUTION * 0.5)`. */
  function Coordinate(v: real): int {
    Trunc(v * RESOLUTION as real * 0.5)
  }

  /** A coordinate strictly inside (-1, 1) fills the signed 16-bit range without overflowing it. */
  lemma CoordinateFits(v: real)
    requires -1.0 < v < 1.0
    ensures -0x8000 < Coordinate(v) < 0x8000
  {
  }

  /** `int(255 * c)`. */
  function ColorByte(c: real): int {
    Trunc(255.0 * c)
  }

  /** A channel in [0, 1] is a byte, with 0 and 1 at its ends. */
  lemma ColorByteFits(c: real)
    requires InUnit(c)
    ensures 0 <= ColorByte(c) <= 255
    ensures c == 0.0 ==> ColorByte(c) == 0
    ensures c == 1.0 ==> ColorByte(c) == 255
  {
  }

  /** The record of one render line: its end point, its status bits and its colour. */
  function RecordOf(l: LineData, last: bool): Record {
    Record(
      Coordinate(l.end.x), Coordinate(l.end.y), StatusCode(l.blanked, last),
      ColorByte(l.color.r), ColorByte(l.color.g), ColorByte(l.color.b))
  }

  /** The record of each line of a frame; only the frame's own last line carries the last-point bit. */
  function FrameRecords(frame: seq<LineData>): (r: seq<seq<Byte>>)
    ensures |r| == |frame|
    ensures forall k :: 0 <= k < |r| ==> |r[k]| == RECORD_SIZE
  {
    seq(|frame|, k requires 0 <= k < |frame| => EncodeRecord(RecordOf(frame[k], k == |frame| - 1)))
  }

  /** Byte blocks written one after the other. */
  function Concat(blocks: seq<seq<Byte>>): seq<Byte> {
    if |blocks| == 0 then [] else Concat(blocks[..|blocks| - 1]) + blocks[|blocks| - 1]
  }

  /** Record blocks: block k sits at 8k. */
  lemma {:induction false} ConcatAt(blocks: seq<seq<Byte>>, k: nat)
    requires forall j :: 0 <= j < |blocks| ==> |blocks[j]| == RECORD_SIZE
    requires k < |blocks|
    ensures |Concat(blocks)| == RECORD_SIZE * |blocks|
    ensures Concat(blocks)[RECORD_SIZE * k..RECORD_SIZE * k + RECORD_SIZE] == blocks[k]
  {
    var front := blocks[..|blocks| - 1];
    ConcatLength(front);
    if k < |blocks| - 1 {
      ConcatAt(front, k);
      SliceOfFront(Concat(front), blocks[|blocks| - 1], RECORD_SIZE * k, RECORD_SIZE * k + RECORD_SIZE);
    } else {
      SliceOfBack(Concat(front), blocks[|blocks| - 1]);
    }
  }

  lemma {:induction false} ConcatLength(blocks: seq<seq<Byte>>)
    requires forall j :: 0 <= j < |blocks| ==> |blocks[j]| == RECORD_SIZE
    ensures |Concat(blocks)| == RECORD_SIZE * |blocks|
  {
    if |blocks| > 0 {
      ConcatLength(blocks[..|blocks| - 1]);
    }
  }

  lemma SliceOfFront(p: seq<Byte>, q: seq<Byte>, i: nat, j: nat)
    requires i <= j <= |p|
    ensures (p + q)[i..j] == p[i..j]
  {
  }

  lemma SliceOfBack(p: seq<Byte>, q: seq<Byte>)
    ensures (p + q)[|p|..|p| + |q|] == q
  {
  }

  /** The records of a frame, line after line. */
  function EncodeRecords(frame: seq<LineData>): (r: seq<Byte>)
    ensures |r| == RECORD_SIZE * |frame|
  {
    ConcatLength(FrameRecords(frame));
    Concat(FrameRecords(frame))
  }

  /**
   * What the record of line k of a frame reads back as, for a line that ends
   * inside (-1, 1)^2: the scaled end point exactly, the blanking bit as the
   * line's flag and the last-point bit on the frame's last line only.
   */
  lemma RecordReadsBack(frame: seq<LineData>, k: nat)
    requires k < |frame|
    requires -1.0 < frame[k].end.x < 1.0 && -1.0 < frame[k].end.y < 1.0
    ensures var bs := EncodeRecords(frame)[RECORD_SIZE * k..RECORD_SIZE * k + RECORD_SIZE];
      && FromBigEndianSigned16(bs[0..2]) == Coordinate(frame[k].end.x)
      && FromBigEndianSigned16(bs[2..4]) == Coordinate(frame[k].end.y)
      && ((bs[4] / BLANKING_MASK) % 2 == 1 <==> frame[k].blanked)
      && ((bs[4] / LAST_POINT_MASK) % 2 == 1 <==> k == |frame| - 1)
  {
    ConcatAt(FrameRecords(frame), k);
    RecordOfReadsBack(frame[k], k == |frame| - 1);
  }

  /** The record of a line ending inside (-1, 1)^2 reads back as its end point and its two flags. */
  lemma RecordOfReadsBack(l: LineData, last: bool)
    requires -1.0 < l.end.x < 1.0 && -1.0 < l.end.y < 1.0
    ensures var bs := EncodeRecord(RecordOf(l, last));
      && FromBigEndianSigned16(bs[0..2]) == Coordinate(l.end.x)
      && FromBigEndianSigned16(bs[2..4]) == Coordinate(l.end.y)
      && ((bs[4] / BLANKING_MASK) % 2 == 1 <==> l.blanked)
      && ((bs[4] / LAST_POINT_MASK) % 2 == 1 <==> last)
  {
    CoordinateFits(l.end.x);
    CoordinateFits(l.end.y);
    RecordLayout(RecordOf(l, last));
    StatusCodeBits(l.blanked, last);
  }

  // ---------------------------------------------------------------------
  // Headers

  /** The factory settings `_write_file` reads. */
  datatype Settings = Settings(
    startTs: seq<int>,
    frameNames: seq<string>,
    companyName: string,
    fps: int,
    projectorNumber: int,
    legacyMode: bool)

  /** The header fields an animation shares: its start time and the two names, as bytes. */
  datatype Shared = Shared(starttime: seq<Byte>, frameName: seq<Byte>, companyName: seq<Byte>)

  /**
   * The shared fields of animation a, in the order the keyword arguments are
   * evaluated: the start time (`adjust_start_time` unless in legacy mode),
   * then the company name, then the frame name.
   */
  function SharedFields(s: Settings, a: nat): (r: Result<Shared, Error>)
    ensures r.Ok? ==> |r.value.starttime| == 3
    ensures r.Ok? ==> a < |s.frameNames| && |r.value.frameName| == |s.frameNames[a]|
    ensures r.Ok? ==> |r.value.companyName| == |s.companyName|
  {
    var st :=
      if s.legacyMode then Ok(ZeroStartTime())
      else if a < |s.startTs| then AdjustStartTime(s.startTs[a])
      else Err(IndexError);
    if st.Err? then Err(st.error)
    else
      var company := AsciiBytes(s.companyName);
      if company.Err? then Err(company.error)
      else if |s.frameNames| <= a then Err(IndexError)
      else
        var name := AsciiBytes(s.frameNames[a]);
        if name.Err? then Err(name.error)
        else Ok(Shared(st.value, name.value, company.value))
  }

  /**
   * The shared fields fail exactly when the start time does not fit three
   * bytes (outside legacy mode) or a name is not ASCII, given that both
   * lists reach animation a.
   */
  lemma SharedFieldsFail(s: Settings, a: nat)
    requires a < |s.startTs| && a < |s.frameNames|
    ensures var r := SharedFields(s, a);
      && (r.Err? <==>
            (!s.legacyMode && !(0 <= s.startTs[a] < 0x100_0000))
            || !IsAscii(s.companyName) || !IsAscii(s.frameNames[a]))
      && (r.Err? && !s.legacyMode && !(0 <= s.startTs[a] < 0x100_0000) ==> r.error == OverflowError)
      && (r.Err? && (s.legacyMode || 0 <= s.startTs[a] < 0x100_0000) ==> r.error == UnicodeEncodeError)
  {
  }

  /** `framesPerSecondOrFrameAmount`: 0 in legacy mode, else the rate on the first frame and 1 after it. */
  function RateField(s: Settings, frameIdx: nat): int {
    if s.legacyMode then 0 else if frameIdx == 0 then s.fps else 1
  }

  function FrameHeader(s: Settings, sh: Shared, frameIdx: nat, records: nat, total: nat): Header {
    Header(ILDA_MAGIC, sh.starttime, FORMAT_CODE_2D_TRUE_COLOR, sh.frameName, sh.companyName,
           records, frameIdx, total, s.projectorNumber, RateField(s, frameIdx))
  }

  /** The header that ends the file: no records, blank names, start time 0. */
  function Terminator(): (h: Header)
    ensures ArraysFit(h)
  {
    var blank := seq(NAME_LENGTH, k => ' ' as int);
    ZeroStartTimeIsAdjustedZero();
    Header(ILDA_MAGIC, AdjustStartTime(0).value, FORMAT_CODE_2D_TRUE_COLOR, blank, blank, 0, 0, 0, 0, 0)
  }

  /** The terminator's names are the bytes of `_format_ildx_name("")`. */
  lemma TerminatorNames()
    ensures var spaces := AsciiBytes(FormatName(""));
      spaces.Ok? && Terminator().frameName == spaces.value && Terminator().companyName == spaces.value
  {
    var name := FormatName("");
    assert forall k :: 0 <= k < |name| ==> name[k] == ' ';
  }

  // ---------------------------------------------------------------------
  // The file

  /** One frame: its header, then its records. */
  function EncodeFrame(s: Settings, sh: Shared, frames: seq<seq<LineData>>, f: nat): (r: seq<Byte>)
    requires |sh.starttime| == 3 && |sh.frameName| == NAME_LENGTH && |sh.companyName| == NAME_LENGTH
    requires f < |frames|
    ensures |r| == HEADER_SIZE + RECORD_SIZE * |frames[f]|
  {
    EncodeHeader(FrameHeader(s, sh, f, |frames[f]|, |frames|)) + EncodeRecords(frames[f])
  }

  /** The first n frames of an animation. */
  function EncodeFrames(s: Settings, sh: Shared, frames: seq<seq<LineData>>, n: nat): (r: seq<Byte>)
    requires |sh.starttime| == 3 && |sh.frameName| == NAME_LENGTH && |sh.companyName| == NAME_LENGTH
    requires n <= |frames|
    ensures |r| == HEADER_SIZE * n + RECORD_SIZE * LineCount(frames[..n])
  {
    if n == 0 then []
    else
      assert frames[..n] == frames[..n - 1] + [frames[n - 1]];
      LineCountAppend(frames[..n - 1], [frames[n - 1]]);
      EncodeFrames(s, sh, frames, n - 1) + EncodeFrame(s, sh, frames, n - 1)
  }

  /** The number of render lines over a list of frames. */
  function LineCount(frames: seq<seq<LineData>>): nat {
    if |frames| == 0 then 0 else LineCount(frames[..|frames| - 1]) + |frames[|frames| - 1]|
  }

  lemma {:induction false} LineCountAppend(a: seq<seq<LineData>>, b: seq<seq<LineData>>)
    ensures LineCount(a + b) == LineCount(a) + LineCount(b)
    decreases |b|
  {
    if |b| == 0 {
      assert a + b == a;
    } else {
      assert (a + b)[..|a + b| - 1] == a + b[..|b| - 1];
      LineCountAppend(a, b[..|b| - 1]);
    }
  }

  /**
   * The bytes of animation a: nothing for an animation without frames, and
   * otherwise its frames one after the other, or the error of its shared
   * fields.
   */
  function AnimationBytes(s: Settings, frames: seq<seq<LineData>>, a: nat): (r: Result<seq<Byte>, Error>)
    requires NamesFormatted(s)
    ensures r.Err? <==> 0 < |frames| && SharedFields(s, a).Err?
    ensures r.Ok? ==> |r.value| == HEADER_SIZE * |frames| + RECORD_SIZE * LineCount(frames)
  {
    if |frames| == 0 then Ok([])
    else
      var sh := SharedFields(s, a);
      if sh.Err? then Err(sh.error)
      else
        assert frames[..|frames|] == frames;
        Ok(EncodeFrames(s, sh.value, frames, |frames|))
  }

  /** The bytes of each animation, in order. */
  function AnimationParts(s: Settings, anims: seq<seq<seq<LineData>>>): (r: seq<Result<seq<Byte>, Error>>)
    requires NamesFormatted(s)
    ensures |r| == |anims|
  {
    seq(|anims|, a requires 0 <= a < |anims| => AnimationBytes(s, anims[a], a))
  }

  /** The first n parts one after the other, or the first error among them. */
  function JoinParts(parts: seq<Result<seq<Byte>, Error>>, n: nat): (r: Result<seq<Byte>, Error>)
    requires n <= |parts|
  {
    if n == 0 then Ok([])
    else
      var prev := JoinParts(parts, n - 1);
      if prev.Err? then prev
      else if parts[n - 1].Err? then parts[n - 1]
      else Ok(prev.value + parts[n - 1].value)
  }

  /** The names a factory holds: the company name and every frame name are eight characters long. */
  predicate NamesFormatted(s: Settings) {
    |s.companyName| == NAME_LENGTH && forall a :: 0 <= a < |s.frameNames| ==> |s.frameNames[a]| == NAME_LENGTH
  }

  /** `_write_file(render_lines)`: the bytes written, or the error that stops it. */
  function EncodeFile(s: Settings, anims: seq<seq<seq<LineData>>>): (r: Result<seq<Byte>, Error>)
    requires NamesFormatted(s)
  {
    var body := JoinParts(AnimationParts(s, anims), |anims|);
    if body.Err? then body else Ok(body.value + EncodeHeader(Terminator()))
  }

  /** The frames of the first n animations. */
  function FramesBefore(anims: seq<seq<seq<LineData>>>, n: nat): nat
    requires n <= |anims|
  {
    if n == 0 then 0 else FramesBefore(anims, n - 1) + |anims[n - 1]|
  }

  /** The render lines of the first n animations. */
  function LinesBefore(anims: seq<seq<seq<LineData>>>, n: nat): nat
    requires n <= |anims|
  {
    if n == 0 then 0 else LinesBefore(anims, n - 1) + LineCount(anims[n - 1])
  }

  /** The index of the first failing part among the first n, if any. */
  function FirstFailure(parts: seq<Result<seq<Byte>, Error>>, n: nat): (r: Option<nat>)
    requires n <= |parts|
    ensures r.Some? ==> r.value < n && parts[r.value].Err? && forall j :: 0 <= j < r.value ==> parts[j].Ok?
    ensures r.None? ==> forall j :: 0 <= j < n ==> parts[j].Ok?
  {
    if n == 0 then None
    else
      var before := FirstFailure(parts, n - 1);
      if before.Some? then before
      else if parts[n - 1].Err? then Some(n - 1)
      else None
  }

  /** Joining stops at the first failing part, with its error. */
  lemma {:induction false} JoinPartsFails(parts: seq<Result<seq<Byte>, Error>>, n: nat)
    requires n <= |parts|
    ensures var f := FirstFailure(parts, n);
      && (JoinParts(parts, n).Err? <==> f.Some?)
      && (f.Some? ==> JoinParts(parts, n) == parts[f.value])
  {
    if n > 0 {
      JoinPartsFails(parts, n - 1);
    }
  }

  /** Once a part fails, joining more parts keeps its error. */
  lemma {:induction false} FailureStops(parts: seq<Result<seq<Byte>, Error>>, n: nat, m: nat)
    requires n <= m <= |parts| && JoinParts(parts, n).Err?
    ensures JoinParts(parts, m) == JoinParts(parts, n)
    decreases m
  {
    if n < m {
      FailureStops(parts, n, m - 1);
    }
  }

  /** Parts that each take a header per frame and a record per line join into one that does. */
  lemma {:induction false} JoinedLength(parts: seq<Result<seq<Byte>, Error>>, anims: seq<seq<seq<LineData>>>, n: nat)
    requires n <= |parts| == |anims|
    requires forall a :: 0 <= a < |parts| && parts[a].Ok? ==>
      |parts[a].value| == HEADER_SIZE * |anims[a]| + RECORD_SIZE * LineCount(anims[a])
    ensures var r := JoinParts(parts, n);
      r.Ok? ==> |r.value| == HEADER_SIZE * FramesBefore(anims, n) + RECORD_SIZE * LinesBefore(anims, n)
  {
    if n > 0 {
      JoinedLength(parts, anims, n - 1);
    }
  }

  /** A part that fails after parts that joined fails the whole join with its error. */
  lemma JoinFails(parts: seq<Result<seq<Byte>, Error>>, n: nat)
    requires n < |parts| && JoinParts(parts, n).Ok? && parts[n].Err?
    ensures JoinParts(parts, |parts|) == Err(parts[n].error)
  {
    FailureStops(parts, n + 1, |parts|);
  }

  /** Joining one more part that succeeds appends its bytes. */
  lemma JoinStep(parts: seq<Result<seq<Byte>, Error>>, n: nat, bytes: seq<Byte>)
    requires n < |parts| && JoinParts(parts, n) == Ok(bytes) && parts[n].Ok?
    ensures JoinParts(parts, n + 1) == Ok(bytes + parts[n].value)
  {
  }

  /**
   * The file fails exactly when some animation has frames and a start time
   * or a name it cannot encode, with the error of the first such animation;
   * otherwise it holds a header per frame, a record per render line and the
   * terminating header, which ends it.
   */
  lemma EncodeFileSpec(s: Settings, anims: seq<seq<seq<LineData>>>)
    requires NamesFormatted(s)
    ensures var r := EncodeFile(s, anims);
      && (r.Err? <==> exists a :: 0 <= a < |anims| && |anims[a]| > 0 && SharedFields(s, a).Err?)
      && (r.Err? ==> exists a :: 0 <= a < |anims| && |anims[a]| > 0 && SharedFields(s, a) == Err(r.error))
      && (r.Ok? ==>
            && |r.value| == HEADER_SIZE * (FramesBefore(anims, |anims|) + 1) + RECORD_SIZE * LinesBefore(anims, |anims|)
            && r.value[|r.value| - HEADER_SIZE..] == EncodeHeader(Terminator()))
  {
    var parts := AnimationParts(s, anims);
    JoinPartsFails(parts, |anims|);
    forall a | 0 <= a < |parts| && parts[a].Ok?
      ensures |parts[a].value| == HEADER_SIZE * |anims[a]| + RECORD_SIZE * LineCount(anims[a])
    {
      assert parts[a] == AnimationBytes(s, anims[a], a);
    }
    JoinedLength(parts, anims, |anims|);
    var f := FirstFailure(parts, |anims|);
    if f.Some? {
      assert parts[f.value] == AnimationBytes(s, anims[f.value], f.value);
    } else {
      forall a | 0 <= a < |anims| && |anims[a]| > 0
        ensures SharedFields(s, a).Ok?
      {
        assert parts[a] == AnimationBytes(s, anims[a], a);
      }
    }
  }

  /** The terminating header announces no records, no frames and the 2D true-colour format. */
  lemma TerminatorLayout()
    ensures var bs := EncodeHeader(Terminator());
      && FieldAt(bs, 0, 4) == ILDA_MAGIC
      && bs[7] == FORMAT_CODE_2D_TRUE_COLOR
      && FieldAt(bs, 24, 2) == 0 && FieldAt(bs, 26, 2) == 0 && FieldAt(bs, 28, 2) == 0
  {
    HeaderLayout(Terminator());
  }

  /**
   * The header of frame f of an animation (the first 32 bytes of
   * `EncodeFrame`) reads back as the frame's record count, its number and the
   * animation's frame count (each modulo 2^16), the ILDA magic, the format
   * code, the shared fields and the rate field.
   */
  lemma FrameHeaderLayout(s: Settings, sh: Shared, f: nat, records: nat, total: nat)
    requires |sh.starttime| == 3 && |sh.frameName| == NAME_LENGTH && |sh.companyName| == NAME_LENGTH
    ensures var bs := EncodeHeader(FrameHeader(s, sh, f, records, total));
      && FieldAt(bs, 0, 4) == ILDA_MAGIC
      && bs[4..7] == sh.starttime
      && bs[7] == FORMAT_CODE_2D_TRUE_COLOR
      && bs[8..16] == sh.frameName
      && bs[16..24] == sh.companyName
      && FieldAt(bs, 24, 2) == records % 0x1_0000
      && FieldAt(bs, 26, 2) == f % 0x1_0000
      && FieldAt(bs, 28, 2) == total % 0x1_0000
      && bs[31] == RateField(s, f) % 256
  {
    HeaderLayout(FrameHeader(s, sh, f, records, total));
  }

  // ---------------------------------------------------------------------
  // The writing loops

  /** `_write_file(render_lines)`, without the final write to disk. */
  method WriteFile(s: Settings, anims: seq<seq<seq<LineData>>>) returns (r: Result<seq<Byte>, Error>)
    requires NamesFormatted(s)
    ensures r == EncodeFile(s, anims)
  {
    var target: seq<Byte> := [];
    ghost var parts := AnimationParts(s, anims);
    for a := 0 to |anims|
      invariant JoinParts(parts, a) == Ok(target)
    {
      var bytes := WriteAnimation(s, anims[a], a);
      assert parts[a] == bytes;
      if bytes.Err? {
        JoinFails(parts, a);
        return Err(bytes.error);
      }
      JoinStep(parts, a, target);
      target := target + bytes.value;
    }
    assert JoinParts(AnimationParts(s, anims), |anims|) == Ok(target);
    var last := WriteTerminator();
    target := target + last;
    r := Ok(target);
  }

  /** The closing header, built as the source builds it. */
  method WriteTerminator() returns (r: seq<Byte>)
    ensures r == EncodeHeader(Terminator())
  {
    var st := AdjustStartTime(0);
    var blank := AsciiBytes(FormatName(""));
    TerminatorNames();
    ZeroStartTimeIsAdjustedZero();
    var last := Header(ILDA_MAGIC, st.value, FORMAT_CODE_2D_TRUE_COLOR, blank.value, blank.value, 0, 0, 0, 0, 0);
    assert last == Terminator();
    r := EncodeHeader(last);
  }

  /** The frame loop of one animation; every frame evaluates the header fields afresh. */
  method WriteAnimation(s: Settings, frames: seq<seq<LineData>>, a: nat) returns (r: Result<seq<Byte>, Error>)
    requires NamesFormatted(s)
    ensures r == AnimationBytes(s, frames, a)
  {
    var target: seq<Byte> := [];
    for f := 0 to |frames|
      invariant f == 0 ==> target == []
      invariant 0 < f ==> SharedFields(s, a).Ok? && target == EncodeFrames(s, SharedFields(s, a).value, frames, f)
    {
      var sh := HeaderFields(s, a);
      if sh.Err? {
        return Err(sh.error);
      }
      var block := WriteFrame(s, sh.value, frames, f);
      target := target + block;
    }
    r := Ok(target);
  }

  /** The start time and the names of a header, evaluated in the order of the keyword arguments. */
  method HeaderFields(s: Settings, a: nat) returns (r: Result<Shared, Error>)
    ensures r == SharedFields(s, a)
  {
    var starttime: seq<Byte>;
    if s.legacyMode {
      starttime := ZeroStartTime();
    } else {
      if |s.startTs| <= a {
        return Err(IndexError);
      }
      var st := AdjustStartTime(s.startTs[a]);
      if st.Err? {
        return Err(st.error);
      }
      starttime := st.value;
    }
    var company := AsciiBytes(s.companyName);
    if company.Err? {
      return Err(company.error);
    }
    if |s.frameNames| <= a {
      return Err(IndexError);
    }
    var name := AsciiBytes(s.frameNames[a]);
    if name.Err? {
      return Err(name.error);
    }
    r := Ok(Shared(starttime, name.value, company.value));
  }

  /** One frame: its header, then its records. */
  method WriteFrame(s: Settings, sh: Shared, frames: seq<seq<LineData>>, f: nat) returns (r: seq<Byte>)
    requires |sh.starttime| == 3 && |sh.frameName| == NAME_LENGTH && |sh.companyName| == NAME_LENGTH
    requires f < |frames|
    ensures r == EncodeFrame(s, sh, frames, f)
  {
    var frame := frames[f];
    var fpsField := if s.legacyMode then 0 else if f == 0 then s.fps else 1;
    var header := Header(ILDA_MAGIC, sh.starttime, FORMAT_CODE_2D_TRUE_COLOR, sh.frameName, sh.companyName,
                         |frame|, f, |frames|, s.projectorNumber, fpsField);
    assert header == FrameHeader(s, sh, f, |frames[f]|, |frames|);
    var records := WriteRecords(frame);
    r := EncodeHeader(header) + records;
  }

  /** The record loop: a record per line, with the status bits set as the line demands. */
  method WriteRecords(frame: seq<LineData>) returns (r: seq<Byte>)
    ensures r == EncodeRecords(frame)
  {
    r := [];
    ghost var records := FrameRecords(frame);
    for k := 0 to |frame|
      invariant r == Concat(records[..k])
    {
      var line := frame[k];
      var status := 0;
      if line.blanked {
        status := status + BLANKING_MASK;
      }
      if k == |frame| - 1 {
        status := status + LAST_POINT_MASK;
      }
      var record := Record(Coordinate(line.end.x), Coordinate(line.end.y), status,
                           ColorByte(line.color.r), ColorByte(line.color.g), ColorByte(line.color.b));
      assert record == RecordOf(line, k == |frame| - 1);
      ConcatSnoc(records, k);
      r := r + EncodeRecord(record);
    }
    assert records[..|frame|] == records;
  }

  lemma ConcatSnoc(blocks: seq<seq<Byte>>, k: nat)
    requires k < |blocks|
    ensures Concat(blocks[..k + 1]) == Concat(blocks[..k]) + blocks[k]
  {
    assert blocks[..k + 1][..k] == blocks[..k];
  }
}
