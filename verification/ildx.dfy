/**
 * laser/ildx.py: the constants and the byte layout of the ILDX file, a
 * variant of the ILDA Image Data Transfer Format (revision 011): the 32-byte
 * frame header and the 8-byte Format 5 (2D true colour) point record, both
 * big-endian. Each ctypes field keeps its value modulo 2^(8 * width), which
 * for a signed field is the two's complement bit pattern.
 */
module Ildx {
  import opened Wrappers
  import opened Errors

  type Byte = b: int | 0 <= b < 256

  /** "ILDX" and "ILDA" read as big-endian 32-bit words. */
  const ILDX_MAGIC: int := 0x494C4458
  const ILDA_MAGIC: int := 0x494C4441

  const LAST_POINT_MASK: int := 0x80
  const BLANKING_MASK: int := 0x40

  const HEADER_SIZE: int := 32
  const RECORD_SIZE: int := 8

  function Pow256(n: nat): (r: nat)
    ensures 0 < r
  {
    if n == 0 then 1 else 256 * Pow256(n - 1)
  }

  /** A `width`-byte big-endian field holding v: its last byte is v mod 256. */
  function BigEndian(v: int, width: nat): (r: seq<Byte>)
    ensures |r| == width
    decreases width
  {
    if width == 0 then [] else BigEndian(v / 256, width - 1) + [v % 256]
  }

  /** Reading big-endian bytes back as an unsigned number. */
  function FromBigEndian(bs: seq<Byte>): nat {
    if bs == [] then 0 else FromBigEndian(bs[..|bs| - 1]) * 256 + bs[|bs| - 1]
  }

  /** Reading two big-endian bytes back as a signed 16-bit number. */
  function FromBigEndianSigned16(bs: seq<Byte>): int
    requires |bs| == 2
  {
    var u := FromBigEndian(bs);
    if u < 0x8000 then u else u - 0x1_0000
  }

  /** The Euclidean quotient and remainder are the only ones. */
  lemma DivModUnique(v: int, m: int, a: int, c: int)
    requires 0 < m && v == m * a + c && 0 <= c < m
    ensures v % m == c && v / m == a
  {
    var q, r := v / m, v % m;
    assert v == m * q + r;
    QuotientsAgree(m, a, c, q, r);
  }

  /** m a + c == m q + r with both remainders in [0, m) forces a == q. */
  lemma QuotientsAgree(m: int, a: int, c: int, q: int, r: int)
    requires 0 < m && 0 <= c < m && 0 <= r < m && m * a + c == m * q + r
    ensures a == q && c == r
  {
    if a > q {
      MulAtLeast(m, a - q);
    } else if a < q {
      MulAtLeast(m, q - a);
    }
  }

  lemma MulAtLeast(m: int, k: int)
    requires 0 < m && 1 <= k
    ensures m <= m * k
  {
    assert m * k == m + m * (k - 1);
    assert 0 <= m * (k - 1);
  }

  /** Writing v into a field and reading it back gives v modulo the field's range. */
  lemma {:induction false} BigEndianRoundTrip(v: int, width: nat)
    ensures FromBigEndian(BigEndian(v, width)) == v % Pow256(width)
    decreases width
  {
    if width > 0 {
      var bs := BigEndian(v, width);
      assert bs[..|bs| - 1] == BigEndian(v / 256, width - 1);
      BigEndianRoundTrip(v / 256, width - 1);
      LowByteSplit(v, Pow256(width - 1));
    }
  }

  /** v mod 256p is 256 times (v div 256) mod p, plus v's low byte. */
  lemma LowByteSplit(v: int, p: int)
    requires 0 < p
    ensures ((v / 256) % p) * 256 + v % 256 == v % (256 * p)
  {
    var q, r := v / 256, v % 256;
    var a, b := q / p, q % p;
    assert q == p * a + b;
    assert v == 256 * q + r;
    assert v == (256 * p) * a + (b * 256 + r) by {
      assert 256 * q == 256 * (p * a) + 256 * b;
      assert 256 * (p * a) == (256 * p) * a;
    }
    assert 0 <= b * 256 + r < 256 * p by {
      assert b <= p - 1;
      assert b * 256 <= (p - 1) * 256;
    }
    DivModUnique(v, 256 * p, a, b * 256 + r);
  }

  /** A value that fits a field comes back unchanged. */
  lemma FieldRoundTrip(v: int, width: nat)
    requires 0 <= v < Pow256(width)
    ensures FromBigEndian(BigEndian(v, width)) == v
  {
    BigEndianRoundTrip(v, width);
    DivModUnique(v, Pow256(width), 0, v);
  }

  /** A signed 16-bit field holds any value in [-32768, 32767] exactly. */
  lemma Int16RoundTrip(v: int)
    requires -0x8000 <= v < 0x8000
    ensures FromBigEndianSigned16(BigEndian(v, 2)) == v
  {
    BigEndianRoundTrip(v, 2);
    assert Pow256(2) == 0x1_0000;
    if v < 0 {
      DivModUnique(v, 0x1_0000, -1, v + 0x1_0000);
    } else {
      DivModUnique(v, 0x1_0000, 0, v);
    }
  }

  /** The magic numbers spell "ILDA" and "ILDX" in ASCII. */
  lemma MagicSpellsFormat()
    ensures BigEndian(ILDA_MAGIC, 4) == [0x49, 0x4C, 0x44, 0x41]
    ensures BigEndian(ILDX_MAGIC, 4) == [0x49, 0x4C, 0x44, 0x58]
  {
  }

  /** The status byte of a point: the blanking bit and the last-point bit. */
  function StatusCode(blanked: bool, last: bool): int {
    (if blanked then BLANKING_MASK else 0) + (if last then LAST_POINT_MASK else 0)
  }

  /** Bit 6 is set exactly for a blanked point and bit 7 exactly for the last one; no other bit is set. */
  lemma StatusCodeBits(blanked: bool, last: bool)
    ensures var s := StatusCode(blanked, last);
      && 0 <= s < 256 && s % 64 == 0
      && ((s / BLANKING_MASK) % 2 == 1 <==> blanked)
      && ((s / LAST_POINT_MASK) % 2 == 1 <==> last)
  {
  }

  /** `adjust_start_time(time)`: `time.to_bytes(3, 'big')`, an OverflowError when it does not fit. */
  function AdjustStartTime(time: int): (r: Result<seq<Byte>, Error>)
    ensures r.Ok? <==> 0 <= time < 0x100_0000
    ensures r.Err? ==> r.error == OverflowError
    ensures r.Ok? ==> |r.value| == 3
  {
    if 0 <= time < 0x100_0000 then Ok(BigEndian(time, 3)) else Err(OverflowError)
  }

  /** The three bytes read back give the time: b0 * 2^16 + b1 * 2^8 + b2. */
  lemma AdjustStartTimeRoundTrip(time: int)
    requires 0 <= time < 0x100_0000
    ensures var b := AdjustStartTime(time).value;
      (b[0] as int) * 0x1_0000 + (b[1] as int) * 0x100 + b[2] as int == time
  {
    assert Pow256(3) == 0x100_0000;
    FieldRoundTrip(time, 3);
    var b := BigEndian(time, 3);
    assert FromBigEndian(b) == (b[0] as int) * 0x1_0000 + (b[1] as int) * 0x100 + b[2] as int by {
      assert b[..2][..1] == b[..1];
      assert b[..1][..0] == [];
    }
  }

  /** `zero_start_time()`. */
  function ZeroStartTime(): (r: seq<Byte>)
    ensures r == [0, 0, 0]
  {
    [0, 0, 0]
  }

  lemma ZeroStartTimeIsAdjustedZero()
    ensures AdjustStartTime(0) == Ok(ZeroStartTime())
  {
    assert BigEndian(0, 1) == [0];
    assert BigEndian(0, 2) == [0, 0];
    assert BigEndian(0, 3) == [0, 0, 0];
  }

  /**
   * The fields of `IldxHeader`, as the values assigned to them. The three
   * start-time bytes and the two names are byte arrays already.
   */
  datatype Header = Header(
    ildxMagic: int,
    starttime: seq<Byte>,
    formatCode: int,
    frameName: seq<Byte>,
    companyName: seq<Byte>,
    numberOfRecords: int,
    frameOrPaletteNumber: int,
    totalFrames: int,
    projectorNumber: int,
    framesPerSecondOrFrameAmount: int)

  /** Arrays of the width the structure declares. */
  predicate ArraysFit(h: Header) {
    |h.starttime| == 3 && |h.frameName| == 8 && |h.companyName| == 8
  }

  /** `bytearray(header)`: the fields in declaration order, big-endian. */
  function EncodeHeader(h: Header): (r: seq<Byte>)
    requires ArraysFit(h)
    ensures |r| == HEADER_SIZE
  {
    HeaderFront(h) + HeaderNames(h) + HeaderCounts(h) + HeaderTail(h)
  }

  /** Bytes 0-7: the magic, the start time and the format code. */
  function HeaderFront(h: Header): (r: seq<Byte>)
    requires ArraysFit(h)
    ensures |r| == 8
  {
    BigEndian(h.ildxMagic, 4) + h.starttime + BigEndian(h.formatCode, 1)
  }

  /** Bytes 8-23: the frame name and the company name. */
  function HeaderNames(h: Header): (r: seq<Byte>)
    requires ArraysFit(h)
    ensures |r| == 16
  {
    h.frameName + h.companyName
  }

  /** Bytes 24-29: the record count, the frame number and the frame total. */
  function HeaderCounts(h: Header): (r: seq<Byte>)
    ensures |r| == 6
  {
    BigEndian(h.numberOfRecords, 2) + BigEndian(h.frameOrPaletteNumber, 2) + BigEndian(h.totalFrames, 2)
  }

  /** Bytes 30-31: the projector and the rate. */
  function HeaderTail(h: Header): (r: seq<Byte>)
    ensures |r| == 2
  {
    BigEndian(h.projectorNumber, 1) + BigEndian(h.framesPerSecondOrFrameAmount, 1)
  }

  /** The unsigned field of `width` bytes at `offset`. */
  function FieldAt(bs: seq<Byte>, offset: nat, width: nat): nat
    requires offset + width <= |bs|
  {
    FromBigEndian(bs[offset..offset + width])
  }

  /**
   * Where each header field sits, per the ILDA header table: the magic at
   * 0-3, the start time at 4-6, the format code at 7, the names at 8-15 and
   * 16-23, the three counts at 24-29, the projector at 30 and the rate at 31;
   * each reads back as its value modulo the field's range.
   */
  lemma HeaderLayout(h: Header)
    requires ArraysFit(h)
    ensures var bs := EncodeHeader(h);
      && FieldAt(bs, 0, 4) == h.ildxMagic % 0x1_0000_0000
      && bs[4..7] == h.starttime
      && bs[7] == h.formatCode % 256
      && bs[8..16] == h.frameName
      && bs[16..24] == h.companyName
      && FieldAt(bs, 24, 2) == h.numberOfRecords % 0x1_0000
      && FieldAt(bs, 26, 2) == h.frameOrPaletteNumber % 0x1_0000
      && FieldAt(bs, 28, 2) == h.totalFrames % 0x1_0000
      && bs[30] == h.projectorNumber % 256
      && bs[31] == h.framesPerSecondOrFrameAmount % 256
  {
    HeaderSlices(h);
    BigEndianRoundTrip(h.ildxMagic, 4);
    BigEndianRoundTrip(h.numberOfRecords, 2);
    BigEndianRoundTrip(h.frameOrPaletteNumber, 2);
    BigEndianRoundTrip(h.totalFrames, 2);
    assert Pow256(2) == 0x1_0000 && Pow256(4) == 0x1_0000_0000;
  }

  /** Where each field's bytes sit in the encoded header. */
  lemma HeaderSlices(h: Header)
    requires ArraysFit(h)
    ensures var bs := EncodeHeader(h);
      && bs[0..4] == BigEndian(h.ildxMagic, 4)
      && bs[4..7] == h.starttime
      && bs[7] == h.formatCode % 256
      && bs[8..16] == h.frameName
      && bs[16..24] == h.companyName
      && bs[24..26] == BigEndian(h.numberOfRecords, 2)
      && bs[26..28] == BigEndian(h.frameOrPaletteNumber, 2)
      && bs[28..30] == BigEndian(h.totalFrames, 2)
      && bs[30] == h.projectorNumber % 256
      && bs[31] == h.framesPerSecondOrFrameAmount % 256
  {
    var bs := EncodeHeader(h);
    var front, names, counts, tail := HeaderFront(h), HeaderNames(h), HeaderCounts(h), HeaderTail(h);
    Quarters(front, names, counts, tail);
    Thirds(BigEndian(h.ildxMagic, 4), h.starttime, BigEndian(h.formatCode, 1));
    Thirds(BigEndian(h.numberOfRecords, 2), BigEndian(h.frameOrPaletteNumber, 2), BigEndian(h.totalFrames, 2));
    assert names[..8] == h.frameName && names[8..] == h.companyName;
    assert tail == [h.projectorNumber % 256, h.framesPerSecondOrFrameAmount % 256];
    SliceOfSlice(bs, 0, 8, 0, 4);
    SliceOfSlice(bs, 0, 8, 4, 7);
    SliceOfSlice(bs, 8, 24, 0, 8);
    SliceOfSlice(bs, 8, 24, 8, 16);
    SliceOfSlice(bs, 24, 30, 0, 2);
    SliceOfSlice(bs, 24, 30, 2, 4);
    SliceOfSlice(bs, 24, 30, 4, 6);
  }

  /** The four parts of a concatenation, sliced back out. */
  lemma Quarters<T>(a: seq<T>, b: seq<T>, c: seq<T>, d: seq<T>)
    ensures var s := a + b + c + d;
      && s[..|a|] == a && s[|a|..|a| + |b|] == b
      && s[|a| + |b|..|a| + |b| + |c|] == c && s[|a| + |b| + |c|..] == d
  {
    var s := a + b + c + d;
    assert s[..|a|] == a;
    assert s[|a|..|a| + |b|] == b;
    assert s[|a| + |b|..|a| + |b| + |c|] == c;
    assert s[|a| + |b| + |c|..] == d;
  }

  /** The three parts of a concatenation, sliced back out. */
  lemma Thirds<T>(a: seq<T>, b: seq<T>, c: seq<T>)
    ensures var s := a + b + c;
      s[..|a|] == a && s[|a|..|a| + |b|] == b && s[|a| + |b|..] == c
  {
    var s := a + b + c;
    assert s[..|a|] == a;
    assert s[|a|..|a| + |b|] == b;
    assert s[|a| + |b|..] == c;
  }

  /** A slice of a slice is a slice of the whole. */
  lemma SliceOfSlice<T>(s: seq<T>, i: nat, j: nat, k: nat, l: nat)
    requires i <= j <= |s| && k <= l <= j - i
    ensures s[i..j][k..l] == s[i + k..i + l]
  {
    var t, u := s[i..j][k..l], s[i + k..i + l];
    assert |t| == |u|;
    forall n | 0 <= n < |t|
      ensures t[n] == u[n]
    {
      assert t[n] == s[i..j][k + n];
    }
  }

  /** The fields of `Ilda2dTrueColorRecord`, in the code's order r, g, b. */
  datatype Record = Record(x: int, y: int, statusCode: int, r: int, g: int, b: int)

  /** `bytearray(record)`: signed 16-bit x and y, then four bytes. */
  function EncodeRecord(rec: Record): (r: seq<Byte>)
    ensures |r| == RECORD_SIZE
  {
    BigEndian(rec.x, 2) + BigEndian(rec.y, 2)
      + (BigEndian(rec.statusCode, 1) + BigEndian(rec.r, 1) + BigEndian(rec.g, 1) + BigEndian(rec.b, 1))
  }

  /** Coordinates in the int16 range read back exactly; the other fields modulo 256. */
  lemma RecordLayout(rec: Record)
    requires -0x8000 <= rec.x < 0x8000 && -0x8000 <= rec.y < 0x8000
    ensures var bs := EncodeRecord(rec);
      && FromBigEndianSigned16(bs[0..2]) == rec.x
      && FromBigEndianSigned16(bs[2..4]) == rec.y
      && bs[4] == rec.statusCode % 256
      && bs[5] == rec.r % 256 && bs[6] == rec.g % 256 && bs[7] == rec.b % 256
  {
    var bytes := BigEndian(rec.statusCode, 1) + BigEndian(rec.r, 1) + BigEndian(rec.g, 1) + BigEndian(rec.b, 1);
    Thirds(BigEndian(rec.x, 2), BigEndian(rec.y, 2), bytes);
    assert bytes == [rec.statusCode % 256, rec.r % 256, rec.g % 256, rec.b % 256];
    Int16RoundTrip(rec.x);
    Int16RoundTrip(rec.y);
  }
}
