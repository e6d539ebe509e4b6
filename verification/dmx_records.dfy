/**
 * dmx/dmx.py: the three ctypes structures of the binary DMX file and their
 * byte images. The structures use the host's native layout, taken here as
 * little-endian with natural alignment: the 16-byte header has no gaps, the
 * element (u32 time, u16 count) is padded to 8 bytes and the value (u16
 * channel, u8 value) to 4. Each field keeps its value modulo 2^(8 * width).
 * The reader (`DecodeFile`) is the partner the round trip is proved against.
 */
module DmxRecords {
  import opened Wrappers
  import opened Errors
  import Ildx

  type Byte = Ildx.Byte

  /** The header's first word; its little-endian bytes are 44 58 4D 20. */
  const DMX_MAGIC: int := 0x204D5844

  const HEADER_SIZE: int := 16
  const ELEMENT_SIZE: int := 8
  const VALUE_SIZE: int := 4

  datatype Header = Header(magic: int, padding: int, universe: int, elementCount: int, duration: int)
  datatype Element = Element(time: int, valueAmount: int)
  datatype Value = Value(channel: int, value: int)

  /** One element followed by its values, as the factory writes them. */
  datatype Block = Block(element: Element, values: seq<Value>)
  datatype DmxFile = DmxFile(header: Header, blocks: seq<Block>)

  /** The value a `width`-byte unsigned ctypes field ends up holding. */
  function Wrap(v: int, width: nat): (r: int)
    ensures 0 <= r < Ildx.Pow256(width)
    ensures 0 <= v < Ildx.Pow256(width) ==> r == v
  {
    assert 0 <= v < Ildx.Pow256(width) ==> v % Ildx.Pow256(width) == v by {
      if 0 <= v < Ildx.Pow256(width) {
        Ildx.DivModUnique(v, Ildx.Pow256(width), 0, v);
      }
    }
    v % Ildx.Pow256(width)
  }

  /** A `width`-byte little-endian field holding v: its first byte is v mod 256. */
  function LittleEndian(v: int, width: nat): (r: seq<Byte>)
    ensures |r| == width
    decreases width
  {
    if width == 0 then [] else [v % 256] + LittleEndian(v / 256, width - 1)
  }

  /** Reading little-endian bytes back as an unsigned number. */
  function FromLittleEndian(bs: seq<Byte>): nat {
    if bs == [] then 0 else bs[0] + 256 * FromLittleEndian(bs[1..])
  }

  /** Writing v into a field and reading it back gives the wrapped value. */
  lemma {:induction false} LittleEndianRoundTrip(v: int, width: nat)
    ensures FromLittleEndian(LittleEndian(v, width)) == Wrap(v, width)
    decreases width
  {
    if width > 0 {
      var bs := LittleEndian(v, width);
      assert bs[1..] == LittleEndian(v / 256, width - 1);
      LittleEndianRoundTrip(v / 256, width - 1);
      Ildx.LowByteSplit(v, Ildx.Pow256(width - 1));
    }
  }

  predicate InRange(v: int, width: nat) {
    0 <= v < Ildx.Pow256(width)
  }

  /** Every field fits its width and every count matches what follows it. */
  predicate WellFormed(f: DmxFile) {
    && InRange(f.header.magic, 4) && InRange(f.header.padding, 2) && InRange(f.header.universe, 2)
    && InRange(f.header.duration, 4) && f.header.elementCount == |f.blocks|
    && BlocksFit(f.blocks)
  }

  predicate BlocksFit(blocks: seq<Block>) {
    forall i :: 0 <= i < |blocks| ==> BlockWellFormed(blocks[i])
  }

  predicate BlockWellFormed(b: Block) {
    InRange(b.element.time, 4) && b.element.valueAmount == |b.values| && InRange(|b.values|, 2) && ValuesFit(b.values)
  }

  predicate ValueFits(v: Value) {
    InRange(v.channel, 2) && InRange(v.value, 1)
  }

  predicate ValuesFit(vs: seq<Value>) {
    forall j :: 0 <= j < |vs| ==> ValueFits(vs[j])
  }

  /** `bytearray(DmxHeader(...))`. */
  function EncodeHeader(h: Header): (r: seq<Byte>)
    ensures |r| == HEADER_SIZE
  {
    LittleEndian(h.magic, 4) + LittleEndian(h.padding, 2) + LittleEndian(h.universe, 2)
    + LittleEndian(h.elementCount, 4) + LittleEndian(h.duration, 4)
  }

  /** `bytearray(DmxElement(...))`: two bytes of alignment padding at the end. */
  function EncodeElement(e: Element): (r: seq<Byte>)
    ensures |r| == ELEMENT_SIZE
  {
    LittleEndian(e.time, 4) + LittleEndian(e.valueAmount, 2) + [0, 0]
  }

  /** `bytearray(DmxValue(...))`: one byte of alignment padding at the end. */
  function EncodeValue(v: Value): (r: seq<Byte>)
    ensures |r| == VALUE_SIZE
  {
    LittleEndian(v.channel, 2) + LittleEndian(v.value, 1) + [0]
  }

  /** The images of xs, one after another, in order. */
  function Flatten<T>(xs: seq<T>, encode: T -> seq<Byte>): (r: seq<Byte>)
    decreases |xs|
  {
    if xs == [] then [] else Flatten(xs[..|xs| - 1], encode) + encode(xs[|xs| - 1])
  }

  /** Flattening read from the front: the first image, then the rest. */
  lemma {:induction false} FlattenCons<T>(xs: seq<T>, encode: T -> seq<Byte>)
    requires xs != []
    ensures Flatten(xs, encode) == encode(xs[0]) + Flatten(xs[1..], encode)
    decreases |xs|
  {
    if |xs| > 1 {
      var n := |xs|;
      assert xs[1..][..n - 2] == xs[..n - 1][1..];
      assert xs[..n - 1][0] == xs[0];
      FlattenCons(xs[..n - 1], encode);
    } else {
      assert xs[..0] == [] && xs[1..] == [];
    }
  }

  /** The same, with whatever follows the images. */
  lemma FlattenConsRest<T>(xs: seq<T>, encode: T -> seq<Byte>, rest: seq<Byte>)
    requires xs != []
    ensures Flatten(xs, encode) + rest == encode(xs[0]) + (Flatten(xs[1..], encode) + rest)
  {
    FlattenCons(xs, encode);
  }

  function EncodeBlock(b: Block): seq<Byte> {
    EncodeElement(b.element) + Flatten(b.values, EncodeValue)
  }

  /** The whole file: the header, then every element followed by its values. */
  function EncodeFile(f: DmxFile): (r: seq<Byte>)
    ensures |r| >= HEADER_SIZE
  {
    EncodeHeader(f.header) + Flatten(f.blocks, EncodeBlock)
  }

  function DecodeHeader(bs: seq<Byte>): Header
    requires |bs| == HEADER_SIZE
  {
    Header(FromLittleEndian(bs[0..4]), FromLittleEndian(bs[4..6]), FromLittleEndian(bs[6..8]),
      FromLittleEndian(bs[8..12]), FromLittleEndian(bs[12..16]))
  }

  function DecodeElement(bs: seq<Byte>): Element
    requires |bs| == ELEMENT_SIZE
  {
    Element(FromLittleEndian(bs[0..4]), FromLittleEndian(bs[4..6]))
  }

  function DecodeValue(bs: seq<Byte>): Value
    requires |bs| == VALUE_SIZE
  {
    Value(FromLittleEndian(bs[0..2]), FromLittleEndian(bs[2..3]))
  }

  /** n values from the front of bs, and what follows them. */
  function DecodeValues(bs: seq<Byte>, n: nat): (r: Result<(seq<Value>, seq<Byte>), Error>)
    ensures r.Ok? ==> |r.value.0| == n
    decreases n
  {
    if n == 0 then Ok(([], bs))
    else if |bs| < VALUE_SIZE then Err(ValueError("truncated value"))
    else
      match DecodeValues(bs[VALUE_SIZE..], n - 1)
      case Err(e) => Err(e)
      case Ok((vs, rest)) => Ok(([DecodeValue(bs[..VALUE_SIZE])] + vs, rest))
  }

  /** n blocks from the front of bs, and what follows them. */
  function DecodeBlocks(bs: seq<Byte>, n: nat): (r: Result<(seq<Block>, seq<Byte>), Error>)
    ensures r.Ok? ==> |r.value.0| == n
    decreases n
  {
    if n == 0 then Ok(([], bs))
    else if |bs| < ELEMENT_SIZE then Err(ValueError("truncated element"))
    else
      var e := DecodeElement(bs[..ELEMENT_SIZE]);
      match DecodeValues(bs[ELEMENT_SIZE..], e.valueAmount)
      case Err(err) => Err(err)
      case Ok((vs, rest)) =>
        match DecodeBlocks(rest, n - 1)
        case Err(err) => Err(err)
        case Ok((blocks, tail)) => Ok(([Block(e, vs)] + blocks, tail))
  }

  /** Reads a whole file: a header, as many blocks as it announces, nothing after. */
  function DecodeFile(bs: seq<Byte>): (r: Result<DmxFile, Error>)
    ensures r.Ok? ==> |r.value.blocks| == r.value.header.elementCount
  {
    if |bs| < HEADER_SIZE then Err(ValueError("truncated header"))
    else
      var h := DecodeHeader(bs[..HEADER_SIZE]);
      match DecodeBlocks(bs[HEADER_SIZE..], h.elementCount)
      case Err(e) => Err(e)
      case Ok((blocks, rest)) =>
        if rest == [] then Ok(DmxFile(h, blocks)) else Err(ValueError("trailing bytes"))
  }

  lemma FieldRoundTrip(v: int, width: nat)
    requires InRange(v, width)
    ensures FromLittleEndian(LittleEndian(v, width)) == v
  {
    LittleEndianRoundTrip(v, width);
  }

  lemma HeaderRoundTrip(h: Header)
    requires InRange(h.magic, 4) && InRange(h.padding, 2) && InRange(h.universe, 2)
    requires InRange(h.elementCount, 4) && InRange(h.duration, 4)
    ensures DecodeHeader(EncodeHeader(h)) == h
  {
    HeaderFields(LittleEndian(h.magic, 4), LittleEndian(h.padding, 2), LittleEndian(h.universe, 2),
      LittleEndian(h.elementCount, 4), LittleEndian(h.duration, 4));
    FieldRoundTrip(h.magic, 4);
    FieldRoundTrip(h.padding, 2);
    FieldRoundTrip(h.universe, 2);
    FieldRoundTrip(h.elementCount, 4);
    FieldRoundTrip(h.duration, 4);
  }

  /** Where each field of the header lies. */
  lemma HeaderFields(a: seq<Byte>, b: seq<Byte>, c: seq<Byte>, d: seq<Byte>, e: seq<Byte>)
    requires |a| == 4 && |b| == 2 && |c| == 2 && |d| == 4 && |e| == 4
    ensures var bs := a + b + c + d + e;
      bs[0..4] == a && bs[4..6] == b && bs[6..8] == c && bs[8..12] == d && bs[12..16] == e
  {
  }

  lemma ElementRoundTrip(e: Element)
    requires InRange(e.time, 4) && InRange(e.valueAmount, 2)
    ensures DecodeElement(EncodeElement(e)) == e
  {
    var bs := EncodeElement(e);
    assert bs[0..4] == LittleEndian(e.time, 4);
    assert bs[4..6] == LittleEndian(e.valueAmount, 2);
    FieldRoundTrip(e.time, 4);
    FieldRoundTrip(e.valueAmount, 2);
  }

  lemma ValueRoundTrip(v: Value)
    requires ValueFits(v)
    ensures DecodeValue(EncodeValue(v)) == v
  {
    var bs := EncodeValue(v);
    assert bs[0..2] == LittleEndian(v.channel, 2);
    assert bs[2..3] == LittleEndian(v.value, 1);
    FieldRoundTrip(v.channel, 2);
    FieldRoundTrip(v.value, 1);
  }

  lemma DecodeValuesStep(bs: seq<Byte>, n: nat, vs: seq<Value>, rest: seq<Byte>)
    requires 0 < n && VALUE_SIZE <= |bs| && DecodeValues(bs[VALUE_SIZE..], n - 1) == Ok((vs, rest))
    ensures DecodeValues(bs, n) == Ok(([DecodeValue(bs[..VALUE_SIZE])] + vs, rest))
  {
  }

  lemma DecodeBlocksStep(bs: seq<Byte>, n: nat, b: Block, rest: seq<Byte>, blocks: seq<Block>, tail: seq<Byte>)
    requires 0 < n && ELEMENT_SIZE <= |bs| && DecodeElement(bs[..ELEMENT_SIZE]) == b.element
    requires DecodeValues(bs[ELEMENT_SIZE..], b.element.valueAmount) == Ok((b.values, rest))
    requires DecodeBlocks(rest, n - 1) == Ok((blocks, tail))
    ensures DecodeBlocks(bs, n) == Ok(([b] + blocks, tail))
  {
  }

  lemma ConsTail<T>(xs: seq<T>)
    requires xs != []
    ensures [xs[0]] + xs[1..] == xs
  {
  }

  lemma SplitAt(a: seq<Byte>, b: seq<Byte>)
    ensures (a + b)[..|a|] == a && (a + b)[|a|..] == b
  {
  }

  lemma ValuesFitTail(vs: seq<Value>)
    requires vs != [] && ValuesFit(vs)
    ensures ValueFits(vs[0]) && ValuesFit(vs[1..])
  {
    forall j | 0 <= j < |vs[1..]|
      ensures ValueFits(vs[1..][j])
    {
      assert vs[1..][j] == vs[j + 1];
    }
  }

  /** Values written one after another are read back in order, the rest untouched. */
  lemma {:induction false} ValuesRoundTrip(vs: seq<Value>, rest: seq<Byte>)
    requires ValuesFit(vs)
    ensures DecodeValues(Flatten(vs, EncodeValue) + rest, |vs|) == Ok((vs, rest))
    decreases |vs|
  {
    if vs == [] {
      assert Flatten(vs, EncodeValue) + rest == rest;
    } else {
      var head, tail := EncodeValue(vs[0]), Flatten(vs[1..], EncodeValue) + rest;
      FlattenConsRest(vs, EncodeValue, rest);
      var bs := head + tail;
      SplitAt(head, tail);
      ValuesFitTail(vs);
      ValueRoundTrip(vs[0]);
      ValuesRoundTrip(vs[1..], rest);
      DecodeValuesStep(bs, |vs|, vs[1..], rest);
      ConsTail(vs);
    }
  }

  lemma BlockRoundTrip(b: Block, rest: seq<Byte>)
    requires BlockWellFormed(b)
    ensures var bs := EncodeBlock(b) + rest;
      |bs| >= ELEMENT_SIZE && DecodeElement(bs[..ELEMENT_SIZE]) == b.element
      && DecodeValues(bs[ELEMENT_SIZE..], b.element.valueAmount) == Ok((b.values, rest))
  {
    var head, tail := EncodeElement(b.element), Flatten(b.values, EncodeValue) + rest;
    assert EncodeBlock(b) + rest == head + tail;
    SplitAt(head, tail);
    ElementRoundTrip(b.element);
    ValuesRoundTrip(b.values, rest);
  }

  lemma BlocksFitTail(blocks: seq<Block>)
    requires blocks != [] && BlocksFit(blocks)
    ensures BlockWellFormed(blocks[0]) && BlocksFit(blocks[1..])
  {
    forall i | 0 <= i < |blocks[1..]|
      ensures BlockWellFormed(blocks[1..][i])
    {
      assert blocks[1..][i] == blocks[i + 1];
    }
  }

  /** The blocks are read back in order from their bytes, followed by the rest untouched. */
  ghost predicate ReadsBack(blocks: seq<Block>, rest: seq<Byte>) {
    DecodeBlocks(Flatten(blocks, EncodeBlock) + rest, |blocks|) == Ok((blocks, rest))
  }

  /** Blocks written one after another are read back in order, the rest untouched. */
  lemma {:induction false} BlocksRoundTrip(blocks: seq<Block>, rest: seq<Byte>)
    requires BlocksFit(blocks)
    ensures ReadsBack(blocks, rest)
    decreases |blocks|
  {
    if blocks == [] {
      assert Flatten(blocks, EncodeBlock) + rest == rest;
    } else {
      BlocksFitTail(blocks);
      BlocksRoundTrip(blocks[1..], rest);
      BlocksRoundTripStep(blocks, rest);
    }
  }

  /** The first block read back in front of the blocks after it. */
  lemma BlocksRoundTripStep(blocks: seq<Block>, rest: seq<Byte>)
    requires blocks != [] && BlockWellFormed(blocks[0])
    requires DecodeBlocks(Flatten(blocks[1..], EncodeBlock) + rest, |blocks| - 1) == Ok((blocks[1..], rest))
    ensures DecodeBlocks(Flatten(blocks, EncodeBlock) + rest, |blocks|) == Ok((blocks, rest))
  {
    var b := blocks[0];
    var tail := Flatten(blocks[1..], EncodeBlock) + rest;
    FlattenConsRest(blocks, EncodeBlock, rest);
    var bs := EncodeBlock(b) + tail;
    BlockRoundTrip(b, tail);
    DecodeBlocksStep(bs, |blocks|, b, tail, blocks[1..], rest);
    ConsTail(blocks);
  }

  /** A well-formed file is read back exactly as it was written. */
  lemma FileRoundTrip(f: DmxFile)
    requires WellFormed(f) && InRange(f.header.elementCount, 4)
    ensures DecodeFile(EncodeFile(f)) == Ok(f)
  {
    var bs := EncodeFile(f);
    assert bs[..HEADER_SIZE] == EncodeHeader(f.header);
    assert bs[HEADER_SIZE..] == Flatten(f.blocks, EncodeBlock) + [];
    HeaderRoundTrip(f.header);
    BlocksRoundTrip(f.blocks, []);
  }

  /** The magic word as it lies in the file: "DXM ", not "DMX ". */
  lemma MagicBytes()
    ensures LittleEndian(DMX_MAGIC, 4) == [0x44, 0x58, 0x4D, 0x20]
  {
  }
}
