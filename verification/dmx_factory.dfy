/**
 * dmx/dmx_factory.py: the delta encoder that turns the frames of a show into
 * the changes a DMX receiver needs, and the writer of the binary file.
 *
 * A frame's channel map is built from its (channel, value) pairs in order.
 * Only the pairs that differ from the last persisted map are stored, under
 * the frame's timestamp; the frame is persisted when there is at least one.
 * The stored diffs, replayed in order over a receiver's state, give every
 * frame's values (`ReceiverSeesEveryFrame`).
 */
module DmxFactories {
  import opened Wrappers
  import opened Errors
  import opened Numeric
  import opened DmxRecords
  import DmxFrames
  import Frames
  import Subchannels
  import Ildx

  const MILLISECONDS_PER_SECOND: int := 1000

  /** A channel map: DMX channel to byte. */
  type Values = map<int, int>

  /** The persisted diffs under their timestamps, in insertion order. */
  type Channels = seq<(real, Values)>

  /** A frame as the encoder reads it: its timestamp and its pairs in order. */
  type FrameData = (real, seq<(int, int)>)

  /** `{index: value for index, value in frame.channel_values}`. */
  function NewValues(cv: seq<(int, int)>): Values
    decreases |cv|
  {
    if cv == [] then map[] else NewValues(cv[..|cv| - 1])[cv[|cv| - 1].0 := cv[|cv| - 1].1]
  }

  /** A channel is in the map exactly when some pair sets it. */
  lemma {:induction false} NewValuesKeys(cv: seq<(int, int)>, k: int)
    ensures k in NewValues(cv) <==> exists i :: 0 <= i < |cv| && cv[i].0 == k
    decreases |cv|
  {
    if cv != [] {
      var n := |cv|;
      var init := cv[..n - 1];
      NewValuesKeys(init, k);
      if k in NewValues(init) {
        var i :| 0 <= i < |init| && init[i].0 == k;
        assert cv[i].0 == k;
      }
      if exists i :: 0 <= i < n && cv[i].0 == k {
        var i :| 0 <= i < n && cv[i].0 == k;
        if i < n - 1 {
          assert init[i].0 == k;
        }
      }
    }
  }

  /** The last pair for a channel wins. */
  lemma {:induction false} NewValuesLastWins(cv: seq<(int, int)>, i: int)
    requires 0 <= i < |cv|
    requires forall j :: i < j < |cv| ==> cv[j].0 != cv[i].0
    ensures cv[i].0 in NewValues(cv) && NewValues(cv)[cv[i].0] == cv[i].1
    decreases |cv|
  {
    var n := |cv|;
    if i < n - 1 {
      var init := cv[..n - 1];
      assert init[i] == cv[i];
      NewValuesLastWins(init, i);
    }
  }

  /** Every pair of a also is a pair of b. */
  predicate SubMap(a: Values, b: Values) {
    forall k :: k in a ==> k in b && b[k] == a[k]
  }

  lemma SubMapTransitive(a: Values, b: Values, c: Values)
    requires SubMap(a, b) && SubMap(b, c)
    ensures SubMap(a, c)
  {
  }

  /**
   * `dict(set(new_values.items()) - set(last_values.items()))`: the pairs of
   * the new map the last one does not hold. Laid over the last map it gives
   * back every pair of the new one, and it is empty exactly when the new map
   * holds nothing the last one does not.
   */
  function Diff(nw: Values, last: Values): (d: Values)
    ensures SubMap(d, nw)
    ensures forall k :: k in d ==> !(k in last && last[k] == d[k])
    ensures SubMap(nw, last + d)
    ensures |d| == 0 <==> SubMap(nw, last)
  {
    var d := map k | k in nw && !(k in last && last[k] == nw[k]) :: nw[k];
    assert |d| == 0 <==> SubMap(nw, last) by {
      if !SubMap(nw, last) {
        var k :| k in nw && !(k in last && last[k] == nw[k]);
        assert k in d.Keys;
        assert |d.Keys| > 0;
      } else {
        assert forall k :: k !in d;
        assert d.Keys == {};
      }
    }
    d
  }

  /** No entry is stored under ts. */
  predicate Fresh(chs: Channels, ts: real) {
    forall i :: 0 <= i < |chs| ==> chs[i].0 != ts
  }

  /** Every entry is stored under a time before t. */
  predicate Before(chs: Channels, t: real) {
    forall i :: 0 <= i < |chs| ==> chs[i].0 < t
  }

  /** `channels[timestamp] = diff` on an insertion-ordered dict. */
  function Put(chs: Channels, ts: real, d: Values): Channels
    decreases |chs|
  {
    if chs == [] then [(ts, d)]
    else if chs[0].0 == ts then [(ts, d)] + chs[1..]
    else [chs[0]] + Put(chs[1..], ts, d)
  }

  /** A new timestamp goes to the end. */
  lemma {:induction false} PutAppends(chs: Channels, ts: real, d: Values)
    requires Fresh(chs, ts)
    ensures Put(chs, ts, d) == chs + [(ts, d)]
    decreases |chs|
  {
    if chs != [] {
      assert Fresh(chs[1..], ts) by {
        forall i | 0 <= i < |chs[1..]| ensures chs[1..][i].0 != ts {
          assert chs[1..][i] == chs[i + 1];
        }
      }
      PutAppends(chs[1..], ts, d);
      assert [chs[0]] + (chs[1..] + [(ts, d)]) == chs + [(ts, d)];
    }
  }

  /** A timestamp already present keeps its place and takes the new diff. */
  lemma {:induction false} PutReplaces(chs: Channels, ts: real, d: Values, i: int)
    requires 0 <= i < |chs| && chs[i].0 == ts
    requires forall j :: 0 <= j < i ==> chs[j].0 != ts
    ensures Put(chs, ts, d) == chs[i := (ts, d)]
    decreases |chs|
  {
    if i > 0 {
      forall j | 0 <= j < i - 1
        ensures chs[1..][j].0 != ts
      {
        assert chs[1..][j] == chs[j + 1];
      }
      PutReplaces(chs[1..], ts, d, i - 1);
      assert [chs[0]] + chs[1..][i - 1 := (ts, d)] == chs[i := (ts, d)];
    } else {
      assert [(ts, d)] + chs[1..] == chs[0 := (ts, d)];
    }
  }

  /** The persisted diffs and the last persisted channel map. */
  datatype Track = Track(channels: Channels, last: Values)

  /** One iteration of `_compute_channels`. */
  function Step(s: Track, ts: real, cv: seq<(int, int)>): Track {
    var nw := NewValues(cv);
    var d := Diff(nw, s.last);
    if |d| > 0 then Track(Put(s.channels, ts, d), nw) else s
  }

  /**
   * A frame is persisted exactly when it sets some channel to a value the
   * last persisted map does not hold; either way, all its pairs are held by
   * the last persisted map afterwards.
   */
  lemma StepPersistsIffChanged(s: Track, ts: real, cv: seq<(int, int)>)
    ensures Step(s, ts, cv) != s <==> !SubMap(NewValues(cv), s.last)
    ensures Step(s, ts, cv) != s ==> Step(s, ts, cv).last == NewValues(cv)
    ensures SubMap(NewValues(cv), Step(s, ts, cv).last)
  {
    var nw := NewValues(cv);
    if !SubMap(nw, s.last) {
      assert nw != s.last;
    }
  }

  /** `_compute_channels(frames)`, with the last persisted map it ends with. */
  function DeltaTrack(frames: seq<FrameData>): Track
    decreases |frames|
  {
    if frames == [] then Track([], map[])
    else
      var n := |frames|;
      Step(DeltaTrack(frames[..n - 1]), frames[n - 1].0, frames[n - 1].1)
  }

  lemma DeltaTrackSnoc(frames: seq<FrameData>, i: int)
    requires 0 <= i < |frames|
    ensures DeltaTrack(frames[..i + 1]) == Step(DeltaTrack(frames[..i]), frames[i].0, frames[i].1)
  {
    assert frames[..i + 1][..i] == frames[..i];
  }

  /** A frame that only repeats what was last persisted adds nothing. */
  lemma RepeatAddsNothing(s: Track, ts: real, ts': real, cv: seq<(int, int)>)
    ensures Step(Step(s, ts, cv), ts', cv) == Step(s, ts, cv)
  {
  }

  /** A frame that sets nothing adds nothing, the first frame included. */
  lemma EmptyFrameAddsNothing(s: Track, ts: real)
    ensures Step(s, ts, []) == s
  {
  }

  predicate NonEmptyDiffs(chs: Channels) {
    forall i :: 0 <= i < |chs| ==> |chs[i].1| > 0
  }

  /** Every persisted diff changes at least one channel. */
  lemma {:induction false} PersistedDiffsNonEmpty(frames: seq<FrameData>)
    ensures NonEmptyDiffs(DeltaTrack(frames).channels)
    decreases |frames|
  {
    if frames != [] {
      var n := |frames|;
      var s := DeltaTrack(frames[..n - 1]);
      PersistedDiffsNonEmpty(frames[..n - 1]);
      var d := Diff(NewValues(frames[n - 1].1), s.last);
      if |d| > 0 {
        PutKeepsNonEmpty(s.channels, frames[n - 1].0, d);
        assert DeltaTrack(frames).channels == Put(s.channels, frames[n - 1].0, d);
      } else {
        assert DeltaTrack(frames).channels == s.channels;
      }
    }
  }

  lemma {:induction false} PutKeepsNonEmpty(chs: Channels, ts: real, d: Values)
    requires |d| > 0 && NonEmptyDiffs(chs)
    ensures NonEmptyDiffs(Put(chs, ts, d))
    decreases |chs|
  {
    if chs != [] {
      assert NonEmptyDiffs(chs[1..]) by {
        forall i | 0 <= i < |chs[1..]| ensures |chs[1..][i].1| > 0 {
          assert chs[1..][i] == chs[i + 1];
        }
      }
      if chs[0].0 != ts {
        PutKeepsNonEmpty(chs[1..], ts, d);
        var r := [chs[0]] + Put(chs[1..], ts, d);
        assert forall i :: 1 <= i < |r| ==> r[i] == Put(chs[1..], ts, d)[i - 1];
      }
    }
  }

  /** What a receiver holds after applying the stored diffs in order. */
  function Replay(chs: Channels): Values
    decreases |chs|
  {
    if chs == [] then map[] else Replay(chs[..|chs| - 1]) + chs[|chs| - 1].1
  }

  /** Frame times strictly increase, as `_compute_frames` produces them. */
  predicate Increasing(frames: seq<FrameData>) {
    forall i, j :: 0 <= i < j < |frames| ==> frames[i].0 < frames[j].0
  }

  /** The diffs are stored under frame times only. */
  lemma {:induction false} DeltaBefore(frames: seq<FrameData>, t: real)
    requires forall i :: 0 <= i < |frames| ==> frames[i].0 < t
    ensures Before(DeltaTrack(frames).channels, t)
    decreases |frames|
  {
    if frames != [] {
      var n := |frames|;
      DeltaBefore(frames[..n - 1], t);
      PutBefore(DeltaTrack(frames[..n - 1]).channels, frames[n - 1].0, Diff(NewValues(frames[n - 1].1), DeltaTrack(frames[..n - 1]).last), t);
    }
  }

  lemma {:induction false} PutBefore(chs: Channels, ts: real, d: Values, t: real)
    requires Before(chs, t) && ts < t
    ensures Before(Put(chs, ts, d), t)
    decreases |chs|
  {
    if chs != [] && chs[0].0 != ts {
      assert Before(chs[1..], t) by {
        forall i | 0 <= i < |chs[1..]| ensures chs[1..][i].0 < t {
          assert chs[1..][i] == chs[i + 1];
        }
      }
      PutBefore(chs[1..], ts, d, t);
    }
  }

  /** The receiver holds every pair of the last persisted map. */
  predicate InSync(s: Track) {
    SubMap(s.last, Replay(s.channels))
  }

  lemma StepKeepsInSync(s: Track, ts: real, cv: seq<(int, int)>)
    requires InSync(s) && Before(s.channels, ts)
    ensures InSync(Step(s, ts, cv))
  {
    var nw := NewValues(cv);
    var d := Diff(nw, s.last);
    if |d| > 0 {
      assert Fresh(s.channels, ts);
      PutAppends(s.channels, ts, d);
      var chs := s.channels + [(ts, d)];
      assert chs[..|chs| - 1] == s.channels;
      assert Replay(chs) == Replay(s.channels) + d;
    }
  }

  lemma {:induction false} DeltaInSync(frames: seq<FrameData>)
    requires Increasing(frames)
    ensures InSync(DeltaTrack(frames))
    decreases |frames|
  {
    if frames != [] {
      var n := |frames|;
      var init := frames[..n - 1];
      DeltaInSync(init);
      DeltaBefore(init, frames[n - 1].0);
      StepKeepsInSync(DeltaTrack(init), frames[n - 1].0, frames[n - 1].1);
    }
  }

  /**
   * A receiver that applies the stored diffs up to a frame's time holds
   * every channel that frame set, at the value the frame set last, even when
   * the frame itself was not persisted.
   */
  lemma ReceiverSeesEveryFrame(frames: seq<FrameData>, i: int)
    requires Increasing(frames) && 0 <= i < |frames|
    ensures SubMap(NewValues(frames[i].1), Replay(DeltaTrack(frames[..i + 1]).channels))
  {
    var upTo := frames[..i + 1];
    assert upTo[..i] == frames[..i];
    DeltaInSync(upTo);
    var s := DeltaTrack(upTo);
    StepPersistsIffChanged(DeltaTrack(frames[..i]), frames[i].0, frames[i].1);
    SubMapTransitive(NewValues(frames[i].1), s.last, Replay(s.channels));
  }

  /** The timestamps and pairs of the frame objects, in order. */
  function Contents(frames: seq<DmxFrames.Frame>): (r: seq<FrameData>)
    reads frames
    ensures |r| == |frames|
    ensures forall i :: 0 <= i < |frames| ==> r[i] == (frames[i].t, frames[i].channelValues)
    decreases |frames|
  {
    if frames == [] then []
    else Contents(frames[..|frames| - 1]) + [(frames[|frames| - 1].t, frames[|frames| - 1].channelValues)]
  }

  /** `_compute_channels(frames)`. */
  method ComputeChannels(frames: seq<DmxFrames.Frame>) returns (channels: Channels)
    ensures channels == DeltaTrack(Contents(frames)).channels
  {
    ghost var xs := Contents(frames);
    channels := [];
    var last: Values := map[];
    for i := 0 to |frames|
      invariant channels == DeltaTrack(xs[..i]).channels && last == DeltaTrack(xs[..i]).last
    {
      DeltaTrackSnoc(xs, i);
      var newValues := NewValues(frames[i].channelValues);
      var diff := Diff(newValues, last);
      if |diff| > 0 {
        channels := Put(channels, frames[i].t, diff);
        last := newValues;
      }
    }
    assert xs[..|frames|] == xs;
  }

  /** Python's `a // b` on ints: the floor of the quotient. */
  function FloorDiv(a: int, b: int): (r: Result<int, Error>)
    ensures r.Err? <==> b == 0
    ensures r.Err? ==> r.error == ZeroDivisionError
    ensures r.Ok? && 0 < b ==> b * r.value <= a < b * r.value + b
    ensures r.Ok? && b < 0 ==> b * r.value + b < a <= b * r.value
  {
    if b == 0 then Err(ZeroDivisionError)
    else if 0 < b then Ok(a / b)
    else Ok((-a) / (-b))
  }

  /**
   * The header `_write_binary_file` builds for `count` persisted frames: the
   * duration is the element count, not the time the frames span, read as
   * frames at `fps` and given in milliseconds.
   */
  function HeaderFor(universe: int, fps: int, count: nat): (r: Result<Header, Error>)
    ensures r.Err? <==> fps == 0
    ensures r.Err? ==> r.error == ZeroDivisionError
    ensures r.Ok? ==> r.value.magic == DMX_MAGIC && r.value.padding == 0
    ensures r.Ok? ==> r.value.universe == Wrap(universe, 2) && r.value.elementCount == Wrap(count, 4)
    ensures r.Ok? && 0 < fps && InRange(FloorDiv(MILLISECONDS_PER_SECOND * count, fps).value, 4) ==>
      fps * r.value.duration <= MILLISECONDS_PER_SECOND * count < fps * (r.value.duration + 1)
  {
    match FloorDiv(MILLISECONDS_PER_SECOND * count, fps)
    case Err(e) => Err(e)
    case Ok(duration) => Ok(Header(DMX_MAGIC, 0, Wrap(universe, 2), Wrap(count, 4), Wrap(duration, 4)))
  }

  /**
   * The element the factory means to write for a persisted frame: its time
   * in whole milliseconds, truncated toward zero, and the size of its diff.
   */
  function ElementFor(ts: real, d: Values): (e: Element)
    ensures 0.0 <= ts && InRange(Trunc(ts * 1000.0), 4) ==> e.time as real <= ts * 1000.0 < e.time as real + 1.0
    ensures e.valueAmount == Wrap(|d|, 2)
  {
    Element(Wrap(Trunc(ts * 1000.0), 4), Wrap(|d|, 2))
  }

  /**
   * The element as `_write_binary_file` builds it: `DmxElement(timestamp=...)`
   * names no field of the structure (the field is `time`), so ctypes stores
   * the keyword as a plain attribute and `time` keeps its initial zero.
   */
  function ElementAsWritten(ts: real, d: Values): (e: Element)
    ensures e.time == 0 && e.valueAmount == Wrap(|d|, 2)
  {
    Element(0, Wrap(|d|, 2))
  }

  /** A frame one second in: the file says 0 ms where 1000 ms was meant. */
  lemma ElementTimeLost(d: Values)
    ensures ElementAsWritten(1.0, d).time == 0
    ensures ElementFor(1.0, d).time == 1000
  {
    assert Trunc(1.0 * 1000.0) == 1000;
  }

  /** Later frames get later (or equal) element times while the times fit 32 bits. */
  lemma ElementTimesFollowFrames(t1: real, t2: real, d1: Values, d2: Values)
    requires 0.0 <= t1 <= t2 && Trunc(t2 * 1000.0) < 0x1_0000_0000
    ensures ElementFor(t1, d1).time <= ElementFor(t2, d2).time
  {
    Frames.MulMonotone(t1, t2, 1000.0);
    Subchannels.TruncMonotone(t1 * 1000.0, t2 * 1000.0);
    assert Ildx.Pow256(4) == 0x1_0000_0000;
  }

  /** order lists every channel of keys exactly once (set iteration order). */
  predicate Enumerates(order: seq<int>, keys: set<int>)
    decreases |order|
  {
    if order == [] then keys == {}
    else order[|order| - 1] in keys && Enumerates(order[..|order| - 1], keys - {order[|order| - 1]})
  }

  lemma {:induction false} EnumeratesAll(order: seq<int>, keys: set<int>)
    requires Enumerates(order, keys)
    ensures |order| == |keys|
    ensures forall k :: k in order <==> k in keys
    decreases |order|
  {
    if order != [] {
      var n := |order|;
      EnumeratesAll(order[..n - 1], keys - {order[n - 1]});
      assert order == order[..n - 1] + [order[n - 1]];
    }
  }

  /** `DmxValue(channel=k, value=d[k])`. */
  function ValueFor(d: Values, k: int): (v: Value)
    requires k in d
    ensures ValueFits(v)
    ensures InRange(k, 2) && InRange(d[k], 1) ==> v == Value(k, d[k])
  {
    Value(Wrap(k, 2), Wrap(d[k], 1))
  }

  /** The values written for diff d, in the order the dict yields its keys. */
  function ValuesFor(d: Values, order: seq<int>): (r: seq<Value>)
    requires forall k :: k in order ==> k in d
    ensures |r| == |order| && ValuesFit(r)
    decreases |order|
  {
    if order == [] then []
    else ValuesFor(d, order[..|order| - 1]) + [ValueFor(d, order[|order| - 1])]
  }

  /** A key order for each persisted diff. */
  predicate Orders(orders: seq<seq<int>>, channels: Channels) {
    |orders| == |channels| && forall i :: 0 <= i < |channels| ==> Enumerates(orders[i], channels[i].1.Keys)
  }

  function BlockFor(entry: (real, Values), order: seq<int>): Block
    requires Enumerates(order, entry.1.Keys)
  {
    EnumeratesAll(order, entry.1.Keys);
    Block(ElementFor(entry.0, entry.1), ValuesFor(entry.1, order))
  }

  function BlocksFor(channels: Channels, orders: seq<seq<int>>): (r: seq<Block>)
    requires Orders(orders, channels)
    ensures |r| == |channels|
    decreases |channels|
  {
    if channels == [] then []
    else
      var n := |channels|;
      BlocksFor(channels[..n - 1], orders[..n - 1]) + [BlockFor(channels[n - 1], orders[n - 1])]
  }

  /** The file `_write_binary_file` means to write, given the key orders. */
  function FileFor(universe: int, fps: int, channels: Channels, orders: seq<seq<int>>): (r: Result<DmxFile, Error>)
    requires Orders(orders, channels)
    ensures r.Err? <==> fps == 0
    ensures r.Ok? ==> |r.value.blocks| == |channels|
  {
    match HeaderFor(universe, fps, |channels|)
    case Err(e) => Err(e)
    case Ok(h) => Ok(DmxFile(h, BlocksFor(channels, orders)))
  }

  /**
   * `_write_binary_file(channels)`: the header, then for every persisted
   * frame its element and one value per entry of its diff. The entries come
   * in the order the dict built from a set yields them, which the code does
   * not fix; `orders` records the order taken.
   */
  method WriteBinary(universe: int, fps: int, channels: Channels) returns (r: Result<seq<Byte>, Error>, ghost orders: seq<seq<int>>)
    ensures r.Err? <==> fps == 0
    ensures r.Err? ==> r.error == ZeroDivisionError
    ensures r.Ok? ==> Orders(orders, channels) && r.value == EncodeFile(FileFor(universe, fps, channels, orders).value)
  {
    var header := HeaderFor(universe, fps, |channels|);
    if header.Err? {
      return Err(header.error), [];
    }
    var target := EncodeHeader(header.value);
    var blocks;
    blocks, orders := WriteBlocks(channels);
    target := target + blocks;
    return Ok(target), orders;
  }

  /** The outer loop: for every persisted frame its element, then its values. */
  method WriteBlocks(channels: Channels) returns (bytes: seq<Byte>, ghost orders: seq<seq<int>>)
    ensures Orders(orders, channels)
    ensures bytes == Flatten(BlocksFor(channels, orders), EncodeBlock)
  {
    bytes := [];
    orders := [];
    for i := 0 to |channels|
      invariant Orders(orders, channels[..i])
      invariant bytes == Flatten(BlocksFor(channels[..i], orders), EncodeBlock)
    {
      var timestamp, values := channels[i].0, channels[i].1;
      var element := ElementFor(timestamp, values);
      var valueBytes, order := WriteValues(values);
      BlocksForSnoc(channels, orders, i, order);
      bytes := bytes + (EncodeElement(element) + valueBytes);
      orders := orders + [order];
    }
    assert channels[..|channels|] == channels;
  }

  /** The inner loop: one value per entry of the diff, in the order the set yields them. */
  method WriteValues(values: Values) returns (bytes: seq<Byte>, ghost order: seq<int>)
    ensures Enumerates(order, values.Keys)
    ensures forall k :: k in order ==> k in values
    ensures bytes == Flatten(ValuesFor(values, order), EncodeValue)
  {
    bytes := [];
    order := [];
    var remaining := values.Keys;
    while remaining != {}
      invariant remaining <= values.Keys
      invariant Enumerates(order, values.Keys - remaining)
      invariant forall k :: k in order ==> k in values
      invariant bytes == Flatten(ValuesFor(values, order), EncodeValue)
      decreases remaining
    {
      NonEmptyHasMember(remaining);
      var channel: int :| channel in remaining;
      bytes := bytes + EncodeValue(ValueFor(values, channel));
      ghost var prev := order;
      order := order + [channel];
      assert order[..|order| - 1] == prev;
      assert (values.Keys - (remaining - {channel})) - {channel} == values.Keys - remaining;
      remaining := remaining - {channel};
    }
    assert values.Keys - remaining == values.Keys;
  }

  lemma NonEmptyHasMember(s: set<int>)
    requires s != {}
    ensures exists c :: c in s
  {
    if forall c :: c !in s {
      assert false;
    }
  }

  lemma BlocksForSnoc(channels: Channels, orders: seq<seq<int>>, i: int, order: seq<int>)
    requires 0 <= i < |channels| && Orders(orders, channels[..i]) && Enumerates(order, channels[i].1.Keys)
    requires forall k :: k in order ==> k in channels[i].1
    ensures Orders(orders + [order], channels[..i + 1])
    ensures Flatten(BlocksFor(channels[..i + 1], orders + [order]), EncodeBlock)
      == Flatten(BlocksFor(channels[..i], orders), EncodeBlock)
        + (EncodeElement(ElementFor(channels[i].0, channels[i].1)) + Flatten(ValuesFor(channels[i].1, order), EncodeValue))
  {
    var chs, os := channels[..i + 1], orders + [order];
    assert chs[..i] == channels[..i] && os[..i] == orders;
    assert Orders(os, chs) by {
      forall j | 0 <= j < |chs| ensures Enumerates(os[j], chs[j].1.Keys) {
        if j < i {
          assert chs[j] == channels[..i][j];
        }
      }
    }
  }

  /** What a receiver makes of an element's values: each sets its channel, later ones win. */
  function ValuesMap(vs: seq<Value>): Values
    decreases |vs|
  {
    if vs == [] then map[] else ValuesMap(vs[..|vs| - 1])[vs[|vs| - 1].channel := vs[|vs| - 1].value]
  }

  /** A diff a file can carry unchanged: channels of 16 bits, byte values, fewer than 2^16 entries. */
  predicate DiffFits(d: Values) {
    |d| < 0x1_0000 && forall k :: k in d ==> InRange(k, 2) && InRange(d[k], 1)
  }

  /** Reading back the values of a diff gives the diff, in any key order. */
  lemma {:induction false} ValuesReadBack(d: Values, order: seq<int>, keys: set<int>)
    requires Enumerates(order, keys) && keys <= d.Keys && DiffFits(d)
    requires forall k :: k in order ==> k in d
    ensures ValuesMap(ValuesFor(d, order)) == map k | k in keys :: d[k]
    decreases |order|
  {
    if order == [] {
      assert keys == {};
    } else {
      var n := |order|;
      var k0 := order[n - 1];
      var init := order[..n - 1];
      ValuesReadBack(d, init, keys - {k0});
      var vs := ValuesFor(d, order);
      assert vs[..|vs| - 1] == ValuesFor(d, init);
      assert vs[|vs| - 1] == Value(k0, d[k0]);
      assert (map k | k in keys - {k0} :: d[k])[k0 := d[k0]] == map k | k in keys :: d[k];
    }
  }

  lemma {:induction false} BlocksForAt(channels: Channels, orders: seq<seq<int>>, i: int)
    requires Orders(orders, channels) && 0 <= i < |channels|
    ensures BlocksFor(channels, orders)[i] == BlockFor(channels[i], orders[i])
    decreases |channels|
  {
    var n := |channels|;
    if i < n - 1 {
      BlocksForAt(channels[..n - 1], orders[..n - 1], i);
    }
  }

  /**
   * The written file reads back as written, and every element's values give
   * back the diff persisted for its frame, whatever order the set yielded
   * the entries in.
   */
  lemma WrittenFileReadsBack(universe: int, fps: int, channels: Channels, orders: seq<seq<int>>)
    requires fps != 0 && Orders(orders, channels) && InRange(|channels|, 4)
    requires forall i :: 0 <= i < |channels| ==> DiffFits(channels[i].1)
    ensures FileFor(universe, fps, channels, orders).Ok?
    ensures DecodeFile(EncodeFile(FileFor(universe, fps, channels, orders).value)) == FileFor(universe, fps, channels, orders)
    ensures forall i :: 0 <= i < |channels| ==>
      ValuesMap(FileFor(universe, fps, channels, orders).value.blocks[i].values) == channels[i].1
  {
    var f := FileFor(universe, fps, channels, orders).value;
    forall i | 0 <= i < |channels|
      ensures BlockWellFormed(f.blocks[i]) && ValuesMap(f.blocks[i].values) == channels[i].1
    {
      BlocksForAt(channels, orders, i);
      var d := channels[i].1;
      EnumeratesAll(orders[i], d.Keys);
      ValuesReadBack(d, orders[i], d.Keys);
      assert (map k | k in d.Keys :: d[k]) == d;
      assert Ildx.Pow256(2) == 0x1_0000;
    }
    assert Ildx.Pow256(4) == 0x1_0000_0000;
    FileRoundTrip(f);
  }
}
