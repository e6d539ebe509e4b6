/**
 * dmx/fixture.py: a DMX device occupying consecutive channel addresses from
 * its start address, built channel by channel or from a parsed fixture
 * description.
 */
module Fixtures {
  import opened Wrappers
  import opened Errors
  import opened Subchannels
  import opened Channels

  /** A subchannel entry's 'type': 'value', 'category', or any other string. */
  datatype EntryType = ValueType | CategoryType | OtherType

  /** A subchannel entry of a fixture description: its 'type' and its 'range'. */
  datatype SubchannelData = SubchannelData(kind: EntryType, range: seq<int>)

  /** A channel entry: its 'name' and its 'subchannels', which may be null. */
  datatype ChannelData = ChannelData(name: string, subchannels: Option<seq<(string, SubchannelData)>>)

  /** A fixture description: its 'name' and its list of 'channels'. */
  datatype FixtureData = FixtureData(name: string, channels: seq<ChannelData>)

  /** A channel's index and subchannels, read off the object. */
  datatype ChannelValue = ChannelValue(index: int, subchannels: map<string, Subchannel>, added: bool)

  /** Every subchannel of c is filed under its name and reports to c's index. */
  predicate Consistent(c: ChannelValue) {
    forall n :: n in c.subchannels ==> c.subchannels[n].name == n && c.subchannels[n].channel == c.index
  }

  /** The value of a channel just made by `add_channel`. */
  function NewChannel(index: int): (c: ChannelValue)
    ensures Consistent(c) && c.index == index && !c.added
  {
    ChannelValue(index, map["default" := DefaultSubchannel(index)], false)
  }

  /** What `add_*_subchannel` does to a channel's value. */
  function AddTo(c: ChannelValue, s: Subchannel): (r: ChannelValue)
    requires Consistent(c) && s.channel == c.index
    ensures Consistent(r) && r.index == c.index && r.added
    ensures s.name in r.subchannels && r.subchannels[s.name] == s
    ensures c.added ==> r.subchannels.Keys == c.subchannels.Keys + {s.name}
    ensures !c.added ==> r.subchannels.Keys == {s.name}
  {
    c.(subchannels := (if c.added then c.subchannels else map[])[s.name := s], added := true)
  }

  /** An entry that adds a subchannel: one of type 'value' or 'category'. */
  predicate Adds(e: (string, SubchannelData)) {
    !e.1.kind.OtherType?
  }

  /** An adding entry whose range does not unpack into two arguments. */
  predicate Malformed(e: (string, SubchannelData)) {
    Adds(e) && |e.1.range| != 2
  }

  /**
   * One subchannel entry: 'value' adds a continuous subchannel, 'category' a
   * category subchannel, any other type nothing. A range that is not two
   * numbers cannot be unpacked into the call's two arguments.
   */
  function ApplyEntry(c: ChannelValue, e: (string, SubchannelData)): (r: Result<ChannelValue, Error>)
    requires Consistent(c)
    ensures r.Err? <==> Malformed(e)
    ensures r.Err? ==> r.error == TypeError
    ensures r.Ok? ==> Consistent(r.value) && r.value.index == c.index
    ensures !Adds(e) ==> r == Ok(c)
  {
    if e.1.kind == ValueType then
      if |e.1.range| != 2 then Err(TypeError)
      else Ok(AddTo(c, Subchannel(e.0, e.1.range[0], e.1.range[1], c.index, Continuous)))
    else if e.1.kind == CategoryType then
      if |e.1.range| != 2 then Err(TypeError)
      else Ok(AddTo(c, Subchannel(e.0, e.1.range[0], e.1.range[1], c.index, Category)))
    else Ok(c)
  }

  /** The entries applied in order, stopping at the first malformed one. */
  function ApplyEntries(c: ChannelValue, es: seq<(string, SubchannelData)>): (r: Result<ChannelValue, Error>)
    requires Consistent(c)
    ensures r.Ok? ==> Consistent(r.value) && r.value.index == c.index
    decreases |es|
  {
    if |es| == 0 then Ok(c)
    else match ApplyEntries(c, es[..|es| - 1])
      case Err(e) => Err(e)
      case Ok(d) => ApplyEntry(d, es[|es| - 1])
  }

  /** Applying a list of entries fails exactly when one of them is malformed. */
  lemma {:induction false} ApplyEntriesFails(c: ChannelValue, es: seq<(string, SubchannelData)>)
    requires Consistent(c)
    ensures ApplyEntries(c, es).Err? <==> exists i :: 0 <= i < |es| && Malformed(es[i])
    ensures ApplyEntries(c, es).Err? ==> ApplyEntries(c, es).error == TypeError
    decreases |es|
  {
    if |es| > 0 {
      var init := es[..|es| - 1];
      ApplyEntriesFails(c, init);
      if exists i :: 0 <= i < |init| && Malformed(init[i]) {
        var i :| 0 <= i < |init| && Malformed(init[i]);
        assert es[i] == init[i];
      }
      if exists i :: 0 <= i < |es| && Malformed(es[i]) {
        var i :| 0 <= i < |es| && Malformed(es[i]);
        if i < |init| {
          assert init[i] == es[i];
        }
      }
    }
  }

  /** The names of the adding entries of a list. */
  function AddedNames(es: seq<(string, SubchannelData)>): (r: set<string>)
    ensures forall n :: n in r ==> exists i :: 0 <= i < |es| && Adds(es[i]) && es[i].0 == n
  {
    if |es| == 0 then {}
    else
      var init := es[..|es| - 1];
      var r := AddedNames(init) + (if Adds(es[|es| - 1]) then {es[|es| - 1].0} else {});
      assert forall i :: 0 <= i < |init| ==> init[i] == es[i];
      r
  }

  /**
   * While no 'value' or 'category' entry has been applied the channel keeps
   * its 'default' subchannel; after one has, it holds exactly the
   * subchannels those entries named.
   */
  lemma {:induction false} ApplyEntriesNames(c: ChannelValue, es: seq<(string, SubchannelData)>)
    requires c == NewChannel(c.index)
    requires ApplyEntries(c, es).Ok?
    ensures var d := ApplyEntries(c, es).value;
      && (d.added <==> AddedNames(es) != {})
      && (d.added ==> d.subchannels.Keys == AddedNames(es))
      && (!d.added ==> d == c)
    decreases |es|
  {
    if |es| > 0 {
      ApplyEntriesNames(c, es[..|es| - 1]);
    }
  }

  /** A channel entry with subchannels, one of which is malformed. */
  predicate SomeMalformed(data: ChannelData) {
    data.subchannels.Some? && exists j :: 0 <= j < |data.subchannels.value| && Malformed(data.subchannels.value[j])
  }

  /** The value `from_dict` gives the channel made for one entry, at the given address. */
  function ChannelFrom(index: int, data: ChannelData): (r: Result<ChannelValue, Error>)
    ensures r.Err? <==> SomeMalformed(data)
    ensures r.Err? ==> r.error == TypeError
    ensures r.Ok? ==> Consistent(r.value) && r.value.index == index
    ensures data.subchannels.None? ==> r == Ok(NewChannel(index))
  {
    if data.subchannels.None? then Ok(NewChannel(index))
    else
      ApplyEntriesFails(NewChannel(index), data.subchannels.value);
      ApplyEntries(NewChannel(index), data.subchannels.value)
  }

  /** The names of a list of channel entries, in order. */
  function Names(chs: seq<ChannelData>): (r: seq<string>)
    ensures |r| == |chs| && forall i :: 0 <= i < |chs| ==> r[i] == chs[i].name
  {
    if |chs| == 0 then [] else Names(chs[..|chs| - 1]) + [chs[|chs| - 1].name]
  }

  /**
   * The addresses `add_channel` hands out for a list of names: each call
   * files the name under the start address plus the number of names filed
   * so far.
   */
  function Registered(start: int, names: seq<string>): map<string, int>
  {
    if |names| == 0 then map[]
    else
      var m := Registered(start, names[..|names| - 1]);
      m[names[|names| - 1] := start + |m|]
  }

  /** Names without repeats: each differs from every name before it. */
  predicate Distinct(names: seq<string>) {
    |names| == 0 || (Distinct(names[..|names| - 1]) && names[|names| - 1] !in names[..|names| - 1])
  }

  /**
   * Distinct names are all filed, at the consecutive addresses start,
   * start + 1, ..., so the channel count is the number of names.
   */
  lemma {:induction false} RegisteredConsecutive(start: int, names: seq<string>)
    requires Distinct(names)
    ensures forall n :: n in Registered(start, names) <==> n in names
    ensures |Registered(start, names)| == |names|
    ensures forall i :: 0 <= i < |names| ==>
      names[i] in Registered(start, names) && Registered(start, names)[names[i]] == start + i
    decreases |names|
  {
    if |names| > 0 {
      var init := names[..|names| - 1];
      var last := names[|names| - 1];
      RegisteredConsecutive(start, init);
      var m := Registered(start, init);
      var r := Registered(start, names);
      assert r == m[last := start + |m|];
      assert last !in m by { assert Distinct(names); }
      assert |r| == |m| + 1;
      forall n
        ensures n in r <==> n in names
      {
        assert n in names <==> n in init || n == last by { assert names == init + [last]; }
      }
      forall i | 0 <= i < |names|
        ensures names[i] in r && r[names[i]] == start + i
      {
        if i < |names| - 1 {
          assert init[i] == names[i];
        }
      }
    }
  }

  /**
   * Re-adding a name keeps the channel count and gives the name a fresh
   * address, one past the count, which the next new name is then handed
   * again: with names a, b, a, c, both a and c sit at start + 2.
   */
  lemma ReAddSharesAddress(start: int, a: string, b: string, c: string)
    requires a != b && b != c && a != c
    ensures Registered(start, [a, b, a, c]) == map[a := start + 2, b := start + 1, c := start + 2]
  {
    assert [a, b, a, c][..3] == [a, b, a];
    assert [a, b, a][..2] == [a, b];
    assert [a, b][..1] == [a];
    assert [a][..0] == [];
    assert Registered(start, []) == map[];
    var m1 := Registered(start, [a]);
    assert m1 == map[a := start];
    var m2 := Registered(start, [a, b]);
    assert m2 == map[a := start, b := start + 1];
    var m3 := Registered(start, [a, b, a]);
    assert m3 == map[a := start + 2, b := start + 1];
    assert |m3| == 2 by {
      assert m3.Keys == {a, b};
    }
  }

  /**
   * The channels `from_dict` builds: each entry, in list order, gets the
   * next address and its subchannels; a later entry with the same name
   * replaces the earlier one. The first malformed entry aborts the build.
   */
  function FixtureFrom(start: int, chs: seq<ChannelData>): (r: Result<map<string, ChannelValue>, Error>)
    ensures r.Ok? ==> forall n :: n in r.value ==> Consistent(r.value[n])
    decreases |chs|
  {
    if |chs| == 0 then Ok(map[])
    else match FixtureFrom(start, chs[..|chs| - 1])
      case Err(e) => Err(e)
      case Ok(m) =>
        var last := chs[|chs| - 1];
        match ChannelFrom(start + |m|, last)
        case Err(e) => Err(e)
        case Ok(c) => Ok(m[last.name := c])
  }

  /**
   * A built fixture holds one channel per distinct name, each at the address
   * `add_channel` handed out for it.
   */
  lemma {:induction false} FixtureFromAddresses(start: int, chs: seq<ChannelData>)
    requires FixtureFrom(start, chs).Ok?
    ensures var m := FixtureFrom(start, chs).value;
      && m.Keys == Registered(start, Names(chs)).Keys
      && forall n :: n in m ==> m[n].index == Registered(start, Names(chs))[n]
    decreases |chs|
  {
    if |chs| > 0 {
      var init := chs[..|chs| - 1];
      FixtureFromAddresses(start, init);
      assert Names(chs)[..|chs| - 1] == Names(init);
    }
  }

  /** The channels after one more well-formed entry: its channel at the next address. */
  function Extended(m: map<string, ChannelValue>, start: int, ch: ChannelData): map<string, ChannelValue>
    requires !SomeMalformed(ch)
  {
    m[ch.name := ChannelFrom(start + |m|, ch).value]
  }

  /** One more entry of a description that has built so far. */
  lemma FixtureFromStep(start: int, chs: seq<ChannelData>, i: int)
    requires 0 <= i < |chs| && FixtureFrom(start, chs[..i]).Ok? && !SomeMalformed(chs[i])
    ensures FixtureFrom(start, chs[..i + 1]) == Ok(Extended(FixtureFrom(start, chs[..i]).value, start, chs[i]))
  {
    assert chs[..i + 1][..i] == chs[..i];
  }

  /** Some channel entry of the list holds a malformed subchannel entry. */
  predicate AnyMalformed(chs: seq<ChannelData>) {
    exists i :: 0 <= i < |chs| && SomeMalformed(chs[i])
  }

  lemma AnyMalformedStep(chs: seq<ChannelData>)
    requires 0 < |chs|
    ensures AnyMalformed(chs) <==> AnyMalformed(chs[..|chs| - 1]) || SomeMalformed(chs[|chs| - 1])
  {
    var init := chs[..|chs| - 1];
    if AnyMalformed(init) {
      var i :| 0 <= i < |init| && SomeMalformed(init[i]);
      assert chs[i] == init[i];
    }
    if AnyMalformed(chs) {
      var i :| 0 <= i < |chs| && SomeMalformed(chs[i]);
      if i < |init| {
        assert init[i] == chs[i];
      }
    }
  }

  /**
   * A description fails to build exactly when some channel entry holds a
   * malformed subchannel entry; the error is then TypeError.
   */
  lemma {:induction false} FixtureFromFails(start: int, chs: seq<ChannelData>)
    ensures FixtureFrom(start, chs).Err? <==> AnyMalformed(chs)
    ensures FixtureFrom(start, chs).Err? ==> FixtureFrom(start, chs).error == TypeError
    decreases |chs|
  {
    if |chs| > 0 {
      FixtureFromFails(start, chs[..|chs| - 1]);
      AnyMalformedStep(chs);
    }
  }

  /** The value of a live channel object. */
  function ValueOf(c: Channel): ChannelValue
    reads c
  {
    ChannelValue(c.index, c.subchannels, c.subchannelAdded)
  }

  class Fixture {
    const name: string
    const startAddress: int
    var channels: map<string, Channel>

    /** Every channel is filed under its own name. */
    ghost predicate Valid()
      reads this
    {
      forall n :: n in channels ==> channels[n].name == n
    }

    /** `Fixture(name, start_address)`: no channels yet. */
    constructor (name: string, startAddress: int)
      ensures Valid()
      ensures this.name == name && this.startAddress == startAddress
      ensures channels == map[]
    {
      this.name := name;
      this.startAddress := startAddress;
      channels := map[];
    }

    /** `channel_count` and `len(fixture)`. */
    function ChannelCount(): (r: nat)
      reads this
      ensures r == |channels|
    {
      |channels|
    }

    /** The channels' values, by name. */
    function Value(): (r: map<string, ChannelValue>)
      reads this, channels.Values
      ensures r.Keys == channels.Keys
    {
      map n | n in channels :: ValueOf(channels[n])
    }

    /** `fixture.name` for a channel name (`__getattr__`): the channel, or KeyError. */
    function Get(channelName: string): (r: Result<Channel, Error>)
      reads this
      ensures r.Ok? <==> channelName in channels
      ensures r.Ok? ==> r.value == channels[channelName]
      ensures r.Err? ==> r.error == KeyError
    {
      if channelName in channels then Ok(channels[channelName]) else Err(KeyError)
    }

    /**
     * `add_channel(name)`: a new channel at the start address plus the number
     * of channels already held, filed under its name (replacing any channel
     * of that name).
     */
    method AddChannel(channelName: string) returns (c: Channel)
      requires Valid()
      modifies this
      ensures Valid()
      ensures fresh(c)
      ensures c.index == startAddress + |old(channels)| && c.name == channelName
      ensures ValueOf(c) == NewChannel(c.index)
      ensures channels == old(channels)[channelName := c]
      ensures ChannelCount() == old(ChannelCount()) + (if channelName in old(channels) then 0 else 1)
    {
      c := new Channel(startAddress + |channels|, channelName);
      channels := channels[channelName := c];
    }
  }

  /** The address of every channel of a fixture, by name. */
  function AddressesOf(channels: map<string, Channel>): (r: map<string, int>)
    ensures r.Keys == channels.Keys
  {
    map n | n in channels :: channels[n].index
  }

  /**
   * `add_channel` hands out the addresses of `Registered`: if the channels
   * held so far sit where `Registered` puts the names added so far, then
   * after adding one more name they sit where it puts the longer list.
   */
  lemma AddChannelRegisters(start: int, names: seq<string>, channels: map<string, Channel>, n: string, c: Channel)
    requires AddressesOf(channels) == Registered(start, names)
    requires c.index == start + |channels|
    ensures AddressesOf(channels[n := c]) == Registered(start, names + [n])
  {
    assert (names + [n])[..|names|] == names;
    assert |AddressesOf(channels)| == |channels| by {
      assert AddressesOf(channels).Keys == channels.Keys;
    }
  }

  /** One channel entry of `from_dict`: a new channel, then its subchannel entries. */
  method AddDescribed(fixture: Fixture, data: ChannelData) returns (r: Result<(), Error>)
    requires fixture.Valid()
    modifies fixture
    ensures fixture.Valid()
    ensures r.Err? <==> SomeMalformed(data)
    ensures r.Ok? ==> fixture.Value() == Extended(old(fixture.Value()), fixture.startAddress, data)
  {
    var before := fixture.Value();
    assert |before| == |fixture.channels| by {
      assert before.Keys == fixture.channels.Keys;
    }
    var channel := fixture.AddChannel(data.name);
    r := AddSubchannels(channel, data.subchannels);
    if r.Ok? {
      var after := before[data.name := ValueOf(channel)];
      forall n | n in fixture.channels
        ensures fixture.Value()[n] == after[n]
      {
        if n != data.name {
          var o := old(fixture.channels)[n];
          assert fixture.channels[n] == o && o != channel;
          assert ValueOf(o) == old(ValueOf(o));
        }
      }
      assert fixture.Value().Keys == after.Keys;
    }
  }

  /**
   * `Fixture.from_dict(data, start_address, name)`: a fixture named `name`,
   * or the description's own name when none is given, with the described
   * channels added in order.
   */
  method FromDict(data: FixtureData, startAddress: int, name: Option<string>) returns (r: Result<Fixture, Error>)
    ensures r.Err? <==> FixtureFrom(startAddress, data.channels).Err?
    ensures r.Err? ==> r.error == TypeError
    ensures r.Ok? ==> fresh(r.value) && r.value.Valid()
    ensures r.Ok? ==> r.value.name == (if name.Some? then name.value else data.name)
    ensures r.Ok? ==> r.value.startAddress == startAddress
    ensures r.Ok? ==> r.value.Value() == FixtureFrom(startAddress, data.channels).value
  {
    var fixtureName := if name.None? then data.name else name.value;
    var fixture := new Fixture(fixtureName, startAddress);
    var chs := data.channels;
    for i := 0 to |chs|
      invariant fixture.name == fixtureName && fixture.startAddress == startAddress
      invariant fixture.Valid()
      invariant FixtureFrom(startAddress, chs[..i]).Ok?
      invariant fixture.Value() == FixtureFrom(startAddress, chs[..i]).value
    {
      var done := AddDescribed(fixture, chs[i]);
      if done.Err? {
        assert SomeMalformed(chs[i]);
        FixtureFromFails(startAddress, chs);
        return Err(TypeError);
      }
      FixtureFromStep(startAddress, chs, i);
    }
    assert chs[..|chs|] == chs;
    r := Ok(fixture);
  }

  /** The inner loop of `from_dict`: one channel's subchannel entries, in order. */
  method AddSubchannels(channel: Channel, subchannels: Option<seq<(string, SubchannelData)>>) returns (r: Result<(), Error>)
    requires ValueOf(channel) == NewChannel(channel.index)
    modifies channel
    ensures r.Err? <==> SomeMalformed(ChannelData(channel.name, subchannels))
    ensures r.Ok? ==> ValueOf(channel) == ChannelFrom(channel.index, ChannelData(channel.name, subchannels)).value
  {
    if subchannels.None? {
      return Ok(());
    }
    var es := subchannels.value;
    for j := 0 to |es|
      invariant channel.Valid()
      invariant ApplyEntries(NewChannel(channel.index), es[..j]) == Ok(ValueOf(channel))
      invariant forall k :: 0 <= k < j ==> !Malformed(es[k])
    {
      assert es[..j + 1][..j] == es[..j];
      var e := es[j];
      if Malformed(e) {
        return Err(TypeError);
      }
      if e.1.kind == ValueType {
        var _ := channel.AddContinuousSubchannel(e.0, e.1.range[0], e.1.range[1]);
      } else if e.1.kind == CategoryType {
        var _ := channel.AddCategorySubchannel(e.0, e.1.range[0], e.1.range[1]);
      }
    }
    assert es[..|es|] == es;
    r := Ok(());
  }
}
