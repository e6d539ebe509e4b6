/**
 * dmx/channel.py: one DMX channel of a fixture, addressed by its index. It
 * starts with a single full-range subchannel, 'default'; the first
 * subchannel added explicitly replaces that default.
 */
module Channels {
  import opened Wrappers
  import opened Errors
  import opened Numeric
  import opened Subchannels

  /** The subchannel every new channel starts with. */
  function DefaultSubchannel(index: int): (s: Subchannel)
    ensures s.name == "default" && s.channel == index && s.kind == Continuous
    ensures s.minValue == 0 && s.maxValue == 255
  {
    Subchannel("default", 0, 255, index, Continuous)
  }

  class Channel {
    const index: int
    const name: string
    var subchannels: map<string, Subchannel>
    var subchannelAdded: bool

    /** Every subchannel is filed under its own name and reports to this channel. */
    ghost predicate Valid()
      reads this
    {
      forall n :: n in subchannels ==> subchannels[n].name == n && subchannels[n].channel == index
    }

    /** `Channel(index, name)`: only the 'default' subchannel, covering 0..255. */
    constructor (index: int, name: string)
      ensures Valid()
      ensures this.index == index && this.name == name
      ensures subchannels == map["default" := DefaultSubchannel(index)]
      ensures !subchannelAdded
    {
      this.index := index;
      this.name := name;
      subchannels := map["default" := DefaultSubchannel(index)];
      subchannelAdded := false;
    }

    /**
     * Files a new subchannel under its name; the first one added discards
     * whatever the channel held before, later ones accumulate.
     */
    method Register(s: Subchannel)
      requires Valid() && s.channel == index
      modifies this
      ensures Valid()
      ensures subchannelAdded
      ensures subchannels == (if old(subchannelAdded) then old(subchannels) else map[])[s.name := s]
    {
      if !subchannelAdded {
        subchannelAdded := true;
        subchannels := map[];
      }
      subchannels := subchannels[s.name := s];
    }

    /** `add_continous_subchannel(name, min_value, max_value)`. */
    method AddContinuousSubchannel(name: string, minValue: int, maxValue: int) returns (s: Subchannel)
      requires Valid()
      modifies this
      ensures Valid()
      ensures s == Subchannel(name, minValue, maxValue, index, Continuous)
      ensures subchannelAdded
      ensures subchannels == (if old(subchannelAdded) then old(subchannels) else map[])[name := s]
    {
      s := Subchannel(name, minValue, maxValue, index, Continuous);
      Register(s);
    }

    /** `add_category_subchannel(name, min_value, max_value)`. */
    method AddCategorySubchannel(name: string, minValue: int, maxValue: int) returns (s: Subchannel)
      requires Valid()
      modifies this
      ensures Valid()
      ensures s == Subchannel(name, minValue, maxValue, index, Category)
      ensures subchannelAdded
      ensures subchannels == (if old(subchannelAdded) then old(subchannels) else map[])[name := s]
    {
      s := Subchannel(name, minValue, maxValue, index, Category);
      Register(s);
    }

    /** `channel[name]` and `channel.name`: the subchannel, or KeyError. */
    function Get(name: string): (r: Result<Subchannel, Error>)
      requires Valid()
      reads this
      ensures r.Ok? <==> name in subchannels
      ensures r.Ok? ==> r.value.name == name && r.value.channel == index && r.value == subchannels[name]
      ensures r.Err? ==> r.error == KeyError
    {
      if name in subchannels then Ok(subchannels[name]) else Err(KeyError)
    }

    /**
     * The `value` property reads `self._value`, which no code ever assigns;
     * the failed lookup falls through to `__getattr__`, which looks for a
     * subchannel named '_value'.
     */
    function Value(): (r: Result<Subchannel, Error>)
      requires Valid()
      reads this
      ensures r.Ok? <==> "_value" in subchannels
      ensures r.Err? ==> r.error == KeyError
    {
      Get("_value")
    }

    /** `set_value(value)` and `channel << value`: (index, int(value * 255)), not clamped. */
    function SetValue(v: real): (r: (int, int))
      ensures r.0 == index
      ensures 0.0 <= v ==> 0 <= r.1 && r.1 as real <= v * 255.0 < r.1 as real + 1.0
      ensures v < 0.0 ==> r.1 <= 0 && r.1 as real - 1.0 < v * 255.0
    {
      (index, Trunc(v * 255.0))
    }

    /** `zero()`. */
    function Zero(): (r: (int, int))
      ensures r == (index, 0) && r == SetValue(0.0)
    {
      (index, 0)
    }

    /** `max()`. */
    function Max(): (r: (int, int))
      ensures r == (index, 255) && r == SetValue(1.0)
    {
      (index, 0xff)
    }
  }

  /**
   * On levels in [0, 1] a channel's own `set_value` agrees with its default
   * subchannel's; above 1 the channel's is not clamped and leaves the byte
   * range (a level of 2 gives 510), while the subchannel's stays at 255.
   */
  lemma ChannelAgreesWithDefault(c: Channel, v: real)
    ensures 0.0 <= v <= 1.0 ==> c.SetValue(v) == SetValue(DefaultSubchannel(c.index), v)
    ensures v == 2.0 ==> c.SetValue(v).1 == 510 && SetValue(DefaultSubchannel(c.index), v).1 == 255
  {
    var s := DefaultSubchannel(c.index);
    if 0.0 <= v <= 1.0 {
      assert Clamp01(v) == v;
      assert s.minValue as real + Clamp01(v) * (s.maxValue - s.minValue) as real == v * 255.0;
    }
  }
}
