/**
 * util.py: `np_cache`, a memo table around a function of numpy arrays and
 * other hashable values. The table (`wrapper.cache`) is a dictionary from
 * a key built out of the arguments to the result of the first call that
 * produced that key.
 */
module Memos {
  import opened Arrays

  /** An argument: a numpy array, or any other hashable value of type A. */
  datatype Arg<A> = Plain(v: A) | Array(a: NdArray)

  /** One component of a key: the value itself, or the tuple of an array's elements. */
  datatype KeyItem<A> = Item(v: A) | Elements(xs: seq<real>)

  type Key<A> = seq<KeyItem<A>>

  /** A call: the positional arguments, then the keyword arguments as (name, value) pairs in order. */
  datatype Call<A> = Call(args: seq<Arg<A>>, kwargs: seq<(string, Arg<A>)>)

  /** `np_as_key(a) if isinstance(a, np.ndarray) else a`. */
  function AsKey<A>(a: Arg<A>): (k: KeyItem<A>)
    ensures a.Plain? ==> k == Item(a.v)
    ensures a.Array? ==> k == Elements(a.a.flat)
  {
    match a
    case Plain(v) => Item(v)
    case Array(x) => Elements(x.flat)
  }

  /** The keys of a sequence of arguments, one for each. */
  function AsKeys<A>(args: seq<Arg<A>>): (k: Key<A>)
    ensures |k| == |args| && forall i :: 0 <= i < |args| ==> k[i] == AsKey(args[i])
  {
    if args == [] then [] else AsKeys(args[..|args| - 1]) + [AsKey(args[|args| - 1])]
  }

  /** `kwargs.values()`: the keyword names play no part. */
  function Values<A>(kwargs: seq<(string, Arg<A>)>): (vs: seq<Arg<A>>)
    ensures |vs| == |kwargs| && forall i :: 0 <= i < |kwargs| ==> vs[i] == kwargs[i].1
  {
    if kwargs == [] then [] else Values(kwargs[..|kwargs| - 1]) + [kwargs[|kwargs| - 1].1]
  }

  /** The key of a call: the positional keys followed by the keyword values' keys. */
  function KeyOf<A>(c: Call<A>): Key<A> {
    AsKeys(c.args) + AsKeys(Values(c.kwargs))
  }

  /**
   * An array contributes only its elements: the same elements under any
   * other shape give the same key.
   */
  lemma ShapeIsForgotten<A>(c: Call<A>, i: nat, shape: seq<nat>)
    requires i < |c.args| && c.args[i].Array?
    ensures var d := Call(c.args[i := Array(NdArray(shape, c.args[i].a.flat))], c.kwargs);
      KeyOf(d) == KeyOf(c)
  {
    var d := Call(c.args[i := Array(NdArray(shape, c.args[i].a.flat))], c.kwargs);
    assert AsKeys(d.args) == AsKeys(c.args);
  }

  /** Keyword names are dropped: renaming a keyword argument keeps the key. */
  lemma KeywordNamesAreForgotten<A>(c: Call<A>, i: nat, name: string)
    requires i < |c.kwargs|
    ensures KeyOf(Call(c.args, c.kwargs[i := (name, c.kwargs[i].1)])) == KeyOf(c)
  {
    var kw := c.kwargs[i := (name, c.kwargs[i].1)];
    assert Values(kw) == Values(c.kwargs);
  }

  /** A value passed by keyword has the key it has when passed as the next positional argument. */
  lemma KeywordMatchesPositional<A>(args: seq<Arg<A>>, name: string, v: Arg<A>)
    ensures KeyOf(Call(args, [(name, v)])) == KeyOf(Call(args + [v], []))
  {
    assert Values([(name, v)]) == [v];
    assert AsKeys(args + [v]) == AsKeys(args) + [AsKey(v)];
  }

  /** Calls with plain positional arguments only have equal keys exactly when they are the same call. */
  lemma PlainCallsKeyedApart<A>(c: Call<A>, d: Call<A>)
    requires c.kwargs == [] && d.kwargs == []
    requires forall i :: 0 <= i < |c.args| ==> c.args[i].Plain?
    requires forall i :: 0 <= i < |d.args| ==> d.args[i].Plain?
    ensures KeyOf(c) == KeyOf(d) <==> c == d
  {
    if KeyOf(c) == KeyOf(d) {
      assert Values(c.kwargs) == [] && Values(d.kwargs) == [];
      assert AsKeys(c.args) == KeyOf(c) && AsKeys(d.args) == KeyOf(d);
      assert |c.args| == |d.args|;
      forall i | 0 <= i < |c.args|
        ensures c.args[i] == d.args[i]
      {
        assert AsKeys(c.args)[i] == AsKeys(d.args)[i];
      }
    }
  }

  /** A function whose answer depends on its key alone: it reads no shape and no keyword name. */
  ghost predicate KeyDetermined<A(!new), R>(func: Call<A> -> R) {
    forall c: Call<A>, d: Call<A> :: KeyOf(c) == KeyOf(d) ==> func(c) == func(d)
  }

  /**
   * The table's invariant: every entry holds func's answer to a call with
   * that key, and func has been called exactly once for each key in it.
   */
  ghost predicate Table<A, R>(func: Call<A> -> R, cache: map<Key<A>, R>, origin: map<Key<A>, Call<A>>, calls: seq<Call<A>>) {
    && origin.Keys == cache.Keys
    && (forall k | k in cache :: origin[k] in calls)
    && (forall k | k in cache :: KeyOf(origin[k]) == k && cache[k] == func(origin[k]))
    && (forall i | 0 <= i < |calls| :: KeyOf(calls[i]) in cache)
    && (forall i, j | 0 <= i < j < |calls| :: KeyOf(calls[i]) != KeyOf(calls[j]))
  }

  /** Storing func's answer to a call whose key is new keeps the invariant. */
  lemma StoreKeepsTable<A, R>(func: Call<A> -> R, cache: map<Key<A>, R>, origin: map<Key<A>, Call<A>>, calls: seq<Call<A>>, c: Call<A>)
    requires Table(func, cache, origin, calls) && KeyOf(c) !in cache
    ensures Table(func, cache[KeyOf(c) := func(c)], origin[KeyOf(c) := c], calls + [c])
  {
    var key := KeyOf(c);
    var cache', calls' := cache[key := func(c)], calls + [c];
    forall i, j | 0 <= i < j < |calls'|
      ensures KeyOf(calls'[i]) != KeyOf(calls'[j])
    {
      if j == |calls| {
        assert KeyOf(calls[i]) in cache;
      } else {
        assert calls'[i] == calls[i] && calls'[j] == calls[j];
      }
    }
    forall i | 0 <= i < |calls'|
      ensures KeyOf(calls'[i]) in cache'
    {
      if i < |calls| {
        assert calls'[i] == calls[i];
      }
    }
  }

  /** A stored entry answers what func answers, when func depends on the key alone. */
  lemma StoredAnswer<A(!new), R>(func: Call<A> -> R, cache: map<Key<A>, R>, origin: map<Key<A>, Call<A>>, calls: seq<Call<A>>, c: Call<A>)
    requires Table(func, cache, origin, calls) && KeyOf(c) in cache && KeyDetermined(func)
    ensures cache[KeyOf(c)] == func(c)
  {
    assert KeyOf(origin[KeyOf(c)]) == KeyOf(c);
  }

  /** The wrapper `np_cache(func)` returns, with its `cache` attribute. */
  class Memo<A(==, !new), R> {
    const func: Call<A> -> R
    var cache: map<Key<A>, R>
    /** The call whose result each entry holds. */
    ghost var origin: map<Key<A>, Call<A>>
    /** The calls that reached func, in order. */
    ghost var calls: seq<Call<A>>

    ghost predicate Valid()
      reads this
    {
      Table(func, cache, origin, calls)
    }

    /** `np_cache(func)`: an empty table. */
    constructor (func: Call<A> -> R)
      ensures Valid()
      ensures this.func == func && cache == map[] && calls == []
    {
      this.func := func;
      cache := map[];
      origin := map[];
      calls := [];
    }

    /**
     * `wrapper(*args, **kwargs)`: a key already in the table answers its
     * stored result and func is not called; otherwise func is called once,
     * its result stored under the key and returned. Entries are never
     * overwritten or removed.
     */
    method Call(c: Call<A>) returns (r: R)
      requires Valid()
      modifies this
      ensures Valid()
      ensures KeyOf(c) in old(cache) ==> r == old(cache)[KeyOf(c)] && cache == old(cache) && calls == old(calls)
      ensures KeyOf(c) !in old(cache) ==> r == func(c) && cache == old(cache)[KeyOf(c) := r] && calls == old(calls) + [c]
      ensures KeyOf(c) in cache && cache[KeyOf(c)] == r
      ensures forall k | k in old(cache) :: k in cache && cache[k] == old(cache)[k]
      ensures KeyDetermined(func) ==> r == func(c)
    {
      var key := KeyOf(c);
      if key in cache {
        r := cache[key];
        if KeyDetermined(func) {
          StoredAnswer(func, cache, origin, calls, c);
        }
        return;
      }
      r := func(c);
      StoreKeepsTable(func, cache, origin, calls, c);
      cache := cache[key := r];
      origin := origin[key := c];
      calls := calls + [c];
    }
  }
}
