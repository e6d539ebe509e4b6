/** Option and Result, used for the source's `None` values and raised exceptions. */
module Wrappers {

  datatype Option<+T> = None | Some(value: T)

  datatype Result<+T, +E> = Ok(value: T) | Err(error: E)

  /** The values of a list of results, or the first error among them. */
  function Collect<T, E>(rs: seq<Result<T, E>>): Result<seq<T>, E> {
    if |rs| == 0 then Ok([])
    else
      var prev := Collect(rs[..|rs| - 1]);
      if prev.Err? then prev
      else if rs[|rs| - 1].Err? then Err(rs[|rs| - 1].error)
      else Ok(prev.value + [rs[|rs| - 1].value])
  }

  /** Collecting succeeds exactly when every result does, with their values in order; otherwise it gives the first error. */
  lemma {:induction false} CollectSpec<T, E>(rs: seq<Result<T, E>>)
    ensures var r := Collect(rs);
      && (r.Ok? <==> forall i :: 0 <= i < |rs| ==> rs[i].Ok?)
      && (r.Ok? ==> |r.value| == |rs| && forall i :: 0 <= i < |rs| ==> rs[i] == Ok(r.value[i]))
      && (r.Err? ==> exists i :: 0 <= i < |rs| && rs[i] == Err(r.error) && forall j :: 0 <= j < i ==> rs[j].Ok?)
  {
    if |rs| > 0 {
      var front := rs[..|rs| - 1];
      CollectSpec(front);
      var prev := Collect(front);
      if prev.Err? {
        var i :| 0 <= i < |front| && front[i] == Err(prev.error) && forall j :: 0 <= j < i ==> front[j].Ok?;
        assert rs[i] == front[i];
      } else if rs[|rs| - 1].Err? {
        assert forall j :: 0 <= j < |rs| - 1 ==> rs[j] == front[j];
      } else {
        assert forall j :: 0 <= j < |rs| - 1 ==> rs[j] == front[j];
      }
    }
  }

  /** Results that are all values collect into those values. */
  lemma CollectOk<T, E>(rs: seq<Result<T, E>>, vs: seq<T>)
    requires |rs| == |vs| && forall k :: 0 <= k < |rs| ==> rs[k] == Ok(vs[k])
    ensures Collect(rs) == Ok(vs)
  {
    CollectSpec(rs);
    assert Collect(rs).value == vs;
  }

  /** One step of the collecting loop. */
  lemma CollectStep<T, E>(rs: seq<Result<T, E>>, n: nat, acc: seq<T>)
    requires n < |rs| && Collect(rs[..n]) == Ok(acc)
    ensures rs[n].Ok? ==> Collect(rs[..n + 1]) == Ok(acc + [rs[n].value])
    ensures rs[n].Err? ==> Collect(rs) == Err(rs[n].error)
  {
    assert rs[..n + 1][..n] == rs[..n];
    if rs[n].Err? {
      CollectFails(rs, n + 1);
    }
  }

  /** Once the collection of a prefix fails, so does the whole collection, with the same error. */
  lemma {:induction false} CollectFails<T, E>(rs: seq<Result<T, E>>, n: nat)
    requires n <= |rs| && Collect(rs[..n]).Err?
    ensures Collect(rs) == Collect(rs[..n])
    decreases |rs| - n
  {
    if n < |rs| {
      assert rs[..n + 1][..n] == rs[..n];
      CollectFails(rs, n + 1);
    } else {
      assert rs[..n] == rs;
    }
  }
}
