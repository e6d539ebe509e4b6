/**
 * Sequence helpers shared by the model: reversal and integer sums.
 */
module Seqs {

  /** The elements of s in the opposite order. */
  function Reverse<T>(s: seq<T>): (r: seq<T>)
    ensures |r| == |s|
    ensures forall i :: 0 <= i < |s| ==> r[i] == s[|s| - 1 - i]
  {
    seq(|s|, i requires 0 <= i < |s| => s[|s| - 1 - i])
  }

  /** The sum of a sequence of integers, last element last. */
  function Sum(s: seq<int>): int {
    if |s| == 0 then 0 else Sum(s[..|s| - 1]) + s[|s| - 1]
  }

  /** Each element negated. */
  function Negate(s: seq<int>): (r: seq<int>)
    ensures |r| == |s|
    ensures forall i :: 0 <= i < |s| ==> r[i] == -s[i]
  {
    seq(|s|, i requires 0 <= i < |s| => -s[i])
  }

  lemma {:induction false} SumAppend(a: seq<int>, b: seq<int>)
    ensures Sum(a + b) == Sum(a) + Sum(b)
    decreases |b|
  {
    if |b| > 0 {
      assert (a + b)[..|a + b| - 1] == a + b[..|b| - 1];
      SumAppend(a, b[..|b| - 1]);
    } else {
      assert a + b == a;
    }
  }

  /** Reversing does not change the sum. */
  lemma {:induction false} SumReverse(s: seq<int>)
    ensures Sum(Reverse(s)) == Sum(s)
    decreases |s|
  {
    if |s| > 0 {
      var init := s[..|s| - 1];
      assert Reverse(s) == [s[|s| - 1]] + Reverse(init);
      SumAppend([s[|s| - 1]], Reverse(init));
      SumReverse(init);
      assert Sum([s[|s| - 1]]) == Sum([]) + s[|s| - 1];
    }
  }

  /** Negating every element negates the sum. */
  lemma {:induction false} SumNegate(s: seq<int>)
    ensures Sum(Negate(s)) == -Sum(s)
    decreases |s|
  {
    if |s| > 0 {
      assert Negate(s)[..|s| - 1] == Negate(s[..|s| - 1]);
      SumNegate(s[..|s| - 1]);
    }
  }
}
