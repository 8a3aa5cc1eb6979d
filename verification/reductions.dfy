/** The two array reductions the pipeline uses, a sum and a maximum, over sequences. */
module Reductions {

  /** Sum of a sequence of naturals. */
  function Sum(s: seq<nat>): (t: nat)
    ensures forall i :: 0 <= i < |s| ==> s[i] <= t
  {
    if |s| == 0 then 0 else Sum(s[..|s| - 1]) + s[|s| - 1]
  }

  /** Largest element of a non-empty sequence of naturals. */
  function Max(s: seq<nat>): (m: nat)
    requires |s| > 0
    ensures forall i :: 0 <= i < |s| ==> s[i] <= m
    ensures exists i :: 0 <= i < |s| && s[i] == m
  {
    if |s| == 1 then s[0]
    else
      var m' := Max(s[..|s| - 1]);
      if s[|s| - 1] > m' then s[|s| - 1] else m'
  }

  /** Largest element of a non-empty sequence of reals. The same reduction as `Max`, written again because
      Dafny has no numeric type class to make one definition serve both naturals and reals. */
  function MaxReal(s: seq<real>): (m: real)
    requires |s| > 0
    ensures forall i :: 0 <= i < |s| ==> s[i] <= m
    ensures exists i :: 0 <= i < |s| && s[i] == m
  {
    if |s| == 1 then s[0]
    else
      var m' := MaxReal(s[..|s| - 1]);
      if s[|s| - 1] > m' then s[|s| - 1] else m'
  }

  /** The sum does not depend on how the sequence is split. */
  lemma {:induction false} SumAppend(a: seq<nat>, b: seq<nat>)
    ensures Sum(a + b) == Sum(a) + Sum(b)
  {
    if |b| == 0 {
      assert a + b == a;
    } else {
      assert (a + b)[..|a + b| - 1] == a + b[..|b| - 1];
      SumAppend(a, b[..|b| - 1]);
    }
  }

  /** A sequence whose elements are all at most `k` sums to at most `|s| * k`. */
  lemma {:induction false} SumBoundedBy(s: seq<nat>, k: nat)
    requires forall i :: 0 <= i < |s| ==> s[i] <= k
    ensures Sum(s) <= |s| * k
  {
    if |s| > 0 {
      SumBoundedBy(s[..|s| - 1], k);
      assert Sum(s) <= (|s| - 1) * k + k;
    }
  }

  /** Over naturals the maximum lies between the sum divided by the length and the sum. */
  lemma MaxWithinSum(s: seq<nat>)
    requires |s| > 0
    ensures Max(s) <= Sum(s) <= |s| * Max(s)
  {
    SumBoundedBy(s, Max(s));
  }
}
