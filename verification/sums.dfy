/** Finite sums of reals, accumulated left to right as the simulation's loops do. */
module Sums {

  /** s[lo] + s[lo+1] + ... + s[hi-1]. */
  function SumRange(s: seq<real>, lo: nat, hi: nat): real
    requires lo <= hi <= |s|
    decreases hi - lo
  {
    if lo == hi then 0.0 else SumRange(s, lo, hi - 1) + s[hi - 1]
  }

  /** The sum of all elements. */
  function Sum(s: seq<real>): real
  {
    SumRange(s, 0, |s|)
  }

  lemma {:induction false} SumRangeSplit(s: seq<real>, lo: nat, mid: nat, hi: nat)
    requires lo <= mid <= hi <= |s|
    ensures SumRange(s, lo, hi) == SumRange(s, lo, mid) + SumRange(s, mid, hi)
    decreases hi - mid
  {
    if mid < hi {
      SumRangeSplit(s, lo, mid, hi - 1);
    }
  }

  /** Peeling off the first element, as inverse-transform sampling does. */
  lemma {:induction false} SumRangeDropFirst(s: seq<real>, n: nat)
    requires 1 <= n <= |s|
    ensures SumRange(s, 0, n) == s[0] + SumRange(s[1..], 0, n - 1)
  {
    if n > 1 {
      SumRangeDropFirst(s, n - 1);
    }
  }

  /** Replacing one element changes the sum by the difference. */
  lemma {:induction false} SumRangeUpdate(s: seq<real>, lo: nat, hi: nat, j: nat, v: real)
    requires lo <= hi <= |s| && j < |s|
    ensures SumRange(s[j := v], lo, hi)
         == SumRange(s, lo, hi) + (if lo <= j < hi then v - s[j] else 0.0)
    decreases hi - lo
  {
    if lo < hi {
      SumRangeUpdate(s, lo, hi - 1, j, v);
    }
  }

  lemma {:induction false} SumRangeNonNegative(s: seq<real>, lo: nat, hi: nat)
    requires lo <= hi <= |s|
    requires forall i :: lo <= i < hi ==> s[i] >= 0.0
    ensures SumRange(s, lo, hi) >= 0.0
    decreases hi - lo
  {
    if lo < hi {
      SumRangeNonNegative(s, lo, hi - 1);
    }
  }

  /** With no negative element, no element exceeds the total. */
  lemma {:induction false} ElementAtMostSum(s: seq<real>, lo: nat, hi: nat, j: nat)
    requires lo <= j < hi <= |s|
    requires forall i :: lo <= i < hi ==> s[i] >= 0.0
    ensures s[j] <= SumRange(s, lo, hi)
    decreases hi - lo
  {
    if j < hi - 1 {
      ElementAtMostSum(s, lo, hi - 1, j);
      assert s[hi - 1] >= 0.0;
    } else {
      SumRangeNonNegative(s, lo, hi - 1);
    }
  }
}
