/** Histograms of event counts: MAX buckets, raised by one per trial and
    finally divided by the number of trials. */
module Histogram {
  import opened Params
  import opened Sums

  /** The freshly constructed histogram: MAX zero buckets. */
  function Zeros(): seq<real>
  {
    seq(MAX, _ => 0.0)
  }

  /** One trial: the bucket of the drawn count goes up by one; a count beyond
      the tracked range changes no tracked bucket. */
  function Bump(h: seq<real>, n: nat): seq<real>
  {
    if n < |h| then h[n := h[n] + 1.0] else h
  }

  /** The histogram after the trials with the given counts, in order. */
  function Tally(h: seq<real>, counts: seq<nat>): (r: seq<real>)
    ensures |r| == |h|
  {
    if counts == [] then h
    else Bump(Tally(h, counts[..|counts| - 1]), counts[|counts| - 1])
  }

  /** How many of the counts fall into the tracked range 0 .. n-1. */
  function Tracked(counts: seq<nat>, n: nat): nat
  {
    if counts == [] then 0
    else Tracked(counts[..|counts| - 1], n) + (if counts[|counts| - 1] < n then 1 else 0)
  }

  /** Every bucket after normalisation: divided by the number of trials. */
  function Normalize(h: seq<real>): seq<real>
  {
    seq(|h|, j requires 0 <= j < |h| => h[j] / N as real)
  }

  /** Bucket j grows by exactly the number of trials whose count is j. */
  lemma {:induction false} TallyCounts(h: seq<real>, counts: seq<nat>, j: nat)
    requires j < |h|
    ensures Tally(h, counts)[j] == h[j] + multiset(counts)[j] as real
  {
    if counts != [] {
      var front, last := counts[..|counts| - 1], counts[|counts| - 1];
      assert counts == front + [last];
      TallyCounts(h, front, j);
    }
  }

  /** The tracked buckets grow in total by the number of in-range trials, which
      is at most the number of trials, and equal to it exactly when no count
      falls outside the range. */
  lemma {:induction false} TallyTotal(h: seq<real>, counts: seq<nat>)
    ensures Sum(Tally(h, counts)) == Sum(h) + Tracked(counts, |h|) as real
    ensures Tracked(counts, |h|) <= |counts|
    ensures Tracked(counts, |h|) == |counts| <==> forall k :: 0 <= k < |counts| ==> counts[k] < |h|
  {
    if counts != [] {
      var front, last := counts[..|counts| - 1], counts[|counts| - 1];
      TallyTotal(h, front);
      var t := Tally(h, front);
      if last < |h| {
        SumRangeUpdate(t, 0, |t|, last, t[last] + 1.0);
      }
      if Tracked(counts, |h|) == |counts| {
        forall k | 0 <= k < |counts|
          ensures counts[k] < |h|
        {
          if k < |front| {
            assert counts[k] == front[k];
          }
        }
      }
    }
  }

  lemma {:induction false} NormalizeSum(h: seq<real>, hi: nat)
    requires hi <= |h|
    ensures SumRange(Normalize(h), 0, hi) == SumRange(h, 0, hi) / N as real
  {
    if hi > 0 {
      NormalizeSum(h, hi - 1);
    }
  }

  /** The empirical distribution of N trials started from zero buckets: bucket
      j holds the fraction of trials whose count is j, every bucket lies in
      [0, 1], and the buckets add up to the fraction of trials that landed in
      the tracked range, so to at most 1, and to 1 exactly when none was
      discarded. */
  lemma EmpiricalDistribution(counts: seq<nat>)
    requires |counts| == N
    ensures |Normalize(Tally(Zeros(), counts))| == MAX
    ensures forall j :: 0 <= j < MAX ==>
      Normalize(Tally(Zeros(), counts))[j] == multiset(counts)[j] as real / N as real
    ensures forall j :: 0 <= j < MAX ==> 0.0 <= Normalize(Tally(Zeros(), counts))[j] <= 1.0
    ensures Sum(Normalize(Tally(Zeros(), counts))) == Tracked(counts, MAX) as real / N as real
    ensures Sum(Normalize(Tally(Zeros(), counts))) <= 1.0
    ensures Sum(Normalize(Tally(Zeros(), counts))) == 1.0 <==> forall k :: 0 <= k < N ==> counts[k] < MAX
  {
    var h := Tally(Zeros(), counts);
    var p := Normalize(h);
    forall j | 0 <= j < MAX
      ensures p[j] == multiset(counts)[j] as real / N as real
    {
      TallyCounts(Zeros(), counts, j);
    }
    TallyTotal(Zeros(), counts);
    assert Sum(Zeros()) == 0.0 by {
      ZerosSum(MAX);
    }
    NormalizeSum(h, MAX);
    assert Sum(p) == Tracked(counts, MAX) as real / N as real;
    forall j | 0 <= j < MAX
      ensures 0.0 <= p[j] <= 1.0
    {
      ElementAtMostSum(p, 0, MAX, j);
    }
  }

  lemma {:induction false} ZerosSum(hi: nat)
    requires hi <= MAX
    ensures SumRange(Zeros(), 0, hi) == 0.0
  {
    if hi > 0 {
      ZerosSum(hi - 1);
    }
  }

  /** A fresh array of MAX zero buckets, filled one bucket at a time. */
  method ZeroBuckets() returns (a: array<real>)
    ensures fresh(a)
    ensures a[..] == Zeros()
  {
    a := new real[MAX];
    var i := 0;
    while i < MAX
      invariant 0 <= i <= MAX
      invariant forall j :: 0 <= j < i ==> a[j] == 0.0
    {
      a[i] := 0.0;
      i := i + 1;
    }
  }

  /** Divides each of the MAX tracked buckets by the number of trials, in place. */
  method NormalizeInPlace(a: array<real>)
    requires a.Length == MAX
    modifies a
    ensures a[..] == Normalize(old(a[..]))
  {
    var i := 0;
    while i < MAX
      invariant 0 <= i <= MAX
      invariant forall j :: 0 <= j < i ==> a[j] == old(a[j]) / N as real
      invariant forall j :: i <= j < a.Length ==> a[j] == old(a[j])
    {
      a[i] := a[i] / N as real;
      i := i + 1;
    }
  }
}
