/** Inverse-transform sampling of an event count: walk the probability
    masses, accumulating them, and stop at the first index whose running
    total exceeds the uniform draw. */
module Sampler {
  import opened Sums

  /** Reference definition: the draw lands in the first mass if it lies below
      it; otherwise that mass is subtracted and the search goes on among the
      remaining masses. */
  function Draw(masses: seq<real>, u: real): (i: nat)
    requires 0.0 <= u < Sum(masses)
    ensures i < |masses|
    decreases |masses|
  {
    SumRangeDropFirst(masses, |masses|);
    if u < masses[0] then 0 else 1 + Draw(masses[1..], u - masses[0])
  }

  /** Draw returns the least index i whose prefix sum of masses 0..i exceeds u:
      every shorter prefix stays at or below u. */
  lemma {:induction false} DrawIsLeast(masses: seq<real>, u: real)
    requires 0.0 <= u < Sum(masses)
    ensures u < SumRange(masses, 0, Draw(masses, u) + 1)
    ensures forall j :: 1 <= j <= Draw(masses, u) ==> SumRange(masses, 0, j) <= u
    decreases |masses|
  {
    SumRangeDropFirst(masses, |masses|);
    if u < masses[0] {
      SumRangeDropFirst(masses, 1);
    } else {
      var rest := masses[1..];
      var u' := u - masses[0];
      DrawIsLeast(rest, u');
      var i' := Draw(rest, u');
      assert Draw(masses, u) == i' + 1;
      SumRangeDropFirst(masses, i' + 2);
      forall j | 1 <= j <= i' + 1
        ensures SumRange(masses, 0, j) <= u
      {
        SumRangeDropFirst(masses, j);
      }
    }
  }

  /** Only one index is the least one whose prefix sum exceeds u. */
  lemma LeastIndexIsDraw(masses: seq<real>, u: real, i: nat)
    requires 0.0 <= u < Sum(masses)
    requires i < |masses| && u < SumRange(masses, 0, i + 1)
    requires forall j :: 1 <= j <= i ==> SumRange(masses, 0, j) <= u
    ensures i == Draw(masses, u)
  {
    DrawIsLeast(masses, u);
  }

  /** One sampled event count per uniform draw, in trial order. */
  function Draws(masses: seq<real>, us: seq<real>): (ns: seq<nat>)
    requires forall k :: 0 <= k < |us| ==> 0.0 <= us[k] < Sum(masses)
  {
    seq(|us|, k requires 0 <= k < |us| => Draw(masses, us[k]))
  }

  /** The sampling loop: u stands for the uniform draw in [0, 1) and masses
      for the Poisson masses of the flow's rate; the caller guarantees that
      the masses add up to more than u, so the loop stops inside the table. */
  method NumberOfEvents(masses: seq<real>, u: real) returns (i: nat)
    requires 0.0 <= u < Sum(masses)
    ensures i < |masses|
    ensures u < SumRange(masses, 0, i + 1)
    ensures SumRange(masses, 0, i) <= u
    ensures i == Draw(masses, u)
  {
    i := 0;
    var acc := 0.0;
    while true
      invariant i < |masses|
      invariant acc == SumRange(masses, 0, i)
      invariant forall j :: 1 <= j <= i ==> SumRange(masses, 0, j) <= u
      decreases |masses| - i
    {
      acc := acc + masses[i];
      if u < acc {
        LeastIndexIsDraw(masses, u, i);
        return i;
      }
      i := i + 1;
    }
  }
}
