/** The three flows: a simulated single Poisson flow, a simulated merge of two
    independent flows, and the theoretical flow whose buckets are the Poisson
    masses themselves. Each owns an array of MAX buckets. The mass law is a
    parameter `mass`: mass(rate, i) is the probability of i events in one
    window for a flow of that rate. The samplers walk a table `masses` whose
    entries are mass(rate, 0), mass(rate, 1), ... for the flow's own rate. */
module Flows {
  import opened Params
  import opened Sums
  import opened Sampler
  import opened Histogram

  /** The masses of 0, 1, ..., n-1 events at the given rate. */
  function MassTable(mass: (real, nat) -> real, rate: real, n: nat): seq<real>
  {
    seq(n, m requires 0 <= m => mass(rate, m))
  }

  /** The merged flow's count for each trial: the sum of the two flows' counts. */
  function MergedDraws(masses1: seq<real>, masses2: seq<real>, us1: seq<real>, us2: seq<real>): (ns: seq<nat>)
    requires |us1| == |us2|
    requires forall k :: 0 <= k < |us1| ==> 0.0 <= us1[k] < Sum(masses1)
    requires forall k :: 0 <= k < |us2| ==> 0.0 <= us2[k] < Sum(masses2)
  {
    seq(|us1|, k requires 0 <= k < |us1| => Draw(masses1, us1[k]) + Draw(masses2, us2[k]))
  }

  class RandomFlow {
    const rate: real
    const events: array<real>

    constructor (rate: real)
      ensures this.rate == rate
      ensures fresh(events) && events[..] == Zeros() && events.Length == 64
    {
      this.rate := rate;
      var buckets := ZeroBuckets();
      events := buckets;
    }

    /** Runs N trials, one per uniform draw in `draws`, raising the bucket of
        each sampled count, then normalises every bucket by N. */
    method Start(mass: (real, nat) -> real, masses: seq<real>, draws: seq<real>)
      requires forall i :: 0 <= i < |masses| ==> masses[i] == mass(rate, i)
      requires events.Length == MAX
      requires |draws| == N
      requires forall k :: 0 <= k < |draws| ==> 0.0 <= draws[k] < Sum(masses)
      modifies events
      ensures events[..] == Normalize(Tally(old(events[..]), Draws(masses, draws)))
    {
      ghost var counts := Draws(masses, draws);
      var i := 0;
      while i < N
        invariant 0 <= i <= N
        invariant events[..] == Tally(old(events[..]), counts[..i])
      {
        var n := NumberOfEvents(masses, draws[i]);
        assert counts[..i + 1][..i] == counts[..i];
        if n < events.Length {
          events[n] := events[n] + 1.0;
        }
        i := i + 1;
      }
      assert counts[..N] == counts;
      NormalizeInPlace(events);
    }
  }

  class DoubleRandomFlow {
    const rate1: real
    const rate2: real
    const events: array<real>

    constructor (rate1: real, rate2: real)
      ensures this.rate1 == rate1 && this.rate2 == rate2
      ensures fresh(events) && events[..] == Zeros() && events.Length == 64
    {
      this.rate1 := rate1;
      this.rate2 := rate2;
      var buckets := ZeroBuckets();
      events := buckets;
    }

    /** Runs N trials; trial k samples one count from each flow, from the
        draws draws1[k] and draws2[k], and raises the bucket of their sum;
        then normalises every bucket by N. */
    method Start(mass: (real, nat) -> real, masses1: seq<real>, masses2: seq<real>,
                 draws1: seq<real>, draws2: seq<real>)
      requires forall i :: 0 <= i < |masses1| ==> masses1[i] == mass(rate1, i)
      requires forall i :: 0 <= i < |masses2| ==> masses2[i] == mass(rate2, i)
      requires events.Length == MAX
      requires |draws1| == N && |draws2| == N
      requires forall k :: 0 <= k < |draws1| ==> 0.0 <= draws1[k] < Sum(masses1)
      requires forall k :: 0 <= k < |draws2| ==> 0.0 <= draws2[k] < Sum(masses2)
      modifies events
      ensures events[..] == Normalize(Tally(old(events[..]), MergedDraws(masses1, masses2, draws1, draws2)))
    {
      ghost var counts := MergedDraws(masses1, masses2, draws1, draws2);
      var i := 0;
      while i < N
        invariant 0 <= i <= N
        invariant events[..] == Tally(old(events[..]), counts[..i])
      {
        var n1 := NumberOfEvents(masses1, draws1[i]);
        var n2 := NumberOfEvents(masses2, draws2[i]);
        assert counts[..i + 1][..i] == counts[..i];
        if n1 + n2 < events.Length {
          events[n1 + n2] := events[n1 + n2] + 1.0;
        }
        i := i + 1;
      }
      assert counts[..N] == counts;
      NormalizeInPlace(events);
    }
  }

  class RealPoissonFlow {
    const rate: real
    const events: array<real>

    constructor (rate: real)
      ensures this.rate == rate
      ensures fresh(events) && events[..] == Zeros() && events.Length == 64
    {
      this.rate := rate;
      var buckets := ZeroBuckets();
      events := buckets;
    }

    /** Sets bucket m to the mass of m events at the flow's rate, for every
        tracked m. */
    method Start(mass: (real, nat) -> real)
      requires events.Length == MAX
      modifies events
      ensures events[..] == MassTable(mass, rate, MAX)
    {
      var m := 0;
      while m < MAX
        invariant 0 <= m <= MAX
        invariant forall j :: 0 <= j < m ==> events[j] == mass(rate, j)
      {
        events[m] := mass(rate, m);
        m := m + 1;
      }
    }
  }
}
