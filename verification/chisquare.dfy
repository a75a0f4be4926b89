/** The chi-square goodness-of-fit test of the merged empirical flow against
    the theoretical flow. Buckets are accumulated into groups; a group is
    closed just before bucket i is added whenever i % (K+1) == K, and the
    last, open group is closed after the loop. With K = 8 and MAX = 64 the
    groups are 0..7, 8..16, 17..25, ..., 53..61 and 62..63. */
module ChiSquare {
  import opened Params
  import opened Sums

  /** Degrees of freedom used for the verdict. */
  const K: nat := 8

  /** Upper critical values of the chi-square distribution at the 0.05 level,
      by degrees of freedom. */
  const CriticalValues: map<int, real> := map[
    1 := 3.841, 2 := 5.991, 3 := 7.815, 4 := 9.488, 5 := 11.070,
    6 := 12.592, 7 := 14.067, 8 := 15.507, 9 := 16.919, 10 := 18.301,
    11 := 19.657, 12 := 21.026, 13 := 22.362, 14 := 23.658, 15 := 24.996,
    16 := 26.269, 17 := 27.587, 18 := 28.869, 19 := 30.144, 20 := 31.410]

  /** The verdict: the statistic lies below the critical value for k degrees
      of freedom; a k outside the table never accepts. */
  predicate Verdict(chi: real, k: int)
  {
    k in CriticalValues && chi < CriticalValues[k]
  }

  /** The group that bucket i is added to. */
  function GroupOf(i: nat): nat
  {
    (i + 1) / (K + 1)
  }

  /** Number of groups the loop closes over the MAX buckets. */
  function GroupCount(): nat
  {
    GroupOf(MAX - 1) + 1
  }

  /** First bucket of group g. */
  function GroupLo(g: nat): nat
  {
    if g == 0 then 0 else g * (K + 1) - 1
  }

  /** One past the last bucket of group g. */
  function GroupHi(g: nat): nat
  {
    if g + 1 >= GroupCount() then MAX else (g + 1) * (K + 1) - 1
  }

  /** The groups tile 0 .. MAX-1 without gap or overlap, in order, none empty:
      the first has K buckets, the middle ones K+1, the last what remains. */
  lemma GroupLayout()
    ensures GroupCount() == 8
    ensures GroupLo(0) == 0 && GroupHi(0) == K
    ensures GroupHi(GroupCount() - 1) == MAX
    ensures forall g :: 0 < g < GroupCount() ==> GroupLo(g) == GroupHi(g - 1)
    ensures forall g :: 0 < g < GroupCount() - 1 ==> GroupHi(g) - GroupLo(g) == K + 1
    ensures GroupLo(GroupCount() - 1) == 62
  {
  }

  /** Every tracked bucket belongs to exactly one group: group g holds bucket
      i precisely when GroupOf(i) is g. */
  lemma GroupMembership(i: nat, g: nat)
    requires i < MAX && g < GroupCount()
    ensures GroupOf(i) < GroupCount()
    ensures GroupLo(g) <= i < GroupHi(g) <==> g == GroupOf(i)
  {
  }

  /** Sum of the buckets of group g. */
  function GroupSum(h: seq<real>, g: nat): real
    requires |h| == MAX && g < GroupCount()
  {
    SumRange(h, GroupLo(g), GroupHi(g))
  }

  /** The theoretical histogram gives every group positive mass. */
  predicate PositiveGroups(t: seq<real>)
    requires |t| == MAX
  {
    forall g :: 0 <= g < GroupCount() ==> GroupSum(t, g) > 0.0
  }

  /** One group's contribution: (observed - expected)^2 / expected, with both
      scaled from probabilities to counts of N trials. */
  function Term(acc: real, accReal: real): real
    requires accReal > 0.0
  {
    var d := (acc - accReal) * N as real;
    d * d / (accReal * N as real)
  }

  /** The statistic over the first g groups. */
  function ChiUpTo(e: seq<real>, t: seq<real>, g: nat): real
    requires |e| == MAX && |t| == MAX && PositiveGroups(t) && g <= GroupCount()
  {
    if g == 0 then 0.0 else ChiUpTo(e, t, g - 1) + Term(GroupSum(e, g - 1), GroupSum(t, g - 1))
  }

  /** The chi-square statistic over all groups. */
  function Statistic(e: seq<real>, t: seq<real>): real
    requires |e| == MAX && |t| == MAX && PositiveGroups(t)
  {
    ChiUpTo(e, t, GroupCount())
  }

  lemma {:induction false} ChiUpToNonNegative(e: seq<real>, t: seq<real>, g: nat)
    requires |e| == MAX && |t| == MAX && PositiveGroups(t) && g <= GroupCount()
    ensures ChiUpTo(e, t, g) >= 0.0
  {
    if g > 0 {
      ChiUpToNonNegative(e, t, g - 1);
      var b := GroupSum(t, g - 1);
      var d := (GroupSum(e, g - 1) - b) * N as real;
      assert d * d >= 0.0;
      assert b * N as real > 0.0;
    }
  }

  /** Matching histograms give a zero statistic, which is accepted. */
  lemma {:induction false} StatisticOfMatch(t: seq<real>, g: nat)
    requires |t| == MAX && PositiveGroups(t) && g <= GroupCount()
    ensures ChiUpTo(t, t, g) == 0.0
    ensures Verdict(ChiUpTo(t, t, g), K)
  {
    if g > 0 {
      StatisticOfMatch(t, g - 1);
    }
  }

  /** Grouping loses no mass: the groups' sums add up to the whole histogram. */
  function SumOfGroups(h: seq<real>, g: nat): real
    requires |h| == MAX && g <= GroupCount()
  {
    if g == 0 then 0.0 else SumOfGroups(h, g - 1) + GroupSum(h, g - 1)
  }

  lemma {:induction false} GroupingKeepsMass(h: seq<real>, g: nat)
    requires |h| == MAX && g <= GroupCount()
    ensures SumOfGroups(h, g) == SumRange(h, 0, if g == 0 then 0 else GroupHi(g - 1))
  {
    GroupLayout();
    if g > 1 {
      GroupingKeepsMass(h, g - 1);
      SumRangeSplit(h, 0, GroupLo(g - 1), GroupHi(g - 1));
    }
  }

  lemma GroupsCoverHistogram(h: seq<real>)
    requires |h| == MAX
    ensures SumOfGroups(h, GroupCount()) == Sum(h)
  {
    GroupLayout();
    GroupingKeepsMass(h, GroupCount());
  }

  /** How bucket i relates to the group open when the loop reaches it. */
  lemma GroupStep(i: nat)
    requires 0 < i < MAX
    ensures i % (K + 1) == K ==>
      GroupOf(i) == GroupOf(i - 1) + 1 && GroupHi(GroupOf(i - 1)) == i && GroupLo(GroupOf(i)) == i
    ensures i % (K + 1) != K ==> GroupOf(i) == GroupOf(i - 1)
  {
  }

  /** The grouping loop and the verdict: `empirical` is the merged flow's
      normalised histogram and `theoretical` the Poisson masses. */
  method ChiSquareTest(empirical: seq<real>, theoretical: seq<real>) returns (chi: real, accepted: bool)
    requires |empirical| == MAX && |theoretical| == MAX
    requires PositiveGroups(theoretical)
    ensures chi == Statistic(empirical, theoretical)
    ensures chi >= 0.0
    ensures accepted == Verdict(chi, K)
    ensures accepted <==> chi < 15.507
  {
    var k := K;
    chi := 0.0;
    accepted := false;
    var accReal := 0.0;
    var acc := 0.0;
    var i := 0;
    ghost var g := 0;
    while i < MAX
      invariant 0 <= i <= MAX
      invariant g == if i == 0 then 0 else GroupOf(i - 1)
      invariant g < GroupCount() && GroupLo(g) <= i <= GroupHi(g)
      invariant acc == SumRange(empirical, GroupLo(g), i)
      invariant accReal == SumRange(theoretical, GroupLo(g), i)
      invariant chi == ChiUpTo(empirical, theoretical, g)
    {
      if i > 0 {
        GroupStep(i);
      }
      GroupMembership(i, GroupOf(i));
      if i % (k + 1) == k {
        assert accReal == GroupSum(theoretical, g);
        chi := chi + Term(acc, accReal);
        acc := 0.0;
        accReal := 0.0;
        g := g + 1;
      }
      acc := acc + empirical[i];
      accReal := accReal + theoretical[i];
      i := i + 1;
    }
    GroupLayout();
    assert accReal == GroupSum(theoretical, g);
    chi := chi + Term(acc, accReal);
    ChiUpToNonNegative(empirical, theoretical, GroupCount());
    if chi < CriticalValues[k] {
      accepted := true;
    }
  }
}
