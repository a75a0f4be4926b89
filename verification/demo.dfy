/** The page's load callback without its presentation: two single flows of
    rates 3 and 5, their simulated merge, the theoretical flow of rate 8, and
    the chi-square test of the merge against the theory. The mass tables of
    the three rates and the uniform draws are the callback's inputs. */
module Demo {
  import opened Params
  import opened Sums
  import opened Sampler
  import opened Histogram
  import opened Flows
  import opened ChiSquare

  const Rate1: real := 3.0
  const Rate2: real := 5.0

  method Run(mass: (real, nat) -> real, masses1: seq<real>, masses2: seq<real>,
             draws1: seq<real>, draws2: seq<real>, mergedDraws1: seq<real>, mergedDraws2: seq<real>)
    returns (single1: seq<real>, single2: seq<real>, merged: seq<real>, theoretical: seq<real>,
             chi: real, accepted: bool)
    requires forall i :: 0 <= i < |masses1| ==> masses1[i] == mass(Rate1, i)
    requires forall i :: 0 <= i < |masses2| ==> masses2[i] == mass(Rate2, i)
    requires |draws1| == N && |draws2| == N && |mergedDraws1| == N && |mergedDraws2| == N
    requires forall k :: 0 <= k < |draws1| ==> 0.0 <= draws1[k] < Sum(masses1)
    requires forall k :: 0 <= k < |draws2| ==> 0.0 <= draws2[k] < Sum(masses2)
    requires forall k :: 0 <= k < |mergedDraws1| ==> 0.0 <= mergedDraws1[k] < Sum(masses1)
    requires forall k :: 0 <= k < |mergedDraws2| ==> 0.0 <= mergedDraws2[k] < Sum(masses2)
    requires PositiveGroups(MassTable(mass, Rate1 + Rate2, MAX))
    ensures single1 == Normalize(Tally(Zeros(), Draws(masses1, draws1)))
    ensures single2 == Normalize(Tally(Zeros(), Draws(masses2, draws2)))
    ensures merged == Normalize(Tally(Zeros(), MergedDraws(masses1, masses2, mergedDraws1, mergedDraws2)))
    ensures theoretical == MassTable(mass, Rate1 + Rate2, MAX)
    ensures chi == Statistic(merged, theoretical) && chi >= 0.0
    ensures accepted <==> chi < 15.507
  {
    var flow1 := new RandomFlow(Rate1);
    var flow2 := new RandomFlow(Rate2);
    var realFlow := new RealPoissonFlow(Rate1 + Rate2);
    var doubleFlow := new DoubleRandomFlow(Rate1, Rate2);

    flow1.Start(mass, masses1, draws1);
    flow2.Start(mass, masses2, draws2);
    realFlow.Start(mass);
    doubleFlow.Start(mass, masses1, masses2, mergedDraws1, mergedDraws2);

    single1, single2 := flow1.events[..], flow2.events[..];
    merged, theoretical := doubleFlow.events[..], realFlow.events[..];
    chi, accepted := ChiSquareTest(merged, theoretical);
  }
}
