# FlowSimulation core in Dafny

FlowSimulation is an in-browser demonstration of Poisson flows. Two
independent flows, with rates 3 and 5, are simulated over a window `T = 4`,
each for `N = 6000` trials. Each trial draws an event count by
inverse-transform sampling and raises that count's bucket in a histogram of
`MAX = T*8*2 = 64` buckets. The histogram is then divided by `N`. A third
simulated flow adds one count from each rate per trial, which is the merge
(superposition) of the two flows. A fourth, theoretical, flow holds the
Poisson masses of rate 8 directly. The merged histogram is compared with the
theoretical one by a chi-square test. The test groups the buckets and
accepts when the statistic lies below the critical value for `k = 8` degrees
of freedom (15.507).

This project models that computation over exact integers and reals:

- `params.dfy` — `Params`: the constants `T`, `N` and `MAX`.
- `sums.dfy` — `Sums`: left-to-right sums of reals and their lemmas.
- `factorial.dfy` — `Factorial`: the iterative factorial and its recurrence.
- `sampler.dfy` — `Sampler`: the inverse-transform sampling loop, proved
  equal to a reference definition that returns the least index whose prefix
  sum exceeds the draw.
- `histogram.dfy` — `Histogram`: the zeroed buckets, the tally of trials, the
  normalisation, and the resulting empirical distribution.
- `flows.dfy` — `Flows`: the classes `RandomFlow`, `DoubleRandomFlow` and
  `RealPoissonFlow` (the source calls the last one `RealPuassonFlow`). Each
  owns an array of `MAX` buckets that its `Start` method updates in place.
- `chisquare.dfy` — `ChiSquare`: the grouping loop, the statistic, the
  critical-value table and the verdict.
- `demo.dfy` — `Demo`: the load callback without its presentation. It starts
  the four flows and runs the test.

Randomness is an input. Each `Math.random()` draw is a real `u` with
`0 <= u`. The Poisson mass law is also an input: a function value
`mass: (real, nat) -> real`, where `mass(rate, i)` is the probability of `i`
events in one window for that rate. Every flow reads its own rate through
it. The theoretical flow's bucket `m` is `mass(rate, m)`. The sampler walks a
table `masses` whose entry `i` is `mass(rate, i)` for the flow's rate.
The sampling loop of the source never stops if the masses never pass `u`. The
model therefore requires `u < Sum(masses)`, so that the answer lies inside
the table.

Observations from the code that the model keeps as written:

- Groups are closed *before* bucket `i` is added whenever `i % 9 == 8`.
  So the first group is `0..7` (8 buckets), and the following groups are
  `8..16`, `17..25`, …, `53..61` (9 buckets each). The last group is
  `62..63`. That makes 8 groups, while the verdict uses the critical value
  for `k = 8` degrees of freedom, not for `8 - 1`.
- A drawn count (or merged sum) of `MAX` or more raises no tracked bucket.
  After normalisation the buckets then add up to less than 1.

## Model

| member | source | states |
|---|---|---|
| `Factorial.Fact` | static/js/index.js:18-23 | the factorial is at least 1 for every argument |
| `Factorial.Factorial` | static/js/index.js:18-23 | the loop computes `Fact(num)`: 1 for `num <= 1` (so `factorial(0) == factorial(1) == 1`), `num * Fact(num-1)` for `num >= 2`, always positive |
| `Sampler.Draw` | static/js/index.js:79-89 | the reference draw, peeling off one mass at a time, always lands inside the mass table |
| `Sampler.DrawIsLeast` | static/js/index.js:79-89 | the drawn index `i` is the least one whose prefix sum of masses `0..i` exceeds `u`; every shorter prefix is `<= u` |
| `Sampler.LeastIndexIsDraw` | static/js/index.js:79-89 | any index with the least-index property is the drawn one, so the property determines the result |
| `Sampler.NumberOfEvents` | static/js/index.js:79-89 | the accumulating loop returns `i` with `u < masses[0]+…+masses[i]` and `masses[0]+…+masses[i-1] <= u`, equal to `Draw(masses, u)` |
| `Histogram.ZeroBuckets` | static/js/index.js:61-62 | a fresh array of exactly `MAX` buckets, all zero |
| `Histogram.NormalizeInPlace` | static/js/index.js:76 | each of the `MAX` buckets is divided by `N` in place |
| `Histogram.TallyCounts` | static/js/index.js:66-74 | after the trials, bucket `j` has grown by exactly the number of trials whose count is `j` |
| `Histogram.TallyTotal` | static/js/index.js:66-74 | the tracked buckets grow in total by the number of in-range trials; that is at most the number of trials, and equal to it iff no count is out of range |
| `Histogram.NormalizeSum` | static/js/index.js:76 | dividing every bucket by `N` divides their sum by `N` |
| `Histogram.EmpiricalDistribution` | static/js/index.js:66-76 | from zero buckets, each normalised bucket `j` is (trials with count `j`) / `N` and lies in `[0, 1]`; the buckets sum to (in-range trials) / `N <= 1`, and to 1 iff no trial was dropped |
| `Flows.RandomFlow.constructor` | static/js/index.js:59-63 | stores the rate; the flow starts with 64 zero buckets |
| `Flows.RandomFlow.Start` | static/js/index.js:65-77 | given a table that equals `mass(rate, i)` entry by entry, after `N` trials the buckets are `Normalize(Tally(old buckets, sampled counts))`: `Tally` applies `Bump` per trial, which raises the count's own bucket if it is below `MAX` and changes nothing otherwise |
| `Flows.DoubleRandomFlow.constructor` | static/js/index.js:95-101 | stores both rates; the flow starts with 64 zero buckets |
| `Flows.DoubleRandomFlow.Start` | static/js/index.js:103-116 | given tables equal to `mass(rate1, i)` and `mass(rate2, i)`, after `N` trials the buckets are `Normalize(Tally(old buckets, n1 + n2 per trial))`, with `n1` and `n2` sampled from the two tables; `Bump` drops sums of `MAX` or more |
| `Flows.RealPoissonFlow.constructor` | static/js/index.js:120-122 | stores the rate; the flow starts with 64 zero buckets |
| `Flows.RealPoissonFlow.Start` | static/js/index.js:124-129 | bucket `m` becomes `mass(rate, m)`, the mass of `m` events at the flow's own rate, for every `m < MAX` |
| `ChiSquare.GroupLayout` | static/js/index.js:197-208 | there are 8 groups; the first is `0..7`, each later group starts where the previous ends, the middle ones have 9 buckets, and the last is `62..63`, ending at `MAX` |
| `ChiSquare.GroupMembership` | static/js/index.js:197-208 | every bucket `i < MAX` lies in exactly one group, the one numbered `(i+1) / 9` |
| `ChiSquare.GroupStep` | static/js/index.js:199-203 | a flush before bucket `i` (`i % 9 == 8`) closes the group that ends at `i` and opens the one that starts at `i`; otherwise bucket `i` joins the open group |
| `ChiSquare.GroupsCoverHistogram` | static/js/index.js:197-208 | the groups' sums add up to the sum of the whole histogram, so grouping loses and duplicates no bucket |
| `ChiSquare.GroupingKeepsMass` | static/js/index.js:197-208 | the first `g` groups together hold exactly the buckets below the end of group `g-1` |
| `ChiSquare.ChiUpToNonNegative` | static/js/index.js:200 | with positive expected group sums, every partial statistic is non-negative |
| `ChiSquare.StatisticOfMatch` | static/js/index.js:197-212 | an empirical histogram equal to the theoretical one gives statistic 0, which is accepted |
| `ChiSquare.ChiSquareTest` | static/js/index.js:190-212 | `chi` is `Statistic`, the sum over the 8 groups of `Term(acc, accReal) = ((acc - accReal)*N)^2 / (accReal*N)`, and is non-negative; `accepted` is `Verdict(chi, 8)`, the table lookup, which holds iff `chi < criticalValues[8] = 15.507` |
| `Demo.Run` | static/js/index.js:161-212 | under one mass law `mass`: the flows of rates 3 and 5 sample from tables equal to `mass(3, i)` and `mass(5, i)`, and their merge is tested against `theoretical`, which is `mass(3 + 5, m)` for every `m < MAX`; each histogram is as its `Start` promises from zero buckets; `chi` is the statistic of the merge against `theoretical`, and `accepted` iff `chi < 15.507` |

## Left out

- The Poisson mass `(rate*T)^i / i! * e^(-rate*T)` is transcendental floating-point arithmetic. It is the parameter `mass` instead, with no proof that the masses sum to 1. So `factorial` has no caller inside the model.
- IEEE double arithmetic: sums, divisions and the chi-square terms are exact reals, and drift in the running sum `acc` is not modelled.
- Sampler.NumberOfEvents: the unbounded `while (true)` of the source is bounded by requiring `u < Sum(masses)`; a draw beyond the supplied table is not modelled.
- Factorial.Factorial: the result is an exact integer; JavaScript numbers first round a factorial at 23! (19! to 22! exceed 2^53 but are exact doubles), and that rounding is not modelled.
- `Math.random`, `getRandomArbitrary` and `getRandomInt`: draws are inputs. They are two sequences for the merged flow, where the source interleaves one random stream.
- An out-of-range write `events[n] += 1` in JavaScript appends entries past `MAX` holding `NaN`. Only the `MAX` tracked buckets are modelled, where the write changes nothing.
- A theoretical group sum of zero would divide by zero (giving `Infinity` or `NaN`). Positive group sums are a precondition of the test.
- The chi-square verdict for a `k` outside the table (`chi < undefined` is false) appears only in `Verdict`; the source always uses `k = 8`.
- `sleep`, `async`, `Promise.all`: scheduling only. The flows are started one after another.
- `drawChart`, Google Charts, the DOM updates, `toFixed` and `zip`: presentation only.
- Inheritance: `DoubleRandomFlow` and `RealPuassonFlow` extend `RandomFlow` in the source. Here they are three separate classes that share the bucket helpers. The unused `rate` that `DoubleRandomFlow` inherits is not modelled.
