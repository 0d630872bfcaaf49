# Verified model of the benchmark statistics, the money check and the small instruments

The benchmark decides whether a treatment helped with three files that compute one null distribution in
three ways, checks that every dollar the meter charged is accounted for, and keeps a few small
instruments. This project states what those programs compute, in Dafny, and proves what their
documentation promises of them.

**The randomisation tests** (`Relabelling`, `Shuffles`, `ArmReadout`, `SampledLevel`, `SamplingError`,
`StratifiedArm`, `StratifiedLaws`, `StratifiedMoments`, `StratifiedOrder`, `DeletedStrata`,
`StratifiedLevel`, `BinaryOutcomes`, `SuccessCounts`, `Agreement`, `UnevenSlopes`, `Fisher`, `RaisedScores`,
`ArmPower`, `TreatedSizes`, `PowerSampling`, `LeastShare`, `SimulatedPower`, `PowerReadings`, over `Folds`,
`Products` and `Binomials`). The enumeration of `arm_readout.py` is proved against a recursion over scores;
its sampled branch is proved to aim at the same null, and both branches to keep their level; the convolution
of `stratified_arm.py` is proved to count 2x2 tables, which joins it to the enumeration, to Fisher's test
and to the closed forms of mass and mean, and to keep its level too; raising treated scores is proved never
to count against the treatment, for exactly the batch sizes where that is so; and the three simulated power
loops are proved monotone for one random stream. Scores and probabilities are reals. A random generator is
the stream of choices it would make: every theorem holds for every stream.

**The money check** (`MoneyRace`, `MoneyRows`, `MoneyTotals`, `TotalsInRows`, `Reconcile`, `EndpointHealth`,
`HealthInRows`). The meter, the engine and the reader are a step system with arbitrary interleaving, in
which a streamed call may be answered before it is charged; the gap is conserved over classes of arms; the
outage streak is an exact suffix of each arm's rows.

**The smaller instruments**: the crash-tolerant series (`Series`), the rank search (`MedianReach`), the
flat-curve rule (`CurveStop`), the cpu-set printer and parser and the process tree (`Lanes`, `ProcessTree`,
over `Text`), and the grid sweep (`Sweep`). `Wrappers` holds the stock helpers.

Code that works step by step in the source is a method with a loop here, proved against a function; the
laws are lemmas about that function.

## Where the code and its documentation differ

- `benchmarks/check_money.py:662` says the gap is non-negative by construction. The buffered route charges
  a call before it answers (`benchmarks/meter/proxy.py:1155-1159`), but the streaming route sends the last
  chunk first (`benchmarks/meter/proxy.py:1665-1676`) and charges afterwards
  (`benchmarks/meter/proxy.py:1812`), and the engine streams unless told not to
  (`looplab/core/config.py:2868`). So a span can be written, read and summed before its call is charged, and
  the gap is then minus its price (`MoneyRace.StreamedGoesNegative`). No run has a negative gap if and only
  if no streamed call costs anything (`MoneyRace.GapNeverNegative`).
- The counter is published rounded to six places (`benchmarks/meter/proxy.py:794`). From it, no run has a
  negative gap if and only if, besides, no set of calls has a total that rounds down
  (`MoneyRace.PublishedNeverNegative`); prices in whole millionths never do (`MoneyRace.WholePrices`).
- `benchmarks/stratified_arm.py:15-18` and `benchmarks/arm_readout.py:289-305` test the same comparison. On
  0/1 outcomes they give the same p on every data set if and only if 1/n1 + 1/n2 is the same in every batch
  (`UnevenSlopes.AgreeMeansOneSlope`); elsewhere the convolved p is larger on some
  (`UnevenSlopes.ConvolutionIsLarger`).
- `benchmarks/check_money.py:830-832` caps a retry credit at the arm's gap, because more would invent credit.
  The preflight estimate has been taken from the same gap by then (`benchmarks/check_money.py:710-711`). A
  stopped probe whose repeats cover its gap and that made a surplus call has its gap named and one preflight
  call besides: `oldCK9` (`benchmarks/check_money.py:316-325`) is one (`Reconcile.NamedTwice`).
  `Reconcile.NamedBeyondGap` says exactly for which probes that happens, `Reconcile.OverdrawnByOnePreflight`
  that it is never more than that.
- `benchmarks/arm_power.py:175-188` takes any batches, but its options treat two of the first four scores
  whatever the arms. With three treated or more in a batch the p can be 0, and raising treated scores can raise
  it. It never does if and only if no batch treats more than two (`TreatedSizes.NeverRisesMeansFewTreated`); the
  program's own callers treat two.
- `benchmarks/arm_power.py:203` returns hits over draws, which `benchmarks/arm_readout.py:318-322` argues
  against. It is 0 whenever no draw reaches the observed value, for some stream exactly when the exact p is
  below 1 (`PowerSampling.SomeStreamGivesZero`).
- `benchmarks/sweep_claims.py:1702` says `cap` is returned when even that many readings would not do it. It
  is also returned when exactly that many do; `MedianReach.ReachInClosedForm` shows both.
- `benchmarks/stratified_arm.py:41-62` accepts a stratum with more successes than members. Its probability
  table is then empty, and with it the whole distribution: mass 0 and p 0
  (`StratifiedMoments.TotalMassIsOne`).
- `benchmarks/lanes.py:193-207` prints the empty set as `(none)` and a negative member with a leading dash;
  `parse_lane` raises on both. `Lanes.RoundTrip` is the exact condition.

## Model

| member | source | states |
|---|---|---|
| Products.OuterHas | benchmarks/arm_readout.py:300 | a tuple is in the product of two lists exactly when its head and its tail are on offer, so nothing is missed and nothing is added |
| Relabelling.SplitIsCombination | benchmarks/arm_readout.py:294-298 | the m-th index combination, arranged as the comprehension arranges it (picked scores, left-over scores), is the m-th way to deal k scores to treatment, for every pool and every k |
| Relabelling.SplitsCount | benchmarks/arm_readout.py:285 | there are C(n, k) of them |
| Relabelling.SplitsShape | benchmarks/arm_readout.py:294-298 | each deals exactly k scores to treatment and keeps every pooled score exactly once |
| Relabelling.ArrangementsCount | benchmarks/arm_readout.py:284-286 | the arrangements of all batches are as many as the product of the C(len(t)+len(c), len(t)) |
| Relabelling.ArrangementsRelabel | benchmarks/arm_readout.py:300 | every arrangement met keeps arm sizes and pooled scores batch by batch |
| Relabelling.ObservedArrangement | benchmarks/arm_readout.py:289-305 | the observed labelling is itself one of the arrangements, the first |
| Relabelling.SpreadReordered | benchmarks/arm_readout.py:294-303 | a sum over all relabellings of a pool depends on the pool only as a multiset, whatever per-score values the two arms are given |
| Relabelling.NullIsSum | benchmarks/arm_readout.py:299-303 | summing any function of the statistic over the enumerated arrangements is a recursion over batches and scores |
| Relabelling.NullRelabelled | benchmarks/arm_readout.py:291-303 | relabelling the data first leaves the null distribution of the statistic unchanged |
| ArmReadout.RelabelSpaceOf | benchmarks/arm_readout.py:274-286 | the loop returns the number of arrangements the exact branch would visit |
| ArmReadout.Enumerate | benchmarks/arm_readout.py:294-298 | one batch's option list is all its relabellings, in order |
| ArmReadout.CountExact | benchmarks/arm_readout.py:293-305 | total is the number of arrangements and ge the number at least as extreme as the observed one, in either direction of the alternative |
| ArmReadout.DrawTotal | benchmarks/arm_readout.py:310-315 | one pass of the sampled loop adds up the statistic of the labelling that the shuffles deal |
| ArmReadout.CountHits | benchmarks/arm_readout.py:309-317 | hits is the number of draws at least as extreme as the observed labelling |
| ArmReadout.StratifiedPDetail | benchmarks/arm_readout.py:289-325 | exact exactly when the space is at most the ceiling; then p is ge/total, draws the space and the error 0; else p is (hits+1)/(draws+1), and with a square root that is one, the error squared times draws is p(1-p) |
| ArmReadout.ExactPBounds | benchmarks/arm_readout.py:299-305 | 1/space <= p <= 1 for every batch list |
| ArmReadout.SameNull | benchmarks/arm_readout.py:291-305 | a relabelled data set has the same space, and its tail count is taken over the same arrangements |
| ArmReadout.ExactTestKeepsItsLevel | benchmarks/arm_readout.py:289-305 | over all relabellings of the pooled data, the number whose own exact p is at most alpha is at most alpha times the space |
| Shuffles.Shuffle | benchmarks/arm_readout.py:313 | the in-place shuffle, for any stream of choices, leaves the array as the recursive definition says |
| Shuffles.DrawsListed | benchmarks/arm_readout.py:313 | the streams a shuffle of n items can consume are exactly the listed ones, n! of them |
| Shuffles.EverySplitEquallyOften | benchmarks/arm_readout.py:312-315 | over all shuffles of a pool every relabelling comes up the same number of times, k!(n-k)! |
| Shuffles.SampledNullIsExactNull | benchmarks/arm_readout.py:309-317 | over one shuffle of every pool, any function of the statistic sums to the exact null's sum times the number of shuffles per arrangement |
| ArmReadout.DrawnInSampleSpace | benchmarks/arm_readout.py:309-317 | every draw the loop can make lands in that sample space |
| ArmReadout.SampleSpaceIsDrawn | benchmarks/arm_readout.py:309-317 | and every member of it is the result of some draw |
| ArmReadout.SampledShareIsExactP | benchmarks/arm_readout.py:293-317 | the share of shuffles at least as extreme as the observed labelling equals the enumerated ge/total |
| ArmReadout.SampledPBounds | benchmarks/arm_readout.py:318-325 | the reported p lies in [1/(draws+1), 1] and is never below hits/draws |
| SampledLevel.MoveToFront | benchmarks/arm_readout.py:309-317 | over all lists of draws, any one place can be exchanged with the first |
| SampledLevel.FewAreLow | benchmarks/arm_readout.py:318-325 | among any list of statistics, at most n have at most n that are as extreme |
| SampledLevel.ValuesKeepLevel | benchmarks/arm_readout.py:318-325 | so, with the observed value drawn like the rest, at most a share alpha of the tuples has (hits+1)/(n+1) at most alpha |
| SampledLevel.SameDraws | benchmarks/arm_readout.py:309-317 | relabelled data draw the same statistics, each equally often |
| SampledLevel.SampledTestKeepsItsLevel | benchmarks/arm_readout.py:309-325 | the plus-one estimate is conservative: over all labellings of the pooled data and all lists of n draws, at most a share alpha has it at most alpha |
| SampledLevel.ReportedIsSampled | benchmarks/arm_readout.py:309-325 | the p of that statement is the p the sampled branch reports, for any stream of shuffles |
| SamplingError.MeanSquare | benchmarks/arm_readout.py:324-325 | over all lists of n values of mean 0 and mean square v, the square of their sum averages n v |
| SamplingError.HitsScatter | benchmarks/arm_readout.py:309-317 | over all lists of n draws the hits miss n times the exact p by n p (1-p) in the mean square |
| SamplingError.ErrorIsRootMeanSquare | benchmarks/arm_readout.py:324-325 | the square of the reported error, taken at the exact p, is the mean square by which hits over draws misses it |
| StratifiedArm.HypergeomPmf | benchmarks/stratified_arm.py:30-38 | the dictionary holds the hypergeometric probability of every possible cell count and nothing else |
| StratifiedArm.AddRow | benchmarks/stratified_arm.py:58-59 | one row of the inner loop adds exactly that row's products to the keys it reaches and no others |
| StratifiedArm.Convolve | benchmarks/stratified_arm.py:56-60 | the rebuilt dictionary is the convolution, with its keys inside the new range |
| StratifiedArm.MeanOf | benchmarks/stratified_arm.py:55 | the loop adds up value times probability over the support |
| StratifiedArm.StratifiedP | benchmarks/stratified_arm.py:41-62 | p, observed sum and expected sum are those of the convolved distribution, for every list of strata, infeasible ones included |
| StratifiedLaws.WaysSwap | benchmarks/stratified_arm.py:37 | summed over all strata, counting tables by rows or by columns differs only by the product of the margins |
| StratifiedLaws.MassIsCount | benchmarks/stratified_arm.py:49-60 | the mass at x is the number of ways to reach x over the product of C(n1+n2, k) |
| StratifiedLaws.TailIsCount | benchmarks/stratified_arm.py:61 | p over the common denominator counts the tables with at least the observed successes |
| StratifiedMoments.Vandermonde | benchmarks/stratified_arm.py:35-37 | sum over v of C(n1, v) C(n2, k-v) is C(n1+n2, k) |
| StratifiedMoments.TotalMassIsOne | benchmarks/stratified_arm.py:49-60 | the convolved distribution has mass 1 exactly when every stratum is feasible, and mass 0 otherwise |
| StratifiedMoments.InfeasibleMass | benchmarks/stratified_arm.py:49-60 | one stratum with more successes than members empties the distribution |
| StratifiedMoments.MeanIsShare | benchmarks/stratified_arm.py:55 | a feasible stratum's mean is n1 (a+b) / (n1+n2) |
| StratifiedMoments.ExpectedIsShares | benchmarks/stratified_arm.py:55 | the returned expectation is the sum of those shares |
| StratifiedOrder.OrderDoesNotMatter | benchmarks/stratified_arm.py:41-62 | reordering the strata changes neither p nor the observed sum nor the expected sum |
| StratifiedOrder.NoVariabilityNoEffect | benchmarks/stratified_arm.py:44-48 | deleting a stratum with only one possible cell count, from anywhere in the list, leaves p unchanged |
| StratifiedOrder.NoVariabilityMeans | benchmarks/stratified_arm.py:44-48 | such strata are exactly those where nobody succeeded, everybody did, or an arm is empty |
| DeletedStrata.UnnoticedMeansOneTable | benchmarks/stratified_arm.py:41-62 | whatever its counts, possible or not, a stratum can be deleted from every list without moving p if and only if the observed table is the only one its margins allow |
| StratifiedLevel.PIsTailAt | benchmarks/stratified_arm.py:41-62 | the p depends on the margins and the observed sum alone |
| StratifiedLevel.TablesKeepLevel | benchmarks/stratified_arm.py:41-62 | over all tables with the given margins, weighed by how often each comes up, at most a share alpha has a p of at most alpha |
| StratifiedLevel.ConvolvedTestKeepsItsLevel | benchmarks/stratified_arm.py:41-62 | of all relabellings of 0/1 data, in batches of any shapes, at most a share alpha has a convolved p of at most alpha |
| BinaryOutcomes.BinarySpread | benchmarks/arm_readout.py:294-303 | on 0/1 outcomes the sum over relabellings is a sum over the number of treated successes, weighted by C(K, v) C(N-K, n1-v) |
| SuccessCounts.SuccessesCounted | benchmarks/arm_readout.py:293-303 | on 0/1 outcomes in batches of any shapes, any function of the treated successes, summed over the arrangements, is its sum over the 2x2 tables read by columns |
| SuccessCounts.ConvolutionCounts | benchmarks/stratified_arm.py:41-62 | so the convolved p is the share of the arrangements with at least the observed number of treated successes |
| Agreement.TotalClimbs | benchmarks/arm_readout.py:291 | the mean-difference statistic is what the pools fix plus 1/n1 + 1/n2 per treated success |
| Agreement.OneSlopeOrdersAlike | benchmarks/arm_readout.py:302 | where 1/n1 + 1/n2 is the same in every batch, an arrangement is at least as extreme in one statistic exactly when it is in the other |
| Agreement.ConvolutionIsEnumeration | benchmarks/stratified_arm.py:41-62 | then the convolved p equals the enumerated p of arm_readout.stratified_p_detail on every 0/1 data set |
| UnevenSlopes.ConvolutionIsLarger | benchmarks/stratified_arm.py:41-62 | where a success is worth more in batch j than in batch i, one control success in i and one treated success in j make the convolved p larger, whatever the other batches |
| UnevenSlopes.AgreeMeansOneSlope | benchmarks/stratified_arm.py:41-62 | the two p values agree on every 0/1 data set of the given shapes if and only if 1/n1 + 1/n2 is the same in every batch |
| Binomials.CombFactorial | benchmarks/arm_power.py:263-268 | C(n,k) k! (n-k)! = n!, the closed form behind the identities |
| Binomials.MarginSwap | benchmarks/arm_power.py:263-268 | C(n1,a) C(n2,k-a) C(N,n1) = C(k,a) C(N-k,n1-a) C(N,k), and both sides vanish together |
| Fisher.FisherIsOneStratum | benchmarks/arm_power.py:257-268 | fisher_one_sided(a, b, c, d) is stratified_arm.stratified_p on the single stratum (a, a+b, c, c+d) |
| Fisher.TailDrops | benchmarks/arm_power.py:267-268 | one more treated success with row sizes and control successes fixed does not raise the tail count, though the column margin moves |
| Fisher.FisherMonotone | benchmarks/arm_power.py:257-268 | so, for rows of any two sizes, the Fisher p never rises with the treated count |
| Fisher.FisherRisesWithControl | benchmarks/arm_power.py:257-268 | and never falls with the control count |
| Fisher.FisherExtreme | benchmarks/arm_power.py:257-268 | with every treated success and no control success it is 1 in C(n+m, n) |
| ArmPower.BuildEach | benchmarks/arm_power.py:184-188 | the loop that appends one option list a batch builds the whole list |
| ArmPower.CountReaching | benchmarks/arm_power.py:190-195 | ge/total is the share of combinations reaching the observed statistic |
| ArmPower.SampleReaching | benchmarks/arm_power.py:197-203 | ge/draws is the share of the drawn combinations reaching it |
| ArmPower.StratifiedP | benchmarks/arm_power.py:175-203 | exact while 6**len(batches) is within the cap, sampled above it, for any stream of choices |
| PowerSampling.PicksListed | benchmarks/arm_power.py:200-201 | the choices one draw can make are exactly the listed ones, one of six per batch |
| PowerSampling.ChoicesAreCombinations | benchmarks/arm_power.py:190-201 | any sum over those choices is the sum over the combinations that the exact branch enumerates |
| PowerSampling.SamplingTargetsExactShare | benchmarks/arm_power.py:175-203 | over all choices a draw can make, the share that reaches the observed statistic is the exact p |
| PowerSampling.NoDrawNoP | benchmarks/arm_power.py:197-203 | the sampled p is 0 exactly when no draw reaches the observed statistic |
| PowerSampling.SomeStreamGivesZero | benchmarks/arm_power.py:197-203 | some stream of draws makes it 0 if and only if the exact p is below 1 |
| PowerSampling.ExactShareAtLeast | benchmarks/arm_power.py:189-195 | the exact p of two against two is at least 1 in 6^n, which a sampled 0 undercuts |
| ArmPower.CapMeans | benchmarks/arm_power.py:172-189 | up to four batches are enumerated, five and more sampled |
| LeastShare.SixOptionsAre | benchmarks/arm_power.py:184-188 | the six options of two against two, score by score and in order |
| LeastShare.LeastMeansApart | benchmarks/arm_power.py:189-195 | the exact p of two against two is 1 in 6^n if and only if in every batch every treated score beats every control score |
| LeastShare.LoweringLowersP | benchmarks/arm_power.py:175-203 | two against two, lowering control scores never raises p, in the exact and in the sampled branch |
| ArmPower.ExactTestsAgree | benchmarks/arm_power.py:189-195 | on batches of two against two, within the cap, this p is the exact p of arm_readout |
| RaisedScores.RelabellingGain | benchmarks/arm_readout.py:294-298 | in a batch of any shape, raising treated scores gains no relabelling more than it gains the observed labelling |
| RaisedScores.RaisedTails | benchmarks/arm_readout.py:293-305 | so the count of arrangements at least as extreme never rises for the treatment and never falls against it |
| RaisedScores.CutGain | benchmarks/arm_readout.py:310-315 | the same for any one shuffle, dealt to the raised scores and to the others |
| RaisedScores.RaisedReadout | benchmarks/arm_readout.py:289-325 | raising treated scores, in batches of any shapes, never raises the p for the treatment and never lowers the p against it, enumerated or sampled with the same shuffles |
| ArmPower.OptionGain | benchmarks/arm_power.py:183-195 | in a batch of four or more with at most two treated, raising treated scores gains no option more than it gains the observed labelling |
| ArmPower.RaisingLowersP | benchmarks/arm_power.py:175-203 | while no batch treats more than two, raising treated scores never raises p, in the exact and in the sampled branch |
| TreatedSizes.BeforeP | benchmarks/arm_power.py:183-203 | three treated ones against zeros are reached by no option: the p is 0 in both branches |
| TreatedSizes.NeverRisesMeansFewTreated | benchmarks/arm_power.py:175-203 | over all data in batches of the given sizes, raising treated scores never raises p if and only if no batch treats more than two |
| SimulatedPower.ScoreTrial | benchmarks/arm_power.py:211-215 | one trial builds its batches from the stream in the order the source draws them |
| SimulatedPower.Power | benchmarks/arm_power.py:206-218 | the returned share is the share of trials whose p reaches alpha, each trial on its own stretch of the stream |
| SimulatedPower.PowerRisesWithEffect | benchmarks/arm_power.py:206-218 | for one stream, a larger effect never has less power, exact or sampled |
| PowerReadings.EffectShiftsDiff | benchmarks/arm_power.py:212-215 | raising the effect by d raises every batch's mean difference by exactly d |
| PowerReadings.NoEffectResamples | benchmarks/arm_power.py:211-215 | without an effect a trial's pools hold exactly the scores picked at its own 4n stream positions |
| PowerReadings.LeastScoreP | benchmarks/arm_power.py:206-218 | trial t reads the 4n numbers from 4nt on, and within the cap its p is 1 in 6^n if and only if in every batch the first two pick scores below what the next two pick plus the effect |
| PowerReadings.PowerOfLargeEffect | benchmarks/arm_power.py:206-218 | with an effect beyond the spread of the corpus and within the cap, the power is 1 if 1 in 6^n is at most alpha and 0 if not |
| SimulatedPower.RateTrial | benchmarks/arm_power.py:245-251 | one trial builds its rates from the stream, control before treatment |
| SimulatedPower.RatePower | benchmarks/arm_power.py:240-254 | the returned share is the share of trials whose p reaches alpha |
| SimulatedPower.RatePowerRises | benchmarks/arm_power.py:221-254 | for one stream, a larger treated rate never has less power |
| PowerReadings.CountIsBelow | benchmarks/arm_power.py:246-250 | a probe's successes are the numbers of its stretch below the rate |
| PowerReadings.LeastRateP | benchmarks/arm_power.py:240-254 | trial t reads 4kn numbers from 4knt on, and within the cap its p is 1 in 6^n if and only if in every batch both treated probes succeed more often than both control ones, each on its own stretch |
| PowerReadings.RatePowerFalls | benchmarks/arm_power.py:221-254 | for one stream, a larger control rate never has more power |
| SimulatedPower.PooledRatePower | benchmarks/arm_power.py:291-298 | the returned share is the share of trials whose Fisher p reaches alpha |
| SimulatedPower.PooledPowerRises | benchmarks/arm_power.py:271-298 | for one stream, a larger treated rate never has less pooled power |
| PowerReadings.PooledTable | benchmarks/arm_power.py:291-298 | trial i's table counts the treated successes among the first n of its 2n numbers and the control successes among the other n |
| PowerReadings.StretchesExchange | benchmarks/arm_power.py:294-296 | exchanging the two stretches together with the two rates exchanges the rows of the table |
| PowerReadings.ExtremeTrial | benchmarks/arm_power.py:294-297 | with every treated number below its rate and no control number below its rate the p is 1 in C(2n, n) |
| PowerReadings.PooledPowerFalls | benchmarks/arm_power.py:271-298 | for one stream, a larger control rate never has more pooled power |
| MoneyRace.StepKeeps | benchmarks/check_money.py:651-667 | every step of meter, engine and reader keeps the invariant: a span on disk is of a charged or a streamed call, each once, and what has been read lies behind the reader |
| MoneyRace.RunKeeps | benchmarks/check_money.py:651-667 | so every state of every run of the prescribed order has it |
| MoneyRace.GapIsUnreadLessEarly | benchmarks/check_money.py:662-670 | under every interleaving the gap is the cost of the charged calls whose spans were not read, less the cost of the calls read before they were charged, and the latter are streamed |
| MoneyRace.Attained | benchmarks/meter/proxy.py:1155-1159 | every pair of a charged list and a read list whose uncharged calls are streamed is the outcome of some run |
| MoneyRace.StreamedGoesNegative | benchmarks/meter/proxy.py:1665-1812 | for every streamed call with a price there is a run, in the prescribed order, whose gap is minus that price |
| MoneyRace.GapNeverNegative | benchmarks/check_money.py:653-662 | no run has a negative gap if and only if no streamed call costs anything |
| MoneyRace.ArmGapIsUnreadLessEarly | benchmarks/check_money.py:663-666 | the same account holds between ledger and spans for any set of span files, so for every arm, and the counter has at least the ledger's money |
| MoneyRace.CounterFirstGoesNegative | benchmarks/check_money.py:653-660 | with the two reads swapped, every call with a price, streamed or not, has a run whose gap is minus that price |
| MoneyRace.Round6Near | benchmarks/meter/proxy.py:794 | the published counter is within half a millionth of the exact one |
| MoneyRace.Round6Rounds | benchmarks/meter/proxy.py:794 | the published counter is a whole number of millionths, as near as any, and the even one of two as near |
| MoneyRace.RoundedGoesNegative | benchmarks/meter/proxy.py:790-794 | every list of calls whose total rounds down has a run whose published gap is what rounding took away, below zero |
| MoneyRace.PublishedNeverNegative | benchmarks/check_money.py:662-670 | no run has a negative published gap if and only if no streamed call costs anything and no list of distinct calls has a total that rounds down |
| MoneyRace.WholePrices | benchmarks/meter/proxy.py:790-794 | with prices in whole millionths the second half always holds |
| MoneyRace.PublishedIsNear | benchmarks/check_money.py:669-670 | rounding moves the gap by at most half a millionth |
| MoneyTotals.MeterByProbe | benchmarks/check_money.py:552-622 | per arm, over its readable rows since the cut: cost and calls, the failures and how many of each kind, the empty 200s and how many of them had queued |
| MoneyTotals.EmptyOrFailed | benchmarks/check_money.py:590-619 | failures and empty answers are different calls, and the queued ones are among the empty |
| MoneyTotals.SpansByProbe | benchmarks/check_money.py:103-124 | cost and generations per probe are the sums over its span lines that carry a cost and a time since the cut |
| MoneyTotals.PaidRetries | benchmarks/check_money.py:313-359 | each arm is credited the number and the cost of exactly the rows whose fingerprint it had already sent |
| MoneyTotals.RetriesWithinSpend | benchmarks/check_money.py:331-359 | with non-negative costs that is between zero and what the arm was charged |
| TotalsInRows.FailureKinds | benchmarks/check_money.py:525-549 | which rows get which kind, by kind, status, stream and latency_ms |
| TotalsInRows.OneMoreRow | benchmarks/check_money.py:313-359 | what one ledger row adds to an arm's cost, calls and repeats, by its own ts, arm, cost and req_sha |
| TotalsInRows.OneMoreAnswer | benchmarks/check_money.py:590-619 | what it adds to the failures, their kinds and the empty answers, by its own status and counts |
| TotalsInRows.OneMoreSpan | benchmarks/check_money.py:108-123 | what one span line adds to its probe, by its own cost and start |
| Reconcile.ClassesPartition | benchmarks/check_money.py:678-709 | probes, abandoned and campaign arms are pairwise disjoint, cover every arm but the unlabelled one, and the two that are subtracted whole are the metered ones without a tree, told apart by the campaign's evidence |
| Reconcile.GapSplits | benchmarks/check_money.py:669-709 | the gap is the probes' own gaps, the abandoned and campaign arms whole, the unlabelled rows, and what the counter has beyond the ledger |
| Reconcile.CreditBounds | benchmarks/check_money.py:834-854 | a retry credit exceeds the floor, is at most the arm's own gap and its repeats, and goes only to a probe that has stopped |
| Reconcile.CreditsAreProbes | benchmarks/check_money.py:834-854 | every retry credit goes to a probe: no arm subtracted whole is credited again |
| Reconcile.NamedBeyondGap | benchmarks/check_money.py:710-711 | more than a probe's gap is named if and only if it is credited retries, has a surplus call, and its repeats exceed its gap less one preflight call; or it is not credited and its gap does not cover its preflight call |
| Reconcile.OverdrawnByOnePreflight | benchmarks/check_money.py:830-854 | a gap that is not negative is overdrawn by one preflight call at the most |
| Reconcile.ResidueAtLeast | benchmarks/check_money.py:858-859 | so, if no probe has a negative gap, all probes together leave at least minus the preflight money |
| Reconcile.NamedTwice | benchmarks/check_money.py:316-325 | for oldCK9, with gap 0.076945, repeats 0.101394 and 18 surplus calls, the residue is minus one preflight call |
| Reconcile.CountPreflight | benchmarks/check_money.py:710-711 | the preflight money is one estimate per probe with a surplus call |
| Reconcile.NameRetries | benchmarks/check_money.py:834-854 | the loop names the sum of the credits |
| Reconcile.Residue | benchmarks/check_money.py:669-860 | the residue is what each probe's own gap leaves after its preflight call and its credit, plus the unlabelled rows and the counter's lead; the report's preflight count, classes and credits are those of the reading |
| EndpointHealth.NoteNewest | benchmarks/check_money.py:505-507 | one row updates the newest map so that it again holds, for every arm, the first row with the greatest completion time |
| EndpointHealth.NoteStreak | benchmarks/check_money.py:508-518 | one row updates the streak map so that it again holds, for every arm, the longest constant non-200 suffix |
| HealthInRows.Health | benchmarks/check_money.py:464-522 | in the rows' own fields: the newest row ends at ts plus latency_ms/1000 (at ts without a latency), no kept row of the arm ends later and no earlier one as late; the streak runs from its first row to the end in one non-200 status, which the arm's row before it does not show; an arm has one exactly when its last row is not a 200 |
| HealthInRows.HealthIsReported | benchmarks/check_money.py:464-522 | the maps that the row steps keep say exactly that |
| EndpointHealth.HealthIsDetermined | benchmarks/check_money.py:464-522 | those descriptions leave one possible answer |
| EndpointHealth.RefusingIsStreak | benchmarks/check_money.py:519-521 | where the last row is also the last to complete, an arm is refusing exactly when it has a streak |
| HealthInRows.RefusingInOrder | benchmarks/check_money.py:519-521 | on a ledger where an arm's rows stand in the order of ts plus latency_ms/1000, it is refusing exactly when it has a streak |
| Series.SeriesFile.AppendReading | benchmarks/ruler_selfcheck.py:513-530 | for any file and any cut, the file gains the prefix of healing newline, row and newline that was written |
| Series.SeriesFile.ReadSeries | benchmarks/ruler_selfcheck.py:533-552 | the loop returns the rows of the readable lines, of the asked task, stably sorted by stamp |
| Series.AppendAddsOneLine | benchmarks/ruler_selfcheck.py:514-530 | whatever the cut, an append adds one line holding what reached the disk of its row, or no line: it never lands on an older line |
| Series.PrefixReads | benchmarks/ruler_selfcheck.py:541-548 | a whole row reads back as itself and anything cut short of it reads as nothing |
| Series.EveryLandedRowOnce | benchmarks/ruler_selfcheck.py:512-552 | after any run of completed and cut appends to any file, the reader finds what it found before and then exactly the landed rows, each once, in order |
| Series.LandedMeans | benchmarks/ruler_selfcheck.py:527-530 | a row has landed exactly when at most its final newline is missing; a completed append has landed |
| Series.SortIsStable | benchmarks/ruler_selfcheck.py:552 | the result is ordered by stamp and keeps every stamp's readings in file order |
| Series.StableSortIsTheOnlyOne | benchmarks/ruler_selfcheck.py:552 | no other list does both |
| Series.ReaderSeesWhatLanded | benchmarks/ruler_selfcheck.py:512-552 | from an empty file, asked for any task or for all, the reader returns exactly the landed readings of that task, stably sorted |
| Series.ReadingsComeBack | benchmarks/ruler_selfcheck.py:512-552 | from an empty file, a reading comes back as often as its row landed when it is of the asked task or none is asked for, and not at all otherwise |
| Text.LexTotal | benchmarks/ruler_selfcheck.py:552 | the order on stamps is total and antisymmetric |
| Text.LexMeans | benchmarks/ruler_selfcheck.py:552 | a stamp is before another exactly when it is its prefix or has the smaller character where they first differ |
| Text.StripSpaces | benchmarks/lanes.py:134 | strip takes the white space at both ends and nothing else |
| MedianReach.ProbesToMoveTheMedianOut | benchmarks/sweep_claims.py:1692-1715 | None exactly for no values, no band or a median already outside; otherwise the least k that moves the median out, or cap |
| MedianReach.MedianByRank | benchmarks/sweep_claims.py:1709 | the median is in the band exactly when fewer values lie below it than its position and more lie at or below its top |
| MedianReach.ReachInClosedForm | benchmarks/sweep_claims.py:1692-1715 | the answer is min(cap, 2c-n) when the band tops below 100, min(cap, n-2l+1) when it starts above 100, and cap when it holds 100; nothing else satisfies the search |
| CurveStop.CurveStop | benchmarks/session_measurements.py:197-231 | the four counters are the sums over the curves of what the first stop of each says |
| CurveStop.StopFrom | benchmarks/session_measurements.py:216-229 | the stop is the first index whose last k values do not beat the earlier maximum |
| CurveStop.ImprovedMeansBestAhead | benchmarks/session_measurements.py:226-228 | a stop is counted improved exactly when every place the whole curve's maximum sits lies after it |
| CurveStop.StopsLater | benchmarks/session_measurements.py:213-229 | a larger k stops later or never |
| CurveStop.CountersNonIncreasing | benchmarks/session_measurements.py:197-231 | none of the four counters grows with k |
| CurveStop.CountersCount | benchmarks/session_measurements.py:213-229 | eligible counts the curves longer than k, triggered those with a flat stretch of k, saved the measurements that stand behind one |
| Lanes.NatTextReads | benchmarks/lanes.py:139-141 | a decimal numeral reads back as its number |
| Lanes.NumbersRead | benchmarks/lanes.py:139-141 | a numeral reads back with white space around it and under either sign |
| Lanes.UnderscoreReads | benchmarks/lanes.py:139-141 | and with an underscore between its digits, but not at its end |
| Lanes.SplitJoin | benchmarks/lanes.py:133 | splitting at commas undoes joining with commas when no part holds one |
| Lanes.ParseLane | benchmarks/lanes.py:130-142 | the loop returns the union over the parts, or the error of the first part that does not read |
| Lanes.PartsRead | benchmarks/lanes.py:134-141 | white space between commas names no cpu, and a-b names the cpus from a to b, none when b is below a |
| Lanes.Fmt | benchmarks/lanes.py:193-207 | the loop prints the runs of the sorted set |
| Lanes.RunsOf | benchmarks/lanes.py:197-206 | the printed runs are ascending, disjoint, maximal and cover exactly the set |
| Lanes.PrintedPlainly | benchmarks/lanes.py:207 | no numeral is padded, and a run shows a dash exactly when it has more than one cpu |
| Lanes.MaximalRunsAreUnique | benchmarks/lanes.py:197-206 | there is one way to write a set as maximal runs |
| Lanes.RoundTrip | benchmarks/lanes.py:130-207 | parse_lane reads the printed set back as itself exactly when it is not empty and has no negative member; otherwise it raises |
| ProcessTree.ChildLists | benchmarks/lanes.py:77-86 | the child lists hold exactly the readable parent links |
| ProcessTree.TreeCpus | benchmarks/lanes.py:56-100 | the result is the union over exactly the processes reachable from pid that answer, whatever the table, cycles included, and empty without an affinity call |
| Sweep.SortedKeys | looplab/sweep.py:42 | the keys, each once, in string order |
| Sweep.DigitsOfIndex | looplab/sweep.py:43-44 | an index below the product of the list lengths has valid mixed-radix digits that number it again |
| Sweep.IndexOfDigits | looplab/sweep.py:43-44 | every valid digit list is the digits of its own number |
| Sweep.GridIsMixedRadix | looplab/sweep.py:36-44 | there are as many configs as the product of the lengths, and config i gives the j-th sorted key the value its j-th digit of i names |
| Sweep.EachChoiceOnce | looplab/sweep.py:36-44 | every choice of one value per key is one config and only one |
| Sweep.LastKeyVariesFastest | looplab/sweep.py:43-44 | until its values are used up, the next config changes the last key alone, to its next value |
| Sweep.PoolKeepsOrder | looplab/sweep.py:147-153 | whatever order the pool finishes the trials in, the list is the sequential one |
| Sweep.TrialsFollowTheGrid | looplab/sweep.py:125-153 | the list is the grid in order, cut to max_trials when that is given and not negative; trial i ran config i on seed i |
| Sweep.TrialsReport | looplab/sweep.py:129-145 | trial i shows what train_fn did on its params and the seed 1,000,003 base + i: a bare metric as the metric, a dict as its metric and the rest, an exception as its message |
| Sweep.FailuresStayInTheirTrial | looplab/sweep.py:134-145 | an exception is recorded in its own trial and changes no other |
| Sweep.SeedsAreInjective | looplab/sweep.py:132 | trial seeds are injective in base and index exactly when there are at most 1,000,003 trials |

## Left out

- Floating-point rounding: scores, costs and probabilities are exact reals, so ties that rounding would
  make or break are not modelled; the one rounding that changes a stated promise, `round(cost, 6)`, is.
- The power of one half in the sampled standard error is a given function of a non-negative number.
- The counts by kind and of queued answers are results of their own; the source files them under the names
  `__by_kind__` and `__queued__`, which an arm of either name would lose its own count to.
- Sweep.PoolKeepsOrder: collecting results by position is `pool.map`'s own contract and is taken as given;
  what is modelled is that trials finish in any order.
- Random generators as algorithms: `random.Random(seed)` is a given stream, and its seeding is a parameter.
- `statistics.mean` of an empty arm raises; `ArmReadout.StratifiedPDetail` and `ArmPower.StratifiedP` require
  both arms, and the latter four scores a batch, because the source indexes `range(4)` whatever the pool.
- `draws` of 0 divides by zero in the source; the sampled branches require at least one draw, and the power
  loops at least one trial.
- `interaction_p`, `lane_split`, `mapping_of`, `admit`, `design_problems` and `lane_fault`: branch tables, or the
  shuffle argument again.
- Reading JSON, `/proc`, sockets, globs and command lines: rows, the process table and the affinity call are
  given. A line that does not parse is a row that is skipped.
- Meter restarts in the race: a run starts when the meter does, so every span belongs to it. The cut at
  `since` is modelled in the per-arm totals.
- The in-flight allowance and all printing in `check_money.py`: reporting beside the residue. A meter whose
  log write fails, so that a charged call has no ledger row.
- The order in which a Python dict is walked: the sums over arms do not depend on it.
- I/O errors of the series writer and reader. A file whose text holds a carriage return, which text mode
  would also split at; rows never do. A row is one line in braces no proper prefix of which parses.
- Non-ASCII white space and digits in `strip()` and `int()`.
- NaN and infinities in `probes_to_move_the_median_out` and `curve_stop`; a negative `k` in the latter.
- `float()` of a metric that is not a number, `seconds`, the JSON line of `run_sweep` and the reading of
  `LOOPLAB_EVAL_SEED`: the base seed is a parameter. `train_fn` is a function of its two arguments, so
  state shared between trials is not modelled.
