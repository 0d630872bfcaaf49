/** benchmarks/arm_power.py: the permutation p on batches of two against two, exact or sampled. */
module ArmPower {
  import opened Folds
  import opened Products
  import opened Relabelling
  import opened RaisedScores
  import A = ArmReadout

  const EXACT_NULL_CAP: nat := 4096

  function Pow(b: nat, n: nat): nat { if n == 0 then 1 else b * Pow(b, n - 1) }

  /** The cap enumerates four batches and samples five. */
  lemma {:induction false} CapMeans(n: nat)
    ensures Pow(6, n) <= EXACT_NULL_CAP <==> n <= 4
  {
    assert Pow(6, 0) == 1 && Pow(6, 1) == 6 && Pow(6, 2) == 36 && Pow(6, 3) == 216 && Pow(6, 4) == 1296;
    if n > 4 {
      PowAtLeast(n);
    }
  }

  lemma {:induction false} PowAtLeast(n: nat)
    requires n > 4
    ensures Pow(6, n) >= 7776
  {
    if n > 5 {
      PowAtLeast(n - 1);
    } else {
      assert Pow(6, 4) == 1296;
    }
  }

  // ---- stratified_p ----

  /** The indices must exist: combinations(range(4), 2) is taken whatever the pool. */
  predicate Fours(batches: seq<Batch>) {
    forall i :: 0 <= i < |batches| ==> batches[i].BothArms() && |batches[i].Pool()| >= 4
  }

  /** Two treated and two control probes, as power and rate_power build them. */
  predicate Twos(batches: seq<Batch>) {
    forall i :: 0 <= i < |batches| ==> |batches[i].treat| == 2 && |batches[i].control| == 2
  }

  function ArrangeIn(pool: seq<real>): seq<nat> -> Batch {
    (idx: seq<nat>) => if Within(idx, 0, |pool|) then Arrange(pool, idx) else Batch([], [])
  }

  function Options(b: Batch): seq<Batch> { Mapped(Combinations(0, 4, 2), ArrangeIn(b.Pool())) }

  function OptionsOf(): Batch -> seq<Batch> { (b: Batch) => Options(b) }

  function AllOptions(batches: seq<Batch>): seq<seq<Batch>> { Mapped(batches, OptionsOf()) }

  function Reaches(obs: real): seq<Batch> -> real { AtTotal(A.Extreme(true, obs)) }

  lemma {:induction false} ProductNonempty<T>(per: seq<seq<T>>)
    requires forall i :: 0 <= i < |per| ==> per[i] != []
    ensures Product(per) != []
  {
    if per != [] {
      ProductNonempty(per[1..]);
    }
  }

  function Pair(i: nat, j: nat): seq<nat> { [i, j] }

  lemma CombinationsStep(i: nat, n: nat, k: nat)
    requires i < n && k > 0
    ensures Combinations(i, n, k) == Mapped(Combinations(i + 1, n, k - 1), Prepend(i)) + Combinations(i + 1, n, k)
    ensures Combinations(i, n, 0) == [[]] && Combinations(n, n, k) == []
  {
  }

  lemma SingleStep(i: nat)
    requires i < 4
    ensures Combinations(i, 4, 1) == [Only(i)] + Combinations(i + 1, 4, 1) && Combinations(4, 4, 1) == []
  {
    var c := Combinations(i + 1, 4, 0);
    assert c == [[]] && |c[0]| == 0;
    assert Prepend(i)(c[0]) == [i];
    CombinationsStep(i, 4, 1);
    assert Mapped(c, Prepend(i)) == [Only(i)];
  }

  function Only(i: nat): seq<nat> { [i] }

  lemma Singles()
    ensures Combinations(4, 4, 1) == [] && Combinations(3, 4, 1) == [Only(3)]
    ensures Combinations(2, 4, 1) == [Only(2), Only(3)] && Combinations(1, 4, 1) == [Only(1), Only(2), Only(3)]
  {
    hide Combinations;
    SingleStep(3);
    SingleStep(2);
    SingleStep(1);
  }

  lemma SixPairs()
    ensures Combinations(0, 4, 2) == [Pair(0, 1), Pair(0, 2), Pair(0, 3), Pair(1, 2), Pair(1, 3), Pair(2, 3)]
  {
    hide Combinations;
    Singles();
    CombinationsStep(3, 4, 2);
    CombinationsStep(2, 4, 2);
    CombinationsStep(1, 4, 2);
    CombinationsStep(0, 4, 2);
    assert Combinations(3, 4, 2) == Mapped(Combinations(4, 4, 1), Prepend(3)) + Combinations(4, 4, 2) == [] by {
      CombinationsStep(3, 4, 1);
    }
    forall i: nat, j: nat ensures Prepend(i)(Only(j)) == Pair(i, j) {
      assert [i] + [j] == [i, j];
    }
    assert Combinations(2, 4, 2) == [Pair(2, 3)];
    assert Combinations(1, 4, 2) == [Pair(1, 2), Pair(1, 3)] + Combinations(2, 4, 2);
    assert Combinations(0, 4, 2) == [Pair(0, 1), Pair(0, 2), Pair(0, 3)] + Combinations(1, 4, 2);
  }

  lemma SixOptions(b: Batch)
    ensures |Options(b)| == 6
  {
    SixPairs();
  }

  lemma OptionsNonempty(batches: seq<Batch>)
    ensures Product(AllOptions(batches)) != []
  {
    forall i | 0 <= i < |batches|
      ensures AllOptions(batches)[i] != []
    {
      SixOptions(batches[i]);
    }
    ProductNonempty(AllOptions(batches));
  }

  /** The options a draw picks, one a batch. */
  function Chosen(per: seq<seq<Batch>>, pick: seq<nat>): seq<Batch>
  {
    if per == [] || pick == [] || pick[0] >= |per[0]| then []
    else [per[0][pick[0]]] + Chosen(per[1..], pick[1..])
  }

  function ChosenReaches(per: seq<seq<Batch>>, obs: real): seq<nat> -> real {
    (pick: seq<nat>) => if Total(Chosen(per, pick)) >= obs then 1.0 else 0.0
  }

  /** One of a batch's six options for every batch. */
  predicate Picks(pick: seq<nat>, n: nat) { |pick| == n && forall j :: 0 <= j < n ==> pick[j] < 6 }

  predicate NullStream(draws: seq<seq<nat>>, n: nat) {
    draws != [] && forall d :: 0 <= d < |draws| ==> Picks(draws[d], n)
  }

  function ExactShare(batches: seq<Batch>): real {
    OptionsNonempty(batches);
    SumOver(Product(AllOptions(batches)), Reaches(Total(batches))) / |Product(AllOptions(batches))| as real
  }

  function SampledShare(batches: seq<Batch>, draws: seq<seq<nat>>): real
    requires draws != []
  {
    SumOver(draws, ChosenReaches(AllOptions(batches), Total(batches))) / |draws| as real
  }

  function PermutationP(batches: seq<Batch>, draws: seq<seq<nat>>): real
    requires draws != []
  {
    if Pow(6, |batches|) <= EXACT_NULL_CAP then ExactShare(batches) else SampledShare(batches, draws)
  }

  /** stratified_p. The generator is the stream of choices it would make. */
  method StratifiedP(batches: seq<Batch>, draws: seq<seq<nat>>) returns (p: real)
    requires Fours(batches) && NullStream(draws, |batches|)
    ensures p == PermutationP(batches, draws)
  {
    var obs := Total(batches);
    var per := BuildEach(batches, OptionsOf());
    OptionsNonempty(batches);
    if Pow(6, |batches|) <= EXACT_NULL_CAP {
      p := CountReaching(per, obs);
    } else {
      p := SampleReaching(per, obs, draws);
    }
  }

  /** Every batch's own list, in the order of the batches. */
  method BuildEach<T, U>(s: seq<T>, f: T -> U) returns (per: seq<U>)
    ensures per == Mapped(s, f)
  {
    per := [];
    for i := 0 to |s|
      invariant per == Mapped(s, f)[..i]
    {
      per := per + [f(s[i])];
    }
  }

  /** The share of the draws that reach obs. */
  method SampleReaching(per: seq<seq<Batch>>, obs: real, draws: seq<seq<nat>>) returns (p: real)
    requires draws != []
    ensures p == SumOver(draws, ChosenReaches(per, obs)) / |draws| as real
  {
    var ge := 0;
    for d := 0 to |draws|
      invariant ge as real == SumOver(draws[..d], ChosenReaches(per, obs))
    {
      A.SumOverNext(draws, d, ChosenReaches(per, obs));
      if Total(Chosen(per, draws[d])) >= obs {
        ge := ge + 1;
      }
    }
    assert draws[..|draws|] == draws;
    p := ge as real / |draws| as real;
  }

  /** The share of all combinations that reach obs. */
  method CountReaching(per: seq<seq<Batch>>, obs: real) returns (p: real)
    requires Product(per) != []
    ensures p == SumOver(Product(per), Reaches(obs)) / |Product(per)| as real
  {
    var combos := Product(per);
    var total, ge := 0, 0;
    for i := 0 to |combos|
      invariant total == i && ge as real == SumOver(combos[..i], Reaches(obs))
    {
      A.SumOverNext(combos, i, Reaches(obs));
      if Total(combos[i]) >= obs {
        ge := ge + 1;
      }
      total := total + 1;
    }
    assert combos[..|combos|] == combos;
    p := ge as real / total as real;
  }

  // ---- where the two enumerations meet ----

  lemma OptionsAreRelabellings(b: Batch)
    requires |b.treat| == 2 && |b.control| == 2
    ensures Options(b) == Relabellings(b)
  {
    var pool := b.Pool();
    SplitsAreCombinations(pool, 0, 2);
    assert pool[0..] == pool;
    forall m | 0 <= m < |Options(b)|
      ensures Options(b)[m] == Splits(pool, 2)[m]
    {
      SplitIsCombination(pool, 0, 2, m);
    }
  }

  lemma {:induction false} EachIsRelabellings(batches: seq<Batch>, h: Batch -> seq<Batch>)
    requires forall i :: 0 <= i < |batches| ==> h(batches[i]) == Relabellings(batches[i])
    ensures Mapped(batches, h) == AllRelabellings(batches)
  {
    if batches != [] {
      EachIsRelabellings(batches[1..], h);
    }
  }

  lemma AllOptionsAreRelabellings(batches: seq<Batch>)
    requires Twos(batches)
    ensures AllOptions(batches) == AllRelabellings(batches)
  {
    forall i | 0 <= i < |batches| ensures OptionsOf()(batches[i]) == Relabellings(batches[i]) {
      OptionsAreRelabellings(batches[i]);
    }
    EachIsRelabellings(batches, OptionsOf());
  }

  /** On batches of two against two the power tool's exact p is the readout's. */
  lemma {:induction false} ExactTestsAgree(batches: seq<Batch>, draws: seq<seq<nat>>)
    requires Twos(batches) && draws != [] && Pow(6, |batches|) <= EXACT_NULL_CAP
    ensures PermutationP(batches, draws) == A.ExactP(batches, true)
  {
    AllOptionsAreRelabellings(batches);
  }

  // ---- raising the treated scores ----

  /** At most two treated probes a batch. */
  predicate FewTreated(batches: seq<Batch>) { forall i :: 0 <= i < |batches| ==> |batches[i].treat| <= 2 }

  lemma CombinationsSmall(i: nat, n: nat, k: nat)
    requires i <= n
    ensures k == 0 ==> Combinations(i, n, k) == [[]]
    ensures k > 0 && i < n ==>
      |Combinations(i, n, k)| == |Combinations(i + 1, n, k - 1)| + |Combinations(i + 1, n, k)|
  {
  }

  /** A combination of the first n indices is one of the first `upTo`. */
  lemma {:induction false} CombinationsWiden(i: nat, n: nat, upTo: nat, k: nat, m: nat) returns (j: nat)
    requires i <= n <= upTo && m < |Combinations(i, n, k)|
    ensures j < |Combinations(i, upTo, k)| && Combinations(i, upTo, k)[j] == Combinations(i, n, k)[m]
    decreases n - i
  {
    hide Combinations;
    CombinationsSmall(i, n, k);
    CombinationsSmall(i, upTo, k);
    if k == 0 {
      j := 0;
    } else {
      SomeLeft(i, n, k);
      var sooner := |Combinations(i + 1, n, k - 1)|;
      if m < sooner {
        CombinationSooner(i, n, k, m);
        j := CombinationsWiden(i + 1, n, upTo, k - 1, m);
        CombinationSooner(i, upTo, k, j);
      } else {
        CombinationLater(i, n, k, m, m - sooner);
        var l := CombinationsWiden(i + 1, n, upTo, k, m - sooner);
        j := |Combinations(i + 1, upTo, k - 1)| + l;
        CombinationLater(i, upTo, k, j, l);
      }
    }
  }

  /** An option deals two of the pool to treatment; which two depends on its place alone. */
  lemma OptionIsSplit(b': Batch, b: Batch, m: nat) returns (j: nat)
    requires |b'.Pool()| == |b.Pool()| >= 4 && m < |Options(b)|
    ensures m < |Options(b')| && j < |Splits(b'.Pool(), 2)| && j < |Splits(b.Pool(), 2)|
    ensures Options(b')[m] == Splits(b'.Pool(), 2)[j] && Options(b)[m] == Splits(b.Pool(), 2)[j]
  {
    hide Splits, Combinations;
    var p', p := b'.Pool(), b.Pool();
    CombinationsWithin(0, 4, 2, m);
    j := CombinationsWiden(0, 4, |p|, 2, m);
    SplitIsCombination(p', 0, 2, j);
    SplitIsCombination(p, 0, 2, j);
    assert p'[0..] == p' && p[0..] == p;
  }

  lemma {:induction false} TreatedGain(xs': seq<real>, xs: seq<real>, n: nat)
    requires |xs'| == |xs| && 0 < n <= 2 && forall i :: 0 <= i < |xs| ==> xs'[i] >= xs[i]
    ensures SumOver(xs', Gain(2)) - SumOver(xs, Gain(2)) <= SumOver(xs', Gain(n)) - SumOver(xs, Gain(n))
  {
    if xs != [] {
      TreatedGain(xs'[1..], xs[1..], n);
    }
  }

  /** Option by option, raising the treated scores gains the observed labelling the most, as long as it
      treats no more than the two that an option treats. */
  lemma OptionGain(b': Batch, b: Batch, m: nat)
    requires RaisedBatch(b', b) && b.BothArms() && |b.treat| <= 2 && |b.Pool()| >= 4 && m < |Options(b)|
    ensures |Options(b')| == |Options(b)|
    ensures Options(b')[m].Diff() - Options(b)[m].Diff() <= b'.Diff() - b.Diff()
  {
    hide Splits, SumOver, Gain, Loss, Combinations;
    var n1, n2, rest := |b.treat|, |b.control|, |b.Pool()| - 2;
    var j := OptionIsSplit(b', b, m);
    PoolRaises(b', b, 2, rest);
    SplitGain(b'.Pool(), b.Pool(), 2, j, Gain(2), Loss(rest));
    PoolGain(b', b, Gain(2), Loss(rest));
    SplitsShape(b'.Pool(), 2, j);
    SplitsShape(b.Pool(), 2, j);
    DiffIsValue(Options(b')[m]);
    DiffIsValue(Options(b)[m]);
    TreatedGain(b'.treat, b.treat, n1);
    DiffIsValue(b');
    DiffIsValue(b);
  }

  lemma OptionsGain(after: seq<Batch>, before: seq<Batch>)
    requires Fours(before) && FewTreated(before) && Raised(after, before)
    ensures GainsAtMost(AllOptions(after), AllOptions(before), after, before)
  {
    forall i | 0 <= i < |before|
      ensures |AllOptions(after)[i]| == |AllOptions(before)[i]|
    {
      SixOptions(after[i]);
      SixOptions(before[i]);
    }
    forall i, m | 0 <= i < |before| && 0 <= m < |AllOptions(before)[i]|
      ensures AllOptions(after)[i][m].Diff() - AllOptions(before)[i][m].Diff() <= after[i].Diff() - before[i].Diff()
    {
      OptionGain(after[i], before[i], m);
    }
  }

  lemma {:induction false} ChosenGain(per': seq<seq<Batch>>, per: seq<seq<Batch>>, after: seq<Batch>,
                                      before: seq<Batch>, pick: seq<nat>)
    requires GainsAtMost(per', per, after, before) && |pick| == |per|
    requires forall i :: 0 <= i < |per| ==> pick[i] < |per[i]|
    ensures Total(Chosen(per', pick)) - Total(Chosen(per, pick)) <= Total(after) - Total(before)
    decreases |per|
  {
    if per != [] {
      ChosenGain(per'[1..], per[1..], after[1..], before[1..], pick[1..]);
      TotalCons(per'[0][pick[0]], Chosen(per'[1..], pick[1..]));
      TotalCons(per[0][pick[0]], Chosen(per[1..], pick[1..]));
      assert per'[0][pick[0]].Diff() - per[0][pick[0]].Diff() <= after[0].Diff() - before[0].Diff();
    }
  }

  lemma ExactShareFalls(after: seq<Batch>, before: seq<Batch>)
    requires GainsAtMost(AllOptions(after), AllOptions(before), after, before)
    ensures ExactShare(after) <= ExactShare(before)
  {
    var per', per := AllOptions(after), AllOptions(before);
    ProductSameCount(per', per);
    forall m | 0 <= m < |Product(per)|
      ensures Reaches(Total(after))(Product(per')[m]) <= Reaches(Total(before))(Product(per)[m])
    {
      ProductGain(per', per, after, before, m);
    }
    AlignedAtMost(Product(per'), Product(per), Reaches(Total(after)), Reaches(Total(before)));
    OptionsNonempty(before);
    QuotientOrder(SumOver(Product(per'), Reaches(Total(after))), SumOver(Product(per), Reaches(Total(before))),
                  |Product(per)| as real);
  }

  lemma ChosenReachesFalls(after: seq<Batch>, before: seq<Batch>, pick: seq<nat>)
    requires GainsAtMost(AllOptions(after), AllOptions(before), after, before) && Picks(pick, |before|)
    ensures ChosenReaches(AllOptions(after), Total(after))(pick)
      <= ChosenReaches(AllOptions(before), Total(before))(pick)
  {
    hide Options, Total, Chosen;
    forall i | 0 <= i < |before| ensures pick[i] < |AllOptions(before)[i]| {
      SixOptions(before[i]);
    }
    ChosenGain(AllOptions(after), AllOptions(before), after, before, pick);
  }

  lemma SampledShareFalls(after: seq<Batch>, before: seq<Batch>, draws: seq<seq<nat>>)
    requires GainsAtMost(AllOptions(after), AllOptions(before), after, before) && NullStream(draws, |before|)
    ensures SampledShare(after, draws) <= SampledShare(before, draws)
  {
    hide AllOptions, Total, ChosenReaches;
    var f', f := ChosenReaches(AllOptions(after), Total(after)), ChosenReaches(AllOptions(before), Total(before));
    forall d | 0 <= d < |draws| ensures f'(draws[d]) <= f(draws[d]) {
      ChosenReachesFalls(after, before, draws[d]);
    }
    AlignedAtMost(draws, draws, f', f);
    QuotientOrder(SumOver(draws, f'), SumOver(draws, f), |draws| as real);
  }

  /** Where no option gains more than the observed labelling, the p does not rise. */
  lemma GainingLowersP(after: seq<Batch>, before: seq<Batch>, draws: seq<seq<nat>>)
    requires GainsAtMost(AllOptions(after), AllOptions(before), after, before) && NullStream(draws, |before|)
    ensures PermutationP(after, draws) <= PermutationP(before, draws)
  {
    ExactShareFalls(after, before);
    SampledShareFalls(after, before, draws);
  }

  /** With at most two treated probes a batch, raising their scores never raises the p, enumerated or
      sampled with the same choices. */
  lemma RaisingLowersP(after: seq<Batch>, before: seq<Batch>, draws: seq<seq<nat>>)
    requires Fours(before) && FewTreated(before) && Raised(after, before) && NullStream(draws, |before|)
    ensures PermutationP(after, draws) <= PermutationP(before, draws)
  {
    hide PermutationP;
    OptionsGain(after, before);
    GainingLowersP(after, before, draws);
  }
}
