/** Above its cap benchmarks/arm_power.py samples choices instead of enumerating: the same null. */
module PowerSampling {
  import opened Folds
  import opened Products
  import opened Relabelling
  import opened Shuffles
  import opened ArmPower
  import opened SampledLevel
  import A = ArmReadout

  /** Every way to choose one of six options for each of n batches. */
  function AllPicks(n: nat): seq<seq<nat>> { Tuples(Upto(0, 6), n) }

  predicate Sixes(per: seq<seq<Batch>>) { forall k :: 0 <= k < |per| ==> |per[k]| == 6 }

  /** The choices a draw can make are exactly these. */
  lemma {:induction false} PicksListed(pick: seq<nat>, n: nat)
    ensures pick in AllPicks(n) <==> Picks(pick, n)
  {
    if n > 0 {
      OuterHas(Upto(0, 6), AllPicks(n - 1), pick);
      UptoHas(6);
      if pick != [] {
        PicksListed(pick[1..], n - 1);
        PicksFirst(pick, n);
      }
    }
  }

  lemma PicksFirst(pick: seq<nat>, n: nat)
    requires n > 0 && pick != []
    ensures Picks(pick, n) <==> pick[0] < 6 && Picks(pick[1..], n - 1)
  {
    if pick[0] < 6 && Picks(pick[1..], n - 1) {
      forall j | 0 <= j < n ensures pick[j] < 6 {
        if j > 0 {
          assert pick[j] == pick[1..][j - 1];
        }
      }
    }
  }

  function AtChosen(per: seq<seq<Batch>>, f: seq<Batch> -> real): seq<nat> -> real {
    (pick: seq<nat>) => f(Chosen(per, pick))
  }

  lemma ChosenWithHead(per: seq<seq<Batch>>, f: seq<Batch> -> real, j: nat, picks: seq<seq<nat>>)
    requires per != [] && j < |per[0]|
    ensures SumOver(picks, WithHead(AtChosen(per, f), j)) == SumOver(picks, AtChosen(per[1..], WithHead(f, per[0][j])))
  {
    forall pick | pick in picks
      ensures WithHead(AtChosen(per, f), j)(pick) == AtChosen(per[1..], WithHead(f, per[0][j]))(pick)
    {
      var p := [j] + pick;
      assert p[1..] == pick && p[0] == j;
      assert Chosen(per, p) == [per[0][j]] + Chosen(per[1..], pick);
    }
    SumOverSame(picks, WithHead(AtChosen(per, f), j), AtChosen(per[1..], WithHead(f, per[0][j])));
  }

  function Heads(tails: seq<seq<Batch>>, f: seq<Batch> -> real): Batch -> real {
    (x: Batch) => SumOver(tails, WithHead(f, x))
  }

  /** Any sum over the choices is the sum over the combinations they name. */
  lemma {:induction false} ChoicesAreCombinations(per: seq<seq<Batch>>, f: seq<Batch> -> real)
    requires Sixes(per)
    ensures SumOver(AllPicks(|per|), AtChosen(per, f)) == SumOver(Product(per), f)
  {
    if per == [] {
      NoChoices(f);
    } else {
      var n := |per[1..]|;
      forall j: nat | j < 6
        ensures ByFirst(Upto(0, 6), n, AtChosen(per, f))(j) == Heads(Product(per[1..]), f)(per[0][j])
      {
        ChosenWithHead(per, f, j, AllPicks(n));
        ChoicesAreCombinations(per[1..], WithHead(f, per[0][j]));
      }
      FirstChoice(per, f, n);
    }
  }

  lemma FirstChoice(per: seq<seq<Batch>>, f: seq<Batch> -> real, n: nat)
    requires |per| == n + 1 && |per[0]| == 6
    requires forall j: nat :: j < 6 ==>
      ByFirst(Upto(0, 6), n, AtChosen(per, f))(j) == Heads(Product(per[1..]), f)(per[0][j])
    ensures SumOver(AllPicks(|per|), AtChosen(per, f)) == SumOver(Product(per), f)
  {
    hide SumOver, Upto, Tuples;
    FirstPlace(Upto(0, 6), n, AtChosen(per, f));
    SumByIndex(per[0], 0, Heads(Product(per[1..]), f), ByFirst(Upto(0, 6), n, AtChosen(per, f)));
    assert per[0][0..] == per[0];
    SumOverOuter(per[0], Product(per[1..]), f, Heads(Product(per[1..]), f));
  }

  lemma NoChoices(f: seq<Batch> -> real)
    ensures SumOver(AllPicks(0), AtChosen([], f)) == SumOver(Product<Batch>([]), f)
  {
    var p: seq<seq<nat>>, q: seq<seq<Batch>> := [[]], [[]];
    assert AllPicks(0) == p && Product<Batch>([]) == q && p[1..] == [] && q[1..] == [];
    assert Chosen([], p[0]) == q[0];
  }

  lemma {:induction false} SixPerBatch(per: seq<seq<Batch>>)
    requires Sixes(per)
    ensures |AllPicks(|per|)| == |Product(per)|
  {
    if per != [] {
      SixPerBatch(per[1..]);
      OuterCount(Upto(0, 6), AllPicks(|per| - 1));
      OuterCount(per[0], Product(per[1..]));
    }
  }

  lemma SixesOf(batches: seq<Batch>)
    ensures Sixes(AllOptions(batches)) && |AllOptions(batches)| == |batches|
  {
    forall k | 0 <= k < |batches| ensures |AllOptions(batches)[k]| == 6 {
      SixOptions(batches[k]);
    }
  }

  lemma SharesAlike(per: seq<seq<Batch>>, obs: real, picks: nat)
    requires Sixes(per) && picks == |AllPicks(|per|)|
    ensures SumOver(AllPicks(|per|), ChosenReaches(per, obs)) == SumOver(Product(per), Reaches(obs))
    ensures picks == |Product(per)|
  {
    SumOverSame(AllPicks(|per|), ChosenReaches(per, obs), AtChosen(per, Reaches(obs)));
    ChoicesAreCombinations(per, Reaches(obs));
    SixPerBatch(per);
  }

  /** Over all choices a draw can make, the share that reaches the observed statistic is the exact p. */
  lemma SamplingTargetsExactShare(batches: seq<Batch>, picks: nat)
    requires picks == |AllPicks(|batches|)|
    ensures picks > 0
    ensures SumOver(AllPicks(|batches|), ChosenReaches(AllOptions(batches), Total(batches))) / picks as real
      == ExactShare(batches)
  {
    SixesOf(batches);
    OptionsNonempty(batches);
    SharesAlike(AllOptions(batches), Total(batches), picks);
  }

  // ---- what a few draws can miss ----

  /** The sampled p, which counts hits over draws, is 0 exactly when no draw reaches the observed statistic. */
  lemma NoDrawNoP(batches: seq<Batch>, draws: seq<seq<nat>>)
    requires draws != []
    ensures SampledShare(batches, draws) == 0.0
       <==> forall d :: d in draws ==> ChosenReaches(AllOptions(batches), Total(batches))(d) == 0.0
  {
    var f := ChosenReaches(AllOptions(batches), Total(batches));
    A.IndicatorBounds(draws, f);
    if forall d :: d in draws ==> f(d) == 0.0 {
      SumOverZero(draws, f);
    }
    ShareBounds(SumOver(draws, f), |draws| as real);
  }

  /** The share of all picks that hit, with its bounds. */
  lemma PicksShare(batches: seq<Batch>, f: seq<nat> -> real, picks: seq<seq<nat>>)
    requires f == ChosenReaches(AllOptions(batches), Total(batches)) && picks == AllPicks(|batches|)
    ensures ExactShare(batches) < 1.0 <==> SumOver(picks, f) < |picks| as real
  {
    SamplingTargetsExactShare(batches, |picks|);
    A.IndicatorBounds(picks, f);
    ShareBounds(SumOver(picks, f), |picks| as real);
  }

  lemma SomePickMisses(batches: seq<Batch>) returns (pick: seq<nat>)
    requires ExactShare(batches) < 1.0
    ensures Picks(pick, |batches|) && ChosenReaches(AllOptions(batches), Total(batches))(pick) == 0.0
  {
    hide ExactShare, AllPicks;
    var f, picks := ChosenReaches(AllOptions(batches), Total(batches)), AllPicks(|batches|);
    PicksShare(batches, f, picks);
    if forall p :: p in picks ==> f(p) == 1.0 {
      A.CountIsSum(picks);
      SumOverSame(picks, f, A.One<seq<nat>>());
    }
    pick :| pick in picks && f(pick) != 1.0;
    PicksListed(pick, |batches|);
  }

  lemma MissMeansBelowOne(batches: seq<Batch>, pick: seq<nat>)
    requires Picks(pick, |batches|) && ChosenReaches(AllOptions(batches), Total(batches))(pick) == 0.0
    ensures ExactShare(batches) < 1.0
  {
    hide ExactShare, AllPicks, AllOptions, Chosen, Total;
    var f, picks := ChosenReaches(AllOptions(batches), Total(batches)), AllPicks(|batches|);
    PicksListed(pick, |batches|);
    PicksShare(batches, f, picks);
    SumStrictlyLess(picks, f, A.One<seq<nat>>(), pick);
    A.CountIsSum(picks);
  }

  /** Some stream of draws makes the sampled p 0 exactly when the exact p is below 1. */
  lemma SomeStreamGivesZero(batches: seq<Batch>)
    ensures (exists draws :: NullStream(draws, |batches|) && SampledShare(batches, draws) == 0.0)
       <==> ExactShare(batches) < 1.0
  {
    if draws :| NullStream(draws, |batches|) && SampledShare(batches, draws) == 0.0 {
      NoDrawNoP(batches, draws);
      assert draws[0] in draws;
      MissMeansBelowOne(batches, draws[0]);
    }
    if ExactShare(batches) < 1.0 {
      var pick := SomePickMisses(batches);
      NoDrawNoP(batches, [pick]);
      assert NullStream([pick], |batches|);
    }
  }

  /** The exact p of two against two counts the observed labelling: it is at least 1 in 6^n, so a sampled p
      of 0 undercuts it. */
  lemma ExactShareAtLeast(batches: seq<Batch>, options: nat)
    requires Twos(batches) && options == Pow(6, |batches|)
    ensures options > 0 && ExactShare(batches) >= 1.0 / options as real > 0.0
  {
    hide Product, AllOptions, Pow;
    SixesOf(batches);
    OptionsCount(AllOptions(batches));
    ObservedReaches(batches);
    AtLeastOneShare(SumOver(Product(AllOptions(batches)), Reaches(Total(batches))), options as real);
  }

  lemma AtLeastOneShare(x: real, n: real)
    requires x >= 1.0 && n > 0.0
    ensures x / n >= 1.0 / n > 0.0
  {
    QuotientOrder(1.0, x, n);
  }

  lemma ObservedReaches(batches: seq<Batch>)
    requires Twos(batches)
    ensures |Product(AllOptions(batches))| > 0 && SumOver(Product(AllOptions(batches)), Reaches(Total(batches))) >= 1.0
  {
    hide Product, AllOptions, AllRelabellings;
    AllOptionsAreRelabellings(batches);
    ObservedArrangement(batches);
    assert Reaches(Total(batches))(Arrangements(batches)[0]) == 1.0;
    A.IndicatorBounds(Product(AllOptions(batches)), Reaches(Total(batches)));
  }

  lemma {:induction false} OptionsCount(per: seq<seq<Batch>>)
    requires Sixes(per)
    ensures |Product(per)| == Pow(6, |per|)
  {
    if per != [] {
      OptionsCount(per[1..]);
      OuterCount(per[0], Product(per[1..]));
    }
  }
}
