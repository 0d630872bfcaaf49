/** For which batch sizes benchmarks/arm_power.py's permutation p never rises when treated scores do: an
    option treats two probes of the first four, so exactly while no batch treats more than two. */
module TreatedSizes {
  import opened Folds
  import opened Products
  import opened Relabelling
  import opened RaisedScores
  import opened ArmPower
  import A = ArmReadout
  import S = StratifiedMoments

  predicate SameSizes(x: seq<Batch>, y: seq<Batch>) {
    |x| == |y|
    && forall i :: 0 <= i < |x| ==> |x[i].treat| == |y[i].treat| && |x[i].control| == |y[i].control|
  }

  /** Raising treated scores in batches of these sizes never raises the p, whatever the draws. */
  ghost predicate NeverRises(sizes: seq<Batch>) {
    forall after, before, draws ::
      SameSizes(before, sizes) && Raised(after, before) && NullStream(draws, |before|)
      ==> PermutationP(after, draws) <= PermutationP(before, draws)
  }

  // ---- the data: one batch whose treated scores are all 1, nothing but zeros elsewhere ----

  function Zeros(b: Batch): Batch { Batch(S.Flat(|b.treat|, 0.0), S.Flat(|b.control|, 0.0)) }
  function Ones(b: Batch): Batch { Batch(S.Flat(|b.treat|, 1.0), S.Flat(|b.control|, 0.0)) }

  /** The first treated score raised to 7. */
  function Lifted(b: Batch): Batch
    requires b.treat != []
  {
    Batch([7.0] + S.Flat(|b.treat| - 1, 1.0), S.Flat(|b.control|, 0.0))
  }

  function Before(sizes: seq<Batch>, i: nat): (r: seq<Batch>)
    ensures |r| == |sizes|
  {
    seq(|sizes|, j requires 0 <= j < |sizes| => if j == i then Ones(sizes[j]) else Zeros(sizes[j]))
  }

  function After(sizes: seq<Batch>, i: nat): seq<Batch>
    requires i < |sizes| && sizes[i].treat != []
  {
    Before(sizes, i)[i := Lifted(sizes[i])]
  }

  // ---- means ----

  lemma {:induction false} SumBounds(xs: seq<real>, hi: real)
    requires hi >= 0.0 && forall x :: x in xs ==> 0.0 <= x <= hi
    ensures 0.0 <= Sum(xs) && Sum(xs) <= Repeat(|xs|, hi)
  {
    if xs != [] {
      assert xs[0] in xs && forall x :: x in xs[1..] ==> x in xs;
      SumBounds(xs[1..], hi);
    }
  }

  lemma MeanBounds(xs: seq<real>, hi: real)
    requires hi >= 0.0 && forall x :: x in xs ==> 0.0 <= x <= hi
    ensures 0.0 <= Mean(xs) <= hi
  {
    SumBounds(xs, hi);
    if xs != [] {
      RepeatIsProduct(|xs|, hi);
      Share(Sum(xs), |xs| as real, hi);
    }
  }

  lemma Share(x: real, n: real, hi: real)
    requires n > 0.0 && 0.0 <= x <= n * hi
    ensures 0.0 <= x / n <= hi
  {
    assert x == (x / n) * n;
    if x / n > hi {
      StrictProduct(n, hi, x / n);
    }
  }

  lemma StrictProduct(n: real, x: real, y: real)
    requires n > 0.0 && x < y
    ensures n * x < n * y
  {
  }

  lemma {:induction false} FlatSum(n: nat, x: real)
    ensures Sum(S.Flat(n, x)) == Repeat(n, x)
  {
    if n > 0 {
      FlatSum(n - 1, x);
      assert S.Flat(n, x)[1..] == S.Flat(n - 1, x);
    }
  }

  lemma SumReordered(xs: seq<real>, ys: seq<real>)
    requires multiset(xs) == multiset(ys)
    ensures Sum(xs) == Sum(ys)
  {
    MeanIsGains(xs, 1);
    MeanIsGains(ys, 1);
    SumOverReordered(xs, ys, Gain(1));
    assert Sum(xs) / 1.0 == Sum(xs) && Sum(ys) / 1.0 == Sum(ys);
  }

  lemma ComesFromPool(s: Batch, pool: seq<real>, k: int, x: real)
    requires DealOf(s, pool, k) && (x in s.treat || x in s.control)
    ensures x in pool
  {
    assert x in s.Pool();
    assert x in multiset(s.Pool());
  }

  // ---- the options of those batches ----

  lemma OptionDeals(b: Batch, m: nat)
    requires |b.Pool()| >= 4 && m < |Options(b)|
    ensures DealOf(Options(b)[m], b.Pool(), 2)
  {
    var j := OptionIsSplit(b, b, m);
    SplitsShape(b.Pool(), 2, j);
  }

  lemma OptionOfZeros(b: Batch, m: nat)
    requires |b.Pool()| >= 4 && m < |Options(Zeros(b))|
    ensures Options(Zeros(b))[m].Diff() == 0.0 == Zeros(b).Diff()
  {
    hide Options, Mean;
    OptionDeals(Zeros(b), m);
    ZerosDealt(b, Options(Zeros(b))[m], 2);
    ZerosDealt(b, Zeros(b), |b.treat|);
  }

  lemma ZerosDealt(b: Batch, o: Batch, k: int)
    requires DealOf(o, Zeros(b).Pool(), k)
    ensures o.Diff() == 0.0
  {
    forall x | x in o.treat || x in o.control ensures x == 0.0 {
      ComesFromPool(o, Zeros(b).Pool(), k, x);
    }
    MeanBounds(o.treat, 0.0);
    MeanBounds(o.control, 0.0);
  }

  lemma OnesDiff(b: Batch)
    requires b.BothArms()
    ensures Ones(b).Diff() == 1.0
  {
    FlatSum(|b.treat|, 1.0);
    RepeatIsProduct(|b.treat|, 1.0);
    SelfQuotient(|b.treat| as real, 1.0);
    MeanBounds(Ones(b).control, 0.0);
  }

  /** An option of three treated ones or more leaves a one in control. */
  lemma OptionOfOnes(b: Batch, m: nat)
    requires b.BothArms() && |b.treat| >= 3 && |b.Pool()| >= 4 && m < |Options(Ones(b))|
    ensures Options(Ones(b))[m].Diff() < 1.0
  {
    var o := Options(Ones(b))[m];
    OptionDeals(Ones(b), m);
    OnesDealt(b, o);
  }

  lemma OnesDealt(b: Batch, o: Batch)
    requires b.BothArms() && |b.treat| >= 3 && DealOf(o, Ones(b).Pool(), 2)
    ensures o.Diff() < 1.0
  {
    var ones := Ones(b);
    forall x | x in o.treat || x in o.control ensures 0.0 <= x <= 1.0 {
      ComesFromPool(o, ones.Pool(), 2, x);
    }
    MeanBounds(o.treat, 1.0);
    SumBounds(o.treat, 1.0);
    assert Repeat(2, 1.0) == 2.0;
    SumReordered(o.Pool(), ones.Pool());
    SumConcat(o.treat, o.control);
    SumConcat(ones.treat, ones.control);
    FlatSum(|b.treat|, 1.0);
    FlatSum(|b.control|, 0.0);
    RepeatZero(|b.control|);
    RepeatIsProduct(|b.treat|, 1.0);
    assert Sum(o.control) >= 1.0;
    PositiveQuotient(Sum(o.control), |o.control| as real);
  }

  lemma PositiveQuotient(x: real, n: real)
    requires x > 0.0 && n > 0.0
    ensures x / n > 0.0
  {
  }

  lemma FirstTwo(pool: seq<real>, idx: seq<nat>)
    requires |pool| >= 4 && idx == [0, 1]
    ensures Arrange(pool, idx) == Batch([pool[0], pool[1]], pool[2..])
  {
    LeftOfFirstTwo(pool, idx);
    assert idx[1..] == [1] && [1][1..] == [];
    assert Picked(pool, [1]) == [pool[1]];
  }

  lemma LeftOfFirstTwo(pool: seq<real>, idx: seq<nat>)
    requires |pool| >= 4 && idx == [0, 1]
    ensures Left(pool, idx, 0) == pool[2..]
  {
    assert Left(pool, idx, 0) == Left(pool, idx, 1) == Left(pool, idx, 2);
    hide Left;
    assert idx == [0] + [1] && [1] == [1] + [];
    LeftSkips(pool, 0, [1], 2);
    LeftSkips(pool, 1, [], 2);
    LeftAll(pool, 2);
  }

  lemma FirstOption(b: Batch)
    requires |b.Pool()| >= 4
    ensures |Options(b)| == 6 && Options(b)[0] == Batch([b.Pool()[0], b.Pool()[1]], b.Pool()[2..])
  {
    hide Combinations, Arrange;
    SixPairs();
    FirstTwo(b.Pool(), Combinations(0, 4, 2)[0]);
  }

  lemma LiftedOption(b: Batch)
    requires b.BothArms() && |b.treat| >= 3 && |b.Pool()| >= 4
    ensures |Options(Lifted(b))| == 6 && Options(Lifted(b))[0].Diff() >= Lifted(b).Diff()
  {
    hide Options, Mean;
    var l := Lifted(b);
    FirstOption(l);
    assert l.Pool()[0] == 7.0 && l.Pool()[1] == 1.0;
    SevenAndOne();
    MeanBounds(l.Pool()[2..], 1.0);
    LiftedDiff(b);
  }

  lemma SevenAndOne()
    ensures Mean([7.0, 1.0]) == 4.0
  {
    assert Sum([7.0, 1.0]) == 7.0 + Sum([1.0]);
    assert Sum([1.0]) == 1.0;
  }

  lemma LiftedDiff(b: Batch)
    requires b.BothArms() && |b.treat| >= 3
    ensures Lifted(b).Diff() <= 3.0
  {
    var n, l := |b.treat|, Lifted(b);
    assert l.treat[1..] == S.Flat(n - 1, 1.0);
    FlatSum(n - 1, 1.0);
    RepeatIsProduct(n - 1, 1.0);
    MeanBounds(l.control, 0.0);
    assert Sum(l.treat) == (n + 6) as real;
    Share((n + 6) as real, n as real, 3.0);
  }

  // ---- all batches ----

  /** If no option beats its batch, and none of batch i's reaches it, no combination reaches the total. */
  lemma {:induction false} NoneReaches(per: seq<seq<Batch>>, batches: seq<Batch>, i: int, arr: seq<Batch>)
    requires |per| == |batches| && i < |per| && arr in Product(per)
    requires forall j, m :: 0 <= j < |per| && 0 <= m < |per[j]| ==> per[j][m].Diff() <= batches[j].Diff()
    requires 0 <= i ==> forall m :: 0 <= m < |per[i]| ==> per[i][m].Diff() < batches[i].Diff()
    ensures Total(arr) <= Total(batches) && (0 <= i ==> Total(arr) < Total(batches))
    decreases |per|
  {
    if per != [] {
      OuterHas(per[0], Product(per[1..]), arr);
      var m :| 0 <= m < |per[0]| && per[0][m] == arr[0];
      NoneReaches(per[1..], batches[1..], if i > 0 then i - 1 else -1, arr[1..]);
    }
  }

  function FirstOf(n: nat): (r: seq<nat>)
    ensures |r| == n && forall j :: 0 <= j < n ==> r[j] == 0
  {
    seq(n, j => 0)
  }

  lemma {:induction false} FirstReaches(per: seq<seq<Batch>>, batches: seq<Batch>)
    requires |per| == |batches| && forall j :: 0 <= j < |per| ==> |per[j]| > 0 && per[j][0].Diff() >= batches[j].Diff()
    ensures Chosen(per, FirstOf(|per|)) in Product(per)
    ensures Total(Chosen(per, FirstOf(|per|))) >= Total(batches)
    decreases |per|
  {
    if per != [] {
      FirstReaches(per[1..], batches[1..]);
      assert FirstOf(|per|)[1..] == FirstOf(|per[1..]|);
      var rest := Chosen(per[1..], FirstOf(|per[1..]|));
      TotalCons(per[0][0], rest);
      OuterHas(per[0], Product(per[1..]), [per[0][0]] + rest);
    }
  }

  lemma {:induction false} ChosenIsListed(per: seq<seq<Batch>>, pick: seq<nat>)
    requires |pick| == |per| && forall j :: 0 <= j < |per| ==> pick[j] < |per[j]|
    ensures Chosen(per, pick) in Product(per)
    decreases |per|
  {
    if per != [] {
      ChosenIsListed(per[1..], pick[1..]);
      OuterHas(per[0], Product(per[1..]), Chosen(per, pick));
    }
  }

  lemma BeforeOptions(sizes: seq<Batch>, i: nat)
    requires Fours(sizes) && i < |sizes| && |sizes[i].treat| >= 3
    ensures var per: seq<seq<Batch>>, batches: seq<Batch> := AllOptions(Before(sizes, i)), Before(sizes, i);
      && (forall j, m :: 0 <= j < |per| && 0 <= m < |per[j]| ==> per[j][m].Diff() <= batches[j].Diff())
      && (forall m :: 0 <= m < |per[i]| ==> per[i][m].Diff() < batches[i].Diff())
  {
    var per: seq<seq<Batch>>, batches: seq<Batch> := AllOptions(Before(sizes, i)), Before(sizes, i);
    forall j, m | 0 <= j < |per| && 0 <= m < |per[j]|
      ensures per[j][m].Diff() <= batches[j].Diff() && (j == i ==> per[j][m].Diff() < batches[j].Diff())
    {
      if j == i {
        OptionOfOnes(sizes[j], m);
        OnesDiff(sizes[j]);
      } else {
        OptionOfZeros(sizes[j], m);
      }
    }
  }

  lemma AfterOptions(sizes: seq<Batch>, i: nat)
    requires Fours(sizes) && i < |sizes| && |sizes[i].treat| >= 3
    ensures var per: seq<seq<Batch>>, batches: seq<Batch> := AllOptions(After(sizes, i)), After(sizes, i);
      forall j :: 0 <= j < |per| ==> |per[j]| > 0 && per[j][0].Diff() >= batches[j].Diff()
  {
    var per: seq<seq<Batch>>, batches: seq<Batch> := AllOptions(After(sizes, i)), After(sizes, i);
    forall j | 0 <= j < |per| ensures |per[j]| > 0 && per[j][0].Diff() >= batches[j].Diff() {
      if j == i {
        LiftedOption(sizes[j]);
      } else {
        SixOptions(Zeros(sizes[j]));
        OptionOfZeros(sizes[j], 0);
      }
    }
  }

  lemma PicksOptions(batches: seq<Batch>, pick: seq<nat>)
    requires Picks(pick, |batches|)
    ensures forall j :: 0 <= j < |batches| ==> pick[j] < |AllOptions(batches)[j]|
  {
    forall j | 0 <= j < |batches| ensures pick[j] < |AllOptions(batches)[j]| {
      SixOptions(batches[j]);
    }
  }

  lemma BeforeExact(sizes: seq<Batch>, i: nat)
    requires Fours(sizes) && i < |sizes| && |sizes[i].treat| >= 3
    ensures ExactShare(Before(sizes, i)) == 0.0
  {
    hide Product, Options, Total, Before;
    var before := Before(sizes, i);
    var per := AllOptions(before);
    BeforeOptions(sizes, i);
    forall arr | arr in Product(per) ensures Reaches(Total(before))(arr) == 0.0 {
      NoneReaches(per, before, i, arr);
    }
    SumOverZero(Product(per), Reaches(Total(before)));
    OptionsNonempty(before);
    NoQuotient(SumOver(Product(per), Reaches(Total(before))), |Product(per)| as real);
  }

  lemma BeforeSampled(sizes: seq<Batch>, i: nat, draws: seq<seq<nat>>)
    requires Fours(sizes) && i < |sizes| && |sizes[i].treat| >= 3 && NullStream(draws, |sizes|)
    ensures SampledShare(Before(sizes, i), draws) == 0.0
  {
    hide Product, Options, Total, Before, Chosen;
    var before := Before(sizes, i);
    var per := AllOptions(before);
    BeforeOptions(sizes, i);
    forall d | d in draws ensures ChosenReaches(per, Total(before))(d) == 0.0 {
      PicksOptions(before, d);
      ChosenIsListed(per, d);
      NoneReaches(per, before, i, Chosen(per, d));
    }
    SumOverZero(draws, ChosenReaches(per, Total(before)));
    NoQuotient(SumOver(draws, ChosenReaches(per, Total(before))), |draws| as real);
  }

  lemma NoQuotient(x: real, n: real)
    requires x == 0.0 && n > 0.0
    ensures x / n == 0.0
  {
  }

  /** Three treated ones against zeros: no option reaches them, and the p is 0. */
  lemma BeforeP(sizes: seq<Batch>, i: nat, draws: seq<seq<nat>>)
    requires Fours(sizes) && i < |sizes| && |sizes[i].treat| >= 3 && NullStream(draws, |sizes|)
    ensures PermutationP(Before(sizes, i), draws) == 0.0
  {
    BeforeExact(sizes, i);
    BeforeSampled(sizes, i, draws);
  }

  /** Raise the first of them to 7, and the option that treats it with another one reaches them. */
  lemma AfterP(sizes: seq<Batch>, i: nat, draws: seq<seq<nat>>)
    requires Fours(sizes) && i < |sizes| && |sizes[i].treat| >= 3 && draws == [FirstOf(|sizes|)]
    ensures PermutationP(After(sizes, i), draws) > 0.0
  {
    hide Product, Options, Chosen, Total;
    var after := After(sizes, i);
    var per := AllOptions(after);
    AfterOptions(sizes, i);
    FirstReaches(per, after);
    A.IndicatorBounds(Product(per), Reaches(Total(after)));
    A.IndicatorBounds(draws, ChosenReaches(per, Total(after)));
    OptionsNonempty(after);
    assert Reaches(Total(after))(Chosen(per, FirstOf(|per|))) == 1.0;
    assert draws[0] in draws && ChosenReaches(per, Total(after))(draws[0]) == 1.0;
    PositiveQuotient(SumOver(Product(per), Reaches(Total(after))), |Product(per)| as real);
    PositiveQuotient(SumOver(draws, ChosenReaches(per, Total(after))), |draws| as real);
  }

  lemma PRises(sizes: seq<Batch>, i: nat, draws: seq<seq<nat>>)
    requires Fours(sizes) && i < |sizes| && |sizes[i].treat| >= 3 && draws == [FirstOf(|sizes|)]
    ensures var before, after := Before(sizes, i), After(sizes, i);
      && SameSizes(before, sizes) && Raised(after, before) && NullStream(draws, |before|)
      && PermutationP(after, draws) > PermutationP(before, draws)
  {
    hide PermutationP;
    assert Picks(FirstOf(|sizes|), |sizes|);
    BeforeP(sizes, i, draws);
    AfterP(sizes, i, draws);
  }

  /** The p never rises with treated scores exactly when no batch treats more than two. */
  lemma NeverRisesMeansFewTreated(sizes: seq<Batch>)
    requires Fours(sizes)
    ensures NeverRises(sizes) <==> FewTreated(sizes)
  {
    hide PermutationP, Before, After;
    if FewTreated(sizes) {
      forall after, before, draws |
        SameSizes(before, sizes) && Raised(after, before) && NullStream(draws, |before|)
        ensures PermutationP(after, draws) <= PermutationP(before, draws)
      {
        SizesOf(before, sizes);
        RaisingLowersP(after, before, draws);
      }
    } else {
      var i :| 0 <= i < |sizes| && |sizes[i].treat| > 2;
      PRises(sizes, i, [FirstOf(|sizes|)]);
    }
  }

  lemma SizesOf(before: seq<Batch>, sizes: seq<Batch>)
    requires SameSizes(before, sizes) && Fours(sizes) && FewTreated(sizes)
    ensures Fours(before) && FewTreated(before)
  {
  }
}
