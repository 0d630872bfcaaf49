/** When benchmarks/arm_power.py's exact p is as small as it can be: exactly when, in every batch, every
    treated score beats every control score. */
module LeastShare {
  import opened Folds
  import opened Products
  import opened Relabelling
  import opened RaisedScores
  import opened ArmPower
  import opened PowerSampling
  import opened TreatedSizes
  import A = ArmReadout

  /** Every treated score beats every control score. */
  predicate Apart(b: Batch) {
    forall i, j :: 0 <= i < |b.treat| && 0 <= j < |b.control| ==> b.control[j] < b.treat[i]
  }

  // ---- the six options of two against two ----

  lemma PairArranged(pool: seq<real>, idx: seq<nat>, i: nat, j: nat, k: nat, l: nat)
    requires |pool| == 4 && idx == [i, j] && i < j < 4 && k < l < 4 && {i, j, k, l} == {0, 1, 2, 3}
    ensures Within(idx, 0, 4) && Arrange(pool, idx) == Batch([pool[i], pool[j]], [pool[k], pool[l]])
  {
    assert idx[1..] == [j] && [j][1..] == [];
    assert Picked(pool, [j]) == [pool[j]];
    PairLeft(pool, idx, i, j, k, l);
  }

  lemma PairLeft(pool: seq<real>, idx: seq<nat>, i: nat, j: nat, k: nat, l: nat)
    requires |pool| == 4 && idx == [i, j] && i < j < 4 && k < l < 4 && {i, j, k, l} == {0, 1, 2, 3}
    ensures Left(pool, idx, 0) == [pool[k], pool[l]]
  {
    assert forall m :: m in idx <==> m == i || m == j;
    assert 0 in {i, j, k, l} && 1 in {i, j, k, l} && 2 in {i, j, k, l} && 3 in {i, j, k, l};
    assert Left(pool, idx, 4) == [];
    assert Left(pool, idx, 3) == if 3 in idx then [] else [pool[3]];
    assert Left(pool, idx, 2) == (if 2 in idx then [] else [pool[2]]) + Left(pool, idx, 3);
    assert Left(pool, idx, 1) == (if 1 in idx then [] else [pool[1]]) + Left(pool, idx, 2);
  }

  lemma SixOptionsAre(b: Batch, p: seq<real>)
    requires |b.treat| == 2 && |b.control| == 2 && p == b.Pool()
    ensures Options(b) == [Batch([p[0], p[1]], [p[2], p[3]]), Batch([p[0], p[2]], [p[1], p[3]]),
                           Batch([p[0], p[3]], [p[1], p[2]]), Batch([p[1], p[2]], [p[0], p[3]]),
                           Batch([p[1], p[3]], [p[0], p[2]]), Batch([p[2], p[3]], [p[0], p[1]])]
  {
    hide Combinations, Arrange;
    SixPairs();
    var c := Combinations(0, 4, 2);
    PairArranged(p, c[0], 0, 1, 2, 3);
    PairArranged(p, c[1], 0, 2, 1, 3);
    PairArranged(p, c[2], 0, 3, 1, 2);
    PairArranged(p, c[3], 1, 2, 0, 3);
    PairArranged(p, c[4], 1, 3, 0, 2);
    PairArranged(p, c[5], 2, 3, 0, 1);
  }

  lemma PairDiff(x: real, y: real, z: real, w: real)
    ensures Batch([x, y], [z, w]).Diff() == (x + y - z - w) / 2.0
  {
    SumOfPair([x, y], x, y);
    SumOfPair([z, w], z, w);
  }

  lemma SumOfPair(xs: seq<real>, x: real, y: real)
    requires xs == [x, y]
    ensures Sum(xs) == x + y
  {
    var tail := xs[1..];
    assert tail == [y] && tail[1..] == [];
    assert Sum(tail) == tail[0] + Sum(tail[1..]);
    assert Sum(xs) == xs[0] + Sum(tail);
  }

  /** The observed option is the first, and it is the only one to reach itself exactly when the arms are apart. */
  lemma OptionsBelow(b: Batch)
    requires |b.treat| == 2 && |b.control| == 2
    ensures |Options(b)| == 6 && Options(b)[0].Diff() == b.Diff()
    ensures Apart(b) <==> forall m :: 0 < m < 6 ==> Options(b)[m].Diff() < b.Diff()
  {
    hide Options, Mean;
    var p, o := b.Pool(), Options(b);
    OptionDiffs(b, p);
    assert b.treat == [p[0], p[1]] && b.control == [p[2], p[3]];
    assert Apart(b) <==> p[2] < p[0] && p[3] < p[0] && p[2] < p[1] && p[3] < p[1];
    assert (forall m :: 0 < m < 6 ==> o[m].Diff() < b.Diff()) <==>
      o[1].Diff() < b.Diff() && o[2].Diff() < b.Diff() && o[3].Diff() < b.Diff() && o[4].Diff() < b.Diff()
      && o[5].Diff() < b.Diff();
  }

  // ---- how many combinations reach the observed one ----

  /** The first option of each batch is worth as much as the batch. */
  predicate FirstIsObserved(per: seq<seq<Batch>>, batches: seq<Batch>) {
    |per| == |batches| && forall j :: 0 <= j < |per| ==> per[j] != [] && per[j][0].Diff() == batches[j].Diff()
  }

  function ByHead(tails: seq<seq<Batch>>, obs: real): Batch -> real {
    (x: Batch) => SumOver(tails, WithHead(Reaches(obs), x))
  }

  lemma HeadFirst(per: seq<seq<Batch>>, obs: real)
    requires per != [] && per[0] != []
    ensures var h := ByHead(Product(per[1..]), obs);
      SumOver(Product(per), Reaches(obs)) == h(per[0][0]) + SumOver(per[0][1..], h)
  {
    SumOverOuter(per[0], Product(per[1..]), Reaches(obs), ByHead(Product(per[1..]), obs));
  }

  /** With the observed option in front, the rest has to reach the rest. */
  lemma ObservedHead(per: seq<seq<Batch>>, batches: seq<Batch>)
    requires FirstIsObserved(per, batches) && per != []
    ensures ByHead(Product(per[1..]), Total(batches))(per[0][0])
         == SumOver(Product(per[1..]), Reaches(Total(batches[1..])))
  {
    var tails, f, g := Product(per[1..]), WithHead(Reaches(Total(batches)), per[0][0]), Reaches(Total(batches[1..]));
    forall t | t in tails ensures f(t) == g(t) {
      TotalCons(per[0][0], t);
    }
    SumOverSame(tails, f, g);
  }

  lemma {:induction false} OneReaches(per: seq<seq<Batch>>, batches: seq<Batch>)
    requires FirstIsObserved(per, batches)
    requires forall j, m :: 0 <= j < |per| && 0 < m < |per[j]| ==> per[j][m].Diff() < batches[j].Diff()
    ensures SumOver(Product(per), Reaches(Total(batches))) == 1.0
    decreases |per|
  {
    if per == [] {
      EmptyReaches(batches);
    } else {
      var h := ByHead(Product(per[1..]), Total(batches));
      HeadFirst(per, Total(batches));
      ObservedHead(per, batches);
      OneReaches(per[1..], batches[1..]);
      forall x | x in per[0][1..] ensures h(x) == 0.0 {
        SmallHead(per, batches, x);
      }
      SumOverZero(per[0][1..], h);
    }
  }

  lemma SmallHead(per: seq<seq<Batch>>, batches: seq<Batch>, x: Batch)
    requires FirstIsObserved(per, batches) && per != [] && x.Diff() < batches[0].Diff()
    requires forall j, m :: 0 <= j < |per| && 0 < m < |per[j]| ==> per[j][m].Diff() < batches[j].Diff()
    ensures ByHead(Product(per[1..]), Total(batches))(x) == 0.0
  {
    var tails := Product(per[1..]);
    forall t | t in tails ensures WithHead(Reaches(Total(batches)), x)(t) == 0.0 {
      NoneReaches(per[1..], batches[1..], -1, t);
      TotalCons(x, t);
    }
    SumOverZero(tails, WithHead(Reaches(Total(batches)), x));
  }

  lemma EmptyReaches(batches: seq<Batch>)
    requires batches == []
    ensures SumOver(Product([]), Reaches(Total(batches))) == 1.0
  {
    var one: seq<seq<Batch>> := [[]];
    assert Product<Batch>([]) == one && one[1..] == [];
    assert SumOver(one, Reaches(0.0)) == Reaches(0.0)(one[0]) + SumOver(one[1..], Reaches(0.0));
  }

  lemma HeadsNonnegative(per: seq<seq<Batch>>, obs: real, xs: seq<Batch>)
    requires per != []
    ensures forall x :: x in xs ==> ByHead(Product(per[1..]), obs)(x) >= 0.0
  {
    forall x | x in xs ensures ByHead(Product(per[1..]), obs)(x) >= 0.0 {
      A.IndicatorBounds(Product(per[1..]), WithHead(Reaches(obs), x));
    }
  }

  lemma {:induction false} SumAtLeast<T>(s: seq<T>, f: T -> real, m: nat)
    requires m < |s| && forall x :: x in s ==> f(x) >= 0.0
    ensures SumOver(s, f) >= f(s[m])
  {
    if m > 0 {
      SumAtLeast(s[1..], f, m - 1);
    } else {
      SumNonnegative(s[1..], f);
    }
  }

  lemma {:induction false} SumNonnegative<T>(s: seq<T>, f: T -> real)
    requires forall x :: x in s ==> f(x) >= 0.0
    ensures SumOver(s, f) >= 0.0
  {
    if s != [] {
      SumNonnegative(s[1..], f);
    }
  }

  lemma {:induction false} SomeReaches(per: seq<seq<Batch>>, batches: seq<Batch>)
    requires FirstIsObserved(per, batches)
    ensures SumOver(Product(per), Reaches(Total(batches))) >= 1.0
    decreases |per|
  {
    if per == [] {
      EmptyReaches(batches);
    } else {
      HeadFirst(per, Total(batches));
      ObservedHead(per, batches);
      SomeReaches(per[1..], batches[1..]);
      HeadsNonnegative(per, Total(batches), per[0][1..]);
      SumNonnegative(per[0][1..], ByHead(Product(per[1..]), Total(batches)));
    }
  }

  /** Another option that reaches its batch gives another combination that reaches the total. */
  lemma {:induction false} TwoReach(per: seq<seq<Batch>>, batches: seq<Batch>, i: nat, m: nat)
    requires FirstIsObserved(per, batches) && i < |per| && 0 < m < |per[i]| && per[i][m].Diff() >= batches[i].Diff()
    ensures SumOver(Product(per), Reaches(Total(batches))) >= 2.0
    decreases |per|
  {
    var h, rest := ByHead(Product(per[1..]), Total(batches)), per[0][1..];
    HeadFirst(per, Total(batches));
    ObservedHead(per, batches);
    HeadsNonnegative(per, Total(batches), rest);
    if i == 0 {
      SomeReaches(per[1..], batches[1..]);
      LargeHead(per, batches, per[0][m]);
      assert rest[m - 1] == per[0][m];
      SumAtLeast(rest, h, m - 1);
    } else {
      TwoReach(per[1..], batches[1..], i - 1, m);
      SumNonnegative(rest, h);
    }
  }

  lemma LargeHead(per: seq<seq<Batch>>, batches: seq<Batch>, x: Batch)
    requires FirstIsObserved(per, batches) && per != [] && x.Diff() >= batches[0].Diff()
    ensures ByHead(Product(per[1..]), Total(batches))(x) >= 1.0
  {
    var tails, f, g := Product(per[1..]), WithHead(Reaches(Total(batches)), x), Reaches(Total(batches[1..]));
    forall t | t in tails ensures g(t) <= f(t) {
      TotalCons(x, t);
    }
    SumOverAtMost(tails, g, f);
    SomeReaches(per[1..], batches[1..]);
  }

  // ---- the p ----

  lemma ShareOfOne(x: real, n: real)
    requires n > 0.0
    ensures x / n == 1.0 / n <==> x == 1.0
  {
    if x > 1.0 {
      StrictQuotient(1.0, x, n);
    } else if x < 1.0 {
      StrictQuotient(x, 1.0, n);
    }
  }

  /** The exact p of two against two is 1 in 6^n exactly when every batch has its arms apart. */
  lemma LeastMeansApart(batches: seq<Batch>, options: nat)
    requires Twos(batches) && options == Pow(6, |batches|)
    ensures options > 0
    ensures ExactShare(batches) == 1.0 / options as real <==> forall j :: 0 <= j < |batches| ==> Apart(batches[j])
  {
    hide Product, Options, Pow, Apart, Reaches, Total;
    var per: seq<seq<Batch>> := AllOptions(batches);
    forall j | 0 <= j < |batches|
      ensures |per[j]| == 6 && per[j][0].Diff() == batches[j].Diff()
      ensures Apart(batches[j]) <==> forall m :: 0 < m < 6 ==> per[j][m].Diff() < batches[j].Diff()
    {
      OptionsBelow(batches[j]);
    }
    OptionsCount(per);
    OptionsNonempty(batches);
    ShareOfOne(SumOver(Product(per), Reaches(Total(batches))), options as real);
    if forall j :: 0 <= j < |batches| ==> Apart(batches[j]) {
      OneReaches(per, batches);
    } else {
      var i :| 0 <= i < |batches| && !Apart(batches[i]);
      var m :| 0 < m < 6 && !(per[i][m].Diff() < batches[i].Diff());
      TwoReach(per, batches, i, m);
    }
  }

  // ---- lowering the control scores ----

  /** b' is b with each control score lowered by something, possibly nothing. */
  predicate LoweredBatch(b': Batch, b: Batch) {
    b'.treat == b.treat && |b'.control| == |b.control|
    && forall i :: 0 <= i < |b.control| ==> b'.control[i] <= b.control[i]
  }

  predicate Lowered(after: seq<Batch>, before: seq<Batch>) {
    |after| == |before| && forall i :: 0 <= i < |before| ==> LoweredBatch(after[i], before[i])
  }

  lemma LoweredOptions(b': Batch, b: Batch, m: nat)
    requires LoweredBatch(b', b) && |b.treat| == 2 && |b.control| == 2 && m < 6
    ensures |Options(b')| == 6 == |Options(b)|
    ensures Options(b')[m].Diff() - Options(b)[m].Diff() <= b'.Diff() - b.Diff()
  {
    hide Options, Mean;
    OptionDiffs(b', b'.Pool());
    OptionDiffs(b, b.Pool());
  }

  lemma OptionDiffs(b: Batch, p: seq<real>)
    requires |b.treat| == 2 && |b.control| == 2 && p == b.Pool()
    ensures |Options(b)| == 6 && b.Diff() == Options(b)[0].Diff() == (p[0] + p[1] - p[2] - p[3]) / 2.0
    ensures Options(b)[1].Diff() == (p[0] + p[2] - p[1] - p[3]) / 2.0
    ensures Options(b)[2].Diff() == (p[0] + p[3] - p[1] - p[2]) / 2.0
    ensures Options(b)[3].Diff() == (p[1] + p[2] - p[0] - p[3]) / 2.0
    ensures Options(b)[4].Diff() == (p[1] + p[3] - p[0] - p[2]) / 2.0
    ensures Options(b)[5].Diff() == (p[2] + p[3] - p[0] - p[1]) / 2.0
  {
    hide Options, Mean;
    SixOptionsAre(b, p);
    assert b == Options(b)[0];
    PairDiff(p[0], p[1], p[2], p[3]);
    PairDiff(p[0], p[2], p[1], p[3]);
    PairDiff(p[0], p[3], p[1], p[2]);
    PairDiff(p[1], p[2], p[0], p[3]);
    PairDiff(p[1], p[3], p[0], p[2]);
    PairDiff(p[2], p[3], p[0], p[1]);
  }

  /** Lowering control scores, two against two, never raises the p. */
  lemma LoweringLowersP(after: seq<Batch>, before: seq<Batch>, draws: seq<seq<nat>>)
    requires Twos(before) && Lowered(after, before) && NullStream(draws, |before|)
    ensures PermutationP(after, draws) <= PermutationP(before, draws)
  {
    hide PermutationP, Options;
    forall i | 0 <= i < |before| ensures |AllOptions(after)[i]| == 6 == |AllOptions(before)[i]| {
      LoweredOptions(after[i], before[i], 0);
    }
    forall i, m | 0 <= i < |before| && 0 <= m < |AllOptions(before)[i]|
      ensures AllOptions(after)[i][m].Diff() - AllOptions(before)[i][m].Diff() <= after[i].Diff() - before[i].Diff()
    {
      LoweredOptions(after[i], before[i], m);
    }
    GainingLowersP(after, before, draws);
  }
}
