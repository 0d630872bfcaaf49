/** Where a success is worth more in one batch than in another, some 0/1 data make the convolution of
    stratified_arm and the enumeration of arm_readout disagree. */
module UnevenSlopes {
  import opened Folds
  import opened Binomials
  import opened Products
  import R = Relabelling
  import opened BinaryOutcomes
  import A = ArmReadout
  import opened StratifiedArm
  import opened StratifiedLaws
  import opened StratifiedMoments
  import opened SuccessCounts
  import opened Agreement

  // ---- arrangements chosen batch by batch ----

  lemma {:induction false} ProductHas<T>(per: seq<seq<T>>, t: seq<T>)
    requires |t| == |per| && forall k :: 0 <= k < |per| ==> t[k] in per[k]
    ensures t in Product(per)
  {
    if per == [] {
      assert t == [];
    } else {
      ProductHas(per[1..], t[1..]);
      OuterHas(per[0], Product(per[1..]), t);
    }
  }

  lemma ItselfRelabels(b: R.Batch)
    ensures b in R.Relabellings(b)
  {
    R.ObservedFirst(b.treat, b.control);
    assert R.Relabellings(b)[0] == b;
  }

  /** Two batches relabelled and the rest left as they are is one of the arrangements. */
  lemma TwoRelabelled(batches: seq<R.Batch>, i: nat, j: nat, x: R.Batch, y: R.Batch)
    requires i < |batches| && j < |batches| && i != j
    requires x in R.Relabellings(batches[i]) && y in R.Relabellings(batches[j])
    ensures batches[i := x][j := y] in R.Arrangements(batches)
  {
    var arr := batches[i := x][j := y];
    R.RelabellingsAt(batches, i);
    forall k | 0 <= k < |batches| ensures arr[k] in R.AllRelabellings(batches)[k] {
      R.RelabellingsAt(batches, k);
      ItselfRelabels(batches[k]);
    }
    ProductHas(R.AllRelabellings(batches), arr);
  }

  lemma SomeSplit(pool: seq<real>, k: nat)
    requires k <= |pool|
    ensures |R.Splits(pool, k)| > 0
  {
    R.SplitsCount(pool, k);
    CombPositive(|pool|, k);
  }

  /** Any one score can be dealt to treatment when treatment takes any. */
  lemma {:induction false} SplitTaking(pool: seq<real>, k: nat, p: nat) returns (m: nat)
    requires 1 <= k <= |pool| && p < |pool|
    ensures m < |R.Splits(pool, k)| && pool[p] in R.Splits(pool, k)[m].treat
  {
    var rest := pool[1..];
    assert pool == [pool[0]] + rest;
    if p == 0 {
      SomeSplit(rest, k - 1);
      m := 0;
      R.SplitsSooner(pool[0], rest, k, 0);
    } else if k <= |rest| {
      var j := SplitTaking(rest, k, p - 1);
      m := |R.Splits(rest, k - 1)| + j;
      R.SplitsLater(pool[0], rest, k, m, j);
    } else {
      m := SplitTaking(rest, k - 1, p - 1);
      R.SplitsSooner(pool[0], rest, k, m);
    }
  }

  /** And to control when control takes any. */
  lemma {:induction false} SplitLeaving(pool: seq<real>, k: nat, p: nat) returns (m: nat)
    requires k < |pool| && p < |pool|
    ensures m < |R.Splits(pool, k)| && pool[p] in R.Splits(pool, k)[m].control
  {
    var rest := pool[1..];
    assert pool == [pool[0]] + rest;
    if p == 0 {
      SomeSplit(rest, k);
      m := |R.Splits(rest, k - 1)|;
      R.SplitsLater(pool[0], rest, k, m, 0);
    } else if k < |rest| {
      var j := SplitLeaving(rest, k, p - 1);
      m := |R.Splits(rest, k - 1)| + j;
      R.SplitsLater(pool[0], rest, k, m, j);
    } else {
      m := SplitLeaving(rest, k - 1, p - 1);
      R.SplitsSooner(pool[0], rest, k, m);
    }
  }

  // ---- sums with two terms ----

  lemma {:induction false} OneTerm<T>(s: seq<T>, f: T -> real, i: nat)
    requires i < |s| && forall k :: 0 <= k < |s| && k != i ==> f(s[k]) == 0.0
    ensures SumOver(s, f) == f(s[i])
  {
    if i == 0 {
      SumOverZero(s[1..], f);
    } else {
      assert forall k :: 0 <= k < |s[1..]| ==> s[1..][k] == s[k + 1];
      OneTerm(s[1..], f, i - 1);
    }
  }

  lemma {:induction false} TwoTerms<T>(s: seq<T>, f: T -> real, i: nat, j: nat)
    requires i < |s| && j < |s| && i != j && forall k :: 0 <= k < |s| && k != i && k != j ==> f(s[k]) == 0.0
    ensures SumOver(s, f) == f(s[i]) + f(s[j])
  {
    assert forall k :: 0 <= k < |s[1..]| ==> s[1..][k] == s[k + 1];
    if i == 0 {
      OneTerm(s[1..], f, j - 1);
    } else if j == 0 {
      OneTerm(s[1..], f, i - 1);
    } else {
      TwoTerms(s[1..], f, i - 1, j - 1);
    }
  }

  function OnesOf(): R.Batch -> real { (b: R.Batch) => Ones(b.treat) as real }

  lemma {:induction false} TreatedIsSum(arr: seq<R.Batch>)
    ensures Treated(arr) as real == SumOver(arr, OnesOf())
  {
    if arr != [] {
      TreatedIsSum(arr[1..]);
    }
  }

  // ---- the data ----

  /** One control success in the batch of the flatter slope, one treated success in the steeper, no other. */
  function OneEach(sh: Shape, flat: bool, steep: bool): R.Batch
    requires sh.Arms()
  {
    R.Batch((if steep then [1.0] else [0.0]) + Flat(sh.n1 - 1, 0.0),
            (if flat then [1.0] else [0.0]) + Flat(sh.n2 - 1, 0.0))
  }

  function Data(shapes: seq<Shape>, i: nat, j: nat): (r: seq<R.Batch>)
    requires Arms(shapes)
    ensures |r| == |shapes| && forall k :: 0 <= k < |r| ==> r[k] == OneEach(shapes[k], k == i, k == j)
  {
    seq(|shapes|, k requires 0 <= k < |shapes| => OneEach(shapes[k], k == i, k == j))
  }

  lemma HeadAndZeros(x: real, n: nat)
    requires x == 0.0 || x == 1.0
    ensures Binary([x] + Flat(n, 0.0)) && Ones([x] + Flat(n, 0.0)) == if x == 1.0 then 1 else 0
  {
    var s := [x] + Flat(n, 0.0);
    OnesFlat(n);
    assert s[1..] == Flat(n, 0.0);
  }

  lemma OneEachCounts(sh: Shape, flat: bool, steep: bool)
    requires sh.Arms()
    ensures var b := OneEach(sh, flat, steep);
      && |b.treat| == sh.n1 && |b.control| == sh.n2 && BinaryBatch(b)
      && Ones(b.treat) == (if steep then 1 else 0) && Ones(b.control) == (if flat then 1 else 0)
      && Ones(b.Pool()) == Ones(b.treat) + Ones(b.control)
  {
    var b := OneEach(sh, flat, steep);
    HeadAndZeros(if steep then 1.0 else 0.0, sh.n1 - 1);
    HeadAndZeros(if flat then 1.0 else 0.0, sh.n2 - 1);
    OnesConcat(b.treat, b.control);
  }

  lemma DataFits(shapes: seq<Shape>, i: nat, j: nat)
    requires Arms(shapes)
    ensures OfShapes(Data(shapes, i, j), shapes) && Comparable(Data(shapes, i, j)) && BinaryData(Data(shapes, i, j))
  {
    forall k | 0 <= k < |shapes| ensures BinaryBatch(Data(shapes, i, j)[k])
      ensures |Data(shapes, i, j)[k].treat| == shapes[k].n1 && |Data(shapes, i, j)[k].control| == shapes[k].n2
    {
      OneEachCounts(shapes[k], k == i, k == j);
    }
  }

  /** In a relabelling of the data, only batches i and j can have a treated success, and each at most one. */
  lemma RelabelledCounts(arr: seq<R.Batch>, shapes: seq<Shape>, i: nat, j: nat, k: nat)
    requires Arms(shapes) && R.Relabels(arr, Data(shapes, i, j)) && k < |shapes| && i != j
    ensures |arr| == |shapes| && ShapeOf(arr[k]) == shapes[k] && arr[k].BothArms() && BinaryBatch(arr[k])
    ensures Ones(arr[k].treat) + Ones(arr[k].control) == if k == i || k == j then 1 else 0
  {
    DataFits(shapes, i, j);
    OneEachCounts(shapes[k], k == i, k == j);
    RelabelledBatch(arr[k], Data(shapes, i, j)[k]);
  }

  lemma TermsOf(arr: seq<R.Batch>, shapes: seq<Shape>, i: nat, j: nat, k: nat)
    requires Arms(shapes) && R.Relabels(arr, Data(shapes, i, j)) && k < |shapes| && i != j
    ensures |arr| == |shapes| && Climb()(arr[k]) == Repeat(Ones(arr[k].treat), shapes[k].Slope())
    ensures k != i && k != j ==> Climb()(arr[k]) == 0.0 && OnesOf()(arr[k]) == 0.0
  {
    RelabelledCounts(arr, shapes, i, j, k);
    FewTimes(shapes[k].Slope());
  }

  lemma TwoClimb(arr: seq<R.Batch>, shapes: seq<Shape>, i: nat, j: nat)
    requires Arms(shapes) && i < |shapes| && j < |shapes| && i != j && R.Relabels(arr, Data(shapes, i, j))
    ensures |arr| == |shapes|
    ensures SumOver(arr, Climb())
      == Repeat(Ones(arr[i].treat), shapes[i].Slope()) + Repeat(Ones(arr[j].treat), shapes[j].Slope())
    ensures Treated(arr) == Ones(arr[i].treat) + Ones(arr[j].treat)
  {
    forall k | 0 <= k < |arr|
      ensures k != i && k != j ==> Climb()(arr[k]) == 0.0 && OnesOf()(arr[k]) == 0.0
    {
      TermsOf(arr, shapes, i, j, k);
    }
    TermsOf(arr, shapes, i, j, i);
    TermsOf(arr, shapes, i, j, j);
    TwoTerms(arr, Climb(), i, j);
    TwoTerms(arr, OnesOf(), i, j);
    TreatedIsSum(arr);
  }

  /** Statistic and success count of a relabelling, from the two batches that matter. */
  lemma TwoBatchesDecide(arr: seq<R.Batch>, shapes: seq<Shape>, i: nat, j: nat)
    requires Arms(shapes) && i < |shapes| && j < |shapes| && i != j && R.Relabels(arr, Data(shapes, i, j))
    ensures |arr| == |shapes| && Comparable(arr)
    ensures Treated(arr) == Ones(arr[i].treat) + Ones(arr[j].treat)
    ensures R.Total(arr)
      == Repeat(Ones(arr[i].treat), shapes[i].Slope()) + Repeat(Ones(arr[j].treat), shapes[j].Slope())
                            + SumOver(Data(shapes, i, j), Base())
  {
    DataFits(shapes, i, j);
    RelabelledBase(arr, Data(shapes, i, j));
    TotalClimbs(arr);
    TwoClimb(arr, shapes, i, j);
  }

  lemma DataRelabels(shapes: seq<Shape>, i: nat, j: nat)
    requires Arms(shapes)
    ensures R.Relabels(Data(shapes, i, j), Data(shapes, i, j))
  {
  }

  lemma DataObserved(shapes: seq<Shape>, i: nat, j: nat)
    requires Arms(shapes) && i < |shapes| && j < |shapes| && i != j
    ensures Treated(Data(shapes, i, j)) == 1
    ensures R.Total(Data(shapes, i, j)) == shapes[j].Slope() + SumOver(Data(shapes, i, j), Base())
  {
    DataRelabels(shapes, i, j);
    TwoBatchesDecide(Data(shapes, i, j), shapes, i, j);
    OneEachCounts(shapes[i], true, false);
    OneEachCounts(shapes[j], false, true);
    FewTimes(shapes[i].Slope());
    FewTimes(shapes[j].Slope());
  }

  lemma FewTimes(x: real)
    ensures Repeat(0, x) == 0.0 && Repeat(1, x) == x
  {
    assert Repeat(1, x) == x + Repeat(0, x);
  }

  /** Whatever reaches the observed statistic has a treated success. */
  lemma ExtremeHasSuccess(arr: seq<R.Batch>, shapes: seq<Shape>, i: nat, j: nat)
    requires Arms(shapes) && i < |shapes| && j < |shapes| && i != j && R.Relabels(arr, Data(shapes, i, j))
    requires R.Total(arr) >= R.Total(Data(shapes, i, j))
    ensures Treated(arr) >= 1
  {
    TwoBatchesDecide(arr, shapes, i, j);
    DataObserved(shapes, i, j);
    SlopeIsGainLessLoss(shapes[j]);
    FewTimes(shapes[i].Slope());
    FewTimes(shapes[j].Slope());
  }

  /** The flatter batch's success treated, the steeper one's not. */
  lemma Crossed(shapes: seq<Shape>, i: nat, j: nat) returns (arr: seq<R.Batch>)
    requires Arms(shapes) && i < |shapes| && j < |shapes| && i != j
    ensures arr in R.Arrangements(Data(shapes, i, j)) && R.Relabels(arr, Data(shapes, i, j))
    ensures |arr| == |shapes| && Ones(arr[i].treat) == 1 && Ones(arr[j].treat) == 0
  {
    hide Ones, R.Arrangements, R.Relabels, R.Splits;
    var data := Data(shapes, i, j);
    var a, b := data[i], data[j];
    OneEachCounts(shapes[i], true, false);
    OneEachCounts(shapes[j], false, true);
    var m := SplitTaking(a.Pool(), |a.treat|, |a.treat|);
    var n := SplitLeaving(b.Pool(), |b.treat|, 0);
    var x, y := R.Relabellings(a)[m], R.Relabellings(b)[n];
    assert a.Pool()[|a.treat|] == 1.0 && b.Pool()[0] == 1.0;
    TwoRelabelled(data, i, j, x, y);
    arr := data[i := x][j := y];
    var t :| 0 <= t < |R.Arrangements(data)| && R.Arrangements(data)[t] == arr;
    R.ArrangementsRelabel(data, t);
    RelabelledCounts(arr, shapes, i, j, i);
    RelabelledCounts(arr, shapes, i, j, j);
    HasOne(x.treat);
    HasOne(y.control);
  }

  lemma {:induction false} HasOne(xs: seq<real>)
    ensures 1.0 in xs ==> Ones(xs) >= 1
  {
    if xs != [] {
      HasOne(xs[1..]);
    }
  }

  /** The convolution counts whatever the enumeration counts. */
  lemma CountedByBoth(arr: seq<R.Batch>, shapes: seq<Shape>, i: nat, j: nat)
    requires Arms(shapes) && i < |shapes| && j < |shapes| && i != j && R.Relabels(arr, Data(shapes, i, j))
    ensures A.At(true, Data(shapes, i, j))(arr) <= BySuccesses(AtLeast(1))(arr)
  {
    if R.Total(arr) >= R.Total(Data(shapes, i, j)) {
      ExtremeHasSuccess(arr, shapes, i, j);
    }
  }

  /** And the crossed relabelling, which the enumeration does not. */
  lemma CountedByOne(arr: seq<R.Batch>, shapes: seq<Shape>, i: nat, j: nat)
    requires Arms(shapes) && i < |shapes| && j < |shapes| && shapes[i].Slope() < shapes[j].Slope()
    requires R.Relabels(arr, Data(shapes, i, j)) && |arr| == |shapes|
    requires Ones(arr[i].treat) == 1 && Ones(arr[j].treat) == 0
    ensures A.At(true, Data(shapes, i, j))(arr) < BySuccesses(AtLeast(1))(arr)
  {
    TwoBatchesDecide(arr, shapes, i, j);
    DataObserved(shapes, i, j);
    FewTimes(shapes[i].Slope());
    FewTimes(shapes[j].Slope());
  }

  lemma CountsDiffer(shapes: seq<Shape>, i: nat, j: nat)
    requires Arms(shapes) && i < |shapes| && j < |shapes| && shapes[i].Slope() < shapes[j].Slope()
    ensures SumOver(R.Arrangements(Data(shapes, i, j)), A.At(true, Data(shapes, i, j)))
          < SumOver(R.Arrangements(Data(shapes, i, j)), BySuccesses(AtLeast(1)))
  {
    var all := R.Arrangements(Data(shapes, i, j));
    forall arr | arr in all ensures A.At(true, Data(shapes, i, j))(arr) <= BySuccesses(AtLeast(1))(arr) {
      var m :| 0 <= m < |all| && all[m] == arr;
      R.ArrangementsRelabel(Data(shapes, i, j), m);
      CountedByBoth(arr, shapes, i, j);
    }
    var arr := Crossed(shapes, i, j);
    CountedByOne(arr, shapes, i, j);
    SumStrictlyLess(all, A.At(true, Data(shapes, i, j)), BySuccesses(AtLeast(1)), arr);
  }

  /** There the convolution counts a relabelling that the enumeration does not. */
  lemma ConvolutionIsLarger(shapes: seq<Shape>, i: nat, j: nat)
    requires Arms(shapes) && i < |shapes| && j < |shapes| && shapes[i].Slope() < shapes[j].Slope()
    ensures OfShapes(Data(shapes, i, j), shapes)
    ensures ConvolvedP(StrataOf(Data(shapes, i, j))) > A.ExactP(Data(shapes, i, j), true)
  {
    DataFits(shapes, i, j);
    DataObserved(shapes, i, j);
    CountsDiffer(shapes, i, j);
    StrictShares(Data(shapes, i, j), |R.Arrangements(Data(shapes, i, j))|);
  }

  lemma StrictShares(data: seq<R.Batch>, space: nat)
    requires BinaryData(data) && space == |R.Arrangements(data)|
    requires SumOver(R.Arrangements(data), A.At(true, data))
           < SumOver(R.Arrangements(data), BySuccesses(AtLeast(Treated(data))))
    ensures ConvolvedP(StrataOf(data)) > A.ExactP(data, true)
  {
    ConvolutionCounts(data, space);
    StrictQuotient(SumOver(R.Arrangements(data), A.At(true, data)),
      SumOver(R.Arrangements(data), BySuccesses(AtLeast(Treated(data)))), space as real);
  }

  /** The two p values agree on every 0/1 data set of these shapes. */
  ghost predicate Agree(shapes: seq<Shape>) {
    forall batches :: OfShapes(batches, shapes) ==> ConvolvedP(StrataOf(batches)) == A.ExactP(batches, true)
  }

  /** They do exactly when 1/n1 + 1/n2 is the same in every batch. */
  lemma AgreeMeansOneSlope(shapes: seq<Shape>)
    requires Arms(shapes)
    ensures Agree(shapes) <==> OneSlope(shapes)
  {
    if OneSlope(shapes) {
      forall batches | OfShapes(batches, shapes)
        ensures ConvolvedP(StrataOf(batches)) == A.ExactP(batches, true)
      {
        ConvolutionIsEnumeration(batches, shapes);
      }
    } else {
      var i, j :| 0 <= i < |shapes| && 0 <= j < |shapes| && shapes[i].Slope() != shapes[j].Slope();
      if shapes[i].Slope() < shapes[j].Slope() {
        ConvolutionIsLarger(shapes, i, j);
      } else {
        ConvolutionIsLarger(shapes, j, i);
      }
    }
  }
}
