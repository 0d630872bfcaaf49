/** When stratified_arm's convolution and arm_readout's enumeration give the same p on 0/1 outcomes:
    exactly when a success is worth the same in every batch. */
module Agreement {
  import opened Folds
  import R = Relabelling
  import opened BinaryOutcomes
  import A = ArmReadout
  import opened StratifiedArm
  import opened StratifiedLaws
  import opened SuccessCounts

  /** Arm sizes, both arms there. */
  datatype Shape = Shape(n1: nat, n2: nat) {
    predicate Arms() { n1 > 0 && n2 > 0 }

    /** What moving one success from control to treatment adds to the statistic: 1/n1 + 1/n2. */
    function Slope(): real
      requires Arms()
    {
      1.0 / n1 as real + 1.0 / n2 as real
    }
  }

  predicate Arms(shapes: seq<Shape>) { forall i :: 0 <= i < |shapes| ==> shapes[i].Arms() }

  predicate OfShapes(batches: seq<R.Batch>, shapes: seq<Shape>) {
    |batches| == |shapes|
    && forall i :: 0 <= i < |shapes| ==>
      |batches[i].treat| == shapes[i].n1 && |batches[i].control| == shapes[i].n2 && BinaryBatch(batches[i])
  }

  predicate OneSlope(shapes: seq<Shape>)
    requires Arms(shapes)
  {
    forall i, j :: 0 <= i < |shapes| && 0 <= j < |shapes| ==> shapes[i].Slope() == shapes[j].Slope()
  }

  // ---- the statistic on 0/1 data ----

  function ShapeOf(b: R.Batch): Shape { Shape(|b.treat|, |b.control|) }

  /** What the batch adds to the statistic beyond what its pool fixes. */
  function Climb(): R.Batch -> real {
    (b: R.Batch) => if b.BothArms() then Repeat(Ones(b.treat), ShapeOf(b).Slope()) else 0.0
  }

  /** What its pool fixes: the mean difference with every success in control. */
  function Base(): R.Batch -> real { (b: R.Batch) => Repeat(Ones(b.Pool()), R.Loss(|b.control|)(1.0)) }

  /** A 0/1 arm adds up its successes. */
  lemma {:induction false} ArmTotal(xs: seq<real>, a: real -> real)
    requires Binary(xs) && a(0.0) == 0.0
    ensures SumOver(xs, a) == Repeat(Ones(xs), a(1.0))
  {
    if xs != [] {
      ArmTotal(xs[1..], a);
    }
  }

  lemma GainOfNothing(n1: nat, n2: nat)
    ensures R.Gain(n1)(0.0) == 0.0 && R.Loss(n2)(0.0) == 0.0
  {
  }

  lemma SlopeIsGainLessLoss(sh: Shape)
    requires sh.Arms()
    ensures sh.Slope() + R.Loss(sh.n2)(1.0) == R.Gain(sh.n1)(1.0) && sh.Slope() > 0.0
  {
    var x, y := sh.n1 as real, sh.n2 as real;
    assert 1.0 / x > 0.0 && 1.0 / y > 0.0 && -1.0 / y == -(1.0 / y);
  }

  lemma DiffClimbs(b: R.Batch)
    requires b.BothArms() && BinaryBatch(b)
    ensures b.Diff() == Climb()(b) + Base()(b)
  {
    var v, c, loss := Ones(b.treat), Ones(b.control), R.Loss(|b.control|)(1.0);
    R.DiffIsValue(b);
    GainOfNothing(|b.treat|, |b.control|);
    ArmTotal(b.treat, R.Gain(|b.treat|));
    ArmTotal(b.control, R.Loss(|b.control|));
    SlopeIsGainLessLoss(ShapeOf(b));
    RepeatSum(v, ShapeOf(b).Slope(), loss);
    OnesConcat(b.treat, b.control);
    RepeatMore(v, c, loss);
  }

  predicate Comparable(batches: seq<R.Batch>) {
    forall i :: 0 <= i < |batches| ==> batches[i].BothArms() && BinaryBatch(batches[i])
  }

  lemma {:induction false} TotalClimbs(batches: seq<R.Batch>)
    requires Comparable(batches)
    ensures R.Total(batches) == SumOver(batches, Climb()) + SumOver(batches, Base())
  {
    if batches != [] {
      TotalClimbs(batches[1..]);
      DiffClimbs(batches[0]);
    }
  }

  // ---- what relabelling leaves alone ----

  lemma {:induction false} OnesReordered(p: seq<real>, q: seq<real>)
    requires multiset(p) == multiset(q)
    ensures Ones(p) == Ones(q)
  {
    OnesInMultiset(p);
    OnesInMultiset(q);
  }

  lemma {:induction false} OnesInMultiset(p: seq<real>)
    ensures Ones(p) == multiset(p)[1.0]
  {
    if p != [] {
      assert p == [p[0]] + p[1..];
      OnesInMultiset(p[1..]);
    }
  }

  lemma RelabelledBatch(s: R.Batch, b: R.Batch)
    requires b.BothArms() && BinaryBatch(b)
    requires |s.treat| == |b.treat| && |s.control| == |b.control| && multiset(s.Pool()) == multiset(b.Pool())
    ensures s.BothArms() && BinaryBatch(s) && ShapeOf(s) == ShapeOf(b)
    ensures Base()(s) == Base()(b) && Ones(s.treat) + Ones(s.control) == Ones(b.Pool())
  {
    BinaryPool(b.treat, b.control);
    BinaryRelabelled(s, b.Pool());
    OnesReordered(s.Pool(), b.Pool());
    OnesConcat(s.treat, s.control);
  }

  lemma {:induction false} RelabelledBase(arr: seq<R.Batch>, batches: seq<R.Batch>)
    requires Comparable(batches) && R.Relabels(arr, batches)
    ensures Comparable(arr) && SumOver(arr, Base()) == SumOver(batches, Base())
  {
    if batches != [] {
      RelabelledBatch(arr[0], batches[0]);
      RelabelledBase(arr[1..], batches[1..]);
      assert forall i :: 0 < i < |arr| ==> arr[i] == arr[1..][i - 1];
    }
  }

  // ---- one slope: the two orders are one ----

  lemma {:induction false} OneSlopeClimbs(arr: seq<R.Batch>, w: real)
    requires Comparable(arr) && forall i :: 0 <= i < |arr| ==> ShapeOf(arr[i]).Slope() == w
    ensures SumOver(arr, Climb()) == Repeat(Treated(arr), w)
  {
    if arr != [] {
      OneSlopeClimbs(arr[1..], w);
      RepeatMore(Ones(arr[0].treat), Treated(arr[1..]), w);
    }
  }

  lemma RepeatOrders(m: nat, n: nat, w: real)
    requires w > 0.0
    ensures Repeat(m, w) >= Repeat(n, w) <==> m >= n
  {
    if m >= n {
      RepeatMore(m - n, n, w);
      RepeatNonnegative(m - n, w);
    } else {
      RepeatMore(n - m - 1, m, w);
      RepeatNonnegative(n - m - 1, w);
      assert Repeat(n, w) == w + Repeat(n - 1, w);
    }
  }

  /** At least as extreme in the mean differences exactly when at least as many treated successes. */
  lemma {:induction false} OneSlopeOrdersAlike(arr: seq<R.Batch>, batches: seq<R.Batch>, w: real)
    requires Comparable(batches) && R.Relabels(arr, batches) && w > 0.0
    requires forall i :: 0 <= i < |batches| ==> ShapeOf(batches[i]).Slope() == w
    ensures R.Total(arr) >= R.Total(batches) <==> Treated(arr) >= Treated(batches)
  {
    RelabelledBase(arr, batches);
    TotalClimbs(arr);
    TotalClimbs(batches);
    assert forall i :: 0 <= i < |arr| ==> ShapeOf(arr[i]) == ShapeOf(batches[i]);
    OneSlopeClimbs(arr, w);
    OneSlopeClimbs(batches, w);
    RepeatOrders(Treated(arr), Treated(batches), w);
  }

  lemma ShapesAreComparable(batches: seq<R.Batch>, shapes: seq<Shape>)
    requires Arms(shapes) && OfShapes(batches, shapes)
    ensures Comparable(batches) && BinaryData(batches)
    ensures forall i :: 0 <= i < |batches| ==> ShapeOf(batches[i]) == shapes[i]
  {
  }

  lemma SharesCompared(batches: seq<R.Batch>, space: nat)
    requires BinaryData(batches) && space == |R.Arrangements(batches)|
    requires SumOver(R.Arrangements(batches), A.At(true, batches))
          == SumOver(R.Arrangements(batches), BySuccesses(AtLeast(Treated(batches))))
    ensures ConvolvedP(StrataOf(batches)) == A.ExactP(batches, true)
  {
    ConvolutionCounts(batches, space);
  }

  /** Where a success is worth the same in every batch, the convolution is the enumeration. */
  lemma ConvolutionIsEnumeration(batches: seq<R.Batch>, shapes: seq<Shape>)
    requires Arms(shapes) && OneSlope(shapes) && OfShapes(batches, shapes)
    ensures ConvolvedP(StrataOf(batches)) == A.ExactP(batches, true)
  {
    ShapesAreComparable(batches, shapes);
    var w := if shapes == [] then 1.0 else shapes[0].Slope();
    if shapes != [] {
      SlopeIsGainLessLoss(shapes[0]);
    }
    forall arr | arr in R.Arrangements(batches)
      ensures A.At(true, batches)(arr) == BySuccesses(AtLeast(Treated(batches)))(arr)
    {
      var m :| 0 <= m < |R.Arrangements(batches)| && R.Arrangements(batches)[m] == arr;
      R.ArrangementsRelabel(batches, m);
      OneSlopeOrdersAlike(arr, batches, w);
    }
    SumOverSame(R.Arrangements(batches), A.At(true, batches), BySuccesses(AtLeast(Treated(batches))));
    SharesCompared(batches, |R.Arrangements(batches)|);
  }
}
