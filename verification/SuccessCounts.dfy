/** On 0/1 outcomes, whatever the batch shapes, stratified_arm's convolution counts arm_readout's own
    arrangements: those with at least the observed number of treated successes. */
module SuccessCounts {
  import opened Folds
  import opened Binomials
  import R = Relabelling
  import opened BinaryOutcomes
  import A = ArmReadout
  import opened StratifiedArm
  import opened StratifiedLaws
  import opened StratifiedMoments

  function StratumOf(b: R.Batch): Stratum { Stratum(Ones(b.treat), |b.treat|, Ones(b.control), |b.control|) }

  function StrataOf(batches: seq<R.Batch>): (r: seq<Stratum>)
    ensures |r| == |batches|
  {
    if batches == [] then [] else [StratumOf(batches[0])] + StrataOf(batches[1..])
  }

  /** Every outcome is 0 or 1. */
  predicate BinaryBatch(b: R.Batch) { Binary(b.treat) && Binary(b.control) }

  predicate BinaryData(batches: seq<R.Batch>) { forall i :: 0 <= i < |batches| ==> BinaryBatch(batches[i]) }

  // ---- Ways, first stratum first ----

  function Shift(f: int -> real, v: int): int -> real { (s: int) => f(v + s) }

  function Front(rows: bool, st: Stratum, rest: seq<Stratum>, f: int -> real): int -> real {
    (v: int) => Repeat(Weight(rows, st, v), Ways(rows, rest, Shift(f, v)))
  }

  lemma ShiftStep(rows: bool, t: Stratum, f: int -> real, v: int, s: int)
    ensures Shift(Step(rows, t, f), v)(s) == Step(rows, t, Shift(f, v))(s)
  {
    forall u | u in t.Support()
      ensures Term(rows, t, f, v + s)(u) == Term(rows, t, Shift(f, v), s)(u)
    {
      assert v + s + u == v + (s + u);
    }
    SumOverSame(t.Support(), Term(rows, t, f, v + s), Term(rows, t, Shift(f, v), s));
  }

  lemma {:induction false} WaysFront(rows: bool, st: Stratum, rest: seq<Stratum>, f: int -> real)
    ensures Ways(rows, [st] + rest, f) == SumOver(st.Support(), Front(rows, st, rest, f))
    decreases |rest|
  {
    var all := [st] + rest;
    if rest == [] {
      assert all[..0] == [] && all[0] == st;
      FrontAlone(rows, st, f);
    } else {
      var r, t := rest[..|rest| - 1], rest[|rest| - 1];
      assert all[..|all| - 1] == [st] + r && all[|all| - 1] == t;
      WaysFront(rows, st, r, Step(rows, t, f));
      forall v | v in st.Support()
        ensures Front(rows, st, r, Step(rows, t, f))(v) == Front(rows, st, rest, f)(v)
      {
        forall s
          ensures Shift(Step(rows, t, f), v)(s) == Step(rows, t, Shift(f, v))(s)
        {
          ShiftStep(rows, t, f, v, s);
        }
        WaysSame(rows, r, Shift(Step(rows, t, f), v), Step(rows, t, Shift(f, v)));
      }
      SumOverSame(st.Support(), Front(rows, st, r, Step(rows, t, f)), Front(rows, st, rest, f));
    }
  }

  lemma FrontAlone(rows: bool, st: Stratum, f: int -> real)
    ensures Step(rows, st, f)(0) == SumOver(st.Support(), Front(rows, st, [], f))
  {
    SumOverSame(st.Support(), Term(rows, st, f, 0), Front(rows, st, [], f));
  }

  // ---- one batch's relabellings, counted by treated successes ----

  lemma BinaryPool(p: seq<real>, q: seq<real>)
    requires Binary(p) && Binary(q)
    ensures Binary(p + q)
  {
    forall i | 0 <= i < |p + q|
      ensures (p + q)[i] == 0.0 || (p + q)[i] == 1.0
    {
      if i >= |p| {
        assert (p + q)[i] == q[i - |p|];
      }
    }
  }

  lemma StratumIsTable(b: R.Batch)
    ensures StratumOf(b).Table()
  {
    OnesAtMost(b.treat);
    OnesAtMost(b.control);
  }

  lemma PoolAsStratum(b: R.Batch, pool: seq<real>)
    requires pool == b.treat + b.control
    ensures Ones(pool) == StratumOf(b).K() && |pool| == StratumOf(b).N()
  {
    var t, c, st := b.treat, b.control, StratumOf(b);
    assert |pool| == |t| + |c| == st.N();
    OnesConcat(t, c);
    assert pool == t + c;
    assert Ones(pool) == Ones(t) + Ones(c);
    assert st.K() == Ones(t) + Ones(c);
  }

  /** The relabelling side's table counts are the columns of the 2x2 table. */
  lemma ColumnsAreTables(st: Stratum, v: int)
    requires st.Table() && 0 <= v <= st.K()
    ensures st.Columns(v) == CombI(st.K(), v) * CombI(st.N() - st.K(), st.n1 - v)
  {
    if !(st.Lo() <= v <= st.Hi()) {
      if v <= st.n1 {
        CombOutside(st.N() - st.K(), st.n1 - v);
      }
      assert CombI(st.K(), v) * 0 == 0;
    }
  }

  lemma TablesOnSupport(st: Stratum, f: int -> real, t: int -> real, x: int -> real)
    requires st.Table()
    requires forall v :: 0 <= v <= st.K() ==> t(v) == Repeat(CombI(st.K(), v) * CombI(st.N() - st.K(), st.n1 - v), x(v))
    requires forall v :: st.Lo() <= v <= st.Hi() ==> f(v) == Repeat(st.Columns(v), x(v))
    ensures SumOver(Ints(0, st.K() + 1), t) == SumOver(st.Support(), f)
  {
    forall v | 0 <= v <= st.K()
      ensures t(v) == Repeat(st.Columns(v), x(v))
    {
      ColumnsAreTables(st, v);
    }
    SumTrim(0, st.K() + 1, st.Lo(), st.Hi() + 1, t);
    SumOverSame(st.Support(), t, f);
  }

  function ByColumns(st: Stratum, x: int -> real): int -> real { (v: int) => Repeat(st.Columns(v), x(v)) }

  function Same(): real -> real { (x: real) => x }
  function AtFloor(g: int -> real): real -> real { (x: real) => g(x.Floor) }
  function AtOnes(g: int -> real): R.Batch -> real { (s: R.Batch) => g(Ones(s.treat)) }

  lemma {:induction false} OnesIsSum(xs: seq<real>)
    requires Binary(xs)
    ensures SumOver(xs, Same()) == Ones(xs) as real
  {
    if xs != [] {
      OnesIsSum(xs[1..]);
    }
  }

  lemma {:induction false} CountLine(v: nat, k: nat)
    requires v <= k
    ensures Line(v, k, 1.0, 0.0) == v as real
  {
    RepeatIsProduct(v, 1.0);
    RepeatZero(k - v);
  }

  /** A relabelled 0/1 batch is a 0/1 batch. */
  lemma BinaryRelabelled(s: R.Batch, pool: seq<real>)
    requires Binary(pool) && multiset(s.Pool()) == multiset(pool)
    ensures Binary(s.treat) && Binary(s.control)
  {
    forall i | 0 <= i < |s.treat| ensures s.treat[i] == 0.0 || s.treat[i] == 1.0 {
      assert s.treat[i] == s.Pool()[i];
      ComesFrom(s.treat[i], s, pool);
    }
    forall i | 0 <= i < |s.control| ensures s.control[i] == 0.0 || s.control[i] == 1.0 {
      assert s.control[i] == s.Pool()[|s.treat| + i];
      ComesFrom(s.control[i], s, pool);
    }
  }

  lemma ComesFrom(x: real, s: R.Batch, pool: seq<real>)
    requires x in s.Pool() && multiset(s.Pool()) == multiset(pool)
    ensures x in pool
  {
    assert x in multiset(s.Pool());
  }

  lemma OnesAsWorth(b: R.Batch, g: int -> real, s: R.Batch)
    requires BinaryBatch(b) && s in R.Relabellings(b)
    ensures AtOnes(g)(s) == R.Worth(Same(), Nil(), 0.0, AtFloor(g))(s)
  {
    var m :| 0 <= m < |R.Relabellings(b)| && R.Relabellings(b)[m] == s;
    R.SplitsShape(b.Pool(), |b.treat|, m);
    BinaryPool(b.treat, b.control);
    BinaryRelabelled(s, b.Pool());
    OnesIsSum(s.treat);
    SumOverZero(s.control, Nil());
    assert 0.0 + R.Value(s, Same(), Nil()) == Ones(s.treat) as real;
  }

  lemma TablesAsCounts(st: Stratum, g: int -> real, v: int)
    requires st.Table() && 0 <= v <= st.K()
    ensures Tables(st.K(), st.N() - st.K(), st.n1, 1.0, 0.0, 0.0, AtFloor(g))(v)
         == Repeat(CombI(st.K(), v) * CombI(st.N() - st.K(), st.n1 - v), g(v))
  {
    CountLine(v, st.K());
    assert 0.0 + Line(v, st.K(), 1.0, 0.0) == v as real;
    assert AtFloor(g)(v as real) == g(v);
  }

  /** Summing over one batch's relabellings by treated successes is summing over its columns. */
  lemma OneBatch(b: R.Batch, g: int -> real)
    requires BinaryBatch(b)
    ensures SumOver(R.Relabellings(b), AtOnes(g)) == SumOver(StratumOf(b).Support(), ByColumns(StratumOf(b), g))
  {
    var st, pool := StratumOf(b), b.Pool();
    PoolAsStratum(b, pool);
    StratumIsTable(b);
    BinaryPool(b.treat, b.control);
    forall s | s in R.Relabellings(b) ensures AtOnes(g)(s) == R.Worth(Same(), Nil(), 0.0, AtFloor(g))(s) {
      OnesAsWorth(b, g, s);
    }
    SumOverSame(R.Relabellings(b), AtOnes(g), R.Worth(Same(), Nil(), 0.0, AtFloor(g)));
    R.SpreadIsSum(pool, |b.treat|, Same(), Nil(), 0.0, AtFloor(g));
    BinarySpread(pool, |b.treat|, Same(), Nil(), 0.0, AtFloor(g));
    ColumnsFromOnes(b, g);
  }

  lemma ColumnsFromOnes(b: R.Batch, g: int -> real)
    requires BinaryBatch(b)
    ensures ByOnes(b.Pool(), |b.treat|, 1.0, 0.0, 0.0, AtFloor(g))
      == SumOver(StratumOf(b).Support(), ByColumns(StratumOf(b), g))
  {
    var st, pool := StratumOf(b), b.Pool();
    PoolAsStratum(b, pool);
    StratumIsTable(b);
    assert |pool| - Ones(pool) == st.N() - st.K();
    var t := Tables(st.K(), st.N() - st.K(), st.n1, 1.0, 0.0, 0.0, AtFloor(g));
    assert ByOnes(pool, st.n1, 1.0, 0.0, 0.0, AtFloor(g)) == SumOver(Ints(0, st.K() + 1), t);
    forall v | 0 <= v <= st.K()
      ensures t(v) == Repeat(CombI(st.K(), v) * CombI(st.N() - st.K(), st.n1 - v), g(v))
    {
      TablesAsCounts(st, g, v);
    }
    TablesOnSupport(st, ByColumns(st, g), t, g);
  }

  // ---- all batches ----

  /** Treated successes over all batches. */
  function Treated(batches: seq<R.Batch>): nat
  {
    if batches == [] then 0 else Ones(batches[0].treat) + Treated(batches[1..])
  }

  function BySuccesses(h: int -> real): seq<R.Batch> -> real { (arr: seq<R.Batch>) => h(Treated(arr)) }

  function RestWays(rest: seq<Stratum>, h: int -> real): int -> real { (v: int) => Ways(false, rest, Shift(h, v)) }

  lemma SuccessesWithHead(s: R.Batch, tails: seq<seq<R.Batch>>, h: int -> real)
    ensures SumOver(tails, R.WithHead(BySuccesses(h), s)) == SumOver(tails, BySuccesses(Shift(h, Ones(s.treat))))
  {
    forall t | t in tails
      ensures R.WithHead(BySuccesses(h), s)(t) == BySuccesses(Shift(h, Ones(s.treat)))(t)
    {
      assert ([s] + t)[1..] == t;
      assert Treated([s] + t) == Ones(s.treat) + Treated(t);
    }
    SumOverSame(tails, R.WithHead(BySuccesses(h), s), BySuccesses(Shift(h, Ones(s.treat))));
  }

  lemma NoBatches(h: int -> real)
    ensures SumOver(R.Arrangements([]), BySuccesses(h)) == Ways(false, StrataOf([]), h)
  {
    var one: seq<seq<R.Batch>> := [[]];
    assert R.Arrangements([]) == one && one[1..] == [];
    assert Treated(one[0]) == 0;
    assert SumOver(one, BySuccesses(h)) == BySuccesses(h)(one[0]) + SumOver(one[1..], BySuccesses(h));
  }

  /** Any function of the treated successes, summed over the arrangements, is its sum over column tables. */
  lemma {:induction false} SuccessesCounted(batches: seq<R.Batch>, h: int -> real)
    requires BinaryData(batches)
    ensures SumOver(R.Arrangements(batches), BySuccesses(h)) == Ways(false, StrataOf(batches), h)
    decreases |batches|
  {
    if batches == [] {
      NoBatches(h);
    } else {
      var b, rest := batches[0], batches[1..];
      var g, tails := RestWays(StrataOf(rest), h), R.Arrangements(rest);
      assert R.AllRelabellings(batches)[1..] == R.AllRelabellings(rest);
      assert BinaryBatch(b);
      forall s | s in R.Relabellings(b)
        ensures AtOnes(g)(s) == SumOver(tails, R.WithHead(BySuccesses(h), s))
      {
        SuccessesWithHead(s, tails, h);
        SuccessesCounted(rest, Shift(h, Ones(s.treat)));
      }
      R.SumOverOuter(R.Relabellings(b), tails, BySuccesses(h), AtOnes(g));
      OneBatch(b, g);
      SumOverSame(StratumOf(b).Support(), ByColumns(StratumOf(b), g), Front(false, StratumOf(b), StrataOf(rest), h));
      WaysFront(false, StratumOf(b), StrataOf(rest), h);
    }
  }

  lemma {:induction false} ObservedFront(st: Stratum, rest: seq<Stratum>)
    ensures Observed([st] + rest) == st.a + Observed(rest)
    decreases |rest|
  {
    var all := [st] + rest;
    if rest == [] {
      assert all[..0] == [];
    } else {
      assert all[..|all| - 1] == [st] + rest[..|rest| - 1];
      ObservedFront(st, rest[..|rest| - 1]);
    }
  }

  lemma {:induction false} ObservedIsTreated(batches: seq<R.Batch>)
    ensures Observed(StrataOf(batches)) == Treated(batches)
  {
    if batches != [] {
      ObservedIsTreated(batches[1..]);
      ObservedFront(StratumOf(batches[0]), StrataOf(batches[1..]));
    }
  }

  lemma StrataFeasible(batches: seq<R.Batch>)
    ensures Feasible(StrataOf(batches))
  {
    forall i | 0 <= i < |batches|
      ensures StrataOf(batches)[i].K() <= StrataOf(batches)[i].N()
    {
      StrataAt(batches, i);
      OnesAtMost(batches[i].treat);
      OnesAtMost(batches[i].control);
    }
  }

  lemma {:induction false} StrataAt(batches: seq<R.Batch>, i: nat)
    requires i < |batches|
    ensures StrataOf(batches)[i] == StratumOf(batches[i])
  {
    if i > 0 {
      StrataAt(batches[1..], i - 1);
    }
  }

  /** By columns, all tables of all strata: the product of C(n1 + n2, n1). */
  lemma ColumnsOfEverything(strata: seq<Stratum>)
    requires Feasible(strata)
    ensures Ways(false, strata, One()) == Repeat(Margins(false, strata), 1.0)
  {
    var mt, mf := Margins(true, strata), Margins(false, strata);
    WaysOfEverything(strata);
    WaysSwap(strata, One());
    RepeatCommute(mf, mt, 1.0);
    MarginsPositive(true, strata);
    RepeatCancel(mt, Ways(false, strata, One()), Repeat(mf, 1.0));
  }

  /** The size of the relabelling space, as a count of column tables. */
  lemma SpaceIsMargins(batches: seq<R.Batch>)
    requires BinaryData(batches)
    ensures |R.Arrangements(batches)| as real == Repeat(Margins(false, StrataOf(batches)), 1.0)
  {
    SuccessesCounted(batches, One());
    SumOverSame(R.Arrangements(batches), BySuccesses(One()), A.One<seq<R.Batch>>());
    A.CountIsSum(R.Arrangements(batches));
    StrataFeasible(batches);
    ColumnsOfEverything(StrataOf(batches));
  }

  lemma {:induction false} TailIsColumns(batches: seq<R.Batch>)
    requires BinaryData(batches)
    ensures SumOver(R.Arrangements(batches), BySuccesses(AtLeast(Treated(batches))))
         == Repeat(Margins(false, StrataOf(batches)), ConvolvedP(StrataOf(batches)))
  {
    SuccessesCounted(batches, AtLeast(Treated(batches)));
    ObservedIsTreated(batches);
    StrataFeasible(batches);
    ColumnsFromRows(StrataOf(batches), Treated(batches));
  }

  /** The convolved p is the share of the relabellings with at least the observed treated successes. */
  lemma ConvolutionCounts(batches: seq<R.Batch>, space: nat)
    requires BinaryData(batches) && space == |R.Arrangements(batches)|
    ensures space > 0
    ensures ConvolvedP(StrataOf(batches))
         == SumOver(R.Arrangements(batches), BySuccesses(AtLeast(Treated(batches)))) / space as real
  {
    SpaceIsMargins(batches);
    TailIsColumns(batches);
    R.ObservedArrangement(batches);
    SameQuotient(Margins(false, StrataOf(batches)), ConvolvedP(StrataOf(batches)),
      SumOver(R.Arrangements(batches), BySuccesses(AtLeast(Treated(batches)))), space);
  }

  lemma SameQuotient(m: nat, p: real, x: real, n: nat)
    requires n > 0 && x == Repeat(m, p) && n as real == Repeat(m, 1.0)
    ensures p == x / n as real
  {
    RepeatIsProduct(m, p);
    RepeatIsProduct(m, 1.0);
    var d := n as real;
    assert x == d * p;
  }
}
