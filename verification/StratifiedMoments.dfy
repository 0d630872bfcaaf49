/** The mass and the mean of stratified_arm's convolved distribution. */
module StratifiedMoments {
  import opened Folds
  import opened Binomials
  import R = Relabelling
  import opened BinaryOutcomes
  import opened StratifiedArm
  import opened StratifiedLaws

  predicate Feasible(strata: seq<Stratum>) { forall i :: 0 <= i < |strata| ==> strata[i].K() <= strata[i].N() }

  lemma {:induction false} MarginsPositive(rows: bool, strata: seq<Stratum>)
    requires Feasible(strata)
    ensures Margins(rows, strata) > 0
  {
    if strata != [] {
      var st := strata[|strata| - 1];
      MarginsPositive(rows, strata[..|strata| - 1]);
      CombPositive(st.N(), st.K());
      CombPositive(st.N(), st.n1);
      PositiveProduct(Margins(rows, strata[..|strata| - 1]), Margin(rows, st));
    }
  }

  lemma PositiveProduct(x: nat, y: nat)
    requires x > 0 && y > 0
    ensures x * y > 0
  {
  }

  /** A stratum with more successes than probes leaves nothing in the dictionary. */
  lemma {:induction false} InfeasibleMass(strata: seq<Stratum>, x: int)
    requires !Feasible(strata)
    ensures Mass(strata, x) == 0.0
    decreases |strata|
  {
    var p, st := strata[..|strata| - 1], strata[|strata| - 1];
    var ss, f := Ints(Low(p), High(p) + 1), Through(MassOf(p), PmfOf(st), x);
    forall s | s in ss
      ensures f(s) == 0.0
    {
      if Feasible(p) {
        assert st.K() > st.N();
        assert st.Pmf(x - s) == 0.0;
      } else {
        InfeasibleMass(p, s);
      }
    }
    SumOverZero(ss, f);
  }

  /** P(sum >= x), conditioning on every stratum's margins. */
  function TailAt(strata: seq<Stratum>, x: int): real {
    SumOver(Ints(Low(strata), High(strata) + 1), TailMass(strata, x))
  }

  lemma ColumnsFromRows(strata: seq<Stratum>, x: int)
    requires Feasible(strata)
    ensures Ways(false, strata, AtLeast(x)) == Repeat(Margins(false, strata), TailAt(strata, x))
  {
    TailIsCount(strata, x);
    WaysSwap(strata, AtLeast(x));
    RepeatCommute(Margins(false, strata), Margins(true, strata), TailAt(strata, x));
    MarginsPositive(true, strata);
    RepeatCancel(Margins(true, strata), Ways(false, strata, AtLeast(x)),
                 Repeat(Margins(false, strata), TailAt(strata, x)));
  }

  // -- Vandermonde

  function One(): int -> real { (s: int) => 1.0 }
  function Nil(): real -> real { (x: real) => 0.0 }
  function Unit(): real -> real { (x: real) => 1.0 }

  /** C(n1, v) C(n2, k - v), as a real. */
  function Cells(n1: nat, n2: nat, k: int): int -> real { (v: int) => Repeat(CombI(n1, v) * CombI(n2, k - v), 1.0) }

  function Flat(n: nat, x: real): (r: seq<real>)
    ensures |r| == n && forall i :: 0 <= i < n ==> r[i] == x
  {
    if n == 0 then [] else [x] + Flat(n - 1, x)
  }

  lemma {:induction false} OnesFlat(n: nat)
    ensures Ones(Flat(n, 1.0)) == n && Ones(Flat(n, 0.0)) == 0
  {
    if n > 0 {
      OnesFlat(n - 1);
      assert Flat(n, 1.0)[1..] == Flat(n - 1, 1.0) && Flat(n, 0.0)[1..] == Flat(n - 1, 0.0);
    }
  }

  lemma {:induction false} CountSplits(ss: seq<R.Batch>, a: real -> real)
    ensures SumOver(ss, R.Worth(a, a, 0.0, Unit())) == Repeat(|ss|, 1.0)
  {
    if ss != [] {
      CountSplits(ss[1..], a);
    }
  }

  /** n1 ones, then n2 zeros. */
  function Pool(n1: nat, n2: nat): seq<real> { Flat(n1, 1.0) + Flat(n2, 0.0) }

  lemma PoolIsBinary(n1: nat, n2: nat)
    ensures |Pool(n1, n2)| == n1 + n2 && Ones(Pool(n1, n2)) == n1 && Binary(Pool(n1, n2))
  {
    OnesFlat(n1);
    OnesFlat(n2);
    OnesConcat(Flat(n1, 1.0), Flat(n2, 0.0));
  }

  lemma SpreadCounts(pool: seq<real>, k: nat)
    ensures R.Spread(pool, k, Nil(), Nil(), 0.0, Unit()) == Repeat(Comb(|pool|, k), 1.0)
  {
    R.SpreadIsSum(pool, k, Nil(), Nil(), 0.0, Unit());
    R.SplitsCount(pool, k);
    CountSplits(R.Splits(pool, k), Nil());
  }

  lemma CellsByOnes(n1: nat, n2: nat, k: nat, pool: seq<real>)
    requires |pool| == n1 + n2 && Ones(pool) == n1
    ensures ByOnes(pool, k, 0.0, 0.0, 0.0, Unit()) == SumOver(Ints(0, n1 + 1), Cells(n1, n2, k))
  {
    assert |pool| - Ones(pool) == n2;
    SumOverSame(Ints(0, n1 + 1), Cells(n1, n2, k), Tables(n1, n2, k, 0.0, 0.0, 0.0, Unit()));
  }

  /** The k-subsets of n1 ones and n2 zeros, counted by how many ones they take. */
  lemma Vandermonde(n1: nat, n2: nat, k: nat)
    ensures SumOver(Ints(0, n1 + 1), Cells(n1, n2, k)) == Comb(n1 + n2, k) as real
  {
    CellsCounted(n1, n2, k);
    RepeatIsProduct(Comb(n1 + n2, k), 1.0);
  }

  lemma CellsCounted(n1: nat, n2: nat, k: nat)
    ensures SumOver(Ints(0, n1 + 1), Cells(n1, n2, k)) == Repeat(Comb(n1 + n2, k), 1.0)
  {
    var pool := Pool(n1, n2);
    PoolIsBinary(n1, n2);
    BinarySpread(pool, k, Nil(), Nil(), 0.0, Unit());
    SpreadCounts(pool, k);
    CellsByOnes(n1, n2, k, pool);
  }

  lemma RowsAreCells(st: Stratum, v: int)
    requires 0 <= v <= st.n1
    ensures st.Rows(v) == CombI(st.n1, v) * CombI(st.n2, st.K() - v)
  {
    if !(st.Lo() <= v <= st.Hi()) {
      if v <= st.K() {
        CombOutside(st.n2, st.K() - v);
      }
      assert CombI(st.n1, v) * 0 == 0;
    }
  }

  /** A sum over the support is the sum over 0..n1: everything else is zero. */
  lemma OverSupport(st: Stratum, f: int -> real, g: int -> real)
    requires forall v :: 0 <= v <= st.n1 ==> f(v) == g(v)
    requires forall v :: !(st.Lo() <= v <= st.Hi()) ==> f(v) == 0.0
    ensures SumOver(st.Support(), f) == SumOver(Ints(0, st.n1 + 1), g)
  {
    SumTrim(0, st.n1 + 1, st.Lo(), st.Hi() + 1, f);
    SumOverSame(Ints(0, st.n1 + 1), f, g);
  }

  lemma OutsideSupport(st: Stratum, f: int -> real, s: int, v: int)
    requires !(st.Lo() <= v <= st.Hi())
    ensures Term(true, st, f, s)(v) == 0.0
  {
    assert Weight(true, st, v) == 0;
    assert Repeat(0, f(s + v)) == 0.0;
  }

  lemma AllTables(st: Stratum, s: int)
    ensures Step(true, st, One())(s) == Repeat(Margin(true, st), One()(s))
  {
    var f, g := Term(true, st, One(), s), Cells(st.n1, st.n2, st.K());
    forall v | 0 <= v <= st.n1 ensures f(v) == g(v) {
      RowsAreCells(st, v);
    }
    forall v | !(st.Lo() <= v <= st.Hi()) ensures f(v) == 0.0 {
      OutsideSupport(st, One(), s, v);
    }
    OverSupport(st, f, g);
    CellsCounted(st.n1, st.n2, st.K());
  }

  lemma {:induction false} WaysOfEverything(strata: seq<Stratum>)
    ensures Ways(true, strata, One()) == Repeat(Margins(true, strata), 1.0)
    decreases |strata|
  {
    if strata != [] {
      var p, st := strata[..|strata| - 1], strata[|strata| - 1];
      WaysOfEverything(p);
      forall s
        ensures Step(true, st, One())(s) == Repeat(Margin(true, st), One()(s))
      {
        AllTables(st, s);
      }
      WaysRepeat(true, p, One(), Step(true, st, One()), Margin(true, st));
      RepeatCommute(Margin(true, st), Margins(true, p), 1.0);
      RepeatRepeat(Margins(true, p), Margin(true, st), 1.0);
    } else {
      assert Repeat(1, 1.0) == 1.0;
    }
  }

  function TotalMass(strata: seq<Stratum>): real { SumOver(Ints(Low(strata), High(strata) + 1), MassOf(strata)) }

  /** The dictionary is a probability distribution after any number of strata; a stratum with more
      successes than probes, which the source does not reject, empties it for good. */
  lemma TotalMassIsOne(strata: seq<Stratum>)
    ensures TotalMass(strata) == if Feasible(strata) then 1.0 else 0.0
  {
    if Feasible(strata) {
      var low, ss := Low(strata), Ints(Low(strata), High(strata) + 1);
      SumOverSame(ss, TailMass(strata, low), MassOf(strata));
      TailIsCount(strata, low);
      WaysReach(true, strata, AtLeast(low), One());
      WaysOfEverything(strata);
      MarginsPositive(true, strata);
      RepeatCancel(Margins(true, strata), TotalMass(strata), 1.0);
    } else {
      forall x
        ensures MassOf(strata)(x) == 0.0
      {
        InfeasibleMass(strata, x);
      }
      SumOverZero(Ints(Low(strata), High(strata) + 1), MassOf(strata));
    }
  }

  // -- the mean

  /** v weighed by the number of tables with v successes. */
  function Moment(st: Stratum): int -> real { (v: int) => Repeat(st.Rows(v), v as real) }

  function MomentCells(n1: nat, n2: nat, k: int): int -> real
    requires n1 > 0
  {
    (v: int) => Repeat(n1, Cells(n1 - 1, n2, k - 1)(v))
  }

  /** v C(n1, v) C(n2, k - v) == n1 C(n1 - 1, v - 1) C(n2, k - v) */
  lemma {:induction false} MomentShift(st: Stratum, v: int)
    requires st.n1 > 0 && 0 <= v < st.n1
    ensures Moment(st)(v + 1) == MomentCells(st.n1, st.n2, st.K())(v)
  {
    assert st.K() - 1 - v == st.K() - (v + 1);
    var n1, y := st.n1, CombI(st.n2, st.K() - (v + 1));
    RowsAreCells(st, v + 1);
    CombAbsorb(n1, v + 1);
    var x, z := Comb(n1, v + 1), Comb(n1 - 1, v);
    RepeatIsProduct(v + 1, 1.0);
    RepeatRepeat(x * y, v + 1, 1.0);
    RepeatRepeat(n1, z * y, 1.0);
    Absorbed(v + 1, x, n1, z, y);
  }

  lemma Absorbed(v: nat, x: nat, n: nat, z: nat, y: nat)
    requires v * x == n * z
    ensures x * y * v == n * (z * y)
  {
    assert x * y * v == (v * x) * y;
    assert n * (z * y) == (n * z) * y;
  }

  lemma MomentTail(st: Stratum)
    requires st.n1 > 0
    ensures SumOver(st.Support(), Moment(st)) == SumOver(Ints(0, st.n1), MomentCells(st.n1, st.n2, st.K()))
  {
    hide Comb, SumOver, Ints;
    var f, g := Moment(st), MomentCells(st.n1, st.n2, st.K());
    forall v | !(st.Lo() <= v <= st.Hi())
      ensures f(v) == 0.0
    {
      assert st.Rows(v) == 0;
    }
    OverSupport(st, f, f);
    RepeatZero(st.Rows(0));
    assert f(0) == 0.0;
    SumTrimFirst(st.n1, f);
    forall v | 0 <= v < st.n1
      ensures f(v + 1) == g(v)
    {
      MomentShift(st, v);
    }
    ShiftSumFrom(0, st.n1, g, f);
  }

  lemma SumTrimFirst(n: nat, f: int -> real)
    ensures SumOver(Ints(0, n + 1), f) == f(0) + SumOver(Ints(1, n + 1), f)
  {
    assert Ints(0, n + 1)[1..] == Ints(1, n + 1);
  }

  lemma MomentSum(st: Stratum)
    requires st.n1 > 0 && st.K() > 0
    ensures SumOver(st.Support(), Moment(st)) == Repeat(st.n1 * Comb(st.N() - 1, st.K() - 1), 1.0)
  {
    MomentTail(st);
    CellsSum(st.n1, st.n2, st.K());
  }

  lemma CellsSum(n1: nat, n2: nat, k: nat)
    requires n1 > 0 && k > 0
    ensures SumOver(Ints(0, n1), MomentCells(n1, n2, k)) == Repeat(n1 * Comb(n1 + n2 - 1, k - 1), 1.0)
  {
    SumOverRepeated(Ints(0, n1), Cells(n1 - 1, n2, k - 1), MomentCells(n1, n2, k), n1);
    CellsCounted(n1 - 1, n2, k - 1);
    RepeatRepeat(n1, Comb(n1 + n2 - 1, k - 1), 1.0);
  }

  lemma ValueShare(c: nat, r: nat, q: int -> real, v: int)
    requires Proportion(q(v), r, c)
    ensures Repeat(c, ValueTimes(q)(v)) == Repeat(r, v as real)
  {
    var x, y, t := v as real, q(v), ValueTimes(q)(v);
    ClearDenominator(c, r, x, y);
    assert t == x * y;
    assert Repeat(c, x * y) == Repeat(r, x);
  }

  lemma MeanIsMoment(st: Stratum)
    ensures Repeat(Margin(true, st), Mean(st)) == SumOver(st.Support(), Moment(st))
  {
    forall v | v in st.Support()
      ensures Moment(st)(v) == Repeat(Margin(true, st), ValueTimes(PmfOf(st))(v))
    {
      PmfProportion(st, v);
      ValueShare(Margin(true, st), st.Rows(v), PmfOf(st), v);
    }
    SumOverRepeated(st.Support(), ValueTimes(PmfOf(st)), Moment(st), Margin(true, st));
  }

  lemma NoMoment(st: Stratum)
    requires st.K() <= st.N() && (st.n1 == 0 || st.K() == 0)
    ensures Mean(st) == 0.0
  {
    forall v | v in st.Support()
      ensures ValueTimes(PmfOf(st))(v) == 0.0
    {
      assert v == 0;
    }
    SumOverZero(st.Support(), ValueTimes(PmfOf(st)));
  }

  lemma MeanChain(n: nat, p: nat, q: nat, c: nat, m: real)
    requires c > 0 && n * p == c * q && Repeat(c, m) == Repeat(p, 1.0)
    ensures Repeat(n, m) == q as real
  {
    RepeatCommute(n, c, m);
    RepeatRepeat(n, p, 1.0);
    RepeatRepeat(c, q, 1.0);
    RepeatCancel(c, Repeat(n, m), Repeat(q, 1.0));
    RepeatIsProduct(q, 1.0);
  }

  lemma MeanNumerator(st: Stratum, m: real)
    requires 0 < st.K() && st.n1 > 0 && m == Mean(st)
    ensures Repeat(Margin(true, st), m) == Repeat(st.n1 * Comb(st.N() - 1, st.K() - 1), 1.0)
  {
    MeanIsMoment(st);
    MomentSum(st);
  }

  lemma MeanScaled(n: nat, n1: nat, k: nat, x: nat, c: nat, m: real)
    requires c > 0 && k * c == n * x && Repeat(c, m) == Repeat(n1 * x, 1.0)
    ensures Repeat(n, m) == (n1 * k) as real
  {
    hide Repeat;
    MeanArithmetic(n, n1, k, x, c);
    MeanChain(n, n1 * x, n1 * k, c, m);
  }

  /** A stratum's mean is n1 (a + b) / (n1 + n2), as a proportion of its probes. */
  lemma MeanIsShare(st: Stratum)
    requires st.K() <= st.N()
    ensures Repeat(st.N(), Mean(st)) == (st.n1 * st.K()) as real
  {
    if st.n1 == 0 || st.K() == 0 {
      NoMoment(st);
      RepeatZero(st.N());
      assert st.n1 * st.K() == 0;
    } else {
      MeanNumerator(st, Mean(st));
      CombPositive(st.N(), st.K());
      CombAbsorb(st.N(), st.K());
      MeanScaled(st.N(), st.n1, st.K(), Comb(st.N() - 1, st.K() - 1), Margin(true, st), Mean(st));
    }
  }

  lemma MeanArithmetic(n: nat, n1: nat, k: nat, x: nat, c: nat)
    requires k * c == n * x
    ensures n * (n1 * x) == c * (n1 * k)
  {
    assert n * (n1 * x) == n1 * (n * x);
    assert c * (n1 * k) == n1 * (k * c);
  }

  /** n1 (a + b) / (n1 + n2); nothing for a stratum without probes or with an impossible count. */
  function Share(st: Stratum): real {
    if st.K() <= st.N() && st.N() > 0 then (st.n1 * st.K()) as real / st.N() as real else 0.0
  }

  lemma MeanOrNothing(st: Stratum)
    ensures Mean(st) == Share(st)
  {
    if st.K() <= st.N() {
      MeanIsShare(st);
      if st.N() > 0 {
        Divide(st.N(), Mean(st), (st.n1 * st.K()) as real);
      } else {
        NoMoment(st);
      }
    } else {
      assert st.Support() == [];
    }
  }

  function Shares(strata: seq<Stratum>): real
  {
    if strata == [] then 0.0 else Shares(strata[..|strata| - 1]) + Share(strata[|strata| - 1])
  }

  /** exp is the sum of n1 (a + b) / (n1 + n2). */
  lemma {:induction false} ExpectedIsShares(strata: seq<Stratum>)
    ensures Expected(strata) == Shares(strata)
  {
    if strata != [] {
      ExpectedIsShares(strata[..|strata| - 1]);
      MeanOrNothing(strata[|strata| - 1]);
    }
  }

  lemma Divide(n: nat, x: real, y: real)
    requires n > 0 && Repeat(n, x) == y
    ensures x == y / n as real
  {
    RepeatIsProduct(n, x);
  }
}
