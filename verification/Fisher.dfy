/** arm_power.fisher_one_sided: it is the one-stratum conditional test, and moving one success from
    the failures of the treated arm never makes it less significant. */
module Fisher {
  import opened Wrappers
  import opened Folds
  import opened Binomials
  import opened BinaryOutcomes
  import opened StratifiedArm
  import opened StratifiedLaws
  import opened StratifiedMoments
  import opened StratifiedOrder

  /** How many tables with these margins have k treated successes, as a real: Repeat(n, 1.0) is n. */
  function Cell(row1: nat, col1: nat, rest: nat): int -> real {
    (k: int) => Repeat(CombI(col1, k) * CombI(rest, row1 - k), 1.0)
  }

  /** How many tables with the margins of [[a, b], [c, d]] have at least a treated successes. */
  function Tail(a: nat, b: nat, c: nat, d: nat): real {
    SumOver(Ints(a, Min(a + b, a + c) + 1), Cell(a + b, a + c, b + d))
  }

  /** fisher_one_sided for the table [[a, b], [c, d]], treatment-is-better. */
  function FisherOneSided(a: nat, b: nat, c: nat, d: nat): real {
    CombPositive(a + b + c + d, a + b);
    Tail(a, b, c, d) / Comb(a + b + c + d, a + b) as real
  }

  // ---- Fisher is the conditional test on one stratum ----

  lemma TailIsColumns(a: nat, b: nat, c: nat, d: nat)
    ensures Ways(false, [Stratum(a, a + b, c, c + d)], AtLeast(a)) == Tail(a, b, c, d)
  {
    var st := Stratum(a, a + b, c, c + d);
    var f, g := Term(false, st, AtLeast(a), 0), Cell(a + b, a + c, b + d);
    WaysSnoc(false, [], st, AtLeast(a));
    assert [] + [st] == [st];
    assert st.Hi() == Min(a + b, a + c);
    forall v
      ensures st.Lo() <= v < a ==> f(v) == 0.0
      ensures a <= v <= st.Hi() ==> f(v) == g(v)
    {
      RepeatZero(st.Columns(v));
    }
    SumTrim(st.Lo(), st.Hi() + 1, a, st.Hi() + 1, f);
    SumOverSame(Ints(a, st.Hi() + 1), f, g);
  }

  /** The pooled Fisher test is stratified_arm's test on a single stratum. */
  lemma FisherIsOneStratum(a: nat, b: nat, c: nat, d: nat)
    ensures FisherOneSided(a, b, c, d) == ConvolvedP([Stratum(a, a + b, c, c + d)])
  {
    var st := Stratum(a, a + b, c, c + d);
    TailIsColumns(a, b, c, d);
    TailOfOne(st, ConvolvedP([st]));
    TailAsShare(st, a, b, c, d, Tail(a, b, c, d), ConvolvedP([st]));
  }

  lemma TailOfOne(st: Stratum, p: real)
    requires st.Table() && p == ConvolvedP([st])
    ensures Ways(false, [st], AtLeast(st.a)) == Repeat(Margin(false, st), p)
  {
    hide Ways, Margins;
    OneMargin(st);
    OneObserved(st);
    ColumnsFromRows([st], st.a);
  }

  lemma OneObserved(st: Stratum)
    ensures Observed([st]) == st.a
  {
    assert [st][..0] == [];
  }

  lemma TailAsShare(st: Stratum, a: nat, b: nat, c: nat, d: nat, tail: real, p: real)
    requires st == Stratum(a, a + b, c, c + d) && tail == Tail(a, b, c, d) && tail == Repeat(Margin(false, st), p)
    ensures FisherOneSided(a, b, c, d) == p
  {
    hide Tail, Repeat;
    CombPositive(a + b + c + d, a + b);
    assert st.N() == a + b + c + d && Margin(false, st) == Comb(a + b + c + d, a + b);
    Divide(Margin(false, st), p, tail);
  }

  lemma OneMargin(st: Stratum)
    ensures Margins(false, [st]) == Margin(false, st)
  {
    assert [st][..0] == [];
  }

  // ---- monotone in the treated successes ----

  /** Tail over every k from a up, as a function of the margins alone. */
  function Above(a: nat, row1: nat, col1: nat, rest: nat): real { SumOver(Ints(a, row1 + 1), Cell(row1, col1, rest)) }

  lemma TailIsAbove(a: nat, b: nat, c: nat, d: nat)
    ensures Tail(a, b, c, d) == Above(a, a + b, a + c, b + d)
  {
    var f, top := Cell(a + b, a + c, b + d), Min(a + b, a + c) + 1;
    forall k | top <= k < a + b + 1
      ensures f(k) == 0.0
    {
      CombOutside(a + c, k);
      assert 0 * CombI(b + d, a + b - k) == 0;
    }
    SumTrim(a, a + b + 1, a, top, f);
  }

  /** One column item, looked at on its own: it joins the first column, or the rest. */
  function Joined(row1: nat, col: nat, rest: nat): int -> real {
    (k: int) => Repeat(CombI(col, k - 1) * CombI(rest, row1 - k), 1.0)
  }
  function Stayed(row1: nat, col: nat, rest: nat): int -> real {
    (k: int) => Repeat(CombI(col, k) * CombI(rest, row1 - k), 1.0)
  }
  function RestTaken(row1: nat, col: nat, rest: nat): int -> real {
    (k: int) => Repeat(CombI(col, k) * CombI(rest, row1 - k - 1), 1.0)
  }

  lemma CellNonnegative(row1: nat, col: nat, rest: nat, k: int)
    ensures Stayed(row1, col, rest)(k) >= 0.0
  {
    RepeatNonnegative(CombI(col, k) * CombI(rest, row1 - k), 1.0);
  }

  /** The item in the column: one more success, tail from a + 1. */
  lemma ItemInColumn(a: nat, row1: nat, col: nat, rest: nat)
    requires a < row1
    ensures Above(a + 1, row1, col + 1, rest)
         == SumOver(Ints(a + 1, row1 + 1), Stayed(row1, col, rest)) + SumOver(Ints(a, row1), RestTaken(row1, col, rest))
  {
    var ks, f, j, s, t := Ints(a + 1, row1 + 1), Cell(row1, col + 1, rest), Joined(row1, col, rest),
      Stayed(row1, col, rest), RestTaken(row1, col, rest);
    forall k | k in ks
      ensures f(k) == j(k) + s(k)
    {
      Pascal(col + 1, k);
      RepeatSplit(CombI(col, k - 1), CombI(col, k), CombI(rest, row1 - k), 1.0);
    }
    SumOverAdd(ks, j, s, f);
    forall k | a <= k < row1
      ensures j(k + 1) == t(k)
    {
      assert row1 - (k + 1) == row1 - k - 1;
    }
    ShiftSumFrom(a, row1, t, j);
  }

  lemma NoRestTaken(row1: nat, col: nat, rest: nat)
    ensures RestTaken(row1, col, rest)(row1) == 0.0
  {
    assert CombI(rest, row1 - row1 - 1) == 0 && CombI(col, row1) * 0 == 0;
  }

  /** The item among the rest: tail from a. */
  lemma ItemInRest(a: nat, row1: nat, col: nat, rest: nat)
    requires a <= row1
    ensures Above(a, row1, col, rest + 1)
         == SumOver(Ints(a, row1 + 1), Stayed(row1, col, rest)) + SumOver(Ints(a, row1), RestTaken(row1, col, rest))
  {
    hide SumOver, Comb, Repeat;
    var ks, f, s, t := Ints(a, row1 + 1), Cell(row1, col, rest + 1), Stayed(row1, col, rest),
      RestTaken(row1, col, rest);
    forall k | k in ks
      ensures f(k) == t(k) + s(k)
    {
      Pascal(rest + 1, row1 - k);
      RepeatSplitRight(CombI(col, k), CombI(rest, row1 - k - 1), CombI(rest, row1 - k), 1.0);
    }
    SumOverAdd(ks, t, s, f);
    NoRestTaken(row1, col, rest);
    SumTrim(a, row1 + 1, a, row1, t);
  }

  lemma {:induction false} AboveDrops(a: nat, row1: nat, col: nat, rest: nat)
    requires a < row1
    ensures Above(a, row1, col, rest + 1) - Above(a + 1, row1, col + 1, rest) == Stayed(row1, col, rest)(a)
  {
    ItemInColumn(a, row1, col, rest);
    ItemInRest(a, row1, col, rest);
    SumFirst(a, row1 + 1, Stayed(row1, col, rest));
  }

  /** A table with one more treated success in the same rows has a smaller tail, by exactly the
      tables that had a successes without it. */
  lemma {:induction false} TailDrops(a: nat, b: nat, c: nat, d: nat)
    requires b > 0
    ensures Tail(a, b, c, d) - Tail(a + 1, b - 1, c, d) == Stayed(a + b, a + c, b - 1 + d)(a)
    ensures Tail(a + 1, b - 1, c, d) <= Tail(a, b, c, d)
  {
    TailIsAbove(a, b, c, d);
    TailIsAbove(a + 1, b - 1, c, d);
    AboveDrops(a, a + b, a + c, b - 1 + d);
    CellNonnegative(a + b, a + c, b - 1 + d, a);
  }

  lemma SumFirst(lo: int, hi: int, f: int -> real)
    requires lo < hi
    ensures SumOver(Ints(lo, hi), f) == f(lo) + SumOver(Ints(lo + 1, hi), f)
  {
    assert Ints(lo, hi)[1..] == Ints(lo + 1, hi);
  }

  /** More treated successes out of the same n probes against the same control arm of m: never a larger p,
      although the column margin moves with them. */
  lemma {:induction false} FisherMonotone(t: nat, t': nat, n: nat, c: nat, m: nat)
    requires t <= t' <= n && c <= m
    ensures FisherOneSided(t', n - t', c, m - c) <= FisherOneSided(t, n - t, c, m - c)
    decreases t' - t
  {
    if t < t' {
      FisherMonotone(t + 1, t', n, c, m);
      TailDrops(t, n - t, c, m - c);
      CombPositive(n + m, n);
      assert t + (n - t) + c + (m - c) == n + m && t + 1 + (n - t - 1) + c + (m - c) == n + m;
      QuotientOrder(Tail(t + 1, n - t - 1, c, m - c), Tail(t, n - t, c, m - c), Comb(n + m, n) as real);
    }
  }

  // ---- monotone in the control successes, the other way ----

  /** The item in the column, and every count: its tail from 0. */
  lemma ItemInColumnWhole(row1: nat, col: nat, rest: nat)
    ensures Above(0, row1, col + 1, rest)
         == SumOver(Ints(0, row1 + 1), Stayed(row1, col, rest)) + SumOver(Ints(0, row1), RestTaken(row1, col, rest))
  {
    var f, s := Cell(row1, col + 1, rest), Stayed(row1, col, rest);
    SumFirst(0, row1 + 1, f);
    SumFirst(0, row1 + 1, s);
    assert CombI(col + 1, 0) == 1 == CombI(col, 0);
    assert f(0) == s(0);
    if row1 > 0 {
      ItemInColumn(0, row1, col, rest);
    }
  }

  /** A column item of the other row: with it in the first column the tail holds the tables that miss a by one
      without it. */
  lemma {:induction false} AboveRises(a: nat, row1: nat, col: nat, rest: nat)
    requires a <= row1
    ensures Above(a, row1, col + 1, rest) - Above(a, row1, col, rest + 1)
         == if a == 0 then 0.0 else RestTaken(row1, col, rest)(a - 1)
  {
    hide Above, Stayed, RestTaken, SumOver, CombI;
    ItemInRest(a, row1, col, rest);
    if a == 0 {
      ItemInColumnWhole(row1, col, rest);
    } else {
      ItemInColumn(a - 1, row1, col, rest);
      SumFirst(a - 1, row1, RestTaken(row1, col, rest));
    }
  }

  lemma {:induction false} TailRises(a: nat, b: nat, c: nat, d: nat)
    requires d > 0
    ensures Tail(a, b, c, d) <= Tail(a, b, c + 1, d - 1)
  {
    TailIsAbove(a, b, c, d);
    TailIsAbove(a, b, c + 1, d - 1);
    AboveRises(a, a + b, a + c, b + d - 1);
    RepeatNonnegative(CombI(a + c, a - 1) * CombI(b + d - 1, a + b - (a - 1) - 1), 1.0);
  }

  /** More control successes out of the same m probes: never a smaller p. */
  lemma {:induction false} FisherRisesWithControl(t: nat, n: nat, c: nat, c': nat, m: nat)
    requires t <= n && c <= c' <= m
    ensures FisherOneSided(t, n - t, c, m - c) <= FisherOneSided(t, n - t, c', m - c')
    decreases c' - c
  {
    if c < c' {
      FisherRisesWithControl(t, n, c + 1, c', m);
      TailRises(t, n - t, c, m - c);
      CombPositive(n + m, n);
      assert t + (n - t) + c + (m - c) == n + m && t + (n - t) + (c + 1) + (m - c - 1) == n + m;
      QuotientOrder(Tail(t, n - t, c, m - c), Tail(t, n - t, c + 1, m - c - 1), Comb(n + m, n) as real);
    }
  }

  /** Every treated probe succeeds and no control probe does: one table in C(n + m, n). */
  lemma FisherExtreme(n: nat, m: nat)
    ensures Comb(n + m, n) > 0 && FisherOneSided(n, 0, 0, m) == 1.0 / Comb(n + m, n) as real
  {
    CombPositive(n + m, n);
    SumOverNextInt(n, n, Cell(n, n, m));
    assert CombI(m, 0) == 1;
    CombAll(n);
    assert Cell(n, n, m)(n) == Repeat(1, 1.0) == 1.0;
    assert Tail(n, 0, 0, m) == SumOver(Ints(n, n + 1), Cell(n, n, m));
  }

  lemma CombAll(n: nat)
    ensures CombI(n, n) == 1
  {
    CombFactorial(n, n);
  }
}
