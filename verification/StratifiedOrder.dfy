/** What stratified_arm's p does not depend on: the order of the strata, and strata without variability. */
module StratifiedOrder {
  import opened Folds
  import opened Binomials
  import opened StratifiedArm
  import opened StratifiedLaws
  import opened StratifiedMoments

  // ---- two strata commute ----

  function Both(rows: bool, s: Stratum, t: Stratum, f: int -> real, x: int): (int, int) -> real {
    (u: int, v: int) => Repeat(Weight(rows, s, u), Repeat(Weight(rows, t, v), f(x + u + v)))
  }

  lemma BothByRow(rows: bool, s: Stratum, t: Stratum, f: int -> real, x: int, u: int)
    ensures Term(rows, s, Step(rows, t, f), x)(u) == SumOver(t.Support(), Fixed(Both(rows, s, t, f, x), u))
  {
    SumOverRepeated(t.Support(), Term(rows, t, f, x + u), Fixed(Both(rows, s, t, f, x), u), Weight(rows, s, u));
  }

  lemma BothByColumn(rows: bool, s: Stratum, t: Stratum, f: int -> real, x: int, v: int)
    ensures Term(rows, t, Step(rows, s, f), x)(v) == SumOver(s.Support(), Fixed(Flipped(Both(rows, s, t, f, x)), v))
  {
    var col := Fixed(Flipped(Both(rows, s, t, f, x)), v);
    forall u | u in s.Support()
      ensures col(u) == Repeat(Weight(rows, t, v), Term(rows, s, f, x + v)(u))
    {
      RepeatCommute(Weight(rows, s, u), Weight(rows, t, v), f(x + u + v));
      assert x + u + v == x + v + u;
    }
    SumOverRepeated(s.Support(), Term(rows, s, f, x + v), col, Weight(rows, t, v));
  }

  lemma StepsCommute(rows: bool, s: Stratum, t: Stratum, f: int -> real, x: int)
    ensures Step(rows, s, Step(rows, t, f))(x) == Step(rows, t, Step(rows, s, f))(x)
  {
    var b := Both(rows, s, t, f, x);
    forall u | u in s.Support()
      ensures Term(rows, s, Step(rows, t, f), x)(u) == RowSum(b, t.Support())(u)
    {
      BothByRow(rows, s, t, f, x, u);
    }
    forall v | v in t.Support()
      ensures Term(rows, t, Step(rows, s, f), x)(v) == RowSum(Flipped(b), s.Support())(v)
    {
      BothByColumn(rows, s, t, f, x, v);
    }
    SumOverSame(s.Support(), Term(rows, s, Step(rows, t, f), x), RowSum(b, t.Support()));
    SumOverSame(t.Support(), Term(rows, t, Step(rows, s, f), x), RowSum(Flipped(b), s.Support()));
    SumExchange(s.Support(), t.Support(), b);
  }

  lemma WaysSnoc(rows: bool, p: seq<Stratum>, st: Stratum, f: int -> real)
    ensures Ways(rows, p + [st], f) == Ways(rows, p, Step(rows, st, f))
  {
    assert (p + [st])[..|p|] == p;
  }

  /** A stratum in the middle can be moved to the end. */
  lemma {:induction false} WaysMoved(rows: bool, a: seq<Stratum>, st: Stratum, b: seq<Stratum>, f: int -> real)
    ensures Ways(rows, a + [st] + b, f) == Ways(rows, a + b + [st], f)
    decreases |b|
  {
    if b == [] {
      assert a + [st] + b == a + b + [st];
    } else {
      var c, t := b[..|b| - 1], b[|b| - 1];
      assert a + [st] + b == (a + [st] + c) + [t] && a + b == (a + c) + [t];
      WaysSnoc(rows, a + [st] + c, t, f);
      WaysMoved(rows, a, st, c, Step(rows, t, f));
      WaysSnoc(rows, a + c, st, Step(rows, t, f));
      forall x
        ensures Step(rows, st, Step(rows, t, f))(x) == Step(rows, t, Step(rows, st, f))(x)
      {
        StepsCommute(rows, st, t, f, x);
      }
      WaysSame(rows, a + c, Step(rows, st, Step(rows, t, f)), Step(rows, t, Step(rows, st, f)));
      WaysSnoc(rows, a + c, t, Step(rows, st, f));
      WaysSnoc(rows, a + b, st, f);
    }
  }

  lemma TotalsSnoc(p: seq<Stratum>, st: Stratum)
    ensures Observed(p + [st]) == Observed(p) + st.a
    ensures Expected(p + [st]) == Expected(p) + Mean(st)
    ensures Margins(true, p + [st]) == Margins(true, p) * Margin(true, st)
  {
    assert (p + [st])[..|p|] == p;
  }

  lemma {:induction false} TotalsMoved(a: seq<Stratum>, st: Stratum, b: seq<Stratum>)
    ensures Observed(a + [st] + b) == Observed(a + b + [st])
    ensures Expected(a + [st] + b) == Expected(a + b + [st])
    ensures Margins(true, a + [st] + b) == Margins(true, a + b + [st])
    decreases |b|
  {
    if b == [] {
      assert a + [st] + b == a + b + [st];
    } else {
      var c, t := b[..|b| - 1], b[|b| - 1];
      assert a + [st] + b == (a + [st] + c) + [t] && a + b == (a + c) + [t];
      TotalsMoved(a, st, c);
      TotalsSnoc(a + [st] + c, t);
      TotalsSnoc(a + c, st);
      TotalsSnoc(a + c, t);
      TotalsSnoc(a + b, st);
      Regroup(Margins(true, a + c), Margin(true, st), Margin(true, t));
    }
  }

  lemma Regroup(x: nat, y: nat, z: nat)
    ensures x * y * z == x * z * y
  {
  }

  /** Everything the p is made of survives a reordering of the strata. */
  lemma {:induction false} Reordered(p: seq<Stratum>, q: seq<Stratum>, f: int -> real)
    requires multiset(p) == multiset(q)
    ensures Observed(p) == Observed(q) && Expected(p) == Expected(q) && Margins(true, p) == Margins(true, q)
    ensures Ways(true, p, f) == Ways(true, q, f)
    decreases |p|
  {
    if p == [] {
      assert |multiset(q)| == |q|;
      assert q == [];
    } else {
      var h, st := p[..|p| - 1], p[|p| - 1];
      assert p == h + [st];
      var j := MatchLast(p, q);
      var a, b := q[..j], q[j + 1..];
      assert q == a + [st] + b;
      TotalsMoved(a, st, b);
      WaysMoved(true, a, st, b, f);
      Reordered(h, a + b, Step(true, st, f));
      TotalsSnoc(h, st);
      TotalsSnoc(a + b, st);
      WaysSnoc(true, h, st, f);
      WaysSnoc(true, a + b, st, f);
    }
  }

  lemma MatchLast<T>(p: seq<T>, q: seq<T>) returns (j: nat)
    requires p != [] && multiset(p) == multiset(q)
    ensures j < |q| && q[j] == p[|p| - 1] && multiset(p[..|p| - 1]) == multiset(q[..j] + q[j + 1..])
  {
    var x := p[|p| - 1];
    assert p == p[..|p| - 1] + [x];
    assert x in multiset(q);
    j :| 0 <= j < |q| && q[j] == x;
    WithoutMultiset(q, j);
    assert multiset(p[..|p| - 1]) == multiset(p) - multiset{x};
    assert Without(q, j) == q[..j] + q[j + 1..];
  }

  lemma FeasibleReordered(p: seq<Stratum>, q: seq<Stratum>)
    requires multiset(p) == multiset(q) && Feasible(p)
    ensures Feasible(q)
  {
    forall i | 0 <= i < |q|
      ensures q[i].K() <= q[i].N()
    {
      assert q[i] in multiset(p);
      var j :| 0 <= j < |p| && p[j] == q[i];
    }
  }

  lemma InfeasibleP(strata: seq<Stratum>)
    requires !Feasible(strata)
    ensures ConvolvedP(strata) == 0.0
  {
    var f := TailMass(strata, Observed(strata));
    forall s
      ensures f(s) == 0.0
    {
      InfeasibleMass(strata, s);
    }
    SumOverZero(Ints(Low(strata), High(strata) + 1), f);
  }

  lemma SameP(p: seq<Stratum>, q: seq<Stratum>, c: nat)
    requires Feasible(p) && Feasible(q)
    requires c > 0 && Margins(true, p) == Margins(true, q) * c
    requires Ways(true, p, AtLeast(Observed(p))) == Repeat(c, Ways(true, q, AtLeast(Observed(q))))
    ensures ConvolvedP(p) == ConvolvedP(q)
  {
    TailIsCount(p, Observed(p));
    TailIsCount(q, Observed(q));
    MarginsPositive(true, p);
    RepeatRepeat(Margins(true, q), c, ConvolvedP(q));
    RepeatCommute(Margins(true, q), c, ConvolvedP(q));
    RepeatCancel(Margins(true, p), ConvolvedP(p), ConvolvedP(q));
  }

  /** The answer does not depend on the order in which the batches are listed. */
  lemma OrderDoesNotMatter(p: seq<Stratum>, q: seq<Stratum>)
    requires multiset(p) == multiset(q)
    ensures ConvolvedP(p) == ConvolvedP(q) && Observed(p) == Observed(q) && Expected(p) == Expected(q)
  {
    Reordered(p, q, AtLeast(Observed(p)));
    if Feasible(p) {
      FeasibleReordered(p, q);
      assert Repeat(1, Ways(true, q, AtLeast(Observed(q)))) == Ways(true, q, AtLeast(Observed(q)));
      SameP(p, q, 1);
    } else {
      if Feasible(q) {
        FeasibleReordered(q, p);
      }
      InfeasibleP(p);
      InfeasibleP(q);
    }
  }

  // ---- strata without variability ----

  /** One cell count is possible: the observed one. */
  predicate NoVariability(st: Stratum) { st.Table() && st.Lo() == st.Hi() }

  lemma OnlyTable(st: Stratum, obs: int, all: int, s: int)
    requires NoVariability(st) && all == obs + st.a
    ensures Step(true, st, AtLeast(all))(s) == Repeat(Margin(true, st), AtLeast(obs)(s))
  {
    assert st.Lo() == st.a == st.Hi();
    SumOverNextInt(st.a, st.a, Term(true, st, AtLeast(all), s));
    SumOverNextInt(st.a, st.a, Term(true, st, One(), s));
    AllTables(st, s);
    RepeatIsProduct(st.Rows(st.a), 1.0);
    RepeatIsProduct(Margin(true, st), 1.0);
  }

  lemma NoVariabilityWays(p: seq<Stratum>, st: Stratum)
    requires NoVariability(st)
    ensures Ways(true, p + [st], AtLeast(Observed(p + [st])))
      == Repeat(Margin(true, st), Ways(true, p, AtLeast(Observed(p))))
  {
    TotalsSnoc(p, st);
    WaysSnoc(true, p, st, AtLeast(Observed(p + [st])));
    forall s
      ensures Step(true, st, AtLeast(Observed(p + [st])))(s) == Repeat(Margin(true, st), AtLeast(Observed(p))(s))
    {
      OnlyTable(st, Observed(p), Observed(p + [st]), s);
    }
    WaysRepeat(true, p, AtLeast(Observed(p)), Step(true, st, AtLeast(Observed(p + [st]))), Margin(true, st));
  }

  lemma NoVariabilityLast(p: seq<Stratum>, st: Stratum)
    requires NoVariability(st) && Feasible(p)
    ensures ConvolvedP(p + [st]) == ConvolvedP(p)
  {
    TotalsSnoc(p, st);
    NoVariabilityWays(p, st);
    CombPositive(st.N(), st.K());
    SameP(p + [st], p, Margin(true, st));
  }

  /** A batch where both arms could only have done what they did cannot move the p. */
  lemma NoVariabilityNoEffect(a: seq<Stratum>, st: Stratum, b: seq<Stratum>)
    requires NoVariability(st)
    ensures ConvolvedP(a + [st] + b) == ConvolvedP(a + b)
  {
    var p, all := a + b, a + b + [st];
    assert multiset(a + [st] + b) == multiset(a) + multiset{st} + multiset(b);
    assert multiset(all) == multiset(a) + multiset(b) + multiset{st};
    OrderDoesNotMatter(a + [st] + b, all);
    if Feasible(p) {
      NoVariabilityLast(p, st);
    } else {
      var i :| 0 <= i < |p| && p[i].K() > p[i].N();
      assert all[i] == p[i];
      InfeasibleP(all);
      InfeasibleP(p);
    }
  }

  /** What such a batch looks like: nobody succeeded, everybody did, or an arm is empty. */
  lemma NoVariabilityMeans(st: Stratum)
    requires st.Table()
    ensures NoVariability(st) <==> st.K() == 0 || st.K() == st.N() || st.n1 == 0 || st.n2 == 0
  {
  }
}
