/** Which strata stratified_arm's p never notices: exactly those with one possible table. */
module DeletedStrata {
  import opened Folds
  import opened Binomials
  import opened StratifiedArm
  import opened StratifiedLaws
  import opened StratifiedMoments
  import opened StratifiedOrder

  lemma ExtremeCells(st: Stratum)
    requires st.K() <= st.N()
    ensures st.Lo() <= st.Hi() && st.Rows(st.Lo()) > 0 && st.Rows(st.Hi()) > 0
  {
    CombPositive(st.n1, st.Lo());
    CombPositive(st.n2, st.K() - st.Lo());
    CombPositive(st.n1, st.Hi());
    CombPositive(st.n2, st.K() - st.Hi());
    PositiveProduct(Comb(st.n1, st.Lo()), Comb(st.n2, st.K() - st.Lo()));
    PositiveProduct(Comb(st.n1, st.Hi()), Comb(st.n2, st.K() - st.Hi()));
  }

  lemma TermBounds(st: Stratum, t: int, s: int, v: int)
    ensures 0.0 <= Term(true, st, AtLeast(t), s)(v) <= Term(true, st, One(), s)(v)
    ensures st.Rows(v) > 0 ==>
      if s + v >= t then Term(true, st, AtLeast(t), s)(v) > 0.0
      else Term(true, st, AtLeast(t), s)(v) < Term(true, st, One(), s)(v)
  {
    RepeatIsProduct(st.Rows(v), AtLeast(t)(s + v));
    RepeatIsProduct(st.Rows(v), 1.0);
  }

  /** Some tables reach the total t when the largest does. */
  lemma SomeReach(st: Stratum, t: int, s: int)
    requires st.K() <= st.N() && s + st.Hi() >= t
    ensures Step(true, st, AtLeast(t))(s) > 0.0
  {
    ExtremeCells(st);
    var f := Term(true, st, AtLeast(t), s);
    forall v | v in st.Support() ensures Nothing()(v) <= f(v) {
      TermBounds(st, t, s, v);
    }
    TermBounds(st, t, s, st.Hi());
    assert st.Support()[st.Hi() - st.Lo()] == st.Hi();
    SumStrictlyLess(st.Support(), Nothing(), f, st.Hi());
    SumOverZero(st.Support(), Nothing());
  }

  /** Some do not when the smallest does not. */
  lemma SomeMiss(st: Stratum, t: int, s: int)
    requires st.K() <= st.N() && s + st.Lo() < t
    ensures Step(true, st, AtLeast(t))(s) < Margin(true, st) as real
  {
    ExtremeCells(st);
    var f, g := Term(true, st, AtLeast(t), s), Term(true, st, One(), s);
    forall v | v in st.Support() ensures f(v) <= g(v) {
      TermBounds(st, t, s, v);
    }
    TermBounds(st, t, s, st.Lo());
    assert st.Support()[0] == st.Lo();
    SumStrictlyLess(st.Support(), f, g, st.Lo());
    AllTables(st, s);
    RepeatIsProduct(Margin(true, st), 1.0);
  }

  /** All do when the smallest does. */
  lemma AllReach(st: Stratum, t: int, s: int)
    requires s + st.Lo() >= t
    ensures Step(true, st, AtLeast(t))(s) == Margin(true, st) as real
  {
    SumOverSame(st.Support(), Term(true, st, AtLeast(t), s), Term(true, st, One(), s));
    AllTables(st, s);
    RepeatIsProduct(Margin(true, st), 1.0);
  }

  lemma NoStrataP()
    ensures ConvolvedP([]) == 1.0
  {
    TailIsCount([], 0);
    assert Repeat(1, ConvolvedP([])) == ConvolvedP([]);
  }

  lemma TailOver(strata: seq<Stratum>, m: nat, obs: int)
    requires m == Margins(true, strata) && obs == Observed(strata)
    ensures m as real * ConvolvedP(strata) == Ways(true, strata, AtLeast(obs))
  {
    TailIsCount(strata, obs);
    RepeatIsProduct(m, ConvolvedP(strata));
  }

  lemma OneStratumP(st: Stratum)
    ensures Margin(true, st) as real * ConvolvedP([st]) == Step(true, st, AtLeast(st.a))(0)
  {
    OneStratum(st);
    TailOver([st], Margin(true, st), st.a);
    WaysSnoc(true, [], st, AtLeast(st.a));
  }

  lemma OneStratum(st: Stratum)
    ensures [] + [st] == [st] && Margins(true, [st]) == Margin(true, st) && Observed([st]) == st.a
  {
    hide Margin, Comb;
    assert [] + [st] == [st] && [st][..0] == [];
    assert Margins(true, []) == 1 && Observed([]) == 0;
  }

  // ---- a fair coin that came up: one success, in arm A, of one probe in each arm ----

  const COIN := Stratum(1, 1, 0, 1)

  lemma CoinTables()
    ensures COIN.Support() == [0, 1] && COIN.Rows(0) == 1 && COIN.Rows(1) == 1
  {
    assert Comb(1, 0) == 1 && Comb(1, 1) == 1;
    assert COIN.Lo() == 0 && COIN.Hi() == 1;
  }

  lemma CoinStep(g: int -> real)
    ensures Step(true, COIN, g)(0) == g(0) + g(1)
  {
    hide Comb, SumOver, Repeat, Ints;
    CoinTables();
    var f := Term(true, COIN, g, 0);
    Once(g(0));
    Once(g(1));
    SumOfTwo(0, 1, f);
  }

  lemma Once(x: real)
    ensures Repeat(1, x) == x
  {
  }

  lemma SumOfTwo(x: int, y: int, f: int -> real)
    ensures SumOver([x, y], f) == f(x) + f(y)
  {
    assert [x, y][1..] == [y] && [y][1..] == [];
    assert SumOver([y], f) == f(y) + SumOver<int>([], f);
  }

  lemma CoinP()
    ensures ConvolvedP([COIN]) == 0.5
  {
    OneStratumP(COIN);
    CoinStep(AtLeast(1));
    assert Comb(2, 1) == 2;
  }

  lemma CoinThen(st: Stratum)
    ensures [COIN] + [st] == [COIN, st] && Observed([COIN, st]) == st.a + 1
    ensures Margins(true, [COIN, st]) == 2 * Margin(true, st)
  {
    OneStratum(COIN);
    TotalsSnoc([COIN], st);
    assert Comb(2, 1) == 2;
    assert [COIN, st][..1] == [COIN];
  }

  lemma AfterCoin(st: Stratum)
    ensures (2 * Margin(true, st)) as real * ConvolvedP([COIN, st])
         == Step(true, st, AtLeast(st.a + 1))(0) + Step(true, st, AtLeast(st.a + 1))(1)
  {
    hide Step, Comb, Ways, Margins, Margin, Observed, ConvolvedP;
    CoinThen(st);
    TailOver([COIN, st], 2 * Margin(true, st), st.a + 1);
    WaysSnoc(true, [COIN], st, AtLeast(st.a + 1));
    CoinAlone(Step(true, st, AtLeast(st.a + 1)));
  }

  lemma CoinAlone(g: int -> real)
    ensures Ways(true, [COIN], g) == g(0) + g(1)
  {
    OneStratum(COIN);
    WaysSnoc(true, [], COIN, g);
    CoinStep(g);
  }

  // ---- what deletion shows ----

  /** A stratum whose smallest table is below the observed one is noticed when it stands alone. */
  lemma NoticedAlone(st: Stratum)
    requires st.K() <= st.N() && st.Lo() < st.a
    ensures ConvolvedP([st]) < ConvolvedP([])
  {
    NoStrataP();
    OneStratumP(st);
    SomeMiss(st, st.a, 0);
    BelowOne(Margin(true, st) as real, ConvolvedP([st]));
  }

  lemma ProductOrder(m: real, x: real, y: real)
    requires m >= 0.0 && x <= y
    ensures m * x <= m * y
  {
  }

  lemma BelowOne(m: real, p: real)
    requires m >= 0.0 && m * p < m
    ensures p < 1.0
  {
    if p >= 1.0 {
      ProductOrder(m, 1.0, p);
    }
  }

  /** One whose observed table is below its largest, and not above its smallest, is noticed after a coin. */
  lemma NoticedAfterCoin(st: Stratum)
    requires st.K() <= st.N() && st.a <= st.Lo() && st.a < st.Hi()
    ensures ConvolvedP([COIN, st]) > ConvolvedP([COIN])
  {
    hide Step, Comb, Margin;
    CoinP();
    AfterCoin(st);
    SomeReach(st, st.a + 1, 0);
    AllReach(st, st.a + 1, 1);
    CombPositive(st.N(), st.K());
    AboveHalf(Margin(true, st) as real, (2 * Margin(true, st)) as real, ConvolvedP([COIN, st]));
  }

  lemma AboveHalf(m: real, twice: real, p: real)
    requires m > 0.0 && twice == 2.0 * m && twice * p > m
    ensures p > 0.5
  {
    if p <= 0.5 {
      ProductOrder(twice, p, 0.5);
    }
  }

  lemma NoticedWhenInfeasible(st: Stratum)
    requires st.K() > st.N()
    ensures ConvolvedP([st]) < ConvolvedP([])
  {
    NoStrataP();
    assert [st][0].K() > [st][0].N();
    InfeasibleP([st]);
  }

  /** The stratum can be deleted from every list of strata without moving the p. */
  ghost predicate Unnoticed(st: Stratum) {
    forall a, b :: ConvolvedP(a + [st] + b) == ConvolvedP(a + b)
  }

  /** Whatever its counts, possible or not, a stratum is never noticed exactly when its observed table is
      the only one its margins allow. */
  lemma UnnoticedMeansOneTable(st: Stratum)
    ensures Unnoticed(st) <==> NoVariability(st)
  {
    if NoVariability(st) {
      forall a, b ensures ConvolvedP(a + [st] + b) == ConvolvedP(a + b) {
        NoVariabilityNoEffect(a, st, b);
      }
    } else if st.K() > st.N() || st.Lo() < st.a {
      if st.K() > st.N() {
        NoticedWhenInfeasible(st);
      } else {
        NoticedAlone(st);
      }
      var none: seq<Stratum> := [];
      assert none + [st] + none == [st] && none + none == [];
    } else {
      NoticedAfterCoin(st);
      assert [COIN] + [st] + [] == [COIN, st] && [COIN] + [] == [COIN];
    }
  }
}
