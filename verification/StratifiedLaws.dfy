/** What the convolved distribution of stratified_arm is: counts of tables over a common denominator,
    the same whether the tables are counted by rows or by columns. */
module StratifiedLaws {
  import opened Folds
  import opened Binomials
  import opened StratifiedArm

  /** How many tables have v arm-A successes: by rows (who succeeded in each arm) or by columns
      (which arm each success fell in). */
  function Weight(rows: bool, st: Stratum, v: int): nat { if rows then st.Rows(v) else st.Columns(v) }

  /** How many tables there are. */
  function Margin(rows: bool, st: Stratum): nat { if rows then Comb(st.N(), st.K()) else Comb(st.N(), st.n1) }

  function Margins(rows: bool, strata: seq<Stratum>): nat
  {
    if strata == [] then 1 else Margins(rows, strata[..|strata| - 1]) * Margin(rows, strata[|strata| - 1])
  }

  function Term(rows: bool, st: Stratum, f: int -> real, s: int): int -> real {
    (v: int) => Repeat(Weight(rows, st, v), f(s + v))
  }

  /** One stratum added to a sum s, f weighed by the number of tables. */
  function Step(rows: bool, st: Stratum, f: int -> real): int -> real {
    (s: int) => SumOver(st.Support(), Term(rows, st, f, s))
  }

  /** The sum over all tables of all strata of f(total arm-A successes). */
  function Ways(rows: bool, strata: seq<Stratum>, f: int -> real): real
    decreases |strata|
  {
    if strata == [] then f(0)
    else Ways(rows, strata[..|strata| - 1], Step(rows, strata[|strata| - 1], f))
  }

  lemma {:induction false} WaysSame(rows: bool, strata: seq<Stratum>, f: int -> real, g: int -> real)
    requires forall s :: f(s) == g(s)
    ensures Ways(rows, strata, f) == Ways(rows, strata, g)
    decreases |strata|
  {
    if strata != [] {
      var st := strata[|strata| - 1];
      forall s
        ensures Step(rows, st, f)(s) == Step(rows, st, g)(s)
      {
        SumOverSame(st.Support(), Term(rows, st, f, s), Term(rows, st, g, s));
      }
      WaysSame(rows, strata[..|strata| - 1], Step(rows, st, f), Step(rows, st, g));
    }
  }

  lemma {:induction false} WaysRepeat(rows: bool, strata: seq<Stratum>, f: int -> real, g: int -> real, c: nat)
    requires forall s :: g(s) == Repeat(c, f(s))
    ensures Ways(rows, strata, g) == Repeat(c, Ways(rows, strata, f))
    decreases |strata|
  {
    if strata != [] {
      var st := strata[|strata| - 1];
      forall s
        ensures Step(rows, st, g)(s) == Repeat(c, Step(rows, st, f)(s))
      {
        forall v | v in st.Support()
          ensures Term(rows, st, g, s)(v) == Repeat(c, Term(rows, st, f, s)(v))
        {
          RepeatCommute(Weight(rows, st, v), c, f(s + v));
        }
        SumOverRepeated(st.Support(), Term(rows, st, f, s), Term(rows, st, g, s), c);
      }
      WaysRepeat(rows, strata[..|strata| - 1], Step(rows, st, f), Step(rows, st, g), c);
    }
  }

  // ---- rows and columns ----

  lemma TermSwap(st: Stratum, f: int -> real, s: int, v: int)
    requires v in st.Support()
    ensures Repeat(Margin(false, st), Term(true, st, f, s)(v)) == Repeat(Margin(true, st), Term(false, st, f, s)(v))
  {
    var x, cr, cc := f(s + v), Margin(true, st), Margin(false, st);
    assert st.Lo() <= v <= st.Hi();
    MarginSwap(st.n1, st.n2, st.K(), v);
    RepeatRepeat(cc, st.Rows(v), x);
    RepeatRepeat(cr, st.Columns(v), x);
    SwapProducts(Comb(st.n1, v) * Comb(st.n2, st.K() - v), cc, Comb(st.K(), v) * Comb(st.N() - st.K(), st.n1 - v), cr);
  }

  lemma SwapProducts(r: nat, cc: nat, c: nat, cr: nat)
    requires r * cc == c * cr
    ensures cc * r == cr * c
  {
  }

  lemma StepSwap(st: Stratum, f: int -> real, s: int)
    ensures Repeat(Margin(false, st), Step(true, st, f)(s)) == Repeat(Margin(true, st), Step(false, st, f)(s))
  {
    var cr, cc, tr, tc := Margin(true, st), Margin(false, st), Term(true, st, f, s), Term(false, st, f, s);
    SumOverRepeated(st.Support(), tr, Weighed(cc, tr), cc);
    SumOverRepeated(st.Support(), tc, Weighed(cr, tc), cr);
    forall v | v in st.Support()
      ensures Weighed(cc, tr)(v) == Weighed(cr, tc)(v)
    {
      TermSwap(st, f, s, v);
    }
    SumOverSame(st.Support(), Weighed(cc, tr), Weighed(cr, tc));
  }

  /** Conditioning on the outcomes and relabelling the arms give the same distribution. */
  lemma {:induction false} WaysSwap(strata: seq<Stratum>, f: int -> real)
    ensures Repeat(Margins(false, strata), Ways(true, strata, f))
      == Repeat(Margins(true, strata), Ways(false, strata, f))
    decreases |strata|
  {
    if strata != [] {
      var p, st := strata[..|strata| - 1], strata[|strata| - 1];
      var cr, cc := Margin(true, st), Margin(false, st);
      var fr, fc := Step(true, st, f), Step(false, st, f);
      forall s
        ensures Weighed(cc, fr)(s) == Weighed(cr, fc)(s)
      {
        StepSwap(st, f, s);
      }
      WaysSame(true, p, Weighed(cc, fr), Weighed(cr, fc));
      WaysRepeat(true, p, fr, Weighed(cc, fr), cc);
      WaysRepeat(true, p, fc, Weighed(cr, fc), cr);
      WaysSwap(p, fc);
      SwapChain(Margins(false, p), cc, Margins(true, p), cr, Ways(true, p, fr), Ways(true, p, fc), Ways(false, p, fc));
    }
  }

  lemma {:induction false} SwapChain(pc: nat, cc: nat, pr: nat, cr: nat, x: real, y: real, z: real)
    requires Repeat(cc, x) == Repeat(cr, y) && Repeat(pc, y) == Repeat(pr, z)
    ensures Repeat(pc * cc, x) == Repeat(pr * cr, z)
  {
    RepeatRepeat(pc, cc, x);
    RepeatCommute(pc, cr, y);
    RepeatCommute(cr, pr, z);
    RepeatRepeat(pr, cr, z);
  }

  // ---- Ways is linear in f, and only the reachable sums matter ----

  lemma {:induction false} WaysAdd(rows: bool, strata: seq<Stratum>, f: int -> real, g: int -> real, h: int -> real)
    requires forall s :: h(s) == f(s) + g(s)
    ensures Ways(rows, strata, h) == Ways(rows, strata, f) + Ways(rows, strata, g)
    decreases |strata|
  {
    if strata != [] {
      var st := strata[|strata| - 1];
      forall s
        ensures Step(rows, st, h)(s) == Step(rows, st, f)(s) + Step(rows, st, g)(s)
      {
        forall v | v in st.Support()
          ensures Term(rows, st, h, s)(v) == Term(rows, st, f, s)(v) + Term(rows, st, g, s)(v)
        {
          RepeatSum(Weight(rows, st, v), f(s + v), g(s + v));
        }
        SumOverAdd(st.Support(), Term(rows, st, f, s), Term(rows, st, g, s), Term(rows, st, h, s));
      }
      WaysAdd(rows, strata[..|strata| - 1], Step(rows, st, f), Step(rows, st, g), Step(rows, st, h));
    }
  }

  lemma {:induction false} WaysReach(rows: bool, strata: seq<Stratum>, f: int -> real, g: int -> real)
    requires forall s :: Low(strata) <= s <= High(strata) ==> f(s) == g(s)
    ensures Ways(rows, strata, f) == Ways(rows, strata, g)
    decreases |strata|
  {
    if strata != [] {
      var p, st := strata[..|strata| - 1], strata[|strata| - 1];
      forall s | Low(p) <= s <= High(p)
        ensures Step(rows, st, f)(s) == Step(rows, st, g)(s)
      {
        SumOverSame(st.Support(), Term(rows, st, f, s), Term(rows, st, g, s));
      }
      WaysReach(rows, p, Step(rows, st, f), Step(rows, st, g));
    }
  }

  function Nothing(): int -> real { (s: int) => 0.0 }

  lemma WaysNothing(rows: bool, strata: seq<Stratum>)
    ensures Ways(rows, strata, Nothing()) == 0.0
  {
    WaysAdd(rows, strata, Nothing(), Nothing(), Nothing());
  }

  /** f at s alone, and f below t alone. */
  function Pick(f: int -> real, s: int): int -> real { (x: int) => if x == s then f(s) else 0.0 }
  function Below(f: int -> real, t: int): int -> real { (x: int) => if x < t then f(x) else 0.0 }

  function Picks(rows: bool, strata: seq<Stratum>, f: int -> real): int -> real {
    (s: int) => Ways(rows, strata, Pick(f, s))
  }

  lemma {:induction false} WaysBelow(rows: bool, strata: seq<Stratum>, f: int -> real, t: int)
    requires Low(strata) <= t
    ensures Ways(rows, strata, Below(f, t)) == SumOver(Ints(Low(strata), t), Picks(rows, strata, f))
    decreases t - Low(strata)
  {
    if t == Low(strata) {
      WaysReach(rows, strata, Below(f, t), Nothing());
      WaysNothing(rows, strata);
    } else {
      WaysBelow(rows, strata, f, t - 1);
      WaysAdd(rows, strata, Below(f, t - 1), Pick(f, t - 1), Below(f, t));
      SumOverNextInt(Low(strata), t - 1, Picks(rows, strata, f));
    }
  }

  /** The count is the sum of the counts at each reachable total. */
  lemma WaysByTotal(rows: bool, strata: seq<Stratum>, f: int -> real)
    ensures Ways(rows, strata, f) == SumOver(Ints(Low(strata), High(strata) + 1), Picks(rows, strata, f))
  {
    if Low(strata) <= High(strata) + 1 {
      WaysBelow(rows, strata, f, High(strata) + 1);
      WaysReach(rows, strata, f, Below(f, High(strata) + 1));
    } else {
      WaysReach(rows, strata, f, Nothing());
      WaysNothing(rows, strata);
    }
  }

  // ---- the dictionary is the count over a common denominator ----

  function Is(x: int): int -> real { (s: int) => if s == x then 1.0 else 0.0 }

  /** A stratum's step from s to exactly x: the tables with x - s arm-A successes. */
  lemma StepIs(rows: bool, st: Stratum, x: int, s: int)
    ensures Step(rows, st, Is(x))(s) == Repeat(Weight(rows, st, x - s), 1.0)
  {
    var f := Term(rows, st, Is(x), s);
    var v := x - s;
    forall u | u != v
      ensures f(u) == 0.0
    {
      RepeatZero(Weight(rows, st, u));
    }
    if st.Lo() <= v <= st.Hi() {
      SumTrim(st.Lo(), st.Hi() + 1, v, v + 1, f);
      SumOverNextInt(v, v, f);
      assert s + v == x;
    } else {
      SumOverZero(st.Support(), f);
    }
  }

  lemma PickStep(p: seq<Stratum>, st: Stratum, x: int, s: int)
    ensures Ways(true, p, Pick(Step(true, st, Is(x)), s)) == Repeat(st.Rows(x - s), Ways(true, p, Is(s)))
  {
    forall t
      ensures Pick(Step(true, st, Is(x)), s)(t) == Repeat(st.Rows(x - s), Is(s)(t))
    {
      StepIs(true, st, x, s);
      RepeatZero(st.Rows(x - s));
    }
    WaysRepeat(true, p, Is(s), Pick(Step(true, st, Is(x)), s), st.Rows(x - s));
  }

  /** q is r out of c tables: what a pmf entry is on its support and off it. */
  predicate Proportion(q: real, r: nat, c: nat) { if c == 0 then q == 0.0 && r == 0 else q == r as real / c as real }

  lemma PmfProportion(st: Stratum, v: int)
    ensures Proportion(st.Pmf(v), st.Rows(v), Margin(true, st))
  {
    if st.Lo() <= v <= st.Hi() {
      CombPositive(st.N(), st.K());
    }
  }

  lemma ClearDenominator(c: nat, r: nat, m: real, q: real)
    requires Proportion(q, r, c)
    ensures Repeat(c, m * q) == Repeat(r, m)
  {
    var d, e := c as real, r as real;
    RepeatIsProduct(c, m * q);
    RepeatIsProduct(r, m);
    assert q * d == e;
    assert d * (m * q) == m * (q * d);
  }

  /** ps * pv over the product of the denominators: pv's numerator times ps over its own. */
  lemma ProductOfShares(mp: nat, c: nat, r: nat, m: real, q: real, w: real)
    requires Repeat(mp, m) == w && Proportion(q, r, c)
    ensures Repeat(mp * c, m * q) == Repeat(r, w)
  {
    RepeatRepeat(mp, c, m * q);
    ClearDenominator(c, r, m, q);
    RepeatCommute(mp, r, m);
  }

  lemma ThroughShare(mp: nat, c: nat, r: nat, w: real, m: int -> real, f: int -> real, x: int, s: int)
    requires Repeat(mp, m(s)) == w && Proportion(f(x - s), r, c)
    ensures Repeat(mp * c, Through(m, f, x)(s)) == Repeat(r, w)
  {
    var a, q, t := m(s), f(x - s), Through(m, f, x)(s);
    ProductOfShares(mp, c, r, a, q, w);
    assert t == a * q;
    assert Repeat(mp * c, a * q) == Repeat(r, w);
  }

  lemma PickIsShare(p: seq<Stratum>, st: Stratum, x: int, s: int, m: int -> real)
    requires Repeat(Margins(true, p), m(s)) == Ways(true, p, Is(s))
    ensures Picks(true, p, Step(true, st, Is(x)))(s)
      == Repeat(Margins(true, p) * Margin(true, st), Through(m, PmfOf(st), x)(s))
  {
    PickStep(p, st, x, s);
    PmfProportion(st, x - s);
    ThroughShare(Margins(true, p), Margin(true, st), st.Rows(x - s), Ways(true, p, Is(s)), m, PmfOf(st), x, s);
  }

  lemma {:induction false} ConvolvedIsCount(p: seq<Stratum>, st: Stratum, x: int, m: int -> real)
    requires forall s :: Repeat(Margins(true, p), m(s)) == Ways(true, p, Is(s))
    ensures Repeat(Margins(true, p) * Margin(true, st), SumOver(Ints(Low(p), High(p) + 1), Through(m, PmfOf(st), x)))
         == Ways(true, p, Step(true, st, Is(x)))
  {
    var ss, c := Ints(Low(p), High(p) + 1), Margins(true, p) * Margin(true, st);
    var through, picks := Through(m, PmfOf(st), x), Picks(true, p, Step(true, st, Is(x)));
    forall s | s in ss
      ensures picks(s) == Repeat(c, through(s))
    {
      PickIsShare(p, st, x, s, m);
    }
    SumOverRepeated(ss, through, picks, c);
    WaysByTotal(true, p, Step(true, st, Is(x)));
  }

  /** dist[x] is the number of combinations of tables whose successes sum to x, over all of them. */
  lemma {:induction false} MassIsCount(strata: seq<Stratum>, x: int)
    ensures Repeat(Margins(true, strata), Mass(strata, x)) == Ways(true, strata, Is(x))
    decreases |strata|
  {
    hide SumOver, Ints, Low, High, Margin, Comb;
    if strata != [] {
      var p, st := strata[..|strata| - 1], strata[|strata| - 1];
      forall s
        ensures Repeat(Margins(true, p), MassOf(p)(s)) == Ways(true, p, Is(s))
      {
        MassIsCount(p, s);
      }
      ConvolvedIsCount(p, st, x, MassOf(p));
    } else {
      assert Repeat(1, Mass([], x)) == Mass([], x);
    }
  }

  function AtLeast(obs: int): int -> real { (s: int) => if s >= obs then 1.0 else 0.0 }

  /** Over the common denominator, p counts the tables with at least the observed successes. */
  lemma {:induction false} TailIsCount(strata: seq<Stratum>, obs: int)
    ensures Repeat(Margins(true, strata), SumOver(Ints(Low(strata), High(strata) + 1), TailMass(strata, obs)))
         == Ways(true, strata, AtLeast(obs))
  {
    var ss, c, tail := Ints(Low(strata), High(strata) + 1), Margins(true, strata), TailMass(strata, obs);
    var picks := Picks(true, strata, AtLeast(obs));
    forall s | s in ss
      ensures picks(s) == Repeat(c, tail(s))
    {
      if s >= obs {
        MassIsCount(strata, s);
        WaysSame(true, strata, Pick(AtLeast(obs), s), Is(s));
      } else {
        WaysSame(true, strata, Pick(AtLeast(obs), s), Nothing());
        WaysNothing(true, strata);
        RepeatZero(c);
      }
    }
    SumOverRepeated(ss, tail, picks, c);
    WaysByTotal(true, strata, AtLeast(obs));
  }
}
