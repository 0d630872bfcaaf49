/** benchmarks/stratified_arm.py: the conditional test as a convolution of hypergeometrics. */
module StratifiedArm {
  import opened Folds
  import opened Binomials

  /** One batch as a 2x2 table: a successes of n1 in arm A, b of n2 in arm B. */
  datatype Stratum = Stratum(a: nat, n1: nat, b: nat, n2: nat) {
    function K(): nat { a + b }
    function N(): nat { n1 + n2 }
    function Lo(): nat { if K() > n2 then K() - n2 else 0 }
    function Hi(): nat { if n1 < K() then n1 else K() }
    predicate Table() { a <= n1 && b <= n2 }

    /** comb(n1, v) * comb(n2, k - v), on the support of the pmf. */
    function Rows(v: int): nat {
      if Lo() <= v <= Hi() then Comb(n1, v) * Comb(n2, K() - v) else 0
    }

    function Pmf(v: int): real {
      if Lo() <= v <= Hi() then
        CombPositive(N(), K());
        Rows(v) as real / Comb(N(), K()) as real
      else 0.0
    }

    /** The same table read by columns: comb(k, v) * comb(n - k, n1 - v). */
    function Columns(v: int): nat {
      if Lo() <= v <= Hi() then Comb(K(), v) * Comb(N() - K(), n1 - v) else 0
    }

    function Support(): seq<int> { Ints(Lo(), Hi() + 1) }
  }

  // ---- what the dictionaries hold ----

  function Low(strata: seq<Stratum>): int
  {
    if strata == [] then 0 else Low(strata[..|strata| - 1]) + strata[|strata| - 1].Lo()
  }

  function High(strata: seq<Stratum>): int
  {
    if strata == [] then 0 else High(strata[..|strata| - 1]) + strata[|strata| - 1].Hi()
  }

  function PmfOf(st: Stratum): int -> real { (v: int) => st.Pmf(v) }

  /** m(s) f(x - s): the way to x that passes through s. */
  function Through(m: int -> real, f: int -> real, x: int): int -> real { (s: int) => m(s) * f(x - s) }

  function MassOf(strata: seq<Stratum>): int -> real
    decreases |strata|, 1
  {
    (x: int) => Mass(strata, x)
  }

  /** P(the strata's arm-A successes sum to x) under the null. */
  function Mass(strata: seq<Stratum>, x: int): real
    decreases |strata|, 0
  {
    if strata == [] then (if x == 0 then 1.0 else 0.0)
    else
      var prefix := strata[..|strata| - 1];
      SumOver(Ints(Low(prefix), High(prefix) + 1), Through(MassOf(prefix), PmfOf(strata[|strata| - 1]), x))
  }

  function Observed(strata: seq<Stratum>): nat
  {
    if strata == [] then 0 else Observed(strata[..|strata| - 1]) + strata[|strata| - 1].a
  }

  function Weighted(v: int, p: real): real { v as real * p }
  function ValueTimes(f: int -> real): int -> real { (v: int) => Weighted(v, f(v)) }

  /** What a stratum is expected to contribute. */
  function Mean(st: Stratum): real { SumOver(Ints(st.Lo(), st.Hi() + 1), ValueTimes(PmfOf(st))) }

  function Expected(strata: seq<Stratum>): real
  {
    if strata == [] then 0.0 else Expected(strata[..|strata| - 1]) + Mean(strata[|strata| - 1])
  }

  function TailMass(strata: seq<Stratum>, obs: int): int -> real {
    (s: int) => if s >= obs then Mass(strata, s) else 0.0
  }

  /** P(sum >= observed), conditioning on every stratum's margins. */
  function ConvolvedP(strata: seq<Stratum>): real {
    SumOver(Ints(Low(strata), High(strata) + 1), TailMass(strata, Observed(strata)))
  }

  /** A defaultdict(float) read. */
  function Got(d: map<int, real>, x: int): real { if x in d then d[x] else 0.0 }

  // ---- the operations ----

  /** One past the last key of a range(lo, hi + 1). */
  function End(lo: int, hi: int): int { if lo <= hi then hi + 1 else lo }

  method HypergeomPmf(st: Stratum) returns (out: map<int, real>)
    ensures Holds(out, PmfOf(st), st.Lo(), st.Hi())
  {
    out := map[];
    var lo, hi := st.Lo(), st.Hi();
    var denom := Comb(st.N(), st.K());
    var a := lo;
    while a <= hi
      invariant lo <= a <= End(lo, hi)
      invariant forall v :: v in out <==> lo <= v < a
      invariant forall v :: v in out ==> out[v] == st.Pmf(v)
    {
      CombPositive(st.N(), st.K());
      out := out[a := (Comb(st.n1, a) * Comb(st.n2, st.K() - a)) as real / denom as real];
      a := a + 1;
    }
    assert a == End(lo, hi);
  }

  /** pmf holds f on [lo, hi] and nothing else. */
  ghost predicate Holds(pmf: map<int, real>, f: int -> real, lo: int, hi: int) {
    && (forall v :: v in pmf <==> lo <= v <= hi)
    && (forall v :: v in pmf ==> pmf[v] == f(v))
    && (forall v :: !(lo <= v <= hi) ==> f(v) == 0.0)
  }

  /** Spreads the probability ps of the sum s over the sums that one more stratum leads to. */
  method AddRow(before: map<int, real>, s: int, ps: real, ghost m: int -> real, lo: int, hi: int,
                pmf: map<int, real>, ghost f: int -> real)
    returns (nxt: map<int, real>)
    requires Holds(pmf, f, lo, hi) && ps == m(s)
    ensures forall x :: x in nxt ==> x in before || s + lo <= x <= s + hi
    ensures forall x :: Got(nxt, x) == Got(before, x) + Through(m, f, x)(s)
  {
    nxt := before;
    var v := lo;
    while v <= hi
      invariant lo <= v <= End(lo, hi)
      invariant forall x :: x in nxt ==> x in before || s + lo <= x <= s + hi
      invariant forall x :: Got(nxt, x) == Got(before, x) + if lo <= x - s < v then Through(m, f, x)(s) else 0.0
    {
      nxt := nxt[s + v := Got(nxt, s + v) + ps * pmf[v]];
      v := v + 1;
    }
  }

  /** sums holds the columns of the convolution, taken over the s below upTo. */
  ghost predicate Columns(sums: map<int, real>, m: int -> real, f: int -> real, low: int, upTo: int) {
    forall x :: Got(sums, x) == SumOver(Ints(low, upTo), Through(m, f, x))
  }

  lemma NextColumns(before: map<int, real>, sums: map<int, real>, m: int -> real, f: int -> real, low: int, s: int)
    requires low <= s && Columns(before, m, f, low, s)
    requires forall x :: Got(sums, x) == Got(before, x) + Through(m, f, x)(s)
    ensures Columns(sums, m, f, low, s + 1)
  {
    forall x
      ensures Got(sums, x) == SumOver(Ints(low, s + 1), Through(m, f, x))
    {
      SumOverNextInt(low, s, Through(m, f, x));
    }
  }

  lemma NoColumns(m: int -> real, f: int -> real, low: int)
    ensures Columns(map[], m, f, low, low)
  {
  }

  lemma AllColumns(sums: map<int, real>, m: int -> real, f: int -> real, low: int, high: int)
    requires Columns(sums, m, f, low, End(low, high))
    ensures forall x :: Got(sums, x) == SumOver(Ints(low, high + 1), Through(m, f, x))
  {
    assert Ints(low, End(low, high)) == Ints(low, high + 1);
  }

  lemma NothingThrough(m: int -> real, f: int -> real, s: int)
    requires m(s) == 0.0
    ensures forall x :: Through(m, f, x)(s) == 0.0
  {
  }

  /** The distribution of the sum with one more, independent stratum. Both dictionaries were filled in
      ascending order, which is the order they are walked in. */
  method Convolve(dist: map<int, real>, low: int, high: int, ghost m: int -> real, lo: int, hi: int,
                  pmf: map<int, real>, ghost f: int -> real)
    returns (nxt: map<int, real>)
    requires forall x :: x in dist ==> low <= x <= high
    requires forall x :: Got(dist, x) == m(x)
    requires Holds(pmf, f, lo, hi)
    ensures forall x :: x in nxt ==> low + lo <= x <= high + hi
    ensures forall x :: Got(nxt, x) == SumOver(Ints(low, high + 1), Through(m, f, x))
  {
    hide SumOver, Ints, Columns, Through;
    nxt := map[];
    NoColumns(m, f, low);
    var s := low;
    while s <= high
      invariant low <= s <= End(low, high)
      invariant forall x :: x in nxt ==> low + lo <= x <= high + hi
      invariant Columns(nxt, m, f, low, s)
    {
      ghost var before := nxt;
      if s in dist {
        nxt := AddRow(nxt, s, dist[s], m, lo, hi, pmf, f);
      } else {
        assert m(s) == Got(dist, s) == 0.0;
        NothingThrough(m, f, s);
      }
      NextColumns(before, nxt, m, f, low, s);
      s := s + 1;
    }
    AllColumns(nxt, m, f, low, high);
  }

  lemma MeanNext(lo: int, v: int, f: int -> real, pv: real)
    requires lo <= v && pv == f(v)
    ensures SumOver(Ints(lo, v + 1), ValueTimes(f)) == SumOver(Ints(lo, v), ValueTimes(f)) + Weighted(v, pv)
  {
    SumOverNextInt(lo, v, ValueTimes(f));
  }

  /** The expected number of arm-A successes of one stratum. */
  method MeanOf(lo: int, hi: int, pmf: map<int, real>, ghost f: int -> real) returns (mean: real)
    requires Holds(pmf, f, lo, hi)
    ensures mean == SumOver(Ints(lo, hi + 1), ValueTimes(f))
  {
    hide SumOver, Ints;
    var v := lo;
    mean := 0.0;
    SumOverNoInts(lo, lo, ValueTimes(f));
    while v <= hi
      invariant lo <= v <= End(lo, hi)
      invariant mean == SumOver(Ints(lo, v), ValueTimes(f))
    {
      MeanNext(lo, v, f, pmf[v]);
      mean := mean + Weighted(v, pmf[v]);
      v := v + 1;
    }
    if hi < lo {
      SumOverNoInts(lo, hi + 1, ValueTimes(f));
    }
  }

  /** The probability of doing at least as well as observed. */
  method TailOf(ghost strata: seq<Stratum>, dist: map<int, real>, low: int, high: int, obs: int) returns (p: real)
    requires forall x :: Got(dist, x) == Mass(strata, x)
    ensures p == SumOver(Ints(low, high + 1), TailMass(strata, obs))
  {
    var s := low;
    p := 0.0;
    while s <= high
      invariant low <= s <= End(low, high)
      invariant p == SumOver(Ints(low, s), TailMass(strata, obs))
    {
      SumOverNextInt(low, s, TailMass(strata, obs));
      assert Got(dist, s) == Mass(strata, s);
      if s in dist && s >= obs {
        p := p + dist[s];
      }
      s := s + 1;
    }
  }

  /** dist holds the convolved distribution of the strata, inside their range. */
  ghost predicate Convolved(dist: map<int, real>, strata: seq<Stratum>) {
    && (forall x :: x in dist ==> Low(strata) <= x <= High(strata))
    && (forall x :: Got(dist, x) == Mass(strata, x))
  }

  lemma NoStrata()
    ensures Convolved(map[0 := 1.0], []) && Low([]) == 0 && High([]) == 0 && Observed([]) == 0 && Expected([]) == 0.0
  {
  }

  lemma NextStratum(strata: seq<Stratum>, i: nat)
    requires i < |strata|
    ensures var p, q, st := strata[..i], strata[..i + 1], strata[i];
      && Low(q) == Low(p) + st.Lo() && High(q) == High(p) + st.Hi()
      && Observed(q) == Observed(p) + st.a && Expected(q) == Expected(p) + Mean(st)
  {
    assert strata[..i + 1][..i] == strata[..i];
  }

  // What convolving stratum i onto the earlier strata gives x.
  ghost function NextMass(strata: seq<Stratum>, i: nat, x: int): real
    requires i < |strata|
  {
    SumOver(Ints(Low(strata[..i]), High(strata[..i]) + 1), Through(MassOf(strata[..i]), PmfOf(strata[i]), x))
  }

  lemma NextConvolved(strata: seq<Stratum>, i: nat, nxt: map<int, real>)
    requires i < |strata|
    requires forall x :: x in nxt ==> Low(strata[..i + 1]) <= x <= High(strata[..i + 1])
    requires forall x :: Got(nxt, x) == NextMass(strata, i, x)
    ensures Convolved(nxt, strata[..i + 1])
  {
    assert strata[..i + 1][..i] == strata[..i];
  }

  lemma ConvolvedIsMass(dist: map<int, real>, strata: seq<Stratum>)
    requires Convolved(dist, strata)
    ensures forall x :: x in dist ==> Low(strata) <= x <= High(strata)
    ensures forall x :: Got(dist, x) == Mass(strata, x)
    ensures forall x :: Got(dist, x) == MassOf(strata)(x)
  {
  }

  /** The returned p, observed sum and expected sum are those of the convolved distribution. */
  method StratifiedP(strata: seq<Stratum>) returns (p: real, obs: nat, exp: real)
    ensures p == ConvolvedP(strata) && obs == Observed(strata) && exp == Expected(strata)
  {
    hide Convolved, Mass, MassOf, Low, High, Observed, Expected, SumOver, Ints, Comb;
    var dist := map[0 := 1.0];
    var low, high := 0, 0;
    obs, exp := 0, 0.0;
    NoStrata();
    assert strata[..0] == [];
    for i := 0 to |strata|
      invariant low == Low(strata[..i]) && high == High(strata[..i])
      invariant obs == Observed(strata[..i]) && exp == Expected(strata[..i])
      invariant Convolved(dist, strata[..i])
    {
      var st := strata[i];
      NextStratum(strata, i);
      ConvolvedIsMass(dist, strata[..i]);
      var pmf := HypergeomPmf(st);
      var mean := MeanOf(st.Lo(), st.Hi(), pmf, PmfOf(st));
      obs, exp := obs + st.a, exp + mean;
      dist := Convolve(dist, low, high, MassOf(strata[..i]), st.Lo(), st.Hi(), pmf, PmfOf(st));
      low, high := low + st.Lo(), high + st.Hi();
      NextConvolved(strata, i, dist);
    }
    assert strata[..|strata|] == strata;
    ConvolvedIsMass(dist, strata);
    p := TailOf(strata, dist, low, high, obs);
  }
}
