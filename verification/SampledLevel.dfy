/** The plus-one estimate of benchmarks/arm_readout.py keeps its level: the observed labelling and the
    draws are interchangeable, so it is no likelier than they to come out among the most extreme. */
module SampledLevel {
  import opened Folds
  import opened Products
  import opened Relabelling
  import opened Shuffles
  import A = ArmReadout

  // ---- tuples of draws ----

  /** Every list of m values of vs. */
  function Tuples<T>(vs: seq<T>, m: nat): seq<seq<T>>
  {
    if m == 0 then [[]] else Outer(vs, Tuples(vs, m - 1))
  }

  lemma {:induction false} TupleLength<T>(vs: seq<T>, m: nat, t: seq<T>)
    requires t in Tuples(vs, m)
    ensures |t| == m
  {
    if m > 0 {
      OuterHas(vs, Tuples(vs, m - 1), t);
      TupleLength(vs, m - 1, t[1..]);
    }
  }

  /** Summing over tuples is summing over the first place, then over the rest. */
  function ByFirst<T>(vs: seq<T>, m: nat, f: seq<T> -> real): T -> real {
    (x: T) => SumOver(Tuples(vs, m), WithHead(f, x))
  }

  lemma FirstPlace<T>(vs: seq<T>, m: nat, f: seq<T> -> real)
    ensures SumOver(Tuples(vs, m + 1), f) == SumOver(vs, ByFirst(vs, m, f))
  {
    SumOverOuter(vs, Tuples(vs, m), f, ByFirst(vs, m, f));
  }

  lemma FirstOf<T>(vs: seq<T>, m: nat, f: seq<T> -> real)
    requires m > 0
    ensures SumOver(Tuples(vs, m), f) == SumOver(vs, ByFirst(vs, m - 1, f))
  {
    assert m - 1 + 1 == m;
    FirstPlace(vs, m - 1, f);
  }

  function WithTwo<T>(vs: seq<T>, m: nat, f: seq<T> -> real): (T, T) -> real {
    (x: T, y: T) => SumOver(Tuples(vs, m), WithHead(WithHead(f, x), y))
  }

  lemma FirstTwo<T>(vs: seq<T>, m: nat, f: seq<T> -> real)
    ensures SumOver(Tuples(vs, m + 2), f) == SumOver(vs, RowSum(WithTwo(vs, m, f), vs))
  {
    FirstPlace(vs, m + 1, f);
    forall x | x in vs ensures ByFirst(vs, m + 1, f)(x) == RowSum(WithTwo(vs, m, f), vs)(x) {
      FirstPlace(vs, m, WithHead(f, x));
      SumOverSame(vs, ByFirst(vs, m, WithHead(f, x)), Fixed(WithTwo(vs, m, f), x));
    }
    SumOverSame(vs, ByFirst(vs, m + 1, f), RowSum(WithTwo(vs, m, f), vs));
  }

  function Swapped2<T>(f: seq<T> -> real): seq<T> -> real {
    (t: seq<T>) => if |t| < 2 then f(t) else f([t[1]] + ([t[0]] + t[2..]))
  }

  lemma SwappedWithTwo<T>(vs: seq<T>, m: nat, f: seq<T> -> real, x: T, y: T)
    ensures WithTwo(vs, m, Swapped2(f))(x, y) == WithTwo(vs, m, f)(y, x)
  {
    forall t | t in Tuples(vs, m) ensures WithHead(WithHead(Swapped2(f), x), y)(t) == WithHead(WithHead(f, y), x)(t) {
      var u := [x] + ([y] + t);
      assert u[0] == x && u[1] == y && u[2..] == t;
    }
    SumOverSame(Tuples(vs, m), WithHead(WithHead(Swapped2(f), x), y), WithHead(WithHead(f, y), x));
  }

  /** The first two places can be exchanged. */
  lemma SwapFirstTwo<T>(vs: seq<T>, m: nat, f: seq<T> -> real)
    ensures SumOver(Tuples(vs, m + 2), Swapped2(f)) == SumOver(Tuples(vs, m + 2), f)
  {
    var g, h := WithTwo(vs, m, f), WithTwo(vs, m, Swapped2(f));
    FirstTwo(vs, m, f);
    FirstTwo(vs, m, Swapped2(f));
    SumExchange(vs, vs, g);
    forall x | x in vs ensures RowSum(h, vs)(x) == RowSum(Flipped(g), vs)(x) {
      forall y | y in vs ensures Fixed(h, x)(y) == Fixed(Flipped(g), x)(y) {
        SwappedWithTwo(vs, m, f, x, y);
      }
      SumOverSame(vs, Fixed(h, x), Fixed(Flipped(g), x));
    }
    SumOverSame(vs, RowSum(h, vs), RowSum(Flipped(g), vs));
  }

  function ToFront<T>(t: seq<T>, j: nat): seq<T>
    requires j < |t|
  {
    [t[j]] + Without(t, j)
  }

  function Fronted<T>(f: seq<T> -> real, j: nat): seq<T> -> real {
    (t: seq<T>) => if j < |t| then f(ToFront(t, j)) else 0.0
  }

  /** f with x slipped in behind the first place. */
  function Second<T>(f: seq<T> -> real, x: T): seq<T> -> real {
    (t: seq<T>) => if t == [] then 0.0 else f([t[0]] + ([x] + t[1..]))
  }

  lemma FrontedBehind<T>(f: seq<T> -> real, j: nat, x: T, s: seq<T>)
    requires 0 < j <= |s|
    ensures WithHead(Fronted(f, j), x)(s) == Fronted(Second(f, x), j - 1)(s)
  {
    var t, u := [x] + s, ToFront(s, j - 1);
    assert t[j] == s[j - 1] && u[0] == s[j - 1] && u[1..] == Without(s, j - 1);
    assert Without(t, j) == [x] + Without(s, j - 1);
    assert ToFront(t, j) == [u[0]] + ([x] + u[1..]);
  }

  lemma SecondIsSwapped<T>(f: seq<T> -> real, x: T, s: seq<T>)
    requires s != []
    ensures Second(f, x)(s) == WithHead(Swapped2(f), x)(s)
  {
    var t := [x] + s;
    assert t[1] == s[0] && t[0] == x && t[2..] == s[1..];
  }

  /** Any place can be moved to the front. */
  lemma {:induction false} MoveToFront<T>(vs: seq<T>, m: nat, j: nat, f: seq<T> -> real)
    requires j < m
    ensures SumOver(Tuples(vs, m), Fronted(f, j)) == SumOver(Tuples(vs, m), f)
    decreases j
  {
    if j == 0 {
      AlreadyInFront(vs, m, f);
    } else {
      forall x | x in vs ensures ByFirst(vs, m - 1, Fronted(f, j))(x) == ByFirst(vs, m - 1, Swapped2(f))(x) {
        MoveBehind(vs, m - 1, j, f, x);
      }
      ThenSwap(vs, m - 2, j, f);
    }
  }

  lemma AlreadyInFront<T>(vs: seq<T>, m: nat, f: seq<T> -> real)
    requires m > 0
    ensures SumOver(Tuples(vs, m), Fronted(f, 0)) == SumOver(Tuples(vs, m), f)
  {
    forall t | t in Tuples(vs, m) ensures Fronted(f, 0)(t) == f(t) {
      TupleLength(vs, m, t);
      assert ToFront(t, 0) == t;
    }
    SumOverSame(Tuples(vs, m), Fronted(f, 0), f);
  }

  lemma ThenSwap<T>(vs: seq<T>, n: nat, j: nat, f: seq<T> -> real)
    requires forall x :: x in vs ==> ByFirst(vs, n + 1, Fronted(f, j))(x) == ByFirst(vs, n + 1, Swapped2(f))(x)
    ensures SumOver(Tuples(vs, n + 2), Fronted(f, j)) == SumOver(Tuples(vs, n + 2), f)
  {
    FirstPlace(vs, n + 1, Fronted(f, j));
    FirstPlace(vs, n + 1, Swapped2(f));
    SumOverSame(vs, ByFirst(vs, n + 1, Fronted(f, j)), ByFirst(vs, n + 1, Swapped2(f)));
    SwapFirstTwo(vs, n, f);
  }

  lemma {:induction false} MoveBehind<T>(vs: seq<T>, n: nat, j: nat, f: seq<T> -> real, x: T)
    requires 0 < j <= n
    ensures SumOver(Tuples(vs, n), WithHead(Fronted(f, j), x)) == SumOver(Tuples(vs, n), WithHead(Swapped2(f), x))
    decreases j, 0
  {
    forall s | s in Tuples(vs, n)
      ensures WithHead(Fronted(f, j), x)(s) == Fronted(Second(f, x), j - 1)(s)
      ensures Second(f, x)(s) == WithHead(Swapped2(f), x)(s)
    {
      TupleLength(vs, n, s);
      FrontedBehind(f, j, x, s);
      SecondIsSwapped(f, x, s);
    }
    SumOverSame(Tuples(vs, n), WithHead(Fronted(f, j), x), Fronted(Second(f, x), j - 1));
    MoveToFront(vs, n, j - 1, Second(f, x));
    SumOverSame(Tuples(vs, n), Second(f, x), WithHead(Swapped2(f), x));
  }

  // ---- few values of a list are among its most extreme ----

  /** How many of t are at least as extreme as x. */
  function Rank(positive: bool, t: seq<real>, x: real): real { SumOver(t, A.Extreme(positive, x)) }

  /** 1 where at most limit of t are at least as extreme as the value. */
  function Low(positive: bool, t: seq<real>, limit: real): real -> real {
    (x: real) => if Rank(positive, t, x) <= limit then 1.0 else 0.0
  }

  function Itself(): real -> real { (x: real) => x }

  /** At most limit values of a list have at most limit values as extreme. */
  lemma FewAreLow(positive: bool, t: seq<real>, limit: real)
    requires limit >= 0.0
    ensures SumOver(t, Low(positive, t, limit)) <= limit
  {
    var low := Low(positive, t, limit);
    var m := A.Mildest(t, low, Itself(), positive);
    if m == -1 {
      SumOverZero(t, low);
    } else {
      assert forall x :: x in t && low(x) == 1.0 ==> A.Beats(positive, Itself()(x), Itself()(t[m]));
      SumOverAtMost(t, low, A.Extreme(positive, t[m]));
    }
  }

  lemma {:induction false} SumByIndex<T>(xs: seq<T>, i: nat, f: T -> real, g: nat -> real)
    requires i <= |xs| && forall j :: i <= j < |xs| ==> g(j) == f(xs[j])
    ensures SumOver(Upto(i, |xs|), g) == SumOver(xs[i..], f)
    decreases |xs| - i
  {
    if i < |xs| {
      SumByIndex(xs, i + 1, f, g);
      assert Upto(i, |xs|)[1..] == Upto(i + 1, |xs|) && xs[i..][1..] == xs[i + 1..];
    }
  }

  lemma {:induction false} SumOfOne<T>(s: seq<T>, f: T -> real, c: real)
    requires forall x :: x in s ==> f(x) == c
    ensures SumOver(s, f) == Repeat(|s|, c)
  {
    if s != [] {
      SumOfOne(s[1..], f, c);
    }
  }

  lemma {:induction false} SumAtMost<T>(s: seq<T>, f: T -> real, c: real)
    requires forall x :: x in s ==> f(x) <= c
    ensures SumOver(s, f) <= Repeat(|s|, c)
  {
    if s != [] {
      SumAtMost(s[1..], f, c);
    }
  }

  // ---- interchangeable places ----

  /** 1 where at most limit of the tuple are at least as extreme as its first value. */
  function FirstLow(positive: bool, limit: real): seq<real> -> real {
    (t: seq<real>) => if t == [] then 0.0 else Low(positive, t, limit)(t[0])
  }

  lemma FrontedIsLow(positive: bool, limit: real, t: seq<real>, j: nat)
    requires j < |t|
    ensures Fronted(FirstLow(positive, limit), j)(t) == Low(positive, t, limit)(t[j])
  {
    WithoutMultiset(t, j);
    assert t[j] in multiset(t);
    assert multiset(ToFront(t, j)) == multiset(t);
    SumOverReordered(ToFront(t, j), t, A.Extreme(positive, t[j]));
    var f := ToFront(t, j);
    assert f[0] == t[j] && Rank(positive, f, t[j]) == Rank(positive, t, t[j]);
    assert FirstLow(positive, limit)(f) == Low(positive, f, limit)(f[0]);
  }

  function PlaceLow(positive: bool, limit: real): (seq<real>, nat) -> real {
    (t: seq<real>, j: nat) => Fronted(FirstLow(positive, limit), j)(t)
  }

  lemma PlacesOfOne(positive: bool, limit: real, t: seq<real>, m: nat)
    requires |t| == m && limit >= 0.0
    ensures RowSum(PlaceLow(positive, limit), Upto(0, m))(t) <= limit
  {
    var g := Fixed<seq<real>, nat>(PlaceLow(positive, limit), t);
    forall j | 0 <= j < |t| ensures g(j) == Low(positive, t, limit)(t[j]) {
      FrontedIsLow(positive, limit, t, j);
    }
    SumByIndex(t, 0, Low(positive, t, limit), g);
    assert t[0..] == t;
    FewAreLow(positive, t, limit);
  }

  /** Over all tuples, the first place is low at most limit/m of the time. */
  lemma FirstIsSeldomLow(positive: bool, vs: seq<real>, m: nat, limit: real)
    requires limit >= 0.0
    ensures Repeat(m, SumOver(Tuples(vs, m), FirstLow(positive, limit))) <= Repeat(|Tuples(vs, m)|, limit)
  {
    var ts, places, f := Tuples(vs, m), Upto(0, m), PlaceLow(positive, limit);
    forall t | t in ts ensures RowSum(f, places)(t) <= limit {
      TupleLength(vs, m, t);
      PlacesOfOne(positive, limit, t, m);
    }
    SumAtMost(ts, RowSum(f, places), limit);
    SumExchange(ts, places, f);
    forall j | j in places ensures RowSum(Flipped(f), ts)(j) == SumOver(ts, FirstLow(positive, limit)) {
      MoveToFront(vs, m, j, FirstLow(positive, limit));
      SumOverSame(ts, Fixed(Flipped(f), j), Fronted(FirstLow(positive, limit), j));
    }
    SumOfOne(places, RowSum(Flipped(f), ts), SumOver(ts, FirstLow(positive, limit)));
  }

  // ---- the estimate, over values ----

  /** (hits + 1) / (draws + 1) <= alpha, for draws with these totals and an observed total v. */
  function RefusesAt(positive: bool, alpha: real, v: real): seq<real> -> real {
    (s: seq<real>) => if (SumOver(s, A.Extreme(positive, v)) + 1.0) / (|s| + 1) as real <= alpha then 1.0 else 0.0
  }

  lemma ShareAtMost(h: real, n: nat, alpha: real, limit: real)
    requires n > 0 && limit == alpha * n as real
    ensures h / n as real <= alpha <==> h <= limit
  {
    var d := n as real;
    assert h == (h / d) * d;
    if h / d <= alpha {
      assert (h / d) * d <= alpha * d;
    }
  }

  /** The estimate counts the observed value among the draws: it is low exactly when the first place is. */
  lemma FirstLowIsRefusal(positive: bool, alpha: real, x: real, s: seq<real>, n: nat, limit: real)
    requires |s| == n && limit == alpha * (n + 1) as real
    ensures WithHead(FirstLow(positive, limit), x)(s) == RefusesAt(positive, alpha, x)(s)
  {
    var t := [x] + s;
    assert t[1..] == s && t[0] == x;
    assert FirstLow(positive, limit)(t) == Low(positive, t, limit)(t[0]);
    assert Rank(positive, t, x) == 1.0 + SumOver(s, A.Extreme(positive, x));
    ShareAtMost(SumOver(s, A.Extreme(positive, x)) + 1.0, n + 1, alpha, limit);
  }

  function Refused(positive: bool, alpha: real, vs: seq<real>, n: nat): real -> real {
    (v: real) => SumOver(Tuples(vs, n), RefusesAt(positive, alpha, v))
  }

  lemma RefusalsAreFirstLow(positive: bool, alpha: real, vs: seq<real>, n: nat, limit: real)
    requires limit == alpha * (n + 1) as real
    ensures SumOver(Tuples(vs, n + 1), FirstLow(positive, limit)) == SumOver(vs, Refused(positive, alpha, vs, n))
  {
    hide SumOver, Tuples, FirstLow, RefusesAt;
    FirstPlace(vs, n, FirstLow(positive, limit));
    forall x | x in vs ensures ByFirst(vs, n, FirstLow(positive, limit))(x) == Refused(positive, alpha, vs, n)(x) {
      RefusalsOf(positive, alpha, vs, n, limit, x);
    }
    SumOverSame(vs, ByFirst(vs, n, FirstLow(positive, limit)), Refused(positive, alpha, vs, n));
  }

  lemma RefusalsOf(positive: bool, alpha: real, vs: seq<real>, n: nat, limit: real, x: real)
    requires limit == alpha * (n + 1) as real
    ensures SumOver(Tuples(vs, n), WithHead(FirstLow(positive, limit), x))
      == SumOver(Tuples(vs, n), RefusesAt(positive, alpha, x))
  {
    hide SumOver, Tuples, FirstLow, RefusesAt;
    forall s | s in Tuples(vs, n)
      ensures WithHead(FirstLow(positive, limit), x)(s) == RefusesAt(positive, alpha, x)(s)
    {
      TupleLength(vs, n, s);
      FirstLowIsRefusal(positive, alpha, x, s, n, limit);
    }
    SumOverSame(Tuples(vs, n), WithHead(FirstLow(positive, limit), x), RefusesAt(positive, alpha, x));
  }

  lemma CancelPlaces(m: nat, x: real, k: nat, alpha: real, limit: real)
    requires m > 0 && limit == alpha * m as real && Repeat(m, x) <= Repeat(k, limit)
    ensures x <= Repeat(k, alpha)
  {
    RepeatIsProduct(m, x);
    RepeatIsProduct(k, limit);
    RepeatIsProduct(k, alpha);
    CancelFactor(m as real, x, k as real, alpha, limit, Repeat(m, x), Repeat(k, limit));
  }

  lemma CancelFactor(d: real, x: real, e: real, alpha: real, limit: real, l: real, r: real)
    requires d > 0.0 && l == d * x && limit == alpha * d && r == e * limit && l <= r
    ensures x <= e * alpha
  {
    Grouped(e, alpha, d);
    var y := e * alpha;
    assert d * (y - x) == d * y - d * x;
    assert d * (y - x) >= 0.0;
  }

  lemma Grouped(e: real, alpha: real, d: real)
    ensures e * (alpha * d) == d * (e * alpha)
  {
  }

  /** With the observed value drawn from the same list as the rest, at most a share alpha refuses. */
  lemma ValuesKeepLevel(positive: bool, alpha: real, vs: seq<real>, n: nat)
    requires alpha >= 0.0
    ensures SumOver(vs, Refused(positive, alpha, vs, n)) <= Repeat(|Tuples(vs, n + 1)|, alpha)
  {
    var limit := alpha * (n + 1) as real;
    assert limit >= 0.0;
    FirstIsSeldomLow(positive, vs, n + 1, limit);
    RefusalsAreFirstLow(positive, alpha, vs, n, limit);
    CancelPlaces(n + 1, SumOver(vs, Refused(positive, alpha, vs, n)), |Tuples(vs, n + 1)|, alpha, limit);
  }

  // ---- from values to labellings ----

  /** The totals of every outcome of one draw. */
  function DrawTotals(batches: seq<Batch>): seq<real> { Mapped(SampleSpace(batches), A.TotalOf()) }

  function Is(v: real): real -> real { (x: real) => if x == v then 1.0 else 0.0 }

  lemma {:induction false} Multiplicities(xs: seq<real>, v: real)
    ensures SumOver(xs, Is(v)) == multiset(xs)[v] as real
  {
    if xs != [] {
      assert xs == [xs[0]] + xs[1..];
      Multiplicities(xs[1..], v);
    }
  }

  lemma {:induction false} DrawSum(batches: seq<Batch>, f: real -> real)
    ensures SumOver(DrawTotals(batches), f) == Repeat(ShufflesPerArrangement(batches), Null(batches, f))
  {
    SumOverMapped(SampleSpace(batches), A.TotalOf(), f, AtTotal(f));
    SampledNullIsExactNull(batches, f);
  }

  lemma {:induction false} SameShuffles(arr: seq<Batch>, batches: seq<Batch>)
    requires Relabels(arr, batches)
    ensures ShufflesPerArrangement(arr) == ShufflesPerArrangement(batches)
  {
    if batches != [] {
      SameShuffles(arr[1..], batches[1..]);
    }
  }

  /** Relabelled data draw the same totals, equally often. */
  lemma SameDraws(arr: seq<Batch>, batches: seq<Batch>)
    requires Relabels(arr, batches)
    ensures multiset(DrawTotals(arr)) == multiset(DrawTotals(batches))
  {
    SameShuffles(arr, batches);
    forall v: real ensures multiset(DrawTotals(arr))[v] == multiset(DrawTotals(batches))[v] {
      Multiplicities(DrawTotals(arr), v);
      Multiplicities(DrawTotals(batches), v);
      DrawSum(arr, Is(v));
      DrawSum(batches, Is(v));
      NullRelabelled(arr, batches, Is(v));
    }
  }

  lemma {:induction false} TuplesReordered(a: seq<real>, b: seq<real>, n: nat, f: seq<real> -> real)
    requires multiset(a) == multiset(b)
    ensures SumOver(Tuples(a, n), f) == SumOver(Tuples(b, n), f)
  {
    if n > 0 {
      FirstOf(a, n, f);
      FirstOf(b, n, f);
      forall x | x in a ensures ByFirst(a, n - 1, f)(x) == ByFirst(b, n - 1, f)(x) {
        TuplesReordered(a, b, n - 1, WithHead(f, x));
      }
      BothReordered(a, b, ByFirst(a, n - 1, f), ByFirst(b, n - 1, f));
    }
  }

  lemma BothReordered<T>(a: seq<T>, b: seq<T>, f: T -> real, g: T -> real)
    requires multiset(a) == multiset(b) && forall x :: x in a ==> f(x) == g(x)
    ensures SumOver(a, f) == SumOver(b, g)
  {
    SumOverSame(a, f, g);
    SumOverReordered(a, b, g);
  }

  function AtTotals(f: seq<real> -> real): seq<seq<Batch>> -> real { (s: seq<seq<Batch>>) => f(Mapped(s, A.TotalOf())) }

  lemma TotalsWithHead(f: seq<real> -> real, x: seq<Batch>, s: seq<seq<Batch>>)
    ensures WithHead(AtTotals(f), x)(s) == AtTotals(WithHead(f, Total(x)))(s)
  {
    assert Mapped([x] + s, A.TotalOf()) == [Total(x)] + Mapped(s, A.TotalOf());
  }

  lemma {:induction false} TuplesOfTotals(space: seq<seq<Batch>>, n: nat, f: seq<real> -> real)
    ensures SumOver(Tuples(space, n), AtTotals(f)) == SumOver(Tuples(Mapped(space, A.TotalOf()), n), f)
  {
    hide SumOver, Tuples, Mapped;
    if n == 0 {
      NoTotals(space, f);
    } else {
      var vs := Mapped(space, A.TotalOf());
      FirstOf(space, n, AtTotals(f));
      FirstOf(vs, n, f);
      forall x | x in space ensures ByFirst(space, n - 1, AtTotals(f))(x) == ByFirst(vs, n - 1, f)(A.TotalOf()(x)) {
        OneOfTotals(Tuples(space, n - 1), f, x);
        TuplesOfTotals(space, n - 1, WithHead(f, Total(x)));
      }
      SumOverMapped(space, A.TotalOf(), ByFirst(vs, n - 1, f), ByFirst(space, n - 1, AtTotals(f)));
    }
  }

  lemma NoTotals(space: seq<seq<Batch>>, f: seq<real> -> real)
    ensures SumOver(Tuples(space, 0), AtTotals(f)) == SumOver(Tuples(Mapped(space, A.TotalOf()), 0), f)
  {
    assert Mapped<seq<Batch>, real>([], A.TotalOf()) == [];
  }

  lemma OneOfTotals(tuples: seq<seq<seq<Batch>>>, f: seq<real> -> real, x: seq<Batch>)
    ensures SumOver(tuples, WithHead(AtTotals(f), x)) == SumOver(tuples, AtTotals(WithHead(f, Total(x))))
  {
    forall s | s in tuples ensures WithHead(AtTotals(f), x)(s) == AtTotals(WithHead(f, Total(x)))(s) {
      TotalsWithHead(f, x, s);
    }
    SumOverSame(tuples, WithHead(AtTotals(f), x), AtTotals(WithHead(f, Total(x))));
  }

  /** The reported p for the given data and drawn labellings. */
  function SampledP(positive: bool, arr: seq<Batch>, draws: seq<seq<Batch>>): real {
    (SumOver(draws, A.At(positive, arr)) + 1.0) / (|draws| + 1) as real
  }

  function Refuses(positive: bool, alpha: real, arr: seq<Batch>): seq<seq<Batch>> -> real {
    (draws: seq<seq<Batch>>) => if SampledP(positive, arr, draws) <= alpha then 1.0 else 0.0
  }

  /** How many of the lists of n draws would have the labelling declared significant. */
  function Refusals(positive: bool, alpha: real, n: nat): seq<Batch> -> real {
    (arr: seq<Batch>) => SumOver(Tuples(SampleSpace(arr), n), Refuses(positive, alpha, arr))
  }

  lemma RefusesByTotals(positive: bool, alpha: real, arr: seq<Batch>, draws: seq<seq<Batch>>)
    ensures Refuses(positive, alpha, arr)(draws) == AtTotals(RefusesAt(positive, alpha, Total(arr)))(draws)
  {
    SumOverMapped(draws, A.TotalOf(), A.Extreme(positive, Total(arr)), A.At(positive, arr));
  }

  /** A labelling's refusals, counted over the totals that the original data draw. */
  lemma RefusalsByTotals(positive: bool, alpha: real, n: nat, arr: seq<Batch>, batches: seq<Batch>)
    requires Relabels(arr, batches)
    ensures Refusals(positive, alpha, n)(arr) == Refused(positive, alpha, DrawTotals(batches), n)(Total(arr))
  {
    var f := RefusesAt(positive, alpha, Total(arr));
    var tuples := Tuples(SampleSpace(arr), n);
    forall s | s in tuples ensures Refuses(positive, alpha, arr)(s) == AtTotals(f)(s) {
      RefusesByTotals(positive, alpha, arr, s);
    }
    SumOverSame(tuples, Refuses(positive, alpha, arr), AtTotals(f));
    TuplesOfTotals(SampleSpace(arr), n, f);
    SameDraws(arr, batches);
    TuplesReordered(DrawTotals(arr), DrawTotals(batches), n, f);
  }

  lemma AllRefusals(positive: bool, alpha: real, n: nat, batches: seq<Batch>)
    ensures SumOver(Arrangements(batches), Refusals(positive, alpha, n))
         == Null(batches, Refused(positive, alpha, DrawTotals(batches), n))
  {
    var g := Refused(positive, alpha, DrawTotals(batches), n);
    forall arr | arr in Arrangements(batches) ensures Refusals(positive, alpha, n)(arr) == AtTotal(g)(arr) {
      var m :| 0 <= m < |Arrangements(batches)| && Arrangements(batches)[m] == arr;
      ArrangementsRelabel(batches, m);
      RefusalsByTotals(positive, alpha, n, arr, batches);
    }
    SumOverSame(Arrangements(batches), Refusals(positive, alpha, n), AtTotal(g));
    NullIsSum(batches, g);
  }

  /** How many draws there are: so many shuffles for every arrangement. */
  lemma DrawCount(batches: seq<Batch>, space: nat)
    requires space == |Arrangements(batches)|
    ensures |DrawTotals(batches)| == ShufflesPerArrangement(batches) * space
  {
    SampledNullIsExactNull(batches, A.One<real>());
    NullIsSum(batches, A.One<real>());
    A.CountTotals(SampleSpace(batches));
    A.CountTotals(Arrangements(batches));
    RepeatIsProduct(ShufflesPerArrangement(batches), space as real);
    CountsAsReals(ShufflesPerArrangement(batches), space, |DrawTotals(batches)|);
  }

  lemma CountsAsReals(c: nat, n: nat, m: nat)
    requires m as real == c as real * n as real
    ensures m == c * n
  {
    assert (c * n) as real == c as real * n as real;
  }

  lemma {:induction false} CancelShuffles(c: nat, x: real, q: nat, all: nat, alpha: real)
    requires c > 0 && Repeat(c, x) <= Repeat(all, alpha) && all == c * q
    ensures x <= Repeat(q, alpha)
  {
    RepeatRepeat(c, q, alpha);
    RepeatIsProduct(c, x);
    RepeatIsProduct(c, Repeat(q, alpha));
    SmallerFactor(c as real, x, Repeat(q, alpha), Repeat(c, x), Repeat(c, Repeat(q, alpha)));
  }

  lemma Regrouped(c: nat, n: nat, t: nat, vs: nat, all: nat)
    requires vs == c * n && all == vs * t
    ensures all == c * (n * t)
  {
  }

  lemma SmallerFactor(d: real, x: real, y: real, l: real, r: real)
    requires d > 0.0 && l == d * x && r == d * y && l <= r
    ensures x <= y
  {
    assert d * (y - x) == d * y - d * x;
    assert d * (y - x) >= 0.0;
  }

  lemma {:induction false} SameTupleCount<S, T>(a: seq<S>, b: seq<T>, n: nat)
    requires |a| == |b|
    ensures |Tuples(a, n)| == |Tuples(b, n)|
  {
    if n > 0 {
      SameTupleCount(a, b, n - 1);
      OuterCount(a, Tuples(a, n - 1));
      OuterCount(b, Tuples(b, n - 1));
    }
  }

  lemma ShufflesBound(batches: seq<Batch>, positive: bool, alpha: real, n: nat, vs: seq<real>)
    requires alpha >= 0.0 && vs == DrawTotals(batches)
    ensures Repeat(ShufflesPerArrangement(batches), Null(batches, Refused(positive, alpha, vs, n)))
         <= Repeat(|Tuples(vs, n + 1)|, alpha)
  {
    DrawSum(batches, Refused(positive, alpha, vs, n));
    ValuesKeepLevel(positive, alpha, vs, n);
  }

  lemma TupleCount(batches: seq<Batch>, vs: seq<real>, n: nat, space: nat, tuples: nat, shuffles: nat)
    requires vs == DrawTotals(batches) && space == |Arrangements(batches)| && tuples == |Tuples(vs, n)|
    requires shuffles == ShufflesPerArrangement(batches)
    ensures |Tuples(vs, n + 1)| == shuffles * (space * tuples) && shuffles > 0
  {
    assert Tuples(vs, n + 1) == Outer(vs, Tuples(vs, n));
    OuterCount(vs, Tuples(vs, n));
    DrawCount(batches, space);
    A.ShufflesPerArrangementPositive(batches);
    Regrouped(shuffles, space, tuples, |vs|, |Tuples(vs, n + 1)|);
  }

  lemma RefusalsRepeated(batches: seq<Batch>, positive: bool, alpha: real, n: nat, vs: seq<real>, pairs: nat)
    requires alpha >= 0.0 && vs == DrawTotals(batches) && pairs == |Arrangements(batches)| * |Tuples(vs, n)|
    ensures SumOver(Arrangements(batches), Refusals(positive, alpha, n)) <= Repeat(pairs, alpha)
  {
    AllRefusals(positive, alpha, n, batches);
    ShufflesBound(batches, positive, alpha, n, vs);
    TupleCount(batches, vs, n, |Arrangements(batches)|, |Tuples(vs, n)|, ShufflesPerArrangement(batches));
    CancelShuffles(ShufflesPerArrangement(batches), Null(batches, Refused(positive, alpha, vs, n)), pairs,
      |Tuples(vs, n + 1)|, alpha);
  }

  /** The sampled test keeps its level: over all labellings of the pooled data and all lists of n draws, at
      most a share alpha has (hits + 1) / (n + 1) at most alpha. */
  lemma SampledTestKeepsItsLevel(batches: seq<Batch>, positive: bool, alpha: real, n: nat, pairs: nat)
    requires alpha >= 0.0 && pairs == |Arrangements(batches)| * |Tuples(SampleSpace(batches), n)|
    ensures SumOver(Arrangements(batches), Refusals(positive, alpha, n)) <= pairs as real * alpha
  {
    SameTupleCount(SampleSpace(batches), DrawTotals(batches), n);
    RefusalsRepeated(batches, positive, alpha, n, DrawTotals(batches), pairs);
    RepeatIsProduct(pairs, alpha);
  }

  function DrawnBy(batches: seq<Batch>): seq<seq<nat>> -> seq<Batch> {
    (draw: seq<seq<nat>>) => if |draw| == |batches| then A.Drawn(batches, draw) else []
  }

  /** It is the p that the sampled branch reports for a stream of draws. */
  lemma ReportedIsSampled(batches: seq<Batch>, positive: bool, stream: seq<seq<seq<nat>>>)
    requires forall d :: d in stream ==> A.DrawFor(batches, d)
    ensures SampledP(positive, batches, Mapped(stream, DrawnBy(batches)))
         == (A.Hits(batches, positive, stream) + 1.0) / (|stream| + 1) as real
    ensures forall d :: d in stream ==> DrawnBy(batches)(d) in SampleSpace(batches)
  {
    SumOverMapped(stream, DrawnBy(batches), A.At(positive, batches),
                  A.DrawnTotal(batches, A.Extreme(positive, Total(batches))));
    forall d | d in stream ensures DrawnBy(batches)(d) in SampleSpace(batches) {
      A.DrawnInSampleSpace(batches, d);
    }
  }
}
