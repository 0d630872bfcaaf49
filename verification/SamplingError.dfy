/** The standard error that benchmarks/arm_readout.py reports beside a sampled p: over all lists of draws, the
    hits scatter around n times the exact p with n p (1 - p) as their mean square. */
module SamplingError {
  import opened Folds
  import opened Products
  import opened Relabelling
  import opened Shuffles
  import opened SampledLevel
  import A = ArmReadout

  // ---- sums of independent values ----

  function Squared(a: real): real { a * a }

  /** (a + the sum of g over the list) squared. */
  function SquareFrom<T>(a: real, g: T -> real): seq<T> -> real {
    (s: seq<T>) => Squared(a + SumOver(s, g))
  }

  function Scaled<T>(c: real, f: T -> real): T -> real { (x: T) => c * f(x) }
  function SquareOf<T>(g: T -> real): T -> real { (x: T) => Squared(g(x)) }
  function Constant<T>(c: real): T -> real { (x: T) => c }

  lemma {:induction false} SumScaled<T>(s: seq<T>, c: real, f: T -> real)
    ensures SumOver(s, Scaled(c, f)) == c * SumOver(s, f)
  {
    if s != [] {
      SumScaled(s[1..], c, f);
      Distribute(c, f(s[0]), SumOver(s[1..], f));
    }
  }

  lemma Distribute(c: real, x: real, y: real)
    ensures c * (x + y) == c * x + c * y
  {
  }

  lemma {:induction false} SumConstant<T>(s: seq<T>, c: real)
    ensures SumOver(s, Constant<T>(c)) == |s| as real * c
  {
    SumOfOne(s, Constant<T>(c), c);
    RepeatIsProduct(|s|, c);
  }

  /** a^2 + n v: the mean square of a sum of n values of mean 0 and mean square v, from a on. */
  function Spreading(a: real, n: nat, v: real): real { Squared(a) + Repeat(n, v) }

  function SpreadingAfter<T>(a: real, n: nat, v: real, g: T -> real): T -> real {
    (x: T) => Spreading(a + g(x), n, v)
  }

  function Plus<T>(f: T -> real, h: T -> real): T -> real { (x: T) => f(x) + h(x) }

  lemma Expand<T>(a: real, g: T -> real, x: T)
    ensures Squared(a + g(x)) == Squared(a) + Plus(Scaled(2.0 * a, g), SquareOf(g))(x)
  {
    SquareOfSum(a, g(x));
  }

  lemma SquareOfSum(a: real, y: real)
    ensures Squared(a + y) == Squared(a) + ((2.0 * a) * y + Squared(y))
  {
    assert (a + y) * (a + y) == a * a + a * y + y * a + y * y;
  }

  lemma SpreadAt<T>(a: real, m: nat, v: real, g: T -> real, x: T)
    ensures SpreadingAfter(a, m, v, g)(x)
         == Constant<T>(Squared(a) + Repeat(m, v))(x) + Plus(Scaled(2.0 * a, g), SquareOf(g))(x)
  {
    hide Squared, Scaled, SquareOf, Plus, Repeat;
    Expand(a, g, x);
  }

  /** One more value adds v to the mean square, as the values have mean 0. */
  lemma SpreadSum<T>(vs: seq<T>, a: real, m: nat, v: real, g: T -> real)
    requires SumOver(vs, g) == 0.0 && SumOver(vs, SquareOf(g)) == |vs| as real * v
    ensures SumOver(vs, SpreadingAfter(a, m, v, g)) == |vs| as real * Spreading(a, m + 1, v)
  {
    hide SumOver, Squared, Repeat;
    var w := Repeat(m, v);
    var c, l, q := Constant<T>(Squared(a) + w), Scaled(2.0 * a, g), SquareOf(g);
    forall x | x in vs ensures SpreadingAfter(a, m, v, g)(x) == c(x) + Plus(l, q)(x) {
      SpreadAt(a, m, v, g, x);
    }
    SumOverAdd(vs, c, Plus(l, q), SpreadingAfter(a, m, v, g));
    SumOverAdd(vs, l, q, Plus(l, q));
    SumConstant(vs, Squared(a) + w);
    SumScaled(vs, 2.0 * a, g);
    OneMoreValue(|vs| as real, Squared(a), m, v);
  }

  lemma OneMoreValue(n: real, b: real, m: nat, v: real)
    ensures n * (b + Repeat(m, v)) + n * v == n * (b + Repeat(m + 1, v))
  {
    Distribute(n, b + Repeat(m, v), v);
    assert b + Repeat(m, v) + v == b + Repeat(m + 1, v);
  }

  lemma HeadSquare<T>(tails: seq<seq<T>>, a: real, g: T -> real, x: T)
    ensures SumOver(tails, WithHead(SquareFrom(a, g), x)) == SumOver(tails, SquareFrom(a + g(x), g))
  {
    hide SumOver, Squared;
    forall t | t in tails ensures WithHead(SquareFrom(a, g), x)(t) == SquareFrom(a + g(x), g)(t) {
      HeadSum(x, t, g);
    }
    SumOverSame(tails, WithHead(SquareFrom(a, g), x), SquareFrom(a + g(x), g));
  }

  lemma HeadSum<T>(x: T, t: seq<T>, g: T -> real)
    ensures SumOver([x] + t, g) == g(x) + SumOver(t, g)
  {
    assert ([x] + t)[1..] == t;
  }

  lemma Regroup(t: nat, n: nat, s: real)
    ensures t as real * (n as real * s) == (n * t) as real * s
  {
    var x, y := t as real, n as real;
    assert x * (y * s) == (y * x) * s;
  }

  lemma NoValues<T>(vs: seq<T>, a: real, v: real, g: T -> real)
    ensures SumOver(Tuples(vs, 0), SquareFrom(a, g)) == |Tuples(vs, 0)| as real * Spreading(a, 0, v)
  {
    hide Squared;
    var one: seq<seq<T>> := [[]];
    assert Tuples(vs, 0) == one && one[1..] == [];
    assert SumOver(one, SquareFrom(a, g)) == SquareFrom(a, g)(one[0]) + SumOver(one[1..], SquareFrom(a, g));
    assert SumOver(one[0], g) == 0.0;
  }

  /** Over all lists of n values of mean 0 and mean square v, the square of a plus their sum averages
      a^2 + n v. */
  lemma {:induction false} MeanSquare<T>(vs: seq<T>, n: nat, a: real, v: real, g: T -> real)
    requires SumOver(vs, g) == 0.0 && SumOver(vs, SquareOf(g)) == |vs| as real * v
    ensures SumOver(Tuples(vs, n), SquareFrom(a, g)) == |Tuples(vs, n)| as real * Spreading(a, n, v)
    decreases n
  {
    hide SumOver, Tuples, Squared, Spreading;
    if n == 0 {
      NoValues(vs, a, v, g);
    } else {
      var m := n - 1;
      var c := |Tuples(vs, m)|;
      FirstOf(vs, n, SquareFrom(a, g));
      forall x | x in vs
        ensures ByFirst(vs, m, SquareFrom(a, g))(x) == Scaled(c as real, SpreadingAfter(a, m, v, g))(x)
      {
        HeadSquare(Tuples(vs, m), a, g, x);
        MeanSquare(vs, m, a + g(x), v, g);
      }
      SumOverSame(vs, ByFirst(vs, m, SquareFrom(a, g)), Scaled(c as real, SpreadingAfter(a, m, v, g)));
      SumScaled(vs, c as real, SpreadingAfter(a, m, v, g));
      SpreadSum(vs, a, m, v, g);
      CountTuples(vs, n);
      Regroup(c, |vs|, Spreading(a, n, v));
    }
  }

  lemma CountTuples<T>(vs: seq<T>, n: nat)
    requires n > 0
    ensures |Tuples(vs, n)| == |vs| * |Tuples(vs, n - 1)|
  {
    OuterCount(vs, Tuples(vs, n - 1));
  }

  // ---- indicators ----

  /** f less its mean. */
  function Less<T>(f: T -> real, p: real): T -> real { (x: T) => f(x) - p }

  lemma IndicatorSquare(y: real, p: real)
    requires y == 0.0 || y == 1.0
    ensures Squared(y - p) == (1.0 - 2.0 * p) * y + p * p
  {
  }

  lemma Shares(n: real, p: real)
    ensures (1.0 - 2.0 * p) * (n * p) + n * (p * p) == n * (p * (1.0 - p))
  {
    var q := n * p;
    assert (1.0 - 2.0 * p) * q == q - 2.0 * (p * q);
    assert p * q == n * (p * p);
    assert p * (1.0 - p) == p - p * p;
    assert n * (p - p * p) == n * p - n * (p * p);
  }

  /** Values 0 and 1 with the share p of ones: mean square p (1 - p) about their mean. */
  lemma IndicatorSpread<T>(vs: seq<T>, f: T -> real, p: real)
    requires (forall x :: x in vs ==> f(x) == 0.0 || f(x) == 1.0) && SumOver(vs, f) == |vs| as real * p
    ensures SumOver(vs, Less(f, p)) == 0.0
    ensures SumOver(vs, SquareOf(Less(f, p))) == |vs| as real * (p * (1.0 - p))
  {
    hide SumOver, Squared;
    var g, l, c := Less(f, p), Scaled(1.0 - 2.0 * p, f), Constant<T>(p * p);
    SumConstant(vs, p);
    SumOverAdd(vs, g, Constant<T>(p), f);
    forall x | x in vs ensures SquareOf(g)(x) == l(x) + c(x) {
      IndicatorSquare(f(x), p);
    }
    SumOverAdd(vs, l, c, SquareOf(g));
    SumScaled(vs, 1.0 - 2.0 * p, f);
    SumConstant(vs, p * p);
    Shares(|vs| as real, p);
  }

  lemma SumLess<T>(s: seq<T>, n: nat, f: T -> real, p: real)
    requires n == |s|
    ensures SumOver(s, Less(f, p)) == SumOver(s, f) - n as real * p
  {
    SumConstant(s, p);
    SumOverAdd(s, Less(f, p), Constant<T>(p), f);
  }

  // ---- hits ----

  /** How far the hits of a list of draws are from the expected number, squared. */
  function HitsMiss(positive: bool, batches: seq<Batch>, expected: real): seq<seq<Batch>> -> real {
    (draws: seq<seq<Batch>>) => Squared(SumOver(draws, A.At(positive, batches)) - expected)
  }

  /** How far the share of hits is from p, squared. */
  function ShareMiss(positive: bool, batches: seq<Batch>, p: real): seq<seq<Batch>> -> real {
    (draws: seq<seq<Batch>>) =>
      if draws == [] then 0.0 else Squared(SumOver(draws, A.At(positive, batches)) / |draws| as real - p)
  }

  lemma ShareOfSpace(batches: seq<Batch>, positive: bool, p: real)
    requires p == A.ExactP(batches, positive)
    ensures SumOver(SampleSpace(batches), A.At(positive, batches)) == |SampleSpace(batches)| as real * p
  {
    hide SumOver, SampleSpace, A.ExactP, A.At;
    var n := |SampleSpace(batches)|;
    A.SampledShareIsExactP(batches, positive, n);
    Undivided(SumOver(SampleSpace(batches), A.At(positive, batches)), n as real, p);
  }

  lemma Undivided(x: real, n: real, p: real)
    requires n > 0.0 && x / n == p
    ensures x == n * p
  {
  }

  lemma MissFromMean(positive: bool, batches: seq<Batch>, s: seq<seq<Batch>>, n: nat, p: real)
    requires |s| == n
    ensures HitsMiss(positive, batches, n as real * p)(s) == SquareFrom(0.0, Less(A.At(positive, batches), p))(s)
  {
    hide SumOver, Squared;
    SumLess(s, n, A.At(positive, batches), p);
  }

  lemma MissFromShare(positive: bool, batches: seq<Batch>, s: seq<seq<Batch>>, n: nat, p: real, c: real)
    requires |s| == n > 0 && c == 1.0 / (n as real * n as real)
    ensures ShareMiss(positive, batches, p)(s) == Scaled(c, HitsMiss(positive, batches, n as real * p))(s)
  {
    hide SumOver, Squared;
    MissPerDraw(SumOver(s, A.At(positive, batches)), n as real, p);
  }

  /** Over all lists of n draws the hits miss n p, with p the exact p, by n p (1 - p) in the mean square. */
  lemma HitsScatter(batches: seq<Batch>, positive: bool, n: nat, p: real, lists: nat)
    requires p == A.ExactP(batches, positive) && lists == |Tuples(SampleSpace(batches), n)|
    ensures SumOver(Tuples(SampleSpace(batches), n), HitsMiss(positive, batches, n as real * p))
         == lists as real * (n as real * (p * (1.0 - p)))
  {
    hide SumOver, Tuples, SampleSpace, Squared;
    var vs, f := SampleSpace(batches), A.At(positive, batches);
    ShareOfSpace(batches, positive, p);
    IndicatorSpread(vs, f, p);
    MeanSquare(vs, n, 0.0, p * (1.0 - p), Less(f, p));
    forall s | s in Tuples(vs, n)
      ensures HitsMiss(positive, batches, n as real * p)(s) == SquareFrom(0.0, Less(f, p))(s)
    {
      TupleLength(vs, n, s);
      MissFromMean(positive, batches, s, n, p);
    }
    SumOverSame(Tuples(vs, n), HitsMiss(positive, batches, n as real * p), SquareFrom(0.0, Less(f, p)));
    FromZero(n, p * (1.0 - p));
  }

  lemma FromZero(n: nat, v: real)
    ensures Spreading(0.0, n, v) == n as real * v
  {
    RepeatIsProduct(n, v);
  }

  lemma MissPerDraw(h: real, n: real, p: real)
    requires n > 0.0
    ensures Squared(h / n - p) == (1.0 / (n * n)) * Squared(h - n * p)
  {
    var q := h / n - p;
    assert q * n == h - n * p;
    SquareProduct(q, n);
    assert Squared(h - n * p) == Squared(q) * (n * n);
    Cancelled(Squared(q), n * n);
  }

  lemma SquareProduct(q: real, n: real)
    ensures Squared(q * n) == Squared(q) * (n * n)
  {
    assert (q * n) * (q * n) == (q * q) * (n * n);
  }

  lemma Cancelled(x: real, m: real)
    requires m > 0.0
    ensures (1.0 / m) * (x * m) == x
  {
    var i := 1.0 / m;
    assert i * m == 1.0;
    assert i * (x * m) == x * (i * m);
  }

  lemma PerDraw(n: nat, lists: nat, p: real, c: real, hits: real, shares: real)
    requires n > 0 && c == 1.0 / (n as real * n as real)
    requires hits == lists as real * (n as real * (p * (1.0 - p))) && shares == c * hits
    ensures shares == lists as real * A.Variance(p, n)
  {
    var m, l, v, q := n as real, lists as real, p * (1.0 - p), A.Variance(p, n);
    A.VarianceTimes(p, n);
    assert v == q * m;
    assert l * (m * v) == (l * q) * (m * m);
    Cancelled(l * q, m * m);
  }

  /** The square of the reported error, taken at the exact p, is the mean square by which the share of hits
      misses it over all lists of n draws. */
  lemma ErrorIsRootMeanSquare(batches: seq<Batch>, positive: bool, n: nat, p: real, lists: nat)
    requires n > 0 && p == A.ExactP(batches, positive) && lists == |Tuples(SampleSpace(batches), n)|
    ensures SumOver(Tuples(SampleSpace(batches), n), ShareMiss(positive, batches, p))
      == lists as real * A.Variance(p, n)
  {
    hide SumOver, Tuples, SampleSpace, Squared, A.Variance, A.ExactP, ShareMiss, HitsMiss;
    var ts, c := Tuples(SampleSpace(batches), n), 1.0 / (n as real * n as real);
    HitsScatter(batches, positive, n, p, lists);
    forall s | s in ts
      ensures ShareMiss(positive, batches, p)(s) == Scaled(c, HitsMiss(positive, batches, n as real * p))(s)
    {
      TupleLength(SampleSpace(batches), n, s);
      MissFromShare(positive, batches, s, n, p, c);
    }
    SumOverSame(ts, ShareMiss(positive, batches, p), Scaled(c, HitsMiss(positive, batches, n as real * p)));
    SumScaled(ts, c, HitsMiss(positive, batches, n as real * p));
    PerDraw(n, lists, p, c, SumOver(ts, HitsMiss(positive, batches, n as real * p)),
            SumOver(ts, ShareMiss(positive, batches, p)));
  }
}
