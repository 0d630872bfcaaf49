/** Relabellings of 0/1 outcomes: only the number of successes that land in treatment matters, and
    v of them do in C(K, v) C(Z, k - v) ways. */
module BinaryOutcomes {
  import opened Folds
  import opened Binomials
  import opened Relabelling

  /** comb(n, k), 0 for negative k. */
  function CombI(n: nat, k: int): nat { if k < 0 then 0 else Comb(n, k) }

  lemma Pascal(n: nat, k: int)
    requires n > 0
    ensures CombI(n, k) == CombI(n - 1, k - 1) + CombI(n - 1, k)
  {
    if k == 0 {
      assert Comb(n - 1, 0) == 1;
    }
  }

  predicate Binary(pool: seq<real>) { forall i :: 0 <= i < |pool| ==> pool[i] == 0.0 || pool[i] == 1.0 }

  function Ones(pool: seq<real>): nat
  {
    if pool == [] then 0 else (if pool[0] == 1.0 then 1 else 0) + Ones(pool[1..])
  }

  lemma {:induction false} OnesAtMost(pool: seq<real>)
    ensures Ones(pool) <= |pool|
  {
    if pool != [] {
      OnesAtMost(pool[1..]);
    }
  }

  lemma {:induction false} OnesConcat(p: seq<real>, q: seq<real>)
    ensures Ones(p + q) == Ones(p) + Ones(q)
  {
    if p == [] {
      assert p + q == q;
    } else {
      OnesConcat(p[1..], q);
      assert (p + q)[1..] == p[1..] + q;
    }
  }

  /** What v treated and K - v control successes add up to. */
  function Line(v: int, K: int, alpha: real, beta: real): real { Repeat(v, alpha) + Repeat(K - v, beta) }

  function Tables(K: nat, Z: nat, k: int, alpha: real, beta: real, acc: real, g: real -> real): int -> real {
    (v: int) => Repeat(CombI(K, v) * CombI(Z, k - v), g(acc + Line(v, K, alpha, beta)))
  }

  lemma RepeatSplit(x: nat, y: nat, z: nat, s: real)
    ensures Repeat((x + y) * z, s) == Repeat(x * z, s) + Repeat(y * z, s)
  {
    RepeatMore(x * z, y * z, s);
    assert (x + y) * z == x * z + y * z;
  }

  lemma {:induction false} RepeatSplitRight(z: nat, x: nat, y: nat, s: real)
    ensures Repeat(z * (x + y), s) == Repeat(z * x, s) + Repeat(z * y, s)
  {
    RepeatMore(z * x, z * y, s);
    assert z * (x + y) == z * x + z * y;
  }

  lemma RepeatNone(x: nat, s: real)
    ensures Repeat(0 * x, s) == 0.0
  {
    assert 0 * x == 0;
  }

  /** T1 of the tables of K successes: those where the first success is treated. */
  function FirstTreated(K: nat, Z: nat, k: int, alpha: real, beta: real, acc: real, g: real -> real): int -> real
    requires K > 0
  {
    (v: int) => Repeat(CombI(K - 1, v - 1) * CombI(Z, k - v), g(acc + Line(v, K, alpha, beta)))
  }

  function FirstControl(K: nat, Z: nat, k: int, alpha: real, beta: real, acc: real, g: real -> real): int -> real
    requires K > 0
  {
    (v: int) => Repeat(CombI(K - 1, v) * CombI(Z, k - v), g(acc + Line(v, K, alpha, beta)))
  }

  lemma OneMoreSuccess(K: nat, Z: nat, k: int, alpha: real, beta: real, acc: real, g: real -> real)
    requires K > 0
    ensures SumOver(Ints(0, K), Tables(K - 1, Z, k - 1, alpha, beta, acc + alpha, g))
          + SumOver(Ints(0, K), Tables(K - 1, Z, k, alpha, beta, acc + beta, g))
         == SumOver(Ints(0, K + 1), Tables(K, Z, k, alpha, beta, acc, g))
  {
    var t, t1, t2 := Tables(K, Z, k, alpha, beta, acc, g), FirstTreated(K, Z, k, alpha, beta, acc, g),
      FirstControl(K, Z, k, alpha, beta, acc, g);
    var s1, s2 := Tables(K - 1, Z, k - 1, alpha, beta, acc + alpha, g), Tables(K - 1, Z, k, alpha, beta, acc + beta, g);
    forall v | v in Ints(0, K + 1)
      ensures t(v) == t1(v) + t2(v)
    {
      Pascal(K, v);
      RepeatSplit(CombI(K - 1, v - 1), CombI(K - 1, v), CombI(Z, k - v), g(acc + Line(v, K, alpha, beta)));
    }
    SumOverAdd(Ints(0, K + 1), t1, t2, t);
    TreatedPart(K, Z, k, alpha, beta, acc, g);
    ControlPart(K, Z, k, alpha, beta, acc, g);
  }

  lemma TreatedPart(K: nat, Z: nat, k: int, alpha: real, beta: real, acc: real, g: real -> real)
    requires K > 0
    ensures SumOver(Ints(0, K), Tables(K - 1, Z, k - 1, alpha, beta, acc + alpha, g))
         == SumOver(Ints(0, K + 1), FirstTreated(K, Z, k, alpha, beta, acc, g))
  {
    var t, s := FirstTreated(K, Z, k, alpha, beta, acc, g), Tables(K - 1, Z, k - 1, alpha, beta, acc + alpha, g);
    forall v | 0 <= v < K
      ensures t(v + 1) == s(v)
    {
      assert Line(v + 1, K, alpha, beta) == alpha + Line(v, K - 1, alpha, beta);
      assert acc + alpha + Line(v, K - 1, alpha, beta) == acc + Line(v + 1, K, alpha, beta);
      assert k - 1 - v == k - (v + 1);
    }
    RepeatNone(CombI(Z, k), g(acc + Line(0, K, alpha, beta)));
    assert t(0) == 0.0;
    ShiftSumFrom(0, K, s, t);
    assert Ints(0, K + 1)[1..] == Ints(1, K + 1);
  }

  lemma {:induction false} ShiftSumFrom(lo: int, hi: int, s: int -> real, t: int -> real)
    requires forall v :: lo <= v < hi ==> t(v + 1) == s(v)
    ensures SumOver(Ints(lo, hi), s) == SumOver(Ints(lo + 1, hi + 1), t)
    decreases hi - lo
  {
    if lo < hi {
      ShiftSumFrom(lo + 1, hi, s, t);
      assert Ints(lo, hi)[1..] == Ints(lo + 1, hi);
      assert Ints(lo + 1, hi + 1)[1..] == Ints(lo + 2, hi + 1);
    }
  }

  lemma ControlPart(K: nat, Z: nat, k: int, alpha: real, beta: real, acc: real, g: real -> real)
    requires K > 0
    ensures SumOver(Ints(0, K), Tables(K - 1, Z, k, alpha, beta, acc + beta, g))
         == SumOver(Ints(0, K + 1), FirstControl(K, Z, k, alpha, beta, acc, g))
  {
    var t, s := FirstControl(K, Z, k, alpha, beta, acc, g), Tables(K - 1, Z, k, alpha, beta, acc + beta, g);
    forall v | v in Ints(0, K)
      ensures s(v) == t(v)
    {
      assert Line(v, K, alpha, beta) == beta + Line(v, K - 1, alpha, beta);
      assert acc + beta + Line(v, K - 1, alpha, beta) == acc + Line(v, K, alpha, beta);
    }
    SumOverSame(Ints(0, K), s, t);
    SumOverNextInt(0, K, t);
    CombOutside(K - 1, K);
    RepeatNone(CombI(Z, k - K), g(acc + Line(K, K, alpha, beta)));
    assert t(K) == 0.0;
  }

  lemma OneMoreFailure(K: nat, Z: nat, k: int, alpha: real, beta: real, acc: real, g: real -> real)
    requires Z > 0
    ensures SumOver(Ints(0, K + 1), Tables(K, Z - 1, k - 1, alpha, beta, acc, g))
          + SumOver(Ints(0, K + 1), Tables(K, Z - 1, k, alpha, beta, acc, g))
         == SumOver(Ints(0, K + 1), Tables(K, Z, k, alpha, beta, acc, g))
  {
    var t, t1, t2 := Tables(K, Z, k, alpha, beta, acc, g), Tables(K, Z - 1, k - 1, alpha, beta, acc, g),
      Tables(K, Z - 1, k, alpha, beta, acc, g);
    forall v | v in Ints(0, K + 1)
      ensures t(v) == t1(v) + t2(v)
    {
      Pascal(Z, k - v);
      assert k - v - 1 == k - 1 - v;
      RepeatSplitRight(CombI(K, v), CombI(Z - 1, k - 1 - v), CombI(Z - 1, k - v), g(acc + Line(v, K, alpha, beta)));
    }
    SumOverAdd(Ints(0, K + 1), t1, t2, t);
  }

  /** The sum over the number of treated successes in a 0/1 pool. */
  function ByOnes(pool: seq<real>, k: int, alpha: real, beta: real, acc: real, g: real -> real): real {
    OnesAtMost(pool);
    SumOver(Ints(0, Ones(pool) + 1), Tables(Ones(pool), |pool| - Ones(pool), k, alpha, beta, acc, g))
  }

  lemma ByOnesIs(pool: seq<real>, k: int, alpha: real, beta: real, acc: real, g: real -> real, K: nat, Z: nat, top: int)
    requires Ones(pool) == K && |pool| == K + Z && top == K + 1
    ensures ByOnes(pool, k, alpha, beta, acc, g) == SumOver(Ints(0, top), Tables(K, Z, k, alpha, beta, acc, g))
  {
    assert |pool| - Ones(pool) == Z && Ones(pool) + 1 == top;
  }

  lemma ByOnesSuccess(rest: seq<real>, k: int, alpha: real, beta: real, acc: real, g: real -> real)
    ensures ByOnes(rest, k - 1, alpha, beta, acc + alpha, g) + ByOnes(rest, k, alpha, beta, acc + beta, g)
         == ByOnes([1.0] + rest, k, alpha, beta, acc, g)
  {
    hide ByOnes, Tables, SumOver, Ints;
    OnesAtMost(rest);
    assert ([1.0] + rest)[1..] == rest;
    var K, Z := Ones(rest) + 1, |rest| - Ones(rest);
    ByOnesIs(rest, k - 1, alpha, beta, acc + alpha, g, K - 1, Z, K);
    ByOnesIs(rest, k, alpha, beta, acc + beta, g, K - 1, Z, K);
    ByOnesIs([1.0] + rest, k, alpha, beta, acc, g, K, Z, K + 1);
    OneMoreSuccess(K, Z, k, alpha, beta, acc, g);
  }

  lemma ByOnesFailure(rest: seq<real>, k: int, alpha: real, beta: real, acc: real, g: real -> real)
    ensures ByOnes(rest, k - 1, alpha, beta, acc, g) + ByOnes(rest, k, alpha, beta, acc, g)
         == ByOnes([0.0] + rest, k, alpha, beta, acc, g)
  {
    hide ByOnes, Tables, SumOver, Ints;
    OnesAtMost(rest);
    assert ([0.0] + rest)[1..] == rest;
    var K, Z := Ones(rest), |rest| + 1 - Ones(rest);
    ByOnesIs(rest, k - 1, alpha, beta, acc, g, K, Z - 1, K + 1);
    ByOnesIs(rest, k, alpha, beta, acc, g, K, Z - 1, K + 1);
    ByOnesIs([0.0] + rest, k, alpha, beta, acc, g, K, Z, K + 1);
    OneMoreFailure(K, Z, k, alpha, beta, acc, g);
  }

  /** Summing over all splits of a 0/1 pool is summing over the number of treated successes. */
  lemma {:induction false} BinarySpread(pool: seq<real>, k: int, a: real -> real, b: real -> real, acc: real,
                                        g: real -> real)
    requires Binary(pool) && a(0.0) == 0.0 && b(0.0) == 0.0
    ensures Spread(pool, k, a, b, acc, g) == ByOnes(pool, k, a(1.0), b(1.0), acc, g)
  {
    if pool == [] {
      NoOutcomes(k, a(1.0), b(1.0), acc, g);
    } else {
      var x, rest := pool[0], pool[1..];
      assert pool == [x] + rest;
      BinarySpread(rest, k - 1, a, b, acc + a(x), g);
      BinarySpread(rest, k, a, b, acc + b(x), g);
      if x == 1.0 {
        ByOnesSuccess(rest, k, a(1.0), b(1.0), acc, g);
      } else {
        ByOnesFailure(rest, k, a(1.0), b(1.0), acc, g);
      }
    }
  }

  lemma NoOutcomes(k: int, alpha: real, beta: real, acc: real, g: real -> real)
    ensures SumOver(Ints(0, 1), Tables(0, 0, k, alpha, beta, acc, g)) == if k == 0 then g(acc) else 0.0
  {
    var t := Tables(0, 0, k, alpha, beta, acc, g);
    SumOverNextInt(0, 0, t);
    assert Line(0, 0, alpha, beta) == 0.0;
    assert CombI(0, 0) == 1;
    if k == 0 {
      assert t(0) == Repeat(1, g(acc));
    } else {
      assert CombI(0, k) == 0;
      assert t(0) == Repeat(0, g(acc));
    }
  }
}
