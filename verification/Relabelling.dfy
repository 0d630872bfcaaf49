/** Within-batch relabellings: which arrangements there are, and what a statistic summed over all
    of them depends on. Both arm_readout and arm_power enumerate them this way. */
module Relabelling {
  import opened Folds
  import opened Binomials
  import opened Products

  /** One batch: the treated scores and the control scores. */
  datatype Batch = Batch(treat: seq<real>, control: seq<real>) {
    function Pool(): seq<real> { treat + control }

    /** statistics.mean raises on an empty list, so every caller must supply both arms. */
    predicate BothArms() { treat != [] && control != [] }

    function Diff(): real { Mean(treat) - Mean(control) }
  }

  /** statistics.mean; 0 for the empty list, which BothArms keeps out of every call. */
  function Mean(xs: seq<real>): real {
    if xs == [] then 0.0 else Sum(xs) / |xs| as real
  }

  predicate BothArms(batches: seq<Batch>) {
    forall b :: b in batches ==> b.BothArms()
  }

  /** The statistic: the sum of the batches' mean differences. */
  function Total(batches: seq<Batch>): real
  {
    if batches == [] then 0.0 else batches[0].Diff() + Total(batches[1..])
  }

  // ---- the enumeration, index by index, as itertools.combinations writes it ----

  function Prepend(i: nat): seq<nat> -> seq<nat> { (idx: seq<nat>) => [i] + idx }

  /** itertools.combinations(range(i, n), k), in its lexicographic order. */
  function Combinations(i: nat, n: nat, k: nat): seq<seq<nat>>
    requires i <= n
    decreases n - i
  {
    if k == 0 then [[]]
    else if i == n then []
    else Mapped(Combinations(i + 1, n, k - 1), Prepend(i)) + Combinations(i + 1, n, k)
  }

  predicate Within(idx: seq<nat>, i: nat, n: nat) {
    forall j :: 0 <= j < |idx| ==> i <= idx[j] < n
  }

  lemma {:induction false} CombinationsWithin(i: nat, n: nat, k: nat, m: nat)
    requires i <= n && m < |Combinations(i, n, k)|
    ensures |Combinations(i, n, k)[m]| == k && Within(Combinations(i, n, k)[m], i, n)
    decreases n - i
  {
    if k > 0 && i < n {
      CombinationsSize(i, n, k);
      if m < |Combinations(i + 1, n, k - 1)| {
        CombinationSooner(i, n, k, m);
        CombinationsWithin(i + 1, n, k - 1, m);
      } else {
        var j := m - |Combinations(i + 1, n, k - 1)|;
        CombinationLater(i, n, k, m, j);
        CombinationsWithin(i + 1, n, k, j);
      }
    }
  }

  lemma CombinationsSize(i: nat, n: nat, k: nat)
    requires i < n && k > 0
    ensures |Combinations(i, n, k)| == |Combinations(i + 1, n, k - 1)| + |Combinations(i + 1, n, k)|
  {
  }

  lemma CombinationSooner(i: nat, n: nat, k: nat, m: nat)
    requires i < n && k > 0 && m < |Combinations(i + 1, n, k - 1)|
    ensures m < |Combinations(i, n, k)| && Combinations(i, n, k)[m] == [i] + Combinations(i + 1, n, k - 1)[m]
  {
  }

  lemma CombinationLater(i: nat, n: nat, k: nat, m: nat, j: nat)
    requires i < n && k > 0 && j < |Combinations(i + 1, n, k)| && m == |Combinations(i + 1, n, k - 1)| + j
    ensures m < |Combinations(i, n, k)| && Combinations(i, n, k)[m] == Combinations(i + 1, n, k)[j]
  {
  }

  /** The scores that the index set picks. */
  function Picked(pool: seq<real>, idx: seq<nat>): seq<real>
    requires Within(idx, 0, |pool|)
  {
    if idx == [] then []
    else [pool[idx[0]]] + Picked(pool, idx[1..])
  }

  /** The scores it leaves, from position j on. */
  function Left(pool: seq<real>, idx: seq<nat>, j: nat): seq<real>
    requires j <= |pool|
    decreases |pool| - j
  {
    if j == |pool| then []
    else (if j in idx then [] else [pool[j]]) + Left(pool, idx, j + 1)
  }

  /** The arrangement an index set stands for. */
  function Arrange(pool: seq<real>, idx: seq<nat>): Batch
    requires Within(idx, 0, |pool|)
  {
    Batch(Picked(pool, idx), Left(pool, idx, 0))
  }

  // ---- the same enumeration, by recursion on the pool ----

  function ToTreat(x: real): Batch -> Batch { (s: Batch) => Batch([x] + s.treat, s.control) }
  function ToControl(x: real): Batch -> Batch { (s: Batch) => Batch(s.treat, [x] + s.control) }

  /** x joins treatment in each of ins, control in each of outs. */
  function Deal(x: real, ins: seq<Batch>, outs: seq<Batch>): seq<Batch> {
    Mapped(ins, ToTreat(x)) + Mapped(outs, ToControl(x))
  }

  /** Every way to deal k of the pool's scores to treatment and the rest to control. */
  function Splits(pool: seq<real>, k: int): seq<Batch>
  {
    if pool == [] then (if k == 0 then [Batch([], [])] else [])
    else Deal(pool[0], Splits(pool[1..], k - 1), Splits(pool[1..], k))
  }

  lemma {:induction false} SplitsNegative(pool: seq<real>, k: int)
    requires k < 0
    ensures Splits(pool, k) == []
  {
    if pool != [] {
      SplitsNegative(pool[1..], k - 1);
      SplitsNegative(pool[1..], k);
    }
  }

  lemma {:induction false} LeftSkips(pool: seq<real>, i: nat, idx: seq<nat>, j: nat)
    requires i < j <= |pool|
    ensures Left(pool, [i] + idx, j) == Left(pool, idx, j)
    decreases |pool| - j
  {
    if j < |pool| {
      LeftSkips(pool, i, idx, j + 1);
    }
  }

  lemma {:induction false} LeftAll(pool: seq<real>, j: nat)
    requires j <= |pool|
    ensures Left(pool, [], j) == pool[j..]
    ensures Splits(pool[j..], 0) == [Batch([], pool[j..])]
    decreases |pool| - j
  {
    if j < |pool| {
      LeftAll(pool, j + 1);
      assert pool[j..][1..] == pool[j + 1..];
      SplitsNegative(pool[j + 1..], -1);
      assert ToControl(pool[j])(Batch([], pool[j + 1..])) == Batch([], pool[j..]);
    }
  }

  /** The index enumeration and the recursive one list the same arrangements in the same order. */
  lemma {:induction false} SplitsAreCombinations(pool: seq<real>, i: nat, k: nat)
    requires i <= |pool|
    ensures |Splits(pool[i..], k)| == |Combinations(i, |pool|, k)|
    decreases |pool| - i
  {
    if k == 0 {
      LeftAll(pool, i);
    } else if i < |pool| {
      assert pool[i..][1..] == pool[i + 1..];
      SplitsAreCombinations(pool, i + 1, k - 1);
      SplitsAreCombinations(pool, i + 1, k);
    }
  }

  lemma {:induction false} SplitIsCombination(pool: seq<real>, i: nat, k: nat, m: nat)
    requires i <= |pool| && m < |Combinations(i, |pool|, k)|
    ensures |Splits(pool[i..], k)| == |Combinations(i, |pool|, k)|
    ensures var idx := Combinations(i, |pool|, k)[m];
      Within(idx, i, |pool|) && Splits(pool[i..], k)[m] == Batch(Picked(pool, idx), Left(pool, idx, i))
    decreases |pool| - i
  {
    hide Splits, Combinations, Picked, Left;
    SplitsAreCombinations(pool, i, k);
    CombinationsWithin(i, |pool|, k, m);
    if k == 0 {
      NonePicked(pool, i, m);
    } else {
      SomeLeft(i, |pool|, k);
      SplitsAreCombinations(pool, i + 1, k - 1);
      SplitsAreCombinations(pool, i + 1, k);
      CombinationsSize(i, |pool|, k);
      if m < |Combinations(i + 1, |pool|, k - 1)| {
        SplitIsCombination(pool, i + 1, k - 1, m);
        SoonerSplit(pool, i, k, m);
      } else {
        var j := m - |Combinations(i + 1, |pool|, k - 1)|;
        SplitIsCombination(pool, i + 1, k, j);
        LaterSplit(pool, i, k, m, j);
      }
    }
  }

  lemma NonePicked(pool: seq<real>, i: nat, m: nat)
    requires i <= |pool| && m < |Combinations(i, |pool|, 0)|
    ensures Arranges(pool, i, 0, m)
  {
    LeftAll(pool, i);
  }

  lemma SomeLeft(i: nat, n: nat, k: nat)
    requires i <= n && k > 0 && |Combinations(i, n, k)| > 0
    ensures i < n
  {
  }

  /** idx is the m-th combination from i on, and the m-th split arranges it. */
  predicate Arranges(pool: seq<real>, i: nat, k: nat, m: nat)
    requires i <= |pool|
  {
    m < |Splits(pool[i..], k)| && m < |Combinations(i, |pool|, k)|
    && var idx := Combinations(i, |pool|, k)[m];
       Within(idx, i, |pool|) && Splits(pool[i..], k)[m] == Batch(Picked(pool, idx), Left(pool, idx, i))
  }

  lemma SoonerSplit(pool: seq<real>, i: nat, k: nat, m: nat)
    requires i < |pool| && k > 0 && Arranges(pool, i + 1, k - 1, m)
    ensures Arranges(pool, i, k, m)
  {
    assert pool[i..] == [pool[i]] + pool[i + 1..];
    SplitsSooner(pool[i], pool[i + 1..], k, m);
    CombinationSooner(i, |pool|, k, m);
    PickedNext(pool, i, Combinations(i + 1, |pool|, k - 1)[m]);
  }

  lemma LaterSplit(pool: seq<real>, i: nat, k: nat, m: nat, j: nat)
    requires i < |pool| && k > 0 && Arranges(pool, i + 1, k, j)
    requires m == |Combinations(i + 1, |pool|, k - 1)| + j == |Splits(pool[i + 1..], k - 1)| + j
    ensures Arranges(pool, i, k, m)
  {
    assert pool[i..] == [pool[i]] + pool[i + 1..];
    SplitsLater(pool[i], pool[i + 1..], k, m, j);
    CombinationLater(i, |pool|, k, m, j);
    NotPicked(pool, i, Combinations(i + 1, |pool|, k)[j]);
  }

  lemma PickedNext(pool: seq<real>, i: nat, idx: seq<nat>)
    requires i < |pool| && Within(idx, i + 1, |pool|)
    ensures ToTreat(pool[i])(Batch(Picked(pool, idx), Left(pool, idx, i + 1)))
         == Batch(Picked(pool, [i] + idx), Left(pool, [i] + idx, i))
  {
    var all := [i] + idx;
    LeftSkips(pool, i, idx, i + 1);
    assert all[0] == i && all[1..] == idx && i in all;
    assert Picked(pool, all) == [pool[i]] + Picked(pool, idx);
    assert Left(pool, all, i) == Left(pool, all, i + 1);
  }

  lemma NotPicked(pool: seq<real>, i: nat, idx: seq<nat>)
    requires i < |pool| && Within(idx, i + 1, |pool|)
    ensures ToControl(pool[i])(Batch(Picked(pool, idx), Left(pool, idx, i + 1)))
         == Batch(Picked(pool, idx), Left(pool, idx, i))
  {
  }

  lemma SplitsSize(x: real, rest: seq<real>, k: int)
    ensures |Splits([x] + rest, k)| == |Splits(rest, k - 1)| + |Splits(rest, k)|
  {
    assert ([x] + rest)[1..] == rest;
  }

  /** The splits that treat x come first. */
  lemma SplitsSooner(x: real, rest: seq<real>, k: int, m: nat)
    requires m < |Splits(rest, k - 1)|
    ensures m < |Splits([x] + rest, k)| && Splits([x] + rest, k)[m] == ToTreat(x)(Splits(rest, k - 1)[m])
  {
    assert ([x] + rest)[1..] == rest;
  }

  lemma SplitsLater(x: real, rest: seq<real>, k: int, m: nat, j: nat)
    requires j < |Splits(rest, k)| && m == |Splits(rest, k - 1)| + j
    ensures m < |Splits([x] + rest, k)| && Splits([x] + rest, k)[m] == ToControl(x)(Splits(rest, k)[j])
  {
    assert ([x] + rest)[1..] == rest;
  }

  lemma {:induction false} SplitsCount(pool: seq<real>, k: nat)
    ensures |Splits(pool, k)| == Comb(|pool|, k)
  {
    if pool != [] {
      SplitsCount(pool[1..], k);
      if k > 0 {
        SplitsCount(pool[1..], k - 1);
      } else {
        SplitsNegative(pool[1..], -1);
        assert Comb(|pool| - 1, 0) == 1;
      }
    }
  }

  /** s deals k of the pool's scores to treatment and keeps every score exactly once. */
  predicate DealOf(s: Batch, pool: seq<real>, k: int) {
    |s.treat| == k && |s.treat| + |s.control| == |pool| && multiset(s.Pool()) == multiset(pool)
  }

  lemma {:induction false} SplitsShape(pool: seq<real>, k: int, m: nat)
    requires m < |Splits(pool, k)|
    ensures DealOf(Splits(pool, k)[m], pool, k)
  {
    if pool != [] {
      var x, rest := pool[0], pool[1..];
      assert pool == [x] + rest;
      SplitsSize(x, rest, k);
      if m < |Splits(rest, k - 1)| {
        SplitsSooner(x, rest, k, m);
        SplitsShape(rest, k - 1, m);
        DealtToTreat(x, Splits(rest, k - 1)[m], rest, k - 1);
      } else {
        var j := m - |Splits(rest, k - 1)|;
        SplitsLater(x, rest, k, m, j);
        SplitsShape(rest, k, j);
        DealtToControl(x, Splits(rest, k)[j], rest, k);
      }
    }
  }

  lemma DealtToTreat(x: real, s: Batch, rest: seq<real>, k: int)
    requires DealOf(s, rest, k)
    ensures DealOf(ToTreat(x)(s), [x] + rest, k + 1)
  {
    assert ([x] + s.treat) + s.control == [x] + s.Pool();
  }

  lemma DealtToControl(x: real, s: Batch, rest: seq<real>, k: int)
    requires DealOf(s, rest, k)
    ensures DealOf(ToControl(x)(s), [x] + rest, k)
  {
    assert s.treat + ([x] + s.control) == s.treat + [x] + s.control;
  }

  /** The first arrangement listed is the pool dealt in its own order: the observed one. */
  lemma {:induction false} ObservedFirst(treat: seq<real>, control: seq<real>)
    ensures |Splits(treat + control, |treat|)| > 0
    ensures Splits(treat + control, |treat|)[0] == Batch(treat, control)
  {
    if treat == [] {
      LeftAll(control, 0);
      assert treat + control == control == control[0..];
    } else {
      assert (treat + control)[1..] == treat[1..] + control;
      ObservedFirst(treat[1..], control);
      assert ToTreat(treat[0])(Batch(treat[1..], control)) == Batch(treat, control);
      assert [treat[0]] + treat[1..] == treat;
    }
  }

  // ---- a sum over all relabellings, and its invariances ----

  /** What an arrangement adds up to when a treated score x counts a(x) and a control score b(x). */
  function Value(s: Batch, a: real -> real, b: real -> real): real {
    SumOver(s.treat, a) + SumOver(s.control, b)
  }

  function Worth(a: real -> real, b: real -> real, acc: real, g: real -> real): Batch -> real {
    (s: Batch) => g(acc + Value(s, a, b))
  }

  /** The sum of g(acc + Value(s)) over all splits s of the pool, one score at a time. */
  function Spread(pool: seq<real>, k: int, a: real -> real, b: real -> real, acc: real, g: real -> real): real
  {
    if pool == [] then (if k == 0 then g(acc) else 0.0)
    else
      Spread(pool[1..], k - 1, a, b, acc + a(pool[0]), g)
      + Spread(pool[1..], k, a, b, acc + b(pool[0]), g)
  }

  /** No split deals more scores than there are, or fewer than none. */
  lemma {:induction false} SpreadNone(pool: seq<real>, k: int, a: real -> real, b: real -> real, acc: real,
                                      g: real -> real)
    requires k < 0 || k > |pool|
    ensures Spread(pool, k, a, b, acc, g) == 0.0
  {
    if pool != [] {
      SpreadNone(pool[1..], k - 1, a, b, acc + a(pool[0]), g);
      SpreadNone(pool[1..], k, a, b, acc + b(pool[0]), g);
    }
  }

  lemma {:induction false} SpreadIsSum(pool: seq<real>, k: int, a: real -> real, b: real -> real, acc: real,
                                       g: real -> real)
    ensures SumOver(Splits(pool, k), Worth(a, b, acc, g)) == Spread(pool, k, a, b, acc, g)
  {
    if pool == [] {
      SumOverEmptyDeal(a, b, acc, g);
    } else {
      SpreadIsSum(pool[1..], k, a, b, acc + b(pool[0]), g);
      SpreadIsSum(pool[1..], k - 1, a, b, acc + a(pool[0]), g);
      SumOverDealt(Splits(pool[1..], k - 1), Splits(pool[1..], k), a, b, acc, g, pool[0]);
    }
  }

  lemma SumOverEmptyDeal(a: real -> real, b: real -> real, acc: real, g: real -> real)
    ensures SumOver([Batch([], [])], Worth(a, b, acc, g)) == g(acc)
  {
    var s := Batch([], []);
    assert Value(s, a, b) == 0.0;
    assert [s][1..] == [];
  }

  lemma SumOverDealt(ins: seq<Batch>, outs: seq<Batch>, a: real -> real, b: real -> real, acc: real,
                     g: real -> real, x: real)
    ensures SumOver(Deal(x, ins, outs), Worth(a, b, acc, g))
         == SumOver(ins, Worth(a, b, acc + a(x), g)) + SumOver(outs, Worth(a, b, acc + b(x), g))
  {
    var w, wa, wb := Worth(a, b, acc, g), Worth(a, b, acc + a(x), g), Worth(a, b, acc + b(x), g);
    SumOverConcat(Mapped(ins, ToTreat(x)), Mapped(outs, ToControl(x)), w);
    forall s: Batch
      ensures wa(s) == w(ToTreat(x)(s)) && wb(s) == w(ToControl(x)(s))
    {
      DealtWorth(x, s, a, b, acc, g);
    }
    SumOverMapped(ins, ToTreat(x), w, wa);
    SumOverMapped(outs, ToControl(x), w, wb);
  }

  lemma DealtWorth(x: real, s: Batch, a: real -> real, b: real -> real, acc: real, g: real -> real)
    ensures Worth(a, b, acc + a(x), g)(s) == Worth(a, b, acc, g)(ToTreat(x)(s))
    ensures Worth(a, b, acc + b(x), g)(s) == Worth(a, b, acc, g)(ToControl(x)(s))
  {
    DealtValue(x, s, a, b);
    assert acc + (a(x) + Value(s, a, b)) == acc + a(x) + Value(s, a, b);
    assert acc + (b(x) + Value(s, a, b)) == acc + b(x) + Value(s, a, b);
  }

  lemma DealtValue(x: real, s: Batch, a: real -> real, b: real -> real)
    ensures Value(ToTreat(x)(s), a, b) == a(x) + Value(s, a, b)
    ensures Value(ToControl(x)(s), a, b) == b(x) + Value(s, a, b)
  {
    assert ([x] + s.treat)[1..] == s.treat && ([x] + s.control)[1..] == s.control;
  }

  /** Swapping the first two scores changes nothing. */
  lemma SpreadSwap(x: real, y: real, r: seq<real>, k: int, a: real -> real, b: real -> real, acc: real, g: real -> real)
    ensures Spread([x] + ([y] + r), k, a, b, acc, g) == Spread([y] + ([x] + r), k, a, b, acc, g)
  {
    SpreadTwo(x, y, r, k, a, b, acc, g);
    SpreadTwo(y, x, r, k, a, b, acc, g);
    assert acc + a(x) + a(y) == acc + a(y) + a(x);
    assert acc + b(x) + b(y) == acc + b(y) + b(x);
    assert acc + a(x) + b(y) == acc + b(y) + a(x);
    assert acc + b(x) + a(y) == acc + a(y) + b(x);
  }

  lemma SpreadTwo(x: real, y: real, r: seq<real>, k: int, a: real -> real, b: real -> real, acc: real, g: real -> real)
    ensures Spread([x] + ([y] + r), k, a, b, acc, g)
         == Spread(r, k - 2, a, b, acc + a(x) + a(y), g)
          + Spread(r, k - 1, a, b, acc + a(x) + b(y), g)
          + Spread(r, k - 1, a, b, acc + b(x) + a(y), g)
          + Spread(r, k, a, b, acc + b(x) + b(y), g)
  {
    var t := [y] + r;
    assert ([x] + t)[1..] == t && t[1..] == r;
  }

  /** Moving one score to the front changes nothing. */
  lemma {:induction false} SpreadFront(pool: seq<real>, j: nat, k: int, a: real -> real, b: real -> real, acc: real,
                                       g: real -> real)
    requires j < |pool|
    ensures Spread([pool[j]] + Without(pool, j), k, a, b, acc, g) == Spread(pool, k, a, b, acc, g)
  {
    if j == 0 {
      assert [pool[0]] + Without(pool, 0) == pool;
    } else {
      var x, y, rest := pool[j], pool[0], pool[1..];
      var r := Without(rest, j - 1);
      assert Without(pool, j) == [y] + r;
      SpreadSwap(x, y, r, k, a, b, acc, g);
      assert ([y] + ([x] + r))[1..] == [x] + r;
      SpreadFront(rest, j - 1, k, a, b, acc + b(y), g);
      SpreadFront(rest, j - 1, k - 1, a, b, acc + a(y), g);
    }
  }

  /** The null depends on the pooled scores only as a multiset: relabelling the data first changes
      the order in which arrangements are met and nothing else. */
  lemma {:induction false} SpreadReordered(p: seq<real>, q: seq<real>, k: int, a: real -> real, b: real -> real,
                                           acc: real, g: real -> real)
    requires multiset(p) == multiset(q)
    ensures Spread(p, k, a, b, acc, g) == Spread(q, k, a, b, acc, g)
    decreases |p|
  {
    if p == [] {
      assert |multiset(q)| == |q|;
      assert q == [];
    } else {
      var x, p' := p[0], p[1..];
      var j := MatchFirst(p, q);
      var r := Without(q, j);
      SpreadFront(q, j, k, a, b, acc, g);
      assert ([x] + r)[1..] == r;
      SpreadReordered(p', r, k, a, b, acc + b(x), g);
      SpreadReordered(p', r, k - 1, a, b, acc + a(x), g);
    }
  }

  lemma {:induction false} SpreadSame(pool: seq<real>, k: int, a: real -> real, b: real -> real, acc: real,
                                      g: real -> real, h: real -> real)
    requires forall x :: g(x) == h(x)
    ensures Spread(pool, k, a, b, acc, g) == Spread(pool, k, a, b, acc, h)
  {
    if pool != [] {
      SpreadSame(pool[1..], k - 1, a, b, acc + a(pool[0]), g, h);
      SpreadSame(pool[1..], k, a, b, acc + b(pool[0]), g, h);
    }
  }

  // ---- several batches ----

  /** All relabellings of one batch: its pool, dealt to arms of the same sizes. */
  function Relabellings(b: Batch): seq<Batch> { Splits(b.Pool(), |b.treat|) }

  function AllRelabellings(batches: seq<Batch>): (r: seq<seq<Batch>>)
    ensures |r| == |batches|
  {
    if batches == [] then [] else [Relabellings(batches[0])] + AllRelabellings(batches[1..])
  }

  lemma {:induction false} RelabellingsAt(batches: seq<Batch>, k: nat)
    requires k < |batches|
    ensures |AllRelabellings(batches)| == |batches| && AllRelabellings(batches)[k] == Relabellings(batches[k])
  {
    if k > 0 {
      RelabellingsAt(batches[1..], k - 1);
    } else if |batches| > 1 {
      RelabellingsAt(batches[1..], 0);
    }
  }

  /** Every relabelling of every batch, in every combination. */
  function Arrangements(batches: seq<Batch>): seq<seq<Batch>> { Product(AllRelabellings(batches)) }

  /** The size the source multiplies up: the product of C(|pool|, |treat|). */
  function RelabelSpace(batches: seq<Batch>): nat
  {
    if batches == [] then 1
    else Comb(|batches[0].Pool()|, |batches[0].treat|) * RelabelSpace(batches[1..])
  }

  lemma {:induction false} ArrangementsCount(batches: seq<Batch>)
    ensures |Arrangements(batches)| == RelabelSpace(batches)
  {
    if batches != [] {
      var b := batches[0];
      ArrangementsCount(batches[1..]);
      SplitsCount(b.Pool(), |b.treat|);
      OuterCount(Relabellings(b), Arrangements(batches[1..]));
      assert AllRelabellings(batches)[1..] == AllRelabellings(batches[1..]);
    }
  }

  /** A treated score's part in the mean difference, and a control score's. */
  function Gain(n: nat): real -> real { (x: real) => if n == 0 then 0.0 else x / n as real }
  function Loss(n: nat): real -> real { (x: real) => if n == 0 then 0.0 else -x / n as real }

  lemma {:induction false} MeanIsGains(xs: seq<real>, n: nat)
    requires n > 0
    ensures Sum(xs) / n as real == SumOver(xs, Gain(n))
    ensures -Sum(xs) / n as real == SumOver(xs, Loss(n))
  {
    if xs != [] {
      MeanIsGains(xs[1..], n);
    }
  }

  lemma DiffIsValue(s: Batch)
    ensures s.Diff() == Value(s, Gain(|s.treat|), Loss(|s.control|))
  {
    if s.treat != [] {
      MeanIsGains(s.treat, |s.treat|);
    }
    if s.control != [] {
      MeanIsGains(s.control, |s.control|);
    }
  }

  function Plus(f: real -> real, x: real): real -> real { (y: real) => f(x + y) }

  function AtTotal(f: real -> real): seq<Batch> -> real { (arr: seq<Batch>) => f(Total(arr)) }

  function Behind(rest: seq<Batch>, f: real -> real): real -> real
    decreases |rest|, 1
  {
    (x: real) => Null(rest, Plus(f, x))
  }

  /** The sum of f(Total(arr)) over all arrangements, batch by batch and score by score. */
  function Null(batches: seq<Batch>, f: real -> real): real
    decreases |batches|, 0
  {
    if batches == [] then f(0.0)
    else
      var b := batches[0];
      Spread(b.Pool(), |b.treat|, Gain(|b.treat|), Loss(|b.control|), 0.0, Behind(batches[1..], f))
  }

  function WithHead<T>(f: seq<T> -> real, x: T): seq<T> -> real { (t: seq<T>) => f([x] + t) }

  lemma {:induction false} SumOverOuter<T>(xs: seq<T>, tails: seq<seq<T>>, f: seq<T> -> real, h: T -> real)
    requires forall x :: x in xs ==> h(x) == SumOver(tails, WithHead(f, x))
    ensures SumOver(Outer(xs, tails), f) == SumOver(xs, h)
  {
    if xs != [] {
      var x := xs[0];
      SumOverMapped(tails, Before(x), f, WithHead(f, x));
      SumOverConcat(Mapped(tails, Before(x)), Outer(xs[1..], tails), f);
      SumOverOuter(xs[1..], tails, f, h);
    }
  }

  lemma TotalWithHead(s: Batch, tails: seq<seq<Batch>>, f: real -> real)
    ensures SumOver(tails, WithHead(AtTotal(f), s)) == SumOver(tails, AtTotal(Plus(f, s.Diff())))
  {
    forall t | t in tails
      ensures WithHead(AtTotal(f), s)(t) == AtTotal(Plus(f, s.Diff()))(t)
    {
      assert ([s] + t)[1..] == t;
      assert Total([s] + t) == s.Diff() + Total(t);
    }
    SumOverSame(tails, WithHead(AtTotal(f), s), AtTotal(Plus(f, s.Diff())));
  }

  /** Adding up over the enumerated arrangements is the recursion over batches and scores. */
  lemma {:induction false} NullIsSum(batches: seq<Batch>, f: real -> real)
    ensures SumOver(Arrangements(batches), AtTotal(f)) == Null(batches, f)
    decreases |batches|
  {
    if batches == [] {
      assert Arrangements(batches) == [[]];
      var one := Arrangements(batches);
      assert one[1..] == [] && Total(one[0]) == 0.0;
      assert SumOver(one, AtTotal(f)) == AtTotal(f)(one[0]) + SumOver(one[1..], AtTotal(f));
    } else {
      var b, rest := batches[0], batches[1..];
      var a, l, g := Gain(|b.treat|), Loss(|b.control|), Behind(rest, f);
      var tails := Arrangements(rest);
      assert AllRelabellings(batches)[1..] == AllRelabellings(rest);
      forall s | s in Relabellings(b)
        ensures Worth(a, l, 0.0, g)(s) == SumOver(tails, WithHead(AtTotal(f), s))
      {
        var m :| 0 <= m < |Relabellings(b)| && Relabellings(b)[m] == s;
        SplitsShape(b.Pool(), |b.treat|, m);
        DiffIsValue(s);
        NullIsSum(rest, Plus(f, s.Diff()));
        TotalWithHead(s, tails, f);
      }
      SumOverOuter(Relabellings(b), tails, AtTotal(f), Worth(a, l, 0.0, g));
      SpreadIsSum(b.Pool(), |b.treat|, a, l, 0.0, g);
    }
  }

  lemma {:induction false} NullSame(batches: seq<Batch>, f: real -> real, g: real -> real)
    requires forall x :: f(x) == g(x)
    ensures Null(batches, f) == Null(batches, g)
    decreases |batches|
  {
    if batches != [] {
      var b, rest := batches[0], batches[1..];
      forall x
        ensures Behind(rest, f)(x) == Behind(rest, g)(x)
      {
        NullSame(rest, Plus(f, x), Plus(g, x));
      }
      SpreadSame(b.Pool(), |b.treat|, Gain(|b.treat|), Loss(|b.control|), 0.0, Behind(rest, f), Behind(rest, g));
    }
  }

  /** arr relabels batches: same arm sizes and the same pooled scores, batch by batch. */
  predicate Relabels(arr: seq<Batch>, batches: seq<Batch>) {
    |arr| == |batches|
    && forall i :: 0 <= i < |arr| ==>
      |arr[i].treat| == |batches[i].treat|
      && |arr[i].control| == |batches[i].control|
      && multiset(arr[i].Pool()) == multiset(batches[i].Pool())
  }

  /** Relabelling the data first does not change the null distribution. */
  lemma {:induction false} NullRelabelled(arr: seq<Batch>, batches: seq<Batch>, f: real -> real)
    requires Relabels(arr, batches)
    ensures Null(arr, f) == Null(batches, f)
    decreases |batches|
  {
    if batches != [] {
      var b, c := batches[0], arr[0];
      var n1, n2 := |b.treat|, |b.control|;
      forall x
        ensures Behind(arr[1..], f)(x) == Behind(batches[1..], f)(x)
      {
        NullRelabelled(arr[1..], batches[1..], Plus(f, x));
      }
      SpreadReordered(c.Pool(), b.Pool(), n1, Gain(n1), Loss(n2), 0.0, Behind(arr[1..], f));
      SpreadSame(b.Pool(), n1, Gain(n1), Loss(n2), 0.0, Behind(arr[1..], f), Behind(batches[1..], f));
    }
  }

  /** Every enumerated arrangement relabels the batches. */
  lemma {:induction false} ArrangementsRelabel(batches: seq<Batch>, m: nat)
    requires m < |Arrangements(batches)|
    ensures Relabels(Arrangements(batches)[m], batches)
    decreases |batches|
  {
    if batches != [] {
      var b := batches[0];
      assert AllRelabellings(batches)[1..] == AllRelabellings(batches[1..]);
      var i, j := OuterAt(Relabellings(b), Arrangements(batches[1..]), m);
      SplitsShape(b.Pool(), |b.treat|, i);
      ArrangementsRelabel(batches[1..], j);
    }
  }

  /** The observed labelling is itself one of the arrangements: the first. */
  lemma {:induction false} ObservedArrangement(batches: seq<Batch>)
    ensures |Arrangements(batches)| > 0 && Arrangements(batches)[0] == batches
    decreases |batches|
  {
    if batches != [] {
      var b := batches[0];
      ObservedArrangement(batches[1..]);
      ObservedFirst(b.treat, b.control);
      assert AllRelabellings(batches)[1..] == AllRelabellings(batches[1..]);
      assert Before(b)(batches[1..]) == batches;
    }
  }
}
