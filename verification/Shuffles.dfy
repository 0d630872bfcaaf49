/** random.shuffle, and why sampling shuffles targets the same null as enumerating relabellings:
    every relabelling comes from exactly k!(n-k)! shuffles of its pool. */
module Shuffles {
  import opened Folds
  import opened Binomials
  import opened Products
  import opened Relabelling

  /** The positions from i up to n. */
  function Upto(i: nat, n: nat): (r: seq<nat>)
    requires i <= n
    ensures |r| == n - i
    ensures forall j :: 0 <= j < n - i ==> r[j] == i + j
    decreases n - i
  {
    if i == n then [] else [i] + Upto(i + 1, n)
  }

  /** The random numbers one shuffle of n items consumes: randbelow(n), randbelow(n - 1), ..., randbelow(2). */
  predicate Draws(cs: seq<nat>, n: nat) {
    |cs| == (if n == 0 then 0 else n - 1)
    && forall t :: 0 <= t < |cs| ==> cs[t] < n - t
  }

  /** All of them. */
  function AllDraws(n: nat): seq<seq<nat>>
  {
    if n <= 1 then [[]] else Outer(Upto(0, n), AllDraws(n - 1))
  }

  /** AllDraws lists exactly the draws a shuffle can consume, n! of them. */
  lemma {:induction false} DrawsListed(cs: seq<nat>, n: nat)
    ensures cs in AllDraws(n) <==> Draws(cs, n)
    ensures |AllDraws(n)| == Factorial(n)
  {
    if n <= 1 {
      assert Factorial(1) == 1 * Factorial(0) && Factorial(0) == 1;
    } else {
      DrawsListed(if cs == [] then [] else cs[1..], n - 1);
      OuterHas(Upto(0, n), AllDraws(n - 1), cs);
      OuterCount(Upto(0, n), AllDraws(n - 1));
      UptoHas(n);
      if cs != [] {
        DrawsFirst(cs, n);
      }
    }
  }

  lemma UptoHas(n: nat)
    ensures forall x: nat :: x in Upto(0, n) <==> x < n
  {
    forall x: nat | x < n ensures x in Upto(0, n) {
      assert Upto(0, n)[x] == x;
    }
  }

  lemma DrawsFirst(cs: seq<nat>, n: nat)
    requires n > 1 && cs != []
    ensures Draws(cs, n) <==> cs[0] < n && Draws(cs[1..], n - 1)
  {
    if cs[0] < n && Draws(cs[1..], n - 1) {
      forall t | 0 <= t < |cs| ensures cs[t] < n - t {
        if t > 0 {
          assert cs[t] == cs[1..][t - 1];
        }
      }
    }
  }

  function Swapped(xs: seq<real>, j: nat): seq<real>
    requires j < |xs|
  {
    xs[j := xs[|xs| - 1]][|xs| - 1 := xs[j]]
  }

  /** What a shuffle turns xs into: the last place is settled first. */
  function Shuffled(xs: seq<real>, cs: seq<nat>): (r: seq<real>)
    ensures |r| == |xs|
    decreases |xs|
  {
    if |xs| <= 1 || cs == [] || cs[0] >= |xs| then xs
    else Shuffled(Swapped(xs, cs[0])[..|xs| - 1], cs[1..]) + [xs[cs[0]]]
  }

  /** One exchange of the loop below: place m - 1 is settled, the first m - 1 places remain. */
  lemma ExchangeStep(xs: seq<real>, m: nat, cs: seq<nat>)
    requires 1 < m <= |xs| && cs != [] && cs[0] < m
    ensures var ys := xs[m - 1 := xs[cs[0]]][cs[0] := xs[m - 1]];
      Shuffled(xs[..m], cs) + xs[m..] == Shuffled(ys[..m - 1], cs[1..]) + ys[m - 1..]
  {
    var j := cs[0];
    var ys := xs[m - 1 := xs[j]][j := xs[m - 1]];
    assert ys[..m - 1] == Rest(xs[..m], j);
    assert ys[m - 1..] == [xs[j]] + xs[m..];
    assert cs == [j] + cs[1..];
    ShuffledStep(xs[..m], j, cs[1..]);
  }

  /** From the last place down, each is exchanged with a random one at or before it. */
  method Shuffle(pool: array<real>, cs: seq<nat>)
    requires Draws(cs, pool.Length)
    modifies pool
    ensures pool[..] == Shuffled(old(pool[..]), cs)
  {
    ghost var xs := pool[..];
    var m := pool.Length;
    assert xs[..m] == xs && xs[m..] == [] && cs[0..] == cs;
    while m > 1
      invariant 0 <= m <= pool.Length && (pool.Length > 0 ==> m > 0)
      invariant xs == pool[..]
      invariant Shuffled(old(pool[..]), cs) == Shuffled(xs[..m], cs[pool.Length - m..]) + xs[m..]
    {
      var i, j := m - 1, cs[pool.Length - m];
      ExchangeStep(xs, m, cs[pool.Length - m..]);
      assert cs[pool.Length - m..][1..] == cs[pool.Length - i..];
      pool[i], pool[j] := pool[j], pool[i];
      xs := xs[i := xs[j]][j := xs[i]];
      m := i;
    }
    assert Shuffled(xs[..m], cs[pool.Length - m..]) == xs[..m];
    assert xs[..m] + xs[m..] == xs;
  }

  /** The first k of a shuffled pool are treated, the rest control. */
  function Cut(xs: seq<real>, k: nat): Batch {
    if k <= |xs| then Batch(xs[..k], xs[k..]) else Batch(xs, [])
  }

  function Shown(pool: seq<real>, k: nat, a: real -> real, b: real -> real, acc: real,
                 g: real -> real): seq<nat> -> real {
    (cs: seq<nat>) => g(acc + Value(Cut(Shuffled(pool, cs), k), a, b))
  }

  // ---- leaving one score out ----

  /** Spread with each score of post in turn left out and paid for by c. */
  function LeaveOneOut(pre: seq<real>, post: seq<real>, k: int, a: real -> real, b: real -> real,
                       c: real -> real, acc: real, g: real -> real): real
    decreases |post|
  {
    if post == [] then 0.0
    else Spread(pre + post[1..], k, a, b, acc + c(post[0]), g)
         + LeaveOneOut(pre + [post[0]], post[1..], k, a, b, c, acc, g)
  }

  lemma {:induction false} LeaveOneOutFront(y: real, pre: seq<real>, post: seq<real>, k: int, a: real -> real,
                                            b: real -> real, c: real -> real, acc: real, g: real -> real)
    ensures LeaveOneOut([y] + pre, post, k, a, b, c, acc, g)
         == LeaveOneOut(pre, post, k - 1, a, b, c, acc + a(y), g) + LeaveOneOut(pre, post, k, a, b, c, acc + b(y), g)
    decreases |post|
  {
    if post != [] {
      var z, rest := post[0], post[1..];
      assert ([y] + pre) + [z] == [y] + (pre + [z]);
      LeaveOneOutFront(y, pre + [z], rest, k, a, b, c, acc, g);
      var p := pre + rest;
      assert ([y] + pre) + rest == [y] + p && ([y] + p)[1..] == p;
      assert acc + c(z) + a(y) == acc + a(y) + c(z);
      assert acc + c(z) + b(y) == acc + b(y) + c(z);
    }
  }

  /** Each split is met once for every control score it has. */
  lemma {:induction false} LeaveOutControl(pool: seq<real>, k: int, a: real -> real, b: real -> real, acc: real,
                                           g: real -> real)
    ensures LeaveOneOut([], pool, k, a, b, b, acc, g) == Repeat(|pool| - k, Spread(pool, k, a, b, acc, g))
    decreases |pool|
  {
    if pool == [] {
      if k != 0 {
        SpreadNone(pool, k, a, b, acc, g);
        RepeatZero(-k);
      }
    } else {
      var y, rest := pool[0], pool[1..];
      LeaveOneOutFront(y, [], rest, k, a, b, b, acc, g);
      LeaveOutControl(rest, k - 1, a, b, acc + a(y), g);
      LeaveOutControl(rest, k, a, b, acc + b(y), g);
      assert [] + rest == rest && [] + [y] == [y] + [];
      RepeatSum(|pool| - k, Spread(rest, k - 1, a, b, acc + a(y), g), Spread(rest, k, a, b, acc + b(y), g));
      if |pool| <= k {
        SpreadNone(rest, k, a, b, acc + b(y), g);
      }
    }
  }

  /** Each split is met once for every treated score it has. */
  lemma {:induction false} LeaveOutTreated(pool: seq<real>, k: int, a: real -> real, b: real -> real, acc: real,
                                           g: real -> real)
    ensures LeaveOneOut([], pool, k - 1, a, b, a, acc, g) == Repeat(k, Spread(pool, k, a, b, acc, g))
    decreases |pool|
  {
    if pool == [] {
      if k != 0 {
        SpreadNone(pool, k, a, b, acc, g);
        RepeatZero(k);
      }
    } else {
      var y, rest := pool[0], pool[1..];
      LeaveOneOutFront(y, [], rest, k - 1, a, b, a, acc, g);
      LeaveOutTreated(rest, k - 1, a, b, acc + a(y), g);
      LeaveOutTreated(rest, k, a, b, acc + b(y), g);
      assert [] + rest == rest && [] + [y] == [y] + [];
      RepeatSum(k, Spread(rest, k - 1, a, b, acc + a(y), g), Spread(rest, k, a, b, acc + b(y), g));
      if k <= 0 {
        SpreadNone(rest, k - 1, a, b, acc + a(y), g);
      }
    }
  }

  // ---- all shuffles ----

  /** What is left to shuffle once place |pool| - 1 has been given pool[j]. */
  function Rest(pool: seq<real>, j: nat): seq<real>
    requires j < |pool|
  {
    Swapped(pool, j)[..|pool| - 1]
  }

  lemma RestIsWithout(pool: seq<real>, j: nat)
    requires j < |pool|
    ensures multiset(Rest(pool, j)) == multiset(Without(pool, j))
  {
    var n := |pool| - 1;
    if j == n {
      assert Rest(pool, j) == Without(pool, j);
    } else {
      assert Rest(pool, j) == pool[..j] + [pool[n]] + pool[j + 1..n];
      assert Without(pool, j) == pool[..j] + (pool[j + 1..n] + [pool[n]]);
    }
  }

  lemma ShuffledStep(pool: seq<real>, j: nat, cs: seq<nat>)
    requires |pool| > 1 && j < |pool|
    ensures Shuffled(pool, [j] + cs) == Shuffled(Rest(pool, j), cs) + [pool[j]]
  {
    assert ([j] + cs)[1..] == cs;
  }

  lemma {:induction false} SumOverSnoc(xs: seq<real>, x: real, f: real -> real)
    ensures SumOver(xs + [x], f) == SumOver(xs, f) + f(x)
  {
    SumOverConcat(xs, [x], f);
    assert [x][1..] == [];
  }

  /** A shuffle whose last place falls to control (k < |pool|) or, when every place is treated, to treatment. */
  lemma ShownStep(pool: seq<real>, k: nat, j: nat, cs: seq<nat>, a: real -> real, b: real -> real, acc: real,
                  g: real -> real)
    requires |pool| > 1 && j < |pool| && k <= |pool|
    ensures Shown(pool, k, a, b, acc, g)([j] + cs)
         == if k < |pool| then Shown(Rest(pool, j), k, a, b, acc + b(pool[j]), g)(cs)
            else Shown(Rest(pool, j), k - 1, a, b, acc + a(pool[j]), g)(cs)
  {
    hide SumOver, Swapped;
    ShuffledStep(pool, j, cs);
    var ys, x := Shuffled(Rest(pool, j), cs), pool[j];
    if k < |pool| {
      assert Cut(ys + [x], k) == Batch(ys[..k], ys[k..] + [x]);
      SumOverSnoc(ys[k..], x, b);
    } else {
      assert Cut(ys + [x], k) == Batch(ys + [x], []) && Cut(ys, k - 1) == Batch(ys, []);
      SumOverSnoc(ys, x, a);
    }
  }

  function Last(pool: seq<real>, k: nat, a: real -> real, b: real -> real, acc: real, g: real -> real): nat -> real
  {
    (j: nat) =>
      if j >= |pool| then 0.0
      else if k < |pool| then Spread(Without(pool, j), k, a, b, acc + b(pool[j]), g)
      else Spread(Without(pool, j), k - 1, a, b, acc + a(pool[j]), g)
  }

  lemma {:induction false} LastIsLeaveOneOut(pool: seq<real>, i: nat, k: nat, a: real -> real, b: real -> real,
                                             acc: real, g: real -> real)
    requires i <= |pool| && k <= |pool|
    ensures SumOver(Upto(i, |pool|), Last(pool, k, a, b, acc, g))
         == if k < |pool| then LeaveOneOut(pool[..i], pool[i..], k, a, b, b, acc, g)
            else LeaveOneOut(pool[..i], pool[i..], k - 1, a, b, a, acc, g)
    decreases |pool| - i
  {
    hide Spread, Repeat;
    if i < |pool| {
      LastIsLeaveOneOut(pool, i + 1, k, a, b, acc, g);
      assert Upto(i, |pool|)[1..] == Upto(i + 1, |pool|);
      assert pool[..i] + [pool[i]] == pool[..i + 1];
      assert pool[i..][1..] == pool[i + 1..] && pool[i..][0] == pool[i];
      assert Without(pool, i) == pool[..i] + pool[i..][1..];
    }
  }

  /** Each relabelling of a pool of n comes from exactly k!(n-k)! shuffles. */
  function Multiplicity(n: nat, k: nat): nat
    requires k <= n
  {
    Factorial(k) * Factorial(n - k)
  }

  /** How many of a pool's scores can fall in its last place: control ones while there are any. */
  function LastPlaces(n: nat, k: nat): nat
    requires k <= n
  {
    if k < n then n - k else n
  }

  /** How many treated scores are left once the last place is settled. */
  function TreatedLeft(n: nat, k: nat): nat
    requires k <= n && n > 0
  {
    if k < n then k else k - 1
  }

  lemma MultiplicityStep(n: nat, k: nat)
    requires k <= n && n > 0
    ensures Multiplicity(n, k) == Multiplicity(n - 1, TreatedLeft(n, k)) * LastPlaces(n, k)
  {
    if k < n {
      assert Factorial(n - k) == (n - k) * Factorial(n - 1 - k);
      assert Factorial(k) * ((n - k) * Factorial(n - 1 - k)) == Factorial(k) * Factorial(n - 1 - k) * (n - k);
    } else {
      assert Factorial(0) == 1;
    }
  }

  lemma {:induction false} LastSum(pool: seq<real>, k: nat, a: real -> real, b: real -> real, acc: real,
                                   g: real -> real)
    requires k <= |pool|
    ensures SumOver(Upto(0, |pool|), Last(pool, k, a, b, acc, g))
      == Repeat(LastPlaces(|pool|, k), Spread(pool, k, a, b, acc, g))
  {
    var pre, post := pool[..0], pool[0..];
    LastIsLeaveOneOut(pool, 0, k, a, b, acc, g);
    assert pre == [] && post == pool;
    LeaveOutLast(pool, k, a, b, acc, g);
  }

  lemma LeaveOutLast(pool: seq<real>, k: nat, a: real -> real, b: real -> real, acc: real, g: real -> real)
    requires k <= |pool|
    ensures Repeat(LastPlaces(|pool|, k), Spread(pool, k, a, b, acc, g))
         == if k < |pool| then LeaveOneOut([], pool, k, a, b, b, acc, g)
           else LeaveOneOut([], pool, k - 1, a, b, a, acc, g)
  {
    if k < |pool| {
      LeaveOutControl(pool, k, a, b, acc, g);
    } else {
      LeaveOutTreated(pool, k, a, b, acc, g);
    }
  }

  function Times(c: nat, f: nat -> real): nat -> real { (j: nat) => Repeat(c, f(j)) }

  /** Every split comes from exactly k!(n-k)! of the n! shuffles. */
  lemma {:induction false} ShufflesCoverSplits(pool: seq<real>, k: nat, a: real -> real, b: real -> real, acc: real,
                                               g: real -> real)
    requires k <= |pool|
    ensures SumOver(AllDraws(|pool|), Shown(pool, k, a, b, acc, g))
         == Repeat(Multiplicity(|pool|, k), Spread(pool, k, a, b, acc, g))
    decreases |pool|
  {
    var n := |pool|;
    if n == 0 {
      NoShuffle(pool, a, b, acc, g);
    } else if n == 1 {
      OneShuffle(pool, k, a, b, acc, g);
    } else {
      var k' := TreatedLeft(n, k);
      var c, f, last := Multiplicity(n - 1, k'), Shown(pool, k, a, b, acc, g), Last(pool, k, a, b, acc, g);
      forall j | j in Upto(0, n)
        ensures Times(c, last)(j) == SumOver(AllDraws(n - 1), WithHead(f, j))
      {
        var acc' := LastAcc(pool, k, j, a, b, acc);
        ShownEndingWith(AllDraws(n - 1), pool, k, j, a, b, acc, g);
        ShufflesCoverSplits(Rest(pool, j), k', a, b, acc', g);
        LastSpread(pool, k, j, a, b, acc, g);
      }
      SumOverOuter(Upto(0, n), AllDraws(n - 1), f, Times(c, last));
      SumOverRepeated(Upto(0, n), last, Times(c, last), c);
      LastSum(pool, k, a, b, acc, g);
      MultiplicityStep(n, k);
      RepeatRepeat(Multiplicity(n - 1, k'), LastPlaces(n, k), Spread(pool, k, a, b, acc, g));
    }
  }

  /** Summed over the n! shuffles, anything that depends on the split is k!(n-k)! times its sum over the splits. */
  lemma EverySplitEquallyOften(pool: seq<real>, k: nat, a: real -> real, b: real -> real, acc: real, g: real -> real)
    requires k <= |pool|
    ensures SumOver(AllDraws(|pool|), Shown(pool, k, a, b, acc, g))
         == Multiplicity(|pool|, k) as real * Spread(pool, k, a, b, acc, g)
  {
    hide SumOver, AllDraws, Shown, Multiplicity, Spread, Repeat;
    ShufflesCoverSplits(pool, k, a, b, acc, g);
    RepeatIsProduct(Multiplicity(|pool|, k), Spread(pool, k, a, b, acc, g));
  }

  lemma NoShuffle(pool: seq<real>, a: real -> real, b: real -> real, acc: real, g: real -> real)
    requires pool == []
    ensures SumOver(AllDraws(0), Shown(pool, 0, a, b, acc, g))
      == Repeat(Multiplicity(0, 0), Spread(pool, 0, a, b, acc, g))
  {
    var f := Shown(pool, 0, a, b, acc, g);
    assert AllDraws(0) == [[]];
    SumOverOne([], f);
    assert Cut(Shuffled(pool, []), 0) == Batch([], []);
    assert Factorial(0) == 1;
  }

  lemma SumOverOne(cs: seq<nat>, f: seq<nat> -> real)
    ensures SumOver([cs], f) == f(cs)
  {
    assert [cs][1..] == [];
  }

  lemma OneShuffle(pool: seq<real>, k: nat, a: real -> real, b: real -> real, acc: real, g: real -> real)
    requires k <= |pool| == 1
    ensures SumOver(AllDraws(1), Shown(pool, k, a, b, acc, g))
      == Repeat(Multiplicity(1, k), Spread(pool, k, a, b, acc, g))
  {
    assert AllDraws(1) == [[]];
    SumOverOne([], Shown(pool, k, a, b, acc, g));
    OneShown(pool, k, a, b, acc, g);
    OneWay(k, Spread(pool, k, a, b, acc, g));
  }

  lemma OneShown(pool: seq<real>, k: nat, a: real -> real, b: real -> real, acc: real, g: real -> real)
    requires k <= |pool| == 1
    ensures Shown(pool, k, a, b, acc, g)([]) == Spread(pool, k, a, b, acc, g)
  {
    assert pool == [pool[0]] && Shuffled(pool, []) == pool;
    SumOverSingle(pool[0], a);
    SumOverSingle(pool[0], b);
    if k == 0 {
      assert Cut(pool, k) == Batch([], [pool[0]]);
      assert acc + Value(Cut(pool, k), a, b) == acc + b(pool[0]);
    } else {
      assert Cut(pool, k) == Batch([pool[0]], []);
      assert acc + Value(Cut(pool, k), a, b) == acc + a(pool[0]);
    }
    SpreadOne(pool[0], k, a, b, acc, g);
  }

  lemma OneWay(k: nat, s: real)
    requires k <= 1
    ensures Repeat(Multiplicity(1, k), s) == s
  {
    assert Factorial(0) == 1 && Factorial(1) == 1 * Factorial(0);
    assert Repeat(1, s) == s + Repeat(0, s);
  }

  lemma SumOverSingle(x: real, f: real -> real)
    ensures SumOver([x], f) == f(x)
  {
    assert [x][1..] == [];
  }

  lemma SpreadOne(x: real, k: nat, a: real -> real, b: real -> real, acc: real, g: real -> real)
    requires k <= 1
    ensures Spread([x], k, a, b, acc, g) == if k == 0 then g(acc + b(x)) else g(acc + a(x))
  {
    assert [x][1..] == [];
    if k == 0 {
      SpreadNone([], -1, a, b, acc + a(x), g);
    } else {
      SpreadNone([], 1, a, b, acc + b(x), g);
    }
  }

  function LastAcc(pool: seq<real>, k: nat, j: nat, a: real -> real, b: real -> real, acc: real): real
    requires j < |pool|
  {
    acc + if k < |pool| then b(pool[j]) else a(pool[j])
  }

  /** The shuffles that settle pool[j] last are the shuffles of the rest. */
  lemma ShownEndingWith(tails: seq<seq<nat>>, pool: seq<real>, k: nat, j: nat, a: real -> real, b: real -> real,
                        acc: real, g: real -> real)
    requires |pool| > 1 && j < |pool| && k <= |pool|
    ensures SumOver(tails, WithHead(Shown(pool, k, a, b, acc, g), j))
      == SumOver(tails, Shown(Rest(pool, j), TreatedLeft(|pool|, k), a, b, LastAcc(pool, k, j, a, b, acc), g))
  {
    var f := WithHead(Shown(pool, k, a, b, acc, g), j);
    var f' := Shown(Rest(pool, j), TreatedLeft(|pool|, k), a, b, LastAcc(pool, k, j, a, b, acc), g);
    forall cs | cs in tails
      ensures f(cs) == f'(cs)
    {
      ShownStep(pool, k, j, cs, a, b, acc, g);
    }
    SumOverSame(tails, f, f');
  }

  lemma LastSpread(pool: seq<real>, k: nat, j: nat, a: real -> real, b: real -> real, acc: real, g: real -> real)
    requires |pool| > 1 && j < |pool| && k <= |pool|
    ensures Spread(Rest(pool, j), TreatedLeft(|pool|, k), a, b, LastAcc(pool, k, j, a, b, acc), g)
      == Last(pool, k, a, b, acc, g)(j)
  {
    RestIsWithout(pool, j);
    SpreadReordered(Rest(pool, j), Without(pool, j), TreatedLeft(|pool|, k), a, b, LastAcc(pool, k, j, a, b, acc), g);
  }

  // ---- several batches ----

  function CutOf(pool: seq<real>, k: nat): seq<nat> -> Batch { (cs: seq<nat>) => Cut(Shuffled(pool, cs), k) }

  /** One batch as every possible shuffle would relabel it. */
  function Shufflings(b: Batch): seq<Batch> { Mapped(AllDraws(|b.Pool()|), CutOf(b.Pool(), |b.treat|)) }

  function AllShufflings(batches: seq<Batch>): seq<seq<Batch>>
  {
    if batches == [] then [] else [Shufflings(batches[0])] + AllShufflings(batches[1..])
  }

  /** Every outcome of one draw of the sampled branch: one shuffle of every pool. */
  function SampleSpace(batches: seq<Batch>): seq<seq<Batch>> { Product(AllShufflings(batches)) }

  function ShufflesPerArrangement(batches: seq<Batch>): nat
  {
    if batches == [] then 1
    else Multiplicity(|batches[0].Pool()|, |batches[0].treat|) * ShufflesPerArrangement(batches[1..])
  }

  /** Over all shuffles of every pool, any statistic of the total is the exact null's, every
      arrangement counted the same number of times. */
  lemma {:induction false} SampledNullIsExactNull(batches: seq<Batch>, f: real -> real)
    ensures SumOver(SampleSpace(batches), AtTotal(f)) == Repeat(ShufflesPerArrangement(batches), Null(batches, f))
    decreases |batches|
  {
    if batches == [] {
      var one := SampleSpace(batches);
      assert one[1..] == [] && Total(one[0]) == 0.0;
      assert SumOver(one, AtTotal(f)) == AtTotal(f)(one[0]) + SumOver(one[1..], AtTotal(f));
    } else {
      var b, rest := batches[0], batches[1..];
      var c, tails := ShufflesPerArrangement(rest), SampleSpace(rest);
      var w := Worth(Gain(|b.treat|), Loss(|b.control|), 0.0, Behind(rest, f));
      assert AllShufflings(batches)[1..] == AllShufflings(rest);
      forall s | s in Shufflings(b)
        ensures Weighed(c, w)(s) == SumOver(tails, WithHead(AtTotal(f), s))
      {
        DiffIsValue(s);
        ShufflingsShape(b, s);
        TotalWithHead(s, tails, f);
        SampledNullIsExactNull(rest, Plus(f, s.Diff()));
        assert w(s) == Null(rest, Plus(f, s.Diff()));
      }
      SumOverOuter(Shufflings(b), tails, AtTotal(f), Weighed(c, w));
      SumOverRepeated(Shufflings(b), w, Weighed(c, w), c);
      ShufflingsSum(b, Behind(rest, f));
      RepeatRepeat(c, Multiplicity(|b.Pool()|, |b.treat|), Null(batches, f));
    }
  }

  lemma ShufflingsShape(b: Batch, s: Batch)
    requires s in Shufflings(b)
    ensures |s.treat| == |b.treat| && |s.control| == |b.control|
  {
    var draws := AllDraws(|b.Pool()|);
    var m :| 0 <= m < |Shufflings(b)| && Shufflings(b)[m] == s;
    assert s == CutOf(b.Pool(), |b.treat|)(draws[m]);
  }

  lemma ShufflingsSum(b: Batch, g: real -> real)
    ensures SumOver(Shufflings(b), Worth(Gain(|b.treat|), Loss(|b.control|), 0.0, g))
         == Repeat(Multiplicity(|b.Pool()|, |b.treat|),
                   Spread(b.Pool(), |b.treat|, Gain(|b.treat|), Loss(|b.control|), 0.0, g))
  {
    var pool, k, a, l := b.Pool(), |b.treat|, Gain(|b.treat|), Loss(|b.control|);
    CutsSum(AllDraws(|pool|), pool, k, a, l, g);
    ShufflesCoverSplits(pool, k, a, l, 0.0, g);
  }

  lemma CutsSum(draws: seq<seq<nat>>, pool: seq<real>, k: nat, a: real -> real, b: real -> real, g: real -> real)
    ensures SumOver(Mapped(draws, CutOf(pool, k)), Worth(a, b, 0.0, g)) == SumOver(draws, Shown(pool, k, a, b, 0.0, g))
  {
    SumOverMapped(draws, CutOf(pool, k), Worth(a, b, 0.0, g), Shown(pool, k, a, b, 0.0, g));
  }

}
