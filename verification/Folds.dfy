/** Sums of a real-valued function over a sequence, and the few laws the statistics modules share. */
module Folds {

  function SumOver<T>(s: seq<T>, f: T -> real): real
  {
    if s == [] then 0.0 else f(s[0]) + SumOver(s[1..], f)
  }

  function Mapped<T, U>(s: seq<T>, h: T -> U): (r: seq<U>)
    ensures |r| == |s|
    ensures forall i :: 0 <= i < |s| ==> r[i] == h(s[i])
  {
    seq(|s|, i requires 0 <= i < |s| => h(s[i]))
  }

  function Sum(xs: seq<real>): real
  {
    if xs == [] then 0.0 else xs[0] + Sum(xs[1..])
  }

  lemma {:induction false} SumConcat(a: seq<real>, b: seq<real>)
    ensures Sum(a + b) == Sum(a) + Sum(b)
  {
    if a == [] {
      assert a + b == b;
    } else {
      SumConcat(a[1..], b);
      assert (a + b)[1..] == a[1..] + b;
    }
  }

  lemma {:induction false} SumOverConcat<T>(a: seq<T>, b: seq<T>, f: T -> real)
    ensures SumOver(a + b, f) == SumOver(a, f) + SumOver(b, f)
  {
    if a == [] {
      assert a + b == b;
    } else {
      SumOverConcat(a[1..], b, f);
      assert (a + b)[1..] == a[1..] + b;
    }
  }

  lemma {:induction false} SumOverSame<T>(s: seq<T>, f: T -> real, g: T -> real)
    requires forall x :: x in s ==> f(x) == g(x)
    ensures SumOver(s, f) == SumOver(s, g)
  {
    if s != [] {
      SumOverSame(s[1..], f, g);
    }
  }

  lemma {:induction false} SumOverMapped<T, U>(s: seq<T>, h: T -> U, f: U -> real, g: T -> real)
    requires forall x :: x in s ==> g(x) == f(h(x))
    ensures SumOver(Mapped(s, h), f) == SumOver(s, g)
  {
    if s != [] {
      SumOverMapped(s[1..], h, f, g);
      assert Mapped(s, h)[1..] == Mapped(s[1..], h);
    }
  }

  /** A sum does not depend on the order of its terms. */
  lemma {:induction false} SumOverReordered<T>(a: seq<T>, b: seq<T>, f: T -> real)
    requires multiset(a) == multiset(b)
    ensures SumOver(a, f) == SumOver(b, f)
    decreases |a|
  {
    if a == [] {
      assert |multiset(b)| == |b|;
      assert b == [];
    } else {
      var j := MatchFirst(a, b);
      SumOverReordered(a[1..], Without(b, j), f);
      SumOverConcat(b[..j], b[j + 1..], f);
      assert b == b[..j] + ([b[j]] + b[j + 1..]);
      SumOverConcat(b[..j], [b[j]] + b[j + 1..], f);
    }
  }

  function Without<T>(s: seq<T>, j: nat): seq<T>
    requires j < |s|
  {
    s[..j] + s[j + 1..]
  }

  /** Where a reordering of a keeps a's first element, and what is left on both sides. */
  lemma MatchFirst<T>(a: seq<T>, b: seq<T>) returns (j: nat)
    requires a != [] && multiset(a) == multiset(b)
    ensures j < |b| && b[j] == a[0] && multiset(a[1..]) == multiset(Without(b, j))
  {
    assert a == [a[0]] + a[1..];
    assert a[0] in multiset(b);
    j :| 0 <= j < |b| && b[j] == a[0];
    WithoutMultiset(b, j);
    assert multiset(a[1..]) == multiset(a) - multiset{a[0]};
  }

  lemma WithoutMultiset<T>(s: seq<T>, j: nat)
    requires j < |s|
    ensures multiset(Without(s, j)) == multiset(s) - multiset{s[j]}
  {
    assert s == s[..j] + [s[j]] + s[j + 1..];
  }

  /** Monotone: a pointwise larger summand has a larger sum. */
  lemma {:induction false} SumOverAtMost<T>(s: seq<T>, f: T -> real, g: T -> real)
    requires forall x :: x in s ==> f(x) <= g(x)
    ensures SumOver(s, f) <= SumOver(s, g)
  {
    if s != [] {
      SumOverAtMost(s[1..], f, g);
    }
  }

  lemma {:induction false} SumStrictlyLess<T>(s: seq<T>, f: T -> real, g: T -> real, x: T)
    requires x in s && f(x) < g(x) && forall y :: y in s ==> f(y) <= g(y)
    ensures SumOver(s, f) < SumOver(s, g)
  {
    if s[0] == x {
      SumOverAtMost(s[1..], f, g);
    } else {
      SumStrictlyLess(s[1..], f, g, x);
    }
  }

  lemma {:induction false} SumOverAdd<T>(s: seq<T>, f: T -> real, g: T -> real, h: T -> real)
    requires forall x :: x in s ==> h(x) == f(x) + g(x)
    ensures SumOver(s, h) == SumOver(s, f) + SumOver(s, g)
  {
    if s != [] {
      SumOverAdd(s[1..], f, g, h);
    }
  }

  lemma {:induction false} SumOverZero<T>(s: seq<T>, f: T -> real)
    requires forall x :: x in s ==> f(x) == 0.0
    ensures SumOver(s, f) == 0.0
  {
    if s != [] {
      SumOverZero(s[1..], f);
    }
  }

  function Fixed<A, B>(f: (A, B) -> real, x: A): B -> real { (y: B) => f(x, y) }
  function RowSum<A, B>(f: (A, B) -> real, ys: seq<B>): A -> real { (x: A) => SumOver(ys, Fixed(f, x)) }
  function Flipped<A, B>(f: (A, B) -> real): (B, A) -> real { (y: B, x: A) => f(x, y) }

  /** Summing by rows is summing by columns. */
  lemma {:induction false} SumExchange<A, B>(xs: seq<A>, ys: seq<B>, f: (A, B) -> real)
    ensures SumOver(xs, RowSum(f, ys)) == SumOver(ys, RowSum(Flipped(f), xs))
  {
    if xs == [] {
      SumOverZero(ys, RowSum(Flipped(f), xs));
    } else {
      SumExchange(xs[1..], ys, f);
      SumOverAdd(ys, Fixed(f, xs[0]), RowSum(Flipped(f), xs[1..]), RowSum(Flipped(f), xs));
    }
  }

  /** range(lo, hi) over the integers; empty when hi <= lo. */
  function Ints(lo: int, hi: int): (r: seq<int>)
    ensures |r| == if lo < hi then hi - lo else 0
    ensures forall j :: 0 <= j < |r| ==> r[j] == lo + j
    decreases hi - lo
  {
    if lo >= hi then [] else [lo] + Ints(lo + 1, hi)
  }

  lemma SumOverNoInts(lo: int, hi: int, f: int -> real)
    requires hi <= lo
    ensures SumOver(Ints(lo, hi), f) == 0.0
  {
  }

  lemma SumOverNextInt(lo: int, s: int, f: int -> real)
    requires lo <= s
    ensures SumOver(Ints(lo, s + 1), f) == SumOver(Ints(lo, s), f) + f(s)
  {
    assert Ints(lo, s + 1) == Ints(lo, s) + [s];
    SumOverConcat(Ints(lo, s), [s], f);
    assert [s][1..] == [];
  }

  lemma {:induction false} SumShift(lo: int, hi: int, d: int, f: int -> real, g: int -> real)
    requires forall x :: g(x + d) == f(x)
    ensures SumOver(Ints(lo, hi), f) == SumOver(Ints(lo + d, hi + d), g)
    decreases hi - lo
  {
    if lo < hi {
      SumShift(lo + 1, hi, d, f, g);
      assert Ints(lo, hi)[1..] == Ints(lo + 1, hi);
      assert Ints(lo + d, hi + d)[1..] == Ints(lo + 1 + d, hi + d);
    }
  }

  /** Terms that are zero can be left out at either end. */
  lemma SumTrim(lo: int, hi: int, from: int, to: int, f: int -> real)
    requires lo <= from && to <= hi
    requires forall x :: lo <= x < hi && !(from <= x < to) ==> f(x) == 0.0
    ensures SumOver(Ints(lo, hi), f) == SumOver(Ints(from, to), f)
  {
    if from >= to {
      SumOverZero(Ints(lo, hi), f);
    } else {
      var a, b, c := Ints(lo, from), Ints(from, to), Ints(to, hi);
      assert Ints(lo, hi) == a + (b + c);
      SumOverConcat(a, b + c, f);
      SumOverConcat(b, c, f);
      SumOverZero(a, f);
      SumOverZero(c, f);
    }
  }

  // ---- s added up n times: multiplication, kept linear for the proofs ----

  function Repeat(n: int, s: real): real
    decreases n
  {
    if n <= 0 then 0.0 else s + Repeat(n - 1, s)
  }

  function Weighed<T>(c: nat, f: T -> real): T -> real { (x: T) => Repeat(c, f(x)) }

  lemma {:induction false} RepeatSum(n: int, s: real, t: real)
    ensures Repeat(n, s + t) == Repeat(n, s) + Repeat(n, t)
    decreases n
  {
    if n > 0 {
      RepeatSum(n - 1, s, t);
    }
  }

  lemma {:induction false} RepeatMore(m: nat, n: nat, s: real)
    ensures Repeat(m + n, s) == Repeat(m, s) + Repeat(n, s)
  {
    if m > 0 {
      RepeatMore(m - 1, n, s);
    }
  }

  lemma {:induction false} RepeatRepeat(m: nat, n: nat, s: real)
    ensures Repeat(m, Repeat(n, s)) == Repeat(m * n, s)
  {
    if m > 0 {
      RepeatRepeat(m - 1, n, s);
      RepeatMore(n, (m - 1) * n, s);
      assert m * n == n + (m - 1) * n;
    }
  }

  lemma RepeatCommute(m: nat, n: nat, s: real)
    ensures Repeat(m, Repeat(n, s)) == Repeat(n, Repeat(m, s))
  {
    RepeatRepeat(m, n, s);
    RepeatRepeat(n, m, s);
    assert m * n == n * m;
  }

  lemma {:induction false} RepeatIsProduct(n: nat, s: real)
    ensures Repeat(n, s) == n as real * s
  {
    if n > 0 {
      RepeatIsProduct(n - 1, s);
      var x, y := n as real, (n - 1) as real;
      OneMore(x, y, s);
      assert Repeat(n, s) == s + y * s;
    }
  }

  lemma OneMore(a: real, b: real, s: real)
    requires a == b + 1.0
    ensures a * s == b * s + s
  {
    assert (b + 1.0) * s == b * s + s;
  }

  lemma {:induction false} RepeatNonnegative(n: int, s: real)
    requires s >= 0.0
    ensures Repeat(n, s) >= 0.0
    decreases n
  {
    if n > 0 {
      RepeatNonnegative(n - 1, s);
    }
  }

  lemma {:induction false} RepeatZero(n: int)
    ensures Repeat(n, 0.0) == 0.0
    decreases n
  {
    if n > 0 {
      RepeatZero(n - 1);
    }
  }

  lemma {:induction false} SumOverRepeated<T>(s: seq<T>, f: T -> real, g: T -> real, n: int)
    requires forall x :: x in s ==> g(x) == Repeat(n, f(x))
    ensures SumOver(s, g) == Repeat(n, SumOver(s, f))
  {
    if s == [] {
      RepeatZero(n);
    } else {
      SumOverRepeated(s[1..], f, g, n);
      RepeatSum(n, f(s[0]), SumOver(s[1..], f));
    }
  }

  lemma RepeatCancel(c: nat, x: real, y: real)
    requires c > 0 && Repeat(c, x) == Repeat(c, y)
    ensures x == y
  {
    RepeatIsProduct(c, x);
    RepeatIsProduct(c, y);
    var d := c as real;
    assert d * (x - y) == 0.0;
  }

  lemma QuotientOrder(x: real, y: real, d: real)
    requires x <= y && d > 0.0
    ensures x / d <= y / d
  {
  }

  lemma StrictQuotient(x: real, y: real, n: real)
    requires x < y && n > 0.0
    ensures x / n < y / n
  {
  }

  lemma SelfQuotient(n: real, x: real)
    requires n > 0.0
    ensures (n * x) / n == x
  {
  }

  lemma ShareBounds(x: real, n: real)
    requires n > 0.0 && 0.0 <= x <= n
    ensures (x / n == 0.0 <==> x == 0.0) && (x / n < 1.0 <==> x < n)
  {
    if x > 0.0 {
      StrictQuotient(0.0, x, n);
    }
    if x < n {
      StrictQuotient(x, n, n);
    }
    SelfQuotient(n, 1.0);
  }
}
