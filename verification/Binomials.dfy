/** math.comb and the two counting identities that make the exact tests agree. */
module Binomials {

  /** math.comb(n, k) by Pascal's rule; 0 when k > n. */
  function Comb(n: nat, k: nat): nat
  {
    if k == 0 then 1 else if n == 0 then 0 else Comb(n - 1, k - 1) + Comb(n - 1, k)
  }

  function Factorial(n: nat): (f: nat)
    ensures f > 0
  {
    if n == 0 then 1 else n * Factorial(n - 1)
  }

  lemma {:induction false} CombOutside(n: nat, k: nat)
    requires k > n
    ensures Comb(n, k) == 0
  {
    if n > 0 {
      CombOutside(n - 1, k - 1);
      CombOutside(n - 1, k);
    }
  }

  lemma {:induction false} CombPositive(n: nat, k: nat)
    requires k <= n
    ensures Comb(n, k) > 0
  {
    if k > 0 {
      CombPositive(n - 1, k - 1);
    }
  }

  lemma {:induction false} CombFull(n: nat)
    ensures Comb(n, n) == 1
  {
    if n > 0 {
      CombFull(n - 1);
      CombOutside(n - 1, n);
    }
  }

  /** C(n,k) k! (n-k)! = n! : the closed form behind every identity below. */
  lemma {:induction false} CombFactorial(n: nat, k: nat)
    requires k <= n
    ensures Comb(n, k) * (Factorial(k) * Factorial(n - k)) == Factorial(n)
  {
    if k == 0 {
      assert Comb(n, 0) == 1 && Factorial(0) == 1;
    } else if k == n {
      CombFull(n);
      assert Factorial(0) == 1;
    } else {
      var x, y := Comb(n - 1, k - 1), Comb(n - 1, k);
      var fk, fr, f := Factorial(k - 1), Factorial(n - k - 1), Factorial(n - 1);
      CombFactorial(n - 1, k - 1);
      CombFactorial(n - 1, k);
      assert Factorial(k) == k * fk && Factorial(n - k) == (n - k) * fr;
      PascalStep(x, y, fk, fr, f, k, n - k);
    }
  }

  lemma PascalStep(x: int, y: int, fk: int, fr: int, f: int, k: int, r: int)
    requires x * (fk * (r * fr)) == f && y * ((k * fk) * fr) == f
    ensures (x + y) * ((k * fk) * (r * fr)) == (k + r) * f
  {
    assert x * ((k * fk) * (r * fr)) == k * (x * (fk * (r * fr)));
    assert y * ((k * fk) * (r * fr)) == r * (y * ((k * fk) * fr));
  }

  /** k C(n,k) = n C(n-1,k-1). */
  lemma {:induction false} CombAbsorb(n: nat, k: nat)
    requires n > 0 && k > 0
    ensures k * Comb(n, k) == n * Comb(n - 1, k - 1)
  {
    if n == 1 {
      AbsorbOne(k);
    } else if k == 1 {
      CombAbsorb(n - 1, 1);
      assert Comb(n - 1, 0) == 1 && Comb(n - 2, 0) == 1;
      assert Comb(n, 1) == Comb(n - 1, 0) + Comb(n - 1, 1);
    } else {
      CombAbsorb(n - 1, k);
      CombAbsorb(n - 1, k - 1);
      var a, b, c := Comb(n - 2, k - 2), Comb(n - 2, k - 1), Comb(n - 1, k);
      assert Comb(n - 1, k - 1) == a + b && Comb(n, k) == a + b + c;
      AbsorbStep(n, k, a, b, c);
    }
  }

  lemma AbsorbOne(k: nat)
    requires k > 0
    ensures k * Comb(1, k) == 1 * Comb(0, k - 1)
  {
    if k > 1 {
      CombOutside(1, k);
      CombOutside(0, k - 1);
    } else {
      assert Comb(1, 1) == Comb(0, 0) + Comb(0, 1);
    }
  }

  lemma AbsorbStep(n: int, k: int, a: int, b: int, c: int)
    requires k * c == (n - 1) * b && (k - 1) * (a + b) == (n - 1) * a
    ensures k * (a + b + c) == n * (a + b)
  {
    assert k * (a + b + c) == (k - 1) * (a + b) + (a + b) + k * c;
    assert (n - 1) * a + (n - 1) * b == (n - 1) * (a + b);
  }

  /** Relabelling arms and relabelling outcomes are the same 2x2 table read by rows or by columns. */
  lemma MarginSwap(n1: nat, n2: nat, k: nat, a: nat)
    requires a <= k <= n1 + n2
    ensures a <= n1 && k - a <= n2 ==>
      Comb(n1, a) * Comb(n2, k - a) * Comb(n1 + n2, n1)
        == Comb(k, a) * Comb(n1 + n2 - k, n1 - a) * Comb(n1 + n2, k)
    ensures a <= n1 && k - a > n2 ==> Comb(n2, k - a) == 0 && Comb(n1 + n2 - k, n1 - a) == 0
  {
    if a <= n1 && k - a <= n2 {
      var n := n1 + n2;
      CombFactorial(n1, a);
      CombFactorial(n2, k - a);
      CombFactorial(n, n1);
      CombFactorial(k, a);
      CombFactorial(n - k, n1 - a);
      CombFactorial(n, k);
      assert n - n1 == n2 && n - k - (n1 - a) == n2 - (k - a);
      SameTable(Comb(n1, a), Comb(n2, k - a), Comb(n, n1), Comb(k, a), Comb(n - k, n1 - a), Comb(n, k),
        Factorial(a), Factorial(k - a), Factorial(n1 - a), Factorial(n2 - (k - a)),
        Factorial(n1), Factorial(n2), Factorial(k), Factorial(n - k), Factorial(n));
    } else if a <= n1 {
      CombOutside(n2, k - a);
      CombOutside(n1 + n2 - k, n1 - a);
    }
  }

  /** The 2x2 table's four cell factorials p, q, r, s grouped by rows and by columns. */
  lemma SameTable(x: int, y: int, z: int, x': int, y': int, z': int, p: nat, q: nat, r: nat, s: nat,
                  u: int, v: int, u': int, v': int, w: int)
    requires x * (p * r) == u && y * (q * s) == v && z * (u * v) == w
    requires x' * (p * q) == u' && y' * (r * s) == v' && z' * (u' * v') == w
    requires p > 0 && q > 0 && r > 0 && s > 0
    ensures x * y * z == x' * y' * z'
  {
    Regroup(x, y, z, p * r, q * s, u, v, w);
    Regroup(x', y', z', p * q, r * s, u', v', w);
    Exchange(p, q, r, s);
    Positive(p, r);
    Positive(q, s);
    Positive(p * r, q * s);
    Cancel(x * y * z, x' * y' * z', (p * r) * (q * s));
  }

  lemma Positive(a: int, b: int)
    requires a > 0 && b > 0
    ensures a * b > 0
  {
  }

  lemma Regroup(x: int, y: int, z: int, p: int, q: int, u: int, v: int, w: int)
    requires x * p == u && y * q == v && z * (u * v) == w
    ensures x * y * z * (p * q) == w
  {
    Exchange(x, y, p, q);
    Reassociate(x * y, z, p * q);
  }

  lemma Reassociate(x: int, z: int, p: int)
    ensures x * z * p == z * (x * p)
  {
  }

  lemma Exchange(a: int, b: int, c: int, d: int)
    ensures (a * c) * (b * d) == (a * b) * (c * d)
  {
  }

  lemma Cancel(x: int, y: int, d: int)
    requires d != 0 && x * d == y * d
    ensures x == y
  {
    assert (x - y) * d == 0;
  }
}
