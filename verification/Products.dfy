/** itertools.product: every choice of one value per list, the last list varying fastest. */
module Products {
  import opened Folds

  function Before<T>(x: T): seq<T> -> seq<T> { (t: seq<T>) => [x] + t }

  function Outer<T>(xs: seq<T>, tails: seq<seq<T>>): seq<seq<T>>
  {
    if xs == [] then [] else Mapped(tails, Before(xs[0])) + Outer(xs[1..], tails)
  }

  /** Every choice of one value per list, in order. */
  function Product<T>(per: seq<seq<T>>): seq<seq<T>>
  {
    if per == [] then [[]] else Outer(per[0], Product(per[1..]))
  }

  lemma {:induction false} OuterCount<T>(xs: seq<T>, tails: seq<seq<T>>)
    ensures |Outer(xs, tails)| == |xs| * |tails|
  {
    if xs != [] {
      OuterCount(xs[1..], tails);
      assert |xs| * |tails| == |tails| + (|xs| - 1) * |tails|;
    }
  }

  lemma {:induction false} OuterAt<T>(xs: seq<T>, tails: seq<seq<T>>, m: nat) returns (i: nat, j: nat)
    requires m < |Outer(xs, tails)|
    ensures i < |xs| && j < |tails| && Outer(xs, tails)[m] == [xs[i]] + tails[j]
  {
    if m < |tails| {
      i, j := 0, m;
    } else {
      i, j := OuterAt(xs[1..], tails, m - |tails|);
      i := i + 1;
    }
  }

  /** d * n, kept linear for the proofs. */
  function Rep(d: nat, n: nat): nat
  {
    if d == 0 then 0 else n + Rep(d - 1, n)
  }

  lemma {:induction false} RepIsProduct(d: nat, n: nat)
    ensures Rep(d, n) == d * n
  {
    if d > 0 {
      RepIsProduct(d - 1, n);
      assert d * n == n + (d - 1) * n;
    }
  }

  /** Where the choice of xs[d] and tails[r] sits. */
  lemma {:induction false} OuterPlace<T>(xs: seq<T>, tails: seq<seq<T>>, d: nat, r: nat)
    requires d < |xs| && r < |tails|
    ensures Rep(d, |tails|) + r < |Outer(xs, tails)|
    ensures Outer(xs, tails)[Rep(d, |tails|) + r] == [xs[d]] + tails[r]
  {
    if d > 0 {
      OuterPlace(xs[1..], tails, d - 1, r);
    }
  }

  /** A choice is in the product exactly when its head and its tail are on offer. */
  lemma {:induction false} OuterHas<T>(xs: seq<T>, tails: seq<seq<T>>, t: seq<T>)
    ensures t in Outer(xs, tails) <==> t != [] && t[0] in xs && t[1..] in tails
  {
    if xs != [] {
      OuterHas(xs[1..], tails, t);
      HeadHas(xs[0], tails, t);
      assert t in Outer(xs, tails) <==> t in Mapped(tails, Before(xs[0])) || t in Outer(xs[1..], tails);
    }
  }

  lemma HeadHas<T>(x: T, tails: seq<seq<T>>, t: seq<T>)
    ensures t in Mapped(tails, Before(x)) <==> t != [] && t[0] == x && t[1..] in tails
  {
    var all := Mapped(tails, Before(x));
    if t in all {
      var i :| 0 <= i < |all| && all[i] == t;
      assert t == [x] + tails[i] && t[1..] == tails[i];
    }
    if t != [] && t[0] == x && t[1..] in tails {
      var i :| 0 <= i < |tails| && tails[i] == t[1..];
      assert t == [x] + tails[i] == all[i];
    }
  }
}
