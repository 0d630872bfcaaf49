/** benchmarks/sweep_claims.py: how many readings of 100 it takes to push a median out of its band. */
module MedianReach {
  import opened Wrappers

  // ---- sorted() ----

  function Insert(s: seq<real>, x: real): (r: seq<real>)
    ensures |r| == |s| + 1
  {
    if s == [] || x <= s[0] then [x] + s else [s[0]] + Insert(s[1..], x)
  }

  function Sort(s: seq<real>): (r: seq<real>)
    ensures |r| == |s|
  {
    if s == [] then [] else Insert(Sort(s[1..]), s[0])
  }

  ghost predicate Ascending(s: seq<real>) { forall i, j :: 0 <= i <= j < |s| ==> s[i] <= s[j] }

  // ---- ranks ----

  function AtMost(s: seq<real>, x: real): nat
  {
    if s == [] then 0 else (if s[0] <= x then 1 else 0) + AtMost(s[1..], x)
  }

  function Below(s: seq<real>, x: real): nat
  {
    if s == [] then 0 else (if s[0] < x then 1 else 0) + Below(s[1..], x)
  }

  lemma {:induction false} InsertRanks(s: seq<real>, y: real, x: real)
    ensures AtMost(Insert(s, y), x) == AtMost([y], x) + AtMost(s, x)
    ensures Below(Insert(s, y), x) == Below([y], x) + Below(s, x)
  {
    if s == [] || y <= s[0] {
      assert ([y] + s)[1..] == s;
    } else {
      InsertRanks(s[1..], y, x);
      assert ([s[0]] + Insert(s[1..], y))[1..] == Insert(s[1..], y);
    }
  }

  lemma {:induction false} SortRanks(s: seq<real>, x: real)
    ensures AtMost(Sort(s), x) == AtMost(s, x) && Below(Sort(s), x) == Below(s, x)
  {
    if s != [] {
      SortRanks(s[1..], x);
      InsertRanks(Sort(s[1..]), s[0], x);
    }
  }

  lemma {:induction false} InsertAscending(s: seq<real>, x: real)
    requires Ascending(s)
    ensures Ascending(Insert(s, x))
    ensures forall y :: y in Insert(s, x) ==> y == x || y in s
  {
    if s != [] && x > s[0] {
      InsertAscending(s[1..], x);
      var rest := Insert(s[1..], x);
      assert forall i :: 0 <= i < |rest| ==> rest[i] in rest;
      assert forall y :: y in rest ==> s[0] <= y;
    }
  }

  lemma {:induction false} SortAscending(s: seq<real>)
    ensures Ascending(Sort(s))
  {
    if s != [] {
      SortAscending(s[1..]);
      InsertAscending(Sort(s[1..]), s[0]);
    }
  }

  /** In an ascending list, position m is at most x exactly when more than m elements are. */
  lemma {:induction false} RankTest(s: seq<real>, m: nat, x: real)
    requires Ascending(s) && m < |s|
    ensures s[m] <= x <==> m < AtMost(s, x)
    ensures s[m] < x <==> m < Below(s, x)
  {
    if m > 0 {
      RankTest(s[1..], m - 1, x);
      assert s[0] <= s[m];
    } else {
      NoneSmaller(s, x);
    }
  }

  lemma {:induction false} NoneSmaller(s: seq<real>, x: real)
    requires Ascending(s) && s != []
    ensures s[0] > x ==> AtMost(s, x) == 0
    ensures s[0] >= x ==> Below(s, x) == 0
  {
    if |s| > 1 {
      NoneSmaller(s[1..], x);
    }
  }

  lemma {:induction false} RanksAdd(s: seq<real>, t: seq<real>, x: real)
    ensures AtMost(s + t, x) == AtMost(s, x) + AtMost(t, x) && Below(s + t, x) == Below(s, x) + Below(t, x)
  {
    if s == [] {
      assert s + t == t;
    } else {
      RanksAdd(s[1..], t, x);
      assert (s + t)[1..] == s[1..] + t;
    }
  }

  // ---- the search ----

  /** k readings of 100. */
  function Hundreds(k: nat): (r: seq<real>)
    ensures |r| == k
  {
    if k == 0 then [] else [100.0] + Hundreds(k - 1)
  }

  lemma {:induction false} HundredsRanks(k: nat, x: real)
    ensures AtMost(Hundreds(k), x) == if 100.0 <= x then k else 0
    ensures Below(Hundreds(k), x) == if 100.0 < x then k else 0
  {
    if k > 0 {
      HundredsRanks(k - 1, x);
      assert Hundreds(k)[1..] == Hundreds(k - 1);
    }
  }

  predicate InBand(s: seq<real>, lo: real, hi: real)
    requires s != []
  {
    lo <= s[|s| / 2] <= hi
  }

  /** k readings of 100 more, and the median is outside the band. */
  predicate MovedOut(v: seq<real>, k: nat, lo: real, hi: real)
    requires v != []
  {
    !InBand(Sort(v + Hundreds(k)), lo, hi)
  }

  /** Whether a median leaves the band is a question about two ranks. */
  lemma MedianByRank(vals: seq<real>, lo: real, hi: real)
    requires vals != []
    ensures InBand(Sort(vals), lo, hi) <==> Below(vals, lo) <= |vals| / 2 < AtMost(vals, hi)
  {
    SortRanks(vals, lo);
    SortRanks(vals, hi);
    SortAscending(vals);
    RankTest(Sort(vals), |vals| / 2, lo);
    RankTest(Sort(vals), |vals| / 2, hi);
  }

  lemma MovedOutByRank(vals: seq<real>, k: nat, lo: real, hi: real)
    requires vals != []
    ensures MovedOut(Sort(vals), k, lo, hi)
      <==> !(Below(vals, lo) + (if 100.0 < lo then k else 0) <= (|vals| + k) / 2
             < AtMost(vals, hi) + (if 100.0 <= hi then k else 0))
  {
    SortRanks(vals, lo);
    SortRanks(vals, hi);
    MedianByRank(Sort(vals) + Hundreds(k), lo, hi);
    RanksAdd(Sort(vals), Hundreds(k), lo);
    RanksAdd(Sort(vals), Hundreds(k), hi);
    HundredsRanks(k, lo);
    HundredsRanks(k, hi);
  }

  /** The least k that moves the median out, or cap when nothing below cap does. */
  ghost predicate IsReach(v: seq<real>, lo: real, hi: real, cap: int, r: int)
    requires v != []
  {
    && r <= cap
    && (forall j: nat :: 1 <= j < r ==> !MovedOut(v, j, lo, hi))
    && (r < cap ==> 1 <= r && MovedOut(v, r, lo, hi))
  }

  method ProbesToMoveTheMedianOut(vals: seq<real>, band: Option<(real, real)>, cap: int) returns (r: Option<int>)
    ensures r.None? <==>
      vals == [] || band.None? || !(Below(vals, band.value.0) <= |vals| / 2 < AtMost(vals, band.value.1))
    ensures r.Some? ==> vals != [] && IsReach(Sort(vals), band.value.0, band.value.1, cap, r.value)
  {
    var v := Sort(vals);
    if v == [] || band.None? { return None; }
    var (lo, hi) := band.value;
    MedianByRank(vals, lo, hi);
    if !InBand(v, lo, hi) { return None; }
    var k := 1;
    while k <= cap
      invariant 1 <= k && (cap >= 1 ==> k <= cap + 1)
      invariant forall j: nat :: 1 <= j < k ==> !MovedOut(v, j, lo, hi)
    {
      var w := Sort(v + Hundreds(k));
      if !InBand(w, lo, hi) { return Some(k); }
      k := k + 1;
    }
    return Some(cap);
  }

  /** The answer outright. With c readings at most hi and l below lo out of n: a band topped below
      100 takes 2c - n, a band floored above 100 takes n - 2l + 1, and a band holding 100 is never left. */
  function Reach(n: int, c: int, l: int, lo: real, hi: real, cap: int): int {
    if hi < 100.0 then Min(cap, 2 * c - n) else if lo > 100.0 then Min(cap, n - 2 * l + 1) else cap
  }

  lemma ReachInClosedForm(vals: seq<real>, lo: real, hi: real, cap: int, r: int)
    requires vals != [] && Below(vals, lo) <= |vals| / 2 < AtMost(vals, hi)
    ensures IsReach(Sort(vals), lo, hi, cap, r)
       <==> r == Reach(|vals|, AtMost(vals, hi), Below(vals, lo), lo, hi, cap)
  {
    forall k: nat | 1 <= k
      ensures MovedOut(Sort(vals), k, lo, hi) <==>
        if hi < 100.0 then k >= 2 * AtMost(vals, hi) - |vals|
        else lo > 100.0 && k >= |vals| - 2 * Below(vals, lo) + 1
    {
      MovedOutByRank(vals, k, lo, hi);
      MedianByRank(vals, lo, hi);
      assert InBand(Sort(vals), lo, hi);
    }
    var answer := Reach(|vals|, AtMost(vals, hi), Below(vals, lo), lo, hi, cap);
    assert IsReach(Sort(vals), lo, hi, cap, answer);
    if IsReach(Sort(vals), lo, hi, cap, r) {
      LeastIsUnique(Sort(vals), lo, hi, cap, r, answer);
    }
  }

  lemma LeastIsUnique(v: seq<real>, lo: real, hi: real, cap: int, r: int, s: int)
    requires v != [] && IsReach(v, lo, hi, cap, r) && IsReach(v, lo, hi, cap, s)
    ensures r == s
  {
  }
}
