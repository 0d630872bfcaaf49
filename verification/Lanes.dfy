/** benchmarks/lanes.py: a cpu set printed as runs and read back, down to the decimal numerals. */
module Lanes {
  import opened Wrappers
  import opened Text

  // ---- str(int) and int(str) ----

  predicate IsDigit(c: char) { '0' <= c <= '9' }

  function Digit(d: nat): char
    requires d < 10
  {
    "0123456789"[d]
  }

  function DigitValue(c: char): nat
    requires IsDigit(c)
  {
    c as int - '0' as int
  }

  function NatText(n: nat): string
  {
    if n < 10 then [Digit(n)] else NatText(n / 10) + [Digit(n % 10)]
  }

  function IntText(n: int): string { if n < 0 then "-" + NatText(-n) else NatText(n) }

  /** Decimal digits; single underscores may separate them. */
  function ReadNat(t: string): Option<nat>
    decreases |t|
  {
    if t == "" || !IsDigit(t[|t| - 1]) then None
    else
      var front, d := t[..|t| - 1], DigitValue(t[|t| - 1]);
      if front == "" then Some(d)
      else
        match ReadNat(if front[|front| - 1] == '_' then front[..|front| - 1] else front)
        case None => None
        case Some(v) => Some(10 * v + d)
  }

  /** int(): surrounding space, one sign, digits. None is ValueError. */
  function ReadInt(s: string): Option<int> {
    var t := Strip(s);
    if t == "" then None
    else if t[0] == '-' then
      match ReadNat(t[1..]) { case None => None case Some(v) => Some(-(v as int)) }
    else
      match ReadNat(if t[0] == '+' then t[1..] else t) { case None => None case Some(v) => Some(v as int) }
  }

  predicate AllDigits(t: string) { t != "" && forall i :: 0 <= i < |t| ==> IsDigit(t[i]) }

  /** One more digit behind a numeral. */
  lemma ReadNextDigit(t: string, d: nat)
    requires AllDigits(t) && d < 10
    ensures AllDigits(t + [Digit(d)])
    ensures ReadNat(t + [Digit(d)]) == match ReadNat(t) { case None => None case Some(v) => Some(10 * v + d) }
  {
    var u := t + [Digit(d)];
    assert u[..|u| - 1] == t && u[|u| - 1] == Digit(d);
    assert IsDigit(t[|t| - 1]);
  }

  lemma {:induction false} NatTextReads(n: nat)
    ensures AllDigits(NatText(n)) && ReadNat(NatText(n)) == Some(n)
  {
    if n >= 10 {
      NatTextReads(n / 10);
      ReadNextDigit(NatText(n / 10), n % 10);
    }
  }

  predicate NoSpaceAround(t: string) { t != "" && !IsSpace(t[0]) && !IsSpace(t[|t| - 1]) }

  lemma StripNothing(t: string)
    requires NoSpaceAround(t)
    ensures Strip(t) == t
  {
  }

  lemma NatTextReadsAsInt(n: nat)
    ensures ReadInt(NatText(n)) == Some(n as int)
  {
    NatTextReads(n);
    StripNothing(NatText(n));
  }

  // ---- str.split and str.join ----

  /** s.split(c) */
  function Split(s: string, c: char): (parts: seq<string>)
    ensures parts != []
  {
    if s == "" then [""]
    else
      var rest := Split(s[1..], c);
      if s[0] == c then [""] + rest else [[s[0]] + rest[0]] + rest[1..]
  }

  function Join(parts: seq<string>, c: char): string
  {
    if parts == [] then "" else if |parts| == 1 then parts[0] else parts[0] + [c] + Join(parts[1..], c)
  }

  lemma {:induction false} SplitPart(p: string, s: string, c: char)
    requires c !in p
    ensures Split(p + [c] + s, c) == [p] + Split(s, c)
  {
    if p == "" {
      assert "" + [c] + s == [c] + s;
    } else {
      SplitPart(p[1..], s, c);
      assert (p + [c] + s)[1..] == p[1..] + [c] + s;
      assert p == [p[0]] + p[1..];
    }
  }

  lemma {:induction false} SplitLast(p: string, c: char)
    requires c !in p
    ensures Split(p, c) == [p]
  {
    if p != "" {
      SplitLast(p[1..], c);
      assert p == [p[0]] + p[1..];
    }
  }

  lemma {:induction false} SplitJoin(parts: seq<string>, c: char)
    requires parts != [] && forall i :: 0 <= i < |parts| ==> c !in parts[i]
    ensures Split(Join(parts, c), c) == parts
  {
    if |parts| == 1 {
      SplitLast(parts[0], c);
    } else {
      SplitPart(parts[0], Join(parts[1..], c), c);
      SplitJoin(parts[1..], c);
    }
  }

  // ---- parse_lane ----

  /** The text before the first dash. */
  function Head(s: string): (h: string)
    ensures h <= s && ('-' in s ==> |h| < |s| && s[|h|] == '-')
  {
    if s == "" || s[0] == '-' then "" else [s[0]] + Head(s[1..])
  }

  /** The integers from a to b, both included. */
  function Range(a: int, b: int): (r: set<int>)
    ensures forall x :: x in r <==> a <= x <= b
    decreases b - a
  {
    if a > b then {} else Range(a, b - 1) + {b}
  }

  /** The cpus one comma-separated part names; None is ValueError. */
  function PartCpus(raw: string): Option<set<int>> {
    var part := Strip(raw);
    if part == "" then Some({})
    else if '-' in part then
      var a := Head(part);
      var lo, hi := ReadInt(a), ReadInt(part[|a| + 1..]);
      if lo.None? || hi.None? then None else Some(Range(lo.value, hi.value))
    else
      match ReadInt(part) { case None => None case Some(n) => Some({n}) }
  }

  /** The union over the parts, unless one of them does not read. */
  function UnionOf(parts: seq<string>): Option<set<int>>
  {
    if parts == [] then Some({})
    else
      var rest, last := UnionOf(parts[..|parts| - 1]), PartCpus(parts[|parts| - 1]);
      if rest.None? || last.None? then None else Some(rest.value + last.value)
  }

  lemma {:induction false} OneBadPart(parts: seq<string>, i: nat)
    requires i < |parts| && PartCpus(parts[i]).None?
    ensures UnionOf(parts).None?
  {
    if i < |parts| - 1 {
      OneBadPart(parts[..|parts| - 1], i);
    }
  }

  method ParseLane(spec: string) returns (r: Option<set<int>>)
    ensures r == UnionOf(Split(spec, ','))
  {
    var want: set<int> := {};
    var parts := Split(spec, ',');
    for i := 0 to |parts|
      invariant UnionOf(parts[..i]) == Some(want)
    {
      assert parts[..i + 1] == parts[..i] + [parts[i]];
      UnionNext(parts[..i], parts[i]);
      var part := Strip(parts[i]);
      if part == "" {
        assert want + {} == want;
      } else if '-' in part {
        var a := Head(part);
        var lo, hi := ReadInt(a), ReadInt(part[|a| + 1..]);
        if lo.None? || hi.None? {
          OneBadPart(parts, i);
          return None;
        }
        want := want + Range(lo.value, hi.value);
      } else {
        var n := ReadInt(part);
        if n.None? {
          OneBadPart(parts, i);
          return None;
        }
        want := want + {n.value};
      }
    }
    assert parts[..|parts|] == parts;
    return Some(want);
  }

  // ---- sorted(cpus) and its runs ----

  lemma Member<T>(s: set<T>) returns (x: T)
    requires s != {}
    ensures x in s
  {
    x :| x in s;
  }

  lemma {:induction false} HasLargest(s: set<int>) returns (m: int)
    requires s != {}
    ensures m in s && forall y :: y in s ==> y <= m
    decreases |s|
  {
    var x := Member(s);
    m := x;
    var rest := s - {x};
    if rest != {} {
      var n := HasLargest(rest);
      m := if x > n then x else n;
    }
    forall y | y in s ensures y <= m {
      if y != x { assert y in rest; }
    }
  }

  predicate Ascends(xs: seq<int>) { forall i, j :: 0 <= i < j < |xs| ==> xs[i] < xs[j] }

  function Largest(s: set<int>): (m: int)
    requires s != {}
    ensures m in s && forall y :: y in s ==> y <= m
  {
    assert exists m :: m in s && forall y :: y in s ==> y <= m by { var m := HasLargest(s); }
    var m :| m in s && forall y :: y in s ==> y <= m;
    m
  }

  function Sorted(s: set<int>): (xs: seq<int>)
    ensures Ascends(xs) && (forall x :: x in xs <==> x in s) && (xs == [] <==> s == {})
    decreases |s|
  {
    if s == {} then []
    else
      var m := Largest(s);
      var front := Sorted(s - {m});
      assert forall i :: 0 <= i < |front| ==> front[i] in front;
      front + [m]
  }

  datatype Run = Run(first: int, last: int)

  /** The next value closes the open run or lengthens it. */
  function AddTo(rs: seq<Run>, x: int): seq<Run> {
    if rs != [] && x == rs[|rs| - 1].last + 1 then rs[..|rs| - 1] + [Run(rs[|rs| - 1].first, x)] else rs + [Run(x, x)]
  }

  /** The loop's runs after the values xs, the open one included. */
  function Runs(xs: seq<int>): (rs: seq<Run>)
    ensures rs == [] <==> xs == []
  {
    if xs == [] then [] else AddTo(Runs(xs[..|xs| - 1]), xs[|xs| - 1])
  }

  /** Ascending, disjoint and maximal: each run ends more than one before any later one begins. */
  ghost predicate Maximal(rs: seq<Run>) {
    && (forall i :: 0 <= i < |rs| ==> rs[i].first <= rs[i].last)
    && (forall i, j :: 0 <= i < j < |rs| ==> rs[i].last + 1 < rs[j].first)
  }

  function Covered(rs: seq<Run>): set<int>
  {
    if rs == [] then {} else Covered(rs[..|rs| - 1]) + Range(rs[|rs| - 1].first, rs[|rs| - 1].last)
  }

  lemma AddToKeeps(rs: seq<Run>, x: int)
    requires Maximal(rs) && (rs != [] ==> rs[|rs| - 1].last < x)
    ensures Maximal(AddTo(rs, x)) && AddTo(rs, x) != [] && AddTo(rs, x)[|AddTo(rs, x)| - 1].last == x
  {
  }

  lemma AddToCovers(rs: seq<Run>, x: int)
    requires Maximal(rs)
    ensures Covered(AddTo(rs, x)) == Covered(rs) + {x}
  {
    var n := |rs| - 1;
    if rs != [] && x == rs[n].last + 1 {
      CoveredNext(rs[..n], rs[n]);
      CoveredNext(rs[..n], Run(rs[n].first, x));
      assert rs == rs[..n] + [rs[n]];
      assert Range(rs[n].first, x) == Range(rs[n].first, rs[n].last) + {x};
    } else {
      CoveredNext(rs, Run(x, x));
      assert Range(x, x) == {x};
    }
  }

  lemma CoveredNext(rs: seq<Run>, r: Run)
    ensures Covered(rs + [r]) == Covered(rs) + Range(r.first, r.last)
  {
    assert (rs + [r])[..|rs|] == rs;
  }

  function ToSet(xs: seq<int>): set<int>
  {
    if xs == [] then {} else ToSet(xs[..|xs| - 1]) + {xs[|xs| - 1]}
  }

  lemma {:induction false} ToSetHas(xs: seq<int>)
    ensures forall x :: x in ToSet(xs) <==> x in xs
  {
    if xs != [] {
      ToSetHas(xs[..|xs| - 1]);
      assert xs == xs[..|xs| - 1] + [xs[|xs| - 1]];
    }
  }

  /** The runs of an ascending list are maximal and cover exactly its values. */
  lemma {:induction false} RunsAreMaximal(xs: seq<int>)
    requires Ascends(xs)
    ensures Maximal(Runs(xs)) && Covered(Runs(xs)) == ToSet(xs)
    ensures xs != [] ==> Runs(xs)[|Runs(xs)| - 1].last == xs[|xs| - 1]
  {
    if xs != [] {
      RunsAreMaximal(xs[..|xs| - 1]);
      AddToKeeps(Runs(xs[..|xs| - 1]), xs[|xs| - 1]);
      AddToCovers(Runs(xs[..|xs| - 1]), xs[|xs| - 1]);
    }
  }

  // ---- _fmt ----

  function RunText(r: Run): string {
    if r.first == r.last then IntText(r.first) else IntText(r.first) + "-" + IntText(r.last)
  }

  function RunTexts(rs: seq<Run>): (r: seq<string>)
    ensures |r| == |rs| && forall i :: 0 <= i < |r| ==> r[i] == RunText(rs[i])
  {
    if rs == [] then [] else RunTexts(rs[..|rs| - 1]) + [RunText(rs[|rs| - 1])]
  }

  function Printed(cpus: set<int>): string {
    if cpus == {} then "(none)" else Join(RunTexts(Runs(Sorted(cpus))), ',')
  }

  lemma RunsNext(xs: seq<int>, i: nat)
    requires i < |xs|
    ensures Runs(xs[..i + 1]) == AddTo(Runs(xs[..i]), xs[i])
  {
    assert xs[..i + 1][..i] == xs[..i];
  }

  lemma AddToOpen(runs: seq<Run>, open: Run, c: int)
    ensures AddTo(runs + [open], c)
         == if c == open.last + 1 then runs + [Run(open.first, c)] else runs + [open] + [Run(c, c)]
  {
    assert (runs + [open])[..|runs|] == runs;
  }

  method Fmt(cpus: set<int>) returns (text: string)
    ensures text == Printed(cpus)
  {
    if cpus == {} { return "(none)"; }
    var xs := Sorted(cpus);
    var runs: seq<Run> := [];
    var start, prev := xs[0], xs[0];
    RunsNext(xs, 0);
    for i := 1 to |xs|
      invariant runs + [Run(start, prev)] == Runs(xs[..i])
    {
      var c := xs[i];
      RunsNext(xs, i);
      AddToOpen(runs, Run(start, prev), c);
      if c == prev + 1 {
        prev := c;
      } else {
        runs := runs + [Run(start, prev)];
        start, prev := c, c;
      }
    }
    assert xs[..|xs|] == xs;
    runs := runs + [Run(start, prev)];
    text := Join(RunTexts(runs), ',');
  }

  // ---- the round trip ----

  lemma {:induction false} HeadOfDigits(a: string, s: string)
    requires '-' !in a
    ensures Head(a + "-" + s) == a
  {
    if a == "" {
      assert a + "-" + s == "-" + s;
    } else {
      var t := a + "-" + s;
      HeadOfDigits(a[1..], s);
      assert t[0] == a[0] && t[1..] == a[1..] + "-" + s;
      assert Head(t) == [a[0]] + a[1..];
    }
  }

  lemma DigitsAreDigits(t: string)
    requires AllDigits(t)
    ensures '-' !in t && ',' !in t && NoSpaceAround(t)
  {
  }

  lemma RunReads(r: Run)
    requires 0 <= r.first <= r.last
    ensures PartCpus(RunText(r)) == Some(Range(r.first, r.last)) && ',' !in RunText(r)
  {
    hide NatText, ReadInt, Strip;
    var a := NatText(r.first);
    NatTextReads(r.first);
    NatTextReads(r.last);
    DigitsAreDigits(a);
    DigitsAreDigits(NatText(r.last));
    if r.first == r.last {
      StripNothing(a);
      NatTextReadsAsInt(r.first);
      assert Range(r.first, r.last) == {r.first};
    } else {
      PartsRead(r.first, r.last, "", "");
      assert "" + RunText(r) + "" == RunText(r);
    }
  }

  lemma UnionNext(parts: seq<string>, part: string)
    ensures UnionOf(parts + [part]) ==
      if UnionOf(parts).None? || PartCpus(part).None? then None else Some(UnionOf(parts).value + PartCpus(part).value)
  {
    assert (parts + [part])[..|parts|] == parts;
  }

  lemma {:induction false} RunsRead(rs: seq<Run>)
    requires forall i :: 0 <= i < |rs| ==> 0 <= rs[i].first <= rs[i].last
    ensures UnionOf(RunTexts(rs)) == Some(Covered(rs))
    ensures forall i :: 0 <= i < |rs| ==> ',' !in RunTexts(rs)[i]
  {
    if rs != [] {
      var front, r := rs[..|rs| - 1], rs[|rs| - 1];
      RunsRead(front);
      RunReads(r);
      UnionNext(RunTexts(front), RunText(r));
    }
  }

  /** A run starting below zero prints a leading dash, which reads as an empty number. */
  lemma NegativeRunFails(r: Run, rest: string)
    requires r.first < 0
    ensures PartCpus(Split(RunText(r) + rest, ',')[0]).None?
  {
    var t := RunText(r) + rest;
    NatTextReads(-r.first);
    assert t[0] == '-';
    var p := Split(t, ',')[0];
    assert p != "" && p[0] == '-';
    StripKeepsFirst(p);
    var q := Strip(p);
    assert q[0] == '-' && Head(q) == "";
  }

  lemma {:induction false} StripKeepsFirst(p: string)
    requires p != "" && !IsSpace(p[0])
    ensures Strip(p) != "" && Strip(p)[0] == p[0]
    decreases |p|
  {
    if IsSpace(p[|p| - 1]) {
      StripKeepsFirst(p[..|p| - 1]);
    }
  }

  /** What is printed is the set's own maximal runs. */
  lemma RunsOf(cpus: set<int>)
    ensures Maximal(Runs(Sorted(cpus))) && Covered(Runs(Sorted(cpus))) == cpus
  {
    RunsAreMaximal(Sorted(cpus));
    ToSetHas(Sorted(cpus));
  }

  /** The printed set reads back as itself exactly when it is not empty and has no negative member;
      otherwise what was printed does not read at all. */
  lemma RoundTrip(cpus: set<int>)
    ensures var back := UnionOf(Split(Printed(cpus), ','));
      if cpus != {} && (forall c :: c in cpus ==> c >= 0) then back == Some(cpus) else back.None?
  {
    var rs := Runs(Sorted(cpus));
    RunsOf(cpus);
    if cpus == {} {
      SplitLast("(none)", ',');
      NoneFails();
      OneBadPart(["(none)"], 0);
    } else if forall c :: c in cpus ==> c >= 0 {
      NaturalRunsReadBack(rs);
    } else {
      NegativeRunsFail(rs);
    }
  }

  lemma {:induction false} NaturalRunsReadBack(rs: seq<Run>)
    requires rs != [] && Maximal(rs) && forall x :: x in Covered(rs) ==> x >= 0
    ensures UnionOf(Split(Join(RunTexts(rs), ','), ',')) == Some(Covered(rs))
  {
    forall i | 0 <= i < |rs| ensures 0 <= rs[i].first {
      CoversEach(rs, i);
    }
    RunsRead(rs);
    SplitJoin(RunTexts(rs), ',');
  }

  lemma NegativeRunsFail(rs: seq<Run>)
    requires rs != [] && Maximal(rs) && exists x :: x in Covered(rs) && x < 0
    ensures UnionOf(Split(Join(RunTexts(rs), ','), ',')).None?
  {
    FirstIsLeast(rs);
    var texts := RunTexts(rs);
    var rest := if |rs| == 1 then "" else [','] + Join(texts[1..], ',');
    assert Join(texts, ',') == RunText(rs[0]) + rest;
    NegativeRunFails(rs[0], rest);
    OneBadPart(Split(Join(texts, ','), ','), 0);
  }

  lemma NoneFails()
    ensures PartCpus("(none)").None?
  {
    StripNothing("(none)");
    assert ReadNat("(none)").None?;
  }

  lemma {:induction false} CoversEach(rs: seq<Run>, i: nat)
    requires Maximal(rs) && i < |rs|
    ensures rs[i].first in Covered(rs)
  {
    if i < |rs| - 1 {
      CoversEach(rs[..|rs| - 1], i);
    }
  }

  lemma CoversSomething(rs: seq<Run>)
    requires Maximal(rs)
    ensures rs == [] <==> Covered(rs) == {}
  {
    if rs != [] {
      CoversEach(rs, 0);
    }
  }

  lemma {:induction false} FirstIsLeast(rs: seq<Run>)
    requires Maximal(rs) && rs != []
    ensures forall x :: x in Covered(rs) ==> rs[0].first <= x <= rs[|rs| - 1].last
  {
    var n := |rs| - 1;
    if n > 0 {
      FirstIsLeast(rs[..n]);
      assert rs[n - 1].last + 1 < rs[n].first;
    }
  }

  /** r is the top stretch of s, and below is what s has under it. */
  ghost predicate TopOf(r: Run, s: set<int>, below: set<int>) {
    && r.first <= r.last
    && (forall x :: x in s ==> x <= r.last)
    && (forall x :: r.first <= x <= r.last ==> x in s)
    && r.first - 1 !in s
    && below == s - Range(r.first, r.last)
  }

  lemma LastRunIsTop(rs: seq<Run>)
    requires Maximal(rs) && rs != []
    ensures TopOf(rs[|rs| - 1], Covered(rs), Covered(rs[..|rs| - 1]))
  {
    var n := |rs| - 1;
    if n > 0 {
      FirstIsLeast(rs[..n]);
      assert rs[n - 1].last + 1 < rs[n].first;
    }
  }

  lemma TopIsUnique(r: Run, q: Run, s: set<int>, below: set<int>, under: set<int>)
    requires TopOf(r, s, below) && TopOf(q, s, under)
    ensures r == q && below == under
  {
    assert r.last in s && q.last in s;
    assert r.first <= q.first - 1 <= r.last ==> q.first - 1 in s;
    assert q.first <= r.first - 1 <= q.last ==> r.first - 1 in s;
  }

  lemma {:induction false} Peel(rs: seq<Run>, qs: seq<Run>, s: set<int>)
    requires Maximal(rs) && Maximal(qs) && Covered(rs) == s && Covered(qs) == s && rs != [] && qs != []
    ensures rs[|rs| - 1] == qs[|qs| - 1]
    ensures Covered(rs[..|rs| - 1]) == Covered(qs[..|qs| - 1])
  {
    LastRunIsTop(rs);
    LastRunIsTop(qs);
    TopIsUnique(rs[|rs| - 1], qs[|qs| - 1], s, Covered(rs[..|rs| - 1]), Covered(qs[..|qs| - 1]));
  }

  lemma SplitLastRun(rs: seq<Run>)
    requires Maximal(rs) && rs != []
    ensures Maximal(rs[..|rs| - 1]) && rs == rs[..|rs| - 1] + [rs[|rs| - 1]]
  {
  }

  /** There is one way to write a set as maximal runs. */
  lemma {:induction false} MaximalRunsAreUnique(rs: seq<Run>, qs: seq<Run>, s: set<int>)
    requires Maximal(rs) && Maximal(qs) && Covered(rs) == s && Covered(qs) == s
    ensures rs == qs
    decreases |rs|
  {
    CoversSomething(rs);
    CoversSomething(qs);
    if rs != [] {
      Peel(rs, qs, s);
      SplitLastRun(rs);
      SplitLastRun(qs);
      MaximalRunsAreUnique(rs[..|rs| - 1], qs[..|qs| - 1], Covered(rs[..|rs| - 1]));
    }
  }

  // ---- how it is printed ----

  lemma {:induction false} NatTextPlain(n: nat)
    ensures NatText(n) != "" && (NatText(n)[0] == '0' ==> NatText(n) == "0")
  {
    if n >= 10 {
      NatTextPlain(n / 10);
      assert NatText(n)[0] == NatText(n / 10)[0];
      ZeroText(n / 10);
    }
  }

  lemma ZeroText(n: nat)
    ensures NatText(n) == "0" ==> n == 0
  {
    NatTextReads(n);
    if n >= 10 {
      NatTextReads(n / 10);
    }
  }

  /** No numeral is padded, and a run shows a dash exactly when it has more than one cpu. */
  lemma PrintedPlainly(r: Run)
    requires 0 <= r.first <= r.last
    ensures '-' in RunText(r) <==> r.first < r.last
    ensures r.first == r.last ==> AllDigits(RunText(r)) && ReadNat(RunText(r)) == Some(r.first)
    ensures RunText(r)[0] == '0' ==> r.first == 0
  {
    var a := NatText(r.first);
    NatTextReads(r.first);
    NatTextPlain(r.first);
    DigitsAreDigits(a);
    ZeroText(r.first);
  }

  lemma SignedReads(t: string, l: string, r: string, n: nat)
    requires AllSpace(l) && AllSpace(r) && AllDigits(t) && ReadNat(t) == Some(n)
    ensures ReadInt(l + t + r) == Some(n as int)
    ensures ReadInt(l + ("+" + t) + r) == Some(n as int) && ReadInt(l + ("-" + t) + r) == Some(-(n as int))
  {
    hide Strip, ReadNat;
    StripSpaces(l, t, r);
    StripSpaces(l, "+" + t, r);
    StripSpaces(l, "-" + t, r);
    assert ("+" + t)[1..] == t && ("-" + t)[1..] == t;
  }

  /** int() takes a sign, white space around the number, and an underscore between digits. */
  lemma NumbersRead(n: nat, l: string, r: string)
    requires AllSpace(l) && AllSpace(r)
    ensures ReadInt(l + NatText(n) + r) == Some(n as int) == ReadInt(l + ("+" + NatText(n)) + r)
    ensures ReadInt(l + ("-" + NatText(n)) + r) == Some(-(n as int))
  {
    hide NatText, ReadInt, ReadNat;
    NatTextReads(n);
    SignedReads(NatText(n), l, r, n);
  }

  lemma UnderscoreReads(t: string, d: nat)
    requires AllDigits(t) && d < 10
    ensures ReadNat(t + "_" + [Digit(d)]) == ReadNat(t + [Digit(d)])
    ensures ReadNat(t + "_").None? && ReadNat("").None?
  {
    var u, v := t + "_" + [Digit(d)], t + [Digit(d)];
    assert u[..|u| - 1] == t + "_" && (t + "_")[..|t|] == t && v[..|v| - 1] == t;
    assert u[|u| - 1] == Digit(d) == v[|v| - 1] && IsDigit(t[|t| - 1]);
  }

  lemma BlankPart(l: string)
    requires AllSpace(l)
    ensures PartCpus(l) == Some({})
  {
    StripLeftSpaces(l, "");
    assert l + "" == l && StripRight("") == "";
  }

  /** White space between commas names no cpu, and a-b names the cpus from a to b, none when b is below a. */
  lemma PartsRead(a: nat, b: nat, l: string, r: string)
    requires AllSpace(l) && AllSpace(r)
    ensures PartCpus(l) == Some({})
    ensures var cpus := PartCpus(l + (NatText(a) + "-" + NatText(b)) + r);
      cpus == Some(Range(a, b)) && forall x :: x in cpus.value <==> a <= x <= b
  {
    hide NatText, ReadInt;
    BlankPart(l);
    var s, t := NatText(a), NatText(b);
    NatTextReads(a);
    NatTextReads(b);
    DigitsAreDigits(s);
    NatTextReadsAsInt(a);
    NatTextReadsAsInt(b);
    StripSpaces(l, s + "-" + t, r);
    HeadOfDigits(s, t);
    assert (s + "-" + t)[|s| + 1..] == t && (s + "-" + t)[|s|] == '-';
  }
}
