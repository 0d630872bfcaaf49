/** benchmarks/session_measurements.py: what stopping a session after k flat measurements would do. */
module CurveStop {

  datatype Counts = Counts(eligible: nat, triggered: nat, improvedAfter: nat, savedMeasurements: nat)

  // ---- the rule, stated on the curve ----

  /** m is the largest value of s. */
  ghost predicate IsMax(s: seq<real>, m: real) { m in s && forall x :: x in s ==> x <= m }

  /** Value j beats everything before upTo. */
  ghost predicate Beats(curve: seq<real>, j: nat, upTo: nat)
    requires j < |curve| && upTo <= |curve|
  {
    forall p :: 0 <= p < upTo ==> curve[p] < curve[j]
  }

  /** None of curve[from..to] beats everything before from. */
  ghost predicate NoneBeats(curve: seq<real>, from: nat, to: nat)
    requires from <= to <= |curve|
  {
    forall j :: from <= j < to ==> !Beats(curve, j, from)
  }

  /** A window of no measurements is never looked at: the rule counts one before it compares. */
  function Window(k: nat): nat { if k == 0 then 1 else k }

  /** The last k values up to and including i do not beat the earlier maximum. */
  ghost predicate IsStop(curve: seq<real>, k: nat, i: nat) {
    Window(k) <= i < |curve| && NoneBeats(curve, i + 1 - Window(k), i + 1)
  }

  /** The first stop at or after i, or the end of the curve. */
  ghost function StopFrom(curve: seq<real>, k: nat, i: nat): (r: nat)
    requires i <= |curve|
    ensures i <= r <= |curve| && (r < |curve| ==> IsStop(curve, k, r))
    ensures forall j :: i <= j < r ==> !IsStop(curve, k, j)
    decreases |curve| - i
  {
    if i == |curve| || IsStop(curve, k, i) then i else StopFrom(curve, k, i + 1)
  }

  ghost function Stop(curve: seq<real>, k: nat): nat { StopFrom(curve, k, 0) }

  ghost predicate Triggered(curve: seq<real>, k: nat) { Stop(curve, k) < |curve| }

  ghost predicate SomeLaterBeats(curve: seq<real>, from: nat)
    requires from <= |curve|
  {
    exists j :: from <= j < |curve| && Beats(curve, j, from)
  }

  /** Some value after the stop beats everything up to it. */
  ghost predicate ImprovedAfter(curve: seq<real>, k: nat)
    requires Triggered(curve, k)
  {
    SomeLaterBeats(curve, Stop(curve, k) + 1)
  }

  ghost function One(curve: seq<real>, k: nat): Counts {
    if |curve| < k + 1 then Counts(0, 0, 0, 0)
    else if !Triggered(curve, k) then Counts(1, 0, 0, 0)
    else Counts(1, 1, if ImprovedAfter(curve, k) then 1 else 0, |curve| - 1 - Stop(curve, k))
  }

  function Plus(a: Counts, b: Counts): Counts {
    Counts(a.eligible + b.eligible, a.triggered + b.triggered, a.improvedAfter + b.improvedAfter,
           a.savedMeasurements + b.savedMeasurements)
  }

  ghost function Tally(curves: seq<seq<real>>, k: nat): Counts
  {
    if curves == [] then Counts(0, 0, 0, 0)
    else Plus(Tally(curves[..|curves| - 1], k), One(curves[|curves| - 1], k))
  }

  // ---- the loop ----

  /** What the loop knows of a curve at i: the best so far, first reached flat + 1 values ago, and no stop yet. */
  ghost predicate Walked(curve: seq<real>, k: nat, i: nat, best: real, flat: nat) {
    && flat < i <= |curve| && flat < Window(k)
    && curve[i - 1 - flat] == best
    && (forall p :: 0 <= p < i - 1 - flat ==> curve[p] < best)
    && (forall p :: i - 1 - flat <= p < i ==> curve[p] <= best)
    && (forall j :: 0 <= j < i ==> !IsStop(curve, k, j))
  }

  lemma WalkFlat(curve: seq<real>, k: nat, i: nat, best: real, flat: nat)
    requires Walked(curve, k, i, best, flat) && i < |curve| && curve[i] <= best
    ensures flat + 1 < k ==> Walked(curve, k, i + 1, best, flat + 1)
    ensures flat + 1 >= k ==> IsStop(curve, k, i)
  {
    var at := i - 1 - flat;
    if flat + 1 < k {
      if Window(k) <= i {
        var from := i + 1 - Window(k);
        assert from <= at <= i;
        assert Beats(curve, at, from);
      }
    } else {
      assert i + 1 - Window(k) == at + 1;
      assert forall j :: at < j <= i ==> curve[j] <= curve[at];
    }
  }

  lemma WalkBest(curve: seq<real>, k: nat, i: nat, best: real, flat: nat)
    requires Walked(curve, k, i, best, flat) && i < |curve| && curve[i] > best
    ensures Walked(curve, k, i + 1, curve[i], 0)
  {
    if Window(k) <= i {
      assert Beats(curve, i, i + 1 - Window(k));
    }
  }

  lemma StopFound(curve: seq<real>, k: nat, i: nat)
    requires IsStop(curve, k, i) && forall j :: 0 <= j < i ==> !IsStop(curve, k, j)
    ensures Stop(curve, k) == i
  {
  }

  /** Beating the best is beating everything up to the stop. */
  lemma BestDecides(curve: seq<real>, k: nat, i: nat, best: real, at: nat)
    requires i < |curve| && Stop(curve, k) == i && at <= i && curve[at] == best
    requires forall p :: 0 <= p <= i ==> curve[p] <= best
    ensures ImprovedAfter(curve, k) <==> exists j :: i < j < |curve| && curve[j] > best
  {
    assert forall j :: i < j < |curve| ==> (curve[j] > best <==> Beats(curve, j, i + 1));
  }

  method AnyAbove(rest: seq<real>, best: real) returns (found: bool)
    ensures found <==> exists j :: 0 <= j < |rest| && rest[j] > best
  {
    for i := 0 to |rest|
      invariant forall j :: 0 <= j < i ==> rest[j] <= best
    {
      if rest[i] > best { return true; }
    }
    return false;
  }

  lemma WalkStart(curve: seq<real>, k: nat)
    requires |curve| > k
    ensures Walked(curve, k, 1, curve[0], 0)
  {
  }

  lemma FoundStop(curve: seq<real>, k: nat, i: nat, best: real, flat: nat, rest: seq<real>, later: bool)
    requires |curve| > k && i < |curve| && Walked(curve, k, i, best, flat) && curve[i] <= best && flat + 1 >= k
    requires rest == curve[i + 1..] && (later <==> exists j :: 0 <= j < |rest| && rest[j] > best)
    ensures One(curve, k) == Counts(1, 1, if later then 1 else 0, |curve| - 1 - i)
  {
    WalkFlat(curve, k, i, best, flat);
    StopFound(curve, k, i);
    BestDecides(curve, k, i, best, i - 1 - flat);
    assert forall j :: i < j < |curve| ==> curve[j] == rest[j - i - 1];
    assert forall j :: 0 <= j < |rest| ==> rest[j] == curve[i + 1 + j];
  }

  lemma NeverStops(curve: seq<real>, k: nat, best: real, flat: nat)
    requires |curve| > k && Walked(curve, k, |curve|, best, flat)
    ensures One(curve, k) == Counts(1, 0, 0, 0)
  {
  }

  lemma NextCurve(curves: seq<seq<real>>, k: nat, n: nat)
    requires n < |curves|
    ensures Tally(curves[..n + 1], k) == Plus(Tally(curves[..n], k), One(curves[n], k))
    ensures |curves[n]| < k + 1 ==> Tally(curves[..n + 1], k) == Tally(curves[..n], k)
  {
    assert curves[..n + 1][..n] == curves[..n];
  }

  method CurveStop(curves: seq<seq<real>>, k: nat) returns (r: Counts)
    ensures r == Tally(curves, k)
  {
    hide Walked, IsStop, One, Tally;
    var eligible: nat, triggered: nat, improved: nat, saved: nat := 0, 0, 0, 0;
    NothingTallied(k);
    assert curves[..0] == [];
    for n := 0 to |curves|
      invariant Counts(eligible, triggered, improved, saved) == Tally(curves[..n], k)
    {
      var curve := curves[n];
      NextCurve(curves, k, n);
      if |curve| < k + 1 { continue; }
      eligible := eligible + 1;
      var best := curve[0];
      var flat := 0;
      var i := 1;
      ghost var one := Counts(1, 0, 0, 0);
      ghost var t, m, s := triggered, improved, saved;
      WalkStart(curve, k);
      while i < |curve|
        invariant 1 <= i <= |curve| && Walked(curve, k, i, best, flat)
        invariant one == Counts(1, 0, 0, 0) && triggered == t && improved == m && saved == s
      {
        var v := curve[i];
        if v > best {
          WalkBest(curve, k, i, best, flat);
          best, flat := v, 0;
          i := i + 1;
          continue;
        }
        flat := flat + 1;
        if flat >= k {
          triggered := triggered + 1;
          var rest := curve[i + 1..];
          saved := saved + |rest|;
          var later := AnyAbove(rest, best);
          if later {
            improved := improved + 1;
          }
          FoundStop(curve, k, i, best, flat - 1, rest, later);
          one := One(curve, k);
          break;
        }
        WalkFlat(curve, k, i, best, flat - 1);
        i := i + 1;
      }
      if one == Counts(1, 0, 0, 0) {
        NeverStops(curve, k, best, flat);
      }
    }
    assert curves[..|curves|] == curves;
    r := Counts(eligible, triggered, improved, saved);
  }

  lemma NothingTallied(k: nat)
    ensures Tally([], k) == Counts(0, 0, 0, 0)
  {
  }

  // ---- what it means ----

  /** A stop is counted improved exactly when every place the whole curve's maximum sits lies after it. */
  lemma ImprovedMeansBestAhead(curve: seq<real>, k: nat, m: real)
    requires Triggered(curve, k) && IsMax(curve, m)
    ensures ImprovedAfter(curve, k) <==> forall j :: 0 <= j <= Stop(curve, k) ==> curve[j] != m
  {
    var i := Stop(curve, k);
    var top :| 0 <= top < |curve| && curve[top] == m;
    assert forall p :: 0 <= p < |curve| ==> curve[p] in curve;
    if forall j :: 0 <= j <= i ==> curve[j] != m {
      assert i < top && Beats(curve, top, i + 1);
    } else {
      var p :| 0 <= p <= i && curve[p] == m;
      assert forall j :: i < j < |curve| ==> !(curve[p] < curve[j]);
    }
  }

  /** A larger k stops later or never. */
  lemma StopsLater(curve: seq<real>, k: nat, l: nat)
    requires k <= l
    ensures Stop(curve, k) <= Stop(curve, l)
  {
    var i := Stop(curve, l);
    if i < |curve| {
      var earlier := i + Window(k) - Window(l);
      assert earlier + 1 - Window(k) == i + 1 - Window(l);
      assert NoneBeats(curve, i + 1 - Window(l), earlier + 1);
      assert IsStop(curve, k, earlier);
    }
  }

  ghost predicate AtMostAs(a: Counts, b: Counts) {
    && a.eligible <= b.eligible && a.triggered <= b.triggered
    && a.improvedAfter <= b.improvedAfter && a.savedMeasurements <= b.savedMeasurements
  }

  lemma OneNonIncreasing(curve: seq<real>, k: nat, l: nat)
    requires k <= l
    ensures AtMostAs(One(curve, l), One(curve, k))
  {
    StopsLater(curve, k, l);
    if Triggered(curve, l) && ImprovedAfter(curve, l) {
      var j :| Stop(curve, l) + 1 <= j < |curve| && Beats(curve, j, Stop(curve, l) + 1);
      assert Beats(curve, j, Stop(curve, k) + 1);
    }
  }

  /** None of the four counters grows with k. */
  lemma {:induction false} CountersNonIncreasing(curves: seq<seq<real>>, k: nat, l: nat)
    requires k <= l
    ensures AtMostAs(Tally(curves, l), Tally(curves, k))
  {
    if curves != [] {
      CountersNonIncreasing(curves[..|curves| - 1], k, l);
      OneNonIncreasing(curves[|curves| - 1], k, l);
    }
  }

  // ---- the counters as counts ----

  /** The curves that are long enough to be judged. */
  ghost function Judged(curves: seq<seq<real>>, k: nat): set<int> {
    set i | 0 <= i < |curves| && |curves[i]| > k
  }

  /** Value p of the curve is flat on the k values up to it. */
  ghost predicate SomeStop(curve: seq<real>, k: nat, before: int) {
    exists p :: 0 <= p < |curve| && p < before && IsStop(curve, k, p)
  }

  ghost function Stopped(curves: seq<seq<real>>, k: nat): set<int> {
    set i | 0 <= i < |curves| && |curves[i]| > k && SomeStop(curves[i], k, |curves[i]|)
  }

  /** The measurements that stand behind a stop of their curve. */
  ghost function BehindStop(curve: seq<real>, k: nat): set<int> {
    set j | 0 <= j < |curve| && |curve| > k && SomeStop(curve, k, j)
  }

  ghost function SavedOver(curves: seq<seq<real>>, k: nat): nat
  {
    if curves == [] then 0
    else SavedOver(curves[..|curves| - 1], k) + |BehindStop(curves[|curves| - 1], k)|
  }

  lemma {:induction false} IntervalSize(s: set<int>, lo: int, hi: int)
    requires lo <= hi && forall j :: j in s <==> lo <= j < hi
    ensures |s| == hi - lo
    decreases hi - lo
  {
    if lo < hi {
      IntervalSize(s - {lo}, lo + 1, hi);
    } else {
      assert s == {};
    }
  }

  lemma StopsSeen(curve: seq<real>, k: nat, before: int)
    requires 0 <= before <= |curve|
    ensures SomeStop(curve, k, before) <==> Stop(curve, k) < before
  {
    var s := Stop(curve, k);
    if s < before {
      assert IsStop(curve, k, s);
    }
  }

  lemma OneCounts(curve: seq<real>, k: nat)
    ensures One(curve, k).eligible == if |curve| > k then 1 else 0
    ensures One(curve, k).triggered == if |curve| > k && SomeStop(curve, k, |curve|) then 1 else 0
    ensures One(curve, k).savedMeasurements == |BehindStop(curve, k)|
  {
    StopsSeen(curve, k, |curve|);
    forall j | 0 <= j < |curve| ensures SomeStop(curve, k, j) <==> Stop(curve, k) < j {
      StopsSeen(curve, k, j);
    }
    if |curve| > k && Triggered(curve, k) {
      IntervalSize(BehindStop(curve, k), Stop(curve, k) + 1, |curve|);
    } else {
      assert BehindStop(curve, k) == {};
    }
  }

  /** eligible counts the curves longer than k, triggered those of them with a stop, and saved the measurements
      behind a stop. */
  lemma {:induction false} CountersCount(curves: seq<seq<real>>, k: nat)
    ensures Tally(curves, k).eligible == |Judged(curves, k)| && Tally(curves, k).triggered == |Stopped(curves, k)|
    ensures Tally(curves, k).savedMeasurements == SavedOver(curves, k)
  {
    hide SomeStop, IsStop, One, BehindStop;
    if curves == [] {
      assert Judged(curves, k) == {} == Stopped(curves, k);
    } else {
      var m := |curves| - 1;
      var front, c := curves[..m], curves[m];
      CountersCount(front, k);
      OneCounts(c, k);
      JudgedNext(front, c, k);
      StoppedNext(front, c, k);
      assert curves == front + [c];
    }
  }

  lemma JudgedNext(front: seq<seq<real>>, c: seq<real>, k: nat)
    ensures |Judged(front + [c], k)| == |Judged(front, k)| + if |c| > k then 1 else 0
  {
    var all, m := front + [c], |front|;
    assert forall i :: 0 <= i < m ==> all[i] == front[i];
    if |c| > k {
      assert Judged(all, k) == Judged(front, k) + {m};
    } else {
      assert Judged(all, k) == Judged(front, k);
    }
  }

  lemma StoppedNext(front: seq<seq<real>>, c: seq<real>, k: nat)
    ensures |Stopped(front + [c], k)| == |Stopped(front, k)| + if |c| > k && SomeStop(c, k, |c|) then 1 else 0
  {
    hide SomeStop;
    var all, m := front + [c], |front|;
    forall i ensures i in Stopped(all, k) <==> i in Stopped(front, k) || (i == m && |c| > k && SomeStop(c, k, |c|)) {
      assert 0 <= i < m ==> all[i] == front[i];
      assert all[m] == c;
    }
    if |c| > k && SomeStop(c, k, |c|) {
      assert Stopped(all, k) == Stopped(front, k) + {m};
    } else {
      assert Stopped(all, k) == Stopped(front, k);
    }
  }
}
