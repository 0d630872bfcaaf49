/** stratified_arm's conditional test keeps its level: over the tables that its margins allow, and over the
    relabellings of the probes, it is significant at alpha at most a share alpha of the time. */
module StratifiedLevel {
  import opened Folds
  import opened Binomials
  import R = Relabelling
  import opened BinaryOutcomes
  import opened StratifiedArm
  import opened StratifiedLaws
  import opened StratifiedMoments
  import opened StratifiedOrder
  import opened SuccessCounts
  import opened Agreement

  // ---- Ways is monotone ----

  lemma {:induction false} RepeatOrder(n: int, x: real, y: real)
    requires x <= y
    ensures Repeat(n, x) <= Repeat(n, y)
    decreases n
  {
    if n > 0 {
      RepeatOrder(n - 1, x, y);
    }
  }

  lemma {:induction false} WaysAtMost(rows: bool, strata: seq<Stratum>, f: int -> real, g: int -> real)
    requires forall s :: f(s) <= g(s)
    ensures Ways(rows, strata, f) <= Ways(rows, strata, g)
    decreases |strata|
  {
    if strata != [] {
      var st := strata[|strata| - 1];
      forall s ensures Step(rows, st, f)(s) <= Step(rows, st, g)(s) {
        forall v | v in st.Support() ensures Term(rows, st, f, s)(v) <= Term(rows, st, g, s)(v) {
          RepeatOrder(Weight(rows, st, v), f(s + v), g(s + v));
        }
        SumOverAtMost(st.Support(), Term(rows, st, f, s), Term(rows, st, g, s));
      }
      WaysAtMost(rows, strata[..|strata| - 1], Step(rows, st, f), Step(rows, st, g));
    }
  }

  // ---- the tail depends on the margins and the observed total alone ----

  predicate SameMargins(s: Stratum, t: Stratum) { s.n1 == t.n1 && s.n2 == t.n2 && s.K() == t.K() }

  predicate AllSameMargins(p: seq<Stratum>, q: seq<Stratum>) {
    |p| == |q| && forall i :: 0 <= i < |p| ==> SameMargins(p[i], q[i])
  }

  lemma {:induction false} SameRange(p: seq<Stratum>, q: seq<Stratum>)
    requires AllSameMargins(p, q)
    ensures Low(p) == Low(q) && High(p) == High(q)
  {
    if p != [] {
      SameRange(p[..|p| - 1], q[..|q| - 1]);
    }
  }

  lemma {:induction false} SameMass(p: seq<Stratum>, q: seq<Stratum>, x: int)
    requires AllSameMargins(p, q)
    ensures Mass(p, x) == Mass(q, x)
    decreases |p|
  {
    hide SumOver, Ints, Low, High, Through, PmfOf;
    if p != [] {
      var p', q', s, t := p[..|p| - 1], q[..|q| - 1], p[|p| - 1], q[|q| - 1];
      SameRange(p', q');
      forall y ensures MassOf(p')(y) == MassOf(q')(y) {
        SameMass(p', q', y);
      }
      MassStep(p', q', s, t, x);
    }
  }

  lemma SamePmf(s: Stratum, t: Stratum, v: int)
    requires SameMargins(s, t)
    ensures PmfOf(s)(v) == PmfOf(t)(v)
  {
    hide Comb;
    assert s.Rows(v) == t.Rows(v);
  }

  lemma MassStep(p: seq<Stratum>, q: seq<Stratum>, s: Stratum, t: Stratum, x: int)
    requires Low(p) == Low(q) && High(p) == High(q) && SameMargins(s, t)
    requires forall y :: MassOf(p)(y) == MassOf(q)(y)
    ensures SumOver(Ints(Low(p), High(p) + 1), Through(MassOf(p), PmfOf(s), x))
         == SumOver(Ints(Low(q), High(q) + 1), Through(MassOf(q), PmfOf(t), x))
  {
    hide Mass, MassOf, Ints, Low, High, SumOver, PmfOf;
    forall y ensures Through(MassOf(p), PmfOf(s), x)(y) == Through(MassOf(q), PmfOf(t), x)(y) {
      SamePmf(s, t, x - y);
    }
    SumOverSame(Ints(Low(p), High(p) + 1), Through(MassOf(p), PmfOf(s), x), Through(MassOf(q), PmfOf(t), x));
  }

  /** The p of any tables with the margins of q is q's tail at their own total. */
  lemma PIsTailAt(p: seq<Stratum>, q: seq<Stratum>)
    requires AllSameMargins(p, q)
    ensures ConvolvedP(p) == TailAt(q, Observed(p))
  {
    SameRange(p, q);
    forall x ensures TailMass(p, Observed(p))(x) == TailMass(q, Observed(p))(x) {
      SameMass(p, q, x);
    }
    SumOverSame(Ints(Low(p), High(p) + 1), TailMass(p, Observed(p)), TailMass(q, Observed(p)));
  }

  // ---- the level over tables ----

  /** 1 where tables with the total x would be significant at alpha. */
  function Significant(strata: seq<Stratum>, alpha: real): int -> real {
    (x: int) => if TailAt(strata, x) <= alpha then 1.0 else 0.0
  }

  lemma TailCounts(rows: bool, strata: seq<Stratum>, x: int)
    requires Feasible(strata)
    ensures Ways(rows, strata, AtLeast(x)) == Repeat(Margins(rows, strata), TailAt(strata, x))
  {
    if rows {
      TailIsCount(strata, x);
    } else {
      ColumnsFromRows(strata, x);
    }
  }

  lemma WholeTail(strata: seq<Stratum>, x: int)
    requires Feasible(strata) && x <= Low(strata)
    ensures TailAt(strata, x) == 1.0
  {
    SumOverSame(Ints(Low(strata), High(strata) + 1), TailMass(strata, x), MassOf(strata));
    TotalMassIsOne(strata);
  }

  /** The least significant total from `from` on, or `upTo` if there is none before it. */
  lemma {:induction false} LeastSignificant(strata: seq<Stratum>, alpha: real, from: int, upTo: int) returns (m: int)
    requires from <= upTo
    ensures from <= m <= upTo
    ensures m < upTo ==> TailAt(strata, m) <= alpha
    ensures forall x :: from <= x < m ==> alpha < TailAt(strata, x)
    decreases upTo - from
  {
    m := from;
    if from < upTo && alpha < TailAt(strata, from) {
      m := LeastSignificant(strata, alpha, from + 1, upTo);
    }
  }

  lemma NoTail(strata: seq<Stratum>, x: int)
    requires x > High(strata)
    ensures TailAt(strata, x) == 0.0
  {
    SumOverZero(Ints(Low(strata), High(strata) + 1), TailMass(strata, x));
  }

  lemma Everything(rows: bool, strata: seq<Stratum>)
    requires Feasible(strata)
    ensures Ways(rows, strata, One()) == Repeat(Margins(rows, strata), 1.0)
  {
    if rows {
      WaysOfEverything(strata);
    } else {
      ColumnsOfEverything(strata);
    }
  }

  lemma {:induction false} RangeNotEmpty(strata: seq<Stratum>)
    requires Feasible(strata)
    ensures Low(strata) <= High(strata)
  {
    if strata != [] {
      RangeNotEmpty(strata[..|strata| - 1]);
    }
  }

  /** Over all tables with these margins, weighed by how often each comes up, at most a share alpha is
      significant at alpha. */
  lemma TablesKeepLevel(rows: bool, strata: seq<Stratum>, alpha: real)
    requires Feasible(strata) && alpha >= 0.0
    ensures Ways(rows, strata, Significant(strata, alpha)) <= Repeat(Margins(rows, strata), alpha)
  {
    hide Ways, TailAt, Margins, Low, High, Repeat;
    if alpha >= 1.0 {
      WaysAtMost(rows, strata, Significant(strata, alpha), One());
      Everything(rows, strata);
      RepeatOrder(Margins(rows, strata), 1.0, alpha);
    } else {
      RangeNotEmpty(strata);
      var m := LeastSignificant(strata, alpha, Low(strata), High(strata) + 1);
      NoTail(strata, High(strata) + 1);
      forall x ensures Significant(strata, alpha)(x) <= AtLeast(m)(x) {
        if x <= Low(strata) {
          WholeTail(strata, x);
        }
      }
      WaysAtMost(rows, strata, Significant(strata, alpha), AtLeast(m));
      TailCounts(rows, strata, m);
      RepeatOrder(Margins(rows, strata), TailAt(strata, m), alpha);
    }
  }

  // ---- the level over relabellings ----

  lemma SameTotals(s: R.Batch, b: R.Batch)
    requires BinaryBatch(b)
    requires |s.treat| == |b.treat| && |s.control| == |b.control| && multiset(s.Pool()) == multiset(b.Pool())
    ensures BinaryBatch(s) && SameMargins(StratumOf(s), StratumOf(b))
  {
    BinaryPool(b.treat, b.control);
    BinaryRelabelled(s, b.Pool());
    OnesReordered(s.Pool(), b.Pool());
    OnesConcat(s.treat, s.control);
    OnesConcat(b.treat, b.control);
  }

  lemma RelabelledP(arr: seq<R.Batch>, batches: seq<R.Batch>)
    requires BinaryData(batches) && R.Relabels(arr, batches)
    ensures ConvolvedP(StrataOf(arr)) == TailAt(StrataOf(batches), Treated(arr))
  {
    forall i | 0 <= i < |arr|
      ensures BinaryBatch(arr[i]) && SameMargins(StrataOf(arr)[i], StrataOf(batches)[i])
    {
      SameTotals(arr[i], batches[i]);
      StrataAt(arr, i);
      StrataAt(batches, i);
    }
    ObservedIsTreated(arr);
    PIsTailAt(StrataOf(arr), StrataOf(batches));
  }

  /** 1 where stratified_arm would call the labelling significant. */
  function Refused(alpha: real): seq<R.Batch> -> real {
    (arr: seq<R.Batch>) => if ConvolvedP(StrataOf(arr)) <= alpha then 1.0 else 0.0
  }

  /** Of all relabellings of 0/1 data, in batches of any shapes, at most a share alpha would have a
      convolved p of at most alpha. */
  lemma ConvolvedTestKeepsItsLevel(batches: seq<R.Batch>, alpha: real, space: nat)
    requires BinaryData(batches) && alpha >= 0.0 && space == |R.Arrangements(batches)|
    ensures SumOver(R.Arrangements(batches), Refused(alpha)) <= space as real * alpha
  {
    var strata := StrataOf(batches);
    forall arr | arr in R.Arrangements(batches)
      ensures Refused(alpha)(arr) == BySuccesses(Significant(strata, alpha))(arr)
    {
      var m :| 0 <= m < |R.Arrangements(batches)| && R.Arrangements(batches)[m] == arr;
      R.ArrangementsRelabel(batches, m);
      RelabelledP(arr, batches);
    }
    SumOverSame(R.Arrangements(batches), Refused(alpha), BySuccesses(Significant(strata, alpha)));
    SuccessesCounted(batches, Significant(strata, alpha));
    StrataFeasible(batches);
    TablesKeepLevel(false, strata, alpha);
    SpaceIsMargins(batches);
    SpaceTimes(space, Margins(false, strata), alpha);
  }

  lemma SpaceTimes(space: nat, m: nat, alpha: real)
    requires space as real == Repeat(m, 1.0)
    ensures Repeat(m, alpha) == space as real * alpha
  {
    RepeatIsProduct(m, 1.0);
    RepeatIsProduct(m, alpha);
  }
}
