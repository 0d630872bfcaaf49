/** benchmarks/check_money.py: the totals per arm, folded row by row. */
module MoneyTotals {
  import opened Wrappers
  import opened MoneyRows

  // ---- what a row list holds for one arm ----

  predicate Of(r: Row, p: string, since: real) { r.Kept(since) && r.Arm() == p }

  function CostIn(rows: seq<Row>, p: string, since: real): real
  {
    if rows == [] then 0.0
    else
      var r := rows[|rows| - 1];
      CostIn(rows[..|rows| - 1], p, since) + if Of(r, p, since) then r.cost else 0.0
  }

  function CallsIn(rows: seq<Row>, p: string, since: real): nat
  {
    if rows == [] then 0
    else CallsIn(rows[..|rows| - 1], p, since) + if Of(rows[|rows| - 1], p, since) then 1 else 0
  }

  predicate SpanOf(s: Span, p: string, since: real) { s.Kept(since) && s.probe == p }

  function SpanCostIn(spans: seq<Span>, p: string, since: real): real
  {
    if spans == [] then 0.0
    else
      var s := spans[|spans| - 1];
      SpanCostIn(spans[..|spans| - 1], p, since) + if SpanOf(s, p, since) then s.cost.value else 0.0
  }

  function SpanCallsIn(spans: seq<Span>, p: string, since: real): nat
  {
    if spans == [] then 0
    else SpanCallsIn(spans[..|spans| - 1], p, since) + if SpanOf(spans[|spans| - 1], p, since) then 1 else 0
  }

  /** Has arm p already sent a body with this fingerprint? */
  predicate Sent(rows: seq<Row>, p: string, sha: string, since: real) {
    exists i :: 0 <= i < |rows| && Of(rows[i], p, since) && rows[i].sha == sha
  }

  /** A row that repeats a body its arm had already sent. */
  predicate Repeats(before: seq<Row>, r: Row, p: string, since: real) {
    Of(r, p, since) && r.sha != "" && Sent(before, p, r.sha, since)
  }

  function PaidIn(rows: seq<Row>, p: string, since: real): real
  {
    if rows == [] then 0.0
    else
      var before, r := rows[..|rows| - 1], rows[|rows| - 1];
      PaidIn(before, p, since) + if Repeats(before, r, p, since) then r.cost else 0.0
  }

  function RepeatsIn(rows: seq<Row>, p: string, since: real): nat
  {
    if rows == [] then 0
    else
      var before, r := rows[..|rows| - 1], rows[|rows| - 1];
      RepeatsIn(before, p, since) + if Repeats(before, r, p, since) then 1 else 0
  }

  /** How many rows of arm p `which` selects. */
  function RowsIn(rows: seq<Row>, p: string, since: real, which: Row -> bool): nat
  {
    if rows == [] then 0
    else
      var before, r := rows[..|rows| - 1], rows[|rows| - 1];
      RowsIn(before, p, since, which) + if Of(r, p, since) && which(r) then 1 else 0
  }

  function FailedRow(): Row -> bool { (r: Row) => r.Failed() }
  function OfKind(kind: string): Row -> bool { (r: Row) => r.Failed() && r.FailureKind() == kind }
  function EmptyRow(): Row -> bool { (r: Row) => r.Empty() }
  function QueuedRow(): Row -> bool { (r: Row) => r.EmptyQueued() }

  /** Failures and empty answers are different calls, and only empty answers are counted as queued. */
  lemma {:induction false} EmptyOrFailed(rows: seq<Row>, p: string, since: real)
    ensures RowsIn(rows, p, since, QueuedRow()) <= RowsIn(rows, p, since, EmptyRow())
    ensures RowsIn(rows, p, since, FailedRow()) + RowsIn(rows, p, since, EmptyRow()) <= CallsIn(rows, p, since)
  {
    if rows != [] {
      EmptyOrFailed(rows[..|rows| - 1], p, since);
    }
  }

  // ---- the folds ----

  function Bump(m: map<string, nat>, p: string): map<string, nat> { m[p := Count(m, p) + 1] }

  function KindsOf(kinds: map<string, map<string, nat>>, p: string): map<string, nat> {
    if p in kinds then kinds[p] else map[]
  }

  /** m counts, arm by arm, the rows that `which` selects. */
  ghost predicate Counted(m: map<string, nat>, rows: seq<Row>, since: real, which: Row -> bool) {
    forall p :: Count(m, p) == RowsIn(rows, p, since, which)
  }

  ghost predicate KindsCounted(kinds: map<string, map<string, nat>>, rows: seq<Row>, since: real) {
    forall p, kind :: Count(KindsOf(kinds, p), kind) == RowsIn(rows, p, since, OfKind(kind))
  }

  lemma CountedNext(m: map<string, nat>, before: seq<Row>, r: Row, since: real, which: Row -> bool)
    requires Counted(m, before, since, which)
    ensures Counted(if r.Kept(since) && which(r) then Bump(m, r.Arm()) else m, before + [r], since, which)
  {
    hide RowsIn;
    var after := if r.Kept(since) && which(r) then Bump(m, r.Arm()) else m;
    forall p ensures Count(after, p) == RowsIn(before + [r], p, since, which) {
      NextRow(before, r, p, since, which);
    }
  }

  lemma {:induction false} NextRow(before: seq<Row>, r: Row, p: string, since: real, which: Row -> bool)
    ensures RowsIn(before + [r], p, since, which)
      == RowsIn(before, p, since, which) + if Of(r, p, since) && which(r) then 1 else 0
    ensures CallsIn(before + [r], p, since) == CallsIn(before, p, since) + if Of(r, p, since) then 1 else 0
    ensures CostIn(before + [r], p, since) == CostIn(before, p, since) + if Of(r, p, since) then r.cost else 0.0
  {
    assert (before + [r])[..|before|] == before;
  }

  lemma KindsNext(kinds: map<string, map<string, nat>>, before: seq<Row>, r: Row, since: real)
    requires KindsCounted(kinds, before, since)
    ensures KindsCounted(
      if r.Kept(since) && r.Failed() then kinds[r.Arm() := Bump(KindsOf(kinds, r.Arm()), r.FailureKind())] else kinds,
      before + [r], since)
  {
    hide RowsIn;
    var arm := r.Arm();
    var after := if r.Kept(since) && r.Failed() then kinds[arm := Bump(KindsOf(kinds, arm), r.FailureKind())]
      else kinds;
    forall p, kind ensures Count(KindsOf(after, p), kind) == RowsIn(before + [r], p, since, OfKind(kind)) {
      NextRow(before, r, p, since, OfKind(kind));
      assert Count(KindsOf(kinds, p), kind) == RowsIn(before, p, since, OfKind(kind));
    }
  }

  lemma NothingCounted(since: real, which: Row -> bool)
    ensures Counted(map[], [], since, which) && KindsCounted(map[], [], since)
  {
  }

  /** The cost is kept for the arms that have calls. */
  ghost predicate Charged(cost: map<string, real>, calls: map<string, nat>, rows: seq<Row>, since: real) {
    && cost.Keys == calls.Keys && (forall p :: p in calls ==> calls[p] > 0)
    && (forall p :: Got(cost, p) == CostIn(rows, p, since) && Count(calls, p) == CallsIn(rows, p, since))
  }

  lemma ChargedNext(cost: map<string, real>, calls: map<string, nat>, before: seq<Row>, r: Row, since: real)
    requires Charged(cost, calls, before, since)
    ensures if r.Kept(since)
      then Charged(cost[r.Arm() := Got(cost, r.Arm()) + r.cost], Bump(calls, r.Arm()), before + [r], since)
            else Charged(cost, calls, before + [r], since)
  {
    hide CostIn, CallsIn;
    forall p
      ensures CallsIn(before + [r], p, since) == CallsIn(before, p, since) + if Of(r, p, since) then 1 else 0
      ensures CostIn(before + [r], p, since) == CostIn(before, p, since) + if Of(r, p, since) then r.cost else 0.0
    {
      NextRow(before, r, p, since, FailedRow());
    }
  }

  /** meter_by_probe, arm by arm: cost and calls, the failures and which they were, the empty 200s and those of
      them that had queued. */
  method MeterByProbe(rows: seq<Row>, since: real)
    returns (cost: map<string, real>, calls: map<string, nat>, killed: map<string, nat>,
             kinds: map<string, map<string, nat>>, empty: map<string, nat>, queued: map<string, nat>)
    ensures cost.Keys == calls.Keys && forall p :: p in calls ==> calls[p] > 0
    ensures forall p :: Got(cost, p) == CostIn(rows, p, since) && Count(calls, p) == CallsIn(rows, p, since)
    ensures Counted(killed, rows, since, FailedRow()) && KindsCounted(kinds, rows, since)
    ensures Counted(empty, rows, since, EmptyRow()) && Counted(queued, rows, since, QueuedRow())
  {
    hide CostIn, CallsIn, RowsIn, Counted, KindsCounted;
    cost, calls, killed, kinds, empty, queued := map[], map[], map[], map[], map[], map[];
    NothingCounted(since, FailedRow());
    NothingCounted(since, EmptyRow());
    NothingCounted(since, QueuedRow());
    NothingCharged(since);
    assert rows[..0] == [];
    for i := 0 to |rows|
      invariant Charged(cost, calls, rows[..i], since)
      invariant Counted(killed, rows[..i], since, FailedRow()) && KindsCounted(kinds, rows[..i], since)
      invariant Counted(empty, rows[..i], since, EmptyRow()) && Counted(queued, rows[..i], since, QueuedRow())
    {
      var r := rows[i];
      assert rows[..i + 1] == rows[..i] + [r];
      ChargedNext(cost, calls, rows[..i], r, since);
      CountedNext(killed, rows[..i], r, since, FailedRow());
      KindsNext(kinds, rows[..i], r, since);
      CountedNext(empty, rows[..i], r, since, EmptyRow());
      CountedNext(queued, rows[..i], r, since, QueuedRow());
      if !r.Kept(since) { continue; }
      var arm := r.Arm();
      calls := Bump(calls, arm);
      cost := cost[arm := Got(cost, arm) + r.cost];
      if r.Failed() {
        killed := Bump(killed, arm);
        kinds := kinds[arm := Bump(KindsOf(kinds, arm), r.FailureKind())];
      } else if r.prompt == Some(0) && r.completion == Some(0) {
        empty := Bump(empty, arm);
        if r.queuedS > 0.5 {
          queued := Bump(queued, arm);
        }
      }
    }
    assert rows[..|rows|] == rows;
  }

  lemma NothingCharged(since: real)
    ensures Charged(map[], map[], [], since)
  {
  }

  /** spans_by_probe: cost and generations per probe. */
  method SpansByProbe(spans: seq<Span>, since: real) returns (cost: map<string, real>, calls: map<string, nat>)
    ensures cost.Keys == calls.Keys && forall p :: p in calls ==> calls[p] > 0
    ensures forall p :: Got(cost, p) == SpanCostIn(spans, p, since) && Count(calls, p) == SpanCallsIn(spans, p, since)
  {
    cost, calls := map[], map[];
    for i := 0 to |spans|
      invariant cost.Keys == calls.Keys && forall p :: p in calls ==> calls[p] > 0
      invariant forall p ::
        Got(cost, p) == SpanCostIn(spans[..i], p, since) && Count(calls, p) == SpanCallsIn(spans[..i], p, since)
    {
      var s := spans[i];
      assert spans[..i + 1][..i] == spans[..i];
      if s.Kept(since) {
        cost := cost[s.probe := Got(cost, s.probe) + s.cost.value];
        calls := calls[s.probe := Count(calls, s.probe) + 1];
      }
    }
    assert spans[..|spans|] == spans;
  }

  function Known(seen: map<string, set<string>>, p: string): set<string> { if p in seen then seen[p] else {} }

  /** What the loop knows after these rows. */
  ghost predicate Folded(paid: map<string, real>, count: map<string, nat>, seen: map<string, set<string>>,
                         rows: seq<Row>, since: real) {
    && (forall p :: Got(paid, p) == PaidIn(rows, p, since) && Count(count, p) == RepeatsIn(rows, p, since))
    && (forall p, sha :: sha in Known(seen, p) <==> sha != "" && Sent(rows, p, sha, since))
  }

  lemma NothingFolded(since: real)
    ensures Folded(map[], map[], map[], [], since)
  {
  }

  lemma RowIgnored(paid: map<string, real>, count: map<string, nat>, seen: map<string, set<string>>,
                   before: seq<Row>, r: Row, since: real)
    requires Folded(paid, count, seen, before, since)
    requires !r.Kept(since) || r.sha == ""
    ensures Folded(paid, count, seen, before + [r], since)
  {
    assert (before + [r])[..|before|] == before;
    SentByRow(before, r, since);
  }

  lemma RowRepeats(paid: map<string, real>, count: map<string, nat>, seen: map<string, set<string>>,
                   before: seq<Row>, r: Row, since: real)
    requires Folded(paid, count, seen, before, since)
    requires r.Kept(since) && r.sha in Known(seen, r.Arm())
    ensures var arm := r.Arm();
      Folded(paid[arm := Got(paid, arm) + r.cost], count[arm := Count(count, arm) + 1], seen, before + [r], since)
  {
    assert (before + [r])[..|before|] == before;
    SentByRow(before, r, since);
    assert r.sha != "" && Sent(before, r.Arm(), r.sha, since);
    var all, paid', count' :=
      before + [r], paid[r.Arm() := Got(paid, r.Arm()) + r.cost], count[r.Arm() := Count(count, r.Arm()) + 1];
    forall p: string
      ensures Got(paid', p) == PaidIn(all, p, since) && Count(count', p) == RepeatsIn(all, p, since)
    {
      assert Got(paid, p) == PaidIn(before, p, since) && Count(count, p) == RepeatsIn(before, p, since);
      assert Repeats(before, r, p, since) <==> p == r.Arm();
    }
  }

  lemma RowIsNew(paid: map<string, real>, count: map<string, nat>, seen: map<string, set<string>>,
                 before: seq<Row>, r: Row, since: real)
    requires Folded(paid, count, seen, before, since)
    requires r.Kept(since) && r.sha != "" && r.sha !in Known(seen, r.Arm())
    ensures var arm := r.Arm();
      Folded(paid, count, seen[arm := Known(seen, arm) + {r.sha}], before + [r], since)
  {
    assert (before + [r])[..|before|] == before;
    SentByRow(before, r, since);
    forall p: string
      ensures Got(paid, p) == PaidIn(before + [r], p, since) && Count(count, p) == RepeatsIn(before + [r], p, since)
    {
      assert Got(paid, p) == PaidIn(before, p, since) && Count(count, p) == RepeatsIn(before, p, since);
      assert !Repeats(before, r, p, since);
    }
    var seen' := seen[r.Arm() := Known(seen, r.Arm()) + {r.sha}];
    forall p: string, sha: string
      ensures sha in Known(seen', p) <==> sha != "" && Sent(before + [r], p, sha, since)
    {
      assert sha in Known(seen, p) <==> sha != "" && Sent(before, p, sha, since);
    }
  }

  /** paid_retries: how often each arm sent a body again, and what it paid for that. */
  method PaidRetries(rows: seq<Row>, since: real) returns (paid: map<string, real>, count: map<string, nat>)
    ensures forall p :: Got(paid, p) == PaidIn(rows, p, since) && Count(count, p) == RepeatsIn(rows, p, since)
  {
    hide PaidIn, RepeatsIn, Sent, Folded;
    paid, count := map[], map[];
    var seen: map<string, set<string>> := map[];
    NothingFolded(since);
    assert rows[..0] == [];
    for i := 0 to |rows|
      invariant Folded(paid, count, seen, rows[..i], since)
    {
      var r := rows[i];
      assert rows[..i + 1] == rows[..i] + [r];
      if !r.Kept(since) || r.sha == "" {
        RowIgnored(paid, count, seen, rows[..i], r, since);
        continue;
      }
      var arm := r.Arm();
      if r.sha in Known(seen, arm) {
        RowRepeats(paid, count, seen, rows[..i], r, since);
        paid := paid[arm := Got(paid, arm) + r.cost];
        count := count[arm := Count(count, arm) + 1];
      } else {
        RowIsNew(paid, count, seen, rows[..i], r, since);
        seen := seen[arm := Known(seen, arm) + {r.sha}];
      }
    }
    assert rows[..|rows|] == rows;
    FoldedMeans(paid, count, seen, rows, since);
  }

  lemma FoldedMeans(paid: map<string, real>, count: map<string, nat>, seen: map<string, set<string>>,
                    rows: seq<Row>, since: real)
    requires Folded(paid, count, seen, rows, since)
    ensures forall p :: Got(paid, p) == PaidIn(rows, p, since) && Count(count, p) == RepeatsIn(rows, p, since)
  {
  }

  lemma SentByRow(before: seq<Row>, r: Row, since: real)
    ensures forall p, sha ::
      Sent(before + [r], p, sha, since) <==> Sent(before, p, sha, since) || (Of(r, p, since) && r.sha == sha)
  {
    forall p: string, sha: string
      ensures Sent(before + [r], p, sha, since) <==> Sent(before, p, sha, since) || (Of(r, p, since) && r.sha == sha)
    {
      SentNext(before, r, p, sha, since);
    }
  }

  lemma SentNext(before: seq<Row>, r: Row, p: string, sha: string, since: real)
    ensures Sent(before + [r], p, sha, since) <==> Sent(before, p, sha, since) || (Of(r, p, since) && r.sha == sha)
  {
    var all := before + [r];
    if Sent(before, p, sha, since) {
      var i :| 0 <= i < |before| && Of(before[i], p, since) && before[i].sha == sha;
      assert all[i] == before[i];
    }
    if Of(r, p, since) && r.sha == sha {
      assert all[|before|] == r;
    }
  }

  /** Retries are a part of what the arm was charged, never more. */
  lemma {:induction false} RetriesWithinSpend(rows: seq<Row>, p: string, since: real)
    requires forall i :: 0 <= i < |rows| ==> rows[i].cost >= 0.0
    ensures 0.0 <= PaidIn(rows, p, since) <= CostIn(rows, p, since)
  {
    if rows != [] {
      RetriesWithinSpend(rows[..|rows| - 1], p, since);
    }
  }
}
