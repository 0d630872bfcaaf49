/** The totals of benchmarks/check_money.py, in the ledger rows' and span lines' own fields. */
module TotalsInRows {
  import opened Wrappers
  import opened MoneyRows
  import opened MoneyTotals
  import opened HealthInRows

  // ---- which failure a row is ----

  /** A refusal by the meter itself comes first, then an unstreamed 504 of 295 to 305 seconds, then a 503; any
      other failure goes by its status. */
  lemma FailureKinds(r: Row)
    ensures r.FailureKind() == "meter-rpm-refused" <==> r.kind == "rpm_queue_refused"
    ensures r.FailureKind() == "nginx-300s" <==>
      r.kind != "rpm_queue_refused" && r.status == "504" && !r.stream
      && r.latencyMs.Some? && 295000.0 <= r.latencyMs.value <= 305000.0
    ensures r.FailureKind() == "upstream-503" <==> r.kind != "rpm_queue_refused" && r.status == "503"
    ensures r.FailureKind() !in {"meter-rpm-refused", "nginx-300s", "upstream-503"} ==>
      r.FailureKind() == "http-" + if r.status == "" then "?" else r.status
  {
    var other := "http-" + r.Status();
    assert other[0] == 'h' && "meter-rpm-refused"[0] == 'm' && "nginx-300s"[0] == 'n' && "upstream-503"[0] == 'u';
  }

  /** The row shows neither a 200 nor nothing. */
  predicate ShowsFailure(r: Row) { r.status != "200" && r.status != "" }

  // ---- one row more ----

  /** Some row of the arm in the list carries the fingerprint. */
  ghost predicate Carries(rows: seq<Row>, p: string, since: real, sha: string) {
    exists i :: 0 <= i < |rows| && Mine(rows[i], p, since) && rows[i].sha == sha
  }

  lemma MineIsOf(r: Row, p: string, since: real)
    ensures Mine(r, p, since) <==> Of(r, p, since)
  {
  }

  lemma CarriesIsSent(rows: seq<Row>, p: string, since: real, sha: string)
    ensures Carries(rows, p, since, sha) <==> Sent(rows, p, sha, since)
  {
    if i :| 0 <= i < |rows| && Mine(rows[i], p, since) && rows[i].sha == sha {
      MineIsOf(rows[i], p, since);
    }
    if i :| 0 <= i < |rows| && Of(rows[i], p, since) && rows[i].sha == sha {
      MineIsOf(rows[i], p, since);
    }
  }

  lemma NothingYet(p: string, since: real, kind: string)
    ensures CostIn([], p, since) == 0.0 && CallsIn([], p, since) == 0 && PaidIn([], p, since) == 0.0
    ensures RepeatsIn([], p, since) == 0 && RowsIn([], p, since, FailedRow()) == 0
    ensures RowsIn([], p, since, OfKind(kind)) == 0 && RowsIn([], p, since, EmptyRow()) == 0
    ensures RowsIn([], p, since, QueuedRow()) == 0
  {
  }

  /** What one row more adds to an arm's totals: nothing unless it is the arm's. */
  lemma OneMoreRow(rows: seq<Row>, r: Row, p: string, since: real)
    ensures !Mine(r, p, since) ==>
      CostIn(rows + [r], p, since) == CostIn(rows, p, since) && CallsIn(rows + [r], p, since) == CallsIn(rows, p, since)
      && PaidIn(rows + [r], p, since) == PaidIn(rows, p, since)
      && RepeatsIn(rows + [r], p, since) == RepeatsIn(rows, p, since)
    ensures Mine(r, p, since) ==>
      CostIn(rows + [r], p, since) == CostIn(rows, p, since) + r.cost
      && CallsIn(rows + [r], p, since) == CallsIn(rows, p, since) + 1
    ensures Mine(r, p, since) ==>
      var again := r.sha != "" && Carries(rows, p, since, r.sha);
      PaidIn(rows + [r], p, since) == PaidIn(rows, p, since) + (if again then r.cost else 0.0)
      && RepeatsIn(rows + [r], p, since) == RepeatsIn(rows, p, since) + (if again then 1 else 0)
  {
    MineIsOf(r, p, since);
    CarriesIsSent(rows, p, since, r.sha);
    NextRow(rows, r, p, since, FailedRow());
    assert (rows + [r])[..|rows|] == rows;
  }

  /** And to what it failed or came back empty with. */
  lemma OneMoreAnswer(rows: seq<Row>, r: Row, p: string, since: real, kind: string)
    ensures RowsIn(rows + [r], p, since, FailedRow())
         == RowsIn(rows, p, since, FailedRow()) + if Mine(r, p, since) && ShowsFailure(r) then 1 else 0
    ensures RowsIn(rows + [r], p, since, OfKind(kind))
         == RowsIn(rows, p, since, OfKind(kind))
            + if Mine(r, p, since) && ShowsFailure(r) && r.FailureKind() == kind then 1 else 0
    ensures RowsIn(rows + [r], p, since, EmptyRow())
         == RowsIn(rows, p, since, EmptyRow())
            + if Mine(r, p, since) && !ShowsFailure(r) && r.prompt == Some(0) == r.completion then 1 else 0
    ensures RowsIn(rows + [r], p, since, QueuedRow())
         == RowsIn(rows, p, since, QueuedRow())
            + if Mine(r, p, since) && !ShowsFailure(r) && r.prompt == Some(0) == r.completion && r.queuedS > 0.5
              then 1 else 0
  {
    MineIsOf(r, p, since);
    NextRow(rows, r, p, since, FailedRow());
    NextRow(rows, r, p, since, OfKind(kind));
    NextRow(rows, r, p, since, EmptyRow());
    NextRow(rows, r, p, since, QueuedRow());
  }

  /** One span line more counts for its probe when it carries a cost and started no earlier than the meter. */
  lemma OneMoreSpan(spans: seq<Span>, s: Span, p: string, since: real)
    ensures SpanCostIn([], p, since) == 0.0 && SpanCallsIn([], p, since) == 0
    ensures var counts := s.probe == p && s.cost.Some? && s.start.Some? && s.start.value >= since;
      && SpanCallsIn(spans + [s], p, since) == SpanCallsIn(spans, p, since) + (if counts then 1 else 0)
      && SpanCostIn(spans + [s], p, since) == SpanCostIn(spans, p, since) + (if counts then s.cost.value else 0.0)
  {
    assert (spans + [s])[..|spans|] == spans;
  }
}
