/** The rows benchmarks/check_money.py reads, after JSON parsing. */
module MoneyRows {
  import opened Wrappers

  /** One meter.jsonl row. An absent or unreadable cost or queueing time is 0, an absent arm, status, kind or
      req_sha is "", an absent token count is 0 and an unreadable one None. */
  datatype Row = Row(ts: Option<real>, arm: string, cost: real, sha: string, status: string, latencyMs: Option<real>,
                     kind: string, stream: bool, prompt: Option<int>, completion: Option<int>, queuedS: real)
  {
    /** A row without an arm belongs to the unlabelled one. */
    function Arm(): string { if arm == "" then "?" else arm }

    /** A row without a status shows as "?", which is not a 200. */
    function Status(): string { if status == "" then "?" else status }

    /** Rows without a readable start, or from before the meter's own start, are skipped. */
    predicate Kept(since: real) { ts.Some? && ts.value >= since }

    predicate Failed() { status != "200" && status != "" }

    /** Which failure it is, by its own signature. */
    function FailureKind(): string {
      var latency := if latencyMs.Some? then latencyMs.value / 1000.0 else 0.0;
      if kind == "rpm_queue_refused" then "meter-rpm-refused"
      else if Status() == "504" && !stream && 295.0 <= latency <= 305.0 then "nginx-300s"
      else if Status() == "503" then "upstream-503"
      else "http-" + Status()
    }

    /** A 200 that brought nothing, and one that had waited in the meter's own queue. */
    predicate Empty() { !Failed() && prompt == Some(0) && completion == Some(0) }
    predicate EmptyQueued() { Empty() && queuedS > 0.5 }

    /** completed_at: the row carries the start; the end is one latency later. */
    function CompletedAt(): real {
      if ts.None? then 0.0 else ts.value + if latencyMs.Some? then latencyMs.value / 1000.0 else 0.0
    }
  }

  /** One span line: the probe is the directory it was found in. */
  datatype Span = Span(probe: string, cost: Option<real>, start: Option<real>) {
    predicate Kept(since: real) { cost.Some? && start.Some? && start.value >= since }
  }

  function Got(m: map<string, real>, p: string): real { if p in m then m[p] else 0.0 }
  function Count(m: map<string, nat>, p: string): nat { if p in m then m[p] else 0 }
}
