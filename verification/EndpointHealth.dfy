/** benchmarks/check_money.py endpoint_health, row by row: per arm, the newest ledger row and the running
    outage. */
module EndpointHealth {
  import opened MoneyRows
  import opened Wrappers

  /** The newest row of an arm, as endpoint_health reports it. */
  datatype Newest = Newest(done: real, status: string, ts: real)

  /** How many equal non-200 rows an arm ended on, and when the first of them started. */
  datatype Streak = Streak(count: nat, since: real, status: string)

  /** One arm's kept rows, in ledger order. */
  function ArmRows(rows: seq<Row>, arm: string, since: real): (r: seq<Row>)
    ensures forall i :: 0 <= i < |r| ==> r[i].Kept(since) && r[i].Arm() == arm
  {
    if rows == [] then []
    else
      var last := rows[|rows| - 1];
      ArmRows(rows[..|rows| - 1], arm, since) + if last.Kept(since) && last.Arm() == arm then [last] else []
  }

  /** n is the greatest completion of the arm's rows, reported from the first row that reaches it. */
  predicate IsNewest(rows: seq<Row>, n: Newest) {
    exists k :: 0 <= k < |rows| && rows[k].ts.Some?
      && n == Newest(rows[k].CompletedAt(), rows[k].Status(), rows[k].ts.value)
      && (forall j :: 0 <= j < |rows| ==> rows[j].CompletedAt() <= n.done)
      && (forall j :: 0 <= j < k ==> rows[j].CompletedAt() < n.done)
  }

  /** The last n rows all have the last row's status. */
  predicate Constant(rows: seq<Row>, n: nat) {
    0 < n <= |rows| && forall j :: |rows| - n <= j < |rows| ==> rows[j].Status() == rows[|rows| - 1].Status()
  }

  /** s is the longest constant suffix of the arm's rows: its length, its first start, its status. */
  predicate IsStreak(rows: seq<Row>, s: Streak) {
    && Constant(rows, s.count) && !Constant(rows, s.count + 1)
    && s.status == rows[|rows| - 1].Status() != "200"
    && rows[|rows| - s.count].ts == Some(s.since)
  }

  /** The arm's last row is not a 200. */
  predicate EndsBadly(rows: seq<Row>) { rows != [] && rows[|rows| - 1].Status() != "200" }

  ghost predicate NewestOf(newest: map<string, Newest>, rows: seq<Row>, arm: string, since: real) {
    var mine := ArmRows(rows, arm, since);
    (arm in newest <==> mine != []) && (arm in newest ==> IsNewest(mine, newest[arm]))
  }

  ghost predicate StreakOf(streak: map<string, Streak>, rows: seq<Row>, arm: string, since: real) {
    var mine := ArmRows(rows, arm, since);
    (arm in streak <==> EndsBadly(mine)) && (arm in streak ==> IsStreak(mine, streak[arm]))
  }

  lemma NewestNext(mine: seq<Row>, r: Row, n: Newest)
    requires r.ts.Some? && IsNewest(mine, n)
    ensures IsNewest(mine + [r],
                     if r.CompletedAt() > n.done then Newest(r.CompletedAt(), r.Status(), r.ts.value) else n)
  {
    var all := mine + [r];
    var k :| 0 <= k < |mine| && mine[k].ts.Some?
      && n == Newest(mine[k].CompletedAt(), mine[k].Status(), mine[k].ts.value)
      && (forall j :: 0 <= j < |mine| ==> mine[j].CompletedAt() <= n.done)
      && (forall j :: 0 <= j < k ==> mine[j].CompletedAt() < n.done);
    if r.CompletedAt() > n.done {
      assert all[|mine|] == r;
    } else {
      assert all[k] == mine[k];
    }
  }

  lemma NewestFirst(r: Row)
    requires r.ts.Some?
    ensures IsNewest([r], Newest(r.CompletedAt(), r.Status(), r.ts.value))
  {
    assert [r][0] == r;
  }

  lemma StreakGrows(mine: seq<Row>, r: Row, s: Streak)
    requires IsStreak(mine, s) && r.Status() == s.status
    ensures IsStreak(mine + [r], Streak(s.count + 1, s.since, s.status))
  {
    var all, n := mine + [r], s.count;
    assert all[|all| - 1] == r;
    assert forall j :: 0 <= j < |mine| ==> all[j] == mine[j];
    if n + 1 <= |mine| {
      var j :| |mine| - (n + 1) <= j < |mine| && mine[j].Status() != s.status;
      assert all[j] == mine[j];
    }
  }

  lemma StreakStarts(mine: seq<Row>, r: Row)
    requires r.ts.Some? && r.Status() != "200" && (mine != [] ==> mine[|mine| - 1].Status() != r.Status())
    ensures IsStreak(mine + [r], Streak(1, r.ts.value, r.Status()))
  {
    var all := mine + [r];
    assert all[|all| - 1] == r;
    if mine != [] {
      assert all[|all| - 2] == mine[|mine| - 1];
    }
  }

  lemma ArmRowsNext(before: seq<Row>, row: Row, arm: string, since: real)
    ensures ArmRows(before + [row], arm, since)
         == if row.Kept(since) && row.Arm() == arm then ArmRows(before, arm, since) + [row]
           else ArmRows(before, arm, since)
  {
    assert (before + [row])[..|before|] == before;
  }

  /** One more row: its arm's newest row stays the first of those that complete last. */
  method NoteNewest(newest: map<string, Newest>, row: Row, since: real, ghost before: seq<Row>)
    returns (out: map<string, Newest>)
    requires row.Kept(since) && forall arm :: NewestOf(newest, before, arm, since)
    ensures forall arm :: NewestOf(out, before + [row], arm, since)
  {
    var arm, done := row.Arm(), row.CompletedAt();
    ghost var mine := ArmRows(before, arm, since);
    assert NewestOf(newest, before, arm, since);
    out := newest;
    if arm !in newest || done > newest[arm].done {
      out := newest[arm := Newest(done, row.Status(), row.ts.value)];
    }
    if arm in newest {
      NewestNext(mine, row, newest[arm]);
    } else {
      NewestFirst(row);
      assert mine + [row] == [row];
    }
    assert IsNewest(mine + [row], out[arm]);
    forall other: string
      ensures NewestOf(out, before + [row], other, since)
    {
      ArmRowsNext(before, row, other, since);
      assert NewestOf(newest, before, other, since);
    }
  }

  /** A 200 clears the arm's streak, a repeat of the same non-200 extends it, a different one starts anew. */
  method NoteStreak(streak: map<string, Streak>, row: Row, since: real, ghost before: seq<Row>)
    returns (out: map<string, Streak>)
    requires row.Kept(since) && forall arm :: StreakOf(streak, before, arm, since)
    ensures forall arm :: StreakOf(out, before + [row], arm, since)
  {
    var arm, st := row.Arm(), row.Status();
    ghost var mine := ArmRows(before, arm, since);
    assert StreakOf(streak, before, arm, since);
    if st == "200" {
      out := streak - {arm};
    } else if arm in streak && streak[arm].status == st {
      StreakGrows(mine, row, streak[arm]);
      out := streak[arm := streak[arm].(count := streak[arm].count + 1)];
    } else {
      StreakStarts(mine, row);
      out := streak[arm := Streak(1, row.ts.value, st)];
    }
    assert (mine + [row])[|mine|] == row;
    assert arm in out <==> EndsBadly(mine + [row]);
    assert arm in out ==> IsStreak(mine + [row], out[arm]);
    forall other: string
      ensures StreakOf(out, before + [row], other, since)
    {
      ArmRowsNext(before, row, other, since);
      assert StreakOf(streak, before, other, since);
    }
  }

  /** refusing: the arms whose newest row is not a 200. */
  function Refusing(newest: map<string, Newest>): set<string> {
    set arm | arm in newest && newest[arm].status != "200"
  }

  lemma ConstantShorter(rows: seq<Row>, n: nat)
    requires Constant(rows, n)
    ensures forall m: nat :: 0 < m <= n ==> Constant(rows, m)
  {
  }

  /** There is one longest constant suffix, and one earliest row with the greatest completion. */
  lemma HealthIsDetermined(rows: seq<Row>, s: Streak, s': Streak, n: Newest, n': Newest)
    ensures IsStreak(rows, s) && IsStreak(rows, s') ==> s == s'
    ensures IsNewest(rows, n) && IsNewest(rows, n') ==> n == n'
  {
    if IsStreak(rows, s) && IsStreak(rows, s') {
      ConstantShorter(rows, s.count);
      ConstantShorter(rows, s'.count);
    }
  }

  predicate LastCompletesLast(mine: seq<Row>) {
    forall j :: 0 <= j < |mine| - 1 ==> mine[j].CompletedAt() < mine[|mine| - 1].CompletedAt()
  }

  /** When an arm's last row is also its last to complete, it is refusing exactly when it is in a streak. */
  lemma RefusingIsStreak(rows: seq<Row>, arm: string, since: real, newest: map<string, Newest>,
                         streak: map<string, Streak>)
    requires NewestOf(newest, rows, arm, since) && StreakOf(streak, rows, arm, since)
    requires LastCompletesLast(ArmRows(rows, arm, since))
    ensures arm in Refusing(newest) <==> arm in streak
  {
    var mine := ArmRows(rows, arm, since);
    if mine != [] {
      LastIsNewest(mine, newest[arm]);
    }
  }

  lemma LastIsNewest(mine: seq<Row>, n: Newest)
    requires mine != [] && LastCompletesLast(mine) && IsNewest(mine, n)
    ensures n.status == mine[|mine| - 1].Status()
  {
    var last := |mine| - 1;
    var k :| 0 <= k < |mine| && mine[k].ts.Some?
      && n == Newest(mine[k].CompletedAt(), mine[k].Status(), mine[k].ts.value)
      && (forall j :: 0 <= j < |mine| ==> mine[j].CompletedAt() <= n.done)
      && (forall j :: 0 <= j < k ==> mine[j].CompletedAt() < n.done);
    assert mine[last].CompletedAt() <= mine[k].CompletedAt();
  }
}
