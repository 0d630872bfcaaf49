/** benchmarks/check_money.py endpoint_health over a whole ledger, in the rows' own fields. */
module HealthInRows {
  import opened Wrappers
  import opened MoneyRows
  import opened EndpointHealth

  /** The row is the arm's and starts no earlier than the meter; a row without an arm is the arm "?". */
  predicate Mine(r: Row, arm: string, since: real) {
    r.ts.Some? && r.ts.value >= since && (if r.arm == "" then arm == "?" else r.arm == arm)
  }

  /** The row's call ended at e: latency_ms milliseconds after its ts, or at its ts without a latency. */
  predicate EndsAt(r: Row, e: real) {
    r.ts.Some? && match r.latencyMs case None => e == r.ts.value case Some(l) => 1000.0 * (e - r.ts.value) == l
  }

  predicate Shows(r: Row, status: string) { if r.status == "" then status == "?" else r.status == status }

  /** n is the row of the arm that ends last; of several, the first. */
  ghost predicate NewestRow(rows: seq<Row>, arm: string, since: real, n: Newest) {
    exists k :: 0 <= k < |rows| && Mine(rows[k], arm, since) && LastToEnd(rows, arm, since, n.done, k)
      && EndsAt(rows[k], n.done) && Shows(rows[k], n.status) && rows[k].ts == Some(n.ts)
  }

  /** No row of the arm ends after `done`, and none before row k ends as late. */
  ghost predicate LastToEnd(rows: seq<Row>, arm: string, since: real, done: real, k: int) {
    forall j, e :: 0 <= j < |rows| && Mine(rows[j], arm, since) && EndsAt(rows[j], e) ==>
      e <= done && (j < k ==> e < done)
  }

  function MineFrom(rows: seq<Row>, arm: string, since: real, k: int): set<int> {
    set j | k <= j < |rows| && 0 <= j && Mine(rows[j], arm, since)
  }

  /** Row i is the arm's, and none of the arm's rows stands between it and row k. */
  predicate NextOfArm(rows: seq<Row>, arm: string, since: real, i: int, k: int)
    requires 0 <= i < |rows|
  {
    Mine(rows[i], arm, since) && MineFrom(rows, arm, since, i) == {i} + MineFrom(rows, arm, since, k)
  }

  /** Row k starts the streak: it and every later row of the arm show the status, the arm's row before it, if
      there is one, does not. */
  ghost predicate StartsStreak(rows: seq<Row>, arm: string, since: real, status: string, k: int) {
    && (forall j :: 0 <= k <= j < |rows| && Mine(rows[j], arm, since) ==> Shows(rows[j], status))
    && (forall i :: 0 <= i < k <= |rows| && NextOfArm(rows, arm, since, i, k) ==> !Shows(rows[i], status))
  }

  ghost predicate StreakRow(rows: seq<Row>, arm: string, since: real, s: Streak) {
    exists k :: 0 <= k < |rows| && Mine(rows[k], arm, since) && StartsStreak(rows, arm, since, s.status, k)
      && rows[k].ts == Some(s.since) && s.status != "200" && s.count == |MineFrom(rows, arm, since, k)|
  }

  /** The arm's last row does not show a 200. */
  ghost predicate LastFails(rows: seq<Row>, arm: string, since: real) {
    exists k :: 0 <= k < |rows| && Mine(rows[k], arm, since)
      && MineFrom(rows, arm, since, k) == {k} && !Shows(rows[k], "200")
  }

  // ---- where the ledger keeps an arm's rows ----

  lemma RowsOf(r: Row, arm: string, since: real, status: string)
    ensures Mine(r, arm, since) <==> r.Kept(since) && r.Arm() == arm
    ensures Shows(r, status) <==> r.Status() == status
    ensures r.ts.Some? ==> EndsAt(r, r.CompletedAt())
  {
  }

  lemma OneEnd(r: Row, e: real)
    requires EndsAt(r, e)
    ensures e == r.CompletedAt()
  {
  }

  /** How many rows of the arm stand before row i. */
  function Before(rows: seq<Row>, arm: string, since: real, i: nat): nat
    requires i <= |rows|
  {
    |ArmRows(rows[..i], arm, since)|
  }

  lemma {:induction false} PrefixRows(rows: seq<Row>, arm: string, since: real, i: nat)
    requires i <= |rows|
    ensures ArmRows(rows[..i], arm, since) <= ArmRows(rows, arm, since)
    decreases |rows|
  {
    if i < |rows| {
      PrefixRows(rows[..|rows| - 1], arm, since, i);
      assert rows[..|rows| - 1][..i] == rows[..i];
    } else {
      assert rows[..i] == rows;
    }
  }

  /** An arm's row stands in its list where its predecessors end. */
  lemma RowStands(rows: seq<Row>, arm: string, since: real, i: nat)
    requires i < |rows|
    ensures Before(rows, arm, since, i + 1) == Before(rows, arm, since, i) + if Mine(rows[i], arm, since) then 1 else 0
    ensures Mine(rows[i], arm, since) ==>
      Before(rows, arm, since, i) < |ArmRows(rows, arm, since)|
      && ArmRows(rows, arm, since)[Before(rows, arm, since, i)] == rows[i]
  {
    assert rows[..i + 1] == rows[..i] + [rows[i]];
    ArmRowsNext(rows[..i], rows[i], arm, since);
    RowsOf(rows[i], arm, since, "");
    PrefixRows(rows, arm, since, i + 1);
  }

  lemma BeforeGrows(rows: seq<Row>, arm: string, since: real, i: nat, j: nat)
    requires i < j <= |rows|
    ensures Before(rows, arm, since, i) + (if Mine(rows[i], arm, since) then 1 else 0) <= Before(rows, arm, since, j)
  {
    RowStands(rows, arm, since, i);
    PrefixRows(rows[..j], arm, since, i + 1);
    assert rows[..j][..i + 1] == rows[..i + 1];
  }

  lemma {:induction false} RowFound(rows: seq<Row>, arm: string, since: real, k: nat) returns (i: nat)
    requires k < |ArmRows(rows, arm, since)|
    ensures i < |rows| && Mine(rows[i], arm, since) && Before(rows, arm, since, i) == k
    decreases |rows|
  {
    var m := |rows| - 1;
    RowStands(rows, arm, since, m);
    assert rows[..m + 1] == rows;
    if k < Before(rows, arm, since, m) {
      i := RowFound(rows[..m], arm, since, k);
      assert rows[..m][..i] == rows[..i];
    } else {
      i := m;
    }
  }

  lemma {:induction false} MineCount(rows: seq<Row>, arm: string, since: real, k: nat)
    requires k <= |rows|
    ensures |MineFrom(rows, arm, since, k)| == |ArmRows(rows, arm, since)| - Before(rows, arm, since, k)
    decreases |rows| - k
  {
    if k == |rows| {
      assert rows[..k] == rows && MineFrom(rows, arm, since, k) == {};
    } else {
      MineCount(rows, arm, since, k + 1);
      RowStands(rows, arm, since, k);
      if Mine(rows[k], arm, since) {
        assert MineFrom(rows, arm, since, k) == {k} + MineFrom(rows, arm, since, k + 1);
      } else {
        assert MineFrom(rows, arm, since, k) == MineFrom(rows, arm, since, k + 1);
      }
    }
  }

  // ---- the report ----

  lemma NewestInRows(rows: seq<Row>, arm: string, since: real, n: Newest)
    requires IsNewest(ArmRows(rows, arm, since), n)
    ensures NewestRow(rows, arm, since, n)
  {
    var mine := ArmRows(rows, arm, since);
    var k :| 0 <= k < |mine| && mine[k].ts.Some?
      && n == Newest(mine[k].CompletedAt(), mine[k].Status(), mine[k].ts.value)
      && (forall j :: 0 <= j < |mine| ==> mine[j].CompletedAt() <= n.done)
      && (forall j :: 0 <= j < k ==> mine[j].CompletedAt() < n.done);
    var i := RowFound(rows, arm, since, k);
    RowStands(rows, arm, since, i);
    RowsOf(rows[i], arm, since, n.status);
    forall j, e | 0 <= j < |rows| && Mine(rows[j], arm, since) && EndsAt(rows[j], e)
      ensures e <= n.done && (j < i ==> e < n.done)
    {
      OneEnd(rows[j], e);
      RowStands(rows, arm, since, j);
      if j < i {
        BeforeGrows(rows, arm, since, j, i);
      }
    }
    assert LastToEnd(rows, arm, since, n.done, i);
  }

  lemma LaterShows(rows: seq<Row>, arm: string, since: real, s: Streak, k: nat, j: nat)
    requires IsStreak(ArmRows(rows, arm, since), s)
    requires k <= j < |rows| && Mine(rows[k], arm, since) && Mine(rows[j], arm, since)
    requires Before(rows, arm, since, k) == |ArmRows(rows, arm, since)| - s.count
    ensures Shows(rows[j], s.status)
  {
    hide ArmRows, Before;
    RowStands(rows, arm, since, j);
    RowsOf(rows[j], arm, since, s.status);
    if k < j {
      BeforeGrows(rows, arm, since, k, j);
    }
  }

  lemma EarlierDiffers(rows: seq<Row>, arm: string, since: real, s: Streak, k: nat, i: nat)
    requires IsStreak(ArmRows(rows, arm, since), s) && i < k < |rows| && NextOfArm(rows, arm, since, i, k)
    requires Before(rows, arm, since, k) == |ArmRows(rows, arm, since)| - s.count
    ensures !Shows(rows[i], s.status)
  {
    hide ArmRows, Before, IsStreak;
    OneMore(MineFrom(rows, arm, since, k), i);
    RowStands(rows, arm, since, i);
    RowsOf(rows[i], arm, since, s.status);
    MineCount(rows, arm, since, i);
    MineCount(rows, arm, since, k);
    BeforeStreak(ArmRows(rows, arm, since), s, Before(rows, arm, since, i));
  }

  lemma StreakFirst(mine: seq<Row>, s: Streak)
    requires IsStreak(mine, s)
    ensures 0 < s.count <= |mine| && s.status != "200" && mine[|mine| - s.count].ts == Some(s.since)
  {
  }

  lemma StreakInRows(rows: seq<Row>, arm: string, since: real, s: Streak)
    requires IsStreak(ArmRows(rows, arm, since), s)
    ensures StreakRow(rows, arm, since, s)
  {
    hide ArmRows, Before, IsStreak, MineFrom, Mine, Shows, NextOfArm;
    var mine := ArmRows(rows, arm, since);
    StreakFirst(mine, s);
    var k := RowFound(rows, arm, since, |mine| - s.count);
    RowStands(rows, arm, since, k);
    MineCount(rows, arm, since, k);
    forall j | k <= j < |rows| && Mine(rows[j], arm, since) ensures Shows(rows[j], s.status) {
      LaterShows(rows, arm, since, s, k, j);
    }
    forall i | 0 <= i < k && NextOfArm(rows, arm, since, i, k) ensures !Shows(rows[i], s.status) {
      EarlierDiffers(rows, arm, since, s, k, i);
    }
    assert StartsStreak(rows, arm, since, s.status, k);
  }

  lemma OneMore(s: set<int>, i: int)
    requires i !in s
    ensures |{i} + s| == |s| + 1
  {
    assert ({i} + s) - {i} == s;
  }

  lemma BeforeStreak(mine: seq<Row>, s: Streak, i: nat)
    requires IsStreak(mine, s) && i == |mine| - s.count - 1
    ensures mine[i].Status() != s.status
  {
  }

  lemma EndsBadlyInRows(rows: seq<Row>, arm: string, since: real)
    ensures EndsBadly(ArmRows(rows, arm, since)) <==> LastFails(rows, arm, since)
  {
    hide ArmRows, Mine, MineFrom, Shows, Before;
    var mine := ArmRows(rows, arm, since);
    if EndsBadly(mine) {
      var k := RowFound(rows, arm, since, |mine| - 1);
      LastOfArm(rows, arm, since, k);
    }
    if LastFails(rows, arm, since) {
      var k :| 0 <= k < |rows| && Mine(rows[k], arm, since)
        && MineFrom(rows, arm, since, k) == {k} && !Shows(rows[k], "200");
      LastOfArm(rows, arm, since, k);
    }
  }

  lemma LastOfArm(rows: seq<Row>, arm: string, since: real, k: nat)
    requires k < |rows| && Mine(rows[k], arm, since)
    ensures var mine := ArmRows(rows, arm, since);
      && (Before(rows, arm, since, k) == |mine| - 1 <==> MineFrom(rows, arm, since, k) == {k})
      && (MineFrom(rows, arm, since, k) == {k} ==>
        mine != [] && (mine[|mine| - 1].Status() == "200" <==> Shows(rows[k], "200")))
  {
    hide ArmRows, Before;
    RowStands(rows, arm, since, k);
    RowsOf(rows[k], arm, since, "200");
    MineCount(rows, arm, since, k);
    if |MineFrom(rows, arm, since, k)| == 1 {
      OnlyMember(MineFrom(rows, arm, since, k), k);
    }
  }

  lemma OnlyMember(s: set<int>, k: int)
    requires k in s && |s| == 1
    ensures s == {k}
  {
    assert |s - {k}| == 0;
  }

  /** The arms in the report and what it says of them, row by row of the ledger. */
  ghost predicate Reported(newest: map<string, Newest>, streak: map<string, Streak>, rows: seq<Row>, arm: string,
                           since: real) {
    && (arm in newest <==> exists k :: 0 <= k < |rows| && Mine(rows[k], arm, since))
    && (arm in newest ==> NewestRow(rows, arm, since, newest[arm]))
    && (arm in streak <==> LastFails(rows, arm, since))
    && (arm in streak ==> StreakRow(rows, arm, since, streak[arm]))
  }

  lemma HealthIsReported(newest: map<string, Newest>, streak: map<string, Streak>, rows: seq<Row>, arm: string,
                         since: real)
    requires NewestOf(newest, rows, arm, since) && StreakOf(streak, rows, arm, since)
    ensures Reported(newest, streak, rows, arm, since)
  {
    EndsBadlyInRows(rows, arm, since);
    if arm in newest {
      NewestInRows(rows, arm, since, newest[arm]);
    }
    if arm in streak {
      StreakInRows(rows, arm, since, streak[arm]);
    }
    if k :| 0 <= k < |rows| && Mine(rows[k], arm, since) {
      RowStands(rows, arm, since, k);
    }
  }

  /** Both maps over a whole ledger: each arm's newest row, and the outage it ended on. */
  method Health(rows: seq<Row>, since: real) returns (newest: map<string, Newest>, streak: map<string, Streak>)
    ensures forall arm :: NewestOf(newest, rows, arm, since)
    ensures forall arm :: StreakOf(streak, rows, arm, since)
    ensures forall arm :: Reported(newest, streak, rows, arm, since)
  {
    hide ArmRows, IsNewest, IsStreak, EndsBadly, Reported;
    newest, streak := map[], map[];
    NoRows(since);
    assert rows[..0] == [];
    for i := 0 to |rows|
      invariant forall arm :: NewestOf(newest, rows[..i], arm, since)
      invariant forall arm :: StreakOf(streak, rows[..i], arm, since)
    {
      var row := rows[i];
      assert rows[..i + 1] == rows[..i] + [row];
      if row.Kept(since) {
        newest := NoteNewest(newest, row, since, rows[..i]);
        streak := NoteStreak(streak, row, since, rows[..i]);
      } else {
        Skipped(newest, streak, row, since, rows[..i]);
      }
    }
    assert rows[..|rows|] == rows;
    forall arm: string ensures Reported(newest, streak, rows, arm, since) {
      HealthIsReported(newest, streak, rows, arm, since);
    }
  }

  lemma NoRows(since: real)
    ensures forall arm :: NewestOf(map[], [], arm, since) && StreakOf(map[], [], arm, since)
  {
  }

  lemma Skipped(newest: map<string, Newest>, streak: map<string, Streak>, row: Row, since: real, before: seq<Row>)
    requires !row.Kept(since)
    requires forall arm :: NewestOf(newest, before, arm, since)
    requires forall arm :: StreakOf(streak, before, arm, since)
    ensures forall arm :: NewestOf(newest, before + [row], arm, since)
    ensures forall arm :: StreakOf(streak, before + [row], arm, since)
  {
    forall arm: string
      ensures NewestOf(newest, before + [row], arm, since)
      ensures StreakOf(streak, before + [row], arm, since)
    {
      ArmRowsNext(before, row, arm, since);
      assert NewestOf(newest, before, arm, since) && StreakOf(streak, before, arm, since);
    }
  }

  predicate EndOf(r: Row, arm: string, since: real, e: real) { Mine(r, arm, since) && EndsAt(r, e) }

  /** The arm's rows were appended in the order in which their calls ended. */
  ghost predicate AppendedInOrder(rows: seq<Row>, arm: string, since: real) {
    forall i, j, e, f :: 0 <= i < j < |rows| && EndOf(rows[i], arm, since, e) && EndOf(rows[j], arm, since, f) ==> e < f
  }

  /** On such a ledger an arm is refusing exactly when it has a streak. */
  lemma RefusingInOrder(rows: seq<Row>, arm: string, since: real, newest: map<string, Newest>,
                        streak: map<string, Streak>)
    requires NewestOf(newest, rows, arm, since) && StreakOf(streak, rows, arm, since)
    requires AppendedInOrder(rows, arm, since)
    ensures (arm in newest && newest[arm].status != "200") <==> arm in streak
  {
    hide ArmRows, Before, Mine, MineFrom;
    var mine := ArmRows(rows, arm, since);
    forall j | 0 <= j < |mine| - 1 ensures mine[j].CompletedAt() < mine[|mine| - 1].CompletedAt() {
      InOrder(rows, arm, since, j, |mine| - 1);
    }
    RefusingIsStreak(rows, arm, since, newest, streak);
  }

  lemma InOrder(rows: seq<Row>, arm: string, since: real, j: nat, k: nat)
    requires AppendedInOrder(rows, arm, since) && j < k < |ArmRows(rows, arm, since)|
    ensures ArmRows(rows, arm, since)[j].CompletedAt() < ArmRows(rows, arm, since)[k].CompletedAt()
  {
    hide ArmRows, Before, Mine;
    var x := RowFound(rows, arm, since, j);
    var y := RowFound(rows, arm, since, k);
    RowStands(rows, arm, since, x);
    RowStands(rows, arm, since, y);
    RowsOf(rows[x], arm, since, "");
    RowsOf(rows[y], arm, since, "");
    if y < x {
      BeforeGrows(rows, arm, since, y, x);
    }
    assert EndOf(rows[x], arm, since, rows[x].CompletedAt()) && EndOf(rows[y], arm, since, rows[y].CompletedAt());
  }
}
