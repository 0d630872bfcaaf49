/** benchmarks/check_money.py main: the gap between the counter and the spans, taken apart. */
module Reconcile {
  import opened MoneyRows

  /** What one preflight call costs. */
  const PREFLIGHT: real := 0.00000196
  /** Retry credits at or below this are not named. */
  const CREDIT_FLOOR: real := 0.0005

  // ---- sums over a set of arms ----

  ghost function SetSum(arms: set<string>, f: string -> real): real
  {
    if arms == {} then 0.0
    else
      var p :| p in arms;
      f(p) + SetSum(arms - {p}, f)
  }

  lemma SetSumNone(f: string -> real)
    ensures SetSum({}, f) == 0.0
  {
  }

  lemma {:induction false} SetSumTake(arms: set<string>, f: string -> real, p: string)
    requires p in arms
    ensures SetSum(arms, f) == f(p) + SetSum(arms - {p}, f)
    decreases |arms|
  {
    var q :| q in arms && SetSum(arms, f) == f(q) + SetSum(arms - {q}, f);
    if p != q {
      SetSumTake(arms - {q}, f, p);
      SetSumTake(arms - {p}, f, q);
      assert arms - {q} - {p} == arms - {p} - {q};
    }
  }

  lemma {:induction false} SetSumUnion(a: set<string>, b: set<string>, f: string -> real)
    requires a !! b
    ensures SetSum(a + b, f) == SetSum(a, f) + SetSum(b, f)
    decreases |a|
  {
    if a == {} {
      assert a + b == b;
    } else {
      var p :| p in a;
      SetSumTake(a, f, p);
      SetSumTake(a + b, f, p);
      assert a + b - {p} == (a - {p}) + b;
      SetSumUnion(a - {p}, b, f);
    }
  }

  lemma {:induction false} SetSumZero(a: set<string>, f: string -> real)
    requires forall p :: p in a ==> f(p) == 0.0
    ensures SetSum(a, f) == 0.0
    decreases |a|
  {
    if a != {} {
      var p :| p in a;
      SetSumTake(a, f, p);
      SetSumZero(a - {p}, f);
    }
  }

  /** Arms for which f is zero can be added or left out. */
  lemma SetSumSupport(a: set<string>, b: set<string>, f: string -> real)
    requires forall p :: p in a && p !in b ==> f(p) == 0.0
    requires forall p :: p in b && p !in a ==> f(p) == 0.0
    ensures SetSum(a, f) == SetSum(b, f)
  {
    assert a == (a * b) + (a - b) && b == (a * b) + (b - a);
    SetSumUnion(a * b, a - b, f);
    SetSumUnion(a * b, b - a, f);
    SetSumZero(a - b, f);
    SetSumZero(b - a, f);
  }

  lemma {:induction false} SetSumAdd(a: set<string>, f: string -> real, g: string -> real, h: string -> real)
    requires forall p :: p in a ==> h(p) == f(p) + g(p)
    ensures SetSum(a, h) == SetSum(a, f) + SetSum(a, g)
    decreases |a|
  {
    if a != {} {
      var p :| p in a;
      SetSumTake(a, f, p);
      SetSumTake(a, g, p);
      SetSumTake(a, h, p);
      SetSumAdd(a - {p}, f, g, h);
    }
  }

  // ---- the reading ----

  /** Everything main has read when it starts to take the gap apart. */
  datatype Reading = Reading(
    counter: real,
    mCost: map<string, real>, mCalls: map<string, nat>,
    sCost: map<string, real>, sCalls: map<string, nat>,
    paid: map<string, real>,
    isCampaign: string -> bool,      // the campaign directory holds logs or attempts of this arm
    stillCalling: string -> bool)    // recent ledger row and the run has not ended
  {
    /** What meter_by_probe and spans_by_probe guarantee. */
    predicate Read() {
      && mCost.Keys == mCalls.Keys && sCost.Keys == sCalls.Keys
      && (forall p :: p in mCalls ==> mCalls[p] > 0)
      && (forall p :: p in sCalls ==> sCalls[p] > 0)
    }

    /** Meter rows, no tree, and not the unlabelled arm. */
    predicate NoTree(p: string) { p in mCost && p != "?" && p !in sCalls && Count(mCalls, p) > 0 }

    function Abandoned(): set<string> { set p | p in mCost && NoTree(p) && !isCampaign(p) }
    function Campaign(): set<string> { set p | p in mCost && NoTree(p) && isCampaign(p) }
    function Probes(): set<string> { sCalls.Keys + (mCalls.Keys - {"?"}) - Abandoned() - Campaign() }

    function Meter(): string -> real { (p: string) => Got(mCost, p) }
    function Spans(): string -> real { (p: string) => Got(sCost, p) }

    /** An arm's own gap: what the meter charged it less what its spans record. */
    function Gap(p: string): real { Got(mCost, p) - Got(sCost, p) }

    function Surplus(p: string): int { Count(mCalls, p) - Count(sCalls, p) }

    function Preflight(): string -> real { (p: string) => if Surplus(p) >= 1 then PREFLIGHT else 0.0 }

    /** What is credited to an arm as paid retries. */
    function CreditOf(p: string): real {
      if p !in paid || p == "?" || p == "__by_kind__" || p in Abandoned() || p in Campaign()
         || paid[p] <= 0.0 || stillCalling(p) then 0.0
      else
        var take := if Gap(p) < paid[p] then Gap(p) else paid[p];
        if take > CREDIT_FLOOR then take else 0.0
    }

    function Credit(): string -> real { (p: string) => CreditOf(p) }

    /** The part of the gap no arm's name explains: rows without an arm, unless a tree is called "?". */
    function Unlabelled(): real { if "?" in Probes() then 0.0 else Got(mCost, "?") }

    /** What a probe's own gap leaves after its preflight call and its retries. */
    function Left(): string -> real { (p: string) => Gap(p) - Preflight()(p) - CreditOf(p) }

    function ArmGap(): string -> real { (p: string) => Gap(p) }
  }

  datatype Report = Report(gap: real, preflight: nat, abandoned: set<string>, campaign: set<string>,
                           retryNamed: real, residue: real)

  ghost function TotalGap(r: Reading): real { r.counter - SetSum(r.sCost.Keys, r.Spans()) }

  /** Counter money the ledger did not show when it was read. */
  ghost function OffLedger(r: Reading): real { r.counter - SetSum(r.mCost.Keys, r.Meter()) }

  // ---- the classes ----

  /** No arm is in two classes, and every metered or spanned arm but the unlabelled one is in one. */
  lemma ClassesPartition(r: Reading)
    requires r.Read()
    ensures r.Probes() !! r.Abandoned() && r.Probes() !! r.Campaign() && r.Abandoned() !! r.Campaign()
    ensures "?" !in r.Abandoned() && "?" !in r.Campaign()
    ensures r.Probes() + r.Abandoned() + r.Campaign() + {"?"} == r.mCost.Keys + r.sCost.Keys + {"?"}
    ensures forall p :: p in r.Abandoned() || p in r.Campaign() ==> Got(r.sCost, p) == 0.0
    ensures forall p :: p in r.Campaign() <==> p in r.mCalls && p !in r.sCalls && p != "?" && r.isCampaign(p)
    ensures forall p :: p in r.Abandoned() <==> p in r.mCalls && p !in r.sCalls && p != "?" && !r.isCampaign(p)
  {
  }

  /** Conservation: the gap is the probes' own gaps, the abandoned arms and the campaign arms whole,
      the unlabelled rows, and what the counter has that the ledger did not show yet. */
  lemma {:induction false} GapSplits(r: Reading)
    requires r.Read()
    ensures TotalGap(r) == SetSum(r.Probes(), r.ArmGap())
                           + SetSum(r.Abandoned(), r.Meter()) + SetSum(r.Campaign(), r.Meter())
                           + r.Unlabelled() + OffLedger(r)
  {
    ClassesPartition(r);
    var p, a, c, m, s := r.Probes(), r.Abandoned(), r.Campaign(), r.Meter(), r.Spans();
    var u: set<string> := if "?" in p then {} else {"?"};
    SetSumSupport(r.mCost.Keys, p + a + c + u, m);
    SetSumUnion(p + a + c, u, m);
    SetSumUnion(p + a, c, m);
    SetSumUnion(p, a, m);
    SetSumSupport(r.sCost.Keys, p, s);
    SetSumAdd(p, r.ArmGap(), s, m);
    OneArm(u, m);
  }

  lemma OneArm(u: set<string>, m: string -> real)
    requires u == {} || u == {"?"}
    ensures SetSum(u, m) == if u == {} then 0.0 else m("?")
  {
    if u != {} {
      SetSumTake(u, m, "?");
    }
  }

  // ---- the retry credits ----

  /** A credit is never more than the arm's own gap or its repeats, and only a probe that has
      stopped gets one: an arm subtracted whole is not credited again. */
  lemma CreditBounds(r: Reading, p: string)
    requires r.Read()
    ensures r.CreditOf(p) != 0.0 ==>
      CREDIT_FLOOR < r.CreditOf(p) <= r.Gap(p) && r.CreditOf(p) <= Got(r.paid, p)
      && p in r.Probes() && p != "?" && !r.stillCalling(p)
  {
    ClassesPartition(r);
  }

  // ---- what is named of one probe ----

  /** The guards of the retry block: the arm has stopped, and its gap and its repeats both exceed the floor. */
  predicate Credited(r: Reading, p: string) {
    && p in r.paid && p != "?" && p != "__by_kind__" && !r.stillCalling(p)
    && r.Gap(p) > CREDIT_FLOOR && r.paid[p] > CREDIT_FLOOR
  }

  /** More of a probe's gap is named than there is exactly when it is credited retries that reach into the
      preflight estimate taken from the same gap, or when its gap does not cover that estimate at all. */
  lemma NamedBeyondGap(r: Reading, p: string)
    requires r.Read() && p in r.Probes()
    ensures r.Left()(p) < 0.0 <==>
      if Credited(r, p) then r.Surplus(p) >= 1 && r.paid[p] > r.Gap(p) - PREFLIGHT
      else r.Gap(p) < r.Preflight()(p)
  {
    assert p !in r.Abandoned() && p !in r.Campaign();
    assert r.Left()(p) == r.Gap(p) - r.Preflight()(p) - r.CreditOf(p);
  }

  /** A gap that is there is overdrawn by one preflight estimate at the most. */
  lemma OverdrawnByOnePreflight(r: Reading, p: string)
    requires r.Read() && r.Gap(p) >= 0.0
    ensures r.Left()(p) >= -r.Preflight()(p) >= -PREFLIGHT
  {
    CreditBounds(r, p);
  }

  lemma {:induction false} SetSumAtLeast(s: set<string>, f: string -> real, g: string -> real)
    requires forall p :: p in s ==> f(p) >= -g(p)
    ensures SetSum(s, f) >= -SetSum(s, g)
    decreases |s|
  {
    if s != {} {
      var p :| p in s;
      SetSumTake(s, f, p);
      SetSumTake(s, g, p);
      SetSumAtLeast(s - {p}, f, g);
    }
  }

  /** So, when no probe's spans exceed its charges, the residue understates by the preflight money at most. */
  lemma ResidueAtLeast(r: Reading)
    requires r.Read() && forall p :: p in r.Probes() ==> r.Gap(p) >= 0.0
    ensures SetSum(r.Probes(), r.Left()) >= -SetSum(r.Probes(), r.Preflight())
  {
    forall p | p in r.Probes() ensures r.Left()(p) >= -r.Preflight()(p) {
      OverdrawnByOnePreflight(r, p);
    }
    SetSumAtLeast(r.Probes(), r.Left(), r.Preflight());
  }

  /** A probe that stopped with 18 calls and 0.076945 dollars beyond its spans, after it had paid 0.101394
      dollars for bodies it sent again; `spent` and `calls` are what its spans record. */
  function OldCK9(spent: real, calls: nat): Reading {
    Reading(spent + 0.076945, map["oldCK9" := spent + 0.076945], map["oldCK9" := calls + 18],
            map["oldCK9" := spent], map["oldCK9" := calls], map["oldCK9" := 0.101394],
            (p: string) => false, (p: string) => false)
  }

  /** Its whole gap is named as retries, and a preflight call besides. */
  lemma NamedTwice(spent: real, calls: nat)
    requires calls > 0
    ensures var r := OldCK9(spent, calls);
      && r.Read() && r.Probes() == {"oldCK9"} && r.CreditOf("oldCK9") == r.Gap("oldCK9")
      && SetSum(r.Probes(), r.Left()) + r.Unlabelled() + OffLedger(r) == -PREFLIGHT == -0.00000196
  {
    var r := OldCK9(spent, calls);
    assert r.Abandoned() == {} == r.Campaign() && r.Probes() == {"oldCK9"};
    assert r.Gap("oldCK9") == 0.076945 == r.CreditOf("oldCK9");
    assert |"?"| != |"oldCK9"| && r.mCost.Keys == {"oldCK9"};
    assert r.Unlabelled() == 0.0;
    assert r.Surplus("oldCK9") == 18 && r.Preflight()("oldCK9") == PREFLIGHT;
    assert r.Left()("oldCK9") == r.Gap("oldCK9") - r.Preflight()("oldCK9") - r.CreditOf("oldCK9");
    OnlyArm(r.Left(), "oldCK9");
    OnlyArm(r.Meter(), "oldCK9");
  }

  lemma OnlyArm(f: string -> real, p: string)
    ensures SetSum({p}, f) == f(p)
  {
    SetSumTake({p}, f, p);
    assert {p} - {p} == {};
  }

  // ---- the operation ----

  /** Adds up a whole dictionary. */
  method SumValues(m: map<string, real>, ghost f: string -> real) returns (t: real)
    requires forall p :: p in m ==> f(p) == m[p]
    ensures t == SetSum(m.Keys, f)
  {
    t := 0.0;
    var todo := m.Keys;
    while todo != {}
      invariant todo <= m.Keys
      invariant t + SetSum(todo, f) == SetSum(m.Keys, f)
      decreases |todo|
    {
      var p :| p in todo;
      SetSumTake(todo, f, p);
      t := t + m[p];
      todo := todo - {p};
    }
  }

  /** What the arms of one class cost together. */
  method SumArms(arms: set<string>, cost: map<string, real>, ghost f: string -> real) returns (t: real)
    requires forall p :: p in arms ==> p in cost && f(p) == cost[p]
    ensures t == SetSum(arms, f)
  {
    t := 0.0;
    var todo := arms;
    while todo != {}
      invariant todo <= arms
      invariant t + SetSum(todo, f) == SetSum(arms, f)
      decreases |todo|
    {
      var p :| p in todo;
      SetSumTake(todo, f, p);
      t := t + cost[p];
      todo := todo - {p};
    }
  }

  /** How many probes made a call that no span records: each is credited one preflight call. */
  method CountPreflight(r: Reading) returns (n: nat)
    ensures n as real * PREFLIGHT == SetSum(r.Probes(), r.Preflight())
  {
    n := 0;
    var todo := r.Probes();
    while todo != {}
      invariant n as real * PREFLIGHT + SetSum(todo, r.Preflight()) == SetSum(r.Probes(), r.Preflight())
      decreases |todo|
    {
      var p :| p in todo;
      SetSumTake(todo, r.Preflight(), p);
      if r.Surplus(p) >= 1 {
        n := n + 1;
      }
      todo := todo - {p};
    }
  }

  /** What the repeats of stopped probes explain of the gap. */
  method NameRetries(r: Reading) returns (named: real)
    ensures named == SetSum(r.paid.Keys, r.Credit())
  {
    hide SetSum;
    named := 0.0;
    SetSumNone(r.Credit());
    var todo := r.paid.Keys;
    while todo != {}
      invariant todo <= r.paid.Keys
      invariant named + SetSum(todo, r.Credit()) == SetSum(r.paid.Keys, r.Credit())
      decreases |todo|
    {
      var p :| p in todo;
      SetSumTake(todo, r.Credit(), p);
      todo := todo - {p};
      var spent := r.paid[p];
      if p == "?" || p == "__by_kind__" || p in r.Abandoned() || p in r.Campaign()
         || spent <= 0.0 || r.stillCalling(p) {
        continue;
      }
      var armGap := Got(r.mCost, p) - Got(r.sCost, p);
      var take := if armGap < spent then armGap else spent;
      if take > CREDIT_FLOOR {
        named := named + take;
      }
    }
  }

  /** main, from the totals to the residue. */
  method Residue(r: Reading) returns (out: Report)
    requires r.Read()
    ensures out.gap == TotalGap(r) && out.abandoned == r.Abandoned() && out.campaign == r.Campaign()
    ensures out.preflight as real * PREFLIGHT == SetSum(r.Probes(), r.Preflight())
    ensures out.retryNamed == SetSum(r.Probes(), r.Credit())
    ensures out.residue == SetSum(r.Probes(), r.Left()) + r.Unlabelled() + OffLedger(r)
  {
    var spansTotal := SumValues(r.sCost, r.Spans());
    var gap := r.counter - spansTotal;
    var abandoned, campaign := r.Abandoned(), r.Campaign();
    var preflight := CountPreflight(r);
    var retryNamed := NameRetries(r);
    var gone := SumArms(abandoned, r.mCost, r.Meter());
    var elsewhere := SumArms(campaign, r.mCost, r.Meter());
    var residue := gap - preflight as real * PREFLIGHT - gone - elsewhere - retryNamed;
    GapSplits(r);
    CreditsAreProbes(r);
    LeftSplits(r);
    out := Report(gap, preflight, abandoned, campaign, retryNamed, residue);
  }

  /** Every credit goes to a probe. */
  lemma CreditsAreProbes(r: Reading)
    requires r.Read()
    ensures SetSum(r.paid.Keys, r.Credit()) == SetSum(r.Probes(), r.Credit())
  {
    forall p
      ensures p in r.paid.Keys && p !in r.Probes() ==> r.Credit()(p) == 0.0
      ensures p in r.Probes() && p !in r.paid.Keys ==> r.Credit()(p) == 0.0
    {
      CreditBounds(r, p);
    }
    SetSumSupport(r.paid.Keys, r.Probes(), r.Credit());
  }

  /** A probe's gap less its preflight call. */
  function LessPreflight(r: Reading): string -> real { (p: string) => r.Gap(p) - r.Preflight()(p) }

  lemma LeftSplits(r: Reading)
    ensures SetSum(r.Probes(), r.Left())
         == SetSum(r.Probes(), r.ArmGap()) - SetSum(r.Probes(), r.Preflight()) - SetSum(r.Probes(), r.Credit())
  {
    SetSumAdd(r.Probes(), LessPreflight(r), r.Preflight(), r.ArmGap());
    SetSumAdd(r.Probes(), r.Left(), r.Credit(), LessPreflight(r));
  }
}
