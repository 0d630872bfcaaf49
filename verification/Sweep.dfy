/** looplab/sweep.py: a grid in sorted-key order, one trial per point, and each trial's seed. */
module Sweep {
  import opened Wrappers
  import opened Products
  import opened Text

  // ---- sorted(space) ----

  lemma {:induction false} SomeLeast(ks: set<string>) returns (k: string)
    requires ks != {}
    ensures k in ks && forall y :: y in ks ==> LexLe(k, y)
    decreases |ks|
  {
    var x :| x in ks;
    LexTotal(x, x);
    if ks == {x} {
      k := x;
    } else {
      var m := SomeLeast(ks - {x});
      LexTotal(x, m);
      if LexLe(x, m) {
        k := x;
        forall y | y in ks ensures LexLe(x, y) {
          if y != x { LexTransitive(x, m, y); }
        }
      } else {
        k := m;
      }
    }
  }

  ghost function Least(ks: set<string>): (k: string)
    requires ks != {}
    ensures k in ks && forall y :: y in ks ==> LexLe(k, y)
  {
    assert exists k :: k in ks && forall y :: y in ks ==> LexLe(k, y) by { var k := SomeLeast(ks); }
    var k :| k in ks && forall y :: y in ks ==> LexLe(k, y);
    k
  }

  ghost function SortedKeys(ks: set<string>): (r: seq<string>)
    ensures |r| == |ks| && (forall k :: k in r <==> k in ks)
    ensures Distinct(r) && forall i, j :: 0 <= i < j < |r| ==> LexLe(r[i], r[j])
    decreases |ks|
  {
    if ks == {} then []
    else
      var k := Least(ks);
      var rest := SortedKeys(ks - {k});
      PutFirst(ks, k, rest);
      [k] + rest
  }

  lemma PutFirst(ks: set<string>, k: string, rest: seq<string>)
    requires k in ks && forall y :: y in ks ==> LexLe(k, y)
    requires forall y :: y in rest <==> y in ks - {k}
    requires Distinct(rest) && forall i, j :: 0 <= i < j < |rest| ==> LexLe(rest[i], rest[j])
    ensures var r := [k] + rest;
      && (forall y :: y in r <==> y in ks)
      && Distinct(r) && forall i, j :: 0 <= i < j < |r| ==> LexLe(r[i], r[j])
  {
    hide LexLe;
    forall j | 0 <= j < |rest| ensures rest[j] != k && LexLe(k, rest[j]) {
      assert rest[j] in rest;
    }
  }

  // ---- mixed-radix numerals ----

  function Total(lens: seq<nat>): nat
  {
    if lens == [] then 1 else lens[0] * Total(lens[1..])
  }

  ghost predicate IsDigits(lens: seq<nat>, ds: seq<nat>) {
    |ds| == |lens| && forall j :: 0 <= j < |ds| ==> ds[j] < lens[j]
  }

  /** i written in the radices lens, most significant digit first. */
  function Digits(lens: seq<nat>, i: nat): seq<nat>
  {
    if lens == [] then []
    else
      var n := Total(lens[1..]);
      if n == 0 then [] else [i / n] + Digits(lens[1..], i % n)
  }

  function Number(lens: seq<nat>, ds: seq<nat>): nat
    requires |ds| == |lens|
  {
    if lens == [] then 0 else ds[0] * Total(lens[1..]) + Number(lens[1..], ds[1..])
  }

  lemma {:induction false} TimesAtMost(a: nat, b: nat, n: nat)
    requires a <= b
    ensures a * n <= b * n
  {
    assert b * n == a * n + (b - a) * n;
  }

  lemma OneMoreTime(a: nat, n: nat)
    ensures (a + 1) * n == a * n + n
  {
  }

  lemma QuotientAtLeast(q: nat, r: nat, p: nat, s: nat, n: nat)
    requires q * n + r == p * n + s && s < n
    ensures q <= p
  {
    if p + 1 <= q {
      TimesAtMost(p + 1, q, n);
      OneMoreTime(p, n);
    }
  }

  lemma DivisionOf(x: nat, q: nat, r: nat, n: nat)
    requires x == q * n + r && r < n
    ensures x / n == q && x % n == r
  {
    var p, s := x / n, x % n;
    assert p * n + s == x;
    QuotientAtLeast(q, r, p, s, n);
    QuotientAtLeast(p, s, q, r, n);
  }

  lemma SplitIndex(i: nat, m: nat, n: nat)
    requires i < m * n
    ensures n > 0 && i / n < m && i % n < n && i == i / n * n + i % n
  {
    var q := if n > 0 then i / n else 0;
    if n > 0 && m <= q {
      TimesAtMost(m, q, n);
    }
  }

  lemma JoinIndex(d: nat, r: nat, m: nat, n: nat)
    requires d < m && r < n
    ensures d * n + r < m * n && (d * n + r) / n == d && (d * n + r) % n == r
  {
    TimesAtMost(d + 1, m, n);
    OneMoreTime(d, n);
    DivisionOf(d * n + r, d, r, n);
  }

  lemma {:induction false} DigitsOfIndex(lens: seq<nat>, i: nat)
    requires i < Total(lens)
    ensures IsDigits(lens, Digits(lens, i)) && Number(lens, Digits(lens, i)) == i
  {
    if lens != [] {
      var n := Total(lens[1..]);
      SplitIndex(i, lens[0], n);
      DigitsOfIndex(lens[1..], i % n);
      assert Digits(lens, i)[1..] == Digits(lens[1..], i % n);
    }
  }

  lemma {:induction false} IndexOfDigits(lens: seq<nat>, ds: seq<nat>)
    requires IsDigits(lens, ds)
    ensures Number(lens, ds) < Total(lens) && Digits(lens, Number(lens, ds)) == ds
  {
    if lens != [] {
      IndexOfDigits(lens[1..], ds[1..]);
      JoinIndex(ds[0], Number(lens[1..], ds[1..]), lens[0], Total(lens[1..]));
      assert ds == [ds[0]] + ds[1..];
    }
  }

  // ---- the product is the numerals in order ----

  function Lengths<V>(lists: seq<seq<V>>): (r: seq<nat>)
    ensures |r| == |lists| && forall j :: 0 <= j < |r| ==> r[j] == |lists[j]|
  {
    if lists == [] then [] else [|lists[0]|] + Lengths(lists[1..])
  }

  /** Row i of the product takes from each list the value its digit of i names. */
  lemma {:induction false} ProductAt<V>(lists: seq<seq<V>>, i: nat)
    requires i < Total(Lengths(lists))
    ensures |Product(lists)| == Total(Lengths(lists)) && IsDigits(Lengths(lists), Digits(Lengths(lists), i))
    ensures |Product(lists)[i]| == |lists|
    ensures forall j :: 0 <= j < |lists| ==> Product(lists)[i][j] == lists[j][Digits(Lengths(lists), i)[j]]
  {
    var lens := Lengths(lists);
    DigitsOfIndex(lens, i);
    if lists != [] {
      var rest := lists[1..];
      assert lens[1..] == Lengths(rest);
      var n := Total(Lengths(rest));
      SplitIndex(i, |lists[0]|, n);
      ProductAt(rest, i % n);
      OuterPlace(lists[0], Product(rest), i / n, i % n);
      RepIsProduct(i / n, n);
      ProductSize(lists);
      assert Digits(lens, i) == [i / n] + Digits(Lengths(rest), i % n);
    }
  }

  lemma {:induction false} ProductSize<V>(lists: seq<seq<V>>)
    ensures |Product(lists)| == Total(Lengths(lists))
  {
    if lists != [] {
      assert Lengths(lists)[1..] == Lengths(lists[1..]);
      ProductSize(lists[1..]);
      OuterCount(lists[0], Product(lists[1..]));
    }
  }

  // ---- the grid ----

  /** The dictionary that pairs each key with its value. */
  function Zip<V>(keys: seq<string>, vals: seq<V>): (m: map<string, V>)
    requires |keys| == |vals|
  {
    if keys == [] then map[] else Zip(keys[..|keys| - 1], vals[..|keys| - 1])[keys[|keys| - 1] := vals[|keys| - 1]]
  }

  lemma {:induction false} ZipHolds<V>(keys: seq<string>, vals: seq<V>)
    requires |keys| == |vals| && Distinct(keys)
    ensures forall k :: k in Zip(keys, vals) <==> k in keys
    ensures forall j :: 0 <= j < |keys| ==> keys[j] in Zip(keys, vals) && Zip(keys, vals)[keys[j]] == vals[j]
  {
    if keys != [] {
      var n := |keys| - 1;
      assert keys == keys[..n] + [keys[n]];
      ZipHolds(keys[..n], vals[..n]);
    }
  }

  ghost function ListsOf<V>(space: map<string, seq<V>>): (r: seq<seq<V>>)
    ensures |r| == |space| && forall j :: 0 <= j < |r| ==> r[j] == space[SortedKeys(space.Keys)[j]]
  {
    var keys := SortedKeys(space.Keys);
    seq(|keys|, j requires 0 <= j < |keys| => assert keys[j] in keys; space[keys[j]])
  }

  lemma RowFits<V>(space: map<string, seq<V>>, i: nat)
    requires i < |Product(ListsOf(space))|
    ensures |Product(ListsOf(space))[i]| == |SortedKeys(space.Keys)| == |space|
  {
    ProductSize(ListsOf(space));
    ProductAt(ListsOf(space), i);
  }

  ghost function Config<V>(space: map<string, seq<V>>, i: nat): map<string, V>
    requires i < |Product(ListsOf(space))|
  {
    RowFits(space, i);
    Zip(SortedKeys(space.Keys), Product(ListsOf(space))[i])
  }

  lemma ConfigHolds<V>(space: map<string, seq<V>>, i: nat)
    requires i < |Product(ListsOf(space))|
    ensures Config(space, i).Keys == space.Keys && |Product(ListsOf(space))[i]| == |space|
    ensures var keys := SortedKeys(space.Keys);
      forall j :: 0 <= j < |keys| ==>
        keys[j] in Config(space, i) && Config(space, i)[keys[j]] == Product(ListsOf(space))[i][j]
  {
    RowFits(space, i);
    ZipHolds(SortedKeys(space.Keys), Product(ListsOf(space))[i]);
  }

  ghost function EnumerateGrid<V>(space: map<string, seq<V>>): seq<map<string, V>> {
    if |space| == 0 then [map[]]
    else seq(|Product(ListsOf(space))|, i requires 0 <= i < |Product(ListsOf(space))| => Config(space, i))
  }

  ghost function Radices<V>(space: map<string, seq<V>>): (r: seq<nat>)
    ensures |r| == |space|
  {
    Lengths(ListsOf(space))
  }

  /** The config gives each key the value its digit names. */
  ghost predicate Picks<V>(space: map<string, seq<V>>, config: map<string, V>, ds: seq<nat>) {
    && IsDigits(Radices(space), ds)
    && config.Keys == space.Keys
    && forall j :: 0 <= j < |ds| ==> Takes(space, config, SortedKeys(space.Keys)[j], ds[j])
  }

  ghost predicate Takes<V>(space: map<string, seq<V>>, config: map<string, V>, key: string, d: nat) {
    key in space && key in config && d < |space[key]| && config[key] == space[key][d]
  }

  /** The grid has one config per numeral below the product of the list lengths; config i gives the
      j-th key in sorted order the value its j-th digit of i names. */
  lemma GridIsMixedRadix<V>(space: map<string, seq<V>>)
    ensures |EnumerateGrid(space)| == Total(Radices(space))
    ensures forall i :: 0 <= i < |EnumerateGrid(space)| ==>
      Picks(space, EnumerateGrid(space)[i], Digits(Radices(space), i))
  {
    GridSize(space);
    forall i | 0 <= i < |EnumerateGrid(space)|
      ensures Picks(space, EnumerateGrid(space)[i], Digits(Radices(space), i))
    {
      ConfigPicks(space, i);
      assert |space| == 0 ==> EnumerateGrid(space)[i] == Config(space, i);
    }
  }

  /** Every choice of one value per key is one config of the grid, and only one. */
  lemma EachChoiceOnce<V>(space: map<string, seq<V>>, ds: seq<nat>)
    requires IsDigits(Radices(space), ds)
    ensures var i := Number(Radices(space), ds);
      && i < |EnumerateGrid(space)| && Picks(space, EnumerateGrid(space)[i], ds)
      && forall j: nat :: j < |EnumerateGrid(space)| && Digits(Radices(space), j) == ds ==> j == i
  {
    GridIsMixedRadix(space);
    IndexOfDigits(Radices(space), ds);
    forall j: nat | j < |EnumerateGrid(space)| ensures Number(Radices(space), Digits(Radices(space), j)) == j {
      DigitsOfIndex(Radices(space), j);
    }
  }

  lemma GridSize<V>(space: map<string, seq<V>>)
    ensures |EnumerateGrid(space)| == Total(Radices(space)) == |Product(ListsOf(space))|
  {
    ProductSize(ListsOf(space));
  }

  lemma ConfigTakes<V>(space: map<string, seq<V>>, i: nat, j: nat)
    requires i < |Product(ListsOf(space))| && j < |space|
    ensures j < |Digits(Radices(space), i)|
    ensures Takes(space, Config(space, i), SortedKeys(space.Keys)[j], Digits(Radices(space), i)[j])
  {
    hide Product, Digits, Config, SortedKeys, Number;
    ProductSize(ListsOf(space));
    ProductAt(ListsOf(space), i);
    ConfigHolds(space, i);
    assert SortedKeys(space.Keys)[j] in SortedKeys(space.Keys);
  }

  lemma ConfigPicks<V>(space: map<string, seq<V>>, i: nat)
    requires i < |Product(ListsOf(space))|
    ensures Picks(space, Config(space, i), Digits(Radices(space), i))
  {
    hide Product, Digits, Config, SortedKeys, Takes, Total;
    ProductSize(ListsOf(space));
    DigitsOfIndex(Radices(space), i);
    ConfigHolds(space, i);
    forall j | 0 <= j < |space|
      ensures Takes(space, Config(space, i), SortedKeys(space.Keys)[j], Digits(Radices(space), i)[j])
    {
      ConfigTakes(space, i, j);
    }
  }

  // ---- trials ----

  /** What train_fn does: a bare metric, a dict, or an exception with its message. */
  datatype Outcome = Bare(value: Option<real>) | Dict(fields: map<string, Option<real>>) | Raised(message: string)

  datatype Trial<V> =
    Trial(params: map<string, V>, metric: Option<real>, extras: map<string, Option<real>>, error: string)

  type Train<!V> = (map<string, V>, int) -> Outcome

  const SEED_STRIDE := 1_000_003

  function TrialSeed(base: int, i: nat): int { base * SEED_STRIDE + i }

  function Extras(fields: map<string, Option<real>>): map<string, Option<real>> { fields - {"metric"} }

  function One<V>(train: Train<V>, base: int, i: nat, params: map<string, V>): (t: Trial<V>)
    ensures t.params == params
  {
    match train(params, TrialSeed(base, i))
    case Bare(value) => Trial(params, value, map[], "")
    case Dict(fields) => Trial(params, if "metric" in fields then fields["metric"] else None, Extras(fields), "")
    case Raised(message) => Trial(params, None, map[], message)
  }

  ghost function Configs<V>(space: map<string, seq<V>>, maxTrials: Option<int>): seq<map<string, V>> {
    var all := EnumerateGrid(space);
    if maxTrials.Some? && 0 <= maxTrials.value < |all| then all[..maxTrials.value] else all
  }

  function InOrder<V>(train: Train<V>, base: int, configs: seq<map<string, V>>): seq<Trial<V>> {
    seq(|configs|, i requires 0 <= i < |configs| => One(train, base, i, configs[i]))
  }

  ghost predicate Within(order: seq<nat>, n: nat) { forall j :: 0 <= j < |order| ==> order[j] < n }

  /** Every trial finishes, in whatever order the pool gets to them. */
  ghost predicate Finishes(order: seq<nat>, n: nat) { Within(order, n) && forall i: nat :: i < n ==> i in order }

  /** The pool's results so far, when trials finish in the given order. */
  function Finished<V>(train: Train<V>, base: int, configs: seq<map<string, V>>, order: seq<nat>): map<nat, Trial<V>>
    requires Within(order, |configs|)
  {
    if order == [] then map[]
    else
      var last := order[|order| - 1];
      Finished(train, base, configs, order[..|order| - 1])[last := One(train, base, last, configs[last])]
  }

  lemma {:induction false} FinishedHolds<V>(train: Train<V>, base: int, configs: seq<map<string, V>>,
                                            order: seq<nat>, i: nat)
    requires Within(order, |configs|) && i in order
    ensures i in Finished(train, base, configs, order) && i < |configs|
    ensures Finished(train, base, configs, order)[i] == One(train, base, i, configs[i])
  {
    var front, last := order[..|order| - 1], order[|order| - 1];
    assert order == front + [last];
    if i != last {
      FinishedHolds(train, base, configs, front, i);
    }
  }

  /** pool.map collects by position; the other branch runs the trials one after another. */
  ghost function RunConfigs<V>(train: Train<V>, base: int, configs: seq<map<string, V>>, jobs: int,
                               order: seq<nat>): seq<Trial<V>>
    requires Finishes(order, |configs|)
  {
    if jobs > 1 && |configs| > 1 then
      seq(|configs|, i requires 0 <= i < |configs| =>
        FinishedHolds(train, base, configs, order, i); Finished(train, base, configs, order)[i])
    else
      InOrder(train, base, configs)
  }

  /** The pool's completion order leaves no trace in the list. */
  lemma PoolKeepsOrder<V>(train: Train<V>, base: int, configs: seq<map<string, V>>, jobs: int, order: seq<nat>)
    requires Finishes(order, |configs|)
    ensures RunConfigs(train, base, configs, jobs, order) == InOrder(train, base, configs)
  {
    forall i | 0 <= i < |configs|
      ensures i in Finished(train, base, configs, order)
      ensures Finished(train, base, configs, order)[i] == One(train, base, i, configs[i])
    {
      FinishedHolds(train, base, configs, order, i);
    }
  }

  ghost function RunSweep<V>(space: map<string, seq<V>>, train: Train<V>, base: int, jobs: int,
                             maxTrials: Option<int>, order: seq<nat>): seq<Trial<V>>
    requires Finishes(order, |Configs(space, maxTrials)|)
  {
    RunConfigs(train, base, Configs(space, maxTrials), jobs, order)
  }

  lemma ConfigsArePrefix<V>(space: map<string, seq<V>>, maxTrials: Option<int>)
    ensures var configs, n := Configs(space, maxTrials), Total(Radices(space));
      && |configs| == (if maxTrials.Some? && 0 <= maxTrials.value < n then maxTrials.value else n)
      && configs <= EnumerateGrid(space)
  {
    GridSize(space);
  }

  /** Trial i of a list ran config i of the grid, on seed i. */
  ghost predicate RanConfig<V>(space: map<string, seq<V>>, train: Train<V>, base: int, trial: Trial<V>, i: nat) {
    Picks(space, trial.params, Digits(Radices(space), i)) && trial == One(train, base, i, trial.params)
  }

  /** Whatever the pool size and whatever order the trials finish in, the list is the grid's, in grid
      order, cut to the cap; trial i ran config i on seed i. */
  lemma TrialsFollowTheGrid<V>(space: map<string, seq<V>>, train: Train<V>, base: int, jobs: int,
                               maxTrials: Option<int>, order: seq<nat>)
    requires Finishes(order, |Configs(space, maxTrials)|)
    ensures var trials, n := RunSweep(space, train, base, jobs, maxTrials, order), Total(Radices(space));
      && |trials| == (if maxTrials.Some? && 0 <= maxTrials.value < n then maxTrials.value else n)
      && forall i :: 0 <= i < |trials| ==> RanConfig(space, train, base, trials[i], i)
  {
    hide EnumerateGrid, Configs, Picks, Digits, Radices, Total, RunConfigs, RanConfig;
    var configs := Configs(space, maxTrials);
    GridIsMixedRadix(space);
    ConfigsArePrefix(space, maxTrials);
    PoolKeepsOrder(train, base, configs, jobs, order);
    InOrderRan(space, train, base, configs);
  }

  lemma InOrderRan<V>(space: map<string, seq<V>>, train: Train<V>, base: int, configs: seq<map<string, V>>)
    requires forall i :: 0 <= i < |configs| ==> Picks(space, configs[i], Digits(Radices(space), i))
    ensures forall i :: 0 <= i < |configs| ==> RanConfig(space, train, base, InOrder(train, base, configs)[i], i)
  {
    forall i | 0 <= i < |configs| ensures RanConfig(space, train, base, InOrder(train, base, configs)[i], i) {
      var trial := One(train, base, i, configs[i]);
      assert RanConfig(space, train, base, trial, i);
    }
  }

  /** A trial's failure is recorded in that trial and changes no other: swapping what train_fn does on
      trial i's seed leaves the rest of the list as it was. */
  lemma FailuresStayInTheirTrial<V(!new)>(configs: seq<map<string, V>>, train: Train<V>, other: Train<V>,
                                          base: int, jobs: int, order: seq<nat>, i: nat)
    requires Finishes(order, |configs|) && i < |configs|
    requires forall params, seed :: seed != TrialSeed(base, i) ==> train(params, seed) == other(params, seed)
    ensures var a, b := RunConfigs(train, base, configs, jobs, order), RunConfigs(other, base, configs, jobs, order);
      && |a| == |b| && i < |b|
      && (forall j :: 0 <= j < |a| && j != i ==> a[j] == b[j])
      && (other(configs[i], TrialSeed(base, i)).Raised? ==>
            b[i] == Trial(configs[i], None, map[], other(configs[i], TrialSeed(base, i)).message))
  {
    PoolKeepsOrder(train, base, configs, jobs, order);
    PoolKeepsOrder(other, base, configs, jobs, order);
    forall j: nat | j < |configs| && j != i
      ensures One(train, base, j, configs[j]) == One(other, base, j, configs[j])
    {
      assert TrialSeed(base, j) != TrialSeed(base, i);
    }
  }

  /** n trials per sweep have pairwise different seeds, across every two base seeds, exactly when n
      does not exceed the stride. */
  lemma SeedsAreInjective(n: nat)
    ensures (forall b: int, c: int, i: nat, j: nat ::
               i < n && j < n && TrialSeed(b, i) == TrialSeed(c, j) ==> b == c && i == j)
        <==> n <= SEED_STRIDE
  {
    assert TrialSeed(0, SEED_STRIDE) == TrialSeed(1, 0);
  }

  // ---- what a trial reports ----

  /** The trial as train_fn's outcome o shows in it. */
  ghost predicate Reports<V>(trial: Trial<V>, o: Outcome) {
    && (o.Bare? ==> trial.metric == o.value && trial.extras == map[] && trial.error == "")
    && (o.Raised? ==> trial.metric == None && trial.extras == map[] && trial.error == o.message)
    && (o.Dict? ==> trial.error == "" && trial.metric == (if "metric" in o.fields then o.fields["metric"] else None))
    && (o.Dict? ==> AllButMetric(trial.extras, o.fields))
  }

  ghost predicate AllButMetric(extras: map<string, Option<real>>, fields: map<string, Option<real>>) {
    && (forall name :: name in extras <==> name in fields && name != "metric")
    && (forall name :: name in extras ==> extras[name] == fields[name])
  }

  /** Trial i shows what train_fn did with its own params and the seed 1,000,003 times the base plus i. */
  lemma TrialsReport<V>(space: map<string, seq<V>>, train: Train<V>, base: int, jobs: int, maxTrials: Option<int>,
                        order: seq<nat>, i: nat)
    requires Finishes(order, |Configs(space, maxTrials)|) && i < |RunSweep(space, train, base, jobs, maxTrials, order)|
    ensures var trial := RunSweep(space, train, base, jobs, maxTrials, order)[i];
      Reports(trial, train(trial.params, 1_000_003 * base + i))
  {
    hide EnumerateGrid, Configs;
    PoolKeepsOrder(train, base, Configs(space, maxTrials), jobs, order);
    OneReports(train, base, i, Configs(space, maxTrials)[i]);
  }

  lemma OneReports<V>(train: Train<V>, base: int, i: nat, params: map<string, V>)
    ensures One(train, base, i, params).params == params
    ensures Reports(One(train, base, i, params), train(params, 1_000_003 * base + i))
  {
  }

  // ---- the last key varies fastest ----

  lemma {:induction false} LastDigit(lens: seq<nat>, ds: seq<nat>)
    requires lens != [] && IsDigits(lens, ds) && ds[|ds| - 1] + 1 < lens[|lens| - 1]
    ensures Number(lens, ds[|ds| - 1 := ds[|ds| - 1] + 1]) == Number(lens, ds) + 1
  {
    var more := ds[|ds| - 1 := ds[|ds| - 1] + 1];
    if |lens| > 1 {
      assert more[1..] == ds[1..][|ds| - 2 := ds[|ds| - 1] + 1];
      LastDigit(lens[1..], ds[1..]);
    } else {
      assert Total(lens[1..]) == 1 && Number(lens[1..], ds[1..]) == 0 == Number(lens[1..], more[1..]);
    }
  }

  /** Until its values are used up, the next config changes the last key alone, to its next value. */
  lemma LastKeyVariesFastest(lens: seq<nat>, i: nat)
    requires lens != [] && i < Total(lens) && IsDigits(lens, Digits(lens, i))
    requires Digits(lens, i)[|lens| - 1] + 1 < lens[|lens| - 1]
    ensures i + 1 < Total(lens)
    ensures Digits(lens, i + 1) == Digits(lens, i)[|lens| - 1 := Digits(lens, i)[|lens| - 1] + 1]
  {
    var ds := Digits(lens, i);
    DigitsOfIndex(lens, i);
    LastDigit(lens, ds);
    IndexOfDigits(lens, ds[|ds| - 1 := ds[|ds| - 1] + 1]);
  }
}
