/** benchmarks/arm_readout.py: the registered stratified permutation test, exact or sampled. */
module ArmReadout {
  import opened Folds
  import opened Binomials
  import opened Products
  import opened Relabelling
  import opened Shuffles

  const EXACT_CEILING: nat := 50000

  predicate Beats(positive: bool, val: real, obs: real) {
    if positive then val >= obs else val <= obs
  }

  /** 1 where the value is at least as extreme as obs, 0 elsewhere. */
  function Extreme(positive: bool, obs: real): real -> real {
    (x: real) => if Beats(positive, x, obs) then 1.0 else 0.0
  }

  function At(positive: bool, batches: seq<Batch>): seq<Batch> -> real {
    AtTotal(Extreme(positive, Total(batches)))
  }

  /** How many arrangements are at least as extreme as the observed one. */
  ghost function AtLeastAsExtreme(batches: seq<Batch>, positive: bool): real {
    SumOver(Arrangements(batches), At(positive, batches))
  }

  ghost function ExactP(batches: seq<Batch>, positive: bool): real {
    ObservedArrangement(batches);
    AtLeastAsExtreme(batches, positive) / |Arrangements(batches)| as real
  }

  lemma {:induction false} IndicatorBounds<T>(s: seq<T>, f: T -> real)
    requires forall x :: x in s ==> f(x) == 0.0 || f(x) == 1.0
    ensures 0.0 <= SumOver(s, f) <= |s| as real
    ensures forall x :: x in s && f(x) == 1.0 ==> SumOver(s, f) >= 1.0
  {
    if s != [] {
      IndicatorBounds(s[1..], f);
    }
  }

  /** The exact p is a proportion of the relabelling space that counts the observed labelling. */
  lemma ExactPBounds(batches: seq<Batch>, positive: bool)
    ensures |Arrangements(batches)| > 0
    ensures 1.0 / |Arrangements(batches)| as real <= ExactP(batches, positive) <= 1.0
  {
    ObservedArrangement(batches);
    var arr := Arrangements(batches);
    assert arr[0] in arr;
    IndicatorBounds(arr, At(positive, batches));
    assert At(positive, batches)(batches) == 1.0;
    DivideBounds(AtLeastAsExtreme(batches, positive), |Arrangements(batches)| as real);
  }

  lemma DivideBounds(x: real, n: real)
    requires 1.0 <= x <= n
    ensures 1.0 / n <= x / n <= 1.0
  {
  }

  // ---- the level ----

  /** 1 where the arrangement, taken as the data, would have had an exact p of at most alpha. */
  ghost function Rejects(alpha: real, positive: bool): seq<Batch> -> real {
    (arr: seq<Batch>) => if ExactP(arr, positive) <= alpha then 1.0 else 0.0
  }

  /** An arrangement's own null is the observed one's: same space, same totals. */
  lemma SameNull(batches: seq<Batch>, arr: seq<Batch>, positive: bool)
    requires Relabels(arr, batches)
    ensures |Arrangements(arr)| == |Arrangements(batches)|
    ensures AtLeastAsExtreme(arr, positive) == SumOver(Arrangements(batches), At(positive, arr))
  {
    SameSpace(batches, arr);
    ArrangementsCount(arr);
    ArrangementsCount(batches);
    var f := Extreme(positive, Total(arr));
    NullIsSum(arr, f);
    NullIsSum(batches, f);
    NullRelabelled(arr, batches, f);
  }

  lemma {:induction false} SameSpace(batches: seq<Batch>, arr: seq<Batch>)
    requires Relabels(arr, batches)
    ensures RelabelSpace(arr) == RelabelSpace(batches)
  {
    if batches != [] {
      SameSpace(batches[1..], arr[1..]);
    }
  }

  function TotalOf(): seq<Batch> -> real { (arr: seq<Batch>) => Total(arr) }

  /** Among the chosen of xs, one whose value every other chosen one's is at least as extreme as. */
  lemma {:induction false} Mildest<T>(xs: seq<T>, chosen: T -> real, value: T -> real, positive: bool) returns (m: int)
    ensures -1 <= m < |xs|
    ensures m == -1 ==> forall x :: x in xs ==> chosen(x) != 1.0
    ensures m >= 0 ==> chosen(xs[m]) == 1.0
    ensures m >= 0 ==> forall x :: x in xs && chosen(x) == 1.0 ==> Beats(positive, value(x), value(xs[m]))
  {
    if xs == [] {
      m := -1;
    } else {
      var t := Mildest(xs[1..], chosen, value, positive);
      if chosen(xs[0]) == 1.0 && (t == -1 || Beats(positive, value(xs[t + 1]), value(xs[0]))) {
        m := 0;
      } else {
        m := if t == -1 then -1 else t + 1;
      }
    }
  }

  /** Every rejecting arrangement lies in the tail of the mildest one. */
  lemma RejectionsInTail(batches: seq<Batch>, positive: bool, alpha: real, mild: seq<Batch>)
    requires Relabels(mild, batches)
    requires forall x :: x in Arrangements(batches) && Rejects(alpha, positive)(x) == 1.0 ==>
      Beats(positive, Total(x), Total(mild))
    ensures SumOver(Arrangements(batches), Rejects(alpha, positive)) <= AtLeastAsExtreme(mild, positive)
  {
    var r, t := Rejects(alpha, positive), At(positive, mild);
    forall x | x in Arrangements(batches)
      ensures r(x) <= t(x)
    {
    }
    SumOverAtMost(Arrangements(batches), r, t);
    SameNull(batches, mild, positive);
  }

  lemma TailOfRejection(mild: seq<Batch>, positive: bool, alpha: real, n: nat)
    requires ExactP(mild, positive) <= alpha && |Arrangements(mild)| == n
    ensures AtLeastAsExtreme(mild, positive) <= Repeat(n, alpha)
  {
    ObservedArrangement(mild);
    DivisionIsShare(AtLeastAsExtreme(mild, positive), n, alpha);
  }

  lemma LevelFromMildest(batches: seq<Batch>, positive: bool, alpha: real, m: nat)
    requires m < |Arrangements(batches)|
    requires Rejects(alpha, positive)(Arrangements(batches)[m]) == 1.0
    requires forall x :: x in Arrangements(batches) && Rejects(alpha, positive)(x) == 1.0 ==>
      Beats(positive, Total(x), Total(Arrangements(batches)[m]))
    ensures SumOver(Arrangements(batches), Rejects(alpha, positive)) <= Repeat(|Arrangements(batches)|, alpha)
  {
    var mild := Arrangements(batches)[m];
    ArrangementsRelabel(batches, m);
    RejectionsInTail(batches, positive, alpha, mild);
    SameNull(batches, mild, positive);
    TailOfRejection(mild, positive, alpha, |Arrangements(batches)|);
  }

  lemma LevelRepeated(batches: seq<Batch>, positive: bool, alpha: real)
    requires alpha >= 0.0
    ensures SumOver(Arrangements(batches), Rejects(alpha, positive)) <= Repeat(|Arrangements(batches)|, alpha)
  {
    var arrs, r := Arrangements(batches), Rejects(alpha, positive);
    var m := Mildest(arrs, r, TotalOf(), positive);
    if m == -1 {
      SumOverZero(arrs, r);
      RepeatNonnegative(|arrs|, alpha);
    } else {
      assert forall x :: x in arrs && r(x) == 1.0 ==> Beats(positive, TotalOf()(x), TotalOf()(arrs[m]));
      LevelFromMildest(batches, positive, alpha, m);
    }
  }

  /** The exact test keeps its level: whatever the data, at most a share alpha of the relabellings of
      the pooled data would themselves have been declared significant at alpha. */
  lemma {:induction false} ExactTestKeepsItsLevel(batches: seq<Batch>, positive: bool, alpha: real, space: nat)
    requires alpha >= 0.0 && space == |Arrangements(batches)|
    ensures SumOver(Arrangements(batches), Rejects(alpha, positive)) <= space as real * alpha
  {
    LevelRepeated(batches, positive, alpha);
    RepeatIsProduct(space, alpha);
  }

  lemma DivisionIsShare(x: real, n: nat, alpha: real)
    requires n > 0 && x / n as real <= alpha
    ensures x <= Repeat(n, alpha)
  {
    RepeatIsProduct(n, alpha);
    assert x == (x / n as real) * n as real;
  }

  // ---- the sampled branch ----

  function One<T>(): T -> real { (t: T) => 1.0 }

  lemma {:induction false} CountIsSum<T>(s: seq<T>)
    ensures SumOver(s, One<T>()) == |s| as real
  {
    if s != [] {
      CountIsSum(s[1..]);
    }
  }

  lemma CountTotals(s: seq<seq<Batch>>)
    ensures SumOver(s, AtTotal(One<real>())) == |s| as real
  {
    SumOverSame(s, AtTotal(One<real>()), One<seq<Batch>>());
    CountIsSum(s);
  }

  /** Over all shuffles of every pool, the share at least as extreme as the observed labelling is the
      enumerated p: sampling estimates the same null. */
  lemma SampledShareIsExactP(batches: seq<Batch>, positive: bool, shuffles: nat)
    requires shuffles == |SampleSpace(batches)|
    ensures shuffles > 0
    ensures SumOver(SampleSpace(batches), At(positive, batches)) / shuffles as real == ExactP(batches, positive)
  {
    var c, n := ShufflesPerArrangement(batches), |Arrangements(batches)|;
    var f := Extreme(positive, Total(batches));
    SampledNullIsExactNull(batches, f);
    NullIsSum(batches, f);
    SampledNullIsExactNull(batches, One<real>());
    NullIsSum(batches, One<real>());
    CountTotals(SampleSpace(batches));
    CountTotals(Arrangements(batches));
    ObservedArrangement(batches);
    ShufflesPerArrangementPositive(batches);
    SameShare(c, AtLeastAsExtreme(batches, positive), n, SumOver(SampleSpace(batches), At(positive, batches)),
              shuffles);
  }

  lemma {:induction false} ShufflesPerArrangementPositive(batches: seq<Batch>)
    ensures ShufflesPerArrangement(batches) > 0
  {
    if batches != [] {
      ShufflesPerArrangementPositive(batches[1..]);
      Positive(Multiplicity(|batches[0].Pool()|, |batches[0].treat|), ShufflesPerArrangement(batches[1..]));
      Positive(Factorial(|batches[0].treat|), Factorial(|batches[0].Pool()| - |batches[0].treat|));
    }
  }

  lemma SameShare(c: nat, x: real, n: nat, y: real, m: nat)
    requires c > 0 && n > 0 && y == Repeat(c, x) && m as real == Repeat(c, n as real)
    ensures m > 0 && y / m as real == x / n as real
  {
    RepeatIsProduct(c, x);
    RepeatIsProduct(c, n as real);
    Positive(c, n);
    Scaled(c as real, x, n as real, y, m as real);
  }

  lemma Scaled(d: real, x: real, e: real, y: real, f: real)
    requires d > 0.0 && e > 0.0 && y == d * x && f == d * e
    ensures f > 0.0 && y / f == x / e
  {
    var q := x / e;
    assert x == q * e;
    assert f > 0.0;
    Exchanged(d, q, e);
    assert y == q * f;
  }

  lemma Exchanged(d: real, q: real, e: real)
    ensures d * (q * e) == q * (d * e)
  {
  }

  // ---- the operations ----

  datatype Detail = Detail(p: real, exact: bool, space: nat, draws: nat, se: real)

  /** How many relabellings there are, without listing them. */
  method RelabelSpaceOf(batches: seq<Batch>) returns (space: nat)
    ensures space == RelabelSpace(batches) == |Arrangements(batches)|
  {
    space := 1;
    for i := 0 to |batches|
      invariant space * RelabelSpace(batches[i..]) == RelabelSpace(batches)
    {
      var b := batches[i];
      var c := Comb(|b.treat| + |b.control|, |b.treat|);
      assert batches[i..][1..] == batches[i + 1..];
      Reassociate(space, c, RelabelSpace(batches[i + 1..]));
      space := space * c;
    }
    ArrangementsCount(batches);
  }

  lemma Reassociate(x: nat, y: nat, z: nat)
    ensures x * (y * z) == x * y * z
  {
  }

  /** One batch's list of arrangements, as the comprehension over itertools.combinations builds it. */
  method Enumerate(b: Batch) returns (opts: seq<Batch>)
    ensures opts == Relabellings(b)
  {
    var pool, k := b.Pool(), |b.treat|;
    var combos := Combinations(0, |pool|, k);
    opts := [];
    SplitsAreCombinations(pool, 0, k);
    assert pool[0..] == pool;
    for m := 0 to |combos|
      invariant opts == Splits(pool, k)[..m]
    {
      ArrangementListed(pool, k, m);
      NextOfPrefix(Splits(pool, k), m);
      opts := opts + [Arrange(pool, combos[m])];
    }
  }

  lemma NextOfPrefix<T>(s: seq<T>, m: nat)
    requires m < |s|
    ensures s[..m + 1] == s[..m] + [s[m]]
  {
  }

  /** The m-th combination, arranged, is the m-th split. */
  lemma {:induction false} ArrangementListed(pool: seq<real>, k: nat, m: nat)
    requires m < |Combinations(0, |pool|, k)|
    ensures |Splits(pool, k)| == |Combinations(0, |pool|, k)|
    ensures Within(Combinations(0, |pool|, k)[m], 0, |pool|)
    ensures Splits(pool, k)[m] == Arrange(pool, Combinations(0, |pool|, k)[m])
  {
    assert pool[0..] == pool;
    SplitIsCombination(pool, 0, k, m);
  }

  lemma {:induction false} SumOverNext<T>(s: seq<T>, i: nat, f: T -> real)
    requires i < |s|
    ensures SumOver(s[..i + 1], f) == SumOver(s[..i], f) + f(s[i])
  {
    assert s[..i + 1] == s[..i] + [s[i]];
    SumOverConcat(s[..i], [s[i]], f);
    assert [s[i]][1..] == [];
  }

  lemma {:induction false} AllRelabellingsSnoc(batches: seq<Batch>, i: nat)
    requires i < |batches|
    ensures AllRelabellings(batches[..i + 1]) == AllRelabellings(batches[..i]) + [Relabellings(batches[i])]
  {
    if i > 0 {
      AllRelabellingsSnoc(batches[1..], i - 1);
      assert batches[..i + 1][1..] == batches[1..][..i] && batches[..i][1..] == batches[1..][..i - 1];
    }
  }

  /** How many arrangements there are, and how many are at least as extreme as the observed one. */
  method CountExact(batches: seq<Batch>, positive: bool) returns (ge: nat, total: nat)
    ensures total == |Arrangements(batches)|
    ensures ge as real == AtLeastAsExtreme(batches, positive)
  {
    var obs := Total(batches);
    var per: seq<seq<Batch>> := [];
    for i := 0 to |batches|
      invariant per == AllRelabellings(batches[..i])
    {
      var opts := Enumerate(batches[i]);
      AllRelabellingsSnoc(batches, i);
      per := per + [opts];
    }
    assert batches[..|batches|] == batches;
    var combos := Product(per);
    ge, total := 0, 0;
    for i := 0 to |combos|
      invariant total == i
      invariant ge as real == SumOver(combos[..i], At(positive, batches))
    {
      SumOverNext(combos, i, At(positive, batches));
      if Beats(positive, Total(combos[i]), obs) {
        ge := ge + 1;
      }
      total := total + 1;
    }
    assert combos[..|combos|] == combos;
  }

  /** One draw of the sampled branch: every pool shuffled with its own numbers, then cut. */
  function Drawn(batches: seq<Batch>, draw: seq<seq<nat>>): seq<Batch>
    requires |draw| == |batches|
  {
    if batches == [] then []
    else [Cut(Shuffled(batches[0].Pool(), draw[0]), |batches[0].treat|)] + Drawn(batches[1..], draw[1..])
  }

  predicate DrawFor(batches: seq<Batch>, draw: seq<seq<nat>>) {
    |draw| == |batches| && forall i :: 0 <= i < |batches| ==> Draws(draw[i], |batches[i].Pool()|)
  }

  /** Every draw lands in the sample space, and the sample space holds nothing else. */
  lemma {:induction false} DrawnInSampleSpace(batches: seq<Batch>, draw: seq<seq<nat>>)
    requires DrawFor(batches, draw)
    ensures Drawn(batches, draw) in SampleSpace(batches)
  {
    if batches != [] {
      var b := batches[0];
      DrawnInSampleSpace(batches[1..], draw[1..]);
      DrawsListed(draw[0], |b.Pool()|);
      assert AllShufflings(batches)[1..] == AllShufflings(batches[1..]);
      var i :| 0 <= i < |AllDraws(|b.Pool()|)| && AllDraws(|b.Pool()|)[i] == draw[0];
      assert Shufflings(b)[i] == Drawn(batches, draw)[0];
      OuterHas(Shufflings(b), SampleSpace(batches[1..]), Drawn(batches, draw));
    }
  }

  lemma ShufflingIsDrawn(b: Batch, s: Batch) returns (cs: seq<nat>)
    requires s in Shufflings(b)
    ensures Draws(cs, |b.Pool()|) && s == Cut(Shuffled(b.Pool(), cs), |b.treat|)
  {
    var i :| 0 <= i < |Shufflings(b)| && Shufflings(b)[i] == s;
    cs := AllDraws(|b.Pool()|)[i];
    DrawsListed(cs, |b.Pool()|);
  }

  lemma DrawnBatchFirst(batches: seq<Batch>, cs: seq<nat>, rest: seq<seq<nat>>)
    requires batches != [] && Draws(cs, |batches[0].Pool()|) && DrawFor(batches[1..], rest)
    ensures DrawFor(batches, [cs] + rest)
    ensures Drawn(batches, [cs] + rest)
         == [Cut(Shuffled(batches[0].Pool(), cs), |batches[0].treat|)] + Drawn(batches[1..], rest)
  {
    var draw := [cs] + rest;
    assert draw[1..] == rest;
    forall i | 0 <= i < |batches| ensures Draws(draw[i], |batches[i].Pool()|) {
      if i > 0 {
        assert draw[i] == rest[i - 1] && batches[i] == batches[1..][i - 1];
      }
    }
  }

  lemma {:induction false} SampleSpaceIsDrawn(batches: seq<Batch>, arr: seq<Batch>) returns (draw: seq<seq<nat>>)
    requires arr in SampleSpace(batches)
    ensures DrawFor(batches, draw) && Drawn(batches, draw) == arr
  {
    if batches == [] {
      draw := [];
    } else {
      assert AllShufflings(batches)[1..] == AllShufflings(batches[1..]);
      OuterHas(Shufflings(batches[0]), SampleSpace(batches[1..]), arr);
      var rest := SampleSpaceIsDrawn(batches[1..], arr[1..]);
      var cs := ShufflingIsDrawn(batches[0], arr[0]);
      DrawnBatchFirst(batches, cs, rest);
      draw := [cs] + rest;
      assert arr == [arr[0]] + arr[1..];
    }
  }

  function DrawnTotal(batches: seq<Batch>, f: real -> real): seq<seq<nat>> -> real {
    (draw: seq<seq<nat>>) => if |draw| == |batches| then f(Total(Drawn(batches, draw))) else 0.0
  }

  /** How many of the draws are at least as extreme as the observed labelling. */
  ghost function Hits(batches: seq<Batch>, positive: bool, stream: seq<seq<seq<nat>>>): real {
    SumOver(stream, DrawnTotal(batches, Extreme(positive, Total(batches))))
  }

  /** The statistic of one random relabelling. */
  method DrawTotal(batches: seq<Batch>, draw: seq<seq<nat>>) returns (val: real)
    requires DrawFor(batches, draw)
    ensures val == Total(Drawn(batches, draw))
  {
    val := 0.0;
    for i := 0 to |batches|
      invariant val + Total(Drawn(batches[i..], draw[i..])) == Total(Drawn(batches, draw))
    {
      var b := batches[i];
      var p := b.Pool();
      var pool := new real[|p|](j requires 0 <= j < |p| => p[j]);
      assert pool[..] == p;
      Shuffle(pool, draw[i]);
      var k := |b.treat|;
      assert batches[i..][1..] == batches[i + 1..] && draw[i..][1..] == draw[i + 1..];
      val := val + (Mean(pool[..k]) - Mean(pool[k..]));
    }
  }

  /** How often a random relabelling is at least as extreme as the observed one. */
  method CountHits(batches: seq<Batch>, positive: bool, stream: seq<seq<seq<nat>>>) returns (hits: nat)
    requires forall d :: d in stream ==> DrawFor(batches, d)
    ensures hits as real == Hits(batches, positive, stream)
  {
    var obs := Total(batches);
    hits := 0;
    for d := 0 to |stream|
      invariant hits as real == SumOver(stream[..d], DrawnTotal(batches, Extreme(positive, obs)))
    {
      var val := DrawTotal(batches, stream[d]);
      SumOverNext(stream, d, DrawnTotal(batches, Extreme(positive, obs)));
      if Beats(positive, val, obs) {
        hits := hits + 1;
      }
    }
    assert stream[..|stream|] == stream;
  }

  /** The reported p: enumerated up to the ceiling, sampled above it. */
  ghost function DetailP(batches: seq<Batch>, positive: bool, stream: seq<seq<seq<nat>>>): real {
    if |Arrangements(batches)| <= EXACT_CEILING then ExactP(batches, positive)
    else (Hits(batches, positive, stream) + 1.0) / (|stream| + 1) as real
  }

  /** The sampled branch. */
  method SampledDetail(batches: seq<Batch>, positive: bool, stream: seq<seq<seq<nat>>>, sqrt: real -> real, space: nat)
    returns (r: Detail)
    requires stream != [] && forall d :: d in stream ==> DrawFor(batches, d)
    ensures !r.exact && r.space == space && r.draws == |stream|
    ensures r.p == (Hits(batches, positive, stream) + 1.0) / (r.draws + 1) as real
    ensures 0.0 <= Variance(r.p, r.draws) && r.se == sqrt(Variance(r.p, r.draws))
    ensures Roots(sqrt) ==> r.se >= 0.0 && r.se * r.se * r.draws as real == r.p * (1.0 - r.p)
  {
    hide Hits;
    var hits := CountHits(batches, positive, stream);
    var p := (hits + 1) as real / (|stream| + 1) as real;
    SampledPBounds(batches, positive, stream, |stream|);
    VarianceNonnegative(p, |stream|);
    VarianceTimes(p, |stream|);
    return Detail(p, false, space, |stream|, sqrt(Variance(p, |stream|)));
  }

  /** stratified_p_detail. The random generator is the stream of shuffles it would deal, and sqrt is the
      power of one half. */
  method StratifiedPDetail(batches: seq<Batch>, positive: bool, stream: seq<seq<seq<nat>>>, sqrt: real -> real)
    returns (r: Detail)
    requires BothArms(batches)
    requires forall d :: d in stream ==> DrawFor(batches, d)
    requires |Arrangements(batches)| > EXACT_CEILING ==> stream != []
    ensures r.space == |Arrangements(batches)| && (r.exact <==> r.space <= EXACT_CEILING)
    ensures r.p == DetailP(batches, positive, stream)
    ensures r.exact ==> r.draws == r.space && r.se == 0.0 && r.p == ExactP(batches, positive)
    ensures !r.exact ==> r.draws == |stream| && r.p == (Hits(batches, positive, stream) + 1.0) / (r.draws + 1) as real
    ensures !r.exact ==> 0.0 <= Variance(r.p, r.draws) && r.se == sqrt(Variance(r.p, r.draws))
    ensures !r.exact && Roots(sqrt) ==> r.se >= 0.0 && r.se * r.se * r.draws as real == r.p * (1.0 - r.p)
  {
    var space := RelabelSpaceOf(batches);
    if space <= EXACT_CEILING {
      var ge, total := CountExact(batches, positive);
      ObservedArrangement(batches);
      return Detail(ge as real / total as real, true, space, total, 0.0);
    }
    r := SampledDetail(batches, positive, stream, sqrt, space);
  }

  /** What the sampled error is the root of. */
  function Variance(p: real, draws: nat): real { if draws == 0 then 0.0 else p * (1.0 - p) / draws as real }

  /** sqrt takes square roots. */
  ghost predicate Roots(sqrt: real -> real) { forall x :: x >= 0.0 ==> sqrt(x) >= 0.0 && sqrt(x) * sqrt(x) == x }

  lemma VarianceTimes(p: real, draws: nat)
    requires draws > 0
    ensures Variance(p, draws) * draws as real == p * (1.0 - p)
  {
  }

  lemma VarianceNonnegative(p: real, draws: nat)
    requires 0.0 <= p <= 1.0
    ensures Variance(p, draws) >= 0.0
  {
    var q := 1.0 - p;
    ProductNonnegative(p, q);
  }

  lemma ProductNonnegative(x: real, y: real)
    requires x >= 0.0 && y >= 0.0
    ensures x * y >= 0.0
  {
  }

  /** The plus-one estimate stays in [1/(draws+1), 1] and never undercuts the raw share of hits. */
  lemma SampledPBounds(batches: seq<Batch>, positive: bool, stream: seq<seq<seq<nat>>>, draws: nat)
    requires draws == |stream| && draws > 0
    ensures var p := (Hits(batches, positive, stream) + 1.0) / (draws + 1) as real;
      1.0 / (draws + 1) as real <= p <= 1.0 && p >= Hits(batches, positive, stream) / draws as real
  {
    IndicatorBounds(stream, DrawnTotal(batches, Extreme(positive, Total(batches))));
    PlusOne(Hits(batches, positive, stream), draws as real);
  }

  lemma PlusOne(h: real, d: real)
    requires 0.0 <= h <= d && d > 0.0
    ensures 1.0 / (d + 1.0) <= (h + 1.0) / (d + 1.0) <= 1.0
    ensures (h + 1.0) / (d + 1.0) >= h / d
  {
    QuotientOrder(1.0, h + 1.0, d + 1.0);
    QuotientOrder(h + 1.0, d + 1.0, d + 1.0);
    QuotientOrder(h, d, d);
    ShareOf(h / d, h, d);
    QuotientOrder(h / d * (d + 1.0), h + 1.0, d + 1.0);
    TimesOver(h / d, d + 1.0);
    TimesOver(1.0, d + 1.0);
  }

  lemma ShareOf(y: real, h: real, d: real)
    requires d > 0.0 && y == h / d && y <= 1.0
    ensures y * (d + 1.0) <= h + 1.0
  {
    assert y * d == h;
    assert y * (d + 1.0) == y * d + y;
  }

  lemma TimesOver(y: real, c: real)
    requires c > 0.0
    ensures y * c / c == y
  {
  }
}
