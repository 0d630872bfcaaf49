/** What the three simulated power loops read from the random stream, number by number, and the powers that
    follow without a simulation. */
module PowerReadings {
  import opened Folds
  import opened Relabelling
  import opened RaisedScores
  import opened ArmPower
  import opened LeastShare
  import opened SimulatedPower
  import F = Fisher
  import B = Binomials

  lemma {:induction false} AtIsProduct(t: nat, width: nat)
    ensures At(t, width) == t * width
  {
    if t > 0 {
      AtIsProduct(t - 1, width);
      OneFewer(t, width);
    }
  }

  lemma OneFewer(t: nat, width: nat)
    requires t > 0
    ensures (t - 1) * width + width == t * width
  {
  }

  // ---- power: scores resampled from a corpus ----

  /** A larger effect by d is a larger mean difference by d, in every batch. */
  lemma EffectShiftsDiff(scores: seq<real>, effect: real, d: real, pick: nat -> nat, pos: nat, n: nat, i: nat)
    requires i < n
    ensures ScoreBatches(scores, effect + d, pick, pos, n)[i].Diff()
         == ScoreBatches(scores, effect, pick, pos, n)[i].Diff() + d
  {
    ScoreBatchAt(scores, effect, pick, pos, n, i);
    ScoreBatchAt(scores, effect + d, pick, pos, n, i);
    var at := pos + 4 * i;
    var x, y, z, w := Score(scores, pick, at + 2), Score(scores, pick, at + 3), Score(scores, pick, at),
      Score(scores, pick, at + 1);
    PairDiff(x + effect, y + effect, z, w);
    PairDiff(x + (effect + d), y + (effect + d), z, w);
  }

  function Scores(batches: seq<Batch>): seq<real>
  {
    if batches == [] then [] else Scores(batches[..|batches| - 1]) + batches[|batches| - 1].Pool()
  }

  /** The scores that the k stream numbers from pos pick. */
  function PickedScores(scores: seq<real>, pick: nat -> nat, pos: nat, k: nat): seq<real>
    requires Choices(pick, pos + k, |scores|)
  {
    seq(k, j requires 0 <= j < k => scores[pick(pos + j)])
  }

  lemma BatchResamples(scores: seq<real>, pick: nat -> nat, pos: nat)
    requires Choices(pick, pos + 4, |scores|)
    ensures multiset(ScoreBatch(scores, 0.0, pick, pos).Pool()) == multiset(PickedScores(scores, pick, pos, 4))
  {
    var b, p := ScoreBatch(scores, 0.0, pick, pos), PickedScores(scores, pick, pos, 4);
    assert b.Pool() == [p[2], p[3], p[0], p[1]];
    assert p == [p[0], p[1]] + [p[2], p[3]];
    assert b.Pool() == [p[2], p[3]] + [p[0], p[1]];
  }

  lemma ScoresSnoc(front: seq<Batch>, b: Batch)
    ensures Scores(front + [b]) == Scores(front) + b.Pool()
  {
    assert (front + [b])[..|front|] == front;
  }

  lemma PickedSplit(scores: seq<real>, pick: nat -> nat, pos: nat, k: nat, m: nat)
    requires Choices(pick, pos + k + m, |scores|)
    ensures PickedScores(scores, pick, pos, k + m)
         == PickedScores(scores, pick, pos, k) + PickedScores(scores, pick, pos + k, m)
  {
  }

  lemma NothingPicked(scores: seq<real>, pick: nat -> nat, pos: nat)
    requires Choices(pick, pos, |scores|)
    ensures Scores(ScoreBatches(scores, 0.0, pick, pos, 0)) == PickedScores(scores, pick, pos, 0)
  {
  }

  /** Without an effect a trial resamples: its pools hold exactly the scores picked at its own 4n stream positions. */
  lemma {:induction false} NoEffectResamples(scores: seq<real>, pick: nat -> nat, pos: nat, n: nat)
    requires Choices(pick, pos + 4 * n, |scores|)
    ensures multiset(Scores(ScoreBatches(scores, 0.0, pick, pos, n)))
      == multiset(PickedScores(scores, pick, pos, 4 * n))
    decreases n, 0
  {
    hide Scores, ScoreBatches, PickedScores;
    if n > 0 {
      NoEffectNext(scores, pick, pos, n - 1);
    } else {
      NothingPicked(scores, pick, pos);
    }
  }

  lemma {:induction false} NoEffectNext(scores: seq<real>, pick: nat -> nat, pos: nat, m: nat)
    requires Choices(pick, pos + 4 * m + 4, |scores|)
    ensures multiset(Scores(ScoreBatches(scores, 0.0, pick, pos, m + 1)))
      == multiset(PickedScores(scores, pick, pos, 4 * m + 4))
    decreases m, 1
  {
    hide Scores, ScoreBatches, ScoreBatch, PickedScores;
    NoEffectResamples(scores, pick, pos, m);
    BatchResamples(scores, pick, pos + 4 * m);
    NextScoreBatch(scores, 0.0, pick, pos, m);
    ScoresSnoc(ScoreBatches(scores, 0.0, pick, pos, m), ScoreBatch(scores, 0.0, pick, pos + 4 * m));
    PickedSplit(scores, pick, pos, 4 * m, 4);
  }

  /** Of the four numbers that batch b of a trial reads, the first two pick scores below what the other two pick,
      effect added. */
  predicate BatchWins(scores: seq<real>, effect: real, pick: nat -> nat, start: nat, b: nat)
    requires Choices(pick, start + 4 * b + 4, |scores|)
  {
    var pos := start + 4 * b;
    forall i, j :: pos <= i < pos + 2 <= j < pos + 4 ==> scores[pick(i)] < scores[pick(j)] + effect
  }

  lemma ScoreApart(scores: seq<real>, effect: real, pick: nat -> nat, start: nat, b: nat, pos: nat)
    requires Choices(pick, start + 4 * b + 4, |scores|) && pos == start + 4 * b
    ensures Apart(ScoreBatch(scores, effect, pick, pos)) <==> BatchWins(scores, effect, pick, start, b)
  {
    var x := ScoreBatch(scores, effect, pick, pos);
    assert Apart(x) <==> (x.control[0] < x.treat[0] && x.control[0] < x.treat[1]
                          && x.control[1] < x.treat[0] && x.control[1] < x.treat[1]);
    assert x.control[0] == scores[pick(pos)] && x.control[1] == scores[pick(pos + 1)];
    assert x.treat[0] == scores[pick(pos + 2)] + effect && x.treat[1] == scores[pick(pos + 3)] + effect;
  }

  /** Trial t reads the 4n numbers from 4nt on: within the cap its p is 1 in 6^n exactly when every batch wins. */
  lemma LeastScoreP(scores: seq<real>, effect: real, pick: nat -> nat, n: nat, draws: seq<seq<nat>>, t: nat,
                    start: nat, options: nat)
    requires start == t * (4 * n) && Choices(pick, start + 4 * n, |scores|) && draws != []
    requires options == Pow(6, n) <= EXACT_NULL_CAP
    ensures options > 0
    ensures ScoreP(scores, effect, pick, n, draws)(t) == 1.0 / options as real
       <==> forall b: nat :: b < n ==> BatchWins(scores, effect, pick, start, b)
  {
    hide Pow, ExactShare, ScoreBatches, At, Apart, BatchWins;
    AtIsProduct(t, 4 * n);
    ScoresRaised(scores, effect, effect, pick, start, n);
    LeastMeansApart(ScoreBatches(scores, effect, pick, start, n), options);
    ScoresApart(scores, effect, pick, start, n, ScoreBatches(scores, effect, pick, start, n));
  }

  lemma ScoresApart(scores: seq<real>, effect: real, pick: nat -> nat, start: nat, n: nat, batches: seq<Batch>)
    requires Choices(pick, start + 4 * n, |scores|) && batches == ScoreBatches(scores, effect, pick, start, n)
    ensures (forall b :: 0 <= b < |batches| ==> Apart(batches[b]))
       <==> forall b: nat :: b < n ==> BatchWins(scores, effect, pick, start, b)
  {
    hide ScoreBatches, ScoreBatch, Apart, BatchWins;
    forall b: nat | b < n ensures Apart(batches[b]) == BatchWins(scores, effect, pick, start, b) {
      ScoreBatchAt(scores, effect, pick, start, n, b);
      ScoreApart(scores, effect, pick, start, b, start + 4 * b);
    }
    if forall b: nat :: b < n ==> BatchWins(scores, effect, pick, start, b) {
      forall b | 0 <= b < |batches| ensures Apart(batches[b]) {
        assert BatchWins(scores, effect, pick, start, b);
      }
    }
    if forall b :: 0 <= b < |batches| ==> Apart(batches[b]) {
      forall b: nat | b < n ensures BatchWins(scores, effect, pick, start, b) {
        assert Apart(batches[b]);
      }
    }
  }

  /** No two scores of the corpus are as far apart as the effect. */
  predicate BeyondSpread(scores: seq<real>, effect: real) {
    forall i, j :: 0 <= i < |scores| && 0 <= j < |scores| ==> scores[i] - scores[j] < effect
  }

  lemma {:induction false} AllReached(p: int -> real, trials: nat, alpha: real, q: real)
    requires trials > 0 && forall t :: 0 <= t < trials ==> p(t) == q
    ensures Share(p, trials, alpha) == if q <= alpha then 1.0 else 0.0
  {
    var s, f := Ints(0, trials), Reached(p, alpha);
    if q <= alpha {
      Ones(s, f);
      SelfQuotient(trials as real, 1.0);
    } else {
      SumOverZero(s, f);
    }
  }

  lemma {:induction false} Ones<T>(s: seq<T>, f: T -> real)
    requires forall x :: x in s ==> f(x) == 1.0
    ensures SumOver(s, f) == |s| as real
  {
    if s != [] {
      Ones(s[1..], f);
    }
  }

  /** With an effect beyond the corpus's spread every trial is as extreme as it can be: the power is 1 when
      1 in 6^n is significant at alpha, and 0 when it is not. */
  lemma PowerOfLargeEffect(scores: seq<real>, effect: real, pick: nat -> nat, n: nat, draws: seq<seq<nat>>,
                           trials: nat, alpha: real, options: nat)
    requires BeyondSpread(scores, effect) && trials > 0 && draws != []
    requires Choices(pick, trials * (4 * n), |scores|) && options == Pow(6, n) <= EXACT_NULL_CAP
    ensures options > 0
    ensures Share(ScoreP(scores, effect, pick, n, draws), trials, alpha)
         == if 1.0 / options as real <= alpha then 1.0 else 0.0
  {
    hide Share, Pow, ScoreP;
    OptionsPositive(n);
    forall t | 0 <= t < trials ensures ScoreP(scores, effect, pick, n, draws)(t) == 1.0 / options as real {
      Within(t, trials, 4 * n);
      LeastScoreP(scores, effect, pick, n, draws, t, t * (4 * n), options);
    }
    AllReached(ScoreP(scores, effect, pick, n, draws), trials, alpha, 1.0 / options as real);
  }

  lemma {:induction false} OptionsPositive(n: nat)
    ensures Pow(6, n) > 0
  {
    if n > 0 {
      OptionsPositive(n - 1);
    }
  }

  lemma Within(t: nat, trials: nat, width: nat)
    requires t < trials
    ensures t * width + width <= trials * width
  {
    assert (t + 1) * width <= trials * width;
  }

  // ---- rate_power: rates per probe ----

  /** The numbers below the rate among the n from pos on. */
  ghost function Below(u: nat -> real, pos: nat, n: nat, rate: real): set<nat> {
    set j: nat | pos <= j < pos + n && u(j) < rate
  }

  lemma BelowNext(u: nat -> real, pos: nat, n: nat, rate: real)
    ensures |Below(u, pos, n + 1, rate)| == |Below(u, pos, n, rate)| + if u(pos + n) < rate then 1 else 0
  {
    var before, last := Below(u, pos, n, rate), pos + n;
    if u(last) < rate {
      assert Below(u, pos, n + 1, rate) == before + {last};
    } else {
      assert Below(u, pos, n + 1, rate) == before;
    }
  }

  lemma {:induction false} CountIsBelow(u: nat -> real, pos: nat, n: nat, rate: real)
    ensures CountBelow(u, pos, n, rate) == |Below(u, pos, n, rate)|
  {
    if n > 0 {
      CountIsBelow(u, pos, n - 1, rate);
      BelowNext(u, pos, n - 1, rate);
    } else {
      assert Below(u, pos, 0, rate) == {};
    }
  }

  lemma RateOrder(u: nat -> real, v: nat, w: nat, k: nat, x: real, y: real)
    requires k > 0
    ensures Rate(u, v, k, x) < Rate(u, w, k, y) <==> CountBelow(u, v, k, x) < CountBelow(u, w, k, y)
  {
    var c, d := CountBelow(u, v, k, x), CountBelow(u, w, k, y);
    if c < d {
      StrictQuotient(c as real, d as real, k as real);
    } else {
      QuotientOrder(d as real, c as real, k as real);
    }
  }

  /** Of the four probes of batch b, the two control ones succeed less often than the two treated ones. */
  ghost predicate RatesWin(u: nat -> real, start: nat, b: nat, k: nat, control: real, treat: real) {
    var at := start + b * (4 * k);
    && |Below(u, at, k, control)| < |Below(u, at + 2 * k, k, treat)|
    && |Below(u, at, k, control)| < |Below(u, at + 3 * k, k, treat)|
    && |Below(u, at + k, k, control)| < |Below(u, at + 2 * k, k, treat)|
    && |Below(u, at + k, k, control)| < |Below(u, at + 3 * k, k, treat)|
  }

  lemma RatesApart(u: nat -> real, start: nat, b: nat, k: nat, control: real, treat: real, at: nat)
    requires k > 0 && at == start + b * (4 * k)
    ensures Apart(RateBatch(u, at, k, control, treat)) <==> RatesWin(u, start, b, k, control, treat)
  {
    hide Rate, CountBelow, Below;
    var x := RateBatch(u, at, k, control, treat);
    CountIsBelow(u, at, k, control);
    CountIsBelow(u, at + k, k, control);
    CountIsBelow(u, at + 2 * k, k, treat);
    CountIsBelow(u, at + 3 * k, k, treat);
    RateOrder(u, at, at + 2 * k, k, control, treat);
    RateOrder(u, at, at + 3 * k, k, control, treat);
    RateOrder(u, at + k, at + 2 * k, k, control, treat);
    RateOrder(u, at + k, at + 3 * k, k, control, treat);
    assert Apart(x) <==> (x.control[0] < x.treat[0] && x.control[0] < x.treat[1]
                          && x.control[1] < x.treat[0] && x.control[1] < x.treat[1]);
  }

  /** Trial t reads 4kn numbers from 4knt on, batch b of it from 4kb further: within the cap its p is 1 in 6^n
      exactly when in every batch both treated probes succeed more often than both control ones. */
  lemma LeastRateP(u: nat -> real, k: nat, control: real, treat: real, n: nat, draws: seq<seq<nat>>, t: nat, start: nat,
                   options: nat)
    requires k > 0 && draws != [] && start == t * (n * (4 * k)) && options == Pow(6, n) <= EXACT_NULL_CAP
    ensures options > 0
    ensures RateP(u, k, control, treat, n, draws)(t) == 1.0 / options as real
       <==> forall b: nat :: b < n ==> RatesWin(u, start, b, k, control, treat)
  {
    hide Pow, ExactShare, RateBatches, At, Apart, RatesWin;
    AtIsProduct(n, 4 * k);
    AtIsProduct(t, n * (4 * k));
    RatesRaised(u, start, k, control, treat, treat, n);
    LeastMeansApart(RateBatches(u, start, k, control, treat, n), options);
    AllRatesApart(u, start, k, control, treat, n, RateBatches(u, start, k, control, treat, n));
  }

  lemma AllRatesApart(u: nat -> real, start: nat, k: nat, control: real, treat: real, n: nat, batches: seq<Batch>)
    requires k > 0 && batches == RateBatches(u, start, k, control, treat, n)
    ensures (forall b :: 0 <= b < |batches| ==> Apart(batches[b]))
       <==> forall b: nat :: b < n ==> RatesWin(u, start, b, k, control, treat)
  {
    hide RateBatches, RateBatch, At, Apart, RatesWin;
    forall b: nat | b < n ensures Apart(batches[b]) == RatesWin(u, start, b, k, control, treat) {
      AtIsProduct(b, 4 * k);
      RateBatchAt(u, start, k, control, treat, n, b);
      RatesApart(u, start, b, k, control, treat, start + At(b, 4 * k));
    }
    if forall b: nat :: b < n ==> RatesWin(u, start, b, k, control, treat) {
      forall b | 0 <= b < |batches| ensures Apart(batches[b]) {
        assert RatesWin(u, start, b, k, control, treat);
      }
    }
    if forall b :: 0 <= b < |batches| ==> Apart(batches[b]) {
      forall b: nat | b < n ensures RatesWin(u, start, b, k, control, treat) {
        assert Apart(batches[b]);
      }
    }
  }

  lemma RatesLowered(u: nat -> real, pos: nat, k: nat, control: real, control': real, treat: real, n: nat)
    requires k > 0 && control <= control'
    ensures Lowered(RateBatches(u, pos, k, control, treat, n), RateBatches(u, pos, k, control', treat, n))
    ensures Twos(RateBatches(u, pos, k, control', treat, n))
  {
    hide RateBatches, At, Rate, CountBelow;
    var after, before := RateBatches(u, pos, k, control, treat, n), RateBatches(u, pos, k, control', treat, n);
    forall i | 0 <= i < n
      ensures LoweredBatch(after[i], before[i]) && |before[i].treat| == 2 && |before[i].control| == 2
    {
      var at := pos + At(i, 4 * k);
      RateBatchAt(u, pos, k, control, treat, n, i);
      RateBatchAt(u, pos, k, control', treat, n, i);
      RateRises(u, at, k, control, control');
      RateRises(u, at + k, k, control, control');
    }
  }

  /** For one random stream, a larger control rate never has more power. */
  lemma RatePowerFalls(u: nat -> real, k: nat, control: real, control': real, treat: real, n: nat, trials: nat,
                       alpha: real, draws: seq<seq<nat>>)
    requires k > 0 && control <= control' && trials > 0 && NullStream(draws, n)
    ensures Share(RateP(u, k, control', treat, n, draws), trials, alpha)
      <= Share(RateP(u, k, control, treat, n, draws), trials, alpha)
  {
    var p', p := RateP(u, k, control, treat, n, draws), RateP(u, k, control', treat, n, draws);
    forall t | 0 <= t < trials ensures p'(t) <= p(t) {
      var at := RateAt(t, n, k);
      RatesLowered(u, at, k, control, control', treat, n);
      LoweringLowersP(RateBatches(u, at, k, control, treat, n), RateBatches(u, at, k, control', treat, n), draws);
    }
    ShareMonotone(p', p, trials, alpha);
  }

  // ---- pooled_rate_power: one 2x2 per trial ----

  lemma BelowAtMost(u: nat -> real, pos: nat, n: nat, rate: real)
    ensures |Below(u, pos, n, rate)| <= n
  {
    CountIsBelow(u, pos, n, rate);
  }

  /** Trial i's table: the treated successes are the numbers below the treated rate among the first n of its
      2n, the control ones those below the control rate among the other n. */
  lemma PooledTable(u: nat -> real, n: nat, control: real, treat: real, i: nat, pos: nat, t: nat, c: nat)
    requires pos == i * (2 * n) && t == |Below(u, pos, n, treat)| && c == |Below(u, pos + n, n, control)|
    ensures t <= n && c <= n && PooledP(u, n, control, treat)(i) == F.FisherOneSided(t, n - t, c, n - c)
  {
    hide F.FisherOneSided, CountBelow, At, Below;
    AtIsProduct(i, 2 * n);
    CountIsBelow(u, pos, n, treat);
    CountIsBelow(u, pos + n, n, control);
  }

  lemma {:induction false} SameBelow(u: nat -> real, v: nat -> real, p: nat, q: nat, n: nat, rate: real)
    requires forall j: nat :: p <= j < p + n ==> u(j) == v(j - p + q)
    ensures CountBelow(u, p, n, rate) == CountBelow(v, q, n, rate)
  {
    if n > 0 {
      SameBelow(u, v, p, q, n - 1, rate);
    }
  }

  /** Exchanging a trial's two stretches together with the two rates exchanges the rows of its table. */
  lemma StretchesExchange(u: nat -> real, v: nat -> real, pos: nat, n: nat, control: real, treat: real, t: nat, c: nat)
    requires forall j: nat :: pos <= j < pos + n ==> v(j) == u(j + n)
    requires forall j: nat :: pos + n <= j < pos + n + n ==> v(j) == u(j - n)
    requires t == |Below(u, pos, n, treat)| && c == |Below(u, pos + n, n, control)|
    ensures t <= n && c <= n
    ensures PooledTrial(u, pos, n, control, treat) == F.FisherOneSided(t, n - t, c, n - c)
    ensures PooledTrial(v, pos, n, treat, control) == F.FisherOneSided(c, n - c, t, n - t)
  {
    hide F.FisherOneSided, CountBelow, Below;
    CountIsBelow(u, pos, n, treat);
    CountIsBelow(u, pos + n, n, control);
    SameBelow(v, u, pos, pos + n, n, control);
    SameBelow(v, u, pos + n, pos, n, treat);
  }

  lemma {:induction false} AllBelow(u: nat -> real, pos: nat, n: nat, rate: real)
    ensures (forall j: nat :: pos <= j < pos + n ==> u(j) < rate) ==> CountBelow(u, pos, n, rate) == n
    ensures (forall j: nat :: pos <= j < pos + n ==> u(j) >= rate) ==> CountBelow(u, pos, n, rate) == 0
  {
    if n > 0 {
      AllBelow(u, pos, n - 1, rate);
    }
  }

  /** Every treated probe succeeds and no control probe does: the p is 1 in C(2n, n). */
  lemma ExtremeTrial(u: nat -> real, pos: nat, n: nat, control: real, treat: real)
    requires forall j: nat :: pos <= j < pos + n ==> u(j) < treat
    requires forall j: nat :: pos + n <= j < pos + n + n ==> u(j) >= control
    ensures B.Comb(n + n, n) > 0 && PooledTrial(u, pos, n, control, treat) == 1.0 / B.Comb(n + n, n) as real
  {
    hide F.FisherOneSided, B.Comb, CountBelow;
    AllBelow(u, pos, n, treat);
    AllBelow(u, pos + n, n, control);
    F.FisherExtreme(n, n);
  }

  /** For one random stream, a larger control rate never has more pooled power. */
  lemma PooledPowerFalls(u: nat -> real, perArm: nat, control: real, control': real, treat: real, trials: nat,
                         alpha: real)
    requires control <= control' && trials > 0
    ensures Share(PooledP(u, perArm, control', treat), trials, alpha)
      <= Share(PooledP(u, perArm, control, treat), trials, alpha)
  {
    hide PooledTrial, At;
    var p', p := PooledP(u, perArm, control, treat), PooledP(u, perArm, control', treat);
    forall t | 0 <= t < trials ensures p'(t) <= p(t) {
      PooledTrialRises(u, At(t, 2 * perArm), perArm, control, control', treat);
    }
    ShareMonotone(p', p, trials, alpha);
  }

  lemma PooledTrialRises(u: nat -> real, pos: nat, n: nat, control: real, control': real, treat: real)
    requires control <= control'
    ensures PooledTrial(u, pos, n, control, treat) <= PooledTrial(u, pos, n, control', treat)
  {
    hide F.FisherOneSided, CountBelow;
    CountBelowMonotone(u, pos + n, n, control, control');
    F.FisherRisesWithControl(CountBelow(u, pos, n, treat), n, CountBelow(u, pos + n, n, control),
                             CountBelow(u, pos + n, n, control'), n);
  }
}
