/** The three simulated power loops of benchmarks/arm_power.py, for a given random stream: none of
    them ever falls when the treatment is made stronger. */
module SimulatedPower {
  import opened Folds
  import opened Relabelling
  import opened RaisedScores
  import opened ArmPower
  import F = Fisher

  /** 1 for a trial that reaches alpha. */
  function Reached(p: int -> real, alpha: real): int -> real { (t: int) => if p(t) <= alpha then 1.0 else 0.0 }

  /** The share of the trials that hit. */
  function Over(hits: real, trials: nat): real
    requires trials > 0
  {
    hits / trials as real
  }

  /** The share of trials 0..trials that reach alpha. */
  function Share(p: int -> real, trials: nat, alpha: real): real
    requires trials > 0
  {
    Over(SumOver(Ints(0, trials), Reached(p, alpha)), trials)
  }

  /** One more trial, counted when its p reaches alpha. */
  lemma NextHit(p: int -> real, alpha: real, t: nat, hits: int, got: real)
    requires hits as real == SumOver(Ints(0, t), Reached(p, alpha)) && got == p(t)
    ensures (if got <= alpha then hits + 1 else hits) as real == SumOver(Ints(0, t + 1), Reached(p, alpha))
  {
    SumOverNextInt(0, t, Reached(p, alpha));
  }

  /** If no trial's p rises, the power does not fall. */
  lemma ShareMonotone(p': int -> real, p: int -> real, trials: nat, alpha: real)
    requires trials > 0 && forall t :: 0 <= t < trials ==> p'(t) <= p(t)
    ensures Share(p, trials, alpha) <= Share(p', trials, alpha)
  {
    SumOverAtMost(Ints(0, trials), Reached(p, alpha), Reached(p', alpha));
    QuotientOrder(SumOver(Ints(0, trials), Reached(p, alpha)), SumOver(Ints(0, trials), Reached(p', alpha)),
                  trials as real);
  }

  /** Where in the stream trial t starts when every trial reads width numbers. */
  function At(t: nat, width: nat): nat { if t == 0 then 0 else At(t - 1, width) + width }

  lemma AtStart(p: int -> real, alpha: real, width: nat)
    ensures At(0, width) == 0 && SumOver(Ints(0, 0), Reached(p, alpha)) == 0.0
  {
  }

  lemma AtNext(t: nat, width: nat)
    ensures At(t + 1, width) == At(t, width) + width
  {
  }

  lemma {:induction false} AtEarlier(t: nat, trials: nat, width: nat)
    requires t < trials
    ensures At(t, width) + width <= At(trials, width)
    decreases trials - t
  {
    if t + 1 < trials {
      AtEarlier(t + 1, trials, width);
    }
  }

  // ---- power: scores resampled from a corpus ----

  /** Every number a run reads picks one of the corpus's n scores. */
  predicate Choices(pick: nat -> nat, used: nat, n: nat) { forall i :: 0 <= i < used ==> pick(i) < n }

  function Score(scores: seq<real>, pick: nat -> nat, pos: nat): real {
    if pick(pos) < |scores| then scores[pick(pos)] else 0.0
  }

  /** Two control scores, then two treated ones with the effect added. */
  function ScoreBatch(scores: seq<real>, effect: real, pick: nat -> nat, pos: nat): Batch {
    Batch([Score(scores, pick, pos + 2) + effect, Score(scores, pick, pos + 3) + effect],
          [Score(scores, pick, pos), Score(scores, pick, pos + 1)])
  }

  function ScoreBatches(scores: seq<real>, effect: real, pick: nat -> nat, pos: nat, n: nat): (r: seq<Batch>)
    ensures |r| == n
  {
    if n == 0 then []
    else ScoreBatches(scores, effect, pick, pos, n - 1) + [ScoreBatch(scores, effect, pick, pos + 4 * (n - 1))]
  }

  function ScoreP(scores: seq<real>, effect: real, pick: nat -> nat, n: nat, draws: seq<seq<nat>>): int -> real
    requires draws != []
  {
    (t: int) => if t < 0 then 0.0 else PermutationP(ScoreBatches(scores, effect, pick, At(t, 4 * n), n), draws)
  }

  lemma NextScoreBatch(scores: seq<real>, effect: real, pick: nat -> nat, pos: nat, b: nat)
    ensures ScoreBatches(scores, effect, pick, pos, b + 1)
         == ScoreBatches(scores, effect, pick, pos, b) + [ScoreBatch(scores, effect, pick, pos + 4 * b)]
  {
  }

  method OneScoreBatch(scores: seq<real>, effect: real, pick: nat -> nat, pos: nat) returns (b: Batch)
    requires forall i :: pos <= i < pos + 4 ==> pick(i) < |scores|
    ensures b == ScoreBatch(scores, effect, pick, pos)
  {
    var control := [scores[pick(pos)], scores[pick(pos + 1)]];
    var treat := [scores[pick(pos + 2)] + effect, scores[pick(pos + 3)] + effect];
    b := Batch(treat, control);
  }

  /** A trial's batches, each from the four numbers after those of the one before. */
  method ScoreTrial(scores: seq<real>, effect: real, pick: nat -> nat, pos: nat, n: nat) returns (batches: seq<Batch>)
    requires Choices(pick, pos + 4 * n, |scores|)
    ensures batches == ScoreBatches(scores, effect, pick, pos, n)
  {
    batches := [];
    for b := 0 to n
      invariant batches == ScoreBatches(scores, effect, pick, pos, b)
    {
      NextScoreBatch(scores, effect, pick, pos, b);
      var batch := OneScoreBatch(scores, effect, pick, pos + 4 * b);
      batches := batches + [batch];
    }
  }

  lemma ChoicesForTrial(pick: nat -> nat, t: nat, trials: nat, n: nat, size: nat)
    requires t < trials && Choices(pick, At(trials, 4 * n), size)
    ensures Choices(pick, At(t, 4 * n) + 4 * n, size)
  {
    AtEarlier(t, trials, 4 * n);
  }

  /** Trial t's p, the stream read from pos. */
  method OneScoreTrial(scores: seq<real>, effect: real, pick: nat -> nat, pos: nat, n: nat, draws: seq<seq<nat>>,
                       ghost t: nat, ghost p: int -> real)
    returns (got: real)
    requires NullStream(draws, n) && Choices(pick, pos + 4 * n, |scores|)
    requires pos == At(t, 4 * n) && p == ScoreP(scores, effect, pick, n, draws)
    ensures got == p(t)
  {
    var batches := ScoreTrial(scores, effect, pick, pos, n);
    ScoresRaised(scores, effect, effect, pick, pos, n);
    TwosAreFours(batches);
    got := StratifiedP(batches, draws);
  }

  method Power(scores: seq<real>, effect: real, nBatches: nat, trials: nat, alpha: real, pick: nat -> nat,
               draws: seq<seq<nat>>)
    returns (power: real)
    requires trials > 0 && NullStream(draws, nBatches)
    requires Choices(pick, At(trials, 4 * nBatches), |scores|)
    ensures power == Share(ScoreP(scores, effect, pick, nBatches, draws), trials, alpha)
  {
    hide SumOver, Ints, At, PermutationP, ScoreBatches;
    ghost var p := ScoreP(scores, effect, pick, nBatches, draws);
    AtStart(p, alpha, 4 * nBatches);
    var hits, pos := 0, 0;
    for t := 0 to trials
      invariant pos == At(t, 4 * nBatches)
      invariant hits as real == SumOver(Ints(0, t), Reached(p, alpha))
    {
      ChoicesForTrial(pick, t, trials, nBatches, |scores|);
      AtNext(t, 4 * nBatches);
      var got := OneScoreTrial(scores, effect, pick, pos, nBatches, draws, t, p);
      NextHit(p, alpha, t, hits, got);
      if got <= alpha {
        hits := hits + 1;
      }
      pos := pos + 4 * nBatches;
    }
    power := Over(hits as real, trials);
  }

  lemma TwosAreFours(batches: seq<Batch>)
    requires Twos(batches)
    ensures Fours(batches)
  {
    forall i | 0 <= i < |batches|
      ensures batches[i].BothArms() && |batches[i].Pool()| >= 4
    {
      assert |batches[i].treat| == 2 && |batches[i].control| == 2;
    }
  }

  lemma {:induction false} ScoreBatchAt(scores: seq<real>, effect: real, pick: nat -> nat, pos: nat, n: nat, i: nat)
    requires i < n
    ensures ScoreBatches(scores, effect, pick, pos, n)[i] == ScoreBatch(scores, effect, pick, pos + 4 * i)
  {
    if i < n - 1 {
      ScoreBatchAt(scores, effect, pick, pos, n - 1, i);
    }
  }

  lemma ScoresRaised(scores: seq<real>, effect: real, effect': real, pick: nat -> nat, pos: nat, n: nat)
    requires effect <= effect'
    ensures Raised(ScoreBatches(scores, effect', pick, pos, n), ScoreBatches(scores, effect, pick, pos, n))
    ensures Twos(ScoreBatches(scores, effect, pick, pos, n))
  {
    var after, before := ScoreBatches(scores, effect', pick, pos, n), ScoreBatches(scores, effect, pick, pos, n);
    forall i | 0 <= i < n
      ensures RaisedBatch(after[i], before[i]) && |before[i].treat| == 2 && |before[i].control| == 2
    {
      ScoreBatchAt(scores, effect, pick, pos, n, i);
      ScoreBatchAt(scores, effect', pick, pos, n, i);
    }
  }

  /** For one random stream, a larger effect never has less power, exact or sampled. */
  lemma PowerRisesWithEffect(scores: seq<real>, effect: real, effect': real, n: nat, trials: nat, alpha: real,
                             pick: nat -> nat, draws: seq<seq<nat>>)
    requires effect <= effect' && trials > 0 && NullStream(draws, n)
    ensures Share(ScoreP(scores, effect, pick, n, draws), trials, alpha)
      <= Share(ScoreP(scores, effect', pick, n, draws), trials, alpha)
  {
    var p', p := ScoreP(scores, effect', pick, n, draws), ScoreP(scores, effect, pick, n, draws);
    forall t | 0 <= t < trials
      ensures p'(t) <= p(t)
    {
      var at := At(t, 4 * n);
      ScoresRaised(scores, effect, effect', pick, at, n);
      RaisingLowersP(ScoreBatches(scores, effect', pick, at, n), ScoreBatches(scores, effect, pick, at, n), draws);
    }
    ShareMonotone(p', p, trials, alpha);
  }

  // ---- rate_power: a rate per probe ----

  /** How many of the next n numbers of the stream fall below the rate. */
  function CountBelow(u: nat -> real, pos: nat, n: nat, rate: real): (c: nat)
    ensures c <= n
  {
    if n == 0 then 0 else CountBelow(u, pos, n - 1, rate) + if u(pos + n - 1) < rate then 1 else 0
  }

  lemma {:induction false} CountBelowMonotone(u: nat -> real, pos: nat, n: nat, rate: real, rate': real)
    requires rate <= rate'
    ensures CountBelow(u, pos, n, rate) <= CountBelow(u, pos, n, rate')
  {
    if n > 0 {
      CountBelowMonotone(u, pos, n - 1, rate, rate');
    }
  }

  function Rate(u: nat -> real, pos: nat, perProbe: nat, rate: real): real
    requires perProbe > 0
  {
    CountBelow(u, pos, perProbe, rate) as real / perProbe as real
  }

  function RateBatch(u: nat -> real, pos: nat, perProbe: nat, control: real, treat: real): Batch
    requires perProbe > 0
  {
    Batch([Rate(u, pos + 2 * perProbe, perProbe, treat), Rate(u, pos + 3 * perProbe, perProbe, treat)],
          [Rate(u, pos, perProbe, control), Rate(u, pos + perProbe, perProbe, control)])
  }

  function RateBatches(u: nat -> real, pos: nat, perProbe: nat, control: real, treat: real, n: nat): (r: seq<Batch>)
    requires perProbe > 0
    ensures |r| == n
  {
    if n == 0 then []
    else RateBatches(u, pos, perProbe, control, treat, n - 1)
         + [RateBatch(u, pos + At(n - 1, 4 * perProbe), perProbe, control, treat)]
  }

  /** Where trial t starts when each trial is n batches of four probes. */
  function RateAt(t: nat, n: nat, perProbe: nat): nat { At(t, At(n, 4 * perProbe)) }

  function RateP(u: nat -> real, perProbe: nat, control: real, treat: real, n: nat, draws: seq<seq<nat>>): int -> real
    requires perProbe > 0 && draws != []
  {
    (t: int) => if t < 0 then 0.0
      else PermutationP(RateBatches(u, RateAt(t, n, perProbe), perProbe, control, treat, n), draws)
  }

  /** Counts one arm's successes, reading the stream from pos. */
  method CountDraws(u: nat -> real, pos: nat, n: nat, rate: real) returns (c: nat)
    ensures c == CountBelow(u, pos, n, rate)
  {
    c := 0;
    for i := 0 to n
      invariant c == CountBelow(u, pos, i, rate)
    {
      if u(pos + i) < rate {
        c := c + 1;
      }
    }
  }

  method OneRateBatch(u: nat -> real, pos: nat, perProbe: nat, control: real, treat: real) returns (b: Batch)
    requires perProbe > 0
    ensures b == RateBatch(u, pos, perProbe, control, treat)
  {
    var c0 := CountDraws(u, pos, perProbe, control);
    var c1 := CountDraws(u, pos + perProbe, perProbe, control);
    var t0 := CountDraws(u, pos + 2 * perProbe, perProbe, treat);
    var t1 := CountDraws(u, pos + 3 * perProbe, perProbe, treat);
    b := Batch([t0 as real / perProbe as real, t1 as real / perProbe as real],
               [c0 as real / perProbe as real, c1 as real / perProbe as real]);
  }

  lemma NextRateBatch(u: nat -> real, pos: nat, next: nat, perProbe: nat, control: real, treat: real, b: nat)
    requires perProbe > 0 && next == pos + At(b, 4 * perProbe)
    ensures RateBatches(u, pos, perProbe, control, treat, b + 1)
         == RateBatches(u, pos, perProbe, control, treat, b) + [RateBatch(u, next, perProbe, control, treat)]
    ensures next + 4 * perProbe == pos + At(b + 1, 4 * perProbe)
  {
  }

  method RateTrial(u: nat -> real, pos: nat, perProbe: nat, control: real, treat: real, n: nat)
    returns (batches: seq<Batch>, next: nat)
    requires perProbe > 0
    ensures batches == RateBatches(u, pos, perProbe, control, treat, n) && next == pos + At(n, 4 * perProbe)
  {
    batches, next := [], pos;
    for b := 0 to n
      invariant batches == RateBatches(u, pos, perProbe, control, treat, b) && next == pos + At(b, 4 * perProbe)
    {
      NextRateBatch(u, pos, next, perProbe, control, treat, b);
      var batch := OneRateBatch(u, next, perProbe, control, treat);
      batches := batches + [batch];
      next := next + 4 * perProbe;
    }
  }

  /** Trial t's p, and where in the stream the next trial starts. */
  method OneRateTrial(u: nat -> real, pos: nat, perProbe: nat, control: real, treat: real, n: nat, draws: seq<seq<nat>>,
                      ghost t: nat, ghost p: int -> real)
    returns (got: real, next: nat)
    requires perProbe > 0 && NullStream(draws, n)
    requires pos == RateAt(t, n, perProbe) && p == RateP(u, perProbe, control, treat, n, draws)
    ensures got == p(t) && next == pos + At(n, 4 * perProbe)
  {
    var batches;
    batches, next := RateTrial(u, pos, perProbe, control, treat, n);
    RatesRaised(u, pos, perProbe, control, treat, treat, n);
    TwosAreFours(batches);
    got := StratifiedP(batches, draws);
  }

  method RatePower(control: real, treat: real, perProbe: nat, nBatches: nat, trials: nat, alpha: real,
                   u: nat -> real, draws: seq<seq<nat>>)
    returns (power: real)
    requires perProbe > 0 && trials > 0 && NullStream(draws, nBatches)
    ensures power == Share(RateP(u, perProbe, control, treat, nBatches, draws), trials, alpha)
  {
    hide SumOver, Ints, At, PermutationP, RateBatches;
    ghost var p := RateP(u, perProbe, control, treat, nBatches, draws);
    AtStart(p, alpha, At(nBatches, 4 * perProbe));
    var hits, pos := 0, 0;
    for t := 0 to trials
      invariant pos == RateAt(t, nBatches, perProbe)
      invariant hits as real == SumOver(Ints(0, t), Reached(p, alpha))
    {
      var got, next := OneRateTrial(u, pos, perProbe, control, treat, nBatches, draws, t, p);
      AtNext(t, At(nBatches, 4 * perProbe));
      NextHit(p, alpha, t, hits, got);
      if got <= alpha {
        hits := hits + 1;
      }
      pos := next;
    }
    power := Over(hits as real, trials);
  }

  lemma RateRises(u: nat -> real, pos: nat, perProbe: nat, rate: real, rate': real)
    requires perProbe > 0 && rate <= rate'
    ensures Rate(u, pos, perProbe, rate) <= Rate(u, pos, perProbe, rate')
  {
    CountBelowMonotone(u, pos, perProbe, rate, rate');
    QuotientOrder(CountBelow(u, pos, perProbe, rate) as real, CountBelow(u, pos, perProbe, rate') as real,
                  perProbe as real);
  }

  lemma {:induction false} RateBatchAt(u: nat -> real, pos: nat, perProbe: nat, control: real, treat: real, n: nat,
                                       i: nat)
    requires perProbe > 0 && i < n
    ensures RateBatches(u, pos, perProbe, control, treat, n)[i]
         == RateBatch(u, pos + At(i, 4 * perProbe), perProbe, control, treat)
  {
    hide RateBatches, RateBatch, At;
    var m := n - 1;
    NextRateBatch(u, pos, pos + At(m, 4 * perProbe), perProbe, control, treat, m);
    if i < m {
      RateBatchAt(u, pos, perProbe, control, treat, m, i);
    } else {
      assert i == m;
    }
  }

  lemma RatesRaised(u: nat -> real, pos: nat, perProbe: nat, control: real, treat: real, treat': real, n: nat)
    requires perProbe > 0 && treat <= treat'
    ensures Raised(RateBatches(u, pos, perProbe, control, treat', n), RateBatches(u, pos, perProbe, control, treat, n))
    ensures Twos(RateBatches(u, pos, perProbe, control, treat, n))
  {
    hide RateBatches, At, Rate, CountBelow;
    var after, before := RateBatches(u, pos, perProbe, control, treat', n),
      RateBatches(u, pos, perProbe, control, treat, n);
    forall i | 0 <= i < n
      ensures RaisedBatch(after[i], before[i]) && |before[i].treat| == 2 && |before[i].control| == 2
    {
      var at := pos + At(i, 4 * perProbe);
      RateBatchAt(u, pos, perProbe, control, treat, n, i);
      RateBatchAt(u, pos, perProbe, control, treat', n, i);
      RateRises(u, at + 2 * perProbe, perProbe, treat, treat');
      RateRises(u, at + 3 * perProbe, perProbe, treat, treat');
    }
  }

  /** For one random stream, a larger treated rate never has less power. */
  lemma RatePowerRises(u: nat -> real, perProbe: nat, control: real, treat: real, treat': real, n: nat, trials: nat,
                       alpha: real, draws: seq<seq<nat>>)
    requires perProbe > 0 && treat <= treat' && trials > 0 && NullStream(draws, n)
    ensures Share(RateP(u, perProbe, control, treat, n, draws), trials, alpha)
      <= Share(RateP(u, perProbe, control, treat', n, draws), trials, alpha)
  {
    var p', p := RateP(u, perProbe, control, treat', n, draws), RateP(u, perProbe, control, treat, n, draws);
    forall t | 0 <= t < trials
      ensures p'(t) <= p(t)
    {
      var at := RateAt(t, n, perProbe);
      RatesRaised(u, at, perProbe, control, treat, treat', n);
      RaisingLowersP(RateBatches(u, at, perProbe, control, treat', n),
                     RateBatches(u, at, perProbe, control, treat, n), draws);
    }
    ShareMonotone(p', p, trials, alpha);
  }

  // ---- pooled_rate_power: one 2x2 per trial ----

  /** The Fisher p of t and c successes in two arms of one size. */
  function ArmsP(t: nat, c: nat, perArm: nat): real
    requires t <= perArm && c <= perArm
  {
    F.FisherOneSided(t, perArm - t, c, perArm - c)
  }

  /** The Fisher p of the trial that reads the stream from pos: the treated arm first. */
  function PooledTrial(u: nat -> real, pos: nat, perArm: nat, control: real, treat: real): real {
    ArmsP(CountBelow(u, pos, perArm, treat), CountBelow(u, pos + perArm, perArm, control), perArm)
  }

  function PooledP(u: nat -> real, perArm: nat, control: real, treat: real): int -> real {
    (t: int) => if t < 0 then 0.0 else PooledTrial(u, At(t, 2 * perArm), perArm, control, treat)
  }

  /** One trial's p, the stream read from pos. */
  method OnePooledTrial(u: nat -> real, pos: nat, perArm: nat, control: real, treat: real) returns (p: real)
    ensures p == PooledTrial(u, pos, perArm, control, treat)
  {
    var t := CountDraws(u, pos, perArm, treat);
    var c := CountDraws(u, pos + perArm, perArm, control);
    p := ArmsP(t, c, perArm);
  }

  lemma PooledAt(u: nat -> real, perArm: nat, control: real, treat: real, i: nat, pos: nat)
    requires pos == At(i, 2 * perArm)
    ensures PooledP(u, perArm, control, treat)(i) == PooledTrial(u, pos, perArm, control, treat)
  {
  }

  /** Trial i's p. */
  method PooledTrialAt(u: nat -> real, pos: nat, perArm: nat, control: real, treat: real, ghost i: nat,
                       ghost p: int -> real)
    returns (got: real)
    requires pos == At(i, 2 * perArm) && p == PooledP(u, perArm, control, treat)
    ensures got == p(i)
  {
    got := OnePooledTrial(u, pos, perArm, control, treat);
    PooledAt(u, perArm, control, treat, i, pos);
  }

  method PooledRatePower(control: real, treat: real, perArm: nat, trials: nat, alpha: real, u: nat -> real)
    returns (power: real)
    requires trials > 0
    ensures power == Share(PooledP(u, perArm, control, treat), trials, alpha)
  {
    hide SumOver, Ints, At, PooledTrial;
    ghost var p := PooledP(u, perArm, control, treat);
    AtStart(p, alpha, 2 * perArm);
    var hits, pos := 0, 0;
    for i := 0 to trials
      invariant pos == At(i, 2 * perArm)
      invariant hits as real == SumOver(Ints(0, i), Reached(p, alpha))
    {
      AtNext(i, 2 * perArm);
      var got := PooledTrialAt(u, pos, perArm, control, treat, i, p);
      NextHit(p, alpha, i, hits, got);
      if got <= alpha {
        hits := hits + 1;
      }
      pos := pos + 2 * perArm;
    }
    power := Over(hits as real, trials);
  }

  lemma PooledTrialFalls(u: nat -> real, pos: nat, perArm: nat, control: real, treat: real, treat': real)
    requires treat <= treat'
    ensures PooledTrial(u, pos, perArm, control, treat') <= PooledTrial(u, pos, perArm, control, treat)
  {
    CountBelowMonotone(u, pos, perArm, treat, treat');
    F.FisherMonotone(CountBelow(u, pos, perArm, treat), CountBelow(u, pos, perArm, treat'), perArm,
                     CountBelow(u, pos + perArm, perArm, control), perArm);
  }

  /** For one random stream, a larger treated rate never has less pooled power, though the pooled
      table's column margin moves with it. */
  lemma PooledPowerRises(u: nat -> real, perArm: nat, control: real, treat: real, treat': real, trials: nat,
                         alpha: real)
    requires treat <= treat' && trials > 0
    ensures Share(PooledP(u, perArm, control, treat), trials, alpha)
      <= Share(PooledP(u, perArm, control, treat'), trials, alpha)
  {
    var p', p := PooledP(u, perArm, control, treat'), PooledP(u, perArm, control, treat);
    forall t | 0 <= t < trials
      ensures p'(t) <= p(t)
    {
      PooledTrialFalls(u, At(t, 2 * perArm), perArm, control, treat, treat');
    }
    ShareMonotone(p', p, trials, alpha);
  }
}
