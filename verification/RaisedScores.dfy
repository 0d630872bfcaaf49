/** Raising treated scores gains the observed labelling at least as much as any relabelling, so it never
    counts against the treatment. */
module RaisedScores {
  import opened Folds
  import opened Products
  import opened Relabelling
  import opened Shuffles
  import A = ArmReadout

  // ---- one pool ----

  /** b' is b with each treated score raised by something, possibly nothing. */
  predicate RaisedBatch(b': Batch, b: Batch) {
    b'.control == b.control && |b'.treat| == |b.treat| && forall i :: 0 <= i < |b.treat| ==> b'.treat[i] >= b.treat[i]
  }

  predicate Raised(after: seq<Batch>, before: seq<Batch>) {
    |after| == |before| && forall i :: 0 <= i < |before| ==> RaisedBatch(after[i], before[i])
  }

  /** Score by score, p' counts for at least as much when treated and at most as much in control. */
  predicate Raises(p': seq<real>, p: seq<real>, a: real -> real, b: real -> real) {
    |p'| == |p| && forall i :: 0 <= i < |p| ==> a(p[i]) <= a(p'[i]) && b(p'[i]) <= b(p[i])
  }

  lemma PoolRaises(b': Batch, b: Batch, n: nat, m: nat)
    requires RaisedBatch(b', b)
    ensures Raises(b'.Pool(), b.Pool(), Gain(n), Loss(m))
  {
    forall i | 0 <= i < |b.Pool()|
      ensures Gain(n)(b.Pool()[i]) <= Gain(n)(b'.Pool()[i]) && Loss(m)(b'.Pool()[i]) <= Loss(m)(b.Pool()[i])
    {
      var x, y := b.Pool()[i], b'.Pool()[i];
      assert x <= y;
      if n > 0 {
        Ordered(x, y, n as real);
      }
      if m > 0 {
        Ordered(x, y, m as real);
      }
    }
  }

  lemma Ordered(x: real, y: real, d: real)
    requires x <= y && d > 0.0
    ensures x / d <= y / d && -y / d <= -x / d
  {
  }

  /** Scores gain at most what they gain in treatment: a split s' of the raised pool, against s. */
  predicate GainsWithin(s': Batch, s: Batch, p': seq<real>, p: seq<real>, a: real -> real, b: real -> real) {
    Value(s', a, b) - Value(s, a, b) <= SumOver(p', a) - SumOver(p, a)
  }

  lemma DealtWithin(p': seq<real>, p: seq<real>, s': Batch, s: Batch, a: real -> real, b: real -> real)
    requires p != [] && Raises(p', p, a, b) && GainsWithin(s', s, p'[1..], p[1..], a, b)
    ensures GainsWithin(ToTreat(p'[0])(s'), ToTreat(p[0])(s), p', p, a, b)
    ensures GainsWithin(ToControl(p'[0])(s'), ToControl(p[0])(s), p', p, a, b)
  {
    RaisesRest(p', p, a, b);
    DealtGain(p'[0], p[0], s', s, a, b);
  }

  lemma SoonerGain(p': seq<real>, p: seq<real>, k: int, m: nat, a: real -> real, b: real -> real)
    requires p != [] && Raises(p', p, a, b)
    requires m < |Splits(p[1..], k - 1)| == |Splits(p'[1..], k - 1)|
    requires GainsWithin(Splits(p'[1..], k - 1)[m], Splits(p[1..], k - 1)[m], p'[1..], p[1..], a, b)
    ensures m < |Splits(p, k)| && m < |Splits(p', k)| && GainsWithin(Splits(p', k)[m], Splits(p, k)[m], p', p, a, b)
  {
    assert p' == [p'[0]] + p'[1..] && p == [p[0]] + p[1..];
    SplitsSooner(p'[0], p'[1..], k, m);
    SplitsSooner(p[0], p[1..], k, m);
    DealtWithin(p', p, Splits(p'[1..], k - 1)[m], Splits(p[1..], k - 1)[m], a, b);
  }

  lemma LaterGain(p': seq<real>, p: seq<real>, k: int, m: nat, j: nat, a: real -> real, b: real -> real)
    requires p != [] && Raises(p', p, a, b)
    requires j < |Splits(p[1..], k)| == |Splits(p'[1..], k)|
    requires m == |Splits(p[1..], k - 1)| + j == |Splits(p'[1..], k - 1)| + j
    requires GainsWithin(Splits(p'[1..], k)[j], Splits(p[1..], k)[j], p'[1..], p[1..], a, b)
    ensures m < |Splits(p, k)| && m < |Splits(p', k)| && GainsWithin(Splits(p', k)[m], Splits(p, k)[m], p', p, a, b)
  {
    assert p' == [p'[0]] + p'[1..] && p == [p[0]] + p[1..];
    SplitsLater(p'[0], p'[1..], k, m, j);
    SplitsLater(p[0], p[1..], k, m, j);
    DealtWithin(p', p, Splits(p'[1..], k)[j], Splits(p[1..], k)[j], a, b);
  }

  lemma SizeOfSplits(p: seq<real>, k: int)
    requires p != []
    ensures |Splits(p, k)| == |Splits(p[1..], k - 1)| + |Splits(p[1..], k)|
  {
    assert p == [p[0]] + p[1..];
    SplitsSize(p[0], p[1..], k);
  }

  /** No relabelling gains more than every score's treated gain. */
  lemma {:induction false} SplitGain(p': seq<real>, p: seq<real>, k: int, m: nat, a: real -> real, b: real -> real)
    requires Raises(p', p, a, b) && m < |Splits(p, k)|
    ensures m < |Splits(p', k)| && GainsWithin(Splits(p', k)[m], Splits(p, k)[m], p', p, a, b)
  {
    hide Splits, Value, SumOver;
    if p == [] {
      NothingGained(p', k, m, a, b);
    } else {
      SplitsSameCount(p'[1..], p[1..], k - 1);
      SplitsSameCount(p'[1..], p[1..], k);
      SizeOfSplits(p, k);
      RaisesTail(p', p, a, b);
      if m < |Splits(p[1..], k - 1)| {
        SplitGain(p'[1..], p[1..], k - 1, m, a, b);
        SoonerGain(p', p, k, m, a, b);
      } else {
        var j := m - |Splits(p[1..], k - 1)|;
        SplitGain(p'[1..], p[1..], k, j, a, b);
        LaterGain(p', p, k, m, j, a, b);
      }
    }
  }

  lemma NothingGained(p: seq<real>, k: int, m: nat, a: real -> real, b: real -> real)
    requires p == [] && m < |Splits([], k)|
    ensures m < |Splits(p, k)| && GainsWithin(Splits(p, k)[m], Splits([], k)[m], p, [], a, b)
  {
  }

  lemma RaisesTail(p': seq<real>, p: seq<real>, a: real -> real, b: real -> real)
    requires Raises(p', p, a, b) && p != []
    ensures Raises(p'[1..], p[1..], a, b)
  {
  }

  lemma RaisesRest(p': seq<real>, p: seq<real>, a: real -> real, b: real -> real)
    requires Raises(p', p, a, b) && p != []
    ensures Raises(p'[1..], p[1..], a, b) && b(p'[0]) <= b(p[0]) && a(p[0]) <= a(p'[0])
    ensures SumOver(p', a) == a(p'[0]) + SumOver(p'[1..], a) && SumOver(p, a) == a(p[0]) + SumOver(p[1..], a)
  {
  }

  lemma DealtGain(x': real, x: real, s': Batch, s: Batch, a: real -> real, b: real -> real)
    ensures Value(ToTreat(x')(s'), a, b) - Value(ToTreat(x)(s), a, b)
      == a(x') - a(x) + (Value(s', a, b) - Value(s, a, b))
    ensures Value(ToControl(x')(s'), a, b) - Value(ToControl(x)(s), a, b)
      == b(x') - b(x) + (Value(s', a, b) - Value(s, a, b))
  {
    DealtValue(x', s', a, b);
    DealtValue(x, s, a, b);
  }

  lemma {:induction false} SplitsSameCount(p': seq<real>, p: seq<real>, k: int)
    requires |p'| == |p|
    ensures |Splits(p', k)| == |Splits(p, k)|
  {
    if p != [] {
      SplitsSameCount(p'[1..], p[1..], k - 1);
      SplitsSameCount(p'[1..], p[1..], k);
    }
  }

  lemma PoolGain(b': Batch, b: Batch, a: real -> real, l: real -> real)
    requires b'.control == b.control
    ensures SumOver(b'.Pool(), a) - SumOver(b.Pool(), a) == Value(b', a, l) - Value(b, a, l)
  {
    SumOverConcat(b'.treat, b'.control, a);
    SumOverConcat(b.treat, b.control, a);
  }

  /** per' and per list the same numbers of options, and each option of per' gains at most Total(after) -
      Total(before). */
  predicate GainsAtMost(per': seq<seq<Batch>>, per: seq<seq<Batch>>, after: seq<Batch>, before: seq<Batch>)
  {
    |per'| == |per| == |after| == |before|
    && (forall i :: 0 <= i < |per| ==> |per'[i]| == |per[i]|)
    && (forall i, m :: 0 <= i < |per| && 0 <= m < |per[i]| ==>
          per'[i][m].Diff() - per[i][m].Diff() <= after[i].Diff() - before[i].Diff())
  }

  lemma {:induction false} OuterPair(xs: seq<Batch>, ys: seq<Batch>, tx: seq<seq<Batch>>, ty: seq<seq<Batch>>,
                                     m: nat)
    returns (i: nat, j: nat)
    requires |xs| == |ys| && |tx| == |ty| && m < |Outer(xs, tx)|
    ensures |Outer(ys, ty)| == |Outer(xs, tx)| && i < |xs| && j < |tx|
    ensures Outer(xs, tx)[m] == [xs[i]] + tx[j] && Outer(ys, ty)[m] == [ys[i]] + ty[j]
  {
    OuterCount(xs, tx);
    OuterCount(ys, ty);
    if m < |tx| {
      i, j := 0, m;
    } else {
      i, j := OuterPair(xs[1..], ys[1..], tx, ty, m - |tx|);
      i := i + 1;
    }
  }

  lemma TotalCons(s: Batch, t: seq<Batch>)
    ensures Total([s] + t) == s.Diff() + Total(t)
  {
    assert ([s] + t)[1..] == t;
  }

  lemma {:induction false} ProductSameCount(per': seq<seq<Batch>>, per: seq<seq<Batch>>)
    requires |per'| == |per| && forall i :: 0 <= i < |per| ==> |per'[i]| == |per[i]|
    ensures |Product(per')| == |Product(per)|
  {
    if per != [] {
      ProductSameCount(per'[1..], per[1..]);
      OuterCount(per'[0], Product(per'[1..]));
      OuterCount(per[0], Product(per[1..]));
    }
  }

  lemma {:induction false} ProductGain(per': seq<seq<Batch>>, per: seq<seq<Batch>>, after: seq<Batch>,
                                       before: seq<Batch>, m: nat)
    requires GainsAtMost(per', per, after, before) && m < |Product(per)| == |Product(per')|
    ensures Total(Product(per')[m]) - Total(Product(per)[m]) <= Total(after) - Total(before)
    decreases |per|
  {
    if per != [] {
      var tx, ty := Product(per'[1..]), Product(per[1..]);
      ProductSameCount(per'[1..], per[1..]);
      var i, j := OuterPair(per'[0], per[0], tx, ty, m);
      ProductGain(per'[1..], per[1..], after[1..], before[1..], j);
      TotalCons(per'[0][i], tx[j]);
      TotalCons(per[0][i], ty[j]);
      assert per'[0][i].Diff() - per[0][i].Diff() <= after[0].Diff() - before[0].Diff();
    }
  }

  lemma {:induction false} AlignedAtMost<T>(s': seq<T>, s: seq<T>, f': T -> real, f: T -> real)
    requires |s'| == |s| && forall i :: 0 <= i < |s| ==> f'(s'[i]) <= f(s[i])
    ensures SumOver(s', f') <= SumOver(s, f)
  {
    if s != [] {
      AlignedAtMost(s'[1..], s[1..], f', f);
    }
  }

  // ---- the readout's own relabellings, exact ----

  /** Relabelling by relabelling, raising the treated scores gains the observed labelling the most. */
  lemma RelabellingGain(b': Batch, b: Batch, m: nat)
    requires RaisedBatch(b', b) && m < |Relabellings(b)|
    ensures |Relabellings(b')| == |Relabellings(b)|
    ensures Relabellings(b')[m].Diff() - Relabellings(b)[m].Diff() <= b'.Diff() - b.Diff()
  {
    hide Splits, Value, SumOver, Gain, Loss;
    var n1, n2 := |b.treat|, |b.control|;
    SplitsSameCount(b'.Pool(), b.Pool(), n1);
    PoolRaises(b', b, n1, n2);
    SplitGain(b'.Pool(), b.Pool(), n1, m, Gain(n1), Loss(n2));
    PoolGain(b', b, Gain(n1), Loss(n2));
    SplitsShape(b'.Pool(), n1, m);
    SplitsShape(b.Pool(), n1, m);
    DiffIsValue(Relabellings(b')[m]);
    DiffIsValue(Relabellings(b)[m]);
    DiffIsValue(b');
    DiffIsValue(b);
  }

  lemma RelabellingsGain(after: seq<Batch>, before: seq<Batch>)
    requires Raised(after, before)
    ensures GainsAtMost(AllRelabellings(after), AllRelabellings(before), after, before)
  {
    forall i | 0 <= i < |before| ensures |AllRelabellings(after)[i]| == |AllRelabellings(before)[i]| {
      RelabellingsAt(after, i);
      RelabellingsAt(before, i);
      SplitsSameCount(after[i].Pool(), before[i].Pool(), |before[i].treat|);
    }
    forall i, m | 0 <= i < |before| && 0 <= m < |AllRelabellings(before)[i]|
      ensures AllRelabellings(after)[i][m].Diff() - AllRelabellings(before)[i][m].Diff()
        <= after[i].Diff() - before[i].Diff()
    {
      RelabellingsAt(after, i);
      RelabellingsAt(before, i);
      RelabellingGain(after[i], before[i], m);
    }
  }

  /** Better for the treatment: in favour of it the count never rises, against it it never falls. */
  lemma RaisedTails(after: seq<Batch>, before: seq<Batch>)
    requires Raised(after, before)
    ensures |Arrangements(after)| == |Arrangements(before)|
    ensures A.AtLeastAsExtreme(after, true) <= A.AtLeastAsExtreme(before, true)
    ensures A.AtLeastAsExtreme(before, false) <= A.AtLeastAsExtreme(after, false)
  {
    var per', per := AllRelabellings(after), AllRelabellings(before);
    RelabellingsGain(after, before);
    ProductSameCount(per', per);
    forall m | 0 <= m < |Product(per)|
      ensures A.At(true, after)(Product(per')[m]) <= A.At(true, before)(Product(per)[m])
      ensures A.At(false, before)(Product(per)[m]) <= A.At(false, after)(Product(per')[m])
    {
      ProductGain(per', per, after, before, m);
    }
    AlignedAtMost(Product(per'), Product(per), A.At(true, after), A.At(true, before));
    AlignedAtMost(Product(per), Product(per'), A.At(false, before), A.At(false, after));
  }

  lemma RaisedExactP(after: seq<Batch>, before: seq<Batch>)
    requires Raised(after, before)
    ensures A.ExactP(after, true) <= A.ExactP(before, true)
    ensures A.ExactP(before, false) <= A.ExactP(after, false)
  {
    RaisedTails(after, before);
    ObservedArrangement(before);
    var d := |Arrangements(before)| as real;
    QuotientOrder(A.AtLeastAsExtreme(after, true), A.AtLeastAsExtreme(before, true), d);
    QuotientOrder(A.AtLeastAsExtreme(before, false), A.AtLeastAsExtreme(after, false), d);
  }

  // ---- the same shuffles, dealt to the raised scores ----

  lemma {:induction false} ShuffledKeeps(xs: seq<real>, cs: seq<nat>)
    ensures multiset(Shuffled(xs, cs)) == multiset(xs)
    decreases |xs|
  {
    if |xs| > 1 && cs != [] && cs[0] < |xs| {
      var j := cs[0];
      assert cs == [j] + cs[1..];
      ShuffledStep(xs, j, cs[1..]);
      ShuffledKeeps(Rest(xs, j), cs[1..]);
      RestIsWithout(xs, j);
      WithoutMultiset(xs, j);
    }
  }

  lemma {:induction false} ShuffledRaises(p': seq<real>, p: seq<real>, cs: seq<nat>, a: real -> real, b: real -> real)
    requires Raises(p', p, a, b)
    ensures Raises(Shuffled(p', cs), Shuffled(p, cs), a, b)
    decreases |p|
  {
    if |p| > 1 && cs != [] && cs[0] < |p| {
      var j := cs[0];
      assert cs == [j] + cs[1..];
      ShuffledStep(p', j, cs[1..]);
      ShuffledStep(p, j, cs[1..]);
      ShuffledRaises(Rest(p', j), Rest(p, j), cs[1..], a, b);
    }
  }

  lemma {:induction false} RaisesSums(p': seq<real>, p: seq<real>, a: real -> real, b: real -> real)
    requires Raises(p', p, a, b)
    ensures SumOver(p, a) <= SumOver(p', a) && SumOver(p', b) <= SumOver(p, b)
  {
    if p != [] {
      RaisesRest(p', p, a, b);
      RaisesSums(p'[1..], p[1..], a, b);
    }
  }

  /** However the raised pool is shuffled and cut, it gains at most every score's treated gain. */
  lemma CutGain(p': seq<real>, p: seq<real>, k: nat, cs: seq<nat>, a: real -> real, b: real -> real)
    requires Raises(p', p, a, b) && k <= |p|
    ensures GainsWithin(Cut(Shuffled(p', cs), k), Cut(Shuffled(p, cs), k), p', p, a, b)
  {
    var q', q := Shuffled(p', cs), Shuffled(p, cs);
    ShuffledRaises(p', p, cs, a, b);
    ShuffledKeeps(p', cs);
    ShuffledKeeps(p, cs);
    SumOverReordered(q', p', a);
    SumOverReordered(q, p, a);
    CutSums(q', k, a);
    CutSums(q, k, a);
    RaisesSums(q'[k..], q[k..], a, b);
  }

  lemma CutSums(q: seq<real>, k: nat, a: real -> real)
    requires k <= |q|
    ensures SumOver(q, a) == SumOver(q[..k], a) + SumOver(q[k..], a)
  {
    assert q == q[..k] + q[k..];
    SumOverConcat(q[..k], q[k..], a);
  }

  lemma DrawnBatchGain(b': Batch, b: Batch, cs: seq<nat>)
    requires RaisedBatch(b', b)
    ensures Cut(Shuffled(b'.Pool(), cs), |b.treat|).Diff() - Cut(Shuffled(b.Pool(), cs), |b.treat|).Diff()
         <= b'.Diff() - b.Diff()
  {
    hide Shuffled, Value, SumOver, Gain, Loss;
    var n1, n2 := |b.treat|, |b.control|;
    PoolRaises(b', b, n1, n2);
    CutGain(b'.Pool(), b.Pool(), n1, cs, Gain(n1), Loss(n2));
    PoolGain(b', b, Gain(n1), Loss(n2));
    DiffIsValue(Cut(Shuffled(b'.Pool(), cs), n1));
    DiffIsValue(Cut(Shuffled(b.Pool(), cs), n1));
    DiffIsValue(b');
    DiffIsValue(b);
  }

  lemma {:induction false} DrawnGain(after: seq<Batch>, before: seq<Batch>, draw: seq<seq<nat>>)
    requires Raised(after, before) && |draw| == |before|
    ensures Total(A.Drawn(after, draw)) - Total(A.Drawn(before, draw)) <= Total(after) - Total(before)
    decreases |before|
  {
    if before != [] {
      DrawnGain(after[1..], before[1..], draw[1..]);
      DrawnBatchGain(after[0], before[0], draw[0]);
      TotalCons(A.Drawn(after, draw)[0], A.Drawn(after[1..], draw[1..]));
      TotalCons(A.Drawn(before, draw)[0], A.Drawn(before[1..], draw[1..]));
    }
  }

  lemma RaisedHits(after: seq<Batch>, before: seq<Batch>, stream: seq<seq<seq<nat>>>)
    requires Raised(after, before)
    ensures A.Hits(after, true, stream) <= A.Hits(before, true, stream)
    ensures A.Hits(before, false, stream) <= A.Hits(after, false, stream)
  {
    forall d | d in stream
      ensures A.DrawnTotal(after, A.Extreme(true, Total(after)))(d)
        <= A.DrawnTotal(before, A.Extreme(true, Total(before)))(d)
      ensures A.DrawnTotal(before, A.Extreme(false, Total(before)))(d)
        <= A.DrawnTotal(after, A.Extreme(false, Total(after)))(d)
    {
      if |d| == |before| {
        DrawnGain(after, before, d);
      }
    }
    SumOverAtMost(stream, A.DrawnTotal(after, A.Extreme(true, Total(after))),
                  A.DrawnTotal(before, A.Extreme(true, Total(before))));
    SumOverAtMost(stream, A.DrawnTotal(before, A.Extreme(false, Total(before))),
                  A.DrawnTotal(after, A.Extreme(false, Total(after))));
  }

  /** Raising treated scores, in batches of any shapes, never raises arm_readout's p for the treatment and never
      lowers its p against it, enumerated or sampled with the same shuffles. */
  lemma RaisedReadout(after: seq<Batch>, before: seq<Batch>, stream: seq<seq<seq<nat>>>)
    requires Raised(after, before)
    ensures A.DetailP(after, true, stream) <= A.DetailP(before, true, stream)
    ensures A.DetailP(before, false, stream) <= A.DetailP(after, false, stream)
  {
    RaisedTails(after, before);
    RaisedExactP(after, before);
    RaisedHits(after, before, stream);
    var n := (|stream| + 1) as real;
    QuotientOrder(A.Hits(after, true, stream) + 1.0, A.Hits(before, true, stream) + 1.0, n);
    QuotientOrder(A.Hits(before, false, stream) + 1.0, A.Hits(after, false, stream) + 1.0, n);
  }
}
