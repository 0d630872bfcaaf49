/** benchmarks/check_money.py against benchmarks/meter/proxy.py: a reader that sums the span files and
    then reads the meter's counter, while the meter charges calls and the engine writes their spans. */
module MoneyRace {
  import opened Wrappers
  import opened Folds

  /** What a call costs, the span file it will be written to, and whether its answer is streamed. */
  datatype Stand = Stand(cost: nat -> real, home: nat -> nat, streamed: nat -> bool)

  datatype Reader =
    | Idle
    | Scanning(todo: seq<nat>, pos: nat)   // span files still to read, lines of the first one read
    | ReadLedger                           // spans done, meter.jsonl next
    | ReadCounter                          // /healthz next
    | Done

  /** charged: the calls the meter has recorded, in order: its counter and its ledger.
      written: each span file's calls, in order. read: the calls whose spans the reader summed.
      ledger, counted: what was charged when the reader took the ledger and the counter. */
  datatype State = State(charged: seq<nat>, written: map<nat, seq<nat>>, reader: Reader,
                         read: seq<nat>, ledger: seq<nat>, counted: seq<nat>)

  function Lines(s: State, f: nat): seq<nat> { if f in s.written then s.written[f] else [] }

  predicate Init(s: State) { s == State([], map[], Idle, [], [], []) }

  /** The meter records a finished call: counter and ledger row together, under its lock. */
  predicate Charge(s: State, s': State, c: nat) {
    c !in s.charged && s' == s.(charged := s.charged + [c])
  }

  /** The meter charges a buffered call before it answers, and a streamed one after the last chunk has
      gone out; so the engine may hold, and write down, a streamed answer that is not charged yet. */
  predicate Answered(stand: Stand, s: State, c: nat) { c in s.charged || stand.streamed(c) }

  /** The engine appends an answered call's span to its file. */
  predicate Write(stand: Stand, s: State, s': State, c: nat) {
    var f := stand.home(c);
    Answered(stand, s, c) && c !in Lines(s, f) && s' == s.(written := s.written[f := Lines(s, f) + [c]])
  }

  /** The glob is taken once; a file that appears later is not in it. */
  predicate Glob(s: State, s': State, files: seq<nat>, from: Reader) {
    s.reader == from && Distinct(files) && s' == s.(reader := Scanning(files, 0))
  }

  /** One line summed, or skipped because it did not parse. */
  predicate ReadSpan(s: State, s': State) {
    s.reader.Scanning? && s.reader.todo != []
    && var r := s.reader; var lines := Lines(s, r.todo[0]);
    r.pos < |lines|
    && (s' == s.(reader := r.(pos := r.pos + 1), read := s.read + [lines[r.pos]])
        || s' == s.(reader := r.(pos := r.pos + 1)))
  }

  predicate NextFile(s: State, s': State) {
    s.reader.Scanning? && s.reader.todo != [] && s.reader.pos >= |Lines(s, s.reader.todo[0])|
    && s' == s.(reader := Scanning(s.reader.todo[1..], 0))
  }

  predicate EndScan(s: State, s': State, to: Reader) {
    s.reader.Scanning? && s.reader.todo == [] && s' == s.(reader := to)
  }

  predicate TakeLedger(s: State, s': State) {
    s.reader.ReadLedger? && s' == s.(reader := ReadCounter, ledger := s.charged)
  }

  predicate TakeCounter(s: State, s': State, from: Reader, to: Reader) {
    s.reader == from && s' == s.(reader := to, counted := s.charged)
  }

  /** The order the source prescribes: spans, ledger, counter. */
  ghost predicate SpansFirst(stand: Stand, s: State, s': State) {
    || (exists c :: Charge(s, s', c))
    || (exists c :: Write(stand, s, s', c))
    || (exists files :: Glob(s, s', files, Idle))
    || ReadSpan(s, s')
    || NextFile(s, s')
    || EndScan(s, s', ReadLedger)
    || TakeLedger(s, s')
    || TakeCounter(s, s', ReadCounter, Done)
  }

  /** The order it replaced: counter, then spans. */
  ghost predicate CounterFirst(stand: Stand, s: State, s': State) {
    || (exists c :: Charge(s, s', c))
    || (exists c :: Write(stand, s, s', c))
    || TakeCounter(s, s', Idle, ReadCounter)
    || (exists files :: Glob(s, s', files, ReadCounter))
    || ReadSpan(s, s')
    || NextFile(s, s')
    || EndScan(s, s', Done)
  }

  ghost predicate Run(stand: Stand, run: seq<State>) {
    run != [] && Init(run[0]) && forall i :: 0 <= i < |run| - 1 ==> SpansFirst(stand, run[i], run[i + 1])
  }

  function Last(run: seq<State>): State
    requires run != []
  {
    run[|run| - 1]
  }

  /** The calls of xs that are missing from ys. */
  function Missing(xs: seq<nat>, ys: seq<nat>): seq<nat>
  {
    if xs == [] then [] else (if xs[0] in ys then [] else [xs[0]]) + Missing(xs[1..], ys)
  }

  // ---- what every step keeps ----

  predicate Subset(xs: seq<nat>, ys: seq<nat>) { forall i :: 0 <= i < |xs| ==> xs[i] in ys }

  /** Every span on disk is of an answered call, in its own file. */
  predicate SpansAreAnswered(stand: Stand, s: State) {
    forall f, i :: f in s.written && 0 <= i < |s.written[f]| ==>
      Answered(stand, s, s.written[f][i]) && stand.home(s.written[f][i]) == f
  }

  predicate SpansOnce(s: State) { forall f :: f in s.written ==> Distinct(s.written[f]) }

  predicate ReadOnDisk(stand: Stand, s: State) {
    forall i :: 0 <= i < |s.read| ==> s.read[i] in Lines(s, stand.home(s.read[i]))
  }

  /** A read call's file is behind the reader, or it is above the reader's line in the current file. */
  predicate ReadBehind(stand: Stand, s: State) {
    forall i :: 0 <= i < |s.read| ==>
      var f := stand.home(s.read[i]);
      s.reader.Scanning? ==>
        (f in s.reader.todo ==>
          f == s.reader.todo[0]
          && s.read[i] in Lines(s, f)[..if s.reader.pos <= |Lines(s, f)| then s.reader.pos else 0])
  }

  /** Each of xs is in ys or streamed. */
  predicate Due(stand: Stand, xs: seq<nat>, ys: seq<nat>) {
    forall i :: 0 <= i < |xs| ==> xs[i] in ys || stand.streamed(xs[i])
  }

  predicate ReaderOk(stand: Stand, s: State) {
    && (s.reader.Idle? ==> s.read == [])
    && (s.reader.Scanning? ==>
      Distinct(s.reader.todo) && (s.reader.todo != [] ==> s.reader.pos <= |Lines(s, s.reader.todo[0])|))
    && (s.reader.ReadCounter? || s.reader.Done? ==> Due(stand, s.read, s.ledger))
    && (s.reader.Done? ==> Subset(s.ledger, s.counted))
  }

  ghost predicate Inv(stand: Stand, s: State) {
    && Distinct(s.charged) && Distinct(s.read) && Distinct(s.ledger) && Distinct(s.counted)
    && Due(stand, s.read, s.charged)
    && SpansAreAnswered(stand, s) && SpansOnce(s) && ReadOnDisk(stand, s)
    && ReadBehind(stand, s) && ReaderOk(stand, s)
    && Subset(s.ledger, s.charged)
  }

  lemma ChargeKeeps(stand: Stand, s: State, s': State, c: nat)
    requires Inv(stand, s) && Charge(s, s', c)
    ensures Inv(stand, s')
  {
  }

  lemma WriteKeeps(stand: Stand, s: State, s': State, c: nat)
    requires Inv(stand, s) && Write(stand, s, s', c)
    ensures Inv(stand, s')
  {
    assert forall g :: Lines(s, g) <= Lines(s', g);
    forall i | 0 <= i < |s.read| && s.reader.Scanning? && stand.home(s.read[i]) in s.reader.todo
      ensures s.read[i] in Lines(s', stand.home(s.read[i]))[..s.reader.pos]
    {
      var g := stand.home(s.read[i]);
      assert Lines(s', g)[..s.reader.pos] == Lines(s, g)[..s.reader.pos];
    }
  }

  lemma ReadSpanKeeps(stand: Stand, s: State, s': State)
    requires Inv(stand, s) && ReadSpan(s, s')
    ensures Inv(stand, s')
  {
    var pos, f := s.reader.pos, s.reader.todo[0];
    var lines := Lines(s, f);
    var c := lines[pos];
    assert lines[..pos + 1] == lines[..pos] + [c];
    assert lines == s.written[f] && stand.home(c) == f;
    assert c !in lines[..pos];
    assert c !in s.read;
  }

  lemma ScanKeeps(stand: Stand, s: State, s': State)
    requires Inv(stand, s) && (NextFile(s, s') || EndScan(s, s', ReadLedger))
    ensures Inv(stand, s')
  {
  }

  lemma StartKeeps(stand: Stand, s: State, s': State, files: seq<nat>)
    requires Inv(stand, s) && Glob(s, s', files, Idle)
    ensures Inv(stand, s')
  {
  }

  lemma TakeKeeps(stand: Stand, s: State, s': State)
    requires Inv(stand, s) && (TakeLedger(s, s') || TakeCounter(s, s', ReadCounter, Done))
    ensures Inv(stand, s')
  {
  }

  lemma StepKeeps(stand: Stand, s: State, s': State)
    requires Inv(stand, s) && SpansFirst(stand, s, s')
    ensures Inv(stand, s')
  {
    if c :| Charge(s, s', c) {
      ChargeKeeps(stand, s, s', c);
    } else if c :| Write(stand, s, s', c) {
      WriteKeeps(stand, s, s', c);
    } else if files :| Glob(s, s', files, Idle) {
      StartKeeps(stand, s, s', files);
    } else if ReadSpan(s, s') {
      ReadSpanKeeps(stand, s, s');
    } else if NextFile(s, s') || EndScan(s, s', ReadLedger) {
      ScanKeeps(stand, s, s');
    } else {
      TakeKeeps(stand, s, s');
    }
  }

  lemma {:induction false} RunKeeps(stand: Stand, run: seq<State>, i: nat)
    requires Run(stand, run) && i < |run|
    ensures Inv(stand, run[i])
  {
    if i > 0 {
      RunKeeps(stand, run, i - 1);
      assert SpansFirst(stand, run[i - 1], run[i - 1 + 1]);
      StepKeeps(stand, run[i - 1], run[i]);
    }
  }

  // ---- the gap ----

  lemma {:induction false} DistinctCounts(xs: seq<nat>, c: nat)
    requires Distinct(xs)
    ensures multiset(xs)[c] == if c in xs then 1 else 0
  {
    if xs != [] {
      assert xs == [xs[0]] + xs[1..];
      DistinctCounts(xs[1..], c);
    }
  }

  lemma {:induction false} MissingCounts(xs: seq<nat>, ys: seq<nat>, c: nat)
    ensures multiset(Missing(xs, ys))[c] == if c in ys then 0 else multiset(xs)[c]
  {
    if xs != [] {
      assert xs == [xs[0]] + xs[1..];
      MissingCounts(xs[1..], ys, c);
    }
  }

  lemma MissingHas(xs: seq<nat>, ys: seq<nat>, c: nat)
    requires c in Missing(xs, ys)
    ensures c in xs && c !in ys
  {
    MissingCounts(xs, ys, c);
    assert multiset(Missing(xs, ys))[c] > 0;
    assert c in multiset(xs);
  }

  lemma {:induction false} Nonnegative(xs: seq<nat>, w: nat -> real)
    requires forall c :: w(c) >= 0.0
    ensures SumOver(xs, w) >= 0.0
  {
    if xs != [] {
      Nonnegative(xs[1..], w);
    }
  }

  /** Two lists of calls differ by what each has and the other misses. */
  lemma Difference(xs: seq<nat>, ys: seq<nat>, w: nat -> real)
    requires Distinct(xs) && Distinct(ys)
    ensures SumOver(xs, w) - SumOver(ys, w) == SumOver(Missing(xs, ys), w) - SumOver(Missing(ys, xs), w)
  {
    var left: seq<nat>, right: seq<nat> := xs + Missing(ys, xs), ys + Missing(xs, ys);
    forall c: nat
      ensures multiset(left)[c] == multiset(right)[c]
    {
      DistinctCounts(xs, c);
      DistinctCounts(ys, c);
      MissingCounts(xs, ys, c);
      MissingCounts(ys, xs, c);
    }
    SumOverReordered(left, right, w);
    SumOverConcat(xs, Missing(ys, xs), w);
    SumOverConcat(ys, Missing(xs, ys), w);
  }

  function Gap(stand: Stand, s: State): real { SumOver(s.counted, stand.cost) - SumOver(s.read, stand.cost) }

  /** Whatever the interleaving, once the counter is read the gap is the cost of the charged calls whose
      spans were not read, less the cost of the read calls that were not charged yet; the latter are streamed. */
  lemma GapIsUnreadLessEarly(stand: Stand, run: seq<State>, i: nat)
    requires Run(stand, run) && i < |run| && run[i].reader.Done?
    ensures var s := run[i];
      && Gap(stand, s) == SumOver(Missing(s.counted, s.read), stand.cost)
        - SumOver(Missing(s.read, s.counted), stand.cost)
      && forall c :: c in Missing(s.read, s.counted) ==> stand.streamed(c)
  {
    var s := run[i];
    RunKeeps(stand, run, i);
    Difference(s.counted, s.read, stand.cost);
    forall c | c in Missing(s.read, s.counted) ensures stand.streamed(c) {
      MissingHas(s.read, s.counted, c);
    }
  }

  /** The cost of the calls written to some set of span files: of one probe's runs, say. */
  function CostAt(stand: Stand, files: set<nat>): nat -> real {
    (c: nat) => if stand.home(c) in files then stand.cost(c) else 0.0
  }

  /** The same holds between ledger and spans for any set of span files, so for every probe; and the
      counter has at least the ledger's money. */
  lemma ArmGapIsUnreadLessEarly(stand: Stand, run: seq<State>, i: nat, files: set<nat>)
    requires (forall c :: stand.cost(c) >= 0.0) && Run(stand, run) && i < |run| && run[i].reader.Done?
    ensures var s, w := run[i], CostAt(stand, files);
      && SumOver(s.ledger, w) - SumOver(s.read, w)
        == SumOver(Missing(s.ledger, s.read), w) - SumOver(Missing(s.read, s.ledger), w)
      && forall c :: c in Missing(s.read, s.ledger) ==> stand.streamed(c)
    ensures SumOver(run[i].counted, stand.cost) - SumOver(run[i].ledger, stand.cost)
         == SumOver(Missing(run[i].counted, run[i].ledger), stand.cost) >= 0.0
  {
    var s := run[i];
    RunKeeps(stand, run, i);
    Difference(s.ledger, s.read, CostAt(stand, files));
    forall c | c in Missing(s.read, s.ledger) ensures stand.streamed(c) {
      MissingHas(s.read, s.ledger, c);
    }
    Difference(s.counted, s.ledger, stand.cost);
    NothingMissing(s.ledger, s.counted);
    Nonnegative(Missing(s.counted, s.ledger), stand.cost);
  }

  lemma {:induction false} NothingMissing(xs: seq<nat>, ys: seq<nat>)
    requires Subset(xs, ys)
    ensures Missing(xs, ys) == []
  {
    if xs != [] {
      NothingMissing(xs[1..], ys);
    }
  }

  // ---- every outcome the guard allows does happen ----

  lemma Then(stand: Stand, run: seq<State>, s: State)
    requires Run(stand, run) && SpansFirst(stand, Last(run), s)
    ensures Run(stand, run + [s]) && Last(run + [s]) == s
  {
    var longer := run + [s];
    forall i | 0 <= i < |longer| - 1 ensures SpansFirst(stand, longer[i], longer[i + 1]) {
      assert i < |run| - 1 ==> SpansFirst(stand, run[i], run[i + 1]);
    }
  }

  lemma {:induction false} ChargeAll(stand: Stand, xs: seq<nat>) returns (run: seq<State>)
    requires Distinct(xs)
    ensures Run(stand, run) && Last(run) == State(xs, map[], Idle, [], [], [])
  {
    if xs == [] {
      run := [State([], map[], Idle, [], [], [])];
    } else {
      var front, c := xs[..|xs| - 1], xs[|xs| - 1];
      run := ChargeAll(stand, front);
      assert front + [c] == xs;
      assert Charge(Last(run), State(xs, map[], Idle, [], [], []), c);
      Then(stand, run, State(xs, map[], Idle, [], [], []));
      run := run + [State(xs, map[], Idle, [], [], [])];
    }
  }

  /** The calls of xs, and no others, are on disk. */
  ghost predicate OnDisk(stand: Stand, s: State, xs: seq<nat>) {
    forall c: nat :: c in Lines(s, stand.home(c)) <==> c in xs
  }

  lemma {:induction false} WriteAll(stand: Stand, start: seq<State>, xs: seq<nat>) returns (run: seq<State>)
    requires Run(stand, start) && Distinct(xs) && Last(start).written == map[]
    requires Due(stand, xs, Last(start).charged)
    ensures Run(stand, run) && OnDisk(stand, Last(run), xs)
    ensures Last(run) == Last(start).(written := Last(run).written)
  {
    if xs == [] {
      run := start;
    } else {
      var front, c := xs[..|xs| - 1], xs[|xs| - 1];
      run := WriteAll(stand, start, front);
      var s, f := Last(run), stand.home(c);
      assert xs == front + [c];
      var t := s.(written := s.written[f := Lines(s, f) + [c]]);
      assert Write(stand, s, t, c);
      Then(stand, run, t);
      run := run + [t];
    }
  }

  /** What is on disk is read, or still ahead of the reader. */
  ghost predicate Ahead(stand: Stand, s: State)
    requires s.reader.Scanning?
  {
    forall c: nat :: c in Lines(s, stand.home(c)) ==>
      c in s.read || (stand.home(c) in s.reader.todo
                      && (stand.home(c) == s.reader.todo[0] && s.reader.pos <= |Lines(s, stand.home(c))|
                          ==> c in Lines(s, stand.home(c))[s.reader.pos..]))
  }

  lemma AheadAfterLine(stand: Stand, s: State, t: State)
    requires Inv(stand, s) && s.reader.Scanning? && s.reader.todo != [] && Ahead(stand, s)
    requires var r, lines := s.reader, Lines(s, s.reader.todo[0]);
      r.pos < |lines| && t == s.(reader := r.(pos := r.pos + 1), read := s.read + [lines[r.pos]])
    ensures Ahead(stand, t)
  {
    var lines := Lines(s, s.reader.todo[0]);
    assert lines[s.reader.pos..] == [lines[s.reader.pos]] + lines[s.reader.pos + 1..];
  }

  lemma ScanAll(stand: Stand, start: seq<State>) returns (run: seq<State>)
    requires Run(stand, start) && Last(start).reader.Scanning? && Ahead(stand, Last(start))
    ensures Run(stand, run) && Last(run).reader.Scanning? && Last(run).reader.todo == []
    ensures Last(run) == Last(start).(reader := Last(run).reader, read := Last(run).read)
    ensures forall c: nat :: c in Lines(Last(run), stand.home(c)) ==> c in Last(run).read
    decreases |Last(start).reader.todo|,
      if Last(start).reader.todo == [] then Last(start).reader.pos
      else |Lines(Last(start), Last(start).reader.todo[0])| - Last(start).reader.pos
  {
    var s := Last(start);
    RunKeeps(stand, start, |start| - 1);
    var r := s.reader;
    if r.todo == [] {
      run := start;
    } else if r.pos < |Lines(s, r.todo[0])| {
      var t := s.(reader := r.(pos := r.pos + 1), read := s.read + [Lines(s, r.todo[0])[r.pos]]);
      assert ReadSpan(s, t);
      AheadAfterLine(stand, s, t);
      Then(stand, start, t);
      run := ScanAll(stand, start + [t]);
    } else {
      var t := s.(reader := Scanning(r.todo[1..], 0));
      assert NextFile(s, t);
      Then(stand, start, t);
      run := ScanAll(stand, start + [t]);
    }
  }

  lemma {:induction false} Listed(files: set<nat>) returns (xs: seq<nat>)
    ensures Distinct(xs) && forall f :: f in xs <==> f in files
    decreases |files|
  {
    if files == {} {
      xs := [];
    } else {
      var f :| f in files;
      var rest := Listed(files - {f});
      xs := [f] + rest;
    }
  }

  /** Glob every file, read every span, then the ledger, then the counter. */
  lemma ReadAll(stand: Stand, start: seq<State>) returns (run: seq<State>)
    requires Run(stand, start) && Last(start).reader.Idle?
    ensures Run(stand, run) && Last(run).reader.Done? && Last(run).counted == Last(start).charged
    ensures Distinct(Last(run).read)
    ensures forall c: nat :: c in Last(run).read <==> c in Lines(Last(start), stand.home(c))
  {
    var s := Last(start);
    RunKeeps(stand, start, |start| - 1);
    var files := Listed(s.written.Keys);
    var t := s.(reader := Scanning(files, 0));
    assert Glob(s, t, files, Idle);
    Then(stand, start, t);
    run := ScanAll(stand, start + [t]);
    var u := Last(run);
    RunKeeps(stand, run, |run| - 1);
    var v := u.(reader := ReadLedger);
    assert EndScan(u, v, ReadLedger);
    Then(stand, run, v);
    var w := v.(reader := ReadCounter, ledger := v.charged);
    assert TakeLedger(v, w);
    Then(stand, run + [v], w);
    var x := w.(reader := Done, counted := w.charged);
    assert TakeCounter(w, x, ReadCounter, Done);
    Then(stand, run + [v] + [w], x);
    run := run + [v] + [w] + [x];
    assert x.read == u.read;
  }

  /** Every counter can meet every set of read spans that holds only counted and streamed calls. */
  lemma Attained(stand: Stand, counted: seq<nat>, spans: seq<nat>) returns (run: seq<State>)
    requires Distinct(counted) && Distinct(spans) && Due(stand, spans, counted)
    ensures Run(stand, run) && Last(run).reader.Done? && Last(run).counted == counted
    ensures Distinct(Last(run).read) && forall c: nat :: c in Last(run).read <==> c in spans
    ensures SumOver(Last(run).read, stand.cost) == SumOver(spans, stand.cost)
  {
    run := ChargeAll(stand, counted);
    run := WriteAll(stand, run, spans);
    run := ReadAll(stand, run);
    SameCalls(Last(run).read, spans, stand.cost);
  }

  lemma SameCalls(xs: seq<nat>, ys: seq<nat>, w: nat -> real)
    requires Distinct(xs) && Distinct(ys) && forall c: nat :: c in xs <==> c in ys
    ensures SumOver(xs, w) == SumOver(ys, w)
  {
    Difference(xs, ys, w);
    NothingMissing(xs, ys);
    NothingMissing(ys, xs);
  }

  /** A finished reading of some run. */
  ghost predicate Finished(stand: Stand, run: seq<State>, i: int) {
    Run(stand, run) && 0 <= i < |run| && run[i].reader.Done?
  }

  predicate Priced(stand: Stand, c: nat) { stand.cost(c) > 0.0 }

  ghost predicate NoStreamedPrice(stand: Stand) { forall c :: stand.streamed(c) ==> !Priced(stand, c) }

  lemma GapWithoutStreams(stand: Stand, run: seq<State>, i: int)
    requires (forall c :: stand.cost(c) >= 0.0) && NoStreamedPrice(stand) && Finished(stand, run, i)
    ensures Gap(stand, run[i]) >= 0.0
  {
    var s := run[i];
    GapIsUnreadLessEarly(stand, run, i);
    Nonnegative(Missing(s.counted, s.read), stand.cost);
    forall c | c in Missing(s.read, s.counted) ensures stand.cost(c) == 0.0 {
      assert !Priced(stand, c);
    }
    SumOverZero(Missing(s.read, s.counted), stand.cost);
  }

  lemma SumOne(c: nat, w: nat -> real)
    ensures SumOver([c], w) == w(c) && SumOver<nat>([], w) == 0.0
  {
    assert [c][1..] == [];
  }

  /** In the prescribed order, a streamed call that is written down and read before it is charged. */
  lemma StreamedGoesNegative(stand: Stand, c: nat) returns (run: seq<State>)
    requires stand.streamed(c) && Priced(stand, c)
    ensures Finished(stand, run, |run| - 1) && Last(run).counted == []
    ensures Gap(stand, Last(run)) == -stand.cost(c) < 0.0
  {
    run := Attained(stand, [], [c]);
    SumOne(c, stand.cost);
  }

  /** The prescribed order keeps the gap from going negative in every run exactly when no streamed call
      costs anything. */
  lemma GapNeverNegative(stand: Stand)
    requires forall c :: stand.cost(c) >= 0.0
    ensures (forall run, i :: Finished(stand, run, i) ==> Gap(stand, run[i]) >= 0.0) <==> NoStreamedPrice(stand)
  {
    if NoStreamedPrice(stand) {
      forall run, i | Finished(stand, run, i) ensures Gap(stand, run[i]) >= 0.0 {
        GapWithoutStreams(stand, run, i);
      }
    } else {
      var c :| stand.streamed(c) && Priced(stand, c);
      var run := StreamedGoesNegative(stand, c);
      assert Finished(stand, run, |run| - 1);
    }
  }

  // ---- the order that was replaced ----

  ghost predicate SwappedRun(stand: Stand, run: seq<State>) {
    run != [] && Init(run[0]) && forall i :: 0 <= i < |run| - 1 ==> CounterFirst(stand, run[i], run[i + 1])
  }

  /** One call that completes between the two reads, its span already written when the scan gets there. */
  function LateCall(c: nat, f: nat): seq<State> {
    [ State([], map[], Idle, [], [], []),
      State([], map[], ReadCounter, [], [], []),
      State([c], map[], ReadCounter, [], [], []),
      State([c], map[f := [c]], ReadCounter, [], [], []),
      State([c], map[f := [c]], Scanning([f], 0), [], [], []),
      State([c], map[f := [c]], Scanning([f], 1), [c], [], []),
      State([c], map[f := [c]], Scanning([], 0), [c], [], []),
      State([c], map[f := [c]], Done, [c], [], []) ]
  }

  /** With the counter read first the gap can be negative by the price of any call, streamed or not. */
  lemma CounterFirstGoesNegative(stand: Stand, c: nat)
    requires Priced(stand, c)
    ensures var run := LateCall(c, stand.home(c));
      SwappedRun(stand, run) && run[7].reader.Done? && Gap(stand, run[7]) == -stand.cost(c) < 0.0
  {
    var f := stand.home(c);
    var r := LateCall(c, f);
    assert TakeCounter(r[0], r[1], Idle, ReadCounter);
    assert Charge(r[1], r[2], c);
    assert Write(stand, r[2], r[3], c);
    assert Glob(r[3], r[4], [f], ReadCounter);
    assert ReadSpan(r[4], r[5]);
    assert r[5].reader.todo[1..] == [];
    assert NextFile(r[5], r[6]);
    assert EndScan(r[6], r[7], Done);
    forall i | 0 <= i < |r| - 1
      ensures CounterFirst(stand, r[i], r[i + 1])
    {
    }
    SumOne(c, stand.cost);
  }

  // ---- the counter as /healthz publishes it ----

  const MICRO: real := 1000000.0

  /** round(x, 6): to the nearest millionth, ties to the even one. */
  function Round6(x: real): real {
    var y := x * MICRO;
    var n := y.Floor;
    var d := y - n as real;
    (if d < 0.5 || (d == 0.5 && n % 2 == 0) then n as real else (n + 1) as real) / MICRO
  }

  lemma Round6Near(x: real)
    ensures -0.5 / MICRO <= x - Round6(x) <= 0.5 / MICRO
  {
    var y := x * MICRO;
    assert x == y / MICRO;
  }

  /** The gap as the reader computes it, from the rounded counter. */
  function Published(stand: Stand, s: State): real {
    Round6(SumOver(s.counted, stand.cost)) - SumOver(s.read, stand.cost)
  }

  /** A list of calls whose total the counter would publish too low. */
  ghost predicate RoundsDown(stand: Stand, xs: seq<nat>) {
    Distinct(xs) && Round6(SumOver(xs, stand.cost)) < SumOver(xs, stand.cost)
  }

  /** Charge, write and read exactly such a list: the published gap is what rounding took away. */
  lemma RoundedGoesNegative(stand: Stand, xs: seq<nat>) returns (run: seq<State>)
    requires RoundsDown(stand, xs)
    ensures Finished(stand, run, |run| - 1) && Gap(stand, Last(run)) == 0.0
    ensures Published(stand, Last(run)) == Round6(SumOver(xs, stand.cost)) - SumOver(xs, stand.cost) < 0.0
  {
    run := Attained(stand, xs, xs);
  }

  lemma PublishedWithout(stand: Stand, run: seq<State>, i: int)
    requires (forall c :: stand.cost(c) >= 0.0) && NoStreamedPrice(stand) && Finished(stand, run, i)
    requires forall xs :: !RoundsDown(stand, xs)
    ensures Published(stand, run[i]) >= 0.0
  {
    GapWithoutStreams(stand, run, i);
    RunKeeps(stand, run, i);
    assert !RoundsDown(stand, run[i].counted);
  }

  /** The published gap is non-negative in every run exactly when no streamed call costs anything and no
      list of distinct calls has a total that rounds down. */
  lemma PublishedNeverNegative(stand: Stand)
    requires forall c :: stand.cost(c) >= 0.0
    ensures (forall run, i :: Finished(stand, run, i) ==> Published(stand, run[i]) >= 0.0)
       <==> NoStreamedPrice(stand) && forall xs :: !RoundsDown(stand, xs)
  {
    if !NoStreamedPrice(stand) {
      var c :| stand.streamed(c) && Priced(stand, c);
      var run := StreamedGoesNegative(stand, c);
      SumOne(c, stand.cost);
      assert Round6(0.0) == 0.0;
      assert Finished(stand, run, |run| - 1);
    } else if xs :| RoundsDown(stand, xs) {
      var run := RoundedGoesNegative(stand, xs);
      assert Finished(stand, run, |run| - 1);
    } else {
      forall run, i | Finished(stand, run, i) ensures Published(stand, run[i]) >= 0.0 {
        PublishedWithout(stand, run, i);
      }
    }
  }

  /** A whole number of millionths. */
  predicate Whole(x: real) { (x * MICRO).Floor as real == x * MICRO }

  lemma WholeSum(a: real, b: real)
    requires Whole(a) && Whole(b)
    ensures Whole(a + b)
  {
    var m, n := (a * MICRO).Floor, (b * MICRO).Floor;
    assert (a + b) * MICRO == (m + n) as real;
  }

  lemma WholeRounds(x: real)
    requires Whole(x)
    ensures Round6(x) == x
  {
    var y := x * MICRO;
    assert x == y / MICRO;
  }

  lemma {:induction false} WholeTotals(xs: seq<nat>, w: nat -> real)
    requires forall c :: Whole(w(c))
    ensures Whole(SumOver(xs, w))
  {
    if xs != [] {
      WholeTotals(xs[1..], w);
      WholeSum(w(xs[0]), SumOver(xs[1..], w));
    }
  }

  /** Prices in whole millionths never round down: then only a priced streamed call can turn the
      published gap negative. */
  lemma WholePrices(stand: Stand)
    requires (forall c :: stand.cost(c) >= 0.0) && forall c :: Whole(stand.cost(c))
    ensures (forall run, i :: Finished(stand, run, i) ==> Published(stand, run[i]) >= 0.0) <==> NoStreamedPrice(stand)
  {
    PublishedNeverNegative(stand);
    forall xs ensures !RoundsDown(stand, xs) {
      WholeTotals(xs, stand.cost);
      WholeRounds(SumOver(xs, stand.cost));
    }
  }

  /** Rounding moves the gap by at most half a millionth, either way. */
  lemma PublishedIsNear(stand: Stand, s: State)
    ensures -0.5 / MICRO <= Gap(stand, s) - Published(stand, s) <= 0.5 / MICRO
  {
    Round6Near(SumOver(s.counted, stand.cost));
  }

  /** round(x, 6) is a whole number of millionths, as near as any, and an even one when two are as near. */
  lemma Round6Rounds(x: real, n: int)
    ensures var m := (Round6(x) * MICRO).Floor;
      && Round6(x) * MICRO == m as real
      && (if x * MICRO < m as real then m as real - x * MICRO else x * MICRO - m as real) <= 0.5
      && (x * MICRO == n as real + 0.5 ==> m % 2 == 0)
  {
    var y := x * MICRO;
    var f := y.Floor;
    assert f as real <= y < f as real + 1.0;
    if y == n as real + 0.5 {
      assert f == n;
    }
  }
}
