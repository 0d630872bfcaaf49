/** benchmarks/ruler_selfcheck.py: an append-only series whose writer heals a torn tail and whose
    reader skips torn lines. Any append may be cut after any number of its bytes. */
module Series {
  import opened Wrappers
  import opened Text

  /** What a row parses to, as far as the reader looks at it. */
  datatype Reading = Reading(stamp: string, task: Option<string>, body: string)

  // ---- the file as text ----

  /** The text after the last newline. */
  function Partial(data: string): string
  {
    if data == "" || data[|data| - 1] == '\n' then "" else Partial(data[..|data| - 1]) + [data[|data| - 1]]
  }

  /** The lines that end in a newline. */
  function Complete(data: string): seq<string>
  {
    if data == "" then []
    else
      var front := data[..|data| - 1];
      if data[|data| - 1] == '\n' then Complete(front) + [Partial(front)] else Complete(front)
  }

  /** for line in fh */
  function Lines(data: string): seq<string> { Complete(data) + if Partial(data) == "" then [] else [Partial(data)] }

  // ---- rows ----

  /** What the reader makes of a line: strip it, want a brace, parse it. */
  function RowOf(parse: string -> Option<Reading>, line: string): Option<Reading> {
    var s := Strip(line);
    if s != "" && s[0] == '{' then parse(s) else None
  }

  /** The line's row, if it has one. */
  function Read(parse: string -> Option<Reading>, line: string): seq<Reading> {
    match RowOf(parse, line) { case None => [] case Some(r) => [r] }
  }

  function Rows(parse: string -> Option<Reading>, lines: seq<string>): seq<Reading>
  {
    if lines == [] then [] else Rows(parse, lines[..|lines| - 1]) + Read(parse, lines[|lines| - 1])
  }

  /** A row as json.dumps writes it: one line, in braces, and no proper prefix of it parses. */
  ghost predicate RowText(parse: string -> Option<Reading>, text: string) {
    && |text| >= 2 && text[0] == '{' && text[|text| - 1] == '}' && '\n' !in text
    && parse(text).Some?
    && forall n :: 0 <= n < |text| ==> parse(text[..n]).None?
  }

  // ---- one append ----

  /** The row being appended, and how many bytes reached the disk before the process was cut. */
  datatype Attempt = Attempt(text: string, written: nat)

  /** The last byte is not a newline. */
  predicate Torn(data: string) { data != "" && data[|data| - 1] != '\n' }

  /** What a completed append adds: a newline to heal a torn tail, the row, its newline. */
  function Whole(data: string, text: string): string { (if Torn(data) then "\n" else "") + text + "\n" }

  function Cut(s: string, n: nat): string { if n < |s| then s[..n] else s }

  function After(data: string, a: Attempt): string { data + Cut(Whole(data, a.text), a.written) }

  predicate Completed(data: string, a: Attempt) { a.written >= |Whole(data, a.text)| }

  /** The part of the row itself that reached the disk. */
  function Reached(data: string, a: Attempt): string {
    var healed := if Torn(data) then 1 else 0;
    if a.written <= healed then "" else Cut(a.text, a.written - healed)
  }

  /** All of the row is on disk, its newline perhaps not. */
  predicate Landed(data: string, a: Attempt) { Reached(data, a) == a.text }

  lemma {:induction false} PartialLine(data: string, t: string)
    requires '\n' !in t
    ensures Partial(data + t) == Partial(data) + t && Complete(data + t) == Complete(data)
    decreases |t|
  {
    if t == "" {
      assert data + t == data;
    } else {
      var front, c := t[..|t| - 1], t[|t| - 1];
      assert (data + t)[..|data + t| - 1] == data + front && (data + t)[|data + t| - 1] == c;
      assert c in t;
      PartialLine(data, front);
      assert Partial(data) + front + [c] == Partial(data) + t;
    }
  }

  lemma Newline(data: string)
    ensures Partial(data + "\n") == "" && Complete(data + "\n") == Complete(data) + [Partial(data)]
  {
    assert (data + "\n")[..|data|] == data;
  }

  lemma TornHasPartial(data: string)
    ensures Torn(data) <==> Partial(data) != ""
  {
  }

  /** The file as it stands once a torn tail has its newline. */
  function Healed(data: string): string { if Torn(data) then data + "\n" else data }

  lemma HealedLines(data: string)
    ensures Partial(Healed(data)) == "" && Complete(Healed(data)) == Lines(data)
  {
    TornHasPartial(data);
    Newline(data);
    assert Complete(data) + [] == Complete(data);
  }

  lemma AfterIs(data: string, a: Attempt)
    requires a.written > 0 && a.text != ""
    ensures var base, t := Healed(data), Reached(data, a);
      After(data, a) == if Completed(data, a) then base + t + "\n" else base + t
    ensures Completed(data, a) ==> Reached(data, a) == a.text
  {
    var w, h := Whole(data, a.text), if Torn(data) then "\n" else "";
    assert w == h + (a.text + "\n");
    if Completed(data, a) {
      assert data + w == data + h + a.text + "\n";
    } else {
      assert w[..a.written] == h + Reached(data, a);
      assert data + (h + Reached(data, a)) == data + h + Reached(data, a);
    }
  }

  /** One line of text, with or without its newline, on a file with no torn tail. */
  lemma {:induction false} LineAdded(base: string, t: string)
    requires Partial(base) == "" && '\n' !in t
    ensures t != "" ==> Lines(base + t + "\n") == Complete(base) + [t]
    ensures Lines(base + t) == Complete(base) + if t == "" then [] else [t]
  {
    PartialLine(base, t);
    Newline(base + t);
    assert "" + t == t;
  }

  /** Whatever the cut, an append adds one line holding what reached the disk of its row, or no line. */
  lemma AppendAddsOneLine(data: string, a: Attempt)
    requires '\n' !in a.text && a.text != ""
    ensures var t := Reached(data, a);
      Lines(After(data, a)) == Lines(data) + if t == "" then [] else [t]
  {
    var t := Reached(data, a);
    if a.written == 0 {
      assert After(data, a) == data + "" == data;
    } else {
      HealedLines(data);
      ReachedIsPrefix(data, a);
      LineAdded(Healed(data), t);
      AfterIs(data, a);
    }
  }

  lemma ReachedIsPrefix(data: string, a: Attempt)
    ensures |Reached(data, a)| <= |a.text| && Reached(data, a) == a.text[..|Reached(data, a)|]
    ensures '\n' !in a.text ==> '\n' !in Reached(data, a)
  {
    assert a.text == a.text[..|a.text|];
    assert forall c :: c in Reached(data, a) ==> c in a.text;
  }

  lemma {:induction false} StripLeftPrefix(text: string, n: nat)
    requires n <= |text| && text != "" && !IsSpace(text[0])
    ensures StripLeft(text[..n]) == text[..n]
  {
  }

  lemma {:induction false} StripRightPrefix(text: string, n: nat) returns (m: nat)
    requires n <= |text|
    ensures m <= n && StripRight(text[..n]) == text[..m]
    ensures n == |text| && text != "" && !IsSpace(text[|text| - 1]) ==> m == n
  {
    if n > 0 && IsSpace(text[n - 1]) {
      assert text[..n][..n - 1] == text[..n - 1];
      m := StripRightPrefix(text, n - 1);
    } else {
      m := n;
    }
  }

  /** A whole row reads back as itself; anything cut short of it reads as nothing. */
  lemma PrefixReads(parse: string -> Option<Reading>, text: string, n: nat)
    requires RowText(parse, text) && n <= |text|
    ensures RowOf(parse, text[..n]) == if n == |text| then parse(text) else None
  {
    StripLeftPrefix(text, n);
    var m := StripRightPrefix(text, n);
    assert text[..|text|] == text;
  }

  // ---- runs ----

  function DataAfter(data: string, runs: seq<Attempt>): string
  {
    if runs == [] then data else After(DataAfter(data, runs[..|runs| - 1]), runs[|runs| - 1])
  }

  /** The readings whose rows landed, in the order they were appended. */
  ghost function LandedRows(parse: string -> Option<Reading>, data: string, runs: seq<Attempt>): seq<Reading>
    requires forall i :: 0 <= i < |runs| ==> RowText(parse, runs[i].text)
  {
    if runs == [] then []
    else
      var before, a := runs[..|runs| - 1], runs[|runs| - 1];
      assert RowText(parse, a.text);
      LandedRows(parse, data, before) + if Landed(DataAfter(data, before), a) then [parse(a.text).value] else []
  }

  lemma {:induction false} RowsConcat(parse: string -> Option<Reading>, ls: seq<string>, l: string)
    ensures Rows(parse, ls + [l]) == Rows(parse, ls) + Read(parse, l)
  {
    assert (ls + [l])[..|ls|] == ls;
  }

  lemma OneAppend(parse: string -> Option<Reading>, data: string, a: Attempt)
    requires RowText(parse, a.text)
    ensures Rows(parse, Lines(After(data, a)))
         == Rows(parse, Lines(data)) + if Landed(data, a) then [parse(a.text).value] else []
  {
    var t := Reached(data, a);
    AppendAddsOneLine(data, a);
    ReachedIsPrefix(data, a);
    if t == "" {
      assert Lines(data) + [] == Lines(data);
    } else {
      RowsConcat(parse, Lines(data), t);
      PrefixReads(parse, a.text, |t|);
      assert |t| == |a.text| <==> t == a.text;
    }
  }

  /** After any run of completed and cut appends to any file, the reader sees what it saw before and
      then exactly the rows that landed, each once, in order: a cut costs at most its own row. */
  lemma {:induction false} EveryLandedRowOnce(parse: string -> Option<Reading>, data: string, runs: seq<Attempt>)
    requires forall i :: 0 <= i < |runs| ==> RowText(parse, runs[i].text)
    ensures Rows(parse, Lines(DataAfter(data, runs))) == Rows(parse, Lines(data)) + LandedRows(parse, data, runs)
  {
    if runs == [] {
      assert Rows(parse, Lines(data)) + [] == Rows(parse, Lines(data));
    } else {
      var before, a := runs[..|runs| - 1], runs[|runs| - 1];
      assert RowText(parse, a.text);
      EveryLandedRowOnce(parse, data, before);
      OneAppend(parse, DataAfter(data, before), a);
      Appended(Rows(parse, Lines(data)), LandedRows(parse, data, before),
        if Landed(DataAfter(data, before), a) then [parse(a.text).value] else []);
    }
  }

  lemma Appended<T>(x: seq<T>, y: seq<T>, z: seq<T>)
    ensures x + y + z == x + (y + z)
  {
  }

  /** A row has landed exactly when at most its final newline is missing; so a completed one has. */
  lemma LandedMeans(data: string, a: Attempt)
    requires a.text != ""
    ensures Landed(data, a) <==> a.written + 1 >= |Whole(data, a.text)|
    ensures Completed(data, a) ==> Landed(data, a)
  {
    ReachedIsPrefix(data, a);
  }

  // ---- sorted(out, key = stamp) ----

  /** After everything with a stamp at most its own. */
  function Insert(s: seq<Reading>, r: Reading): seq<Reading>
  {
    if s == [] then [r]
    else if LexLe(s[|s| - 1].stamp, r.stamp) then s + [r]
    else Insert(s[..|s| - 1], r) + [s[|s| - 1]]
  }

  function StableSort(s: seq<Reading>): seq<Reading>
  {
    if s == [] then [] else Insert(StableSort(s[..|s| - 1]), s[|s| - 1])
  }

  ghost predicate Ordered(s: seq<Reading>) {
    forall i, j :: 0 <= i <= j < |s| ==> LexLe(s[i].stamp, s[j].stamp)
  }

  /** The readings of one stamp, in their order. */
  function Stamped(s: seq<Reading>, stamp: string): seq<Reading>
  {
    if s == [] then []
    else Stamped(s[..|s| - 1], stamp) + if s[|s| - 1].stamp == stamp then [s[|s| - 1]] else []
  }

  lemma StampedNext(s: seq<Reading>, r: Reading, stamp: string)
    ensures Stamped(s + [r], stamp) == Stamped(s, stamp) + if r.stamp == stamp then [r] else []
  {
    assert (s + [r])[..|s|] == s;
  }

  lemma {:induction false} InsertKeeps(s: seq<Reading>, r: Reading, stamp: string)
    ensures Stamped(Insert(s, r), stamp) == Stamped(s, stamp) + if r.stamp == stamp then [r] else []
  {
    if s == [] || LexLe(s[|s| - 1].stamp, r.stamp) {
      StampedNext(s, r, stamp);
      assert s == [] ==> [] + [r] == [r];
    } else {
      var front, last := s[..|s| - 1], s[|s| - 1];
      InsertKeeps(front, r, stamp);
      StampedNext(Insert(front, r), last, stamp);
      LexTotal(r.stamp, r.stamp);
    }
  }

  lemma {:induction false} InsertMembers(s: seq<Reading>, r: Reading)
    ensures |Insert(s, r)| == |s| + 1
    ensures forall x :: x in Insert(s, r) ==> x in s || x == r
  {
    if s != [] && !LexLe(s[|s| - 1].stamp, r.stamp) {
      InsertMembers(s[..|s| - 1], r);
    }
  }

  lemma {:induction false} InsertOrdered(s: seq<Reading>, r: Reading)
    requires Ordered(s)
    ensures Ordered(Insert(s, r))
  {
    LexTotal(r.stamp, r.stamp);
    if s != [] {
      var front, last := s[..|s| - 1], s[|s| - 1];
      if LexLe(last.stamp, r.stamp) {
        forall i | 0 <= i < |s| ensures LexLe(s[i].stamp, r.stamp) {
          LexTransitive(s[i].stamp, last.stamp, r.stamp);
        }
      } else {
        LexTotal(last.stamp, r.stamp);
        InsertOrdered(front, r);
        InsertMembers(front, r);
        LexTotal(last.stamp, last.stamp);
        forall x | x in Insert(front, r) ensures LexLe(x.stamp, last.stamp) {
          if x in front {
            var i :| 0 <= i < |front| && front[i] == x;
            assert s[i] == x;
          }
        }
      }
    }
  }

  /** The sort is ordered and keeps, for every stamp, the readings of that stamp in their order. */
  lemma {:induction false} SortIsStable(s: seq<Reading>)
    ensures Ordered(StableSort(s))
    ensures forall stamp :: Stamped(StableSort(s), stamp) == Stamped(s, stamp)
  {
    if s != [] {
      var front, last := s[..|s| - 1], s[|s| - 1];
      SortIsStable(front);
      InsertOrdered(StableSort(front), last);
      forall stamp ensures Stamped(StableSort(s), stamp) == Stamped(s, stamp) {
        InsertKeeps(StableSort(front), last, stamp);
      }
    }
  }

  lemma {:induction false} StampedMember(s: seq<Reading>, stamp: string) returns (i: nat)
    requires Stamped(s, stamp) != []
    ensures i < |s| && s[i].stamp == stamp
  {
    if s[|s| - 1].stamp == stamp {
      i := |s| - 1;
    } else {
      i := StampedMember(s[..|s| - 1], stamp);
    }
  }

  lemma EmptyTogether(a: seq<Reading>, b: seq<Reading>)
    requires forall stamp :: Stamped(a, stamp) == Stamped(b, stamp)
    ensures a != [] ==> b != []
  {
    if a != [] {
      assert Stamped(a, a[|a| - 1].stamp) == Stamped(b, a[|a| - 1].stamp);
    }
  }

  lemma {:induction false} LastStampAtLeast(a: seq<Reading>, b: seq<Reading>)
    requires a != [] && b != [] && Ordered(b)
    requires forall stamp :: Stamped(a, stamp) == Stamped(b, stamp)
    ensures LexLe(a[|a| - 1].stamp, b[|b| - 1].stamp)
  {
    var i := StampedMember(b, a[|a| - 1].stamp);
  }

  /** Being ordered and keeping each stamp's readings in order leaves one possible result. */
  lemma {:induction false} StableSortIsTheOnlyOne(a: seq<Reading>, b: seq<Reading>)
    requires Ordered(a) && Ordered(b)
    requires forall stamp :: Stamped(a, stamp) == Stamped(b, stamp)
    ensures a == b
    decreases |a|
  {
    EmptyTogether(a, b);
    EmptyTogether(b, a);
    if a != [] {
      var x, y := a[|a| - 1], b[|b| - 1];
      LastStampAtLeast(a, b);
      LastStampAtLeast(b, a);
      LexTotal(x.stamp, y.stamp);
      var fa, fb := a[..|a| - 1], b[..|b| - 1];
      var p, q := Stamped(fa, x.stamp) + [x], Stamped(fb, x.stamp) + [y];
      assert Stamped(a, x.stamp) == Stamped(b, x.stamp);
      assert p == q && p[|p| - 1] == x && q[|q| - 1] == y;
      forall stamp ensures Stamped(fa, stamp) == Stamped(fb, stamp) {
        assert Stamped(a, stamp) == Stamped(b, stamp);
        SameFront(Stamped(fa, stamp), Stamped(fb, stamp), if x.stamp == stamp then [x] else []);
      }
      StableSortIsTheOnlyOne(fa, fb);
    }
  }

  lemma SameFront(p: seq<Reading>, q: seq<Reading>, t: seq<Reading>)
    requires p + t == q + t
    ensures p == q
  {
    assert |p| == |q|;
    assert p == (p + t)[..|p|] && q == (q + t)[..|p|];
  }

  // ---- reader and writer over one file ----

  /** Without a task every reading is asked for. */
  predicate Asked(task: Option<string>, r: Reading) { task.None? || r.task == task }

  function OfTask(task: Option<string>, s: seq<Reading>): seq<Reading>
  {
    if s == [] then []
    else OfTask(task, s[..|s| - 1]) + if Asked(task, s[|s| - 1]) then [s[|s| - 1]] else []
  }

  lemma PutTwice(data: string, h: string, line: string, n: nat)
    ensures data + Cut(h, n) + Cut(line, if n < |h| then 0 else n - |h|) == data + Cut(h + line, n)
  {
    assert Cut(h, n) + Cut(line, if n < |h| then 0 else n - |h|) == Cut(h + line, n);
  }

  /** What the reader keeps of one line. */
  function Wanted(parse: string -> Option<Reading>, task: Option<string>, line: string): seq<Reading> {
    OfTask(task, Read(parse, line))
  }

  lemma ReadNext(parse: string -> Option<Reading>, task: Option<string>, ls: seq<string>, l: string)
    ensures OfTask(task, Rows(parse, ls + [l])) == OfTask(task, Rows(parse, ls)) + Wanted(parse, task, l)
  {
    RowsConcat(parse, ls, l);
    OfTaskConcat(task, Rows(parse, ls), Read(parse, l));
  }

  lemma WantedMeans(parse: string -> Option<Reading>, task: Option<string>, l: string, line: string)
    requires line == Strip(l)
    ensures Wanted(parse, task, l) ==
      if line == "" || line[0] != '{' || parse(line).None? || !Asked(task, parse(line).value) then []
      else [parse(line).value]
  {
    if RowOf(parse, l).Some? {
      var r := RowOf(parse, l).value;
      assert Read(parse, l) == [r] && [r][..0] == [];
      assert OfTask(task, [r]) == OfTask(task, [r][..0]) + if Asked(task, r) then [r] else [];
    }
  }

  class SeriesFile {
    var data: string

    constructor ()
      ensures data == ""
    {
      data := "";
    }

    /** Write as much of s as there is room for before the cut. */
    method Put(s: string, room: nat) returns (left: nat)
      modifies this
      ensures data == old(data) + Cut(s, room)
      ensures left == if room < |s| then 0 else room - |s|
    {
      data := data + Cut(s, room);
      left := if room < |s| then 0 else room - |s|;
    }

    /** One append, cut after `written` bytes. */
    method AppendReading(text: string, written: nat)
      modifies this
      ensures data == After(old(data), Attempt(text, written))
    {
      var torn := false;
      if data != "" {
        torn := data[|data| - 1] != '\n';
      }
      var room := written;
      if torn {
        room := Put("\n", room);
      }
      room := Put(text + "\n", room);
      PutTwice(old(data), if torn then "\n" else "", text + "\n", written);
      assert Whole(old(data), text) == (if torn then "\n" else "") + (text + "\n");
    }

    method ReadSeries(parse: string -> Option<Reading>, task: Option<string>) returns (out: seq<Reading>)
      ensures out == StableSort(OfTask(task, Rows(parse, Lines(data))))
    {
      out := [];
      var lines := Lines(data);
      for i := 0 to |lines|
        invariant out == OfTask(task, Rows(parse, lines[..i]))
      {
        var line := Strip(lines[i]);
        assert lines[..i + 1] == lines[..i] + [lines[i]];
        ReadNext(parse, task, lines[..i], lines[i]);
        WantedMeans(parse, task, lines[i], line);
        if line == "" || line[0] != '{' { continue; }
        var row := parse(line);
        if row.None? { continue; }
        if Asked(task, row.value) {
          out := out + [row.value];
        }
      }
      assert lines[..|lines|] == lines;
      out := StableSort(out);
    }
  }

  lemma {:induction false} OfTaskConcat(task: Option<string>, s: seq<Reading>, t: seq<Reading>)
    ensures OfTask(task, s + t) == OfTask(task, s) + OfTask(task, t)
  {
    if t == [] {
      assert s + t == s;
    } else {
      OfTaskConcat(task, s, t[..|t| - 1]);
      assert (s + t)[..|s + t| - 1] == s + t[..|t| - 1];
    }
  }

  /** From an empty file, asked for any task or for all: the reader returns exactly the landed readings
      of that task, stably sorted by stamp. */
  lemma ReaderSeesWhatLanded(parse: string -> Option<Reading>, runs: seq<Attempt>, task: Option<string>)
    requires forall i :: 0 <= i < |runs| ==> RowText(parse, runs[i].text)
    ensures var out, landed := StableSort(OfTask(task, Rows(parse, Lines(DataAfter("", runs))))),
                               OfTask(task, LandedRows(parse, "", runs));
      && Ordered(out)
      && forall stamp :: Stamped(out, stamp) == Stamped(landed, stamp)
  {
    EveryLandedRowOnce(parse, "", runs);
    assert Lines("") == [];
    assert [] + LandedRows(parse, "", runs) == LandedRows(parse, "", runs);
    SortIsStable(OfTask(task, LandedRows(parse, "", runs)));
  }

  // ---- what comes back, reading by reading ----

  lemma {:induction false} InsertCounts(s: seq<Reading>, r: Reading)
    ensures multiset(Insert(s, r)) == multiset(s) + multiset{r}
  {
    if s != [] && !LexLe(s[|s| - 1].stamp, r.stamp) {
      var front, last := s[..|s| - 1], s[|s| - 1];
      InsertCounts(front, r);
      assert s == front + [last];
    }
  }

  lemma {:induction false} SortCounts(s: seq<Reading>)
    ensures multiset(StableSort(s)) == multiset(s)
  {
    hide Insert;
    if s != [] {
      var front, last := s[..|s| - 1], s[|s| - 1];
      SortCounts(front);
      InsertCounts(StableSort(front), last);
      assert s == front + [last];
      assert StableSort(s) == Insert(StableSort(front), last);
    }
  }

  lemma {:induction false} TaskCounts(task: Option<string>, s: seq<Reading>, r: Reading)
    ensures multiset(OfTask(task, s))[r] == if task.None? || r.task == task then multiset(s)[r] else 0
  {
    if s != [] {
      var front, last := s[..|s| - 1], s[|s| - 1];
      TaskCounts(task, front, r);
      assert s == front + [last];
    }
  }

  /** From an empty file: a reading comes back as often as its row landed if it is of the asked task, or if none
      is asked for, and not at all otherwise. */
  lemma {:induction false} ReadingsComeBack(parse: string -> Option<Reading>, runs: seq<Attempt>, task: Option<string>,
                                            r: Reading)
    requires forall i :: 0 <= i < |runs| ==> RowText(parse, runs[i].text)
    ensures var out, landed := StableSort(OfTask(task, Rows(parse, Lines(DataAfter("", runs))))),
                               LandedRows(parse, "", runs);
      && multiset(out)[r] == (if task.None? || r.task == task then multiset(landed)[r] else 0)
      && (r in out && task.Some? ==> r.task == task)
  {
    hide StableSort, OfTask;
    EveryLandedRowOnce(parse, "", runs);
    assert Lines("") == [];
    var found, landed := Rows(parse, Lines(DataAfter("", runs))), LandedRows(parse, "", runs);
    assert [] + landed == landed == found;
    SortCounts(OfTask(task, found));
    TaskCounts(task, found, r);
    assert r in StableSort(OfTask(task, found)) ==> multiset(StableSort(OfTask(task, found)))[r] > 0;
  }
}
