/** benchmarks/lanes.py: the cpus a process and all its descendants may run on. */
module ProcessTree {
  import opened Wrappers

  /** One numeric entry of the process table: its parent, or None when its stat line does not read. */
  datatype Entry = Entry(pid: int, parent: Option<int>)

  // ---- the tree, as the table states it ----

  predicate IsChild(table: seq<Entry>, parent: int, pid: int) { Entry(pid, Some(parent)) in table }

  /** Each process on the way is a child of the one before. */
  ghost predicate IsWalk(table: seq<Entry>, walk: seq<int>) {
    walk != [] && forall i :: 0 <= i < |walk| - 1 ==> IsChild(table, walk[i], walk[i + 1])
  }

  ghost predicate Reaches(table: seq<Entry>, walk: seq<int>, root: int, pid: int) {
    IsWalk(table, walk) && walk[0] == root && walk[|walk| - 1] == pid
  }

  ghost predicate InTree(table: seq<Entry>, root: int, pid: int) { exists walk :: Reaches(table, walk, root, pid) }

  lemma RootInTree(table: seq<Entry>, root: int)
    ensures InTree(table, root, root)
  {
    assert Reaches(table, [root], root, root);
  }

  lemma ChildInTree(table: seq<Entry>, root: int, pid: int, child: int)
    requires InTree(table, root, pid) && IsChild(table, pid, child)
    ensures InTree(table, root, child)
  {
    var walk :| Reaches(table, walk, root, pid);
    var longer := walk + [child];
    forall i | 0 <= i < |longer| - 1 ensures IsChild(table, longer[i], longer[i + 1]) {
      assert i < |walk| - 1 ==> IsChild(table, walk[i], walk[i + 1]);
    }
    assert Reaches(table, longer, root, child);
  }

  /** A set that holds the root and every child of its members holds the tree. */
  lemma {:induction false} ClosedHoldsWalk(table: seq<Entry>, seen: set<int>, walk: seq<int>)
    requires IsWalk(table, walk) && walk[0] in seen
    requires forall p, c :: p in seen && IsChild(table, p, c) ==> c in seen
    ensures walk[|walk| - 1] in seen
    decreases |walk|
  {
    if |walk| > 1 {
      assert IsChild(table, walk[0], walk[1]);
      var rest := walk[1..];
      forall i | 0 <= i < |rest| - 1 ensures IsChild(table, rest[i], rest[i + 1]) {
        assert IsChild(table, walk[i + 1], walk[i + 1 + 1]);
      }
      ClosedHoldsWalk(table, seen, rest);
    }
  }

  // ---- the walk ----

  /** A process without children has no entry. */
  function Kids(kids: map<int, seq<int>>, p: int): seq<int> { if p in kids then kids[p] else [] }

  lemma NextEntry(table: seq<Entry>, entry: Entry)
    ensures forall p, c :: IsChild(table + [entry], p, c) <==> IsChild(table, p, c) || entry == Entry(c, Some(p))
  {
  }

  /** Every process that states its parent, listed under that parent. */
  method ChildLists(table: seq<Entry>) returns (kids: map<int, seq<int>>)
    ensures forall p, c :: c in Kids(kids, p) <==> IsChild(table, p, c)
  {
    kids := map[];
    for i := 0 to |table|
      invariant forall p, c :: c in Kids(kids, p) <==> IsChild(table[..i], p, c)
    {
      var entry := table[i];
      assert table[..i + 1] == table[..i] + [entry];
      NextEntry(table[..i], entry);
      if entry.parent.None? { continue; }
      var parent := entry.parent.value;
      kids := kids[parent := Kids(kids, parent) + [entry.pid]];
    }
    assert table[..|table|] == table;
  }

  ghost function Pids(table: seq<Entry>): set<int> { set i | 0 <= i < |table| :: table[i].pid }

  /** What the walk knows: it has only met the tree, and every child of what it has seen is met. */
  ghost predicate Walking(table: seq<Entry>, root: int, seen: set<int>, stack: seq<int>) {
    && (root in seen || root in stack)
    && (forall p :: p in seen || p in stack ==> InTree(table, root, p) && (p == root || p in Pids(table)))
    && (forall p, c :: p in seen && IsChild(table, p, c) ==> c in seen || c in stack)
  }

  lemma SkipSeen(table: seq<Entry>, root: int, seen: set<int>, stack: seq<int>, here: int)
    requires Walking(table, root, seen, stack + [here]) && here in seen
    ensures Walking(table, root, seen, stack)
  {
    assert forall p :: p in stack ==> p in stack + [here];
  }

  lemma SeeOne(table: seq<Entry>, root: int, seen: set<int>, stack: seq<int>, here: int, kids: seq<int>)
    requires Walking(table, root, seen, stack + [here])
    requires forall c :: c in kids <==> IsChild(table, here, c)
    ensures Walking(table, root, seen + {here}, stack + kids)
  {
    assert here in stack + [here];
    forall c | c in kids ensures InTree(table, root, c) && c in Pids(table) {
      ChildInTree(table, root, here, c);
      var i :| 0 <= i < |table| && table[i] == Entry(c, Some(here));
      assert table[i].pid in Pids(table);
    }
  }

  lemma WalkEnds(table: seq<Entry>, root: int, seen: set<int>)
    requires Walking(table, root, seen, [])
    ensures forall p :: p in seen <==> InTree(table, root, p)
  {
    forall p | InTree(table, root, p) ensures p in seen {
      var walk :| Reaches(table, walk, root, p);
      ClosedHoldsWalk(table, seen, walk);
    }
  }

  ghost predicate Answers(affinity: int -> Option<set<int>>, p: int, c: int) {
    affinity(p).Some? && c in affinity(p).value
  }

  /** cpus is what the seen processes have answered. */
  ghost predicate Gathered(cpus: set<int>, seen: set<int>, affinity: int -> Option<set<int>>) {
    forall c :: c in cpus <==> exists p :: p in seen && Answers(affinity, p, c)
  }

  lemma GatherOne(cpus: set<int>, seen: set<int>, affinity: int -> Option<set<int>>, here: int)
    requires Gathered(cpus, seen, affinity)
    ensures Gathered(if affinity(here).Some? then cpus + affinity(here).value else cpus, seen + {here}, affinity)
  {
    assert forall c :: affinity(here).Some? && c in affinity(here).value ==> Answers(affinity, here, c);
  }

  lemma MetIsKnown(table: seq<Entry>, root: int, seen: set<int>, stack: seq<int>, here: int)
    requires Walking(table, root, seen, stack) && here in stack
    ensures here in Pids(table) + {root}
  {
  }

  lemma GatheredAll(table: seq<Entry>, root: int, cpus: set<int>, seen: set<int>, affinity: int -> Option<set<int>>)
    requires Walking(table, root, seen, []) && Gathered(cpus, seen, affinity)
    ensures forall c :: c in cpus <==> exists p :: InTree(table, root, p) && Answers(affinity, p, c)
  {
    WalkEnds(table, root, seen);
  }

  lemma WalkStarts(table: seq<Entry>, root: int, affinity: int -> Option<set<int>>)
    ensures Walking(table, root, {}, [root]) && Gathered({}, {}, affinity)
  {
    RootInTree(table, root);
  }

  /** Every process of the tree that answers contributes its cpus, nothing else does, and the walk ends
      whatever the table says, cycles included. A process that has exited is skipped. */
  method TreeCpus(pid: int, table: seq<Entry>, affinity: Option<int -> Option<set<int>>>) returns (cpus: set<int>)
    ensures affinity.None? ==> cpus == {}
    ensures affinity.Some? ==> forall c :: c in cpus <==>
      exists p :: InTree(table, pid, p) && Answers(affinity.value, p, c)
  {
    hide Walking, Gathered, InTree, Answers, Pids;
    cpus := {};
    if affinity.None? { return; }
    var kids := ChildLists(table);
    var seen: set<int>, stack := {}, [pid];
    WalkStarts(table, pid, affinity.value);
    while stack != []
      invariant Walking(table, pid, seen, stack) && Gathered(cpus, seen, affinity.value)
      decreases |Pids(table) + {pid} - seen|, |stack|
    {
      var here := stack[|stack| - 1];
      assert stack == stack[..|stack| - 1] + [here];
      MetIsKnown(table, pid, seen, stack, here);
      stack := stack[..|stack| - 1];
      if here in seen {
        SkipSeen(table, pid, seen, stack, here);
        continue;
      }
      SeeOne(table, pid, seen, stack, here, Kids(kids, here));
      GatherOne(cpus, seen, affinity.value, here);
      assert Pids(table) + {pid} - (seen + {here}) == Pids(table) + {pid} - seen - {here};
      seen := seen + {here};
      stack := stack + Kids(kids, here);
      var answer := affinity.value(here);
      if answer.None? { continue; }
      cpus := cpus + answer.value;
    }
    GatheredAll(table, pid, cpus, seen, affinity.value);
  }
}
