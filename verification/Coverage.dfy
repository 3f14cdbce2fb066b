/** Over all tasks of a stage, the context-carrying visit covers every node exactly. */
module Coverage {
  import opened Plans
  import opened Bags
  import opened IsolatorUnion
  import opened ContextTraversal
  import opened ContextEquivalence

  /** Every isolator of the stage is well routed for the number of tasks that reach it. */
  ghost predicate WellPlaced(p: Plan, tasks: nat)
    decreases p
  {
    match p.op
    case Isolator(m) =>
      && Routed(m, tasks, |p.children|)
      && forall c | 0 <= c < |p.children| :: WellPlaced(p.children[c], ChildCount(m, c))
    case Boundary(_, _) => true
    case _ => forall c | 0 <= c < |p.children| :: WellPlaced(p.children[c], tasks)
  }

  lemma RoutedEntry(m: TaskMap, tasks: nat, n: nat, s: nat, i: nat)
    requires Routed(m, tasks, n) && s < |m| && i < |m[s]|
    ensures var e := m[s][i]; e.0 < n && e.1.count == ChildCount(m, e.0) && e.1.index < e.1.count
  {
    EntryOf(m, s, i);
    var counts := ChildCounts(m, n);
    var k :| 0 <= k < |Slots(counts)| && Slots(counts)[k] == m[s][i];
    SlotAt(counts, n, k);
  }

  /** No task of a well-placed stage can fail on a missing list or a missing child. */
  lemma {:induction false} WellPlacedFits(p: Plan, tasks: nat, i: nat)
    requires WellPlaced(p, tasks) && i < tasks
    ensures Fits(p, Ctx(i, tasks))
    decreases p
  {
    if p.op.Isolator? {
      var es := p.op.taskMap[i];
      forall k | 0 <= k < |es| ensures es[k].0 < |p.children| && Fits(p.children[es[k].0], es[k].1) {
        RoutedEntry(p.op.taskMap, tasks, |p.children|, i, k);
        WellPlacedFits(p.children[es[k].0], es[k].1.count, es[k].1.index);
      }
    } else if !p.op.Boundary? {
      forall c | 0 <= c < |p.children| ensures Fits(p.children[c], Ctx(i, tasks)) {
        WellPlacedFits(p.children[c], tasks, i);
      }
    }
  }

  // ---------------------------------------------------------------- all tasks together

  ghost function VisitsAt(p: Plan, path: Path, tasks: nat): (f: nat -> multiset<Visit>) {
    (t: nat) => multiset(Visits(p, path, Ctx(t, tasks)))
  }

  /** The visits of the first `k` of `tasks` tasks, as a bag. */
  ghost function TaskVisits(p: Plan, path: Path, tasks: nat, k: nat): (vs: multiset<Visit>) {
    SumBelow(VisitsAt(p, path, tasks), k)
  }

  ghost function AllVisits(p: Plan, path: Path, tasks: nat): (vs: multiset<Visit>) {
    TaskVisits(p, path, tasks, tasks)
  }

  ghost function OwnAt(path: Path, tasks: nat): (f: nat -> multiset<Visit>) {
    (t: nat) => multiset{(path, Ctx(t, tasks))}
  }

  /** The node itself, once in each of the first `k` contexts. */
  ghost function Own(path: Path, tasks: nat, k: nat): (vs: multiset<Visit>) {
    SumBelow(OwnAt(path, tasks), k)
  }

  /** Each node of the stage once for each index below its task count, the count being the one the
      task-count traversals hand down. */
  ghost function Expected(p: Plan, path: Path, tasks: nat): (vs: multiset<Visit>)
    decreases p, 1, 0
  {
    Own(path, tasks, tasks) + if p.op.Boundary? then multiset{} else ExpectedBelow(p, 0, path, tasks)
  }

  ghost function ExpectedBelow(p: Plan, c: nat, path: Path, tasks: nat): (vs: multiset<Visit>)
    requires c <= |p.children|
    decreases p, 0, |p.children| - c
  {
    if c == |p.children| then multiset{} else
      Expected(p.children[c], path + [c], ChildTaskCount(p.op, tasks, c)) + ExpectedBelow(p, c + 1, path, tasks)
  }

  /** The claim of exact coverage for child `c` of a node. */
  ghost predicate ChildCovered(p: Plan, path: Path, tasks: nat, c: nat)
    requires c < |p.children|
  {
    var n := ChildTaskCount(p.op, tasks, c);
    AllVisits(p.children[c], path + [c], n) == Expected(p.children[c], path + [c], n)
  }

  ghost predicate ChildrenCovered(p: Plan, path: Path, tasks: nat) {
    forall c | 0 <= c < |p.children| :: ChildCovered(p, path, tasks, c)
  }

  lemma Concatenated(x: seq<Visit>, y: seq<Visit>)
    ensures multiset(x + y) == multiset(x) + multiset(y)
  {
  }

  // ---------------------------------------------------------------- ordinary nodes

  ghost function BelowAt(p: Plan, c: nat, path: Path, tasks: nat): (f: nat -> multiset<Visit>)
    requires c <= |p.children|
  {
    (t: nat) => multiset(ChildVisits(p, c, path, Ctx(t, tasks)))
  }

  /** The visits below an ordinary node from child `c` on, over the first `k` tasks. */
  ghost function BelowVisits(p: Plan, c: nat, path: Path, tasks: nat, k: nat): (vs: multiset<Visit>)
    requires c <= |p.children|
  {
    SumBelow(BelowAt(p, c, path, tasks), k)
  }

  lemma BelowSplitsAt(p: Plan, c: nat, path: Path, tasks: nat, t: nat)
    requires c < |p.children|
    ensures IsSum(BelowAt(p, c, path, tasks), VisitsAt(p.children[c], path + [c], tasks),
                   BelowAt(p, c + 1, path, tasks), t)
  {
    var ctx := Ctx(t, tasks);
    Concatenated(Visits(p.children[c], path + [c], ctx), ChildVisits(p, c + 1, path, ctx));
  }

  lemma BelowSplits(p: Plan, c: nat, path: Path, tasks: nat, k: nat)
    requires c < |p.children|
    ensures BelowVisits(p, c, path, tasks, k) ==
            TaskVisits(p.children[c], path + [c], tasks, k) + BelowVisits(p, c + 1, path, tasks, k)
  {
    var f, g := BelowAt(p, c, path, tasks), VisitsAt(p.children[c], path + [c], tasks);
    var h := BelowAt(p, c + 1, path, tasks);
    forall t: nat | t < k ensures IsSum(f, g, h, t) {
      BelowSplitsAt(p, c, path, tasks, t);
    }
    SumSplits(f, g, h, k);
  }

  lemma NoneBelow(p: Plan, path: Path, tasks: nat, k: nat)
    ensures BelowVisits(p, |p.children|, path, tasks, k) == multiset{}
  {
    NothingBelow(BelowAt(p, |p.children|, path, tasks), k);
  }

  lemma OrdinaryAt(p: Plan, path: Path, tasks: nat, t: nat)
    requires !p.op.Isolator? && !p.op.Boundary?
    ensures IsSum(VisitsAt(p, path, tasks), OwnAt(path, tasks), BelowAt(p, 0, path, tasks), t)
  {
    var ctx := Ctx(t, tasks);
    Concatenated([(path, ctx)], ChildVisits(p, 0, path, ctx));
  }

  lemma OrdinaryVisits(p: Plan, path: Path, tasks: nat, k: nat)
    requires !p.op.Isolator? && !p.op.Boundary?
    ensures TaskVisits(p, path, tasks, k) == Own(path, tasks, k) + BelowVisits(p, 0, path, tasks, k)
  {
    var f, g, h := VisitsAt(p, path, tasks), OwnAt(path, tasks), BelowAt(p, 0, path, tasks);
    forall t: nat | t < k ensures IsSum(f, g, h, t) {
      OrdinaryAt(p, path, tasks, t);
    }
    SumSplits(f, g, h, k);
  }

  lemma {:induction false} BelowIsExpected(p: Plan, c: nat, path: Path, tasks: nat)
    requires !p.op.Isolator? && !p.op.Boundary? && c <= |p.children|
    requires ChildrenCovered(p, path, tasks)
    ensures BelowVisits(p, c, path, tasks, tasks) == ExpectedBelow(p, c, path, tasks)
    decreases |p.children| - c
  {
    if c == |p.children| {
      NoneExpected(p, path, tasks);
    } else {
      BelowIsExpected(p, c + 1, path, tasks);
      assert ChildCovered(p, path, tasks, c);
      FirstIsExpected(p, c, path, tasks);
    }
  }

  lemma NoneExpected(p: Plan, path: Path, tasks: nat)
    ensures BelowVisits(p, |p.children|, path, tasks, tasks) == ExpectedBelow(p, |p.children|, path, tasks)
  {
    NoneBelow(p, path, tasks, tasks);
  }

  lemma FirstIsExpected(p: Plan, c: nat, path: Path, tasks: nat)
    requires !p.op.Isolator? && !p.op.Boundary? && c < |p.children| && ChildCovered(p, path, tasks, c)
    requires BelowVisits(p, c + 1, path, tasks, tasks) == ExpectedBelow(p, c + 1, path, tasks)
    ensures BelowVisits(p, c, path, tasks, tasks) == ExpectedBelow(p, c, path, tasks)
  {
    var first := Expected(p.children[c], path + [c], tasks);
    BelowSplits(p, c, path, tasks, tasks);
    assert ExpectedBelow(p, c, path, tasks) == first + ExpectedBelow(p, c + 1, path, tasks);
    assert TaskVisits(p.children[c], path + [c], tasks, tasks) == first;
  }

  // ---------------------------------------------------------------- isolators

  function Flatten(m: TaskMap): (es: seq<Entry>) {
    if m == [] then [] else m[0] + Flatten(m[1..])
  }

  lemma {:induction false} FlattenEntries(m: TaskMap)
    ensures multiset(Flatten(m)) == Entries(m)
  {
    if m != [] {
      FlattenEntries(m[1..]);
    }
  }

  lemma {:induction false} FlattenAppend(a: TaskMap, es: seq<Entry>)
    ensures Flatten(a + [es]) == Flatten(a) + es
  {
    if a == [] {
      assert Flatten([es]) == es + Flatten([es][1..]);
      assert a + [es] == [es];
    } else {
      assert (a + [es])[1..] == a[1..] + [es];
      FlattenAppend(a[1..], es);
    }
  }

  lemma {:induction false} EntryVisitsConcat(p: Plan, path: Path, a: seq<Entry>, b: seq<Entry>)
    ensures EntryVisits(p, path, a + b) == EntryVisits(p, path, a) + EntryVisits(p, path, b)
    decreases |a|
  {
    if a == [] {
      assert a + b == b;
    } else {
      assert (a + b)[0] == a[0] && (a + b)[1..] == a[1..] + b;
      EntryVisitsConcat(p, path, a[1..], b);
    }
  }

  lemma EntryVisitsMiddle(p: Plan, path: Path, x: seq<Entry>, e: Entry, y: seq<Entry>)
    ensures multiset(EntryVisits(p, path, x + [e] + y)) ==
            multiset(EntryVisits(p, path, [e])) + multiset(EntryVisits(p, path, x + y))
  {
    EntryVisitsConcat(p, path, x, y);
    EntryVisitsConcat(p, path, x + [e], y);
    EntryVisitsConcat(p, path, x, [e]);
  }

  lemma WithoutOne(e: Entry, rest: seq<Entry>, x: seq<Entry>, y: seq<Entry>)
    requires multiset([e] + rest) == multiset(x + [e] + y)
    ensures multiset(rest) == multiset(x + y)
  {
    var r, s := multiset(rest), multiset(x) + multiset(y);
    assert multiset([e] + rest) == multiset{e} + r;
    assert multiset(x + [e] + y) == multiset(x) + multiset{e} + multiset(y) == multiset{e} + s;
    assert r == (multiset{e} + r) - multiset{e};
    assert s == (multiset{e} + s) - multiset{e};
    assert multiset(x + y) == s;
  }

  lemma SplitAt(b: seq<Entry>, e: Entry, a: seq<Entry>) returns (x: seq<Entry>, y: seq<Entry>)
    requires e in a && multiset(a) == multiset(b)
    ensures b == x + [e] + y
  {
    assert e in multiset(a) && e in multiset(b);
    var i :| 0 <= i < |b| && b[i] == e;
    x, y := b[..i], b[i + 1..];
  }

  /** What is visited does not depend on which task an entry is listed in. */
  lemma {:induction false} EntryVisitsPermute(p: Plan, path: Path, a: seq<Entry>, b: seq<Entry>)
    requires multiset(a) == multiset(b)
    ensures multiset(EntryVisits(p, path, a)) == multiset(EntryVisits(p, path, b))
    decreases |a|
  {
    if a == [] {
      assert |multiset(b)| == 0;
    } else {
      var x, y := SplitAt(b, a[0], a);
      var e, rest := a[0], a[1..];
      assert a == [e] + rest && a == [] + [e] + rest && [] + rest == rest;
      WithoutOne(e, rest, x, y);
      EntryVisitsPermute(p, path, rest, x + y);
      EntryVisitsMiddle(p, path, x, e, y);
      EntryVisitsMiddle(p, path, [], e, rest);
    }
  }

  lemma FlattenStep(p: Plan, path: Path, m: TaskMap, k: nat)
    requires 0 < k <= |m|
    ensures EntryVisits(p, path, Flatten(m[..k])) ==
            EntryVisits(p, path, Flatten(m[..k - 1])) + EntryVisits(p, path, m[k - 1])
  {
    assert m[..k] == m[..k - 1] + [m[k - 1]];
    FlattenAppend(m[..k - 1], m[k - 1]);
    EntryVisitsConcat(p, path, Flatten(m[..k - 1]), m[k - 1]);
  }

  ghost function EntriesAt(p: Plan, path: Path): (f: nat -> multiset<Visit>)
    requires p.op.Isolator?
  {
    (t: nat) => if t < |p.op.taskMap| then multiset(EntryVisits(p, path, p.op.taskMap[t])) else multiset{}
  }

  /** The visits of the entries of the first tasks. */
  ghost function EntriesBelow(p: Plan, path: Path): (g: nat -> multiset<Visit>)
    requires p.op.Isolator?
  {
    (k: nat) => if k <= |p.op.taskMap| then multiset(EntryVisits(p, path, Flatten(p.op.taskMap[..k]))) else multiset{}
  }

  lemma EntriesAdd(p: Plan, path: Path, t: nat)
    requires p.op.Isolator? && t < |p.op.taskMap|
    ensures Adds(EntriesAt(p, path), EntriesBelow(p, path), t)
  {
    var m := p.op.taskMap;
    FlattenStep(p, path, m, t + 1);
    Concatenated(EntryVisits(p, path, Flatten(m[..t])), EntryVisits(p, path, m[t]));
  }

  lemma IsolatorAt(p: Plan, path: Path, tasks: nat, t: nat)
    requires p.op.Isolator? && t < |p.op.taskMap|
    ensures IsSum(VisitsAt(p, path, tasks), OwnAt(path, tasks), EntriesAt(p, path), t)
  {
    Concatenated([(path, Ctx(t, tasks))], EntryVisits(p, path, p.op.taskMap[t]));
  }

  lemma IsolatorVisits(p: Plan, path: Path, tasks: nat, k: nat)
    requires p.op.Isolator? && k <= |p.op.taskMap|
    ensures TaskVisits(p, path, tasks, k) ==
            Own(path, tasks, k) + multiset(EntryVisits(p, path, Flatten(p.op.taskMap[..k])))
  {
    var f, g, h := VisitsAt(p, path, tasks), OwnAt(path, tasks), EntriesAt(p, path);
    forall t: nat | t < k ensures IsSum(f, g, h, t) {
      IsolatorAt(p, path, tasks, t);
    }
    SumSplits(f, g, h, k);
    forall t: nat | t < k ensures Adds(h, EntriesBelow(p, path), t) {
      EntriesAdd(p, path, t);
    }
    assert p.op.taskMap[..0] == [];
    Telescope(h, EntriesBelow(p, path), k);
  }

  lemma SlotsOfStep(p: Plan, path: Path, c: nat, n: nat, k: nat)
    requires c < |p.children| && 0 < k <= n
    ensures EntryVisits(p, path, SlotsOf(c, n)[..k]) ==
            EntryVisits(p, path, SlotsOf(c, n)[..k - 1]) + Visits(p.children[c], path + [c], Ctx(k - 1, n))
  {
    var es := SlotsOf(c, n);
    var last: Entry := (c, Ctx(k - 1, n));
    assert es[..k] == es[..k - 1] + [last];
    EntryVisitsConcat(p, path, es[..k - 1], [last]);
    assert [last][1..] == [];
  }

  ghost function SlotsBelow(p: Plan, path: Path, c: nat, n: nat): (g: nat -> multiset<Visit>) {
    (k: nat) => if k <= n then multiset(EntryVisits(p, path, SlotsOf(c, n)[..k])) else multiset{}
  }

  lemma SlotsAdd(p: Plan, path: Path, c: nat, n: nat, t: nat)
    requires c < |p.children| && t < n
    ensures Adds(VisitsAt(p.children[c], path + [c], n), SlotsBelow(p, path, c, n), t)
  {
    SlotsOfStep(p, path, c, n, t + 1);
    Concatenated(EntryVisits(p, path, SlotsOf(c, n)[..t]), Visits(p.children[c], path + [c], Ctx(t, n)));
  }

  /** A child's contexts, listed in order, are visited like the tasks of a stage of their own. */
  lemma SlotVisits(p: Plan, path: Path, c: nat, n: nat, k: nat)
    requires c < |p.children| && k <= n
    ensures multiset(EntryVisits(p, path, SlotsOf(c, n)[..k])) == TaskVisits(p.children[c], path + [c], n, k)
  {
    var f, g := VisitsAt(p.children[c], path + [c], n), SlotsBelow(p, path, c, n);
    forall t: nat | t < k ensures Adds(f, g, t) {
      SlotsAdd(p, path, c, n, t);
    }
    assert SlotsOf(c, n)[..0] == [];
    Telescope(f, g, k);
  }

  lemma ChildSlotVisits(p: Plan, path: Path, c: nat, n: nat)
    requires c < |p.children|
    ensures multiset(EntryVisits(p, path, SlotsOf(c, n))) == AllVisits(p.children[c], path + [c], n)
  {
    SlotVisits(p, path, c, n, n);
    assert SlotsOf(c, n)[..n] == SlotsOf(c, n);
  }

  lemma SlotsToStep(p: Plan, path: Path, counts: seq<nat>, c: nat)
    requires c < |counts| && c < |p.children|
    ensures multiset(EntryVisits(p, path, SlotsTo(counts, c + 1))) ==
            multiset(EntryVisits(p, path, SlotsTo(counts, c)))
            + multiset(EntryVisits(p, path, SlotsOf(c, counts[c])))
  {
    EntryVisitsConcat(p, path, SlotsTo(counts, c), SlotsOf(c, counts[c]));
    Concatenated(EntryVisits(p, path, SlotsTo(counts, c)), EntryVisits(p, path, SlotsOf(c, counts[c])));
  }

  ghost function ExpectedAt(p: Plan, path: Path, tasks: nat): (f: nat -> multiset<Visit>) {
    (c: nat) =>
      if c < |p.children| then Expected(p.children[c], path + [c], ChildTaskCount(p.op, tasks, c)) else multiset{}
  }

  ghost function SlotsUpTo(p: Plan, path: Path, counts: seq<nat>): (g: nat -> multiset<Visit>) {
    (c: nat) => if c <= |counts| then multiset(EntryVisits(p, path, SlotsTo(counts, c))) else multiset{}
  }

  lemma SlotsAddChild(p: Plan, path: Path, tasks: nat, counts: seq<nat>, c: nat)
    requires c < |p.children| == |counts| && counts[c] == ChildTaskCount(p.op, tasks, c)
    requires ChildCovered(p, path, tasks, c)
    ensures Adds(ExpectedAt(p, path, tasks), SlotsUpTo(p, path, counts), c)
  {
    SlotsOfChild(p, path, tasks, c);
    SlotsUpToNext(p, path, counts, c);
    AddsUp(ExpectedAt(p, path, tasks), SlotsUpTo(p, path, counts), c,
           multiset(EntryVisits(p, path, SlotsOf(c, counts[c]))));
  }

  lemma SlotsUpToNext(p: Plan, path: Path, counts: seq<nat>, c: nat)
    requires c < |counts| && c < |p.children|
    ensures var g := SlotsUpTo(p, path, counts);
            g(c + 1) == g(c) + multiset(EntryVisits(p, path, SlotsOf(c, counts[c])))
  {
    SlotsToStep(p, path, counts, c);
    SlotsUpToAt(p, path, counts, c);
    SlotsUpToAt(p, path, counts, c + 1);
  }

  lemma SlotsUpToAt(p: Plan, path: Path, counts: seq<nat>, c: nat)
    requires c <= |counts|
    ensures SlotsUpTo(p, path, counts)(c) == multiset(EntryVisits(p, path, SlotsTo(counts, c)))
  {
  }

  lemma SlotsOfChild(p: Plan, path: Path, tasks: nat, c: nat)
    requires c < |p.children| && ChildCovered(p, path, tasks, c)
    ensures multiset(EntryVisits(p, path, SlotsOf(c, ChildTaskCount(p.op, tasks, c)))) ==
            ExpectedAt(p, path, tasks)(c)
  {
    ChildSlotVisits(p, path, c, ChildTaskCount(p.op, tasks, c));
  }

  /** The slots of all children are visited as often as the children are expected to be. */
  lemma AllSlotVisits(p: Plan, path: Path, tasks: nat, counts: seq<nat>)
    requires |p.children| == |counts|
    requires forall i | 0 <= i < |counts| :: counts[i] == ChildTaskCount(p.op, tasks, i)
    requires ChildrenCovered(p, path, tasks)
    ensures multiset(EntryVisits(p, path, Slots(counts))) == ExpectedBelow(p, 0, path, tasks)
  {
    var f, g := ExpectedAt(p, path, tasks), SlotsUpTo(p, path, counts);
    forall c: nat | c < |counts| ensures Adds(f, g, c) {
      assert ChildCovered(p, path, tasks, c);
      SlotsAddChild(p, path, tasks, counts, c);
    }
    assert EntryVisits(p, path, SlotsTo(counts, 0)) == [];
    Telescope(f, g, |counts|);
    ExpectedSum(p, path, tasks);
  }

  ghost function ExpectedFrom(p: Plan, path: Path, tasks: nat): (h: nat -> multiset<Visit>) {
    (c: nat) => if c <= |p.children| then ExpectedBelow(p, c, path, tasks) else multiset{}
  }

  lemma ExpectedLeaves(p: Plan, path: Path, tasks: nat, c: nat)
    requires c < |p.children|
    ensures Leaves(ExpectedAt(p, path, tasks), ExpectedFrom(p, path, tasks), c)
  {
  }

  lemma ExpectedSum(p: Plan, path: Path, tasks: nat)
    ensures SumBelow(ExpectedAt(p, path, tasks), |p.children|) == ExpectedBelow(p, 0, path, tasks)
  {
    var f, h := ExpectedAt(p, path, tasks), ExpectedFrom(p, path, tasks);
    forall c: nat | c < |p.children| ensures Leaves(f, h, c) {
      ExpectedLeaves(p, path, tasks, c);
    }
    Countdown(f, h, |p.children|);
    assert h(|p.children|) == multiset{};
    assert SumBelow(f, |p.children|) + multiset{} == SumBelow(f, |p.children|);
  }

  lemma BoundaryVisits(p: Plan, path: Path, tasks: nat, k: nat)
    requires p.op.Boundary?
    ensures TaskVisits(p, path, tasks, k) == Own(path, tasks, k)
  {
    forall t: nat | t < k ensures VisitsAt(p, path, tasks)(t) == OwnAt(path, tasks)(t) {
      assert Visits(p, path, Ctx(t, tasks)) == [(path, Ctx(t, tasks))];
    }
    SumsAgree(VisitsAt(p, path, tasks), OwnAt(path, tasks), k);
  }

  lemma WellPlacedChild(p: Plan, tasks: nat, c: nat)
    requires WellPlaced(p, tasks) && !p.op.Boundary? && c < |p.children|
    ensures WellPlaced(p.children[c], ChildTaskCount(p.op, tasks, c))
  {
  }

  /** Exact coverage: the visits of all tasks of a stage are each node of the stage, once for each
      index below its effective task count. */
  lemma {:induction false} CoverageIsExact(p: Plan, path: Path, tasks: nat)
    requires WellPlaced(p, tasks)
    ensures AllVisits(p, path, tasks) == Expected(p, path, tasks)
    decreases p
  {
    if p.op.Boundary? {
      BoundaryVisits(p, path, tasks, tasks);
    } else {
      forall c | 0 <= c < |p.children| ensures ChildCovered(p, path, tasks, c) {
        WellPlacedChild(p, tasks, c);
        CoverageIsExact(p.children[c], path + [c], ChildTaskCount(p.op, tasks, c));
      }
      if p.op.Isolator? {
        IsolatorCovered(p, path, tasks);
      } else {
        OrdinaryVisits(p, path, tasks, tasks);
        BelowIsExpected(p, 0, path, tasks);
      }
    }
  }

  /** Which task an entry is listed in does not matter: the slots in child order give the same. */
  lemma IsolatorEntries(p: Plan, path: Path, tasks: nat)
    requires p.op.Isolator? && Routed(p.op.taskMap, tasks, |p.children|)
    ensures AllVisits(p, path, tasks)
            == Own(path, tasks, tasks) + multiset(EntryVisits(p, path, Slots(ChildCounts(p.op.taskMap, |p.children|))))
  {
    var m := p.op.taskMap;
    IsolatorVisits(p, path, tasks, tasks);
    assert m[..tasks] == m;
    FlattenEntries(m);
    EntryVisitsPermute(p, path, Flatten(m), Slots(ChildCounts(m, |p.children|)));
  }

  lemma IsolatorCovered(p: Plan, path: Path, tasks: nat)
    requires p.op.Isolator? && Routed(p.op.taskMap, tasks, |p.children|)
    requires ChildrenCovered(p, path, tasks)
    ensures AllVisits(p, path, tasks) == Expected(p, path, tasks)
  {
    var counts := ChildCounts(p.op.taskMap, |p.children|);
    IsolatorEntries(p, path, tasks);
    AllSlotVisits(p, path, tasks, counts);
  }
}
