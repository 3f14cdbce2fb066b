/** Exact coverage, counted node by node, and what it means for work-unit feeds. */
module FeedTiling {
  import opened Wrappers
  import opened Arithmetic
  import opened Bags
  import opened Plans
  import opened IsolatorUnion
  import opened ContextTraversal
  import opened ContextEquivalence
  import opened Coverage
  import TaskCounts

  /** The task count of the node at `q`, if it belongs to the stage. */
  function EffectiveCount(p: Plan, tasks: nat, q: Path): (n: Option<nat>)
    decreases p
  {
    if q == [] then Some(tasks)
    else if p.op.Boundary? || q[0] >= |p.children| then None
    else EffectiveCount(p.children[q[0]], ChildTaskCount(p.op, tasks, q[0]), q[1..])
  }

  /** No boundary lies between the root and the node at `q`. */
  predicate InStage(p: Plan, q: Path)
    decreases p
  {
    q == [] || (!p.op.Boundary? && (q[0] < |p.children| ==> InStage(p.children[q[0]], q[1..])))
  }

  /** Within the stage it is the count that the task-count traversals hand to the node. */
  lemma {:induction false} EffectiveCountIsHandedDown(p: Plan, tasks: nat, q: Path)
    ensures EffectiveCount(p, tasks, q) == if InStage(p, q) then TaskCounts.CountAt(p, tasks, q) else None
    decreases p
  {
    if q != [] && q[0] < |p.children| {
      EffectiveCountIsHandedDown(p.children[q[0]], ChildTaskCount(p.op, tasks, q[0]), q[1..]);
    }
  }

  function Once(b: bool): (n: nat) {
    if b then 1 else 0
  }

  lemma {:induction false} OwnCount(path: Path, tasks: nat, k: nat, v: Visit)
    ensures Own(path, tasks, k)[v] == Once(v.0 == path && v.1.count == tasks && v.1.index < k)
  {
    if k > 0 {
      OwnCount(path, tasks, k - 1, v);
    }
  }

  lemma {:induction false} NothingOutside(p: Plan, path: Path, tasks: nat, v: Visit)
    requires !(path <= v.0)
    ensures Expected(p, path, tasks)[v] == 0
    decreases p, 1, 0
  {
    OwnCount(path, tasks, tasks, v);
    if !p.op.Boundary? {
      NothingOutsideBelow(p, 0, path, tasks, v);
    }
  }

  lemma {:induction false} NothingOutsideBelow(p: Plan, c: nat, path: Path, tasks: nat, v: Visit)
    requires c <= |p.children| && forall i | c <= i < |p.children| :: !(path + [i] <= v.0)
    ensures ExpectedBelow(p, c, path, tasks)[v] == 0
    decreases p, 0, |p.children| - c
  {
    if c < |p.children| {
      NothingOutside(p.children[c], path + [c], ChildTaskCount(p.op, tasks, c), v);
      NothingOutsideBelow(p, c + 1, path, tasks, v);
    }
  }

  lemma {:induction false} ExpectedCount(p: Plan, path: Path, tasks: nat, q: Path, ctx: Ctx)
    ensures Expected(p, path, tasks)[(path + q, ctx)] ==
            Once(EffectiveCount(p, tasks, q) == Some(ctx.count) && ctx.index < ctx.count)
    decreases p, 1, 0
  {
    var v := (path + q, ctx);
    OwnCount(path, tasks, tasks, v);
    if q == [] {
      assert path + q == path;
      if !p.op.Boundary? {
        NothingOutsideBelow(p, 0, path, tasks, v);
      }
    } else if !p.op.Boundary? {
      assert path + q == path + [q[0]] + q[1..];
      if q[0] < |p.children| {
        BelowCount(p, path, tasks, q[0], v);
        ExpectedCount(p.children[q[0]], path + [q[0]], ChildTaskCount(p.op, tasks, q[0]), q[1..], ctx);
      } else {
        forall i | 0 <= i < |p.children| ensures !(path + [i] <= v.0) {
          assert v.0[|path|] == q[0];
        }
        NothingOutsideBelow(p, 0, path, tasks, v);
      }
    }
  }

  lemma BelowCountSplits(p: Plan, c: nat, path: Path, tasks: nat, v: Visit)
    requires c < |p.children|
    ensures ExpectedBelow(p, c, path, tasks)[v] ==
            Expected(p.children[c], path + [c], ChildTaskCount(p.op, tasks, c))[v] +
            ExpectedBelow(p, c + 1, path, tasks)[v]
  {
  }

  lemma OneWayDown(path: Path, i: nat, j: nat, q: Path)
    requires path + [i] <= q && i != j
    ensures !(path + [j] <= q)
  {
    assert q[|path|] == (path + [i])[|path|] == i;
    assert (path + [j])[|path|] == j;
  }

  lemma FirstCounts(p: Plan, i: nat, path: Path, tasks: nat, v: Visit)
    requires i < |p.children| && path + [i] <= v.0
    ensures ExpectedBelow(p, i, path, tasks)[v] ==
            Expected(p.children[i], path + [i], ChildTaskCount(p.op, tasks, i))[v]
  {
    forall j | i < j < |p.children| ensures !(path + [j] <= v.0) {
      OneWayDown(path, i, j, v.0);
    }
    NothingOutsideBelow(p, i + 1, path, tasks, v);
    BelowCountSplits(p, i, path, tasks, v);
  }

  lemma OtherDoesNotCount(p: Plan, c: nat, path: Path, tasks: nat, i: nat, v: Visit)
    requires c < |p.children| && c != i && path + [i] <= v.0
    ensures ExpectedBelow(p, c, path, tasks)[v] == ExpectedBelow(p, c + 1, path, tasks)[v]
  {
    OneWayDown(path, i, c, v.0);
    NothingOutside(p.children[c], path + [c], ChildTaskCount(p.op, tasks, c), v);
    BelowCountSplits(p, c, path, tasks, v);
  }

  lemma {:induction false} Steady(g: nat -> nat, c: nat, i: nat)
    requires c <= i && forall j | c <= j < i :: g(j) == g(j + 1)
    ensures g(c) == g(i)
    decreases i - c
  {
    if c < i {
      Steady(g, c + 1, i);
    }
  }

  /** Below a node, child `i` alone accounts for the nodes under it. */
  lemma BelowCount(p: Plan, path: Path, tasks: nat, i: nat, v: Visit)
    requires i < |p.children| && path + [i] <= v.0
    ensures ExpectedBelow(p, 0, path, tasks)[v] ==
            Expected(p.children[i], path + [i], ChildTaskCount(p.op, tasks, i))[v]
  {
    var g := (c: nat) => if c <= i then ExpectedBelow(p, c, path, tasks)[v] else 0;
    forall c | 0 <= c < i ensures g(c) == g(c + 1) {
      OtherDoesNotCount(p, c, path, tasks, i, v);
    }
    Steady(g, 0, i);
    FirstCounts(p, i, path, tasks, v);
  }

  /** Running the visit for every task shows node `q` in context `ctx` exactly once if `ctx` is one of
      the node's contexts, and never otherwise. */
  lemma ExactlyOnce(p: Plan, tasks: nat, q: Path, ctx: Ctx)
    requires WellPlaced(p, tasks)
    ensures AllVisits(p, [], tasks)[(q, ctx)] ==
            Once(EffectiveCount(p, tasks, q) == Some(ctx.count) && ctx.index < ctx.count)
  {
    CoverageIsExact(p, [], tasks);
    ExpectedCount(p, [], tasks, q, ctx);
    assert [] + q == q;
  }

  // ---------------------------------------------------------------- feeds

  /** A feed of the node at a path: its index among the whole stage's feeds, and the partition of
      the task's own node that it is streamed into. */
  type Opening = (Path, nat, nat)

  /** The slice of a node's feeds that one task opens. */
  function FeedSlice(path: Path, partitions: nat, ctx: Ctx): (os: seq<Opening>) {
    var start := partitions * ctx.index;
    seq(partitions, l requires 0 <= l < partitions => (path, start + l, l))
  }

  function FeedsOf(op: Op, path: Path, ctx: Ctx): (os: seq<Opening>) {
    if op.Feed? then FeedSlice(path, op.partitions, ctx) else []
  }

  function FeedOpener(): (f: Visitor<seq<Opening>>) {
    (path: Path, p: Plan, ctx: Ctx, os: seq<Opening>) => (Continue, os + FeedsOf(p.op, path, ctx))
  }

  /** The feeds a task opens. */
  function OpenFeeds(p: Plan, ctx: Ctx): (os: seq<Opening>)
    requires Fits(p, ctx)
  {
    Apply(p, [], ctx, FeedOpener(), []).1
  }

  ghost function AllOpenings(p: Plan, tasks: nat, k: nat): (os: multiset<Opening>)
    requires WellPlaced(p, tasks) && k <= tasks
  {
    SumBelow(OpeningsAt(p, tasks), k)
  }

  ghost function OpeningsAt(p: Plan, tasks: nat): (f: nat -> multiset<Opening>)
    requires WellPlaced(p, tasks)
  {
    (t: nat) =>
      if t < tasks then (WellPlacedFits(p, tasks, t); multiset(OpenFeeds(p, Ctx(t, tasks)))) else multiset{}
  }

  /** The feeds opened by a list of visits to a subtree `p` at `path`. */
  function Opened(p: Plan, path: Path, vs: seq<Visit>): (os: seq<Opening>) {
    if vs == [] then [] else
      var node := if path <= vs[0].0 then NodeAt(p, vs[0].0[|path|..]) else None;
      (if node.Some? then FeedsOf(node.value.op, vs[0].0, vs[0].1) else []) + Opened(p, path, vs[1..])
  }

  lemma {:induction false} OpenedConcat(p: Plan, path: Path, a: seq<Visit>, b: seq<Visit>)
    ensures Opened(p, path, a + b) == Opened(p, path, a) + Opened(p, path, b)
  {
    if a == [] {
      assert a + b == b;
    } else {
      assert (a + b)[0] == a[0] && (a + b)[1..] == a[1..] + b;
      OpenedConcat(p, path, a[1..], b);
    }
  }

  lemma OpenedAfter(p: Plan, path: Path, os: seq<Opening>, a: seq<Visit>, b: seq<Visit>)
    ensures os + Opened(p, path, a) + Opened(p, path, b) == os + Opened(p, path, a + b)
  {
    OpenedConcat(p, path, a, b);
  }

  lemma {:induction false} OpenedInChild(p: Plan, path: Path, c: nat, vs: seq<Visit>)
    requires c < |p.children| && Under(vs, path + [c])
    ensures Opened(p, path, vs) == Opened(p.children[c], path + [c], vs)
  {
    if vs != [] {
      var q := vs[0].0;
      assert q[|path|] == (path + [c])[|path|] == c;
      assert q[|path|..] == [c] + q[|path| + 1..];
      assert q[|path|..][1..] == q[|path + [c]|..];
      OpenedInChild(p, path, c, vs[1..]);
    }
  }

  lemma {:induction false} OpensVisits(p: Plan, path: Path, ctx: Ctx, os: seq<Opening>)
    requires Fits(p, ctx)
    ensures Apply(p, path, ctx, FeedOpener(), os) == (Continue, os + Opened(p, path, Visits(p, path, ctx)))
    decreases p, 1, 0
  {
    var now := FeedsOf(p.op, path, ctx);
    var below := Visits(p, path, ctx)[1..];
    assert Visits(p, path, ctx) == [(path, ctx)] + below;
    OpenedAfter(p, path, os, [(path, ctx)], below);
    OpenedHere(p, path, ctx);
    if p.op.Isolator? {
      OpensEntries(p, path, p.op.taskMap[ctx.index], os + now);
    } else if !p.op.Boundary? {
      OpensChildren(p, 0, path, ctx, os + now);
    }
  }

  lemma OpenedHere(p: Plan, path: Path, ctx: Ctx)
    ensures Opened(p, path, [(path, ctx)]) == FeedsOf(p.op, path, ctx)
  {
    assert path[|path|..] == [] && [(path, ctx)][1..] == [];
  }

  lemma {:induction false} OpensEntries(p: Plan, path: Path, es: seq<(nat, Ctx)>, os: seq<Opening>)
    requires FitsEntries(p, es)
    ensures ApplyEntries(p, path, es, FeedOpener(), os) == (Continue, os + Opened(p, path, EntryVisits(p, path, es)))
    decreases p, 0, |es|
  {
    if es == [] {
      assert os + [] == os;
    } else {
      var c := es[0].0;
      var first, rest := Visits(p.children[c], path + [c], es[0].1), EntryVisits(p, path, es[1..]);
      OpensVisits(p.children[c], path + [c], es[0].1, os);
      VisitsUnder(p.children[c], path + [c], es[0].1);
      OpenedInChild(p, path, c, first);
      OpensEntries(p, path, es[1..], os + Opened(p, path, first));
      OpenedAfter(p, path, os, first, rest);
    }
  }

  lemma {:induction false} OpensChildren(p: Plan, i: nat, path: Path, ctx: Ctx, os: seq<Opening>)
    requires i <= |p.children| && forall j | i <= j < |p.children| :: Fits(p.children[j], ctx)
    ensures ApplyChildren(p, i, path, ctx, FeedOpener(), os) ==
            (Continue, os + Opened(p, path, ChildVisits(p, i, path, ctx)))
    decreases p, 0, |p.children| - i
  {
    if i == |p.children| {
      assert os + [] == os;
    } else {
      var first, rest := Visits(p.children[i], path + [i], ctx), ChildVisits(p, i + 1, path, ctx);
      OpensVisits(p.children[i], path + [i], ctx, os);
      VisitsUnder(p.children[i], path + [i], ctx);
      OpenedInChild(p, path, i, first);
      OpensChildren(p, i + 1, path, ctx, os + Opened(p, path, first));
      OpenedAfter(p, path, os, first, rest);
    }
  }

  // ---------------------------------------------------------------- tiling

  /** Does opening `o` belong to a feed node of this stage with `n` tasks: index in range, and local
      partition the remainder? */
  predicate Tile(p: Plan, o: Opening) {
    var node := NodeAt(p, o.0);
    node.Some? && node.value.op.Feed? && node.value.op.partitions > 0 && o.2 == o.1 % node.value.op.partitions
  }

  lemma SliceCount(path: Path, partitions: nat, ctx: Ctx, o: Opening)
    ensures multiset(FeedSlice(path, partitions, ctx))[o] ==
            Once(o.0 == path && partitions > 0 && o.2 == o.1 % partitions && ctx.index == o.1 / partitions)
  {
    var os := FeedSlice(path, partitions, ctx);
    forall i, j | 0 <= i < j < |os| ensures os[i] != os[j] {
    }
    if o.0 == path && partitions > 0 && o.2 == o.1 % partitions && ctx.index == o.1 / partitions {
      assert os[o.2] == o;
      CountOne(os, o.2);
    } else {
      forall i | 0 <= i < |os| ensures os[i] != o {
        DivMod(ctx.index, i, partitions);
      }
      CountNone(os, o);
    }
  }

  lemma DivMod(k: nat, l: nat, n: nat)
    requires l < n
    ensures (n * k + l) / n == k && (n * k + l) % n == l
  {
    assert n * k + l == k * n + l;
    ModUnique(n * k + l, k, l, n);
    var d := (n * k + l) / n - k;
    assert d * n == 0;
    if d != 0 {
      MultipleIsFar(d, n);
    }
  }

  lemma CountNone(os: seq<Opening>, o: Opening)
    requires forall i | 0 <= i < |os| :: os[i] != o
    ensures multiset(os)[o] == 0
  {
    assert o !in os;
  }

  lemma CountOne(os: seq<Opening>, i: nat)
    requires i < |os| && forall a, b | 0 <= a < b < |os| :: os[a] != os[b]
    ensures multiset(os)[os[i]] == 1
  {
    var x, y := os[..i], os[i + 1..];
    assert os == x + [os[i]] + y;
    CountNone(x, os[i]);
    CountNone(y, os[i]);
    assert multiset(os) == multiset(x) + multiset{os[i]} + multiset(y);
  }

  /** Visits to the node at `q` all count the same number of tasks. */
  ghost predicate CountsAre(vs: seq<Visit>, q: Path, n: nat) {
    forall i | 0 <= i < |vs| && vs[i].0 == q :: vs[i].1.count == n
  }

  lemma {:induction false} OpenedCount(p: Plan, vs: seq<Visit>, o: Opening, n: nat)
    requires CountsAre(vs, o.0, n)
    ensures multiset(Opened(p, [], vs))[o] ==
            (if Tile(p, o) then multiset(vs)[(o.0, Ctx(o.1 / NodeAt(p, o.0).value.op.partitions, n))] else 0)
  {
    if vs != [] {
      OpenedCount(p, vs[1..], o, n);
      var v := vs[0];
      assert v.0[0..] == v.0;
      var node := NodeAt(p, v.0);
      var first := if node.Some? then FeedsOf(node.value.op, v.0, v.1) else [];
      assert multiset(Opened(p, [], vs)) == multiset(first) + multiset(Opened(p, [], vs[1..]));
      assert vs == [v] + vs[1..];
      assert multiset(vs) == multiset{v} + multiset(vs[1..]);
      if node.Some? && node.value.op.Feed? {
        SliceCount(v.0, node.value.op.partitions, v.1, o);
      }
      if v.0 == o.0 {
        assert v.1.count == n;
      }
    }
  }

  lemma {:induction false} VisitedByTask(p: Plan, tasks: nat, k: nat, i: nat, v: Visit)
    requires i < k && v in Visits(p, [], Ctx(i, tasks))
    ensures v in TaskVisits(p, [], tasks, k)
  {
    if i < k - 1 {
      VisitedByTask(p, tasks, k - 1, i, v);
    }
  }

  lemma TaskCountsAre(p: Plan, tasks: nat, i: nat, q: Path, n: nat)
    requires WellPlaced(p, tasks) && i < tasks
    requires EffectiveCount(p, tasks, q).Some? ==> n == EffectiveCount(p, tasks, q).value
    ensures CountsAre(Visits(p, [], Ctx(i, tasks)), q, n)
  {
    var vs := Visits(p, [], Ctx(i, tasks));
    forall j | 0 <= j < |vs| && vs[j].0 == q ensures vs[j].1.count == n {
      assert vs[j] in vs;
      VisitedByTask(p, tasks, tasks, i, vs[j]);
      ExactlyOnce(p, tasks, q, vs[j].1);
    }
  }

  /** The visit that makes opening `o`, among `n` tasks. */
  ghost function VisitFor(p: Plan, o: Opening, n: nat): (v: Visit)
    requires Tile(p, o)
  {
    (o.0, Ctx(o.1 / NodeAt(p, o.0).value.op.partitions, n))
  }

  lemma OpeningsAreVisits(p: Plan, tasks: nat, k: nat, o: Opening, n: nat)
    requires WellPlaced(p, tasks) && k <= tasks
    requires EffectiveCount(p, tasks, o.0).Some? ==> n == EffectiveCount(p, tasks, o.0).value
    ensures AllOpenings(p, tasks, k)[o] ==
            if Tile(p, o) then TaskVisits(p, [], tasks, k)[VisitFor(p, o, n)] else 0
  {
    var f, g := OpeningsAt(p, tasks), VisitsAt(p, [], tasks);
    forall t: nat | t < k ensures f(t)[o] == if Tile(p, o) then g(t)[VisitFor(p, o, n)] else 0 {
      TaskOpensVisits(p, tasks, t, o, n);
    }
    if Tile(p, o) {
      SameCounts(f, g, o, VisitFor(p, o, n), k);
    } else {
      NoCounts(f, o, k);
    }
  }

  lemma TaskOpensVisits(p: Plan, tasks: nat, i: nat, o: Opening, n: nat)
    requires WellPlaced(p, tasks) && i < tasks
    requires EffectiveCount(p, tasks, o.0).Some? ==> n == EffectiveCount(p, tasks, o.0).value
    ensures Fits(p, Ctx(i, tasks))
    ensures multiset(OpenFeeds(p, Ctx(i, tasks)))[o] ==
            if Tile(p, o) then multiset(Visits(p, [], Ctx(i, tasks)))[VisitFor(p, o, n)] else 0
  {
    var ctx := Ctx(i, tasks);
    WellPlacedFits(p, tasks, i);
    OpensVisits(p, [], ctx, []);
    assert OpenFeeds(p, ctx) == Opened(p, [], Visits(p, [], ctx));
    TaskCountsAre(p, tasks, i, o.0, n);
    OpenedCount(p, Visits(p, [], ctx), o, n);
  }

  /** Feed tiling: over all tasks of a stage, feed `o.1` of the node at `o.0` is opened exactly once,
      by one task, into partition `o.2` of that task, exactly if `o.1` is one of the node's
      partitions-times-tasks feeds and `o.2` is its remainder by the partitions. */
  lemma FeedsTile(p: Plan, tasks: nat, o: Opening)
    requires WellPlaced(p, tasks)
    ensures AllOpenings(p, tasks, tasks)[o] ==
            Once(&& Tile(p, o) && EffectiveCount(p, tasks, o.0).Some?
                 && o.1 < NodeAt(p, o.0).value.op.partitions * EffectiveCount(p, tasks, o.0).value)
  {
    var count := EffectiveCount(p, tasks, o.0);
    var n := if count.Some? then count.value else 0;
    OpeningsAreVisits(p, tasks, tasks, o, n);
    if Tile(p, o) {
      var parts := NodeAt(p, o.0).value.op.partitions;
      ExactlyOnce(p, tasks, o.0, Ctx(o.1 / parts, n));
      QuotientInRange(o.1, parts, n);
    }
  }
}
