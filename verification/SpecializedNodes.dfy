/** What each node of a stage becomes in the plan a task is sent, and how the variants of a distributed leaf
    are dealt out to the tasks. */
module SpecializedNodes {
  import opened Wrappers
  import opened Bags
  import opened Plans
  import opened ContextTraversal
  import opened ContextEquivalence
  import opened Coverage
  import opened FeedTiling
  import opened TaskSpecialization
  import opened SpecializedRuns

  /** The context in which the node at `q` is reached, if it is. */
  function Reached(p: Plan, ctx: Ctx, q: Path): (x: Option<Ctx>)
    decreases p
  {
    if q == [] then Some(ctx)
    else if p.op.Boundary? || q[0] >= |p.children| then None
    else
      var x := ChildContexts(p, ctx)[q[0]];
      if x.None? then None else Reached(p.children[q[0]], x.value, q[1..])
  }

  /** What a node reached in context `x` becomes: a leaf the scan of the task's own variant, a feed one that
      is served remotely; every other node keeps its operator, and all but leaves their inputs. */
  predicate Becomes(a: Plan, b: Plan, x: Ctx) {
    if a.op.DistributedLeaf? then x.index < |a.op.variants| ==> b == Plan(Scan(a.op.variants[x.index]), [])
    else
      && b.op == (if a.op.Feed? then Feed(a.op.id, a.op.partitions, true) else a.op)
      && |b.children| == |a.children|
  }

  // ---------------------------------------------------------------- node by node

  lemma {:induction false} LookupIffListed(es: seq<(nat, Ctx)>, c: nat)
    ensures Lookup(es, c).Some? <==> Listed(es, c)
  {
    if es != [] {
      LookupIffListed(es[1..], c);
      if i :| 0 <= i < |es[1..]| && es[1..][i].0 == c {
        assert es[i + 1].0 == c;
      }
      assert forall i | 0 < i < |es| :: es[1..][i - 1] == es[i];
    }
  }

  lemma StepKeepsChild(p: Plan, ctx: Ctx, notes: Notes, c: nat)
    requires !p.op.DistributedLeaf? && c < |p.children|
    ensures var r, x := SpecializeStep(p, ctx, notes).0.data, ChildContexts(p, ctx)[c];
            && |r.children| == |p.children| && ChildContexts(r, ctx)[c] == x
            && r.children[c] == if x.Some? then p.children[c] else Plan(Empty, [])
  {
    if p.op.Isolator? {
      LookupIffListed(EntriesFor(p.op.taskMap, ctx), c);
    }
  }

  /** A child the task runs is walked in its context, one it does not run becomes a placeholder. */
  lemma ChildSent(p: Plan, path: Path, ctx: Ctx, notes: Notes, c: nat) returns (before: Notes)
    requires NonGrowing(SpecializeNode()) && !p.op.Boundary? && !p.op.DistributedLeaf? && c < |p.children|
    ensures var r, x := Sent(p, path, Some(ctx), notes), ChildContexts(p, ctx)[c];
            && |r.children| == |p.children|
            && r.children[c] == if x.Some? then Sent(p.children[c], path + [c], x, before) else Plan(Empty, [])
  {
    var (t, mid) := SpecializeStep(p, ctx, notes);
    NodeSent(p, path, ctx, notes);
    StepKeepsChild(p, ctx, notes, c);
    before := NthChild(t.data.children, 0, path, ChildContexts(t.data, ctx), mid, c);
  }

  lemma {:induction false} ReachedBecomes(p: Plan, path: Path, ctx: Ctx, notes: Notes, q: Path)
    requires NonGrowing(SpecializeNode()) && Unambiguous(p) && Reached(p, ctx, q).Some?
    ensures var r := Sent(p, path, Some(ctx), notes);
            && NodeAt(p, q).Some? && NodeAt(r, q).Some?
            && Becomes(NodeAt(p, q).value, NodeAt(r, q).value, Reached(p, ctx, q).value)
    decreases p
  {
    if q == [] {
      if !p.op.Boundary? {
        NodeSent(p, path, ctx, notes);
      }
    } else {
      var before := ChildSent(p, path, ctx, notes, q[0]);
      ReachedBecomes(p.children[q[0]], path + [q[0]], ChildContexts(p, ctx)[q[0]].value, before, q[1..]);
    }
  }

  /** A leaf the task does not reach is not scanned. */
  lemma {:induction false} UnreachedIsNotScanned(p: Plan, path: Path, ctx: Ctx, notes: Notes, q: Path)
    requires NonGrowing(SpecializeNode()) && Unambiguous(p) && Reached(p, ctx, q).None?
    requires NodeAt(p, q).Some? && NodeAt(p, q).value.op.DistributedLeaf?
    ensures var n := NodeAt(Sent(p, path, Some(ctx), notes), q); n.Some? ==> !n.value.op.Scan?
    decreases p
  {
    if p.op.Boundary? {
      assert Sent(p, path, Some(ctx), notes) == p;
    } else {
      var c := q[0];
      var before := ChildSent(p, path, ctx, notes, c);
      var x := ChildContexts(p, ctx)[c];
      if x.Some? {
        UnreachedIsNotScanned(p.children[c], path + [c], x.value, before, q[1..]);
      }
    }
  }

  /** A child of an isolator that the task does not run becomes a placeholder. */
  lemma UnlistedIsEmpty(p: Plan, path: Path, ctx: Ctx, notes: Notes, c: nat)
    requires NonGrowing(SpecializeNode()) && p.op.Isolator? && c < |p.children|
    requires forall i | 0 <= i < |EntriesFor(p.op.taskMap, ctx)| :: EntriesFor(p.op.taskMap, ctx)[i].0 != c
    ensures NodeAt(Sent(p, path, Some(ctx), notes), [c]) == Some(Plan(Empty, []))
  {
    var before := ChildSent(p, path, ctx, notes, c);
    LookupIffListed(EntriesFor(p.op.taskMap, ctx), c);
  }

  // ---------------------------------------------------------------- the feeds a task must be served

  /** The feeds reached in a subtree, in child order, with their partition counts. */
  function FeedsReached(p: Plan, ctx: Option<Ctx>): (feeds: seq<(nat, nat)>)
    decreases p, 1
  {
    if ctx.None? then [] else
      (if p.op.Feed? then [(p.op.id, p.op.partitions)] else [])
      + if p.op.Boundary? || p.op.DistributedLeaf? then []
        else FeedsOfAll(p.children, ChildContexts(p, ctx.value))
  }

  function FeedsOfAll(cs: seq<Plan>, ctxs: seq<Option<Ctx>>): (feeds: seq<(nat, nat)>)
    requires |ctxs| == |cs|
    decreases cs, 0
  {
    if cs == [] then [] else FeedsReached(cs[0], ctxs[0]) + FeedsOfAll(cs[1..], ctxs[1..])
  }

  lemma {:induction false} SkippedFeeds(cs: seq<Plan>, rs: seq<Plan>, ctxs: seq<Option<Ctx>>)
    requires |ctxs| == |cs| == |rs| && forall c | 0 <= c < |cs| :: ctxs[c].Some? ==> rs[c] == cs[c]
    ensures FeedsOfAll(rs, ctxs) == FeedsOfAll(cs, ctxs)
  {
    if cs != [] {
      SkippedFeeds(cs[1..], rs[1..], ctxs[1..]);
    }
  }

  /** The walk notes exactly the feeds the task reaches. */
  lemma {:induction false} FeedsAreNoted(p: Plan, path: Path, ctx: Option<Ctx>, notes: Notes)
    requires NonGrowing(SpecializeNode()) && Unambiguous(p)
    ensures Down(p, path, ctx, SpecializeNode(), notes).1.feeds == notes.feeds + FeedsReached(p, ctx)
    decreases Size(p), 0
  {
    if ctx.Some? {
      var (t, mid) := SpecializeStep(p, ctx.value, notes);
      assert SpecializeNode()(path, p, ctx.value, notes) == (t, mid);
      if !p.op.Boundary? && !p.op.DistributedLeaf? {
        assert Size(SpecializeNode()(path, p, ctx.value, notes).0.data) <= Size(p);
        SentStaysUnambiguous(p, ctx.value, notes);
        FeedsBelowAreNoted(t.data.children, 0, path, ChildContexts(t.data, ctx.value), mid);
        StepKeepsFeeds(p, ctx.value, notes);
        FeedsHere(p, ctx.value, notes, FeedsOfAll(p.children, ChildContexts(p, ctx.value)));
      }
    }
  }

  /** The node's own feed is noted before those below it. */
  lemma FeedsHere(p: Plan, ctx: Ctx, notes: Notes, below: seq<(nat, nat)>)
    ensures SpecializeStep(p, ctx, notes).1.feeds + below ==
            notes.feeds + ((if p.op.Feed? then [(p.op.id, p.op.partitions)] else []) + below)
  {
  }

  lemma StepKeepsFeeds(p: Plan, ctx: Ctx, notes: Notes)
    requires !p.op.DistributedLeaf?
    ensures var r := SpecializeStep(p, ctx, notes).0.data;
            && |r.children| == |p.children|
            && FeedsOfAll(r.children, ChildContexts(r, ctx)) == FeedsOfAll(p.children, ChildContexts(p, ctx))
  {
    var r := SpecializeStep(p, ctx, notes).0.data;
    forall c | 0 <= c < |p.children|
      ensures |r.children| == |p.children| && ChildContexts(r, ctx)[c] == ChildContexts(p, ctx)[c]
      ensures ChildContexts(p, ctx)[c].Some? ==> r.children[c] == p.children[c]
    {
      StepKeepsChild(p, ctx, notes, c);
    }
    assert ChildContexts(r, ctx) == ChildContexts(p, ctx);
    SkippedFeeds(p.children, r.children, ChildContexts(p, ctx));
  }

  lemma Reassociate(a: seq<(nat, nat)>, b: seq<(nat, nat)>, c: seq<(nat, nat)>)
    ensures (a + b) + c == a + (b + c)
  {
  }

  lemma SentStaysUnambiguous(p: Plan, ctx: Ctx, notes: Notes)
    requires Unambiguous(p) && !p.op.DistributedLeaf?
    ensures forall c | 0 <= c < |SpecializeStep(p, ctx, notes).0.data.children| ::
              Unambiguous(SpecializeStep(p, ctx, notes).0.data.children[c])
  {
  }

  lemma {:induction false} FeedsBelowAreNoted(cs: seq<Plan>, i: nat, path: Path, ctxs: seq<Option<Ctx>>, notes: Notes)
    requires NonGrowing(SpecializeNode()) && |ctxs| == |cs| && forall c | 0 <= c < |cs| :: Unambiguous(cs[c])
    ensures DownChildren(cs, i, path, ctxs, Continue, SpecializeNode(), notes).1.feeds ==
            notes.feeds + FeedsOfAll(cs, ctxs)
    decreases SizeAll(cs), 1
  {
    if cs != [] {
      WalkIsTaskBlind(cs[0], path + [i], ctxs[0], notes);
      FeedsAreNoted(cs[0], path + [i], ctxs[0], notes);
      var (t, mid) := Down(cs[0], path + [i], ctxs[0], SpecializeNode(), notes);
      FeedsBelowAreNoted(cs[1..], i + 1, path, ctxs[1..], mid);
      Reassociate(notes.feeds, FeedsReached(cs[0], ctxs[0]), FeedsOfAll(cs[1..], ctxs[1..]));
    }
  }

  // ---------------------------------------------------------------- reached is visited

  lemma NotUnder(vs: seq<Visit>, path: Path, v: Visit)
    requires Under(vs, path) && !(path <= v.0)
    ensures multiset(vs)[v] == 0
  {
    assert v !in vs;
  }

  lemma {:induction false} ReachedIsVisited(p: Plan, path: Path, ctx: Ctx, q: Path, x: Ctx)
    requires Unambiguous(p)
    ensures multiset(Visits(p, path, ctx))[(path + q, x)] == Once(Reached(p, ctx, q) == Some(x))
    decreases p, 1, 0
  {
    if p.op.Isolator? {
      EntriesReach(p, path, EntriesFor(p.op.taskMap, ctx), q, x);
      IsolatorReaches(p, path, ctx, q, x);
    } else if !p.op.Boundary? {
      ChildrenReach(p, 0, path, ctx, q, x);
      OrdinaryReaches(p, path, ctx, q, x);
    } else {
      HereOrBelow(path, ctx, [], q, x);
    }
  }

  lemma HereOrBelow(path: Path, ctx: Ctx, below: seq<Visit>, q: Path, x: Ctx)
    ensures multiset([(path, ctx)] + below)[(path + q, x)] == Once(q == [] && x == ctx) + multiset(below)[(path + q, x)]
  {
    assert path + q == path <==> q == [];
    OneMoreVisit((path, ctx), below, (path + q, x));
  }

  lemma IsolatorReaches(p: Plan, path: Path, ctx: Ctx, q: Path, x: Ctx)
    requires p.op.Isolator?
    requires var es := EntriesFor(p.op.taskMap, ctx);
             multiset(EntryVisits(p, path, es))[(path + q, x)] == Once(ReachedBy(p, es, q) == Some(x))
    ensures multiset(Visits(p, path, ctx))[(path + q, x)] == Once(Reached(p, ctx, q) == Some(x))
  {
    var es := EntriesFor(p.op.taskMap, ctx);
    assert Visits(p, path, ctx) == [(path, ctx)] + EntryVisits(p, path, es);
    HereOrBelow(path, ctx, EntryVisits(p, path, es), q, x);
    ReachedByEntries(p, ctx, q);
  }

  lemma OrdinaryReaches(p: Plan, path: Path, ctx: Ctx, q: Path, x: Ctx)
    requires !p.op.Isolator? && !p.op.Boundary?
    requires multiset(ChildVisits(p, 0, path, ctx))[(path + q, x)] ==
             Once(q != [] && q[0] < |p.children| && Reached(p.children[q[0]], ctx, q[1..]) == Some(x))
    ensures multiset(Visits(p, path, ctx))[(path + q, x)] == Once(Reached(p, ctx, q) == Some(x))
  {
    assert Visits(p, path, ctx) == [(path, ctx)] + ChildVisits(p, 0, path, ctx);
    HereOrBelow(path, ctx, ChildVisits(p, 0, path, ctx), q, x);
  }

  lemma ReachedByEntries(p: Plan, ctx: Ctx, q: Path)
    requires p.op.Isolator?
    ensures Reached(p, ctx, q) == if q == [] then Some(ctx) else ReachedBy(p, EntriesFor(p.op.taskMap, ctx), q)
  {
  }

  lemma OneMoreVisit(first: Visit, rest: seq<Visit>, v: Visit)
    ensures multiset([first] + rest)[v] == Once(v == first) + multiset(rest)[v]
  {
    assert multiset([first] + rest) == multiset{first} + multiset(rest);
  }

  /** Where a list of entries leads. */
  function ReachedBy(p: Plan, es: seq<(nat, Ctx)>, q: Path): (x: Option<Ctx>) {
    if q == [] || q[0] >= |p.children| || Lookup(es, q[0]).None? then None
    else Reached(p.children[q[0]], Lookup(es, q[0]).value, q[1..])
  }

  lemma {:induction false} EntriesReach(p: Plan, path: Path, es: seq<(nat, Ctx)>, q: Path, x: Ctx)
    requires DistinctChildren(es) && forall c | 0 <= c < |p.children| :: Unambiguous(p.children[c])
    ensures multiset(EntryVisits(p, path, es))[(path + q, x)] == Once(ReachedBy(p, es, q) == Some(x))
    decreases p, 0, |es|
  {
    if es != [] {
      var c, rest := es[0].0, EntryVisits(p, path, es[1..]);
      var first := if c < |p.children| then Visits(p.children[c], path + [c], es[0].1) else [];
      EntriesReach(p, path, es[1..], q, x);
      assert EntryVisits(p, path, es) == first + rest;
      VisitsAdd(first, rest, (path + q, x));
      ReachedByFirst(p, es, q);
      if c < |p.children| {
        ChildReaches(p, path, c, es[0].1, q, x);
      }
    }
  }

  lemma VisitsAdd(a: seq<Visit>, b: seq<Visit>, v: Visit)
    ensures multiset(a + b)[v] == multiset(a)[v] + multiset(b)[v]
  {
    assert multiset(a + b) == multiset(a) + multiset(b);
  }

  lemma ReachedByFirst(p: Plan, es: seq<(nat, Ctx)>, q: Path)
    requires es != [] && DistinctChildren(es)
    ensures var c := es[0].0;
            ReachedBy(p, es, q) ==
            if q != [] && q[0] == c && c < |p.children| then Reached(p.children[c], es[0].1, q[1..])
            else ReachedBy(p, es[1..], q)
    ensures q != [] && q[0] == es[0].0 ==> ReachedBy(p, es[1..], q).None?
  {
    LookupAbsent(es[1..], es[0].0);
  }

  /** The visits under child `c` are to nodes whose path leads there. */
  lemma {:induction false} ChildReaches(p: Plan, path: Path, c: nat, ctx: Ctx, q: Path, x: Ctx)
    requires c < |p.children| && Unambiguous(p.children[c])
    ensures multiset(Visits(p.children[c], path + [c], ctx))[(path + q, x)] ==
            Once(q != [] && q[0] == c && Reached(p.children[c], ctx, q[1..]) == Some(x))
    decreases p, 0, 0
  {
    if q != [] && q[0] == c {
      assert path + q == path + [c] + q[1..];
      ReachedIsVisited(p.children[c], path + [c], ctx, q[1..], x);
    } else {
      VisitsUnder(p.children[c], path + [c], ctx);
      if q == [] {
        assert |path + q| < |path + [c]|;
      } else {
        assert (path + q)[|path|] == q[0] && (path + [c])[|path|] == c;
      }
      NotUnder(Visits(p.children[c], path + [c], ctx), path + [c], (path + q, x));
    }
  }

  lemma {:induction false} ChildrenReach(p: Plan, i: nat, path: Path, ctx: Ctx, q: Path, x: Ctx)
    requires i <= |p.children| && forall c | 0 <= c < |p.children| :: Unambiguous(p.children[c])
    ensures multiset(ChildVisits(p, i, path, ctx))[(path + q, x)] ==
            Once(q != [] && i <= q[0] < |p.children| && Reached(p.children[q[0]], ctx, q[1..]) == Some(x))
    decreases p, 0, |p.children| - i + 1
  {
    if i < |p.children| {
      var first, rest := Visits(p.children[i], path + [i], ctx), ChildVisits(p, i + 1, path, ctx);
      ChildrenReach(p, i + 1, path, ctx, q, x);
      VisitsAdd(first, rest, (path + q, x));
      ChildReaches(p, path, i, ctx, q, x);
    }
  }

  // ---------------------------------------------------------------- dealing out a leaf's variants

  /** The table scanned at `q` in the plan task `t` is sent, if any. */
  ghost function ScanIn(p: Plan, tasks: nat, q: Path, t: nat): (r: multiset<nat>) {
    var node := NodeAt(PlanOf(p, t, tasks), q);
    if node.Some? && node.value.op.Scan? then multiset{node.value.op.id} else multiset{}
  }

  ghost function ScansAt(p: Plan, tasks: nat, q: Path): (f: nat -> multiset<nat>) {
    (t: nat) => ScanIn(p, tasks, q, t)
  }

  /** The variant a visit of the leaf at `q` stands for. */
  ghost function Variant(q: Path, variants: seq<nat>): (f: Visit -> multiset<nat>) {
    (v: Visit) => if v.0 == q && v.1.index < |variants| then multiset{variants[v.1.index]} else multiset{}
  }

  ghost function Visiting(q: Path): (keep: Visit -> bool) {
    (v: Visit) => v.0 == q
  }

  lemma ScanIsVariant(p: Plan, tasks: nat, q: Path, t: nat, variants: seq<nat>)
    requires Unambiguous(p) && NodeAt(p, q).Some? && NodeAt(p, q).value.op == DistributedLeaf(variants)
    requires Reached(p, Ctx(t, tasks), q).Some? ==> Reached(p, Ctx(t, tasks), q).value.index < |variants|
    ensures var x := Reached(p, Ctx(t, tasks), q);
            ScanIn(p, tasks, q, t) == if x.Some? then multiset{variants[x.value.index]} else multiset{}
  {
    SpecializingShrinks();
    var ctx := Ctx(t, tasks);
    assert PlanOf(p, t, tasks) == Sent(p, [], Some(ctx), Notes(false, []));
    if Reached(p, ctx, q).Some? {
      ReachedBecomes(p, [], ctx, Notes(false, []), q);
    } else {
      UnreachedIsNotScanned(p, [], ctx, Notes(false, []), q);
    }
  }

  /** What one task visits at `q`. */
  lemma VisitedAt(p: Plan, ctx: Ctx, q: Path)
    requires Unambiguous(p)
    ensures var x := Reached(p, ctx, q);
            Kept(multiset(Visits(p, [], ctx)), Visiting(q)) == if x.Some? then multiset{(q, x.value)} else multiset{}
  {
    var vs, x := multiset(Visits(p, [], ctx)), Reached(p, ctx, q);
    var want := if x.Some? then multiset{(q, x.value)} else multiset{};
    forall v ensures Kept(vs, Visiting(q))[v] == want[v] {
      KeptCounts(vs, Visiting(q), v);
      assert [] + q == q;
      ReachedIsVisited(p, [], ctx, q, v.1);
    }
  }

  lemma TaskVariant(p: Plan, ctx: Ctx, q: Path, variants: seq<nat>)
    requires Unambiguous(p) && (Reached(p, ctx, q).Some? ==> Reached(p, ctx, q).value.index < |variants|)
    ensures var x := Reached(p, ctx, q);
            FlatMap(multiset(Visits(p, [], ctx)), Variant(q, variants)) ==
            if x.Some? then multiset{variants[x.value.index]} else multiset{}
  {
    var x := Reached(p, ctx, q);
    FlatMapKept(multiset(Visits(p, [], ctx)), Visiting(q), Variant(q, variants));
    VisitedAt(p, ctx, q);
    if x.Some? {
      FlatMapOne((q, x.value), Variant(q, variants));
    }
  }

  lemma {:induction false} OwnVariants(q: Path, variants: seq<nat>, k: nat)
    requires k <= |variants|
    ensures FlatMap(Own(q, |variants|, k), Variant(q, variants)) == multiset(variants[..k])
  {
    if k > 0 {
      OwnVariants(q, variants, k - 1);
      var v := (q, Ctx(k - 1, |variants|));
      FlatMapSum(Own(q, |variants|, k - 1), multiset{v}, Variant(q, variants));
      FlatMapOne(v, Variant(q, variants));
      TakeOneMore(variants, k);
    }
  }

  lemma TakeOneMore(xs: seq<nat>, k: nat)
    requires 0 < k <= |xs|
    ensures multiset(xs[..k]) == multiset(xs[..k - 1]) + multiset{xs[k - 1]}
  {
    assert xs[..k] == xs[..k - 1] + [xs[k - 1]];
  }

  /** All tasks together visit the node at `q` once in each of its contexts. */
  lemma AllVisitedAt(p: Plan, tasks: nat, q: Path, n: nat)
    requires WellPlaced(p, tasks) && EffectiveCount(p, tasks, q) == Some(n)
    ensures Kept(AllVisits(p, [], tasks), Visiting(q)) == Own(q, n, n)
  {
    forall v ensures Kept(AllVisits(p, [], tasks), Visiting(q))[v] == Own(q, n, n)[v] {
      KeptCounts(AllVisits(p, [], tasks), Visiting(q), v);
      OwnCount(q, n, n, v);
      ExactlyOnce(p, tasks, q, v.1);
    }
  }

  lemma ReachedInRange(p: Plan, tasks: nat, q: Path, t: nat, n: nat)
    requires WellPlaced(p, tasks) && Unambiguous(p) && t < tasks && EffectiveCount(p, tasks, q) == Some(n)
    ensures var x := Reached(p, Ctx(t, tasks), q); x.Some? ==> x.value.index < n
  {
    var ctx := Ctx(t, tasks);
    var x := Reached(p, ctx, q);
    if x.Some? {
      assert [] + q == q;
      ReachedIsVisited(p, [], ctx, q, x.value);
      assert (q, x.value) in Visits(p, [], ctx);
      VisitedByTask(p, tasks, tasks, t, (q, x.value));
      ExactlyOnce(p, tasks, q, x.value);
    }
  }

  /** Every variant is scanned once: over all tasks of a stage, the tables scanned where a leaf with one
      variant for each of its tasks stood are exactly the leaf's variants. */
  lemma VariantsAreDealt(p: Plan, tasks: nat, q: Path, variants: seq<nat>)
    requires WellPlaced(p, tasks) && Unambiguous(p)
    requires NodeAt(p, q).Some? && NodeAt(p, q).value.op == DistributedLeaf(variants)
    requires EffectiveCount(p, tasks, q) == Some(|variants|)
    ensures SumBelow(ScansAt(p, tasks, q), tasks) == multiset(variants)
  {
    var f, g, h := VisitsAt(p, [], tasks), ScansAt(p, tasks, q), Variant(q, variants);
    forall t: nat | t < tasks ensures g(t) == FlatMap(f(t), h) {
      ReachedInRange(p, tasks, q, t, |variants|);
      ScanIsVariant(p, tasks, q, t, variants);
      TaskVariant(p, Ctx(t, tasks), q, variants);
    }
    SumOfFlatMaps(f, g, h, tasks);
    AllVisitedAt(p, tasks, q, |variants|);
    FlatMapKept(AllVisits(p, [], tasks), Visiting(q), h);
    OwnVariants(q, variants, |variants|);
    assert variants[..|variants|] == variants;
  }
}
