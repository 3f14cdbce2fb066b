/** A task that runs its specialized plan runs the same nodes, in the same contexts, as if it had
    been sent the whole stage. */
module SpecializedRuns {
  import opened Wrappers
  import opened Plans
  import opened ContextTraversal
  import opened ContextEquivalence
  import opened TaskSpecialization

  /** No task runs a child of an isolator twice, and task-specific leaves are leaves. */
  predicate Unambiguous(p: Plan)
    decreases p
  {
    && (p.op.Isolator? ==> forall t | 0 <= t < |p.op.taskMap| :: DistinctChildren(p.op.taskMap[t]))
    && (p.op.DistributedLeaf? ==> p.children == [])
    && forall c | 0 <= c < |p.children| :: Unambiguous(p.children[c])
  }

  predicate DistinctChildren(es: seq<(nat, Ctx)>) {
    forall i, j | 0 <= i < j < |es| :: es[i].0 != es[j].0
  }

  lemma {:induction false} LookupDistinct(es: seq<(nat, Ctx)>, k: nat)
    requires DistinctChildren(es) && k < |es|
    ensures Lookup(es, es[k].0) == Some(es[k].1)
  {
    if k == 0 {
      LookupAbsent(es[1..], es[0].0);
    } else {
      LookupDistinct(es[1..], k - 1);
    }
  }

  /** The walk's result for one subtree, as far as the plan goes. */
  ghost function Sent(p: Plan, path: Path, ctx: Option<Ctx>, notes: Notes): (r: Plan)
    requires NonGrowing(SpecializeNode())
  {
    Down(p, path, ctx, SpecializeNode(), notes).0.data
  }

  /** Each child is walked in its own context, after some notes. */
  lemma {:induction false} NthChild(cs: seq<Plan>, i: nat, path: Path, ctxs: seq<Option<Ctx>>, notes: Notes, c: nat)
    returns (before: Notes)
    requires NonGrowing(SpecializeNode()) && |ctxs| == |cs| && c < |cs|
    ensures var m := DownChildren(cs, i, path, ctxs, Continue, SpecializeNode(), notes).0;
            |m.children| == |cs| && m.children[c] == Sent(cs[c], path + [i + c], ctxs[c], before)
    decreases |cs|
  {
    WalkIsTaskBlind(cs[0], path + [i], ctxs[0], notes);
    var (t, mid) := Down(cs[0], path + [i], ctxs[0], SpecializeNode(), notes);
    if c > 0 {
      before := NthChild(cs[1..], i + 1, path, ctxs[1..], mid, c - 1);
    } else {
      before := notes;
      ChildrenKept(cs[1..], i + 1, path, ctxs[1..], mid);
    }
  }

  lemma {:induction false} ChildrenKept(cs: seq<Plan>, i: nat, path: Path, ctxs: seq<Option<Ctx>>, notes: Notes)
    requires NonGrowing(SpecializeNode()) && |ctxs| == |cs|
    ensures |DownChildren(cs, i, path, ctxs, Continue, SpecializeNode(), notes).0.children| == |cs|
    decreases |cs|
  {
    if cs != [] {
      WalkIsTaskBlind(cs[0], path + [i], ctxs[0], notes);
      var (t, mid) := Down(cs[0], path + [i], ctxs[0], SpecializeNode(), notes);
      ChildrenKept(cs[1..], i + 1, path, ctxs[1..], mid);
    }
  }

  /** What the walk leaves of a node with children. */
  lemma NodeSent(p: Plan, path: Path, ctx: Ctx, notes: Notes)
    requires NonGrowing(SpecializeNode()) && !p.op.Boundary?
    ensures var (t, mid) := SpecializeStep(p, ctx, notes);
            var m := DownChildren(t.data.children, 0, path, ChildContexts(t.data, ctx), Continue, SpecializeNode(),
                                  mid).0;
            Sent(p, path, Some(ctx), notes) == Plan(t.data.op, m.children) && |m.children| == |t.data.children|
  {
    var (t, mid) := SpecializeStep(p, ctx, notes);
    assert SpecializeNode()(path, p, ctx, notes) == (t, mid);
    var cs, ctxs := t.data.children, ChildContexts(t.data, ctx);
    ChildrenKept(cs, 0, path, ctxs, mid);
    UnchangedKeeps(cs, 0, path, ctxs, mid);
  }

  lemma {:induction false} UnchangedKeeps(cs: seq<Plan>, i: nat, path: Path, ctxs: seq<Option<Ctx>>, notes: Notes)
    requires NonGrowing(SpecializeNode()) && |ctxs| == |cs|
    ensures var m := DownChildren(cs, i, path, ctxs, Continue, SpecializeNode(), notes).0;
            !m.changed ==> m.children == cs
    decreases SizeAll(cs), 1
  {
    if cs != [] {
      WalkIsTaskBlind(cs[0], path + [i], ctxs[0], notes);
      UnchangedKeepsNode(cs[0], path + [i], ctxs[0], notes);
      var (t, mid) := Down(cs[0], path + [i], ctxs[0], SpecializeNode(), notes);
      UnchangedKeeps(cs[1..], i + 1, path, ctxs[1..], mid);
    }
  }

  lemma {:induction false} UnchangedKeepsNode(p: Plan, path: Path, ctx: Option<Ctx>, notes: Notes)
    requires NonGrowing(SpecializeNode())
    ensures var t := Down(p, path, ctx, SpecializeNode(), notes).0;
            !t.changed ==> t.data == p
    decreases Size(p), 0
  {
    if ctx.Some? && !p.op.Boundary? {
      var (t, mid) := SpecializeStep(p, ctx.value, notes);
      assert SpecializeNode()(path, p, ctx.value, notes) == (t, mid);
      if !t.changed {
        UnchangedKeeps(p.children, 0, path, ChildContexts(p, ctx.value), mid);
      }
    }
  }

  // ---------------------------------------------------------------- the same run

  /** Trimming away what a task does not run changes nothing about what it runs. */
  lemma {:induction false} SpecializedRunsTheSame(p: Plan, path: Path, ctx: Ctx, notes: Notes)
    requires NonGrowing(SpecializeNode()) && Unambiguous(p)
    ensures Visits(Sent(p, path, Some(ctx), notes), path, ctx) == Visits(p, path, ctx)
    decreases p, 1, 0
  {
    var r := Sent(p, path, Some(ctx), notes);
    if p.op.Boundary? {
      assert r == p;
    } else if p.op.Isolator? {
      SentShape(p, path, ctx, notes);
      var es := EntriesFor(p.op.taskMap, ctx);
      EntriesRunTheSame(p, r, path, ctx, notes, 0);
      assert es[0..] == es;
    } else if p.op.DistributedLeaf? {
      SentShape(p, path, ctx, notes);
    } else {
      SentShape(p, path, ctx, notes);
      ChildrenRunTheSame(p, r, path, ctx, notes, 0);
    }
  }

  /** A node keeps its routing and its number of children. */
  lemma SentShape(p: Plan, path: Path, ctx: Ctx, notes: Notes)
    requires NonGrowing(SpecializeNode()) && Unambiguous(p) && !p.op.Boundary?
    ensures var r := Sent(p, path, Some(ctx), notes);
            && |r.children| == |p.children| && !r.op.Boundary?
            && (p.op.Isolator? ==> r.op == p.op) && (!p.op.Isolator? ==> !r.op.Isolator?)
  {
    NodeSent(p, path, ctx, notes);
  }

  lemma ListedIsKept(p: Plan, ctx: Ctx, notes: Notes, k: nat)
    requires Unambiguous(p) && p.op.Isolator?
    requires var es := EntriesFor(p.op.taskMap, ctx); k < |es| && es[k].0 < |p.children|
    ensures var es := EntriesFor(p.op.taskMap, ctx);
            var t := SpecializeStep(p, ctx, notes).0;
            && |t.data.children| == |p.children| && t.data.children[es[k].0] == p.children[es[k].0]
            && ChildContexts(t.data, ctx)[es[k].0] == Some(es[k].1)
  {
    var es := EntriesFor(p.op.taskMap, ctx);
    LookupDistinct(es, k);
    assert Listed(es, es[k].0);
  }

  /** A child the task runs is walked in the context the task's entry gives it. */
  lemma IsolatedChild(p: Plan, path: Path, ctx: Ctx, notes: Notes, k: nat) returns (before: Notes)
    requires NonGrowing(SpecializeNode()) && Unambiguous(p) && p.op.Isolator?
    requires var es := EntriesFor(p.op.taskMap, ctx); k < |es| && es[k].0 < |p.children|
    ensures var es := EntriesFor(p.op.taskMap, ctx);
            var r := Sent(p, path, Some(ctx), notes);
            |r.children| == |p.children|
            && r.children[es[k].0] == Sent(p.children[es[k].0], path + [es[k].0], Some(es[k].1), before)
  {
    var es := EntriesFor(p.op.taskMap, ctx);
    var c := es[k].0;
    var (t, mid) := SpecializeStep(p, ctx, notes);
    ListedIsKept(p, ctx, notes, k);
    before := NthChild(t.data.children, 0, path, ChildContexts(t.data, ctx), mid, c);
    NodeSent(p, path, ctx, notes);
  }

  lemma SameEntry(p: Plan, r: Plan, path: Path, es: seq<(nat, Ctx)>)
    requires es != [] && |r.children| == |p.children|
    requires var (c, x) := es[0];
             c < |p.children| ==> Visits(r.children[c], path + [c], x) == Visits(p.children[c], path + [c], x)
    requires EntryVisits(r, path, es[1..]) == EntryVisits(p, path, es[1..])
    ensures EntryVisits(r, path, es) == EntryVisits(p, path, es)
  {
  }

  lemma {:induction false} EntriesRunTheSame(p: Plan, r: Plan, path: Path, ctx: Ctx, notes: Notes, k: nat)
    requires NonGrowing(SpecializeNode()) && Unambiguous(p) && p.op.Isolator? && k <= |EntriesFor(p.op.taskMap, ctx)|
    requires r == Sent(p, path, Some(ctx), notes)
    ensures var es := EntriesFor(p.op.taskMap, ctx);
            EntryVisits(r, path, es[k..]) == EntryVisits(p, path, es[k..])
    decreases p, 0, |EntriesFor(p.op.taskMap, ctx)| - k
  {
    var es := EntriesFor(p.op.taskMap, ctx);
    if k < |es| {
      var c, x := es[k].0, es[k].1;
      EntriesRunTheSame(p, r, path, ctx, notes, k + 1);
      assert es[k..][0] == es[k] && es[k..][1..] == es[k + 1..];
      NodeSent(p, path, ctx, notes);
      if c < |p.children| {
        var before := IsolatedChild(p, path, ctx, notes, k);
        SpecializedRunsTheSame(p.children[c], path + [c], x, before);
      }
      SameEntry(p, r, path, es[k..]);
    }
  }

  /** A child of any other node is walked in the node's own context. */
  lemma OrdinaryChild(p: Plan, path: Path, ctx: Ctx, notes: Notes, i: nat) returns (before: Notes)
    requires NonGrowing(SpecializeNode()) && i < |p.children|
    requires !p.op.Isolator? && !p.op.Boundary? && !p.op.DistributedLeaf?
    ensures var r := Sent(p, path, Some(ctx), notes);
            |r.children| == |p.children| && r.children[i] == Sent(p.children[i], path + [i], Some(ctx), before)
  {
    var (t, mid) := SpecializeStep(p, ctx, notes);
    NodeSent(p, path, ctx, notes);
    assert t.data.children == p.children && ChildContexts(t.data, ctx)[i] == Some(ctx);
    before := NthChild(p.children, 0, path, ChildContexts(t.data, ctx), mid, i);
  }

  lemma {:induction false} ChildrenRunTheSame(p: Plan, r: Plan, path: Path, ctx: Ctx, notes: Notes, i: nat)
    requires NonGrowing(SpecializeNode()) && Unambiguous(p) && i <= |p.children|
    requires !p.op.Isolator? && !p.op.Boundary? && !p.op.DistributedLeaf?
    requires r == Sent(p, path, Some(ctx), notes) && |r.children| == |p.children|
    ensures ChildVisits(r, i, path, ctx) == ChildVisits(p, i, path, ctx)
    decreases p, 0, |p.children| - i
  {
    if i < |p.children| {
      ChildrenRunTheSame(p, r, path, ctx, notes, i + 1);
      var before := OrdinaryChild(p, path, ctx, notes, i);
      SpecializedRunsTheSame(p.children[i], path + [i], ctx, before);
    }
  }
}
