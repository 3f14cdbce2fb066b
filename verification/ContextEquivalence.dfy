/** When the stack-based rewrite shows its callback what the recursive visit shows. */
module ContextEquivalence {
  import opened Wrappers
  import opened Plans
  import opened ContextTraversal
  import Union = IsolatorUnion

  ghost predicate SameRouting(a: Op, b: Op) {
    && a.Boundary? == b.Boundary? && a.Isolator? == b.Isolator?
    && (a.Isolator? ==> a.taskMap == b.taskMap)
  }

  /** The callback may change a node's payload and signal anything, but not the plan's structure. */
  ghost predicate Keeps<S(!new)>(f: Rewriter<S>) {
    forall path, p, ctx, s ::
      var data := f(path, p, ctx, s).0.data;
      data.children == p.children && SameRouting(data.op, p.op)
  }

  lemma KeepsIsNonGrowing<S(!new)>(f: Rewriter<S>)
    requires Keeps(f)
    ensures NonGrowing(f)
  {
    forall path, p, ctx, s ensures Size(f(path, p, ctx, s).0.data) <= Size(p) {
      assert f(path, p, ctx, s).0.data.children == p.children;
    }
  }

  /** The same callback as a mere visitor. */
  function Observer<S(!new)>(f: Rewriter<S>): (g: Visitor<S>) {
    (path, p, ctx, s) => var (t, s') := f(path, p, ctx, s); (t.signal, s')
  }

  predicate Ascending(es: seq<(nat, Ctx)>) {
    forall i, j | 0 <= i < j < |es| :: es[i].0 < es[j].0
  }

  /** Every isolator the context reaches lists its task's children in child order. */
  predicate InChildOrder(p: Plan, ctx: Ctx)
    requires Fits(p, ctx)
    decreases p, 1
  {
    match p.op
    case Isolator(taskMap) => Ascending(taskMap[ctx.index]) && EntriesInChildOrder(p, taskMap[ctx.index])
    case Boundary(_, _) => true
    case _ => forall i | 0 <= i < |p.children| :: InChildOrder(p.children[i], ctx)
  }

  predicate EntriesInChildOrder(p: Plan, es: seq<(nat, Ctx)>)
    requires FitsEntries(p, es)
    decreases p, 0
  {
    forall i | 0 <= i < |es| :: InChildOrder(p.children[es[i].0], es[i].1)
  }

  lemma {:induction false} LookupAscending(es: seq<(nat, Ctx)>, k: nat)
    requires Ascending(es) && k < |es|
    ensures Lookup(es, es[k].0) == Some(es[k].1)
  {
    if k == 0 {
      LookupAbsent(es[1..], es[0].0);
    } else {
      LookupAscending(es[1..], k - 1);
    }
  }

  lemma {:induction false} LookupAbsent(es: seq<(nat, Ctx)>, c: nat)
    requires forall i | 0 <= i < |es| :: es[i].0 != c
    ensures Lookup(es, c) == None
  {
    if es != [] {
      LookupAbsent(es[1..], c);
    }
  }

  /** Explicit stack refines recursion: on plans whose isolators list children in child order, any
      structure-keeping callback, with any state and any mix of signals, sees the same nodes in the
      same contexts in the same order, and the walks end alike. */
  lemma {:induction false} DownMatchesApply<S(!new)>(p: Plan, path: Path, ctx: Ctx, f: Rewriter<S>, s: S)
    requires Keeps(f) && NonGrowing(f) && Fits(p, ctx) && InChildOrder(p, ctx)
    ensures var (t, end) := Down(p, path, Some(ctx), f, s);
            (t.signal, end) == Apply(p, path, ctx, Observer(f), s)
    decreases p, 1
  {
    var (t, s') := f(path, p, ctx, s);
    assert f(path, p, ctx, s).0.data.children == p.children;
    if t.signal == Continue && !p.op.Boundary? {
      assert ChildContexts(t.data, ctx) == ChildContexts(p, ctx);
      assert p.children[0..] == p.children && ChildContexts(p, ctx)[0..] == ChildContexts(p, ctx);
      if p.op.Isolator? {
        assert p.op.taskMap[ctx.index][0..] == p.op.taskMap[ctx.index];
        EntriesMatch(p, 0, 0, path, ctx, f, s');
      } else {
        ChildrenMatch(p, 0, path, ctx, f, s');
      }
    }
  }

  lemma {:induction false} ChildrenMatch<S(!new)>(p: Plan, i: nat, path: Path, ctx: Ctx, f: Rewriter<S>, s: S)
    requires Keeps(f) && NonGrowing(f) && Fits(p, ctx) && InChildOrder(p, ctx)
    requires !p.op.Isolator? && !p.op.Boundary? && i <= |p.children|
    ensures var (m, end) := DownChildren(p.children[i..], i, path, ChildContexts(p, ctx)[i..], Continue, f, s);
            (m.signal, end) == ApplyChildren(p, i, path, ctx, Observer(f), s)
    decreases p, 0, |p.children| - i
  {
    if i < |p.children| {
      var cs, ctxs := p.children[i..], ChildContexts(p, ctx)[i..];
      assert cs[0] == p.children[i] && cs[1..] == p.children[i + 1..];
      assert ctxs[0] == Some(ctx) && ctxs[1..] == ChildContexts(p, ctx)[i + 1..];
      DownMatchesApply(p.children[i], path + [i], ctx, f, s);
      var (t, s') := Down(cs[0], path + [i], ctxs[0], f, s);
      if t.signal == Continue {
        ChildrenMatch(p, i + 1, path, ctx, f, s');
      }
    }
  }

  lemma {:induction false} EntriesMatch<S(!new)>(p: Plan, i: nat, k: nat, path: Path, ctx: Ctx, f: Rewriter<S>, s: S)
    requires Keeps(f) && NonGrowing(f) && p.op.Isolator? && Fits(p, ctx) && InChildOrder(p, ctx)
    requires i <= |p.children| && k <= |p.op.taskMap[ctx.index]|
    requires var es := p.op.taskMap[ctx.index];
             && (forall j | 0 <= j < k :: es[j].0 < i) && (forall j | k <= j < |es| :: i <= es[j].0)
             && FitsEntries(p, es[k..])
    ensures var (m, end) := DownChildren(p.children[i..], i, path, ChildContexts(p, ctx)[i..], Continue, f, s);
            (m.signal, end) == ApplyEntries(p, path, p.op.taskMap[ctx.index][k..], Observer(f), s)
    decreases p, 0, |p.children| - i, 1
  {
    var es := p.op.taskMap[ctx.index];
    assert k < |es| ==> es[k..][0] == es[k] && i < |p.children|;
    if i == |p.children| {
      assert es[k..] == [];
    } else if k < |es| && es[k].0 == i {
      ListedChildMatches(p, i, k, path, ctx, f, s);
    } else {
      EntryContexts(p, ctx, i);
      LookupAbsent(es, i);
      EntriesMatch(p, i + 1, k, path, ctx, f, s);
    }
  }

  lemma {:induction false} ListedChildMatches<S(!new)>(p: Plan, i: nat, k: nat, path: Path, ctx: Ctx, f: Rewriter<S>,
                                                       s: S)
    requires Keeps(f) && NonGrowing(f) && p.op.Isolator? && Fits(p, ctx) && InChildOrder(p, ctx)
    requires i < |p.children| && k < |p.op.taskMap[ctx.index]|
    requires var es := p.op.taskMap[ctx.index];
             && es[k].0 == i && (forall j | 0 <= j < k :: es[j].0 < i) && (forall j | k <= j < |es| :: i <= es[j].0)
             && FitsEntries(p, es[k..])
    ensures var (m, end) := DownChildren(p.children[i..], i, path, ChildContexts(p, ctx)[i..], Continue, f, s);
            (m.signal, end) == ApplyEntries(p, path, p.op.taskMap[ctx.index][k..], Observer(f), s)
    decreases p, 0, |p.children| - i, 0
  {
    var es := p.op.taskMap[ctx.index];
    assert es[k..][0] == es[k] && es[k..][1..] == es[k + 1..];
    EntryContexts(p, ctx, i);
    LookupAscending(es, k);
    DownMatchesApply(p.children[i], path + [i], es[k].1, f, s);
    var (t, s') := Down(p.children[i], path + [i], Some(es[k].1), f, s);
    if t.signal == Continue {
      EntriesMatch(p, i + 1, k + 1, path, ctx, f, s');
    }
  }

  lemma EntryContexts(p: Plan, ctx: Ctx, i: nat)
    requires p.op.Isolator? && Fits(p, ctx) && i < |p.children|
    ensures var cs, ctxs := p.children[i..], ChildContexts(p, ctx)[i..];
            && cs[0] == p.children[i] && cs[1..] == p.children[i + 1..]
            && ctxs[0] == Lookup(p.op.taskMap[ctx.index], i) && ctxs[1..] == ChildContexts(p, ctx)[i + 1..]
  {
  }

  // ---------------------------------------------------------------- visits as a list

  type Visit = (Path, Ctx)

  /** The visits of `Apply` when nothing cuts it short. */
  function Visits(p: Plan, path: Path, ctx: Ctx): (vs: seq<Visit>)
    decreases p, 1, 0
  {
    [(path, ctx)] +
    if p.op.Boundary? then []
    else if p.op.Isolator? then EntryVisits(p, path, EntriesFor(p.op.taskMap, ctx))
    else ChildVisits(p, 0, path, ctx)
  }

  function EntryVisits(p: Plan, path: Path, es: seq<(nat, Ctx)>): (vs: seq<Visit>)
    decreases p, 0, |es|
  {
    if es == [] then [] else
      (if es[0].0 < |p.children| then Visits(p.children[es[0].0], path + [es[0].0], es[0].1) else [])
      + EntryVisits(p, path, es[1..])
  }

  function ChildVisits(p: Plan, i: nat, path: Path, ctx: Ctx): (vs: seq<Visit>)
    requires i <= |p.children|
    decreases p, 0, |p.children| - i
  {
    if i == |p.children| then []
    else Visits(p.children[i], path + [i], ctx) + ChildVisits(p, i + 1, path, ctx)
  }

  /** A callback that records what it is shown and lets the walk go on. */
  function Recorder(): (f: Rewriter<seq<Visit>>) {
    (path, p, ctx, s) => (Transformed(p, false, Continue), s + [(path, ctx)])
  }

  lemma RecorderKeeps()
    ensures Keeps(Recorder()) && NonGrowing(Recorder())
  {
    forall path, p, ctx, s
      ensures Recorder()(path, p, ctx, s).0.data == p
    {
    }
    KeepsIsNonGrowing(Recorder());
  }

  lemma InFront(s: seq<Visit>, v: Visit, vs: seq<Visit>)
    ensures s + [v] + vs == s + ([v] + vs)
  {
  }

  lemma {:induction false} ApplyRecords(p: Plan, path: Path, ctx: Ctx, s: seq<Visit>)
    requires Fits(p, ctx)
    ensures Apply(p, path, ctx, Observer(Recorder()), s) == (Continue, s + Visits(p, path, ctx))
    decreases p, 1, 0
  {
    var s' := s + [(path, ctx)];
    if p.op.Isolator? {
      ApplyEntriesRecords(p, path, p.op.taskMap[ctx.index], s');
      InFront(s, (path, ctx), EntryVisits(p, path, p.op.taskMap[ctx.index]));
    } else if !p.op.Boundary? {
      ApplyChildrenRecords(p, 0, path, ctx, s');
      InFront(s, (path, ctx), ChildVisits(p, 0, path, ctx));
    } else {
      assert [(path, ctx)] + [] == [(path, ctx)];
    }
  }

  lemma EntryVisitsNext(p: Plan, path: Path, es: seq<(nat, Ctx)>, s: seq<Visit>)
    requires FitsEntries(p, es) && es != []
    ensures s + EntryVisits(p, path, es) ==
            s + Visits(p.children[es[0].0], path + [es[0].0], es[0].1) + EntryVisits(p, path, es[1..])
  {
  }

  lemma {:induction false} ApplyEntriesRecords(p: Plan, path: Path, es: seq<(nat, Ctx)>, s: seq<Visit>)
    requires FitsEntries(p, es)
    ensures ApplyEntries(p, path, es, Observer(Recorder()), s) == (Continue, s + EntryVisits(p, path, es))
    decreases p, 0, |es|
  {
    if es == [] {
      assert s + [] == s;
    } else {
      var vs := Visits(p.children[es[0].0], path + [es[0].0], es[0].1);
      ApplyRecords(p.children[es[0].0], path + [es[0].0], es[0].1, s);
      ApplyEntriesRecords(p, path, es[1..], s + vs);
      EntryVisitsNext(p, path, es, s);
    }
  }

  lemma {:induction false} ApplyChildrenRecords(p: Plan, i: nat, path: Path, ctx: Ctx, s: seq<Visit>)
    requires i <= |p.children| && forall j | i <= j < |p.children| :: Fits(p.children[j], ctx)
    ensures ApplyChildren(p, i, path, ctx, Observer(Recorder()), s) == (Continue, s + ChildVisits(p, i, path, ctx))
    decreases p, 0, |p.children| - i
  {
    if i == |p.children| {
      assert s + [] == s;
    } else {
      var vs := Visits(p.children[i], path + [i], ctx);
      ApplyRecords(p.children[i], path + [i], ctx, s);
      ApplyChildrenRecords(p, i + 1, path, ctx, s + vs);
      assert s + vs + ChildVisits(p, i + 1, path, ctx) == s + ChildVisits(p, i, path, ctx);
    }
  }

  // ---------------------------------------------------------------- pre-order

  /** `a` comes before `b` in a pre-order walk of the tree. */
  predicate PathLess(a: Path, b: Path) {
    b != [] && (a == [] || a[0] < b[0] || (a[0] == b[0] && PathLess(a[1..], b[1..])))
  }

  ghost predicate PreOrder(vs: seq<Visit>) {
    forall i, j | 0 <= i < j < |vs| :: PathLess(vs[i].0, vs[j].0)
  }

  ghost predicate Under(vs: seq<Visit>, path: Path) {
    forall i | 0 <= i < |vs| :: path <= vs[i].0
  }

  lemma {:induction false} PathLessUnder(a: Path, b: Path, path: Path, x: nat, y: nat)
    requires path + [x] <= a && path + [y] <= b && x != y
    ensures PathLess(a, b) <==> x < y
    decreases |path|
  {
    if path != [] {
      assert a[0] == path[0] == b[0];
      assert (path + [x])[1..] == path[1..] + [x] && (path + [y])[1..] == path[1..] + [y];
      PathLessUnder(a[1..], b[1..], path[1..], x, y);
    }
  }

  lemma {:induction false} ParentFirst(path: Path, b: Path)
    requires path <= b && |path| < |b|
    ensures PathLess(path, b)
  {
    if path != [] {
      ParentFirst(path[1..], b[1..]);
    }
  }

  lemma PreOrderParts(a: seq<Visit>, b: seq<Visit>)
    requires PreOrder(a + b)
    ensures PreOrder(a) && PreOrder(b)
  {
    var all := a + b;
    forall i, j | 0 <= i < j < |a| ensures PathLess(a[i].0, a[j].0) {
      assert all[i] == a[i] && all[j] == a[j];
    }
    forall i, j | 0 <= i < j < |b| ensures PathLess(b[i].0, b[j].0) {
      assert all[|a| + i] == b[i] && all[|a| + j] == b[j];
    }
  }

  // ---------------------------------------------------------------- recursive visits and pre-order

  lemma {:induction false} VisitsUnder(p: Plan, path: Path, ctx: Ctx)
    ensures Under(Visits(p, path, ctx), path) && Visits(p, path, ctx)[0].0 == path
    decreases p, 1, 0
  {
    if p.op.Isolator? {
      EntryVisitsUnder(p, path, EntriesFor(p.op.taskMap, ctx));
    } else if !p.op.Boundary? {
      ChildVisitsUnder(p, 0, path, ctx);
    }
  }

  lemma {:induction false} EntryVisitsUnder(p: Plan, path: Path, es: seq<(nat, Ctx)>)
    ensures Under(EntryVisits(p, path, es), path)
    decreases p, 0, |es|
  {
    if es != [] {
      if es[0].0 < |p.children| {
        VisitsUnder(p.children[es[0].0], path + [es[0].0], es[0].1);
      }
      EntryVisitsUnder(p, path, es[1..]);
    }
  }

  lemma {:induction false} ChildVisitsUnder(p: Plan, i: nat, path: Path, ctx: Ctx)
    requires i <= |p.children|
    ensures Under(ChildVisits(p, i, path, ctx), path)
    decreases p, 0, |p.children| - i
  {
    if i < |p.children| {
      VisitsUnder(p.children[i], path + [i], ctx);
      ChildVisitsUnder(p, i + 1, path, ctx);
    }
  }

  /** The recursive visit follows pre-order only if the lists it follows are in child order. */
  lemma {:induction false} PreOrderNeedsChildOrder(p: Plan, path: Path, ctx: Ctx)
    requires Fits(p, ctx) && PreOrder(Visits(p, path, ctx))
    ensures InChildOrder(p, ctx)
    decreases p, 1, 0
  {
    if p.op.Isolator? {
      var es := p.op.taskMap[ctx.index];
      PreOrderParts([(path, ctx)], EntryVisits(p, path, es));
      PreOrderEntries(p, path, es);
    } else if !p.op.Boundary? {
      PreOrderParts([(path, ctx)], ChildVisits(p, 0, path, ctx));
      PreOrderChildren(p, 0, path, ctx);
    }
  }

  lemma {:induction false} PreOrderEntries(p: Plan, path: Path, es: seq<(nat, Ctx)>)
    requires FitsEntries(p, es) && PreOrder(EntryVisits(p, path, es))
    ensures Ascending(es) && EntriesInChildOrder(p, es)
    decreases p, 0, |es|
  {
    if es != [] {
      PreOrderInEntries(p, path, es);
      PreOrderNeedsChildOrder(p.children[es[0].0], path + [es[0].0], es[0].1);
      PreOrderEntries(p, path, es[1..]);
      forall k | 1 <= k < |es| ensures es[0].0 < es[k].0 {
        FirstEntryIsLeast(p, path, es, k);
      }
    }
  }

  lemma PreOrderInEntries(p: Plan, path: Path, es: seq<(nat, Ctx)>)
    requires FitsEntries(p, es) && es != [] && PreOrder(EntryVisits(p, path, es))
    ensures PreOrder(Visits(p.children[es[0].0], path + [es[0].0], es[0].1))
    ensures PreOrder(EntryVisits(p, path, es[1..]))
  {
    PreOrderParts(Visits(p.children[es[0].0], path + [es[0].0], es[0].1), EntryVisits(p, path, es[1..]));
  }

  lemma FirstEntryIsLeast(p: Plan, path: Path, es: seq<(nat, Ctx)>, k: nat)
    requires FitsEntries(p, es) && PreOrder(EntryVisits(p, path, es)) && 1 <= k < |es|
    ensures es[0].0 < es[k].0
  {
    var j := LaterEntry(p, path, es, k);
    assert PathLess(EntryVisits(p, path, es)[0].0, EntryVisits(p, path, es)[j].0);
    SiblingsInOrder(path, es[0].0, es[k].0);
  }

  lemma LaterEntry(p: Plan, path: Path, es: seq<(nat, Ctx)>, k: nat) returns (j: nat)
    requires FitsEntries(p, es) && 1 <= k < |es|
    ensures var vs := EntryVisits(p, path, es);
            0 < j < |vs| && vs[0].0 == path + [es[0].0] && vs[j].0 == path + [es[k].0]
  {
    var first, rest := Visits(p.children[es[0].0], path + [es[0].0], es[0].1), EntryVisits(p, path, es[1..]);
    HeadOfEntry(p, path, es[1..], k - 1);
    var i :| 0 <= i < |rest| && rest[i].0 == path + [es[k].0];
    j := |first| + i;
    assert EntryVisits(p, path, es) == first + rest && first[0] == (path + [es[0].0], es[0].1);
  }

  lemma SiblingsInOrder(path: Path, x: nat, y: nat)
    requires PathLess(path + [x], path + [y])
    ensures x < y
  {
    if x == y {
      NotBeforeItself(path + [y]);
    } else {
      PathLessUnder(path + [x], path + [y], path, x, y);
    }
  }

  lemma {:induction false} NotBeforeItself(a: Path)
    ensures !PathLess(a, a)
  {
    if a != [] {
      NotBeforeItself(a[1..]);
    }
  }

  lemma {:induction false} HeadOfEntry(p: Plan, path: Path, es: seq<(nat, Ctx)>, k: nat)
    requires FitsEntries(p, es) && k < |es|
    ensures exists j :: 0 <= j < |EntryVisits(p, path, es)| && EntryVisits(p, path, es)[j].0 == path + [es[k].0]
    decreases |es|
  {
    var first := Visits(p.children[es[0].0], path + [es[0].0], es[0].1);
    if k == 0 {
      VisitsUnder(p.children[es[0].0], path + [es[0].0], es[0].1);
      assert EntryVisits(p, path, es)[0].0 == path + [es[0].0];
    } else {
      HeadOfEntry(p, path, es[1..], k - 1);
      var j :| 0 <= j < |EntryVisits(p, path, es[1..])| && EntryVisits(p, path, es[1..])[j].0 == path + [es[k].0];
      assert EntryVisits(p, path, es)[|first| + j].0 == path + [es[k].0];
    }
  }

  lemma {:induction false} PreOrderChildren(p: Plan, i: nat, path: Path, ctx: Ctx)
    requires i <= |p.children| && forall j | i <= j < |p.children| :: Fits(p.children[j], ctx)
    requires PreOrder(ChildVisits(p, i, path, ctx))
    ensures forall j | i <= j < |p.children| :: InChildOrder(p.children[j], ctx)
    decreases p, 0, |p.children| - i
  {
    if i < |p.children| {
      PreOrderParts(Visits(p.children[i], path + [i], ctx), ChildVisits(p, i + 1, path, ctx));
      PreOrderNeedsChildOrder(p.children[i], path + [i], ctx);
      PreOrderChildren(p, i + 1, path, ctx);
    }
  }

  // ---------------------------------------------------------------- the stack walk is in pre-order

  /** All visits lie below children `i` and later of the node at `path`. */
  ghost predicate BelowFrom(vs: seq<Visit>, path: Path, i: nat) {
    forall k | 0 <= k < |vs| :: |path| < |vs[k].0| && path <= vs[k].0 && i <= vs[k].0[|path|]
  }

  lemma {:induction false} DownInPreOrder(p: Plan, path: Path, ctx: Ctx, s: seq<Visit>) returns (vs: seq<Visit>)
    requires NonGrowing(Recorder())
    ensures var (t, end) := Down(p, path, Some(ctx), Recorder(), s);
            t.signal == Continue && end == s + vs
    ensures PreOrder(vs) && Under(vs, path)
    decreases Size(p), 0
  {
    var s' := s + [(path, ctx)];
    vs := [(path, ctx)];
    if !p.op.Boundary? {
      var below := DownChildrenInPreOrder(p.children, 0, path, ChildContexts(p, ctx), s');
      vs := vs + below;
      assert s' + below == s + vs;
      forall k | 0 <= k < |below| ensures PathLess(path, below[k].0) {
        ParentFirst(path, below[k].0);
      }
    }
  }

  lemma {:induction false} DownChildrenInPreOrder(cs: seq<Plan>, i: nat, path: Path, ctxs: seq<Option<Ctx>>,
                                                  s: seq<Visit>)
    returns (vs: seq<Visit>)
    requires NonGrowing(Recorder()) && |ctxs| == |cs|
    ensures var (m, end) := DownChildren(cs, i, path, ctxs, Continue, Recorder(), s);
            m.signal == Continue && end == s + vs
    ensures PreOrder(vs) && BelowFrom(vs, path, i)
    decreases SizeAll(cs), 1
  {
    vs := [];
    if cs == [] {
      assert s + vs == s;
    } else {
      var first := [];
      if ctxs[0].Some? {
        first := DownInPreOrder(cs[0], path + [i], ctxs[0].value, s);
      } else {
        assert s + first == s;
      }
      var rest := DownChildrenInPreOrder(cs[1..], i + 1, path, ctxs[1..], s + first);
      vs := first + rest;
      assert s + first + rest == s + vs;
      FirstThenRest(first, rest, path, i);
    }
  }

  /** The visits under one child come before those under later ones. */
  lemma FirstThenRest(first: seq<Visit>, rest: seq<Visit>, path: Path, i: nat)
    requires PreOrder(first) && Under(first, path + [i]) && PreOrder(rest) && BelowFrom(rest, path, i + 1)
    ensures PreOrder(first + rest) && BelowFrom(first + rest, path, i)
  {
    forall k | 0 <= k < |first| ensures |path| < |first[k].0| && path <= first[k].0 && first[k].0[|path|] == i {
      assert (path + [i])[|path|] == i;
    }
    forall a, b | 0 <= a < |first| && 0 <= b < |rest| ensures PathLess(first[a].0, rest[b].0) {
      var y := rest[b].0[|path|];
      assert path + [y] <= rest[b].0;
      PathLessUnder(first[a].0, rest[b].0, path, i, y);
    }
  }

  /** Exactly when the two traversals agree: the recursive visit and the stack-based rewrite show an
      uninterrupted callback the same sequence if and only if every isolator the task reaches lists
      its children in child order. */
  lemma SameSequenceIffChildOrder(p: Plan, ctx: Ctx)
    requires Fits(p, ctx) && NonGrowing(Recorder())
    ensures Down(p, [], Some(ctx), Recorder(), []).1 == Apply(p, [], ctx, Observer(Recorder()), []).1
            <==> InChildOrder(p, ctx)
  {
    RecorderKeeps();
    if InChildOrder(p, ctx) {
      DownMatchesApply(p, [], ctx, Recorder(), []);
    } else {
      var vs := DownInPreOrder(p, [], ctx, []);
      ApplyRecords(p, [], ctx, []);
      assert [] + vs == vs && [] + Visits(p, [], ctx) == Visits(p, [], ctx);
      if vs == Visits(p, [], ctx) {
        PreOrderNeedsChildOrder(p, [], ctx);
      }
    }
  }

  // ---------------------------------------------------------------- which splits are in child order

  const ZeroAndOne := [Union.Annotation(0.0, Union.Free), Union.Annotation(1.0, Union.Free)]

  lemma SumOfTwo(ns: seq<nat>)
    requires |ns| == 2
    ensures Union.Sum(ns) == ns[0] + ns[1]
  {
    assert Union.Sum(ns[1..]) == ns[1] + Union.Sum(ns[1..][1..]);
  }

  lemma ZeroAndOneShares()
    ensures Union.TotalWeight(ZeroAndOne) == 1.0 && Union.Shares(ZeroAndOne, 1) == [0.0, 1.0]
  {
    assert Union.TotalWeight(ZeroAndOne[1..]) == 1.0 + Union.TotalWeight(ZeroAndOne[1..][1..]);
  }

  lemma ZeroAndOneCounts()
    ensures Union.Valid(ZeroAndOne, 1) && Union.Apportioned(ZeroAndOne, 1, [0, 1])
  {
    ZeroAndOneShares();
    ZeroAndOneFilled([0.0, 1.0], [0, 1]);
    ZeroAndOneNearest([0, 1]);
    Union.SharesAreFair(ZeroAndOne, 1);
    Union.WeightedIff(ZeroAndOne);
    assert Union.Apportions(ZeroAndOne, 1, [0.0, 1.0], [0, 1], [0, 1], [0, 1]);
  }

  lemma ZeroAndOneFilled(xs: seq<real>, counts: seq<nat>)
    requires xs == [0.0, 1.0] && counts == [0, 1]
    ensures Union.Rounded(xs, 1, true, counts) && Union.Filled(ZeroAndOne, xs, 1, counts, counts)
  {
    SumOfTwo(counts);
    assert xs[0].Floor == 0 && xs[1].Floor == 1;
  }

  lemma ZeroAndOneNearest(counts: seq<nat>)
    requires |counts| == 2
    ensures forall i | 0 <= i < |ZeroAndOne| :: Union.Nearest(ZeroAndOne[i], counts[i], counts[i])
  {
    forall i | 0 <= i < |ZeroAndOne| ensures Union.Nearest(ZeroAndOne[i], counts[i], counts[i]) {
      Union.ClampedIsNearest(ZeroAndOne[i], counts[i], counts[i]);
    }
  }

  lemma ZeroAndOnePlacement()
    ensures Union.Placement([0, 1], 1) == [[(1, Ctx(0, 1)), (0, Ctx(0, 1))]]
  {
    var counts := [0, 1];
    assert Union.SlotsTo(counts, 1) == [] && Union.SlotsTo(counts, 2) == [(1, Ctx(0, 1))];
    assert Union.ZeroSlotsTo(counts, 1) == [(0, Ctx(0, 1))] && Union.ZeroSlotsTo(counts, 2) == [(0, Ctx(0, 1))];
    var none: TaskMap := [[]];
    var one, zero := (1, Ctx(0, 1)), (0, Ctx(0, 1));
    var placed: TaskMap := [[one]];
    assert Union.NoEntries(1) == none;
    Union.DealSplit(none, [], one, 0, 1);
    assert [] + [one] == [one] && Union.Push(none, 0, one) == placed;
    Union.DealSplit(placed, [], zero, 0, 1);
    assert [] + [zero] == [zero] && placed[0] + [zero] == [one, zero];
    assert Union.Push(placed, 0, zero) == [[one, zero]];
  }

  const OneThenZero: Plan :=
    Plan(Isolator([[(1, Ctx(0, 1)), (0, Ctx(0, 1))]]), [Plan(Empty, []), Plan(Empty, [])])

  lemma OneThenZeroFits()
    ensures Fits(OneThenZero, Ctx(0, 1)) && !InChildOrder(OneThenZero, Ctx(0, 1))
  {
    var es := OneThenZero.op.taskMap[0];
    assert forall i | 0 <= i < |es| :: Fits(OneThenZero.children[es[i].0], es[i].1);
    assert FitsEntries(OneThenZero, es);
    assert es[0].0 > es[1].0;
  }

  /** A split that leaves a child without a slot appends it after its siblings: with estimates 0 and
      1 and one task, the task's list runs child 1 before child 0. */
  lemma ChildOrderCanFail()
    ensures Union.Valid(ZeroAndOne, 1) && Union.Apportioned(ZeroAndOne, 1, [0, 1])
    ensures OneThenZero.op == Isolator(Union.Placement([0, 1], 1))
    ensures Fits(OneThenZero, Ctx(0, 1)) && !InChildOrder(OneThenZero, Ctx(0, 1))
  {
    ZeroAndOneCounts();
    ZeroAndOnePlacement();
    OneThenZeroFits();
  }

  ghost predicate NonDescending(es: seq<(nat, Ctx)>) {
    forall i, j | 0 <= i < j < |es| :: es[i].0 <= es[j].0
  }

  lemma {:induction false} DealNonDescending(m: TaskMap, es: seq<(nat, Ctx)>, t: nat, n: nat)
    requires 0 < n <= |m| && NonDescending(es)
    requires forall s | 0 <= s < |m| :: NonDescending(m[s])
    requires forall s, i, j | 0 <= s < |m| && 0 <= i < |m[s]| && 0 <= j < |es| :: m[s][i].0 <= es[j].0
    ensures forall s | 0 <= s < |m| :: NonDescending(Union.Deal(m, es, t, n)[s])
    decreases |es|
  {
    if es != [] {
      var p: TaskMap := Union.Push(m, t % n, es[0]);
      forall s, i, j | 0 <= s < |p| && 0 <= i < |p[s]| && 0 <= j < |es[1..]| ensures p[s][i].0 <= es[1..][j].0 {
        assert es[1..][j] == es[j + 1];
        if s != t % n || i < |m[s]| {
          assert m[s][i].0 <= es[j + 1].0;
        }
      }
      forall s | 0 <= s < |p| ensures NonDescending(p[s]) {
        if s == t % n {
          forall i | 0 <= i < |m[s]| ensures m[s][i].0 <= es[0].0 {
          }
        }
      }
      DealNonDescending(p, es[1..], t + 1, n);
    }
  }

  lemma {:induction false} SlotsNonDescending(counts: seq<nat>, c: nat)
    requires c <= |counts|
    ensures NonDescending(Union.SlotsTo(counts, c))
  {
    if c > 0 {
      SlotsNonDescending(counts, c - 1);
      var before := Union.SlotsTo(counts, c - 1);
      forall i | 0 <= i < |before| ensures before[i].0 < c {
        Union.SlotAt(counts, c - 1, i);
      }
    }
  }

  lemma {:induction false} NoZeroSlots(counts: seq<nat>, c: nat)
    requires c <= |counts| && forall i | 0 <= i < |counts| :: counts[i] > 0
    ensures Union.ZeroSlotsTo(counts, c) == []
  {
    if c > 0 {
      NoZeroSlots(counts, c - 1);
    }
  }

  /** When every child was given a slot, every task's list is in child order. */
  lemma CountedSplitsAreInChildOrder(counts: seq<nat>, budget: nat)
    requires budget > 0 && counts != []
    requires forall c | 0 <= c < |counts| :: 0 < counts[c] <= budget
    ensures forall s | 0 <= s < budget :: Ascending(Union.Placement(counts, budget)[s])
  {
    var m := Union.Placement(counts, budget);
    Union.HasSlot(counts, |counts|, (0, Ctx(0, counts[0])));
    NoZeroSlots(counts, |counts|);
    SlotsNonDescending(counts, |counts|);
    DealNonDescending(Union.NoEntries(budget), Union.Slots(counts), 0, budget);
    Union.PlacementIsExact(counts, budget);
    forall s | 0 <= s < budget ensures Ascending(m[s]) {
      assert NonDescending(m[s]);
      forall i, j | 0 <= i < j < |m[s]| ensures m[s][i].0 < m[s][j].0 {
        assert m[s][i].0 != m[s][j].0;
      }
    }
  }
}
