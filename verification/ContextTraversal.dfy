/** Traversals that carry the task context down a stage's plan: a recursive visit, and a rewrite
    that keeps the contexts on an explicit stack. */
module ContextTraversal {
  import opened Wrappers
  import opened Plans

  /** A callback with its own state; it is told where the node is and what context it runs in. */
  type Visitor<!S> = (Path, Plan, Ctx, S) -> (Recursion, S)

  type Rewriter<!S> = (Path, Plan, Ctx, S) -> (Transformed, S)

  /** The entries of the task a context runs as. */
  function EntriesFor(taskMap: TaskMap, ctx: Ctx): (es: seq<(nat, Ctx)>) {
    if ctx.index < |taskMap| then taskMap[ctx.index] else []
  }

  /** Every isolator the context reaches has a list for its task, naming existing children. */
  predicate Fits(p: Plan, ctx: Ctx)
    decreases p, 1
  {
    match p.op
    case Isolator(taskMap) => ctx.index < |taskMap| && FitsEntries(p, taskMap[ctx.index])
    case Boundary(_, _) => true
    case _ => forall i | 0 <= i < |p.children| :: Fits(p.children[i], ctx)
  }

  predicate FitsEntries(p: Plan, es: seq<(nat, Ctx)>)
    decreases p, 0
  {
    forall i | 0 <= i < |es| :: es[i].0 < |p.children| && Fits(p.children[es[i].0], es[i].1)
  }

  // ---------------------------------------------------------------- apply_with_dt_ctx

  /** Visits the node and then the children its task runs, in the order of the task's entries, until
      a Stop; a Jump skips the node's children. Inputs of network boundaries are not visited. */
  function Apply<S>(p: Plan, path: Path, ctx: Ctx, f: Visitor<S>, s: S): (r: (Recursion, S))
    requires Fits(p, ctx)
    ensures r.0 != Jump
    decreases p, 1, 0
  {
    var (signal, s') := f(path, p, ctx, s);
    if signal == Stop then (Stop, s')
    else if signal == Jump || p.op.Boundary? then (Continue, s')
    else if p.op.Isolator? then ApplyEntries(p, path, p.op.taskMap[ctx.index], f, s')
    else ApplyChildren(p, 0, path, ctx, f, s')
  }

  function ApplyEntries<S>(p: Plan, path: Path, es: seq<(nat, Ctx)>, f: Visitor<S>, s: S): (r: (Recursion, S))
    requires FitsEntries(p, es)
    ensures r.0 != Jump
    decreases p, 0, |es|
  {
    if es == [] then (Continue, s) else
      var (signal, s') := Apply(p.children[es[0].0], path + [es[0].0], es[0].1, f, s);
      if signal == Stop then (Stop, s') else ApplyEntries(p, path, es[1..], f, s')
  }

  function ApplyChildren<S>(p: Plan, i: nat, path: Path, ctx: Ctx, f: Visitor<S>, s: S): (r: (Recursion, S))
    requires i <= |p.children| && forall j | i <= j < |p.children| :: Fits(p.children[j], ctx)
    ensures r.0 != Jump
    decreases p, 0, |p.children| - i
  {
    if i == |p.children| then (Continue, s) else
      var (signal, s') := Apply(p.children[i], path + [i], ctx, f, s);
      if signal == Stop then (Stop, s') else ApplyChildren(p, i + 1, path, ctx, f, s')
  }

  // ---------------------------------------------------------------- transform_down, contexts passed down

  /** Rewrites never make a subtree larger, so the walk ends. */
  ghost predicate NonGrowing<S(!new)>(f: Rewriter<S>) {
    forall path, p, ctx, s :: Size(f(path, p, ctx, s).0.data) <= Size(p)
  }

  /** The context listed for child `c`; None means this task skips the child. */
  function Lookup(es: seq<(nat, Ctx)>, c: nat): (ctx: Option<Ctx>) {
    if es == [] then None else
      var later := Lookup(es[1..], c);
      if later.Some? then later else if es[0].0 == c then Some(es[0].1) else None
  }

  /** The contexts of the node's children. */
  function ChildContexts(p: Plan, ctx: Ctx): (cs: seq<Option<Ctx>>)
    ensures |cs| == |p.children|
  {
    seq(|p.children|, c requires 0 <= c < |p.children| =>
      if p.op.Isolator? then Lookup(EntriesFor(p.op.taskMap, ctx), c) else Some(ctx))
  }

  /** The rewrite with each node's context handed to it directly. */
  function Down<S(!new)>(p: Plan, path: Path, ctx: Option<Ctx>, f: Rewriter<S>, s: S): (r: (Transformed, S))
    requires NonGrowing(f)
    ensures r.0.signal != Jump
    decreases Size(p), 0
  {
    if ctx.None? then (Transformed(p, false, Continue), s) else
      var (t, s') := f(path, p, ctx.value, s);
      assert Size(f(path, p, ctx.value, s).0.data) <= Size(p);
      if t.signal == Stop then (t, s')
      else if t.signal == Jump || t.data.op.Boundary? then (t.(signal := Continue), s')
      else
        var (m, s'') := DownChildren(t.data.children, 0, path, ChildContexts(t.data, ctx.value), Continue, f, s');
        (Transformed(Rebuilt(t.data, m.children, m.changed), t.changed || m.changed, m.signal), s'')
  }

  function DownChildren<S(!new)>(cs: seq<Plan>, i: nat, path: Path, ctxs: seq<Option<Ctx>>, signal: Recursion,
                                 f: Rewriter<S>, s: S)
    : (r: (Mapped, S))
    requires NonGrowing(f) && |ctxs| == |cs| && signal != Jump
    ensures r.0.signal != Jump
    decreases SizeAll(cs), 1
  {
    if cs == [] then (Mapped([], false, signal), s)
    else if signal == Stop then (Mapped(cs, false, Stop), s)
    else
      var (t, s') := Down(cs[0], path + [i], ctxs[0], f, s);
      var (rest, s'') := DownChildren(cs[1..], i + 1, path, ctxs[1..], t.signal, f, s');
      (Mapped([t.data] + rest.children, t.changed || rest.changed, rest.signal), s'')
  }

  // ---------------------------------------------------------------- transform_down, contexts on a stack

  /** The rewrite as it is run: DataFusion walks the tree, the callback pops its own context off the
      stack and pushes one for each child. */
  class StackWalker<S(!new)> {
    const f: Rewriter<S>
    var stack: seq<Option<Ctx>>
    var state: S

    constructor (ctx: Ctx, f: Rewriter<S>, s: S)
      ensures this.f == f && stack == [Some(ctx)] && state == s
    {
      this.f, stack, state := f, [Some(ctx)], s;
    }

    /** The callback given to DataFusion's traversal. */
    method Visit(node: Plan, path: Path) returns (t: Transformed)
      requires stack != []
      modifies this`stack, this`state
      ensures var rest, top := old(stack)[..|old(stack)| - 1], old(stack)[|old(stack)| - 1];
              if top.None? then
                t == Transformed(node, false, Jump) && state == old(state) && stack == rest
              else
                var (u, s) := f(path, node, top.value, old(state));
                && state == s && t.data == u.data && t.changed == u.changed
                && t.signal == (if u.signal == Continue && u.data.op.Boundary? then Jump else u.signal)
                && stack == rest + (if t.signal == Continue then Reversed(ChildContexts(t.data, top.value)) else [])
    {
      var top := stack[|stack| - 1];
      stack := stack[..|stack| - 1];
      if top.None? {
        return Transformed(node, false, Jump);
      }
      var ctx := top.value;
      var (u, s) := f(path, node, ctx, state);
      state := s;
      if u.signal == Stop {
        return u;
      }
      if u.signal != Continue || u.data.op.Boundary? {
        return u.(signal := Jump);
      }
      var n := |u.data.children|;
      if u.data.op.Isolator? {
        var childContexts := PickContexts(EntriesFor(u.data.op.taskMap, ctx), n);
        assert childContexts == ChildContexts(u.data, ctx);
        stack := stack + Reversed(childContexts);
      } else {
        var childContexts: seq<Option<Ctx>> := seq(n, _ => Some(ctx));
        assert childContexts == ChildContexts(u.data, ctx);
        stack := stack + Reversed(childContexts);
      }
      return u;
    }

    static method PickContexts(es: seq<(nat, Ctx)>, n: nat) returns (ctxs: seq<Option<Ctx>>)
      ensures |ctxs| == n && forall c | 0 <= c < n :: ctxs[c] == Lookup(es, c)
    {
      ctxs := seq(n, _ => None);
      for i := 0 to |es|
        invariant |ctxs| == n
        invariant forall c | 0 <= c < n ::
                    Lookup(es, c) == (if Lookup(es[i..], c).Some? then Lookup(es[i..], c) else ctxs[c])
      {
        assert es[i..][0] == es[i] && es[i..][1..] == es[i + 1..];
        if es[i].0 < n {
          ctxs := ctxs[es[i].0 := Some(es[i].1)];
        }
      }
    }

    /** DataFusion's walk around the callback. The stack never runs empty under it: unless something
        stopped the walk, exactly the node's own context has been taken off. */
    method TransformDown(node: Plan, path: Path) returns (t: Transformed)
      requires NonGrowing(f) && stack != []
      modifies this`stack, this`state
      ensures (t, state) == Down(node, path, old(stack)[|old(stack)| - 1], f, old(state))
      ensures t.signal != Stop ==> stack == old(stack)[..|old(stack)| - 1]
      decreases Size(node), 0
    {
      ghost var top, entry := stack[|stack| - 1], state;
      ghost var rest := stack[..|stack| - 1];
      var v := Visit(node, path);
      assert top.Some? ==> Size(f(path, node, top.value, entry).0.data) <= Size(node);
      if v.signal == Stop {
        return v;
      }
      if v.signal == Jump {
        return v.(signal := Continue);
      }
      var m := MapChildren(v.data.children, 0, path, Continue, rest, ChildContexts(v.data, top.value));
      return Transformed(Rebuilt(v.data, m.children, m.changed), v.changed || m.changed, m.signal);
    }

    method MapChildren(cs: seq<Plan>, i: nat, path: Path, signal: Recursion, ghost rest: seq<Option<Ctx>>,
                       ghost ctxs: seq<Option<Ctx>>)
      returns (m: Mapped)
      requires NonGrowing(f) && |ctxs| == |cs| && signal != Jump
      requires signal != Stop ==> stack == rest + Reversed(ctxs)
      modifies this`stack, this`state
      ensures (m, state) == DownChildren(cs, i, path, ctxs, signal, f, old(state))
      ensures m.signal != Stop ==> stack == rest
      decreases SizeAll(cs), 1
    {
      if cs == [] {
        assert signal != Stop ==> stack == rest;
        return Mapped([], false, signal);
      }
      if signal == Stop {
        return Mapped(cs, false, Stop);
      }
      assert Reversed(ctxs) == Reversed(ctxs[1..]) + [ctxs[0]];
      assert stack == (rest + Reversed(ctxs[1..])) + [ctxs[0]];
      var t := TransformDown(cs[0], path + [i]);
      var k := MapChildren(cs[1..], i + 1, path, t.signal, rest, ctxs[1..]);
      return Mapped([t.data] + k.children, t.changed || k.changed, k.signal);
    }
  }
}
