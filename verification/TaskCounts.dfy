/** Traversals that hand every node the number of tasks it runs in: bottom-up with the counts passed down,
    and top-down with the counts of nodes still to be visited on a stack. */
module TaskCounts {
  import opened Wrappers
  import opened Plans

  /** A callback with its own state, told where the node is and how many tasks run it; it can fail. */
  type Rewriter<!S> = (Path, Plan, nat, S) -> (Result<Transformed>, S)

  /** The counts of a node's children. */
  function ChildCounts(p: Plan, tasks: nat): (ns: seq<nat>)
    ensures |ns| == |p.children|
  {
    seq(|p.children|, c requires 0 <= c < |p.children| => ChildTaskCount(p.op, tasks, c))
  }

  /** The count of the node at `q`, by walking down from the root; inputs of network boundaries run
      in their stage's tasks. */
  function CountAt(p: Plan, tasks: nat, q: Path): (n: Option<nat>)
    decreases p
  {
    if q == [] then Some(tasks)
    else if q[0] >= |p.children| then None
    else CountAt(p.children[q[0]], ChildTaskCount(p.op, tasks, q[0]), q[1..])
  }

  /** The root has the plan's count, and every other node inherits its count from its parent. */
  lemma {:induction false} CountsAreInherited(p: Plan, tasks: nat, q: Path, c: nat)
    requires NodeAt(p, q).Some? && c < |NodeAt(p, q).value.children|
    ensures CountAt(p, tasks, []) == Some(tasks)
    ensures CountAt(p, tasks, q).Some? && CountAt(p, tasks, q + [c]).Some?
    ensures Inherits(NodeAt(p, q).value.op, CountAt(p, tasks, q).value, c, CountAt(p, tasks, q + [c]).value)
    decreases p
  {
    if q == [] {
      ChildInherits(p.op, tasks, c);
      assert (q + [c])[1..] == [];
    } else {
      assert (q + [c])[1..] == q[1..] + [c];
      CountsAreInherited(p.children[q[0]], ChildTaskCount(p.op, tasks, q[0]), q[1..], c);
    }
  }

  // ---------------------------------------------------------------- bottom-up, counts passed down

  ghost predicate AlwaysContinues<S(!new)>(f: Rewriter<S>) {
    forall path, p, tasks, s ::
      f(path, p, tasks, s).0.Success? ==> f(path, p, tasks, s).0.value.signal == Continue
  }

  /** Children first, then the node; a child's count is read off the original node. */
  function Up<S(!new)>(p: Plan, path: Path, tasks: nat, f: Rewriter<S>, s: S): (r: (Result<Transformed>, S))
    decreases p, 1, 0
  {
    var (kids, s') := UpChildren(p, 0, path, tasks, f, s);
    if kids.Failure? then (Failure, s') else
      var node := Rebuilt(p, kids.value.children, kids.value.changed);
      var (t, s'') := f(path, node, tasks, s');
      if t.Failure? then (Failure, s'')
      else (Success(t.value.(changed := t.value.changed || kids.value.changed)), s'')
  }

  function UpChildren<S(!new)>(p: Plan, i: nat, path: Path, tasks: nat, f: Rewriter<S>, s: S): (r: (Result<Mapped>, S))
    requires i <= |p.children|
    ensures r.0.Success? ==> |r.0.value.children| == |p.children| - i && r.0.value.signal == Continue
    decreases p, 0, |p.children| - i
  {
    if i == |p.children| then (Success(Mapped([], false, Continue)), s) else
      var (t, s') := Up(p.children[i], path + [i], ChildTaskCount(p.op, tasks, i), f, s);
      if t.Failure? then (Failure, s') else
        var (rest, s'') := UpChildren(p, i + 1, path, tasks, f, s');
        if rest.Failure? then (Failure, s'') else
          (Success(Mapped([t.value.data] + rest.value.children, t.value.changed || rest.value.changed, Continue)), s'')
  }

  // ---------------------------------------------------------------- every node gets its own count

  /** Visits in post-order, each with the count the node is given. */
  function PostOrder(p: Plan, path: Path, tasks: nat): (vs: seq<(Path, nat)>)
    decreases p, 1, 0
  {
    PostOrderFrom(p, 0, path, tasks) + [(path, tasks)]
  }

  function PostOrderFrom(p: Plan, i: nat, path: Path, tasks: nat): (vs: seq<(Path, nat)>)
    requires i <= |p.children|
    decreases p, 0, |p.children| - i
  {
    if i == |p.children| then [] else
      PostOrder(p.children[i], path + [i], ChildTaskCount(p.op, tasks, i)) + PostOrderFrom(p, i + 1, path, tasks)
  }

  /** The same callback, also recording the counts it is given. */
  function Traced<S(!new)>(f: Rewriter<S>): (g: Rewriter<(S, seq<(Path, nat)>)>) {
    (path: Path, p: Plan, tasks: nat, s: (S, seq<(Path, nat)>)) =>
      var (r, s') := f(path, p, tasks, s.0);
      (r, (s', s.1 + [(path, tasks)]))
  }

  /** Whatever the callback does to the nodes, it is given the counts of the original ones, children
      before parents; and recording them changes nothing else. */
  lemma {:induction false} UpRecords<S(!new)>(p: Plan, path: Path, tasks: nat, f: Rewriter<S>, s: (S, seq<(Path, nat)>))
    ensures var (r, end) := Up(p, path, tasks, Traced(f), s);
            (r, end.0) == Up(p, path, tasks, f, s.0) && (r.Success? ==> end.1 == s.1 + PostOrder(p, path, tasks))
    decreases p, 1, 0
  {
    UpChildrenRecords(p, 0, path, tasks, f, s);
    assert s.1 + PostOrderFrom(p, 0, path, tasks) + [(path, tasks)] == s.1 + PostOrder(p, path, tasks);
  }

  lemma {:induction false} UpChildrenRecords<S(!new)>(p: Plan, i: nat, path: Path, tasks: nat, f: Rewriter<S>,
                                                      s: (S, seq<(Path, nat)>))
    requires i <= |p.children|
    ensures var (r, end) := UpChildren(p, i, path, tasks, Traced(f), s);
            && (r, end.0) == UpChildren(p, i, path, tasks, f, s.0)
            && (r.Success? ==> end.1 == s.1 + PostOrderFrom(p, i, path, tasks))
    decreases p, 0, |p.children| - i
  {
    if i == |p.children| {
      assert s.1 + [] == s.1;
    } else {
      var n := ChildTaskCount(p.op, tasks, i);
      UpRecords(p.children[i], path + [i], n, f, s);
      var (t, mid) := Up(p.children[i], path + [i], n, Traced(f), s);
      if t.Success? {
        UpChildrenRecords(p, i + 1, path, tasks, f, mid);
        var first, rest := PostOrder(p.children[i], path + [i], n), PostOrderFrom(p, i + 1, path, tasks);
        assert s.1 + first + rest == s.1 + PostOrderFrom(p, i, path, tasks);
      }
    }
  }

  /** A node of the plan, with the count found by walking down to it from the root. */
  predicate At(p: Plan, path: Path, tasks: nat, v: (Path, nat)) {
    path <= v.0 && CountAt(p, tasks, v.0[|path|..]) == Some(v.1)
  }

  /** Every node of the plan is visited exactly once, with its own count. */
  ghost predicate Exactly(vs: seq<(Path, nat)>, p: Plan, path: Path, tasks: nat) {
    forall v :: multiset(vs)[v] == if At(p, path, tasks, v) then 1 else 0
  }

  /** A node under one of the children `cs`, the first of which is child `i`. */
  predicate AtBelow(cs: seq<Plan>, i: nat, path: Path, counts: seq<nat>, v: (Path, nat))
    requires |counts| == |cs|
  {
    && |path| < |v.0| && path <= v.0 && i <= v.0[|path|] < i + |cs|
    && CountAt(cs[v.0[|path|] - i], counts[v.0[|path|] - i], v.0[|path| + 1..]) == Some(v.1)
  }

  ghost predicate ExactlyBelow(vs: seq<(Path, nat)>, cs: seq<Plan>, i: nat, path: Path, counts: seq<nat>)
    requires |counts| == |cs|
  {
    forall v :: multiset(vs)[v] == if AtBelow(cs, i, path, counts, v) then 1 else 0
  }

  lemma AtNode(p: Plan, path: Path, tasks: nat, v: (Path, nat))
    ensures At(p, path, tasks, v) <==> v == (path, tasks) || AtBelow(p.children, 0, path, ChildCounts(p, tasks), v)
    ensures !AtBelow(p.children, 0, path, ChildCounts(p, tasks), (path, tasks))
  {
    if path <= v.0 {
      var q := v.0[|path|..];
      if q == [] {
        assert v.0 == path;
      } else {
        assert q[0] == v.0[|path|] && q[1..] == v.0[|path| + 1..];
      }
    }
  }

  lemma AtFirst(cs: seq<Plan>, i: nat, path: Path, counts: seq<nat>, v: (Path, nat))
    requires |counts| == |cs| > 0
    ensures AtBelow(cs, i, path, counts, v) <==>
            At(cs[0], path + [i], counts[0], v) || AtBelow(cs[1..], i + 1, path, counts[1..], v)
    ensures !(At(cs[0], path + [i], counts[0], v) && AtBelow(cs[1..], i + 1, path, counts[1..], v))
  {
    if path + [i] <= v.0 {
      assert v.0[|path|] == (path + [i])[|path|] == i && path <= v.0;
      assert v.0[|path + [i]|..] == v.0[|path| + 1..];
    } else if |path| < |v.0| && path <= v.0 {
      assert path + [v.0[|path|]] <= v.0;
    }
  }

  lemma ExactlyNode(p: Plan, path: Path, tasks: nat, below: seq<(Path, nat)>)
    requires ExactlyBelow(below, p.children, 0, path, ChildCounts(p, tasks))
    ensures Exactly([(path, tasks)] + below, p, path, tasks) && Exactly(below + [(path, tasks)], p, path, tasks)
  {
    forall v ensures multiset([(path, tasks)] + below)[v] == multiset(below + [(path, tasks)])[v]
             ensures multiset(below + [(path, tasks)])[v] == if At(p, path, tasks, v) then 1 else 0
    {
      AtNode(p, path, tasks, v);
      assert multiset([(path, tasks)] + below) == multiset{(path, tasks)} + multiset(below);
      assert multiset(below + [(path, tasks)]) == multiset(below) + multiset{(path, tasks)};
    }
  }

  lemma ExactlyFirst(cs: seq<Plan>, i: nat, path: Path, counts: seq<nat>, first: seq<(Path, nat)>,
                     rest: seq<(Path, nat)>)
    requires |counts| == |cs| > 0
    requires Exactly(first, cs[0], path + [i], counts[0]) && ExactlyBelow(rest, cs[1..], i + 1, path, counts[1..])
    ensures ExactlyBelow(first + rest, cs, i, path, counts)
  {
    forall v ensures multiset(first + rest)[v] == if AtBelow(cs, i, path, counts, v) then 1 else 0 {
      AtFirst(cs, i, path, counts, v);
      assert multiset(first + rest) == multiset(first) + multiset(rest);
    }
  }

  lemma {:induction false} UpCountsAreInherited(p: Plan, path: Path, tasks: nat)
    ensures Exactly(PostOrder(p, path, tasks), p, path, tasks)
    decreases p, 1, 0
  {
    UpCountsFrom(p, 0, path, tasks);
    assert p.children[0..] == p.children && ChildCounts(p, tasks)[0..] == ChildCounts(p, tasks);
    ExactlyNode(p, path, tasks, PostOrderFrom(p, 0, path, tasks));
  }

  lemma {:induction false} UpCountsFrom(p: Plan, i: nat, path: Path, tasks: nat)
    requires i <= |p.children|
    ensures ExactlyBelow(PostOrderFrom(p, i, path, tasks), p.children[i..], i, path, ChildCounts(p, tasks)[i..])
    decreases p, 0, |p.children| - i
  {
    if i < |p.children| {
      var n := ChildTaskCount(p.op, tasks, i);
      UpCountsAreInherited(p.children[i], path + [i], n);
      UpCountsFrom(p, i + 1, path, tasks);
      var cs, counts := p.children[i..], ChildCounts(p, tasks)[i..];
      assert cs[0] == p.children[i] && cs[1..] == p.children[i + 1..];
      assert counts[0] == n && counts[1..] == ChildCounts(p, tasks)[i + 1..];
      ExactlyFirst(cs, i, path, counts, PostOrder(p.children[i], path + [i], n), PostOrderFrom(p, i + 1, path, tasks));
    }
  }

  // ---------------------------------------------------------------- top-down, counts passed down

  /** What makes the walk end although a callback may replace a node by a larger one: the callback
      never grows the state's measure, and shrinks it whenever it grows the node. */
  ghost predicate Progresses<S(!new)>(f: Rewriter<S>, m: S -> nat) {
    forall path, p, tasks, s ::
      var (r, s') := f(path, p, tasks, s);
      m(s') <= m(s) && (r.Success? && Size(r.value.data) > Size(p) ==> m(s') < m(s))
  }

  /** The node first, then the children of the rewritten node, with counts read off it. */
  function Down<S(!new)>(p: Plan, path: Path, tasks: nat, f: Rewriter<S>, s: S, ghost m: S -> nat)
    : (r: (Result<Transformed>, S))
    requires Progresses(f, m)
    ensures m(r.1) <= m(s)
    ensures r.0.Success? ==> r.0.value.signal != Jump
    decreases m(s), Size(p), 0
  {
    var (r, s') := f(path, p, tasks, s);
    assert m(f(path, p, tasks, s).1) <= m(s);
    if r.Failure? then (Failure, s')
    else
      var t := r.value;
      if t.signal == Stop then (Success(t), s')
      else if t.signal == Jump then (Success(t.(signal := Continue)), s')
      else
        var (k, s'') := DownChildren(t.data.children, 0, path, ChildCounts(t.data, tasks), Continue, f, s', m);
        if k.Failure? then (Failure, s'') else
          (Success(Transformed(Rebuilt(t.data, k.value.children, k.value.changed),
                               t.changed || k.value.changed, k.value.signal)), s'')
  }

  function DownChildren<S(!new)>(cs: seq<Plan>, i: nat, path: Path, counts: seq<nat>, signal: Recursion,
                                 f: Rewriter<S>, s: S, ghost m: S -> nat)
    : (r: (Result<Mapped>, S))
    requires Progresses(f, m) && |counts| == |cs| && signal != Jump
    ensures m(r.1) <= m(s)
    ensures r.0.Success? ==> r.0.value.signal != Jump && |r.0.value.children| == |cs|
    decreases m(s), SizeAll(cs), 1
  {
    if cs == [] then (Success(Mapped([], false, signal)), s)
    else if signal == Stop then (Success(Mapped(cs, false, Stop)), s)
    else
      var (t, s') := Down(cs[0], path + [i], counts[0], f, s, m);
      if t.Failure? then (Failure, s') else
        var (rest, s'') := DownChildren(cs[1..], i + 1, path, counts[1..], t.value.signal, f, s', m);
        if rest.Failure? then (Failure, s'') else
          (Success(Mapped([t.value.data] + rest.value.children,
                          t.value.changed || rest.value.changed, rest.value.signal)), s'')
  }

  // ---------------------------------------------------------------- top-down, counts on a stack

  class DownWalker<S(!new)> {
    const f: Rewriter<S>
    ghost const m: S -> nat
    var stack: seq<nat>
    var state: S

    constructor (tasks: nat, f: Rewriter<S>, s: S, ghost m: S -> nat)
      ensures this.f == f && this.m == m && stack == [tasks] && state == s
    {
      this.f, this.m, stack, state := f, m, [tasks], s;
    }

    /** On the way down the node pops its own count and its rewritten self's children push theirs;
        nothing happens on the way up. */
    method TransformDownUp(node: Plan, path: Path) returns (t: Result<Transformed>)
      requires Progresses(f, m) && stack != []
      modifies this`stack, this`state
      ensures (t, state) == Down(node, path, old(stack)[|old(stack)| - 1], f, old(state), m)
      ensures t.Success? && t.value.signal != Stop ==> stack == old(stack)[..|old(stack)| - 1]
      decreases m(state), Size(node), 0
    {
      ghost var before, rest := state, stack[..|stack| - 1];
      var tasks := stack[|stack| - 1];
      stack := stack[..|stack| - 1];
      var (r, s) := f(path, node, tasks, state);
      state := s;
      assert m(f(path, node, tasks, before).1) <= m(before);
      if r.Failure? {
        return Failure;
      }
      var v := r.value;
      if v.signal == Stop {
        return Success(v);
      }
      if v.signal == Jump {
        return Success(v.(signal := Continue));
      }
      var counts := ChildCounts(v.data, tasks);
      stack := stack + Reversed(counts);
      var k := MapChildren(v.data.children, 0, path, Continue, rest, counts);
      if k.Failure? {
        return Failure;
      }
      var Mapped(children, changed, signal) := k.value;
      return Success(Transformed(Rebuilt(v.data, children, changed), v.changed || changed, signal));
    }

    method MapChildren(cs: seq<Plan>, i: nat, path: Path, signal: Recursion, ghost rest: seq<nat>,
                       ghost counts: seq<nat>)
      returns (r: Result<Mapped>)
      requires Progresses(f, m) && |counts| == |cs| && signal != Jump
      requires signal != Stop ==> stack == rest + Reversed(counts)
      modifies this`stack, this`state
      ensures (r, state) == DownChildren(cs, i, path, counts, signal, f, old(state), m)
      ensures r.Success? && r.value.signal != Stop ==> stack == rest
      decreases m(state), SizeAll(cs), 1
    {
      if cs == [] {
        assert signal != Stop ==> stack == rest;
        return Success(Mapped([], false, signal));
      }
      if signal == Stop {
        return Success(Mapped(cs, false, Stop));
      }
      assert Reversed(counts) == Reversed(counts[1..]) + [counts[0]];
      assert stack == (rest + Reversed(counts[1..])) + [counts[0]];
      var t := TransformDownUp(cs[0], path + [i]);
      if t.Failure? {
        return Failure;
      }
      var k := MapChildren(cs[1..], i + 1, path, t.value.signal, rest, counts[1..]);
      if k.Failure? {
        return Failure;
      }
      return Success(Mapped([t.value.data] + k.value.children, t.value.changed || k.value.changed, k.value.signal));
    }
  }

  // ---------------------------------------------------------------- counts of the rewritten plan

  /** The callback says so when it changes a node. */
  ghost predicate Honest<S(!new)>(f: Rewriter<S>) {
    forall path, p, tasks, s ::
      var r := f(path, p, tasks, s).0;
      r.Success? && !r.value.changed ==> r.value.data == p
  }

  ghost function TracedMeasure<S(!new)>(m: S -> nat): (n: ((S, seq<(Path, nat)>)) -> nat) {
    (s: (S, seq<(Path, nat)>)) => m(s.0)
  }

  ghost predicate WellBehaved<S(!new)>(f: Rewriter<S>, m: S -> nat) {
    && Progresses(f, m) && AlwaysContinues(f) && Honest(f)
    && Progresses(Traced(f), TracedMeasure(m))
  }

  lemma TracingProgresses<S(!new)>(f: Rewriter<S>, m: S -> nat)
    requires Progresses(f, m)
    ensures Progresses(Traced(f), TracedMeasure(m))
  {
    var g, n := Traced(f), TracedMeasure(m);
    forall path, p, tasks, s
      ensures var (r, s') := g(path, p, tasks, s);
              n(s') <= n(s) && (r.Success? && Size(r.value.data) > Size(p) ==> n(s') < n(s))
    {
      var (r, s') := f(path, p, tasks, s.0);
      assert m(f(path, p, tasks, s.0).1) <= m(s.0);
    }
  }

  lemma {:induction false} DownVisits<S(!new)>(p: Plan, path: Path, tasks: nat, f: Rewriter<S>,
                                               s: (S, seq<(Path, nat)>), m: S -> nat)
    returns (vs: seq<(Path, nat)>)
    requires WellBehaved(f, m)
    ensures var (r, end) := Down(p, path, tasks, Traced(f), s, TracedMeasure(m));
            r.Success? ==>
              && end.1 == s.1 + vs && Exactly(vs, r.value.data, path, tasks)
              && r.value.signal == Continue && (!r.value.changed ==> r.value.data == p)
    decreases m(s.0), Size(p), 0
  {
    var g, n := Traced(f), TracedMeasure(m);
    var (r, s') := g(path, p, tasks, s);
    assert m(f(path, p, tasks, s.0).1) <= m(s.0);
    vs := [(path, tasks)];
    if r.Success? {
      var t := r.value;
      var counts := ChildCounts(t.data, tasks);
      var below := DownChildrenVisits(t.data.children, 0, path, counts, f, s', m);
      vs := vs + below;
      assert s.1 + [(path, tasks)] + below == s.1 + vs;
      var (k, end) := DownChildren(t.data.children, 0, path, counts, Continue, g, s', n);
      if k.Success? {
        var whole := Plan(t.data.op, k.value.children);
        assert Rebuilt(t.data, k.value.children, k.value.changed) == whole;
        assert ChildCounts(whole, tasks) == counts;
        ExactlyNode(whole, path, tasks, below);
      }
    }
  }

  lemma {:induction false} DownChildrenVisits<S(!new)>(cs: seq<Plan>, i: nat, path: Path, counts: seq<nat>,
                                                       f: Rewriter<S>, s: (S, seq<(Path, nat)>), m: S -> nat)
    returns (vs: seq<(Path, nat)>)
    requires WellBehaved(f, m) && |counts| == |cs|
    ensures var (r, end) := DownChildren(cs, i, path, counts, Continue, Traced(f), s, TracedMeasure(m));
            r.Success? ==>
              && end.1 == s.1 + vs && ExactlyBelow(vs, r.value.children, i, path, counts)
              && r.value.signal == Continue && (!r.value.changed ==> r.value.children == cs)
    decreases m(s.0), SizeAll(cs), 1
  {
    vs := [];
    if cs == [] {
      assert s.1 + vs == s.1;
    } else {
      var g, n := Traced(f), TracedMeasure(m);
      var first := DownVisits(cs[0], path + [i], counts[0], f, s, m);
      var (t, s') := Down(cs[0], path + [i], counts[0], g, s, n);
      if t.Success? {
        var rest := DownChildrenVisits(cs[1..], i + 1, path, counts[1..], f, s', m);
        vs := first + rest;
        assert s.1 + first + rest == s.1 + vs;
        var (u, end) := DownChildren(cs[1..], i + 1, path, counts[1..], Continue, g, s', n);
        if u.Success? {
          var all := [t.value.data] + u.value.children;
          assert all[0] == t.value.data && all[1..] == u.value.children;
          ExactlyFirst(all, i, path, counts, first, rest);
        }
      }
    }
  }

  /** With a callback that never cuts the walk short, the top-down traversal visits every node of the
      rewritten plan exactly once, with the count that walking down the rewritten plan gives it. */
  lemma DownCountsAreInherited<S(!new)>(p: Plan, tasks: nat, f: Rewriter<S>, s: S, m: S -> nat)
    requires Progresses(f, m) && AlwaysContinues(f) && Honest(f)
    ensures Progresses(Traced(f), TracedMeasure(m))
    ensures var (r, end) := Down(p, [], tasks, Traced(f), (s, []), TracedMeasure(m));
            r.Success? ==> Exactly(end.1, r.value.data, [], tasks)
  {
    TracingProgresses(f, m);
    var vs := DownVisits(p, [], tasks, f, (s, []), m);
    assert [] + vs == vs;
  }
}
