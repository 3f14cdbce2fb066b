/** The bottom-up traversal that keeps task counts on a stack, for callbacks that may also stop or jump. */
module StackedCounts {
  import opened Wrappers
  import opened Plans
  import opened TaskCounts

  // ---------------------------------------------------------------- what the traversal does

  /** On the way down a node's children push their counts; on the way up the node pops its own, unless
      its last child's signal skips it. */
  function Stacked<S(!new)>(p: Plan, path: Path, stack: seq<nat>, f: Rewriter<S>, s: S)
    : (r: (Result<Transformed>, seq<nat>, S))
    requires stack != []
    ensures |r.1| >= |stack| - 1
    decreases p, 1, 0
  {
    var pushed := stack + Reversed(ChildCounts(p, stack[|stack| - 1]));
    var (kids, st, s') := StackedChildren(p, 0, path, Continue, pushed, f, s);
    if kids.Failure? then (Failure, st, s') else
      var node := Rebuilt(p, kids.value.children, kids.value.changed);
      if kids.value.signal != Continue then
        (Success(Transformed(node, kids.value.changed, kids.value.signal)), st, s')
      else
        var (t, s'') := f(path, node, st[|st| - 1], s');
        if t.Failure? then (Failure, st[..|st| - 1], s'')
        else (Success(t.value.(changed := t.value.changed || kids.value.changed)), st[..|st| - 1], s'')
  }

  /** Children `i` and later, after an earlier sibling's signal. */
  function StackedChildren<S(!new)>(p: Plan, i: nat, path: Path, signal: Recursion, stack: seq<nat>, f: Rewriter<S>,
                                    s: S)
    : (r: (Result<Mapped>, seq<nat>, S))
    requires i <= |p.children| && |stack| > |p.children| - i
    ensures |r.1| >= |stack| - (|p.children| - i)
    ensures r.0.Success? ==> |r.0.value.children| == |p.children| - i
    decreases p, 0, |p.children| - i
  {
    if i == |p.children| then (Success(Mapped([], false, signal)), stack, s)
    else if signal == Stop then (Success(Mapped(p.children[i..], false, Stop)), stack, s)
    else
      var (t, st, s') := Stacked(p.children[i], path + [i], stack, f, s);
      if t.Failure? then (Failure, st, s') else
        var (rest, st', s'') := StackedChildren(p, i + 1, path, t.value.signal, st, f, s');
        if rest.Failure? then (Failure, st', s'') else
          (Success(Mapped([t.value.data] + rest.value.children, t.value.changed || rest.value.changed,
                          rest.value.signal)), st', s'')
  }

  class UpWalker<S(!new)> {
    const f: Rewriter<S>
    var stack: seq<nat>
    var state: S

    constructor (tasks: nat, f: Rewriter<S>, s: S)
      ensures this.f == f && stack == [tasks] && state == s
    {
      this.f, stack, state := f, [tasks], s;
    }

    /** Whatever the callback does, no pop finds the stack empty. */
    method TransformDownUp(node: Plan, path: Path) returns (t: Result<Transformed>)
      requires stack != []
      modifies this`stack, this`state
      ensures (t, stack, state) == Stacked(node, path, old(stack), f, old(state))
      decreases node, 1
    {
      stack := stack + Reversed(ChildCounts(node, stack[|stack| - 1]));
      var kids := MapChildren(node, path);
      if kids.Failure? {
        return Failure;
      }
      var rebuilt := Rebuilt(node, kids.value.children, kids.value.changed);
      if kids.value.signal != Continue {
        return Success(Transformed(rebuilt, kids.value.changed, kids.value.signal));
      }
      var tasks := stack[|stack| - 1];
      stack := stack[..|stack| - 1];
      var (u, s) := f(path, rebuilt, tasks, state);
      state := s;
      if u.Failure? {
        return Failure;
      }
      return Success(u.value.(changed := u.value.changed || kids.value.changed));
    }

    /** DataFusion's rule for children: after a Stop the remaining ones stay as they are. */
    method MapChildren(node: Plan, path: Path) returns (m: Result<Mapped>)
      requires |stack| > |node.children|
      modifies this`stack, this`state
      ensures (m, stack, state) == StackedChildren(node, 0, path, Continue, old(stack), f, old(state))
      decreases node, 0
    {
      var children, changed, signal := [], false, Continue;
      ghost var all := StackedChildren(node, 0, path, Continue, stack, f, state);
      assert all.0.Success? ==> children + all.0.value.children == all.0.value.children;
      for i := 0 to |node.children|
        invariant |children| == i && |stack| > |node.children| - i
        invariant all == Joined(children, changed, StackedChildren(node, i, path, signal, stack, f, state))
      {
        if signal == Stop {
          SkippedJoins(node, i, path, stack, f, state, children, changed);
          children := children + [node.children[i]];
        } else {
          NextJoins(node, i, path, signal, stack, f, state, children, changed);
          var r := TransformDownUp(node.children[i], path + [i]);
          if r.Failure? {
            return Failure;
          }
          children, changed, signal := children + [r.value.data], changed || r.value.changed, r.value.signal;
        }
      }
      assert children + [] == children;
      return Success(Mapped(children, changed, signal));
    }
  }

  /** The children done so far and the outcome for the rest. */
  ghost function Joined<S(!new)>(done: seq<Plan>, changed: bool, rest: (Result<Mapped>, seq<nat>, S))
    : (r: (Result<Mapped>, seq<nat>, S))
  {
    var (m, st, s) := rest;
    if m.Failure? then rest
    else (Success(Mapped(done + m.value.children, changed || m.value.changed, m.value.signal)), st, s)
  }

  lemma SkippedJoins<S(!new)>(p: Plan, i: nat, path: Path, stack: seq<nat>, f: Rewriter<S>, s: S, done: seq<Plan>,
                              changed: bool)
    requires i < |p.children| && |stack| > |p.children| - i
    ensures Joined(done, changed, StackedChildren(p, i, path, Stop, stack, f, s)) ==
            Joined(done + [p.children[i]], changed, StackedChildren(p, i + 1, path, Stop, stack, f, s))
  {
    assert done + p.children[i..] == done + [p.children[i]] + p.children[i + 1..];
    assert i + 1 == |p.children| ==> p.children[i + 1..] == [];
  }

  lemma NextJoins<S(!new)>(p: Plan, i: nat, path: Path, signal: Recursion, stack: seq<nat>, f: Rewriter<S>, s: S,
                           done: seq<Plan>, changed: bool)
    requires i < |p.children| && |stack| > |p.children| - i && signal != Stop
    ensures var (t, st, s') := Stacked(p.children[i], path + [i], stack, f, s);
            Joined(done, changed, StackedChildren(p, i, path, signal, stack, f, s)) ==
            if t.Failure? then (Failure, st, s')
            else Joined(done + [t.value.data], changed || t.value.changed,
                        StackedChildren(p, i + 1, path, t.value.signal, st, f, s'))
  {
    var (t, st, s') := Stacked(p.children[i], path + [i], stack, f, s);
    if t.Success? {
      var rest := StackedChildren(p, i + 1, path, t.value.signal, st, f, s').0;
      assert rest.Success? ==>
               done + ([t.value.data] + rest.value.children) == done + [t.value.data] + rest.value.children;
    }
  }

  // ---------------------------------------------------------------- callbacks that always continue

  /** The stack does what passing counts down would. */
  lemma {:induction false} StackedIsUp<S(!new)>(p: Plan, path: Path, stack: seq<nat>, f: Rewriter<S>, s: S)
    requires AlwaysContinues(f) && stack != []
    ensures var (t, st, end) := Stacked(p, path, stack, f, s);
            (t, end) == Up(p, path, stack[|stack| - 1], f, s) && (t.Success? ==> st == stack[..|stack| - 1])
    decreases p, 1, 0
  {
    var counts := ChildCounts(p, stack[|stack| - 1]);
    assert counts[0..] == counts;
    StackedChildrenIsUp(p, 0, path, stack, stack[|stack| - 1], f, s);
  }

  lemma {:induction false} StackedChildrenIsUp<S(!new)>(p: Plan, i: nat, path: Path, base: seq<nat>, tasks: nat,
                                                        f: Rewriter<S>, s: S)
    requires AlwaysContinues(f) && base != [] && i <= |p.children|
    ensures var stack := base + Reversed(ChildCounts(p, tasks)[i..]);
            var (m, st, end) := StackedChildren(p, i, path, Continue, stack, f, s);
            (m, end) == UpChildren(p, i, path, tasks, f, s) && (m.Success? ==> st == base)
    decreases p, 0, |p.children| - i
  {
    if i == |p.children| {
      assert base + [] == base;
    } else {
      PopsFirst(p, i, base, tasks);
      var stack := base + Reversed(ChildCounts(p, tasks)[i..]);
      StackedIsUp(p.children[i], path + [i], stack, f, s);
      var (t, st, mid) := Stacked(p.children[i], path + [i], stack, f, s);
      if t.Success? {
        UpContinues(p.children[i], path + [i], ChildTaskCount(p.op, tasks, i), f, s);
        StackedChildrenIsUp(p, i + 1, path, base, tasks, f, mid);
      }
    }
  }

  /** Child `i` finds its own count on top, and its later siblings' below. */
  lemma PopsFirst(p: Plan, i: nat, base: seq<nat>, tasks: nat)
    requires i < |p.children|
    ensures var stack := base + Reversed(ChildCounts(p, tasks)[i..]);
            && stack != [] && stack[|stack| - 1] == ChildTaskCount(p.op, tasks, i)
            && stack[..|stack| - 1] == base + Reversed(ChildCounts(p, tasks)[i + 1..])
  {
    var counts := ChildCounts(p, tasks);
    assert Reversed(counts[i..]) == Reversed(counts[i + 1..]) + [counts[i]];
  }

  lemma UpContinues<S(!new)>(p: Plan, path: Path, tasks: nat, f: Rewriter<S>, s: S)
    requires AlwaysContinues(f) && Up(p, path, tasks, f, s).0.Success?
    ensures Up(p, path, tasks, f, s).0.value.signal == Continue
  {
  }

  // ---------------------------------------------------------------- callbacks that jump nowhere a parent is skipped

  ghost predicate NeverJumpsAt<S(!new)>(f: Rewriter<S>, path: Path) {
    forall p, tasks, s ::
      f(path, p, tasks, s).0.Success? ==> f(path, p, tasks, s).0.value.signal != Jump
  }

  /** The callback may fail or stop anywhere and jump at any child but the last of its parent. */
  ghost predicate LastNeverJumps<S(!new)>(p: Plan, path: Path, f: Rewriter<S>)
    decreases p
  {
    forall c | 0 <= c < |p.children| ::
      && (c == |p.children| - 1 ==> NeverJumpsAt(f, path + [c]))
      && LastNeverJumps(p.children[c], path + [c], f)
  }

  /** What was recorded is what was due, or only its beginning where the walk was cut short. */
  ghost predicate GivenInOrder(before: seq<(Path, nat)>, after: seq<(Path, nat)>, due: seq<(Path, nat)>,
                               finished: bool) {
    before <= after <= before + due && (finished ==> after == before + due)
  }

  /** A callback that jumps at no last child is given the counts of the original plan in post-order, up to
      where it fails or stops the walk; and the stack is in step wherever the walk goes on. */
  lemma {:induction false} StackedRecords<S(!new)>(p: Plan, path: Path, stack: seq<nat>, f: Rewriter<S>,
                                                   s: (S, seq<(Path, nat)>))
    requires LastNeverJumps(p, path, f) && stack != []
    ensures var (r, st, end) := Stacked(p, path, stack, Traced(f), s);
            var finished := r.Success? && r.value.signal != Stop;
            && (finished ==> st == stack[..|stack| - 1])
            && GivenInOrder(s.1, end.1, PostOrder(p, path, stack[|stack| - 1]), finished)
    decreases p, 1, 0
  {
    var tasks := stack[|stack| - 1];
    var counts := ChildCounts(p, tasks);
    assert counts[0..] == counts;
    StackedChildrenRecord(p, 0, path, Continue, stack, tasks, f, s);
    ChildrenNeverJump(p, 0, path, Continue, stack + Reversed(counts), f, s);
    var (kids, st, mid) := StackedChildren(p, 0, path, Continue, stack + Reversed(counts), Traced(f), s);
    LastInOrder(s.1, mid.1, PostOrderFrom(p, 0, path, tasks), (path, tasks),
                kids.Success? && kids.value.signal != Stop);
  }

  /** A jump of another child is forgotten with the next one, so the parent's callback runs. */
  lemma {:induction false} ChildrenNeverJump<S(!new)>(p: Plan, i: nat, path: Path, signal: Recursion, stack: seq<nat>,
                                                      f: Rewriter<S>, s: (S, seq<(Path, nat)>))
    requires LastNeverJumps(p, path, f) && i <= |p.children| && |stack| > |p.children| - i
    requires i == |p.children| ==> signal != Jump
    ensures var m := StackedChildren(p, i, path, signal, stack, Traced(f), s).0;
            m.Success? ==> m.value.signal != Jump
    decreases p, 0, |p.children| - i
  {
    if i < |p.children| && signal != Stop {
      var (t, st, mid) := Stacked(p.children[i], path + [i], stack, Traced(f), s);
      if t.Success? {
        if i + 1 == |p.children| {
          NodeNeverJumps(p.children[i], path + [i], stack, f, s);
        }
        ChildrenNeverJump(p, i + 1, path, t.value.signal, st, f, mid);
      }
    }
  }

  lemma {:induction false} NodeNeverJumps<S(!new)>(p: Plan, path: Path, stack: seq<nat>, f: Rewriter<S>,
                                                   s: (S, seq<(Path, nat)>))
    requires LastNeverJumps(p, path, f) && NeverJumpsAt(f, path) && stack != []
    ensures var r := Stacked(p, path, stack, Traced(f), s).0;
            r.Success? ==> r.value.signal != Jump
    decreases p, 1, 0
  {
    var pushed := stack + Reversed(ChildCounts(p, stack[|stack| - 1]));
    ChildrenNeverJump(p, 0, path, Continue, pushed, f, s);
    var (kids, st, mid) := StackedChildren(p, 0, path, Continue, pushed, Traced(f), s);
    if kids.Success? {
      var t := f(path, Rebuilt(p, kids.value.children, kids.value.changed), st[|st| - 1], mid.0).0;
      assert t.Success? ==> t.value.signal != Jump;
    }
  }

  lemma LastInOrder(before: seq<(Path, nat)>, after: seq<(Path, nat)>, due: seq<(Path, nat)>, v: (Path, nat),
                    finished: bool)
    requires GivenInOrder(before, after, due, finished)
    ensures GivenInOrder(before, after, due + [v], false)
    ensures finished ==> GivenInOrder(before, after + [v], due + [v], true)
  {
    assert before + (due + [v]) == before + due + [v];
  }

  lemma ThenInOrder(a: seq<(Path, nat)>, b: seq<(Path, nat)>, c: seq<(Path, nat)>, first: seq<(Path, nat)>,
                    rest: seq<(Path, nat)>, finished: bool)
    requires GivenInOrder(a, b, first, true) && GivenInOrder(b, c, rest, finished)
    ensures GivenInOrder(a, c, first + rest, finished)
  {
    assert a + (first + rest) == a + first + rest;
  }

  lemma CutInOrder(a: seq<(Path, nat)>, b: seq<(Path, nat)>, first: seq<(Path, nat)>, rest: seq<(Path, nat)>,
                   finished: bool)
    requires GivenInOrder(a, b, first, finished)
    ensures GivenInOrder(a, b, first + rest, false)
  {
    assert a + (first + rest) == a + first + rest;
  }

  lemma NothingAfterStop<S(!new)>(p: Plan, i: nat, path: Path, stack: seq<nat>, f: Rewriter<S>, s: S)
    requires i <= |p.children| && |stack| > |p.children| - i
    ensures var (m, st, end) := StackedChildren(p, i, path, Stop, stack, f, s);
            m.Success? && m.value.signal == Stop && end == s
  {
  }

  /** The outcome for some children, and what was due to be recorded for them. */
  ghost predicate RecordedAs<S(!new)>(out: (Result<Mapped>, seq<nat>, (S, seq<(Path, nat)>)), before: seq<(Path, nat)>,
                                      due: seq<(Path, nat)>, base: seq<nat>) {
    var finished := out.0.Success? && out.0.value.signal != Stop;
    && (finished ==> out.1 == base)
    && GivenInOrder(before, out.2.1, due, finished)
  }

  lemma {:induction false} StackedChildrenRecord<S(!new)>(p: Plan, i: nat, path: Path, signal: Recursion,
                                                          base: seq<nat>,
                                                          tasks: nat, f: Rewriter<S>, s: (S, seq<(Path, nat)>))
    requires LastNeverJumps(p, path, f) && base != [] && i <= |p.children|
    ensures var stack := base + Reversed(ChildCounts(p, tasks)[i..]);
            RecordedAs(StackedChildren(p, i, path, signal, stack, Traced(f), s), s.1,
                       PostOrderFrom(p, i, path, tasks), base)
    decreases p, 0, |p.children| - i
  {
    if i == |p.children| {
      assert base + [] == base && s.1 + [] == s.1;
    } else if signal != Stop {
      PopsFirst(p, i, base, tasks);
      var stack := base + Reversed(ChildCounts(p, tasks)[i..]);
      StackedRecords(p.children[i], path + [i], stack, f, s);
      var (t, st, mid) := Stacked(p.children[i], path + [i], stack, Traced(f), s);
      if t.Success? {
        StackedChildrenRecord(p, i + 1, path, t.value.signal, base, tasks, f, mid);
      }
      ThenRecorded(p, i, path, signal, stack, base, tasks, f, s);
    }
  }

  /** The first child's record and the others' make up the record of all. */
  lemma ThenRecorded<S(!new)>(p: Plan, i: nat, path: Path, signal: Recursion, stack: seq<nat>, base: seq<nat>,
                              tasks: nat, f: Rewriter<S>, s: (S, seq<(Path, nat)>))
    requires i < |p.children| && |stack| > |p.children| - i && signal != Stop
    requires var (t, st, mid) := Stacked(p.children[i], path + [i], stack, Traced(f), s);
             var finished := t.Success? && t.value.signal != Stop;
             && GivenInOrder(s.1, mid.1, PostOrder(p.children[i], path + [i], ChildTaskCount(p.op, tasks, i)), finished)
             && (finished ==>
                   RecordedAs(StackedChildren(p, i + 1, path, t.value.signal, st, Traced(f), mid), mid.1,
                              PostOrderFrom(p, i + 1, path, tasks), base))
    ensures RecordedAs(StackedChildren(p, i, path, signal, stack, Traced(f), s), s.1,
                       PostOrderFrom(p, i, path, tasks), base)
  {
    var first := PostOrder(p.children[i], path + [i], ChildTaskCount(p.op, tasks, i));
    var rest := PostOrderFrom(p, i + 1, path, tasks);
    var (t, st, mid) := Stacked(p.children[i], path + [i], stack, Traced(f), s);
    if t.Success? && t.value.signal != Stop {
      var (m, _, end) := StackedChildren(p, i + 1, path, t.value.signal, st, Traced(f), mid);
      ThenInOrder(s.1, mid.1, end.1, first, rest, m.Success? && m.value.signal != Stop);
    } else {
      CutInOrder(s.1, mid.1, first, rest, false);
      if t.Success? {
        NothingAfterStop(p, i + 1, path, st, Traced(f), mid);
      }
    }
  }

  // ---------------------------------------------------------------- callbacks that jump

  /** Every node visited leaves one count on the stack for each child and takes one off when its callback
      runs, so a walk that was not stopped leaves one count too many for each callback it skipped. */
  lemma {:induction false} StackedBalance<S(!new)>(p: Plan, path: Path, stack: seq<nat>, f: Rewriter<S>,
                                                   s: (S, seq<(Path, nat)>))
    requires stack != []
    ensures var (r, st, end) := Stacked(p, path, stack, Traced(f), s);
            && (r, st, end.0) == Stacked(p, path, stack, f, s.0)
            && (r.Success? && r.value.signal != Stop ==> |st| + |end.1| == |stack| + |s.1| + Size(p) - 1)
    decreases p, 1, 0
  {
    var pushed := stack + Reversed(ChildCounts(p, stack[|stack| - 1]));
    assert p.children[0..] == p.children;
    StackedChildrenBalance(p, 0, path, Continue, pushed, f, s);
  }

  lemma {:induction false} StackedChildrenBalance<S(!new)>(p: Plan, i: nat, path: Path, signal: Recursion,
                                                           stack: seq<nat>, f: Rewriter<S>, s: (S, seq<(Path, nat)>))
    requires i <= |p.children| && |stack| > |p.children| - i
    ensures var (m, st, end) := StackedChildren(p, i, path, signal, stack, Traced(f), s);
            && (m, st, end.0) == StackedChildren(p, i, path, signal, stack, f, s.0)
            && (m.Success? && m.value.signal != Stop ==>
                  |st| + |end.1| + (|p.children| - i) == |stack| + |s.1| + SizeAll(p.children[i..]))
    decreases p, 0, |p.children| - i
  {
    if i < |p.children| && signal != Stop {
      var cs := p.children[i..];
      assert cs[0] == p.children[i] && cs[1..] == p.children[i + 1..];
      StackedBalance(p.children[i], path + [i], stack, f, s);
      var (t, st, mid) := Stacked(p.children[i], path + [i], stack, Traced(f), s);
      if t.Success? {
        StackedChildrenBalance(p, i + 1, path, t.value.signal, st, f, mid);
      }
    }
  }

  /** After a walk that was not stopped, the stack is in step exactly if every node's callback ran. */
  lemma InStepIffNoneSkipped<S(!new)>(p: Plan, path: Path, stack: seq<nat>, f: Rewriter<S>, s: S)
    requires stack != []
    ensures var (r, st, end) := Stacked(p, path, stack, Traced(f), (s, []));
            r.Success? && r.value.signal != Stop ==>
              (|st| == |stack| - 1 <==> |end.1| == Size(p))
  {
    StackedBalance(p, path, stack, f, (s, []));
  }

  /** The callback's signal is known beforehand, node by node; what else it does is free, and it may fail. */
  ghost predicate SignalsAs<S(!new)>(f: Rewriter<S>, sig: Path -> Recursion) {
    forall path, p, tasks, s ::
      f(path, p, tasks, s).0.Success? ==> f(path, p, tasks, s).0.value.signal == sig(path)
  }

  /** Somewhere below the node, the last child of its parent jumps. */
  predicate LastChildJumps(p: Plan, path: Path, sig: Path -> Recursion)
    decreases p
  {
    exists c | 0 <= c < |p.children| ::
      (c == |p.children| - 1 && sig(path + [c]) == Jump) || LastChildJumps(p.children[c], path + [c], sig)
  }

  predicate JumpsFrom(p: Plan, i: nat, path: Path, sig: Path -> Recursion) {
    exists c | i <= c < |p.children| :: LastChildJumps(p.children[c], path + [c], sig)
  }

  /** Where a last child jumps, a callback is skipped and a count stays behind. */
  lemma {:induction false} JumpLeavesCount<S(!new)>(p: Plan, path: Path, stack: seq<nat>, f: Rewriter<S>,
                                                    sig: Path -> Recursion, s: S)
    requires SignalsAs(f, sig) && stack != []
    ensures var (r, st, _) := Stacked(p, path, stack, f, s);
            r.Success? && r.value.signal != Stop ==>
              && (sig(path) == Jump ==> r.value.signal == Jump)
              && (LastChildJumps(p, path, sig) ==> |st| >= |stack|)
    decreases p, 1, 0
  {
    JumpLeavesCountBelow(p, 0, path, Continue, stack + Reversed(ChildCounts(p, stack[|stack| - 1])), f, sig, s);
  }

  lemma {:induction false} JumpLeavesCountBelow<S(!new)>(p: Plan, i: nat, path: Path, signal: Recursion,
                                                         stack: seq<nat>, f: Rewriter<S>, sig: Path -> Recursion, s: S)
    requires SignalsAs(f, sig) && i <= |p.children| && |stack| > |p.children| - i
    ensures var (m, st, _) := StackedChildren(p, i, path, signal, stack, f, s);
            m.Success? && m.value.signal != Stop ==>
              && (i < |p.children| && sig(path + [|p.children| - 1]) == Jump ==> m.value.signal == Jump)
              && (JumpsFrom(p, i, path, sig) ==> |st| > |stack| - (|p.children| - i))
    decreases p, 0, |p.children| - i
  {
    if i < |p.children| && signal != Stop {
      JumpLeavesCount(p.children[i], path + [i], stack, f, sig, s);
      var (t, st, mid) := Stacked(p.children[i], path + [i], stack, f, s);
      if t.Success? {
        JumpLeavesCountBelow(p, i + 1, path, t.value.signal, st, f, sig, mid);
        assert JumpsFrom(p, i, path, sig) ==>
                 LastChildJumps(p.children[i], path + [i], sig) || JumpsFrom(p, i + 1, path, sig);
      }
    }
  }

  lemma TracedSignals<S(!new)>(f: Rewriter<S>, sig: Path -> Recursion)
    requires SignalsAs(f, sig)
    ensures SignalsAs(Traced(f), sig)
  {
    forall path, p, tasks, s: (S, seq<(Path, nat)>) | Traced(f)(path, p, tasks, s).0.Success?
      ensures Traced(f)(path, p, tasks, s).0.value.signal == sig(path)
    {
      assert f(path, p, tasks, s.0).0.value.signal == sig(path);
    }
  }

  lemma {:induction false} NoLastChildJumps<S(!new)>(p: Plan, path: Path, f: Rewriter<S>, sig: Path -> Recursion)
    requires SignalsAs(f, sig) && !LastChildJumps(p, path, sig)
    ensures LastNeverJumps(p, path, f)
    decreases p
  {
    forall c | 0 <= c < |p.children|
      ensures c == |p.children| - 1 ==> NeverJumpsAt(f, path + [c])
      ensures LastNeverJumps(p.children[c], path + [c], f)
    {
      NoLastChildJumps(p.children[c], path + [c], f, sig);
    }
  }

  lemma {:induction false} PostOrderLength(p: Plan, path: Path, tasks: nat)
    ensures |PostOrder(p, path, tasks)| == Size(p)
    decreases p, 1, 0
  {
    assert p.children[0..] == p.children;
    PostOrderFromLength(p, 0, path, tasks);
  }

  lemma {:induction false} PostOrderFromLength(p: Plan, i: nat, path: Path, tasks: nat)
    requires i <= |p.children|
    ensures |PostOrderFrom(p, i, path, tasks)| == SizeAll(p.children[i..])
    decreases p, 0, |p.children| - i
  {
    if i < |p.children| {
      var cs := p.children[i..];
      assert cs[0] == p.children[i] && cs[1..] == p.children[i + 1..];
      PostOrderLength(p.children[i], path + [i], ChildTaskCount(p.op, tasks, i));
      PostOrderFromLength(p, i + 1, path, tasks);
    }
  }

  /** Exactly when the stack serves: a walk that was neither stopped nor failed gives every node its own
      count, and leaves the stack in step, if and only if no last child jumps. */
  lemma CountsRightIffNoLastChildJumps<S(!new)>(p: Plan, tasks: nat, f: Rewriter<S>, sig: Path -> Recursion, s: S)
    requires SignalsAs(f, sig)
    ensures var (r, st, end) := Stacked(p, [], [tasks], Traced(f), (s, []));
            r.Success? && r.value.signal != Stop ==>
              && (st == [] <==> !LastChildJumps(p, [], sig))
              && (end.1 == PostOrder(p, [], tasks) <==> !LastChildJumps(p, [], sig))
  {
    if LastChildJumps(p, [], sig) {
      TracedSignals(f, sig);
      JumpLeavesCount(p, [], [tasks], Traced(f), sig, (s, []));
      InStepIffNoneSkipped(p, [], [tasks], f, s);
      PostOrderLength(p, [], tasks);
    } else {
      NoLastChildJumps(p, [], f, sig);
      StackedRecords(p, [], [tasks], f, (s, []));
      assert [] + PostOrder(p, [], tasks) == PostOrder(p, [], tasks);
    }
  }

  /** Jumps at one node and continues everywhere else. */
  function JumpAt(where: Path): (f: Rewriter<()>) {
    (path: Path, p: Plan, tasks: nat, s: ()) =>
      (Success(Transformed(p, false, if path == where then Jump else Continue)), ())
  }

  const Inner := Plan(Operator(0), [Plan(Scan(0), [])])

  /** The first child is fed by a stage of five tasks; the second is not. */
  const Siblings := Plan(Operator(1), [Plan(Boundary(NetworkCoalesce(1), Local(0, 0, 5)), [Inner]), Plan(Scan(1), [])])

  lemma LeafStacked<S(!new)>(op: Op, path: Path, stack: seq<nat>, f: Rewriter<S>, s: S)
    requires stack != []
    ensures var p := Plan(op, []);
            var (t, s') := f(path, p, stack[|stack| - 1], s);
            Stacked(p, path, stack, f, s) == (t, stack[..|stack| - 1], s')
  {
    var p := Plan(op, []);
    assert Reversed(ChildCounts(p, stack[|stack| - 1])) == [] && stack + [] == stack;
    var pushed := stack + Reversed(ChildCounts(p, stack[|stack| - 1]));
    assert pushed == stack;
    assert StackedChildren(p, 0, path, Continue, pushed, f, s) == (Success(Mapped([], false, Continue)), stack, s);
    var (t, s') := f(path, p, stack[|stack| - 1], s);
    assert t.Success? ==> t.value.(changed := t.value.changed || false) == t.value;
  }

  lemma OnlyCount(p: Plan, tasks: nat)
    requires |p.children| == 1
    ensures Reversed(ChildCounts(p, tasks)) == [ChildTaskCount(p.op, tasks, 0)]
  {
  }

  /** A jump of an only child skips the parent. */
  lemma OnlyChildJumps<S(!new)>(p: Plan, path: Path, stack: seq<nat>, pushed: seq<nat>, f: Rewriter<S>, s: S,
                                st: seq<nat>, s': S)
    requires stack != [] && |p.children| == 1 && pushed == stack + [ChildTaskCount(p.op, stack[|stack| - 1], 0)]
    requires Stacked(p.children[0], path + [0], pushed, f, s) ==
             (Success(Transformed(p.children[0], false, Jump)), st, s')
    ensures Stacked(p, path, stack, f, s) == (Success(Transformed(p, false, Jump)), st, s')
  {
    OnlyCount(p, stack[|stack| - 1]);
    OnlyChild(p, p.children[0], path, pushed, f, s, st, s');
  }

  lemma OnlyChild<S(!new)>(p: Plan, c: Plan, path: Path, stack: seq<nat>, f: Rewriter<S>, s: S, st: seq<nat>, s': S)
    requires p.children == [c] && |stack| > 1
    requires Stacked(c, path + [0], stack, f, s) == (Success(Transformed(c, false, Jump)), st, s')
    ensures StackedChildren(p, 0, path, Continue, stack, f, s) == (Success(Mapped([c], false, Jump)), st, s')
  {
    assert StackedChildren(p, 1, path, Jump, st, f, s') == (Success(Mapped([], false, Jump)), st, s');
    assert [c] + [] == [c];
  }

  /** After the jump below the first child, its sibling is given the count of a skipped node. */
  lemma JumpMisplacesCounts()
    ensures var (r, st, end) := Stacked(Siblings, [], [1], Traced(JumpAt([0, 0, 0])), ((), []));
            && r.Success? && st == [1, 1]
            && end.1 == [([0, 0, 0], 5), ([1], 5), ([], 1)] && CountAt(Siblings, 1, [1]) == Some(1)
  {
    WalkedSiblings(Siblings);
    assert CountAt(Siblings.children[1], 1, []) == Some(1) && [1][1..] == [];
  }

  lemma WalkedSiblings(p: Plan)
    requires p == Siblings
    ensures Stacked(p, [], [1], Traced(JumpAt([0, 0, 0])), ((), [])) ==
            (Success(Transformed(p, false, Continue)), [1, 1], ((), [([0, 0, 0], 5), ([1], 5), ([], 1)]))
  {
    var f := Traced(JumpAt([0, 0, 0]));
    var s1: ((), seq<(Path, nat)>) := ((), [([0, 0, 0], 5)]);
    var s2: ((), seq<(Path, nat)>) := ((), [([0, 0, 0], 5), ([1], 5)]);
    LeafJumps(s1);
    ChainJumps(p.children[0], Inner, f, ((), []), s1);
    assert s1.1 + [([1], 5)] == s2.1;
    SecondChild(s1, s2);
    AfterJump(p, f, ((), []), s1, s2);
    assert s2.1 + [([], 1)] == [([0, 0, 0], 5), ([1], 5), ([], 1)];
  }

  /** The walk goes on with the sibling. */
  lemma AfterJump<S(!new)>(p: Plan, f: Rewriter<S>, s0: S, s1: S, s2: S)
    requires |p.children| == 2 && ChildTaskCount(p.op, 1, 0) == ChildTaskCount(p.op, 1, 1) == 1
    requires Stacked(p.children[0], [0], [1, 1, 1], f, s0) ==
             (Success(Transformed(p.children[0], false, Jump)), [1, 1, 1, 5], s1)
    requires Stacked(p.children[1], [1], [1, 1, 1, 5], f, s1) ==
             (Success(Transformed(p.children[1], false, Continue)), [1, 1, 1], s2)
    ensures var (t, s3) := f([], p, 1, s2);
            Stacked(p, [], [1], f, s0) == (t, [1, 1], s3)
  {
    var first, second := p.children[0], p.children[1];
    assert [] + [0] == [0] && [] + [1] == [1] && [second] + [] == [second] && [first] + [second] == p.children;
    assert StackedChildren(p, 2, [], Continue, [1, 1, 1], f, s2) ==
           (Success(Mapped([], false, Continue)), [1, 1, 1], s2);
    assert StackedChildren(p, 1, [], Jump, [1, 1, 1, 5], f, s1) ==
           (Success(Mapped([second], false, Continue)), [1, 1, 1], s2);
    assert Reversed(ChildCounts(p, 1)) == [1, 1] && [1] + [1, 1] == [1, 1, 1] && [1, 1, 1][..2] == [1, 1];
    var (t, s3) := f([], p, 1, s2);
    assert t.Success? ==> t.value.(changed := t.value.changed || false) == t.value;
  }

  lemma LeafJumps(s: ((), seq<(Path, nat)>))
    requires s == ((), [([0, 0, 0], 5)])
    ensures var leaf := Plan(Scan(0), []);
            Stacked(leaf, [0, 0, 0], [1, 1, 1, 5, 5], Traced(JumpAt([0, 0, 0])), ((), [])) ==
            (Success(Transformed(leaf, false, Jump)), [1, 1, 1, 5], s)
  {
    LeafStacked(Scan(0), [0, 0, 0], [1, 1, 1, 5, 5], Traced(JumpAt([0, 0, 0])), ((), []));
    assert [] + [([0, 0, 0], 5)] == s.1 && [1, 1, 1, 5, 5][..4] == [1, 1, 1, 5];
  }

  /** A jump at the bottom of a chain skips both nodes above it. */
  lemma ChainJumps<S(!new)>(w: Plan, m: Plan, f: Rewriter<S>, s: S, s': S)
    requires |w.children| == 1 && w.children[0] == m && |m.children| == 1
    requires ChildTaskCount(w.op, 1, 0) == 5 && ChildTaskCount(m.op, 5, 0) == 5
    requires Stacked(m.children[0], [0, 0, 0], [1, 1, 1, 5, 5], f, s) ==
             (Success(Transformed(m.children[0], false, Jump)), [1, 1, 1, 5], s')
    ensures Stacked(w, [0], [1, 1, 1], f, s) == (Success(Transformed(w, false, Jump)), [1, 1, 1, 5], s')
  {
    assert [0] + [0] == [0, 0] && [0, 0] + [0] == [0, 0, 0];
    OnlyChildJumps(m, [0, 0], [1, 1, 1, 5], [1, 1, 1, 5, 5], f, s, [1, 1, 1, 5], s');
    OnlyChildJumps(w, [0], [1, 1, 1], [1, 1, 1, 5], f, s, [1, 1, 1, 5], s');
  }

  lemma SecondChild(s1: ((), seq<(Path, nat)>), s2: ((), seq<(Path, nat)>))
    requires s2 == ((), s1.1 + [([1], 5)])
    ensures var c := Siblings.children[1];
            Stacked(c, [1], [1, 1, 1, 5], Traced(JumpAt([0, 0, 0])), s1) ==
            (Success(Transformed(c, false, Continue)), [1, 1, 1], s2)
  {
    assert |[1]| != |[0, 0, 0]| && [1, 1, 1, 5][..3] == [1, 1, 1];
    LeafStacked(Scan(1), [1], [1, 1, 1, 5], Traced(JumpAt([0, 0, 0])), s1);
  }
}
