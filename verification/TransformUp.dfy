/** Rewriting a plan bottom-up: one node at a time, or all sibling subtrees concurrently. */
module TransformUp {
  import opened Plans

  type Callback = Plan -> Transformed

  // ---------------------------------------------------------------- sequential

  function TransformUp(p: Plan, f: Callback): (t: Transformed)
    decreases p
  {
    var kids := MapUntilStop(p.children, Continue, f);
    ThenParent(p, kids, f)
  }

  /** Rewrites children left to right; from a Stop on, the rest stay as they are. */
  function MapUntilStop(cs: seq<Plan>, signal: Recursion, f: Callback): (m: Mapped)
    decreases cs
  {
    if cs == [] then Mapped([], false, signal)
    else if signal == Stop then Mapped(cs, false, Stop)
    else
      var t := TransformUp(cs[0], f);
      var rest := MapUntilStop(cs[1..], t.signal, f);
      Mapped([t.data] + rest.children, t.changed || rest.changed, rest.signal)
  }

  /** The parent is visited only if its last visited child said Continue. */
  function ThenParent(p: Plan, kids: Mapped, f: Callback): (t: Transformed) {
    var node := Rebuilt(p, kids.children, kids.changed);
    if kids.signal == Continue then Called(f(node), kids.changed)
    else Transformed(node, kids.changed, kids.signal)
  }

  function Called(t: Transformed, childrenChanged: bool): (r: Transformed) {
    t.(changed := t.changed || childrenChanged)
  }

  /** The children's own results `ts` are used up to the first Stop: `n` of them. */
  predicate Used(ts: seq<Transformed>, n: nat) {
    && n <= |ts| && (forall j | 0 <= j < n - 1 :: ts[j].signal != Stop)
    && (n < |ts| ==> n > 0 && ts[n - 1].signal == Stop)
  }

  /** Child `j` in a node whose first `n` children were rewritten. */
  function Kept(cs: seq<Plan>, ts: seq<Transformed>, n: nat): (rs: seq<Plan>)
    requires |ts| == |cs|
  {
    seq(|cs|, j requires 0 <= j < |cs| => if j < n then ts[j].data else cs[j])
  }

  ghost predicate AnyChanged(ts: seq<Transformed>, n: nat)
    requires n <= |ts|
  {
    exists j | 0 <= j < n :: ts[j].changed
  }

  lemma UsedRest(ts: seq<Transformed>, n: nat)
    requires ts != [] && Used(ts, n) && ts[0].signal != Stop
    ensures n > 0 && Used(ts[1..], n - 1) && (AnyChanged(ts, n) <==> ts[0].changed || AnyChanged(ts[1..], n - 1))
    ensures n > 1 ==> ts[1..][n - 2] == ts[n - 1]
  {
    var rest := ts[1..];
    assert forall j | 0 < j < |ts| :: rest[j - 1] == ts[j];
    if j :| 0 <= j < n - 1 && rest[j].changed {
      assert ts[j + 1].changed;
    }
  }

  lemma {:induction false} MapRules(cs: seq<Plan>, signal: Recursion, f: Callback, ts: seq<Transformed>, n: nat)
    requires signal != Stop && |ts| == |cs| && Used(ts, n)
    requires forall i | 0 <= i < |cs| :: ts[i] == TransformUp(cs[i], f)
    ensures var m := MapUntilStop(cs, signal, f);
            && m.children == Kept(cs, ts, n) && (m.changed <==> AnyChanged(ts, n))
            && m.signal == if n == 0 then signal else ts[n - 1].signal
    decreases |cs|
  {
    if cs != [] {
      if ts[0].signal == Stop {
        assert n == 1 && Kept(cs, ts, 1) == [ts[0].data] + cs[1..];
      } else {
        UsedRest(ts, n);
        MapRules(cs[1..], ts[0].signal, f, ts[1..], n - 1);
        assert Kept(cs, ts, n) == [ts[0].data] + Kept(cs[1..], ts[1..], n - 1);
      }
    }
  }

  /** The rules of a bottom-up rewrite, over the children's own results: a Stop leaves later children as
      they were, and the parent is called exactly if its last rewritten child said Continue or it has no
      children; otherwise the child's Jump or Stop is passed on. */
  lemma UpRules(p: Plan, f: Callback, ts: seq<Transformed>, n: nat)
    requires |ts| == |p.children| && Used(ts, n)
    requires forall i | 0 <= i < |ts| :: ts[i] == TransformUp(p.children[i], f)
    ensures var t, any := TransformUp(p, f), AnyChanged(ts, n);
            var node := if any then Plan(p.op, Kept(p.children, ts, n)) else p;
            if n == 0 || ts[n - 1].signal == Continue
            then t.data == f(node).data && t.signal == f(node).signal && (t.changed <==> any || f(node).changed)
            else t.data == node && t.signal == ts[n - 1].signal && (t.changed <==> any)
  {
    MapRules(p.children, Continue, f, ts, n);
  }

  // ---------------------------------------------------------------- concurrent

  /** The future of one node: still waiting for its children's futures, awaiting the callback, or
      finished. */
  datatype Future =
    | Waiting(node: Plan, kids: seq<Future>)
    | Calling(arg: Plan, childrenChanged: bool)
    | Done(result: Transformed)

  function Spawn(p: Plan): (a: Future)
    decreases p
  {
    Waiting(p, seq(|p.children|, i requires 0 <= i < |p.children| => Spawn(p.children[i])))
  }

  /** Picks the finished children's results up in order, again leaving the children after a Stop
      alone: their rewrites are discarded. */
  function Collect(cs: seq<Plan>, results: seq<Transformed>, signal: Recursion): (m: Mapped)
    requires |results| == |cs|
  {
    if cs == [] then Mapped([], false, signal)
    else if signal == Stop then Mapped(cs, false, Stop)
    else
      var rest := Collect(cs[1..], results[1..], results[0].signal);
      Mapped([results[0].data] + rest.children, results[0].changed || rest.changed, rest.signal)
  }

  function Resume(p: Plan, results: seq<Transformed>): (a: Future)
    requires |results| == |p.children|
  {
    var kids := Collect(p.children, results, Continue);
    var node := Rebuilt(p, kids.children, kids.changed);
    if kids.signal == Continue then Calling(node, kids.changed)
    else Done(Transformed(node, kids.changed, kids.signal))
  }

  ghost predicate WellFormed(a: Future)
    decreases a
  {
    a.Waiting? ==>
      |a.kids| == |a.node.children| && forall i | 0 <= i < |a.kids| :: WellFormed(a.kids[i])
  }

  function Results(kids: seq<Future>): (rs: seq<Transformed>)
    requires forall i | 0 <= i < |kids| :: kids[i].Done?
    ensures |rs| == |kids|
  {
    seq(|kids|, i requires 0 <= i < |kids| => kids[i].result)
  }

  /** One poll: any child may advance, in any order; when all are done the node resumes. */
  ghost predicate Poll(a: Future, b: Future, f: Callback)
    requires WellFormed(a)
    decreases a
  {
    match a
    case Waiting(node, kids) =>
      || (exists i | 0 <= i < |kids| ::
            b.Waiting? && |b.kids| == |kids| && b == Waiting(node, kids[i := b.kids[i]])
            && Poll(kids[i], b.kids[i], f))
      || ((forall i | 0 <= i < |kids| :: kids[i].Done?) && b == Resume(node, Results(kids)))
    case Calling(arg, childrenChanged) => b == Done(Called(f(arg), childrenChanged))
    case Done(_) => false
  }

  // ---------------------------------------------------------------- every schedule agrees

  /** The result a future is bound to have. */
  function Outcome(a: Future, f: Callback): (t: Transformed)
    requires WellFormed(a)
    decreases a
  {
    match a
    case Waiting(node, kids) => AfterChildren(node, Outcomes(a, f), f)
    case Calling(arg, childrenChanged) => Called(f(arg), childrenChanged)
    case Done(result) => result
  }

  function Outcomes(a: Future, f: Callback): (ts: seq<Transformed>)
    requires a.Waiting? && WellFormed(a)
    ensures |ts| == |a.kids|
    decreases a, 0
  {
    seq(|a.kids|, i requires 0 <= i < |a.kids| => Outcome(a.kids[i], f))
  }

  function AfterChildren(p: Plan, results: seq<Transformed>, f: Callback): (t: Transformed)
    requires |results| == |p.children|
  {
    ThenParent(p, Collect(p.children, results, Continue), f)
  }

  lemma {:induction false} PollKeepsOutcome(a: Future, b: Future, f: Callback)
    requires WellFormed(a) && Poll(a, b, f)
    ensures WellFormed(b) && Outcome(b, f) == Outcome(a, f)
    decreases a
  {
    if a.Waiting? {
      if (forall i | 0 <= i < |a.kids| :: a.kids[i].Done?) && b == Resume(a.node, Results(a.kids)) {
        assert Outcomes(a, f) == Results(a.kids);
      } else {
        var i :| 0 <= i < |a.kids| && b.Waiting? && |b.kids| == |a.kids|
                 && b == Waiting(a.node, a.kids[i := b.kids[i]]) && Poll(a.kids[i], b.kids[i], f);
        PollKeepsOutcome(a.kids[i], b.kids[i], f);
        assert Outcomes(b, f) == Outcomes(a, f);
      }
    }
  }

  lemma {:induction false} SpawnOutcome(p: Plan, f: Callback)
    ensures WellFormed(Spawn(p)) && Outcome(Spawn(p), f) == TransformUp(p, f)
    decreases p
  {
    var a := Spawn(p);
    forall i | 0 <= i < |p.children|
      ensures WellFormed(a.kids[i]) && Outcome(a.kids[i], f) == TransformUp(p.children[i], f)
    {
      SpawnOutcome(p.children[i], f);
    }
    CollectIsMap(p.children, Outcomes(a, f), Continue, f);
  }

  lemma {:induction false} CollectIsMap(cs: seq<Plan>, results: seq<Transformed>, signal: Recursion, f: Callback)
    requires |results| == |cs| && forall i | 0 <= i < |cs| :: results[i] == TransformUp(cs[i], f)
    ensures Collect(cs, results, signal) == MapUntilStop(cs, signal, f)
  {
    if cs != [] && signal != Stop {
      CollectIsMap(cs[1..], results[1..], results[0].signal, f);
    }
  }

  /** Polls from `run[0]` to the last future. */
  ghost predicate IsRun(run: seq<Future>, f: Callback) {
    && run != []
    && (forall i | 0 <= i < |run| :: WellFormed(run[i]))
    && (forall i | 0 < i < |run| :: Poll(run[i - 1], run[i], f))
  }

  lemma {:induction false} RunKeepsOutcome(run: seq<Future>, f: Callback)
    requires IsRun(run, f)
    ensures Outcome(run[|run| - 1], f) == Outcome(run[0], f)
    decreases |run|
  {
    if |run| > 1 {
      var n := |run| - 1;
      var prefix := run[..n];
      assert forall i | 0 < i < |prefix| :: Poll(prefix[i - 1], prefix[i], f);
      RunKeepsOutcome(prefix, f);
      PollKeepsOutcome(run[n - 1], run[n], f);
    }
  }

  /** Concurrent equals sequential: whatever the schedule, a finished concurrent rewrite has the
      plan, the changed flag and the signal of the sequential rewrite, for every callback. */
  lemma ConcurrentEqualsSequential(p: Plan, f: Callback, run: seq<Future>)
    requires IsRun(run, f) && run[0] == Spawn(p) && run[|run| - 1].Done?
    ensures run[|run| - 1].result == TransformUp(p, f)
  {
    RunKeepsOutcome(run, f);
    SpawnOutcome(p, f);
  }

  // ---------------------------------------------------------------- every schedule finishes

  /** Polls still needed. */
  function Work(a: Future): (n: nat)
    decreases a
  {
    match a
    case Waiting(_, kids) => 2 + WorkAll(kids)
    case Calling(_, _) => 1
    case Done(_) => 0
  }

  function WorkAll(kids: seq<Future>): (n: nat)
    decreases kids
  {
    if kids == [] then 0 else Work(kids[0]) + WorkAll(kids[1..])
  }

  lemma {:induction false} WorkAllUpdate(kids: seq<Future>, i: nat, b: Future)
    requires i < |kids|
    ensures WorkAll(kids[i := b]) == WorkAll(kids) - Work(kids[i]) + Work(b)
  {
    if i > 0 {
      assert kids[i := b][1..] == kids[1..][i - 1 := b];
      WorkAllUpdate(kids[1..], i - 1, b);
    } else {
      assert kids[i := b][1..] == kids[1..];
    }
  }

  /** No deadlock and no endless run: an unfinished future can be polled, and each poll leaves less
      to do. */
  lemma {:induction false} PollsFinish(a: Future, f: Callback)
    requires WellFormed(a)
    ensures !a.Done? ==> exists b :: Poll(a, b, f)
    ensures forall b | Poll(a, b, f) :: Work(b) < Work(a)
    decreases a
  {
    if a.Waiting? {
      if i :| 0 <= i < |a.kids| && !a.kids[i].Done? {
        PollsFinish(a.kids[i], f);
        var k :| Poll(a.kids[i], k, f);
        assert Poll(a, Waiting(a.node, a.kids[i := k]), f);
      } else {
        assert Poll(a, Resume(a.node, Results(a.kids)), f);
      }
      forall b | Poll(a, b, f) ensures Work(b) < Work(a) {
        if i :| 0 <= i < |a.kids| && b.Waiting? && |b.kids| == |a.kids|
                && b == Waiting(a.node, a.kids[i := b.kids[i]]) && Poll(a.kids[i], b.kids[i], f)
        {
          PollsFinish(a.kids[i], f);
          WorkAllUpdate(a.kids, i, b.kids[i]);
        }
      }
    } else if a.Calling? {
      assert Poll(a, Done(Called(f(a.arg), a.childrenChanged)), f);
    }
  }
}
