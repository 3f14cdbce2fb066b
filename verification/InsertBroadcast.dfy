/** Inserting broadcasts on the build sides of collect-left joins. */
module InsertBroadcast {
  import opened Wrappers
  import opened Plans

  predicate LeftBroadcastSafe(joinType: JoinType) {
    joinType in {Inner, Right, RightSemi, RightAnti, RightMark}
  }

  predicate CanBroadcastLeft(op: Op) {
    && op.Join?
    && match op.join
       case HashJoin(mode, joinType) => mode == CollectLeft && LeftBroadcastSafe(joinType)
       case NestedLoopJoin(joinType) => LeftBroadcastSafe(joinType)
       case CrossJoin => true
  }

  /** A coalesce without a limit. */
  predicate Gathers(p: Plan) {
    p.op == Coalesce(None) && |p.children| == 1
  }

  predicate GathersBroadcast(p: Plan) {
    Gathers(p) && p.children[0].op.Broadcast?
  }

  /** The consumer count is a placeholder until boundaries are prepared. */
  function CoalescedBroadcast(input: Plan): (p: Plan) {
    Plan(Coalesce(None), [Plan(Broadcast(1), [input])])
  }

  /** The new build child. A coalesce with a limit stays below the broadcast. */
  function BroadcastChild(build: Plan): (p: Plan)
    ensures GathersBroadcast(p)
  {
    if GathersBroadcast(build) then build
    else if Gathers(build) then CoalescedBroadcast(build.children[0])
    else if build.op.Broadcast? then Plan(Coalesce(None), [build])
    else CoalescedBroadcast(build)
  }

  /** What the pass does at one node. */
  function BroadcastBuild(p: Plan): (r: Plan)
    ensures r.op == p.op && |r.children| == |p.children|
  {
    if CanBroadcastLeft(p.op) && p.children != []
    then Plan(p.op, p.children[0 := BroadcastChild(p.children[0])])
    else p
  }

  // ---------------------------------------------------------------- the top-down pass

  /** The join still waits for its broadcast. */
  predicate Pending(p: Plan) {
    CanBroadcastLeft(p.op) && p.children != [] && !GathersBroadcast(p.children[0])
  }

  /** Nodes, plus the two nodes each pending join may still grow by. */
  function Weight(p: Plan): (n: nat)
    ensures n > 0
    decreases p, 1
  {
    1 + (if Pending(p) then 2 else 0) + WeightAll(p.children)
  }

  function WeightAll(cs: seq<Plan>): (n: nat)
    decreases cs, 0
  {
    if cs == [] then 0 else Weight(cs[0]) + WeightAll(cs[1..])
  }

  lemma WeightOne(op: Op, c: Plan)
    requires !CanBroadcastLeft(op)
    ensures Weight(Plan(op, [c])) == 1 + Weight(c)
  {
    assert WeightAll([c]) == Weight(c) + WeightAll([c][1..]);
  }

  lemma BuildWeighs(p: Plan)
    ensures WeightAll(BroadcastBuild(p).children) < Weight(p)
  {
    if Pending(p) {
      var build := p.children[0];
      assert p.children[0 := BroadcastChild(build)][1..] == p.children[1..];
      if Gathers(build) {
        var x := build.children[0];
        assert build.children == [x];
        WeightOne(Coalesce(None), x);
        WeightOne(Broadcast(1), x);
        WeightOne(Coalesce(None), Plan(Broadcast(1), [x]));
      } else if build.op.Broadcast? {
        WeightOne(Coalesce(None), build);
      } else {
        WeightOne(Broadcast(1), build);
        WeightOne(Coalesce(None), Plan(Broadcast(1), [build]));
      }
    } else {
      assert BroadcastBuild(p).children == p.children;
    }
  }

  /** A node first, then the children of what it became. */
  function InsertBroadcasts(p: Plan): (r: Plan)
    ensures r.op == p.op
    decreases Weight(p), 0
  {
    BuildWeighs(p);
    Plan(p.op, InsertAll(BroadcastBuild(p).children))
  }

  function InsertAll(cs: seq<Plan>): (rs: seq<Plan>)
    ensures |rs| == |cs|
    decreases WeightAll(cs), 1
  {
    if cs == [] then [] else [InsertBroadcasts(cs[0])] + InsertAll(cs[1..])
  }

  // ---------------------------------------------------------------- running the pass twice

  lemma InsertKeepsGathered(p: Plan)
    requires GathersBroadcast(p)
    ensures GathersBroadcast(InsertBroadcasts(p))
  {
    assert InsertAll(p.children) == [InsertBroadcasts(p.children[0])] + InsertAll(p.children[1..]);
  }

  /** A second run of the pass changes nothing, whatever the plan. */
  lemma {:induction false} InsertIsIdempotent(p: Plan)
    ensures InsertBroadcasts(InsertBroadcasts(p)) == InsertBroadcasts(p)
    decreases Weight(p), 0
  {
    var q, r := BroadcastBuild(p), InsertBroadcasts(p);
    BuildWeighs(p);
    InsertAllIsIdempotent(q.children);
    if CanBroadcastLeft(p.op) && p.children != [] {
      InsertKeepsGathered(q.children[0]);
      assert r.children[0] == InsertBroadcasts(q.children[0]);
      assert r.children[0 := r.children[0]] == r.children;
    }
    assert BroadcastBuild(r) == r;
  }

  lemma {:induction false} InsertAllIsIdempotent(cs: seq<Plan>)
    ensures InsertAll(InsertAll(cs)) == InsertAll(cs)
    decreases WeightAll(cs), 1
  {
    if cs != [] {
      InsertIsIdempotent(cs[0]);
      InsertAllIsIdempotent(cs[1..]);
      var rs := InsertAll(cs);
      assert rs[0] == InsertBroadcasts(cs[0]) && rs[1..] == InsertAll(cs[1..]);
    }
  }
}
