/** What plans compute, on one node and spread over tasks, before and after inserting broadcasts. */
module BroadcastMeaning {
  import opened Wrappers
  import opened Plans
  import opened InsertBroadcast
  import opened Bags
  import opened JoinRows
  import opened Exchanges
  import A = AggregateStates

  /** Everything the plan's meaning depends on: the tables and how each task count slices them, what
      row-wise operators make of a row, the join conditions, the group and state each aggregation gives
      a row and how its states merge, which rows a limit keeps in which task, the task a repartition
      sends a row to, how many tasks run each gathered stage, and the operators not modelled here. */
  datatype Env = Env(
    table: nat -> Bag,
    slice: (nat, nat, nat) -> Bag,
    step: (nat, nat, Row) -> Bag,
    on: nat -> Condition,
    state: (nat, Row) -> A.Row<nat>,
    merge: nat -> A.Merge<nat>,
    dest: (Partitioning, nat, Row) -> nat,
    pick: (nat, nat, Bag) -> Bag,
    tasks: Plan -> nat,
    other: (Op, seq<Bag>) -> Bag)

  ghost function Slices(id: nat, k: nat, n: nat, env: Env): (r: Bag) {
    if k == 0 then multiset{} else Slices(id, k - 1, n, env) + env.slice(id, k - 1, n)
  }

  ghost function To(partitioning: Partitioning, n: nat, env: Env): (to: Route) {
    (r: Row) => env.dest(partitioning, n, r)
  }

  ghost function StateOf(spec: nat, env: Env): (f: Row -> A.Row<nat>) {
    (r: Row) => env.state(spec, r)
  }

  /** Stages have tasks, the slices of a table make it up, repartitions send rows to tasks there are, and
      states form commutative monoids. */
  ghost predicate Valid(env: Env) {
    && (forall p :: env.tasks(p) > 0)
    && (forall id, n: nat | n > 0 :: Slices(id, n, n, env) == env.table(id))
    && (forall partitioning, n: nat | n > 0 :: Within(To(partitioning, n, env), n))
    && (forall spec :: A.Commutative(env.merge(spec)))
  }

  // ---------------------------------------------------------------- one operator

  ghost function Step(id: nat, c: nat, env: Env): (f: Row -> Bag) {
    (r: Row) => env.step(id, c, r)
  }

  /** Row-wise over all inputs: filters, projections, unions. */
  ghost function RowWise(id: nat, c: nat, inputs: seq<Bag>, env: Env): (r: Bag)
    decreases |inputs|
  {
    if inputs == [] then multiset{} else FlatMap(inputs[0], Step(id, c, env)) + RowWise(id, c + 1, inputs[1..], env)
  }

  function TypeOf(join: JoinKind): (t: JoinType) {
    match join
    case HashJoin(_, joinType) => joinType
    case NestedLoopJoin(joinType) => joinType
    case CrossJoin => Inner
  }

  ghost function ConditionOf(join: JoinKind, on: nat, env: Env): (c: Condition) {
    if join == CrossJoin then Constant(true) else env.on(on)
  }

  ghost function Limit(task: nat, fetch: Option<nat>, rows: Bag, env: Env): (r: Bag) {
    match fetch case None => rows case Some(k) => env.pick(task, k, rows)
  }

  /** One step of a grouped aggregation: states of the rows, or results of the states. */
  ghost function Grouped(partial: bool, spec: nat, rows: Bag, env: Env): (r: Bag) {
    if partial then PartialRows(rows, StateOf(spec, env), env.merge(spec)) else FinalRows(rows, env.merge(spec))
  }

  ghost function Combine(op: Op, inputs: seq<Bag>, env: Env): (r: Bag) {
    if op.Scan? then env.table(op.id)
    else if op.Empty? then multiset{}
    else if op.Operator? then RowWise(op.id, 0, inputs, env)
    else if op.Coalesce? && |inputs| == 1 then Limit(0, op.fetch, inputs[0], env)
    else if (op.Broadcast? || op.Repartition?) && |inputs| == 1 then inputs[0]
    else if op.Aggregate? && op.mode in {Partial, Final} && |inputs| == 1 then
      Grouped(op.mode == Partial, op.spec, inputs[0], env)
    else if op.Join? && |inputs| == 2 then
      JoinBags(TypeOf(op.join), inputs[0], inputs[1], ConditionOf(op.join, op.on, env))
    else env.other(op, inputs)
  }

  // ---------------------------------------------------------------- on one node

  ghost function Eval(p: Plan, env: Env): (r: Bag)
    decreases p, 1
  {
    Combine(p.op, EvalAll(p.children, env), env)
  }

  ghost function EvalAll(cs: seq<Plan>, env: Env): (rs: seq<Bag>)
    ensures |rs| == |cs|
    decreases cs, 0
  {
    if cs == [] then [] else [Eval(cs[0], env)] + EvalAll(cs[1..], env)
  }

  lemma EvalOne(op: Op, c: Plan, env: Env)
    ensures Eval(Plan(op, [c]), env) == Combine(op, [Eval(c, env)], env)
  {
    assert EvalAll([c], env) == [Eval(c, env)] + EvalAll([c][1..], env) == [Eval(c, env)];
  }

  /** A coalesce without a limit, a broadcast and a repartition pass their rows on. */
  lemma PassOn(op: Op, c: Plan, env: Env)
    requires op == Coalesce(None) || op.Broadcast? || op.Repartition?
    ensures Eval(Plan(op, [c]), env) == Eval(c, env)
  {
    EvalOne(op, c, env);
  }

  lemma BroadcastChildMeans(build: Plan, env: Env)
    ensures Eval(BroadcastChild(build), env) == Eval(build, env)
  {
    if GathersBroadcast(build) {
    } else if Gathers(build) {
      var x := build.children[0];
      assert build == Plan(Coalesce(None), [x]);
      PassOn(Coalesce(None), x, env);
      PassOn(Broadcast(1), x, env);
      PassOn(Coalesce(None), Plan(Broadcast(1), [x]), env);
    } else if build.op.Broadcast? {
      PassOn(Coalesce(None), build, env);
    } else {
      PassOn(Broadcast(1), build, env);
      PassOn(Coalesce(None), Plan(Broadcast(1), [build]), env);
    }
  }

  /** On one node the rewritten plan computes what the original does, whatever its operators mean. */
  lemma {:induction false} SameOnOneNode(p: Plan, env: Env)
    ensures Eval(InsertBroadcasts(p), env) == Eval(p, env)
    decreases Weight(p), 0
  {
    var q := BroadcastBuild(p);
    BuildWeighs(p);
    SameOnOneNodeAll(q.children, env);
    if CanBroadcastLeft(p.op) && p.children != [] {
      BroadcastChildMeans(p.children[0], env);
      assert q.children[1..] == p.children[1..];
    }
  }

  lemma {:induction false} SameOnOneNodeAll(cs: seq<Plan>, env: Env)
    ensures EvalAll(InsertAll(cs), env) == EvalAll(cs, env)
    decreases WeightAll(cs), 1
  {
    if cs != [] {
      SameOnOneNode(cs[0], env);
      SameOnOneNodeAll(cs[1..], env);
      var rs := InsertAll(cs);
      assert rs[0] == InsertBroadcasts(cs[0]) && rs[1..] == InsertAll(cs[1..]);
    }
  }

  // ---------------------------------------------------------------- spread over tasks

  /** The rows task `t` of `n` emits. A broadcast hands every task all rows of its input stage, a hash or
      range repartition those meant for the task. A coalesce collects the rows of its input stage in one
      task, unless it reads a broadcast. */
  ghost function TaskRows(p: Plan, t: nat, n: nat, env: Env): (r: Bag)
    decreases p, 0, 0
  {
    if p.op.Scan? then env.slice(p.op.id, t, n)
    else if p.op.Broadcast? && |p.children| == 1 then Gathered(p.children[0], env)
    else if Routes(p.op) && |p.children| == 1 then For(Gathered(p.children[0], env), To(p.op.partitioning, n, env), t)
    else if p.op.Coalesce? && |p.children| == 1 then
      if p.children[0].op.Broadcast? then Limit(t, p.op.fetch, TaskRows(p.children[0], t, n, env), env)
      else if t == 0 then Limit(0, p.op.fetch, Gathered(p.children[0], env), env)
      else multiset{}
    else Combine(p.op, TaskInputs(p.children, t, n, env), env)
  }

  ghost function TaskInputs(cs: seq<Plan>, t: nat, n: nat, env: Env): (rs: seq<Bag>)
    ensures |rs| == |cs|
    decreases cs, 0, 0
  {
    if cs == [] then [] else [TaskRows(cs[0], t, n, env)] + TaskInputs(cs[1..], t, n, env)
  }

  /** The rows of the first `k` of `n` tasks. */
  ghost function Total(p: Plan, k: nat, n: nat, env: Env): (r: Bag)
    decreases p, 1, k
  {
    if k == 0 then multiset{} else Total(p, k - 1, n, env) + TaskRows(p, k - 1, n, env)
  }

  ghost function Gathered(p: Plan, env: Env): (r: Bag)
    decreases p, 2, 0
  {
    Total(p, env.tasks(p), env.tasks(p), env)
  }

  // ---------------------------------------------------------------- which plans are covered

  /** What the build side contributes: its plan without an existing gather or broadcast. */
  function BuildInput(build: Plan): (p: Plan) {
    if GathersBroadcast(build) && |build.children[0].children| == 1 then build.children[0].children[0]
    else if Gathers(build) then build.children[0]
    else if build.op.Broadcast? && |build.children| == 1 then build.children[0]
    else build
  }

  /** The join reads its whole build side in every task: collect-left, nested-loop and cross joins. */
  predicate ReadsWholeBuild(join: JoinKind) {
    match join
    case HashJoin(mode, _) => mode == CollectLeft
    case NestedLoopJoin(_) => true
    case CrossJoin => true
  }

  /** Joining the whole build side with slices of the probe side emits what one join does, for all rows
      and, where the join has one, all conditions. */
  ghost predicate SplitsOverProbe(join: JoinKind) {
    match join
    case HashJoin(_, joinType) => forall build, a, b, on :: Splits(joinType, build, a, b, on)
    case NestedLoopJoin(joinType) => forall build, a, b, on :: Splits(joinType, build, a, b, on)
    case CrossJoin => forall build, a, b :: Splits(Inner, build, a, b, Constant(true))
  }

  /** The joins whose build side is to be broadcast. */
  ghost predicate ToBroadcast(op: Op) {
    op.Join? && ReadsWholeBuild(op.join) && SplitsOverProbe(op.join)
  }

  /** The pass picks exactly the joins that read their whole build side and split over the probe side. */
  lemma PicksIffSplits(op: Op)
    ensures CanBroadcastLeft(op) <==> ToBroadcast(op)
  {
    if op.Join? {
      match op.join
      case HashJoin(_, joinType) => SafeIffSplits(joinType);
      case NestedLoopJoin(joinType) => SafeIffSplits(joinType);
      case CrossJoin =>
        forall build, a, b ensures Splits(Inner, build, a, b, Constant(true)) {
          SafeSplits(Inner, build, a, b, Constant(true));
        }
    }
  }

  /** After the pass a join gathers a broadcast on its build side exactly if it did before or is one whose
      build side is to be broadcast; what is broadcast is the rewritten build input. */
  lemma BroadcastIffSplits(p: Plan)
    requires p.op.Join? && p.children != []
    ensures var build, r := p.children[0], InsertBroadcasts(p);
            && |r.children| == |p.children|
            && (GathersBroadcast(r.children[0]) <==> GathersBroadcast(build) || ToBroadcast(p.op))
            && (ToBroadcast(p.op) && !GathersBroadcast(build) && !build.op.Broadcast? ==>
                  r.children[0] == Plan(Coalesce(None), [Plan(Broadcast(1), [InsertBroadcasts(BuildInput(build))])]))
  {
    PicksIffSplits(p.op);
    var build, q := p.children[0], BroadcastBuild(p);
    assert InsertBroadcasts(p).children[0] == InsertBroadcasts(q.children[0]);
    if ToBroadcast(p.op) {
      InsertKeepsGathered(q.children[0]);
      if !GathersBroadcast(build) && !build.op.Broadcast? {
        var x := BuildInput(build);
        assert q.children[0] == Plan(Coalesce(None), [Plan(Broadcast(1), [x])]);
        InsertOne(Broadcast(1), x);
        InsertOne(Coalesce(None), Plan(Broadcast(1), [x]));
      }
    } else if Gathers(build) {
      assert build == Plan(Coalesce(None), [build.children[0]]);
      InsertOne(Coalesce(None), build.children[0]);
    }
  }

  /** A partitioned join reads two repartitions that send matching rows to the same task. */
  ghost predicate Partitioned(p: Plan, env: Env) {
    && p.op.Join? && p.op.join.HashJoin? && p.op.join.mode == PartitionMode.Partitioned && |p.children| == 2
    && Routes(p.children[0].op) && |p.children[0].children| == 1
    && Routes(p.children[1].op) && |p.children[1].children| == 1
    && forall n: nat | n > 0 ::
         Meet(env.on(p.op.on), To(p.children[0].op.partitioning, n, env), To(p.children[1].op.partitioning, n, env))
  }

  /** A final aggregation reads the states of a partial one, gathered or exchanged by group. */
  ghost predicate FinishesGroups(p: Plan, env: Env) {
    && p.op.Aggregate? && p.op.mode == Final && |p.children| == 1 && |p.children[0].children| == 1
    && var x, y := p.children[0], p.children[0].children[0];
    && y.op == Aggregate(Partial, p.op.spec) && |y.children| == 1
    && (x.op == Coalesce(None) || (Routes(x.op) && forall n: nat | n > 0 :: ByGroup(To(x.op.partitioning, n, env))))
  }

  /** Plans of tables, row-wise operators, coalesces with and without a limit, repartitions, grouped
      aggregations in two steps, joins whose build side is to be broadcast, with or without a broadcast
      already in place, and partitioned joins. */
  ghost predicate Distributable(p: Plan, env: Env)
    decreases p
  {
    match p.op
    case Scan(_) => p.children == []
    case Empty => p.children == []
    case Operator(_) => forall c | 0 <= c < |p.children| :: Distributable(p.children[c], env)
    case Coalesce(_) => |p.children| == 1 && Distributable(p.children[0], env)
    case Repartition(_, _) => |p.children| == 1 && Distributable(p.children[0], env)
    case Aggregate(_, _) => FinishesGroups(p, env) && Distributable(p.children[0].children[0].children[0], env)
    case Join(_, _) =>
      if ToBroadcast(p.op)
      then |p.children| == 2 && Distributable(BuildInput(p.children[0]), env) && Distributable(p.children[1], env)
      else && Partitioned(p, env)
           && Distributable(p.children[0].children[0], env) && Distributable(p.children[1].children[0], env)
    case _ => false
  }

  // ---------------------------------------------------------------- node by node

  ghost function TaskOf(p: Plan, n: nat, env: Env): (f: nat -> Bag) {
    (t: nat) => TaskRows(p, t, n, env)
  }

  lemma {:induction false} TotalIsSum(p: Plan, k: nat, n: nat, env: Env)
    ensures Total(p, k, n, env) == SumBelow(TaskOf(p, n, env), k)
  {
    if k > 0 {
      TotalIsSum(p, k - 1, n, env);
    }
  }

  lemma {:induction false} ScanTotal(id: nat, k: nat, n: nat, env: Env)
    ensures Total(Plan(Scan(id), []), k, n, env) == Slices(id, k, n, env)
  {
    if k > 0 {
      ScanTotal(id, k - 1, n, env);
    }
  }

  lemma {:induction false} EmptyTotal(k: nat, n: nat, env: Env)
    ensures Total(Plan(Empty, []), k, n, env) == multiset{}
  {
    if k > 0 {
      EmptyTotal(k - 1, n, env);
    }
  }

  lemma OneInput(c: Plan, t: nat, n: nat, env: Env)
    ensures TaskInputs([c], t, n, env) == [TaskRows(c, t, n, env)]
  {
    assert TaskInputs([c], t, n, env) == [TaskRows(c, t, n, env)] + TaskInputs([c][1..], t, n, env);
  }

  lemma CoalesceTask(fetch: Option<nat>, c: Plan, t: nat, n: nat, env: Env)
    requires !c.op.Broadcast?
    ensures TaskRows(Plan(Coalesce(fetch), [c]), t, n, env) ==
            if t == 0 then Limit(0, fetch, Gathered(c, env), env) else multiset{}
  {
  }

  lemma CoalesceTotal(fetch: Option<nat>, c: Plan, k: nat, n: nat, env: Env)
    requires k > 0 && !c.op.Broadcast?
    ensures Total(Plan(Coalesce(fetch), [c]), k, n, env) == Limit(0, fetch, Gathered(c, env), env)
  {
    var p := Plan(Coalesce(fetch), [c]);
    TotalIsSum(p, k, n, env);
    CoalesceTask(fetch, c, 0, n, env);
    forall t: nat | 0 < t < k ensures TaskOf(p, n, env)(t) == multiset{} {
      CoalesceTask(fetch, c, t, n, env);
    }
    FirstOnly(TaskOf(p, n, env), k);
  }

  /** Totals of the children, one by one. */
  ghost function Totals(cs: seq<Plan>, k: nat, n: nat, env: Env): (rs: seq<Bag>)
    ensures |rs| == |cs|
  {
    if cs == [] then [] else [Total(cs[0], k, n, env)] + Totals(cs[1..], k, n, env)
  }

  lemma {:induction false} RowWiseNothing(id: nat, c: nat, cs: seq<Plan>, n: nat, env: Env)
    ensures RowWise(id, c, Totals(cs, 0, n, env), env) == multiset{}
    decreases |cs|
  {
    if cs != [] {
      RowWiseNothing(id, c + 1, cs[1..], n, env);
      assert Totals(cs, 0, n, env)[1..] == Totals(cs[1..], 0, n, env);
    }
  }

  lemma {:induction false} RowWiseNext(id: nat, c: nat, cs: seq<Plan>, k: nat, n: nat, env: Env)
    requires k > 0
    ensures RowWise(id, c, Totals(cs, k, n, env), env)
            == RowWise(id, c, Totals(cs, k - 1, n, env), env) + RowWise(id, c, TaskInputs(cs, k - 1, n, env), env)
    decreases |cs|
  {
    if cs != [] {
      RowWiseNext(id, c + 1, cs[1..], k, n, env);
      assert Totals(cs, k - 1, n, env)[1..] == Totals(cs[1..], k - 1, n, env);
      assert Totals(cs, k, n, env)[1..] == Totals(cs[1..], k, n, env);
      assert TaskInputs(cs, k - 1, n, env)[1..] == TaskInputs(cs[1..], k - 1, n, env);
      FlatMapSum(Total(cs[0], k - 1, n, env), TaskRows(cs[0], k - 1, n, env), Step(id, c, env));
    }
  }

  lemma OperatorTask(p: Plan, t: nat, n: nat, env: Env)
    requires p.op.Operator?
    ensures TaskRows(p, t, n, env) == RowWise(p.op.id, 0, TaskInputs(p.children, t, n, env), env)
  {
  }

  ghost function RowWiseTotals(p: Plan, n: nat, env: Env): (g: nat -> Bag)
    requires p.op.Operator?
  {
    (k: nat) => RowWise(p.op.id, 0, Totals(p.children, k, n, env), env)
  }

  lemma OperatorAdds(p: Plan, t: nat, n: nat, env: Env)
    requires p.op.Operator?
    ensures Adds(TaskOf(p, n, env), RowWiseTotals(p, n, env), t)
  {
    RowWiseNext(p.op.id, 0, p.children, t + 1, n, env);
    OperatorTask(p, t, n, env);
  }

  lemma OperatorTotal(p: Plan, k: nat, n: nat, env: Env)
    requires p.op.Operator?
    ensures Total(p, k, n, env) == RowWise(p.op.id, 0, Totals(p.children, k, n, env), env)
  {
    RowWiseNothing(p.op.id, 0, p.children, n, env);
    forall t: nat | t < k ensures Adds(TaskOf(p, n, env), RowWiseTotals(p, n, env), t) {
      OperatorAdds(p, t, n, env);
    }
    Telescope(TaskOf(p, n, env), RowWiseTotals(p, n, env), k);
    TotalIsSum(p, k, n, env);
  }

  lemma TwoTaskInputs(a: Plan, b: Plan, t: nat, n: nat, env: Env)
    ensures TaskInputs([a, b], t, n, env) == [TaskRows(a, t, n, env), TaskRows(b, t, n, env)]
  {
    assert [a, b][1..] == [b];
    OneInput(b, t, n, env);
  }

  lemma JoinTaskRows(op: Op, a: Plan, b: Plan, t: nat, n: nat, env: Env)
    requires op.Join?
    ensures TaskRows(Plan(op, [a, b]), t, n, env) ==
            JoinBags(TypeOf(op.join), TaskRows(a, t, n, env), TaskRows(b, t, n, env), ConditionOf(op.join, op.on, env))
  {
    TwoTaskInputs(a, b, t, n, env);
  }

  lemma JoinNothing(joinType: JoinType, build: Bag, on: Condition)
    requires LeftBroadcastSafe(joinType)
    ensures JoinBags(joinType, build, multiset{}, on) == multiset{}
  {
    SafeJoin(joinType, build, multiset{}, on);
  }

  lemma JoinTask(op: Op, consumers: nat, x: Plan, probe: Plan, t: nat, n: nat, env: Env)
    requires CanBroadcastLeft(op)
    ensures var build := Plan(Coalesce(None), [Plan(Broadcast(consumers), [x])]);
            TaskRows(Plan(op, [build, probe]), t, n, env)
            == JoinBags(TypeOf(op.join), Gathered(x, env), TaskRows(probe, t, n, env), ConditionOf(op.join, op.on, env))
  {
    var build := Plan(Coalesce(None), [Plan(Broadcast(consumers), [x])]);
    assert TaskRows(build, t, n, env) == Gathered(x, env);
    JoinTaskRows(op, build, probe, t, n, env);
  }

  /** One join of the whole build side with the probe rows of the first tasks. */
  ghost function JoinedTotals(op: Op, all: Bag, probe: Plan, n: nat, env: Env): (g: nat -> Bag)
    requires op.Join?
  {
    (k: nat) => JoinBags(TypeOf(op.join), all, Total(probe, k, n, env), ConditionOf(op.join, op.on, env))
  }

  lemma JoinAdds(op: Op, consumers: nat, x: Plan, probe: Plan, t: nat, n: nat, env: Env)
    requires CanBroadcastLeft(op)
    ensures var p := Plan(op, [Plan(Coalesce(None), [Plan(Broadcast(consumers), [x])]), probe]);
            Adds(TaskOf(p, n, env), JoinedTotals(op, Gathered(x, env), probe, n, env), t)
  {
    JoinTask(op, consumers, x, probe, t, n, env);
    SafeSplits(TypeOf(op.join), Gathered(x, env), Total(probe, t, n, env), TaskRows(probe, t, n, env),
               ConditionOf(op.join, op.on, env));
  }

  /** Every task joins the whole build side with its own probe rows. */
  lemma JoinTotal(op: Op, consumers: nat, x: Plan, probe: Plan, k: nat, n: nat, env: Env)
    requires CanBroadcastLeft(op)
    ensures var build := Plan(Coalesce(None), [Plan(Broadcast(consumers), [x])]);
            Total(Plan(op, [build, probe]), k, n, env)
            == JoinBags(TypeOf(op.join), Gathered(x, env), Total(probe, k, n, env), ConditionOf(op.join, op.on, env))
  {
    var p := Plan(op, [Plan(Coalesce(None), [Plan(Broadcast(consumers), [x])]), probe]);
    var f, g := TaskOf(p, n, env), JoinedTotals(op, Gathered(x, env), probe, n, env);
    JoinNothing(TypeOf(op.join), Gathered(x, env), ConditionOf(op.join, op.on, env));
    forall t: nat | t < k ensures Adds(f, g, t) {
      JoinAdds(op, consumers, x, probe, t, n, env);
    }
    Telescope(f, g, k);
    TotalIsSum(p, k, n, env);
  }

  // ---------------------------------------------------------------- exchanges

  lemma RoutedTask(op: Op, c: Plan, t: nat, n: nat, env: Env)
    requires Routes(op)
    ensures TaskRows(Plan(op, [c]), t, n, env) == For(Gathered(c, env), To(op.partitioning, n, env), t)
  {
  }

  ghost function BelowOf(m: Bag, to: Route): (g: nat -> Bag) {
    (k: nat) => Below(m, to, k)
  }

  lemma RoutedAdds(op: Op, c: Plan, t: nat, n: nat, env: Env)
    requires Routes(op)
    ensures Adds(TaskOf(Plan(op, [c]), n, env), BelowOf(Gathered(c, env), To(op.partitioning, n, env)), t)
  {
    RoutedTask(op, c, t, n, env);
    BelowNext(Gathered(c, env), To(op.partitioning, n, env), t);
  }

  /** An exchange sends every row to one task. */
  lemma RoutedTotal(op: Op, c: Plan, n: nat, env: Env)
    requires Valid(env) && Routes(op) && n > 0
    ensures Total(Plan(op, [c]), n, n, env) == Gathered(c, env)
  {
    var p, rows, to := Plan(op, [c]), Gathered(c, env), To(op.partitioning, n, env);
    BelowNothing(rows, to);
    forall t: nat | t < n ensures Adds(TaskOf(p, n, env), BelowOf(rows, to), t) {
      RoutedAdds(op, c, t, n, env);
    }
    Telescope(TaskOf(p, n, env), BelowOf(rows, to), n);
    TotalIsSum(p, n, n, env);
    BelowAll(rows, to, n);
  }

  /** A repartition within a task keeps its rows. */
  lemma LocalTask(op: Op, c: Plan, t: nat, n: nat, env: Env)
    requires op.Repartition? && !Routes(op)
    ensures TaskRows(Plan(op, [c]), t, n, env) == TaskRows(c, t, n, env)
  {
    OneInput(c, t, n, env);
  }

  lemma {:induction false} LocalTotal(op: Op, c: Plan, k: nat, n: nat, env: Env)
    requires op.Repartition? && !Routes(op)
    ensures Total(Plan(op, [c]), k, n, env) == Total(c, k, n, env)
  {
    if k > 0 {
      LocalTotal(op, c, k - 1, n, env);
      LocalTask(op, c, k - 1, n, env);
    }
  }

  lemma PartitionedTask(op: Op, a: Op, b: Op, l: Plan, r: Plan, t: nat, n: nat, env: Env)
    requires op.Join? && op.join.HashJoin? && Routes(a) && Routes(b)
    ensures TaskRows(Plan(op, [Plan(a, [l]), Plan(b, [r])]), t, n, env) ==
            TaskJoin(op.join.joinType, Gathered(l, env), Gathered(r, env), env.on(op.on),
                     To(a.partitioning, n, env), To(b.partitioning, n, env))(t)
  {
    JoinTaskRows(op, Plan(a, [l]), Plan(b, [r]), t, n, env);
    RoutedTask(a, l, t, n, env);
    RoutedTask(b, r, t, n, env);
  }

  /** Joined after two exchanges that bring matching rows together: what one join of all rows gives. */
  lemma PartitionedTotal(op: Op, a: Op, b: Op, l: Plan, r: Plan, n: nat, env: Env)
    requires Valid(env) && n > 0 && op.Join? && op.join.HashJoin? && Routes(a) && Routes(b)
    requires Meet(env.on(op.on), To(a.partitioning, n, env), To(b.partitioning, n, env))
    ensures Total(Plan(op, [Plan(a, [l]), Plan(b, [r])]), n, n, env) ==
            JoinBags(op.join.joinType, Gathered(l, env), Gathered(r, env), env.on(op.on))
  {
    var p := Plan(op, [Plan(a, [l]), Plan(b, [r])]);
    var toL, toR := To(a.partitioning, n, env), To(b.partitioning, n, env);
    var f := TaskJoin(op.join.joinType, Gathered(l, env), Gathered(r, env), env.on(op.on), toL, toR);
    TotalIsSum(p, n, n, env);
    forall t: nat | t < n ensures TaskOf(p, n, env)(t) == f(t) {
      PartitionedTask(op, a, b, l, r, t, n, env);
    }
    SumsAgree(TaskOf(p, n, env), f, n);
    MeetingJoins(op.join.joinType, Gathered(l, env), Gathered(r, env), env.on(op.on), toL, toR, n);
  }

  // ---------------------------------------------------------------- aggregations

  lemma PartialTask(spec: nat, z: Plan, t: nat, n: nat, env: Env)
    ensures TaskRows(Plan(Aggregate(Partial, spec), [z]), t, n, env) ==
            PartialRows(TaskRows(z, t, n, env), StateOf(spec, env), env.merge(spec))
  {
    OneInput(z, t, n, env);
  }

  lemma PartialTotal(spec: nat, z: Plan, n: nat, env: Env)
    ensures Total(Plan(Aggregate(Partial, spec), [z]), n, n, env) ==
            SumBelow(PartialAt(TaskOf(z, n, env), StateOf(spec, env), env.merge(spec)), n)
  {
    var y := Plan(Aggregate(Partial, spec), [z]);
    var f := PartialAt(TaskOf(z, n, env), StateOf(spec, env), env.merge(spec));
    TotalIsSum(y, n, n, env);
    forall t: nat | t < n ensures TaskOf(y, n, env)(t) == f(t) {
      PartialTask(spec, z, t, n, env);
    }
    SumsAgree(TaskOf(y, n, env), f, n);
  }

  /** All states of a partial aggregation, finished in one place, give what one aggregation does. */
  lemma StatesFinish(spec: nat, z: Plan, env: Env, rows: Bag)
    requires Valid(env)
    requires var n := env.tasks(Plan(Aggregate(Partial, spec), [z])); Total(z, n, n, env) == rows
    ensures FinalRows(Gathered(Plan(Aggregate(Partial, spec), [z]), env), env.merge(spec)) ==
            FinalRows(PartialRows(rows, StateOf(spec, env), env.merge(spec)), env.merge(spec))
  {
    var n := env.tasks(Plan(Aggregate(Partial, spec), [z]));
    PartialTotal(spec, z, n, env);
    TotalIsSum(z, n, n, env);
    GatheredFinal(TaskOf(z, n, env), StateOf(spec, env), env.merge(spec), n);
  }

  lemma FinalTask(spec: nat, x: Plan, t: nat, n: nat, env: Env)
    ensures TaskRows(Plan(Aggregate(Final, spec), [x]), t, n, env) == FinalRows(TaskRows(x, t, n, env), env.merge(spec))
  {
    OneInput(x, t, n, env);
  }

  lemma ExchangedFinalTask(spec: nat, op: Op, y: Plan, t: nat, n: nat, env: Env)
    requires Routes(op)
    ensures TaskRows(Plan(Aggregate(Final, spec), [Plan(op, [y])]), t, n, env) ==
            FinalAt(Gathered(y, env), To(op.partitioning, n, env), env.merge(spec))(t)
  {
    FinalTask(spec, Plan(op, [y]), t, n, env);
    RoutedTask(op, y, t, n, env);
  }

  lemma PackedStates(spec: nat, z: Plan, env: Env) returns (states: A.Bag<nat>)
    ensures Gathered(Plan(Aggregate(Partial, spec), [z]), env) == Image(states, Pack())
  {
    var k := env.tasks(Plan(Aggregate(Partial, spec), [z]));
    states := SumBelow(StatesAt(TaskOf(z, k, env), StateOf(spec, env), env.merge(spec)), k);
    PartialTotal(spec, z, k, env);
    PackedTotal(TaskOf(z, k, env), StateOf(spec, env), env.merge(spec), k);
  }

  lemma ExchangedFinalTotal(spec: nat, op: Op, z: Plan, n: nat, env: Env)
    requires Valid(env) && n > 0 && Routes(op) && ByGroup(To(op.partitioning, n, env))
    ensures var y := Plan(Aggregate(Partial, spec), [z]);
            Total(Plan(Aggregate(Final, spec), [Plan(op, [y])]), n, n, env) ==
            FinalRows(Gathered(y, env), env.merge(spec))
  {
    var y, m, to := Plan(Aggregate(Partial, spec), [z]), env.merge(spec), To(op.partitioning, n, env);
    var p := Plan(Aggregate(Final, spec), [Plan(op, [y])]);
    var f := FinalAt(Gathered(y, env), to, m);
    TotalIsSum(p, n, n, env);
    forall t: nat | t < n ensures TaskOf(p, n, env)(t) == f(t) {
      ExchangedFinalTask(spec, op, y, t, n, env);
    }
    SumsAgree(TaskOf(p, n, env), f, n);
    var states := PackedStates(spec, z, env);
    ExchangedFinal(states, to, m, n);
  }

  lemma FinalOfNothing(m: A.Merge<nat>)
    ensures FinalRows(multiset{}, m) == multiset{}
  {
  }

  lemma GatheredFinalTask(spec: nat, y: Plan, t: nat, n: nat, env: Env)
    requires !y.op.Broadcast?
    ensures TaskRows(Plan(Aggregate(Final, spec), [Plan(Coalesce(None), [y])]), t, n, env) ==
            if t == 0 then FinalRows(Gathered(y, env), env.merge(spec)) else multiset{}
  {
    FinalTask(spec, Plan(Coalesce(None), [y]), t, n, env);
    CoalesceTask(None, y, t, n, env);
    FinalOfNothing(env.merge(spec));
  }

  lemma GatheredFinalTotal(spec: nat, y: Plan, k: nat, n: nat, env: Env)
    requires k > 0 && !y.op.Broadcast?
    ensures Total(Plan(Aggregate(Final, spec), [Plan(Coalesce(None), [y])]), k, n, env) ==
            FinalRows(Gathered(y, env), env.merge(spec))
  {
    var p := Plan(Aggregate(Final, spec), [Plan(Coalesce(None), [y])]);
    TotalIsSum(p, k, n, env);
    GatheredFinalTask(spec, y, 0, n, env);
    forall t: nat | 0 < t < k ensures TaskOf(p, n, env)(t) == multiset{} {
      GatheredFinalTask(spec, y, t, n, env);
    }
    FirstOnly(TaskOf(p, n, env), k);
  }

  // ---------------------------------------------------------------- the inserted build side

  lemma InsertOne(op: Op, c: Plan)
    requires !CanBroadcastLeft(op)
    ensures InsertBroadcasts(Plan(op, [c])) == Plan(op, [InsertBroadcasts(c)])
  {
    assert InsertAll([c]) == [InsertBroadcasts(c)] + InsertAll([c][1..]);
  }

  /** Below the join there is a gather over a broadcast over the rewritten build input. */
  lemma InsertedBuild(build: Plan, env: Env) returns (consumers: nat)
    requires Distributable(BuildInput(build), env)
    ensures InsertBroadcasts(BroadcastChild(build)) ==
            Plan(Coalesce(None), [Plan(Broadcast(consumers), [InsertBroadcasts(BuildInput(build))])])
  {
    var x := BuildInput(build);
    if GathersBroadcast(build) {
      var b := build.children[0];
      assert build == Plan(Coalesce(None), [b]) && b == Plan(b.op, [x]);
      consumers := b.op.consumers;
      InsertOne(b.op, x);
      InsertOne(Coalesce(None), b);
    } else if build.op.Broadcast? {
      assert build == Plan(build.op, [x]);
      consumers := build.op.consumers;
      InsertOne(build.op, x);
      InsertOne(Coalesce(None), build);
    } else {
      consumers := 1;
      InsertOne(Broadcast(1), x);
      InsertOne(Coalesce(None), Plan(Broadcast(1), [x]));
    }
  }

  lemma BuildInputMeans(build: Plan, env: Env)
    requires Distributable(BuildInput(build), env)
    ensures Eval(BuildInput(build), env) == Eval(build, env)
  {
    var x := BuildInput(build);
    if GathersBroadcast(build) {
      var b := build.children[0];
      assert build == Plan(Coalesce(None), [b]) && b == Plan(b.op, [x]);
      PassOn(b.op, x, env);
      PassOn(Coalesce(None), b, env);
    } else if Gathers(build) {
      assert build == Plan(Coalesce(None), [x]);
      PassOn(Coalesce(None), x, env);
    } else if build.op.Broadcast? {
      assert build == Plan(build.op, [x]);
      PassOn(build.op, x, env);
    }
  }

  // ---------------------------------------------------------------- the main result

  /** Broadcast preserves meaning: run by any number of tasks, over any slicing of the tables and any
      task counts of the broadcast stages, the rewritten plan emits in all tasks together exactly the
      rows the original plan computes on one node, limits on build sides included. */
  lemma {:induction false} BroadcastPreservesMeaning(p: Plan, n: nat, env: Env)
    requires Valid(env) && Distributable(p, env) && n > 0
    ensures Total(InsertBroadcasts(p), n, n, env) == Eval(p, env)
    decreases p, 1
  {
    match p.op
    case Scan(id) =>
      assert p == Plan(Scan(id), []) == InsertBroadcasts(p);
      ScanTotal(id, n, n, env);
    case Empty =>
      assert p == Plan(Empty, []) == InsertBroadcasts(p);
      EmptyTotal(n, n, env);
    case Operator(id) =>
      BroadcastPreservesInputs(p.children, n, env);
      OperatorTotal(InsertBroadcasts(p), n, n, env);
    case Coalesce(fetch) =>
      var c := p.children[0];
      assert p == Plan(p.op, [c]);
      InsertOne(p.op, c);
      EvalOne(p.op, c, env);
      CoalesceTotal(fetch, InsertBroadcasts(c), n, n, env);
      BroadcastPreservesMeaning(c, env.tasks(InsertBroadcasts(c)), env);
    case Repartition(_, _) =>
      ExchangePreservesMeaning(p, n, env);
    case Aggregate(_, _) =>
      AggregatePreservesMeaning(p, n, env);
    case Join(_, _) =>
      PicksIffSplits(p.op);
      if CanBroadcastLeft(p.op) {
        JoinPreservesMeaning(p, n, env);
      } else {
        PartitionedPreservesMeaning(p, n, env);
      }
  }

  lemma {:induction false} BroadcastPreservesInputs(cs: seq<Plan>, n: nat, env: Env)
    requires Valid(env) && n > 0 && forall c | 0 <= c < |cs| :: Distributable(cs[c], env)
    ensures Totals(InsertAll(cs), n, n, env) == EvalAll(cs, env)
    decreases cs, 0
  {
    if cs != [] {
      BroadcastPreservesMeaning(cs[0], n, env);
      BroadcastPreservesInputs(cs[1..], n, env);
      var rs := InsertAll(cs);
      assert rs[0] == InsertBroadcasts(cs[0]) && rs[1..] == InsertAll(cs[1..]);
    }
  }

  lemma {:induction false} JoinPreservesMeaning(p: Plan, n: nat, env: Env)
    requires Valid(env) && Distributable(p, env) && CanBroadcastLeft(p.op) && n > 0
    ensures Total(InsertBroadcasts(p), n, n, env) == Eval(p, env)
    decreases p, 0
  {
    PicksIffSplits(p.op);
    var build, probe := p.children[0], p.children[1];
    var x := BuildInput(build);
    var consumers := InsertedBuild(build, env);
    BroadcastPreservesMeaning(x, env.tasks(InsertBroadcasts(x)), env);
    BuildInputMeans(build, env);
    BroadcastPreservesMeaning(probe, n, env);
    JoinTotal(p.op, consumers, InsertBroadcasts(x), InsertBroadcasts(probe), n, n, env);
    TwoInputs(p, env);
  }

  lemma {:induction false} ExchangePreservesMeaning(p: Plan, n: nat, env: Env)
    requires Valid(env) && Distributable(p, env) && p.op.Repartition? && n > 0
    ensures Total(InsertBroadcasts(p), n, n, env) == Eval(p, env)
    decreases p, 0
  {
    var c := p.children[0];
    var r := InsertBroadcasts(c);
    assert p == Plan(p.op, [c]);
    InsertOne(p.op, c);
    EvalOne(p.op, c, env);
    if Routes(p.op) {
      BroadcastPreservesMeaning(c, env.tasks(r), env);
      RoutedTotal(p.op, r, n, env);
    } else {
      BroadcastPreservesMeaning(c, n, env);
      LocalTotal(p.op, r, n, n, env);
    }
  }

  /** A two-step aggregation on one node. */
  lemma EvalAggregate(spec: nat, op: Op, z: Plan, env: Env)
    requires op == Coalesce(None) || Routes(op)
    ensures var y := Plan(Aggregate(Partial, spec), [z]);
            Eval(Plan(Aggregate(Final, spec), [Plan(op, [y])]), env) ==
            FinalRows(PartialRows(Eval(z, env), StateOf(spec, env), env.merge(spec)), env.merge(spec))
  {
    var y := Plan(Aggregate(Partial, spec), [z]);
    EvalPartial(spec, z, env);
    PassOn(op, y, env);
    EvalFinal(spec, Plan(op, [y]), env);
  }

  lemma EvalPartial(spec: nat, z: Plan, env: Env)
    ensures Eval(Plan(Aggregate(Partial, spec), [z]), env) ==
            PartialRows(Eval(z, env), StateOf(spec, env), env.merge(spec))
  {
    EvalOne(Aggregate(Partial, spec), z, env);
    CombineGrouped(Aggregate(Partial, spec), [Eval(z, env)], env);
  }

  lemma CombineGrouped(op: Op, inputs: seq<Bag>, env: Env)
    requires op.Aggregate? && op.mode in {Partial, Final} && |inputs| == 1
    ensures Combine(op, inputs, env) == Grouped(op.mode == Partial, op.spec, inputs[0], env)
  {
  }

  lemma EvalFinal(spec: nat, x: Plan, env: Env)
    ensures Eval(Plan(Aggregate(Final, spec), [x]), env) == FinalRows(Eval(x, env), env.merge(spec))
  {
    EvalOne(Aggregate(Final, spec), x, env);
    CombineGrouped(Aggregate(Final, spec), [Eval(x, env)], env);
  }

  lemma InsertedAggregate(spec: nat, op: Op, z: Plan)
    requires op == Coalesce(None) || Routes(op)
    ensures InsertBroadcasts(Plan(Aggregate(Final, spec), [Plan(op, [Plan(Aggregate(Partial, spec), [z])])])) ==
            Plan(Aggregate(Final, spec), [Plan(op, [Plan(Aggregate(Partial, spec), [InsertBroadcasts(z)])])])
  {
    var y := Plan(Aggregate(Partial, spec), [z]);
    InsertOne(y.op, z);
    InsertOne(op, y);
    InsertOne(Aggregate(Final, spec), Plan(op, [y]));
  }

  lemma {:induction false} AggregatePreservesMeaning(p: Plan, n: nat, env: Env)
    requires Valid(env) && Distributable(p, env) && p.op.Aggregate? && n > 0
    ensures Total(InsertBroadcasts(p), n, n, env) == Eval(p, env)
    decreases p, 0
  {
    var x, spec := p.children[0], p.op.spec;
    var y := x.children[0];
    var z := y.children[0];
    var partial := Plan(Aggregate(Partial, spec), [InsertBroadcasts(z)]);
    assert p == Plan(Aggregate(Final, spec), [x]) && x == Plan(x.op, [y]) && y == Plan(Aggregate(Partial, spec), [z]);
    InsertedAggregate(spec, x.op, z);
    EvalAggregate(spec, x.op, z, env);
    BroadcastPreservesMeaning(z, env.tasks(partial), env);
    StatesFinish(spec, InsertBroadcasts(z), env, Eval(z, env));
    if Routes(x.op) {
      ExchangedFinalTotal(spec, x.op, InsertBroadcasts(z), n, env);
    } else {
      GatheredFinalTotal(spec, partial, n, n, env);
    }
  }

  lemma EvalJoin(op: Op, a: Plan, b: Plan, env: Env)
    requires op.Join?
    ensures Eval(Plan(op, [a, b]), env) ==
            JoinBags(TypeOf(op.join), Eval(a, env), Eval(b, env), ConditionOf(op.join, op.on, env))
  {
    assert [a, b][1..] == [b] && [b][1..] == [];
    assert EvalAll([b], env) == [Eval(b, env)];
    assert EvalAll([a, b], env) == [Eval(a, env), Eval(b, env)];
  }

  lemma EvalPartitioned(op: Op, a: Op, b: Op, l: Plan, r: Plan, env: Env)
    requires op.Join? && op.join.HashJoin? && Routes(a) && Routes(b)
    ensures Eval(Plan(op, [Plan(a, [l]), Plan(b, [r])]), env) ==
            JoinBags(op.join.joinType, Eval(l, env), Eval(r, env), env.on(op.on))
  {
    PassOn(a, l, env);
    PassOn(b, r, env);
    EvalJoin(op, Plan(a, [l]), Plan(b, [r]), env);
  }

  lemma InsertedPartitioned(op: Op, a: Op, b: Op, l: Plan, r: Plan)
    requires !CanBroadcastLeft(op) && Routes(a) && Routes(b)
    ensures InsertBroadcasts(Plan(op, [Plan(a, [l]), Plan(b, [r])])) ==
            Plan(op, [Plan(a, [InsertBroadcasts(l)]), Plan(b, [InsertBroadcasts(r)])])
  {
    var cs := [Plan(a, [l]), Plan(b, [r])];
    InsertOne(a, l);
    InsertOne(b, r);
    assert cs[1..] == [cs[1]] && cs[1..][1..] == [];
    assert InsertAll(cs[1..]) == [InsertBroadcasts(cs[1])];
  }

  lemma {:induction false} PartitionedPreservesMeaning(p: Plan, n: nat, env: Env)
    requires Valid(env) && Distributable(p, env) && p.op.Join? && !CanBroadcastLeft(p.op) && n > 0
    ensures Total(InsertBroadcasts(p), n, n, env) == Eval(p, env)
    decreases p, 0
  {
    PicksIffSplits(p.op);
    var a, b := p.children[0], p.children[1];
    var l, r := a.children[0], b.children[0];
    assert p == Plan(p.op, [a, b]) && a == Plan(a.op, [l]) && b == Plan(b.op, [r]);
    EvalPartitioned(p.op, a.op, b.op, l, r, env);
    InsertedPartitioned(p.op, a.op, b.op, l, r);
    BroadcastPreservesMeaning(l, env.tasks(InsertBroadcasts(l)), env);
    BroadcastPreservesMeaning(r, env.tasks(InsertBroadcasts(r)), env);
    PartitionedTotal(p.op, a.op, b.op, InsertBroadcasts(l), InsertBroadcasts(r), n, env);
  }

  lemma TwoInputs(p: Plan, env: Env)
    requires CanBroadcastLeft(p.op) && |p.children| == 2
    ensures InsertBroadcasts(p) ==
            Plan(p.op, [InsertBroadcasts(BroadcastChild(p.children[0])), InsertBroadcasts(p.children[1])])
    ensures EvalAll(p.children, env) == [Eval(p.children[0], env), Eval(p.children[1], env)]
  {
    var cs := BroadcastBuild(p).children;
    assert cs == [BroadcastChild(p.children[0]), p.children[1]];
    assert cs[1..] == p.children[1..] == [p.children[1]] && p.children[1..][1..] == [];
    assert InsertAll(cs[1..]) == [InsertBroadcasts(p.children[1])];
    assert EvalAll(p.children[1..], env) == [Eval(p.children[1], env)];
  }
}
