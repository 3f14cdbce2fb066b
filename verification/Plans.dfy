/** Physical plans, and the rules by which DataFusion's tree traversals visit and rewrite them. */
module Plans {
  import opened Wrappers

  /** Which of how many tasks is running. */
  datatype Ctx = Ctx(index: nat, count: nat)

  /** The stage that feeds a network boundary. A local stage's plan is the boundary's only child; a
      remote stage lives on `tasks` workers and its boundary has no children. */
  datatype Stage = Local(query: nat, num: nat, tasks: nat) | Remote(query: nat, num: nat, tasks: nat)

  /** What a hash partitioning hashes: columns, and a literal that salts the hash. */
  datatype HashExpr = Column(id: nat) | Salt(value: nat)

  datatype Partitioning =
    | Hash(exprs: seq<HashExpr>, count: nat)
    | Range(count: nat)
    | RoundRobin(count: nat)
    | Unknown(count: nat)

  /** A direct shuffle sends each row to its final partition; a two-phase one only to a task, chosen by
      a salted hash, and leaves the rest to a repartition above it. */
  datatype ShuffleMode = Direct | TwoPhase(salt: nat)

  /** A shuffle remembers its producer's partitioning, whether order is kept and its mode; a broadcast
      the partitions it offers to each consumer task. */
  datatype BoundaryKind =
    | NetworkShuffle(producer: Partitioning, ordered: bool, mode: ShuffleMode)
    | NetworkCoalesce(consumers: nat)
    | NetworkBroadcast(partitions: nat)

  datatype AggregateMode = Partial | PartialReduce | Final

  datatype JoinType =
    | Inner | Left | Right | Full
    | LeftSemi | RightSemi | LeftAnti | RightAnti | LeftMark | RightMark

  datatype PartitionMode = CollectLeft | Partitioned | Auto

  datatype JoinKind = HashJoin(mode: PartitionMode, joinType: JoinType) | NestedLoopJoin(joinType: JoinType) | CrossJoin

  /** For each task of the stage, the children it runs and the context each of them sees. */
  type TaskMap = seq<seq<(nat, Ctx)>>

  datatype Op =
    | Empty
    | Scan(id: nat)
    | DistributedLeaf(variants: seq<nat>)
    | Feed(id: nat, partitions: nat, remote: bool)
    | Operator(id: nat)
    | Coalesce(fetch: Option<nat>)
    | Repartition(partitioning: Partitioning, preserveOrder: bool)
    | Broadcast(consumers: nat)
    | Sampler
    | Aggregate(mode: AggregateMode, spec: nat)
    | Join(join: JoinKind, on: nat)
    | Isolator(taskMap: TaskMap)
    | Boundary(kind: BoundaryKind, stage: Stage)

  datatype Plan = Plan(op: Op, children: seq<Plan>)

  /** A hash or range repartition sends each row where the row says; it is what a shuffle is put on. */
  predicate Routes(op: Op) {
    op.Repartition? && (op.partitioning.Hash? || op.partitioning.Range?)
  }

  /** Where a node is: the child indices from the root. It identifies the node. */
  type Path = seq<nat>

  // ---------------------------------------------------------------- traversal signals

  datatype Recursion = Continue | Jump | Stop

  datatype Transformed = Transformed(data: Plan, changed: bool, signal: Recursion)

  /** A node's children rewritten: the list, whether any changed, and the last one's signal. */
  datatype Mapped = Mapped(children: seq<Plan>, changed: bool, signal: Recursion)

  /** The order in which children are pushed on a stack: the first ends up on top. */
  function Reversed<T>(xs: seq<T>): (r: seq<T>)
    ensures |r| == |xs| && forall i | 0 <= i < |xs| :: r[i] == xs[|xs| - 1 - i]
  {
    seq(|xs|, i requires 0 <= i < |xs| => xs[|xs| - 1 - i])
  }

  /** A node whose children were rewritten is rebuilt only if one of them reports a change. */
  function Rebuilt(node: Plan, children: seq<Plan>, changed: bool): (p: Plan) {
    if changed then Plan(node.op, children) else node
  }

  // ---------------------------------------------------------------- isolator unions

  /** How many tasks the context of child `c` counts: the largest over all entries for it. */
  function ChildCount(taskMap: TaskMap, c: nat): (n: nat) {
    if taskMap == [] then 0 else Max(EntryCount(taskMap[0], c), ChildCount(taskMap[1..], c))
  }

  function EntryCount(entries: seq<(nat, Ctx)>, c: nat): (n: nat) {
    if entries == [] then 0 else
      Max(if entries[0].0 == c then entries[0].1.count else 0, EntryCount(entries[1..], c))
  }

  function Max(a: nat, b: nat): (m: nat) {
    if a < b then b else a
  }

  /** The task count a child of `op` runs with, given the node's own: the isolator's, the producer
      stage's, or simply the same. */
  function ChildTaskCount(op: Op, tasks: nat, c: nat): (n: nat) {
    match op
    case Isolator(taskMap) => ChildCount(taskMap, c)
    case Boundary(_, stage) => stage.tasks
    case _ => tasks
  }

  /** Child `c` has a context among the entries, `n` is the largest count of one, or there is none. */
  ghost predicate MostCounted(taskMap: TaskMap, c: nat, n: nat) {
    && (forall t, i | 0 <= t < |taskMap| && 0 <= i < |taskMap[t]| && taskMap[t][i].0 == c :: taskMap[t][i].1.count <= n)
    && (n > 0 ==> exists t, i | 0 <= t < |taskMap| && 0 <= i < |taskMap[t]| ::
                    taskMap[t][i].0 == c && taskMap[t][i].1.count == n)
  }

  /** What a child inherits: the count of an isolator's entries for it, the tasks of the stage below any
      kind of boundary, and otherwise its parent's count. */
  ghost predicate Inherits(op: Op, tasks: nat, c: nat, n: nat) {
    if op.Isolator? then MostCounted(op.taskMap, c, n)
    else if op.Boundary? then n == op.stage.tasks
    else n == tasks
  }

  lemma {:induction false} EntryCountIs(entries: seq<(nat, Ctx)>, c: nat)
    ensures var n := EntryCount(entries, c);
            && (forall i | 0 <= i < |entries| && entries[i].0 == c :: entries[i].1.count <= n)
            && (n > 0 ==> exists i | 0 <= i < |entries| :: entries[i].0 == c && entries[i].1.count == n)
  {
    if entries != [] {
      EntryCountIs(entries[1..], c);
      var n := EntryCount(entries[1..], c);
      if i :| 0 <= i < |entries[1..]| && entries[1..][i].0 == c && entries[1..][i].1.count == n {
        assert entries[i + 1] == entries[1..][i];
      }
      assert forall i | 0 < i < |entries| :: entries[1..][i - 1] == entries[i];
    }
  }

  lemma {:induction false} ChildCountIs(taskMap: TaskMap, c: nat)
    ensures MostCounted(taskMap, c, ChildCount(taskMap, c))
  {
    if taskMap != [] {
      var rest := taskMap[1..];
      EntryCountIs(taskMap[0], c);
      ChildCountIs(rest, c);
      var n := ChildCount(rest, c);
      if t, i :| 0 <= t < |rest| && 0 <= i < |rest[t]| && rest[t][i].0 == c && rest[t][i].1.count == n {
        assert taskMap[t + 1] == rest[t];
      }
      assert forall t | 0 < t < |taskMap| :: rest[t - 1] == taskMap[t];
    }
  }

  lemma ChildInherits(op: Op, tasks: nat, c: nat)
    ensures Inherits(op, tasks, c, ChildTaskCount(op, tasks, c))
  {
    if op.Isolator? {
      ChildCountIs(op.taskMap, c);
    }
  }

  // ---------------------------------------------------------------- nodes of a plan

  function NodeAt(p: Plan, q: Path): (r: Option<Plan>)
    decreases p
  {
    if q == [] then Some(p) else if q[0] < |p.children| then NodeAt(p.children[q[0]], q[1..]) else None
  }

  // ---------------------------------------------------------------- plan size

  function Size(p: Plan): (n: nat)
    ensures n > 0
    decreases p
  {
    1 + SizeAll(p.children)
  }

  function SizeAll(cs: seq<Plan>): (n: nat)
    decreases cs
  {
    if cs == [] then 0 else Size(cs[0]) + SizeAll(cs[1..])
  }

  lemma {:induction false} SizeOfChild(cs: seq<Plan>, i: nat)
    requires i < |cs|
    ensures Size(cs[i]) <= SizeAll(cs)
  {
    if i > 0 {
      SizeOfChild(cs[1..], i - 1);
    }
  }
}
