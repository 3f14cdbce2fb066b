/** Network boundaries and the head node their producer stage must have. */
module NetworkBoundaries {
  import opened Wrappers
  import opened Plans

  /** What the head of a producer stage must look like. */
  datatype Head =
    | NoHead
    | BroadcastHead(outputs: nat)
    | RepartitionHead(partitioning: Partitioning, preserveOrder: bool)

  /** The number of output partitions DataFusion computes for a plan. */
  type PartitionCount = Plan -> nat

  /** Enough partitions for all consumer tasks; a range is cut into one partition per task and cannot
      be cut finer than it is. */
  function ScalePartitioning(p: Partitioning, consumerTasks: nat): (r: Result<Partitioning>) {
    match p
    case Hash(keys, n) => Success(Hash(keys, n * consumerTasks))
    case RoundRobin(n) => Success(RoundRobin(n * consumerTasks))
    case Unknown(n) => Success(Unknown(n * consumerTasks))
    case Range(n) => if consumerTasks <= n then Success(Range(consumerTasks)) else Failure
  }

  /** One partition per consumer task, by a salted hash; only a hash can be salted. */
  function SaltPartitioning(p: Partitioning, salt: nat, consumerTasks: nat): (r: Result<Partitioning>) {
    if p.Hash? then Success(Hash(p.exprs + [Salt(salt)], consumerTasks)) else Failure
  }

  function ShufflePartitioning(p: Partitioning, mode: ShuffleMode, consumerTasks: nat): (r: Result<Partitioning>) {
    match mode
    case Direct => ScalePartitioning(p, consumerTasks)
    case TwoPhase(salt) => SaltPartitioning(p, salt, consumerTasks)
  }

  function ProducerHead(kind: BoundaryKind, consumerTasks: nat): (r: Result<Head>) {
    match kind
    case NetworkShuffle(producer, ordered, mode) =>
      var partitioning :- ShufflePartitioning(producer, mode, consumerTasks);
      Success(RepartitionHead(partitioning, ordered))
    case NetworkCoalesce(_) => Success(NoHead)
    case NetworkBroadcast(partitions) => Success(BroadcastHead(partitions * consumerTasks))
  }

  predicate IsHead(op: Op) {
    op.Repartition? || op.Broadcast?
  }

  predicate HasHead(p: Plan) {
    IsHead(p.op) && |p.children| == 1
  }

  function StripHead(p: Plan): (r: Plan) {
    if HasHead(p) then p.children[0] else p
  }

  lemma SizeStripped(p: Plan)
    ensures Size(StripHead(p)) <= Size(p)
  {
    if HasHead(p) {
      SizeOfChild(p.children, 0);
    }
  }

  /** Replaces the plan's head, if it has one, by the required one. */
  function InsertHead(head: Head, input: Plan, parts: PartitionCount): (r: Result<Plan>) {
    WithHead(head, StripHead(input), parts(StripHead(input)))
  }

  /** The required head on a plan that had `partitions` partitions when the head was computed. */
  function WithHead(head: Head, bare: Plan, partitions: nat): (r: Result<Plan>) {
    match head
    case NoHead => Success(bare)
    case BroadcastHead(outputs) =>
      if partitions == 0 then Failure else Success(Plan(Broadcast(outputs / partitions), [bare]))
    case RepartitionHead(partitioning, preserveOrder) =>
      Success(Plan(Repartition(partitioning, preserveOrder), [bare]))
  }

  /** The input of a boundary of the given kind that feeds `tasks` consumer tasks. */
  function HeadedInput(kind: BoundaryKind, tasks: nat, input: Plan, parts: PartitionCount): (r: Result<Plan>) {
    var head :- ProducerHead(kind, tasks);
    InsertHead(head, input, parts)
  }

  /** A local boundary has its stage's plan as only child, a remote one has none, and the operators
      the passes take apart have one input. */
  predicate WellFormed(p: Plan)
    decreases p
  {
    && (p.op.Boundary? ==> |p.children| == if p.op.stage.Local? then 1 else 0)
    && (IsHead(p.op) ==> |p.children| == 1)
    && forall c | 0 <= c < |p.children| :: WellFormed(p.children[c])
  }

  predicate AllLocal(p: Plan)
    decreases p
  {
    && (p.op.Boundary? ==> p.op.stage.Local?)
    && forall c | 0 <= c < |p.children| :: AllLocal(p.children[c])
  }

  /** Injects the sampler right below the head. */
  function InsertSampler(p: Plan): (r: Plan) {
    if HasHead(p) then Plan(p.op, [Plan(Sampler, [p.children[0]])]) else p
  }
}
