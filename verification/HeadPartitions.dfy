/** Which consumer task reads which partition of a producer stage's head. */
module HeadPartitions {
  import opened Wrappers
  import opened Plans
  import opened NetworkBoundaries
  import opened Arithmetic

  /** The partitions a boundary offers in each consumer task: those of the producer's partitioning, one of
      a range, and one for each producer task of a two-phase shuffle. */
  function Width(kind: BoundaryKind, producers: nat): (n: nat) {
    match kind
    case NetworkShuffle(producer, _, mode) =>
      if mode.TwoPhase? then producers else if producer.Range? then 1 else producer.count
    case NetworkBroadcast(partitions) => partitions
    case NetworkCoalesce(_) => 0
  }

  /** Partition `local` of consumer task `task` reads head partition `k` of producer task `j`. */
  predicate ReadBy(kind: BoundaryKind, task: nat, local: nat, j: nat, k: nat) {
    if kind.NetworkShuffle? && kind.mode.TwoPhase? then k == task && j == local
    else k == Width(kind, 0) * task + local
  }

  predicate Reader(kind: BoundaryKind, tasks: nat, producers: nat, task: nat, local: nat) {
    task < tasks && local < Width(kind, producers)
  }

  /** One reader alone reads head partition `k` of producer task `j`. */
  ghost predicate ReadOnlyBy(kind: BoundaryKind, tasks: nat, producers: nat, j: nat, k: nat, task: nat, local: nat) {
    && Reader(kind, tasks, producers, task, local) && ReadBy(kind, task, local, j, k)
    && forall t: nat, l: nat | Reader(kind, tasks, producers, t, l) && ReadBy(kind, t, l, j, k) ::
         t == task && l == local
  }

  ghost predicate ReadOnce(kind: BoundaryKind, tasks: nat, producers: nat, j: nat, k: nat) {
    exists t: nat, l: nat :: ReadOnlyBy(kind, tasks, producers, j, k, t, l)
  }

  ghost predicate InRange(kind: BoundaryKind, tasks: nat, producers: nat, count: nat) {
    forall t: nat, l: nat, j: nat, k: nat |
        Reader(kind, tasks, producers, t, l) && j < producers && ReadBy(kind, t, l, j, k) ::
      k < count
  }

  ghost predicate AllRead(kind: BoundaryKind, tasks: nat, producers: nat, count: nat) {
    forall j: nat, k: nat | j < producers && k < count :: ReadOnce(kind, tasks, producers, j, k)
  }

  /** The head's `count` partitions tile the consumers: every one of every producer task is read by exactly
      one partition of one consumer task, and no other is asked for. */
  ghost predicate Tiles(kind: BoundaryKind, tasks: nat, count: nat) {
    forall producers: nat :: InRange(kind, tasks, producers, count) && AllRead(kind, tasks, producers, count)
  }

  /** A direct shuffle keeps the producer's way of partitioning and can only coarsen a range; a two-phase
      one hashes the producer's expressions and the salt. */
  predicate Partitions(producer: Partitioning, mode: ShuffleMode, q: Partitioning) {
    match mode
    case TwoPhase(salt) => producer.Hash? && q.Hash? && q.exprs == producer.exprs + [Salt(salt)]
    case Direct =>
      match producer
      case Hash(keys, _) => q.Hash? && q.exprs == keys
      case Range(n) => q.Range? && q.count <= n
      case RoundRobin(_) => q.RoundRobin?
      case Unknown(_) => q.Unknown?
  }

  /** What a boundary needs of the head of its producer stage. */
  ghost predicate Serves(kind: BoundaryKind, tasks: nat, head: Head) {
    match kind
    case NetworkShuffle(producer, ordered, mode) =>
      && head.RepartitionHead? && head.preserveOrder == ordered
      && Partitions(producer, mode, head.partitioning) && Tiles(kind, tasks, head.partitioning.count)
    case NetworkBroadcast(_) => head.BroadcastHead? && Tiles(kind, tasks, head.outputs)
    case NetworkCoalesce(_) => head.NoHead?
  }

  /** Which boundaries can have a head: a range must be fine enough, and only a hash can be salted. */
  predicate CanServe(kind: BoundaryKind, tasks: nat) {
    kind.NetworkShuffle? ==>
      match kind.mode
      case TwoPhase(_) => kind.producer.Hash?
      case Direct => kind.producer.Range? ==> tasks <= kind.producer.count
  }

  // ---------------------------------------------------------------- how many partitions tile

  /** The partitions a consumer task has to itself. */
  function Own(kind: BoundaryKind): (n: nat) {
    if kind.NetworkShuffle? && kind.mode.TwoPhase? then 1 else Width(kind, 0)
  }

  lemma ReadInRange(kind: BoundaryKind, tasks: nat, producers: nat, t: nat, l: nat, j: nat, k: nat)
    requires Reader(kind, tasks, producers, t, l) && ReadBy(kind, t, l, j, k)
    ensures k < Own(kind) * tasks
  {
    MulMonotone(Own(kind), t + 1, tasks);
    assert Own(kind) * (t + 1) == Own(kind) * t + Own(kind);
  }

  lemma OnlyReader(kind: BoundaryKind, tasks: nat, producers: nat, j: nat, k: nat) returns (t: nat, l: nat)
    requires j < producers && k < Own(kind) * tasks
    ensures ReadOnlyBy(kind, tasks, producers, j, k, t, l)
  {
    if kind.NetworkShuffle? && kind.mode.TwoPhase? {
      t, l := k, j;
    } else {
      var n := Own(kind);
      t, l := k / n, k % n;
      QuotientInRange(k, n, tasks);
      assert k == n * t + l;
      forall t': nat, l': nat | Reader(kind, tasks, producers, t', l') && ReadBy(kind, t', l', j, k)
        ensures t' == t && l' == l
      {
        SplitIsUnique(t', l', t, l, n);
      }
    }
  }

  lemma ProductTiles(kind: BoundaryKind, tasks: nat)
    requires !kind.NetworkCoalesce?
    ensures Tiles(kind, tasks, Own(kind) * tasks)
  {
    var count := Own(kind) * tasks;
    forall producers: nat ensures InRange(kind, tasks, producers, count) && AllRead(kind, tasks, producers, count) {
      forall t: nat, l: nat, j: nat, k: nat |
          Reader(kind, tasks, producers, t, l) && j < producers && ReadBy(kind, t, l, j, k)
        ensures k < count
      {
        ReadInRange(kind, tasks, producers, t, l, j, k);
      }
      forall j: nat, k: nat | j < producers && k < count ensures ReadOnce(kind, tasks, producers, j, k) {
        var t, l := OnlyReader(kind, tasks, producers, j, k);
      }
    }
  }

  lemma OnlyProductTiles(kind: BoundaryKind, tasks: nat, count: nat)
    requires !kind.NetworkCoalesce? && Tiles(kind, tasks, count)
    ensures count == Own(kind) * tasks
  {
    assert InRange(kind, tasks, 1, count) && AllRead(kind, tasks, 1, count);
    if count < Own(kind) * tasks {
      var t, l := OnlyReader(kind, tasks, 1, 0, count);
      assert false;
    }
    if count > Own(kind) * tasks {
      var k := Own(kind) * tasks;
      assert ReadOnce(kind, tasks, 1, 0, k);
      var t: nat, l: nat :| ReadOnlyBy(kind, tasks, 1, 0, k, t, l);
      ReadInRange(kind, tasks, 1, t, l, 0, k);
      assert false;
    }
  }

  lemma TilesIff(kind: BoundaryKind, tasks: nat, count: nat)
    requires !kind.NetworkCoalesce?
    ensures Tiles(kind, tasks, count) <==> count == Own(kind) * tasks
  {
    ProductTiles(kind, tasks);
    if Tiles(kind, tasks, count) {
      OnlyProductTiles(kind, tasks, count);
    }
  }

  // ---------------------------------------------------------------- the head a boundary asks for

  /** A boundary asks for exactly the head that serves it, and for none exactly if none can. */
  lemma HeadServes(kind: BoundaryKind, tasks: nat, head: Head)
    ensures ProducerHead(kind, tasks) == Success(head) <==> Serves(kind, tasks, head)
    ensures ProducerHead(kind, tasks).Failure? <==> !CanServe(kind, tasks)
  {
    match kind {
      case NetworkShuffle(_, _, _) =>
        if head.RepartitionHead? {
          TilesIff(kind, tasks, head.partitioning.count);
        }
      case NetworkBroadcast(_) =>
        if head.BroadcastHead? {
          TilesIff(kind, tasks, head.outputs);
        }
      case NetworkCoalesce(_) =>
    }
  }
}
