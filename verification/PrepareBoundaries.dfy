/** Preparing network boundaries: eliding trivial ones, scaling producer heads, numbering stages. */
module PrepareBoundaries {
  import opened Wrappers
  import opened Plans
  import opened TaskCounts
  import opened StackedCounts
  import opened NetworkBoundaries
  import opened HeadPartitions

  /** A local boundary from one task to one task. */
  predicate Trivial(p: Plan, tasks: nat) {
    p.op.Boundary? && p.op.stage.Local? && |p.children| == 1 && tasks == 1 && p.op.stage.tasks == 1
  }

  /** What the callback does with one node; its state is the next stage number. */
  function PrepareStep(p: Plan, tasks: nat, next: nat, query: nat, parts: PartitionCount)
    : (r: (Result<Transformed>, nat)) {
    if !p.op.Boundary? || p.op.stage.Remote? || |p.children| != 1
    then (Success(Transformed(p, false, Continue)), next)
    else if tasks == 1 && p.op.stage.tasks == 1 then (Success(Transformed(p.children[0], true, Continue)), next)
    else
      var input := HeadedInput(p.op.kind, tasks, p.children[0], parts);
      if input.Failure? then (Failure, next)
      else (Success(Transformed(Stamped(p.op, query, next, input.value), true, Continue)), next + 1)
  }

  function PrepareNode(query: nat, parts: PartitionCount): (f: Rewriter<nat>) {
    (path: Path, p: Plan, tasks: nat, next: nat) => PrepareStep(p, tasks, next, query, parts)
  }

  function Stamped(op: Op, query: nat, num: nat, input: Plan): (p: Plan)
    requires op.Boundary?
  {
    Plan(Boundary(op.kind, Local(query, num, op.stage.tasks)), [input])
  }

  lemma PrepareContinues(query: nat, parts: PartitionCount)
    ensures AlwaysContinues(PrepareNode(query, parts))
  {
  }

  /** The whole pass, for the coordinator's single task and stage numbers from one. */
  method PrepareNetworkBoundaries(plan: Plan, query: nat, parts: PartitionCount) returns (r: Result<Plan>)
    ensures var u := Up(plan, [], 1, PrepareNode(query, parts), 1).0;
            r == if u.Failure? then Failure else Success(u.value.data)
  {
    PrepareContinues(query, parts);
    StackedIsUp(plan, [], [1], PrepareNode(query, parts), 1);
    var walker := new UpWalker(1, PrepareNode(query, parts), 1);
    var t := walker.TransformDownUp(plan, []);
    return if t.Failure? then Failure else Success(t.value.data);
  }

  // ---------------------------------------------------------------- what must not change

  /** The plan below the trivial boundaries at its top. */
  function Skip(p: Plan, tasks: nat): (r: Plan)
    ensures Size(r) <= Size(p) && !Trivial(r, tasks)
    decreases p
  {
    if Trivial(p, tasks) then
      SizeOfChild(p.children, 0);
      Skip(p.children[0], 1)
    else p
  }

  function Unstamped(op: Op): (r: Op) {
    if op.Boundary? && op.stage.Local? then Boundary(op.kind, Local(0, 0, op.stage.tasks)) else op
  }

  /** A tree of operators with the task counts they run in. */
  datatype Shape = Shape(op: Op, tasks: nat, inputs: seq<Shape>)

  /** The shape of a plan to be prepared, leaving out trivial boundaries, stage numbers, and the one
      head that each boundary's input may have. */
  function Wanted(p: Plan, tasks: nat): (r: Shape)
    decreases Size(p), 0
  {
    if Trivial(p, tasks) then
      SizeOfChild(p.children, 0);
      Wanted(p.children[0], 1)
    else if p.op.Boundary? && |p.children| == 1 then
      var n := p.op.stage.tasks;
      SizeOfChild(p.children, 0);
      SizeStripped(Skip(p.children[0], n));
      Shape(Unstamped(p.op), tasks, [Wanted(StripHead(Skip(p.children[0], n)), n)])
    else Shape(Unstamped(p.op), tasks, AllWanted(p.children, ChildCounts(p, tasks)))
  }

  function AllWanted(cs: seq<Plan>, counts: seq<nat>): (rs: seq<Shape>)
    requires |counts| == |cs|
    decreases SizeAll(cs), 1
  {
    if cs == [] then [] else [Wanted(cs[0], counts[0])] + AllWanted(cs[1..], counts[1..])
  }

  /** A boundary's input without the head the boundary asks for. */
  function Headless(kind: BoundaryKind, input: Plan): (r: Plan)
    ensures Size(r) <= Size(input)
  {
    SizeStripped(input);
    if kind.NetworkCoalesce? then input else StripHead(input)
  }

  /** The shape of a prepared plan, leaving out stage numbers and the heads boundaries ask for; nothing
      else is left out. */
  function ShapeOf(p: Plan, tasks: nat): (r: Shape)
    decreases Size(p), 0
  {
    if p.op.Boundary? && |p.children| == 1 then
      SizeOfChild(p.children, 0);
      Shape(Unstamped(p.op), tasks, [ShapeOf(Headless(p.op.kind, p.children[0]), p.op.stage.tasks)])
    else Shape(Unstamped(p.op), tasks, ShapesOf(p.children, ChildCounts(p, tasks)))
  }

  function ShapesOf(cs: seq<Plan>, counts: seq<nat>): (rs: seq<Shape>)
    requires |counts| == |cs|
    decreases SizeAll(cs), 1
  {
    if cs == [] then [] else [ShapeOf(cs[0], counts[0])] + ShapesOf(cs[1..], counts[1..])
  }

  /** No boundary of the plan is trivial for the counts recomputed on it. */
  predicate NoTrivial(p: Plan, tasks: nat)
    decreases p
  {
    && !Trivial(p, tasks)
    && forall c | 0 <= c < |p.children| :: NoTrivial(p.children[c], ChildTaskCount(p.op, tasks, c))
  }

  /** The input of a boundary with `tasks` consumer tasks has the head the boundary needs: a repartition
      whose partitions tile the consumers, or a broadcast of all its partitions to each of them. */
  ghost predicate HeadMatches(kind: BoundaryKind, tasks: nat, input: Plan, parts: PartitionCount) {
    match kind
    case NetworkShuffle(producer, ordered, mode) =>
      && input.op.Repartition? && |input.children| == 1
      && Serves(kind, tasks, RepartitionHead(input.op.partitioning, input.op.preserveOrder))
    case NetworkBroadcast(partitions) =>
      && input.op.Broadcast? && |input.children| == 1
      && parts(input.children[0]) > 0
      && input.op.consumers == partitions * tasks / parts(input.children[0])
    case NetworkCoalesce(_) => true
  }

  ghost predicate HeadsMatch(p: Plan, tasks: nat, parts: PartitionCount)
    decreases p
  {
    && (p.op.Boundary? && p.op.stage.Local? && |p.children| == 1 ==>
          HeadMatches(p.op.kind, tasks, p.children[0], parts))
    && forall c | 0 <= c < |p.children| :: HeadsMatch(p.children[c], ChildTaskCount(p.op, tasks, c), parts)
  }

  /** Stage numbers in post-order. */
  function Nums(p: Plan): (ns: seq<nat>)
    decreases p, 1
  {
    NumsAll(p.children) + if p.op.Boundary? then [p.op.stage.num] else []
  }

  function NumsAll(cs: seq<Plan>): (ns: seq<nat>)
    decreases cs, 0
  {
    if cs == [] then [] else Nums(cs[0]) + NumsAll(cs[1..])
  }

  function Count(from: nat, to: nat): (ns: seq<nat>)
    requires from <= to
  {
    seq(to - from, i requires 0 <= i < to - from => from + i)
  }

  // ---------------------------------------------------------------- the main induction

  /** What the pass guarantees about one subtree. */
  ghost predicate Prepared(p: Plan, tasks: nat, r: Plan, changed: bool, next: nat, next': nat, parts: PartitionCount) {
    && ShapeOf(r, tasks) == Wanted(p, tasks)
    && ShapeOf(StripHead(r), tasks) == Wanted(StripHead(Skip(p, tasks)), tasks)
    && NoTrivial(r, tasks) && HeadsMatch(r, tasks, parts)
    && WellFormed(r) && (AllLocal(p) ==> AllLocal(r))
    && (!changed ==> r == p)
    && next <= next'
    && (AllLocal(p) ==> Nums(r) == Count(next, next'))
  }

  ghost predicate PreparedAll(cs: seq<Plan>, counts: seq<nat>, rs: seq<Plan>, changed: bool, next: nat, next': nat,
                              parts: PartitionCount)
    requires |counts| == |cs|
  {
    && |rs| == |cs|
    && ShapesOf(rs, counts) == AllWanted(cs, counts)
    && (forall c | 0 <= c < |rs| ::
          NoTrivial(rs[c], counts[c]) && HeadsMatch(rs[c], counts[c], parts) && WellFormed(rs[c]))
    && (forall c | 0 <= c < |rs| :: AllLocal(cs[c]) ==> AllLocal(rs[c]))
    && (|cs| == 1 ==> ShapeOf(StripHead(rs[0]), counts[0]) == Wanted(StripHead(Skip(cs[0], counts[0])), counts[0]))
    && (!changed ==> rs == cs)
    && next <= next'
    && ((forall c | 0 <= c < |cs| :: AllLocal(cs[c])) ==> NumsAll(rs) == Count(next, next'))
  }

  lemma CountConcat(a: nat, b: nat, c: nat)
    requires a <= b <= c
    ensures Count(a, b) + Count(b, c) == Count(a, c)
  {
  }

  lemma {:induction false} UpPrepares(p: Plan, path: Path, tasks: nat, query: nat, parts: PartitionCount, next: nat)
    requires WellFormed(p)
    ensures var (t, next') := Up(p, path, tasks, PrepareNode(query, parts), next);
            t.Success? ==> Prepared(p, tasks, t.value.data, t.value.changed, next, next', parts)
    decreases p, 1, 0
  {
    var f := PrepareNode(query, parts);
    var (kids, mid) := UpChildren(p, 0, path, tasks, f, next);
    UpChildrenPrepares(p, 0, path, tasks, query, parts, next);
    if kids.Success? {
      assert p.children[0..] == p.children && ChildCounts(p, tasks)[0..] == ChildCounts(p, tasks);
      var rs, changed := kids.value.children, kids.value.changed;
      assert Rebuilt(p, rs, changed) == Plan(p.op, rs);
      NodePrepared(p, tasks, rs, changed, next, mid, query, parts);
    }
  }

  lemma NodePrepared(p: Plan, tasks: nat, rs: seq<Plan>, changed: bool, next: nat, mid: nat, query: nat,
                     parts: PartitionCount)
    requires WellFormed(p) && PreparedAll(p.children, ChildCounts(p, tasks), rs, changed, next, mid, parts)
    ensures var (t, next') := PrepareStep(Plan(p.op, rs), tasks, mid, query, parts);
            t.Success? ==> Prepared(p, tasks, t.value.data, t.value.changed || changed, next, next', parts)
  {
    if !p.op.Boundary? {
      OrdinaryPrepared(p, tasks, rs, changed, next, mid, parts);
    } else if p.op.stage.Remote? {
      assert rs == [] && p.children == [];
      RemotePrepared(p, tasks, next, parts);
    } else if tasks == 1 && p.op.stage.tasks == 1 {
      ElidedPrepared(p, rs, changed, next, mid, parts);
    } else {
      var input := HeadedInput(p.op.kind, tasks, rs[0], parts);
      if input.Success? {
        SurvivorPrepared(p, tasks, rs, changed, next, mid, query, parts, input.value);
      }
    }
  }

  lemma {:induction false} UpChildrenPrepares(p: Plan, i: nat, path: Path, tasks: nat, query: nat,
                                              parts: PartitionCount, next: nat)
    requires WellFormed(p) && i <= |p.children|
    ensures var (k, next') := UpChildren(p, i, path, tasks, PrepareNode(query, parts), next);
            k.Success? ==>
              PreparedAll(p.children[i..], ChildCounts(p, tasks)[i..], k.value.children, k.value.changed, next, next',
                          parts)
    decreases p, 0, |p.children| - i
  {
    if i < |p.children| {
      var f, n := PrepareNode(query, parts), ChildTaskCount(p.op, tasks, i);
      UpPrepares(p.children[i], path + [i], n, query, parts, next);
      var (t, mid) := Up(p.children[i], path + [i], n, f, next);
      if t.Success? {
        UpChildrenPrepares(p, i + 1, path, tasks, query, parts, mid);
        var (rest, next') := UpChildren(p, i + 1, path, tasks, f, mid);
        if rest.Success? {
          var cs, counts := p.children[i..], ChildCounts(p, tasks)[i..];
          assert cs[0] == p.children[i] && cs[1..] == p.children[i + 1..];
          assert counts[0] == n && counts[1..] == ChildCounts(p, tasks)[i + 1..];
          ConsPrepared(cs, counts, t.value.data, t.value.changed, rest.value.children, rest.value.changed, next, mid,
                       next', parts);
        }
      }
    }
  }

  lemma ConsPrepared(cs: seq<Plan>, counts: seq<nat>, r: Plan, changed: bool, rs: seq<Plan>, rest: bool, a: nat,
                     b: nat, c: nat, parts: PartitionCount)
    requires |counts| == |cs| && cs != []
    requires Prepared(cs[0], counts[0], r, changed, a, b, parts)
    requires PreparedAll(cs[1..], counts[1..], rs, rest, b, c, parts)
    ensures PreparedAll(cs, counts, [r] + rs, changed || rest, a, c, parts)
  {
    var all := [r] + rs;
    assert all[0] == r && all[1..] == rs;
    CountConcat(a, b, c);
    forall k | 0 <= k < |all| ensures NoTrivial(all[k], counts[k]) && HeadsMatch(all[k], counts[k], parts) {
      if k > 0 {
        assert NoTrivial(rs[k - 1], counts[1..][k - 1]) && HeadsMatch(rs[k - 1], counts[1..][k - 1], parts);
      }
    }
    if forall k | 0 <= k < |cs| :: AllLocal(cs[k]) {
      assert forall k | 0 <= k < |cs[1..]| :: AllLocal(cs[1..][k]);
    }
  }

  // ---------------------------------------------------------------- node by node

  lemma OrdinaryPrepared(p: Plan, tasks: nat, rs: seq<Plan>, changed: bool, next: nat, next': nat,
                         parts: PartitionCount)
    requires WellFormed(p) && !p.op.Boundary?
    requires PreparedAll(p.children, ChildCounts(p, tasks), rs, changed, next, next', parts)
    ensures Prepared(p, tasks, Plan(p.op, rs), changed, next, next', parts)
  {
    var r := Plan(p.op, rs);
    assert ChildCounts(r, tasks) == ChildCounts(p, tasks);
    forall c | 0 <= c < |rs|
      ensures NoTrivial(rs[c], ChildTaskCount(r.op, tasks, c)) &&
              HeadsMatch(rs[c], ChildTaskCount(r.op, tasks, c), parts)
    {
      assert NoTrivial(rs[c], ChildCounts(p, tasks)[c]) && HeadsMatch(rs[c], ChildCounts(p, tasks)[c], parts);
    }
    if HasHead(p) {
      assert ChildCounts(p, tasks) == [tasks];
      OneChild(p.children, rs, tasks);
    }
    assert NumsAll(rs) + [] == NumsAll(rs);
  }

  lemma RemotePrepared(p: Plan, tasks: nat, next: nat, parts: PartitionCount)
    requires WellFormed(p) && p.op.Boundary? && p.op.stage.Remote?
    ensures Prepared(p, tasks, p, false, next, next, parts)
  {
  }

  lemma ElidedPrepared(p: Plan, rs: seq<Plan>, changed: bool, next: nat, next': nat, parts: PartitionCount)
    requires WellFormed(p) && Trivial(p, 1)
    requires PreparedAll(p.children, ChildCounts(p, 1), rs, changed, next, next', parts)
    ensures Prepared(p, 1, rs[0], true, next, next', parts)
  {
    assert ChildCounts(p, 1) == [1];
    OneChild(p.children, rs, 1);
  }

  lemma OneChild(cs: seq<Plan>, rs: seq<Plan>, n: nat)
    requires |cs| == |rs| == 1
    ensures AllWanted(cs, [n]) == [Wanted(cs[0], n)] && ShapesOf(rs, [n]) == [ShapeOf(rs[0], n)]
    ensures NumsAll(rs) == Nums(rs[0])
  {
    assert cs[1..] == [] && rs[1..] == [];
  }

  /** A head that matches is the one the boundary asks for. */
  lemma MatchedHead(kind: BoundaryKind, tasks: nat, input: Plan, parts: PartitionCount)
    requires HeadMatches(kind, tasks, input, parts)
    ensures ProducerHead(kind, tasks).Success?
    ensures !kind.NetworkCoalesce? ==>
              WithHead(ProducerHead(kind, tasks).value, StripHead(input), parts(StripHead(input))) == Success(input)
  {
    if kind.NetworkShuffle? {
      HeadServes(kind, tasks, RepartitionHead(input.op.partitioning, input.op.preserveOrder));
    }
    if !kind.NetworkCoalesce? {
      assert input.children == [StripHead(input)];
    }
  }

  lemma InsertedMatches(kind: BoundaryKind, tasks: nat, c: Plan, parts: PartitionCount)
    requires HeadedInput(kind, tasks, c, parts).Success?
    ensures HeadMatches(kind, tasks, HeadedInput(kind, tasks, c, parts).value, parts)
  {
    HeadServes(kind, tasks, ProducerHead(kind, tasks).value);
  }

  /** Replacing the head changes neither what is under it nor any stage number. */
  lemma HeadedInputIs(kind: BoundaryKind, tasks: nat, c: Plan, parts: PartitionCount, n: nat)
    requires HeadedInput(kind, tasks, c, parts).Success? && NoTrivial(c, n) && HeadsMatch(c, n, parts)
    ensures StripHead(c) == if (c.op.Repartition? || c.op.Broadcast?) && |c.children| == 1 then c.children[0] else c
    ensures var input := HeadedInput(kind, tasks, c, parts).value;
            && Headless(kind, input) == StripHead(c) && NoTrivial(input, n) && Nums(input) == Nums(c)
            && HeadsMatch(input, n, parts) && HeadMatches(kind, tasks, input, parts)
  {
    var bare := StripHead(c);
    var input := HeadedInput(kind, tasks, c, parts).value;
    InsertedMatches(kind, tasks, c, parts);
    assert NoTrivial(bare, n) && HeadsMatch(bare, n, parts);
    HeadHasNoNumber(c);
    if input != bare {
      assert input.children == [bare] && IsHead(input.op);
      HeadHasNoNumber(input);
    }
  }

  lemma HeadHasNoNumber(p: Plan)
    ensures Nums(StripHead(p)) == Nums(p)
  {
    if HasHead(p) {
      assert NumsAll(p.children) == Nums(p.children[0]) + NumsAll(p.children[1..]);
    }
  }

  lemma SurvivorShape(p: Plan, tasks: nat, c: Plan, input: Plan, query: nat, num: nat)
    requires p.op.Boundary? && p.op.stage.Local? && |p.children| == 1 && !Trivial(p, tasks)
    requires var n := p.op.stage.tasks;
             && Headless(p.op.kind, input) == StripHead(c)
             && ShapeOf(StripHead(c), n) == Wanted(StripHead(Skip(p.children[0], n)), n)
    ensures ShapeOf(Stamped(p.op, query, num, input), tasks) == Wanted(p, tasks)
  {
    assert Unstamped(Stamped(p.op, query, num, input).op) == Unstamped(p.op);
  }

  lemma StampedKeeps(op: Op, tasks: nat, input: Plan, query: nat, num: nat, parts: PartitionCount)
    requires op.Boundary? && !(tasks == 1 && op.stage.tasks == 1)
    requires NoTrivial(input, op.stage.tasks) && HeadsMatch(input, op.stage.tasks, parts)
    requires HeadMatches(op.kind, tasks, input, parts)
    ensures var r := Stamped(op, query, num, input);
            NoTrivial(r, tasks) && HeadsMatch(r, tasks, parts) && StripHead(r) == r && Nums(r) == Nums(input) + [num]
  {
    assert NumsAll([input]) == Nums(input) by {
      assert [input][1..] == [];
    }
  }

  lemma SurvivorPrepared(p: Plan, tasks: nat, rs: seq<Plan>, changed: bool, next: nat, mid: nat,
                         query: nat, parts: PartitionCount, input: Plan)
    requires WellFormed(p) && p.op.Boundary? && p.op.stage.Local? && !Trivial(p, tasks)
    requires PreparedAll(p.children, ChildCounts(p, tasks), rs, changed, next, mid, parts)
    requires HeadedInput(p.op.kind, tasks, rs[0], parts) == Success(input)
    ensures Prepared(p, tasks, Stamped(p.op, query, mid, input), true, next, mid + 1, parts)
  {
    var n := p.op.stage.tasks;
    assert ChildCounts(p, tasks) == [n];
    HeadedInputIs(p.op.kind, tasks, rs[0], parts, n);
    SurvivorShape(p, tasks, rs[0], input, query, mid);
    StampedKeeps(p.op, tasks, input, query, mid, parts);
    assert StripHead(Skip(p, tasks)) == p;
    InputStaysWhole(p.op.kind, tasks, rs[0], parts);
    SurvivorNumbers(p, rs, next, mid, Nums(input));
  }

  lemma InputStaysWhole(kind: BoundaryKind, tasks: nat, c: Plan, parts: PartitionCount)
    requires HeadedInput(kind, tasks, c, parts).Success? && WellFormed(c)
    ensures var input := HeadedInput(kind, tasks, c, parts).value;
            WellFormed(input) && (AllLocal(c) ==> AllLocal(input))
  {
  }

  lemma {:induction false} SurvivorNumbers(p: Plan, rs: seq<Plan>, next: nat, mid: nat, below: seq<nat>)
    requires |p.children| == |rs| == 1 && next <= mid && below == Nums(rs[0])
    requires (forall c | 0 <= c < |p.children| :: AllLocal(p.children[c])) ==> NumsAll(rs) == Count(next, mid)
    ensures AllLocal(p) ==> below + [mid] == Count(next, mid + 1)
  {
    OneChild(p.children, rs, 0);
    assert Count(next, mid) + [mid] == Count(next, mid + 1);
  }

  // ---------------------------------------------------------------- the whole pass

  ghost predicate Increasing(ns: seq<nat>) {
    forall i, j | 0 <= i < j < |ns| :: ns[i] < ns[j]
  }

  /** Every stage is numbered above all stages nested in its input. */
  predicate NestedBelow(p: Plan)
    decreases p
  {
    && (p.op.Boundary? ==> forall i | 0 <= i < |NumsAll(p.children)| :: NumsAll(p.children)[i] < p.op.stage.num)
    && forall c | 0 <= c < |p.children| :: NestedBelow(p.children[c])
  }

  lemma {:induction false} IncreasingNests(p: Plan)
    requires Increasing(Nums(p))
    ensures NestedBelow(p)
    decreases p, 1
  {
    var below := NumsAll(p.children);
    assert forall i | 0 <= i < |below| :: Nums(p)[i] == below[i];
    IncreasingNestsAll(p.children);
    if p.op.Boundary? {
      assert Nums(p)[|below|] == p.op.stage.num;
    }
  }

  lemma {:induction false} IncreasingNestsAll(cs: seq<Plan>)
    requires Increasing(NumsAll(cs))
    ensures forall c | 0 <= c < |cs| :: NestedBelow(cs[c])
    decreases cs, 0
  {
    if cs != [] {
      var first, rest := Nums(cs[0]), NumsAll(cs[1..]);
      assert forall i | 0 <= i < |first| :: NumsAll(cs)[i] == first[i];
      assert forall i | 0 <= i < |rest| :: NumsAll(cs)[|first| + i] == rest[i];
      IncreasingNests(cs[0]);
      IncreasingNestsAll(cs[1..]);
    }
  }

  // ---------------------------------------------------------------- when the pass fails

  /** Partition counts follow from operators and task counts, not from stage numbers or from the head a
      boundary puts on its input. */
  ghost predicate ByShape(parts: PartitionCount, width: Shape -> nat) {
    forall p, tasks :: parts(p) == width(ShapeOf(p, tasks))
  }

  /** Every boundary that survives can have its head: a range is fine enough for the consumer tasks, a
      partitioning to be salted is a hash, and what is broadcast has partitions. */
  predicate Preparable(p: Plan, tasks: nat, width: Shape -> nat)
    decreases p
  {
    && (p.op.Boundary? && p.op.stage.Local? && |p.children| == 1 && !Trivial(p, tasks) ==>
          && var n := p.op.stage.tasks;
          && CanServe(p.op.kind, tasks)
          && (p.op.kind.NetworkBroadcast? ==> width(Wanted(StripHead(Skip(p.children[0], n)), n)) > 0))
    && forall c | 0 <= c < |p.children| :: Preparable(p.children[c], ChildTaskCount(p.op, tasks, c), width)
  }

  lemma SurvivorSucceedsIff(p: Plan, tasks: nat, c: Plan, parts: PartitionCount, width: Shape -> nat)
    requires p.op.Boundary? && p.op.stage.Local? && |p.children| == 1 && ByShape(parts, width)
    requires var n := p.op.stage.tasks; ShapeOf(StripHead(c), n) == Wanted(StripHead(Skip(p.children[0], n)), n)
    ensures HeadedInput(p.op.kind, tasks, c, parts).Success? <==>
            && CanServe(p.op.kind, tasks)
            && (p.op.kind.NetworkBroadcast? ==>
                  width(Wanted(StripHead(Skip(p.children[0], p.op.stage.tasks)), p.op.stage.tasks)) > 0)
  {
    assert parts(StripHead(c)) == width(ShapeOf(StripHead(c), p.op.stage.tasks));
    HeadServes(p.op.kind, tasks, NoHead);
  }

  /** The pass succeeds exactly on the plans whose surviving boundaries can all have their heads. */
  lemma {:induction false} PreparesIffPreparable(p: Plan, path: Path, tasks: nat, query: nat, parts: PartitionCount,
                                                 width: Shape -> nat, next: nat)
    requires WellFormed(p) && ByShape(parts, width)
    ensures Up(p, path, tasks, PrepareNode(query, parts), next).0.Success? <==> Preparable(p, tasks, width)
    decreases p, 1, 0
  {
    var f := PrepareNode(query, parts);
    var (kids, mid) := UpChildren(p, 0, path, tasks, f, next);
    ChildrenPrepareIff(p, 0, path, tasks, query, parts, width, next);
    UpChildrenPrepares(p, 0, path, tasks, query, parts, next);
    if kids.Success? && p.op.Boundary? && p.op.stage.Local? && !Trivial(p, tasks) {
      assert p.children[0..] == p.children && ChildCounts(p, tasks)[0..] == ChildCounts(p, tasks);
      SurvivorSucceedsIff(p, tasks, kids.value.children[0], parts, width);
    }
  }

  lemma {:induction false} ChildrenPrepareIff(p: Plan, i: nat, path: Path, tasks: nat, query: nat,
                                              parts: PartitionCount, width: Shape -> nat, next: nat)
    requires WellFormed(p) && ByShape(parts, width) && i <= |p.children|
    ensures UpChildren(p, i, path, tasks, PrepareNode(query, parts), next).0.Success? <==>
            forall c | i <= c < |p.children| :: Preparable(p.children[c], ChildTaskCount(p.op, tasks, c), width)
    decreases p, 0, |p.children| - i
  {
    if i < |p.children| {
      var f, n := PrepareNode(query, parts), ChildTaskCount(p.op, tasks, i);
      PreparesIffPreparable(p.children[i], path + [i], n, query, parts, width, next);
      var (t, mid) := Up(p.children[i], path + [i], n, f, next);
      if t.Success? {
        ChildrenPrepareIff(p, i + 1, path, tasks, query, parts, width, mid);
      }
    }
  }

  /** Every local stage belongs to the query. */
  predicate OfQuery(p: Plan, query: nat)
    decreases p
  {
    && (p.op.Boundary? && p.op.stage.Local? ==> p.op.stage.query == query)
    && forall c | 0 <= c < |p.children| :: OfQuery(p.children[c], query)
  }

  lemma {:induction false} UpStamps(p: Plan, path: Path, tasks: nat, query: nat, parts: PartitionCount, next: nat)
    requires WellFormed(p)
    ensures var t := Up(p, path, tasks, PrepareNode(query, parts), next).0;
            t.Success? ==> OfQuery(t.value.data, query)
    decreases p, 1, 0
  {
    var f := PrepareNode(query, parts);
    var kids := UpChildren(p, 0, path, tasks, f, next).0;
    UpChildrenStamp(p, 0, path, tasks, query, parts, next);
    UpChildrenPrepares(p, 0, path, tasks, query, parts, next);
    if kids.Success? {
      assert p.children[0..] == p.children && ChildCounts(p, tasks)[0..] == ChildCounts(p, tasks);
      assert Rebuilt(p, kids.value.children, kids.value.changed) == Plan(p.op, kids.value.children);
      NodeStamped(p.op, kids.value.children, tasks, UpChildren(p, 0, path, tasks, f, next).1, query, parts);
    }
  }

  lemma NodeStamped(op: Op, rs: seq<Plan>, tasks: nat, next: nat, query: nat, parts: PartitionCount)
    requires op.Boundary? ==> |rs| == if op.stage.Local? then 1 else 0
    requires forall c | 0 <= c < |rs| :: OfQuery(rs[c], query)
    ensures var t := PrepareStep(Plan(op, rs), tasks, next, query, parts).0;
            t.Success? ==> OfQuery(t.value.data, query)
  {
  }

  lemma {:induction false} UpChildrenStamp(p: Plan, i: nat, path: Path, tasks: nat, query: nat, parts: PartitionCount,
                                           next: nat)
    requires WellFormed(p) && i <= |p.children|
    ensures var k := UpChildren(p, i, path, tasks, PrepareNode(query, parts), next).0;
            k.Success? ==> forall c | 0 <= c < |k.value.children| :: OfQuery(k.value.children[c], query)
    decreases p, 0, |p.children| - i
  {
    if i < |p.children| {
      var f, n := PrepareNode(query, parts), ChildTaskCount(p.op, tasks, i);
      UpStamps(p.children[i], path + [i], n, query, parts, next);
      var (t, mid) := Up(p.children[i], path + [i], n, f, next);
      if t.Success? {
        UpChildrenStamp(p, i + 1, path, tasks, query, parts, mid);
      }
    }
  }

  /** Boundary preparation: exactly the boundaries from one task to one task disappear; every other
      operator keeps its place and, recomputed on the result, its task count; every surviving
      boundary has the head it needs and belongs to the query; and an all-local plan's surviving stages are numbered
      1, 2, ... without gaps, each above the stages nested in its input. */
  lemma PreparationIsFaithful(plan: Plan, query: nat, parts: PartitionCount)
    requires WellFormed(plan) && Up(plan, [], 1, PrepareNode(query, parts), 1).0.Success?
    ensures var (t, next) := Up(plan, [], 1, PrepareNode(query, parts), 1);
            var r := t.value.data;
            && NoTrivial(r, 1) && ShapeOf(r, 1) == Wanted(plan, 1) && HeadsMatch(r, 1, parts) && OfQuery(r, query)
            && (AllLocal(plan) ==> next >= 1 && Nums(r) == Count(1, next) && NestedBelow(r))
  {
    UpPrepares(plan, [], 1, query, parts, 1);
    UpStamps(plan, [], 1, query, parts, 1);
    var (t, next) := Up(plan, [], 1, PrepareNode(query, parts), 1);
    if AllLocal(plan) {
      assert Increasing(Count(1, next));
      IncreasingNests(t.value.data);
    }
  }
}
