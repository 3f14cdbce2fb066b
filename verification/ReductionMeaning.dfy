/** Partial reduction changes neither the groups' values nor where any key is sent. */
module ReductionMeaning {
  import opened Wrappers
  import opened Plans
  import opened Bags
  import opened PartialReduction
  import opened AggregateStates

  /** The rows of each task and partition. */
  type Grid<S(==)> = map<(nat, nat), Bag<S>>

  /** How each aggregation merges states; which cells a boundary, a coalesce or a repartition has and
      which of its input's cells each of them reads; the partition a repartition sends a row to; and
      what all other operators do. */
  datatype Env<!S(==)> = Env(
    merge: nat -> Merge<S>,
    cells: Op -> set<(nat, nat)>,
    sources: (Op, (nat, nat)) -> seq<(nat, nat)>,
    partition: (Op, Row<S>) -> nat,
    other: (Op, seq<Grid<S>>) -> Grid<S>)

  ghost predicate Valid<S(!new)>(env: Env<S>) {
    forall spec :: Commutative(env.merge(spec))
  }

  ghost function Cell<S>(g: Grid<S>, cell: (nat, nat)): (rows: Bag<S>) {
    if cell in g then g[cell] else multiset{}
  }

  ghost function Read<S>(sources: seq<(nat, nat)>, g: Grid<S>): (rows: Bag<S>) {
    if sources == [] then multiset{} else Cell(g, sources[0]) + Read(sources[1..], g)
  }

  ghost function Exchanged<S>(op: Op, g: Grid<S>, env: Env<S>): (r: Grid<S>) {
    map cell | cell in env.cells(op) :: Read(env.sources(op, cell), g)
  }

  /** The rows that go to partition `j`. */
  ghost function To<S>(op: Op, j: nat, env: Env<S>): (keep: Row<S> -> bool) {
    (r: Row<S>) => env.partition(op, r) == j
  }

  ghost function Routed<S(!new)>(op: Op, g: Grid<S>, env: Env<S>): (r: Grid<S>) {
    map cell | cell in env.cells(op) :: Kept(Read(env.sources(op, cell), g), To(op, cell.1, env))
  }

  ghost function ReducedGrid<S(!new)>(g: Grid<S>, m: Merge<S>): (r: Grid<S>) {
    map cell | cell in g :: Reduced(g[cell], m)
  }

  ghost function FinishedGrid<S(!new)>(g: Grid<S>, m: Merge<S>): (r: Grid<S>) {
    map cell | cell in g :: Finished(g[cell], m)
  }

  /** Boundaries and unlimited coalesces only move rows. */
  predicate Moves(op: Op) {
    op.Boundary? || op == Coalesce(None)
  }

  ghost function Combine<S(!new)>(op: Op, inputs: seq<Grid<S>>, env: Env<S>): (g: Grid<S>) {
    if |inputs| != 1 then env.other(op, inputs)
    else if Moves(op) then Exchanged(op, inputs[0], env)
    else if Routes(op) then Routed(op, inputs[0], env)
    else if op.Aggregate? && op.mode == PartialReduce then ReducedGrid(inputs[0], env.merge(op.spec))
    else if op.Aggregate? && op.mode == Final then FinishedGrid(inputs[0], env.merge(op.spec))
    else env.other(op, inputs)
  }

  ghost function Rows<S(!new)>(p: Plan, env: Env<S>): (g: Grid<S>)
    decreases p, 1
  {
    Combine(p.op, RowsAll(p.children, env), env)
  }

  ghost function RowsAll<S(!new)>(cs: seq<Plan>, env: Env<S>): (gs: seq<Grid<S>>)
    ensures |gs| == |cs|
    decreases cs, 0
  {
    if cs == [] then [] else [Rows(cs[0], env)] + RowsAll(cs[1..], env)
  }

  // ---------------------------------------------------------------- covered plans

  function SpecOf(p: Plan): (spec: nat)
    requires Reducible(p)
  {
    p.children[0].children[0].op.spec
  }

  /** The repartition sends rows of one group to one partition, as a hash of group columns does, salted
      or not. */
  ghost predicate RoutesByKey<S(!new)>(op: Op, env: Env<S>) {
    Routes(op) && forall j :: ByKey(To(op, j, env))
  }

  /** The operator passes states on without splitting a group within what it reads. */
  ghost predicate Carries<S(!new)>(op: Op, env: Env<S>) {
    Moves(op) || RoutesByKey(op, env)
  }

  /** The aggregation whose reduced states come out of the plan, if any do. */
  ghost function Carried<S(!new)>(p: Plan, env: Env<S>): (spec: Option<nat>)
    decreases p
  {
    if Reducible(p) then Some(SpecOf(p))
    else if Carries(p.op, env) && |p.children| == 1 then Carried(p.children[0], env)
    else None
  }

  /** Reduced states reach the final aggregation of the same aggregates through boundaries, coalesces
      and repartitions by key. */
  ghost predicate FinallyAggregated<S(!new)>(p: Plan, env: Env<S>)
    decreases p
  {
    forall c | 0 <= c < |p.children| ::
      && FinallyAggregated(p.children[c], env)
      && var spec := Carried(p.children[c], env);
         spec.Some? ==> |p.children| == 1 && (Carries(p.op, env) || p.op == Aggregate(Final, spec.value))
  }

  // ---------------------------------------------------------------- grids

  ghost predicate SameGrid<S(!new)>(a: Grid<S>, b: Grid<S>, m: Merge<S>) {
    a.Keys == b.Keys && forall cell | cell in a :: SameStates(a[cell], b[cell], m)
  }

  lemma {:induction false} ReadReduced<S(!new)>(sources: seq<(nat, nat)>, g: Grid<S>, m: Merge<S>)
    requires Commutative(m)
    ensures SameStates(Read(sources, ReducedGrid(g, m)), Read(sources, g), m)
  {
    if sources != [] {
      var cell, reduced := sources[0], ReducedGrid(g, m);
      ReadReduced(sources[1..], g, m);
      if cell in g {
        ReducedHasSameStates(g[cell], m);
      }
      SameStatesSum(Cell(reduced, cell), Cell(g, cell), Read(sources[1..], reduced), Read(sources[1..], g), m);
    }
  }

  lemma ExchangeReduced<S(!new)>(op: Op, g: Grid<S>, m: Merge<S>, env: Env<S>)
    requires Commutative(m)
    ensures SameGrid(Exchanged(op, ReducedGrid(g, m), env), Exchanged(op, g, env), m)
  {
    forall cell | cell in env.cells(op)
      ensures SameStates(Exchanged(op, ReducedGrid(g, m), env)[cell], Exchanged(op, g, env)[cell], m)
    {
      ReadReduced(env.sources(op, cell), g, m);
    }
  }

  lemma FinishedCell<S(!new)>(a: Grid<S>, b: Grid<S>, m: Merge<S>, cell: (nat, nat))
    requires SameGrid(a, b, m) && cell in a
    ensures FinishedGrid(a, m)[cell] == FinishedGrid(b, m)[cell]
  {
    SameStatesFinish(a[cell], b[cell], m);
  }

  lemma {:induction false} ReadSame<S(!new)>(sources: seq<(nat, nat)>, a: Grid<S>, b: Grid<S>, m: Merge<S>)
    requires Commutative(m) && SameGrid(a, b, m)
    ensures SameStates(Read(sources, a), Read(sources, b), m)
  {
    if sources != [] {
      var cell := sources[0];
      ReadSame(sources[1..], a, b, m);
      assert SameStates(Cell(a, cell), Cell(b, cell), m);
      SameStatesSum(Cell(a, cell), Cell(b, cell), Read(sources[1..], a), Read(sources[1..], b), m);
    }
  }

  lemma CarrierKeeps<S(!new)>(op: Op, a: Grid<S>, b: Grid<S>, m: Merge<S>, env: Env<S>)
    requires Commutative(m) && SameGrid(a, b, m) && Carries(op, env)
    ensures SameGrid(Combine(op, [a], env), Combine(op, [b], env), m)
  {
    var x, y := Combine(op, [a], env), Combine(op, [b], env);
    forall cell | cell in env.cells(op) ensures SameStates(x[cell], y[cell], m) {
      ReadSame(env.sources(op, cell), a, b, m);
      if !Moves(op) {
        var keep := To(op, cell.1, env);
        assert ByKey(keep);
        SameStatesKept(Read(env.sources(op, cell), a), Read(env.sources(op, cell), b), keep, m);
      }
    }
  }

  lemma SameGridFinishes<S(!new)>(a: Grid<S>, b: Grid<S>, m: Merge<S>)
    requires SameGrid(a, b, m)
    ensures FinishedGrid(a, m) == FinishedGrid(b, m)
  {
    var fa, fb := FinishedGrid(a, m), FinishedGrid(b, m);
    assert fa.Keys == a.Keys && fb.Keys == b.Keys;
    forall cell | cell in fa ensures fa[cell] == fb[cell] {
      FinishedCell(a, b, m, cell);
    }
  }

  lemma RowsOne<S(!new)>(op: Op, c: Plan, env: Env<S>)
    ensures Rows(Plan(op, [c]), env) == Combine(op, [Rows(c, env)], env)
  {
    assert RowsAll([c], env) == [Rows(c, env)] + RowsAll([c][1..], env) == [Rows(c, env)];
  }

  // ---------------------------------------------------------------- the main result

  /** Rewriting below a node does not change whether the pass reduces it. */
  lemma ReducibleBelow(p: Plan)
    ensures Reducible(Plan(p.op, ReduceAll(p.children))) == Reducible(p)
    ensures Reducible(p) ==> SpecOf(Plan(p.op, ReduceAll(p.children))) == SpecOf(p)
  {
    if |p.children| == 1 {
      var c := p.children[0];
      assert ReduceAll(p.children)[0] == PartialReduceBelowShuffles(c);
      ReduceUnfolds(c);
      if c.op.Repartition? && |c.children| == 1 {
        assert ReduceAll(c.children)[0] == PartialReduceBelowShuffles(c.children[0]);
        ReduceUnfolds(c.children[0]);
      }
    }
  }

  /** What the pass may change: where reduced states come out there may be fewer rows, but in every cell
      the same keys with the same merged states. Everything else stays equal. */
  ghost predicate Preserved<S(!new)>(p: Plan, env: Env<S>) {
    var before, after := Rows(p, env), Rows(PartialReduceBelowShuffles(p), env);
    match Carried(p, env)
    case Some(spec) => SameGrid(after, before, env.merge(spec))
    case None => after == before
  }

  /** Partial reduction preserves results: for any commutative merge and any assignment of keys to
      partitions. */
  lemma {:induction false} ReductionPreservesResults<S(!new)>(p: Plan, env: Env<S>)
    requires Valid(env) && FinallyAggregated(p, env)
    ensures Preserved(p, env)
    decreases p, 1
  {
    if Reducible(p) {
      ReductionPreservesResults(p.children[0], env);
      ReducedBoundary(p, env);
    } else if |p.children| == 1 && Carried(p.children[0], env).Some? {
      ReductionPreservesResults(p.children[0], env);
      CarriedInput(p, env);
    } else {
      ReduceUnfolds(p);
      ReducibleBelow(p);
      ReductionPreservesInputs(p.children, env);
    }
  }

  lemma CarriedInput<S(!new)>(p: Plan, env: Env<S>)
    requires Valid(env) && FinallyAggregated(p, env) && !Reducible(p)
    requires |p.children| == 1 && Carried(p.children[0], env).Some? && Preserved(p.children[0], env)
    ensures Preserved(p, env)
  {
    var c := p.children[0];
    var r, spec := PartialReduceBelowShuffles(c), Carried(c, env).value;
    ReduceUnfolds(p);
    ReducibleBelow(p);
    assert p == Plan(p.op, [c]);
    assert ReduceAll(p.children) == [r] + ReduceAll(p.children[1..]) == [r];
    RowsOne(p.op, c, env);
    RowsOne(p.op, r, env);
    if Carries(p.op, env) {
      CarrierKeeps(p.op, Rows(r, env), Rows(c, env), env.merge(spec), env);
    } else {
      SameGridFinishes(Rows(r, env), Rows(c, env), env.merge(spec));
    }
  }

  /** Below a boundary the pass reduces, it puts the reduction on top of what it made of the input. */
  lemma ReducedShape(p: Plan)
    requires Reducible(p)
    ensures p == Plan(p.op, [p.children[0]])
    ensures PartialReduceBelowShuffles(p) ==
            Plan(p.op, [Plan(Aggregate(PartialReduce, SpecOf(p)), [PartialReduceBelowShuffles(p.children[0])])])
  {
    var r := PartialReduceBelowShuffles(p.children[0]);
    ReduceUnfolds(p);
    ReducibleBelow(p);
    assert ReduceAll(p.children) == [r] + ReduceAll(p.children[1..]) == [r];
  }

  lemma CombineReduces<S(!new)>(spec: nat, g: Grid<S>, env: Env<S>)
    ensures Combine(Aggregate(PartialReduce, spec), [g], env) == ReducedGrid(g, env.merge(spec))
  {
  }

  lemma CombineMoves<S(!new)>(op: Op, g: Grid<S>, env: Env<S>)
    requires Moves(op)
    ensures Combine(op, [g], env) == Exchanged(op, g, env)
  {
  }

  lemma ReducedRows<S(!new)>(op: Op, spec: nat, c: Plan, env: Env<S>)
    requires Moves(op)
    ensures Rows(Plan(op, [Plan(Aggregate(PartialReduce, spec), [c])]), env) ==
            Exchanged(op, ReducedGrid(Rows(c, env), env.merge(spec)), env)
  {
    var reduce := Plan(Aggregate(PartialReduce, spec), [c]);
    RowsOne(reduce.op, c, env);
    CombineReduces(spec, Rows(c, env), env);
    RowsOne(op, reduce, env);
    CombineMoves(op, Rows(reduce, env), env);
  }

  lemma NothingCarriedBelow<S(!new)>(p: Plan, env: Env<S>)
    requires Reducible(p)
    ensures Carried(p.children[0], env).None?
  {
    assert Carried(p.children[0].children[0], env).None?;
  }

  lemma ReducedBoundary<S(!new)>(p: Plan, env: Env<S>)
    requires Valid(env) && Reducible(p) && Preserved(p.children[0], env)
    ensures Preserved(p, env)
  {
    var c, spec := p.children[0], SpecOf(p);
    NothingCarriedBelow(p, env);
    ReducedShape(p);
    RowsOne(p.op, c, env);
    ReducedRows(p.op, spec, PartialReduceBelowShuffles(c), env);
    ExchangeReduced(p.op, Rows(c, env), env.merge(spec), env);
  }

  lemma {:induction false} ReductionPreservesInputs<S(!new)>(cs: seq<Plan>, env: Env<S>)
    requires Valid(env) && forall c | 0 <= c < |cs| :: FinallyAggregated(cs[c], env) && Carried(cs[c], env).None?
    ensures RowsAll(ReduceAll(cs), env) == RowsAll(cs, env)
    decreases cs, 0
  {
    if cs != [] {
      ReductionPreservesResults(cs[0], env);
      ReductionPreservesInputs(cs[1..], env);
      var rs := ReduceAll(cs);
      assert rs[0] == PartialReduceBelowShuffles(cs[0]) && rs[1..] == ReduceAll(cs[1..]);
    }
  }

  /** A two-phase shuffle, with its repartition above the boundary, is reduced and covered. */
  lemma TwoPhaseIsCovered<S(!new)>(spec: nat, leaf: Plan, exprs: seq<HashExpr>, salt: nat, n: nat, k: nat,
                                   stage: Stage, env: Env<S>)
    requires FinallyAggregated(leaf, env) && Carried(leaf, env).None?
    requires RoutesByKey(Repartition(Hash(exprs, n), false), env)
    ensures var partial := Plan(Aggregate(Partial, spec), [leaf]);
            var salted := Plan(Repartition(Hash(exprs + [Salt(salt)], k), false), [partial]);
            var shuffle := Plan(Boundary(NetworkShuffle(Hash(exprs, n), false, TwoPhase(salt)), stage), [salted]);
            var again := Plan(Repartition(Hash(exprs, n), false), [shuffle]);
            var whole := Plan(Aggregate(Final, spec), [again]);
            Reducible(shuffle) && FinallyAggregated(whole, env) && Carried(whole, env).None?
  {
    var partial := Plan(Aggregate(Partial, spec), [leaf]);
    var salted := Plan(Repartition(Hash(exprs + [Salt(salt)], k), false), [partial]);
    assert Carried(partial, env).None? && FinallyAggregated(partial, env);
    assert Carried(salted, env).None? && FinallyAggregated(salted, env);
    var shuffle := Plan(Boundary(NetworkShuffle(Hash(exprs, n), false, TwoPhase(salt)), stage), [salted]);
    assert Carried(shuffle, env) == Some(spec) && FinallyAggregated(shuffle, env);
    var again := Plan(Repartition(Hash(exprs, n), false), [shuffle]);
    assert Carried(again, env) == Some(spec) && FinallyAggregated(again, env);
  }
}
