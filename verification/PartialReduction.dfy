/** Merging partial aggregation states before they are shuffled. */
module PartialReduction {
  import opened Wrappers
  import opened Plans
  import T = TransformUp

  /** What the pass does at one node: a boundary over a hash repartition of partial aggregates gets a
      partial reduction in between. */
  predicate Reducible(p: Plan) {
    && p.op.Boundary? && |p.children| == 1
    && HashedPartials(p.children[0])
  }

  predicate HashedPartials(c: Plan) {
    && c.op.Repartition? && c.op.partitioning.Hash? && |c.children| == 1
    && c.children[0].op.Aggregate? && c.children[0].op.mode == Partial
  }

  function ReduceNode(p: Plan): (t: Transformed) {
    if Reducible(p) then
      var partial := p.children[0].children[0].op;
      Transformed(Plan(p.op, [Plan(Aggregate(PartialReduce, partial.spec), p.children)]), true, Continue)
    else Transformed(p, false, Continue)
  }

  /** The pass, bottom-up. */
  function PartialReduceBelowShuffles(p: Plan): (r: Plan) {
    T.TransformUp(p, ReduceNode).data
  }

  function ReduceAll(cs: seq<Plan>): (rs: seq<Plan>)
    ensures |rs| == |cs|
  {
    if cs == [] then [] else [PartialReduceBelowShuffles(cs[0])] + ReduceAll(cs[1..])
  }

  /** The traversal rewrites all children, then the node. */
  lemma {:induction false} ReduceUnfolds(p: Plan)
    ensures var t := T.TransformUp(p, ReduceNode);
            t.signal == Continue && (!t.changed ==> t.data == p)
            && t.data == ReduceNode(Plan(p.op, ReduceAll(p.children))).data
    decreases p, 1
  {
    ReduceAllUnfolds(p.children);
  }

  lemma {:induction false} ReduceAllUnfolds(cs: seq<Plan>)
    ensures var m := T.MapUntilStop(cs, Continue, ReduceNode);
            m.children == ReduceAll(cs) && m.signal == Continue && (!m.changed ==> m.children == cs)
    decreases cs, 0
  {
    if cs != [] {
      ReduceUnfolds(cs[0]);
      ReduceAllUnfolds(cs[1..]);
    }
  }

  /** The partial aggregation whose hash-repartitioned rows a boundary reads directly, if it does. */
  function PartialsUnder(p: Plan): (spec: Option<nat>) {
    match p.op
    case Boundary(_, _) => if |p.children| == 1 then HashedSpec(p.children[0]) else None
    case _ => None
  }

  function HashedSpec(p: Plan): (spec: Option<nat>) {
    match p.op
    case Repartition(Hash(_, _), _) => if |p.children| == 1 then PartialSpec(p.children[0].op) else None
    case _ => None
  }

  function PartialSpec(op: Op): (spec: Option<nat>) {
    match op
    case Aggregate(Partial, spec) => Some(spec)
    case _ => None
  }

  /** `r` is `p` with a reduction of the same aggregates above every hash repartition of partial
      aggregates that a boundary reads, and nothing else. */
  ghost predicate ReducesTo(p: Plan, r: Plan)
    decreases p
  {
    && r.op == p.op && |r.children| == |p.children|
    && match PartialsUnder(p)
       case Some(spec) =>
         && r.children[0].op == Aggregate(PartialReduce, spec) && |r.children[0].children| == 1
         && |p.children| == 1 && ReducesTo(p.children[0], r.children[0].children[0])
       case None => forall c | 0 <= c < |p.children| :: ReducesTo(p.children[c], r.children[c])
  }

  /** The pass reduces exactly there. */
  lemma {:induction false} ReductionIsExact(p: Plan)
    ensures ReducesTo(p, PartialReduceBelowShuffles(p))
    decreases p, 1
  {
    ReduceUnfolds(p);
    ReducedInputs(p.children);
    var q := Plan(p.op, ReduceAll(p.children));
    ReducibleIff(p, q);
  }

  lemma {:induction false} ReducedInputs(cs: seq<Plan>)
    ensures forall c | 0 <= c < |cs| ::
              ReducesTo(cs[c], ReduceAll(cs)[c]) && ReduceAll(cs)[c] == PartialReduceBelowShuffles(cs[c])
    decreases cs, 0
  {
    if cs != [] {
      ReductionIsExact(cs[0]);
      ReducedInputs(cs[1..]);
      var rs := ReduceAll(cs);
      forall c | 0 < c < |cs| ensures ReducesTo(cs[c], rs[c]) && rs[c] == PartialReduceBelowShuffles(cs[c]) {
        assert cs[c] == cs[1..][c - 1] && rs[c] == ReduceAll(cs[1..])[c - 1];
      }
    }
  }

  /** Rewriting the inputs does not change what a boundary reads. */
  lemma ReducibleIff(p: Plan, q: Plan)
    requires q == Plan(p.op, ReduceAll(p.children))
    ensures Reducible(q) <==> PartialsUnder(p).Some?
    ensures Reducible(q) ==> |p.children| == 1 && q.children[0].children[0].op.spec == PartialsUnder(p).value
  {
    if p.op.Boundary? && |p.children| == 1 {
      var c := p.children[0];
      assert q.children[0] == PartialReduceBelowShuffles(c);
      ReduceUnfolds(c);
      if !c.op.Boundary? && |c.children| == 1 {
        assert ReduceAll(c.children)[0] == PartialReduceBelowShuffles(c.children[0]);
        ReduceUnfolds(c.children[0]);
      }
    }
  }

  lemma ReduceOne(op: Op, c: Plan)
    requires !op.Boundary? || !HashedPartials(PartialReduceBelowShuffles(c))
    ensures PartialReduceBelowShuffles(Plan(op, [c])) == Plan(op, [PartialReduceBelowShuffles(c)])
  {
    ReduceUnfolds(Plan(op, [c]));
    assert ReduceAll([c]) == [PartialReduceBelowShuffles(c)] + ReduceAll([c][1..]);
  }

  /** A second run changes nothing. */
  lemma {:induction false} ReductionIsIdempotent(p: Plan)
    ensures PartialReduceBelowShuffles(PartialReduceBelowShuffles(p)) == PartialReduceBelowShuffles(p)
    decreases p, 1
  {
    var cs := ReduceAll(p.children);
    var q := Plan(p.op, cs);
    ReduceUnfolds(p);
    ReduceAllIsIdempotent(p.children);
    if Reducible(q) {
      var c, reduce := cs[0], Aggregate(PartialReduce, cs[0].children[0].op.spec);
      assert cs == [c] && ReduceAll(cs)[0] == PartialReduceBelowShuffles(c);
      ReduceOne(reduce, c);
      ReduceOne(p.op, Plan(reduce, [c]));
    } else {
      ReduceUnfolds(q);
    }
  }

  lemma {:induction false} ReduceAllIsIdempotent(cs: seq<Plan>)
    ensures ReduceAll(ReduceAll(cs)) == ReduceAll(cs)
    decreases cs, 0
  {
    if cs != [] {
      ReductionIsIdempotent(cs[0]);
      ReduceAllIsIdempotent(cs[1..]);
      var rs := ReduceAll(cs);
      assert rs[0] == PartialReduceBelowShuffles(cs[0]) && rs[1..] == ReduceAll(cs[1..]);
    }
  }
}
