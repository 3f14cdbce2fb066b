/** A plan's life as stages: prepared, cut apart to be sent away, and put back together. */
module StagedPlans {
  import opened Wrappers
  import opened Plans
  import opened TaskCounts
  import opened NetworkBoundaries
  import opened PrepareBoundaries
  import opened Reconstruction
  import T = TransformUp

  // ---------------------------------------------------------------- sending stages away

  /** The static coordinator's rewrite: once a boundary's stage is sent, the boundary is remote. */
  function SendStage(p: Plan): (t: Transformed) {
    if p.op.Boundary? then Transformed(Cut(p), true, Continue) else Transformed(p, false, Continue)
  }

  /** Sending cuts the plan at every boundary. */
  lemma {:induction false} SendingCuts(p: Plan)
    ensures var t := T.TransformUp(p, SendStage);
            t.data == Cut(p) && t.signal == Continue && (!t.changed ==> Cut(p) == p)
    decreases p, 1
  {
    SendingCutsAll(p.children);
  }

  lemma {:induction false} SendingCutsAll(cs: seq<Plan>)
    ensures var m := T.MapUntilStop(cs, Continue, SendStage);
            m.children == CutAll(cs) && m.signal == Continue && (!m.changed ==> CutAll(cs) == cs)
    decreases cs, 0
  {
    if cs != [] {
      SendingCuts(cs[0]);
      SendingCutsAll(cs[1..]);
    }
  }

  // ---------------------------------------------------------------- stage numbers

  /** The stages a plan is cut into are the numbered ones. */
  lemma {:induction false} StagesAreNumbered(p: Plan)
    requires WellFormed(p) && AllLocal(p)
    ensures StagesOf(p).Keys == (set n | n in Nums(p))
    decreases p, 1
  {
    StagesAreNumberedAll(p.children);
  }

  lemma {:induction false} StagesAreNumberedAll(cs: seq<Plan>)
    requires Whole(cs)
    ensures StagesAll(cs).Keys == (set n | n in NumsAll(cs))
    decreases cs, 0
  {
    if cs != [] {
      StagesAreNumbered(cs[0]);
      StagesAreNumberedAll(cs[1..]);
    }
  }

  lemma {:induction false} IncreasingIsWellNumbered(p: Plan)
    requires WellFormed(p) && AllLocal(p) && Increasing(Nums(p))
    ensures WellNumbered(p)
    decreases p, 1
  {
    var below := NumsAll(p.children);
    assert forall i | 0 <= i < |below| :: Nums(p)[i] == below[i];
    StagesAreNumberedAll(p.children);
    IncreasingIsWellNumberedAll(p.children);
    if p.op.Boundary? {
      assert Nums(p)[|below|] == p.op.stage.num;
    }
  }

  lemma {:induction false} IncreasingIsWellNumberedAll(cs: seq<Plan>)
    requires Whole(cs) && Increasing(NumsAll(cs))
    ensures WellNumberedAll(cs)
    decreases cs, 0
  {
    if cs != [] {
      var first, rest := Nums(cs[0]), NumsAll(cs[1..]);
      assert forall i | 0 <= i < |first| :: NumsAll(cs)[i] == first[i];
      assert forall i | 0 <= i < |rest| :: NumsAll(cs)[|first| + i] == rest[i];
      IncreasingIsWellNumbered(cs[0]);
      IncreasingIsWellNumberedAll(cs[1..]);
      StagesAreNumbered(cs[0]);
      StagesAreNumberedAll(cs[1..]);
    }
  }

  // ---------------------------------------------------------------- prepared plans are normal

  /** A coalesce boundary asks for no head, and its input has none. */
  predicate CoalescesBare(p: Plan)
    decreases p
  {
    && (p.op.Boundary? && p.op.kind.NetworkCoalesce? && |p.children| == 1 ==> !HasHead(p.children[0]))
    && forall c | 0 <= c < |p.children| :: CoalescesBare(p.children[c])
  }

  /** A boundary offers the partitions of its stage whether the stage is local or remote. */
  ghost predicate StablePartitions(parts: PartitionCount) {
    forall p :: parts(Cut(p)) == parts(p)
  }

  lemma {:induction false} MatchedIsNormal(p: Plan, tasks: nat, parts: PartitionCount)
    requires WellFormed(p) && AllLocal(p) && HeadsMatch(p, tasks, parts) && CoalescesBare(p) && StablePartitions(parts)
    ensures Normalise(p, tasks, parts) == Success(p)
    decreases Size(p), 0
  {
    if p.op.Boundary? {
      var input := p.children[0];
      var bare := StripHead(input);
      SizeOfChild(p.children, 0);
      SizeStripped(input);
      assert HeadsMatch(input, p.op.stage.tasks, parts);
      MatchedIsNormal(bare, p.op.stage.tasks, parts);
      MatchedHead(p.op.kind, tasks, input, parts);
      assert p.children == [input];
      if HasHead(input) {
        assert input.children == [bare];
      }
    } else {
      forall c | 0 <= c < |p.children|
        ensures HeadsMatch(p.children[c], ChildCounts(p, tasks)[c], parts) && CoalescesBare(p.children[c])
      {
        assert HeadsMatch(p.children[c], ChildTaskCount(p.op, tasks, c), parts);
      }
      MatchedAreNormal(p.children, ChildCounts(p, tasks), parts);
    }
  }

  lemma {:induction false} MatchedAreNormal(cs: seq<Plan>, counts: seq<nat>, parts: PartitionCount)
    requires |counts| == |cs| && Whole(cs) && StablePartitions(parts)
    requires forall c | 0 <= c < |cs| :: HeadsMatch(cs[c], counts[c], parts) && CoalescesBare(cs[c])
    ensures NormaliseAll(cs, counts, parts) == Success(cs)
    decreases SizeAll(cs), 1
  {
    if cs != [] {
      MatchedIsNormal(cs[0], counts[0], parts);
      forall c | 0 <= c < |cs[1..]| ensures HeadsMatch(cs[1..][c], counts[1..][c], parts) && CoalescesBare(cs[1..][c]) {
        assert HeadsMatch(cs[c + 1], counts[c + 1], parts);
      }
      MatchedAreNormal(cs[1..], counts[1..], parts);
      assert [cs[0]] + cs[1..] == cs;
    }
  }

  // ---------------------------------------------------------------- and only those with bare coalesces

  lemma {:induction false} NormaliseShrinks(p: Plan, tasks: nat, parts: PartitionCount)
    requires WellFormed(p) && AllLocal(p) && HeadsMatch(p, tasks, parts)
    ensures var r := Normalise(p, tasks, parts);
            r.Success? ==> Size(r.value) <= Size(p) && (!CoalescesBare(p) ==> Size(r.value) < Size(p))
    decreases Size(p), 1
  {
    if p.op.Boundary? {
      BoundaryShrinks(p, tasks, parts);
    } else {
      forall c | 0 <= c < |p.children| ensures HeadsMatch(p.children[c], ChildCounts(p, tasks)[c], parts) {
        assert HeadsMatch(p.children[c], ChildTaskCount(p.op, tasks, c), parts);
      }
      NormaliseShrinksAll(p.children, ChildCounts(p, tasks), parts);
    }
  }

  lemma {:induction false} NormaliseShrinksAll(cs: seq<Plan>, counts: seq<nat>, parts: PartitionCount)
    requires |counts| == |cs| && Whole(cs) && forall c | 0 <= c < |cs| :: HeadsMatch(cs[c], counts[c], parts)
    ensures var r := NormaliseAll(cs, counts, parts);
            r.Success? ==>
              && SizeAll(r.value) <= SizeAll(cs)
              && ((exists c :: 0 <= c < |cs| && !CoalescesBare(cs[c])) ==> SizeAll(r.value) < SizeAll(cs))
    decreases SizeAll(cs), 2
  {
    if cs != [] {
      NormaliseShrinks(cs[0], counts[0], parts);
      forall c | 0 <= c < |cs[1..]| ensures HeadsMatch(cs[1..][c], counts[1..][c], parts) {
        assert HeadsMatch(cs[c + 1], counts[c + 1], parts);
      }
      NormaliseShrinksAll(cs[1..], counts[1..], parts);
      if c :| 0 <= c < |cs| && !CoalescesBare(cs[c]) {
        assert c > 0 ==> cs[1..][c - 1] == cs[c];
      }
    }
  }

  lemma {:induction false} BoundaryShrinks(p: Plan, tasks: nat, parts: PartitionCount)
    requires WellFormed(p) && AllLocal(p) && HeadsMatch(p, tasks, parts) && p.op.Boundary?
    ensures var r := Normalise(p, tasks, parts);
            r.Success? ==> Size(r.value) <= Size(p) && (!CoalescesBare(p) ==> Size(r.value) < Size(p))
    decreases Size(p), 0
  {
    var input, n := p.children[0], p.op.stage.tasks;
    var bare := StripHead(input);
    assert p.children == [input] && HeadsMatch(input, n, parts);
    SizeOfOne(p.op, input);
    if HasHead(input) {
      assert input.children == [bare];
      SizeOfOne(input.op, bare);
    }
    assert CoalescesBare(input) == CoalescesBare(bare);
    NormaliseShrinks(bare, n, parts);
    var r := Normalise(p, tasks, parts);
    if r.Success? {
      var inner := Normalise(bare, n, parts).value;
      var headed := r.value.children[0];
      SizeOfOne(r.value.op, headed);
      if !p.op.kind.NetworkCoalesce? {
        assert headed.children == [inner];
        SizeOfOne(headed.op, inner);
      }
    }
  }

  lemma SizeOfOne(op: Op, c: Plan)
    ensures Size(Plan(op, [c])) == 1 + Size(c)
  {
    assert SizeAll([c]) == Size(c) + SizeAll([c][1..]);
  }

  /** Exactly the plans with matching heads and bare coalesces are what reconstruction gives back. */
  lemma NormalIffBare(p: Plan, tasks: nat, parts: PartitionCount)
    requires WellFormed(p) && AllLocal(p) && HeadsMatch(p, tasks, parts) && StablePartitions(parts)
    ensures Normalise(p, tasks, parts) == Success(p) <==> CoalescesBare(p)
  {
    if CoalescesBare(p) {
      MatchedIsNormal(p, tasks, parts);
    } else {
      NormaliseShrinks(p, tasks, parts);
    }
  }

  // ---------------------------------------------------------------- seen from the plan to be prepared

  /** Below trivial boundaries, no surviving coalesce boundary has one head on top of another. */
  predicate SinglyHeaded(p: Plan, tasks: nat)
    decreases p
  {
    && (p.op.Boundary? && p.op.kind.NetworkCoalesce? && |p.children| == 1 && !Trivial(p, tasks) ==>
          var n := p.op.stage.tasks;
          !HasHead(Skip(StripHead(Skip(p.children[0], n)), n)))
    && forall c | 0 <= c < |p.children| :: SinglyHeaded(p.children[c], ChildTaskCount(p.op, tasks, c))
  }

  /** The heads at the top of a prepared plan, and under its coalesces, as seen from the original. */
  ghost predicate Headed(p: Plan, tasks: nat, r: Plan) {
    && (HasHead(r) <==> HasHead(Skip(p, tasks)))
    && (HasHead(StripHead(r)) <==> HasHead(Skip(StripHead(Skip(p, tasks)), tasks)))
    && (CoalescesBare(r) <==> SinglyHeaded(p, tasks))
  }

  ghost predicate AllHeaded(cs: seq<Plan>, counts: seq<nat>, rs: seq<Plan>) {
    |counts| == |rs| == |cs| && forall c | 0 <= c < |cs| :: Headed(cs[c], counts[c], rs[c])
  }

  lemma {:induction false} UpHeads(p: Plan, path: Path, tasks: nat, query: nat, parts: PartitionCount, next: nat)
    requires WellFormed(p)
    ensures var t := Up(p, path, tasks, PrepareNode(query, parts), next).0;
            t.Success? ==> Headed(p, tasks, t.value.data)
    decreases p, 1, 0
  {
    var f := PrepareNode(query, parts);
    var (kids, mid) := UpChildren(p, 0, path, tasks, f, next);
    UpChildrenHeads(p, 0, path, tasks, query, parts, next);
    UpChildrenPrepares(p, 0, path, tasks, query, parts, next);
    if kids.Success? {
      assert p.children[0..] == p.children && ChildCounts(p, tasks)[0..] == ChildCounts(p, tasks);
      var rs := kids.value.children;
      assert Rebuilt(p, rs, kids.value.changed) == Plan(p.op, rs);
      NodeHeaded(p, tasks, rs, query, mid, parts);
    }
  }

  lemma NodeHeaded(p: Plan, tasks: nat, rs: seq<Plan>, query: nat, next: nat, parts: PartitionCount)
    requires WellFormed(p) && AllHeaded(p.children, ChildCounts(p, tasks), rs)
    ensures var t := PrepareStep(Plan(p.op, rs), tasks, next, query, parts).0;
            t.Success? ==> Headed(p, tasks, t.value.data)
  {
    if !p.op.Boundary? {
      OrdinaryHeaded(p, tasks, rs);
    } else if p.op.stage.Local? {
      assert Headed(p.children[0], ChildCounts(p, tasks)[0], rs[0]);
      if !Trivial(p, tasks) {
        var input := HeadedInput(p.op.kind, tasks, rs[0], parts);
        if input.Success? {
          SurvivorHeaded(p, tasks, rs[0], query, next, parts, input.value);
        }
      }
    } else {
      assert rs == [];
    }
  }

  lemma {:induction false} UpChildrenHeads(p: Plan, i: nat, path: Path, tasks: nat, query: nat, parts: PartitionCount,
                                           next: nat)
    requires WellFormed(p) && i <= |p.children|
    ensures var k := UpChildren(p, i, path, tasks, PrepareNode(query, parts), next).0;
            k.Success? ==> AllHeaded(p.children[i..], ChildCounts(p, tasks)[i..], k.value.children)
    decreases p, 0, |p.children| - i
  {
    if i < |p.children| {
      var f, n := PrepareNode(query, parts), ChildTaskCount(p.op, tasks, i);
      UpHeads(p.children[i], path + [i], n, query, parts, next);
      var (t, mid) := Up(p.children[i], path + [i], n, f, next);
      if t.Success? {
        UpChildrenHeads(p, i + 1, path, tasks, query, parts, mid);
        var rest := UpChildren(p, i + 1, path, tasks, f, mid).0;
        if rest.Success? {
          var cs, counts, rs := p.children[i..], ChildCounts(p, tasks)[i..], [t.value.data] + rest.value.children;
          forall c | 0 <= c < |cs| ensures Headed(cs[c], counts[c], rs[c]) {
            if c > 0 {
              assert cs[c] == p.children[i + 1..][c - 1] && counts[c] == ChildCounts(p, tasks)[i + 1..][c - 1];
            }
          }
        }
      }
    }
  }

  lemma OrdinaryHeaded(p: Plan, tasks: nat, rs: seq<Plan>)
    requires WellFormed(p) && !p.op.Boundary? && AllHeaded(p.children, ChildCounts(p, tasks), rs)
    ensures Headed(p, tasks, Plan(p.op, rs))
  {
    var r := Plan(p.op, rs);
    forall c | 0 <= c < |rs|
      ensures CoalescesBare(rs[c]) <==> SinglyHeaded(p.children[c], ChildTaskCount(p.op, tasks, c))
    {
      assert Headed(p.children[c], ChildCounts(p, tasks)[c], rs[c]);
    }
    if HasHead(p) {
      assert Headed(p.children[0], ChildCounts(p, tasks)[0], rs[0]);
    }
  }

  lemma SurvivorHeaded(p: Plan, tasks: nat, c: Plan, query: nat, num: nat, parts: PartitionCount, input: Plan)
    requires WellFormed(p) && p.op.Boundary? && p.op.stage.Local? && !Trivial(p, tasks)
    requires Headed(p.children[0], p.op.stage.tasks, c) && HeadedInput(p.op.kind, tasks, c, parts) == Success(input)
    ensures Headed(p, tasks, Stamped(p.op, query, num, input))
  {
    SurvivorBare(p, tasks, c, query, num, parts, input);
    assert Skip(p, tasks) == p && StripHead(p) == p;
  }

  lemma StrippedBare(c: Plan)
    ensures CoalescesBare(StripHead(c)) <==> CoalescesBare(c)
  {
  }

  lemma SurvivorBare(p: Plan, tasks: nat, c: Plan, query: nat, num: nat, parts: PartitionCount, input: Plan)
    requires WellFormed(p) && p.op.Boundary? && p.op.stage.Local? && !Trivial(p, tasks)
    requires Headed(p.children[0], p.op.stage.tasks, c) && HeadedInput(p.op.kind, tasks, c, parts) == Success(input)
    ensures CoalescesBare(Stamped(p.op, query, num, input)) <==> SinglyHeaded(p, tasks)
  {
    var bare, n := StripHead(c), p.op.stage.tasks;
    StrippedBare(c);
    if p.op.kind.NetworkCoalesce? {
      assert input == bare;
    } else {
      assert StripHead(input) == bare;
      StrippedBare(input);
    }
    assert Stamped(p.op, query, num, input).children == [input];
    assert SinglyHeaded(p.children[0], n) <==> CoalescesBare(input);
  }

  // ---------------------------------------------------------------- the round trips

  /** Preparing a plan, sending its stages away in any concurrent schedule and reconstructing it from
      them uses every collected stage, and gives exactly the prepared plan if and only if the plan had
      no stacked heads under a coalesce boundary. */
  lemma StagedRoundTrip(plan: Plan, query: nat, parts: PartitionCount, run: seq<T.Future>)
    requires WellFormed(plan) && AllLocal(plan) && StablePartitions(parts)
    requires var t := Up(plan, [], 1, PrepareNode(query, parts), 1).0;
             && t.Success?
             && T.IsRun(run, SendStage) && run[0] == T.Spawn(t.value.data) && run[|run| - 1].Done?
    ensures Progresses(ReconstructNode(parts), Entries())
    ensures var r := Up(plan, [], 1, PrepareNode(query, parts), 1).0.value.data;
            var sent := run[|run| - 1].result.data;
            var (back, left) := Down(sent, [], 1, ReconstructNode(parts), StagesOf(r), Entries());
            && (back.Success? && back.value.data == r <==> SinglyHeaded(plan, 1))
            && (back.Success? ==> left == map[])
  {
    var (t, next) := Up(plan, [], 1, PrepareNode(query, parts), 1);
    var r := t.value.data;
    UpPrepares(plan, [], 1, query, parts, 1);
    UpHeads(plan, [], 1, query, parts, 1);
    assert Increasing(Count(1, next));
    IncreasingIsWellNumbered(r);
    T.ConcurrentEqualsSequential(r, SendStage, run);
    SendingCuts(r);
    NormalIffBare(r, 1, parts);
    RoundTrip(r, parts);
  }

  /** A coalesce boundary of two tasks over a repartition of a repartition. */
  const Stacked := Plan(Boundary(NetworkCoalesce(1), Local(0, 0, 2)), [TwoHeads])

  const TwoHeads := Plan(Repartition(RoundRobin(2), false), [OneHead])

  const OneHead := Plan(Repartition(RoundRobin(3), false), [Plan(Scan(0), [])])

  /** Preparing it strips one of the two, reconstructing it the other. */
  lemma StackedHeadIsLost(query: nat, parts: PartitionCount)
    ensures WellFormed(Stacked) && AllLocal(Stacked) && !SinglyHeaded(Stacked, 1)
    ensures var prepared := Stamped(Stacked.op, query, 1, OneHead);
            var t := Up(Stacked, [], 1, PrepareNode(query, parts), 1).0;
            && t.Success? && t.value.data == prepared
            && Normalise(prepared, 1, parts) == Success(Stamped(Stacked.op, query, 1, Plan(Scan(0), [])))
  {
    OneHeadPrepared(query, parts);
    var leaf := Plan(Scan(0), []);
    assert ChildCounts(leaf, 2) == [];
    assert Normalise(leaf, 2, parts) == Success(leaf);
  }

  lemma OneHeadPrepared(query: nat, parts: PartitionCount)
    ensures var t := Up(Stacked, [], 1, PrepareNode(query, parts), 1).0;
            t.Success? && t.value.data == Stamped(Stacked.op, query, 1, OneHead)
  {
    assert [] + [0] == [0] && [TwoHeads] + [] == [TwoHeads];
    TwoHeadsUnchanged(query, parts);
    var (kids, next) := UpChildren(Stacked, 0, [], 1, PrepareNode(query, parts), 1);
    assert UpChildren(Stacked, 1, [], 1, PrepareNode(query, parts), 1) == (Success(Mapped([], false, Continue)), 1);
    assert kids == Success(Mapped([TwoHeads], false, Continue)) && next == 1;
    assert PrepareStep(Stacked, 1, 1, query, parts).0.Success?;
  }

  lemma TwoHeadsUnchanged(query: nat, parts: PartitionCount)
    ensures Up(TwoHeads, [0], 2, PrepareNode(query, parts), 1) == (Success(Transformed(TwoHeads, false, Continue)), 1)
  {
    var leaf := Plan(Scan(0), []);
    assert [0] + [0] == [0, 0] && [0, 0] + [0] == [0, 0, 0];
    UpLeaf(leaf, [0, 0, 0], 2, query, parts, 1);
    UpOne(OneHead, [0, 0], 2, query, parts, 1, leaf);
    UpOne(TwoHeads, [0], 2, query, parts, 1, OneHead);
  }

  lemma UpLeaf(p: Plan, path: Path, tasks: nat, query: nat, parts: PartitionCount, next: nat)
    requires p.children == [] && !p.op.Boundary?
    ensures Up(p, path, tasks, PrepareNode(query, parts), next) == (Success(Transformed(p, false, Continue)), next)
  {
  }

  lemma UpOne(p: Plan, path: Path, tasks: nat, query: nat, parts: PartitionCount, next: nat, c: Plan)
    requires p.children == [c] && !p.op.Boundary? && !p.op.Isolator?
    requires Up(c, path + [0], tasks, PrepareNode(query, parts), next) ==
             (Success(Transformed(c, false, Continue)), next)
    ensures Up(p, path, tasks, PrepareNode(query, parts), next) == (Success(Transformed(p, false, Continue)), next)
  {
    assert UpChildren(p, 1, path, tasks, PrepareNode(query, parts), next) ==
           (Success(Mapped([], false, Continue)), next);
  }

  // ---------------------------------------------------------------- the dynamic coordinator

  /** The plan as the dynamic coordinator runs it: with a sampler under the head of every stage. */
  function Sampled(p: Plan): (r: Plan)
    ensures r.op == p.op
    decreases p, 1
  {
    var cs := SampledAll(p.children);
    if p.op.Boundary? && |cs| == 1 then Plan(p.op, [InsertSampler(cs[0])]) else Plan(p.op, cs)
  }

  function SampledAll(cs: seq<Plan>): (rs: seq<Plan>)
    ensures |rs| == |cs|
    decreases cs, 0
  {
    if cs == [] then [] else [Sampled(cs[0])] + SampledAll(cs[1..])
  }

  /** Every stage's plan as it is stored when it is sent: already cut below, with its sampler. */
  function StoredStages(p: Plan): (m: StageMap)
    decreases p, 1
  {
    StoredStagesAll(p.children) +
    if p.op.Boundary? && |p.children| == 1 then map[p.op.stage.num := InsertSampler(Cut(p.children[0]))] else map[]
  }

  function StoredStagesAll(cs: seq<Plan>): (m: StageMap)
    decreases cs, 0
  {
    if cs == [] then map[] else StoredStages(cs[0]) + StoredStagesAll(cs[1..])
  }

  /** The plan has a repartition or broadcast of one input at its top. */
  predicate TopsOneInput(p: Plan) {
    (p.op.Repartition? || p.op.Broadcast?) && |p.children| == 1
  }

  /** `r` is `p` with a sampler right below each repartition or broadcast that a boundary reads, and nothing
      else. */
  ghost predicate Samples(p: Plan, r: Plan)
    decreases p
  {
    && r.op == p.op && |r.children| == |p.children|
    && if p.op.Boundary? && |p.children| == 1 && TopsOneInput(p.children[0]) then
         var head, x := r.children[0], p.children[0].children[0];
         && head.op == p.children[0].op && |head.children| == 1
         && head.children[0].op == Sampler && |head.children[0].children| == 1
         && Samples(x, head.children[0].children[0])
       else forall c | 0 <= c < |p.children| :: Samples(p.children[c], r.children[c])
  }

  /** What runs is the plan with exactly these samplers. */
  lemma {:induction false} SampledSamples(p: Plan)
    ensures Samples(p, Sampled(p))
    decreases p, 1
  {
    SampledSampleAll(p.children);
    if p.op.Boundary? && |p.children| == 1 && TopsOneInput(p.children[0]) {
      var c := p.children[0];
      SampledSampleAll(c.children);
      assert SampledAll(p.children)[0] == Sampled(c) == Plan(c.op, SampledAll(c.children));
    }
  }

  lemma {:induction false} SampledSampleAll(cs: seq<Plan>)
    ensures forall c | 0 <= c < |cs| :: Samples(cs[c], SampledAll(cs)[c]) && SampledAll(cs)[c] == Sampled(cs[c])
    decreases cs, 0
  {
    if cs != [] {
      SampledSamples(cs[0]);
      SampledSampleAll(cs[1..]);
      forall c | 0 < c < |cs| ensures Samples(cs[c], SampledAll(cs)[c]) && SampledAll(cs)[c] == Sampled(cs[c]) {
        assert cs[c] == cs[1..][c - 1] && SampledAll(cs)[c] == SampledAll(cs[1..])[c - 1];
      }
    }
  }

  lemma SampledInputs(c: Plan)
    requires WellFormed(c)
    ensures WellFormed(InsertSampler(c)) && (AllLocal(c) ==> AllLocal(InsertSampler(c)))
    ensures Cut(InsertSampler(c)) == InsertSampler(Cut(c)) && StagesOf(InsertSampler(c)) == StagesOf(c)
    ensures WellNumbered(c) ==> WellNumbered(InsertSampler(c))
  {
    if HasHead(c) {
      var x := c.children[0];
      var s := Plan(Sampler, [x]);
      assert c.children == [x];
      OnlyInput(c.op, x);
      OnlyInput(Sampler, x);
      OnlyInput(c.op, s);
    }
  }

  lemma OnlyInput(op: Op, x: Plan)
    requires !op.Boundary?
    ensures var p := Plan(op, [x]);
            && Cut(p) == Plan(op, [Cut(x)]) && StagesOf(p) == StagesOf(x) && (WellNumbered(p) <==> WellNumbered(x))
  {
    var cs := [x];
    assert cs[1..] == [];
    assert StagesAll(cs) == StagesOf(x) + StagesAll(cs[1..]);
    assert WellNumberedAll(cs) <==> WellNumbered(x);
  }

  /** Sampling changes only what is under boundaries, so cutting it gives the same plan and the stored
      stages. */
  lemma {:induction false} SampledCut(p: Plan)
    requires WellFormed(p) && AllLocal(p)
    ensures WellFormed(Sampled(p)) && AllLocal(Sampled(p))
    ensures Cut(Sampled(p)) == Cut(p) && StagesOf(Sampled(p)) == StoredStages(p)
    ensures StoredStages(p).Keys == StagesOf(p).Keys
    decreases p, 1
  {
    SampledCutAll(p.children);
    if p.op.Boundary? {
      assert SampledAll(p.children)[0] == Sampled(p.children[0]);
      OneStage(p.children);
      OneStage(SampledAll(p.children));
      SampledStageCut(p);
    }
  }

  lemma SampledStageCut(p: Plan)
    requires WellFormed(p) && AllLocal(p) && p.op.Boundary?
    requires var c := Sampled(p.children[0]);
             && WellFormed(c) && AllLocal(c) && Cut(c) == Cut(p.children[0])
             && StagesOf(c) == StoredStages(p.children[0])
    ensures WellFormed(Sampled(p)) && AllLocal(Sampled(p))
    ensures Cut(Sampled(p)) == Cut(p) && StagesOf(Sampled(p)) == StoredStages(p)
  {
    var c := Sampled(p.children[0]);
    assert SampledAll(p.children)[0] == c;
    SampledInputs(c);
    assert Sampled(p).children == [InsertSampler(c)];
    OneStage(p.children);
    OneStage([InsertSampler(c)]);
  }

  lemma OneStage(cs: seq<Plan>)
    requires |cs| == 1
    ensures StagesAll(cs) == StagesOf(cs[0]) && CutAll(cs) == [Cut(cs[0])]
    ensures StoredStagesAll(cs) == StoredStages(cs[0])
  {
    assert cs[1..] == [];
  }

  lemma {:induction false} SampledCutAll(cs: seq<Plan>)
    requires Whole(cs)
    ensures Whole(SampledAll(cs)) && CutAll(SampledAll(cs)) == CutAll(cs) &&
            StagesAll(SampledAll(cs)) == StoredStagesAll(cs)
    ensures StoredStagesAll(cs).Keys == StagesAll(cs).Keys
    decreases cs, 0
  {
    if cs != [] {
      SampledCut(cs[0]);
      SampledCutAll(cs[1..]);
      var rs := SampledAll(cs);
      assert rs[0] == Sampled(cs[0]) && rs[1..] == SampledAll(cs[1..]);
    }
  }

  lemma {:induction false} SampledNumbers(p: Plan)
    requires WellFormed(p) && AllLocal(p)
    ensures WellNumbered(p) ==> WellNumbered(Sampled(p))
    decreases p, 1
  {
    SampledCutAll(p.children);
    SampledNumbersAll(p.children);
    if p.op.Boundary? {
      var c := SampledAll(p.children)[0];
      var cs := [InsertSampler(c)];
      SampledInputs(c);
      OneStage(SampledAll(p.children));
      OneStage(cs);
      assert WellNumberedAll(SampledAll(p.children)) ==> WellNumbered(c);
      assert cs[1..] == [] && (WellNumberedAll(cs) <==> WellNumbered(cs[0]));
    }
  }

  lemma {:induction false} SampledNumbersAll(cs: seq<Plan>)
    requires Whole(cs)
    ensures WellNumberedAll(cs) ==> WellNumberedAll(SampledAll(cs))
    decreases cs, 0
  {
    if cs != [] {
      SampledNumbers(cs[0]);
      SampledNumbersAll(cs[1..]);
      SampledCut(cs[0]);
      SampledCutAll(cs[1..]);
      var rs := SampledAll(cs);
      assert rs[0] == Sampled(cs[0]) && rs[1..] == SampledAll(cs[1..]);
    }
  }

  /** The dynamic coordinator's round trip: from the stages it stored, reconstruction restores the plan
      as it was run, samplers included, with producer heads normalised, and uses every stage. */
  lemma DynamicRoundTrip(p: Plan, parts: PartitionCount)
    requires WellFormed(p) && AllLocal(p) && WellNumbered(p)
    ensures Progresses(ReconstructNode(parts), Entries())
    ensures var (back, left) := Down(Cut(p), [], 1, ReconstructNode(parts), StoredStages(p), Entries());
            var want := Normalise(Sampled(p), 1, parts);
            back.Success? == want.Success? && (back.Success? ==> back.value.data == want.value && left == map[])
  {
    SampledCut(p);
    SampledNumbers(p);
    RoundTrip(Sampled(p), parts);
  }
}
