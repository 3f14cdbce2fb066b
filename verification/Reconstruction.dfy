/** Putting a plan back together after its stages were sent away one by one. */
module Reconstruction {
  import opened Wrappers
  import opened Plans
  import opened TaskCounts
  import opened NetworkBoundaries

  /** The plans of stages that are now remote, by stage number. */
  type StageMap = map<nat, Plan>

  function ReconstructStep(p: Plan, tasks: nat, stages: StageMap, parts: PartitionCount)
    : (r: (Result<Transformed>, StageMap)) {
    if !p.op.Boundary? then (Success(Transformed(p, false, Continue)), stages)
    else if p.op.stage.num !in stages then (Failure, stages)
    else
      var rest := stages - {p.op.stage.num};
      var input := HeadedInput(p.op.kind, tasks, stages[p.op.stage.num], parts);
      if input.Failure? then (Failure, rest)
      else (Success(Transformed(Localised(p.op, input.value), true, Continue)), rest)
  }

  function Localised(op: Op, input: Plan): (p: Plan)
    requires op.Boundary?
  {
    Plan(Boundary(op.kind, Local(op.stage.query, op.stage.num, op.stage.tasks)), [input])
  }

  function ReconstructNode(parts: PartitionCount): (f: Rewriter<StageMap>) {
    (path: Path, p: Plan, tasks: nat, stages: StageMap) => ReconstructStep(p, tasks, stages, parts)
  }

  ghost function Entries(): (m: StageMap -> nat) {
    (stages: StageMap) => |stages|
  }

  lemma RemoveShrinks(stages: StageMap, num: nat)
    requires num in stages
    ensures |stages - {num}| < |stages|
  {
    var rest := stages - {num};
    assert stages.Keys == rest.Keys + {num};
    assert |stages.Keys| == |rest.Keys| + 1;
  }

  /** Walking ends although the tree grows under the walk: each growth uses an entry up. */
  lemma ReconstructProgresses(parts: PartitionCount)
    ensures Progresses(ReconstructNode(parts), Entries())
  {
    forall path, p, tasks, stages
      ensures var (r, rest) := ReconstructNode(parts)(path, p, tasks, stages);
              Entries()(rest) <= Entries()(stages) &&
              (r.Success? && Size(r.value.data) > Size(p) ==> Entries()(rest) < Entries()(stages))
    {
      if p.op.Boundary? && p.op.stage.num in stages {
        RemoveShrinks(stages, p.op.stage.num);
      }
    }
  }

  /** Collects stage plans while the query is being set up, and reassembles the plan afterwards. */
  class PlanReconstructor {
    var stageMap: StageMap

    constructor ()
      ensures stageMap == map[]
    {
      stageMap := map[];
    }

    method Insert(stage: nat, plan: Plan)
      modifies this
      ensures stageMap == old(stageMap)[stage := plan]
    {
      stageMap := stageMap[stage := plan];
    }

    method Reconstruct(head: Plan, parts: PartitionCount) returns (r: Result<Plan>)
      modifies this
      ensures Progresses(ReconstructNode(parts), Entries())
      ensures var (d, rest) := Down(head, [], 1, ReconstructNode(parts), old(stageMap), Entries());
              stageMap == rest && r == if d.Failure? then Failure else Success(d.value.data)
    {
      ReconstructProgresses(parts);
      var walker := new DownWalker(1, ReconstructNode(parts), stageMap, Entries());
      var t := walker.TransformDownUp(head, []);
      stageMap := walker.state;
      return if t.Failure? then Failure else Success(t.value.data);
    }
  }

  // ---------------------------------------------------------------- nothing stays remote

  ghost predicate Submap(a: StageMap, b: StageMap) {
    forall k | k in a :: k in b && b[k] == a[k]
  }

  /** Whatever was collected: a successful reconstruction has no remote stage left, and only takes
      entries away. */
  lemma {:induction false} NothingStaysRemote(p: Plan, path: Path, tasks: nat, stages: StageMap, parts: PartitionCount)
    requires Progresses(ReconstructNode(parts), Entries())
    ensures var (r, rest) := Down(p, path, tasks, ReconstructNode(parts), stages, Entries());
            Submap(rest, stages) &&
            (r.Success? ==>
               AllLocal(r.value.data) && r.value.signal == Continue && (!r.value.changed ==> r.value.data == p))
    decreases |stages|, Size(p), 0
  {
    var f, m := ReconstructNode(parts), Entries();
    var (r, left) := f(path, p, tasks, stages);
    if p.op.Boundary? && p.op.stage.num in stages {
      RemoveShrinks(stages, p.op.stage.num);
    }
    if r.Success? {
      var t := r.value;
      NothingStaysRemoteBelow(t.data.children, 0, path, ChildCounts(t.data, tasks), left, parts);
    }
  }

  lemma LocalCons(cs: seq<Plan>, r: Plan, rs: seq<Plan>)
    requires cs != [] && AllLocal(r) && forall c | 0 <= c < |rs| :: AllLocal(rs[c])
    ensures forall c | 0 <= c < |[r] + rs| :: AllLocal(([r] + rs)[c])
    ensures r == cs[0] && rs == cs[1..] ==> [r] + rs == cs
  {
    var all := [r] + rs;
    forall c | 0 <= c < |all| ensures AllLocal(all[c]) {
      assert all[c] == if c == 0 then r else rs[c - 1];
    }
  }

  lemma {:induction false} NothingStaysRemoteBelow(cs: seq<Plan>, i: nat, path: Path, counts: seq<nat>,
                                                   stages: StageMap, parts: PartitionCount)
    requires Progresses(ReconstructNode(parts), Entries()) && |counts| == |cs|
    ensures var (r, rest) := DownChildren(cs, i, path, counts, Continue, ReconstructNode(parts), stages, Entries());
            Submap(rest, stages) &&
            (r.Success? ==>
              && r.value.signal == Continue && (!r.value.changed ==> r.value.children == cs)
              && forall c | 0 <= c < |r.value.children| :: AllLocal(r.value.children[c]))
    decreases |stages|, SizeAll(cs), 1
  {
    if cs != [] {
      var f, m := ReconstructNode(parts), Entries();
      NothingStaysRemote(cs[0], path + [i], counts[0], stages, parts);
      var (t, left) := Down(cs[0], path + [i], counts[0], f, stages, m);
      if t.Success? {
        NothingStaysRemoteBelow(cs[1..], i + 1, path, counts[1..], left, parts);
        var (u, rest) := DownChildren(cs[1..], i + 1, path, counts[1..], Continue, f, left, m);
        SubmapChain(rest, left, stages);
        if u.Success? {
          LocalCons(cs, t.value.data, u.value.children);
        }
      }
    }
  }

  lemma SubmapChain(a: StageMap, b: StageMap, c: StageMap)
    requires Submap(a, b) && Submap(b, c)
    ensures Submap(a, c)
  {
  }

  // ---------------------------------------------------------------- cutting a plan into stages

  /** The plan with every boundary turned remote. */
  function Cut(p: Plan): (r: Plan)
    decreases p, 1
  {
    if p.op.Boundary? then Plan(Boundary(p.op.kind, Remote(p.op.stage.query, p.op.stage.num, p.op.stage.tasks)), [])
    else Plan(p.op, CutAll(p.children))
  }

  function CutAll(cs: seq<Plan>): (rs: seq<Plan>)
    ensures |rs| == |cs|
    decreases cs, 0
  {
    if cs == [] then [] else [Cut(cs[0])] + CutAll(cs[1..])
  }

  /** The stage plans of all boundaries, each itself cut. */
  function StagesOf(p: Plan): (m: StageMap)
    decreases p, 1
  {
    StagesAll(p.children) +
    if p.op.Boundary? && |p.children| == 1 then map[p.op.stage.num := Cut(p.children[0])] else map[]
  }

  function StagesAll(cs: seq<Plan>): (m: StageMap)
    decreases cs, 0
  {
    if cs == [] then map[] else StagesOf(cs[0]) + StagesAll(cs[1..])
  }

  /** No stage number occurs twice. */
  predicate WellNumbered(p: Plan)
    decreases p, 1
  {
    WellNumberedAll(p.children) && (p.op.Boundary? ==> p.op.stage.num !in StagesAll(p.children))
  }

  predicate WellNumberedAll(cs: seq<Plan>)
    decreases cs, 0
  {
    cs == [] || (WellNumbered(cs[0]) && WellNumberedAll(cs[1..]) && StagesOf(cs[0]).Keys !! StagesAll(cs[1..]).Keys)
  }

  /** A boundary over its input, under the producer head that `tasks` consumers ask for. */
  function Inlined(op: Op, tasks: nat, input: Result<Plan>, partitions: nat): (r: Result<Plan>)
    requires op.Boundary?
  {
    var bare :- input;
    var head :- ProducerHead(op.kind, tasks);
    var headed :- WithHead(head, bare, partitions);
    Success(Localised(op, headed))
  }

  /** The plan with every producer head set to what its boundary asks for. */
  function Normalise(p: Plan, tasks: nat, parts: PartitionCount): (r: Result<Plan>)
    decreases Size(p), 0
  {
    if p.op.Boundary? && |p.children| == 1 then
      SizeOfChild(p.children, 0);
      SizeStripped(p.children[0]);
      var bare := StripHead(p.children[0]);
      Inlined(p.op, tasks, Normalise(bare, p.op.stage.tasks, parts), parts(Cut(bare)))
    else
      var cs :- NormaliseAll(p.children, ChildCounts(p, tasks), parts);
      Success(Plan(p.op, cs))
  }

  function NormaliseAll(cs: seq<Plan>, counts: seq<nat>, parts: PartitionCount): (r: Result<seq<Plan>>)
    requires |counts| == |cs|
    ensures r.Success? ==> |r.value| == |cs|
    decreases SizeAll(cs), 1
  {
    if cs == [] then Success([]) else
      var c :- Normalise(cs[0], counts[0], parts);
      var rest :- NormaliseAll(cs[1..], counts[1..], parts);
      Success([c] + rest)
  }

  // ---------------------------------------------------------------- cut, then reconstruct

  lemma CutStripped(p: Plan)
    requires WellFormed(p)
    ensures StripHead(Cut(p)) == Cut(StripHead(p))
    ensures StagesOf(StripHead(p)) == StagesOf(p) && (WellNumbered(p) ==> WellNumbered(StripHead(p)))
    ensures WellFormed(StripHead(p)) && (AllLocal(p) ==> AllLocal(StripHead(p)))
  {
    if HasHead(p) {
      assert CutAll(p.children) == [Cut(p.children[0])] + CutAll(p.children[1..]);
      assert StagesAll(p.children) == StagesOf(p.children[0]) + StagesAll(p.children[1..]);
      assert WellNumbered(p) ==> WellNumberedAll(p.children);
      assert WellNumberedAll(p.children) ==> WellNumbered(p.children[0]);
    }
  }

  function Without(stages: StageMap, used: StageMap): (rest: StageMap) {
    stages - used.Keys
  }

  /** The walk over a cut plan ended with the wanted plan and the map `left`. */
  ghost predicate Restores(out: (Result<Transformed>, StageMap), cut: Plan, want: Result<Plan>, left: StageMap) {
    if want.Failure? then out.0.Failure? else
      && out.0.Success? && out.0.value.data == want.value && out.0.value.signal == Continue
      && (!out.0.value.changed ==> want.value == cut)
      && out.1 == left
  }

  ghost predicate RestoresAll(out: (Result<Mapped>, StageMap), cuts: seq<Plan>, want: Result<seq<Plan>>,
                              left: StageMap) {
    if want.Failure? then out.0.Failure? else
      && out.0.Success? && out.0.value.children == want.value && out.0.value.signal == Continue
      && (!out.0.value.changed ==> want.value == cuts)
      && out.1 == left
  }

  lemma ConsRestores(c: Plan, rest: seq<Plan>, i: nat, path: Path, n: nat, ns: seq<nat>, want: Result<Plan>,
                     wants: Result<seq<Plan>>,
                     s: StageMap, s': StageMap, left: StageMap, f: Rewriter<StageMap>, m: StageMap -> nat)
    requires Progresses(f, m) && |ns| == |rest|
    requires Restores(Down(c, path + [i], n, f, s, m), c, want, s')
    requires RestoresAll(DownChildren(rest, i + 1, path, ns, Continue, f, s', m), rest, wants, left)
    ensures RestoresAll(DownChildren([c] + rest, i, path, [n] + ns, Continue, f, s, m), [c] + rest,
                        if want.Failure? || wants.Failure? then Failure else Success([want.value] + wants.value), left)
  {
    var cs, counts := [c] + rest, [n] + ns;
    assert cs[0] == c && cs[1..] == rest && counts[0] == n && counts[1..] == ns;
  }

  lemma OneChildRestores(c: Plan, path: Path, n: nat, want: Result<Plan>, s: StageMap, left: StageMap,
                         f: Rewriter<StageMap>, m: StageMap -> nat)
    requires Progresses(f, m)
    requires Restores(Down(c, path + [0], n, f, s, m), c, want, left)
    ensures RestoresAll(DownChildren([c], 0, path, [n], Continue, f, s, m), [c],
                        if want.Failure? then Failure else Success([want.value]), left)
  {
    assert [c][1..] == [] && [n][1..] == [];
  }

  /** A node is restored if the children of what it was rewritten to are. */
  lemma NodeRestores(p: Plan, t: Transformed, path: Path, n: nat, wants: Result<seq<Plan>>, s: StageMap, s': StageMap,
                     left: StageMap, f: Rewriter<StageMap>, m: StageMap -> nat)
    requires Progresses(f, m) && f(path, p, n, s) == (Success(t), s')
    requires t.signal == Continue && (!t.changed ==> t.data == p)
    requires RestoresAll(DownChildren(t.data.children, 0, path, ChildCounts(t.data, n), Continue, f, s', m),
                         t.data.children, wants, left)
    ensures Restores(Down(p, path, n, f, s, m), p,
                     if wants.Failure? then Failure else Success(Plan(t.data.op, wants.value)), left)
  {
  }

  lemma SameNodeRestores(p: Plan, path: Path, n: nat, wants: Result<seq<Plan>>, s: StageMap, left: StageMap,
                         parts: PartitionCount)
    requires Progresses(ReconstructNode(parts), Entries()) && !p.op.Boundary?
    requires RestoresAll(DownChildren(p.children, 0, path, ChildCounts(p, n), Continue, ReconstructNode(parts), s,
                                      Entries()),
                         p.children, wants, left)
    ensures Restores(Down(p, path, n, ReconstructNode(parts), s, Entries()), p,
                     if wants.Failure? then Failure else Success(Plan(p.op, wants.value)), left)
  {
    NodeRestores(p, Transformed(p, false, Continue), path, n, wants, s, s, left, ReconstructNode(parts), Entries());
  }

  /** The headed input of a boundary is restored if its bare plan is. */
  lemma InputRestores(head: Head, bare: Plan, path: Path, n: nat, inner: Result<Plan>, stages: StageMap,
                      left: StageMap, parts: PartitionCount)
    requires Progresses(ReconstructNode(parts), Entries())
    requires forall q :: Restores(Down(bare, q, n, ReconstructNode(parts), stages, Entries()), bare, inner, left)
    requires WithHead(head, bare, parts(bare)).Success?
    ensures var input := WithHead(head, bare, parts(bare)).value;
            Restores(Down(input, path, n, ReconstructNode(parts), stages, Entries()), input,
                     if inner.Failure? then Failure else WithHead(head, inner.value, parts(bare)), left)
  {
    var input := WithHead(head, bare, parts(bare)).value;
    if head != NoHead {
      assert Restores(Down(bare, path + [0], n, ReconstructNode(parts), stages, Entries()), bare, inner, left);
      OneChildRestores(bare, path, n, inner, stages, left, ReconstructNode(parts), Entries());
      assert ChildCounts(input, n) == [n];
      SameNodeRestores(input, path, n, if inner.Failure? then Failure else Success([inner.value]), stages, left, parts);
    }
  }

  lemma OnlyChild(p: Plan)
    requires WellFormed(p) && p.op.Boundary? && p.op.stage.Local?
    ensures StagesOf(p) == StagesOf(p.children[0]) + map[p.op.stage.num := Cut(p.children[0])]
    ensures WellNumbered(p) ==> WellNumbered(p.children[0]) && p.op.stage.num !in StagesOf(p.children[0])
  {
    var cs := p.children;
    assert cs[1..] == [];
    assert StagesAll(cs) == StagesOf(cs[0]) + StagesAll(cs[1..]) == StagesOf(cs[0]);
    assert WellNumbered(p) ==> WellNumberedAll(cs);
    assert WellNumberedAll(cs) ==> WellNumbered(cs[0]);
  }

  /** Inlining a remote stage: the boundary is restored if the stage's bare plan is. */
  lemma BoundaryRestores(op: Op, plan: Plan, bare: Plan, path: Path, tasks: nat, inner: Result<Plan>, stages: StageMap,
                         left: StageMap, parts: PartitionCount)
    requires Progresses(ReconstructNode(parts), Entries())
    requires op.Boundary? && op.stage.num in stages && stages[op.stage.num] == plan && StripHead(plan) == bare
    requires forall q :: Restores(Down(bare, q, op.stage.tasks, ReconstructNode(parts), stages - {op.stage.num},
                                       Entries()),
                                  bare, inner, left)
    ensures Restores(Down(Plan(op, []), path, tasks, ReconstructNode(parts), stages, Entries()), Plan(op, []),
                     Inlined(op, tasks, inner, parts(bare)), left)
  {
    var head := ProducerHead(op.kind, tasks);
    var input := HeadedInput(op.kind, tasks, plan, parts);
    if input.Success? {
      assert WithHead(head.value, bare, parts(bare)) == input;
      var want := if inner.Failure? then Failure else WithHead(head.value, inner.value, parts(bare));
      InputRestores(head.value, bare, path + [0], op.stage.tasks, inner, stages - {op.stage.num}, left, parts);
      InlinedRestores(op, input.value, path, tasks, want, stages, left, parts);
    }
  }

  lemma InlinedRestores(op: Op, input: Plan, path: Path, tasks: nat, want: Result<Plan>, stages: StageMap,
                        left: StageMap, parts: PartitionCount)
    requires Progresses(ReconstructNode(parts), Entries())
    requires op.Boundary? && op.stage.num in stages
    requires HeadedInput(op.kind, tasks, stages[op.stage.num], parts) == Success(input)
    requires Restores(Down(input, path + [0], op.stage.tasks, ReconstructNode(parts), stages - {op.stage.num},
                           Entries()),
                      input, want, left)
    ensures Restores(Down(Plan(op, []), path, tasks, ReconstructNode(parts), stages, Entries()), Plan(op, []),
                     if want.Failure? then Failure else Success(Localised(op, want.value)), left)
  {
    var q, rest := Localised(op, input), stages - {op.stage.num};
    assert ChildCounts(q, tasks) == [op.stage.tasks];
    OneChildRestores(input, path, op.stage.tasks, want, rest, left, ReconstructNode(parts), Entries());
    NodeRestores(Plan(op, []), Transformed(q, true, Continue), path, tasks,
                 if want.Failure? then Failure else Success([want.value]),
                 stages, rest, left, ReconstructNode(parts), Entries());
  }

  /** Cutting a plan at its boundaries and reconstructing it gives the plan back with its producer
      heads normalised, uses every one of its stages once, and leaves other entries alone. */
  lemma {:induction false} CutThenReconstruct(p: Plan, path: Path, tasks: nat, stages: StageMap, parts: PartitionCount)
    requires Progresses(ReconstructNode(parts), Entries())
    requires WellFormed(p) && AllLocal(p) && WellNumbered(p) && Submap(StagesOf(p), stages)
    ensures Restores(Down(Cut(p), path, tasks, ReconstructNode(parts), stages, Entries()), Cut(p),
                     Normalise(p, tasks, parts), Without(stages, StagesOf(p)))
    decreases Size(p), 1
  {
    if p.op.Boundary? {
      CutBoundary(p, path, tasks, stages, parts);
    } else {
      var left := Without(stages, StagesOf(p));
      assert StagesOf(p) == StagesAll(p.children);
      assert Whole(p.children);
      CutThenReconstructAll(p.children, 0, path, ChildCounts(p, tasks), stages, parts);
      assert ChildCounts(Cut(p), tasks) == ChildCounts(p, tasks);
      SameNodeRestores(Cut(p), path, tasks, NormaliseAll(p.children, ChildCounts(p, tasks), parts), stages, left,
                       parts);
    }
  }

  lemma BareStage(p: Plan, stages: StageMap)
    requires p.op.Boundary? && WellFormed(p) && AllLocal(p) && WellNumbered(p) && Submap(StagesOf(p), stages)
    ensures var c, num := p.children[0], p.op.stage.num; var bare := StripHead(c);
            && num in stages && stages[num] == Cut(c) && StripHead(Cut(c)) == Cut(bare)
            && Size(bare) < Size(p) && WellFormed(bare) && AllLocal(bare) && WellNumbered(bare)
            && Submap(StagesOf(bare), stages - {num})
            && Without(stages - {num}, StagesOf(bare)) == Without(stages, StagesOf(p))
  {
    var c, num := p.children[0], p.op.stage.num;
    BareFacts(p);
    StageTaken(StagesOf(StripHead(c)), num, Cut(c), stages);
  }

  lemma BareFacts(p: Plan)
    requires p.op.Boundary? && WellFormed(p) && AllLocal(p) && WellNumbered(p)
    ensures var c, num := p.children[0], p.op.stage.num; var bare := StripHead(c);
            && StripHead(Cut(c)) == Cut(bare) && Size(bare) < Size(p)
            && WellFormed(bare) && AllLocal(bare) && WellNumbered(bare)
            && num !in StagesOf(bare) && StagesOf(p) == StagesOf(bare)[num := Cut(c)]
  {
    SizeOfChild(p.children, 0);
    SizeStripped(p.children[0]);
    CutStripped(p.children[0]);
    OnlyChild(p);
    OneMore(StagesOf(p.children[0]), p.op.stage.num, Cut(p.children[0]));
  }

  lemma OneMore(m: StageMap, num: nat, stage: Plan)
    ensures m + map[num := stage] == m[num := stage]
  {
  }

  /** Taking one stage out of a map leaves the others. */
  lemma StageTaken(below: StageMap, num: nat, stage: Plan, stages: StageMap)
    requires num !in below && Submap(below[num := stage], stages)
    ensures num in stages && stages[num] == stage && Submap(below, stages - {num})
    ensures Without(stages - {num}, below) == Without(stages, below[num := stage])
  {
    assert num in below[num := stage];
  }

  lemma {:induction false} CutBoundary(p: Plan, path: Path, tasks: nat, stages: StageMap, parts: PartitionCount)
    requires Progresses(ReconstructNode(parts), Entries()) && p.op.Boundary?
    requires WellFormed(p) && AllLocal(p) && WellNumbered(p) && Submap(StagesOf(p), stages)
    ensures Restores(Down(Cut(p), path, tasks, ReconstructNode(parts), stages, Entries()), Cut(p),
                     Normalise(p, tasks, parts), Without(stages, StagesOf(p)))
    decreases Size(p), 0
  {
    var c, n, rest := p.children[0], p.op.stage.tasks, stages - {p.op.stage.num};
    var bare, left := StripHead(c), Without(stages, StagesOf(p));
    BareStage(p, stages);
    forall q ensures Restores(Down(Cut(bare), q, n, ReconstructNode(parts), rest, Entries()), Cut(bare),
                              Normalise(bare, n, parts), left)
    {
      CutThenReconstruct(bare, q, n, rest, parts);
    }
    BoundaryRestores(Cut(p).op, Cut(c), Cut(bare), path, tasks, Normalise(bare, n, parts), stages, left, parts);
    NormaliseBoundary(p, tasks, parts);
  }

  lemma NormaliseBoundary(p: Plan, tasks: nat, parts: PartitionCount)
    requires p.op.Boundary? && WellFormed(p) && AllLocal(p)
    ensures var bare := StripHead(p.children[0]);
            Normalise(p, tasks, parts) ==
            Inlined(Cut(p).op, tasks, Normalise(bare, p.op.stage.tasks, parts), parts(Cut(bare)))
  {
  }

  lemma SplitStages(cs: seq<Plan>, stages: StageMap)
    requires cs != [] && WellNumberedAll(cs) && Submap(StagesAll(cs), stages)
    ensures var first := StagesOf(cs[0]);
            && Submap(first, stages) && Submap(StagesAll(cs[1..]), Without(stages, first))
            && Without(Without(stages, first), StagesAll(cs[1..])) == Without(stages, StagesAll(cs))
  {
    var first, others := StagesOf(cs[0]), StagesAll(cs[1..]);
    forall k | k in first ensures k in stages && stages[k] == first[k] {
      assert k !in others && StagesAll(cs)[k] == first[k];
    }
    forall k | k in others ensures k in Without(stages, first) && stages[k] == others[k] {
      assert StagesAll(cs)[k] == others[k];
    }
  }

  lemma FoldFirst(cs: seq<Plan>, i: nat, path: Path, counts: seq<nat>, stages: StageMap, rest: StageMap,
                  left: StageMap, parts: PartitionCount)
    requires Progresses(ReconstructNode(parts), Entries()) && |counts| == |cs| > 0
    requires Restores(Down(Cut(cs[0]), path + [i], counts[0], ReconstructNode(parts), stages, Entries()), Cut(cs[0]),
                      Normalise(cs[0], counts[0], parts), rest)
    requires RestoresAll(DownChildren(CutAll(cs[1..]), i + 1, path, counts[1..], Continue, ReconstructNode(parts),
                                      rest, Entries()),
                         CutAll(cs[1..]), NormaliseAll(cs[1..], counts[1..], parts), left)
    ensures RestoresAll(DownChildren(CutAll(cs), i, path, counts, Continue, ReconstructNode(parts), stages, Entries()),
                        CutAll(cs), NormaliseAll(cs, counts, parts), left)
  {
    var c, others := Cut(cs[0]), CutAll(cs[1..]);
    var want, wants := Normalise(cs[0], counts[0], parts), NormaliseAll(cs[1..], counts[1..], parts);
    ConsRestores(c, others, i, path, counts[0], counts[1..], want, wants, stages, rest, left, ReconstructNode(parts),
                 Entries());
    assert [counts[0]] + counts[1..] == counts && CutAll(cs) == [c] + others;
    assert NormaliseAll(cs, counts, parts) ==
           if want.Failure? || wants.Failure? then Failure else Success([want.value] + wants.value);
  }

  predicate Whole(cs: seq<Plan>) {
    forall c | 0 <= c < |cs| :: WellFormed(cs[c]) && AllLocal(cs[c])
  }

  lemma {:induction false} CutThenReconstructAll(cs: seq<Plan>, i: nat, path: Path, counts: seq<nat>, stages: StageMap,
                                                 parts: PartitionCount)
    requires Progresses(ReconstructNode(parts), Entries()) && |counts| == |cs|
    requires Whole(cs) && WellNumberedAll(cs) && Submap(StagesAll(cs), stages)
    ensures RestoresAll(DownChildren(CutAll(cs), i, path, counts, Continue, ReconstructNode(parts), stages, Entries()),
                        CutAll(cs), NormaliseAll(cs, counts, parts), Without(stages, StagesAll(cs)))
    decreases SizeAll(cs), 2
  {
    if cs == [] {
      assert Without(stages, map[]) == stages;
    } else {
      var rest := Without(stages, StagesOf(cs[0]));
      SplitStages(cs, stages);
      CutThenReconstruct(cs[0], path + [i], counts[0], stages, parts);
      CutThenReconstructAll(cs[1..], i + 1, path, counts[1..], rest, parts);
      FoldFirst(cs, i, path, counts, stages, rest, Without(stages, StagesAll(cs)), parts);
    }
  }

  /** The coordinator's round trip: when the collected stages are exactly those the plan was cut
      into, reconstruction succeeds on every plan whose heads can be built, restores it and uses the
      whole map up. */
  lemma RoundTrip(p: Plan, parts: PartitionCount)
    requires WellFormed(p) && AllLocal(p) && WellNumbered(p)
    ensures Progresses(ReconstructNode(parts), Entries())
    ensures var (r, left) := Down(Cut(p), [], 1, ReconstructNode(parts), StagesOf(p), Entries());
            var want := Normalise(p, 1, parts);
            && r.Success? == want.Success?
            && (r.Success? ==> r.value.data == want.value && AllLocal(want.value) && left == map[])
  {
    ReconstructProgresses(parts);
    CutThenReconstruct(p, [], 1, StagesOf(p), parts);
    NothingStaysRemote(Cut(p), [], 1, StagesOf(p), parts);
    assert Without(StagesOf(p), StagesOf(p)) == map[];
  }
}
