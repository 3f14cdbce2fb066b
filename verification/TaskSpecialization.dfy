/** The plan each task is sent, and sharing one encoding of it between tasks. */
module TaskSpecialization {
  import opened Wrappers
  import opened Plans
  import opened ContextTraversal

  /** What the specializing walk records: whether anything depended on the task, and the feeds the
      task must be served, with their partition counts. */
  datatype Notes = Notes(dependsOnTask: bool, feeds: seq<(nat, nat)>)

  predicate Listed(es: seq<(nat, Ctx)>, c: nat) {
    exists i | 0 <= i < |es| :: es[i].0 == c
  }

  /** An isolator's children with those the task does not run replaced by placeholders. */
  function Trimmed(cs: seq<Plan>, es: seq<(nat, Ctx)>): (rs: seq<Plan>)
    ensures |rs| == |cs|
  {
    seq(|cs|, c requires 0 <= c < |cs| => if Listed(es, c) then cs[c] else Plan(Empty, []))
  }

  /** What the walk does with one node. */
  function SpecializeStep(p: Plan, ctx: Ctx, notes: Notes): (r: (Transformed, Notes)) {
    match p.op
    case Feed(id, partitions, _) =>
      (Transformed(Plan(Feed(id, partitions, true), p.children), true, Continue),
       Notes(true, notes.feeds + [(id, partitions)]))
    case Isolator(taskMap) =>
      (Transformed(Plan(p.op, Trimmed(p.children, EntriesFor(taskMap, ctx))), true, Continue),
       notes.(dependsOnTask := true))
    case DistributedLeaf(variants) =>
      (Transformed(if ctx.index < |variants| then Plan(Scan(variants[ctx.index]), []) else p, true, Continue),
       notes.(dependsOnTask := true))
    case Repartition(_, _) => (Transformed(p, true, Continue), notes)
    case _ => (Transformed(p, false, Continue), notes)
  }

  function SpecializeNode(): (f: Rewriter<Notes>) {
    (path: Path, p: Plan, ctx: Ctx, notes: Notes) => SpecializeStep(p, ctx, notes)
  }

  lemma {:induction false} TrimmingShrinks(cs: seq<Plan>, rs: seq<Plan>)
    requires |rs| == |cs| && forall c | 0 <= c < |cs| :: rs[c] == cs[c] || rs[c] == Plan(Empty, [])
    ensures SizeAll(rs) <= SizeAll(cs)
  {
    if cs != [] {
      TrimmingShrinks(cs[1..], rs[1..]);
    }
  }

  lemma SpecializingShrinks()
    ensures NonGrowing(SpecializeNode())
  {
    forall path, p, ctx, s ensures Size(SpecializeNode()(path, p, ctx, s).0.data) <= Size(p) {
      if p.op.Isolator? {
        TrimmingShrinks(p.children, Trimmed(p.children, EntriesFor(p.op.taskMap, ctx)));
      }
    }
  }

  /** The plan a task gets, as the stack-driven walk computes it. */
  method Specialize(plan: Plan, task: nat, tasks: nat) returns (specialized: Plan, notes: Notes)
    ensures NonGrowing(SpecializeNode())
    ensures var (t, end) := Down(plan, [], Some(Ctx(task, tasks)), SpecializeNode(), Notes(false, []));
            specialized == t.data && notes == end
  {
    SpecializingShrinks();
    var walker := new StackWalker(Ctx(task, tasks), SpecializeNode(), Notes(false, []));
    var t := walker.TransformDown(plan, []);
    return t.data, walker.state;
  }

  // ---------------------------------------------------------------- who depends on the task

  predicate DependsOnTask(op: Op) {
    op.Feed? || op.Isolator? || op.DistributedLeaf?
  }

  /** Some node of the stage, above every isolator, depends on the task. */
  predicate AnyDepends(p: Plan)
    decreases p, 1
  {
    DependsOnTask(p.op) || (!p.op.Boundary? && AnyChildDepends(p.children))
  }

  predicate AnyChildDepends(cs: seq<Plan>)
    decreases cs, 0
  {
    cs != [] && (AnyDepends(cs[0]) || AnyChildDepends(cs[1..]))
  }

  /** For one subtree: whether the flag is raised is read off the plan, whatever the task; and if it
      is not, the subtree stays as it is. */
  ghost predicate TaskBlind(p: Plan, out: (Transformed, Notes), before: bool, visited: bool) {
    && out.0.signal == Continue
    && (before ==> out.1.dependsOnTask)
    && (visited ==> out.1.dependsOnTask == (before || AnyDepends(p)))
    && (!AnyDepends(p) ==> out.0.data == p && out.1.dependsOnTask == before)
  }

  ghost predicate TaskBlindAll(cs: seq<Plan>, out: (Mapped, Notes), before: bool, visited: bool) {
    && out.0.signal == Continue
    && (before ==> out.1.dependsOnTask)
    && (visited ==> out.1.dependsOnTask == (before || AnyChildDepends(cs)))
    && (!AnyChildDepends(cs) ==> out.0.children == cs && out.1.dependsOnTask == before)
  }

  ghost predicate AllVisited(ctxs: seq<Option<Ctx>>) {
    forall c | 0 <= c < |ctxs| :: ctxs[c].Some?
  }

  lemma {:induction false} WalkIsTaskBlind(p: Plan, path: Path, ctx: Option<Ctx>, notes: Notes)
    requires NonGrowing(SpecializeNode())
    ensures TaskBlind(p, Down(p, path, ctx, SpecializeNode(), notes), notes.dependsOnTask, ctx.Some?)
    decreases Size(p), 0
  {
    if ctx.Some? && !p.op.Boundary? {
      var (t, mid) := SpecializeStep(p, ctx.value, notes);
      assert SpecializeNode()(path, p, ctx.value, notes) == (t, mid);
      assert Size(SpecializeNode()(path, p, ctx.value, notes).0.data) <= Size(p);
      WalkBelowIsTaskBlind(t.data.children, 0, path, ChildContexts(t.data, ctx.value), mid);
    }
  }

  lemma {:induction false} WalkBelowIsTaskBlind(cs: seq<Plan>, i: nat, path: Path, ctxs: seq<Option<Ctx>>, notes: Notes)
    requires NonGrowing(SpecializeNode()) && |ctxs| == |cs|
    ensures TaskBlindAll(cs, DownChildren(cs, i, path, ctxs, Continue, SpecializeNode(), notes), notes.dependsOnTask,
                         AllVisited(ctxs))
    decreases SizeAll(cs), 1
  {
    if cs != [] {
      WalkIsTaskBlind(cs[0], path + [i], ctxs[0], notes);
      var (t, mid) := Down(cs[0], path + [i], ctxs[0], SpecializeNode(), notes);
      WalkBelowIsTaskBlind(cs[1..], i + 1, path, ctxs[1..], mid);
    }
  }

  /** Sharing is sound: every task reports the same dependence, that of any feed, isolator or distributed
      leaf in the stage, and if there is none they all get the same plan. */
  lemma TasksAgree(plan: Plan, i: nat, j: nat, tasks: nat)
    ensures NonGrowing(SpecializeNode())
    ensures var (a, x) := Down(plan, [], Some(Ctx(i, tasks)), SpecializeNode(), Notes(false, []));
            var (b, y) := Down(plan, [], Some(Ctx(j, tasks)), SpecializeNode(), Notes(false, []));
            x.dependsOnTask == y.dependsOnTask == AnyDepends(plan) && (!x.dependsOnTask ==> a.data == b.data)
  {
    SpecializingShrinks();
    WalkIsTaskBlind(plan, [], Some(Ctx(i, tasks)), Notes(false, []));
    WalkIsTaskBlind(plan, [], Some(Ctx(j, tasks)), Notes(false, []));
  }

  // ---------------------------------------------------------------- the shared encoding

  datatype MaybeEncoded<B> = Decoded(plan: Plan) | Encoded(bytes: B)

  /** The bytes that cross the wire: a decoded plan is encoded by the channel. */
  function Wire<B>(message: MaybeEncoded<B>, encode: Plan -> Result<B>): (r: Result<B>) {
    match message
    case Decoded(plan) => encode(plan)
    case Encoded(bytes) => Success(bytes)
  }

  ghost function PlanOf(plan: Plan, task: nat, tasks: nat): (r: Plan) {
    SpecializingShrinks();
    Down(plan, [], Some(Ctx(task, tasks)), SpecializeNode(), Notes(false, [])).0.data
  }

  /** The part of a stage's coordinator that dials its tasks. */
  class StageCoordinator<B> {
    const plan: Plan
    const tasks: nat
    const encode: Plan -> Result<B>
    var sharedEncodedPlan: Option<B>

    /** Whatever is shared is the encoding of every task's own plan. */
    ghost predicate Valid()
      reads this
    {
      sharedEncodedPlan.Some? ==> forall i :: encode(PlanOf(plan, i, tasks)) == Success(sharedEncodedPlan.value)
    }

    constructor (plan: Plan, tasks: nat, encode: Plan -> Result<B>)
      ensures Valid() && sharedEncodedPlan.None? && this.plan == plan && this.tasks == tasks && this.encode == encode
    {
      this.plan, this.tasks, this.encode, sharedEncodedPlan := plan, tasks, encode, None;
    }

    /** One dial of one task; tasks may be dialled in any order, repeatedly, locally or remotely. What
        the worker gets is the encoding of that task's own plan, and a dial fails only if that plan
        cannot be encoded. */
    method Dial(task: nat, local: bool) returns (message: Result<MaybeEncoded<B>>)
      requires Valid()
      modifies this
      ensures Valid() && (old(sharedEncodedPlan).Some? ==> sharedEncodedPlan == old(sharedEncodedPlan))
      ensures message.Success? ==> Wire(message.value, encode) == encode(PlanOf(plan, task, tasks))
      ensures message.Failure? ==> encode(PlanOf(plan, task, tasks)).Failure?
      ensures local || AnyDepends(plan) ==>
                message == Success(Decoded(PlanOf(plan, task, tasks))) && sharedEncodedPlan == old(sharedEncodedPlan)
      ensures !local && !AnyDepends(plan) && message.Success? ==>
                sharedEncodedPlan.Some? && message.value == Encoded(sharedEncodedPlan.value)
    {
      var specialized, notes := Specialize(plan, task, tasks);
      TasksAgree(plan, task, task, tasks);
      if local || notes.dependsOnTask {
        return Success(Decoded(specialized));
      }
      match sharedEncodedPlan {
        case Some(bytes) => return Success(Encoded(bytes));
        case None =>
          var bytes :- encode(specialized);
          forall i ensures encode(PlanOf(plan, i, tasks)) == Success(bytes) {
            TasksAgree(plan, i, task, tasks);
          }
          sharedEncodedPlan := Some(bytes);
          return Success(Encoded(bytes));
      }
    }
  }
}
