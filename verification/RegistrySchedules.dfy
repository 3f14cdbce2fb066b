/** The order in which calls of different tasks interleave does not decide what is merged. */
module RegistrySchedules {
  import opened Wrappers
  import opened DynamicFilters
  import opened RegistrySteps
  import opened RegistryInvariant
  import opened RegistryPreservation
  import opened RegistryRuns
  import opened RegistrySoundness
  import opened RegistryCatalog
  import opened RegistryTheorems

  /** What one task contributes: its registration and its reports, in its own order. */
  datatype Action = Registered(produced: seq<Produced>) | Reported(report: Report)

  function ActionOf(e: Event, key: TaskKey): (acts: seq<Action>) {
    if e.TaskRegistered? && e.key == key then [Registered(e.produced)]
    else if e.UpdateReceived? && e.key == key then [Action.Reported(e.report)]
    else []
  }

  function Actions(es: seq<Event>, key: TaskKey): (acts: seq<Action>) {
    if es == [] then [] else ActionOf(es[0], key) + Actions(es[1..], key)
  }

  function Seals(es: seq<Event>): (stages: set<nat>) {
    if es == [] then {} else (if es[0].StageSealed? then {es[0].stage} else {}) + Seals(es[1..])
  }

  /** Is the task a producer of the filter, and what is its stored report? */
  type View = Option<Option<Snapshot>>

  function ViewOf(s: State, id: nat, key: TaskKey): (v: View) {
    if id in s.filters && key in s.filters[id].producers then Some(s.filters[id].producers[key]) else None
  }

  predicate Produces(produced: seq<Produced>, id: nat) {
    exists i | 0 <= i < |produced| :: produced[i].id == id
  }

  predicate WellFormed(report: Report) {
    && report.exprId == Some(report.id)
    && report.payload.DynamicFilter?
    && report.payload.snapshot.inner.Some?
  }

  /** The producers that are registered before the first one that disagrees. */
  function Admitted(cat: Catalog, produced: seq<Produced>): (ps: seq<Produced>) {
    if produced == [] || !Agrees(cat, produced[0]) then [] else [produced[0]] + Admitted(cat, produced[1..])
  }

  function LocalStep(cat: Catalog, v: View, act: Action, id: nat): (w: View) {
    match act
    case Registered(produced) => if v.None? && Produces(Admitted(cat, produced), id) then Some(None) else v
    case Reported(report) =>
      if report.id == id && v.Some? && WellFormed(report)
         && Accepted(Some(cat.mode(id)), v.value, report.payload.snapshot)
      then Some(Some(report.payload.snapshot))
      else v
  }

  /** The view after the task's own actions alone. */
  function Local(cat: Catalog, v: View, acts: seq<Action>, id: nat): (w: View)
    decreases |acts|
  {
    if acts == [] then v else Local(cat, LocalStep(cat, v, acts[0], id), acts[1..], id)
  }

  lemma {:induction false} LocalConcat(cat: Catalog, v: View, a: seq<Action>, b: seq<Action>, id: nat)
    ensures Local(cat, v, a + b, id) == Local(cat, Local(cat, v, a, id), b, id)
    decreases |a|
  {
    if a == [] {
      assert a + b == b;
    } else {
      assert (a + b)[0] == a[0] && (a + b)[1..] == a[1..] + b;
      LocalConcat(cat, LocalStep(cat, v, a[0], id), a[1..], b, id);
    }
  }

  // ---------------------------------------------------------------- one step

  lemma RegisterProducerView(cat: Catalog, s: State, key: TaskKey, p: Produced, id: nat, k: TaskKey)
    requires RegisterProducer(s, key, p).outcome == Ok
    ensures ViewOf(RegisterProducer(s, key, p).state, id, k) ==
            if k == key && ViewOf(s, id, k).None? && p.id == id then Some(None) else ViewOf(s, id, k)
  {
  }

  lemma {:induction false} RegisterProducersView(cat: Catalog, s: State, key: TaskKey, produced: seq<Produced>,
                                                 id: nat, k: TaskKey)
    requires Safe(cat, s) && MayJoinAll(cat, s, key, produced)
    requires key !in s.senders && key.stage !in s.sealed
    ensures ViewOf(RegisterProducers(s, key, produced).state, id, k) ==
            if k == key && ViewOf(s, id, k).None? && Produces(Admitted(cat, produced), id) then Some(None)
            else ViewOf(s, id, k)
    ensures RegisterProducers(s, key, produced).state.sealed == s.sealed
    decreases |produced|
  {
    if produced != [] {
      RegisterProducerKeeps(cat, s, key, produced[0]);
      if Agrees(cat, produced[0]) {
        RegisterProducerView(cat, s, key, produced[0], id, k);
        RegisterProducersView(cat, RegisterProducer(s, key, produced[0]).state, key, produced[1..], id, k);
        ProducesFirst(produced[0], Admitted(cat, produced[1..]), id);
      } else {
        DisagreementIsRejected(cat, s, key, produced[0]);
      }
    }
  }

  lemma ProducesFirst(p: Produced, rest: seq<Produced>, id: nat)
    ensures Produces([p] + rest, id) <==> p.id == id || Produces(rest, id)
  {
    var all := [p] + rest;
    if p.id == id {
      assert all[0].id == id;
    }
    if i :| 0 <= i < |rest| && rest[i].id == id {
      assert all[i + 1].id == id;
    }
  }

  lemma {:induction false} RegisterConsumersView(s: State, key: TaskKey, consumed: seq<nat>, id: nat, k: TaskKey)
    ensures ViewOf(RegisterConsumers(s, key, consumed), id, k) == ViewOf(s, id, k)
    ensures RegisterConsumers(s, key, consumed).sealed == s.sealed
    decreases |consumed|
  {
    if consumed != [] {
      RegisterConsumersView(RegisterConsumer(s, key, consumed[0]), key, consumed[1..], id, k);
    }
  }

  lemma UpdateView(cat: Catalog, s: State, key: TaskKey, report: Report, order: Walk, id: nat, k: TaskKey)
    requires Safe(cat, s)
    ensures ViewOf(RecordUpdate(s, key, report, order).state, id, k) ==
            (if k == key && report.id == id && Stored(s, key, report)
             then Some(Some(report.payload.snapshot)) else ViewOf(s, id, k))
    ensures RecordUpdate(s, key, report, order).state.sealed == s.sealed
    ensures report.id == id ==>
              (Stored(s, key, report) <==>
               var v := ViewOf(s, id, key);
               v.Some? && WellFormed(report) && Accepted(Some(cat.mode(id)), v.value, report.payload.snapshot))
  {
    if report.id in s.filters {
      assert FilterOk(cat, report.id, s.filters[report.id]);
    }
    if Stored(s, key, report) {
      var t := StoreReport(s, key, report.id, report.payload.snapshot);
      MergeAndDispatchKeepsComplete(t, report.id, order);
    }
  }

  lemma StepView(cat: Catalog, s: State, e: Event, id: nat, k: TaskKey)
    requires Safe(cat, s) && Guard(cat, s, e)
    ensures ViewOf(Step(s, e).state, id, k) == Local(cat, ViewOf(s, id, k), ActionOf(e, k), id)
    ensures Step(s, e).state.sealed == s.sealed + Seals([e])
  {
    match e {
      case TaskRegistered(key, produced, consumed) =>
        RegisterProducersKeeps(cat, s, key, produced);
        RegisterProducersView(cat, s, key, produced, id, k);
        RegisterConsumersView(RegisterProducers(s, key, produced).state, key, consumed, id, k);
      case SenderRegistered(key, sched) => DispatchEachKeepsFilters(Connect(s, key), sched);
      case StageSealed(stage, sched) => MergeEachKeepsComplete(s.(sealed := s.sealed + {stage}), sched);
      case UpdateReceived(key, report, order) => UpdateView(cat, s, key, report, order, id, k);
      case QueryFinished =>
    }
  }

  // ---------------------------------------------------------------- whole runs

  /** After a run, what a task has stored is decided by that task's own actions. */
  lemma {:induction false} RunView(cat: Catalog, r: Run, es: seq<Event>, id: nat, k: TaskKey)
    requires Inv(cat, r) && Guarded(cat, r, es)
    ensures ViewOf(RunFrom(r, es).state, id, k) ==
            Local(cat, ViewOf(r.state, id, k), Actions(es, k), id)
    ensures RunFrom(r, es).state.sealed == r.state.sealed + Seals(es)
    decreases |es|
  {
    if es != [] {
      StepView(cat, r.state, es[0], id, k);
      StepKeepsInv(cat, r, es[0]);
      RunView(cat, Advance(r, es[0]), es[1..], id, k);
      LocalConcat(cat, ViewOf(r.state, id, k), ActionOf(es[0], k), Actions(es[1..], k), id);
    }
  }

  /** The same calls of each task and the same seals, in any other interleaving. */
  ghost predicate Interleavings(es: seq<Event>, fs: seq<Event>) {
    && (forall key :: Actions(es, key) == Actions(fs, key))
    && Seals(es) == Seals(fs)
  }

  ghost function ProducersOf(s: State, id: nat): (reports: Reports) {
    FilterAt(s.filters, id).producers
  }

  lemma SameProducers(cat: Catalog, es: seq<Event>, fs: seq<Event>, id: nat)
    requires Guarded(cat, Start, es) && Guarded(cat, Start, fs) && Interleavings(es, fs)
    ensures var s, t := RunFrom(Start, es).state, RunFrom(Start, fs).state;
            ProducersOf(s, id) == ProducersOf(t, id) && s.sealed == t.sealed
  {
    var s, t := RunFrom(Start, es).state, RunFrom(Start, fs).state;
    StartIsGood(cat);
    forall key ensures ViewOf(s, id, key) == ViewOf(t, id, key) {
      RunView(cat, Start, es, id, key);
      RunView(cat, Start, fs, id, key);
    }
    RunView(cat, Start, es, id, TaskKey(0, 0));
    RunView(cat, Start, fs, id, TaskKey(0, 0));
    forall key ensures key in ProducersOf(s, id) <==> key in ProducersOf(t, id)
               ensures key in ProducersOf(s, id) ==> ProducersOf(s, id)[key] == ProducersOf(t, id)[key]
    {
      assert ViewOf(s, id, key) == ViewOf(t, id, key);
    }
  }

  /** The two ends do not disagree on the policy or the schema of any filter. */
  ghost predicate SamePolicies(s: State, t: State) {
    forall id | id in s.filters && id in t.filters ::
      && (s.filters[id].mode.Some? && t.filters[id].mode.Some? ==> s.filters[id].mode == t.filters[id].mode)
      && (s.filters[id].schema.Some? && t.filters[id].schema.Some? ==> s.filters[id].schema == t.filters[id].schema)
  }

  /** The catalog of both ends. */
  function CatalogOfBoth(stage: nat -> nat, s: State, t: State): (cat: Catalog) {
    Catalog((id: nat) => if id in s.filters && s.filters[id].mode.Some? then ModeIn(s, id) else ModeIn(t, id),
            (id: nat) => if id in s.filters && s.filters[id].schema.Some? then SchemaIn(s, id) else SchemaIn(t, id),
            stage)
  }

  lemma BothAreGuarded(stage: nat -> nat, es: seq<Event>, fs: seq<Event>)
    requires Ordered(stage, Start, es) && Ordered(stage, Start, fs)
    requires SamePolicies(RunFrom(Start, es).state, RunFrom(Start, fs).state)
    ensures var s, t := RunFrom(Start, es).state, RunFrom(Start, fs).state;
            var cat := CatalogOfBoth(stage, s, t);
            && Guarded(cat, Start, es) && Guarded(cat, Start, fs)
            && Inv(cat, RunFrom(Start, es)) && Inv(cat, RunFrom(Start, fs))
  {
    var cat := CatalogOfBoth(stage, RunFrom(Start, es).state, RunFrom(Start, fs).state);
    StartIsGood(cat);
    OrderedIsGuarded(cat, Start, es);
    OrderedIsGuarded(cat, Start, fs);
    RunKeepsInv(cat, Start, es);
    RunKeepsInv(cat, Start, fs);
  }

  /** Schedule independence: however the same calls interleave, whatever registrations are rejected and
      whatever sends outside seals fail, a union ends as the same filter and an intersection as the
      same predicate with the same completion flag. */
  lemma ScheduleIndependence(stage: nat -> nat, es: seq<Event>, fs: seq<Event>, id: nat)
    requires Ordered(stage, Start, es) && Ordered(stage, Start, fs) && Interleavings(es, fs)
    requires RunFrom(Start, es).sealsSucceeded && RunFrom(Start, fs).sealsSucceeded
    requires SamePolicies(RunFrom(Start, es).state, RunFrom(Start, fs).state)
    ensures var s, t := RunFrom(Start, es).state, RunFrom(Start, fs).state;
            var mode, a, b := CatalogOfBoth(stage, s, t).mode(id), MergedOf(s, id), MergedOf(t, id);
            && a.Some? == b.Some?
            && (mode == UnionWhenAllComplete ==> a == b)
            && (mode == IntersectOnUpdate && a.Some? ==>
                  a.value.inner == b.value.inner && a.value.complete == b.value.complete)
  {
    var s, t := RunFrom(Start, es).state, RunFrom(Start, fs).state;
    var cat := CatalogOfBoth(stage, s, t);
    BothAreGuarded(stage, es, fs);
    SameProducers(cat, es, fs, id);
    MergedOfIsExact(cat, s, id);
    MergedOfIsExact(cat, t, id);
  }

  lemma MergedOfIsExact(cat: Catalog, s: State, id: nat)
    requires Safe(cat, s) && Exact(cat, s)
    ensures MergedExact(cat.mode(id), ProducersOf(s, id), s.sealed, MergedOf(s, id))
  {
    if id in s.filters {
      assert ExactAt(cat, s, id);
    } else {
      assert ReportedKeys(NewFilter.producers) == {};
    }
  }

  // ---------------------------------------------------------------- when policies cannot race

  predicate AllAgree(cat: Catalog, e: Event) {
    e.TaskRegistered? ==> forall i | 0 <= i < |e.produced| :: Agrees(cat, e.produced[i])
  }

  /** If all plan nodes that produce a filter agree, as the planner makes them, then so do the ends of
      any two runs. */
  lemma {:induction false} AgreeingRunIsDescribed(cat: Catalog, r: Run, es: seq<Event>)
    requires Describes(cat, r.state) && forall i | 0 <= i < |es| :: AllAgree(cat, es[i])
    ensures Describes(cat, RunFrom(r, es).state)
    decreases |es|
  {
    if es != [] {
      AgreeingStepIsDescribed(cat, r.state, es[0]);
      AgreeingRunIsDescribed(cat, Advance(r, es[0]), es[1..]);
    }
  }

  lemma AgreeingStepIsDescribed(cat: Catalog, s: State, e: Event)
    requires Describes(cat, s) && AllAgree(cat, e)
    ensures Describes(cat, Step(s, e).state)
  {
    match e {
      case TaskRegistered(key, produced, consumed) =>
        AgreeingProducersAreDescribed(cat, s, key, produced);
        ConsumersAreDescribed(cat, RegisterProducers(s, key, produced).state, key, consumed);
      case SenderRegistered(key, sched) => DispatchEachKeepsFilters(Connect(s, key), sched);
      case StageSealed(stage, sched) => MergesAreDescribed(cat, s.(sealed := s.sealed + {stage}), sched);
      case UpdateReceived(key, report, order) => UpdateIsDescribed(cat, s, key, report, order);
      case QueryFinished =>
    }
  }

  lemma MergeIsDescribed(cat: Catalog, s: State, id: nat, order: Walk)
    requires Describes(cat, s)
    ensures Describes(cat, MergeAndDispatch(s, id, order).state)
  {
    DispatchKeepsFilters(MergeFilter(s, id).0, id, order);
  }

  lemma UpdateIsDescribed(cat: Catalog, s: State, key: TaskKey, report: Report, order: Walk)
    requires Describes(cat, s)
    ensures Describes(cat, RecordUpdate(s, key, report, order).state)
  {
    if Stored(s, key, report) {
      MergeIsDescribed(cat, StoreReport(s, key, report.id, report.payload.snapshot), report.id, order);
    }
  }

  lemma {:induction false} AgreeingProducersAreDescribed(cat: Catalog, s: State, key: TaskKey, produced: seq<Produced>)
    requires Describes(cat, s) && forall i | 0 <= i < |produced| :: Agrees(cat, produced[i])
    ensures Describes(cat, RegisterProducers(s, key, produced).state)
    decreases |produced|
  {
    if produced != [] {
      AgreeingProducersAreDescribed(cat, RegisterProducer(s, key, produced[0]).state, key, produced[1..]);
    }
  }

  lemma {:induction false} ConsumersAreDescribed(cat: Catalog, s: State, key: TaskKey, consumed: seq<nat>)
    requires Describes(cat, s)
    ensures Describes(cat, RegisterConsumers(s, key, consumed))
    decreases |consumed|
  {
    if consumed != [] {
      ConsumersAreDescribed(cat, RegisterConsumer(s, key, consumed[0]), key, consumed[1..]);
    }
  }

  lemma {:induction false} MergesAreDescribed(cat: Catalog, s: State, sched: Schedule)
    requires Describes(cat, s)
    ensures Describes(cat, MergeEach(s, sched).state)
    decreases |sched|
  {
    if sched != [] {
      MergeIsDescribed(cat, s, sched[0].0, sched[0].1);
      MergesAreDescribed(cat, MergeAndDispatch(s, sched[0].0, sched[0].1).state, sched[1..]);
    }
  }

  lemma AgreeingRunsHaveSamePolicies(cat: Catalog, es: seq<Event>, fs: seq<Event>)
    requires forall i | 0 <= i < |es| :: AllAgree(cat, es[i])
    requires forall i | 0 <= i < |fs| :: AllAgree(cat, fs[i])
    ensures SamePolicies(RunFrom(Start, es).state, RunFrom(Start, fs).state)
  {
    AgreeingRunIsDescribed(cat, Start, es);
    AgreeingRunIsDescribed(cat, Start, fs);
  }

  // ---------------------------------------------------------------- forwarded filters

  /** Equal but for the producer's own generation, which forwarding replaces. */
  predicate SameReport(a: Option<Snapshot>, b: Option<Snapshot>) {
    a.Some? == b.Some? && (a.Some? ==> a.value.(generation := 0) == b.value.(generation := 0))
  }

  /** Exactly when two runs forward the same filter: their first accepted reports agree. */
  lemma ForwardedIffSameFirst(stage: nat -> nat, es: seq<Event>, fs: seq<Event>, id: nat)
    requires Ordered(stage, Start, es) && Ordered(stage, Start, fs)
    requires ModeIn(RunFrom(Start, es).state, id) == ModeIn(RunFrom(Start, fs).state, id) == ForwardFirstComplete
    ensures MergedOf(RunFrom(Start, es).state, id) == MergedOf(RunFrom(Start, fs).state, id) <==>
            SameReport(FirstFor(History(Start, es), id), FirstFor(History(Start, fs), id))
  {
    ForwardedIsFirst(stage, es, id);
    ForwardedIsFirst(stage, fs, id);
  }

  /** All complete reports of the filter are `x`, up to generation: every producer saw the same build
      side. */
  ghost predicate OneReport(es: seq<Event>, id: nat, x: Snapshot) {
    forall key, a | a in Actions(es, key) :: Repeats(a, id, x)
  }

  predicate Repeats(a: Action, id: nat, x: Snapshot) {
    a.Reported? && a.report.id == id && a.report.payload.DynamicFilter? && a.report.payload.snapshot.complete ==>
      a.report.payload.snapshot.(generation := 0) == x.(generation := 0)
  }

  lemma {:induction false} FirstIsOneReport(cat: Catalog, r: Run, es: seq<Event>, id: nat, x: Snapshot)
    requires Inv(cat, r) && Guarded(cat, r, es) && OneReport(es, id, x) && cat.mode(id) == ForwardFirstComplete
    ensures FirstFor(History(r, es), id).Some? ==> SameReport(FirstFor(History(r, es), id), Some(x))
    decreases |es|
  {
    if es != [] {
      StepKeepsInv(cat, r, es[0]);
      forall key, a | a in Actions(es[1..], key) ensures Repeats(a, id, x) {
        assert a in Actions(es, key);
      }
      FirstIsOneReport(cat, Advance(r, es[0]), es[1..], id, x);
      var now, later := AcceptedBy(r.state, es[0]), History(Advance(r, es[0]), es[1..]);
      if now == [] {
        assert now + later == later;
      } else {
        assert Action.Reported(es[0].report) in Actions(es, es[0].key);
        assert Repeats(Action.Reported(es[0].report), id, x);
        if es[0].report.id == id {
          AcceptedIsComplete(cat, r.state, es[0]);
        }
        assert (now + later)[0] == now[0] && (now + later)[1..] == later;
      }
    }
  }

  lemma AcceptedIsComplete(cat: Catalog, s: State, e: Event)
    requires Safe(cat, s) && AcceptedBy(s, e) != [] && cat.mode(e.report.id) != IntersectOnUpdate
    ensures e.report.payload.DynamicFilter? && e.report.payload.snapshot.complete
  {
    assert FilterOk(cat, e.report.id, s.filters[e.report.id]);
  }

  /** Forwarding is schedule independent where it is meant to be used: if all complete reports of the
      filter agree up to generation, every interleaving forwards the same filter. */
  lemma ForwardingOfOneReport(stage: nat -> nat, es: seq<Event>, fs: seq<Event>, id: nat, x: Snapshot)
    requires Ordered(stage, Start, es) && Ordered(stage, Start, fs) && Interleavings(es, fs)
    requires SamePolicies(RunFrom(Start, es).state, RunFrom(Start, fs).state)
    requires ModeIn(RunFrom(Start, es).state, id) == ModeIn(RunFrom(Start, fs).state, id) == ForwardFirstComplete
    requires OneReport(es, id, x)
    ensures MergedOf(RunFrom(Start, es).state, id) == MergedOf(RunFrom(Start, fs).state, id)
  {
    var s, t := RunFrom(Start, es).state, RunFrom(Start, fs).state;
    var cat := CatalogOfBoth(stage, s, t);
    BothAreGuarded(stage, es, fs);
    SameProducers(cat, es, fs, id);
    StartIsGood(cat);
    FirstIsOneReport(cat, Start, es, id, x);
    assert OneReport(fs, id, x) by {
      forall key, a | a in Actions(fs, key) ensures Repeats(a, id, x) {
        assert a in Actions(es, key);
      }
    }
    FirstIsOneReport(cat, Start, fs, id, x);
    ForwardedIsFirst(stage, es, id);
    ForwardedIsFirst(stage, fs, id);
    ForwardedIffReported(stage, es, id);
    ForwardedIffReported(stage, fs, id);
  }

  lemma ForwardedIffReported(stage: nat -> nat, es: seq<Event>, id: nat)
    requires Ordered(stage, Start, es) && ModeIn(RunFrom(Start, es).state, id) == ForwardFirstComplete
    ensures var s := RunFrom(Start, es).state;
            MergedOf(s, id).Some? <==> ReportedKeys(ProducersOf(s, id)) != {}
  {
    RunHolds(stage, es);
    var s := RunFrom(Start, es).state;
    assert SoundAt(CatalogOf(stage, s), s, History(Start, es), id);
  }
}
