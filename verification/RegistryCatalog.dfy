/** Runs in the callers' order, and the catalog that can be read off where such a run ends. */
module RegistryCatalog {
  import opened Wrappers
  import opened DynamicFilters
  import opened RegistrySteps
  import opened RegistryInvariant
  import opened RegistryPreservation
  import opened RegistryRuns

  /** The order the callers keep, given the stage each filter's producers are in: a task registers
      before its sender does and before its stage is sealed. Nothing is said about policies and
      schemas; the registry itself rejects those that conflict. */
  ghost predicate InOrder(stage: nat -> nat, s: State, e: Event) {
    match e
    case TaskRegistered(key, produced, consumed) =>
      && key !in s.senders && key.stage !in s.sealed
      && forall i | 0 <= i < |produced| :: key.stage == stage(produced[i].id)
    case SenderRegistered(key, sched) => Covers(sched, s.filters)
    case StageSealed(stage, sched) => Covers(sched, s.filters)
    case UpdateReceived(key, report, order) =>
      report.id in s.filters ==> Enumerates(order, s.filters[report.id].consumers)
    case QueryFinished => true
  }

  ghost predicate Ordered(stage: nat -> nat, r: Run, es: seq<Event>)
    decreases |es|
  {
    es == [] || (InOrder(stage, r.state, es[0]) && Ordered(stage, Advance(r, es[0]), es[1..]))
  }

  lemma {:induction false} RunAppends(stage: nat -> nat, r: Run, es: seq<Event>, e: Event)
    ensures RunFrom(r, es + [e]) == Advance(RunFrom(r, es), e)
    ensures Ordered(stage, r, es + [e]) <==> Ordered(stage, r, es) && InOrder(stage, RunFrom(r, es).state, e)
    decreases |es|
  {
    if es == [] {
      assert es + [e] == [e] && [e][1..] == [];
    } else {
      assert (es + [e])[0] == es[0] && (es + [e])[1..] == es[1..] + [e];
      RunAppends(stage, Advance(r, es[0]), es[1..], e);
    }
  }

  // ---------------------------------------------------------------- what is registered stays

  /** Every policy and schema registered in `s` is still registered in `t`. */
  ghost predicate Extends(s: State, t: State) {
    forall id | id in s.filters ::
      && id in t.filters
      && (s.filters[id].mode.Some? ==> t.filters[id].mode == s.filters[id].mode)
      && (s.filters[id].schema.Some? ==> t.filters[id].schema == s.filters[id].schema)
  }

  lemma {:induction false} SendAllKeepsFilters(s: State, id: nat, u: Update, attempts: seq<Attempt>)
    requires id in s.filters && u.id == id
    ensures SendAll(s, id, u, attempts).state.filters == s.filters
    ensures SendAll(s, id, u, attempts).state.sealed == s.sealed
    decreases |attempts|
  {
    if attempts != [] {
      if Skipped(s, id, attempts[0].key) {
        SendAllKeepsFilters(s, id, u, attempts[1..]);
      } else if attempts[0].found.Listening? {
        SendAllKeepsFilters(Send(s, attempts[0].key, u), id, u, attempts[1..]);
      }
    }
  }

  lemma DispatchKeepsFilters(s: State, id: nat, order: Walk)
    ensures Dispatch(s, id, order).state.filters == s.filters
    ensures Dispatch(s, id, order).state.sealed == s.sealed
  {
    if id in s.filters && s.filters[id].mergedBytes.Some? && s.filters[id].schema.Some? {
      var f := s.filters[id];
      SendAllKeepsFilters(s, id, Update(id, f.mergedBytes.value, f.schema.value), order.attempts);
    }
  }

  lemma {:induction false} DispatchEachKeepsFilters(s: State, sched: Schedule)
    ensures DispatchEach(s, sched).state.filters == s.filters
    ensures DispatchEach(s, sched).state.sealed == s.sealed
    decreases |sched|
  {
    if sched != [] {
      DispatchKeepsFilters(s, sched[0].0, sched[0].1);
      DispatchEachKeepsFilters(Dispatch(s, sched[0].0, sched[0].1).state, sched[1..]);
    }
  }

  lemma MergeExtends(s: State, id: nat, order: Walk)
    ensures Extends(s, MergeAndDispatch(s, id, order).state)
  {
    DispatchKeepsFilters(MergeFilter(s, id).0, id, order);
  }

  lemma {:induction false} MergeEachExtends(s: State, sched: Schedule)
    ensures Extends(s, MergeEach(s, sched).state)
    decreases |sched|
  {
    if sched != [] {
      MergeExtends(s, sched[0].0, sched[0].1);
      MergeEachExtends(MergeAndDispatch(s, sched[0].0, sched[0].1).state, sched[1..]);
    }
  }

  lemma {:induction false} ProducersExtend(s: State, key: TaskKey, produced: seq<Produced>)
    ensures Extends(s, RegisterProducers(s, key, produced).state)
    decreases |produced|
  {
    if produced != [] {
      var r := RegisterProducer(s, key, produced[0]);
      assert Extends(s, r.state);
      ProducersExtend(r.state, key, produced[1..]);
    }
  }

  lemma {:induction false} ConsumersExtend(s: State, key: TaskKey, consumed: seq<nat>)
    ensures Extends(s, RegisterConsumers(s, key, consumed))
    decreases |consumed|
  {
    if consumed != [] {
      var t := RegisterConsumer(s, key, consumed[0]);
      assert Extends(s, t);
      ConsumersExtend(t, key, consumed[1..]);
    }
  }

  lemma StepExtends(s: State, e: Event)
    ensures Extends(s, Step(s, e).state)
  {
    match e {
      case TaskRegistered(key, produced, consumed) =>
        ProducersExtend(s, key, produced);
        ConsumersExtend(RegisterProducers(s, key, produced).state, key, consumed);
      case SenderRegistered(key, sched) => DispatchEachKeepsFilters(Connect(s, key), sched);
      case StageSealed(stage, sched) => MergeEachExtends(s.(sealed := s.sealed + {stage}), sched);
      case UpdateReceived(key, report, order) =>
        if Stored(s, key, report) {
          MergeExtends(StoreReport(s, key, report.id, report.payload.snapshot), report.id, order);
        }
      case QueryFinished =>
    }
  }

  lemma {:induction false} RunExtends(r: Run, es: seq<Event>)
    ensures Extends(r.state, RunFrom(r, es).state)
    decreases |es|
  {
    if es != [] {
      StepExtends(r.state, es[0]);
      RunExtends(Advance(r, es[0]), es[1..]);
    }
  }

  // ---------------------------------------------------------------- reading the catalog off

  function ModeIn(s: State, id: nat): (mode: Policy) {
    if id in s.filters && s.filters[id].mode.Some? then s.filters[id].mode.value else UnionWhenAllComplete
  }

  function SchemaIn(s: State, id: nat): (schema: nat) {
    if id in s.filters && s.filters[id].schema.Some? then s.filters[id].schema.value else 0
  }

  function CatalogOf(stage: nat -> nat, s: State): (cat: Catalog) {
    Catalog((id: nat) => ModeIn(s, id), (id: nat) => SchemaIn(s, id), stage)
  }

  /** The catalog says what `t` has registered. */
  ghost predicate Describes(cat: Catalog, t: State) {
    forall id | id in t.filters ::
      && (t.filters[id].mode.Some? ==> t.filters[id].mode.value == cat.mode(id))
      && (t.filters[id].schema.Some? ==> t.filters[id].schema.value == cat.schema(id))
  }

  /** What a filter is first registered with stays, so it is what the catalog says. */
  lemma DescribedFirst(cat: Catalog, s: State, key: TaskKey, produced: seq<Produced>, t: State)
    requires Safe(cat, s) && Describes(cat, t) && produced != [] && key.stage == cat.stage(produced[0].id)
    requires Extends(RegisterProducers(s, key, produced).state, t)
    ensures MayJoin(cat, s, key, produced[0])
  {
    var p := produced[0];
    var r := RegisterProducer(s, key, p);
    assert FilterOk(cat, p.id, FilterAt(s.filters, p.id));
    if FilterAt(s.filters, p.id).mode.None? {
      assert r.outcome == Ok && r.state.filters[p.id].mode == Some(ModeOf(p.node));
      ProducersExtend(r.state, key, produced[1..]);
    }
  }

  lemma {:induction false} DescribedMayJoin(cat: Catalog, s: State, key: TaskKey, produced: seq<Produced>, t: State)
    requires Safe(cat, s) && Describes(cat, t) && key !in s.senders && key.stage !in s.sealed
    requires forall i | 0 <= i < |produced| :: key.stage == cat.stage(produced[i].id)
    requires Extends(RegisterProducers(s, key, produced).state, t)
    ensures MayJoinAll(cat, s, key, produced)
    decreases |produced|
  {
    if produced != [] {
      var p := produced[0];
      var r := RegisterProducer(s, key, p);
      DescribedFirst(cat, s, key, produced, t);
      if r.outcome == Ok {
        RegisterProducerKeeps(cat, s, key, p);
        DescribedMayJoin(cat, r.state, key, produced[1..], t);
      }
    }
  }

  /** Every run in the callers' order is guarded by each catalog that describes where it ends. */
  lemma {:induction false} OrderedIsGuarded(cat: Catalog, r: Run, es: seq<Event>)
    requires Inv(cat, r) && Ordered(cat.stage, r, es) && Describes(cat, RunFrom(r, es).state)
    ensures Guarded(cat, r, es)
    decreases |es|
  {
    if es != [] {
      var e, s, t := es[0], r.state, RunFrom(r, es).state;
      RunExtends(Advance(r, e), es[1..]);
      if e.TaskRegistered? {
        ConsumersExtend(RegisterProducers(s, e.key, e.produced).state, e.key, e.consumed);
        DescribedMayJoin(cat, s, e.key, e.produced, t);
      }
      StepKeepsInv(cat, r, e);
      OrderedIsGuarded(cat, Advance(r, e), es[1..]);
    }
  }

  lemma StartHolds(cat: Catalog)
    ensures Inv(cat, Start)
  {
  }

  lemma RunIsGuarded(stage: nat -> nat, es: seq<Event>)
    requires Ordered(stage, Start, es)
    ensures Guarded(CatalogOf(stage, RunFrom(Start, es).state), Start, es)
  {
    var cat := CatalogOf(stage, RunFrom(Start, es).state);
    StartHolds(cat);
    OrderedIsGuarded(cat, Start, es);
  }
}
