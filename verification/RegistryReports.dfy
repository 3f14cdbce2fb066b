/** What the registry holds after a run, told from each task's own calls: which reports are stored, what
    they are merged to, and who is registered for what. */
module RegistryReports {
  import opened Wrappers
  import opened DynamicFilters
  import opened RegistrySteps
  import opened RegistryInvariant
  import opened RegistryPreservation
  import opened RegistryRuns
  import opened RegistrySoundness
  import opened RegistryCatalog
  import opened RegistryTheorems
  import opened RegistrySchedules

  // ---------------------------------------------------------------- a task's own reports

  /** The well-formed reports a task makes of filter `id` once it is registered as a producer of it. */
  function ReportsSince(cat: Catalog, acts: seq<Action>, id: nat, registered: bool): (xs: seq<Snapshot>) {
    if acts == [] then [] else
      match acts[0]
      case Registered(produced) =>
        ReportsSince(cat, acts[1..], id, registered || Produces(Admitted(cat, produced), id))
      case Reported(report) =>
        var rest := ReportsSince(cat, acts[1..], id, registered);
        if registered && report.id == id && WellFormed(report) then [report.payload.snapshot] + rest else rest
  }

  /** Item `i` is complete and none before it is. */
  predicate FirstCompleteAt(xs: seq<Snapshot>, i: int) {
    0 <= i < |xs| && xs[i].complete && forall j | 0 <= j < i :: !xs[j].complete
  }

  function FirstComplete(xs: seq<Snapshot>): (x: Option<Snapshot>)
    ensures x.None? ==> forall i | 0 <= i < |xs| :: !xs[i].complete
    ensures x.Some? ==> exists i :: FirstCompleteAt(xs, i) && x.value == xs[i]
  {
    if xs == [] then None
    else if xs[0].complete then assert FirstCompleteAt(xs, 0); Some(xs[0])
    else
      var x := FirstComplete(xs[1..]);
      assert x.Some? ==> exists i :: FirstCompleteAt(xs, i) && x.value == xs[i] by {
        if x.Some? {
          var i :| FirstCompleteAt(xs[1..], i) && x.value == xs[1..][i];
          assert FirstCompleteAt(xs, i + 1);
        }
      }
      x
  }

  /** No item before `i` is complete, and `i` is the last one or complete. */
  predicate LatestAt(xs: seq<Snapshot>, i: int) {
    0 <= i < |xs| && (i == |xs| - 1 || xs[i].complete) && forall j | 0 <= j < i :: !xs[j].complete
  }

  /** The latest report, where nothing counts after the first complete one. */
  function Latest(xs: seq<Snapshot>): (x: Option<Snapshot>)
    ensures x.None? <==> xs == []
    ensures x.Some? ==> exists i :: LatestAt(xs, i) && x.value == xs[i]
  {
    if xs == [] then None
    else if xs[0].complete || |xs| == 1 then assert LatestAt(xs, 0); Some(xs[0])
    else
      var x := Latest(xs[1..]);
      assert exists i :: LatestAt(xs, i) && x.value == xs[i] by {
        var i :| LatestAt(xs[1..], i) && x.value == xs[1..][i];
        assert LatestAt(xs, i + 1);
      }
      x
  }

  /** The report that counts: the latest where every update counts, else the first complete one. */
  function Counted(mode: Policy, xs: seq<Snapshot>): (x: Option<Snapshot>) {
    if mode == IntersectOnUpdate then Latest(xs) else FirstComplete(xs)
  }

  predicate Registers(cat: Catalog, acts: seq<Action>, id: nat) {
    exists i | 0 <= i < |acts| :: acts[i].Registered? && Produces(Admitted(cat, acts[i].produced), id)
  }

  lemma RegistersFirst(cat: Catalog, acts: seq<Action>, id: nat)
    requires acts != []
    ensures Registers(cat, acts, id) <==>
            (acts[0].Registered? && Produces(Admitted(cat, acts[0].produced), id)) || Registers(cat, acts[1..], id)
  {
    if i :| 0 <= i < |acts[1..]| && acts[1..][i].Registered? && Produces(Admitted(cat, acts[1..][i].produced), id) {
      assert acts[i + 1] == acts[1..][i];
    }
    if i :| 0 < i < |acts| && acts[i].Registered? && Produces(Admitted(cat, acts[i].produced), id) {
      assert acts[1..][i - 1] == acts[i];
    }
  }

  /** The counted report after more reports `xs`. */
  function CountedAfter(mode: Policy, x: Option<Snapshot>, xs: seq<Snapshot>): (y: Option<Snapshot>) {
    if x.Some? && (x.value.complete || Counted(mode, xs).None?) then x else Counted(mode, xs)
  }

  lemma CountsNext(mode: Policy, x: Option<Snapshot>, y: Snapshot, rest: seq<Snapshot>)
    requires x.Some? && mode != IntersectOnUpdate ==> x.value.complete
    ensures CountedAfter(mode, x, [y] + rest) ==
            CountedAfter(mode, if Accepted(Some(mode), x, y) then Some(y) else x, rest)
  {
    assert ([y] + rest)[1..] == rest;
  }

  lemma {:induction false} LocalIsCounted(cat: Catalog, v: View, acts: seq<Action>, id: nat)
    requires v.Some? && v.value.Some? && cat.mode(id) != IntersectOnUpdate ==> v.value.value.complete
    ensures var w := Local(cat, v, acts, id);
            && (w.Some? <==> v.Some? || Registers(cat, acts, id))
            && (w.Some? ==> w.value == CountedAfter(cat.mode(id), if v.Some? then v.value else None,
                                                    ReportsSince(cat, acts, id, v.Some?)))
            && (w.None? ==> ReportsSince(cat, acts, id, v.Some?) == [])
    decreases |acts|
  {
    if acts != [] {
      RegistersFirst(cat, acts, id);
      LocalIsCounted(cat, LocalStep(cat, v, acts[0], id), acts[1..], id);
      if acts[0].Reported? && acts[0].report.id == id && v.Some? && WellFormed(acts[0].report) {
        CountsNext(cat.mode(id), v.value, acts[0].report.payload.snapshot,
                   ReportsSince(cat, acts[1..], id, true));
      }
    }
  }

  // ---------------------------------------------------------------- after a run

  /** Task `key` is a producer of `id`: one of its registrations was accepted as such. */
  ghost predicate ProducerOf(cat: Catalog, es: seq<Event>, id: nat, key: TaskKey) {
    Registers(cat, Actions(es, key), id)
  }

  /** The task's report that counts. */
  ghost function ReportOf(cat: Catalog, es: seq<Event>, id: nat, key: TaskKey): (x: Option<Snapshot>) {
    Counted(cat.mode(id), ReportsSince(cat, Actions(es, key), id, false))
  }

  lemma StoredUnder(cat: Catalog, es: seq<Event>, id: nat, key: TaskKey)
    requires Guarded(cat, Start, es)
    ensures var producers := ProducersOf(RunFrom(Start, es).state, id);
            && (key in producers <==> ProducerOf(cat, es, id, key))
            && (if key in producers then producers[key] else None) == ReportOf(cat, es, id, key)
  {
    StartIsGood(cat);
    RunView(cat, Start, es, id, key);
    LocalIsCounted(cat, None, Actions(es, key), id);
  }

  /** After any run, what a task has stored is told from its own calls: the latest report of its own up to
      its first complete one where every update counts, else its first complete one. */
  lemma StoredIsOwnReport(stage: nat -> nat, es: seq<Event>, id: nat, key: TaskKey)
    requires Ordered(stage, Start, es)
    ensures var s := RunFrom(Start, es).state;
            var cat, producers := CatalogOf(stage, s), ProducersOf(s, id);
            var xs := ReportsSince(cat, Actions(es, key), id, false);
            && (key in producers <==> ProducerOf(cat, es, id, key))
            && (key in producers ==>
                  producers[key] == if ModeIn(s, id) == IntersectOnUpdate then Latest(xs) else FirstComplete(xs))
  {
    RunIsGuarded(stage, es);
    StoredUnder(CatalogOf(stage, RunFrom(Start, es).state), es, id, key);
  }

  /** Every producer is sealed and has reported completely, and there is one. */
  ghost predicate AllReported(cat: Catalog, es: seq<Event>, id: nat) {
    && (exists key :: ProducerOf(cat, es, id, key))
    && (forall key | ProducerOf(cat, es, id, key) ::
          && key.stage in Seals(es)
          && ReportOf(cat, es, id, key).Some? && ReportOf(cat, es, id, key).value.complete)
  }

  ghost predicate SomeReported(cat: Catalog, es: seq<Event>, id: nat) {
    exists key :: ReportOf(cat, es, id, key).Some?
  }

  ghost predicate SomeReportAccepts(cat: Catalog, es: seq<Event>, id: nat, row: set<nat>) {
    exists key :: ReportOf(cat, es, id, key).Some? && Accepts(ReportOf(cat, es, id, key).value, row)
  }

  ghost predicate AllReportsAccept(cat: Catalog, es: seq<Event>, id: nat, row: set<nat>) {
    forall key | ReportOf(cat, es, id, key).Some? :: Accepts(ReportOf(cat, es, id, key).value, row)
  }

  /** A row passes exactly if it passes some task's counted report. */
  ghost predicate LetsAnyThrough(cat: Catalog, es: seq<Event>, id: nat, m: Snapshot) {
    forall row :: Accepts(m, row) <==> SomeReportAccepts(cat, es, id, row)
  }

  /** A row passes exactly if it passes all tasks' counted reports. */
  ghost predicate LetsAllThrough(cat: Catalog, es: seq<Event>, id: nat, m: Snapshot) {
    forall row :: Accepts(m, row) <==> AllReportsAccept(cat, es, id, row)
  }

  /** What the policy promises of the merged filter `m`, over the calls alone. */
  ghost predicate Promised(cat: Catalog, es: seq<Event>, id: nat, m: Option<Snapshot>) {
    match cat.mode(id)
    case UnionWhenAllComplete =>
      && (m.Some? <==> AllReported(cat, es, id))
      && (m.Some? ==>
            m.value.complete && m.value.generation == 0 && LetsAnyThrough(cat, es, id, m.value))
    case IntersectOnUpdate =>
      && (m.Some? <==> SomeReported(cat, es, id))
      && (m.Some? ==>
            (m.value.complete <==> AllReported(cat, es, id)) && LetsAllThrough(cat, es, id, m.value))
    case ForwardFirstComplete =>
      && (m.Some? <==> SomeReported(cat, es, id))
      && (m.Some? ==> exists key :: ReportOf(cat, es, id, key).Some?
                                    && m.value == ReportOf(cat, es, id, key).value.(generation := 0))
  }

  /** The stored reports are those the calls tell. */
  ghost predicate Tells(cat: Catalog, es: seq<Event>, id: nat, reports: Reports) {
    forall key ::
      && (key in reports <==> ProducerOf(cat, es, id, key))
      && (if key in reports then reports[key] else None) == ReportOf(cat, es, id, key)
  }

  lemma RunTells(cat: Catalog, es: seq<Event>, id: nat)
    requires Guarded(cat, Start, es)
    ensures var s := RunFrom(Start, es).state; Tells(cat, es, id, ProducersOf(s, id)) && s.sealed == Seals(es)
  {
    var reports := ProducersOf(RunFrom(Start, es).state, id);
    forall key
      ensures key in reports <==> ProducerOf(cat, es, id, key)
      ensures (if key in reports then reports[key] else None) == ReportOf(cat, es, id, key)
    {
      StoredUnder(cat, es, id, key);
    }
    StartIsGood(cat);
    RunView(cat, Start, es, id, TaskKey(0, 0));
  }

  lemma CompleteIffAllReported(cat: Catalog, es: seq<Event>, id: nat, reports: Reports)
    requires Tells(cat, es, id, reports)
    ensures AllComplete(reports, Seals(es)) <==> AllReported(cat, es, id)
    ensures ReportedKeys(reports) != {} <==> SomeReported(cat, es, id)
  {
    if AllComplete(reports, Seals(es)) {
      var key :| key in reports;
      assert ProducerOf(cat, es, id, key);
      forall k | ProducerOf(cat, es, id, k)
        ensures k.stage in Seals(es) && ReportOf(cat, es, id, k).Some? && ReportOf(cat, es, id, k).value.complete
      {
        assert k in reports;
      }
    }
    if AllReported(cat, es, id) {
      var key :| ProducerOf(cat, es, id, key);
      assert key in reports;
    }
    if key :| key in ReportedKeys(reports) {
      assert ReportOf(cat, es, id, key).Some?;
    }
    if key :| ReportOf(cat, es, id, key).Some? {
      assert key in ReportedKeys(reports);
    }
  }

  lemma SomeAcceptsIff(cat: Catalog, es: seq<Event>, id: nat, reports: Reports, row: set<nat>)
    requires Tells(cat, es, id, reports)
    ensures (exists k :: k in ReportedKeys(reports) && Accepts(reports[k].value, row)) <==>
            SomeReportAccepts(cat, es, id, row)
  {
    if k :| k in ReportedKeys(reports) && Accepts(reports[k].value, row) {
      assert ReportOf(cat, es, id, k).Some?;
    }
    if k :| ReportOf(cat, es, id, k).Some? && Accepts(ReportOf(cat, es, id, k).value, row) {
      assert k in ReportedKeys(reports);
    }
  }

  lemma AllAcceptIff(cat: Catalog, es: seq<Event>, id: nat, reports: Reports, row: set<nat>)
    requires Tells(cat, es, id, reports)
    ensures (forall k :: k in ReportedKeys(reports) ==> Accepts(reports[k].value, row)) <==>
            AllReportsAccept(cat, es, id, row)
  {
    if k :| k in ReportedKeys(reports) && !Accepts(reports[k].value, row) {
      assert ReportOf(cat, es, id, k).Some?;
    }
    if k :| ReportOf(cat, es, id, k).Some? && !Accepts(ReportOf(cat, es, id, k).value, row) {
      assert k in ReportedKeys(reports);
    }
  }

  lemma UnionAccepts(cat: Catalog, es: seq<Event>, id: nat, reports: Reports, m: Snapshot)
    requires Tells(cat, es, id, reports) && HasPredicates(reports) && ReportedKeys(reports) != {}
    requires m.inner == MergedPredicate(reports, UnionWhenAllComplete)
    ensures LetsAnyThrough(cat, es, id, m)
  {
    forall row ensures Accepts(m, row) <==> SomeReportAccepts(cat, es, id, row) {
      MergedPredicateMeaning(reports, UnionWhenAllComplete, row);
      SomeAcceptsIff(cat, es, id, reports, row);
    }
  }

  lemma UnionPromised(cat: Catalog, es: seq<Event>, id: nat, reports: Reports, m: Option<Snapshot>)
    requires Tells(cat, es, id, reports) && HasPredicates(reports) && cat.mode(id) == UnionWhenAllComplete
    requires MergedExact(cat.mode(id), reports, Seals(es), m)
    ensures Promised(cat, es, id, m)
  {
    CompleteIffAllReported(cat, es, id, reports);
    if m.Some? {
      AllCompleteReported(reports, Seals(es));
      UnionAccepts(cat, es, id, reports, m.value);
    }
  }

  lemma IntersectionAccepts(cat: Catalog, es: seq<Event>, id: nat, reports: Reports, m: Snapshot)
    requires Tells(cat, es, id, reports) && HasPredicates(reports) && ReportedKeys(reports) != {}
    requires m.inner == MergedPredicate(reports, IntersectOnUpdate)
    ensures LetsAllThrough(cat, es, id, m)
  {
    forall row ensures Accepts(m, row) <==> AllReportsAccept(cat, es, id, row) {
      MergedPredicateMeaning(reports, IntersectOnUpdate, row);
      AllAcceptIff(cat, es, id, reports, row);
    }
  }

  lemma IntersectionPromised(cat: Catalog, es: seq<Event>, id: nat, reports: Reports, m: Option<Snapshot>)
    requires Tells(cat, es, id, reports) && HasPredicates(reports) && cat.mode(id) == IntersectOnUpdate
    requires MergedExact(cat.mode(id), reports, Seals(es), m)
    ensures Promised(cat, es, id, m)
  {
    CompleteIffAllReported(cat, es, id, reports);
    if m.Some? {
      IntersectionAccepts(cat, es, id, reports, m.value);
    }
  }

  lemma {:induction false} FirstForIsIn(acc: seq<Acceptance>, id: nat) returns (key: TaskKey)
    requires FirstFor(acc, id).Some?
    ensures Acceptance(id, key, FirstFor(acc, id).value) in acc
  {
    if acc[0].id == id {
      key := acc[0].key;
    } else {
      key := FirstForIsIn(acc[1..], id);
    }
  }

  lemma ForwardPromised(cat: Catalog, es: seq<Event>, id: nat)
    requires Guarded(cat, Start, es) && Good(cat, RunFrom(Start, es).state, History(Start, es), false)
    requires cat.mode(id) == ForwardFirstComplete
    ensures Promised(cat, es, id, MergedOf(RunFrom(Start, es).state, id))
  {
    var s, acc := RunFrom(Start, es).state, History(Start, es);
    RunTells(cat, es, id);
    CompleteIffAllReported(cat, es, id, ProducersOf(s, id));
    if id in s.filters {
      assert SoundAt(cat, s, acc, id);
      if MergedOf(s, id).Some? {
        var key := FirstForIsIn(acc, id);
        assert ProducersOf(s, id)[key] == FirstFor(acc, id);
        assert ReportOf(cat, es, id, key) == FirstFor(acc, id);
      }
    } else {
      assert ReportedKeys(NewFilter.producers) == {};
    }
  }

  /** The registry over the calls alone: after every run whose seals succeeded, a union is there exactly if
      every producer is sealed and has reported completely, and lets through what some of them does; an
      intersection is there from the first report on, lets through what all latest reports do, and is
      complete exactly if they all are; a forwarded filter is some producer's first complete report. */
  lemma MergedIsPromised(stage: nat -> nat, es: seq<Event>, id: nat)
    requires Ordered(stage, Start, es) && RunFrom(Start, es).sealsSucceeded
    ensures var s := RunFrom(Start, es).state; Promised(CatalogOf(stage, s), es, id, MergedOf(s, id))
  {
    RunHolds(stage, es);
    var s := RunFrom(Start, es).state;
    var cat, reports := CatalogOf(stage, s), ProducersOf(s, id);
    RunTells(cat, es, id);
    MergedOfIsExact(cat, s, id);
    assert HasPredicates(reports) by {
      assert id in s.filters ==> FilterOk(cat, id, s.filters[id]);
    }
    match cat.mode(id) {
      case UnionWhenAllComplete => UnionPromised(cat, es, id, reports, MergedOf(s, id));
      case IntersectOnUpdate => IntersectionPromised(cat, es, id, reports, MergedOf(s, id));
      case ForwardFirstComplete => ForwardPromised(cat, es, id);
    }
  }

  // ---------------------------------------------------------------- who is a consumer

  /** The call registers `key` as a consumer of `id`. A rejected registration does not. */
  ghost predicate Consumes(cat: Catalog, e: Event, id: nat, key: TaskKey) {
    && e.TaskRegistered? && e.key == key && id in e.consumed
    && forall i | 0 <= i < |e.produced| :: Agrees(cat, e.produced[i])
  }

  ghost predicate ConsumerIn(s: State, id: nat, key: TaskKey) {
    id in s.filters && key in s.filters[id].consumers
  }

  lemma {:induction false} ProducersConsume(s: State, key: TaskKey, produced: seq<Produced>, id: nat, k: TaskKey)
    ensures ConsumerIn(RegisterProducers(s, key, produced).state, id, k) <==> ConsumerIn(s, id, k)
    decreases |produced|
  {
    if produced != [] {
      ProducersConsume(RegisterProducer(s, key, produced[0]).state, key, produced[1..], id, k);
    }
  }

  lemma {:induction false} ConsumersConsume(s: State, key: TaskKey, consumed: seq<nat>, id: nat, k: TaskKey)
    ensures ConsumerIn(RegisterConsumers(s, key, consumed), id, k) <==>
            ConsumerIn(s, id, k) || (k == key && id in consumed)
    decreases |consumed|
  {
    if consumed != [] {
      ConsumersConsume(RegisterConsumer(s, key, consumed[0]), key, consumed[1..], id, k);
    }
  }

  lemma StepConsumes(cat: Catalog, s: State, e: Event, id: nat, key: TaskKey)
    requires Safe(cat, s) && Guard(cat, s, e)
    ensures ConsumerIn(Step(s, e).state, id, key) <==> ConsumerIn(s, id, key) || Consumes(cat, e, id, key)
  {
    match e {
      case TaskRegistered(k, produced, consumed) =>
        RegisterProducersKeeps(cat, s, k, produced);
        ProducersConsume(s, k, produced, id, key);
        ConsumersConsume(RegisterProducers(s, k, produced).state, k, consumed, id, key);
      case SenderRegistered(k, sched) => DispatchEachKeepsFilters(Connect(s, k), sched);
      case StageSealed(stage, sched) => MergeEachKeepsComplete(s.(sealed := s.sealed + {stage}), sched);
      case UpdateReceived(k, report, order) =>
        if Stored(s, k, report) {
          MergeAndDispatchKeepsComplete(StoreReport(s, k, report.id, report.payload.snapshot), report.id, order);
        }
      case QueryFinished =>
    }
  }

  lemma {:induction false} RunConsumes(cat: Catalog, r: Run, es: seq<Event>, id: nat, key: TaskKey)
    requires Inv(cat, r) && Guarded(cat, r, es)
    ensures ConsumerIn(RunFrom(r, es).state, id, key) <==>
            ConsumerIn(r.state, id, key) || exists e :: e in es && Consumes(cat, e, id, key)
    decreases |es|
  {
    if es != [] {
      StepConsumes(cat, r.state, es[0], id, key);
      StepKeepsInv(cat, r, es[0]);
      RunConsumes(cat, Advance(r, es[0]), es[1..], id, key);
      assert forall e :: e in es <==> e == es[0] || e in es[1..];
    }
  }

  /** After any run, the consumers of a filter are exactly the tasks whose accepted registration names it. */
  lemma ConsumersAreRegistered(stage: nat -> nat, es: seq<Event>, id: nat, key: TaskKey)
    requires Ordered(stage, Start, es)
    ensures var s := RunFrom(Start, es).state;
            ConsumerIn(s, id, key) <==> exists e :: e in es && Consumes(CatalogOf(stage, s), e, id, key)
  {
    var cat := CatalogOf(stage, RunFrom(Start, es).state);
    RunIsGuarded(stage, es);
    StartIsGood(cat);
    RunConsumes(cat, Start, es, id, key);
  }
}
