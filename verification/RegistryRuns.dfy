/** Whole runs of the registry: any interleaving of calls that respects the caller's order. */
module RegistryRuns {
  import opened Wrappers
  import opened DynamicFilters
  import opened RegistrySteps
  import opened RegistryInvariant
  import opened RegistryPreservation

  datatype Event =
    | TaskRegistered(key: TaskKey, produced: seq<Produced>, consumed: seq<nat>)
    | SenderRegistered(key: TaskKey, sched: Schedule)
    | StageSealed(stage: nat, sched: Schedule)
    | UpdateReceived(key: TaskKey, report: Report, order: Walk)
    | QueryFinished

  function Step(s: State, e: Event): (r: Stepped) {
    match e
    case TaskRegistered(key, produced, consumed) => RegisterTask(s, key, produced, consumed)
    case SenderRegistered(key, sched) => RegisterSender(s, key, sched)
    case StageSealed(stage, sched) => SealStage(s, stage, sched)
    case UpdateReceived(key, report, order) => RecordUpdate(s, key, report, order)
    case QueryFinished => Stepped(s.(finished := true), Ok)
  }

  /** The walk visits registered filters and, for each, exactly its consumers. */
  ghost predicate Walkable(sched: Schedule, filters: map<nat, Filter>) {
    forall i | 0 <= i < |sched| :: sched[i].0 in filters && Enumerates(sched[i].1, filters[sched[i].0].consumers)
  }

  /** The walk visits every registered filter. */
  ghost predicate Covers(sched: Schedule, filters: map<nat, Filter>) {
    Walkable(sched, filters) && forall id | id in filters :: id in Ids(sched)
  }

  ghost function Ids(sched: Schedule): (ids: set<nat>) {
    set i | 0 <= i < |sched| :: sched[i].0
  }

  /** The order the callers keep: a task registers before its sender does and before its stage is
      sealed, and the producers of a filter are all in one stage. */
  ghost predicate Guard(cat: Catalog, s: State, e: Event) {
    match e
    case TaskRegistered(key, produced, consumed) =>
      && key !in s.senders && key.stage !in s.sealed
      && MayJoinAll(cat, s, key, produced)
    case SenderRegistered(key, sched) => Covers(sched, s.filters)
    case StageSealed(stage, sched) => Covers(sched, s.filters)
    case UpdateReceived(key, report, order) =>
      report.id in s.filters ==> Enumerates(order, s.filters[report.id].consumers)
    case QueryFinished => true
  }

  /** A run so far: whether all seals succeeded, and whether all calls found their channels open. */
  datatype Run = Run(state: State, sealsSucceeded: bool, clean: bool)

  const Start := Run(InitialState, true, true)

  function Advance(r: Run, e: Event): (t: Run) {
    var n := Step(r.state, e);
    var sent := n.outcome != Err(ChannelClosed);
    Run(n.state, r.sealsSucceeded && (e.StageSealed? ==> sent), r.clean && sent)
  }

  function RunFrom(r: Run, es: seq<Event>): (t: Run)
    decreases |es|
  {
    if es == [] then r else RunFrom(Advance(r, es[0]), es[1..])
  }

  ghost predicate Guarded(cat: Catalog, r: Run, es: seq<Event>)
    decreases |es|
  {
    es == [] || (Guard(cat, r.state, es[0]) && Guarded(cat, Advance(r, es[0]), es[1..]))
  }

  // ---------------------------------------------------------------- register_sender

  lemma {:induction false} DispatchEachKeeps(cat: Catalog, s: State, sched: Schedule)
    requires Safe(cat, s)
    ensures var r := DispatchEach(s, sched);
            && Safe(cat, r.state) && OnlySent(s, r.state) && r.outcome in {Ok, Err(ChannelClosed)}
            && (r.outcome == Ok && !r.state.finished ==>
                  forall i, key | 0 <= i < |sched| && sched[i].0 in s.filters && Walks(sched[i].1, key) ::
                    ServedAt(r.state, sched[i].0, key))
    decreases |sched|
  {
    if sched != [] {
      var r := Dispatch(s, sched[0].0, sched[0].1);
      DispatchKeeps(cat, s, sched[0].0, sched[0].1);
      if r.outcome == Ok {
        DispatchEachKeeps(cat, r.state, sched[1..]);
        var t := DispatchEach(s, sched).state;
        forall i, key | 0 <= i < |sched| && sched[i].0 in s.filters && Walks(sched[i].1, key)
                        && DispatchEach(s, sched).outcome == Ok && !t.finished
          ensures ServedAt(t, sched[i].0, key)
        {
          if i == 0 {
            assert ServedAt(r.state, sched[0].0, key);
          } else {
            assert sched[1..][i - 1] == sched[i];
          }
        }
      }
    }
  }

  lemma ConnectKeeps(cat: Catalog, s: State, key: TaskKey)
    requires Safe(cat, s)
    ensures Safe(cat, Connect(s, key))
  {
    var c := Connect(s, key);
    forall k | k in c.senders ensures ChannelOk(c, k) {
      if k != key {
        assert ChannelOk(s, k);
        forall i | 0 <= i < |c.senders[k].log| ensures MessageOk(c, k, c.senders[k].log[i]) {
          assert MessageOk(s, k, s.senders[k].log[i]);
        }
      }
    }
    forall id, k | (id, k) in c.delivered ensures HasCurrent(c, k, id) {
      assert HasCurrent(s, k, id);
    }
  }

  lemma RegisterSenderKeeps(cat: Catalog, s: State, key: TaskKey, sched: Schedule)
    requires Safe(cat, s) && Covers(sched, s.filters)
    ensures var r := RegisterSender(s, key, sched);
            && Safe(cat, r.state) && r.outcome in {Ok, Err(ChannelClosed)}
            && (s.finished ==> r.state.finished)
            && (Exact(cat, s) ==> Exact(cat, r.state))
            && (r.outcome == Ok && !r.state.finished ==> Served(r.state))
  {
    var c := Connect(s, key);
    ConnectKeeps(cat, s, key);
    DispatchEachKeeps(cat, c, sched);
    var r := RegisterSender(s, key, sched);
    if Exact(cat, s) {
      forall id | id in r.state.filters ensures ExactAt(cat, r.state, id) {
        assert ExactAt(cat, s, id);
      }
    }
    if r.outcome == Ok && !r.state.finished {
      forall id, k | id in r.state.filters ensures ServedAt(r.state, id, k) {
        assert id in Ids(sched);
        var i :| 0 <= i < |sched| && sched[i].0 == id;
        if k in s.filters[id].consumers {
          assert Walks(sched[i].1, k);
        }
      }
    }
  }

  // ---------------------------------------------------------------- seal_stage

  /** Merging moves filters forward without rewiring them. */
  ghost predicate SameWiring(f: map<nat, Filter>, g: map<nat, Filter>) {
    && f.Keys == g.Keys
    && forall id | id in f ::
         f[id].producers == g[id].producers && f[id].consumers == g[id].consumers
  }

  /** Filter `id` is exact for the current seals or still for the older ones. */
  ghost predicate LagsAt(cat: Catalog, s: State, older: set<nat>, id: nat)
    requires id in s.filters
  {
    ExactAt(cat, s, id)
    || MergedExact(cat.mode(id), s.filters[id].producers, older, s.filters[id].merged)
  }

  ghost predicate Lagging(cat: Catalog, s: State, older: set<nat>) {
    older <= s.sealed && forall id | id in s.filters :: LagsAt(cat, s, older, id)
  }

  lemma MergeWiring(s: State, id: nat)
    ensures var t := MergeFilter(s, id).0;
            && SameWiring(s.filters, t.filters) && t.sealed == s.sealed
            && forall i | i in s.filters && i != id :: t.filters[i] == s.filters[i]
  {
  }

  /** Sending leaves the filters as merging made them. */
  lemma MergeEffect(cat: Catalog, s: State, id: nat, order: Walk)
    requires Safe(cat, s)
    ensures var t := MergeAndDispatch(s, id, order).state;
            && t.filters == MergeFilter(s, id).0.filters && t.sealed == s.sealed && SameWiring(s.filters, t.filters)
            && forall i | i in s.filters && i != id :: t.filters[i] == s.filters[i]
  {
    MergeAndDispatchKeeps(cat, s, id, order);
    MergeWiring(s, id);
  }

  lemma MergeRestores(cat: Catalog, s: State, id: nat, order: Walk, reports: Reports, sealed: set<nat>)
    requires Safe(cat, s) && id in s.filters && sealed <= s.sealed && Reported(cat.mode(id), reports)
    requires MergedExact(cat.mode(id), reports, sealed, s.filters[id].merged)
    requires ReportStep(cat.mode(id), reports, s.filters[id].producers)
    ensures var t := MergeAndDispatch(s, id, order).state; id in t.filters && ExactAt(cat, t, id)
  {
    MergeEffect(cat, s, id, order);
    MergeFilterExact(cat, s, id, reports, sealed);
  }

  lemma MergeCatchesUp(cat: Catalog, s: State, id: nat, order: Walk, older: set<nat>)
    requires Safe(cat, s) && Lagging(cat, s, older)
    ensures var t := MergeAndDispatch(s, id, order).state;
            && SameWiring(s.filters, t.filters) && Lagging(cat, t, older)
            && forall i | i in s.filters && (i == id || ExactAt(cat, s, i)) :: ExactAt(cat, t, i)
  {
    MergeEffect(cat, s, id, order);
    var t := MergeAndDispatch(s, id, order).state;
    if id in s.filters {
      assert LagsAt(cat, s, older, id) && FilterOk(cat, id, s.filters[id]);
      MergeRestores(cat, s, id, order, s.filters[id].producers, if ExactAt(cat, s, id) then s.sealed else older);
    }
    forall i | i in t.filters ensures LagsAt(cat, t, older, i) {
      assert LagsAt(cat, s, older, i);
    }
  }

  lemma {:induction false} MergeEachKeeps(cat: Catalog, s: State, sched: Schedule, older: set<nat>)
    requires Safe(cat, s)
    ensures var r := MergeEach(s, sched);
            && Safe(cat, r.state) && r.outcome in {Ok, Err(ChannelClosed)}
            && r.state.sealed == s.sealed && (s.finished ==> r.state.finished)
            && SameWiring(s.filters, r.state.filters)
            && (r.outcome == Ok && Lagging(cat, s, older) ==>
                  forall id | id in s.filters && (id in Ids(sched) || ExactAt(cat, s, id)) ::
                    ExactAt(cat, r.state, id))
    decreases |sched|
  {
    if sched != [] {
      var r := MergeAndDispatch(s, sched[0].0, sched[0].1);
      MergeAndDispatchKeeps(cat, s, sched[0].0, sched[0].1);
      MergeWiring(s, sched[0].0);
      if r.outcome == Ok {
        if Lagging(cat, s, older) {
          MergeCatchesUp(cat, s, sched[0].0, sched[0].1, older);
        }
        MergeEachKeeps(cat, r.state, sched[1..], older);
        forall id | id in Ids(sched) ensures id == sched[0].0 || id in Ids(sched[1..]) {
          var i :| 0 <= i < |sched| && sched[i].0 == id;
          assert i > 0 ==> sched[1..][i - 1] == sched[i];
        }
      }
    }
  }

  lemma {:induction false} MergeEachServes(cat: Catalog, s: State, sched: Schedule)
    requires Safe(cat, s) && Served(s)
    requires forall i | 0 <= i < |sched| ::
               sched[i].0 in s.filters ==> Enumerates(sched[i].1, s.filters[sched[i].0].consumers)
    requires MergeEach(s, sched).outcome == Ok && !MergeEach(s, sched).state.finished
    ensures Served(MergeEach(s, sched).state)
    decreases |sched|
  {
    if sched != [] {
      var r := MergeAndDispatch(s, sched[0].0, sched[0].1);
      MergeAndDispatchKeeps(cat, s, sched[0].0, sched[0].1);
      MergeWiring(s, sched[0].0);
      assert forall i | 0 <= i < |sched[1..]| :: sched[1..][i] == sched[i + 1];
      MergeEachKeeps(cat, r.state, sched[1..], {});
      MergeEachServes(cat, r.state, sched[1..]);
    }
  }

  lemma SealKeepsSafe(cat: Catalog, s: State, stage: nat)
    requires Safe(cat, s)
    ensures Safe(cat, s.(sealed := s.sealed + {stage}))
  {
    var t := s.(sealed := s.sealed + {stage});
    forall k | k in t.senders ensures ChannelOk(t, k) {
      assert ChannelOk(s, k);
      forall i | 0 <= i < |t.senders[k].log| ensures MessageOk(t, k, t.senders[k].log[i]) {
        assert MessageOk(s, k, s.senders[k].log[i]);
      }
    }
    forall id, k | (id, k) in t.delivered ensures HasCurrent(t, k, id) {
      assert HasCurrent(s, k, id);
    }
  }

  lemma SealStageKeeps(cat: Catalog, s: State, stage: nat, sched: Schedule)
    requires Safe(cat, s) && Covers(sched, s.filters)
    ensures var r := SealStage(s, stage, sched);
            && Safe(cat, r.state) && r.outcome in {Ok, Err(ChannelClosed)}
            && (s.finished ==> r.state.finished)
            && (r.outcome == Ok && Exact(cat, s) ==> Exact(cat, r.state))
            && (r.outcome == Ok && !r.state.finished && Served(s) ==> Served(r.state))
  {
    var t := s.(sealed := s.sealed + {stage});
    SealKeepsSafe(cat, s, stage);
    MergeEachKeeps(cat, t, sched, s.sealed);
    if Exact(cat, s) {
      forall id | id in t.filters
        ensures MergedExact(cat.mode(id), t.filters[id].producers, s.sealed, t.filters[id].merged)
      {
        assert ExactAt(cat, s, id);
      }
      assert forall id | id in t.filters :: LagsAt(cat, t, s.sealed, id);
    }
    if Served(s) && !MergeEach(t, sched).state.finished && MergeEach(t, sched).outcome == Ok {
      forall id, k | id in t.filters ensures ServedAt(t, id, k) {
        assert ServedAt(s, id, k);
      }
      MergeEachServes(cat, t, sched);
    }
  }

  // ---------------------------------------------------------------- record_dynamic_filter_update

  lemma StoreReportKeepsChannels(cat: Catalog, s: State, key: TaskKey, report: Report)
    requires Safe(cat, s) && Stored(s, key, report)
    ensures var t := StoreReport(s, key, report.id, report.payload.snapshot);
            && (forall k | k in t.senders :: ChannelOk(t, k))
            && (forall i, k | (i, k) in t.delivered :: HasCurrent(t, k, i))
  {
    var t := StoreReport(s, key, report.id, report.payload.snapshot);
    forall k | k in t.senders ensures ChannelOk(t, k) {
      assert ChannelOk(s, k);
      forall i | 0 <= i < |t.senders[k].log| ensures MessageOk(t, k, t.senders[k].log[i]) {
        assert MessageOk(s, k, s.senders[k].log[i]);
      }
    }
    forall i, k | (i, k) in t.delivered ensures HasCurrent(t, k, i) {
      assert HasCurrent(s, k, i);
    }
  }

  lemma StoreReportKeeps(cat: Catalog, s: State, key: TaskKey, report: Report)
    requires Safe(cat, s) && Stored(s, key, report)
    ensures var t := StoreReport(s, key, report.id, report.payload.snapshot);
            && Safe(cat, t) && (Served(s) ==> Served(t))
            && ReportStep(cat.mode(report.id), s.filters[report.id].producers, t.filters[report.id].producers)
  {
    var id := report.id;
    var f := s.filters[id];
    var t := StoreReport(s, key, id, report.payload.snapshot);
    assert FilterOk(cat, id, f);
    assert key in f.producers && f.mode == Some(cat.mode(id));
    assert t.filters[id].producers.Keys == f.producers.Keys;
    StoreReportKeepsChannels(cat, s, key, report);
    if Served(s) {
      forall i, k | i in t.filters ensures ServedAt(t, i, k) {
        assert ServedAt(s, i, k);
      }
    }
  }

  lemma RecordUpdateKeeps(cat: Catalog, s: State, key: TaskKey, report: Report, order: Walk)
    requires Safe(cat, s)
    requires report.id in s.filters ==> Enumerates(order, s.filters[report.id].consumers)
    ensures var r := RecordUpdate(s, key, report, order);
            && Safe(cat, r.state) && (s.finished ==> r.state.finished)
            && (Exact(cat, s) ==> Exact(cat, r.state))
            && (r.outcome != Err(ChannelClosed) && !r.state.finished && Served(s) ==> Served(r.state))
  {
    if Stored(s, key, report) {
      var t := StoreReport(s, key, report.id, report.payload.snapshot);
      StoreReportKeeps(cat, s, key, report);
      MergeAndDispatchKeeps(cat, t, report.id, order);
      if Exact(cat, s) {
        RecordUpdateExact(cat, s, key, report, order);
      }
    }
  }

  lemma RecordUpdateExact(cat: Catalog, s: State, key: TaskKey, report: Report, order: Walk)
    requires Safe(cat, s) && Stored(s, key, report) && Exact(cat, s)
    ensures Exact(cat, RecordUpdate(s, key, report, order).state)
  {
    ReportedIsExact(cat, s, key, report, order);
    OthersAreKept(cat, s, key, report, order);
    OthersStayExact(cat, s, RecordUpdate(s, key, report, order).state, report.id);
  }

  lemma OthersAreKept(cat: Catalog, s: State, key: TaskKey, report: Report, order: Walk)
    requires Safe(cat, s) && Stored(s, key, report)
    ensures var r := RecordUpdate(s, key, report, order).state;
            && r.filters.Keys == s.filters.Keys && r.sealed == s.sealed
            && forall i | i in s.filters && i != report.id :: r.filters[i] == s.filters[i]
  {
    StoreReportKeeps(cat, s, key, report);
    MergeEffect(cat, StoreReport(s, key, report.id, report.payload.snapshot), report.id, order);
  }

  lemma ReportedIsExact(cat: Catalog, s: State, key: TaskKey, report: Report, order: Walk)
    requires Safe(cat, s) && Stored(s, key, report) && Exact(cat, s)
    ensures var r := RecordUpdate(s, key, report, order).state;
            report.id in r.filters && ExactAt(cat, r, report.id)
  {
    StoreReportKeeps(cat, s, key, report);
    assert ExactAt(cat, s, report.id) && FilterOk(cat, report.id, s.filters[report.id]);
    MergeRestores(cat, StoreReport(s, key, report.id, report.payload.snapshot), report.id, order,
                  s.filters[report.id].producers, s.sealed);
  }

  lemma OthersStayExact(cat: Catalog, s: State, r: State, id: nat)
    requires Exact(cat, s) && r.filters.Keys == s.filters.Keys && r.sealed == s.sealed
    requires id in r.filters && ExactAt(cat, r, id)
    requires forall i | i in s.filters && i != id :: r.filters[i] == s.filters[i]
    ensures Exact(cat, r)
  {
    forall i | i in r.filters ensures ExactAt(cat, r, i) {
      assert i != id ==> ExactAt(cat, s, i);
    }
  }

  // ---------------------------------------------------------------- every run

  /** What holds of every run. */
  ghost predicate Inv(cat: Catalog, r: Run) {
    && Safe(cat, r.state)
    && (r.sealsSucceeded ==> Exact(cat, r.state))
    && (r.clean ==> r.sealsSucceeded)
    && (r.clean && !r.state.finished ==> Served(r.state))
  }

  lemma RegisterTaskKeeps(cat: Catalog, s: State, key: TaskKey, produced: seq<Produced>, consumed: seq<nat>)
    requires Safe(cat, s) && Guard(cat, s, TaskRegistered(key, produced, consumed))
    ensures var r := RegisterTask(s, key, produced, consumed);
            && Safe(cat, r.state) && r.state.finished == s.finished
            && r.outcome in {Ok, Err(ConflictingSchemas), Err(ConflictingModes)}
            && (Exact(cat, s) ==> Exact(cat, r.state)) && (Served(s) ==> Served(r.state))
  {
    var r := RegisterProducers(s, key, produced);
    RegisterProducersKeeps(cat, s, key, produced);
    if r.outcome == Ok {
      RegisterConsumersKeeps(cat, r.state, key, consumed);
    }
    RegistrationKeepsFinished(s, key, produced, consumed);
  }

  lemma StepKeepsInv(cat: Catalog, r: Run, e: Event)
    requires Inv(cat, r) && Guard(cat, r.state, e)
    ensures Inv(cat, Advance(r, e))
  {
    var s := r.state;
    match e {
      case TaskRegistered(key, produced, consumed) =>
        RegisterTaskKeeps(cat, s, key, produced, consumed);
      case SenderRegistered(key, sched) => RegisterSenderKeeps(cat, s, key, sched);
      case StageSealed(stage, sched) => SealStageKeeps(cat, s, stage, sched);
      case UpdateReceived(key, report, order) => RecordUpdateKeeps(cat, s, key, report, order);
      case QueryFinished => QuietKeeps(cat, s, Advance(r, e).state);
    }
  }

  /** No call finds a merged filter without its encoding or its schema. */
  lemma NoCallMissesSchema(cat: Catalog, s: State, e: Event)
    requires Safe(cat, s) && Guard(cat, s, e)
    ensures Step(s, e).outcome != Err(MissingSchema)
  {
    match e {
      case TaskRegistered(key, produced, consumed) => RegisterTaskKeeps(cat, s, key, produced, consumed);
      case SenderRegistered(key, sched) => RegisterSenderKeeps(cat, s, key, sched);
      case StageSealed(stage, sched) => SealStageKeeps(cat, s, stage, sched);
      case UpdateReceived(key, report, order) =>
        if Stored(s, key, report) {
          StoreReportKeeps(cat, s, key, report);
          MergeAndDispatchKeeps(cat, StoreReport(s, key, report.id, report.payload.snapshot), report.id, order);
        }
      case QueryFinished =>
    }
  }

  lemma {:induction false} RegistrationKeepsFinished(s: State, key: TaskKey, produced: seq<Produced>,
                                                     consumed: seq<nat>)
    ensures RegisterTask(s, key, produced, consumed).state.finished == s.finished
    decreases |produced| + |consumed|
  {
    if produced != [] {
      var r := RegisterProducer(s, key, produced[0]);
      if r.outcome == Ok {
        RegistrationKeepsFinished(r.state, key, produced[1..], consumed);
      }
    } else if consumed != [] {
      RegistrationKeepsFinished(RegisterConsumer(s, key, consumed[0]), key, [], consumed[1..]);
    }
  }

  /** Finishing the query changes no filter and no log. */
  lemma QuietKeeps(cat: Catalog, s: State, t: State)
    requires Safe(cat, s)
    requires t.filters == s.filters && t.sealed == s.sealed && t.delivered == s.delivered
    requires t.senders.Keys == s.senders.Keys
    requires forall k | k in s.senders :: t.senders[k].log == s.senders[k].log
    ensures Safe(cat, t) && (Exact(cat, s) ==> Exact(cat, t)) && (Served(s) ==> Served(t))
  {
    forall k | k in t.senders ensures ChannelOk(t, k) {
      assert ChannelOk(s, k);
      forall i | 0 <= i < |t.senders[k].log| ensures MessageOk(t, k, t.senders[k].log[i]) {
        assert MessageOk(s, k, s.senders[k].log[i]);
      }
    }
    forall id, k | (id, k) in t.delivered ensures HasCurrent(t, k, id) {
      assert HasCurrent(s, k, id);
    }
    if Exact(cat, s) {
      forall id | id in t.filters ensures ExactAt(cat, t, id) {
        assert ExactAt(cat, s, id);
      }
    }
    if Served(s) {
      forall id, k | id in t.filters ensures ServedAt(t, id, k) {
        assert ServedAt(s, id, k);
      }
    }
  }

  lemma {:induction false} RunKeepsInv(cat: Catalog, r: Run, es: seq<Event>)
    requires Inv(cat, r) && Guarded(cat, r, es)
    ensures Inv(cat, RunFrom(r, es))
    decreases |es|
  {
    if es != [] {
      StepKeepsInv(cat, r, es[0]);
      RunKeepsInv(cat, Advance(r, es[0]), es[1..]);
    }
  }
}
