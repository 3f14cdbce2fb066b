/** Collecting each task's final reports into stores that the query waits on. */
module FinalReports {
  import opened Wrappers
  import opened Plans
  import opened DynamicFilters

  /** Values by task; the log remembers every insertion. */
  class Store<T> {
    var entries: map<TaskKey, T>
    ghost var log: seq<(TaskKey, T)>

    constructor ()
      ensures entries == map[] && log == []
    {
      entries, log := map[], [];
    }

    method Insert(key: TaskKey, value: T)
      modifies this
      ensures entries == old(entries)[key := value] && log == old(log) + [(key, value)]
    {
      entries, log := entries[key := value], log + [(key, value)];
    }
  }

  // ---------------------------------------------------------------- reading a worker's messages

  datatype Report<M, F> = Metrics(metrics: M) | Filters(filters: F)

  /** What a worker sends: final reports, and updates for the run time of the query. */
  datatype Message<M, F, U> = Final(report: Report<M, F>) | Runtime(update: U)

  function FinalIn<M, F, U>(messages: seq<Message<M, F, U>>): (reports: seq<Report<M, F>>) {
    if messages == [] then []
    else
      var n := |messages| - 1;
      FinalIn(messages[..n]) + (if messages[n].Final? then [messages[n].report] else [])
  }

  function RuntimeIn<M, F, U>(messages: seq<Message<M, F, U>>): (updates: seq<U>) {
    if messages == [] then []
    else
      var n := |messages| - 1;
      RuntimeIn(messages[..n]) + (if messages[n].Runtime? then [messages[n].update] else [])
  }

  /** The two kinds make up all messages, and each message is found among its own kind at the place that the
      messages of that kind before it give it. */
  lemma {:induction false} MessagesAreSorted<M, F, U>(messages: seq<Message<M, F, U>>, i: nat)
    requires i < |messages|
    ensures |FinalIn(messages)| + |RuntimeIn(messages)| == |messages|
    ensures match messages[i]
            case Final(report) =>
              var k := |FinalIn(messages[..i])|; k < |FinalIn(messages)| && FinalIn(messages)[k] == report
            case Runtime(update) =>
              var k := |RuntimeIn(messages[..i])|; k < |RuntimeIn(messages)| && RuntimeIn(messages)[k] == update
  {
    var n := |messages| - 1;
    if n > 0 {
      MessagesAreSorted(messages[..n], if i < n then i else 0);
    }
    if i < n {
      assert messages[..n][..i] == messages[..i];
    }
  }

  /** Reads a worker's stream. The receiver of runtime updates takes `accepted` of them and then goes
      away; the receiver of final reports stays for as long as this loop. Reading ends at the end of the
      stream, at an error or at the first update nobody takes; everything before that is passed on, in
      order, and an error is reported. A loop cut short by its cancellation is one whose stream ends there. */
  method ReadMessages<M, F, U>(stream: seq<Result<Message<M, F, U>>>, accepted: nat)
    returns (reports: seq<Report<M, F>>, updates: seq<U>, read: seq<Message<M, F, U>>, failed: bool)
    ensures |read| <= |stream| && forall i | 0 <= i < |read| :: stream[i] == Success(read[i])
    ensures reports == FinalIn(read) && updates == RuntimeIn(read) && |updates| <= accepted
    ensures failed <==> |read| < |stream| && stream[|read|].Failure?
    ensures |read| < |stream| && stream[|read|].Success? ==>
              stream[|read|].value.Runtime? && |updates| == accepted
  {
    reports, updates, read, failed := [], [], [], false;
    for i := 0 to |stream|
      invariant |read| == i && forall j | 0 <= j < i :: stream[j] == Success(read[j])
      invariant reports == FinalIn(read) && updates == RuntimeIn(read) && |updates| <= accepted
    {
      if stream[i].Failure? {
        failed := true;
        return;
      }
      var message := stream[i].value;
      if message.Runtime? && |updates| == accepted {
        return;
      }
      assert (read + [message])[..i] == read;
      match message {
        case Final(report) => reports := reports + [report];
        case Runtime(update) => updates := updates + [update];
      }
      read := read + [message];
    }
  }

  // ---------------------------------------------------------------- one task's report loop

  /** The reports as one store sees them: None for those of the other kind. */
  function MetricsIn<M, F>(reports: seq<Report<M, F>>): (ms: seq<Option<M>>) {
    seq(|reports|, i requires 0 <= i < |reports| => if reports[i].Metrics? then Some(reports[i].metrics) else None)
  }

  function FiltersIn<M, F>(reports: seq<Report<M, F>>): (fs: seq<Option<F>>) {
    seq(|reports|, i requires 0 <= i < |reports| => if reports[i].Filters? then Some(reports[i].filters) else None)
  }

  /** Report `i` is the first of its kind. */
  predicate FirstMetricsAt<M, F>(reports: seq<Report<M, F>>, i: int) {
    0 <= i < |reports| && reports[i].Metrics? && forall j | 0 <= j < i :: reports[j].Filters?
  }

  predicate FirstFiltersAt<M, F>(reports: seq<Report<M, F>>, i: int) {
    0 <= i < |reports| && reports[i].Filters? && forall j | 0 <= j < i :: reports[j].Metrics?
  }

  /** Each store is given what the first report of its kind says, and the default only if there is none. */
  lemma FirstIsReported<M(!new), F(!new)>(reports: seq<Report<M, F>>, noMetrics: M, noFilters: F)
    ensures forall i | FirstMetricsAt(reports, i) :: First(MetricsIn(reports), noMetrics) == reports[i].metrics
    ensures forall i | FirstFiltersAt(reports, i) :: First(FiltersIn(reports), noFilters) == reports[i].filters
    ensures (forall i | 0 <= i < |reports| :: reports[i].Filters?) ==> First(MetricsIn(reports), noMetrics) == noMetrics
    ensures (forall i | 0 <= i < |reports| :: reports[i].Metrics?) ==> First(FiltersIn(reports), noFilters) == noFilters
  {
    forall i | FirstMetricsAt(reports, i) ensures First(MetricsIn(reports), noMetrics) == reports[i].metrics {
      FirstAt(MetricsIn(reports), noMetrics, i);
    }
    forall i | FirstFiltersAt(reports, i) ensures First(FiltersIn(reports), noFilters) == reports[i].filters {
      FirstAt(FiltersIn(reports), noFilters, i);
    }
    if forall i | 0 <= i < |reports| :: reports[i].Filters? {
      NoneFirst(MetricsIn(reports), noMetrics);
    }
    if forall i | 0 <= i < |reports| :: reports[i].Metrics? {
      NoneFirst(FiltersIn(reports), noFilters);
    }
  }

  lemma {:induction false} FirstAt<V>(vs: seq<Option<V>>, default: V, i: nat)
    requires i < |vs| && vs[i].Some? && forall j | 0 <= j < i :: vs[j].None?
    ensures First(vs, default) == vs[i].value
  {
    if i > 0 {
      FirstAt(vs[1..], default, i - 1);
    }
  }

  lemma {:induction false} NoneFirst<V>(vs: seq<Option<V>>, default: V)
    requires forall i | 0 <= i < |vs| :: vs[i].None?
    ensures First(vs, default) == default
  {
    if vs != [] {
      NoneFirst(vs[1..], default);
    }
  }

  /** One loop that still holds a store, or has given it up, and has `reports` to come. */
  function Alone<V>(key: TaskKey, reports: seq<Option<V>>, held: bool, log: seq<(TaskKey, V)>): (s: State<V>) {
    State(map[key := reports], if held then {key} else {}, {key}, log)
  }

  /** One task's report loop, over all reports that arrive before its channel closes. A store is given up
      with its first report; a store still held at the end gets the default. Either store sees exactly
      this task's run of the machine below. */
  method CollectReports<M, F>(key: TaskKey, reports: seq<Report<M, F>>, metricsStore: Store?<M>, filterStore: Store?<F>,
                              noMetrics: M, noFilters: F)
    requires metricsStore != null && filterStore != null ==> metricsStore as object != filterStore as object
    modifies metricsStore, filterStore
    ensures metricsStore != null ==>
              metricsStore.log == Drain(Alone(key, MetricsIn(reports), true, old(metricsStore.log)), key, noMetrics).log
    ensures metricsStore != null ==>
              && metricsStore.log == old(metricsStore.log) + [(key, First(MetricsIn(reports), noMetrics))]
              && metricsStore.entries == old(metricsStore.entries)[key := First(MetricsIn(reports), noMetrics)]
    ensures filterStore != null ==>
              filterStore.log == Drain(Alone(key, FiltersIn(reports), true, old(filterStore.log)), key, noFilters).log
    ensures filterStore != null ==>
              && filterStore.log == old(filterStore.log) + [(key, First(FiltersIn(reports), noFilters))]
              && filterStore.entries == old(filterStore.entries)[key := First(FiltersIn(reports), noFilters)]
  {
    var taskMetrics, taskFilters := metricsStore, filterStore;
    ghost var ms, fs := MetricsIn(reports), FiltersIn(reports);
    for i := 0 to |reports|
      invariant taskMetrics == metricsStore || taskMetrics == null
      invariant taskFilters == filterStore || taskFilters == null
      invariant taskMetrics != null ==>
                  && taskMetrics.log == old(metricsStore.log) && taskMetrics.entries == old(metricsStore.entries)
                  && First(ms, noMetrics) == First(ms[i..], noMetrics)
      invariant taskFilters != null ==>
                  && taskFilters.log == old(filterStore.log) && taskFilters.entries == old(filterStore.entries)
                  && First(fs, noFilters) == First(fs[i..], noFilters)
      invariant metricsStore != null && taskMetrics == null ==>
                  && metricsStore.log == old(metricsStore.log) + [(key, First(ms, noMetrics))]
                  && metricsStore.entries == old(metricsStore.entries)[key := First(ms, noMetrics)]
      invariant filterStore != null && taskFilters == null ==>
                  && filterStore.log == old(filterStore.log) + [(key, First(fs, noFilters))]
                  && filterStore.entries == old(filterStore.entries)[key := First(fs, noFilters)]
    {
      assert ms[i..][0] == ms[i] && ms[i..][1..] == ms[i + 1..];
      assert fs[i..][0] == fs[i] && fs[i..][1..] == fs[i + 1..];
      match reports[i] {
        case Metrics(m) =>
          if taskMetrics != null {
            taskMetrics.Insert(key, m);
            taskMetrics := null;
          }
        case Filters(f) =>
          if taskFilters != null {
            taskFilters.Insert(key, f);
            taskFilters := null;
          }
      }
    }
    if taskMetrics != null {
      taskMetrics.Insert(key, noMetrics);
    }
    if taskFilters != null {
      taskFilters.Insert(key, noFilters);
    }
    if metricsStore != null {
      DrainInserts(Alone(key, ms, true, old(metricsStore.log)), key, noMetrics);
    }
    if filterStore != null {
      DrainInserts(Alone(key, fs, true, old(filterStore.log)), key, noFilters);
    }
  }

  // ---------------------------------------------------------------- the keys a query waits for

  /** The tasks of every stage under the plan. */
  function TaskKeys(p: Plan): (ks: seq<TaskKey>)
    decreases p, 1
  {
    (if p.op.Boundary? then StageKeys(p.op.stage.num, p.op.stage.tasks) else []) + TaskKeysAll(p.children)
  }

  function TaskKeysAll(cs: seq<Plan>): (ks: seq<TaskKey>)
    decreases cs, 0
  {
    if cs == [] then [] else TaskKeys(cs[0]) + TaskKeysAll(cs[1..])
  }

  function StageKeys(stage: nat, tasks: nat): (ks: seq<TaskKey>) {
    seq(tasks, t requires 0 <= t < tasks => TaskKey(stage, t))
  }

  predicate Under(p: Plan, q: Plan)
    decreases p
  {
    q == p || exists c | 0 <= c < |p.children| :: Under(p.children[c], q)
  }

  predicate FeedsTask(q: Plan, k: TaskKey) {
    q.op.Boundary? && q.op.stage.num == k.stage && k.task < q.op.stage.tasks
  }

  /** The keys are exactly the tasks of the stages that feed some boundary, at any depth. */
  lemma {:induction false} TaskKeysAreStageTasks(p: Plan, k: TaskKey)
    ensures k in TaskKeys(p) <==> exists q :: Under(p, q) && FeedsTask(q, k)
    decreases p, 1
  {
    TaskKeysBelow(p.children, k);
    if p.op.Boundary? {
      var own := StageKeys(p.op.stage.num, p.op.stage.tasks);
      assert k in own <==> FeedsTask(p, k) by {
        if FeedsTask(p, k) {
          assert own[k.task] == k;
        }
      }
    }
    assert Under(p, p);
    if k in TaskKeysAll(p.children) {
      var c, q :| 0 <= c < |p.children| && Under(p.children[c], q) && FeedsTask(q, k);
      assert Under(p, q);
    }
  }

  lemma {:induction false} TaskKeysBelow(cs: seq<Plan>, k: TaskKey)
    ensures k in TaskKeysAll(cs) <==> exists c, q :: 0 <= c < |cs| && Under(cs[c], q) && FeedsTask(q, k)
    decreases cs, 0
  {
    if cs != [] {
      TaskKeysAreStageTasks(cs[0], k);
      TaskKeysBelow(cs[1..], k);
      if k in TaskKeys(cs[0]) {
        var q :| Under(cs[0], q) && FeedsTask(q, k);
        assert 0 < |cs| && Under(cs[0], q);
      }
      if k in TaskKeysAll(cs[1..]) {
        var c, q :| 0 <= c < |cs[1..]| && Under(cs[1..][c], q) && FeedsTask(q, k);
        assert Under(cs[c + 1], q);
      }
      if c, q :| 0 <= c < |cs| && Under(cs[c], q) && FeedsTask(q, k) {
        if c > 0 {
          assert Under(cs[1..][c - 1], q);
        }
      }
    }
  }

  // ---------------------------------------------------------------- all report loops of a query

  /** The loops of all tasks as one store sees them: what each task will still receive, with None for
      reports of the other kind; which loops still hold the store; which still run; and everything
      inserted so far. */
  datatype State<V> = State(inbox: map<TaskKey, seq<Option<V>>>, held: set<TaskKey>, running: set<TaskKey>,
                            log: seq<(TaskKey, V)>)

  datatype Event = Receive(key: TaskKey) | End(key: TaskKey)

  ghost predicate Enabled<V(!new)>(s: State<V>, e: Event) {
    && e.key in s.running && e.key in s.inbox
    && (e.Receive? <==> s.inbox[e.key] != [])
  }

  /** One iteration of one task's loop, or its end. */
  function Step<V>(s: State<V>, e: Event, default: V): (r: State<V>)
    requires e.key in s.inbox && (e.Receive? ==> s.inbox[e.key] != [])
  {
    match e
    case Receive(k) =>
      var report := s.inbox[k][0];
      var s' := s.(inbox := s.inbox[k := s.inbox[k][1..]]);
      if report.Some? && k in s.held then s'.(held := s.held - {k}, log := s.log + [(k, report.value)]) else s'
    case End(k) =>
      var s' := s.(running := s.running - {k}, held := s.held - {k});
      if k in s.held then s'.(log := s.log + [(k, default)]) else s'
  }

  function First<V>(reports: seq<Option<V>>, default: V): (v: V) {
    if reports == [] then default else if reports[0].Some? then reports[0].value else First(reports[1..], default)
  }

  /** The rest of one task's loop, run without interruption. */
  function Drain<V>(s: State<V>, k: TaskKey, default: V): (r: State<V>)
    requires k in s.inbox
    decreases |s.inbox[k]|
  {
    if s.inbox[k] == [] then Step(s, End(k), default) else Drain(Step(s, Receive(k), default), k, default)
  }

  lemma {:induction false} DrainInserts<V>(s: State<V>, k: TaskKey, default: V)
    requires k in s.inbox
    ensures var r := Drain(s, k, default);
            && r.log == s.log + (if k in s.held then [(k, First(s.inbox[k], default))] else [])
            && r.held == s.held - {k} && r.running == s.running - {k}
    decreases |s.inbox[k]|
  {
    if s.inbox[k] == [] {
      assert k !in s.held ==> s.log + [] == s.log;
    } else {
      DrainInserts(Step(s, Receive(k), default), k, default);
    }
  }

  /** The insertions made for one task. */
  function For<V>(log: seq<(TaskKey, V)>, k: TaskKey): (vs: seq<V>) {
    if log == [] then [] else (if log[0].0 == k then [log[0].1] else []) + For(log[1..], k)
  }

  /** What is inserted for a task, with what its loop is still bound to insert. */
  ghost function Owed<V(!new)>(s: State<V>, k: TaskKey, default: V): (vs: seq<V>) {
    For(s.log, k) + (if k in s.held && k in s.inbox then [First(s.inbox[k], default)] else [])
  }

  /** For every task that is exactly one value: its first report, or the default. */
  ghost predicate Inv<V(!new)>(s: State<V>, reports: map<TaskKey, seq<Option<V>>>, default: V) {
    && s.inbox.Keys == reports.Keys && s.held <= s.running <= reports.Keys
    && (forall k | k in reports :: Owed(s, k, default) == [First(reports[k], default)])
    && (forall k | k !in reports :: For(s.log, k) == [])
  }

  ghost predicate IsRun<V(!new)>(run: seq<State<V>>, events: seq<Event>, default: V) {
    && |run| == |events| + 1
    && forall i | 0 <= i < |events| :: Enabled(run[i], events[i]) && run[i + 1] == Step(run[i], events[i], default)
  }

  function Initial<V>(reports: map<TaskKey, seq<Option<V>>>): (s: State<V>) {
    State(reports, reports.Keys, reports.Keys, [])
  }

  lemma {:induction false} ForAppend<V>(log: seq<(TaskKey, V)>, k: TaskKey, v: V, j: TaskKey)
    ensures For(log + [(k, v)], j) == For(log, j) + (if j == k then [v] else [])
  {
    if log == [] {
      assert log + [(k, v)] == [(k, v)] && [(k, v)][1..] == [];
    } else {
      assert (log + [(k, v)])[1..] == log[1..] + [(k, v)];
      ForAppend(log[1..], k, v, j);
    }
  }

  lemma StepKeepsInv<V(!new)>(s: State<V>, e: Event, reports: map<TaskKey, seq<Option<V>>>, default: V)
    requires Inv(s, reports, default) && Enabled(s, e)
    ensures Inv(Step(s, e, default), reports, default)
  {
    var s' := Step(s, e, default);
    forall j ensures Owed(s', j, default) == Owed(s, j, default) && (j !in reports ==> For(s'.log, j) == []) {
      assert j in reports ==> Owed(s, j, default) == [First(reports[j], default)];
      StepKeepsOwed(s, e, default, j);
    }
  }

  lemma StepKeepsOwed<V(!new)>(s: State<V>, e: Event, default: V, j: TaskKey)
    requires Enabled(s, e) && s.held <= s.inbox.Keys
    ensures Owed(Step(s, e, default), j, default) == Owed(s, j, default)
    ensures j !in s.inbox ==> For(Step(s, e, default).log, j) == For(s.log, j)
  {
    var s' := Step(s, e, default);
    if s'.log != s.log {
      ForAppend(s.log, e.key, s'.log[|s.log|].1, j);
    }
  }

  lemma {:induction false} RunKeepsInv<V(!new)>(run: seq<State<V>>, events: seq<Event>,
                                                reports: map<TaskKey, seq<Option<V>>>, default: V, n: nat)
    requires IsRun(run, events, default) && run[0] == Initial(reports) && n <= |events|
    ensures Inv(run[n], reports, default)
  {
    if n > 0 {
      RunKeepsInv(run, events, reports, default, n - 1);
      StepKeepsInv(run[n - 1], events[n - 1], reports, default);
    }
  }

  /** What a store holds after a log of insertions. */
  function Contents<V>(log: seq<(TaskKey, V)>): (m: map<TaskKey, V>) {
    if log == [] then map[] else Contents(log[..|log| - 1])[log[|log| - 1].0 := log[|log| - 1].1]
  }

  lemma {:induction false} InsertedIsPresent<V>(log: seq<(TaskKey, V)>, k: TaskKey)
    requires For(log, k) != []
    ensures k in Contents(log) && Contents(log)[k] == For(log, k)[|For(log, k)| - 1]
    decreases |log|
  {
    var n := |log| - 1;
    assert log[..n] + [log[n]] == log;
    ForAppend(log[..n], log[n].0, log[n].1, k);
    if log[n].0 != k {
      InsertedIsPresent(log[..n], k);
    }
  }

  /** Exactly one final report: however the report loops interleave and whatever each receives, once
      all have ended the store was given exactly one value for each task, its first report or the
      default; so a wait for the keys of a plan whose tasks all have loops is satisfied. */
  lemma ExactlyOneReport<V(!new)>(run: seq<State<V>>, events: seq<Event>, reports: map<TaskKey, seq<Option<V>>>,
                                  default: V, plan: Plan)
    requires IsRun(run, events, default) && run[0] == Initial(reports) && run[|events|].running == {}
    ensures forall k | k in reports :: For(run[|events|].log, k) == [First(reports[k], default)]
    ensures forall k | k in reports ::
              k in Contents(run[|events|].log) && Contents(run[|events|].log)[k] == First(reports[k], default)
    ensures (forall k | k in TaskKeys(plan) :: k in reports) ==>
              forall k | k in TaskKeys(plan) :: k in Contents(run[|events|].log)
  {
    RunKeepsInv(run, events, reports, default, |events|);
    var log := run[|events|].log;
    forall k | k in reports
      ensures For(log, k) == [First(reports[k], default)] && k in Contents(log) &&
              Contents(log)[k] == First(reports[k], default)
    {
      assert For(log, k) + [] == For(log, k);
      InsertedIsPresent(log, k);
    }
  }
}
