/** The dynamic filter registry as a state machine: what one locked call does to the state. */
module RegistrySteps {
  import opened Wrappers
  import opened DynamicFilters

  /** The encoded form of a merged filter: encoding keeps the filter id and every field. */
  datatype Encoded = Encoded(id: nat, filter: Snapshot)

  datatype Filter = Filter(
    producers: Reports,
    consumers: set<TaskKey>,
    mode: Option<Policy>,
    schema: Option<nat>,
    merged: Option<Snapshot>,
    mergedBytes: Option<Encoded>)

  const NewFilter := Filter(map[], {}, None, None, None, None)

  /** The message that hands a merged filter to a consumer task. */
  datatype Update = Update(id: nat, expression: Encoded, schema: nat)

  /** The coordinator's end of a task's channel: everything sent so far. */
  datatype Channel = Channel(log: seq<Update>)

  /** What a send finds of a channel's receiver. One that went away because the query is shutting down
      shows the sender, when the send fails, that the query has finished. */
  datatype Receiver = Listening | Gone(shutdown: bool)

  /** One consumer's turn, and its receiver at that moment: receivers may go away at any time, also
      between two sends of one call. */
  datatype Attempt = Attempt(key: TaskKey, found: Receiver)

  /** How a filter's consumers are walked: whether the query is found to have finished by then, and the
      order in which a hash set happens to be walked. */
  datatype Walk = Walk(finished: bool, attempts: seq<Attempt>)

  datatype State = State(
    filters: map<nat, Filter>,
    sealed: set<nat>,
    senders: map<TaskKey, Channel>,
    delivered: set<(nat, TaskKey)>,
    finished: bool)

  const InitialState := State(map[], {}, map[], {}, false)

  datatype Error =
    | ConflictingSchemas | ConflictingModes
    | MismatchedId | NotADynamicFilter | MissingPredicate | UnregisteredFilter | NotAProducer
    | MissingSchema | ChannelClosed

  datatype Outcome = Ok | Err(error: Error)

  datatype Stepped = Stepped(state: State, outcome: Outcome)

  // ---------------------------------------------------------------- register_task

  /** The plan node that produces a filter decides the merge policy. */
  datatype ProducerNode = CollectLeftHashJoin | Sort | Aggregate | OtherNode

  function ModeOf(n: ProducerNode): (mode: Policy) {
    match n
    case CollectLeftHashJoin => ForwardFirstComplete
    case Sort => IntersectOnUpdate
    case Aggregate => IntersectOnUpdate
    case OtherNode => UnionWhenAllComplete
  }

  /** A filter produced somewhere in a task's plan. */
  datatype Produced = Produced(id: nat, node: ProducerNode, schema: nat)

  function FilterAt(filters: map<nat, Filter>, id: nat): (f: Filter) {
    if id in filters then filters[id] else NewFilter
  }

  function RegisterProducer(s: State, key: TaskKey, p: Produced): (r: Stepped) {
    var f := FilterAt(s.filters, p.id);
    var mode := ModeOf(p.node);
    if f.schema.Some? && f.schema.value != p.schema then Stepped(s, Err(ConflictingSchemas))
    else if f.mode.Some? && f.mode.value != mode then
      Stepped(s.(filters := s.filters[p.id := f.(schema := Some(p.schema))]), Err(ConflictingModes))
    else
      var producers := if key in f.producers then f.producers else f.producers[key := None];
      Stepped(s.(filters := s.filters[p.id :=
        f.(schema := Some(p.schema), mode := Some(mode), producers := producers)]), Ok)
  }

  function RegisterProducers(s: State, key: TaskKey, produced: seq<Produced>): (r: Stepped)
    decreases |produced|
  {
    if produced == [] then Stepped(s, Ok) else
      var r := RegisterProducer(s, key, produced[0]);
      if r.outcome.Err? then r else RegisterProducers(r.state, key, produced[1..])
  }

  function RegisterConsumer(s: State, key: TaskKey, id: nat): (t: State) {
    var f := FilterAt(s.filters, id);
    s.(filters := s.filters[id := f.(consumers := f.consumers + {key})])
  }

  function RegisterConsumers(s: State, key: TaskKey, consumed: seq<nat>): (t: State)
    decreases |consumed|
  {
    if consumed == [] then s
    else RegisterConsumers(RegisterConsumer(s, key, consumed[0]), key, consumed[1..])
  }

  function RegisterTask(s: State, key: TaskKey, produced: seq<Produced>, consumed: seq<nat>)
    : (r: Stepped)
  {
    var r := RegisterProducers(s, key, produced);
    if r.outcome.Err? then r else Stepped(RegisterConsumers(r.state, key, consumed), Ok)
  }

  // ---------------------------------------------------------------- merge and dispatch

  /** Recomputes the merged filter of `id`; a change makes it undelivered everywhere. */
  function MergeFilter(s: State, id: nat): (r: (State, bool)) {
    if id !in s.filters || s.filters[id].mode.None? then (s, false) else
      var f := s.filters[id];
      var m := Merge(f.producers, s.sealed, f.mode.value, f.merged);
      if m.None? then (s, false) else
        (s.(filters := s.filters[id := f.(merged := m, mergedBytes := Some(Encoded(id, m.value)))],
            delivered := set d | d in s.delivered && d.0 != id), true)
  }

  function Send(s: State, key: TaskKey, u: Update): (t: State)
    requires key in s.senders
  {
    var c := s.senders[key];
    s.(senders := s.senders[key := c.(log := c.log + [u])], delivered := s.delivered + {(u.id, key)})
  }

  /** Consumer `key` is skipped: its own producer already updated it, or it has the current
      merged filter, or it is not connected yet. */
  predicate Skipped(s: State, id: nat, key: TaskKey)
    requires id in s.filters
  {
    key in s.filters[id].producers || (id, key) in s.delivered || key !in s.senders
  }

  /** Sends to the consumers in the given order, stopping at the first closed channel. That is an error
      unless the query has finished meanwhile. */
  function SendAll(s: State, id: nat, u: Update, attempts: seq<Attempt>): (r: Stepped)
    requires id in s.filters && u.id == id
    decreases |attempts|
  {
    if attempts == [] then Stepped(s, Ok)
    else if Skipped(s, id, attempts[0].key) then SendAll(s, id, u, attempts[1..])
    else match attempts[0].found
      case Gone(shutdown) => if shutdown then Stepped(s.(finished := true), Ok) else Stepped(s, Err(ChannelClosed))
      case Listening => SendAll(Send(s, attempts[0].key, u), id, u, attempts[1..])
  }

  function Dispatch(s: State, id: nat, order: Walk): (r: Stepped) {
    if s.finished || order.finished then Stepped(s.(finished := true), Ok)
    else if id !in s.filters || s.filters[id].mergedBytes.None? then Stepped(s, Ok)
    else if s.filters[id].schema.None? then Stepped(s, Err(MissingSchema))
    else
      var f := s.filters[id];
      SendAll(s, id, Update(id, f.mergedBytes.value, f.schema.value), order.attempts)
  }

  function MergeAndDispatch(s: State, id: nat, order: Walk): (r: Stepped) {
    var (t, changed) := MergeFilter(s, id);
    if changed then Dispatch(t, id, order) else Stepped(t, Ok)
  }

  // ---------------------------------------------------------------- register_sender, seal_stage

  /** The order in which a hash map happens to be walked: filter ids, and for each of them the walk of
      its consumers. */
  type Schedule = seq<(nat, Walk)>

  function DispatchEach(s: State, sched: Schedule): (r: Stepped)
    decreases |sched|
  {
    if sched == [] then Stepped(s, Ok) else
      var r := Dispatch(s, sched[0].0, sched[0].1);
      if r.outcome.Err? then r else DispatchEach(r.state, sched[1..])
  }

  function MergeEach(s: State, sched: Schedule): (r: Stepped)
    decreases |sched|
  {
    if sched == [] then Stepped(s, Ok) else
      var r := MergeAndDispatch(s, sched[0].0, sched[0].1);
      if r.outcome.Err? then r else MergeEach(r.state, sched[1..])
  }

  function Connect(s: State, key: TaskKey): (t: State) {
    s.(senders := s.senders[key := Channel([])],
       delivered := set d | d in s.delivered && d.1 != key)
  }

  function RegisterSender(s: State, key: TaskKey, sched: Schedule): (r: Stepped) {
    DispatchEach(Connect(s, key), sched)
  }

  function SealStage(s: State, stage: nat, sched: Schedule): (r: Stepped) {
    MergeEach(s.(sealed := s.sealed + {stage}), sched)
  }

  // ---------------------------------------------------------------- record_dynamic_filter_update

  datatype Payload = DynamicFilter(snapshot: Snapshot) | OtherExpr

  /** A producer's report: the filter it claims to be for, and the expression it carries. */
  datatype Report = Report(id: nat, exprId: Option<nat>, payload: Payload)

  function ReportError(s: State, key: TaskKey, report: Report): (e: Option<Error>) {
    if report.exprId != Some(report.id) then Some(MismatchedId)
    else if !report.payload.DynamicFilter? then Some(NotADynamicFilter)
    else if report.payload.snapshot.inner.None? then Some(MissingPredicate)
    else if report.id !in s.filters then Some(UnregisteredFilter)
    else if key !in s.filters[report.id].producers then Some(NotAProducer)
    else None
  }

  /** Ignored: an incomplete report where only complete ones count, anything after the producer's
      complete report, and a repeated report. */
  predicate Accepted(mode: Option<Policy>, previous: Option<Snapshot>, next: Snapshot) {
    && (mode != Some(IntersectOnUpdate) ==> next.complete)
    && (previous.Some? ==> !previous.value.complete && previous.value != next)
  }

  function StoreReport(s: State, key: TaskKey, id: nat, snapshot: Snapshot): (t: State)
    requires id in s.filters
  {
    var f := s.filters[id];
    s.(filters := s.filters[id := f.(producers := f.producers[key := Some(snapshot)])])
  }

  /** Is the report one that the registry stores? */
  predicate Stored(s: State, key: TaskKey, report: Report) {
    && ReportError(s, key, report).None?
    && var f := s.filters[report.id];
       Accepted(f.mode, f.producers[key], report.payload.snapshot)
  }

  function RecordUpdate(s: State, key: TaskKey, report: Report, order: Walk): (r: Stepped) {
    var e := ReportError(s, key, report);
    if e.Some? then Stepped(s, Err(e.value))
    else if !Stored(s, key, report) then Stepped(s, Ok)
    else MergeAndDispatch(StoreReport(s, key, report.id, report.payload.snapshot), report.id, order)
  }
}
