/** What every call of the registry keeps, and what therefore holds after any run. */
module RegistryInvariant {
  import opened Wrappers
  import opened DynamicFilters
  import opened RegistrySteps

  /** What the planner fixes about each filter id: the policy and schema of its producer nodes and
      the one stage those nodes are in. */
  datatype Catalog = Catalog(mode: nat -> Policy, schema: nat -> nat, stage: nat -> nat)

  // ---------------------------------------------------------------- one filter

  /** The merged filter a union has once every producer is sealed and complete. */
  ghost function UnionOf(reports: Reports): (m: Snapshot)
    requires ReportedKeys(reports) != {}
  {
    var first := reports[MergeKeys(reports, UnionWhenAllComplete)[0]].value;
    Snapshot(MergedPredicate(reports, UnionWhenAllComplete), true, 0, first.args)
  }

  lemma AllCompleteReported(reports: Reports, sealed: set<nat>)
    requires AllComplete(reports, sealed)
    ensures ReportedKeys(reports) != {} && ReportedKeys(reports) == reports.Keys
  {
    var k :| k in reports;
    assert k in ReportedKeys(reports);
  }

  /** The merged filter is what its policy says about the current reports. */
  ghost predicate MergedExact(mode: Policy, reports: Reports, sealed: set<nat>, merged: Option<Snapshot>)
  {
    match mode
    case UnionWhenAllComplete =>
      if AllComplete(reports, sealed)
      then (AllCompleteReported(reports, sealed); merged == Some(UnionOf(reports)))
      else merged == None
    case IntersectOnUpdate =>
      if ReportedKeys(reports) == {} then merged == None else
        && merged.Some?
        && merged.value.inner == MergedPredicate(reports, mode)
        && merged.value.complete == AllComplete(reports, sealed)
    case ForwardFirstComplete =>
      && (merged.Some? <==> ReportedKeys(reports) != {})
      && (merged.Some? ==> merged.value.complete && merged.value.generation == 0)
  }

  ghost predicate Reported(mode: Policy, reports: Reports) {
    && HasPredicates(reports)
    && (mode != IntersectOnUpdate ==>
          forall k | k in reports && reports[k].Some? :: reports[k].value.complete)
  }

  /** `next` is `reports` with at most one producer's report replaced by an acceptable newer one. */
  ghost predicate ReportStep(mode: Policy, reports: Reports, next: Reports) {
    next == reports ||
    exists k, r ::
      && k in reports && next == reports[k := Some(r)]
      && Accepted(Some(mode), reports[k], r) && r.inner.Some?
  }

  lemma ReportStepFacts(mode: Policy, reports: Reports, next: Reports)
    requires Reported(mode, reports) && ReportStep(mode, reports, next)
    ensures Reported(mode, next)
    ensures ReportedKeys(reports) <= ReportedKeys(next)
    ensures next == reports || ReportedKeys(next) != {}
    ensures forall sealed :: AllComplete(reports, sealed) ==> next == reports
  {
    if next != reports {
      var k, r :| k in reports && next == reports[k := Some(r)]
                  && Accepted(Some(mode), reports[k], r) && r.inner.Some?;
      assert k in ReportedKeys(next);
    }
  }

  /** Recomputing the merge after a report or a seal restores exactness. */
  lemma MergeIsExact(mode: Policy, reports: Reports, sealed: set<nat>, merged: Option<Snapshot>,
                     next: Reports, sealed': set<nat>)
    requires MergedExact(mode, reports, sealed, merged) && Reported(mode, reports)
    requires ReportStep(mode, reports, next) && sealed <= sealed'
    ensures var m := Merge(next, sealed', mode, merged);
            MergedExact(mode, next, sealed', if m.Some? then m else merged)
  {
    ReportStepFacts(mode, reports, next);
    assert AllComplete(reports, sealed) ==> next == reports && AllComplete(next, sealed');
    match mode {
      case UnionWhenAllComplete => MergeUnionIsExact(reports, sealed, merged, next, sealed');
      case IntersectOnUpdate =>
      case ForwardFirstComplete =>
    }
  }

  lemma MergeUnionIsExact(reports: Reports, sealed: set<nat>, merged: Option<Snapshot>,
                          next: Reports, sealed': set<nat>)
    requires MergedExact(UnionWhenAllComplete, reports, sealed, merged)
    requires AllComplete(reports, sealed) ==> next == reports && AllComplete(next, sealed')
    ensures var m := Merge(next, sealed', UnionWhenAllComplete, merged);
            MergedExact(UnionWhenAllComplete, next, sealed', if m.Some? then m else merged)
  {
    if AllComplete(next, sealed') {
      AllCompleteReported(next, sealed');
    }
  }

  ghost predicate FilterOk(cat: Catalog, id: nat, f: Filter) {
    && f.mergedBytes == (if f.merged.Some? then Some(Encoded(id, f.merged.value)) else None)
    && (f.producers == map[] ==> f.mode == None && f.schema == None && f.merged == None)
    && (f.producers != map[] ==> f.mode == Some(cat.mode(id)) && f.schema == Some(cat.schema(id)))
    && (forall k | k in f.producers :: k.stage == cat.stage(id))
    && Reported(cat.mode(id), f.producers)
  }

  // ---------------------------------------------------------------- one channel

  /** A sent message is for a filter the receiver does not produce, and carries a merged filter no
      newer than the current one; the current one was sent only if it is recorded as delivered. */
  ghost predicate MessageOk(s: State, key: TaskKey, u: Update) {
    && u.id in s.filters
    && var f := s.filters[u.id];
    && key !in f.producers
    && f.merged.Some?
    && f.schema == Some(u.schema)
    && u.expression.id == u.id
    && u.expression.filter.generation <= f.merged.value.generation
    && (u.expression.filter.generation == f.merged.value.generation ==>
          u.expression.filter == f.merged.value && (u.id, key) in s.delivered)
  }

  /** The generations sent for one filter strictly increase. */
  ghost predicate Increasing(log: seq<Update>) {
    forall i, j | 0 <= i < j < |log| && log[i].id == log[j].id ::
      log[i].expression.filter.generation < log[j].expression.filter.generation
  }

  /** The message that carries the current merged filter of `id`. */
  ghost function Current(s: State, id: nat): (u: Update)
    requires id in s.filters && s.filters[id].merged.Some? && s.filters[id].schema.Some?
  {
    var f := s.filters[id];
    Update(id, Encoded(id, f.merged.value), f.schema.value)
  }

  ghost predicate HasCurrent(s: State, key: TaskKey, id: nat) {
    && id in s.filters && s.filters[id].merged.Some? && s.filters[id].schema.Some?
    && key in s.senders && Current(s, id) in s.senders[key].log
  }

  ghost predicate ChannelOk(s: State, key: TaskKey)
    requires key in s.senders
  {
    && (forall i | 0 <= i < |s.senders[key].log| :: MessageOk(s, key, s.senders[key].log[i]))
    && Increasing(s.senders[key].log)
  }

  // ---------------------------------------------------------------- the whole state

  /** Holds after every step, whatever failed before. */
  ghost predicate Safe(cat: Catalog, s: State) {
    && (forall id | id in s.filters :: FilterOk(cat, id, s.filters[id]))
    && (forall key | key in s.senders :: ChannelOk(s, key))
    && (forall id, key | (id, key) in s.delivered :: HasCurrent(s, key, id))
  }

  ghost predicate ExactAt(cat: Catalog, s: State, id: nat)
    requires id in s.filters
  {
    MergedExact(cat.mode(id), s.filters[id].producers, s.sealed, s.filters[id].merged)
  }

  /** Every merged filter is what its policy prescribes for the current reports. */
  ghost predicate Exact(cat: Catalog, s: State) {
    forall id | id in s.filters :: ExactAt(cat, s, id)
  }

  /** Consumer `key` of `id` has been sent the current merged filter, if it should have it. */
  ghost predicate ServedAt(s: State, id: nat, key: TaskKey)
    requires id in s.filters
  {
    var f := s.filters[id];
    key in f.consumers && key !in f.producers && key in s.senders && f.merged.Some? ==>
      (id, key) in s.delivered
  }

  ghost predicate Served(s: State) {
    forall id, key | id in s.filters :: ServedAt(s, id, key)
  }
}
