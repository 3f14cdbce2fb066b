/** The registry object. Every method is one call made under the registry's lock; its contract ties
    the new state to the step function of the same name. The order in which hash maps are walked is
    not fixed by the program, so it comes in as a parameter. */
module Registry {
  import opened Wrappers
  import opened DynamicFilters
  import Steps = RegistrySteps
  import opened RegistrySteps
  import opened RegistryPreservation
  import opened RegistryRuns

  class DynamicFilterRegistry {
    var filters: map<nat, Filter>
    var sealedStages: set<nat>
    var taskSenders: map<TaskKey, Channel>
    var delivered: set<(nat, TaskKey)>
    var queryFinished: bool
    var updatesReceived: nat

    function State(): (s: Steps.State)
      reads this
    {
      Steps.State(filters, sealedStages, taskSenders, delivered, queryFinished)
    }

    constructor ()
      ensures State() == InitialState && updatesReceived == 0
    {
      filters, sealedStages, taskSenders, delivered := map[], {}, map[], {};
      queryFinished, updatesReceived := false, 0;
    }

    method RegisterTask(key: TaskKey, produced: seq<Produced>, consumed: seq<nat>) returns (outcome: Outcome)
      modifies this
      ensures Stepped(State(), outcome) == Steps.RegisterTask(old(State()), key, produced, consumed)
      ensures updatesReceived == old(updatesReceived)
    {
      ghost var before := State();
      for i := 0 to |produced|
        invariant RegisterProducers(before, key, produced) == RegisterProducers(State(), key, produced[i..])
        invariant updatesReceived == old(updatesReceived)
      {
        assert produced[i..][0] == produced[i] && produced[i..][1..] == produced[i + 1..];
        outcome := AddProducer(key, produced[i]);
        if outcome.Err? {
          return;
        }
      }
      ghost var wired := State();
      for i := 0 to |consumed|
        invariant RegisterConsumers(wired, key, consumed) == RegisterConsumers(State(), key, consumed[i..])
        invariant updatesReceived == old(updatesReceived)
      {
        assert consumed[i..][0] == consumed[i] && consumed[i..][1..] == consumed[i + 1..];
        var filter := if consumed[i] in filters then filters[consumed[i]] else NewFilter;
        filters := filters[consumed[i] := filter.(consumers := filter.consumers + {key})];
      }
      return Ok;
    }

    method AddProducer(key: TaskKey, p: Produced) returns (outcome: Outcome)
      modifies this
      ensures Stepped(State(), outcome) == RegisterProducer(old(State()), key, p)
      ensures updatesReceived == old(updatesReceived)
    {
      var mode := ModeOf(p.node);
      var filter := if p.id in filters then filters[p.id] else NewFilter;
      if filter.schema.Some? && filter.schema.value != p.schema {
        return Err(ConflictingSchemas);
      }
      filter := filter.(schema := Some(p.schema));
      if filter.mode.Some? && filter.mode.value != mode {
        filters := filters[p.id := filter];
        return Err(ConflictingModes);
      }
      filter := filter.(mode := Some(mode));
      if key !in filter.producers {
        filter := filter.(producers := filter.producers[key := None]);
      }
      filters := filters[p.id := filter];
      return Ok;
    }

    method RegisterSender(key: TaskKey, sched: Schedule) returns (outcome: Outcome)
      requires Covers(sched, filters)
      modifies this
      ensures Stepped(State(), outcome) == Steps.RegisterSender(old(State()), key, sched)
      ensures updatesReceived == old(updatesReceived)
    {
      taskSenders := taskSenders[key := Channel([])];
      delivered := set d | d in delivered && d.1 != key;
      ghost var connected := State();
      for i := 0 to |sched|
        invariant DispatchEach(connected, sched) == DispatchEach(State(), sched[i..])
        invariant updatesReceived == old(updatesReceived)
      {
        assert sched[i..][0] == sched[i] && sched[i..][1..] == sched[i + 1..];
        outcome := Dispatch(sched[i].0, sched[i].1);
        if outcome.Err? {
          return;
        }
      }
      return Ok;
    }

    method SealStage(stage: nat, sched: Schedule) returns (outcome: Outcome)
      requires Covers(sched, filters)
      modifies this
      ensures Stepped(State(), outcome) == Steps.SealStage(old(State()), stage, sched)
      ensures updatesReceived == old(updatesReceived)
    {
      sealedStages := sealedStages + {stage};
      ghost var sealed := State();
      for i := 0 to |sched|
        invariant MergeEach(sealed, sched) == MergeEach(State(), sched[i..])
        invariant updatesReceived == old(updatesReceived)
      {
        assert sched[i..][0] == sched[i] && sched[i..][1..] == sched[i + 1..];
        var changed := MergeReports(sched[i].0);
        if changed {
          outcome := Dispatch(sched[i].0, sched[i].1);
          if outcome.Err? {
            return;
          }
        }
      }
      return Ok;
    }

    method RecordUpdate(key: TaskKey, report: Report, order: Walk) returns (outcome: Outcome)
      requires report.id in filters ==> Enumerates(order, filters[report.id].consumers)
      modifies this
      ensures Stepped(State(), outcome) == Steps.RecordUpdate(old(State()), key, report, order)
      ensures updatesReceived == old(updatesReceived) + 1
    {
      updatesReceived := updatesReceived + 1;
      if report.exprId != Some(report.id) {
        return Err(MismatchedId);
      }
      if !report.payload.DynamicFilter? {
        return Err(NotADynamicFilter);
      }
      var snapshot := report.payload.snapshot;
      if snapshot.inner.None? {
        return Err(MissingPredicate);
      }
      if report.id !in filters {
        return Err(UnregisteredFilter);
      }
      var filter := filters[report.id];
      if key !in filter.producers {
        return Err(NotAProducer);
      }
      var previous := filter.producers[key];
      if (filter.mode != Some(IntersectOnUpdate) && !snapshot.complete)
         || (previous.Some? && (previous.value.complete || previous.value == snapshot))
      {
        return Ok;
      }
      filters := filters[report.id := filter.(producers := filter.producers[key := Some(snapshot)])];
      var changed := MergeReports(report.id);
      if changed {
        outcome := Dispatch(report.id, order);
      } else {
        outcome := Ok;
      }
    }

    /** Recomputes the merged filter from the reports present, if there are enough of them. */
    method MergeReports(id: nat) returns (changed: bool)
      modifies this
      ensures (State(), changed) == MergeFilter(old(State()), id)
      ensures updatesReceived == old(updatesReceived)
    {
      if id !in filters || filters[id].mode.None? {
        return false;
      }
      var filter := filters[id];
      var merged := Remerged(filter.producers, sealedStages, filter.mode.value, filter.merged);
      if merged.None? {
        return false;
      }
      filters := filters[id := filter.(merged := merged, mergedBytes := Some(Encoded(id, merged.value)))];
      delivered := set d | d in delivered && d.0 != id;
      return true;
    }

    /** The new merged filter, or None while there is nothing new to forward. */
    static method Remerged(producers: Reports, sealed: set<nat>, mode: Policy, previous: Option<Snapshot>)
      returns (merged: Option<Snapshot>)
      ensures merged == Merge(producers, sealed, mode, previous)
    {
      if previous.Some? && previous.value.complete {
        return None;
      }
      var allComplete := AllComplete(producers, sealed);
      if mode == UnionWhenAllComplete && !allComplete {
        return None;
      }
      var keys := SortedKeys(ReportedKeys(producers));
      if mode == ForwardFirstComplete && |keys| > 1 {
        keys := keys[..1];
      }
      if keys == [] {
        return None;
      }
      var predicates := CollectPredicates(producers, keys);
      var inner := MergePredicates(predicates, mode);
      var complete := mode == ForwardFirstComplete || allComplete;
      if previous.Some? && previous.value.inner == inner && previous.value.complete == complete {
        return None;
      }
      return Some(producers[keys[0]].value.(
                    inner := inner, complete := complete,
                    generation := if previous.Some? then previous.value.generation + 1 else 0));
    }

    static method CollectPredicates(reports: Reports, keys: seq<TaskKey>) returns (predicates: seq<Expr>)
      requires forall k | k in keys :: k in reports && reports[k].Some?
      ensures predicates == Predicates(reports, keys)
    {
      predicates := [];
      for i := 0 to |keys|
        invariant predicates + Predicates(reports, keys[i..]) == Predicates(reports, keys)
      {
        ghost var rest := Predicates(reports, keys[i + 1..]);
        assert keys[i..][0] == keys[i] && keys[i..][1..] == keys[i + 1..];
        var report := reports[keys[i]].value;
        if report.inner.Some? {
          assert predicates + ([report.inner.value] + rest) == predicates + [report.inner.value] + rest;
          predicates := predicates + [report.inner.value];
        }
      }
    }

    /** Sends the merged filter to every connected consumer that does not have it yet. */
    method Dispatch(id: nat, order: Walk) returns (outcome: Outcome)
      modifies this
      ensures Stepped(State(), outcome) == Steps.Dispatch(old(State()), id, order)
      ensures updatesReceived == old(updatesReceived)
    {
      if queryFinished || order.finished {
        queryFinished := true;
        return Ok;
      }
      if id !in filters || filters[id].mergedBytes.None? {
        return Ok;
      }
      var filter := filters[id];
      if filter.schema.None? {
        return Err(MissingSchema);
      }
      var update := Update(id, filter.mergedBytes.value, filter.schema.value);
      ghost var before := State();
      for i := 0 to |order.attempts|
        invariant filters == before.filters && !queryFinished
        invariant SendAll(before, id, update, order.attempts) == SendAll(State(), id, update, order.attempts[i..])
        invariant updatesReceived == old(updatesReceived)
      {
        var key, found := order.attempts[i].key, order.attempts[i].found;
        assert order.attempts[i..][0].key == key && order.attempts[i..][1..] == order.attempts[i + 1..];
        if key in filter.producers || (id, key) in delivered || key !in taskSenders {
          continue;
        }
        if found.Gone? {
          if !found.shutdown {
            return Err(ChannelClosed);
          }
          queryFinished := true;
          return Ok;
        }
        var sender := taskSenders[key];
        taskSenders := taskSenders[key := sender.(log := sender.log + [update])];
        delivered := delivered + {(id, key)};
      }
      return Ok;
    }
  }
}
