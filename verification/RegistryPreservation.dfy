/** Each building block of a registry call keeps the invariant. */
module RegistryPreservation {
  import opened Wrappers
  import opened DynamicFilters
  import opened RegistrySteps
  import opened RegistryInvariant

  // ---------------------------------------------------------------- registering a task

  lemma {:induction false} PredicatesAgree(a: Reports, b: Reports, keys: seq<TaskKey>)
    requires forall k | k in keys :: k in a && a[k].Some? && k in b && b[k] == a[k]
    ensures Predicates(a, keys) == Predicates(b, keys)
  {
    if keys != [] {
      PredicatesAgree(a, b, keys[1..]);
    }
  }

  /** A producer of an unsealed stage can join without changing what the merge must be. */
  lemma NewProducerKeepsExact(mode: Policy, reports: Reports, sealed: set<nat>,
                              merged: Option<Snapshot>, key: TaskKey)
    requires MergedExact(mode, reports, sealed, merged)
    requires key !in reports && key.stage !in sealed
    requires forall k | k in reports :: k.stage == key.stage
    ensures MergedExact(mode, reports[key := None], sealed, merged)
  {
    var next := reports[key := None];
    assert ReportedKeys(next) == ReportedKeys(reports);
    assert !AllComplete(next, sealed) && !AllComplete(reports, sealed);
    assert MergeKeys(next, mode) == MergeKeys(reports, mode);
    PredicatesAgree(reports, next, MergeKeys(reports, mode));
  }

  /** The producer agrees with the policy and schema its filter was first registered with. */
  predicate Agrees(cat: Catalog, p: Produced) {
    ModeOf(p.node) == cat.mode(p.id) && p.schema == cat.schema(p.id)
  }

  /** A registration as it may come: its filter's producers are all in one stage, and the catalog
      records what the filter is first registered with. Later ones may disagree. */
  ghost predicate MayJoin(cat: Catalog, s: State, key: TaskKey, p: Produced) {
    key.stage == cat.stage(p.id) && (FilterAt(s.filters, p.id).mode.None? ==> Agrees(cat, p))
  }

  ghost predicate MayJoinAll(cat: Catalog, s: State, key: TaskKey, produced: seq<Produced>)
    decreases |produced|
  {
    produced == [] ||
    var r := RegisterProducer(s, key, produced[0]);
    MayJoin(cat, s, key, produced[0]) && (r.outcome == Ok ==> MayJoinAll(cat, r.state, key, produced[1..]))
  }

  /** A producer that disagrees is rejected and leaves no trace. */
  lemma DisagreementIsRejected(cat: Catalog, s: State, key: TaskKey, p: Produced)
    requires Safe(cat, s) && MayJoin(cat, s, key, p) && !Agrees(cat, p)
    ensures var r := RegisterProducer(s, key, p);
            && r.state == s
            && r.outcome == Err(if p.schema != cat.schema(p.id) then ConflictingSchemas else ConflictingModes)
  {
    var f := FilterAt(s.filters, p.id);
    assert FilterOk(cat, p.id, f) && p.id in s.filters;
    if p.schema == cat.schema(p.id) {
      assert f.(schema := Some(p.schema)) == f && s.filters[p.id := f] == s.filters;
    }
  }

  lemma ProducerKeepsChannel(s: State, key: TaskKey, p: Produced, k: TaskKey)
    requires k in s.senders && ChannelOk(s, k) && key !in s.senders && RegisterProducer(s, key, p).outcome == Ok
    ensures ChannelOk(RegisterProducer(s, key, p).state, k)
  {
    var t := RegisterProducer(s, key, p).state;
    forall i | 0 <= i < |t.senders[k].log| ensures MessageOk(t, k, t.senders[k].log[i]) {
      assert MessageOk(s, k, s.senders[k].log[i]);
    }
  }

  lemma ProducerFilterOk(cat: Catalog, s: State, key: TaskKey, p: Produced)
    requires Safe(cat, s) && MayJoin(cat, s, key, p) && Agrees(cat, p)
    ensures var r := RegisterProducer(s, key, p);
            && r.outcome == Ok && p.id in r.state.filters && FilterOk(cat, p.id, r.state.filters[p.id])
            && r.state.filters[p.id].merged == FilterAt(s.filters, p.id).merged
  {
    assert FilterOk(cat, p.id, FilterAt(s.filters, p.id));
  }

  lemma RegisterProducerSafe(cat: Catalog, s: State, key: TaskKey, p: Produced)
    requires Safe(cat, s) && MayJoin(cat, s, key, p) && Agrees(cat, p) && key !in s.senders
    ensures var r := RegisterProducer(s, key, p); r.outcome == Ok && Safe(cat, r.state)
  {
    var t := RegisterProducer(s, key, p).state;
    ProducerFilterOk(cat, s, key, p);
    forall k | k in t.senders ensures ChannelOk(t, k) {
      assert ChannelOk(s, k);
      ProducerKeepsChannel(s, key, p, k);
    }
    forall id, k | (id, k) in t.delivered ensures HasCurrent(t, k, id) {
      assert HasCurrent(s, k, id);
    }
  }

  lemma RegisterProducerExact(cat: Catalog, s: State, key: TaskKey, p: Produced)
    requires Safe(cat, s) && Exact(cat, s) && MayJoin(cat, s, key, p)
    requires key.stage !in s.sealed && RegisterProducer(s, key, p).outcome == Ok
    ensures Exact(cat, RegisterProducer(s, key, p).state)
  {
    var t := RegisterProducer(s, key, p).state;
    var f := FilterAt(s.filters, p.id);
    assert FilterOk(cat, p.id, f);
    assert p.id in s.filters ==> ExactAt(cat, s, p.id);
    assert ReportedKeys(NewFilter.producers) == {};
    if key !in f.producers {
      NewProducerKeepsExact(cat.mode(p.id), f.producers, s.sealed, f.merged, key);
    }
    forall id | id in t.filters ensures ExactAt(cat, t, id) {
      assert id != p.id ==> ExactAt(cat, s, id);
    }
  }

  lemma RegisterProducerKeeps(cat: Catalog, s: State, key: TaskKey, p: Produced)
    requires Safe(cat, s) && MayJoin(cat, s, key, p)
    requires key !in s.senders && key.stage !in s.sealed
    ensures var r := RegisterProducer(s, key, p);
            && (r.outcome == Ok <==> Agrees(cat, p)) && Safe(cat, r.state)
            && r.outcome in {Ok, Err(ConflictingSchemas), Err(ConflictingModes)}
            && r.state.senders == s.senders && r.state.sealed == s.sealed
            && (Exact(cat, s) ==> Exact(cat, r.state)) && (Served(s) ==> Served(r.state))
  {
    if !Agrees(cat, p) {
      DisagreementIsRejected(cat, s, key, p);
      return;
    }
    RegisterProducerSafe(cat, s, key, p);
    if Exact(cat, s) {
      RegisterProducerExact(cat, s, key, p);
    }
    var t := RegisterProducer(s, key, p).state;
    assert FilterOk(cat, p.id, FilterAt(s.filters, p.id));
    if Served(s) {
      forall id, k | id in t.filters ensures ServedAt(t, id, k) {
        assert id in s.filters ==> ServedAt(s, id, k);
      }
    }
  }

  lemma {:induction false} RegisterProducersKeeps(cat: Catalog, s: State, key: TaskKey, produced: seq<Produced>)
    requires Safe(cat, s) && MayJoinAll(cat, s, key, produced)
    requires key !in s.senders && key.stage !in s.sealed
    ensures var r := RegisterProducers(s, key, produced);
            && (r.outcome == Ok <==> forall i | 0 <= i < |produced| :: Agrees(cat, produced[i]))
            && r.outcome in {Ok, Err(ConflictingSchemas), Err(ConflictingModes)} && Safe(cat, r.state)
            && r.state.senders == s.senders && r.state.sealed == s.sealed
            && (Exact(cat, s) ==> Exact(cat, r.state)) && (Served(s) ==> Served(r.state))
    decreases |produced|
  {
    if produced != [] {
      RegisterProducerKeeps(cat, s, key, produced[0]);
      if Agrees(cat, produced[0]) {
        RegisterProducersKeeps(cat, RegisterProducer(s, key, produced[0]).state, key, produced[1..]);
        RestAgrees(cat, produced);
      }
    }
  }

  lemma RestAgrees(cat: Catalog, produced: seq<Produced>)
    requires produced != [] && Agrees(cat, produced[0])
    ensures (forall i | 0 <= i < |produced| :: Agrees(cat, produced[i])) <==>
            (forall i | 0 <= i < |produced[1..]| :: Agrees(cat, produced[1..][i]))
  {
    assert forall i | 0 < i < |produced| :: produced[1..][i - 1] == produced[i];
  }

  lemma RegisterConsumerSafe(cat: Catalog, s: State, key: TaskKey, id: nat)
    requires Safe(cat, s) && key !in s.senders
    ensures var t := RegisterConsumer(s, key, id);
            Safe(cat, t) && t.senders == s.senders && t.sealed == s.sealed
  {
    var t := RegisterConsumer(s, key, id);
    forall k | k in t.senders ensures ChannelOk(t, k) {
      assert ChannelOk(s, k);
    }
  }

  lemma RegisterConsumerKeeps(cat: Catalog, s: State, key: TaskKey, id: nat)
    requires key !in s.senders
    ensures var t := RegisterConsumer(s, key, id);
            (Exact(cat, s) ==> Exact(cat, t)) && (Served(s) ==> Served(t))
  {
    var t := RegisterConsumer(s, key, id);
    if Exact(cat, s) {
      forall i | i in t.filters ensures ExactAt(cat, t, i) {
        assert i in s.filters ==> ExactAt(cat, s, i);
        assert i !in s.filters ==> ReportedKeys(NewFilter.producers) == {};
      }
    }
    if Served(s) {
      forall i, k | i in t.filters ensures ServedAt(t, i, k) {
        assert i in s.filters ==> ServedAt(s, i, k);
      }
    }
  }

  lemma {:induction false} RegisterConsumersKeeps(cat: Catalog, s: State, key: TaskKey, consumed: seq<nat>)
    requires Safe(cat, s) && key !in s.senders
    ensures var t := RegisterConsumers(s, key, consumed);
            && Safe(cat, t) && t.senders == s.senders && t.sealed == s.sealed
            && (Exact(cat, s) ==> Exact(cat, t)) && (Served(s) ==> Served(t))
    decreases |consumed|
  {
    if consumed != [] {
      RegisterConsumerSafe(cat, s, key, consumed[0]);
      RegisterConsumerKeeps(cat, s, key, consumed[0]);
      RegisterConsumersKeeps(cat, RegisterConsumer(s, key, consumed[0]), key, consumed[1..]);
    }
  }

  // ---------------------------------------------------------------- dispatching

  /** Dispatching touches only channels and delivery marks. */
  ghost predicate OnlySent(s: State, t: State) {
    && t.filters == s.filters && t.sealed == s.sealed && (s.finished ==> t.finished)
    && t.senders.Keys == s.senders.Keys && s.delivered <= t.delivered
  }

  lemma SentChannelOk(cat: Catalog, s: State, id: nat, key: TaskKey)
    requires Safe(cat, s) && id in s.filters && !Skipped(s, id, key)
    requires s.filters[id].merged.Some? && s.filters[id].schema.Some?
    ensures ChannelOk(Send(s, key, Current(s, id)), key)
  {
    var before, log := s.senders[key].log, Send(s, key, Current(s, id)).senders[key].log;
    assert ChannelOk(s, key);
    assert forall i | 0 <= i < |before| :: log[i] == before[i] && MessageOk(s, key, before[i]);
    assert log[|before|] == Current(s, id);
  }

  lemma SendKeeps(cat: Catalog, s: State, id: nat, key: TaskKey)
    requires Safe(cat, s) && id in s.filters && !Skipped(s, id, key)
    requires s.filters[id].merged.Some? && s.filters[id].schema.Some?
    ensures Safe(cat, Send(s, key, Current(s, id))) && OnlySent(s, Send(s, key, Current(s, id)))
  {
    var t := Send(s, key, Current(s, id));
    forall k | k in t.senders ensures ChannelOk(t, k) {
      assert ChannelOk(s, k);
      if k == key {
        SentChannelOk(cat, s, id, key);
      } else {
        assert forall i | 0 <= i < |t.senders[k].log| :: MessageOk(s, k, s.senders[k].log[i]);
      }
    }
    forall id', k | (id', k) in t.delivered ensures HasCurrent(t, k, id') {
      if (id', k) != (id, key) {
        assert HasCurrent(s, k, id');
      }
    }
  }

  lemma GoneKeeps(cat: Catalog, s: State)
    requires Safe(cat, s)
    ensures Safe(cat, s.(finished := true))
  {
    var t := s.(finished := true);
    forall k | k in t.senders ensures ChannelOk(t, k) {
      assert ChannelOk(s, k);
      forall i | 0 <= i < |t.senders[k].log| ensures MessageOk(t, k, t.senders[k].log[i]) {
        assert MessageOk(s, k, s.senders[k].log[i]);
      }
    }
    forall id, k | (id, k) in t.delivered ensures HasCurrent(t, k, id) {
      assert HasCurrent(s, k, id);
    }
  }

  lemma {:induction false} SendAllKeeps(cat: Catalog, s: State, id: nat, attempts: seq<Attempt>)
    requires Safe(cat, s) && id in s.filters
    requires s.filters[id].merged.Some? && s.filters[id].schema.Some?
    ensures var r := SendAll(s, id, Current(s, id), attempts);
            Safe(cat, r.state) && OnlySent(s, r.state) && r.outcome in {Ok, Err(ChannelClosed)}
    decreases |attempts|
  {
    if attempts != [] {
      var key := attempts[0].key;
      if Skipped(s, id, key) {
        SendAllKeeps(cat, s, id, attempts[1..]);
      } else if attempts[0].found.Gone? {
        GoneKeeps(cat, s);
      } else {
        SendKeeps(cat, s, id, key);
        SendAllKeeps(cat, Send(s, key, Current(s, id)), id, attempts[1..]);
      }
    }
  }

  lemma {:induction false} SendAllServes(s: State, id: nat, u: Update, attempts: seq<Attempt>)
    requires id in s.filters && u.id == id
    ensures var r := SendAll(s, id, u, attempts);
            && r.state.filters == s.filters && s.delivered <= r.state.delivered
            && r.state.senders.Keys == s.senders.Keys && (s.finished ==> r.state.finished)
            && (r.outcome == Ok && !r.state.finished ==>
                  forall i | 0 <= i < |attempts| :: ServedAt(r.state, id, attempts[i].key))
    decreases |attempts|
  {
    if attempts != [] {
      var first, rest := attempts[0], attempts[1..];
      assert forall i | 0 < i < |attempts| :: rest[i - 1] == attempts[i];
      if Skipped(s, id, first.key) {
        SendAllServes(s, id, u, rest);
      } else if first.found == Listening {
        SendAllServes(Send(s, first.key, u), id, u, rest);
      }
    }
  }

  ghost predicate Walks(order: Walk, key: TaskKey) {
    exists i | 0 <= i < |order.attempts| :: order.attempts[i].key == key
  }

  /** The missing-schema error cannot happen, and a successful dispatch serves every consumer. */
  lemma DispatchKeeps(cat: Catalog, s: State, id: nat, order: Walk)
    requires Safe(cat, s)
    ensures var r := Dispatch(s, id, order);
            && Safe(cat, r.state) && OnlySent(s, r.state)
            && r.outcome in {Ok, Err(ChannelClosed)}
            && (r.outcome == Ok && !r.state.finished && id in s.filters ==>
                  forall key | Walks(order, key) :: ServedAt(r.state, id, key))
  {
    if s.finished || order.finished {
      GoneKeeps(cat, s);
    } else if id in s.filters && s.filters[id].mergedBytes.Some? {
      assert FilterOk(cat, id, s.filters[id]);
      SendAllKeeps(cat, s, id, order.attempts);
      SendAllServes(s, id, Current(s, id), order.attempts);
    }
  }

  // ---------------------------------------------------------------- merging

  lemma MergeKeepsMessage(cat: Catalog, s: State, id: nat, key: TaskKey, u: Update)
    requires id in s.filters && FilterOk(cat, id, s.filters[id]) && MessageOk(s, key, u)
    ensures MessageOk(MergeFilter(s, id).0, key, u)
  {
  }

  lemma MergeFilterKeeps(cat: Catalog, s: State, id: nat)
    requires Safe(cat, s)
    ensures Safe(cat, MergeFilter(s, id).0)
  {
    var (t, changed) := MergeFilter(s, id);
    if changed {
      assert FilterOk(cat, id, s.filters[id]);
      assert s.filters[id].producers != map[];
      forall k | k in t.senders ensures ChannelOk(t, k) {
        assert ChannelOk(s, k);
        forall i | 0 <= i < |t.senders[k].log| ensures MessageOk(t, k, t.senders[k].log[i]) {
          MergeKeepsMessage(cat, s, id, k, s.senders[k].log[i]);
        }
      }
      forall id', k | (id', k) in t.delivered ensures HasCurrent(t, k, id') {
        MergeKeepsDelivered(s, id, k, id');
      }
    }
  }

  lemma MergeKeepsDelivered(s: State, id: nat, key: TaskKey, other: nat)
    requires MergeFilter(s, id).1 && (other, key) in MergeFilter(s, id).0.delivered && HasCurrent(s, key, other)
    ensures HasCurrent(MergeFilter(s, id).0, key, other)
  {
  }

  /** The effect of a merge on one filter, seen from the reports before them. */
  lemma MergeFilterExact(cat: Catalog, s: State, id: nat, reports: Reports, sealed: set<nat>)
    requires Safe(cat, s) && id in s.filters && sealed <= s.sealed
    requires Reported(cat.mode(id), reports)
    requires MergedExact(cat.mode(id), reports, sealed, s.filters[id].merged)
    requires ReportStep(cat.mode(id), reports, s.filters[id].producers)
    ensures ExactAt(cat, MergeFilter(s, id).0, id)
  {
    var f := s.filters[id];
    assert FilterOk(cat, id, f);
    MergeIsExact(cat.mode(id), reports, sealed, f.merged, f.producers, s.sealed);
    if f.mode.None? {
      assert ReportedKeys(f.producers) == {};
    }
  }

  ghost predicate Enumerates(order: Walk, keys: set<TaskKey>) {
    forall k :: Walks(order, k) <==> k in keys
  }

  lemma MergeAndDispatchKeeps(cat: Catalog, s: State, id: nat, order: Walk)
    requires Safe(cat, s)
    ensures var r := MergeAndDispatch(s, id, order);
            && Safe(cat, r.state) && r.outcome in {Ok, Err(ChannelClosed)}
            && OnlySent(MergeFilter(s, id).0, r.state)
            && r.state.sealed == s.sealed && (s.finished ==> r.state.finished)
            && r.state.senders.Keys == s.senders.Keys
            && (r.outcome == Ok && !r.state.finished && Served(s)
                && (id in s.filters ==> Enumerates(order, s.filters[id].consumers)) ==>
                  Served(r.state))
  {
    var (t, changed) := MergeFilter(s, id);
    MergeFilterKeeps(cat, s, id);
    var r := MergeAndDispatch(s, id, order);
    if changed {
      DispatchKeeps(cat, t, id, order);
      if r.outcome == Ok && !r.state.finished && Served(s)
         && (id in s.filters ==> Enumerates(order, s.filters[id].consumers))
      {
        forall i, k | i in r.state.filters ensures ServedAt(r.state, i, k) {
          assert ServedAt(s, i, k);
          if i != id && (i, k) in s.delivered {
            assert (i, k) in t.delivered;
          }
          if i == id && k in t.filters[id].consumers {
            assert Walks(order, k);
          }
        }
      }
    }
  }
}
