/** The registry's promises, stated for every run from the empty registry. */
module RegistryTheorems {
  import opened Wrappers
  import opened DynamicFilters
  import opened RegistrySteps
  import opened RegistryInvariant
  import opened RegistryPreservation
  import opened RegistryRuns
  import opened RegistrySoundness
  import opened RegistryCatalog

  lemma StartIsGood(cat: Catalog)
    ensures Inv(cat, Start) && Good(cat, Start.state, [], true) && Good(cat, Start.state, [], false)
  {
  }

  /** After a run in the callers' order the invariants hold, for the catalog read off its end. */
  lemma RunHolds(stage: nat -> nat, es: seq<Event>)
    requires Ordered(stage, Start, es)
    ensures var r := RunFrom(Start, es);
            var cat := CatalogOf(stage, r.state);
            Guarded(cat, Start, es) && Inv(cat, r) && Good(cat, r.state, History(Start, es), false)
  {
    var cat := CatalogOf(stage, RunFrom(Start, es).state);
    RunIsGuarded(stage, es);
    StartIsGood(cat);
    RunKeepsInv(cat, Start, es);
    RunGood(cat, Start, es, [], false);
    assert [] + History(Start, es) == History(Start, es);
  }

  // ---------------------------------------------------------------- incremental = specified

  /** Incremental merging computes its specification: after every run whose seals succeeded, whatever
      other sends failed, each merged filter is what its policy says about the current reports. */
  lemma MergedFilterIsSpecified(stage: nat -> nat, es: seq<Event>)
    requires Ordered(stage, Start, es) && RunFrom(Start, es).sealsSucceeded
    ensures var s := RunFrom(Start, es).state;
            forall id | id in s.filters ::
              MergedExact(ModeIn(s, id), s.filters[id].producers, s.sealed, s.filters[id].merged)
  {
    RunHolds(stage, es);
    var s := RunFrom(Start, es).state;
    var cat := CatalogOf(stage, s);
    forall id | id in s.filters
      ensures MergedExact(ModeIn(s, id), s.filters[id].producers, s.sealed, s.filters[id].merged)
    {
      assert ExactAt(cat, s, id) && cat.mode(id) == ModeIn(s, id);
    }
  }

  /** Exactly when a merged filter is what its policy says, after any run: unless all its producers are
      sealed and complete and its merge has not been completed, which only a seal that failed on a
      closed channel can leave behind. */
  lemma SpecifiedIffCaughtUp(stage: nat -> nat, es: seq<Event>, id: nat)
    requires Ordered(stage, Start, es) && id in RunFrom(Start, es).state.filters
    ensures var s := RunFrom(Start, es).state;
            var f := s.filters[id];
            MergedExact(ModeIn(s, id), f.producers, s.sealed, f.merged) <==>
            (AllComplete(f.producers, s.sealed) ==> f.merged.Some? && f.merged.value.complete)
  {
    RunHolds(stage, es);
    var s := RunFrom(Start, es).state;
    assert SoundAt(CatalogOf(stage, s), s, History(Start, es), id);
    SoundIsExactIffCaughtUp(ModeIn(s, id), s.filters[id].producers, s.sealed, s.filters[id].merged);
  }

  lemma SoundIsExactIffCaughtUp(mode: Policy, reports: Reports, sealed: set<nat>, merged: Option<Snapshot>)
    requires MergedSound(mode, reports, sealed, merged)
    ensures MergedExact(mode, reports, sealed, merged) <==>
            (AllComplete(reports, sealed) ==> merged.Some? && merged.value.complete)
  {
    if AllComplete(reports, sealed) {
      AllCompleteReported(reports, sealed);
    }
  }

  /** A forwarded filter is the first report ever accepted, after every run. */
  lemma ForwardedIsFirst(stage: nat -> nat, es: seq<Event>, id: nat)
    requires Ordered(stage, Start, es) && ModeIn(RunFrom(Start, es).state, id) == ForwardFirstComplete
    ensures var first := FirstFor(History(Start, es), id);
            MergedOf(RunFrom(Start, es).state, id) == if first.None? then None else Some(first.value.(generation := 0))
  {
    RunHolds(stage, es);
    var s, acc := RunFrom(Start, es).state, History(Start, es);
    assert SoundAt(CatalogOf(stage, s), s, acc, id);
    FirstForAppend(acc, Acceptance(id, TaskKey(0, 0), Snapshot(None, true, 0, 0)), id);
  }

  function MergedOf(s: State, id: nat): (m: Option<Snapshot>) {
    if id in s.filters then s.filters[id].merged else None
  }

  // ---------------------------------------------------------------- errors

  /** The internal error of dispatching cannot be reached: a merged filter has a policy, a schema and its
      encoding. */
  lemma MissingSchemaUnreachable(stage: nat -> nat, es: seq<Event>, e: Event)
    requires Ordered(stage, Start, es) && InOrder(stage, RunFrom(Start, es).state, e)
    ensures var s := RunFrom(Start, es).state;
            && Step(s, e).outcome != Err(MissingSchema)
            && forall id | id in s.filters && s.filters[id].merged.Some? ::
                 && s.filters[id].mode.Some? && s.filters[id].schema.Some?
                 && s.filters[id].mergedBytes == Some(Encoded(id, s.filters[id].merged.value))
  {
    RunHolds(stage, es);
    var s := RunFrom(Start, es).state;
    var cat := CatalogOf(stage, s);
    forall id | id in s.filters && s.filters[id].merged.Some?
      ensures s.filters[id].mode.Some? && s.filters[id].schema.Some?
      ensures s.filters[id].mergedBytes == Some(Encoded(id, s.filters[id].merged.value))
    {
      assert FilterOk(cat, id, s.filters[id]);
    }
    NextIsGuarded(stage, es, e);
    NoCallMissesSchema(CatalogOf(stage, Step(s, e).state), s, e);
  }

  /** Collect-left joins forward, sorts and aggregates intersect, and all other producers unite. */
  predicate Decides(node: ProducerNode, mode: Policy) {
    match mode
    case ForwardFirstComplete => node == CollectLeftHashJoin
    case IntersectOnUpdate => node == Sort || node == Aggregate
    case UnionWhenAllComplete => node != CollectLeftHashJoin && node != Sort && node != Aggregate
  }

  /** `p` is what its filter is registered with in `t`. */
  predicate RegisteredAs(t: State, p: Produced) {
    && p.id in t.filters && t.filters[p.id].schema == Some(p.schema)
    && t.filters[p.id].mode.Some? && Decides(p.node, t.filters[p.id].mode.value)
  }

  /** A registration is rejected exactly if one of its producers disagrees with the policy or schema its
      filter is registered with, and no other error is possible. */
  lemma ConflictsAreReported(stage: nat -> nat, es: seq<Event>, key: TaskKey, produced: seq<Produced>,
                             consumed: seq<nat>)
    requires Ordered(stage, Start, es)
    requires InOrder(stage, RunFrom(Start, es).state, TaskRegistered(key, produced, consumed))
    ensures var r := RegisterTask(RunFrom(Start, es).state, key, produced, consumed);
            && r.outcome in {Ok, Err(ConflictingSchemas), Err(ConflictingModes)}
            && (r.outcome == Ok <==> forall i | 0 <= i < |produced| :: RegisteredAs(r.state, produced[i]))
  {
    var e, s := TaskRegistered(key, produced, consumed), RunFrom(Start, es).state;
    NextIsGuarded(stage, es, e);
    ConflictsAgainst(CatalogOf(stage, Step(s, e).state), s, key, produced, consumed);
  }

  lemma NextIsGuarded(stage: nat -> nat, es: seq<Event>, e: Event)
    requires Ordered(stage, Start, es) && InOrder(stage, RunFrom(Start, es).state, e)
    ensures var s := RunFrom(Start, es).state;
            var cat := CatalogOf(stage, Step(s, e).state);
            Safe(cat, s) && Guard(cat, s, e)
  {
    RunAppends(stage, Start, es, e);
    var cat := CatalogOf(stage, RunFrom(Start, es + [e]).state);
    RunIsGuarded(stage, es + [e]);
    GuardedLast(cat, Start, es, e);
    StartIsGood(cat);
    RunKeepsInv(cat, Start, es);
  }

  lemma ConflictsAgainst(cat: Catalog, s: State, key: TaskKey, produced: seq<Produced>, consumed: seq<nat>)
    requires Safe(cat, s) && Guard(cat, s, TaskRegistered(key, produced, consumed))
    requires Describes(cat, RegisterTask(s, key, produced, consumed).state)
    ensures var r := RegisterTask(s, key, produced, consumed);
            && r.outcome in {Ok, Err(ConflictingSchemas), Err(ConflictingModes)}
            && (r.outcome == Ok <==> forall i | 0 <= i < |produced| :: RegisteredAs(r.state, produced[i]))
  {
    RegisterProducersKeeps(cat, s, key, produced);
    var t := RegisterTask(s, key, produced, consumed).state;
    if i :| 0 <= i < |produced| && !Agrees(cat, produced[i]) {
      DisagreesWith(cat, t, produced[i]);
    } else {
      var wired := RegisterProducers(s, key, produced).state;
      ProducersRegistered(cat, s, key, produced);
      ConsumersExtend(wired, key, consumed);
      forall i | 0 <= i < |produced| ensures RegisteredAs(t, produced[i]) {
        StaysRegistered(wired, t, produced[i]);
      }
    }
  }

  lemma DisagreesWith(cat: Catalog, t: State, p: Produced)
    requires Describes(cat, t) && !Agrees(cat, p)
    ensures !RegisteredAs(t, p)
  {
  }

  lemma StaysRegistered(s: State, t: State, p: Produced)
    requires Extends(s, t) && RegisteredAs(s, p)
    ensures RegisteredAs(t, p)
  {
  }

  lemma {:induction false} GuardedLast(cat: Catalog, r: Run, es: seq<Event>, e: Event)
    requires Guarded(cat, r, es + [e])
    ensures Guarded(cat, r, es) && Guard(cat, RunFrom(r, es).state, e)
    decreases |es|
  {
    if es == [] {
      assert es + [e] == [e];
    } else {
      assert (es + [e])[0] == es[0] && (es + [e])[1..] == es[1..] + [e];
      GuardedLast(cat, Advance(r, es[0]), es[1..], e);
    }
  }

  lemma {:induction false} ProducersRegistered(cat: Catalog, s: State, key: TaskKey, produced: seq<Produced>)
    requires Safe(cat, s) && MayJoinAll(cat, s, key, produced) && key !in s.senders && key.stage !in s.sealed
    requires forall i | 0 <= i < |produced| :: Agrees(cat, produced[i])
    ensures forall i | 0 <= i < |produced| :: RegisteredAs(RegisterProducers(s, key, produced).state, produced[i])
    decreases |produced|
  {
    if produced != [] {
      var r := RegisterProducer(s, key, produced[0]);
      RegisterProducerKeeps(cat, s, key, produced[0]);
      assert RegisteredAs(r.state, produced[0]);
      RestAgrees(cat, produced);
      ProducersRegistered(cat, r.state, key, produced[1..]);
      ProducersExtend(r.state, key, produced[1..]);
      var t := RegisterProducers(s, key, produced).state;
      forall i | 0 <= i < |produced| ensures RegisteredAs(t, produced[i]) {
        assert i > 0 ==> produced[1..][i - 1] == produced[i];
      }
    }
  }

  // ---------------------------------------------------------------- delivery

  /** `key` has been sent the current merged filter of `id`, and nothing about `id` since. */
  ghost predicate UpToDate(s: State, id: nat, key: TaskKey)
    requires id in s.filters && key in s.senders
  {
    && s.filters[id].merged.Some? && s.filters[id].schema.Some?
    && var log := s.senders[key].log;
       exists i | 0 <= i < |log| ::
         && log[i] == Current(s, id)
         && forall j | i < j < |log| :: log[j].id != id
  }

  /** Delivery over whole runs: generations strictly increase on every channel; a producer is never
      sent its own filter; and while the query runs and no send failed, every connected consumer
      that is not a producer is up to date after every call. */
  lemma Delivery(stage: nat -> nat, es: seq<Event>)
    requires Ordered(stage, Start, es)
    ensures var r := RunFrom(Start, es);
            && (forall key | key in r.state.senders ::
                  && Increasing(r.state.senders[key].log)
                  && forall i | 0 <= i < |r.state.senders[key].log| ::
                       var id := r.state.senders[key].log[i].id;
                       id in r.state.filters && key !in r.state.filters[id].producers)
            && (r.clean && !r.state.finished ==>
                  forall id, key | id in r.state.filters && key in r.state.filters[id].consumers
                                   && key !in r.state.filters[id].producers && key in r.state.senders
                                   && r.state.filters[id].merged.Some? ::
                    UpToDate(r.state, id, key))
  {
    RunHolds(stage, es);
    var r := RunFrom(Start, es);
    var s, cat := r.state, CatalogOf(stage, r.state);
    forall key | key in s.senders
      ensures Increasing(s.senders[key].log)
      ensures forall i | 0 <= i < |s.senders[key].log| ::
                s.senders[key].log[i].id in s.filters &&
                key !in s.filters[s.senders[key].log[i].id].producers
    {
      assert ChannelOk(s, key);
      assert forall i | 0 <= i < |s.senders[key].log| :: MessageOk(s, key, s.senders[key].log[i]);
    }
    if r.clean && !s.finished {
      forall id, key | id in s.filters && key in s.filters[id].consumers
                       && key !in s.filters[id].producers && key in s.senders && s.filters[id].merged.Some?
        ensures UpToDate(s, id, key)
      {
        assert ServedAt(s, id, key) && HasCurrent(s, key, id);
        CurrentIsLast(cat, s, id, key);
      }
    }
  }

  lemma CurrentIsLast(cat: Catalog, s: State, id: nat, key: TaskKey)
    requires Safe(cat, s) && HasCurrent(s, key, id)
    ensures UpToDate(s, id, key)
  {
    var log := s.senders[key].log;
    assert ChannelOk(s, key);
    var i :| 0 <= i < |log| && log[i] == Current(s, id);
    forall j | i < j < |log| ensures log[j].id != id {
      assert MessageOk(s, key, log[j]);
    }
  }

  // ---------------------------------------------------------------- what consumers may rely on

  /** Predicate soundness: every merged filter that was sent accepts exactly the rows some producer
      accepted (union), or all rows that every accepted report accepts (intersection), or is the
      first report (forward). */
  lemma SentFiltersAreSound(stage: nat -> nat, es: seq<Event>, key: TaskKey, i: nat)
    requires Ordered(stage, Start, es)
    requires var s := RunFrom(Start, es).state; key in s.senders && i < |s.senders[key].log|
    ensures var s := RunFrom(Start, es).state;
            var u := s.senders[key].log[i];
            Justified(CatalogOf(stage, s), History(Start, es), u.id, u.expression.filter)
  {
    RunHolds(stage, es);
    var s := RunFrom(Start, es).state;
    var cat := CatalogOf(stage, s);
    assert FlowAt(cat, s, History(Start, es), false, key);
    assert MessageSound(cat, s, History(Start, es), false, s.senders[key].log[i]);
  }

  /** If each producer's reports only tighten, so do the intersections a consumer is sent. */
  lemma SentIntersectionsTighten(stage: nat -> nat, es: seq<Event>, key: TaskKey, i: nat, j: nat)
    requires Ordered(stage, Start, es) && OnlyTightens(History(Start, es))
    requires var s := RunFrom(Start, es).state; key in s.senders && i < j < |s.senders[key].log|
    requires var s := RunFrom(Start, es).state;
             var log := s.senders[key].log;
             log[i].id == log[j].id && ModeIn(s, log[i].id) == IntersectOnUpdate
    ensures var log := RunFrom(Start, es).state.senders[key].log;
            Tightens(log[i].expression.filter, log[j].expression.filter)
  {
    var s := RunFrom(Start, es).state;
    var cat := CatalogOf(stage, s);
    RunIsGuarded(stage, es);
    StartIsGood(cat);
    assert [] + History(Start, es) == History(Start, es);
    RunGood(cat, Start, es, [], true);
    assert FlowAt(cat, s, History(Start, es), true, key);
  }

  // ---------------------------------------------------------------- finality

  /** Completed merged filters of `s` are still there in `t`. */
  ghost predicate KeepsComplete(s: State, t: State) {
    forall id | id in s.filters && s.filters[id].merged.Some? && s.filters[id].merged.value.complete ::
      id in t.filters && t.filters[id].merged == s.filters[id].merged
  }

  lemma {:induction false} RegistrationKeepsComplete(s: State, key: TaskKey, produced: seq<Produced>,
                                                     consumed: seq<nat>)
    ensures KeepsComplete(s, RegisterTask(s, key, produced, consumed).state)
    decreases |produced| + |consumed|
  {
    if produced != [] {
      var r := RegisterProducer(s, key, produced[0]);
      if r.outcome == Ok {
        RegistrationKeepsComplete(r.state, key, produced[1..], consumed);
      }
    } else if consumed != [] {
      RegistrationKeepsComplete(RegisterConsumer(s, key, consumed[0]), key, [], consumed[1..]);
    }
  }

  lemma MergeAndDispatchKeepsComplete(s: State, id: nat, order: Walk)
    ensures var t := MergeAndDispatch(s, id, order).state;
            KeepsComplete(s, t) && SameWiring(s.filters, t.filters) && t.sealed == s.sealed
  {
    MergeWiring(s, id);
    DispatchKeepsFilters(MergeFilter(s, id).0, id, order);
  }

  lemma {:induction false} MergeEachKeepsComplete(s: State, sched: Schedule)
    ensures var t := MergeEach(s, sched).state;
            KeepsComplete(s, t) && SameWiring(s.filters, t.filters) && t.sealed == s.sealed
    decreases |sched|
  {
    if sched != [] {
      MergeAndDispatchKeepsComplete(s, sched[0].0, sched[0].1);
      MergeEachKeepsComplete(MergeAndDispatch(s, sched[0].0, sched[0].1).state, sched[1..]);
    }
  }

  lemma StepKeepsComplete(s: State, e: Event)
    ensures KeepsComplete(s, Step(s, e).state)
  {
    match e {
      case TaskRegistered(key, produced, consumed) => RegistrationKeepsComplete(s, key, produced, consumed);
      case SenderRegistered(key, sched) => DispatchEachKeepsFilters(Connect(s, key), sched);
      case StageSealed(stage, sched) => MergeEachKeepsComplete(s.(sealed := s.sealed + {stage}), sched);
      case UpdateReceived(key, report, order) =>
        if Stored(s, key, report) {
          MergeAndDispatchKeepsComplete(StoreReport(s, key, report.id, report.payload.snapshot), report.id, order);
        }
      case QueryFinished =>
    }
  }

  /** A completed merged filter never changes again, in whatever order and with whatever errors the
      calls come. */
  lemma {:induction false} CompletedMergeIsFinal(r: Run, es: seq<Event>)
    ensures KeepsComplete(r.state, RunFrom(r, es).state)
    decreases |es|
  {
    if es != [] {
      StepKeepsComplete(r.state, es[0]);
      CompletedMergeIsFinal(Advance(r, es[0]), es[1..]);
    }
  }
}
