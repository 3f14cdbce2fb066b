/** What the filters that reach consumers accept, compared with everything producers reported. */
module RegistrySoundness {
  import opened Wrappers
  import opened DynamicFilters
  import opened RegistrySteps
  import opened RegistryInvariant
  import opened RegistryPreservation
  import opened RegistryRuns

  /** A report the registry stored. */
  datatype Acceptance = Acceptance(id: nat, key: TaskKey, snapshot: Snapshot)

  function AcceptedBy(s: State, e: Event): (acc: seq<Acceptance>) {
    if e.UpdateReceived? && Stored(s, e.key, e.report)
    then [Acceptance(e.report.id, e.key, e.report.payload.snapshot)]
    else []
  }

  /** The reports stored along a run, oldest first. */
  function History(r: Run, es: seq<Event>): (acc: seq<Acceptance>)
    decreases |es|
  {
    if es == [] then [] else AcceptedBy(r.state, es[0]) + History(Advance(r, es[0]), es[1..])
  }

  function FirstFor(acc: seq<Acceptance>, id: nat): (x: Option<Snapshot>) {
    if acc == [] then None else if acc[0].id == id then Some(acc[0].snapshot) else FirstFor(acc[1..], id)
  }

  /** Each producer's successive reports accept fewer and fewer rows. */
  ghost predicate OnlyTightens(acc: seq<Acceptance>) {
    forall i, j | 0 <= i < j < |acc| && acc[i].id == acc[j].id && acc[i].key == acc[j].key ::
      Tightens(acc[i].snapshot, acc[j].snapshot)
  }

  // ---------------------------------------------------------------- merged filters and history

  ghost predicate MergedSound(mode: Policy, reports: Reports, sealed: set<nat>, merged: Option<Snapshot>) {
    match mode
    case UnionWhenAllComplete =>
      merged.Some? ==>
        AllComplete(reports, sealed) &&
        (AllCompleteReported(reports, sealed); merged == Some(UnionOf(reports)))
    case IntersectOnUpdate =>
      && (merged.Some? <==> ReportedKeys(reports) != {})
      && (merged.Some? ==>
            && merged.value.inner == MergedPredicate(reports, mode)
            && (merged.value.complete ==> AllComplete(reports, sealed)))
    case ForwardFirstComplete =>
      && (merged.Some? <==> ReportedKeys(reports) != {})
      && (merged.Some? ==> merged.value.complete && merged.value.generation == 0)
  }

  /** The stored reports are the latest accepted ones; where a producer reports once, the only ones. */
  ghost predicate Recorded(mode: Policy, id: nat, reports: Reports, acc: seq<Acceptance>) {
    && (forall k | k in ReportedKeys(reports) :: Acceptance(id, k, reports[k].value) in acc)
    && (forall a | a in acc && a.id == id :: a.key in ReportedKeys(reports))
    && (mode != IntersectOnUpdate ==>
          forall a | a in acc && a.id == id :: a.key in reports && reports[a.key] == Some(a.snapshot))
  }

  ghost predicate FilterSound(mode: Policy, id: nat, reports: Reports, sealed: set<nat>, merged: Option<Snapshot>,
                              acc: seq<Acceptance>) {
    && MergedSound(mode, reports, sealed, merged)
    && Recorded(mode, id, reports, acc)
    && (mode == ForwardFirstComplete && merged.Some? ==>
          FirstFor(acc, id).Some? && merged == Some(FirstFor(acc, id).value.(generation := 0)))
  }

  ghost predicate SoundAt(cat: Catalog, s: State, acc: seq<Acceptance>, id: nat)
    requires id in s.filters
  {
    FilterSound(cat.mode(id), id, s.filters[id].producers, s.sealed, s.filters[id].merged, acc)
  }

  ghost predicate Sound(cat: Catalog, s: State, acc: seq<Acceptance>) {
    && (forall id | id in s.filters :: SoundAt(cat, s, acc, id))
    && (forall a | a in acc :: a.id in s.filters)
  }

  /** What a merged filter of `id` may be, given all reports accepted so far. */
  ghost predicate Justified(cat: Catalog, acc: seq<Acceptance>, id: nat, m: Snapshot) {
    match cat.mode(id)
    case UnionWhenAllComplete =>
      forall row :: Accepts(m, row) <==> exists a :: a in acc && a.id == id && Accepts(a.snapshot, row)
    case IntersectOnUpdate =>
      forall row :: (forall a | a in acc && a.id == id :: Accepts(a.snapshot, row)) ==> Accepts(m, row)
    case ForwardFirstComplete =>
      FirstFor(acc, id).Some? && m == FirstFor(acc, id).value.(generation := 0)
  }

  lemma MergedIsJustified(cat: Catalog, s: State, acc: seq<Acceptance>, id: nat)
    requires Safe(cat, s) && id in s.filters && SoundAt(cat, s, acc, id)
    requires s.filters[id].merged.Some?
    ensures Justified(cat, acc, id, s.filters[id].merged.value)
  {
    var f := s.filters[id];
    var m := f.merged.value;
    assert FilterOk(cat, id, f);
    match cat.mode(id) {
      case UnionWhenAllComplete =>
        AllCompleteReported(f.producers, s.sealed);
        forall row
          ensures Accepts(m, row) <==> exists a :: a in acc && a.id == id && Accepts(a.snapshot, row)
        {
          MergedPredicateMeaning(f.producers, UnionWhenAllComplete, row);
          if Accepts(m, row) {
            var k :| k in ReportedKeys(f.producers) && Accepts(f.producers[k].value, row);
            assert Acceptance(id, k, f.producers[k].value) in acc;
          }
        }
      case IntersectOnUpdate =>
        forall row | forall a | a in acc && a.id == id :: Accepts(a.snapshot, row)
          ensures Accepts(m, row)
        {
          MergedPredicateMeaning(f.producers, IntersectOnUpdate, row);
          forall k | k in ReportedKeys(f.producers) ensures Accepts(f.producers[k].value, row) {
            assert Acceptance(id, k, f.producers[k].value) in acc;
          }
        }
      case ForwardFirstComplete =>
    }
  }

  // ---------------------------------------------------------------- messages

  /** Every message is justified; if reports only tighten, so do the messages of an intersection,
      up to the merged filter itself. */
  ghost predicate MessageSound(cat: Catalog, s: State, acc: seq<Acceptance>, tight: bool, u: Update) {
    && Justified(cat, acc, u.id, u.expression.filter)
    && (tight && cat.mode(u.id) == IntersectOnUpdate ==>
          && u.id in s.filters && s.filters[u.id].merged.Some?
          && Tightens(u.expression.filter, s.filters[u.id].merged.value))
  }

  ghost predicate LogTightens(cat: Catalog, log: seq<Update>) {
    forall i, j | 0 <= i < j < |log| && log[i].id == log[j].id && cat.mode(log[i].id) == IntersectOnUpdate ::
      Tightens(log[i].expression.filter, log[j].expression.filter)
  }

  ghost predicate FlowAt(cat: Catalog, s: State, acc: seq<Acceptance>, tight: bool, key: TaskKey)
    requires key in s.senders
  {
    var log := s.senders[key].log;
    && (forall i | 0 <= i < |log| :: MessageSound(cat, s, acc, tight, log[i]))
    && (tight ==> LogTightens(cat, log))
  }

  ghost predicate Flow(cat: Catalog, s: State, acc: seq<Acceptance>, tight: bool) {
    forall key | key in s.senders :: FlowAt(cat, s, acc, tight, key)
  }

  ghost predicate Good(cat: Catalog, s: State, acc: seq<Acceptance>, tight: bool) {
    Safe(cat, s) && Sound(cat, s, acc) && Flow(cat, s, acc, tight)
  }

  lemma SameFiltersSound(cat: Catalog, s: State, t: State, acc: seq<Acceptance>)
    requires Sound(cat, s, acc) && t.filters == s.filters && s.sealed == t.sealed
    ensures Sound(cat, t, acc)
  {
    forall id | id in t.filters ensures SoundAt(cat, t, acc, id) {
      assert SoundAt(cat, s, acc, id);
    }
  }

  lemma AppendFlow(cat: Catalog, s: State, acc: seq<Acceptance>, tight: bool, key: TaskKey, u: Update)
    requires key in s.senders && FlowAt(cat, s, acc, tight, key)
    requires u.id in s.filters && s.filters[u.id].merged == Some(u.expression.filter)
    requires Justified(cat, acc, u.id, u.expression.filter)
    ensures FlowAt(cat, Send(s, key, u), acc, tight, key)
  {
    var before := s.senders[key].log;
    var t := Send(s, key, u);
    var log := t.senders[key].log;
    forall i | 0 <= i < |log| ensures MessageSound(cat, t, acc, tight, log[i]) {
      if i < |before| {
        assert log[i] == before[i] && MessageSound(cat, s, acc, tight, before[i]);
      }
    }
    if tight {
      forall i, j | 0 <= i < j < |log| && log[i].id == log[j].id && cat.mode(log[i].id) == IntersectOnUpdate
        ensures Tightens(log[i].expression.filter, log[j].expression.filter)
      {
        if j == |before| {
          assert MessageSound(cat, s, acc, tight, before[i]);
        }
      }
    }
  }

  lemma SendGood(cat: Catalog, s: State, acc: seq<Acceptance>, tight: bool, id: nat, key: TaskKey)
    requires Good(cat, s, acc, tight) && id in s.filters && !Skipped(s, id, key)
    requires s.filters[id].merged.Some? && s.filters[id].schema.Some?
    ensures Good(cat, Send(s, key, Current(s, id)), acc, tight)
  {
    var t := Send(s, key, Current(s, id));
    SendKeeps(cat, s, id, key);
    MergedIsJustified(cat, s, acc, id);
    SameFiltersSound(cat, s, t, acc);
    forall k | k in t.senders ensures FlowAt(cat, t, acc, tight, k) {
      assert FlowAt(cat, s, acc, tight, k);
      if k == key {
        AppendFlow(cat, s, acc, tight, key, Current(s, id));
      } else {
        forall i | 0 <= i < |t.senders[k].log| ensures MessageSound(cat, t, acc, tight, t.senders[k].log[i]) {
          assert MessageSound(cat, s, acc, tight, s.senders[k].log[i]);
        }
      }
    }
  }

  lemma FinishedGood(cat: Catalog, s: State, acc: seq<Acceptance>, tight: bool)
    requires Good(cat, s, acc, tight)
    ensures Good(cat, s.(finished := true), acc, tight)
  {
    QuietKeeps(cat, s, s.(finished := true));
    QuietGood(cat, s, s.(finished := true), acc, tight);
  }

  lemma {:induction false} SendAllGood(cat: Catalog, s: State, acc: seq<Acceptance>, tight: bool, id: nat,
                                       attempts: seq<Attempt>)
    requires Good(cat, s, acc, tight) && id in s.filters
    requires s.filters[id].merged.Some? && s.filters[id].schema.Some?
    ensures Good(cat, SendAll(s, id, Current(s, id), attempts).state, acc, tight)
    decreases |attempts|
  {
    if attempts != [] {
      var key := attempts[0].key;
      if Skipped(s, id, key) {
        SendAllGood(cat, s, acc, tight, id, attempts[1..]);
      } else if attempts[0].found.Gone? {
        FinishedGood(cat, s, acc, tight);
      } else {
        SendGood(cat, s, acc, tight, id, key);
        SendAllGood(cat, Send(s, key, Current(s, id)), acc, tight, id, attempts[1..]);
      }
    }
  }

  lemma DispatchGood(cat: Catalog, s: State, acc: seq<Acceptance>, tight: bool, id: nat, order: Walk)
    requires Good(cat, s, acc, tight)
    ensures Good(cat, Dispatch(s, id, order).state, acc, tight)
  {
    if s.finished || order.finished {
      FinishedGood(cat, s, acc, tight);
    } else if id in s.filters && s.filters[id].mergedBytes.Some? {
      assert FilterOk(cat, id, s.filters[id]);
      SendAllGood(cat, s, acc, tight, id, order.attempts);
    }
  }

  lemma {:induction false} DispatchEachGood(cat: Catalog, s: State, acc: seq<Acceptance>, tight: bool, sched: Schedule)
    requires Good(cat, s, acc, tight)
    ensures Good(cat, DispatchEach(s, sched).state, acc, tight)
    decreases |sched|
  {
    if sched != [] {
      DispatchGood(cat, s, acc, tight, sched[0].0, sched[0].1);
      DispatchEachGood(cat, Dispatch(s, sched[0].0, sched[0].1).state, acc, tight, sched[1..]);
    }
  }

  // ---------------------------------------------------------------- merging, filter by filter

  ghost function Merged(reports: Reports, sealed: set<nat>, mode: Policy,
                        merged: Option<Snapshot>): (m: Option<Snapshot>)
  {
    var m := Merge(reports, sealed, mode, merged);
    if m.Some? then m else merged
  }

  lemma MergeFilterEffect(cat: Catalog, s: State, id: nat)
    requires id in s.filters && FilterOk(cat, id, s.filters[id])
    ensures var t := MergeFilter(s, id).0;
            var f := s.filters[id];
            && t.filters.Keys == s.filters.Keys && t.sealed == s.sealed && t.senders == s.senders
            && (forall i | i in s.filters && i != id :: t.filters[i] == s.filters[i])
            && t.filters[id].producers == f.producers
            && t.filters[id].merged == Merged(f.producers, s.sealed, cat.mode(id), f.merged)
  {
    var f := s.filters[id];
    if f.mode.None? {
      NothingToMerge(f.producers, s.sealed, cat.mode(id), f.merged);
    } else {
      MergeWiring(s, id);
    }
  }

  lemma NothingToMerge(reports: Reports, sealed: set<nat>, mode: Policy, merged: Option<Snapshot>)
    requires reports == map[]
    ensures Merged(reports, sealed, mode, merged) == merged
  {
    assert ReportedKeys(reports) == {};
  }

  /** Merging again after a seal can only add a union or set the completion flag. */
  lemma RemergeSound(mode: Policy, reports: Reports, sealed: set<nat>, merged: Option<Snapshot>)
    requires MergedSound(mode, reports, sealed, merged)
    ensures var m := Merged(reports, sealed, mode, merged);
            && MergedSound(mode, reports, sealed, m)
            && (merged.Some? ==> m.Some? && m.value.inner == merged.value.inner)
            && (merged.Some? && mode != IntersectOnUpdate ==> m == merged)
            && (mode == ForwardFirstComplete ==> m == merged)
  {
    match mode {
      case UnionWhenAllComplete =>
        if AllComplete(reports, sealed) {
          AllCompleteReported(reports, sealed);
        }
      case IntersectOnUpdate =>
      case ForwardFirstComplete =>
    }
  }

  lemma SealKeepsSound(mode: Policy, reports: Reports, sealed: set<nat>, merged: Option<Snapshot>, sealed': set<nat>)
    requires MergedSound(mode, reports, sealed, merged) && sealed <= sealed'
    ensures MergedSound(mode, reports, sealed', merged)
  {
  }

  lemma StoreIntersect(reports: Reports, sealed: set<nat>, merged: Option<Snapshot>, key: TaskKey, x: Snapshot)
    requires MergedSound(IntersectOnUpdate, reports, sealed, merged)
    requires key in reports && Accepted(Some(IntersectOnUpdate), reports[key], x)
    ensures var next := reports[key := Some(x)];
            var m := Merged(next, sealed, IntersectOnUpdate, merged);
            m.Some? && MergedSound(IntersectOnUpdate, next, sealed, m)
  {
    assert key in ReportedKeys(reports[key := Some(x)]);
  }

  lemma StoreUnion(reports: Reports, sealed: set<nat>, merged: Option<Snapshot>, key: TaskKey, x: Snapshot)
    requires MergedSound(UnionWhenAllComplete, reports, sealed, merged)
    requires key in reports && Accepted(Some(UnionWhenAllComplete), reports[key], x)
    ensures merged.None?
    ensures var next := reports[key := Some(x)];
            MergedSound(UnionWhenAllComplete, next, sealed, Merged(next, sealed, UnionWhenAllComplete, merged))
  {
    var next := reports[key := Some(x)];
    if AllComplete(next, sealed) {
      AllCompleteReported(next, sealed);
    }
  }

  lemma StoreFirst(reports: Reports, sealed: set<nat>, merged: Option<Snapshot>, key: TaskKey, x: Snapshot)
    requires MergedSound(ForwardFirstComplete, reports, sealed, merged)
    requires key in reports && Accepted(Some(ForwardFirstComplete), reports[key], x) && x.inner.Some?
    ensures var next := reports[key := Some(x)];
            var m := Merged(next, sealed, ForwardFirstComplete, merged);
            && MergedSound(ForwardFirstComplete, next, sealed, m)
            && m == if merged.Some? then merged else Some(x.(generation := 0))
  {
    var next := reports[key := Some(x)];
    assert key in ReportedKeys(next);
    if merged.None? {
      assert ReportedKeys(next) == {key};
      var keys := MergeKeys(next, ForwardFirstComplete);
      assert |keys| == 1 && keys[0] == key by {
        assert |ReportedKeys(next)| == 1;
        assert keys[0] in keys;
      }
      assert Predicates(next, keys) == [x.inner.value] + Predicates(next, keys[1..]);
    }
  }

  // ---------------------------------------------------------------- merging again after a seal

  /** What merging filter `id` again does, from the filter's point of view. */
  ghost predicate RemergeEffect(cat: Catalog, s: State, t: State, id: nat) {
    && id in s.filters
    && t.filters.Keys == s.filters.Keys && t.sealed == s.sealed && t.senders == s.senders
    && (forall i | i in s.filters && i != id :: t.filters[i] == s.filters[i])
    && t.filters[id].producers == s.filters[id].producers
    && t.filters[id].merged == Merged(s.filters[id].producers, s.sealed, cat.mode(id), s.filters[id].merged)
  }

  lemma RemergeMessageSound(cat: Catalog, s: State, t: State, acc: seq<Acceptance>, tight: bool,
                            id: nat, to: TaskKey, u: Update)
    requires RemergeEffect(cat, s, t, id) && SoundAt(cat, s, acc, id)
    requires MessageSound(cat, s, acc, tight, u) && MessageOk(s, to, u)
    ensures MessageSound(cat, t, acc, tight, u)
  {
    var f := s.filters[id];
    RemergeSound(cat.mode(id), f.producers, s.sealed, f.merged);
    if u.id == id {
      assert forall row :: Accepts(t.filters[id].merged.value, row) == Accepts(f.merged.value, row);
    }
  }

  lemma RemergeSoundAt(cat: Catalog, s: State, t: State, acc: seq<Acceptance>, id: nat, i: nat)
    requires RemergeEffect(cat, s, t, id) && SoundAt(cat, s, acc, id)
    requires i in s.filters && SoundAt(cat, s, acc, i)
    ensures SoundAt(cat, t, acc, i)
  {
    var f := s.filters[id];
    RemergeSound(cat.mode(id), f.producers, s.sealed, f.merged);
  }

  lemma RemergeGood(cat: Catalog, s: State, t: State, acc: seq<Acceptance>, tight: bool, id: nat)
    requires Good(cat, s, acc, tight) && Safe(cat, t) && RemergeEffect(cat, s, t, id)
    ensures Good(cat, t, acc, tight)
  {
    forall i | i in t.filters ensures SoundAt(cat, t, acc, i) {
      RemergeSoundAt(cat, s, t, acc, id, i);
    }
    forall k | k in t.senders ensures FlowAt(cat, t, acc, tight, k) {
      assert FlowAt(cat, s, acc, tight, k) && ChannelOk(s, k);
      forall i | 0 <= i < |t.senders[k].log| ensures MessageSound(cat, t, acc, tight, t.senders[k].log[i]) {
        assert MessageOk(s, k, s.senders[k].log[i]);
        RemergeMessageSound(cat, s, t, acc, tight, id, k, s.senders[k].log[i]);
      }
    }
  }

  lemma {:induction false} MergeEachGood(cat: Catalog, s: State, acc: seq<Acceptance>, tight: bool, sched: Schedule)
    requires Good(cat, s, acc, tight)
    ensures Good(cat, MergeEach(s, sched).state, acc, tight)
    decreases |sched|
  {
    if sched != [] {
      MergeAgainGood(cat, s, acc, tight, sched[0].0);
      DispatchGood(cat, MergeFilter(s, sched[0].0).0, acc, tight, sched[0].0, sched[0].1);
      MergeEachGood(cat, MergeAndDispatch(s, sched[0].0, sched[0].1).state, acc, tight, sched[1..]);
    }
  }

  lemma MergeAgainGood(cat: Catalog, s: State, acc: seq<Acceptance>, tight: bool, id: nat)
    requires Good(cat, s, acc, tight)
    ensures Good(cat, MergeFilter(s, id).0, acc, tight)
  {
    MergeFilterKeeps(cat, s, id);
    if id in s.filters {
      assert FilterOk(cat, id, s.filters[id]);
      MergeFilterEffect(cat, s, id);
      RemergeGood(cat, s, MergeFilter(s, id).0, acc, tight, id);
    }
  }

  // ---------------------------------------------------------------- a stored report

  lemma {:induction false} FirstForAppend(acc: seq<Acceptance>, a: Acceptance, id: nat)
    ensures FirstFor(acc + [a], id) ==
            (if FirstFor(acc, id).Some? then FirstFor(acc, id)
             else if a.id == id then Some(a.snapshot) else None)
    ensures (exists b :: b in acc && b.id == id) <==> FirstFor(acc, id).Some?
  {
    if acc != [] {
      assert (acc + [a])[1..] == acc[1..] + [a];
      FirstForAppend(acc[1..], a, id);
      assert forall b :: b in acc <==> b == acc[0] || b in acc[1..];
    }
  }

  lemma AppendJustified(cat: Catalog, acc: seq<Acceptance>, a: Acceptance, id: nat, m: Snapshot)
    requires Justified(cat, acc, id, m)
    requires a.id != id || cat.mode(id) != UnionWhenAllComplete
    ensures Justified(cat, acc + [a], id, m)
  {
    FirstForAppend(acc, a, id);
    assert forall b :: b in acc + [a] <==> b == a || b in acc;
    if cat.mode(id) == UnionWhenAllComplete {
      forall row
        ensures Accepts(m, row) <==> exists b :: b in acc + [a] && b.id == id && Accepts(b.snapshot, row)
      {
        if Accepts(m, row) {
          var b :| b in acc && b.id == id && Accepts(b.snapshot, row);
          assert b in acc + [a];
        }
      }
    }
  }

  lemma RecordedStep(mode: Policy, id: nat, reports: Reports, acc: seq<Acceptance>, key: TaskKey, x: Snapshot)
    requires Recorded(mode, id, reports, acc) && Reported(mode, reports)
    requires key in reports && Accepted(Some(mode), reports[key], x)
    ensures Recorded(mode, id, reports[key := Some(x)], acc + [Acceptance(id, key, x)])
  {
    var next := reports[key := Some(x)];
    var all := acc + [Acceptance(id, key, x)];
    assert forall b :: b in all <==> b == Acceptance(id, key, x) || b in acc;
    assert ReportedKeys(next) == ReportedKeys(reports) + {key};
    forall k | k in ReportedKeys(next) ensures Acceptance(id, k, next[k].value) in all {
      if k != key {
        assert k in ReportedKeys(reports);
      }
    }
    if mode != IntersectOnUpdate {
      assert reports[key].None?;
    }
  }

  /** Replacing a report by a tighter one tightens the intersection. */
  lemma IntersectionTightens(id: nat, reports: Reports, acc: seq<Acceptance>, key: TaskKey, x: Snapshot, row: set<nat>)
    requires HasPredicates(reports) && key in reports && x.inner.Some? && ReportedKeys(reports) != {}
    requires Recorded(IntersectOnUpdate, id, reports, acc)
    requires OnlyTightens(acc + [Acceptance(id, key, x)])
    ensures var next := reports[key := Some(x)];
            && MergedPredicate(next, IntersectOnUpdate).Some?
            && MergedPredicate(reports, IntersectOnUpdate).Some?
            && (Holds(MergedPredicate(next, IntersectOnUpdate).value, row) ==>
                Holds(MergedPredicate(reports, IntersectOnUpdate).value, row))
  {
    var next := reports[key := Some(x)];
    assert ReportedKeys(next) == ReportedKeys(reports) + {key};
    MergedPredicateMeaning(next, IntersectOnUpdate, row);
    MergedPredicateMeaning(reports, IntersectOnUpdate, row);
    if Holds(MergedPredicate(next, IntersectOnUpdate).value, row) {
      OthersAccept(id, reports, acc, key, x, row);
    }
  }

  lemma OthersAccept(id: nat, reports: Reports, acc: seq<Acceptance>, key: TaskKey, x: Snapshot, row: set<nat>)
    requires key in reports && Recorded(IntersectOnUpdate, id, reports, acc)
    requires OnlyTightens(acc + [Acceptance(id, key, x)])
    requires var next := reports[key := Some(x)]; forall k :: k in ReportedKeys(next) ==> Accepts(next[k].value, row)
    ensures forall k :: k in ReportedKeys(reports) ==> Accepts(reports[k].value, row)
  {
    var next := reports[key := Some(x)];
    forall k | k in ReportedKeys(reports) ensures Accepts(reports[k].value, row) {
      assert k in ReportedKeys(next) && key in ReportedKeys(next);
      if k == key {
        OlderAccepts(id, reports, acc, key, x, row);
      }
    }
  }

  lemma OlderAccepts(id: nat, reports: Reports, acc: seq<Acceptance>, key: TaskKey, x: Snapshot, row: set<nat>)
    requires key in ReportedKeys(reports) && Recorded(IntersectOnUpdate, id, reports, acc)
    requires OnlyTightens(acc + [Acceptance(id, key, x)]) && Accepts(x, row)
    ensures Accepts(reports[key].value, row)
  {
    var all := acc + [Acceptance(id, key, x)];
    var i :| 0 <= i < |acc| && acc[i] == Acceptance(id, key, reports[key].value);
    assert all[i] == acc[i] && all[|acc|].snapshot == x;
    assert Tightens(all[i].snapshot, all[|acc|].snapshot);
  }

  /** What storing report `x` of `key` does to filter `id`, from the filter's point of view. */
  ghost predicate StoreEffect(cat: Catalog, s: State, t: State, id: nat, key: TaskKey, x: Snapshot) {
    && id in s.filters && key in s.filters[id].producers
    && Accepted(Some(cat.mode(id)), s.filters[id].producers[key], x) && x.inner.Some?
    && t.filters.Keys == s.filters.Keys && t.sealed == s.sealed && t.senders == s.senders
    && (forall i | i in s.filters && i != id :: t.filters[i] == s.filters[i])
    && var next := s.filters[id].producers[key := Some(x)];
    && t.filters[id].producers == next
    && t.filters[id].merged == Merged(next, s.sealed, cat.mode(id), s.filters[id].merged)
  }

  lemma StoredIsAccepted(cat: Catalog, s: State, key: TaskKey, report: Report)
    requires Safe(cat, s) && Stored(s, key, report)
    ensures var f, x := s.filters[report.id], report.payload.snapshot;
            && key in f.producers && Accepted(Some(cat.mode(report.id)), f.producers[key], x) && x.inner.Some?
  {
    assert FilterOk(cat, report.id, s.filters[report.id]);
  }

  lemma StoredEffect(cat: Catalog, s: State, key: TaskKey, report: Report)
    requires Safe(cat, s) && Stored(s, key, report)
    ensures var x := report.payload.snapshot;
            var t := MergeFilter(StoreReport(s, key, report.id, x), report.id).0;
            Safe(cat, t) && StoreEffect(cat, s, t, report.id, key, x)
  {
    var x := report.payload.snapshot;
    var t := StoreReport(s, key, report.id, x);
    StoredIsAccepted(cat, s, key, report);
    StoreReportKeeps(cat, s, key, report);
    MergeFilterKeeps(cat, t, report.id);
    assert FilterOk(cat, report.id, t.filters[report.id]);
    MergeFilterEffect(cat, t, report.id);
  }

  lemma StoredSoundAt(cat: Catalog, s: State, t: State, acc: seq<Acceptance>, id: nat, key: TaskKey, x: Snapshot)
    requires Safe(cat, s) && StoreEffect(cat, s, t, id, key, x) && SoundAt(cat, s, acc, id)
    ensures SoundAt(cat, t, acc + [Acceptance(id, key, x)], id)
    ensures cat.mode(id) == UnionWhenAllComplete ==> s.filters[id].merged.None?
  {
    var f := s.filters[id];
    assert FilterOk(cat, id, f);
    RecordedStep(cat.mode(id), id, f.producers, acc, key, x);
    match cat.mode(id) {
      case UnionWhenAllComplete => StoreUnion(f.producers, s.sealed, f.merged, key, x);
      case IntersectOnUpdate => StoreIntersect(f.producers, s.sealed, f.merged, key, x);
      case ForwardFirstComplete =>
        StoreFirst(f.producers, s.sealed, f.merged, key, x);
        FirstForAppend(acc, Acceptance(id, key, x), id);
    }
  }

  lemma StoredMessageSound(cat: Catalog, s: State, t: State, acc: seq<Acceptance>, tight: bool,
                           id: nat, key: TaskKey, x: Snapshot, to: TaskKey, u: Update)
    requires Safe(cat, s) && StoreEffect(cat, s, t, id, key, x) && SoundAt(cat, s, acc, id)
    requires tight ==> OnlyTightens(acc + [Acceptance(id, key, x)])
    requires MessageSound(cat, s, acc, tight, u) && MessageOk(s, to, u)
    ensures MessageSound(cat, t, acc + [Acceptance(id, key, x)], tight, u)
  {
    StoredSoundAt(cat, s, t, acc, id, key, x);
    AppendJustified(cat, acc, Acceptance(id, key, x), u.id, u.expression.filter);
    if u.id == id && tight && cat.mode(id) == IntersectOnUpdate {
      var f := s.filters[id];
      assert FilterOk(cat, id, f);
      StoreIntersect(f.producers, s.sealed, f.merged, key, x);
      forall row | Accepts(t.filters[id].merged.value, row) ensures Accepts(u.expression.filter, row) {
        IntersectionTightens(id, f.producers, acc, key, x, row);
        assert Accepts(f.merged.value, row);
      }
    }
  }

  lemma OtherFilterSound(cat: Catalog, s: State, t: State, acc: seq<Acceptance>, a: Acceptance, id: nat)
    requires id in s.filters && SoundAt(cat, s, acc, id) && a.id != id
    requires id in t.filters && t.filters[id] == s.filters[id] && t.sealed == s.sealed
    ensures SoundAt(cat, t, acc + [a], id)
  {
    FirstForAppend(acc, a, id);
    assert forall b :: b in acc + [a] <==> b == a || b in acc;
  }

  lemma StoredGood(cat: Catalog, s: State, t: State, acc: seq<Acceptance>, tight: bool,
                   id: nat, key: TaskKey, x: Snapshot)
    requires Good(cat, s, acc, tight) && Safe(cat, t) && StoreEffect(cat, s, t, id, key, x)
    requires tight ==> OnlyTightens(acc + [Acceptance(id, key, x)])
    ensures Good(cat, t, acc + [Acceptance(id, key, x)], tight)
  {
    var a := Acceptance(id, key, x);
    StoredSound(cat, s, t, acc, id, key, x);
    forall k | k in t.senders ensures FlowAt(cat, t, acc + [a], tight, k) {
      StoredFlow(cat, s, t, acc, tight, id, key, x, k);
    }
  }

  lemma StoredSound(cat: Catalog, s: State, t: State, acc: seq<Acceptance>, id: nat, key: TaskKey, x: Snapshot)
    requires Safe(cat, s) && Sound(cat, s, acc) && StoreEffect(cat, s, t, id, key, x)
    ensures Sound(cat, t, acc + [Acceptance(id, key, x)])
  {
    var a := Acceptance(id, key, x);
    assert SoundAt(cat, s, acc, id);
    forall i | i in t.filters ensures SoundAt(cat, t, acc + [a], i) {
      if i == id {
        StoredSoundAt(cat, s, t, acc, id, key, x);
      } else {
        OtherFilterSound(cat, s, t, acc, a, i);
      }
    }
  }

  lemma StoredFlow(cat: Catalog, s: State, t: State, acc: seq<Acceptance>, tight: bool,
                   id: nat, key: TaskKey, x: Snapshot, k: TaskKey)
    requires Good(cat, s, acc, tight) && StoreEffect(cat, s, t, id, key, x) && k in t.senders
    requires tight ==> OnlyTightens(acc + [Acceptance(id, key, x)])
    ensures FlowAt(cat, t, acc + [Acceptance(id, key, x)], tight, k)
  {
    var a := Acceptance(id, key, x);
    assert FlowAt(cat, s, acc, tight, k) && ChannelOk(s, k);
    assert SoundAt(cat, s, acc, id);
    forall i | 0 <= i < |t.senders[k].log| ensures MessageSound(cat, t, acc + [a], tight, t.senders[k].log[i]) {
      assert MessageOk(s, k, s.senders[k].log[i]);
      StoredMessageSound(cat, s, t, acc, tight, id, key, x, k, s.senders[k].log[i]);
    }
  }

  // ---------------------------------------------------------------- registering

  /** New wiring that leaves merged filters, reports and channels alone. */
  ghost predicate OnlyWired(cat: Catalog, s: State, t: State) {
    && s.filters.Keys <= t.filters.Keys && t.sealed == s.sealed && t.senders == s.senders
    && forall id | id in t.filters ::
         var f := FilterAt(s.filters, id);
         && t.filters[id].merged == f.merged
         && (t.filters[id].producers == f.producers ||
             exists key :: key !in f.producers && key.stage !in s.sealed && key.stage == cat.stage(id)
                           && t.filters[id].producers == f.producers[key := None])
  }

  lemma NewProducerKeepsSound(mode: Policy, reports: Reports, sealed: set<nat>,
                              merged: Option<Snapshot>, key: TaskKey)
    requires MergedSound(mode, reports, sealed, merged)
    requires key !in reports && key.stage !in sealed
    requires forall k | k in reports :: k.stage == key.stage
    ensures MergedSound(mode, reports[key := None], sealed, merged)
    ensures ReportedKeys(reports[key := None]) == ReportedKeys(reports)
  {
    var next := reports[key := None];
    assert ReportedKeys(next) == ReportedKeys(reports);
    assert !AllComplete(next, sealed) && !AllComplete(reports, sealed);
    assert MergeKeys(next, mode) == MergeKeys(reports, mode);
    PredicatesAgree(reports, next, MergeKeys(reports, mode));
  }

  /** Before its first registration a filter has nothing to be sound about. */
  lemma FilterAtSound(cat: Catalog, s: State, acc: seq<Acceptance>, id: nat)
    requires Safe(cat, s) && Sound(cat, s, acc)
    ensures var f := FilterAt(s.filters, id);
            FilterOk(cat, id, f) && FilterSound(cat.mode(id), id, f.producers, s.sealed, f.merged, acc)
  {
    var f := FilterAt(s.filters, id);
    assert FilterOk(cat, id, f);
    if id in s.filters {
      assert SoundAt(cat, s, acc, id);
    } else {
      assert ReportedKeys(NewFilter.producers) == {};
    }
  }

  lemma WiredSoundAt(cat: Catalog, s: State, t: State, acc: seq<Acceptance>, id: nat)
    requires Safe(cat, s) && Sound(cat, s, acc) && OnlyWired(cat, s, t) && id in t.filters
    ensures SoundAt(cat, t, acc, id)
  {
    var f := FilterAt(s.filters, id);
    FilterAtSound(cat, s, acc, id);
    if t.filters[id].producers != f.producers {
      var key :| key !in f.producers && key.stage !in s.sealed && key.stage == cat.stage(id)
                 && t.filters[id].producers == f.producers[key := None];
      NewProducerSound(cat.mode(id), id, f.producers, s.sealed, f.merged, acc, key);
    }
  }

  lemma NewProducerSound(mode: Policy, id: nat, reports: Reports, sealed: set<nat>, merged: Option<Snapshot>,
                         acc: seq<Acceptance>, key: TaskKey)
    requires FilterSound(mode, id, reports, sealed, merged, acc)
    requires key !in reports && key.stage !in sealed && forall k | k in reports :: k.stage == key.stage
    ensures FilterSound(mode, id, reports[key := None], sealed, merged, acc)
  {
    NewProducerKeepsSound(mode, reports, sealed, merged, key);
  }

  lemma WiredGood(cat: Catalog, s: State, t: State, acc: seq<Acceptance>, tight: bool)
    requires Good(cat, s, acc, tight) && Safe(cat, t) && OnlyWired(cat, s, t)
    ensures Good(cat, t, acc, tight)
  {
    forall id | id in t.filters ensures SoundAt(cat, t, acc, id) {
      WiredSoundAt(cat, s, t, acc, id);
    }
    forall k | k in t.senders ensures FlowAt(cat, t, acc, tight, k) {
      assert FlowAt(cat, s, acc, tight, k);
      forall i | 0 <= i < |t.senders[k].log| ensures MessageSound(cat, t, acc, tight, t.senders[k].log[i]) {
        assert MessageSound(cat, s, acc, tight, s.senders[k].log[i]);
      }
    }
  }

  lemma ProducerWires(cat: Catalog, s: State, key: TaskKey, p: Produced)
    requires MayJoin(cat, s, key, p) && key.stage !in s.sealed
    requires RegisterProducer(s, key, p).outcome == Ok
    ensures OnlyWired(cat, s, RegisterProducer(s, key, p).state)
  {
  }

  lemma {:induction false} RegisterProducersGood(cat: Catalog, s: State, acc: seq<Acceptance>, tight: bool,
                                                 key: TaskKey, produced: seq<Produced>)
    requires Good(cat, s, acc, tight) && MayJoinAll(cat, s, key, produced)
    requires key !in s.senders && key.stage !in s.sealed
    ensures Good(cat, RegisterProducers(s, key, produced).state, acc, tight)
    ensures RegisterProducers(s, key, produced).state.senders == s.senders
    decreases |produced|
  {
    if produced != [] {
      RegisterProducerKeeps(cat, s, key, produced[0]);
      var t := RegisterProducer(s, key, produced[0]).state;
      if Agrees(cat, produced[0]) {
        ProducerWires(cat, s, key, produced[0]);
        WiredGood(cat, s, t, acc, tight);
        RegisterProducersGood(cat, t, acc, tight, key, produced[1..]);
      } else {
        DisagreementIsRejected(cat, s, key, produced[0]);
      }
    }
  }

  lemma ConsumerWires(cat: Catalog, s: State, key: TaskKey, id: nat)
    ensures OnlyWired(cat, s, RegisterConsumer(s, key, id))
  {
  }

  lemma RegisterConsumerGood(cat: Catalog, s: State, acc: seq<Acceptance>, tight: bool, key: TaskKey, id: nat)
    requires Good(cat, s, acc, tight) && key !in s.senders
    ensures Good(cat, RegisterConsumer(s, key, id), acc, tight)
  {
    RegisterConsumerSafe(cat, s, key, id);
    ConsumerWires(cat, s, key, id);
    WiredGood(cat, s, RegisterConsumer(s, key, id), acc, tight);
  }

  lemma {:induction false} RegisterConsumersGood(cat: Catalog, s: State, acc: seq<Acceptance>, tight: bool,
                                                 key: TaskKey, consumed: seq<nat>)
    requires Good(cat, s, acc, tight) && key !in s.senders
    ensures Good(cat, RegisterConsumers(s, key, consumed), acc, tight)
    decreases |consumed|
  {
    if consumed != [] {
      RegisterConsumerGood(cat, s, acc, tight, key, consumed[0]);
      RegisterConsumersGood(cat, RegisterConsumer(s, key, consumed[0]), acc, tight, key, consumed[1..]);
    }
  }

  lemma ConnectGood(cat: Catalog, s: State, acc: seq<Acceptance>, tight: bool, key: TaskKey)
    requires Good(cat, s, acc, tight)
    ensures Good(cat, Connect(s, key), acc, tight)
  {
    var c := Connect(s, key);
    ConnectKeeps(cat, s, key);
    SameFiltersSound(cat, s, c, acc);
    forall k | k in c.senders ensures FlowAt(cat, c, acc, tight, k) {
      if k != key {
        assert FlowAt(cat, s, acc, tight, k);
        forall i | 0 <= i < |c.senders[k].log| ensures MessageSound(cat, c, acc, tight, c.senders[k].log[i]) {
          assert MessageSound(cat, s, acc, tight, s.senders[k].log[i]);
        }
      }
    }
  }

  /** Sealing, closing a channel and finishing the query: same filters, same logs, more seals. */
  lemma QuietGood(cat: Catalog, s: State, t: State, acc: seq<Acceptance>, tight: bool)
    requires Good(cat, s, acc, tight) && Safe(cat, t)
    requires t.filters == s.filters && s.sealed <= t.sealed && t.senders.Keys == s.senders.Keys
    requires forall k | k in s.senders :: t.senders[k].log == s.senders[k].log
    ensures Good(cat, t, acc, tight)
  {
    forall id | id in t.filters ensures SoundAt(cat, t, acc, id) {
      assert SoundAt(cat, s, acc, id);
      SealKeepsSound(cat.mode(id), s.filters[id].producers, s.sealed, s.filters[id].merged, t.sealed);
    }
    forall k | k in t.senders ensures FlowAt(cat, t, acc, tight, k) {
      assert FlowAt(cat, s, acc, tight, k);
      forall i | 0 <= i < |t.senders[k].log| ensures MessageSound(cat, t, acc, tight, t.senders[k].log[i]) {
        assert MessageSound(cat, s, acc, tight, s.senders[k].log[i]);
      }
    }
  }

  // ---------------------------------------------------------------- every run

  lemma UpdateGood(cat: Catalog, s: State, acc: seq<Acceptance>, tight: bool,
                   key: TaskKey, report: Report, order: Walk)
    requires Good(cat, s, acc, tight) && Stored(s, key, report)
    requires tight ==> OnlyTightens(acc + [Acceptance(report.id, key, report.payload.snapshot)])
    ensures Good(cat, RecordUpdate(s, key, report, order).state,
                 acc + [Acceptance(report.id, key, report.payload.snapshot)], tight)
  {
    var x := report.payload.snapshot;
    var t := MergeFilter(StoreReport(s, key, report.id, x), report.id).0;
    StoredEffect(cat, s, key, report);
    StoredGood(cat, s, t, acc, tight, report.id, key, x);
    DispatchGood(cat, t, acc + [Acceptance(report.id, key, x)], tight, report.id, order);
  }

  lemma StepGood(cat: Catalog, s: State, acc: seq<Acceptance>, tight: bool, e: Event)
    requires Good(cat, s, acc, tight) && Guard(cat, s, e)
    requires tight ==> OnlyTightens(acc + AcceptedBy(s, e))
    ensures Good(cat, Step(s, e).state, acc + AcceptedBy(s, e), tight)
  {
    assert acc + [] == acc;
    match e {
      case TaskRegistered(key, produced, consumed) =>
        RegisterProducersGood(cat, s, acc, tight, key, produced);
        RegisterConsumersGood(cat, RegisterProducers(s, key, produced).state, acc, tight, key, consumed);
      case SenderRegistered(key, sched) =>
        ConnectGood(cat, s, acc, tight, key);
        DispatchEachGood(cat, Connect(s, key), acc, tight, sched);
      case StageSealed(stage, sched) =>
        var t := s.(sealed := s.sealed + {stage});
        SealKeepsSafe(cat, s, stage);
        QuietGood(cat, s, t, acc, tight);
        MergeEachGood(cat, t, acc, tight, sched);
      case UpdateReceived(key, report, order) =>
        if Stored(s, key, report) {
          UpdateGood(cat, s, acc, tight, key, report, order);
        }
      case QueryFinished =>
        QuietKeeps(cat, s, Step(s, e).state);
        QuietGood(cat, s, Step(s, e).state, acc, tight);
    }
  }

  lemma OnlyTightensPrefix(acc: seq<Acceptance>, more: seq<Acceptance>)
    requires OnlyTightens(acc + more)
    ensures OnlyTightens(acc)
  {
    assert forall i | 0 <= i < |acc| :: (acc + more)[i] == acc[i];
  }

  lemma HistoryNext(r: Run, es: seq<Event>, acc: seq<Acceptance>)
    requires es != []
    ensures acc + History(r, es) == acc + AcceptedBy(r.state, es[0]) + History(Advance(r, es[0]), es[1..])
  {
  }

  lemma {:induction false} RunGood(cat: Catalog, r: Run, es: seq<Event>, acc: seq<Acceptance>, tight: bool)
    requires Good(cat, r.state, acc, tight) && Guarded(cat, r, es)
    requires tight ==> OnlyTightens(acc + History(r, es))
    ensures Good(cat, RunFrom(r, es).state, acc + History(r, es), tight)
    decreases |es|
  {
    if es == [] {
      assert acc + [] == acc;
    } else {
      var seen := acc + AcceptedBy(r.state, es[0]);
      HistoryNext(r, es, acc);
      if tight {
        OnlyTightensPrefix(seen, History(Advance(r, es[0]), es[1..]));
      }
      StepGood(cat, r.state, acc, tight, es[0]);
      RunGood(cat, Advance(r, es[0]), es[1..], seen, tight);
    }
  }
}
