/** Forwarded filters: which reorderings of the same calls forward the same filter. */
module RegistryForwarding {
  import opened Wrappers
  import opened DynamicFilters
  import opened RegistrySteps
  import opened RegistryInvariant
  import opened RegistryPreservation
  import opened RegistryRuns
  import opened RegistrySoundness
  import opened RegistryCatalog
  import opened RegistryTheorems
  import opened RegistrySchedules
  import opened RegistryReports
  import opened RegistryCalls
  import opened RegistrySeals

  // ---------------------------------------------------------------- the same calls in another order

  /** The call alone, without the walks and channels it happens to find. */
  function Call(e: Event): (c: Event) {
    match e
    case SenderRegistered(key, sched) => SenderRegistered(key, [])
    case StageSealed(stage, sched) => StageSealed(stage, [])
    case UpdateReceived(key, report, order) => UpdateReceived(key, report, Walk(false, []))
    case _ => e
  }

  /** Who calls: a task, or the coordinator for the whole query. */
  function Caller(e: Event): (who: Option<TaskKey>) {
    if e.StageSealed? || e.QueryFinished? then None else Some(e.key)
  }

  /** The calls of one caller, in its own order. */
  function CallsOf(es: seq<Event>, who: Option<TaskKey>): (cs: seq<Event>) {
    if es == [] then []
    else if Caller(es[0]) == who then [Call(es[0])] + CallsOf(es[1..], who)
    else CallsOf(es[1..], who)
  }

  /** Every caller makes the same calls in the same order. */
  ghost predicate Reordered(es: seq<Event>, fs: seq<Event>) {
    forall who :: CallsOf(es, who) == CallsOf(fs, who)
  }

  lemma {:induction false} ActionsAreCalls(es: seq<Event>, key: TaskKey)
    ensures Actions(es, key) == Actions(CallsOf(es, Some(key)), key)
  {
    if es != [] {
      ActionsAreCalls(es[1..], key);
      var rest := CallsOf(es[1..], Some(key));
      if Caller(es[0]) == Some(key) {
        assert ([Call(es[0])] + rest)[1..] == rest;
      } else {
        assert [] + Actions(es[1..], key) == Actions(es[1..], key);
      }
    }
  }

  lemma {:induction false} SealsAreCalls(es: seq<Event>)
    ensures Seals(es) == Seals(CallsOf(es, None))
  {
    if es != [] {
      SealsAreCalls(es[1..]);
      var rest := CallsOf(es[1..], None);
      if Caller(es[0]) == None {
        assert ([Call(es[0])] + rest)[1..] == rest;
      }
    }
  }

  lemma ReorderedInterleaves(es: seq<Event>, fs: seq<Event>)
    requires Reordered(es, fs)
    ensures Interleavings(es, fs)
  {
    forall key ensures Actions(es, key) == Actions(fs, key) {
      ActionsAreCalls(es, key);
      ActionsAreCalls(fs, key);
    }
    SealsAreCalls(es);
    SealsAreCalls(fs);
  }

  lemma {:induction false} CallsConcat(a: seq<Event>, b: seq<Event>, who: Option<TaskKey>)
    ensures CallsOf(a + b, who) == CallsOf(a, who) + CallsOf(b, who)
  {
    if a == [] {
      assert a + b == b;
    } else {
      assert (a + b)[0] == a[0] && (a + b)[1..] == a[1..] + b;
      CallsConcat(a[1..], b, who);
    }
  }

  // ---------------------------------------------------------------- one caller first

  /** The calls of `es` made by `key`, or the others. */
  function Only(es: seq<Event>, key: TaskKey, own: bool): (fs: seq<Event>) {
    if es == [] then []
    else if (Caller(es[0]) == Some(key)) == own then [es[0]] + Only(es[1..], key, own)
    else Only(es[1..], key, own)
  }

  lemma {:induction false} OnlyCalls(es: seq<Event>, key: TaskKey, own: bool, who: Option<TaskKey>)
    ensures CallsOf(Only(es, key, own), who) == if (who == Some(key)) == own then CallsOf(es, who) else []
  {
    if es != [] {
      OnlyCalls(es[1..], key, own, who);
      var rest := Only(es[1..], key, own);
      if (Caller(es[0]) == Some(key)) == own {
        assert ([es[0]] + rest)[1..] == rest;
      }
    }
  }

  /** The order the callers keep, told from the calls alone: who is connected and what is sealed. */
  ghost predicate Legal(stage: nat -> nat, connected: set<TaskKey>, sealed: set<nat>, es: seq<Event>)
    decreases |es|
  {
    es == [] ||
    (&& (es[0].TaskRegistered? ==>
           && es[0].key !in connected && es[0].key.stage !in sealed
           && forall i | 0 <= i < |es[0].produced| :: es[0].key.stage == stage(es[0].produced[i].id))
     && Legal(stage, connected + Connects(es[0]), sealed + Seals([es[0]]), es[1..]))
  }

  function Connects(e: Event): (keys: set<TaskKey>) {
    if e.SenderRegistered? then {e.key} else {}
  }

  lemma {:induction false} OwnIsLegal(stage: nat -> nat, connected: set<TaskKey>, sealed: set<nat>, es: seq<Event>,
                                      key: TaskKey, fewer: set<TaskKey>)
    requires Legal(stage, connected, sealed, es) && (key in fewer ==> key in connected)
    ensures Legal(stage, fewer, {}, Only(es, key, true))
    decreases |es|
  {
    if es != [] {
      var rest := Only(es[1..], key, true);
      var own := Caller(es[0]) == Some(key);
      OwnIsLegal(stage, connected + Connects(es[0]), sealed + Seals([es[0]]), es[1..], key,
                 if own then fewer + Connects(es[0]) else fewer);
      if own {
        assert ([es[0]] + rest)[1..] == rest;
        assert {} + Seals([es[0]]) == {};
      }
    }
  }

  lemma {:induction false} OthersAreLegal(stage: nat -> nat, connected: set<TaskKey>, sealed: set<nat>,
                                          es: seq<Event>, key: TaskKey, more: set<TaskKey>)
    requires Legal(stage, connected, sealed, es) && more <= connected + {key}
    ensures Legal(stage, more, sealed, Only(es, key, false))
    decreases |es|
  {
    if es != [] {
      var rest := Only(es[1..], key, false);
      var own := Caller(es[0]) == Some(key);
      OthersAreLegal(stage, connected + Connects(es[0]), sealed + Seals([es[0]]), es[1..], key,
                     if own then more else more + Connects(es[0]));
      if own {
        assert sealed + Seals([es[0]]) == sealed;
      } else {
        assert ([es[0]] + rest)[1..] == rest;
      }
    }
  }

  // ---------------------------------------------------------------- replaying calls

  lemma {:induction false} SendAllConnects(s: State, id: nat, u: Update, attempts: seq<Attempt>)
    requires id in s.filters && u.id == id
    ensures SendAll(s, id, u, attempts).state.senders.Keys == s.senders.Keys
    decreases |attempts|
  {
    if attempts != [] {
      if Skipped(s, id, attempts[0].key) {
        SendAllConnects(s, id, u, attempts[1..]);
      } else if attempts[0].found == Listening {
        SendAllConnects(Send(s, attempts[0].key, u), id, u, attempts[1..]);
      }
    }
  }

  lemma DispatchConnects(s: State, id: nat, order: Walk)
    ensures Dispatch(s, id, order).state.senders.Keys == s.senders.Keys
  {
    if id in s.filters && s.filters[id].mergedBytes.Some? && s.filters[id].schema.Some? {
      SendAllConnects(s, id, Update(id, s.filters[id].mergedBytes.value, s.filters[id].schema.value), order.attempts);
    }
  }

  lemma {:induction false} WalksConnect(s: State, sched: Schedule)
    ensures DispatchEach(s, sched).state.senders.Keys == s.senders.Keys
    ensures MergeEach(s, sched).state.senders.Keys == s.senders.Keys
    decreases |sched|
  {
    if sched != [] {
      DispatchConnects(s, sched[0].0, sched[0].1);
      DispatchConnects(MergeFilter(s, sched[0].0).0, sched[0].0, sched[0].1);
      WalksConnect(Dispatch(s, sched[0].0, sched[0].1).state, sched[1..]);
      WalksConnect(MergeAndDispatch(s, sched[0].0, sched[0].1).state, sched[1..]);
    }
  }

  lemma StepConnects(s: State, e: Event)
    ensures Step(s, e).state.senders.Keys == s.senders.Keys + Connects(e)
    ensures Step(s, e).state.sealed == s.sealed + Seals([e])
  {
    match e {
      case TaskRegistered(key, produced, consumed) => RegistrationConnects(s, key, produced, consumed);
      case SenderRegistered(key, sched) =>
        WalksConnect(Connect(s, key), sched);
        DispatchEachKeepsFilters(Connect(s, key), sched);
      case StageSealed(stage, sched) =>
        WalksConnect(Sealed(s, stage), sched);
        MergeEachKeepsComplete(Sealed(s, stage), sched);
      case UpdateReceived(key, report, order) =>
        if Stored(s, key, report) {
          var t := StoreReport(s, key, report.id, report.payload.snapshot);
          DispatchConnects(MergeFilter(t, report.id).0, report.id, order);
          MergeAndDispatchKeepsComplete(t, report.id, order);
        }
      case QueryFinished =>
    }
  }

  lemma {:induction false} OrderedIsLegal(stage: nat -> nat, r: Run, es: seq<Event>)
    requires Ordered(stage, r, es)
    ensures Legal(stage, r.state.senders.Keys, r.state.sealed, es)
    decreases |es|
  {
    if es != [] {
      StepConnects(r.state, es[0]);
      OrderedIsLegal(stage, Advance(r, es[0]), es[1..]);
    }
  }

  /** The call `c` with walks that fit the state `s`, all channels open. */
  lemma Fit(stage: nat -> nat, s: State, c: Event) returns (e: Event)
    requires c.TaskRegistered? ==>
               && c.key !in s.senders && c.key.stage !in s.sealed
               && forall i | 0 <= i < |c.produced| :: c.key.stage == stage(c.produced[i].id)
    ensures InOrder(stage, s, e) && Call(e) == Call(c)
  {
    var sched := SomeWalk(s.filters, {}, s.filters.Keys);
    match c {
      case SenderRegistered(key, _) => e := SenderRegistered(key, sched);
      case StageSealed(sealing, _) => e := StageSealed(sealing, sched);
      case UpdateReceived(key, report, _) =>
        var keys := FilterAt(s.filters, report.id).consumers;
        WalkToEnumerates(keys, {});
        e := UpdateReceived(key, report, WalkTo(keys, {}));
      case _ => e := c;
    }
  }

  lemma {:induction false} Replay(stage: nat -> nat, r: Run, cs: seq<Event>) returns (fs: seq<Event>)
    requires Legal(stage, r.state.senders.Keys, r.state.sealed, cs)
    ensures Ordered(stage, r, fs) && Reordered(cs, fs)
    decreases |cs|
  {
    fs := [];
    if cs != [] {
      var e := Fit(stage, r.state, cs[0]);
      StepConnects(r.state, e);
      assert Connects(e) == Connects(cs[0]) && Seals([e]) == Seals([cs[0]]);
      var rest := Replay(stage, Advance(r, e), cs[1..]);
      fs := [e] + rest;
      assert fs[1..] == rest;
    }
  }

  lemma {:induction false} RunConcat(stage: nat -> nat, r: Run, a: seq<Event>, b: seq<Event>)
    requires Ordered(stage, r, a) && Ordered(stage, RunFrom(r, a), b)
    ensures Ordered(stage, r, a + b) && RunFrom(r, a + b) == RunFrom(RunFrom(r, a), b)
    decreases |a|
  {
    if a == [] {
      assert a + b == b;
    } else {
      assert (a + b)[0] == a[0] && (a + b)[1..] == a[1..] + b;
      RunConcat(stage, Advance(r, a[0]), a[1..], b);
    }
  }

  lemma {:induction false} OwnConnects(r: Run, es: seq<Event>, key: TaskKey)
    requires forall who | who != Some(key) :: CallsOf(es, who) == []
    ensures var t := RunFrom(r, es).state;
            t.senders.Keys <= r.state.senders.Keys + {key} && t.sealed == r.state.sealed
    decreases |es|
  {
    if es != [] {
      assert Caller(es[0]) == Some(key) by {
        assert CallsOf(es, Caller(es[0])) != [];
      }
      assert forall who | who != Some(key) :: CallsOf(es[1..], who) == CallsOf(es, who);
      StepConnects(r.state, es[0]);
      OwnConnects(Advance(r, es[0]), es[1..], key);
    }
  }

  lemma PartsReorder(es: seq<Event>, key: TaskKey, own: seq<Event>, others: seq<Event>)
    requires Reordered(Only(es, key, true), own) && Reordered(Only(es, key, false), others)
    ensures Reordered(es, own + others)
  {
    forall who ensures CallsOf(es, who) == CallsOf(own + others, who) {
      CallsConcat(own, others, who);
      OnlyCalls(es, key, true, who);
      OnlyCalls(es, key, false, who);
    }
  }

  lemma OwnCallsOnly(es: seq<Event>, key: TaskKey, own: seq<Event>, who: Option<TaskKey>)
    requires Reordered(Only(es, key, true), own)
    ensures CallsOf(own, who) == if who == Some(key) then CallsOf(es, who) else []
  {
    OnlyCalls(es, key, true, who);
  }

  /** The same calls, those of `key` first. */
  lemma OwnFirst(stage: nat -> nat, es: seq<Event>, key: TaskKey) returns (own: seq<Event>, others: seq<Event>)
    requires Ordered(stage, Start, es)
    ensures Ordered(stage, Start, own) && Ordered(stage, RunFrom(Start, own), others)
    ensures Reordered(Only(es, key, true), own) && Reordered(Only(es, key, false), others)
  {
    OrderedIsLegal(stage, Start, es);
    assert Start.state.senders.Keys == {};
    OwnIsLegal(stage, {}, {}, es, key, {});
    own := Replay(stage, Start, Only(es, key, true));
    forall who | who != Some(key) ensures CallsOf(own, who) == [] {
      OwnCallsOnly(es, key, own, who);
    }
    OwnConnects(Start, own, key);
    var r := RunFrom(Start, own);
    OthersAreLegal(stage, {}, {}, es, key, r.state.senders.Keys);
    others := Replay(stage, r, Only(es, key, false));
  }

  // ---------------------------------------------------------------- first complete reports

  /** A task's first complete report of a filter since it registered as a producer of it. */
  function FirstOf(cat: Catalog, es: seq<Event>, id: nat, key: TaskKey): (x: Option<Snapshot>) {
    FirstComplete(ReportsSince(cat, Actions(es, key), id, false))
  }

  ghost predicate AgreeingRun(cat: Catalog, es: seq<Event>) {
    Ordered(cat.stage, Start, es) && forall i | 0 <= i < |es| :: AllAgree(cat, es[i])
  }

  lemma AgreeingRunHolds(cat: Catalog, es: seq<Event>)
    requires AgreeingRun(cat, es)
    ensures var s := RunFrom(Start, es).state; Guarded(cat, Start, es) && Good(cat, s, History(Start, es), false)
  {
    StartIsGood(cat);
    AgreeingRunIsDescribed(cat, Start, es);
    OrderedIsGuarded(cat, Start, es);
    RunGood(cat, Start, es, [], false);
    assert [] + History(Start, es) == History(Start, es);
  }

  /** `m` forwards one of the first complete reports, if there is one. */
  ghost predicate ForwardsOne(cat: Catalog, es: seq<Event>, id: nat, m: Option<Snapshot>) {
    if m.None? then forall key :: FirstOf(cat, es, id, key).None?
    else exists key :: FirstOf(cat, es, id, key).Some? && m == Some(FirstOf(cat, es, id, key).value.(generation := 0))
  }

  /** Every run forwards the first complete report of some task. */
  lemma ForwardsFirst(cat: Catalog, es: seq<Event>, id: nat)
    requires AgreeingRun(cat, es) && cat.mode(id) == ForwardFirstComplete
    ensures ForwardsOne(cat, es, id, MergedOf(RunFrom(Start, es).state, id))
  {
    AgreeingRunHolds(cat, es);
    ForwardPromised(cat, es, id);
    var m := MergedOf(RunFrom(Start, es).state, id);
    forall key ensures ReportOf(cat, es, id, key) == FirstOf(cat, es, id, key) {
    }
    if m.Some? {
      var key :| ReportOf(cat, es, id, key).Some? && m.value == ReportOf(cat, es, id, key).value.(generation := 0);
      assert FirstOf(cat, es, id, key).Some?;
    }
  }

  // ---------------------------------------------------------------- when all reorderings agree

  lemma {:induction false} CallIsMade(es: seq<Event>, i: nat)
    requires i < |es|
    ensures Call(es[i]) in CallsOf(es, Caller(es[i]))
  {
    if i > 0 {
      CallIsMade(es[1..], i - 1);
    }
  }

  lemma {:induction false} CallsAgree(cat: Catalog, es: seq<Event>, who: Option<TaskKey>)
    requires forall i | 0 <= i < |es| :: AllAgree(cat, es[i])
    ensures forall c | c in CallsOf(es, who) :: AllAgree(cat, c)
  {
    if es != [] {
      assert AllAgree(cat, es[0]);
      CallsAgree(cat, es[1..], who);
    }
  }

  lemma ReorderedAgrees(cat: Catalog, es: seq<Event>, fs: seq<Event>)
    requires AgreeingRun(cat, es) && Ordered(cat.stage, Start, fs) && Reordered(es, fs)
    ensures AgreeingRun(cat, fs) && forall key, id :: FirstOf(cat, fs, id, key) == FirstOf(cat, es, id, key)
  {
    ReorderedInterleaves(es, fs);
    forall i | 0 <= i < |fs| ensures AllAgree(cat, fs[i]) {
      CallIsMade(fs, i);
      CallsAgree(cat, es, Caller(fs[i]));
    }
  }

  /** The task whose calls come first has its report forwarded. */
  lemma OwnIsForwarded(cat: Catalog, es: seq<Event>, id: nat, key: TaskKey) returns (fs: seq<Event>)
    requires AgreeingRun(cat, es) && cat.mode(id) == ForwardFirstComplete && FirstOf(cat, es, id, key).Some?
    ensures Ordered(cat.stage, Start, fs) && Reordered(es, fs)
    ensures MergedOf(RunFrom(Start, fs).state, id) == Some(FirstOf(cat, es, id, key).value.(generation := 0))
  {
    var own, others := OwnFirst(cat.stage, es, key);
    fs := own + others;
    PartsReorder(es, key, own, others);
    RunConcat(cat.stage, Start, own, others);
    OwnForwards(cat, es, id, key, own);
    CompletedMergeIsFinal(RunFrom(Start, own), others);
  }

  lemma OwnForwards(cat: Catalog, es: seq<Event>, id: nat, key: TaskKey, own: seq<Event>)
    requires AgreeingRun(cat, es) && cat.mode(id) == ForwardFirstComplete && FirstOf(cat, es, id, key).Some?
    requires Ordered(cat.stage, Start, own) && Reordered(Only(es, key, true), own)
    ensures var m := MergedOf(RunFrom(Start, own).state, id);
            m == Some(FirstOf(cat, es, id, key).value.(generation := 0)) && m.value.complete
  {
    forall i | 0 <= i < |own| ensures AllAgree(cat, own[i]) {
      CallIsMade(own, i);
      OwnCallsOnly(es, key, own, Caller(own[i]));
      CallsAgree(cat, es, Caller(own[i]));
    }
    forall k ensures FirstOf(cat, own, id, k) == if k == key then FirstOf(cat, es, id, key) else None {
      OwnCallsOnly(es, key, own, Some(k));
      ActionsAreCalls(own, k);
      ActionsAreCalls(es, k);
    }
    ForwardsFirst(cat, own, id);
    assert FirstOf(cat, own, id, key) == FirstOf(cat, es, id, key);
  }

  /** Forwarding is independent of the order in which tasks' calls interleave exactly if the tasks' first
      complete reports of the filter agree up to generation. */
  lemma ForwardingAgreesIff(cat: Catalog, es: seq<Event>, id: nat)
    requires AgreeingRun(cat, es) && cat.mode(id) == ForwardFirstComplete
    ensures (forall fs | Ordered(cat.stage, Start, fs) && Reordered(es, fs) ::
               MergedOf(RunFrom(Start, fs).state, id) == MergedOf(RunFrom(Start, es).state, id))
            <==>
            (forall j, k | FirstOf(cat, es, id, j).Some? && FirstOf(cat, es, id, k).Some? ::
               SameReport(FirstOf(cat, es, id, j), FirstOf(cat, es, id, k)))
  {
    var m := MergedOf(RunFrom(Start, es).state, id);
    ForwardsFirst(cat, es, id);
    if forall j, k | FirstOf(cat, es, id, j).Some? && FirstOf(cat, es, id, k).Some? ::
         SameReport(FirstOf(cat, es, id, j), FirstOf(cat, es, id, k))
    {
      forall fs | Ordered(cat.stage, Start, fs) && Reordered(es, fs)
        ensures MergedOf(RunFrom(Start, fs).state, id) == m
      {
        ReorderedAgrees(cat, es, fs);
        ForwardsFirst(cat, fs, id);
      }
    } else {
      var j, k :| FirstOf(cat, es, id, j).Some? && FirstOf(cat, es, id, k).Some?
                  && !SameReport(FirstOf(cat, es, id, j), FirstOf(cat, es, id, k));
      var a := OwnIsForwarded(cat, es, id, j);
      var b := OwnIsForwarded(cat, es, id, k);
      assert MergedOf(RunFrom(Start, a).state, id) != MergedOf(RunFrom(Start, b).state, id);
    }
  }
}
