/** Sealing a stage: which filters it completes, and when it is sure to complete all of them. */
module RegistrySeals {
  import opened Wrappers
  import opened DynamicFilters
  import opened RegistrySteps
  import opened RegistryInvariant
  import opened RegistryPreservation
  import opened RegistryRuns
  import opened RegistrySoundness
  import opened RegistryCatalog
  import opened RegistryTheorems

  /** All producers of `id` are sealed and have reported completely, but its merge is not complete. */
  predicate Lacking(s: State, id: nat) {
    && id in s.filters && AllComplete(s.filters[id].producers, s.sealed)
    && !(s.filters[id].merged.Some? && s.filters[id].merged.value.complete)
  }

  /** A new merged filter of `id` is to be sent to `key`: a connected consumer that does not produce it. */
  predicate Addressed(s: State, id: nat, key: TaskKey) {
    && id in s.filters && key in s.filters[id].consumers
    && key !in s.filters[id].producers && key in s.senders
  }

  function Sealed(s: State, stage: nat): (t: State) {
    s.(sealed := s.sealed + {stage})
  }

  ghost predicate SoundlyMerged(cat: Catalog, s: State) {
    && Safe(cat, s)
    && forall id | id in s.filters ::
         MergedSound(cat.mode(id), s.filters[id].producers, s.sealed, s.filters[id].merged)
  }

  // ---------------------------------------------------------------- one filter's turn

  /** After sound merging, only completion is left to do. */
  lemma MergesIffIncomplete(mode: Policy, reports: Reports, sealed: set<nat>, merged: Option<Snapshot>)
    requires MergedSound(mode, reports, sealed, merged)
    ensures var m := Merge(reports, sealed, mode, merged);
            && (m.Some? <==> AllComplete(reports, sealed) && !(merged.Some? && merged.value.complete))
            && (m.Some? ==> m.value.complete)
  {
    if AllComplete(reports, sealed) {
      AllCompleteReported(reports, sealed);
    }
  }

  lemma MergesIffLacking(cat: Catalog, s: State, id: nat)
    requires SoundlyMerged(cat, s)
    ensures var r := MergeFilter(s, id);
            && (r.1 <==> Lacking(s, id))
            && (forall i :: Lacking(r.0, i) <==> i != id && Lacking(s, i))
  {
    if id in s.filters {
      assert FilterOk(cat, id, s.filters[id]);
      MergesIffIncomplete(cat.mode(id), s.filters[id].producers, s.sealed, s.filters[id].merged);
    }
  }

  /** The same filters, wired alike, with the same tasks connected. */
  ghost predicate Alike(s: State, t: State) {
    SameWiring(s.filters, t.filters) && t.sealed == s.sealed && t.senders.Keys == s.senders.Keys
  }

  /** A turn completes its filter and leaves the others alone, whether or not its sends succeed. */
  lemma TurnCompletes(cat: Catalog, s: State, id: nat, order: Walk)
    requires SoundlyMerged(cat, s)
    ensures var t := MergeAndDispatch(s, id, order).state;
            && SoundlyMerged(cat, t) && Alike(s, t) && (s.finished ==> t.finished)
            && forall i :: Lacking(t, i) <==> i != id && Lacking(s, i)
  {
    MergeAndDispatchKeeps(cat, s, id, order);
    MergeEffect(cat, s, id, order);
    MergesIffLacking(cat, s, id);
    var m, t := MergeFilter(s, id).0, MergeAndDispatch(s, id, order).state;
    forall i | i in t.filters
      ensures MergedSound(cat.mode(i), t.filters[i].producers, t.sealed, t.filters[i].merged)
    {
      if i == id {
        assert FilterOk(cat, id, s.filters[id]);
        RemergeSound(cat.mode(id), s.filters[id].producers, s.sealed, s.filters[id].merged);
      }
    }
    assert forall i :: Lacking(t, i) <==> Lacking(m, i);
  }

  /** A turn's walk meets a closed channel on which it has something to send. */
  ghost predicate Meets(s: State, id: nat, order: Walk, key: TaskKey) {
    Addressed(s, id, key) && exists i | 0 <= i < |order.attempts| :: order.attempts[i] == Attempt(key, Gone(false))
  }

  lemma {:induction false} SendAllFailsOnlyIf(s: State, id: nat, u: Update, attempts: seq<Attempt>)
    requires id in s.filters && u.id == id && SendAll(s, id, u, attempts).outcome.Err?
    ensures exists i | 0 <= i < |attempts| ::
              attempts[i].found == Gone(false) && !Skipped(s, id, attempts[i].key)
    decreases |attempts|
  {
    var key := attempts[0].key;
    if Skipped(s, id, key) || attempts[0].found == Listening {
      var next := if Skipped(s, id, key) then s else Send(s, key, u);
      SendAllFailsOnlyIf(next, id, u, attempts[1..]);
      var i :| 0 <= i < |attempts[1..]| && attempts[1..][i].found == Gone(false)
               && !Skipped(next, id, attempts[1..][i].key);
      assert attempts[i + 1] == attempts[1..][i];
    }
  }

  lemma TurnFailsOnlyIf(cat: Catalog, s: State, id: nat, order: Walk)
    requires SoundlyMerged(cat, s) && MergeAndDispatch(s, id, order).outcome.Err?
    requires id in s.filters ==> Enumerates(order, s.filters[id].consumers)
    ensures !s.finished && Lacking(s, id) && exists key :: Meets(s, id, order, key)
  {
    MergesIffLacking(cat, s, id);
    MergeFilterKeeps(cat, s, id);
    var t := MergeFilter(s, id).0;
    assert FilterOk(cat, id, t.filters[id]);
    SendAllFailsOnlyIf(t, id, Update(id, t.filters[id].mergedBytes.value, t.filters[id].schema.value), order.attempts);
    var i :| 0 <= i < |order.attempts| && order.attempts[i].found == Gone(false)
             && !Skipped(t, id, order.attempts[i].key);
    assert Walks(order, order.attempts[i].key);
    assert Meets(s, id, order, order.attempts[i].key);
  }

  // ---------------------------------------------------------------- what a seal leaves behind

  /** Some turn of the walk fails, on a consumer `key` of a filter `id` that the walk completes. */
  ghost predicate FailsAt(s: State, sched: Schedule, i: nat, key: TaskKey) {
    i < |sched| && Lacking(s, sched[i].0) && Meets(s, sched[i].0, sched[i].1, key)
  }

  /** A walk completes every filter it visits, and no other. */
  lemma {:induction false} WalkCompletes(cat: Catalog, s: State, sched: Schedule)
    requires SoundlyMerged(cat, s)
    ensures var r := MergeEach(s, sched);
            && (forall id | Lacking(r.state, id) :: Lacking(s, id))
            && (r.outcome == Ok ==> forall id | Lacking(r.state, id) :: id !in Ids(sched))
    decreases |sched|
  {
    if sched != [] {
      var r, rest := MergeAndDispatch(s, sched[0].0, sched[0].1), sched[1..];
      TurnCompletes(cat, s, sched[0].0, sched[0].1);
      if r.outcome == Ok {
        assert forall i | 0 <= i < |rest| :: rest[i] == sched[i + 1];
        WalkCompletes(cat, r.state, rest);
        assert forall id | id in Ids(sched) :: id == sched[0].0 || id in Ids(rest);
      }
    }
  }

  lemma RestWalkable(s: State, t: State, sched: Schedule)
    requires Alike(s, t) && Walkable(sched, s.filters) && sched != []
    ensures Walkable(sched[1..], t.filters)
  {
    forall i | 0 <= i < |sched[1..]|
      ensures sched[1..][i].0 in t.filters && Enumerates(sched[1..][i].1, t.filters[sched[1..][i].0].consumers)
    {
      assert sched[1..][i] == sched[i + 1];
    }
  }

  lemma FailsLater(s: State, t: State, sched: Schedule, i: nat, key: TaskKey)
    requires sched != [] && Alike(s, t) && FailsAt(t, sched[1..], i, key) && Lacking(s, sched[1..][i].0)
    ensures FailsAt(s, sched, i + 1, key)
  {
    assert sched[1..][i] == sched[i + 1];
  }

  /** A walk that fails does so on a filter it completes. */
  lemma {:induction false} FailingTurn(cat: Catalog, s: State, sched: Schedule) returns (i: nat, key: TaskKey)
    requires SoundlyMerged(cat, s) && Walkable(sched, s.filters) && MergeEach(s, sched).outcome != Ok
    ensures !s.finished && FailsAt(s, sched, i, key) && !Lacking(MergeEach(s, sched).state, sched[i].0)
    decreases |sched|
  {
    var r, rest := MergeAndDispatch(s, sched[0].0, sched[0].1), sched[1..];
    TurnCompletes(cat, s, sched[0].0, sched[0].1);
    if r.outcome == Ok {
      RestWalkable(s, r.state, sched);
      i, key := FailingTurn(cat, r.state, rest);
      FailsLater(s, r.state, sched, i, key);
      i := i + 1;
    } else {
      TurnFailsOnlyIf(cat, s, sched[0].0, sched[0].1);
      i := 0;
      key :| Meets(s, sched[0].0, sched[0].1, key);
    }
  }

  // ---------------------------------------------------------------- when a seal is sure to complete all

  /** No channel but those of `closed` is found closed while the query runs. */
  ghost predicate ClosedWithin(sched: Schedule, closed: set<TaskKey>) {
    forall i, j | 0 <= i < |sched| && 0 <= j < |sched[i].1.attempts| ::
      sched[i].1.attempts[j].found == Gone(false) ==> sched[i].1.attempts[j].key in closed
  }

  /** Completing `a` is announced on a channel of `closed`, and `b` is to be completed too. */
  predicate InDanger(s: State, closed: set<TaskKey>, a: nat, b: nat) {
    a != b && Lacking(s, a) && Lacking(s, b) && exists key | key in closed :: Addressed(s, a, key)
  }

  lemma LeftBehindIsInDanger(cat: Catalog, s: State, sched: Schedule, closed: set<TaskKey>, b: nat)
    returns (a: nat)
    requires SoundlyMerged(cat, s) && Covers(sched, s.filters) && ClosedWithin(sched, closed)
    requires Lacking(MergeEach(s, sched).state, b)
    ensures !s.finished && InDanger(s, closed, a, b)
  {
    WalkCompletes(cat, s, sched);
    var i, key := FailingTurn(cat, s, sched);
    a := sched[i].0;
    var j :| 0 <= j < |sched[i].1.attempts| && sched[i].1.attempts[j] == Attempt(key, Gone(false));
    assert key in closed;
  }

  /** The walk that finds exactly the channels of `closed` closed. */
  ghost function WalkTo(keys: set<TaskKey>, closed: set<TaskKey>): (order: Walk) {
    var q := SortedKeys(keys);
    Walk(false, seq(|q|, i requires 0 <= i < |q| => Attempt(q[i], if q[i] in closed then Gone(false) else Listening)))
  }

  lemma WalkToEnumerates(keys: set<TaskKey>, closed: set<TaskKey>)
    ensures Enumerates(WalkTo(keys, closed), keys)
  {
    var q := SortedKeys(keys);
    forall k | k in keys ensures Walks(WalkTo(keys, closed), k) {
      var i :| 0 <= i < |q| && q[i] == k;
      assert WalkTo(keys, closed).attempts[i].key == k;
    }
  }

  /** The walk `sched` with a turn of `id` before it. */
  ghost function Before(filters: map<nat, Filter>, closed: set<TaskKey>, id: nat, sched: Schedule): (r: Schedule)
    requires id in filters
  {
    [(id, WalkTo(filters[id].consumers, closed))] + sched
  }

  lemma BeforeFits(filters: map<nat, Filter>, closed: set<TaskKey>, id: nat, sched: Schedule)
    requires id in filters && Walkable(sched, filters) && ClosedWithin(sched, closed)
    ensures var r := Before(filters, closed, id, sched);
            Walkable(r, filters) && ClosedWithin(r, closed) && Ids(r) == {id} + Ids(sched)
  {
    var r := Before(filters, closed, id, sched);
    WalkToEnumerates(filters[id].consumers, closed);
    assert r[0].0 == id;
    forall i | i in Ids(sched) ensures i in Ids(r) {
      var j :| 0 <= j < |sched| && sched[j].0 == i;
      assert r[j + 1] == sched[j];
    }
  }

  lemma {:induction false} SomeWalk(filters: map<nat, Filter>, closed: set<TaskKey>, ids: set<nat>)
    returns (sched: Schedule)
    requires ids <= filters.Keys
    ensures Walkable(sched, filters) && ClosedWithin(sched, closed) && Ids(sched) == ids
    decreases |ids|
  {
    sched := [];
    if ids != {} {
      var id :| id in ids;
      var rest := SomeWalk(filters, closed, ids - {id});
      BeforeFits(filters, closed, id, rest);
      sched := Before(filters, closed, id, rest);
    }
  }

  lemma {:induction false} SendAllFails(s: State, id: nat, u: Update, attempts: seq<Attempt>, closed: set<TaskKey>,
                                        key: TaskKey)
    requires id in s.filters && u.id == id && key in closed && !Skipped(s, id, key)
    requires forall a | a in attempts :: a.found == if a.key in closed then Gone(false) else Listening
    requires exists i | 0 <= i < |attempts| :: attempts[i].key == key
    ensures SendAll(s, id, u, attempts).outcome.Err?
    decreases |attempts|
  {
    var i :| 0 <= i < |attempts| && attempts[i].key == key;
    var first := attempts[0];
    assert first in attempts;
    if Skipped(s, id, first.key) || first.found == Listening {
      assert attempts[1..][i - 1] == attempts[i];
      assert forall a | a in attempts[1..] :: a in attempts;
      SendAllFails(if Skipped(s, id, first.key) then s else Send(s, first.key, u), id, u, attempts[1..], closed, key);
    }
  }

  lemma TurnFails(cat: Catalog, s: State, id: nat, closed: set<TaskKey>, key: TaskKey)
    requires SoundlyMerged(cat, s) && !s.finished && Lacking(s, id) && Addressed(s, id, key) && key in closed
    ensures MergeAndDispatch(s, id, WalkTo(s.filters[id].consumers, closed)).outcome.Err?
  {
    MergesIffLacking(cat, s, id);
    MergeFilterKeeps(cat, s, id);
    var t := MergeFilter(s, id).0;
    var order := WalkTo(s.filters[id].consumers, closed);
    WalkToEnumerates(s.filters[id].consumers, closed);
    assert Walks(order, key);
    assert FilterOk(cat, id, t.filters[id]);
    SendAllFails(t, id, Update(id, t.filters[id].mergedBytes.value, t.filters[id].schema.value), order.attempts,
                 closed, key);
  }

  /** A walk that leaves `b` behind: it starts with `a`. */
  lemma DangerIsReal(cat: Catalog, s: State, closed: set<TaskKey>, a: nat, b: nat) returns (sched: Schedule)
    requires SoundlyMerged(cat, s) && !s.finished && InDanger(s, closed, a, b)
    ensures Covers(sched, s.filters) && ClosedWithin(sched, closed) && Lacking(MergeEach(s, sched).state, b)
  {
    var rest := SomeWalk(s.filters, closed, s.filters.Keys - {a});
    BeforeFits(s.filters, closed, a, rest);
    sched := Before(s.filters, closed, a, rest);
    var key :| key in closed && Addressed(s, a, key);
    TurnFails(cat, s, a, closed, key);
    TurnCompletes(cat, s, a, sched[0].1);
    assert MergeEach(s, sched) == MergeAndDispatch(s, a, sched[0].1);
  }

  /** Every merged filter is what its policy says about the current reports. */
  ghost predicate AllSpecified(s: State) {
    forall id | id in s.filters ::
      MergedExact(ModeIn(s, id), s.filters[id].producers, s.sealed, s.filters[id].merged)
  }

  lemma SpecifiedAfterSeal(stage: nat -> nat, es: seq<Event>, sealing: nat, sched: Schedule)
    requires Ordered(stage, Start, es) && Covers(sched, RunFrom(Start, es).state.filters)
    ensures var t := SealStage(RunFrom(Start, es).state, sealing, sched).state;
            AllSpecified(t) <==> forall id :: !Lacking(t, id)
  {
    var e := StageSealed(sealing, sched);
    RunAppends(stage, Start, es, e);
    var t := RunFrom(Start, es + [e]).state;
    forall id | id in t.filters
      ensures MergedExact(ModeIn(t, id), t.filters[id].producers, t.sealed, t.filters[id].merged) <==> !Lacking(t, id)
    {
      SpecifiedIffCaughtUp(stage, es + [e], id);
    }
  }

  lemma SealedIsSoundlyMerged(stage: nat -> nat, es: seq<Event>, sealing: nat)
    requires Ordered(stage, Start, es)
    ensures var s := RunFrom(Start, es).state; SoundlyMerged(CatalogOf(stage, s), Sealed(s, sealing))
  {
    RunHolds(stage, es);
    var s := RunFrom(Start, es).state;
    var cat, t := CatalogOf(stage, s), Sealed(s, sealing);
    SealKeepsSafe(cat, s, sealing);
    forall id | id in t.filters
      ensures MergedSound(cat.mode(id), t.filters[id].producers, t.sealed, t.filters[id].merged)
    {
      assert SoundAt(cat, s, History(Start, es), id);
      SealKeepsSound(cat.mode(id), s.filters[id].producers, s.sealed, s.filters[id].merged, t.sealed);
    }
  }

  /** Exactly when a seal leaves every filter as specified, in whatever order it walks them, if it may
      find only the channels of `closed` closed: unless it has two filters to complete, one of them for
      a consumer in `closed`. */
  lemma SealCompletesIffNoDanger(stage: nat -> nat, es: seq<Event>, sealing: nat, closed: set<TaskKey>)
    requires Ordered(stage, Start, es)
    ensures var s := RunFrom(Start, es).state;
            (forall sched | Covers(sched, s.filters) && ClosedWithin(sched, closed) ::
               AllSpecified(SealStage(s, sealing, sched).state))
            <==> s.finished || forall a, b :: !InDanger(Sealed(s, sealing), closed, a, b)
  {
    var s := RunFrom(Start, es).state;
    var cat, t := CatalogOf(stage, s), Sealed(s, sealing);
    SealedIsSoundlyMerged(stage, es, sealing);
    if s.finished || forall a, b :: !InDanger(t, closed, a, b) {
      forall sched | Covers(sched, s.filters) && ClosedWithin(sched, closed)
        ensures AllSpecified(SealStage(s, sealing, sched).state)
      {
        SpecifiedAfterSeal(stage, es, sealing, sched);
        if b :| Lacking(SealStage(s, sealing, sched).state, b) {
          var a := LeftBehindIsInDanger(cat, t, sched, closed, b);
          assert false;
        }
      }
    } else {
      var a, b :| InDanger(t, closed, a, b);
      var sched := DangerIsReal(cat, t, closed, a, b);
      SpecifiedAfterSeal(stage, es, sealing, sched);
    }
  }
}
