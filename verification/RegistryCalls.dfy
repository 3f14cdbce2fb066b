/** What single calls do, stated on the states before and after them. */
module RegistryCalls {
  import opened Wrappers
  import opened DynamicFilters
  import opened RegistrySteps
  import opened RegistryRuns
  import opened RegistrySchedules

  // ---------------------------------------------------------------- one report

  /** The task is a producer of the filter. */
  predicate IsProducer(s: State, key: TaskKey, id: nat) {
    id in s.filters && key in s.filters[id].producers
  }

  /** Exactly when a report is rejected, and with which error; a rejected report changes nothing. */
  lemma RejectedReports(s: State, key: TaskKey, report: Report, order: Walk)
    ensures var r := RecordUpdate(s, key, report, order);
            var rejected := !WellFormed(report) || !IsProducer(s, key, report.id);
            && (rejected ==> r.state == s && r.outcome.Err?)
            && (r.outcome == Err(MismatchedId) <==> report.exprId != Some(report.id))
            && (r.outcome == Err(NotADynamicFilter) <==>
                  report.exprId == Some(report.id) && report.payload.OtherExpr?)
            && (r.outcome == Err(MissingPredicate) <==>
                  && report.exprId == Some(report.id)
                  && report.payload.DynamicFilter? && report.payload.snapshot.inner.None?)
            && (r.outcome == Err(UnregisteredFilter) <==> WellFormed(report) && report.id !in s.filters)
            && (r.outcome == Err(NotAProducer) <==>
                  WellFormed(report) && report.id in s.filters && key !in s.filters[report.id].producers)
  {
    if Stored(s, key, report) {
      MergeOutcomes(StoreReport(s, key, report.id, report.payload.snapshot), report.id, order);
    }
  }

  lemma {:induction false} SendOutcomes(s: State, id: nat, u: Update, attempts: seq<Attempt>)
    requires id in s.filters && u.id == id
    ensures SendAll(s, id, u, attempts).outcome in {Ok, Err(ChannelClosed)}
    decreases |attempts|
  {
    if attempts != [] {
      if Skipped(s, id, attempts[0].key) {
        SendOutcomes(s, id, u, attempts[1..]);
      } else if attempts[0].found == Listening {
        SendOutcomes(Send(s, attempts[0].key, u), id, u, attempts[1..]);
      }
    }
  }

  lemma MergeOutcomes(s: State, id: nat, order: Walk)
    ensures MergeAndDispatch(s, id, order).outcome in {Ok, Err(ChannelClosed), Err(MissingSchema)}
  {
    var t := MergeFilter(s, id).0;
    if id in t.filters && t.filters[id].mergedBytes.Some? && t.filters[id].schema.Some? {
      SendOutcomes(t, id, Update(id, t.filters[id].mergedBytes.value, t.filters[id].schema.value), order.attempts);
    }
  }

  /** A report after the task's complete one, a repeated one, and an incomplete one where only complete ones
      count, are taken without effect. */
  lemma IgnoredReports(s: State, key: TaskKey, report: Report, order: Walk)
    requires WellFormed(report) && IsProducer(s, key, report.id)
    requires var x, before := report.payload.snapshot, s.filters[report.id].producers[key];
             || (before.Some? && before.value.complete) || before == Some(x)
             || (!x.complete && s.filters[report.id].mode != Some(IntersectOnUpdate))
    ensures RecordUpdate(s, key, report, order) == Stepped(s, Ok)
  {
  }

  // ---------------------------------------------------------------- a finished query

  /** The channels of `s` with nothing sent since. */
  ghost predicate NothingSent(s: State, t: State) {
    && t.finished && t.senders.Keys == s.senders.Keys
    && forall key | key in s.senders :: t.senders[key].log == s.senders[key].log
  }

  lemma {:induction false} WalksSendNothing(s: State, sched: Schedule)
    requires s.finished
    ensures NothingSent(s, DispatchEach(s, sched).state) && DispatchEach(s, sched).outcome == Ok
    ensures NothingSent(s, MergeEach(s, sched).state) && MergeEach(s, sched).outcome == Ok
    decreases |sched|
  {
    if sched != [] {
      WalksSendNothing(Dispatch(s, sched[0].0, sched[0].1).state, sched[1..]);
      WalksSendNothing(MergeAndDispatch(s, sched[0].0, sched[0].1).state, sched[1..]);
    }
  }

  lemma {:induction false} RegistrationConnects(s: State, key: TaskKey, produced: seq<Produced>, consumed: seq<nat>)
    ensures var r := RegisterTask(s, key, produced, consumed);
            r.state.senders == s.senders && r.state.sealed == s.sealed && r.outcome != Err(ChannelClosed)
    decreases |produced| + |consumed|
  {
    if produced != [] {
      var r := RegisterProducer(s, key, produced[0]);
      if r.outcome == Ok {
        RegistrationConnects(r.state, key, produced[1..], consumed);
      }
    } else if consumed != [] {
      RegistrationConnects(RegisterConsumer(s, key, consumed[0]), key, [], consumed[1..]);
    }
  }

  /** Once the query has finished no call sends anything and no call meets a closed channel. */
  lemma NothingSentAfterFinish(s: State, e: Event)
    requires s.finished
    ensures var r := Step(s, e);
            && r.outcome != Err(ChannelClosed)
            && NothingSent(if e.SenderRegistered? then Connect(s, e.key) else s, r.state)
  {
    match e {
      case TaskRegistered(key, produced, consumed) =>
        RegistrationConnects(s, key, produced, consumed);
        RegistrationKeepsFinished(s, key, produced, consumed);
      case SenderRegistered(key, sched) => WalksSendNothing(Connect(s, key), sched);
      case StageSealed(stage, sched) => WalksSendNothing(s.(sealed := s.sealed + {stage}), sched);
      case UpdateReceived(key, report, order) =>
      case QueryFinished =>
    }
  }

  // ---------------------------------------------------------------- one dispatch

  /** A walk of a hash set meets each key once. */
  predicate Once(attempts: seq<Attempt>) {
    forall i, j | 0 <= i < j < |attempts| :: attempts[i].key != attempts[j].key
  }

  /** The filter is still to be sent to `key`: connected, not a producer of it, and not sent it yet. */
  predicate Owed(s: State, id: nat, key: TaskKey)
    requires id in s.filters
  {
    key in s.senders && key !in s.filters[id].producers && (id, key) !in s.delivered
  }

  /** The walk gets past its first `n` turns: every owed consumer among them is listening. */
  predicate GetsPast(s: State, id: nat, attempts: seq<Attempt>, n: int)
    requires id in s.filters && 0 <= n <= |attempts|
  {
    forall i | 0 <= i < n :: Owed(s, id, attempts[i].key) ==> attempts[i].found == Listening
  }

  /** The walk reaches `key`'s turn, finds it owed and finds it listening. */
  predicate Reaches(s: State, id: nat, attempts: seq<Attempt>, key: TaskKey)
    requires id in s.filters
  {
    exists i | 0 <= i < |attempts| ::
      attempts[i] == Attempt(key, Listening) && Owed(s, id, key) && GetsPast(s, id, attempts, i)
  }

  /** The walk reaches an owed consumer and finds its receiver gone. */
  predicate Blocks(s: State, id: nat, attempts: seq<Attempt>, shutdown: bool)
    requires id in s.filters
  {
    exists i | 0 <= i < |attempts| ::
      attempts[i].found == Gone(shutdown) && Owed(s, id, attempts[i].key) && GetsPast(s, id, attempts, i)
  }

  lemma LaterPast(s: State, t: State, id: nat, attempts: seq<Attempt>, i: int)
    requires id in s.filters && t.filters == s.filters && 0 < i <= |attempts|
    requires Owed(s, id, attempts[0].key) ==> attempts[0].found == Listening
    requires forall j | 0 < j < |attempts| :: Owed(t, id, attempts[j].key) <==> Owed(s, id, attempts[j].key)
    ensures GetsPast(s, id, attempts, i) <==> GetsPast(t, id, attempts[1..], i - 1)
  {
    assert forall j | 0 < j < i :: attempts[1..][j - 1] == attempts[j];
  }

  /** Past the first turn, the rest of the walk decides. */
  lemma LaterTurns(s: State, t: State, id: nat, attempts: seq<Attempt>, key: TaskKey, shutdown: bool)
    requires id in s.filters && t.filters == s.filters && attempts != []
    requires Owed(s, id, attempts[0].key) ==> attempts[0].found == Listening
    requires forall j | 0 < j < |attempts| :: Owed(t, id, attempts[j].key) <==> Owed(s, id, attempts[j].key)
    requires Once(attempts) && key != attempts[0].key
    ensures Reaches(s, id, attempts, key) <==> Reaches(t, id, attempts[1..], key)
    ensures Blocks(s, id, attempts, shutdown) <==> Blocks(t, id, attempts[1..], shutdown)
  {
    var rest := attempts[1..];
    forall i | 0 < i < |attempts|
      ensures GetsPast(s, id, attempts, i) <==> GetsPast(t, id, rest, i - 1)
      ensures rest[i - 1] == attempts[i]
    {
      LaterPast(s, t, id, attempts, i);
    }
    if i :| 0 <= i < |rest| && rest[i] == Attempt(key, Listening) && Owed(t, id, key) && GetsPast(t, id, rest, i) {
      assert attempts[i + 1] == rest[i];
    }
    if i :| 0 <= i < |rest| && rest[i].found == Gone(shutdown) && Owed(t, id, rest[i].key) && GetsPast(t, id, rest, i) {
      assert attempts[i + 1] == rest[i];
    }
  }

  /** What a walk leaves of `s`: exactly the consumers it reaches have been sent `u`, once; it fails exactly
      if it is blocked while the query runs, and ends the query exactly if it is blocked by the shutdown. */
  ghost predicate SentAlong(s: State, r: Stepped, id: nat, u: Update, attempts: seq<Attempt>)
    requires id in s.filters
  {
    && r.state.filters == s.filters && r.state.senders.Keys == s.senders.Keys
    && (forall key | key in s.senders ::
          r.state.senders[key].log == s.senders[key].log + if Reaches(s, id, attempts, key) then [u] else [])
    && (forall key :: (id, key) in r.state.delivered <==> (id, key) in s.delivered || Reaches(s, id, attempts, key))
    && r.outcome == (if Blocks(s, id, attempts, false) then Err(ChannelClosed) else Ok)
    && r.state.finished == (s.finished || Blocks(s, id, attempts, true))
  }

  lemma {:induction false} WalkSends(s: State, id: nat, u: Update, attempts: seq<Attempt>)
    requires id in s.filters && u.id == id && Once(attempts)
    ensures SentAlong(s, SendAll(s, id, u, attempts), id, u, attempts)
    decreases |attempts|
  {
    if attempts != [] {
      var first, rest := attempts[0], attempts[1..];
      if !Owed(s, id, first.key) || first.found == Listening {
        var t := if Owed(s, id, first.key) then Send(s, first.key, u) else s;
        assert forall i | 0 <= i < |rest| :: rest[i] == attempts[i + 1];
        WalkSends(t, id, u, rest);
        FirstTurnSends(s, t, id, u, attempts);
      } else {
        BlockedAtOnce(s, id, attempts);
      }
    }
  }

  lemma BlockedAtOnce(s: State, id: nat, attempts: seq<Attempt>)
    requires id in s.filters && attempts != [] && Owed(s, id, attempts[0].key) && attempts[0].found.Gone?
    ensures forall key :: !Reaches(s, id, attempts, key)
    ensures forall shutdown :: Blocks(s, id, attempts, shutdown) <==> attempts[0].found == Gone(shutdown)
  {
    forall i | 0 < i < |attempts| ensures !GetsPast(s, id, attempts, i) {
      assert attempts[0].found != Listening;
    }
    assert GetsPast(s, id, attempts, 0);
  }

  /** One turn, and then the rest of the walk. */
  lemma FirstTurnSends(s: State, t: State, id: nat, u: Update, attempts: seq<Attempt>)
    requires id in s.filters && u.id == id && Once(attempts) && attempts != []
    requires Owed(s, id, attempts[0].key) ==> attempts[0].found == Listening
    requires t == if Owed(s, id, attempts[0].key) then Send(s, attempts[0].key, u) else s
    requires SentAlong(t, SendAll(t, id, u, attempts[1..]), id, u, attempts[1..])
    ensures SentAlong(s, SendAll(s, id, u, attempts), id, u, attempts)
  {
    var first, rest := attempts[0], attempts[1..];
    assert forall j | 0 < j < |attempts| :: attempts[j].key != first.key;
    assert forall j | 0 < j < |attempts| :: Owed(t, id, attempts[j].key) <==> Owed(s, id, attempts[j].key);
    assert forall i | 0 <= i < |rest| :: rest[i] == attempts[i + 1];
    assert !Reaches(t, id, rest, first.key);
    assert GetsPast(s, id, attempts, 0);
    assert Reaches(s, id, attempts, first.key) <==> Owed(s, id, first.key);
    forall key, shutdown | key != first.key
      ensures Reaches(s, id, attempts, key) <==> Reaches(t, id, rest, key)
      ensures Blocks(s, id, attempts, shutdown) <==> Blocks(t, id, rest, shutdown)
    {
      LaterTurns(s, t, id, attempts, key, shutdown);
    }
    var other := TaskKey(first.key.stage + 1, 0);
    LaterTurns(s, t, id, attempts, other, true);
    LaterTurns(s, t, id, attempts, other, false);
  }

  /** One dispatch of a merged filter while the query runs. */
  lemma DispatchSends(s: State, id: nat, order: Walk)
    requires !s.finished && !order.finished && Once(order.attempts)
    requires id in s.filters && s.filters[id].mergedBytes.Some? && s.filters[id].schema.Some?
    ensures var f := s.filters[id];
            SentAlong(s, Dispatch(s, id, order), id, Update(id, f.mergedBytes.value, f.schema.value), order.attempts)
  {
    var f := s.filters[id];
    WalkSends(s, id, Update(id, f.mergedBytes.value, f.schema.value), order.attempts);
  }
}
