/** Where the registry's promises end: two concrete runs. */
module RegistryLimits {
  import opened Wrappers
  import opened DynamicFilters
  import opened RegistrySteps
  import opened RegistryInvariant
  import opened RegistryPreservation
  import opened RegistryRuns
  import opened RegistryCatalog
  import opened RegistryTheorems
  import opened RegistrySchedules

  function Complete(name: nat): (s: Snapshot) {
    Snapshot(Some(Atom(name)), true, 0, 0)
  }

  function ReportOf(id: nat, name: nat): (r: Report) {
    Report(id, Some(id), DynamicFilter(Complete(name)))
  }

  /** All filters of these runs are produced in stage 1. */
  function Stages(): (stage: nat -> nat) {
    (id: nat) => 1
  }

  /** The walk of a filter without consumers. */
  const Nobody := Walk(false, [])

  /** The walk of a filter whose only consumer is the second stage's task. */
  function ToConsumer(found: Receiver): (order: Walk) {
    Walk(false, [Attempt(TaskKey(2, 0), found)])
  }

  lemma OnlyConsumer(found: Receiver)
    ensures Enumerates(ToConsumer(found), {TaskKey(2, 0)}) && Enumerates(Nobody, {})
  {
    assert ToConsumer(found).attempts[0].key == TaskKey(2, 0);
  }

  lemma Unfold(r: Run, e: Event, es: seq<Event>)
    ensures RunFrom(r, [e] + es) == RunFrom(Advance(r, e), es)
    ensures Ordered(Stages(), r, [e] + es) <==> InOrder(Stages(), r.state, e) && Ordered(Stages(), Advance(r, e), es)
  {
    assert ([e] + es)[1..] == es;
  }

  // ---------------------------------------------------------------- forwarding depends on the order

  /** A filter forwarded from the first complete report, with two producer tasks registered. */
  function TwoProducers(): (s: State) {
    var producers: Reports := map[TaskKey(1, 0) := None, TaskKey(1, 1) := None];
    State(map[0 := Filter(producers, {}, Some(ForwardFirstComplete), Some(0), None, None)], {}, map[], {}, false)
  }

  function Join(task: nat): (e: Event) {
    TaskRegistered(TaskKey(1, task), [Produced(0, CollectLeftHashJoin, 0)], [])
  }

  function Said(task: nat): (e: Event) {
    UpdateReceived(TaskKey(1, task), ReportOf(0, task), Nobody)
  }

  lemma BothRegister()
    ensures Advance(Advance(Start, Join(0)), Join(1)) == Run(TwoProducers(), true, true)
  {
    var k0, k1, p := TaskKey(1, 0), TaskKey(1, 1), Produced(0, CollectLeftHashJoin, 0);
    var f := Filter(map[k0 := None], {}, Some(ForwardFirstComplete), Some(0), None, None);
    var s := State(map[0 := f], {}, map[], {}, false);
    assert [p][1..] == [];
    assert RegisterProducers(InitialState, k0, [p]) == Stepped(s, Ok);
    assert RegisterProducers(s, k1, [p]) == Stepped(TwoProducers(), Ok);
  }

  lemma MergeOfOne(reports: Reports, k: TaskKey, mode: Policy)
    requires ReportedKeys(reports) == {k} && reports[k].value.inner.Some?
    ensures MergeKeys(reports, mode) == [k] && MergedPredicate(reports, mode) == reports[k].value.inner
  {
    var q := SortedKeys({k});
    assert |q| == 1 && q[0] in q && q == [k];
    assert [k][1..] == [];
    assert Predicates(reports, [k]) == [reports[k].value.inner.value];
  }

  /** From two registered producers, the first complete report is forwarded and stays. */
  lemma FirstIsForwarded(task: nat, other: nat)
    requires task < 2 && other < 2 && task != other
    ensures var r := Advance(Advance(Run(TwoProducers(), true, true), Said(task)), Said(other));
            r.clean && r.sealsSucceeded && MergedOf(r.state, 0) == Some(Complete(task))
  {
    var s, k, j := TwoProducers(), TaskKey(1, task), TaskKey(1, other);
    var f := s.filters[0].(producers := s.filters[0].producers[k := Some(Complete(task))]);
    var stored := StoreReport(s, k, 0, Complete(task));
    assert stored.filters == map[0 := f];
    assert ReportedKeys(f.producers) == {k};
    MergeOfOne(f.producers, k, ForwardFirstComplete);
    var g := f.(merged := Some(Complete(task)), mergedBytes := Some(Encoded(0, Complete(task))));
    var t := Step(s, Said(task)).state;
    assert t.filters == map[0 := g] && t.senders == map[];
    assert g.producers[j] == None;
    assert Step(t, Said(other)).state.filters[0].merged == g.merged;
  }

  /** Both tasks register, then both report, the given one first. */
  function ReportsInOrder(first: nat, second: nat): (es: seq<Event>) {
    [Join(0)] + ([Join(1)] + ([Said(first)] + ([Said(second)] + [])))
  }

  lemma ReportsRun(first: nat, second: nat)
    requires first < 2 && second < 2 && first != second
    ensures Ordered(Stages(), Start, ReportsInOrder(first, second))
    ensures var r := RunFrom(Start, ReportsInOrder(first, second));
            r.clean && r.sealsSucceeded && MergedOf(r.state, 0) == Some(Complete(first))
  {
    var a := Advance(Start, Join(0));
    var b := Advance(a, Join(1));
    var c := Advance(b, Said(first));
    BothRegister();
    FirstIsForwarded(first, second);
    Unfold(Start, Join(0), [Join(1)] + ([Said(first)] + ([Said(second)] + [])));
    Unfold(a, Join(1), [Said(first)] + ([Said(second)] + []));
    Unfold(b, Said(first), [Said(second)] + []);
    Unfold(c, Said(second), []);
    assert c.state.filters[0].consumers == {};
  }

  lemma ReportsActions(first: nat, second: nat, key: TaskKey)
    requires first < 2 && second < 2 && first != second
    ensures Actions(ReportsInOrder(first, second), key) ==
            if key.stage == 1 && key.task < 2
            then [Registered([Produced(0, CollectLeftHashJoin, 0)]), Action.Reported(ReportOf(0, key.task))] else []
    ensures Seals(ReportsInOrder(first, second)) == {}
  {
    ActionsFirst(Join(0), [Join(1)] + ([Said(first)] + ([Said(second)] + [])), key);
    ActionsFirst(Join(1), [Said(first)] + ([Said(second)] + []), key);
    ActionsFirst(Said(first), [Said(second)] + [], key);
    ActionsFirst(Said(second), [], key);
  }

  lemma ActionsFirst(e: Event, es: seq<Event>, key: TaskKey)
    ensures Actions([e] + es, key) == ActionOf(e, key) + Actions(es, key)
    ensures Seals([e] + es) == (if e.StageSealed? then {e.stage} else {}) + Seals(es)
  {
    assert ([e] + es)[1..] == es;
  }

  /** A forwarded filter is the one policy whose result depends on the schedule: two interleavings of the
      same calls, both in the callers' order, leave different filters. */
  lemma ForwardingDependsOnSchedule()
    ensures var es, fs := ReportsInOrder(0, 1), ReportsInOrder(1, 0);
            && Ordered(Stages(), Start, es) && Ordered(Stages(), Start, fs) && Interleavings(es, fs)
            && RunFrom(Start, es).clean && RunFrom(Start, fs).clean
            && MergedOf(RunFrom(Start, es).state, 0) != MergedOf(RunFrom(Start, fs).state, 0)
  {
    ReportsRun(0, 1);
    ReportsRun(1, 0);
    forall key ensures Actions(ReportsInOrder(0, 1), key) == Actions(ReportsInOrder(1, 0), key) {
      ReportsActions(0, 1, key);
      ReportsActions(1, 0, key);
    }
    ReportsActions(0, 1, TaskKey(0, 0));
    ReportsActions(1, 0, TaskKey(0, 0));
  }

  // ---------------------------------------------------------------- a failed send cuts a seal short

  function Ready(id: nat, consumers: set<TaskKey>): (f: Filter) {
    Filter(map[TaskKey(1, 0) := Some(Complete(id))], consumers, Some(UnionWhenAllComplete), Some(0), None, None)
  }

  /** Two unions with complete reports that only wait for the seal; the first has a connected consumer. */
  function WaitingForSeal(): (s: State) {
    State(map[0 := Ready(0, {TaskKey(2, 0)}), 1 := Ready(1, {})], {}, map[TaskKey(2, 0) := Channel([])],
          {}, false)
  }

  function Asked(id: nat, consumers: set<TaskKey>): (f: Filter) {
    Filter(map[TaskKey(1, 0) := None], consumers, Some(UnionWhenAllComplete), Some(0), None, None)
  }

  /** The producer registers, then the consumer and its sender; then the producer reports both filters. */
  function Waiting(): (es: seq<Event>) {
    var k, c := TaskKey(1, 0), TaskKey(2, 0);
    [TaskRegistered(k, [Produced(0, OtherNode, 0), Produced(1, OtherNode, 0)], [])]
    + ([TaskRegistered(c, [], [0])]
       + ([SenderRegistered(c, [(0, ToConsumer(Listening)), (1, Nobody)])]
          + ([UpdateReceived(k, ReportOf(0, 0), ToConsumer(Listening))]
             + ([UpdateReceived(k, ReportOf(1, 1), Nobody)] + []))))
  }

  /** After both tasks registered. */
  function TasksRegistered(): (s: State) {
    State(map[0 := Asked(0, {TaskKey(2, 0)}), 1 := Asked(1, {})], {}, map[], {}, false)
  }

  lemma BothTasksRegister()
    ensures var k, c := TaskKey(1, 0), TaskKey(2, 0);
            var a := RegisterTask(InitialState, k, [Produced(0, OtherNode, 0), Produced(1, OtherNode, 0)], []);
            a.outcome == Ok && a.state.sealed == {} && a.state.senders == map[]
            && RegisterTask(a.state, c, [], [0]) == Stepped(TasksRegistered(), Ok)
  {
    var k, c := TaskKey(1, 0), TaskKey(2, 0);
    var p, q := Produced(0, OtherNode, 0), Produced(1, OtherNode, 0);
    var s1 := State(map[0 := Asked(0, {})], {}, map[], {}, false);
    var s2 := State(map[0 := Asked(0, {}), 1 := Asked(1, {})], {}, map[], {}, false);
    assert RegisterProducer(InitialState, k, p) == Stepped(s1, Ok) && RegisterProducer(s1, k, q) == Stepped(s2, Ok);
    assert [p, q][1..] == [q] && [q][1..] == [];
    assert RegisterProducers(s1, k, [q]) == Stepped(s2, Ok);
    assert RegisterProducers(InitialState, k, [p, q]) == Stepped(s2, Ok);
    assert Asked(0, {}).consumers + {c} == {c};
    assert RegisterConsumer(s2, c, 0).filters == TasksRegistered().filters;
    assert [0][1..] == [] && RegisterConsumers(RegisterConsumer(s2, c, 0), c, []) == TasksRegistered();
  }

  /** The registry once the consumer is connected, and after the first report. */
  function Connected(): (s: State) {
    TasksRegistered().(senders := map[TaskKey(2, 0) := Channel([])])
  }

  function FirstReported(): (s: State) {
    Connected().(filters := map[0 := Ready(0, {TaskKey(2, 0)}), 1 := Asked(1, {})])
  }

  lemma FirstReportIsStored()
    ensures RecordUpdate(Connected(), TaskKey(1, 0), ReportOf(0, 0), ToConsumer(Listening)) ==
            Stepped(FirstReported(), Ok)
  {
    var k, c := TaskKey(1, 0), TaskKey(2, 0);
    assert Asked(0, {c}).producers[k := Some(Complete(0))] == Ready(0, {c}).producers;
    assert StoreReport(Connected(), k, 0, Complete(0)).filters == FirstReported().filters;
    NotYetMerged(Connected(), 0, ToConsumer(Listening), FirstReported());
  }

  lemma SecondReportIsStored()
    ensures RecordUpdate(FirstReported(), TaskKey(1, 0), ReportOf(1, 1), Nobody) == Stepped(WaitingForSeal(), Ok)
  {
    var k := TaskKey(1, 0);
    assert Asked(1, {}).producers[k := Some(Complete(1))] == Ready(1, {}).producers;
    assert StoreReport(FirstReported(), k, 1, Complete(1)).filters == WaitingForSeal().filters;
    NotYetMerged(FirstReported(), 1, Nobody, WaitingForSeal());
  }

  lemma ReportsAreStored()
    ensures var k := TaskKey(1, 0);
            var a := RecordUpdate(Connected(), k, ReportOf(0, 0), ToConsumer(Listening));
            && a.outcome == Ok && 1 in a.state.filters && a.state.filters[1].consumers == {}
            && RecordUpdate(a.state, k, ReportOf(1, 1), Nobody) == Stepped(WaitingForSeal(), Ok)
  {
    FirstReportIsStored();
    SecondReportIsStored();
  }

  /** The state is reached by calls in the callers' order, none of which fails. */
  lemma WaitingIsReached()
    ensures Ordered(Stages(), Start, Waiting()) && RunFrom(Start, Waiting()) == Run(WaitingForSeal(), true, true)
  {
    var k, c := TaskKey(1, 0), TaskKey(2, 0);
    var sched: Schedule := [(0, ToConsumer(Listening)), (1, Nobody)];
    var e1 := TaskRegistered(k, [Produced(0, OtherNode, 0), Produced(1, OtherNode, 0)], []);
    var e2, e3 := TaskRegistered(c, [], [0]), SenderRegistered(c, sched);
    var e4, e5 := UpdateReceived(k, ReportOf(0, 0), ToConsumer(Listening)), UpdateReceived(k, ReportOf(1, 1), Nobody);
    var r1 := Advance(Start, e1);
    var r2 := Advance(r1, e2);
    var r3 := Advance(r2, e3);
    var r4 := Advance(r3, e4);
    BothTasksRegister();
    SenderIsConnected();
    ReportsAreStored();
    OnlyConsumer(Listening);
    Unfold(Start, e1, [e2] + ([e3] + ([e4] + ([e5] + []))));
    Unfold(r1, e2, [e3] + ([e4] + ([e5] + [])));
    Unfold(r2, e3, [e4] + ([e5] + []));
    Unfold(r3, e4, [e5] + []);
    Unfold(r4, e5, []);
  }

  lemma SenderIsConnected()
    ensures var c := TaskKey(2, 0);
            var sched: Schedule := [(0, ToConsumer(Listening)), (1, Nobody)];
            && Covers(sched, TasksRegistered().filters)
            && RegisterSender(TasksRegistered(), c, sched)
               == Stepped(TasksRegistered().(senders := map[c := Channel([])]), Ok)
  {
    var c := TaskKey(2, 0);
    var sched: Schedule := [(0, ToConsumer(Listening)), (1, Nobody)];
    var s4 := TasksRegistered().(senders := map[c := Channel([])]);
    assert Connect(TasksRegistered(), c) == s4;
    assert Dispatch(s4, 0, ToConsumer(Listening)) == Stepped(s4, Ok) && Dispatch(s4, 1, Nobody) == Stepped(s4, Ok);
    NothingToDispatch(s4);
    OnlyConsumer(Listening);
    assert sched[0].0 in Ids(sched) && sched[1].0 in Ids(sched);
  }

  lemma NothingToDispatch(s: State)
    requires Dispatch(s, 0, ToConsumer(Listening)) == Stepped(s, Ok) && Dispatch(s, 1, Nobody) == Stepped(s, Ok)
    ensures DispatchEach(s, [(0, ToConsumer(Listening)), (1, Nobody)]) == Stepped(s, Ok)
  {
    var sched: Schedule := [(0, ToConsumer(Listening)), (1, Nobody)];
    assert sched[1..] == [(1, Nobody)] && sched[1..][1..] == [];
    assert DispatchEach(s, sched[1..]) == Stepped(s, Ok);
  }

  /** A complete report of an unsealed stage is stored but not merged. */
  lemma NotYetMerged(s: State, id: nat, order: Walk, t: State)
    requires s.sealed == {} && id in s.filters
    requires s.filters[id].mode == Some(UnionWhenAllComplete) && s.filters[id].merged == None
    requires TaskKey(1, 0) in s.filters[id].producers && s.filters[id].producers[TaskKey(1, 0)] == None
    requires t == StoreReport(s, TaskKey(1, 0), id, Complete(id))
    ensures RecordUpdate(s, TaskKey(1, 0), ReportOf(id, id), order) == Stepped(t, Ok)
  {
    var k := TaskKey(1, 0);
    assert Stored(s, k, ReportOf(id, id));
    assert k in t.filters[id].producers && k.stage !in t.sealed;
    assert MergeFilter(t, id) == (t, false);
  }

  lemma FirstSendFails()
    ensures var r := MergeAndDispatch(WaitingForSeal().(sealed := {1}), 0, ToConsumer(Gone(false)));
            && r.outcome == Err(ChannelClosed) && r.state.sealed == {1}
            && 1 in r.state.filters && r.state.filters[1] == Ready(1, {})
  {
    var s, k, c := WaitingForSeal().(sealed := {1}), TaskKey(1, 0), TaskKey(2, 0);
    var reports := s.filters[0].producers;
    assert ReportedKeys(reports) == {k} && AllComplete(reports, {1});
    MergeOfOne(reports, k, UnionWhenAllComplete);
    var (t, changed) := MergeFilter(s, 0);
    assert changed && t.filters[1] == s.filters[1] && t.senders == s.senders && t.delivered == {};
    var walk := ToConsumer(Gone(false)).attempts;
    assert walk[0] == Attempt(c, Gone(false));
    assert SendAll(t, 0, Update(0, t.filters[0].mergedBytes.value, 0), walk) == Stepped(t, Err(ChannelClosed));
  }

  /** Sealing stops at the first closed channel, so a filter later in the walk stays unmerged although
      all its producers are sealed and complete. Only a seal can do this. */
  lemma FailedSendLeavesFilterUnmerged()
    ensures var r := SealStage(WaitingForSeal(), 1, [(0, ToConsumer(Gone(false))), (1, Nobody)]);
            && r.outcome == Err(ChannelClosed) && 1 in r.state.filters && r.state.filters[1].merged == None
            && !MergedExact(UnionWhenAllComplete, r.state.filters[1].producers, r.state.sealed,
                            r.state.filters[1].merged)
  {
    var sched: Schedule := [(0, ToConsumer(Gone(false))), (1, Nobody)];
    FirstSendFails();
    assert WaitingForSeal().sealed + {1} == {1};
    var s := WaitingForSeal().(sealed := {1});
    assert MergeEach(s, sched) == MergeAndDispatch(s, 0, ToConsumer(Gone(false)));
    assert AllComplete(Ready(1, {}).producers, {1});
  }
}
