/** Exchanges between tasks: every row goes to one task, chosen by the row. */
module Exchanges {
  import opened Plans
  import opened Bags
  import opened JoinRows
  import A = AggregateStates

  /** Which task a row is sent to. */
  type Route = Row -> nat

  // ---------------------------------------------------------------- joining what meets in a task

  /** Rows that match are sent to the same task. */
  ghost predicate Meet(on: Condition, toBuild: Route, toProbe: Route) {
    forall b, p | on(b, p) :: toBuild(b) == toProbe(p)
  }

  lemma MatchedMeet(build: Bag, p: Row, on: Condition, toBuild: Route, toProbe: Route)
    requires Meet(on, toBuild, toProbe)
    ensures Matched(For(build, toBuild, toProbe(p)), p, on) <==> Matched(build, p, on)
  {
    KeptMembers(build, Goes(toBuild, toProbe(p)));
  }

  lemma PairsMeet(build: Bag, p: Row, on: Condition, toBuild: Route, toProbe: Route)
    requires Meet(on, toBuild, toProbe)
    ensures FlatMap(For(build, toBuild, toProbe(p)), Pairs(p, on)) == FlatMap(build, Pairs(p, on))
  {
    FlatMapKept(build, Goes(toBuild, toProbe(p)), Pairs(p, on));
  }

  lemma ProbeRowsMeet(joinType: JoinType, build: Bag, p: Row, on: Condition, toBuild: Route, toProbe: Route)
    requires Meet(on, toBuild, toProbe)
    ensures ProbeRows(joinType, For(build, toBuild, toProbe(p)), p, on) == ProbeRows(joinType, build, p, on)
  {
    MatchedMeet(build, p, on, toBuild, toProbe);
    PairsMeet(build, p, on, toBuild, toProbe);
  }

  lemma BuildRowsMeet(joinType: JoinType, b: Row, probe: Bag, on: Condition, toBuild: Route, toProbe: Route)
    requires Meet(on, toBuild, toProbe)
    ensures BuildRows(joinType, b, For(probe, toProbe, toBuild(b)), on) == BuildRows(joinType, b, probe, on)
  {
    KeptMembers(probe, Goes(toProbe, toBuild(b)));
    assert Found(b, For(probe, toProbe, toBuild(b)), on) <==> Found(b, probe, on);
  }

  lemma ProbesFor(joinType: JoinType, build: Bag, probe: Bag, on: Condition, toBuild: Route, toProbe: Route, t: nat)
    requires Meet(on, toBuild, toProbe)
    ensures FlatMap(For(probe, toProbe, t), PerProbe(joinType, For(build, toBuild, t), on)) ==
            FlatMap(For(probe, toProbe, t), PerProbe(joinType, build, on))
  {
    var bs, ps := For(build, toBuild, t), For(probe, toProbe, t);
    KeptMembers(probe, Goes(toProbe, t));
    forall p | p in ps ensures PerProbe(joinType, bs, on)(p) == PerProbe(joinType, build, on)(p) {
      ProbeRowsMeet(joinType, build, p, on, toBuild, toProbe);
    }
    FlatMapAgree(ps, PerProbe(joinType, bs, on), PerProbe(joinType, build, on));
  }

  lemma BuildsFor(joinType: JoinType, build: Bag, probe: Bag, on: Condition, toBuild: Route, toProbe: Route, t: nat)
    requires Meet(on, toBuild, toProbe)
    ensures FlatMap(For(build, toBuild, t), PerBuild(joinType, For(probe, toProbe, t), on)) ==
            FlatMap(For(build, toBuild, t), PerBuild(joinType, probe, on))
  {
    var bs, ps := For(build, toBuild, t), For(probe, toProbe, t);
    KeptMembers(build, Goes(toBuild, t));
    forall b | b in bs ensures PerBuild(joinType, ps, on)(b) == PerBuild(joinType, probe, on)(b) {
      BuildRowsMeet(joinType, b, probe, on, toBuild, toProbe);
    }
    FlatMapAgree(bs, PerBuild(joinType, ps, on), PerBuild(joinType, probe, on));
  }

  /** In its task a row finds all its partners, so what comes of it is what one join would make of it. */
  lemma JoinFor(joinType: JoinType, build: Bag, probe: Bag, on: Condition, toBuild: Route, toProbe: Route, t: nat)
    requires Meet(on, toBuild, toProbe)
    ensures JoinBags(joinType, For(build, toBuild, t), For(probe, toProbe, t), on) ==
            FlatMap(For(probe, toProbe, t), PerProbe(joinType, build, on)) +
            FlatMap(For(build, toBuild, t), PerBuild(joinType, probe, on))
  {
    ProbesFor(joinType, build, probe, on, toBuild, toProbe, t);
    BuildsFor(joinType, build, probe, on, toBuild, toProbe, t);
  }

  /** The rows each task emits, joining what it received. */
  ghost function TaskJoin(joinType: JoinType, build: Bag, probe: Bag, on: Condition, toBuild: Route, toProbe: Route)
    : (f: nat -> Bag)
  {
    (t: nat) => JoinBags(joinType, For(build, toBuild, t), For(probe, toProbe, t), on)
  }

  lemma FlatMapNext(m: Bag, to: Route, k: nat, f: Row -> Bag)
    ensures FlatMap(Below(m, to, k + 1), f) == FlatMap(Below(m, to, k), f) + FlatMap(For(m, to, k), f)
  {
    BelowNext(m, to, k);
    FlatMapSum(Below(m, to, k), For(m, to, k), f);
  }

  /** What one join makes of the rows the first tasks receive. */
  ghost function JoinedBelow(joinType: JoinType, build: Bag, probe: Bag, on: Condition, toBuild: Route, toProbe: Route)
    : (g: nat -> Bag)
  {
    (k: nat) => FlatMap(Below(probe, toProbe, k), PerProbe(joinType, build, on)) +
                FlatMap(Below(build, toBuild, k), PerBuild(joinType, probe, on))
  }

  lemma JoinedNothing(joinType: JoinType, build: Bag, probe: Bag, on: Condition, toBuild: Route, toProbe: Route)
    ensures JoinedBelow(joinType, build, probe, on, toBuild, toProbe)(0) == multiset{}
  {
    BelowNothing(probe, toProbe);
    BelowNothing(build, toBuild);
  }

  lemma JoinedNext(joinType: JoinType, build: Bag, probe: Bag, on: Condition, toBuild: Route, toProbe: Route, t: nat)
    requires Meet(on, toBuild, toProbe)
    ensures Adds(TaskJoin(joinType, build, probe, on, toBuild, toProbe),
                 JoinedBelow(joinType, build, probe, on, toBuild, toProbe), t)
  {
    var f, g := PerProbe(joinType, build, on), PerBuild(joinType, probe, on);
    JoinFor(joinType, build, probe, on, toBuild, toProbe, t);
    FlatMapNext(probe, toProbe, t, f);
    FlatMapNext(build, toBuild, t, g);
    SumOfSums(JoinedBelow(joinType, build, probe, on, toBuild, toProbe)(t),
              TaskJoin(joinType, build, probe, on, toBuild, toProbe)(t),
              FlatMap(Below(probe, toProbe, t), f), FlatMap(Below(build, toBuild, t), g),
              FlatMap(For(probe, toProbe, t), f), FlatMap(For(build, toBuild, t), g));
  }

  ghost predicate Within(to: Route, n: nat) {
    forall r :: to(r) < n
  }

  /** Joining task by task gives what one join would, for this build and probe side. */
  ghost predicate JoinsApart(joinType: JoinType, build: Bag, probe: Bag, on: Condition, toBuild: Route, toProbe: Route,
                             n: nat) {
    SumBelow(TaskJoin(joinType, build, probe, on, toBuild, toProbe), n) == JoinBags(joinType, build, probe, on)
  }

  lemma JoinedAll(joinType: JoinType, build: Bag, probe: Bag, on: Condition, toBuild: Route, toProbe: Route, n: nat)
    requires Within(toBuild, n) && Within(toProbe, n)
    ensures JoinedBelow(joinType, build, probe, on, toBuild, toProbe)(n) == JoinBags(joinType, build, probe, on)
  {
    BelowAll(probe, toProbe, n);
    BelowAll(build, toBuild, n);
  }

  lemma MeetingJoins(joinType: JoinType, build: Bag, probe: Bag, on: Condition, toBuild: Route, toProbe: Route, n: nat)
    requires Meet(on, toBuild, toProbe) && Within(toBuild, n) && Within(toProbe, n)
    ensures JoinsApart(joinType, build, probe, on, toBuild, toProbe, n)
  {
    var f := TaskJoin(joinType, build, probe, on, toBuild, toProbe);
    var g := JoinedBelow(joinType, build, probe, on, toBuild, toProbe);
    JoinedNothing(joinType, build, probe, on, toBuild, toProbe);
    forall t: nat | t < n ensures Adds(f, g, t) {
      JoinedNext(joinType, build, probe, on, toBuild, toProbe, t);
    }
    Telescope(f, g, n);
    JoinedAll(joinType, build, probe, on, toBuild, toProbe, n);
  }

  // ---------------------------------------------------------------- rows that do not meet

  /** What a task that gets at most one of the two rows emits. */
  lemma ApartFor(joinType: JoinType, b: Row, p: Row, on: Condition, toBuild: Route, toProbe: Route, t: nat)
    requires toBuild(b) != toProbe(p)
    ensures JoinBags(joinType, For(multiset{b}, toBuild, t), For(multiset{p}, toProbe, t), on) ==
            (if toBuild(b) == t then JoinBags(joinType, multiset{b}, multiset{}, on) else multiset{}) +
            (if toProbe(p) == t then JoinBags(joinType, multiset{}, multiset{p}, on) else multiset{})
  {
    ForOne(b, toBuild, t);
    ForOne(p, toProbe, t);
    assert JoinBags(joinType, multiset{}, multiset{}, on) == multiset{};
  }

  /** Two bags, each from its own task on. */
  ghost function FromOn(i: nat, j: nat, x: Bag, y: Bag): (g: nat -> Bag) {
    (k: nat) => (if i < k then x else multiset{}) + (if j < k then y else multiset{})
  }

  lemma FromOnNext(i: nat, j: nat, x: Bag, y: Bag, t: nat)
    ensures FromOn(i, j, x, y)(t + 1) ==
            FromOn(i, j, x, y)(t) + ((if i == t then x else multiset{}) + (if j == t then y else multiset{}))
  {
  }

  /** Two matching rows in different tasks are joined with nothing. */
  lemma ApartTotal(joinType: JoinType, b: Row, p: Row, on: Condition, toBuild: Route, toProbe: Route, n: nat)
    requires toBuild(b) != toProbe(p) && toBuild(b) < n && toProbe(p) < n
    ensures SumBelow(TaskJoin(joinType, multiset{b}, multiset{p}, on, toBuild, toProbe), n) ==
            JoinBags(joinType, multiset{b}, multiset{}, on) + JoinBags(joinType, multiset{}, multiset{p}, on)
  {
    var x, y := JoinBags(joinType, multiset{b}, multiset{}, on), JoinBags(joinType, multiset{}, multiset{p}, on);
    var f := TaskJoin(joinType, multiset{b}, multiset{p}, on, toBuild, toProbe);
    var g := FromOn(toBuild(b), toProbe(p), x, y);
    forall t: nat | t < n ensures Adds(f, g, t) {
      ApartFor(joinType, b, p, on, toBuild, toProbe, t);
      FromOnNext(toBuild(b), toProbe(p), x, y, t);
    }
    Telescope(f, g, n);
  }

  lemma JoinOne(joinType: JoinType, b: Row, p: Row, on: Condition)
    ensures JoinBags(joinType, multiset{b}, multiset{p}, on) ==
            ProbeRows(joinType, multiset{b}, p, on) + BuildRows(joinType, b, multiset{p}, on)
    ensures JoinBags(joinType, multiset{b}, multiset{}, on) == BuildRows(joinType, b, multiset{}, on)
    ensures JoinBags(joinType, multiset{}, multiset{p}, on) == ProbeRows(joinType, multiset{}, p, on)
  {
    FlatMapOne(p, PerProbe(joinType, multiset{b}, on));
    FlatMapOne(p, PerProbe(joinType, multiset{}, on));
    FlatMapOne(b, PerBuild(joinType, multiset{p}, on));
    FlatMapOne(b, PerBuild(joinType, multiset{}, on));
  }

  /** Every join type tells the difference. */
  lemma ApartDiffers(joinType: JoinType, b: Row, p: Row, on: Condition)
    requires on(b, p) && b != Null && p != Null
    ensures JoinBags(joinType, multiset{b}, multiset{}, on) + JoinBags(joinType, multiset{}, multiset{p}, on)
            != JoinBags(joinType, multiset{b}, multiset{p}, on)
  {
    JoinOne(joinType, b, p, on);
    assert b in multiset{b} && p in multiset{p};
    FlatMapOne(b, Pairs(p, on));
    RowsDiffer(joinType, b, p, on);
  }

  lemma RowsDiffer(joinType: JoinType, b: Row, p: Row, on: Condition)
    requires on(b, p) && b != Null && p != Null && Matched(multiset{b}, p, on) && Found(b, multiset{p}, on)
    requires FlatMap(multiset{b}, Pairs(p, on)) == multiset{Pair(b, p)}
    ensures BuildRows(joinType, b, multiset{}, on) + ProbeRows(joinType, multiset{}, p, on)
            != ProbeRows(joinType, multiset{b}, p, on) + BuildRows(joinType, b, multiset{p}, on)
  {
    var apart := BuildRows(joinType, b, multiset{}, on) + ProbeRows(joinType, multiset{}, p, on);
    var x := match joinType
      case Inner => Pair(b, p) case Left => Pair(b, p) case Right => Pair(b, p) case Full => Pair(b, p)
      case LeftSemi => b case LeftAnti => b case LeftMark => Marked(b, true)
      case RightSemi => p case RightAnti => p case RightMark => Marked(p, true);
    assert apart[x] == if joinType in {LeftAnti, RightAnti} then 1 else 0;
  }

  /** A missing row matches nothing, as under SQL equality. */
  ghost predicate NullMatchesNothing(on: Condition) {
    forall b, p | on(b, p) :: b != Null && p != Null
  }

  lemma ApartIsWrong(joinType: JoinType, b: Row, p: Row, on: Condition, toBuild: Route, toProbe: Route, n: nat)
    requires on(b, p) && b != Null && p != Null && toBuild(b) != toProbe(p) && toBuild(b) < n && toProbe(p) < n
    ensures !JoinsApart(joinType, multiset{b}, multiset{p}, on, toBuild, toProbe, n)
  {
    ApartTotal(joinType, b, p, on, toBuild, toProbe, n);
    ApartDiffers(joinType, b, p, on);
  }

  /** Whatever the join type, joining task by task is right for all rows exactly if matching rows meet. */
  lemma JoinsApartIffMeet(joinType: JoinType, on: Condition, toBuild: Route, toProbe: Route, n: nat)
    requires Within(toBuild, n) && Within(toProbe, n) && NullMatchesNothing(on)
    ensures Meet(on, toBuild, toProbe) <==>
            forall build, probe :: JoinsApart(joinType, build, probe, on, toBuild, toProbe, n)
  {
    if Meet(on, toBuild, toProbe) {
      forall build, probe ensures JoinsApart(joinType, build, probe, on, toBuild, toProbe, n) {
        MeetingJoins(joinType, build, probe, on, toBuild, toProbe, n);
      }
    } else {
      var b, p :| on(b, p) && toBuild(b) != toProbe(p);
      ApartIsWrong(joinType, b, p, on, toBuild, toProbe, n);
    }
  }

  // ---------------------------------------------------------------- aggregating what meets in a task

  ghost function Pack(): (f: A.Row<nat> -> Row) {
    (r: A.Row<nat>) => Group(r.key, r.state)
  }

  /** Final aggregation reads the groups that partial aggregation emits. */
  ghost function Unpack(): (f: Row -> A.Row<nat>) {
    (row: Row) => if row.Group? then A.Row(row.key, row.state) else A.Row(0, 0)
  }

  /** One state for each group of the rows, each row contributing its own. */
  ghost function PartialRows(rows: Bag, state: Row -> A.Row<nat>, m: A.Merge<nat>): (r: Bag) {
    Image(A.Reduced(Image(rows, state), m), Pack())
  }

  /** One value for each group of the states. */
  ghost function FinalRows(rows: Bag, m: A.Merge<nat>): (r: Bag) {
    Image(A.Finished(Image(rows, Unpack()), m), Pack())
  }

  ghost function PartialAt(rows: nat -> Bag, state: Row -> A.Row<nat>, m: A.Merge<nat>): (f: nat -> Bag) {
    (t: nat) => PartialRows(rows(t), state, m)
  }

  ghost function StatesAt(rows: nat -> Bag, state: Row -> A.Row<nat>, m: A.Merge<nat>): (f: nat -> A.Bag<nat>) {
    (t: nat) => A.Reduced(Image(rows(t), state), m)
  }

  lemma PackedTotal(rows: nat -> Bag, state: Row -> A.Row<nat>, m: A.Merge<nat>, k: nat)
    ensures SumBelow(PartialAt(rows, state, m), k) == Image(SumBelow(StatesAt(rows, state, m), k), Pack())
  {
    var f, g := StatesAt(rows, state, m), PartialAt(rows, state, m);
    forall t: nat | t < k ensures g(t) == Image(f(t), Pack()) {
      assert f(t) == A.Reduced(Image(rows(t), state), m) && g(t) == PartialRows(rows(t), state, m);
    }
    SumOfImages(f, g, Pack(), k);
  }

  ghost function OwnStatesAt(rows: nat -> Bag, state: Row -> A.Row<nat>): (f: nat -> A.Bag<nat>) {
    (t: nat) => Image(rows(t), state)
  }

  /** The states of all tasks together stand for all their rows. */
  lemma StatesTotal(rows: nat -> Bag, state: Row -> A.Row<nat>, m: A.Merge<nat>, k: nat)
    requires A.Commutative(m)
    ensures A.SameStates(SumBelow(StatesAt(rows, state, m), k), Image(SumBelow(rows, k), state), m)
  {
    forall t: nat | t < k ensures A.SameStates(StatesAt(rows, state, m)(t), OwnStatesAt(rows, state)(t), m) {
      A.ReducedHasSameStates(Image(rows(t), state), m);
    }
    A.SameStatesTotal(StatesAt(rows, state, m), OwnStatesAt(rows, state), m, k);
    SumOfImages(rows, OwnStatesAt(rows, state), state, k);
  }

  lemma Unpacks(g: A.Bag<nat>)
    ensures Image(Image(g, Pack()), Unpack()) == g
  {
    ImageInverse(g, Pack(), Unpack());
  }

  /** Final aggregation of all states in one place gives what aggregating all rows in one place does. */
  lemma GatheredFinal(rows: nat -> Bag, state: Row -> A.Row<nat>, m: A.Merge<nat>, k: nat)
    requires A.Commutative(m)
    ensures FinalRows(SumBelow(PartialAt(rows, state, m), k), m) ==
            FinalRows(PartialRows(SumBelow(rows, k), state, m), m)
  {
    var all, states := Image(SumBelow(rows, k), state), SumBelow(StatesAt(rows, state, m), k);
    PackedTotal(rows, state, m, k);
    Unpacks(states);
    Unpacks(A.Reduced(all, m));
    StatesTotal(rows, state, m, k);
    A.ReducedHasSameStates(all, m);
    A.SameStatesFinish(states, all, m);
    A.SameStatesFinish(A.Reduced(all, m), all, m);
  }

  /** Where the state of a group goes depends on the group alone. */
  ghost predicate ByGroup(to: Route) {
    forall k, a, b :: to(Group(k, a)) == to(Group(k, b))
  }

  ghost function PackedRoute(to: Route): (to': A.Row<nat> -> nat) {
    (r: A.Row<nat>) => to(Pack()(r))
  }

  ghost function FinalAt(rows: Bag, to: Route, m: A.Merge<nat>): (f: nat -> Bag) {
    (t: nat) => FinalRows(For(rows, to, t), m)
  }

  ghost function FinishedAt(states: A.Bag<nat>, to: A.Row<nat> -> nat, m: A.Merge<nat>): (f: nat -> A.Bag<nat>) {
    (t: nat) => A.Finished(For(states, to, t), m)
  }

  ghost function FinishedBelow(states: A.Bag<nat>, to: A.Row<nat> -> nat, m: A.Merge<nat>): (g: nat -> A.Bag<nat>) {
    (k: nat) => A.Finished(Below(states, to, k), m)
  }

  lemma KeysApart(states: A.Bag<nat>, to: A.Row<nat> -> nat, t: nat)
    requires A.ByKey(to)
    ensures A.NoCommonKey(Below(states, to, t), For(states, to, t))
  {
    KeptMembers(states, GoesBelow(to, t));
    KeptMembers(states, Goes(to, t));
  }

  lemma FinishedNext(states: A.Bag<nat>, to: A.Row<nat> -> nat, m: A.Merge<nat>, t: nat)
    requires A.Commutative(m) && A.ByKey(to)
    ensures Adds(FinishedAt(states, to, m), FinishedBelow(states, to, m), t)
  {
    BelowNext(states, to, t);
    KeysApart(states, to, t);
    A.FinishedSum(Below(states, to, t), For(states, to, t), m);
  }

  lemma FinishedNothing(states: A.Bag<nat>, to: A.Row<nat> -> nat, m: A.Merge<nat>)
    ensures FinishedBelow(states, to, m)(0) == multiset{}
  {
    BelowNothing(states, to);
  }

  /** Groups that are sent apart are finished apart. */
  lemma FinishedApart(states: A.Bag<nat>, to: A.Row<nat> -> nat, m: A.Merge<nat>, n: nat)
    requires A.Commutative(m) && A.ByKey(to) && forall r | r in states :: to(r) < n
    ensures SumBelow(FinishedAt(states, to, m), n) == A.Finished(states, m)
  {
    var f, g := FinishedAt(states, to, m), FinishedBelow(states, to, m);
    FinishedNothing(states, to, m);
    forall t: nat | t < n ensures Adds(f, g, t) {
      FinishedNext(states, to, m, t);
    }
    Telescope(f, g, n);
    FinishedAll(states, to, m, n);
  }

  lemma FinishedAll(states: A.Bag<nat>, to: A.Row<nat> -> nat, m: A.Merge<nat>, n: nat)
    requires forall r | r in states :: to(r) < n
    ensures FinishedBelow(states, to, m)(n) == A.Finished(states, m)
  {
    BelowAll(states, to, n);
  }

  lemma ByGroupIsByKey(to: Route)
    requires ByGroup(to)
    ensures A.ByKey(PackedRoute(to))
  {
    forall a: A.Row<nat>, b: A.Row<nat> | a.key == b.key ensures PackedRoute(to)(a) == PackedRoute(to)(b) {
      assert Pack()(a) == Group(a.key, a.state) && Pack()(b) == Group(a.key, b.state);
      assert to(Group(a.key, a.state)) == to(Group(a.key, b.state));
    }
  }

  lemma FinalFor(states: A.Bag<nat>, to: Route, m: A.Merge<nat>, t: nat)
    ensures FinalRows(For(Image(states, Pack()), to, t), m) == Image(FinishedAt(states, PackedRoute(to), m)(t), Pack())
  {
    ForImage(states, Pack(), to, PackedRoute(to), t);
    Unpacks(For(states, PackedRoute(to), t));
  }

  lemma FinalsBelow(states: A.Bag<nat>, to: Route, m: A.Merge<nat>, k: nat)
    ensures SumBelow(FinalAt(Image(states, Pack()), to, m), k) ==
            Image(SumBelow(FinishedAt(states, PackedRoute(to), m), k), Pack())
  {
    var f, g := FinishedAt(states, PackedRoute(to), m), FinalAt(Image(states, Pack()), to, m);
    forall t: nat | t < k ensures g(t) == Image(f(t), Pack()) {
      FinalFor(states, to, m, t);
    }
    SumOfImages(f, g, Pack(), k);
  }

  /** Final aggregation task by task, after states were exchanged by group, gives what one final
      aggregation of all states does. */
  lemma ExchangedFinal(states: A.Bag<nat>, to: Route, m: A.Merge<nat>, n: nat)
    requires A.Commutative(m) && ByGroup(to) && Within(to, n)
    ensures SumBelow(FinalAt(Image(states, Pack()), to, m), n) == FinalRows(Image(states, Pack()), m)
  {
    FinalsBelow(states, to, m, n);
    ByGroupIsByKey(to);
    assert forall r :: PackedRoute(to)(r) == to(Pack()(r));
    FinishedApart(states, PackedRoute(to), m, n);
    Unpacks(states);
  }
}
