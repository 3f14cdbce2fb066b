/** Dynamic filters as the coordinator sees them: snapshots reported by producer tasks, and the
    merge of those snapshots under one of three policies. */
module DynamicFilters {
  import opened Wrappers

  /** What to do with the snapshots of one filter's producers. */
  datatype Policy = UnionWhenAllComplete | ForwardFirstComplete | IntersectOnUpdate

  /** A task of a stage. Every key of a registry belongs to the registry's own query. */
  datatype TaskKey = TaskKey(stage: nat, task: nat)

  /** A predicate. Only the connectives that merging builds are interpreted. */
  datatype Expr = Atom(name: nat) | And(operands: seq<Expr>) | Or(operands: seq<Expr>)

  /** The wire form of a dynamic filter; `args` stands for the fields merging copies untouched. */
  datatype Snapshot = Snapshot(inner: Option<Expr>, complete: bool, generation: nat, args: nat)

  type Reports = map<TaskKey, Option<Snapshot>>

  // ---------------------------------------------------------------- meaning of predicates

  /** A row is the set of atomic predicates that hold of it. */
  predicate Holds(e: Expr, row: set<nat>) {
    match e
    case Atom(n) => n in row
    case And(es) => forall i | 0 <= i < |es| :: Holds(es[i], row)
    case Or(es) => exists i | 0 <= i < |es| :: Holds(es[i], row)
  }

  /** Does the filter let the row through? A filter without a predicate lets everything through. */
  predicate Accepts(s: Snapshot, row: set<nat>) {
    s.inner.Some? ==> Holds(s.inner.value, row)
  }

  /** Every row that passes `b` passes `a`. */
  ghost predicate Tightens(a: Snapshot, b: Snapshot) {
    forall row :: Accepts(b, row) ==> Accepts(a, row)
  }

  // ---------------------------------------------------------------- key order

  predicate KeyLess(a: TaskKey, b: TaskKey) {
    a.stage < b.stage || (a.stage == b.stage && a.task < b.task)
  }

  predicate IsMinKey(k: TaskKey, s: set<TaskKey>) {
    k in s && forall j | j in s && j != k :: KeyLess(k, j)
  }

  lemma {:induction false} MinKeyExists(s: set<TaskKey>)
    requires s != {}
    ensures exists k :: IsMinKey(k, s)
  {
    var x :| x in s;
    if s == {x} {
      assert IsMinKey(x, s);
    } else {
      MinKeyExists(s - {x});
      var m :| IsMinKey(m, s - {x});
      assert forall j | j in s :: j == x || j in s - {x};
      assert IsMinKey(if KeyLess(x, m) then x else m, s);
    }
  }

  function MinKey(s: set<TaskKey>): (k: TaskKey)
    requires s != {}
    ensures IsMinKey(k, s)
  {
    MinKeyExists(s);
    var k :| IsMinKey(k, s);
    k
  }

  /** The keys of `s` in ascending (stage, task) order. */
  function SortedKeys(s: set<TaskKey>): (q: seq<TaskKey>)
    ensures |q| == |s|
    ensures forall k :: k in q <==> k in s
    ensures forall i, j | 0 <= i < j < |q| :: KeyLess(q[i], q[j])
  {
    if s == {} then [] else
      var k := MinKey(s);
      [k] + SortedKeys(s - {k})
  }

  /** That is, by stage and then by task. */
  lemma KeysAscend(s: set<TaskKey>, i: nat, j: nat)
    requires i < j < |SortedKeys(s)|
    ensures var a, b := SortedKeys(s)[i], SortedKeys(s)[j];
            a.stage < b.stage || (a.stage == b.stage && a.task < b.task)
  {
    assert KeyLess(SortedKeys(s)[i], SortedKeys(s)[j]);
  }

  // ---------------------------------------------------------------- merging

  function ReportedKeys(reports: Reports): (s: set<TaskKey>)
  {
    set k | k in reports && reports[k].Some?
  }

  /** The predicates reported by `keys`, in that order; reports without one are skipped. */
  function Predicates(reports: Reports, keys: seq<TaskKey>): (es: seq<Expr>)
    requires forall k | k in keys :: k in reports && reports[k].Some?
  {
    if keys == [] then [] else
      var inner := reports[keys[0]].value.inner;
      (if inner.Some? then [inner.value] else []) + Predicates(reports, keys[1..])
  }

  function MergePredicates(es: seq<Expr>, mode: Policy): (r: Option<Expr>)
  {
    if |es| == 0 then None
    else if |es| == 1 then Some(es[0])
    else Some(if mode == IntersectOnUpdate then And(es) else Or(es))
  }

  predicate AllComplete(reports: Reports, sealed: set<nat>) {
    && reports != map[]
    && forall k | k in reports ::
         k.stage in sealed && reports[k].Some? && reports[k].value.complete
  }

  /** The keys whose reports a merge under `mode` uses, in key order. */
  function MergeKeys(reports: Reports, mode: Policy): (q: seq<TaskKey>)
    ensures forall k | k in q :: k in reports && reports[k].Some?
    ensures q == [] <==> ReportedKeys(reports) == {}
    ensures mode != ForwardFirstComplete ==> forall k :: k in q <==> k in ReportedKeys(reports)
    ensures mode == ForwardFirstComplete ==> |q| <= 1
  {
    var q := SortedKeys(ReportedKeys(reports));
    if mode == ForwardFirstComplete && |q| > 1 then q[..1] else q
  }

  function MergedPredicate(reports: Reports, mode: Policy): (r: Option<Expr>)
  {
    MergePredicates(Predicates(reports, MergeKeys(reports, mode)), mode)
  }

  /** The new merged filter, or None when merging leaves `previous` as it is. */
  function Merge(reports: Reports, sealed: set<nat>, mode: Policy, previous: Option<Snapshot>)
    : (r: Option<Snapshot>)
  {
    var keys := MergeKeys(reports, mode);
    var complete := mode == ForwardFirstComplete || AllComplete(reports, sealed);
    var inner := MergedPredicate(reports, mode);
    if previous.Some? && previous.value.complete then None
    else if mode == UnionWhenAllComplete && !AllComplete(reports, sealed) then None
    else if keys == [] then None
    else if previous.Some? && previous.value.inner == inner && previous.value.complete == complete
    then None
    else
      var template := reports[keys[0]].value;
      var generation := if previous.Some? then previous.value.generation + 1 else 0;
      Some(template.(inner := inner, complete := complete, generation := generation))
  }

  // ---------------------------------------------------------------- what a merge accepts

  predicate HasPredicates(reports: Reports) {
    forall k | k in reports && reports[k].Some? :: reports[k].value.inner.Some?
  }

  lemma {:induction false} PredicatesAt(reports: Reports, keys: seq<TaskKey>)
    requires HasPredicates(reports)
    requires forall k | k in keys :: k in reports && reports[k].Some?
    ensures |Predicates(reports, keys)| == |keys|
    ensures forall i | 0 <= i < |keys| ::
              Some(Predicates(reports, keys)[i]) == reports[keys[i]].value.inner
  {
    if keys != [] {
      PredicatesAt(reports, keys[1..]);
    }
  }

  /** The merged predicate is that of one report, or the connective over all of them. */
  lemma MergePredicatesHold(es: seq<Expr>, mode: Policy, row: set<nat>)
    requires es != [] && mode != ForwardFirstComplete
    ensures MergePredicates(es, mode).Some?
    ensures mode == UnionWhenAllComplete ==>
              (Holds(MergePredicates(es, mode).value, row) <==> exists i | 0 <= i < |es| :: Holds(es[i], row))
    ensures mode == IntersectOnUpdate ==>
              (Holds(MergePredicates(es, mode).value, row) <==> forall i | 0 <= i < |es| :: Holds(es[i], row))
  {
    if |es| == 1 {
      assert es[0] in es;
    }
  }

  lemma ReportedPredicate(reports: Reports, mode: Policy, row: set<nat>, i: nat)
    requires HasPredicates(reports) && mode != ForwardFirstComplete && i < |MergeKeys(reports, mode)|
    ensures var keys := MergeKeys(reports, mode);
            var es := Predicates(reports, keys);
            && |es| == |keys| && keys[i] in ReportedKeys(reports)
            && (Holds(es[i], row) <==> Accepts(reports[keys[i]].value, row))
  {
    var keys := MergeKeys(reports, mode);
    PredicatesAt(reports, keys);
    assert keys[i] in keys && Some(Predicates(reports, keys)[i]) == reports[keys[i]].value.inner;
  }

  lemma PredicateReported(reports: Reports, mode: Policy, k: TaskKey) returns (i: nat)
    requires HasPredicates(reports) && mode != ForwardFirstComplete && k in ReportedKeys(reports)
    ensures i < |MergeKeys(reports, mode)| && MergeKeys(reports, mode)[i] == k
  {
    assert k in MergeKeys(reports, mode);
    i :| 0 <= i < |MergeKeys(reports, mode)| && MergeKeys(reports, mode)[i] == k;
  }

  lemma SomeAccepts(reports: Reports, mode: Policy, row: set<nat>)
    requires HasPredicates(reports) && mode != ForwardFirstComplete
    ensures var es := Predicates(reports, MergeKeys(reports, mode));
            (exists i | 0 <= i < |es| :: Holds(es[i], row)) <==>
            (exists k :: k in ReportedKeys(reports) && Accepts(reports[k].value, row))
  {
    var es := Predicates(reports, MergeKeys(reports, mode));
    PredicatesAt(reports, MergeKeys(reports, mode));
    if i :| 0 <= i < |es| && Holds(es[i], row) {
      ReportedPredicate(reports, mode, row, i);
    }
    if k :| k in ReportedKeys(reports) && Accepts(reports[k].value, row) {
      var i := PredicateReported(reports, mode, k);
      ReportedPredicate(reports, mode, row, i);
    }
  }

  lemma AllAccept(reports: Reports, mode: Policy, row: set<nat>)
    requires HasPredicates(reports) && mode != ForwardFirstComplete
    ensures var es := Predicates(reports, MergeKeys(reports, mode));
            (forall i | 0 <= i < |es| :: Holds(es[i], row)) <==>
            (forall k :: k in ReportedKeys(reports) ==> Accepts(reports[k].value, row))
  {
    var es := Predicates(reports, MergeKeys(reports, mode));
    PredicatesAt(reports, MergeKeys(reports, mode));
    if i :| 0 <= i < |es| && !Holds(es[i], row) {
      ReportedPredicate(reports, mode, row, i);
    }
    if k :| k in ReportedKeys(reports) && !Accepts(reports[k].value, row) {
      var i := PredicateReported(reports, mode, k);
      ReportedPredicate(reports, mode, row, i);
    }
  }

  /** A union lets a row through exactly when some producer does; an intersection when all do. */
  lemma MergedPredicateMeaning(reports: Reports, mode: Policy, row: set<nat>)
    requires HasPredicates(reports) && ReportedKeys(reports) != {}
    requires mode != ForwardFirstComplete
    ensures MergedPredicate(reports, mode).Some?
    ensures mode == UnionWhenAllComplete ==>
              (Holds(MergedPredicate(reports, mode).value, row) <==>
               exists k :: k in ReportedKeys(reports) && Accepts(reports[k].value, row))
    ensures mode == IntersectOnUpdate ==>
              (Holds(MergedPredicate(reports, mode).value, row) <==>
               forall k :: k in ReportedKeys(reports) ==> Accepts(reports[k].value, row))
  {
    var keys := MergeKeys(reports, mode);
    PredicatesAt(reports, keys);
    var k :| k in ReportedKeys(reports);
    var i := PredicateReported(reports, mode, k);
    MergePredicatesHold(Predicates(reports, keys), mode, row);
    SomeAccepts(reports, mode, row);
    AllAccept(reports, mode, row);
  }
}
