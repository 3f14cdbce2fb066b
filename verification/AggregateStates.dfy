/** Aggregation states under a commutative merge, and what final aggregation makes of them. */
module AggregateStates {
  import opened Bags

  /** A group's key and its state, or after final aggregation its value. */
  datatype Row<S> = Row(key: nat, state: S)

  type Bag<S(==)> = multiset<Row<S>>

  /** How states merge and finish. */
  datatype Merge<!S> = Merge(unit: S, merge: (S, S) -> S, finish: S -> S)

  ghost predicate UnitLaw<S>(m: Merge<S>, a: S) {
    m.merge(m.unit, a) == a && m.merge(a, m.unit) == a
  }

  ghost predicate OrderLaw<S>(m: Merge<S>, a: S, b: S) {
    m.merge(a, b) == m.merge(b, a)
  }

  ghost predicate GroupingLaw<S>(m: Merge<S>, a: S, b: S, c: S) {
    m.merge(a, m.merge(b, c)) == m.merge(m.merge(a, b), c)
  }

  /** States form a commutative monoid. */
  ghost predicate Commutative<S(!new)>(m: Merge<S>) {
    && (forall a :: UnitLaw(m, a))
    && (forall a, b :: OrderLaw(m, a, b))
    && (forall a, b, c :: GroupingLaw(m, a, b, c))
  }

  ghost predicate HasKey<S(!new)>(rows: Bag<S>, k: nat) {
    exists r | r in rows :: r.key == k
  }

  ghost function At<S>(r: Row<S>, k: nat, m: Merge<S>): (s: S) {
    if r.key == k then r.state else m.unit
  }

  /** All states of a key merged. */
  ghost function Merged<S>(rows: Bag<S>, k: nat, m: Merge<S>): (s: S)
    decreases |rows|
  {
    if rows == multiset{} then m.unit else
      var r :| r in rows;
      m.merge(At(r, k, m), Merged(rows - multiset{r}, k, m))
  }

  lemma Reorder<S(!new)>(m: Merge<S>, a: S, b: S, c: S)
    requires Commutative(m)
    ensures m.merge(a, m.merge(b, c)) == m.merge(b, m.merge(a, c))
  {
    assert GroupingLaw(m, a, b, c) && OrderLaw(m, a, b) && GroupingLaw(m, b, a, c);
  }

  /** The order states are merged in does not matter. */
  lemma {:induction false} MergedTake<S(!new)>(rows: Bag<S>, k: nat, m: Merge<S>, x: Row<S>)
    requires Commutative(m) && x in rows
    ensures Merged(rows, k, m) == m.merge(At(x, k, m), Merged(rows - multiset{x}, k, m))
    decreases |rows|, 1
  {
    var y :| y in rows && Merged(rows, k, m) == m.merge(At(y, k, m), Merged(rows - multiset{y}, k, m));
    if x != y {
      MergedTakeTwo(rows, k, m, x, y);
    }
  }

  lemma {:induction false} MergedTakeTwo<S(!new)>(rows: Bag<S>, k: nat, m: Merge<S>, x: Row<S>, y: Row<S>)
    requires Commutative(m) && x in rows && y in rows && x != y
    ensures m.merge(At(y, k, m), Merged(rows - multiset{y}, k, m)) ==
            m.merge(At(x, k, m), Merged(rows - multiset{x}, k, m))
    decreases |rows|, 0
  {
    var mx, my, rest := rows - multiset{x}, rows - multiset{y}, rows - multiset{x} - multiset{y};
    assert x in my && y in mx && my - multiset{x} == rest;
    MergedTake(my, k, m, x);
    MergedTake(mx, k, m, y);
    Reorder(m, At(y, k, m), At(x, k, m), Merged(rest, k, m));
  }

  lemma {:induction false} MergedSum<S(!new)>(a: Bag<S>, b: Bag<S>, k: nat, m: Merge<S>)
    requires Commutative(m)
    ensures Merged(a + b, k, m) == m.merge(Merged(a, k, m), Merged(b, k, m))
    decreases |a|
  {
    if a == multiset{} {
      assert a + b == b && UnitLaw(m, Merged(b, k, m));
    } else {
      var x :| x in a;
      var rest := a - multiset{x};
      MergedTake(a, k, m, x);
      MergedTake(a + b, k, m, x);
      assert (a + b) - multiset{x} == rest + b;
      MergedSum(rest, b, k, m);
      assert GroupingLaw(m, At(x, k, m), Merged(rest, k, m), Merged(b, k, m));
    }
  }

  // ---------------------------------------------------------------- one row per key

  ghost function Keys<S(!new)>(rows: Bag<S>): (ks: set<nat>)
    ensures forall k :: k in ks <==> HasKey(rows, k)
    decreases |rows|
  {
    if rows == multiset{} then {} else
      var r :| r in rows;
      var rest := rows - multiset{r};
      assert forall x :: x in rows <==> x == r || x in rest;
      {r.key} + Keys(rest)
  }

  /** One row per key. */
  ghost function RowsOf<S>(ks: set<nat>, f: nat -> S): (rows: Bag<S>) {
    if ks == {} then multiset{} else
      var k :| k in ks;
      multiset{Row(k, f(k))} + RowsOf(ks - {k}, f)
  }

  lemma {:induction false} RowsOfAgree<S(!new)>(ks: set<nat>, f: nat -> S, g: nat -> S)
    requires forall k | k in ks :: f(k) == g(k)
    ensures RowsOf(ks, f) == RowsOf(ks, g)
  {
    if ks != {} {
      var k :| k in ks && RowsOf(ks, f) == multiset{Row(k, f(k))} + RowsOf(ks - {k}, f)
                       && RowsOf(ks, g) == multiset{Row(k, g(k))} + RowsOf(ks - {k}, g);
      RowsOfAgree(ks - {k}, f, g);
    }
  }

  lemma MergedOne<S(!new)>(r: Row<S>, k: nat, m: Merge<S>)
    requires Commutative(m)
    ensures Merged(multiset{r}, k, m) == At(r, k, m)
  {
    MergedTake(multiset{r}, k, m, r);
    assert multiset{r} - multiset{r} == multiset{};
    assert UnitLaw(m, At(r, k, m));
  }

  lemma {:induction false} MergedRowsOf<S(!new)>(ks: set<nat>, f: nat -> S, k: nat, m: Merge<S>)
    requires Commutative(m)
    ensures Merged(RowsOf(ks, f), k, m) == (if k in ks then f(k) else m.unit)
    ensures HasKey(RowsOf(ks, f), k) <==> k in ks
  {
    if ks != {} {
      var x :| x in ks && RowsOf(ks, f) == multiset{Row(x, f(x))} + RowsOf(ks - {x}, f);
      var one, rest := multiset{Row(x, f(x))}, RowsOf(ks - {x}, f);
      MergedRowsOf(ks - {x}, f, k, m);
      MergedSum(one, rest, k, m);
      MergedOne(Row(x, f(x)), k, m);
      assert UnitLaw(m, f(x)) && UnitLaw(m, Merged(rest, k, m));
      HasKeySum(one, rest, k);
      assert HasKey(one, k) <==> k == x by {
        assert Row(x, f(x)) in one;
      }
    }
  }

  lemma {:induction false} MergedWithout<S(!new)>(rows: Bag<S>, k: nat, m: Merge<S>)
    requires Commutative(m) && !HasKey(rows, k)
    ensures Merged(rows, k, m) == m.unit
    decreases |rows|
  {
    if rows != multiset{} {
      var r :| r in rows;
      MergedTake(rows, k, m, r);
      assert UnitLaw(m, m.unit);
      MergedWithout(rows - multiset{r}, k, m);
    }
  }

  ghost function MergedAt<S>(rows: Bag<S>, m: Merge<S>): (f: nat -> S) {
    (k: nat) => Merged(rows, k, m)
  }

  ghost function FinishedAt<S>(rows: Bag<S>, m: Merge<S>): (f: nat -> S) {
    (k: nat) => m.finish(Merged(rows, k, m))
  }

  /** What a partial reduction emits: one merged state per key. */
  ghost function Reduced<S(!new)>(rows: Bag<S>, m: Merge<S>): (r: Bag<S>) {
    RowsOf(Keys(rows), MergedAt(rows, m))
  }

  /** What final aggregation emits: one finished value per key. */
  ghost function Finished<S(!new)>(rows: Bag<S>, m: Merge<S>): (r: Bag<S>) {
    RowsOf(Keys(rows), FinishedAt(rows, m))
  }

  /** The same keys with the same merged states. */
  ghost predicate SameStates<S(!new)>(a: Bag<S>, b: Bag<S>, m: Merge<S>) {
    forall k :: (HasKey(a, k) <==> HasKey(b, k)) && Merged(a, k, m) == Merged(b, k, m)
  }

  lemma ReducedHasSameStates<S(!new)>(rows: Bag<S>, m: Merge<S>)
    requires Commutative(m)
    ensures SameStates(Reduced(rows, m), rows, m)
  {
    forall k
      ensures HasKey(Reduced(rows, m), k) <==> HasKey(rows, k)
      ensures Merged(Reduced(rows, m), k, m) == Merged(rows, k, m)
    {
      MergedRowsOf(Keys(rows), MergedAt(rows, m), k, m);
      if !HasKey(rows, k) {
        MergedWithout(rows, k, m);
      }
    }
  }

  lemma SameStatesFinish<S(!new)>(a: Bag<S>, b: Bag<S>, m: Merge<S>)
    requires SameStates(a, b, m)
    ensures Finished(a, m) == Finished(b, m)
  {
    assert Keys(a) == Keys(b);
    RowsOfAgree(Keys(a), FinishedAt(a, m), FinishedAt(b, m));
  }

  lemma SameStatesSum<S(!new)>(a: Bag<S>, a': Bag<S>, b: Bag<S>, b': Bag<S>, m: Merge<S>)
    requires Commutative(m) && SameStates(a, a', m) && SameStates(b, b', m)
    ensures SameStates(a + b, a' + b', m)
  {
    forall k ensures (HasKey(a + b, k) <==> HasKey(a' + b', k)) && Merged(a + b, k, m) == Merged(a' + b', k, m) {
      MergedSum(a, b, k, m);
      MergedSum(a', b', k, m);
      HasKeySum(a, b, k);
      HasKeySum(a', b', k);
    }
  }

  lemma HasKeySum<S(!new)>(a: Bag<S>, b: Bag<S>, k: nat)
    ensures HasKey(a + b, k) <==> HasKey(a, k) || HasKey(b, k)
  {
    assert forall r :: r in a + b <==> r in a || r in b;
  }

  // ---------------------------------------------------------------- groups apart

  lemma {:induction false} RowsOfCounts<S(!new)>(ks: set<nat>, f: nat -> S, x: Row<S>)
    ensures RowsOf(ks, f)[x] == if x.key in ks && x.state == f(x.key) then 1 else 0
  {
    if ks != {} {
      var k :| k in ks && RowsOf(ks, f) == multiset{Row(k, f(k))} + RowsOf(ks - {k}, f);
      RowsOfCounts(ks - {k}, f, x);
    }
  }

  lemma RowsOfUnion<S(!new)>(a: set<nat>, b: set<nat>, f: nat -> S)
    requires a !! b
    ensures RowsOf(a + b, f) == RowsOf(a, f) + RowsOf(b, f)
  {
    forall x: Row<S> ensures RowsOf(a + b, f)[x] == (RowsOf(a, f) + RowsOf(b, f))[x] {
      RowsOfCounts(a + b, f, x);
      RowsOfCounts(a, f, x);
      RowsOfCounts(b, f, x);
    }
  }

  lemma MergedApart<S(!new)>(a: Bag<S>, b: Bag<S>, k: nat, m: Merge<S>)
    requires Commutative(m) && !HasKey(b, k)
    ensures Merged(a + b, k, m) == Merged(a, k, m) == Merged(b + a, k, m)
  {
    MergedSum(a, b, k, m);
    MergedWithout(b, k, m);
    assert UnitLaw(m, Merged(a, k, m));
    assert a + b == b + a;
  }

  lemma KeysSum<S(!new)>(a: Bag<S>, b: Bag<S>)
    ensures Keys(a + b) == Keys(a) + Keys(b)
  {
    forall k ensures k in Keys(a + b) <==> k in Keys(a) + Keys(b) {
      HasKeySum(a, b, k);
    }
  }

  ghost predicate NoCommonKey<S(!new)>(a: Bag<S>, b: Bag<S>) {
    forall k :: !(HasKey(a, k) && HasKey(b, k))
  }

  lemma FinishedPart<S(!new)>(a: Bag<S>, b: Bag<S>, m: Merge<S>)
    requires Commutative(m) && NoCommonKey(a, b)
    ensures RowsOf(Keys(a), FinishedAt(a + b, m)) == Finished(a, m)
  {
    forall k | k in Keys(a) ensures FinishedAt(a + b, m)(k) == FinishedAt(a, m)(k) {
      MergedApart(a, b, k, m);
    }
    RowsOfAgree(Keys(a), FinishedAt(a + b, m), FinishedAt(a, m));
  }

  /** Bags without a common key are finished apart. */
  lemma FinishedSum<S(!new)>(a: Bag<S>, b: Bag<S>, m: Merge<S>)
    requires Commutative(m) && NoCommonKey(a, b)
    ensures Finished(a + b, m) == Finished(a, m) + Finished(b, m)
  {
    KeysSum(a, b);
    RowsOfUnion(Keys(a), Keys(b), FinishedAt(a + b, m));
    FinishedPart(a, b, m);
    FinishedPart(b, a, m);
    assert a + b == b + a;
  }

  lemma {:induction false} SameStatesTotal<S(!new)>(f: nat -> Bag<S>, g: nat -> Bag<S>, m: Merge<S>, k: nat)
    requires Commutative(m) && forall t: nat | t < k :: SameStates(f(t), g(t), m)
    ensures SameStates(SumBelow(f, k), SumBelow(g, k), m)
  {
    if k > 0 {
      SameStatesTotal(f, g, m, k - 1);
      SameStatesSum(SumBelow(f, k - 1), SumBelow(g, k - 1), f(k - 1), g(k - 1), m);
    }
  }

  // ---------------------------------------------------------------- routing rows by key

  /** What is decided about a row, such as whether to keep it or where to send it, depends on its key alone. */
  ghost predicate ByKey<S(!new), T(!new)>(f: Row<S> -> T) {
    forall a: Row<S>, b: Row<S> | a.key == b.key :: f(a) == f(b)
  }

  lemma KeptAt<S(!new)>(rows: Bag<S>, keep: Row<S> -> bool, k: nat, m: Merge<S>)
    requires Commutative(m) && ByKey(keep)
    ensures var on := keep(Row(k, m.unit));
            && Merged(Kept(rows, keep), k, m) == (if on then Merged(rows, k, m) else m.unit)
            && (HasKey(Kept(rows, keep), k) <==> on && HasKey(rows, k))
  {
    var on, kept := keep(Row(k, m.unit)), Kept(rows, keep);
    var dropped := KeptAndRest(rows, keep);
    KeptMembers(rows, keep);
    MergedSum(kept, dropped, k, m);
    HasKeySum(kept, dropped, k);
    if on {
      assert !HasKey(dropped, k);
      MergedWithout(dropped, k, m);
      assert UnitLaw(m, Merged(kept, k, m));
    } else {
      assert !HasKey(kept, k);
      MergedWithout(kept, k, m);
    }
  }

  /** Routing by key carries merged states along. */
  lemma SameStatesKept<S(!new)>(a: Bag<S>, b: Bag<S>, keep: Row<S> -> bool, m: Merge<S>)
    requires Commutative(m) && ByKey(keep) && SameStates(a, b, m)
    ensures SameStates(Kept(a, keep), Kept(b, keep), m)
  {
    forall k
      ensures HasKey(Kept(a, keep), k) <==> HasKey(Kept(b, keep), k)
      ensures Merged(Kept(a, keep), k, m) == Merged(Kept(b, keep), k, m)
    {
      KeptAt(a, keep, k, m);
      KeptAt(b, keep, k, m);
    }
  }
}
