/** Bags of rows: mapping every row to a bag, and keeping some of the rows. */
module Bags {

  ghost function FlatMap<T(!new), U>(m: multiset<T>, f: T -> multiset<U>): (r: multiset<U>)
    decreases |m|
  {
    if m == multiset{} then multiset{} else
      var x :| x in m;
      f(x) + FlatMap(m - multiset{x}, f)
  }

  lemma Rearranged<U>(a: multiset<U>, b: multiset<U>, c: multiset<U>)
    ensures a + (b + c) == b + (a + c)
  {
  }

  /** The order rows are taken in does not matter. */
  lemma {:induction false} FlatMapTake<T(!new), U>(m: multiset<T>, f: T -> multiset<U>, x: T)
    requires x in m
    ensures FlatMap(m, f) == f(x) + FlatMap(m - multiset{x}, f)
    decreases |m|
  {
    var y :| y in m && FlatMap(m, f) == f(y) + FlatMap(m - multiset{y}, f);
    if x != y {
      TakeTwo(m, f, x, y);
    }
  }

  lemma {:induction false} TakeTwo<T(!new), U>(m: multiset<T>, f: T -> multiset<U>, x: T, y: T)
    requires x in m && y in m && x != y
    ensures f(y) + FlatMap(m - multiset{y}, f) == f(x) + FlatMap(m - multiset{x}, f)
    decreases |m|, 0
  {
    var mx, my, rest := m - multiset{x}, m - multiset{y}, m - multiset{x} - multiset{y};
    assert x in my && y in mx && my - multiset{x} == rest;
    FlatMapTake(my, f, x);
    FlatMapTake(mx, f, y);
    Rearranged(f(y), f(x), FlatMap(rest, f));
  }

  lemma TakeFromSum<T>(a: multiset<T>, b: multiset<T>, x: T)
    requires x in a
    ensures (a + b) - multiset{x} == (a - multiset{x}) + b
  {
  }

  lemma {:induction false} FlatMapSum<T(!new), U>(a: multiset<T>, b: multiset<T>, f: T -> multiset<U>)
    ensures FlatMap(a + b, f) == FlatMap(a, f) + FlatMap(b, f)
    decreases |a|
  {
    if a == multiset{} {
      assert a + b == b;
    } else {
      var x :| x in a;
      var rest := a - multiset{x};
      FlatMapTake(a, f, x);
      FlatMapTake(a + b, f, x);
      TakeFromSum(a, b, x);
      FlatMapSum(rest, b, f);
    }
  }

  lemma FlatMapOne<T(!new), U>(x: T, f: T -> multiset<U>)
    ensures FlatMap(multiset{x}, f) == f(x)
  {
    FlatMapTake(multiset{x}, f, x);
    assert multiset{x} - multiset{x} == multiset{};
  }

  /** Only what a function makes of the rows present counts. */
  lemma {:induction false} FlatMapAgree<T(!new), U>(m: multiset<T>, f: T -> multiset<U>, g: T -> multiset<U>)
    requires forall x | x in m :: f(x) == g(x)
    ensures FlatMap(m, f) == FlatMap(m, g)
    decreases |m|
  {
    if m != multiset{} {
      var x :| x in m;
      FlatMapTake(m, f, x);
      FlatMapTake(m, g, x);
      FlatMapAgree(m - multiset{x}, f, g);
    }
  }

  lemma {:induction false} NoRows<T(!new), U>(m: multiset<T>, f: T -> multiset<U>)
    requires forall x | x in m :: f(x) == multiset{}
    ensures FlatMap(m, f) == multiset{}
    decreases |m|
  {
    if m != multiset{} {
      var x :| x in m;
      FlatMapTake(m, f, x);
      NoRows(m - multiset{x}, f);
    }
  }

  // ---------------------------------------------------------------- keeping rows

  ghost function Kept<T(!new)>(m: multiset<T>, keep: T -> bool): (r: multiset<T>)
    decreases |m|
  {
    if m == multiset{} then multiset{} else
      var x :| x in m;
      (if keep(x) then multiset{x} else multiset{}) + Kept(m - multiset{x}, keep)
  }

  lemma {:induction false} KeptCounts<T(!new)>(m: multiset<T>, keep: T -> bool, x: T)
    ensures Kept(m, keep)[x] == if keep(x) then m[x] else 0
    decreases |m|
  {
    if m != multiset{} {
      var y :| y in m && Kept(m, keep) == (if keep(y) then multiset{y} else multiset{}) + Kept(m - multiset{y}, keep);
      var rest := m - multiset{y};
      KeptCounts(rest, keep, x);
      assert m[x] == rest[x] + if x == y then 1 else 0;
    }
  }

  lemma KeptMembers<T(!new)>(m: multiset<T>, keep: T -> bool)
    ensures forall x :: x in Kept(m, keep) <==> x in m && keep(x)
  {
    forall x ensures x in Kept(m, keep) <==> x in m && keep(x) {
      KeptCounts(m, keep, x);
    }
  }

  /** A bag is what is kept of it and the rest. */
  lemma KeptAndRest<T(!new)>(m: multiset<T>, keep: T -> bool) returns (rest: multiset<T>)
    ensures m == Kept(m, keep) + rest
    ensures forall x | x in rest :: x in m && !keep(x)
  {
    forall x ensures Kept(m, keep)[x] == if keep(x) then m[x] else 0 {
      KeptCounts(m, keep, x);
    }
    rest := m - Kept(m, keep);
  }

  /** Rows of which nothing comes may be dropped first. */
  lemma FlatMapKept<T(!new), U>(m: multiset<T>, keep: T -> bool, f: T -> multiset<U>)
    requires forall x | x in m && !keep(x) :: f(x) == multiset{}
    ensures FlatMap(Kept(m, keep), f) == FlatMap(m, f)
  {
    var rest := KeptAndRest(m, keep);
    FlatMapSum(Kept(m, keep), rest, f);
    NoRows(rest, f);
  }

  lemma KeptSum<T(!new)>(a: multiset<T>, b: multiset<T>, keep: T -> bool)
    ensures Kept(a + b, keep) == Kept(a, keep) + Kept(b, keep)
  {
    forall x ensures Kept(a + b, keep)[x] == (Kept(a, keep) + Kept(b, keep))[x] {
      KeptCounts(a + b, keep, x);
      KeptCounts(a, keep, x);
      KeptCounts(b, keep, x);
    }
  }

  // ---------------------------------------------------------------- mapping every row to a row

  ghost function Only<T, U>(f: T -> U): (g: T -> multiset<U>) {
    (x: T) => multiset{f(x)}
  }

  ghost function Image<T(!new), U>(m: multiset<T>, f: T -> U): (r: multiset<U>) {
    FlatMap(m, Only(f))
  }

  lemma ImageTake<T(!new), U>(m: multiset<T>, f: T -> U, x: T)
    requires x in m
    ensures Image(m, f) == multiset{f(x)} + Image(m - multiset{x}, f)
  {
    FlatMapTake(m, Only(f), x);
  }

  lemma ImageSum<T(!new), U>(a: multiset<T>, b: multiset<T>, f: T -> U)
    ensures Image(a + b, f) == Image(a, f) + Image(b, f)
  {
    FlatMapSum(a, b, Only(f));
  }

  lemma ImageOne<T(!new), U>(x: T, f: T -> U)
    ensures Image(multiset{x}, f) == multiset{f(x)}
  {
    FlatMapOne(x, Only(f));
  }

  lemma {:induction false} ImageInverse<T(!new), U(!new)>(m: multiset<T>, f: T -> U, g: U -> T)
    requires forall x :: g(f(x)) == x
    ensures Image(Image(m, f), g) == m
    decreases |m|
  {
    if m != multiset{} {
      var x :| x in m;
      ImageTake(m, f, x);
      ImageSum(multiset{f(x)}, Image(m - multiset{x}, f), g);
      ImageOne(f(x), g);
      ImageInverse(m - multiset{x}, f, g);
    }
  }

  // ---------------------------------------------------------------- sending rows to tasks

  ghost function Goes<T>(to: T -> nat, t: nat): (keep: T -> bool) {
    (x: T) => to(x) == t
  }

  ghost function GoesBelow<T>(to: T -> nat, k: nat): (keep: T -> bool) {
    (x: T) => to(x) < k
  }

  /** The rows task `t` receives. */
  ghost function For<T(!new)>(m: multiset<T>, to: T -> nat, t: nat): (r: multiset<T>) {
    Kept(m, Goes(to, t))
  }

  /** The rows the first `k` tasks receive. */
  ghost function Below<T(!new)>(m: multiset<T>, to: T -> nat, k: nat): (r: multiset<T>) {
    Kept(m, GoesBelow(to, k))
  }

  lemma BelowNothing<T(!new)>(m: multiset<T>, to: T -> nat)
    ensures Below(m, to, 0) == multiset{}
  {
    KeptMembers(m, GoesBelow(to, 0));
    assert forall x :: x !in Below(m, to, 0);
  }

  lemma BelowNext<T(!new)>(m: multiset<T>, to: T -> nat, k: nat)
    ensures Below(m, to, k + 1) == Below(m, to, k) + For(m, to, k)
  {
    forall x ensures Below(m, to, k + 1)[x] == Below(m, to, k)[x] + For(m, to, k)[x] {
      KeptCounts(m, GoesBelow(to, k + 1), x);
      KeptCounts(m, GoesBelow(to, k), x);
      KeptCounts(m, Goes(to, k), x);
    }
  }

  lemma BelowAll<T(!new)>(m: multiset<T>, to: T -> nat, n: nat)
    requires forall x | x in m :: to(x) < n
    ensures Below(m, to, n) == m
  {
    var rest := KeptAndRest(m, GoesBelow(to, n));
    assert forall x :: x !in rest;
    assert rest == multiset{};
  }

  /** Sending mapped rows is mapping the rows sent. */
  lemma {:induction false} ForImage<T(!new), U(!new)>(m: multiset<T>, f: T -> U, to: U -> nat, to': T -> nat, t: nat)
    requires forall x :: to'(x) == to(f(x))
    ensures For(Image(m, f), to, t) == Image(For(m, to', t), f)
    decreases |m|
  {
    if m != multiset{} {
      var x :| x in m;
      var rest := m - multiset{x};
      assert m == multiset{x} + rest;
      ImageTake(m, f, x);
      KeptSum(multiset{f(x)}, Image(rest, f), Goes(to, t));
      KeptSum(multiset{x}, rest, Goes(to', t));
      ForOne(f(x), to, t);
      ForOne(x, to', t);
      ImageOne(x, f);
      ImageSum(For(multiset{x}, to', t), For(rest, to', t), f);
      ForImage(rest, f, to, to', t);
    }
  }

  lemma ForOne<T(!new)>(x: T, to: T -> nat, t: nat)
    ensures For(multiset{x}, to, t) == if to(x) == t then multiset{x} else multiset{}
  {
    forall y ensures For(multiset{x}, to, t)[y] == if to(y) == t then multiset{x}[y] else 0 {
      KeptCounts(multiset{x}, Goes(to, t), y);
    }
  }

  // ---------------------------------------------------------------- sums over tasks

  ghost function SumBelow<T>(f: nat -> multiset<T>, k: nat): (r: multiset<T>) {
    if k == 0 then multiset{} else SumBelow(f, k - 1) + f(k - 1)
  }

  lemma {:induction false} SameCounts<T, U>(f: nat -> multiset<T>, g: nat -> multiset<U>, x: T, y: U, k: nat)
    requires forall t: nat | t < k :: f(t)[x] == g(t)[y]
    ensures SumBelow(f, k)[x] == SumBelow(g, k)[y]
  {
    if k > 0 {
      SameCounts(f, g, x, y, k - 1);
    }
  }

  lemma {:induction false} NoCounts<T>(f: nat -> multiset<T>, x: T, k: nat)
    requires forall t: nat | t < k :: f(t)[x] == 0
    ensures SumBelow(f, k)[x] == 0
  {
    if k > 0 {
      NoCounts(f, x, k - 1);
    }
  }

  lemma {:induction false} SumOfFlatMaps<T(!new), U>(f: nat -> multiset<T>, g: nat -> multiset<U>,
                                                     h: T -> multiset<U>, k: nat)
    requires forall t: nat | t < k :: g(t) == FlatMap(f(t), h)
    ensures SumBelow(g, k) == FlatMap(SumBelow(f, k), h)
  {
    if k > 0 {
      SumOfFlatMaps(f, g, h, k - 1);
      FlatMapSum(SumBelow(f, k - 1), f(k - 1), h);
      assert g(k - 1) == FlatMap(f(k - 1), h);
    }
  }

  lemma {:induction false} SumOfImages<T(!new), U>(f: nat -> multiset<T>, g: nat -> multiset<U>, h: T -> U, k: nat)
    requires forall t: nat | t < k :: g(t) == Image(f(t), h)
    ensures SumBelow(g, k) == Image(SumBelow(f, k), h)
  {
    if k > 0 {
      SumOfImages(f, g, h, k - 1);
      ImageSum(SumBelow(f, k - 1), f(k - 1), h);
      assert g(k - 1) == Image(f(k - 1), h);
    }
  }

  lemma {:induction false} SumsAgree<T>(f: nat -> multiset<T>, g: nat -> multiset<T>, k: nat)
    requires forall t: nat | t < k :: f(t) == g(t)
    ensures SumBelow(f, k) == SumBelow(g, k)
  {
    if k > 0 {
      SumsAgree(f, g, k - 1);
    }
  }

  lemma {:induction false} FirstOnly<T>(f: nat -> multiset<T>, k: nat)
    requires k > 0 && forall t: nat | 0 < t < k :: f(t) == multiset{}
    ensures SumBelow(f, k) == f(0)
  {
    if k > 1 {
      FirstOnly(f, k - 1);
    } else {
      assert SumBelow(f, 0) == multiset{};
    }
  }

  lemma {:induction false} NothingBelow<T>(f: nat -> multiset<T>, k: nat)
    requires forall t: nat | t < k :: f(t) == multiset{}
    ensures SumBelow(f, k) == multiset{}
  {
    if k > 0 {
      NothingBelow(f, k - 1);
    }
  }

  ghost predicate IsSum<T>(f: nat -> multiset<T>, g: nat -> multiset<T>, h: nat -> multiset<T>, t: nat) {
    f(t) == g(t) + h(t)
  }

  lemma SumOfSums<T>(all: multiset<T>, now: multiset<T>, a: multiset<T>, b: multiset<T>, c: multiset<T>, d: multiset<T>)
    requires all == a + b && now == c + d
    ensures all + now == (a + c) + (b + d)
  {
  }

  /** Sums of parts make up the sum. */
  lemma {:induction false} SumSplits<T>(f: nat -> multiset<T>, g: nat -> multiset<T>, h: nat -> multiset<T>, k: nat)
    requires forall t: nat | t < k :: IsSum(f, g, h, t)
    ensures SumBelow(f, k) == SumBelow(g, k) + SumBelow(h, k)
  {
    if k > 0 {
      SumSplits(f, g, h, k - 1);
      assert IsSum(f, g, h, k - 1);
      SumOfSums(SumBelow(f, k - 1), f(k - 1), SumBelow(g, k - 1), SumBelow(h, k - 1), g(k - 1), h(k - 1));
    }
  }

  ghost predicate Leaves<T>(f: nat -> multiset<T>, h: nat -> multiset<T>, t: nat) {
    h(t) == f(t) + h(t + 1)
  }

  lemma Shift<T>(s: multiset<T>, e: multiset<T>, x: multiset<T>)
    ensures s + (e + x) == (s + e) + x
  {
  }

  /** What is left after every summand was taken away tells what the sum was. */
  lemma {:induction false} Countdown<T>(f: nat -> multiset<T>, h: nat -> multiset<T>, k: nat)
    requires forall t: nat | t < k :: Leaves(f, h, t)
    ensures h(0) == SumBelow(f, k) + h(k)
  {
    if k == 0 {
      assert multiset{} + h(0) == h(0);
    } else {
      Countdown(f, h, k - 1);
      assert Leaves(f, h, k - 1);
      Shift(SumBelow(f, k - 1), f(k - 1), h(k));
    }
  }

  ghost predicate Adds<T>(f: nat -> multiset<T>, g: nat -> multiset<T>, t: nat) {
    g(t + 1) == g(t) + f(t)
  }

  /** A sum is known by what each summand adds. */
  lemma AddsUp<T>(f: nat -> multiset<T>, g: nat -> multiset<T>, t: nat, more: multiset<T>)
    requires f(t) == more && g(t + 1) == g(t) + more
    ensures Adds(f, g, t)
  {
  }

  lemma {:induction false} Telescope<T>(f: nat -> multiset<T>, g: nat -> multiset<T>, k: nat)
    requires g(0) == multiset{} && forall t: nat | t < k :: Adds(f, g, t)
    ensures SumBelow(f, k) == g(k)
  {
    if k > 0 {
      Telescope(f, g, k - 1);
      assert Adds(f, g, k - 1);
    }
  }
}
