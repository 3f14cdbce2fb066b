/** How a distributed union spreads its children over the tasks of its stage. */
module IsolatorUnion {
  import opened Wrappers
  import opened Plans
  import opened Bags

  type pos = x: nat | x > 0 witness 1

  datatype Restriction = Free | Exact(n: pos) | AtLeast(n: pos) | AtMost(n: pos) | Between(min: pos, max: pos)

  /** A child's soft estimate of how many tasks it wants, and a hard restriction. */
  datatype Annotation = Annotation(soft: real, restriction: Restriction)

  function MinOf(a: Annotation): (m: Option<pos>) {
    match a.restriction
    case Exact(n) => Some(n)
    case AtLeast(n) => Some(n)
    case Between(min, _) => Some(min)
    case _ => None
  }

  function MaxOf(a: Annotation): (m: Option<pos>) {
    match a.restriction
    case Exact(n) => Some(n)
    case AtMost(n) => Some(n)
    case Between(_, max) => Some(max)
    case _ => None
  }

  predicate BelowMax(a: Annotation, n: nat) {
    MaxOf(a).None? || n < MaxOf(a).value
  }

  /** What each restriction asks of a child's count. A range that is empty leaves only its top. */
  predicate Respects(a: Annotation, n: nat) {
    match a.restriction
    case Free => true
    case Exact(k) => n == k
    case AtLeast(k) => k <= n
    case AtMost(k) => n <= k
    case Between(min, max) => n <= max && (min <= max ==> min <= n) && (max < min ==> n == max)
  }

  /** Whether the child's restriction lets a count of `n` grow. */
  predicate MayGrow(a: Annotation, n: nat) {
    match a.restriction
    case Free => true
    case Exact(k) => n < k
    case AtLeast(_) => true
    case AtMost(k) => n < k
    case Between(_, max) => n < max
  }

  /** A budget in which the child's least count fits. */
  predicate Feasible(a: Annotation, budget: nat) {
    match a.restriction
    case Exact(k) => k <= budget
    case AtLeast(k) => k <= budget
    case Between(min, _) => min <= budget
    case _ => true
  }

  // ---------------------------------------------------------------- sums

  function Sum(ns: seq<nat>): (n: nat) {
    if ns == [] then 0 else ns[0] + Sum(ns[1..])
  }

  ghost function RealSum(xs: seq<real>): (x: real) {
    if xs == [] then 0.0 else xs[0] + RealSum(xs[1..])
  }

  lemma {:induction false} SumUpdate(ns: seq<nat>, i: nat, n: nat)
    requires i < |ns|
    ensures Sum(ns[i := n]) == Sum(ns) - ns[i] + n
    ensures ns[i] <= Sum(ns)
  {
    if i == 0 {
      assert ns[i := n][1..] == ns[1..];
    } else {
      assert ns[i := n][1..] == ns[1..][i - 1 := n];
      SumUpdate(ns[1..], i - 1, n);
    }
  }

  // ---------------------------------------------------------------- step 2: fractional shares

  function TotalWeight(children: seq<Annotation>): (w: real) {
    if children == [] then 0.0 else children[0].soft + TotalWeight(children[1..])
  }

  function ExactTotal(children: seq<Annotation>): (n: nat) {
    if children == [] then 0 else
      (if children[0].restriction.Exact? then children[0].restriction.n else 0) + ExactTotal(children[1..])
  }

  function FlexibleCount(children: seq<Annotation>): (n: nat) {
    if children == [] then 0 else
      (if children[0].restriction.Exact? then 0 else 1) + FlexibleCount(children[1..])
  }

  function Fraction(whole: real, part: real, total: real): (x: real)
    requires total > 0.0
  {
    whole * part / total
  }

  /** Shares proportional to the soft estimates; without any estimate, an even split of what exact
      children leave. */
  function Share(children: seq<Annotation>, budget: nat, i: nat): (x: real)
    requires i < |children|
  {
    var total := TotalWeight(children);
    if total > 0.0 then Fraction(budget as real, children[i].soft, total)
    else if FlexibleCount(children) > 0 && !children[i].restriction.Exact? then
      Fraction((if budget < ExactTotal(children) then 0 else budget - ExactTotal(children)) as real, 1.0,
               FlexibleCount(children) as real)
    else 0.0
  }

  function Shares(children: seq<Annotation>, budget: nat): (xs: seq<real>)
    ensures |xs| == |children|
  {
    seq(|children|, i requires 0 <= i < |children| => Share(children, budget, i))
  }

  predicate ValidAnnotation(a: Annotation, budget: nat) {
    a.soft >= 0.0 && Feasible(a, budget)
  }

  predicate Valid(children: seq<Annotation>, budget: nat) {
    budget > 0 && children != [] && forall i | 0 <= i < |children| :: ValidAnnotation(children[i], budget)
  }

  lemma {:induction false} WeightBounds(children: seq<Annotation>, i: nat)
    requires forall j | 0 <= j < |children| :: children[j].soft >= 0.0
    requires i < |children|
    ensures children[i].soft <= TotalWeight(children)
  {
    WeightNonNegative(children[1..]);
    if i > 0 {
      WeightBounds(children[1..], i - 1);
    }
  }

  lemma {:induction false} WeightNonNegative(children: seq<Annotation>)
    requires forall j | 0 <= j < |children| :: children[j].soft >= 0.0
    ensures TotalWeight(children) >= 0.0
  {
    if children != [] {
      WeightNonNegative(children[1..]);
    }
  }

  lemma Scales(x: real, y: real, k: real)
    requires x <= y && k >= 0.0
    ensures k * x <= k * y
  {
  }

  lemma ScalesStrictly(x: real, y: real, k: real)
    requires x < y && k > 0.0
    ensures x * k < y * k
  {
  }

  lemma FractionBounds(b: real, x: real, t: real)
    requires 0.0 <= b && 0.0 <= x <= t && t > 0.0
    ensures 0.0 <= Fraction(b, x, t) <= b
  {
    var y := Fraction(b, x, t);
    assert y * t == b * x;
    Scales(x, t, b);
    if y > b {
      ScalesStrictly(b, y, t);
    }
    if y < 0.0 {
      ScalesStrictly(y, 0.0, t);
    }
  }

  lemma ShareBounds(children: seq<Annotation>, budget: nat, i: nat)
    requires Valid(children, budget) && i < |children|
    ensures 0.0 <= Share(children, budget, i) <= budget as real
  {
    var total := TotalWeight(children);
    WeightBounds(children, i);
    if total > 0.0 {
      FractionBounds(budget as real, children[i].soft, total);
    } else if FlexibleCount(children) > 0 {
      var left := if budget < ExactTotal(children) then 0 else budget - ExactTotal(children);
      FractionBounds(left as real, 1.0, FlexibleCount(children) as real);
    }
  }

  /** Proportional shares use the budget up exactly. */
  lemma {:induction false} SharesSum(children: seq<Annotation>, factor: real, xs: seq<real>)
    requires Scaled(children, factor, xs)
    ensures RealSum(xs) == factor * TotalWeight(children)
  {
    if xs != [] {
      SharesSum(children[1..], factor, xs[1..]);
    }
  }

  ghost predicate Weighted(children: seq<Annotation>) {
    exists i | 0 <= i < |children| :: children[i].soft > 0.0
  }

  function ExactCounts(children: seq<Annotation>): (ns: seq<nat>)
    ensures |ns| == |children|
  {
    seq(|children|, i requires 0 <= i < |children| =>
      if children[i].restriction.Exact? then children[i].restriction.n else 0)
  }

  /** What exact children leave of the budget. */
  function LeftOver(children: seq<Annotation>, budget: nat): (n: nat) {
    if budget < Sum(ExactCounts(children)) then 0 else budget - Sum(ExactCounts(children))
  }

  ghost predicate InProportion(children: seq<Annotation>, xs: seq<real>)
    requires |xs| == |children|
  {
    forall i, j | 0 <= i < |xs| && 0 <= j < |xs| :: xs[i] * children[j].soft == xs[j] * children[i].soft
  }

  /** Nothing for exact children, and equal parts of what those leave for the others. */
  ghost predicate InEqualParts(children: seq<Annotation>, budget: nat, xs: seq<real>)
    requires |xs| == |children|
  {
    && (forall i | 0 <= i < |xs| && children[i].restriction.Exact? :: xs[i] == 0.0)
    && (forall i, j | 0 <= i < |xs| && 0 <= j < |xs|
                      && !children[i].restriction.Exact? && !children[j].restriction.Exact? :: xs[i] == xs[j])
    && ((exists i | 0 <= i < |xs| :: !children[i].restriction.Exact?) ==>
          RealSum(xs) == LeftOver(children, budget) as real)
  }

  /** Shares as they should be: with any estimate, in proportion to the estimates and together the whole
      budget; without one, in equal parts. */
  ghost predicate Fair(children: seq<Annotation>, budget: nat, xs: seq<real>) {
    && |xs| == |children|
    && if Weighted(children) then RealSum(xs) == budget as real && InProportion(children, xs)
       else InEqualParts(children, budget, xs)
  }

  lemma {:induction false} ExactTotalIs(children: seq<Annotation>)
    ensures ExactTotal(children) == Sum(ExactCounts(children))
  {
    if children != [] {
      ExactTotalIs(children[1..]);
      assert ExactCounts(children)[1..] == ExactCounts(children[1..]);
    }
  }

  lemma {:induction false} FlexibleCountIs(children: seq<Annotation>)
    ensures FlexibleCount(children) > 0 <==> exists i | 0 <= i < |children| :: !children[i].restriction.Exact?
  {
    if children != [] {
      var rest := children[1..];
      FlexibleCountIs(rest);
      if i :| 0 <= i < |rest| && !rest[i].restriction.Exact? {
        assert !children[i + 1].restriction.Exact?;
      }
      assert forall i | 0 < i < |children| :: rest[i - 1] == children[i];
    }
  }

  lemma {:induction false} EvenSum(children: seq<Annotation>, x: real, xs: seq<real>)
    requires |xs| == |children|
    requires forall i | 0 <= i < |xs| :: xs[i] == if children[i].restriction.Exact? then 0.0 else x
    ensures RealSum(xs) == x * FlexibleCount(children) as real
  {
    if xs != [] {
      EvenSum(children[1..], x, xs[1..]);
    }
  }

  lemma WeightedIff(children: seq<Annotation>)
    requires forall j | 0 <= j < |children| :: children[j].soft >= 0.0
    ensures Weighted(children) <==> TotalWeight(children) > 0.0
  {
    if Weighted(children) {
      var i :| 0 <= i < |children| && children[i].soft > 0.0;
      WeightBounds(children, i);
    } else {
      NoWeight(children);
    }
  }

  lemma {:induction false} NoWeight(children: seq<Annotation>)
    requires forall j | 0 <= j < |children| :: children[j].soft <= 0.0
    ensures TotalWeight(children) <= 0.0
  {
    if children != [] {
      NoWeight(children[1..]);
    }
  }

  lemma ScaledShare(whole: real, part: real, total: real)
    requires total > 0.0
    ensures Fraction(whole, part, total) == (whole / total) * part
  {
  }

  predicate Times(x: real, factor: real, part: real) {
    x == factor * part
  }

  ghost predicate Scaled(children: seq<Annotation>, factor: real, xs: seq<real>) {
    |xs| == |children| && forall i | 0 <= i < |xs| :: Times(xs[i], factor, children[i].soft)
  }

  lemma SameScale(children: seq<Annotation>, factor: real, xs: seq<real>, ys: seq<real>)
    requires Scaled(children, factor, xs) && Scaled(children, factor, ys)
    ensures xs == ys
  {
  }

  lemma SharesScale(children: seq<Annotation>, budget: nat)
    requires TotalWeight(children) > 0.0
    ensures Scaled(children, budget as real / TotalWeight(children), Shares(children, budget))
  {
    var factor := budget as real / TotalWeight(children);
    forall i | 0 <= i < |children| ensures Times(Shares(children, budget)[i], factor, children[i].soft) {
      ShareScales(children, budget, i, factor);
    }
  }

  lemma ShareScales(children: seq<Annotation>, budget: nat, i: nat, factor: real)
    requires TotalWeight(children) > 0.0 && i < |children| && factor == budget as real / TotalWeight(children)
    ensures Times(Shares(children, budget)[i], factor, children[i].soft)
  {
    ScaledShare(budget as real, children[i].soft, TotalWeight(children));
  }

  lemma FactorOf(children: seq<Annotation>, budget: nat, factor: real, xs: seq<real>)
    requires TotalWeight(children) > 0.0 && Scaled(children, factor, xs) && RealSum(xs) == budget as real
    ensures factor == budget as real / TotalWeight(children)
  {
    SharesSum(children, factor, xs);
    FactorIs(factor, TotalWeight(children), budget as real);
  }

  lemma ProportionalSharesSum(children: seq<Annotation>, budget: nat)
    requires TotalWeight(children) > 0.0
    ensures RealSum(Shares(children, budget)) == budget as real
  {
    SharesScale(children, budget);
    SharesSum(children, budget as real / TotalWeight(children), Shares(children, budget));
  }

  lemma Swap(factor: real, a: real, b: real)
    ensures (factor * a) * b == (factor * b) * a
  {
  }

  lemma ScaledInProportion(children: seq<Annotation>, factor: real, xs: seq<real>)
    requires Scaled(children, factor, xs)
    ensures InProportion(children, xs)
  {
    forall i, j | 0 <= i < |xs| && 0 <= j < |xs| ensures xs[i] * children[j].soft == xs[j] * children[i].soft {
      Swap(factor, children[i].soft, children[j].soft);
    }
  }

  lemma SameFactor(x: real, y: real, a: real, b: real)
    requires b > 0.0 && x * b == y * a
    ensures x == (y / b) * a
  {
    assert x == y * a / b;
  }

  lemma ProportionIsScaled(children: seq<Annotation>, xs: seq<real>, k: nat)
    requires |xs| == |children| && InProportion(children, xs) && k < |xs| && children[k].soft > 0.0
    ensures Scaled(children, xs[k] / children[k].soft, xs)
  {
    forall i | 0 <= i < |xs| ensures Times(xs[i], xs[k] / children[k].soft, children[i].soft) {
      SameFactor(xs[i], xs[k], children[i].soft, children[k].soft);
    }
  }

  lemma FactorIs(factor: real, total: real, whole: real)
    requires total > 0.0 && factor * total == whole
    ensures factor == whole / total
  {
  }

  lemma EvenShares(children: seq<Annotation>, budget: nat)
    requires TotalWeight(children) <= 0.0
    ensures InEqualParts(children, budget, Shares(children, budget))
  {
    ExactTotalIs(children);
    FlexibleCountIs(children);
    if FlexibleCount(children) > 0 {
      var xs, n, left := Shares(children, budget), FlexibleCount(children) as real, LeftOver(children, budget) as real;
      ScaledShare(left, 1.0, n);
      EvenSum(children, left / n, xs);
    }
  }

  lemma OnlyEvenShares(children: seq<Annotation>, budget: nat, xs: seq<real>)
    requires |xs| == |children| && TotalWeight(children) <= 0.0 && InEqualParts(children, budget, xs)
    ensures xs == Shares(children, budget)
  {
    ExactTotalIs(children);
    FlexibleCountIs(children);
    if k :| 0 <= k < |children| && !children[k].restriction.Exact? {
      var n, left := FlexibleCount(children) as real, LeftOver(children, budget) as real;
      EvenSum(children, xs[k], xs);
      FactorIs(xs[k], n, left);
      ScaledShare(left, 1.0, n);
    }
  }

  lemma OnlyProportionalShares(children: seq<Annotation>, budget: nat, xs: seq<real>, k: nat)
    requires |xs| == |children| && TotalWeight(children) > 0.0 && k < |xs| && children[k].soft > 0.0
    requires RealSum(xs) == budget as real && InProportion(children, xs)
    ensures xs == Shares(children, budget)
  {
    var factor := xs[k] / children[k].soft;
    ProportionIsScaled(children, xs, k);
    FactorOf(children, budget, factor, xs);
    SharesScale(children, budget);
    SameScale(children, factor, xs, Shares(children, budget));
  }

  lemma SharesAreFair(children: seq<Annotation>, budget: nat)
    requires Valid(children, budget)
    ensures Fair(children, budget, Shares(children, budget))
  {
    WeightedIff(children);
    if TotalWeight(children) > 0.0 {
      ProportionalSharesSum(children, budget);
      SharesScale(children, budget);
      ScaledInProportion(children, budget as real / TotalWeight(children), Shares(children, budget));
    } else {
      EvenShares(children, budget);
    }
  }

  /** Fair shares are unique. */
  lemma OnlySharesAreFair(children: seq<Annotation>, budget: nat, xs: seq<real>)
    requires Valid(children, budget) && Fair(children, budget, xs)
    ensures xs == Shares(children, budget)
  {
    WeightedIff(children);
    if Weighted(children) {
      var k :| 0 <= k < |children| && children[k].soft > 0.0;
      OnlyProportionalShares(children, budget, xs, k);
    } else {
      OnlyEvenShares(children, budget, xs);
    }
  }

  // ---------------------------------------------------------------- step 3: largest remainders

  function Remainder(x: real): (r: real) {
    x - x.Floor as real
  }

  /** Larger remainder first, lower index on ties. */
  predicate Before(xs: seq<real>, a: nat, b: nat)
    requires a < |xs| && b < |xs|
  {
    Remainder(xs[a]) > Remainder(xs[b]) || (Remainder(xs[a]) == Remainder(xs[b]) && a < b)
  }

  ghost predicate Ordered(xs: seq<real>, order: seq<nat>) {
    && (forall i | 0 <= i < |order| :: order[i] < |xs|)
    && (forall i, j | 0 <= i < j < |order| :: Before(xs, order[i], order[j]))
  }

  function Insert(xs: seq<real>, order: seq<nat>, a: nat): (r: seq<nat>)
    requires a < |xs| && forall i | 0 <= i < |order| :: order[i] < |xs|
    ensures |r| == |order| + 1
    ensures forall i :: i in r <==> i == a || i in order
    ensures forall i | 0 <= i < |r| :: r[i] < |xs|
  {
    if order == [] then [a]
    else if Before(xs, a, order[0]) then [a] + order
    else
      assert forall i | 0 <= i < |order| :: order[i] in order;
      [order[0]] + Insert(xs, order[1..], a)
  }

  lemma InFront(xs: seq<real>, a: nat, order: seq<nat>)
    requires Ordered(xs, order) && a < |xs| && forall i | 0 <= i < |order| :: Before(xs, a, order[i])
    ensures Ordered(xs, [a] + order)
  {
    var r := [a] + order;
    forall i, j | 0 <= i < j < |r| ensures r[i] < |xs| && r[j] < |xs| && Before(xs, r[i], r[j]) {
      assert r[j] == order[j - 1];
      if i > 0 {
        assert r[i] == order[i - 1] && Before(xs, order[i - 1], order[j - 1]);
      }
    }
  }

  lemma {:induction false} InsertOrdered(xs: seq<real>, order: seq<nat>, a: nat)
    requires Ordered(xs, order) && a < |xs| && a !in order
    ensures Ordered(xs, Insert(xs, order, a))
  {
    if order == [] {
    } else if Before(xs, a, order[0]) {
      InFront(xs, a, order);
    } else {
      var rest := order[1..];
      assert Ordered(xs, rest) by {
        assert forall i | 0 <= i < |rest| :: rest[i] == order[i + 1];
      }
      InsertOrdered(xs, rest, a);
      var r := Insert(xs, rest, a);
      assert order[0] in order;
      forall i | 0 <= i < |r| ensures Before(xs, order[0], r[i]) {
        assert r[i] in r;
        if r[i] != a {
          var j :| 0 <= j < |rest| && rest[j] == r[i];
          assert Before(xs, order[0], order[j + 1]);
        }
      }
      InFront(xs, order[0], r);
    }
  }

  /** The child indices below `n` by largest remainder. */
  function Order(xs: seq<real>, n: nat): (r: seq<nat>)
    requires n <= |xs|
    ensures |r| == n && (forall i :: i in r <==> 0 <= i < n) && Ordered(xs, r)
  {
    if n == 0 then [] else
      InsertOrdered(xs, Order(xs, n - 1), n - 1);
      Insert(xs, Order(xs, n - 1), n - 1)
  }

  lemma {:induction false} FloorSum(xs: seq<real>, floors: seq<nat>)
    requires |floors| == |xs|
    requires forall i | 0 <= i < |xs| :: xs[i] >= 0.0 && floors[i] == xs[i].Floor
    ensures Sum(floors) as real <= RealSum(xs)
    ensures RealSum(xs) <= (Sum(floors) + |xs|) as real
    ensures xs != [] ==> RealSum(xs) < (Sum(floors) + |xs|) as real
  {
    if xs != [] {
      FloorSum(xs[1..], floors[1..]);
    }
  }

  /** Rounded counts: each share rounded down or up; proportional shares add up to the budget, and
      the ones rounded up have the largest remainders. */
  ghost predicate Rounded(xs: seq<real>, budget: nat, weighted: bool, counts: seq<nat>) {
    && |counts| == |xs|
    && (forall i | 0 <= i < |xs| :: counts[i] <= budget)
    && (forall i | 0 <= i < |xs| :: counts[i] == xs[i].Floor || (weighted && counts[i] == xs[i].Floor + 1))
    && (weighted ==> Sum(counts) == budget)
    && (forall i, j | 0 <= i < |xs| && 0 <= j < |xs| && counts[i] != xs[i].Floor && counts[j] == xs[j].Floor ::
          var a, b := xs[i] - xs[i].Floor as real, xs[j] - xs[j].Floor as real;
          a > b || (a == b && i < j))
  }

  lemma OrderIsDistinct(xs: seq<real>, order: seq<nat>, i: nat)
    requires Ordered(xs, order) && i < |order|
    ensures forall k | 0 <= k < |order| && k != i :: order[k] != order[i]
  {
    forall k | 0 <= k < |order| && k != i ensures order[k] != order[i] {
      assert if k < i then Before(xs, order[k], order[i]) else Before(xs, order[i], order[k]);
    }
  }

  /** One more for each of the first `n` in order. */
  method RoundUpFirst(xs: seq<real>, floors: seq<nat>, order: seq<nat>, n: nat) returns (counts: seq<nat>)
    requires |floors| == |xs| && n <= |order| && Ordered(xs, order) && forall k | k in order :: k < |xs|
    ensures |counts| == |xs| && Sum(counts) == Sum(floors) + n
    ensures forall k | 0 <= k < |order| :: counts[order[k]] == floors[order[k]] + (if k < n then 1 else 0)
  {
    counts := floors;
    var unallocated := n;
    for i := 0 to |order|
      invariant |counts| == |xs| && unallocated == (if i <= n then n - i else 0)
      invariant Sum(counts) + unallocated == Sum(floors) + n
      invariant forall k | 0 <= k < |order| :: counts[order[k]] == floors[order[k]] + (if k < i && k < n then 1 else 0)
    {
      if unallocated == 0 {
        break;
      }
      var idx := order[i];
      SumUpdate(counts, idx, counts[idx] + 1);
      OrderIsDistinct(xs, order, i);
      counts := counts[idx := counts[idx] + 1];
      unallocated := unallocated - 1;
    }
  }

  lemma {:induction false} WithinBudget(counts: seq<nat>, budget: nat)
    requires Sum(counts) <= budget
    ensures forall i | 0 <= i < |counts| :: counts[i] <= budget
  {
    if counts != [] {
      WithinBudget(counts[1..], budget);
      assert forall i | 1 <= i < |counts| :: counts[i] == counts[1..][i - 1];
    }
  }

  /** Rounding up the first `n` in order leaves none before them. */
  lemma LargestRoundUp(xs: seq<real>, floors: seq<nat>, counts: seq<nat>, order: seq<nat>, n: nat)
    requires |floors| == |counts| == |xs| && n <= |order|
    requires forall i, j | 0 <= i < j < |order| :: order[i] < |xs| && order[j] < |xs| && Before(xs, order[i], order[j])
    requires forall c | 0 <= c < |xs| :: c in order
    requires forall k | 0 <= k < |order| ::
               order[k] < |xs| && counts[order[k]] == floors[order[k]] + (if k < n then 1 else 0)
    ensures forall c | 0 <= c < |xs| :: counts[c] == floors[c] || counts[c] == floors[c] + 1
    ensures forall a, b | 0 <= a < |xs| && 0 <= b < |xs| && counts[a] != floors[a] && counts[b] == floors[b] ::
              Before(xs, a, b)
  {
    forall a, b | 0 <= a < |xs| && 0 <= b < |xs| && counts[a] != floors[a] && counts[b] == floors[b]
      ensures Before(xs, a, b)
    {
      assert a in order && b in order;
      var ka :| 0 <= ka < |order| && order[ka] == a;
      var kb :| 0 <= kb < |order| && order[kb] == b;
      assert ka < n <= kb;
    }
    forall c | 0 <= c < |xs| ensures counts[c] == floors[c] || counts[c] == floors[c] + 1 {
      assert c in order;
    }
  }

  lemma AllRoundedUp(xs: seq<real>, budget: nat, floors: seq<nat>, counts: seq<nat>, order: seq<nat>, n: nat)
    requires |floors| == |counts| == |xs| && n <= |order| && Ordered(xs, order)
    requires forall c | 0 <= c < |xs| :: c in order && floors[c] == xs[c].Floor
    requires forall k | 0 <= k < |order| :: counts[order[k]] == floors[order[k]] + (if k < n then 1 else 0)
    requires Sum(counts) == budget
    ensures Rounded(xs, budget, true, counts)
  {
    LargestRoundUp(xs, floors, counts, order, n);
    WithinBudget(counts, budget);
    forall i, j | 0 <= i < |xs| && 0 <= j < |xs| && counts[i] != xs[i].Floor && counts[j] == xs[j].Floor
      ensures var a, b := xs[i] - xs[i].Floor as real, xs[j] - xs[j].Floor as real;
              a > b || (a == b && i < j)
    {
      assert Before(xs, i, j);
    }
  }

  method RoundShares(xs: seq<real>, budget: nat, weighted: bool) returns (counts: seq<nat>)
    requires xs != []
    requires forall i | 0 <= i < |xs| :: 0.0 <= xs[i] <= budget as real
    requires weighted ==> RealSum(xs) == budget as real
    ensures Rounded(xs, budget, weighted, counts)
  {
    counts := seq(|xs|, i requires 0 <= i < |xs| => xs[i].Floor);
    var order := Order(xs, |xs|);
    if weighted {
      ghost var floors := counts;
      FloorSum(xs, floors);
      var unallocated := if budget < Sum(counts) then 0 else budget - Sum(counts);
      counts := RoundUpFirst(xs, counts, order, unallocated);
      AllRoundedUp(xs, budget, floors, counts, order, unallocated);
    }
  }

  // ---------------------------------------------------------------- step 4: restrictions

  function Clamped(a: Annotation, n: nat): (m: nat) {
    var low := if MinOf(a).Some? then Max(n, MinOf(a).value) else n;
    if MaxOf(a).Some? && MaxOf(a).value < low then MaxOf(a).value else low
  }

  function Distance(a: nat, b: nat): (d: nat) {
    if a < b then b - a else a - b
  }

  /** `m` is the count nearest to `n` that the child's restriction allows. */
  ghost predicate Nearest(a: Annotation, n: nat, m: nat) {
    Respects(a, m) && forall k: nat | Respects(a, k) :: Distance(m, n) <= Distance(k, n)
  }

  lemma ClampedIsNearest(a: Annotation, n: nat, m: nat)
    ensures Nearest(a, n, m) <==> m == Clamped(a, n)
  {
    var c := Clamped(a, n);
    assert Respects(a, c);
    if Nearest(a, n, m) {
      assert Distance(m, n) <= Distance(c, n);
    }
  }

  method Clamp(children: seq<Annotation>, rounded: seq<nat>) returns (counts: seq<nat>)
    requires |rounded| == |children|
    ensures |counts| == |children|
    ensures forall i | 0 <= i < |children| :: counts[i] == Clamped(children[i], rounded[i])
  {
    counts := [];
    for i := 0 to |children|
      invariant |counts| == i
      invariant forall j | 0 <= j < i :: counts[j] == Clamped(children[j], rounded[j])
    {
      var n := rounded[i];
      if MinOf(children[i]).Some? {
        n := Max(n, MinOf(children[i]).value);
      }
      if MaxOf(children[i]).Some? && MaxOf(children[i]).value < n {
        n := MaxOf(children[i]).value;
      }
      counts := counts + [n];
    }
  }

  // ---------------------------------------------------------------- step 5: unused slots

  /** Child `i` with `a` slots is further below its share than `j` with `b`, or as far and has the lower index. */
  predicate Needier(xs: seq<real>, i: nat, a: int, j: nat, b: int)
    requires i < |xs| && j < |xs|
  {
    var d, e := xs[i] - a as real, xs[j] - b as real;
    d > e || (d == e && i <= j)
  }

  /** The child furthest below its share among those that may still grow; lower index on ties. */
  method Neediest(children: seq<Annotation>, xs: seq<real>, counts: seq<nat>) returns (best: Option<nat>)
    requires |xs| == |children| == |counts|
    ensures best.None? <==> forall i | 0 <= i < |children| :: !MayGrow(children[i], counts[i])
    ensures best.Some? ==>
              && best.value < |children| && MayGrow(children[best.value], counts[best.value])
              && forall i | 0 <= i < |children| && MayGrow(children[i], counts[i]) ::
                   Needier(xs, best.value, counts[best.value], i, counts[i])
  {
    best := None;
    for i := 0 to |children|
      invariant best.None? ==> forall j | 0 <= j < i :: !MayGrow(children[j], counts[j])
      invariant best.Some? ==>
                  && best.value < i && MayGrow(children[best.value], counts[best.value])
                  && forall j | 0 <= j < i && MayGrow(children[j], counts[j]) ::
                       Needier(xs, best.value, counts[best.value], j, counts[j])
    {
      if BelowMax(children[i], counts[i]) {
        if best.None? || xs[i] - counts[i] as real > xs[best.value] - counts[best.value] as real {
          best := Some(i);
        }
      }
    }
  }

  /** `filled` adds slots to `counts`, each to a child that may grow, and only ever to the one furthest below
      its share, the lower index on ties. */
  ghost predicate Grown(children: seq<Annotation>, xs: seq<real>, counts: seq<nat>, filled: seq<nat>) {
    && |xs| == |children| == |counts| == |filled|
    && (forall i | 0 <= i < |children| :: counts[i] <= filled[i])
    && (forall i | 0 <= i < |children| && counts[i] < filled[i] :: MayGrow(children[i], filled[i] - 1))
    && (forall i, j | 0 <= i < |children| && 0 <= j < |children| && counts[i] < filled[i]
                      && MayGrow(children[j], filled[j]) ::
          Needier(xs, i, filled[i] - 1, j, filled[j]))
  }

  /** `counts` filled up to the budget, or until no child may grow. */
  ghost predicate Filled(children: seq<Annotation>, xs: seq<real>, budget: nat, counts: seq<nat>, filled: seq<nat>) {
    && Grown(children, xs, counts, filled)
    && (forall i | 0 <= i < |children| && counts[i] < filled[i] :: filled[i] <= budget)
    && (Sum(filled) > budget ==> filled == counts)
    && (Sum(filled) < budget ==> forall i | 0 <= i < |children| :: !MayGrow(children[i], filled[i]))
  }

  lemma GrowsNeediest(children: seq<Annotation>, xs: seq<real>, counts: seq<nat>, filled: seq<nat>, best: nat)
    requires Grown(children, xs, counts, filled) && best < |filled| && MayGrow(children[best], filled[best])
    requires forall i | 0 <= i < |children| && MayGrow(children[i], filled[i]) ::
               Needier(xs, best, filled[best], i, filled[i])
    ensures Grown(children, xs, counts, filled[best := filled[best] + 1])
  {
    var next := filled[best := filled[best] + 1];
    forall i, j | 0 <= i < |children| && 0 <= j < |children| && counts[i] < next[i] && MayGrow(children[j], next[j])
      ensures Needier(xs, i, next[i] - 1, j, next[j])
    {
      assert MayGrow(children[j], filled[j]);
      assert i != best ==> Needier(xs, i, filled[i] - 1, j, filled[j]);
    }
  }

  /** One slot more for the neediest child, if any child may grow. */
  method GrowOne(children: seq<Annotation>, xs: seq<real>, ghost counts: seq<nat>, filled: seq<nat>)
    returns (grown: Option<seq<nat>>)
    requires Grown(children, xs, counts, filled)
    ensures grown.None? ==> forall i | 0 <= i < |children| :: !MayGrow(children[i], filled[i])
    ensures grown.Some? ==> Grown(children, xs, counts, grown.value) && Sum(grown.value) == Sum(filled) + 1
  {
    var best := Neediest(children, xs, filled);
    if best.None? {
      return None;
    }
    GrowsNeediest(children, xs, counts, filled, best.value);
    SumUpdate(filled, best.value, filled[best.value] + 1);
    return Some(filled[best.value := filled[best.value] + 1]);
  }

  lemma GrownIsFilled(children: seq<Annotation>, xs: seq<real>, budget: nat, counts: seq<nat>, filled: seq<nat>)
    requires Grown(children, xs, counts, filled)
    requires Sum(filled) <= budget || filled == counts
    requires Sum(filled) < budget ==> forall i | 0 <= i < |children| :: !MayGrow(children[i], filled[i])
    ensures Filled(children, xs, budget, counts, filled)
  {
    if Sum(filled) <= budget {
      WithinBudget(filled, budget);
    }
  }

  method FillUnused(children: seq<Annotation>, xs: seq<real>, budget: nat, counts: seq<nat>) returns (filled: seq<nat>)
    requires |xs| == |children| == |counts|
    ensures Filled(children, xs, budget, counts, filled)
  {
    filled := counts;
    var unallocated := if budget < Sum(counts) then 0 else budget - Sum(counts);
    while unallocated > 0
      invariant 0 <= unallocated && Grown(children, xs, counts, filled)
      invariant if Sum(counts) <= budget then Sum(filled) + unallocated == budget
                else unallocated == 0 && filled == counts
    {
      var grown := GrowOne(children, xs, counts, filled);
      if grown.None? {
        break;
      }
      filled := grown.value;
      unallocated := unallocated - 1;
    }
    GrownIsFilled(children, xs, budget, counts, filled);
  }

  // ---------------------------------------------------------------- steps 6 and 7: placement

  type Entry = (nat, Ctx)

  /** Child `c` in each of its `n` task contexts. */
  function SlotsOf(c: nat, n: nat): (es: seq<Entry>)
    ensures |es| == n
  {
    seq(n, k requires 0 <= k < n => (c, Ctx(k, n)))
  }

  /** Every context of every child below `c`, child by child. */
  function SlotsTo(counts: seq<nat>, c: nat): (es: seq<Entry>)
    requires c <= |counts|
  {
    if c == 0 then [] else SlotsTo(counts, c - 1) + SlotsOf(c - 1, counts[c - 1])
  }

  function Slots(counts: seq<nat>): (es: seq<Entry>) {
    SlotsTo(counts, |counts|)
  }

  /** The one context of each child below `c` that was given no slot. */
  function ZeroSlotsTo(counts: seq<nat>, c: nat): (es: seq<Entry>)
    requires c <= |counts|
  {
    if c == 0 then [] else
      ZeroSlotsTo(counts, c - 1) + (if counts[c - 1] == 0 then [(c - 1, Ctx(0, 1))] else [])
  }

  function Push(m: TaskMap, s: nat, e: Entry): (r: TaskMap)
    requires s < |m|
    ensures |r| == |m|
  {
    m[s := m[s] + [e]]
  }

  /** Deals the entries out round-robin over the first `n` tasks, starting at turn `t`. */
  function Deal(m: TaskMap, es: seq<Entry>, t: nat, n: nat): (r: TaskMap)
    requires 0 < n <= |m|
    ensures |r| == |m|
    decreases |es|
  {
    if es == [] then m else Deal(Push(m, t % n, es[0]), es[1..], t + 1, n)
  }

  function NoEntries(budget: nat): (m: TaskMap)
    ensures |m| == budget
  {
    seq(budget, _ => [])
  }

  function Min(a: nat, b: nat): (m: nat) {
    if a < b then a else b
  }

  /** The task map for given child counts: counted children first, then one context for each child
      without a slot, sharing slots in use. */
  function Placement(counts: seq<nat>, budget: nat): (m: TaskMap)
    requires budget > 0
    ensures |m| == budget
  {
    var placed := Deal(NoEntries(budget), Slots(counts), 0, budget);
    var used := |Slots(counts)|;
    if used == 0 then placed
    else Deal(placed, ZeroSlotsTo(counts, |counts|), 0, Min(used, budget))
  }

  lemma DealSplit(m: TaskMap, a: seq<Entry>, e: Entry, t: nat, n: nat)
    requires 0 < n <= |m|
    ensures Deal(m, a + [e], t, n) == Push(Deal(m, a, t, n), (t + |a|) % n, e)
    decreases |a|
  {
    if a == [] {
      assert a + [e] == [e];
    } else {
      assert (a + [e])[1..] == a[1..] + [e];
      DealSplit(Push(m, t % n, a[0]), a[1..], e, t + 1, n);
    }
  }

  method PlaceCounted(counts: seq<nat>, budget: nat) returns (m: TaskMap, taskIdx: nat)
    requires budget > 0
    ensures taskIdx == |Slots(counts)| && m == Deal(NoEntries(budget), Slots(counts), 0, budget)
  {
    m := NoEntries(budget);
    taskIdx := 0;
    for c := 0 to |counts|
      invariant taskIdx == |SlotsTo(counts, c)| && |m| == budget
      invariant m == Deal(NoEntries(budget), SlotsTo(counts, c), 0, budget)
    {
      ghost var before, slots := SlotsTo(counts, c), SlotsOf(c, counts[c]);
      assert before + slots[..0] == before;
      for k := 0 to counts[c]
        invariant taskIdx == |before| + k && |m| == budget
        invariant m == Deal(NoEntries(budget), before + slots[..k], 0, budget)
      {
        DealSplit(NoEntries(budget), before + slots[..k], slots[k], 0, budget);
        assert before + slots[..k] + [slots[k]] == before + slots[..k + 1];
        var slot := taskIdx % budget;
        m := m[slot := m[slot] + [(c, Ctx(k, counts[c]))]];
        taskIdx := taskIdx + 1;
      }
      assert slots[..counts[c]] == slots;
    }
  }

  method PlaceUncounted(placed: TaskMap, counts: seq<nat>, used: nat) returns (m: TaskMap)
    requires 0 < used <= |placed|
    ensures m == Deal(placed, ZeroSlotsTo(counts, |counts|), 0, used)
  {
    m := placed;
    var zeros := 0;
    for c := 0 to |counts|
      invariant zeros == |ZeroSlotsTo(counts, c)| && |m| == |placed|
      invariant m == Deal(placed, ZeroSlotsTo(counts, c), 0, used)
    {
      if counts[c] == 0 {
        DealSplit(placed, ZeroSlotsTo(counts, c), (c, Ctx(0, 1)), 0, used);
        var slot := zeros % used;
        m := m[slot := m[slot] + [(c, Ctx(0, 1))]];
        zeros := zeros + 1;
      } else {
        assert ZeroSlotsTo(counts, c) + [] == ZeroSlotsTo(counts, c);
      }
    }
  }

  method Place(counts: seq<nat>, budget: nat) returns (m: TaskMap)
    requires budget > 0
    ensures m == Placement(counts, budget)
  {
    var taskIdx: nat;
    m, taskIdx := PlaceCounted(counts, budget);
    if taskIdx > 0 {
      m := PlaceUncounted(m, counts, Min(taskIdx, budget));
    }
  }

  // ---------------------------------------------------------------- what a placement guarantees

  /** All entries of a task map, whatever the task. */
  ghost function Entries(m: TaskMap): (es: multiset<Entry>) {
    if m == [] then multiset{} else multiset(m[0]) + Entries(m[1..])
  }

  ghost predicate Distinct(m: TaskMap) {
    forall s, i, j | 0 <= s < |m| && 0 <= i < j < |m[s]| :: m[s][i].0 != m[s][j].0
  }

  /** The counts children run with: one task at least. */
  function Effective(counts: seq<nat>): (es: seq<nat>)
    ensures |es| == |counts|
  {
    seq(|counts|, i requires 0 <= i < |counts| => Max(1, counts[i]))
  }

  lemma {:induction false} PushEntries(m: TaskMap, s: nat, e: Entry)
    requires s < |m|
    ensures Entries(Push(m, s, e)) == Entries(m) + multiset{e}
  {
    if s == 0 {
      assert Push(m, s, e)[1..] == m[1..];
    } else {
      assert Push(m, s, e)[1..] == Push(m[1..], s - 1, e);
      PushEntries(m[1..], s - 1, e);
    }
  }

  lemma {:induction false} DealEntries(m: TaskMap, es: seq<Entry>, t: nat, n: nat)
    requires 0 < n <= |m|
    ensures Entries(Deal(m, es, t, n)) == Entries(m) + multiset(es)
    decreases |es|
  {
    if es != [] {
      PushEntries(m, t % n, es[0]);
      DealEntries(Push(m, t % n, es[0]), es[1..], t + 1, n);
      assert es == [es[0]] + es[1..];
    }
  }

  lemma {:induction false} NoEntriesEmpty(m: TaskMap)
    requires forall s | 0 <= s < |m| :: m[s] == []
    ensures Entries(m) == multiset{}
  {
    if m != [] {
      NoEntriesEmpty(m[1..]);
    }
  }

  ghost function SlotsAt(counts: seq<nat>): (f: nat -> multiset<Entry>) {
    (c: nat) => if c < |counts| then multiset(SlotsOf(c, counts[c])) else multiset{}
  }

  ghost function ZeroSlotAt(counts: seq<nat>): (f: nat -> multiset<Entry>) {
    (c: nat) => if c < |counts| && counts[c] == 0 then multiset{(c, Ctx(0, 1))} else multiset{}
  }

  lemma SumAppends(a: seq<Entry>, b: seq<Entry>)
    ensures multiset(a + b) == multiset(a) + multiset(b)
  {
  }

  ghost function SlotsBefore(counts: seq<nat>): (g: nat -> multiset<Entry>) {
    (c: nat) => if c <= |counts| then multiset(SlotsTo(counts, c)) else multiset{}
  }

  ghost function ZeroSlotsBefore(counts: seq<nat>): (g: nat -> multiset<Entry>) {
    (c: nat) => if c <= |counts| then multiset(ZeroSlotsTo(counts, c)) else multiset{}
  }

  lemma SlotsAddNext(counts: seq<nat>, c: nat)
    requires c < |counts|
    ensures Adds(SlotsAt(counts), SlotsBefore(counts), c)
  {
    SumAppends(SlotsTo(counts, c), SlotsOf(c, counts[c]));
  }

  lemma ZeroSlotsAddNext(counts: seq<nat>, c: nat)
    requires c < |counts|
    ensures Adds(ZeroSlotAt(counts), ZeroSlotsBefore(counts), c)
  {
    SumAppends(ZeroSlotsTo(counts, c), if counts[c] == 0 then [(c, Ctx(0, 1))] else []);
  }

  lemma SlotsSum(counts: seq<nat>, c: nat)
    requires c <= |counts|
    ensures multiset(SlotsTo(counts, c)) == SumBelow(SlotsAt(counts), c)
  {
    forall i: nat | i < c ensures Adds(SlotsAt(counts), SlotsBefore(counts), i) {
      SlotsAddNext(counts, i);
    }
    Telescope(SlotsAt(counts), SlotsBefore(counts), c);
  }

  lemma ZeroSlotsSum(counts: seq<nat>, c: nat)
    requires c <= |counts|
    ensures multiset(ZeroSlotsTo(counts, c)) == SumBelow(ZeroSlotAt(counts), c)
  {
    forall i: nat | i < c ensures Adds(ZeroSlotAt(counts), ZeroSlotsBefore(counts), i) {
      ZeroSlotsAddNext(counts, i);
    }
    Telescope(ZeroSlotAt(counts), ZeroSlotsBefore(counts), c);
  }

  lemma EffectiveSlotsAt(counts: seq<nat>, c: nat)
    requires c < |counts|
    ensures IsSum(SlotsAt(Effective(counts)), SlotsAt(counts), ZeroSlotAt(counts), c)
  {
    EffectiveSlotsOf(c, counts[c]);
  }

  lemma EffectiveSlots(counts: seq<nat>, c: nat)
    requires c <= |counts|
    ensures multiset(SlotsTo(Effective(counts), c)) ==
            multiset(SlotsTo(counts, c)) + multiset(ZeroSlotsTo(counts, c))
  {
    SlotsSum(Effective(counts), c);
    SlotsSum(counts, c);
    ZeroSlotsSum(counts, c);
    forall i: nat | i < c ensures IsSum(SlotsAt(Effective(counts)), SlotsAt(counts), ZeroSlotAt(counts), i) {
      EffectiveSlotsAt(counts, i);
    }
    SumSplits(SlotsAt(Effective(counts)), SlotsAt(counts), ZeroSlotAt(counts), c);
  }

  lemma EffectiveSlotsOf(c: nat, n: nat)
    ensures SlotsOf(c, Max(1, n)) == SlotsOf(c, n) + (if n == 0 then [(c, Ctx(0, 1))] else [])
  {
  }

  /** Entries of the same child are closer together than the child's count. */
  lemma {:induction false} SlotsClose(counts: seq<nat>, c: nat, i: nat, j: nat)
    requires c <= |counts| && i < j < |SlotsTo(counts, c)|
    requires SlotsTo(counts, c)[i].0 == SlotsTo(counts, c)[j].0
    ensures SlotsTo(counts, c)[i].0 < c && j - i < counts[SlotsTo(counts, c)[i].0]
    decreases c
  {
    var before := SlotsTo(counts, c - 1);
    SlotsChild(counts, c, i);
    if j < |before| {
      SlotsClose(counts, c - 1, i, j);
    } else if i < |before| {
      SlotsChild(counts, c - 1, i);
    }
  }

  lemma {:induction false} SlotsChild(counts: seq<nat>, c: nat, i: nat)
    requires c <= |counts| && i < |SlotsTo(counts, c)|
    ensures SlotsTo(counts, c)[i].0 < c && counts[SlotsTo(counts, c)[i].0] > 0
    decreases c
  {
    if i < |SlotsTo(counts, c - 1)| {
      SlotsChild(counts, c - 1, i);
    }
  }

  lemma {:induction false} ZeroSlotsChild(counts: seq<nat>, c: nat, i: nat)
    requires c <= |counts| && i < |ZeroSlotsTo(counts, c)|
    ensures ZeroSlotsTo(counts, c)[i].0 < c && counts[ZeroSlotsTo(counts, c)[i].0] == 0
    ensures forall j | 0 <= j < i :: ZeroSlotsTo(counts, c)[j].0 < ZeroSlotsTo(counts, c)[i].0
    decreases c
  {
    var before := ZeroSlotsTo(counts, c - 1);
    if i < |before| {
      ZeroSlotsChild(counts, c - 1, i);
    } else {
      forall j | 0 <= j < i ensures before[j].0 < c - 1 {
        ZeroSlotsChild(counts, c - 1, j);
      }
    }
  }

  /** Turns less than a whole round apart fall on different tasks. */
  lemma TurnsDiffer(t: nat, d: nat, n: nat)
    requires 0 < d < n
    ensures (t + d) % n != t % n
  {
    var q, r := t / n, t % n;
    assert t + d == q * n + (r + d);
    if r + d < n {
      ModUnique(t + d, q, r + d, n);
    } else {
      assert t + d == (q + 1) * n + (r + d - n);
      ModUnique(t + d, q + 1, r + d - n, n);
    }
  }

  lemma MultipleIsFar(k: int, n: int)
    requires k != 0 && n > 0
    ensures k * n >= n || k * n <= -n
  {
    if k > 0 {
      assert (k - 1) * n >= 0;
    } else {
      assert (-k - 1) * n >= 0;
    }
  }

  lemma ModUnique(x: nat, q: nat, r: nat, n: nat)
    requires 0 <= r < n && x == q * n + r
    ensures x % n == r
  {
    var k := x / n - q;
    assert k * n == r - x % n;
    if k != 0 {
      MultipleIsFar(k, n);
    }
  }

  /** Dealing puts no child where it already is. */
  ghost predicate Clear(m: TaskMap, es: seq<Entry>, t: nat, n: nat)
    requires 0 < n <= |m|
  {
    forall s, i, j | 0 <= s < |m| && 0 <= i < |m[s]| && 0 <= j < |es| && m[s][i].0 == es[j].0 ::
      s != (t + j) % n
  }

  ghost predicate Close(es: seq<Entry>, n: nat) {
    forall i, j | 0 <= i < j < |es| && es[i].0 == es[j].0 :: j - i < n
  }

  lemma {:induction false} DealDistinct(m: TaskMap, es: seq<Entry>, t: nat, n: nat)
    requires 0 < n <= |m| && Distinct(m) && Close(es, n) && Clear(m, es, t, n)
    ensures Distinct(Deal(m, es, t, n))
    decreases |es|
  {
    if es != [] {
      var s0 := t % n;
      var p := Push(m, s0, es[0]);
      assert Distinct(p) by {
        forall i | 0 <= i < |m[s0]| ensures m[s0][i].0 != es[0].0 {
          assert t + 0 == t;
        }
      }
      forall s, i, j | 0 <= s < |p| && 0 <= i < |p[s]| && 0 <= j < |es[1..]| && p[s][i].0 == es[1..][j].0
        ensures s != (t + 1 + j) % n
      {
        assert es[1..][j] == es[j + 1];
        if s == s0 && i == |m[s0]| {
          TurnsDiffer(t, j + 1, n);
        } else {
          assert m[s][i].0 == es[j + 1].0;
          assert t + 1 + j == t + (j + 1);
        }
      }
      assert Close(es[1..], n) by {
        forall i, j | 0 <= i < j < |es[1..]| && es[1..][i].0 == es[1..][j].0 ensures j - i < n {
          assert es[i + 1].0 == es[j + 1].0;
        }
      }
      DealDistinct(p, es[1..], t + 1, n);
    }
  }

  lemma PlacementHasAllSlots(counts: seq<nat>, budget: nat)
    requires budget > 0 && |Slots(counts)| > 0
    ensures Entries(Placement(counts, budget)) == multiset(Slots(Effective(counts)))
  {
    var none := NoEntries(budget);
    var slots, zeros := Slots(counts), ZeroSlotsTo(counts, |counts|);
    NoEntriesEmpty(none);
    DealEntries(none, slots, 0, budget);
    DealEntries(Deal(none, slots, 0, budget), zeros, 0, Min(|slots|, budget));
    EffectiveSlots(counts, |counts|);
  }

  /** Exact placement: each context of each child is given to exactly one task, children without a
      slot run once, and no task runs the same child twice. */
  lemma PlacementIsExact(counts: seq<nat>, budget: nat)
    requires budget > 0 && |Slots(counts)| > 0
    requires forall c | 0 <= c < |counts| :: counts[c] <= budget
    ensures Entries(Placement(counts, budget)) == multiset(Slots(Effective(counts)))
    ensures Distinct(Placement(counts, budget))
  {
    var none := NoEntries(budget);
    var slots, zeros := Slots(counts), ZeroSlotsTo(counts, |counts|);
    var placed: TaskMap := Deal(none, slots, 0, budget);
    PlacementHasAllSlots(counts, budget);
    forall i, j | 0 <= i < j < |slots| && slots[i].0 == slots[j].0 ensures j - i < budget {
      SlotsClose(counts, |counts|, i, j);
    }
    DealDistinct(none, slots, 0, budget);
    forall s, i, j | 0 <= s < |placed| && 0 <= i < |placed[s]| && 0 <= j < |zeros|
      ensures placed[s][i].0 != zeros[j].0
    {
      PlacedIsCounted(counts, budget, s, i, j);
    }
    forall i, j | 0 <= i < j < |zeros| ensures zeros[i].0 != zeros[j].0 {
      ZeroSlotsChild(counts, |counts|, j);
    }
    DealDistinct(placed, zeros, 0, Min(|slots|, budget));
  }

  lemma PlacedIsCounted(counts: seq<nat>, budget: nat, s: nat, i: nat, j: nat)
    requires budget > 0 && s < budget && j < |ZeroSlotsTo(counts, |counts|)|
    requires var placed := Deal(NoEntries(budget), Slots(counts), 0, budget); |placed| == budget && i < |placed[s]|
    ensures Deal(NoEntries(budget), Slots(counts), 0, budget)[s][i].0 != ZeroSlotsTo(counts, |counts|)[j].0
  {
    var none, slots := NoEntries(budget), Slots(counts);
    var placed: TaskMap := Deal(none, slots, 0, budget);
    NoEntriesEmpty(none);
    DealEntries(none, slots, 0, budget);
    EntryOf(placed, s, i);
    var k :| 0 <= k < |slots| && slots[k] == placed[s][i];
    SlotsChild(counts, |counts|, k);
    ZeroSlotsChild(counts, |counts|, j);
  }

  lemma {:induction false} EntryOf(m: TaskMap, s: nat, i: nat)
    requires s < |m| && i < |m[s]|
    ensures m[s][i] in Entries(m)
  {
    if s == 0 {
      assert m[0][i] in multiset(m[0]);
    } else {
      EntryOf(m[1..], s - 1, i);
    }
  }

  // ---------------------------------------------------------------- which task runs which context

  lemma {:induction false} DealKeeps(m: TaskMap, es: seq<Entry>, t: nat, n: nat, s: nat, e: Entry)
    requires 0 < n <= |m| && s < |m| && e in m[s]
    ensures e in Deal(m, es, t, n)[s]
    decreases |es|
  {
    if es != [] {
      DealKeeps(Push(m, t % n, es[0]), es[1..], t + 1, n, s, e);
    }
  }

  /** Entries are dealt in turn. */
  lemma {:induction false} DealtInTurn(m: TaskMap, es: seq<Entry>, t: nat, n: nat, k: nat)
    requires 0 < n <= |m| && k < |es|
    ensures es[k] in Deal(m, es, t, n)[(t + k) % n]
    decreases |es|
  {
    var p := Push(m, t % n, es[0]);
    if k == 0 {
      DealKeeps(p, es[1..], t + 1, n, t % n, es[0]);
    } else {
      DealtInTurn(p, es[1..], t + 1, n, k - 1);
    }
  }

  lemma {:induction false} SlotPosition(counts: seq<nat>, c: nat, i: nat, d: nat)
    requires c < d <= |counts| && i < counts[c]
    ensures Sum(counts[..c]) + i < |SlotsTo(counts, d)|
    ensures SlotsTo(counts, d)[Sum(counts[..c]) + i] == (c, Ctx(i, counts[c]))
    decreases d
  {
    if d == c + 1 {
      SlotsLength(counts, c);
    } else {
      SlotPosition(counts, c, i, d - 1);
    }
  }

  lemma {:induction false} ZeroSlotPosition(counts: seq<nat>, c: nat, d: nat)
    requires c < d <= |counts| && counts[c] == 0
    ensures |ZeroSlotsTo(counts, c)| < |ZeroSlotsTo(counts, d)|
    ensures ZeroSlotsTo(counts, d)[|ZeroSlotsTo(counts, c)|] == (c, Ctx(0, 1))
    decreases d
  {
    if d > c + 1 {
      ZeroSlotPosition(counts, c, d - 1);
    }
  }

  /** Contexts are placed in consecutive tasks, wrapping at the budget: context `i` of child `c` comes after
      those of all children before it. */
  lemma PlacedInTurn(counts: seq<nat>, budget: nat, c: nat, i: nat)
    requires budget > 0 && c < |counts| && i < counts[c]
    ensures (c, Ctx(i, counts[c])) in Placement(counts, budget)[(Sum(counts[..c]) + i) % budget]
  {
    var k, slots := Sum(counts[..c]) + i, Slots(counts);
    SlotPosition(counts, c, i, |counts|);
    DealtInTurn(NoEntries(budget), slots, 0, budget, k);
    DealKeeps(Deal(NoEntries(budget), slots, 0, budget), ZeroSlotsTo(counts, |counts|), 0, Min(|slots|, budget),
              k % budget, slots[k]);
  }

  /** Children without a slot run once each, in turn over the tasks in use. */
  lemma ZeroPlacedInTurn(counts: seq<nat>, budget: nat, c: nat)
    requires budget > 0 && c < |counts| && counts[c] == 0 && Sum(counts) > 0
    ensures (c, Ctx(0, 1)) in Placement(counts, budget)[|ZeroSlotsTo(counts, c)| % Min(Sum(counts), budget)]
  {
    SlotsLength(counts, |counts|);
    ZeroSlotPosition(counts, c, |counts|);
    DealtInTurn(Deal(NoEntries(budget), Slots(counts), 0, budget), ZeroSlotsTo(counts, |counts|), 0,
                Min(Sum(counts), budget), |ZeroSlotsTo(counts, c)|);
  }

  // ---------------------------------------------------------------- the whole split

  /** Fair shares `xs` rounded, then moved to what the restrictions allow, then filled up. */
  ghost predicate Apportions(children: seq<Annotation>, budget: nat, xs: seq<real>, rounded: seq<nat>,
                             clamped: seq<nat>, counts: seq<nat>) {
    && Valid(children, budget) && Fair(children, budget, xs)
    && Rounded(xs, budget, Weighted(children), rounded)
    && |rounded| == |clamped| == |children|
    && (forall i | 0 <= i < |children| :: Nearest(children[i], rounded[i], clamped[i]))
    && Filled(children, xs, budget, clamped, counts)
  }

  /** The counts follow from the annotations: fair shares, rounded by largest remainder, moved to the
      nearest count each restriction allows, and unused slots given to the neediest children. */
  ghost predicate Apportioned(children: seq<Annotation>, budget: nat, counts: seq<nat>) {
    exists xs, rounded, clamped :: Apportions(children, budget, xs, rounded, clamped, counts)
  }

  lemma {:induction false} SumAtMost(a: seq<nat>, b: seq<nat>)
    requires |a| == |b| && forall i | 0 <= i < |a| :: a[i] <= b[i]
    ensures Sum(a) <= Sum(b) && (Sum(a) == Sum(b) ==> a == b)
  {
    if a != [] {
      SumAtMost(a[1..], b[1..]);
      assert a == [a[0]] + a[1..] && b == [b[0]] + b[1..];
    }
  }

  lemma RoundedDoesNotSwap(xs: seq<real>, budget: nat, weighted: bool, a: seq<nat>, b: seq<nat>, i: nat, j: nat)
    requires Rounded(xs, budget, weighted, a) && Rounded(xs, budget, weighted, b)
    requires i < |xs| && j < |xs| && a[i] > b[i]
    ensures a[j] >= b[j]
  {
  }

  lemma RoundedIsUnique(xs: seq<real>, budget: nat, weighted: bool, a: seq<nat>, b: seq<nat>)
    requires Rounded(xs, budget, weighted, a) && Rounded(xs, budget, weighted, b)
    ensures a == b
  {
    if weighted {
      if i :| 0 <= i < |xs| && a[i] > b[i] {
        forall j | 0 <= j < |xs| ensures b[j] <= a[j] {
          RoundedDoesNotSwap(xs, budget, weighted, a, b, i, j);
        }
        SumAtMost(b, a);
      } else {
        SumAtMost(a, b);
      }
    }
  }

  lemma FilledDoesNotSwap(children: seq<Annotation>, xs: seq<real>, budget: nat, counts: seq<nat>,
                          a: seq<nat>, b: seq<nat>, i: nat, j: nat)
    requires Filled(children, xs, budget, counts, a) && Filled(children, xs, budget, counts, b)
    requires i < |xs| && j < |xs| && a[i] > b[i]
    ensures a[j] >= b[j]
  {
    assert MayGrow(children[i], b[i]);
    assert a[j] < b[j] ==> MayGrow(children[j], a[j]);
    assert MayGrow(children[j], a[j]) ==> Needier(xs, i, a[i] - 1, j, a[j]);
    assert counts[j] < b[j] ==> Needier(xs, j, b[j] - 1, i, b[i]);
  }

  lemma FilledBelow(children: seq<Annotation>, xs: seq<real>, budget: nat, counts: seq<nat>, a: seq<nat>, b: seq<nat>)
    requires Filled(children, xs, budget, counts, a) && Filled(children, xs, budget, counts, b)
    requires forall i | 0 <= i < |a| :: a[i] <= b[i]
    ensures a == b
  {
    SumAtMost(a, b);
    SumAtMost(counts, a);
    SumAtMost(counts, b);
    if Sum(a) < budget {
      forall i | 0 <= i < |a| ensures b[i] <= a[i] {
        assert !MayGrow(children[i], a[i]);
      }
    }
  }

  lemma FilledIsUnique(children: seq<Annotation>, xs: seq<real>, budget: nat, counts: seq<nat>, a: seq<nat>,
                       b: seq<nat>)
    requires Filled(children, xs, budget, counts, a) && Filled(children, xs, budget, counts, b)
    ensures a == b
  {
    if i :| 0 <= i < |xs| && a[i] > b[i] {
      forall j | 0 <= j < |xs| ensures b[j] <= a[j] {
        FilledDoesNotSwap(children, xs, budget, counts, a, b, i, j);
      }
      FilledBelow(children, xs, budget, counts, b, a);
    } else {
      FilledBelow(children, xs, budget, counts, a, b);
    }
  }

  lemma NearestIsUnique(children: seq<Annotation>, rounded: seq<nat>, a: seq<nat>, b: seq<nat>)
    requires |rounded| == |children| == |a| == |b|
    requires forall i | 0 <= i < |a| :: Nearest(children[i], rounded[i], a[i]) && Nearest(children[i], rounded[i], b[i])
    ensures a == b
  {
    forall i | 0 <= i < |a| ensures a[i] == b[i] {
      ClampedIsNearest(children[i], rounded[i], a[i]);
      ClampedIsNearest(children[i], rounded[i], b[i]);
    }
  }

  /** The split has no freedom: estimates, restrictions and budget determine the counts, which respect
      every restriction. */
  lemma ApportionmentIsUnique(children: seq<Annotation>, budget: nat, a: seq<nat>, b: seq<nat>)
    requires Apportioned(children, budget, a) && Apportioned(children, budget, b)
    ensures a == b && WithinLimits(children, budget, a)
  {
    var xs, r, c :| Apportions(children, budget, xs, r, c, a);
    var xs', r', c' :| Apportions(children, budget, xs', r', c', b);
    OnlySharesAreFair(children, budget, xs);
    OnlySharesAreFair(children, budget, xs');
    RoundedIsUnique(xs, budget, Weighted(children), r, r');
    NearestIsUnique(children, r, c, c');
    FilledIsUnique(children, xs, budget, c, a, b);
    ApportionedWithinLimits(children, budget, xs, r, c, a);
  }

  /** Restrictions are respected, no child exceeds the budget, and a slot stays unused only if no
      child may grow. */
  ghost predicate WithinLimits(children: seq<Annotation>, budget: nat, counts: seq<nat>) {
    && |counts| == |children|
    && (forall i | 0 <= i < |children| :: Respects(children[i], counts[i]) && counts[i] <= budget)
    && (Sum(counts) < budget ==> forall i | 0 <= i < |children| :: !MayGrow(children[i], counts[i]))
  }

  lemma ApportionedWithinLimits(children: seq<Annotation>, budget: nat, xs: seq<real>, rounded: seq<nat>,
                                clamped: seq<nat>, counts: seq<nat>)
    requires Apportions(children, budget, xs, rounded, clamped, counts)
    ensures WithinLimits(children, budget, counts)
  {
    forall i | 0 <= i < |children| ensures Respects(children[i], counts[i]) && counts[i] <= budget {
      assert ValidAnnotation(children[i], budget) && Nearest(children[i], rounded[i], clamped[i]);
      ClampedIsNearest(children[i], rounded[i], clamped[i]);
    }
  }

  lemma SomeSlot(children: seq<Annotation>, budget: nat, counts: seq<nat>)
    requires Valid(children, budget) && WithinLimits(children, budget, counts)
    ensures |Slots(counts)| > 0
  {
    SlotsLength(counts, |counts|);
    SumUpdate(counts, 0, 0);
    if Sum(counts) < budget {
      assert !MayGrow(children[0], counts[0]) && Respects(children[0], counts[0]);
    }
  }

  method CountTasks(children: seq<Annotation>, budget: nat) returns (counts: seq<nat>)
    requires Valid(children, budget)
    ensures Apportioned(children, budget, counts) && WithinLimits(children, budget, counts)
  {
    var xs := Shares(children, budget);
    var weighted := TotalWeight(children) > 0.0;
    forall i | 0 <= i < |children| ensures 0.0 <= xs[i] <= budget as real {
      ShareBounds(children, budget, i);
    }
    if weighted {
      ProportionalSharesSum(children, budget);
    }
    var rounded := RoundShares(xs, budget, weighted);
    var clamped := Clamp(children, rounded);
    counts := FillUnused(children, xs, budget, clamped);
    SharesAreFair(children, budget);
    WeightedIff(children);
    forall i | 0 <= i < |children| ensures Nearest(children[i], rounded[i], clamped[i]) {
      ClampedIsNearest(children[i], rounded[i], clamped[i]);
    }
    assert Apportions(children, budget, xs, rounded, clamped, counts);
    ApportionedWithinLimits(children, budget, xs, rounded, clamped, counts);
  }

  /** Fails exactly on a degenerate union or an impossible request; otherwise routes every child's
      contexts to exactly one task each, with counts within every child's restriction, and leaves
      slots unused only if no child may grow. */
  method SplitChildren(children: seq<Annotation>, budget: nat) returns (r: Result<TaskMap>, ghost counts: seq<nat>)
    ensures r.Success? <==> Valid(children, budget)
    ensures r.Success? ==>
              && Apportioned(children, budget, counts) && WithinLimits(children, budget, counts)
              && r.value == Placement(counts, budget)
              && Routed(r.value, budget, |children|)
              && ChildCounts(r.value, |children|) == Effective(counts)
  {
    counts := [];
    if budget == 0 || children == [] {
      return Failure, [];
    }
    for i := 0 to |children|
      invariant forall j | 0 <= j < i :: ValidAnnotation(children[j], budget)
    {
      if (MinOf(children[i]).Some? && MinOf(children[i]).value > budget) || children[i].soft < 0.0 {
        return Failure, [];
      }
    }
    var taskCounts := CountTasks(children, budget);
    SomeSlot(children, budget, taskCounts);
    PlacementIsExact(taskCounts, budget);
    var m := Place(taskCounts, budget);
    PlacedIsRouted(m, Effective(taskCounts));
    return Success(m), taskCounts;
  }

  lemma {:induction false} SlotsLength(counts: seq<nat>, c: nat)
    requires c <= |counts|
    ensures |SlotsTo(counts, c)| == Sum(counts[..c])
    ensures counts[..|counts|] == counts
  {
    if c > 0 {
      SlotsLength(counts, c - 1);
      SumAppend(counts[..c - 1], counts[c - 1]);
      assert counts[..c] == counts[..c - 1] + [counts[c - 1]];
    }
  }

  lemma {:induction false} SumAppend(ns: seq<nat>, n: nat)
    ensures Sum(ns + [n]) == Sum(ns) + n
  {
    if ns != [] {
      assert (ns + [n])[1..] == ns[1..] + [n];
      SumAppend(ns[1..], n);
    }
  }

  // ---------------------------------------------------------------- well-routed task maps

  function ChildCounts(m: TaskMap, n: nat): (counts: seq<nat>)
    ensures |counts| == n
  {
    seq(n, c requires 0 <= c < n => ChildCount(m, c))
  }

  /** What the traversals rely on: one list per task, and each child `c` of `n` is given each of its
      contexts `0/k .. k-1/k` in exactly one place, where `k` is the count the map itself reports;
      within one task no child occurs twice. */
  ghost predicate Routed(m: TaskMap, tasks: nat, n: nat) {
    && |m| == tasks
    && Entries(m) == multiset(Slots(ChildCounts(m, n)))
    && Distinct(m)
  }

  lemma {:induction false} EntryCountIs(es: seq<Entry>, c: nat, k: nat)
    requires forall i | 0 <= i < |es| && es[i].0 == c :: es[i].1.count == k
    ensures EntryCount(es, c) <= k
    ensures (exists i :: 0 <= i < |es| && es[i].0 == c) ==> EntryCount(es, c) == k
  {
    if es != [] {
      EntryCountIs(es[1..], c, k);
      if i :| 0 <= i < |es| && es[i].0 == c {
        assert i > 0 ==> es[1..][i - 1] == es[i];
      }
    }
  }

  lemma {:induction false} ChildCountIs(m: TaskMap, c: nat, k: nat)
    requires forall e | e in Entries(m) && e.0 == c :: e.1.count == k
    ensures ChildCount(m, c) <= k
    ensures (exists e :: e in Entries(m) && e.0 == c) ==> ChildCount(m, c) == k
  {
    if m != [] {
      forall i | 0 <= i < |m[0]| && m[0][i].0 == c ensures m[0][i].1.count == k {
        assert m[0][i] in multiset(m[0]);
      }
      EntryCountIs(m[0], c, k);
      forall e | e in Entries(m[1..]) && e.0 == c ensures e.1.count == k {
        assert e in Entries(m);
      }
      ChildCountIs(m[1..], c, k);
      if e :| e in Entries(m) && e.0 == c {
        if e in multiset(m[0]) {
          var i :| 0 <= i < |m[0]| && m[0][i] == e;
        }
      }
    }
  }

  lemma {:induction false} SlotAt(counts: seq<nat>, c: nat, i: nat)
    requires c <= |counts| && i < |SlotsTo(counts, c)|
    ensures var e := SlotsTo(counts, c)[i];
            e.0 < c && e.1.count == counts[e.0] && e.1.index < counts[e.0]
    decreases c
  {
    if i < |SlotsTo(counts, c - 1)| {
      SlotAt(counts, c - 1, i);
    }
  }

  lemma {:induction false} HasSlot(counts: seq<nat>, c: nat, e: Entry)
    requires c <= |counts| && e.0 < c && e.1.count == counts[e.0] && e.1.index < counts[e.0]
    ensures e in SlotsTo(counts, c)
    decreases c
  {
    if e.0 == c - 1 {
      assert SlotsOf(c - 1, counts[c - 1])[e.1.index] == e;
    } else {
      HasSlot(counts, c - 1, e);
    }
  }

  /** A map that places exactly the slots of some positive counts is well routed. */
  lemma PlacedIsRouted(m: TaskMap, counts: seq<nat>)
    requires Entries(m) == multiset(Slots(counts)) && Distinct(m)
    requires forall c | 0 <= c < |counts| :: counts[c] > 0
    ensures ChildCounts(m, |counts|) == counts && Routed(m, |m|, |counts|)
  {
    forall c | 0 <= c < |counts| ensures ChildCount(m, c) == counts[c] {
      forall e | e in Entries(m) && e.0 == c ensures e.1.count == counts[c] {
        var i :| 0 <= i < |Slots(counts)| && Slots(counts)[i] == e;
        SlotAt(counts, |counts|, i);
      }
      HasSlot(counts, |counts|, (c, Ctx(0, counts[c])));
      assert (c, Ctx(0, counts[c])) in Entries(m);
      ChildCountIs(m, c, counts[c]);
    }
  }
}
