/** Bags of rows and what each join type makes of them. */
module JoinRows {
  import opened Plans
  import opened InsertBroadcast
  import opened Bags

  /** Joined rows pair a build row with a probe row, or with `Null` where one side is missing; mark
      joins flag a row; aggregations emit a group's key with its state or value. */
  datatype Row =
    | Null
    | Value(id: nat)
    | Pair(build: Row, probe: Row)
    | Marked(row: Row, found: bool)
    | Group(key: nat, state: nat)

  type Bag = multiset<Row>

  /** Which build rows match which probe rows. */
  type Condition = (Row, Row) -> bool

  // ---------------------------------------------------------------- joins

  ghost predicate Found(b: Row, probe: Bag, on: Condition) {
    exists p | p in probe :: on(b, p)
  }

  ghost predicate Matched(build: Bag, p: Row, on: Condition) {
    exists b | b in build :: on(b, p)
  }

  ghost function Pairs(p: Row, on: Condition): (f: Row -> Bag) {
    (b: Row) => if on(b, p) then multiset{Pair(b, p)} else multiset{}
  }

  /** The rows a join emits because of one probe row, given its pairs with matching build rows. */
  function ProbeOutput(joinType: JoinType, p: Row, matched: bool, pairs: Bag): (r: Bag) {
    match joinType
    case Inner => pairs
    case Left => pairs
    case Right => if matched then pairs else multiset{Pair(Null, p)}
    case Full => if matched then pairs else multiset{Pair(Null, p)}
    case RightSemi => if matched then multiset{p} else multiset{}
    case RightAnti => if matched then multiset{} else multiset{p}
    case RightMark => multiset{Marked(p, matched)}
    case LeftSemi => multiset{}
    case LeftAnti => multiset{}
    case LeftMark => multiset{}
  }

  ghost function ProbeRows(joinType: JoinType, build: Bag, p: Row, on: Condition): (r: Bag) {
    ProbeOutput(joinType, p, Matched(build, p, on), FlatMap(build, Pairs(p, on)))
  }

  /** The rows a join emits because of one build row, once the whole probe side was seen. */
  ghost function BuildRows(joinType: JoinType, b: Row, probe: Bag, on: Condition): (r: Bag) {
    match joinType
    case Left => if Found(b, probe, on) then multiset{} else multiset{Pair(b, Null)}
    case Full => if Found(b, probe, on) then multiset{} else multiset{Pair(b, Null)}
    case LeftSemi => if Found(b, probe, on) then multiset{b} else multiset{}
    case LeftAnti => if Found(b, probe, on) then multiset{} else multiset{b}
    case LeftMark => multiset{Marked(b, Found(b, probe, on))}
    case _ => multiset{}
  }

  ghost function PerProbe(joinType: JoinType, build: Bag, on: Condition): (f: Row -> Bag) {
    (p: Row) => ProbeRows(joinType, build, p, on)
  }

  ghost function PerBuild(joinType: JoinType, probe: Bag, on: Condition): (f: Row -> Bag) {
    (b: Row) => BuildRows(joinType, b, probe, on)
  }

  ghost function JoinBags(joinType: JoinType, build: Bag, probe: Bag, on: Condition): (r: Bag) {
    FlatMap(probe, PerProbe(joinType, build, on)) + FlatMap(build, PerBuild(joinType, probe, on))
  }

  // ---------------------------------------------------------------- joining slices of the probe side

  /** Joining the whole build side with each of two probe slices gives what one join would. */
  ghost predicate Splits(joinType: JoinType, build: Bag, a: Bag, b: Bag, on: Condition) {
    JoinBags(joinType, build, a, on) + JoinBags(joinType, build, b, on) == JoinBags(joinType, build, a + b, on)
  }

  /** Only probe rows make such a join emit anything. */
  lemma SafeJoin(joinType: JoinType, build: Bag, probe: Bag, on: Condition)
    requires LeftBroadcastSafe(joinType)
    ensures JoinBags(joinType, build, probe, on) == FlatMap(probe, PerProbe(joinType, build, on))
  {
    NoRows(build, PerBuild(joinType, probe, on));
  }

  lemma SafeSplits(joinType: JoinType, build: Bag, a: Bag, b: Bag, on: Condition)
    requires LeftBroadcastSafe(joinType)
    ensures Splits(joinType, build, a, b, on)
  {
    FlatMapSum(a, b, PerProbe(joinType, build, on));
    SafeJoin(joinType, build, a, on);
    SafeJoin(joinType, build, b, on);
    SafeJoin(joinType, build, a + b, on);
  }

  lemma OneBuildRow(joinType: JoinType, row: Row, probe: Bag, on: Condition)
    ensures JoinBags(joinType, multiset{row}, probe, on)
            == FlatMap(probe, PerProbe(joinType, multiset{row}, on)) + BuildRows(joinType, row, probe, on)
  {
    FlatMapOne(row, PerBuild(joinType, probe, on));
  }

  lemma CountedTwice(a: Bag, b: Bag, ab: Bag, out: Bag)
    requires a + b == ab && |out| == 1
    ensures (a + out) + (b + out) != ab + out
  {
    assert (a + out) + (b + out) == ab + out + out;
    assert |ab + out + out| == |ab + out| + 1;
  }

  /** A build row that both slices report is reported once too often. */
  lemma ReportedTwice(joinType: JoinType, row: Row, a: Bag, b: Bag, on: Condition, out: Bag)
    requires |out| == 1 && BuildRows(joinType, row, a, on) == BuildRows(joinType, row, b, on) == out
    requires BuildRows(joinType, row, a + b, on) == out
    ensures !Splits(joinType, multiset{row}, a, b, on)
  {
    var f := PerProbe(joinType, multiset{row}, on);
    OneBuildRow(joinType, row, a, on);
    OneBuildRow(joinType, row, b, on);
    OneBuildRow(joinType, row, a + b, on);
    FlatMapSum(a, b, f);
    CountedTwice(FlatMap(a, f), FlatMap(b, f), FlatMap(a + b, f), out);
  }

  ghost function Constant(hit: bool): (on: Condition) {
    (b: Row, p: Row) => hit
  }

  lemma FoundConstant(row: Row, probe: Bag, p: Row, hit: bool)
    requires p in probe
    ensures Found(row, probe, Constant(hit)) == hit
  {
  }

  /** For the other types one build row and two probe slices already differ. */
  lemma UnsafeDoesNotSplit(joinType: JoinType) returns (build: Bag, a: Bag, b: Bag, on: Condition)
    requires !LeftBroadcastSafe(joinType)
    ensures !Splits(joinType, build, a, b, on)
  {
    var row, x, y, hit := Value(0), Value(1), Value(2), joinType == LeftSemi;
    build, a, b, on := multiset{row}, multiset{x}, multiset{y}, Constant(hit);
    FoundConstant(row, a, x, hit);
    FoundConstant(row, b, y, hit);
    FoundConstant(row, a + b, x, hit);
    ReportedTwice(joinType, row, a, b, on, BuildRows(joinType, row, a, on));
  }

  /** Broadcasting the build side is right for exactly the join types the pass accepts. */
  lemma SafeIffSplits(joinType: JoinType)
    ensures LeftBroadcastSafe(joinType) <==> forall build, a, b, on :: Splits(joinType, build, a, b, on)
  {
    if LeftBroadcastSafe(joinType) {
      forall build, a, b, on ensures Splits(joinType, build, a, b, on) {
        SafeSplits(joinType, build, a, b, on);
      }
    } else {
      var build, a, b, on := UnsafeDoesNotSplit(joinType);
    }
  }
}
