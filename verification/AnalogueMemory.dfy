/**
 * The memory behind the analogue search: rows grouped by missing pattern, each group's tree over its observed
 * columns.
 */
module AnalogueMemory {
  import opened Prelude
  import opened Vectors
  import opened Multisets
  import opened CappedSearch
  import opened Shortlists
  import opened RowGroups
  import opened CappedAnswer
  import opened DistanceMeaning
  import StateMetric
  import Analogues

  type Row = StateMetric.Row

  ghost predicate ValidRow(r: Row, width: nat)
  {
    |r.z| == |r.missing| == width && forall i :: 0 <= i < width && r.missing[i] ==> r.z[i] == 0.0
  }

  datatype Memory = Memory(rows: seq<Row>, days: seq<int>, ids: seq<int>, groups: seq<Group>)
  {
    /** Sample ids ascend and follow date order. */
    ghost predicate Aligned(width: nat)
    {
      && |rows| == |days| == |ids| && 0 < |rows| && 0 < width
      && (forall i :: 0 <= i < |rows| ==> ValidRow(rows[i], width))
      && (forall i, j :: 0 <= i < j < |ids| ==> ids[i] < ids[j] && days[i] <= days[j])
    }

    /** The groups partition the rows by missing pattern. */
    ghost predicate Grouped()
    {
      IsGrouping(groups, CodesOf(rows))
    }
  }

  function CodesOf(rows: seq<Row>): (c: seq<Code>)
    ensures |c| == |rows| && forall i :: 0 <= i < |rows| ==> c[i] == Code(rows[i].missing, false)
  {
    seq(|rows|, i requires 0 <= i < |rows| => Code(rows[i].missing, false))
  }

  // ---- the distance, whole and by columns

  /** The distance of two rows, without any grouping. */
  function Distance(q: Row, c: Row): real
    requires |q.z| == |q.missing| == |c.z| == |c.missing| && q.z != []
  {
    SquaredDistance(q.z, c.z) + StateMetric.PatternPenalty(q.missing, c.missing)
  }

  /** The columns a pattern leaves observed. */
  function Seen(z: seq<real>, pattern: seq<bool>): seq<real>
    requires |z| == |pattern|
  {
    if z == [] then []
    else
      var n := |z| - 1;
      Seen(z[..n], pattern[..n]) + if pattern[n] then [] else [z[n]]
  }

  /** The columns a pattern misses. */
  function Unseen(z: seq<real>, pattern: seq<bool>): seq<real>
    requires |z| == |pattern|
  {
    if z == [] then []
    else
      var n := |z| - 1;
      Unseen(z[..n], pattern[..n]) + if pattern[n] then [z[n]] else []
  }

  lemma {:induction false} SeenLength(a: seq<real>, b: seq<real>, pattern: seq<bool>)
    requires |a| == |b| == |pattern|
    ensures |Seen(a, pattern)| == |Seen(b, pattern)|
  {
    if a != [] {
      var n := |a| - 1;
      SeenLength(a[..n], b[..n], pattern[..n]);
    }
  }

  /** What the tree measures: the observed columns only. */
  function TreeDistance(q: Row, c: Row, pattern: seq<bool>): real
    requires |q.z| == |c.z| == |pattern|
  {
    SeenLength(q.z, c.z, pattern);
    SquaredDistance(Seen(q.z, pattern), Seen(c.z, pattern))
  }

  /** What the group adds for the query's own entries in the columns it misses, and for the pattern. */
  function Offset(q: Row, pattern: seq<bool>): real
    requires |q.z| == |q.missing| == |pattern| && pattern != []
  {
    Dot(Unseen(q.z, pattern), Unseen(q.z, pattern)) + StateMetric.PatternPenalty(q.missing, pattern)
  }

  lemma {:induction false} DotSnoc(a: seq<real>, x: real)
    ensures Dot(a + [x], a + [x]) == Dot(a, a) + Times(x, x)
  {
    assert (a + [x])[..|a|] == a;
  }

  lemma {:induction false} DistanceSnoc(a: seq<real>, x: real, b: seq<real>, y: real)
    requires |a| == |b|
    ensures SquaredDistance(a + [x], b + [y]) == SquaredDistance(a, b) + Times(x - y, x - y)
  {
    assert (a + [x])[..|a|] == a && (b + [y])[..|b|] == b;
  }

  /** Columns where the second row holds zero contribute the first row's squares. */
  lemma {:induction false} DistanceSplits(a: seq<real>, b: seq<real>, pattern: seq<bool>)
    requires |a| == |b| == |pattern| && forall i :: 0 <= i < |b| && pattern[i] ==> b[i] == 0.0
    ensures |Seen(a, pattern)| == |Seen(b, pattern)|
    ensures SquaredDistance(a, b)
         == SquaredDistance(Seen(a, pattern), Seen(b, pattern)) + Dot(Unseen(a, pattern), Unseen(a, pattern))
  {
    hide Times;
    SeenLength(a, b, pattern);
    if a != [] {
      var n := |a| - 1;
      DistanceSplits(a[..n], b[..n], pattern[..n]);
      if pattern[n] {
        DotSnoc(Unseen(a[..n], pattern[..n]), a[n]);
        assert a[n] - b[n] == a[n];
        assert Seen(a, pattern) == Seen(a[..n], pattern[..n]) && Seen(b, pattern) == Seen(b[..n], pattern[..n]);
      } else {
        DistanceSnoc(Seen(a[..n], pattern[..n]), a[n], Seen(b[..n], pattern[..n]), b[n]);
        assert Unseen(a, pattern) == Unseen(a[..n], pattern[..n]);
      }
    }
  }

  /** The group's distance is the whole distance, for every query and every row of the group's pattern. */
  lemma {:induction false} GroupDistance(q: Row, c: Row, width: nat)
    requires 0 < width && ValidRow(q, width) && ValidRow(c, width)
    ensures TreeDistance(q, c, c.missing) + Offset(q, c.missing) == Distance(q, c)
    ensures 0.0 <= TreeDistance(q, c, c.missing)
  {
    DistanceSplits(q.z, c.z, c.missing);
    DistanceNonnegative(Seen(q.z, c.missing), Seen(c.z, c.missing));
    hide SquaredDistance, Dot, Seen, Unseen, StateMetric.PatternPenalty;
  }

  // ---- what a query sees

  /** Row i under the whole distance. */
  function HitOf(memory: Memory, q: Row, width: nat): nat -> Hit
    requires memory.Aligned(width) && ValidRow(q, width)
  {
    (i: nat) => if i < |memory.rows| then Hit(Distance(q, memory.rows[i]), memory.days[i], memory.ids[i])
                else Hit(0.0, 0, 0)
  }

  function AllHits(memory: Memory, q: Row, width: nat): seq<Hit>
    requires memory.Aligned(width) && ValidRow(q, width)
  {
    Map(HitOf(memory, q, width), Numbers(|memory.rows|))
  }

  /** What one group's tree measures for row i. */
  function TreeOf(memory: Memory, q: Row, pattern: seq<bool>, width: nat): nat -> real
    requires memory.Aligned(width) && ValidRow(q, width) && |pattern| == width
  {
    (i: nat) => if i < |memory.rows| then TreeDistance(q, memory.rows[i], pattern) else 0.0
  }

  /** Group members all have the group's pattern. */
  lemma {:induction false} MemberFacts(memory: Memory, g: nat, width: nat)
    requires memory.Aligned(width) && memory.Grouped() && g < |memory.groups|
    ensures var group := memory.groups[g];
            && group.members != [] && |group.pattern| == width
            && forall i :: i in multiset(group.members) ==> i < |memory.rows| && memory.rows[i].missing == group.pattern
  {
    var group, codes := memory.groups[g], CodesOf(memory.rows);
    assert OfOneCode(group, codes);
    assert codes[group.members[0]] == Code(group.pattern, group.invalid);
    assert ValidRow(memory.rows[group.members[0]], width);
    forall i | i in multiset(group.members) ensures i < |memory.rows| && memory.rows[i].missing == group.pattern {
      var p :| 0 <= p < |group.members| && group.members[p] == i;
      assert codes[group.members[p]] == Code(group.pattern, group.invalid);
    }
  }

  /** One offset separates the tree's distance from the whole one throughout a group. */
  lemma {:induction false} GroupOffsets(memory: Memory, q: Row, g: nat, width: nat)
    requires memory.Aligned(width) && memory.Grouped() && ValidRow(q, width) && g < |memory.groups|
    ensures var group := memory.groups[g];
            && |group.pattern| == width
            && Offsets(TreeOf(memory, q, group.pattern, width), HitOf(memory, q, width), group.members,
                       Offset(q, group.pattern))
            && forall i :: i in multiset(group.members) ==> 0.0 <= TreeOf(memory, q, group.pattern, width)(i)
  {
    MemberFacts(memory, g, width);
    var group := memory.groups[g];
    hide Offset, TreeDistance, Distance;
    forall i | i in multiset(group.members)
      ensures HitOf(memory, q, width)(i).dist == TreeOf(memory, q, group.pattern, width)(i) + Offset(q, group.pattern)
              && 0.0 <= TreeOf(memory, q, group.pattern, width)(i) {
      GroupDistance(q, memory.rows[i], width);
    }
  }

  function PatternOf(memory: Memory, g: nat, width: nat): (pattern: seq<bool>)
    requires memory.Aligned(width) && memory.Grouped() && g < |memory.groups|
    ensures |pattern| == width && pattern == memory.groups[g].pattern
  {
    MemberFacts(memory, g, width);
    memory.groups[g].pattern
  }

  /** The groups with this query's distances. */
  function Facing(memory: Memory, q: Row, width: nat): (s: seq<Analogues.Group>)
    requires memory.Aligned(width) && memory.Grouped() && ValidRow(q, width)
    ensures |s| == |memory.groups|
    ensures forall g :: 0 <= g < |s| ==>
              s[g] == Analogues.Group(Map(HitOf(memory, q, width), memory.groups[g].members),
                                      Offset(q, PatternOf(memory, g, width)))
  {
    seq(|memory.groups|, g requires 0 <= g < |memory.groups| =>
      Analogues.Group(Map(HitOf(memory, q, width), memory.groups[g].members), Offset(q, PatternOf(memory, g, width))))
  }

  lemma {:induction false} FacingHits(memory: Memory, q: Row, width: nat)
    requires memory.Aligned(width) && memory.Grouped() && ValidRow(q, width)
    ensures Analogues.HitsOf(Facing(memory, q, width)) == GroupHits(HitOf(memory, q, width), memory.groups)
    ensures multiset(Analogues.All(Facing(memory, q, width))) == multiset(AllHits(memory, q, width))
  {
    hide HitOf, Offset, Map, Flatten;
    assert Analogues.HitsOf(Facing(memory, q, width)) == GroupHits(HitOf(memory, q, width), memory.groups);
    AllSeen(HitOf(memory, q, width), memory.groups, |memory.rows|);
  }

  lemma {:induction false} HitsDated(memory: Memory, q: Row, width: nat)
    requires memory.Aligned(width) && ValidRow(q, width)
    ensures Analogues.Dated(AllHits(memory, q, width))
  {
    hide Distance;
    var s, n := AllHits(memory, q, width), |memory.rows|;
    forall i | 0 <= i < n ensures s[i].id == memory.ids[i] && s[i].day == memory.days[i] {
      assert s[i] == HitOf(memory, q, width)(Numbers(n)[i]);
    }
  }

  lemma {:induction false} FacingGroup(memory: Memory, q: Row, g: nat, width: nat)
    requires memory.Aligned(width) && memory.Grouped() && ValidRow(q, width) && g < |memory.groups|
    ensures Analogues.FittedGroup(Facing(memory, q, width)[g])
  {
    var members := memory.groups[g].members;
    MemberFacts(memory, g, width);
    GroupOffsets(memory, q, g, width);
    hide HitOf, Offset, TreeOf;
    forall i | 0 <= i < |members| ensures members[i] in multiset(members) {
    }
  }

  /** What the search needs of a fitted memory follows from how the memory was built. */
  lemma {:induction false} FacingFitted(memory: Memory, q: Row, width: nat)
    requires memory.Aligned(width) && memory.Grouped() && ValidRow(q, width)
    ensures Analogues.FittedMemory(Facing(memory, q, width))
  {
    var groups := Facing(memory, q, width);
    FacingHits(memory, q, width);
    HitsDated(memory, q, width);
    Analogues.PartDated(AllHits(memory, q, width), Analogues.All(groups));
    SomeGroup(memory.groups, |memory.rows|);
    hide Analogues.Dated, Analogues.All, AllHits, Facing, Analogues.FittedGroup, Memory.Aligned, Memory.Grouped, HitOf;
    forall g | 0 <= g < |groups| ensures Analogues.FittedGroup(groups[g]) {
      FacingGroup(memory, q, g, width);
    }
  }

  // ---- the trees, by their interface only

  /** nearest(g, count): the members of group g nearest to the query in its observed columns. */
  ghost predicate IsTree(memory: Memory, q: Row, tree: (nat, nat) -> seq<nat>, width: nat)
    requires memory.Aligned(width) && memory.Grouped() && ValidRow(q, width)
  {
    forall g: nat, count: nat :: g < |memory.groups| && count <= |memory.groups[g].members| ==>
      NearestMembers(TreeOf(memory, q, PatternOf(memory, g, width), width), memory.groups[g].members, count,
                     tree(g, count))
  }

  /** within(g, radius): exactly the members of group g at most that far in its observed columns. */
  ghost predicate IsWithin(memory: Memory, q: Row, within: (nat, real) -> seq<nat>, width: nat)
    requires memory.Aligned(width) && memory.Grouped() && ValidRow(q, width)
  {
    forall g: nat, radius: real, i: nat :: g < |memory.groups| && 0.0 <= radius ==>
      (i in within(g, radius) <==>
         i in memory.groups[g].members && TreeOf(memory, q, PatternOf(memory, g, width), width)(i) <= Square(radius))
  }

  function NearestHits(memory: Memory, q: Row, tree: (nat, nat) -> seq<nat>, width: nat): (nat, nat) -> seq<Hit>
    requires memory.Aligned(width) && ValidRow(q, width)
  {
    (g: nat, count: nat) => Map(HitOf(memory, q, width), tree(g, count))
  }

  function WithinHits(memory: Memory, q: Row, within: (nat, real) -> seq<nat>, width: nat): (nat, real) -> seq<Hit>
    requires memory.Aligned(width) && ValidRow(q, width)
  {
    (g: nat, radius: real) => Map(HitOf(memory, q, width), within(g, radius))
  }

  lemma {:induction false} TreeServes(memory: Memory, q: Row, tree: (nat, nat) -> seq<nat>, width: nat)
    requires memory.Aligned(width) && memory.Grouped() && ValidRow(q, width) && IsTree(memory, q, tree, width)
    ensures Analogues.IsNearest(Facing(memory, q, width), NearestHits(memory, q, tree, width))
  {
    hide HitOf, TreeOf, Offset, NearestMembers, IsShortlist;
    var groups := Facing(memory, q, width);
    forall g: nat, count: nat | g < |groups| && count <= |groups[g].hits|
      ensures |NearestHits(memory, q, tree, width)(g, count)| == count
              && IsShortlist(groups[g].hits, NearestHits(memory, q, tree, width)(g, count)) {
      var pattern := PatternOf(memory, g, width);
      GroupOffsets(memory, q, g, width);
      NearestShortlist(TreeOf(memory, q, pattern, width), HitOf(memory, q, width), Offset(q, pattern),
                       memory.groups[g].members, count, tree(g, count));
    }
  }

  lemma {:induction false} BallServes(memory: Memory, q: Row, within: (nat, real) -> seq<nat>, width: nat)
    requires memory.Aligned(width) && memory.Grouped() && ValidRow(q, width) && IsWithin(memory, q, within, width)
    ensures Analogues.IsBall(Facing(memory, q, width), WithinHits(memory, q, within, width))
  {
    hide Facing, WithinHits, IsWithin, Square;
    var groups, ball := Facing(memory, q, width), WithinHits(memory, q, within, width);
    forall g: nat, radius: real | g < |groups| && 0.0 <= radius
      ensures forall h: Hit :: h in ball(g, radius)
                          <==> h in groups[g].hits && h.dist - groups[g].offset <= Square(radius) {
      GroupBall(memory, q, within, width, g, radius);
    }
  }

  lemma {:induction false} GroupBall(memory: Memory, q: Row, within: (nat, real) -> seq<nat>, width: nat, g: nat,
                                     radius: real)
    requires memory.Aligned(width) && memory.Grouped() && ValidRow(q, width) && IsWithin(memory, q, within, width)
    requires g < |memory.groups| && 0.0 <= radius
    ensures forall h: Hit :: h in WithinHits(memory, q, within, width)(g, radius)
              <==> (h in Facing(memory, q, width)[g].hits
                    && h.dist - Facing(memory, q, width)[g].offset <= Square(radius))
  {
    var hit, pattern := HitOf(memory, q, width), PatternOf(memory, g, width);
    var members, found, dist := memory.groups[g].members, within(g, radius), TreeOf(memory, q, pattern, width);
    var square := Square(radius);
    GroupOffsets(memory, q, g, width);
    hide HitOf, TreeOf, Offset, Offsets, Square;
    forall i: nat ensures i in found <==> i in members && dist(i) <= square {
    }
    hide IsWithin;
    forall h: Hit ensures h in Map(hit, found) <==> h in Map(hit, members) && h.dist - Offset(q, pattern) <= square {
      BallHits(dist, hit, Offset(q, pattern), members, found, square, h);
    }
  }

  // ---- the search over the memory itself

  /** Every count is answered by the brute-force capped pick over the plain distances. */
  ghost predicate Answers(results: seq<seq<Hit>>, memory: Memory, q: Row, ks: seq<nat>, width: nat)
    requires memory.Aligned(width) && ValidRow(q, width)
  {
    |results| == |ks| && forall j :: 0 <= j < |ks| ==>
      results[j] == Brute(AllHits(memory, q, width), ks[j], ks[j] / Analogues.CAP_DIVISOR)
  }

  /** The squared differences of all columns, and a quarter of the share of columns missed by either row. */
  ghost predicate IsDistance(d: real, q: Row, c: Row, width: nat)
    requires ValidRow(q, width) && ValidRow(c, width) && 0 < width
  {
    d == IndexSum(SquaredGaps(q.z, c.z), width)
         + 0.25 * (|MissingColumns(q.missing, c.missing)| as real / width as real)
  }

  /** Every row of the memory under the distance its own columns make. */
  ghost predicate IsMemory(all: seq<Hit>, memory: Memory, q: Row, width: nat)
    requires memory.Aligned(width) && ValidRow(q, width)
  {
    && |all| == |memory.rows|
    && forall i :: 0 <= i < |all| ==>
         && all[i].day == memory.days[i] && all[i].id == memory.ids[i]
         && IsDistance(all[i].dist, q, memory.rows[i], width)
  }

  /** s is the answer for count k over those distances, with at most an eighth of the count per date. */
  ghost predicate Found(s: seq<Hit>, memory: Memory, q: Row, k: nat, width: nat)
    requires memory.Aligned(width) && ValidRow(q, width)
  {
    exists all: seq<Hit> :: IsMemory(all, memory, q, width) && IsAnswer(s, all, k, k / 8)
  }

  lemma {:induction false} DistanceFound(q: Row, c: Row, width: nat)
    requires ValidRow(q, width) && ValidRow(c, width) && 0 < width
    ensures IsDistance(Distance(q, c), q, c, width)
  {
    SquaredDistanceIs(q.z, c.z, width);
    PenaltyIs(q.missing, c.missing);
    assert q.z[..width] == q.z && c.z[..width] == c.z;
    hide SquaredDistance, IndexSum, SquaredGaps, MissingColumns, StateMetric.PatternPenalty;
  }

  lemma {:induction false} AllHitsAre(memory: Memory, q: Row, width: nat)
    requires memory.Aligned(width) && ValidRow(q, width)
    ensures IsMemory(AllHits(memory, q, width), memory, q, width) && DistinctIds(AllHits(memory, q, width))
  {
    hide Distance, IsDistance;
    var all := AllHits(memory, q, width);
    forall i | 0 <= i < |all|
      ensures && all[i].day == memory.days[i] && all[i].id == memory.ids[i]
              && IsDistance(all[i].dist, q, memory.rows[i], width) {
      assert all[i] == HitOf(memory, q, width)(i);
      DistanceFound(q, memory.rows[i], width);
    }
  }

  lemma {:induction false} BruteFound(memory: Memory, q: Row, k: nat, width: nat)
    requires memory.Aligned(width) && ValidRow(q, width) && 0 < k
    ensures Found(Brute(AllHits(memory, q, width), k, k / 8), memory, q, k, width)
  {
    AllHitsAre(memory, q, width);
    var all := AllHits(memory, q, width);
    ScanIsAnswer(all, k, k / 8);
    hide IsMemory, IsAnswer, AllHits, Pick, Ranked;
    assert IsMemory(all, memory, q, width) && IsAnswer(Brute(all, k, k / 8), all, k, k / 8);
  }

  lemma {:induction false} AnswersFound(answer: seq<seq<Hit>>, memory: Memory, q: Row, ks: seq<nat>, width: nat)
    requires memory.Aligned(width) && ValidRow(q, width) && Analogues.KValid(ks)
    requires Answers(answer, memory, q, ks, width)
    ensures |answer| == |ks| && forall j :: 0 <= j < |ks| ==> Found(answer[j], memory, q, ks[j], width)
  {
    hide Found, Brute, AllHits;
    forall j | 0 <= j < |ks| ensures Found(answer[j], memory, q, ks[j], width) {
      BruteFound(memory, q, ks[j], width);
    }
  }

  method NearestAnalogues(memory: Memory, q: Row, ks: seq<nat>, tree: (nat, nat) -> seq<nat>,
                          within: (nat, real) -> seq<nat>, radius: real -> real, width: nat)
    returns (answer: seq<seq<Hit>>)
    requires memory.Aligned(width) && memory.Grouped() && ValidRow(q, width) && Analogues.KValid(ks)
    requires IsTree(memory, q, tree, width) && IsWithin(memory, q, within, width) && Analogues.IsOutward(radius)
    ensures Answers(answer, memory, q, ks, width) && |answer| == |ks|
    ensures forall j :: 0 <= j < |ks| ==> Found(answer[j], memory, q, ks[j], width)
  {
    FacingFitted(memory, q, width);
    FacingHits(memory, q, width);
    TreeServes(memory, q, tree, width);
    BallServes(memory, q, within, width);
    hide *;
    answer := Analogues.Neighbors(Facing(memory, q, width), ks, NearestHits(memory, q, tree, width),
                                  WithinHits(memory, q, within, width), radius);
    SameAnswers(memory, q, ks, answer, width);
    AnswersFound(answer, memory, q, ks, width);
  }

  lemma {:induction false} SameAnswers(memory: Memory, q: Row, ks: seq<nat>, answer: seq<seq<Hit>>, width: nat)
    requires memory.Aligned(width) && memory.Grouped() && ValidRow(q, width)
    requires Analogues.AllBrute(answer, Facing(memory, q, width), ks)
    requires multiset(Analogues.All(Facing(memory, q, width))) == multiset(AllHits(memory, q, width))
    ensures Answers(answer, memory, q, ks, width)
  {
    SameRanking(Analogues.All(Facing(memory, q, width)), AllHits(memory, q, width));
    hide Facing, AllHits, Analogues.All, Pick, Ranked;
  }

  predicate InOrder(days: seq<int>, ids: seq<int>)
    requires |days| == |ids|
  {
    forall i :: 0 < i < |ids| ==> ids[i - 1] < ids[i] && days[i - 1] <= days[i]
  }

  lemma {:induction false} OrderedThroughout(days: seq<int>, ids: seq<int>)
    requires |days| == |ids| && InOrder(days, ids)
    ensures forall i, j :: 0 <= i < j < |ids| ==> ids[i] < ids[j] && days[i] <= days[j]
  {
    forall i, j | 0 <= i < j < |ids| ensures ids[i] < ids[j] && days[i] <= days[j] {
      Between(days, ids, i, j);
    }
  }

  lemma {:induction false} Between(days: seq<int>, ids: seq<int>, i: nat, j: nat)
    requires |days| == |ids| && InOrder(days, ids) && i < j < |ids|
    ensures ids[i] < ids[j] && days[i] <= days[j]
    decreases j
  {
    if i < j - 1 { Between(days, ids, i, j - 1); }
  }

  /** Accept exactly aligned, ordered rows, and give each missing pattern its group: every row lands in exactly one. */
  method Build(rows: seq<Row>, days: seq<int>, ids: seq<int>, ghost width: nat) returns (r: Result<Memory>)
    requires 0 < width && forall i :: 0 <= i < |rows| ==> ValidRow(rows[i], width)
    ensures r.Ok? <==> |rows| == |days| == |ids| && 0 < |rows| && InOrder(days, ids)
    ensures r.Ok? ==> var m := r.value;
              m.rows == rows && m.days == days && m.ids == ids && m.Aligned(width) && m.Grouped()
  {
    if !(|rows| == |days| == |ids| && 0 < |rows|) { return Err("ANALOGUE_TRAIN_ALIGNMENT"); }
    if !InOrder(days, ids) { return Err("ANALOGUE_TRAIN_ORDER"); }
    OrderedThroughout(days, ids);
    hide IsGrouping, InOrder;
    var groups := GroupByCode(CodesOf(rows));
    r := Ok(Memory(rows, days, ids, groups));
  }
}
