/** The exact state index: memory rows grouped by missing pattern, searched by truncated shortlists. */
module StateIndex {
  import opened Prelude
  import opened Multisets
  import opened CappedSearch
  import opened Shortlists
  import opened RowGroups
  import opened Vectors
  import opened StateMetric
  import opened DistanceMeaning
  import opened CappedAnswer

  const MARGIN := 0.0000000000001      // 1e-13
  const CHUNK: nat := 128
  const NO_LAST_DISTANCE := "IndexError"

  /** Everything the index holds; built once and then only read. */
  datatype Memory = Memory(rows: seq<Row>, days: seq<int>, ids: seq<int>, metric: Metric, groups: seq<Group>)
  {
    ghost predicate Aligned()
    {
      && |rows| == |days| == |ids| && 0 < |rows|
      && (forall i :: 0 <= i < |rows| ==> rows[i].Valid())
      && (forall i, j :: 0 <= i < j < |ids| ==> ids[i] < ids[j])
      && metric.Valid()
    }

    /** The groups partition the rows by code. */
    ghost predicate Grouped(root: real -> real)
      requires Aligned() && IsRoot(root)
    {
      && multiset(Flatten(Members(groups))) == multiset(Numbers(|rows|))
      && forall g :: 0 <= g < |groups| ==> GroupFits(groups[g], root)
    }

    ghost predicate GroupFits(g: Group, root: real -> real)
      requires Aligned() && IsRoot(root)
    {
      && 0 < |g.members|
      && |g.pattern| == FEATURES
      && forall p :: 0 <= p < |g.members| ==>
           && g.members[p] < |rows|
           && rows[g.members[p]].missing == g.pattern
           && (g.invalid <==> !Usable(rows[g.members[p]], metric, root))
    }
  }

  // ---- what the search is specified against

  /** Row i under the plain pair distance. */
  function PairHit(memory: Memory, q: Row, root: real -> real): nat -> Hit
    requires memory.Aligned() && q.Valid() && IsRoot(root)
  {
    (i: nat) =>
      if i < |memory.rows|
      then Hit(PairDistance(q, memory.rows[i], memory.metric, root), memory.days[i], memory.ids[i])
      else Hit(0.0, 0, 0)
  }

  function AllHits(memory: Memory, q: Row, root: real -> real): seq<Hit>
    requires memory.Aligned() && q.Valid() && IsRoot(root)
  {
    Map(PairHit(memory, q, root), Numbers(|memory.rows|))
  }

  // ---- the tree, by its interface only

  function TreeDistance(memory: Memory, q: Row, i: nat, root: real -> real): real
    requires memory.Aligned() && q.Valid() && IsRoot(root)
  {
    if i < |memory.rows|
    then SquaredDistance(Embed(q, memory.metric, root), Embed(memory.rows[i], memory.metric, root))
    else 0.0
  }

  function Distances(memory: Memory, q: Row, root: real -> real): nat -> real
    requires memory.Aligned() && q.Valid() && IsRoot(root)
  {
    (i: nat) => TreeDistance(memory, q, i, root)
  }

  /** A tree oracle: for a group number, a query and a count, the nearest members of that group. */
  ghost predicate IsTree(memory: Memory, tree: (nat, Row, nat) -> seq<nat>, root: real -> real)
    requires memory.Aligned() && IsRoot(root)
  {
    forall g: nat, q: Row, take: nat ::
      g < |memory.groups| && q.Valid() && take <= |memory.groups[g].members| ==>
      NearestMembers(Distances(memory, q, root), memory.groups[g].members, take, tree(g, q, take))
  }

  // ---- one group

  /** d ** 2 + offset, computed per group. */
  function GroupHit(memory: Memory, q: Row, g: Group, i: nat, root: real -> real): Hit
    requires memory.Aligned() && q.Valid() && IsRoot(root) && |g.pattern| == FEATURES && i < |memory.rows|
  {
    Hit(TreeDistance(memory, q, i, root) + Offset(q, g.pattern, g.invalid, memory.metric, root),
        memory.days[i], memory.ids[i])
  }

  /** The group's distance is the pair distance. */
  lemma {:induction false} GroupHitIsPair(memory: Memory, q: Row, g: Group, i: nat, root: real -> real)
    requires memory.Aligned() && q.Valid() && IsRoot(root) && memory.GroupFits(g, root) && i in g.members
    ensures i < |memory.rows|
    ensures GroupHit(memory, q, g, i, root) == PairHit(memory, q, root)(i)
  {
    var p :| 0 <= p < |g.members| && g.members[p] == i;
    IndexedEqualsPair(q, memory.rows[i], memory.metric, root);
  }

  /** The tree's answer for one group, seen through pair distances, is a shortlist of that group. */
  lemma {:induction false} TreeGivesShortlist(memory: Memory, q: Row, g: Group, take: nat, found: seq<nat>,
                                              root: real -> real)
    requires memory.Aligned() && q.Valid() && IsRoot(root) && memory.GroupFits(g, root)
    requires NearestMembers(Distances(memory, q, root), g.members, take, found)
    ensures IsShortlist(Map(PairHit(memory, q, root), g.members), Map(PairHit(memory, q, root), found))
  {
    var hit, offset := PairHit(memory, q, root), Offset(q, g.pattern, g.invalid, memory.metric, root);
    hide PairHit, TreeDistance, IsRoot, Usable, Map, Offset;
    forall i | i in multiset(g.members) ensures hit(i).dist == Distances(memory, q, root)(i) + offset {
      GroupHitIsPair(memory, q, g, i, root);
    }
    NearestShortlist(Distances(memory, q, root), hit, offset, g.members, take, found);
  }

  // ---- one query at one shortlist length

  /** d ** 2 + offset for the rows one tree call returned. */
  method GroupList(memory: Memory, q: Row, g: Group, found: seq<nat>, root: real -> real) returns (list: seq<Hit>)
    requires memory.Aligned() && q.Valid() && IsRoot(root) && memory.GroupFits(g, root)
    requires multiset(found) <= multiset(g.members)
    ensures list == Map(PairHit(memory, q, root), found)
  {
    hide PairHit, GroupHit;
    var hit := PairHit(memory, q, root);
    list := [];
    for p := 0 to |found|
      invariant list == Map(hit, found[..p])
    {
      assert found[p] in multiset(found);
      GroupHitIsPair(memory, q, g, found[p], root);
      list := list + [GroupHit(memory, q, g, found[p], root)];
      assert found[..p + 1][..p] == found[..p];
    }
    assert found[..|found|] == found;
  }

  /** tree.query for one group, with its offset added. */
  method ReadGroup(memory: Memory, q: Row, g: nat, limit: nat, tree: (nat, Row, nat) -> seq<nat>, root: real -> real)
    returns (list: seq<Hit>)
    requires memory.Aligned() && q.Valid() && IsRoot(root) && memory.Grouped(root)
    requires IsTree(memory, tree, root) && g < |memory.groups|
    ensures var members := memory.groups[g].members;
      && 0 < |members| <= |memory.rows| && |list| == Min(limit, |members|)
      && IsShortlist(Map(PairHit(memory, q, root), members), list)
  {
    hide IsShortlist;
    var group := memory.groups[g];
    var take := Min(limit, |group.members|);
    var found := tree(g, q, take);
    assert NearestMembers(Distances(memory, q, root), group.members, take, found);
    GroupSize(memory.groups, |memory.rows|, g);
    list := GroupList(memory, q, group, found, root);
    TreeGivesShortlist(memory, q, group, take, found, root);
  }

  /** Together the groups show a query exactly the whole memory. */
  lemma {:induction false} GroupsCover(memory: Memory, q: Row, root: real -> real)
    requires memory.Aligned() && q.Valid() && IsRoot(root) && memory.Grouped(root)
    ensures multiset(Flatten(GroupHits(PairHit(memory, q, root), memory.groups)))
         == multiset(AllHits(memory, q, root))
  {
    hide PairHit, IsRoot;
    AllSeen(PairHit(memory, q, root), memory.groups, |memory.rows|);
  }

  /** Read every group's tree in turn. */
  method ReadGroups(memory: Memory, q: Row, limit: nat, tree: (nat, Row, nat) -> seq<nat>, root: real -> real)
    returns (lists: seq<seq<Hit>>)
    requires memory.Aligned() && q.Valid() && IsRoot(root) && memory.Grouped(root)
    requires IsTree(memory, tree, root) && 1 <= limit
    ensures ReadFrom(GroupHits(PairHit(memory, q, root), memory.groups), lists, Sizes(memory.groups))
    ensures |memory.rows| <= limit ==> forall g :: 0 <= g < |lists| ==> |memory.groups[g].members| <= |lists[g]|
    ensures lists != [] && forall g :: 0 <= g < |lists| ==> lists[g] != []
  {
    SomeGroup(memory.groups, |memory.rows|);
    hide *;
    lists := [];
    for g := 0 to |memory.groups|
      invariant |lists| == g && forall j :: 0 <= j < g ==> Reads(memory, q, limit, j, lists[j], root)
    {
      var list := ReadGroup(memory, q, g, limit, tree, root);
      ReadsGroup(memory, q, limit, g, list, root);
      lists := lists + [list];
    }
    AllRead(memory, q, limit, lists, root);
  }

  /** A nonempty shortlist of group g, complete when the limit reaches the memory's size. */
  ghost predicate Reads(memory: Memory, q: Row, limit: nat, g: nat, list: seq<Hit>, root: real -> real)
    requires memory.Aligned() && q.Valid() && IsRoot(root) && g < |memory.groups|
  {
    && IsShortlist(Map(PairHit(memory, q, root), memory.groups[g].members), list) && list != []
    && (|memory.rows| <= limit ==> |memory.groups[g].members| <= |list|)
  }

  lemma {:induction false} ReadsGroup(memory: Memory, q: Row, limit: nat, g: nat, list: seq<Hit>, root: real -> real)
    requires memory.Aligned() && q.Valid() && IsRoot(root) && g < |memory.groups| && 1 <= limit
    requires 0 < |memory.groups[g].members| <= |memory.rows| && |list| == Min(limit, |memory.groups[g].members|)
    requires IsShortlist(Map(PairHit(memory, q, root), memory.groups[g].members), list)
    ensures Reads(memory, q, limit, g, list, root)
  {
    hide IsShortlist, Map, PairHit, IsRoot;
  }

  lemma {:induction false} AllRead(memory: Memory, q: Row, limit: nat, lists: seq<seq<Hit>>, root: real -> real)
    requires memory.Aligned() && q.Valid() && IsRoot(root) && |lists| == |memory.groups|
    requires forall j :: 0 <= j < |lists| ==> Reads(memory, q, limit, j, lists[j], root)
    ensures ReadFrom(GroupHits(PairHit(memory, q, root), memory.groups), lists, Sizes(memory.groups))
    ensures forall g :: 0 <= g < |lists| ==>
              lists[g] != [] && (|memory.rows| <= limit ==> |memory.groups[g].members| <= |lists[g]|)
  {
    hide IsShortlist, PairHit, IsRoot;
    var groups := GroupHits(PairHit(memory, q, root), memory.groups);
    forall g | 0 <= g < |lists|
      ensures |groups[g]| == Sizes(memory.groups)[g] && IsShortlist(groups[g], lists[g]) && lists[g] != []
      ensures |memory.rows| <= limit ==> |memory.groups[g].members| <= |lists[g]| {
      assert Reads(memory, q, limit, g, lists[g], root);
    }
  }

  /** The candidates of one query at one shortlist length, with the border they are complete up to. */
  method Candidates(memory: Memory, q: Row, limit: nat, tree: (nat, Row, nat) -> seq<nat>, root: real -> real)
    returns (candidates: seq<Hit>, edge: Edge)
    requires memory.Aligned() && q.Valid() && IsRoot(root) && memory.Grouped(root)
    requires IsTree(memory, tree, root) && 1 <= limit
    ensures Agree(candidates, AllHits(memory, q, root), edge)
    ensures |memory.rows| <= limit ==> edge.Infinite?
    ensures candidates != []
  {
    var lists := ReadGroups(memory, q, limit, tree, root);
    GroupsCover(memory, q, root);
    ghost var groups := GroupHits(PairHit(memory, q, root), memory.groups);
    hide AllHits, Agree, ReadFrom, IsTree, IsRoot, PairHit;
    candidates, edge := Merge(groups, lists, Sizes(memory.groups));
    AgreePermuted(candidates, Flatten(groups), AllHits(memory, q, root), edge);
  }

  /** One query against shortlists of one length: the pick, and whether it is proven final. */
  method SearchOnce(memory: Memory, q: Row, limit: nat, k: nat, cap: nat,
                    tree: (nat, Row, nat) -> seq<nat>, root: real -> real)
    returns (picked: seq<Hit>, proven: bool)
    requires memory.Aligned() && q.Valid() && IsRoot(root) && memory.Grouped(root)
    requires IsTree(memory, tree, root) && 1 <= limit <= |memory.rows| && (1 <= k || 1 <= cap)
    ensures proven ==> picked == Answer(memory, q, k, cap, root)
    ensures limit == |memory.rows| ==> proven
  {
    hide *;
    var candidates, edge := Candidates(memory, q, limit, tree, root);
    picked := Scan(Ranked(candidates), k, cap);
    KeepsOne(candidates, k, cap);
    proven := (|picked| == k && Before(picked[|picked| - 1].dist + MARGIN, edge)) || limit == |memory.rows|;
    if proven {
      if !edge.Infinite? { MarginSafe(picked[|picked| - 1].dist, edge); }
      Proven(candidates, AllHits(memory, q, root), edge, k, cap);
      AnswerIs(memory, q, k, cap, root);
    }
  }

  lemma {:induction false} Proven(candidates: seq<Hit>, all: seq<Hit>, edge: Edge, k: nat, cap: nat)
    requires Agree(candidates, all, edge) && candidates != [] && (1 <= k || 1 <= cap)
    requires var picked := Scanned(Ranked(candidates), k, cap);
             edge.Infinite? || (|picked| == k && (picked != [] ==> Before(picked[|picked| - 1].dist, edge)))
    ensures Scanned(Ranked(candidates), k, cap) == Scanned(Ranked(all), k, cap)
  {
    if edge.Infinite? {
      WholeDecides(candidates, all, k, cap);
    } else {
      KeepsOne(candidates, k, cap);
      hide Agree, Pick, Accept, Ranked;
      EdgeDecides(candidates, all, edge, k, cap);
    }
  }

  /** Without a target count the scan keeps at least one row, so it never looks finished. */
  lemma {:induction false} KeepsOne(candidates: seq<Hit>, k: nat, cap: nat)
    requires candidates != [] && (1 <= k || 1 <= cap)
    ensures |Scanned(Ranked(candidates), k, cap)| == k ==> 1 <= k
  {
    if k == 0 {
      var s := Ranked(candidates);
      assert |multiset(s)| == |multiset(candidates)|;
      assert s == [s[0]] + s[1..];
      var late := AcceptAppend([s[0]], s[1..], cap);
      assert [s[0]][..0] == [];
    }
  }

  lemma {:induction false} AnswerIs(memory: Memory, q: Row, k: nat, cap: nat, root: real -> real)
    requires memory.Aligned() && q.Valid() && IsRoot(root)
    ensures Answer(memory, q, k, cap, root) == Scanned(Ranked(AllHits(memory, q, root)), k, cap)
  {
  }

  lemma {:induction false} MarginSafe(dist: real, edge: Edge)
    requires Before(dist + MARGIN, edge)
    ensures Before(dist, edge)
  {
  }

  // ---- the batch loop

  /**
   * The scan of the whole ranked memory: the brute-force pick, or every row the cap admits when no count is asked
   * for.
   */
  function Answer(memory: Memory, q: Row, k: nat, cap: nat, root: real -> real): seq<Hit>
    requires memory.Aligned() && q.Valid() && IsRoot(root)
  {
    Scanned(Ranked(AllHits(memory, q, root)), k, cap)
  }

  /** Every row of the memory under the distance its own columns make. */
  ghost predicate IsMemory(all: seq<Hit>, memory: Memory, q: Row, root: real -> real)
    requires memory.Aligned() && q.Valid()
  {
    && |all| == |memory.rows|
    && forall i :: 0 <= i < |all| ==>
         && all[i].day == memory.days[i] && all[i].id == memory.ids[i]
         && IsPairDistance(all[i].dist, q, memory.rows[i], memory.metric, root)
  }

  /** s is the capped answer over those distances. */
  ghost predicate Found(s: seq<Hit>, memory: Memory, q: Row, k: nat, cap: nat, root: real -> real)
    requires memory.Aligned() && q.Valid()
  {
    exists all: seq<Hit> :: IsMemory(all, memory, q, root) && IsAnswer(s, all, k, cap)
  }

  lemma {:induction false} AllHitsAre(memory: Memory, q: Row, root: real -> real)
    requires memory.Aligned() && q.Valid() && IsRoot(root)
    ensures IsMemory(AllHits(memory, q, root), memory, q, root) && DistinctIds(AllHits(memory, q, root))
  {
    hide PairDistance, IsPairDistance, IsRoot;
    var all := AllHits(memory, q, root);
    forall i | 0 <= i < |all|
      ensures && all[i].day == memory.days[i] && all[i].id == memory.ids[i]
              && IsPairDistance(all[i].dist, q, memory.rows[i], memory.metric, root) {
      assert all[i] == PairHit(memory, q, root)(i);
      PairDistanceIs(q, memory.rows[i], memory.metric, root);
    }
  }

  lemma {:induction false} AnswerFound(memory: Memory, q: Row, k: nat, cap: nat, root: real -> real)
    requires memory.Aligned() && q.Valid() && IsRoot(root)
    ensures Found(Answer(memory, q, k, cap, root), memory, q, k, cap, root)
  {
    hide *;
    AnswerIs(memory, q, k, cap, root);
    AllHitsAre(memory, q, root);
    ScanIsAnswer(AllHits(memory, q, root), k, cap);
    FoundBy(Answer(memory, q, k, cap, root), AllHits(memory, q, root), memory, q, k, cap, root);
  }

  lemma {:induction false} FoundBy(s: seq<Hit>, all: seq<Hit>, memory: Memory, q: Row, k: nat, cap: nat,
                                   root: real -> real)
    requires memory.Aligned() && q.Valid() && IsMemory(all, memory, q, root) && IsAnswer(s, all, k, cap)
    ensures Found(s, memory, q, k, cap, root)
  {
    hide IsMemory, IsAnswer;
  }

  ghost predicate AllValid(queries: seq<Row>) { forall i :: 0 <= i < |queries| ==> queries[i].Valid() }

  ghost predicate Answered(memory: Memory, queries: seq<Row>, result: seq<seq<Hit>>, i: nat, k: nat, cap: nat,
                           root: real -> real)
    requires memory.Aligned() && IsRoot(root) && AllValid(queries)
  {
    i < |queries| == |result| && result[i] == Answer(memory, queries[i], k, cap, root)
  }

  /** Every query is answered or listed in one of the two work lists. */
  ghost predicate Progress(memory: Memory, queries: seq<Row>, result: seq<seq<Hit>>, stop: nat,
                           pending: seq<nat>, remaining: seq<nat>, k: nat, cap: nat, root: real -> real)
    requires memory.Aligned() && IsRoot(root) && AllValid(queries)
  {
    && stop <= |queries| == |result|
    && (forall i: nat :: i in pending || i in remaining ==> i < stop)
    && (forall i: nat :: i < stop && i !in pending && i !in remaining ==>
          Answered(memory, queries, result, i, k, cap, root))
  }

  lemma {:induction false} Settle(memory: Memory, queries: seq<Row>, result: seq<seq<Hit>>, stop: nat,
                                  pending: seq<nat>,
               remaining: seq<nat>, picked: seq<Hit>, k: nat, cap: nat, root: real -> real)
    requires memory.Aligned() && IsRoot(root) && AllValid(queries) && pending != []
    requires Progress(memory, queries, result, stop, pending, remaining, k, cap, root)
    requires pending[0] in pending && pending[0] < |queries|
             && picked == Answer(memory, queries[pending[0]], k, cap, root)
    ensures Progress(memory, queries, result[pending[0] := picked], stop, pending[1..], remaining, k, cap, root)
  {
    hide Answer;
    var x, result' := pending[0], result[pending[0] := picked];
    assert pending == [x] + pending[1..];
    forall i: nat | i < stop && i !in pending[1..] && i !in remaining
      ensures Answered(memory, queries, result', i, k, cap, root)
    {
      if i != x {
        assert i !in pending;
        assert Answered(memory, queries, result, i, k, cap, root);
      }
    }
    forall i: nat | i in pending[1..] || i in remaining ensures i < stop {
      assert i in pending || i in remaining;
    }
  }

  lemma {:induction false} Postpone(memory: Memory, queries: seq<Row>, result: seq<seq<Hit>>, stop: nat,
                                    pending: seq<nat>, remaining: seq<nat>, k: nat, cap: nat, root: real -> real)
    requires memory.Aligned() && IsRoot(root) && AllValid(queries) && pending != []
    requires Progress(memory, queries, result, stop, pending, remaining, k, cap, root)
    ensures Progress(memory, queries, result, stop, pending[1..], remaining + [pending[0]], k, cap, root)
  {
    hide Answered;
    var later := remaining + [pending[0]];
    assert pending == [pending[0]] + pending[1..];
    forall i: nat | i < stop && i !in pending[1..] && i !in later
      ensures Answered(memory, queries, result, i, k, cap, root)
    {
      assert pending[0] in later;
      assert i !in pending && i !in remaining;
    }
    forall i: nat | i in pending[1..] || i in later ensures i < stop {
      assert i in pending || i in remaining;
    }
  }

  /** One pass over the pending rows at one shortlist length. */
  method Pass(memory: Memory, queries: seq<Row>, stop: nat, pending: seq<nat>, limit: nat, k: nat, cap: nat,
              tree: (nat, Row, nat) -> seq<nat>, root: real -> real, before: seq<seq<Hit>>)
    returns (result: seq<seq<Hit>>, remaining: seq<nat>)
    requires memory.Aligned() && IsRoot(root) && memory.Grouped(root) && IsTree(memory, tree, root)
    requires (1 <= k || 1 <= cap) && AllValid(queries) && 1 <= limit <= |memory.rows|
    requires Progress(memory, queries, before, stop, pending, [], k, cap, root)
    ensures Progress(memory, queries, result, stop, remaining, [], k, cap, root)
    ensures limit == |memory.rows| ==> remaining == []
  {
    hide IsTree, Answered, AllHits, IsRoot;
    result, remaining := before, [];
    assert pending[0..] == pending;
    for row := 0 to |pending|
      invariant Progress(memory, queries, result, stop, pending[row..], remaining, k, cap, root)
      invariant limit == |memory.rows| ==> remaining == []
    {
      var original := pending[row];
      assert pending[row..][0] == original && original in pending[row..] && pending[row..][1..] == pending[row + 1..];
      var picked, proven := SearchOnce(memory, queries[original], limit, k, cap, tree, root);
      if proven {
        Settle(memory, queries, result, stop, pending[row..], remaining, picked, k, cap, root);
        result := result[original := picked];
      } else {
        Postpone(memory, queries, result, stop, pending[row..], remaining, k, cap, root);
        remaining := remaining + [original];
      }
    }
  }

  function Span(start: nat, stop: nat): (s: seq<nat>)
    requires start <= stop
    ensures forall i: nat :: i in s <==> start <= i < stop
  {
    if start == stop then [] else Span(start, stop - 1) + [stop - 1]
  }

  /**
   * The query: every query gets exactly the brute-force answer over all supplied memory. With neither a count nor a
   * cap the pick is empty, and the border test fails on its missing last distance.
   */
  method Query(memory: Memory, queries: seq<Row>, k: nat, cap: nat,
               tree: (nat, Row, nat) -> seq<nat>, root: real -> real)
    returns (r: Result<seq<seq<Hit>>>)
    requires memory.Aligned() && IsRoot(root) && memory.Grouped(root) && IsTree(memory, tree, root) && AllValid(queries)
    ensures r.Ok? <==> 1 <= k || 1 <= cap || queries == []
    ensures r.Ok? ==> |r.value| == |queries|
    ensures r.Ok? ==> forall i :: 0 <= i < |queries| ==> r.value[i] == Answer(memory, queries[i], k, cap, root)
    ensures r.Ok? && 1 <= k ==>
              forall i :: 0 <= i < |queries| ==> r.value[i] == Brute(AllHits(memory, queries[i], root), k, cap)
    ensures r.Ok? ==> forall i :: 0 <= i < |queries| ==> Found(r.value[i], memory, queries[i], k, cap, root)
  {
    hide IsTree, AllHits, IsRoot;
    if k == 0 && cap == 0 { return if queries == [] then Ok([]) else Err(NO_LAST_DISTANCE); }
    var result := seq(|queries|, _ => []);
    var start := 0;
    while start < |queries|
      invariant Progress(memory, queries, result, start, [], [], k, cap, root)
    {
      var stop := Min(start + CHUNK, |queries|);
      var pending := Span(start, stop);
      var limit := Min(k + 1, |memory.rows|);
      while pending != []
        invariant 1 <= limit <= |memory.rows|
        invariant Progress(memory, queries, result, stop, pending, [], k, cap, root)
        decreases |memory.rows| - limit, |pending|
      {
        result, pending := Pass(memory, queries, stop, pending, limit, k, cap, tree, root, result);
        limit := Min(|memory.rows|, limit * 2);
      }
      start := stop;
    }
    hide Found;
    forall i | 0 <= i < |queries|
      ensures && result[i] == Answer(memory, queries[i], k, cap, root)
              && Found(result[i], memory, queries[i], k, cap, root) {
      assert Answered(memory, queries, result, i, k, cap, root);
      AnswerFound(memory, queries[i], k, cap, root);
    }
    r := Ok(result);
  }
}
