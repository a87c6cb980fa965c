/** Historical analogues: expanding shortlists with a closed-ball refetch at tied borders. */
module Analogues {
  import opened Prelude
  import opened Sorting
  import opened Multisets
  import opened CappedSearch
  import opened Shortlists

  /** One missing-pattern group as a query sees it: every distance includes the shared offset. */
  datatype Group = Group(hits: seq<Hit>, offset: real)

  const TIE := 0.00000000000001      // 1e-14
  const CAP_DIVISOR: nat := 8

  function HitsOf(groups: seq<Group>): (s: seq<seq<Hit>>)
    ensures |s| == |groups| && forall g :: 0 <= g < |groups| ==> s[g] == groups[g].hits
  {
    if groups == [] then [] else HitsOf(groups[..|groups| - 1]) + [groups[|groups| - 1].hits]
  }

  function SizesOf(groups: seq<Group>): (s: seq<nat>)
    ensures |s| == |groups| && forall g :: 0 <= g < |groups| ==> s[g] == |groups[g].hits|
  {
    if groups == [] then [] else SizesOf(groups[..|groups| - 1]) + [|groups[|groups| - 1].hits|]
  }

  /** The whole memory, group by group. */
  function All(groups: seq<Group>): seq<Hit> { Flatten(HitsOf(groups)) }

  /** Sample ids are distinct and follow date order, as the fitted memory guarantees. */
  ghost predicate Dated(s: seq<Hit>)
  {
    && (forall i, j :: 0 <= i < |s| && 0 <= j < |s| && s[i].id < s[j].id ==> s[i].day <= s[j].day)
    && (forall i, j :: 0 <= i < j < |s| ==> s[i].id != s[j].id)
  }

  ghost predicate FittedMemory(groups: seq<Group>)
  {
    && groups != []
    && Dated(All(groups))
    && forall g :: 0 <= g < |groups| ==> FittedGroup(groups[g])
  }

  ghost predicate FittedGroup(g: Group)
  {
    g.hits != [] && forall i :: 0 <= i < |g.hits| ==> g.offset <= g.hits[i].dist
  }

  // ---- the tree, by its interface only

  /** The count nearest rows of a group, ascending. */
  ghost predicate IsNearest(groups: seq<Group>, nearest: (nat, nat) -> seq<Hit>)
  {
    forall g: nat, count: nat :: g < |groups| && count <= |groups[g].hits| ==>
      |nearest(g, count)| == count && IsShortlist(groups[g].hits, nearest(g, count))
  }

  /** Exactly the rows of a group within a radius of the query. */
  ghost predicate IsBall(groups: seq<Group>, ball: (nat, real) -> seq<Hit>)
  {
    forall g: nat, radius: real :: g < |groups| && 0.0 <= radius ==>
      forall h: Hit :: h in ball(g, radius) <==>
        h in groups[g].hits && h.dist - groups[g].offset <= Square(radius)
  }

  /** sqrt rounded outward: squaring the radius never falls below its argument. */
  ghost predicate IsOutward(radius: real -> real)
  {
    forall x: real :: 0.0 <= x ==> 0.0 <= radius(x) && x <= Square(radius(x))
  }

  // ---- the selection of one pick

  /** The sort of a pick: by distance, and by sample id among equal distances. */
  predicate NearerById(a: Hit, b: Hit)
  {
    a.dist < b.dist || (a.dist == b.dist && a.id <= b.id)
  }

  function ById(): (Hit, Hit) -> bool { (a: Hit, b: Hit) => NearerById(a, b) }

  lemma {:induction false} IdOrder(s: seq<Hit>, x: Hit, y: Hit)
    requires Dated(s) && x in s && y in s && NearerById(x, y)
    ensures Nearer(x, y)
  {
    var a: nat :| a < |s| && s[a] == x;
    var b: nat :| b < |s| && s[b] == y;
  }

  /** With ids in date order, sorting by distance and id is sorting by distance, date and id. */
  lemma {:induction false} SelectOrder(s: seq<Hit>)
    requires Dated(s)
    ensures Sorted(s, ById()) == Ranked(s)
  {
    SortedOrdered(s, ById());
    DistanceOrder();
    hide Dated, Nearer, NearerById, Sorted;
    var r := Sorted(s, ById());
    forall i, j | 0 <= i < j < |r| ensures Nearer(r[i], r[j]) {
      assert ById()(r[i], r[j]);
      assert r[i] in multiset(r) && r[j] in multiset(r);
      IdOrder(s, r[i], r[j]);
    }
    SortedOrdered(s, ByDistance());
    OrderedUnique(r, Ranked(s), ByDistance());
  }

  method Select(candidates: seq<Hit>, k: nat) returns (picked: seq<Hit>)
    requires Dated(candidates) && 1 <= k
    ensures picked == Pick(Ranked(candidates), k, k / CAP_DIVISOR)
  {
    SelectOrder(candidates);
    picked := Scan(Sorted(candidates, ById()), k, k / CAP_DIVISOR);
  }

  // ---- part of a dated memory

  lemma {:induction false} PartDated(all: seq<Hit>, part: seq<Hit>)
    requires Dated(all) && multiset(part) <= multiset(all)
    ensures Dated(part)
  {
    forall i, j | 0 <= i < |part| && 0 <= j < |part| && part[i].id < part[j].id ensures part[i].day <= part[j].day {
      var a, b := Occurs(all, part, i), Occurs(all, part, j);
      assert all[a].id < all[b].id;
    }
    forall i, j | 0 <= i < j < |part| ensures part[i].id != part[j].id {
      if part[i] == part[j] {
        CountTwice(part, i, j);
        OnceOnly(all, part[i]);
      } else {
        var a, b := Occurs(all, part, i), Occurs(all, part, j);
        assert a != b;
      }
    }
  }

  function Occurs(all: seq<Hit>, part: seq<Hit>, i: nat): (a: nat)
    requires multiset(part) <= multiset(all) && i < |part|
    ensures a < |all| && all[a] == part[i]
  {
    assert part[i] in multiset(part);
    assert part[i] in multiset(all);
    IndexOf(all, part[i])
  }

  lemma {:induction false} OnceOnly(s: seq<Hit>, h: Hit)
    requires forall i, j :: 0 <= i < j < |s| ==> s[i].id != s[j].id
    ensures multiset(s)[h] <= 1
  {
    if s != [] {
      var n := |s| - 1;
      OnceOnly(s[..n], h);
      assert s == s[..n] + [s[n]];
      if s[n] == h {
        forall i | 0 <= i < n ensures s[..n][i] != h {
        }
        assert h !in s[..n];
      }
    }
  }

  // ---- one hit per sample id

  predicate HasId(s: seq<Hit>, id: int) { exists i :: 0 <= i < |s| && s[i].id == id }

  /** The first occurrence of every id. */
  function FirstById(s: seq<Hit>): seq<Hit>
  {
    if s == [] then []
    else
      var u := FirstById(s[..|s| - 1]);
      if HasId(u, s[|s| - 1].id) then u else u + [s[|s| - 1]]
  }

  lemma {:induction false} FirstByIdFacts(s: seq<Hit>)
    ensures forall h: Hit :: h in FirstById(s) ==> h in s
    ensures forall h: Hit :: h in s ==> HasId(FirstById(s), h.id)
    ensures forall i, j :: 0 <= i < j < |FirstById(s)| ==> FirstById(s)[i].id != FirstById(s)[j].id
  {
    if s != [] {
      var t, x := s[..|s| - 1], s[|s| - 1];
      FirstByIdFacts(t);
      var u := FirstById(t);
      assert s == t + [x];
      assert HasId(u + [x], x.id) by {
        assert (u + [x])[|u|].id == x.id;
      }
      forall h: Hit | h in s ensures HasId(FirstById(s), h.id) {
        if h in t {
          var i :| 0 <= i < |u| && u[i].id == h.id;
          assert (u + [x])[i].id == h.id;
        }
      }
    }
  }

  /** In a memory with distinct ids, an id names its row. */
  lemma {:induction false} SameId(all: seq<Hit>, a: Hit, b: Hit)
    requires Dated(all) && a in all && b in all && a.id == b.id
    ensures a == b
  {
    var i, j := IndexOf(all, a), IndexOf(all, b);
    assert i == j || i < j || j < i;
  }

  /** Deduplicating rows of the memory keeps each of them exactly once. */
  lemma {:induction false} UniqueRows(all: seq<Hit>, merged: seq<Hit>, h: Hit)
    requires Dated(all) && forall x: Hit :: x in merged ==> x in all
    ensures multiset(FirstById(merged))[h] == if h in merged then 1 else 0
  {
    FirstByIdFacts(merged);
    var u := FirstById(merged);
    OnceOnly(u, h);
    if h in merged {
      var i :| 0 <= i < |u| && u[i].id == h.id;
      assert u[i] in u;
      SameId(all, u[i], h);
      assert h in multiset(u);
    } else {
      assert h !in u;
    }
  }

  lemma {:induction false} UniqueIsPart(all: seq<Hit>, merged: seq<Hit>)
    requires Dated(all) && forall x: Hit :: x in merged ==> x in all
    ensures multiset(FirstById(merged)) <= multiset(all)
  {
    forall h: Hit ensures multiset(FirstById(merged))[h] <= multiset(all)[h] {
      UniqueRows(all, merged, h);
      if h in merged { assert h in multiset(all); }
    }
  }

  // ---- the closed-ball refetch

  /** The deduplicated rows agree with the memory everywhere inside the closed border. */
  lemma {:induction false} RefetchComplete(all: seq<Hit>, merged: seq<Hit>, boundary: real, h: Hit)
    requires Dated(all) && (forall x: Hit :: x in merged ==> x in all)
    requires forall x: Hit :: x in all && x.dist <= boundary ==> x in merged
    requires h.dist <= boundary
    ensures multiset(FirstById(merged))[h] == multiset(all)[h]
  {
    UniqueRows(all, merged, h);
    OnceOnly(all, h);
    if h in all { assert h in multiset(all); }
  }

  /** A full pick ending inside the closed border shows that the border holds enough rows. */
  lemma {:induction false} EnoughInside(all: seq<Hit>, picked: seq<Hit>, boundary: real, cap: nat)
    requires multiset(picked) <= multiset(all) && RespectsCap(picked, cap)
    requires forall i :: 0 <= i < |picked| ==> picked[i].dist <= boundary
    ensures |picked| <= |Accept(Within(Ranked(all), boundary, true), cap)|
  {
    var p := Within(Ranked(all), boundary, true);
    forall h: Hit ensures multiset(picked)[h] <= multiset(p)[h] {
      WithinCounts(Ranked(all), boundary, true, h);
      assert multiset(picked)[h] <= multiset(all)[h];
      if h in picked {
        var i :| 0 <= i < |picked| && picked[i] == h;
      }
    }
    AcceptMaximal(p, picked, cap);
  }

  /** After the refetch the pick is the brute-force answer. */
  lemma {:induction false} RefetchDecides(all: seq<Hit>, merged: seq<Hit>, picked: seq<Hit>, boundary: real, k: nat,
                                          cap: nat)
    requires Dated(all) && (forall x: Hit :: x in merged ==> x in all)
    requires forall x: Hit :: x in all && x.dist <= boundary ==> x in merged
    requires multiset(picked) <= multiset(all) && RespectsCap(picked, cap) && |picked| == k
    requires forall i :: 0 <= i < |picked| ==> picked[i].dist <= boundary
    ensures Pick(Ranked(FirstById(merged)), k, cap) == Brute(all, k, cap)
  {
    forall h: Hit | Inside(h, boundary, true)
      ensures multiset(FirstById(merged))[h] == multiset(all)[h]
    {
      RefetchComplete(all, merged, boundary, h);
    }
    EnoughInside(all, picked, boundary, cap);
    BorderDecides(FirstById(merged), all, boundary, true, k, cap);
  }

  // ---- candidates and neighbours of one query row

  /** The shortlists of all groups at one length, concatenated, with the least border of the truncated ones. */
  method Candidates(groups: seq<Group>, limit: nat, nearest: (nat, nat) -> seq<Hit>)
    returns (candidates: seq<Hit>, edge: Edge)
    requires FittedMemory(groups) && IsNearest(groups, nearest) && 1 <= limit
    ensures Agree(candidates, All(groups), edge) && multiset(candidates) <= multiset(All(groups))
    ensures edge.Infinite? <==> forall g :: 0 <= g < |groups| ==> |groups[g].hits| <= limit
  {
    hide Agree, IsShortlist, Dated;
    var lists := [];
    for g := 0 to |groups|
      invariant |lists| == g
      invariant forall j :: 0 <= j < g ==>
        IsShortlist(groups[j].hits, lists[j]) && |lists[j]| == Min(limit, |groups[j].hits|)
    {
      lists := lists + [nearest(g, Min(limit, |groups[g].hits|))];
    }
    candidates, edge := Merge(HitsOf(groups), lists, SizesOf(groups));
  }

  ghost predicate KValid(ks: seq<nat>) { ks != [] && forall j :: 0 <= j < |ks| ==> CAP_DIVISOR <= ks[j] }

  /** Every requested count is answered by its own capped pick from the candidates. */
  ghost predicate PickedFrom(results: seq<seq<Hit>>, candidates: seq<Hit>, ks: seq<nat>)
  {
    |results| == |ks| && forall j :: 0 <= j < |ks| ==>
      results[j] == Pick(Ranked(candidates), ks[j], ks[j] / CAP_DIVISOR)
  }

  ghost predicate AllBrute(results: seq<seq<Hit>>, groups: seq<Group>, ks: seq<nat>)
  {
    |results| == |ks| && forall j :: 0 <= j < |ks| ==>
      results[j] == Brute(All(groups), ks[j], ks[j] / CAP_DIVISOR)
  }

  method SelectAll(candidates: seq<Hit>, ks: seq<nat>) returns (results: seq<seq<Hit>>)
    requires Dated(candidates) && KValid(ks)
    ensures PickedFrom(results, candidates, ks)
  {
    hide Dated, Pick, Ranked;
    results := [];
    for j := 0 to |ks|
      invariant |results| == j
      invariant forall i :: 0 <= i < j ==> results[i] == Pick(Ranked(candidates), ks[i], ks[i] / CAP_DIVISOR)
    {
      var picked := Select(candidates, ks[j]);
      results := results + [picked];
    }
  }

  /** max over the nonempty picks of their last distance, or infinity when every pick is empty. */
  method Boundary(results: seq<seq<Hit>>) returns (boundary: Edge)
    ensures boundary.Infinite? <==> forall j :: 0 <= j < |results| ==> results[j] == []
    ensures forall j :: 0 <= j < |results| && results[j] != [] ==> Last(results[j]) <= boundary.border
  {
    boundary := Infinite;
    for j := 0 to |results|
      invariant boundary.Infinite? <==> forall i :: 0 <= i < j ==> results[i] == []
      invariant forall i :: 0 <= i < j && results[i] != [] ==> Last(results[i]) <= boundary.border
    {
      if results[j] != [] {
        var last := results[j][|results[j]| - 1].dist;
        boundary := At(if boundary.Infinite? then last else RMax(boundary.border, last));
      }
    }
  }

  /** Rows of every group whose distance can still be at or inside the boundary. */
  method Refetch(groups: seq<Group>, boundary: real, ball: (nat, real) -> seq<Hit>, radius: real -> real)
    returns (ties: seq<Hit>)
    requires FittedMemory(groups) && IsBall(groups, ball) && IsOutward(radius)
    ensures forall h: Hit :: h in ties ==> h in All(groups)
    ensures forall h: Hit :: h in All(groups) && h.dist <= boundary ==> h in ties
  {
    hide Dated;
    ties := [];
    for g := 0 to |groups|
      invariant forall h: Hit :: h in ties ==> h in All(groups[..g])
      invariant forall h: Hit :: h in All(groups[..g]) && h.dist <= boundary ==> h in ties
    {
      AllStep(groups, g);
      if groups[g].offset <= boundary {
        var r := radius(RMax(0.0, boundary - groups[g].offset));
        ties := ties + ball(g, r);
      }
    }
    assert groups[..|groups|] == groups;
  }

  lemma {:induction false} AllStep(groups: seq<Group>, g: nat)
    requires g < |groups|
    ensures All(groups[..g + 1]) == All(groups[..g]) + groups[g].hits
  {
    assert groups[..g + 1][..g] == groups[..g];
    assert HitsOf(groups[..g + 1])[..g] == HitsOf(groups[..g]);
  }

  method MaxOf(ks: seq<nat>) returns (m: nat)
    requires ks != []
    ensures forall j :: 0 <= j < |ks| ==> ks[j] <= m
  {
    m := ks[0];
    for j := 1 to |ks|
      invariant forall i :: 0 <= i < j ==> ks[i] <= m
    {
      m := Max(m, ks[j]);
    }
  }

  /** Beyond the tie margin the shortlists alone decide, as they do when nothing was truncated. */
  lemma {:induction false} ShortlistsDecide(groups: seq<Group>, candidates: seq<Hit>, edge: Edge, ks: seq<nat>,
                         results: seq<seq<Hit>>, boundary: Edge)
    requires Agree(candidates, All(groups), edge) && KValid(ks) && PickedFrom(results, candidates, ks)
    requires edge.Infinite? || forall j :: 0 <= j < |ks| ==> |results[j]| == ks[j] && Before(Last(results[j]), edge)
    ensures AllBrute(results, groups, ks)
  {
    hide Agree, Pick, Ranked, Brute, All;
    forall j | 0 <= j < |ks| ensures results[j] == Brute(All(groups), ks[j], ks[j] / CAP_DIVISOR) {
      EdgeDecides(candidates, All(groups), edge, ks[j], ks[j] / CAP_DIVISOR);
    }
  }

  /** At a tied border every full pick, made again over the refetched rows, is the brute-force answer. */
  lemma {:induction false} RefetchedDecide(groups: seq<Group>, candidates: seq<Hit>, ties: seq<Hit>, boundary: real,
                                           ks: seq<nat>, first: seq<seq<Hit>>, results: seq<seq<Hit>>)
    requires Dated(All(groups)) && multiset(candidates) <= multiset(All(groups)) && KValid(ks)
    requires forall h: Hit :: h in ties ==> h in All(groups)
    requires forall h: Hit :: h in All(groups) && h.dist <= boundary ==> h in ties
    requires PickedFrom(first, candidates, ks) && PickedFrom(results, FirstById(candidates + ties), ks)
    requires forall j :: 0 <= j < |ks| ==> |first[j]| == ks[j] && Last(first[j]) <= boundary
    ensures AllBrute(results, groups, ks)
  {
    MergedRows(All(groups), candidates, ties);
    forall j | 0 <= j < |ks| ensures results[j] == Brute(All(groups), ks[j], ks[j] / CAP_DIVISOR) {
      FullPick(candidates, ks[j], ks[j] / CAP_DIVISOR, boundary);
      RefetchDecides(All(groups), candidates + ties, first[j], boundary, ks[j], ks[j] / CAP_DIVISOR);
    }
  }

  lemma {:induction false} MergedRows(all: seq<Hit>, candidates: seq<Hit>, ties: seq<Hit>)
    requires multiset(candidates) <= multiset(all) && forall h: Hit :: h in ties ==> h in all
    ensures forall h: Hit :: h in candidates + ties ==> h in all
  {
    forall h: Hit | h in candidates ensures h in all {
      assert h in multiset(candidates);
      assert h in multiset(all);
    }
  }

  lemma {:induction false} FullPick(candidates: seq<Hit>, k: nat, cap: nat, boundary: real)
    requires 1 <= k && |Pick(Ranked(candidates), k, cap)| == k && Last(Pick(Ranked(candidates), k, cap)) <= boundary
    ensures var p := Pick(Ranked(candidates), k, cap);
            multiset(p) <= multiset(candidates) && RespectsCap(p, cap)
            && forall i :: 0 <= i < |p| ==> p[i].dist <= boundary
  {
    PickSound(candidates, k, cap);
    var p := Pick(Ranked(candidates), k, cap);
    forall i | 0 <= i < |p| ensures p[i].dist <= boundary {
      assert i == k - 1 || ByDistance()(p[i], p[k - 1]);
    }
  }

  /** One round of the loop: pick, test the borders, and refetch the boundary's closed ball when a border ties. */
  method Attempt(groups: seq<Group>, ks: seq<nat>, candidates: seq<Hit>, edge: Edge,
                 ball: (nat, real) -> seq<Hit>, radius: real -> real)
    returns (ready: bool, results: seq<seq<Hit>>)
    requires FittedMemory(groups) && KValid(ks) && IsBall(groups, ball) && IsOutward(radius)
    requires Agree(candidates, All(groups), edge) && multiset(candidates) <= multiset(All(groups))
    ensures ready ==> AllBrute(results, groups, ks)
    ensures edge.Infinite? ==> ready
  {
    hide IsBall, IsOutward, Agree, Dated, Pick, Ranked, All;
    PartDated(All(groups), candidates);
    results := SelectAll(candidates, ks);
    var complete := forall j :: 0 <= j < |ks| ==> |results[j]| == ks[j];
    var boundary := Boundary(results);
    ready := edge.Infinite? || (complete && boundary.At? && boundary.border - TIE <= edge.border);
    if ready {
      if edge.Infinite? || boundary.border + TIE < edge.border {
        ShortlistsDecide(groups, candidates, edge, ks, results, boundary);
      } else {
        var ties := Refetch(groups, boundary.border, ball, radius);
        MergedRows(All(groups), candidates, ties);
        UniqueIsPart(All(groups), candidates + ties);
        PartDated(All(groups), FirstById(candidates + ties));
        ghost var first := results;
        results := SelectAll(FirstById(candidates + ties), ks);
        RefetchedDecide(groups, candidates, ties, boundary.border, ks, first, results);
      }
    }
  }

  /** With rows to choose from, no pick is empty, so the boundary is finite whenever it is compared. */
  lemma {:induction false} BoundaryFinite(candidates: seq<Hit>, k: nat, cap: nat)
    requires candidates != [] && 1 <= k && 1 <= cap
    ensures Pick(Ranked(candidates), k, cap) != []
  {
    var s := Ranked(candidates);
    assert |multiset(s)| == |multiset(candidates)|;
    assert s == [s[0]] + s[1..];
    var late := AcceptAppend([s[0]], s[1..], cap);
    assert [s[0]][..0] == [];
  }

  /** The neighbours of one query row: for every requested count at once, exactly the brute-force capped selection. */
  method Neighbors(groups: seq<Group>, ks: seq<nat>, nearest: (nat, nat) -> seq<Hit>,
                   ball: (nat, real) -> seq<Hit>, radius: real -> real)
    returns (answer: seq<seq<Hit>>)
    requires FittedMemory(groups) && KValid(ks)
    requires IsNearest(groups, nearest) && IsBall(groups, ball) && IsOutward(radius)
    ensures AllBrute(answer, groups, ks)
  {
    var most := MaxOf(ks);
    assert ks[0] <= most;
    var limit: int := 2 * most;
    var largest := MaxOf(SizesOf(groups));
    hide FittedMemory, IsNearest, IsBall, IsOutward, PickedFrom, AllBrute;
    while true
      invariant 1 <= limit
      decreases largest - limit
    {
      var candidates, edge := Candidates(groups, limit, nearest);
      var ready, first := Attempt(groups, ks, candidates, edge, ball, radius);
      if ready {
        return first;
      }
      assert !edge.Infinite?;
      limit := limit * 2;
    }
  }
}
