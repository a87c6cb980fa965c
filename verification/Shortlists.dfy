/** Truncated ascending lists per group, and when together they decide a capped search. */
module Shortlists {
  import opened Prelude
  import opened Sorting
  import opened Multisets
  import opened CappedSearch

  /** s holds the |s| nearest hits of a group, ascending; ties may have been resolved in any way. */
  ghost predicate IsShortlist(group: seq<Hit>, s: seq<Hit>)
  {
    && (forall i, j :: 0 <= i < j < |s| ==> s[i].dist <= s[j].dist)
    && exists rest: seq<Hit> :: LeftOut(group, s, rest)
  }

  ghost predicate LeftOut(group: seq<Hit>, s: seq<Hit>, rest: seq<Hit>)
  {
    && multiset(group) == multiset(s + rest)
    && forall i, j :: 0 <= i < |s| && 0 <= j < |rest| ==> s[i].dist <= rest[j].dist
  }

  lemma {:induction false} MakeShortlist(group: seq<Hit>, s: seq<Hit>, rest: seq<Hit>)
    requires LeftOut(group, s, rest) && forall i, j :: 0 <= i < j < |s| ==> s[i].dist <= s[j].dist
    ensures IsShortlist(group, s)
  {
  }

  /** min over the borders of truncated groups, or infinity when no group is truncated. */
  datatype Edge = Infinite | At(border: real)

  predicate Before(dist: real, edge: Edge) { edge.Infinite? || dist < edge.border }

  function Nearest(edge: Edge, border: real): Edge
  {
    if edge.Infinite? then At(border) else At(RMin(edge.border, border))
  }

  function Last(s: seq<Hit>): real { if s == [] then 0.0 else s[|s| - 1].dist }

  /** The edge once one more group has been read. */
  function EdgeAfter(edge: Edge, group: seq<Hit>, s: seq<Hit>): Edge
  {
    if |s| < |group| && s != [] then Nearest(edge, Last(s)) else edge
  }

  /** Candidates and whole memory agree everywhere before the edge. */
  ghost predicate Agree(candidates: seq<Hit>, all: seq<Hit>, edge: Edge)
  {
    forall h: Hit :: Before(h.dist, edge) ==> multiset(candidates)[h] == multiset(all)[h]
  }

  /** Before its own border a shortlist misses nothing of its group. */
  lemma {:induction false} ShortlistComplete(group: seq<Hit>, s: seq<Hit>, h: Hit)
    requires IsShortlist(group, s) && (s == [] ==> group == [])
    requires |s| < |group| ==> h.dist < Last(s)
    ensures multiset(s)[h] == multiset(group)[h]
  {
    var rest: seq<Hit> :| LeftOut(group, s, rest);
    ConcatCount(s, rest, h);
    assert |multiset(group)| == |multiset(s + rest)|;
    if |s| < |group| {
      forall j | 0 <= j < |rest| ensures rest[j] != h {
        assert s[|s| - 1].dist <= rest[j].dist;
      }
      assert h !in rest;
    }
  }

  /** Reading one more group keeps the agreement, up to the new edge. */
  lemma {:induction false} AddGroup(c: seq<Hit>, a: seq<Hit>, edge: Edge, group: seq<Hit>, s: seq<Hit>)
    requires Agree(c, a, edge) && IsShortlist(group, s) && (s == [] ==> group == [])
    ensures Agree(c + s, a + group, EdgeAfter(edge, group, s))
  {
    forall h: Hit | Before(h.dist, EdgeAfter(edge, group, s)) ensures multiset(c + s)[h] == multiset(a + group)[h] {
      ShortlistComplete(group, s, h);
      ConcatCount(c, s, h);
      ConcatCount(a, group, h);
      assert Before(h.dist, edge);
    }
  }

  lemma {:induction false} SameRanking(a: seq<Hit>, b: seq<Hit>)
    requires multiset(a) == multiset(b)
    ensures Ranked(a) == Ranked(b)
  {
    DistanceOrder();
    SortedOrdered(a, ByDistance());
    SortedOrdered(b, ByDistance());
    OrderedUnique(Ranked(a), Ranked(b), ByDistance());
  }

  lemma {:induction false} AgreeEverywhere(candidates: seq<Hit>, all: seq<Hit>)
    requires Agree(candidates, all, Infinite)
    ensures multiset(candidates) == multiset(all)
  {
    forall h: Hit ensures multiset(candidates)[h] == multiset(all)[h] {
      assert Before(h.dist, Infinite);
    }
  }

  /** With nothing truncated, whatever the scan returns is what it would return from the whole memory. */
  lemma {:induction false} WholeDecides(candidates: seq<Hit>, all: seq<Hit>, k: nat, cap: nat)
    requires Agree(candidates, all, Infinite)
    ensures Scanned(Ranked(candidates), k, cap) == Scanned(Ranked(all), k, cap)
  {
    AgreeEverywhere(candidates, all);
    SameRanking(candidates, all);
  }

  /** A full pick that ends before the edge, or any pick when nothing was truncated, is the brute-force answer. */
  lemma {:induction false} EdgeDecides(candidates: seq<Hit>, all: seq<Hit>, edge: Edge, k: nat, cap: nat)
    requires Agree(candidates, all, edge) && 1 <= k
    requires var picked := Pick(Ranked(candidates), k, cap);
             edge.Infinite? || (|picked| == k && Before(picked[k - 1].dist, edge))
    ensures Pick(Ranked(candidates), k, cap) == Brute(all, k, cap)
  {
    if edge.Infinite? {
      AgreeEverywhere(candidates, all);
      SameRanking(candidates, all);
    } else {
      forall h: Hit | h.dist < edge.border ensures multiset(candidates)[h] == multiset(all)[h] {
        assert Before(h.dist, edge);
      }
      StrictBorder(candidates, all, edge.border, k, cap);
    }
  }

  /** Lists read from groups of known sizes, each the nearest part of its group. */
  ghost predicate ReadFrom(groups: seq<seq<Hit>>, lists: seq<seq<Hit>>, sizes: seq<nat>)
  {
    && |groups| == |lists| == |sizes|
    && forall g :: 0 <= g < |groups| ==>
         |groups[g]| == sizes[g] && IsShortlist(groups[g], lists[g]) && (lists[g] == [] ==> groups[g] == [])
  }

  lemma {:induction false} AddPart(c: seq<Hit>, a: seq<Hit>, group: seq<Hit>, s: seq<Hit>)
    requires multiset(c) <= multiset(a) && IsShortlist(group, s)
    ensures multiset(c + s) <= multiset(a + group)
  {
    var rest: seq<Hit> :| LeftOut(group, s, rest);
    assert multiset(s + rest) == multiset(s) + multiset(rest);
    assert multiset(c + s) == multiset(c) + multiset(s);
    assert multiset(a + group) == multiset(a) + multiset(group);
  }

  lemma {:induction false} AgreeNothing()
    ensures Agree([], [], Infinite)
  {
  }

  lemma {:induction false} AgreePermuted(c: seq<Hit>, a: seq<Hit>, b: seq<Hit>, edge: Edge)
    requires Agree(c, a, edge) && multiset(a) == multiset(b)
    ensures Agree(c, b, edge)
  {
  }

  /** Concatenate the lists, and take the least border of the truncated ones. */
  method Merge(ghost groups: seq<seq<Hit>>, lists: seq<seq<Hit>>, sizes: seq<nat>)
    returns (candidates: seq<Hit>, edge: Edge)
    requires ReadFrom(groups, lists, sizes)
    ensures Agree(candidates, Flatten(groups), edge) && multiset(candidates) <= multiset(Flatten(groups))
    ensures edge.Infinite? <==> forall g :: 0 <= g < |lists| ==> sizes[g] <= |lists[g]|
    ensures candidates == [] ==> forall g :: 0 <= g < |lists| ==> lists[g] == []
  {
    hide *;
    candidates, edge := [], Infinite;
    MergedNone(groups, lists, sizes);
    for g := 0 to |lists|
      invariant Merged(groups, lists, sizes, g, candidates, edge)
    {
      MergedNext(groups, lists, sizes, g, candidates, edge);
      candidates := candidates + lists[g];
      if |lists[g]| < sizes[g] {
        edge := Nearest(edge, Last(lists[g]));
      }
    }
    MergedAll(groups, lists, sizes, candidates, edge);
  }

  /** The first n lists have been merged. */
  ghost predicate Merged(groups: seq<seq<Hit>>, lists: seq<seq<Hit>>, sizes: seq<nat>, n: nat, candidates: seq<Hit>,
                         edge: Edge)
  {
    && n <= |lists| == |groups| == |sizes|
    && Agree(candidates, Flatten(groups[..n]), edge) && multiset(candidates) <= multiset(Flatten(groups[..n]))
    && (edge.Infinite? <==> forall j :: 0 <= j < n ==> sizes[j] <= |lists[j]|)
    && (candidates == [] ==> forall j :: 0 <= j < n ==> lists[j] == [])
  }

  lemma {:induction false} MergedNone(groups: seq<seq<Hit>>, lists: seq<seq<Hit>>, sizes: seq<nat>)
    requires ReadFrom(groups, lists, sizes)
    ensures |groups| == |lists| == |sizes| && Merged(groups, lists, sizes, 0, [], Infinite)
  {
    AgreeNothing();
    hide Agree, IsShortlist;
  }

  lemma {:induction false} MergedNext(groups: seq<seq<Hit>>, lists: seq<seq<Hit>>, sizes: seq<nat>, n: nat,
                                      candidates: seq<Hit>, edge: Edge)
    requires ReadFrom(groups, lists, sizes) && Merged(groups, lists, sizes, n, candidates, edge) && n < |lists|
    ensures Merged(groups, lists, sizes, n + 1, candidates + lists[n],
                   if |lists[n]| < sizes[n] then Nearest(edge, Last(lists[n])) else edge)
  {
    hide Agree, IsShortlist, Last;
    AddGroup(candidates, Flatten(groups[..n]), edge, groups[n], lists[n]);
    AddPart(candidates, Flatten(groups[..n]), groups[n], lists[n]);
    assert groups[..n + 1][..n] == groups[..n];
  }

  lemma {:induction false} MergedAll(groups: seq<seq<Hit>>, lists: seq<seq<Hit>>, sizes: seq<nat>,
                                     candidates: seq<Hit>, edge: Edge)
    requires Merged(groups, lists, sizes, |lists|, candidates, edge)
    ensures Agree(candidates, Flatten(groups), edge) && multiset(candidates) <= multiset(Flatten(groups))
    ensures edge.Infinite? <==> forall g :: 0 <= g < |lists| ==> sizes[g] <= |lists[g]|
    ensures candidates == [] ==> forall g :: 0 <= g < |lists| ==> lists[g] == []
  {
    hide Agree, Flatten;
    assert groups[..|lists|] == groups;
  }
}
