/** Memory rows grouped by code, and the nearest members of one group. */
module RowGroups {
  import opened Multisets
  import opened CappedSearch
  import opened Shortlists

  /** Rows sharing one missing pattern and one trend flag, with the tree's row numbers. */
  datatype Group = Group(members: seq<nat>, pattern: seq<bool>, invalid: bool)

  function Numbers(n: nat): (s: seq<nat>)
    ensures |s| == n && forall i :: 0 <= i < n ==> s[i] == i
  {
    if n == 0 then [] else Numbers(n - 1) + [n - 1]
  }

  function Members(groups: seq<Group>): (s: seq<seq<nat>>)
    ensures |s| == |groups| && forall g :: 0 <= g < |groups| ==> s[g] == groups[g].members
  {
    if groups == [] then [] else Members(groups[..|groups| - 1]) + [groups[|groups| - 1].members]
  }

  // ---- grouping by code

  /** The missing pattern of a row and whether its trend is unusable: one group per code. */
  datatype Code = Code(missing: seq<bool>, invalid: bool)

  function Count(s: seq<nat>, i: nat): nat { multiset(s)[i] }

  /** The distinct codes, up to the order in which the groups are searched. */
  function Unique(codes: seq<Code>): (u: seq<Code>)
    ensures forall c :: c in u <==> c in codes
    ensures forall i, j :: 0 <= i < j < |u| ==> u[i] != u[j]
  {
    if codes == [] then []
    else
      var n := |codes| - 1;
      assert codes == codes[..n] + [codes[n]];
      var u := Unique(codes[..n]);
      if codes[n] in u then u else u + [codes[n]]
  }

  /** The rows of one code, ascending. */
  function Positions(codes: seq<Code>, code: Code): seq<nat>
  {
    if codes == [] then []
    else
      var n := |codes| - 1;
      Positions(codes[..n], code) + (if codes[n] == code then [n] else [])
  }

  lemma {:induction false} PositionsCount(codes: seq<Code>, code: Code, i: nat)
    ensures Count(Positions(codes, code), i) == if i < |codes| && codes[i] == code then 1 else 0
  {
    if codes != [] {
      var n := |codes| - 1;
      PositionsCount(codes[..n], code, i);
      ConcatCount(Positions(codes[..n], code), if codes[n] == code then [n] else [], i);
    }
  }

  /** The rows placed so far are those of the codes already treated, each exactly once. */
  ghost predicate Placed(rows: seq<nat>, codes: seq<Code>, done: seq<Code>)
  {
    forall i: nat :: Count(rows, i) == Due(i, codes, done)
  }

  ghost function Due(i: nat, codes: seq<Code>, done: seq<Code>): nat
  {
    if i < |codes| && codes[i] in done then 1 else 0
  }

  lemma {:induction false} PlaceGroup(rows: seq<nat>, codes: seq<Code>, done: seq<Code>, code: Code)
    requires Placed(rows, codes, done) && code !in done
    ensures Placed(rows + Positions(codes, code), codes, done + [code])
  {
    var all := rows + Positions(codes, code);
    forall i: nat ensures Count(all, i) == Due(i, codes, done + [code]) {
      assert Count(rows, i) == Due(i, codes, done);
      ConcatCount(rows, Positions(codes, code), i);
      PositionsCount(codes, code, i);
    }
  }

  lemma {:induction false} OneMore(groups: seq<Group>, g: Group)
    ensures Flatten(Members(groups + [g])) == Flatten(Members(groups)) + g.members
  {
    var more := groups + [g];
    forall j | 0 <= j < |groups| ensures Members(more)[j] == Members(groups)[j] {
      assert more[j] == groups[j];
    }
    assert Members(more)[..|groups|] == Members(groups);
  }

  lemma {:induction false} NumbersOnce(n: nat, i: nat)
    ensures Count(Numbers(n), i) == if i < n then 1 else 0
  {
    if n > 0 {
      var before, last := Numbers(n - 1), [n - 1];
      assert Numbers(n) == before + last;
      NumbersOnce(n - 1, i);
      ConcatCount(before, last, i);
      OnlyOne(n - 1, i);
      hide Numbers, Count;
    } else {
      assert Numbers(0) == [];
    }
  }

  lemma {:induction false} OnlyOne(x: nat, i: nat)
    ensures Count([x], i) == if i == x then 1 else 0
  {
  }

  lemma {:induction false} SameCounts(a: seq<nat>, b: seq<nat>)
    requires forall i: nat :: Count(a, i) == Count(b, i)
    ensures multiset(a) == multiset(b)
  {
    forall i: nat ensures (multiset(a))[i] == Count(b, i) {
      assert Count(a, i) == Count(b, i);
    }
  }

  lemma {:induction false} AllPlaced(rows: seq<nat>, codes: seq<Code>, done: seq<Code>)
    requires Placed(rows, codes, done) && forall i :: 0 <= i < |codes| ==> codes[i] in done
    ensures multiset(rows) == multiset(Numbers(|codes|))
  {
    var all := Numbers(|codes|);
    forall i: nat ensures Count(rows, i) == Count(all, i) {
      NumbersOnce(|codes|, i);
      assert Count(rows, i) == Due(i, codes, done);
    }
    SameCounts(rows, all);
  }

  /** One group for each code that occurs, holding exactly the rows of that code. */
  ghost predicate IsGrouping(groups: seq<Group>, codes: seq<Code>)
  {
    && multiset(Flatten(Members(groups))) == multiset(Numbers(|codes|))
    && forall g :: 0 <= g < |groups| ==> OfOneCode(groups[g], codes)
  }

  ghost predicate OfOneCode(g: Group, codes: seq<Code>)
  {
    && 0 < |g.members|
    && forall p :: 0 <= p < |g.members| ==> g.members[p] < |codes| && codes[g.members[p]] == Code(g.pattern, g.invalid)
  }

  method GroupByCode(codes: seq<Code>) returns (groups: seq<Group>)
    ensures IsGrouping(groups, codes)
  {
    var unique := Unique(codes);
    groups := [];
    StartPlacing(codes, unique);
    hide PlacedUpTo, Positions, OfOneCode;
    for u := 0 to |unique|
      invariant PlacedUpTo(groups, codes, unique, u)
      invariant forall g :: 0 <= g < |groups| ==> OfOneCode(groups[g], codes)
    {
      var code := unique[u];
      assert code in codes;
      var group := Group(Positions(codes, code), code.missing, code.invalid);
      FitsCode(codes, code);
      PlaceNext(groups, codes, unique, u, group);
      groups := groups + [group];
    }
    FinishPlacing(groups, codes, unique);
  }

  /** After u codes, the groups built hold the rows of those codes. */
  ghost predicate PlacedUpTo(groups: seq<Group>, codes: seq<Code>, unique: seq<Code>, u: nat)
  {
    u <= |unique| && Placed(Flatten(Members(groups)), codes, unique[..u])
  }

  lemma {:induction false} StartPlacing(codes: seq<Code>, unique: seq<Code>)
    ensures PlacedUpTo([], codes, unique, 0)
  {
  }

  lemma {:induction false} PlaceNext(groups: seq<Group>, codes: seq<Code>, unique: seq<Code>, u: nat, group: Group)
    requires PlacedUpTo(groups, codes, unique, u) && u < |unique|
    requires group.members == Positions(codes, unique[u])
    requires forall i, j :: 0 <= i < j < |unique| ==> unique[i] != unique[j]
    ensures PlacedUpTo(groups + [group], codes, unique, u + 1)
  {
    hide Placed, Flatten, Members, Positions;
    PlaceGroup(Flatten(Members(groups)), codes, unique[..u], unique[u]);
    OneMore(groups, group);
    assert unique[..u + 1] == unique[..u] + [unique[u]];
  }

  lemma {:induction false} FinishPlacing(groups: seq<Group>, codes: seq<Code>, unique: seq<Code>)
    requires PlacedUpTo(groups, codes, unique, |unique|) && forall c :: c in codes ==> c in unique
    ensures multiset(Flatten(Members(groups))) == multiset(Numbers(|codes|))
  {
    hide Placed, Flatten, Members, Numbers;
    assert unique[..|unique|] == unique;
    forall i | 0 <= i < |codes| ensures codes[i] in unique {
      assert codes[i] in codes;
    }
    AllPlaced(Flatten(Members(groups)), codes, unique);
  }

  lemma {:induction false} FitsCode(codes: seq<Code>, code: Code)
    requires code in codes
    ensures OfOneCode(Group(Positions(codes, code), code.missing, code.invalid), codes)
  {
    var members := Positions(codes, code);
    var i: nat :| i < |codes| && codes[i] == code;
    PositionsCount(codes, code, i);
    forall p | 0 <= p < |members| ensures members[p] < |codes| && codes[members[p]] == code {
      PositionsCount(codes, code, members[p]);
      assert members[p] in multiset(members);
    }
  }

  lemma {:induction false} Increasing(ids: seq<int>)
    requires forall i :: 0 < i < |ids| ==> ids[i - 1] < ids[i]
    ensures forall i, j :: 0 <= i < j < |ids| ==> ids[i] < ids[j]
  {
    if ids != [] {
      var n := |ids| - 1;
      Increasing(ids[..n]);
      forall i, j | 0 <= i < j < |ids| ensures ids[i] < ids[j] {
        if j == n && i < n - 1 {
          assert ids[..n][i] < ids[..n][n - 1];
        } else if j < n {
          assert ids[..n][i] < ids[..n][j];
        }
      }
    }
  }
  // ---- the groups as a query sees them

  /** The groups as a query sees them, and their sizes. */
  function GroupHits(hit: nat -> Hit, groups: seq<Group>): (s: seq<seq<Hit>>)
    ensures |s| == |groups| && forall g :: 0 <= g < |groups| ==> s[g] == Map(hit, groups[g].members)
  {
    if groups == [] then [] else GroupHits(hit, groups[..|groups| - 1]) + [Map(hit, groups[|groups| - 1].members)]
  }

  function Sizes(groups: seq<Group>): (s: seq<nat>)
    ensures |s| == |groups| && forall g :: 0 <= g < |groups| ==> s[g] == |groups[g].members|
  {
    if groups == [] then [] else Sizes(groups[..|groups| - 1]) + [|groups[|groups| - 1].members|]
  }

  lemma {:induction false} FlattenHits(hit: nat -> Hit, groups: seq<Group>)
    ensures Flatten(GroupHits(hit, groups)) == Map(hit, Flatten(Members(groups)))
  {
    if groups != [] {
      var n := |groups| - 1;
      FlattenHits(hit, groups[..n]);
      MapAppend(hit, Flatten(Members(groups[..n])), groups[n].members);
      assert GroupHits(hit, groups)[..n] == GroupHits(hit, groups[..n]);
      assert Members(groups)[..n] == Members(groups[..n]);
    }
  }

  lemma {:induction false} FlattenLength(groups: seq<Group>, g: nat)
    requires g < |groups|
    ensures |groups[g].members| <= |Flatten(Members(groups))|
  {
    var n := |groups| - 1;
    assert Members(groups)[..n] == Members(groups[..n]);
    if g < n {
      FlattenLength(groups[..n], g);
    }
  }

  lemma {:induction false} GroupSize(groups: seq<Group>, n: nat, g: nat)
    requires multiset(Flatten(Members(groups))) == multiset(Numbers(n)) && g < |groups|
    ensures |groups[g].members| <= n
  {
    FlattenLength(groups, g);
    assert |multiset(Flatten(Members(groups)))| == |multiset(Numbers(n))|;
  }

  lemma {:induction false} SomeGroup(groups: seq<Group>, n: nat)
    requires multiset(Flatten(Members(groups))) == multiset(Numbers(n)) && 0 < n
    ensures groups != []
  {
    assert |multiset(Flatten(Members(groups)))| == |multiset(Numbers(n))|;
  }

  /** Together the groups show a query every row exactly once. */
  lemma {:induction false} AllSeen(hit: nat -> Hit, groups: seq<Group>, n: nat)
    requires multiset(Flatten(Members(groups))) == multiset(Numbers(n))
    ensures multiset(Flatten(GroupHits(hit, groups))) == multiset(Map(hit, Numbers(n)))
  {
    FlattenHits(hit, groups);
    MapPermutation(hit, Flatten(Members(groups)), Numbers(n));
  }

  // ---- the tree, by its interface only

  /** found holds the take nearest members in ascending distance; ties may be resolved in any way. */
  ghost predicate NearestMembers(dist: nat -> real, members: seq<nat>, take: nat, found: seq<nat>)
  {
    && |found| == take
    && multiset(found) <= multiset(members)
    && (forall a, b :: 0 <= a < b < |found| ==> dist(found[a]) <= dist(found[b]))
    && (forall i, a :: i in multiset(members) - multiset(found) && 0 <= a < |found| ==> dist(found[a]) <= dist(i))
  }

  /** Within a group distances differ from the tree's by one shared offset. */
  ghost predicate Offsets(dist: nat -> real, hit: nat -> Hit, members: seq<nat>, offset: real)
  {
    forall i :: i in multiset(members) ==> hit(i).dist == dist(i) + offset
  }

  /** So the tree's answer, offset added, is a shortlist of the group. */
  lemma {:induction false} NearestShortlist(dist: nat -> real, hit: nat -> Hit, offset: real, members: seq<nat>,
                                            take: nat, found: seq<nat>)
    requires NearestMembers(dist, members, take, found) && Offsets(dist, hit, members, offset)
    ensures IsShortlist(Map(hit, members), Map(hit, found)) && |Map(hit, found)| == take
  {
    var rest := Listing(multiset(members) - multiset(found));
    assert multiset(found + rest) == multiset(members);
    MapPermutation(hit, members, found + rest);
    MapAppend(hit, found, rest);
    NearestOrder(dist, hit, offset, members, take, found, rest);
    hide Map;
    MakeShortlist(Map(hit, members), Map(hit, found), Map(hit, rest));
  }

  lemma {:induction false} NearestOrder(dist: nat -> real, hit: nat -> Hit, offset: real, members: seq<nat>, take: nat,
                                        found: seq<nat>, rest: seq<nat>)
    requires NearestMembers(dist, members, take, found) && Offsets(dist, hit, members, offset)
    requires multiset(rest) == multiset(members) - multiset(found)
    ensures var f, r := Map(hit, found), Map(hit, rest);
            && (forall i, j :: 0 <= i < j < |f| ==> f[i].dist <= f[j].dist)
            && forall i, j :: 0 <= i < |f| && 0 <= j < |r| ==> f[i].dist <= r[j].dist
  {
    forall i | 0 <= i < |found| ensures found[i] in multiset(members) {
      assert found[i] in multiset(found);
    }
    forall j | 0 <= j < |rest| ensures rest[j] in multiset(members) - multiset(found) && rest[j] in multiset(members) {
      assert rest[j] in multiset(rest);
    }
  }

  /** The hits of the members within a distance are the group's hits within it, offset added. */
  lemma {:induction false} BallHits(dist: nat -> real, hit: nat -> Hit, offset: real, members: seq<nat>,
                                    found: seq<nat>, square: real, h: Hit)
    requires Offsets(dist, hit, members, offset) && forall i: nat :: i in found <==> i in members && dist(i) <= square
    ensures h in Map(hit, found) <==> h in Map(hit, members) && h.dist - offset <= square
  {
    if h in Map(hit, found) {
      var a :| 0 <= a < |found| && hit(found[a]) == h;
      assert found[a] in found && found[a] in members && found[a] in multiset(members);
      var p :| 0 <= p < |members| && members[p] == found[a];
      assert Map(hit, members)[p] == h;
    }
    if h in Map(hit, members) && h.dist - offset <= square {
      var p :| 0 <= p < |members| && hit(members[p]) == h;
      assert members[p] in members && members[p] in multiset(members);
      var a :| 0 <= a < |found| && found[a] == members[p];
      assert Map(hit, found)[a] == h;
    }
  }
}
