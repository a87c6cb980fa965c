/** What the capped greedy pick is, row by row, without scanning anything. */
module CappedAnswer {
  import opened Prelude
  import opened Sorting
  import opened Multisets
  import opened CappedSearch

  /** Strictly nearer, or as near and on an earlier date, or on the same date with a smaller id. */
  predicate Ahead(g: Hit, h: Hit)
  {
    || g.dist < h.dist
    || (g.dist == h.dist && g.day < h.day)
    || (g.dist == h.dist && g.day == h.day && g.id < h.id)
  }

  /** The rows of h's own date that are ahead of it. */
  ghost function Rivals(all: seq<Hit>, h: Hit): set<Hit> { set g | g in all && g.day == h.day && Ahead(g, h) }

  ghost predicate HasRoom(all: seq<Hit>, h: Hit, cap: nat) { |Rivals(all, h)| < cap }

  ghost predicate Climbs(s: seq<Hit>) { forall i, j :: 0 <= i < j < |s| ==> Ahead(s[i], s[j]) }

  ghost predicate DistinctIds(all: seq<Hit>) { forall i, j :: 0 <= i < j < |all| ==> all[i].id != all[j].id }

  /**
   * In order, the rows with fewer than cap rivals; all of them if no count is asked for, and otherwise the first k:
   * whatever is left out comes after k others.
   */
  ghost predicate IsAnswer(s: seq<Hit>, all: seq<Hit>, k: nat, cap: nat)
  {
    && Climbs(s)
    && (forall h :: h in s ==> h in all && HasRoom(all, h, cap))
    && (0 < k ==> |s| <= k)
    && (forall h :: h in all && HasRoom(all, h, cap) && h !in s ==>
          0 < k && |s| == k && forall g :: g in s ==> Ahead(g, h))
  }

  ghost function OnDay(s: seq<Hit>, day: int): set<Hit> { set g | g in s && g.day == day }

  lemma {:induction false} ClimbsLast(p: seq<Hit>, x: Hit)
    requires Climbs(p + [x])
    ensures Climbs(p) && x !in p && forall h :: h in p ==> Ahead(h, x) && !Ahead(x, h)
  {
    var s := p + [x];
    assert forall i :: 0 <= i < |p| ==> s[i] == p[i];
    forall h | h in p ensures Ahead(h, x) && !Ahead(x, h) {
      var i :| 0 <= i < |p| && p[i] == h;
      assert Ahead(s[i], s[|p|]);
    }
  }

  lemma {:induction false} OnDayCount(s: seq<Hit>, day: int)
    requires Climbs(s)
    ensures |OnDay(s, day)| == DayCount(s, day)
  {
    if s == [] {
      assert OnDay(s, day) == {};
    } else {
      var p, x := s[..|s| - 1], s[|s| - 1];
      assert s == p + [x];
      ClimbsLast(p, x);
      OnDayCount(p, day);
      assert OnDay(s, day) == if x.day == day then OnDay(p, day) + {x} else OnDay(p, day);
    }
  }

  lemma {:induction false} AcceptCount(s: seq<Hit>, cap: nat, day: int)
    ensures DayCount(Accept(s, cap), day) == Min(DayCount(s, day), cap)
  {
    if s != [] {
      var p, x := s[..|s| - 1], s[|s| - 1];
      AcceptCount(p, cap, day);
      AcceptCount(p, cap, x.day);
      DayCountSnoc(Accept(p, cap), x, day);
    }
  }

  /** The scan keeps exactly the rows with room. */
  lemma {:induction false} AcceptedIff(s: seq<Hit>, cap: nat, h: Hit)
    requires Climbs(s)
    ensures h in Accept(s, cap) <==> h in s && HasRoom(s, h, cap)
  {
    if s != [] {
      var p, x := s[..|s| - 1], s[|s| - 1];
      assert s == p + [x];
      ClimbsLast(p, x);
      if h == x {
        AcceptedIff(p, cap, x);
        assert Rivals(s, x) == OnDay(p, x.day);
        OnDayCount(p, x.day);
        AcceptCount(p, cap, x.day);
      } else {
        AcceptedIff(p, cap, h);
        if h in p { assert Rivals(s, h) == Rivals(p, h); }
      }
      hide Ahead, DayCount, Rivals, Climbs;
    }
  }

  lemma {:induction false} AcceptClimbs(s: seq<Hit>, cap: nat)
    requires Climbs(s)
    ensures Climbs(Accept(s, cap))
  {
    if s != [] {
      var p, x := s[..|s| - 1], s[|s| - 1];
      assert s == p + [x];
      ClimbsLast(p, x);
      AcceptClimbs(p, cap);
      forall h | h in Accept(p, cap) ensures Ahead(h, x) {
        AcceptedIff(p, cap, h);
      }
      hide Ahead, DayCount;
    }
  }

  lemma {:induction false} RankedClimbs(all: seq<Hit>)
    requires DistinctIds(all)
    ensures Climbs(Ranked(all)) && forall h :: h in Ranked(all) <==> h in all
  {
    var r := Ranked(all);
    DistanceOrder();
    SortedOrdered(all, ByDistance());
    assert multiset(r) == multiset(all);
    forall h ensures h in r <==> h in all {
      assert h in r <==> h in multiset(r);
      assert h in all <==> h in multiset(all);
    }
    forall i, j | 0 <= i < j < |r| ensures Ahead(r[i], r[j]) {
      assert ByDistance()(r[i], r[j]);
      OtherId(all, r, i, j);
    }
  }

  lemma {:induction false} OtherId(all: seq<Hit>, r: seq<Hit>, i: nat, j: nat)
    requires DistinctIds(all) && multiset(r) == multiset(all) && i < j < |r|
    ensures r[i].id != r[j].id
  {
    assert r[i] in multiset(r) && r[j] in multiset(r);
    var a: nat :| a < |all| && all[a] == r[i];
    var b: nat :| b < |all| && all[b] == r[j];
    if a == b {
      CountTwice(r, i, j);
      CountOnce(all, r[i]);
    }
  }

  lemma {:induction false} AcceptedOf(all: seq<Hit>, cap: nat, h: Hit)
    requires DistinctIds(all)
    ensures h in Accept(Ranked(all), cap) <==> h in all && HasRoom(all, h, cap)
  {
    RankedClimbs(all);
    AcceptedIff(Ranked(all), cap, h);
    assert Rivals(Ranked(all), h) == Rivals(all, h);
  }

  /** So the scan of the ranked memory is the answer. */
  lemma {:induction false} ScanIsAnswer(all: seq<Hit>, k: nat, cap: nat)
    requires DistinctIds(all)
    ensures IsAnswer(Scanned(Ranked(all), k, cap), all, k, cap)
  {
    var a := Accept(Ranked(all), cap);
    RankedClimbs(all);
    AcceptClimbs(Ranked(all), cap);
    forall h ensures h in a <==> h in all && HasRoom(all, h, cap) {
      AcceptedOf(all, cap, h);
    }
    hide Accept, Ahead, Rivals, HasRoom, Ranked;
    FirstOf(a, k);
  }

  lemma {:induction false} PrefixMembers(a: seq<Hit>, n: nat)
    requires n <= |a|
    ensures forall j :: 0 <= j < n ==> a[j] in a[..n]
  {
    forall j | 0 <= j < n ensures a[j] in a[..n] {
      assert a[..n][j] == a[j];
    }
  }

  lemma {:induction false} FirstOf(a: seq<Hit>, k: nat)
    requires Climbs(a)
    ensures var s := if k == 0 then a else a[..Min(k, |a|)];
            && Climbs(s) && (forall h :: h in s ==> h in a)
            && (forall h :: h in a && h !in s ==> 0 < k && |s| == k && forall g :: g in s ==> Ahead(g, h))
  {
    hide Ahead;
    var s := if k == 0 then a else a[..Min(k, |a|)];
    PrefixMembers(a, |s|);
    forall h | h in a && h !in s ensures 0 < k && |s| == k && forall g :: g in s ==> Ahead(g, h) {
      var j :| 0 <= j < |a| && a[j] == h;
      assert |s| <= j;
      forall g | g in s ensures Ahead(g, h) {
        var i :| 0 <= i < |s| && s[i] == g;
        assert a[i] == g;
      }
    }
  }
}
