/** Nearest rows under a per-date cap: the brute-force rule, and what part of the memory decides it. */
module CappedSearch {
  import opened Prelude
  import opened Sorting

  /** One memory row as a query sees it. */
  datatype Hit = Hit(dist: real, day: int, id: int)

  /** Ordering "distance, date, symbol"; sample ids follow symbol order within a date. */
  predicate Nearer(a: Hit, b: Hit)
  {
    || a.dist < b.dist
    || (a.dist == b.dist && (a.day < b.day || (a.day == b.day && a.id <= b.id)))
  }

  function ByDistance(): (Hit, Hit) -> bool { (a: Hit, b: Hit) => Nearer(a, b) }

  function Ranked(s: seq<Hit>): seq<Hit> { Sorted(s, ByDistance()) }

  function DayCount(s: seq<Hit>, day: int): nat
  {
    if s == [] then 0 else DayCount(s[..|s| - 1], day) + (if s[|s| - 1].day == day then 1 else 0)
  }

  /** The greedy scan without a target count: a hit is kept while its date has room. */
  function Accept(s: seq<Hit>, cap: nat): seq<Hit>
  {
    if s == [] then []
    else
      var a, x := Accept(s[..|s| - 1], cap), s[|s| - 1];
      if DayCount(a, x.day) < cap then a + [x] else a
  }

  function Pick(s: seq<Hit>, k: nat, cap: nat): seq<Hit>
  {
    var a := Accept(s, cap);
    a[..Min(k, |a|)]
  }

  /** The specification: rank the whole memory, then keep at most cap per date until k are kept. */
  function Brute(memory: seq<Hit>, k: nat, cap: nat): seq<Hit> { Pick(Ranked(memory), k, cap) }

  ghost predicate RespectsCap(s: seq<Hit>, cap: nat) { forall day :: DayCount(s, day) <= cap }

  // ---- the greedy scan

  lemma {:induction false} DayCountAppend(a: seq<Hit>, b: seq<Hit>, day: int)
    ensures DayCount(a + b, day) == DayCount(a, day) + DayCount(b, day)
  {
    if b == [] {
      assert a + b == a;
    } else {
      assert (a + b)[..|a + b| - 1] == a + b[..|b| - 1];
      DayCountAppend(a, b[..|b| - 1], day);
    }
  }

  lemma {:induction false} DayCountSnoc(a: seq<Hit>, x: Hit, day: int)
    ensures DayCount(a + [x], day) == DayCount(a, day) + (if x.day == day then 1 else 0)
  {
    assert (a + [x])[..|a|] == a;
  }

  lemma {:induction false} AcceptFrom(s: seq<Hit>, cap: nat)
    ensures multiset(Accept(s, cap)) <= multiset(s)
  {
    if s != [] {
      var t, x := s[..|s| - 1], s[|s| - 1];
      AcceptFrom(t, cap);
      assert s == t + [x];
      assert multiset(Accept(t, cap) + [x]) == multiset(Accept(t, cap)) + multiset{x};
    }
  }

  lemma {:induction false} AcceptCapped(s: seq<Hit>, cap: nat, day: int)
    ensures DayCount(Accept(s, cap), day) <= cap
  {
    if s != [] {
      AcceptCapped(s[..|s| - 1], cap, day);
      DayCountSnoc(Accept(s[..|s| - 1], cap), s[|s| - 1], day);
    }
  }

  /** The greedy scan selects from its input and respects the cap. */
  lemma {:induction false} AcceptSound(s: seq<Hit>, cap: nat)
    ensures multiset(Accept(s, cap)) <= multiset(s) && RespectsCap(Accept(s, cap), cap)
  {
    AcceptFrom(s, cap);
    forall day ensures DayCount(Accept(s, cap), day) <= cap {
      AcceptCapped(s, cap, day);
    }
  }

  /** A selection from a ranking is itself ranked. */
  lemma {:induction false} AcceptOrdered(s: seq<Hit>, cap: nat)
    requires Ordered(s, ByDistance())
    ensures Ordered(Accept(s, cap), ByDistance())
  {
    if s != [] {
      var t, x := s[..|s| - 1], s[|s| - 1];
      assert Ordered(t, ByDistance());
      AcceptOrdered(t, cap);
      AcceptFrom(t, cap);
      AcceptedBefore(s, Accept(t, cap));
      OrderedSnoc(Accept(t, cap), x);
      hide ByDistance, DayCount, Ordered;
    }
  }

  lemma {:induction false} OrderedSnoc(a: seq<Hit>, x: Hit)
    requires Ordered(a, ByDistance()) && forall i :: 0 <= i < |a| ==> ByDistance()(a[i], x)
    ensures Ordered(a + [x], ByDistance())
  {
    hide ByDistance;
  }

  /** Rows picked from all but the last row of a ranking do not come after the last. */
  lemma {:induction false} AcceptedBefore(s: seq<Hit>, a: seq<Hit>)
    requires s != [] && Ordered(s, ByDistance()) && multiset(a) <= multiset(s[..|s| - 1])
    ensures forall i :: 0 <= i < |a| ==> ByDistance()(a[i], s[|s| - 1])
  {
    hide ByDistance;
    var t := s[..|s| - 1];
    forall i | 0 <= i < |a| ensures ByDistance()(a[i], s[|s| - 1]) {
      assert a[i] in multiset(a) && a[i] in multiset(t);
      var j :| 0 <= j < |t| && t[j] == a[i];
      assert ByDistance()(s[j], s[|s| - 1]);
    }
  }

  /** A pick selects from its input, respects the cap and is ranked. */
  lemma {:induction false} PickSound(memory: seq<Hit>, k: nat, cap: nat)
    ensures var p := Pick(Ranked(memory), k, cap);
            multiset(p) <= multiset(memory) && RespectsCap(p, cap) && |p| <= k && Ordered(p, ByDistance())
  {
    var a := Accept(Ranked(memory), cap);
    DistanceOrder();
    SortedOrdered(memory, ByDistance());
    AcceptOrdered(Ranked(memory), cap);
    AcceptSound(Ranked(memory), cap);
    var n := Min(k, |a|);
    PrefixCap(a, n, cap);
    PrefixPart(a, n);
    hide Accept, Ranked, RespectsCap, ByDistance, Ordered;
    OrderedPart(a[..n], a[n..]);
  }

  lemma {:induction false} PrefixPart(a: seq<Hit>, n: nat)
    requires n <= |a|
    ensures a == a[..n] + a[n..] && multiset(a[..n]) <= multiset(a)
  {
    assert a == a[..n] + a[n..];
  }

  /** What is kept early is never reconsidered; what is kept later comes from later. */
  lemma {:induction false} AcceptAppend(p: seq<Hit>, r: seq<Hit>, cap: nat) returns (late: seq<Hit>)
    ensures Accept(p + r, cap) == Accept(p, cap) + late
    ensures forall i :: 0 <= i < |late| ==> late[i] in r
  {
    if r == [] {
      assert p + r == p;
      late := [];
    } else {
      var t, x := r[..|r| - 1], r[|r| - 1];
      assert (p + r)[..|p + r| - 1] == p + t;
      var l := AcceptAppend(p, t, cap);
      late := if DayCount(Accept(p + t, cap), x.day) < cap then l + [x] else l;
    }
  }

  lemma {:induction false} PickPrefix(p: seq<Hit>, r: seq<Hit>, k: nat, cap: nat)
    requires k <= |Accept(p, cap)|
    ensures Pick(p + r, k, cap) == Pick(p, k, cap)
  {
    var late := AcceptAppend(p, r, cap);
  }

  // ---- the part of a ranking inside a border

  predicate Inside(h: Hit, border: real, closed: bool)
  {
    if closed then h.dist <= border else h.dist < border
  }

  function Within(s: seq<Hit>, border: real, closed: bool): seq<Hit>
  {
    if s == [] then []
    else
      var w, x := Within(s[..|s| - 1], border, closed), s[|s| - 1];
      if Inside(x, border, closed) then w + [x] else w
  }

  lemma {:induction false} WithinCounts(s: seq<Hit>, border: real, closed: bool, h: Hit)
    ensures multiset(Within(s, border, closed))[h] == if Inside(h, border, closed) then multiset(s)[h] else 0
  {
    if s != [] {
      WithinCounts(s[..|s| - 1], border, closed, h);
      assert s == s[..|s| - 1] + [s[|s| - 1]];
    }
  }

  lemma {:induction false} WithinAll(s: seq<Hit>, border: real, closed: bool)
    requires forall i :: 0 <= i < |s| ==> Inside(s[i], border, closed)
    ensures Within(s, border, closed) == s
  {
    if s != [] {
      WithinAll(s[..|s| - 1], border, closed);
    }
  }

  /** In a ranking, everything inside a border comes first. */
  lemma {:induction false} WithinSplits(s: seq<Hit>, border: real, closed: bool) returns (rest: seq<Hit>)
    requires Ordered(s, ByDistance())
    ensures s == Within(s, border, closed) + rest
    ensures forall i :: 0 <= i < |rest| ==> !Inside(rest[i], border, closed)
  {
    rest := [];
    if s != [] {
      var t, x := s[..|s| - 1], s[|s| - 1];
      if Inside(x, border, closed) {
        forall i | 0 <= i < |s| ensures Inside(s[i], border, closed) {
          assert i == |s| - 1 || ByDistance()(s[i], x);
        }
        WithinAll(s, border, closed);
      } else {
        rest := WithinSplits(t, border, closed);
        rest := rest + [x];
      }
    }
  }

  lemma {:induction false} DistanceOrder()
    ensures TotalPreorder(ByDistance()) && Antisymmetric(ByDistance())
  {
  }

  /** Two candidate lists that agree inside the border rank identically inside it. */
  lemma {:induction false} SameInside(a: seq<Hit>, b: seq<Hit>, border: real, closed: bool)
    requires forall h: Hit :: Inside(h, border, closed) ==> multiset(a)[h] == multiset(b)[h]
    ensures Within(Ranked(a), border, closed) == Within(Ranked(b), border, closed)
  {
    DistanceOrder();
    SortedOrdered(a, ByDistance());
    SortedOrdered(b, ByDistance());
    var p, q := Within(Ranked(a), border, closed), Within(Ranked(b), border, closed);
    var ra := WithinSplits(Ranked(a), border, closed);
    var rb := WithinSplits(Ranked(b), border, closed);
    OrderedPart(p, ra);
    OrderedPart(q, rb);
    forall h: Hit ensures multiset(p)[h] == multiset(q)[h] {
      WithinCounts(Ranked(a), border, closed, h);
      WithinCounts(Ranked(b), border, closed, h);
    }
    assert multiset(p) == multiset(q);
    OrderedUnique(p, q, ByDistance());
  }

  lemma {:induction false} OrderedPart(p: seq<Hit>, r: seq<Hit>)
    requires Ordered(p + r, ByDistance())
    ensures Ordered(p, ByDistance())
  {
    forall i, j | 0 <= i < j < |p| ensures ByDistance()(p[i], p[j]) {
      assert (p + r)[i] == p[i] && (p + r)[j] == p[j];
    }
  }

  /** If k hits are kept inside a border where the candidates are complete, the candidates decide the search. */
  lemma {:induction false} BorderDecides(candidates: seq<Hit>, memory: seq<Hit>, border: real, closed: bool, k: nat,
                                         cap: nat)
    requires forall h: Hit :: Inside(h, border, closed) ==> multiset(candidates)[h] == multiset(memory)[h]
    requires k <= |Accept(Within(Ranked(memory), border, closed), cap)|
    ensures Pick(Ranked(candidates), k, cap) == Brute(memory, k, cap)
  {
    DistanceOrder();
    SameInside(candidates, memory, border, closed);
    SortedOrdered(candidates, ByDistance());
    SortedOrdered(memory, ByDistance());
    var rc := WithinSplits(Ranked(candidates), border, closed);
    var rm := WithinSplits(Ranked(memory), border, closed);
    var p := Within(Ranked(memory), border, closed);
    PickPrefix(p, rc, k, cap);
    PickPrefix(p, rm, k, cap);
  }

  /** If too few are kept inside the border, the k-th pick lies outside it. */
  lemma {:induction false} LatePick(s: seq<Hit>, border: real, closed: bool, k: nat, cap: nat)
    requires Ordered(s, ByDistance()) && 1 <= k == |Pick(s, k, cap)|
    ensures |Accept(Within(s, border, closed), cap)| < k ==> !Inside(Pick(s, k, cap)[k - 1], border, closed)
  {
    var rest := WithinSplits(s, border, closed);
    var p := Within(s, border, closed);
    var late := AcceptAppend(p, rest, cap);
    if |Accept(p, cap)| < k {
      var x := late[k - 1 - |Accept(p, cap)|];
      assert x == Pick(s, k, cap)[k - 1];
      assert x in rest;
    }
  }

  /** The strict border test: k candidates kept below every truncated group's edge are the answer. */
  lemma {:induction false} StrictBorder(candidates: seq<Hit>, memory: seq<Hit>, border: real, k: nat, cap: nat)
    requires forall h: Hit :: h.dist < border ==> multiset(candidates)[h] == multiset(memory)[h]
    requires 1 <= k == |Pick(Ranked(candidates), k, cap)|
    requires Pick(Ranked(candidates), k, cap)[k - 1].dist < border
    ensures Pick(Ranked(candidates), k, cap) == Brute(memory, k, cap)
  {
    DistanceOrder();
    SortedOrdered(candidates, ByDistance());
    LatePick(Ranked(candidates), border, false, k, cap);
    SameInside(candidates, memory, border, false);
    BorderDecides(candidates, memory, border, false, k, cap);
  }

  // ---- the greedy scan keeps as many as any selection could

  lemma {:induction false} DayCountMonotone(a: seq<Hit>, b: seq<Hit>, day: int)
    requires forall h: Hit :: h.day == day ==> multiset(a)[h] <= multiset(b)[h]
    ensures DayCount(a, day) <= DayCount(b, day)
    decreases |a|
  {
    if a != [] {
      var t, x := a[..|a| - 1], a[|a| - 1];
      assert a == t + [x];
      if x.day == day {
        assert multiset(b)[x] >= multiset(a)[x] >= 1;
        var i := RemoveOne(b, x);
        var b' := b[..i] + b[i + 1..];
        forall h: Hit | h.day == day ensures multiset(t)[h] <= multiset(b')[h] {
        }
        DayCountMonotone(t, b', day);
        DayCountRemove(b, i, day);
      } else {
        forall h: Hit | h.day == day ensures multiset(t)[h] <= multiset(b)[h] {
        }
        DayCountMonotone(t, b, day);
      }
    }
  }

  lemma {:induction false} RemoveOne(s: seq<Hit>, x: Hit) returns (i: nat)
    requires x in multiset(s)
    ensures i < |s| && s[i] == x
    ensures multiset(s[..i] + s[i + 1..]) == multiset(s) - multiset{x}
  {
    i :| i < |s| && s[i] == x;
    assert s == s[..i] + [x] + s[i + 1..];
  }

  lemma {:induction false} DayCountRemove(s: seq<Hit>, i: nat, day: int)
    requires i < |s|
    ensures DayCount(s, day) == DayCount(s[..i] + s[i + 1..], day) + (if s[i].day == day then 1 else 0)
  {
    assert s == (s[..i] + [s[i]]) + s[i + 1..];
    DayCountAppend(s[..i] + [s[i]], s[i + 1..], day);
    DayCountSnoc(s[..i], s[i], day);
    DayCountAppend(s[..i], s[i + 1..], day);
  }

  /** A date kept more often in a than chosen in b offers a row that b lacks. */
  lemma {:induction false} SpareHit(a: seq<Hit>, b: seq<Hit>, day: int) returns (y: Hit)
    requires DayCount(b, day) < DayCount(a, day)
    ensures y.day == day && multiset(b)[y] < multiset(a)[y]
  {
    if forall h: Hit :: h.day == day ==> multiset(a)[h] <= multiset(b)[h] {
      DayCountMonotone(a, b, day);
      assert false;
    }
    y :| y.day == day && multiset(a)[y] > multiset(b)[y];
  }

  lemma {:induction false} RemoveRespects(t: seq<Hit>, i: nat, cap: nat)
    requires i < |t| && RespectsCap(t, cap)
    ensures RespectsCap(t[..i] + t[i + 1..], cap)
    ensures DayCount(t[..i] + t[i + 1..], t[i].day) < cap
  {
    var u := t[..i] + t[i + 1..];
    forall day ensures DayCount(u, day) <= cap {
      DayCountRemove(t, i, day);
      assert DayCount(t, day) <= cap;
    }
    DayCountRemove(t, i, t[i].day);
    assert DayCount(t, t[i].day) <= cap;
  }

  lemma {:induction false} AddRespects(t: seq<Hit>, y: Hit, cap: nat)
    requires RespectsCap(t, cap) && DayCount(t, y.day) < cap
    ensures RespectsCap(t + [y], cap)
  {
    forall day ensures DayCount(t + [y], day) <= cap {
      DayCountSnoc(t, y, day);
      assert DayCount(t, day) <= cap;
    }
  }

  /** A selection that uses x, on a date the greedy scan had already filled, can use a kept row instead. */
  lemma {:induction false} Exchange(a: seq<Hit>, s: seq<Hit>, t: seq<Hit>, day: int, cap: nat) returns (u: seq<Hit>)
    requires multiset(a) <= multiset(s) && multiset(t) <= multiset(s) && RespectsCap(t, cap)
    requires DayCount(t, day) < cap <= DayCount(a, day)
    ensures multiset(u) <= multiset(s) && RespectsCap(u, cap) && |u| == |t| + 1
  {
    var y := SpareHit(a, t, day);
    u := t + [y];
    AddRespects(t, y, cap);
    assert multiset(u) == multiset(t) + multiset{y};
    forall h: Hit ensures multiset(u)[h] <= multiset(s)[h] {
      assert multiset(a)[h] <= multiset(s)[h] && multiset(t)[h] <= multiset(s)[h];
    }
  }

  lemma {:induction false} WithoutLast(s: seq<Hit>, t: seq<Hit>) returns (i: nat)
    requires s != [] && multiset(t) <= multiset(s) && !(multiset(t) <= multiset(s[..|s| - 1]))
    ensures i < |t| && t[i] == s[|s| - 1]
    ensures multiset(t[..i] + t[i + 1..]) <= multiset(s[..|s| - 1])
  {
    var x := s[|s| - 1];
    assert s == s[..|s| - 1] + [x];
    assert multiset(s) == multiset(s[..|s| - 1]) + multiset{x};
    i := RemoveOne(t, x);
  }

  /** No selection of rows of s that respects the cap is larger than the greedy one. */
  lemma {:induction false} AcceptMaximal(s: seq<Hit>, t: seq<Hit>, cap: nat)
    requires multiset(t) <= multiset(s) && RespectsCap(t, cap)
    ensures |t| <= |Accept(s, cap)|
    decreases |s|
  {
    if s == [] {
      assert |multiset(t)| == 0;
    } else {
      var s', x := s[..|s| - 1], s[|s| - 1];
      if multiset(t) <= multiset(s') {
        AcceptMaximal(s', t, cap);
      } else {
        var i := WithoutLast(s, t);
        var t' := t[..i] + t[i + 1..];
        RemoveRespects(t, i, cap);
        if DayCount(Accept(s', cap), x.day) < cap {
          AcceptMaximal(s', t', cap);
        } else {
          AcceptFrom(s', cap);
          var u := Exchange(Accept(s', cap), s', t', x.day, cap);
          AcceptMaximal(s', u, cap);
        }
      }
    }
  }

  /** The capped greedy pick is optimal row by row: no admissible selection has a smaller i-th distance. */
  lemma {:induction false} GreedyOptimal(memory: seq<Hit>, t: seq<Hit>, k: nat, cap: nat)
    requires multiset(t) <= multiset(memory) && RespectsCap(t, cap) && |t| <= k
    requires forall i, j :: 0 <= i < j < |t| ==> t[i].dist <= t[j].dist
    ensures |t| <= |Brute(memory, k, cap)|
    ensures forall i :: 0 <= i < |t| ==> Brute(memory, k, cap)[i].dist <= t[i].dist
  {
    var s := Ranked(memory);
    DistanceOrder();
    SortedOrdered(memory, ByDistance());
    AcceptMaximal(s, t, cap);
    forall i | 0 <= i < |t| ensures Brute(memory, k, cap)[i].dist <= t[i].dist {
      PrefixOptimal(s, t, i, cap);
    }
  }

  lemma {:induction false} PrefixCap(t: seq<Hit>, n: nat, cap: nat)
    requires n <= |t| && RespectsCap(t, cap)
    ensures RespectsCap(t[..n], cap)
  {
    forall day ensures DayCount(t[..n], day) <= cap {
      assert t == t[..n] + t[n..];
      DayCountAppend(t[..n], t[n..], day);
      assert DayCount(t, day) <= cap;
    }
  }

  /** The first rows of t fit inside the border its i-th distance draws. */
  lemma {:induction false} HeadInside(s: seq<Hit>, t: seq<Hit>, i: nat)
    requires multiset(t) <= multiset(s) && i < |t|
    requires forall i, j :: 0 <= i < j < |t| ==> t[i].dist <= t[j].dist
    ensures multiset(t[..i + 1]) <= multiset(Within(s, t[i].dist, true))
  {
    var head := t[..i + 1];
    assert t == head + t[i + 1..];
    assert multiset(head) <= multiset(t);
    forall h: Hit ensures multiset(head)[h] <= multiset(Within(s, t[i].dist, true))[h] {
      WithinCounts(s, t[i].dist, true, h);
      if h in head {
        var j :| 0 <= j < |head| && head[j] == h;
        assert j == i || t[j].dist <= t[i].dist;
      }
    }
  }

  lemma {:induction false} AcceptInside(s: seq<Hit>, border: real, i: nat, cap: nat)
    requires i < |Accept(Within(s, border, true), cap)|
    ensures Accept(Within(s, border, true), cap)[i].dist <= border
  {
    var p := Within(s, border, true);
    AcceptSound(p, cap);
    var x := Accept(p, cap)[i];
    assert x in multiset(Accept(p, cap));
    WithinCounts(s, border, true, x);
  }

  lemma {:induction false} PrefixOptimal(s: seq<Hit>, t: seq<Hit>, i: nat, cap: nat)
    requires multiset(t) <= multiset(s) && RespectsCap(t, cap) && i < |t| <= |Accept(s, cap)|
    requires forall i, j :: 0 <= i < j < |t| ==> t[i].dist <= t[j].dist
    requires Ordered(s, ByDistance())
    ensures Accept(s, cap)[i].dist <= t[i].dist
  {
    var rest := WithinSplits(s, t[i].dist, true);
    var p := Within(s, t[i].dist, true);
    PrefixCap(t, i + 1, cap);
    HeadInside(s, t, i);
    AcceptMaximal(p, t[..i + 1], cap);
    var late := AcceptAppend(p, rest, cap);
    AcceptInside(s, t[i].dist, i, cap);
  }

  function CountOf(counts: map<int, nat>, day: int): nat { if day in counts then counts[day] else 0 }

  /** The dictionary of the scan holds the kept rows per date. */
  ghost predicate Counts(counts: map<int, nat>, picked: seq<Hit>)
  {
    forall day :: CountOf(counts, day) == DayCount(picked, day)
  }

  lemma {:induction false} CountsStep(counts: map<int, nat>, picked: seq<Hit>, hit: Hit)
    requires Counts(counts, picked)
    ensures Counts(counts[hit.day := CountOf(counts, hit.day) + 1], picked + [hit])
  {
    forall day ensures CountOf(counts[hit.day := CountOf(counts, hit.day) + 1], day) == DayCount(picked + [hit], day) {
      DayCountSnoc(picked, hit, day);
      assert CountOf(counts, day) == DayCount(picked, day);
    }
  }

  lemma {:induction false} PickedEarly(order: seq<Hit>, position: nat, k: nat, cap: nat)
    requires position <= |order| && k <= |Accept(order[..position], cap)|
    ensures Pick(order, k, cap) == Accept(order[..position], cap)[..k]
  {
    assert order == order[..position] + order[position..];
    PickPrefix(order[..position], order[position..], k, cap);
  }

  /** What the loop returns: the stop is only tested after a row is kept, so a count of zero never stops it. */
  function Scanned(order: seq<Hit>, k: nat, cap: nat): seq<Hit>
  {
    if k == 0 then Accept(order, cap) else Pick(order, k, cap)
  }

  /** The loop of the source: scan a ranking, counting kept rows per date, and stop at k. */
  method Scan(order: seq<Hit>, k: nat, cap: nat) returns (picked: seq<Hit>)
    ensures picked == Scanned(order, k, cap)
  {
    picked := [];
    var counts: map<int, nat> := map[];
    for position := 0 to |order|
      invariant picked == Accept(order[..position], cap) && (k == 0 || |picked| < k)
      invariant Counts(counts, picked)
    {
      var hit := order[position];
      assert order[..position + 1][..position] == order[..position];
      assert CountOf(counts, hit.day) == DayCount(picked, hit.day);
      if CountOf(counts, hit.day) < cap {
        CountsStep(counts, picked, hit);
        picked := picked + [hit];
        counts := counts[hit.day := CountOf(counts, hit.day) + 1];
        if |picked| == k {
          PickedEarly(order, position + 1, k, cap);
          return;
        }
      }
    }
    assert order[..|order|] == order;
  }
}
