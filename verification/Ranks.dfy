/** Average ranks with ties, and the doubled centred rank the bounds are built on. */
module Ranks {
  import opened Prelude
  import opened Sums
  import opened Sorting
  import Multisets

  function Sgn(a: real, b: real): int { if a < b then -1 else if b < a then 1 else 0 }

  function SgnFrom(v: real): real -> int { w => Sgn(v, w) }

  function Below(v: real): real -> int { w => if w < v then 1 else 0 }

  function Tied(v: real): real -> int { w => if w == v then 1 else 0 }

  /** How many pool members are below v. */
  function Less(v: real, pool: seq<real>): int { SumOver(Below(v), pool) }

  /** How many pool members tie with v. */
  function Equal(v: real, pool: seq<real>): int { SumOver(Tied(v), pool) }

  /** The average rank of v by counting: no order is involved. */
  function Rank(v: real, pool: seq<real>): real
  {
    Less(v, pool) as real + (Equal(v, pool) + 1) as real / 2.0
  }

  /** Members below v minus members above v: twice the rank, centred at zero. */
  function Position(v: real, pool: seq<real>): int { SumOver(SgnFrom(v), pool) }

  lemma {:induction false} PositionCounts(v: real, pool: seq<real>)
    ensures Position(v, pool) == 2 * Less(v, pool) + Equal(v, pool) - |pool|
    ensures 0 <= Less(v, pool) && 0 <= Equal(v, pool) && Less(v, pool) + Equal(v, pool) <= |pool|
    ensures v in pool ==> 1 <= Equal(v, pool)
  {
    if pool != [] {
      PositionCounts(v, pool[..|pool| - 1]);
    }
  }

  /** Twice a rank less n + 1, the integer the source works with, is the centred position. */
  lemma {:induction false} CentredRank(v: real, pool: seq<real>)
    ensures 2.0 * Rank(v, pool) - (|pool| + 1) as real == Position(v, pool) as real
  {
    PositionCounts(v, pool);
  }

  // ---- the sort-and-scan computation

  function Indices(n: nat): (s: seq<nat>) { seq(n, (i: nat) => i) }

  function KeyOf(values: seq<real>, i: nat): real { if i < |values| then values[i] else 0.0 }

  function ByValue(values: seq<real>): (nat, nat) -> bool
  {
    (i: nat, j: nat) => KeyOf(values, i) <= KeyOf(values, j)
  }

  function Gather(values: seq<real>, order: seq<nat>): (w: seq<real>)
    ensures |w| == |order|
  {
    seq(|order|, (p: nat) requires p < |order| => KeyOf(values, order[p]))
  }

  function AtIndex(f: real -> int, values: seq<real>): nat -> int { (i: nat) => f(KeyOf(values, i)) }

  lemma {:induction false} SumGather(f: real -> int, values: seq<real>, order: seq<nat>)
    ensures SumOver(f, Gather(values, order)) == SumOver(AtIndex(f, values), order)
  {
    if order != [] {
      var n := |order| - 1;
      SumGather(f, values, order[..n]);
      assert Gather(values, order)[..n] == Gather(values, order[..n]);
    }
  }

  /** Reading a pool in any index order leaves every count unchanged. */
  lemma {:induction false} SumReordered(f: real -> int, values: seq<real>, order: seq<nat>)
    requires multiset(order) == multiset(Indices(|values|))
    ensures SumOver(f, Gather(values, order)) == SumOver(f, values)
  {
    SumGather(f, values, order);
    SumGather(f, values, Indices(|values|));
    SumPermutation(AtIndex(f, values), order, Indices(|values|));
    assert Gather(values, Indices(|values|)) == values;
  }

  lemma {:induction false} OrderCovers(order: seq<nat>, n: nat)
    requires multiset(order) == multiset(Indices(n))
    ensures |order| == n
    ensures forall p :: 0 <= p < |order| ==> order[p] < n
    ensures forall i: nat :: i < n ==> i in order
    ensures forall p, q :: 0 <= p < q < |order| ==> order[p] != order[q]
  {
    assert |multiset(order)| == |multiset(Indices(n))|;
    forall p | 0 <= p < |order| ensures order[p] < n {
      assert order[p] in multiset(order);
      assert order[p] in Indices(n);
    }
    forall i: nat | i < n ensures i in order {
      assert Indices(n)[i] == i;
      assert i in multiset(Indices(n));
    }
    forall p, q | 0 <= p < q < |order| ensures order[p] != order[q] {
      OnceEach(n, order[p]);
      if order[p] == order[q] { Multisets.CountTwice(order, p, q); }
    }
  }

  lemma {:induction false} OnceEach(n: nat, i: nat)
    ensures multiset(Indices(n))[i] == if i < n then 1 else 0
  {
    if n > 0 {
      assert Indices(n) == Indices(n - 1) + [n - 1];
      OnceEach(n - 1, i);
    }
  }

  lemma {:induction false} ThreeParts(f: real -> int, a: seq<real>, b: seq<real>, c: seq<real>, x: int, y: int)
    requires forall i :: 0 <= i < |a| ==> f(a[i]) == x
    requires forall i :: 0 <= i < |b| ==> f(b[i]) == y
    requires forall i :: 0 <= i < |c| ==> f(c[i]) == 0
    ensures SumOver(f, a + (b + c)) == x * |a| + y * |b|
  {
    SumAppend(f, a, b + c);
    SumAppend(f, b, c);
    SumConstant(f, x, a);
    SumConstant(f, y, b);
    SumConstant(f, 0, c);
  }

  /** In ascending order, a maximal run [s, e) of ties has s members below and e - s tied. */
  lemma {:induction false} RunCounts(w: seq<real>, s: nat, e: nat)
    requires s < e <= |w|
    requires forall p :: 0 <= p < s ==> w[p] < w[s]
    requires forall p :: s <= p < e ==> w[p] == w[s]
    requires forall p :: e <= p < |w| ==> w[s] < w[p]
    ensures Less(w[s], w) == s && Equal(w[s], w) == e - s
  {
    assert w == w[..s] + (w[s..e] + w[e..]);
    ThreeParts(Below(w[s]), w[..s], w[s..e], w[e..], 1, 0);
    ThreeParts(Tied(w[s]), w[..s], w[s..e], w[e..], 0, 1);
  }

  /** What the loop uses of the sort: an ascending arrangement of the indices. */
  ghost predicate Arranged(values: seq<real>, order: seq<nat>)
  {
    && |order| == |values|
    && (forall p :: 0 <= p < |order| ==> order[p] < |values|)
    && (forall p, q :: 0 <= p < q < |order| ==> order[p] != order[q])
    && (forall p, q :: 0 <= p <= q < |order| ==> KeyOf(values, order[p]) <= KeyOf(values, order[q]))
  }

  method SortedIndices(values: seq<real>) returns (order: seq<nat>)
    ensures Arranged(values, order) && multiset(order) == multiset(Indices(|values|))
    ensures forall i: nat :: i < |values| ==> i in order
  {
    order := Sorted(Indices(|values|), ByValue(values));
    SortedOrdered(Indices(|values|), ByValue(values));
    OrderCovers(order, |values|);
  }

  /** The counts of one tie run, read through any ascending order. */
  lemma {:induction false} RunRank(values: seq<real>, order: seq<nat>, s: nat, e: nat)
    requires Arranged(values, order) && multiset(order) == multiset(Indices(|values|))
    requires s < e <= |values|
    requires 0 < s ==> KeyOf(values, order[s - 1]) < KeyOf(values, order[s])
    requires forall p :: s <= p < e ==> KeyOf(values, order[p]) == KeyOf(values, order[s])
    requires e < |values| ==> KeyOf(values, order[s]) < KeyOf(values, order[e])
    ensures (s + 1 + e) as real / 2.0 == Rank(KeyOf(values, order[s]), values)
  {
    var w := Gather(values, order);
    RunCounts(w, s, e);
    SumReordered(Below(w[s]), values, order);
    SumReordered(Tied(w[s]), values, order);
  }

  /** Storing one rank at every index of a tie run. */
  method AssignRun(ranks: seq<real>, order: seq<nat>, start: nat, end: nat, rank: real) returns (r: seq<real>)
    requires start <= end <= |order|
    requires forall p :: 0 <= p < |order| ==> order[p] < |ranks|
    ensures |r| == |ranks|
    ensures forall p :: start <= p < end ==> r[order[p]] == rank
    ensures forall i: nat :: i < |ranks| && i !in order[start..end] ==> r[i] == ranks[i]
  {
    r := ranks;
    for p := start to end
      invariant |r| == |ranks|
      invariant forall q :: start <= q < p ==> r[order[q]] == rank
      invariant forall i: nat :: i < |ranks| && i !in order[start..end] ==> r[i] == ranks[i]
    {
      assert order[p] in order[start..end];
      r := r[order[p] := rank];
    }
  }

  method AverageRanks(values: seq<real>) returns (r: Result<seq<real>>)
    ensures r.Ok? <==> values != []
    ensures r.Ok? ==> |r.value| == |values|
    ensures r.Ok? ==> forall i :: 0 <= i < |values| ==> r.value[i] == Rank(values[i], values)
  {
    if values == [] {
      return Err("RANK_INPUT_INVALID");
    }
    var n := |values|;
    var ordered := SortedIndices(values);
    var ranks := seq(n, _ => 0.0);
    var start := 0;
    while start < n
      invariant 0 <= start <= n == |ranks|
      invariant 0 < start < n ==> KeyOf(values, ordered[start - 1]) < KeyOf(values, ordered[start])
      invariant forall p :: 0 <= p < start ==> ranks[ordered[p]] == Rank(KeyOf(values, ordered[p]), values)
    {
      var end := start + 1;
      while end < n && values[ordered[end]] == values[ordered[start]]
        invariant start < end <= n
        invariant forall p :: start <= p < end ==> KeyOf(values, ordered[p]) == KeyOf(values, ordered[start])
      {
        end := end + 1;
      }
      RunRank(values, ordered, start, end);
      ranks := AssignRun(ranks, ordered, start, end, (start + 1 + end) as real / 2.0);
      start := end;
    }
    forall i | 0 <= i < n ensures ranks[i] == Rank(values[i], values) {
      assert i in ordered;
    }
    r := Ok(ranks);
  }
}
