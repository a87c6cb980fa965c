/** The extreme of a linear form over integer boxes with zero total. */
module LinearExtreme {
  import opened Prelude
  import opened Sorting
  import Ranks

  function Total(c: seq<int>): int
  {
    if c == [] then 0 else Total(c[..|c| - 1]) + c[|c| - 1]
  }

  function Dot(a: seq<int>, b: seq<int>): int
    requires |a| == |b|
  {
    if a == [] then 0 else Dot(a[..|a| - 1], b[..|b| - 1]) + a[|a| - 1] * b[|b| - 1]
  }

  ghost predicate Within(a: seq<int>, b: seq<int>)
  {
    |a| == |b| && forall i :: 0 <= i < |a| ==> a[i] <= b[i]
  }

  /** An integer point of the boxes whose coordinates cancel. */
  ghost predicate Feasible(c: seq<int>, lower: seq<int>, upper: seq<int>)
  {
    Within(lower, c) && Within(c, upper) && Total(c) == 0
  }

  /** v is the exact extreme of the form: reached by a feasible point and never beaten by one. */
  ghost predicate IsExtreme(v: int, coefficients: seq<int>, lower: seq<int>, upper: seq<int>, maximize: bool)
    requires |coefficients| == |lower|
  {
    && (exists c :: Feasible(c, lower, upper) && Dot(coefficients, c) == v)
    && (forall c :: Feasible(c, lower, upper) ==>
          if maximize then Dot(coefficients, c) <= v else v <= Dot(coefficients, c))
  }

  lemma {:induction false} TotalMonotone(a: seq<int>, b: seq<int>)
    requires Within(a, b)
    ensures Total(a) <= Total(b)
  {
    if a != [] {
      TotalMonotone(a[..|a| - 1], b[..|b| - 1]);
    }
  }

  lemma {:induction false} TotalUpdate(c: seq<int>, i: nat, d: int)
    requires i < |c|
    ensures Total(c[i := c[i] + d]) == Total(c) + d
  {
    var n := |c| - 1;
    if i < n {
      TotalUpdate(c[..n], i, d);
      assert c[i := c[i] + d][..n] == c[..n][i := c[i] + d];
    } else {
      assert c[i := c[i] + d][..n] == c[..n];
    }
  }

  lemma {:induction false} DotUpdate(a: seq<int>, c: seq<int>, i: nat, d: int)
    requires i < |c| == |a|
    ensures Dot(a, c[i := c[i] + d]) == Dot(a, c) + a[i] * d
  {
    var n := |c| - 1;
    if i < n {
      DotUpdate(a[..n], c[..n], i, d);
      assert c[i := c[i] + d][..n] == c[..n][i := c[i] + d];
    } else {
      assert c[i := c[i] + d][..n] == c[..n];
      assert a[n] * (c[n] + d) == a[n] * c[n] + a[n] * d;
    }
  }

  /** A coordinate on the winning side of the threshold is full, one on the losing side is empty. */
  predicate PackedAt(c: int, a: int, lower: int, upper: int, t: int, maximize: bool)
  {
    && lower <= c <= upper
    && ((if maximize then t < a else a < t) ==> c == upper)
    && ((if maximize then a < t else t < a) ==> c == lower)
  }

  ghost predicate Packed(c: seq<int>, a: seq<int>, lower: seq<int>, upper: seq<int>, t: int, maximize: bool)
  {
    && |c| == |a| == |lower| == |upper|
    && forall i :: 0 <= i < |c| ==> PackedAt(c[i], a[i], lower[i], upper[i], t, maximize)
  }

  lemma {:induction false} Price(c: int, other: int, a: int, lower: int, upper: int, t: int, maximize: bool)
    requires PackedAt(c, a, lower, upper, t, maximize) && lower <= other <= upper
    ensures var gain := (a - t) * (other - c);
            if maximize then gain <= 0 else 0 <= gain
  {
    ProductSign(a - t, other - c);
  }

  lemma {:induction false} ProductSign(x: int, y: int)
    ensures (x <= 0 && y <= 0) || (0 <= x && 0 <= y) ==> 0 <= x * y
    ensures (x <= 0 && 0 <= y) || (0 <= x && y <= 0) ==> x * y <= 0
  {
  }

  /** The value of a point with every coefficient lowered by t. */
  function Priced(a: seq<int>, c: seq<int>, t: int): int
    requires |a| == |c|
  {
    if a == [] then 0 else Priced(a[..|a| - 1], c[..|c| - 1], t) + (a[|a| - 1] - t) * c[|c| - 1]
  }

  lemma {:induction false} PricedValue(a: seq<int>, c: seq<int>, t: int)
    requires |a| == |c|
    ensures Priced(a, c, t) == Dot(a, c) - t * Total(c)
  {
    if a != [] {
      var n := |a| - 1;
      PricedValue(a[..n], c[..n], t);
      Expand(a[n], t, c[n], Total(c[..n]));
    }
  }

  lemma {:induction false} Expand(a: int, t: int, x: int, s: int)
    ensures (a - t) * x == a * x - t * x && t * (s + x) == t * s + t * x
  {
  }

  /** The threshold is a dual certificate: priced at t, no point of the boxes beats a packed one. */
  lemma {:induction false} PackedPrices(c: seq<int>, other: seq<int>, a: seq<int>, lower: seq<int>, upper: seq<int>,
                                        t: int, maximize: bool)
    requires Packed(c, a, lower, upper, t, maximize)
    requires Within(lower, other) && Within(other, upper)
    ensures if maximize then Priced(a, other, t) <= Priced(a, c, t) else Priced(a, c, t) <= Priced(a, other, t)
  {
    if c != [] {
      var n := |c| - 1;
      PackedPrices(c[..n], other[..n], a[..n], lower[..n], upper[..n], t, maximize);
      Price(c[n], other[n], a[n], lower[n], upper[n], t, maximize);
      assert (a[n] - t) * (other[n] - c[n]) == (a[n] - t) * other[n] - (a[n] - t) * c[n];
    }
  }

  /** The coordinates by coefficient and index, descending for a maximum. */
  method SortedByCoefficient(coefficients: seq<int>, maximize: bool) returns (order: seq<nat>)
    ensures |order| == |coefficients|
    ensures forall p :: 0 <= p < |order| ==> order[p] < |coefficients|
    ensures forall p, q :: 0 <= p < q < |order| ==> order[p] != order[q]
    ensures forall i: nat :: i < |coefficients| ==> i in order
    ensures forall p, q :: 0 <= p <= q < |order| ==>
              if maximize then coefficients[order[q]] <= coefficients[order[p]]
              else coefficients[order[p]] <= coefficients[order[q]]
  {
    var key := (i: nat) => if i < |coefficients| then coefficients[i] else 0;
    var le := if maximize
              then (i: nat, j: nat) => key(j) < key(i) || (key(j) == key(i) && j <= i)
              else (i: nat, j: nat) => key(i) < key(j) || (key(i) == key(j) && i <= j);
    order := Sorted(Ranks.Indices(|coefficients|), le);
    SortedOrdered(Ranks.Indices(|coefficients|), le);
    Ranks.OrderCovers(order, |coefficients|);
    forall p, q | 0 <= p <= q < |order|
      ensures if maximize then coefficients[order[q]] <= coefficients[order[p]]
              else coefficients[order[p]] <= coefficients[order[q]]
    {
      assert p == q || le(order[p], order[q]);
    }
  }

  lemma {:induction false} PackedIsExtreme(c: seq<int>, a: seq<int>, lower: seq<int>, upper: seq<int>, t: int,
                                           maximize: bool)
    requires Packed(c, a, lower, upper, t, maximize) && Total(c) == 0
    ensures IsExtreme(Dot(a, c), a, lower, upper, maximize)
  {
    forall other | Feasible(other, lower, upper)
      ensures if maximize then Dot(a, other) <= Dot(a, c) else Dot(a, c) <= Dot(a, other)
    {
      PackedPrices(c, other, a, lower, upper, t, maximize);
      PricedValue(a, c, t);
      PricedValue(a, other, t);
    }
    assert Feasible(c, lower, upper);
  }

  /** Where the greedy pass stands before step p: everything earlier in the order is full, the rest empty. */
  ghost predicate Filled(c: seq<int>, order: seq<nat>, p: nat, lower: seq<int>, upper: seq<int>)
    requires p <= |order| == |lower| == |upper|
    requires forall q :: 0 <= q < |order| ==> order[q] < |lower|
  {
    && |c| == |lower|
    && (forall q :: 0 <= q < p ==> c[order[q]] == upper[order[q]])
    && (forall q :: p <= q < |order| ==> c[order[q]] == lower[order[q]])
  }

  /** The greedy extreme: pour the surplus into coordinates in coefficient order. */
  method Extreme(coefficients: seq<int>, lower: seq<int>, upper: seq<int>, maximize: bool) returns (r: Result<int>)
    requires |coefficients| == |lower| && Within(lower, upper)
    ensures r.Ok? <==> Total(lower) <= 0 <= Total(upper)
    ensures r.Ok? ==> IsExtreme(r.value, coefficients, lower, upper, maximize)
  {
    var remaining := -Total(lower);
    if !(0 <= remaining <= Total(upper) - Total(lower)) {
      return Err("RANK_BOX_SUM_INFEASIBLE");
    }
    var objective := Dot(coefficients, lower);
    var order := SortedByCoefficient(coefficients, maximize);
    ghost var c := lower;
    var p := 0;
    while p < |order|
      invariant 0 <= p <= |order|
      invariant Filled(c, order, p, lower, upper)
      invariant remaining == -Total(c) && 0 <= remaining
      invariant objective == Dot(coefficients, c)
    {
      var index := order[p];
      var addition := Min(remaining, upper[index] - lower[index]);
      TotalUpdate(c, index, addition);
      DotUpdate(coefficients, c, index, addition);
      c := c[index := c[index] + addition];
      objective := objective + coefficients[index] * addition;
      remaining := remaining - addition;
      if remaining == 0 {
        forall i | 0 <= i < |c|
          ensures PackedAt(c[i], coefficients[i], lower[i], upper[i], coefficients[index], maximize)
        {
          assert i in order;
          var q :| 0 <= q < |order| && order[q] == i;
          assert lower[i] <= upper[i];
        }
        PackedIsExtreme(c, coefficients, lower, upper, coefficients[index], maximize);
        break;
      }
      p := p + 1;
    }
    if p == |order| {
      forall i | 0 <= i < |c| ensures c[i] == upper[i] {
        assert i in order;
      }
      assert c == upper;
      assert remaining == 0;
      Saturated(coefficients, lower, upper, maximize);
    }
    if remaining != 0 {
      return Err("RANK_BOX_SUM_INFEASIBLE");
    }
    r := Ok(objective);
  }

  /** When the upper corner itself cancels it is the only feasible point. */
  lemma {:induction false} Saturated(a: seq<int>, lower: seq<int>, upper: seq<int>, maximize: bool)
    requires |a| == |lower| && Within(lower, upper) && Total(upper) == 0
    ensures IsExtreme(Dot(a, upper), a, lower, upper, maximize)
  {
    forall other | Feasible(other, lower, upper) ensures other == upper {
      OnlyTop(other, upper);
    }
    assert Feasible(upper, lower, upper);
  }

  lemma {:induction false} OnlyTop(c: seq<int>, upper: seq<int>)
    requires Within(c, upper) && Total(c) == Total(upper)
    ensures c == upper
  {
    if c != [] {
      var n := |c| - 1;
      TotalMonotone(c[..n], upper[..n]);
      OnlyTop(c[..n], upper[..n]);
      assert c == c[..n] + [c[n]] && upper == upper[..n] + [upper[n]];
    }
  }

  /** The boxes admit a cancelling point exactly when their corners bracket zero, so neither check can fire. */
  lemma {:induction false} FeasibleBrackets(c: seq<int>, lower: seq<int>, upper: seq<int>)
    requires Feasible(c, lower, upper)
    ensures Total(lower) <= 0 <= Total(upper)
  {
    TotalMonotone(lower, c);
    TotalMonotone(c, upper);
  }
}
