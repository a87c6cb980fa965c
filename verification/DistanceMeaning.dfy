/** What the pair distance is, column by column, without the functions that compute it. */
module DistanceMeaning {
  import opened Prelude
  import opened Vectors
  import opened StateMetric

  /** The first n values of f, summed. */
  ghost function IndexSum(f: nat -> real, n: nat): real
  {
    if n == 0 then 0.0 else IndexSum(f, n - 1) + f(n - 1)
  }

  /** Column i of a sequence. */
  ghost function Entry(a: seq<real>): nat -> real { (i: nat) => if i < |a| then a[i] else 0.0 }

  /** Weight times the product of two columns. */
  ghost function Products(w: seq<real>, a: seq<real>, b: seq<real>): nat -> real
  {
    (i: nat) => if i < |w| && i < |a| && i < |b| then Times(w[i], Times(a[i], b[i])) else 0.0
  }

  /** Weight times the squared difference of two columns. */
  ghost function Gaps(w: seq<real>, a: seq<real>, b: seq<real>): nat -> real
  {
    (i: nat) => if i < |w| && i < |a| && i < |b| then Times(w[i], Times(a[i] - b[i], a[i] - b[i])) else 0.0
  }

  /** The squared difference of two columns. */
  ghost function SquaredGaps(a: seq<real>, b: seq<real>): nat -> real
  {
    (i: nat) => if i < |a| && i < |b| then Times(a[i] - b[i], a[i] - b[i]) else 0.0
  }

  /** The columns that at least one of two rows misses. */
  ghost function MissingColumns(a: seq<bool>, b: seq<bool>): set<nat>
    requires |a| == |b|
  {
    set i: nat | i < |a| && (a[i] || b[i])
  }

  /**
   * The cosine of the first five columns: the weighted product over both norms where both rows have all five and a
   * squared norm above 1e-24, and zero otherwise.
   */
  ghost predicate IsCosine(r: real, q: Row, c: Row, m: Metric, root: real -> real)
    requires |q.missing| == |c.missing| == 14
  {
    var q2, c2 := IndexSum(Products(m.weights, q.z, q.z), 5), IndexSum(Products(m.weights, c.z, c.z), 5);
    var least := 0.000000000001 * 0.000000000001;
    if (forall i :: 0 <= i < 5 ==> !q.missing[i] && !c.missing[i]) && least < q2 && least < c2 then
      && 0.0 < root(q2) && 0.0 < root(c2)
      && Times(r, Times(root(q2), root(c2))) == IndexSum(Products(m.weights, q.z, c.z), 5)
    else r == 0.0
  }

  /**
   * The weighted squared differences of fourteen columns; of the first five eta's share is replaced by their weight
   * times twice the complement of the cosine; and a quarter of the share of columns missed by either row is added.
   */
  ghost predicate IsPairDistance(d: real, q: Row, c: Row, m: Metric, root: real -> real)
    requires |q.missing| == |c.missing| == 14
  {
    exists cosine: real ::
      && IsCosine(cosine, q, c, m, root)
      && d == IndexSum(Gaps(m.weights, q.z, c.z), 14)
              + Times(m.eta, Times(IndexSum(Entry(m.weights), 5), 2.0 * (1.0 - cosine))
                             - IndexSum(Gaps(m.weights, q.z, c.z), 5))
              + 0.25 * (|MissingColumns(q.missing, c.missing)| as real / 14.0)
  }

  // ---- the functions compute it

  lemma {:induction false} SumIs(a: seq<real>, n: nat)
    requires n <= |a|
    ensures Sum(a[..n]) == IndexSum(Entry(a), n)
  {
    if n > 0 {
      SumIs(a, n - 1);
      assert a[..n][..n - 1] == a[..n - 1];
    }
  }

  lemma {:induction false} DotIs(w: seq<real>, a: seq<real>, b: seq<real>, n: nat)
    requires n <= |w| == |a| == |b|
    ensures WeightedDot(w[..n], a[..n], b[..n]) == IndexSum(Products(w, a, b), n)
  {
    if n > 0 {
      hide Times;
      DotIs(w, a, b, n - 1);
      assert Products(w, a, b)(n - 1) == Times(w[n - 1], Times(a[n - 1], b[n - 1]));
      assert w[..n][..n - 1] == w[..n - 1] && a[..n][..n - 1] == a[..n - 1] && b[..n][..n - 1] == b[..n - 1];
    }
  }

  lemma {:induction false} DistanceIs(w: seq<real>, a: seq<real>, b: seq<real>, n: nat)
    requires n <= |w| == |a| == |b|
    ensures WeightedDistance(w[..n], a[..n], b[..n]) == IndexSum(Gaps(w, a, b), n)
  {
    if n > 0 {
      hide Times;
      DistanceIs(w, a, b, n - 1);
      assert Gaps(w, a, b)(n - 1) == Times(w[n - 1], Times(a[n - 1] - b[n - 1], a[n - 1] - b[n - 1]));
      assert w[..n][..n - 1] == w[..n - 1] && a[..n][..n - 1] == a[..n - 1] && b[..n][..n - 1] == b[..n - 1];
    }
  }

  lemma {:induction false} SquaredDistanceIs(a: seq<real>, b: seq<real>, n: nat)
    requires n <= |a| == |b|
    ensures SquaredDistance(a[..n], b[..n]) == IndexSum(SquaredGaps(a, b), n)
  {
    if n > 0 {
      hide Times;
      SquaredDistanceIs(a, b, n - 1);
      assert SquaredGaps(a, b)(n - 1) == Times(a[n - 1] - b[n - 1], a[n - 1] - b[n - 1]);
      assert a[..n][..n - 1] == a[..n - 1] && b[..n][..n - 1] == b[..n - 1];
    }
  }

  lemma {:induction false} MissingCounted(a: seq<bool>, b: seq<bool>)
    requires |a| == |b|
    ensures MissingEither(a, b) == |MissingColumns(a, b)|
  {
    if a == [] {
      assert MissingColumns(a, b) == {};
    } else {
      var n := |a| - 1;
      MissingCounted(a[..n], b[..n]);
      var before := MissingColumns(a[..n], b[..n]);
      assert MissingColumns(a, b) == if a[n] || b[n] then before + {n} else before;
    }
  }

  /** The penalty is a quarter of the share of columns that either row misses. */
  lemma {:induction false} PenaltyIs(a: seq<bool>, b: seq<bool>)
    requires |a| == |b| && a != []
    ensures PatternPenalty(a, b) == 0.25 * (|MissingColumns(a, b)| as real / |a| as real)
  {
    MissingCounted(a, b);
  }

  /** The cosine of usable trends is a plain quotient: the clip never acts. */
  lemma {:induction false} CosineQuotient(q: Row, c: Row, m: Metric, root: real -> real)
    requires q.Valid() && c.Valid() && m.Valid() && IsRoot(root)
    requires Observed(q.missing) && EPS < Norm(q, m, root) && Observed(c.missing) && EPS < Norm(c, m, root)
    ensures 0.0 < Norm(q, m, root) && 0.0 < Norm(c, m, root)
    ensures Times(Cosine(q, c, m, root), Times(Norm(q, m, root), Norm(c, m, root)))
         == WeightedDot(m.weights[..LEVEL], q.z[..LEVEL], c.z[..LEVEL])
  {
    UnitUsable(q, m, root);
    UnitUsable(c, m, root);
    CosineIsDot(q, c, m, root);
    TrendDot(q, c, m, root);
    hide *;
    var tq, tc, nq, nc := Trend(q, m, root), Trend(c, m, root), Norm(q, m, root), Norm(c, m, root);
    DotScaled(tq, tc, 1.0 / nq, 1.0 / nc);
    QuotientBack(Cosine(q, c, m, root), Dot(tq, tc), nq, nc);
  }

  lemma {:induction false} QuotientBack(r: real, d: real, x: real, y: real)
    requires 0.0 < x && 0.0 < y && r == Times(Times(1.0 / x, 1.0 / y), d)
    ensures Times(r, Times(x, y)) == d
  {
    RatioIsTimes(d, x, y);
    assert d / (x * y) * (x * y) == d;
  }

  lemma {:induction false} NormsAre(q: Row, m: Metric, root: real -> real)
    requires q.Valid() && m.Valid() && IsRoot(root)
    ensures var q2 := IndexSum(Products(m.weights, q.z, q.z), 5);
            && (EPS < Norm(q, m, root) <==> TINY < q2)
            && (EPS < Norm(q, m, root) ==> Norm(q, m, root) == root(q2))
            && WeightedDot(m.weights[..LEVEL], q.z[..LEVEL], q.z[..LEVEL]) == q2
  {
    DotIs(m.weights, q.z, q.z, 5);
    NormFacts(q, m, root);
    if EPS < Norm(q, m, root) { NormIsRoot(q, m, root); }
    hide WeightedDot, IndexSum, Products, IsRoot, Norm, Dot, Trend;
  }

  lemma {:induction false} CosineIs(q: Row, c: Row, m: Metric, root: real -> real)
    requires q.Valid() && c.Valid() && m.Valid() && IsRoot(root)
    ensures IsCosine(Cosine(q, c, m, root), q, c, m, root)
  {
    NormsAre(q, m, root);
    NormsAre(c, m, root);
    DotIs(m.weights, q.z, c.z, 5);
    hide Cosine, WeightedDot, IndexSum, Products, IsRoot, Norm, Times, Observed, IsCosine;
    if Observed(q.missing) && Observed(c.missing) && EPS < Norm(q, m, root) && EPS < Norm(c, m, root) {
      CosineQuotient(q, c, m, root);
    } else {
      CosineZero(q, c, m, root);
    }
    CosineFrom(Cosine(q, c, m, root), q, c, m, root);
  }

  lemma {:induction false} CosineFrom(r: real, q: Row, c: Row, m: Metric, root: real -> real)
    requires |q.missing| == |c.missing| == 14
    requires var q2, c2 := IndexSum(Products(m.weights, q.z, q.z), 5), IndexSum(Products(m.weights, c.z, c.z), 5);
             if Observed(q.missing) && Observed(c.missing) && TINY < q2 && TINY < c2 then
               && 0.0 < root(q2) && 0.0 < root(c2)
               && Times(r, Times(root(q2), root(c2))) == IndexSum(Products(m.weights, q.z, c.z), 5)
             else r == 0.0
    ensures IsCosine(r, q, c, m, root)
  {
    hide IndexSum, Products, Times;
  }

  lemma {:induction false} CosineZero(q: Row, c: Row, m: Metric, root: real -> real)
    requires q.Valid() && c.Valid() && m.Valid() && IsRoot(root)
    requires !(Observed(q.missing) && Observed(c.missing)
               && TINY < WeightedDot(m.weights[..LEVEL], q.z[..LEVEL], q.z[..LEVEL])
               && TINY < WeightedDot(m.weights[..LEVEL], c.z[..LEVEL], c.z[..LEVEL]))
    ensures Cosine(q, c, m, root) == 0.0
  {
    hide WeightedDot, IsRoot, Times, Clamp, RMax, Ratio, Observed;
  }

  /** The pair distance is the distance its columns make. */
  lemma {:induction false} PairDistanceIs(q: Row, c: Row, m: Metric, root: real -> real)
    requires q.Valid() && c.Valid() && m.Valid() && IsRoot(root)
    ensures IsPairDistance(PairDistance(q, c, m, root), q, c, m, root)
  {
    IndexedEqualsPair(q, c, m, root);
    IndexedIsFormula(q, c, m, root);
    FormulaIs(q, c, m, root);
  }

  lemma {:induction false} FormulaIs(q: Row, c: Row, m: Metric, root: real -> real)
    requires q.Valid() && c.Valid() && m.Valid() && IsRoot(root)
    ensures IsPairDistance(Formula(q, c, m, root), q, c, m, root)
  {
    hide IsCosine, Cosine, IndexSum, Gaps, Entry, MissingColumns, IsRoot, Formula, Times;
    CosineIs(q, c, m, root);
    FormulaSums(q, c, m, root);
  }

  lemma {:induction false} FormulaSums(q: Row, c: Row, m: Metric, root: real -> real)
    requires q.Valid() && c.Valid() && m.Valid() && IsRoot(root)
    ensures Formula(q, c, m, root)
         == IndexSum(Gaps(m.weights, q.z, c.z), 14)
            + Times(m.eta, Times(IndexSum(Entry(m.weights), 5), 2.0 * (1.0 - Cosine(q, c, m, root)))
                           - IndexSum(Gaps(m.weights, q.z, c.z), 5))
            + 0.25 * (|MissingColumns(q.missing, c.missing)| as real / 14.0)
  {
    hide Cosine, PatternPenalty, WeightedDistance, IndexSum, Gaps, Entry, MissingColumns, IsRoot, Sum, Times;
    DistanceIs(m.weights, q.z, c.z, 14);
    DistanceIs(m.weights, q.z, c.z, 5);
    SumIs(m.weights, 5);
    PenaltyIs(q.missing, c.missing);
    assert m.weights[..14] == m.weights && q.z[..14] == q.z && c.z[..14] == c.z;
  }
}
