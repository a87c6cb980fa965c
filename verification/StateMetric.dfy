/** The learned numerical/cosine distance, and the embedding that lets an index search it. */
module StateMetric {
  import opened Prelude
  import opened Vectors

  const FEATURES: nat := 14
  const LEVEL: nat := 5

  /** One normalized row: missing entries carry a zero and a flag. */
  datatype Row = Row(z: seq<real>, missing: seq<bool>)
  {
    ghost predicate Valid() { |z| == |missing| == FEATURES }
  }

  datatype Metric = Metric(weights: seq<real>, eta: real)
  {
    ghost predicate Valid()
    {
      && |weights| == FEATURES
      && (forall i :: 0 <= i < FEATURES ==> 0.0 <= weights[i])
      && 0.0 <= eta <= 1.0
    }
  }

  // ---- the distance of a pair

  /** sum of w * a * b */
  function WeightedDot(w: seq<real>, a: seq<real>, b: seq<real>): real
    requires |w| == |a| == |b|
  {
    if w == [] then 0.0
    else
      var n := |w| - 1;
      WeightedDot(w[..n], a[..n], b[..n]) + Times(w[n], Times(a[n], b[n]))
  }

  /** The weighted squared differences, summed. */
  function WeightedDistance(w: seq<real>, a: seq<real>, b: seq<real>): real
    requires |w| == |a| == |b|
  {
    if w == [] then 0.0
    else
      var n := |w| - 1;
      WeightedDistance(w[..n], a[..n], b[..n]) + Times(w[n], Times(a[n] - b[n], a[n] - b[n]))
  }

  predicate Observed(missing: seq<bool>)
    requires |missing| >= LEVEL
  {
    forall i :: 0 <= i < LEVEL ==> !missing[i]
  }

  function MissingEither(a: seq<bool>, b: seq<bool>): nat
    requires |a| == |b|
  {
    if a == [] then 0
    else MissingEither(a[..|a| - 1], b[..|b| - 1]) + (if a[|a| - 1] || b[|b| - 1] then 1 else 0)
  }

  /** A quarter of the share of columns either row misses. */
  function PatternPenalty(a: seq<bool>, b: seq<bool>): real
    requires |a| == |b| && a != []
  {
    0.25 * (MissingEither(a, b) as real / |a| as real)
  }

  function Mass(m: Metric): real
    requires m.Valid()
  {
    Sum(m.weights[..LEVEL])
  }

  /** eta * mass: the weight of the trend direction. */
  function TrendMass(m: Metric): (t: real)
    requires m.Valid()
  {
    Times(m.eta, Mass(m))
  }

  /** The weighted cosine of the trend features, neutral (zero) when either trend is unusable. */
  function Cosine(q: Row, c: Row, m: Metric, root: real -> real): real
    requires q.Valid() && c.Valid() && m.Valid() && IsRoot(root)
  {
    var w, a, b := m.weights[..LEVEL], q.z[..LEVEL], c.z[..LEVEL];
    var q2, c2 := WeightedDot(w, a, a), WeightedDot(w, b, b);
    var norm := root(RMax(Times(q2, c2), TINY * TINY));
    if Observed(q.missing) && Observed(c.missing) && TINY < q2 && TINY < c2 && norm != 0.0
    then Clamp(Ratio(WeightedDot(w, a, b), norm), -1.0, 1.0)
    else 0.0
  }

  /** Division by name, so that a proof can keep it folded. */
  function Ratio(d: real, norm: real): real
    requires norm != 0.0
  {
    d / norm
  }

  const EPS := 0.000000000001            // 1e-12
  const TINY := EPS * EPS                // 1e-24

  /** The distance before its floor: eta moves weight from the level columns to the trend's shape. */
  function Formula(q: Row, c: Row, m: Metric, root: real -> real): real
    requires q.Valid() && c.Valid() && m.Valid() && IsRoot(root)
  {
    var numerical := WeightedDistance(m.weights, q.z, c.z);
    var level := WeightedDistance(m.weights[..LEVEL], q.z[..LEVEL], c.z[..LEVEL]);
    var shape := 2.0 * (1.0 - Cosine(q, c, m, root));
    numerical + Times(m.eta, Times(Mass(m), shape) - level) + PatternPenalty(q.missing, c.missing)
  }

  /** The pair distance: the formula with a floor at zero. */
  function PairDistance(q: Row, c: Row, m: Metric, root: real -> real): real
    requires q.Valid() && c.Valid() && m.Valid() && IsRoot(root)
  {
    RMax(0.0, Formula(q, c, m, root))
  }

  // ---- the embedding

  /** Every column scaled by the root of its weight. */
  function Weighted(w: seq<real>, z: seq<real>, root: real -> real): (r: seq<real>)
    requires |w| == |z|
    ensures |r| == |z| && forall i :: 0 <= i < |z| ==> r[i] == Times(z[i], root(w[i]))
  {
    if z == [] then [] else Weighted(w[..|w| - 1], z[..|z| - 1], root) + [Times(z[|z| - 1], root(w[|w| - 1]))]
  }

  function Trend(row: Row, m: Metric, root: real -> real): (t: seq<real>)
    requires row.Valid() && m.Valid()
    ensures |t| == LEVEL
  {
    Weighted(m.weights[..LEVEL], row.z[..LEVEL], root)
  }

  /** Coordinates scaled so that squared Euclidean distance weighs them. */
  function Normal(row: Row, m: Metric, root: real -> real): (p: seq<real>)
    requires row.Valid() && m.Valid()
    ensures |p| == FEATURES
  {
    seq(FEATURES, (i: nat) requires i < FEATURES =>
      Times(row.z[i], if i < LEVEL then Times(root(m.weights[i]), root(1.0 - m.eta)) else root(m.weights[i])))
  }

  function Norm(row: Row, m: Metric, root: real -> real): real
    requires row.Valid() && m.Valid()
  {
    root(Dot(Trend(row, m, root), Trend(row, m, root)))
  }

  predicate Usable(row: Row, m: Metric, root: real -> real)
    requires row.Valid() && m.Valid()
  {
    m.eta == 0.0 || (Observed(row.missing) && EPS < Norm(row, m, root))
  }

  /** The trend direction as a unit vector, or zero when the trend is unusable. */
  function Unit(row: Row, m: Metric, root: real -> real): (u: seq<real>)
    requires row.Valid() && m.Valid()
    ensures |u| == LEVEL
  {
    if Observed(row.missing) && EPS < Norm(row, m, root)
    then Scaled(Trend(row, m, root), 1.0 / RMax(Norm(row, m, root), EPS))
    else seq(LEVEL, _ => 0.0)
  }

  function Embed(row: Row, m: Metric, root: real -> real): (p: seq<real>)
    requires row.Valid() && m.Valid() && IsRoot(root)
    ensures |p| == if m.eta == 0.0 then FEATURES else FEATURES + LEVEL
  {
    if m.eta == 0.0 then Normal(row, m, root)
    else Normal(row, m, root) + Scaled(Unit(row, m, root), root(TrendMass(m)))
  }

  /** What the index adds to the squared distance for a group with one missing pattern and trend flag. */
  function Offset(q: Row, pattern: seq<bool>, invalid: bool, m: Metric, root: real -> real): real
    requires q.Valid() && m.Valid() && |pattern| == FEATURES
  {
    PatternPenalty(q.missing, pattern)
    + Times(TrendMass(m), Flag(Usable(q, m, root)) + Flag(!invalid))
  }

  function IndexedDistance(q: Row, c: Row, m: Metric, root: real -> real): real
    requires q.Valid() && c.Valid() && m.Valid() && IsRoot(root)
  {
    SquaredDistance(Embed(q, m, root), Embed(c, m, root)) + Offset(q, c.missing, !Usable(c, m, root), m, root)
  }

  // ---- the two are equal

  lemma {:induction false} WeightedDots(w: seq<real>, a: seq<real>, b: seq<real>, root: real -> real)
    requires |w| == |a| == |b| && IsRoot(root) && forall i :: 0 <= i < |w| ==> 0.0 <= w[i]
    ensures WeightedDot(w, a, b) == Dot(Weighted(w, a, root), Weighted(w, b, root))
    ensures WeightedDistance(w, a, b) == SquaredDistance(Weighted(w, a, root), Weighted(w, b, root))
  {
    hide Times, IsRoot;
    if w != [] {
      var n := |w| - 1;
      WeightedDots(w[..n], a[..n], b[..n], root);
      RootSquare(root, w[n]);
      WeightedStep(a[n], b[n], root(w[n]), w[n]);
      WeightedLast(w, a, root);
      WeightedLast(w, b, root);
      hide Weighted;
    }
  }

  lemma {:induction false} WeightedLast(w: seq<real>, z: seq<real>, root: real -> real)
    requires |w| == |z| && w != []
    ensures var n, r := |w| - 1, Weighted(w, z, root);
            r[..n] == Weighted(w[..n], z[..n], root) && r[n] == Times(z[n], root(w[n]))
  {
    hide Times;
  }

  lemma {:induction false} WeightedStep(x: real, y: real, r: real, w: real)
    requires Times(r, r) == w
    ensures Times(Times(x, r), Times(y, r)) == Times(w, Times(x, y))
    ensures Times(Times(x, r) - Times(y, r), Times(x, r) - Times(y, r)) == Times(w, Times(x - y, x - y))
  {
    ProductShuffle(x, r, y, r);
    ScaledGap(x, y, r, 0.0);
  }

  lemma {:induction false} SumNonnegative(a: seq<real>)
    requires forall i :: 0 <= i < |a| ==> 0.0 <= a[i]
    ensures 0.0 <= Sum(a)
  {
    if a != [] {
      SumNonnegative(a[..|a| - 1]);
    }
  }

  lemma {:induction false} WeightedDistanceAppend(w: seq<real>, a: seq<real>, b: seq<real>, n: nat)
    requires n <= |w| == |a| == |b|
    ensures WeightedDistance(w, a, b)
         == WeightedDistance(w[..n], a[..n], b[..n]) + WeightedDistance(w[n..], a[n..], b[n..])
  {
    hide Times;
    if n == |w| {
      assert w[..n] == w && a[..n] == a && b[..n] == b;
    } else {
      var l := |w| - 1;
      WeightedDistanceAppend(w[..l], a[..l], b[..l], n);
      assert w[..l][..n] == w[..n] && a[..l][..n] == a[..n] && b[..l][..n] == b[..n];
      assert w[n..][..l - n] == w[..l][n..] && a[n..][..l - n] == a[..l][n..] && b[n..][..l - n] == b[..l][n..];
    }
  }

  /** The scaled coordinates carry the numerical distance, the level part damped by 1 - eta. */
  lemma {:induction false} NormalDistance(q: Row, c: Row, m: Metric, root: real -> real)
    requires q.Valid() && c.Valid() && m.Valid() && IsRoot(root)
    ensures SquaredDistance(Normal(q, m, root), Normal(c, m, root))
         == WeightedDistance(m.weights, q.z, c.z)
          - Times(m.eta, WeightedDistance(m.weights[..LEVEL], q.z[..LEVEL], c.z[..LEVEL]))
  {
    var w, s := m.weights, root(1.0 - m.eta);
    RootSquare(root, 1.0 - m.eta);
    NormalParts(q, m, root);
    NormalParts(c, m, root);
    var a, b := Trend(q, m, root), Trend(c, m, root);
    var a', b' := Weighted(w[LEVEL..], q.z[LEVEL..], root), Weighted(w[LEVEL..], c.z[LEVEL..], root);
    WeightedDots(w[..LEVEL], q.z[..LEVEL], c.z[..LEVEL], root);
    WeightedDots(w[LEVEL..], q.z[LEVEL..], c.z[LEVEL..], root);
    WeightedDistanceAppend(w, q.z, c.z, LEVEL);
    hide Times, Dot, SquaredDistance, WeightedDot, WeightedDistance, Weighted, Scaled, IsRoot;
    DistanceAppend(Scaled(a, s), a', Scaled(b, s), b');
    DistanceScaled(a, b, s);
    Damped(s, m.eta, SquaredDistance(a, b));
  }

  lemma {:induction false} Damped(s: real, eta: real, d: real)
    requires Times(s, s) == 1.0 - eta
    ensures Times(Times(s, s), d) == d - Times(eta, d)
  {
  }

  lemma {:induction false} NormalParts(row: Row, m: Metric, root: real -> real)
    requires row.Valid() && m.Valid()
    ensures Normal(row, m, root) == Scaled(Trend(row, m, root), root(1.0 - m.eta))
                                  + Weighted(m.weights[LEVEL..], row.z[LEVEL..], root)
  {
    hide Times, Scaled, Weighted;
    var s := root(1.0 - m.eta);
    var p := Scaled(Trend(row, m, root), s) + Weighted(m.weights[LEVEL..], row.z[LEVEL..], root);
    forall i | 0 <= i < FEATURES ensures Normal(row, m, root)[i] == p[i] {
      if i < LEVEL { Associate(row.z[i], root(m.weights[i]), s); }
    }
  }

  lemma {:induction false} NormFacts(row: Row, m: Metric, root: real -> real)
    requires row.Valid() && m.Valid() && IsRoot(root)
    ensures var w, a := m.weights[..LEVEL], row.z[..LEVEL];
            && 0.0 <= WeightedDot(w, a, a) == Dot(Trend(row, m, root), Trend(row, m, root))
            && 0.0 <= Norm(row, m, root)
            && Norm(row, m, root) * Norm(row, m, root) == WeightedDot(w, a, a)
            && (EPS < Norm(row, m, root) <==> TINY < WeightedDot(w, a, a))
  {
    var w, a := m.weights[..LEVEL], row.z[..LEVEL];
    var t := Trend(row, m, root);
    WeightedDots(w, a, a, root);
    var zero := Scaled(t, 0.0);
    DistanceExpands(t, zero);
    DotScaled(t, t, 1.0, 0.0);
    DotScaled(t, t, 0.0, 0.0);
    assert Scaled(t, 1.0) == t;
    DistanceNonnegative(t, zero);
    SquareThreshold(Norm(row, m, root), EPS);
  }

  lemma {:induction false} SquareThreshold(x: real, e: real)
    requires 0.0 <= x && 0.0 < e
    ensures e < x <==> e * e < x * x
  {
    assert x * x - e * e == (x - e) * (x + e);
    if e < x {
      PositiveProduct(x - e, x + e);
    } else if x < e {
      PositiveProduct(e - x, x + e);
      assert (e - x) * (x + e) == e * e - x * x;
    }
  }

  lemma {:induction false} UnitLength(t: seq<real>, n: real)
    requires 0.0 < n && n * n == Dot(t, t)
    ensures Dot(Scaled(t, 1.0 / n), Scaled(t, 1.0 / n)) == 1.0
  {
    hide Dot, Scaled;
    DotScaled(t, t, 1.0 / n, 1.0 / n);
    InverseSquare(n);
  }

  lemma {:induction false} InverseSquare(n: real)
    requires 0.0 < n
    ensures Times(Times(1.0 / n, 1.0 / n), n * n) == 1.0
  {
    var i := 1.0 / n;
    assert i * n == 1.0;
    ProductShuffle(i, n, i, n);
  }

  /** Between two unit vectors: the dot product is a cosine, and distance is twice its complement. */
  lemma {:induction false} UnitPair(u: seq<real>, v: seq<real>)
    requires |u| == |v| && Dot(u, u) == 1.0 && Dot(v, v) == 1.0
    ensures -1.0 <= Dot(u, v) <= 1.0
    ensures SquaredDistance(u, v) == 2.0 * (1.0 - Dot(u, v))
  {
    hide Dot, SquaredDistance;
    DistanceExpands(u, v);
    DistanceNonnegative(u, v);
    var w := Scaled(v, -1.0);
    DistanceExpands(u, w);
    DistanceNonnegative(u, w);
    DotScaled(u, v, 1.0, -1.0);
    DotScaled(v, v, -1.0, -1.0);
    assert Scaled(u, 1.0) == u;
  }

  /** The clipped cosine is the dot product of the unit trends: the clip never acts. */
  lemma {:induction false} CosineIsDot(q: Row, c: Row, m: Metric, root: real -> real)
    requires q.Valid() && c.Valid() && m.Valid() && IsRoot(root)
    requires Observed(q.missing) && EPS < Norm(q, m, root) && Observed(c.missing) && EPS < Norm(c, m, root)
    ensures Dot(Unit(q, m, root), Unit(q, m, root)) == 1.0 == Dot(Unit(c, m, root), Unit(c, m, root))
    ensures Cosine(q, c, m, root) == Dot(Unit(q, m, root), Unit(c, m, root))
  {
    UnitUsable(q, m, root);
    UnitUsable(c, m, root);
    CosineClamped(q, c, m, root);
    hide *;
    var tq, tc, nq, nc := Trend(q, m, root), Trend(c, m, root), Norm(q, m, root), Norm(c, m, root);
    DotScaled(tq, tc, 1.0 / nq, 1.0 / nc);
    UnitPair(Unit(q, m, root), Unit(c, m, root));
    RatioIsTimes(Dot(tq, tc), nq, nc);
    ClampInside(Ratio(Dot(tq, tc), Times(nq, nc)));
  }

  lemma {:induction false} RatioIsTimes(d: real, x: real, y: real)
    requires 0.0 < x && 0.0 < y
    ensures 0.0 < Times(x, y) && Ratio(d, Times(x, y)) == Times(Times(1.0 / x, 1.0 / y), d)
  {
    PositiveProduct(x, y);
    QuotientOfProducts(d, x, y);
  }

  lemma {:induction false} ClampInside(x: real)
    ensures -1.0 <= x <= 1.0 ==> Clamp(x, -1.0, 1.0) == x
  {
  }

  /** A usable trend over its norm is a unit vector. */
  lemma {:induction false} UnitUsable(row: Row, m: Metric, root: real -> real)
    requires row.Valid() && m.Valid() && IsRoot(root) && Observed(row.missing) && EPS < Norm(row, m, root)
    ensures 0.0 < Norm(row, m, root) && Unit(row, m, root) == Scaled(Trend(row, m, root), 1.0 / Norm(row, m, root))
    ensures Dot(Unit(row, m, root), Unit(row, m, root)) == 1.0
  {
    hide Dot, WeightedDot, Times, Scaled, Trend;
    NormFacts(row, m, root);
    UnitLength(Trend(row, m, root), Norm(row, m, root));
  }

  /** The cosine of usable trends, before the clip is seen not to act. */
  lemma {:induction false} CosineClamped(q: Row, c: Row, m: Metric, root: real -> real)
    requires q.Valid() && c.Valid() && m.Valid() && IsRoot(root)
    requires Observed(q.missing) && EPS < Norm(q, m, root) && Observed(c.missing) && EPS < Norm(c, m, root)
    ensures var nq, nc := Norm(q, m, root), Norm(c, m, root);
            && 0.0 < nq && 0.0 < nc && 0.0 < Times(nq, nc)
            && Cosine(q, c, m, root)
               == Clamp(Ratio(Dot(Trend(q, m, root), Trend(c, m, root)), Times(nq, nc)), -1.0, 1.0)
  {
    var w, a, b := m.weights[..LEVEL], q.z[..LEVEL], c.z[..LEVEL];
    NormIsRoot(q, m, root);
    NormIsRoot(c, m, root);
    TrendDot(q, c, m, root);
    RootProduct(root, WeightedDot(w, a, a), WeightedDot(w, b, b));
    hide Dot, WeightedDot, Trend, Norm, IsRoot, Times, Ratio, RMax, Clamp;
  }

  lemma {:induction false} RootProduct(root: real -> real, q2: real, c2: real)
    requires IsRoot(root) && TINY < q2 && TINY < c2
    ensures 0.0 < root(q2) && 0.0 < root(c2)
         && 0.0 < Times(root(q2), root(c2)) == root(RMax(Times(q2, c2), TINY * TINY))
  {
    NormProduct(root, q2, c2);
    RootSquare(root, q2);
    RootSquare(root, c2);
    hide IsRoot;
    ZeroRoot(root(q2), q2);
    ZeroRoot(root(c2), c2);
  }

  lemma {:induction false} ZeroRoot(r: real, x: real)
    requires 0.0 <= r && Times(r, r) == x && 0.0 < x
    ensures 0.0 < r
  {
  }

  lemma {:induction false} NormIsRoot(row: Row, m: Metric, root: real -> real)
    requires row.Valid() && m.Valid() && IsRoot(root) && EPS < Norm(row, m, root)
    ensures var w, a := m.weights[..LEVEL], row.z[..LEVEL];
            TINY < WeightedDot(w, a, a) && Norm(row, m, root) == root(WeightedDot(w, a, a))
  {
    NormFacts(row, m, root);
    hide IsRoot, WeightedDot, Dot, Trend;
  }

  lemma {:induction false} TrendDot(q: Row, c: Row, m: Metric, root: real -> real)
    requires q.Valid() && c.Valid() && m.Valid() && IsRoot(root)
    ensures WeightedDot(m.weights[..LEVEL], q.z[..LEVEL], c.z[..LEVEL]) == Dot(Trend(q, m, root), Trend(c, m, root))
  {
    WeightedDots(m.weights[..LEVEL], q.z[..LEVEL], c.z[..LEVEL], root);
    hide IsRoot, WeightedDot, Dot, Weighted;
  }

  /** The floor under the product of squared norms is inactive for usable trends. */
  lemma {:induction false} NormProduct(root: real -> real, q2: real, c2: real)
    requires IsRoot(root) && TINY < q2 && TINY < c2
    ensures 0.0 < root(q2) * root(c2) == root(RMax(q2 * c2, TINY * TINY))
  {
    AboveTiny(q2, c2);
    RootOfProduct(root, q2, c2);
    RootSquare(root, q2);
    RootSquare(root, c2);
    hide IsRoot;
    PositiveProduct(root(q2), root(c2));
  }

  lemma {:induction false} AboveTiny(q2: real, c2: real)
    requires TINY < q2 && TINY < c2
    ensures RMax(q2 * c2, TINY * TINY) == q2 * c2
  {
    PositiveProduct(q2 - TINY, c2 - TINY);
    assert (q2 - TINY) * (c2 - TINY) == q2 * c2 - TINY * c2 - TINY * q2 + TINY * TINY;
    assert TINY * TINY <= TINY * c2 && TINY * TINY <= TINY * q2;
  }

  lemma {:induction false} QuotientOfProducts(d: real, x: real, y: real)
    requires 0.0 < x && 0.0 < y && 0.0 < x * y
    ensures Times(Times(1.0 / x, 1.0 / y), d) == d / (x * y)
  {
    var i, j := 1.0 / x, 1.0 / y;
    assert i * x == 1.0 && j * y == 1.0;
    ProductShuffle(i, x, j, y);
    assert (i * j) * (x * y) == 1.0;
    Quotient(i * j, x * y, d);
  }

  lemma {:induction false} Quotient(k: real, p: real, d: real)
    requires k * p == 1.0 && 0.0 < p
    ensures k * d == d / p
  {
    assert (k * d) * p == d * (k * p);
    assert (d / p) * p == d;
    assert (k * d - d / p) * p == 0.0;
  }

  lemma {:induction false} ZeroDot(u: seq<real>, z: seq<real>)
    requires |u| == |z| && forall i :: 0 <= i < |z| ==> z[i] == 0.0
    ensures Dot(u, z) == 0.0 && Dot(z, u) == 0.0 && Dot(z, z) == 0.0
  {
    assert z == Scaled(z, 0.0);
    assert u == Scaled(u, 1.0);
    DotScaled(u, z, 1.0, 0.0);
    DotScaled(z, u, 0.0, 1.0);
    DotScaled(z, z, 0.0, 0.0);
  }

  /** All four usable/unusable cases: unit distance plus the flags is twice the complement of the cosine. */
  lemma {:induction false} ShapeDistance(q: Row, c: Row, m: Metric, root: real -> real)
    requires q.Valid() && c.Valid() && m.Valid() && IsRoot(root) && m.eta != 0.0
    ensures SquaredDistance(Unit(q, m, root), Unit(c, m, root))
          + (Flag(Usable(q, m, root)) + Flag(Usable(c, m, root)))
         == 2.0 * (1.0 - Cosine(q, c, m, root))
  {
    hide Dot, SquaredDistance, WeightedDot;
    var u, v := Unit(q, m, root), Unit(c, m, root);
    NormFacts(q, m, root);
    NormFacts(c, m, root);
    DistanceExpands(u, v);
    if Usable(q, m, root) && Usable(c, m, root) {
      CosineIsDot(q, c, m, root);
      UnitPair(u, v);
    } else {
      if Usable(q, m, root) { UnitLength(Trend(q, m, root), Norm(q, m, root)); ZeroDot(u, v); }
      else if Usable(c, m, root) { UnitLength(Trend(c, m, root), Norm(c, m, root)); ZeroDot(v, u); }
      else { ZeroDot(u, v); ZeroDot(v, u); }
    }
  }

  function Flag(usable: bool): real { if usable then 0.0 else 1.0 }

  /** The embedding splits into the damped numerical part and the scaled trend directions. */
  lemma {:induction false} EmbeddedDistance(q: Row, c: Row, m: Metric, root: real -> real)
    requires q.Valid() && c.Valid() && m.Valid() && IsRoot(root) && m.eta != 0.0
    ensures SquaredDistance(Embed(q, m, root), Embed(c, m, root))
         == WeightedDistance(m.weights, q.z, c.z)
          - Times(m.eta, WeightedDistance(m.weights[..LEVEL], q.z[..LEVEL], c.z[..LEVEL]))
          + Times(TrendMass(m), SquaredDistance(Unit(q, m, root), Unit(c, m, root)))
  {
    TrendMassNonnegative(m);
    RootSquare(root, TrendMass(m));
    var s := root(TrendMass(m));
    hide IsRoot, Times, SquaredDistance, WeightedDistance, Normal, Unit, TrendMass, Scaled;
    JoinedDistance(Normal(q, m, root), Normal(c, m, root), Unit(q, m, root), Unit(c, m, root), s);
    NormalDistance(q, c, m, root);
  }

  lemma {:induction false} TrendMassNonnegative(m: Metric)
    requires m.Valid()
    ensures 0.0 <= TrendMass(m)
  {
    SumNonnegative(m.weights[..LEVEL]);
    TimesNonnegative(m.eta, Mass(m));
  }

  lemma {:induction false} TimesNonnegative(x: real, y: real)
    requires 0.0 <= x && 0.0 <= y
    ensures 0.0 <= Times(x, y)
  {
  }

  lemma {:induction false} JoinedDistance(a: seq<real>, b: seq<real>, u: seq<real>, v: seq<real>, s: real)
    requires |a| == |b| && |u| == |v|
    ensures SquaredDistance(a + Scaled(u, s), b + Scaled(v, s))
         == SquaredDistance(a, b) + Times(Times(s, s), SquaredDistance(u, v))
  {
    hide Times, SquaredDistance, Scaled;
    DistanceAppend(a, Scaled(u, s), b, Scaled(v, s));
    DistanceScaled(u, v, s);
  }

  lemma {:induction false} IndexedIsFormula(q: Row, c: Row, m: Metric, root: real -> real)
    requires q.Valid() && c.Valid() && m.Valid() && IsRoot(root)
    ensures IndexedDistance(q, c, m, root) == Formula(q, c, m, root)
  {
    var numerical := WeightedDistance(m.weights, q.z, c.z);
    var level := WeightedDistance(m.weights[..LEVEL], q.z[..LEVEL], c.z[..LEVEL]);
    var penalty := PatternPenalty(q.missing, c.missing);
    var flags := Flag(Usable(q, m, root)) + Flag(Usable(c, m, root));
    var shape := 2.0 * (1.0 - Cosine(q, c, m, root));
    hide IsRoot, Times, SquaredDistance, WeightedDistance, Normal, Unit, Mass, Usable, Cosine, Embed,
         PatternPenalty;
    if m.eta == 0.0 {
      PlainEmbedding(q, c, m, root);
      Vanish(m.eta, Mass(m), flags, Times(Mass(m), shape) - level);
    } else {
      EmbeddedDistance(q, c, m, root);
      ShapeDistance(q, c, m, root);
      Assemble(m.eta, Mass(m), level, SquaredDistance(Unit(q, m, root), Unit(c, m, root)), flags, shape);
    }
  }

  lemma {:induction false} PenaltyNonnegative(a: seq<bool>, b: seq<bool>)
    requires |a| == |b| && a != []
    ensures 0.0 <= PatternPenalty(a, b)
  {
    hide MissingEither;
  }

  lemma {:induction false} IndexedNonnegative(q: Row, c: Row, m: Metric, root: real -> real)
    requires q.Valid() && c.Valid() && m.Valid() && IsRoot(root)
    ensures 0.0 <= IndexedDistance(q, c, m, root)
  {
    TrendMassNonnegative(m);
    PenaltyNonnegative(q.missing, c.missing);
    hide IsRoot, Times, SquaredDistance, TrendMass, Usable, Embed, PatternPenalty;
    DistanceNonnegative(Embed(q, m, root), Embed(c, m, root));
    TimesNonnegative(TrendMass(m), Flag(Usable(q, m, root)) + Flag(Usable(c, m, root)));
  }

  /** The indexed distance is the pair distance, for every pair, every pattern and every eta. */
  lemma {:induction false} IndexedEqualsPair(q: Row, c: Row, m: Metric, root: real -> real)
    requires q.Valid() && c.Valid() && m.Valid() && IsRoot(root)
    ensures IndexedDistance(q, c, m, root) == PairDistance(q, c, m, root)
  {
    IndexedIsFormula(q, c, m, root);
    IndexedNonnegative(q, c, m, root);
  }

  lemma {:induction false} PlainEmbedding(q: Row, c: Row, m: Metric, root: real -> real)
    requires q.Valid() && c.Valid() && m.Valid() && IsRoot(root) && m.eta == 0.0
    ensures SquaredDistance(Embed(q, m, root), Embed(c, m, root)) == WeightedDistance(m.weights, q.z, c.z)
  {
    NormalDistance(q, c, m, root);
    ZeroProduct(m.eta, WeightedDistance(m.weights[..LEVEL], q.z[..LEVEL], c.z[..LEVEL]));
  }

  lemma {:induction false} ZeroProduct(x: real, y: real)
    requires x == 0.0
    ensures Times(x, y) == 0.0
  {
  }

  lemma {:induction false} Vanish(eta: real, mass: real, flags: real, bracket: real)
    requires eta == 0.0
    ensures Times(Times(eta, mass), flags) == 0.0 && Times(eta, bracket) == 0.0
  {
  }

  /** The trend terms of the indexed distance add up to those of the formula. */
  lemma {:induction false} Assemble(eta: real, mass: real, level: real, d: real, flags: real, shape: real)
    requires d + flags == shape
    ensures Times(Times(eta, mass), d) + Times(Times(eta, mass), flags) - Times(eta, level)
         == Times(eta, Times(mass, shape) - level)
  {
    assert eta * mass * (d + flags) == eta * mass * d + eta * mass * flags;
    Associate(eta, mass, shape);
  }
}
