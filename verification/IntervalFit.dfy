/** Fitting one prediction to many intervals: weighted squared distance, bisection and bracketed Newton. */
module IntervalFit {
  import opened Prelude
  import opened Intervals
  import opened Vectors

  /** How far a prediction lies outside its interval, signed. */
  function Residual(q: real, b: Interval): real { q - Clamp(q, b.lo, b.hi) }

  predicate ValidInterval(b: Interval) { 0.0 <= b.lo <= b.hi <= 1.0 }

  /** Intervals with their weights. */
  datatype Item = Item(bounds: Interval, weight: real)

  predicate ValidItems(s: seq<Item>)
  {
    s != [] && forall i :: 0 <= i < |s| ==> ValidInterval(s[i].bounds) && 0.0 < s[i].weight
  }

  function Gradient(s: seq<Item>, q: real): real
  {
    if s == [] then 0.0 else Gradient(s[..|s| - 1], q) + Times(s[|s| - 1].weight, Residual(q, s[|s| - 1].bounds))
  }

  /** The squared distance of a prediction to one interval. */
  function SquaredLoss(q: real, b: Interval): real { Times(Residual(q, b), Residual(q, b)) }

  function Loss(s: seq<Item>, q: real): real
  {
    if s == [] then 0.0 else Loss(s[..|s| - 1], q) + Times(s[|s| - 1].weight, SquaredLoss(q, s[|s| - 1].bounds))
  }

  function Weight(s: seq<Item>): real { if s == [] then 0.0 else Weight(s[..|s| - 1]) + s[|s| - 1].weight }

  // ---- one interval

  /** The residual grows with the prediction, and no faster than it. */
  lemma {:induction false} ResidualMonotone(p: real, q: real, b: Interval)
    requires p <= q && b.lo <= b.hi
    ensures Residual(p, b) <= Residual(q, b) <= Residual(p, b) + (q - p)
  {
  }

  lemma {:induction false} SignProduct(x: real, y: real)
    requires (x <= 0.0 && y <= 0.0) || (0.0 <= x && 0.0 <= y)
    ensures 0.0 <= Times(x, y)
  {
  }

  lemma {:induction false} TangentAlgebra(x: real, r: real, t: real)
    ensures Times(x, x) == Times(r, r) + 2.0 * Times(r, t) + Times(x - r, x - r) + 2.0 * Times(r, x - r - t)
  {
  }

  /** The squared distance lies above each of its tangents. */
  lemma {:induction false} AboveTangent(p: real, q: real, b: Interval)
    requires b.lo <= b.hi
    ensures SquaredLoss(p, b) + 2.0 * Times(Residual(p, b), q - p) <= SquaredLoss(q, b)
  {
    hide Times;
    var r, x := Residual(p, b), Residual(q, b);
    TangentAlgebra(x, r, q - p);
    SignProduct(x - r, x - r);
    SignProduct(r, x - r - (q - p));
  }

  lemma {:induction false} SquareMonotone(x: real, y: real)
    requires RAbs(x) <= RAbs(y)
    ensures Times(x, x) <= Times(y, y)
  {
  }

  /** And below the tangent by no more than the squared step. */
  lemma {:induction false} NearTangent(p: real, q: real, b: Interval)
    requires b.lo <= b.hi
    ensures SquaredLoss(q, b) <= SquaredLoss(p, b) + 2.0 * Times(Residual(p, b), q - p) + Times(q - p, q - p)
  {
    hide Times;
    var r, x := Residual(p, b), Residual(q, b);
    SquareMonotone(x, r + (q - p));
    SquareOfSum(r, q - p);
  }

  // ---- weighted sums

  lemma {:induction false} TimesMonotone(w: real, x: real, y: real)
    requires 0.0 < w && x <= y
    ensures Times(w, x) <= Times(w, y)
  {
  }

  lemma {:induction false} Distribute(w: real, a: real, r: real, t: real, u: real)
    ensures Times(w, a + 2.0 * Times(r, t) + u) == Times(w, a) + 2.0 * Times(Times(w, r), t) + Times(w, u)
    ensures Times(w, a + r) == Times(w, a) + Times(w, r) && Times(w, 0.0) == 0.0 && Times(0.0, w) == 0.0
  {
  }

  lemma {:induction false} PrefixValid(s: seq<Item>)
    requires ValidItems(s) && |s| > 1
    ensures ValidItems(s[..|s| - 1])
  {
  }

  /** One weighted term added to a running total. */
  lemma {:induction false} AddTerms(g: real, h: real, t: real)
    ensures Times(g + h, t) == Times(g, t) + Times(h, t)
  {
  }

  /** The loss lies above its tangents everywhere. */
  lemma {:induction false} LossAboveTangent(s: seq<Item>, p: real, q: real)
    requires ValidItems(s)
    ensures Loss(s, p) + 2.0 * Times(Gradient(s, p), q - p) <= Loss(s, q)
  {
    hide Times, Residual, SquaredLoss;
    var n := |s| - 1;
    var w, b, t := s[n].weight, s[n].bounds, q - p;
    AboveTangent(p, q, b);
    TimesMonotone(w, SquaredLoss(p, b) + 2.0 * Times(Residual(p, b), t) + 0.0, SquaredLoss(q, b));
    Distribute(w, SquaredLoss(p, b), Residual(p, b), t, 0.0);
    AddTerms(Gradient(s[..n], p), Times(w, Residual(p, b)), t);
    if n > 0 {
      PrefixValid(s);
      LossAboveTangent(s[..n], p, q);
    } else {
      Distribute(t, 0.0, 0.0, 0.0, 0.0);
      assert s[..n] == [];
    }
  }

  /** And within the total weight times the squared step of them. */
  lemma {:induction false} LossNearTangent(s: seq<Item>, p: real, q: real)
    requires ValidItems(s)
    ensures Loss(s, q) <= Loss(s, p) + 2.0 * Times(Gradient(s, p), q - p) + Times(Weight(s), Times(q - p, q - p))
  {
    hide Times, Residual, SquaredLoss;
    var n := |s| - 1;
    var w, b, t := s[n].weight, s[n].bounds, q - p;
    var u := Times(t, t);
    NearTangent(p, q, b);
    TimesMonotone(w, SquaredLoss(q, b), SquaredLoss(p, b) + 2.0 * Times(Residual(p, b), t) + u);
    Distribute(w, SquaredLoss(p, b), Residual(p, b), t, u);
    AddTerms(Gradient(s[..n], p), Times(w, Residual(p, b)), t);
    AddTerms(Weight(s[..n]), w, u);
    if n > 0 {
      PrefixValid(s);
      LossNearTangent(s[..n], p, q);
    } else {
      Distribute(t, 0.0, 0.0, 0.0, 0.0);
      Distribute(u, 0.0, 0.0, 0.0, 0.0);
      assert s[..n] == [];
    }
  }

  lemma {:induction false} GradientMonotone(s: seq<Item>, p: real, q: real)
    requires ValidItems(s) && p <= q
    ensures Gradient(s, p) <= Gradient(s, q) <= Gradient(s, p) + Times(Weight(s), q - p)
  {
    hide Times, Residual;
    var n := |s| - 1;
    var w, b := s[n].weight, s[n].bounds;
    ResidualMonotone(p, q, b);
    TimesMonotone(w, Residual(p, b), Residual(q, b));
    TimesMonotone(w, Residual(q, b), Residual(p, b) + (q - p));
    Distribute(w, Residual(p, b), q - p, 0.0, 0.0);
    AddTerms(Weight(s[..n]), w, q - p);
    if n > 0 {
      PrefixValid(s);
      GradientMonotone(s[..n], p, q);
    } else {
      Distribute(q - p, 0.0, 0.0, 0.0, 0.0);
      assert s[..n] == [];
    }
  }

  lemma {:induction false} WeightPositive(s: seq<Item>)
    requires ValidItems(s)
    ensures 0.0 < Weight(s)
  {
    if |s| > 1 {
      PrefixValid(s);
      WeightPositive(s[..|s| - 1]);
    } else {
      assert s[..0] == [];
    }
  }

  // ---- minimisers

  ghost predicate Minimises(s: seq<Item>, p: real) { forall q: real :: Loss(s, p) <= Loss(s, q) }

  lemma {:induction false} DescentStep(g: real, w: real)
    requires 0.0 < w && g != 0.0
    ensures 2.0 * Times(g, 0.0 - g / w) + Times(w, Times(0.0 - g / w, 0.0 - g / w)) < 0.0
  {
    var x := g / w;
    assert g == x * w;
    assert 2.0 * (g * (0.0 - x)) + w * ((0.0 - x) * (0.0 - x)) == 0.0 - w * (x * x);
    assert x != 0.0;
    assert 0.0 < x * x;
    PositiveProduct(w, x * x);
  }

  /** The gradient decides: a point minimises the loss exactly when its gradient vanishes. */
  lemma {:induction false} MinimisesIff(s: seq<Item>, p: real)
    requires ValidItems(s)
    ensures Minimises(s, p) <==> Gradient(s, p) == 0.0
  {
    hide Times, Loss, Gradient;
    if Gradient(s, p) == 0.0 {
      forall q: real ensures Loss(s, p) <= Loss(s, q) {
        LossAboveTangent(s, p, q);
        Distribute(q - p, 0.0, 0.0, 0.0, 0.0);
      }
    } else {
      WeightPositive(s);
      var q := p - Gradient(s, p) / Weight(s);
      LossNearTangent(s, p, q);
      DescentStep(Gradient(s, p), Weight(s));
      assert q - p == 0.0 - Gradient(s, p) / Weight(s);
      assert Loss(s, q) < Loss(s, p);
    }
  }

  /** Negative gradient before it, nonnegative at it: every minimiser is to the right of the first point. */
  lemma {:induction false} MinimisersBetween(s: seq<Item>, low: real, high: real, q: real)
    requires ValidItems(s) && low <= high && Gradient(s, low) < 0.0 <= Gradient(s, high) && Minimises(s, q)
    ensures low < q
    ensures 0.0 < Gradient(s, high) ==> q < high
  {
    MinimisesIff(s, q);
    hide Gradient, Minimises;
    if q <= low {
      GradientMonotone(s, q, low);
    } else if high <= q {
      GradientMonotone(s, high, q);
    }
  }

  ghost predicate Leftmost(s: seq<Item>, p: real)
  {
    Minimises(s, p) && forall q: real :: Minimises(s, q) ==> p <= q
  }

  lemma {:induction false} ProductBound(g: real, t: real, w: real, d: real)
    requires 0.0 <= g <= Times(w, d) && 0.0 <= w && (0.0 - d) <= t && 0.0 <= d
    ensures 0.0 - Times(w, Times(d, d)) <= Times(g, t)
  {
    if t < 0.0 {
      assert g * (0.0 - t) <= g * d;
      assert g * d <= (w * d) * d;
    }
  }

  /** The right end of a bracket of width d loses at most 2 W d^2 against any point at all. */
  lemma {:induction false} BracketLoss(s: seq<Item>, low: real, high: real, q: real)
    requires ValidItems(s) && low <= high && Gradient(s, low) < 0.0 <= Gradient(s, high)
    ensures Loss(s, high) <= Loss(s, q) + 2.0 * Times(Weight(s), Times(high - low, high - low))
  {
    hide Times, Loss, Gradient, Weight;
    var d := high - low;
    WeightPositive(s);
    GradientMonotone(s, low, high);
    if low <= q {
      LossAboveTangent(s, high, q);
      ProductBound(Gradient(s, high), q - high, Weight(s), d);
    } else {
      LossAboveTangent(s, high, low);
      ProductBound(Gradient(s, high), low - high, Weight(s), d);
      LossAboveTangent(s, low, q);
      NegativeProduct(Gradient(s, low), q - low);
    }
  }

  lemma {:induction false} NegativeProduct(a: real, b: real)
    requires a < 0.0 && b < 0.0
    ensures 0.0 <= Times(a, b)
  {
  }

  // ---- the extremes

  function MaxLo(s: seq<Item>): real
    requires s != []
  {
    if |s| == 1 then s[0].bounds.lo else RMax(MaxLo(s[..|s| - 1]), s[|s| - 1].bounds.lo)
  }

  function MinHi(s: seq<Item>): real
    requires s != []
  {
    if |s| == 1 then s[0].bounds.hi else RMin(MinHi(s[..|s| - 1]), s[|s| - 1].bounds.hi)
  }

  function MinLo(s: seq<Item>): real
    requires s != []
  {
    if |s| == 1 then s[0].bounds.lo else RMin(MinLo(s[..|s| - 1]), s[|s| - 1].bounds.lo)
  }

  function MaxHi(s: seq<Item>): real
    requires s != []
  {
    if |s| == 1 then s[0].bounds.hi else RMax(MaxHi(s[..|s| - 1]), s[|s| - 1].bounds.hi)
  }

  lemma {:induction false} Extremes(s: seq<Item>)
    requires s != []
    ensures forall i :: 0 <= i < |s| ==>
              MinLo(s) <= s[i].bounds.lo <= MaxLo(s) && MinHi(s) <= s[i].bounds.hi <= MaxHi(s)
    ensures exists i :: 0 <= i < |s| && s[i].bounds.lo == MaxLo(s)
    ensures exists i :: 0 <= i < |s| && s[i].bounds.hi == MinHi(s)
  {
    if |s| > 1 {
      var n := |s| - 1;
      Extremes(s[..n]);
      var a :| 0 <= a < n && s[..n][a].bounds.lo == MaxLo(s[..n]);
      var b :| 0 <= b < n && s[..n][b].bounds.hi == MinHi(s[..n]);
      assert s[a].bounds.lo == MaxLo(s[..n]) && s[b].bounds.hi == MinHi(s[..n]);
      assert s[n].bounds.lo == MaxLo(s) || s[a].bounds.lo == MaxLo(s);
      assert s[n].bounds.hi == MinHi(s) || s[b].bounds.hi == MinHi(s);
    }
  }

  // ---- the sign of the gradient

  lemma {:induction false} TermSign(w: real, r: real)
    requires 0.0 < w
    ensures r == 0.0 ==> Times(w, r) == 0.0
    ensures r < 0.0 ==> Times(w, r) < 0.0
    ensures 0.0 < r ==> 0.0 < Times(w, r)
  {
  }

  /** When no residual is positive the gradient is not, and it is negative once some residual is. */
  lemma {:induction false} GradientSign(s: seq<Item>, q: real)
    requires ValidItems(s)
    ensures (forall i :: 0 <= i < |s| ==> Residual(q, s[i].bounds) <= 0.0) ==>
              Gradient(s, q) <= 0.0
              && ((exists i :: 0 <= i < |s| && Residual(q, s[i].bounds) < 0.0) ==> Gradient(s, q) < 0.0)
    ensures (forall i :: 0 <= i < |s| ==> 0.0 <= Residual(q, s[i].bounds)) ==>
              0.0 <= Gradient(s, q)
              && ((exists i :: 0 <= i < |s| && 0.0 < Residual(q, s[i].bounds)) ==> 0.0 < Gradient(s, q))
  {
    hide Times, Residual;
    var n := |s| - 1;
    TermSign(s[n].weight, Residual(q, s[n].bounds));
    if n > 0 {
      PrefixValid(s);
      GradientSign(s[..n], q);
    } else {
      assert s[..n] == [];
    }
  }

  /**
   * Intervals with no common point: the gradient is negative at the least lower end and positive at the greatest
   * upper one.
   */
  lemma {:induction false} StartBracket(s: seq<Item>)
    requires ValidItems(s) && MinHi(s) < MaxLo(s)
    ensures MinLo(s) <= MaxHi(s) && Gradient(s, MinLo(s)) < 0.0 < Gradient(s, MaxHi(s))
  {
    hide Gradient;
    Extremes(s);
    var a :| 0 <= a < |s| && s[a].bounds.lo == MaxLo(s);
    var b :| 0 <= b < |s| && s[b].bounds.hi == MinHi(s);
    GradientSign(s, MinLo(s));
    GradientSign(s, MaxHi(s));
    assert Residual(MinLo(s), s[a].bounds) < 0.0;
    assert 0.0 < Residual(MaxHi(s), s[b].bounds);
  }

  /** A common point has no residual anywhere, and only common points minimise. */
  lemma {:induction false} OverlapMinimises(s: seq<Item>, q: real)
    requires ValidItems(s) && MaxLo(s) <= MinHi(s)
    ensures Minimises(s, q) <==> MaxLo(s) <= q <= MinHi(s)
  {
    hide Gradient;
    MinimisesIff(s, q);
    Extremes(s);
    GradientSign(s, q);
    var a :| 0 <= a < |s| && s[a].bounds.lo == MaxLo(s);
    var b :| 0 <= b < |s| && s[b].bounds.hi == MinHi(s);
    if q < MaxLo(s) {
      assert Residual(q, s[a].bounds) < 0.0;
    } else if MinHi(s) < q {
      assert 0.0 < Residual(q, s[b].bounds);
    }
  }

  // ---- a minimiser exists

  /** No end of the first n intervals lies strictly between a and b. */
  ghost predicate Clear(s: seq<Item>, n: nat, a: real, b: real)
    requires n <= |s|
  {
    forall i :: 0 <= i < n ==> !(a < s[i].bounds.lo < b) && !(a < s[i].bounds.hi < b)
  }

  /** A point inside a sign bracket always makes a smaller one. */
  lemma {:induction false} Cut(s: seq<Item>, a: real, b: real, e: real) returns (low: real, high: real)
    requires Gradient(s, a) < 0.0 <= Gradient(s, b) && a < b
    ensures a <= low < high <= b && Gradient(s, low) < 0.0 <= Gradient(s, high) && !(low < e < high)
  {
    low, high := a, b;
    if a < e < b {
      if Gradient(s, e) < 0.0 { low := e; } else { high := e; }
    }
  }

  /** Narrow a sign bracket past the ends of the first n intervals. */
  lemma {:induction false} Narrow(s: seq<Item>, n: nat, low: real, high: real) returns (a: real, b: real)
    requires n <= |s| && low < high && Gradient(s, low) < 0.0 <= Gradient(s, high)
    ensures low <= a < b <= high && Gradient(s, a) < 0.0 <= Gradient(s, b) && Clear(s, n, a, b)
  {
    hide Gradient;
    a, b := low, high;
    if n > 0 {
      a, b := Narrow(s, n - 1, low, high);
      a, b := Cut(s, a, b, s[n - 1].bounds.lo);
      a, b := Cut(s, a, b, s[n - 1].bounds.hi);
    }
  }

  /** Between interval ends one residual is affine. */
  lemma {:induction false} ResidualAffine(i: Interval, a: real, b: real, t: real)
    requires i.lo <= i.hi && a < b && !(a < i.lo < b) && !(a < i.hi < b) && 0.0 <= t <= 1.0
    ensures Residual(a + Times(t, b - a), i) == Residual(a, i) + Times(t, Residual(b, i) - Residual(a, i))
  {
    var step := Times(t, b - a);
    Share(t, b - a);
    assert Times(t, 0.0) == 0.0;
    hide Times;
  }

  /** So the gradient is affine there. */
  lemma {:induction false} GradientAffine(s: seq<Item>, a: real, b: real, t: real)
    requires (forall i :: 0 <= i < |s| ==> s[i].bounds.lo <= s[i].bounds.hi) && a < b && Clear(s, |s|, a, b)
          && 0.0 <= t <= 1.0
    ensures Gradient(s, a + Times(t, b - a)) == Gradient(s, a) + Times(t, Gradient(s, b) - Gradient(s, a))
  {
    if s == [] {
      assert Times(t, 0.0) == 0.0;
    } else {
      hide Times, Residual;
      var n := |s| - 1;
      var r, r' := Residual(a, s[n].bounds), Residual(b, s[n].bounds);
      assert Clear(s[..n], n, a, b);
      GradientAffine(s[..n], a, b, t);
      var q := a + Times(t, b - a);
      GradientLast(s, a);
      GradientLast(s, b);
      GradientLast(s, q);
      hide Gradient;
      ResidualAffine(s[n].bounds, a, b, t);
      AffineTerm(s[n].weight, r, r', t, Gradient(s[..n], b) - Gradient(s[..n], a));
    }
  }

  lemma {:induction false} GradientLast(s: seq<Item>, q: real)
    requires s != []
    ensures var n := |s| - 1; Gradient(s, q) == Gradient(s[..n], q) + Times(s[n].weight, Residual(q, s[n].bounds))
  {
  }

  lemma {:induction false} AffineTerm(w: real, r: real, r': real, t: real, g: real)
    ensures Times(w, r + Times(t, r' - r)) + Times(t, g) == Times(w, r) + Times(t, g + (Times(w, r') - Times(w, r)))
  {
  }

  lemma {:induction false} ZeroShare(g: real, h: real) returns (t: real)
    requires g < 0.0 <= h
    ensures 0.0 < t <= 1.0 && g + Times(t, h - g) == 0.0
  {
    var d := h - g;
    t := (0.0 - g) / d;
    assert t * d == 0.0 - g;
    assert (1.0 - t) * d == h;
    FactorSign(t, d);
    FactorSign(1.0 - t, d);
  }

  lemma {:induction false} FactorSign(x: real, d: real)
    requires 0.0 < d
    ensures 0.0 < x * d ==> 0.0 < x
    ensures 0.0 <= x * d ==> 0.0 <= x
  {
  }

  lemma {:induction false} Share(t: real, d: real)
    requires 0.0 <= t <= 1.0 && 0.0 < d
    ensures 0.0 <= Times(t, d) <= d && (0.0 < t ==> 0.0 < Times(t, d))
  {
    assert 0.0 <= (1.0 - t) * d;
  }

  /** A sign change of the gradient holds a minimiser. */
  lemma {:induction false} MinimiserExists(s: seq<Item>, low: real, high: real) returns (m: real)
    requires ValidItems(s) && low <= high && Gradient(s, low) < 0.0 <= Gradient(s, high)
    ensures low < m <= high && Minimises(s, m)
  {
    hide Gradient, Minimises, Times;
    var a, b := Narrow(s, |s|, low, high);
    var t := ZeroShare(Gradient(s, a), Gradient(s, b));
    Share(t, b - a);
    GradientAffine(s, a, b, t);
    m := a + Times(t, b - a);
    MinimisesIff(s, m);
  }

  /** The bracket of a sign change holds the leftmost minimiser. */
  lemma {:induction false} LeftmostBetween(s: seq<Item>, low: real, high: real) returns (m: real)
    requires ValidItems(s) && low <= high && Gradient(s, low) < 0.0 <= Gradient(s, high)
    ensures low < m <= high && Leftmost(s, m)
    ensures MinHi(s) < MaxLo(s) ==> Sole(s, m)
  {
    hide Gradient, Minimises;
    m := MinimiserExists(s, low, high);
    if MaxLo(s) <= MinHi(s) {
      var first := MaxLo(s);
      forall q: real ensures Minimises(s, q) <==> MaxLo(s) <= q <= MinHi(s) { OverlapMinimises(s, q); }
      MinimisersBetween(s, low, high, first);
      m := first;
    } else {
      forall q: real | Minimises(s, q) ensures q == m { OneMinimiser(s, m, q); }
    }
  }

  /** The only minimiser. */
  ghost predicate Sole(s: seq<Item>, m: real) { Minimises(s, m) && forall q: real :: Minimises(s, q) ==> q == m }

  /** One residual that grows makes the gradient grow. */
  lemma {:induction false} GradientStrict(s: seq<Item>, p: real, q: real, i: nat)
    requires ValidItems(s) && p <= q && i < |s| && Residual(p, s[i].bounds) < Residual(q, s[i].bounds)
    ensures Gradient(s, p) < Gradient(s, q)
  {
    hide Times, Residual;
    var n := |s| - 1;
    var r, r' := Residual(p, s[n].bounds), Residual(q, s[n].bounds);
    ResidualMonotone(p, q, s[n].bounds);
    TimesMonotone(s[n].weight, r, r');
    if i < n {
      PrefixValid(s);
      GradientStrict(s[..n], p, q, i);
    } else {
      TimesStrict(s[n].weight, r, r');
      if n > 0 {
        PrefixValid(s);
        GradientMonotone(s[..n], p, q);
      } else {
        assert s[..n] == [];
      }
    }
  }

  lemma {:induction false} TimesStrict(w: real, x: real, y: real)
    requires 0.0 < w && x < y
    ensures Times(w, x) < Times(w, y)
  {
  }

  /** Without a common point the gradient is strictly increasing, so two minimisers are one. */
  lemma {:induction false} OneMinimiser(s: seq<Item>, p: real, q: real)
    requires ValidItems(s) && MinHi(s) < MaxLo(s) && Minimises(s, p) && Minimises(s, q)
    ensures p == q
  {
    MinimisesIff(s, p);
    MinimisesIff(s, q);
    hide Gradient, Minimises;
    if p != q {
      var x, y := RMin(p, q), RMax(p, q);
      Extremes(s);
      var a: nat :| a < |s| && s[a].bounds.lo == MaxLo(s);
      var b: nat :| b < |s| && s[b].bounds.hi == MinHi(s);
      GradientStrict(s, x, y, if x < MaxLo(s) then a else b);
    }
  }

  // ---- singletons

  predicate Singles(s: seq<Item>) { forall i :: 0 <= i < |s| ==> s[i].bounds.lo == s[i].bounds.hi }

  function WeightedSum(s: seq<Item>): real
  {
    if s == [] then 0.0 else WeightedSum(s[..|s| - 1]) + Times(s[|s| - 1].weight, s[|s| - 1].bounds.lo)
  }

  lemma {:induction false} Subtract(w: real, q: real, a: real)
    ensures Times(w, q - a) == Times(w, q) - Times(w, a) && Times(0.0, q) == 0.0
  {
  }

  lemma {:induction false} SinglesGradient(s: seq<Item>, q: real)
    requires Singles(s)
    ensures Gradient(s, q) == Times(Weight(s), q) - WeightedSum(s)
  {
    hide Times;
    Subtract(0.0, q, 0.0);
    if s != [] {
      var n := |s| - 1;
      SinglesGradient(s[..n], q);
      assert Residual(q, s[n].bounds) == q - s[n].bounds.lo;
      Subtract(s[n].weight, q, s[n].bounds.lo);
      AddTerms(Weight(s[..n]), s[n].weight, q);
    }
  }

  lemma {:induction false} MeanUnique(w: real, t: real, q: real)
    requires 0.0 < w
    ensures Times(w, q) - t == 0.0 <==> q == t / w
  {
    assert t / w * w == t;
  }

  /** Ordinary weighted least squares: the weighted mean, and nothing else, minimises. */
  lemma {:induction false} SinglesMinimise(s: seq<Item>, q: real)
    requires ValidItems(s) && Singles(s)
    ensures 0.0 < Weight(s) && (Minimises(s, q) <==> q == WeightedSum(s) / Weight(s))
  {
    hide Gradient, Minimises, Weight, WeightedSum, Times;
    WeightPositive(s);
    MinimisesIff(s, q);
    SinglesGradient(s, q);
    MeanUnique(Weight(s), WeightedSum(s), q);
  }

  // ---- the constant of best fit

  const STEPS: nat := 80

  /** x after n halvings. */
  function Half(x: real, n: nat): real { if n == 0 then x else Half(x, n - 1) / 2.0 }

  lemma {:induction false} HalfTen(x: real, n: nat)
    ensures Half(x, n + 10) == Half(x, n) / 1024.0
  {
    assert Half(x, n + 2) == Half(x, n) / 4.0;
    assert Half(x, n + 4) == Half(x, n + 2) / 4.0;
    assert Half(x, n + 6) == Half(x, n + 4) / 4.0;
    assert Half(x, n + 8) == Half(x, n + 6) / 4.0;
  }

  lemma {:induction false} HalfEighty(x: real)
    ensures Half(x, 80) == x / 1208925819614629174706176.0
  {
    assert Half(x, 0) == x;
    HalfTen(x, 0);
    HalfTen(x, 10);
    HalfTen(x, 20);
    HalfTen(x, 30);
    HalfTen(x, 40);
    HalfTen(x, 50);
    HalfTen(x, 60);
    HalfTen(x, 70);
    hide Half;
  }

  function Zip(intervals: seq<Interval>, weights: seq<real>): (s: seq<Item>)
    requires |intervals| == |weights|
    ensures |s| == |intervals| && forall i :: 0 <= i < |s| ==> s[i] == Item(intervals[i], weights[i])
  {
    seq(|intervals|, i requires 0 <= i < |intervals| => Item(intervals[i], weights[i]))
  }

  predicate ValidInput(intervals: seq<Interval>, weights: seq<real>)
  {
    && intervals != [] && |intervals| == |weights| && (forall i :: 0 <= i < |weights| ==> 0.0 < weights[i])
    && forall i :: 0 <= i < |intervals| ==> ValidInterval(intervals[i])
  }

  /** The result sits at the right end of a bracket d wide that holds the leftmost, and only, minimiser. */
  ghost predicate Bracketed(s: seq<Item>, r: real, d: real)
  {
    && 0.0 <= d && Gradient(s, r - d) < 0.0 <= Gradient(s, r)
    && (exists m: real :: Leftmost(s, m) && Sole(s, m) && r - d < m <= r)
    && forall q: real :: Loss(s, r) <= Loss(s, q) + 2.0 * Times(Weight(s), Times(d, d))
  }

  /** What the fit guarantees on each of its three branches. */
  ghost predicate Fitted(s: seq<Item>, r: real)
    requires s != []
  {
    if Singles(s) then Minimises(s, r) && forall q: real :: Minimises(s, q) ==> q == r
    else if MaxLo(s) <= MinHi(s) then Leftmost(s, r) && forall q: real :: Minimises(s, q) <==> r <= q <= MinHi(s)
    else Bracketed(s, r, (MaxHi(s) - MinLo(s)) / 1208925819614629174706176.0)
  }

  lemma {:induction false} BracketIs(s: seq<Item>, low: real, high: real, d: real)
    requires ValidItems(s) && MinHi(s) < MaxLo(s)
    requires low <= high && d == high - low && Gradient(s, low) < 0.0 <= Gradient(s, high)
    ensures Bracketed(s, high, d)
  {
    hide Gradient, Loss, Weight, Times, Minimises, Leftmost, Sole;
    assert high - d == low;
    var m := LeftmostBetween(s, low, high);
    forall q: real ensures Loss(s, high) <= Loss(s, q) + 2.0 * Times(Weight(s), Times(d, d)) {
      BracketLoss(s, low, high, q);
    }
  }

  /** The bisection: it keeps gradient(low) < 0 <= gradient(high) and halves the bracket eighty times. */
  method Bisect(s: seq<Item>) returns (high: real)
    requires ValidItems(s) && MinHi(s) < MaxLo(s)
    ensures Bracketed(s, high, (MaxHi(s) - MinLo(s)) / 1208925819614629174706176.0)     // two to the power of 80
  {
    hide Gradient, Bracketed;
    StartBracket(s);
    var low := MinLo(s);
    high := MaxHi(s);
    ghost var width := high - low;
    for step := 0 to STEPS
      invariant low <= high && high - low == Half(width, step)
      invariant Gradient(s, low) < 0.0 <= Gradient(s, high)
    {
      var candidate := (low + high) / 2.0;
      if 0.0 <= Gradient(s, candidate) { high := candidate; } else { low := candidate; }
    }
    BracketIs(s, low, high, Half(width, STEPS));
    HalfEighty(width);
  }

  method FitIntervalConstant(intervals: seq<Interval>, weights: seq<real>) returns (r: Result<real>)
    ensures r.Ok? <==>
              && intervals != [] && |intervals| == |weights| && (forall i :: 0 <= i < |weights| ==> 0.0 < weights[i])
              && forall i :: 0 <= i < |intervals| ==> 0.0 <= intervals[i].lo <= intervals[i].hi <= 1.0
    ensures r.Ok? ==> Fitted(Zip(intervals, weights), r.value)
  {
    if !ValidInput(intervals, weights) { return Err("INTERVAL_FIT_INPUT_INVALID"); }
    var s := Zip(intervals, weights);
    hide Gradient, Minimises, Weight, WeightedSum, Bracketed;
    if Singles(s) {
      WeightPositive(s);
      var mean := WeightedSum(s) / Weight(s);
      forall q: real ensures Minimises(s, q) <==> q == mean {
        SinglesMinimise(s, q);
      }
      return Ok(mean);
    }
    if MaxLo(s) <= MinHi(s) {
      forall q: real ensures Minimises(s, q) <==> MaxLo(s) <= q <= MinHi(s) {
        OverlapMinimises(s, q);
      }
      return Ok(MaxLo(s));
    }
    var high := Bisect(s);
    r := Ok(high);
  }

  /** The centre: on a flat optimum the declared point, moved no further than it must be. */
  method IntervalCenter(intervals: seq<Interval>, weights: seq<real>, preferred: real) returns (r: Result<real>)
    ensures r.Ok? <==>
              && intervals != [] && |intervals| == |weights| && (forall i :: 0 <= i < |weights| ==> 0.0 < weights[i])
              && (forall i :: 0 <= i < |intervals| ==> 0.0 <= intervals[i].lo <= intervals[i].hi <= 1.0)
              && 0.0 <= preferred <= 1.0
    ensures r.Ok? ==>
              var s := Zip(intervals, weights);
              if MaxLo(s) <= MinHi(s) then
                Minimises(s, r.value) && forall q: real :: Minimises(s, q) ==>
                  RAbs(r.value - preferred) <= RAbs(q - preferred)
              else Fitted(s, r.value)
  {
    if !ValidInput(intervals, weights) || preferred < 0.0 || 1.0 < preferred {
      return Err("INTERVAL_FIT_INPUT_INVALID");
    }
    var s := Zip(intervals, weights);
    hide Gradient, Minimises, Fitted;
    if MaxLo(s) <= MinHi(s) {
      forall q: real ensures Minimises(s, q) <==> MaxLo(s) <= q <= MinHi(s) {
        OverlapMinimises(s, q);
      }
      return Ok(RMin(RMax(preferred, MaxLo(s)), MinHi(s)));
    }
    r := FitIntervalConstant(intervals, weights);
  }

  // ---- predictions by bracketed Newton, one row

  const GRADIENT_DONE := 0.000000000000001     // 1e-15
  const WIDTH_DONE := 0.000000000000002        // 2e-15

  /** The weight an interval pulls with: none where the prediction is in it, unless it is a point. */
  function Pull(v: real, x: Item): real
  {
    if v < x.bounds.lo || x.bounds.hi < v || x.bounds.lo == x.bounds.hi then x.weight else 0.0
  }

  function Curvature(s: seq<Item>, v: real): real
  {
    if s == [] then 0.0 else Curvature(s[..|s| - 1], v) + Pull(v, s[|s| - 1])
  }

  const LEAST_CURVATURE := 0.000000000000000000000000000001     // 1e-30

  function NewtonStep(s: seq<Item>, v: real): real { v - Gradient(s, v) / RMax(Curvature(s, v), LEAST_CURVATURE) }

  /** No end of an interval lies between two points: both are below it, both above it, both in it, or it is a point. */
  predicate Together(v: real, q: real, b: Interval)
  {
    (v < b.lo && q <= b.lo) || (b.hi < v && b.hi <= q) || (b.lo <= v <= b.hi && b.lo <= q <= b.hi) || b.lo == b.hi
  }

  predicate AllTogether(v: real, q: real, s: seq<Item>) { forall i :: 0 <= i < |s| ==> Together(v, q, s[i].bounds) }

  /** Between them the gradient is a line whose slope is the curvature. */
  lemma {:induction false} SlopeIsCurvature(s: seq<Item>, v: real, q: real)
    requires AllTogether(v, q, s)
    ensures Gradient(s, q) - Gradient(s, v) == Times(q - v, Curvature(s, v))
  {
    hide Times, Residual, Together;
    if s != [] {
      var front, last := s[..|s| - 1], s[|s| - 1];
      SlopeIsCurvature(front, v, q);
      assert Together(v, q, s[|s| - 1].bounds);
      ResidualSlope(v, q, last);
      TimesAdds(q - v, Curvature(front, v), Pull(v, last));
    } else {
      NoSlope(q - v);
    }
  }

  lemma {:induction false} NoSlope(d: real)
    ensures Times(d, 0.0) == 0.0
  {
  }

  lemma {:induction false} TimesAdds(k: real, x: real, y: real)
    ensures Times(k, x + y) == Times(k, x) + Times(k, y)
  {
  }

  lemma {:induction false} ResidualSlope(v: real, q: real, x: Item)
    requires Together(v, q, x.bounds)
    ensures Times(x.weight, Residual(q, x.bounds)) - Times(x.weight, Residual(v, x.bounds)) == Times(q - v, Pull(v, x))
  {
    var d := Residual(q, x.bounds) - Residual(v, x.bounds);
    assert (Pull(v, x) == x.weight && d == q - v) || (Pull(v, x) == 0.0 && d == 0.0);
    hide Residual, Together;
    assert x.weight * Residual(q, x.bounds) - x.weight * Residual(v, x.bounds) == x.weight * d;
  }

  lemma {:induction false} Negated(d: real, c: real)
    ensures Times(0.0 - d, c) == 0.0 - Times(d, c)
  {
  }

  lemma {:induction false} QuotientIs(g: real, d: real, c: real)
    requires 0.0 < c && g == Times(d, c)
    ensures g / c == d
  {
  }

  /** So the step lands on the minimiser as soon as no interval end is left between. */
  lemma {:induction false} NewtonLands(s: seq<Item>, v: real, m: real)
    requires ValidItems(s) && AllTogether(v, m, s) && Gradient(s, m) == 0.0
    requires 0.000000000000000000000000000001 <= Curvature(s, v)
    ensures NewtonStep(s, v) == m
  {
    SlopeIsCurvature(s, v, m);
    hide Gradient, Curvature, AllTogether;
    Negated(v - m, Curvature(s, v));
    QuotientIs(Gradient(s, v), v - m, Curvature(s, v));
  }

  /** The gradient changes sign between the brackets, strictly. */
  ghost predicate Encloses(s: seq<Item>, low: real, high: real)
  {
    low <= high && Gradient(s, low) < 0.0 < Gradient(s, high)
  }

  /** So the only minimiser lies strictly between them. */
  lemma {:induction false} EnclosesSole(s: seq<Item>, low: real, high: real) returns (m: real)
    requires ValidItems(s) && MinHi(s) < MaxLo(s) && Encloses(s, low, high)
    ensures Sole(s, m) && low < m < high
  {
    m := LeftmostBetween(s, low, high);
    hide Gradient, Minimises;
    MinimisersBetween(s, low, high, m);
  }

  /** Where the loop may stop, and what the stop is worth. */
  ghost predicate Settled(s: seq<Item>, v: real, low: real, high: real)
  {
    RAbs(Gradient(s, v)) < 0.000000000000001 || high - low < 0.000000000000002
  }

  lemma {:induction false} GradientBound(g: real, t: real, e: real)
    requires RAbs(g) <= e
    ensures 0.0 - e * RAbs(t) <= Times(g, t)
  {
    var a, b := RAbs(g), RAbs(t);
    assert 0.0 - a * b <= g * t;
    assert a * b <= e * b;
  }

  /** A small gradient is a small excess: at most twice the gradient times the distance, against any point. */
  lemma {:induction false} SmallGradient(s: seq<Item>, v: real, q: real)
    requires ValidItems(s) && RAbs(Gradient(s, v)) <= 0.000000000000001
    ensures Loss(s, v) <= Loss(s, q) + 2.0 * (0.000000000000001 * RAbs(q - v))
  {
    hide Loss, Gradient;
    LossAboveTangent(s, v, q);
    GradientBound(Gradient(s, v), q - v, GRADIENT_DONE);
  }

  method NewtonPrediction(s: seq<Item>, preferred: real)
    returns (v: real, ghost low: real, ghost high: real, steps: nat)
    requires ValidItems(s)
    ensures MaxLo(s) <= MinHi(s) ==>
              Minimises(s, v) && forall q: real :: Minimises(s, q) ==> RAbs(v - preferred) <= RAbs(q - preferred)
    ensures MinHi(s) < MaxLo(s) ==>
              && Encloses(s, low, high) && low <= v <= high && MinLo(s) <= low && high <= MaxHi(s) && steps <= 80
              && (steps < 80 ==> Settled(s, v, low, high))
              && (forall m: real :: Minimises(s, m) ==> low < m < high)
              && exists m: real :: Sole(s, m) && low < m < high && RAbs(v - m) < high - low
  {
    hide Gradient, Curvature, Minimises, Sole;
    steps := 0;
    if MaxLo(s) <= MinHi(s) {
      forall q: real ensures Minimises(s, q) <==> MaxLo(s) <= q <= MinHi(s) {
        OverlapMinimises(s, q);
      }
      v := RMin(RMax(preferred, MaxLo(s)), MinHi(s));
      low, high := v, v;
      return;
    }
    StartBracket(s);
    var lo, hi := MinLo(s), MaxHi(s);
    v := Clamp(preferred, lo, hi);
    while steps < STEPS
      invariant Encloses(s, lo, hi) && lo <= v <= hi && MinLo(s) <= lo && hi <= MaxHi(s) && steps <= STEPS
    {
      var gradient := Gradient(s, v);
      if RAbs(gradient) < GRADIENT_DONE || hi - lo < WIDTH_DONE { break; }
      if 0.0 < gradient { hi := v; }
      if gradient < 0.0 { lo := v; }
      var step := NewtonStep(s, v);
      v := if lo < step < hi then step else (lo + hi) / 2.0;
      steps := steps + 1;
    }
    low, high := lo, hi;
    ghost var m := EnclosesSole(s, low, high);
    SoleOf(s, m);
  }

  lemma {:induction false} SoleOf(s: seq<Item>, m: real)
    requires Sole(s, m)
    ensures Minimises(s, m) && forall q: real :: Minimises(s, q) ==> q == m
  {
  }
}
