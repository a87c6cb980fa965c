/** The bounds as they are reported: numbers, rounded outward and cut to the unit range. */
module RoundedBounds {
  import opened Prelude
  import opened Vectors
  import opened Surds
  import opened Completions
  import opened RankBounds
  import opened RankVariance

  /** A surd as a number, under any square root. */
  function Value(s: Surd, root: real -> real): real
    requires IsRoot(root) && s.Valid()
  {
    RootPositive(root, s.den as real);
    s.num as real / root(s.den as real)
  }

  lemma {:induction false} RootPositive(root: real -> real, x: real)
    requires IsRoot(root) && 0.0 < x
    ensures 0.0 < root(x) && root(x) * root(x) == x
  {
  }

  lemma {:induction false} ValueOrder(a: Surd, b: Surd, root: real -> real)
    requires IsRoot(root) && a.Valid() && b.Valid()
    ensures LessEq(a, b) <==> Value(a, root) <= Value(b, root)
  {
    RootPositive(root, a.den as real);
    RootPositive(root, b.den as real);
    LessEqMeaning(a, b, root(a.den as real), root(b.den as real));
  }

  /** One model's coefficient, as a number between its bounds. */
  lemma {:induction false} Placed(scores: seq<real>, outcomes: Outcomes, full: seq<real>, l: Surd, u: Surd,
                                  root: real -> real)
    requires |scores| == |outcomes| && Completes(outcomes, full) && IsRoot(root) && l.Valid() && u.Valid()
    requires Bounding(l, u, scores, outcomes)
    ensures Spearman(scores, full).Valid()
    ensures var v := Value(Spearman(scores, full), root); Value(l, root) <= v <= Value(u, root) && -1.0 <= v <= 1.0
  {
    assert 0 < SquareSum(scores) && 0 < SquareSum(full);
    SpearmanRange(scores, full);
    var s := Spearman(scores, full);
    ValueOrder(l, s, root);
    ValueOrder(s, u, root);
    ValueOrder(MINUS_ONE, s, root);
    ValueOrder(s, ONE, root);
    UnitValues(root);
    hide Spearman, SquareSum, LessEq, Value;
  }

  lemma {:induction false} UnitValues(root: real -> real)
    requires IsRoot(root)
    ensures Value(MINUS_ONE, root) == -1.0 && Value(ONE, root) == 1.0
  {
    RootPositive(root, 1.0);
    RootOfOne(root(1.0));
  }

  lemma {:induction false} RootOfOne(r: real)
    requires 0.0 < r && r * r == 1.0
    ensures r == 1.0
  {
    if r < 1.0 {
      Below(r);
    } else {
      Above(r);
    }
  }

  lemma {:induction false} Below(r: real)
    requires 0.0 < r < 1.0
    ensures r * r < 1.0
  {
    assert r * r < 1.0 * r;
  }

  lemma {:induction false} Above(r: real)
    requires 1.0 <= r
    ensures r <= r * r
  {
    assert 1.0 * r <= r * r;
  }

  // ---- rounding

  /** A step down and a step up, whatever their size. */
  ghost predicate Outward(down: real -> real, up: real -> real)
  {
    forall x: real :: down(x) <= x <= up(x)
  }

  /** The ratio of a covariance to its variances, rounded and then cut to the unit range. */
  function Rounded(numerator: int, qx: int, qy: int, root: real -> real, round: real -> real): real
    requires IsRoot(root) && 0 < qx && 0 < qy
  {
    Denominator(qx, qy);
    Clamp(round(Value(Surd(numerator, qx * qy), root)), -1.0, 1.0)
  }

  function RoundedLower(clo: int, qx: int, qmin: int, qmax: int, root: real -> real, down: real -> real): real
    requires IsRoot(root) && 0 < qx && 0 < qmin && 0 < qmax
  {
    RMin(Rounded(clo, qx, qmin, root, down), Rounded(clo, qx, qmax, root, down))
  }

  function RoundedUpper(chi: int, qx: int, qmin: int, qmax: int, root: real -> real, up: real -> real): real
    requires IsRoot(root) && 0 < qx && 0 < qmin && 0 < qmax
  {
    RMax(Rounded(chi, qx, qmin, root, up), Rounded(chi, qx, qmax, root, up))
  }

  lemma {:induction false} ClipValue(s: Surd, root: real -> real)
    requires IsRoot(root) && s.Valid()
    ensures Clip(s).Valid() && Value(Clip(s), root) == Clamp(Value(s, root), -1.0, 1.0)
  {
    UnitValues(root);
    ValueOrder(ONE, s, root);
    ValueOrder(MINUS_ONE, s, root);
    ValueOrder(MINUS_ONE, ONE, root);
    hide Value, LessEq;
  }

  lemma {:induction false} RoundedAround(n: int, qx: int, qy: int, root: real -> real, down: real -> real,
                                         up: real -> real)
    requires IsRoot(root) && 0 < qx && 0 < qy && Outward(down, up)
    ensures Ratio(n, qx, qy).Valid()
    ensures Rounded(n, qx, qy, root, down) <= Value(Ratio(n, qx, qy), root) <= Rounded(n, qx, qy, root, up)
  {
    Denominator(qx, qy);
    var s := Surd(n, qx * qy);
    ClipValue(s, root);
    hide Value, Clip;
    assert down(Value(s, root)) <= Value(s, root) <= up(Value(s, root));
  }

  lemma {:induction false} LeastValue(a: Surd, b: Surd, root: real -> real)
    requires IsRoot(root) && a.Valid() && b.Valid()
    ensures Value(Least(a, b), root) == RMin(Value(a, root), Value(b, root))
    ensures Value(Greatest(a, b), root) == RMax(Value(a, root), Value(b, root))
  {
    ValueOrder(a, b, root);
    ValueOrder(b, a, root);
    hide Value, LessEq;
  }

  /** Rounding outward only moves the exact bounds apart. */
  lemma {:induction false} RoundedEnds(clo: int, chi: int, qx: int, qmin: int, qmax: int, root: real -> real,
                                       down: real -> real, up: real -> real)
    requires IsRoot(root) && 0 < qx && 0 < qmin && 0 < qmax && Outward(down, up)
    ensures LowerOf(clo, qx, qmin, qmax).Valid() && UpperOf(chi, qx, qmin, qmax).Valid()
    ensures RoundedLower(clo, qx, qmin, qmax, root, down) <= Value(LowerOf(clo, qx, qmin, qmax), root)
    ensures Value(UpperOf(chi, qx, qmin, qmax), root) <= RoundedUpper(chi, qx, qmin, qmax, root, up)
  {
    RoundedAround(clo, qx, qmin, root, down, up);
    RoundedAround(clo, qx, qmax, root, down, up);
    RoundedAround(chi, qx, qmin, root, down, up);
    RoundedAround(chi, qx, qmax, root, down, up);
    LeastValue(Ratio(clo, qx, qmin), Ratio(clo, qx, qmax), root);
    LeastValue(Ratio(chi, qx, qmin), Ratio(chi, qx, qmax), root);
    hide Value, Ratio, Rounded, IsRoot, LessEq;
  }

  /** So whatever the steps, the reported numbers are in order and hold the coefficient of every completion. */
  lemma {:induction false} RoundedBoundsHold(scores: seq<real>, outcomes: Outcomes, clo: int, chi: int,
                                             root: real -> real, down: real -> real, up: real -> real)
    requires |scores| == |outcomes| && Known(outcomes) != [] && IsRoot(root) && Outward(down, up)
    requires 0 < SquareSum(scores) && 0 < QMin(outcomes) && Extremes(clo, chi, scores, outcomes)
    ensures QMin(outcomes) <= QMax(outcomes)
    ensures var qx, qmin, qmax := SquareSum(scores), QMin(outcomes), QMax(outcomes);
            var lower := RoundedLower(clo, qx, qmin, qmax, root, down);
            var upper := RoundedUpper(chi, qx, qmin, qmax, root, up);
            && lower <= upper
            && forall full :: Completes(outcomes, full) ==>
                 Spearman(scores, full).Valid() && lower <= Value(Spearman(scores, full), root) <= upper
  {
    var qx, qmin, qmax := SquareSum(scores), QMin(outcomes), QMax(outcomes);
    VarianceOrdered(outcomes);
    BoundsHold(scores, outcomes, clo, chi);
    RoundedEnds(clo, chi, qx, qmin, qmax, root, down, up);
    var l, u := LowerOf(clo, qx, qmin, qmax), UpperOf(chi, qx, qmin, qmax);
    ValueOrder(l, u, root);
    hide Value, LowerOf, UpperOf, Spearman, SquareSum, QMin, QMax, Extremes, RoundedLower, RoundedUpper, IsRoot,
         Outward;
    forall full | Completes(outcomes, full)
      ensures Spearman(scores, full).Valid()
              && Value(l, root) <= Value(Spearman(scores, full), root) <= Value(u, root) {
      Placed(scores, outcomes, full, l, u, root);
    }
  }
}
