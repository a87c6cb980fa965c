/** The Bartlett-weighted date-axis variance, and why it can never be negative. */
module HacVariance {
  import opened Prelude
  import opened Vectors

  // ---- sums over integer ranges

  function SumRange(f: int -> real, lo: int, hi: int): real
    requires lo <= hi
    decreases hi - lo
  {
    if lo == hi then 0.0 else SumRange(f, lo, hi - 1) + f(hi - 1)
  }

  lemma {:induction false} SumRangeSame(f: int -> real, g: int -> real, lo: int, hi: int)
    requires lo <= hi && forall i :: lo <= i < hi ==> f(i) == g(i)
    ensures SumRange(f, lo, hi) == SumRange(g, lo, hi)
    decreases hi - lo
  {
    if lo < hi { SumRangeSame(f, g, lo, hi - 1); }
  }

  /** h == f + 2 g + k pointwise gives the same identity between the sums. */
  lemma {:induction false} SumRangeCombine(f: int -> real, g: int -> real, k: int -> real, h: int -> real, lo: int,
                                           hi: int)
    requires lo <= hi && forall i :: lo <= i < hi ==> h(i) == f(i) + 2.0 * g(i) + k(i)
    ensures SumRange(h, lo, hi) == SumRange(f, lo, hi) + 2.0 * SumRange(g, lo, hi) + SumRange(k, lo, hi)
    decreases hi - lo
  {
    if lo < hi { SumRangeCombine(f, g, k, h, lo, hi - 1); }
  }

  lemma {:induction false} SumRangePlus(f: int -> real, g: int -> real, h: int -> real, lo: int, hi: int)
    requires lo <= hi && forall i :: lo <= i < hi ==> h(i) == f(i) + g(i)
    ensures SumRange(h, lo, hi) == SumRange(f, lo, hi) + SumRange(g, lo, hi)
    decreases hi - lo
  {
    if lo < hi { SumRangePlus(f, g, h, lo, hi - 1); }
  }

  lemma {:induction false} SumRangeZero(f: int -> real, lo: int, hi: int)
    requires lo <= hi && forall i :: lo <= i < hi ==> f(i) == 0.0
    ensures SumRange(f, lo, hi) == 0.0
    decreases hi - lo
  {
    if lo < hi { SumRangeZero(f, lo, hi - 1); }
  }

  lemma {:induction false} SumRangeSplit(f: int -> real, lo: int, mid: int, hi: int)
    requires lo <= mid <= hi
    ensures SumRange(f, lo, hi) == SumRange(f, lo, mid) + SumRange(f, mid, hi)
    decreases hi - mid
  {
    if mid < hi { SumRangeSplit(f, lo, mid, hi - 1); }
  }

  /** g is f shifted by a. */
  lemma {:induction false} SumRangeShift(f: int -> real, g: int -> real, a: int, lo: int, hi: int)
    requires lo <= hi && forall i :: lo <= i < hi ==> g(i) == f(i + a)
    ensures SumRange(g, lo, hi) == SumRange(f, lo + a, hi + a)
    decreases hi - lo
  {
    if lo < hi { SumRangeShift(f, g, a, lo, hi - 1); }
  }

  /** Only a support [from, to) inside the range contributes. */
  lemma {:induction false} SumRangeSupport(f: int -> real, lo: int, from: int, to: int, hi: int)
    requires lo <= from <= to <= hi
    requires forall i :: lo <= i < from || to <= i < hi ==> f(i) == 0.0
    ensures SumRange(f, lo, hi) == SumRange(f, from, to)
  {
    SumRangeSplit(f, lo, from, hi);
    SumRangeSplit(f, from, to, hi);
    SumRangeZero(f, lo, from);
    SumRangeZero(f, to, hi);
  }

  lemma {:induction false} SumRangeNonnegative(f: int -> real, lo: int, hi: int)
    requires lo <= hi && forall i :: lo <= i < hi ==> 0.0 <= f(i)
    ensures 0.0 <= SumRange(f, lo, hi)
    ensures SumRange(f, lo, hi) == 0.0 ==> forall i :: lo <= i < hi ==> f(i) == 0.0
    decreases hi - lo
  {
    if lo < hi { SumRangeNonnegative(f, lo, hi - 1); }
  }

  // ---- the series, padded with zeros

  function Padded(v: seq<real>, i: int): real { if 0 <= i < |v| then v[i] else 0.0 }

  /** Entry i times the entry d places before it. */
  function ProductAt(v: seq<real>, d: int, i: int): real { Times(Padded(v, i), Padded(v, i - d)) }

  function Product(v: seq<real>, d: int): int -> real { (i: int) => ProductAt(v, d, i) }

  /** The products of all entries d places apart, summed over the series. */
  function Covariance(v: seq<real>, d: nat): real
  {
    if d <= |v| then SumRange(Product(v, d), d, |v|) else 0.0
  }

  /** The sum of lag + 1 consecutive entries from s on, zeros outside the series. */
  function Window(v: seq<real>, lag: nat, s: int): real
  {
    (if lag == 0 then 0.0 else Window(v, lag - 1, s)) + Padded(v, s + lag)
  }

  /** The first position whose window meets the series. */
  function First(lag: nat): int { 0 - lag }

  function SquareAt(v: seq<real>, lag: nat, s: int): real { Times(Window(v, lag, s), Window(v, lag, s)) }

  function WindowSquare(v: seq<real>, lag: nat): int -> real { (s: int) => SquareAt(v, lag, s) }

  /** The squared window sums of every position that meets the series. */
  function WindowSquares(v: seq<real>, lag: nat, lo: int): real
    requires lo <= |v|
  {
    SumRange(WindowSquare(v, lag), lo, |v|)
  }

  function CovarianceSum(v: seq<real>, d: nat): real
  {
    if d == 0 then 0.0 else CovarianceSum(v, d - 1) + Covariance(v, d)
  }

  /** (lag + 1) R(0) + 2 sum over d = 1 .. lag of (lag + 1 - d) R(d), by its own differences. */
  function Triangle(v: seq<real>, lag: nat): real
  {
    Covariance(v, 0) + (if lag == 0 then 0.0 else Triangle(v, lag - 1) + 2.0 * CovarianceSum(v, lag))
  }

  /** The product of the entries a and b places after s. */
  function PairAt(v: seq<real>, a: int, b: int, s: int): real { Times(Padded(v, s + b), Padded(v, s + a)) }

  function Pair(v: seq<real>, a: int, b: int): int -> real { (s: int) => PairAt(v, a, b, s) }

  /** A product of two padded entries sums to the covariance at their distance, wherever the pair starts. */
  lemma {:induction false} ShiftedCovariance(v: seq<real>, a: int, b: int, lo: int)
    requires lo + a <= 0 <= a <= b && lo + b <= b - a && lo <= |v|
    ensures SumRange(Pair(v, a, b), lo, |v|) == Covariance(v, b - a)
  {
    hide Times;
    var d := b - a;
    var f := Product(v, d);
    forall s | lo <= s < |v| ensures Pair(v, a, b)(s) == f(s + b) {
      assert s + b - d == s + a;
    }
    SumRangeShift(f, Pair(v, a, b), b, lo, |v|);
    forall i | i < d || |v| <= i ensures f(i) == 0.0 {
      ZeroFactor(Padded(v, i), Padded(v, i - d));
    }
    hide Product;
    if d <= |v| {
      SumRangeSupport(f, lo + b, d, |v|, |v| + b);
    } else {
      SumRangeZero(f, lo + b, |v| + b);
    }
  }

  lemma {:induction false} ZeroFactor(x: real, y: real)
    ensures x == 0.0 || y == 0.0 ==> Times(x, y) == 0.0
  {
  }

  /** Window sum times the next entry: one covariance for each entry of the window. */
  function CrossAt(v: seq<real>, lag: nat, next: nat, s: int): real { Times(Window(v, lag, s), Padded(v, s + next)) }

  function Cross(v: seq<real>, lag: nat, next: nat): int -> real { (s: int) => CrossAt(v, lag, next, s) }

  lemma {:induction false} CrossStep(v: seq<real>, lag: nat, next: nat, s: int)
    ensures CrossAt(v, lag, next, s)
         == PairAt(v, lag, next, s) + (if lag == 0 then 0.0 else CrossAt(v, lag - 1, next, s))
  {
    hide Times;
    AddFactor(if lag == 0 then 0.0 else Window(v, lag - 1, s), Padded(v, s + lag), Padded(v, s + next));
  }

  lemma {:induction false} CrossSum(v: seq<real>, lag: nat, next: nat, lo: int)
    requires lag < next && lo + next <= 0
    ensures SumRange(Cross(v, lag, next), lo, |v|) == CovarianceSum(v, next) - CovarianceSum(v, next - lag - 1)
  {
    ShiftedCovariance(v, lag, next, lo);
    forall s ensures Cross(v, lag, next)(s)
                  == Pair(v, lag, next)(s) + (if lag == 0 then 0.0 else Cross(v, lag - 1, next)(s)) {
      CrossStep(v, lag, next, s);
    }
    hide CrossAt, PairAt, Covariance;
    if lag == 0 {
      SumRangeSame(Cross(v, 0, next), Pair(v, 0, next), lo, |v|);
    } else {
      CrossSum(v, lag - 1, next, lo);
      SumRangePlus(Pair(v, lag, next), Cross(v, lag - 1, next), Cross(v, lag, next), lo, |v|);
    }
  }

  lemma {:induction false} AddFactor(w: real, x: real, y: real)
    ensures Times(w + x, y) == Times(y, x) + Times(w, y) && Times(0.0, y) == 0.0
  {
  }

  lemma {:induction false} SquareStep(v: seq<real>, lag: nat, s: int)
    ensures SquareAt(v, lag + 1, s)
         == SquareAt(v, lag, s) + 2.0 * CrossAt(v, lag, lag + 1, s) + PairAt(v, lag + 1, lag + 1, s)
  {
    hide Times;
    SquareOfSum(Window(v, lag, s), Padded(v, s + (lag + 1)));
  }

  /** Growing every window by one entry adds R(0) and twice the covariances up to the new length. */
  lemma {:induction false} WindowSquaresAreTriangle(v: seq<real>, lag: nat, lo: int)
    requires lo + lag <= 0
    ensures WindowSquares(v, lag, lo) == Triangle(v, lag)
  {
    ShiftedCovariance(v, lag, lag, lo);
    if lag == 0 {
      forall s ensures WindowSquare(v, 0)(s) == Pair(v, 0, 0)(s) {
        FirstSquare(v, s);
      }
      SumRangeSame(WindowSquare(v, 0), Pair(v, 0, 0), lo, |v|);
    } else {
      var l := lag - 1;
      WindowSquaresAreTriangle(v, l, lo);
      CrossSum(v, l, lag, lo);
      forall s ensures WindowSquare(v, lag)(s)
                    == WindowSquare(v, l)(s) + 2.0 * Cross(v, l, lag)(s) + Pair(v, lag, lag)(s) {
        SquareStep(v, l, s);
      }
      hide SquareAt, CrossAt, PairAt, Covariance;
      SumRangeCombine(WindowSquare(v, l), Cross(v, l, lag), Pair(v, lag, lag), WindowSquare(v, lag), lo, |v|);
    }
  }

  lemma {:induction false} FirstSquare(v: seq<real>, s: int)
    ensures SquareAt(v, 0, s) == PairAt(v, 0, 0, s)
  {
  }

  // ---- the estimator

  /** The Bartlett weight of distance d, counted for both signs of the distance. */
  function BartlettWeight(d: nat, lag: nat): real { 2.0 * (1.0 - d as real / (lag + 1) as real) }

  /** The source's accumulation, up to distance m. */
  function Bartlett(v: seq<real>, lag: nat, m: nat): real
  {
    if m == 0 then Covariance(v, 0) else Bartlett(v, lag, m - 1) + Times(BartlettWeight(m, lag), Covariance(v, m))
  }

  lemma {:induction false} WeightValue(d: nat, lag: nat, c: real)
    ensures Times((lag + 1) as real, Times(BartlettWeight(d, lag), c)) == 2.0 * Times((lag + 1) as real - d as real, c)
  {
    var n := (lag + 1) as real;
    assert d as real / n * n == d as real;
    assert n * BartlettWeight(d, lag) == 2.0 * (n - d as real);
    assert n * (BartlettWeight(d, lag) * c) == (n * BartlettWeight(d, lag)) * c;
  }

  lemma {:induction false} TimesSum(k: real, x: real, y: real)
    ensures Times(k, x + y) == Times(k, x) + Times(k, y)
  {
  }

  lemma {:induction false} OneMore(k: real, x: real)
    ensures Times(k + 1.0, x) == Times(k, x) + x && Times(1.0, x) == x && Times(0.0, x) == 0.0
  {
  }

  /** Weighted covariances up to m, each with weight lag + 1 - d. */
  function Weighted(v: seq<real>, lag: nat, m: nat): real
  {
    if m == 0 then 0.0 else Weighted(v, lag, m - 1) + Times((lag + 1) as real - m as real, Covariance(v, m))
  }

  lemma {:induction false} BartlettScaled(v: seq<real>, lag: nat, m: nat)
    ensures Times((lag + 1) as real, Bartlett(v, lag, m))
         == Times((lag + 1) as real, Covariance(v, 0)) + 2.0 * Weighted(v, lag, m)
  {
    hide Times, BartlettWeight, Covariance;
    if m > 0 {
      BartlettScaled(v, lag, m - 1);
      WeightValue(m, lag, Covariance(v, m));
      TimesSum((lag + 1) as real, Bartlett(v, lag, m - 1), Times(BartlettWeight(m, lag), Covariance(v, m)));
    }
  }

  /** Raising the lag by one adds every covariance up to m once more. */
  lemma {:induction false} WeightedStep(v: seq<real>, lag: nat, m: nat)
    ensures Weighted(v, lag + 1, m) == Weighted(v, lag, m) + CovarianceSum(v, m)
  {
    hide Times, Covariance;
    if m > 0 {
      WeightedStep(v, lag, m - 1);
      OneMore((lag + 1) as real - m as real, Covariance(v, m));
      assert (lag + 2) as real - m as real == (lag + 1) as real - m as real + 1.0;
    }
  }

  lemma {:induction false} TriangleValue(v: seq<real>, lag: nat)
    ensures Triangle(v, lag) == Times((lag + 1) as real, Covariance(v, 0)) + 2.0 * Weighted(v, lag, lag)
  {
    hide Times, Covariance;
    OneMore(0.0, Covariance(v, 0));
    if lag > 0 {
      var l := lag - 1;
      TriangleValue(v, l);
      WeightedStep(v, l, lag);
      OneMore(lag as real, Covariance(v, 0));
      OneMore(0.0, Covariance(v, lag));
      assert Weighted(v, l, lag) == Weighted(v, l, l);
    }
  }

  lemma {:induction false} FarCovariance(v: seq<real>, d: nat)
    requires |v| <= d
    ensures Covariance(v, d) == 0.0
  {
  }

  /** Distances at or beyond the length of the series contribute nothing. */
  lemma {:induction false} FarDistances(v: seq<real>, lag: nat, m: nat, k: nat)
    requires m <= k && (m < k ==> |v| <= m + 1)
    ensures Bartlett(v, lag, k) == Bartlett(v, lag, m)
  {
    if m < k {
      FarDistances(v, lag, m, k - 1);
      FarCovariance(v, k);
      ZeroFactor(BartlettWeight(k, lag), 0.0);
    }
  }

  /** The variance estimate before averaging: the accumulation over the distances the source visits. */
  function Estimate(v: seq<real>, lag: nat): real
    requires v != []
  {
    Bartlett(v, lag, Min(lag, |v| - 1))
  }

  /** (lag + 1) * variance is the sum of squared window sums over the zero-padded series. */
  lemma {:induction false} BartlettIsWindowSquares(v: seq<real>, lag: nat)
    requires v != []
    ensures Times((lag + 1) as real, Estimate(v, lag)) == WindowSquares(v, lag, First(lag))
  {
    hide Times, Covariance, WindowSquares;
    FarDistances(v, lag, Min(lag, |v| - 1), lag);
    BartlettScaled(v, lag, lag);
    TriangleValue(v, lag);
    WindowSquaresAreTriangle(v, lag, First(lag));
  }

  /** The squares are nonnegative, so their sum is, and it vanishes only when every window sum does. */
  lemma {:induction false} WindowSquaresSign(v: seq<real>, lag: nat)
    ensures 0.0 <= WindowSquares(v, lag, First(lag))
    ensures WindowSquares(v, lag, First(lag)) == 0.0 ==>
              forall s :: First(lag) <= s < |v| ==> WindowSquare(v, lag)(s) == 0.0
  {
    forall s | First(lag) <= s < |v| ensures 0.0 <= WindowSquare(v, lag)(s) {
      SquareSign(Window(v, lag, s));
    }
    hide Times;
    SumRangeNonnegative(WindowSquare(v, lag), First(lag), |v|);
  }

  lemma {:induction false} SquareSign(x: real)
    ensures 0.0 <= Times(x, x)
  {
  }

  lemma {:induction false} PositiveScale(k: real, x: real)
    requires 0.0 < k && 0.0 <= Times(k, x)
    ensures 0.0 <= x && (x == 0.0 <==> Times(k, x) == 0.0)
  {
    if x < 0.0 {
      PositiveProduct(k, -x);
    } else if 0.0 < x {
      PositiveProduct(k, x);
    }
  }

  lemma {:induction false} BartlettNonnegative(v: seq<real>, lag: nat)
    requires v != []
    ensures 0.0 <= Estimate(v, lag) && (Estimate(v, lag) == 0.0 <==> WindowSquares(v, lag, First(lag)) == 0.0)
  {
    hide Times, Estimate, WindowSquares;
    BartlettIsWindowSquares(v, lag);
    WindowSquaresSign(v, lag);
    PositiveScale((lag + 1) as real, Estimate(v, lag));
  }

  ghost predicate AllZero(v: seq<real>) { forall i :: 0 <= i < |v| ==> v[i] == 0.0 }

  /** The variance vanishes exactly for the all-zero series: any deviation is charged. */
  lemma {:induction false} BartlettZero(v: seq<real>, lag: nat)
    requires v != []
    ensures Estimate(v, lag) == 0.0 <==> AllZero(v)
  {
    hide Times, Estimate;
    BartlettNonnegative(v, lag);
    WindowSquaresSign(v, lag);
    if WindowSquares(v, lag, First(lag)) == 0.0 {
      forall i | 0 <= i < |v| ensures v[i] == 0.0 {
        EntryZero(v, lag, i);
      }
    }
    if AllZero(v) {
      ZeroFactor(0.0, 0.0);
      forall s | First(lag) <= s < |v| ensures WindowSquare(v, lag)(s) == 0.0 {
        WindowOfZeros(v, lag, s);
      }
      SumRangeZero(WindowSquare(v, lag), First(lag), |v|);
    }
  }

  /** The window ending at i has no later entry, so vanishing windows force v[i] to zero in order. */
  lemma {:induction false} EntryZero(v: seq<real>, lag: nat, i: nat)
    requires i < |v| && forall s :: First(lag) <= s < |v| ==> WindowSquare(v, lag)(s) == 0.0
    ensures v[i] == 0.0
  {
    hide Times;
    forall j: nat | j < i ensures v[j] == 0.0 {
      EntryZero(v, lag, j);
    }
    var s := i - lag;
    assert WindowSquare(v, lag)(s) == 0.0;
    if lag > 0 { WindowBefore(v, lag - 1, s, i); }
    SquareZero(Window(v, lag, s));
  }

  lemma {:induction false} TimesSign(x: real, y: real)
    ensures 0.0 < x && 0.0 < y ==> 0.0 < Times(x, y)
    ensures x < 0.0 && 0.0 < y ==> Times(x, y) < 0.0
    ensures Times(0.0 - x, 0.0 - y) == Times(x, y)
  {
  }

  lemma {:induction false} SquareZero(x: real)
    ensures Times(x, x) == 0.0 ==> x == 0.0
  {
    hide Times;
    TimesSign(x, x);
    TimesSign(0.0 - x, 0.0 - x);
  }

  lemma {:induction false} WindowBefore(v: seq<real>, lag: nat, s: int, i: nat)
    requires s + lag < i <= |v| && forall j :: 0 <= j < i ==> v[j] == 0.0
    ensures Window(v, lag, s) == 0.0
  {
    if lag > 0 { WindowBefore(v, lag - 1, s, i); }
  }

  lemma {:induction false} WindowOfZeros(v: seq<real>, lag: nat, s: int)
    requires forall j :: 0 <= j < |v| ==> v[j] == 0.0
    ensures Window(v, lag, s) == 0.0
  {
    if lag > 0 { WindowOfZeros(v, lag - 1, s); }
  }

  // ---- the variance on the date axis

  const NORMAL_95 := 1.96

  datatype Hac = Hac(
    mean: real, observedDates: nat, lag: nat, variance: real, standardError: real, lower: real, upper: real)

  /** Deviations from the mean along the calendar, zero on days without a value. */
  function Centred(values: map<int, real>, calendar: seq<int>, mean: real): (v: seq<real>)
    ensures |v| == |calendar|
  {
    seq(|calendar|, (i: nat) requires i < |calendar| =>
      if calendar[i] in values then values[calendar[i]] - mean else 0.0)
  }

  function Total(values: map<int, real>, calendar: seq<int>): real
  {
    if calendar == [] then 0.0
    else
      var d := calendar[|calendar| - 1];
      Total(values, calendar[..|calendar| - 1]) + (if d in values then values[d] else 0.0)
  }

  lemma {:induction false} ObservedDay(values: map<int, real>, calendar: seq<int>)
    requires values != map[] && OnCalendar(values, calendar)
    ensures calendar != []
  {
    assert (forall d :: d !in values) ==> values == map[];
    var d :| d in values;
    assert d in calendar;
  }

  predicate OnCalendar(values: map<int, real>, calendar: seq<int>) { forall d :: d in values ==> d in calendar }

  function RealSum(v: seq<real>): real { if v == [] then 0.0 else RealSum(v[..|v| - 1]) + v[|v| - 1] }

  /** Along the calendar, how far each day's value lies from the mean; zero on days without a value. */
  ghost predicate Deviations(v: seq<real>, values: map<int, real>, calendar: seq<int>, mean: real)
  {
    && |v| == |calendar|
    && forall i :: 0 <= i < |calendar| ==>
         (calendar[i] in values ==> v[i] == values[calendar[i]] - mean) && (calendar[i] !in values ==> v[i] == 0.0)
  }

  /** Days of the calendar that have a value. */
  function Days(values: map<int, real>, calendar: seq<int>): nat
  {
    if calendar == [] then 0
    else Days(values, calendar[..|calendar| - 1]) + if calendar[|calendar| - 1] in values then 1 else 0
  }

  lemma {:induction false} DeviationSum(values: map<int, real>, calendar: seq<int>, mean: real)
    ensures RealSum(Centred(values, calendar, mean))
         == Total(values, calendar) - Times(Days(values, calendar) as real, mean)
  {
    if calendar != [] {
      var n := |calendar| - 1;
      DeviationSum(values, calendar[..n], mean);
      assert Centred(values, calendar, mean)[..n] == Centred(values, calendar[..n], mean);
      TimesNext(Days(values, calendar[..n]), mean);
    }
  }

  lemma {:induction false} TimesNext(n: nat, x: real)
    ensures Times((n + 1) as real, x) == Times(n as real, x) + x
  {
  }

  ghost function Held(values: map<int, real>, calendar: seq<int>): set<int>
  {
    set d | d in calendar && d in values
  }

  lemma {:induction false} HeldNext(values: map<int, real>, calendar: seq<int>, n: nat)
    requires Ascending(calendar) && |calendar| == n + 1
    ensures calendar[n] !in Held(values, calendar[..n])
    ensures Held(values, calendar)
         == Held(values, calendar[..n]) + if calendar[n] in values then {calendar[n]} else {}
  {
    assert calendar == calendar[..n] + [calendar[n]];
  }

  lemma {:induction false} DaysAre(values: map<int, real>, calendar: seq<int>)
    requires Ascending(calendar)
    ensures Days(values, calendar) == |Held(values, calendar)|
  {
    if calendar == [] {
      assert Held(values, calendar) == {};
    } else {
      hide Held;
      var n := |calendar| - 1;
      DaysAre(values, calendar[..n]);
      HeldNext(values, calendar, n);
    }
  }

  /** The deviations from the mean cancel. */
  lemma {:induction false} MeanCancels(values: map<int, real>, calendar: seq<int>)
    requires values != map[] && OnCalendar(values, calendar) && Ascending(calendar)
    ensures 0 < |values|
    ensures RealSum(Centred(values, calendar, Total(values, calendar) / |values| as real)) == 0.0
  {
    DaysAre(values, calendar);
    var days := Held(values, calendar);
    forall d ensures d in days <==> d in values.Keys {
    }
    assert days == values.Keys;
    DeviationSum(values, calendar, Total(values, calendar) / |values| as real);
    hide Times;
    QuotientTimes(Total(values, calendar), |values| as real);
    TimesCommute(|values| as real, Total(values, calendar) / |values| as real);
  }

  lemma {:induction false} TimesCommute(x: real, y: real)
    ensures Times(x, y) == Times(y, x)
  {
  }

  /**
   * What an accepted call reports: the mean is the one whose deviations cancel, the clamp at zero changes nothing, the
   * interval is centred on the mean, and only a constant series has a point for an interval.
   */
  ghost predicate Reports(h: Hac, values: map<int, real>, calendar: seq<int>, lag: nat)
  {
    var count := |values| as real;
    && values != map[] && h.lag == lag && h.observedDates == |values|
    && 0.0 <= h.variance
    && (exists v: seq<real> ::
          && Deviations(v, values, calendar, h.mean) && RealSum(v) == 0.0
          && Times((lag + 1) as real, Times(h.variance, Times(count, count))) == WindowSquares(v, lag, First(lag)))
    && Times(h.standardError, h.standardError) == h.variance && 0.0 <= h.standardError
    && h.upper - h.mean == h.mean - h.lower == 1.96 * h.standardError
    && (h.lower == h.upper <==> forall d :: d in values ==> values[d] == h.mean)
  }

  predicate Admissible(values: map<int, real>, calendar: seq<int>, lag: nat)
  {
    && lag in {20, 60} && Ascending(calendar)
    && OnCalendar(values, calendar)
  }

  method DateAxisHac(values: map<int, real>, calendar: seq<int>, lag: nat, root: real -> real) returns (r: Result<Hac>)
    requires IsRoot(root)
    ensures r.Ok? <==> Admissible(values, calendar, lag) && values != map[]
    ensures r.Ok? ==> Reports(r.value, values, calendar, lag)
  {
    if !Admissible(values, calendar, lag) {
      return Err("HAC_CALENDAR_INVALID");
    }
    if values == map[] {
      return Err("HAC_VALUES_INVALID");
    }
    ObservedDay(values, calendar);
    hide Times, Estimate;
    var count := |values| as real;
    var mean := Total(values, calendar) / count;
    var centred := Centred(values, calendar, mean);
    var variance := Accumulate(centred, lag);
    BartlettNonnegative(centred, lag);
    BartlettZero(centred, lag);
    BartlettIsWindowSquares(centred, lag);
    MeanCancels(values, calendar);
    Averaged(variance, count);
    ConstantSeries(values, calendar, mean);
    variance := RMax(variance, 0.0) / Times(count, count);
    var se := root(variance);
    Deviation(variance, root);
    assert Deviations(centred, values, calendar, mean);
    r := Ok(Hac(mean, |values|, lag, variance, se, mean - NORMAL_95 * se, mean + NORMAL_95 * se));
  }

  lemma {:induction false} Deviation(variance: real, root: real -> real)
    requires IsRoot(root) && 0.0 <= variance
    ensures 0.0 <= root(variance) && Times(root(variance), root(variance)) == variance
    ensures root(variance) == 0.0 <==> variance == 0.0
  {
    SquareZero(root(variance));
    ZeroFactor(root(variance), root(variance));
  }

  lemma {:induction false} Averaged(variance: real, count: real)
    requires 0.0 <= variance && 0.0 < count
    ensures 0.0 < Times(count, count) && 0.0 <= variance / Times(count, count)
    ensures variance / Times(count, count) == 0.0 <==> variance == 0.0
    ensures Times(variance / Times(count, count), Times(count, count)) == variance
  {
    hide Times;
    TimesSign(count, count);
    Quotient(variance, Times(count, count));
  }

  lemma {:induction false} QuotientTimes(x: real, y: real)
    requires y != 0.0
    ensures Times(x / y, y) == x
  {
  }

  lemma {:induction false} Quotient(x: real, y: real)
    requires 0.0 <= x && 0.0 < y
    ensures 0.0 <= x / y && (x / y == 0.0 <==> x == 0.0) && Times(x / y, y) == x
  {
    hide Times;
    QuotientTimes(x, y);
    TimesSign(x / y, y);
    ZeroFactor(x / y, y);
  }

  lemma {:induction false} ConstantSeries(values: map<int, real>, calendar: seq<int>, mean: real)
    requires OnCalendar(values, calendar)
    ensures AllZero(Centred(values, calendar, mean)) <==> forall d :: d in values ==> values[d] == mean
  {
    var v := Centred(values, calendar, mean);
    if AllZero(v) {
      forall d | d in values ensures values[d] == mean {
        assert d in calendar;
        var i :| 0 <= i < |calendar| && calendar[i] == d;
        assert v[i] == values[d] - mean;
      }
    }
    if forall d :: d in values ==> values[d] == mean {
      forall i | 0 <= i < |v| ensures v[i] == 0.0 {
      }
    }
  }

  /** The accumulation: the sum of squares first, then one weighted covariance per distance. */
  method Accumulate(v: seq<real>, lag: nat) returns (variance: real)
    requires v != []
    ensures variance == Estimate(v, lag)
  {
    hide Times, Covariance, BartlettWeight;
    variance := CovarianceLoop(v, 0);
    for distance := 1 to Min(lag, |v| - 1) + 1
      invariant variance == Bartlett(v, lag, distance - 1)
    {
      var covariance := CovarianceLoop(v, distance);
      variance := variance + Times(BartlettWeight(distance, lag), covariance);
    }
  }

  method CovarianceLoop(v: seq<real>, distance: nat) returns (covariance: real)
    requires distance <= |v|
    ensures covariance == Covariance(v, distance)
  {
    hide Times;
    covariance := 0.0;
    for i := distance to |v|
      invariant covariance == SumRange(Product(v, distance), distance, i)
    {
      covariance := covariance + Times(v[i], v[i - distance]);
    }
  }
}
