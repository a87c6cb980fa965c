/** Bounds on a full-universe Spearman coefficient whose outcomes are only partly known. */
module RankBounds {
  import opened Prelude
  import opened Sums
  import opened Ranks
  import opened RankVariance
  import opened Completions
  import opened LinearExtreme
  import opened Surds

  // ---- the coefficient being bounded

  function PositionsOf(pts: seq<real>, pool: seq<real>): (p: seq<int>)
    ensures |p| == |pts|
  {
    seq(|pts|, (i: nat) requires i < |pts| => Position(pts[i], pool))
  }

  function Positions(ys: seq<real>): (p: seq<int>)
    ensures |p| == |ys|
  {
    PositionsOf(ys, ys)
  }

  /** Spearman's coefficient with average ranks: covariance over the root of the two variances. */
  function Spearman(scores: seq<real>, full: seq<real>): Surd
    requires |scores| == |full|
  {
    Surd(Dot(Positions(scores), Positions(full)), SquareSum(scores) * SquareSum(full))
  }

  lemma {:induction false} PositionSums(pts: seq<real>, pool: seq<real>)
    ensures Dot(PositionsOf(pts, pool), PositionsOf(pts, pool)) == SumOver(SquaredPosition(pool), pts)
    ensures Total(PositionsOf(pts, pool)) == SumOver(PositionIn(pool), pts)
  {
    if pts != [] {
      var n := |pts| - 1;
      PositionSums(pts[..n], pool);
      assert PositionsOf(pts, pool)[..n] == PositionsOf(pts[..n], pool);
    }
  }

  /** A coefficient of two varying vectors lies in [-1, 1]. */
  lemma {:induction false} SpearmanRange(scores: seq<real>, full: seq<real>)
    requires |scores| == |full| && 0 < SquareSum(scores) && 0 < SquareSum(full)
    ensures Spearman(scores, full).Valid()
    ensures LessEq(MINUS_ONE, Spearman(scores, full)) && LessEq(Spearman(scores, full), ONE)
  {
    CauchySchwarz(Positions(scores), Positions(full));
    PositionSums(scores, scores);
    PositionSums(full, full);
    Scale(1, SquareSum(scores), SquareSum(full));
  }

  // ---- variance extremes over all completions

  /** qmax of the source: every unknown untied. */
  function QMax(outcomes: Outcomes): int
  {
    Mass(|outcomes|) - MassSum(Counter(Known(outcomes)))
  }

  /** The mass gained when m members join a tie of size l. */
  function Gain(l: nat, m: nat): int { Mass(l + m) - Mass(l) }

  /** qmin of the source: every unknown joins the largest known tie. */
  function QMin(outcomes: Outcomes): int
  {
    QMax(outcomes) - Gain(Largest(Counter(Known(outcomes))), Missing(outcomes))
  }

  /** The source's integer divisions by three are exact. */
  lemma {:induction false} ExactThirds(ties: seq<Tally>, n: nat, largest: nat, joined: nat)
    requires largest <= joined
    ensures (n * n * n - n - CubeSum(ties)) / 3 == Mass(n) - MassSum(ties)
    ensures (joined * joined * joined - joined - (largest * largest * largest - largest)) / 3
         == Gain(largest, joined - largest)
  {
    CubeSumValue(ties);
    MassValue(n);
    MassValue(largest);
    MassValue(joined);
  }

  lemma {:induction false} GainStep(l: nat, m: nat)
    ensures Gain(l, m + 1) == Gain(l, m) + Pairs(l + m + 1)
  {
    assert l + (m + 1) == l + m + 1;
  }

  /** Each added value raises the tie sum by what its own tie group then holds. */
  lemma {:induction false} TieStep(s: seq<real>, y: real, l: nat)
    requires Largest(Counter(s)) <= l
    ensures MassSum(Counter(s)) <= MassSum(Counter(s + [y])) <= MassSum(Counter(s)) + Pairs(l + 1)
    ensures Largest(Counter(s + [y])) <= l + 1
  {
    assert (s + [y])[..|s + [y]| - 1] == s;
    var e := Equal(y, s);
    CounterCounts(s, y);
    PositionCounts(y, s);
    BumpEffect(Counter(s), y, y);
    PairsMonotone(e + 1, l + 1);
  }

  lemma {:induction false} AddingTies(k: seq<real>, h: seq<real>, l: nat)
    requires Largest(Counter(k)) <= l
    ensures MassSum(Counter(k)) <= MassSum(Counter(k + h)) <= MassSum(Counter(k)) + Gain(l, |h|)
    ensures Largest(Counter(k + h)) <= l + |h|
  {
    hide Counter, MassSum, Largest, Pairs;
    if h == [] {
      assert k + h == k;
    } else {
      var t, y := h[..|h| - 1], h[|h| - 1];
      AddingTies(k, t, l);
      TieStep(k + t, y, l + |t|);
      GainStep(l, |t|);
      assert k + h == (k + t) + [y];
    }
  }

  /** Joining the largest tie adds the most, one tie at a time. */
  lemma {:induction false} JoinOne(s: seq<real>, y: real, e: nat)
    requires e == Equal(y, s)
    ensures MassSum(Counter(s + [y])) == MassSum(Counter(s)) + Pairs(e + 1)
    ensures Equal(y, s + [y]) == e + 1
  {
    assert (s + [y])[..|s + [y]| - 1] == s;
    CounterCounts(s, y);
    BumpEffect(Counter(s), y, y);
  }

  function Joined(k: seq<real>, y: real, m: nat): seq<real>
  {
    if m == 0 then k else Joined(k, y, m - 1) + [y]
  }

  ghost predicate TiedMass(k: seq<real>, y: real, m: nat, e: nat)
  {
    MassSum(Counter(Joined(k, y, m))) == MassSum(Counter(k)) + Gain(e, m) && Equal(y, Joined(k, y, m)) == e + m
  }

  lemma {:induction false} JoinStep(k: seq<real>, y: real, m: nat, e: nat)
    requires TiedMass(k, y, m, e)
    ensures TiedMass(k, y, m + 1, e)
  {
    JoinOne(Joined(k, y, m), y, e + m);
    GainStep(e, m);
  }

  lemma {:induction false} JoiningTies(k: seq<real>, y: real, m: nat, e: nat)
    requires e == Equal(y, k)
    ensures TiedMass(k, y, m, e)
  {
    if m > 0 {
      JoiningTies(k, y, m - 1, e);
      JoinStep(k, y, m - 1, e);
    }
  }

  lemma {:induction false} JoinedSplit(k: seq<real>, y: real, m: nat) returns (hidden: seq<real>)
    ensures |hidden| == m && Joined(k, y, m) == k + hidden
  {
    hidden := [];
    if m > 0 {
      var h := JoinedSplit(k, y, m - 1);
      hidden := h + [y];
    }
  }

  function Fresh(base: real, m: nat): (h: seq<real>) { seq(m, (j: nat) => base + (j + 1) as real) }

  /** New distinct values above everything known add no tie. */
  lemma {:induction false} FreshUntied(k: seq<real>, base: real, m: nat)
    requires forall i :: 0 <= i < |k| ==> k[i] <= base
    ensures MassSum(Counter(k + Fresh(base, m))) == MassSum(Counter(k))
  {
    if m == 0 {
      assert k + Fresh(base, m) == k;
    } else {
      var s, y := k + Fresh(base, m - 1), base + m as real;
      assert (k + Fresh(base, m))[..|k + Fresh(base, m)| - 1] == s;
      FreshUntied(k, base, m - 1);
      SumConstant(Tied(y), 0, s);
      CounterCounts(s, y);
      BumpEffect(Counter(s), y, y);
    }
  }

  lemma {:induction false} UpperEnd(k: seq<real>) returns (base: real)
    ensures forall i :: 0 <= i < |k| ==> k[i] <= base
  {
    base := 0.0;
    if k != [] {
      var b := UpperEnd(k[..|k| - 1]);
      base := RMax(b, k[|k| - 1]);
      forall i | 0 <= i < |k| ensures k[i] <= base {
        assert i == |k| - 1 || k[i] == k[..|k| - 1][i];
      }
    }
  }

  lemma {:induction false} CompletionVariance(outcomes: Outcomes, full: seq<real>)
    requires Completes(outcomes, full)
    ensures SquareSum(full) == Mass(|full|) - MassSum(Counter(Known(outcomes) + Hidden(outcomes, full)))
  {
    var k, h := Known(outcomes), Hidden(outcomes, full);
    CompletionSplits(outcomes, full);
    assert multiset(k + h) == multiset(k) + multiset(h);
    SquareSumPermutation(full, k + h);
    SquareSumFormula(k + h);
  }

  /** qmax is reached: all unknowns distinct and new. */
  lemma {:induction false} QMaxAttained(outcomes: Outcomes) returns (full: seq<real>)
    ensures Completes(outcomes, full) && SquareSum(full) == QMax(outcomes)
  {
    var k := Known(outcomes);
    var base := UpperEnd(k);
    var hidden := Fresh(base, Missing(outcomes));
    full := Fill(outcomes, hidden);
    FillCompletes(outcomes, hidden);
    CompletionVariance(outcomes, full);
    FreshUntied(k, base, Missing(outcomes));
  }

  /** qmin is reached: all unknowns join the largest known tie. */
  lemma {:induction false} QMinAttained(outcomes: Outcomes) returns (full: seq<real>)
    requires Known(outcomes) != []
    ensures Completes(outcomes, full) && SquareSum(full) == QMin(outcomes)
  {
    var k, m := Known(outcomes), Missing(outcomes);
    var y := LargestReached(k);
    var hidden := JoinedSplit(k, y, m);
    full := Fill(outcomes, hidden);
    FillCompletes(outcomes, hidden);
    CompletionVariance(outcomes, full);
    JoiningTies(k, y, m, Largest(Counter(k)));
  }

  /** Every completion's rank variance lies in [qmin, qmax]. */
  lemma {:induction false} VarianceBounded(outcomes: Outcomes, full: seq<real>)
    requires Completes(outcomes, full)
    ensures QMin(outcomes) <= SquareSum(full) <= QMax(outcomes)
  {
    var k, h := Known(outcomes), Hidden(outcomes, full);
    CompletionVariance(outcomes, full);
    var l := Largest(Counter(k));
    AddingTies(k, h, l);
  }

  lemma {:induction false} VarianceOrdered(outcomes: Outcomes)
    ensures QMin(outcomes) <= QMax(outcomes)
  {
    var full := QMaxAttained(outcomes);
    VarianceBounded(outcomes, full);
  }

  ghost predicate AllTied(ys: seq<real>)
  {
    forall i, j :: 0 <= i < |ys| && 0 <= j < |ys| ==> ys[i] == ys[j]
  }

  /** qmin vanishes exactly when some completion ties every outcome. */
  lemma {:induction false} QMinZero(outcomes: Outcomes)
    requires Known(outcomes) != []
    ensures 0 <= QMin(outcomes)
    ensures QMin(outcomes) == 0 <==> exists full :: Completes(outcomes, full) && AllTied(full)
  {
    var least := QMinAttained(outcomes);
    SquareSumZero(least);
    if full :| Completes(outcomes, full) && AllTied(full) {
      SquareSumZero(full);
      VarianceBounded(outcomes, full);
    }
  }

  // ---- rank boxes

  function LowerBox(outcomes: Outcomes): (b: seq<int>)
    ensures |b| == |outcomes|
  {
    seq(|outcomes|, (i: nat) requires i < |outcomes| =>
      if outcomes[i].None? then -(|outcomes| - 1)
      else Position(outcomes[i].value, Known(outcomes)) - Missing(outcomes))
  }

  function UpperBox(outcomes: Outcomes): (b: seq<int>)
    ensures |b| == |outcomes|
  {
    seq(|outcomes|, (i: nat) requires i < |outcomes| =>
      if outcomes[i].None? then |outcomes| - 1
      else Position(outcomes[i].value, Known(outcomes)) + Missing(outcomes))
  }

  /** The centred ranks of any completion are a cancelling point of the boxes. */
  lemma {:induction false} CompletionFeasible(outcomes: Outcomes, full: seq<real>)
    requires Completes(outcomes, full)
    ensures Feasible(Positions(full), LowerBox(outcomes), UpperBox(outcomes))
  {
    var c := Positions(full);
    forall i | 0 <= i < |c| ensures LowerBox(outcomes)[i] <= c[i] <= UpperBox(outcomes)[i] {
      PositionCounts(full[i], full);
      CountsSplit(outcomes, full, full[i]);
      PositionCounts(full[i], Hidden(outcomes, full));
    }
    PositionSums(full, full);
    PositionsCancel(full);
  }

  // ---- the boxes are exact

  /** b is the least centred rank row i has in any completion. */
  ghost predicate LeastRank(outcomes: Outcomes, i: nat, b: int)
    requires i < |outcomes|
  {
    && (exists full :: Completes(outcomes, full) && Positions(full)[i] == b)
    && (forall full :: Completes(outcomes, full) ==> b <= Positions(full)[i])
  }

  /** b is the greatest centred rank row i has in any completion. */
  ghost predicate GreatestRank(outcomes: Outcomes, i: nat, b: int)
    requires i < |outcomes|
  {
    && (exists full :: Completes(outcomes, full) && Positions(full)[i] == b)
    && (forall full :: Completes(outcomes, full) ==> Positions(full)[i] <= b)
  }

  /** Two ends for every row: its least and its greatest centred rank over all completions. */
  ghost predicate RankEnds(lower: seq<int>, upper: seq<int>, outcomes: Outcomes)
  {
    && |lower| == |upper| == |outcomes|
    && forall i :: 0 <= i < |outcomes| ==> LeastRank(outcomes, i, lower[i]) && GreatestRank(outcomes, i, upper[i])
  }

  lemma {:induction false} AloneBelow(pool: seq<real>, i: nat)
    requires i < |pool| && forall j :: 0 <= j < |pool| && j != i ==> pool[i] < pool[j]
    ensures Position(pool[i], pool) == -(|pool| - 1)
  {
    AloneAt(pool[i], pool, i, -1);
  }

  lemma {:induction false} AloneAbove(pool: seq<real>, i: nat)
    requires i < |pool| && forall j :: 0 <= j < |pool| && j != i ==> pool[j] < pool[i]
    ensures Position(pool[i], pool) == |pool| - 1
  {
    AloneAt(pool[i], pool, i, 1);
  }

  /** A member that compares alike with all the others. */
  lemma {:induction false} AloneAt(v: real, pool: seq<real>, i: nat, side: int)
    requires i < |pool| && pool[i] == v && forall j :: 0 <= j < |pool| && j != i ==> Sgn(v, pool[j]) == side
    ensures Position(v, pool) == side * (|pool| - 1)
  {
    var n := |pool| - 1;
    if i < n {
      AloneAt(v, pool[..n], i, side);
      assert SgnFrom(v)(pool[n]) == side;
      assert side * n == side * (n - 1) + side;
    } else {
      forall j | 0 <= j < n ensures SgnFrom(v)(pool[..n][j]) == side {
        assert Sgn(v, pool[j]) == side;
      }
      SumConstant(SgnFrom(v), side, pool[..n]);
    }
  }

  /** A known row is lowest with every unknown above it, and highest with every unknown below it. */
  lemma {:induction false} KnownEnds(outcomes: Outcomes, i: nat) returns (low: seq<real>, high: seq<real>)
    requires i < |outcomes| && outcomes[i].Some?
    ensures Completes(outcomes, low) && Positions(low)[i] == LowerBox(outcomes)[i]
    ensures Completes(outcomes, high) && Positions(high)[i] == UpperBox(outcomes)[i]
  {
    var v, m := outcomes[i].value, Missing(outcomes);
    var above, below := seq(m, _ => v + 1.0), seq(m, _ => v - 1.0);
    SumConstant(SgnFrom(v), -1, above);
    SumConstant(SgnFrom(v), 1, below);
    FillCompletes(outcomes, above);
    FillCompletes(outcomes, below);
    low, high := Fill(outcomes, above), Fill(outcomes, below);
    CountsSplit(outcomes, low, v);
    CountsSplit(outcomes, high, v);
  }

  /** The completion that puts one unknown row at v and every other one at w. */
  ghost function Placing(outcomes: Outcomes, i: nat, v: real, w: real): (full: seq<real>)
    ensures Completes(outcomes, full)
    ensures i < |outcomes| && outcomes[i].None? ==> full[i] == v
    ensures forall j :: 0 <= j < |full| && j != i && outcomes[j].None? ==> full[j] == w
  {
    seq(|outcomes|, (j: nat) requires j < |outcomes| =>
      if outcomes[j].Some? then outcomes[j].value else if j == i then v else w)
  }

  /** A number below all the others and one above them. */
  lemma {:induction false} Outside(outcomes: Outcomes) returns (low: real, high: real)
    ensures forall j :: 0 <= j < |outcomes| && outcomes[j].Some? ==> low < outcomes[j].value < high
  {
    low, high := 0.0, 0.0;
    if outcomes != [] {
      var n := |outcomes| - 1;
      low, high := Outside(outcomes[..n]);
      forall j | 0 <= j < n && outcomes[j].Some? ensures low < outcomes[j].value < high {
        assert outcomes[..n][j] == outcomes[j];
      }
      if outcomes[n].Some? {
        low, high := RMin(low, outcomes[n].value - 1.0), RMax(high, outcomes[n].value + 1.0);
      }
    }
  }

  /** An unknown row can be below or above all the others. */
  lemma {:induction false} UnknownEnds(outcomes: Outcomes, i: nat) returns (low: seq<real>, high: seq<real>)
    requires i < |outcomes| && outcomes[i].None?
    ensures Completes(outcomes, low) && Positions(low)[i] == LowerBox(outcomes)[i]
    ensures Completes(outcomes, high) && Positions(high)[i] == UpperBox(outcomes)[i]
  {
    var l, h := Outside(outcomes);
    low, high := Placing(outcomes, i, l, l + 1.0), Placing(outcomes, i, h, h - 1.0);
    forall j | 0 <= j < |low| && j != i && outcomes[j].Some? ensures low[i] < low[j] && high[j] < high[i] {
    }
    AloneBelow(low, i);
    AloneAbove(high, i);
  }

  /** Both ends of every box are reached, so the boxes are exactly the ends. */
  lemma {:induction false} BoxesExact(outcomes: Outcomes)
    ensures RankEnds(LowerBox(outcomes), UpperBox(outcomes), outcomes)
  {
    forall i | 0 <= i < |outcomes|
      ensures LeastRank(outcomes, i, LowerBox(outcomes)[i]) && GreatestRank(outcomes, i, UpperBox(outcomes)[i]) {
      BoxExact(outcomes, i);
    }
  }

  lemma {:induction false} BoxExact(outcomes: Outcomes, i: nat)
    requires i < |outcomes|
    ensures LeastRank(outcomes, i, LowerBox(outcomes)[i]) && GreatestRank(outcomes, i, UpperBox(outcomes)[i])
  {
    var low, high;
    if outcomes[i].Some? {
      low, high := KnownEnds(outcomes, i);
    } else {
      low, high := UnknownEnds(outcomes, i);
    }
    hide LowerBox, UpperBox, Positions;
    forall full | Completes(outcomes, full)
      ensures LowerBox(outcomes)[i] <= Positions(full)[i] <= UpperBox(outcomes)[i] {
      CompletionFeasible(outcomes, full);
    }
  }

  // ---- the reported bounds

  datatype Bounds = Bounds(
    lower: Option<Surd>, upper: Option<Surd>, point: Option<Surd>,
    universeSize: nat, observedCount: nat, unknownCount: nat,
    sharp: bool, containsUndefined: bool, reason: Option<string>,
    variance: Option<(int, int)>, covariance: Option<(int, int)>)

  /** The ratio of a covariance to its variances, before rounding. */
  function Ratio(numerator: int, qx: int, qy: int): Surd { Clip(Surd(numerator, qx * qy)) }

  function LowerOf(clo: int, qx: int, qmin: int, qmax: int): Surd
  {
    Least(Ratio(clo, qx, qmin), Ratio(clo, qx, qmax))
  }

  function UpperOf(chi: int, qx: int, qmin: int, qmax: int): Surd
  {
    Greatest(Ratio(chi, qx, qmin), Ratio(chi, qx, qmax))
  }

  lemma {:induction false} LeastBelow(a: Surd, b: Surd, r: Surd)
    requires a.Valid() && b.Valid() && r.Valid() && (LessEq(a, r) || LessEq(b, r))
    ensures LessEq(Least(a, b), r)
  {
    if LessEq(a, b) {
      if LessEq(b, r) { Transitive(a, b, r); }
    } else if LessEq(a, r) {
      Transitive(b, a, r);
    }
  }

  lemma {:induction false} GreatestAbove(a: Surd, b: Surd, r: Surd)
    requires a.Valid() && b.Valid() && r.Valid() && (LessEq(r, a) || LessEq(r, b))
    ensures LessEq(r, Greatest(a, b))
  {
    if LessEq(a, b) {
      if LessEq(r, a) { Transitive(r, a, b); }
    } else if LessEq(r, b) {
      Transitive(r, b, a);
    }
  }

  lemma {:induction false} Denominator(qx: int, q: int)
    requires 0 < qx && 0 < q
    ensures 0 < qx * q
  {
  }

  /** Covariance and variance extremes bound any one coefficient. */
  lemma {:induction false} BoundOne(n: int, qx: int, q: int, clo: int, chi: int, qmin: int, qmax: int)
    requires 0 < qx && 0 < qmin <= q <= qmax && clo <= n <= chi
    requires LessEq(MINUS_ONE, Surd(n, qx * q)) && LessEq(Surd(n, qx * q), ONE)
    ensures LessEq(LowerOf(clo, qx, qmin, qmax), Surd(n, qx * q))
    ensures LessEq(Surd(n, qx * q), UpperOf(chi, qx, qmin, qmax))
  {
    var r := Surd(n, qx * q);
    Denominator(qx, q);
    Denominator(qx, qmin);
    Denominator(qx, qmax);
    LowerFraction(clo, n, qx, q, qmin, qmax);
    UpperFraction(chi, n, qx, q, qmin, qmax);
    ClipBound(Surd(clo, qx * qmin), r);
    ClipBound(Surd(clo, qx * qmax), r);
    ClipBound(Surd(chi, qx * qmin), r);
    ClipBound(Surd(chi, qx * qmax), r);
    ClipRange(Surd(clo, qx * qmin));
    ClipRange(Surd(clo, qx * qmax));
    ClipRange(Surd(chi, qx * qmin));
    ClipRange(Surd(chi, qx * qmax));
    LeastBelow(Ratio(clo, qx, qmin), Ratio(clo, qx, qmax), r);
    GreatestAbove(Ratio(chi, qx, qmin), Ratio(chi, qx, qmax), r);
  }

  /** What the covariance extremes are: exact extremes of the covariance over the rank boxes. */
  ghost predicate Extremes(clo: int, chi: int, scores: seq<real>, outcomes: Outcomes)
    requires |scores| == |outcomes|
  {
    && IsExtreme(clo, Positions(scores), LowerBox(outcomes), UpperBox(outcomes), false)
    && IsExtreme(chi, Positions(scores), LowerBox(outcomes), UpperBox(outcomes), true)
  }

  /** Every completion's exact coefficient lies between the bounds. */
  lemma {:induction false} BoundsSound(scores: seq<real>, outcomes: Outcomes, full: seq<real>, clo: int, chi: int)
    requires |scores| == |outcomes| && Completes(outcomes, full) && Known(outcomes) != []
    requires 0 < SquareSum(scores) && 0 < QMin(outcomes) && Extremes(clo, chi, scores, outcomes)
    ensures var qx, qmin, qmax := SquareSum(scores), QMin(outcomes), QMax(outcomes);
            && 0 < SquareSum(full)
            && LessEq(LowerOf(clo, qx, qmin, qmax), Spearman(scores, full))
            && LessEq(Spearman(scores, full), UpperOf(chi, qx, qmin, qmax))
  {
    hide SquareSum, Dot, QMin, QMax;
    VarianceBounded(outcomes, full);
    CompletionFeasible(outcomes, full);
    SpearmanRange(scores, full);
    BoundOne(Dot(Positions(scores), Positions(full)), SquareSum(scores), SquareSum(full),
             clo, chi, QMin(outcomes), QMax(outcomes));
  }

  /** The same for all completions at once; and the bounds are never reversed. */
  lemma {:induction false} BoundsHold(scores: seq<real>, outcomes: Outcomes, clo: int, chi: int)
    requires |scores| == |outcomes| && Known(outcomes) != []
    requires 0 < SquareSum(scores) && 0 < QMin(outcomes) && Extremes(clo, chi, scores, outcomes)
    ensures Bounding(LowerOf(clo, SquareSum(scores), QMin(outcomes), QMax(outcomes)),
                     UpperOf(chi, SquareSum(scores), QMin(outcomes), QMax(outcomes)), scores, outcomes)
  {
    var lower := LowerOf(clo, SquareSum(scores), QMin(outcomes), QMax(outcomes));
    var upper := UpperOf(chi, SquareSum(scores), QMin(outcomes), QMax(outcomes));
    forall full | Completes(outcomes, full)
      ensures && 0 < SquareSum(full)
              && LessEq(lower, Spearman(scores, full)) && LessEq(Spearman(scores, full), upper)
    {
      BoundsSound(scores, outcomes, full, clo, chi);
    }
    BoundsOrdered(scores, outcomes, clo, chi);
  }

  /** lower and upper are in order and enclose the defined coefficient of every completion. */
  ghost predicate Bounding(lower: Surd, upper: Surd, scores: seq<real>, outcomes: Outcomes)
    requires |scores| == |outcomes|
  {
    && LessEq(lower, upper)
    && 0 < SquareSum(scores)
    && forall full :: Completes(outcomes, full) ==>
         && 0 < SquareSum(full)
         && LessEq(lower, Spearman(scores, full))
         && LessEq(Spearman(scores, full), upper)
  }

  method Covariances(scores: seq<real>, outcomes: Outcomes, x: seq<int>, lower: seq<int>, upper: seq<int>)
    returns (clo: int, chi: int)
    requires |scores| == |outcomes| && x == Positions(scores)
    requires lower == LowerBox(outcomes) && upper == UpperBox(outcomes)
    ensures Extremes(clo, chi, scores, outcomes)
  {
    ghost var top := QMaxAttained(outcomes);
    CompletionFeasible(outcomes, top);
    BoxesOrdered(outcomes, top);
    FeasibleBrackets(Positions(top), lower, upper);
    var low := Extreme(x, lower, upper, false);
    var high := Extreme(x, lower, upper, true);
    clo, chi := low.value, high.value;
  }

  lemma {:induction false} BoxesOrdered(outcomes: Outcomes, full: seq<real>)
    requires Completes(outcomes, full)
    ensures Within(LowerBox(outcomes), UpperBox(outcomes))
  {
    CompletionFeasible(outcomes, full);
    forall i | 0 <= i < |full| ensures LowerBox(outcomes)[i] <= UpperBox(outcomes)[i] {
      assert LowerBox(outcomes)[i] <= Positions(full)[i] <= UpperBox(outcomes)[i];
    }
  }

  lemma {:induction false} BoundsOrdered(scores: seq<real>, outcomes: Outcomes, clo: int, chi: int)
    requires |scores| == |outcomes| && Known(outcomes) != []
    requires 0 < SquareSum(scores) && 0 < QMin(outcomes) && Extremes(clo, chi, scores, outcomes)
    ensures var qx, qmin, qmax := SquareSum(scores), QMin(outcomes), QMax(outcomes);
            LessEq(LowerOf(clo, qx, qmin, qmax), UpperOf(chi, qx, qmin, qmax))
  {
    var full := QMaxAttained(outcomes);
    VarianceBounded(outcomes, full);
    BoundsSound(scores, outcomes, full, clo, chi);
    SpearmanRange(scores, full);
    var qx, qmin, qmax := SquareSum(scores), QMin(outcomes), QMax(outcomes);
    Denominator(qx, qmin);
    Denominator(qx, qmax);
    ClipRange(Surd(clo, qx * qmin));
    ClipRange(Surd(clo, qx * qmax));
    ClipRange(Surd(chi, qx * qmin));
    ClipRange(Surd(chi, qx * qmax));
    Transitive(LowerOf(clo, qx, qmin, qmax), Spearman(scores, full), UpperOf(chi, qx, qmin, qmax));
  }

  /** The doubled ranks of a list as integers, less a shift. */
  method DoubledRanks(values: seq<real>, shift: int) returns (x: seq<int>)
    requires values != []
    ensures |x| == |values|
    ensures forall i :: 0 <= i < |x| ==> x[i] == Position(values[i], values) + |values| + 1 - shift
  {
    var ranks := AverageRanks(values);
    x := seq(|values|, (i: nat) requires i < |values| => (2.0 * ranks.value[i]).Floor - shift);
    forall i | 0 <= i < |x| ensures x[i] == Position(values[i], values) + |values| + 1 - shift {
      CentredRank(values[i], values);
      assert 2.0 * Rank(values[i], values) == (Position(values[i], values) + |values| + 1) as real;
    }
  }

  // ---- what the reported numbers are, over all completions

  /** The least and the greatest rank variance of any completion. */
  ghost predicate VarianceRange(qmin: int, qmax: int, outcomes: Outcomes)
  {
    && (exists full :: Completes(outcomes, full) && SquareSum(full) == qmin)
    && (exists full :: Completes(outcomes, full) && SquareSum(full) == qmax)
    && (forall full :: Completes(outcomes, full) ==> qmin <= SquareSum(full) <= qmax)
  }

  /** The extremes of the covariance over all cancelling points between the rows' own extreme ranks. */
  ghost predicate CovarianceRange(clo: int, chi: int, scores: seq<real>, outcomes: Outcomes)
    requires |scores| == |outcomes|
  {
    exists lower, upper ::
      && RankEnds(lower, upper, outcomes)
      && IsExtreme(clo, Positions(scores), lower, upper, false)
      && IsExtreme(chi, Positions(scores), lower, upper, true)
  }

  /** The least clipped ratio of a numerator from c on to a squared denominator between two ends, and it is reached. */
  ghost predicate LeastRatio(s: Surd, c: int, dmin: int, dmax: int)
  {
    && (s == Clip(Surd(c, dmin)) || s == Clip(Surd(c, dmax)))
    && forall n, d :: c <= n && dmin <= d <= dmax ==> LessEq(s, Clip(Surd(n, d)))
  }

  ghost predicate GreatestRatio(s: Surd, c: int, dmin: int, dmax: int)
  {
    && (s == Clip(Surd(c, dmin)) || s == Clip(Surd(c, dmax)))
    && forall n, d :: n <= c && dmin <= d <= dmax ==> LessEq(Clip(Surd(n, d)), s)
  }

  /** Every reported number is the extreme its name says, over all completions; nothing looser will do. */
  ghost predicate Exact(b: Bounds, scores: seq<real>, outcomes: Outcomes)
    requires |scores| == |outcomes|
  {
    && b.variance.Some? && b.covariance.Some? && b.lower.Some? && b.upper.Some?
    && var (qmin, qmax) := b.variance.value;
       var (clo, chi) := b.covariance.value;
       var qx := SquareSum(scores);
       && VarianceRange(qmin, qmax, outcomes) && CovarianceRange(clo, chi, scores, outcomes)
       && LeastRatio(b.lower.value, clo, qx * qmin, qx * qmax)
       && GreatestRatio(b.upper.value, chi, qx * qmin, qx * qmax)
  }

  lemma {:induction false} EndsExact(clo: int, chi: int, qx: int, qmin: int, qmax: int)
    requires 0 < qx && 0 < qmin <= qmax
    ensures LeastRatio(LowerOf(clo, qx, qmin, qmax), clo, qx * qmin, qx * qmax)
    ensures GreatestRatio(UpperOf(chi, qx, qmin, qmax), chi, qx * qmin, qx * qmax)
  {
    Denominator(qx, qmin);
    Scale(qmin, qmax, qx);
    var dmin, dmax := qx * qmin, qx * qmax;
    assert dmin == qmin * qx && dmax == qmax * qx;
    hide Clip, LessEq;
    forall n, d | clo <= n && dmin <= d <= dmax ensures LessEq(LowerOf(clo, qx, qmin, qmax), Clip(Surd(n, d))) {
      NestedEnds(n, 1, d, clo, dmin, dmax);
      assert Ratio(n, 1, d) == Clip(Surd(n, d)) && LowerOf(clo, 1, dmin, dmax) == LowerOf(clo, qx, qmin, qmax);
    }
    forall n, d | n <= chi && dmin <= d <= dmax ensures LessEq(Clip(Surd(n, d)), UpperOf(chi, qx, qmin, qmax)) {
      NestedTops(n, 1, d, chi, dmin, dmax);
      assert Ratio(n, 1, d) == Clip(Surd(n, d)) && UpperOf(chi, 1, dmin, dmax) == UpperOf(chi, qx, qmin, qmax);
    }
  }

  lemma {:induction false} RangesExact(scores: seq<real>, outcomes: Outcomes, clo: int, chi: int)
    requires |scores| == |outcomes| && Known(outcomes) != [] && Extremes(clo, chi, scores, outcomes)
    ensures VarianceRange(QMin(outcomes), QMax(outcomes), outcomes) && CovarianceRange(clo, chi, scores, outcomes)
  {
    hide *;
    VariancesExact(outcomes);
    BoxesExact(outcomes);
    CovariancesExact(scores, outcomes, clo, chi);
  }

  lemma {:induction false} VariancesExact(outcomes: Outcomes)
    requires Known(outcomes) != []
    ensures VarianceRange(QMin(outcomes), QMax(outcomes), outcomes)
  {
    var least := QMinAttained(outcomes);
    var most := QMaxAttained(outcomes);
    hide QMin, QMax, SquareSum;
    forall full | Completes(outcomes, full) ensures QMin(outcomes) <= SquareSum(full) <= QMax(outcomes) {
      VarianceBounded(outcomes, full);
    }
  }

  lemma {:induction false} CovariancesExact(scores: seq<real>, outcomes: Outcomes, clo: int, chi: int)
    requires |scores| == |outcomes| && Extremes(clo, chi, scores, outcomes)
    requires RankEnds(LowerBox(outcomes), UpperBox(outcomes), outcomes)
    ensures CovarianceRange(clo, chi, scores, outcomes)
  {
    hide RankEnds, IsExtreme, LowerBox, UpperBox, Positions;
  }

  /** The loop over the outcomes that fills both boxes. */
  method Boxes(outcomes: Outcomes, known: seq<real>) returns (lower: seq<int>, upper: seq<int>)
    requires known == Known(outcomes) && known != []
    ensures lower == LowerBox(outcomes) && upper == UpperBox(outcomes)
  {
    var n, missing := |outcomes|, |outcomes| - |known|;
    var ranks := DoubledRanks(known, n + 1);
    var next := 0;
    lower, upper := [], [];
    for i := 0 to n
      invariant |lower| == |upper| == i && next == |Known(outcomes[..i])| <= |known|
      invariant forall j :: 0 <= j < i ==> lower[j] == LowerBox(outcomes)[j]
      invariant forall j :: 0 <= j < i ==> upper[j] == UpperBox(outcomes)[j]
    {
      KnownOrder(outcomes, i);
      if outcomes[i].None? {
        lower, upper := lower + [-(n - 1)], upper + [n - 1];
      } else {
        var lo := ranks[next];
        next := next + 1;
        lower, upper := lower + [lo], upper + [lo + 2 * missing];
      }
    }
  }

  /** ties, qmax, largest and qmin, by the source's integer arithmetic. */
  method VarianceEnds(outcomes: Outcomes, known: seq<real>) returns (qmin: int, qmax: int)
    requires known == Known(outcomes)
    ensures qmin == QMin(outcomes) && qmax == QMax(outcomes)
  {
    var n, missing := |outcomes|, |outcomes| - |known|;
    var ties := Counter(known);
    qmax := (n * n * n - n - CubeSum(ties)) / 3;
    var largest := Largest(ties);
    var joined := largest + missing;
    qmin := qmax - (joined * joined * joined - joined - (largest * largest * largest - largest)) / 3;
    ExactThirds(ties, n, largest, joined);
  }

  /** The bounds: accepted inputs always get an answer, and no later internal check can fire. */
  method RankIcBounds(scores: seq<real>, outcomes: Outcomes) returns (r: Result<Bounds>)
    ensures r.Ok? <==> |scores| == |outcomes| >= 2
    ensures r.Ok? ==> var b := r.value;
      && b.universeSize == |outcomes| && b.observedCount == |Known(outcomes)|
      && b.unknownCount == Missing(outcomes) && (b.sharp <==> Missing(outcomes) == 0)
      && (b.lower.Some? <==> b.upper.Some?) && (b.containsUndefined <==> b.lower.None?)
      && (b.reason.Some? <==> b.lower.None?)
    // bounds are withheld exactly when some completion has no defined coefficient
    ensures r.Ok? ==> (r.value.lower.None?
      <==> AllTied(scores) || exists full :: Completes(outcomes, full) && AllTied(full))
    ensures r.Ok? ==> (r.value.reason == Some("CONSTANT_PREDICTION_RANKS") <==> AllTied(scores))
    ensures r.Ok? ==> (r.value.reason == Some("NO_IDENTIFIED_OUTCOMES")
      <==> !AllTied(scores) && Known(outcomes) == [])
    // soundness over every completion
    ensures r.Ok? && r.value.lower.Some? ==>
      Bounding(r.value.lower.value, r.value.upper.value, scores, outcomes)
    // the point is the coefficient itself, reported exactly when nothing is missing
    ensures r.Ok? ==> (r.value.point.Some? <==> r.value.lower.Some? && Missing(outcomes) == 0)
    ensures r.Ok? && r.value.point.Some? ==> r.value.lower == r.value.upper == r.value.point
    // otherwise the ends are exact functions of the two pairs of extremes
    ensures r.Ok? && r.value.lower.Some? && 0 < Missing(outcomes) ==>
      && r.value.variance == Some((QMin(outcomes), QMax(outcomes)))
      && r.value.covariance.Some?
      && var (clo, chi) := r.value.covariance.value;
         && Extremes(clo, chi, scores, outcomes)
         && r.value.lower == Some(LowerOf(clo, SquareSum(scores), QMin(outcomes), QMax(outcomes)))
         && r.value.upper == Some(UpperOf(chi, SquareSum(scores), QMin(outcomes), QMax(outcomes)))
    // and all of them are the extremes over every completion
    ensures r.Ok? && r.value.lower.Some? && 0 < Missing(outcomes) ==> Exact(r.value, scores, outcomes)
  {
    if !(|scores| == |outcomes| >= 2) {
      return Err("RANK_IC_SHAPE_INVALID");
    }
    var n := |scores|;
    var known := Known(outcomes);
    var missing := n - |known|;
    var result := Bounds(None, None, None, n, |known|, missing, missing == 0, false, None, None, None);
    var x := DoubledRanks(scores, n + 1);
    assert x == Positions(scores);
    var qx := Dot(x, x);
    PositionSums(scores, scores);
    SquareSumZero(scores);
    if qx == 0 {
      return Ok(result.(containsUndefined := true, reason := Some("CONSTANT_PREDICTION_RANKS")));
    }
    if known == [] {
      NothingKnown(outcomes);
      return Ok(result.(containsUndefined := true, reason := Some("NO_IDENTIFIED_OUTCOMES")));
    }
    var qmin, qmax := VarianceEnds(outcomes, known);
    QMinZero(outcomes);
    if qmin == 0 {
      return Ok(result.(containsUndefined := true, reason := Some("RETURN_VARIANCE_NOT_IDENTIFIED_POSITIVE")));
    }
    VarianceOrdered(outcomes);
    if !(qx > 0 && 0 < qmin <= qmax) {
      return Err("RANK_VARIANCE_BOUNDS_INVALID");
    }
    var lower, upper := Boxes(outcomes, known);
    if missing == 0 {
      PointIsCoefficient(scores, outcomes);
      var point := Ratio(Dot(x, lower), qx, qmax);
      return Ok(result.(lower := Some(point), upper := Some(point), point := Some(point)));
    }
    var clo, chi := Covariances(scores, outcomes, x, lower, upper);
    var lo := LowerOf(clo, qx, qmin, qmax);
    var hi := UpperOf(chi, qx, qmin, qmax);
    BoundsHold(scores, outcomes, clo, chi);
    if !LessEq(lo, hi) {
      return Err("RANK_IC_BOUNDS_REVERSED");
    }
    RangesExact(scores, outcomes, clo, chi);
    EndsExact(clo, chi, qx, qmin, qmax);
    r := Ok(result.(lower := Some(lo), upper := Some(hi), variance := Some((qmin, qmax)),
                    covariance := Some((clo, chi))));
  }

  lemma {:induction false} NothingKnown(outcomes: Outcomes)
    requires Known(outcomes) == []
    ensures exists full :: Completes(outcomes, full) && AllTied(full)
  {
    var full := seq(|outcomes|, _ => 0.0);
    forall i | 0 <= i < |outcomes| ensures outcomes[i].None? {
      if outcomes[i].Some? { KnownMember(outcomes, i); }
    }
    assert Completes(outcomes, full) && AllTied(full);
  }

  lemma {:induction false} NarrowBox(outcomes: Outcomes, c: seq<int>)
    requires Missing(outcomes) == 0 && Feasible(c, LowerBox(outcomes), UpperBox(outcomes))
    ensures c == LowerBox(outcomes)
  {
    forall i | 0 <= i < |c| ensures c[i] == LowerBox(outcomes)[i] {
      AllKnown(outcomes, i);
    }
  }

  lemma {:induction false} AllKnown(outcomes: Outcomes, i: nat)
    requires Missing(outcomes) == 0 && i < |outcomes|
    ensures outcomes[i].Some?
  {
    if i < |outcomes| - 1 {
      AllKnown(outcomes[..|outcomes| - 1], i);
    }
  }

  lemma {:induction false} PointForOne(scores: seq<real>, outcomes: Outcomes, full: seq<real>)
    requires |scores| == |outcomes| && Missing(outcomes) == 0 && Completes(outcomes, full)
    requires 0 < SquareSum(scores) && 0 < QMin(outcomes)
    ensures 0 < SquareSum(full) == QMax(outcomes) && Positions(full) == LowerBox(outcomes)
    ensures var point := Ratio(Dot(Positions(scores), LowerBox(outcomes)), SquareSum(scores), QMax(outcomes));
            LessEq(point, Spearman(scores, full)) && LessEq(Spearman(scores, full), point)
  {
    VarianceBounded(outcomes, full);
    CompletionFeasible(outcomes, full);
    NarrowBox(outcomes, Positions(full));
    SpearmanRange(scores, full);
    ClipBound(Spearman(scores, full), Spearman(scores, full));
  }

  /** With nothing missing the boxes are the ranks, and the clipped ratio is the coefficient. */
  lemma {:induction false} PointIsCoefficient(scores: seq<real>, outcomes: Outcomes)
    requires |scores| == |outcomes| && Missing(outcomes) == 0
    requires 0 < SquareSum(scores) && 0 < QMin(outcomes)
    ensures var point := Ratio(Dot(Positions(scores), LowerBox(outcomes)), SquareSum(scores), QMax(outcomes));
            Bounding(point, point, scores, outcomes)
  {
    forall full | Completes(outcomes, full)
      ensures var point := Ratio(Dot(Positions(scores), LowerBox(outcomes)), SquareSum(scores), QMax(outcomes));
              && 0 < SquareSum(full)
              && LessEq(point, Spearman(scores, full)) && LessEq(Spearman(scores, full), point)
    {
      PointForOne(scores, outcomes, full);
    }
  }

  // ---- hiding outcomes

  lemma {:induction false} HidingKeepsKnown(more: Outcomes, less: Outcomes)
    requires Hides(more, less) && Known(more) != []
    ensures Known(less) != []
  {
    var i := KnownSource(more, Known(more)[0]);
    KnownMember(less, i);
  }

  /** Boxes only grow when outcomes are hidden. */
  lemma {:induction false} HidingGrowsBoxes(more: Outcomes, less: Outcomes, c: seq<int>)
    requires Hides(more, less) && Feasible(c, LowerBox(less), UpperBox(less))
    ensures Feasible(c, LowerBox(more), UpperBox(more))
  {
    var full := Fill(less, seq(Missing(less), _ => 0.0));
    FillCompletes(less, seq(Missing(less), _ => 0.0));
    forall i | 0 <= i < |c| ensures LowerBox(more)[i] <= c[i] <= UpperBox(more)[i] {
      if more[i].Some? {
        BoxCentre(more, less, more[i].value);
      } else if less[i].Some? {
        KnownMember(less, i);
        PositionCounts(less[i].value, Known(less));
      }
    }
  }

  /** Revealing outcomes moves a known centre by no more than the number revealed. */
  lemma {:induction false} BoxCentre(more: Outcomes, less: Outcomes, v: real)
    requires Hides(more, less)
    ensures Position(v, Known(more)) - Missing(more) <= Position(v, Known(less)) - Missing(less)
    ensures Position(v, Known(less)) + Missing(less) <= Position(v, Known(more)) + Missing(more)
  {
    if more != [] {
      var n := |more| - 1;
      BoxCentre(more[..n], less[..n], v);
      KnownStep(more, v);
      KnownStep(less, v);
    }
  }

  lemma {:induction false} KnownStep(outcomes: Outcomes, v: real)
    requires outcomes != []
    ensures var n := |outcomes| - 1;
            && (outcomes[n].None? ==> Known(outcomes) == Known(outcomes[..n]))
            && (outcomes[n].Some? ==>
                 && |Known(outcomes)| == |Known(outcomes[..n])| + 1
                 && Position(v, Known(outcomes)) == Position(v, Known(outcomes[..n])) + Sgn(v, outcomes[n].value))
  {
    var n := |outcomes| - 1;
    if outcomes[n].Some? {
      assert Known(outcomes)[..|Known(outcomes)| - 1] == Known(outcomes[..n]);
    }
  }

  /** The bounds of the vector that hides more contain those of the one that hides less. */
  lemma {:induction false} HidingWidens(scores: seq<real>, more: Outcomes, less: Outcomes, clo: int, chi: int,
                                        clo': int, chi': int)
    requires |scores| == |more| && Hides(more, less) && Known(more) != []
    requires 0 < SquareSum(scores) && 0 < QMin(more)
    requires Extremes(clo, chi, scores, more) && Extremes(clo', chi', scores, less)
    ensures Known(less) != [] && QMin(more) <= QMin(less) && QMax(less) <= QMax(more)
    ensures clo <= clo' && chi' <= chi
    ensures var qx := SquareSum(scores);
      && LessEq(LowerOf(clo, qx, QMin(more), QMax(more)), LowerOf(clo', qx, QMin(less), QMax(less)))
      && LessEq(UpperOf(chi', qx, QMin(less), QMax(less)), UpperOf(chi, qx, QMin(more), QMax(more)))
  {
    HidingKeepsKnown(more, less);
    var least := QMinAttained(less);
    var most := QMaxAttained(less);
    VarianceBounded(more, least);
    VarianceBounded(more, most);
    VarianceBounded(less, most);
    var c :| Feasible(c, LowerBox(less), UpperBox(less)) && Dot(Positions(scores), c) == clo';
    var d :| Feasible(d, LowerBox(less), UpperBox(less)) && Dot(Positions(scores), d) == chi';
    HidingGrowsBoxes(more, less, c);
    HidingGrowsBoxes(more, less, d);
    var qx := SquareSum(scores);
    NestedEnds(clo', qx, QMin(less), clo, QMin(more), QMax(more));
    NestedEnds(clo', qx, QMax(less), clo, QMin(more), QMax(more));
    NestedTops(chi', qx, QMin(less), chi, QMin(more), QMax(more));
    NestedTops(chi', qx, QMax(less), chi, QMin(more), QMax(more));
  }

  lemma {:induction false} ClipMonotone(a: Surd, b: Surd)
    requires a.Valid() && b.Valid() && LessEq(a, b)
    ensures LessEq(Clip(a), Clip(b))
  {
    ClipRange(a);
    ClipRange(b);
    if LessEq(ONE, a) { Transitive(ONE, a, b); }
    if LessEq(b, MINUS_ONE) { Transitive(a, b, MINUS_ONE); }
  }

  lemma {:induction false} NestedEnds(n: int, qx: int, q: int, clo: int, qmin: int, qmax: int)
    requires 0 < qx && 0 < qmin <= q <= qmax && clo <= n
    ensures LessEq(LowerOf(clo, qx, qmin, qmax), Ratio(n, qx, q))
  {
    Denominator(qx, q);
    Denominator(qx, qmin);
    Denominator(qx, qmax);
    LowerFraction(clo, n, qx, q, qmin, qmax);
    ClipRange(Surd(clo, qx * qmin));
    ClipRange(Surd(clo, qx * qmax));
    ClipRange(Surd(n, qx * q));
    if clo < 0 { ClipMonotone(Surd(clo, qx * qmin), Surd(n, qx * q)); }
    else { ClipMonotone(Surd(clo, qx * qmax), Surd(n, qx * q)); }
    LeastBelow(Ratio(clo, qx, qmin), Ratio(clo, qx, qmax), Ratio(n, qx, q));
  }

  lemma {:induction false} NestedTops(n: int, qx: int, q: int, chi: int, qmin: int, qmax: int)
    requires 0 < qx && 0 < qmin <= q <= qmax && n <= chi
    ensures LessEq(Ratio(n, qx, q), UpperOf(chi, qx, qmin, qmax))
  {
    Denominator(qx, q);
    Denominator(qx, qmin);
    Denominator(qx, qmax);
    UpperFraction(chi, n, qx, q, qmin, qmax);
    ClipRange(Surd(chi, qx * qmin));
    ClipRange(Surd(chi, qx * qmax));
    ClipRange(Surd(n, qx * q));
    if chi < 0 { ClipMonotone(Surd(n, qx * q), Surd(chi, qx * qmax)); }
    else { ClipMonotone(Surd(n, qx * q), Surd(chi, qx * qmin)); }
    GreatestAbove(Ratio(chi, qx, qmin), Ratio(chi, qx, qmax), Ratio(n, qx, q));
  }
}
