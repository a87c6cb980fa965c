/** The exact sum of squared doubled centred ranks, and what ties do to it. */
module RankVariance {
  import opened Prelude
  import opened Sums
  import opened Ranks

  function SquaredPosition(pool: seq<real>): real -> int { p => Position(p, pool) * Position(p, pool) }

  /** The rank variance of a pool, as the integer the source divides by. */
  function SquareSum(ys: seq<real>): int { SumOver(SquaredPosition(ys), ys) }

  function PositionIn(pool: seq<real>): real -> int { p => Position(p, pool) }

  function Greater(y: real, ys: seq<real>): int { |ys| - Less(y, ys) - Equal(y, ys) }

  /** k^2 - k, by its first differences: how many ordered pairs k members make. */
  function Pairs(k: nat): nat { if k == 0 then 0 else Pairs(k - 1) + 2 * (k - 1) }

  /** (k^3 - k) / 3, by its first differences: the rank variance of k distinct values. */
  function Mass(k: nat): nat { if k == 0 then 0 else Mass(k - 1) + Pairs(k) }

  lemma {:induction false} PairsValue(k: nat)
    ensures Pairs(k + 1) == k * k + k
  {
    if k > 0 {
      PairsValue(k - 1);
    }
  }

  lemma {:induction false} MassValue(k: nat)
    ensures 3 * Mass(k) == k * k * k - k
  {
    if k > 0 {
      MassValue(k - 1);
      PairsValue(k - 1);
      CubeDifference(k);
    }
  }

  lemma {:induction false} CubeDifference(k: int)
    ensures (k - 1) * (k - 1) * (k - 1) - (k - 1) + 3 * ((k - 1) * (k - 1) + (k - 1)) == k * k * k - k
  {
  }

  lemma {:induction false} PairsMonotone(j: nat, k: nat)
    requires j <= k
    ensures Pairs(j) <= Pairs(k)
  {
    if j < k {
      PairsMonotone(j, k - 1);
    }
  }

  // ---- the sizes of the tie groups

  datatype Tally = Tally(value: real, size: nat)

  function Bump(c: seq<Tally>, y: real): seq<Tally>
  {
    if c == [] then [Tally(y, 1)]
    else if c[0].value == y then [Tally(y, c[0].size + 1)] + c[1..]
    else [c[0]] + Bump(c[1..], y)
  }

  function Counter(ys: seq<real>): seq<Tally>
  {
    if ys == [] then [] else Bump(Counter(ys[..|ys| - 1]), ys[|ys| - 1])
  }

  function SizeOf(c: seq<Tally>, y: real): nat
  {
    if c == [] then 0 else if c[0].value == y then c[0].size else SizeOf(c[1..], y)
  }

  /** The tie correction: the cube of every tie size less the size, summed. */
  function CubeSum(c: seq<Tally>): int
  {
    if c == [] then 0 else c[0].size * c[0].size * c[0].size - c[0].size + CubeSum(c[1..])
  }

  function MassSum(c: seq<Tally>): nat
  {
    if c == [] then 0 else Mass(c[0].size) + MassSum(c[1..])
  }

  lemma {:induction false} CubeSumValue(c: seq<Tally>)
    ensures CubeSum(c) == 3 * MassSum(c)
  {
    if c != [] {
      MassValue(c[0].size);
      CubeSumValue(c[1..]);
    }
  }

  /** The largest tie. */
  function Largest(c: seq<Tally>): nat
  {
    if c == [] then 0 else Max(c[0].size, Largest(c[1..]))
  }

  lemma {:induction false} BumpEffect(c: seq<Tally>, y: real, z: real)
    ensures MassSum(Bump(c, y)) == MassSum(c) + Pairs(SizeOf(c, y) + 1)
    ensures SizeOf(Bump(c, y), z) == SizeOf(c, z) + (if z == y then 1 else 0)
    ensures Largest(Bump(c, y)) == Max(Largest(c), SizeOf(c, y) + 1)
  {
    if c != [] {
      if c[0].value == y {
        assert Bump(c, y)[1..] == c[1..];
      } else {
        assert Bump(c, y)[1..] == Bump(c[1..], y);
        BumpEffect(c[1..], y, z);
      }
    }
  }

  lemma {:induction false} CounterCounts(ys: seq<real>, y: real)
    ensures SizeOf(Counter(ys), y) == Equal(y, ys) <= Largest(Counter(ys))
  {
    if ys != [] {
      var n := |ys| - 1;
      CounterCounts(ys[..n], y);
      CounterCounts(ys[..n], ys[n]);
      BumpEffect(Counter(ys[..n]), ys[n], y);
    }
  }

  /** The largest tie is reached by some member of a nonempty pool. */
  lemma {:induction false} LargestReached(ys: seq<real>) returns (y: real)
    requires ys != []
    ensures y in ys && Equal(y, ys) == Largest(Counter(ys)) >= 1
  {
    var n := |ys| - 1;
    CounterCounts(ys[..n], ys[n]);
    BumpEffect(Counter(ys[..n]), ys[n], ys[n]);
    assert ys[n] in ys;
    y := ys[n];
    CounterCounts(ys, y);
    if n > 0 && Largest(Counter(ys[..n])) >= Equal(ys[n], ys[..n]) + 1 {
      var z := LargestReached(ys[..n]);
      if z != ys[n] {
        assert z in ys;
        y := z;
      }
    }
  }

  // ---- the variance formula

  function SignTimesPosition(pool: seq<real>, y: real): real -> int { p => Sgn(p, y) * Position(p, pool) }

  function Cross(y: real, z: real): real -> int { p => Sgn(p, y) * Sgn(p, z) }

  lemma {:induction false} CrossSum(t: seq<real>, y: real, z: real)
    ensures SumOver(Cross(y, z), t) + Sgn(z, y) * Position(z, t)
         == if z == y then |t| - Equal(y, t)
            else if z < y then Equal(y, t) + 2 * Greater(y, t)
            else Equal(y, t) + 2 * Less(y, t)
  {
    if t != [] {
      CrossSum(t[..|t| - 1], y, z);
    }
  }

  /** g members above y each outrank l + e others; l below are outranked by e + g. */
  function Balance(l: int, e: int, g: int): int { g * (l + e) + l * (e + g) }

  lemma {:induction false} BalanceStep(l: int, e: int, g: int)
    ensures Balance(l + 1, e, g) == Balance(l, e, g) + e + 2 * g
    ensures Balance(l, e + 1, g) == Balance(l, e, g) + l + g
    ensures Balance(l, e, g + 1) == Balance(l, e, g) + e + 2 * l
  {
  }

  lemma {:induction false} SplitSigned(t: seq<real>, pts: seq<real>, y: real, z: real)
    ensures SumOver(SignTimesPosition(t + [z], y), pts)
         == SumOver(SignTimesPosition(t, y), pts) + SumOver(Cross(y, z), pts)
  {
    if pts != [] {
      var p := pts[|pts| - 1];
      SplitSigned(t, pts[..|pts| - 1], y, z);
      assert (t + [z])[..|t + [z]| - 1] == t;
      Distribute(Sgn(p, y), Position(p, t), Sgn(p, z));
    }
  }

  /** Positions of the members above y minus those of the members below y. */
  lemma {:induction false} SignedPositions(ys: seq<real>, y: real)
    ensures SumOver(SignTimesPosition(ys, y), ys) == Balance(Less(y, ys), Equal(y, ys), Greater(y, ys))
  {
    if ys != [] {
      var t, z := ys[..|ys| - 1], ys[|ys| - 1];
      assert ys == t + [z];
      SignedPositions(t, y);
      CrossSum(t, y, z);
      SplitSigned(t, t, y, z);
      assert Position(z, ys) == Position(z, t);
      BalanceStep(Less(y, t), Equal(y, t), Greater(y, t));
    }
  }

  lemma {:induction false} Distribute(a: int, b: int, c: int)
    ensures a * (b + c) == a * b + a * c
  {
  }

  /** How a square grows with its root. */
  function Twice(pool: seq<real>, y: real): real -> int
  {
    p => 2 * Sgn(p, y) * Position(p, pool) + Sgn(p, y) * Sgn(p, y)
  }

  lemma {:induction false} SquareGrows(a: int, s: int)
    ensures (a + s) * (a + s) == a * a + (2 * s * a + s * s)
  {
  }

  lemma {:induction false} PositionGrows(pool: seq<real>, y: real, p: real)
    ensures Position(p, pool + [y]) == Position(p, pool) + Sgn(p, y)
  {
    assert (pool + [y])[..|pool|] == pool;
  }

  lemma {:induction false} SquaredGrows(pool: seq<real>, y: real, p: real)
    ensures SquaredPosition(pool + [y])(p) == SquaredPosition(pool)(p) + Twice(pool, y)(p)
  {
    PositionGrows(pool, y, p);
    SquareGrows(Position(p, pool), Sgn(p, y));
    hide Position, Sgn;
  }

  lemma {:induction false} TwiceSigned(pts: seq<real>, pool: seq<real>, y: real)
    ensures SumOver(Twice(pool, y), pts) == 2 * SumOver(SignTimesPosition(pool, y), pts) + SumOver(Cross(y, y), pts)
  {
    hide Position, Sgn;
    if pts != [] {
      TwiceSigned(pts[..|pts| - 1], pool, y);
      TwicePoint(pool, y, pts[|pts| - 1]);
    }
  }

  lemma {:induction false} TwicePoint(pool: seq<real>, y: real, p: real)
    ensures Twice(pool, y)(p) == 2 * SignTimesPosition(pool, y)(p) + Cross(y, y)(p)
  {
    var s, a := Sgn(p, y), Position(p, pool);
    assert 2 * s * a == 2 * (s * a);
    hide Position, Sgn;
  }

  /** The squares of a larger pool, split by where they come from. */
  lemma {:induction false} SquareSumSplit(ys: seq<real>, y: real)
    ensures SquareSum(ys + [y])
         == SquareSum(ys) + 2 * SumOver(SignTimesPosition(ys, y), ys) + SumOver(Cross(y, y), ys)
          + Position(y, ys) * Position(y, ys)
  {
    hide Position, SumOver, SignTimesPosition, Cross, Twice;
    var all := ys + [y];
    forall i | 0 <= i < |ys| ensures SquaredPosition(all)(ys[i]) == SquaredPosition(ys)(ys[i]) + Twice(ys, y)(ys[i]) {
      SquaredGrows(ys, y, ys[i]);
    }
    SumPlus(SquaredPosition(ys), Twice(ys, y), SquaredPosition(all), ys);
    TwiceSigned(ys, ys, y);
    LastTerm(SquaredPosition(all), ys, y);
    PositionGrows(ys, y, y);
  }

  lemma {:induction false} LastTerm(f: real -> int, ys: seq<real>, y: real)
    ensures SumOver(f, ys + [y]) == SumOver(f, ys) + f(y)
  {
    assert (ys + [y])[..|ys|] == ys;
  }

  /** How one more member changes the variance: only its own tie group matters. */
  lemma {:induction false} SquareSumStep(ys: seq<real>, y: real, e: nat)
    requires e == Equal(y, ys)
    ensures SquareSum(ys + [y]) == SquareSum(ys) + Pairs(|ys| + 1) - Pairs(e + 1)
  {
    SquareSumSplit(ys, y);
    SignedPositions(ys, y);
    CrossSum(ys, y, y);
    PositionCounts(y, ys);
    StepAlgebra(Less(y, ys), e, Greater(y, ys));
    PairsValue(|ys|);
    PairsValue(e);
    hide SquareSum, Position, Less, Equal, SumOver, SignTimesPosition, Cross, Balance, Pairs;
    assert Position(y, ys) == Less(y, ys) - Greater(y, ys);
  }

  lemma {:induction false} StepAlgebra(l: int, e: int, g: int)
    ensures var n := l + e + g;
            2 * Balance(l, e, g) + (l + g) + (l - g) * (l - g) == n * n + n - (e * e + e)
  {
  }

  /** The variance of a pool: that of as many distinct values, less the same for every tie group. */
  lemma {:induction false} SquareSumFormula(ys: seq<real>)
    ensures SquareSum(ys) == Mass(|ys|) - MassSum(Counter(ys))
  {
    if ys != [] {
      var t, y := ys[..|ys| - 1], ys[|ys| - 1];
      assert ys == t + [y];
      SquareSumFormula(t);
      CounterCounts(t, y);
      SquareSumStep(t, y, SizeOf(Counter(t), y));
      BumpEffect(Counter(t), y, y);
    }
  }

  /** The centred ranks of any pool sum to zero. */
  lemma {:induction false} PositionsCancel(ys: seq<real>)
    ensures SumOver(PositionIn(ys), ys) == 0
  {
    if ys != [] {
      var t, y := ys[..|ys| - 1], ys[|ys| - 1];
      PositionsCancel(t);
      var toward := (p: real) => Sgn(p, y);
      forall i | 0 <= i < |t| ensures PositionIn(ys)(t[i]) == PositionIn(t)(t[i]) + toward(t[i]) {
      }
      SumPlus(PositionIn(t), toward, PositionIn(ys), t);
      Opposite(t, y, toward);
      assert Position(y, ys) == Position(y, t);
    }
  }

  lemma {:induction false} Opposite(t: seq<real>, y: real, toward: real -> int)
    requires forall p :: toward(p) == Sgn(p, y)
    ensures SumOver(toward, t) == -Position(y, t)
  {
    if t != [] {
      Opposite(t[..|t| - 1], y, toward);
    }
  }

  lemma {:induction false} SameMultisetCounts(v: real, a: seq<real>, b: seq<real>)
    requires multiset(a) == multiset(b)
    ensures Position(v, a) == Position(v, b) && Equal(v, a) == Equal(v, b) && Less(v, a) == Less(v, b)
  {
    SumPermutation(SgnFrom(v), a, b);
    SumPermutation(Tied(v), a, b);
    SumPermutation(Below(v), a, b);
  }

  lemma {:induction false} SquareSumPermutation(a: seq<real>, b: seq<real>)
    requires multiset(a) == multiset(b)
    ensures SquareSum(a) == SquareSum(b)
  {
    forall i | 0 <= i < |a| ensures SquaredPosition(a)(a[i]) == SquaredPosition(b)(a[i]) {
      SameMultisetCounts(a[i], a, b);
    }
    SumSame(SquaredPosition(a), SquaredPosition(b), a);
    SumPermutation(SquaredPosition(b), a, b);
  }

  /** Nonnegative, and zero exactly when every member ties. */
  lemma {:induction false} SquareSumZero(ys: seq<real>)
    ensures 0 <= SquareSum(ys)
    ensures SquareSum(ys) == 0 <==> forall i, j :: 0 <= i < |ys| && 0 <= j < |ys| ==> ys[i] == ys[j]
  {
    SquaresNonnegative(ys, ys);
    if SquareSum(ys) == 0 && ys != [] {
      var top := TopMember(ys);
      PositionCounts(top, ys);
      forall i | 0 <= i < |ys| ensures ys[i] == top {
        if ys[i] != top {
          BelowCounted(top, ys, i);
        }
      }
    } else if forall i, j :: 0 <= i < |ys| && 0 <= j < |ys| ==> ys[i] == ys[j] {
      forall i | 0 <= i < |ys| ensures SquaredPosition(ys)(ys[i]) == 0 {
        SumConstant(SgnFrom(ys[i]), 0, ys);
      }
      SumConstant(SquaredPosition(ys), 0, ys);
    }
  }

  lemma {:induction false} SquaresNonnegative(pts: seq<real>, pool: seq<real>)
    ensures 0 <= SumOver(SquaredPosition(pool), pts)
    ensures SumOver(SquaredPosition(pool), pts) == 0
        ==> forall i :: 0 <= i < |pts| ==> Position(pts[i], pool) == 0
  {
    if pts != [] {
      var n := |pts| - 1;
      SquaresNonnegative(pts[..n], pool);
      SquareSign(Position(pts[n], pool));
      if SumOver(SquaredPosition(pool), pts) == 0 {
        forall i | 0 <= i < |pts| ensures Position(pts[i], pool) == 0 {
          if i < n { assert pts[..n][i] == pts[i]; }
        }
      }
    }
  }

  lemma {:induction false} SquareSign(a: int)
    ensures 0 <= a * a && (a * a == 0 ==> a == 0)
  {
  }

  lemma {:induction false} TopMember(ys: seq<real>) returns (top: real)
    requires ys != []
    ensures top in ys && (forall i :: 0 <= i < |ys| ==> ys[i] <= top) && Position(top, ys) == Less(top, ys)
  {
    var n := |ys| - 1;
    top := ys[n];
    if n > 0 {
      var t := TopMember(ys[..n]);
      if ys[n] < t { top := t; }
    }
    forall i | 0 <= i < |ys| ensures SgnFrom(top)(ys[i]) == Below(top)(ys[i]) {
      assert i == n || ys[i] == ys[..n][i];
    }
    SumSame(SgnFrom(top), Below(top), ys);
  }

  lemma {:induction false} BelowCounted(v: real, pool: seq<real>, i: nat)
    requires i < |pool| && pool[i] < v
    ensures 1 <= Less(v, pool)
  {
    PositionCounts(v, pool[..|pool| - 1]);
    if i < |pool| - 1 {
      BelowCounted(v, pool[..|pool| - 1], i);
    }
  }
}
