/** Exact values num / sqrt(den) with integer parts, compared by signed squares. */
module Surds {
  import opened LinearExtreme

  datatype Surd = Surd(num: int, den: int)
  {
    ghost predicate Valid() { 0 < den }
  }

  const MINUS_ONE := Surd(-1, 1)
  const ONE := Surd(1, 1)

  function SignedSquare(c: int): int { if c < 0 then -(c * c) else c * c }

  predicate LessEq(a: Surd, b: Surd) { SignedSquare(a.num) * b.den <= SignedSquare(b.num) * a.den }

  function Least(a: Surd, b: Surd): Surd { if LessEq(a, b) then a else b }

  function Greatest(a: Surd, b: Surd): Surd { if LessEq(a, b) then b else a }

  /** A coefficient cut to the unit range. */
  function Clip(s: Surd): Surd { Greatest(MINUS_ONE, Least(ONE, s)) }

  function SignedReal(x: real): real { if x < 0.0 then -(x * x) else x * x }

  lemma {:induction false} SignedRealMonotone(x: real, y: real)
    ensures x <= y <==> SignedReal(x) <= SignedReal(y)
  {
    if 0.0 <= x && 0.0 <= y {
      SquareMonotone(x, y);
    } else if x < 0.0 && y < 0.0 {
      SquareMonotone(-y, -x);
    } else {
      assert 0.0 <= x ==> 0.0 <= x * x;
      assert x < 0.0 ==> 0.0 < x * x;
      assert 0.0 <= y ==> 0.0 <= y * y;
      assert y < 0.0 ==> 0.0 < y * y;
    }
  }

  lemma {:induction false} SquareMonotone(x: real, y: real)
    requires 0.0 <= x && 0.0 <= y
    ensures x <= y <==> x * x <= y * y
  {
    assert y * y - x * x == (y - x) * (y + x);
    if x < y {
      Positive(y - x, y + x);
    } else if y < x {
      Positive(x - y, y + x);
      assert (x - y) * (y + x) == x * x - y * y;
    }
  }

  lemma {:induction false} Positive(a: real, b: real)
    requires 0.0 < a && 0.0 < b
    ensures 0.0 < a * b
  {
  }

  /** The comparison is the order of the real values, for any square roots of the denominators. */
  lemma {:induction false} LessEqMeaning(a: Surd, b: Surd, rootA: real, rootB: real)
    requires a.Valid() && b.Valid() && 0.0 < rootA && 0.0 < rootB
    requires rootA * rootA == a.den as real && rootB * rootB == b.den as real
    ensures LessEq(a, b) <==> a.num as real / rootA <= b.num as real / rootB
  {
    var x, y := a.num as real / rootA, b.num as real / rootB;
    SignedRealMonotone(x, y);
    SquareOfQuotient(a.num, a.den, rootA);
    SquareOfQuotient(b.num, b.den, rootB);
    CrossCompare(SignedReal(x), SignedReal(y), SignedSquare(a.num), SignedSquare(b.num), a.den, b.den);
  }

  lemma {:induction false} RealProduct(a: int, b: int)
    ensures (a * b) as real == a as real * b as real
  {
  }

  lemma {:induction false} CrossCompare(u: real, v: real, p: int, q: int, da: int, db: int)
    requires 0 < da && 0 < db && u * da as real == p as real && v * db as real == q as real
    ensures u <= v <==> p * db <= q * da
  {
    RealProduct(p, db);
    RealProduct(q, da);
    RealProduct(da, db);
    var w := (da * db) as real;
    assert (p * db) as real == u * w && (q * da) as real == v * w;
    ScaleReal(u, v, w);
  }

  lemma {:induction false} ScaleReal(u: real, v: real, w: real)
    requires 0.0 < w
    ensures u <= v <==> u * w <= v * w
  {
    if u < v {
      Positive(v - u, w);
    } else if v < u {
      Positive(u - v, w);
    }
  }

  lemma {:induction false} SquareOfQuotient(num: int, den: int, root: real)
    requires 0.0 < root && root * root == den as real
    ensures SignedReal(num as real / root) * den as real == SignedSquare(num) as real
  {
    var n := num as real;
    var x := n / root;
    assert x * root == n;
    assert x * x * (root * root) == n * n;
    assert (num * num) as real == n * n;
    assert x < 0.0 <==> num < 0;
  }

  lemma {:induction false} Transitive(a: Surd, b: Surd, c: Surd)
    requires a.Valid() && b.Valid() && c.Valid() && LessEq(a, b) && LessEq(b, c)
    ensures LessEq(a, c)
  {
    var x, y, z := SignedSquare(a.num), SignedSquare(b.num), SignedSquare(c.num);
    Scale(x * b.den, y * a.den, c.den);
    Scale(y * c.den, z * b.den, a.den);
    assert x * c.den * b.den == x * b.den * c.den;
    assert y * a.den * c.den == y * c.den * a.den;
    assert z * a.den * b.den == z * b.den * a.den;
    Cancel(x * c.den, z * a.den, b.den);
  }

  lemma {:induction false} Scale(a: int, b: int, k: int)
    requires a <= b && 0 <= k
    ensures a * k <= b * k
  {
  }

  lemma {:induction false} Cancel(a: int, b: int, k: int)
    requires a * k <= b * k && 0 < k
    ensures a <= b
  {
  }

  /** A fraction with smaller numerator, over the safer end of the variance range, is no larger. */
  lemma {:induction false} LowerFraction(c: int, n: int, qx: int, q: int, qmin: int, qmax: int)
    requires c <= n && 0 < qx && 0 < qmin <= q <= qmax
    ensures LessEq(Surd(c, qx * qmin), Surd(n, qx * q)) || LessEq(Surd(c, qx * qmax), Surd(n, qx * q))
    ensures c < 0 ==> LessEq(Surd(c, qx * qmin), Surd(n, qx * q))
    ensures 0 <= c ==> LessEq(Surd(c, qx * qmax), Surd(n, qx * q))
  {
    var s, t := SignedSquare(c), SignedSquare(n);
    SignedSquareMonotone(c, n);
    if c < 0 {
      NegativeScale(s, qx * qmin, qx * q, qx);
      Scale(s, t, qx * qmin);
    } else {
      Scale(s, t, qx * q);
      Scale(q, qmax, qx);
      Scale(qx * q, qx * qmax, t);
    }
  }

  lemma {:induction false} NegativeScale(s: int, a: int, b: int, k: int)
    requires s <= 0 && a <= b
    ensures s * b <= s * a
  {
    assert 0 <= (-s) * (b - a);
  }

  lemma {:induction false} SignedSquareMonotone(x: int, y: int)
    requires x <= y
    ensures SignedSquare(x) <= SignedSquare(y)
  {
    if 0 <= x {
      Scale(x, y, x);
      Scale(x, y, y);
    } else if y < 0 {
      assert y * y <= x * x by {
        Scale(-y, -x, -x);
        Scale(-y, -x, -y);
      }
    }
  }

  lemma {:induction false} SignedSquareOdd(x: int)
    ensures SignedSquare(-x) == -SignedSquare(x)
  {
  }

  /** The mirror image of a comparison. */
  lemma {:induction false} Negated(a: Surd, b: Surd)
    ensures LessEq(a, b) <==> LessEq(Surd(-b.num, b.den), Surd(-a.num, a.den))
  {
    SignedSquareOdd(a.num);
    SignedSquareOdd(b.num);
  }

  lemma {:induction false} UpperFraction(c: int, n: int, qx: int, q: int, qmin: int, qmax: int)
    requires n <= c && 0 < qx && 0 < qmin <= q <= qmax
    ensures c < 0 ==> LessEq(Surd(n, qx * q), Surd(c, qx * qmax))
    ensures 0 <= c ==> LessEq(Surd(n, qx * q), Surd(c, qx * qmin))
  {
    if c == 0 {
      SignedSquareMonotone(n, 0);
      Scale(SignedSquare(n), 0, qx * qmin);
    } else {
      LowerFraction(-c, -n, qx, q, qmin, qmax);
      Negated(Surd(n, qx * q), Surd(c, qx * qmax));
      Negated(Surd(n, qx * q), Surd(c, qx * qmin));
    }
  }

  lemma {:induction false} ClipRange(s: Surd)
    requires s.Valid()
    ensures Clip(s).Valid() && LessEq(MINUS_ONE, Clip(s)) && LessEq(Clip(s), ONE)
  {
  }

  /** Clipping keeps a value in range untouched, and keeps bounds on such a value. */
  lemma {:induction false} ClipBound(s: Surd, r: Surd)
    requires s.Valid() && r.Valid() && LessEq(MINUS_ONE, r) && LessEq(r, ONE)
    ensures LessEq(s, r) ==> LessEq(Clip(s), r)
    ensures LessEq(r, s) ==> LessEq(r, Clip(s))
    ensures Clip(r) == r || (LessEq(r, Clip(r)) && LessEq(Clip(r), r))
  {
    if LessEq(s, r) && LessEq(ONE, s) {
      Transitive(ONE, s, r);
    }
    if LessEq(r, s) && !LessEq(MINUS_ONE, s) {
      Transitive(MINUS_ONE, r, s);
    }
  }

  // ---- Cauchy-Schwarz

  lemma {:induction false} DotSelf(a: seq<int>)
    ensures 0 <= Dot(a, a)
  {
    if a != [] {
      DotSelf(a[..|a| - 1]);
      assert 0 <= a[|a| - 1] * a[|a| - 1];
    }
  }

  lemma {:induction false} CauchySchwarz(a: seq<int>, b: seq<int>)
    requires |a| == |b|
    ensures Dot(a, b) * Dot(a, b) <= Dot(a, a) * Dot(b, b)
  {
    if a != [] {
      var n := |a| - 1;
      CauchySchwarz(a[..n], b[..n]);
      DotSelf(a[..n]);
      DotSelf(b[..n]);
      CauchyStep(Dot(a[..n], a[..n]), Dot(b[..n], b[..n]), Dot(a[..n], b[..n]), a[n], b[n]);
    }
  }

  lemma {:induction false} CauchyStep(A: int, B: int, P: int, x: int, y: int)
    requires 0 <= A && 0 <= B && P * P <= A * B
    ensures (P + x * y) * (P + x * y) <= (A + x * x) * (B + y * y)
  {
    var u, v := 2 * P * (x * y), A * (y * y) + B * (x * x);
    assert 0 <= v by {
      assert 0 <= y * y && 0 <= x * x;
      assert 0 <= A * (y * y) && 0 <= B * (x * x);
    }
    var d := A * (y * y) - B * (x * x);
    var z := (x * y) * (x * y);
    assert 0 <= d * d && 0 <= z;
    assert 0 <= z * (A * B - P * P);
    assert v * v - u * u == d * d + 4 * (z * (A * B - P * P)) by {
      CauchyIdentity(A, B, P, x, y);
    }
    RootOrder(u, v);
    ExpandSquares(A, B, P, x, y);
  }

  lemma {:induction false} ExpandSquares(A: int, B: int, P: int, x: int, y: int)
    ensures (P + x * y) * (P + x * y) == P * P + 2 * P * (x * y) + (x * x) * (y * y)
    ensures (A + x * x) * (B + y * y) == A * B + (A * (y * y) + B * (x * x)) + (x * x) * (y * y)
  {
  }

  lemma {:induction false} CauchyIdentity(A: int, B: int, P: int, x: int, y: int)
    ensures var u, v, d, z := 2 * P * (x * y), A * (y * y) + B * (x * x), A * (y * y) - B * (x * x), (x * y) * (x * y);
            v * v - u * u == d * d + 4 * (z * (A * B - P * P))
  {
    var p, q := A * (y * y), B * (x * x);
    assert (p + q) * (p + q) == (p - q) * (p - q) + 4 * (p * q);
    var z := (x * y) * (x * y);
    assert p * q == z * (A * B);
    assert (2 * P * (x * y)) * (2 * P * (x * y)) == 4 * (z * (P * P));
    assert z * (A * B - P * P) == z * (A * B) - z * (P * P);
  }

  lemma {:induction false} RootOrder(u: int, v: int)
    requires 0 <= v && u * u <= v * v
    ensures u <= v
  {
    SquareLess(v, u);
  }

  lemma {:induction false} SquareLess(v: int, u: int)
    ensures 0 <= v < u ==> v * v < u * u
  {
    if 0 <= v < u {
      Scale(v, u, v);
      Scale(v + 1, u, u);
    }
  }
}
