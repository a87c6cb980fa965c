/** Real vectors: dot products, squared distances and the identities between them. */
module Vectors {

  /** A square root on nonnegative reals, by its defining property. */
  ghost predicate IsRoot(root: real -> real)
  {
    forall x: real :: 0.0 <= x ==> 0.0 <= root(x) && root(x) * root(x) == x
  }

  /** Multiplication by name, so that a proof can keep products folded. */
  function Times(x: real, y: real): real { x * y }

  function Sum(a: seq<real>): real
  {
    if a == [] then 0.0 else Sum(a[..|a| - 1]) + a[|a| - 1]
  }

  function Dot(a: seq<real>, b: seq<real>): real
    requires |a| == |b|
  {
    if a == [] then 0.0 else Dot(a[..|a| - 1], b[..|b| - 1]) + Times(a[|a| - 1], b[|b| - 1])
  }

  /** Squared Euclidean distance. */
  function SquaredDistance(a: seq<real>, b: seq<real>): real
    requires |a| == |b|
  {
    if a == [] then 0.0
    else
      var d := a[|a| - 1] - b[|b| - 1];
      SquaredDistance(a[..|a| - 1], b[..|b| - 1]) + Times(d, d)
  }

  function Scaled(a: seq<real>, s: real): (r: seq<real>)
    ensures |r| == |a| && forall i :: 0 <= i < |a| ==> r[i] == Times(a[i], s)
  {
    if a == [] then [] else Scaled(a[..|a| - 1], s) + [Times(a[|a| - 1], s)]
  }

  lemma {:induction false} SquareNonnegative(x: real)
    ensures 0.0 <= x * x
  {
  }

  lemma {:induction false} DistanceNonnegative(a: seq<real>, b: seq<real>)
    requires |a| == |b|
    ensures 0.0 <= SquaredDistance(a, b)
  {
    if a != [] {
      DistanceNonnegative(a[..|a| - 1], b[..|b| - 1]);
      SquareNonnegative(a[|a| - 1] - b[|b| - 1]);
    }
  }

  lemma {:induction false} SquareOfDifference(x: real, y: real)
    ensures Times(x - y, x - y) == Times(x, x) - 2.0 * Times(x, y) + Times(y, y)
  {
  }

  lemma {:induction false} SquareOfSum(x: real, y: real)
    ensures Times(x + y, x + y) == Times(x, x) + 2.0 * Times(x, y) + Times(y, y)
  {
  }

  lemma {:induction false} Associate(a: real, b: real, c: real)
    ensures Times(Times(a, b), c) == Times(a, Times(b, c)) && Times(a, 1.0) == a
  {
  }

  lemma {:induction false} DistanceExpands(a: seq<real>, b: seq<real>)
    requires |a| == |b|
    ensures SquaredDistance(a, b) == Dot(a, a) - 2.0 * Dot(a, b) + Dot(b, b)
  {
    hide Times;
    if a != [] {
      DistanceExpands(a[..|a| - 1], b[..|b| - 1]);
      SquareOfDifference(a[|a| - 1], b[|b| - 1]);
    }
  }

  lemma {:induction false} DistanceAppend(a: seq<real>, b: seq<real>, c: seq<real>, d: seq<real>)
    requires |a| == |c| && |b| == |d|
    ensures SquaredDistance(a + b, c + d) == SquaredDistance(a, c) + SquaredDistance(b, d)
  {
    hide Times;
    if b == [] {
      assert a + b == a && c + d == c;
    } else {
      var n := |b| - 1;
      DistanceAppend(a, b[..n], c, d[..n]);
      assert (a + b)[..|a + b| - 1] == a + b[..n];
      assert (c + d)[..|c + d| - 1] == c + d[..n];
    }
  }

  lemma {:induction false} ProductShuffle(x: real, s: real, y: real, t: real)
    ensures (x * s) * (y * t) == (s * t) * (x * y)
  {
  }

  /** One coordinate of a scaled dot product, and its sum with the rest. */
  lemma {:induction false} ScaledTerm(x: real, s: real, y: real, t: real, rest: real)
    ensures Times(Times(s, t), rest) + Times(Times(x, s), Times(y, t)) == Times(Times(s, t), rest + Times(x, y))
  {
    ProductShuffle(x, s, y, t);
  }

  lemma {:induction false} DotScaled(a: seq<real>, b: seq<real>, s: real, t: real)
    requires |a| == |b|
    ensures Dot(Scaled(a, s), Scaled(b, t)) == Times(Times(s, t), Dot(a, b))
  {
    if a == [] {
      ZeroTimes(Times(s, t));
    } else {
      hide Times;
      var n := |a| - 1;
      DotScaled(a[..n], b[..n], s, t);
      ScaledTerm(a[n], s, b[n], t, Dot(a[..n], b[..n]));
    }
  }

  lemma {:induction false} ZeroTimes(k: real)
    ensures Times(k, 0.0) == 0.0
  {
  }

  lemma {:induction false} ScaledGap(x: real, y: real, s: real, rest: real)
    ensures Times(Times(s, s), rest) + Times(Times(x, s) - Times(y, s), Times(x, s) - Times(y, s))
         == Times(Times(s, s), rest + Times(x - y, x - y))
  {
    var d := x - y;
    assert x * s - y * s == d * s;
    ProductShuffle(d, s, d, s);
  }

  lemma {:induction false} DistanceScaled(a: seq<real>, b: seq<real>, s: real)
    requires |a| == |b|
    ensures SquaredDistance(Scaled(a, s), Scaled(b, s)) == Times(Times(s, s), SquaredDistance(a, b))
  {
    if a == [] {
      ZeroTimes(Times(s, s));
    } else {
      hide Times;
      var n := |a| - 1;
      DistanceScaled(a[..n], b[..n], s);
      ScaledGap(a[n], b[n], s, SquaredDistance(a[..n], b[..n]));
    }
  }

  lemma {:induction false} RootUnique(x: real, y: real)
    requires 0.0 <= x && 0.0 <= y && x * x == y * y
    ensures x == y
  {
    assert (x - y) * (x + y) == 0.0;
    if x < y {
      PositiveProduct(y - x, y + x);
    } else if y < x {
      PositiveProduct(x - y, y + x);
    }
  }

  lemma {:induction false} PositiveProduct(a: real, b: real)
    requires 0.0 < a && 0.0 < b
    ensures 0.0 < a * b
  {
  }

  lemma {:induction false} RootSquare(root: real -> real, x: real)
    requires IsRoot(root) && 0.0 <= x
    ensures 0.0 <= root(x) && Times(root(x), root(x)) == x
  {
  }

  lemma {:induction false} RootOfProduct(root: real -> real, x: real, y: real)
    requires IsRoot(root) && 0.0 <= x && 0.0 <= y
    ensures 0.0 <= x * y && root(x) * root(y) == root(x * y)
  {
    RootSquare(root, x);
    RootSquare(root, y);
    RootSquare(root, x * y);
    hide IsRoot;
    ProductShuffle(root(x), root(x), root(y), root(y));
    ProductShuffle(root(x), root(y), root(x), root(y));
    RootUnique(root(x) * root(y), root(x * y));
  }
}
