/** Finite sums of an integer-valued function over a sequence. */
module Sums {

  function SumOver<T(!new)>(f: T -> int, s: seq<T>): int
  {
    if s == [] then 0 else SumOver(f, s[..|s| - 1]) + f(s[|s| - 1])
  }

  lemma {:induction false} SumAppend<T(!new)>(f: T -> int, a: seq<T>, b: seq<T>)
    ensures SumOver(f, a + b) == SumOver(f, a) + SumOver(f, b)
  {
    if b == [] {
      assert a + b == a;
    } else {
      var n := |b| - 1;
      assert (a + b)[..|a + b| - 1] == a + b[..n];
      SumAppend(f, a, b[..n]);
    }
  }

  /** Splitting one element out of the middle. */
  lemma {:induction false} SumRemove<T(!new)>(f: T -> int, s: seq<T>, i: nat)
    requires i < |s|
    ensures SumOver(f, s) == SumOver(f, s[..i] + s[i + 1..]) + f(s[i])
  {
    assert s == s[..i] + ([s[i]] + s[i + 1..]);
    SumAppend(f, s[..i], [s[i]] + s[i + 1..]);
    SumAppend(f, [s[i]], s[i + 1..]);
    SumAppend(f, s[..i], s[i + 1..]);
    assert [s[i]][..0] == [];
  }

  /** A sum depends only on the multiset of its arguments. */
  lemma {:induction false} SumPermutation<T(!new)>(f: T -> int, a: seq<T>, b: seq<T>)
    requires multiset(a) == multiset(b)
    ensures SumOver(f, a) == SumOver(f, b)
    decreases |a|
  {
    if a == [] {
      assert |multiset(b)| == 0;
      assert b == [];
    } else {
      var n := |a| - 1;
      assert a == a[..n] + [a[n]];
      assert a[n] in multiset(b);
      var i :| 0 <= i < |b| && b[i] == a[n];
      assert b == b[..i] + [b[i]] + b[i + 1..];
      SumRemove(f, b, i);
      assert multiset(a[..n]) == multiset(b[..i] + b[i + 1..]) by {
        assert multiset(a) - multiset{a[n]} == multiset(a[..n]);
        assert multiset(b) - multiset{a[n]} == multiset(b[..i] + b[i + 1..]);
      }
      SumPermutation(f, a[..n], b[..i] + b[i + 1..]);
    }
  }

  lemma {:induction false} SumSame<T(!new)>(f: T -> int, g: T -> int, s: seq<T>)
    requires forall i :: 0 <= i < |s| ==> f(s[i]) == g(s[i])
    ensures SumOver(f, s) == SumOver(g, s)
  {
    if s != [] {
      SumSame(f, g, s[..|s| - 1]);
    }
  }

  lemma {:induction false} SumMonotone<T(!new)>(f: T -> int, g: T -> int, s: seq<T>)
    requires forall i :: 0 <= i < |s| ==> f(s[i]) <= g(s[i])
    ensures SumOver(f, s) <= SumOver(g, s)
  {
    if s != [] {
      SumMonotone(f, g, s[..|s| - 1]);
    }
  }

  /** h == f + g pointwise gives the same identity between the sums. */
  lemma {:induction false} SumPlus<T(!new)>(f: T -> int, g: T -> int, h: T -> int, s: seq<T>)
    requires forall i :: 0 <= i < |s| ==> h(s[i]) == f(s[i]) + g(s[i])
    ensures SumOver(h, s) == SumOver(f, s) + SumOver(g, s)
  {
    if s != [] {
      SumPlus(f, g, h, s[..|s| - 1]);
    }
  }

  lemma {:induction false} SumConstant<T(!new)>(f: T -> int, c: int, s: seq<T>)
    requires forall i :: 0 <= i < |s| ==> f(s[i]) == c
    ensures SumOver(f, s) == c * |s|
  {
    if s != [] {
      SumConstant(f, c, s[..|s| - 1]);
    }
  }
}
