/** Mapping a function over a sequence, seen through multisets. */
module Multisets {
  import opened Sorting

  function Map<A(!new), B>(f: A -> B, s: seq<A>): (r: seq<B>)
    ensures |r| == |s| && forall i :: 0 <= i < |s| ==> r[i] == f(s[i])
  {
    if s == [] then [] else Map(f, s[..|s| - 1]) + [f(s[|s| - 1])]
  }

  lemma {:induction false} MapAppend<A(!new), B>(f: A -> B, a: seq<A>, b: seq<A>)
    ensures Map(f, a + b) == Map(f, a) + Map(f, b)
  {
    hide Map;
  }

  lemma {:induction false} SnocMultiset<B>(s: seq<B>, x: B)
    ensures multiset(s + [x]) == multiset(s) + multiset{x}
  {
  }

  /** A rearrangement of the arguments rearranges the values. */
  lemma {:induction false} MapPermutation<A(!new), B>(f: A -> B, a: seq<A>, b: seq<A>)
    requires multiset(a) == multiset(b)
    ensures multiset(Map(f, a)) == multiset(Map(f, b))
    decreases |a|
  {
    if a == [] {
      assert |multiset(b)| == 0;
      assert b == [];
    } else {
      var n := |a| - 1;
      DropLast(a);
      assert a[n] in multiset(b);
      var i :| 0 <= i < |b| && b[i] == a[n];
      var rest := b[..i] + b[i + 1..];
      assert b == b[..i] + [b[i]] + b[i + 1..];
      assert multiset(rest) == multiset(b) - multiset{a[n]};
      MapPermutation(f, a[..n], rest);
      MapMiddle(f, b, i);
      SnocMultiset(Map(f, a[..n]), f(a[n]));
    }
  }

  lemma {:induction false} MapThree<A(!new), B>(f: A -> B, a: seq<A>, x: A, c: seq<A>)
    ensures Map(f, a + [x] + c) == Map(f, a) + [f(x)] + Map(f, c)
  {
    MapAppend(f, a, [x]);
    MapAppend(f, a + [x], c);
    assert Map(f, [x]) == [f(x)];
  }

  lemma {:induction false} MapMiddle<A(!new), B>(f: A -> B, b: seq<A>, i: nat)
    requires i < |b|
    ensures multiset(Map(f, b)) == multiset(Map(f, b[..i] + b[i + 1..])) + multiset{f(b[i])}
  {
    hide Map;
    MapThree(f, b[..i], b[i], b[i + 1..]);
    assert b[..i] + [b[i]] + b[i + 1..] == b;
    MapAppend(f, b[..i], b[i + 1..]);
    MiddleMultiset(Map(f, b[..i]), f(b[i]), Map(f, b[i + 1..]));
  }

  lemma {:induction false} MiddleMultiset<B>(a: seq<B>, x: B, c: seq<B>)
    ensures multiset(a + [x] + c) == multiset(a + c) + multiset{x}
  {
  }

  /** Every finite multiset is the multiset of some sequence. */
  lemma {:induction false} Listing<A>(m: multiset<A>) returns (s: seq<A>)
    ensures multiset(s) == m
    decreases |m|
  {
    s := [];
    if |m| > 0 {
      var x :| x in m;
      var t := Listing(m - multiset{x});
      s := t + [x];
      assert multiset(s) == (m - multiset{x}) + multiset{x};
    }
  }

  function Flatten<A>(groups: seq<seq<A>>): seq<A>
  {
    if groups == [] then [] else Flatten(groups[..|groups| - 1]) + groups[|groups| - 1]
  }

  lemma {:induction false} ConcatCount<A>(a: seq<A>, b: seq<A>, x: A)
    ensures multiset(a + b)[x] == multiset(a)[x] + multiset(b)[x]
  {
  }

  /** The last place of a member. */
  function IndexOf<A(==)>(s: seq<A>, x: A): (i: nat)
    requires x in s
    ensures i < |s| && s[i] == x
  {
    if s[|s| - 1] == x then |s| - 1
    else
      assert s == s[..|s| - 1] + [s[|s| - 1]];
      IndexOf(s[..|s| - 1], x)
  }

  predicate NoRepeats<A(==)>(s: seq<A>) { forall i, j :: 0 <= i < j < |s| ==> s[i] != s[j] }

  lemma {:induction false} CountOnce<A>(s: seq<A>, x: A)
    requires NoRepeats(s)
    ensures multiset(s)[x] == if x in s then 1 else 0
  {
    if s != [] {
      var n := |s| - 1;
      assert s == s[..n] + [s[n]];
      CountOnce(s[..n], x);
      assert s[n] !in s[..n];
    }
  }

  lemma {:induction false} CountTwice<A>(s: seq<A>, i: nat, j: nat)
    requires i < j < |s| && s[i] == s[j]
    ensures 2 <= multiset(s)[s[i]]
  {
    assert s == s[..i] + [s[i]] + s[i + 1..j] + [s[j]] + s[j + 1..];
  }

  /** A rearrangement repeats nothing new. */
  lemma {:induction false} PermutationNoRepeats<A>(a: seq<A>, b: seq<A>)
    requires NoRepeats(a) && multiset(a) == multiset(b)
    ensures NoRepeats(b)
  {
    forall i, j | 0 <= i < j < |b| ensures b[i] != b[j] {
      if b[i] == b[j] {
        CountTwice(b, i, j);
        CountOnce(a, b[i]);
      }
    }
  }
}
