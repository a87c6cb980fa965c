/** The library sort of the source, as insertion into an ordered sequence. */
module Sorting {

  ghost predicate TotalPreorder<T(!new)>(le: (T, T) -> bool)
  {
    && (forall a, b :: le(a, b) || le(b, a))
    && (forall a, b, c :: le(a, b) && le(b, c) ==> le(a, c))
  }

  ghost predicate Antisymmetric<T(!new)>(le: (T, T) -> bool)
  {
    forall a, b :: le(a, b) && le(b, a) ==> a == b
  }

  ghost predicate Ordered<T(!new)>(s: seq<T>, le: (T, T) -> bool)
  {
    forall i, j :: 0 <= i < j < |s| ==> le(s[i], s[j])
  }

  /** x goes after every element that does not exceed it, so equal keys keep their order. */
  function Insert<T>(s: seq<T>, x: T, le: (T, T) -> bool): (r: seq<T>)
    ensures multiset(r) == multiset(s) + multiset{x}
  {
    if s == [] then [x]
    else
      var n := |s| - 1;
      assert s == s[..n] + [s[n]];
      if le(s[n], x) then s + [x] else Insert(s[..n], x, le) + [s[n]]
  }

  function Sorted<T>(s: seq<T>, le: (T, T) -> bool): (r: seq<T>)
    ensures multiset(r) == multiset(s)
  {
    if s == [] then []
    else
      var n := |s| - 1;
      assert s == s[..n] + [s[n]];
      Insert(Sorted(s[..n], le), s[n], le)
  }

  lemma {:induction false} InsertOrdered<T(!new)>(s: seq<T>, x: T, le: (T, T) -> bool)
    requires TotalPreorder(le) && Ordered(s, le)
    ensures Ordered(Insert(s, x, le), le)
  {
    if s != [] {
      var n := |s| - 1;
      if le(s[n], x) {
        forall i | 0 <= i < |s| ensures le(s[i], x) {
          assert le(s[i], s[n]) || i == n;
        }
      } else {
        InsertOrdered(s[..n], x, le);
        var r := Insert(s[..n], x, le);
        forall i | 0 <= i < |r| ensures le(r[i], s[n]) {
          assert r[i] in multiset(r);
          assert r[i] in multiset(s[..n]) || r[i] == x;
          if r[i] in multiset(s[..n]) {
            var j :| 0 <= j < n && s[j] == r[i];
          }
        }
      }
    }
  }

  lemma {:induction false} SortedOrdered<T(!new)>(s: seq<T>, le: (T, T) -> bool)
    requires TotalPreorder(le)
    ensures Ordered(Sorted(s, le), le)
  {
    if s != [] {
      SortedOrdered(s[..|s| - 1], le);
      InsertOrdered(Sorted(s[..|s| - 1], le), s[|s| - 1], le);
    }
  }

  lemma {:induction false} SameMaximum<T(!new)>(a: seq<T>, b: seq<T>, le: (T, T) -> bool)
    requires Antisymmetric(le) && Ordered(a, le) && Ordered(b, le)
    requires multiset(a) == multiset(b) && |a| == |b| > 0
    ensures a[|a| - 1] == b[|b| - 1]
  {
    var n := |a| - 1;
    assert a[n] in multiset(b) && b[n] in multiset(a);
    var i :| 0 <= i < |b| && b[i] == a[n];
    var j :| 0 <= j < |a| && a[j] == b[n];
  }

  lemma {:induction false} DropLast<T(!new)>(a: seq<T>)
    requires a != []
    ensures multiset(a[..|a| - 1]) == multiset(a) - multiset{a[|a| - 1]}
  {
    assert a == a[..|a| - 1] + [a[|a| - 1]];
  }

  lemma {:induction false} PrefixOrdered<T(!new)>(a: seq<T>, le: (T, T) -> bool)
    requires a != [] && Ordered(a, le)
    ensures Ordered(a[..|a| - 1], le)
  {
  }

  lemma {:induction false} SnocEqual<T>(a: seq<T>, b: seq<T>)
    requires |a| == |b| > 0 && a[..|a| - 1] == b[..|b| - 1] && a[|a| - 1] == b[|b| - 1]
    ensures a == b
  {
    assert a == a[..|a| - 1] + [a[|a| - 1]];
    assert b == b[..|b| - 1] + [b[|b| - 1]];
  }

  /** Two ordered arrangements of one multiset under an antisymmetric order are equal. */
  lemma {:induction false} OrderedUnique<T(!new)>(a: seq<T>, b: seq<T>, le: (T, T) -> bool)
    requires Antisymmetric(le)
    requires Ordered(a, le) && Ordered(b, le) && multiset(a) == multiset(b)
    ensures a == b
    decreases |a|
  {
    assert |a| == |multiset(a)| == |multiset(b)| == |b|;
    if a != [] {
      var n := |a| - 1;
      SameMaximum(a, b, le);
      DropLast(a);
      DropLast(b);
      PrefixOrdered(a, le);
      PrefixOrdered(b, le);
      OrderedUnique(a[..n], b[..n], le);
      SnocEqual(a, b);
    }
  }
}
