/** Outcome vectors with unknown entries, and every way of filling the unknowns in. */
module Completions {
  import opened Prelude
  import opened Sums
  import opened Ranks
  import opened RankVariance

  type Outcomes = seq<Option<real>>

  /** The known outcomes, in their order. */
  function Known(outcomes: Outcomes): (k: seq<real>)
    ensures |k| <= |outcomes|
  {
    if outcomes == [] then []
    else
      var n := |outcomes| - 1;
      Known(outcomes[..n]) + (if outcomes[n].Some? then [outcomes[n].value] else [])
  }

  function Missing(outcomes: Outcomes): nat { |outcomes| - |Known(outcomes)| }

  ghost predicate Completes(outcomes: Outcomes, full: seq<real>)
  {
    && |full| == |outcomes|
    && forall i :: 0 <= i < |full| && outcomes[i].Some? ==> full[i] == outcomes[i].value
  }

  /** The values a completion puts in the unknown places. */
  ghost function Hidden(outcomes: Outcomes, full: seq<real>): (h: seq<real>)
    requires Completes(outcomes, full)
    ensures |h| == Missing(outcomes)
  {
    if outcomes == [] then []
    else
      var n := |outcomes| - 1;
      Hidden(outcomes[..n], full[..n]) + (if outcomes[n].Some? then [] else [full[n]])
  }

  ghost function Fill(outcomes: Outcomes, hidden: seq<real>): (full: seq<real>)
    requires |hidden| == Missing(outcomes)
    ensures |full| == |outcomes|
  {
    if outcomes == [] then []
    else
      var n := |outcomes| - 1;
      if outcomes[n].Some? then Fill(outcomes[..n], hidden) + [outcomes[n].value]
      else Fill(outcomes[..n], hidden[..|hidden| - 1]) + [hidden[|hidden| - 1]]
  }

  lemma {:induction false} FillMatches(outcomes: Outcomes, hidden: seq<real>)
    requires |hidden| == Missing(outcomes)
    ensures Completes(outcomes, Fill(outcomes, hidden))
  {
    if outcomes != [] {
      var n := |outcomes| - 1;
      var rest := if outcomes[n].Some? then hidden else hidden[..|hidden| - 1];
      FillMatches(outcomes[..n], rest);
      assert Fill(outcomes, hidden)[..n] == Fill(outcomes[..n], rest);
      forall i | 0 <= i < n && outcomes[i].Some? ensures Fill(outcomes, hidden)[i] == outcomes[i].value {
        assert outcomes[..n][i] == outcomes[i];
      }
    }
  }

  lemma {:induction false} FillCompletes(outcomes: Outcomes, hidden: seq<real>)
    requires |hidden| == Missing(outcomes)
    ensures Completes(outcomes, Fill(outcomes, hidden))
    ensures Hidden(outcomes, Fill(outcomes, hidden)) == hidden
  {
    FillMatches(outcomes, hidden);
    if outcomes != [] {
      var n := |outcomes| - 1;
      var rest := if outcomes[n].Some? then hidden else hidden[..|hidden| - 1];
      FillCompletes(outcomes[..n], rest);
      var full := Fill(outcomes, hidden);
      assert full[..n] == Fill(outcomes[..n], rest);
      if outcomes[n].Some? {
        assert Hidden(outcomes, full) == rest;
      } else {
        assert Hidden(outcomes, full) == rest + [full[n]];
        assert full[n] == hidden[|hidden| - 1];
      }
    }
  }

  lemma {:induction false} MultisetSnoc(s: seq<real>, x: real)
    ensures multiset(s + [x]) == multiset(s) + multiset{x}
  {
  }

  lemma {:induction false} MultisetShuffle(a: multiset<real>, b: multiset<real>, c: multiset<real>)
    ensures (a + b) + c == (a + c) + b == a + (b + c)
  {
  }

  /** A completion is, up to order, the known values followed by the hidden ones. */
  lemma {:induction false} CompletionSplits(outcomes: Outcomes, full: seq<real>)
    requires Completes(outcomes, full)
    ensures multiset(full) == multiset(Known(outcomes)) + multiset(Hidden(outcomes, full))
  {
    if outcomes != [] {
      var n := |outcomes| - 1;
      var k, h, x := Known(outcomes[..n]), Hidden(outcomes[..n], full[..n]), full[n];
      CompletionSplits(outcomes[..n], full[..n]);
      assert full == full[..n] + [x];
      MultisetSnoc(full[..n], x);
      MultisetShuffle(multiset(k), multiset(h), multiset{x});
      if outcomes[n].Some? {
        MultisetSnoc(k, x);
        assert Known(outcomes) == k + [x] && Hidden(outcomes, full) == h;
      } else {
        MultisetSnoc(h, x);
        assert Known(outcomes) == k && Hidden(outcomes, full) == h + [x];
      }
    }
  }

  lemma {:induction false} KnownMember(outcomes: Outcomes, i: nat)
    requires i < |outcomes| && outcomes[i].Some?
    ensures outcomes[i].value in Known(outcomes)
  {
    var n := |outcomes| - 1;
    if i < n {
      KnownMember(outcomes[..n], i);
    }
  }

  lemma {:induction false} KnownSource(outcomes: Outcomes, y: real) returns (i: nat)
    requires y in Known(outcomes)
    ensures i < |outcomes| && outcomes[i] == Some(y)
  {
    var n := |outcomes| - 1;
    if y in Known(outcomes[..n]) {
      i := KnownSource(outcomes[..n], y);
    } else {
      i := n;
    }
  }

  lemma {:induction false} KnownPrefix(outcomes: Outcomes, i: nat)
    requires i <= |outcomes|
    ensures |Known(outcomes[..i])| <= |Known(outcomes)|
    ensures Known(outcomes)[..|Known(outcomes[..i])|] == Known(outcomes[..i])
  {
    var n := |outcomes| - 1;
    if i <= n {
      KnownPrefix(outcomes[..n], i);
      assert outcomes[..n][..i] == outcomes[..i];
    } else {
      assert outcomes[..i] == outcomes;
    }
  }

  /** The next known value an iterator over the known list meets at position i. */
  lemma {:induction false} KnownOrder(outcomes: Outcomes, i: nat)
    requires i < |outcomes|
    ensures |Known(outcomes[..i + 1])| == |Known(outcomes[..i])| + (if outcomes[i].Some? then 1 else 0)
    ensures |Known(outcomes[..i + 1])| <= |Known(outcomes)|
    ensures outcomes[i].Some? ==> Known(outcomes)[|Known(outcomes[..i])|] == outcomes[i].value
  {
    KnownPrefix(outcomes, i + 1);
    assert outcomes[..i + 1][..i] == outcomes[..i];
    var j := |Known(outcomes[..i + 1])|;
    if outcomes[i].Some? {
      assert Known(outcomes)[j - 1] == Known(outcomes)[..j][j - 1];
    }
  }

  /** Counts in a completion are counts among the known plus counts among the hidden. */
  lemma {:induction false} CountsSplit(outcomes: Outcomes, full: seq<real>, v: real)
    requires Completes(outcomes, full)
    ensures var k, h := Known(outcomes), Hidden(outcomes, full);
            && Position(v, full) == Position(v, k) + Position(v, h)
            && Less(v, full) == Less(v, k) + Less(v, h)
            && Equal(v, full) == Equal(v, k) + Equal(v, h)
  {
    var k, h := Known(outcomes), Hidden(outcomes, full);
    CompletionSplits(outcomes, full);
    assert multiset(k + h) == multiset(k) + multiset(h);
    SameMultisetCounts(v, full, k + h);
    SumAppend(SgnFrom(v), k, h);
    SumAppend(Below(v), k, h);
    SumAppend(Tied(v), k, h);
  }

  /** more hides at least every entry that less hides. */
  ghost predicate Hides(more: Outcomes, less: Outcomes)
  {
    && |more| == |less|
    && forall i :: 0 <= i < |more| && more[i].Some? ==> less[i] == more[i]
  }

  lemma {:induction false} CompletionsGrow(more: Outcomes, less: Outcomes, full: seq<real>)
    requires Hides(more, less) && Completes(less, full)
    ensures Completes(more, full)
  {
  }
}
