/** A cited text, the region it is located at, and the text that region spells. */
module SpanText {
  import opened Prelude
  import opened Utf8
  import opened SpanLocator
  import opened ClosedSchema

  /** Whitespace between words is whitespace in text as in bytes. */
  lemma {:induction false} SpaceIsBlank(c: int)
    requires IsSpace(c)
    ensures IsBlankPoint(c) && Scalar(c) && Unit(c) == [c]
  {
  }

  lemma {:induction false} UnitNoSpace(c: int)
    requires Scalar(c) && !IsSpace(c)
    ensures NoSpace(Unit(c))
  {
  }

  lemma {:induction false} SplitSnoc(s: seq<int>, x: int)
    ensures Split(s + [x]) == SplitStep(Split(s), x)
  {
    assert (s + [x])[..|s|] == s;
  }

  lemma {:induction false} SplitMore(s: seq<int>, y: seq<int>)
    requires NoSpace(y)
    ensures Split(s + y) == Splitting(Split(s).closed, Split(s).open + y)
  {
    hide Split, IsSpace;
    if y == [] {
      assert s + y == s && Split(s).open + y == Split(s).open;
    } else {
      var n := |y| - 1;
      SplitMore(s, y[..n]);
      SplitSnoc(s + y[..n], y[n]);
      assert s + y == s + y[..n] + [y[n]];
      assert Split(s).open + y == Split(s).open + y[..n] + [y[n]];
    }
  }

  predicate ScalarWords(words: seq<Text>) { forall i :: 0 <= i < |words| ==> AllScalar(words[i]) }

  /** The words of the bytes are the bytes of the words. */
  ghost predicate SameWords(words: seq<Text>, coded: seq<Bytes>)
    requires ScalarWords(words)
  {
    |words| == |coded| && forall i :: 0 <= i < |words| ==> coded[i] == Encoded(words[i])
  }

  lemma {:induction false} EncodedSnoc(t: Text)
    requires AllScalar(t) && t != []
    ensures Encoded(t) == Encoded(t[..|t| - 1]) + Unit(t[|t| - 1])
  {
    var n := |t| - 1;
    EncodedAppend(t[..n], [t[n]]);
    assert t == t[..n] + [t[n]];
    assert [t[n]][1..] == [];
  }

  lemma {:induction false} EncodedNone(t: Text)
    requires AllScalar(t)
    ensures Encoded(t) == [] <==> t == []
  {
  }

  lemma {:induction false} SplitEncoded(t: Text)
    requires AllScalar(t)
    ensures ScalarWords(Split(t).closed) && AllScalar(Split(t).open)
    ensures SameWords(Split(t).closed, Split(Encoded(t)).closed) && Split(Encoded(t)).open == Encoded(Split(t).open)
  {
    if t != [] {
      var n := |t| - 1;
      var before, c := t[..n], t[n];
      SplitEncoded(before);
      EncodedSnoc(t);
      var open := Split(before).open;
      if IsSpace(c) {
        SpaceIsBlank(c);
        SplitSnoc(Encoded(before), c);
        EncodedNone(open);
      } else {
        UnitNoSpace(c);
        SplitMore(Encoded(before), Unit(c));
        EncodedAppend(open, [c]);
        assert [c][1..] == [];
      }
    }
  }

  lemma {:induction false} WordsEncoded(t: Text)
    requires AllScalar(t)
    ensures ScalarWords(Words(t)) && SameWords(Words(t), Words(Encoded(t)))
  {
    SplitEncoded(t);
    EncodedNone(Split(t).open);
  }

  /** Some word holds the point. */
  predicate InWords(words: seq<Text>, c: int) { exists i :: 0 <= i < |words| && c in words[i] }

  lemma {:induction false} PointInSplit(t: Text, c: int)
    requires c in t && !IsSpace(c)
    ensures InWords(Split(t).closed, c) || c in Split(t).open
  {
    var n := |t| - 1;
    assert t == t[..n] + [t[n]];
    var p, q := Split(t[..n]), Split(t);
    if c in t[..n] {
      PointInSplit(t[..n], c);
      if InWords(p.closed, c) {
        var i :| 0 <= i < |p.closed| && c in p.closed[i];
        assert q.closed[i] == p.closed[i];
      } else if p.open != [] && IsSpace(t[n]) {
        assert q.closed[|p.closed|] == p.open;
      }
    }
  }

  lemma {:induction false} PointInWords(t: Text, c: int)
    requires c in t && !IsSpace(c)
    ensures InWords(Words(t), c)
  {
    PointInSplit(t, c);
    var p := Split(t);
    if InWords(p.closed, c) {
      var i :| 0 <= i < |p.closed| && c in p.closed[i];
      assert Words(t)[i] == p.closed[i];
    } else {
      assert Words(t)[|p.closed|] == p.open;
    }
  }

  /** Text that shows something still does as bytes. */
  lemma {:induction false} NotBlankBytes(t: Text)
    requires AllScalar(t) && !Blank(t)
    ensures !AllSpace(Encoded(t))
  {
    var i :| 0 <= i < |t| && !IsBlankPoint(t[i]);
    if IsSpace(t[i]) { SpaceIsBlank(t[i]); }
    PointInWords(t, t[i]);
    WordsEncoded(t);
    WordsProper(Encoded(t));
  }

  lemma {:induction false} GapText(doc: Bytes, i: nat, k: nat)
    requires i <= k <= |doc| && Gap(doc, i, k)
    ensures AllScalar(doc[i..k]) && Encoded(doc[i..k]) == doc[i..k]
    decreases k - i
  {
    if i < k {
      SpaceIsBlank(doc[i]);
      GapText(doc, i + 1, k);
      assert doc[i..k][1..] == doc[i + 1..k];
      assert doc[i..k] == [doc[i]] + doc[i + 1..k];
    }
  }

  /** Tail words of the text are tail words of the bytes. */
  lemma {:induction false} SameTail(words: seq<Text>, coded: seq<Bytes>)
    requires ScalarWords(words) && SameWords(words, coded) && words != []
    ensures ScalarWords(words[1..]) && SameWords(words[1..], coded[1..])
  {
  }

  /** The located region is itself text: the cited words with the document's own whitespace between them. */
  lemma {:induction false} SpelledText(words: seq<Text>, coded: seq<Bytes>, doc: Bytes, i: nat, end: nat)
    returns (t: Text)
    requires words != [] && ScalarWords(words) && SameWords(words, coded) && Spells(coded, doc, i, end)
    ensures i <= end <= |doc| && AllScalar(t) && Encoded(t) == doc[i..end]
    ensures forall c :: InWords(words, c) ==> c in t
    decreases |words|
  {
    hide Scalar, Unit, IsSpace;
    var w := words[0];
    var k := SpellsParts(coded, doc, i, end);
    var after := i + |coded[0]|;
    assert doc[i..after] == Encoded(w);
    if |words| == 1 {
      t := w;
    } else {
      SameTail(words, coded);
      var rest := SpelledText(words[1..], coded[1..], doc, k, end);
      GapText(doc, after, k);
      var gap := doc[after..k];
      EncodedAppend(gap, rest);
      EncodedAppend(w, gap + rest);
      t := w + (gap + rest);
      assert doc[i..end] == doc[i..after] + (doc[after..k] + doc[k..end]);
      forall c | InWords(words, c) ensures c in t {
        var j :| 0 <= j < |words| && c in words[j];
        if j > 0 { assert words[1..][j - 1] == words[j]; }
      }
    }
  }
}
