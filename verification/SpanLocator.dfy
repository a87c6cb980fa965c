/** The one region of a document that a cited span names, byte for byte or word by word. */
module SpanLocator {
  import opened Prelude
  import opened Utf8

  // ---- exact search

  predicate OccursAt(sub: Bytes, doc: Bytes, i: int)
  {
    0 <= i && i + |sub| <= |doc| && forall t :: 0 <= t < |sub| ==> doc[i + t] == sub[t]
  }

  /** The first place at or after a start where some bytes occur. */
  function Find(sub: Bytes, doc: Bytes, from: nat): (r: Option<nat>)
    ensures r.Some? ==> from <= r.value && OccursAt(sub, doc, r.value)
    ensures r.Some? ==> forall i :: from <= i < r.value ==> !OccursAt(sub, doc, i)
    ensures r.None? ==> forall i :: from <= i ==> !OccursAt(sub, doc, i)
    decreases |doc| - from
  {
    if from + |sub| > |doc| then None
    else if OccursAt(sub, doc, from) then Some(from)
    else if from >= |doc| then None
    else Find(sub, doc, from + 1)
  }

  // ---- words

  /** White space, as splitting and the pattern both see it. */
  predicate IsSpace(b: int) { 9 <= b <= 13 || b == 32 }

  predicate AllSpace(s: seq<int>) { forall i :: 0 <= i < |s| ==> IsSpace(s[i]) }

  predicate NoSpace(s: seq<int>) { forall i :: 0 <= i < |s| ==> !IsSpace(s[i]) }

  /** The words closed so far and the one still open. */
  datatype Splitting = Splitting(closed: seq<seq<int>>, open: seq<int>)

  function SplitStep(p: Splitting, x: int): Splitting
  {
    if !IsSpace(x) then p.(open := p.open + [x])
    else if p.open == [] then p
    else Splitting(p.closed + [p.open], [])
  }

  function Split(s: seq<int>): Splitting
  {
    if s == [] then Splitting([], []) else SplitStep(Split(s[..|s| - 1]), s[|s| - 1])
  }

  function WordsOf(p: Splitting): seq<seq<int>> { if p.open == [] then p.closed else p.closed + [p.open] }

  /** The words between white space. */
  function Words(s: seq<int>): seq<seq<int>> { WordsOf(Split(s)) }

  predicate ProperWords(words: seq<seq<int>>) { forall i :: 0 <= i < |words| ==> words[i] != [] && NoSpace(words[i]) }

  lemma {:induction false} SplitProper(s: seq<int>)
    ensures ProperWords(Split(s).closed) && NoSpace(Split(s).open)
    ensures !AllSpace(s) <==> Split(s).closed != [] || Split(s).open != []
  {
    if s != [] { SplitProper(s[..|s| - 1]); }
  }

  lemma {:induction false} WordsProper(s: seq<int>)
    ensures ProperWords(Words(s)) && (Words(s) != [] <==> !AllSpace(s))
  {
    SplitProper(s);
  }

  // ---- matching word by word

  predicate Gap(doc: Bytes, i: int, k: int)
    requires 0 <= i && k <= |doc|
  {
    forall t :: i <= t < k ==> IsSpace(doc[t])
  }

  /** Length of the run of whitespace that starts at i. */
  function Run(doc: Bytes, i: nat): (n: nat)
    requires i <= |doc|
    ensures i + n <= |doc| && Gap(doc, i, i + n)
    ensures i + n < |doc| ==> !IsSpace(doc[i + n])
    decreases |doc| - i
  {
    if i == |doc| || !IsSpace(doc[i]) then 0 else 1 + Run(doc, i + 1)
  }

  /**
   * Where the pattern word1 \s+ word2 ... ends when it matches at i. A word starts with no space, so each gap is a
   * whole run.
   */
  function MatchAt(words: seq<seq<int>>, doc: Bytes, i: nat): (end: Option<nat>)
    requires words != []
    ensures end.Some? ==> i <= end.value <= |doc|
    decreases |words|
  {
    var w := words[0];
    if !OccursAt(w, doc, i) then None
    else if |words| == 1 then Some(i + |w|)
    else
      var gap := Run(doc, i + |w|);
      if gap == 0 then None else MatchAt(words[1..], doc, i + |w| + gap)
  }

  /** From i to end the document holds the words in order with some whitespace between each two. */
  ghost predicate Spells(words: seq<seq<int>>, doc: Bytes, i: nat, end: nat)
    requires words != []
    decreases |words|
  {
    var after := i + |words[0]|;
    && OccursAt(words[0], doc, i) && end <= |doc|
    && if |words| == 1 then end == after
       else exists k :: after < k <= end && Gap(doc, after, k) && Spells(words[1..], doc, k, end)
  }

  lemma {:induction false} SpellsStart(words: seq<seq<int>>, doc: Bytes, i: nat, end: nat)
    requires words != [] && ProperWords(words) && Spells(words, doc, i, end)
    ensures i < end <= |doc| && !IsSpace(doc[i])
    decreases |words|
  {
    assert words[0] != [] && NoSpace(words[0]);
    assert doc[i + 0] == words[0][0];
  }

  lemma {:induction false} ProperTail(words: seq<seq<int>>)
    requires ProperWords(words) && words != []
    ensures ProperWords(words[1..])
  {
  }

  /** The matcher finds a spelling of the words. */
  lemma {:induction false} MatchSpells(words: seq<seq<int>>, doc: Bytes, i: nat)
    requires words != [] && MatchAt(words, doc, i).Some?
    ensures Spells(words, doc, i, MatchAt(words, doc, i).value)
    decreases |words|
  {
    if |words| > 1 {
      MatchSpells(words[1..], doc, i + |words[0]| + Run(doc, i + |words[0]|));
    }
  }

  lemma {:induction false} RunExact(doc: Bytes, i: nat, n: nat)
    requires i + n <= |doc| && Gap(doc, i, i + n) && (i + n < |doc| ==> !IsSpace(doc[i + n]))
    ensures Run(doc, i) == n
    decreases n
  {
    if n > 0 { RunExact(doc, i + 1, n - 1); }
  }

  lemma {:induction false} MatchStep(words: seq<seq<int>>, doc: Bytes, i: nat, k: nat)
    requires |words| > 1 && OccursAt(words[0], doc, i) && i + |words[0]| < k <= |doc|
    requires Run(doc, i + |words[0]|) == k - (i + |words[0]|)
    ensures MatchAt(words, doc, i) == MatchAt(words[1..], doc, k)
  {
    hide OccursAt, Run;
  }

  lemma {:induction false} MatchSole(words: seq<seq<int>>, doc: Bytes, i: nat)
    requires |words| == 1 && OccursAt(words[0], doc, i)
    ensures MatchAt(words, doc, i) == Some(i + |words[0]|)
  {
  }

  /** What one step of a spelling says. */
  lemma {:induction false} SpellsParts(words: seq<seq<int>>, doc: Bytes, i: nat, end: nat) returns (k: nat)
    requires words != [] && Spells(words, doc, i, end)
    ensures OccursAt(words[0], doc, i) && i + |words[0]| <= end <= |doc|
    ensures |words| == 1 ==> end == i + |words[0]|
    ensures |words| > 1 ==> i + |words[0]| < k <= end && Gap(doc, i + |words[0]|, k) && Spells(words[1..], doc, k, end)
  {
    hide OccursAt, Gap;
    k := i;
    if |words| > 1 {
      k :| i + |words[0]| < k <= end && Gap(doc, i + |words[0]|, k) && Spells(words[1..], doc, k, end);
    }
  }

  /** And every spelling is the match: at one start there is at most one end. */
  lemma {:induction false} SpellsMatch(words: seq<seq<int>>, doc: Bytes, i: nat, end: nat)
    requires words != [] && ProperWords(words) && Spells(words, doc, i, end)
    ensures MatchAt(words, doc, i) == Some(end)
    decreases |words|
  {
    hide *;
    var k := SpellsParts(words, doc, i, end);
    if |words| > 1 {
      ProperTail(words);
      SpellsStart(words[1..], doc, k, end);
      RunExact(doc, i + |words[0]|, k - (i + |words[0]|));
      MatchStep(words, doc, i, k);
      SpellsMatch(words[1..], doc, k, end);
    } else {
      MatchSole(words, doc, i);
    }
  }

  /** The bytes from i to end stand again s places further on. */
  predicate Shifted(doc: Bytes, i: int, end: int, s: int)
    requires 0 <= i && end <= |doc|
  {
    forall p :: i <= p < end ==> SameByte(doc, p, s)
  }

  predicate SameByte(doc: Bytes, p: int, s: int)
    requires 0 <= p < |doc|
  {
    0 <= p + s < |doc| && doc[p] == doc[p + s]
  }

  lemma {:induction false} OccursShifted(w: Bytes, doc: Bytes, i: nat, end: nat, s: int)
    requires OccursAt(w, doc, i) && i + |w| <= end <= |doc| && Shifted(doc, i, end, s) && 0 <= i + s && end + s <= |doc|
    ensures OccursAt(w, doc, i + s)
  {
    forall t | 0 <= t < |w| ensures doc[i + s + t] == w[t] {
      var p := i + t;
      assert doc[p] == w[t] && SameByte(doc, p, s);
    }
  }

  lemma {:induction false} GapShifted(doc: Bytes, i: nat, k: nat, s: int)
    requires k <= |doc| && Shifted(doc, i, k, s) && Gap(doc, i, k) && 0 <= i + s && k + s <= |doc|
    ensures Gap(doc, i + s, k + s)
  {
    forall t | i + s <= t < k + s ensures IsSpace(doc[t]) {
      var p := t - s;
      assert IsSpace(doc[p]) && SameByte(doc, p, s);
    }
  }

  lemma {:induction false} ShiftedPart(doc: Bytes, i: nat, end: nat, s: int, a: nat, b: nat)
    requires end <= |doc| && Shifted(doc, i, end, s) && i <= a && b <= end
    ensures Shifted(doc, a, b, s)
  {
  }

  /** A copy of a spelled region is spelled the same way. */
  lemma {:induction false} SpellsShifted(words: seq<seq<int>>, doc: Bytes, i: nat, end: nat, s: int)
    requires words != [] && Spells(words, doc, i, end) && i <= end
    requires Shifted(doc, i, end, s) && 0 <= i + s && end + s <= |doc|
    ensures Spells(words, doc, i + s, end + s)
    decreases |words|
  {
    hide OccursAt, Gap, Shifted;
    var k := SpellsParts(words, doc, i, end);
    OccursShifted(words[0], doc, i, end, s);
    if |words| > 1 {
      var after := i + |words[0]|;
      ShiftedPart(doc, i, end, s, after, k);
      ShiftedPart(doc, i, end, s, k, end);
      GapShifted(doc, after, k, s);
      SpellsShifted(words[1..], doc, k, end, s);
      var next := k + s;
      assert Gap(doc, i + s + |words[0]|, next) && Spells(words[1..], doc, next, end + s);
    }
  }

  // ---- the words of a text spell it

  lemma {:induction false} SpellsMore(words: seq<seq<int>>, doc: Bytes, i: nat, end: nat, x: int)
    requires words != [] && Spells(words, doc, i, end)
    ensures Spells(words, doc + [x], i, end)
    decreases |words|
  {
    hide OccursAt, Gap;
    var k := SpellsParts(words, doc, i, end);
    OccursMore(words[0], doc, i, x);
    if |words| > 1 {
      GapMore(doc, i + |words[0]|, k, x);
      SpellsMore(words[1..], doc, k, end, x);
    }
  }

  lemma {:induction false} OccursMore(w: seq<int>, doc: Bytes, i: nat, x: int)
    requires OccursAt(w, doc, i)
    ensures OccursAt(w, doc + [x], i)
  {
  }

  lemma {:induction false} GapMore(doc: Bytes, i: nat, k: nat, x: int)
    requires i <= k <= |doc| && Gap(doc, i, k)
    ensures Gap(doc + [x], i, k)
  {
  }

  /** One more word after a gap. */
  lemma {:induction false} SpellsSnoc(words: seq<seq<int>>, doc: Bytes, i: nat, end: nat, w: seq<int>, k: nat)
    requires words != [] && Spells(words, doc, i, end)
    requires end < k <= |doc| && Gap(doc, end, k) && OccursAt(w, doc, k)
    ensures Spells(words + [w], doc, i, k + |w|)
    decreases |words|
  {
    hide OccursAt, Gap;
    var j := SpellsParts(words, doc, i, end);
    var all := words + [w];
    OccursInside(w, doc, k);
    if |words| == 1 {
      assert all[1..] == [w];
      assert Spells(all[1..], doc, k, k + |w|);
    } else {
      SpellsSnoc(words[1..], doc, j, end, w, k);
      assert all[1..] == words[1..] + [w];
    }
  }

  lemma {:induction false} OccursInside(w: seq<int>, doc: Bytes, k: nat)
    requires OccursAt(w, doc, k)
    ensures k + |w| <= |doc|
  {
  }

  /** One more letter on the last word. */
  lemma {:induction false} SpellsLonger(words: seq<seq<int>>, w: seq<int>, doc: Bytes, i: nat, x: int)
    requires Spells(words + [w], doc, i, |doc|)
    ensures Spells(words + [w + [x]], doc + [x], i, |doc| + 1)
    decreases |words|
  {
    hide OccursAt, Gap;
    var all := words + [w];
    var j := SpellsParts(all, doc, i, |doc|);
    if words == [] {
      OccursLonger(w, doc, i, x);
    } else {
      assert all[1..] == words[1..] + [w];
      SpellsLonger(words[1..], w, doc, j, x);
      assert (words + [w + [x]])[1..] == words[1..] + [w + [x]];
      OccursMore(words[0], doc, i, x);
      GapMore(doc, i + |words[0]|, j, x);
    }
  }

  lemma {:induction false} OccursLonger(w: seq<int>, doc: Bytes, i: nat, x: int)
    requires OccursAt(w, doc, i) && i + |w| == |doc|
    ensures OccursAt(w + [x], doc + [x], i)
  {
  }

  /** The split's words are spelled from i to end and nothing but white space is left outside. */
  ghost predicate SplitsTo(p: Splitting, s: seq<int>, i: nat, end: nat)
  {
    if WordsOf(p) == [] then AllSpace(s)
    else
      && i <= end <= |s| && Spells(WordsOf(p), s, i, end) && AllSpace(s[..i]) && AllSpace(s[end..])
      && (p.open != [] <==> end == |s|)
  }

  lemma {:induction false} SplitStepSpells(p: Splitting, s: seq<int>, i: nat, end: nat, x: int)
    returns (j: nat, stop: nat)
    requires SplitsTo(p, s, i, end)
    ensures SplitsTo(SplitStep(p, x), s + [x], j, stop)
  {
    hide Spells, OccursAt, Gap;
    var words, t := WordsOf(p), s + [x];
    j, stop := i, end;
    if IsSpace(x) {
      if words != [] {
        SpellsMore(words, s, i, end, x);
        assert t[..i] == s[..i] && t[end..] == s[end..] + [x];
      }
    } else if p.open != [] {
      SpellsLonger(p.closed, p.open, s, i, x);
      stop := |t|;
      assert t[..i] == s[..i];
    } else {
      LetterAt(s, x);
      assert p.open + [x] == [x];
      stop := |t|;
      if words == [] {
        j := |s|;
        assert t[..j] == s && p.closed + [[x]] == [[x]];
        SpellsLetter(s, x);
      } else {
        SpellsMore(words, s, i, end, x);
        GapIs(s, end, x);
        SpellsSnoc(words, t, i, end, [x], |s|);
        assert t[..i] == s[..i];
      }
    }
  }

  lemma {:induction false} LetterAt(s: seq<int>, x: int)
    ensures OccursAt([x], s + [x], |s|)
  {
  }

  lemma {:induction false} SpellsLetter(s: seq<int>, x: int)
    ensures Spells([[x]], s + [x], |s|, |s| + 1)
  {
  }

  lemma {:induction false} GapIs(s: seq<int>, end: nat, x: int)
    requires end <= |s| && AllSpace(s[end..])
    ensures Gap(s + [x], end, |s|)
  {
    forall i | end <= i < |s| ensures IsSpace(s[i]) { assert s[i] == s[end..][i - end]; }
  }

  lemma {:induction false} SplitSpells(s: seq<int>) returns (i: nat, end: nat)
    ensures SplitsTo(Split(s), s, i, end)
  {
    i, end := 0, 0;
    if s != [] {
      var n := |s| - 1;
      i, end := SplitSpells(s[..n]);
      hide SplitsTo, SplitStep;
      i, end := SplitStepSpells(Split(s[..n]), s[..n], i, end, s[n]);
      assert s[..n] + [s[n]] == s;
    }
  }

  /** The words of a text spell the text itself, from its first visible byte to its last. */
  lemma {:induction false} WordsSpell(s: seq<int>) returns (i: nat, end: nat)
    requires !AllSpace(s)
    ensures Words(s) != [] && i < end <= |s| && AllSpace(s[..i]) && Spells(Words(s), s, i, end) && AllSpace(s[end..])
  {
    i, end := SplitSpells(s);
    hide Split, Spells, AllSpace, ProperWords;
    WordsProper(s);
    SpellsStart(Words(s), s, i, end);
  }

  /** The leftmost match of the words at or after a start. */
  function Search(words: seq<seq<int>>, doc: Bytes, from: nat): (r: Option<nat>)
    requires words != []
    ensures r.Some? ==> from <= r.value && MatchAt(words, doc, r.value).Some?
    ensures r.Some? ==> forall i: nat :: from <= i < r.value ==> MatchAt(words, doc, i).None?
    ensures r.None? ==> forall i: nat :: from <= i ==> MatchAt(words, doc, i).None?
    decreases |doc| - from
  {
    if MatchAt(words, doc, from).Some? then Some(from)
    else if from >= |doc| then None
    else Search(words, doc, from + 1)
  }

  // ---- locating a span

  datatype Region = Region(start: nat, end: nat)

  const NOT_UNIQUE := "EVIDENCE_SPAN_NOT_UNIQUE"

  function Locate(span: Bytes, doc: Bytes): (r: Result<Region>)
    requires !AllSpace(span)
  {
    WordsProper(span);
    var found := Find(span, doc, 0);
    if found.Some? then
      if Find(span, doc, found.value + 1).Some? then Err(NOT_UNIQUE) else Ok(Region(found.value, found.value + |span|))
    else
      var words := Words(span);
      var start := Search(words, doc, 0);
      if start.None? || Search(words, doc, start.value + 1).Some? then Err(NOT_UNIQUE)
      else Ok(Region(start.value, MatchAt(words, doc, start.value).value))
  }

  /** The located bytes occur at their own place and nowhere else. */
  ghost predicate OnlyAt(doc: Bytes, r: Region)
  {
    && r.start < r.end <= |doc|
    && forall i :: OccursAt(doc[r.start..r.end], doc, i) ==> i == r.start
  }

  lemma {:induction false} CopyOf(doc: Bytes, r: Region, i: nat)
    requires r.start <= r.end <= |doc| && OccursAt(doc[r.start..r.end], doc, i)
    ensures i + (r.end - r.start) <= |doc| && Shifted(doc, r.start, r.end, i - r.start)
  {
    var s := i - r.start;
    forall p | r.start <= p < r.end ensures SameByte(doc, p, s) {
      var t := p - r.start;
      assert doc[r.start..r.end][t] == doc[i + t];
    }
  }

  lemma {:induction false} FoundOnce(span: Bytes, doc: Bytes)
    requires !AllSpace(span) && Find(span, doc, 0).Some? && Locate(span, doc).Ok?
    ensures var r := Locate(span, doc).value; OnlyAt(doc, r) && doc[r.start..r.end] == span
  {
    var r := Locate(span, doc).value;
    assert doc[r.start..r.end] == span;
    forall i | OccursAt(span, doc, i) ensures i == r.start {
      assert i < r.start || i == r.start || r.start + 1 <= i;
    }
  }

  lemma {:induction false} MatchedOnce(span: Bytes, doc: Bytes)
    requires !AllSpace(span) && Find(span, doc, 0).None? && Locate(span, doc).Ok?
    ensures Words(span) != []
    ensures var r := Locate(span, doc).value; OnlyAt(doc, r) && Spells(Words(span), doc, r.start, r.end)
  {
    hide *;
    WordsProper(span);
    var r, words := Locate(span, doc).value, Words(span);
    LocatedMatch(span, doc);
    MatchSpells(words, doc, r.start);
    SpellsStart(words, doc, r.start, r.end);
    forall i: nat | OccursAt(doc[r.start..r.end], doc, i) ensures i == r.start {
      CopyOf(doc, r, i);
      SpellsShifted(words, doc, r.start, r.end, i - r.start);
      SpellsMatch(words, doc, i, i + (r.end - r.start));
      LeftmostOnly(span, doc, i);
    }
    OnlyAtIs(doc, r);
  }

  lemma {:induction false} OnlyAtIs(doc: Bytes, r: Region)
    requires r.start < r.end <= |doc| && forall i: nat :: OccursAt(doc[r.start..r.end], doc, i) ==> i == r.start
    ensures OnlyAt(doc, r)
  {
    forall i | OccursAt(doc[r.start..r.end], doc, i) ensures i == r.start {
      var n: nat := i;
      assert OccursAt(doc[r.start..r.end], doc, n);
    }
  }

  lemma {:induction false} LocatedMatch(span: Bytes, doc: Bytes)
    requires !AllSpace(span) && Find(span, doc, 0).None? && Locate(span, doc).Ok?
    ensures Words(span) != []
    ensures var r := Locate(span, doc).value; MatchAt(Words(span), doc, r.start) == Some(r.end)
  {
    WordsProper(span);
    hide MatchAt, Words;
  }

  /** No other start matches: not before the leftmost one, and the second search found none after it. */
  lemma {:induction false} LeftmostOnly(span: Bytes, doc: Bytes, i: nat)
    requires !AllSpace(span) && Find(span, doc, 0).None? && Locate(span, doc).Ok?
    requires Words(span) != [] && MatchAt(Words(span), doc, i).Some?
    ensures i == Locate(span, doc).value.start
  {
    hide MatchAt, Words;
  }

  /** Locating the located bytes again gives the same region: by exact search, whichever search found it first. */
  lemma {:induction false} LocateAgain(doc: Bytes, r: Region)
    requires OnlyAt(doc, r) && !AllSpace(doc[r.start..r.end])
    ensures Locate(doc[r.start..r.end], doc) == Ok(r)
  {
    var bytes := doc[r.start..r.end];
    assert OccursAt(bytes, doc, r.start);
    assert Find(bytes, doc, 0) == Some(r.start);
    assert Find(bytes, doc, r.start + 1) == None;
    LocateFound(bytes, doc, r.start);
  }

  lemma {:induction false} LocateFound(span: Bytes, doc: Bytes, start: nat)
    requires !AllSpace(span) && Find(span, doc, 0) == Some(start) && Find(span, doc, start + 1) == None
    ensures Locate(span, doc) == Ok(Region(start, start + |span|))
  {
    hide Words, MatchAt, OccursAt;
  }

  /** One place exactly. */
  ghost predicate Sole(at: int -> bool) { exists i :: at(i) && forall j :: at(j) ==> j == i }

  function Occurrence(span: Bytes, doc: Bytes): int -> bool { (i: int) => OccursAt(span, doc, i) }

  predicate MatchesAt(words: seq<seq<int>>, doc: Bytes, i: int)
    requires words != []
  {
    0 <= i && MatchAt(words, doc, i).Some?
  }

  function Match(words: seq<seq<int>>, doc: Bytes): int -> bool
    requires words != []
  {
    (i: int) => MatchesAt(words, doc, i)
  }

  /**
   * A span is located exactly when its bytes occur once, or never while its words match from one start:
   * the tolerant search can reach what the exact one cannot, and can never settle what the exact one found twice.
   */
  lemma {:induction false} LocatesIff(span: Bytes, doc: Bytes)
    requires !AllSpace(span)
    ensures Words(span) != []
    ensures Locate(span, doc).Ok?
            <==> Sole(Occurrence(span, doc)) || ((forall i :: !OccursAt(span, doc, i)) && Sole(Match(Words(span), doc)))
  {
    WordsProper(span);
    hide Words, MatchAt, OccursAt;
    var found := Find(span, doc, 0);
    NoneBefore(span, doc);
    if found.Some? {
      FindSole(span, doc, found.value);
    } else {
      var start := Search(Words(span), doc, 0);
      if start.Some? { SearchSole(Words(span), doc, start.value); }
    }
  }

  lemma {:induction false} NoneBefore(span: Bytes, doc: Bytes)
    ensures forall i :: i < 0 ==> !OccursAt(span, doc, i)
  {
  }

  lemma {:induction false} FindSole(span: Bytes, doc: Bytes, first: nat)
    requires Find(span, doc, 0) == Some(first)
    ensures Sole(Occurrence(span, doc)) <==> Find(span, doc, first + 1).None?
  {
    NoneBefore(span, doc);
    hide OccursAt;
    var at := Occurrence(span, doc);
    assert at(first);
    var next := Find(span, doc, first + 1);
    if next.Some? {
      assert at(next.value);
    } else {
      forall j | at(j) ensures j == first {
        assert OccursAt(span, doc, j);
      }
    }
  }

  lemma {:induction false} SearchSole(words: seq<seq<int>>, doc: Bytes, first: nat)
    requires words != [] && Search(words, doc, 0) == Some(first)
    ensures Sole(Match(words, doc)) <==> Search(words, doc, first + 1).None?
  {
    hide MatchAt;
    var at := Match(words, doc);
    assert at(first);
    var next := Search(words, doc, first + 1);
    if next.Some? {
      assert at(next.value);
    } else {
      forall j | at(j) ensures j == first {
        assert MatchesAt(words, doc, j);
      }
    }
  }
}
