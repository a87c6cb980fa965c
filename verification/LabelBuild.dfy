/** Building labels from market data at a knowledge cutoff. */
module LabelBuild {
  import opened Prelude
  import opened Clock
  import opened Vectors
  import opened Labels
  import opened Multisets
  import opened Sorting
  import opened ResearchStore
  import opened LabelMeaning

  // ---- one key's observation

  const NO_PRICE := "OUTCOME_PRICE_UNAVAILABLE"
  const NO_BASIS := "OUTCOME_PRICE_OR_BASIS_UNAVAILABLE"
  const NO_CALENDAR := "FUTURE_CALENDAR_UNAVAILABLE"

  function Find<V>(m: map<Cell, V>, symbol: int, session: Session): Option<V>
  {
    if Cell(symbol, session) in m then Some(m[Cell(symbol, session)]) else None
  }

  /** The value at the horizon's end: a price, or else a verified exit reference. */
  function LastOf(d: Data, symbol: int, end: Session): Option<Exit>
  {
    match Find(Source(d), symbol, end)
    case Some(p) => Some(Exit(p.availableAt, p.returnClose, p.basis))
    case None => Find(d.exits, symbol, end)
  }

  /** In outcome mode the scoring day's own price, known by then, anchors the whole chain. */
  predicate Anchored(d: Data, k: Key, first: Option<Price>, last: Option<Exit>)
  {
    var anchor := Find(d.outcomes, k.symbol, SessionOf(k.asOf));
    && anchor.Some? && anchor.value.availableAt <= k.asOf && first.Some? && last.Some?
    && anchor.value.basis == first.value.basis == last.value.basis
  }

  function Priced(d: Data, k: Key, entry: Session, end: Session, cutoff: Time): Observation
    requires ValidData(d)
  {
    var first, last := Find(Source(d), k.symbol, entry), LastOf(d, k.symbol, end);
    if d.outcomesEnabled && !Anchored(d, k, first, last) then
      Observation(Some(entry), Some(end), None, None, Some(NO_BASIS))
    else if first.None? || last.None? then Observation(Some(entry), Some(end), None, None, Some(NO_PRICE))
    else
      var ready := Max(first.value.availableAt, last.value.availableAt);
      if ready < cutoff then
        Observation(Some(entry), Some(end), Some(last.value.returnClose / first.value.returnOpen - 1.0), Some(ready),
                    None)
      else Observation(Some(entry), Some(end), None, None, Some(UNSEEN))
  }

  function Observe(d: Data, horizon: nat, cutoff: Time, k: Key): Observation
    requires ValidData(d) && SessionOf(k.asOf) in d.sessions && 1 <= horizon
  {
    var position := IndexOf(d.sessions, SessionOf(k.asOf));
    if |d.sessions| <= position + horizon then Observation(None, None, None, None, Some(NO_CALENDAR))
    else
      var entry, end := d.sessions[position + 1], d.sessions[position + horizon];
      if SessionOf(cutoff) <= end then Observation(Some(entry), Some(end), None, None, Some(IMMATURE))
      else Priced(d, k, entry, end, cutoff)
  }

  /** An observation built at c1 and censored at c2 is the observation built at c2. */
  lemma {:induction false} ObserveRecut(d: Data, horizon: nat, k: Key, c1: Time, c2: Time)
    requires ValidData(d) && SessionOf(k.asOf) in d.sessions && 1 <= horizon && c2 <= c1
    ensures At(Observe(d, horizon, c1, k), c2) == Observe(d, horizon, c2, k)
    ensures Consistent(Observe(d, horizon, c1, k))
  {
    SessionMonotone(c2, c1);
  }

  /** What is built is good: inside its window, after it closed, and explained when unknown. */
  lemma {:induction false} ObserveGood(d: Data, horizon: nat, k: Key, c: Time)
    requires ValidData(d) && SessionOf(k.asOf) in d.sessions && 1 <= horizon
    ensures Good(k, Observe(d, horizon, c, k))
  {
  }

  /** How many sessions lie after one day and not after another. */
  function CountAfter(s: seq<Session>, after: Session, upTo: Session): nat
  {
    if s == [] then 0
    else CountAfter(s[..|s| - 1], after, upTo) + if after < s[|s| - 1] <= upTo then 1 else 0
  }

  lemma {:induction false} CountIs(s: seq<Session>, after: Session, upTo: Session, p: int, q: int)
    requires -1 <= p <= q < |s|
    requires forall i :: 0 <= i < |s| ==> (after < s[i] <==> p < i) && (s[i] <= upTo <==> i <= q)
    ensures CountAfter(s, after, upTo) == q - p
  {
    if s != [] {
      var n := |s| - 1;
      var t := s[..n];
      assert after < s[n] <==> p < n;
      if n == 0 {
        assert CountAfter(t, after, upTo) == 0;
      } else {
        forall i | 0 <= i < n ensures (after < t[i] <==> Min(p, n - 1) < i) && (t[i] <= upTo <==> i <= Min(q, n - 1)) {
          assert t[i] == s[i];
        }
        CountIs(t, after, upTo, Min(p, n - 1), Min(q, n - 1));
      }
    }
  }

  /** Both ends of the holding are on record by the cutoff, on one price chain where the mode asks for it. */
  predicate HeldPair(d: Data, k: Key, entry: Session, end: Session, cutoff: Time)
  {
    var first, last := Find(Source(d), k.symbol, entry), LastOf(d, k.symbol, end);
    && first.Some? && last.Some? && first.value.availableAt < cutoff && last.value.availableAt < cutoff
    && (d.outcomesEnabled ==> Anchored(d, k, first, last))
  }

  /**
   * The window opens on the first session after scoring and closes on the horizon-th; it exists while the calendar
   * reaches.
   */
  lemma {:induction false} WindowIs(d: Data, horizon: nat, c: Time, k: Key)
    requires ValidData(d) && SessionOf(k.asOf) in d.sessions && 1 <= horizon
    ensures var o, day := Observe(d, horizon, c, k), SessionOf(k.asOf);
            && (o.entry.Some? <==> o.end.Some?)
            && (o.end.Some? <==> horizon <= CountAfter(d.sessions, day, d.sessions[|d.sessions| - 1]))
            && (o.end.Some? ==> && o.entry.value in d.sessions && CountAfter(d.sessions, day, o.entry.value) == 1
                                && o.end.value in d.sessions && CountAfter(d.sessions, day, o.end.value) == horizon)
  {
    var p, n := IndexOf(d.sessions, SessionOf(k.asOf)), |d.sessions|;
    SpanCount(d.sessions, p, n - 1);
    if p + horizon < n {
      SpanCount(d.sessions, p, p + 1);
      SpanCount(d.sessions, p, p + horizon);
    }
    PricedWindow(d, k, horizon, c);
    hide CountAfter, Priced, ValidData, SessionOf;
  }

  lemma {:induction false} SpanCount(s: seq<Session>, p: nat, q: nat)
    requires Ascending(s) && p <= q < |s|
    ensures CountAfter(s, s[p], s[q]) == q - p
  {
    hide CountAfter;
    CountIs(s, s[p], s[q], p, q);
  }

  lemma {:induction false} PricedWindow(d: Data, k: Key, horizon: nat, c: Time)
    requires ValidData(d)
    ensures forall entry, end :: Priced(d, k, entry, end, c).entry == Some(entry)
                              && Priced(d, k, entry, end, c).end == Some(end)
  {
  }

  /**
   * The return is known exactly when the horizon is over and both its prices were known, and it is what holding
   * would have earned.
   */
  lemma {:induction false} ReturnIs(d: Data, horizon: nat, c: Time, k: Key)
    requires ValidData(d) && SessionOf(k.asOf) in d.sessions && 1 <= horizon
    ensures var o := Observe(d, horizon, c, k);
            && (o.end.Some? ==> o.entry.Some?)
            && (o.value.Some?
                <==> o.end.Some? && o.end.value < SessionOf(c) && HeldPair(d, k, o.entry.value, o.end.value, c))
            && (o.value.Some? ==>
                  var first, last := Find(Source(d), k.symbol, o.entry.value).value,
                                     LastOf(d, k.symbol, o.end.value).value;
                  && Times(1.0 + o.value.value, first.returnOpen) == last.returnClose
                  && o.ready == Some(Max(first.availableAt, last.availableAt)))
  {
    var o := Observe(d, horizon, c, k);
    if o.value.Some? {
      var first, last := Find(Source(d), k.symbol, o.entry.value).value, LastOf(d, k.symbol, o.end.value).value;
      Earned(first.returnOpen, last.returnClose);
    }
  }

  lemma {:induction false} Earned(open: real, close: real)
    requires 0.0 < open
    ensures Times(1.0 + (close / open - 1.0), open) == close
  {
  }

  // ---- the scored keys

  /** The order of sample keys: by symbol, then by scoring time. */
  predicate KeyBefore(a: Key, b: Key) { a.symbol < b.symbol || (a.symbol == b.symbol && a.asOf <= b.asOf) }

  function KeyOrder(): (Key, Key) -> bool { (a: Key, b: Key) => KeyBefore(a, b) }

  function UniverseKeys(u: Universe): (r: seq<Key>)
    ensures |r| == |u.symbols| && forall i :: 0 <= i < |r| ==> r[i] == Key(u.symbols[i], u.asOf)
  {
    seq(|u.symbols|, i requires 0 <= i < |u.symbols| => Key(u.symbols[i], u.asOf))
  }

  function PoolKeys(us: seq<Universe>, scoring: set<Session>): seq<Key>
  {
    if us == [] then []
    else
      var last := us[|us| - 1];
      PoolKeys(us[..|us| - 1], scoring) + if SessionOf(last.asOf) in scoring then UniverseKeys(last) else []
  }

  function Keys(d: Data): seq<Key> { Sorted(PoolKeys(d.universes, d.scoring), KeyOrder()) }

  /** Where a pool key comes from. */
  ghost predicate FromUniverse(us: seq<Universe>, scoring: set<Session>, k: Key)
  {
    exists i :: 0 <= i < |us| && SessionOf(us[i].asOf) in scoring && us[i].asOf == k.asOf && k.symbol in us[i].symbols
  }

  lemma {:induction false} PoolKeysFrom(us: seq<Universe>, scoring: set<Session>)
    ensures forall k :: k in PoolKeys(us, scoring) ==> FromUniverse(us, scoring, k)
  {
    if us != [] {
      var n := |us| - 1;
      PoolKeysFrom(us[..n], scoring);
      forall k | k in PoolKeys(us, scoring) ensures FromUniverse(us, scoring, k) {
        if k in PoolKeys(us[..n], scoring) {
          var i :| 0 <= i < n && SessionOf(us[..n][i].asOf) in scoring && us[..n][i].asOf == k.asOf
                && k.symbol in us[..n][i].symbols;
          assert us[i] == us[..n][i];
        } else {
          assert k in UniverseKeys(us[n]);
          assert us[n].asOf == k.asOf;
        }
      }
    }
  }

  lemma {:induction false} PoolKeysHave(us: seq<Universe>, scoring: set<Session>, i: nat, symbol: int)
    requires i < |us| && SessionOf(us[i].asOf) in scoring && symbol in us[i].symbols
    ensures Key(symbol, us[i].asOf) in PoolKeys(us, scoring)
  {
    var n := |us| - 1;
    if i < n {
      assert us[..n][i] == us[i];
      PoolKeysHave(us[..n], scoring, i, symbol);
    } else {
      var j :| 0 <= j < |us[n].symbols| && us[n].symbols[j] == symbol;
      assert UniverseKeys(us[n])[j] == Key(symbol, us[i].asOf);
    }
  }

  ghost predicate OneEach(us: seq<Universe>)
  {
    && (forall i :: 0 <= i < |us| ==> Ascending(us[i].symbols))
    && forall i, j :: 0 <= i < j < |us| ==> us[i].asOf != us[j].asOf
  }

  lemma {:induction false} PoolKeysOnce(us: seq<Universe>, scoring: set<Session>)
    requires OneEach(us)
    ensures NoRepeats(PoolKeys(us, scoring))
  {
    if us != [] {
      var n := |us| - 1;
      PoolKeysOnce(us[..n], scoring);
      PoolKeysFrom(us[..n], scoring);
      var before, last := PoolKeys(us[..n], scoring), UniverseKeys(us[n]);
      forall i, j | 0 <= i < |before| && 0 <= j < |last| ensures before[i] != last[j] {
        assert before[i] in before;
        var m :| 0 <= m < n && us[..n][m].asOf == before[i].asOf;
        assert us[m].asOf != us[n].asOf;
      }
      assert Ascending(us[n].symbols);
    }
  }

  /** The keys are distinct, lie on the calendar, and no scoring time holds a single stock. */
  lemma {:induction false} KeysArePools(d: Data)
    requires ValidData(d)
    ensures NoRepeats(Keys(d)) && forall k :: k in Keys(d) ==> SessionOf(k.asOf) in d.sessions
    ensures forall i :: 0 <= i < |Keys(d)| ==> 2 <= |Members(Keys(d), Keys(d)[i].asOf)|
  {
    var pool, keys := PoolKeys(d.universes, d.scoring), Keys(d);
    assert OneEach(d.universes) by {
      forall i, j | 0 <= i < j < |d.universes| ensures d.universes[i].asOf != d.universes[j].asOf {
        assert SessionOf(d.universes[i].asOf) != SessionOf(d.universes[j].asOf);
      }
      forall i | 0 <= i < |d.universes| ensures Ascending(d.universes[i].symbols) {
        assert ValidUniverse(d, d.universes[i]);
      }
    }
    PoolKeysOnce(d.universes, d.scoring);
    PermutationNoRepeats(pool, keys);
    PoolKeysFrom(d.universes, d.scoring);
    forall k | k in keys ensures SessionOf(k.asOf) in d.sessions && 2 <= |Members(keys, k.asOf)| {
      assert k in multiset(keys) && k in multiset(pool);
      PoolOfTwo(d, k);
    }
  }

  lemma {:induction false} PoolOfTwo(d: Data, k: Key)
    requires ValidData(d) && k in PoolKeys(d.universes, d.scoring)
    ensures SessionOf(k.asOf) in d.sessions && 2 <= |Members(Keys(d), k.asOf)|
  {
    PoolKeysFrom(d.universes, d.scoring);
    var us, keys := d.universes, Keys(d);
    assert FromUniverse(us, d.scoring, k);
    var i: nat :| i < |us| && SessionOf(us[i].asOf) in d.scoring && us[i].asOf == k.asOf && k.symbol in us[i].symbols;
    assert ValidUniverse(d, us[i]);
    var a, b := Key(us[i].symbols[0], k.asOf), Key(us[i].symbols[1], k.asOf);
    PoolKeysHave(us, d.scoring, i, us[i].symbols[0]);
    PoolKeysHave(us, d.scoring, i, us[i].symbols[1]);
    assert a in multiset(PoolKeys(us, d.scoring)) && b in multiset(PoolKeys(us, d.scoring));
    assert a in multiset(keys) && b in multiset(keys);
    MembersAre(keys, k.asOf);
    TwoMembers(Members(keys, k.asOf), a, b);
  }

  lemma {:induction false} TwoMembers(s: seq<Key>, a: Key, b: Key)
    requires a in s && b in s && a != b
    ensures 2 <= |s|
  {
  }

  // ---- building the label rows

  function Observations(d: Data, horizon: nat, cutoff: Time, keys: seq<Key>): (m: map<Key, Observation>)
    requires ValidData(d) && 1 <= horizon && forall k :: k in keys ==> SessionOf(k.asOf) in d.sessions
    ensures forall k :: k in m <==> k in keys
    ensures forall k :: k in keys ==> m[k] == Observe(d, horizon, cutoff, k)
  {
    map k | k in keys :: Observe(d, horizon, cutoff, k)
  }

  /** The labels of a data set at a cutoff. */
  function LabelsAt(d: Data, horizon: nat, cutoff: Time): seq<LabelRow>
    requires ValidData(d) && 1 <= horizon
  {
    KeysArePools(d);
    Rows(Keys(d), Observations(d, horizon, cutoff, Keys(d)), cutoff)
  }

  lemma {:induction false} WindowOfDay(d: Data, horizon: nat, c: Time, a: Key, b: Key)
    requires ValidData(d) && 1 <= horizon && a.asOf == b.asOf && SessionOf(a.asOf) in d.sessions
    ensures SameWindow(Observe(d, horizon, c, a), Observe(d, horizon, c, b))
  {
  }

  lemma {:induction false} BuiltPool(d: Data, horizon: nat, c: Time)
    requires ValidData(d) && 1 <= horizon
    ensures forall k :: k in Keys(d) ==> SessionOf(k.asOf) in d.sessions
    ensures GoodPool(Keys(d), Observations(d, horizon, c, Keys(d)))
  {
    KeysArePools(d);
    hide Keys, Observe, SameWindow, Good, ValidData;
    var keys := Keys(d);
    var observations := Observations(d, horizon, c, keys);
    forall i | 0 <= i < |keys| ensures Good(keys[i], observations[keys[i]]) && keys[i] in observations {
      assert keys[i] in keys;
      ObserveGood(d, horizon, keys[i], c);
    }
    forall i, j | 0 <= i < |keys| && 0 <= j < |keys| && keys[i].asOf == keys[j].asOf
      ensures SameWindow(observations[keys[i]], observations[keys[j]])
    {
      assert keys[i] in keys && keys[j] in keys;
      WindowOfDay(d, horizon, c, keys[i], keys[j]);
    }
  }

  // ---- what the rows say

  lemma {:induction false} WindowAt(d: Data, day: Session, horizon: nat, entry: Session, end: Session)
    requires ValidData(d) && day in d.sessions && 1 <= horizon
    ensures var p := IndexOf(d.sessions, day);
            IsWindow(d, day, horizon, entry, end)
            <==> p + horizon < |d.sessions| && entry == d.sessions[p + 1] && end == d.sessions[p + horizon]
  {
    var p := IndexOf(d.sessions, day);
    assert Ascending(d.sessions);
    hide ValidData, IndexOf;
    if IsWindow(d, day, horizon, entry, end) {
      var q: nat :| q + horizon < |d.sessions| && d.sessions[q] == day && entry == d.sessions[q + 1]
                 && end == d.sessions[q + horizon];
      assert p == q;
    }
  }

  lemma {:induction false} QuotedIs(d: Data, symbol: int, day: Session, p: Price)
    ensures Quoted(d, symbol, day, p) <==> Find(Source(d), symbol, day) == Some(p)
  {
  }

  lemma {:induction false} ClosesIs(d: Data, symbol: int, day: Session, sell: real, at: Time, basis: int)
    ensures Closes(d, symbol, day, sell, at, basis) <==> LastOf(d, symbol, day) == Some(Exit(at, sell, basis))
  {
    forall p: Price ensures Quoted(d, symbol, day, p) <==> Find(Source(d), symbol, day) == Some(p) {
      QuotedIs(d, symbol, day, p);
    }
    hide Quoted;
  }

  lemma {:induction false} AnchorsIs(d: Data, k: Key, first: Price, last: Exit)
    ensures Anchored(d, k, Some(first), Some(last)) <==> Anchors(d, k, first.basis) && last.basis == first.basis
  {
  }

  /** A complete pair on record is the pair the build looks up. */
  lemma {:induction false} OnRecordIs(d: Data, k: Key, entry: Session, end: Session, buy: real, sell: real, ready: Time)
    ensures var first, last := Find(Source(d), k.symbol, entry), LastOf(d, k.symbol, end);
            OnRecord(d, k, entry, end, buy, sell, ready)
            <==> && first.Some? && last.Some? && buy == first.value.returnOpen && sell == last.value.returnClose
                 && ready == Max(first.value.availableAt, last.value.availableAt)
                 && (d.outcomesEnabled ==> Anchored(d, k, first, last))
  {
    var first, last := Find(Source(d), k.symbol, entry), LastOf(d, k.symbol, end);
    forall p: Price ensures Quoted(d, k.symbol, entry, p) <==> first == Some(p) {
      QuotedIs(d, k.symbol, entry, p);
    }
    forall s: real, at: int, basis: int
      ensures Closes(d, k.symbol, end, s, at, basis) <==> last == Some(Exit(at, s, basis)) {
      ClosesIs(d, k.symbol, end, s, at, basis);
    }
    if first.Some? && last.Some? { AnchorsIs(d, k, first.value, last.value); }
    hide Quoted, Closes, Anchors, Anchored, LastOf, Source, Find;
    if first.Some? && last.Some? {
      assert Quoted(d, k.symbol, entry, first.value);
      assert Closes(d, k.symbol, end, last.value.returnClose, last.value.availableAt, last.value.basis);
    }
  }

  /** A complete pair is on record, on one basis where the mode asks for it. */
  predicate Paired(d: Data, k: Key, entry: Session, end: Session)
  {
    var first, last := Find(Source(d), k.symbol, entry), LastOf(d, k.symbol, end);
    first.Some? && last.Some? && (d.outcomesEnabled ==> Anchored(d, k, first, last))
  }

  lemma {:induction false} PairedIs(d: Data, k: Key, entry: Session, end: Session)
    ensures Paired(d, k, entry, end)
       <==> exists buy: real, sell: real, ready: int :: OnRecord(d, k, entry, end, buy, sell, ready)
  {
    var first, last := Find(Source(d), k.symbol, entry), LastOf(d, k.symbol, end);
    if Paired(d, k, entry, end) {
      OnRecordIs(d, k, entry, end, first.value.returnOpen, last.value.returnClose,
                 Max(first.value.availableAt, last.value.availableAt));
    }
    if buy: real, sell: real, ready: int :| OnRecord(d, k, entry, end, buy, sell, ready) {
      OnRecordIs(d, k, entry, end, buy, sell, ready);
    }
    hide OnRecord, Anchored, LastOf, Source, Find;
  }

  lemma {:induction false} EarnsIs(d: Data, k: Key, entry: Session, end: Session, c: Time, v: real, t: Time)
    ensures Earns(d, k, entry, end, c, v, t)
       <==> && end < SessionOf(c) && t < c && Paired(d, k, entry, end)
            && var first, last := Find(Source(d), k.symbol, entry).value, LastOf(d, k.symbol, end).value;
               t == Max(first.availableAt, last.availableAt) && Times(1.0 + v, first.returnOpen) == last.returnClose
  {
    var first, last := Find(Source(d), k.symbol, entry), LastOf(d, k.symbol, end);
    hide OnRecord, Anchored, LastOf, Source, Find, Times;
    if Paired(d, k, entry, end) {
      OnRecordIs(d, k, entry, end, first.value.returnOpen, last.value.returnClose, t);
    }
    if buy: real, sell: real :| OnRecord(d, k, entry, end, buy, sell, t) && Times(1.0 + v, buy) == sell {
      OnRecordIs(d, k, entry, end, buy, sell, t);
    }
  }

  /** The observation of a finished window. */
  lemma {:induction false} PricedTells(d: Data, k: Key, entry: Session, end: Session, c: Time)
    requires ValidData(d) && end < SessionOf(c)
    ensures var o := Priced(d, k, entry, end, c);
            && (o.value.Some? <==> exists v: real, t: int :: Earns(d, k, entry, end, c, v, t))
            && (o.value.Some? ==>
                  o.ready.Some? && o.reason.None? && Earns(d, k, entry, end, c, o.value.value, o.ready.value))
            && (o.value.None? ==>
                  && o.ready.None?
                  && o.reason == Some(if Paired(d, k, entry, end) then UNSEEN
                                      else if d.outcomesEnabled then NO_BASIS else NO_PRICE))
  {
    var o := Priced(d, k, entry, end, c);
    var first, last := Find(Source(d), k.symbol, entry), LastOf(d, k.symbol, end);
    if first.Some? && last.Some? {
      assert 0.0 < first.value.returnOpen;
      Earned(first.value.returnOpen, last.value.returnClose);
    }
    hide ValidData, Anchored, LastOf, Source, Find, Times, Earns;
    if o.value.Some? { EarnsIs(d, k, entry, end, c, o.value.value, o.ready.value); }
    if v: real, t: int :| Earns(d, k, entry, end, c, v, t) { EarnsIs(d, k, entry, end, c, v, t); }
  }

  /** An observation of one window: known exactly when it earned something by the cutoff, explained when not. */
  ghost predicate Settles(o: Observation, d: Data, k: Key, entry: Session, end: Session, c: Time)
  {
    && o.entry == Some(entry) && o.end == Some(end)
    && (o.value.Some? <==> exists v: real, t: int :: Earns(d, k, entry, end, c, v, t))
    && (o.value.Some? ==>
          o.ready.Some? && o.reason.None? && Earns(d, k, entry, end, c, o.value.value, o.ready.value))
    && (o.value.None? ==>
          && o.ready.None?
          && o.reason == Some(if SessionOf(c) <= end then IMMATURE
                              else if Paired(d, k, entry, end) then UNSEEN
                              else if d.outcomesEnabled then NO_BASIS else NO_PRICE))
  }

  lemma {:induction false} MatureSettles(d: Data, k: Key, entry: Session, end: Session, c: Time)
    requires ValidData(d) && end < SessionOf(c)
    ensures Settles(Priced(d, k, entry, end, c), d, k, entry, end, c)
  {
    PricedWindow(d, k, 1, c);
    PricedTells(d, k, entry, end, c);
    hide Priced, Earns, Paired, ValidData, SessionOf;
  }

  lemma {:induction false} ImmatureSettles(d: Data, k: Key, entry: Session, end: Session, c: Time)
    requires SessionOf(c) <= end
    ensures Settles(Observation(Some(entry), Some(end), None, None, Some(IMMATURE)), d, k, entry, end, c)
  {
    hide OnRecord, Paired;
  }

  /** An observation tells its key's story once its only window is told. */
  lemma {:induction false} WindowTells(o: Observation, d: Data, k: Key, horizon: nat, c: Time, entry: Session,
                                       end: Session)
    requires 1 <= horizon && Settles(o, d, k, entry, end, c)
    requires forall e: int, f: int :: IsWindow(d, DayOf(k.asOf), horizon, e, f) <==> e == entry && f == end
    ensures Tells(o, d, k, horizon, c)
  {
    PairedIs(d, k, entry, end);
    hide IsWindow, OnRecord, Earns, Paired;
    assert IsWindow(d, DayOf(k.asOf), horizon, entry, end);
  }

  lemma {:induction false} NoWindowTells(o: Observation, d: Data, k: Key, horizon: nat, c: Time)
    requires 1 <= horizon && o == Observation(None, None, None, None, Some(NO_CALENDAR))
    requires forall e: int, f: int :: !IsWindow(d, DayOf(k.asOf), horizon, e, f)
    ensures Tells(o, d, k, horizon, c)
  {
    hide IsWindow, OnRecord, Earns;
  }

  /** Every observation says what the store's own maps say. */
  lemma {:induction false} ObserveTells(d: Data, horizon: nat, c: Time, k: Key)
    requires ValidData(d) && SessionOf(k.asOf) in d.sessions && 1 <= horizon
    ensures Tells(Observe(d, horizon, c, k), d, k, horizon, c)
  {
    var day := SessionOf(k.asOf);
    var p := IndexOf(d.sessions, day);
    hide IsWindow, ValidData, Priced, IndexOf, Tells, Settles;
    forall entry: int, end: int
      ensures IsWindow(d, day, horizon, entry, end)
         <==> p + horizon < |d.sessions| && entry == d.sessions[p + 1] && end == d.sessions[p + horizon] {
      WindowAt(d, day, horizon, entry, end);
    }
    if p + horizon < |d.sessions| {
      var entry, end := d.sessions[p + 1], d.sessions[p + horizon];
      if end < SessionOf(c) { MatureSettles(d, k, entry, end, c); } else { ImmatureSettles(d, k, entry, end, c); }
      WindowTells(Observe(d, horizon, c, k), d, k, horizon, c, entry, end);
    } else {
      NoWindowTells(Observe(d, horizon, c, k), d, k, horizon, c);
    }
  }

  lemma {:induction false} ScoredIs(d: Data, k: Key)
    ensures Scored(d, k) <==> k in Keys(d)
  {
    var pool := PoolKeys(d.universes, d.scoring);
    assert k in multiset(Keys(d)) <==> k in multiset(pool);
    PoolKeysFrom(d.universes, d.scoring);
    if Scored(d, k) {
      var i: nat :| i < |d.universes| && SessionOf(d.universes[i].asOf) in d.scoring
                 && d.universes[i].asOf == k.asOf && k.symbol in d.universes[i].symbols;
      PoolKeysHave(d.universes, d.scoring, i, k.symbol);
    }
    if k in pool { assert FromUniverse(d.universes, d.scoring, k); }
  }

  lemma {:induction false} KeysAscend(d: Data)
    requires ValidData(d)
    ensures forall i, j :: 0 <= i < j < |Keys(d)| ==>
              || Keys(d)[i].symbol < Keys(d)[j].symbol
              || (Keys(d)[i].symbol == Keys(d)[j].symbol && Keys(d)[i].asOf < Keys(d)[j].asOf)
  {
    KeysArePools(d);
    KeyOrderTotal();
    SortedOrdered(PoolKeys(d.universes, d.scoring), KeyOrder());
    var keys := Keys(d);
    hide Keys, Members, ValidData;
    forall i, j | 0 <= i < j < |keys|
      ensures keys[i].symbol < keys[j].symbol || (keys[i].symbol == keys[j].symbol && keys[i].asOf < keys[j].asOf) {
      assert KeyOrder()(keys[i], keys[j]);
      assert keys[i] != keys[j];
    }
  }

  lemma {:induction false} KeyOrderTotal()
    ensures TotalPreorder(KeyOrder())
  {
  }

  /** And so does every built row. */
  lemma {:induction false} LabelsTell(d: Data, horizon: nat, c: Time)
    requires ValidData(d) && 1 <= horizon
    ensures RowsTell(LabelsAt(d, horizon, c), d, horizon, c)
  {
    hide Keys, LabelsAt, Scored, Tells, Observe, ValidData, GoodPool;
    var keys, rows := Keys(d), LabelsAt(d, horizon, c);
    BuiltPool(d, horizon, c);
    KeysAscend(d);
    LabelKeys(d, horizon, c);
    forall k ensures Scored(d, k) <==> exists i :: 0 <= i < |rows| && rows[i].key == k {
      ScoredIs(d, k);
      if k in keys {
        var i :| 0 <= i < |keys| && keys[i] == k;
        assert rows[i].key == k;
      }
    }
    forall i | 0 <= i < |rows|
      ensures Tells(Observation(rows[i].entry, rows[i].end, rows[i].rawReturn, rows[i].outcomeAt,
                                rows[i].missingReason),
                    d, rows[i].key, horizon, c) {
      RowRecovers(d, horizon, c, i);
      ObserveTells(d, horizon, c, keys[i]);
    }
  }

  lemma {:induction false} LabelKeys(d: Data, horizon: nat, c: Time)
    requires ValidData(d) && 1 <= horizon
    ensures var keys, rows := Keys(d), LabelsAt(d, horizon, c);
            |rows| == |keys| && forall i :: 0 <= i < |rows| ==> rows[i].key == keys[i] && rows[i].cutoff == c
  {
    BuiltPool(d, horizon, c);
    hide ValidData, Keys, Observe, GoodPool, RowOf;
    forall i | 0 <= i < |Keys(d)|
      ensures LabelsAt(d, horizon, c)[i].key == Keys(d)[i] && LabelsAt(d, horizon, c)[i].cutoff == c {
      RowCut(Keys(d), Observations(d, horizon, c, Keys(d)), c, Keys(d)[i]);
    }
  }

  lemma {:induction false} RowCut(keys: seq<Key>, observations: map<Key, Observation>, cutoff: Time, k: Key)
    requires k in keys && Covered(keys, observations)
    ensures RowOf(keys, observations, cutoff, k).key == k && RowOf(keys, observations, cutoff, k).cutoff == cutoff
  {
    RowKeeps(keys, observations, cutoff, k);
  }

  predicate Usable(d: Data, id: string)
  {
    forall i :: 0 <= i < |d.universes| && SessionOf(d.universes[i].asOf) in d.scoring ==>
      d.universes[i].id == id && d.universes[i].availableAt <= d.universes[i].asOf
  }

  method ObserveAll(d: Data, horizon: nat, cutoff: Time, keys: seq<Key>) returns (m: map<Key, Observation>)
    requires ValidData(d) && 1 <= horizon && forall k :: k in keys ==> SessionOf(k.asOf) in d.sessions
    ensures m == Observations(d, horizon, cutoff, keys)
  {
    hide Observe, ValidData;
    m := map[];
    for i := 0 to |keys|
      invariant forall k :: k in m <==> k in keys[..i]
      invariant forall k :: k in m ==> k in keys && m[k] == Observe(d, horizon, cutoff, k)
    {
      assert keys[i] in keys;
      m := m[keys[i] := Observe(d, horizon, cutoff, keys[i])];
    }
  }

  /** Fails only on a foreign universe: the row and group checks of the source never fire. */
  method BuildLabelRows(d: Data, universeId: string, horizon: nat, cutoff: Time) returns (r: Result<seq<LabelRow>>)
    requires ValidData(d) && 1 <= horizon
    ensures r.Ok? <==> Usable(d, universeId)
    ensures r.Ok? ==> r.value == LabelsAt(d, horizon, cutoff) && Validated(r.value)
    ensures r.Ok? ==> forall i :: 0 <= i < |r.value| ==> ValidRow(r.value[i])
    ensures r.Ok? <==> forall i :: 0 <= i < |d.universes| && DayOf(d.universes[i].asOf) in d.scoring ==>
                         d.universes[i].id == universeId && d.universes[i].availableAt <= d.universes[i].asOf
    ensures r.Ok? ==> RowsTell(r.value, d, horizon, cutoff)
  {
    if !Usable(d, universeId) { return Err("LABEL_SCORING_UNIVERSE_INVALID"); }
    BuiltPool(d, horizon, cutoff);
    LabelsTell(d, horizon, cutoff);
    hide ValidData, Validated, ValidRow, GoodPool, Rows, Keys, Observations, RowsTell;
    var keys := Keys(d);
    var observations := ObserveAll(d, horizon, cutoff, keys);
    RowsValid(keys, observations, cutoff);
    var rows := Identify(keys, observations, cutoff);
    r := Ok(rows);
  }

  // ---- knowledge cutoffs commute with construction

  /** Building at c1 and re-cutting at any earlier c2 gives exactly the labels built at c2. */
  lemma {:induction false} RecutIsRebuild(d: Data, horizon: nat, c1: Time, c2: Time)
    requires ValidData(d) && 1 <= horizon && c2 <= c1
    ensures var rows := LabelsAt(d, horizon, c1);
            && KeysOf(rows) == Keys(d) && Covered(Keys(d), RecoveredMap(rows))
            && Rows(KeysOf(rows), RecoveredMap(rows), c2) == LabelsAt(d, horizon, c2)
  {
    var keys := Keys(d);
    BuiltPool(d, horizon, c1);
    BuiltPool(d, horizon, c2);
    var a, b := Observations(d, horizon, c1, keys), Observations(d, horizon, c2, keys);
    forall k | k in keys ensures Consistent(a[k]) && At(a[k], c2) == At(b[k], c2) {
      ObserveRecut(d, horizon, k, c1, c2);
      ObserveRecut(d, horizon, k, c2, c2);
    }
    hide Observe, Rows, At, Keys, ValidData;
    RecutRows(keys, a, c1, c2);
    SameRows(keys, a, c2, b);
  }

  // ---- no look-ahead

  /** Two stores that hold the same records of everything available before the cutoff. */
  ghost predicate SameBefore(a: Data, b: Data, cutoff: Time)
  {
    && a.sessions == b.sessions && a.universes == b.universes && a.scoring == b.scoring
    && a.outcomesEnabled == b.outcomesEnabled
    && (forall c: Cell :: Seen(a.bars, c, cutoff) == Seen(b.bars, c, cutoff))
    && (forall c: Cell :: Seen(a.outcomes, c, cutoff) == Seen(b.outcomes, c, cutoff))
    && (forall c: Cell :: SeenExit(a.exits, c, cutoff) == SeenExit(b.exits, c, cutoff))
  }

  function Seen(m: map<Cell, Price>, c: Cell, cutoff: Time): Option<Price>
  {
    if c in m && m[c].availableAt < cutoff then Some(m[c]) else None
  }

  function SeenExit(m: map<Cell, Exit>, c: Cell, cutoff: Time): Option<Exit>
  {
    if c in m && m[c].availableAt < cutoff then Some(m[c]) else None
  }

  /** A row without the words that explain a missing outcome. */
  function Blind(r: LabelRow): LabelRow { r.(missingReason := None) }

  function Muted(o: Observation): Observation { o.(reason := None) }

  lemma {:induction false} SameSource(a: Data, b: Data, cutoff: Time, cell: Cell)
    requires SameBefore(a, b, cutoff)
    ensures Seen(Source(a), cell, cutoff) == Seen(Source(b), cell, cutoff)
    ensures Seen(a.outcomes, cell, cutoff) == Seen(b.outcomes, cell, cutoff)
    ensures SeenExit(a.exits, cell, cutoff) == SeenExit(b.exits, cell, cutoff)
  {
  }

  /**
   * A known value rests only on records available before the cutoff; no exit reference can step in for a hidden
   * price.
   */
  lemma {:induction false} PricedFromPast(a: Data, b: Data, k: Key, entry: Session, end: Session, c: Time)
    requires ValidData(a) && ValidData(b) && SameBefore(a, b, c) && SessionOf(k.asOf) < SessionOf(c)
    requires Priced(a, k, entry, end, c).value.Some?
    ensures Priced(b, k, entry, end, c) == Priced(a, k, entry, end, c)
  {
    SameSource(a, b, c, Cell(k.symbol, entry));
    SameSource(a, b, c, Cell(k.symbol, end));
    SameSource(a, b, c, Cell(k.symbol, SessionOf(k.asOf)));
    hide SameBefore;
    assert k.asOf < c;
    assert LastOf(a, k.symbol, end) == LastOf(b, k.symbol, end);
  }

  lemma {:induction false} SameBeforeSymmetric(a: Data, b: Data, c: Time)
    requires SameBefore(a, b, c)
    ensures SameBefore(b, a, c)
  {
  }

  lemma {:induction false} SameMuted(a: Data, b: Data, horizon: nat, c: Time, k: Key)
    requires ValidData(a) && ValidData(b) && SameBefore(a, b, c) && 1 <= horizon && SessionOf(k.asOf) in a.sessions
    ensures Muted(Observe(a, horizon, c, k)) == Muted(Observe(b, horizon, c, k))
  {
    assert a.sessions == b.sessions;
    hide SameBefore, ValidData, IndexOf, Priced;
    var position := IndexOf(a.sessions, SessionOf(k.asOf));
    if position + horizon < |a.sessions| {
      var entry, end := a.sessions[position + 1], a.sessions[position + horizon];
      EndsLater(a, k, horizon);
      if end < SessionOf(c) { PricedMuted(a, b, k, entry, end, c); }
    }
  }

  lemma {:induction false} PricedMuted(a: Data, b: Data, k: Key, entry: Session, end: Session, c: Time)
    requires ValidData(a) && ValidData(b) && SameBefore(a, b, c) && SessionOf(k.asOf) < end < SessionOf(c)
    ensures Muted(Priced(a, k, entry, end, c)) == Muted(Priced(b, k, entry, end, c))
  {
    SameBeforeSymmetric(a, b, c);
    if Priced(a, k, entry, end, c).value.Some? {
      PricedFromPast(a, b, k, entry, end, c);
    } else if Priced(b, k, entry, end, c).value.Some? {
      PricedFromPast(b, a, k, entry, end, c);
    }
  }

  lemma {:induction false} MutedTotals(a: seq<Observation>, b: seq<Observation>)
    requires |a| == |b| && forall i :: 0 <= i < |a| ==> Muted(a[i]) == Muted(b[i])
    ensures Latest(a) == Latest(b) && Observed(a) == Observed(b)
  {
    if a != [] {
      var n := |a| - 1;
      assert Muted(a[n]) == Muted(b[n]);
      MutedTotals(a[..n], b[..n]);
    }
  }

  lemma {:induction false} MutedRow(group: seq<Key>, a: seq<Observation>, b: seq<Observation>, c: Time, i: nat)
    requires |group| == |a| == |b| && i < |a| && forall j :: 0 <= j < |a| ==> Muted(a[j]) == Muted(b[j])
    ensures Blind(RowAt(group, a, c, i)) == Blind(RowAt(group, b, c, i))
  {
    MutedTotals(a, b);
    assert Values(a) == Values(b) by {
      forall j | 0 <= j < |a| ensures a[j].value == b[j].value {
        assert Muted(a[j]) == Muted(b[j]);
      }
    }
    assert Muted(a[i]) == Muted(b[i]);
  }

  lemma {:induction false} MutedAt(a: Observation, b: Observation, c: Time)
    requires Muted(a) == Muted(b)
    ensures Muted(At(a, c)) == Muted(At(b, c))
  {
  }

  lemma {:induction false} MutedLabels(keys: seq<Key>, a: map<Key, Observation>, b: map<Key, Observation>, c: Time,
                                       k: Key)
    requires Covered(keys, a) && Covered(keys, b) && k in keys
    requires forall x :: x in keys ==> Muted(a[x]) == Muted(b[x])
    ensures Blind(RowOf(keys, a, c, k)) == Blind(RowOf(keys, b, c, k))
  {
    var group := Members(keys, k.asOf);
    MembersAre(keys, k.asOf);
    CoveredMembers(keys, a, k.asOf);
    CoveredMembers(keys, b, k.asOf);
    hide At, RowAt, Blind, Muted, Members;
    forall j | 0 <= j < |group| ensures Muted(At(a[group[j]], c)) == Muted(At(b[group[j]], c)) {
      assert group[j] in group;
      MutedAt(a[group[j]], b[group[j]], c);
    }
    MutedRow(group, Settled(group, a, c), Settled(group, b, c), c, Place(group, k));
  }

  /** Nothing in a label except the words for a missing outcome depends on records the cutoff hides. */
  lemma {:induction false} NoLookAhead(a: Data, b: Data, horizon: nat, c: Time)
    requires ValidData(a) && ValidData(b) && SameBefore(a, b, c) && 1 <= horizon
    ensures |LabelsAt(a, horizon, c)| == |LabelsAt(b, horizon, c)|
    ensures forall i :: 0 <= i < |LabelsAt(a, horizon, c)| ==>
              Blind(LabelsAt(a, horizon, c)[i]) == Blind(LabelsAt(b, horizon, c)[i])
  {
    var keys := Keys(a);
    assert keys == Keys(b);
    BuiltPool(a, horizon, c);
    BuiltPool(b, horizon, c);
    var oa, ob := Observations(a, horizon, c, keys), Observations(b, horizon, c, keys);
    forall k | k in keys ensures Muted(oa[k]) == Muted(ob[k]) {
      SameMuted(a, b, horizon, c, k);
    }
    hide Observe, Keys, ValidData, SameBefore, RowOf, Blind, Muted;
    forall i | 0 <= i < |keys| ensures Blind(RowOf(keys, oa, c, keys[i])) == Blind(RowOf(keys, ob, c, keys[i])) {
      assert keys[i] in keys;
      MutedLabels(keys, oa, ob, c, keys[i]);
    }
  }

  // ---- the reason does look ahead

  /** A complete priced pair is on record, but some of it only at or after the cutoff. */
  predicate LatePair(d: Data, k: Key, entry: Session, end: Session, cutoff: Time)
  {
    var first, last := Find(Source(d), k.symbol, entry), LastOf(d, k.symbol, end);
    && first.Some? && last.Some? && (d.outcomesEnabled ==> Anchored(d, k, first, last))
    && cutoff <= Max(first.value.availableAt, last.value.availableAt)
  }

  /** Two stores with the same past explain a missing outcome alike exactly when both or neither hold a late pair. */
  lemma {:induction false} ReasonLeaks(a: Data, b: Data, k: Key, entry: Session, end: Session, c: Time)
    requires ValidData(a) && ValidData(b) && SameBefore(a, b, c) && SessionOf(k.asOf) < SessionOf(c)
    ensures Priced(a, k, entry, end, c).reason == Priced(b, k, entry, end, c).reason
            <==> LatePair(a, k, entry, end, c) == LatePair(b, k, entry, end, c)
  {
    SameBeforeSymmetric(a, b, c);
    assert a.outcomesEnabled == b.outcomesEnabled;
    if Priced(a, k, entry, end, c).value.Some? {
      PricedFromPast(a, b, k, entry, end, c);
    } else if Priced(b, k, entry, end, c).value.Some? {
      PricedFromPast(b, a, k, entry, end, c);
    }
    ReasonIs(a, k, entry, end, c);
    ReasonIs(b, k, entry, end, c);
    hide ValidData, SameBefore, Priced, LatePair;
  }

  lemma {:induction false} ReasonIs(d: Data, k: Key, entry: Session, end: Session, c: Time)
    requires ValidData(d)
    ensures var o, late := Priced(d, k, entry, end, c), LatePair(d, k, entry, end, c);
            o.reason == if o.value.Some? then None else if late then Some(UNSEEN)
                        else if d.outcomesEnabled then Some(NO_BASIS) else Some(NO_PRICE)
  {
  }

  /** A matured key whose complete pair is on record too late for the cutoff. */
  predicate LateAt(d: Data, horizon: nat, c: Time, k: Key)
    requires ValidData(d) && 1 <= horizon
  {
    && SessionOf(k.asOf) in d.sessions
    && var o := Observe(d, horizon, c, k);
       o.entry.Some? && o.end.Some? && o.end.value < SessionOf(c) && LatePair(d, k, o.entry.value, o.end.value, c)
  }

  /** One observation tells two stores with the same past apart exactly by its late pair. */
  lemma {:induction false} ObservationLeaks(a: Data, b: Data, horizon: nat, c: Time, k: Key)
    requires ValidData(a) && ValidData(b) && SameBefore(a, b, c) && 1 <= horizon && SessionOf(k.asOf) in a.sessions
    ensures Observe(a, horizon, c, k) == Observe(b, horizon, c, k)
       <==> LateAt(a, horizon, c, k) == LateAt(b, horizon, c, k)
  {
    SameMuted(a, b, horizon, c, k);
    assert a.sessions == b.sessions;
    hide SameBefore, Priced, LatePair, ValidData, IndexOf;
    var position := IndexOf(a.sessions, SessionOf(k.asOf));
    if position + horizon < |a.sessions| {
      var entry, end := a.sessions[position + 1], a.sessions[position + horizon];
      EndsLater(a, k, horizon);
      PricedWindow(a, k, horizon, c);
      PricedWindow(b, k, horizon, c);
      if end < SessionOf(c) { ReasonLeaks(a, b, k, entry, end, c); }
    }
  }

  lemma {:induction false} EndsLater(d: Data, k: Key, horizon: nat)
    requires ValidData(d) && SessionOf(k.asOf) in d.sessions && 1 <= horizon
    ensures var p := IndexOf(d.sessions, SessionOf(k.asOf));
            p + horizon < |d.sessions| ==> SessionOf(k.asOf) < d.sessions[p + horizon]
  {
    hide SessionOf;
  }

  /** Settling a built observation at its own cutoff changes nothing. */
  lemma {:induction false} RowRecovers(d: Data, horizon: nat, c: Time, i: nat)
    requires ValidData(d) && 1 <= horizon && i < |Keys(d)|
    ensures SessionOf(Keys(d)[i].asOf) in d.sessions && |LabelsAt(d, horizon, c)| == |Keys(d)|
    ensures Recovered(LabelsAt(d, horizon, c)[i]) == Observe(d, horizon, c, Keys(d)[i])
  {
    BuiltPool(d, horizon, c);
    hide ValidData, Keys, Observe, RowOf, Recovered;
    var k := Keys(d)[i];
    assert k in Keys(d);
    RowKeeps(Keys(d), Observations(d, horizon, c, Keys(d)), c, k);
    ObserveRecut(d, horizon, k, c, c);
  }

  /**
   * Two stores with the same past give the same labels, words included, exactly when they agree on which matured
   * keys have a complete pair that only arrives later.
   */
  lemma {:induction false} LabelsLeak(a: Data, b: Data, horizon: nat, c: Time)
    requires ValidData(a) && ValidData(b) && SameBefore(a, b, c) && 1 <= horizon
    ensures LabelsAt(a, horizon, c) == LabelsAt(b, horizon, c)
            <==> forall k :: k in Keys(a) ==> LateAt(a, horizon, c, k) == LateAt(b, horizon, c, k)
  {
    var keys := Keys(a);
    assert keys == Keys(b);
    BuiltPool(a, horizon, c);
    BuiltPool(b, horizon, c);
    hide ValidData, Keys, Observe, SameBefore, LateAt, Recovered, Rows;
    forall k | k in keys ensures Observe(a, horizon, c, k) == Observe(b, horizon, c, k)
                                 <==> LateAt(a, horizon, c, k) == LateAt(b, horizon, c, k) {
      ObservationLeaks(a, b, horizon, c, k);
    }
    if LabelsAt(a, horizon, c) == LabelsAt(b, horizon, c) {
      forall k | k in keys ensures Observe(a, horizon, c, k) == Observe(b, horizon, c, k) {
        var i: nat :| i < |keys| && keys[i] == k;
        RowRecovers(a, horizon, c, i);
        RowRecovers(b, horizon, c, i);
      }
    } else if forall k :: k in keys ==> Observe(a, horizon, c, k) == Observe(b, horizon, c, k) {
      SameRows(keys, Observations(a, horizon, c, keys), c, Observations(b, horizon, c, keys));
    }
  }

  function LeakData(seen: bool): Data
  {
    var early := Price(MarketTime(1, 15), 1.0, 1.0, 0);
    var bars := map[Cell(1, 1) := early, Cell(2, 1) := early];
    Data([0, 1, 2], [Universe("u", MarketTime(0, 18), MarketTime(0, 18), [1, 2])], {0},
         if seen then bars[Cell(1, 2) := Price(MarketTime(9, 15), 1.0, 1.0, 0)] else bars, map[], map[], false)
  }

  /** A price that only arrives six days after the cutoff already changes the reason given before it, and the label. */
  lemma {:induction false} ReasonLooksAhead()
    ensures var a, b, c, k := LeakData(true), LeakData(false), MarketTime(3, 0), Key(1, MarketTime(0, 18));
            && ValidData(a) && ValidData(b) && SameBefore(a, b, c) && SessionOf(k.asOf) in a.sessions
            && Observe(a, 2, c, k).reason == Some(UNSEEN) && Observe(b, 2, c, k).reason == Some(NO_PRICE)
            && |LabelsAt(a, 2, c)| == |LabelsAt(b, 2, c)|
            && exists i :: 0 <= i < |LabelsAt(a, 2, c)| && LabelsAt(a, 2, c)[i].missingReason == Some(UNSEEN)
                           && LabelsAt(b, 2, c)[i].missingReason == Some(NO_PRICE)
  {
    var a, b, c, k := LeakData(true), LeakData(false), MarketTime(3, 0), Key(1, MarketTime(0, 18));
    LeakObserved();
    PoolKeysHave(a.universes, a.scoring, 0, 1);
    assert Keys(b) == Keys(a) && k in multiset(Keys(a));
    var i: nat :| i < |Keys(a)| && Keys(a)[i] == k;
    hide LeakData, Observe, Keys, ValidData, SameBefore, PoolKeys;
    RowRecovers(a, 2, c, i);
    RowRecovers(b, 2, c, i);
    assert LabelsAt(a, 2, c)[i].missingReason == Some(UNSEEN) && LabelsAt(b, 2, c)[i].missingReason == Some(NO_PRICE);
  }

  lemma {:induction false} LeakObserved()
    ensures var a, b, c, k := LeakData(true), LeakData(false), MarketTime(3, 0), Key(1, MarketTime(0, 18));
            && ValidData(a) && ValidData(b) && SameBefore(a, b, c) && SessionOf(k.asOf) in a.sessions
            && Observe(a, 2, c, k).reason == Some(UNSEEN) && Observe(b, 2, c, k).reason == Some(NO_PRICE)
  {
    var a, b, k := LeakData(true), LeakData(false), Key(1, MarketTime(0, 18));
    assert a.sessions[0] == 0;
    LeakValid(true);
    LeakValid(false);
    assert IndexOf(a.sessions, 0) == 0 by {
      assert a.sessions[..2] == [0, 1] && [0, 1][..1] == [0];
    }
  }

  lemma {:induction false} LeakValid(seen: bool)
    ensures ValidData(LeakData(seen))
  {
  }
}
