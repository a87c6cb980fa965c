/** Knowledge-cutoff label rows: censoring, full-pool intervals, and the rules every group obeys. */
module Labels {
  import opened Prelude
  import opened Clock
  import opened Multisets
  import opened Completions
  import opened Intervals

  datatype Key = Key(symbol: int, asOf: Time)

  /** entry, end, value, ready, reason */
  datatype Observation = Observation(
    entry: Option<Session>, end: Option<Session>, value: Option<real>, ready: Option<Time>, reason: Option<string>)

  datatype LabelRow = LabelRow(
    key: Key, entry: Option<Session>, end: Option<Session>, availableAt: Option<Time>, rawReturn: Option<real>,
    interval: Option<Interval>, universeSize: nat, observed: nat, cutoff: Time, outcomeAt: Option<Time>,
    missingReason: Option<string>)

  const IMMATURE := "HORIZON_NOT_MATURE_AT_CUTOFF"
  const UNSEEN := "OUTCOME_NOT_AVAILABLE_AT_CUTOFF"

  // ---- one observation at a cutoff

  /** Nothing of a horizon or an outcome that the cutoff does not cover. */
  function Censor(o: Observation, cutoff: Time): Observation
  {
    if o.end.Some? && SessionOf(cutoff) <= o.end.value then o.(value := None, ready := None, reason := Some(IMMATURE))
    else if o.ready.Some? && cutoff <= o.ready.value then o.(value := None, ready := None, reason := Some(UNSEEN))
    else o
  }

  /** A known value keeps its time and drops its reason; an unknown one drops its time. */
  function Settle(o: Observation): Observation
  {
    o.(ready := if o.value.Some? then o.ready else None, reason := if o.value.Some? then None else o.reason)
  }

  function At(o: Observation, cutoff: Time): Observation { Settle(Censor(o, cutoff)) }

  /** A time is only ever recorded with a value. */
  predicate Consistent(o: Observation) { o.ready.Some? ==> o.value.Some? }

  /** Censoring again at an earlier cutoff is censoring there directly. */
  lemma {:induction false} CensorAgain(o: Observation, c1: Time, c2: Time)
    requires c2 <= c1 && Consistent(o)
    ensures At(At(o, c1), c2) == At(o, c2) && Consistent(At(o, c1))
  {
    SessionMonotone(c2, c1);
  }

  // ---- the group of one scoring time

  /** The keys scored at one time, in order. */
  function Members(keys: seq<Key>, asOf: Time): seq<Key>
  {
    if keys == [] then []
    else
      var last := keys[|keys| - 1];
      Members(keys[..|keys| - 1], asOf) + if last.asOf == asOf then [last] else []
  }

  predicate Covered(keys: seq<Key>, observations: map<Key, Observation>)
  {
    forall i :: 0 <= i < |keys| ==> keys[i] in observations
  }

  lemma {:induction false} MembersAre(keys: seq<Key>, asOf: Time)
    ensures forall i :: 0 <= i < |Members(keys, asOf)| ==> Members(keys, asOf)[i].asOf == asOf
    ensures forall k :: k in Members(keys, asOf) <==> k in keys && k.asOf == asOf
    ensures NoRepeats(keys) ==> NoRepeats(Members(keys, asOf))
  {
    if keys != [] {
      var n := |keys| - 1;
      MembersAre(keys[..n], asOf);
      assert keys == keys[..n] + [keys[n]];
      if NoRepeats(keys) {
        forall i | 0 <= i < n ensures keys[..n][i] != keys[n] {
        }
      }
    }
  }

  function Settled(group: seq<Key>, observations: map<Key, Observation>, cutoff: Time): (r: seq<Observation>)
    requires Covered(group, observations)
    ensures |r| == |group| && forall i :: 0 <= i < |group| ==> r[i] == At(observations[group[i]], cutoff)
  {
    seq(|group|, i requires 0 <= i < |group| => At(observations[group[i]], cutoff))
  }

  function Values(s: seq<Observation>): (r: Outcomes)
    ensures |r| == |s| && forall i :: 0 <= i < |s| ==> r[i] == s[i].value
  {
    seq(|s|, i requires 0 <= i < |s| => s[i].value)
  }

  function Later(a: Option<Time>, b: Option<Time>): Option<Time>
  {
    if a.None? then b else if b.None? then a else Some(Max(a.value, b.value))
  }

  /** The latest of the ready times, if there is any. */
  function Latest(s: seq<Observation>): Option<Time>
  {
    if s == [] then None else Later(Latest(s[..|s| - 1]), s[|s| - 1].ready)
  }

  function Observed(s: seq<Observation>): nat
  {
    if s == [] then 0 else Observed(s[..|s| - 1]) + if s[|s| - 1].value.Some? then 1 else 0
  }

  function RowAt(group: seq<Key>, s: seq<Observation>, cutoff: Time, i: nat): LabelRow
    requires i < |group| == |s|
  {
    LabelRow(group[i], s[i].entry, s[i].end, Latest(s), s[i].value,
             if 2 <= |s| then IntervalAt(Values(s), i) else None, |s|, Observed(s), cutoff, s[i].ready, s[i].reason)
  }

  function Place(group: seq<Key>, k: Key): (i: nat)
    requires k in group
    ensures i < |group| && group[i] == k
  {
    if group[|group| - 1] == k then |group| - 1
    else
      assert group == group[..|group| - 1] + [group[|group| - 1]];
      Place(group[..|group| - 1], k)
  }

  /** The label row of one key: its place in the full pool of its scoring time. */
  function RowOf(keys: seq<Key>, observations: map<Key, Observation>, cutoff: Time, k: Key): LabelRow
    requires k in keys && Covered(keys, observations)
  {
    MembersAre(keys, k.asOf);
    var group := Members(keys, k.asOf);
    CoveredMembers(keys, observations, k.asOf);
    RowAt(group, Settled(group, observations, cutoff), cutoff, Place(group, k))
  }

  lemma {:induction false} CoveredMembers(keys: seq<Key>, observations: map<Key, Observation>, asOf: Time)
    requires Covered(keys, observations)
    ensures Covered(Members(keys, asOf), observations)
  {
    MembersAre(keys, asOf);
    var group := Members(keys, asOf);
    forall i | 0 <= i < |group| ensures group[i] in observations {
      assert group[i] in group;
    }
  }

  function Rows(keys: seq<Key>, observations: map<Key, Observation>, cutoff: Time): (r: seq<LabelRow>)
    requires Covered(keys, observations)
    ensures |r| == |keys| && forall i :: 0 <= i < |keys| ==> r[i] == RowOf(keys, observations, cutoff, keys[i])
  {
    seq(|keys|, i requires 0 <= i < |keys| => RowOf(keys, observations, cutoff, keys[i]))
  }

  // ---- re-cutting

  /** What the rows still say of each key. */
  function Recovered(row: LabelRow): Observation
  {
    Observation(row.entry, row.end, row.rawReturn, row.outcomeAt, row.missingReason)
  }

  function RecoveredMap(rows: seq<LabelRow>): map<Key, Observation>
  {
    if rows == [] then map[]
    else
      var last := rows[|rows| - 1];
      RecoveredMap(rows[..|rows| - 1])[last.key := Recovered(last)]
  }

  function KeysOf(rows: seq<LabelRow>): (r: seq<Key>)
    ensures |r| == |rows| && forall i :: 0 <= i < |rows| ==> r[i] == rows[i].key
  {
    seq(|rows|, i requires 0 <= i < |rows| => rows[i].key)
  }

  lemma {:induction false} RecoveredAt(rows: seq<LabelRow>, i: nat)
    requires NoRepeats(KeysOf(rows)) && i < |rows|
    ensures rows[i].key in RecoveredMap(rows) && RecoveredMap(rows)[rows[i].key] == Recovered(rows[i])
  {
    var n := |rows| - 1;
    if i < n {
      assert KeysOf(rows[..n]) == KeysOf(rows)[..n];
      RecoveredAt(rows[..n], i);
      assert KeysOf(rows)[i] != KeysOf(rows)[n];
    }
  }

  lemma {:induction false} RowKeeps(keys: seq<Key>, observations: map<Key, Observation>, cutoff: Time, k: Key)
    requires k in keys && Covered(keys, observations)
    ensures RowOf(keys, observations, cutoff, k).key == k
    ensures Recovered(RowOf(keys, observations, cutoff, k)) == At(observations[k], cutoff)
  {
    MembersAre(keys, k.asOf);
    CoveredMembers(keys, observations, k.asOf);
  }

  lemma {:induction false} SameSettled(group: seq<Key>, a: map<Key, Observation>, c: Time, b: map<Key, Observation>)
    requires Covered(group, a) && Covered(group, b)
    requires forall k :: k in group ==> At(a[k], c) == At(b[k], c)
    ensures Settled(group, a, c) == Settled(group, b, c)
  {
    hide At;
    forall j | 0 <= j < |group| ensures At(a[group[j]], c) == At(b[group[j]], c) {
      assert group[j] in group;
    }
  }

  lemma {:induction false} SameRow(keys: seq<Key>, a: map<Key, Observation>, c: Time, b: map<Key, Observation>, k: Key)
    requires k in keys && Covered(keys, a) && Covered(keys, b)
    requires forall x :: x in keys ==> At(a[x], c) == At(b[x], c)
    ensures RowOf(keys, a, c, k) == RowOf(keys, b, c, k)
  {
    hide At, RowAt, Members, Place;
    MembersAre(keys, k.asOf);
    CoveredMembers(keys, a, k.asOf);
    CoveredMembers(keys, b, k.asOf);
    SameSettled(Members(keys, k.asOf), a, c, b);
  }

  /** Rows depend on the observations only through what the cutoff leaves of them. */
  lemma {:induction false} SameRows(keys: seq<Key>, a: map<Key, Observation>, c: Time, b: map<Key, Observation>)
    requires Covered(keys, a) && Covered(keys, b)
    requires forall k :: k in keys ==> At(a[k], c) == At(b[k], c)
    ensures Rows(keys, a, c) == Rows(keys, b, c)
  {
    hide RowOf, At;
    forall i | 0 <= i < |keys| ensures RowOf(keys, a, c, keys[i]) == RowOf(keys, b, c, keys[i]) {
      SameRow(keys, a, c, b, keys[i]);
    }
  }

  /** The rows recovered from a cut are its keys and its observations at that cutoff. */
  lemma {:induction false} RecoveredRows(keys: seq<Key>, observations: map<Key, Observation>, cutoff: Time)
    requires Covered(keys, observations) && NoRepeats(keys)
    ensures var rows := Rows(keys, observations, cutoff);
            && KeysOf(rows) == keys && Covered(keys, RecoveredMap(rows))
            && forall k :: k in keys ==> RecoveredMap(rows)[k] == At(observations[k], cutoff)
  {
    var rows := Rows(keys, observations, cutoff);
    forall i | 0 <= i < |keys|
      ensures rows[i].key == keys[i] && Recovered(rows[i]) == At(observations[keys[i]], cutoff) {
      RowKeeps(keys, observations, cutoff, keys[i]);
    }
    assert KeysOf(rows) == keys;
    forall i | 0 <= i < |keys| ensures keys[i] in RecoveredMap(rows)
                                    && RecoveredMap(rows)[keys[i]] == At(observations[keys[i]], cutoff) {
      RecoveredAt(rows, i);
    }
  }

  /** Cutting at c1 and re-cutting at any earlier c2 gives exactly the rows cut at c2: every field of every row. */
  lemma {:induction false} RecutRows(keys: seq<Key>, observations: map<Key, Observation>, c1: Time, c2: Time)
    requires Covered(keys, observations) && NoRepeats(keys) && c2 <= c1
    requires forall k :: k in keys ==> Consistent(observations[k])
    ensures var rows := Rows(keys, observations, c1);
            && KeysOf(rows) == keys && Covered(keys, RecoveredMap(rows))
            && Rows(keys, RecoveredMap(rows), c2) == Rows(keys, observations, c2)
  {
    var rows := Rows(keys, observations, c1);
    RecoveredRows(keys, observations, c1);
    forall k | k in keys ensures At(RecoveredMap(rows)[k], c2) == At(observations[k], c2) {
      CensorAgain(observations[k], c1, c2);
    }
    hide Rows, At;
    SameRows(keys, RecoveredMap(rows), c2, observations);
  }

  // ---- what a label row and a group of label rows must satisfy

  predicate SupervisedRow(r: LabelRow)
    requires r.interval.Some?
  {
    && 0.0 <= r.interval.value.lo <= r.interval.value.hi <= 1.0 && r.missingReason.None?
    && r.entry.Some? && r.end.Some? && SessionOf(r.key.asOf) < r.entry.value <= r.end.value
    && r.availableAt.Some? && r.outcomeAt.Some?
    && MarketTime(r.end.value, 15) <= r.outcomeAt.value <= r.availableAt.value < r.cutoff
    && r.end.value < SessionOf(r.cutoff) && r.rawReturn.Some?
  }

  predicate ValidRow(r: LabelRow)
  {
    && 2 <= r.universeSize && r.observed <= r.universeSize
    && if r.interval.Some? then SupervisedRow(r)
       else r.rawReturn.None? && r.outcomeAt.None? && r.missingReason.Some? && r.missingReason.value != ""
  }

  function RowGroup(rows: seq<LabelRow>, asOf: Time): seq<LabelRow>
  {
    if rows == [] then []
    else
      var last := rows[|rows| - 1];
      RowGroup(rows[..|rows| - 1], asOf) + if last.key.asOf == asOf then [last] else []
  }

  function Supervised(g: seq<LabelRow>): nat
  {
    if g == [] then 0 else Supervised(g[..|g| - 1]) + if g[|g| - 1].interval.Some? then 1 else 0
  }

  function Returns(g: seq<LabelRow>): (r: Outcomes)
    ensures |r| == |g| && forall i :: 0 <= i < |g| ==> r[i] == g[i].rawReturn
  {
    seq(|g|, i requires 0 <= i < |g| => g[i].rawReturn)
  }

  function LatestOutcome(g: seq<LabelRow>): Option<Time>
  {
    if g == [] then None
    else Later(LatestOutcome(g[..|g| - 1]), if g[|g| - 1].interval.Some? then g[|g| - 1].outcomeAt else None)
  }

  predicate SameInformation(a: LabelRow, b: LabelRow)
  {
    a.entry == b.entry && a.end == b.end && a.cutoff == b.cutoff && a.availableAt == b.availableAt
  }

  /** One scoring time: the full pool, one information set, and the intervals its returns identify. */
  predicate GroupValid(g: seq<LabelRow>)
  {
    && 2 <= |g|
    && (forall i :: 0 <= i < |g| ==>
          g[i].universeSize == |g| && g[i].observed == Supervised(g) && SameInformation(g[i], g[0]))
    && (forall i :: 0 <= i < |g| ==> g[i].interval == IntervalAt(Returns(g), i))
    && g[0].availableAt == LatestOutcome(g)
  }

  ghost predicate Validated(rows: seq<LabelRow>)
  {
    && NoRepeats(KeysOf(rows))
    && forall i :: 0 <= i < |rows| ==> GroupValid(RowGroup(rows, rows[i].key.asOf))
  }

  // ---- rows cut from good observations are always valid

  predicate Known(k: Key, o: Observation)
  {
    && o.entry.Some? && o.end.Some? && o.ready.Some?
    && SessionOf(k.asOf) < o.entry.value <= o.end.value && MarketTime(o.end.value, 15) <= o.ready.value
  }

  /** A value lies inside its window and became available after it; an unknown one says why. */
  predicate Good(k: Key, o: Observation)
  {
    && Consistent(o) && (o.value.Some? ==> Known(k, o))
    && (o.value.None? ==> o.reason.Some? && o.reason.value != "")
  }

  /** Every key scored at one time shares its window, and no pool is a singleton. */
  ghost predicate GoodPool(keys: seq<Key>, observations: map<Key, Observation>)
  {
    && NoRepeats(keys) && Covered(keys, observations)
    && (forall i :: 0 <= i < |keys| ==> Good(keys[i], observations[keys[i]]) && 2 <= |Members(keys, keys[i].asOf)|)
    && forall i, j :: 0 <= i < |keys| && 0 <= j < |keys| && keys[i].asOf == keys[j].asOf ==>
         SameWindow(observations[keys[i]], observations[keys[j]])
  }

  predicate SameWindow(a: Observation, b: Observation) { a.entry == b.entry && a.end == b.end }

  lemma {:induction false} GoodAt(k: Key, o: Observation, cutoff: Time)
    requires Good(k, o)
    ensures Good(k, At(o, cutoff)) && SameWindow(o, At(o, cutoff))
    ensures At(o, cutoff).value.Some? ==> o.end.value < SessionOf(cutoff) && At(o, cutoff).ready.value < cutoff
    ensures At(o, cutoff).ready.Some? <==> At(o, cutoff).value.Some?
    ensures At(o, cutoff).reason.None? <==> At(o, cutoff).value.Some?
  {
  }

  lemma {:induction false} LatestBounds(s: seq<Observation>, cutoff: Time)
    requires forall i :: 0 <= i < |s| && s[i].ready.Some? ==> s[i].ready.value < cutoff
    ensures Latest(s).Some? ==> Latest(s).value < cutoff
    ensures forall i :: 0 <= i < |s| && s[i].ready.Some? ==> Latest(s).Some? && s[i].ready.value <= Latest(s).value
  {
    if s != [] { LatestBounds(s[..|s| - 1], cutoff); }
  }

  lemma {:induction false} ObservedAtMost(s: seq<Observation>)
    ensures Observed(s) <= |s|
  {
    if s != [] { ObservedAtMost(s[..|s| - 1]); }
  }

  /** What GoodAt gives every entry of a settled group. */
  ghost predicate Sound(group: seq<Key>, s: seq<Observation>, cutoff: Time)
  {
    |group| == |s| && 2 <= |s| && forall i :: 0 <= i < |s| ==> PlaceSound(group, s, cutoff, i)
  }

  predicate PlaceSound(group: seq<Key>, s: seq<Observation>, cutoff: Time, i: int)
    requires 0 <= i < |group| == |s|
  {
    && Good(group[i], s[i]) && SameWindow(s[i], s[0])
    && (s[i].ready.Some? <==> s[i].value.Some?) && (s[i].reason.None? <==> s[i].value.Some?)
    && (s[i].value.Some? ==> s[i].end.value < SessionOf(cutoff) && s[i].ready.value < cutoff)
  }

  lemma {:induction false} RowValid(group: seq<Key>, s: seq<Observation>, cutoff: Time, i: nat)
    requires Sound(group, s, cutoff) && i < |s|
    ensures ValidRow(RowAt(group, s, cutoff, i)) && (RowAt(group, s, cutoff, i).interval.Some? <==> s[i].value.Some?)
  {
    ObservedAtMost(s);
    forall j | 0 <= j < |s| && s[j].ready.Some? ensures s[j].ready.value < cutoff {
      assert PlaceSound(group, s, cutoff, j);
    }
    LatestBounds(s, cutoff);
    assert PlaceSound(group, s, cutoff, i);
    if s[i].value.Some? { IntervalInRange(Values(s), i); }
    hide Intervals.Bracket, Observed, Latest;
  }

  function RowsAt(group: seq<Key>, s: seq<Observation>, cutoff: Time): (r: seq<LabelRow>)
    requires |group| == |s|
    ensures |r| == |group| && forall i :: 0 <= i < |group| ==> r[i] == RowAt(group, s, cutoff, i)
  {
    seq(|group|, i requires 0 <= i < |group| => RowAt(group, s, cutoff, i))
  }

  predicate Reflects(r: LabelRow, o: Observation)
  {
    (r.interval.Some? <==> o.value.Some?) && r.outcomeAt == o.ready && (o.ready.Some? <==> o.value.Some?)
  }

  lemma {:induction false} SameTotals(g: seq<LabelRow>, s: seq<Observation>)
    requires |g| == |s|
    requires forall i :: 0 <= i < |s| ==> Reflects(g[i], s[i])
    ensures Supervised(g) == Observed(s) && LatestOutcome(g) == Latest(s)
  {
    if g != [] { SameTotals(g[..|g| - 1], s[..|s| - 1]); }
  }

  lemma {:induction false} RowsAtValid(group: seq<Key>, s: seq<Observation>, cutoff: Time)
    requires Sound(group, s, cutoff)
    ensures GroupValid(RowsAt(group, s, cutoff))
  {
    var g := RowsAt(group, s, cutoff);
    forall i | 0 <= i < |s| ensures Reflects(g[i], s[i]) && SameWindow(s[i], s[0]) {
      assert PlaceSound(group, s, cutoff, i);
      RowValid(group, s, cutoff, i);
    }
    SameTotals(g, s);
    assert Returns(g) == Values(s);
    hide Intervals.IntervalAt, ValidRow;
  }

  lemma {:induction false} GroupSound(keys: seq<Key>, observations: map<Key, Observation>, cutoff: Time, asOf: Time)
    requires GoodPool(keys, observations) && Members(keys, asOf) != []
    ensures Covered(Members(keys, asOf), observations)
    ensures var group := Members(keys, asOf); Sound(group, Settled(group, observations, cutoff), cutoff)
  {
    hide Good, SameWindow, At;
    MembersAre(keys, asOf);
    CoveredMembers(keys, observations, asOf);
    var group := Members(keys, asOf);
    assert group[0] in group;
    var s := Settled(group, observations, cutoff);
    forall i | 0 <= i < |group| ensures PlaceSound(group, s, cutoff, i) {
      assert group[i] in group && group[0] in group;
      GoodAt(group[i], observations[group[i]], cutoff);
      GoodAt(group[0], observations[group[0]], cutoff);
      WindowsChain(observations[group[i]], s[i], observations[group[0]], s[0]);
    }
    assert forall i :: 0 <= i < |s| ==> PlaceSound(group, s, cutoff, i);
  }

  lemma {:induction false} WindowsChain(a: Observation, b: Observation, c: Observation, d: Observation)
    requires SameWindow(a, b) && SameWindow(c, d) && SameWindow(a, c)
    ensures SameWindow(b, d)
  {
  }

  lemma {:induction false} RowGroupIs(all: seq<Key>, observations: map<Key, Observation>, cutoff: Time, keys: seq<Key>,
                                      rows: seq<LabelRow>, asOf: Time)
    requires Covered(all, observations) && |rows| == |keys| && (forall k :: k in keys ==> k in all)
    requires forall i :: 0 <= i < |keys| ==>
               rows[i] == RowOf(all, observations, cutoff, keys[i]) && rows[i].key == keys[i]
    ensures |RowGroup(rows, asOf)| == |Members(keys, asOf)|
    ensures forall i :: 0 <= i < |Members(keys, asOf)| ==>
              Members(keys, asOf)[i] in all
                && RowGroup(rows, asOf)[i] == RowOf(all, observations, cutoff, Members(keys, asOf)[i])
  {
    hide RowOf;
    if keys != [] {
      var n := |keys| - 1;
      assert keys[n] in keys;
      forall k | k in keys[..n] ensures k in all { assert k in keys; }
      RowGroupIs(all, observations, cutoff, keys[..n], rows[..n], asOf);
    }
  }

  lemma {:induction false} PlaceUnique(group: seq<Key>, i: nat)
    requires NoRepeats(group) && i < |group|
    ensures Place(group, group[i]) == i
  {
    var p := Place(group, group[i]);
    assert p == i || p < i || i < p;
  }

  /** A group of the cut is its members' rows in order. */
  lemma {:induction false} GroupOfCut(keys: seq<Key>, observations: map<Key, Observation>, cutoff: Time, asOf: Time)
    requires Covered(keys, observations) && NoRepeats(keys)
    ensures Covered(Members(keys, asOf), observations)
    ensures var group := Members(keys, asOf);
            RowGroup(Rows(keys, observations, cutoff), asOf)
              == RowsAt(group, Settled(group, observations, cutoff), cutoff)
  {
    hide At;
    var rows, group := Rows(keys, observations, cutoff), Members(keys, asOf);
    MembersAre(keys, asOf);
    CoveredMembers(keys, observations, asOf);
    forall i | 0 <= i < |keys| ensures rows[i].key == keys[i] { RowKeeps(keys, observations, cutoff, keys[i]); }
    RowGroupIs(keys, observations, cutoff, keys, rows, asOf);
    hide RowAt, Rows;
    forall i | 0 <= i < |group|
      ensures RowGroup(rows, asOf)[i] == RowsAt(group, Settled(group, observations, cutoff), cutoff)[i]
    {
      assert group[i] in group;
      PlaceUnique(group, i);
    }
  }

  /** Every cut of a good pool passes every row check and every group check. */
  lemma {:induction false} RowsValid(keys: seq<Key>, observations: map<Key, Observation>, cutoff: Time)
    requires GoodPool(keys, observations)
    ensures var rows := Rows(keys, observations, cutoff);
            Validated(rows) && forall i :: 0 <= i < |rows| ==> ValidRow(rows[i])
  {
    var rows := Rows(keys, observations, cutoff);
    RecoveredRows(keys, observations, cutoff);
    hide Good, SameWindow, At, Rows, RowAt, ValidRow, GroupValid, Sound;
    forall i | 0 <= i < |rows| ensures GroupValid(RowGroup(rows, rows[i].key.asOf)) && ValidRow(rows[i]) {
      assert rows[i].key == KeysOf(rows)[i] == keys[i];
      var asOf := keys[i].asOf;
      MembersAre(keys, asOf);
      assert keys[i] in keys;
      assert keys[i] in Members(keys, asOf);
      GroupSound(keys, observations, cutoff, asOf);
      GroupOfCut(keys, observations, cutoff, asOf);
      var group := Members(keys, asOf);
      var s := Settled(group, observations, cutoff);
      RowsAtValid(group, s, cutoff);
      RowValid(group, s, cutoff, Place(group, keys[i]));
    }
  }

  // ---- identification, as its loops

  /** One more entry in the group of t, opened if need be. */
  function Appended<V>(groups: map<Time, seq<V>>, t: Time, x: V): map<Time, seq<V>>
  {
    groups[t := (if t in groups then groups[t] else []) + [x]]
  }

  /** The grouping dictionary after some keys, and its keys in order of first use. */
  ghost predicate Grouping(grouped: map<Time, seq<Key>>, times: seq<Time>, keys: seq<Key>)
  {
    && (forall t :: t in times <==> t in grouped)
    && (forall t :: t in grouped ==> grouped[t] == Members(keys, t) && grouped[t] != [])
    && (forall t :: t !in grouped ==> Members(keys, t) == [])
  }

  lemma {:induction false} MembersNext(keys: seq<Key>, k: Key, t: Time)
    ensures Members(keys + [k], t) == Members(keys, t) + if k.asOf == t then [k] else []
  {
    assert (keys + [k])[..|keys|] == keys;
  }

  lemma {:induction false} GroupingNext(grouped: map<Time, seq<Key>>, times: seq<Time>, keys: seq<Key>, k: Key)
    requires Grouping(grouped, times, keys)
    ensures Grouping(Appended(grouped, k.asOf, k), if k.asOf in grouped then times else times + [k.asOf], keys + [k])
  {
    hide Members;
    forall t: Time ensures Members(keys + [k], t) == Members(keys, t) + if k.asOf == t then [k] else [] {
      MembersNext(keys, k, t);
    }
  }

  lemma {:induction false} GroupingStart()
    ensures Grouping(map[], [], [])
  {
  }

  method GroupKeys(keys: seq<Key>) returns (grouped: map<Time, seq<Key>>, times: seq<Time>)
    ensures Grouping(grouped, times, keys)
  {
    hide *;
    grouped, times := map[], [];
    GroupingStart();
    for n := 0 to |keys|
      invariant Grouping(grouped, times, keys[..n])
    {
      var k := keys[n];
      assert keys[..n + 1] == keys[..n] + [k];
      GroupingNext(grouped, times, keys[..n], k);
      if k.asOf !in grouped { times := times + [k.asOf]; }
      grouped := Appended(grouped, k.asOf, k);
    }
    assert keys[..|keys|] == keys;
  }

  method CutGroup(group: seq<Key>, observations: map<Key, Observation>, cutoff: Time) returns (s: seq<Observation>)
    requires Covered(group, observations)
    ensures s == Settled(group, observations, cutoff)
  {
    s := [];
    for i := 0 to |group|
      invariant s == Settled(group, observations, cutoff)[..i]
    {
      var o := observations[group[i]];
      if o.end.Some? && SessionOf(cutoff) <= o.end.value {
        o := o.(value := None, ready := None, reason := Some(IMMATURE));
      } else if o.ready.Some? && cutoff <= o.ready.value {
        o := o.(value := None, ready := None, reason := Some(UNSEEN));
      }
      s := s + [Settle(o)];
    }
  }

  method GroupRows(group: seq<Key>, s: seq<Observation>, cutoff: Time) returns (rows: seq<LabelRow>)
    requires |group| == |s| && 2 <= |s|
    ensures rows == RowsAt(group, s, cutoff)
  {
    hide Latest, Observed, Intervals.IntervalAt;
    var intervals := PercentileIntervals(Values(s));
    var ready, observed := Latest(s), Observed(s);
    rows := [];
    for i := 0 to |group|
      invariant rows == RowsAt(group, s, cutoff)[..i]
    {
      rows := rows + [LabelRow(group[i], s[i].entry, s[i].end, ready, s[i].value, intervals.value[i], |s|, observed,
                               cutoff, s[i].ready, s[i].reason)];
    }
  }

  ghost predicate Stored(labels: map<Key, LabelRow>, group: seq<Key>, rows: seq<LabelRow>, more: map<Key, LabelRow>)
    requires |group| == |rows|
  {
    && (forall i :: 0 <= i < |group| ==> group[i] in more && more[group[i]] == rows[i])
    && forall k :: k !in group ==> (k in more <==> k in labels) && (k in labels ==> more[k] == labels[k])
  }

  /** Storing the rows of one group under their keys. */
  method Store(labels: map<Key, LabelRow>, group: seq<Key>, rows: seq<LabelRow>) returns (more: map<Key, LabelRow>)
    requires |group| == |rows| && NoRepeats(group)
    ensures Stored(labels, group, rows, more)
  {
    more := labels;
    for i := 0 to |group|
      invariant forall j :: 0 <= j < i ==> group[j] in more && more[group[j]] == rows[j]
      invariant forall k :: k !in group ==> (k in more <==> k in labels) && (k in labels ==> more[k] == labels[k])
    {
      more := more[group[i] := rows[i]];
    }
  }

  lemma {:induction false} RowInGroup(keys: seq<Key>, observations: map<Key, Observation>, cutoff: Time, k: Key)
    requires Covered(keys, observations) && NoRepeats(keys) && k in keys
    ensures k in Members(keys, k.asOf) && Covered(Members(keys, k.asOf), observations)
    ensures var group := Members(keys, k.asOf);
            RowOf(keys, observations, cutoff, k)
              == RowsAt(group, Settled(group, observations, cutoff), cutoff)[Place(group, k)]
  {
    MembersAre(keys, k.asOf);
    CoveredMembers(keys, observations, k.asOf);
    hide At, RowAt;
  }

  /** The dictionary of rows is filled group by group. */
  ghost predicate Filled(labels: map<Key, LabelRow>, keys: seq<Key>, observations: map<Key, Observation>, cutoff: Time,
                         times: seq<Time>)
    requires Covered(keys, observations)
  {
    forall k :: k in keys && k.asOf in times ==> k in labels && labels[k] == RowOf(keys, observations, cutoff, k)
  }

  lemma {:induction false} FilledNext(labels: map<Key, LabelRow>, more: map<Key, LabelRow>, keys: seq<Key>,
                                      observations: map<Key, Observation>, cutoff: Time, times: seq<Time>, t: Time)
    requires Covered(keys, observations) && NoRepeats(keys) && Filled(labels, keys, observations, cutoff, times)
    requires Covered(Members(keys, t), observations)
    requires var group := Members(keys, t);
             Stored(labels, group, RowsAt(group, Settled(group, observations, cutoff), cutoff), more)
    ensures Filled(more, keys, observations, cutoff, times + [t])
  {
    hide RowOf, RowsAt, Settled;
    MembersAre(keys, t);
    forall k | k in keys && k.asOf in times + [t]
      ensures k in more && more[k] == RowOf(keys, observations, cutoff, k)
    {
      if k.asOf == t { RowInGroup(keys, observations, cutoff, k); }
    }
  }

  /** One group's turn. */
  method IdentifyGroup(labels: map<Key, LabelRow>, keys: seq<Key>, observations: map<Key, Observation>, cutoff: Time,
                       ghost times: seq<Time>, t: Time, group: seq<Key>) returns (more: map<Key, LabelRow>)
    requires GoodPool(keys, observations) && group == Members(keys, t) && group != []
    requires Filled(labels, keys, observations, cutoff, times)
    ensures Filled(more, keys, observations, cutoff, times + [t])
  {
    hide Good, SameWindow, At, RowAt, RowOf, Sound;
    GroupSound(keys, observations, cutoff, t);
    MembersAre(keys, t);
    var s := CutGroup(group, observations, cutoff);
    SoundSize(group, s, cutoff);
    var pool := GroupRows(group, s, cutoff);
    more := Store(labels, group, pool);
    FilledNext(labels, more, keys, observations, cutoff, times, t);
  }

  lemma {:induction false} TimesGrouped(grouped: map<Time, seq<Key>>, times: seq<Time>, keys: seq<Key>, n: nat)
    requires Grouping(grouped, times, keys) && n < |times|
    ensures times[n] in grouped && grouped[times[n]] == Members(keys, times[n]) && grouped[times[n]] != []
  {
    var t := times[n];
    assert t in times;
    assert t in grouped;
    assert grouped[t] == Members(keys, t);
  }

  lemma {:induction false} FilledStart(keys: seq<Key>, observations: map<Key, Observation>, cutoff: Time)
    requires GoodPool(keys, observations)
    ensures Covered(keys, observations) && Filled(map[], keys, observations, cutoff, [])
  {
    hide RowOf;
  }

  lemma {:induction false} FilledRow(labels: map<Key, LabelRow>, keys: seq<Key>, observations: map<Key, Observation>,
                                     cutoff: Time, grouped: map<Time, seq<Key>>, times: seq<Time>, i: nat)
    requires Covered(keys, observations) && Filled(labels, keys, observations, cutoff, times)
    requires Grouping(grouped, times, keys) && i < |keys|
    ensures keys[i] in labels && labels[keys[i]] == Rows(keys, observations, cutoff)[i]
  {
    hide RowOf;
    assert keys[i] in keys;
    TimeListed(grouped, times, keys, keys[i]);
  }

  method Identify(keys: seq<Key>, observations: map<Key, Observation>, cutoff: Time) returns (rows: seq<LabelRow>)
    requires GoodPool(keys, observations)
    ensures Covered(keys, observations) && rows == Rows(keys, observations, cutoff)
  {
    hide *;
    var grouped, times := GroupKeys(keys);
    var labels: map<Key, LabelRow> := map[];
    FilledStart(keys, observations, cutoff);
    assert times[..0] == [];
    for n := 0 to |times|
      invariant Covered(keys, observations) && Filled(labels, keys, observations, cutoff, times[..n])
    {
      TimesGrouped(grouped, times, keys, n);
      assert times[..n + 1] == times[..n] + [times[n]];
      labels := IdentifyGroup(labels, keys, observations, cutoff, times[..n], times[n], grouped[times[n]]);
    }
    assert times[..|times|] == times;
    rows := [];
    for i := 0 to |keys|
      invariant rows == Rows(keys, observations, cutoff)[..i]
    {
      FilledRow(labels, keys, observations, cutoff, grouped, times, i);
      rows := rows + [labels[keys[i]]];
    }
  }

  lemma {:induction false} TimeListed(grouped: map<Time, seq<Key>>, times: seq<Time>, keys: seq<Key>, k: Key)
    requires Grouping(grouped, times, keys) && k in keys
    ensures k.asOf in times
  {
    MembersAre(keys, k.asOf);
    assert k in Members(keys, k.asOf);
  }

  lemma {:induction false} SoundSize(group: seq<Key>, s: seq<Observation>, cutoff: Time)
    requires Sound(group, s, cutoff)
    ensures |group| == |s| && 2 <= |s|
  {
  }

  // ---- cutting again at an earlier cutoff

  /** The first check one group fails. */
  function GroupProblem(g: seq<LabelRow>): (r: Option<string>)
    ensures r.None? <==> GroupValid(g)
  {
    if exists i :: 0 <= i < |g| && (g[i].universeSize != |g| || g[i].observed != Supervised(g)) then
      Some("LABEL_FULL_UNIVERSE_ALIGNMENT_INVALID")
    else if exists i :: 0 <= i < |g| && !SameInformation(g[i], g[0]) then Some("MIXED_LABEL_INFORMATION_SET")
    else if |g| < 2 then Some("INTERVAL_RETURN_INPUT_INVALID")
    else if exists i :: 0 <= i < |g| && g[i].interval != IntervalAt(Returns(g), i) then
      Some("LABEL_INTERVAL_RANK_MISMATCH")
    else if g[0].availableAt != LatestOutcome(g) then Some("LABEL_DEPENDENCY_AVAILABILITY_MISMATCH")
    else None
  }

  /** Row i opens the first invalid group, and this is the check it fails. */
  ghost predicate FirstProblem(rows: seq<LabelRow>, i: nat, reason: string)
  {
    && i < |rows| && GroupProblem(RowGroup(rows, rows[i].key.asOf)) == Some(reason)
    && forall j :: 0 <= j < i ==> GroupValid(RowGroup(rows, rows[j].key.asOf))
  }

  /** The group checks: no reason exactly for valid groups, and otherwise the first check the first bad group fails. */
  method ValidateGroups(rows: seq<LabelRow>) returns (problem: Option<string>)
    ensures problem.None? <==> Validated(rows)
    ensures problem.Some? ==>
              if NoRepeats(KeysOf(rows)) then exists i: nat :: FirstProblem(rows, i, problem.value)
              else problem.value == "DUPLICATE_LABEL_SAMPLE"
  {
    if !NoRepeats(KeysOf(rows)) { return Some("DUPLICATE_LABEL_SAMPLE"); }
    hide GroupValid, GroupProblem;
    for i := 0 to |rows|
      invariant forall j :: 0 <= j < i ==> GroupValid(RowGroup(rows, rows[j].key.asOf))
    {
      problem := GroupProblem(RowGroup(rows, rows[i].key.asOf));
      if problem.Some? {
        assert FirstProblem(rows, i, problem.value);
        return;
      }
    }
    problem := None;
  }

  lemma {:induction false} RowGroupKeys(rows: seq<LabelRow>, asOf: Time)
    ensures KeysOf(RowGroup(rows, asOf)) == Members(KeysOf(rows), asOf)
    ensures forall r :: r in RowGroup(rows, asOf) <==> r in rows && r.key.asOf == asOf
  {
    if rows != [] {
      var n := |rows| - 1;
      RowGroupKeys(rows[..n], asOf);
      assert rows == rows[..n] + [rows[n]];
      assert KeysOf(rows[..n]) == KeysOf(rows)[..n];
    }
  }

  /** Two rows of one scoring time share their window. */
  lemma {:induction false} WindowShared(rows: seq<LabelRow>, i: nat, j: nat)
    requires Validated(rows) && i < |rows| && j < |rows| && rows[i].key.asOf == rows[j].key.asOf
    ensures rows[i].entry == rows[j].entry && rows[i].end == rows[j].end
  {
    hide Supervised, LatestOutcome, Returns, Intervals.IntervalAt;
    var g := RowGroup(rows, rows[i].key.asOf);
    RowGroupKeys(rows, rows[i].key.asOf);
    assert rows[i] in rows && rows[j] in rows;
    assert GroupValid(g);
    var a: nat :| a < |g| && g[a] == rows[i];
    var b: nat :| b < |g| && g[b] == rows[j];
    assert SameInformation(g[a], g[0]) && SameInformation(g[b], g[0]);
  }

  lemma {:induction false} RowGood(r: LabelRow)
    requires ValidRow(r)
    ensures Good(r.key, Recovered(r))
  {
  }

  lemma {:induction false} RecoveredKey(rows: seq<LabelRow>, i: nat)
    requires Validated(rows) && i < |rows| && ValidRow(rows[i])
    ensures KeysOf(rows)[i] == rows[i].key && rows[i].key in RecoveredMap(rows)
    ensures RecoveredMap(rows)[rows[i].key] == Recovered(rows[i]) && Good(rows[i].key, Recovered(rows[i]))
    ensures 2 <= |Members(KeysOf(rows), rows[i].key.asOf)|
  {
    hide Good, ValidRow, Recovered, SameInformation, Supervised;
    RowGood(rows[i]);
    RecoveredAt(rows, i);
    RowGroupKeys(rows, rows[i].key.asOf);
    assert GroupValid(RowGroup(rows, rows[i].key.asOf));
  }

  /** Validated rows carry a good pool of observations. */
  lemma {:induction false} RecoveredGood(rows: seq<LabelRow>)
    requires Validated(rows) && forall i :: 0 <= i < |rows| ==> ValidRow(rows[i])
    ensures GoodPool(KeysOf(rows), RecoveredMap(rows))
  {
    var keys, observations := KeysOf(rows), RecoveredMap(rows);
    assert NoRepeats(keys);
    hide GroupValid, ValidRow, Good, NoRepeats, Members, RecoveredMap, Validated;
    forall i | 0 <= i < |keys|
      ensures keys[i] in observations && Good(keys[i], observations[keys[i]]) && 2 <= |Members(keys, keys[i].asOf)|
    {
      RecoveredKey(rows, i);
    }
    forall i, j | 0 <= i < |keys| && 0 <= j < |keys| && keys[i].asOf == keys[j].asOf
      ensures SameWindow(observations[keys[i]], observations[keys[j]])
    {
      RecoveredKey(rows, i);
      RecoveredKey(rows, j);
      WindowShared(rows, i, j);
    }
  }

  lemma {:induction false} RowsCutAt(keys: seq<Key>, observations: map<Key, Observation>, cutoff: Time)
    requires Covered(keys, observations)
    ensures KeysOf(Rows(keys, observations, cutoff)) == keys
    ensures forall i :: 0 <= i < |keys| ==> Rows(keys, observations, cutoff)[i].cutoff == cutoff
  {
    forall i | 0 <= i < |keys|
      ensures Rows(keys, observations, cutoff)[i].key == keys[i] && Rows(keys, observations, cutoff)[i].cutoff == cutoff
    {
      RowKeeps(keys, observations, cutoff, keys[i]);
    }
  }

  /** The rows re-cut at an earlier cutoff: same keys, all of them valid, in valid groups. */
  ghost predicate IsCut(rows: seq<LabelRow>, cut: seq<LabelRow>, cutoff: Time)
  {
    && Covered(KeysOf(rows), RecoveredMap(rows)) && cut == Rows(KeysOf(rows), RecoveredMap(rows), cutoff)
    && KeysOf(cut) == KeysOf(rows) && Validated(cut) && AllValid(cut)
    && forall i :: 0 <= i < |cut| ==> cut[i].cutoff == cutoff
  }

  predicate AllValid(rows: seq<LabelRow>) { forall i :: 0 <= i < |rows| ==> ValidRow(rows[i]) }

  /** No row was known earlier than the cutoff asks for. */
  predicate Reaches(rows: seq<LabelRow>, cutoff: Time) { forall i :: 0 <= i < |rows| ==> cutoff <= rows[i].cutoff }

  /** Cutting again: refuses to widen, and otherwise never fails; the result is valid again. */
  method LabelRowsAtCutoff(rows: seq<LabelRow>, cutoff: Time) returns (r: Result<seq<LabelRow>>)
    requires AllValid(rows)
    ensures r.Ok? <==> Validated(rows) && Reaches(rows, cutoff)
    ensures r.Err? && Validated(rows) ==> r.reason == "CANNOT_UNCENSOR_WITHOUT_SOURCE"
    ensures r.Ok? ==> IsCut(rows, r.value, cutoff)
  {
    var problem := ValidateGroups(rows);
    if problem.Some? { return Err(problem.value); }
    if !Reaches(rows, cutoff) { return Err("CANNOT_UNCENSOR_WITHOUT_SOURCE"); }
    RecoveredGood(rows);
    RowsValid(KeysOf(rows), RecoveredMap(rows), cutoff);
    RowsCutAt(KeysOf(rows), RecoveredMap(rows), cutoff);
    hide Validated, ValidRow, Rows, GoodPool;
    var cut := Identify(KeysOf(rows), RecoveredMap(rows), cutoff);
    r := Ok(cut);
  }

  /** Re-cutting in two steps is re-cutting once. */
  lemma {:induction false} RecutTwice(rows: seq<LabelRow>, c2: Time, c3: Time)
    requires Validated(rows) && (forall i :: 0 <= i < |rows| ==> ValidRow(rows[i])) && c3 <= c2
    ensures var keys, first := KeysOf(rows), RecoveredMap(rows);
            && Covered(keys, first) && KeysOf(Rows(keys, first, c2)) == keys
            && Covered(keys, RecoveredMap(Rows(keys, first, c2)))
            && Rows(keys, RecoveredMap(Rows(keys, first, c2)), c3) == Rows(keys, first, c3)
  {
    RecoveredGood(rows);
    var keys, first := KeysOf(rows), RecoveredMap(rows);
    hide ValidRow, GroupValid, Rows, SameWindow, Known;
    forall k | k in keys ensures Consistent(first[k]) {
      var i: nat :| i < |keys| && keys[i] == k;
      assert Good(keys[i], first[keys[i]]);
    }
    hide Validated;
    RecutRows(keys, first, c2, c3);
  }
}
