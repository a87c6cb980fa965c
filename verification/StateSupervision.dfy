/** The array form of supervision, and its agreement with labels re-cut at the same moment. */
module StateSupervision {
  import opened Prelude
  import opened Clock
  import opened Multisets
  import opened Ranks
  import opened Completions
  import opened Intervals
  import Labels
  import Vectors

  /** One stored scoring day: an outcome and its time for every member, unknown outcomes included. */
  datatype Day = Day(date: Session, labelEnd: Option<Session>, outcomes: Outcomes, available: seq<Time>)

  predicate ValidDay(d: Day) { |d.outcomes| == |d.available| && 2 <= |d.outcomes| }

  predicate Matured(d: Day, cutoff: Time)
  {
    var today := SessionOf(cutoff);
    d.date < today && d.labelEnd.Some? && d.labelEnd.value < today
  }

  /** The members whose return is known before the cutoff. */
  function Masked(d: Day, cutoff: Time): (r: Outcomes)
    requires ValidDay(d)
    ensures |r| == |d.outcomes|
    ensures forall i :: 0 <= i < |r| ==>
              r[i] == if d.outcomes[i].Some? && d.available[i] < cutoff then d.outcomes[i] else None
  {
    seq(|d.outcomes|, i requires 0 <= i < |d.outcomes| =>
      if d.outcomes[i].Some? && d.available[i] < cutoff then d.outcomes[i] else None)
  }

  /** One supervised member: its row, interval, weight, downside and the time it became known. */
  datatype Target = Target(id: nat, interval: Interval, weight: real, risk: real, available: Time)

  function TargetAt(d: Day, start: nat, cutoff: Time, i: nat): Target
    requires ValidDay(d) && i < |d.outcomes| && Masked(d, cutoff)[i].Some?
  {
    var masked := Masked(d, cutoff);
    KnownMember(masked, i);
    Target(start + i, IntervalAt(masked, i).value, 1.0 / |Known(masked)| as real, RMax(-masked[i].value, 0.0),
           d.available[i])
  }

  /** The day's supervised members in order, up to member n. */
  function Targets(d: Day, start: nat, cutoff: Time, n: nat): seq<Target>
    requires ValidDay(d) && n <= |d.outcomes|
  {
    if n == 0 then []
    else Targets(d, start, cutoff, n - 1) + if Masked(d, cutoff)[n - 1].Some? then [TargetAt(d, start, cutoff, n - 1)]
                                            else []
  }

  function DayTargets(d: Day, start: nat, cutoff: Time): seq<Target>
    requires ValidDay(d)
  {
    if Matured(d, cutoff) then Targets(d, start, cutoff, |d.outcomes|) else []
  }

  function WeightSum(s: seq<Target>): real { if s == [] then 0.0 else WeightSum(s[..|s| - 1]) + s[|s| - 1].weight }

  lemma {:induction false} WeightSnoc(s: seq<Target>, t: Target)
    ensures WeightSum(s + [t]) == WeightSum(s) + t.weight
  {
    assert (s + [t])[..|s|] == s;
  }

  lemma {:induction false} WeightUpTo(d: Day, start: nat, cutoff: Time, n: nat, w: real)
    requires ValidDay(d) && n <= |d.outcomes|
    requires Known(Masked(d, cutoff)) != [] ==> w == 1.0 / |Known(Masked(d, cutoff))| as real
    ensures WeightSum(Targets(d, start, cutoff, n)) == Vectors.Times(|Known(Masked(d, cutoff)[..n])| as real, w)
  {
    if n == 0 {
      NothingYet(d, start, cutoff, w);
    } else {
      hide *;
      WeightUpTo(d, start, cutoff, n - 1, w);
      WeightNext(d, start, cutoff, n - 1, w);
    }
  }

  lemma {:induction false} NothingYet(d: Day, start: nat, cutoff: Time, w: real)
    requires ValidDay(d)
    ensures WeightSum(Targets(d, start, cutoff, 0)) == Vectors.Times(|Known(Masked(d, cutoff)[..0])| as real, w)
  {
    NoneKnown();
    assert Masked(d, cutoff)[..0] == [];
  }

  lemma {:induction false} WeightNext(d: Day, start: nat, cutoff: Time, n: nat, w: real)
    requires ValidDay(d) && n < |d.outcomes|
    requires Known(Masked(d, cutoff)) != [] ==> w == 1.0 / |Known(Masked(d, cutoff))| as real
    requires WeightSum(Targets(d, start, cutoff, n)) == Vectors.Times(|Known(Masked(d, cutoff)[..n])| as real, w)
    ensures WeightSum(Targets(d, start, cutoff, n + 1)) == Vectors.Times(|Known(Masked(d, cutoff)[..n + 1])| as real, w)
  {
    hide *;
    var masked := Masked(d, cutoff);
    KnownOrder(masked, n);
    TargetsNext(d, start, cutoff, n);
    if masked[n].Some? {
      TargetWeight(d, start, cutoff, n);
      WeightSnoc(Targets(d, start, cutoff, n), TargetAt(d, start, cutoff, n));
      MoreOnce(|Known(masked[..n])| as real, w);
    } else {
      assert Targets(d, start, cutoff, n) + [] == Targets(d, start, cutoff, n);
    }
  }

  lemma {:induction false} TargetsNext(d: Day, start: nat, cutoff: Time, n: nat)
    requires ValidDay(d) && n < |d.outcomes|
    ensures Targets(d, start, cutoff, n + 1)
         == Targets(d, start, cutoff, n) + if Masked(d, cutoff)[n].Some? then [TargetAt(d, start, cutoff, n)] else []
  {
    hide Known, TargetAt, Masked;
  }

  lemma {:induction false} TargetWeight(d: Day, start: nat, cutoff: Time, i: nat)
    requires ValidDay(d) && i < |d.outcomes| && Masked(d, cutoff)[i].Some?
    ensures Known(Masked(d, cutoff)) != []
    ensures TargetAt(d, start, cutoff, i).weight == 1.0 / |Known(Masked(d, cutoff))| as real
  {
    KnownMember(Masked(d, cutoff), i);
    hide Known, Masked, IntervalAt;
  }

  lemma {:induction false} MoreOnce(k: real, w: real)
    ensures Vectors.Times(k + 1.0, w) == Vectors.Times(k, w) + w
  {
  }

  lemma {:induction false} WholeOf(k: real)
    requires k != 0.0
    ensures Vectors.Times(k, 1.0 / k) == 1.0
  {
  }

  /** Every supervised day carries weight one in total, however many of its members are known. */
  lemma {:induction false} DayWeight(d: Day, start: nat, cutoff: Time)
    requires ValidDay(d) && DayTargets(d, start, cutoff) != []
    ensures WeightSum(DayTargets(d, start, cutoff)) == 1.0
  {
    var masked := Masked(d, cutoff);
    assert masked[..|masked|] == masked;
    if Known(masked) == [] {
      NoTargets(d, start, cutoff, |d.outcomes|);
    } else {
      var k := |Known(masked)| as real;
      WeightUpTo(d, start, cutoff, |d.outcomes|, 1.0 / k);
      WholeOf(k);
    }
  }

  // ---- searchsorted and the scatter of ranks

  predicate Rising(w: seq<real>) { forall p, q :: 0 <= p <= q < |w| ==> w[p] <= w[q] }

  /** The left insertion point of v. */
  method SearchLeft(w: seq<real>, v: real) returns (k: nat)
    requires Rising(w)
    ensures k <= |w| && (forall p :: 0 <= p < k ==> w[p] < v) && forall p :: k <= p < |w| ==> v <= w[p]
  {
    var low, high := 0, |w|;
    while low < high
      invariant 0 <= low <= high <= |w|
      invariant (forall p :: 0 <= p < low ==> w[p] < v) && forall p :: high <= p < |w| ==> v <= w[p]
    {
      var mid := (low + high) / 2;
      if w[mid] < v { low := mid + 1; } else { high := mid; }
    }
    k := low;
  }

  /** The right insertion point of v. */
  method SearchRight(w: seq<real>, v: real) returns (k: nat)
    requires Rising(w)
    ensures k <= |w| && (forall p :: 0 <= p < k ==> w[p] <= v) && forall p :: k <= p < |w| ==> v < w[p]
  {
    var low, high := 0, |w|;
    while low < high
      invariant 0 <= low <= high <= |w|
      invariant (forall p :: 0 <= p < low ==> w[p] <= v) && forall p :: high <= p < |w| ==> v < w[p]
    {
      var mid := (low + high) / 2;
      if w[mid] <= v { low := mid + 1; } else { high := mid; }
    }
    k := low;
  }

  /** The two search results around any place bracket its tie run, so their mean is its zero-based average rank. */
  lemma {:induction false} SearchIsRank(values: seq<real>, order: seq<nat>, p: nat, left: nat, right: nat)
    requires Arranged(values, order) && multiset(order) == multiset(Indices(|values|)) && p < |values|
    requires left <= |values| && right <= |values|
    requires var w, v := Gather(values, order), Gather(values, order)[p];
             && (forall q :: 0 <= q < left ==> w[q] < v) && (forall q :: left <= q < |w| ==> v <= w[q])
             && (forall q :: 0 <= q < right ==> w[q] <= v) && (forall q :: right <= q < |w| ==> v < w[q])
    ensures (left + right - 1) as real / 2.0 == Rank(KeyOf(values, order[p]), values) - 1.0
  {
    var w := Gather(values, order);
    var v := w[p];
    assert left <= p && p < right;
    assert w[left] == v;
    forall q | left <= q < right ensures KeyOf(values, order[q]) == KeyOf(values, order[left]) {
      assert w[q] == w[p];
    }
    if 0 < left { assert w[left - 1] < w[p]; }
    if right < |values| { assert w[p] < w[right]; }
    RunRank(values, order, left, right);
  }

  /** The mean of both insertion points, stored back at the original places. */
  method ZeroRanks(values: seq<real>) returns (ranks: array<real>)
    ensures fresh(ranks) && ranks.Length == |values|
    ensures forall i :: 0 <= i < |values| ==> ranks[i] == Rank(values[i], values) - 1.0
  {
    var order := SortedIndices(values);
    var w := Gather(values, order);
    assert forall p :: 0 <= p < |w| ==> w[p] == KeyOf(values, order[p]);
    hide Rank;
    ranks := new real[|values|];
    for p := 0 to |order|
      invariant forall q :: 0 <= q < p ==> ranks[order[q]] == Rank(KeyOf(values, order[q]), values) - 1.0
    {
      var left := SearchLeft(w, w[p]);
      var right := SearchRight(w, w[p]);
      SearchIsRank(values, order, p, left, right);
      ranks[order[p]] := (left + right - 1) as real / 2.0;
    }
    forall i | 0 <= i < |values| ensures ranks[i] == Rank(values[i], values) - 1.0 {
      assert i in order;
    }
  }

  // ---- supervision

  /** The row built from a zero-based rank among the known returns. */
  function Built(d: Day, start: nat, i: nat, value: real, rank: real, known: nat): Target
    requires ValidDay(d) && i < |d.outcomes| && 0 < known
  {
    var n, missing := (|d.outcomes| - 1) as real, (|d.outcomes| - known) as real;
    Target(start + i, Interval(rank / n, (rank + missing) / n), 1.0 / known as real, RMax(-value, 0.0), d.available[i])
  }

  lemma {:induction false} BuiltIs(d: Day, start: nat, cutoff: Time, i: nat, rank: real)
    requires ValidDay(d) && i < |d.outcomes| && Masked(d, cutoff)[i].Some?
    requires rank == Rank(Masked(d, cutoff)[i].value, Known(Masked(d, cutoff))) - 1.0
    ensures Known(Masked(d, cutoff)) != []
    ensures TargetAt(d, start, cutoff, i)
         == Built(d, start, i, Masked(d, cutoff)[i].value, rank, |Known(Masked(d, cutoff))|)
  {
    hide Rank;
    KnownMember(Masked(d, cutoff), i);
  }

  /** Each known member takes the next rank. */
  method Spread(d: Day, start: nat, cutoff: Time, ranks: seq<real>) returns (targets: seq<Target>)
    requires ValidDay(d) && |ranks| == |Known(Masked(d, cutoff))| > 0
    requires var k := Known(Masked(d, cutoff)); forall j :: 0 <= j < |k| ==> ranks[j] == Rank(k[j], k) - 1.0
    ensures targets == Targets(d, start, cutoff, |d.outcomes|)
  {
    hide Rank, TargetAt, Built, Known;
    var masked := Masked(d, cutoff);
    var next := 0;
    targets := [];
    assert masked[..0] == [];
    NoneKnown();
    for i := 0 to |d.outcomes|
      invariant next == |Known(masked[..i])| <= |ranks|
      invariant targets == Targets(d, start, cutoff, i)
    {
      KnownOrder(masked, i);
      if masked[i].Some? {
        BuiltIs(d, start, cutoff, i, ranks[next]);
        targets := targets + [Built(d, start, i, masked[i].value, ranks[next], |ranks|)];
        next := next + 1;
      }
    }
  }

  lemma {:induction false} NoneKnown()
    ensures Known([]) == []
  {
  }

  /** One day: zero-based ranks of the known returns, spread over the members that have one. */
  method SuperviseDay(d: Day, start: nat, cutoff: Time) returns (targets: seq<Target>)
    requires ValidDay(d)
    ensures targets == DayTargets(d, start, cutoff)
  {
    if !Matured(d, cutoff) { return []; }
    hide Rank, Matured, TargetAt, Masked, Known;
    var values := Known(Masked(d, cutoff));
    if values == [] {
      NoTargets(d, start, cutoff, |d.outcomes|);
      return [];
    }
    var ranks := ZeroRanks(values);
    targets := Spread(d, start, cutoff, ranks[..]);
  }

  lemma {:induction false} NoTargets(d: Day, start: nat, cutoff: Time, n: nat)
    requires ValidDay(d) && n <= |d.outcomes| && Known(Masked(d, cutoff)) == []
    ensures Targets(d, start, cutoff, n) == []
  {
    if n > 0 {
      NoTargets(d, start, cutoff, n - 1);
      if Masked(d, cutoff)[n - 1].Some? { KnownMember(Masked(d, cutoff), n - 1); }
    }
  }

  /** Where the rows of day j start. */
  function StartOf(days: seq<Day>, j: nat): nat
    requires j <= |days|
  {
    if j == 0 then 0 else StartOf(days, j - 1) + |days[j - 1].outcomes|
  }

  function AllTargets(days: seq<Day>, cutoff: Time, j: nat): seq<Target>
    requires j <= |days| && forall i :: 0 <= i < |days| ==> ValidDay(days[i])
  {
    if j == 0 then [] else AllTargets(days, cutoff, j - 1) + DayTargets(days[j - 1], StartOf(days, j - 1), cutoff)
  }

  /** Nothing after the first day that is not yet over contributes, so the loop may stop there. */
  lemma {:induction false} LaterDaysEmpty(days: seq<Day>, cutoff: Time, j: nat, n: nat)
    requires j < n <= |days| && forall i :: 0 <= i < |days| ==> ValidDay(days[i])
    requires forall a, b :: 0 <= a < b < |days| ==> days[a].date < days[b].date
    requires SessionOf(cutoff) <= days[j].date
    ensures AllTargets(days, cutoff, n) == AllTargets(days, cutoff, j)
  {
    assert days[j].date <= days[n - 1].date;
    assert !Matured(days[n - 1], cutoff);
    if j + 1 < n { LaterDaysEmpty(days, cutoff, j, n - 1); }
  }

  /** The supervision at a cutoff: the targets of every matured day in order. */
  method Supervision(days: seq<Day>, cutoff: Time) returns (r: Result<seq<Target>>)
    requires forall i :: 0 <= i < |days| ==> ValidDay(days[i])
    requires forall a, b :: 0 <= a < b < |days| ==> days[a].date < days[b].date
    ensures r == if AllTargets(days, cutoff, |days|) == [] then Err("STATE_EMPTY_SUPERVISION")
                 else Ok(AllTargets(days, cutoff, |days|))
  {
    hide DayTargets;
    var targets, start, j := [], 0, 0;
    while j < |days| && days[j].date < SessionOf(cutoff)
      invariant 0 <= j <= |days| && targets == AllTargets(days, cutoff, j) && start == StartOf(days, j)
    {
      var day := SuperviseDay(days[j], start, cutoff);
      targets, start, j := targets + day, start + |days[j].outcomes|, j + 1;
    }
    if j < |days| { LaterDaysEmpty(days, cutoff, j, |days|); }
    r := if targets == [] then Err("STATE_EMPTY_SUPERVISION") else Ok(targets);
  }

  // ---- the same supervision, through labels

  const FAR: Time := 9223372036854775807

  /** Preparation: what the cache keeps of one day's labels. */
  function Stored(g: seq<Labels.LabelRow>): (d: Day)
    requires g != []
    ensures |d.outcomes| == |d.available| == |g|
  {
    Day(SessionOf(g[0].key.asOf), g[0].end, Labels.Returns(g),
        seq(|g|, i requires 0 <= i < |g| => if g[i].outcomeAt.Some? then g[i].outcomeAt.value else FAR))
  }

  /** One validated scoring time. */
  ghost predicate DayLabels(g: seq<Labels.LabelRow>)
  {
    && Labels.Validated(g) && Labels.AllValid(g) && 2 <= |g|
    && forall i :: 0 <= i < |g| ==> g[i].key.asOf == g[0].key.asOf
  }

  lemma {:induction false} SoleGroup(keys: seq<Labels.Key>, asOf: Time)
    requires forall i :: 0 <= i < |keys| ==> keys[i].asOf == asOf
    ensures Labels.Members(keys, asOf) == keys
  {
    if keys != [] { SoleGroup(keys[..|keys| - 1], asOf); }
  }

  lemma {:induction false} SoleRows(rows: seq<Labels.LabelRow>, asOf: Time)
    requires forall i :: 0 <= i < |rows| ==> rows[i].key.asOf == asOf
    ensures Labels.RowGroup(rows, asOf) == rows
  {
    if rows != [] { SoleRows(rows[..|rows| - 1], asOf); }
  }

  /** A member the re-cut still knows is a member the mask keeps on a matured day, and no other. */
  lemma {:induction false} SameMask(g: seq<Labels.LabelRow>, cutoff: Time, i: nat)
    requires DayLabels(g) && i < |g|
    ensures Labels.At(Labels.Recovered(g[i]), cutoff).value
         == if Matured(Stored(g), cutoff) then Masked(Stored(g), cutoff)[i] else None
    ensures Labels.At(Labels.Recovered(g[i]), cutoff).value.Some? ==>
              Labels.At(Labels.Recovered(g[i]), cutoff).ready == Some(Stored(g).available[i])
  {
    hide Labels.GroupValid;
    assert Labels.ValidRow(g[i]);
    Labels.WindowShared(g, i, 0);
  }

  /**
   * The array form supervises exactly the members that re-cutting the day's labels at the same cutoff leaves
   * supervised, each with the same interval and the same availability.
   */
  lemma {:induction false} SupervisionIsRecut(g: seq<Labels.LabelRow>, cutoff: Time, start: nat, i: nat)
    requires DayLabels(g) && i < |g|
    ensures Labels.Covered(Labels.KeysOf(g), Labels.RecoveredMap(g))
    ensures var row := Labels.Rows(Labels.KeysOf(g), Labels.RecoveredMap(g), cutoff)[i];
            var d := Stored(g);
            && (row.interval.Some? <==> Matured(d, cutoff) && Masked(d, cutoff)[i].Some?)
            && (row.interval.Some? ==> && row.interval == Some(TargetAt(d, start, cutoff, i).interval)
                                       && row.outcomeAt == Some(TargetAt(d, start, cutoff, i).available))
  {
    hide *;
    RecutRow(g, cutoff, i);
    RecutInterval(g, cutoff, i);
    SettledIs(g, cutoff);
    TargetOf(Stored(g), start, cutoff, i);
  }

  function Recut(g: seq<Labels.LabelRow>, cutoff: Time): (s: seq<Labels.Observation>)
    ensures |s| == |g| && forall j :: 0 <= j < |g| ==> s[j] == Labels.At(Labels.Recovered(g[j]), cutoff)
  {
    seq(|g|, j requires 0 <= j < |g| => Labels.At(Labels.Recovered(g[j]), cutoff))
  }

  /** One day's labels, re-cut, are the rows of what the cutoff leaves of each. */
  lemma {:induction false} RecutRow(g: seq<Labels.LabelRow>, cutoff: Time, i: nat)
    requires DayLabels(g) && i < |g|
    ensures Labels.Covered(Labels.KeysOf(g), Labels.RecoveredMap(g))
    ensures Labels.Rows(Labels.KeysOf(g), Labels.RecoveredMap(g), cutoff)[i]
         == Labels.RowAt(Labels.KeysOf(g), Recut(g, cutoff), cutoff, i)
  {
    var keys, observations, asOf := Labels.KeysOf(g), Labels.RecoveredMap(g), g[0].key.asOf;
    SettledRecut(g, cutoff);
    SoleGroup(keys, asOf);
    hide DayLabels, Labels.Rows, Labels.RowGroup, Labels.Settled, Labels.Members, Labels.RowAt, Recut,
         Labels.RecoveredMap;
    var rows := Labels.Rows(keys, observations, cutoff);
    Labels.RowsCutAt(keys, observations, cutoff);
    forall j | 0 <= j < |g| ensures rows[j].key.asOf == asOf {
      assert Labels.KeysOf(rows)[j] == keys[j];
    }
    SoleRows(rows, asOf);
    Labels.GroupOfCut(keys, observations, cutoff, asOf);
  }

  lemma {:induction false} SettledRecut(g: seq<Labels.LabelRow>, cutoff: Time)
    requires DayLabels(g)
    ensures Labels.Covered(Labels.KeysOf(g), Labels.RecoveredMap(g)) && NoRepeats(Labels.KeysOf(g))
    ensures Labels.Settled(Labels.KeysOf(g), Labels.RecoveredMap(g), cutoff) == Recut(g, cutoff)
  {
    Labels.RecoveredGood(g);
    hide Labels.ValidRow, Labels.GroupValid, Labels.At, Labels.Recovered, Labels.RecoveredMap, Labels.Good;
    var s := Labels.Settled(Labels.KeysOf(g), Labels.RecoveredMap(g), cutoff);
    forall j: nat | j < |g| ensures s[j] == Labels.At(Labels.Recovered(g[j]), cutoff) {
      Labels.RecoveredAt(g, j);
    }
  }

  /** What the cutoff leaves of a matured day's values is the masked day, and nothing of any other day. */
  lemma {:induction false} SettledIs(g: seq<Labels.LabelRow>, cutoff: Time)
    requires DayLabels(g)
    ensures var v, d := Labels.Values(Recut(g, cutoff)), Stored(g);
            && (Matured(d, cutoff) ==> v == Masked(d, cutoff))
            && (!Matured(d, cutoff) ==> forall i :: 0 <= i < |g| ==> v[i].None?)
  {
    hide Labels.At, Labels.Recovered, Masked, Matured, Labels.Validated, Labels.AllValid, Recut;
    forall j: nat | j < |g| ensures Labels.Values(Recut(g, cutoff))[j]
                                 == if Matured(Stored(g), cutoff) then Masked(Stored(g), cutoff)[j] else None {
      SameMask(g, cutoff, j);
    }
  }

  lemma {:induction false} TargetOf(d: Day, start: nat, cutoff: Time, i: nat)
    requires ValidDay(d) && i < |d.outcomes|
    ensures Masked(d, cutoff)[i].Some? ==>
              && Some(TargetAt(d, start, cutoff, i).interval) == IntervalAt(Masked(d, cutoff), i)
              && TargetAt(d, start, cutoff, i).available == d.available[i]
    ensures Masked(d, cutoff)[i].None? ==> IntervalAt(Masked(d, cutoff), i).None?
  {
    hide Masked, Bracket, Rank, Known;
  }

  /** The interval and time of a re-cut row. */
  lemma {:induction false} RecutInterval(g: seq<Labels.LabelRow>, cutoff: Time, i: nat)
    requires DayLabels(g) && i < |g|
    ensures var row, v := Labels.RowAt(Labels.KeysOf(g), Recut(g, cutoff), cutoff, i), Labels.Values(Recut(g, cutoff));
            && row.interval == IntervalAt(v, i) && (v[i].None? ==> row.interval.None?) && ValidDay(Stored(g))
            && (v[i].Some? ==> row.outcomeAt == Some(Stored(g).available[i]))
  {
    SameMask(g, cutoff, i);
    hide Labels.At, Labels.Recovered, Bracket, Rank, Known, Masked, Matured, Labels.Validated, Labels.AllValid;
  }
}
