/** Percentile intervals identified by partly observed outcomes. */
module Intervals {
  import opened Prelude
  import opened Sums
  import opened Ranks
  import opened Completions

  datatype Interval = Interval(lo: real, hi: real)

  /** The percentile of a rank among n members. */
  function Scaled(rank: real, n: nat): real
    requires n >= 2
  {
    (rank - 1.0) / (n - 1) as real
  }

  /** The percentile of v in a complete pool. */
  function Percentile(v: real, pool: seq<real>): real
    requires |pool| >= 2
  {
    Scaled(Rank(v, pool), |pool|)
  }

  /** The interval reported for entry i: the known rank, and that rank if every unknown fell below it. */
  function IntervalAt(outcomes: Outcomes, i: nat): Option<Interval>
    requires i < |outcomes| && |outcomes| >= 2
  {
    if outcomes[i].None? then None
    else
      Some(Bracket(Rank(outcomes[i].value, Known(outcomes)), Missing(outcomes), |outcomes|))
  }

  /** The lowest and the highest percentile a known rank can end at. */
  function Bracket(rank: real, missing: nat, n: nat): Interval
    requires n >= 2
  {
    Interval(Scaled(rank, n), Scaled(rank + missing as real, n))
  }

  lemma {:induction false} DivideMonotone(a: real, b: real, s: real)
    requires s > 0.0 && a <= b
    ensures a / s <= b / s
  {
    assert b / s - a / s == (b - a) / s;
  }

  lemma {:induction false} ScaledMonotone(a: real, b: real, n: nat)
    requires n >= 2 && a <= b
    ensures Scaled(a, n) <= Scaled(b, n)
  {
    DivideMonotone(a - 1.0, b - 1.0, (n - 1) as real);
  }

  /** The true percentile lies in the interval, whatever the unknown outcomes turn out to be. */
  lemma {:induction false} IntervalSound(outcomes: Outcomes, i: nat, full: seq<real>)
    requires |outcomes| >= 2 && i < |outcomes| && outcomes[i].Some? && Completes(outcomes, full)
    ensures var bounds := IntervalAt(outcomes, i).value;
            bounds.lo <= Percentile(full[i], full) <= bounds.hi
  {
    var v, h, n := full[i], Hidden(outcomes, full), |full|;
    CountsSplit(outcomes, full, v);
    PositionCounts(v, h);
    var rank := Rank(v, Known(outcomes));
    ScaledMonotone(rank, Rank(v, full), n);
    ScaledMonotone(Rank(v, full), rank + |h| as real, n);
  }

  /** A completion whose unknowns all miss v, b of them below it, raises v's rank by exactly b. */
  lemma {:induction false} ShiftedRank(outcomes: Outcomes, i: nat, hidden: seq<real>, b: nat)
    requires |outcomes| >= 2 && i < |outcomes| && outcomes[i].Some? && |hidden| == Missing(outcomes)
    requires Less(outcomes[i].value, hidden) == b && Equal(outcomes[i].value, hidden) == 0
    ensures var full := Fill(outcomes, hidden);
            && Completes(outcomes, full)
            && Percentile(full[i], full)
            == Scaled(Rank(outcomes[i].value, Known(outcomes)) + b as real, |outcomes|)
  {
    var v := outcomes[i].value;
    FillCompletes(outcomes, hidden);
    CountsSplit(outcomes, Fill(outcomes, hidden), v);
    assert Rank(v, Fill(outcomes, hidden)) == Rank(v, Known(outcomes)) + b as real;
  }

  /** Both ends are reached: by placing every unknown above v, or every unknown below it. */
  lemma {:induction false} IntervalAttained(outcomes: Outcomes, i: nat) returns (low: seq<real>, high: seq<real>)
    requires |outcomes| >= 2 && i < |outcomes| && outcomes[i].Some?
    ensures Completes(outcomes, low) && Percentile(low[i], low) == IntervalAt(outcomes, i).value.lo
    ensures Completes(outcomes, high) && Percentile(high[i], high) == IntervalAt(outcomes, i).value.hi
  {
    var v, m := outcomes[i].value, Missing(outcomes);
    var above, below := seq(m, _ => v + 1.0), seq(m, _ => v - 1.0);
    SumConstant(Below(v), 0, above);
    SumConstant(Tied(v), 0, above);
    SumConstant(Below(v), 1, below);
    SumConstant(Tied(v), 0, below);
    ShiftedRank(outcomes, i, above, 0);
    ShiftedRank(outcomes, i, below, m);
    low, high := Fill(outcomes, above), Fill(outcomes, below);
  }

  /** Hiding further outcomes only widens every interval that is still reported. */
  lemma {:induction false} IntervalWidens(more: Outcomes, less: Outcomes, i: nat)
    requires |more| >= 2 && i < |more| && Hides(more, less) && more[i].Some?
    ensures var wide, narrow := IntervalAt(more, i).value, IntervalAt(less, i).value;
            wide.lo <= narrow.lo && narrow.hi <= wide.hi
  {
    var low, high := IntervalAttained(less, i);
    CompletionsGrow(more, less, low);
    CompletionsGrow(more, less, high);
    IntervalSound(more, i, low);
    IntervalSound(more, i, high);
  }

  /** Intervals are within [0, 1], and are points exactly when nothing is missing. */
  lemma {:induction false} IntervalInRange(outcomes: Outcomes, i: nat)
    requires |outcomes| >= 2 && i < |outcomes| && outcomes[i].Some?
    ensures var bounds := IntervalAt(outcomes, i).value;
            && 0.0 <= bounds.lo <= bounds.hi <= 1.0
            && (bounds.lo == bounds.hi <==> Missing(outcomes) == 0)
  {
    var v, k, m, s := outcomes[i].value, Known(outcomes), Missing(outcomes), (|outcomes| - 1) as real;
    KnownMember(outcomes, i);
    PositionCounts(v, k);
    ScaledRange(Rank(v, k) - 1.0, m as real, s);
    assert Rank(v, k) - 1.0 + m as real == Rank(v, k) + m as real - 1.0;
  }

  lemma {:induction false} ScaledRange(a: real, m: real, s: real)
    requires s > 0.0 && 0.0 <= a && 0.0 <= m && a + m <= s
    ensures 0.0 <= a / s <= (a + m) / s <= 1.0
    ensures a / s == (a + m) / s <==> m == 0.0
  {
    DivideMonotone(0.0, a, s);
    DivideMonotone(a, a + m, s);
    DivideMonotone(a + m, s, s);
    assert (a + m) / s * s == a + m && a / s * s == a;
  }

  method Percentiles(values: seq<real>) returns (r: Result<seq<real>>)
    ensures r.Ok? <==> |values| >= 2
    ensures r.Ok? ==> |r.value| == |values|
    ensures r.Ok? ==> forall i :: 0 <= i < |values| ==> r.value[i] == Percentile(values[i], values)
  {
    if |values| < 2 {
      return Err("PERCENTILE_REQUIRES_CROSS_SECTION");
    }
    var ranks := AverageRanks(values);
    r := Ok(seq(|values|, (i: nat) requires i < |ranks.value| => Scaled(ranks.value[i], |values|)));
  }

  /** The intervals of a pool; known ranks are drawn in order, one for each known entry. */
  method PercentileIntervals(values: Outcomes) returns (r: Result<seq<Option<Interval>>>)
    ensures r.Ok? <==> |values| >= 2
    ensures r.Ok? ==> |r.value| == |values|
    ensures r.Ok? ==> forall i :: 0 <= i < |values| ==> r.value[i] == IntervalAt(values, i)
  {
    if |values| < 2 {
      return Err("INTERVAL_RETURN_INPUT_INVALID");
    }
    var known := Known(values);
    if known == [] {
      forall i | 0 <= i < |values| ensures values[i].None? {
        if values[i].Some? { KnownMember(values, i); }
      }
      return Ok(seq(|values|, _ => None));
    }
    var missing := |values| - |known|;
    var ranks := AverageRanks(known);
    var next := 0;
    var result := [];
    for i := 0 to |values|
      invariant |result| == i && next == |Known(values[..i])| <= |known|
      invariant forall j :: 0 <= j < i ==> result[j] == IntervalAt(values, j)
    {
      KnownOrder(values, i);
      if values[i].None? {
        result := result + [None];
      } else {
        var rank := ranks.value[next];
        next := next + 1;
        result := result + [Some(Bracket(rank, missing, |values|))];
      }
    }
    r := Ok(result);
  }
}
