/** Paired daily bounds on the difference between two rank coefficients. */
module PairedBounds {
  import opened Prelude
  import opened Vectors
  import opened Surds
  import opened Completions
  import opened RankBounds
  import opened RoundedBounds
  import Intervals

  type Bounds = Intervals.Interval

  /** What one model's evaluation of one date carries into the comparison. */
  datatype Daily = Daily(asOf: int, labelSet: int, count: nat, bounds: Option<Bounds>)

  datatype Paired = Paired(asOf: int, bounds: Bounds)

  predicate Comparable(a: Daily, b: Daily)
  {
    a.asOf == b.asOf && a.labelSet == b.labelSet && a.count == b.count && a.bounds.Some? && b.bounds.Some?
  }

  predicate Ordered(b: Bounds) { b.lo <= b.hi }

  predicate In(x: real, b: Bounds) { b.lo <= x <= b.hi }

  function PairOf(asOf: int, a: Bounds, b: Bounds): Paired
  {
    Paired(asOf, Intervals.Interval(RMax(-2.0, a.lo - b.hi), RMin(2.0, a.hi - b.lo)))
  }

  /** The paired interval is exactly the set of differences, no larger than two, that the two intervals allow. */
  ghost predicate Differences(p: Paired, a: Bounds, b: Bounds)
  {
    forall d: real :: In(d, p.bounds) <==> -2.0 <= d <= 2.0 && exists x: real :: In(x, a) && In(x - d, b)
  }

  lemma {:induction false} PairIsExact(asOf: int, a: Bounds, b: Bounds)
    requires Ordered(a) && Ordered(b)
    ensures Differences(PairOf(asOf, a, b), a, b)
  {
    forall d: real
      ensures In(d, PairOf(asOf, a, b).bounds) <==> -2.0 <= d <= 2.0 && exists x: real :: In(x, a) && In(x - d, b) {
      if a.lo - b.hi <= d <= a.hi - b.lo {
        var x := RMax(a.lo, b.lo + d);
        assert In(x, a) && In(x - d, b);
      }
    }
  }

  /** Between bounds on coefficients the clip at two never acts. */
  lemma {:induction false} ClipIdle(asOf: int, a: Bounds, b: Bounds, d: real)
    requires -1.0 <= a.lo <= a.hi <= 1.0 && -1.0 <= b.lo <= b.hi <= 1.0
    ensures In(d, PairOf(asOf, a, b).bounds) <==> exists x: real :: In(x, a) && In(x - d, b)
  {
    PairIsExact(asOf, a, b);
  }

  method PairedRankIcBounds(first: seq<Daily>, second: seq<Daily>) returns (r: Result<seq<Paired>>)
    ensures r.Ok? <==> |first| == |second| && forall i :: 0 <= i < |first| ==> Comparable(first[i], second[i])
    ensures r.Ok? ==> |r.value| == |first| && forall i :: 0 <= i < |first| ==>
              && r.value[i].asOf == first[i].asOf
              && (Ordered(first[i].bounds.value) && Ordered(second[i].bounds.value) ==>
                    Differences(r.value[i], first[i].bounds.value, second[i].bounds.value))
  {
    if |first| != |second| { return Err("PAIRED_BOUND_DATES_MISMATCH"); }
    var result := [];
    for i := 0 to |first|
      invariant |result| == i && forall j :: 0 <= j < i ==> Comparable(first[j], second[j])
      invariant forall j :: 0 <= j < i ==>
                  result[j] == PairOf(first[j].asOf, first[j].bounds.value, second[j].bounds.value)
    {
      var a, b := first[i], second[i];
      if a.asOf != b.asOf || a.labelSet != b.labelSet || a.count != b.count {
        return Err("PAIRED_BOUND_INFORMATION_SET_MISMATCH");
      }
      if a.bounds.None? || b.bounds.None? { return Err("UNDEFINED_PRIMARY_RANK_IC"); }
      result := result + [PairOf(a.asOf, a.bounds.value, b.bounds.value)];
    }
    forall i | 0 <= i < |first| && Ordered(first[i].bounds.value) && Ordered(second[i].bounds.value)
      ensures Differences(result[i], first[i].bounds.value, second[i].bounds.value) {
      PairIsExact(first[i].asOf, first[i].bounds.value, second[i].bounds.value);
    }
    r := Ok(result);
  }

  /**
   * Two models' coefficients against one completion of the same outcomes differ by something the paired bounds hold.
   */
  lemma {:induction false} DifferenceBounded(
      first: seq<real>, second: seq<real>, outcomes: Outcomes, full: seq<real>, l: Surd, u: Surd, l': Surd, u': Surd,
      asOf: int, root: real -> real)
    requires |first| == |second| == |outcomes| && Completes(outcomes, full) && IsRoot(root)
    requires l.Valid() && u.Valid() && l'.Valid() && u'.Valid()
    requires Bounding(l, u, first, outcomes) && Bounding(l', u', second, outcomes)
    ensures Spearman(first, full).Valid() && Spearman(second, full).Valid()
    ensures var p := PairOf(asOf, Intervals.Interval(Value(l, root), Value(u, root)),
                            Intervals.Interval(Value(l', root), Value(u', root)));
            In(Value(Spearman(first, full), root) - Value(Spearman(second, full), root), p.bounds)
  {
    Placed(first, outcomes, full, l, u, root);
    Placed(second, outcomes, full, l', u', root);
    hide *;
    PairHolds(asOf, Intervals.Interval(Value(l, root), Value(u, root)),
              Intervals.Interval(Value(l', root), Value(u', root)),
              Value(Spearman(first, full), root), Value(Spearman(second, full), root));
  }

  lemma {:induction false} PairHolds(asOf: int, a: Bounds, b: Bounds, x: real, y: real)
    requires a.lo <= x <= a.hi && b.lo <= y <= b.hi && -1.0 <= x <= 1.0 && -1.0 <= y <= 1.0
    ensures In(x - y, PairOf(asOf, a, b).bounds)
  {
  }
}
