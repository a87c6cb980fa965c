/** Building the state index: the rows grouped by code, each row in exactly one group. */
module StateIndexBuild {
  import opened Prelude
  import opened Vectors
  import opened StateMetric
  import opened RowGroups
  import opened StateIndex

  function CodesOf(rows: seq<Row>, m: Metric, root: real -> real): (c: seq<Code>)
    requires m.Valid() && IsRoot(root) && forall i :: 0 <= i < |rows| ==> rows[i].Valid()
    ensures |c| == |rows|
    ensures forall i :: 0 <= i < |rows| ==> c[i] == Code(rows[i].missing, !Usable(rows[i], m, root))
  {
    seq(|rows|, (i: nat) requires i < |rows| => Code(rows[i].missing, !Usable(rows[i], m, root)))
  }

  /** Building the index: check the alignment, then group the rows by code. */
  method Build(rows: seq<Row>, days: seq<int>, ids: seq<int>, metric: Metric, root: real -> real)
    returns (r: Result<Memory>)
    requires IsRoot(root) && metric.Valid() && forall i :: 0 <= i < |rows| ==> rows[i].Valid()
    ensures r.Ok? <==> (|rows| == |days| == |ids| && 0 < |rows| && RAbs(Sum(metric.weights) - 1.0) < EPS
                        && forall i :: 0 < i < |ids| ==> ids[i - 1] < ids[i])
    ensures r.Ok? ==> var m := r.value;
      m.rows == rows && m.days == days && m.ids == ids && m.metric == metric && m.Aligned() && m.Grouped(root)
  {
    if !(|rows| == |days| == |ids| && 0 < |rows| && RAbs(Sum(metric.weights) - 1.0) < EPS
         && forall i :: 0 < i < |ids| ==> ids[i - 1] < ids[i]) {
      return Err("STATE_INDEX_MEMORY_ALIGNMENT");
    }
    Increasing(ids);
    var codes := CodesOf(rows, metric, root);
    var groups := GroupByCode(codes);
    r := Ok(Memory(rows, days, ids, metric, groups));
    GroupedBy(r.value, codes, root);
  }

  /** Rows of one code share their pattern and their trend flag. */
  lemma {:induction false} GroupedBy(m: Memory, codes: seq<Code>, root: real -> real)
    requires m.Aligned() && IsRoot(root) && codes == CodesOf(m.rows, m.metric, root) && IsGrouping(m.groups, codes)
    ensures m.Grouped(root)
  {
    hide Usable, IsRoot, Members, Numbers;
    forall g | 0 <= g < |m.groups| ensures m.GroupFits(m.groups[g], root) {
      var group := m.groups[g];
      assert OfOneCode(group, codes);
      forall p | 0 <= p < |group.members|
        ensures group.members[p] < |m.rows| && m.rows[group.members[p]].missing == group.pattern
                && (group.invalid <==> !Usable(m.rows[group.members[p]], m.metric, root)) {
        assert codes[group.members[p]] == Code(group.pattern, group.invalid);
      }
      assert m.rows[group.members[0]].missing == group.pattern;
    }
  }
}
