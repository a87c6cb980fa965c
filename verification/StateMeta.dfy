/** Causal half-year recursion: blocks, joined history, risk setups and gates, each cut at its own boundary. */
module StateMeta {
  import opened Prelude
  import opened Clock
  import opened StateSupervision

  // ---- the study

  /** A prediction made inside its block: everything but the identity and the times is the models' business. */
  datatype Oof = Oof(id: nat, asOf: Time, modelCutoff: Time, prediction: int)

  /** A prediction with the label the fitting cutoff allows it. */
  datatype Joined = Joined(oof: Oof, target: Target)

  /**
   * A validation block as the gate fit sees it: the history before it, its predictions, and the gate of its own
   * start.
   */
  datatype Trial = Trial(block: nat, past: seq<Joined>, rows: seq<Oof>, nested: int)

  /**
   * starts are the half-year starts, anchors the fixed query identities of each block;
   * the last three are the models: a risk setup from a history, a prediction from a setup, a gate from its trials.
   */
  datatype Study = Study(
    days: seq<Day>, starts: seq<Session>, anchors: nat -> seq<nat>,
    fitRisk: (Session, seq<Joined>) -> int, predict: (nat, int, nat) -> int,
    fitGate: (Session, seq<Joined>, seq<Trial>) -> int)

  function Midnight(e: Session): Time { MarketTime(e, 0) }

  /** 21:30 on the scoring day */
  function ScoredAt(d: Session): Time { MarketTime(d, 21) + 1800 }

  predicate IsBlock(s: Study, h: nat) { h + 1 < |s.starts| }

  /** Day j belongs to block h. */
  predicate InBlock(s: Study, h: nat, j: nat)
    requires IsBlock(s, h) && j < |s.days|
  {
    s.starts[h] <= s.days[j].date < s.starts[h + 1]
  }

  /** The day a row belongs to. */
  function DayOf(days: seq<Day>, id: nat, n: nat): (j: nat)
    requires n <= |days| && id < StartOf(days, n)
    ensures j < n && StartOf(days, j) <= id < StartOf(days, j + 1)
  {
    if StartOf(days, n - 1) <= id then n - 1 else DayOf(days, id, n - 1)
  }

  predicate AnchorsIn(s: Study, h: nat)
    requires IsBlock(s, h)
  {
    && Ascending(s.anchors(h))
    && forall i :: 0 <= i < |s.anchors(h)| ==>
         s.anchors(h)[i] < StartOf(s.days, |s.days|) && InBlock(s, h, DayOf(s.days, s.anchors(h)[i], |s.days|))
  }

  /** An outcome becomes known only after its horizon, which lies after its scoring day. */
  predicate DayInOrder(d: Day)
  {
    && ValidDay(d) && 0 <= d.date && (d.labelEnd.Some? ==> d.date < d.labelEnd.value)
    && forall i :: 0 <= i < |d.outcomes| && d.outcomes[i].Some? && d.labelEnd.Some? ==>
         MarketTime(d.labelEnd.value, 15) <= d.available[i]
  }

  ghost predicate ValidStudy(s: Study)
  {
    && (forall j :: 0 <= j < |s.days| ==> DayInOrder(s.days[j]))
    && (forall a, b :: 0 <= a < b < |s.days| ==> s.days[a].date < s.days[b].date)
    && (forall a, b :: 0 <= a < b < |s.starts| ==> s.starts[a] < s.starts[b])
    && (forall h :: 0 <= h < |s.starts| ==> 0 <= s.starts[h])
    && forall h: nat :: IsBlock(s, h) ==> AnchorsIn(s, h)
  }

  // ---- the blocks before a boundary

  /** The last day of block h among the first n days. */
  function LastDay(s: Study, h: nat, n: nat): (j: Option<nat>)
    requires IsBlock(s, h) && n <= |s.days|
    ensures j.Some? ==> j.value < n && InBlock(s, h, j.value)
  {
    if n == 0 then None else if InBlock(s, h, n - 1) then Some(n - 1) else LastDay(s, h, n - 1)
  }

  /** A whole half-year whose final endpoint is past. */
  predicate Past(s: Study, h: nat, e: Session)
    requires IsBlock(s, h)
  {
    var last := LastDay(s, h, |s.days|);
    && last.Some? && s.starts[h + 1] <= e
    && s.days[last.value].labelEnd.Some? && s.days[last.value].labelEnd.value < e
  }

  /** Past blocks among the first n. */
  function PastBlocks(s: Study, e: Session, n: nat): (r: seq<nat>)
    requires n == 0 || n < |s.starts|
    ensures forall i :: 0 <= i < |r| ==> r[i] < n && Past(s, r[i], e)
  {
    if n == 0 then [] else PastBlocks(s, e, n - 1) + if Past(s, n - 1, e) then [n - 1] else []
  }

  function BlockCount(s: Study): (n: nat)
    ensures n == 0 || n < |s.starts|
  {
    if |s.starts| == 0 then 0 else |s.starts| - 1
  }

  /** A block start with enough inner blocks before it. */
  predicate InnerEnough(s: Study, h: nat)
    requires IsBlock(s, h)
  {
    2 <= |PastBlocks(s, s.starts[h], BlockCount(s))|
  }

  /** The usable blocks before a boundary, among the first n. */
  function BlocksUpTo(s: Study, e: Session, n: nat): (r: seq<nat>)
    requires n == 0 || n < |s.starts|
    ensures forall i :: 0 <= i < |r| ==> r[i] < n && Past(s, r[i], e) && InnerEnough(s, r[i])
    ensures Ascending(r)
  {
    if n == 0 then []
    else BlocksUpTo(s, e, n - 1) + if Past(s, n - 1, e) && InnerEnough(s, n - 1) then [n - 1] else []
  }

  function BlocksBefore(s: Study, e: Session): seq<nat> { BlocksUpTo(s, e, BlockCount(s)) }

  /** Every block starts strictly before the boundary that uses it: the recursion's measure. */
  lemma {:induction false} BlockStartsBefore(s: Study, e: Session, i: nat)
    requires ValidStudy(s) && i < |BlocksBefore(s, e)|
    ensures IsBlock(s, BlocksBefore(s, e)[i]) && 0 <= s.starts[BlocksBefore(s, e)[i]] < e
  {
  }

  ghost predicate Usable(s: Study, blocks: seq<nat>, e: Session)
  {
    forall i :: 0 <= i < |blocks| ==> IsBlock(s, blocks[i]) && 0 <= s.starts[blocks[i]] < e
  }

  lemma {:induction false} BlocksUsable(s: Study, e: Session)
    requires ValidStudy(s)
    ensures Usable(s, BlocksBefore(s, e), e)
  {
    forall i: nat | i < |BlocksBefore(s, e)|
      ensures IsBlock(s, BlocksBefore(s, e)[i]) && 0 <= s.starts[BlocksBefore(s, e)[i]] < e
    {
      BlockStartsBefore(s, e, i);
    }
  }

  // ---- the recursion

  /** What is known of the labels at a boundary. */
  function Memory(s: Study, e: Session): seq<Target>
    requires ValidStudy(s)
  {
    AllTargets(s.days, Midnight(e), |s.days|)
  }

  function FindTarget(memory: seq<Target>, id: nat): (t: Option<Target>)
    ensures t.Some? ==> t.value in memory && t.value.id == id
    ensures t.None? ==> forall i :: 0 <= i < |memory| ==> memory[i].id != id
  {
    if memory == [] then None
    else if memory[|memory| - 1].id == id then Some(memory[|memory| - 1])
    else
      assert memory == memory[..|memory| - 1] + [memory[|memory| - 1]];
      FindTarget(memory[..|memory| - 1], id)
  }

  /** The rows of one block whose labels the boundary's memory holds. */
  function Known(rows: seq<Oof>, memory: seq<Target>): seq<Joined>
  {
    if rows == [] then []
    else
      var t := FindTarget(memory, rows[|rows| - 1].id);
      Known(rows[..|rows| - 1], memory) + if t.Some? then [Joined(rows[|rows| - 1], t.value)] else []
  }

  function Predictions(s: Study, h: nat, setup: int, ids: seq<nat>): (r: seq<Oof>)
    requires ValidStudy(s) && IsBlock(s, h) && forall i :: 0 <= i < |ids| ==> ids[i] < StartOf(s.days, |s.days|)
    ensures |r| == |ids|
    ensures forall i :: 0 <= i < |ids| ==> r[i] == Oof(ids[i], ScoredAt(s.days[DayOf(s.days, ids[i], |s.days|)].date),
                                                       Midnight(s.starts[h]), s.predict(h, setup, ids[i]))
  {
    seq(|ids|, i requires 0 <= i < |ids| => Oof(ids[i], ScoredAt(s.days[DayOf(s.days, ids[i], |s.days|)].date),
                                                Midnight(s.starts[h]), s.predict(h, setup, ids[i])))
  }

  /** The predictions of a block, frozen at the block's own start. */
  function BlockOf(s: Study, h: nat): seq<Oof>
    requires ValidStudy(s) && IsBlock(s, h)
    decreases s.starts[h], 3
  {
    assert AnchorsIn(s, h);
    Predictions(s, h, SetupAt(s, s.starts[h]), s.anchors(h))
  }

  /** The joined rows of the first n of some blocks. */
  function JoinedUpTo(s: Study, e: Session, blocks: seq<nat>, n: nat): seq<Joined>
    requires ValidStudy(s) && 0 <= e && n <= |blocks| && Usable(s, blocks, e)
    decreases e, 0, n
  {
    if n == 0 then [] else JoinedUpTo(s, e, blocks, n - 1) + Known(BlockOf(s, blocks[n - 1]), Memory(s, e))
  }

  /** The history before a boundary; the source has nothing where this is empty. */
  function RowsAt(s: Study, e: Session): seq<Joined>
    requires ValidStudy(s) && 0 <= e
    decreases e, 1
  {
    BlocksUsable(s, e);
    JoinedUpTo(s, e, BlocksBefore(s, e), |BlocksBefore(s, e)|)
  }

  /** The risk setup fitted on the history before a boundary. */
  function SetupAt(s: Study, e: Session): int
    requires ValidStudy(s) && 0 <= e
    decreases e, 2
  {
    s.fitRisk(e, RowsAt(s, e))
  }

  // ---- the gates

  /** The last two usable blocks before a boundary. */
  function ValidationBlocks(s: Study, e: Session): (r: seq<nat>)
    ensures forall i :: 0 <= i < |r| ==> r[i] in BlocksBefore(s, e)
  {
    var b := BlocksBefore(s, e);
    if |b| <= 2 then b else b[|b| - 2..]
  }

  lemma {:induction false} ValidationUsable(s: Study, e: Session)
    requires ValidStudy(s)
    ensures Usable(s, ValidationBlocks(s, e), e)
  {
    BlocksUsable(s, e);
    hide ValidStudy, BlocksBefore;
  }

  /** The trials of the first n blocks; a block without history is skipped, as the source does. */
  function Trials(s: Study, e: Session, blocks: seq<nat>, n: nat): seq<Trial>
    requires ValidStudy(s) && 0 <= e && n <= |blocks| && Usable(s, blocks, e)
    decreases e, 4, n
  {
    if n == 0 then []
    else
      var h := blocks[n - 1];
      var start := s.starts[h];
      var past := RowsAt(s, start);
      Trials(s, e, blocks, n - 1) + if past == [] then [] else [Trial(h, past, BlockOf(s, h), GateAt(s, start))]
  }

  /** gates, where its history is not empty */
  function GateAt(s: Study, e: Session): int
    requires ValidStudy(s) && 0 <= e
    decreases e, 5
  {
    ValidationUsable(s, e);
    s.fitGate(e, RowsAt(s, e), Trials(s, e, ValidationBlocks(s, e), |ValidationBlocks(s, e)|))
  }

  // ---- where joined rows come from

  lemma {:induction false} DayTargetFrom(d: Day, start: nat, cutoff: Time, n: nat, t: Target) returns (i: nat)
    requires ValidDay(d) && n <= |d.outcomes| && t in Targets(d, start, cutoff, n)
    ensures i < n && Masked(d, cutoff)[i].Some? && t.id == start + i && t.available == d.available[i]
  {
    hide Masked;
    var before := Targets(d, start, cutoff, n - 1);
    if t in before {
      i := DayTargetFrom(d, start, cutoff, n - 1, t);
    } else {
      i := n - 1;
    }
  }

  /** A supervised row is a member of a matured day whose outcome the cutoff allows. */
  lemma {:induction false} TargetFrom(days: seq<Day>, cutoff: Time, n: nat, t: Target) returns (j: nat, i: nat)
    requires n <= |days| && (forall a :: 0 <= a < |days| ==> ValidDay(days[a])) && t in AllTargets(days, cutoff, n)
    ensures j < n && i < |days[j].outcomes| && Matured(days[j], cutoff) && Masked(days[j], cutoff)[i].Some?
    ensures t.id == StartOf(days, j) + i && t.available == days[j].available[i]
  {
    hide Masked, Matured, Targets;
    if t in AllTargets(days, cutoff, n - 1) {
      j, i := TargetFrom(days, cutoff, n - 1, t);
    } else {
      j := n - 1;
      i := DayTargetFrom(days[j], StartOf(days, j), cutoff, |days[j].outcomes|, t);
    }
  }

  lemma {:induction false} StartsGrow(days: seq<Day>, a: nat, b: nat)
    requires a <= b <= |days|
    ensures StartOf(days, a) <= StartOf(days, b)
    decreases b - a
  {
    if a < b { StartsGrow(days, a, b - 1); }
  }

  /** Rows of earlier days have smaller ids. */
  lemma {:induction false} EarlierDay(days: seq<Day>, a: nat, b: nat, n: nat)
    requires n <= |days| && a < StartOf(days, n) && b < StartOf(days, n) && DayOf(days, a, n) < DayOf(days, b, n)
    ensures a < b
  {
    StartsGrow(days, DayOf(days, a, n) + 1, DayOf(days, b, n));
  }

  lemma {:induction false} DayOfIs(days: seq<Day>, id: nat, n: nat, j: nat)
    requires n <= |days| && j < n && StartOf(days, j) <= id < StartOf(days, j + 1)
    ensures id < StartOf(days, n) && DayOf(days, id, n) == j
  {
    StartsGrow(days, j + 1, n);
    var k := DayOf(days, id, n);
    if k < j {
      StartsGrow(days, k + 1, j);
    } else if j < k {
      StartsGrow(days, j + 1, k);
    }
  }

  lemma {:induction false} KnownFrom(rows: seq<Oof>, memory: seq<Target>, k: nat) returns (m: nat)
    requires k < |Known(rows, memory)|
    ensures m < |rows| && Known(rows, memory)[k].oof == rows[m]
    ensures Known(rows, memory)[k].target in memory && Known(rows, memory)[k].target.id == rows[m].id
  {
    var n := |rows| - 1;
    if k < |Known(rows[..n], memory)| { m := KnownFrom(rows[..n], memory, k); } else { m := n; }
  }

  /** A joined row: the block and place it was predicted in. */
  lemma {:induction false} JoinedFrom(s: Study, e: Session, blocks: seq<nat>, n: nat, k: nat) returns (b: nat, m: nat)
    requires ValidStudy(s) && 0 <= e && n <= |blocks| && Usable(s, blocks, e) && k < |JoinedUpTo(s, e, blocks, n)|
    ensures b < n && m < |BlockOf(s, blocks[b])|
    ensures var r := JoinedUpTo(s, e, blocks, n)[k];
            r.oof == BlockOf(s, blocks[b])[m] && r.target in Memory(s, e) && r.target.id == r.oof.id
  {
    hide BlockOf, Memory, ValidStudy;
    var before := JoinedUpTo(s, e, blocks, n - 1);
    if k < |before| {
      b, m := JoinedFrom(s, e, blocks, n - 1, k);
    } else {
      b := n - 1;
      m := KnownFrom(BlockOf(s, blocks[b]), Memory(s, e), k - |before|);
    }
  }

  /** The time order one joined row must satisfy. */
  predicate TimesOrdered(r: Joined, e: Session)
  {
    r.oof.modelCutoff < r.oof.asOf < r.target.available < Midnight(e)
  }

  /** What a block's own place says of a row. */
  lemma {:induction false} BlockRow(s: Study, h: nat, m: nat)
    requires ValidStudy(s) && IsBlock(s, h) && m < |BlockOf(s, h)|
    ensures var r := BlockOf(s, h)[m];
            && m < |s.anchors(h)| && r.id == s.anchors(h)[m] && r.id < StartOf(s.days, |s.days|)
            && InBlock(s, h, DayOf(s.days, r.id, |s.days|))
            && r.asOf == ScoredAt(s.days[DayOf(s.days, r.id, |s.days|)].date) && r.modelCutoff == Midnight(s.starts[h])
  {
    assert AnchorsIn(s, h);
    hide SetupAt;
  }

  /** Available after the close of a later session, so after the scoring evening. */
  lemma {:induction false} KnownLater(d: Day, cutoff: Time, i: nat)
    requires DayInOrder(d) && Matured(d, cutoff) && i < |d.outcomes| && Masked(d, cutoff)[i].Some?
    ensures ScoredAt(d.date) < d.available[i] < cutoff
  {
  }

  lemma {:induction false} DaysValid(s: Study)
    requires ValidStudy(s)
    ensures forall a :: 0 <= a < |s.days| ==> ValidDay(s.days[a])
  {
    forall a | 0 <= a < |s.days| ensures ValidDay(s.days[a]) {
      assert DayInOrder(s.days[a]);
    }
  }

  /** Model cutoff, then score, then label, then fit: for every row of every history at every boundary. */
  lemma {:induction false} RowInTime(s: Study, e: Session, k: nat)
    requires ValidStudy(s) && 0 <= e && k < |RowsAt(s, e)|
    ensures TimesOrdered(RowsAt(s, e)[k], e)
  {
    var blocks := BlocksBefore(s, e);
    BlocksUsable(s, e);
    var b, m := JoinedFrom(s, e, blocks, |blocks|, k);
    var r := RowsAt(s, e)[k];
    BlockRow(s, blocks[b], m);
    DaysValid(s);
    var j, i := TargetFrom(s.days, Midnight(e), |s.days|, r.target);
    DayOfIs(s.days, r.oof.id, |s.days|, j);
    assert DayInOrder(s.days[j]);
    hide BlockOf, RowsAt, Memory, Masked, Matured, DayInOrder, ValidStudy, JoinedUpTo, AllTargets, BlocksBefore;
    KnownLater(s.days[j], Midnight(e), i);
  }

  // ---- no row twice

  ghost predicate IdsAscend(rows: seq<Joined>)
  {
    forall a, b :: 0 <= a < b < |rows| ==> rows[a].oof.id < rows[b].oof.id
  }

  lemma {:induction false} KnownAscend(rows: seq<Oof>, memory: seq<Target>)
    requires forall a, b :: 0 <= a < b < |rows| ==> rows[a].id < rows[b].id
    ensures IdsAscend(Known(rows, memory))
  {
    if rows != [] {
      var n := |rows| - 1;
      KnownAscend(rows[..n], memory);
      var before := Known(rows[..n], memory);
      forall a: nat | a < |before| ensures before[a].oof.id < rows[n].id {
        var m := KnownFrom(rows[..n], memory, a);
      }
    }
  }

  lemma {:induction false} BlockAscends(s: Study, h: nat)
    requires ValidStudy(s) && IsBlock(s, h)
    ensures forall a, b :: 0 <= a < b < |BlockOf(s, h)| ==> BlockOf(s, h)[a].id < BlockOf(s, h)[b].id
  {
    assert AnchorsIn(s, h);
    hide SetupAt;
  }

  lemma {:induction false} DateOrder(s: Study, a: nat, b: nat)
    requires ValidStudy(s) && a < |s.days| && b < |s.days| && s.days[a].date < s.days[b].date
    ensures a < b
  {
    assert a < b || a == b || b < a;
  }

  /** Rows of an earlier block have smaller ids. */
  lemma {:induction false} EarlierBlock(s: Study, g: nat, h: nat, a: nat, b: nat)
    requires ValidStudy(s) && IsBlock(s, g) && IsBlock(s, h) && g < h && a < |BlockOf(s, g)| && b < |BlockOf(s, h)|
    ensures BlockOf(s, g)[a].id < BlockOf(s, h)[b].id
  {
    BlockRow(s, g, a);
    BlockRow(s, h, b);
    hide BlockOf;
    var x, y := BlockOf(s, g)[a].id, BlockOf(s, h)[b].id;
    var n := |s.days|;
    assert s.starts[g + 1] <= s.starts[h];
    DateOrder(s, DayOf(s.days, x, n), DayOf(s.days, y, n));
    EarlierDay(s.days, x, y, n);
  }

  lemma {:induction false} JoinedAscend(s: Study, e: Session, blocks: seq<nat>, n: nat)
    requires ValidStudy(s) && 0 <= e && n <= |blocks| && Usable(s, blocks, e) && Ascending(blocks)
    ensures IdsAscend(JoinedUpTo(s, e, blocks, n))
  {
    hide BlockOf, Memory, ValidStudy, Known;
    if n > 0 {
      JoinedAscend(s, e, blocks, n - 1);
      var h := blocks[n - 1];
      BlockAscends(s, h);
      KnownAscend(BlockOf(s, h), Memory(s, e));
      var before, last := JoinedUpTo(s, e, blocks, n - 1), Known(BlockOf(s, h), Memory(s, e));
      forall a: nat, c: nat | a < |before| && c < |last| ensures before[a].oof.id < last[c].oof.id {
        var b, m := JoinedFrom(s, e, blocks, n - 1, a);
        var k := KnownFrom(BlockOf(s, h), Memory(s, e), c);
        EarlierBlock(s, blocks[b], h, m, k);
      }
    }
  }

  /** No row identity is ever repeated in a history. */
  lemma {:induction false} RowsUnique(s: Study, e: Session)
    requires ValidStudy(s) && 0 <= e
    ensures IdsAscend(RowsAt(s, e))
  {
    BlocksUsable(s, e);
    hide JoinedUpTo, ValidStudy, BlocksBefore;
    BlocksAscend(s, e);
    JoinedAscend(s, e, BlocksBefore(s, e), |BlocksBefore(s, e)|);
  }

  lemma {:induction false} BlocksAscend(s: Study, e: Session)
    ensures Ascending(BlocksBefore(s, e))
  {
  }

  lemma {:induction false} KnownHas(rows: seq<Oof>, memory: seq<Target>, m: nat)
    requires m < |rows| && FindTarget(memory, rows[m].id).Some?
    ensures Joined(rows[m], FindTarget(memory, rows[m].id).value) in Known(rows, memory)
  {
    var n := |rows| - 1;
    if m < n { KnownHas(rows[..n], memory, m); }
  }

  /** And none is lost: every prediction of a past block whose label is known joins the history. */
  lemma {:induction false} RowsComplete(s: Study, e: Session, blocks: seq<nat>, n: nat, b: nat, m: nat)
    requires ValidStudy(s) && 0 <= e && n <= |blocks| && Usable(s, blocks, e) && b < n
    requires m < |BlockOf(s, blocks[b])| && FindTarget(Memory(s, e), BlockOf(s, blocks[b])[m].id).Some?
    ensures var r := BlockOf(s, blocks[b])[m];
            Joined(r, FindTarget(Memory(s, e), r.id).value) in JoinedUpTo(s, e, blocks, n)
  {
    hide BlockOf, Memory, ValidStudy, Known, FindTarget;
    if b == n - 1 {
      KnownHas(BlockOf(s, blocks[b]), Memory(s, e), m);
    } else {
      RowsComplete(s, e, blocks, n - 1, b, m);
    }
  }

  // ---- what the recursion uses, block by block

  /** A whole half-year before a boundary whose last scoring day's horizon is over before it. */
  ghost predicate IsPast(s: Study, h: nat, e: Session)
  {
    && h + 1 < |s.starts| && s.starts[h + 1] <= e
    && exists j :: 0 <= j < |s.days| && s.starts[h] <= s.days[j].date < s.starts[h + 1]
                   && s.days[j].labelEnd.Some? && s.days[j].labelEnd.value < e
                   && forall i :: j < i < |s.days| ==> !(s.starts[h] <= s.days[i].date < s.starts[h + 1])
  }

  /** A past half-year that itself starts after two others that were past by then. */
  ghost predicate IsUsable(s: Study, h: nat, e: Session)
  {
    IsPast(s, h, e) && exists a: nat, b: nat :: a < b && IsPast(s, a, s.starts[h]) && IsPast(s, b, s.starts[h])
  }

  /** Exactly the usable blocks, in order. */
  ghost predicate AreUsable(blocks: seq<nat>, s: Study, e: Session)
  {
    Ascending(blocks) && forall h: nat :: h in blocks <==> IsUsable(s, h, e)
  }

  /** The last two usable blocks, or as many as there are. */
  ghost predicate LastTwo(blocks: seq<nat>, s: Study, e: Session)
  {
    && Ascending(blocks) && |blocks| <= 2 && (forall h: nat :: h in blocks ==> IsUsable(s, h, e))
    && forall h: nat :: IsUsable(s, h, e) && h !in blocks ==> |blocks| == 2 && h < blocks[0]
  }

  /** A prediction of a block: one of its anchors, scored at half past nine in the evening, by the block's own setup. */
  ghost predicate IsPrediction(o: Oof, s: Study, h: nat)
    requires ValidStudy(s) && h + 1 < |s.starts|
  {
    && o.id in s.anchors(h) && o.modelCutoff == MarketTime(s.starts[h], 0)
    && o.prediction == s.predict(h, SetupAt(s, s.starts[h]), o.id)
    && exists j :: 0 <= j < |s.days| && StartOf(s.days, j) <= o.id < StartOf(s.days, j + 1)
                   && o.asOf == MarketTime(s.days[j].date, 21) + 1800
  }

  ghost predicate IsBlockRows(rows: seq<Oof>, s: Study, h: nat)
    requires ValidStudy(s) && h + 1 < |s.starts|
  {
    |rows| == |s.anchors(h)| && forall i :: 0 <= i < |rows| ==>
      rows[i].id == s.anchors(h)[i] && IsPrediction(rows[i], s, h)
  }

  /** A row of a history: a prediction of a usable block with its own label, as supervised at the boundary. */
  ghost predicate IsJoined(r: Joined, s: Study, e: Session)
    requires ValidStudy(s)
  {
    && r.target in AllTargets(s.days, MarketTime(e, 0), |s.days|) && r.target.id == r.oof.id
    && exists h: nat :: IsUsable(s, h, e) && IsPrediction(r.oof, s, h)
  }

  /** The history before a boundary: ascending, and every labelled anchor of every usable block. */
  ghost predicate IsHistory(rows: seq<Joined>, s: Study, e: Session)
    requires ValidStudy(s)
  {
    && (forall a, b :: 0 <= a < b < |rows| ==> rows[a].oof.id < rows[b].oof.id)
    && (forall r :: r in rows ==> IsJoined(r, s, e))
    && forall h: nat, id: nat, t: Target ::
         IsUsable(s, h, e) && id in s.anchors(h) && t in AllTargets(s.days, MarketTime(e, 0), |s.days|)
           && t.id == id ==>
           exists r :: r in rows && r.oof.id == id
  }

  /** A trial of a validation block on its own past. */
  ghost predicate IsTrial(t: Trial, s: Study)
    requires ValidStudy(s)
  {
    && t.block + 1 < |s.starts| && t.past != [] && IsHistory(t.past, s, s.starts[t.block])
    && IsBlockRows(t.rows, s, t.block) && t.nested == GateAt(s, s.starts[t.block])
  }

  /** The trials of the last two usable blocks, less those without a past. */
  ghost predicate AreTrials(trials: seq<Trial>, s: Study, e: Session)
    requires ValidStudy(s)
  {
    exists blocks: seq<nat> ::
      && LastTwo(blocks, s, e) && (forall a, b :: 0 <= a < b < |trials| ==> trials[a].block < trials[b].block)
      && (forall t :: t in trials ==> t.block in blocks && IsTrial(t, s))
      && forall h: nat :: h in blocks ==> HasTrial(trials, s, h)
  }

  /** Without a trial a block has an empty history. */
  ghost predicate HasTrial(trials: seq<Trial>, s: Study, h: nat)
    requires ValidStudy(s)
  {
    (exists t :: t in trials && t.block == h) || (h < |s.starts| && IsHistory([], s, s.starts[h]))
  }

  lemma {:induction false} LastDayIs(s: Study, h: nat, n: nat)
    requires IsBlock(s, h) && n <= |s.days|
    ensures forall i :: (if LastDay(s, h, n).Some? then LastDay(s, h, n).value else -1) < i < n ==>
              !(s.starts[h] <= s.days[i].date < s.starts[h + 1])
  {
    if n > 0 && !InBlock(s, h, n - 1) { LastDayIs(s, h, n - 1); }
  }

  lemma {:induction false} PastIs(s: Study, h: nat, e: Session)
    requires IsBlock(s, h)
    ensures Past(s, h, e) <==> IsPast(s, h, e)
  {
    LastDayIs(s, h, |s.days|);
    var last := LastDay(s, h, |s.days|);
    if Past(s, h, e) { assert s.starts[h] <= s.days[last.value].date < s.starts[h + 1]; }
    if IsPast(s, h, e) {
      var j :| 0 <= j < |s.days| && s.starts[h] <= s.days[j].date < s.starts[h + 1]
               && s.days[j].labelEnd.Some? && s.days[j].labelEnd.value < e
               && forall i :: j < i < |s.days| ==> !(s.starts[h] <= s.days[i].date < s.starts[h + 1]);
      assert last.Some? && last.value == j;
    }
  }

  lemma {:induction false} PastBlocksAre(s: Study, e: Session, n: nat)
    requires n == 0 || n < |s.starts|
    ensures Ascending(PastBlocks(s, e, n)) && forall h: nat :: h in PastBlocks(s, e, n) <==> h < n && Past(s, h, e)
  {
    hide Past;
    if n > 0 { PastBlocksAre(s, e, n - 1); }
  }

  /** Two past blocks or more. */
  lemma {:induction false} InnerIs(s: Study, h: nat)
    requires IsBlock(s, h)
    ensures InnerEnough(s, h)
       <==> exists a: nat, b: nat :: a < b && IsPast(s, a, s.starts[h]) && IsPast(s, b, s.starts[h])
  {
    var past := PastBlocks(s, s.starts[h], BlockCount(s));
    PastBlocksAre(s, s.starts[h], BlockCount(s));
    forall g: nat | g < BlockCount(s) ensures Past(s, g, s.starts[h]) <==> IsPast(s, g, s.starts[h]) {
      PastIs(s, g, s.starts[h]);
    }
    if InnerEnough(s, h) {
      assert past[0] in past && past[1] in past;
    }
    if a: nat, b: nat :| a < b && IsPast(s, a, s.starts[h]) && IsPast(s, b, s.starts[h]) {
      assert a < BlockCount(s) && b < BlockCount(s);
      assert a in past && b in past;
    }
  }

  lemma {:induction false} BlocksUpToAre(s: Study, e: Session, n: nat)
    requires n == 0 || n < |s.starts|
    ensures forall h: nat :: h in BlocksUpTo(s, e, n) <==> h < n && Past(s, h, e) && InnerEnough(s, h)
  {
    hide Past, InnerEnough;
    if n > 0 { BlocksUpToAre(s, e, n - 1); }
  }

  /** The blocks before a boundary are exactly the usable ones. */
  lemma {:induction false} BlocksAreUsable(s: Study, e: Session)
    ensures AreUsable(BlocksBefore(s, e), s, e)
  {
    BlocksUpToAre(s, e, BlockCount(s));
    forall h: nat ensures h in BlocksBefore(s, e) <==> IsUsable(s, h, e) {
      if IsBlock(s, h) {
        PastIs(s, h, e);
        InnerIs(s, h);
      }
      hide Past, InnerEnough, BlocksUpTo;
    }
  }

  lemma {:induction false} ValidationIsLastTwo(s: Study, e: Session)
    ensures LastTwo(ValidationBlocks(s, e), s, e)
  {
    BlocksAreUsable(s, e);
    hide IsUsable, BlocksBefore;
    var b := BlocksBefore(s, e);
    var last := ValidationBlocks(s, e);
    assert |b| > 2 ==> forall m :: |b| - 2 <= m < |b| ==> b[m] == last[m - (|b| - 2)];
    forall h: nat | IsUsable(s, h, e) && h !in last ensures |last| == 2 && h < last[0] {
      var i :| 0 <= i < |b| && b[i] == h;
      assert |b| > 2;
      assert i < |b| - 2;
    }
    forall h: nat | h in last ensures IsUsable(s, h, e) {
      assert h in b;
    }
  }

  lemma {:induction false} BlockRowsAre(s: Study, h: nat)
    requires ValidStudy(s) && IsBlock(s, h)
    ensures IsBlockRows(BlockOf(s, h), s, h)
  {
    var rows, n := BlockOf(s, h), |s.days|;
    AnchorsKnown(s, h);
    BlockIs(s, h);
    hide BlockOf, SetupAt, ValidStudy;
    forall i | 0 <= i < |rows| ensures rows[i].id == s.anchors(h)[i] && IsPrediction(rows[i], s, h) {
      var j := DayOf(s.days, rows[i].id, n);
      assert 0 <= j < n && StartOf(s.days, j) <= rows[i].id < StartOf(s.days, j + 1)
             && rows[i].asOf == MarketTime(s.days[j].date, 21) + 1800;
    }
  }

  /** Every row of the history is a labelled prediction of a usable block. */
  lemma {:induction false} HistoryRow(s: Study, e: Session, k: nat)
    requires ValidStudy(s) && 0 <= e && k < |RowsAt(s, e)|
    ensures IsJoined(RowsAt(s, e)[k], s, e)
  {
    var blocks := BlocksBefore(s, e);
    BlocksUsable(s, e);
    BlocksAreUsable(s, e);
    var b, m := JoinedFrom(s, e, blocks, |blocks|, k);
    BlockRowsAre(s, blocks[b]);
    assert blocks[b] in blocks;
    hide BlockOf, RowsAt, ValidStudy, JoinedUpTo, AllTargets, BlocksBefore, IsUsable, IsPrediction, SetupAt;
    assert IsUsable(s, blocks[b], e);
    assert IsPrediction(BlockOf(s, blocks[b])[m], s, blocks[b]);
  }

  /** And every labelled anchor of every usable block is in it. */
  lemma {:induction false} HistoryHas(s: Study, e: Session, h: nat, id: nat, t: Target)
    requires ValidStudy(s) && 0 <= e && IsUsable(s, h, e) && id in s.anchors(h) && t in Memory(s, e) && t.id == id
    ensures exists r :: r in RowsAt(s, e) && r.oof.id == id
  {
    var blocks := BlocksBefore(s, e);
    BlocksUsable(s, e);
    BlocksAreUsable(s, e);
    var b: nat :| b < |blocks| && blocks[b] == h;
    BlockRowsAre(s, h);
    var m: nat :| m < |s.anchors(h)| && s.anchors(h)[m] == id;
    hide BlockOf, ValidStudy, JoinedUpTo, AllTargets, BlocksBefore, IsUsable, IsPrediction, SetupAt, Memory;
    RowsComplete(s, e, blocks, |blocks|, b, m);
    var r := BlockOf(s, h)[m];
    assert Joined(r, FindTarget(Memory(s, e), r.id).value) in RowsAt(s, e);
  }

  /** So the history is what its predicate says. */
  lemma {:induction false} HistoryIs(s: Study, e: Session)
    requires ValidStudy(s) && 0 <= e
    ensures IsHistory(RowsAt(s, e), s, e)
  {
    RowsUnique(s, e);
    var rows := RowsAt(s, e);
    assert AllTargets(s.days, MarketTime(e, 0), |s.days|) == Memory(s, e);
    hide RowsAt, ValidStudy, IsUsable, Memory, IsJoined, AllTargets;
    forall r | r in rows ensures IsJoined(r, s, e) {
      var k: nat :| k < |rows| && rows[k] == r;
      HistoryRow(s, e, k);
    }
    forall h: nat, id: nat, t: Target | IsUsable(s, h, e) && id in s.anchors(h) && t in Memory(s, e) && t.id == id
      ensures exists r :: r in rows && r.oof.id == id {
      HistoryHas(s, e, h, id, t);
    }
  }

  /** Ascending trials of the first n blocks, one for every block with a past. */
  ghost predicate TrialsOf(r: seq<Trial>, s: Study, blocks: seq<nat>, n: nat)
    requires ValidStudy(s) && n <= |blocks|
  {
    && (forall a, b :: 0 <= a < b < |r| ==> r[a].block < r[b].block)
    && (forall a :: 0 <= a < |r| ==> r[a].block in blocks[..n] && IsTrial(r[a], s))
    && forall i :: 0 <= i < n ==> HasTrial(r, s, blocks[i])
  }

  lemma {:induction false} StillHas(before: seq<Trial>, last: Trial, s: Study, h: nat)
    requires ValidStudy(s) && HasTrial(before, s, h)
    ensures HasTrial(before + [last], s, h)
  {
    hide IsHistory, ValidStudy;
    if t :| t in before && t.block == h { assert t in before + [last]; }
  }

  lemma {:induction false} TrialAdded(before: seq<Trial>, last: Trial, s: Study, blocks: seq<nat>, n: nat)
    requires ValidStudy(s) && n < |blocks| && Ascending(blocks) && TrialsOf(before, s, blocks, n)
    requires last.block == blocks[n] && IsTrial(last, s)
    ensures TrialsOf(before + [last], s, blocks, n + 1)
  {
    hide IsTrial, HasTrial, ValidStudy;
    var r := before + [last];
    forall a | 0 <= a < |before| ensures before[a].block in blocks[..n + 1] && before[a].block < blocks[n] {
      var i :| 0 <= i < n && blocks[..n][i] == before[a].block;
      assert blocks[..n + 1][i] == before[a].block;
    }
    assert blocks[..n + 1][n] == last.block;
    forall i | 0 <= i < n + 1 ensures HasTrial(r, s, blocks[i]) {
      if i < n { StillHas(before, last, s, blocks[i]); } else { HasLast(before, last, s); }
    }
  }

  lemma {:induction false} HasLast(before: seq<Trial>, last: Trial, s: Study)
    requires ValidStudy(s)
    ensures HasTrial(before + [last], s, last.block)
  {
    hide IsHistory, ValidStudy;
    assert (before + [last])[|before|] == last;
  }

  lemma {:induction false} TrialSkipped(r: seq<Trial>, s: Study, blocks: seq<nat>, n: nat)
    requires ValidStudy(s) && n < |blocks| && TrialsOf(r, s, blocks, n)
    requires blocks[n] < |s.starts| && IsHistory([], s, s.starts[blocks[n]])
    ensures TrialsOf(r, s, blocks, n + 1)
  {
    hide IsTrial, IsHistory, ValidStudy;
    forall a | 0 <= a < |r| ensures r[a].block in blocks[..n + 1] {
      var i :| 0 <= i < n && blocks[..n][i] == r[a].block;
      assert blocks[..n + 1][i] == r[a].block;
    }
  }

  /** A block with a past has its trial. */
  lemma {:induction false} TrialIs(s: Study, h: nat)
    requires ValidStudy(s) && IsBlock(s, h) && 0 <= s.starts[h] && RowsAt(s, s.starts[h]) != []
    ensures IsTrial(Trial(h, RowsAt(s, s.starts[h]), BlockOf(s, h), GateAt(s, s.starts[h])), s)
  {
    HistoryIs(s, s.starts[h]);
    BlockRowsAre(s, h);
    hide BlockOf, ValidStudy, IsHistory, IsBlockRows, RowsAt, GateAt;
  }

  lemma {:induction false} TrialsUpTo(s: Study, e: Session, blocks: seq<nat>, n: nat)
    requires ValidStudy(s) && 0 <= e && n <= |blocks| && Usable(s, blocks, e) && Ascending(blocks)
    ensures TrialsOf(Trials(s, e, blocks, n), s, blocks, n)
  {
    hide BlockOf, ValidStudy, IsHistory, IsTrial, HasTrial, RowsAt, GateAt;
    if n > 0 {
      TrialsUpTo(s, e, blocks, n - 1);
      hide TrialsOf;
      var before, h := Trials(s, e, blocks, n - 1), blocks[n - 1];
      if RowsAt(s, s.starts[h]) != [] {
        TrialIs(s, h);
        TrialAdded(before, Trial(h, RowsAt(s, s.starts[h]), BlockOf(s, h), GateAt(s, s.starts[h])), s, blocks, n - 1);
      } else {
        HistoryIs(s, s.starts[h]);
        TrialSkipped(before, s, blocks, n - 1);
        assert before + [] == before;
      }
    }
  }

  lemma {:induction false} TrialsAre(s: Study, e: Session)
    requires ValidStudy(s) && 0 <= e
    ensures Usable(s, ValidationBlocks(s, e), e)
    ensures AreTrials(Trials(s, e, ValidationBlocks(s, e), |ValidationBlocks(s, e)|), s, e)
  {
    ValidationUsable(s, e);
    ValidationIsLastTwo(s, e);
    hide *;
    var blocks := ValidationBlocks(s, e);
    LastTwoAscends(blocks, s, e);
    TrialsUpTo(s, e, blocks, |blocks|);
    TrialsFrom(Trials(s, e, blocks, |blocks|), s, e, blocks);
  }

  lemma {:induction false} LastTwoAscends(blocks: seq<nat>, s: Study, e: Session)
    requires LastTwo(blocks, s, e)
    ensures Ascending(blocks)
  {
    hide IsUsable;
  }

  lemma {:induction false} TrialsFrom(r: seq<Trial>, s: Study, e: Session, blocks: seq<nat>)
    requires ValidStudy(s) && LastTwo(blocks, s, e) && TrialsOf(r, s, blocks, |blocks|)
    ensures AreTrials(r, s, e)
  {
    hide ValidStudy, IsTrial, HasTrial, LastTwo;
    assert blocks[..|blocks|] == blocks;
    forall t | t in r ensures t.block in blocks && IsTrial(t, s) {
      var a :| 0 <= a < |r| && r[a] == t;
    }
  }

  /** A setup is the fit of a history, and a gate the fit of a history and its trials. */
  lemma {:induction false} SetupIs(s: Study, e: Session)
    requires ValidStudy(s) && 0 <= e
    ensures IsSetup(SetupAt(s, e), s, e)
  {
    HistoryIs(s, e);
    hide RowsAt, ValidStudy, IsHistory;
  }

  ghost predicate IsSetup(setup: int, s: Study, e: Session)
    requires ValidStudy(s)
  {
    exists rows: seq<Joined> :: IsHistory(rows, s, e) && setup == s.fitRisk(e, rows)
  }

  ghost predicate IsGate(gate: int, s: Study, e: Session)
    requires ValidStudy(s)
  {
    exists rows: seq<Joined>, trials: seq<Trial> ::
      rows != [] && IsHistory(rows, s, e) && AreTrials(trials, s, e) && gate == s.fitGate(e, rows, trials)
  }

  lemma {:induction false} GateIsFit(s: Study, e: Session)
    requires ValidStudy(s) && 0 <= e && RowsAt(s, e) != []
    ensures IsGate(GateAt(s, e), s, e)
  {
    HistoryIs(s, e);
    TrialsAre(s, e);
    GateIs(s, e);
    hide RowsAt, ValidStudy, IsHistory, AreTrials, GateAt, Trials;
  }

  /** The two ends of a gate's fit: an empty history, or a gate of its history and trials. */
  lemma {:induction false} GateEnds(s: Study, e: Session)
    requires ValidStudy(s) && 0 <= e
    ensures if RowsAt(s, e) == [] then IsHistory([], s, e) else IsGate(GateAt(s, e), s, e)
  {
    hide *;
    if RowsAt(s, e) == [] { HistoryIs(s, e); } else { GateIsFit(s, e); }
  }

  // ---- the object: the same recursion through saved artifacts

  /** What is saved of the blocks and the setups is what computing it again would give. */
  ghost predicate BlocksSaved(oof: map<nat, seq<Oof>>, s: Study)
    requires ValidStudy(s)
  {
    forall h :: h in oof ==> IsBlock(s, h) && oof[h] == BlockOf(s, h)
  }

  ghost predicate SetupsSaved(risk: map<Session, int>, s: Study)
    requires ValidStudy(s)
  {
    forall e :: e in risk ==> 0 <= e && risk[e] == SetupAt(s, e)
  }

  /** A saved gate has a history, and is what fitting it again would give. */
  ghost predicate GatesSaved(gate: map<Session, int>, s: Study)
    requires ValidStudy(s)
  {
    forall e :: e in gate ==> 0 <= e && RowsAt(s, e) != [] && gate[e] == GateAt(s, e)
  }

  lemma {:induction false} GateSaved(gate: map<Session, int>, s: Study, e: Session)
    requires ValidStudy(s) && GatesSaved(gate, s) && e in gate
    ensures 0 <= e && RowsAt(s, e) != [] && gate[e] == GateAt(s, e)
  {
    hide RowsAt, GateAt, ValidStudy;
  }

  lemma {:induction false} GateAdded(gate: map<Session, int>, s: Study, e: Session, fitted: int)
    requires ValidStudy(s) && GatesSaved(gate, s) && 0 <= e && RowsAt(s, e) != [] && fitted == GateAt(s, e)
    ensures GatesSaved(gate[e := fitted], s)
  {
    hide RowsAt, GateAt, ValidStudy;
  }

  class MetaRun {
    const study: Study
    /** What has been saved: predictions by block, risk setups and gates by boundary. */
    var oof: map<nat, seq<Oof>>
    var risk: map<Session, int>
    var gate: map<Session, int>

    /** Whatever is saved is what computing it again would give. */
    ghost predicate Valid()
      reads this
    {
      && ValidStudy(study)
      && BlocksSaved(oof, study)
      && SetupsSaved(risk, study)
      && GatesSaved(gate, study)
    }

    constructor (s: Study)
      requires ValidStudy(s)
      ensures Valid() && study == s && oof == map[] && risk == map[] && gate == map[]
    {
      study := s;
      oof, risk, gate := map[], map[], map[];
    }

    method Block(h: nat) returns (rows: seq<Oof>)
      requires Valid() && IsBlock(study, h)
      modifies this
      ensures Valid() && rows == BlockOf(study, h) && IsBlockRows(rows, study, h)
      decreases study.starts[h], 3
    {
      BlockRowsAre(study, h);
      if h in oof { return oof[h]; }
      hide SetupsSaved, GatesSaved, SetupAt, BlockOf, ValidStudy, IsBlockRows;
      StartNatural(study, h);
      var setup := RiskSetup(study.starts[h]);
      AnchorsKnown(study, h);
      rows := Predictions(study, h, setup, study.anchors(h));
      BlockIs(study, h);
      oof := oof[h := rows];
    }

    method RowsBefore(e: Session) returns (rows: seq<Joined>)
      requires Valid() && 0 <= e
      modifies this
      ensures Valid() && rows == RowsAt(study, e) && IsHistory(rows, study, e)
      decreases e, 1
    {
      HistoryIs(study, e);
      hide BlocksSaved, SetupsSaved, GatesSaved, IsHistory, IsBlockRows, BlockOf, ValidStudy, Memory, Known, SetupAt;
      var memory, blocks := Memory(study, e), BlocksBefore(study, e);
      BlocksUsable(study, e);
      rows := [];
      for n := 0 to |blocks|
        invariant Valid() && rows == JoinedUpTo(study, e, blocks, n)
      {
        var predictions := Block(blocks[n]);
        rows := rows + Known(predictions, memory);
      }
    }

    method RiskSetup(e: Session) returns (setup: int)
      requires Valid() && 0 <= e
      modifies this
      ensures Valid() && setup == SetupAt(study, e)
      ensures IsSetup(setup, study, e)
      decreases e, 2
    {
      SetupIs(study, e);
      hide BlocksSaved, GatesSaved, IsSetup, IsHistory, RowsAt, ValidStudy, BlockOf;
      var rows := RowsBefore(e);
      if e in risk { return risk[e]; }
      setup := study.fitRisk(e, rows);
      risk := risk[e := setup];
    }

    /** Fails only on an empty history of its own; the gates it nests never do. */
    method Gates(e: Session) returns (r: Result<int>)
      requires Valid() && 0 <= e
      modifies this
      ensures Valid()
      ensures r == if RowsAt(study, e) == [] then Err("STATE_GATE_HISTORY_EMPTY") else Ok(GateAt(study, e))
      ensures if r.Ok? then IsGate(r.value, study, e) else IsHistory([], study, e)
      decreases e, 5
    {
      GateEnds(study, e);
      hide BlocksSaved, SetupsSaved, GatesSaved, IsSetup, IsHistory, IsGate, AreTrials, RowsAt, ValidStudy, BlockOf,
           SetupAt, Trials, GateAt, ValidationBlocks, Usable;
      GateIs(study, e);
      var setup := RiskSetup(e);
      var rows := RowsBefore(e);
      if e in gate {
        GateSaved(gate, study, e);
        return Ok(gate[e]);
      }
      if rows == [] { return Err("STATE_GATE_HISTORY_EMPTY"); }
      var trials := RunTrials(e);
      var fitted := study.fitGate(e, rows, trials);
      GateAdded(gate, study, e, fitted);
      gate := gate[e := fitted];
      r := Ok(fitted);
    }

    method RunTrials(e: Session) returns (trials: seq<Trial>)
      requires Valid() && 0 <= e
      modifies this
      ensures Valid() && Usable(study, ValidationBlocks(study, e), e)
      ensures trials == Trials(study, e, ValidationBlocks(study, e), |ValidationBlocks(study, e)|)
      ensures AreTrials(trials, study, e)
      decreases e, 4
    {
      TrialsAre(study, e);
      hide BlocksSaved, SetupsSaved, GatesSaved, AreTrials, IsGate, IsHistory, IsBlockRows, RowsAt, ValidStudy, BlockOf,
           SetupAt, GateAt, ValidationBlocks, Trials, Usable;
      var blocks := ValidationBlocks(study, e);
      TrialsStart(study, e, blocks);
      trials := [];
      for n := 0 to |blocks|
        invariant Valid() && trials == Trials(study, e, blocks, n)
      {
        var h := blocks[n];
        TrialsStep(study, e, blocks, n);
        var past := RowsBefore(study.starts[h]);
        if past != [] {
          var predictions := Block(h);
          var nested := Gates(study.starts[h]);
          trials := trials + [Trial(h, past, predictions, nested.value)];
        }
      }
    }
  }

  lemma {:induction false} TrialsStart(s: Study, e: Session, blocks: seq<nat>)
    requires ValidStudy(s) && 0 <= e && Usable(s, blocks, e)
    ensures Trials(s, e, blocks, 0) == []
  {
  }

  lemma {:induction false} TrialsStep(s: Study, e: Session, blocks: seq<nat>, n: nat)
    requires ValidStudy(s) && 0 <= e && n < |blocks| && Usable(s, blocks, e)
    ensures IsBlock(s, blocks[n]) && 0 <= s.starts[blocks[n]] < e
    ensures var h := blocks[n];
            var past := RowsAt(s, s.starts[h]);
            Trials(s, e, blocks, n + 1) == Trials(s, e, blocks, n)
              + if past == [] then [] else [Trial(h, past, BlockOf(s, h), GateAt(s, s.starts[h]))]
  {
    hide ValidStudy, BlockOf, RowsAt, GateAt;
  }

  lemma {:induction false} StartNatural(s: Study, h: nat)
    requires ValidStudy(s) && IsBlock(s, h)
    ensures 0 <= s.starts[h]
  {
  }

  lemma {:induction false} AnchorsKnown(s: Study, h: nat)
    requires ValidStudy(s) && IsBlock(s, h)
    ensures forall i :: 0 <= i < |s.anchors(h)| ==> s.anchors(h)[i] < StartOf(s.days, |s.days|)
  {
    assert AnchorsIn(s, h);
  }

  lemma {:induction false} BlockIs(s: Study, h: nat)
    requires ValidStudy(s) && IsBlock(s, h)
    ensures 0 <= s.starts[h] && forall i :: 0 <= i < |s.anchors(h)| ==> s.anchors(h)[i] < StartOf(s.days, |s.days|)
    ensures BlockOf(s, h) == Predictions(s, h, SetupAt(s, s.starts[h]), s.anchors(h))
  {
    AnchorsKnown(s, h);
    hide SetupAt;
  }

  lemma {:induction false} GateIs(s: Study, e: Session)
    requires ValidStudy(s) && 0 <= e
    ensures Usable(s, ValidationBlocks(s, e), e)
    ensures GateAt(s, e) == s.fitGate(e, RowsAt(s, e), Trials(s, e, ValidationBlocks(s, e), |ValidationBlocks(s, e)|))
  {
    ValidationUsable(s, e);
    hide RowsAt, Trials, ValidStudy, ValidationBlocks;
  }
}
