/** Purged walk-forward folds over label views cut at each split's own boundary. */
module WalkForward {
  import opened Prelude
  import opened Clock
  import opened Multisets
  import opened Labels
  import opened Vectors
  import opened FoldMeaning

  predicate ValidWindow(w: FoldWindow)
  {
    w.trainStart < w.validationStart <= w.validationEnd < w.testStart <= w.testEnd
  }

  datatype Kind = Train | Validation | Test

  datatype Disposition = Outside | Unavailable | Purged | Available

  datatype Partition = Partition(kind: Option<Kind>, disposition: Disposition)

  function SplitKind(day: Session, w: FoldWindow): Option<Kind>
  {
    if w.trainStart <= day < w.validationStart then Some(Train)
    else if w.validationStart <= day <= w.validationEnd then Some(Validation)
    else if w.testStart <= day <= w.testEnd then Some(Test)
    else None
  }

  function Boundary(kind: Kind, w: FoldWindow): Session { if kind == Train then w.validationStart else w.testStart }

  function PartitionLabel(y: LabelRow, w: FoldWindow): Result<Partition>
  {
    match SplitKind(SessionOf(y.key.asOf), w)
    case None => Ok(Partition(None, Outside))
    case Some(kind) =>
      if y.end.None? then Ok(Partition(Some(kind), Unavailable))
      else if SessionOf(y.cutoff) <= y.end.value then Ok(Partition(Some(kind), Purged))
      else if kind != Test && Boundary(kind, w) <= y.end.value then Ok(Partition(Some(kind), Purged))
      else if kind != Test && MarketTime(Boundary(kind, w), 0) < y.cutoff then Err("REIDENTIFY_RANKS_BEFORE_SPLIT")
      else if y.interval.None? then Ok(Partition(Some(kind), Unavailable))
      else Ok(Partition(Some(kind), Available))
  }

  /** The whole-day form, decided by the group's first label; its checks come in another order. */
  function DayPartition(labels: seq<LabelRow>, w: FoldWindow): Result<Partition>
    requires labels != []
  {
    var first := labels[0];
    match SplitKind(SessionOf(first.key.asOf), w)
    case None => Ok(Partition(None, Outside))
    case Some(kind) =>
      if first.end.None? then Ok(Partition(Some(kind), Unavailable))
      else if kind != Test && Boundary(kind, w) <= first.end.value then Ok(Partition(Some(kind), Purged))
      else if kind != Test && MarketTime(Boundary(kind, w), 0) < first.cutoff then Err("REIDENTIFY_RANKS_BEFORE_SPLIT")
      else if SessionOf(first.cutoff) <= first.end.value then Ok(Partition(Some(kind), Purged))
      else Ok(Partition(Some(kind), Available))
  }

  /** A mature date stays available whatever its single outcomes are. */
  function Coarse(p: Result<Partition>, matured: bool): Result<Partition>
  {
    match p
    case Ok(Partition(kind, Unavailable)) => if matured then Ok(Partition(kind, Available)) else p
    case _ => p
  }

  /** Both forms agree on every label of a valid day, errors included, up to the outcome's own availability. */
  lemma {:induction false} DayAgrees(g: seq<LabelRow>, w: FoldWindow, i: nat)
    requires ValidWindow(w) && GroupValid(g) && i < |g| && g[i].key.asOf == g[0].key.asOf
    ensures DayPartition(g, w) == Coarse(PartitionLabel(g[i], w), g[i].end.Some?)
  {
    hide Supervised, LatestOutcome, Returns;
    assert SameInformation(g[i], g[0]);
  }

  // ---- the training batch

  predicate Trains(y: LabelRow, fitDate: Session, trainStart: Option<Session>)
  {
    && (trainStart.Some? ==> trainStart.value <= SessionOf(y.key.asOf))
    && y.key.asOf < MarketTime(fitDate, 0) && y.end.Some? && y.end.value < fitDate && y.interval.Some?
  }

  /** At the fold's own cutoff the batch's filter and the label's partition pick the same rows. */
  lemma {:induction false} FilterAgrees(y: LabelRow, w: FoldWindow)
    requires ValidWindow(w) && y.cutoff == MarketTime(w.validationStart, 0)
    ensures Trains(y, w.validationStart, Some(w.trainStart))
       <==> PartitionLabel(y, w) == Ok(Partition(Some(Train), Available))
  {
  }

  // ---- picking entries by flag

  /** The entries whose flag is set. */
  function Pick<T>(s: seq<T>, flags: seq<bool>): seq<T>
    requires |s| == |flags|
  {
    if s == [] then []
    else
      var n := |s| - 1;
      Pick(s[..n], flags[..n]) + if flags[n] then [s[n]] else []
  }

  lemma {:induction false} PickFrom<T>(s: seq<T>, flags: seq<bool>, k: nat)
    requires |s| == |flags| && k < |Pick(s, flags)|
    ensures exists i :: 0 <= i < |s| && flags[i] && Pick(s, flags)[k] == s[i]
  {
    var n := |s| - 1;
    if k < |Pick(s[..n], flags[..n])| {
      PickFrom(s[..n], flags[..n], k);
      var i :| 0 <= i < n && flags[..n][i] && Pick(s[..n], flags[..n])[k] == s[..n][i];
      assert flags[i] && s[i] == s[..n][i];
    }
  }

  lemma {:induction false} PickHas<T>(s: seq<T>, flags: seq<bool>, i: nat)
    requires |s| == |flags| && i < |s| && flags[i]
    ensures s[i] in Pick(s, flags)
  {
    var n := |s| - 1;
    if i < n { PickHas(s[..n], flags[..n], i); }
  }

  /** Among distinct entries, exactly the flagged ones are picked. */
  lemma {:induction false} PickExactly<T>(s: seq<T>, flags: seq<bool>, i: nat)
    requires |s| == |flags| && i < |s| && NoRepeats(s)
    ensures s[i] in Pick(s, flags) <==> flags[i]
  {
    if flags[i] {
      PickHas(s, flags, i);
    } else {
      forall k: nat | k < |Pick(s, flags)| ensures Pick(s, flags)[k] != s[i] {
        PickFrom(s, flags, k);
      }
    }
  }

  lemma {:induction false} PickNoRepeat<T>(s: seq<T>, flags: seq<bool>)
    requires |s| == |flags| && NoRepeats(s)
    ensures NoRepeats(Pick(s, flags))
  {
    if s != [] {
      var n := |s| - 1;
      PickNoRepeat(s[..n], flags[..n]);
      var before := Pick(s[..n], flags[..n]);
      forall k: nat | k < |before| ensures before[k] != s[n] {
        PickFrom(s[..n], flags[..n], k);
      }
    }
  }

  // ---- the batch

  function CountAt(rows: seq<LabelRow>, asOf: Time): nat
  {
    if rows == [] then 0 else CountAt(rows[..|rows| - 1], asOf) + if rows[|rows| - 1].key.asOf == asOf then 1 else 0
  }

  lemma {:induction false} CountPositive(rows: seq<LabelRow>, i: nat)
    requires i < |rows|
    ensures 1 <= CountAt(rows, rows[i].key.asOf)
  {
    var n := |rows| - 1;
    if i < n { CountPositive(rows[..n], i); }
  }

  /** Every row weighs one over the number of rows at its scoring time. */
  function Weights(rows: seq<LabelRow>): (w: seq<real>)
    ensures |w| == |rows|
    ensures forall i :: 0 <= i < |rows| ==> w[i] == 1.0 / WeightBase(rows, i)
  {
    seq(|rows|, i requires 0 <= i < |rows| => 1.0 / WeightBase(rows, i))
  }

  function WeightBase(rows: seq<LabelRow>, i: nat): (c: real)
    requires i < |rows|
    ensures c >= 1.0
  {
    CountPositive(rows, i);
    CountAt(rows, rows[i].key.asOf) as real
  }

  /** The weights of one scoring time, up to row n. */
  function WeightAt(rows: seq<LabelRow>, weights: seq<real>, asOf: Time, n: nat): real
    requires n <= |rows| == |weights|
  {
    if n == 0 then 0.0
    else WeightAt(rows, weights, asOf, n - 1) + if rows[n - 1].key.asOf == asOf then weights[n - 1] else 0.0
  }

  lemma {:induction false} WeightPrefix(rows: seq<LabelRow>, asOf: Time, n: nat)
    requires n <= |rows| && 1 <= CountAt(rows, asOf)
    ensures WeightAt(rows, Weights(rows), asOf, n)
         == Times(CountAt(rows[..n], asOf) as real, 1.0 / CountAt(rows, asOf) as real)
  {
    hide Times;
    var unit := 1.0 / CountAt(rows, asOf) as real;
    if n > 0 {
      WeightPrefix(rows, asOf, n - 1);
      assert rows[..n][..n - 1] == rows[..n - 1];
      OneMore(CountAt(rows[..n - 1], asOf) as real, unit);
    } else {
      OneMore(0.0, unit);
    }
  }

  lemma {:induction false} OneMore(k: real, x: real)
    ensures Times(k + 1.0, x) == Times(k, x) + x && Times(0.0, x) == 0.0
  {
  }

  /** Every scoring time in the batch carries weight one in total. */
  lemma {:induction false} WeightsSumToOne(rows: seq<LabelRow>, i: nat)
    requires i < |rows|
    ensures WeightAt(rows, Weights(rows), rows[i].key.asOf, |rows|) == 1.0
  {
    CountPositive(rows, i);
    WeightPrefix(rows, rows[i].key.asOf, |rows|);
    assert rows[..|rows|] == rows;
    Reciprocal(CountAt(rows, rows[i].key.asOf) as real);
  }

  lemma {:induction false} Reciprocal(x: real)
    requires x != 0.0
    ensures Times(x, 1.0 / x) == 1.0
  {
  }

  function TrainFlags(labels: seq<LabelRow>, fitDate: Session, trainStart: Option<Session>): (f: seq<bool>)
    ensures |f| == |labels| && forall i :: 0 <= i < |labels| ==> f[i] == Trains(labels[i], fitDate, trainStart)
  {
    seq(|labels|, i requires 0 <= i < |labels| => Trains(labels[i], fitDate, trainStart))
  }

  /** What a training batch must satisfy. */
  predicate ValidBatch(b: TrainingBatch)
  {
    && b.rows != [] && |b.rows| == |b.weights| && NoRepeats(KeysOf(b.rows))
    && forall i :: 0 <= i < |b.rows| ==>
         && SoundRow(b.rows[i], b.validationStart) && 0.0 < b.weights[i]
         && b.weights[i] == 1.0 / WeightBase(b.rows, i)
  }

  /** Known, scored and ranked strictly before the fit date, with its target inside the unit interval. */
  predicate SoundRow(y: LabelRow, fitDate: Session)
  {
    var cutoff := MarketTime(fitDate, 0);
    && y.interval.Some? && 0.0 <= y.interval.value.lo <= y.interval.value.hi <= 1.0
    && y.key.asOf < cutoff && y.availableAt.Some? && y.availableAt.value < cutoff && y.cutoff == cutoff
    && y.end.Some? && y.end.value < fitDate
  }

  lemma {:induction false} PositiveReciprocal(x: real)
    requires x >= 1.0
    ensures 0.0 < 1.0 / x
  {
  }

  lemma {:induction false} KeysPick(labels: seq<LabelRow>, flags: seq<bool>)
    requires |labels| == |flags|
    ensures KeysOf(Pick(labels, flags)) == Pick(KeysOf(labels), flags)
  {
    if labels != [] {
      var n := |labels| - 1;
      KeysPick(labels[..n], flags[..n]);
      assert KeysOf(labels)[..n] == KeysOf(labels[..n]);
    }
  }

  lemma {:induction false} BatchValid(labels: seq<LabelRow>, fitDate: Session, trainStart: Option<Session>)
    requires NoRepeats(KeysOf(labels)) && forall i :: 0 <= i < |labels| ==> ValidRow(labels[i])
    requires forall i :: 0 <= i < |labels| ==> labels[i].cutoff == MarketTime(fitDate, 0)
    requires Pick(labels, TrainFlags(labels, fitDate, trainStart)) != []
    ensures var rows := Pick(labels, TrainFlags(labels, fitDate, trainStart));
            ValidBatch(TrainingBatch(rows, Weights(rows), fitDate))
  {
    var flags := TrainFlags(labels, fitDate, trainStart);
    var rows := Pick(labels, flags);
    KeysPick(labels, flags);
    PickNoRepeat(KeysOf(labels), flags);
    forall k: nat | k < |rows| ensures SoundRow(rows[k], fitDate) && 0.0 < Weights(rows)[k] {
      PickFrom(labels, flags, k);
      PositiveReciprocal(WeightBase(rows, k));
    }
  }

  /** The training batch: only an empty selection or a foreign cutoff stops it; its own checks never fire. */
  method TrainBatch(labels: seq<LabelRow>, fitDate: Session, trainStart: Option<Session>)
    returns (r: Result<TrainingBatch>)
    requires NoRepeats(KeysOf(labels)) && forall i :: 0 <= i < |labels| ==> ValidRow(labels[i])
    ensures r.Ok? <==> (forall i :: 0 <= i < |labels| ==> labels[i].cutoff == MarketTime(fitDate, 0))
                       && Pick(labels, TrainFlags(labels, fitDate, trainStart)) != []
    ensures r.Err? ==> r.reason in {"TRAINING_RANK_CUTOFF_MISMATCH", "EMPTY_TRAINING_AFTER_PURGE"}
    ensures r.Err? && (forall i :: 0 <= i < |labels| ==> labels[i].cutoff == MarketTime(fitDate, 0)) ==>
              r.reason == "EMPTY_TRAINING_AFTER_PURGE"
    ensures r.Ok? ==> ValidBatch(r.value) && r.value.validationStart == fitDate
                      && r.value.rows == Pick(labels, TrainFlags(labels, fitDate, trainStart))
  {
    if exists i :: 0 <= i < |labels| && labels[i].cutoff != MarketTime(fitDate, 0) {
      return Err("TRAINING_RANK_CUTOFF_MISMATCH");
    }
    var selected := Pick(labels, TrainFlags(labels, fitDate, trainStart));
    if selected == [] { return Err("EMPTY_TRAINING_AFTER_PURGE"); }
    BatchValid(labels, fitDate, trainStart);
    r := Ok(TrainingBatch(selected, Weights(selected), fitDate));
  }

  // ---- preparing a fold

  const DEVELOPMENT: Session := 738886     // 2024-01-01
  const FINAL: Session := 739707           // 2026-04-01

  /** One dataset seen at the three cutoffs; rows keep their places. */
  datatype Views = Views(train: seq<LabelRow>, validation: seq<LabelRow>, test: seq<LabelRow>)

  predicate SameKeys(v: Views)
  {
    KeysOf(v.train) == KeysOf(v.validation) == KeysOf(v.test)
  }

  function View(v: Views, kind: Kind): seq<LabelRow>
  {
    match kind
    case Train => v.train
    case Validation => v.validation
    case Test => v.test
  }

  function KindAt(v: Views, w: FoldWindow, i: nat): Option<Kind>
    requires i < |v.train|
  {
    SplitKind(SessionOf(v.train[i].key.asOf), w)
  }

  lemma {:induction false} SameSize(v: Views)
    requires SameKeys(v)
    ensures |v.train| == |v.validation| == |v.test|
    ensures forall i :: 0 <= i < |v.train| ==> v.train[i].key == v.validation[i].key == v.test[i].key
  {
    assert |KeysOf(v.train)| == |v.train| && |KeysOf(v.validation)| == |v.validation| && |KeysOf(v.test)| == |v.test|;
    forall i | 0 <= i < |v.train| ensures v.train[i].key == v.validation[i].key == v.test[i].key {
      assert KeysOf(v.train)[i] == KeysOf(v.validation)[i] == KeysOf(v.test)[i];
    }
  }

  /** The row's label in the view of its own split. */
  function LabelAt(v: Views, w: FoldWindow, i: nat): Option<LabelRow>
    requires SameKeys(v) && i < |v.train|
  {
    SameSize(v);
    match KindAt(v, w, i)
    case None => None
    case Some(kind) => Some(View(v, kind)[i])
  }

  /** Where the loop sends row i. */
  function FateAt(v: Views, w: FoldWindow, i: nat): Partition
    requires SameKeys(v) && i < |v.train|
  {
    match LabelAt(v, w, i)
    case None => Partition(None, Outside)
    case Some(y) => match PartitionLabel(y, w)
                    case Ok(p) => p
                    case Err(_) => Partition(None, Outside)
  }

  function Fates(v: Views, w: FoldWindow): (f: seq<Partition>)
    requires SameKeys(v)
    ensures |f| == |v.train| && forall i :: 0 <= i < |f| ==> f[i] == FateAt(v, w, i)
  {
    seq(|v.train|, i requires 0 <= i < |v.train| => FateAt(v, w, i))
  }

  function PurgedFlags(fates: seq<Partition>, kind: Kind): (f: seq<bool>)
    ensures |f| == |fates| && forall i :: 0 <= i < |f| ==> (f[i] <==> fates[i] == Partition(Some(kind), Purged))
  {
    seq(|fates|, i requires 0 <= i < |fates| => fates[i] == Partition(Some(kind), Purged))
  }

  /** Validation and test keep every row that is not purged, known outcome or not. */
  function KeptFlags(fates: seq<Partition>, kind: Kind): (f: seq<bool>)
    ensures |f| == |fates| && forall i :: 0 <= i < |f| ==> (f[i] <==> Keeps(fates[i], kind))
  {
    seq(|fates|, i requires 0 <= i < |fates| => Keeps(fates[i], kind))
  }

  predicate Keeps(p: Partition, kind: Kind) { p.kind == Some(kind) && p.disposition != Purged }

  function UnavailableFlags(fates: seq<Partition>): (f: seq<bool>)
    ensures |f| == |fates| && forall i :: 0 <= i < |f| ==>
              (f[i] <==> fates[i].kind.Some? && fates[i].disposition == Unavailable)
  {
    seq(|fates|, i requires 0 <= i < |fates| => fates[i].kind.Some? && fates[i].disposition == Unavailable)
  }

  /** What the loop has collected after n rows. */
  function Selected(v: Views, w: FoldWindow, n: nat): Selection
    requires SameKeys(v) && n <= |v.train|
  {
    SameSize(v);
    var f, keys := Fates(v, w)[..n], KeysOf(v.train)[..n];
    Selection(
      Pick(v.validation[..n], KeptFlags(f, Validation)), Pick(v.test[..n], KeptFlags(f, Test)),
      Pick(keys, PurgedFlags(f, Train)), Pick(keys, PurgedFlags(f, Validation)), Pick(keys, PurgedFlags(f, Test)),
      Pick(keys, UnavailableFlags(f)))
  }

  function Append<T>(s: seq<T>, x: T, flag: bool): seq<T> { s + if flag then [x] else [] }

  lemma {:induction false} PickNext<T>(s: seq<T>, flags: seq<bool>, x: T, flag: bool)
    requires |s| == |flags|
    ensures Pick(s + [x], flags + [flag]) == Append(Pick(s, flags), x, flag)
  {
    assert (s + [x])[..|s|] == s && (flags + [flag])[..|s|] == flags;
  }

  lemma {:induction false} KeptNext(rows: seq<LabelRow>, f: seq<Partition>, x: LabelRow, p: Partition, kind: Kind)
    requires |rows| == |f|
    ensures Pick(rows + [x], KeptFlags(f + [p], kind)) == Append(Pick(rows, KeptFlags(f, kind)), x, Keeps(p, kind))
  {
    assert KeptFlags(f + [p], kind) == KeptFlags(f, kind) + [Keeps(p, kind)];
    PickNext(rows, KeptFlags(f, kind), x, Keeps(p, kind));
  }

  lemma {:induction false} PurgedNext(keys: seq<Key>, f: seq<Partition>, k: Key, p: Partition, kind: Kind)
    requires |keys| == |f|
    ensures Pick(keys + [k], PurgedFlags(f + [p], kind))
         == Append(Pick(keys, PurgedFlags(f, kind)), k, p == Partition(Some(kind), Purged))
  {
    assert PurgedFlags(f + [p], kind) == PurgedFlags(f, kind) + [p == Partition(Some(kind), Purged)];
    PickNext(keys, PurgedFlags(f, kind), k, p == Partition(Some(kind), Purged));
  }

  lemma {:induction false} UnavailableNext(keys: seq<Key>, f: seq<Partition>, k: Key, p: Partition)
    requires |keys| == |f|
    ensures Pick(keys + [k], UnavailableFlags(f + [p]))
         == Append(Pick(keys, UnavailableFlags(f)), k, p.kind.Some? && p.disposition == Unavailable)
  {
    assert UnavailableFlags(f + [p]) == UnavailableFlags(f) + [p.kind.Some? && p.disposition == Unavailable];
    PickNext(keys, UnavailableFlags(f), k, p.kind.Some? && p.disposition == Unavailable);
  }

  lemma {:induction false} SelectedNext(v: Views, w: FoldWindow, n: nat)
    requires SameKeys(v) && n < |v.train|
    ensures |v.train| == |v.validation| == |v.test|
    ensures var s, p, k := Selected(v, w, n), FateAt(v, w, n), v.train[n].key;
            Selected(v, w, n + 1) == Selection(
              Append(s.validation, v.validation[n], Keeps(p, Validation)), Append(s.test, v.test[n], Keeps(p, Test)),
              Append(s.purgedTrain, k, p == Partition(Some(Train), Purged)),
              Append(s.purgedValidation, k, p == Partition(Some(Validation), Purged)),
              Append(s.purgedTest, k, p == Partition(Some(Test), Purged)),
              Append(s.unavailable, k, p.kind.Some? && p.disposition == Unavailable))
  {
    SameSize(v);
    hide KeptFlags, PurgedFlags, UnavailableFlags, Pick, Append, Keeps, FateAt, SameKeys;
    var f, keys := Fates(v, w)[..n], KeysOf(v.train)[..n];
    var p, k := FateAt(v, w, n), v.train[n].key;
    assert Fates(v, w)[..n + 1] == f + [p];
    assert KeysOf(v.train)[..n + 1] == keys + [k];
    assert v.validation[..n + 1] == v.validation[..n] + [v.validation[n]];
    assert v.test[..n + 1] == v.test[..n] + [v.test[n]];
    KeptNext(v.validation[..n], f, v.validation[n], p, Validation);
    KeptNext(v.test[..n], f, v.test[n], p, Test);
    PurgedNext(keys, f, k, p, Train);
    PurgedNext(keys, f, k, p, Validation);
    PurgedNext(keys, f, k, p, Test);
    UnavailableNext(keys, f, k, p);
  }

  /** Each view was cut no later than the split's boundary. */
  predicate CutInTime(v: Views, w: FoldWindow)
  {
    && (forall i :: 0 <= i < |v.train| ==> v.train[i].cutoff == MarketTime(w.validationStart, 0))
    && (forall i :: 0 <= i < |v.validation| ==> v.validation[i].cutoff <= MarketTime(w.testStart, 0))
  }

  /** The loop never asks to re-identify: its views are already cut. */
  lemma {:induction false} NoReidentify(v: Views, w: FoldWindow, i: nat)
    requires SameKeys(v) && CutInTime(v, w) && i < |v.train| && LabelAt(v, w, i).Some?
    ensures PartitionLabel(LabelAt(v, w, i).value, w).Ok?
    ensures PartitionLabel(LabelAt(v, w, i).value, w).value == FateAt(v, w, i)
    ensures FateAt(v, w, i).kind == KindAt(v, w, i) && FateAt(v, w, i).disposition != Outside
  {
    SameSize(v);
  }

  predicate HorizonCovered(v: Views, w: FoldWindow, i: nat)
    requires SameKeys(v) && i < |v.train|
  {
    LabelAt(v, w, i).Some? ==> LabelAt(v, w, i).value.end.Some?
  }

  /** One row of the loop, once its label has a horizon. */
  method Route(s: Selection, key: Key, own: LabelRow, p: Partition) returns (r: Selection)
    requires p.kind.Some? && p.disposition != Outside
    ensures r == Selection(
              Append(s.validation, own, Keeps(p, Validation)), Append(s.test, own, Keeps(p, Test)),
              Append(s.purgedTrain, key, p == Partition(Some(Train), Purged)),
              Append(s.purgedValidation, key, p == Partition(Some(Validation), Purged)),
              Append(s.purgedTest, key, p == Partition(Some(Test), Purged)),
              Append(s.unavailable, key, p.disposition == Unavailable))
  {
    r := s;
    var kind := p.kind.value;
    if p.disposition == Purged {
      r := match kind
           case Train => r.(purgedTrain := r.purgedTrain + [key])
           case Validation => r.(purgedValidation := r.purgedValidation + [key])
           case Test => r.(purgedTest := r.purgedTest + [key]);
    } else {
      if p.disposition == Unavailable { r := r.(unavailable := r.unavailable + [key]); }
      if kind == Validation { r := r.(validation := r.validation + [own]); }
      if kind == Test { r := r.(test := r.test + [own]); }
    }
  }

  /** SelectedNext with the row's own label in place of the two views'. */
  lemma {:induction false} RoutedNext(v: Views, w: FoldWindow, n: nat, own: LabelRow, p: Partition)
    requires SameKeys(v) && n < |v.train| && LabelAt(v, w, n) == Some(own) && p == FateAt(v, w, n)
    requires p.kind == KindAt(v, w, n) && p.kind.Some?
    ensures var s, k := Selected(v, w, n), v.train[n].key;
            Selected(v, w, n + 1) == Selection(
              Append(s.validation, own, Keeps(p, Validation)), Append(s.test, own, Keeps(p, Test)),
              Append(s.purgedTrain, k, p == Partition(Some(Train), Purged)),
              Append(s.purgedValidation, k, p == Partition(Some(Validation), Purged)),
              Append(s.purgedTest, k, p == Partition(Some(Test), Purged)),
              Append(s.unavailable, k, p.disposition == Unavailable))
  {
    SelectedNext(v, w, n);
    hide Selected, FateAt, SameKeys, SplitKind;
  }

  lemma {:induction false} OutsideNext(v: Views, w: FoldWindow, n: nat)
    requires SameKeys(v) && n < |v.train| && LabelAt(v, w, n).None?
    ensures Selected(v, w, n + 1) == Selected(v, w, n)
  {
    SelectedNext(v, w, n);
    OutsideFate(v, w, n);
    hide Selected, FateAt, SameKeys, SplitKind;
  }

  /** The selection loop: stops only where a scored row's horizon runs past the calendar. */
  method SelectRows(v: Views, w: FoldWindow) returns (r: Result<Selection>)
    requires SameKeys(v) && CutInTime(v, w)
    ensures r.Ok? <==> forall i :: 0 <= i < |v.train| ==> HorizonCovered(v, w, i)
    ensures r.Ok? ==> r.value == Selected(v, w, |v.train|)
    ensures r.Err? ==> r.reason == "HORIZON_COVERAGE_INCOMPLETE"
  {
    hide Selected, FateAt, PartitionLabel, KindAt, SameKeys, LabelAt, Keeps, Append, CutInTime;
    var s := Selection([], [], [], [], [], []);
    SelectedNone(v, w);
    for n := 0 to |v.train|
      invariant s == Selected(v, w, n)
      invariant forall i :: 0 <= i < n ==> HorizonCovered(v, w, i)
    {
      var own := LabelAt(v, w, n);
      if own.Some? {
        if own.value.end.None? {
          assert !HorizonCovered(v, w, n);
          return Err("HORIZON_COVERAGE_INCOMPLETE");
        }
        NoReidentify(v, w, n);
        LabelKind(v, w, n);
        var p := PartitionLabel(own.value, w).value;
        RoutedNext(v, w, n, own.value, p);
        s := Route(s, v.train[n].key, own.value, p);
      } else {
        OutsideNext(v, w, n);
      }
    }
    r := Ok(s);
  }

  lemma {:induction false} LabelKind(v: Views, w: FoldWindow, i: nat)
    requires SameKeys(v) && i < |v.train|
    ensures LabelAt(v, w, i).Some? <==> KindAt(v, w, i).Some?
  {
    hide SplitKind;
  }

  lemma {:induction false} SelectedNone(v: Views, w: FoldWindow)
    requires SameKeys(v)
    ensures Selected(v, w, 0) == Selection([], [], [], [], [], [])
  {
  }

  lemma {:induction false} OutsideFate(v: Views, w: FoldWindow, i: nat)
    requires SameKeys(v) && i < |v.train| && LabelAt(v, w, i).None?
    ensures FateAt(v, w, i) == Partition(None, Outside)
  {
  }

  // ---- every row has exactly one place

  function ExactlyOne(a: bool, b: bool, c: bool): bool { (a && !b && !c) || (!a && b && !c) || (!a && !b && c) }

  lemma {:induction false} RowsDistinct(rows: seq<LabelRow>)
    requires NoRepeats(KeysOf(rows))
    ensures NoRepeats(rows)
  {
    forall i, j | 0 <= i < j < |rows| ensures rows[i] != rows[j] {
      assert KeysOf(rows)[i] != KeysOf(rows)[j];
    }
  }

  lemma {:induction false} WholeSelection(v: Views, w: FoldWindow)
    requires SameKeys(v)
    ensures |v.train| == |v.validation| == |v.test|
    ensures var f, keys, s := Fates(v, w), KeysOf(v.train), Selected(v, w, |v.train|);
            && s.validation == Pick(v.validation, KeptFlags(f, Validation))
            && s.test == Pick(v.test, KeptFlags(f, Test))
            && s.purgedTrain == Pick(keys, PurgedFlags(f, Train))
            && s.purgedValidation == Pick(keys, PurgedFlags(f, Validation))
            && s.purgedTest == Pick(keys, PurgedFlags(f, Test)) && s.unavailable == Pick(keys, UnavailableFlags(f))
  {
    SameSize(v);
    var n := |v.train|;
    assert Fates(v, w)[..n] == Fates(v, w) && KeysOf(v.train)[..n] == KeysOf(v.train);
    assert v.validation[..n] == v.validation && v.test[..n] == v.test;
    hide Fates, KeptFlags, PurgedFlags, UnavailableFlags, Pick;
  }

  /** An in-window training row is trained on, purged, or unavailable: exactly one of the three. */
  lemma {:induction false} TrainRowPlaced(v: Views, w: FoldWindow, i: nat)
    requires SameKeys(v) && CutInTime(v, w) && ValidWindow(w) && NoRepeats(KeysOf(v.train)) && i < |v.train|
    requires KindAt(v, w, i) == Some(Train)
    ensures var s, key := Selected(v, w, |v.train|), v.train[i].key;
            ExactlyOne(v.train[i] in Pick(v.train, TrainFlags(v.train, w.validationStart, Some(w.trainStart))),
                       key in s.purgedTrain, key in s.unavailable)
  {
    var f := Fates(v, w);
    WholeSelection(v, w);
    NoReidentify(v, w, i);
    FilterAgrees(v.train[i], w);
    RowsDistinct(v.train);
    hide Pick, SplitKind;
    PickExactly(v.train, TrainFlags(v.train, w.validationStart, Some(w.trainStart)), i);
    PickExactly(KeysOf(v.train), PurgedFlags(f, Train), i);
    PickExactly(KeysOf(v.train), UnavailableFlags(f), i);
  }

  /** An in-window evaluation row is kept or purged, never both, and is kept even when its outcome is unknown. */
  lemma {:induction false} EvaluationRowPlaced(v: Views, w: FoldWindow, kind: Kind, i: nat)
    requires SameKeys(v) && CutInTime(v, w) && ValidWindow(w) && NoRepeats(KeysOf(v.train)) && i < |v.train|
    requires kind != Train && KindAt(v, w, i) == Some(kind)
    ensures |View(v, kind)| == |v.train|
    ensures var s, key := Selected(v, w, |v.train|), v.train[i].key;
            var kept, purged := if kind == Validation then s.validation else s.test,
                                if kind == Validation then s.purgedValidation else s.purgedTest;
            (View(v, kind)[i] in kept) != (key in purged)
  {
    var f := Fates(v, w);
    SameSize(v);
    WholeSelection(v, w);
    NoReidentify(v, w, i);
    RowsDistinct(View(v, kind));
    hide Pick, SplitKind, PartitionLabel;
    PickExactly(View(v, kind), KeptFlags(f, kind), i);
    PickExactly(KeysOf(v.train), PurgedFlags(f, kind), i);
  }

  // ---- evaluation batches hold whole groups

  /** No horizon that survives purging reaches the next split, or past what its own view knows. */
  lemma {:induction false} KeptEndsEarly(v: Views, w: FoldWindow, kind: Kind, i: nat)
    requires SameKeys(v) && CutInTime(v, w) && NoRepeats(KeysOf(v.train)) && i < |v.train|
    requires KindAt(v, w, i) == Some(kind) && HorizonCovered(v, w, i)
    requires var s := Selected(v, w, |v.train|);
             v.train[i].key !in match kind
                                case Train => s.purgedTrain
                                case Validation => s.purgedValidation
                                case Test => s.purgedTest
    ensures |View(v, kind)| == |v.train| && View(v, kind)[i].end.Some?
    ensures View(v, kind)[i].end.value < SessionOf(View(v, kind)[i].cutoff)
    ensures kind != Test ==> View(v, kind)[i].end.value < Boundary(kind, w)
  {
    WholeSelection(v, w);
    SameSize(v);
    PickExactly(KeysOf(v.train), PurgedFlags(Fates(v, w), kind), i);
    NoReidentify(v, w, i);
    hide Selected, Pick, CutInTime, SameKeys, NoRepeats;
  }

  lemma {:induction false} GroupPick(rows: seq<LabelRow>, flags: seq<bool>, asOf: Time)
    requires |rows| == |flags| && forall i :: 0 <= i < |rows| && rows[i].key.asOf == asOf ==> flags[i]
    ensures RowGroup(Pick(rows, flags), asOf) == RowGroup(rows, asOf)
  {
    if rows != [] {
      var n := |rows| - 1;
      GroupPick(rows[..n], flags[..n], asOf);
      if flags[n] {
        GroupSnoc(Pick(rows[..n], flags[..n]), rows[n], asOf);
      } else {
        assert Pick(rows[..n], flags[..n]) + [] == Pick(rows[..n], flags[..n]);
      }
      assert rows[..n] + [rows[n]] == rows;
      GroupSnoc(rows[..n], rows[n], asOf);
    }
  }

  lemma {:induction false} GroupSnoc(rows: seq<LabelRow>, x: LabelRow, asOf: Time)
    ensures RowGroup(rows + [x], asOf) == if x.key.asOf == asOf then RowGroup(rows, asOf) + [x]
                                          else RowGroup(rows, asOf)
  {
    assert (rows + [x])[..|rows|] == rows;
  }

  /** Whole groups picked from valid labels are valid labels. */
  lemma {:induction false} PickValidated(rows: seq<LabelRow>, flags: seq<bool>)
    requires |rows| == |flags| && Validated(rows)
    requires forall i, j ::
               0 <= i < |rows| && 0 <= j < |rows| && rows[i].key.asOf == rows[j].key.asOf && flags[i] ==> flags[j]
    ensures Validated(Pick(rows, flags))
  {
    hide GroupValid, RowGroup;
    KeysPick(rows, flags);
    PickNoRepeat(KeysOf(rows), flags);
    var picked := Pick(rows, flags);
    forall k: nat | k < |picked| ensures GroupValid(RowGroup(picked, picked[k].key.asOf)) {
      PickFrom(rows, flags, k);
      var i :| 0 <= i < |rows| && flags[i] && picked[k] == rows[i];
      GroupPick(rows, flags, rows[i].key.asOf);
    }
  }

  /** Purging decides whole scoring times, never single stocks. */
  lemma {:induction false} FateOfDay(v: Views, w: FoldWindow, kind: Kind, i: nat, j: nat)
    requires SameKeys(v) && CutInTime(v, w) && kind != Train && i < |v.train| && j < |v.train|
    requires |View(v, kind)| == |v.train| && Validated(View(v, kind))
    requires v.train[i].key.asOf == v.train[j].key.asOf
    ensures Keeps(FateAt(v, w, i), kind) == Keeps(FateAt(v, w, j), kind)
  {
    SameSize(v);
    var rows := View(v, kind);
    WindowShared(rows, i, j);
    CutoffShared(rows, i, j);
    hide Validated;
    if KindAt(v, w, i) == Some(kind) {
      NoReidentify(v, w, i);
      NoReidentify(v, w, j);
    } else {
      OtherFate(v, w, kind, i);
      OtherFate(v, w, kind, j);
    }
  }

  lemma {:induction false} OtherFate(v: Views, w: FoldWindow, kind: Kind, i: nat)
    requires SameKeys(v) && i < |v.train| && KindAt(v, w, i) != Some(kind)
    ensures FateAt(v, w, i).kind != Some(kind)
  {
  }

  lemma {:induction false} CutoffShared(rows: seq<LabelRow>, i: nat, j: nat)
    requires Validated(rows) && i < |rows| && j < |rows| && rows[i].key.asOf == rows[j].key.asOf
    ensures rows[i].cutoff == rows[j].cutoff
  {
    hide Supervised, LatestOutcome, Returns;
    var g := RowGroup(rows, rows[i].key.asOf);
    RowGroupKeys(rows, rows[i].key.asOf);
    assert rows[i] in rows && rows[j] in rows;
    assert GroupValid(g);
    var a: nat :| a < |g| && g[a] == rows[i];
    var b: nat :| b < |g| && g[b] == rows[j];
    assert SameInformation(g[a], g[0]) && SameInformation(g[b], g[0]);
  }

  /** The checks of an evaluation batch never fire: what purging leaves are whole valid groups. */
  lemma {:induction false} EvaluationValid(v: Views, w: FoldWindow, kind: Kind)
    requires SameKeys(v) && CutInTime(v, w) && kind != Train && Validated(View(v, kind))
    ensures |View(v, kind)| == |v.train| && Validated(Pick(View(v, kind), KeptFlags(Fates(v, w), kind)))
  {
    SameSize(v);
    hide Validated, Keeps, FateAt, Pick;
    forall i, j | 0 <= i < |v.train| && 0 <= j < |v.train| && View(v, kind)[i].key.asOf == View(v, kind)[j].key.asOf
      ensures KeptFlags(Fates(v, w), kind)[i] == KeptFlags(Fates(v, w), kind)[j]
    {
      FateOfDay(v, w, kind, i, j);
    }
    PickValidated(View(v, kind), KeptFlags(Fates(v, w), kind));
  }

  // ---- preparing a fold

  function Earliest(rows: seq<LabelRow>): (c: Time)
    requires rows != []
    ensures forall i :: 0 <= i < |rows| ==> c <= rows[i].cutoff
    ensures exists i :: 0 <= i < |rows| && rows[i].cutoff == c
  {
    if |rows| == 1 then rows[0].cutoff else Min(Earliest(rows[..|rows| - 1]), rows[|rows| - 1].cutoff)
  }

  /** A fold is its three views, routed row by row. */
  ghost predicate IsFold(f: PreparedFold, v: Views, w: FoldWindow)
  {
    && SameKeys(v) && CutInTime(v, w)
    && f.selection == Selected(v, w, |v.train|)
    && f.train.rows == Pick(v.train, TrainFlags(v.train, w.validationStart, Some(w.trainStart)))
    && f.train.validationStart == w.validationStart
    && ValidBatch(f.train) && Validated(f.selection.validation) && Validated(f.selection.test)
    && f.selection.validation != [] && f.selection.test != []
  }

  predicate CutoffAllowed(synthetic: bool, evaluation: Option<Time>)
  {
    synthetic || (evaluation.Some? && evaluation.value in {MarketTime(DEVELOPMENT, 0), MarketTime(FINAL, 0)})
  }

  /** The labels at the fold's three cutoffs; the validation view is never later than the test view knows. */
  ghost function ViewsOf(labels: seq<LabelRow>, w: FoldWindow, evaluation: Option<Time>): Views
    requires labels != [] && Covered(KeysOf(labels), RecoveredMap(labels))
  {
    var keys, known := KeysOf(labels), RecoveredMap(labels);
    var test := if evaluation.Some? then Rows(keys, known, evaluation.value) else labels;
    Views(Rows(keys, known, MarketTime(w.validationStart, 0)),
          Rows(keys, known, Min(MarketTime(w.testStart, 0), Earliest(test))), test)
  }

  /** No cutoff the fold needs lies beyond what a label knew. */
  predicate Cuttable(labels: seq<LabelRow>, w: FoldWindow, evaluation: Option<Time>)
  {
    Reaches(labels, MarketTime(w.validationStart, 0)) && (evaluation.Some? ==> Reaches(labels, evaluation.value))
  }

  method CutViews(labels: seq<LabelRow>, w: FoldWindow, evaluation: Option<Time>) returns (r: Result<Views>)
    requires ValidWindow(w) && labels != [] && Validated(labels) && AllValid(labels)
    ensures Covered(KeysOf(labels), RecoveredMap(labels))
    ensures r.Ok? <==> Cuttable(labels, w, evaluation)
    ensures r.Err? ==> r.reason == "CANNOT_UNCENSOR_WITHOUT_SOURCE"
    ensures r.Ok? ==> r.value == ViewsOf(labels, w, evaluation) && AreViews(labels, w, r.value)
  {
    LabelsCovered(labels);
    CuttableIs(labels, w, evaluation);
    hide *;
    var test := labels;
    if evaluation.Some? {
      var t := LabelRowsAtCutoff(labels, evaluation.value);
      if t.Err? { return Err(t.reason); }
      test := t.value;
      CutFacts(labels, test, evaluation.value);
    }
    SameLength(test, labels);
    var cap := Earliest(test);
    CapCovers(labels, test, evaluation, cap);
    var train := LabelRowsAtCutoff(labels, MarketTime(w.validationStart, 0));
    if train.Err? { return Err(train.reason); }
    CapReaches(labels, MarketTime(w.testStart, 0), cap);
    var validation := LabelRowsAtCutoff(labels, Min(MarketTime(w.testStart, 0), cap));
    r := Ok(Views(train.value, validation.value, test));
    ViewsAre(labels, w, r.value, cap);
    ViewsAreCut(labels, w, evaluation, r.value);
  }

  lemma {:induction false} CuttableIs(labels: seq<LabelRow>, w: FoldWindow, evaluation: Option<Time>)
    ensures Cuttable(labels, w, evaluation)
            <==> Reaches(labels, MarketTime(w.validationStart, 0)) &&
                 (evaluation.Some? ==> Reaches(labels, evaluation.value))
  {
  }

  lemma {:induction false} LabelsCovered(labels: seq<LabelRow>)
    requires Validated(labels) && AllValid(labels)
    ensures Covered(KeysOf(labels), RecoveredMap(labels))
  {
    RecoveredGood(labels);
    hide Validated, ValidRow, Good, SameWindow;
  }

  /** One validated dataset at the fold's three cutoffs. */
  ghost predicate AreViews(labels: seq<LabelRow>, w: FoldWindow, v: Views)
  {
    && SameKeys(v) && CutInTime(v, w) && KeysOf(v.train) == KeysOf(labels) && AllValid(v.train)
    && Validated(v.train) && Validated(v.validation) && Validated(v.test)
  }

  lemma {:induction false} ViewsAre(labels: seq<LabelRow>, w: FoldWindow, v: Views, cap: Time)
    requires IsCut(labels, v.train, MarketTime(w.validationStart, 0))
    requires IsCut(labels, v.validation, Min(MarketTime(w.testStart, 0), cap))
    requires KeysOf(v.test) == KeysOf(labels) && Validated(v.test)
    ensures AreViews(labels, w, v)
  {
    hide Validated, AllValid, Rows;
  }

  lemma {:induction false} ViewsAreCut(labels: seq<LabelRow>, w: FoldWindow, evaluation: Option<Time>, v: Views)
    requires labels != [] && Covered(KeysOf(labels), RecoveredMap(labels)) && v.test != []
    requires if evaluation.Some? then IsCut(labels, v.test, evaluation.value) else v.test == labels
    requires IsCut(labels, v.train, MarketTime(w.validationStart, 0))
    requires IsCut(labels, v.validation, Min(MarketTime(w.testStart, 0), Earliest(v.test)))
    ensures v == ViewsOf(labels, w, evaluation)
  {
    hide Validated, AllValid, Rows, KeysOf, RecoveredMap, Covered;
  }

  lemma {:induction false} CutFacts(rows: seq<LabelRow>, cut: seq<LabelRow>, cutoff: Time)
    requires IsCut(rows, cut, cutoff)
    ensures KeysOf(cut) == KeysOf(rows) && Validated(cut) && forall i :: 0 <= i < |cut| ==> cut[i].cutoff == cutoff
  {
    hide Validated, AllValid, Rows;
  }

  lemma {:induction false} SameLength(a: seq<LabelRow>, b: seq<LabelRow>)
    requires KeysOf(a) == KeysOf(b)
    ensures |a| == |b|
  {
    assert |KeysOf(a)| == |a| && |KeysOf(b)| == |b|;
  }

  lemma {:induction false} CapReaches(labels: seq<LabelRow>, boundary: Time, cap: Time)
    requires forall i :: 0 <= i < |labels| ==> cap <= labels[i].cutoff
    ensures Reaches(labels, Min(boundary, cap))
  {
  }

  /** The test view's own cap never asks the validation view to widen. */
  lemma {:induction false} CapCovers(labels: seq<LabelRow>, test: seq<LabelRow>, evaluation: Option<Time>, cap: Time)
    requires test != [] && cap == Earliest(test)
    requires if evaluation.Some? then forall i :: 0 <= i < |test| ==> test[i].cutoff == evaluation.value
             else test == labels
    requires evaluation.Some? ==> Reaches(labels, evaluation.value)
    ensures forall i :: 0 <= i < |labels| ==> cap <= labels[i].cutoff
  {
  }

  /** Every scored row has its horizon on the calendar, and no split is left empty. */
  ghost predicate Foldable(v: Views, w: FoldWindow)
  {
    && SameKeys(v) && (forall i :: 0 <= i < |v.train| ==> HorizonCovered(v, w, i))
    && Selected(v, w, |v.train|).validation != [] && Selected(v, w, |v.train|).test != []
    && Pick(v.train, TrainFlags(v.train, w.validationStart, Some(w.trainStart))) != []
  }

  /** Select the rows of every split, then build the training batch. */
  method FoldViews(labels: seq<LabelRow>, w: FoldWindow, v: Views) returns (r: Result<PreparedFold>)
    requires AreViews(labels, w, v) && Validated(labels)
    ensures r.Ok? <==> Foldable(v, w)
    ensures r.Ok? ==> IsFold(r.value, v, w)
  {
    hide *;
    TrainReady(labels, w, v);
    FoldableIs(v, w);
    var selection := SelectRows(v, w);
    if selection.Err? { return Err(selection.reason); }
    if selection.value.validation == [] || selection.value.test == [] { return Err("EMPTY_SPLIT_AFTER_PURGE"); }
    var train := TrainBatch(v.train, w.validationStart, Some(w.trainStart));
    if train.Err? { return Err(train.reason); }
    r := Ok(PreparedFold(train.value, selection.value));
    FoldIs(labels, w, v, r.value);
  }

  // ---- the fold in the dates of its window

  /** The flagged places in order, and what stands there. */
  ghost predicate FlaggedAt<T>(places: seq<nat>, out: seq<T>, s: seq<T>, flags: seq<bool>)
    requires |s| == |flags|
  {
    && |places| == |out| && (forall a, b :: 0 <= a < b < |places| ==> places[a] < places[b])
    && (forall a :: 0 <= a < |places| ==> places[a] < |s| && out[a] == s[places[a]])
    && forall i: nat :: i < |s| && flags[i] <==> i in places
  }

  lemma {:induction false} FlagAdded<T>(places: seq<nat>, out: seq<T>, s: seq<T>, flags: seq<bool>, n: nat)
    requires |s| == |flags| == n + 1 && FlaggedAt(places, out, s[..n], flags[..n])
    ensures !flags[n] ==> FlaggedAt(places, out, s, flags)
    ensures flags[n] ==> FlaggedAt(places + [n], out + [s[n]], s, flags)
  {
    var more := places + [n];
    assert more[|places|] == n;
    forall i: nat ensures i < n && flags[i] <==> i in places { assert i < n && flags[..n][i] <==> i in places; }
  }

  lemma {:induction false} PickPlaces<T>(s: seq<T>, flags: seq<bool>) returns (places: seq<nat>)
    requires |s| == |flags|
    ensures FlaggedAt(places, Pick(s, flags), s, flags)
  {
    places := [];
    if s != [] {
      hide FlaggedAt;
      var n := |s| - 1;
      places := PickPlaces(s[..n], flags[..n]);
      FlagAdded(places, Pick(s[..n], flags[..n]), s, flags, n);
      assert Pick(s[..n], flags[..n]) + [] == Pick(s[..n], flags[..n]);
      if flags[n] { places := places + [n]; }
    }
  }

  ghost predicate FlagsAre(flags: seq<bool>, chosen: nat -> bool)
  {
    forall i: nat :: i < |flags| ==> (flags[i] <==> chosen(i))
  }

  lemma {:induction false} PickChosen<T(!new)>(s: seq<T>, flags: seq<bool>, chosen: nat -> bool)
    requires |s| == |flags| && FlagsAre(flags, chosen)
    ensures Chosen(Pick(s, flags), s, chosen)
  {
    var places := PickPlaces(s, flags);
    hide Pick;
  }

  /** What the partition of one row's own label says, in dates. */
  lemma {:induction false} FateDates(v: Views, w: FoldWindow, i: nat)
    requires SameKeys(v) && CutInTime(v, w) && ValidWindow(w) && i < |v.train| && HorizonCovered(v, w, i)
    ensures |v.train| == |v.validation| == |v.test|
    ensures FateAt(v, w, i) == Partition(Some(Train), Purged) <==> PurgedFromTrain(v.train, w)(i)
    ensures FateAt(v, w, i) == Partition(Some(Validation), Purged) <==> PurgedFromValidation(v.validation, w)(i)
    ensures FateAt(v, w, i) == Partition(Some(Test), Purged) <==> PurgedFromTest(v.test, w)(i)
    ensures Keeps(FateAt(v, w, i), Validation) <==> ValidatedOn(v.validation, w)(i)
    ensures Keeps(FateAt(v, w, i), Test) <==> Tested(v.test, w)(i)
    ensures FateAt(v, w, i).kind.Some? && FateAt(v, w, i).disposition == Unavailable
       <==> Unknown(v.train, v.validation, v.test, w)(i)
  {
    SameSize(v);
    if LabelAt(v, w, i).Some? { NoReidentify(v, w, i); }
    hide SameKeys;
  }

  lemma {:induction false} TrainDates(v: seq<LabelRow>, w: FoldWindow, i: nat)
    requires i < |v|
    ensures Trains(v[i], w.validationStart, Some(w.trainStart)) <==> Trained(v, w)(i)
  {
  }

  lemma {:induction false} CountIsSet(rows: seq<LabelRow>, asOf: Time)
    ensures CountAt(rows, asOf) == |PlacesAt(rows, asOf)|
  {
    if rows == [] {
      assert PlacesAt(rows, asOf) == {};
    } else {
      var n := |rows| - 1;
      CountIsSet(rows[..n], asOf);
      var before := PlacesAt(rows[..n], asOf);
      assert PlacesAt(rows, asOf) == if rows[n].key.asOf == asOf then before + {n} else before;
    }
  }

  lemma {:induction false} BatchEven(b: TrainingBatch)
    requires ValidBatch(b)
    ensures EvenWeights(b)
  {
    hide Times, PlacesAt;
    forall i | 0 <= i < |b.rows| ensures Times(b.weights[i], |PlacesAt(b.rows, b.rows[i].key.asOf)| as real) == 1.0 {
      CountIsSet(b.rows, b.rows[i].key.asOf);
      CountPositive(b.rows, i);
      Reciprocal(WeightBase(b.rows, i));
      Swap(WeightBase(b.rows, i), b.weights[i]);
    }
  }

  lemma {:induction false} Swap(a: real, b: real)
    ensures Times(a, b) == Times(b, a)
  {
  }

  /** Every flag of every row is its date condition. */
  ghost predicate AllFlags(v: Views, w: FoldWindow, fates: seq<Partition>)
  {
    && FlagsAre(TrainFlags(v.train, w.validationStart, Some(w.trainStart)), Trained(v.train, w))
    && FlagsAre(PurgedFlags(fates, Train), PurgedFromTrain(v.train, w))
    && FlagsAre(PurgedFlags(fates, Validation), PurgedFromValidation(v.validation, w))
    && FlagsAre(PurgedFlags(fates, Test), PurgedFromTest(v.test, w))
    && FlagsAre(KeptFlags(fates, Validation), ValidatedOn(v.validation, w))
    && FlagsAre(KeptFlags(fates, Test), Tested(v.test, w))
    && FlagsAre(UnavailableFlags(fates), Unknown(v.train, v.validation, v.test, w))
  }

  lemma {:induction false} AllDates(v: Views, w: FoldWindow)
    requires SameKeys(v) && CutInTime(v, w) && ValidWindow(w)
    requires forall i :: 0 <= i < |v.train| ==> HorizonCovered(v, w, i)
    ensures AllFlags(v, w, Fates(v, w))
  {
    hide FateAt, SameKeys, CutInTime, HorizonCovered, Keeps, PurgedFromTrain, PurgedFromValidation, PurgedFromTest,
         ValidatedOn, Tested, Unknown, Trained, Trains, KindAt, LabelAt, ValidWindow;
    var fates := Fates(v, w);
    forall i: nat | i < |v.train|
      ensures TrainFlags(v.train, w.validationStart, Some(w.trainStart))[i] <==> Trained(v.train, w)(i)
      ensures PurgedFlags(fates, Train)[i] <==> PurgedFromTrain(v.train, w)(i)
      ensures PurgedFlags(fates, Validation)[i] <==> PurgedFromValidation(v.validation, w)(i)
      ensures PurgedFlags(fates, Test)[i] <==> PurgedFromTest(v.test, w)(i)
      ensures KeptFlags(fates, Validation)[i] <==> ValidatedOn(v.validation, w)(i)
      ensures KeptFlags(fates, Test)[i] <==> Tested(v.test, w)(i)
      ensures UnavailableFlags(fates)[i] <==> Unknown(v.train, v.validation, v.test, w)(i) {
      DatesAt(v, w, i);
    }
  }

  lemma {:induction false} DatesAt(v: Views, w: FoldWindow, i: nat)
    requires SameKeys(v) && CutInTime(v, w) && ValidWindow(w) && i < |v.train| && HorizonCovered(v, w, i)
    ensures DatesAgree(v, w, Fates(v, w), i)
  {
    FateDates(v, w, i);
    TrainDates(v.train, w, i);
    hide FateAt, SameKeys, CutInTime, HorizonCovered, Keeps, PurgedFromTrain, PurgedFromValidation, PurgedFromTest,
         ValidatedOn, Tested, Unknown, Trained, Trains, KindAt, LabelAt;
  }

  /** The lists of a selection. */
  lemma {:induction false} SelectionChosen(v: Views, w: FoldWindow, s: Selection)
    requires SameKeys(v) && s == Selected(v, w, |v.train|) && AllFlags(v, w, Fates(v, w))
    ensures Chosen(s.purgedTrain, KeysOf(v.train), PurgedFromTrain(v.train, w))
    ensures Chosen(s.validation, v.validation, ValidatedOn(v.validation, w))
    ensures Chosen(s.purgedValidation, KeysOf(v.train), PurgedFromValidation(v.validation, w))
    ensures Chosen(s.test, v.test, Tested(v.test, w))
    ensures Chosen(s.purgedTest, KeysOf(v.train), PurgedFromTest(v.test, w))
    ensures Chosen(s.unavailable, KeysOf(v.train), Unknown(v.train, v.validation, v.test, w))
  {
    WholeSelection(v, w);
    var fates, keys := Fates(v, w), KeysOf(v.train);
    hide Selected, Pick, Keeps, FateAt, SameKeys, Chosen, PurgedFromTrain, PurgedFromValidation, PurgedFromTest,
         ValidatedOn, Tested, Unknown, Trained, Trains, PurgedFlags, KeptFlags, UnavailableFlags, FlagsAre, Fates;
    PickChosen(keys, PurgedFlags(fates, Train), PurgedFromTrain(v.train, w));
    PickChosen(keys, PurgedFlags(fates, Validation), PurgedFromValidation(v.validation, w));
    PickChosen(keys, PurgedFlags(fates, Test), PurgedFromTest(v.test, w));
    PickChosen(v.validation, KeptFlags(fates, Validation), ValidatedOn(v.validation, w));
    PickChosen(v.test, KeptFlags(fates, Test), Tested(v.test, w));
    PickChosen(keys, UnavailableFlags(fates), Unknown(v.train, v.validation, v.test, w));
  }

  lemma {:induction false} TrainChosen(v: Views, w: FoldWindow)
    requires SameKeys(v) && AllFlags(v, w, Fates(v, w))
    ensures Chosen(Pick(v.train, TrainFlags(v.train, w.validationStart, Some(w.trainStart))), v.train,
                   Trained(v.train, w))
  {
    hide Pick, Chosen, Trained, Trains, SameKeys, FateAt, FlagsAre;
    PickChosen(v.train, TrainFlags(v.train, w.validationStart, Some(w.trainStart)), Trained(v.train, w));
  }

  /** Every list of a fold is what its window's dates choose from the views. */
  lemma {:induction false} FoldRouted(f: PreparedFold, v: Views, w: FoldWindow)
    requires IsFold(f, v, w) && ValidWindow(w)
    requires forall i :: 0 <= i < |v.train| ==> HorizonCovered(v, w, i)
    ensures Routed(f, v.train, v.validation, v.test, w)
  {
    IsFoldParts(f, v, w);
    hide *;
    AllDates(v, w);
    SelectionChosen(v, w, f.selection);
    TrainChosen(v, w);
    BatchEven(f.train);
    RoutedParts(f, v, w);
  }

  lemma {:induction false} RoutedParts(f: PreparedFold, v: Views, w: FoldWindow)
    requires Chosen(f.train.rows, v.train, Trained(v.train, w)) && EvenWeights(f.train)
    requires f.train.validationStart == w.validationStart
    requires Chosen(f.selection.purgedTrain, KeysOf(v.train), PurgedFromTrain(v.train, w))
    requires Chosen(f.selection.validation, v.validation, ValidatedOn(v.validation, w))
    requires Chosen(f.selection.purgedValidation, KeysOf(v.train), PurgedFromValidation(v.validation, w))
    requires Chosen(f.selection.test, v.test, Tested(v.test, w))
    requires Chosen(f.selection.purgedTest, KeysOf(v.train), PurgedFromTest(v.test, w))
    requires Chosen(f.selection.unavailable, KeysOf(v.train), Unknown(v.train, v.validation, v.test, w))
    ensures Routed(f, v.train, v.validation, v.test, w)
  {
    hide Chosen, EvenWeights, Trained, PurgedFromTrain, ValidatedOn, PurgedFromValidation, Tested, PurgedFromTest,
         Unknown;
  }

  /** At one row every flag is its date condition. */
  ghost predicate DatesAgree(v: Views, w: FoldWindow, fates: seq<Partition>, i: nat)
    requires i < |v.train| == |fates|
  {
    && (Trains(v.train[i], w.validationStart, Some(w.trainStart)) <==> Trained(v.train, w)(i))
    && (fates[i] == Partition(Some(Train), Purged) <==> PurgedFromTrain(v.train, w)(i))
    && (fates[i] == Partition(Some(Validation), Purged) <==> PurgedFromValidation(v.validation, w)(i))
    && (fates[i] == Partition(Some(Test), Purged) <==> PurgedFromTest(v.test, w)(i))
    && (Keeps(fates[i], Validation) <==> ValidatedOn(v.validation, w)(i))
    && (Keeps(fates[i], Test) <==> Tested(v.test, w)(i))
    && (fates[i].kind.Some? && fates[i].disposition == Unavailable <==> Unknown(v.train, v.validation, v.test, w)(i))
  }

  lemma {:induction false} IsFoldParts(f: PreparedFold, v: Views, w: FoldWindow)
    requires IsFold(f, v, w)
    ensures SameKeys(v) && CutInTime(v, w) && f.selection == Selected(v, w, |v.train|) && ValidBatch(f.train)
    ensures f.train.validationStart == w.validationStart
    ensures f.train.rows == Pick(v.train, TrainFlags(v.train, w.validationStart, Some(w.trainStart)))
  {
    hide SameKeys, CutInTime, Selected, Pick, TrainFlags, ValidBatch, Validated;
  }

  // ---- the views and the conditions, on the labels themselves

  /** Cutting the labels gives them as they stood at the cutoff. */
  lemma {:induction false} CutView(labels: seq<LabelRow>, c: Time)
    requires Validated(labels) && AllValid(labels)
    ensures Covered(KeysOf(labels), RecoveredMap(labels))
    ensures IsView(Rows(KeysOf(labels), RecoveredMap(labels), c), labels, c)
  {
    var keys, known := KeysOf(labels), RecoveredMap(labels);
    RecoveredGood(labels);
    RowsValid(keys, known, c);
    RowsCutAt(keys, known, c);
    var view := Rows(keys, known, c);
    hide Validated, ValidRow, GoodPool, Rows, RecoveredMap;
    forall i | 0 <= i < |view| ensures AsOf(view[i], labels[i], c) {
      CutRow(labels, c, i);
    }
  }

  lemma {:induction false} CutRow(labels: seq<LabelRow>, c: Time, i: nat)
    requires Validated(labels) && AllValid(labels) && i < |labels|
    requires Covered(KeysOf(labels), RecoveredMap(labels))
    requires ValidRow(Rows(KeysOf(labels), RecoveredMap(labels), c)[i])
    requires Rows(KeysOf(labels), RecoveredMap(labels), c)[i].cutoff == c
    ensures AsOf(Rows(KeysOf(labels), RecoveredMap(labels), c)[i], labels[i], c)
  {
    var keys, known := KeysOf(labels), RecoveredMap(labels);
    assert NoRepeats(keys) && ValidRow(labels[i]);
    hide *;
    RecoveredAt(labels, i);
    assert keys[i] in keys;
    RowKeeps(keys, known, c, keys[i]);
    RowAsOf(Rows(keys, known, c)[i], labels[i], c);
  }

  lemma {:induction false} RowAsOf(r: LabelRow, y: LabelRow, c: Time)
    requires Recovered(r) == At(Recovered(y), c) && r.key == y.key && r.cutoff == c && ValidRow(r) && ValidRow(y)
    ensures AsOf(r, y, c)
  {
  }

  lemma {:induction false} TheViews(labels: seq<LabelRow>, w: FoldWindow, evaluation: Option<Time>)
    requires labels != [] && Validated(labels) && AllValid(labels)
    ensures Covered(KeysOf(labels), RecoveredMap(labels))
    ensures var v := ViewsOf(labels, w, evaluation);
            AreTheViews(labels, w, evaluation, v.train, v.validation, v.test)
  {
    LabelsCovered(labels);
    hide *;
    var v := ViewsOf(labels, w, evaluation);
    ViewsOfIs(labels, w, evaluation);
    CutView(labels, MarketTime(w.validationStart, 0));
    if evaluation.Some? { CutView(labels, evaluation.value); }
    var c := Min(MarketTime(w.testStart, 0), Earliest(v.test));
    CutView(labels, c);
    EarliestCutoff(v.test, w);
    TheViewsFrom(labels, w, evaluation, v, c);
  }

  lemma {:induction false} ViewsOfIs(labels: seq<LabelRow>, w: FoldWindow, evaluation: Option<Time>)
    requires labels != [] && Covered(KeysOf(labels), RecoveredMap(labels))
    ensures var v, keys, known := ViewsOf(labels, w, evaluation), KeysOf(labels), RecoveredMap(labels);
            && v.test != [] && v.test == (if evaluation.Some? then Rows(keys, known, evaluation.value) else labels)
            && v.train == Rows(keys, known, MarketTime(w.validationStart, 0))
            && v.validation == Rows(keys, known, Min(MarketTime(w.testStart, 0), Earliest(v.test)))
  {
    hide Rows, RecoveredMap, Earliest, Covered;
  }

  lemma {:induction false} EarliestCutoff(test: seq<LabelRow>, w: FoldWindow)
    requires test != []
    ensures IsValidationCutoff(Min(MarketTime(w.testStart, 0), Earliest(test)), w, test)
  {
    hide Earliest, MarketTime;
  }

  lemma {:induction false} TheViewsFrom(labels: seq<LabelRow>, w: FoldWindow, evaluation: Option<Time>, v: Views,
                                        c: Time)
    requires IsView(v.train, labels, MarketTime(w.validationStart, 0)) && IsView(v.validation, labels, c)
    requires if evaluation.Some? then IsView(v.test, labels, evaluation.value) else v.test == labels
    requires IsValidationCutoff(c, w, v.test)
    ensures AreTheViews(labels, w, evaluation, v.train, v.validation, v.test)
  {
    hide IsView, IsValidationCutoff, MarketTime;
  }

  lemma {:induction false} ChosenSome<T(!new)>(out: seq<T>, s: seq<T>, chosen: nat -> bool)
    requires Chosen(out, s, chosen)
    ensures out != [] <==> exists i: nat :: i < |s| && chosen(i)
  {
    var places: seq<nat> :|
      && |places| == |out| && (forall a :: 0 <= a < |places| ==> places[a] < |s| && out[a] == s[places[a]])
      && forall i: nat :: i < |s| && chosen(i) <==> i in places;
    if out != [] { assert places[0] in places; }
  }

  /** A fold can be made of the views exactly when every list that must not be empty has a row. */
  lemma {:induction false} FoldableDates(v: Views, w: FoldWindow)
    requires SameKeys(v) && CutInTime(v, w) && ValidWindow(w)
    ensures |v.train| == |v.validation| == |v.test|
    ensures Foldable(v, w)
       <==> && (forall i :: 0 <= i < |v.train| ==> HorizonCovered(v, w, i))
            && (exists i: nat :: i < |v.train| && Trained(v.train, w)(i))
            && (exists i: nat :: i < |v.validation| && ValidatedOn(v.validation, w)(i))
            && (exists i: nat :: i < |v.test| && Tested(v.test, w)(i))
  {
    SameSize(v);
    FoldableIs(v, w);
    if forall i :: 0 <= i < |v.train| ==> HorizonCovered(v, w, i) {
      hide *;
      AllDates(v, w);
      var s := Selected(v, w, |v.train|);
      SelectionChosen(v, w, s);
      TrainChosen(v, w);
      ChosenSome(s.validation, v.validation, ValidatedOn(v.validation, w));
      ChosenSome(s.test, v.test, Tested(v.test, w));
      ChosenSome(Pick(v.train, TrainFlags(v.train, w.validationStart, Some(w.trainStart))), v.train,
                 Trained(v.train, w));
    }
    hide *;
  }

  /** The same conditions on the labels the views were cut from. */
  lemma {:induction false} ViewDates(labels: seq<LabelRow>, w: FoldWindow, evaluation: Option<Time>, v: Views, c: Time)
    requires SameKeys(v) && ValidWindow(w)
    requires IsView(v.train, labels, MarketTime(w.validationStart, 0)) && IsTestView(v.test, labels, evaluation)
    requires IsValidationCutoff(c, w, v.test) && IsView(v.validation, labels, c)
    ensures |v.train| == |v.validation| == |v.test| == |labels|
    ensures (forall i :: 0 <= i < |v.train| ==> HorizonCovered(v, w, i)) <==> HorizonsKnown(labels, w)
    ensures forall i: nat :: i < |labels| ==>
              (Trained(v.train, w)(i) <==> InTrain(labels[i], w) && EndsBefore(labels[i], w.validationStart)
                                           && KnownAt(labels[i], MarketTime(w.validationStart, 0)))
    ensures forall i: nat :: i < |labels| ==>
              (ValidatedOn(v.validation, w)(i) <==> InValidation(labels[i], w) && EndsBefore(labels[i], w.testStart)
                                                    && EndsInView(labels[i], labels, evaluation))
    ensures forall i: nat :: i < |labels| ==>
              (Tested(v.test, w)(i) <==>
                 InTest(labels[i], w)
                 && EndsBefore(labels[i], SessionOf(if evaluation.Some? then evaluation.value else labels[i].cutoff)))
  {
    SameSize(v);
    hide Validated, SameKeys, KnownAt, HorizonCovered, Trained, ValidatedOn, Tested, InTrain, InValidation, InTest,
         EndsBefore, EndsInView, AsOf, SessionOf, MarketTime, ValidWindow, IsValidationCutoff;
    forall i: nat | i < |labels|
      ensures Trained(v.train, w)(i) <==> InTrain(labels[i], w) && EndsBefore(labels[i], w.validationStart)
                                          && KnownAt(labels[i], MarketTime(w.validationStart, 0)) {
      TrainedLabel(v.train, labels, w, i);
    }
    forall i: nat | i < |labels|
      ensures ValidatedOn(v.validation, w)(i) <==> InValidation(labels[i], w) && EndsBefore(labels[i], w.testStart)
                                                   && EndsInView(labels[i], labels, evaluation) {
      EndsByCutoff(labels, w, evaluation, v.test, c, i);
      ValidatedLabel(v.validation, labels, w, c, i);
    }
    forall i: nat | i < |labels|
      ensures Tested(v.test, w)(i) <==>
                InTest(labels[i], w)
                && EndsBefore(labels[i], SessionOf(if evaluation.Some? then evaluation.value else labels[i].cutoff)) {
      TestedLabel(v.test, labels, w, evaluation, i);
    }
    forall i: nat | i < |labels|
      ensures HorizonCovered(v, w, i)
         <==> (InTrain(labels[i], w) || InValidation(labels[i], w) || InTest(labels[i], w) ==> labels[i].end.Some?) {
      HorizonLabel(v, labels, w, evaluation, c, i);
    }
  }

  lemma {:induction false} TrainedLabel(train: seq<LabelRow>, labels: seq<LabelRow>, w: FoldWindow, i: nat)
    requires IsView(train, labels, MarketTime(w.validationStart, 0)) && i < |labels|
    ensures Trained(train, w)(i) <==> InTrain(labels[i], w) && EndsBefore(labels[i], w.validationStart)
                                      && KnownAt(labels[i], MarketTime(w.validationStart, 0))
  {
    hide Validated, KnownAt, MarketTime, SessionOf;
    assert AsOf(train[i], labels[i], MarketTime(w.validationStart, 0));
  }

  lemma {:induction false} ValidatedLabel(validation: seq<LabelRow>, labels: seq<LabelRow>, w: FoldWindow, c: Time,
                                          i: nat)
    requires IsView(validation, labels, c) && i < |labels|
    ensures ValidatedOn(validation, w)(i) <==> InValidation(labels[i], w) && EndsBefore(labels[i], w.testStart)
                                               && EndsBefore(labels[i], SessionOf(c))
  {
    hide Validated, KnownAt, MarketTime, SessionOf;
    assert AsOf(validation[i], labels[i], c);
  }

  lemma {:induction false} TestedLabel(test: seq<LabelRow>, labels: seq<LabelRow>, w: FoldWindow,
                                       evaluation: Option<Time>, i: nat)
    requires IsTestView(test, labels, evaluation) && i < |labels|
    ensures |test| == |labels|
    ensures Tested(test, w)(i) <==>
              InTest(labels[i], w)
              && EndsBefore(labels[i], SessionOf(if evaluation.Some? then evaluation.value else labels[i].cutoff))
  {
    hide Validated, KnownAt, MarketTime, SessionOf;
    if evaluation.Some? { assert AsOf(test[i], labels[i], evaluation.value); }
  }

  /** The label of a row's own split has a horizon exactly when the row does. */
  lemma {:induction false} HorizonLabel(v: Views, labels: seq<LabelRow>, w: FoldWindow, evaluation: Option<Time>,
                                        c: Time, i: nat)
    requires SameKeys(v) && ValidWindow(w) && i < |labels|
    requires IsView(v.train, labels, MarketTime(w.validationStart, 0)) && IsTestView(v.test, labels, evaluation)
    requires IsView(v.validation, labels, c)
    ensures HorizonCovered(v, w, i)
       <==> (InTrain(labels[i], w) || InValidation(labels[i], w) || InTest(labels[i], w) ==> labels[i].end.Some?)
  {
    SameSize(v);
    hide Validated, KnownAt, MarketTime, SessionOf, SameKeys, HorizonCovered, ValidWindow, InTrain, InValidation,
         InTest;
    assert AsOf(v.train[i], labels[i], MarketTime(w.validationStart, 0)) && AsOf(v.validation[i], labels[i], c);
    if evaluation.Some? { assert AsOf(v.test[i], labels[i], evaluation.value); }
    hide IsView, IsTestView, AsOf;
    SplitHorizon(v, labels[i], w, i);
  }

  lemma {:induction false} SplitHorizon(v: Views, y: LabelRow, w: FoldWindow, i: nat)
    requires SameKeys(v) && ValidWindow(w) && i < |v.train| == |v.validation| == |v.test|
    requires v.train[i].key == y.key && v.train[i].end == v.validation[i].end == v.test[i].end == y.end
    ensures HorizonCovered(v, w, i) <==> (InTrain(y, w) || InValidation(y, w) || InTest(y, w) ==> y.end.Some?)
  {
    hide SameKeys, SessionOf;
  }

  /** Over by the validation cutoff is over by the test's start and by what the test view knows. */
  lemma {:induction false} EndsByCutoff(labels: seq<LabelRow>, w: FoldWindow, evaluation: Option<Time>,
                                        test: seq<LabelRow>, c: Time, i: nat)
    requires IsTestView(test, labels, evaluation) && IsValidationCutoff(c, w, test) && i < |labels|
    ensures EndsBefore(labels[i], w.testStart) ==>
              (EndsBefore(labels[i], SessionOf(c)) <==> EndsInView(labels[i], labels, evaluation))
  {
    hide Validated, KnownAt;
    assert |test| == |labels|;
    forall j | 0 <= j < |test|
      ensures test[j].cutoff == if evaluation.Some? then evaluation.value else labels[j].cutoff {
      if evaluation.Some? { assert AsOf(test[j], labels[j], evaluation.value); }
    }
    forall j | 0 <= j < |test| ensures SessionOf(c) <= SessionOf(test[j].cutoff) {
      SessionMonotone(c, test[j].cutoff);
    }
    assert test[i].cutoff == if evaluation.Some? then evaluation.value else labels[i].cutoff;
    assert SessionOf(MarketTime(w.testStart, 0)) == w.testStart;
  }

  /** The conditions of a fold are those its window and its labels show. */
  lemma {:induction false} AllowedIff(labels: seq<LabelRow>, w: FoldWindow, synthetic: bool, evaluation: Option<Time>)
    requires ValidWindow(w) && labels != [] && Validated(labels) && AllValid(labels)
    ensures Covered(KeysOf(labels), RecoveredMap(labels))
    ensures FoldAllowed(labels, w, synthetic, evaluation)
       <==> CutoffAllowed(synthetic, evaluation) && Cuttable(labels, w, evaluation)
            && Foldable(ViewsOf(labels, w, evaluation), w)
  {
    hide *;
    TheViews(labels, w, evaluation);
    var v := ViewsOf(labels, w, evaluation);
    SameKeysOfViews(labels, w, evaluation, v);
    var c := TheCutoff(labels, w, evaluation, v);
    ViewDates(labels, w, evaluation, v, c);
    FoldableDates(v, w);
    CutoffsAllowed(labels, w, synthetic, evaluation);
    AllowedFrom(labels, w, synthetic, evaluation, v);
  }

  lemma {:induction false} TheCutoff(labels: seq<LabelRow>, w: FoldWindow, evaluation: Option<Time>, v: Views)
    returns (c: Time)
    requires AreTheViews(labels, w, evaluation, v.train, v.validation, v.test)
    ensures IsView(v.train, labels, MarketTime(w.validationStart, 0)) && IsTestView(v.test, labels, evaluation)
    ensures IsValidationCutoff(c, w, v.test) && IsView(v.validation, labels, c)
  {
    hide IsView, IsTestView, IsValidationCutoff;
    c :| IsValidationCutoff(c, w, v.test) && IsView(v.validation, labels, c);
  }

  lemma {:induction false} SameKeysOfViews(labels: seq<LabelRow>, w: FoldWindow, evaluation: Option<Time>, v: Views)
    requires AreTheViews(labels, w, evaluation, v.train, v.validation, v.test)
    ensures SameKeys(v) && CutInTime(v, w)
  {
    hide Validated, KnownAt, MarketTime, SessionOf;
    var c: Time :| IsValidationCutoff(c, w, v.test) && IsView(v.validation, labels, c);
    forall i | 0 <= i < |labels|
      ensures v.train[i].key == v.validation[i].key == v.test[i].key && v.validation[i].cutoff == c
              && v.train[i].cutoff == MarketTime(w.validationStart, 0) {
      assert AsOf(v.train[i], labels[i], MarketTime(w.validationStart, 0)) && AsOf(v.validation[i], labels[i], c);
      if evaluation.Some? { assert AsOf(v.test[i], labels[i], evaluation.value); }
    }
    assert KeysOf(v.train) == KeysOf(v.validation) == KeysOf(v.test);
  }

  lemma {:induction false} CutoffsAllowed(labels: seq<LabelRow>, w: FoldWindow, synthetic: bool,
                                          evaluation: Option<Time>)
    ensures CutoffAllowed(synthetic, evaluation)
       <==> synthetic || evaluation == Some(MarketTime(738886, 0)) || evaluation == Some(MarketTime(739707, 0))
    ensures Cuttable(labels, w, evaluation)
       <==> forall i :: 0 <= i < |labels| ==>
              && MarketTime(w.validationStart, 0) <= labels[i].cutoff
              && (evaluation.Some? ==> evaluation.value <= labels[i].cutoff)
  {
  }

  lemma {:induction false} AllowedFrom(labels: seq<LabelRow>, w: FoldWindow, synthetic: bool, evaluation: Option<Time>,
                                       v: Views)
    requires |v.train| == |v.validation| == |v.test| == |labels|
    requires forall i: nat :: i < |labels| ==>
               (Trained(v.train, w)(i) <==> InTrain(labels[i], w) && EndsBefore(labels[i], w.validationStart)
                                            && KnownAt(labels[i], MarketTime(w.validationStart, 0)))
    requires forall i: nat :: i < |labels| ==>
               (ValidatedOn(v.validation, w)(i) <==> InValidation(labels[i], w) && EndsBefore(labels[i], w.testStart)
                                                     && EndsInView(labels[i], labels, evaluation))
    requires forall i: nat :: i < |labels| ==>
               (Tested(v.test, w)(i) <==>
                  InTest(labels[i], w)
                  && EndsBefore(labels[i], SessionOf(if evaluation.Some? then evaluation.value else labels[i].cutoff)))
    ensures FoldAllowed(labels, w, synthetic, evaluation)
       <==> && (synthetic || evaluation == Some(MarketTime(738886, 0)) || evaluation == Some(MarketTime(739707, 0)))
            && (forall i :: 0 <= i < |labels| ==>
                  && MarketTime(w.validationStart, 0) <= labels[i].cutoff
                  && (evaluation.Some? ==> evaluation.value <= labels[i].cutoff))
            && HorizonsKnown(labels, w) && (exists i: nat :: i < |v.train| && Trained(v.train, w)(i))
            && (exists i: nat :: i < |v.validation| && ValidatedOn(v.validation, w)(i))
            && (exists i: nat :: i < |v.test| && Tested(v.test, w)(i))
  {
    hide Trained, ValidatedOn, Tested, InTrain, InValidation, InTest, EndsBefore, EndsInView, KnownAt, MarketTime,
         SessionOf, HorizonsKnown;
  }

  /** So a prepared fold holds what its window's dates make of the labels. */
  lemma {:induction false} FoldHolds(f: PreparedFold, labels: seq<LabelRow>, w: FoldWindow, evaluation: Option<Time>)
    requires ValidWindow(w) && labels != [] && Validated(labels) && AllValid(labels)
    requires Covered(KeysOf(labels), RecoveredMap(labels))
    requires IsFold(f, ViewsOf(labels, w, evaluation), w) && Foldable(ViewsOf(labels, w, evaluation), w)
    ensures Holds(f, labels, w, evaluation)
  {
    TheViews(labels, w, evaluation);
    var v := ViewsOf(labels, w, evaluation);
    SameKeysOfViews(labels, w, evaluation, v);
    hide *;
    FoldableDates(v, w);
    FoldRouted(f, v, w);
    HoldsFrom(f, labels, w, evaluation, v);
  }

  lemma {:induction false} HoldsFrom(f: PreparedFold, labels: seq<LabelRow>, w: FoldWindow, evaluation: Option<Time>,
                                     v: Views)
    requires AreTheViews(labels, w, evaluation, v.train, v.validation, v.test)
    requires Routed(f, v.train, v.validation, v.test, w)
    ensures Holds(f, labels, w, evaluation)
  {
    hide AreTheViews, Routed;
  }

  /**
   * Preparing a fold: refuses only for these four conditions on its inputs; the contract checks of its batches never
   * fire.
   */
  method PrepareFold(labels: seq<LabelRow>, w: FoldWindow, synthetic: bool, evaluation: Option<Time>)
    returns (r: Result<PreparedFold>)
    requires ValidWindow(w) && labels != [] && Validated(labels) && AllValid(labels)
    ensures Covered(KeysOf(labels), RecoveredMap(labels))
    ensures r.Ok? <==> CutoffAllowed(synthetic, evaluation) && Cuttable(labels, w, evaluation)
                       && Foldable(ViewsOf(labels, w, evaluation), w)
    ensures r.Ok? ==> IsFold(r.value, ViewsOf(labels, w, evaluation), w)
    // and both in the dates of the window, row by row
    ensures r.Ok? <==> FoldAllowed(labels, w, synthetic, evaluation)
    ensures r.Ok? ==> Holds(r.value, labels, w, evaluation)
  {
    hide *;
    AllowedIff(labels, w, synthetic, evaluation);
    LabelsCovered(labels);
    RealNeedsCutoff(synthetic, evaluation);
    if !synthetic && evaluation.None? { return Err("REAL_EVALUATION_CUTOFF_REQUIRED"); }
    if !CutoffAllowed(synthetic, evaluation) { return Err("EVALUATION_CUTOFF_PROTOCOL_MISMATCH"); }
    var views := CutViews(labels, w, evaluation);
    if views.Err? { return Err(views.reason); }
    r := FoldViews(labels, w, views.value);
    if r.Ok? { FoldHolds(r.value, labels, w, evaluation); }
  }

  lemma {:induction false} RealNeedsCutoff(synthetic: bool, evaluation: Option<Time>)
    ensures CutoffAllowed(synthetic, evaluation) ==> synthetic || evaluation.Some?
  {
  }

  lemma {:induction false} FoldableIs(v: Views, w: FoldWindow)
    requires SameKeys(v)
    ensures Foldable(v, w)
            <==> (forall i :: 0 <= i < |v.train| ==> HorizonCovered(v, w, i))
                 && Selected(v, w, |v.train|).validation != [] && Selected(v, w, |v.train|).test != []
                 && Pick(v.train, TrainFlags(v.train, w.validationStart, Some(w.trainStart))) != []
  {
    hide SameKeys, HorizonCovered, Selected, Pick, TrainFlags;
  }

  /** The training view serves both the loop and the batch. */
  lemma {:induction false} TrainReady(labels: seq<LabelRow>, w: FoldWindow, v: Views)
    requires AreViews(labels, w, v) && Validated(labels)
    ensures SameKeys(v) && CutInTime(v, w) && KeysOf(v.train) == KeysOf(labels)
    ensures NoRepeats(KeysOf(v.train)) && forall i :: 0 <= i < |v.train| ==> ValidRow(v.train[i])
    ensures forall i :: 0 <= i < |v.train| ==> v.train[i].cutoff == MarketTime(w.validationStart, 0)
  {
    hide ValidRow, GroupValid;
  }

  lemma {:induction false} FoldIs(labels: seq<LabelRow>, w: FoldWindow, v: Views, f: PreparedFold)
    requires AreViews(labels, w, v) && f.selection == Selected(v, w, |v.train|) && ValidBatch(f.train)
    requires f.train.rows == Pick(v.train, TrainFlags(v.train, w.validationStart, Some(w.trainStart)))
    requires f.selection.validation != [] && f.selection.test != [] && f.train.validationStart == w.validationStart
    ensures IsFold(f, v, w)
  {
    EvaluationValid(v, w, Validation);
    EvaluationValid(v, w, Test);
    WholeSelection(v, w);
    hide Validated, ValidBatch, Selected, CutInTime, SameKeys, Fates, KeptFlags, TrainFlags;
  }
}
