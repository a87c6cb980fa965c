/** What a prepared fold holds, in the dates of its window and the labels it was given. */
module FoldMeaning {
  import opened Prelude
  import opened Clock
  import opened Labels
  import opened Vectors

  datatype FoldWindow = FoldWindow(
    trainStart: Session, validationStart: Session, validationEnd: Session, testStart: Session, testEnd: Session)

  datatype TrainingBatch = TrainingBatch(
    rows: seq<LabelRow>, weights: seq<real>, validationStart: Session)

  datatype Selection = Selection(
    validation: seq<LabelRow>, test: seq<LabelRow>, purgedTrain: seq<Key>, purgedValidation: seq<Key>,
    purgedTest: seq<Key>, unavailable: seq<Key>)

  datatype PreparedFold = PreparedFold(train: TrainingBatch, selection: Selection)

  // ---- the labels at a cutoff

  /** The return of a label was known, and its horizon over, before a cutoff. */
  predicate KnownAt(y: LabelRow, cutoff: Time)
  {
    && y.rawReturn.Some? && y.end.Some? && y.end.value < SessionOf(cutoff)
    && y.outcomeAt.Some? && y.outcomeAt.value < cutoff
  }

  /** A label as it stood at a cutoff. */
  ghost predicate AsOf(r: LabelRow, y: LabelRow, cutoff: Time)
  {
    && r.key == y.key && r.entry == y.entry && r.end == y.end && r.cutoff == cutoff
    && r.rawReturn == (if KnownAt(y, cutoff) then y.rawReturn else None)
    && r.outcomeAt == (if KnownAt(y, cutoff) then y.outcomeAt else None)
    && (r.interval.Some? <==> KnownAt(y, cutoff))
  }

  /** All labels as they stood at a cutoff, ranked in their full pools. */
  ghost predicate IsView(view: seq<LabelRow>, labels: seq<LabelRow>, cutoff: Time)
  {
    && |view| == |labels| && Validated(view)
    && forall i :: 0 <= i < |view| ==> AsOf(view[i], labels[i], cutoff)
  }

  /** The test view: the labels at the evaluation cutoff, or as they are. */
  ghost predicate IsTestView(view: seq<LabelRow>, labels: seq<LabelRow>, evaluation: Option<Time>)
  {
    if evaluation.Some? then IsView(view, labels, evaluation.value) else view == labels
  }

  /** The validation cutoff: the start of the test split, or earlier where the test view itself knows less. */
  ghost predicate IsValidationCutoff(c: Time, w: FoldWindow, test: seq<LabelRow>)
  {
    && c <= MarketTime(w.testStart, 0) && (forall i :: 0 <= i < |test| ==> c <= test[i].cutoff)
    && (c == MarketTime(w.testStart, 0) || exists i :: 0 <= i < |test| && c == test[i].cutoff)
  }

  // ---- where a row belongs

  predicate InTrain(y: LabelRow, w: FoldWindow) { w.trainStart <= SessionOf(y.key.asOf) < w.validationStart }

  predicate InValidation(y: LabelRow, w: FoldWindow)
  {
    w.validationStart <= SessionOf(y.key.asOf) <= w.validationEnd
  }

  predicate InTest(y: LabelRow, w: FoldWindow) { w.testStart <= SessionOf(y.key.asOf) <= w.testEnd }

  /** The horizon is over before a day. */
  predicate EndsBefore(y: LabelRow, day: Session) { y.end.Some? && y.end.value < day }

  /** out is what s holds at the chosen places, in order. */
  ghost predicate Chosen<T(!new)>(out: seq<T>, s: seq<T>, chosen: nat -> bool)
  {
    exists places: seq<nat> ::
      && |places| == |out| && (forall a, b :: 0 <= a < b < |places| ==> places[a] < places[b])
      && (forall a :: 0 <= a < |places| ==> places[a] < |s| && out[a] == s[places[a]])
      && forall i: nat :: i < |s| && chosen(i) <==> i in places
  }

  /** Trained on: scored in the training range, with its horizon over and its return known before validation. */
  function Trained(v: seq<LabelRow>, w: FoldWindow): nat -> bool
  {
    (i: nat) => i < |v| && InTrain(v[i], w) && EndsBefore(v[i], w.validationStart) && v[i].interval.Some?
  }

  function PurgedFromTrain(v: seq<LabelRow>, w: FoldWindow): nat -> bool
  {
    (i: nat) => i < |v| && InTrain(v[i], w) && !EndsBefore(v[i], w.validationStart)
  }

  /** Validated on, known or not: scored in the validation range, over before the test and before its view's cutoff. */
  function ValidatedOn(v: seq<LabelRow>, w: FoldWindow): nat -> bool
  {
    (i: nat) => i < |v| && InValidation(v[i], w) && EndsBefore(v[i], w.testStart)
                && EndsBefore(v[i], SessionOf(v[i].cutoff))
  }

  function PurgedFromValidation(v: seq<LabelRow>, w: FoldWindow): nat -> bool
  {
    (i: nat) => i < |v| && InValidation(v[i], w)
                && !(EndsBefore(v[i], w.testStart) && EndsBefore(v[i], SessionOf(v[i].cutoff)))
  }

  /** Tested on, known or not: scored in the test range and over before its view's cutoff. */
  function Tested(v: seq<LabelRow>, w: FoldWindow): nat -> bool
  {
    (i: nat) => i < |v| && InTest(v[i], w) && EndsBefore(v[i], SessionOf(v[i].cutoff))
  }

  function PurgedFromTest(v: seq<LabelRow>, w: FoldWindow): nat -> bool
  {
    (i: nat) => i < |v| && InTest(v[i], w) && !EndsBefore(v[i], SessionOf(v[i].cutoff))
  }

  /** Not purged, but without a known return in the view of its own split. */
  function Unknown(train: seq<LabelRow>, validation: seq<LabelRow>, test: seq<LabelRow>, w: FoldWindow): nat -> bool
  {
    (i: nat) =>
      || (i < |train| && InTrain(train[i], w) && EndsBefore(train[i], w.validationStart) && train[i].interval.None?)
      || (ValidatedOn(validation, w)(i) && validation[i].interval.None?)
      || (Tested(test, w)(i) && test[i].interval.None?)
  }

  /** Every row scored inside the window has its horizon on the calendar. */
  ghost predicate HorizonsKnown(labels: seq<LabelRow>, w: FoldWindow)
  {
    forall i :: 0 <= i < |labels| && (InTrain(labels[i], w) || InValidation(labels[i], w) || InTest(labels[i], w)) ==>
      labels[i].end.Some?
  }

  /** The places of one scoring time. */
  ghost function PlacesAt(rows: seq<LabelRow>, asOf: Time): set<nat>
  {
    set j: nat | j < |rows| && rows[j].key.asOf == asOf
  }

  /** Every row of the batch weighs one over the number of rows at its scoring time. */
  ghost predicate EvenWeights(b: TrainingBatch)
  {
    && |b.weights| == |b.rows|
    && forall i :: 0 <= i < |b.rows| ==>
         Times(b.weights[i], |PlacesAt(b.rows, b.rows[i].key.asOf)| as real) == 1.0
  }

  /** The lists of a fold over its three views. */
  ghost predicate Routed(f: PreparedFold, train: seq<LabelRow>, validation: seq<LabelRow>, test: seq<LabelRow>,
                         w: FoldWindow)
  {
    var keys, s := KeysOf(train), f.selection;
    && Chosen(f.train.rows, train, Trained(train, w)) && EvenWeights(f.train)
    && f.train.validationStart == w.validationStart
    && Chosen(s.purgedTrain, keys, PurgedFromTrain(train, w))
    && Chosen(s.validation, validation, ValidatedOn(validation, w))
    && Chosen(s.purgedValidation, keys, PurgedFromValidation(validation, w))
    && Chosen(s.test, test, Tested(test, w)) && Chosen(s.purgedTest, keys, PurgedFromTest(test, w))
    && Chosen(s.unavailable, keys, Unknown(train, validation, test, w))
  }

  /** The three views of the labels. */
  ghost predicate AreTheViews(labels: seq<LabelRow>, w: FoldWindow, evaluation: Option<Time>, train: seq<LabelRow>,
                              validation: seq<LabelRow>, test: seq<LabelRow>)
  {
    && IsView(train, labels, MarketTime(w.validationStart, 0)) && IsTestView(test, labels, evaluation)
    && exists c: Time :: IsValidationCutoff(c, w, test) && IsView(validation, labels, c)
  }

  /** A fold is what its window's dates make of the labels. */
  ghost predicate Holds(f: PreparedFold, labels: seq<LabelRow>, w: FoldWindow, evaluation: Option<Time>)
  {
    exists train: seq<LabelRow>, validation: seq<LabelRow>, test: seq<LabelRow> ::
      AreTheViews(labels, w, evaluation, train, validation, test) && Routed(f, train, validation, test, w)
  }

  /** The inputs a fold can be prepared from. */
  ghost predicate FoldAllowed(labels: seq<LabelRow>, w: FoldWindow, synthetic: bool, evaluation: Option<Time>)
  {
    // a real fold is evaluated at midnight of 2024-01-01 or of 2026-04-01
    && (synthetic || evaluation == Some(MarketTime(738886, 0)) || evaluation == Some(MarketTime(739707, 0)))
    && (forall i :: 0 <= i < |labels| ==>
          && MarketTime(w.validationStart, 0) <= labels[i].cutoff
          && (evaluation.Some? ==> evaluation.value <= labels[i].cutoff))
    && HorizonsKnown(labels, w)
    && (exists i :: 0 <= i < |labels| && InTrain(labels[i], w) && EndsBefore(labels[i], w.validationStart)
                    && KnownAt(labels[i], MarketTime(w.validationStart, 0)))
    && (exists i :: 0 <= i < |labels| && InValidation(labels[i], w) && EndsBefore(labels[i], w.testStart)
                    && EndsInView(labels[i], labels, evaluation))
    && (exists i :: 0 <= i < |labels| && InTest(labels[i], w)
                    && EndsBefore(labels[i],
                                  SessionOf(if evaluation.Some? then evaluation.value else labels[i].cutoff)))
  }

  /** The horizon is over by the evaluation cutoff, or by every cutoff the labels have. */
  predicate EndsInView(y: LabelRow, labels: seq<LabelRow>, evaluation: Option<Time>)
  {
    if evaluation.Some? then EndsBefore(y, SessionOf(evaluation.value))
    else forall j :: 0 <= j < |labels| ==> EndsBefore(y, SessionOf(labels[j].cutoff))
  }
}
