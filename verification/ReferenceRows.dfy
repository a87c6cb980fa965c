/** One decision of the reference table: the complete row it makes, or why it makes none. */
module ReferenceRows {
  import opened Prelude
  import opened Clock
  import opened Vectors
  import opened OutcomePrices
  import opened OutcomeMeaning

  const STREAK_NEEDED: nat := 61

  /** What the source remembers of a security's last accepted row. */
  datatype Anchored = Anchored(ordinal: int, close: real, factor: real, chainStart: Session, streak: nat)

  /** One reconciled security of the day's table: refused before its numbers are read, or its numbers. */
  datatype Quote =
    | Refused(reason: string)
    | Quote(open: real, high: real, low: real, close: real, preclose: real, volume: real, amount: real, traded: bool)

  datatype Row = Row(feature: Feature, returnOpen: real, returnClose: real, factor: real, chainStart: Session,
                     streak: nat, eligible: bool)

  predicate Continuous(previous: Option<Anchored>, ordinal: int)
  {
    previous.Some? && previous.value.ordinal == ordinal - 1
  }

  function FeatureOf(security: int, session: Session, q: Quote): Feature
    requires q.Quote?
  {
    Feature(Bar(security, session, MarketTime(session, 21),
                q.open, q.high, q.low, q.close, q.volume, q.amount, q.traded),
            q.preclose)
  }

  function FactorFrom(previous: Option<Anchored>, ordinal: int, preclose: real): real
    requires preclose != 0.0
  {
    if Continuous(previous, ordinal) then previous.value.factor * previous.value.close / preclose else 1.0
  }

  /** One row of a day: a complete row, or the issue that breaks the chain. */
  function Normalize(security: int, session: Session, ordinal: int, q: Quote, previous: Option<Anchored>): Result<Row>
  {
    if q.Refused? then Err(q.reason)
    else
      var f := FeatureOf(security, session, q);
      var continuous := Continuous(previous, ordinal);
      if q.preclose <= 0.0 then Err("PRECLOSE_INVALID")
      else if continuous && !q.traded && !Near(previous.value.close, q.preclose)
              && !(q.volume == 0.0 && q.amount == 0.0 && Coherent(f)) then
        Err("SUSPENDED_REFERENCE_CHANGE_UNRESOLVED")
      else
        var factor := FactorFrom(previous, ordinal, q.preclose);
        if !ValidBar(f.bar) || q.open * factor <= 0.0 || q.close * factor <= 0.0 then Err("BAR_INVALID")
        else if !q.traded && !(q.volume == 0.0 && q.amount == 0.0) then Err("SUSPENDED_ACTIVITY_UNRESOLVED")
        else if !q.traded && !Flat(f.bar) then Err("SUSPENDED_RANGE_UNRESOLVED")
        else
          var streak := if continuous then previous.value.streak + 1 else 1;
          Ok(Row(f, q.open * factor, q.close * factor, factor,
                 if continuous then previous.value.chainStart else session,
                 streak, streak >= STREAK_NEEDED && Active(f.bar)))
  }

  function AnchorOf(ordinal: int, r: Row): Anchored
  {
    Anchored(ordinal, r.feature.bar.close, r.factor, r.chainStart, r.streak)
  }

  /** What is remembered of the security after the row: nothing after an issue. */
  function AnchorAfter(ordinal: int, r: Result<Row>): Option<Anchored>
  {
    match r
    case Ok(row) => Some(AnchorOf(ordinal, row))
    case Err(_) => None
  }

  // ---- a row and its quote

  /** What an accepted row is. */
  ghost predicate RowSound(r: Row, security: int, session: Session, previous: Option<Anchored>, ordinal: int)
  {
    && ValidBar(r.feature.bar) && r.feature.bar.security == security && r.feature.bar.session == session
    && 0.0 < r.feature.preclose && 0.0 < r.factor
    && r.returnOpen == r.feature.bar.open * r.factor && r.returnClose == r.feature.bar.close * r.factor
    && (!r.feature.bar.tradable ==> r.feature.bar.volume == r.feature.bar.amount == 0.0 && Flat(r.feature.bar))
    && (r.eligible <==> STREAK_NEEDED <= r.streak && Active(r.feature.bar))
    && if Continuous(previous, ordinal) then Continues(r, previous.value) else Begins(r)
  }

  ghost predicate Continues(r: Row, a: Anchored)
  {
    && r.factor * r.feature.preclose == a.factor * a.close && r.chainStart == a.chainStart && r.streak == a.streak + 1
    && (!r.feature.bar.tradable ==> Near(a.close, r.feature.preclose) || Coherent(r.feature))
  }

  predicate Begins(r: Row) { r.factor == 1.0 && r.chainStart == r.feature.bar.session && r.streak == 1 }

  lemma {:induction false} PositiveFactor(price: real, factor: real)
    requires 0.0 < price && 0.0 < price * factor
    ensures 0.0 < factor
  {
    if factor <= 0.0 { NonpositiveProduct(price, factor); }
  }

  lemma {:induction false} NonpositiveProduct(a: real, b: real)
    requires 0.0 < a && b <= 0.0
    ensures a * b <= 0.0
  {
  }

  lemma {:induction false} NormalizeSound(security: int, session: Session, ordinal: int, q: Quote,
                                          previous: Option<Anchored>)
    ensures var r := Normalize(security, session, ordinal, q, previous);
            r.Ok? ==> && RowSound(r.value, security, session, previous, ordinal)
                      && q.Quote? && r.value.feature == FeatureOf(security, session, q)
  {
    hide Near, Coherent, Active, Flat;
    var r := Normalize(security, session, ordinal, q, previous);
    if r.Ok? {
      PositiveFactor(q.open, r.value.factor);
      if Continuous(previous, ordinal) { Divide(previous.value.factor * previous.value.close, q.preclose); }
    }
  }

  /** And every sound row of the quoted numbers is the one produced: nothing else is refused, and nothing else fits. */
  lemma {:induction false} NormalizeComplete(security: int, session: Session, ordinal: int, q: Quote,
                                             previous: Option<Anchored>, r: Row)
    requires RowSound(r, security, session, previous, ordinal) && q.Quote?
          && r.feature == FeatureOf(security, session, q)
    ensures Normalize(security, session, ordinal, q, previous) == Ok(r)
  {
    FactorIs(r, previous, ordinal);
    PlaceIs(r, previous, ordinal);
    PositiveProduct(q.open, r.factor);
    PositiveProduct(q.close, r.factor);
    SameProduct(q.open, FactorFrom(previous, ordinal, q.preclose), r.factor);
    SameProduct(q.close, FactorFrom(previous, ordinal, q.preclose), r.factor);
    Produced(security, session, ordinal, q, previous);
    var n := Normalize(security, session, ordinal, q, previous).value;
    hide Normalize, FactorFrom, Continues, Begins, Coherent, Near, Continuous, ValidBar;
    assert n.returnOpen == r.returnOpen && n.returnClose == r.returnClose && n.eligible == r.eligible;
    assert n.feature == r.feature && n.factor == r.factor && n.chainStart == r.chainStart && n.streak == r.streak;
  }

  lemma {:induction false} SameProduct(x: real, a: real, b: real)
    requires a == b
    ensures x * a == x * b
  {
  }

  /** The row of acceptable numbers. */
  lemma {:induction false} Produced(security: int, session: Session, ordinal: int, q: Quote, previous: Option<Anchored>)
    requires q.Quote? && 0.0 < q.preclose && ValidBar(FeatureOf(security, session, q).bar)
    requires var factor := FactorFrom(previous, ordinal, q.preclose); 0.0 < q.open * factor && 0.0 < q.close * factor
    requires !q.traded ==> q.volume == 0.0 && q.amount == 0.0 && Flat(FeatureOf(security, session, q).bar)
    requires Continuous(previous, ordinal) && !q.traded ==>
               Near(previous.value.close, q.preclose) || Coherent(FeatureOf(security, session, q))
    ensures var continuous, f, factor := Continuous(previous, ordinal), FeatureOf(security, session, q),
            FactorFrom(previous, ordinal, q.preclose);
            var streak := if continuous then previous.value.streak + 1 else 1;
            Normalize(security, session, ordinal, q, previous)
            == Ok(Row(f, q.open * factor, q.close * factor, factor,
                      if continuous then previous.value.chainStart else session,
                      streak, streak >= STREAK_NEEDED && Active(f.bar)))
  {
    hide FactorFrom, Coherent, Near, Continuous, ValidBar, Flat, FeatureOf, Active;
  }

  lemma {:induction false} FactorIs(r: Row, previous: Option<Anchored>, ordinal: int)
    requires 0.0 < r.feature.preclose
    requires if Continuous(previous, ordinal) then Continues(r, previous.value) else Begins(r)
    ensures FactorFrom(previous, ordinal, r.feature.preclose) == r.factor
  {
    if Continuous(previous, ordinal) {
      QuotientIs(r.factor, r.feature.preclose, previous.value.factor * previous.value.close);
    }
  }

  /** Where a sound row stands on its chain, apart from its factor. */
  lemma {:induction false} PlaceIs(r: Row, previous: Option<Anchored>, ordinal: int)
    requires if Continuous(previous, ordinal) then Continues(r, previous.value) else Begins(r)
    ensures Continuous(previous, ordinal) ==>
              && r.chainStart == previous.value.chainStart && r.streak == previous.value.streak + 1
              && (!r.feature.bar.tradable ==> Near(previous.value.close, r.feature.preclose) || Coherent(r.feature))
    ensures !Continuous(previous, ordinal) ==> r.chainStart == r.feature.bar.session && r.streak == 1
  {
    hide Near, Coherent;
  }

  lemma {:induction false} QuotientIs(x: real, y: real, z: real)
    requires y != 0.0 && x * y == z
    ensures z / y == x
  {
  }

  // ---- what is accepted, and what the row is, straight from the quote

  /** The last row was on the ordinal just before. */
  ghost predicate Follows(last: Option<Anchored>, ordinal: int) { last.Some? && last.value.ordinal == ordinal - 1 }

  /**
   * A positive reference price and tradable prices, activity in both fields or in neither, a halt with one price and
   * no activity, and on a continued chain no halted move but a coherent one, and a scale that stays positive.
   */
  ghost predicate QuoteAllowed(q: Quote, ordinal: int, last: Option<Anchored>)
  {
    && q.Quote? && Tradable(Prices(q.open, q.high, q.low, q.close, q.preclose))
    && 0.0 <= q.volume && 0.0 <= q.amount && (q.volume == 0.0 <==> q.amount == 0.0)
    && (!q.traded ==> q.volume == 0.0 && q.amount == 0.0 && q.open == q.high && q.high == q.low && q.low == q.close)
    && (Follows(last, ordinal) ==>
          && 0.0 < Times(last.value.factor, last.value.close)
          && (!q.traded ==> Close(last.value.close, q.preclose) || Close(q.open, q.preclose)))
  }

  /**
   * The quoted numbers on the scale of the last row or a new one; eligible from the sixty-first row on, when traded.
   */
  ghost predicate RowDescribes(r: Row, security: int, session: Session, ordinal: int, q: Quote, last: Option<Anchored>)
    requires q.Quote?
  {
    && r.feature == Feature(Bar(security, session, Evening(session),
                                q.open, q.high, q.low, q.close, q.volume, q.amount, q.traded), q.preclose)
    && r.returnOpen == q.open * r.factor && r.returnClose == q.close * r.factor
    && (r.eligible <==> 61 <= r.streak && q.traded && 0.0 < q.volume && 0.0 < q.amount)
    && if Follows(last, ordinal) then
         && r.factor * q.preclose == last.value.factor * last.value.close
         && r.chainStart == last.value.chainStart && r.streak == last.value.streak + 1
       else r.factor == 1.0 && r.chainStart == session && r.streak == 1
  }

  /** A row is made exactly when the quote is allowed, and it is the one the quote describes. */
  lemma {:induction false} NormalizeIff(security: int, session: Session, ordinal: int, q: Quote, last: Option<Anchored>)
    ensures Normalize(security, session, ordinal, q, last).Ok? <==> QuoteAllowed(q, ordinal, last)
    ensures var r := Normalize(security, session, ordinal, q, last);
            r.Ok? ==> RowDescribes(r.value, security, session, ordinal, q, last)
  {
    NormalizeSound(security, session, ordinal, q, last);
    if q.Quote? && 0.0 < q.preclose {
      ScalePositive(q, ordinal, last);
      NumbersIff(security, session, ordinal, q, last);
      AllowedNumbers(security, session, ordinal, q, last);
    }
    var r := Normalize(security, session, ordinal, q, last);
    if r.Ok? { SoundDescribes(r.value, security, session, ordinal, q, last); }
    hide *;
    if !q.Quote? || q.preclose <= 0.0 { NoPreclose(security, session, ordinal, q, last); }
  }

  lemma {:induction false} NoPreclose(security: int, session: Session, ordinal: int, q: Quote, last: Option<Anchored>)
    requires !q.Quote? || q.preclose <= 0.0
    ensures Normalize(security, session, ordinal, q, last).Err? && !QuoteAllowed(q, ordinal, last)
  {
  }

  lemma {:induction false} SoundDescribes(r: Row, security: int, session: Session, ordinal: int, q: Quote,
                                          last: Option<Anchored>)
    requires q.Quote? && RowSound(r, security, session, last, ordinal) && r.feature == FeatureOf(security, session, q)
    ensures RowDescribes(r, security, session, ordinal, q, last)
  {
    hide Coherent, Near, Flat, ValidBar;
  }

  /** The conditions on the quoted numbers are those of an allowed quote. */
  lemma {:induction false} AllowedNumbers(security: int, session: Session, ordinal: int, q: Quote,
                                          last: Option<Anchored>)
    requires q.Quote? && 0.0 < q.preclose
    ensures var f := FeatureOf(security, session, q);
            && (ValidBar(f.bar) ==> 0.0 < q.open && 0.0 < q.close)
            && (QuoteAllowed(q, ordinal, last)
                <==> && ValidBar(f.bar) && (Follows(last, ordinal) ==> 0.0 < Times(last.value.factor, last.value.close))
                     && (!q.traded ==> q.volume == 0.0 && q.amount == 0.0 && Flat(f.bar))
                     && (Continuous(last, ordinal) && !q.traded ==> Near(last.value.close, q.preclose) || Coherent(f)))
  {
    hide Times;
  }

  /** What the scale must be for both returns to be positive. */
  lemma {:induction false} ScalePositive(q: Quote, ordinal: int, last: Option<Anchored>)
    requires q.Quote? && 0.0 < q.preclose
    ensures 0.0 < q.open && 0.0 < q.close ==>
              var factor := FactorFrom(last, ordinal, q.preclose);
              (0.0 < q.open * factor && 0.0 < q.close * factor
               <==> (Follows(last, ordinal) ==> 0.0 < Times(last.value.factor, last.value.close)))
  {
    var factor := FactorFrom(last, ordinal, q.preclose);
    if 0.0 < q.open && 0.0 < q.close {
      PositiveIff(q.open, factor);
      PositiveIff(q.close, factor);
      if Follows(last, ordinal) { QuotientPositive(Times(last.value.factor, last.value.close), q.preclose); }
    }
  }

  lemma {:induction false} PositiveIff(price: real, factor: real)
    requires 0.0 < price
    ensures 0.0 < price * factor <==> 0.0 < factor
  {
    if 0.0 < factor { PositiveProduct(price, factor); } else { NonpositiveProduct(price, factor); }
  }

  lemma {:induction false} QuotientPositive(a: real, b: real)
    requires 0.0 < b
    ensures 0.0 < a / b <==> 0.0 < a
  {
    Divide(a, b);
    PositiveIff(b, a / b);
    assert a / b * b == b * (a / b);
  }

  lemma {:induction false} NumbersIff(security: int, session: Session, ordinal: int, q: Quote, last: Option<Anchored>)
    requires q.Quote? && 0.0 < q.preclose
    ensures var factor := FactorFrom(last, ordinal, q.preclose);
            Normalize(security, session, ordinal, q, last).Ok?
            <==> && ValidBar(FeatureOf(security, session, q).bar)
                 && 0.0 < q.open * factor && 0.0 < q.close * factor
                 && (!q.traded ==> q.volume == 0.0 && q.amount == 0.0 && Flat(FeatureOf(security, session, q).bar))
                 && (Continuous(last, ordinal) && !q.traded ==>
                       Near(last.value.close, q.preclose) || Coherent(FeatureOf(security, session, q)))
  {
    hide FactorFrom, Coherent, Near, Continuous, ValidBar, Flat, FeatureOf, Active;
  }
}
