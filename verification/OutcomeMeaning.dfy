/** What a day's observation must be to be accepted, and what becomes of it, straight from the raw rows. */
module OutcomeMeaning {
  import opened Prelude
  import opened Clock
  import opened Vectors
  import opened OutcomePrices
  import opened OutcomeChain

  // ---- raw rows

  ghost predicate Says(row: Raw, field: string, text: string) { field in row && row[field] == text }

  ghost predicate Counts(c: Context, row: Raw, field: string, x: real)
  {
    field in row && c.float(row[field]) == Finite(x)
  }

  /** The five price fields read as these numbers. */
  ghost predicate Quotes(c: Context, row: Raw, p: Prices)
  {
    && Counts(c, row, "open", p.open) && Counts(c, row, "high", p.high) && Counts(c, row, "low", p.low)
    && Counts(c, row, "close", p.close) && Counts(c, row, "preclose", p.preclose)
  }

  /** An activity field that is explicitly empty or reads as zero. */
  ghost predicate NoActivity(c: Context, row: Raw, field: string) { Says(row, field, "") || Counts(c, row, field, 0.0) }

  ghost predicate Close(a: real, b: real) { -0.00000001 < a - b < 0.00000001 }

  // ---- what each branch accepts

  /** A complete row of the right security and day; a halt shows no activity, one price, and no unexplained move. */
  ghost predicate FullAllowed(security: int, session: Session, f: Feature, previous: Option<Previous>)
  {
    var bar := f.bar;
    && bar.security == security && bar.session == session && 0.0 < f.preclose
    && (!bar.tradable ==>
          && bar.volume == 0.0 && bar.amount == 0.0 && bar.open == bar.high && bar.high == bar.low
          && bar.low == bar.close
          && (previous.Some? ==> Close(previous.value.close, f.preclose) || Close(bar.open, f.preclose)))
  }

  /**
   * A reported halt, unadjusted and dated today, with one positive price in all five fields, within 1e-8 of the last
   * close, at least one activity field explicitly empty, and no alias with any activity.
   */
  ghost predicate SparseAllowed(c: Context, session: Session, d: Decision, previous: Option<Previous>)
  {
    && previous.Some? && d.conflicting == [] && d.selected.Some? && d.selected.value in c.raw
    && var row := c.raw[d.selected.value];
       && Says(row, "date", c.iso(session)) && Says(row, "adjustflag", "3") && Says(row, "tradestatus", "0")
       && (Says(row, "volume", "") || Says(row, "amount", ""))
       && (forall k :: 0 <= k < |d.providers| ==>
             && d.providers[k] in c.raw
             && NoActivity(c, c.raw[d.providers[k]], "volume") && NoActivity(c, c.raw[d.providers[k]], "amount"))
       && exists price: real ::
            Quotes(c, row, Prices(price, price, price, price, price)) && 0.0 < price
              && Close(price, previous.value.close)
  }

  /** The fields in which all aliases must agree, none of them empty. */
  predicate Projected(field: string)
  {
    || field == "date" || field == "open" || field == "high" || field == "low" || field == "close"
    || field == "preclose" || field == "volume" || field == "tradestatus" || field == "adjustflag"
    || field == "pctChg" || field == "isST"
  }

  ghost predicate Above(n: Number) { n.Finite? && 0.0 < n.value }

  /** One alias of a consensus: of this security, under its own code, like the first alias, and trading. */
  ghost predicate AliasAllowed(c: Context, security: int, symbol: string, first: Raw)
  {
    && c.securityOf(symbol) == security && symbol in c.raw
    && var row := c.raw[symbol];
       && Says(row, "code", c.providerCode(symbol))
       && (forall field :: Projected(field) ==>
             field in row && row[field] != "" && field in first && row[field] == first[field])
       && "amount" in row && Above(c.decimal(row["amount"])) && Above(c.float(row["amount"]))
  }

  /** Two aliases or more that conflict in the amount alone, all trading, on one acceptable projected row. */
  ghost predicate ConsensusAllowed(c: Context, security: int, session: Session, d: Decision)
  {
    && security in c.mappedIds && d.mapped && d.conflicting == ["amount"] && d.incomplete == [] && 2 <= |d.providers|
    && d.providers[0] in c.raw
    && var first := c.raw[d.providers[0]];
       && (forall k :: 0 <= k < |d.providers| ==> AliasAllowed(c, security, d.providers[k], first))
       && TradedRow(c, session, first)
  }

  /** An unadjusted row of a session that traded, with a positive volume and tradable prices. */
  ghost predicate TradedRow(c: Context, session: Session, row: Raw)
  {
    && Says(row, "date", c.iso(session)) && Says(row, "tradestatus", "1") && Says(row, "adjustflag", "3")
    && (Says(row, "isST", "0") || Says(row, "isST", "1"))
    && "volume" in row && Above(c.decimal(row["volume"])) && Above(c.float(row["volume"]))
    && "pctChg" in row && c.decimal(row["pctChg"]).Finite?
    && exists p: Prices :: Quotes(c, row, p) && Tradable(p)
  }

  /** Positive prices with the open and the close between the low and the high. */
  ghost predicate Tradable(p: Prices)
  {
    && 0.0 < p.open && 0.0 < p.high && 0.0 < p.low && 0.0 < p.close && 0.0 < p.preclose
    && p.low <= p.open <= p.high && p.low <= p.close <= p.high
  }

  /** An identity conflict in nothing but the amount, without a complete row. */
  ghost predicate AmountConflict(x: Seen)
  {
    x.feature.None? && x.original.Some? && x.original.value.mapped && x.original.value.conflicting == ["amount"]
  }

  /** Exactly the observations that become a record. */
  ghost predicate Allowed(c: Context, security: int, session: Session, x: Seen, previous: Option<Previous>)
  {
    if AmountConflict(x) then
      && (forall reason :: reason in x.reasons ==> reason == "IDENTITY_QUOTE_CONFLICT:amount")
      && ConsensusAllowed(c, security, session, x.original.value)
    else
      && (x.original.Some? ==> x.original.value.conflicting == [])
      && (forall reason :: reason in x.reasons ==>
            reason == "RAW_NUMERIC_INVALID" || reason == "IDENTITY_NO_COMPLETE_QUOTE")
      && if x.feature.Some? then FullAllowed(security, session, x.feature.value, previous)
         else x.decision.Some? && SparseAllowed(c, session, x.decision.value, previous)
  }

  // ---- what the record then is

  /** The record's place: on the anchor's scale and chain and no earlier than it, or at the start of a chain. */
  ghost predicate Placed(r: Record, previous: Option<Previous>, available: Time)
  {
    && r.returnOpen == r.prices.open * r.factor && r.returnClose == r.prices.close * r.factor
    && r.confirmationAt.None?
    && match previous
       case None => r.factor == 1.0 && r.chainStart == r.session && r.availableAt == available
       case Some(b) =>
         && r.factor * r.prices.preclose == b.factor * b.close && r.chainStart == b.chainStart
         && r.availableAt == if available <= b.availableAt then b.availableAt else available
  }

  /** Nine in the evening of a session. */
  ghost function Evening(session: Session): Time { session * 86400 + 75600 }

  ghost predicate Describes(b: Built, c: Context, security: int, session: Session, x: Seen, previous: Option<Previous>)
  {
    var r := b.record;
    && r.security == security && r.session == session
    && if x.feature.Some? then
         var f := x.feature.value;
         && Placed(r, previous, f.bar.availableAt)
         && r.prices == Prices(f.bar.open, f.bar.high, f.bar.low, f.bar.close, f.preclose) && !r.priceOnly
         && (b.confirms <==> f.bar.tradable && 0.0 < f.bar.volume && 0.0 < f.bar.amount)
         && b.confirmation == f.bar.availableAt
       else if AmountConflict(x) then
         && Placed(r, previous, Evening(session)) && !r.priceOnly
         && (forall k :: 0 <= k < |x.original.value.providers| ==>
               x.original.value.providers[k] in c.raw && Quotes(c, c.raw[x.original.value.providers[k]], r.prices))
         && b.confirms && b.confirmation == r.availableAt
       else
         && Placed(r, previous, Evening(session)) && r.priceOnly && !b.confirms
         && x.decision.Some? && x.decision.value.selected.Some? && x.decision.value.selected.value in c.raw
         && Quotes(c, c.raw[x.decision.value.selected.value], r.prices)
  }

  /** A record a chain may build on. */
  ghost predicate SoundAnchor(anchor: Option<Previous>, session: Session)
  {
    anchor.Some? ==> 0.0 < anchor.value.factor && 0.0 < anchor.value.close && anchor.value.chainStart <= session
  }

  // ---- reading prices

  lemma {:induction false} PricesRead(c: Context, row: Raw)
    ensures PricesIn(c, row).Some? ==> Quotes(c, row, PricesIn(c, row).value) && AllReadable(c, row)
    ensures forall p :: Quotes(c, row, p) ==> PricesIn(c, row) == Some(p)
  {
    assert PRICE_FIELDS == ["open", "high", "low", "close", "preclose"];
    forall p | Quotes(c, row, p) ensures PricesIn(c, row) == Some(p) {
      assert forall i :: 0 <= i < |PRICE_FIELDS| ==> FloatOf(c, row, PRICE_FIELDS[i]).Finite?;
    }
  }

  // ---- making the record

  lemma {:induction false} PositiveQuotient(a: real, b: real, c: real)
    requires 0.0 < a && 0.0 < b && 0.0 < c
    ensures 0.0 < a * b / c
  {
    PositiveProduct(a, b);
  }

  /** Tradable prices on a sound anchor always make a record. */
  lemma {:induction false} MakesRecord(security: int, session: Session, p: Prices, previous: Option<Previous>,
                                       available: Time, priceOnly: bool)
    requires SoundAnchor(previous, session) && MarketTime(session, 15) <= available
    ensures MakeRecord(security, session, p, previous, available, priceOnly).Ok? <==> Tradable(p)
    ensures var m := MakeRecord(security, session, p, previous, available, priceOnly);
            m.Ok? ==> Placed(m.value, previous, available) && m.value.security == security
                      && m.value.session == session && m.value.prices == p && m.value.priceOnly == priceOnly
  {
    MakeRecordLinks(security, session, p, previous, available, priceOnly);
    if Tradable(p) {
      var factor := if previous.Some? then Factor(previous, p.preclose) else 1.0;
      if previous.Some? { PositiveQuotient(previous.value.factor, previous.value.close, p.preclose); }
      assert 0.0 < factor;
      PositiveProduct(p.open, factor);
      PositiveProduct(p.close, factor);
    }
  }

  // ---- the branches accept exactly that

  lemma {:induction false} FullIff(security: int, session: Session, f: Feature, previous: Option<Previous>)
    requires ValidBar(f.bar) && SoundAnchor(previous, session)
    ensures Full(security, session, f, previous).Ok? <==> FullAllowed(security, session, f, previous)
    ensures var b := Full(security, session, f, previous);
            b.Ok? ==> && Placed(b.value.record, previous, f.bar.availableAt) && b.value.record.prices == PricesOf(f)
                      && b.value.record.security == security && b.value.record.session == session
                      && !b.value.record.priceOnly && b.value.confirmation == f.bar.availableAt
                      && (b.value.confirms <==> f.bar.tradable && 0.0 < f.bar.volume && 0.0 < f.bar.amount)
  {
    if f.bar.session == session {
      MakesRecord(security, session, PricesOf(f), previous, f.bar.availableAt, false);
    }
    hide MakeRecord, Placed;
  }

  lemma {:induction false} QuietIff(c: Context, providers: seq<string>)
    ensures ProvidersProblem(c, providers).None?
       <==> forall k :: 0 <= k < |providers| ==>
              && providers[k] in c.raw
              && NoActivity(c, c.raw[providers[k]], "volume") && NoActivity(c, c.raw[providers[k]], "amount")
  {
    if providers != [] {
      var n := |providers| - 1;
      QuietIff(c, providers[..n]);
      if providers[n] in c.raw { AliasQuietIff(c, c.raw[providers[n]]); }
      hide NoActivity, ActivityProblem;
      assert forall k :: 0 <= k < n ==> providers[..n][k] == providers[k];
    }
  }

  lemma {:induction false} AliasQuietIff(c: Context, row: Raw)
    ensures ActivityProblem(c, row).None? <==> NoActivity(c, row, "volume") && NoActivity(c, row, "amount")
  {
  }

  lemma {:induction false} SparsePrices(c: Context, row: Raw, close: real)
    ensures (exists price: real ::
               Quotes(c, row, Prices(price, price, price, price, price)) && 0.0 < price && Close(price, close))
       <==> && PricesIn(c, row).Some? && AllReadable(c, row)
            && var p := PricesIn(c, row).value;
               PositivePrices(p) && p.open == p.high == p.low == p.close == p.preclose && Near(p.preclose, close)
  {
    PricesRead(c, row);
    hide Quotes, PricesIn, AllReadable;
    if PricesIn(c, row).Some? {
      var p := PricesIn(c, row).value;
      if PositivePrices(p) && p.open == p.high == p.low == p.close == p.preclose && Near(p.preclose, close) {
        assert Quotes(c, row, Prices(p.open, p.open, p.open, p.open, p.open));
      }
    }
  }

  lemma {:induction false} SparseIff(c: Context, security: int, session: Session, d: Decision,
                                     previous: Option<Previous>)
    requires SoundAnchor(previous, session)
    ensures Sparse(c, security, session, d, previous).Ok? <==> SparseAllowed(c, session, d, previous)
    ensures var b := Sparse(c, security, session, d, previous);
            b.Ok? ==> && Placed(b.value.record, previous, Evening(session)) && b.value.record.priceOnly
                      && !b.value.confirms
                      && b.value.record.security == security && b.value.record.session == session
                      && d.selected.Some? && d.selected.value in c.raw
                      && Quotes(c, c.raw[d.selected.value], b.value.record.prices)
  {
    if previous.Some? && d.selected.Some? && d.selected.value in c.raw {
      var row := c.raw[d.selected.value];
      QuietIff(c, d.providers);
      SparsePrices(c, row, previous.value.close);
      PricesRead(c, row);
      if PricesIn(c, row).Some? {
        MakesRecord(security, session, PricesIn(c, row).value, previous, MarketTime(session, 21), true);
      }
      hide ProvidersProblem, NoActivity, Quotes, PricesIn, AllReadable, MakeRecord, Placed, Close;
    }
  }

  lemma {:induction false} ProjectedFields(field: string)
    ensures Projected(field) <==> exists i :: 0 <= i < |CONSENSUS_FIELDS| && CONSENSUS_FIELDS[i] == field
  {
    assert CONSENSUS_FIELDS == ["date", "open", "high", "low", "close", "preclose", "volume", "tradestatus",
                                "adjustflag", "pctChg", "isST"];
    if Projected(field) {
      var i := if field == "date" then 0 else if field == "open" then 1 else if field == "high" then 2
               else if field == "low" then 3 else if field == "close" then 4 else if field == "preclose" then 5
               else if field == "volume" then 6 else if field == "tradestatus" then 7
               else if field == "adjustflag" then 8 else if field == "pctChg" then 9 else 10;
      assert CONSENSUS_FIELDS[i] == field;
    }
  }

  lemma {:induction false} AllProjected(row: Raw, first: Raw)
    ensures (forall field :: Projected(field) ==>
               field in row && row[field] != "" && field in first && row[field] == first[field])
       <==> && SameProjection(first, row)
            && forall i :: 0 <= i < |CONSENSUS_FIELDS| ==> CONSENSUS_FIELDS[i] in row && row[CONSENSUS_FIELDS[i]] != ""
  {
    forall field ensures Projected(field) <==> exists i :: 0 <= i < |CONSENSUS_FIELDS| && CONSENSUS_FIELDS[i] == field {
      ProjectedFields(field);
    }
    hide Projected;
  }

  lemma {:induction false} AliasIff(c: Context, security: int, symbol: string, first: Raw)
    ensures AliasAllowed(c, security, symbol, first)
       <==> && AliasProblem(c, security, symbol).None? && symbol in c.raw && SameProjection(first, c.raw[symbol])
            && PositiveNumber(AmountOf(c, c.raw[symbol], false)) && PositiveNumber(AmountOf(c, c.raw[symbol], true))
  {
    if symbol in c.raw { AllProjected(c.raw[symbol], first); }
    hide Projected, SameProjection;
  }

  lemma {:induction false} AliasesIff(c: Context, security: int, symbols: seq<string>)
    ensures AliasesProblem(c, security, symbols).None?
       <==> forall k :: 0 <= k < |symbols| ==> AliasProblem(c, security, symbols[k]).None?
  {
    hide AliasProblem;
    if symbols != [] {
      var n := |symbols| - 1;
      AliasesIff(c, security, symbols[..n]);
      assert forall k :: 0 <= k < n ==> symbols[..n][k] == symbols[k];
    }
  }

  /** All aliases pass, agree with the first and trade, exactly when each of them is allowed. */
  lemma {:induction false} AllAliasesIff(c: Context, security: int, symbols: seq<string>)
    requires symbols != [] && symbols[0] in c.raw
    ensures (forall k :: 0 <= k < |symbols| ==> AliasAllowed(c, security, symbols[k], c.raw[symbols[0]]))
       <==> && AliasesProblem(c, security, symbols).None? && (forall k :: 0 <= k < |symbols| ==> symbols[k] in c.raw)
            && Agreeing(c, symbols) && AmountsPositive(c, symbols, false) && AmountsPositive(c, symbols, true)
  {
    hide AliasAllowed, AliasProblem, SameProjection, AmountOf, AliasesProblem;
    AliasesIff(c, security, symbols);
    forall k | 0 <= k < |symbols|
      ensures AliasAllowed(c, security, symbols[k], c.raw[symbols[0]])
         <==> && AliasProblem(c, security, symbols[k]).None? && symbols[k] in c.raw
              && SameProjection(c.raw[symbols[0]], c.raw[symbols[k]])
              && PositiveNumber(AmountOf(c, c.raw[symbols[k]], false))
              && PositiveNumber(AmountOf(c, c.raw[symbols[k]], true)) {
      AliasIff(c, security, symbols[k], c.raw[symbols[0]]);
    }
  }

  /** The row the consensus stands on: dated, trading, unadjusted, with positive volume and tradable prices. */
  ghost predicate RowAllowed(c: Context, session: Session, first: Raw)
  {
    && Says(first, "date", c.iso(session)) && Says(first, "tradestatus", "1") && Says(first, "adjustflag", "3")
    && (Says(first, "isST", "0") || Says(first, "isST", "1"))
    && PositiveNumber(DecimalOf(c, first, "volume")) && DecimalOf(c, first, "pctChg").Finite?
    && PositiveNumber(FloatOf(c, first, "volume")) && PricesIn(c, first).Some? && Tradable(PricesIn(c, first).value)
  }

  /** What a consensus record is: the row's prices, in its place, and confirming. */
  ghost predicate FromRow(b: Built, c: Context, security: int, session: Session, first: Raw, previous: Option<Previous>)
  {
    && PricesIn(c, first) == Some(b.record.prices) && Placed(b.record, previous, Evening(session))
    && !b.record.priceOnly && b.record.security == security && b.record.session == session
    && b.confirms && b.confirmation == b.record.availableAt
  }

  lemma {:induction false} RowBranches(c: Context, security: int, session: Session, symbols: seq<string>,
                                       previous: Option<Previous>)
    requires SoundAnchor(previous, session) && symbols != []
    requires forall k :: 0 <= k < |symbols| ==> symbols[k] in c.raw
    ensures ConsensusRow(c, security, session, symbols, previous).Ok?
       <==> && AmountsPositive(c, symbols, false) && AmountsPositive(c, symbols, true)
            && RowAllowed(c, session, c.raw[symbols[0]])
    ensures var b := ConsensusRow(c, security, session, symbols, previous);
            b.Ok? ==> FromRow(b.value, c, security, session, c.raw[symbols[0]], previous)
  {
    hide PricesIn, DecimalOf, FloatOf, MakeRecord, Placed, Tradable, AmountOf, SoundAnchor, PositiveNumber;
    var first := c.raw[symbols[0]];
    PositiveReads(c, symbols, false);
    PositiveReads(c, symbols, true);
    assert PositiveNumber(DecimalOf(c, first, "volume")) ==> DecimalOf(c, first, "volume") != Unreadable by {
      PositiveRead(DecimalOf(c, first, "volume"));
    }
    assert PositiveNumber(FloatOf(c, first, "volume")) ==> FloatOf(c, first, "volume") != Unreadable by {
      PositiveRead(FloatOf(c, first, "volume"));
    }
    hide AmountsPositive, AmountsReadable;
    if PricesIn(c, first).Some? {
      MakesRecord(security, session, PricesIn(c, first).value, previous, MarketTime(session, 21), false);
    }
  }

  lemma {:induction false} PositiveRead(n: Number)
    ensures PositiveNumber(n) ==> n != Unreadable
  {
  }

  lemma {:induction false} PositiveReads(c: Context, symbols: seq<string>, native: bool)
    requires forall k :: 0 <= k < |symbols| ==> symbols[k] in c.raw
    ensures AmountsPositive(c, symbols, native) ==> AmountsReadable(c, symbols, native)
  {
    hide AmountOf;
  }

  lemma {:induction false} ConsensusBranches(c: Context, security: int, session: Session, d: Decision,
                                             previous: Option<Previous>)
    requires SoundAnchor(previous, session)
    ensures Consensus(c, security, session, d, previous).Ok?
       <==> && security in c.mappedIds && d.mapped && d.conflicting == ["amount"] && d.incomplete == []
            && 2 <= |d.providers| && AliasesProblem(c, security, d.providers).None?
            && (forall k :: 0 <= k < |d.providers| ==> d.providers[k] in c.raw)
            && Agreeing(c, d.providers) && AmountsPositive(c, d.providers, false)
            && AmountsPositive(c, d.providers, true) && RowAllowed(c, session, c.raw[d.providers[0]])
    ensures var b := Consensus(c, security, session, d, previous);
            b.Ok? ==> && d.providers != [] && d.providers[0] in c.raw
                      && FromRow(b.value, c, security, session, c.raw[d.providers[0]], previous)
  {
    hide ConsensusRow, FromRow, RowAllowed, AmountsPositive, SameProjection, Agreeing, AliasesProblem, SoundAnchor;
    if 2 <= |d.providers| && AliasesProblem(c, security, d.providers).None? {
      AliasesHaveFields(c, security, d.providers);
      RowBranches(c, security, session, d.providers, previous);
    }
  }

  lemma {:induction false} RowIff(c: Context, session: Session, first: Raw)
    ensures RowAllowed(c, session, first) <==> TradedRow(c, session, first)
  {
    PricesRead(c, first);
    hide Quotes, PricesIn, Tradable;
  }

  lemma {:induction false} ConsensusIff(c: Context, security: int, session: Session, d: Decision,
                                        previous: Option<Previous>)
    requires SoundAnchor(previous, session)
    ensures Consensus(c, security, session, d, previous).Ok? <==> ConsensusAllowed(c, security, session, d)
  {
    ConsensusBranches(c, security, session, d, previous);
    hide Consensus;
    if 2 <= |d.providers| && d.providers[0] in c.raw {
      AllAliasesIff(c, security, d.providers);
      RowIff(c, session, c.raw[d.providers[0]]);
      hide AliasAllowed, AliasesProblem, Agreeing, AmountsPositive, RowAllowed, TradedRow;
    }
  }

  /** Whichever branch a day takes: a record exactly when the observation is allowed, and the one it describes. */
  lemma {:induction false} BuildIff(c: Context, security: int, session: Session, x: Seen, previous: Option<Previous>)
    requires SeenValid(x) && SoundAnchor(previous, session)
    ensures Build(c, security, session, x, previous).Ok? <==> Allowed(c, security, session, x, previous)
    ensures var b := Build(c, security, session, x, previous);
            b.Ok? ==> Describes(b.value, c, security, session, x, previous)
  {
    hide *;
    if AmountConflict(x) {
      ConflictBranch(c, security, session, x, previous);
    } else if x.feature.Some? {
      FullBranch(c, security, session, x, previous);
    } else {
      SparseBranch(c, security, session, x, previous);
    }
  }

  lemma {:induction false} ConflictBranch(c: Context, security: int, session: Session, x: Seen,
                                          previous: Option<Previous>)
    requires SeenValid(x) && SoundAnchor(previous, session) && AmountConflict(x)
    ensures Build(c, security, session, x, previous).Ok? <==> Allowed(c, security, session, x, previous)
    ensures var b := Build(c, security, session, x, previous);
            b.Ok? ==> Describes(b.value, c, security, session, x, previous)
  {
    ReasonsIff(x.reasons);
    ConsensusIff(c, security, session, x.original.value, previous);
    ConsensusDescribes(c, security, session, x, previous);
    hide Consensus, ConsensusAllowed, SoundAnchor, Describes, Full, Sparse, FullAllowed, SparseAllowed;
  }

  lemma {:induction false} FullBranch(c: Context, security: int, session: Session, x: Seen, previous: Option<Previous>)
    requires SeenValid(x) && SoundAnchor(previous, session) && !AmountConflict(x) && x.feature.Some?
    ensures Build(c, security, session, x, previous).Ok? <==> Allowed(c, security, session, x, previous)
    ensures var b := Build(c, security, session, x, previous);
            b.Ok? ==> Describes(b.value, c, security, session, x, previous)
  {
    ReasonsIff(x.reasons);
    FullIff(security, session, x.feature.value, previous);
    hide Full, Sparse, Consensus, Placed, Quotes, FullAllowed, SparseAllowed, ConsensusAllowed, SoundAnchor;
  }

  lemma {:induction false} SparseBranch(c: Context, security: int, session: Session, x: Seen,
                                        previous: Option<Previous>)
    requires SeenValid(x) && SoundAnchor(previous, session) && !AmountConflict(x) && x.feature.None?
    ensures Build(c, security, session, x, previous).Ok? <==> Allowed(c, security, session, x, previous)
    ensures var b := Build(c, security, session, x, previous);
            b.Ok? ==> Describes(b.value, c, security, session, x, previous)
  {
    ReasonsIff(x.reasons);
    if x.decision.Some? { SparseIff(c, security, session, x.decision.value, previous); }
    hide Full, Sparse, Consensus, Placed, Quotes, FullAllowed, SparseAllowed, ConsensusAllowed, SoundAnchor;
  }

  lemma {:induction false} ReasonsIff(reasons: seq<string>)
    ensures (forall reason :: reason in reasons ==> reason == "IDENTITY_QUOTE_CONFLICT:amount")
       <==> !exists i :: 0 <= i < |reasons| && reasons[i] != AMOUNT_CONFLICT
    ensures (forall reason :: reason in reasons ==>
               reason == "RAW_NUMERIC_INVALID" || reason == "IDENTITY_NO_COMPLETE_QUOTE")
       <==> !exists i :: 0 <= i < |reasons| && reasons[i] !in SPARSE_ISSUES
  {
    assert forall i :: 0 <= i < |reasons| ==> reasons[i] in reasons;
  }

  lemma {:induction false} ConsensusDescribes(c: Context, security: int, session: Session, x: Seen,
                                              previous: Option<Previous>)
    requires AmountConflict(x) && SoundAnchor(previous, session)
    ensures var b := Consensus(c, security, session, x.original.value, previous);
            b.Ok? ==> Describes(b.value, c, security, session, x, previous)
  {
    var d := x.original.value;
    var b := Consensus(c, security, session, d, previous);
    ConsensusBranches(c, security, session, d, previous);
    hide Consensus;
    if b.Ok? {
      AliasesAgree(c, security, d.providers);
      hide AliasesProblem, Agreeing, AmountsPositive, RowAllowed, Quotes, PricesIn, Placed;
      forall k | 0 <= k < |d.providers|
        ensures d.providers[k] in c.raw && Quotes(c, c.raw[d.providers[k]], b.value.record.prices) {
        PricesRead(c, c.raw[d.providers[k]]);
      }
    }
  }

  // ---- a day of one security

  /** What an admitted record does to its chain: confirm it, wait with it, or be emitted alone. */
  ghost predicate Admitted(b: Built, ordinal: int, tail: seq<Record>, last: Option<Previous>, rows: seq<Record>,
                           emitted: seq<Record>)
  {
    var r := b.record;
    && last == Some(Previous(ordinal, r.prices.close, r.factor, r.chainStart, r.availableAt))
    && if b.confirms then
         && rows == [] && |emitted| == |tail| + 1 && emitted[|tail|] == r
         && forall i :: 0 <= i < |tail| ==>
              emitted[i] == tail[i].(
                availableAt := if tail[i].availableAt <= r.availableAt then r.availableAt else tail[i].availableAt,
                confirmationAt := Some(b.confirmation))
       else if r.priceOnly || tail != [] then rows == tail + [r] && emitted == []
       else rows == [] && emitted == [r]
  }

  /**
   * One day of one security: from the last record and the rows still waiting to their successors and what is emitted.
   * The chain is only continued from the ordinal just before; whatever is not allowed ends it with nothing emitted.
   */
  ghost predicate DayDone(c: Context, security: int, session: Session, ordinal: int, seen: Option<Seen>,
                          last: Option<Previous>, waiting: seq<Record>, last': Option<Previous>,
                          waiting': seq<Record>, emitted: seq<Record>)
  {
    var held := last.Some? && last.value.ordinal == ordinal - 1;
    var anchor, tail := if held then last else None, if held then waiting else [];
    if seen.Some? && Allowed(c, security, session, seen.value, anchor) then
      exists b: Built ::
        && Describes(b, c, security, session, seen.value, anchor)
        && Admitted(b, ordinal, tail, last', waiting', emitted)
    else last'.None? && waiting' == [] && emitted == []
  }

  lemma {:induction false} AcceptAdmits(s: State, ordinal: int, b: Built)
    requires b.confirms ==> !b.record.priceOnly
    ensures var step := Accept(s, ordinal, b);
            Admitted(b, ordinal, Pending(s), Anchor(step.state), Pending(step.state), step.emitted)
  {
  }

  /** The machine's step is that day. */
  lemma {:induction false} AdvanceDone(c: Context, security: int, session: Session, ordinal: int, seen: Option<Seen>,
                                       s: State)
    requires (seen.Some? ==> SeenValid(seen.value)) && SoundAnchor(Anchor(s), session)
    ensures var step := Advance(c, security, session, ordinal, seen, s);
            DayDone(c, security, session, ordinal, seen, Anchor(s), Pending(s), Anchor(step.state), Pending(step.state),
                    step.emitted)
  {
    if seen.Some? {
      var kept := AfterGap(s, security, session, ordinal);
      BuildIff(c, security, session, seen.value, Anchor(kept.state));
      var b := Build(c, security, session, seen.value, Anchor(kept.state));
      if b.Ok? {
        AcceptAdmits(kept.state, ordinal, b.value);
        assert kept.emitted + Accept(kept.state, ordinal, b.value).emitted
            == Accept(kept.state, ordinal, b.value).emitted;
      }
      hide Build, Allowed, Describes, Accept, Admitted, SeenValid, DiscardIssues;
    }
  }

  /** A kept history ends in a record its chain may build on. */
  lemma {:induction false} AnchorSound(security: int, t: Trace, session: Session, ordinal: int)
    requires Kept(security, t) && Until(t, session, ordinal)
    ensures SoundAnchor(Anchor(t.state), session)
  {
    hide Conserved, EmittedKept, AvailabilityKept, ChainEmitted;
    if t.chain != [] { assert LinkAt(security, t.chain, |t.chain| - 1); }
  }
}
