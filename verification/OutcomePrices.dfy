/** Outcome-only price records: how one security's observation of one session becomes a record, or is refused. */
module OutcomePrices {
  import opened Prelude
  import opened Clock

  const TOLERANCE := 0.00000001     // 1e-8

  datatype Prices = Prices(open: real, high: real, low: real, close: real, preclose: real)

  datatype Record = Record(
    security: int, session: Session, availableAt: Time, prices: Prices, factor: real,
    returnOpen: real, returnClose: real, chainStart: Session, priceOnly: bool, confirmationAt: Option<Time>)

  /** The last accepted record of a security. */
  datatype Previous = Previous(ordinal: int, close: real, factor: real, chainStart: Session, availableAt: Time)

  // ---- what a record must satisfy

  predicate PositivePrices(p: Prices)
  {
    0.0 < p.open && 0.0 < p.high && 0.0 < p.low && 0.0 < p.close && 0.0 < p.preclose
  }

  predicate InRange(p: Prices) { p.low <= RMin(p.open, p.close) && RMax(p.open, p.close) <= p.high }

  predicate ValidRecord(r: Record)
  {
    && MarketTime(r.session, 15) <= r.availableAt
    && PositivePrices(r.prices) && 0.0 < r.factor && 0.0 < r.returnOpen && 0.0 < r.returnClose
    && InRange(r.prices) && r.chainStart <= r.session
    && (r.confirmationAt.Some? ==> MarketTime(r.session, 15) <= r.confirmationAt.value <= r.availableAt)
  }

  function Checked(r: Record): (c: Result<Record>)
    ensures c.Ok? <==> ValidRecord(r)
    ensures c.Ok? ==> c.value == r
  {
    if r.availableAt < MarketTime(r.session, 15) then Err("OUTCOME_AVAILABILITY_INVALID")
    else if !PositivePrices(r.prices) || r.factor <= 0.0 || r.returnOpen <= 0.0 || r.returnClose <= 0.0 then
      Err("OUTCOME_PRICE_INVALID")
    else if !InRange(r.prices) then Err("OUTCOME_PRICE_RANGE_INVALID")
    else if r.session < r.chainStart then Err("OUTCOME_CHAIN_START_INVALID")
    else if r.confirmationAt.Some? && !(MarketTime(r.session, 15) <= r.confirmationAt.value <= r.availableAt) then
      Err("OUTCOME_CONFIRMATION_TIME_INVALID")
    else Ok(r)
  }

  // ---- making a record

  function Factor(previous: Option<Previous>, preclose: real): real
    requires preclose != 0.0
  {
    if previous.Some? then previous.value.factor * previous.value.close / preclose else 1.0
  }

  function MakeRecord(security: int, session: Session, p: Prices, previous: Option<Previous>,
                      available: Time, priceOnly: bool): Result<Record>
  {
    if previous.Some? && p.preclose == 0.0 then Err("OUTCOME_PRICE_INVALID")
    else
      var factor := if previous.Some? then Factor(previous, p.preclose) else 1.0;
      Checked(Record(
        security, session,
        if previous.Some? then Max(available, previous.value.availableAt) else available,
        p, factor, p.open * factor, p.close * factor,
        if previous.Some? then previous.value.chainStart else session, priceOnly, None))
  }

  /** What a record owes to the record before it on its chain, or to starting a chain. */
  ghost predicate Linked(previous: Option<Previous>, r: Record)
  {
    && ValidRecord(r) && r.confirmationAt.None?
    && r.returnOpen == r.prices.open * r.factor && r.returnClose == r.prices.close * r.factor
    && match previous
       case None => r.factor == 1.0 && r.chainStart == r.session
       case Some(b) =>
         && r.factor * r.prices.preclose == b.factor * b.close
         && r.chainStart == b.chainStart && b.availableAt <= r.availableAt
  }

  lemma {:induction false} Divide(a: real, b: real)
    requires b != 0.0
    ensures a / b * b == a
  {
  }

  lemma {:induction false} MakeRecordLinks(security: int, session: Session, p: Prices, previous: Option<Previous>,
                        available: Time, priceOnly: bool)
    ensures var m := MakeRecord(security, session, p, previous, available, priceOnly);
            m.Ok? ==> Linked(previous, m.value) && m.value.security == security && m.value.session == session
                      && m.value.prices == p && m.value.priceOnly == priceOnly && available <= m.value.availableAt
  {
    if previous.Some? && p.preclose != 0.0 {
      Divide(previous.value.factor * previous.value.close, p.preclose);
    }
  }

  // ---- complete feature rows

  datatype Bar = Bar(security: int, session: Session, availableAt: Time, open: real, high: real, low: real, close: real,
                     volume: real, amount: real, tradable: bool)

  datatype Feature = Feature(bar: Bar, preclose: real)

  /** What a market bar must satisfy, in the fields the outcome chain reads. */
  predicate ValidBar(b: Bar)
  {
    && MarketTime(b.session, 15) <= b.availableAt
    && 0.0 < b.open && 0.0 < b.high && 0.0 < b.low && 0.0 < b.close
    && b.low <= RMin(b.open, b.close) && RMax(b.open, b.close) <= b.high
    && 0.0 <= b.volume && 0.0 <= b.amount && (b.volume == 0.0 <==> b.amount == 0.0)
  }

  function PricesOf(f: Feature): Prices { Prices(f.bar.open, f.bar.high, f.bar.low, f.bar.close, f.preclose) }

  predicate Near(a: real, b: real) { RAbs(a - b) < TOLERANCE }

  /** Every quoted price sits on the reference price. */
  predicate Coherent(f: Feature)
  {
    Near(f.bar.open, f.preclose) && Near(f.bar.high, f.preclose) && Near(f.bar.low, f.preclose)
      && Near(f.bar.close, f.preclose)
  }

  predicate Flat(b: Bar) { b.open == b.high == b.low == b.close }

  predicate Active(b: Bar) { b.tradable && 0.0 < b.volume && 0.0 < b.amount }

  datatype Built = Built(record: Record, confirms: bool, confirmation: Time)

  function Full(security: int, session: Session, f: Feature, previous: Option<Previous>): Result<Built>
  {
    var bar := f.bar;
    if bar.security != security || bar.session != session then Err("OUTCOME_FEATURE_ROW_MISMATCH")
    else if f.preclose <= 0.0 then Err("OUTCOME_PRECLOSE_INVALID")
    else if !bar.tradable && !(bar.volume == 0.0 && bar.amount == 0.0) then Err("OUTCOME_SUSPENDED_ACTIVITY_UNRESOLVED")
    else if !bar.tradable && !Flat(bar) then Err("OUTCOME_SUSPENDED_RANGE_UNRESOLVED")
    else if !bar.tradable && previous.Some? && !Near(previous.value.close, f.preclose) && !Coherent(f) then
      Err("OUTCOME_SUSPENDED_REFERENCE_CHANGE_UNRESOLVED")
    else
      match MakeRecord(security, session, PricesOf(f), previous, bar.availableAt, false)
      case Err(e) => Err(e)
      case Ok(r) => Ok(Built(r, Active(bar), bar.availableAt))
  }

  // ---- raw rows, read through the provider's text

  datatype Number = Finite(value: real) | NotFinite | Unreadable

  type Raw = map<string, string>

  /** The day's raw rows, how their text reads, and what the identity map says of their symbols. */
  datatype Context = Context(
    raw: map<string, Raw>, float: string -> Number, decimal: string -> Number,
    iso: Session -> string, providerCode: string -> string, securityOf: string -> int, mappedIds: set<int>)

  /** One security/date reconciliation of the provider's aliases. */
  datatype Decision = Decision(
    providers: seq<string>, selected: Option<string>, conflicting: seq<string>, incomplete: seq<string>, mapped: bool)

  /** The row has the field, and with this value. */
  predicate Reads(row: Raw, field: string, value: string) { field in row && row[field] == value }

  function FloatOf(c: Context, row: Raw, field: string): Number
  {
    if field in row then c.float(row[field]) else Unreadable
  }

  const PRICE_FIELDS: seq<string> := ["open", "high", "low", "close", "preclose"]
  const CONSENSUS_FIELDS: seq<string> :=
    ["date"] + PRICE_FIELDS + ["volume", "tradestatus", "adjustflag", "pctChg", "isST"]
  const ACTIVITY: seq<string> := ["volume", "amount"]

  /** The numbers of the price fields, when all of them are finite. */
  function PricesIn(c: Context, row: Raw): Option<Prices>
  {
    if forall i :: 0 <= i < |PRICE_FIELDS| ==> FloatOf(c, row, PRICE_FIELDS[i]).Finite? then
      Some(Prices(FloatOf(c, row, PRICE_FIELDS[0]).value, FloatOf(c, row, PRICE_FIELDS[1]).value,
                  FloatOf(c, row, PRICE_FIELDS[2]).value, FloatOf(c, row, PRICE_FIELDS[3]).value,
                  FloatOf(c, row, PRICE_FIELDS[4]).value))
    else None
  }

  predicate AllReadable(c: Context, row: Raw)
  {
    forall i :: 0 <= i < |PRICE_FIELDS| ==> FloatOf(c, row, PRICE_FIELDS[i]) != Unreadable
  }

  // ---- sparse rows: a reported halt with unknown activity and an unchanged flat price

  /** The reason one alias's activity contradicts a halt, field by field. */
  function ActivityProblem(c: Context, row: Raw): Option<string>
  {
    var v := FieldProblem(c, row, "volume");
    if v.Some? then v else FieldProblem(c, row, "amount")
  }

  function FieldProblem(c: Context, row: Raw, field: string): Option<string>
  {
    if Reads(row, field, "") then None
    else
      match FloatOf(c, row, field)
      case Unreadable => Some("OUTCOME_PRICE_INVALID")
      case NotFinite => Some("OUTCOME_KNOWN_ACTIVITY_NOT_ZERO")
      case Finite(x) => if x == 0.0 then None else Some("OUTCOME_KNOWN_ACTIVITY_NOT_ZERO")
  }

  function ProvidersProblem(c: Context, providers: seq<string>): Option<string>
  {
    if providers == [] then None
    else
      var before := ProvidersProblem(c, providers[..|providers| - 1]);
      var last := providers[|providers| - 1];
      if before.Some? then before
      else if last !in c.raw then Some("OUTCOME_PRICE_INVALID")
      else ActivityProblem(c, c.raw[last])
  }

  function Sparse(c: Context, security: int, session: Session, d: Decision, previous: Option<Previous>): Result<Built>
  {
    if previous.None? then Err("OUTCOME_SPARSE_WITHOUT_CONTIGUOUS_ANCHOR")
    else if d.conflicting != [] || d.selected.None? then Err("OUTCOME_PRICE_IDENTITY_UNRESOLVED")
    else if d.selected.value !in c.raw then Err("OUTCOME_PRICE_INVALID")
    else
      var row := c.raw[d.selected.value];
      if !Reads(row, "date", c.iso(session)) then Err("OUTCOME_RAW_DATE_MISMATCH")
      else if !Reads(row, "adjustflag", "3") then Err("OUTCOME_PRICES_MUST_BE_UNADJUSTED")
      else if !Reads(row, "tradestatus", "0") then Err("OUTCOME_SPARSE_REQUIRES_REPORTED_HALT")
      else if !Reads(row, "volume", "") && !Reads(row, "amount", "") then
        Err("OUTCOME_ACTIVITY_NOT_EXPLICITLY_MISSING")
      else if ProvidersProblem(c, d.providers).Some? then Err(ProvidersProblem(c, d.providers).value)
      else if !AllReadable(c, row) then Err("OUTCOME_PRICE_INVALID")
      else if PricesIn(c, row).None? || !PositivePrices(PricesIn(c, row).value) then Err("OUTCOME_SPARSE_PRICE_INVALID")
      else
        var p := PricesIn(c, row).value;
        if !(p.open == p.high == p.low == p.close == p.preclose) then Err("OUTCOME_SPARSE_PRICE_NOT_FLAT")
        else if !Near(p.preclose, previous.value.close) then Err("OUTCOME_SPARSE_REFERENCE_CHANGE_UNRESOLVED")
        else
          match MakeRecord(security, session, p, previous, MarketTime(session, 21), true)
          case Err(e) => Err(e)
          case Ok(r) => Ok(Built(r, false, r.availableAt))
  }

  // ---- consensus rows: aliases that agree on everything but the amount, all of them trading

  function AliasProblem(c: Context, security: int, symbol: string): Option<string>
  {
    if c.securityOf(symbol) != security then Some("OUTCOME_AMOUNT_CONSENSUS_IDENTITY_INVALID")
    else if symbol !in c.raw then Some("OUTCOME_PRICE_INVALID")
    else if !Reads(c.raw[symbol], "code", c.providerCode(symbol)) then
      Some("OUTCOME_AMOUNT_CONSENSUS_RAW_SYMBOL_MISMATCH")
    else if exists i :: 0 <= i < |CONSENSUS_FIELDS|
                     && (CONSENSUS_FIELDS[i] !in c.raw[symbol] || c.raw[symbol][CONSENSUS_FIELDS[i]] == "")
    then Some("OUTCOME_AMOUNT_CONSENSUS_FIELD_MISSING")
    else None
  }

  function AliasesProblem(c: Context, security: int, symbols: seq<string>): Option<string>
  {
    if symbols == [] then None
    else
      var before := AliasesProblem(c, security, symbols[..|symbols| - 1]);
      if before.Some? then before else AliasProblem(c, security, symbols[|symbols| - 1])
  }

  lemma {:induction false} AliasesHaveFields(c: Context, security: int, symbols: seq<string>)
    requires AliasesProblem(c, security, symbols).None?
    ensures forall k :: 0 <= k < |symbols| ==> AliasProblem(c, security, symbols[k]).None?
  {
    if symbols != [] { AliasesHaveFields(c, security, symbols[..|symbols| - 1]); }
  }

  /** The consensus fields of two alias rows are the same text. */
  predicate SameProjection(a: Raw, b: Raw)
  {
    forall i :: 0 <= i < |CONSENSUS_FIELDS| ==>
      CONSENSUS_FIELDS[i] in a && Reads(b, CONSENSUS_FIELDS[i], a[CONSENSUS_FIELDS[i]])
  }

  function DecimalOf(c: Context, row: Raw, field: string): Number
  {
    if field in row then c.decimal(row[field]) else Unreadable
  }

  predicate PositiveNumber(n: Number) { n.Finite? && 0.0 < n.value }

  predicate Agreeing(c: Context, symbols: seq<string>)
    requires forall k :: 0 <= k < |symbols| ==> symbols[k] in c.raw
    requires symbols != []
  {
    forall k :: 0 <= k < |symbols| ==> SameProjection(c.raw[symbols[0]], c.raw[symbols[k]])
  }

  function AmountOf(c: Context, row: Raw, native: bool): Number
  {
    if native then FloatOf(c, row, "amount") else DecimalOf(c, row, "amount")
  }

  predicate AmountsReadable(c: Context, symbols: seq<string>, native: bool)
    requires forall k :: 0 <= k < |symbols| ==> symbols[k] in c.raw
  {
    forall k :: 0 <= k < |symbols| ==> AmountOf(c, c.raw[symbols[k]], native) != Unreadable
  }

  /** Both exact and native readings of every alias's amount are finite and positive. */
  predicate AmountsPositive(c: Context, symbols: seq<string>, native: bool)
    requires forall k :: 0 <= k < |symbols| ==> symbols[k] in c.raw
  {
    forall k :: 0 <= k < |symbols| ==> PositiveNumber(AmountOf(c, c.raw[symbols[k]], native))
  }

  /** The aliases agree: their one row is checked and becomes the record. */
  function ConsensusRow(c: Context, security: int, session: Session, symbols: seq<string>,
                        previous: Option<Previous>): Result<Built>
    requires symbols != [] && forall k :: 0 <= k < |symbols| ==> symbols[k] in c.raw
  {
    var row := c.raw[symbols[0]];
    if !(Reads(row, "date", c.iso(session)) && Reads(row, "tradestatus", "1") && Reads(row, "adjustflag", "3")
         && (Reads(row, "isST", "0") || Reads(row, "isST", "1"))) then
      Err("OUTCOME_AMOUNT_CONSENSUS_STATUS_INVALID")
    else if !AmountsReadable(c, symbols, false) || DecimalOf(c, row, "volume") == Unreadable
      || DecimalOf(c, row, "pctChg") == Unreadable then
      Err("OUTCOME_AMOUNT_CONSENSUS_NUMERIC_INVALID")
    else if !AmountsPositive(c, symbols, false) || !PositiveNumber(DecimalOf(c, row, "volume"))
      || !DecimalOf(c, row, "pctChg").Finite? then
      Err("OUTCOME_AMOUNT_CONSENSUS_ACTIVITY_INVALID")
    else if !AmountsReadable(c, symbols, true) || FloatOf(c, row, "volume") == Unreadable then
      Err("OUTCOME_PRICE_INVALID")
    else if !AmountsPositive(c, symbols, true) || !PositiveNumber(FloatOf(c, row, "volume")) then
      Err("OUTCOME_AMOUNT_CONSENSUS_ACTIVITY_NOT_REPRESENTABLE")
    else if PricesIn(c, row).None? then Err("OUTCOME_PRICE_INVALID")
    else
      match MakeRecord(security, session, PricesIn(c, row).value, previous, MarketTime(session, 21), false)
      case Err(e) => Err(e)
      case Ok(r) => Ok(Built(r, true, r.availableAt))
  }

  function Consensus(c: Context, security: int, session: Session, d: Decision,
                     previous: Option<Previous>): Result<Built>
  {
    var symbols := d.providers;
    if !(security in c.mappedIds && d.mapped && d.conflicting == ["amount"] && d.incomplete == []
         && 2 <= |symbols|) then
      Err("OUTCOME_AMOUNT_CONSENSUS_IDENTITY_INVALID")
    else if AliasesProblem(c, security, symbols).Some? then Err(AliasesProblem(c, security, symbols).value)
    else
      AliasesHaveFields(c, security, symbols);
      if !Agreeing(c, symbols) then Err("OUTCOME_AMOUNT_CONSENSUS_NOT_EXACT")
      else ConsensusRow(c, security, session, symbols, previous)
  }

  // ---- one observation, whichever branch it takes

  /** All the day knows about one security: its complete row, its mapped decision, its issues, its price decision. */
  datatype Seen = Seen(feature: Option<Feature>, original: Option<Decision>, reasons: seq<string>,
                       decision: Option<Decision>)

  const SPARSE_ISSUES: set<string> := {"RAW_NUMERIC_INVALID", "IDENTITY_NO_COMPLETE_QUOTE"}
  const AMOUNT_CONFLICT := "IDENTITY_QUOTE_CONFLICT:amount"

  predicate TakesConsensus(x: Seen)
  {
    x.feature.None? && x.original.Some? && x.original.value.mapped && x.original.value.conflicting == ["amount"]
  }

  function Build(c: Context, security: int, session: Session, x: Seen, previous: Option<Previous>): Result<Built>
  {
    if TakesConsensus(x) then
      if exists i :: 0 <= i < |x.reasons| && x.reasons[i] != AMOUNT_CONFLICT then
        Err("OUTCOME_UNRESOLVED_FEATURE_SEMANTICS")
      else Consensus(c, security, session, x.original.value, previous)
    else if x.original.Some? && x.original.value.conflicting != [] then Err("OUTCOME_FULL_IDENTITY_CONFLICT")
    else if exists i :: 0 <= i < |x.reasons| && x.reasons[i] !in SPARSE_ISSUES then
      Err("OUTCOME_UNRESOLVED_FEATURE_SEMANTICS")
    else if x.feature.Some? then Full(security, session, x.feature.value, previous)
    else if x.decision.None? then Err("OUTCOME_PRICE_IDENTITY_MISSING")
    else Sparse(c, security, session, x.decision.value, previous)
  }

  /** Complete feature rows are bars the market store accepted. */
  ghost predicate SeenValid(x: Seen) { x.feature.Some? ==> ValidBar(x.feature.value.bar) }

  /** Independent evidence of trading: a complete active bar, or aliases that all report positive activity. */
  ghost predicate PositiveActivity(c: Context, security: int, x: Seen)
  {
    if x.feature.Some? then Active(x.feature.value.bar)
    else
      && x.original.Some? && 2 <= |x.original.value.providers|
      && forall k :: 0 <= k < |x.original.value.providers| ==>
           && x.original.value.providers[k] in c.raw && c.securityOf(x.original.value.providers[k]) == security
           && PositiveNumber(DecimalOf(c, c.raw[x.original.value.providers[k]], "amount"))
           && PositiveNumber(DecimalOf(c, c.raw[x.original.value.providers[k]], "volume"))
  }

  /** An alias that does not contradict a halt: each activity field is explicitly missing or reads as zero. */
  predicate Quiet(c: Context, row: Raw)
  {
    forall i :: 0 <= i < |ACTIVITY| ==> Reads(row, ACTIVITY[i], "") || FloatOf(c, row, ACTIVITY[i]) == Finite(0.0)
  }

  lemma {:induction false} ProvidersQuiet(c: Context, providers: seq<string>)
    requires ProvidersProblem(c, providers).None?
    ensures forall k :: 0 <= k < |providers| ==> providers[k] in c.raw && Quiet(c, c.raw[providers[k]])
  {
    if providers != [] {
      ProvidersQuiet(c, providers[..|providers| - 1]);
      assert ActivityProblem(c, c.raw[providers[|providers| - 1]]).None?;
    }
  }

  /** A reported halt on which every alias is quiet and the selected one quotes a single price. */
  ghost predicate Halted(c: Context, d: Decision, p: Prices)
  {
    && d.selected.Some? && d.selected.value in c.raw && PricesIn(c, c.raw[d.selected.value]) == Some(p)
    && p.open == p.high == p.low == p.close == p.preclose
    && Reads(c.raw[d.selected.value], "tradestatus", "0")
    && forall k :: 0 <= k < |d.providers| ==> d.providers[k] in c.raw && Quiet(c, c.raw[d.providers[k]])
  }

  /** Every alias quotes these very prices. */
  ghost predicate Unanimous(c: Context, d: Decision, p: Prices)
  {
    forall k :: 0 <= k < |d.providers| ==> d.providers[k] in c.raw && PricesIn(c, c.raw[d.providers[k]]) == Some(p)
  }

  /** The record's prices are the observation's own. */
  ghost predicate Quoted(c: Context, x: Seen, p: Prices)
  {
    if x.feature.Some? then p == PricesOf(x.feature.value)
    else if TakesConsensus(x) then Unanimous(c, x.original.value, p)
    else x.decision.Some? && Halted(c, x.decision.value, p)
  }

  /** What an accepted observation is, on every branch. */
  ghost predicate Accepted(c: Context, security: int, session: Session, x: Seen, previous: Option<Previous>, b: Built)
  {
    && Linked(previous, b.record) && b.record.security == security && b.record.session == session
    && Quoted(c, x, b.record.prices) && (b.record.priceOnly <==> x.feature.None? && !TakesConsensus(x))
    && (b.confirms <==> !b.record.priceOnly && PositiveActivity(c, security, x))
    && (b.confirms ==> MarketTime(session, 15) <= b.confirmation <= b.record.availableAt)
    && (b.record.priceOnly ==> previous.Some? && b.record.returnClose == previous.value.factor * previous.value.close)
  }

  lemma {:induction false} FullAccepted(c: Context, security: int, session: Session, x: Seen,
                                        previous: Option<Previous>)
    requires x.feature.Some? && ValidBar(x.feature.value.bar)
    ensures var b := Full(security, session, x.feature.value, previous);
            b.Ok? ==> Accepted(c, security, session, x, previous, b.value)
  {
    MakeRecordLinks(security, session, PricesOf(x.feature.value), previous, x.feature.value.bar.availableAt, false);
  }

  /** A halted observation carries the return value of its chain over unchanged, whatever the tolerance let through. */
  lemma {:induction false} SparseAccepted(c: Context, security: int, session: Session, x: Seen,
                                          previous: Option<Previous>)
    requires x.feature.None? && !TakesConsensus(x) && x.decision.Some?
          && (x.original.Some? ==> x.original.value.conflicting == [])
    ensures var b := Sparse(c, security, session, x.decision.value, previous);
            b.Ok? ==> Accepted(c, security, session, x, previous, b.value)
  {
    var d := x.decision.value;
    var b := Sparse(c, security, session, d, previous);
    if b.Ok? {
      var row := c.raw[d.selected.value];
      var p := PricesIn(c, row).value;
      MakeRecordLinks(security, session, p, previous, MarketTime(session, 21), true);
      Commute(p.close, b.value.record.factor);
      ProvidersQuiet(c, d.providers);
    }
  }

  lemma {:induction false} Commute(a: real, b: real)
    ensures a * b == b * a
  {
  }

  /** Equal projections read the same volume on every alias. */
  lemma {:induction false} SameVolume(c: Context, a: Raw, b: Raw)
    requires SameProjection(a, b)
    ensures DecimalOf(c, a, "volume") == DecimalOf(c, b, "volume")
  {
    assert CONSENSUS_FIELDS[6] == "volume";
  }

  lemma {:induction false} SamePrices(c: Context, a: Raw, b: Raw)
    requires SameProjection(a, b)
    ensures PricesIn(c, b) == PricesIn(c, a)
  {
    forall i | 0 <= i < |PRICE_FIELDS| ensures FloatOf(c, b, PRICE_FIELDS[i]) == FloatOf(c, a, PRICE_FIELDS[i]) {
      assert CONSENSUS_FIELDS[i + 1] == PRICE_FIELDS[i];
    }
  }

  /** Aliases that agree all read the first one's prices and volume. */
  lemma {:induction false} AliasesAgree(c: Context, security: int, symbols: seq<string>)
    requires symbols != [] && AliasesProblem(c, security, symbols).None?
    requires forall k :: 0 <= k < |symbols| ==> symbols[k] in c.raw
    requires Agreeing(c, symbols)
    ensures forall k :: 0 <= k < |symbols| ==>
              && c.securityOf(symbols[k]) == security
              && PricesIn(c, c.raw[symbols[k]]) == PricesIn(c, c.raw[symbols[0]])
              && DecimalOf(c, c.raw[symbols[k]], "volume") == DecimalOf(c, c.raw[symbols[0]], "volume")
  {
    AliasesHaveFields(c, security, symbols);
    hide AliasesProblem, SameProjection, PricesIn, DecimalOf;
    forall k | 0 <= k < |symbols|
      ensures PricesIn(c, c.raw[symbols[k]]) == PricesIn(c, c.raw[symbols[0]])
      ensures DecimalOf(c, c.raw[symbols[k]], "volume") == DecimalOf(c, c.raw[symbols[0]], "volume") {
      SamePrices(c, c.raw[symbols[0]], c.raw[symbols[k]]);
      SameVolume(c, c.raw[symbols[0]], c.raw[symbols[k]]);
    }
  }

  lemma {:induction false} ConsensusAccepted(c: Context, security: int, session: Session, x: Seen,
                                             previous: Option<Previous>)
    requires TakesConsensus(x)
    ensures var b := Consensus(c, security, session, x.original.value, previous);
            b.Ok? ==> Accepted(c, security, session, x, previous, b.value)
  {
    var d := x.original.value;
    var b := Consensus(c, security, session, d, previous);
    if b.Ok? {
      AliasesHaveFields(c, security, d.providers);
      var row := c.raw[d.providers[0]];
      MakeRecordLinks(security, session, PricesIn(c, row).value, previous, MarketTime(session, 21), false);
      AliasesAgree(c, security, d.providers);
      hide SameProjection, PricesIn, AliasProblem, AliasesProblem, DecimalOf, FloatOf, Linked;
    }
  }

  lemma {:induction false} BuildAccepted(c: Context, security: int, session: Session, x: Seen,
                                         previous: Option<Previous>)
    requires SeenValid(x)
    ensures var b := Build(c, security, session, x, previous);
            b.Ok? ==> Accepted(c, security, session, x, previous, b.value)
  {
    hide Full, Sparse, Consensus, Accepted;
    if TakesConsensus(x) {
      ConsensusAccepted(c, security, session, x, previous);
    } else if x.feature.Some? {
      FullAccepted(c, security, session, x, previous);
    } else if x.decision.Some? && (x.original.Some? ==> x.original.value.conflicting == []) {
      SparseAccepted(c, security, session, x, previous);
    }
  }
}
