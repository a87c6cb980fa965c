/** What a built label row says, straight from the store's own maps. */
module LabelMeaning {
  import opened Prelude
  import opened Vectors
  import opened Labels
  import opened ResearchStore

  /** The store day of an instant. */
  ghost function DayOf(t: int): int { t / 86400 }

  /** A holding window: from the first session after a day to the horizon-th. */
  ghost predicate IsWindow(d: Data, day: int, horizon: nat, entry: int, end: int)
    requires 1 <= horizon
  {
    exists p: nat ::
      p + horizon < |d.sessions| && d.sessions[p] == day && entry == d.sessions[p + 1] && end == d.sessions[p + horizon]
  }

  ghost predicate HasWindow(d: Data, day: int, horizon: nat)
    requires 1 <= horizon
  {
    exists entry, end :: IsWindow(d, day, horizon, entry, end)
  }

  /** A price on record on a day, in the table the store's mode reads. */
  ghost predicate Quoted(d: Data, symbol: int, day: int, p: Price)
  {
    if d.outcomesEnabled then Cell(symbol, day) in d.outcomes && d.outcomes[Cell(symbol, day)] == p
    else Cell(symbol, day) in d.bars && d.bars[Cell(symbol, day)] == p
  }

  /** A closing value on record on a day: the price's own, or an exit reference's where there is no price. */
  ghost predicate Closes(d: Data, symbol: int, day: int, sell: real, at: int, basis: int)
  {
    || (exists p: Price :: Quoted(d, symbol, day, p) && sell == p.returnClose && at == p.availableAt
                        && basis == p.basis)
    || (&& (forall p: Price :: !Quoted(d, symbol, day, p))
        && Cell(symbol, day) in d.exits && d.exits[Cell(symbol, day)] == Exit(at, sell, basis))
  }

  /** The scoring day's own outcome price was known at scoring time and stands on the same basis. */
  ghost predicate Anchors(d: Data, k: Key, basis: int)
  {
    var scored := Cell(k.symbol, DayOf(k.asOf));
    scored in d.outcomes && d.outcomes[scored].availableAt <= k.asOf && d.outcomes[scored].basis == basis
  }

  /**
   * Both ends of a holding are on record, whenever they arrived: bought at the first session's open, sold at the last
   * one's close, complete at the later arrival, and in outcome mode on the basis of the scoring day.
   */
  ghost predicate OnRecord(d: Data, k: Key, entry: int, end: int, buy: real, sell: real, ready: int)
  {
    exists first: Price, at: int, basis: int ::
      && Quoted(d, k.symbol, entry, first) && buy == first.returnOpen
      && Closes(d, k.symbol, end, sell, at, basis)
      && ready == (if first.availableAt <= at then at else first.availableAt)
      && (d.outcomesEnabled ==> Anchors(d, k, first.basis) && basis == first.basis)
  }

  /** The return of a key is known at a cutoff: its horizon is over and both ends arrived before the cutoff. */
  ghost predicate Earns(d: Data, k: Key, entry: int, end: int, cutoff: int, value: real, ready: int)
  {
    && end < DayOf(cutoff) && ready < cutoff
    && exists buy: real, sell: real :: OnRecord(d, k, entry, end, buy, sell, ready) && Times(1.0 + value, buy) == sell
  }

  /** Why a return is missing. */
  ghost predicate Explains(reason: string, d: Data, k: Key, horizon: nat, cutoff: int)
    requires 1 <= horizon
  {
    if !HasWindow(d, DayOf(k.asOf), horizon) then reason == "FUTURE_CALENDAR_UNAVAILABLE"
    else
      forall entry, end :: IsWindow(d, DayOf(k.asOf), horizon, entry, end) ==>
        if DayOf(cutoff) <= end then reason == "HORIZON_NOT_MATURE_AT_CUTOFF"
        else if exists buy, sell, ready :: OnRecord(d, k, entry, end, buy, sell, ready) then
          reason == "OUTCOME_NOT_AVAILABLE_AT_CUTOFF"
        else
          reason == if d.outcomesEnabled then "OUTCOME_PRICE_OR_BASIS_UNAVAILABLE" else "OUTCOME_PRICE_UNAVAILABLE"
  }

  /** What an observation, or the row made of it, says of its key. */
  ghost predicate Tells(o: Observation, d: Data, k: Key, horizon: nat, cutoff: int)
    requires 1 <= horizon
  {
    && (o.entry.Some? <==> HasWindow(d, DayOf(k.asOf), horizon)) && (o.end.Some? <==> o.entry.Some?)
    && (o.entry.Some? ==> o.end.Some? && IsWindow(d, DayOf(k.asOf), horizon, o.entry.value, o.end.value))
    && (o.value.Some? <==>
          o.entry.Some? && o.end.Some? && exists v: real, t: int ::
            Earns(d, k, o.entry.value, o.end.value, cutoff, v, t))
    && (o.value.Some? ==>
          o.ready.Some? && o.reason.None? && Earns(d, k, o.entry.value, o.end.value, cutoff, o.value.value,
                                                   o.ready.value))
    && (o.value.None? ==> o.ready.None? && o.reason.Some? && Explains(o.reason.value, d, k, horizon, cutoff))
  }

  /** A key is scored when a universe of a scoring day lists its symbol at its time. */
  ghost predicate Scored(d: Data, k: Key)
  {
    exists i :: 0 <= i < |d.universes| && DayOf(d.universes[i].asOf) in d.scoring
                && d.universes[i].asOf == k.asOf && k.symbol in d.universes[i].symbols
  }

  /** The rows of a store at a cutoff: one for every scored key, by symbol and time, each telling its own story. */
  ghost predicate RowsTell(rows: seq<LabelRow>, d: Data, horizon: nat, cutoff: int)
    requires 1 <= horizon
  {
    && (forall k :: Scored(d, k) <==> exists i :: 0 <= i < |rows| && rows[i].key == k)
    && (forall i, j :: 0 <= i < j < |rows| ==>
          || rows[i].key.symbol < rows[j].key.symbol
          || (rows[i].key.symbol == rows[j].key.symbol && rows[i].key.asOf < rows[j].key.asOf))
    && forall i :: 0 <= i < |rows| ==>
         && rows[i].cutoff == cutoff
         && Tells(Observation(rows[i].entry, rows[i].end, rows[i].rawReturn, rows[i].outcomeAt, rows[i].missingReason),
                  d, rows[i].key, horizon, cutoff)
  }
}
