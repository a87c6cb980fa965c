/** The research store, in the fields that labels read. */
module ResearchStore {
  import opened Prelude
  import opened Clock

  datatype Price = Price(availableAt: Time, returnOpen: real, returnClose: real, basis: int)

  datatype Exit = Exit(availableAt: Time, returnClose: real, basis: int)

  datatype Universe = Universe(id: string, asOf: Time, availableAt: Time, symbols: seq<int>)

  datatype Cell = Cell(symbol: int, session: Session)

  /** ResearchData, in the fields labels read; records are found by symbol and session. */
  datatype Data = Data(
    sessions: seq<Session>, universes: seq<Universe>, scoring: set<Session>,
    bars: map<Cell, Price>, outcomes: map<Cell, Price>, exits: map<Cell, Exit>, outcomesEnabled: bool)

  // ---- what construction of the store checks

  predicate ValidPrice(c: Cell, p: Price)
  {
    MarketTime(c.session, 15) <= p.availableAt && 0.0 < p.returnOpen && 0.0 < p.returnClose
  }

  function Source(d: Data): map<Cell, Price> { if d.outcomesEnabled then d.outcomes else d.bars }

  predicate ValidUniverse(d: Data, u: Universe)
  {
    u.availableAt <= u.asOf && 2 <= |u.symbols| && Ascending(u.symbols) && SessionOf(u.asOf) in d.sessions
  }

  /** No exit reference stands beside a price it could override; days have one universe each. */
  ghost predicate ValidData(d: Data)
  {
    && d.sessions != [] && Ascending(d.sessions)
    && (forall c :: c in d.bars ==> ValidPrice(c, d.bars[c]))
    && (forall c :: c in d.outcomes ==> ValidPrice(c, d.outcomes[c]))
    && (forall c :: c in d.exits ==> MarketTime(c.session, 15) <= d.exits[c].availableAt && c !in Source(d))
    && (forall i :: 0 <= i < |d.universes| ==> ValidUniverse(d, d.universes[i]))
    && (forall i, j :: 0 <= i < j < |d.universes| ==> SessionOf(d.universes[i].asOf) != SessionOf(d.universes[j].asOf))
  }
}
