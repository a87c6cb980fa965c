/** The feature-side reference normalizer, and how its rows meet the outcome chain of the same security. */
module ReferenceChain {
  import opened Prelude
  import opened Clock
  import opened Vectors
  import opened OutcomePrices
  import opened OutcomeChain
  import opened OutcomeMeaning
  import opened ReferenceRows

  // ---- one day of the table

  datatype Listed = Listed(security: int, quote: Quote)

  ghost predicate Distinct(rows: seq<Listed>)
  {
    forall i, j :: 0 <= i < j < |rows| ==> rows[i].security != rows[j].security
  }

  function LookupAnchor(m: map<int, Anchored>, k: int): Option<Anchored> { if k in m then Some(m[k]) else None }

  function Outcomes(session: Session, ordinal: int, rows: seq<Listed>, m: map<int, Anchored>): (r: seq<Result<Row>>)
    ensures |r| == |rows|
    ensures forall i :: 0 <= i < |rows| ==>
              r[i] == Normalize(rows[i].security, session, ordinal, rows[i].quote, LookupAnchor(m, rows[i].security))
  {
    seq(|rows|, i requires 0 <= i < |rows| =>
      Normalize(rows[i].security, session, ordinal, rows[i].quote, LookupAnchor(m, rows[i].security)))
  }

  /** The accepted rows in order. */
  function Values(outcomes: seq<Result<Row>>): seq<Row>
  {
    if outcomes == [] then []
    else Values(outcomes[..|outcomes| - 1]) + match outcomes[|outcomes| - 1] case Ok(r) => [r] case Err(_) => []
  }

  datatype Problem = Problem(security: int, reason: string)

  /** The refusals in order. */
  function Issues(rows: seq<Listed>, outcomes: seq<Result<Row>>): seq<Problem>
    requires |rows| == |outcomes|
  {
    if outcomes == [] then []
    else
      var n := |outcomes| - 1;
      Issues(rows[..n], outcomes[..n])
      + match outcomes[n] case Ok(_) => [] case Err(e) => [Problem(rows[n].security, e)]
  }

  // ---- both normalizers on the same days of one security

  datatype Joint = Joint(session: Session, ordinal: int, context: Context, quote: Option<Quote>,
                         original: Option<Decision>, decision: Option<Decision>)

  function RowOn(security: int, j: Joint, previous: Option<Anchored>): Option<Result<Row>>
  {
    if j.quote.None? then None else Some(Normalize(security, j.session, j.ordinal, j.quote.value, previous))
  }

  /** What the store hands the outcome normalizer after the reference normalizer took its day. */
  function SeenAfter(j: Joint, r: Option<Result<Row>>): Option<Seen>
  {
    match r
    case None => None
    case Some(Ok(row)) => Some(Seen(Some(row.feature), j.original, [], j.decision))
    case Some(Err(e)) => Some(Seen(None, j.original, [e], j.decision))
  }

  function Reference(security: int, days: seq<Joint>): Option<Anchored>
  {
    if days == [] then None
    else
      var before := Reference(security, days[..|days| - 1]);
      match RowOn(security, days[|days| - 1], before)
      case None => before
      case Some(r) => AnchorAfter(days[|days| - 1].ordinal, r)
  }

  // ---- the class

  /** One day of the reference table. */
  datatype Table = Table(session: Session, ordinal: int, rows: seq<Listed>)

  /** The quote one security has on a day, if the day lists it. */
  function QuoteIn(rows: seq<Listed>, security: int): Option<Quote>
  {
    if rows == [] then None
    else if rows[|rows| - 1].security == security then Some(rows[|rows| - 1].quote)
    else QuoteIn(rows[..|rows| - 1], security)
  }

  lemma {:induction false} QuoteListed(rows: seq<Listed>, i: nat)
    requires Distinct(rows) && i < |rows|
    ensures QuoteIn(rows, rows[i].security) == Some(rows[i].quote)
  {
    if i < |rows| - 1 { QuoteListed(rows[..|rows| - 1], i); }
  }

  lemma {:induction false} QuoteUnlisted(rows: seq<Listed>, security: int)
    requires forall i :: 0 <= i < |rows| ==> rows[i].security != security
    ensures QuoteIn(rows, security) == None
  {
    if rows != [] { QuoteUnlisted(rows[..|rows| - 1], security); }
  }

  /** The reference share of one security's joint days is what these tables list for it. */
  ghost predicate Shares(security: int, days: seq<Joint>, tables: seq<Table>)
  {
    && |days| == |tables|
    && forall i :: 0 <= i < |days| ==>
         && days[i].session == tables[i].session && days[i].ordinal == tables[i].ordinal
         && days[i].quote == QuoteIn(tables[i].rows, security)
  }

  lemma {:induction false} SharesBefore(security: int, days: seq<Joint>, tables: seq<Table>)
    requires Shares(security, days, tables) && days != []
    ensures var n := |days| - 1;
            && Shares(security, days[..n], tables[..n])
            && days[n].session == tables[n].session && days[n].ordinal == tables[n].ordinal
            && days[n].quote == QuoteIn(tables[n].rows, security)
  {
  }

  /** Whatever the outcome side of a security's days, its entry is where its own run of the tables leads. */
  ghost predicate Runs(previous: map<int, Anchored>, tables: seq<Table>)
  {
    forall k: int, days: seq<Joint> :: Shares(k, days, tables) ==> Reference(k, days) == LookupAnchor(previous, k)
  }

  /** One day moves every security's entry by its own decision. */
  ghost predicate Moved(before: map<int, Anchored>, after: map<int, Anchored>, t: Table)
  {
    forall k: int :: LookupAnchor(after, k) == match QuoteIn(t.rows, k)
                                               case None => LookupAnchor(before, k)
                                               case Some(q) =>
                                                 AnchorAfter(t.ordinal, Normalize(k, t.session, t.ordinal, q,
                                                                                  LookupAnchor(before, k)))
  }

  lemma {:induction false} RunsNext(before: map<int, Anchored>, after: map<int, Anchored>, tables: seq<Table>, t: Table)
    requires Runs(before, tables) && Moved(before, after, t)
    ensures Runs(after, tables + [t])
  {
    hide Normalize, Reference, Shares, QuoteIn, AnchorAfter;
    forall k: int, days: seq<Joint> | Shares(k, days, tables + [t])
      ensures Reference(k, days) == LookupAnchor(after, k) {
      LastShared(k, days, tables, t);
      ReferenceStep(k, days);
    }
  }

  lemma {:induction false} LastShared(security: int, days: seq<Joint>, tables: seq<Table>, t: Table)
    requires Shares(security, days, tables + [t])
    ensures days != []
    ensures var n := |days| - 1;
            && Shares(security, days[..n], tables)
            && days[n].session == t.session && days[n].ordinal == t.ordinal
            && days[n].quote == QuoteIn(t.rows, security)
  {
    SharesBefore(security, days, tables + [t]);
    assert (tables + [t])[..|tables|] == tables;
  }

  lemma {:induction false} ReferenceStep(security: int, days: seq<Joint>)
    requires days != []
    ensures var n := |days| - 1;
            var before := Reference(security, days[..n]);
            Reference(security, days) == match days[n].quote
                                         case None => before
                                         case Some(q) =>
                                           AnchorAfter(days[n].ordinal,
                                                       Normalize(security, days[n].session, days[n].ordinal, q, before))
  {
    hide Normalize;
  }

  /** The i-th outcome of a day is its security's last row, or its lack of one, on any run the tables share. */
  lemma {:induction false} OutcomeIsLast(previous: map<int, Anchored>, tables: seq<Table>, t: Table, i: nat,
                                         days: seq<Joint>)
    requires Runs(previous, tables) && Distinct(t.rows) && i < |t.rows|
          && Shares(t.rows[i].security, days, tables + [t])
    ensures days != []
    ensures RowOn(t.rows[i].security, days[|days| - 1], Reference(t.rows[i].security, days[..|days| - 1]))
         == Some(Outcomes(t.session, t.ordinal, t.rows, previous)[i])
  {
    hide Normalize, Reference, Shares, QuoteIn;
    LastShared(t.rows[i].security, days, tables, t);
    QuoteListed(t.rows, i);
  }

  // ---- what a day does, decision by decision

  /** One listed security: its row is among the values, or a reason among the issues, and its entry follows. */
  ghost predicate RowDone(listed: Listed, session: Session, ordinal: int, last: Option<Anchored>,
                          last': Option<Anchored>, r: Result<Row>)
  {
    if QuoteAllowed(listed.quote, ordinal, last) then
      && r.Ok? && RowDescribes(r.value, listed.security, session, ordinal, listed.quote, last)
      && last' == Some(Anchored(ordinal, r.value.feature.bar.close, r.value.factor, r.value.chainStart, r.value.streak))
    else r.Err? && last'.None?
  }

  /** An entry of the map, if there is one. */
  ghost function EntryOf(m: map<int, Anchored>, k: int): Option<Anchored> { if k in m then Some(m[k]) else None }

  ghost predicate Rising(places: seq<nat>) { forall a, b :: 0 <= a < b < |places| ==> places[a] < places[b] }

  /** The rows at some ascending places, and nothing else, are the values. */
  ghost predicate ValuesAt(places: seq<nat>, values: seq<Row>, outcomes: seq<Result<Row>>)
  {
    && |places| == |values| && Rising(places)
    && (forall a :: 0 <= a < |places| ==> places[a] < |outcomes| && outcomes[places[a]] == Ok(values[a]))
    && forall i: nat :: i < |outcomes| && outcomes[i].Ok? ==> i in places
  }

  ghost predicate ValuesAre(values: seq<Row>, outcomes: seq<Result<Row>>)
  {
    exists places: seq<nat> :: ValuesAt(places, values, outcomes)
  }

  /** The refusals at some ascending places, and nothing else, are the issues. */
  ghost predicate IssuesAt(places: seq<nat>, issues: seq<Problem>, rows: seq<Listed>, outcomes: seq<Result<Row>>)
    requires |rows| == |outcomes|
  {
    && |places| == |issues| && Rising(places)
    && (forall a :: 0 <= a < |places| ==>
          && places[a] < |outcomes| && outcomes[places[a]].Err?
          && issues[a] == Problem(rows[places[a]].security, outcomes[places[a]].reason))
    && forall i: nat :: i < |outcomes| && outcomes[i].Err? ==> i in places
  }

  ghost predicate IssuesAre(issues: seq<Problem>, rows: seq<Listed>, outcomes: seq<Result<Row>>)
    requires |rows| == |outcomes|
  {
    exists places: seq<nat> :: IssuesAt(places, issues, rows, outcomes)
  }

  /** A day: every listed security has its decision, in order; every other entry stays. */
  ghost predicate TableDone(session: Session, ordinal: int, rows: seq<Listed>, before: map<int, Anchored>,
                            after: map<int, Anchored>, values: seq<Row>, issues: seq<Problem>)
  {
    && (forall k :: (forall i :: 0 <= i < |rows| ==> rows[i].security != k) ==> EntryOf(after, k) == EntryOf(before, k))
    && exists outcomes: seq<Result<Row>> ::
         && |outcomes| == |rows| && ValuesAre(values, outcomes) && IssuesAre(issues, rows, outcomes)
         && forall i :: 0 <= i < |rows| ==>
              RowDone(rows[i], session, ordinal, EntryOf(before, rows[i].security), EntryOf(after, rows[i].security),
                      outcomes[i])
  }

  lemma {:induction false} DecisionDone(listed: Listed, session: Session, ordinal: int, last: Option<Anchored>)
    ensures var r := Normalize(listed.security, session, ordinal, listed.quote, last);
            RowDone(listed, session, ordinal, last, AnchorAfter(ordinal, r), r)
  {
    NormalizeIff(listed.security, session, ordinal, listed.quote, last);
    hide Normalize, QuoteAllowed;
  }

  lemma {:induction false} ValuesPlaced(outcomes: seq<Result<Row>>)
    ensures ValuesAre(Values(outcomes), outcomes)
  {
    hide ValuesAt;
    if outcomes == [] {
      NoValues();
    } else {
      var n := |outcomes| - 1;
      var front := outcomes[..n];
      ValuesPlaced(front);
      var places :| ValuesAt(places, Values(front), front);
      ValueAdded(places, Values(front), outcomes, n);
      assert Values(front) + [] == Values(front);
    }
  }

  lemma {:induction false} NoValues()
    ensures ValuesAt([], [], [])
  {
  }

  lemma {:induction false} ValueAdded(places: seq<nat>, values: seq<Row>, outcomes: seq<Result<Row>>, n: nat)
    requires |outcomes| == n + 1 && ValuesAt(places, values, outcomes[..n])
    ensures outcomes[n].Err? ==> ValuesAt(places, values, outcomes)
    ensures outcomes[n].Ok? ==> ValuesAt(places + [n], values + [outcomes[n].value], outcomes)
  {
    var more := places + [n];
    assert more[|places|] == n;
    forall i: nat | i < |outcomes| && outcomes[i].Ok? ensures i in more {
      if i < n { assert outcomes[..n][i].Ok?; }
    }
    forall i: nat | i < n && outcomes[i].Ok? ensures i in places { assert outcomes[..n][i].Ok?; }
  }

  lemma {:induction false} IssuesPlaced(rows: seq<Listed>, outcomes: seq<Result<Row>>)
    requires |rows| == |outcomes|
    ensures IssuesAre(Issues(rows, outcomes), rows, outcomes)
  {
    hide IssuesAt;
    if outcomes == [] {
      assert rows == [];
      NoIssues();
    } else {
      var n := |outcomes| - 1;
      var front, before := outcomes[..n], rows[..n];
      IssuesPlaced(before, front);
      var places :| IssuesAt(places, Issues(before, front), before, front);
      IssueAdded(places, Issues(before, front), rows, outcomes, n);
      assert Issues(before, front) + [] == Issues(before, front);
    }
  }

  lemma {:induction false} NoIssues()
    ensures IssuesAt([], [], [], [])
  {
  }

  lemma {:induction false} IssueAdded(places: seq<nat>, issues: seq<Problem>, rows: seq<Listed>,
                                      outcomes: seq<Result<Row>>, n: nat)
    requires |rows| == |outcomes| == n + 1 && IssuesAt(places, issues, rows[..n], outcomes[..n])
    ensures outcomes[n].Ok? ==> IssuesAt(places, issues, rows, outcomes)
    ensures outcomes[n].Err? ==>
              IssuesAt(places + [n], issues + [Problem(rows[n].security, outcomes[n].reason)], rows, outcomes)
  {
    var more := places + [n];
    assert more[|places|] == n;
    forall i: nat | i < |outcomes| && outcomes[i].Err? ensures i in more {
      if i < n { assert outcomes[..n][i].Err?; }
    }
    forall i: nat | i < n && outcomes[i].Err? ensures i in places { assert outcomes[..n][i].Err?; }
  }

  lemma {:induction false} DayDecided(session: Session, ordinal: int, rows: seq<Listed>, before: map<int, Anchored>,
                                      after: map<int, Anchored>)
    requires forall i :: 0 <= i < |rows| ==>
               LookupAnchor(after, rows[i].security)
                 == AnchorAfter(ordinal, Outcomes(session, ordinal, rows, before)[i])
    requires forall k :: (forall i :: 0 <= i < |rows| ==> rows[i].security != k) ==>
               LookupAnchor(after, k) == LookupAnchor(before, k)
    ensures var outcomes := Outcomes(session, ordinal, rows, before);
            TableDone(session, ordinal, rows, before, after, Values(outcomes), Issues(rows, outcomes))
  {
    var outcomes := Outcomes(session, ordinal, rows, before);
    ValuesPlaced(outcomes);
    IssuesPlaced(rows, outcomes);
    assert forall m: map<int, Anchored>, k :: LookupAnchor(m, k) == EntryOf(m, k);
    hide Normalize, RowDone, AnchorAfter, Values, Issues, ValuesAre, IssuesAre, LookupAnchor, EntryOf;
    forall i | 0 <= i < |rows|
      ensures RowDone(rows[i], session, ordinal, EntryOf(before, rows[i].security),
                      EntryOf(after, rows[i].security), outcomes[i]) {
      DecisionDone(rows[i], session, ordinal, EntryOf(before, rows[i].security));
    }
  }

  class ReferenceNormalizer {
    var previous: map<int, Anchored>
    ghost var history: seq<Table>

    /** Every security's entry is where its own run of the tables so far leads. */
    ghost predicate Valid()
      reads this
    {
      Runs(previous, history)
    }

    constructor ()
      ensures Valid() && previous == map[] && history == []
    {
      previous, history := map[], [];
    }

    /** One decision: its row extends or restarts the chain, or its issue breaks it. */
    method NormalizeRow(session: Session, ordinal: int, listed: Listed) returns (r: Result<Row>)
      modifies this`previous
      ensures r == Normalize(listed.security, session, ordinal, listed.quote,
                             LookupAnchor(old(previous), listed.security))
      ensures LookupAnchor(previous, listed.security) == AnchorAfter(ordinal, r)
      ensures forall k :: k != listed.security ==> LookupAnchor(previous, k) == LookupAnchor(old(previous), k)
    {
      hide Normalize;
      r := Normalize(listed.security, session, ordinal, listed.quote, LookupAnchor(previous, listed.security));
      match r {
        case Ok(row) => previous := previous[listed.security := AnchorOf(ordinal, row)];
        case Err(_) => previous := previous - {listed.security};
      }
    }

    /** The day's decisions in order; securities the day does not list keep their entry. */
    method NormalizeDay(session: Session, ordinal: int, rows: seq<Listed>)
      returns (values: seq<Row>, issues: seq<Problem>)
      requires Valid() && Distinct(rows)
      modifies this
      ensures Valid() && history == old(history) + [Table(session, ordinal, rows)]
      ensures var outcomes := Outcomes(session, ordinal, rows, old(previous));
              && values == Values(outcomes) && issues == Issues(rows, outcomes)
              && forall i :: 0 <= i < |rows| ==>
                   LookupAnchor(previous, rows[i].security) == AnchorAfter(ordinal, outcomes[i])
      ensures forall k :: (forall i :: 0 <= i < |rows| ==> rows[i].security != k) ==>
                LookupAnchor(previous, k) == LookupAnchor(old(previous), k)
      ensures TableDone(session, ordinal, rows, old(previous), previous, values, issues)
    {
      hide Normalize, LookupAnchor, AnchorAfter, TableDone;
      values, issues := [], [];
      ghost var outcomes := Outcomes(session, ordinal, rows, previous);
      for n := 0 to |rows|
        invariant history == old(history)
        invariant values == Values(outcomes[..n]) && issues == Issues(rows[..n], outcomes[..n])
        invariant forall i :: 0 <= i < n ==>
                    LookupAnchor(previous, rows[i].security) == AnchorAfter(ordinal, outcomes[i])
        invariant forall k :: (forall i :: 0 <= i < n ==> rows[i].security != k) ==>
                    LookupAnchor(previous, k) == LookupAnchor(old(previous), k)
      {
        assert outcomes[..n + 1][..n] == outcomes[..n] && rows[..n + 1][..n] == rows[..n];
        var r := NormalizeRow(session, ordinal, rows[n]);
        match r {
          case Ok(row) => values := values + [row];
          case Err(reason) => issues := issues + [Problem(rows[n].security, reason)];
        }
      }
      assert outcomes[..|rows|] == outcomes && rows[..|rows|] == rows;
      MovedBy(session, ordinal, rows, old(previous), previous);
      DayDecided(session, ordinal, rows, old(previous), previous);
      RunsNext(old(previous), previous, history, Table(session, ordinal, rows));
      history := history + [Table(session, ordinal, rows)];
    }
  }

  lemma {:induction false} MovedBy(session: Session, ordinal: int, rows: seq<Listed>, before: map<int, Anchored>,
                                   after: map<int, Anchored>)
    requires Distinct(rows)
    requires forall i :: 0 <= i < |rows| ==>
               LookupAnchor(after, rows[i].security)
                 == AnchorAfter(ordinal, Outcomes(session, ordinal, rows, before)[i])
    requires forall k :: (forall i :: 0 <= i < |rows| ==> rows[i].security != k) ==>
               LookupAnchor(after, k) == LookupAnchor(before, k)
    ensures Moved(before, after, Table(session, ordinal, rows))
  {
    hide Normalize, LookupAnchor, AnchorAfter, QuoteIn;
    forall k: int ensures LookupAnchor(after, k) == match QuoteIn(rows, k)
                                                    case None => LookupAnchor(before, k)
                                                    case Some(q) =>
                                                      AnchorAfter(ordinal, Normalize(k, session, ordinal, q,
                                                                                     LookupAnchor(before, k))) {
      if i :| 0 <= i < |rows| && rows[i].security == k {
        QuoteListed(rows, i);
      } else {
        QuoteUnlisted(rows, k);
      }
    }
  }

  /** The row of the last day, if it has one. */
  function LastRow(security: int, days: seq<Joint>): Option<Row>
    requires days != []
  {
    match RowOn(security, days[|days| - 1], Reference(security, days[..|days| - 1]))
    case Some(Ok(r)) => Some(r)
    case _ => None
  }

  function OutcomeDay(security: int, days: seq<Joint>): Input
    requires days != []
  {
    var j := days[|days| - 1];
    Input(j.context, j.session, j.ordinal, SeenAfter(j, RowOn(security, j, Reference(security, days[..|days| - 1]))))
  }

  function OutcomeDays(security: int, days: seq<Joint>): (r: seq<Input>)
    ensures |r| == |days|
  {
    if days == [] then [] else OutcomeDays(security, days[..|days| - 1]) + [OutcomeDay(security, days)]
  }

  /** The rows of the unbroken streak that ends on the last day. */
  function Streak(security: int, days: seq<Joint>): seq<Row>
  {
    if days == [] || LastRow(security, days).None? then []
    else
      var before := days[..|days| - 1];
      (if Continuous(Reference(security, before), days[|days| - 1].ordinal) then Streak(security, before) else [])
      + [LastRow(security, days).value]
  }

  /** The outcome side refuses a complete row only here: a halt whose changed reference its own chain cannot explain. */
  predicate Blocked(r: Row, anchor: Option<Previous>)
  {
    !r.feature.bar.tradable && anchor.Some? && !Near(anchor.value.close, r.feature.preclose) && !Coherent(r.feature)
  }

  function OutcomeAnchor(security: int, days: seq<Joint>): Option<Previous>
    requires days != []
  {
    var s := Run(security, OutcomeDays(security, days[..|days| - 1])).state;
    Anchor(AfterGap(s, security, days[|days| - 1].session, days[|days| - 1].ordinal).state)
  }

  /** The first row of the current streak was not blocked. */
  predicate StartClean(security: int, days: seq<Joint>)
    requires Streak(security, days) != []
  {
    var before := days[..|days| - 1];
    if Continuous(Reference(security, before), days[|days| - 1].ordinal) && Streak(security, before) != [] then
      StartClean(security, before)
    else !Blocked(LastRow(security, days).value, OutcomeAnchor(security, days))
  }

  /** Days in order; a row with conflicting aliases never reaches its numbers. */
  ghost predicate JointDays(days: seq<Joint>)
  {
    && (forall i :: 0 <= i < |days| ==> NoConflict(days[i]))
    && forall i, j :: 0 <= i < j < |days| ==> days[i].session < days[j].session && days[i].ordinal < days[j].ordinal
  }

  predicate NoConflict(j: Joint)
  {
    j.quote.Some? && j.quote.value.Quote? && j.original.Some? ==> j.original.value.conflicting == []
  }

  // ---- one row

  /** Exactly which complete rows the outcome chain refuses. */
  lemma {:induction false} FullAcceptedIff(r: Row, security: int, session: Session, ordinal: int,
                                           previous: Option<Anchored>, anchor: Option<Previous>)
    requires RowSound(r, security, session, previous, ordinal) && SoundAnchor(anchor, session)
    ensures Full(security, session, r.feature, anchor).Ok? <==> !Blocked(r, anchor)
  {
    var p := PricesOf(r.feature);
    var factor := if anchor.Some? then Factor(anchor, p.preclose) else 1.0;
    if anchor.Some? { PositiveQuotient(anchor.value.factor, anchor.value.close, p.preclose); }
    assert 0.0 < factor;
    PositiveProduct(p.open, factor);
    PositiveProduct(p.close, factor);
    assert MakeRecord(security, session, p, anchor, r.feature.bar.availableAt, false).Ok?;
  }

  // ---- both chains, day by day

  /** The same observation on both chains, up to one common scale. */
  predicate Twin(r: Row, e: Record, k: real)
  {
    && e.session == r.feature.bar.session && e.prices == PricesOf(r.feature)
    && e.factor == Times(k, r.factor) && e.returnClose == Times(k, r.returnClose)
  }

  /** The streak's rows and the end of the outcome chain agree one by one; only the first row may be missing. */
  ghost predicate Aligned(rows: seq<Row>, chain: seq<Entry>, k: real)
  {
    && 0.0 < k && |rows| <= |chain| + 1
    && forall i: nat :: i < |rows| <= |chain| + i ==> Twin(rows[i], chain[|chain| - |rows| + i].record, k)
  }

  /** The reference side alone: its streak is the anchor's. */
  ghost predicate StreakKept(anchor: Option<Anchored>, rows: seq<Row>, session: Session, ordinal: int)
  {
    && (anchor.Some? ==> anchor.value.ordinal <= ordinal)
    && (rows == [] ==> anchor.None? || anchor.value.ordinal < ordinal)
    && (rows != [] ==> anchor == Some(AnchorOf(ordinal, rows[|rows| - 1])) && |rows| == rows[|rows| - 1].streak)
    && (rows != [] ==> rows[0].factor == 1.0 && rows[|rows| - 1].chainStart == rows[0].feature.bar.session <= session)
  }

  /** The outcome side beside it. */
  ghost predicate ChainAligned(rows: seq<Row>, t: Trace, ordinal: int, clean: bool)
  {
    rows != [] ==>
      && (exists k: real :: Aligned(rows, t.chain, k))
      && (|rows| <= |t.chain| <==> clean)
      && (t.chain != [] ==> t.chain[|t.chain| - 1].ordinal == ordinal)
      && (|t.chain| < |rows| ==> rows[0].feature.bar.session !in t.accepted)
  }

  lemma {:induction false} StreakNext(security: int, days: seq<Joint>, session: Session, ordinal: int)
    requires days != []
    requires var n := |days| - 1;
             && session < days[n].session && ordinal < days[n].ordinal
             && StreakKept(Reference(security, days[..n]), Streak(security, days[..n]), session, ordinal)
    ensures StreakKept(Reference(security, days), Streak(security, days), days[|days| - 1].session,
                       days[|days| - 1].ordinal)
  {
    var n := |days| - 1;
    var r := RowOn(security, days[n], Reference(security, days[..n]));
    if r.Some? {
      NormalizeSound(security, days[n].session, days[n].ordinal, days[n].quote.value, Reference(security, days[..n]));
    }
    hide Normalize;
  }

  lemma {:induction false} FullRecord(r: Row, security: int, session: Session, anchor: Option<Previous>)
    ensures var b := Full(security, session, r.feature, anchor);
            b.Ok? ==> && Linked(anchor, b.value.record) && b.value.record.prices == PricesOf(r.feature)
                      && b.value.record.session == session && b.value.confirms == Active(r.feature.bar)
                      && !b.value.record.priceOnly
  {
    MakeRecordLinks(security, session, PricesOf(r.feature), anchor, r.feature.bar.availableAt, false);
  }

  /** A complete row is built by the full branch, whatever else the day says. */
  lemma {:induction false} RowIsFull(security: int, j: Joint, r: Row, anchor: Option<Previous>)
    requires NoConflict(j) && j.quote.Some? && j.quote.value.Quote?
    ensures var x := Seen(Some(r.feature), j.original, [], j.decision);
            Build(j.context, security, j.session, x, anchor) == Full(security, j.session, r.feature, anchor)
  {
    hide Full, Sparse, Consensus;
  }

  /** The scale of the first shared row. */
  lemma {:induction false} FirstTwin(r: Row, e: Record, previous: Option<Previous>, security: int, session: Session,
                                     a: Option<Anchored>, ordinal: int)
    requires RowSound(r, security, session, a, ordinal)
    requires Linked(previous, e) && e.prices == PricesOf(r.feature) && e.session == session
    ensures 0.0 < r.factor && 0.0 < e.factor / r.factor && Twin(r, e, e.factor / r.factor)
  {
    hide Times, ValidBar, Coherent, Continues, PositivePrices;
    TwinAt(r, e);
  }

  lemma {:induction false} TwinAt(r: Row, e: Record)
    requires 0.0 < r.factor && 0.0 < e.factor && e.prices == PricesOf(r.feature) && e.session == r.feature.bar.session
    requires r.returnClose == r.feature.bar.close * r.factor && e.returnClose == e.prices.close * e.factor
    ensures 0.0 < e.factor / r.factor && Twin(r, e, e.factor / r.factor)
  {
    hide Times;
    var k := e.factor / r.factor;
    PositiveRatio(e.factor, r.factor);
    ScaledReturn(k, r.factor, e.factor, r.feature.bar.close, r.returnClose, e.returnClose);
  }

  lemma {:induction false} PositiveRatio(a: real, b: real)
    requires 0.0 < a && 0.0 < b
    ensures 0.0 < a / b && a == Times(a / b, b)
  {
  }

  lemma {:induction false} SameScale(k: real, before: real, close: real, r: real, e: real, preclose: real)
    requires preclose != 0.0 && r * preclose == before * close && e * preclose == Times(k, before) * close
    ensures e == Times(k, r)
  {
    Associate(k, r, preclose);
    Associate(k, before, close);
    Cancel(e, Times(k, r), preclose);
  }

  lemma {:induction false} Cancel(a: real, b: real, c: real)
    requires c != 0.0 && a * c == Times(b, c)
    ensures a == b
  {
    assert a == a * c / c;
  }

  /** One more day scales both factors alike. */
  lemma {:induction false} NextTwin(r: Row, e: Record, security: int, session: Session, a: Anchored, ordinal: int,
                                    before: Row, entry: Entry, k: real)
    requires Continuous(Some(a), ordinal) && RowSound(r, security, session, Some(a), ordinal)
          && a == AnchorOf(ordinal - 1, before)
    requires Twin(before, entry.record, k) && Linked(Some(PreviousAt(entry.ordinal, entry.record)), e)
    requires e.prices == PricesOf(r.feature) && e.session == session
    ensures Twin(r, e, k)
  {
    hide Times;
    SameScale(k, before.factor, before.feature.bar.close, r.factor, e.factor, r.feature.preclose);
    ScaledReturn(k, r.factor, e.factor, r.feature.bar.close, r.returnClose, e.returnClose);
  }

  lemma {:induction false} ScaledReturn(k: real, r: real, e: real, close: real, before: real, after: real)
    requires e == Times(k, r) && before == close * r && after == close * e
    ensures after == Times(k, before)
  {
    assert close * (k * r) == k * (close * r);
  }

  /** The outcome normalizer takes a complete row exactly when its own anchor does not block it. */
  lemma {:induction false} RowTaken(security: int, j: Joint, r: Row, a: Option<Anchored>, t: Trace)
    requires NoConflict(j) && RowOn(security, j, a) == Some(Ok(r)) && Kept(security, t)
    requires Until(t, j.session - 1, j.ordinal - 1)
    ensures var anchor := Anchor(AfterGap(t.state, security, j.session, j.ordinal).state);
            var day := Input(j.context, j.session, j.ordinal, SeenAfter(j, RowOn(security, j, a)));
            && SeenValid(day.seen.value) && RowSound(r, security, j.session, a, j.ordinal)
            && (Attempt(security, day, t.state).Some? <==> !Blocked(r, anchor))
            && (Attempt(security, day, t.state).Some? ==>
                  var b := Attempt(security, day, t.state).value;
                  Linked(anchor, b.record) && b.record.prices == PricesOf(r.feature) && b.record.session == j.session
                  && b.confirms == Active(r.feature.bar) && !b.record.priceOnly)
  {
    var anchor := Anchor(AfterGap(t.state, security, j.session, j.ordinal).state);
    NormalizeSound(security, j.session, j.ordinal, j.quote.value, a);
    hide Normalize;
    RowIsFull(security, j, r, anchor);
    hide Build;
    AnchorSound(security, t, j.session, j.ordinal);
    hide Kept, Until;
    FullAcceptedIff(r, security, j.session, j.ordinal, a, anchor);
    FullRecord(r, security, j.session, anchor);
  }

  lemma {:induction false} AnchorSound(security: int, t: Trace, session: Session, ordinal: int)
    requires Kept(security, t) && Until(t, session - 1, ordinal - 1)
    ensures SoundAnchor(Anchor(AfterGap(t.state, security, session, ordinal).state), session)
  {
    hide Conserved, EmittedKept, AvailabilityKept, ChainEmitted;
    if t.chain != [] { assert LinkAt(security, t.chain, |t.chain| - 1); }
  }

  // ---- the coupling, one day further

  lemma {:induction false} LastTwin(rows: seq<Row>, chain: seq<Entry>, k: real, r: Row, e: Entry)
    requires Aligned(rows, chain, k) && Twin(r, e.record, k)
    ensures Aligned(rows + [r], chain + [e], k)
  {
    hide Twin;
    var n, c := rows + [r], chain + [e];
    forall i: nat | i < |n| <= |c| + i ensures Twin(n[i], c[|c| - |n| + i].record, k) {
      if i < |rows| { assert c[|c| - |n| + i] == chain[|chain| - |rows| + i]; }
    }
  }

  /** A streak that goes on: never blocked, and aligned at the same scale. */
  lemma {:induction false} StreakContinues(security: int, rows: seq<Row>, t: Trace, r: Row, a: Anchored,
                                           session: Session, ordinal: int, clean: bool, record: Record)
    requires rows != [] && ChainAligned(rows, t, ordinal - 1, clean) && StateKept(t.state, t.chain)
    requires a == AnchorOf(ordinal - 1, rows[|rows| - 1]) && RowSound(r, security, session, Some(a), ordinal)
    requires Linked(Anchor(t.state), record) && record.prices == PricesOf(r.feature) && record.session == session
    ensures exists k: real :: Aligned(rows + [r], t.chain + [Entry(ordinal, record)], k)
  {
    hide Linked, RowSound, Twin;
    var e := Entry(ordinal, record);
    if t.chain == [] {
      FirstTwin(r, record, None, security, session, Some(a), ordinal);
      var k := record.factor / r.factor;
      var n := rows + [r];
      assert Aligned(n, [e], k) by {
        assert n[1] == r;
      }
      assert t.chain + [e] == [e];
    } else {
      var k: real :| Aligned(rows, t.chain, k);
      var last := t.chain[|t.chain| - 1];
      assert Twin(rows[|rows| - 1], t.chain[|t.chain| - |rows| + (|rows| - 1)].record, k);
      NextTwin(r, record, security, session, a, ordinal, rows[|rows| - 1], last, k);
      LastTwin(rows, t.chain, k, r, e);
    }
  }

  lemma {:induction false} ContinuesUnblocked(security: int, rows: seq<Row>, t: Trace, r: Row, a: Anchored,
                                              session: Session, ordinal: int, clean: bool)
    requires rows != [] && ChainAligned(rows, t, ordinal - 1, clean) && StateKept(t.state, t.chain)
    requires a == AnchorOf(ordinal - 1, rows[|rows| - 1]) && RowSound(r, security, session, Some(a), ordinal)
    ensures !Gap(t.state, ordinal) && !Blocked(r, Anchor(t.state))
  {
    if t.chain != [] {
      var k: real :| Aligned(rows, t.chain, k);
      assert Twin(rows[|rows| - 1], t.chain[|t.chain| - |rows| + (|rows| - 1)].record, k);
    }
  }

  /** A streak that starts: aligned by its first row alone, unless that row was blocked. */
  lemma {:induction false} StreakStarts(security: int, chain: seq<Entry>, r: Row, session: Session, ordinal: int,
                                        a: Option<Anchored>, anchor: Option<Previous>, record: Record)
    requires RowSound(r, security, session, a, ordinal) && Linked(anchor, record)
    requires record.prices == PricesOf(r.feature) && record.session == session
    ensures exists k: real :: Aligned([r], chain + [Entry(ordinal, record)], k)
  {
    FirstTwin(r, record, anchor, security, session, a, ordinal);
    hide Linked, RowSound, Twin;
    assert Aligned([r], chain + [Entry(ordinal, record)], record.factor / r.factor);
  }

  ghost predicate Coupled(security: int, days: seq<Joint>, session: Session, ordinal: int)
  {
    var rows := Streak(security, days);
    && StreakKept(Reference(security, days), rows, session, ordinal)
    && ChainAligned(rows, Run(security, OutcomeDays(security, days)), ordinal, rows != [] && StartClean(security, days))
  }

  /** What RowTaken establishes about the day's attempt. */
  ghost predicate Taken(security: int, day: Input, t: Trace, r: Row, a: Option<Anchored>)
  {
    var anchor := Anchor(AfterGap(t.state, security, day.session, day.ordinal).state);
    var b := Attempt(security, day, t.state);
    && RowSound(r, security, day.session, a, day.ordinal)
    && (b.Some? <==> !Blocked(r, anchor))
    && (b.Some? ==> Linked(anchor, b.value.record) && b.value.record.prices == PricesOf(r.feature)
                    && b.value.record.session == day.session)
  }

  lemma {:induction false} NextContinues(security: int, rows: seq<Row>, t: Trace, r: Row, a: Anchored, day: Input,
                                         clean: bool)
    requires Taken(security, day, t, r, Some(a)) && rows != [] && ChainAligned(rows, t, day.ordinal - 1, clean)
    requires StateKept(t.state, t.chain) && a == AnchorOf(day.ordinal - 1, rows[|rows| - 1])
    requires rows[0].feature.bar.session < day.session
    requires Continuous(Some(a), day.ordinal)
    ensures ChainAligned(rows + [r], Next(t, security, day), day.ordinal, clean)
  {
    hide Linked, Aligned, RowSound, Attempt, Blocked;
    ContinuesUnblocked(security, rows, t, r, a, day.session, day.ordinal, clean);
    var b := Attempt(security, day, t.state).value;
    StreakContinues(security, rows, t, r, a, day.session, day.ordinal, clean, b.record);
    hide Accept;
    assert Next(t, security, day) == Joined(t, day.ordinal, b);
  }

  lemma {:induction false} NextStarts(security: int, t: Trace, r: Row, a: Option<Anchored>, day: Input)
    requires Taken(security, day, t, r, a) && Until(t, day.session - 1, day.ordinal - 1)
    ensures ChainAligned([r], Next(t, security, day), day.ordinal,
                         !Blocked(r, Anchor(AfterGap(t.state, security, day.session, day.ordinal).state)))
  {
    hide Linked, Aligned, Attempt, Accept, Blocked;
    var b := Attempt(security, day, t.state);
    if b.Some? {
      var base := if Gap(t.state, day.ordinal) then Dropped(t) else t;
      StreakStarts(security, base.chain, r, day.session, day.ordinal, a,
                   Anchor(AfterGap(t.state, security, day.session, day.ordinal).state), b.value.record);
    } else {
      AlignedEmpty([r]);
    }
  }

  lemma {:induction false} AlignedEmpty(rows: seq<Row>)
    requires |rows| == 1
    ensures Aligned(rows, [], 1.0)
  {
  }

  /** How the streak and its cleanness grow, and what each normalizer is handed. */
  lemma {:induction false} StreakCases(security: int, days: seq<Joint>)
    requires days != []
    ensures var before, j := days[..|days| - 1], days[|days| - 1];
            var a, day := Reference(security, before), OutcomeDay(security, days);
            && day == Input(j.context, j.session, j.ordinal, SeenAfter(j, RowOn(security, j, a)))
            && (LastRow(security, days).None? ==> Streak(security, days) == [])
            && (LastRow(security, days).Some? ==>
                  var r := LastRow(security, days).value;
                  && RowOn(security, j, a) == Some(Ok(r))
                  && Streak(security, days) == (if Continuous(a, j.ordinal) then Streak(security, before) else []) + [r]
                  && (StartClean(security, days) <==>
                        if Continuous(a, j.ordinal) && Streak(security, before) != [] then StartClean(security, before)
                        else !Blocked(r, OutcomeAnchor(security, days))))
  {
    hide Run, Normalize, Blocked, AfterGap;
  }

  /** The day's row on both sides, when there is one. */
  lemma {:induction false} ChainAlignedNext(security: int, days: seq<Joint>, session: Session, ordinal: int, t: Trace,
                                            rows: seq<Row>)
    requires days != [] && NoConflict(days[|days| - 1])
    requires session < days[|days| - 1].session && ordinal < days[|days| - 1].ordinal
    requires t == Run(security, OutcomeDays(security, days[..|days| - 1]))
          && rows == Streak(security, days[..|days| - 1])
    requires StreakKept(Reference(security, days[..|days| - 1]), rows, session, ordinal)
    requires ChainAligned(rows, t, ordinal, rows != [] && StartClean(security, days[..|days| - 1]))
    requires Kept(security, t) && Until(t, days[|days| - 1].session - 1, days[|days| - 1].ordinal - 1)
    ensures ChainAligned(Streak(security, days), Next(t, security, OutcomeDay(security, days)),
                         days[|days| - 1].ordinal,
                         Streak(security, days) != [] && StartClean(security, days))
  {
    hide *;
    var n := |days| - 1;
    var before, j := days[..n], days[n];
    var a, day := Reference(security, before), OutcomeDay(security, days);
    StreakCases(security, days);
    if LastRow(security, days).Some? {
      var r := LastRow(security, days).value;
      RowTaken(security, j, r, a, t);
      TakenIs(security, day, t, r, a);
      KeptState(security, t);
      if Continuous(a, j.ordinal) {
        ContinuesStreak(a, rows, session, ordinal, j.session, j.ordinal);
        NextContinues(security, rows, t, r, a.value, day, StartClean(security, before));
      } else {
        NextStarts(security, t, r, a, day);
        AnchorIs(security, days, t);
        assert [] + [r] == [r];
      }
    } else {
      NoStreak(Next(t, security, day), j.ordinal);
    }
  }

  lemma {:induction false} AnchorIs(security: int, days: seq<Joint>, t: Trace)
    requires days != [] && t == Run(security, OutcomeDays(security, days[..|days| - 1]))
    ensures OutcomeAnchor(security, days)
         == Anchor(AfterGap(t.state, security, days[|days| - 1].session, days[|days| - 1].ordinal).state)
  {
    hide Run, OutcomeDays, AfterGap;
  }

  lemma {:induction false} KeptState(security: int, t: Trace)
    requires Kept(security, t)
    ensures StateKept(t.state, t.chain)
  {
    hide StateKept;
  }

  lemma {:induction false} TakenIs(security: int, day: Input, t: Trace, r: Row, a: Option<Anchored>)
    requires var anchor := Anchor(AfterGap(t.state, security, day.session, day.ordinal).state);
             var b := Attempt(security, day, t.state);
             && RowSound(r, security, day.session, a, day.ordinal)
             && (b.Some? <==> !Blocked(r, anchor))
             && (b.Some? ==> Linked(anchor, b.value.record) && b.value.record.prices == PricesOf(r.feature)
                             && b.value.record.session == day.session)
    ensures Taken(security, day, t, r, a)
  {
    hide RowSound, Attempt, Blocked, Linked, AfterGap;
  }

  /** A continuous anchor was set on the day before, by the last row of the streak. */
  lemma {:induction false} ContinuesStreak(a: Option<Anchored>, rows: seq<Row>, session: Session, ordinal: int,
                                           today: Session, next: int)
    requires StreakKept(a, rows, session, ordinal) && Continuous(a, next) && ordinal < next && session < today
    ensures rows != [] && ordinal == next - 1 && a == Some(AnchorOf(next - 1, rows[|rows| - 1]))
    ensures rows[0].feature.bar.session < today
  {
  }

  lemma {:induction false} NoStreak(t: Trace, ordinal: int)
    ensures ChainAligned([], t, ordinal, false)
  {
  }

  lemma {:induction false} JointPrefix(days: seq<Joint>)
    requires JointDays(days) && days != []
    ensures JointDays(days[..|days| - 1]) && NoConflict(days[|days| - 1])
    ensures |days| > 1 ==> var n := |days| - 1;
                           days[n - 1].session < days[n].session && days[n - 1].ordinal < days[n].ordinal
  {
    hide NoConflict;
  }

  lemma {:induction false} OutcomeDayValid(security: int, days: seq<Joint>)
    requires days != []
    ensures var x := OutcomeDay(security, days);
            && x.session == days[|days| - 1].session && x.ordinal == days[|days| - 1].ordinal
            && (x.seen.Some? ==> SeenValid(x.seen.value))
  {
    var j := days[|days| - 1];
    if j.quote.Some? {
      NormalizeSound(security, j.session, j.ordinal, j.quote.value, Reference(security, days[..|days| - 1]));
    }
    hide Normalize;
  }

  /** What holds of one security's history before a new day. */
  ghost predicate Ready(security: int, days: seq<Joint>, session: Session, ordinal: int)
  {
    var t := Run(security, OutcomeDays(security, days));
    Coupled(security, days, session, ordinal) && Kept(security, t) && Until(t, session, ordinal)
  }

  lemma {:induction false} ReadyStart(security: int, session: Session, ordinal: int)
    ensures Ready(security, [], session, ordinal)
  {
    StartKept(security, session, ordinal);
  }

  lemma {:induction false} ReadyNext(security: int, days: seq<Joint>, session: Session, ordinal: int)
    requires days != [] && NoConflict(days[|days| - 1]) && Ready(security, days[..|days| - 1], session, ordinal)
    requires session < days[|days| - 1].session && ordinal < days[|days| - 1].ordinal
    ensures Ready(security, days, days[|days| - 1].session, days[|days| - 1].ordinal)
  {
    hide *;
    var n := |days| - 1;
    var before, j := days[..n], days[n];
    var t, day := Run(security, OutcomeDays(security, before)), OutcomeDay(security, days);
    ReadyParts(security, before, session, ordinal);
    OutcomeDayValid(security, days);
    UntilLater(t, session, ordinal, j.session - 1, j.ordinal - 1);
    NextKeeps(security, t, day);
    StreakNext(security, days, session, ordinal);
    ChainAlignedNext(security, days, session, ordinal, t, Streak(security, before));
    OutcomeDaysGrow(security, days);
    RunNext(security, OutcomeDays(security, days));
    ReadyFrom(security, days, Next(t, security, day));
  }

  lemma {:induction false} ReadyParts(security: int, days: seq<Joint>, session: Session, ordinal: int)
    requires Ready(security, days, session, ordinal)
    ensures var t, rows := Run(security, OutcomeDays(security, days)), Streak(security, days);
            && Kept(security, t) && Until(t, session, ordinal)
            && StreakKept(Reference(security, days), rows, session, ordinal)
            && ChainAligned(rows, t, ordinal, rows != [] && StartClean(security, days))
  {
    hide Run, OutcomeDays, Kept, Until, StreakKept, ChainAligned, Streak, StartClean, Reference;
  }

  lemma {:induction false} ReadyFrom(security: int, days: seq<Joint>, t: Trace)
    requires days != [] && t == Run(security, OutcomeDays(security, days))
    requires Kept(security, t) && Until(t, days[|days| - 1].session, days[|days| - 1].ordinal)
    requires StreakKept(Reference(security, days), Streak(security, days), days[|days| - 1].session,
                        days[|days| - 1].ordinal)
    requires ChainAligned(Streak(security, days), t, days[|days| - 1].ordinal,
                          Streak(security, days) != [] && StartClean(security, days))
    ensures Ready(security, days, days[|days| - 1].session, days[|days| - 1].ordinal)
  {
    hide Run, OutcomeDays, Kept, Until, StreakKept, ChainAligned, Streak, StartClean, Reference;
  }

  lemma {:induction false} OutcomeDaysGrow(security: int, days: seq<Joint>)
    requires days != []
    ensures var all := OutcomeDays(security, days);
            && all[|all| - 1] == OutcomeDay(security, days)
            && all[..|all| - 1] == OutcomeDays(security, days[..|days| - 1])
  {
    hide OutcomeDay;
  }

  /** On every run, after every day, the two normalizers stand in step. */
  lemma {:induction false} RunsInStep(security: int, days: seq<Joint>)
    requires JointDays(days) && days != []
    ensures Ready(security, days, days[|days| - 1].session, days[|days| - 1].ordinal)
  {
    hide *;
    var n := |days| - 1;
    JointPrefix(days);
    if n > 0 {
      RunsInStep(security, days[..n]);
      ReadyNext(security, days, days[n - 1].session, days[n - 1].ordinal);
    } else {
      assert days[..n] == [];
      ReadyStart(security, days[n].session - 1, days[n].ordinal - 1);
      ReadyNext(security, days, days[n].session - 1, days[n].ordinal - 1);
    }
  }

  // ---- the guarantees

  /** An emitted record of the row's session and prices. */
  ghost predicate Published(r: Row, emitted: seq<Record>)
  {
    exists m :: 0 <= m < |emitted| && emitted[m].session == r.feature.bar.session
             && emitted[m].prices == PricesOf(r.feature)
  }

  /** The same, with its return value on the common scale. */
  ghost predicate PublishedAt(r: Row, emitted: seq<Record>, k: real)
  {
    exists m :: 0 <= m < |emitted| && Twin(r, emitted[m], k)
  }

  lemma {:induction false} TwinPublished(r: Row, e: Record, emitted: seq<Record>, k: real)
    requires Twin(r, e, k) && IsEmitted(e, emitted)
    ensures PublishedAt(r, emitted, k) && Published(r, emitted)
  {
    hide Times;
    var m :| 0 <= m < |emitted| && Delayed(emitted[m], e);
    assert Twin(r, emitted[m], k);
  }

  /** With nothing pending, every row the two chains share is published. */
  lemma {:induction false} SharedPublished(t: Trace, rows: seq<Row>, k: real, i: nat)
    requires Aligned(rows, t.chain, k) && ChainEmitted(t) && Pending(t.state) == [] && i < |rows| <= |t.chain| + i
    ensures PublishedAt(rows[i], t.emitted, k) && Published(rows[i], t.emitted)
  {
    var e := t.chain[|t.chain| - |rows| + i].record;
    assert Twin(rows[i], e, k);
    assert IsEmitted(e, t.emitted);
    TwinPublished(rows[i], e, t.emitted, k);
  }

  /** A session that was never accepted is never published. */
  lemma {:induction false} NeverPublished(t: Trace, r: Row)
    requires Conserved(t) && r.feature.bar.session !in t.accepted
    ensures !Published(r, t.emitted)
  {
    forall m | 0 <= m < |t.emitted| ensures t.emitted[m].session != r.feature.bar.session {
      assert Held(t)[m] in multiset(Held(t));
      assert Held(t)[m] in multiset(t.accepted);
    }
  }

  /** An active row leaves nothing pending behind it. */
  lemma {:induction false} ActiveConfirms(security: int, days: seq<Joint>)
    requires JointDays(days) && days != [] && LastRow(security, days).Some?
          && Active(LastRow(security, days).value.feature.bar)
    ensures Pending(Run(security, OutcomeDays(security, days)).state) == []
  {
    hide *;
    var n := |days| - 1;
    var before, j, r := days[..n], days[n], LastRow(security, days).value;
    JointPrefix(days);
    var t := Run(security, OutcomeDays(security, before));
    if n > 0 {
      RunsInStep(security, before);
      ReadyParts(security, before, days[n - 1].session, days[n - 1].ordinal);
      UntilLater(t, days[n - 1].session, days[n - 1].ordinal, j.session - 1, j.ordinal - 1);
    } else {
      assert before == [];
      ReadyStart(security, j.session - 1, j.ordinal - 1);
      ReadyParts(security, before, j.session - 1, j.ordinal - 1);
    }
    StreakCases(security, days);
    RowTaken(security, j, r, Reference(security, before), t);
    OutcomeDaysGrow(security, days);
    RunNext(security, OutcomeDays(security, days));
    NothingPending(security, t, OutcomeDay(security, days));
  }

  lemma {:induction false} NothingPending(security: int, t: Trace, day: Input)
    requires Attempt(security, day, t.state).Some? ==> Attempt(security, day, t.state).value.confirms
    requires Attempt(security, day, t.state).Some? ==> !Attempt(security, day, t.state).value.record.priceOnly
    ensures Pending(Next(t, security, day).state) == []
  {
    hide Attempt;
  }

  /** The streak's length counts the rows: an eligible one has at least the history it needs. */
  lemma {:induction false} EligibleLength(security: int, days: seq<Joint>)
    requires JointDays(days) && days != [] && LastRow(security, days).Some? && LastRow(security, days).value.eligible
    ensures STREAK_NEEDED <= |Streak(security, days)| && Streak(security, days) != []
         && Active(LastRow(security, days).value.feature.bar)
  {
    hide *;
    RunsInStep(security, days);
    ReadyParts(security, days, days[|days| - 1].session, days[|days| - 1].ordinal);
    StreakCases(security, days);
    EligibleRow(security, days);
    StreakCounted(Reference(security, days), Streak(security, days), days[|days| - 1].session,
                  days[|days| - 1].ordinal);
  }

  lemma {:induction false} StreakCounted(anchor: Option<Anchored>, rows: seq<Row>, session: Session, ordinal: int)
    requires StreakKept(anchor, rows, session, ordinal) && rows != []
    ensures |rows| == rows[|rows| - 1].streak
  {
  }

  lemma {:induction false} EligibleRow(security: int, days: seq<Joint>)
    requires days != [] && LastRow(security, days).Some? && LastRow(security, days).value.eligible
    ensures var r := LastRow(security, days).value; STREAK_NEEDED <= r.streak && Active(r.feature.bar)
  {
    hide Active;
  }

  /** The rows needed beside the newest streak's first are all published, on one scale. */
  ghost predicate LatestPublished(rows: seq<Row>, emitted: seq<Record>, k: real)
  {
    0.0 < k && forall i: nat :: |rows| - (STREAK_NEEDED - 1) <= i < |rows| ==> PublishedAt(rows[i], emitted, k)
  }

  /**
   * An eligible row comes with published outcome prices for the sixty latest rows of its streak, all on one scale,
   * and for the sixty-first exactly when the streak is older than that or its first row was not blocked.
   */
  lemma {:induction false} EligiblePublished(security: int, days: seq<Joint>)
    requires JointDays(days) && days != [] && LastRow(security, days).Some? && LastRow(security, days).value.eligible
    ensures var rows, t := Streak(security, days), Run(security, OutcomeDays(security, days));
            && STREAK_NEEDED <= |rows|
            && (exists k: real :: LatestPublished(rows, t.emitted, k))
            && (Published(rows[|rows| - STREAK_NEEDED], t.emitted)
                <==> STREAK_NEEDED < |rows| || StartClean(security, days))
  {
    hide *;
    var rows, t := Streak(security, days), Run(security, OutcomeDays(security, days));
    EligibleLength(security, days);
    ActiveConfirms(security, days);
    RunsInStep(security, days);
    ReadyParts(security, days, days[|days| - 1].session, days[|days| - 1].ordinal);
    PublishedRows(security, rows, t, days[|days| - 1].ordinal, StartClean(security, days));
  }

  lemma {:induction false} PublishedRows(security: int, rows: seq<Row>, t: Trace, ordinal: int, clean: bool)
    requires STREAK_NEEDED <= |rows| && ChainAligned(rows, t, ordinal, clean) && Kept(security, t)
          && Pending(t.state) == []
    ensures exists k: real :: LatestPublished(rows, t.emitted, k)
    ensures Published(rows[|rows| - STREAK_NEEDED], t.emitted) <==> STREAK_NEEDED < |rows| || clean
  {
    hide Twin, ChainKept, StateKept, Conserved, EmittedKept, AvailabilityKept, ChainEmitted, Published, PublishedAt,
         Pending;
    var k: real :| Aligned(rows, t.chain, k);
    forall i: nat | |rows| - (STREAK_NEEDED - 1) <= i < |rows| ensures PublishedAt(rows[i], t.emitted, k) {
      SharedPublished(t, rows, k, i);
    }
    assert LatestPublished(rows, t.emitted, k);
    var first := |rows| - STREAK_NEEDED;
    if |rows| <= |t.chain| + first {
      SharedPublished(t, rows, k, first);
    } else {
      NeverPublished(t, rows[0]);
    }
  }

  /** The rows of a streak are the rows of its last days, on consecutive ordinals. */
  lemma {:induction false} StreakDays(security: int, days: seq<Joint>, i: nat)
    requires JointDays(days) && i < |Streak(security, days)|
    ensures var rows := Streak(security, days);
            && |rows| <= |days|
            && LastRow(security, days[..|days| - |rows| + i + 1]) == Some(rows[i])
            && days[|days| - |rows| + i].ordinal == days[|days| - 1].ordinal - (|rows| - 1 - i)
  {
    hide *;
    var n, rows := |days| - 1, Streak(security, days);
    StreakLast(security, days);
    var before := days[..n];
    JointPrefix(days);
    assert days[..n + 1] == days;
    if |rows| > 1 {
      var k := if i < |rows| - 1 then i else i - 1;
      StreakDays(security, before, k);
      assert before[..n - |Streak(security, before)| + k + 1] == days[..n - |Streak(security, before)| + k + 1];
      StreakDays(security, before, |rows| - 2);
      PriorDay(security, days);
    }
  }

  /** A nonempty streak is the streak of the day before, if it goes on, and the last day's row. */
  lemma {:induction false} StreakLast(security: int, days: seq<Joint>)
    requires Streak(security, days) != []
    ensures days != [] && LastRow(security, days).Some?
    ensures var rows := Streak(security, days);
            && rows[|rows| - 1] == LastRow(security, days).value
            && (|rows| > 1 ==> rows[..|rows| - 1] == Streak(security, days[..|days| - 1]))
  {
    hide Normalize, RowOn, Reference;
  }

  /** A streak of two rows or more has its last two on neighbouring ordinals. */
  lemma {:induction false} PriorDay(security: int, days: seq<Joint>)
    requires JointDays(days) && |Streak(security, days)| > 1
    ensures |days| > 1 && days[|days| - 2].ordinal == days[|days| - 1].ordinal - 1
  {
    hide Normalize, RowOn, StreakKept, ChainAligned;
    var n := |days| - 1;
    JointPrefix(days);
    if n > 0 {
      RunsInStep(security, days[..n]);
      ReadyParts(security, days[..n], days[n - 1].session, days[n - 1].ordinal);
      ContinuesStreak(Reference(security, days[..n]), Streak(security, days[..n]), days[n - 1].session,
                      days[n - 1].ordinal,
                      days[n].session, days[n].ordinal);
    }
  }

  // ---- a complete row every day

  lemma {:induction false} FullRunClean(security: int, days: seq<Joint>)
    requires days != [] && |Streak(security, days)| == |days|
    ensures StartClean(security, days)
  {
    hide Normalize, RowOn, Reference, Blocked, Next, Advance;
    var before := days[..|days| - 1];
    if before != [] {
      assert |Streak(security, before)| <= |before| by { StreakShort(security, before); }
      FullRunClean(security, before);
    } else {
      NotBlockedAtStart(LastRow(security, days).value);
    }
  }

  lemma {:induction false} NotBlockedAtStart(r: Row)
    ensures !Blocked(r, None)
  {
  }

  lemma {:induction false} StreakShort(security: int, days: seq<Joint>)
    ensures |Streak(security, days)| <= |days|
  {
    hide LastRow, Reference;
    if days != [] { StreakShort(security, days[..|days| - 1]); }
  }

  lemma {:induction false} ChainShort(security: int, days: seq<Input>)
    ensures |Run(security, days).chain| <= |days|
  {
    hide Attempt, Accept;
    if days != [] {
      RunNext(security, days);
      ChainShort(security, days[..|days| - 1]);
    }
  }

  /** Given a complete row every session, both normalizers hold the same close, factor and chain start. */
  lemma {:induction false} FullRunAgrees(security: int, days: seq<Joint>)
    requires JointDays(days) && days != [] && |Streak(security, days)| == |days|
    ensures var s, r := Run(security, OutcomeDays(security, days)).state, Streak(security, days)[|days| - 1];
            && s.Chain? && s.previous.ordinal == days[|days| - 1].ordinal && s.previous.close == r.feature.bar.close
            && s.previous.factor == r.factor && s.previous.chainStart == r.chainStart
  {
    hide *;
    var rows, t := Streak(security, days), Run(security, OutcomeDays(security, days));
    FullRunClean(security, days);
    ChainShort(security, OutcomeDays(security, days));
    RunsInStep(security, days);
    ReadyParts(security, days, days[|days| - 1].session, days[|days| - 1].ordinal);
    SameScaleEverywhere(security, rows, t, Reference(security, days), days[|days| - 1].session,
                        days[|days| - 1].ordinal);
  }

  lemma {:induction false} SameScaleEverywhere(security: int, rows: seq<Row>, t: Trace, anchor: Option<Anchored>,
                                               session: Session, ordinal: int)
    requires rows != [] && ChainAligned(rows, t, ordinal, true) && StreakKept(anchor, rows, session, ordinal)
    requires Kept(security, t) && |t.chain| <= |rows|
    ensures var s, r := t.state, rows[|rows| - 1];
            && s.Chain? && s.previous.ordinal == ordinal && s.previous.close == r.feature.bar.close
            && s.previous.factor == r.factor && s.previous.chainStart == r.chainStart
  {
    hide Times, Conserved, EmittedKept, AvailabilityKept, ChainEmitted;
    var k: real :| Aligned(rows, t.chain, k);
    var n := |rows| - 1;
    assert Twin(rows[0], t.chain[0].record, k) && Twin(rows[n], t.chain[n].record, k);
    assert LinkAt(security, t.chain, 0);
    UnitScale(k, rows[n].factor);
    ChainFacts(security, t.chain, 0, n);
  }

  lemma {:induction false} UnitScale(k: real, x: real)
    ensures Times(k, 1.0) == 1.0 ==> Times(k, x) == x
  {
  }

  // ---- the blocked start is reachable

  const HALT_ROW: Raw := map[
    "date" := "d", "adjustflag" := "3", "tradestatus" := "0", "volume" := "", "amount" := "",
    "open" := "10", "high" := "10", "low" := "10", "close" := "10", "preclose" := "10"]

  function HaltContext(): Context
  {
    Context(map["x" := HALT_ROW], (s: string) => Finite(10.0), (s: string) => Finite(10.0),
            (d: Session) => "d", (s: string) => "x", (s: string) => 1, {})
  }

  /** A traded day, a halt with unknown activity, then a halt whose reference price moved. */
  function BlockedDays(): seq<Joint>
  {
    var halt := Decision(["x"], Some("x"), [], [], false);
    [Joint(0, 0, HaltContext(), Some(Quote(10.0, 10.0, 10.0, 10.0, 10.0, 5.0, 50.0, true)), None, Some(halt)),
     Joint(1, 1, HaltContext(), Some(Refused("RAW_NUMERIC_INVALID")), None, Some(halt)),
     Joint(2, 2, HaltContext(), Some(Quote(10.0, 10.0, 10.0, 10.0, 9.0, 0.0, 0.0, false)), None, Some(halt))]
  }

  predicate TenAt(s: State, ordinal: int)
  {
    s.Chain? && s.previous == Previous(ordinal, 10.0, 1.0, 0, MarketTime(ordinal, 21))
  }

  function TradedFeature(): Feature
  {
    Feature(Bar(1, 0, MarketTime(0, 21), 10.0, 10.0, 10.0, 10.0, 5.0, 50.0, true), 10.0)
  }

  lemma {:induction false} TradedRow()
    ensures Normalize(1, 0, 0, BlockedDays()[0].quote.value, None)
         == Ok(Row(TradedFeature(), 10.0, 10.0, 1.0, 0, 1, false))
  {
    hide HaltContext;
  }

  lemma {:induction false} TradedRecord()
    ensures var b := Full(1, 0, TradedFeature(), None);
            b.Ok? && PreviousAt(0, b.value.record) == Previous(0, 10.0, 1.0, 0, MarketTime(0, 21))
  {
  }

  lemma {:induction false} TradedDay()
    ensures var j := BlockedDays()[0];
            var r := Normalize(1, 0, 0, j.quote.value, None);
            r.Ok? && TenAt(Advance(j.context, 1, 0, 0, SeenAfter(j, Some(r)), Idle).state, 0)
  {
    TradedRow();
    TradedRecord();
    hide Normalize, Sparse, Consensus, Full, HaltContext, TradedFeature;
  }

  lemma {:induction false} FirstDay()
    ensures var days := BlockedDays();
            LastRow(1, days[..1]).Some? && TenAt(Run(1, OutcomeDays(1, days[..1])).state, 0)
  {
    var days := BlockedDays();
    assert days[..1][..0] == [];
    TradedDay();
    hide Advance, Normalize, Next, HaltContext, TenAt;
    OutcomeDaysGrow(1, days[..1]);
    RunNext(1, OutcomeDays(1, days[..1]));
    NextFollows(Run(1, []), 1, OutcomeDay(1, days[..1]));
  }

  const TENS := Prices(10.0, 10.0, 10.0, 10.0, 10.0)

  lemma {:induction false} HaltReads()
    ensures var c, row := HaltContext(), HALT_ROW;
            && Reads(row, "date", c.iso(1)) && Reads(row, "adjustflag", "3") && Reads(row, "tradestatus", "0")
            && Reads(row, "volume", "") && ProvidersProblem(c, ["x"]).None?
            && AllReadable(c, row) && PricesIn(c, row) == Some(TENS)
  {
    assert ["x"][..0] == [];
  }

  lemma {:induction false} HaltRecord(p: Previous)
    requires p == Previous(0, 10.0, 1.0, 0, MarketTime(0, 21))
    ensures var r := MakeRecord(1, 1, TENS, Some(p), MarketTime(1, 21), true);
            r.Ok? && PreviousAt(1, r.value) == Previous(1, 10.0, 1.0, 0, MarketTime(1, 21))
  {
  }

  lemma {:induction false} HaltSparse(p: Previous)
    requires p == Previous(0, 10.0, 1.0, 0, MarketTime(0, 21))
    ensures var b := Sparse(HaltContext(), 1, 1, Decision(["x"], Some("x"), [], [], false), Some(p));
            b.Ok? && PreviousAt(1, b.value.record) == Previous(1, 10.0, 1.0, 0, MarketTime(1, 21))
  {
    HaltReads();
    HaltRecord(p);
    hide Reads, ProvidersProblem, AllReadable, PricesIn, MakeRecord;
  }

  lemma {:induction false} HaltDay(s: State)
    requires TenAt(s, 0)
    ensures var j := BlockedDays()[1];
            TenAt(Advance(j.context, 1, 1, 1, SeenAfter(j, Some(Err("RAW_NUMERIC_INVALID"))), s).state, 1)
  {
    HaltSparse(s.previous);
    hide Sparse, Full, Consensus, HaltContext;
  }

  lemma {:induction false} SecondDay()
    ensures var days := BlockedDays();
            LastRow(1, days[..2]).None? && Reference(1, days[..2]).None?
              && TenAt(Run(1, OutcomeDays(1, days[..2])).state, 1)
  {
    var days := BlockedDays();
    assert days[..2][..1] == days[..1];
    FirstDay();
    var t := Run(1, OutcomeDays(1, days[..1]));
    HaltDay(t.state);
    hide Advance, Next, Run;
    OutcomeDaysGrow(1, days[..2]);
    RunNext(1, OutcomeDays(1, days[..2]));
    NextFollows(t, 1, OutcomeDay(1, days[..2]));
  }

  lemma {:induction false} ThirdRow(s: State)
    requires TenAt(s, 1)
    ensures var j := BlockedDays()[2];
            var r := Normalize(1, 2, 2, j.quote.value, None);
            r.Ok? && Blocked(r.value, Anchor(AfterGap(s, 1, 2, 2).state))
  {
    hide HaltContext;
  }

  lemma {:induction false} BlockedJoint()
    ensures JointDays(BlockedDays())
  {
    hide HaltContext;
  }

  /** The refusal happens: a streak can start with a row the outcome chain blocks. */
  lemma {:induction false} BlockedStart()
    ensures JointDays(BlockedDays()) && |Streak(1, BlockedDays())| == 1 && !StartClean(1, BlockedDays())
  {
    BlockedJoint();
    var days := BlockedDays();
    assert days[..|days| - 1] == days[..2];
    SecondDay();
    StreakCases(1, days);
    ThirdRow(Run(1, OutcomeDays(1, days[..2])).state);
    assert RowOn(1, days[2], None) == Some(Normalize(1, 2, 2, days[2].quote.value, None));
    hide *;
  }

  // ---- and an eligible row can follow it without its sixty-first price

  function TradedAt(day: nat): Joint
  {
    Joint(day, day, HaltContext(), Some(Quote(10.0, 10.0, 10.0, 10.0, 10.0, 5.0, 50.0, true)), None,
          Some(Decision(["x"], Some("x"), [], [], false)))
  }

  /** The blocked start and n traded days after it. */
  function TradedOn(n: nat): (days: seq<Joint>)
    ensures |days| == n + 3
  {
    if n == 0 then BlockedDays() else TradedOn(n - 1) + [TradedAt(n + 2)]
  }

  ghost predicate InOrder(days: seq<Joint>)
  {
    forall i :: 0 <= i < |days| ==> days[i].session == days[i].ordinal == i && NoConflict(days[i])
  }

  lemma {:induction false} TradedInOrder(n: nat)
    ensures InOrder(TradedOn(n)) && JointDays(TradedOn(n))
  {
    hide HaltContext;
    if n > 0 { TradedInOrder(n - 1); }
  }

  /** The reference side holds a streak of n + 1 rows whose first the outcome chain refused. */
  ghost predicate LongStreak(n: nat)
  {
    var days := TradedOn(n);
    && |Streak(1, days)| == n + 1 && !StartClean(1, days)
    && Reference(1, days) == Some(Anchored(n + 2, 10.0, 1.0, 2, n + 1))
  }

  lemma {:induction false} LongStart()
    ensures LongStreak(0)
  {
    BlockedStart();
    SecondDay();
    var days := BlockedDays();
    assert days[..|days| - 1] == days[..2];
    HaltedRow();
    hide Normalize, Streak, StartClean, Next, Advance, HaltContext;
  }

  lemma {:induction false} HaltedRow()
    ensures var r := Normalize(1, 2, 2, BlockedDays()[2].quote.value, None);
            r.Ok? && AnchorOf(2, r.value) == Anchored(2, 10.0, 1.0, 2, 1)
  {
    hide HaltContext;
  }

  lemma {:induction false} NextTraded(n: nat)
    ensures var r := Normalize(1, n + 3, n + 3, TradedAt(n + 3).quote.value,
                               Some(Anchored(n + 2, 10.0, 1.0, 2, n + 1)));
            && r.Ok? && AnchorOf(n + 3, r.value) == Anchored(n + 3, 10.0, 1.0, 2, n + 2)
            && (r.value.eligible <==> STREAK_NEEDED <= n + 2)
  {
    hide HaltContext;
  }

  lemma {:induction false} LongNext(n: nat)
    requires LongStreak(n)
    ensures LongStreak(n + 1)
    ensures LastRow(1, TradedOn(n + 1)).Some?
         && (LastRow(1, TradedOn(n + 1)).value.eligible <==> STREAK_NEEDED <= n + 2)
  {
    var before, days := TradedOn(n), TradedOn(n + 1);
    assert days == before + [TradedAt(n + 3)];
    assert days[..|days| - 1] == before;
    NextTraded(n);
    StreakCases(1, days);
    hide Normalize, Streak, StartClean, Run, OutcomeDay, HaltContext, TradedOn;
  }

  lemma {:induction false} Long(n: nat)
    ensures LongStreak(n)
  {
    hide LongStreak;
    if n == 0 {
      LongStart();
    } else {
      Long(n - 1);
      LongNext(n - 1);
    }
  }

  /** Sixty-three days that end with an eligible row whose sixty-first latest session has no published price. */
  lemma {:induction false} EligibleUnpublished()
    ensures var days := TradedOn(STREAK_NEEDED - 1);
            && JointDays(days) && LastRow(1, days).Some? && LastRow(1, days).value.eligible
            && |Streak(1, days)| == STREAK_NEEDED
            && !Published(Streak(1, days)[0], Run(1, OutcomeDays(1, days)).emitted)
  {
    Long(STREAK_NEEDED - 2);
    LongNext(STREAK_NEEDED - 2);
    TradedInOrder(STREAK_NEEDED - 1);
    hide TradedOn, Streak, StartClean, Reference, LastRow, JointDays, Published, Run;
    EligiblePublished(1, TradedOn(STREAK_NEEDED - 1));
  }
}
