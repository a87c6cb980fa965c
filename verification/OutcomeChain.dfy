/** One security's outcome price chain, day by day: pending, confirmed and discarded records. */
module OutcomeChain {
  import opened Prelude
  import opened Clock
  import opened OutcomePrices
  import opened Vectors

  /** previous and pending of one security; pending records never exist without a previous one. */
  datatype State = Idle | Chain(previous: Previous, pending: seq<Record>)

  datatype Issue = Issue(session: Session, security: int, reason: string)

  datatype Step = Step(state: State, emitted: seq<Record>, issues: seq<Issue>, discarded: nat)

  function Pending(s: State): seq<Record> { if s.Idle? then [] else s.pending }

  function Anchor(s: State): Option<Previous> { if s.Idle? then None else Some(s.previous) }

  function DiscardIssues(rows: seq<Record>, security: int, reason: string): (r: seq<Issue>)
    ensures |r| == |rows|
    ensures forall i :: 0 <= i < |rows| ==>
              r[i] == Issue(rows[i].session, security, "OUTCOME_PENDING_DISCARDED:" + reason)
  {
    seq(|rows|, i requires 0 <= i < |rows| => Issue(rows[i].session, security, "OUTCOME_PENDING_DISCARDED:" + reason))
  }

  function BreakIssues(rows: seq<Record>, security: int, session: Session, reason: string): seq<Issue>
  {
    DiscardIssues(rows, security, reason) + [Issue(session, security, reason)]
  }

  /** Breaking a chain: back to idle, with one issue for every record still pending. */
  function Break(s: State, security: int, session: Session, reason: string): Step
  {
    Step(Idle, [], BreakIssues(Pending(s), security, session, reason), |Pending(s)|)
  }

  function PreviousAt(ordinal: int, r: Record): Previous
  {
    Previous(ordinal, r.prices.close, r.factor, r.chainStart, r.availableAt)
  }

  /** A pending row once a later record confirms it. */
  function Confirm(row: Record, b: Built): Record
  {
    row.(availableAt := Max(row.availableAt, b.record.availableAt), confirmationAt := Some(b.confirmation))
  }

  function ConfirmAll(rows: seq<Record>, b: Built): (r: seq<Record>)
    ensures |r| == |rows| && forall i :: 0 <= i < |rows| ==> r[i] == Confirm(rows[i], b)
  {
    seq(|rows|, i requires 0 <= i < |rows| => Confirm(rows[i], b))
  }

  predicate Gap(s: State, ordinal: int) { s.Chain? && s.previous.ordinal != ordinal - 1 }

  function AfterGap(s: State, security: int, session: Session, ordinal: int): Step
  {
    if Gap(s, ordinal) then Break(s, security, session, "OUTCOME_CALENDAR_GAP") else Step(s, [], [], 0)
  }

  /** An accepted record joins its chain: emitted, withheld, or emitted with everything it confirms. */
  function Accept(s: State, ordinal: int, b: Built): Step
  {
    var previous := PreviousAt(ordinal, b.record);
    var pending := Pending(s);
    if pending != [] && b.confirms then Step(Chain(previous, []), ConfirmAll(pending, b) + [b.record], [], 0)
    else if b.record.priceOnly || pending != [] then Step(Chain(previous, pending + [b.record]), [], [], 0)
    else Step(Chain(previous, []), [b.record], [], 0)
  }

  function Then(a: Step, b: Step): Step
  {
    Step(b.state, a.emitted + b.emitted, a.issues + b.issues, a.discarded + b.discarded)
  }

  /** What one day does to one security. */
  function Advance(c: Context, security: int, session: Session, ordinal: int, seen: Option<Seen>, s: State): Step
  {
    match seen
    case None => if s.Idle? then Step(s, [], [], 0)
                 else Break(s, security, session, "OUTCOME_RAW_PRICE_OBSERVATION_MISSING")
    case Some(x) =>
      var kept := AfterGap(s, security, session, ordinal);
      match Build(c, security, session, x, Anchor(kept.state))
      case Err(reason) => Then(kept, Break(kept.state, security, session, reason))
      case Ok(b) => Then(kept, Accept(kept.state, ordinal, b))
  }

  // ---- whole runs of one security

  /** One security's share of one day's inputs. */
  datatype Input = Input(context: Context, session: Session, ordinal: int, seen: Option<Seen>)

  datatype Entry = Entry(ordinal: int, record: Record)

  /**
   * The state with its history: every record emitted, the sessions discarded and accepted,
   * the current chain in order, and the records that confirmed by positive activity.
   */
  datatype Trace = Trace(
    state: State, emitted: seq<Record>, dropped: seq<Session>, accepted: seq<Session>,
    chain: seq<Entry>, active: seq<Record>)

  function Sessions(rows: seq<Record>): (r: seq<Session>)
    ensures |r| == |rows| && forall i :: 0 <= i < |rows| ==> r[i] == rows[i].session
  {
    seq(|rows|, i requires 0 <= i < |rows| => rows[i].session)
  }

  function Start(): Trace { Trace(Idle, [], [], [], [], []) }

  /** The observation a day accepts, if any. */
  function Attempt(security: int, day: Input, s: State): Option<Built>
  {
    if day.seen.None? then None
    else
      match Build(day.context, security, day.session, day.seen.value,
                  Anchor(AfterGap(s, security, day.session, day.ordinal).state))
      case Err(_) => None
      case Ok(b) => Some(b)
  }

  /** The history once a chain breaks: its pending tail is dropped. */
  function Dropped(t: Trace): Trace
  {
    Trace(Idle, t.emitted, t.dropped + Sessions(Pending(t.state)), t.accepted, [], t.active)
  }

  /** The history once a record is accepted. */
  function Joined(t: Trace, ordinal: int, b: Built): Trace
  {
    var step := Accept(t.state, ordinal, b);
    Trace(step.state, t.emitted + step.emitted, t.dropped, t.accepted + [b.record.session],
          t.chain + [Entry(ordinal, b.record)], if b.confirms then t.active + [b.record] else t.active)
  }

  function Next(t: Trace, security: int, day: Input): Trace
  {
    match Attempt(security, day, t.state)
    case None => Dropped(t)
    case Some(b) => Joined(if Gap(t.state, day.ordinal) then Dropped(t) else t, day.ordinal, b)
  }

  /** The history follows the machine: same state, same emissions, and one dropped session per discarded record. */
  lemma {:induction false} NextFollows(t: Trace, security: int, day: Input)
    ensures var n, step := Next(t, security, day),
            Advance(day.context, security, day.session, day.ordinal, day.seen, t.state);
            && n.state == step.state && n.emitted == t.emitted + step.emitted
            && |n.dropped| == |t.dropped| + step.discarded
  {
    hide Build, Confirm, PreviousAt;
  }

  function Run(security: int, days: seq<Input>): Trace
  {
    if days == [] then Start() else Next(Run(security, days[..|days| - 1]), security, days[|days| - 1])
  }

  /** Days come in strictly increasing order and their feature rows are valid bars. */
  ghost predicate Days(days: seq<Input>)
  {
    && (forall i :: 0 <= i < |days| && days[i].seen.Some? ==> SeenValid(days[i].seen.value))
    && forall i, j :: 0 <= i < j < |days| ==> days[i].session < days[j].session && days[i].ordinal < days[j].ordinal
  }

  // ---- the chain

  /** The record before place i of a chain. */
  function AnchorAt(chain: seq<Entry>, i: nat): Option<Previous>
    requires i <= |chain|
  {
    if i == 0 then None else Some(PreviousAt(chain[i - 1].ordinal, chain[i - 1].record))
  }

  /** Place i continues the chain: the next ordinal, a later session, linked to the record before it. */
  ghost predicate LinkAt(security: int, chain: seq<Entry>, i: nat)
    requires i < |chain|
  {
    && Linked(AnchorAt(chain, i), chain[i].record) && chain[i].record.security == security
    && (i > 0 ==> chain[i].ordinal == chain[i - 1].ordinal + 1 && chain[i - 1].record.session < chain[i].record.session)
  }

  ghost predicate ChainKept(security: int, chain: seq<Entry>)
  {
    forall i: nat :: i < |chain| ==> LinkAt(security, chain, i)
  }

  /** The state is the last entry of the chain, with its unconfirmed tail. */
  ghost predicate StateKept(s: State, chain: seq<Entry>)
  {
    match s
    case Idle => chain == []
    case Chain(previous, pending) =>
      && chain != [] && previous == PreviousAt(chain[|chain| - 1].ordinal, chain[|chain| - 1].record)
      && |pending| <= |chain|
      && (forall i :: 0 <= i < |pending| ==> pending[i] == chain[|chain| - |pending| + i].record)
      && (pending != [] ==> pending[0].priceOnly)
  }

  /** Sessions emitted, then sessions pending. */
  function Held(t: Trace): seq<Session> { Sessions(t.emitted) + Sessions(Pending(t.state)) }

  /**
   * Every session accepted is emitted, pending or dropped, exactly once and never again;
   * emitted records come in session order, before everything still pending.
   */
  ghost predicate Conserved(t: Trace)
  {
    && Ascending(t.accepted) && Ascending(Held(t))
    && multiset(t.accepted) == multiset(Held(t)) + multiset(t.dropped)
  }

  /** An emitted record is an accepted one, delayed at most. */
  predicate Delayed(e: Record, r: Record)
  {
    e == r.(availableAt := e.availableAt, confirmationAt := e.confirmationAt) && r.availableAt <= e.availableAt
  }

  /** A positive-activity record of the same chain, later than e, that e waited for. */
  predicate ConfirmedBy(e: Record, a: Record)
  {
    && a.chainStart == e.chainStart && e.session < a.session && !a.priceOnly
    && a.availableAt <= e.availableAt && e.confirmationAt.Some? && e.confirmationAt.value <= a.availableAt
  }

  ghost predicate Justified(e: Record, active: seq<Record>)
  {
    e.priceOnly ==> exists k :: 0 <= k < |active| && ConfirmedBy(e, active[k])
  }

  ghost predicate EmittedKept(security: int, t: Trace)
  {
    forall i :: 0 <= i < |t.emitted| ==>
      ValidRecord(t.emitted[i]) && t.emitted[i].security == security && Justified(t.emitted[i], t.active)
  }

  /** Availability never decreases along the emitted records of a chain, even after confirmation rewrote it. */
  ghost predicate AvailabilityKept(t: Trace)
  {
    && (forall i, j :: 0 <= i < j < |t.emitted| && t.emitted[i].chainStart == t.emitted[j].chainStart ==>
          t.emitted[i].availableAt <= t.emitted[j].availableAt)
    && (t.state.Chain? ==>
          forall i :: 0 <= i < |t.emitted| && t.emitted[i].chainStart == t.state.previous.chainStart ==>
            t.emitted[i].availableAt <= t.state.previous.availableAt)
  }

  /** Everything on the current chain before its pending tail has been emitted. */
  ghost predicate ChainEmitted(t: Trace)
  {
    forall i :: 0 <= i < |t.chain| - |Pending(t.state)| ==> IsEmitted(t.chain[i].record, t.emitted)
  }

  ghost predicate IsEmitted(r: Record, emitted: seq<Record>)
  {
    exists k :: 0 <= k < |emitted| && Delayed(emitted[k], r)
  }

  ghost predicate Kept(security: int, t: Trace)
  {
    && ChainKept(security, t.chain) && StateKept(t.state, t.chain)
    && Conserved(t) && EmittedKept(security, t) && AvailabilityKept(t) && ChainEmitted(t)
  }

  /** Nothing in the history is later than the given session and ordinal. */
  ghost predicate Until(t: Trace, session: Session, ordinal: int)
  {
    && (forall i :: 0 <= i < |t.accepted| ==> t.accepted[i] <= session)
    && (forall i :: 0 <= i < |t.emitted| ==> t.emitted[i].session <= session && t.emitted[i].chainStart <= session)
    && (t.chain != [] ==> t.chain[|t.chain| - 1].record.session <= session && t.chain[|t.chain| - 1].ordinal <= ordinal)
  }

  // ---- one day keeps everything

  lemma {:induction false} SessionsAppend(a: seq<Record>, b: seq<Record>)
    ensures Sessions(a + b) == Sessions(a) + Sessions(b)
  {
  }

  lemma {:induction false} DropKeeps(security: int, t: Trace)
    requires Kept(security, t)
    ensures Kept(security, Dropped(t))
  {
    var e, p := Sessions(t.emitted), Sessions(Pending(t.state));
    assert Held(t) == e + p && Held(Dropped(t)) == e;
    forall i, j | 0 <= i < j < |e| ensures e[i] < e[j] {
      assert Held(t)[i] < Held(t)[j];
    }
  }

  /** How an accepted record meets the state it joins. */
  ghost predicate Joins(security: int, t: Trace, session: Session, ordinal: int, b: Built)
  {
    && Linked(Anchor(t.state), b.record) && b.record.security == security && b.record.session == session
    && (t.state.Chain? ==> t.state.previous.ordinal == ordinal - 1)
    && (b.confirms ==> !b.record.priceOnly && MarketTime(session, 15) <= b.confirmation <= b.record.availableAt)
    && (b.record.priceOnly ==> t.state.Chain?)
    && Until(t, session - 1, ordinal - 1)
  }

  lemma {:induction false} JoinChain(security: int, t: Trace, session: Session, ordinal: int, b: Built)
    requires Kept(security, t) && Joins(security, t, session, ordinal, b)
    ensures ChainKept(security, Joined(t, ordinal, b).chain)
  {
    hide Linked;
    var n := t.chain + [Entry(ordinal, b.record)];
    forall i: nat | i < |n| ensures LinkAt(security, n, i) {
      if i < |t.chain| {
        assert LinkAt(security, t.chain, i);
        assert AnchorAt(n, i) == AnchorAt(t.chain, i);
      } else {
        assert AnchorAt(n, i) == Anchor(t.state);
      }
    }
  }

  lemma {:induction false} JoinState(security: int, t: Trace, session: Session, ordinal: int, b: Built)
    requires Kept(security, t) && Joins(security, t, session, ordinal, b)
    ensures StateKept(Joined(t, ordinal, b).state, Joined(t, ordinal, b).chain)
  {
    hide Linked, ChainKept, Conserved, EmittedKept, AvailabilityKept, ChainEmitted;
  }

  lemma {:induction false} HeldGrows(security: int, t: Trace, ordinal: int, b: Built)
    ensures Held(Joined(t, ordinal, b)) == Held(t) + [b.record.session]
  {
    var e, p := t.emitted, Pending(t.state);
    SessionsAppend(e, ConfirmAll(p, b) + [b.record]);
    SessionsAppend(ConfirmAll(p, b), [b.record]);
    SessionsAppend(e, [b.record]);
    SessionsAppend(p, [b.record]);
    assert Sessions(ConfirmAll(p, b)) == Sessions(p);
  }

  lemma {:induction false} LaterLast(s: seq<Session>, x: Session)
    requires Ascending(s) && forall i :: 0 <= i < |s| ==> s[i] < x
    ensures Ascending(s + [x])
  {
  }

  /** Pending and emitted sessions were accepted, so they are all earlier. */
  lemma {:induction false} HeldEarlier(t: Trace, session: Session)
    requires Conserved(t) && forall i :: 0 <= i < |t.accepted| ==> t.accepted[i] < session
    ensures forall i :: 0 <= i < |Held(t)| ==> Held(t)[i] < session
  {
    forall i | 0 <= i < |Held(t)| ensures Held(t)[i] < session {
      assert Held(t)[i] in multiset(Held(t));
      assert Held(t)[i] in multiset(t.accepted);
    }
  }

  /** A new record comes last, and is held until it is emitted or dropped. */
  lemma {:induction false} JoinConserves(security: int, t: Trace, session: Session, ordinal: int, b: Built)
    requires Kept(security, t) && Joins(security, t, session, ordinal, b)
    ensures Conserved(Joined(t, ordinal, b))
  {
    hide Linked, ChainKept, StateKept, EmittedKept, AvailabilityKept, ChainEmitted, Accept;
    HeldGrows(security, t, ordinal, b);
    HeldEarlier(t, session);
    hide Held;
    LaterLast(Held(t), session);
    LaterLast(t.accepted, session);
    assert multiset(Held(t) + [session]) == multiset(Held(t)) + multiset{session};
  }

  /**
   * Along a chain the start is constant, ordinals count up by one, sessions ascend and availability never decreases.
   */
  lemma {:induction false} ChainFacts(security: int, chain: seq<Entry>, i: nat, j: nat)
    requires ChainKept(security, chain) && i <= j < |chain|
    ensures chain[i].record.chainStart == chain[j].record.chainStart
    ensures chain[j].ordinal == chain[i].ordinal + (j - i)
    ensures chain[i].record.availableAt <= chain[j].record.availableAt
    ensures i < j ==> chain[i].record.session < chain[j].record.session
    decreases j - i
  {
    if i < j {
      var k := j - 1;
      ChainFacts(security, chain, i, k);
      assert LinkAt(security, chain, j);
    }
  }

  /** What confirming does to one pending row: it stays valid, and the confirming record justifies it. */
  lemma {:induction false} ConfirmJustifies(security: int, t: Trace, session: Session, ordinal: int, b: Built, i: nat)
    requires Kept(security, t) && Joins(security, t, session, ordinal, b) && b.confirms && i < |Pending(t.state)|
    ensures var e := Confirm(Pending(t.state)[i], b);
            && ValidRecord(e) && e.security == security && ConfirmedBy(e, b.record)
            && e.availableAt == b.record.availableAt
            && Delayed(e, Pending(t.state)[i]) && e.chainStart == t.state.previous.chainStart
  {
    var k := |t.chain| - |Pending(t.state)| + i;
    ChainFacts(security, t.chain, k, |t.chain| - 1);
    assert LinkAt(security, t.chain, k);
  }

  lemma {:induction false} JoinEmitted(security: int, t: Trace, session: Session, ordinal: int, b: Built)
    requires Kept(security, t) && Joins(security, t, session, ordinal, b)
    ensures EmittedKept(security, Joined(t, ordinal, b))
  {
    var n := Joined(t, ordinal, b);
    hide Conserved, AvailabilityKept, ChainEmitted, ChainKept;
    forall k | 0 <= k < |n.emitted|
      ensures ValidRecord(n.emitted[k]) && n.emitted[k].security == security && Justified(n.emitted[k], n.active)
    {
      var i := k - |t.emitted|;
      if i < 0 {
        JustifiedStays(t.emitted[k], t.active, n.active);
      } else if n.emitted[k] != b.record {
        ConfirmJustifies(security, t, session, ordinal, b, i);
        assert n.active[|t.active|] == b.record;
      }
    }
  }

  lemma {:induction false} JustifiedStays(e: Record, a: seq<Record>, b: seq<Record>)
    requires Justified(e, a) && a <= b
    ensures Justified(e, b)
  {
    if e.priceOnly {
      var k :| 0 <= k < |a| && ConfirmedBy(e, a[k]);
      assert b[k] == a[k];
    }
  }

  lemma {:induction false} JoinAvailability(security: int, t: Trace, session: Session, ordinal: int, b: Built)
    requires Kept(security, t) && Joins(security, t, session, ordinal, b)
    ensures AvailabilityKept(Joined(t, ordinal, b))
  {
    var n := Joined(t, ordinal, b);
    hide Conserved, ChainEmitted, ChainKept, EmittedKept;
    forall k | |t.emitted| <= k < |n.emitted|
      ensures n.emitted[k].availableAt == b.record.availableAt && n.emitted[k].chainStart == b.record.chainStart
    {
      if n.emitted[k] != b.record {
        ConfirmJustifies(security, t, session, ordinal, b, k - |t.emitted|);
      }
    }
    forall k | 0 <= k < |t.emitted| && t.emitted[k].chainStart == b.record.chainStart
      ensures t.emitted[k].availableAt <= b.record.availableAt
    {
      assert t.state.Chain?;
    }
  }

  lemma {:induction false} JoinChainEmitted(security: int, t: Trace, session: Session, ordinal: int, b: Built)
    requires Kept(security, t) && Joins(security, t, session, ordinal, b)
    ensures ChainEmitted(Joined(t, ordinal, b))
  {
    var n := Joined(t, ordinal, b);
    hide Conserved, AvailabilityKept, ChainKept, EmittedKept;
    forall i | 0 <= i < |n.chain| - |Pending(n.state)|
      ensures IsEmitted(n.chain[i].record, n.emitted)
    {
      var first := |t.chain| - |Pending(t.state)|;
      if i < first {
        assert IsEmitted(t.chain[i].record, t.emitted);
        var k :| 0 <= k < |t.emitted| && Delayed(t.emitted[k], t.chain[i].record);
        assert n.emitted[k] == t.emitted[k];
      } else {
        var k := |t.emitted| + (i - first);
        if i < |t.chain| { ConfirmJustifies(security, t, session, ordinal, b, i - first); }
        assert Delayed(n.emitted[k], n.chain[i].record);
      }
    }
  }

  lemma {:induction false} JoinKeeps(security: int, t: Trace, session: Session, ordinal: int, b: Built)
    requires Kept(security, t) && Joins(security, t, session, ordinal, b)
    ensures Kept(security, Joined(t, ordinal, b))
  {
    JoinChain(security, t, session, ordinal, b);
    JoinState(security, t, session, ordinal, b);
    JoinConserves(security, t, session, ordinal, b);
    JoinEmitted(security, t, session, ordinal, b);
    JoinAvailability(security, t, session, ordinal, b);
    JoinChainEmitted(security, t, session, ordinal, b);
    var n := Joined(t, ordinal, b);
    hide Joined, ChainKept, StateKept, Conserved, EmittedKept, AvailabilityKept, ChainEmitted;
    assert ChainKept(security, n.chain);
    assert StateKept(n.state, n.chain);
    assert Conserved(n);
    assert EmittedKept(security, n);
    assert AvailabilityKept(n);
    assert ChainEmitted(n);
  }

  /** An accepted observation joins what the gap check left of its chain. */
  lemma {:induction false} AttemptJoins(security: int, t: Trace, day: Input)
    requires Kept(security, t) && Until(t, day.session - 1, day.ordinal - 1)
    requires day.seen.Some? && SeenValid(day.seen.value) && Attempt(security, day, t.state).Some?
    ensures var base := if Gap(t.state, day.ordinal) then Dropped(t) else t;
            Joins(security, base, day.session, day.ordinal, Attempt(security, day, t.state).value)
  {
    var anchor := Anchor(AfterGap(t.state, security, day.session, day.ordinal).state);
    BuildAccepted(day.context, security, day.session, day.seen.value, anchor);
    hide Build, Linked, PositiveActivity, ChainKept, Conserved, EmittedKept, AvailabilityKept, ChainEmitted;
  }

  lemma {:induction false} NextKeeps(security: int, t: Trace, day: Input)
    requires Kept(security, t) && Until(t, day.session - 1, day.ordinal - 1)
    requires day.seen.Some? ==> SeenValid(day.seen.value)
    ensures Kept(security, Next(t, security, day)) && Until(Next(t, security, day), day.session, day.ordinal)
  {
    DropKeeps(security, t);
    var b := Attempt(security, day, t.state);
    if b.Some? {
      AttemptJoins(security, t, day);
      var base := if Gap(t.state, day.ordinal) then Dropped(t) else t;
      hide Attempt;
      JoinKeeps(security, base, day.session, day.ordinal, b.value);
      JoinUntil(security, base, day.session, day.ordinal, b.value);
    }
  }

  lemma {:induction false} EmittedUntil(security: int, t: Trace, session: Session, ordinal: int, b: Built, k: nat)
    requires Kept(security, t) && Joins(security, t, session, ordinal, b)
    requires |t.emitted| <= k < |Joined(t, ordinal, b).emitted|
    ensures var e := Joined(t, ordinal, b).emitted[k]; e.session <= session && e.chainStart <= session
  {
    hide Conserved, AvailabilityKept, ChainEmitted, EmittedKept;
    if Joined(t, ordinal, b).emitted[k] != b.record {
      hide ChainKept, StateKept;
      ConfirmJustifies(security, t, session, ordinal, b, k - |t.emitted|);
    }
  }

  lemma {:induction false} JoinUntil(security: int, t: Trace, session: Session, ordinal: int, b: Built)
    requires Kept(security, t) && Joins(security, t, session, ordinal, b)
    ensures Until(Joined(t, ordinal, b), session, ordinal)
  {
    var n := Joined(t, ordinal, b);
    hide Kept, Linked, Pending;
    forall k | |t.emitted| <= k < |n.emitted|
      ensures n.emitted[k].session <= session && n.emitted[k].chainStart <= session
    {
      EmittedUntil(security, t, session, ordinal, b, k);
    }
  }

  lemma {:induction false} UntilLater(t: Trace, s0: Session, o0: int, s1: Session, o1: int)
    requires Until(t, s0, o0) && s0 <= s1 && o0 <= o1
    ensures Until(t, s1, o1)
  {
  }

  lemma {:induction false} DaysPrefix(days: seq<Input>)
    requires Days(days) && days != []
    ensures Days(days[..|days| - 1])
    ensures |days| > 1 ==> var n := |days| - 1;
                           days[n - 1].session < days[n].session && days[n - 1].ordinal < days[n].ordinal
    ensures days[|days| - 1].seen.Some? ==> SeenValid(days[|days| - 1].seen.value)
  {
    hide SeenValid;
  }

  lemma {:induction false} RunNext(security: int, days: seq<Input>)
    requires days != []
    ensures Run(security, days) == Next(Run(security, days[..|days| - 1]), security, days[|days| - 1])
  {
    hide Next;
  }

  lemma {:induction false} StartKept(security: int, session: Session, ordinal: int)
    ensures Kept(security, Start()) && Until(Start(), session, ordinal) && Run(security, []) == Start()
  {
    hide Next;
  }

  /** Over every run: all of it is kept after every day. */
  lemma {:induction false} RunKept(security: int, days: seq<Input>)
    requires Days(days)
    ensures Kept(security, Run(security, days))
    ensures days != [] ==> Until(Run(security, days), days[|days| - 1].session, days[|days| - 1].ordinal)
  {
    hide *;
    if days == [] {
      StartKept(security, 0, 0);
    } else {
      var n := |days| - 1;
      var before, day := days[..n], days[n];
      RunNext(security, days);
      DaysPrefix(days);
      RunKept(security, before);
      var t := Run(security, before);
      if n > 0 {
        UntilLater(t, days[n - 1].session, days[n - 1].ordinal, day.session - 1, day.ordinal - 1);
      } else {
        StartKept(security, day.session - 1, day.ordinal - 1);
      }
      NextKeeps(security, t, day);
    }
  }

  // ---- what a run guarantees

  lemma {:induction false} KeptBalance(t: Trace)
    requires Conserved(t)
    ensures |t.accepted| == |t.emitted| + |Pending(t.state)| + |t.dropped|
    ensures Ascending(Sessions(t.emitted))
    ensures forall i, k :: 0 <= i < |t.emitted| && 0 <= k < |Pending(t.state)| ==>
              t.emitted[i].session < Pending(t.state)[k].session
  {
    assert |multiset(t.accepted)| == |multiset(Held(t))| + |multiset(t.dropped)|;
    forall i, j | 0 <= i < j < |t.emitted| ensures t.emitted[i].session < t.emitted[j].session {
      assert Held(t)[i] < Held(t)[j];
    }
    forall i, k | 0 <= i < |t.emitted| && 0 <= k < |Pending(t.state)|
      ensures t.emitted[i].session < Pending(t.state)[k].session
    {
      assert Held(t)[i] < Held(t)[|t.emitted| + k];
    }
  }

  /** Over every run the counts balance after every day, and no session is emitted twice. */
  lemma {:induction false} RunBalance(security: int, days: seq<Input>)
    requires Days(days)
    ensures var t := Run(security, days);
            |t.accepted| == |t.emitted| + |Pending(t.state)| + |t.dropped| && Ascending(Sessions(t.emitted))
  {
    hide Run, Conserved, Ascending, Pending, Sessions;
    RunKept(security, days);
    KeptBalance(Run(security, days));
  }

  /** At the end the unconfirmed tail is dropped, so every accepted session was emitted or dropped. */
  lemma {:induction false} FinishBalance(security: int, days: seq<Input>)
    requires Days(days)
    ensures var t := Dropped(Run(security, days));
            && t.emitted == Run(security, days).emitted && |t.accepted| == |t.emitted| + |t.dropped|
            && multiset(t.accepted) == multiset(Sessions(t.emitted)) + multiset(t.dropped)
  {
    RunKept(security, days);
    var t := Run(security, days);
    hide Run, ChainKept, StateKept, EmittedKept, AvailabilityKept, ChainEmitted;
    DropKeeps(security, t);
    KeptBalance(Dropped(t));
    assert Held(Dropped(t)) == Sessions(t.emitted);
  }

  /** No sparse record is emitted before a later positive-activity record of its own chain was available. */
  lemma {:induction false} SparseWaits(security: int, days: seq<Input>, i: nat)
    requires Days(days) && i < |Run(security, days).emitted| && Run(security, days).emitted[i].priceOnly
    ensures exists k :: 0 <= k < |Run(security, days).active|
                     && ConfirmedBy(Run(security, days).emitted[i], Run(security, days).active[k])
  {
    RunKept(security, days);
    assert Justified(Run(security, days).emitted[i], Run(security, days).active);
  }

  /** The day that produced a confirming record showed positive activity of its own. */
  ghost predicate Evidence(security: int, days: seq<Input>, r: Record)
  {
    exists i :: 0 <= i < |days| && days[i].session == r.session && days[i].seen.Some?
             && PositiveActivity(days[i].context, security, days[i].seen.value)
  }

  lemma {:induction false} EvidenceStays(security: int, days: seq<Input>, r: Record)
    requires days != [] && Evidence(security, days[..|days| - 1], r)
    ensures Evidence(security, days, r)
  {
    hide PositiveActivity;
    var n := |days| - 1;
    var i :| 0 <= i < n && days[..n][i].session == r.session && days[..n][i].seen.Some?
          && PositiveActivity(days[..n][i].context, security, days[..n][i].seen.value);
    assert days[i].session == r.session;
  }

  lemma {:induction false} ActiveEvidence(security: int, days: seq<Input>, k: nat)
    requires Days(days) && k < |Run(security, days).active|
    ensures Evidence(security, days, Run(security, days).active[k])
  {
    hide Build, PositiveActivity, Accept;
    if days != [] {
      var n := |days| - 1;
      var t, day := Run(security, days[..n]), days[n];
      DaysPrefix(days);
      RunNext(security, days);
      if k < |t.active| {
        ActiveEvidence(security, days[..n], k);
        EvidenceStays(security, days, t.active[k]);
      } else {
        BuildAccepted(day.context, security, day.session, day.seen.value,
                      Anchor(AfterGap(t.state, security, day.session, day.ordinal).state));
        assert days[n].session == Run(security, days).active[k].session;
      }
    }
  }

  /** A record once emitted is never withdrawn or changed by later days. */
  lemma {:induction false} EmittedStays(security: int, days: seq<Input>, m: nat)
    requires m <= |days|
    ensures Run(security, days[..m]).emitted <= Run(security, days).emitted
  {
    hide *;
    if m < |days| {
      var n := |days| - 1;
      EmittedStays(security, days[..n], m);
      assert days[..n][..m] == days[..m];
      RunNext(security, days);
      NextFollows(Run(security, days[..n]), security, days[n]);
      assert Run(security, days[..n]).emitted <= Run(security, days).emitted;
    } else {
      assert days[..m] == days;
    }
  }

  // ---- telescoping factors

  /** close / preclose of one record. */
  function Ratio(r: Record): real { if r.prices.preclose == 0.0 then 0.0 else r.prices.close / r.prices.preclose }

  /** Product of the daily ratios over places i + 1 .. j. */
  function Growth(chain: seq<Entry>, i: nat, j: nat): real
    requires i <= j < |chain|
    decreases j - i
  {
    if i == j then 1.0 else Times(Growth(chain, i, j - 1), Ratio(chain[j].record))
  }

  lemma {:induction false} StepReturn(before: Record, r: Record, ordinal: int)
    requires Linked(Some(PreviousAt(ordinal, before)), r) && before.returnClose == before.prices.close * before.factor
    ensures r.returnClose == Times(before.returnClose, Ratio(r))
  {
    OneStep(before.returnClose, r.prices.close, r.prices.preclose, r.factor);
  }

  lemma {:induction false} OneStep(before: real, close: real, preclose: real, factor: real)
    requires preclose != 0.0 && factor * preclose == before
    ensures close * factor == before * (close / preclose)
  {
    assert before * (close / preclose) == factor * (preclose * (close / preclose));
  }

  lemma {:induction false} ReturnOf(previous: Option<Previous>, r: Record)
    requires Linked(previous, r)
    ensures r.returnClose == r.prices.close * r.factor
  {
  }

  /** The ratio of two return closes of a chain is the product of the daily close / preclose ratios between them. */
  lemma {:induction false} Telescopes(security: int, chain: seq<Entry>, i: nat, j: nat)
    requires ChainKept(security, chain) && i <= j < |chain|
    ensures chain[j].record.returnClose == Times(chain[i].record.returnClose, Growth(chain, i, j))
    decreases j - i
  {
    hide Linked, Times, Ratio;
    if i < j {
      var l := j - 1;
      Telescopes(security, chain, i, l);
      assert LinkAt(security, chain, j) && LinkAt(security, chain, l);
      ReturnOf(AnchorAt(chain, l), chain[l].record);
      StepReturn(chain[l].record, chain[j].record, chain[l].ordinal);
      Associate(chain[i].record.returnClose, Growth(chain, i, l), Ratio(chain[j].record));
    } else {
      Associate(chain[i].record.returnClose, 1.0, 1.0);
    }
  }

  /** The same on what was emitted: a confirmed record keeps its prices, factor and chain start. */
  lemma {:induction false} EmittedTelescopes(security: int, t: Trace, i: nat, j: nat, a: Record, b: Record)
    requires Kept(security, t) && i <= j < |t.chain|
    requires Delayed(a, t.chain[i].record) && Delayed(b, t.chain[j].record)
    ensures b.returnClose == Times(a.returnClose, Growth(t.chain, i, j))
    ensures a.chainStart == b.chainStart == t.chain[0].record.session && t.chain[0].record.factor == 1.0
  {
    hide Times, Growth, Conserved, StateKept, EmittedKept, AvailabilityKept, ChainEmitted;
    Telescopes(security, t.chain, i, j);
    ChainFacts(security, t.chain, 0, i);
    ChainFacts(security, t.chain, i, j);
    assert LinkAt(security, t.chain, 0);
  }
}
