/** The outcome price normalizer: every security's chain advanced one session at a time. */
module OutcomeNormalizer {
  import opened Prelude
  import opened Clock
  import opened Multisets
  import opened Sorting
  import opened OutcomePrices
  import opened OutcomeChain
  import opened OutcomeMeaning

  // ---- one day's inputs

  /** A security and the reason the reference store refused it. */
  datatype Refusal = Refusal(security: int, reason: string)

  datatype Day = Day(context: Context, session: Session, ordinal: int, seen: map<int, Seen>)

  /** The feature rows by security. */
  function BySecurity(rows: seq<Feature>): map<int, Feature>
  {
    if rows == [] then map[] else BySecurity(rows[..|rows| - 1])[rows[|rows| - 1].bar.security := rows[|rows| - 1]]
  }

  lemma {:induction false} BySecurityRows(rows: seq<Feature>, security: int)
    requires security in BySecurity(rows)
    ensures exists i :: 0 <= i < |rows| && BySecurity(rows)[security] == rows[i]
  {
    if rows != [] {
      var n := |rows| - 1;
      if rows[n].bar.security != security { BySecurityRows(rows[..n], security); }
    }
  }

  function ReasonsFor(issues: seq<Refusal>, security: int): seq<string>
  {
    if issues == [] then []
    else
      var last := issues[|issues| - 1];
      ReasonsFor(issues[..|issues| - 1], security) + if last.security == security then [last.reason] else []
  }

  function Lookup<V>(m: map<int, V>, k: int): Option<V> { if k in m then Some(m[k]) else None }

  /** Every security with a price decision or a complete row, and what the day knows of it. */
  function SeenOn(full: map<int, Feature>, originals: map<int, Decision>, issues: seq<Refusal>,
                  decisions: map<int, Decision>): map<int, Seen>
  {
    map k | k in decisions.Keys + full.Keys ::
      Seen(Lookup(full, k), Lookup(originals, k), ReasonsFor(issues, k), Lookup(decisions, k))
  }

  // ---- the whole system after some days

  function Inputs(days: seq<Day>, security: int): (r: seq<Input>)
    ensures |r| == |days|
    ensures forall i :: 0 <= i < |days| ==>
              r[i] == Input(days[i].context, days[i].session, days[i].ordinal, Lookup(days[i].seen, security))
  {
    seq(|days|, i requires 0 <= i < |days| =>
      Input(days[i].context, days[i].session, days[i].ordinal, Lookup(days[i].seen, security)))
  }

  ghost predicate SeenAllValid(seen: map<int, Seen>) { forall k :: k in seen ==> SeenValid(seen[k]) }

  ghost predicate History(days: seq<Day>)
  {
    && (forall i :: 0 <= i < |days| ==> SeenAllValid(days[i].seen))
    && forall i, j :: 0 <= i < j < |days| ==> days[i].session < days[j].session && days[i].ordinal < days[j].ordinal
  }

  lemma {:induction false} HistoryDays(days: seq<Day>, security: int)
    requires History(days)
    ensures Days(Inputs(days, security))
  {
    hide SeenValid;
  }

  function StateIn(previous: map<int, Previous>, pending: map<int, seq<Record>>, security: int): State
  {
    if security in previous then
      Chain(previous[security], if security in pending then pending[security] else [])
    else Idle
  }

  /** Every security stands where its own run of the chain machine left it. */
  ghost predicate AllRuns(previous: map<int, Previous>, pending: map<int, seq<Record>>, days: seq<Day>)
  {
    forall k :: StateIn(previous, pending, k) == Run(k, Inputs(days, k)).state
  }

  /** Pending rows only where there is a previous record, and never an empty list of them. */
  ghost predicate Shape(previous: map<int, Previous>, pending: map<int, seq<Record>>)
  {
    forall k :: k in pending ==> k in previous && pending[k] != []
  }

  /** How many rows are pending over all securities. */
  ghost function Total(pending: map<int, seq<Record>>): nat
    decreases |pending|
  {
    if exists k :: k in pending then var k :| k in pending; |pending[k]| + Total(pending - {k}) else 0
  }

  lemma {:induction false} TotalWithout(pending: map<int, seq<Record>>, k: int)
    requires k in pending
    ensures Total(pending) == |pending[k]| + Total(pending - {k})
    decreases |pending|
  {
    var m :| m in pending && Total(pending) == |pending[m]| + Total(pending - {m});
    if m != k {
      TotalWithout(pending - {m}, k);
      TotalWithout(pending - {k}, m);
      assert pending - {m} - {k} == pending - {k} - {m};
    }
  }

  /** Only one security's rows differ. */
  lemma {:induction false} TotalChange(a: map<int, seq<Record>>, b: map<int, seq<Record>>, k: int)
    requires a - {k} == b - {k}
    ensures Total(b) - (if k in b then |b[k]| else 0) == Total(a) - if k in a then |a[k]| else 0
  {
    if k in a { TotalWithout(a, k); } else { assert a == a - {k}; }
    if k in b { TotalWithout(b, k); } else { assert b == b - {k}; }
  }

  // ---- the steps of one day, security by security

  function StepOf(d: Day, previous: map<int, Previous>, pending: map<int, seq<Record>>, security: int): Step
  {
    Advance(d.context, security, d.session, d.ordinal, Lookup(d.seen, security), StateIn(previous, pending, security))
  }

  function Emissions(d: Day, previous: map<int, Previous>, pending: map<int, seq<Record>>, ids: seq<int>): seq<Record>
  {
    if ids == [] then []
    else Emissions(d, previous, pending, ids[..|ids| - 1]) + StepOf(d, previous, pending, ids[|ids| - 1]).emitted
  }

  function Problems(d: Day, previous: map<int, Previous>, pending: map<int, seq<Record>>, ids: seq<int>): seq<Issue>
  {
    if ids == [] then []
    else Problems(d, previous, pending, ids[..|ids| - 1]) + StepOf(d, previous, pending, ids[|ids| - 1]).issues
  }

  function Discards(d: Day, previous: map<int, Previous>, pending: map<int, seq<Record>>, ids: seq<int>): nat
  {
    if ids == [] then 0
    else Discards(d, previous, pending, ids[..|ids| - 1]) + StepOf(d, previous, pending, ids[|ids| - 1]).discarded
  }

  /** One for an observation that became a record. */
  function Acceptance(d: Day, s: State, security: int): nat
  {
    if Attempt(security, Input(d.context, d.session, d.ordinal, Lookup(d.seen, security)), s).Some? then 1 else 0
  }

  function Acceptances(d: Day, previous: map<int, Previous>, pending: map<int, seq<Record>>, ids: seq<int>): nat
  {
    if ids == [] then 0
    else
      var last := ids[|ids| - 1];
      Acceptances(d, previous, pending, ids[..|ids| - 1]) + Acceptance(d, StateIn(previous, pending, last), last)
  }

  /** One step neither loses nor invents a record. */
  lemma {:induction false} StepBalance(d: Day, s: State, security: int)
    ensures var step := Advance(d.context, security, d.session, d.ordinal, Lookup(d.seen, security), s);
            |Pending(step.state)| + |step.emitted| + step.discarded == |Pending(s)| + Acceptance(d, s, security)
  {
    hide Build;
  }

  // ---- the maps part-way through a day

  datatype Snapshot = Snapshot(previous: map<int, Previous>, pending: map<int, seq<Record>>, discarded: nat)

  /** The day's steps have been taken for exactly the securities done. */
  ghost predicate Reached(d: Day, a: Snapshot, now: Snapshot, done: seq<int>, emitted: seq<Record>,
                          problems: seq<Issue>)
  {
    && Shape(now.previous, now.pending)
    && (forall k :: StateIn(now.previous, now.pending, k)
                 == if k in done then StepOf(d, a.previous, a.pending, k).state else StateIn(a.previous, a.pending, k))
    && emitted == Emissions(d, a.previous, a.pending, done)
    && problems == Problems(d, a.previous, a.pending, done)
    && now.discarded == a.discarded + Discards(d, a.previous, a.pending, done)
    && Total(now.pending) + |emitted| + now.discarded
       == Total(a.pending) + a.discarded + Acceptances(d, a.previous, a.pending, done)
  }

  /** Everything a step returns, by its parts. */
  ghost predicate Stepped(c: Context, security: int, session: Session, ordinal: int, seen: Option<Seen>, before: State,
                          after: State, emitted: seq<Record>, problems: seq<Issue>, discarded: int)
  {
    0 <= discarded && Step(after, emitted, problems, discarded) == Advance(c, security, session, ordinal, seen, before)
  }

  lemma {:induction false} OnlyOne(a: Snapshot, b: Snapshot, k: int, j: int)
    requires b.previous - {k} == a.previous - {k} && b.pending - {k} == a.pending - {k} && j != k
    ensures StateIn(b.previous, b.pending, j) == StateIn(a.previous, a.pending, j)
  {
    assert j in b.previous <==> j in b.previous - {k};
    assert j in a.previous <==> j in a.previous - {k};
    assert j in b.pending <==> j in b.pending - {k};
    assert j in a.pending <==> j in a.pending - {k};
  }

  lemma {:induction false} PendingCount(a: Snapshot, k: int)
    requires Shape(a.previous, a.pending)
    ensures |Pending(StateIn(a.previous, a.pending, k))| == if k in a.pending then |a.pending[k]| else 0
  {
  }

  /** One more security's step. */
  lemma {:induction false} ReachedNext(d: Day, a: Snapshot, now: Snapshot, then_: Snapshot, done: seq<int>, k: int,
                    emitted: seq<Record>, problems: seq<Issue>, more: seq<Record>, others: seq<Issue>)
    requires Reached(d, a, now, done, emitted, problems) && k !in done
    requires Shape(then_.previous, then_.pending)
    requires then_.previous - {k} == now.previous - {k} && then_.pending - {k} == now.pending - {k}
    requires Stepped(d.context, k, d.session, d.ordinal, Lookup(d.seen, k), StateIn(now.previous, now.pending, k),
                     StateIn(then_.previous, then_.pending, k), more, others, then_.discarded - now.discarded)
    ensures Reached(d, a, then_, done + [k], emitted + more, problems + others)
  {
    hide Advance, Acceptance;
    assert (done + [k])[..|done|] == done;
    StepBalance(d, StateIn(a.previous, a.pending, k), k);
    TotalChange(now.pending, then_.pending, k);
    PendingCount(now, k);
    PendingCount(then_, k);
    forall j | j != k ensures StateIn(then_.previous, then_.pending, j) == StateIn(now.previous, now.pending, j) {
      OnlyOne(now, then_, k, j);
    }
    hide StateIn, Total;
  }

  // ---- order of emission

  /** The order of a day's emissions: by session, then by security. */
  predicate Earlier(a: Record, b: Record)
  {
    a.session < b.session || (a.session == b.session && a.security <= b.security)
  }

  function EmissionOrder(): (Record, Record) -> bool { (a: Record, b: Record) => Earlier(a, b) }

  lemma {:induction false} SomeMember(ids: set<int>)
    requires ids != {}
    ensures exists k :: k in ids
  {
    assert (forall k :: k !in ids) ==> ids == {};
  }

  method InOrder(ids: set<int>) returns (r: seq<int>)
    ensures forall i, j :: 0 <= i < j < |r| ==> r[i] < r[j]
    ensures forall k :: k in r <==> k in ids
  {
    r := [];
    var rest := ids;
    while rest != {}
      invariant rest <= ids
      invariant forall i, j :: 0 <= i < j < |r| ==> r[i] < r[j]
      invariant forall i, k :: 0 <= i < |r| && k in rest ==> r[i] < k
      invariant forall k :: k in ids <==> k in rest || k in r
      decreases |rest|
    {
      var least := Least(rest);
      r, rest := r + [least], rest - {least};
    }
  }

  method Least(ids: set<int>) returns (least: int)
    requires ids != {}
    ensures least in ids && forall k :: k in ids ==> least <= k
  {
    SomeMember(ids);
    least :| least in ids;
    var rest := ids - {least};
    while rest != {}
      invariant least in ids && forall k :: k in ids && k !in rest ==> least <= k
      invariant rest <= ids
      decreases |rest|
    {
      SomeMember(rest);
      var k :| k in rest;
      rest := rest - {k};
      least := Min(least, k);
    }
  }

  /** Every pending row passes its record checks again once confirmed. */
  lemma {:induction false} ConfirmedValid(t: Trace, security: int, day: Input, i: nat)
    requires Kept(security, t) && Until(t, day.session - 1, day.ordinal - 1) && !Gap(t.state, day.ordinal)
    requires day.seen.Some? && SeenValid(day.seen.value) && Attempt(security, day, t.state).Some?
    requires Attempt(security, day, t.state).value.confirms && i < |Pending(t.state)|
    ensures ValidRecord(Confirm(Pending(t.state)[i], Attempt(security, day, t.state).value))
  {
    AttemptJoins(security, t, day);
    hide Attempt, Kept, Joins;
    ConfirmJustifies(security, t, day.session, day.ordinal, Attempt(security, day, t.state).value, i);
  }

  method ConfirmRows(rows: seq<Record>, b: Built) returns (r: seq<Record>)
    requires forall i :: 0 <= i < |rows| ==> ValidRecord(Confirm(rows[i], b))
    ensures r == ConfirmAll(rows, b)
  {
    hide ValidRecord;
    r := [];
    for i := 0 to |rows|
      invariant r == ConfirmAll(rows, b)[..i]
    {
      var checked := Checked(Confirm(rows[i], b));
      r := r + [checked.value];
    }
  }

  /** The order of a day: the unseen securities with a chain first, then the seen ones, both ascending. */
  ghost predicate DayIds(missing: seq<int>, present: seq<int>, previous: map<int, Previous>, seen: map<int, Seen>)
  {
    && (forall i, j :: 0 <= i < j < |missing| ==> missing[i] < missing[j])
    && (forall i, j :: 0 <= i < j < |present| ==> present[i] < present[j])
    && (forall k :: k in missing <==> k in previous && k !in seen)
    && (forall k :: k in present <==> k in seen)
  }

  /** A whole day: every security stepped once, in order, and the emissions sorted. */
  ghost predicate DayResult(d: Day, a: Snapshot, now: Snapshot, emitted: seq<Record>, problems: seq<Issue>, taken: int)
  {
    exists missing: seq<int>, present: seq<int> ::
      && DayIds(missing, present, a.previous, d.seen)
      && now.discarded == a.discarded + Discards(d, a.previous, a.pending, missing + present)
      && emitted == Sorted(Emissions(d, a.previous, a.pending, missing + present), EmissionOrder())
      && problems == Problems(d, a.previous, a.pending, missing + present)
      && taken == Acceptances(d, a.previous, a.pending, missing + present)
  }

  /** After the last security every one of them has been stepped, seen or not. */
  lemma {:induction false} AllStepped(d: Day, a: Snapshot, now: Snapshot, missing: seq<int>, present: seq<int>,
                   emitted: seq<Record>, problems: seq<Issue>, k: int)
    requires Reached(d, a, now, missing + present, emitted, problems) && DayIds(missing, present, a.previous, d.seen)
    ensures StateIn(now.previous, now.pending, k) == StepOf(d, a.previous, a.pending, k).state
  {
    hide Build, Total, Emissions, Problems, Discards, Acceptances;
    if k !in missing + present {
      assert k !in missing && k !in present;
      assert StateIn(a.previous, a.pending, k) == Idle;
    }
  }

  /** One more day of history steps every security's run. */
  lemma {:induction false} HistoryNext(days: seq<Day>, d: Day, k: int, previous: map<int, Previous>,
                                       pending: map<int, seq<Record>>)
    requires StateIn(previous, pending, k) == Run(k, Inputs(days, k)).state
    ensures Run(k, Inputs(days + [d], k)).state == StepOf(d, previous, pending, k).state
  {
    hide Advance, Next;
    var all := Inputs(days + [d], k);
    assert all[..|all| - 1] == Inputs(days, k);
    RunNext(k, all);
    NextFollows(Run(k, Inputs(days, k)), k, all[|all| - 1]);
  }

  // ---- everything the days returned

  ghost predicate Own(rows: seq<Record>, k: int) { forall i :: 0 <= i < |rows| ==> rows[i].security == k }

  /** A security's run emits its own records, and one more day adds that day's step. */
  lemma {:induction false} EmittedNext(days: seq<Day>, d: Day, k: int, previous: map<int, Previous>,
                                       pending: map<int, seq<Record>>)
    requires History(days + [d]) && StateIn(previous, pending, k) == Run(k, Inputs(days, k)).state
    ensures Run(k, Inputs(days + [d], k)).emitted
         == Run(k, Inputs(days, k)).emitted + StepOf(d, previous, pending, k).emitted
    ensures Own(StepOf(d, previous, pending, k).emitted, k)
  {
    hide Advance, Next, History, Kept;
    var all := Inputs(days + [d], k);
    assert all[..|all| - 1] == Inputs(days, k);
    RunNext(k, all);
    NextFollows(Run(k, Inputs(days, k)), k, all[|all| - 1]);
    HistoryDays(days + [d], k);
    RunKept(k, all);
    OwnEmitted(k, Run(k, all));
    var before, step := Run(k, Inputs(days, k)).emitted, StepOf(d, previous, pending, k).emitted;
    forall i | 0 <= i < |step| ensures step[i].security == k {
      assert (before + step)[|before| + i] == step[i];
    }
  }

  lemma {:induction false} OwnEmitted(k: int, t: Trace)
    requires Kept(k, t)
    ensures Own(t.emitted, k) && NoRepeats(t.emitted)
    ensures forall i, j :: 0 <= i < j < |t.emitted| ==> t.emitted[i].session < t.emitted[j].session
  {
    forall i, j | 0 <= i < j < |t.emitted| ensures t.emitted[i].session < t.emitted[j].session {
      KeptOrder(k, t, i, j);
    }
  }

  /** What a list of securities emits is, record by record, what the record's own security emits. */
  lemma {:induction false} EmissionCount(d: Day, previous: map<int, Previous>, pending: map<int, seq<Record>>,
                                         ids: seq<int>, e: Record)
    requires NoRepeats(ids) && forall k :: Own(StepOf(d, previous, pending, k).emitted, k)
    ensures multiset(Emissions(d, previous, pending, ids))[e]
         == if e.security in ids then multiset(StepOf(d, previous, pending, e.security).emitted)[e] else 0
  {
    hide StepOf;
    if ids != [] {
      var n := |ids| - 1;
      EmissionCount(d, previous, pending, ids[..n], e);
      assert e.security in ids <==> e.security in ids[..n] || e.security == ids[n];
      if e.security != ids[n] { Foreign(StepOf(d, previous, pending, ids[n]).emitted, ids[n], e); }
      AppendCount(Emissions(d, previous, pending, ids[..n]), StepOf(d, previous, pending, ids[n]).emitted, e);
    }
  }

  lemma {:induction false} Foreign(rows: seq<Record>, k: int, e: Record)
    requires Own(rows, k) && e.security != k
    ensures multiset(rows)[e] == 0
  {
  }

  /** Everything returned so far is what the runs of all securities emitted, each record as often as there. */
  ghost predicate AllEmitted(published: seq<Record>, days: seq<Day>)
  {
    forall e: Record :: multiset(published)[e] == multiset(Run(e.security, Inputs(days, e.security)).emitted)[e]
  }

  lemma {:induction false} NothingPublished()
    ensures AllEmitted([], [])
  {
    forall e: Record ensures Run(e.security, Inputs([], e.security)).emitted == [] {
      StartKept(e.security, 0, 0);
    }
  }

  lemma {:induction false} DayPublished(days: seq<Day>, d: Day, published: seq<Record>, a: Snapshot, now: Snapshot,
                                        emitted: seq<Record>, problems: seq<Issue>, taken: int)
    requires History(days + [d]) && AllRuns(a.previous, a.pending, days) && AllEmitted(published, days)
    requires DayResult(d, a, now, emitted, problems, taken)
    ensures AllEmitted(published + emitted, days + [d])
  {
    hide Run, Inputs, History, AllRuns, DayResult, StepOf, Emissions;
    var ids := DayParts(d, a, now, emitted, problems, taken);
    forall e: Record ensures multiset(published + emitted)[e]
                          == multiset(Run(e.security, Inputs(days + [d], e.security)).emitted)[e] {
      hide *;
      PublishedSoFar(published, days, e);
      DayCount(days, d, a.previous, a.pending, ids, e);
      AppendCount(published, emitted, e);
      AppendCount(Run(e.security, Inputs(days, e.security)).emitted,
                  StepOf(d, a.previous, a.pending, e.security).emitted, e);
    }
  }

  lemma {:induction false} PublishedSoFar(published: seq<Record>, days: seq<Day>, e: Record)
    requires AllEmitted(published, days)
    ensures multiset(published)[e] == multiset(Run(e.security, Inputs(days, e.security)).emitted)[e]
  {
    hide Run, Inputs;
  }

  lemma {:induction false} DayParts(d: Day, a: Snapshot, now: Snapshot, emitted: seq<Record>, problems: seq<Issue>,
                                    taken: int)
    returns (ids: seq<int>)
    requires DayResult(d, a, now, emitted, problems, taken)
    ensures NoRepeats(ids) && forall k :: k in ids <==> k in a.previous || k in d.seen
    ensures multiset(emitted) == multiset(Emissions(d, a.previous, a.pending, ids))
  {
    hide DayIds, Emissions, EmissionOrder, Discards, Problems, Acceptances;
    var missing: seq<int>, present: seq<int> :| DayIds(missing, present, a.previous, d.seen)
      && emitted == Sorted(Emissions(d, a.previous, a.pending, missing + present), EmissionOrder());
    IdsOnce(missing, present, a.previous, d.seen);
    ids := missing + present;
    var found := Emissions(d, a.previous, a.pending, ids);
    assert multiset(Sorted(found, EmissionOrder())) == multiset(found);
  }

  /** The day's share of one record, in the day's own order and in its security's run. */
  lemma {:induction false} DayCount(days: seq<Day>, d: Day, previous: map<int, Previous>,
                                    pending: map<int, seq<Record>>, ids: seq<int>, e: Record)
    requires History(days + [d]) && AllRuns(previous, pending, days)
    requires NoRepeats(ids) && forall k :: k in ids <==> k in previous || k in d.seen
    ensures multiset(Emissions(d, previous, pending, ids))[e]
         == multiset(StepOf(d, previous, pending, e.security).emitted)[e]
    ensures Run(e.security, Inputs(days + [d], e.security)).emitted
         == Run(e.security, Inputs(days, e.security)).emitted + StepOf(d, previous, pending, e.security).emitted
  {
    hide History, Run, StepOf, Emissions, Own, Inputs, NoRepeats, StateIn;
    forall k ensures Own(StepOf(d, previous, pending, k).emitted, k) {
      EmittedNext(days, d, k, previous, pending);
    }
    EmittedNext(days, d, e.security, previous, pending);
    EmissionCount(d, previous, pending, ids, e);
    if e.security !in ids { UnlistedEmitsNothing(d, previous, pending, e.security); }
  }

  lemma {:induction false} AppendCount(a: seq<Record>, b: seq<Record>, e: Record)
    ensures multiset(a + b)[e] == multiset(a)[e] + multiset(b)[e]
  {
  }

  lemma {:induction false} IdsOnce(missing: seq<int>, present: seq<int>, previous: map<int, Previous>,
                                   seen: map<int, Seen>)
    requires DayIds(missing, present, previous, seen)
    ensures NoRepeats(missing + present)
    ensures forall k :: k in missing + present <==> k in previous || k in seen
  {
    var ids := missing + present;
    forall i, j | 0 <= i < j < |ids| ensures ids[i] != ids[j] {
      assert i < |missing| ==> ids[i] in missing;
      assert |missing| <= j ==> ids[j] in present;
    }
  }

  lemma {:induction false} UnlistedEmitsNothing(d: Day, previous: map<int, Previous>, pending: map<int, seq<Record>>,
                                                k: int)
    requires k !in previous && k !in d.seen
    ensures StepOf(d, previous, pending, k).emitted == []
  {
    hide Build;
  }

  /** No two records share a session and a security: the store's primary key. */
  ghost predicate KeysUnique(rows: seq<Record>)
  {
    forall i, j :: 0 <= i < j < |rows| ==> rows[i].session != rows[j].session || rows[i].security != rows[j].security
  }

  /** Nothing the normalizer ever returned repeats a key. */
  lemma {:induction false} NoKeyTwice(published: seq<Record>, days: seq<Day>)
    requires History(days) && AllEmitted(published, days)
    ensures KeysUnique(published)
  {
    hide History, Kept, Run, Inputs;
    forall i, j | 0 <= i < j < |published| && published[i].security == published[j].security
      ensures published[i].session != published[j].session {
      var k := published[i].security;
      HistoryDays(days, k);
      RunKept(k, Inputs(days, k));
      var rows := Run(k, Inputs(days, k)).emitted;
      OwnEmitted(k, Run(k, Inputs(days, k)));
      assert published[i] in multiset(published) && published[j] in multiset(published);
      assert published[i] in rows && published[j] in rows;
      if published[i] == published[j] {
        CountTwice(published, i, j);
        CountOnce(rows, published[i]);
      }
    }
  }

  predicate NotAfter(d: Day, session: Session, ordinal: int) { d.session <= session && d.ordinal <= ordinal }

  // ---- what a day does, security by security

  ghost function LastRecord(previous: map<int, Previous>, k: int): Option<Previous>
  {
    if k in previous then Some(previous[k]) else None
  }

  ghost function Waiting(pending: map<int, seq<Record>>, k: int): seq<Record>
  {
    if k in pending then pending[k] else []
  }

  /** What the day's own lists say of one security; it is seen if it has a price decision or a complete row. */
  ghost predicate Knows(seen: Option<Seen>, k: int, features: seq<Feature>, originals: map<int, Decision>,
                        issues: seq<Refusal>, decisions: map<int, Decision>)
  {
    var complete := exists i :: 0 <= i < |features| && features[i].bar.security == k;
    && (seen.Some? <==> complete || k in decisions)
    && (seen.Some? ==>
          var x := seen.value;
          && (x.feature.Some? <==> complete)
          && (x.feature.Some? ==> x.feature.value in features && x.feature.value.bar.security == k)
          && (x.original.Some? <==> k in originals) && (x.original.Some? ==> x.original.value == originals[k])
          && (x.decision.Some? <==> k in decisions) && (x.decision.Some? ==> x.decision.value == decisions[k])
          && forall reason :: reason in x.reasons <==> Refusal(k, reason) in issues)
  }

  /** One security's day: its record, if it is allowed one, and its share of what the day returns. */
  ghost predicate SecurityDone(d: Day, k: int, seen: Option<Seen>, a: Snapshot, now: Snapshot, emitted: seq<Record>)
  {
    exists rows: seq<Record> ::
      && DayDone(d.context, k, d.session, d.ordinal, seen, LastRecord(a.previous, k), Waiting(a.pending, k),
                 LastRecord(now.previous, k), Waiting(now.pending, k), rows)
      && forall e: Record :: e.security == k ==> multiset(emitted)[e] == multiset(rows)[e]
  }

  /** The day of one security, from what the day's lists say of it. */
  ghost predicate Lived(d: Day, k: int, features: seq<Feature>, originals: map<int, Decision>, issues: seq<Refusal>,
                        decisions: map<int, Decision>, a: Snapshot, now: Snapshot, emitted: seq<Record>)
  {
    exists seen: Option<Seen> ::
      Knows(seen, k, features, originals, issues, decisions) && SecurityDone(d, k, seen, a, now, emitted)
  }

  ghost predicate InEmissionOrder(emitted: seq<Record>)
  {
    forall i, j :: 0 <= i < j < |emitted| ==>
      || emitted[i].session < emitted[j].session
      || (emitted[i].session == emitted[j].session && emitted[i].security <= emitted[j].security)
  }

  lemma {:induction false} LastRecordIs(previous: map<int, Previous>, pending: map<int, seq<Record>>, k: int)
    requires Shape(previous, pending)
    ensures Anchor(StateIn(previous, pending, k)) == LastRecord(previous, k)
    ensures Pending(StateIn(previous, pending, k)) == Waiting(pending, k)
  {
  }

  /** Every security starts its day from a record its chain may build on. */
  lemma {:induction false} StartsSound(days: seq<Day>, d: Day, k: int, s: State)
    requires History(days + [d]) && s == Run(k, Inputs(days, k)).state
    ensures SoundAnchor(Anchor(s), d.session)
  {
    var all := days + [d];
    assert History(days) by {
      hide SeenAllValid;
      assert forall i :: 0 <= i < |days| ==> days[i] == all[i];
    }
    HistoryDays(days, k);
    RunKept(k, Inputs(days, k));
    if days != [] {
      var last := days[|days| - 1];
      assert last == all[|days| - 1] && d == all[|days|];
      hide History, Kept, Until, Run;
      AnchorSound(k, Run(k, Inputs(days, k)), last.session, last.ordinal);
    }
  }

  lemma {:induction false} StepDone(days: seq<Day>, d: Day, k: int, a: Snapshot, now: Snapshot)
    requires History(days + [d]) && AllRuns(a.previous, a.pending, days)
          && AllRuns(now.previous, now.pending, days + [d])
    requires Shape(a.previous, a.pending) && Shape(now.previous, now.pending)
    ensures DayDone(d.context, k, d.session, d.ordinal, Lookup(d.seen, k), LastRecord(a.previous, k),
                    Waiting(a.pending, k),
                    LastRecord(now.previous, k), Waiting(now.pending, k), StepOf(d, a.previous, a.pending, k).emitted)
  {
    var s := StateIn(a.previous, a.pending, k);
    StartsSound(days, d, k, s);
    HistoryNext(days, d, k, a.previous, a.pending);
    SeenInDay(days, d, k);
    LastRecordIs(a.previous, a.pending, k);
    LastRecordIs(now.previous, now.pending, k);
    assert StateIn(now.previous, now.pending, k) == StepOf(d, a.previous, a.pending, k).state;
    hide Shape, AllRuns, History, Run, Inputs, SoundAnchor, DayDone, SeenValid, StateIn, LastRecord, Waiting, Advance;
    AdvanceDone(d.context, k, d.session, d.ordinal, Lookup(d.seen, k), s);
  }

  lemma {:induction false} SeenInDay(days: seq<Day>, d: Day, k: int)
    requires History(days + [d])
    ensures Lookup(d.seen, k).Some? ==> SeenValid(Lookup(d.seen, k).value)
  {
    hide SeenValid;
    assert (days + [d])[|days|] == d;
  }

  /** So a day of the whole normalizer is a day of every security. */
  lemma {:induction false} EverySecurity(days: seq<Day>, d: Day, a: Snapshot, now: Snapshot, emitted: seq<Record>,
                                         problems: seq<Issue>, taken: int)
    requires History(days + [d]) && AllRuns(a.previous, a.pending, days)
          && AllRuns(now.previous, now.pending, days + [d])
    requires Shape(a.previous, a.pending) && Shape(now.previous, now.pending)
    requires DayResult(d, a, now, emitted, problems, taken)
    ensures forall k :: SecurityDone(d, k, Lookup(d.seen, k), a, now, emitted)
    ensures InEmissionOrder(emitted)
  {
    EmittedOrdered(d, a, now, emitted, problems, taken);
    var ids := DayParts(d, a, now, emitted, problems, taken);
    hide *;
    forall k ensures SecurityDone(d, k, Lookup(d.seen, k), a, now, emitted) {
      OneSecurity(days, d, k, a, now, emitted, ids);
    }
  }

  lemma {:induction false} OneSecurity(days: seq<Day>, d: Day, k: int, a: Snapshot, now: Snapshot,
                                       emitted: seq<Record>, ids: seq<int>)
    requires History(days + [d]) && AllRuns(a.previous, a.pending, days)
          && AllRuns(now.previous, now.pending, days + [d])
    requires Shape(a.previous, a.pending) && Shape(now.previous, now.pending)
    requires NoRepeats(ids) && forall k :: k in ids <==> k in a.previous || k in d.seen
    requires multiset(emitted) == multiset(Emissions(d, a.previous, a.pending, ids))
    ensures SecurityDone(d, k, Lookup(d.seen, k), a, now, emitted)
  {
    hide DayDone, Emissions, StepOf, History, AllRuns, Shape, NoRepeats, Run, Inputs, LastRecord, Waiting;
    StepDone(days, d, k, a, now);
    var rows := StepOf(d, a.previous, a.pending, k).emitted;
    forall e: Record | e.security == k ensures multiset(emitted)[e] == multiset(rows)[e] {
      DayCount(days, d, a.previous, a.pending, ids, e);
    }
  }

  lemma {:induction false} EmittedOrdered(d: Day, a: Snapshot, now: Snapshot, emitted: seq<Record>,
                                          problems: seq<Issue>, taken: int)
    requires DayResult(d, a, now, emitted, problems, taken)
    ensures InEmissionOrder(emitted)
  {
    hide DayIds, Emissions, Discards, Problems, Acceptances;
    var missing: seq<int>, present: seq<int> :| DayIds(missing, present, a.previous, d.seen)
      && emitted == Sorted(Emissions(d, a.previous, a.pending, missing + present), EmissionOrder());
    EmissionOrderTotal();
    SortedOrdered(Emissions(d, a.previous, a.pending, missing + present), EmissionOrder());
    hide Sorted;
    forall i, j | 0 <= i < j < |emitted| ensures Earlier(emitted[i], emitted[j]) {
      assert EmissionOrder()(emitted[i], emitted[j]);
    }
  }

  lemma {:induction false} EmissionOrderTotal()
    ensures TotalPreorder(EmissionOrder())
  {
  }

  lemma {:induction false} Lives(d: Day, k: int, features: seq<Feature>, originals: map<int, Decision>,
                                 issues: seq<Refusal>, decisions: map<int, Decision>, a: Snapshot, now: Snapshot,
                                 emitted: seq<Record>)
    requires d.seen == SeenOn(BySecurity(features), originals, issues, decisions)
    requires SecurityDone(d, k, Lookup(d.seen, k), a, now, emitted)
    ensures Lived(d, k, features, originals, issues, decisions, a, now, emitted)
  {
    hide SecurityDone, Knows, SeenOn, BySecurity;
    SeenKnown(k, features, originals, issues, decisions);
  }

  /** The day's map of what is seen says what its lists say. */
  lemma {:induction false} SeenKnown(k: int, features: seq<Feature>, originals: map<int, Decision>,
                                     issues: seq<Refusal>, decisions: map<int, Decision>)
    ensures Knows(Lookup(SeenOn(BySecurity(features), originals, issues, decisions), k), k, features, originals, issues,
                  decisions)
  {
    RowsKnown(features, k);
    forall reason ensures reason in ReasonsFor(issues, k) <==> Refusal(k, reason) in issues {
      ReasonsKnown(issues, k, reason);
    }
    hide BySecurity, ReasonsFor;
  }

  lemma {:induction false} RowsKnown(features: seq<Feature>, k: int)
    ensures k in BySecurity(features) <==> exists i :: 0 <= i < |features| && features[i].bar.security == k
    ensures k in BySecurity(features) ==>
              BySecurity(features)[k] in features && BySecurity(features)[k].bar.security == k
  {
    if features != [] {
      var n := |features| - 1;
      RowsKnown(features[..n], k);
      assert features == features[..n] + [features[n]];
      if features[n].bar.security != k && exists i :: 0 <= i < |features| && features[i].bar.security == k {
        var i :| 0 <= i < |features| && features[i].bar.security == k;
        assert features[..n][i].bar.security == k;
      }
    }
  }

  lemma {:induction false} ReasonsKnown(issues: seq<Refusal>, k: int, reason: string)
    ensures reason in ReasonsFor(issues, k) <==> Refusal(k, reason) in issues
  {
    if issues != [] {
      var n := |issues| - 1;
      ReasonsKnown(issues[..n], k, reason);
      assert issues == issues[..n] + [issues[n]];
    }
  }

  class OutcomePriceNormalizer {
    var previous: map<int, Previous>
    var pending: map<int, seq<Record>>
    var lastIssues: seq<Issue>
    var discardedPendingCount: nat
    var lastDay: Option<Session>
    var lastOrdinal: Option<int>
    var finished: bool
    /** The processed days, how many records they accepted, and every record they returned. */
    ghost var history: seq<Day>
    ghost var accepted: nat
    ghost var published: seq<Record>

    /** The days already processed are not after the last day seen. */
    ghost predicate Clocked()
      reads this
    {
      && (lastDay.Some? <==> lastOrdinal.Some?)
      && (history != [] ==> lastDay.Some? && NotAfter(history[|history| - 1], lastDay.value, lastOrdinal.value))
    }

    /** Every security's fields are exactly where its own run left them, until the end clears them. */
    ghost predicate Follows()
      reads this
    {
      if finished then previous == map[] && pending == map[] else AllRuns(previous, pending, history)
    }

    ghost predicate Valid()
      reads this
    {
      && Shape(previous, pending) && History(history) && Clocked() && Follows()
      && accepted == |published| + Total(pending) + discardedPendingCount && AllEmitted(published, history)
    }

    constructor ()
      ensures Valid() && history == [] && !finished && lastDay == None
      ensures accepted == discardedPendingCount == 0 && published == [] && previous == map[] && pending == map[]
    {
      previous, pending, lastIssues, discardedPendingCount := map[], map[], [], 0;
      lastDay, lastOrdinal, finished := None, None, false;
      history, accepted, published := [], 0, [];
      new;
      NothingPublished();
      forall k ensures Run(k, Inputs(history, k)).state == Idle {
        StartKept(k, 0, 0);
      }
    }

    /** Breaking one security's chain: its pending rows are discarded, one issue for each. */
    method BreakChain(security: int, session: Session, reason: string) returns (problems: seq<Issue>)
      requires Shape(previous, pending)
      modifies this`previous, this`pending, this`discardedPendingCount
      ensures previous == old(previous) - {security} && pending == old(pending) - {security} && Shape(previous, pending)
      ensures var step := Break(old(StateIn(previous, pending, security)), security, session, reason);
              && StateIn(previous, pending, security) == step.state && problems == step.issues
              && discardedPendingCount == old(discardedPendingCount) + step.discarded
    {
      var discarded := if security in pending then pending[security] else [];
      previous, pending := previous - {security}, pending - {security};
      discardedPendingCount := discardedPendingCount + |discarded|;
      problems := BreakIssues(discarded, security, session, reason);
    }

    /** An accepted record: emitted, withheld, or emitted with everything it confirms. */
    method Admit(security: int, ordinal: int, b: Built) returns (emitted: seq<Record>)
      requires Shape(previous, pending)
      requires b.confirms && security in pending ==>
                 forall i :: 0 <= i < |pending[security]| ==> ValidRecord(Confirm(pending[security][i], b))
      modifies this`previous, this`pending
      ensures Shape(previous, pending)
      ensures previous - {security} == old(previous) - {security} && pending - {security} == old(pending) - {security}
      ensures var step := Accept(old(StateIn(previous, pending, security)), ordinal, b);
              Step(StateIn(previous, pending, security), emitted, [], 0) == step
    {
      hide ValidRecord;
      emitted := [];
      previous := previous[security := PreviousAt(ordinal, b.record)];
      if security in pending && b.confirms {
        var rows := pending[security];
        pending := pending - {security};
        emitted := ConfirmRows(rows, b);
        emitted := emitted + [b.record];
      } else if b.record.priceOnly || security in pending {
        pending := pending[security := (if security in pending then pending[security] else []) + [b.record]];
      } else {
        emitted := [b.record];
      }
    }

    /** The body of the day's loop for one security the day saw. */
    method Observe(c: Context, security: int, session: Session, ordinal: int, x: Seen, ghost t: Trace)
      returns (emitted: seq<Record>, problems: seq<Issue>)
      requires Shape(previous, pending) && SeenValid(x)
      requires Kept(security, t) && t.state == StateIn(previous, pending, security)
            && Until(t, session - 1, ordinal - 1)
      modifies this`previous, this`pending, this`discardedPendingCount
      ensures Shape(previous, pending)
      ensures previous - {security} == old(previous) - {security} && pending - {security} == old(pending) - {security}
      ensures Stepped(c, security, session, ordinal, Some(x), old(StateIn(previous, pending, security)),
                      StateIn(previous, pending, security), emitted, problems,
                      discardedPendingCount - old(discardedPendingCount))
    {
      hide SeenValid, Build, Kept, Until, Accept, ValidRecord;
      emitted, problems := [], [];
      if security in previous && previous[security].ordinal != ordinal - 1 {
        problems := BreakChain(security, session, "OUTCOME_CALENDAR_GAP");
      }
      match Build(c, security, session, x, Lookup(previous, security)) {
        case Err(reason) =>
          var more := BreakChain(security, session, reason);
          problems := problems + more;
        case Ok(b) =>
          if security in pending && b.confirms {
            forall i: nat | i < |pending[security]| ensures ValidRecord(Confirm(pending[security][i], b)) {
              ConfirmedValid(t, security, Input(c, session, ordinal, Some(x)), i);
            }
          }
          emitted := Admit(security, ordinal, b);
      }
      ghost var step := Advance(c, security, session, ordinal, Some(x), old(StateIn(previous, pending, security)));
      assert StateIn(previous, pending, security) == step.state;
      assert emitted == step.emitted;
      assert problems == step.issues;
      assert discardedPendingCount - old(discardedPendingCount) == step.discarded;
    }

    ghost function Now(): Snapshot
      reads this
    {
      Snapshot(previous, pending, discardedPendingCount)
    }

    /** Securities with a previous record and no observation lose their chain. */
    method BreakMissing(d: Day, ghost a: Snapshot, missing: seq<int>, present: seq<int>) returns (problems: seq<Issue>)
      requires Shape(previous, pending) && a == Now() && DayIds(missing, present, previous, d.seen)
      modifies this`previous, this`pending, this`discardedPendingCount
      ensures Reached(d, a, Now(), missing, [], problems)
    {
      hide Advance, Total, Shape, Acceptance, Break;
      problems := [];
      assert Reached(d, a, Now(), [], [], []) by { ReachedNone(d, a); }
      for i := 0 to |missing|
        invariant Shape(previous, pending) && Reached(d, a, Now(), missing[..i], [], problems)
      {
        var k := missing[i];
        assert missing[..i + 1] == missing[..i] + [k];
        ghost var before := Now();
        assert k in missing && k !in missing[..i];
        assert StateIn(previous, pending, k) == StateIn(a.previous, a.pending, k);
        var more := BreakChain(k, d.session, "OUTCOME_RAW_PRICE_OBSERVATION_MISSING");
        MissingStep(d, before, Now(), k, more);
        ReachedNext(d, a, before, Now(), missing[..i], k, [], problems, [], more);
        problems := problems + more;
      }
      assert missing[..|missing|] == missing;
    }

    /** Every security the day saw is observed in order. */
    method ObserveAll(d: Day, ghost a: Snapshot, ghost missing: seq<int>, present: seq<int>, lost: seq<Issue>)
      returns (emitted: seq<Record>, problems: seq<Issue>)
      requires DayIds(missing, present, a.previous, d.seen) && Reached(d, a, Now(), missing, [], lost)
      requires SeenAllValid(d.seen) && History(history + [d]) && AllRuns(a.previous, a.pending, history)
      modifies this`previous, this`pending, this`discardedPendingCount
      ensures Reached(d, a, Now(), missing + present, emitted, problems)
    {
      hide *;
      emitted, problems := [], lost;
      assert missing + present[..0] == missing;
      for i := 0 to |present|
        invariant Reached(d, a, Now(), missing + present[..i], emitted, problems)
        invariant history == old(history)
      {
        ghost var done, before := missing + present[..i], Now();
        assert missing + present[..i + 1] == done + [present[i]];
        assert before == Snapshot(previous, pending, discardedPendingCount) by { NowIs(); }
        ObserveReady(history, d, a, before, missing, present, i, emitted, problems);
        var more, others := Observe(d.context, present[i], d.session, d.ordinal, d.seen[present[i]],
                                    Run(present[i], Inputs(history, present[i])));
        NowIs();
        assert Lookup(d.seen, present[i]) == Some(d.seen[present[i]]) by { LookupIn(d.seen, present[i]); }
        ReachedNext(d, a, before, Now(), done, present[i], emitted, problems, more, others);
        emitted, problems := emitted + more, problems + others;
      }
      assert present[..|present|] == present;
    }

    lemma {:induction false} NowIs()
      ensures Now() == Snapshot(previous, pending, discardedPendingCount)
    {
    }

    /** The loops of a day: afterwards every security stands where its own run leads. */
    method Steps(d: Day) returns (emitted: seq<Record>, problems: seq<Issue>, ghost taken: nat)
      requires Shape(previous, pending) && AllRuns(previous, pending, history) && History(history + [d])
            && SeenAllValid(d.seen)
      modifies this`previous, this`pending, this`discardedPendingCount
      ensures Shape(previous, pending) && AllRuns(previous, pending, history + [d])
      ensures DayResult(d, old(Now()), Now(), emitted, problems, taken)
      ensures Total(pending) + |emitted| + discardedPendingCount
           == old(Total(pending)) + old(discardedPendingCount) + taken
    {
      hide *;
      NowIs();
      ghost var a := Now();
      var missing := InOrder(previous.Keys - d.seen.Keys);
      var present := InOrder(d.seen.Keys);
      assert DayIds(missing, present, a.previous, d.seen) by { DayIdsAre(missing, present, a.previous, d.seen); }
      var lost := BreakMissing(d, a, missing, present);
      var found;
      found, problems := ObserveAll(d, a, missing, present, lost);
      NowIs();
      StepsDone(history, d, a, Now(), missing, present, found, problems);
      emitted := Sorted(found, EmissionOrder());
      taken := Acceptances(d, a.previous, a.pending, missing + present);
    }

    /** The rest of a day once its inputs are admitted. */
    method Commit(d: Day) returns (emitted: seq<Record>)
      requires !finished && SeenAllValid(d.seen) && lastDay == Some(d.session) && lastOrdinal == Some(d.ordinal)
      requires Shape(previous, pending) && AllRuns(previous, pending, history) && History(history + [d])
      requires accepted == |published| + Total(pending) + discardedPendingCount && AllEmitted(published, history)
      modifies this`previous, this`pending, this`discardedPendingCount, this`lastIssues, this`history, this`accepted,
               this`published
      ensures Shape(previous, pending) && AllRuns(previous, pending, history)
      ensures accepted == |published| + Total(pending) + discardedPendingCount
      ensures history == old(history) + [d]
           && DayResult(d, old(Now()), Now(), emitted, lastIssues, accepted - old(accepted))
      ensures published == old(published) + emitted && AllEmitted(published, history)
    {
      hide *;
      NowIs();
      var problems;
      ghost var taken;
      emitted, problems, taken := Steps(d);
      NowIs();
      ghost var after := Now();
      lastIssues := problems;
      history := history + [d];
      accepted, published := accepted + taken, published + emitted;
      NowIs();
      assert Now() == after;
      DayPublished(old(history), d, old(published), old(Now()), after, emitted, lastIssues, taken);
    }

    /** The session does not come after the last one, by day or by ordinal. */
    predicate Stale(session: Session, ordinal: int)
      reads this`lastDay, this`lastOrdinal
    {
      lastDay.Some? && lastOrdinal.Some? && !(lastOrdinal.value < ordinal && lastDay.value < session)
    }

    /** One day: accepted exactly when the session comes next and no feature row repeats a security. */
    method NormalizeDay(c: Context, session: Session, ordinal: int, features: seq<Feature>,
                        originals: map<int, Decision>, issues: seq<Refusal>, decisions: map<int, Decision>)
      returns (r: Result<seq<Record>>)
      requires Valid() && forall i :: 0 <= i < |features| ==> ValidBar(features[i].bar)
      modifies this
      ensures Valid() && finished == old(finished)
      ensures r.Ok? <==>
                !old(finished) && 0 <= ordinal && !old(Stale(session, ordinal)) && |BySecurity(features)| == |features|
      ensures KeysUnique(published)
      ensures r.Err? ==>
                history == old(history) && Now() == old(Now()) && accepted == old(accepted)
                && published == old(published)
      ensures r.Ok? ==>
                var d := Day(c, session, ordinal, SeenOn(BySecurity(features), originals, issues, decisions));
                && history == old(history) + [d]
                && DayResult(d, old(Now()), Now(), r.value, lastIssues, accepted - old(accepted))
                && published == old(published) + r.value
      // and every security's own day, from the day's lists to its chain and its share of the result
      ensures r.Ok? ==> InEmissionOrder(r.value)
      ensures r.Ok? ==> exists d: Day ::
                && d.context == c && d.session == session && d.ordinal == ordinal
                && forall k :: Lived(d, k, features, originals, issues, decisions, old(Now()), Now(), r.value)
    {
      hide Shape, AllRuns, History, Total, DayResult, SeenOn, SeenAllValid, ValidBar, AllEmitted, KeysUnique;
      NoKeyTwice(published, history);
      if finished { return Err("OUTCOME_NORMALIZER_FINISHED"); }
      if ordinal < 0 { return Err("OUTCOME_SESSION_INVALID"); }
      if lastOrdinal.Some? && !(lastOrdinal.value < ordinal && lastDay.value < session) {
        return Err("OUTCOME_DAYS_NOT_STRICTLY_INCREASING");
      }
      lastDay, lastOrdinal := Some(session), Some(ordinal);
      var full := BySecurity(features);
      if |full| != |features| { return Err("OUTCOME_DUPLICATE_FEATURE_SECURITY"); }
      var d := Day(c, session, ordinal, SeenOn(full, originals, issues, decisions));
      SeenOnValid(features, originals, issues, decisions);
      HistoryGrows(history, d);
      var emitted := Commit(d);
      NoKeyTwice(published, history);
      EverySecurity(old(history), d, old(Now()), Now(), emitted, lastIssues, accepted - old(accepted));
      hide InEmissionOrder, BySecurity, Lived, SecurityDone;
      forall k ensures Lived(d, k, features, originals, issues, decisions, old(Now()), Now(), emitted) {
        assert SecurityDone(d, k, Lookup(d.seen, k), old(Now()), Now(), emitted);
        Lives(d, k, features, originals, issues, decisions, old(Now()), Now(), emitted);
      }
      r := Ok(emitted);
    }

    /** Every pending row becomes an issue and is counted as discarded. */
    method DropTails() returns (ghost ids: seq<int>)
      modifies this`lastIssues, this`discardedPendingCount
      ensures discardedPendingCount == old(discardedPendingCount) + Total(pending)
      ensures (forall k :: k in ids <==> k in pending) && lastIssues == Tails(pending, ids)
    {
      hide Total;
      lastIssues := [];
      var keys := InOrder(pending.Keys);
      for i := 0 to |keys|
        invariant lastIssues == Tails(pending, keys[..i])
        invariant discardedPendingCount == old(discardedPendingCount) + TailCount(pending, keys[..i])
      {
        assert keys[i] in keys;
        assert keys[..i + 1][..i] == keys[..i];
        lastIssues := lastIssues + TailIssues(pending[keys[i]], keys[i]);
        discardedPendingCount := discardedPendingCount + |pending[keys[i]]|;
      }
      assert keys[..|keys|] == keys;
      TailsAreAll(pending, keys);
      ids := keys;
    }

    /** The end of a run: whatever is still pending is discarded. */
    method Finish()
      requires Valid()
      modifies this
      ensures Valid() && finished && history == old(history)
      ensures discardedPendingCount == old(discardedPendingCount) + old(Total(pending))
      ensures accepted == old(accepted) == |published| + discardedPendingCount && |published| == old(|published|)
      ensures exists ids: seq<int> :: (forall k :: k in ids <==> k in old(pending))
                                      && lastIssues == Tails(old(pending), ids)
    {
      hide AllRuns, History, Tails, AllEmitted, KeysUnique;
      NoKeyTwice(published, history);
      ghost var ids := DropTails();
      pending, previous, finished := map[], map[], true;
    }
  }

  function TailIssues(rows: seq<Record>, security: int): seq<Issue>
  {
    seq(|rows|, i requires 0 <= i < |rows| => Issue(rows[i].session, security, "OUTCOME_UNCONFIRMED_TAIL"))
  }

  function Tails(pending: map<int, seq<Record>>, ids: seq<int>): seq<Issue>
  {
    if ids == [] then []
    else
      var last := ids[|ids| - 1];
      Tails(pending, ids[..|ids| - 1]) + TailIssues(if last in pending then pending[last] else [], last)
  }

  function TailCount(pending: map<int, seq<Record>>, ids: seq<int>): nat
  {
    if ids == [] then 0
    else
      var last := ids[|ids| - 1];
      TailCount(pending, ids[..|ids| - 1]) + if last in pending then |pending[last]| else 0
  }

  /** Listing every key once counts every pending row once. */
  lemma {:induction false} TailsAreAll(pending: map<int, seq<Record>>, ids: seq<int>)
    requires forall i, j :: 0 <= i < j < |ids| ==> ids[i] < ids[j]
    requires forall k :: k in ids <==> k in pending
    ensures TailCount(pending, ids) == Total(pending)
  {
    if ids == [] {
      assert forall k :: k in pending ==> k in ids;
    } else {
      var last, rest := ids[|ids| - 1], ids[..|ids| - 1];
      assert last in ids;
      TotalWithout(pending, last);
      forall k ensures k in rest <==> k in pending - {last} {
        assert k in ids <==> k in rest || k == last;
      }
      TailsAreAll(pending - {last}, rest);
      SameTails(pending, pending - {last}, rest);
    }
  }

  lemma {:induction false} SameTails(a: map<int, seq<Record>>, b: map<int, seq<Record>>, ids: seq<int>)
    requires forall k :: k in ids ==> k in a && k in b && a[k] == b[k]
    ensures TailCount(a, ids) == TailCount(b, ids)
  {
    if ids != [] { SameTails(a, b, ids[..|ids| - 1]); }
  }

  lemma {:induction false} HistoryGrows(days: seq<Day>, d: Day)
    requires History(days) && SeenAllValid(d.seen)
    requires days != [] ==> days[|days| - 1].session < d.session && days[|days| - 1].ordinal < d.ordinal
    ensures History(days + [d])
  {
    hide SeenAllValid;
  }

  lemma {:induction false} SeenOnValid(features: seq<Feature>, originals: map<int, Decision>, issues: seq<Refusal>,
                                       decisions: map<int, Decision>)
    requires forall i :: 0 <= i < |features| ==> ValidBar(features[i].bar)
    ensures SeenAllValid(SeenOn(BySecurity(features), originals, issues, decisions))
  {
    hide ValidBar;
    forall k | k in BySecurity(features) ensures ValidBar(BySecurity(features)[k].bar) {
      BySecurityRows(features, k);
    }
  }

  lemma {:induction false} LookupIn<V>(m: map<int, V>, k: int)
    requires k in m
    ensures Lookup(m, k) == Some(m[k])
  {
  }

  lemma {:induction false} DayIdsAre(missing: seq<int>, present: seq<int>, previous: map<int, Previous>,
                                     seen: map<int, Seen>)
    requires forall i, j :: 0 <= i < j < |missing| ==> missing[i] < missing[j]
    requires forall i, j :: 0 <= i < j < |present| ==> present[i] < present[j]
    requires forall k :: k in missing <==> k in previous.Keys - seen.Keys
    requires forall k :: k in present <==> k in seen.Keys
    ensures DayIds(missing, present, previous, seen)
  {
  }

  /** What observing the next security of the day needs. */
  lemma {:induction false} ObserveReady(days: seq<Day>, d: Day, a: Snapshot, now: Snapshot, missing: seq<int>,
                                        present: seq<int>, i: nat, emitted: seq<Record>, problems: seq<Issue>)
    requires i < |present| && DayIds(missing, present, a.previous, d.seen)
    requires Reached(d, a, now, missing + present[..i], emitted, problems)
    requires SeenAllValid(d.seen) && History(days + [d]) && AllRuns(a.previous, a.pending, days)
    ensures var k := present[i];
            && k !in missing + present[..i] && k in d.seen && SeenValid(d.seen[k]) && Shape(now.previous, now.pending)
            && Kept(k, Run(k, Inputs(days, k)))
            && Run(k, Inputs(days, k)).state == StateIn(now.previous, now.pending, k)
            && Until(Run(k, Inputs(days, k)), d.session - 1, d.ordinal - 1)
  {
    hide Advance, Total, Kept, Until, SeenValid, History, Run, Emissions, Problems, Discards, Acceptances;
    var k := present[i];
    RunReady(days, d, k);
    assert k in present;
    assert k !in missing && k !in present[..i];
  }

  /** After the day's loops: every run one day longer, and every record accounted for. */
  lemma {:induction false} StepsDone(days: seq<Day>, d: Day, a: Snapshot, now: Snapshot, missing: seq<int>,
                                     present: seq<int>, found: seq<Record>, problems: seq<Issue>)
    requires Reached(d, a, now, missing + present, found, problems) && DayIds(missing, present, a.previous, d.seen)
    requires AllRuns(a.previous, a.pending, days)
    ensures Shape(now.previous, now.pending) && AllRuns(now.previous, now.pending, days + [d])
    ensures DayResult(d, a, now, Sorted(found, EmissionOrder()), problems,
                      Acceptances(d, a.previous, a.pending, missing + present))
    ensures Total(now.pending) + |Sorted(found, EmissionOrder())| + now.discarded
         == Total(a.pending) + a.discarded + Acceptances(d, a.previous, a.pending, missing + present)
  {
    hide Advance, Total, Run, Emissions, Problems, Discards, Acceptances, DayIds;
    forall k ensures StateIn(now.previous, now.pending, k) == Run(k, Inputs(days + [d], k)).state {
      AllStepped(d, a, now, missing, present, found, problems, k);
      HistoryNext(days, d, k, a.previous, a.pending);
    }
    assert |multiset(Sorted(found, EmissionOrder()))| == |multiset(found)|;
  }

  /** A security's run so far is ready for the next day. */
  lemma {:induction false} RunReady(days: seq<Day>, d: Day, k: int)
    requires History(days + [d])
    ensures Kept(k, Run(k, Inputs(days, k))) && Until(Run(k, Inputs(days, k)), d.session - 1, d.ordinal - 1)
  {
    hide SeenAllValid, Kept, Until, Run;
    var all := days + [d];
    assert History(days) by {
      forall i | 0 <= i < |days| ensures SeenAllValid(days[i].seen) && days[i] == all[i] {
        assert all[i] == days[i];
      }
    }
    HistoryDays(days, k);
    RunKept(k, Inputs(days, k));
    var t := Run(k, Inputs(days, k));
    if days == [] {
      StartKept(k, d.session - 1, d.ordinal - 1);
    } else {
      var last := days[|days| - 1];
      assert all[|days| - 1] == last && all[|days|] == d;
      UntilLater(t, last.session, last.ordinal, d.session - 1, d.ordinal - 1);
    }
  }

  lemma {:induction false} ReachedNone(d: Day, a: Snapshot)
    requires Shape(a.previous, a.pending)
    ensures Reached(d, a, a, [], [], [])
  {
    hide Advance, Total;
  }

  /** Losing the chain is the step of an unseen security. */
  lemma {:induction false} MissingStep(d: Day, before: Snapshot, now: Snapshot, k: int, problems: seq<Issue>)
    requires k !in d.seen && k in before.previous
    requires var step := Break(StateIn(before.previous, before.pending, k), k, d.session,
                               "OUTCOME_RAW_PRICE_OBSERVATION_MISSING");
             && StateIn(now.previous, now.pending, k) == step.state && problems == step.issues
             && now.discarded == before.discarded + step.discarded
    ensures Stepped(d.context, k, d.session, d.ordinal, Lookup(d.seen, k), StateIn(before.previous, before.pending, k),
                    StateIn(now.previous, now.pending, k), [], problems, now.discarded - before.discarded)
  {
    hide Build;
  }

  // ---- the store's primary key

  /** What day n emits for security k, as a function of the days before it. */
  function EmittedOn(days: seq<Day>, n: nat, k: int): seq<Record>
    requires n < |days|
  {
    var d := days[n];
    Advance(d.context, k, d.session, d.ordinal, Lookup(d.seen, k), Run(k, Inputs(days[..n], k)).state).emitted
  }

  lemma {:induction false} InputsPrefix(days: seq<Day>, n: nat, k: int)
    requires n <= |days|
    ensures Inputs(days[..n], k) == Inputs(days, k)[..n]
  {
  }

  lemma {:induction false} HistoryPrefix(days: seq<Day>, n: nat)
    requires History(days) && n <= |days|
    ensures History(days[..n])
  {
    hide SeenAllValid;
    forall i | 0 <= i < n ensures SeenAllValid(days[..n][i].seen) {
      assert days[..n][i] == days[i];
    }
  }

  /** The emissions of a run are the emissions of its days, one after the other. */
  lemma {:induction false} RunEmits(days: seq<Day>, n: nat, k: int)
    requires n < |days|
    ensures Run(k, Inputs(days[..n + 1], k)).emitted == Run(k, Inputs(days[..n], k)).emitted + EmittedOn(days, n, k)
  {
    hide Advance, Next;
    assert days[..n + 1] == days[..n] + [days[n]];
    var all := Inputs(days[..n + 1], k);
    assert all[..n] == Inputs(days[..n], k);
    RunNext(k, all);
    NextFollows(Run(k, Inputs(days[..n], k)), k, all[n]);
  }

  /** A later day only emits later sessions of a security, so no session of it is ever inserted twice. */
  lemma {:induction false} KeysNeverClash(days: seq<Day>, k: int, m: nat, n: nat, i: nat, j: nat)
    requires History(days) && m <= n < |days| && i < |EmittedOn(days, m, k)| && j < |EmittedOn(days, n, k)|
    requires m < n || i < j
    ensures EmittedOn(days, m, k)[i].session < EmittedOn(days, n, k)[j].session
    ensures EmittedOn(days, m, k)[i].security == k
  {
    hide EmittedOn, Run, History, Kept;
    HistoryPrefix(days, n + 1);
    HistoryDays(days[..n + 1], k);
    var all := Inputs(days[..n + 1], k);
    RunKept(k, all);
    var t := Run(k, all);
    RunEmits(days, m, k);
    RunEmits(days, n, k);
    InputsPrefix(days[..n + 1], m + 1, k);
    assert days[..n + 1][..m + 1] == days[..m + 1];
    EmittedStays(k, all, m + 1);
    var first := |Run(k, Inputs(days[..m], k)).emitted| + i;
    var second := |Run(k, Inputs(days[..n], k)).emitted| + j;
    if m < n {
      InputsPrefix(days[..n + 1], n, k);
      assert days[..n + 1][..n] == days[..n];
      InputsPrefix(days[..n], m + 1, k);
      assert days[..n][..m + 1] == days[..m + 1];
      EmittedStays(k, Inputs(days[..n], k), m + 1);
    }
    KeptOrder(k, t, first, second);
    assert t.emitted[first] == EmittedOn(days, m, k)[i] && t.emitted[second] == EmittedOn(days, n, k)[j];
  }

  lemma {:induction false} KeptOrder(k: int, t: Trace, i: nat, j: nat)
    requires Kept(k, t) && i < j < |t.emitted|
    ensures t.emitted[i].session < t.emitted[j].session && t.emitted[i].security == k
  {
    assert Held(t)[i] < Held(t)[j];
  }
}
