/** The event log of a replay rebuilds its state, and each member's events come in cycles. */
module ReplayLedger {
  import opened Wrappers
  import opened Sorting
  import opened ByteStrings
  import opened Replay
  import opened ReplayMembers

  /** What the log alone says is suspended and banned. */
  function LedgerOf(events: seq<Event>): (set<Hash>, map<Hash, int>) {
    if events == [] then ({}, map[])
    else
      var (suspended, banned) := LedgerOf(events[..|events| - 1]);
      var last := events[|events| - 1];
      match last.kind
      case Suspended => (suspended + {last.member}, banned)
      case Banned => (suspended, banned[last.member := last.height])
      case Recovered => (suspended - {last.member}, banned - {last.member})
  }

  datatype Stage = Clear | Held | Barred

  /** Where a member's events have got to in the cycle suspended, perhaps banned, recovered; None once they leave it. */
  function Cycle(log: seq<Event>): Option<Stage> {
    if log == [] then Some(Clear)
    else match (Cycle(log[..|log| - 1]), log[|log| - 1].kind)
      case (Some(Clear), Suspended) => Some(Held)
      case (Some(Held), Banned) => Some(Barred)
      case (Some(Held), Recovered) => Some(Clear)
      case (Some(Barred), Recovered) => Some(Clear)
      case _ => None
  }

  function StageOf(s: State, p: Hash): Stage {
    if p in s.banned then Barred else if p in s.suspended then Held else Clear
  }

  ghost predicate LiveHolds(s: State) {
    && s.banned.Keys <= s.suspended
    && forall p :: p in s.suspended ==> Count(s.counter, p) > 0
  }

  ghost predicate Faithful(s: State) {
    && LiveHolds(s)
    && LedgerOf(s.events) == (s.suspended, s.banned)
    && forall p :: Cycle(LogOf(s.events, p)) == Some(StageOf(s, p))
  }

  lemma LedgerOne(events: seq<Event>, e: Event)
    ensures var (suspended, banned) := LedgerOf(events);
            LedgerOf(events + [e]) ==
            match e.kind
            case Suspended => (suspended + {e.member}, banned)
            case Banned => (suspended, banned[e.member := e.height])
            case Recovered => (suspended - {e.member}, banned - {e.member})
  {
    assert (events + [e])[..|events|] == events;
  }

  lemma CycleOne(log: seq<Event>, e: Event)
    ensures Cycle(log + [e]) ==
      match (Cycle(log), e.kind)
      case (Some(Clear), Suspended) => Some(Held)
      case (Some(Held), Banned) => Some(Barred)
      case (Some(Held), Recovered) => Some(Clear)
      case (Some(Barred), Recovered) => Some(Clear)
      case _ => None
  {
    assert (log + [e])[..|log|] == log;
  }

  /** An event whose member was at the right stage keeps every member's log in its cycle. */
  lemma CyclesMove(events: seq<Event>, e: Event, p: Hash)
    ensures Cycle(LogOf(events + [e], p))
         == if e.member == p then Cycle(LogOf(events, p) + [e]) else Cycle(LogOf(events, p))
  {
    LogOne(events, e, p);
    assert LogOf(events, p) + [] == LogOf(events, p);
  }

  lemma OnlineFaithful(c: Commitment, enforce: bool, s: State, q: Hash)
    requires Faithful(s) && (enforce || s.suspended == {})
    ensures Faithful(MeetOnline(c, enforce, s, q))
  {
    hide LedgerOf, LogOf, Cycle;
    var s' := MeetOnline(c, enforce, s, q);
    var e := Event(c.epoch, c.height, Recovered, q);
    LedgerOne(s.events, e);
    assert q !in s.suspended ==> s.suspended - {q} == s.suspended && s.banned - {q} == s.banned;
    forall p ensures Cycle(LogOf(s'.events, p)) == Some(StageOf(s', p)) {
      CyclesMove(s.events, e, p);
      CycleOne(LogOf(s.events, p), e);
    }
  }

  /** An online verdict keeps the log in step exactly when it does not lift a hold whose counter is already zero. */
  lemma OnlineLedgerIff(c: Commitment, enforce: bool, s: State, q: Hash)
    requires LedgerOf(s.events) == (s.suspended, s.banned)
    ensures var t := MeetOnline(c, enforce, s, q);
            LedgerOf(t.events) == (t.suspended, t.banned)
            <==> !(enforce && Count(s.counter, q) == 0 && (q in s.suspended || q in s.banned))
  {
    LedgerOne(s.events, Event(c.epoch, c.height, Recovered, q));
    assert q !in s.suspended ==> s.suspended - {q} == s.suspended;
    assert q !in s.banned ==> s.banned - {q} == s.banned;
    assert q in s.suspended ==> q !in s.suspended - {q};
    assert q in s.banned ==> q !in s.banned - {q};
  }

  lemma MissedFaithful(rules: Rules, c: Commitment, enforce: bool, s: State, q: Hash)
    requires Faithful(s) && 1 <= rules.suspend <= rules.ban
    ensures Faithful(MeetMissed(rules, c, enforce, s, q))
  {
    hide LedgerOf, LogOf, Cycle;
    var s' := MeetMissed(rules, c, enforce, s, q);
    var suspended, banned := Event(c.epoch, c.height, Kind.Suspended, q), Event(c.epoch, c.height, Kind.Banned, q);
    var count := Count(s.counter, q) + 1;
    var suspends := enforce && count >= rules.suspend && q !in s.suspended;
    var bans := enforce && count >= rules.ban && q !in s.banned;
    var mid := if suspends then s.events + [suspended] else s.events;
    assert s'.events == if bans then mid + [banned] else mid;
    LedgerOne(s.events, suspended);
    LedgerOne(mid, banned);
    forall p ensures Cycle(LogOf(s'.events, p)) == Some(StageOf(s', p)) {
      CyclesMove(s.events, suspended, p);
      CycleOne(LogOf(s.events, p), suspended);
      CyclesMove(mid, banned, p);
      CycleOne(LogOf(mid, p), banned);
    }
  }

  lemma MeetFaithful(rules: Rules, c: Commitment, enforce: bool, s: State, q: Hash)
    requires Faithful(s) && (enforce || s.suspended == {}) && 1 <= rules.suspend <= rules.ban
    ensures Faithful(Meet(rules, c, enforce, s, q))
    ensures !enforce ==> Meet(rules, c, enforce, s, q).suspended == {}
  {
    hide LedgerOf, LogOf, Cycle;
    var seen := s.(lastEpoch := s.lastEpoch[q := c.epoch], counter := s.counter[q := Count(s.counter, q)]);
    assert Faithful(seen) by {
      assert forall p :: Count(seen.counter, p) == Count(s.counter, p);
      assert forall p :: StageOf(seen, p) == StageOf(s, p);
    }
    OnlineFaithful(c, enforce, seen, q);
    MissedFaithful(rules, c, enforce, seen, q);
    assert forall p, n :: StageOf(s.(removedSkipped := n), p) == StageOf(s, p);
    assert forall p, n :: StageOf(seen.(massProtected := n), p) == StageOf(seen, p);
    assert forall p, n :: StageOf(seen.(holdProtected := n), p) == StageOf(seen, p);
  }

  lemma {:induction false} MeetAllFaithful(rules: Rules, c: Commitment, enforce: bool, s: State, order: seq<Hash>)
    requires Faithful(s) && (enforce || s.suspended == {}) && 1 <= rules.suspend <= rules.ban
    ensures Faithful(MeetAll(rules, c, enforce, s, order))
    ensures !enforce ==> MeetAll(rules, c, enforce, s, order).suspended == {}
  {
    hide Faithful;
    if order != [] {
      MeetAllFaithful(rules, c, enforce, s, order[..|order| - 1]);
      MeetFaithful(rules, c, enforce, MeetAll(rules, c, enforce, s, order[..|order| - 1]), order[|order| - 1]);
    }
  }

  /** Two states that agree on counters, holds and events are equally faithful. */
  lemma FaithfulFrame(s: State, t: State)
    requires Faithful(s)
    requires s.counter == t.counter && s.suspended == t.suspended && s.banned == t.banned && s.events == t.events
    ensures Faithful(t)
  {
    assert forall p :: StageOf(t, p) == StageOf(s, p);
  }

  lemma RunRowFaithful(rules: Rules, e: Enforcement, bases: map<int, BaseList>, s: State, row: Row)
    requires Faithful(s) && (Enforces(e, row) || s.suspended == {}) && 1 <= rules.suspend <= rules.ban
    ensures Faithful(RunRow(rules, e, bases, s, row))
    ensures !Enforces(e, row) ==> RunRow(rules, e, bases, s, row).suspended == {}
  {
    hide Faithful, Enforces, MeetAll, LogOf;
    var after := RunRow(rules, e, bases, s, row);
    if row.status != "committed" || row.epoch !in bases
       || row.listSize != |CanonicalOrder(bases[row.epoch].mnList)| {
      FaithfulFrame(s, after);
    } else {
      var order := CanonicalOrder(bases[row.epoch].mnList);
      var present := BoundaryList(bases, row);
      var c := Resolved(rules, row, order, present);
      var warned := Warned(s, row, order, present);
      FaithfulFrame(s, warned);
      MeetAllFaithful(rules, c, Enforces(e, row), warned, order);
      FaithfulFrame(MeetAll(rules, c, Enforces(e, row), warned, order), after);
    }
  }

  /** Under monotone enforcement, in every reachable state the log is a faithful ledger of what stands. */
  lemma {:induction false} LedgerFaithful(rules: Rules, e: Enforcement, bases: map<int, BaseList>, rows: seq<Row>)
    requires MonotoneRows(e, rows) && 1 <= rules.suspend <= rules.ban
    ensures Faithful(RunRows(rules, e, bases, rows))
    ensures (forall i :: 0 <= i < |rows| ==> !Enforces(e, rows[i])) ==> RunRows(rules, e, bases, rows).suspended == {}
  {
    if rows != [] {
      var front, last := rows[..|rows| - 1], rows[|rows| - 1];
      assert forall i :: 0 <= i < |front| ==> front[i] == rows[i];
      LedgerFaithful(rules, e, bases, front);
      RunRowFaithful(rules, e, bases, RunRows(rules, e, bases, front), last);
    }
  }

  /** Whatever the enforcement, a banned member is a suspended one. */
  lemma {:induction false} MeetAllBanned(rules: Rules, c: Commitment, enforce: bool, s: State, order: seq<Hash>)
    requires s.banned.Keys <= s.suspended && rules.suspend <= rules.ban
    ensures var t := MeetAll(rules, c, enforce, s, order); t.banned.Keys <= t.suspended
  {
    if order != [] {
      MeetAllBanned(rules, c, enforce, s, order[..|order| - 1]);
    }
  }

  lemma {:induction false} BannedAreSuspended(rules: Rules, e: Enforcement, bases: map<int, BaseList>, rows: seq<Row>)
    requires rules.suspend <= rules.ban
    ensures var s := RunRows(rules, e, bases, rows); s.banned.Keys <= s.suspended
  {
    if rows != [] {
      var front, row := rows[..|rows| - 1], rows[|rows| - 1];
      BannedAreSuspended(rules, e, bases, front);
      if row.status == "committed" && row.epoch in bases {
        var s := RunRows(rules, e, bases, front);
        var order := CanonicalOrder(bases[row.epoch].mnList);
        var present := BoundaryList(bases, row);
        MeetAllBanned(rules, Resolved(rules, row, order, present), Enforces(e, row), Warned(s, row, order, present),
            order);
      }
    }
  }

  // ----- exactly when the log stays in step

  /** What a member's own events say of it. */
  function Told(log: seq<Event>): (bool, Option<int>) {
    if log == [] then (false, None)
    else
      var (suspended, banned) := Told(log[..|log| - 1]);
      match log[|log| - 1].kind
      case Suspended => (true, banned)
      case Banned => (suspended, Some(log[|log| - 1].height))
      case Recovered => (false, None)
  }

  lemma ToldOne(log: seq<Event>, e: Event)
    ensures var (suspended, banned) := Told(log);
            Told(log + [e]) ==
            match e.kind
            case Suspended => (true, banned)
            case Banned => (suspended, Some(e.height))
            case Recovered => (false, None)
  {
    assert (log + [e])[..|log|] == log;
  }

  /** The whole log says of a member what the member's own events say. */
  lemma {:induction false} LedgerByMember(events: seq<Event>, p: Hash)
    ensures var (suspended, banned) := LedgerOf(events);
            Told(LogOf(events, p)) == (p in suspended, if p in banned then Some(banned[p]) else None)
  {
    if events != [] {
      var front, last := events[..|events| - 1], events[|events| - 1];
      LedgerByMember(front, p);
      ToldOne(LogOf(front, p), last);
      assert LogOf(front, p) + [] == LogOf(front, p);
    }
  }

  predicate MemberInStep(m: Member) { Told(m.log) == (m.suspended, m.banned) }

  function StageNow(m: Member): Stage { if m.banned.Some? then Barred else if m.suspended then Held else Clear }

  /** An enforced online verdict meets a member that is held with its counter at zero. */
  predicate SilentLift(m: Member, sig: Signal) {
    sig.SeenOnline? && sig.enforced && m.count == 0 && (m.suspended || m.banned.Some?)
  }

  lemma NextInStepIff(rules: Rules, m: Member, sig: Signal, p: Hash)
    requires MemberInStep(m)
    ensures MemberInStep(Next(rules, m, sig, p)) <==> !SilentLift(m, sig)
  {
    hide Told;
    if sig.SeenOnline? {
      ToldOne(m.log, Event(sig.epoch, sig.height, Recovered, p));
      assert m.log + [] == m.log;
    } else if sig.SeenMissed? {
      var suspended, banned := Event(sig.epoch, sig.height, Kind.Suspended, p),
          Event(sig.epoch, sig.height, Kind.Banned, p);
      ToldOne(m.log, suspended);
      ToldOne(m.log, banned);
      ToldOne(m.log + [suspended], banned);
      assert m.log + [] + [] == m.log && m.log + [] + [banned] == m.log + [banned];
      assert m.log + [suspended] + [] == m.log + [suspended];
    }
  }

  lemma NextCycleIff(rules: Rules, m: Member, sig: Signal, p: Hash)
    requires Cycle(m.log) == Some(StageNow(m)) && (m.banned.Some? ==> m.suspended) && rules.suspend <= rules.ban
    ensures var n := Next(rules, m, sig, p); Cycle(n.log) == Some(StageNow(n)) <==> !SilentLift(m, sig)
  {
    hide Cycle;
    if sig.SeenOnline? {
      CycleOne(m.log, Event(sig.epoch, sig.height, Recovered, p));
      assert m.log + [] == m.log;
    } else if sig.SeenMissed? {
      var suspended, banned := Event(sig.epoch, sig.height, Kind.Suspended, p),
          Event(sig.epoch, sig.height, Kind.Banned, p);
      CycleOne(m.log, suspended);
      CycleOne(m.log, banned);
      CycleOne(m.log + [suspended], banned);
      assert m.log + [] + [] == m.log && m.log + [] + [banned] == m.log + [banned];
      assert m.log + [suspended] + [] == m.log + [suspended];
    }
  }

  ghost predicate LedgerHolds(s: State) { LedgerOf(s.events) == (s.suspended, s.banned) }

  ghost predicate CyclesHold(s: State) { forall p :: Cycle(LogOf(s.events, p)) == Some(StageOf(s, p)) }

  /** A row's enforced online verdict lifts a hold whose counter is zero. */
  ghost predicate LiftsSilently(rules: Rules, e: Enforcement, bases: map<int, BaseList>, s: State, row: Row) {
    exists p: Hash :: SilentLift(MemberOf(s, p), SignalOf(rules, e, bases, row, p))
  }

  ghost predicate NeverLiftsSilently(rules: Rules, e: Enforcement, bases: map<int, BaseList>, rows: seq<Row>) {
    forall k: nat :: k < |rows| ==> !LiftsSilently(rules, e, bases, RunRows(rules, e, bases, rows[..k]), rows[k])
  }

  lemma LedgerHoldsByMember(s: State)
    ensures LedgerHolds(s) <==> forall p :: MemberInStep(MemberOf(s, p))
  {
    hide LedgerOf, LogOf, Told;
    var (suspended, banned) := LedgerOf(s.events);
    forall p
      ensures MemberInStep(MemberOf(s, p))
        <==> (p in suspended <==> p in s.suspended) && (p in banned <==> p in s.banned)
             && (p in banned && p in s.banned ==> banned[p] == s.banned[p])
    {
      LedgerByMember(s.events, p);
    }
    if forall p :: MemberInStep(MemberOf(s, p)) {
      assert forall p :: (p in suspended <==> p in s.suspended) && (p in banned <==> p in s.banned);
      assert suspended == s.suspended && banned == s.banned;
    }
  }

  lemma RowInStepIff(rules: Rules, e: Enforcement, bases: map<int, BaseList>, s: State, row: Row)
    requires ProperLists(bases)
    ensures LedgerHolds(s) ==>
        (LedgerHolds(RunRow(rules, e, bases, s, row)) <==> !LiftsSilently(rules, e, bases, s, row))
    ensures CyclesHold(s) && s.banned.Keys <= s.suspended && rules.suspend <= rules.ban ==>
              (CyclesHold(RunRow(rules, e, bases, s, row)) <==> !LiftsSilently(rules, e, bases, s, row))
  {
    hide RunRow, SignalOf, LogOf, Cycle, Told, LedgerHolds, Next;
    var t := RunRow(rules, e, bases, s, row);
    LedgerHoldsByMember(s);
    LedgerHoldsByMember(t);
    forall p
      ensures MemberInStep(MemberOf(s, p)) ==>
                (MemberInStep(MemberOf(t, p)) <==> !SilentLift(MemberOf(s, p), SignalOf(rules, e, bases, row, p)))
      ensures Cycle(LogOf(s.events, p)) == Some(StageOf(s, p)) && s.banned.Keys <= s.suspended
              && rules.suspend <= rules.ban ==>
                (Cycle(LogOf(t.events, p)) == Some(StageOf(t, p)) <==>
                   !SilentLift(MemberOf(s, p), SignalOf(rules, e, bases, row, p)))
    {
      RunRowMember(rules, e, bases, s, row, p);
      assert StageNow(MemberOf(s, p)) == StageOf(s, p) && StageNow(MemberOf(t, p)) == StageOf(t, p);
      if MemberInStep(MemberOf(s, p)) {
        NextInStepIff(rules, MemberOf(s, p), SignalOf(rules, e, bases, row, p), p);
      }
      if Cycle(LogOf(s.events, p)) == Some(StageOf(s, p)) && s.banned.Keys <= s.suspended
          && rules.suspend <= rules.ban {
        NextCycleIff(rules, MemberOf(s, p), SignalOf(rules, e, bases, row, p), p);
      }
    }
  }

  /** The log rebuilds the state after every row of a run. */
  ghost predicate LedgerAlways(rules: Rules, e: Enforcement, bases: map<int, BaseList>, rows: seq<Row>) {
    forall k: nat :: k <= |rows| ==> LedgerHolds(RunRows(rules, e, bases, rows[..k]))
  }

  ghost predicate CyclesAlways(rules: Rules, e: Enforcement, bases: map<int, BaseList>, rows: seq<Row>) {
    forall k: nat :: k <= |rows| ==> CyclesHold(RunRows(rules, e, bases, rows[..k]))
  }

  lemma OneRowMore(rules: Rules, e: Enforcement, bases: map<int, BaseList>, rows: seq<Row>)
    requires rows != []
    ensures var front, last := rows[..|rows| - 1], rows[|rows| - 1];
            && (NeverLiftsSilently(rules, e, bases, rows) <==>
                  NeverLiftsSilently(rules, e, bases, front)
                      && !LiftsSilently(rules, e, bases, RunRows(rules, e, bases, front), last))
            && (LedgerAlways(rules, e, bases, rows) <==>
                  LedgerAlways(rules, e, bases, front) && LedgerHolds(RunRows(rules, e, bases, rows)))
            && (CyclesAlways(rules, e, bases, rows) <==>
                  CyclesAlways(rules, e, bases, front) && CyclesHold(RunRows(rules, e, bases, rows)))
  {
    hide LedgerHolds, CyclesHold, LiftsSilently, RunRows;
    var n := |rows| - 1;
    var front := rows[..n];
    assert forall k: nat :: k <= n ==> front[..k] == rows[..k];
    assert rows[..n + 1] == rows && front[..n] == front;
  }

  /**
   Log and state are in step after every row exactly when no enforced online verdict meets a held member with a
   zero counter.
   */
  lemma {:induction false} LedgerInStepIff(rules: Rules, e: Enforcement, bases: map<int, BaseList>, rows: seq<Row>)
    requires ProperLists(bases)
    ensures LedgerAlways(rules, e, bases, rows) <==> NeverLiftsSilently(rules, e, bases, rows)
  {
    hide LedgerHolds, CyclesHold, LiftsSilently, RunRow, NeverLiftsSilently, LedgerAlways, CyclesAlways;
    if rows == [] {
      NoRowsHold(rules, e, bases);
    } else {
      var front := rows[..|rows| - 1];
      LedgerInStepIff(rules, e, bases, front);
      OneRowMore(rules, e, bases, rows);
      LastHolds(rules, e, bases, front);
      RowInStepIff(rules, e, bases, RunRows(rules, e, bases, front), rows[|rows| - 1]);
    }
  }

  /**
   And so are the cycles: each member's events stay suspended, perhaps banned, recovered, and at its stage,
   exactly then.
   */
  lemma {:induction false} CyclesInStepIff(rules: Rules, e: Enforcement, bases: map<int, BaseList>, rows: seq<Row>)
    requires ProperLists(bases) && rules.suspend <= rules.ban
    ensures CyclesAlways(rules, e, bases, rows) <==> NeverLiftsSilently(rules, e, bases, rows)
  {
    hide LedgerHolds, CyclesHold, LiftsSilently, RunRow, NeverLiftsSilently, LedgerAlways, CyclesAlways;
    if rows == [] {
      NoRowsHold(rules, e, bases);
    } else {
      var front := rows[..|rows| - 1];
      CyclesInStepIff(rules, e, bases, front);
      OneRowMore(rules, e, bases, rows);
      LastHolds(rules, e, bases, front);
      BannedAreSuspended(rules, e, bases, front);
      RowInStepIff(rules, e, bases, RunRows(rules, e, bases, front), rows[|rows| - 1]);
    }
  }

  lemma LastHolds(rules: Rules, e: Enforcement, bases: map<int, BaseList>, rows: seq<Row>)
    ensures LedgerAlways(rules, e, bases, rows) ==> LedgerHolds(RunRows(rules, e, bases, rows))
    ensures CyclesAlways(rules, e, bases, rows) ==> CyclesHold(RunRows(rules, e, bases, rows))
  {
    hide LedgerHolds, CyclesHold, RunRows;
    assert rows[..|rows|] == rows;
  }

  lemma NoRowsHold(rules: Rules, e: Enforcement, bases: map<int, BaseList>)
    ensures LedgerAlways(rules, e, bases, []) && CyclesAlways(rules, e, bases, [])
        && NeverLiftsSilently(rules, e, bases, [])
  {
    CleanHolds();
  }

  lemma CleanHolds()
    ensures LedgerHolds(CLEAN) && CyclesHold(CLEAN)
  {
  }

  // ----- why enforcement must be monotone

  const ONE: Hash := [1]
  const EAGER := Rules(1, 2, 200, true)
  const FROM_TEN := Enforcement(None, Some(10))
  const LISTS: map<int, BaseList> :=
    map[1 := BaseList(None, [ONE]), 2 := BaseList(None, [ONE]), 3 := BaseList(None, [ONE]), 4 := BaseList(None, [ONE])]

  function OneRow(epoch: int, height: int, missed: seq<nat>): Row {
    Row(epoch, height, "committed", 1, missed, [], [])
  }

  lemma OneOrder()
    ensures CanonicalOrder([ONE]) == [ONE]
  {
    SortPermutes([ONE], InternalOrder);
    assert CanonicalOrder([ONE])[0] in CanonicalOrder([ONE]);
  }

  lemma OneResolved(row: Row, present: Option<set<Hash>>)
    requires row.missedIndices == [] || row.missedIndices == [0]
    requires row.unobservedIndices == []
    ensures Resolved(EAGER, row, [ONE], present)
         == Commitment(row.epoch, row.boundaryHeight, present, false, if row.missedIndices == [] then {} else {ONE}, {})
  {
    assert Indices(row.missedIndices) == if row.missedIndices == [] then {} else {0};
    assert Indices(row.unobservedIndices) == {};
    assert Resolve([ONE], {}) == {};
    assert Resolve([ONE], {0}) == {ONE} by {
      assert 0 in {0} && [ONE][0] == ONE;
    }
  }

  lemma OneRowRun(s: State, epoch: int, height: int, missed: seq<nat>)
    requires 1 <= epoch <= 3 && (missed == [] || missed == [0])
    ensures MemberOf(RunRow(EAGER, FROM_TEN, LISTS, s, OneRow(epoch, height, missed)), ONE)
         == Next(EAGER, MemberOf(s, ONE),
                 if missed == [] then SeenOnline(height >= 10, epoch, height)
                     else SeenMissed(height >= 10, epoch, height), ONE)
  {
    hide RunRow, MemberOf, Next, CanonicalOrder, Resolved;
    var row := OneRow(epoch, height, missed);
    RunRowMember(EAGER, FROM_TEN, LISTS, s, row, ONE);
    OneOrder();
    OneResolved(row, BoundaryList(LISTS, row));
  }

  /** With heights that fall back below the enforcement height, a suspension is lifted and the log does not say so. */
  lemma FallingHeightsLoseARecovery()
    ensures var rows := [OneRow(1, 10, [0]), OneRow(2, 5, []), OneRow(3, 10, [])];
            var s := RunRows(EAGER, FROM_TEN, LISTS, rows);
            && ONE !in s.suspended
            && LogOf(s.events, ONE) == [Event(1, 10, Kind.Suspended, ONE)]
            && Cycle(LogOf(s.events, ONE)) == Some(Held)
  {
    var rows := [OneRow(1, 10, [0]), OneRow(2, 5, []), OneRow(3, 10, [])];
    var s1 := RunRows(EAGER, FROM_TEN, LISTS, rows[..1]);
    var s2 := RunRows(EAGER, FROM_TEN, LISTS, rows[..2]);
    assert rows[..1][..0] == [] && rows[..2][..1] == rows[..1] && rows[..3][..2] == rows[..2] && rows[..3] == rows;
    OneRowRun(CLEAN, 1, 10, [0]);
    assert RunRows(EAGER, FROM_TEN, LISTS, []) == CLEAN;
    assert s1 == RunRow(EAGER, FROM_TEN, LISTS, RunRows(EAGER, FROM_TEN, LISTS, rows[..1][..0]), rows[0]);
    OneRowRun(s1, 2, 5, []);
    OneRowRun(s2, 3, 10, []);
    assert MemberOf(s1, ONE) == Member(1, true, None, [Event(1, 10, Kind.Suspended, ONE)]);
    assert MemberOf(s2, ONE) == Member(0, true, None, [Event(1, 10, Kind.Suspended, ONE)]);
    assert [Event(1, 10, Kind.Suspended, ONE)][..0] == [];
  }
}
