/**
 What the replay does to one masternode: an automaton over the verdicts that
 count for it, and closed forms for the counter, the suspension and the ban.
 */
module ReplayMembers {
  import opened Wrappers
  import opened Sets
  import opened Sorting
  import opened ByteStrings
  import opened Replay

  datatype Member = Member(count: nat, suspended: bool, banned: Option<int>, log: seq<Event>)

  /** What one epoch says about one member. */
  datatype Signal =
    | Transparent
    | SeenOnline(enforced: bool, epoch: int, height: int)
    | SeenMissed(enforced: bool, epoch: int, height: int)

  function LogOf(events: seq<Event>, p: Hash): seq<Event> {
    if events == [] then []
    else
      var last := events[|events| - 1];
      LogOf(events[..|events| - 1], p) + if last.member == p then [last] else []
  }

  function MemberOf(s: State, p: Hash): Member {
    Member(Count(s.counter, p), p in s.suspended, if p in s.banned then Some(s.banned[p]) else None, LogOf(s.events, p))
  }

  function Met(c: Commitment, enforce: bool, p: Hash): Signal {
    match Treat(c, p)
    case Online => SeenOnline(enforce, c.epoch, c.height)
    case Missed => SeenMissed(enforce, c.epoch, c.height)
    case _ => Transparent
  }

  /**
   An epoch that is absent, has no base list or one of another size, or does not list the member, says nothing
   of it.
   */
  function SignalOf(rules: Rules, e: Enforcement, bases: map<int, BaseList>, row: Row, p: Hash): Signal {
    if row.status != "committed" || row.epoch !in bases then Transparent
    else
      var order := CanonicalOrder(bases[row.epoch].mnList);
      if row.listSize != |order| || p !in bases[row.epoch].mnList then Transparent
      else Met(Resolved(rules, row, order, BoundaryList(bases, row)), Enforces(e, row), p)
  }

  function SignalsOf(
    rules: Rules, e: Enforcement, bases: map<int, BaseList>, rows: seq<Row>, p: Hash
  ): (sigs: seq<Signal>)
    ensures |sigs| == |rows|
    ensures forall i :: 0 <= i < |rows| ==> sigs[i] == SignalOf(rules, e, bases, rows[i], p)
  {
    seq(|rows|, i requires 0 <= i < |rows| => SignalOf(rules, e, bases, rows[i], p))
  }

  function Next(rules: Rules, m: Member, sig: Signal, p: Hash): Member {
    match sig
    case Transparent => m
    case SeenOnline(enforced, epoch, height) =>
      var recovers := m.count != 0 && enforced && (m.suspended || m.banned.Some?);
      Member(0, m.suspended && !enforced, if enforced then None else m.banned,
             m.log + if recovers then [Event(epoch, height, Recovered, p)] else [])
    case SeenMissed(enforced, epoch, height) =>
      var suspends := enforced && m.count + 1 >= rules.suspend && !m.suspended;
      var bans := enforced && m.count + 1 >= rules.ban && m.banned.None?;
      Member(m.count + 1, m.suspended || suspends, if bans then Some(height) else m.banned,
             m.log + (if suspends then [Event(epoch, height, Kind.Suspended, p)] else [])
                   + (if bans then [Event(epoch, height, Kind.Banned, p)] else []))
  }

  function RunMember(rules: Rules, sigs: seq<Signal>, p: Hash): Member {
    if sigs == [] then Member(0, false, None, [])
    else Next(rules, RunMember(rules, sigs[..|sigs| - 1], p), sigs[|sigs| - 1], p)
  }

  // ----- refinement

  lemma {:induction false} LogAppends(a: seq<Event>, b: seq<Event>, p: Hash)
    ensures LogOf(a + b, p) == LogOf(a, p) + LogOf(b, p)
  {
    if b == [] {
      assert a + b == a;
    } else {
      assert (a + b)[..|a + b| - 1] == a + b[..|b| - 1];
      LogAppends(a, b[..|b| - 1], p);
    }
  }

  lemma LogOne(a: seq<Event>, e: Event, p: Hash)
    ensures LogOf(a + [e], p) == LogOf(a, p) + if e.member == p then [e] else []
  {
    LogAppends(a, [e], p);
    assert [e][..0] == [];
  }

  lemma MeetOnlineMember(rules: Rules, c: Commitment, enforce: bool, s: State, q: Hash, p: Hash)
    ensures MemberOf(MeetOnline(c, enforce, s, q), p)
         == if p == q then Next(rules, MemberOf(s, p), SeenOnline(enforce, c.epoch, c.height), p) else MemberOf(s, p)
  {
    hide LogOf;
    LogOne(s.events, Event(c.epoch, c.height, Recovered, q), p);
    assert MemberOf(s, p).log + [] == MemberOf(s, p).log;
  }

  lemma MeetMissedMember(rules: Rules, c: Commitment, enforce: bool, s: State, q: Hash, p: Hash)
    ensures MemberOf(MeetMissed(rules, c, enforce, s, q), p)
         == if p == q then Next(rules, MemberOf(s, p), SeenMissed(enforce, c.epoch, c.height), p) else MemberOf(s, p)
  {
    hide LogOf;
    var suspended, banned := Event(c.epoch, c.height, Kind.Suspended, q), Event(c.epoch, c.height, Kind.Banned, q);
    LogOne(s.events, suspended, p);
    LogOne(s.events, banned, p);
    LogOne(s.events + [suspended], banned, p);
    assert s.events + [] == s.events;
    assert s.events + [suspended] + [] == s.events + [suspended];
    var m := MemberOf(s, p);
    assert m.log + [] == m.log;
    assert m.log + [suspended] + [] == m.log + [suspended];
  }

  lemma MeetMember(rules: Rules, c: Commitment, enforce: bool, s: State, q: Hash, p: Hash)
    ensures MemberOf(Meet(rules, c, enforce, s, q), p)
         == if p == q then Next(rules, MemberOf(s, p), Met(c, enforce, p), p) else MemberOf(s, p)
  {
    hide LogOf, MeetOnline, MeetMissed, Next;
    var seen := s.(lastEpoch := s.lastEpoch[q := c.epoch], counter := s.counter[q := Count(s.counter, q)]);
    assert MemberOf(seen, p) == MemberOf(s, p);
    MeetOnlineMember(rules, c, enforce, seen, q, p);
    MeetMissedMember(rules, c, enforce, seen, q, p);
    TransparentNext(rules, MemberOf(s, p), p);
  }

  lemma TransparentNext(rules: Rules, m: Member, p: Hash)
    ensures Next(rules, m, Transparent, p) == m
  {
  }

  lemma {:induction false} MeetAllMember(
    rules: Rules, c: Commitment, enforce: bool, s: State, order: seq<Hash>, p: Hash
  )
    requires Distinct(order)
    ensures MemberOf(MeetAll(rules, c, enforce, s, order), p)
         == if p in order then Next(rules, MemberOf(s, p), Met(c, enforce, p), p) else MemberOf(s, p)
  {
    if order != [] {
      var front, last := order[..|order| - 1], order[|order| - 1];
      MeetAllMember(rules, c, enforce, s, front, p);
      MeetMember(rules, c, enforce, MeetAll(rules, c, enforce, s, front), last, p);
      assert order == front + [last];
    }
  }

  /** Base lists name each masternode once. */
  ghost predicate ProperLists(bases: map<int, BaseList>) {
    forall k :: k in bases ==> Distinct(bases[k].mnList)
  }

  lemma ProperOrder(mnList: seq<Hash>)
    requires Distinct(mnList)
    ensures Distinct(CanonicalOrder(mnList))
    ensures forall p :: p in CanonicalOrder(mnList) <==> p in mnList
  {
    SortKeepsDistinct(mnList, InternalOrder);
    SortPermutes(mnList, InternalOrder);
  }

  lemma RunRowMember(rules: Rules, e: Enforcement, bases: map<int, BaseList>, s: State, row: Row, p: Hash)
    requires ProperLists(bases)
    ensures MemberOf(RunRow(rules, e, bases, s, row), p)
        == Next(rules, MemberOf(s, p), SignalOf(rules, e, bases, row, p), p)
  {
    if row.status == "committed" && row.epoch in bases {
      var order := CanonicalOrder(bases[row.epoch].mnList);
      ProperOrder(bases[row.epoch].mnList);
      if row.listSize == |order| {
        var present := BoundaryList(bases, row);
        var c := Resolved(rules, row, order, present);
        MeetAllMember(rules, c, Enforces(e, row), Warned(s, row, order, present), order, p);
      }
    }
  }

  /** The replay of a whole run, seen from one member, is its automaton run over the verdicts that count. */
  lemma {:induction false} MemberRefines(
    rules: Rules, e: Enforcement, bases: map<int, BaseList>, rows: seq<Row>, p: Hash
  )
    requires ProperLists(bases)
    ensures MemberOf(RunRows(rules, e, bases, rows), p) == RunMember(rules, SignalsOf(rules, e, bases, rows, p), p)
  {
    if rows != [] {
      var front := rows[..|rows| - 1];
      MemberRefines(rules, e, bases, front, p);
      RunRowMember(rules, e, bases, RunRows(rules, e, bases, front), rows[|rows| - 1], p);
      var sigs := SignalsOf(rules, e, bases, rows, p);
      assert sigs[..|sigs| - 1] == SignalsOf(rules, e, bases, front, p);
    }
  }

  // ----- closed forms

  /** The misses counted since the last counted online verdict: where they stand in the run. */
  function Streak(sigs: seq<Signal>): set<nat> {
    set i: nat | i < |sigs| && sigs[i].SeenMissed? && forall j :: i < j < |sigs| ==> !sigs[j].SeenOnline?
  }

  /** How far into its streak the miss at `i` is. */
  function Depth(sigs: seq<Signal>, i: nat): nat {
    |set j | j in Streak(sigs) && j <= i|
  }

  /** The last verdict that counted was an enforced miss. */
  ghost predicate EndsEnforced(sigs: seq<Signal>) {
    exists i :: 0 <= i < |sigs| && sigs[i].SeenMissed? && sigs[i].enforced
             && forall j :: i < j < |sigs| ==> sigs[j].Transparent?
  }

  /** Once enforced, always enforced. */
  ghost predicate MonotoneSignals(sigs: seq<Signal>) {
    forall i, j :: 0 <= i < j < |sigs| && !sigs[i].Transparent? && !sigs[j].Transparent? && sigs[i].enforced
      ==> sigs[j].enforced
  }

  lemma StreakStep(sigs: seq<Signal>, sig: Signal)
    ensures Streak(sigs + [sig]) ==
      match sig
      case Transparent => Streak(sigs)
      case SeenOnline(_, _, _) => {}
      case SeenMissed(_, _, _) => Streak(sigs) + {|sigs|}
  {
    var all := sigs + [sig];
    forall i: nat | i < |sigs| ensures i in Streak(all) <==> i in Streak(sigs) && !sig.SeenOnline? {
      assert all[|sigs|] == sig;
      assert forall j :: i < j < |sigs| ==> all[j] == sigs[j];
      if sig.SeenOnline? {
        assert all[|sigs|].SeenOnline?;
      }
    }
  }

  /** The counter is the number of counted misses since the last counted online verdict. */
  lemma {:induction false} CountIsStreak(rules: Rules, sigs: seq<Signal>, p: Hash)
    ensures RunMember(rules, sigs, p).count == |Streak(sigs)|
  {
    if sigs != [] {
      var front, sig := sigs[..|sigs| - 1], sigs[|sigs| - 1];
      CountIsStreak(rules, front, p);
      StreakStep(front, sig);
      assert front + [sig] == sigs;
    }
  }

  lemma EndsStep(sigs: seq<Signal>, sig: Signal)
    ensures EndsEnforced(sigs + [sig]) <==>
      match sig
      case Transparent => EndsEnforced(sigs)
      case SeenOnline(_, _, _) => false
      case SeenMissed(enforced, _, _) => enforced
  {
    var all := sigs + [sig];
    assert all[|sigs|] == sig;
    if sig.Transparent? && EndsEnforced(sigs) {
      var i :| 0 <= i < |sigs| && sigs[i].SeenMissed? && sigs[i].enforced
        && forall j :: i < j < |sigs| ==> sigs[j].Transparent?;
      assert all[i] == sigs[i];
    }
    if EndsEnforced(all) {
      var i :| 0 <= i < |all| && all[i].SeenMissed? && all[i].enforced
        && forall j :: i < j < |all| ==> all[j].Transparent?;
      if sig.Transparent? {
        assert sigs[i] == all[i];
        assert forall j :: i < j < |sigs| ==> sigs[j] == all[j];
      }
    }
  }

  /** Nothing that counted was enforced. */
  ghost predicate Unenforced(sigs: seq<Signal>) {
    forall i :: 0 <= i < |sigs| && !sigs[i].Transparent? ==> !sigs[i].enforced
  }

  /** A suspension or ban stands only after enforcement has begun. */
  lemma {:induction false} UnenforcedHarmless(rules: Rules, sigs: seq<Signal>, p: Hash)
    requires Unenforced(sigs)
    ensures !RunMember(rules, sigs, p).suspended && RunMember(rules, sigs, p).banned == None
  {
    if sigs != [] {
      var front := sigs[..|sigs| - 1];
      assert forall i :: 0 <= i < |front| ==> front[i] == sigs[i];
      UnenforcedHarmless(rules, front, p);
    }
  }

  /**
   Under monotone enforcement: suspended iff the counter reached the threshold and the latest counted miss was
   enforced.
   */
  lemma {:induction false} SuspendedWhen(rules: Rules, sigs: seq<Signal>, p: Hash)
    requires rules.suspend >= 1 && MonotoneSignals(sigs)
    ensures RunMember(rules, sigs, p).suspended <==> |Streak(sigs)| >= rules.suspend && EndsEnforced(sigs)
  {
    if sigs != [] {
      var front, sig := sigs[..|sigs| - 1], sigs[|sigs| - 1];
      assert front + [sig] == sigs;
      SuspendedWhen(rules, front, p);
      CountIsStreak(rules, front, p);
      StreakStep(front, sig);
      EndsStep(front, sig);
      if !sig.Transparent? && !sig.enforced {
        assert Unenforced(front);
        UnenforcedHarmless(rules, front, p);
      }
    }
  }

  lemma {:induction false} BannedWhen(rules: Rules, sigs: seq<Signal>, p: Hash)
    requires rules.ban >= 1 && MonotoneSignals(sigs)
    ensures RunMember(rules, sigs, p).banned.Some? <==> |Streak(sigs)| >= rules.ban && EndsEnforced(sigs)
  {
    if sigs != [] {
      var front, sig := sigs[..|sigs| - 1], sigs[|sigs| - 1];
      assert front + [sig] == sigs;
      BannedWhen(rules, front, p);
      CountIsStreak(rules, front, p);
      StreakStep(front, sig);
      EndsStep(front, sig);
      if !sig.Transparent? && !sig.enforced {
        assert Unenforced(front);
        UnenforcedHarmless(rules, front, p);
      }
    }
  }

  /** The miss at `i` of the current streak is enforced and deep enough to ban, and none before it is. */
  ghost predicate FirstBanning(rules: Rules, sigs: seq<Signal>, i: nat) {
    && i in Streak(sigs) && sigs[i].enforced && Depth(sigs, i) >= rules.ban
    && forall j :: j in Streak(sigs) && j < i ==> !(sigs[j].enforced && Depth(sigs, j) >= rules.ban)
  }

  lemma DepthStep(sigs: seq<Signal>, sig: Signal, i: nat)
    requires !sig.SeenOnline?
    ensures i < |sigs| ==> Depth(sigs + [sig], i) == Depth(sigs, i)
    ensures i == |sigs| && sig.SeenMissed? ==> Depth(sigs + [sig], i) == |Streak(sigs)| + 1
  {
    StreakStep(sigs, sig);
    if i < |sigs| {
      assert (set j | j in Streak(sigs + [sig]) && j <= i) == (set j | j in Streak(sigs) && j <= i);
    } else if i == |sigs| && sig.SeenMissed? {
      assert (set j | j in Streak(sigs + [sig]) && j <= i) == Streak(sigs) + {|sigs|};
    }
  }

  lemma FirstStays(rules: Rules, sigs: seq<Signal>, sig: Signal, i: nat)
    requires !sig.SeenOnline? && FirstBanning(rules, sigs, i)
    ensures FirstBanning(rules, sigs + [sig], i)
  {
    StreakStep(sigs, sig);
    var all := sigs + [sig];
    forall j: nat | j < |sigs| ensures all[j] == sigs[j] && Depth(all, j) == Depth(sigs, j) {
      DepthStep(sigs, sig, j);
    }
  }

  /** A ban carries the height of the first enforced miss of the streak that was deep enough. */
  lemma {:induction false} BanHeight(rules: Rules, sigs: seq<Signal>, p: Hash) returns (i: nat)
    requires rules.ban >= 1 && MonotoneSignals(sigs)
    requires RunMember(rules, sigs, p).banned.Some?
    ensures FirstBanning(rules, sigs, i)
    ensures RunMember(rules, sigs, p).banned == Some(sigs[i].height)
  {
    var front, sig := sigs[..|sigs| - 1], sigs[|sigs| - 1];
    assert front + [sig] == sigs;
    BannedWhen(rules, front, p);
    CountIsStreak(rules, front, p);
    if RunMember(rules, front, p).banned.Some? {
      i := BanHeight(rules, front, p);
      assert !sig.SeenOnline?;
      FirstStays(rules, front, sig, i);
    } else {
      i := |front|;
      NewlyFirst(rules, front, sig);
    }
  }

  lemma NewlyFirst(rules: Rules, sigs: seq<Signal>, sig: Signal)
    requires MonotoneSignals(sigs) && sig.SeenMissed? && sig.enforced
    requires |Streak(sigs)| + 1 >= rules.ban
    requires !(|Streak(sigs)| >= rules.ban && EndsEnforced(sigs))
    ensures FirstBanning(rules, sigs + [sig], |sigs|)
  {
    var all := sigs + [sig];
    StreakStep(sigs, sig);
    DepthStep(sigs, sig, |sigs|);
    forall j | j in Streak(sigs) ensures !(sigs[j].enforced && Depth(all, j) >= rules.ban) {
      DepthStep(sigs, sig, j);
      assert (set k | k in Streak(sigs) && k <= j) <= Streak(sigs);
      SubsetSize((set k | k in Streak(sigs) && k <= j), Streak(sigs));
      if sigs[j].enforced {
        StreakEndsEnforced(sigs, j);
      }
    }
  }

  /** An enforced miss in the current streak makes every later one enforced, the last included. */
  lemma {:induction false} StreakEndsEnforced(sigs: seq<Signal>, j: nat)
    requires MonotoneSignals(sigs) && j in Streak(sigs) && sigs[j].enforced
    ensures EndsEnforced(sigs)
  {
    var front, sig := sigs[..|sigs| - 1], sigs[|sigs| - 1];
    assert front + [sig] == sigs;
    StreakStep(front, sig);
    EndsStep(front, sig);
    if sig.Transparent? {
      assert sigs[j] == front[j];
      StreakEndsEnforced(front, j);
    }
  }

  // ----- the same, over whole runs

  ghost predicate MonotoneRows(e: Enforcement, rows: seq<Row>) {
    forall i, j :: 0 <= i < j < |rows| && Enforces(e, rows[i]) ==> Enforces(e, rows[j])
  }

  /** Rows come sorted by epoch, and boundary heights rise with the epochs: enforcement, once on, stays on. */
  lemma SortedRowsMonotone(e: Enforcement, rows: seq<Row>)
    requires forall i, j :: 0 <= i < j < |rows| ==>
               rows[i].epoch <= rows[j].epoch && rows[i].boundaryHeight <= rows[j].boundaryHeight
    ensures MonotoneRows(e, rows)
  {
  }

  /** The state of one member after any rows, in closed form. */
  lemma MemberAfter(rules: Rules, e: Enforcement, bases: map<int, BaseList>, rows: seq<Row>, p: Hash)
    requires ProperLists(bases) && MonotoneRows(e, rows) && rules.suspend >= 1 && rules.ban >= 1
    ensures var s := RunRows(rules, e, bases, rows);
            var sigs := SignalsOf(rules, e, bases, rows, p);
            && Count(s.counter, p) == |Streak(sigs)|
            && (p in s.suspended <==> |Streak(sigs)| >= rules.suspend && EndsEnforced(sigs))
            && (p in s.banned <==> |Streak(sigs)| >= rules.ban && EndsEnforced(sigs))
            && (p in s.banned ==> exists i: nat :: FirstBanning(rules, sigs, i) && s.banned[p] == sigs[i].height)
  {
    var sigs := SignalsOf(rules, e, bases, rows, p);
    assert MonotoneSignals(sigs);
    MemberRefines(rules, e, bases, rows, p);
    CountIsStreak(rules, sigs, p);
    SuspendedWhen(rules, sigs, p);
    BannedWhen(rules, sigs, p);
    if RunMember(rules, sigs, p).banned.Some? {
      var i := BanHeight(rules, sigs, p);
    }
  }
}
