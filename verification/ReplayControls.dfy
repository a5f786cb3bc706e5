/** What changing a control of the replay can and cannot change, and the bound one commitment keeps. */
module ReplayControls {
  import opened Wrappers
  import opened Sets
  import opened Sorting
  import opened ByteStrings
  import opened Replay
  import opened ReplayMembers
  import opened ReplayLedger

  /** A commitment names no index as both missed and unobserved. */
  ghost predicate DisjointRow(row: Row) {
    forall i :: i in row.missedIndices ==> i !in row.unobservedIndices
  }

  ghost predicate DisjointRows(rows: seq<Row>) {
    forall r :: r in rows ==> DisjointRow(r)
  }

  /** A member held as unobserved whom the same commitment names as missed. */
  predicate MixesUp(c: Commitment, p: Hash) { Treat(c, p).HeldUnobserved? && p in c.missed }

  /** A row that is applied and holds such a member. */
  predicate RowMixes(rules: Rules, bases: map<int, BaseList>, row: Row, p: Hash) {
    && row.status == "committed" && row.epoch in bases && p in bases[row.epoch].mnList
    && var order := CanonicalOrder(bases[row.epoch].mnList);
       row.listSize == |order| && MixesUp(Resolved(rules, row, order, BoundaryList(bases, row)), p)
  }

  ghost predicate NeverMixes(rules: Rules, bases: map<int, BaseList>, rows: seq<Row>) {
    forall r, p: Hash :: r in rows ==> !RowMixes(rules, bases, r, p)
  }

  function Control(rules: Rules): Rules { rules.(holdUnobserved := false) }

  lemma ResolvedDisjoint(rules: Rules, row: Row, order: seq<Hash>, present: Option<set<Hash>>, p: Hash)
    requires DisjointRow(row) && Distinct(order)
    ensures !MixesUp(Resolved(rules, row, order, present), p)
  {
    if p in Resolve(order, Indices(row.missedIndices)) {
      var i :| i in Indices(row.missedIndices) && i < |order| && order[i] == p;
      forall j | j in Indices(row.unobservedIndices) && j < |order| ensures order[j] != p {
        assert i != j;
      }
    }
  }

  /** Disjoint lists never mix a member up. */
  lemma DisjointNeverMixes(rules: Rules, bases: map<int, BaseList>, rows: seq<Row>)
    requires DisjointRows(rows) && ProperLists(bases)
    ensures NeverMixes(rules, bases, rows)
  {
    forall r, p: Hash | r in rows ensures !RowMixes(rules, bases, r, p) {
      if r.epoch in bases {
        ProperOrder(bases[r.epoch].mnList);
        ResolvedDisjoint(rules, r, CanonicalOrder(bases[r.epoch].mnList), BoundaryList(bases, r), p);
      }
    }
  }

  lemma RowNeverMixes(rules: Rules, bases: map<int, BaseList>, row: Row)
    requires ProperLists(bases) && forall p: Hash :: !RowMixes(rules, bases, row, p)
    requires row.status == "committed" && row.epoch in bases
    ensures var order := CanonicalOrder(bases[row.epoch].mnList);
            row.listSize == |order| ==>
              forall p :: p in order ==> !MixesUp(Resolved(rules, row, order, BoundaryList(bases, row)), p)
  {
    hide MixesUp, Resolved, BoundaryList;
    ProperOrder(bases[row.epoch].mnList);
    var order := CanonicalOrder(bases[row.epoch].mnList);
    if row.listSize == |order| {
      forall p | p in order ensures !MixesUp(Resolved(rules, row, order, BoundaryList(bases, row)), p) {
        assert !RowMixes(rules, bases, row, p);
      }
    }
  }

  // ----- the unobserved-hold note

  lemma MeetGuards(rules: Rules, c: Commitment, enforce: bool, s: State, p: Hash)
    ensures Meet(rules, c, enforce, s, p).holdProtected >= s.holdProtected
  {
  }

  lemma {:induction false} MeetAllGuards(rules: Rules, c: Commitment, enforce: bool, s: State, order: seq<Hash>)
    ensures MeetAll(rules, c, enforce, s, order).holdProtected >= s.holdProtected
  {
    if order != [] {
      MeetAllGuards(rules, c, enforce, s, order[..|order| - 1]);
    }
  }

  /** A hold that guards no streak changes what treating the member as online would. */
  lemma MeetSame(rules: Rules, c: Commitment, enforce: bool, s: State, p: Hash)
    requires LiveHolds(s) && !MixesUp(c, p)
    requires Meet(rules, c, enforce, s, p).holdProtected == s.holdProtected
    ensures Meet(Control(rules), c.(unobserved := {}), enforce, s, p) == Meet(rules, c, enforce, s, p)
  {
    if Treat(c, p).HeldUnobserved? {
      assert Count(s.counter, p) == 0 && p !in s.suspended && p !in s.banned;
      assert s.suspended - {p} == s.suspended && s.banned - {p} == s.banned;
      assert s.counter[p := 0][p := 0] == s.counter[p := 0];
    }
  }

  lemma {:induction false} MeetAllSame(rules: Rules, c: Commitment, enforce: bool, s: State, order: seq<Hash>)
    requires Faithful(s) && (enforce || s.suspended == {}) && 1 <= rules.suspend <= rules.ban
    requires forall p :: p in order ==> !MixesUp(c, p)
    requires MeetAll(rules, c, enforce, s, order).holdProtected == s.holdProtected
    ensures MeetAll(Control(rules), c.(unobserved := {}), enforce, s, order) == MeetAll(rules, c, enforce, s, order)
  {
    hide Meet, Faithful, MixesUp;
    if order != [] {
      var front, last := order[..|order| - 1], order[|order| - 1];
      assert last in order;
      var mid := MeetAll(rules, c, enforce, s, front);
      MeetAllGuards(rules, c, enforce, s, front);
      MeetGuards(rules, c, enforce, mid, last);
      MeetAllSame(rules, c, enforce, s, front);
      MeetAllFaithful(rules, c, enforce, s, front);
      FaithfulLive(mid);
      MeetSame(rules, c, enforce, mid, last);
    }
  }

  lemma FaithfulLive(s: State)
    requires Faithful(s)
    ensures LiveHolds(s)
  {
  }

  lemma RunRowGuards(rules: Rules, e: Enforcement, bases: map<int, BaseList>, s: State, row: Row)
    ensures RunRow(rules, e, bases, s, row).holdProtected >= s.holdProtected
  {
    if row.status == "committed" && row.epoch in bases {
      var order := CanonicalOrder(bases[row.epoch].mnList);
      var present := BoundaryList(bases, row);
      MeetAllGuards(rules, Resolved(rules, row, order, present), Enforces(e, row), Warned(s, row, order, present),
          order);
    }
  }

  lemma RunRowSame(rules: Rules, e: Enforcement, bases: map<int, BaseList>, s: State, row: Row)
    requires Faithful(s) && (Enforces(e, row) || s.suspended == {}) && 1 <= rules.suspend <= rules.ban
    requires ProperLists(bases) && rules.holdUnobserved && forall p: Hash :: !RowMixes(rules, bases, row, p)
    requires RunRow(rules, e, bases, s, row).holdProtected == s.holdProtected
    ensures RunRow(Control(rules), e, bases, s, row) == RunRow(rules, e, bases, s, row)
  {
    hide MeetAll, Faithful, MixesUp;
    if row.status == "committed" && row.epoch in bases {
      var order := CanonicalOrder(bases[row.epoch].mnList);
      ProperOrder(bases[row.epoch].mnList);
      if row.listSize == |order| {
        var present := BoundaryList(bases, row);
        var c := Resolved(rules, row, order, present);
        var warned := Warned(s, row, order, present);
        RowNeverMixes(rules, bases, row);
        FaithfulFrame(s, warned);
        assert Resolved(Control(rules), row, order, present) == c.(unobserved := {});
        MeetAllSame(rules, c, Enforces(e, row), warned, order);
      }
    }
  }

  /**
   The printed note: a run in which the unobserved hold never guarded a streak, and
   held nobody it names as missed, is to the last field the run with the control flipped.
   */
  lemma {:induction false} HoldNote(rules: Rules, e: Enforcement, bases: map<int, BaseList>, rows: seq<Row>)
    requires rules.holdUnobserved && 1 <= rules.suspend <= rules.ban
    requires ProperLists(bases) && NeverMixes(rules, bases, rows) && MonotoneRows(e, rows)
    requires RunRows(rules, e, bases, rows).holdProtected == 0
    ensures RunRows(Control(rules), e, bases, rows) == RunRows(rules, e, bases, rows)
  {
    hide RunRow, Faithful, RowMixes;
    if rows != [] {
      var front, last := rows[..|rows| - 1], rows[|rows| - 1];
      assert forall i :: 0 <= i < |front| ==> front[i] == rows[i];
      var s := RunRows(rules, e, bases, front);
      RunRowGuards(rules, e, bases, s, last);
      HoldNote(rules, e, bases, front);
      LedgerFaithful(rules, e, bases, front);
      RunRowSame(rules, e, bases, s, last);
    }
  }

  // ----- in general the control only heals

  /** Every counter, suspension and ban of `s` is one of `t`, where the counter is at least as high. */
  ghost predicate Milder(s: State, t: State) {
    && (forall p :: Count(s.counter, p) <= Count(t.counter, p))
    && s.suspended <= t.suspended
    && s.banned.Keys <= t.banned.Keys
  }

  lemma MeetCount(rules: Rules, c: Commitment, enforce: bool, s: State, p: Hash, q: Hash)
    ensures Count(Meet(rules, c, enforce, s, p).counter, q) ==
      if q != p then Count(s.counter, q)
      else match Treat(c, p)
        case Online => 0
        case Missed => Count(s.counter, p) + 1
        case _ => Count(s.counter, p)
  {
  }

  lemma MeetStands(rules: Rules, c: Commitment, enforce: bool, s: State, p: Hash, q: Hash)
    ensures q in Meet(rules, c, enforce, s, p).suspended <==>
      if q != p then q in s.suspended
      else match Treat(c, p)
        case Online => q in s.suspended && !enforce
        case Missed => q in s.suspended || (enforce && Count(s.counter, p) + 1 >= rules.suspend)
        case _ => q in s.suspended
    ensures q in Meet(rules, c, enforce, s, p).banned <==>
      if q != p then q in s.banned
      else match Treat(c, p)
        case Online => q in s.banned && !enforce
        case Missed => q in s.banned || (enforce && Count(s.counter, p) + 1 >= rules.ban)
        case _ => q in s.banned
  {
  }

  lemma MeetMilder(rules: Rules, c: Commitment, enforce: bool, s: State, t: State, p: Hash)
    requires Milder(s, t) && !MixesUp(c, p)
    ensures Milder(Meet(Control(rules), c.(unobserved := {}), enforce, s, p), Meet(rules, c, enforce, t, p))
  {
    hide Meet, Count;
    var s', t' := Meet(Control(rules), c.(unobserved := {}), enforce, s, p), Meet(rules, c, enforce, t, p);
    assert Count(s.counter, p) <= Count(t.counter, p);
    forall q
      ensures Count(s'.counter, q) <= Count(t'.counter, q)
      ensures q in s'.suspended ==> q in t'.suspended
      ensures q in s'.banned ==> q in t'.banned
    {
      MeetCount(Control(rules), c.(unobserved := {}), enforce, s, p, q);
      MeetCount(rules, c, enforce, t, p, q);
      MeetStands(Control(rules), c.(unobserved := {}), enforce, s, p, q);
      MeetStands(rules, c, enforce, t, p, q);
    }
  }

  lemma {:induction false} MeetAllMilder(
    rules: Rules, c: Commitment, enforce: bool, s: State, t: State, order: seq<Hash>
  )
    requires Milder(s, t) && forall p :: p in order ==> !MixesUp(c, p)
    ensures Milder(MeetAll(Control(rules), c.(unobserved := {}), enforce, s, order),
        MeetAll(rules, c, enforce, t, order))
  {
    hide Meet, Milder, MixesUp;
    if order != [] {
      var front, last := order[..|order| - 1], order[|order| - 1];
      assert last in order;
      MeetAllMilder(rules, c, enforce, s, t, front);
      MeetMilder(rules, c, enforce, MeetAll(Control(rules), c.(unobserved := {}), enforce, s, front),
                 MeetAll(rules, c, enforce, t, front), last);
    }
  }

  lemma RunRowMilder(rules: Rules, e: Enforcement, bases: map<int, BaseList>, s: State, t: State, row: Row)
    requires Milder(s, t) && ProperLists(bases) && rules.holdUnobserved
    requires forall p: Hash :: !RowMixes(rules, bases, row, p)
    ensures Milder(RunRow(Control(rules), e, bases, s, row), RunRow(rules, e, bases, t, row))
  {
    hide MeetAll;
    if row.status == "committed" && row.epoch in bases {
      var order := CanonicalOrder(bases[row.epoch].mnList);
      ProperOrder(bases[row.epoch].mnList);
      if row.listSize == |order| {
        var present := BoundaryList(bases, row);
        var c := Resolved(rules, row, order, present);
        RowNeverMixes(rules, bases, row);
        assert Resolved(Control(rules), row, order, present) == c.(unobserved := {});
        MeetAllMilder(rules, c, Enforces(e, row), Warned(s, row, order, present), Warned(t, row, order, present),
            order);
      }
    }
  }

  /**
   Where nobody is held whom the row names as missed, treating unobserved members as online never raises a
   counter and never adds a suspended or banned member.
   */
  lemma {:induction false} ControlOnlyHeals(rules: Rules, e: Enforcement, bases: map<int, BaseList>, rows: seq<Row>)
    requires rules.holdUnobserved && ProperLists(bases) && NeverMixes(rules, bases, rows)
    ensures Milder(RunRows(Control(rules), e, bases, rows), RunRows(rules, e, bases, rows))
  {
    hide RunRow, RowMixes;
    if rows != [] {
      var front, last := rows[..|rows| - 1], rows[|rows| - 1];
      ControlOnlyHeals(rules, e, bases, front);
      RunRowMilder(rules, e, bases, RunRows(Control(rules), e, bases, front), RunRows(rules, e, bases, front), last);
    }
  }

  // ----- exactly when the control is what it is said to be

  /** The verdict on a member under the control: as it was, or counted where it was held. */
  lemma ControlSignal(rules: Rules, e: Enforcement, bases: map<int, BaseList>, row: Row, p: Hash)
    requires rules.holdUnobserved
    ensures var held := SignalOf(rules, e, bases, row, p);
            var counted := SignalOf(Control(rules), e, bases, row, p);
            if RowMixes(rules, bases, row, p) then
              held == Transparent && counted == SeenMissed(Enforces(e, row), row.epoch, row.boundaryHeight)
            else counted == held || (held == Transparent && counted.SeenOnline?)
  {
    hide CanonicalOrder, Resolve, Indices, MassOutage, BoundaryList;
  }

  ghost predicate SameAlways(rules: Rules, e: Enforcement, bases: map<int, BaseList>, rows: seq<Row>) {
    forall k: nat :: k <= |rows| ==> RunRows(Control(rules), e, bases, rows[..k]) == RunRows(rules, e, bases, rows[..k])
  }

  lemma MixedRowDiffers(rules: Rules, e: Enforcement, bases: map<int, BaseList>, s: State, row: Row, p: Hash)
    requires ProperLists(bases) && rules.holdUnobserved && RowMixes(rules, bases, row, p)
    ensures RunRow(Control(rules), e, bases, s, row) != RunRow(rules, e, bases, s, row)
  {
    hide RunRow, SignalOf, RowMixes, LogOf;
    ControlSignal(rules, e, bases, row, p);
    RunRowMember(rules, e, bases, s, row, p);
    RunRowMember(Control(rules), e, bases, s, row, p);
    assert MemberOf(RunRow(Control(rules), e, bases, s, row), p).count == MemberOf(s, p).count + 1;
    assert MemberOf(RunRow(rules, e, bases, s, row), p).count == MemberOf(s, p).count;
  }

  lemma {:induction false} GuardsGrow(rules: Rules, e: Enforcement, bases: map<int, BaseList>, rows: seq<Row>, k: nat)
    requires k <= |rows|
    ensures RunRows(rules, e, bases, rows[..k]).holdProtected <= RunRows(rules, e, bases, rows).holdProtected
  {
    hide RunRow;
    if k == |rows| {
      assert rows[..k] == rows;
    } else {
      var front := rows[..|rows| - 1];
      GuardsGrow(rules, e, bases, front, k);
      assert front[..k] == rows[..k];
      RunRowGuards(rules, e, bases, RunRows(rules, e, bases, front), rows[|rows| - 1]);
    }
  }

  /**
   For a run whose hold guarded no streak, the note is true of every row exactly when nobody is held whom the
   row names as missed.
   */
  lemma HoldNoteIff(rules: Rules, e: Enforcement, bases: map<int, BaseList>, rows: seq<Row>)
    requires rules.holdUnobserved && 1 <= rules.suspend <= rules.ban
    requires ProperLists(bases) && MonotoneRows(e, rows) && RunRows(rules, e, bases, rows).holdProtected == 0
    ensures SameAlways(rules, e, bases, rows) <==> NeverMixes(rules, bases, rows)
  {
    hide RunRow, RowMixes, ProperLists;
    if NeverMixes(rules, bases, rows) {
      forall k: nat | k <= |rows|
        ensures RunRows(Control(rules), e, bases, rows[..k]) == RunRows(rules, e, bases, rows[..k])
      {
        GuardsGrow(rules, e, bases, rows, k);
        assert forall r :: r in rows[..k] ==> r in rows;
        HoldNote(rules, e, bases, rows[..k]);
      }
    } else {
      var r, p: Hash :| r in rows && RowMixes(rules, bases, r, p);
      var k :| 0 <= k < |rows| && rows[k] == r;
      assert rows[..k + 1][..k] == rows[..k];
      MixedRowDiffers(rules, e, bases, RunRows(rules, e, bases, rows[..k]), r, p);
      assert RunRows(Control(rules), e, bases, rows[..k]) != RunRows(rules, e, bases, rows[..k])
          || RunRows(Control(rules), e, bases, rows[..k + 1]) != RunRows(rules, e, bases, rows[..k + 1]);
    }
  }

  predicate MilderMember(m: Member, n: Member) {
    m.count <= n.count && (m.suspended ==> n.suspended) && (m.banned.Some? ==> n.banned.Some?)
  }

  /** A miss the control counts and the hold does not leaves the one member within the other. */
  predicate HasRoom(rules: Rules, enforced: bool, m: Member, n: Member) {
    && m.count < n.count
    && (enforced && m.count + 1 >= rules.suspend ==> n.suspended)
    && (enforced && m.count + 1 >= rules.ban ==> n.banned.Some?)
  }

  lemma MilderByMember(s: State, t: State)
    ensures Milder(s, t) <==> forall p :: MilderMember(MemberOf(s, p), MemberOf(t, p))
  {
    hide LogOf;
    if forall p :: MilderMember(MemberOf(s, p), MemberOf(t, p)) {
      forall p ensures p in s.suspended ==> p in t.suspended
               ensures p in s.banned ==> p in t.banned
               ensures Count(s.counter, p) <= Count(t.counter, p)
      {
        assert MilderMember(MemberOf(s, p), MemberOf(t, p));
      }
    }
  }

  /** What a row leaves milder: everything but the members it mixes up that have no room left. */
  ghost predicate RowHasRoom(rules: Rules, e: Enforcement, bases: map<int, BaseList>, s: State, t: State, row: Row) {
    forall p: Hash :: RowMixes(rules, bases, row, p) ==>
        HasRoom(rules, Enforces(e, row), MemberOf(s, p), MemberOf(t, p))
  }

  lemma MemberMilderIff(
    rules: Rules, e: Enforcement, bases: map<int, BaseList>, s: State, t: State, row: Row, p: Hash
  )
    requires ProperLists(bases) && rules.holdUnobserved && MilderMember(MemberOf(s, p), MemberOf(t, p))
    ensures MilderMember(MemberOf(RunRow(Control(rules), e, bases, s, row), p),
        MemberOf(RunRow(rules, e, bases, t, row), p))
       <==> (RowMixes(rules, bases, row, p) ==> HasRoom(rules, Enforces(e, row), MemberOf(s, p), MemberOf(t, p)))
  {
    hide RunRow, SignalOf, RowMixes, MemberOf, Enforces;
    ControlSignal(rules, e, bases, row, p);
    RunRowMember(rules, e, bases, t, row, p);
    RunRowMember(Control(rules), e, bases, s, row, p);
  }

  lemma RowMilderIff(rules: Rules, e: Enforcement, bases: map<int, BaseList>, s: State, t: State, row: Row)
    requires ProperLists(bases) && rules.holdUnobserved && Milder(s, t)
    ensures Milder(RunRow(Control(rules), e, bases, s, row), RunRow(rules, e, bases, t, row))
       <==> RowHasRoom(rules, e, bases, s, t, row)
  {
    hide RunRow, RowMixes, MemberOf, Enforces, Milder, MilderMember, HasRoom;
    MilderByMember(s, t);
    MilderByMember(RunRow(Control(rules), e, bases, s, row), RunRow(rules, e, bases, t, row));
    forall p
      ensures MilderMember(MemberOf(RunRow(Control(rules), e, bases, s, row), p),
          MemberOf(RunRow(rules, e, bases, t, row), p))
         <==> (RowMixes(rules, bases, row, p) ==> HasRoom(rules, Enforces(e, row), MemberOf(s, p), MemberOf(t, p)))
    {
      MemberMilderIff(rules, e, bases, s, t, row, p);
    }
  }

  ghost predicate MilderAlways(rules: Rules, e: Enforcement, bases: map<int, BaseList>, rows: seq<Row>) {
    forall k: nat :: k <= |rows| ==>
        Milder(RunRows(Control(rules), e, bases, rows[..k]), RunRows(rules, e, bases, rows[..k]))
  }

  ghost predicate RoomAlways(rules: Rules, e: Enforcement, bases: map<int, BaseList>, rows: seq<Row>) {
    forall k: nat :: k < |rows| ==>
      RowHasRoom(rules, e, bases, RunRows(Control(rules), e, bases, rows[..k]), RunRows(rules, e, bases, rows[..k]),
          rows[k])
  }

  lemma RowMoreMilder(rules: Rules, e: Enforcement, bases: map<int, BaseList>, rows: seq<Row>)
    requires rows != []
    ensures var front, last := rows[..|rows| - 1], rows[|rows| - 1];
            && (MilderAlways(rules, e, bases, rows) <==>
                  MilderAlways(rules, e, bases, front)
                      && Milder(RunRows(Control(rules), e, bases, rows), RunRows(rules, e, bases, rows)))
            && (RoomAlways(rules, e, bases, rows) <==>
                  RoomAlways(rules, e, bases, front)
                  && RowHasRoom(rules, e, bases, RunRows(Control(rules), e, bases, front),
                      RunRows(rules, e, bases, front), last))
            && (MilderAlways(rules, e, bases, front) ==>
                  Milder(RunRows(Control(rules), e, bases, front), RunRows(rules, e, bases, front)))
  {
    hide Milder, RowHasRoom, RunRows, Control;
    var n := |rows| - 1;
    var front := rows[..n];
    assert forall k: nat :: k <= n ==> front[..k] == rows[..k];
    assert rows[..n + 1] == rows && front[..n] == front;
  }

  /**
   Over any run, the control is milder after every row exactly when each member a row mixes up has room for a
   miss.
   */
  lemma {:induction false} ControlHealsIff(rules: Rules, e: Enforcement, bases: map<int, BaseList>, rows: seq<Row>)
    requires rules.holdUnobserved && ProperLists(bases)
    ensures MilderAlways(rules, e, bases, rows) <==> RoomAlways(rules, e, bases, rows)
  {
    hide Milder, RowHasRoom, RunRow, MilderAlways, RoomAlways, Control;
    if rows == [] {
      NoRowsMilder(rules, e, bases);
    } else {
      var front := rows[..|rows| - 1];
      ControlHealsIff(rules, e, bases, front);
      RowMoreMilder(rules, e, bases, rows);
      var s, t := RunRows(Control(rules), e, bases, front), RunRows(rules, e, bases, front);
      if Milder(s, t) {
        RowMilderIff(rules, e, bases, s, t, rows[|rows| - 1]);
      }
    }
  }

  lemma NoRowsMilder(rules: Rules, e: Enforcement, bases: map<int, BaseList>)
    ensures MilderAlways(rules, e, bases, []) && RoomAlways(rules, e, bases, [])
  {
  }

  // ----- enforcement and list order

  /** The parts of a state that enforcement has no say in. */
  ghost predicate SameVerdicts(s: State, t: State) {
    && s.counter == t.counter && s.lastEpoch == t.lastEpoch && s.warnings == t.warnings
    && s.holdProtected == t.holdProtected && s.massProtected == t.massProtected
    && s.absentFrozen == t.absentFrozen && s.removedSkipped == t.removedSkipped
  }

  lemma MeetVerdicts(rules: Rules, c: Commitment, enforce1: bool, enforce2: bool, s: State, t: State, p: Hash)
    requires SameVerdicts(s, t)
    ensures SameVerdicts(Meet(rules, c, enforce1, s, p), Meet(rules, c, enforce2, t, p))
  {
    hide Treat, Count;
    match Treat(c, p) {
      case Removed =>
      case HeldByMass =>
      case HeldUnobserved =>
      case Online =>
      case Missed =>
    }
  }

  lemma {:induction false} MeetAllVerdicts(
    rules: Rules, c: Commitment, enforce1: bool, enforce2: bool, s: State, t: State, order: seq<Hash>
  )
    requires SameVerdicts(s, t)
    ensures SameVerdicts(MeetAll(rules, c, enforce1, s, order), MeetAll(rules, c, enforce2, t, order))
  {
    hide Meet, SameVerdicts;
    if order != [] {
      var front, last := order[..|order| - 1], order[|order| - 1];
      MeetAllVerdicts(rules, c, enforce1, enforce2, s, t, front);
      MeetVerdicts(rules, c, enforce1, enforce2,
                   MeetAll(rules, c, enforce1, s, front), MeetAll(rules, c, enforce2, t, front), last);
    }
  }

  /** Counters do not depend on whether, or from when, anything is enforced. */
  lemma {:induction false} EnforcementLeavesCounters(
    rules: Rules, e1: Enforcement, e2: Enforcement, bases: map<int, BaseList>, rows: seq<Row>
  )
    ensures SameVerdicts(RunRows(rules, e1, bases, rows), RunRows(rules, e2, bases, rows))
  {
    if rows != [] {
      var front, row := rows[..|rows| - 1], rows[|rows| - 1];
      EnforcementLeavesCounters(rules, e1, e2, bases, front);
      var s, t := RunRows(rules, e1, bases, front), RunRows(rules, e2, bases, front);
      if row.status == "committed" && row.epoch in bases {
        var order := CanonicalOrder(bases[row.epoch].mnList);
        var present := BoundaryList(bases, row);
        var c := Resolved(rules, row, order, present);
        MeetAllVerdicts(rules, c, Enforces(e1, row), Enforces(e2, row),
                        Warned(s, row, order, present), Warned(t, row, order, present), order);
      }
    }
  }

  /** The same base lists, each written in some order. */
  ghost predicate SameLists(a: map<int, BaseList>, b: map<int, BaseList>) {
    && a.Keys == b.Keys
    && forall k :: k in a ==> a[k].base == b[k].base && multiset(a[k].mnList) == multiset(b[k].mnList)
  }

  lemma CanonicalOrderUnique(a: seq<Hash>, b: seq<Hash>)
    requires multiset(a) == multiset(b)
    ensures CanonicalOrder(a) == CanonicalOrder(b)
  {
    InternalOrderSound();
    SortOfPermutation(a, b, InternalOrder);
  }

  /** No part of a run depends on the order a base list was dumped in. */
  lemma {:induction false} ListOrderIgnored(
    rules: Rules, e: Enforcement, a: map<int, BaseList>, b: map<int, BaseList>, rows: seq<Row>
  )
    requires SameLists(a, b)
    ensures RunRows(rules, e, a, rows) == RunRows(rules, e, b, rows)
  {
    hide MeetAll, Resolved, CanonicalOrder, Warned, Totals, Enforces;
    if rows != [] {
      var row := rows[|rows| - 1];
      ListOrderIgnored(rules, e, a, b, rows[..|rows| - 1]);
      if row.epoch in a {
        CanonicalOrderUnique(a[row.epoch].mnList, b[row.epoch].mnList);
      }
      if row.epoch + 1 in a {
        var p, q := a[row.epoch + 1].mnList, b[row.epoch + 1].mnList;
        forall x ensures x in p <==> x in q {
          assert x in multiset(p) <==> x in multiset(q);
        }
        assert (set x | x in p) == (set x | x in q);
      }
    }
  }

  // ----- the bound of one commitment

  /** The members an epoch newly suspends or bans. */
  function NewlyHeld(before: State, after: State): set<Hash> {
    (after.suspended - before.suspended) + (after.banned.Keys - before.banned.Keys)
  }

  lemma {:induction false} ResolveSize(order: seq<Hash>, indices: set<nat>)
    ensures |Resolve(order, indices)| <= |indices|
  {
    if indices != {} {
      var i :| i in indices;
      ResolveSize(order, indices - {i});
      var rest := Resolve(order, indices - {i});
      if i < |order| {
        assert Resolve(order, indices) == rest + {order[i]};
      } else {
        assert Resolve(order, indices) == rest;
      }
    }
  }

  lemma {:induction false} MeetAllHolds(rules: Rules, c: Commitment, enforce: bool, s: State, order: seq<Hash>)
    ensures NewlyHeld(s, MeetAll(rules, c, enforce, s, order)) <= if c.mass then {} else c.missed
  {
    if order != [] {
      var front, last := order[..|order| - 1], order[|order| - 1];
      MeetAllHolds(rules, c, enforce, s, front);
      MeetHolds(rules, c, enforce, MeetAll(rules, c, enforce, s, front), last);
    }
  }

  lemma MeetHolds(rules: Rules, c: Commitment, enforce: bool, s: State, p: Hash)
    ensures NewlyHeld(s, Meet(rules, c, enforce, s, p)) <= if c.mass || p !in c.missed then {} else {p}
  {
  }

  /** One commitment newly suspends or bans nobody, or strictly fewer than the guard's share of its list. */
  lemma MassGuardBound(rules: Rules, e: Enforcement, bases: map<int, BaseList>, s: State, row: Row)
    ensures var held := NewlyHeld(s, RunRow(rules, e, bases, s, row));
            held == {} || |held| * 100 < row.listSize * rules.massPct
  {
    if row.status == "committed" && row.epoch in bases {
      var order := CanonicalOrder(bases[row.epoch].mnList);
      if row.listSize == |order| {
        var present := BoundaryList(bases, row);
        var c := Resolved(rules, row, order, present);
        var warned := Warned(s, row, order, present);
        MeetAllHolds(rules, c, Enforces(e, row), warned, order);
        var held := NewlyHeld(s, RunRow(rules, e, bases, s, row));
        assert held <= if c.mass then {} else c.missed;
        SubsetSize(held, c.missed) by { assert held <= c.missed; }
        ResolveSize(order, Indices(row.missedIndices));
        if order == [] {
          assert c.missed == {};
        }
      }
    }
  }
}
