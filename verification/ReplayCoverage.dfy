/**
 What the replay reports beside its verdicts: how often each protective branch had
 a streak to protect, the table, and the warnings.
 */
module ReplayCoverage {
  import opened Wrappers
  import opened Sorting
  import opened ByteStrings
  import opened Replay
  import opened ReplayMembers
  import opened ReplayVerdicts

  predicate Live(s: State, p: Hash) { Count(s.counter, p) != 0 }

  /** A commitment over a list of its size. */
  predicate Applied(bases: map<int, BaseList>, row: Row) {
    row.status == "committed" && row.epoch in bases && row.listSize == |bases[row.epoch].mnList|
  }

  /** The members gone by the epoch's boundary. */
  ghost function GoneIn(bases: map<int, BaseList>, row: Row): set<Hash> {
    if Applied(bases, row) then set p | p in bases[row.epoch].mnList && Gone(bases, row, p) else {}
  }

  /** The members with a streak that the mass guard skips. */
  ghost function GuardedIn(rules: Rules, bases: map<int, BaseList>, s: State, row: Row): set<Hash> {
    if Applied(bases, row) && !Unguarded(rules, row) then
      set p | p in bases[row.epoch].mnList && !Gone(bases, row, p) && Live(s, p)
    else {}
  }

  /** The members with a streak that are held as unobserved. */
  ghost function HeldIn(rules: Rules, bases: map<int, BaseList>, s: State, row: Row): set<Hash> {
    if Applied(bases, row) && Unguarded(rules, row) && rules.holdUnobserved then
      set p | p in bases[row.epoch].mnList && !Gone(bases, row, p) && Live(s, p)
              && Place(bases[row.epoch].mnList, p) in row.unobservedIndices
    else {}
  }

  /** An epoch that is not committed while anyone has a streak. */
  ghost predicate Frozen(s: State, row: Row) { row.status != "committed" && exists p :: Live(s, p) }

  // ----- one epoch

  lemma MeetCovers(rules: Rules, c: Commitment, enforce: bool, s: State, p: Hash)
    ensures var t := Meet(rules, c, enforce, s, p);
            && t.removedSkipped == s.removedSkipped + (if Treat(c, p).Removed? then 1 else 0)
            && t.massProtected == s.massProtected + (if Treat(c, p).HeldByMass? && Live(s, p) then 1 else 0)
            && t.holdProtected == s.holdProtected + (if Treat(c, p).HeldUnobserved? && Live(s, p) then 1 else 0)
            && t.absentFrozen == s.absentFrozen && t.warnings == s.warnings && t.table == s.table
            && t.lastEpoch == (if Treat(c, p).Removed? then s.lastEpoch else s.lastEpoch[p := c.epoch])
  {
  }

  ghost function Treated(c: Commitment, order: seq<Hash>, kind: Treatment): set<Hash> {
    set p | p in order && Treat(c, p) == kind
  }

  ghost function LiveIn(s: State, ps: set<Hash>): set<Hash> { set p | p in ps && Live(s, p) }

  lemma TreatedGrows(c: Commitment, front: seq<Hash>, last: Hash, kind: Treatment, s: State)
    requires last !in front
    ensures |Treated(c, front + [last], kind)| == |Treated(c, front, kind)| + if Treat(c, last) == kind then 1 else 0
    ensures |LiveIn(s, Treated(c, front + [last], kind))|
         == |LiveIn(s, Treated(c, front, kind))| + if Treat(c, last) == kind && Live(s, last) then 1 else 0
  {
    hide Treat;
    if Treat(c, last) == kind {
      assert Treated(c, front + [last], kind) == Treated(c, front, kind) + {last};
      if Live(s, last) {
        assert LiveIn(s, Treated(c, front + [last], kind)) == LiveIn(s, Treated(c, front, kind)) + {last};
      } else {
        assert LiveIn(s, Treated(c, front + [last], kind)) == LiveIn(s, Treated(c, front, kind));
      }
    } else {
      assert Treated(c, front + [last], kind) == Treated(c, front, kind);
    }
  }

  lemma {:induction false} MeetAllCovers(rules: Rules, c: Commitment, enforce: bool, s: State, order: seq<Hash>)
    requires Distinct(order)
    ensures var t := MeetAll(rules, c, enforce, s, order);
            && t.removedSkipped == s.removedSkipped + |Treated(c, order, Removed)|
            && t.massProtected == s.massProtected + |LiveIn(s, Treated(c, order, HeldByMass))|
            && t.holdProtected == s.holdProtected + |LiveIn(s, Treated(c, order, HeldUnobserved))|
            && t.absentFrozen == s.absentFrozen && t.warnings == s.warnings && t.table == s.table
            && forall p :: p in order && Treat(c, p) != Removed ==> p in t.lastEpoch && t.lastEpoch[p] == c.epoch
  {
    hide Treat, Meet, LogOf, Next, Live;
    if order != [] {
      var front, last := order[..|order| - 1], order[|order| - 1];
      assert order == front + [last];
      var u := MeetAll(rules, c, enforce, s, front);
      MeetAllCovers(rules, c, enforce, s, front);
      MeetCovers(rules, c, enforce, u, last);
      StillAsLive(rules, c, enforce, s, front, last);
      TreatedGrows(c, front, last, Removed, s);
      TreatedGrows(c, front, last, HeldByMass, s);
      TreatedGrows(c, front, last, HeldUnobserved, s);
    } else {
      NoneTreated(c, s);
    }
  }

  lemma NoneTreated(c: Commitment, s: State)
    ensures forall kind :: Treated(c, [], kind) == {} && LiveIn(s, Treated(c, [], kind)) == {}
  {
  }

  lemma StillAsLive(rules: Rules, c: Commitment, enforce: bool, s: State, front: seq<Hash>, last: Hash)
    requires Distinct(front) && last !in front
    ensures Live(MeetAll(rules, c, enforce, s, front), last) == Live(s, last)
  {
    hide LogOf, Next, Met, MeetAll;
    MeetAllMember(rules, c, enforce, s, front, last);
  }

  /** How a commitment treats a member, in the commitment's own numbers. */
  lemma TreatedWhen(rules: Rules, bases: map<int, BaseList>, row: Row, p: Hash)
    requires HashLists(bases) && Applied(bases, row) && p in bases[row.epoch].mnList
    ensures var mnList := bases[row.epoch].mnList;
            var c := Resolved(rules, row, CanonicalOrder(mnList), BoundaryList(bases, row));
            && (Treat(c, p).Removed? <==> Gone(bases, row, p))
            && (Treat(c, p).HeldByMass? <==> !Gone(bases, row, p) && !Unguarded(rules, row))
            && (Treat(c, p).HeldUnobserved?
                <==> !Gone(bases, row, p) && Unguarded(rules, row)
                     && rules.holdUnobserved && Place(mnList, p) in row.unobservedIndices)
  {
    hide CanonicalOrder, Place, Resolve, Below;
    var mnList := bases[row.epoch].mnList;
    ListedOnce(mnList);
    NamedAtPlace(mnList, row.unobservedIndices, p);
    assert Indices(row.missedIndices) == set i | i in row.missedIndices;
  }

  lemma AppliedCovers(rules: Rules, bases: map<int, BaseList>, s: State, row: Row)
    requires HashLists(bases) && Applied(bases, row)
    ensures var order := CanonicalOrder(bases[row.epoch].mnList);
            var c := Resolved(rules, row, order, BoundaryList(bases, row));
            && Treated(c, order, Removed) == GoneIn(bases, row)
            && LiveIn(s, Treated(c, order, HeldByMass)) == GuardedIn(rules, bases, s, row)
            && LiveIn(s, Treated(c, order, HeldUnobserved)) == HeldIn(rules, bases, s, row)
  {
    hide CanonicalOrder, Place, Resolved, BoundaryList, Below, Treat, Gone, Unguarded, Live;
    var mnList := bases[row.epoch].mnList;
    ListedOnce(mnList);
    forall p | p in mnList
      ensures var c := Resolved(rules, row, CanonicalOrder(mnList), BoundaryList(bases, row));
              && (Treat(c, p) == Removed <==> Gone(bases, row, p))
              && (Treat(c, p) == HeldByMass <==> !Gone(bases, row, p) && !Unguarded(rules, row))
              && (Treat(c, p) == HeldUnobserved
                  <==> !Gone(bases, row, p) && Unguarded(rules, row)
                       && rules.holdUnobserved && Place(mnList, p) in row.unobservedIndices)
    {
      TreatedWhen(rules, bases, row, p);
    }
  }

  /**
   What an epoch adds to the coverage figures: one for each member gone, and one for each member with a streak that
   the guard or the hold passes over; and for an epoch that is not committed, one if anyone has a streak.
   */
  lemma RowCovers(rules: Rules, e: Enforcement, bases: map<int, BaseList>, s: State, row: Row)
    requires HashLists(bases)
    ensures var t := RunRow(rules, e, bases, s, row);
            && t.removedSkipped == s.removedSkipped + |GoneIn(bases, row)|
            && t.massProtected == s.massProtected + |GuardedIn(rules, bases, s, row)|
            && t.holdProtected == s.holdProtected + |HeldIn(rules, bases, s, row)|
            && t.absentFrozen == s.absentFrozen + if Frozen(s, row) then 1 else 0
  {
    hide CanonicalOrder, Resolved, BoundaryList, MeetAll, Treated, LiveIn, Warned, Live;
    AnyLiveMeans(s);
    if row.status == "committed" && row.epoch in bases {
      ListedOnce(bases[row.epoch].mnList);
      if Applied(bases, row) {
        var order, present := CanonicalOrder(bases[row.epoch].mnList), BoundaryList(bases, row);
        AppliedCovers(rules, bases, s, row);
        WarnedCovers(s, row, order, present);
        var c := Resolved(rules, row, order, present);
        LiveAfterWarnings(s, row, order, present, Treated(c, order, HeldByMass));
        LiveAfterWarnings(s, row, order, present, Treated(c, order, HeldUnobserved));
        MeetAllCovers(rules, c, Enforces(e, row), Warned(s, row, order, present), order);
      }
    }
  }

  lemma WarnedCovers(s: State, row: Row, order: seq<Hash>, present: Option<set<Hash>>)
    ensures Warned(s, row, order, present) == s.(warnings := Warned(s, row, order, present).warnings)
  {
  }

  lemma LiveAfterWarnings(s: State, row: Row, order: seq<Hash>, present: Option<set<Hash>>, ps: set<Hash>)
    ensures LiveIn(Warned(s, row, order, present), ps) == LiveIn(s, ps)
  {
    WarnedCovers(s, row, order, present);
    hide Warned;
  }

  lemma AnyLiveMeans(s: State)
    ensures AnyLive(s.counter) <==> exists p :: Live(s, p)
  {
    if p :| p in s.counter && s.counter[p] != 0 {
      assert Live(s, p);
    }
  }

  // ----- the table and the warnings

  /** The list at the epoch's boundary block is at hand. */
  predicate BoundaryKnown(bases: map<int, BaseList>, row: Row) {
    row.epoch + 1 in bases
    && (bases[row.epoch + 1].base == None || bases[row.epoch + 1].base == Some(row.boundaryHeight))
  }

  /** The members named as missed. */
  ghost function NamedMissed(mnList: seq<Hash>, row: Row): set<Hash> {
    set p | p in mnList && Place(mnList, p) in row.missedIndices
  }

  ghost function Stored(row: Row): set<Hash> { set p | p in row.missedProTxHashes }

  /** What a row is tabulated as. */
  ghost function StateOf(rules: Rules, bases: map<int, BaseList>, row: Row): string {
    if row.status != "committed" then "absent"
    else if !Applied(bases, row) then "size-mismatch"
    else if row.listSize > 0 && !Unguarded(rules, row) then "mass-outage"
    else "applied"
  }

  /** What a row that has its base list is warned of. */
  ghost function WarnedOf(bases: map<int, BaseList>, row: Row): seq<Warning>
    requires row.status == "committed" ==> row.epoch in bases
  {
    if row.status != "committed" then []
    else
      var mnList := bases[row.epoch].mnList;
      if row.listSize != |mnList| then [SizeMismatch(row.epoch, row.listSize, |mnList|)]
      else
        (if BoundaryKnown(bases, row) then [] else [NoBoundaryList(row.epoch, row.boundaryHeight)])
        + (if row.missedProTxHashes != [] && NamedMissed(mnList, row) != Stored(row)
           then [StoredHashesDiffer(row.epoch)] else [])
  }

  lemma ListedMissed(mnList: seq<Hash>, row: Row)
    requires HashList(mnList)
    ensures Resolve(CanonicalOrder(mnList), Indices(row.missedIndices)) == NamedMissed(mnList, row)
  {
    hide CanonicalOrder, Place;
    ListedOnce(mnList);
    forall p | p in mnList
      ensures p in Resolve(CanonicalOrder(mnList), Indices(row.missedIndices)) <==> p in NamedMissed(mnList, row)
    {
      NamedAtPlace(mnList, row.missedIndices, p);
    }
  }

  lemma WarnedMeans(bases: map<int, BaseList>, s: State, row: Row)
    requires HashLists(bases) && Applied(bases, row)
    ensures Warned(s, row, CanonicalOrder(bases[row.epoch].mnList), BoundaryList(bases, row)).warnings
         == s.warnings + WarnedOf(bases, row)
  {
    hide CanonicalOrder, Resolve, NamedMissed;
    var mnList := bases[row.epoch].mnList;
    ListedMissed(mnList, row);
    assert BoundaryList(bases, row) == None <==> !BoundaryKnown(bases, row);
    StoredNone(row);
    var known := if BoundaryKnown(bases, row) then [] else [NoBoundaryList(row.epoch, row.boundaryHeight)];
    var same := if row.missedProTxHashes != [] && NamedMissed(mnList, row) != Stored(row)
                then [StoredHashesDiffer(row.epoch)] else [];
    assert s.warnings + known + same == s.warnings + (known + same);
  }

  lemma StoredNone(row: Row)
    ensures Stored(row) == {} <==> row.missedProTxHashes == []
  {
    if row.missedProTxHashes != [] {
      assert row.missedProTxHashes[0] in Stored(row);
    }
  }

  /** The row a table grew by, up to the figures of a list. */
  ghost predicate Tabulated(rules: Rules, bases: map<int, BaseList>, s: State, row: Row, t: State) {
    && |t.table| == |s.table| + 1 && t.table[..|s.table|] == s.table
    && var last := t.table[|s.table|];
       && last.epoch == row.epoch && last.height == row.boundaryHeight && last.state == StateOf(rules, bases, row)
       && last.suspended == |t.suspended| && last.banned == |t.banned|
       && (if Applied(bases, row) then
             && last.size == Some(row.listSize) && last.missed == Some(|set i | i in row.missedIndices|)
             && last.unobserved == Some(|set i | i in row.unobservedIndices|)
           else last.size == None && last.missed == None && last.unobserved == None)
  }

  /** Everyone on the list who is not gone was last seen in the row's epoch. */
  ghost predicate SeenIn(bases: map<int, BaseList>, row: Row, t: State)
    requires Applied(bases, row)
  {
    forall p :: p in bases[row.epoch].mnList && !Gone(bases, row, p) ==> p in t.lastEpoch && t.lastEpoch[p] == row.epoch
  }

  lemma AppliedEnds(rules: Rules, e: Enforcement, bases: map<int, BaseList>, s: State, row: Row)
    requires Applied(bases, row) && Distinct(bases[row.epoch].mnList)
    ensures var order, present := CanonicalOrder(bases[row.epoch].mnList), BoundaryList(bases, row);
            var c := Resolved(rules, row, order, present);
            var done := MeetAll(rules, c, Enforces(e, row), Warned(s, row, order, present), order);
            RunRow(rules, e, bases, s, row)
            == done.(table := done.table + [TableRow(
                 row.epoch, row.boundaryHeight, if c.mass then "mass-outage" else "applied", Some(row.listSize),
                 Some(|Indices(row.missedIndices)|), Some(|Indices(row.unobservedIndices)|),
                 |done.suspended|, |done.banned|)])
  {
    hide CanonicalOrder, BoundaryList, MeetAll, Warned, Resolved, Enforces;
    ListedOnce(bases[row.epoch].mnList);
  }

  /** What the members' turns leave: the table and the warnings as they were, and who was seen. */
  lemma AppliedTurns(rules: Rules, e: Enforcement, bases: map<int, BaseList>, s: State, row: Row)
    requires HashLists(bases) && Applied(bases, row)
    ensures var order, present := CanonicalOrder(bases[row.epoch].mnList), BoundaryList(bases, row);
            var c := Resolved(rules, row, order, present);
            var done := MeetAll(rules, c, Enforces(e, row), Warned(s, row, order, present), order);
            && done.table == s.table && done.warnings == s.warnings + WarnedOf(bases, row)
            && SeenIn(bases, row, done)
  {
    hide CanonicalOrder, BoundaryList, MeetAll, Treated, LiveIn, Warned, Treat, Gone, Resolve, WarnedOf, Enforces;
    var order, present := CanonicalOrder(bases[row.epoch].mnList), BoundaryList(bases, row);
    ListedOnce(bases[row.epoch].mnList);
    WarnedMeans(bases, s, row);
    WarnedCovers(s, row, order, present);
    var c := Resolved(rules, row, order, present);
    MeetAllCovers(rules, c, Enforces(e, row), Warned(s, row, order, present), order);
    forall p | p in bases[row.epoch].mnList ensures Treat(c, p) == Removed <==> Gone(bases, row, p) {
      TreatedWhen(rules, bases, row, p);
    }
  }

  lemma ListsDistinct(bases: map<int, BaseList>, k: int)
    requires HashLists(bases) && k in bases
    ensures Distinct(bases[k].mnList)
  {
  }

  lemma SeenStays(bases: map<int, BaseList>, row: Row, done: State, t: State)
    requires Applied(bases, row) && SeenIn(bases, row, done) && t.lastEpoch == done.lastEpoch
    ensures SeenIn(bases, row, t)
  {
  }

  lemma AppliedReports(rules: Rules, e: Enforcement, bases: map<int, BaseList>, s: State, row: Row)
    requires HashLists(bases) && Applied(bases, row)
    ensures var t := RunRow(rules, e, bases, s, row);
            && Tabulated(rules, bases, s, row, t) && t.warnings == s.warnings + WarnedOf(bases, row)
            && SeenIn(bases, row, t)
  {
    hide CanonicalOrder, BoundaryList, MeetAll, Warned, Gone, Resolve, WarnedOf, RunRow, Enforces, SeenIn, HashLists;
    assert Distinct(bases[row.epoch].mnList) by { ListsDistinct(bases, row.epoch); }
    ListedOnce(bases[row.epoch].mnList);
    AppliedEnds(rules, e, bases, s, row);
    AppliedTurns(rules, e, bases, s, row);
    var order, present := CanonicalOrder(bases[row.epoch].mnList), BoundaryList(bases, row);
    var c := Resolved(rules, row, order, present);
    SeenStays(bases, row, MeetAll(rules, c, Enforces(e, row), Warned(s, row, order, present), order),
              RunRow(rules, e, bases, s, row));
    assert Indices(row.missedIndices) == set i | i in row.missedIndices;
    assert Indices(row.unobservedIndices) == set i | i in row.unobservedIndices;
  }

  /**
   What a row adds to the table and the warnings, and whom it marks as seen. A row without its base list is warned
   of and does nothing else.
   */
  lemma RowReports(rules: Rules, e: Enforcement, bases: map<int, BaseList>, s: State, row: Row)
    requires HashLists(bases)
    ensures var t := RunRow(rules, e, bases, s, row);
            if row.status == "committed" && row.epoch !in bases then
              t == s.(warnings := s.warnings + [NoBaseList(row.epoch)])
            else
              Tabulated(rules, bases, s, row, t) && t.warnings == s.warnings + WarnedOf(bases, row)
              && (Applied(bases, row) ==> SeenIn(bases, row, t))
  {
    if Applied(bases, row) {
      hide *;
      AppliedReports(rules, e, bases, s, row);
      AppliedHas(bases, row);
    } else {
      hide *;
      OtherReports(rules, e, bases, s, row);
    }
  }

  lemma OtherReports(rules: Rules, e: Enforcement, bases: map<int, BaseList>, s: State, row: Row)
    requires HashLists(bases) && !Applied(bases, row)
    ensures var t := RunRow(rules, e, bases, s, row);
            if row.status == "committed" && row.epoch !in bases then
              t == s.(warnings := s.warnings + [NoBaseList(row.epoch)])
            else Tabulated(rules, bases, s, row, t) && t.warnings == s.warnings + WarnedOf(bases, row)
  {
    hide CanonicalOrder, MeetAll, AnyLive, BoundaryList, NamedMissed, BoundaryKnown, Unguarded, Resolved, Warned;
    if row.status == "committed" && row.epoch in bases {
      ListedOnce(bases[row.epoch].mnList);
    }
  }

  lemma AppliedHas(bases: map<int, BaseList>, row: Row)
    requires Applied(bases, row)
    ensures row.status == "committed" && row.epoch in bases
  {
  }

  // ----- whole runs

  /** Every pair of a row and a member it passes over while the member has a streak, held as unobserved. */
  ghost function HeldPairs(rules: Rules, e: Enforcement, bases: map<int, BaseList>, rows: seq<Row>): set<(nat, Hash)> {
    set k: nat, p | k < |rows| && p in HeldIn(rules, bases, RunRows(rules, e, bases, rows[..k]), rows[k]) :: (k, p)
  }

  ghost function GuardedPairs(rules: Rules, e: Enforcement, bases: map<int, BaseList>, rows: seq<Row>)
    : set<(nat, Hash)>
  {
    set k: nat, p | k < |rows| && p in GuardedIn(rules, bases, RunRows(rules, e, bases, rows[..k]), rows[k]) :: (k, p)
  }

  ghost function GonePairs(bases: map<int, BaseList>, rows: seq<Row>): set<(nat, Hash)> {
    set k: nat, p | k < |rows| && p in GoneIn(bases, rows[k]) :: (k, p)
  }

  /** The rows that are not committed while anyone has a streak. */
  ghost function FrozenRows(rules: Rules, e: Enforcement, bases: map<int, BaseList>, rows: seq<Row>): set<nat> {
    set k: nat | k < |rows| && Frozen(RunRows(rules, e, bases, rows[..k]), rows[k])
  }

  lemma PairsAt(n: nat, ps: set<Hash>)
    ensures |set p | p in ps :: (n, p)| == |ps|
  {
    if ps != {} {
      var p :| p in ps;
      PairsAt(n, ps - {p});
      assert (set q | q in ps :: (n, q)) == (set q | q in ps - {p} :: (n, q)) + {(n, p)};
    }
  }

  lemma PairsGrow(before: set<(nat, Hash)>, all: set<(nat, Hash)>, n: nat, ps: set<Hash>)
    requires forall x :: x in before ==> x.0 < n
    requires forall x :: x in all <==> x in before || (x.0 == n && x.1 in ps)
    ensures |all| == |before| + |ps|
  {
    var added := set p | p in ps :: (n, p);
    PairsAt(n, ps);
    forall x ensures x in added <==> x.0 == n && x.1 in ps {
      assert x == (x.0, x.1);
    }
    assert all == before + added;
    assert before * added == {};
  }

  lemma HeldGrow(rules: Rules, e: Enforcement, bases: map<int, BaseList>, rows: seq<Row>)
    requires rows != []
    ensures var n := |rows| - 1;
            |HeldPairs(rules, e, bases, rows)|
            == |HeldPairs(rules, e, bases, rows[..n])|
               + |HeldIn(rules, bases, RunRows(rules, e, bases, rows[..n]), rows[n])|
  {
    hide RunRows, HeldIn;
    var n := |rows| - 1;
    assert forall k: nat :: k < n ==> rows[..n][..k] == rows[..k] && rows[..n][k] == rows[k];
    PairsGrow(HeldPairs(rules, e, bases, rows[..n]), HeldPairs(rules, e, bases, rows), n,
              HeldIn(rules, bases, RunRows(rules, e, bases, rows[..n]), rows[n]));
  }

  lemma GuardedGrow(rules: Rules, e: Enforcement, bases: map<int, BaseList>, rows: seq<Row>)
    requires rows != []
    ensures var n := |rows| - 1;
            |GuardedPairs(rules, e, bases, rows)|
            == |GuardedPairs(rules, e, bases, rows[..n])|
               + |GuardedIn(rules, bases, RunRows(rules, e, bases, rows[..n]), rows[n])|
  {
    hide RunRows, GuardedIn;
    var n := |rows| - 1;
    assert forall k: nat :: k < n ==> rows[..n][..k] == rows[..k] && rows[..n][k] == rows[k];
    PairsGrow(GuardedPairs(rules, e, bases, rows[..n]), GuardedPairs(rules, e, bases, rows), n,
              GuardedIn(rules, bases, RunRows(rules, e, bases, rows[..n]), rows[n]));
  }

  lemma GoneGrow(bases: map<int, BaseList>, rows: seq<Row>)
    requires rows != []
    ensures var n := |rows| - 1; |GonePairs(bases, rows)| == |GonePairs(bases, rows[..n])| + |GoneIn(bases, rows[n])|
  {
    hide GoneIn;
    var n := |rows| - 1;
    assert forall k: nat :: k < n ==> rows[..n][k] == rows[k];
    PairsGrow(GonePairs(bases, rows[..n]), GonePairs(bases, rows), n, GoneIn(bases, rows[n]));
  }

  lemma FrozenGrow(rules: Rules, e: Enforcement, bases: map<int, BaseList>, rows: seq<Row>)
    requires rows != []
    ensures var n := |rows| - 1;
            |FrozenRows(rules, e, bases, rows)|
            == |FrozenRows(rules, e, bases, rows[..n])|
               + if Frozen(RunRows(rules, e, bases, rows[..n]), rows[n]) then 1 else 0
  {
    hide RunRows, Frozen;
    var n := |rows| - 1;
    assert forall k: nat :: k < n ==> rows[..n][..k] == rows[..k] && rows[..n][k] == rows[k];
    assert FrozenRows(rules, e, bases, rows)
        == FrozenRows(rules, e, bases, rows[..n])
           + if Frozen(RunRows(rules, e, bases, rows[..n]), rows[n]) then {n} else {};
  }

  /**
   The four coverage figures of a run: how many member-epochs the hold and the guard passed over with a streak to
   protect, how many found the member gone, and how many epochs were absent while anyone had a streak.
   */
  lemma {:induction false} CoverageCounts(rules: Rules, e: Enforcement, bases: map<int, BaseList>, rows: seq<Row>)
    requires HashLists(bases)
    ensures var s := RunRows(rules, e, bases, rows);
            && s.holdProtected == |HeldPairs(rules, e, bases, rows)|
            && s.massProtected == |GuardedPairs(rules, e, bases, rows)|
            && s.removedSkipped == |GonePairs(bases, rows)|
            && s.absentFrozen == |FrozenRows(rules, e, bases, rows)|
  {
    hide RunRow, HeldIn, GuardedIn, GoneIn, Live, Frozen, HeldPairs, GuardedPairs, GonePairs, FrozenRows;
    if rows == [] {
      NothingCovered(rules, e, bases);
    } else {
      var n := |rows| - 1;
      CoverageCounts(rules, e, bases, rows[..n]);
      RowCovers(rules, e, bases, RunRows(rules, e, bases, rows[..n]), rows[n]);
      HeldGrow(rules, e, bases, rows);
      GuardedGrow(rules, e, bases, rows);
      GoneGrow(bases, rows);
      FrozenGrow(rules, e, bases, rows);
    }
  }

  lemma NothingCovered(rules: Rules, e: Enforcement, bases: map<int, BaseList>)
    ensures HeldPairs(rules, e, bases, []) == {} && GuardedPairs(rules, e, bases, []) == {}
    ensures GonePairs(bases, []) == {} && FrozenRows(rules, e, bases, []) == {}
  {
  }

  ghost function BaselessRows(bases: map<int, BaseList>, rows: seq<Row>): set<nat> {
    set k: nat | k < |rows| && rows[k].status == "committed" && rows[k].epoch !in bases
  }

  lemma BaselessGrow(bases: map<int, BaseList>, rows: seq<Row>)
    requires rows != []
    ensures var n := |rows| - 1;
            |BaselessRows(bases, rows)|
            == |BaselessRows(bases, rows[..n])|
               + if rows[n].status == "committed" && rows[n].epoch !in bases then 1 else 0
  {
    var n := |rows| - 1;
    assert forall k: nat :: k < n ==> rows[..n][k] == rows[k];
    assert BaselessRows(bases, rows)
        == BaselessRows(bases, rows[..n])
           + if rows[n].status == "committed" && rows[n].epoch !in bases then {n} else {};
  }

  /** And the rows skipped are those that are committed without a base list. */
  lemma {:induction false} SkippedCounts(bases: map<int, BaseList>, rows: seq<Row>)
    ensures Skipped(bases, rows) == |BaselessRows(bases, rows)|
  {
    if rows == [] {
      assert BaselessRows(bases, rows) == {};
    } else {
      hide BaselessRows;
      SkippedCounts(bases, rows[..|rows| - 1]);
      BaselessGrow(bases, rows);
    }
  }
}
