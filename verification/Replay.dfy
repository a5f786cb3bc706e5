/**
 The Sentinel layer's enforcement arithmetic, replayed over recorded commitments.

 `State` and the functions over it say what each epoch does; the class at the end
 is the replay itself, whose fields one epoch updates member by member.
 */
module Replay {
  import opened Wrappers
  import opened Sorting
  import opened ByteStrings

  /** A proTxHash, as displayed. */
  type Hash = Bytes

  datatype Row = Row(
    epoch: int, boundaryHeight: int, status: string, listSize: int,
    missedIndices: seq<nat>, unobservedIndices: seq<nat>, missedProTxHashes: seq<Hash>)

  datatype BaseList = BaseList(base: Option<int>, mnList: seq<Hash>)

  datatype Rules = Rules(suspend: int, ban: int, massPct: int, holdUnobserved: bool)

  datatype Enforcement = Enforcement(fromEpoch: Option<int>, fromHeight: Option<int>)

  datatype Kind = Suspended | Banned | Recovered

  datatype Event = Event(epoch: int, height: int, kind: Kind, member: Hash)

  datatype TableRow = TableRow(
    epoch: int, height: int, state: string, size: Option<nat>, missed: Option<nat>, unobserved: Option<nat>,
    suspended: nat, banned: nat)

  datatype Warning =
    | NoBaseList(epoch: int)
    | SizeMismatch(epoch: int, listSize: int, size: nat)
    | NoBoundaryList(epoch: int, height: int)
    | StoredHashesDiffer(epoch: int)

  datatype State = State(
    counter: map<Hash, nat>, suspended: set<Hash>, banned: map<Hash, int>, lastEpoch: map<Hash, int>,
    events: seq<Event>, table: seq<TableRow>, warnings: seq<Warning>,
    holdProtected: nat, massProtected: nat, absentFrozen: nat, removedSkipped: nat)

  const CLEAN := State(map[], {}, map[], map[], [], [], [], 0, 0, 0, 0)

  /** A member no verdict has reached reads as zero. */
  function Count(counter: map<Hash, nat>, p: Hash): nat {
    if p in counter then counter[p] else 0
  }

  function CanonicalOrder(mnList: seq<Hash>): seq<Hash> {
    Sort(mnList, InternalOrder)
  }

  /** The list at an epoch's boundary is the next epoch's base list, when the dump holds it at that height. */
  function BoundaryList(bases: map<int, BaseList>, row: Row): Option<set<Hash>> {
    if row.epoch + 1 !in bases then None
    else
      var next := bases[row.epoch + 1];
      if next.base.Some? && next.base.value != row.boundaryHeight then None
      else Some(set p | p in next.mnList)
  }

  function Indices(listed: seq<nat>): set<nat> { set i | i in listed }

  /** The members the indices name; an index past the list names nobody. */
  function Resolve(order: seq<Hash>, indices: set<nat>): set<Hash> {
    set i | i in indices && i < |order| :: order[i]
  }

  predicate MassOutage(size: nat, missedCount: nat, massPct: int) {
    size > 0 && missedCount * 100 >= size * massPct
  }

  /** What one commitment says, resolved against its base list. */
  datatype Commitment = Commitment(
    epoch: int, height: int, present: Option<set<Hash>>, mass: bool, missed: set<Hash>, unobserved: set<Hash>)

  function Resolved(rules: Rules, row: Row, order: seq<Hash>, present: Option<set<Hash>>): Commitment {
    Commitment(
      row.epoch, row.boundaryHeight, present,
      MassOutage(|order|, |Indices(row.missedIndices)|, rules.massPct),
      Resolve(order, Indices(row.missedIndices)),
      if rules.holdUnobserved then Resolve(order, Indices(row.unobservedIndices)) else {})
  }

  datatype Treatment = Removed | HeldByMass | HeldUnobserved | Online | Missed

  function Treat(c: Commitment, p: Hash): Treatment {
    if c.present.Some? && p !in c.present.value then Removed
    else if c.mass then HeldByMass
    else if p in c.unobserved then HeldUnobserved
    else if p !in c.missed then Online
    else Missed
  }

  function MeetOnline(c: Commitment, enforce: bool, s: State, p: Hash): State {
    s.(
      events := if Count(s.counter, p) != 0 && enforce && (p in s.suspended || p in s.banned)
                then s.events + [Event(c.epoch, c.height, Recovered, p)] else s.events,
      counter := s.counter[p := 0],
      suspended := if enforce then s.suspended - {p} else s.suspended,
      banned := if enforce then s.banned - {p} else s.banned)
  }

  function MeetMissed(rules: Rules, c: Commitment, enforce: bool, s: State, p: Hash): State {
    var count := Count(s.counter, p) + 1;
    var suspends := enforce && count >= rules.suspend && p !in s.suspended;
    var bans := enforce && count >= rules.ban && p !in s.banned;
    s.(
      counter := s.counter[p := count],
      suspended := if suspends then s.suspended + {p} else s.suspended,
      banned := if bans then s.banned[p := c.height] else s.banned,
      events := s.events
                + (if suspends then [Event(c.epoch, c.height, Kind.Suspended, p)] else [])
                + (if bans then [Event(c.epoch, c.height, Kind.Banned, p)] else []))
  }

  /** One member's turn in one epoch. Reading a missing counter leaves a zero behind. */
  function Meet(rules: Rules, c: Commitment, enforce: bool, s: State, p: Hash): State {
    var seen := s.(lastEpoch := s.lastEpoch[p := c.epoch], counter := s.counter[p := Count(s.counter, p)]);
    var live := if Count(s.counter, p) != 0 then 1 else 0;
    match Treat(c, p)
    case Removed => s.(removedSkipped := s.removedSkipped + 1)
    case HeldByMass => seen.(massProtected := s.massProtected + live)
    case HeldUnobserved => seen.(holdProtected := s.holdProtected + live)
    case Online => MeetOnline(c, enforce, seen, p)
    case Missed => MeetMissed(rules, c, enforce, seen, p)
  }

  function MeetAll(rules: Rules, c: Commitment, enforce: bool, s: State, order: seq<Hash>): State {
    if order == [] then s
    else Meet(rules, c, enforce, MeetAll(rules, c, enforce, s, order[..|order| - 1]), order[|order| - 1])
  }

  predicate AnyLive(counter: map<Hash, nat>) {
    exists p :: p in counter && counter[p] != 0
  }

  function Totals(s: State, row: Row, state: string): State {
    s.(table := s.table + [TableRow(row.epoch, row.boundaryHeight, state, None, None, None, |s.suspended|, |s.banned|)])
  }

  function Warned(s: State, row: Row, order: seq<Hash>, present: Option<set<Hash>>): State {
    var stored := set p | p in row.missedProTxHashes;
    s.(warnings := s.warnings
                   + (if present == None then [NoBoundaryList(row.epoch, row.boundaryHeight)] else [])
                   + (if stored != {} && stored != Resolve(order, Indices(row.missedIndices))
                      then [StoredHashesDiffer(row.epoch)] else []))
  }

  /** One epoch. */
  function ApplyRow(
    rules: Rules, s: State, row: Row, base: Option<BaseList>, enforce: bool, present: Option<set<Hash>>
  ): State
    requires row.status == "committed" ==> base.Some?
  {
    if row.status != "committed" then
      Totals(s.(absentFrozen := s.absentFrozen + if AnyLive(s.counter) then 1 else 0), row, "absent")
    else
      var order := CanonicalOrder(base.value.mnList);
      if row.listSize != |order| then
        Totals(s.(warnings := s.warnings + [SizeMismatch(row.epoch, row.listSize, |order|)]), row, "size-mismatch")
      else
        var c := Resolved(rules, row, order, present);
        var done := MeetAll(rules, c, enforce, Warned(s, row, order, present), order);
        done.(table := done.table + [TableRow(
          row.epoch, row.boundaryHeight, if c.mass then "mass-outage" else "applied", Some(|order|),
          Some(|Indices(row.missedIndices)|), Some(|Indices(row.unobservedIndices)|), |done.suspended|, |done.banned|)])
  }

  predicate Enforces(e: Enforcement, row: Row) {
    || (e.fromEpoch.Some? && row.epoch >= e.fromEpoch.value)
    || (e.fromHeight.Some? && row.boundaryHeight >= e.fromHeight.value)
  }

  predicate Baseless(bases: map<int, BaseList>, row: Row) {
    row.status == "committed" && row.epoch !in bases
  }

  function BaseFor(bases: map<int, BaseList>, row: Row): Option<BaseList> {
    if row.epoch in bases then Some(bases[row.epoch]) else None
  }

  function RunRow(rules: Rules, e: Enforcement, bases: map<int, BaseList>, s: State, row: Row): State {
    if Baseless(bases, row) then s.(warnings := s.warnings + [NoBaseList(row.epoch)])
    else ApplyRow(rules, s, row, BaseFor(bases, row), Enforces(e, row), BoundaryList(bases, row))
  }

  /** The whole run, from a clean start, in row order. */
  function RunRows(rules: Rules, e: Enforcement, bases: map<int, BaseList>, rows: seq<Row>): State {
    if rows == [] then CLEAN
    else RunRow(rules, e, bases, RunRows(rules, e, bases, rows[..|rows| - 1]), rows[|rows| - 1])
  }

  function Skipped(bases: map<int, BaseList>, rows: seq<Row>): nat {
    if rows == [] then 0
    else Skipped(bases, rows[..|rows| - 1]) + if Baseless(bases, rows[|rows| - 1]) then 1 else 0
  }

  /** State of every masternode's Sentinel counters, advanced one epoch at a time. */
  class Replayer {
    const rules: Rules
    var counter: map<Hash, nat>
    var suspended: set<Hash>
    var banned: map<Hash, int>
    var lastEpoch: map<Hash, int>
    var events: seq<Event>
    var table: seq<TableRow>
    var warnings: seq<Warning>
    var holdProtected: nat
    var massProtected: nat
    var absentFrozen: nat
    var removedSkipped: nat

    ghost function View(): State
      reads this
    {
      State(counter, suspended, banned, lastEpoch, events, table, warnings,
            holdProtected, massProtected, absentFrozen, removedSkipped)
    }

    constructor (rules: Rules)
      ensures this.rules == rules && View() == CLEAN
    {
      this.rules := rules;
      counter, suspended, banned, lastEpoch := map[], {}, map[], map[];
      events, table, warnings := [], [], [];
      holdProtected, massProtected, absentFrozen, removedSkipped := 0, 0, 0, 0;
    }

    method Tabulate(row: Row, state: string)
      modifies `table
      ensures View() == Totals(old(View()), row, state)
    {
      table := table + [TableRow(row.epoch, row.boundaryHeight, state, None, None, None, |suspended|, |banned|)];
    }

    method SeeOnline(c: Commitment, p: Hash, enforce: bool)
      requires p in counter
      modifies `events, `counter, `suspended, `banned
      ensures View() == MeetOnline(c, enforce, old(View()), p)
    {
      if counter[p] != 0 && enforce && (p in suspended || p in banned) {
        events := events + [Event(c.epoch, c.height, Recovered, p)];
      }
      counter := counter[p := 0];
      if enforce {
        suspended := suspended - {p};
        banned := banned - {p};
      }
    }

    method SeeMissed(c: Commitment, p: Hash, enforce: bool)
      requires p in counter
      modifies `events, `counter, `suspended, `banned
      ensures View() == MeetMissed(rules, c, enforce, old(View()), p)
    {
      counter := counter[p := counter[p] + 1];
      if enforce {
        if counter[p] >= rules.suspend && p !in suspended {
          suspended := suspended + {p};
          events := events + [Event(c.epoch, c.height, Kind.Suspended, p)];
        }
        if counter[p] >= rules.ban && p !in banned {
          banned := banned[p := c.height];
          events := events + [Event(c.epoch, c.height, Kind.Banned, p)];
        }
      }
    }

    method SeeMember(c: Commitment, p: Hash, enforce: bool)
      modifies this
      ensures View() == Meet(rules, c, enforce, old(View()), p)
    {
      if c.present.Some? && p !in c.present.value {
        removedSkipped := removedSkipped + 1;
        return;
      }
      lastEpoch := lastEpoch[p := c.epoch];
      counter := counter[p := Count(counter, p)];
      if c.mass {
        if counter[p] != 0 {
          massProtected := massProtected + 1;
        }
        return;
      }
      if p in c.unobserved {
        if counter[p] != 0 {
          holdProtected := holdProtected + 1;
        }
        return;
      }
      if p !in c.missed {
        SeeOnline(c, p, enforce);
      } else {
        SeeMissed(c, p, enforce);
      }
    }

    /** One epoch. `present` is the list at the boundary block, when it is known. */
    method Apply(row: Row, base: Option<BaseList>, enforce: bool, present: Option<set<Hash>>)
      requires row.status == "committed" ==> base.Some?
      modifies this
      ensures View() == ApplyRow(rules, old(View()), row, base, enforce, present)
    {
      hide Meet, CanonicalOrder, Resolve, Indices, AnyLive, MassOutage;
      if row.status != "committed" {
        if AnyLive(counter) {
          absentFrozen := absentFrozen + 1;
        }
        Tabulate(row, "absent");
        return;
      }
      var order := CanonicalOrder(base.value.mnList);
      if row.listSize != |order| {
        warnings := warnings + [SizeMismatch(row.epoch, row.listSize, |order|)];
        Tabulate(row, "size-mismatch");
        return;
      }
      if present == None {
        warnings := warnings + [NoBoundaryList(row.epoch, row.boundaryHeight)];
      }
      var c := Resolved(rules, row, order, present);
      var stored := set p | p in row.missedProTxHashes;
      if stored != {} && stored != c.missed {
        warnings := warnings + [StoredHashesDiffer(row.epoch)];
      }
      ghost var start := View();
      assert start == Warned(old(View()), row, order, present);
      for i := 0 to |order|
        invariant View() == MeetAll(rules, c, enforce, start, order[..i])
      {
        assert order[..i + 1][..i] == order[..i];
        SeeMember(c, order[i], enforce);
      }
      assert order[..|order|] == order;
      table := table + [TableRow(
        row.epoch, row.boundaryHeight, if c.mass then "mass-outage" else "applied", Some(|order|),
        Some(|Indices(row.missedIndices)|), Some(|Indices(row.unobservedIndices)|), |suspended|, |banned|)];
    }

    method Warn(w: Warning)
      modifies `warnings
      ensures View() == old(View()).(warnings := old(View()).warnings + [w])
    {
      warnings := warnings + [w];
    }
  }

  method Run(
    rules: Rules, e: Enforcement, bases: map<int, BaseList>, rows: seq<Row>
  ) returns (rp: Replayer, skipped: nat)
    ensures fresh(rp) && rp.rules == rules
    ensures rp.View() == RunRows(rules, e, bases, rows)
    ensures skipped == Skipped(bases, rows)
  {
    rp := new Replayer(rules);
    skipped := 0;
    for i := 0 to |rows|
      invariant fresh(rp) && rp.rules == rules
      invariant rp.View() == RunRows(rules, e, bases, rows[..i])
      invariant skipped == Skipped(bases, rows[..i])
    {
      assert rows[..i + 1][..i] == rows[..i];
      var row := rows[i];
      if row.status == "committed" && row.epoch !in bases {
        rp.Warn(NoBaseList(row.epoch));
        skipped := skipped + 1;
        continue;
      }
      rp.Apply(row, BaseFor(bases, row), Enforces(e, row), BoundaryList(bases, row));
    }
    assert rows[..|rows|] == rows;
  }
}
