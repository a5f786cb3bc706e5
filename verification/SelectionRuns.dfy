/**
 Every run of the selection protocol: loads, refreshes, status polls and mutation
 answers in flight together, landing in any order or never.
 */
module SelectionRuns {
  import opened Wrappers
  import opened SelectionProtocol

  /**
   `flights` are the requests whose answers are still out; `turn` numbers the
   status polls. `timelines` and `proofs` record, by request number, the reads
   that answered for what is held now; `gone` says that a load was told its run does not exist.
   */
  datatype World = World(
    panel: Panel, flights: multiset<Flight>, turn: nat,
    timelines: map<nat, History>, proofs: map<nat, Option<Recovery>>, gone: bool)

  const INITIALLY := World(BLANK, multiset{}, 0, map[], map[], false)

  datatype Step =
    | SignIn
    | Load(key: Key)
    | LoadAnswers(f: Flight, detail: Read<Detail>, history: Read<History>, evidence: Read<Option<Recovery>>)
    | LoadSettles(f: Flight)
    | Refresh
    | RefreshAnswers(f: Flight, history: Read<History>, evidence: Read<Option<Recovery>>)
    | Tick
    | PollStops
    | StatusAnswers(f: Flight, answer: Read<Run>)
    | Mutated(run: Run, preflight: Option<Preflight>)
    | RereadEvidence
    | Clear
    | End(why: Message)

  predicate About(key: Key, history: Read<History>, evidence: Read<Option<Recovery>>) {
    && (history.Got? ==> history.value.of == key)
    && (evidence.Got? && evidence.value.Some? ==> evidence.value.value.of == key)
  }

  /** An answer needs its request; the server's plans, timelines and proofs are for the run that was asked about. */
  predicate Enabled(w: World, step: Step) {
    match step
    case LoadAnswers(f, detail, history, evidence) =>
      f.LoadRead? && f in w.flights && About(f.key, history, evidence)
          && (detail.Got? ==> detail.value.plan.of == f.key)
    case LoadSettles(f) => f.LoadEnd? && f in w.flights
    case Refresh => w.panel.selected.Some?
    case RefreshAnswers(f, history, evidence) => f.DetailRead? && f in w.flights && About(f.key, history, evidence)
    case StatusAnswers(f, _) => f.StatusRead? && f in w.flights
    case Mutated(run, preflight) => preflight.Some? ==> preflight.value.of == run.key
    case _ => true
  }

  function Started(f: Option<Flight>): multiset<Flight> { if f.Some? then multiset{f.value} else multiset{} }

  /** The panel after a step, and the request the step sends. */
  function Next(w: World, step: Step): (Panel, multiset<Flight>)
    requires Enabled(w, step)
  {
    var p := w.panel;
    match step
    case SignIn => (p.(session := true), multiset{})
    case Load(key) => (BeginLoad(p, key), multiset{LoadRead(key, p.generation + 1, NextNumber(p))})
    case LoadAnswers(f, detail, history, evidence) =>
      var (q, thrown) := LandLoad(p, f, detail, history, evidence);
      (q, multiset{LoadEnd(f.key, f.generation, thrown)})
    case LoadSettles(f) => (SettleLoad(p, f), multiset{})
    case Refresh => (BeginRefresh(p), multiset{DetailRead(p.selected.value, p.generation, NextNumber(p))})
    case RefreshAnswers(f, history, evidence) => (LandRefresh(p, f, history, evidence), multiset{})
    case Tick => (p, if Polls(p) then multiset{StatusRead(p.selected.value, p.generation, w.turn + 1)} else multiset{})
    case PollStops => (p, multiset{})
    case StatusAnswers(f, answer) => var (q, read) := LandStatus(p, f, f.turn != w.turn, answer); (q, Started(read))
    case Mutated(run, preflight) => var (q, read) := RunUpdated(p, run, preflight); (q, Started(read))
    case RereadEvidence => var (q, read) := Reread(p); (q, Started(read))
    case Clear => (Cleared(p), multiset{})
    case End(why) => (Ended(p, why), multiset{})
  }

  function Spent(step: Step): multiset<Flight> {
    if step.LoadAnswers? || step.LoadSettles? || step.RefreshAnswers? || step.StatusAnswers? then multiset{step.f}
    else multiset{}
  }

  /** Is this an answer for the current selection, in a session that goes on? */
  predicate Lands(p: Panel, step: Step) {
    match step
    case LoadAnswers(f, detail, history, evidence) =>
      f.LoadRead? && f.generation == p.generation && detail.Got? && history.Got? && !EndsSession(evidence)
    case RefreshAnswers(f, history, evidence) =>
      f.DetailRead? && f.generation == p.generation && p.selected == Some(f.key)
      && !EndsSession(history) && !EndsSession(evidence)
    case _ => false
  }

  /** The record of timelines after a step that drops nothing; and of proofs. */
  function Timelines(w: World, step: Step): map<nat, History> {
    if Lands(w.panel, step) && step.history.Got? then w.timelines[step.f.number := step.history.value] else w.timelines
  }

  function Proofs(w: World, step: Step): map<nat, Option<Recovery>> {
    if Lands(w.panel, step) && step.evidence.Got? then w.proofs[step.f.number := step.evidence.value] else w.proofs
  }

  /** Everything held is dropped: on a clear, at the end of a session, on a change of run. */
  predicate Drops(p: Panel, step: Step, q: Panel) {
    q.generation != p.generation && !(step.Load? && p.selected == Some(step.key))
  }

  /** A current load is told that its run does not exist. */
  predicate GoesMissing(p: Panel, step: Step) {
    step.LoadSettles? && step.f.LoadEnd? && step.f.generation == p.generation
    && step.f.outcome.Some? && step.f.outcome.value.status == 404
  }

  function Take(w: World, step: Step): World
    requires Enabled(w, step)
  {
    var (q, sent) := Next(w, step);
    var flights := w.flights - Spent(step) + sent;
    var turn := if step.Tick? || step.PollStops? then w.turn + 1 else w.turn;
    if Drops(w.panel, step, q) then World(q, flights, turn, map[], map[], false)
    else World(q, flights, turn, Timelines(w, step), Proofs(w, step), w.gone || GoesMissing(w.panel, step))
  }

  /** A step that is not possible is skipped. */
  function Try(w: World, step: Step): World { if Enabled(w, step) then Take(w, step) else w }

  function RunFrom(w: World, steps: seq<Step>): World {
    if steps == [] then w else Try(RunFrom(w, steps[..|steps| - 1]), steps[|steps| - 1])
  }

  // ----- what is held belongs to the selected run

  predicate Owned(p: Panel) {
    && (p.run.Some? ==> p.selected == Some(p.run.value.key))
    && (p.plan.Some? ==> p.selected == Some(p.plan.value.of))
    && (p.history.Some? ==> p.selected == Some(p.history.value.of))
    && (p.recovery.Some? ==> p.selected == Some(p.recovery.value.of))
    && (p.preflight.Some? ==> p.selected == Some(p.preflight.value.of))
  }

  /** What is in flight under the current generation is for the selected run. */
  ghost predicate Captured(w: World) {
    forall f :: f in w.flights ==>
      f.generation <= w.panel.generation && (f.generation == w.panel.generation ==> w.panel.selected == Some(f.key))
  }

  /** The selected key moves only together with the generation, and numbers are never handed out again. */
  predicate Moves(p: Panel, q: Panel) {
    && q.generation >= p.generation && (q.generation == p.generation ==> q.selected == p.selected)
    && q.detailRequests >= p.detailRequests
  }

  lemma HistoryOwns(p: Panel, history: History, number: nat)
    requires Owned(p) && p.selected == Some(history.of)
    ensures var q := WithHistory(p, history, number);
            q.generation == p.generation && q.selected == p.selected && q.detailRequests == p.detailRequests && Owned(q)
  {
  }

  lemma EvidenceOwns(p: Panel, evidence: Read<Option<Recovery>>, number: nat)
    requires Owned(p) && (evidence.Got? && evidence.value.Some? ==> p.selected == Some(evidence.value.value.of))
    ensures var q := WithEvidence(p, evidence, number);
            q.generation == p.generation && q.selected == p.selected && q.detailRequests == p.detailRequests && Owned(q)
  {
  }

  /** Taking an answer about the selected run leaves the selection alone. */
  lemma Takes(p: Panel, key: Key, history: Option<History>, evidence: Read<Option<Recovery>>, number: nat)
    requires Owned(p) && p.selected == Some(key)
    requires history.Some? ==> history.value.of == key
    requires evidence.Got? && evidence.value.Some? ==> evidence.value.value.of == key
    ensures var q := if history.Some? then WithHistory(p, history.value, number) else p;
            var r := WithEvidence(q, evidence, number);
            r.generation == p.generation && r.selected == p.selected && r.detailRequests == p.detailRequests && Owned(r)
  {
    hide WithHistory, WithEvidence, Owned;
    if history.Some? {
      HistoryOwns(p, history.value, number);
    }
    EvidenceOwns(if history.Some? then WithHistory(p, history.value, number) else p, evidence, number);
  }

  lemma LoadLands(p: Panel, f: Flight, detail: Read<Detail>, history: Read<History>, evidence: Read<Option<Recovery>>)
    requires f.LoadRead? && (f.generation == p.generation ==> p.selected == Some(f.key)) && Owned(p)
    requires About(f.key, history, evidence) && (detail.Got? ==> detail.value.plan.of == f.key)
    ensures var q := LandLoad(p, f, detail, history, evidence).0; Moves(p, q) && Owned(q)
  {
    hide WithHistory, WithEvidence, Accepts;
    if f.generation == p.generation && detail.Got? && history.Got? {
      var q := WithRun(p, detail.value.run).(plan := Some(detail.value.plan), preflight := None);
      assert Owned(q) && q.generation == p.generation && q.detailRequests == p.detailRequests by {
        RunOwns(p, detail.value.run);
      }
      Takes(q, f.key, Some(history.value), evidence, f.number);
    }
  }

  lemma RunOwns(p: Panel, run: Run)
    requires Owned(p)
    ensures var q := WithRun(p, run);
        q.generation == p.generation && q.selected == p.selected && q.detailRequests == p.detailRequests && Owned(q)
  {
  }

  /** Nothing is held but what was held before, for the same selection. */
  predicate HoldsNoMore(p: Panel, q: Panel) {
    && q.generation == p.generation && q.selected == p.selected && q.detailRequests == p.detailRequests
    && (q.run == p.run || q.run == None) && (q.plan == p.plan || q.plan == None)
    && (q.history == p.history || q.history == None) && (q.recovery == p.recovery || q.recovery == None)
    && (q.preflight == p.preflight || q.preflight == None)
  }

  lemma NoMoreIsOwned(p: Panel, q: Panel)
    requires HoldsNoMore(p, q) && Owned(p)
    ensures Moves(p, q) && Owned(q)
  {
  }

  lemma LoadSettles(p: Panel, f: Flight)
    requires f.LoadEnd? && Owned(p)
    ensures var q := SettleLoad(p, f); Moves(p, q) && Owned(q)
  {
    hide Owned, Moves;
    NoMoreIsOwned(p, SettleLoad(p, f));
  }

  lemma RefreshLands(p: Panel, f: Flight, history: Read<History>, evidence: Read<Option<Recovery>>)
    requires f.DetailRead? && About(f.key, history, evidence) && Owned(p)
    ensures var q := LandRefresh(p, f, history, evidence); Moves(p, q) && Owned(q)
  {
    hide WithHistory, WithEvidence;
    if p.selected == Some(f.key) {
      Takes(p, f.key, if history.Got? then Some(history.value) else None, evidence, f.number);
    }
  }

  lemma StatusLands(p: Panel, f: Flight, stale: bool, answer: Read<Run>)
    requires f.StatusRead? && Owned(p)
    ensures var q := LandStatus(p, f, stale, answer).0; Moves(p, q) && Owned(q)
  {
    hide WithRun, HasMoved;
    if answer.Got? && !stale {
      RunOwns(p, answer.value);
      assert Owned(BeginRefresh(WithRun(p, answer.value)));
    }
  }

  lemma UpdateLands(p: Panel, run: Run, preflight: Option<Preflight>)
    requires (preflight.Some? ==> preflight.value.of == run.key) && Owned(p)
    ensures var q := RunUpdated(p, run, preflight).0; Moves(p, q) && Owned(q)
  {
    hide WithRun;
    RunOwns(p, run);
    var q := WithRun(p, run);
    assert Owned(q.(preflight := if preflight.Some? && p.selected == Some(run.key) then preflight else q.preflight));
  }

  lemma LoadBegins(p: Panel, key: Key)
    requires Owned(p)
    ensures var q := BeginLoad(p, key); Moves(p, q) && Owned(q)
  {
  }

  lemma TakeOwns(w: World, step: Step)
    requires Enabled(w, step) && Captured(w) && Owned(w.panel)
    ensures var q := Next(w, step).0; Moves(w.panel, q) && Owned(q)
  {
    hide Moves, Owned, BeginLoad, LandLoad, SettleLoad, LandRefresh, LandStatus, RunUpdated, About;
    var p := w.panel;
    match step {
      case Load(key) => LoadBegins(p, key);
      case LoadAnswers(f, detail, history, evidence) => LoadLands(p, f, detail, history, evidence);
      case LoadSettles(f) => LoadSettles(p, f);
      case RefreshAnswers(f, history, evidence) => RefreshLands(p, f, history, evidence);
      case StatusAnswers(f, answer) => StatusLands(p, f, f.turn != w.turn, answer);
      case Mutated(run, preflight) => UpdateLands(p, run, preflight);
      case _ => OtherOwns(w, step);
    }
  }

  lemma OtherOwns(w: World, step: Step)
    requires step.SignIn? || step.Refresh? || step.Tick? || step.PollStops? || step.RereadEvidence? || step.Clear?
        || step.End?
    requires Enabled(w, step) && Owned(w.panel)
    ensures var q := Next(w, step).0; Moves(w.panel, q) && Owned(q)
  {
    hide BeginLoad, LandLoad, SettleLoad, LandRefresh, LandStatus, RunUpdated, About;
  }

  /**
   A step sends at most one request; it is for the run then selected, or was captured earlier, and its number
   is new.
   */
  ghost predicate Sends(p: Panel, q: Panel, sent: multiset<Flight>) {
    && (forall f :: f in sent ==> sent[f] == 1 && f.generation <= q.generation)
    && (forall f :: f in sent && f.generation == q.generation ==> q.selected == Some(f.key))
    && (forall f :: f in sent && f.Numbered() ==> p.detailRequests < f.number == q.detailRequests)
    && (forall f, g :: f in sent && g in sent ==> f == g)
  }

  lemma StatusSends(p: Panel, f: Flight, stale: bool, answer: Read<Run>)
    requires f.StatusRead? && f.generation <= p.generation
    ensures var (q, read) := LandStatus(p, f, stale, answer); Sends(p, q, Started(read))
  {
  }

  lemma UpdateSends(p: Panel, run: Run, preflight: Option<Preflight>)
    ensures var (q, read) := RunUpdated(p, run, preflight); Sends(p, q, Started(read))
  {
  }

  lemma RereadSends(p: Panel)
    ensures var (q, read) := Reread(p); Sends(p, q, Started(read))
  {
  }

  lemma LoadSends(p: Panel, key: Key)
    ensures Sends(p, BeginLoad(p, key), multiset{LoadRead(key, p.generation + 1, NextNumber(p))})
  {
  }

  /** A request that is no numbered read, sent with what an earlier one captured. */
  lemma CapturedSends(p: Panel, q: Panel, f: Flight)
    requires !f.Numbered() && f.generation <= p.generation && Moves(p, q)
    requires f.generation == p.generation ==> p.selected == Some(f.key)
    ensures Sends(p, q, multiset{f})
  {
  }

  lemma StepSends(w: World, step: Step)
    requires Enabled(w, step) && Captured(w) && Owned(w.panel)
    ensures var (q, sent) := Next(w, step); Sends(w.panel, q, sent)
  {
    hide Owned, LandLoad, LandStatus, RunUpdated, Reread, About, SettleLoad, LandRefresh, BeginLoad, Sends, Moves;
    var p := w.panel;
    TakeOwns(w, step);
    match step {
      case Load(key) => LoadSends(p, key);
      case LoadAnswers(f, detail, history, evidence) =>
        var (q, thrown) := LandLoad(p, f, detail, history, evidence);
        CapturedSends(p, q, LoadEnd(f.key, f.generation, thrown));
      case StatusAnswers(f, answer) => StatusSends(p, f, f.turn != w.turn, answer);
      case Mutated(run, preflight) => UpdateSends(p, run, preflight);
      case RereadEvidence => RereadSends(p);
      case _ => OtherSends(w, step);
    }
  }

  lemma OtherSends(w: World, step: Step)
    requires Enabled(w, step)
    requires step.SignIn? || step.LoadSettles? || step.Refresh? || step.RefreshAnswers? || step.Tick?
        || step.PollStops? || step.Clear? || step.End?
    ensures var (q, sent) := Next(w, step); Sends(w.panel, q, sent)
  {
    hide Owned, About, SettleLoad, LandRefresh, Dropped, LandLoad, LandStatus, RunUpdated, Reread, BeginLoad;
  }

  lemma TakeCaptures(w: World, step: Step)
    requires Enabled(w, step) && Captured(w) && Owned(w.panel)
    ensures Captured(Take(w, step)) && Owned(Take(w, step).panel)
  {
    hide Owned, Next, Enabled, Timelines, Proofs;
    TakeOwns(w, step);
    StepSends(w, step);
    var (q, sent) := Next(w, step);
    forall f | f in Take(w, step).flights
      ensures f.generation <= q.generation && (f.generation == q.generation ==> q.selected == Some(f.key))
    {
      assert f in w.flights || f in sent;
    }
  }

  // ----- numbered reads

  ghost predicate Numbered(w: World) {
    && w.panel.historyFrom <= w.panel.detailRequests && w.panel.recoveryFrom <= w.panel.detailRequests
    && (forall f :: f in w.flights && f.Numbered() ==> f.number <= w.panel.detailRequests && w.flights[f] == 1)
    && (forall f, g :: f in w.flights && g in w.flights && f.Numbered() && g.Numbered() && f.number == g.number ==>
        f == g)
    && (forall n :: n in w.timelines || n in w.proofs ==> n <= w.panel.detailRequests)
  }

  /** No current read has landed before, and none is behind what another selection left. */
  ghost predicate Unread(w: World) {
    forall f :: f in w.flights && f.Numbered() && f.generation == w.panel.generation ==>
      && f.number !in w.timelines && f.number !in w.proofs
      && (w.timelines == map[] ==> w.panel.historyFrom < f.number)
      && (w.proofs == map[] ==> w.panel.recoveryFrom < f.number)
  }

  /** What the panel shows is the read with the highest number among those that answered. */
  ghost predicate Newest<T>(landed: map<nat, T>, from: nat, held: Option<T>) {
    if landed == map[] then held == None
    else from in landed && held == Some(landed[from]) && forall n :: n in landed ==> n <= from
  }

  function Proof(p: Panel): Option<Option<Recovery>> { if p.evidence.ReadOnce? then Some(p.recovery) else None }

  ghost predicate ShowsNewest(w: World) {
    !w.gone ==>
      && Newest(w.timelines, w.panel.historyFrom, w.panel.history)
      && Newest(w.proofs, w.panel.recoveryFrom, Proof(w.panel))
      && (w.proofs == map[] ==> w.panel.recovery == None)
  }

  ghost predicate Kept(w: World) {
    Owned(w.panel) && Captured(w) && Numbered(w) && Unread(w) && ShowsNewest(w)
  }

  // ----- what a step does to the two numbered fields

  predicate SameReads(p: Panel, q: Panel) {
    && q.history == p.history && q.historyFrom == p.historyFrom
    && q.recovery == p.recovery && q.recoveryFrom == p.recoveryFrom && Proof(q) == Proof(p)
  }

  predicate Emptied(p: Panel, q: Panel) {
    && q.history == None && q.historyFrom == p.historyFrom
    && q.recovery == None && q.recoveryFrom == p.recoveryFrom && Proof(q) == None
  }

  predicate ReadIn(p: Panel, q: Panel, n: nat, history: Read<History>, evidence: Read<Option<Recovery>>) {
    && (if history.Got? && p.historyFrom < n then q.history == Some(history.value) && q.historyFrom == n
        else q.history == p.history && q.historyFrom == p.historyFrom)
    && (if evidence.Got? && p.recoveryFrom < n
        then q.recovery == evidence.value && q.recoveryFrom == n && Proof(q) == Some(evidence.value)
        else q.recovery == p.recovery && q.recoveryFrom == p.recoveryFrom && Proof(q) == Proof(p))
  }

  lemma TakesRead(p: Panel, n: nat, history: Read<History>, evidence: Read<Option<Recovery>>)
    ensures var q := if history.Got? then WithHistory(p, history.value, n) else p;
            var r := WithEvidence(q, evidence, n);
            ReadIn(p, r, n, history, evidence) && r.generation == p.generation
  {
    var q := if history.Got? then WithHistory(p, history.value, n) else p;
    assert q.recovery == p.recovery && q.recoveryFrom == p.recoveryFrom && q.evidence == p.evidence;
  }

  ghost predicate Reads(p: Panel, step: Step, q: Panel) {
    if Drops(p, step, q) then Emptied(p, q)
    else if Lands(p, step) then ReadIn(p, q, step.f.number, step.history, step.evidence)
    else if GoesMissing(p, step) then Emptied(p, q)
    else SameReads(p, q)
  }

  lemma LoadReads(p: Panel, step: Step)
    requires step.LoadAnswers? && step.f.LoadRead?
    ensures Reads(p, step, LandLoad(p, step.f, step.detail, step.history, step.evidence).0)
  {
    hide WithHistory, WithEvidence, WithRun, ReadIn;
    if Lands(p, step) {
      var q := WithRun(p, step.detail.value.run).(plan := Some(step.detail.value.plan), preflight := None);
      assert SameReads(p, q) && q.generation == p.generation by { RunReads(p, step.detail.value.run); }
      TakesRead(q, step.f.number, step.history, step.evidence);
      ReadInSame(p, q, LandLoad(p, step.f, step.detail, step.history, step.evidence).0, step.f.number, step.history,
          step.evidence);
    }
  }

  lemma ReadInSame(p: Panel, q: Panel, r: Panel, n: nat, history: Read<History>, evidence: Read<Option<Recovery>>)
    requires SameReads(p, q) && ReadIn(q, r, n, history, evidence)
    ensures ReadIn(p, r, n, history, evidence)
  {
  }

  lemma RunReads(p: Panel, run: Run)
    ensures SameReads(p, WithRun(p, run)) && WithRun(p, run).generation == p.generation
  {
  }

  lemma RefreshReads(p: Panel, step: Step)
    requires step.RefreshAnswers? && step.f.DetailRead?
    ensures Reads(p, step, LandRefresh(p, step.f, step.history, step.evidence))
  {
    hide WithHistory, WithEvidence, ReadIn;
    if Lands(p, step) {
      TakesRead(p, step.f.number, step.history, step.evidence);
    }
  }

  lemma SettleReads(p: Panel, step: Step)
    requires step.LoadSettles? && step.f.LoadEnd?
    ensures Reads(p, step, SettleLoad(p, step.f))
  {
  }

  lemma StatusReads(p: Panel, step: Step, stale: bool)
    requires step.StatusAnswers? && step.f.StatusRead?
    ensures Reads(p, step, LandStatus(p, step.f, stale, step.answer).0)
  {
    hide WithRun, HasMoved;
    if step.answer.Got? {
      RunReads(p, step.answer.value);
    }
  }

  lemma UpdateReads(p: Panel, step: Step)
    requires step.Mutated?
    ensures Reads(p, step, RunUpdated(p, step.run, step.preflight).0)
  {
    hide WithRun;
    RunReads(p, step.run);
  }

  lemma OtherReads(w: World, step: Step)
    requires Enabled(w, step)
    requires !step.LoadAnswers? && !step.LoadSettles? && !step.RefreshAnswers? && !step.StatusAnswers? && !step.Mutated?
    ensures Reads(w.panel, step, Next(w, step).0)
  {
    hide LandLoad, SettleLoad, LandRefresh, LandStatus, RunUpdated, ReadIn;
  }

  lemma StepReads(w: World, step: Step)
    requires Enabled(w, step)
    ensures Reads(w.panel, step, Next(w, step).0)
  {
    hide Reads, LandLoad, SettleLoad, LandRefresh, LandStatus, RunUpdated, About, BeginLoad, Reread, Cleared, Ended;
    match step {
      case LoadAnswers(_, _, _, _) => LoadReads(w.panel, step);
      case LoadSettles(_) => SettleReads(w.panel, step);
      case RefreshAnswers(_, _, _) => RefreshReads(w.panel, step);
      case StatusAnswers(f, _) => StatusReads(w.panel, step, f.turn != w.turn);
      case Mutated(_, _) => UpdateReads(w.panel, step);
      case _ => OtherReads(w, step);
    }
  }

  // ----- the invariants of every run

  lemma NewestAdds<T>(landed: map<nat, T>, from: nat, held: Option<T>, n: nat, value: T)
    requires Newest(landed, from, held) && n !in landed && (landed == map[] ==> from < n)
    ensures Newest(landed[n := value], if from < n then n else from, if from < n then Some(value) else held)
  {
  }

  lemma NewestOfNone<T>(from: nat)
    ensures Newest<T>(map[], from, None)
  {
  }

  lemma LandingFlies(w: World, step: Step)
    requires Enabled(w, step) && Lands(w.panel, step)
    ensures step.f in w.flights && step.f.Numbered() && step.f.generation == w.panel.generation
  {
  }

  lemma TakeShows(w: World, step: Step)
    requires Enabled(w, step) && Unread(w) && ShowsNewest(w)
    ensures ShowsNewest(Take(w, step))
  {
    hide Enabled, Next, Newest, Drops;
    StepReads(w, step);
    var t := Take(w, step);
    if Drops(w.panel, step, t.panel) {
      NewestOfNone<History>(t.panel.historyFrom);
      NewestOfNone<Option<Recovery>>(t.panel.recoveryFrom);
    } else if !t.gone && Lands(w.panel, step) {
      LandingFlies(w, step);
      var n := step.f.number;
      if step.history.Got? {
        NewestAdds(w.timelines, w.panel.historyFrom, w.panel.history, n, step.history.value);
      }
      if step.evidence.Got? {
        NewestAdds(w.proofs, w.panel.recoveryFrom, Proof(w.panel), n, step.evidence.value);
        assert n in t.proofs;
      }
    }
  }

  /** The requests after a step: what it sent, and what was out and is not answered. */
  lemma FlightsAfter(w: World, step: Step)
    requires Enabled(w, step)
    ensures forall f :: f in Take(w, step).flights ==> f in w.flights || f in Next(w, step).1
    ensures forall f :: Take(w, step).flights[f] <= w.flights[f] + Next(w, step).1[f]
  {
    hide Enabled, Next;
  }

  lemma TakeNumbers(w: World, step: Step)
    requires Enabled(w, step) && Owned(w.panel) && Captured(w) && Numbered(w)
    ensures Numbered(Take(w, step))
  {
    hide Enabled, Next, Drops, Owned, Captured, Take;
    StepReads(w, step);
    StepSends(w, step);
    TakeOwns(w, step);
    FlightsAfter(w, step);
    RecordsAfter(w, step);
    var t := Take(w, step);
    var sent := Next(w, step).1;
    assert forall f :: f in w.flights && f.Numbered() ==> f !in sent;
  }

  lemma RecordsAfter(w: World, step: Step)
    requires Enabled(w, step) && Numbered(w)
    ensures Take(w, step).panel == Next(w, step).0
    ensures Lands(w.panel, step) ==> step.f.number <= w.panel.detailRequests
    ensures forall n :: n in Take(w, step).timelines || n in Take(w, step).proofs ==> n <= w.panel.detailRequests
  {
    hide Enabled, Next, Drops;
    if Lands(w.panel, step) {
      LandingFlies(w, step);
    }
  }

  /** One request that is still out after a step, and current. */
  lemma StaysUnread(w: World, step: Step, f: Flight)
    requires Enabled(w, step) && Kept(w)
    requires f in Take(w, step).flights && f.Numbered() && f.generation == Take(w, step).panel.generation
    ensures var t := Take(w, step);
            && f.number !in t.timelines && f.number !in t.proofs
            && (t.timelines == map[] ==> t.panel.historyFrom < f.number)
            && (t.proofs == map[] ==> t.panel.recoveryFrom < f.number)
  {
    hide Enabled, Next, Owned, ShowsNewest;
    StepReads(w, step);
    StepSends(w, step);
    TakeOwns(w, step);
    var t := Take(w, step);
    if Lands(w.panel, step) {
      LandingFlies(w, step);
      assert step.history.Got? && !Drops(w.panel, step, t.panel) ==> step.f.number in t.timelines;
      assert step.evidence.Got? && !Drops(w.panel, step, t.panel) ==> step.f.number in t.proofs;
    }
    if f in w.flights {
      assert w.flights[f] == 1 && f !in Next(w, step).1;
    } else {
      assert f in Next(w, step).1;
    }
  }

  lemma TakeUnread(w: World, step: Step)
    requires Enabled(w, step) && Kept(w)
    ensures Unread(Take(w, step))
  {
    hide Take, Enabled, Kept;
    forall f | f in Take(w, step).flights && f.Numbered() && f.generation == Take(w, step).panel.generation {
      StaysUnread(w, step, f);
    }
  }

  lemma TakeKeeps(w: World, step: Step)
    requires Enabled(w, step) && Kept(w)
    ensures Kept(Take(w, step))
  {
    hide Take, Enabled, Owned, Captured, Numbered, Unread, ShowsNewest;
    TakeCaptures(w, step);
    TakeNumbers(w, step);
    TakeUnread(w, step);
    TakeShows(w, step);
  }

  lemma {:induction false} RunKeeps(w: World, steps: seq<Step>)
    requires Kept(w)
    ensures Kept(RunFrom(w, steps))
  {
    hide Take, Enabled, Kept;
    if steps != [] {
      var front, step := steps[..|steps| - 1], steps[|steps| - 1];
      RunKeeps(w, front);
      if Enabled(RunFrom(w, front), step) {
        TakeKeeps(RunFrom(w, front), step);
      }
    }
  }

  lemma InitiallyKept()
    ensures Kept(INITIALLY)
  {
  }
}
