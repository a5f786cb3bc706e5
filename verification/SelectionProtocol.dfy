/**
 The selected run of the admin shell: what each asynchronous read may write, and when.

 A method of the source that awaits is split at its awaits: one step up to the
 request, one for what runs when the answers are in. The functions say what a
 step does to the panel; the class performs the steps in place.
 */
module SelectionProtocol {
  import opened Wrappers

  datatype Key = Key(text: string)

  datatype Status = Completed | Aborted | Rejected | Expired | Moving(text: string)

  const TERMINAL: set<Status> := {Completed, Aborted, Rejected, Expired}

  /** What the message line says. */
  datatype Message =
    | Silence
    | SessionEnded
    | NoSuchRun(key: Key)
    | Unreadable(key: Key, why: Message)
    | Said(text: string)

  datatype Run = Run(key: Key, status: Status, revision: int, projection: string)
  datatype Plan = Plan(of: Key, text: string)
  datatype History = History(of: Key, text: string)
  datatype Recovery = Recovery(of: Key, text: string)
  datatype Preflight = Preflight(of: Key, text: string)
  datatype Detail = Detail(run: Run, plan: Plan)

  /** A failed request: its HTTP status, 0 where there was none, and what to say about it. */
  datatype Failure = Failure(status: int, message: Message)

  datatype Read<T> = Got(value: T) | Failed(failure: Failure)

  datatype EvidenceRead = Loading | ReadOnce | Unavailable(message: Message)

  predicate EndsSession<T>(read: Read<T>) { read.Failed? && read.failure.status == 401 }

  /** A request whose answers are not in yet, with what it captured when it was asked. */
  datatype Flight =
    | LoadRead(key: Key, generation: nat, number: nat)
    | LoadEnd(key: Key, generation: nat, outcome: Option<Failure>)
    | DetailRead(key: Key, generation: nat, number: nat)
    | StatusRead(key: Key, generation: nat, turn: nat)
  {
    /** The numbered reads: they carry a timeline and recovery evidence. */
    predicate Numbered() { LoadRead? || DetailRead? }
  }

  datatype Panel = Panel(
    session: bool, selected: Option<Key>, run: Option<Run>, plan: Option<Plan>, preflight: Option<Preflight>,
    planError: Option<Message>, recovery: Option<Recovery>, evidence: EvidenceRead, history: Option<History>,
    generation: nat, detailRequests: nat, historyFrom: nat, recoveryFrom: nat, loading: bool, message: Message)

  const BLANK := Panel(false, None, None, None, None, None, None, Loading, None, 0, 0, 0, 0, false, Silence)

  // ----- what a step does to the panel

  predicate AcceptsRunUpdate(held: Option<Run>, incoming: Run) {
    held.None? || (held.value.key == incoming.key && incoming.revision >= held.value.revision)
  }

  predicate HasMoved(before: Option<Run>, after: Run) {
    before.None? || before.value.status != after.status || before.value.revision != after.revision
  }

  predicate Accepts(p: Panel, run: Run) { p.selected == Some(run.key) && AcceptsRunUpdate(p.run, run) }

  function WithRun(p: Panel, run: Run): Panel { if Accepts(p, run) then p.(run := Some(run)) else p }

  function WithHistory(p: Panel, history: History, request: nat): Panel {
    if request <= p.historyFrom then p else p.(history := Some(history), historyFrom := request)
  }

  function WithEvidence(p: Panel, answer: Read<Option<Recovery>>, request: nat): Panel {
    match answer
    case Failed(failure) => if p.evidence.ReadOnce? then p else p.(evidence := Unavailable(failure.message))
    case Got(recovery) =>
      if request <= p.recoveryFrom then p
      else p.(recovery := recovery, recoveryFrom := request, evidence := ReadOnce)
  }

  /** Everything held about the selected run but its key and its plan's error. */
  function Dropped(p: Panel): Panel {
    p.(run := None, plan := None, recovery := None, evidence := Loading, preflight := None, history := None)
  }

  function Cleared(p: Panel): Panel {
    Dropped(p).(generation := p.generation + 1, selected := None, planError := None)
  }

  function Ended(p: Panel, message: Message): Panel {
    Dropped(p).(generation := p.generation + 1, session := false, message := message, planError := None)
  }

  function BeginLoad(p: Panel, key: Key): Panel {
    var q := if p.selected != Some(key) then Dropped(p) else p;
    q.(generation := p.generation + 1, loading := true, planError := None, selected := Some(key),
       detailRequests := p.detailRequests + 1)
  }

  /** The request number a detail read is given, when one starts in `p`. */
  function NextNumber(p: Panel): nat { p.detailRequests + 1 }

  function BeginRefresh(p: Panel): Panel { p.(detailRequests := NextNumber(p)) }

  function LandLoad(p: Panel, f: Flight, detail: Read<Detail>, history: Read<History>, evidence: Read<Option<Recovery>>)
    : (Panel, Option<Failure>)
    requires f.LoadRead?
  {
    if f.generation != p.generation then (p, None)
    else if EndsSession(detail) || EndsSession(history) || EndsSession(evidence) then (Ended(p, SessionEnded), None)
    else if detail.Failed? then (p, Some(detail.failure))
    else if history.Failed? then (p, Some(history.failure))
    else
      var q := WithRun(p, detail.value.run).(plan := Some(detail.value.plan), preflight := None);
      (WithEvidence(WithHistory(q, history.value, f.number), evidence, f.number), None)
  }

  function SettleLoad(p: Panel, f: Flight): Panel
    requires f.LoadEnd?
  {
    var q := p.(loading := false);
    if f.generation != p.generation then q
    else if f.outcome.None? then q.(message := Silence)
    else if f.outcome.value.status == 404 then
      q.(history := None, run := None, plan := None, recovery := None, evidence := Loading, message := NoSuchRun(f.key))
    else q.(planError := Some(f.outcome.value.message), message := Unreadable(f.key, f.outcome.value.message))
  }

  function LandRefresh(p: Panel, f: Flight, history: Read<History>, evidence: Read<Option<Recovery>>): Panel
    requires f.DetailRead?
  {
    if f.generation != p.generation || p.selected != Some(f.key) then p
    else if EndsSession(history) || EndsSession(evidence) then Ended(p, SessionEnded)
    else
      var q := if history.Got? then WithHistory(p, history.value, f.number) else p;
      WithEvidence(q, evidence, f.number)
  }

  predicate Polls(p: Panel) {
    p.selected.Some? && p.session && !(p.run.Some? && p.run.value.status in TERMINAL)
  }

  /** A status answer; `stale` is the poll controller's own word for a superseded run. */
  function LandStatus(p: Panel, f: Flight, stale: bool, answer: Read<Run>): (Panel, Option<Flight>)
    requires f.StatusRead?
  {
    match answer
    case Failed(failure) =>
      if stale then (p, None)
      else if failure.status == 401 then (Ended(p, SessionEnded), None)
      else (p.(message := failure.message), None)
    case Got(run) =>
      if stale || p.selected != Some(f.key) || !Accepts(p, run) then (p, None)
      else if HasMoved(p.run, run) then
        (BeginRefresh(WithRun(p, run)), Some(DetailRead(f.key, f.generation, NextNumber(p))))
      else (WithRun(p, run), None)
  }

  function RunUpdated(p: Panel, run: Run, preflight: Option<Preflight>): (Panel, Option<Flight>) {
    if !Accepts(p, run) then (p, None)
    else
      var q := if preflight.Some? then WithRun(p, run).(preflight := preflight) else WithRun(p, run);
      (BeginRefresh(q), Some(DetailRead(run.key, q.generation, NextNumber(q))))
  }

  function Reread(p: Panel): (Panel, Option<Flight>) {
    if p.selected.None? then (p, None)
    else
      var q := if p.evidence.Unavailable? then p.(evidence := Loading) else p;
      (BeginRefresh(q), Some(DetailRead(q.selected.value, q.generation, NextNumber(q))))
  }

  // ----- the shell's own fields, stepped in place

  class AdminShell {
    var session: bool
    var selectedRunKey: Option<Key>
    var selectedRun: Option<Run>
    var selectedPlan: Option<Plan>
    var selectedPreflight: Option<Preflight>
    var planError: Option<Message>
    var selectedRecovery: Option<Recovery>
    var evidenceRead: EvidenceRead
    var history: Option<History>
    var selectionGeneration: nat
    var detailRequests: nat
    var historyFrom: nat
    var recoveryFrom: nat
    var loading: bool
    var message: Message

    ghost function View(): Panel
      reads this
    {
      Panel(session, selectedRunKey, selectedRun, selectedPlan, selectedPreflight, planError, selectedRecovery,
            evidenceRead, history, selectionGeneration, detailRequests, historyFrom, recoveryFrom, loading, message)
    }

    constructor ()
      ensures View() == BLANK
    {
      session, selectedRunKey, selectedRun, selectedPlan := false, None, None, None;
      selectedPreflight, planError, selectedRecovery, evidenceRead := None, None, None, Loading;
      history, selectionGeneration, detailRequests, historyFrom, recoveryFrom := None, 0, 0, 0, 0;
      loading, message := false, Silence;
    }

    method DropHeld()
      modifies this
      ensures View() == Dropped(old(View()))
    {
      selectedRun := None;
      selectedPlan := None;
      selectedRecovery := None;
      evidenceRead := Loading;
      selectedPreflight := None;
      history := None;
    }

    method ClearSelection()
      modifies this
      ensures View() == Cleared(old(View()))
    {
      selectionGeneration := selectionGeneration + 1;
      selectedRunKey := None;
      DropHeld();
      planError := None;
    }

    method EndSession(why: Message)
      modifies this
      ensures View() == Ended(old(View()), why)
    {
      selectionGeneration := selectionGeneration + 1;
      session := false;
      message := why;
      DropHeld();
      planError := None;
    }

    method AcceptRun(run: Run) returns (accepted: bool)
      modifies this
      ensures accepted == Accepts(old(View()), run)
      ensures View() == WithRun(old(View()), run)
    {
      if selectedRunKey != Some(run.key) { return false; }
      if !AcceptsRunUpdate(selectedRun, run) { return false; }
      selectedRun := Some(run);
      return true;
    }

    method TakeHistory(answer: History, request: nat)
      modifies this
      ensures View() == WithHistory(old(View()), answer, request)
    {
      if request <= historyFrom { return; }
      history := Some(answer);
      historyFrom := request;
    }

    method TakeEvidence(answer: Read<Option<Recovery>>, request: nat)
      modifies this
      ensures View() == WithEvidence(old(View()), answer, request)
    {
      if answer.Failed? {
        if evidenceRead != ReadOnce {
          evidenceRead := Unavailable(answer.failure.message);
        }
        return;
      }
      if request <= recoveryFrom { return; }
      selectedRecovery := answer.value;
      recoveryFrom := request;
      evidenceRead := ReadOnce;
    }

    method LoadSelectedRun(key: Key) returns (load: Flight)
      modifies this
      ensures View() == BeginLoad(old(View()), key)
      ensures load == LoadRead(key, View().generation, View().detailRequests)
    {
      selectionGeneration := selectionGeneration + 1;
      loading := true;
      if selectedRunKey != Some(key) {
        DropHeld();
      }
      planError := None;
      selectedRunKey := Some(key);
      detailRequests := detailRequests + 1;
      load := LoadRead(key, selectionGeneration, detailRequests);
    }

    method HistoryAnswered(f: Flight, detail: Read<Detail>, timeline: Read<History>, evidence: Read<Option<Recovery>>)
      returns (thrown: Option<Failure>)
      requires f.LoadRead?
      modifies this
      ensures (View(), thrown) == LandLoad(old(View()), f, detail, timeline, evidence)
    {
      thrown := None;
      if f.generation != selectionGeneration { return; }
      if EndsSession(detail) || EndsSession(timeline) || EndsSession(evidence) {
        EndSession(SessionEnded);
        return;
      }
      if detail.Failed? { return Some(detail.failure); }
      if timeline.Failed? { return Some(timeline.failure); }
      var _ := AcceptRun(detail.value.run);
      selectedPlan := Some(detail.value.plan);
      selectedPreflight := None;
      TakeHistory(timeline.value, f.number);
      TakeEvidence(evidence, f.number);
    }

    method LoadSettled(f: Flight)
      requires f.LoadEnd?
      modifies this
      ensures View() == SettleLoad(old(View()), f)
    {
      if f.generation == selectionGeneration {
        if f.outcome.None? {
          message := Silence;
        } else if f.outcome.value.status == 404 {
          history := None;
          selectedRun := None;
          selectedPlan := None;
          selectedRecovery := None;
          evidenceRead := Loading;
          message := NoSuchRun(f.key);
        } else {
          planError := Some(f.outcome.value.message);
          message := Unreadable(f.key, f.outcome.value.message);
        }
      }
      loading := false;
    }

    method RefreshSelectionDetail(key: Key, generation: nat) returns (read: Flight)
      modifies this
      ensures View() == BeginRefresh(old(View()))
      ensures read == DetailRead(key, generation, View().detailRequests)
    {
      detailRequests := detailRequests + 1;
      read := DetailRead(key, generation, detailRequests);
    }

    method DetailAnswered(f: Flight, timeline: Read<History>, evidence: Read<Option<Recovery>>)
      requires f.DetailRead?
      modifies this
      ensures View() == LandRefresh(old(View()), f, timeline, evidence)
    {
      if f.generation != selectionGeneration || selectedRunKey != Some(f.key) { return; }
      if EndsSession(timeline) || EndsSession(evidence) {
        EndSession(SessionEnded);
        return;
      }
      if timeline.Got? {
        TakeHistory(timeline.value, f.number);
      }
      TakeEvidence(evidence, f.number);
    }

    method PollSelectedRun(turn: nat) returns (read: Option<Flight>)
      ensures read == if Polls(View()) then Some(StatusRead(selectedRunKey.value, selectionGeneration, turn)) else None
    {
      if selectedRunKey.None? || !session { return None; }
      if selectedRun.Some? && selectedRun.value.status in TERMINAL { return None; }
      read := Some(StatusRead(selectedRunKey.value, selectionGeneration, turn));
    }

    method StatusAnswered(f: Flight, stale: bool, answer: Read<Run>) returns (read: Option<Flight>)
      requires f.StatusRead?
      modifies this
      ensures (View(), read) == LandStatus(old(View()), f, stale, answer)
    {
      read := None;
      if answer.Failed? {
        if stale { return; }
        if answer.failure.status == 401 {
          EndSession(SessionEnded);
          return;
        }
        message := answer.failure.message;
        return;
      }
      if stale || selectedRunKey != Some(f.key) { return; }
      var before := selectedRun;
      var accepted := AcceptRun(answer.value);
      if !accepted { return; }
      if HasMoved(before, answer.value) {
        var asked := RefreshSelectionDetail(f.key, f.generation);
        read := Some(asked);
      }
    }

    method OnRunUpdated(run: Run, preflight: Option<Preflight>) returns (read: Option<Flight>)
      modifies this
      ensures (View(), read) == RunUpdated(old(View()), run, preflight)
    {
      read := None;
      var accepted := AcceptRun(run);
      if !accepted { return; }
      if preflight.Some? {
        selectedPreflight := preflight;
      }
      var asked := RefreshSelectionDetail(run.key, selectionGeneration);
      read := Some(asked);
    }

    method RereadEvidence() returns (read: Option<Flight>)
      modifies this
      ensures (View(), read) == Reread(old(View()))
    {
      read := None;
      if selectedRunKey.None? { return; }
      if evidenceRead.Unavailable? {
        evidenceRead := Loading;
      }
      var asked := RefreshSelectionDetail(selectedRunKey.value, selectionGeneration);
      read := Some(asked);
    }
  }
}
