/**
 Which run the admin shell holds: of the projections that come in for the selected
 run, the one that is furthest along.
 */
module SelectionRevisions {
  import opened Wrappers
  import opened SelectionProtocol
  import opened SelectionRuns
  import opened SelectionOrder

  type Projection = SelectionProtocol.Run

  predicate Unauthorised<T>(read: Read<T>) { read.Failed? && read.failure.status == 401 }

  /** The projection of the selected run that a step brings: by a load, the newest poll or a mutation. */
  function Brought(w: World, step: Step): Option<Projection> {
    match step
    case LoadAnswers(f, Got(detail), Got(_), evidence) =>
      if f.generation == w.panel.generation && !Unauthorised(evidence) && w.panel.selected == Some(detail.run.key)
      then Some(detail.run) else None
    case StatusAnswers(f, Got(run)) =>
      if f.StatusRead? && f.turn == w.turn && w.panel.selected == Some(f.key) && f.key == run.key
      then Some(run) else None
    case Mutated(run, _) => if w.panel.selected == Some(run.key) then Some(run) else None
    case _ => None
  }

  /** A step after which nothing is held: the selection is cleared or moves, the session ends, the run is not found. */
  predicate Forgets(w: World, step: Step) {
    match step
    case Clear => true
    case End(_) => true
    case Load(key) => w.panel.selected != Some(key)
    case LoadAnswers(f, detail, history, evidence) =>
      f.generation == w.panel.generation && (Unauthorised(detail) || Unauthorised(history) || Unauthorised(evidence))
    case RefreshAnswers(f, history, evidence) =>
      f.generation == w.panel.generation && w.panel.selected == Some(f.key)
      && (Unauthorised(history) || Unauthorised(evidence))
    case StatusAnswers(f, answer) => f.StatusRead? && f.turn == w.turn && Unauthorised(answer)
    case LoadSettles(f) =>
      f.LoadEnd? && f.generation == w.panel.generation && f.outcome.Some? && f.outcome.value.status == 404
    case _ => false
  }

  /** Not behind what is held. */
  predicate UpToDate(held: Option<Projection>, run: Projection) {
    held.None? || run.revision >= held.value.revision
  }

  /** What is held once a projection has come in, or none has. */
  function HeldAfter(held: Option<Projection>, brought: Option<Projection>): Option<Projection> {
    if brought.Some? && UpToDate(held, brought.value) then brought else held
  }

  lemma RunTaken(p: Panel, run: Projection)
    requires Owned(p)
    ensures WithRun(p, run).run == HeldAfter(p.run, if p.selected == Some(run.key) then Some(run) else None)
  {
  }

  lemma LoadHolds(w: World, step: Step)
    requires step.LoadAnswers? && step.f.LoadRead? && Owned(w.panel)
    ensures LandLoad(w.panel, step.f, step.detail, step.history, step.evidence).0.run
         == if Forgets(w, step) then None else HeldAfter(w.panel.run, Brought(w, step))
  {
    hide WithRun, WithHistory, WithEvidence, HeldAfter;
    assert HeldAfter(w.panel.run, None) == w.panel.run by { NoneBrought(w.panel.run); }
    if step.detail.Got? && step.history.Got? {
      RunTaken(w.panel, step.detail.value.run);
      var q := WithRun(w.panel, step.detail.value.run).(plan := Some(step.detail.value.plan), preflight := None);
      TakesKeepRun(q, Some(step.history.value), step.evidence, step.f.number);
    }
  }

  lemma NoneBrought(held: Option<Projection>)
    ensures HeldAfter(held, None) == held
  {
  }

  lemma RefreshHolds(w: World, step: Step)
    requires step.RefreshAnswers? && step.f.DetailRead?
    ensures LandRefresh(w.panel, step.f, step.history, step.evidence).run
         == if Forgets(w, step) then None else w.panel.run
  {
    hide WithHistory, WithEvidence;
    TakesKeepRun(w.panel, if step.history.Got? then Some(step.history.value) else None, step.evidence, step.f.number);
  }

  lemma StatusHolds(w: World, step: Step)
    requires step.StatusAnswers? && step.f.StatusRead? && Owned(w.panel)
    ensures LandStatus(w.panel, step.f, step.f.turn != w.turn, step.answer).0.run
         == if Forgets(w, step) then None else HeldAfter(w.panel.run, Brought(w, step))
  {
    hide HasMoved;
  }

  lemma MutationHolds(w: World, step: Step)
    requires step.Mutated? && Owned(w.panel)
    ensures RunUpdated(w.panel, step.run, step.preflight).0.run == HeldAfter(w.panel.run, Brought(w, step))
  {
  }

  lemma OtherHolds(w: World, step: Step)
    requires Enabled(w, step)
    requires !step.LoadAnswers? && !step.RefreshAnswers? && !step.StatusAnswers? && !step.Mutated?
    ensures Next(w, step).0.run == if Forgets(w, step) then None else w.panel.run
  {
    hide LandLoad, LandRefresh, LandStatus, RunUpdated;
  }

  /**
   A projection of the selected run that comes in unstale, and is not behind the one held, is the one then held;
   and the run held changes in no other way, but to be forgotten.
   */
  lemma StepHolds(w: World, step: Step)
    requires Enabled(w, step) && Kept(w)
    ensures Take(w, step).panel.run
         == if Forgets(w, step) then None else HeldAfter(w.panel.run, Brought(w, step))
  {
    hide LandLoad, LandRefresh, LandStatus, RunUpdated, SettleLoad, BeginLoad, Owned, Captured, Numbered, Unread,
        ShowsNewest, Timelines, Proofs, About;
    match step {
      case LoadAnswers(_, _, _, _) => LoadHolds(w, step);
      case RefreshAnswers(_, _, _) => RefreshHolds(w, step);
      case StatusAnswers(_, _) => StatusHolds(w, step);
      case Mutated(_, _) => MutationHolds(w, step);
      case _ => OtherHolds(w, step);
    }
  }

  // ----- over whole runs

  /** The projections of the selected run that have come in since anything was last forgotten. */
  function Projections(steps: seq<Step>): seq<Projection> {
    if steps == [] then []
    else
      var front, step := steps[..|steps| - 1], steps[|steps| - 1];
      var w := SelectionOrder.Run(front);
      if !Enabled(w, step) then Projections(front)
      else if Forgets(w, step) then []
      else if Brought(w, step).Some? then Projections(front) + [Brought(w, step).value]
      else Projections(front)
  }

  /** The highest revision of all, and the last to come in with it. */
  predicate Furthest(ps: seq<Projection>, k: nat) {
    && k < |ps| && (forall j :: 0 <= j < k ==> ps[j].revision <= ps[k].revision)
    && (forall j :: k < j < |ps| ==> ps[j].revision < ps[k].revision)
  }

  ghost predicate HoldsFurthest(ps: seq<Projection>, held: Option<Projection>) {
    if ps == [] then held == None else exists k: nat :: Furthest(ps, k) && held == Some(ps[k])
  }

  lemma FurthestAdds(ps: seq<Projection>, held: Option<Projection>, run: Projection)
    requires HoldsFurthest(ps, held)
    ensures HoldsFurthest(ps + [run], HeldAfter(held, Some(run)))
  {
    var all := ps + [run];
    if ps == [] {
      assert Furthest(all, 0);
    } else {
      var k: nat :| Furthest(ps, k) && held == Some(ps[k]);
      assert if UpToDate(held, run) then Furthest(all, |ps|) else Furthest(all, k);
    }
  }

  /**
   In every run of the protocol the run on screen is, of all the projections of the selected run that came in
   since anything was last forgotten, the one with the highest revision, and of equals the last.
   */
  lemma {:induction false} FurthestIsShown(steps: seq<Step>)
    ensures HoldsFurthest(Projections(steps), SelectionOrder.Run(steps).panel.run)
  {
    hide Take, Enabled, Forgets, Brought, HoldsFurthest, HeldAfter, Kept;
    if steps == [] {
      assert HoldsFurthest([], None) by { NothingHeld(); }
    } else {
      var front, step := steps[..|steps| - 1], steps[|steps| - 1];
      FurthestIsShown(front);
      var w := SelectionOrder.Run(front);
      if Enabled(w, step) {
        Reachable(front);
        StepHolds(w, step);
        NothingHeld();
        NoneBrought(w.panel.run);
        if !Forgets(w, step) && Brought(w, step).Some? {
          FurthestAdds(Projections(front), w.panel.run, Brought(w, step).value);
        }
      }
    }
  }

  lemma NothingHeld()
    ensures HoldsFurthest([], None)
  {
  }

  /** Of two projections of one revision the later to come in is held, so the choice is unique. */
  lemma FurthestUnique(ps: seq<Projection>, i: nat, j: nat)
    requires Furthest(ps, i) && Furthest(ps, j)
    ensures i == j
  {
    var a, b := ps[i].revision, ps[j].revision;
  }

  // ----- what a moved run sets off

  predicate Moved(before: Option<Projection>, after: Option<Projection>) {
    after.Some? && (before.None? || before.value.status != after.value.status
                    || before.value.revision != after.value.revision)
  }

  /** A poll has timeline and evidence read again exactly when the run on screen has moved with its answer. */
  lemma PollReadsAgainIff(p: Panel, f: Flight, stale: bool, answer: Read<Projection>)
    requires f.StatusRead?
    ensures var (q, read) := LandStatus(p, f, stale, answer);
            && (read.Some? <==> Moved(p.run, q.run))
            && (read.Some? ==>
                  read.value.DetailRead? && read.value.key == f.key && read.value.generation == f.generation)
  {
  }

  /**
   The answer to a mutation has them read again under the current generation whenever it is of the selected run
   and not behind, moved or not; landing at once that read brings both in.
   */
  lemma MutationReadsAgain(
    w: World, run: Projection, preflight: Option<Preflight>, history: Read<History>, evidence: Read<Option<Recovery>>
  )
    requires Kept(w) && Enabled(w, Mutated(run, preflight))
    requires w.panel.selected == Some(run.key) && UpToDate(w.panel.run, run)
    requires history.Got? && evidence.Got? && About(run.key, history, evidence)
    ensures var t := Take(w, Mutated(run, preflight));
            var read := DetailRead(run.key, w.panel.generation, t.panel.detailRequests);
            && t.panel.run == Some(run)
            && t.panel.preflight == (if preflight.Some? then preflight else w.panel.preflight)
            && Enabled(t, RefreshAnswers(read, history, evidence))
            && var q := Take(t, RefreshAnswers(read, history, evidence)).panel;
               q.history == Some(history.value) && q.evidence == ReadOnce && q.recovery == evidence.value
  {
    hide Timelines, Proofs, Unread, ShowsNewest, Captured, Kept;
    var t := Take(w, Mutated(run, preflight));
    var read := DetailRead(run.key, w.panel.generation, t.panel.detailRequests);
    MutationStarts(w, run, preflight);
    assert Lands(t.panel, RefreshAnswers(read, history, evidence));
    StepReads(t, RefreshAnswers(read, history, evidence));
  }

  lemma MutationStarts(w: World, run: Projection, preflight: Option<Preflight>)
    requires Kept(w) && Enabled(w, Mutated(run, preflight))
    requires w.panel.selected == Some(run.key) && UpToDate(w.panel.run, run)
    ensures var t := Take(w, Mutated(run, preflight));
            var read := DetailRead(run.key, w.panel.generation, t.panel.detailRequests);
            && t.panel.run == Some(run)
            && t.panel.preflight == (if preflight.Some? then preflight else w.panel.preflight)
            && t.panel.generation == w.panel.generation && t.panel.selected == w.panel.selected && read in t.flights
            && t.panel.historyFrom < read.number && t.panel.recoveryFrom < read.number
  {
    hide Timelines, Proofs, Unread, ShowsNewest, Captured;
  }

  /** A tick asks for the status of the selected run, in a session, until the run held has come to an end. */
  lemma TickAsksIff(w: World, key: Key)
    ensures (exists f :: f in Next(w, Tick).1 && f.key == key)
       <==> w.panel.session && w.panel.selected == Some(key)
            && (w.panel.run.Some? ==> w.panel.run.value.status.Moving?)
  {
    if Polls(w.panel) {
      var f := StatusRead(w.panel.selected.value, w.panel.generation, w.turn + 1);
      assert Next(w, Tick).1 == multiset{f} && f in Next(w, Tick).1;
    }
  }

  // ----- what a step leaves of the rest of the panel

  /** The session ends: by a step of its own, or by a current answer that is refused as unauthorised. */
  predicate EndsHere(w: World, step: Step) {
    step.End? || ((step.LoadAnswers? || step.RefreshAnswers? || step.StatusAnswers?) && Forgets(w, step))
  }

  /** A current load is in, with plan and timeline. */
  predicate Loaded(w: World, step: Step) {
    step.LoadAnswers? && step.f.generation == w.panel.generation && step.detail.Got? && step.history.Got?
    && !Unauthorised(step.evidence)
  }

  /** A current load settles. */
  predicate Settles(w: World, step: Step) {
    step.LoadSettles? && step.f.LoadEnd? && step.f.generation == w.panel.generation
  }

  /** A current load settles with a failure other than that its run is not found. */
  predicate Fails(w: World, step: Step) {
    Settles(w, step) && step.f.outcome.Some? && step.f.outcome.value.status != 404
  }

  /** What the message line says after a step. */
  function MessageAfter(w: World, step: Step): Message {
    if step.End? then step.why
    else if EndsHere(w, step) then SessionEnded
    else if Settles(w, step) then
      match step.f.outcome
      case None => Silence
      case Some(failure) =>
        if failure.status == 404 then NoSuchRun(step.f.key) else Unreadable(step.f.key, failure.message)
    else if step.StatusAnswers? && step.f.StatusRead? && step.f.turn == w.turn && step.answer.Failed? then
      step.answer.failure.message
    else w.panel.message
  }

  /** An answer that brings a timeline and evidence to the selection it was asked for. */
  predicate Informs(w: World, step: Step) {
    || Loaded(w, step)
    || (step.RefreshAnswers? && step.f.generation == w.panel.generation && w.panel.selected == Some(step.f.key)
        && !Unauthorised(step.history) && !Unauthorised(step.evidence))
  }

  /** What is said of the evidence after a step: a failed read only speaks while nothing has been read. */
  function EvidenceAfter(w: World, step: Step): EvidenceRead {
    var p := w.panel;
    if Forgets(w, step) then Loading
    else if Informs(w, step) then
      match step.evidence
      case Failed(failure) => if p.evidence == ReadOnce then ReadOnce else Unavailable(failure.message)
      case Got(_) => if step.f.Numbered() && step.f.number > p.recoveryFrom then ReadOnce else p.evidence
    else if step.RereadEvidence? && p.selected.Some? && p.evidence.Unavailable? then Loading
    else p.evidence
  }

  ghost predicate Writes(w: World, step: Step, q: Panel) {
    var p := w.panel;
    && q.session == (step.SignIn? || (p.session && !EndsHere(w, step)))
    && q.selected == (if step.Load? then Some(step.key) else if step.Clear? then None else p.selected)
    && q.loading == (step.Load? || (p.loading && !step.LoadSettles?))
    && q.message == MessageAfter(w, step) && q.evidence == EvidenceAfter(w, step)
    && q.plan == (if Forgets(w, step) then None else if Loaded(w, step) then Some(step.detail.value.plan) else p.plan)
    && q.planError == (if step.Load? || step.Clear? || EndsHere(w, step) then None
                       else if Fails(w, step) then Some(step.f.outcome.value.message)
                       else p.planError)
    && q.preflight
       == (if (Forgets(w, step) && !step.LoadSettles?) || Loaded(w, step) then None
           else if step.Mutated? && Brought(w, step).Some? && UpToDate(p.run, step.run) && step.preflight.Some? then
             step.preflight
           else p.preflight)
  }

  lemma TakesKeepRest(p: Panel, history: Option<History>, evidence: Read<Option<Recovery>>, number: nat)
    ensures var q := if history.Some? then WithHistory(p, history.value, number) else p;
            var r := WithEvidence(q, evidence, number);
            && r.session == p.session && r.selected == p.selected && r.loading == p.loading && r.message == p.message
            && r.plan == p.plan && r.planError == p.planError && r.preflight == p.preflight
            && r.evidence
               == match evidence
                  case Failed(failure) => if p.evidence == ReadOnce then ReadOnce else Unavailable(failure.message)
                  case Got(_) => if number > p.recoveryFrom then ReadOnce else p.evidence
  {
  }

  lemma LoadWrites(w: World, step: Step)
    requires step.LoadAnswers? && step.f.LoadRead?
    ensures Writes(w, step, LandLoad(w.panel, step.f, step.detail, step.history, step.evidence).0)
  {
    hide WithHistory, WithEvidence, UpToDate, Accepts;
    if step.detail.Got? && step.history.Got? {
      var q := WithRun(w.panel, step.detail.value.run).(plan := Some(step.detail.value.plan), preflight := None);
      TakesKeepRest(q, Some(step.history.value), step.evidence, step.f.number);
    }
  }

  lemma RefreshWrites(w: World, step: Step)
    requires step.RefreshAnswers? && step.f.DetailRead?
    ensures Writes(w, step, LandRefresh(w.panel, step.f, step.history, step.evidence))
  {
    hide WithHistory, WithEvidence, UpToDate, Brought;
    TakesKeepRest(w.panel, if step.history.Got? then Some(step.history.value) else None, step.evidence, step.f.number);
  }

  lemma StatusWrites(w: World, step: Step)
    requires step.StatusAnswers? && step.f.StatusRead?
    ensures Writes(w, step, LandStatus(w.panel, step.f, step.f.turn != w.turn, step.answer).0)
  {
    hide UpToDate, Brought, HasMoved, Accepts;
  }

  lemma MutationWrites(w: World, step: Step)
    requires step.Mutated? && Owned(w.panel)
    ensures Writes(w, step, RunUpdated(w.panel, step.run, step.preflight).0)
  {
    hide Accepts, UpToDate, Owned, WithRun;
    AcceptsWhen(w.panel, step.run);
    RunLeaves(w.panel, step.run);
  }

  lemma AcceptsWhen(p: Panel, run: Projection)
    requires Owned(p)
    ensures Accepts(p, run) <==> p.selected == Some(run.key) && UpToDate(p.run, run)
  {
  }

  lemma RunLeaves(p: Panel, run: Projection)
    ensures WithRun(p, run) == p.(run := WithRun(p, run).run)
  {
  }

  lemma OtherWrites(w: World, step: Step)
    requires Enabled(w, step)
    requires !step.LoadAnswers? && !step.RefreshAnswers? && !step.StatusAnswers? && !step.Mutated?
    ensures Writes(w, step, Next(w, step).0)
  {
    hide LandLoad, LandRefresh, LandStatus, RunUpdated, Brought, UpToDate;
  }

  /**
   What every step leaves of session, selection, plan, preflight, evidence, loading and messages, read off the step and
   what was in flight.
   */
  lemma StepWrites(w: World, step: Step)
    requires Enabled(w, step) && Kept(w)
    ensures Writes(w, step, Take(w, step).panel)
  {
    hide LandLoad, LandRefresh, LandStatus, RunUpdated, SettleLoad, BeginLoad, Captured, Numbered, Unread, ShowsNewest,
        Timelines, Proofs, About, Writes, Owned;
    match step {
      case LoadAnswers(_, _, _, _) => LoadWrites(w, step);
      case RefreshAnswers(_, _, _) => RefreshWrites(w, step);
      case StatusAnswers(_, _) => StatusWrites(w, step);
      case Mutated(_, _) => MutationWrites(w, step);
      case _ => OtherWrites(w, step);
    }
  }

  /** What a load that is in has to settle: the first of its failures, unless it was superseded or ended the session. */
  function Outcome(w: World, step: Step): Option<Failure>
    requires step.LoadAnswers?
  {
    if step.f.generation != w.panel.generation || Forgets(w, step) then None
    else if step.detail.Failed? then Some(step.detail.failure)
    else if step.history.Failed? then Some(step.history.failure)
    else None
  }

  /**
   A load that is in settles once more, and a failure of its plan or timeline is then said of its run; that of
   the plan where both failed.
   */
  lemma LoadFailureIsSaid(w: World, step: Step)
    requires Enabled(w, step) && step.LoadAnswers? && Outcome(w, step).Some?
    ensures var t := Take(w, step); var failure := Outcome(w, step).value;
            var settle := LoadSettles(LoadEnd(step.f.key, step.f.generation, Some(failure)));
            && Enabled(t, settle)
            && var q := Take(t, settle).panel;
               if failure.status == 404 then q.message == NoSuchRun(step.f.key) && q.run == None && q.plan == None
               else q.message == Unreadable(step.f.key, failure.message) && q.planError == Some(failure.message)
                    && q.run == w.panel.run && q.plan == w.panel.plan && q.history == w.panel.history
  {
    hide Timelines, Proofs, About, WithRun, WithHistory, WithEvidence;
  }

  /** A load that is in sends nothing but its own end. */
  lemma LoadEnds(w: World, step: Step)
    requires Enabled(w, step) && step.LoadAnswers?
    ensures Next(w, step).1 == multiset{LoadEnd(step.f.key, step.f.generation, Outcome(w, step))}
  {
    hide About, WithRun, WithHistory, WithEvidence;
  }
}
