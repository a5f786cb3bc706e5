/**
 What the selection protocol promises: a late answer writes nothing, the run never
 goes back, and what is shown does not depend on the order in which reads land.
 */
module SelectionOrder {
  import opened Wrappers
  import opened SelectionProtocol
  import opened SelectionRuns

  function Run(steps: seq<Step>): World { RunFrom(INITIALLY, steps) }

  lemma Reachable(steps: seq<Step>)
    ensures Kept(Run(steps))
  {
    hide Kept;
    InitiallyKept();
    RunKeeps(INITIALLY, steps);
  }

  /** In every run: what is held is the selected run's, and so is what is in flight under the current generation. */
  lemma HeldIsSelected(steps: seq<Step>)
    ensures var p := Run(steps).panel;
            && (p.run.Some? ==> p.selected == Some(p.run.value.key))
            && (p.plan.Some? ==> p.selected == Some(p.plan.value.of))
            && (p.history.Some? ==> p.selected == Some(p.history.value.of))
            && (p.recovery.Some? ==> p.selected == Some(p.recovery.value.of))
            && (p.preflight.Some? ==> p.selected == Some(p.preflight.value.of))
    ensures forall f :: f in Run(steps).flights && f.generation == Run(steps).panel.generation
                        ==> Run(steps).panel.selected == Some(f.key)
  {
    Reachable(steps);
  }

  // ----- a superseded read writes nothing

  predicate Supersedes(step: Step) { step.Load? || step.Clear? || step.End? }

  lemma {:induction false} GenerationGrows(w: World, steps: seq<Step>)
    requires Kept(w)
    ensures RunFrom(w, steps).panel.generation >= w.panel.generation
    ensures (exists s :: s in steps && Supersedes(s)) ==> RunFrom(w, steps).panel.generation > w.panel.generation
  {
    hide Kept, Next;
    if steps != [] {
      var front, step := steps[..|steps| - 1], steps[|steps| - 1];
      GenerationGrows(w, front);
      RunKeeps(w, front);
      var u := RunFrom(w, front);
      assert steps == front + [step];
      if Enabled(u, step) {
        GenerationMoves(u, step);
      }
    }
  }

  lemma GenerationMoves(w: World, step: Step)
    requires Enabled(w, step) && Kept(w)
    ensures Take(w, step).panel.generation >= w.panel.generation
    ensures Supersedes(step) ==> Take(w, step).panel.generation > w.panel.generation
  {
    hide Captured, Numbered, Unread, ShowsNewest, Owned, LandLoad, LandRefresh, SettleLoad, LandStatus, RunUpdated,
        Reread, About;
    TakeOwns(w, step);
  }

  /** A read whose generation has passed changes nothing when it lands or settles, then or later. */
  lemma PassedWritesNothing(w: World, after: seq<Step>, answer: Step)
    requires answer.LoadAnswers? || answer.LoadSettles? || answer.RefreshAnswers?
    requires Kept(w) && Enabled(RunFrom(w, after), answer)
    requires answer.f.generation < w.panel.generation
    ensures var u := RunFrom(w, after);
            Take(u, answer).panel == if answer.LoadSettles? then u.panel.(loading := false) else u.panel
  {
    hide Kept, Timelines, Proofs;
    GenerationGrows(w, after);
  }

  /**
   Nothing that was asked for before the selection moved on, or the session ended, writes
   anything after it; nor does a load settle anything whose answers came in only after it.
   */
  lemma SupersededWritesNothing(before: seq<Step>, after: seq<Step>, answer: Step)
    requires answer.LoadAnswers? || answer.LoadSettles? || answer.RefreshAnswers?
    requires answer.f.generation <= Run(before).panel.generation && exists s :: s in after && Supersedes(s)
    requires Enabled(RunFrom(Run(before), after), answer)
    ensures var w := RunFrom(Run(before), after);
            Take(w, answer).panel == if answer.LoadSettles? then w.panel.(loading := false) else w.panel
  {
    hide Kept, Timelines, Proofs;
    Reachable(before);
    GenerationGrows(Run(before), after);
  }

  /** What is in flight was asked for under the current generation or an earlier one. */
  lemma FlightsAreOld(w: World, f: Flight)
    requires Kept(w) && f in w.flights
    ensures f.generation <= w.panel.generation
  {
  }

  // ----- the held run never goes back

  predicate Climbs(p: Panel, q: Panel) {
    p.run.Some? && q.run.Some? ==> q.run.value.key == p.run.value.key && q.run.value.revision >= p.run.value.revision
  }

  lemma TakeClimbs(w: World, step: Step)
    requires Enabled(w, step)
    ensures Climbs(w.panel, Take(w, step).panel)
  {
    hide About, Timelines, Proofs, Drops, LandLoad, LandRefresh, LandStatus, RunUpdated, SettleLoad, BeginLoad, Climbs;
    var p := w.panel;
    match step {
      case Load(key) => LoadStartClimbs(p, key);
      case LoadSettles(f) => SettleClimbs(p, f);
      case LoadAnswers(f, detail, history, evidence) => LoadClimbs(p, f, detail, history, evidence);
      case RefreshAnswers(f, history, evidence) => RefreshClimbs(p, f, history, evidence);
      case StatusAnswers(f, answer) => StatusClimbs(p, f, f.turn != w.turn, answer);
      case Mutated(run, preflight) => UpdateClimbs(p, run, preflight);
      case _ => OtherClimbs(w, step);
    }
  }

  lemma LoadStartClimbs(p: Panel, key: Key)
    ensures Climbs(p, BeginLoad(p, key))
  {
  }

  lemma SettleClimbs(p: Panel, f: Flight)
    requires f.LoadEnd?
    ensures Climbs(p, SettleLoad(p, f))
  {
  }

  lemma OtherClimbs(w: World, step: Step)
    requires step.SignIn? || step.Refresh? || step.Tick? || step.PollStops? || step.RereadEvidence? || step.Clear?
        || step.End?
    requires Enabled(w, step)
    ensures Climbs(w.panel, Next(w, step).0)
  {
    hide About, LandLoad, LandRefresh, LandStatus, RunUpdated, SettleLoad, BeginLoad;
  }

  lemma LoadClimbs(p: Panel, f: Flight, detail: Read<Detail>, history: Read<History>, evidence: Read<Option<Recovery>>)
    requires f.LoadRead?
    ensures Climbs(p, LandLoad(p, f, detail, history, evidence).0)
  {
    hide WithRun, WithHistory, WithEvidence;
    if detail.Got? && history.Got? {
      assert Climbs(p, WithRun(p, detail.value.run)) by { AcceptedClimbs(p, detail.value.run); }
      var q := WithRun(p, detail.value.run).(plan := Some(detail.value.plan), preflight := None);
      TakesKeepRun(q, Some(history.value), evidence, f.number);
    }
  }

  lemma RefreshClimbs(p: Panel, f: Flight, history: Read<History>, evidence: Read<Option<Recovery>>)
    requires f.DetailRead?
    ensures Climbs(p, LandRefresh(p, f, history, evidence))
  {
    hide WithHistory, WithEvidence;
    TakesKeepRun(p, if history.Got? then Some(history.value) else None, evidence, f.number);
  }

  lemma TakesKeepRun(p: Panel, history: Option<History>, evidence: Read<Option<Recovery>>, number: nat)
    ensures var q := if history.Some? then WithHistory(p, history.value, number) else p;
            WithEvidence(q, evidence, number).run == p.run
  {
    var q := if history.Some? then WithHistory(p, history.value, number) else p;
    assert q.run == p.run;
  }

  lemma AcceptedClimbs(p: Panel, run: SelectionProtocol.Run)
    ensures Climbs(p, WithRun(p, run))
  {
  }

  lemma StatusClimbs(p: Panel, f: Flight, stale: bool, answer: Read<SelectionProtocol.Run>)
    requires f.StatusRead?
    ensures Climbs(p, LandStatus(p, f, stale, answer).0)
  {
    hide WithRun, HasMoved;
    if answer.Got? {
      AcceptedClimbs(p, answer.value);
    }
  }

  lemma UpdateClimbs(p: Panel, run: SelectionProtocol.Run, preflight: Option<Preflight>)
    ensures Climbs(p, RunUpdated(p, run, preflight).0)
  {
    hide WithRun;
    AcceptedClimbs(p, run);
  }

  /** While a run stays on screen its revision never decreases, whatever lands and in whatever order. */
  lemma {:induction false} RevisionsClimb(steps: seq<Step>, i: nat, j: nat)
    requires i <= j <= |steps|
    requires forall k :: i <= k <= j ==> Run(steps[..k]).panel.run.Some?
    ensures Climbs(Run(steps[..i]).panel, Run(steps[..j]).panel)
    decreases j
  {
    hide Take, Enabled;
    if i < j {
      RevisionsClimb(steps, i, j - 1);
      var w := Run(steps[..j - 1]);
      assert steps[..j][..j - 1] == steps[..j - 1];
      if Enabled(w, steps[j - 1]) {
        TakeClimbs(w, steps[j - 1]);
      }
    }
  }

  // ----- the newest read is what is shown

  /** Unless a load was told its run does not exist, the panel shows the highest-numbered reads that answered for it. */
  lemma NewestIsShown(steps: seq<Step>)
    requires !Run(steps).gone
    ensures var w := Run(steps);
            && (w.timelines == map[] <==> w.panel.history == None)
            && (w.timelines != map[] ==>
                  w.panel.historyFrom in w.timelines && w.panel.history == Some(w.timelines[w.panel.historyFrom])
                  && forall n :: n in w.timelines ==> n <= w.panel.historyFrom)
            && (w.proofs != map[] <==> w.panel.evidence == ReadOnce)
            && (w.proofs == map[] ==> w.panel.recovery == None)
            && (w.proofs != map[] ==>
                  w.panel.recoveryFrom in w.proofs && w.panel.recovery == w.proofs[w.panel.recoveryFrom]
                  && forall n :: n in w.proofs ==> n <= w.panel.recoveryFrom)
  {
    hide Owned, Captured, Numbered, Unread;
    Reachable(steps);
  }

  /** No failed read undoes what was read: only a drop, a not-found load or a newer proof does. */
  lemma OnceReadStaysRead(w: World, step: Step)
    requires Enabled(w, step) && w.panel.evidence == ReadOnce
    requires !Drops(w.panel, step, Next(w, step).0) && !GoesMissing(w.panel, step)
    ensures var p, q := w.panel, Take(w, step).panel;
            && q.evidence == ReadOnce && q.recoveryFrom >= p.recoveryFrom
            && (q.recovery != p.recovery ==>
                Lands(p, step) && step.evidence == Got(q.recovery) && q.recoveryFrom == step.f.number)
  {
    hide Enabled, Next, Drops, GoesMissing;
    StepReads(w, step);
    if Lands(w.panel, step) {
      LandingFlies(w, step);
    }
  }

  // ----- the order of arrival is irrelevant

  /** Answers that are in for one selection: loads and refreshes of the current generation, no ended session. */
  predicate Arrival(w: World, step: Step) {
    && (step.LoadAnswers? || step.RefreshAnswers?) && Enabled(w, step)
    && step.f.generation == w.panel.generation
    && !EndsSession(step.history) && !EndsSession(step.evidence) && (step.LoadAnswers? ==> !EndsSession(step.detail))
  }

  ghost predicate Arrivals(w: World, steps: seq<Step>) {
    && (forall i :: 0 <= i < |steps| ==> Arrival(w, steps[i]))
    && (forall i, j :: 0 <= i < j < |steps| ==> steps[i].f != steps[j].f)
  }

  predicate Answers(step: Step) { step.LoadAnswers? || step.RefreshAnswers? }

  predicate BringsTimeline(step: Step) {
    Answers(step) && step.f.Numbered() && step.history.Got? && (step.LoadAnswers? ==> step.detail.Got?)
  }

  predicate BringsProof(step: Step) {
    Answers(step) && step.f.Numbered() && step.evidence.Got?
        && (step.LoadAnswers? ==> step.detail.Got? && step.history.Got?)
  }

  /** The world after one arrival: the same selection, and one request fewer. */
  lemma OneLands(w: World, step: Step)
    requires Kept(w) && Arrival(w, step)
    ensures var t := Take(w, step);
            && t.panel.generation == w.panel.generation && t.panel.selected == w.panel.selected && t.gone == w.gone
            && t.timelines
                == (if BringsTimeline(step) then w.timelines[step.f.number := step.history.value] else w.timelines)
            && t.proofs == (if BringsProof(step) then w.proofs[step.f.number := step.evidence.value] else w.proofs)
            && (forall f :: f in w.flights && f != step.f ==> f in t.flights)
  {
    hide Kept, LandLoad, LandRefresh, About;
    FlightIsSelected(w, step.f);
    TakesLeave(w.panel, step);
  }

  lemma FlightIsSelected(w: World, f: Flight)
    requires Kept(w) && f in w.flights && f.generation == w.panel.generation
    ensures w.panel.selected == Some(f.key)
  {
  }

  lemma TakesLeave(p: Panel, step: Step)
    requires Answers(step) && step.f.generation == p.generation && p.selected == Some(step.f.key)
    requires !EndsSession(step.history) && !EndsSession(step.evidence)
        && (step.LoadAnswers? ==> !EndsSession(step.detail))
    requires if step.LoadAnswers? then step.f.LoadRead? else step.f.DetailRead?
    ensures var q := if step.LoadAnswers? then LandLoad(p, step.f, step.detail, step.history, step.evidence).0
                     else LandRefresh(p, step.f, step.history, step.evidence);
            q.generation == p.generation && q.selected == p.selected
  {
    hide Accepts;
  }

  lemma {:induction false} TheyLand(w: World, steps: seq<Step>)
    requires Kept(w) && Arrivals(w, steps)
    ensures var t := RunFrom(w, steps);
            && Kept(t) && t.panel.generation == w.panel.generation && t.panel.selected == w.panel.selected
                && t.gone == w.gone
            && (forall f :: f in w.flights && (forall s :: s in steps ==> s.f != f) ==> f in t.flights)
            && (forall n :: n in w.timelines ==> n in t.timelines && t.timelines[n] == w.timelines[n])
            && (forall n :: n in w.proofs ==> n in t.proofs && t.proofs[n] == w.proofs[n])
            && (forall s :: s in steps && BringsTimeline(s) ==>
                  s.f.number in t.timelines && t.timelines[s.f.number] == s.history.value)
            && (forall s :: s in steps && BringsProof(s) ==>
                  s.f.number in t.proofs && t.proofs[s.f.number] == s.evidence.value)
            && (forall n :: n in t.timelines <==>
                  n in w.timelines || exists s :: s in steps && BringsTimeline(s) && s.f.number == n)
            && (forall n :: n in t.proofs <==>
                  n in w.proofs || exists s :: s in steps && BringsProof(s) && s.f.number == n)
  {
    hide Take, Enabled, Kept, BringsTimeline, BringsProof;
    RunKeeps(w, steps);
    if steps != [] {
      var front, step := steps[..|steps| - 1], steps[|steps| - 1];
      TheyLand(w, front);
      var u := RunFrom(w, front);
      assert steps == front + [step];
      NumbersDiffer(w, steps);
      StillArrives(w, u, step);
      OneLands(u, step);
    }
  }

  lemma NumbersDiffer(w: World, steps: seq<Step>)
    requires Kept(w) && Arrivals(w, steps)
    ensures forall s :: s in steps ==> s.f in w.flights && s.f.number !in w.timelines && s.f.number !in w.proofs
    ensures |steps| > 0 ==> forall s :: s in steps[..|steps| - 1] ==>
              s.f != steps[|steps| - 1].f && s.f.number != steps[|steps| - 1].f.number
  {
    hide Owned, Captured, ShowsNewest;
  }

  lemma StillArrives(w: World, u: World, step: Step)
    requires Arrival(w, step) && step.f in u.flights && u.panel.generation == w.panel.generation
    ensures Arrival(u, step)
  {
  }

  /** The records after a set of arrivals, in whatever order they came. */
  lemma SameRecords(w: World, xs: seq<Step>, ys: seq<Step>)
    requires Kept(w) && Arrivals(w, xs) && Arrivals(w, ys) && (forall s :: s in xs <==> s in ys)
    ensures RunFrom(w, xs).timelines == RunFrom(w, ys).timelines && RunFrom(w, xs).proofs == RunFrom(w, ys).proofs
  {
    hide Kept, Arrivals, BringsTimeline, BringsProof, RunFrom;
    TheyLand(w, xs);
    TheyLand(w, ys);
    var t, u := RunFrom(w, xs), RunFrom(w, ys);
    assert forall n :: n in t.timelines <==> n in u.timelines;
    assert forall n :: n in t.proofs <==> n in u.proofs;
    assert forall n :: n in t.timelines ==> t.timelines[n] == u.timelines[n];
    assert forall n :: n in t.proofs ==> t.proofs[n] == u.proofs[n];
  }

  lemma NewestIsOne<T>(landed: map<nat, T>, from: nat, held: Option<T>, from': nat, held': Option<T>)
    requires Newest(landed, from, held) && Newest(landed, from', held')
    ensures held == held'
  {
  }

  /** Any two orders in which the same answers arrive end with the same timeline and the same evidence. */
  lemma OrderIrrelevant(before: seq<Step>, xs: seq<Step>, ys: seq<Step>)
    requires !Run(before).gone && Arrivals(Run(before), xs) && Arrivals(Run(before), ys) && multiset(xs) == multiset(ys)
    ensures var p, q := RunFrom(Run(before), xs).panel, RunFrom(Run(before), ys).panel;
            && p.history == q.history && p.recovery == q.recovery
            && (p.evidence == ReadOnce <==> q.evidence == ReadOnce)
  {
    hide Arrivals, Owned, Captured, Numbered, Unread, RunFrom, Newest;
    var w := Run(before);
    Reachable(before);
    assert forall s :: s in xs <==> s in multiset(xs);
    assert forall s :: s in ys <==> s in multiset(ys);
    SameRecords(w, xs, ys);
    TheyLand(w, xs);
    TheyLand(w, ys);
    var t, u := RunFrom(w, xs), RunFrom(w, ys);
    NewestIsOne(t.timelines, t.panel.historyFrom, t.panel.history, u.panel.historyFrom, u.panel.history);
    NewestIsOne(t.proofs, t.panel.recoveryFrom, Proof(t.panel), u.panel.recoveryFrom, Proof(u.panel));
    assert Proof(t.panel) == Proof(u.panel);
    NoProofShown(t);
    NoProofShown(u);
  }

  lemma NoProofShown(w: World)
    requires ShowsNewest(w) && !w.gone
    ensures Proof(w.panel) == None ==> w.panel.recovery == None
  {
  }

  /** From a selection with nothing read yet, what is shown is the read with the highest number that answered. */
  lemma HighestWins(before: seq<Step>, xs: seq<Step>, s: Step)
    requires !Run(before).gone && Run(before).timelines == map[] && Arrivals(Run(before), xs)
    requires s in xs && BringsTimeline(s)
    requires forall o :: o in xs && BringsTimeline(o) ==> o.f.number <= s.f.number
    ensures RunFrom(Run(before), xs).panel.history == Some(s.history.value)
  {
    hide Arrivals, Owned, Captured, Numbered, Unread, RunFrom, BringsTimeline, BringsProof;
    Reachable(before);
    TheyLand(Run(before), xs);
    var t := RunFrom(Run(before), xs);
    assert t.panel.historyFrom in t.timelines;
  }

  /** And the evidence is that of the read with the highest number whose evidence answered. */
  lemma HighestProofWins(before: seq<Step>, xs: seq<Step>, s: Step)
    requires !Run(before).gone && Run(before).proofs == map[] && Arrivals(Run(before), xs)
    requires s in xs && BringsProof(s)
    requires forall o :: o in xs && BringsProof(o) ==> o.f.number <= s.f.number
    ensures var p := RunFrom(Run(before), xs).panel; p.evidence == ReadOnce && p.recovery == s.evidence.value
  {
    hide Arrivals, Owned, Captured, Numbered, Unread, RunFrom, BringsTimeline, BringsProof;
    Reachable(before);
    TheyLand(Run(before), xs);
    var t := RunFrom(Run(before), xs);
    assert t.panel.recoveryFrom in t.proofs;
  }

  // ----- a run that does not exist

  /** What a list of answers brings, each with its request's number. */
  function TimelinesOf(steps: seq<Step>): seq<(nat, History)> {
    if steps == [] then []
    else
      var last := steps[|steps| - 1];
      TimelinesOf(steps[..|steps| - 1]) + if BringsTimeline(last) then [(last.f.number, last.history.value)] else []
  }

  function ProofsOf(steps: seq<Step>): seq<(nat, Option<Recovery>)> {
    if steps == [] then []
    else
      var last := steps[|steps| - 1];
      ProofsOf(steps[..|steps| - 1]) + if BringsProof(last) then [(last.f.number, last.evidence.value)] else []
  }

  predicate Newer<T(==)>(brought: seq<(nat, T)>, from: nat) { exists b :: b in brought && b.0 > from }

  /** Held is the highest-numbered of what was brought beyond `from`; nothing where none is beyond it. */
  ghost predicate Highest<T>(brought: seq<(nat, T)>, from: nat, now: nat, held: Option<T>) {
    if Newer(brought, from) then
      now > from && held.Some? && (now, held.value) in brought && forall b :: b in brought ==> b.0 <= now
    else now == from && held == None
  }

  lemma HighestAdds<T>(brought: seq<(nat, T)>, from: nat, now: nat, held: Option<T>, b: (nat, T))
    requires Highest(brought, from, now, held)
    ensures Highest(brought + [b], from, if now < b.0 then b.0 else now, if now < b.0 then Some(b.1) else held)
  {
    assert b in brought + [b];
    assert forall c :: c in brought + [b] <==> c in brought || c == b;
  }

  /** From nothing held, what a list of answers leaves on the panel. */
  lemma {:induction false} ShownSince(w: World, steps: seq<Step>)
    requires Kept(w) && Arrivals(w, steps)
    requires w.panel.history == None && w.panel.evidence != ReadOnce && w.panel.recovery == None
    ensures var p, q := w.panel, RunFrom(w, steps).panel;
            && Highest(TimelinesOf(steps), p.historyFrom, q.historyFrom, q.history)
            && Highest(ProofsOf(steps), p.recoveryFrom, q.recoveryFrom, Proof(q))
            && (q.evidence != ReadOnce ==> q.recovery == None)
  {
    hide Take, Enabled, Kept, Highest;
    if steps == [] {
      NothingHighest<History>(w.panel.historyFrom);
      NothingHighest<Option<Recovery>>(w.panel.recoveryFrom);
    } else {
      var front, step := steps[..|steps| - 1], steps[|steps| - 1];
      ShownSince(w, front);
      TheyLand(w, front);
      var u := RunFrom(w, front);
      assert steps == front + [step];
      NumbersDiffer(w, steps);
      StillArrives(w, u, step);
      OneShows(u, step);
      if BringsTimeline(step) {
        HighestAdds(TimelinesOf(front), w.panel.historyFrom, u.panel.historyFrom, u.panel.history,
                    (step.f.number, step.history.value));
      } else {
        assert TimelinesOf(steps) == TimelinesOf(front);
      }
      if BringsProof(step) {
        HighestAdds(ProofsOf(front), w.panel.recoveryFrom, u.panel.recoveryFrom, Proof(u.panel),
                    (step.f.number, step.evidence.value));
      } else {
        assert ProofsOf(steps) == ProofsOf(front);
      }
    }
  }

  lemma NothingHighest<T>(from: nat)
    ensures Highest<T>([], from, from, None)
  {
  }

  lemma OneShows(w: World, step: Step)
    requires Kept(w) && Arrival(w, step)
    ensures var p, q := w.panel, Take(w, step).panel;
            && (if BringsTimeline(step) && p.historyFrom < step.f.number
                then q.history == Some(step.history.value) && q.historyFrom == step.f.number
                else q.history == p.history && q.historyFrom == p.historyFrom)
            && (if BringsProof(step) && p.recoveryFrom < step.f.number
                then Proof(q) == Some(step.evidence.value) && q.recoveryFrom == step.f.number
                else Proof(q) == Proof(p) && q.recoveryFrom == p.recoveryFrom && q.recovery == p.recovery)
  {
    hide Owned, Captured, Numbered, Unread, ShowsNewest, Next, About;
    OneLands(w, step);
    StepReads(w, step);
    FlightIsSelected(w, step.f);
  }

  lemma Missed(w: World, miss: Step)
    requires Kept(w) && Enabled(w, miss) && GoesMissing(w.panel, miss)
    ensures var p, u := w.panel, Take(w, miss);
            && u.panel.history == None && u.panel.historyFrom == p.historyFrom
            && u.panel.evidence == Loading && u.panel.recovery == None && u.panel.recoveryFrom == p.recoveryFrom
            && u.panel.generation == p.generation
            && forall f :: f in w.flights && f != miss.f ==> f in u.flights
  {
    hide Owned, Captured, Numbered, Unread, ShowsNewest;
  }

  /**
   One answer does make the order matter: that the run does not exist. Coming last it
   leaves neither timeline nor evidence; coming first it leaves, of each, the newest of those
   that still arrive from beyond what had been taken before it, and nothing if there is none.
   */
  lemma MissingOrder(before: seq<Step>, miss: Step, xs: seq<Step>)
    requires var w := Run(before); Enabled(w, miss) && GoesMissing(w.panel, miss) && Arrivals(w, xs)
    ensures var w := Run(before);
            var late, early := RunFrom(w, xs + [miss]).panel, RunFrom(Take(w, miss), xs).panel;
            && late.history == None && late.evidence == Loading && late.recovery == None
            && Highest(TimelinesOf(xs), w.panel.historyFrom, early.historyFrom, early.history)
            && Highest(ProofsOf(xs), w.panel.recoveryFrom, early.recoveryFrom, Proof(early))
            && (early.history != late.history <==> Newer(TimelinesOf(xs), w.panel.historyFrom))
            && (early.evidence == ReadOnce <==> Newer(ProofsOf(xs), w.panel.recoveryFrom))
            && (early.evidence != ReadOnce ==> early.recovery == None)
  {
    hide Kept, Take, BringsTimeline, BringsProof, TimelinesOf, ProofsOf, Newer;
    var w := Run(before);
    Reachable(before);
    assert forall s :: s in xs ==> s.f != miss.f;
    Missed(w, miss);
    TakeKeeps(w, miss);
    forall s | s in xs ensures Arrival(Take(w, miss), s) {
      StillArrives(w, Take(w, miss), s);
    }
    ShownSince(Take(w, miss), xs);
    TheyLand(w, xs);
    var t := RunFrom(w, xs);
    assert (xs + [miss])[..|xs|] == xs;
    Missed(t, miss);
  }

  // ----- the status poll

  /**
   A status answer changes nothing exactly when its poll is not the last, or it failed short of a
   401 with what the panel already says, or it is of a run that is not selected, behind, or held as it is.
   A failure is not asked which run it was about.
   */
  lemma StatusWritesIff(p: Panel, f: Flight, stale: bool, answer: Read<SelectionProtocol.Run>)
    requires f.StatusRead?
    ensures LandStatus(p, f, stale, answer).0 == p
       <==> stale || (if answer.Failed? then answer.failure.status != 401 && answer.failure.message == p.message
                      else p.selected != Some(f.key) || !Accepts(p, answer.value) || p.run == Some(answer.value))
  {
    hide Accepts;
    if answer.Got? && WithRun(p, answer.value) != p {
      assert WithRun(p, answer.value).run != p.run;
    }
  }

  /** Selecting another run in a session, and one tick, put a status poll out. */
  lemma PollIsOut(w: World, key: Key)
    requires w.panel.session && w.panel.selected != Some(key)
    ensures var u := Try(Try(w, Load(key)), Tick);
            && StatusRead(key, w.panel.generation + 1, w.turn + 1) in u.flights
            && u.turn == w.turn + 1 && u.panel.selected == Some(key) && u.panel.generation == w.panel.generation + 1
  {
    var t := Take(w, Load(key));
    assert t.panel.run == None && t.panel.session && t.panel.selected == Some(key) && t.turn == w.turn;
    assert Next(t, Tick).1 == multiset{StatusRead(key, w.panel.generation + 1, w.turn + 1)};
  }

  /** A status request is still out after any step but its own answer, a tick or a stop of the poll. */
  lemma StaysOut(w: World, f: Flight, step: Step)
    requires f in w.flights && f.StatusRead? && (step.End? || step.Load?)
    ensures var t := Take(w, step);
            t.panel == Next(w, step).0 && t.turn == w.turn
                && Enabled(t, StatusAnswers(f, Failed(Failure(0, Silence)))) && f in t.flights
  {
    hide Timelines, Proofs, Drops, Dropped;
  }

  lemma StatusTurns(w: World, f: Flight, answer: Read<SelectionProtocol.Run>)
    requires f in w.flights && f.StatusRead?
    ensures Try(w, StatusAnswers(f, answer)).panel == LandStatus(w.panel, f, f.turn != w.turn, answer).0
  {
    hide Timelines, Proofs, Drops, LandStatus;
  }

  lemma LateStatus(u: World, f: Flight, why: Message, run: SelectionProtocol.Run)
    requires f in u.flights && f.StatusRead? && f.turn == u.turn && u.panel.selected == Some(f.key) && run.key == f.key
    ensures var p := Try(Try(u, End(why)), StatusAnswers(f, Got(run))).panel;
            !p.session && p.run == Some(run)
  {
    hide Take;
    StaysOut(u, f, End(why));
    StatusTurns(Take(u, End(why)), f, Got(run));
  }

  /** Still out when the session ends, it puts the run back on the signed-out panel. */
  lemma EndedSessionRefilled(w: World, key: Key, why: Message, run: SelectionProtocol.Run)
    requires w.panel.session && w.panel.selected != Some(key) && run.key == key
    ensures var ended := Try(Try(Try(w, Load(key)), Tick), End(why));
            var p := Try(ended, StatusAnswers(StatusRead(key, w.panel.generation + 1, w.turn + 1), Got(run))).panel;
            !p.session && p.run == Some(run)
  {
    hide *;
    PollIsOut(w, key);
    LateStatus(Try(Try(w, Load(key)), Tick), StatusRead(key, w.panel.generation + 1, w.turn + 1), why, run);
  }

  /** A poll of a run that has been left still speaks: its failure is put on the other run's panel. */
  lemma LeftPollSpeaks(w: World, key: Key, other: Key, failure: Failure)
    requires w.panel.session && w.panel.selected != Some(key) && key != other && failure.status != 401
    ensures var moved := Try(Try(Try(w, Load(key)), Tick), Load(other));
            var p := Try(moved,
                StatusAnswers(StatusRead(key, w.panel.generation + 1, w.turn + 1), Failed(failure))).panel;
            moved.panel.selected == Some(other) && p == moved.panel.(message := failure.message)
  {
    hide *;
    PollIsOut(w, key);
    LeftAndFailed(Try(Try(w, Load(key)), Tick), StatusRead(key, w.panel.generation + 1, w.turn + 1), other, failure);
  }

  /** And a 401 to it ends the session in which the other run is on screen. */
  lemma LeftPollEndsSession(w: World, key: Key, other: Key, failure: Failure)
    requires w.panel.session && w.panel.selected != Some(key) && key != other && failure.status == 401
    ensures var moved := Try(Try(Try(w, Load(key)), Tick), Load(other));
            var p := Try(moved,
                StatusAnswers(StatusRead(key, w.panel.generation + 1, w.turn + 1), Failed(failure))).panel;
            moved.panel.selected == Some(other) && p == Ended(moved.panel, SessionEnded)
  {
    hide *;
    PollIsOut(w, key);
    LeftAndFailed(Try(Try(w, Load(key)), Tick), StatusRead(key, w.panel.generation + 1, w.turn + 1), other, failure);
  }

  lemma LeftAndFailed(u: World, f: Flight, other: Key, failure: Failure)
    requires f in u.flights && f.StatusRead? && f.turn == u.turn
    ensures var moved := Try(u, Load(other));
            && moved.panel.selected == Some(other)
            && Try(moved, StatusAnswers(f, Failed(failure))).panel
               == if failure.status == 401 then Ended(moved.panel, SessionEnded)
                   else moved.panel.(message := failure.message)
  {
    hide Take, Dropped, Ended;
    StaysOut(u, f, Load(other));
    StatusTurns(Take(u, Load(other)), f, Failed(failure));
  }

  // ----- what a poll's own refresh can write

  /**
   A run that moved has its timeline and evidence read again. That read can write exactly when
   the poll was sent under the generation now current: landing at once it brings both in; sent
   under an earlier one it changes nothing, now or ever.
   */
  lemma ReconcilesIff(
    w: World, f: Flight, run: SelectionProtocol.Run, after: seq<Step>, history: Read<History>,
    evidence: Read<Option<Recovery>>
  )
    requires Kept(w) && Enabled(w, StatusAnswers(f, Got(run)))
    requires LandStatus(w.panel, f, f.turn != w.turn, Got(run)).1.Some?
    requires history.Got? && evidence.Got? && About(f.key, history, evidence)
    ensures var t := Take(w, StatusAnswers(f, Got(run)));
            var answer := RefreshAnswers(DetailRead(f.key, f.generation, NextNumber(w.panel)), history, evidence);
            && Enabled(t, answer)
            && (f.generation == w.panel.generation ==>
                  var p := Take(t, answer).panel;
                  p.history == Some(history.value) && p.evidence == ReadOnce && p.recovery == evidence.value)
            && (f.generation != w.panel.generation ==>
                  var u := RunFrom(t, after); Enabled(u, answer) ==> Take(u, answer).panel == u.panel)
  {
    hide Kept, WithRun, Timelines, Proofs, Owned, Captured, Unread, ShowsNewest;
    var t := Take(w, StatusAnswers(f, Got(run)));
    var answer := RefreshAnswers(DetailRead(f.key, f.generation, NextNumber(w.panel)), history, evidence);
    StatusStarts(w, f, run);
    TakeKeeps(w, StatusAnswers(f, Got(run)));
    if f.generation == w.panel.generation {
      assert Lands(t.panel, answer);
      StepReads(t, answer);
    } else {
      FlightsAreOld(w, f);
      if Enabled(RunFrom(t, after), answer) {
        PassedWritesNothing(t, after, answer);
      }
    }
  }

  lemma StatusStarts(w: World, f: Flight, run: SelectionProtocol.Run)
    requires Kept(w) && Enabled(w, StatusAnswers(f, Got(run)))
    requires LandStatus(w.panel, f, f.turn != w.turn, Got(run)).1.Some?
    ensures var t := Take(w, StatusAnswers(f, Got(run)));
        var read := DetailRead(f.key, f.generation, NextNumber(w.panel));
            && read in t.flights && t.panel.generation == w.panel.generation && t.panel.selected == Some(f.key)
            && t.panel.historyFrom < read.number && t.panel.recoveryFrom < read.number
  {
    hide Owned, Captured, Unread, ShowsNewest, Timelines, Proofs;
  }

  /** A second load of the same run is enough: the poll still out starts a refresh that writes nothing. */
  lemma ReloadOutrunsPoll(w: World, key: Key, run: SelectionProtocol.Run)
    requires w.panel.session && w.panel.selected != Some(key) && run.key == key
    ensures var u := Try(Try(Try(w, Load(key)), Tick), Load(key));
            var f := StatusRead(key, w.panel.generation + 1, w.turn + 1);
            && Enabled(u, StatusAnswers(f, Got(run))) && f.generation != u.panel.generation
            && LandStatus(u.panel, f, f.turn != u.turn, Got(run)).1.Some?
  {
    hide *;
    PollIsOut(w, key);
    PolledRunIsNew(w, key);
    SecondLoad(Try(Try(w, Load(key)), Tick), key, run);
  }

  lemma PolledRunIsNew(w: World, key: Key)
    requires w.panel.selected != Some(key)
    ensures Try(Try(w, Load(key)), Tick).panel.run == None
  {
    hide Timelines, Proofs, Drops, Polls;
    var t := Take(w, Load(key));
    assert t.panel.run == None;
    assert Take(t, Tick).panel == t.panel;
  }

  lemma SecondLoad(u: World, key: Key, run: SelectionProtocol.Run)
    requires u.panel.selected == Some(key) && u.panel.run == None && run.key == key
    requires StatusRead(key, u.panel.generation, u.turn) in u.flights
    ensures var v := Try(u, Load(key)); var f := StatusRead(key, u.panel.generation, u.turn);
            && Enabled(v, StatusAnswers(f, Got(run))) && f.generation != v.panel.generation
            && LandStatus(v.panel, f, f.turn != v.turn, Got(run)).1.Some?
  {
    hide Timelines, Proofs, Drops;
    var v := Take(u, Load(key));
    assert v.panel.run == None && v.panel.selected == Some(key) && v.turn == u.turn;
  }
}
