/**
 One controller's polling: its clock, its numbered runs, and the cancellation of
 whatever a newer run supersedes.
 */
module Polling {
  import opened Wrappers

  /**
   `turn` is the number of the newest run or stop; `signals` holds, of every run
   ever started, whether its signal has been aborted; `hidden` is the tab's.
   */
  datatype Poll = Poll(
    timer: bool, abort: Option<nat>, turn: nat, started: bool, hidden: bool, signals: map<nat, bool>)

  const FRESH := Poll(false, None, 0, false, false, map[])

  predicate Stale(p: Poll, run: nat) { run != p.turn }

  function Aborted(p: Poll): Poll {
    if p.abort.Some? then p.(signals := p.signals[p.abort.value := true]) else p
  }

  /** A new run is numbered, and the one before it cancelled. */
  function Ticked(p: Poll): Poll {
    var run := p.turn + 1;
    Aborted(p).(turn := run, abort := Some(run), signals := Aborted(p).signals[run := false])
  }

  function Refreshed(p: Poll): Poll { if p.hidden then Ticked(p) else Ticked(p).(timer := true) }

  function Begun(p: Poll): Poll { if p.started then p else Refreshed(p.(started := true)) }

  function Stopped(p: Poll): Poll {
    if !p.started then p else Aborted(p).(started := false, timer := false, turn := p.turn + 1, abort := None)
  }

  function Shown(p: Poll, hidden: bool): Poll {
    var q := p.(hidden := hidden);
    if !p.started then q else if hidden then q.(timer := false) else Refreshed(q)
  }

  class PollController {
    var timer: bool
    var abort: Option<nat>
    var turn: nat
    var started: bool
    var hidden: bool
    var signals: map<nat, bool>

    ghost function View(): Poll
      reads this
    {
      Poll(timer, abort, turn, started, hidden, signals)
    }

    constructor ()
      ensures View() == FRESH
    {
      timer, abort, turn, started, hidden, signals := false, None, 0, false, false, map[];
    }

    method Start()
      modifies this
      ensures View() == Begun(old(View()))
    {
      if started { return; }
      started := true;
      Refresh();
    }

    method Refresh()
      modifies this
      ensures View() == Refreshed(old(View()))
    {
      Tick();
      if !hidden {
        Arm();
      }
    }

    method Stop()
      modifies this
      ensures View() == Stopped(old(View()))
    {
      if !started { return; }
      started := false;
      Disarm();
      turn := turn + 1;
      if abort.Some? {
        signals := signals[abort.value := true];
      }
      abort := None;
    }

    method OnVisibility(nowHidden: bool)
      modifies this
      ensures View() == Shown(old(View()), nowHidden)
    {
      hidden := nowHidden;
      if !started { return; }
      if hidden {
        Disarm();
        return;
      }
      Refresh();
    }

    method Tick()
      modifies this
      ensures View() == Ticked(old(View()))
    {
      turn := turn + 1;
      if abort.Some? {
        signals := signals[abort.value := true];
      }
      abort := Some(turn);
      signals := signals[turn := false];
    }

    method Arm()
      modifies this
      ensures View() == old(View()).(timer := true)
    {
      Disarm();
      timer := true;
    }

    method Disarm()
      modifies this
      ensures View() == old(View()).(timer := false)
    {
      timer := false;
    }
  }

  // ----- every interleaving

  datatype Step = Start | Refresh | Stop | Visibility(hidden: bool) | Timer

  /** A page refreshes while it is connected; a timer fires while there is one. */
  predicate Enabled(p: Poll, step: Step) {
    match step
    case Refresh => p.started
    case Timer => p.timer
    case _ => true
  }

  function Next(p: Poll, step: Step): Poll {
    match step
    case Start => Begun(p)
    case Refresh => Refreshed(p)
    case Stop => Stopped(p)
    case Visibility(hidden) => Shown(p, hidden)
    case Timer => Ticked(p)
  }

  /** A step that is not possible is skipped. */
  function RunFrom(p: Poll, steps: seq<Step>): Poll {
    if steps == [] then p
    else
      var q, step := RunFrom(p, steps[..|steps| - 1]), steps[|steps| - 1];
      if Enabled(q, step) then Next(q, step) else q
  }

  function Run(steps: seq<Step>): Poll { RunFrom(FRESH, steps) }

  /** Every run but the newest is stale and cancelled; the newest is neither, while polling goes on. */
  ghost predicate Superseded(p: Poll) {
    && (forall run :: run in p.signals ==> run <= p.turn && (Stale(p, run) <==> p.signals[run]))
    && (p.started <==> p.turn in p.signals)
    && p.abort == (if p.started then Some(p.turn) else None)
  }

  predicate Clocked(p: Poll) { p.timer <==> p.started && !p.hidden }

  lemma NextKeeps(p: Poll, step: Step)
    requires Enabled(p, step) && Superseded(p) && Clocked(p)
    ensures Superseded(Next(p, step)) && Clocked(Next(p, step))
  {
  }

  /**
   In every interleaving only the newest run is live, every other is stale and aborted, and the clock runs
   exactly while it should.
   */
  lemma {:induction false} OnlyTheNewestIsLive(steps: seq<Step>)
    ensures Superseded(Run(steps)) && Clocked(Run(steps))
  {
    if steps != [] {
      var p, step := Run(steps[..|steps| - 1]), steps[|steps| - 1];
      OnlyTheNewestIsLive(steps[..|steps| - 1]);
      if Enabled(p, step) {
        NextKeeps(p, step);
      }
    }
  }

  /**
   What a refresh keeps. The clock stays right exactly when the controller is started or the
   tab is hidden; that only the newest run of a started controller is live, exactly when it is started.
   */
  lemma RefreshKeepsIff(p: Poll)
    requires Superseded(p) && Clocked(p)
    ensures Clocked(Refreshed(p)) <==> p.started || p.hidden
    ensures Superseded(Refreshed(p)) <==> p.started
  {
    if !p.started {
      assert p.turn + 1 in Refreshed(p).signals;
    }
  }

  /** A stopped controller with a live run: its newest, neither stale nor aborted. */
  predicate Strays(p: Poll) { !p.started && p.turn in p.signals && !p.signals[p.turn] && p.abort == Some(p.turn) }

  /**
   Stops, ticks of the clock it may have, and hiding or showing the tab leave such a controller with
   a live run, and with its clock if it had one; only a tick replaces the run.
   */
  lemma {:induction false} StraysOn(p: Poll, steps: seq<Step>)
    requires Strays(p) && forall s :: s in steps ==> s.Stop? || s.Visibility? || s.Timer?
    ensures var q := RunFrom(p, steps);
            && Strays(q) && q.timer == p.timer && q.turn >= p.turn
            && (q.turn > p.turn <==> p.timer && Timer in steps)
            && (q.turn > p.turn ==> p.turn in q.signals && Stale(q, p.turn) && q.signals[p.turn])
  {
    if steps != [] {
      var front, step := steps[..|steps| - 1], steps[|steps| - 1];
      StraysOn(p, front);
      assert step in steps && steps == front + [step];
      var q := RunFrom(p, front);
      if !step.Timer? {
        assert Next(q, step) == q || Next(q, step) == q.(hidden := step.hidden);
      }
    }
  }

  /**
   A refresh while stopped starts a live run, and a clock when the tab is visible. Until the next start
   no step the page takes leaves it without a live run, nor clears that clock; a tick of the clock
   supersedes the run by another. The next start supersedes and aborts the one then live.
   */
  lemma StoppedRefreshStrays(steps: seq<Step>, more: seq<Step>)
    requires !Run(steps).started && forall s :: s in more ==> s.Stop? || s.Visibility? || s.Timer?
    ensures var p := Run(steps); var q := RunFrom(Refreshed(p), more);
            && Strays(q) && (q.timer <==> !p.hidden)
            && (q.turn == p.turn + 1 <==> p.hidden || Timer !in more)
            && q.turn in Begun(q).signals && Stale(Begun(q), q.turn) && Begun(q).signals[q.turn]
  {
    OnlyTheNewestIsLive(steps);
    StraysOn(Refreshed(Run(steps)), more);
  }

  /** A run that has gone stale is never live again. */
  lemma {:induction false} StaleForGood(steps: seq<Step>, more: seq<Step>, run: nat)
    requires run in Run(steps).signals && Stale(Run(steps), run)
    ensures run in Run(steps + more).signals && Stale(Run(steps + more), run) && Run(steps + more).signals[run]
  {
    OnlyTheNewestIsLive(steps);
    if more == [] {
      assert steps + more == steps;
    } else {
      var front := more[..|more| - 1];
      StaleForGood(steps, front, run);
      assert (steps + more)[..|steps + more| - 1] == steps + front;
      OnlyTheNewestIsLive(steps + front);
      OnlyTheNewestIsLive(steps + more);
    }
  }

  /**
   Exactly which steps start a run: the first start, a refresh, a tick, and showing the tab while polling goes on.
   The new run is live and whatever was out is aborted; every other step leaves the runs as they are, or aborts.
   */
  lemma StartsRunIff(steps: seq<Step>, step: Step)
    requires Enabled(Run(steps), step)
    ensures var p := Run(steps); var q := Next(p, step);
            && (step.Refresh? || step.Timer? || (step.Start? && !p.started)
                  || (step.Visibility? && !step.hidden && p.started)
                <==> q.turn !in p.signals && q.turn in q.signals)
            && (forall run :: run in q.signals <==> run in p.signals || (run == q.turn && q.turn in q.signals))
            && (q.turn in q.signals ==> !q.signals[q.turn] && q.abort == Some(q.turn))
            && (step.Visibility? && step.hidden ==> q.signals == p.signals && !q.timer)
            && (step.Visibility? && !step.hidden ==> q.timer == p.started)
            && (forall run :: run in p.signals && run != q.turn ==> q.signals[run])
  {
    OnlyTheNewestIsLive(steps);
  }
}
