/**
 A view's filters bound to the browser's history: reading on connect and on Back and
 Forward, correcting in place, and one notice to the view per change.
 */
module QueryController {
  import opened QueryState
  import opened QueryLaws

  type State = map<Text, ParamValue>

  /** The query strings of one path's history entries, and the entry on screen. */
  datatype Browser = Browser(stack: seq<Query>, at: nat)

  predicate OnAnEntry(b: Browser) { b.at < |b.stack| }

  function Location(b: Browser): Query
    requires OnAnEntry(b)
  {
    b.stack[b.at]
  }

  function Pushed(b: Browser, q: Query): Browser
    requires OnAnEntry(b)
  {
    Browser(b.stack[..b.at + 1] + [q], b.at + 1)
  }

  function Replaced(b: Browser, q: Query): Browser
    requires OnAnEntry(b)
  {
    b.(stack := b.stack[b.at := q])
  }

  /** `told` are the states the view was notified of, in order. */
  datatype Binding = Binding(browser: Browser, current: State, listening: bool, told: seq<State>)

  datatype Filters = Filters(codec: Codec, entries: seq<Entry>)

  predicate Ready(v: Binding) { OnAnEntry(v.browser) }

  function Shows(g: Filters, b: Browser): State
    requires OnAnEntry(b)
  {
    Values(g.codec, Location(b), g.entries)
  }

  function Corrected(g: Filters, b: Browser): Browser
    requires OnAnEntry(b)
  {
    Replaced(b, Canonical(g.codec, Location(b), g.entries))
  }

  function Connected(g: Filters, v: Binding): Binding
    requires Ready(v)
  {
    v.(browser := Corrected(g, v.browser), current := Shows(g, v.browser), listening := true)
  }

  function Popped(g: Filters, v: Binding): Binding
    requires Ready(v)
  {
    if !v.listening then v
    else
      var now := Shows(g, v.browser);
      var w := v.(browser := Corrected(g, v.browser));
      if now == v.current then w else w.(current := now, told := v.told + [now])
  }

  function Chosen(g: Filters, v: Binding, next: State, push: bool): Binding
    requires Ready(v)
  {
    var search := Written(g.codec, Location(v.browser), g.entries, next);
    var now := Values(g.codec, search, g.entries);
    if now == v.current then v
    else
      v.(browser := if push then Pushed(v.browser, search) else Replaced(v.browser, search),
         current := now, told := v.told + [now])
  }

  class BrowserHistory {
    var stack: seq<Query>
    var at: nat

    ghost function View(): Browser
      reads this
    {
      Browser(stack, at)
    }

    constructor (first: Query)
      ensures View() == Browser([first], 0)
    {
      stack, at := [first], 0;
    }

    method PushState(q: Query)
      requires OnAnEntry(View())
      modifies this
      ensures View() == Pushed(old(View()), q)
    {
      stack := stack[..at + 1] + [q];
      at := at + 1;
    }

    method ReplaceState(q: Query)
      requires OnAnEntry(View())
      modifies this
      ensures View() == Replaced(old(View()), q)
    {
      stack := stack[at := q];
    }
  }

  class QueryStateController {
    const page: Filters
    const history: BrowserHistory
    var current: State
    var listening: bool
    var told: seq<State>

    ghost function View(): Binding
      reads this, history
    {
      Binding(history.View(), current, listening, told)
    }

    ghost predicate Valid()
      reads this, history
    {
      Ready(View()) && DistinctNames(page.entries)
    }

    constructor (page: Filters, history: BrowserHistory)
      requires OnAnEntry(history.View()) && DistinctNames(page.entries)
      ensures Valid() && this.page == page && this.history == history
      ensures View() == Binding(history.View(), Shows(page, history.View()), false, [])
    {
      var reading := ReadQuery(page.codec, history.stack[history.at], page.entries);
      this.page, this.history := page, history;
      current, listening, told := reading.values, false, [];
    }

    method NormaliseUrl(reading: Reading)
      requires Valid()
      requires reading.canonical == Canonical(page.codec, Location(history.View()), page.entries)
      requires reading.needsNormalising <==> reading.canonical != Location(history.View())
      modifies history
      ensures View() == old(View()).(browser := Corrected(page, old(history.View())))
    {
      if !reading.needsNormalising {
        assert history.stack[history.at := history.stack[history.at]] == history.stack;
        return;
      }
      history.ReplaceState(reading.canonical);
    }

    method HostConnected()
      requires Valid()
      modifies this, history
      ensures Valid() && View() == Connected(page, old(View()))
    {
      listening := true;
      var reading := ReadQuery(page.codec, history.stack[history.at], page.entries);
      current := reading.values;
      NormaliseUrl(reading);
    }

    method HostDisconnected()
      requires Valid()
      modifies this
      ensures Valid() && View() == old(View()).(listening := false)
    {
      listening := false;
    }

    method OnPop()
      requires Valid()
      modifies this, history
      ensures Valid() && View() == Popped(page, old(View()))
    {
      if !listening { return; }
      var reading := ReadQuery(page.codec, history.stack[history.at], page.entries);
      NormaliseUrl(reading);
      if reading.values == current { return; }
      current := reading.values;
      told := told + [current];
    }

    method SetValues(next: State, push: bool)
      requires Valid()
      modifies this, history
      ensures Valid() && View() == Chosen(page, old(View()), next, push)
    {
      var search := WriteQuery(page.codec, history.stack[history.at], page.entries, next);
      var reading := ReadQuery(page.codec, search, page.entries);
      if reading.values == current { return; }
      current := reading.values;
      if push {
        history.PushState(search);
      } else {
        history.ReplaceState(search);
      }
      told := told + [reading.values];
    }
  }

  // ----- every run of the view

  /** Traverse is Back or Forward; Navigate an in-app move to any query string, announced by a pop. */
  datatype Step =
    | Connect
    | Disconnect
    | Choose(next: State, push: bool)
    | Traverse(to: nat)
    | Navigate(query: Query)

  predicate Enabled(g: Filters, v: Binding, step: Step) {
    match step
    case Choose(next, _) => v.listening && ValidChoice(g.entries, next)
    case Traverse(to) => to < |v.browser.stack|
    case _ => true
  }

  function Next(g: Filters, v: Binding, step: Step): Binding
    requires Ready(v) && Enabled(g, v, step)
  {
    match step
    case Connect => Connected(g, v)
    case Disconnect => v.(listening := false)
    case Choose(next, push) => Chosen(g, v, next, push)
    case Traverse(to) => Popped(g, v.(browser := v.browser.(at := to)))
    case Navigate(query) => Popped(g, v.(browser := Pushed(v.browser, query)))
  }

  function Try(g: Filters, v: Binding, step: Step): (w: Binding)
    requires Ready(v)
    ensures Ready(w)
  {
    if Enabled(g, v, step) then Next(g, v, step) else v
  }

  function RunFrom(g: Filters, v: Binding, steps: seq<Step>): (w: Binding)
    requires Ready(v)
    ensures Ready(w)
  {
    if steps == [] then v else Try(g, RunFrom(g, v, steps[..|steps| - 1]), steps[|steps| - 1])
  }

  /** The view's state is the reading of the entry on screen, and that entry is canonical. */
  ghost predicate InStep(g: Filters, v: Binding) {
    Ready(v) && (v.listening ==>
      v.current == Shows(g, v.browser) && Canonical(g.codec, Location(v.browser), g.entries) == Location(v.browser))
  }

  lemma CorrectedInStep(g: Filters, b: Browser)
    requires OnAnEntry(b) && RoundTrips(g.codec)
    ensures var d := Corrected(g, b);
            && OnAnEntry(d) && Shows(g, d) == Shows(g, b)
            && Canonical(g.codec, Location(d), g.entries) == Location(d)
  {
    hide Values, Canonical, RoundTrips;
    CanonicalSettles(g.codec, Location(b), g.entries);
    CorrectionKeepsValues(g.codec, Location(b), g.entries);
  }

  lemma StaysInStep(g: Filters, v: Binding, step: Step)
    requires RoundTrips(g.codec) && DistinctNames(g.entries) && InStep(g, v)
    ensures InStep(g, Try(g, v, step))
  {
    hide Values, Canonical, Written, RoundTrips, DistinctNames, ValidChoice;
    if Enabled(g, v, step) {
      match step {
        case Connect => CorrectedInStep(g, v.browser);
        case Disconnect =>
        case Choose(next, _) =>
          assert g.entries[..|g.entries|] == g.entries;
          WritesStayCanonical(g.codec, Location(v.browser), g.entries, |g.entries|, next);
        case Traverse(to) => CorrectedInStep(g, v.browser.(at := to));
        case Navigate(query) => CorrectedInStep(g, Pushed(v.browser, query));
      }
    }
  }

  /** In every run the view shows what the address bar says, and the address bar is canonical. */
  lemma {:induction false} AlwaysInStep(g: Filters, v: Binding, steps: seq<Step>)
    requires RoundTrips(g.codec) && DistinctNames(g.entries) && Ready(v) && InStep(g, v)
    ensures InStep(g, RunFrom(g, v, steps))
  {
    hide InStep, Try, RoundTrips, DistinctNames;
    if steps != [] {
      AlwaysInStep(g, v, steps[..|steps| - 1]);
      StaysInStep(g, RunFrom(g, v, steps[..|steps| - 1]), steps[|steps| - 1]);
    }
  }

  /** A valid choice leaves the address at the link that writes it, whether or not it changes the state. */
  lemma ChoiceLink(g: Filters, v: Binding, next: State, push: bool)
    requires RoundTrips(g.codec) && DistinctNames(g.entries) && Ready(v) && InStep(g, v)
    requires v.listening && ValidChoice(g.entries, next)
    ensures var w := Chosen(g, v, next, push);
            Ready(w) && Location(w.browser) == Written(g.codec, Location(v.browser), g.entries, next)
  {
    hide Values, Canonical, Written, Normalise, Get, ValidValue, RoundTrips, DistinctNames;
    var q := Location(v.browser);
    assert g.entries[..|g.entries|] == g.entries;
    if Values(g.codec, Written(g.codec, q, g.entries, next), g.entries) == v.current {
      forall j | 0 <= j < |g.entries| && g.entries[j].name in next
        ensures next[g.entries[j].name] == Normalise(g.codec, Get(q, g.entries[j].name), g.entries[j].spec)
      {
        SpecAt(g.entries, j);
        WriteThenRead(g.codec, q, g.entries, next, g.entries[j].name);
        ValuesAt(g.codec, q, g.entries, g.entries[j].name);
      }
      UnchangedWrite(g.codec, q, g.entries, |g.entries|, next);
    }
  }

  function ChoicesOf(steps: seq<Step>): seq<State>
    requires forall s :: s in steps ==> s.Choose?
  {
    seq(|steps|, i requires 0 <= i < |steps| => steps[i].next)
  }

  /** Where a reader's choices lead: to the link of that history, however they were pushed. */
  lemma {:induction false} NavigationLink(g: Filters, v: Binding, steps: seq<Step>)
    requires RoundTrips(g.codec) && DistinctNames(g.entries) && Ready(v) && InStep(g, v) && v.listening
    requires forall s :: s in steps ==> s.Choose? && ValidChoice(g.entries, s.next)
    ensures var w := RunFrom(g, v, steps);
            && Location(w.browser) == LinkHistory(g.codec, Location(v.browser), g.entries, ChoicesOf(steps))
            && w.listening && InStep(g, w)
  {
    hide Written, Values, Canonical, RoundTrips, DistinctNames, ValidChoice;
    AlwaysInStep(g, v, steps);
    if steps != [] {
      var front, step := steps[..|steps| - 1], steps[|steps| - 1];
      assert step in steps && forall s :: s in front ==> s in steps;
      NavigationLink(g, v, front);
      ChoiceLink(g, RunFrom(g, v, front), step.next, step.push);
      var choices := ChoicesOf(steps);
      assert choices[..|choices| - 1] == ChoicesOf(front) && choices[|choices| - 1] == step.next;
    }
  }

  /**
   Two readers at one canonical address who make different valid choices and come to the same
   state are at the same link exactly when their choices leave the names in one order.
   */
  lemma SameLinkForBothIff(g: Filters, v: Binding, xs: seq<Step>, ys: seq<Step>)
    requires RoundTrips(g.codec) && DistinctNames(g.entries) && Ready(v) && InStep(g, v) && v.listening
    requires forall s :: s in xs ==> s.Choose? && ValidChoice(g.entries, s.next)
    requires forall s :: s in ys ==> s.Choose? && ValidChoice(g.entries, s.next)
    requires RunFrom(g, v, xs).current == RunFrom(g, v, ys).current
    ensures Location(RunFrom(g, v, xs).browser) == Location(RunFrom(g, v, ys).browser)
       <==> NamesHistory(Names(Location(v.browser)), g.entries, ChoicesOf(xs))
            == NamesHistory(Names(Location(v.browser)), g.entries, ChoicesOf(ys))
  {
    hide Written, Values, Canonical, RoundTrips, DistinctNames, ValidChoice, RunFrom, Names, NamesHistory, LinkHistory;
    NavigationLink(g, v, xs);
    NavigationLink(g, v, ys);
    SameNavigationIff(g.codec, Location(v.browser), g.entries, ChoicesOf(xs), ChoicesOf(ys));
  }

  /** Successive states all differ. */
  predicate NoRepeats(states: seq<State>) { forall i :: 0 <= i < |states| - 1 ==> states[i] != states[i + 1] }

  lemma ToldOfChange(g: Filters, v: Binding, step: Step)
    requires Ready(v) && !step.Connect?
    ensures var w := Try(g, v, step);
            w.told == if w.current == v.current then v.told else v.told + [w.current]
  {
    hide Values, Canonical, Written, ValidChoice;
  }

  /**
   Between two connections the view is told of every change of state, once each: what it is
   told, after the state it started from, never repeats itself and ends with the current state.
   */
  lemma {:induction false} ToldOncePerChange(g: Filters, v: Binding, steps: seq<Step>)
    requires Ready(v) && forall s :: s in steps ==> !s.Connect?
    ensures var w := RunFrom(g, v, steps);
            && v.told <= w.told
            && var since := [v.current] + w.told[|v.told|..];
               NoRepeats(since) && since[|since| - 1] == w.current
  {
    hide Try;
    if steps != [] {
      var front, step := steps[..|steps| - 1], steps[|steps| - 1];
      ToldOncePerChange(g, v, front);
      var u, w := RunFrom(g, v, front), RunFrom(g, v, steps);
      ToldOfChange(g, u, step);
      var before, since := [v.current] + u.told[|v.told|..], [v.current] + w.told[|v.told|..];
      if w.current != u.current {
        assert since == before + [w.current];
        assert forall i :: 0 <= i < |before| ==> since[i] == before[i];
      } else {
        assert since == before;
      }
    }
  }

  /** How often the state changes in a run. */
  function Changes(g: Filters, v: Binding, steps: seq<Step>): nat
    requires Ready(v)
  {
    if steps == [] then 0
    else
      var front, step := steps[..|steps| - 1], steps[|steps| - 1];
      var u := RunFrom(g, v, front);
      Changes(g, v, front) + if Try(g, u, step).current == u.current then 0 else 1
  }

  /** Each time the view connects, the address reads as the state it already holds. */
  predicate ConnectsAgree(g: Filters, v: Binding, steps: seq<Step>)
    requires Ready(v)
  {
    steps == [] || (
      var front, step := steps[..|steps| - 1], steps[|steps| - 1];
      var u := RunFrom(g, v, front);
      ConnectsAgree(g, v, front) && (step.Connect? ==> Shows(g, u.browser) == u.current))
  }

  /**
   Over any run, connections included, the view is told of every change of state exactly when
   each connection found the state it already held; otherwise it is told of fewer.
   */
  lemma {:induction false} ToldOfEveryChangeIff(g: Filters, v: Binding, steps: seq<Step>)
    requires Ready(v)
    ensures |RunFrom(g, v, steps).told| <= |v.told| + Changes(g, v, steps)
    ensures |RunFrom(g, v, steps).told| == |v.told| + Changes(g, v, steps) <==> ConnectsAgree(g, v, steps)
  {
    hide Shows, Corrected, Chosen, Popped;
    if steps != [] {
      var front, step := steps[..|steps| - 1], steps[|steps| - 1];
      ToldOfEveryChangeIff(g, v, front);
      var u := RunFrom(g, v, front);
      if !step.Connect? {
        ToldOfChange(g, u, step);
      }
    }
  }

  /** A correction costs no step of Back: only a choice that is pushed, and a navigation, lengthen the history. */
  lemma CorrectionsCostNothing(g: Filters, v: Binding, step: Step)
    requires Ready(v) && Enabled(g, v, step)
    ensures var b, d := v.browser, Next(g, v, step).browser;
            && (step.Connect? || step.Disconnect? ==> d.at == b.at)
            && (step.Traverse? ==> d.at == step.to)
            && (step.Connect? || step.Disconnect? || step.Traverse? ==>
                  |d.stack| == |b.stack| && forall i :: 0 <= i < |b.stack| && i != d.at ==> d.stack[i] == b.stack[i])
            && (step.Navigate? ==> d.at == b.at + 1 == |d.stack| - 1 && d.stack[..d.at] == b.stack[..d.at])
            && (step.Choose? ==>
                  if Next(g, v, step).current == v.current then d == b
                  else if step.push then d.at == b.at + 1 == |d.stack| - 1 && d.stack[..d.at] == b.stack[..d.at]
                  else d.at == b.at && |d.stack| == |b.stack|)
  {
    hide Values, Canonical, Written, ValidChoice;
  }
}
