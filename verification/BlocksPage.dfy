/**
 The block list: the page in the address bar, the offset on screen, and the rows of
 whichever poll run answered for it.
 */
module BlocksPage {
  import opened Doubles
  import opened Wrappers
  import opened QueryState
  import opened QueryController
  import opened QueryLaws
  import Polling

  const PAGE_SIZE := 25.0
  const PAGE := Text("page")

  function Listing(c: Codec): Filters { Filters(c, [Entry(PAGE, ParamSpec.Page(Finite(PAGE_SIZE)))]) }

  /** The server's answer for an offset. */
  datatype BlockList = BlockList(offset: real, items: seq<string>, total: int)

  datatype Answer = Items(list: BlockList) | Failed(message: string) | Cancelled

  /** `asked` is the offset each run asked for; `accepted` the runs whose rows were taken, in order. */
  datatype Blocks = Blocks(
    poll: Polling.Poll, query: Binding, offset: real, rows: seq<string>, total: int, heldFor: Option<real>,
    error: string, loading: bool, asked: map<nat, real>, answered: set<nat>, accepted: seq<nat>,
    drawn: Option<BlockList>)

  function PageOf(values: State): real {
    if PAGE in values && values[PAGE].Number? then values[PAGE].value else 1.0
  }

  function OffsetFor(values: State): real { PageToOffset(PageOf(values), PAGE_SIZE) }

  /** A run that the poll controller has just started asks for the offset on screen. */
  function Polled(b: Blocks, p: Polling.Poll): Blocks {
    if p.turn != b.poll.turn && p.abort == Some(p.turn) then b.(poll := p, asked := b.asked[p.turn := b.offset])
    else b.(poll := p)
  }

  /** The address bar has moved: on a change of state, the offset follows it and a new run starts. */
  function Followed(b: Blocks, v: Binding): Blocks {
    if v.told == b.query.told then b.(query := v)
    else
      var c := b.(query := v, offset := OffsetFor(v.current));
      Polled(c, Polling.Refreshed(c.poll))
  }

  function Landed(b: Blocks, run: nat, answer: Answer): Blocks {
    var c := b.(answered := b.answered + {run});
    if Polling.Stale(b.poll, run) then c
    else match answer
      case Items(list) =>
        if run in b.asked then
          c.(rows := list.items, total := list.total, heldFor := Some(b.asked[run]), error := "", loading := false,
             accepted := b.accepted + [run], drawn := Some(list))
        else c
      case Failed(message) => c.(error := message, loading := false)
      case Cancelled => c.(loading := false)
  }

  datatype Step =
    | Attach
    | Detach
    | Answered(run: nat, answer: Answer)
    | Timer
    | Visibility(hidden: bool)
    | Move(older: bool)
    | Traverse(to: nat)
    | Navigate(query: Query)

  /** An answer is for a run that asked, comes once, and lists the offset asked for. */
  predicate Enabled(b: Blocks, step: Step) {
    match step
    case Attach => !b.poll.started
    case Detach => b.poll.started
    case Answered(run, answer) =>
      run in b.asked && run !in b.answered && (answer.Items? ==> answer.list.offset == b.asked[run])
    case Timer => b.poll.timer
    case Move(_) => b.poll.started
    case Traverse(to) => to < |b.query.browser.stack|
    case _ => true
  }

  function Turned(b: Blocks, older: bool): State {
    map[PAGE := Number(Max(1.0, PageOf(b.query.current) + if older then 1.0 else -1.0))]
  }

  function Stepped(c: Codec, b: Blocks, step: Step): Blocks
    requires Ready(b.query) && Enabled(b, step)
  {
    var g := Listing(c);
    match step
    case Attach =>
      var applied := b.(offset := OffsetFor(b.query.current));
      var polled := Polled(applied, Polling.Begun(applied.poll));
      polled.(query := Connected(g, b.query))
    case Detach => b.(poll := Polling.Stopped(b.poll), query := b.query.(listening := false))
    case Answered(run, answer) => Landed(b, run, answer)
    case Timer => Polled(b, Polling.Ticked(b.poll))
    case Visibility(hidden) => Polled(b, Polling.Shown(b.poll, hidden))
    case Move(older) => Followed(b, Chosen(g, b.query, Turned(b, older), true))
    case Traverse(to) => Followed(b, QueryController.Next(g, b.query, QueryController.Traverse(to)))
    case Navigate(query) => Followed(b, QueryController.Next(g, b.query, QueryController.Navigate(query)))
  }

  function Opened(c: Codec, stack: seq<Query>, at: nat): Blocks
    requires at < |stack|
  {
    Blocks(Polling.FRESH, Binding(Browser(stack, at), Values(c, stack[at], Listing(c).entries), false, []),
           0.0, [], 0, None, "", true, map[], {}, [], None)
  }

  function Try(c: Codec, b: Blocks, step: Step): (d: Blocks)
    requires Ready(b.query)
    ensures Ready(d.query)
  {
    if Enabled(b, step) then SteppedReady(c, b, step); Stepped(c, b, step) else b
  }

  lemma SteppedReady(c: Codec, b: Blocks, step: Step)
    requires Ready(b.query) && Enabled(b, step)
    ensures Ready(Stepped(c, b, step).query)
  {
    hide Values, Canonical, Written, Landed, OffsetFor, Listing;
    if step.Answered? {
      LandedElsewhere(b, step.run, step.answer);
    }
  }

  function RunFrom(c: Codec, b: Blocks, steps: seq<Step>): (d: Blocks)
    requires Ready(b.query)
    ensures Ready(d.query)
  {
    if steps == [] then b else Try(c, RunFrom(c, b, steps[..|steps| - 1]), steps[|steps| - 1])
  }

  // ----- the page's own fields

  class DdPageBlocks {
    const poll: Polling.PollController
    const query: QueryStateController
    var rows: seq<string>
    var total: int
    var heldFor: Option<real>
    var offset: real
    var error: string
    var loading: bool
    var asked: map<nat, real>
    var answered: set<nat>
    var accepted: seq<nat>
    ghost var drawn: Option<BlockList>

    ghost function View(): Blocks
      reads this, poll, query, query.history
    {
      Blocks(poll.View(), query.View(), offset, rows, total, heldFor, error, loading, asked, answered, accepted, drawn)
    }

    ghost predicate Valid()
      reads this, query, query.history
    {
      query.Valid() && query.page == Listing(query.page.codec)
    }

    constructor (poll: Polling.PollController, query: QueryStateController)
      requires query.Valid() && query.page == Listing(query.page.codec)
      ensures Valid() && this.poll == poll && this.query == query
      ensures View() == Blocks(poll.View(), query.View(), 0.0, [], 0, None, "", true, map[], {}, [], None)
    {
      this.poll, this.query := poll, query;
      rows, total, heldFor, offset, error, loading := [], 0, None, 0.0, "", true;
      asked, answered, accepted, drawn := map[], {}, [], None;
    }

    method ApplyQuery(values: State)
      modifies this
      ensures View() == old(View()).(offset := OffsetFor(values))
    {
      var page := if PAGE in values && values[PAGE].Number? then values[PAGE].value else 1.0;
      offset := PageToOffset(page, PAGE_SIZE);
    }

    /** What a run does before its request is out: it captures the offset on screen. */
    method LoadStarts(run: nat)
      modifies this
      ensures View() == old(View()).(asked := old(asked)[run := old(offset)])
    {
      asked := asked[run := offset];
    }

    method LoadEnds(run: nat, answer: Answer)
      requires run in asked
      modifies this
      ensures View() == Landed(old(View()), run, answer)
    {
      answered := answered + {run};
      if run != poll.turn { return; }
      match answer {
        case Items(list) =>
          rows := list.items;
          total := list.total;
          heldFor := Some(asked[run]);
          error := "";
          accepted := accepted + [run];
          drawn := Some(list);
        case Failed(message) => error := message;
        case Cancelled =>
      }
      loading := false;
    }

    method ConnectedCallback()
      requires Valid() && !poll.started
      modifies this, poll, query, query.history
      ensures Valid() && View() == Stepped(query.page.codec, old(View()), Attach)
    {
      ApplyQuery(query.current);
      poll.Start();
      LoadStarts(poll.turn);
      query.HostConnected();
    }

    method DisconnectedCallback()
      requires Valid() && poll.started
      modifies this, poll, query
      ensures Valid() && View() == Stepped(query.page.codec, old(View()), Detach)
    {
      poll.Stop();
      query.HostDisconnected();
    }

    /** What the page does when told of a new state. */
    method OnChange()
      requires Valid()
      modifies this, poll
      ensures Valid() && query.View() == old(query.View())
      ensures var b := old(View()).(offset := OffsetFor(query.current));
              View() == Polled(b, Polling.Refreshed(b.poll))
    {
      ApplyQuery(query.current);
      poll.Refresh();
      LoadStarts(poll.turn);
    }

    method Moved(delta: real)
      requires Valid() && (delta == 1.0 || delta == -1.0) && poll.started
      modifies this, poll, query, query.history
      ensures Valid() && View() == Stepped(query.page.codec, old(View()), Move(delta == 1.0))
    {
      hide Values, Canonical, Written, PageToOffset, Max, Polled, Polling.Refreshed;
      var page := if PAGE in query.current && query.current[PAGE].Number? then query.current[PAGE].value else 1.0;
      var before := |query.told|;
      query.SetValues(map[PAGE := Number(Max(1.0, page + delta))], true);
      if |query.told| != before {
        OnChange();
      }
    }

    /** Back, Forward or an in-app move has changed the address bar. */
    method AddressMoved()
      requires Valid()
      modifies this, poll, query, query.history
      ensures Valid() && View() == Followed(old(View()), Popped(query.page, old(query.View())))
    {
      var before := |query.told|;
      query.OnPop();
      if |query.told| != before {
        OnChange();
      }
    }
  }

  // ----- only the newest run's rows are taken

  /** The live run asked for the offset on screen; what was accepted came in order, and holds what was asked for. */
  ghost predicate Asked(b: Blocks) {
    && Polling.Superseded(b.poll) && Polling.Clocked(b.poll)
    && b.asked.Keys == b.poll.signals.Keys
    && (b.poll.started ==> b.asked[b.poll.turn] == b.offset)
  }

  ghost predicate InOrder(b: Blocks) {
    && (forall i :: 0 <= i < |b.accepted| ==> b.accepted[i] in b.answered && b.accepted[i] <= b.poll.turn)
    && (forall i, j :: 0 <= i < j < |b.accepted| ==> b.accepted[i] < b.accepted[j])
  }

  /** The rows on hand are the server's answer for the offset they are held for. */
  predicate HeldRows(b: Blocks) {
    if b.heldFor.None? then b.drawn == None && b.rows == []
    else b.drawn.Some? && b.drawn.value.offset == b.heldFor.value && b.rows == b.drawn.value.items
         && b.total == b.drawn.value.total
  }

  ghost predicate Kept(b: Blocks) { Asked(b) && InOrder(b) && HeldRows(b) }

  /** The poll after a step of it, and the offset its run asks for. */
  lemma PolledKeeps(b: Blocks, step: Polling.Step, c: Blocks)
    requires Kept(b) && Polling.Enabled(b.poll, step)
    requires c.poll == b.poll && c.asked == b.asked && c.answered == b.answered && c.accepted == b.accepted
    requires HeldRows(c)
    requires c.offset == b.offset || !b.poll.started || step.Refresh?
    ensures Kept(Polled(c, Polling.Next(b.poll, step)))
  {
    Polling.NextKeeps(b.poll, step);
  }

  lemma LandedKeeps(b: Blocks, run: nat, answer: Answer)
    requires Kept(b) && Enabled(b, Answered(run, answer))
    ensures Kept(Landed(b, run, answer))
  {
    hide Polling.Superseded, Polling.Clocked;
    var c := Landed(b, run, answer);
    if !Polling.Stale(b.poll, run) && answer.Items? {
      assert forall i :: 0 <= i < |b.accepted| ==> b.accepted[i] != run && c.accepted[i] == b.accepted[i];
    }
  }

  lemma FollowedKeeps(b: Blocks, v: Binding)
    requires Kept(b) && (v.told != b.query.told ==> b.poll.started)
    ensures Kept(Followed(b, v))
  {
    if v.told != b.query.told {
      PolledKeeps(b, Polling.Refresh, b.(query := v, offset := OffsetFor(v.current)));
    }
  }

  /** The view listens to the address bar exactly while it polls. */
  predicate Paired(b: Blocks) { b.query.listening <==> b.poll.started }

  lemma SteppedKeeps(c: Codec, b: Blocks, step: Step)
    requires Ready(b.query) && Enabled(b, step) && Kept(b) && Paired(b)
    ensures Kept(Stepped(c, b, step)) && Paired(Stepped(c, b, step))
  {
    hide Kept, Values, Canonical, Written, Followed, Landed;
    var g := Listing(c);
    match step {
      case Attach =>
        var applied := b.(offset := OffsetFor(b.query.current));
        AppliedHeld(b, applied);
        PolledKeeps(b, Polling.Start, applied);
        KeptWhatever(Polled(applied, Polling.Begun(b.poll)), Connected(g, b.query));
      case Detach => DetachKeeps(b);
      case Answered(run, answer) => LandedKeeps(b, run, answer); LandedPaired(b, run, answer);
      case Timer =>
        AppliedHeld(b, b);
        PolledKeeps(b, Polling.Timer, b);
      case Visibility(hidden) =>
        AppliedHeld(b, b);
        PolledKeeps(b, Polling.Visibility(hidden), b);
      case Move(older) => FollowedPaired(b, Chosen(g, b.query, Turned(b, older), true));
      case Traverse(to) => FollowedPaired(b, QueryController.Next(g, b.query, QueryController.Traverse(to)));
      case Navigate(query) => FollowedPaired(b, QueryController.Next(g, b.query, QueryController.Navigate(query)));
    }
  }

  lemma AppliedHeld(b: Blocks, c: Blocks)
    requires Kept(b) && c == b.(offset := c.offset)
    ensures HeldRows(c)
  {
  }

  lemma KeptWhatever(b: Blocks, v: Binding)
    requires Kept(b)
    ensures Kept(b.(query := v))
  {
  }

  lemma DetachKeeps(b: Blocks)
    requires Kept(b) && b.poll.started
    ensures Kept(b.(poll := Polling.Stopped(b.poll), query := b.query.(listening := false)))
  {
    Polling.NextKeeps(b.poll, Polling.Stop);
  }

  lemma LandedPaired(b: Blocks, run: nat, answer: Answer)
    requires Paired(b)
    ensures Paired(Landed(b, run, answer))
  {
  }

  lemma FollowedPaired(b: Blocks, v: Binding)
    requires Kept(b) && Paired(b) && v.listening == b.query.listening
    requires v.told != b.query.told ==> b.poll.started
    ensures Kept(Followed(b, v)) && Paired(Followed(b, v))
  {
    FollowedKeeps(b, v);
  }

  lemma {:induction false} RunKeeps(c: Codec, b: Blocks, steps: seq<Step>)
    requires Ready(b.query) && Kept(b) && Paired(b)
    ensures Kept(RunFrom(c, b, steps)) && Paired(RunFrom(c, b, steps))
  {
    hide Kept, Paired, Stepped, Enabled;
    if steps != [] {
      var d := RunFrom(c, b, steps[..|steps| - 1]);
      RunKeeps(c, b, steps[..|steps| - 1]);
      if Enabled(d, steps[|steps| - 1]) {
        SteppedKeeps(c, d, steps[|steps| - 1]);
      }
    }
  }

  lemma OpenedKept(c: Codec, stack: seq<Query>, at: nat)
    requires at < |stack|
    ensures Ready(Opened(c, stack, at).query) && Kept(Opened(c, stack, at)) && Paired(Opened(c, stack, at))
  {
  }

  // ----- the address bar, the page and the offset

  lemma ListingValues(c: Codec, q: Query)
    ensures Values(c, q, Listing(c).entries)
         == map[PAGE := Normalise(c, Get(q, PAGE), ParamSpec.Page(Finite(PAGE_SIZE)))]
  {
    hide Normalise, Get;
    var e := Entry(PAGE, ParamSpec.Page(Finite(PAGE_SIZE)));
    assert [e][..0] == [];
    assert Values(c, q, []) == map[];
  }

  const LAST_PAGE := MaxPageFor(Finite(PAGE_SIZE), MAX_OFFSET)

  predicate Whole(x: real) { x == x.Floor as real }

  /** Every address shows a whole page between the first and the last. */
  lemma PageShown(c: Codec, q: Query) returns (page: real)
    ensures Values(c, q, Listing(c).entries) == map[PAGE := Number(page)]
    ensures PageOf(Values(c, q, Listing(c).entries)) == page && Whole(page) && 1.0 <= page <= LAST_PAGE
  {
    hide Get, Normalise, MaxPageFor;
    var s := ParamSpec.Page(Finite(PAGE_SIZE));
    ListingValues(c, q);
    ReadingsAreValid(c, Get(q, PAGE), s);
    page := Normalise(c, Get(q, PAGE), s).value;
  }

  lemma WantedReads(c: Codec, x: real)
    requires RoundTrips(c) && Whole(x) && 1.0 <= x <= LAST_PAGE + 1.0
    ensures var s := ParamSpec.Page(Finite(PAGE_SIZE)); var v := Number(x);
            Normalise(c, if Unwritten(v, s) then None else Some(TextOf(c, v)), s)
                == Number(if LAST_PAGE < x then LAST_PAGE else x)
  {
    hide MaxPageFor;
    MaxPageIsWhole(Finite(PAGE_SIZE));
    MaxPageBound(Finite(PAGE_SIZE));
    WholeIsDouble(x.Floor);
    assert c.number(c.text(x)) == Finite(x);
    assert Trunc(x) == x;
  }

  lemma PageWritten(c: Codec, q: Query, x: real)
    requires RoundTrips(c) && Whole(x) && 1.0 <= x <= LAST_PAGE + 1.0
    ensures Values(c, Written(c, q, Listing(c).entries, map[PAGE := Number(x)]), Listing(c).entries)
         == map[PAGE := Number(if LAST_PAGE < x then LAST_PAGE else x)]
  {
    hide Get, Normalise, MaxPageFor, Written, RoundTrips, TextOf;
    var next := map[PAGE := Number(x)];
    ListingValues(c, Written(c, q, Listing(c).entries, next));
    GetWritten(c, q, Listing(c).entries, next, PAGE);
    SpecAt(Listing(c).entries, 0);
    WantedReads(c, x);
  }

  /** One on, or one back, is a whole page no smaller than the first. */
  lemma MoveIsWhole(page: real, older: bool)
    requires Whole(page) && page >= 1.0
    ensures var x := Max(1.0, page + if older then 1.0 else -1.0); Whole(x) && x >= 1.0
  {
    var n := page.Floor + if older then 1 else -1;
    assert page + (if older then 1.0 else -1.0) == n as real;
    assert Whole(n as real);
  }

  /** Pressing Older on the last page changes nothing; elsewhere a move is a choice of the page beside. */
  lemma MoveReads(c: Codec, b: Blocks, older: bool)
    requires RoundTrips(c) && InStep(Listing(c), b.query) && b.query.listening
    ensures var g := Listing(c); var was := PageOf(b.query.current);
            var w := Chosen(g, b.query, Turned(b, older), true);
            && Ready(w)
            && PageOf(w.current)
                == (if older then (if was < LAST_PAGE then was + 1.0 else was) else Max(1.0, was - 1.0))
            && InStep(g, w)
  {
    hide Values, Written, RoundTrips, Canonical, MaxPageFor;
    var g := Listing(c);
    var q := Location(b.query.browser);
    var page := PageShown(c, q);
    MoveIsWhole(page, older);
    var x := Max(1.0, page + if older then 1.0 else -1.0);
    PageWritten(c, q, x);
    if x <= LAST_PAGE {
      assert ValidChoice(g.entries, Turned(b, older));
      assert g.entries[..1] == g.entries;
      WritesStayCanonical(c, q, g.entries, 1, Turned(b, older));
    } else {
      MaxPageIsWhole(Finite(PAGE_SIZE));
      NextToLast(page, LAST_PAGE);
    }
  }

  lemma NextToLast(page: real, most: real)
    requires Whole(page) && Whole(most) && page <= most < page + 1.0
    ensures page == most
  {
    Between(page.Floor, most.Floor);
  }

  lemma Between(m: int, n: int)
    requires m as real <= n as real < m as real + 1.0
    ensures m == n
  {
    assert (n - m) as real < 1.0;
  }

  /**
   In every run: rows are taken in the order of the runs that asked, from the live run, and for the offset on
   screen.
   */
  lemma AcceptedInOrder(c: Codec, stack: seq<Query>, at: nat, steps: seq<Step>, run: nat, answer: Answer)
    requires at < |stack| && Enabled(RunFrom(c, Opened(c, stack, at), steps), Answered(run, answer))
    ensures var b := RunFrom(c, Opened(c, stack, at), steps);
            var d := Landed(b, run, answer);
            && (forall i, j :: 0 <= i < j < |d.accepted| ==> d.accepted[i] < d.accepted[j])
            && (d.accepted != b.accepted ==>
                run == b.poll.turn && answer.list.offset == b.offset && d.heldFor == Some(d.offset))
  {
    hide Values, Opened;
    OpenedKept(c, stack, at);
    RunKeeps(c, Opened(c, stack, at), steps);
    LandedKeeps(RunFrom(c, Opened(c, stack, at), steps), run, answer);
  }

  ghost predicate Agrees(b: Blocks) { b.query.listening ==> b.offset == OffsetFor(b.query.current) }

  lemma SteppedInStep(c: Codec, b: Blocks, step: Step)
    requires RoundTrips(c) && Ready(b.query) && Enabled(b, step) && Paired(b) && InStep(Listing(c), b.query)
    ensures InStep(Listing(c), Stepped(c, b, step).query)
  {
    hide InStep, Landed, Chosen, RoundTrips, Popped, Connected;
    var g := Listing(c);
    match step {
      case Attach => StaysInStep(g, b.query, QueryController.Connect);
      case Detach => StaysInStep(g, b.query, QueryController.Disconnect);
      case Answered(run, answer) => LandedElsewhere(b, run, answer);
      case Timer =>
      case Visibility(_) =>
      case Move(older) => MoveReads(c, b, older);
      case Traverse(to) => StaysInStep(g, b.query, QueryController.Traverse(to));
      case Navigate(query) => StaysInStep(g, b.query, QueryController.Navigate(query));
    }
  }

  lemma LandedElsewhere(b: Blocks, run: nat, answer: Answer)
    ensures var c := Landed(b, run, answer); c.query == b.query && c.offset == b.offset && c.poll == b.poll
  {
  }

  lemma ChosenTold(g: Filters, v: Binding, next: State, push: bool)
    requires Ready(v)
    ensures var w := Chosen(g, v, next, push);
        w.listening == v.listening && (w.told == v.told ==> w.current == v.current)
  {
    hide Values, Written;
    var now := Values(g.codec, Written(g.codec, Location(v.browser), g.entries, next), g.entries);
    assert |v.told + [now]| != |v.told|;
  }

  lemma PoppedTold(g: Filters, v: Binding)
    requires Ready(v)
    ensures var w := Popped(g, v); w.listening == v.listening && (w.told == v.told ==> w.current == v.current)
  {
    hide Values, Canonical;
    assert |v.told + [Shows(g, v.browser)]| != |v.told|;
  }

  /**
   The offset applied on connecting is that of the state held before the address is read again:
   it agrees with the address exactly when the two name the same offset.
   */
  lemma AttachAgreesIff(c: Codec, b: Blocks)
    requires Ready(b.query) && Enabled(b, Attach)
    ensures Agrees(Stepped(c, b, Attach))
        <==> OffsetFor(b.query.current) == OffsetFor(Shows(Listing(c), b.query.browser))
  {
    hide OffsetFor, Values, Canonical;
  }

  /** Each time the page connects, the address still reads as the state held. */
  predicate ConnectsAgree(c: Codec, b: Blocks, steps: seq<Step>)
    requires Ready(b.query)
  {
    steps == [] || (
      var front, step := steps[..|steps| - 1], steps[|steps| - 1];
      var d := RunFrom(c, b, front);
      ConnectsAgree(c, b, front)
          && (step.Attach? && Enabled(d, step) ==> Shows(Listing(c), d.query.browser) == d.query.current))
  }

  /**
   The last thing to set the offset agreed: a notified change of state always does, a connection when
   the state held and the address name one offset; a page that is detached has nothing to agree with.
   */
  predicate LastAgreed(c: Codec, b: Blocks, steps: seq<Step>)
    requires Ready(b.query)
  {
    if steps == [] then !b.query.listening || b.offset == OffsetFor(b.query.current)
    else
      var front, step := steps[..|steps| - 1], steps[|steps| - 1];
      var d := RunFrom(c, b, front);
      if Enabled(d, step) && step.Attach? then
        OffsetFor(d.query.current) == OffsetFor(Shows(Listing(c), d.query.browser))
      else if Enabled(d, step) && step.Detach? then true
      else Try(c, d, step).query.told != d.query.told || LastAgreed(c, b, front)
  }

  lemma FollowedAgreesIff(b: Blocks, v: Binding)
    requires v.listening == b.query.listening && (v.told == b.query.told ==> v.current == b.query.current)
    ensures Agrees(Followed(b, v)) <==> v.told != b.query.told || Agrees(b)
    ensures Followed(b, v).query == v
  {
  }

  lemma SteppedAgreesIff(c: Codec, b: Blocks, step: Step)
    requires Ready(b.query) && Enabled(b, step) && !step.Attach? && !step.Detach?
    ensures Agrees(Stepped(c, b, step)) <==> Stepped(c, b, step).query.told != b.query.told || Agrees(b)
  {
    hide Landed, Followed, Chosen, Popped, OffsetFor, Values, Canonical, Written;
    var g := Listing(c);
    match step {
      case Answered(run, answer) => LandedElsewhere(b, run, answer);
      case Timer =>
      case Visibility(_) =>
      case Move(older) =>
        ChosenTold(g, b.query, Turned(b, older), true);
        FollowedAgreesIff(b, Chosen(g, b.query, Turned(b, older), true));
      case Traverse(to) =>
        var v := b.query.(browser := b.query.browser.(at := to));
        PoppedTold(g, v);
        FollowedAgreesIff(b, Popped(g, v));
      case Navigate(query) =>
        var v := b.query.(browser := Pushed(b.query.browser, query));
        PoppedTold(g, v);
        FollowedAgreesIff(b, Popped(g, v));
    }
  }

  lemma DetachedAgrees(c: Codec, b: Blocks)
    requires Ready(b.query) && Enabled(b, Detach)
    ensures Agrees(Stepped(c, b, Detach))
  {
  }

  /** Over any run, offset and state agree exactly when the last thing to set the offset agreed. */
  lemma {:induction false} RunAgreesIff(c: Codec, b: Blocks, steps: seq<Step>)
    requires Ready(b.query)
    ensures Agrees(RunFrom(c, b, steps)) <==> LastAgreed(c, b, steps)
  {
    hide Stepped, Enabled, OffsetFor, Shows;
    if steps != [] {
      var front, step := steps[..|steps| - 1], steps[|steps| - 1];
      RunAgreesIff(c, b, front);
      var d := RunFrom(c, b, front);
      if Enabled(d, step) {
        if step.Attach? {
          AttachAgreesIff(c, d);
        } else if step.Detach? {
          DetachedAgrees(c, d);
        } else {
          SteppedAgreesIff(c, d, step);
        }
      }
    }
  }

  lemma {:induction false} RunInStep(c: Codec, b: Blocks, steps: seq<Step>)
    requires RoundTrips(c) && Ready(b.query) && Kept(b) && Paired(b) && InStep(Listing(c), b.query)
    ensures InStep(Listing(c), RunFrom(c, b, steps).query)
  {
    hide Kept, InStep, Stepped, RoundTrips, Paired, Enabled;
    if steps != [] {
      var front, step := steps[..|steps| - 1], steps[|steps| - 1];
      RunInStep(c, b, front);
      RunKeeps(c, b, front);
      if Enabled(RunFrom(c, b, front), step) {
        SteppedInStep(c, RunFrom(c, b, front), step);
      }
    }
  }

  /**
   In every run: rows drawn as the page's are those of the page in the address bar exactly when the last thing
   to set the offset agreed.
   */
  lemma RowsAnswerTheAddressIff(c: Codec, stack: seq<Query>, at: nat, steps: seq<Step>)
    requires RoundTrips(c) && at < |stack|
    ensures var b := RunFrom(c, Opened(c, stack, at), steps);
            b.query.listening && b.heldFor == Some(b.offset) ==>
              && b.drawn.Some? && b.rows == b.drawn.value.items && b.total == b.drawn.value.total
              && (b.drawn.value.offset == PageToOffset(PageOf(Shows(Listing(c), b.query.browser)), PAGE_SIZE)
                  <==> LastAgreed(c, Opened(c, stack, at), steps))
  {
    hide Values, PageToOffset, RoundTrips, Polling.Superseded, LastAgreed, Canonical;
    OpenedKept(c, stack, at);
    RunKeeps(c, Opened(c, stack, at), steps);
    RunInStep(c, Opened(c, stack, at), steps);
    RunAgreesIff(c, Opened(c, stack, at), steps);
  }

  /** Connections that find the state held always agree. */
  lemma {:induction false} ConnectsKeepAgreeing(c: Codec, b: Blocks, steps: seq<Step>)
    requires Ready(b.query) && Agrees(b) && ConnectsAgree(c, b, steps)
    ensures LastAgreed(c, b, steps)
  {
    hide Stepped, Enabled, OffsetFor, Shows;
    if steps != [] {
      ConnectsKeepAgreeing(c, b, steps[..|steps| - 1]);
    }
  }

  /**
   So in every run whose connections agree, rows drawn as the page's are the server's answer for the page in
   the address bar.
   */
  lemma RowsAnswerTheAddress(c: Codec, stack: seq<Query>, at: nat, steps: seq<Step>)
    requires RoundTrips(c) && at < |stack| && ConnectsAgree(c, Opened(c, stack, at), steps)
    ensures var b := RunFrom(c, Opened(c, stack, at), steps);
            b.query.listening && b.heldFor == Some(b.offset) ==>
              && b.drawn.Some? && b.rows == b.drawn.value.items && b.total == b.drawn.value.total
              && b.drawn.value.offset == PageToOffset(PageOf(Shows(Listing(c), b.query.browser)), PAGE_SIZE)
  {
    hide Values, PageToOffset, RoundTrips, LastAgreed, ConnectsAgree, RunFrom, Shows;
    ConnectsKeepAgreeing(c, Opened(c, stack, at), steps);
    RowsAnswerTheAddressIff(c, stack, at, steps);
  }

  // ----- a connection that does not agree

  /** A page shown, detached, shown again after its address moved elsewhere, and answered. */
  function AwayAndBack(elsewhere: Query, list: BlockList): seq<Step> {
    [Attach, Detach, Step.Navigate(elsewhere), Attach, Answered(3, Items(list))]
  }

  /** Its second run asks for the offset of the page it showed first. */
  lemma SecondAttachAsks(c: Codec, first: Query, elsewhere: Query)
    ensures var b := RunFrom(c, Opened(c, [first], 0), [Attach, Detach, Step.Navigate(elsewhere), Attach]);
            var page := OffsetFor(Values(c, first, Listing(c).entries));
            && b.offset == page && 3 in b.asked && b.asked[3] == page && 3 !in b.answered
            && b.poll.turn == 3 && b.poll.started && b.query.listening
            && Shows(Listing(c), b.query.browser)
               == Values(c, Canonical(c, elsewhere, Listing(c).entries), Listing(c).entries)
  {
    hide Values, Canonical, Written, OffsetFor;
    var o := Opened(c, [first], 0);
    var one, two, three, four := [Attach], [Attach, Detach], [Attach, Detach, Step.Navigate(elsewhere)],
      [Attach, Detach, Step.Navigate(elsewhere), Attach];
    assert one[..0] == [] && two[..1] == one && three[..2] == two && four[..3] == three;
    var b1 := Stepped(c, o, Attach);
    assert RunFrom(c, o, one) == b1;
    assert b1.poll.turn == 1 && b1.poll.started && b1.offset == OffsetFor(Values(c, first, Listing(c).entries));
    var b2 := Stepped(c, b1, Detach);
    assert RunFrom(c, o, two) == b2;
    assert b2.poll.turn == 2 && !b2.poll.started && !b2.query.listening;
    var b3 := Stepped(c, b2, Step.Navigate(elsewhere));
    assert RunFrom(c, o, three) == b3;
    assert b3.poll == b2.poll && Location(b3.query.browser) == elsewhere;
    assert RunFrom(c, o, four) == Stepped(c, b3, Attach);
  }

  /**
   Answered, that run fills the page: the rows are drawn as the page's, and are those of the
   address exactly when both addresses name one offset.
   */
  lemma AwayAndBackDraws(c: Codec, first: Query, elsewhere: Query, list: BlockList)
    requires RoundTrips(c) && list.offset == OffsetFor(Values(c, first, Listing(c).entries))
    ensures var b := RunFrom(c, Opened(c, [first], 0), AwayAndBack(elsewhere, list));
            var here := OffsetFor(Values(c, first, Listing(c).entries));
            var there := OffsetFor(Values(c, elsewhere, Listing(c).entries));
            && b.query.listening && b.heldFor == Some(b.offset) && b.drawn == Some(list) && b.rows == list.items
            && (list.offset == OffsetFor(Shows(Listing(c), b.query.browser)) <==> here == there)
  {
    hide Values, Canonical, OffsetFor, Listing, Opened, RoundTrips;
    SecondAttachAsks(c, first, elsewhere);
    CorrectionKeepsValues(c, elsewhere, Listing(c).entries);
    assert AwayAndBack(elsewhere, list)[..4] == [Attach, Detach, Step.Navigate(elsewhere), Attach];
  }

  /** Leaving the first page for the second address is such a case: rows from offset 0 stand under page 2. */
  lemma FirstPageUnderSecondAddress(c: Codec)
    requires RoundTrips(c)
    ensures OffsetFor(Values(c, [], Listing(c).entries)) == 0.0
    ensures OffsetFor(Values(c, [Param(PAGE, c.text(2.0))], Listing(c).entries)) == 25.0
  {
    hide Written;
    ListingValues(c, []);
    ListingValues(c, [Param(PAGE, c.text(2.0))]);
    assert Get([Param(PAGE, c.text(2.0))], PAGE) == Some(c.text(2.0)) by {
      GetSnoc([], Param(PAGE, c.text(2.0)), PAGE);
    }
    WantedReads(c, 2.0);
    assert LAST_PAGE == 4001.0;
  }

  // ----- what the page says of its last answers

  /** The answers that found their run live, in order. */
  function LiveAnswers(c: Codec, b: Blocks, steps: seq<Step>): seq<Answer>
    requires Ready(b.query)
  {
    if steps == [] then []
    else
      var front, step := steps[..|steps| - 1], steps[|steps| - 1];
      var d := RunFrom(c, b, front);
      LiveAnswers(c, b, front)
      + if Enabled(d, step) && step.Answered? && step.run == d.poll.turn then [step.answer] else []
  }

  /** The rows of the last answer that was not a failure. */
  function LastRows(answers: seq<Answer>, rows: seq<string>): seq<string> {
    if answers == [] then rows
    else match answers[|answers| - 1]
      case Items(list) => list.items
      case _ => LastRows(answers[..|answers| - 1], rows)
  }

  /** What the last answer that was not cancelled said: a failure says why, and rows say nothing. */
  function LastError(answers: seq<Answer>, error: string): string {
    if answers == [] then error
    else match answers[|answers| - 1]
      case Items(_) => ""
      case Failed(message) => message
      case Cancelled => LastError(answers[..|answers| - 1], error)
  }

  lemma {:induction false} SaysSince(c: Codec, b: Blocks, steps: seq<Step>)
    requires Ready(b.query)
    ensures var d, answers := RunFrom(c, b, steps), LiveAnswers(c, b, steps);
            && d.rows == LastRows(answers, b.rows) && d.error == LastError(answers, b.error)
            && (d.loading <==> b.loading && answers == [])
  {
    hide Stepped, Enabled;
    if steps != [] {
      var front, step := steps[..|steps| - 1], steps[|steps| - 1];
      SaysSince(c, b, front);
      var d := RunFrom(c, b, front);
      var before, now := LiveAnswers(c, b, front), LiveAnswers(c, b, steps);
      if Enabled(d, step) {
        StepSays(c, d, step);
      }
      if Enabled(d, step) && step.Answered? && step.run == d.poll.turn {
        assert now == before + [step.answer] && now[..|now| - 1] == before;
      } else {
        assert now == before;
      }
    }
  }

  /**
   In every run of a page the rows on screen are those of the last live answer that brought any, none before it;
   a failure keeps them and says why, until rows come; and it is loading until the first live answer of any kind.
   */
  lemma ScreenSays(c: Codec, stack: seq<Query>, at: nat, steps: seq<Step>)
    requires at < |stack|
    ensures var start := Opened(c, stack, at);
            var d, answers := RunFrom(c, start, steps), LiveAnswers(c, start, steps);
            && d.rows == LastRows(answers, []) && d.error == LastError(answers, "") && (d.loading <==> answers == [])
  {
    hide LastRows, LastError, LiveAnswers, RunFrom;
    SaysSince(c, Opened(c, stack, at), steps);
  }

  lemma StepSays(c: Codec, b: Blocks, step: Step)
    requires Ready(b.query) && Enabled(b, step)
    ensures var d := Stepped(c, b, step);
            if step.Answered? && step.run == b.poll.turn then
              && !d.loading
              && (if step.answer.Items? then d.rows == step.answer.list.items else d.rows == b.rows)
              && d.error == (match step.answer case Items(_) => "" case Failed(why) => why case Cancelled => b.error)
            else d.rows == b.rows && d.error == b.error && d.loading == b.loading
  {
    hide Values, Canonical, Written, OffsetFor, Listing;
  }

  /** The runs whose rows were taken: the live ones that brought any. */
  function TakenRuns(c: Codec, b: Blocks, steps: seq<Step>): seq<nat>
    requires Ready(b.query)
  {
    if steps == [] then []
    else
      var front, step := steps[..|steps| - 1], steps[|steps| - 1];
      var d := RunFrom(c, b, front);
      TakenRuns(c, b, front)
      + if Enabled(d, step) && step.Answered? && step.run == d.poll.turn && step.answer.Items? then [step.run] else []
  }

  lemma {:induction false} AcceptedAreTaken(c: Codec, b: Blocks, steps: seq<Step>)
    requires Ready(b.query)
    ensures RunFrom(c, b, steps).accepted == b.accepted + TakenRuns(c, b, steps)
  {
    hide Stepped, Enabled;
    if steps != [] {
      var front, step := steps[..|steps| - 1], steps[|steps| - 1];
      AcceptedAreTaken(c, b, front);
      var d := RunFrom(c, b, front);
      if Enabled(d, step) {
        StepTakes(c, d, step);
      }
    }
  }

  lemma StepTakes(c: Codec, b: Blocks, step: Step)
    requires Ready(b.query) && Enabled(b, step)
    ensures Stepped(c, b, step).accepted
         == b.accepted + if step.Answered? && step.run == b.poll.turn && step.answer.Items? then [step.run] else []
  {
    hide Values, Canonical, Written, OffsetFor, Listing;
  }

  // ----- the page's polling is the poll controller's

  /** What a step of the page asks of its poll controller. */
  function AsksOfPoll(c: Codec, b: Blocks, step: Step): Option<Polling.Step>
    requires Ready(b.query) && Enabled(b, step)
  {
    match step
    case Attach => Some(Polling.Start)
    case Detach => Some(Polling.Stop)
    case Timer => Some(Polling.Timer)
    case Visibility(hidden) => Some(Polling.Visibility(hidden))
    case Answered(_, _) => None
    case _ => if |Stepped(c, b, step).query.told| > |b.query.told| then Some(Polling.Refresh) else None
  }

  function PollSteps(c: Codec, b: Blocks, steps: seq<Step>): seq<Polling.Step>
    requires Ready(b.query)
  {
    if steps == [] then []
    else
      var front, step := steps[..|steps| - 1], steps[|steps| - 1];
      var d := RunFrom(c, b, front);
      PollSteps(c, b, front)
      + if Enabled(d, step) && AsksOfPoll(c, d, step).Some? then [AsksOfPoll(c, d, step).value] else []
  }

  lemma FollowedPolls(b: Blocks, v: Binding)
    requires v.told == b.query.told || |v.told| > |b.query.told|
    ensures Followed(b, v).query.told == v.told
    ensures Followed(b, v).poll == if |v.told| > |b.query.told| then Polling.Refreshed(b.poll) else b.poll
  {
    hide OffsetFor;
  }

  /** A choice, a pop and a move in the app tell the view of one change or of none, the last two while it listens. */
  lemma ChoiceTells(g: Filters, v: Binding, next: State, push: bool)
    requires Ready(v)
    ensures var w := Chosen(g, v, next, push); w.told == v.told || |w.told| > |v.told|
  {
    hide Values, Canonical, Written;
  }

  lemma TravelTells(g: Filters, v: Binding, step: QueryController.Step)
    requires Ready(v) && QueryController.Enabled(g, v, step) && (step.Traverse? || step.Navigate?)
    ensures var w := QueryController.Next(g, v, step);
            (w.told == v.told || |w.told| > |v.told|) && (|w.told| > |v.told| ==> v.listening)
  {
    hide Values, Canonical, Written;
  }

  lemma StepPolls(c: Codec, b: Blocks, step: Step)
    requires Ready(b.query) && Enabled(b, step)
    ensures Stepped(c, b, step).poll
         == match AsksOfPoll(c, b, step) case Some(asked) => Polling.Next(b.poll, asked) case None => b.poll
  {
    hide Values, Canonical, Written, OffsetFor, Listing, Landed, Followed, Chosen, Popped;
    var g := Listing(c);
    match step {
      case Answered(run, answer) => LandedElsewhere(b, run, answer);
      case Move(older) =>
        var v := Chosen(g, b.query, Turned(b, older), true);
        ChoiceTells(g, b.query, Turned(b, older), true);
        FollowedPolls(b, v);
      case Traverse(to) =>
        var v := QueryController.Next(g, b.query, QueryController.Traverse(to));
        TravelTells(g, b.query, QueryController.Traverse(to));
        FollowedPolls(b, v);
      case Navigate(query) =>
        var v := QueryController.Next(g, b.query, QueryController.Navigate(query));
        TravelTells(g, b.query, QueryController.Navigate(query));
        FollowedPolls(b, v);
      case _ =>
    }
  }

  lemma AskIsEnabled(c: Codec, b: Blocks, step: Step)
    requires Ready(b.query) && Enabled(b, step) && Paired(b) && AsksOfPoll(c, b, step).Some?
    ensures Polling.Enabled(b.poll, AsksOfPoll(c, b, step).value)
  {
    hide Values, Canonical, Written, OffsetFor, Listing, Landed, Followed, Chosen, Popped;
    var g := Listing(c);
    match step {
      case Traverse(to) =>
        var v := QueryController.Next(g, b.query, QueryController.Traverse(to));
        TravelTells(g, b.query, QueryController.Traverse(to));
        FollowedPolls(b, v);
      case Navigate(query) =>
        var v := QueryController.Next(g, b.query, QueryController.Navigate(query));
        TravelTells(g, b.query, QueryController.Navigate(query));
        FollowedPolls(b, v);
      case _ =>
    }
  }

  /**
   In every run the page's poll is a run of the poll controller: started by attaching, stopped by detaching, and
   refreshed by exactly the moves that the page is told of.
   */
  lemma {:induction false} PollRefines(c: Codec, b: Blocks, steps: seq<Step>)
    requires Ready(b.query) && Kept(b) && Paired(b)
    ensures RunFrom(c, b, steps).poll == Polling.RunFrom(b.poll, PollSteps(c, b, steps))
  {
    hide Stepped, Enabled, Kept, AsksOfPoll;
    if steps != [] {
      var front, step := steps[..|steps| - 1], steps[|steps| - 1];
      PollRefines(c, b, front);
      RunKeeps(c, b, front);
      var d := RunFrom(c, b, front);
      var before, now := PollSteps(c, b, front), PollSteps(c, b, steps);
      if Enabled(d, step) {
        StepPolls(c, d, step);
        if AsksOfPoll(c, d, step).Some? {
          AskIsEnabled(c, d, step);
        }
      }
      if Enabled(d, step) && AsksOfPoll(c, d, step).Some? {
        assert now == before + [AsksOfPoll(c, d, step).value] && now[..|now| - 1] == before;
      } else {
        assert now == before;
      }
    }
  }
}
