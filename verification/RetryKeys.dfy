/**
 The panel's retry table against a server that binds a key to the first payload
 it sees under it: what lost answers, repeats and edits between attempts can do.
 */
module RetryKeys {
  import opened Wrappers
  import opened Sets
  import opened CanonicalJson
  import opened Texts
  import opened Fingerprint

  datatype Operation = Validate | Arm | Start | Abort | Recover

  /** A command of the panel: prepare a draft, or act on a run. */
  datatype Command = Create(request: Value) | OnRun(runKey: Text, operation: Operation)

  /** What the server fingerprints: the draft's canonical text, or the operation on its run and the request's body. */
  datatype Payload = Draft(text: Text) | Action(runKey: Text, operation: Operation, body: Text)

  function OperationText(operation: Operation): Text {
    match operation
    case Validate => [118, 97, 108, 105, 100, 97, 116, 101]
    case Arm => [97, 114, 109]
    case Start => [115, 116, 97, 114, 116]
    case Abort => [97, 98, 111, 114, 116]
    case Recover => [114, 101, 99, 111, 118, 101, 114]
  }

  const CREATE: Text := [99, 114, 101, 97, 116, 101]
  const PANEL: Text := [97, 100, 109, 105, 110, 45, 112, 97, 110, 101, 108, 58]  // "admin-panel:"

  function ScopeText(runKey: Text, operation: Text): Text { runKey + [COLON] + operation }

  function NewKey(scope: Text, seed: Text): Text { PANEL + scope + [COLON] + seed }

  // ----- what a command sends

  datatype Scenario = Scenario(id: Text, risk: Text)

  /** The scenario registry, and the scenario each run was prepared from. */
  datatype Lab = Lab(scenarios: seq<Scenario>, scenarioOf: Text -> Text)

  /** The first scenario of an id. */
  function Find(scenarios: seq<Scenario>, id: Text): (r: Option<Scenario>)
    ensures r.Some? ==> r.value in scenarios && r.value.id == id
  {
    if scenarios == [] then None
    else if scenarios[0].id == id then Some(scenarios[0])
    else Find(scenarios[1..], id)
  }

  /** The descriptor of the draft: of the scenario chosen in the form, or the registry's first. */
  function Descriptor(lab: Lab, drafted: Text): Option<Scenario> {
    if Find(lab.scenarios, drafted).Some? then Find(lab.scenarios, drafted)
    else if lab.scenarios != [] then Some(lab.scenarios[0])
    else None
  }

  /** The descriptor of a run; of the draft, when the run's own scenario is not registered. */
  function RunDescriptor(lab: Lab, drafted: Text, runKey: Text): Option<Scenario> {
    var own := Find(lab.scenarios, lab.scenarioOf(runKey));
    if own.Some? then own else Descriptor(lab, drafted)
  }

  predicate Named(c: Command) { c.Create? ==> Canonical(c.request).Ok? }

  /** A draft needs a scenario and a canonical text; arming needs a descriptor to acknowledge the risk of. */
  predicate Sendable(lab: Lab, drafted: Text, c: Command) {
    && Named(c)
    && match c
       case Create(_) => Descriptor(lab, drafted).Some?
       case OnRun(runKey, operation) => operation == Arm ==> RunDescriptor(lab, drafted, runKey).Some?
  }

  /** The retry scope of a command: of a draft, the draft itself. */
  function Scope(c: Command): Text
    requires Named(c)
  {
    match c
    case Create(request) => ScopeText(DraftScope(request).value, CREATE)
    case OnRun(runKey, operation) => ScopeText(runKey, OperationText(operation))
  }

  function PayloadOf(lab: Lab, drafted: Text, c: Command): Payload
    requires Sendable(lab, drafted, c)
  {
    match c
    case Create(request) => Draft(Canonical(request).value)
    case OnRun(runKey, operation) =>
      Action(runKey, operation, if operation == Arm then RunDescriptor(lab, drafted, runKey).value.risk else [])
  }

  /** A scenario the form can choose: the first of its id. */
  predicate Choosable(lab: Lab, i: nat) {
    i < |lab.scenarios| && Find(lab.scenarios, lab.scenarios[i].id) == Some(lab.scenarios[i])
  }

  /**
   What arming a run acknowledges does not depend on the draft: its scenario is registered, or all have one
   risk class.
   */
  ghost predicate Settled(lab: Lab, runKey: Text) {
    || Find(lab.scenarios, lab.scenarioOf(runKey)).Some?
    || forall i: nat, j: nat :: Choosable(lab, i) && Choosable(lab, j) ==>
        lab.scenarios[i].risk == lab.scenarios[j].risk
  }

  lemma {:induction false} FindAt(scenarios: seq<Scenario>, id: Text) returns (i: nat)
    requires Find(scenarios, id).Some?
    ensures i < |scenarios| && scenarios[i] == Find(scenarios, id).value
  {
    if scenarios[0].id == id {
      i := 0;
    } else {
      i := FindAt(scenarios[1..], id);
      i := i + 1;
    }
  }

  /** Whatever is drafted, its descriptor is a scenario the form can choose. */
  lemma DescriptorChoosable(lab: Lab, drafted: Text) returns (i: nat)
    requires Descriptor(lab, drafted).Some?
    ensures Choosable(lab, i) && lab.scenarios[i] == Descriptor(lab, drafted).value
  {
    if Find(lab.scenarios, drafted).Some? {
      i := FindAt(lab.scenarios, drafted);
    } else {
      i := 0;
    }
  }

  /** The risk class sent with an arming is fixed exactly for a settled run. */
  lemma ArmPayloadFixedIff(lab: Lab, runKey: Text)
    ensures Settled(lab, runKey) <==>
              forall d: Text, e: Text ::
                Sendable(lab, d, OnRun(runKey, Arm)) && Sendable(lab, e, OnRun(runKey, Arm)) ==>
                PayloadOf(lab, d, OnRun(runKey, Arm)) == PayloadOf(lab, e, OnRun(runKey, Arm))
  {
    var arm := OnRun(runKey, Arm);
    if Settled(lab, runKey) {
      forall d: Text, e: Text | Sendable(lab, d, arm) && Sendable(lab, e, arm)
        ensures PayloadOf(lab, d, arm) == PayloadOf(lab, e, arm)
      {
        if Find(lab.scenarios, lab.scenarioOf(runKey)).None? {
          var i := DescriptorChoosable(lab, d);
          var j := DescriptorChoosable(lab, e);
        }
      }
    } else {
      var i: nat, j: nat :| Choosable(lab, i) && Choosable(lab, j) && lab.scenarios[i].risk != lab.scenarios[j].risk;
      assert PayloadOf(lab, lab.scenarios[i].id, arm) != PayloadOf(lab, lab.scenarios[j].id, arm);
    }
  }

  // ----- what an arming acknowledges

  /** Scenario `i` of the registry, with no earlier one of its id. */
  predicate FirstOfId(lab: Lab, id: Text, i: nat) {
    i < |lab.scenarios| && lab.scenarios[i].id == id && forall j :: 0 <= j < i ==> lab.scenarios[j].id != id
  }

  predicate Registered(lab: Lab, id: Text) { exists i :: 0 <= i < |lab.scenarios| && lab.scenarios[i].id == id }

  lemma {:induction false} FindFirst(scenarios: seq<Scenario>, id: Text)
    ensures Find(scenarios, id) == None <==> forall i :: 0 <= i < |scenarios| ==> scenarios[i].id != id
    ensures forall i ::
              0 <= i < |scenarios| && scenarios[i].id == id && (forall j :: 0 <= j < i ==> scenarios[j].id != id) ==>
              Find(scenarios, id) == Some(scenarios[i])
  {
    if scenarios != [] && scenarios[0].id != id {
      FindFirst(scenarios[1..], id);
      assert forall i :: 0 < i < |scenarios| ==> scenarios[i] == scenarios[1..][i - 1];
      forall i | 0 <= i < |scenarios| && scenarios[i].id == id && forall j :: 0 <= j < i ==> scenarios[j].id != id
        ensures Find(scenarios, id) == Some(scenarios[i])
      {
        assert forall j :: 0 <= j < i - 1 ==> scenarios[1..][j] == scenarios[j + 1];
      }
    }
  }

  /**
   Arming a run acknowledges the risk of the run's own scenario. Of a run whose scenario is not registered it
   acknowledges that of the scenario drafted, and where that is not registered either, of the registry's first.
   */
  lemma ArmAcknowledges(lab: Lab, drafted: Text, runKey: Text, i: nat)
    ensures var arm := OnRun(runKey, Arm); var own := lab.scenarioOf(runKey);
            && (Sendable(lab, drafted, arm) <==> lab.scenarios != [])
            && (&& i < |lab.scenarios|
                && (FirstOfId(lab, own, i)
                    || (!Registered(lab, own) && FirstOfId(lab, drafted, i))
                    || (!Registered(lab, own) && !Registered(lab, drafted) && i == 0))
                ==> PayloadOf(lab, drafted, arm) == Action(runKey, Arm, lab.scenarios[i].risk))
  {
    FindFirst(lab.scenarios, lab.scenarioOf(runKey));
    FindFirst(lab.scenarios, drafted);
  }

  // ----- the table

  /** The key a scope is sent under: the one still owed, or a new one. */
  function KeyFor(keys: map<Text, Text>, scope: Text, seed: Text): Text {
    if scope in keys then keys[scope] else NewKey(scope, seed)
  }

  class RetryTable {
    var keys: map<Text, Text>

    constructor ()
      ensures keys == map[]
    {
      keys := map[];
    }

    method Idempotency(runKey: Text, operation: Text, seed: Text) returns (key: Text)
      modifies this
      ensures var scope := ScopeText(runKey, operation);
              key == KeyFor(old(keys), scope, seed) && keys == old(keys)[scope := key]
    {
      var scope := runKey + [COLON] + operation;
      if scope in keys {
        key := keys[scope];
        assert keys[scope := key] == keys;
        return;
      }
      key := NewKey(scope, seed);
      keys := keys[scope := key];
    }

    method CompletedOperation(runKey: Text, operation: Text)
      modifies this
      ensures keys == old(keys) - {ScopeText(runKey, operation)}
    {
      keys := keys - {runKey + [COLON] + operation};
    }
  }

  // ----- scopes and keys name what they are for

  predicate NoColon(t: Text) { forall i :: 0 <= i < |t| ==> t[i] != COLON }

  /** What follows the last colon, and what precedes it. */
  lemma LastColon(a: Text, x: Text, b: Text, y: Text)
    requires NoColon(x) && NoColon(y) && a + [COLON] + x == b + [COLON] + y
    ensures a == b && x == y
  {
    var s, t := a + [COLON] + x, b + [COLON] + y;
    assert s[|a|] == COLON && t[|b|] == COLON;
    assert forall p :: |a| < p < |s| ==> s[p] == x[p - |a| - 1];
    assert forall p :: |b| < p < |t| ==> t[p] == y[p - |b| - 1];
    assert |a| == |b|;
    assert s[..|a|] == a && t[..|b|] == b && s[|a| + 1..] == x && t[|b| + 1..] == y;
  }

  /** Fingerprints taken as collision-free between two drafts. */
  ghost predicate NoCollision(a: Value, b: Value) {
    DraftFingerprint(a) == DraftFingerprint(b) ==> Canonical(a) == Canonical(b)
  }

  /** Commands that share a scope send one payload, whatever is drafted when each is sent. */
  lemma ScopeFixesPayload(lab: Lab, d1: Text, c: Command, d2: Text, d: Command)
    requires Sendable(lab, d1, c) && Sendable(lab, d2, d) && Scope(c) == Scope(d)
    requires c.Create? && d.Create? ==> NoCollision(c.request, d.request)
    requires c.OnRun? && c.operation == Arm ==> Settled(lab, c.runKey)
    ensures PayloadOf(lab, d1, c) == PayloadOf(lab, d2, d)
  {
    hide Canonical, Label, Settled, RunDescriptor, Descriptor;
    var opC := if c.Create? then CREATE else OperationText(c.operation);
    var opD := if d.Create? then CREATE else OperationText(d.operation);
    assert NoColon(opC) && NoColon(opD);
    var atC := if c.Create? then DraftScope(c.request).value else c.runKey;
    var atD := if d.Create? then DraftScope(d.request).value else d.runKey;
    LastColon(atC, opC, atD, opD);
    assert c.Create? <==> d.Create? by { OperationsDiffer(); }
    if c.Create? {
      assert (DRAFT + DraftFingerprint(c.request).value)[6..] == DraftFingerprint(c.request).value;
      assert (DRAFT + DraftFingerprint(d.request).value)[6..] == DraftFingerprint(d.request).value;
    } else {
      OperationsDiffer();
      assert c == d;
      if c.operation == Arm {
        ArmPayloadFixedIff(lab, c.runKey);
      }
    }
  }

  lemma OperationsDiffer()
    ensures forall o, p :: OperationText(o) == OperationText(p) ==> o == p
    ensures forall o :: OperationText(o) != CREATE
  {
    forall o, p | OperationText(o) == OperationText(p) ensures o == p {
      assert OperationText(o)[0] == OperationText(p)[0] && OperationText(o)[1] == OperationText(p)[1];
    }
    forall o ensures OperationText(o) != CREATE {
      assert OperationText(o)[0] != CREATE[0];
    }
  }

  // ----- panel, network and server

  datatype Sent = Sent(scope: Text, key: Text, payload: Payload)

  datatype LogEntry = WasSent(sent: Sent) | Succeeded(scope: Text, key: Text)

  /**
   Every request ever sent stays deliverable: late, more than once, or never.
   `bound` is the server's record of keys, `done` the keys it has applied; `drafted` is the
   scenario chosen in the panel's form.
   */
  datatype World = World(
    drafted: Text, keys: map<Text, Text>, sent: seq<Sent>, answered: set<nat>,
    bound: map<Text, Payload>, done: set<Text>,
    minted: map<Text, Text>, seeds: set<Text>, applied: multiset<Text>, seen: multiset<Text>, log: seq<LogEntry>)

  const INITIALLY := World([], map[], [], {}, map[], {}, map[], {}, multiset{}, multiset{}, [])

  /**
   Pick changes the draft's scenario; Send draws a seed no key has used; Deliver brings request
   `id` to the server, which binds its key before it decides, and may then refuse; Answer brings
   its success back to the panel. A refusal, a conflict or a lost answer changes nothing the panel holds.
   */
  datatype Step =
    | Pick(scenario: Text)
    | Send(command: Command, seed: Text)
    | Deliver(id: nat, refused: bool)
    | Answer(id: nat)

  /** The server has the request's key bound to another payload. */
  predicate Conflicts(w: World, request: Sent) { request.key in w.bound && w.bound[request.key] != request.payload }

  predicate Enabled(w: World, step: Step, lab: Lab) {
    match step
    case Pick(_) => true
    case Send(c, seed) => Sendable(lab, w.drafted, c) && NoColon(seed) && seed !in w.seeds
    case Deliver(id, _) => id < |w.sent|
    case Answer(id) =>
      id < |w.sent| && id !in w.answered && w.sent[id].key in w.done && !Conflicts(w, w.sent[id])
  }

  function Delivered(w: World, request: Sent, refused: bool): World {
    if Conflicts(w, request) then w
    else
      var claimed := w.(bound := w.bound[request.key := request.payload]);
      if refused || request.key in w.done then claimed
      else claimed.(done := w.done + {request.key}, applied := w.applied + multiset{request.scope})
  }

  function Take(w: World, step: Step, lab: Lab): World
    requires Enabled(w, step, lab)
  {
    match step
    case Pick(scenario) => w.(drafted := scenario)
    case Send(c, seed) =>
      var scope := Scope(c);
      var key := KeyFor(w.keys, scope, seed);
      var sent := Sent(scope, key, PayloadOf(lab, w.drafted, c));
      w.(keys := w.keys[scope := key], sent := w.sent + [sent], log := w.log + [WasSent(sent)],
         seeds := w.seeds + {seed},
         minted := if scope in w.keys then w.minted else w.minted[key := scope])
    case Deliver(id, refused) => Delivered(w, w.sent[id], refused)
    case Answer(id) =>
      var scope := w.sent[id].scope;
      w.(keys := w.keys - {scope}, answered := w.answered + {id}, seen := w.seen + multiset{scope},
         log := w.log + [Succeeded(scope, w.sent[id].key)])
  }

  /** A run: each step is taken where it is possible and skipped where it is not. */
  function Run(steps: seq<Step>, lab: Lab): World {
    if steps == [] then INITIALLY
    else
      var w := Run(steps[..|steps| - 1], lab);
      var step := steps[|steps| - 1];
      if Enabled(w, step, lab) then Take(w, step, lab) else w
  }

  /** An arming of the run carries the risk. */
  predicate ArmsWith(payload: Payload, runKey: Text, risk: Text) {
    payload.Action? && payload.runKey == runKey && payload.operation == Arm ==> payload.body == risk
  }

  ghost predicate AllArmWith(w: World, runKey: Text, risk: Text) {
    && (forall k :: 0 <= k < |w.sent| ==> ArmsWith(w.sent[k].payload, runKey, risk))
    && (forall key :: key in w.bound ==> ArmsWith(w.bound[key], runKey, risk))
  }

  /** In every run, each arming of a run with a registered scenario carries that scenario's risk, to the server too. */
  lemma {:induction false} ArmingsCarryTheirRisk(steps: seq<Step>, lab: Lab, runKey: Text, i: nat)
    requires FirstOfId(lab, lab.scenarioOf(runKey), i)
    ensures AllArmWith(Run(steps, lab), runKey, lab.scenarios[i].risk)
  {
    hide Take, Enabled, AllArmWith;
    var risk := lab.scenarios[i].risk;
    if steps == [] {
      NothingArmed(runKey, risk);
    } else {
      var front, step := steps[..|steps| - 1], steps[|steps| - 1];
      ArmingsCarryTheirRisk(front, lab, runKey, i);
      if Enabled(Run(front, lab), step, lab) {
        StepArms(Run(front, lab), step, lab, runKey, i);
      }
    }
  }

  lemma NothingArmed(runKey: Text, risk: Text)
    ensures AllArmWith(INITIALLY, runKey, risk)
  {
  }

  lemma StepArms(w: World, step: Step, lab: Lab, runKey: Text, i: nat)
    requires FirstOfId(lab, lab.scenarioOf(runKey), i) && Enabled(w, step, lab)
    requires AllArmWith(w, runKey, lab.scenarios[i].risk)
    ensures AllArmWith(Take(w, step, lab), runKey, lab.scenarios[i].risk)
  {
    hide Sendable, Scope, KeyFor, PayloadOf, ArmsWith;
    if step.Send? {
      ArmSent(lab, w.drafted, step.command, runKey, i);
    }
  }

  lemma ArmSent(lab: Lab, drafted: Text, c: Command, runKey: Text, i: nat)
    requires Sendable(lab, drafted, c) && FirstOfId(lab, lab.scenarioOf(runKey), i)
    ensures ArmsWith(PayloadOf(lab, drafted, c), runKey, lab.scenarios[i].risk)
  {
    hide Canonical, RunDescriptor, Named;
    ArmAcknowledges(lab, drafted, runKey, i);
  }

  /** Every run that is armed is settled. */
  ghost predicate ArmsSettled(steps: seq<Step>, lab: Lab) {
    forall i :: 0 <= i < |steps| && steps[i].Send? && steps[i].command.OnRun? && steps[i].command.operation == Arm
      ==> Settled(lab, steps[i].command.runKey)
  }

  /** No two drafts of the run collide. */
  ghost predicate CollisionFree(steps: seq<Step>) {
    forall i, j :: 0 <= i < |steps| && 0 <= j < |steps|
      && steps[i].Send? && steps[j].Send? && steps[i].command.Create? && steps[j].command.Create?
      ==> NoCollision(steps[i].command.request, steps[j].command.request)
  }

  // ----- invariants of every run

  /** The keys of a collection that were minted for a scope. */
  function NamedIn(keys: set<Text>, minted: map<Text, Text>, scope: Text): set<Text> {
    set k | k in keys && k in minted && minted[k] == scope
  }

  function MintedFor(w: World, scope: Text): set<Text> { NamedIn(w.minted.Keys, w.minted, scope) }

  function DoneFor(w: World, scope: Text): set<Text> { NamedIn(w.done, w.minted, scope) }

  lemma NamedElsewhere(keys: set<Text>, minted: map<Text, Text>, more: map<Text, Text>, scope: Text)
    requires keys <= minted.Keys && keys <= more.Keys && forall k :: k in keys ==> more[k] == minted[k]
    ensures NamedIn(keys, more, scope) == NamedIn(keys, minted, scope)
  {
  }

  lemma NamedMint(keys: set<Text>, minted: map<Text, Text>, key: Text, at: Text, scope: Text)
    requires key !in minted && keys <= minted.Keys
    ensures NamedIn(keys, minted[key := at], scope) == NamedIn(keys, minted, scope)
    ensures |NamedIn(minted[key := at].Keys, minted[key := at], scope)|
         == |NamedIn(minted.Keys, minted, scope)| + if at == scope then 1 else 0
  {
    hide NamedIn;
    var more := minted[key := at];
    NamedElsewhere(keys, minted, more, scope);
    NamedElsewhere(minted.Keys, minted, more, scope);
    NamedBind(minted.Keys, more, key, scope);
    assert more.Keys == minted.Keys + {key};
  }

  lemma NamedBind(keys: set<Text>, minted: map<Text, Text>, key: Text, scope: Text)
    requires key in minted && key !in keys
    ensures |NamedIn(keys + {key}, minted, scope)|
         == |NamedIn(keys, minted, scope)| + if minted[key] == scope then 1 else 0
  {
    assert NamedIn(keys + {key}, minted, scope)
        == NamedIn(keys, minted, scope) + if minted[key] == scope then {key} else {};
  }

  ghost predicate KeysKept(w: World) {
    && (forall s :: s in w.keys ==> w.keys[s] in w.minted && w.minted[w.keys[s]] == s)
    && (forall i :: 0 <= i < |w.sent| ==> w.sent[i].key in w.minted && w.minted[w.sent[i].key] == w.sent[i].scope)
    && w.done <= w.minted.Keys
    && (forall k :: k in w.minted ==> exists seed :: seed in w.seeds && NoColon(seed) && k == NewKey(w.minted[k], seed))
  }

  ghost predicate Counted(w: World) {
    forall s ::
      && |MintedFor(w, s)| <= w.seen[s] + (if s in w.keys then 1 else 0)
      && w.applied[s] == |DoneFor(w, s)|
  }

  lemma FreshKey(w: World, scope: Text, seed: Text)
    requires KeysKept(w) && NoColon(seed) && seed !in w.seeds
    ensures NewKey(scope, seed) !in w.minted
  {
    var key := NewKey(scope, seed);
    if key in w.minted {
      var other :| other in w.seeds && NoColon(other) && key == NewKey(w.minted[key], other);
      LastColon(PANEL + scope, seed, PANEL + w.minted[key], other);
    }
  }

  lemma SendKeepsKeys(w: World, c: Command, seed: Text, lab: Lab)
    requires Enabled(w, Send(c, seed), lab) && KeysKept(w)
    ensures KeysKept(Take(w, Send(c, seed), lab))
  {
    hide Scope, PayloadOf, NewKey, NoColon, Descriptor, RunDescriptor;
    var t := Take(w, Send(c, seed), lab);
    var scope := Scope(c);
    var key := KeyFor(w.keys, scope, seed);
    if scope !in w.keys {
      FreshKey(w, scope, seed);
    }
    forall k | k in t.minted ensures exists x :: x in t.seeds && NoColon(x) && k == NewKey(t.minted[k], x) {
      if k in w.minted {
        var x :| x in w.seeds && NoColon(x) && k == NewKey(w.minted[k], x);
        assert x in t.seeds;
      } else {
        assert seed in t.seeds && k == key;
      }
    }
  }

  lemma SendCounts(w: World, c: Command, seed: Text, lab: Lab, s: Text)
    requires Enabled(w, Send(c, seed), lab) && KeysKept(w) && Counted(w)
    ensures var t := Take(w, Send(c, seed), lab);
            && |MintedFor(t, s)| <= t.seen[s] + (if s in t.keys then 1 else 0)
            && t.applied[s] == |DoneFor(t, s)|
  {
    hide Scope, PayloadOf, NewKey, NoColon, Descriptor, RunDescriptor, NamedIn;
    var t := Take(w, Send(c, seed), lab);
    var scope := Scope(c);
    if scope !in w.keys {
      FreshKey(w, scope, seed);
      NamedMint(w.done, w.minted, NewKey(scope, seed), scope, s);
    }
    assert |MintedFor(w, s)| <= w.seen[s] + (if s in w.keys then 1 else 0);
  }

  lemma SendKeeps(w: World, c: Command, seed: Text, lab: Lab)
    requires Enabled(w, Send(c, seed), lab) && KeysKept(w) && Counted(w)
    ensures var t := Take(w, Send(c, seed), lab); KeysKept(t) && Counted(t)
  {
    hide Take, KeysKept, Enabled, MintedFor, DoneFor;
    SendKeepsKeys(w, c, seed, lab);
    forall s {
      SendCounts(w, c, seed, lab, s);
    }
  }

  lemma DeliverCounts(w: World, id: nat, refused: bool, lab: Lab, s: Text)
    requires Enabled(w, Deliver(id, refused), lab) && KeysKept(w) && Counted(w)
    ensures var t := Take(w, Deliver(id, refused), lab);
            && |MintedFor(t, s)| <= t.seen[s] + (if s in t.keys then 1 else 0)
            && t.applied[s] == |DoneFor(t, s)|
  {
    hide NewKey, NoColon, NamedIn;
    var t := Take(w, Deliver(id, refused), lab);
    var request := w.sent[id];
    if request.key !in w.done && !refused && !Conflicts(w, request) {
      NamedBind(w.done, w.minted, request.key, s);
    }
  }

  lemma DeliverKeeps(w: World, id: nat, refused: bool, lab: Lab)
    requires Enabled(w, Deliver(id, refused), lab) && KeysKept(w) && Counted(w)
    ensures var t := Take(w, Deliver(id, refused), lab); KeysKept(t) && Counted(t)
  {
    hide MintedFor, DoneFor, NewKey, NoColon;
    forall s {
      DeliverCounts(w, id, refused, lab, s);
    }
  }

  lemma AnswerCounts(w: World, id: nat, lab: Lab, s: Text)
    requires Enabled(w, Answer(id), lab) && KeysKept(w) && Counted(w)
    ensures var t := Take(w, Answer(id), lab);
            && |MintedFor(t, s)| <= t.seen[s] + (if s in t.keys then 1 else 0)
            && t.applied[s] == |DoneFor(t, s)|
  {
    hide NewKey, NoColon;
    var t := Take(w, Answer(id), lab);
    assert MintedFor(t, s) == MintedFor(w, s) && DoneFor(t, s) == DoneFor(w, s);
    assert |MintedFor(w, s)| <= w.seen[s] + (if s in w.keys then 1 else 0);
  }

  lemma AnswerKeeps(w: World, id: nat, lab: Lab)
    requires Enabled(w, Answer(id), lab) && KeysKept(w) && Counted(w)
    ensures var t := Take(w, Answer(id), lab); KeysKept(t) && Counted(t)
  {
    hide MintedFor, DoneFor, NewKey, NoColon;
    forall s {
      AnswerCounts(w, id, lab, s);
    }
  }

  lemma PickKeeps(w: World, step: Step, lab: Lab)
    requires step.Pick? && KeysKept(w) && Counted(w)
    ensures KeysKept(Take(w, step, lab)) && Counted(Take(w, step, lab))
  {
    hide NewKey, NoColon, NamedIn;
    var t := Take(w, step, lab);
    assert forall s :: MintedFor(t, s) == MintedFor(w, s) && DoneFor(t, s) == DoneFor(w, s);
  }

  lemma {:induction false} RunKeeps(steps: seq<Step>, lab: Lab)
    ensures KeysKept(Run(steps, lab)) && Counted(Run(steps, lab))
  {
    hide KeysKept, Counted, Enabled;
    if steps == [] {
      InitiallyKept();
    } else {
      RunKeeps(steps[..|steps| - 1], lab);
      var w, step := Run(steps[..|steps| - 1], lab), steps[|steps| - 1];
      if Enabled(w, step, lab) {
        match step {
          case Pick(_) => PickKeeps(w, step, lab);
          case Send(c, seed) => SendKeeps(w, c, seed, lab);
          case Deliver(id, refused) => DeliverKeeps(w, id, refused, lab);
          case Answer(id) => AnswerKeeps(w, id, lab);
        }
      }
    }
  }

  lemma InitiallyKept()
    ensures KeysKept(INITIALLY) && Counted(INITIALLY)
  {
    forall s ensures MintedFor(INITIALLY, s) == {} && DoneFor(INITIALLY, s) == {} {
    }
  }

  /** Per scope the server applies at most one more time than the panel has seen succeed. */
  lemma AppliedAtMostOnceMore(steps: seq<Step>, lab: Lab, scope: Text)
    ensures Run(steps, lab).applied[scope] <= Run(steps, lab).seen[scope] + 1
  {
    RunKeeps(steps, lab);
    var w := Run(steps, lab);
    assert DoneFor(w, scope) <= MintedFor(w, scope);
    SubsetSize(DoneFor(w, scope), MintedFor(w, scope));
  }

  // ----- one key, one payload

  ghost predicate FromSteps(w: World, steps: seq<Step>, lab: Lab) {
    forall i :: 0 <= i < |w.sent| ==> exists j :: 0 <= j < |steps| && SentBy(w.sent[i], steps[j], lab)
  }

  ghost predicate SentBy(sent: Sent, step: Step, lab: Lab) {
    && step.Send? && Named(step.command) && sent.scope == Scope(step.command)
    && exists drafted: Text :: Sendable(lab, drafted, step.command)
        && sent.payload == PayloadOf(lab, drafted, step.command)
  }

  lemma {:induction false} RunFromSteps(steps: seq<Step>, lab: Lab)
    ensures FromSteps(Run(steps, lab), steps, lab)
  {
    hide SentBy, Sendable, Scope, PayloadOf;
    if steps != [] {
      var front, step := steps[..|steps| - 1], steps[|steps| - 1];
      RunFromSteps(front, lab);
      var w, t := Run(front, lab), Run(steps, lab);
      forall i | 0 <= i < |t.sent| ensures exists j :: 0 <= j < |steps| && SentBy(t.sent[i], steps[j], lab) {
        if i < |w.sent| {
          var j :| 0 <= j < |front| && SentBy(w.sent[i], front[j], lab);
          assert steps[j] == front[j] && t.sent[i] == w.sent[i];
        } else {
          assert SentBy(t.sent[i], steps[|steps| - 1], lab) by {
            SendIsSent(w, step, lab);
          }
        }
      }
    }
  }

  lemma SendIsSent(w: World, step: Step, lab: Lab)
    requires Enabled(w, step, lab) && step.Send?
    ensures SentBy(Take(w, step, lab).sent[|w.sent|], step, lab)
  {
  }

  /**
   Where no drafts collide and every armed run is settled, the server never sees one key with two different
   payloads.
   */
  lemma OneKeyOnePayload(steps: seq<Step>, lab: Lab, i: nat, j: nat)
    requires CollisionFree(steps) && ArmsSettled(steps, lab)
    requires i < |Run(steps, lab).sent| && j < |Run(steps, lab).sent|
    requires Run(steps, lab).sent[i].key == Run(steps, lab).sent[j].key
    ensures Run(steps, lab).sent[i].payload == Run(steps, lab).sent[j].payload
  {
    hide Sendable, PayloadOf, Scope, Settled, NoCollision;
    var w := Run(steps, lab);
    RunKeeps(steps, lab);
    RunFromSteps(steps, lab);
    var a :| 0 <= a < |steps| && SentBy(w.sent[i], steps[a], lab);
    var b :| 0 <= b < |steps| && SentBy(w.sent[j], steps[b], lab);
    assert w.sent[i].scope == w.sent[j].scope;
    SentAlike(lab, w.sent[i], steps[a], w.sent[j], steps[b]);
  }

  lemma SentAlike(lab: Lab, x: Sent, a: Step, y: Sent, b: Step)
    requires SentBy(x, a, lab) && SentBy(y, b, lab) && x.scope == y.scope
    requires a.command.Create? && b.command.Create? ==> NoCollision(a.command.request, b.command.request)
    requires a.command.OnRun? && a.command.operation == Arm ==> Settled(lab, a.command.runKey)
    ensures x.payload == y.payload
  {
    hide Sendable, PayloadOf, Scope, Settled, NoCollision;
    var d1: Text :| Sendable(lab, d1, a.command) && x.payload == PayloadOf(lab, d1, a.command);
    var d2: Text :| Sendable(lab, d2, b.command) && y.payload == PayloadOf(lab, d2, b.command);
    ScopeFixesPayload(lab, d1, a.command, d2, b.command);
  }

  /** The run after one more step. */
  lemma RunSnoc(steps: seq<Step>, step: Step, lab: Lab)
    ensures Run(steps + [step], lab)
         == if Enabled(Run(steps, lab), step, lab) then Take(Run(steps, lab), step, lab) else Run(steps, lab)
  {
    assert (steps + [step])[..|steps|] == steps;
  }

  /** The server does see two, as soon as two different drafts that do collide are prepared one after the other. */
  lemma CollidingDraftsConflict(a: Value, b: Value, s: Text, t: Text, lab: Lab)
    requires Canonical(a).Ok? && Canonical(b).Ok? && !NoCollision(a, b) && lab.scenarios != []
    requires NoColon(s) && NoColon(t) && s != t
    ensures var w := Run([Send(Create(a), s), Send(Create(b), t)], lab);
            && |w.sent| == 2 && w.sent[0].key == w.sent[1].key
            && w.sent[0].payload == Draft(Canonical(a).value) && w.sent[1].payload == Draft(Canonical(b).value)
            && w.sent[0].payload != w.sent[1].payload
  {
    hide Canonical, Label, NoColon, Find, NewKey, ScopeText;
    var one := [Send(Create(a), s)];
    RunSnoc([], Send(Create(a), s), lab);
    RunSnoc(one, Send(Create(b), t), lab);
    assert Run([], lab) == INITIALLY && [] + one == one
        && one + [Send(Create(b), t)] == [Send(Create(a), s), Send(Create(b), t)];
    var w := Take(INITIALLY, Send(Create(a), s), lab);
    assert Run(one, lab) == w && Scope(Create(a)) == Scope(Create(b));
    assert w.keys == map[Scope(Create(a)) := NewKey(Scope(Create(a)), s)];
    assert w.seeds == {s} && Enabled(w, Send(Create(b), t), lab);
  }

  /** Arm, be refused, choose another scenario for the draft, and arm again. */
  function RearmedSteps(lab: Lab, runKey: Text, i: nat, j: nat, s: Text, t: Text): seq<Step>
    requires i < |lab.scenarios| && j < |lab.scenarios|
  {
    [Pick(lab.scenarios[i].id), Send(OnRun(runKey, Arm), s), Deliver(0, true),
     Pick(lab.scenarios[j].id), Send(OnRun(runKey, Arm), t)]
  }

  /**
   And whenever a run that is not settled is armed twice around a change of the draft's scenario: one key, two
   risk classes, and a conflict.
   */
  lemma UnsettledArmConflicts(lab: Lab, runKey: Text, i: nat, j: nat, s: Text, t: Text)
    requires Find(lab.scenarios, lab.scenarioOf(runKey)).None?
    requires Choosable(lab, i) && Choosable(lab, j) && lab.scenarios[i].risk != lab.scenarios[j].risk
    requires NoColon(s) && NoColon(t) && s != t
    ensures var w := Run(RearmedSteps(lab, runKey, i, j, s, t), lab);
            && |w.sent| == 2 && w.sent[0].key == w.sent[1].key
            && w.sent[0].payload == Action(runKey, Arm, lab.scenarios[i].risk)
            && w.sent[1].payload == Action(runKey, Arm, lab.scenarios[j].risk)
            && Conflicts(w, w.sent[1])
  {
    hide NoColon, Find, NewKey, ScopeText, OperationText;
    var arm := OnRun(runKey, Arm);
    var w1 := Take(INITIALLY, Pick(lab.scenarios[i].id), lab);
    var w2 := Take(w1, Send(arm, s), lab);
    assert w2.sent == [Sent(Scope(arm), NewKey(Scope(arm), s), Action(runKey, Arm, lab.scenarios[i].risk))];
    var w3 := Take(w2, Deliver(0, true), lab);
    assert w3 == w2.(bound := map[w2.sent[0].key := w2.sent[0].payload]);
    var w4 := Take(w3, Pick(lab.scenarios[j].id), lab);
    var w5 := Take(w4, Send(arm, t), lab);
    assert w5.sent == w2.sent + [Sent(Scope(arm), NewKey(Scope(arm), s), Action(runKey, Arm, lab.scenarios[j].risk))];
    FiveSteps(RearmedSteps(lab, runKey, i, j, s, t), w1, w2, w3, w4, w5, lab);
  }

  lemma FiveSteps(steps: seq<Step>, w1: World, w2: World, w3: World, w4: World, w5: World, lab: Lab)
    requires |steps| == 5
    requires Enabled(INITIALLY, steps[0], lab) && w1 == Take(INITIALLY, steps[0], lab)
    requires Enabled(w1, steps[1], lab) && w2 == Take(w1, steps[1], lab)
    requires Enabled(w2, steps[2], lab) && w3 == Take(w2, steps[2], lab)
    requires Enabled(w3, steps[3], lab) && w4 == Take(w3, steps[3], lab)
    requires Enabled(w4, steps[4], lab) && w5 == Take(w4, steps[4], lab)
    ensures Run(steps, lab) == w5
  {
    hide Enabled, Take;
    assert steps[..1][..0] == [] && steps[..2][..1] == steps[..1] && steps[..3][..2] == steps[..2]
        && steps[..4][..3] == steps[..3] && steps[..5] == steps;
    assert Run([], lab) == INITIALLY;
    assert Run(steps[..1], lab) == w1;
    assert Run(steps[..2], lab) == w2;
    assert Run(steps[..3], lab) == w3;
    assert Run(steps[..4], lab) == w4;
  }

  ghost predicate BoundBySent(w: World) {
    forall k :: k in w.bound ==> exists i :: 0 <= i < |w.sent| && w.sent[i].key == k && w.sent[i].payload == w.bound[k]
  }

  lemma {:induction false} RunBinds(steps: seq<Step>, lab: Lab)
    ensures BoundBySent(Run(steps, lab))
  {
    hide Sendable, Scope, PayloadOf, KeyFor, NoColon;
    if steps != [] {
      var front, step := steps[..|steps| - 1], steps[|steps| - 1];
      RunBinds(front, lab);
      var w, t := Run(front, lab), Run(steps, lab);
      forall k | k in t.bound
        ensures exists i :: 0 <= i < |t.sent| && t.sent[i].key == k && t.sent[i].payload == t.bound[k]
      {
        if k in w.bound {
          var i :| 0 <= i < |w.sent| && w.sent[i].key == k && w.sent[i].payload == w.bound[k];
          assert t.sent[i] == w.sent[i];
        } else {
          assert t.sent[step.id].key == k;
        }
      }
    }
  }

  /** So no request the panel ever sends in such a run can meet the server's conflict answer. */
  lemma NeverAConflict(steps: seq<Step>, lab: Lab, id: nat)
    requires CollisionFree(steps) && ArmsSettled(steps, lab) && id < |Run(steps, lab).sent|
    ensures !Conflicts(Run(steps, lab), Run(steps, lab).sent[id])
  {
    hide CollisionFree, ArmsSettled;
    var w := Run(steps, lab);
    RunBinds(steps, lab);
    if w.sent[id].key in w.bound {
      var i :| 0 <= i < |w.sent| && w.sent[i].key == w.sent[id].key && w.sent[i].payload == w.bound[w.sent[id].key];
      OneKeyOnePayload(steps, lab, i, id);
    }
  }

  // ----- repeats

  predicate SucceededFor(entry: LogEntry, scope: Text) { entry.Succeeded? && entry.scope == scope }

  /** What is owed: the last send of a scope with no success of that scope after it. */
  ghost predicate Owed(log: seq<LogEntry>, i: nat) {
    && i < |log| && log[i].WasSent?
    && forall j :: i < j < |log| ==> !SucceededFor(log[j], log[i].sent.scope)
  }

  ghost predicate OwedHeld(w: World) {
    forall i: nat :: Owed(w.log, i) ==>
        w.log[i].sent.scope in w.keys && w.keys[w.log[i].sent.scope] == w.log[i].sent.key
  }

  lemma {:induction false} RunOwes(steps: seq<Step>, lab: Lab)
    ensures OwedHeld(Run(steps, lab))
  {
    hide Sendable, Scope, PayloadOf, NoColon;
    if steps == [] {
      assert Run(steps, lab).log == [];
    } else {
      var front, step := steps[..|steps| - 1], steps[|steps| - 1];
      RunOwes(front, lab);
      var w, t := Run(front, lab), Run(steps, lab);
      forall i: nat | Owed(t.log, i)
        ensures t.log[i].sent.scope in t.keys && t.keys[t.log[i].sent.scope] == t.log[i].sent.key
      {
        if i < |w.log| {
          assert t.log[i] == w.log[i];
          assert forall j :: i < j < |w.log| ==> t.log[j] == w.log[j];
          assert Owed(w.log, i);
          assert |t.log| > |w.log| ==> !SucceededFor(t.log[|w.log|], w.log[i].sent.scope);
        }
      }
    }
  }

  /** A request repeated before any success of its scope carries the key it was first sent with. */
  lemma {:induction false} RepeatsCarryTheirKey(steps: seq<Step>, lab: Lab, i: nat, j: nat)
    requires i < j < |Run(steps, lab).log|
    requires Run(steps, lab).log[i].WasSent? && Run(steps, lab).log[j].WasSent?
    requires Run(steps, lab).log[i].sent.scope == Run(steps, lab).log[j].sent.scope
    requires forall m :: i < m < j ==> !SucceededFor(Run(steps, lab).log[m], Run(steps, lab).log[i].sent.scope)
    ensures Run(steps, lab).log[i].sent.key == Run(steps, lab).log[j].sent.key
  {
    hide Sendable, Scope, PayloadOf, NoColon;
    var front := steps[..|steps| - 1];
    var w, t := Run(front, lab), Run(steps, lab);
    assert w.log <= t.log;
    if j < |w.log| {
      assert forall m :: 0 <= m < |w.log| ==> w.log[m] == t.log[m];
      RepeatsCarryTheirKey(front, lab, i, j);
    } else {
      RunOwes(front, lab);
      assert forall m :: 0 <= m < |w.log| ==> w.log[m] == t.log[m];
      assert Owed(w.log, i);
    }
  }

  // ----- a key is kept until its own success

  /** The success of request `id` retires no key but its own. */
  predicate RetiresOwn(w: World, id: nat)
    requires id < |w.sent|
  {
    w.sent[id].scope in w.keys ==> w.keys[w.sent[id].scope] == w.sent[id].key
  }

  ghost predicate OwnRetirements(steps: seq<Step>, lab: Lab) {
    forall k: nat :: k < |steps| && steps[k].Answer? && Enabled(Run(steps[..k], lab), steps[k], lab)
      ==> RetiresOwn(Run(steps[..k], lab), steps[k].id)
  }

  /** One request is out at a time: a success that comes in is the newest request's. */
  ghost predicate OneOut(steps: seq<Step>, lab: Lab) {
    forall k: nat :: k < |steps| && steps[k].Answer? && Enabled(Run(steps[..k], lab), steps[k], lab)
      ==> steps[k].id == |Run(steps[..k], lab).sent| - 1
  }

  lemma {:induction false} NewestIsOwed(steps: seq<Step>, lab: Lab)
    ensures var w := Run(steps, lab); w.sent != [] ==> RetiresOwn(w, |w.sent| - 1)
  {
    hide Sendable, Named, Scope, PayloadOf, NoColon, KeyFor;
    if steps != [] {
      NewestIsOwed(steps[..|steps| - 1], lab);
    }
  }

  lemma OneOutRetiresOwn(steps: seq<Step>, lab: Lab)
    requires OneOut(steps, lab)
    ensures OwnRetirements(steps, lab)
  {
    hide Run, RetiresOwn, Enabled;
    forall k: nat | k < |steps| && steps[k].Answer? && Enabled(Run(steps[..k], lab), steps[k], lab)
      ensures RetiresOwn(Run(steps[..k], lab), steps[k].id)
    {
      NewestIsOwed(steps[..k], lab);
      AnswerIsSent(Run(steps[..k], lab), steps[k], lab);
    }
  }

  lemma AnswerIsSent(w: World, step: Step, lab: Lab)
    requires step.Answer? && Enabled(w, step, lab)
    ensures step.id < |w.sent|
  {
  }

  predicate SucceededUnder(entry: LogEntry, key: Text) { entry.Succeeded? && entry.key == key }

  /** A send under whose key nothing has succeeded since. */
  ghost predicate Uncertain(log: seq<LogEntry>, i: nat) {
    i < |log| && log[i].WasSent? && forall j :: i < j < |log| ==> !SucceededUnder(log[j], log[i].sent.key)
  }

  ghost predicate UncertainHeld(w: World) {
    forall i: nat :: Uncertain(w.log, i) ==>
      w.log[i].sent.scope in w.keys && w.keys[w.log[i].sent.scope] == w.log[i].sent.key
  }

  lemma UncertainBefore(w: World, t: World, i: nat)
    requires w.log <= t.log && i < |w.log| && Uncertain(t.log, i)
    ensures Uncertain(w.log, i) && t.log[i] == w.log[i]
    ensures forall j :: |w.log| <= j < |t.log| ==> !SucceededUnder(t.log[j], w.log[i].sent.key)
  {
  }

  lemma UncertainAfter(w: World, step: Step, lab: Lab, i: nat)
    requires Enabled(w, step, lab) && UncertainHeld(w) && (step.Answer? ==> RetiresOwn(w, step.id))
    requires Uncertain(Take(w, step, lab).log, i)
    ensures var t := Take(w, step, lab);
            t.log[i].sent.scope in t.keys && t.keys[t.log[i].sent.scope] == t.log[i].sent.key
  {
    hide Sendable, Named, Scope, PayloadOf, NoColon;
    var t := Take(w, step, lab);
    assert w.log <= t.log;
    if i < |w.log| {
      UncertainBefore(w, t, i);
      HeldKey(w, i);
      if step.Answer? {
        assert !SucceededUnder(t.log[|w.log|], w.log[i].sent.key);
      }
    } else {
      assert step.Send?;
    }
  }

  lemma StepKeepsUncertain(w: World, step: Step, lab: Lab)
    requires Enabled(w, step, lab) && UncertainHeld(w) && (step.Answer? ==> RetiresOwn(w, step.id))
    ensures UncertainHeld(Take(w, step, lab))
  {
    hide Take, Enabled;
    forall i: nat | Uncertain(Take(w, step, lab).log, i)
      ensures var t := Take(w, step, lab);
              t.log[i].sent.scope in t.keys && t.keys[t.log[i].sent.scope] == t.log[i].sent.key
    {
      UncertainAfter(w, step, lab, i);
    }
  }

  lemma {:induction false} RunHoldsUncertain(steps: seq<Step>, lab: Lab)
    requires OwnRetirements(steps, lab)
    ensures UncertainHeld(Run(steps, lab))
  {
    hide UncertainHeld, Take, Enabled, RetiresOwn;
    if steps == [] {
      NothingUncertain();
    } else {
      var front := steps[..|steps| - 1];
      assert forall k: nat :: k <= |front| ==> front[..k] == steps[..k];
      RunHoldsUncertain(front, lab);
      var w, step := Run(front, lab), steps[|steps| - 1];
      if Enabled(w, step, lab) {
        StepKeepsUncertain(w, step, lab);
      }
    }
  }

  lemma NothingUncertain()
    ensures UncertainHeld(INITIALLY)
  {
  }

  /**
   Where each success retires its own key, as it does with one request out at a time, a request
   repeated while nothing has succeeded under its key carries that key again.
   */
  lemma {:induction false} UncertainKeyKept(steps: seq<Step>, lab: Lab, i: nat, j: nat)
    requires OwnRetirements(steps, lab) && i < j < |Run(steps, lab).log|
    requires Run(steps, lab).log[i].WasSent? && Run(steps, lab).log[j].WasSent?
    requires Run(steps, lab).log[i].sent.scope == Run(steps, lab).log[j].sent.scope
    requires forall m :: i < m < j ==> !SucceededUnder(Run(steps, lab).log[m], Run(steps, lab).log[i].sent.key)
    ensures Run(steps, lab).log[i].sent.key == Run(steps, lab).log[j].sent.key
  {
    hide Sendable, Scope, PayloadOf, NoColon, UncertainHeld, OwnRetirements;
    var front := steps[..|steps| - 1];
    var w, t := Run(front, lab), Run(steps, lab);
    FrontRetiresOwn(steps, lab);
    assert w.log <= t.log;
    assert forall m :: 0 <= m < |w.log| ==> w.log[m] == t.log[m];
    if j < |w.log| {
      UncertainKeyKept(front, lab, i, j);
    } else {
      RunHoldsUncertain(front, lab);
      assert Uncertain(w.log, i);
      HeldKey(w, i);
    }
  }

  lemma HeldKey(w: World, i: nat)
    requires UncertainHeld(w) && Uncertain(w.log, i)
    ensures w.log[i].sent.scope in w.keys && w.keys[w.log[i].sent.scope] == w.log[i].sent.key
  {
  }

  lemma FrontRetiresOwn(steps: seq<Step>, lab: Lab)
    requires OwnRetirements(steps, lab) && steps != []
    ensures OwnRetirements(steps[..|steps| - 1], lab)
  {
    hide Run, RetiresOwn, Enabled;
    var front := steps[..|steps| - 1];
    assert forall k: nat :: k <= |front| ==> front[..k] == steps[..k];
  }

  /** From `w` a success of request `id`, then a send of its scope: under another key than the one then held. */
  ghost predicate SentAfresh(w: World, t: World, id: nat, scope: Text) {
    && id < |w.sent| && |t.sent| == |w.sent| + 1 && scope in w.keys
    && var last := t.sent[|w.sent|];
       && t.log == w.log + [Succeeded(scope, w.sent[id].key), WasSent(last)]
       && last.scope == scope && last.key != w.keys[scope] && w.sent[id].key != w.keys[scope]
  }

  lemma RetiredThenSent(w: World, lab: Lab, id: nat, c: Command, seed: Text)
    requires KeysKept(w) && Enabled(w, Answer(id), lab) && !RetiresOwn(w, id)
    requires Enabled(w, Send(c, seed), lab) && Scope(c) == w.sent[id].scope
    ensures var u := Take(w, Answer(id), lab);
            Enabled(u, Send(c, seed), lab) && SentAfresh(w, Take(u, Send(c, seed), lab), id, Scope(c))
  {
    hide Scope, PayloadOf, NoColon, NewKey, Descriptor, RunDescriptor, Canonical;
    FreshKey(w, Scope(c), seed);
    assert w.keys[Scope(c)] in w.minted;
    var u := Take(w, Answer(id), lab);
    assert u.keys == w.keys - {Scope(c)} && u.seeds == w.seeds && u.drafted == w.drafted;
  }

  /** Elsewhere it need not: after a success that retires another's key, the next send of the scope has a new one. */
  lemma LateSuccessRetires(steps: seq<Step>, lab: Lab, id: nat, c: Command, seed: Text)
    requires Enabled(Run(steps, lab), Answer(id), lab) && !RetiresOwn(Run(steps, lab), id)
    requires Enabled(Run(steps, lab), Send(c, seed), lab) && Scope(c) == Run(steps, lab).sent[id].scope
    ensures SentAfresh(Run(steps, lab), Run(steps + [Answer(id)] + [Send(c, seed)], lab), id, Scope(c))
  {
    hide *;
    RunKeeps(steps, lab);
    RetiredThenSent(Run(steps, lab), lab, id, c, seed);
    RunSnoc(steps, Answer(id), lab);
    RunSnoc(steps + [Answer(id)], Send(c, seed), lab);
  }

  /** Sent, repeated, applied and answered; sent anew; and then the repeat's own success comes in. */
  function TwiceAnswered(runKey: Text, s: Text, t: Text, u: Text): seq<Step> {
    var validate := OnRun(runKey, Validate);
    [Send(validate, s), Send(validate, t), Deliver(0, false), Answer(0), Send(validate, u)]
  }

  /** What a send leaves of what the other steps look at. */
  lemma SendTakes(w: World, c: Command, seed: Text, lab: Lab)
    requires Enabled(w, Send(c, seed), lab)
    ensures var t := Take(w, Send(c, seed), lab); var key := KeyFor(w.keys, Scope(c), seed);
            && t.keys == w.keys[Scope(c) := key]
                && t.sent == w.sent + [Sent(Scope(c), key, PayloadOf(lab, w.drafted, c))]
            && t.bound == w.bound && t.done == w.done && t.answered == w.answered
            && t.seeds == w.seeds + {seed} && t.drafted == w.drafted
  {
    hide Sendable, Scope, PayloadOf, KeyFor, NoColon;
  }

  lemma FirstTwoSends(lab: Lab, runKey: Text, s: Text, t: Text) returns (w1: World, w2: World)
    requires NoColon(s) && NoColon(t) && s != t
    ensures var c := OnRun(runKey, Validate);
            && Enabled(INITIALLY, Send(c, s), lab) && w1 == Take(INITIALLY, Send(c, s), lab)
            && Enabled(w1, Send(c, t), lab) && w2 == Take(w1, Send(c, t), lab)
            && var sent := Sent(Scope(c), NewKey(Scope(c), s), Action(runKey, Validate, []));
               && w2.sent == [sent, sent] && w2.keys == map[sent.scope := sent.key] && w2.seeds == {s, t}
               && w2.bound == map[] && w2.done == {} && w2.answered == {}
  {
    hide NoColon, NewKey, Take, Scope;
    var c := OnRun(runKey, Validate);
    w1 := Take(INITIALLY, Send(c, s), lab);
    SendTakes(INITIALLY, c, s, lab);
    w2 := Take(w1, Send(c, t), lab);
    SendTakes(w1, c, t, lab);
  }

  /** The first request, applied and answered on an untouched server. */
  lemma FirstApplied(w: World, lab: Lab) returns (v: World, u: World)
    requires w.sent != [] && w.bound == map[] && w.done == {} && w.answered == {}
    ensures Enabled(w, Deliver(0, false), lab) && v == Take(w, Deliver(0, false), lab)
    ensures Enabled(v, Answer(0), lab) && u == Take(v, Answer(0), lab)
    ensures var first := w.sent[0];
            && u.keys == w.keys - {first.scope} && u.done == {first.key} && u.bound == map[first.key := first.payload]
            && u.answered == {0} && u.sent == w.sent && u.seeds == w.seeds
  {
    hide NoColon, Sendable;
    v := Take(w, Deliver(0, false), lab);
    u := Take(v, Answer(0), lab);
  }

  /** With two requests out at once there is such a success. */
  lemma TwoOutRetireAnother(lab: Lab, runKey: Text, s: Text, t: Text, u: Text)
    requires NoColon(s) && NoColon(t) && NoColon(u) && s != t && s != u && t != u
    ensures var w := Run(TwiceAnswered(runKey, s, t, u), lab);
            Enabled(w, Answer(1), lab) && !RetiresOwn(w, 1)
  {
    hide NoColon, NewKey, Scope, Take, PayloadOf;
    var c := OnRun(runKey, Validate);
    NewKeysDiffer(Scope(c), s, u);
    var w1, w2 := FirstTwoSends(lab, runKey, s, t);
    var w3, w4 := FirstApplied(w2, lab);
    var w5 := Take(w4, Send(c, u), lab);
    SendTakes(w4, c, u, lab);
    FiveSteps(TwiceAnswered(runKey, s, t, u), w1, w2, w3, w4, w5, lab);
  }

  lemma NewKeysDiffer(scope: Text, s: Text, u: Text)
    requires NoColon(s) && NoColon(u) && s != u
    ensures NewKey(scope, s) != NewKey(scope, u)
  {
    if NewKey(scope, s) == NewKey(scope, u) {
      LastColon(PANEL + scope, s, PANEL + scope, u);
    }
  }
}
