# Verification of the devnet deftrack's ordering, arithmetic and identity rules

A Dafny model of the parts of the repository that decide something, with proofs of
what its documentation promises about them:

- **InstantSend selection** (`QuorumSelection`, `Rankings`, `RejectionShare`):
  which quorum signs a lock, which one a verifier re-derives for it, exactly when the two
  differ, and how often, counted over every strict ranking of the quorums involved.
- **Request ids** (`ByteStrings`, `RequestId`): the bytes that are hashed, and a reader that
  gets the inputs back from them.
- **Sentinel replay** (`Replay`, `ReplayVerdicts`, `ReplayCoverage`, `ReplayMembers`,
  `ReplayLedger`, `ReplayControls`): the replay as a class whose fields each epoch updates, proved
  against functions on its state; then which verdict a commitment gives whom, what is reported
  beside it, what one member goes through, what the event log is worth, and what each control
  can change.
- **Draft identity and retry keys** (`JsonNumbers`, `CanonicalJson`, `CanonicalForm`,
  `CanonicalStrings`, `CanonicalKeys`, `Fingerprint`, `RetryKeys`): the canonical text, its numbers
  as ECMA-262 prints them (section 6.1.6.1.20, Number::toString), and a reader of it; the four-pass
  hash with its modular arithmetic, and the panel's retry table against a server that binds a key
  to its first payload.
- **Selection protocol of the admin shell** (`SelectionProtocol`, `SelectionRuns`,
  `SelectionOrder`, `SelectionRevisions`): loads, refreshes, status polls and mutation answers in
  flight together. Each asynchronous method is split at its awaits, and the settling of a load is
  a step of its own, so another answer may land between the two.
- **URL state, polling and the block list** (`QueryState`, `QueryLaws`, `QueryController`,
  `Polling`, `BlocksPage`, with `Doubles` for JavaScript's finite numbers): the query normaliser,
  its controller over a history stack, the poll controller, and the page that composes the two.
- **Amounts** (`Coin`): the satoshi formatter and a reader of its text.

`Wrappers`, `Powers`, `Texts`, `Sorting` and `Sets` hold what they share: optional results, powers
of two and ten, texts of code units and their decimals, the stable sort and its uniqueness, and the
size of subsets.

Code that changes state is a class, or a method with a loop, proved against a function of the
old state; what is promised is then proved about that function over all inputs or all runs.
`dafny verify dfyconfig.toml` checks the whole project.

## What is assumed

- Quorum tables: bases at least an interval apart, each commitment mined after its base and
  before the next interval, and a verifier's tip no lower than the signer's (`Spaced`).
- Replay: masternodes listed once per base list, natural indices, hashes of one length where places
  are counted (`HashLists`), thresholds
  `1 <= suspend <= ban` where a lemma says so, and enforcement that stays on once it is on. Two
  lemmas about the control want rows that never mix a member up, that is, name a listed member both
  missed and unobserved outside a mass outage (`NeverMixes`); disjoint index lists never do
  (`DisjointNeverMixes`).
- Draft numbers: a finite number is its shortest decimal, one per number (`Shortest`).
- Retry keys: a fresh key's seed is new and holds no colon, the scenario registry and each run's
  scenario are fixed, and, where a lemma says so, no two drafts of the run collide and every run
  that is armed is settled: its scenario registered, or all scenarios of one risk class.
- Admin shell: the server's plans, timelines and proofs are for the run that was asked about.
  Run projections may be for any run, since the shell checks their key itself.
- Query strings: percent-encoding is a faithful text form of the parameter list, and reading the
  text of a finite binary64 number (`IsDouble`) gives the number back (`RoundTrips`). There are such
  conversions (`SomeCodecRoundTrips`).

## Where the documentation and the code differ

- `client/src/lib/queryState.ts` (lines 12-14) says that two people who navigated differently
  to the same state get the same link. The order of the parameters is that of the choices:
  `OppositeOrdersDiffer` gives the input, `SameLinkForBothIff` the exact condition, read off the
  two histories of choices, and `SameStateSameParameters` what does hold.
- `client/src/components/dd-admin-shell.ts` (lines 186-188) says that a request still in flight
  when the operator moves on writes nothing at all, neither data nor error. That holds of loads
  and refreshes (`SupersededWritesNothing`). A status poll's run is guarded by its key and its
  controller only, and its failure by its controller alone; `StatusWritesIff` says exactly when
  an answer writes nothing. A poll out when the session ends puts the run back on the signed-out
  panel (`EndedSessionRefilled`); one out when another run is selected puts its error on that
  run's panel (`LeftPollSpeaks`), and a 401 to it ends that run's session (`LeftPollEndsSession`).
- The same file (lines 198-218) promises that the newest answered read is what is shown. One
  answer breaks that order, for the timeline and for the evidence: a load that is told its run
  does not exist. `MissingOrder` says exactly what is then left of each.
- The same file (lines 687-700) promises that a run that moved has its evidence reconciled. The
  read a poll starts can write only under the generation the poll was sent in (`ReconcilesIff`);
  a second load of the same run outruns it (`ReloadOutrunsPoll`).
- `client/src/components/dd-simulation-control.ts` (lines 473-476) promises one key per uncertain
  request. Arming a run whose scenario is not registered sends the risk class of the scenario in
  the draft form, so a change of the draft between two armings sends two payloads under one key
  (`UnsettledArmConflicts`); `ArmPayloadFixedIff` is the exact condition.
- The same file (lines 473-499): a key is retired by its scope, so the success of an older send
  retires the key of a newer request of that scope that is still uncertain, and its repeat carries
  another (`TwoOutRetireAnother`, `LateSuccessRetires`). `_busy` keeps one request out at a time;
  then each success retires its own key (`OneOutRetiresOwn`) and the promise holds of the request's
  own outcome (`UncertainKeyKept`).
- `ops/dsl-enforcement-replay.py`: an online verdict lifts a hold without an event when the
  counter is already zero, so the event log is a faithful ledger of a run exactly when no enforced
  online verdict meets such a member (`LedgerInStepIff`, `CyclesInStepIff`); monotone enforcement
  is enough (`LedgerFaithful`), and `FallingHeightsLoseARecovery` is a run without it.
- The same file (lines 283-284) prints that a control which flips the hold cannot discriminate when
  the hold guarded no streak. It does when a row names a member missed and unobserved at once, whom
  the hold passes over and the control counts (`HoldNoteIff`). For such rows the control (lines
  230-231) can also be the harsher run; `ControlHealsIff` says exactly when it is not.
- `client/src/lib/poll.ts`: a refresh while stopped starts a run that no stop supersedes or
  aborts, in a hidden tab too, and in a visible one a clock that no stop clears and whose ticks
  replace the run by another. Until the next start there is always one live (`StoppedRefreshStrays`);
  `RefreshKeepsIff` is the exact condition of each.
- `client/src/components/dd-page-blocks.ts`: a page attached again after its address changed
  asks for the offset of the state it held before (`AttachAgreesIff`), and then draws those rows
  under the other address (`AwayAndBackDraws`, `FirstPageUnderSecondAddress`).

## Model

| member | source | states |
|---|---|---|
| QuorumSelection.WindowMembers | ops/islock-selection-reproduce.py:112-119 | A quorum is a candidate at a height iff it is in the table, mined by then, and fewer than `pool` newer ones are |
| QuorumSelection.WindowIsSlice | ops/islock-selection-reproduce.py:112-119 | For every pool size, negative and zero included, the candidates are one slice, newest first, of the one table sorted by mining height |
| QuorumSelection.PickIsPicked | ops/islock-selection-reproduce.py:122-131 | The selected quorum is in the window, no candidate scores lower, and among equals it is the newest |
| QuorumSelection.SignsIff | ops/islock-selection-reproduce.py:134-135 | The signer picks a quorum iff it is eight blocks deep with fewer than `pool` newer ones that are, none of those scores lower, and no newer one as low |
| QuorumSelection.SignsNothingIff | ops/islock-selection-reproduce.py:134-135 | It picks none iff none is eight blocks deep |
| QuorumSelection.OneBlockApart | ops/islock-selection-reproduce.py:68 | A lower-scored newer quorum is picked over an older one at eight blocks' depth and not at seven |
| QuorumSelection.VerifierWindow | ops/islock-selection-reproduce.py:138-152 | For a lock the rule signed, the first window is at every later tip the `pool` newest quorums up to and including the signer's, and the second never holds the signer's |
| QuorumSelection.VerdictCharacterised | ops/islock-selection-reproduce.py:40-46 | The verdict is REJECT iff a quorum in the verifier's window and outside the signer's scores strictly below the signer's; accept when the signer's is the newest it weighed; accept2 never |
| QuorumSelection.VerdictIgnoresWhen | ops/islock-selection-reproduce.py:138-152 | The verdict and the first attempt's pick do not depend on when the verifier looks |
| QuorumSelection.SecondWindow | ops/islock-selection-reproduce.py:138-152 | Once the next cycle is under way, the first attempt is at the last height of the lock's cycle, and a second, made iff the first fails, weighs the `pool` newest quorums before the lock's own |
| Rankings.OneInGroup | ops/islock-selection-reproduce.py:40-46 | Over all strict rankings each contender of a group leads it equally often, one in the group's size |
| RejectionShare.SignedMeans | ops/islock-selection-reproduce.py:134-135 | The rule signs with a quorum under a ranking iff that quorum leads the signer's pool in it |
| RejectionShare.RejectedMeans | ops/islock-selection-reproduce.py:138-152 | Such a lock is rejected under a ranking iff the quorum does not lead all the quorums involved |
| RejectionShare.RejectedShare | ops/islock-selection-reproduce.py:40-46 | Over every strict ranking that signs with the quorum, exactly the fraction newer/(pool+newer) is rejected, and there are such rankings |
| RejectionShare.SharesOfFour | ops/islock-selection-reproduce.py:44-46 | The stated 0, 1/5, 1/3 and 3/7 at a pool of four |
| ByteStrings.InternalTwice | ops/islock-selection-reproduce.py:87-89 | Reversing a display hash twice gives it back, at the same length |
| ByteStrings.InternalAt | ops/islock-selection-reproduce.py:87-89 | Byte for byte, memory is the display read from its end |
| ByteStrings.InternalOrderIff | ops/dsl-enforcement-replay.py:72-85 | Of two hashes of one length the last displayed byte in which they differ decides which comes first |
| RequestId.CompactSizeReads | ops/islock-selection-reproduce.py:77-84 | A written size is read back across its four classes, whatever follows it |
| RequestId.CompactSizeOnly | ops/islock-selection-reproduce.py:77-84 | Whatever reads as a minimal size was written for that number: the encoding is unique |
| RequestId.CompactSizePrefixFree | ops/islock-selection-reproduce.py:77-84 | No size is a prefix of another |
| RequestId.PreimageReads | ops/islock-selection-reproduce.py:92-104 | Reading prefix, count and outpoints gives exactly the inputs the bytes were built from |
| RequestId.PreimageInjective | ops/islock-selection-reproduce.py:92-104 | Different input lists never hash the same bytes |
| RequestId.RawNeverMatches | ops/islock-selection-reproduce.py:94-100 | The negative control never hashes the bytes of the node's form |
| RequestId.PreimageLayout | ops/islock-selection-reproduce.py:92-104 | Which byte stands at each place of the hashed bytes, for fewer than 253 inputs: six, `islock`, the count, then each id from its last displayed byte on and its index from its lowest byte on; raw, the same without the six |
| RequestId.SizeBytes | ops/islock-selection-reproduce.py:77-84 | A wider size is its class's mark and then the number, lowest byte first |
| Replay.Replayer.constructor | ops/dsl-enforcement-replay.py:121-137 | A clean start |
| Replay.Replayer.SeeMember | ops/dsl-enforcement-replay.py:166-195 | One member's turn: removed, held by the mass guard, held unobserved, online or missed, with every field it changes |
| Replay.Replayer.Apply | ops/dsl-enforcement-replay.py:139-197 | One epoch in full: absent, size mismatch, warnings, guard, every member in canonical order, and its table row |
| Replay.Run | ops/dsl-enforcement-replay.py:200-213 | The whole run is the fold of the rows from a clean start, and base-less rows are counted |
| ReplayVerdicts.IndexNames | ops/dsl-enforcement-replay.py:77-85 | Index `i` of a commitment names the member of its list with exactly `i` members below it, the last displayed byte deciding first |
| ReplayVerdicts.NamedAtPlace | ops/dsl-enforcement-replay.py:157-160 | The members a list of indices names are those whose places it holds |
| ReplayVerdicts.VerdictWhen | ops/dsl-enforcement-replay.py:139-188 | A row counts a member missed iff its place is among the missed indices, online iff not, and neither when absent, of another size, without it, after its removal, under the guard or held; and with which epoch, height and enforcement |
| ReplayVerdicts.LastByteFirst | ops/dsl-enforcement-replay.py:77-85 | However they are listed, 0201 is named before 0102 |
| ReplayCoverage.CoverageCounts | ops/dsl-enforcement-replay.py:131-137 | Over any rows, the coverage figures are the numbers of member-epochs the hold and the guard passed over with a streak, of member-epochs found gone, and of absent epochs while anyone had a streak |
| ReplayCoverage.RowReports | ops/dsl-enforcement-replay.py:139-197 | What any row adds to the table and the warnings, and whom it marks as seen; a row without its base list is warned of and does nothing else |
| ReplayCoverage.SkippedCounts | ops/dsl-enforcement-replay.py:200-207 | The rows skipped are those committed without a base list |
| ReplayMembers.MemberRefines | ops/dsl-enforcement-replay.py:139-197 | Seen from one member, any run is a small automaton over the verdicts that count for it |
| ReplayMembers.CountIsStreak | ops/dsl-enforcement-replay.py:166-188 | The counter is the number of counted misses since the last counted online verdict |
| ReplayMembers.SuspendedWhen | ops/dsl-enforcement-replay.py:189-192 | Under monotone enforcement: suspended iff the streak reaches the threshold and its latest counted miss was enforced |
| ReplayMembers.BannedWhen | ops/dsl-enforcement-replay.py:193-195 | The same for bans |
| ReplayMembers.BanHeight | ops/dsl-enforcement-replay.py:193-195 | A ban carries the height of the first enforced miss of the streak that was deep enough |
| ReplayMembers.MemberAfter | ops/dsl-enforcement-replay.py:200-213 | After any rows: counter, suspension, ban and ban height of a member in closed form |
| ReplayMembers.SortedRowsMonotone | ops/dsl-enforcement-replay.py:88-92 | Rows sorted by epoch with rising heights make enforcement monotone |
| ReplayLedger.LedgerFaithful | ops/dsl-enforcement-replay.py:180-195 | Under monotone enforcement, replaying the log rebuilds the suspended set and the ban map, each member's events are cycles of suspended, perhaps banned, recovered, and what is held has a live counter |
| ReplayLedger.BannedAreSuspended | ops/dsl-enforcement-replay.py:189-195 | In every reachable state every banned member is suspended, whatever the enforcement |
| ReplayLedger.OnlineLedgerIff | ops/dsl-enforcement-replay.py:180-186 | An online verdict keeps log and state in step iff it does not lift a hold whose counter is zero |
| ReplayLedger.LedgerInStepIff | ops/dsl-enforcement-replay.py:180-195 | Over any run, log and state are in step after every row iff no enforced online verdict meets a held member with a zero counter |
| ReplayLedger.CyclesInStepIff | ops/dsl-enforcement-replay.py:180-195 | Over any run, every member's events are cycles at its own stage after every row iff the same |
| ReplayLedger.FallingHeightsLoseARecovery | ops/dsl-enforcement-replay.py:180-186 | A run with falling heights in which a suspension is lifted and the log does not say so |
| ReplayControls.HoldNote | ops/dsl-enforcement-replay.py:283-284 | A run in which the hold never guarded a streak, and no row mixes a member up, is, field for field, the run with the control flipped |
| ReplayControls.HoldNoteIff | ops/dsl-enforcement-replay.py:283-284 | Where the hold never guarded a streak, the two runs are the same after every row iff no row names as missed a member it holds as unobserved |
| ReplayControls.ControlOnlyHeals | ops/dsl-enforcement-replay.py:230-231 | Where no row mixes a member up, flipping the control never raises a counter and never adds a suspended or banned member |
| ReplayControls.ControlHealsIff | ops/dsl-enforcement-replay.py:230-231 | Over any run, the control is the milder after every row iff each member a row mixes up has room for the miss: a lower counter, and no threshold then crossed that the held run has not |
| ReplayControls.DisjointNeverMixes | ops/dsl-enforcement-replay.py:157-160 | Rows whose missed and unobserved indices are disjoint mix nobody up |
| ReplayControls.EnforcementLeavesCounters | ops/dsl-enforcement-replay.py:166-195 | Counters and coverage counts are the same whatever is enforced and from when |
| ReplayControls.CanonicalOrderUnique | ops/dsl-enforcement-replay.py:82-85 | The commitment's bit order depends on which hashes a list holds, not on their order; which order it is, `IndexNames` says |
| ReplayControls.ListOrderIgnored | ops/dsl-enforcement-replay.py:82-115 | No field of a run depends on the order a base list was dumped in |
| ReplayControls.MassGuardBound | ops/dsl-enforcement-replay.py:157-195 | One commitment newly suspends or bans nobody, or strictly fewer members than the guard's share of its list |
| CanonicalForm.CanonicalAnswers | client/src/lib/draftIdentity.ts:26-43 | The printer answers exactly for values that are JSON once undefined members are dropped, and throws for the rest |
| JsonNumbers.NumberReads | client/src/lib/draftIdentity.ts:29-32 | Every finite number's text, plain, with a point or with an exponent, is read back in front of anything that does not go on with it |
| JsonNumbers.NumberLayout | client/src/lib/draftIdentity.ts:29-32 | A number has an exponent iff it is at least 10^21 or below 10^-6, then one digit before its point; a leading zero iff it is below one; a point iff digits are left for it |
| CanonicalForm.StringReads | client/src/lib/draftIdentity.ts:28 | Escaping loses nothing: controls, quotes, backslashes, pairs and lone halves of surrogates |
| CanonicalStrings.EscapeKeepsIff | client/src/lib/draftIdentity.ts:28 | A string is printed as it is iff it holds no control, quote, backslash or half of a surrogate pair without its other half |
| CanonicalStrings.UnitSpelled | client/src/lib/draftIdentity.ts:28 | Seven units have a short escape, the others that do not stand as they are have four lower-case hex digits |
| CanonicalKeys.ObjectSpelled | client/src/lib/draftIdentity.ts:34-40 | An object is printed as exactly its defined members, each key with its value's text, of any two neighbours the earlier key a proper prefix of the later or smaller in the unit where they first differ |
| CanonicalKeys.AscendingUnique | client/src/lib/draftIdentity.ts:37-39 | A set of keys has one such order |
| CanonicalKeys.TwoKeys | client/src/lib/draftIdentity.ts:34-40 | Whichever way it is written, an object of `a` and `b` prints `a` first |
| CanonicalKeys.WordsAndLists | client/src/lib/draftIdentity.ts:27-33 | The three words, and a list's texts in brackets with a comma between them |
| CanonicalForm.ReadsBack | client/src/lib/draftIdentity.ts:26-43 | Any printed value is read back as its JSON value, with any safe remainder left as it was |
| CanonicalForm.CanonicalExactly | client/src/lib/draftIdentity.ts:15-23 | Two drafts print the same text iff they are the same JSON value, objects as finite maps |
| Fingerprint.Fnv1a | client/src/lib/draftIdentity.ts:50-58 | The loop over the units is the fold of the two byte steps, modulo 2^32 |
| Fingerprint.PassOfBytes | client/src/lib/draftIdentity.ts:45-58 | A pass is FNV-1a over the text's units as bytes, the low byte of each first |
| Fingerprint.ByteStepInverts | client/src/lib/draftIdentity.ts:54-55 | A byte step is undone by the prime's inverse, so it is a bijection of words |
| Fingerprint.UnitStepSeparates | client/src/lib/draftIdentity.ts:52-55 | Two different units never take one hash to the same hash |
| Fingerprint.PassSeparates | client/src/lib/draftIdentity.ts:50-58 | One different unit, whatever surrounds it, changes the pass from every offset |
| Fingerprint.LabelExactly | client/src/lib/draftIdentity.ts:74-77 | The label is 32 digits and equal for two texts iff all four passes are |
| Fingerprint.LabelSpells | client/src/lib/draftIdentity.ts:74-77 | The label spells the passes from the four offsets in their order, eight digits each |
| Fingerprint.OneUnitApart | client/src/lib/draftIdentity.ts:74-82 | Drafts whose texts differ in exactly one unit never share a fingerprint or a scope, and every pass separates them |
| RetryKeys.RetryTable.Idempotency | client/src/components/dd-simulation-control.ts:486-493 | The key owed for a scope is kept; otherwise a new one is made and remembered |
| RetryKeys.RetryTable.CompletedOperation | client/src/components/dd-simulation-control.ts:496-499 | Only the scope that succeeded loses its key |
| RetryKeys.ArmPayloadFixedIff | client/src/components/dd-simulation-control.ts:519-526 | What arming a run acknowledges is independent of the draft iff its scenario is registered or all scenarios have one risk class |
| RetryKeys.ArmAcknowledges | client/src/components/dd-simulation-control.ts:519-526 | Arming acknowledges the risk of the first scenario registered under the run's own; without one that of the drafted, and without that the registry's first; and is possible iff the registry is not empty |
| RetryKeys.ArmingsCarryTheirRisk | client/src/components/dd-simulation-control.ts:667-674 | In every run each arming of a run with a registered scenario, sent or bound, carries that scenario's risk |
| RetryKeys.ScopeFixesPayload | client/src/components/dd-simulation-control.ts:607-674 | Commands that share a retry scope send one payload, whatever is drafted when each is sent, unless two drafts collide or an unsettled run is armed |
| RetryKeys.AppliedAtMostOnceMore | client/src/components/dd-simulation-control.ts:573-738 | In every run, with refusals that bind the key, the server applies per scope at most once more than the panel has seen succeed |
| RetryKeys.OneKeyOnePayload | client/src/components/dd-simulation-control.ts:573-738 | In every run without colliding drafts in which every armed run is settled, the server never sees one key with two payloads |
| RetryKeys.CollidingDraftsConflict | client/src/lib/draftIdentity.ts:63-66 | Two different drafts that do collide, prepared in turn, reach the server under one key |
| RetryKeys.UnsettledArmConflicts | client/src/components/dd-simulation-control.ts:519-526 | An unsettled run armed, refused, and armed again after the draft's scenario changed: one key, two risk classes, a conflict |
| RetryKeys.NeverAConflict | client/src/components/dd-simulation-control.ts:573-738 | So no request of such a run finds its key bound to another payload |
| RetryKeys.RepeatsCarryTheirKey | client/src/components/dd-simulation-control.ts:486-499 | A request repeated before any success of its scope carries the key it was first sent with |
| RetryKeys.OneOutRetiresOwn | client/src/components/dd-simulation-control.ts:618-643 | With one request out at a time, each success retires no key but its own |
| RetryKeys.UncertainKeyKept | client/src/components/dd-simulation-control.ts:473-499 | Where successes retire only their own keys, a request repeated before any success under its key carries that key again |
| RetryKeys.TwoOutRetireAnother | client/src/components/dd-simulation-control.ts:496-499 | With two requests of a scope out, a run in which an older one's success comes while a newer one's key is held |
| RetryKeys.LateSuccessRetires | client/src/components/dd-simulation-control.ts:496-499 | After any such success the next send of the scope goes out under a new key, though nothing has succeeded under the held one |
| SelectionProtocol.AdminShell.LoadSelectedRun | client/src/components/dd-admin-shell.ts:847-877 | A load starts: a new generation and number, the other run's data dropped, the key moved |
| SelectionProtocol.AdminShell.HistoryAnswered | client/src/components/dd-admin-shell.ts:595-640 | A load's answers land: superseded, session ended, failed, or taken under the two orderings |
| SelectionProtocol.AdminShell.LoadSettled | client/src/components/dd-admin-shell.ts:878-917 | A load settles: no such run, unreadable plan, or done; loading ends in every case |
| SelectionProtocol.AdminShell.TakeHistory | client/src/components/dd-admin-shell.ts:642-646 | A timeline is taken only from a request newer than the one held |
| SelectionProtocol.AdminShell.TakeEvidence | client/src/components/dd-admin-shell.ts:655-666 | Evidence likewise; a failed read says so only until something has been read |
| SelectionProtocol.AdminShell.PollSelectedRun | client/src/components/dd-admin-shell.ts:676-681 | A status request goes out for a moving selected run in a session, and captures key and generation |
| SelectionProtocol.AdminShell.StatusAnswered | client/src/components/dd-admin-shell.ts:682-712 | A status answer lands: stale, ended, failed, refused, or taken, with a refresh when the run moved |
| SelectionProtocol.AdminShell.AcceptRun | client/src/components/dd-admin-shell.ts:721-726 | A run is taken iff it is the selected one and its revision is not behind the held one |
| SelectionProtocol.AdminShell.OnRunUpdated | client/src/components/dd-admin-shell.ts:735-746 | A mutation's run and preflight are taken, and a refresh starts |
| SelectionProtocol.AdminShell.DetailAnswered | client/src/components/dd-admin-shell.ts:756-778 | A refresh lands under key, generation and number |
| SelectionProtocol.AdminShell.RereadEvidence | client/src/components/dd-admin-shell.ts:787-792 | Only unavailable evidence goes back to loading, and a refresh starts |
| SelectionProtocol.AdminShell.ClearSelection | client/src/components/dd-admin-shell.ts:794-806 | Everything held is dropped, with the key, under a new generation |
| SelectionProtocol.AdminShell.EndSession | client/src/components/dd-admin-shell.ts:809-821 | Everything held is dropped, the key stays, under a new generation |
| SelectionRuns.TakeKeeps | client/src/components/dd-admin-shell.ts:595-917 | Every step keeps the ownership, capture, numbering and newest-read invariants together |
| SelectionOrder.HeldIsSelected | client/src/components/dd-admin-shell.ts:676-917 | In every run what is held belongs to the selected run, and so does all that is in flight under the current generation |
| SelectionOrder.SupersededWritesNothing | client/src/components/dd-admin-shell.ts:180-197 | A load or refresh asked for before a selection, a clear or the end of a session changes nothing after it, whether it lands or settles then, except that loading ends |
| SelectionOrder.PassedWritesNothing | client/src/components/dd-admin-shell.ts:180-197 | A read whose generation has passed changes nothing, then or at any later time |
| SelectionOrder.RevisionsClimb | client/src/lib/simulationRunState.ts:41-48 | While a run stays on screen its revision never decreases, in any interleaving |
| SelectionRevisions.StepHolds | client/src/lib/simulationRunState.ts:41-48 | In every kept state, a projection of the selected run that lands unstale by load, newest poll or mutation, not behind the one held, is the one held after the step; nothing else changes it but to drop it |
| SelectionRevisions.FurthestIsShown | client/src/components/dd-admin-shell.ts:721-726 | In every run the run on screen is, of the projections of the selected run that landed since the last drop, the one with the highest revision, of equals the last |
| SelectionRevisions.PollReadsAgainIff | client/src/components/dd-admin-shell.ts:687-700 | A poll's answer starts a refresh iff the run on screen has changed its status or revision with it |
| SelectionRevisions.MutationReadsAgain | client/src/components/dd-admin-shell.ts:735-746 | A mutation's answer that is not behind is the run held, and starts a refresh under the current generation, moved or not, that brings in timeline and evidence when it lands |
| SelectionRevisions.TickAsksIff | client/src/components/dd-admin-shell.ts:676-681 | A tick asks for the selected run's status, in a session, iff the run held is not completed, aborted, rejected or expired |
| SelectionRevisions.StepWrites | client/src/components/dd-admin-shell.ts:595-917 | What every step leaves of session, selection, plan, plan error, preflight, evidence, loading and message, read off the step and what is held |
| SelectionRevisions.LoadFailureIsSaid | client/src/components/dd-admin-shell.ts:880-910 | A current load whose plan or timeline failed settles with that failure, the plan's first, said of its run; all but a not-found keeps what is held |
| SelectionOrder.NewestIsShown | client/src/components/dd-admin-shell.ts:198-218 | In every run, unless a load was told its run does not exist, timeline and evidence are those of the highest-numbered read that answered, and evidence counts as read iff one did |
| SelectionOrder.OnceReadStaysRead | client/src/components/dd-admin-shell.ts:648-666 | Once evidence has been read no failure undoes it: only a newer proof replaces it, unless everything is dropped |
| SelectionOrder.OrderIrrelevant | client/src/components/dd-admin-shell.ts:198-218 | Any two orders of the same answers end with the same timeline and evidence |
| SelectionOrder.HighestWins | client/src/components/dd-admin-shell.ts:198-218 | From a selection with nothing read, the timeline is that of the successful read with the highest number |
| SelectionOrder.HighestProofWins | client/src/components/dd-admin-shell.ts:198-218 | And the evidence that of the highest-numbered read whose evidence answered |
| SelectionOrder.MissingOrder | client/src/components/dd-admin-shell.ts:888-894 | A not-found answer coming last leaves neither timeline nor evidence; coming first it leaves of each the highest-numbered that still arrives from beyond what was taken before it, and nothing read if there is none |
| SelectionOrder.StatusWritesIff | client/src/components/dd-admin-shell.ts:682-711 | A status answer, success or failure, changes nothing iff its poll is not the last, or it failed short of a 401 with what the panel already says, or its run is not the selected one, behind, or held as it is |
| SelectionOrder.EndedSessionRefilled | client/src/components/dd-admin-shell.ts:676-712 | A poll out when the session ends puts its run on the signed-out panel |
| SelectionOrder.LeftPollSpeaks | client/src/components/dd-admin-shell.ts:701-710 | A poll out when another run is selected puts its failure on that run's panel |
| SelectionOrder.LeftPollEndsSession | client/src/components/dd-admin-shell.ts:701-706 | And a 401 to it ends the session in which that run is selected |
| SelectionOrder.ReconcilesIff | client/src/components/dd-admin-shell.ts:687-700 | The refresh a moved run starts brings in timeline and evidence iff the poll was sent under the current generation; otherwise it never writes |
| SelectionOrder.ReloadOutrunsPoll | client/src/components/dd-admin-shell.ts:687-700 | A second load of the run being polled is such a case |
| QueryState.MaxPageIsLast | client/src/lib/queryState.ts:63-71 | The highest page is exactly the last whose offset the cap allows |
| QueryState.OffsetsAndPages | client/src/lib/queryState.ts:69-76 | A page's offset converts back to it, and an offset lies on the page it converts to |
| QueryState.FirstPage | client/src/lib/queryState.ts:63-76 | Below page 2, at no positive offset, and with no page size to count by, it is the first page |
| QueryState.ReadingsAreValid | client/src/lib/queryState.ts:91-109 | Every text, and none, reads as a value the parameter can hold; none reads as the default |
| QueryState.ReadingIff | client/src/lib/queryState.ts:91-109 | A text reads as the value it says, the nearest servable page for a page, and as the default iff it says none |
| QueryState.SomeCodecRoundTrips | client/src/lib/queryState.ts:95-105 | There is a text conversion that reads every finite binary64 number back, as the other lemmas suppose |
| QueryState.WrittenReadsBack | client/src/lib/queryState.ts:78-120 | What is written for a value reads back as it iff the parameter can hold it |
| QueryState.ReadQuery | client/src/lib/queryState.ts:111-129 | The in-place loop gives each first occurrence's value and the list kept parameter by parameter, and says whether it changed |
| QueryLaws.CanonicalSettles | client/src/lib/queryState.ts:111-129 | A corrected query string needs no further correction |
| QueryLaws.CorrectionKeepsValues | client/src/lib/queryState.ts:111-129 | Re-reading it gives the same values |
| QueryLaws.ForeignSurvive | client/src/lib/queryState.ts:27-29 | Parameters the view does not name survive a correction, in order and with duplicates |
| QueryLaws.CanonicalIff | client/src/lib/queryState.ts:111-129 | Nothing needs correcting iff every named parameter stands once, off its default, spelled as it is written |
| QueryLaws.CanonicalParameters | client/src/lib/queryState.ts:111-129 | A canonical list is the foreign parameters and those its state is written as, in some order |
| QueryLaws.SameStateSameParameters | client/src/lib/queryState.ts:12-14 | Equal states with equal foreign parameters have the same multiset of parameters |
| QueryLaws.SameLinkIff | client/src/lib/queryState.ts:12-14 | Two canonical links of one state are equal iff their names stand in one order and their foreign parameters agree |
| QueryLaws.SameNavigationIff | client/src/lib/queryState.ts:12-14 | Two histories of valid choices from one canonical link to one state reach one link iff they leave the names in one order, known from the choices alone |
| QueryLaws.OppositeOrdersDiffer | client/src/lib/queryState.ts:12-14 | Any two choices made in opposite orders show one state under two links |
| QueryLaws.WriteQuery | client/src/lib/queryState.ts:138-152 | The in-place loop puts each chosen key in turn |
| QueryLaws.WriteThenRead | client/src/lib/queryState.ts:131-152 | After a write a key not chosen reads as before, and a chosen one as chosen iff the choice is valid |
| QueryLaws.ForeignSurviveWrites | client/src/lib/queryState.ts:134-136 | Foreign parameters survive a write |
| QueryLaws.WritesStayCanonical | client/src/lib/queryState.ts:138-152 | Valid choices leave a canonical link canonical |
| QueryController.QueryStateController.HostConnected | client/src/lib/queryState.ts:233-240 | Connecting reads the entry, corrects it in place and tells the view nothing |
| QueryController.QueryStateController.OnPop | client/src/lib/queryState.ts:201-212 | A pop corrects the entry and tells the view of a change |
| QueryController.QueryStateController.SetValues | client/src/lib/queryState.ts:247-257 | A choice that changes the state is pushed or replaced and told; one that does not does nothing |
| QueryController.AlwaysInStep | client/src/lib/queryState.ts:183-197 | In every run of connects, valid choices, Back, Forward and in-app moves, the state is the reading of the entry on screen and that entry is canonical |
| QueryController.ToldOncePerChange | client/src/lib/queryState.ts:186-189 | Between connections the view is told of every change of state, once each |
| QueryController.ToldOfEveryChangeIff | client/src/lib/queryState.ts:233-240 | Over any run with connections, notices count the changes of state iff every connection found the state already held; otherwise there are fewer |
| QueryController.NavigationLink | client/src/lib/queryState.ts:247-257 | Any run of valid choices, pushed or replaced, ends at the link of that history of choices |
| QueryController.SameLinkForBothIff | client/src/lib/queryState.ts:12-14 | Two readers who start at one canonical address and come to one state by valid choices are at one link iff their choices leave the names in one order |
| QueryController.CorrectionsCostNothing | client/src/lib/queryState.ts:214-218 | A correction never lengthens the history nor touches another entry |
| Polling.PollController.Start | client/src/lib/poll.ts:80-88 | Starting loads at once and arms the clock of a visible tab |
| Polling.PollController.Refresh | client/src/lib/poll.ts:94-97 | A new run, its predecessor cancelled, the clock restarted when visible |
| Polling.PollController.Stop | client/src/lib/poll.ts:99-109 | Stopping makes everything in flight stale and aborted, once |
| Polling.PollController.OnVisibility | client/src/lib/poll.ts:111-121 | Hiding stops the clock and no request; showing refreshes |
| Polling.OnlyTheNewestIsLive | client/src/lib/poll.ts:80-161 | In every interleaving only the newest run is live, every other is stale and aborted, and the clock runs iff started and visible |
| Polling.StaleForGood | client/src/lib/poll.ts:30-31 | A run that has gone stale is stale and aborted ever after |
| Polling.StartsRunIff | client/src/lib/poll.ts:80-121 | In every state that is reached, the steps that start a run are exactly the first start, a refresh, a tick, and showing the tab while polling goes on; the new run is live and whatever was out is aborted |
| Polling.RefreshKeepsIff | client/src/lib/poll.ts:94-97 | A refresh keeps the clock right iff the controller is started or the tab hidden, and keeps only a started controller's newest run live iff it is started |
| Polling.StoppedRefreshStrays | client/src/lib/poll.ts:94-109 | After any run, a refresh while stopped leaves a live run, and a clock in a visible tab, through every later stop, change of visibility and tick; the run is replaced iff that clock ticks, and the next start supersedes and aborts the one then live |
| BlocksPage.DdPageBlocks.ConnectedCallback | client/src/components/dd-page-blocks.ts:86-91 | Connecting applies the held state, starts a run for its offset, then re-reads the address |
| BlocksPage.DdPageBlocks.LoadEnds | client/src/components/dd-page-blocks.ts:106-121 | Only the live run's answer changes rows, total, the offset they are held for, error or loading |
| BlocksPage.DdPageBlocks.Moved | client/src/components/dd-page-blocks.ts:123-125 | A move chooses the page beside; a change of state sets the offset and starts a run |
| BlocksPage.DdPageBlocks.AddressMoved | client/src/components/dd-page-blocks.ts:81-84 | Back, Forward or an in-app move that changes the state sets the offset and starts a run |
| BlocksPage.MoveReads | client/src/components/dd-page-blocks.ts:99-125 | A move shows the page beside, within the first and the last, and leaves the address canonical |
| BlocksPage.AcceptedInOrder | client/src/components/dd-page-blocks.ts:106-121 | In every run rows are accepted in strictly increasing run order, each for the offset then on screen |
| BlocksPage.ScreenSays | client/src/components/dd-page-blocks.ts:106-121 | In every run the rows are those of the last live answer that brought any, the error is what the last live answer said, and the page loads until the first live answer of any kind |
| BlocksPage.AcceptedAreTaken | client/src/components/dd-page-blocks.ts:106-121 | The rows accepted are those of exactly the runs that were live when theirs came |
| BlocksPage.PollRefines | client/src/components/dd-page-blocks.ts:73-91 | In every run the page's poll is a run of the poll controller, started by attaching, stopped by detaching, and refreshed by exactly the moves the page is told of |
| BlocksPage.AttachAgreesIff | client/src/components/dd-page-blocks.ts:86-97 | The offset agrees with the address after connecting iff the held state and the address name the same offset |
| BlocksPage.SecondAttachAsks | client/src/components/dd-page-blocks.ts:86-97 | Shown, detached, moved elsewhere and shown again, the page asks for the offset it showed first |
| BlocksPage.AwayAndBackDraws | client/src/components/dd-page-blocks.ts:86-121 | The answer is drawn as the page's, and is the address's iff both addresses name one offset |
| BlocksPage.FirstPageUnderSecondAddress | client/src/components/dd-page-blocks.ts:86-97 | The first page and page 2 are two such addresses: offsets 0 and 25 |
| BlocksPage.RunAgreesIff | client/src/components/dd-page-blocks.ts:81-97 | In every run the offset of an attached page is that of the state held iff the last thing to set it agreed: a notified change always does, a connection iff the held state and the address name one offset |
| BlocksPage.RowsAnswerTheAddressIff | client/src/components/dd-page-blocks.ts:59-71 | In every run rows drawn as the page's are a server's answer, and for the page in the address bar iff the last thing to set the offset, a notified change or a connection, agreed |
| BlocksPage.RowsAnswerTheAddress | client/src/components/dd-page-blocks.ts:59-71 | In every run whose connections agree, rows drawn as the page's are the server's answer for the page in the address bar |
| Coin.GroupedInThrees | client/src/lib/format.ts:70 | From the right exactly every fourth character of the whole part is a space, and without them it is the number |
| Coin.CoinShape | client/src/lib/format.ts:58-72 | The printed text is a minus iff negative, the whole coins with a space at exactly every fourth place from the right, and a point with the places shown |
| Coin.CoinReads | client/src/lib/format.ts:58-72 | For every amount and every count of decimals the unspaced text reads as the amount cut at the places shown, with its sign |
| Coin.CoinTruncates | client/src/lib/format.ts:52-72 | That is truncation toward zero, exact at eight places |
| Coin.DashMeansNone | client/src/lib/format.ts:59-65 | The dash stands for no amount and for nothing else |

## Left out

- SHA-256: a score is any integer for a quorum, so digests that compare bytewise compare as the integers they spell; the request id stops at the hashed bytes.
- Hex parsing, epoch and base-list files, RPC, argument parsing, log scraping and printing: input and output, replaced by arguments.
- `request_id` on transaction ids that are not 32 bytes: the reader back, and so the injectivity, is stated for hashes.
- Negative indices in a commitment, which Python would count from the end of the list: indices are natural numbers.
- The type behind a missing counter: reading one leaves a zero behind, as the source's default dictionary does.
- The search for a double's shortest decimal, and arrays with holes, in canonical JSON: a number is given as that decimal, and minus zero is zero.
- `_busy`, acknowledgements, form fields and messages of the simulation panel: they decide whether a command is sent, which the runs leave open.
- The server's state machine: it binds a key to its first payload, may then refuse, and applies the key once.
- `_loadDashboard`, `_signOut`, sign-in, the session cookie and the URL of the admin shell: kept as the steps they take on a selection (load, refresh, clear, end, sign in).
- `SelectedRunStore`, `recoveryEvidence` and `runSafety`: the shell applies `acceptsRunUpdate` to its own fields, and that is what is modelled.
- NaN and infinite members of a `choice` parameter, minus zero, and rounding: a parameter's numbers are JavaScript's finite numbers as reals.
- `llmqApiName`, the other pages and formatters, freshness, network state, table scrolling, charts and focus: easy members or user interface.
- Parsing an amount's text: `coin` starts from an integer, or from none where the source answers a dash.
- QueryController.AlwaysInStep: stated for choices their parameters can hold; `WriteThenRead` says what happens to the others, and `MoveReads` covers the block list's choice past the last page.
- SelectionOrder.OrderIrrelevant: stated for answers that do not end the session; the answer that a run does not exist is `MissingOrder`.
