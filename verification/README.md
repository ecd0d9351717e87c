# A verified model of waitprims

waitprims lets one consumer wait on several event sources ("arms") at once. It
promises that an event which was observed is reported, buffered or given back,
never lost, reordered or silently committed. This project models the runners
that keep the promise, in Dafny, and proves it over whole runs.

A provider is one FIFO queue of events per registration, in registration-set
order. A future is an oracle that answers "pending" or a value; `tokio::select!`
and everything the environment does are moves of a state machine; clock readings
are integers (nanoseconds) carried by the moves. Each runner exists twice: as
functions of the state, about which the theorems are stated, and as a class whose
fields are updated in place by the source's loops. Each branch of a class is proved
equal to a step of the state machine, and its loop to a run.

| file | what it holds |
|---|---|
| `Seam.dfy` | events, observations, registrations, 64-bit and timestamp arithmetic |
| `Jcs.dfy`, `JcsRoundTrip.dfy`, `JcsGrammar.dfy`, `JcsCanonical.dfy`, `JcsParser.dfy` | RFC 8785: reader and canonical form, round-trip theorems, the accepted texts as a relation of their own, the canonical text as the shortest one, the parser and printer classes |
| `Race.dfy`, `RaceLink.dfy` | the race combinator the runners wait on, and that the state machines' races are its polls |
| `HeldSession.dfy`, `HeldSlots.dfy`, `HeldCustody.dfy`, `HeldTiming.dfy`, `HeldEndings.dfy`, `HeldLimits.dfy`, `HeldRefinement.dfy`, `HeldRunner.dfy`, `FollowRunner.dfy` | held sessions: the state machine of `follow` and `coalesce`, slots, custody, timing, when and how they end, the limits of the buffer, refinement, the classes |
| `FirstMatch.dfy`, `FirstMatchProofs.dfy`, `FirstMatchAdmission.dfy`, `FirstMatchReport.dfy`, `FirstMatchRunner.dfy` | the live first-match runner: state machine, custody, admission of its outcomes, their kinds and reasons, the class |
| `Messages.dfy` | outcomes, and the admission rules of the validator stated on their own |
| `PollBudget.dfy`, `PollCycle.dfy`, `PollCustody.dfy`, `PollVisits.dfy`, `PollOutcomes.dfy`, `PollReport.dfy`, `PollCursors.dfy`, `PollFairness.dfy`, `PollWitnesses.dfy`, `PollReportWitnesses.dfy`, `PollRunner.dfy` | the poll cycle: budget, state machine, conservation and progress, what a visit says, admission, what an outcome says, cursors and acks, fairness, runs in which a promise fails, the classes |
| `SchemaClosure.dfy` | the worklist that selects one message schema |
| `FsBind.dfy` | the filesystem bind: tokens, ownership, anchor chain |
| `Rfc3339.dfy`, `Decimal.dfy` | timestamp text, decimal text |
| `Wrappers.dfy`, `Slices.dfy` | options and results, parts of sequences |

`dafny verify dfyconfig.toml` checks the whole project.

## What the proofs found

Places where a promise holds only under a condition. Each has a lemma with the exact
condition, and one with an input that fails it: a run from its start where there is
a run.

- First match reads the clock twice, once to decide and give back the losers and
  once to finish (`first_match.rs:182-191`, `267-276`). When a lease ends between
  the two readings the winner's event is neither reported nor given back:
  `SettleAccountsIff`, `RunAccountsIff`, `LeaseGap`, `WinnerCanBeLost`.
- A live outcome is cancelled, or fails at the deadline, after a lease and keeps its
  kind, while the validator then accepts only `reauthentication_required`
  (`validate.rs:693`); with no required registration its quiet deadline outcome is
  not normative; and it reports one event under bounds of zero:
  `EndingStepMeets`, `CancelledPastLease`, `NoRequiredBindIsRefused`,
  `ZeroBoundExceeded`.
- A poll cycle that is cancelled or fails after a lease keeps its kind as well
  (`poll_cycle.rs:1051-1059`): `EndingLeaseIff`, `CycleLeaseIff`,
  `PollWitnesses.CancelledPastLeaseRefused`.
- A poll outcome that posture rewrites loses its events and retained ids but keeps
  the advanced `retained_through` (`poll_cycle.rs:1085-1106`): `BackedIff`,
  `CycleBackedIff`, `RewriteKeepsMovedCursor`. Its honest acknowledgement is accepted
  and commits that cursor, so delivery exactly once fails, there and nowhere else:
  `RoundExactIff`, `DeliveredExactlyOnce`, `RewrittenAckSkips`.
- A quiet poll outcome is normative only with a required registration, and only when
  every requested arm id is carried by a started, clean arm. More ids than required
  registrations can break that, or not, when an optional one carries the surplus:
  `AssembledNormativeIff`, `CycleMeetsRules`, `NoRequiredArmRefused`,
  `SurplusArmRefused`, `OptionalArmAccepted`.
- The honest acknowledgement is refused when two registrations report one event id,
  and only then: `CycleAckAcceptedIff`, `CycleAckAccepted`, `SharedEventIdRefused`.
- A requested arm id `start` makes the next cursor the reserved `fair:start` and
  sends the rotation back to the first arm: `AdvancesIff`, `ArmNamedStartResets`,
  `ArmNamedStartHoldsRotation`. The validator's starvation rule then rejects the
  outcomes of such cycles: `HeldRotationStarves`.
- An outcome of kind events has put off no required arm and left nothing that was due
  on the arms it reports, but the event of an optional arm may wait
  (`poll_cycle.rs:928-932` looks at required arms only): `EventsLeaveNothingDue`,
  `OptionalEventWaits`.
- `owns` reads sequence numbers with `str::parse`, so it also accepts spellings no
  bind prints (`+7`, `007`): `TokenSequenceIff`, `PlusSignIsRead`.
- `format_utc` writes six digits, so an instant reads back exactly only when it is
  a whole number of microseconds: `RoundTripIff`, `NanosecondIsLost`.
- References in the selected schema document resolve inside it unless they come in
  with the entry's own `$schema` member, or from a definition that is itself
  called `$ref`: `DocumentResolvesIff`, `StrayReferenceIsLost`; with a string for
  `$schema` and no such definition they do: `PlainDocumentResolves`.

## Conditions the theorems name

- Fairness over many cycles assumes that the labels of different arms differ and none
  is the reserved first cursor (`DistinctLabels`).
- Registration ids are distinct, and an event carries the id of the registration
  it came from (`Labelled`, `DistinctIds`). The message maps are keyed by
  registration id, so the source cannot tell duplicates apart either.
- "Accepting" observers take every event back. A refusal is modelled; it ends the
  run with an error, and only then may an event be missing.
- A log theorem over many cycles assumes a source that replays each log from where
  delivery stands, and starts an arm without an acknowledged anchor at the log's
  origin. A round skips an arm when it acknowledges an outcome that posture rewrote
  (a lease over, or a receipt missing, when the cycle ended) although the arm's events
  were reported and moved its cursor (`RoundSkips`).

## Model

| member | source | states |
|---|---|---|
| Decimal.ReadOfPrint | crates/waitprims-fs/src/lib.rs:749-762 | the decimal text of an unsigned integer reads back as it |
| Decimal.PrintOfRead | crates/waitprims-core/src/jcs.rs:382-414 | digits without a leading zero are what their value prints as |
| Jcs.Utf16Injective | crates/waitprims-core/src/jcs.rs:341-354 | two names with the same UTF-16 code units are the same name |
| Jcs.NameOrderTotal | crates/waitprims-core/src/jcs.rs:341-354 | sorting names by UTF-16 code units is total and irreflexive |
| Jcs.NameOrderTransitive | crates/waitprims-core/src/jcs.rs:341-354 | the member order is transitive |
| Jcs.SortedNames | crates/waitprims-core/src/jcs.rs:341-354 | the member names of an object come once each, in strictly increasing UTF-16 order |
| JcsRoundTrip.EscapeParses | crates/waitprims-core/src/jcs.rs:359-380 | whatever a character is printed as, the string parser reads that character back |
| JcsRoundTrip.ReadHex4OfHex4 | crates/waitprims-core/src/jcs.rs:216-229 | the four hex digits of any 16-bit unit are read back as that unit, and what follows is left |
| JcsRoundTrip.EncodedStringParses | crates/waitprims-core/src/jcs.rs:160-191 | a printed string is read back whole, whatever follows it |
| JcsRoundTrip.UnicodeEscapeParses | crates/waitprims-core/src/jcs.rs:193-214 | every scalar value has a `\u` spelling, one unit or a surrogate pair, that is read back as it |
| JcsRoundTrip.LoneSurrogateRefused | crates/waitprims-core/src/jcs.rs:193-214 | a surrogate unit without its partner is an error |
| JcsRoundTrip.EncodedNumParses | crates/waitprims-core/src/jcs.rs:231-286 | a printed integer up to 2^53 reads back as itself |
| JcsRoundTrip.ItemsParse | crates/waitprims-core/src/jcs.rs:96-119 | printed array items are read back in order |
| JcsRoundTrip.PairsParse | crates/waitprims-core/src/jcs.rs:121-158 | printed members are read back with their values, in the printed order |
| JcsRoundTrip.AddAllDistinct | crates/waitprims-core/src/jcs.rs:121-158 | adding members one by one succeeds exactly when no name repeats |
| JcsRoundTrip.ValueRoundTrips | crates/waitprims-core/src/jcs.rs:324-357 | every value, nested to any depth, is read back from its canonical form, whatever follows |
| JcsRoundTrip.CanonicalTextParses | crates/waitprims-core/src/jcs.rs:46-66 | `parse_strict` of the canonical text of a value is that value |
| JcsRoundTrip.CanonicalizeIdempotent | crates/waitprims-core/src/jcs.rs:34-66 | canonicalizing canonical text changes nothing |
| JcsRoundTrip.CanonicalFormDecidesEquality | crates/waitprims-core/src/jcs.rs:34-66 | two accepted texts have equal canonical bytes exactly when they parse to equal values |
| JcsRoundTrip.MemberOrderIrrelevant | crates/waitprims-core/src/jcs.rs:121-158 | a text that lists members in any order reads as the object they make, and fails exactly when a name repeats |
| JcsRoundTrip.Utf16OrderIsNotScalarOrder | crates/waitprims-core/src/jcs.rs:341-354 | two names that UTF-16 order and scalar order sort differently |
| JcsGrammar.ReadHex4Iff | crates/waitprims-core/src/jcs.rs:216-229 | four characters are read as a code unit exactly when they spell it in hexadecimal, in either case |
| JcsGrammar.CharReads | crates/waitprims-core/src/jcs.rs:160-214 | every spelling of a character, by itself, by a one-letter escape or by its code units, is read as that character |
| JcsGrammar.FirstChar | crates/waitprims-core/src/jcs.rs:160-214 | whatever the string reader takes first is a spelling of the character it takes it for: no raw control character, no other escape, no lone surrogate |
| JcsGrammar.StringIff | crates/waitprims-core/src/jcs.rs:160-191 | a text is read as a string, and what is left, exactly when it begins with a quoted spelling of it |
| JcsGrammar.NumberIff | crates/waitprims-core/src/jcs.rs:231-286 | exactly the integer tokens without a leading zero are read, whole and as their value |
| JcsGrammar.ValueIff | crates/waitprims-core/src/jcs.rs:73-158 | a value is read from a text, and what is left, exactly when the text begins with white space and a spelling of the value, stated by the structure of the value without the parser |
| JcsGrammar.StrictIff | crates/waitprims-core/src/jcs.rs:54-66 | a text is accepted as a value if and only if it spells that value: white space where it is allowed, any escape of each character, members in any order and no name twice, and nothing after it |
| JcsGrammar.SpellsOneValue | crates/waitprims-core/src/jcs.rs:54-66 | no text spells two values |
| JcsCanonical.EscapeIff | crates/waitprims-core/src/jcs.rs:359-380 | a character is printed as its shortest spelling, with lower-case digits, and as `\u` only when it is a control character without a shorter escape |
| JcsCanonical.CanonicalIsShortest | crates/waitprims-core/src/jcs.rs:34-66 | no text that is accepted as a value is shorter than its canonical form |
| JcsCanonical.CanonicalOrder | crates/waitprims-core/src/jcs.rs:341-354 | the canonical text of an object spells its members in strictly increasing UTF-16 order of their names |
| JcsParser.Parser.SkipWhite | crates/waitprims-core/src/jcs.rs:306-311 | the position moves past exactly the white space |
| JcsParser.Parser.ReadUnicodeEscape | crates/waitprims-core/src/jcs.rs:193-214 | the escape method reads what the grammar function says, or fails as it does |
| JcsParser.Parser.ReadString | crates/waitprims-core/src/jcs.rs:160-191 | the string loop reads what the grammar function says |
| JcsParser.Parser.ReadNumber | crates/waitprims-core/src/jcs.rs:231-286 | the number loops read what the grammar function says |
| JcsParser.Parser.ReadArray | crates/waitprims-core/src/jcs.rs:96-119 | the array loop reads what the grammar function says |
| JcsParser.Parser.ReadObject | crates/waitprims-core/src/jcs.rs:121-158 | the object loop reads what the grammar function says, refusing a repeated name |
| JcsParser.Parser.ReadValue | crates/waitprims-core/src/jcs.rs:73-86 | recursive descent ends, on what is left of the text, with the grammar's result |
| JcsParser.ReadStrict | crates/waitprims-core/src/jcs.rs:54-65 | the strict reader computes the grammar's result, which is a value exactly for the texts that `JcsGrammar.StrictIff` names |
| JcsParser.Output.PushString | crates/waitprims-core/src/jcs.rs:359-380 | appends the canonical form of a string: the spelling that `JcsCanonical.EscapeIff` names, character by character |
| JcsParser.Output.PushValue | crates/waitprims-core/src/jcs.rs:324-357 | appends the canonical form of a value, members sorted |
| JcsParser.CanonicalizeText | crates/waitprims-core/src/jcs.rs:34-52 | parse then print computes the canonical text, or the parser's error |
| Seam.IndexOf | crates/waitprims-async/src/follow.rs:502-506 | the first registration that carries an id, or none |
| Race.PolledByArm | crates/waitprims-async/src/race.rs:65-96 | after any number of polls each arm holds its first answer |
| Race.PendingHoldsNothingTerminal | crates/waitprims-async/src/race.rs:97-119 | while the race is pending no arm holds a terminal value and none has failed |
| Race.CancelledRaceHoldsNoTerminal | crates/waitprims-async/src/race.rs:45-56 | taking the stored values out of a pending race never yields an event |
| Race.HarvestIsComplete | crates/waitprims-async/src/race.rs:65-119 | a completed race hands over every value any arm ever yielded, once each, in arm order |
| Race.QuietHarvestCoversAll | crates/waitprims-async/src/race.rs:97-119 | without an error or a terminal value every arm is in the harvest, at its own position |
| Race.FirstReady.Poll | crates/waitprims-async/src/race.rs:65-119 | one poll, in place, computes the race function; a pending poll leaves the polled arms |
| Race.FirstReady.HarvestArms | crates/waitprims-async/src/race.rs:97-119 | the second pass collects stored values and polls the waiting arms once more |
| RaceLink.LiveRaceEnds | crates/waitprims-async/src/first_match.rs:168-188 | a live race that ends, after any number of polls, hands over exactly the entries the state machine harvests, and without an error is over for the machine |
| RaceLink.LiveRacePending | crates/waitprims-async/src/race.rs:97-121 | while the live race is pending it is not over for the machine |
| RaceLink.InterruptedRaceTakesNothing | crates/waitprims-async/src/first_match.rs:204-217 | what a cancellation or the timer takes out of a pending race and gives back changes no queue |
| RaceLink.PendingArmsRaceEnds | crates/waitprims-async/src/poll_cycle.rs:331-350 | the poll race, over the bound arms that have not reported, ends with the harvest of the machine, arm by arm, and without an error is over for it |
| RaceLink.PendingArmsRacePending | crates/waitprims-async/src/race.rs:97-121 | while the poll race is pending it is not over for the machine |
| RaceLink.DroppedRaceTookNothing | crates/waitprims-async/src/poll_cycle.rs:476-555 | a poll race that another branch drops has taken no event from any queue |
| RaceLink.BindRaceEnds | crates/waitprims-async/src/poll_cycle.rs:352-375 | the race over the unbound arms ends without an error only when some arm has come to be bound, and while it is pending none has |
| HeldSlots.RunOnePhase | crates/waitprims-async/src/follow.rs:466-498 | from the start of a session, in every reachable state of either runner, each slot is in one phase |
| HeldSlots.BoundAtMostOnce | crates/waitprims-async/src/follow.rs:555-600 | from the start of a session each registration is bound at most once |
| HeldSlots.OneObservationPerTurn | crates/waitprims-async/src/follow.rs:555-615 | within a turn a slot yields at most one observation, and keeps it |
| HeldSlots.ContinuingTurnAsksAll | crates/waitprims-async/src/follow.rs:695-716 | a turn of either runner that continues leaves no slot with an observation and has asked every bound one for its next |
| HeldSlots.SinkRefusalArmsNothing | crates/waitprims-async/src/follow.rs:354-395 | after a sink refusal no arm is asked for more, no queue changes, nothing counts as sunk |
| HeldSlots.OwnIdsAreLabels | crates/waitprims-async/src/follow.rs:502-506 | distinct registration ids and events under their own id give labelled streams |
| HeldCustody.PushAllAppends | crates/waitprims-async/src/coalesce.rs:84-123 | buffering keeps order; an overflow hands back everything unsunk, in order |
| HeldCustody.PushQuietByArm | crates/waitprims-async/src/coalesce.rs:551-574 | splitting a turn into urgent and buffered events keeps each arm's order, also when the buffer overflows midway |
| HeldCustody.GiveBackAllByArm | crates/waitprims-async/src/follow.rs:508-547 | restoring custody puts each arm's events back in front of its queue, oldest first |
| HeldCustody.GiveBackAndEndByArm | crates/waitprims-async/src/coalesce.rs:141-173 | a failing exit leaves each queue as the unsunk suffix, in order, unless the observer refuses |
| HeldCustody.FinalFlushKeepsCustody | crates/waitprims-async/src/coalesce.rs:456-500 | the last flush sinks or gives back everything it held |
| HeldCustody.DecideKeepsCustody | crates/waitprims-async/src/coalesce.rs:396-454 | one coalesce decision, on any exit, keeps custody of every event |
| HeldCustody.FollowKeepsCustody | crates/waitprims-async/src/follow.rs:354-395 | one follow decision, on any exit, keeps custody of every event |
| HeldCustody.StepKeepsCustody | crates/waitprims-async/src/coalesce.rs:181-394 | every move of the runner or its environment keeps sunk, pending, held and queued events equal to the stream |
| HeldCustody.RunKeepsCustody | crates/waitprims-async/src/coalesce.rs:181-394 | custody, one phase per slot, and only non-urgent events pending, in every reachable state |
| HeldCustody.SessionNeverLosesEvents | crates/waitprims-async/src/coalesce.rs:181-394 | over any run, per registration, sunk then pending then held then queued is the original stream; only a refusing sink or observer drops events |
| HeldTiming.ContinuingTurnLeavesNothingDue | crates/waitprims-async/src/coalesce.rs:501-592 | after a continuing turn nothing is pending or the quiet time lies ahead |
| HeldTiming.UrgentEventsSinkAtOnce | crates/waitprims-async/src/coalesce.rs:501-592 | an urgent event is sunk in the turn it was taken, or the session ends |
| HeldTiming.TurnsOfARun | crates/waitprims-async/src/coalesce.rs:501-592 | in every run from the start of a session, a turn that continues leaves nothing overdue and has sunk every urgent event the slots held |
| HeldTiming.RunKeepsCadence | crates/waitprims-async/src/coalesce.rs:594-618 | in every run the next quiet time is at least one interval after the last quiet burst |
| HeldTiming.QuietBurstsSpaced | crates/waitprims-async/src/coalesce.rs:594-618 | consecutive quiet bursts are at least the minimum interval apart |
| HeldTiming.EarliestLease | crates/waitprims-async/src/follow.rs:253-258 | the earliest lease of the set |
| HeldTiming.BackoffDoubles | crates/waitprims-async/src/follow.rs:297-312 | the delay of idle turns starts at 50 ms and doubles up to a second |
| HeldTiming.IdleSleepHonoursEveryDuty | crates/waitprims-async/src/coalesce.rs:218-275 | the sleep of an idle turn ends no later than a deadline, any lease, or a pending quiet time, and at one of these, or after the backoff of at least 50 ms |
| HeldTiming.WaitsOfARun | crates/waitprims-async/src/coalesce.rs:244-375 | in every run from the start of a session, neither the sleep of an idle turn nor the timers of the select oversleep a deadline, a lease or a pending quiet time, and the select wakes only at one of these |
| HeldEndings.FirstTerminalIs | crates/waitprims-async/src/follow.rs:629-666 | the terminal of a slot set is that of the first arm that stopped, and there is none exactly when no arm did |
| HeldEndings.PendingIs | crates/waitprims-async/src/follow.rs:668-681 | the pending bind is the first required one that is missing, and there is none exactly when all are in |
| HeldEndings.FollowTurnTold | crates/waitprims-async/src/follow.rs:354-395 | each ending of a follow turn if and only if the turn met such a state: a lease over, a receipt missing, a fault, a cancellation, a refusal, the first stopped arm, the first missing bind, a deadline; else it goes on |
| HeldEndings.PushAllSpills | crates/waitprims-async/src/coalesce.rs:84-123 | a push overflows exactly when some event is the first to find no room behind those before it, and names its registration |
| HeldEndings.CoalesceTurnTold | crates/waitprims-async/src/coalesce.rs:397-592 | the same for a coalesce turn, with the flush, the urgent burst, the quiet burst and the arm that overflowed |
| HeldEndings.MovesOfARun | crates/waitprims-async/src/coalesce.rs:181-454 | in every reachable state of either runner, each move ends the session exactly in these ways |
| HeldEndings.SessionEnds | crates/waitprims-async/src/coalesce.rs:181-454 | over every run of either runner: a session that has ended was ended by one move, and its result is what that move tells of the state it met |
| HeldEndings.SinksOnlyInTime | crates/waitprims-async/src/follow.rs:213-237 | over every run of either runner: events are sunk only by a turn before every lease of the set ends, with the receipt that is asked for |
| HeldLimits.FitsIff | crates/waitprims-async/src/coalesce.rs:84-123 | an event finds room in the buffer exactly when the limits of the set and of every registration hold with it |
| HeldLimits.PendingWithinLimits | crates/waitprims-async/src/coalesce.rs:84-123 | in every reachable state the buffer is within those limits |
| HeldLimits.QuietBurstsWait | crates/waitprims-async/src/coalesce.rs:501-618 | over every run: a quiet burst, the first one too, comes no earlier than the quiet time that a turn before it set one interval ahead |
| HeldLimits.QuietEventsWait | crates/waitprims-async/src/coalesce.rs:501-618 | over every run: while the session goes on, an event that is not urgent is sunk only in a quiet burst |
| HeldRefinement.ZeroIntervalTurnFollows | crates/waitprims-async/src/coalesce.rs:501-618 | with a zero interval and room for the turn, a coalesce turn sinks what follow sinks, in the same order |
| HeldRefinement.ZeroIntervalRunFollows | crates/waitprims-async/src/coalesce.rs:181-394 | a whole run of such turns leaves both runners in the same session |
| HeldRunner.PendingBuffer.TryPush | crates/waitprims-async/src/coalesce.rs:84-123 | accepts an event exactly when aggregate and per-registration limits hold, and counts it |
| HeldRunner.SlotSet.TakeEvents | crates/waitprims-async/src/follow.rs:617-627 | takes the events out of the slots in order and leaves signals |
| HeldRunner.SlotSet.FindTerminal | crates/waitprims-async/src/follow.rs:629-666 | the first arm with a terminal observation |
| HeldRunner.SlotSet.RestoreCustody | crates/waitprims-async/src/follow.rs:508-547 | restores events newest first, so each queue gets them back oldest first, and says whether any was refused |
| HeldRunner.SlotSet.RestoreHeld | crates/waitprims-async/src/follow.rs:440-459 | gives back what the slots hold |
| HeldRunner.SlotSet.RearmIdle | crates/waitprims-async/src/follow.rs:695-716 | forgets signals and asks every idle bound slot again |
| HeldRunner.SlotSet.PollAvailable | crates/waitprims-async/src/follow.rs:555-600 | polls until nothing is ready; ends because twice the binding slots plus the waiting ones falls |
| HeldRunner.SlotSet.HarvestPollReady | crates/waitprims-async/src/follow.rs:602-615 | asks every bound slot without a harvest once |
| HeldRunner.Coalescer.PushQuietEach | crates/waitprims-async/src/coalesce.rs:551-566 | the loop that buffers quiet events and sets urgent ones aside computes the split |
| HeldRunner.Coalescer.TakeTurn | crates/waitprims-async/src/coalesce.rs:501-592 | one turn, in place, computes the turn function |
| HeldRunner.Coalescer.Flush | crates/waitprims-async/src/coalesce.rs:456-500 | the final flush, in place, computes its function |
| HeldRunner.Coalescer.DecideTurn | crates/waitprims-async/src/coalesce.rs:396-454 | one coalesce turn, in place, computes the decision of the state machine, whose endings `HeldEndings.CoalesceTurnTold` states one by one |
| HeldRunner.WakeTime | crates/waitprims-async/src/follow.rs:253-266 | the pass over the leases computes the earliest wake |
| HeldRunner.BackoffTime | crates/waitprims-async/src/follow.rs:297-312 | the backoff, cut off at the wake |
| HeldRunner.Coalescer.Sleep | crates/waitprims-async/src/coalesce.rs:260-276 | unless the cancel token wakes it, the runner wakes no earlier than the sleep of an idle turn, or the first timer of the select, says |
| HeldRunner.Coalescer.Pass | crates/waitprims-async/src/coalesce.rs:218-394 | one pass of the loop is a run of the state machine that ends in a decision |
| HeldRunner.Coalescer.RunUntil | crates/waitprims-async/src/coalesce.rs:181-394 | any number of passes is a run of the state machine, with a decision per pass while it goes on, so every theorem about runs holds of it |
| HeldRunner.Coalescer.PollAndDecide | crates/waitprims-async/src/coalesce.rs:223-243 | re-arm, poll, ask every arm, decide: a run of the state machine that ends in that turn |
| FollowRunner.Follower.FinishWith | crates/waitprims-async/src/follow.rs:417-459 | what the slots hold goes back before the session ends |
| FollowRunner.Follower.DecideTurn | crates/waitprims-async/src/follow.rs:354-395 | one follow turn, in place, computes the decision of the state machine, whose endings `HeldEndings.FollowTurnTold` states one by one |
| FollowRunner.Follower.Sleep | crates/waitprims-async/src/follow.rs:314-328 | unless the cancel token wakes it, the runner wakes no earlier than the sleep of an idle turn, or the wake of the select, says |
| FollowRunner.Follower.Pass | crates/waitprims-async/src/follow.rs:109-195 | one pass of the loop is a run of the state machine that ends in a decision; a wake re-arms, polls and asks every arm first, the cancel arm only polls |
| FollowRunner.Follower.RunUntil | crates/waitprims-async/src/follow.rs:79-198 | any number of passes is a run of the state machine, with a decision per pass while it goes on |
| FirstMatchProofs.ReadyIsSound | crates/waitprims-async/src/first_match.rs:320-333 | a harvest has each arm at most once, and every event in it is the head of its arm's queue |
| FirstMatchProofs.RestoreUndoesHarvest | crates/waitprims-async/src/first_match.rs:345-388 | giving back restores every queue, except that the winner's loses its head |
| FirstMatchProofs.WinnerIsLowest | crates/waitprims-async/src/first_match.rs:335-343 | the tie rule: the winner is the event of the lowest arm that has one |
| FirstMatchProofs.UndecidedIffIdle | crates/waitprims-async/src/first_match.rs:410-454 | no decision exactly when every harvested observation is idle |
| FirstMatchProofs.DecisionReportsWinner | crates/waitprims-async/src/first_match.rs:410-454 | a decision reports the winner's event, as partial under overflow, or fails with none |
| FirstMatchProofs.SettleTakesWinner | crates/waitprims-async/src/first_match.rs:390-408 | a posture rejection or a decision without winner takes nothing; otherwise only the winner's event is gone |
| FirstMatchProofs.SettleAccountsIff | crates/waitprims-async/src/first_match.rs:182-191 | every taken event is reported if and only if posture does not turn between the two clock readings |
| FirstMatchProofs.LeaseGap | crates/waitprims-async/src/first_match.rs:505-525 | that guard in terms of the leases of the set |
| FirstMatchProofs.WinnerCanBeLost | crates/waitprims-async/src/first_match.rs:182-191 | a run from the start, the bind and then the race, in which the winner's event is reported nowhere and queued nowhere |
| FirstMatchProofs.RunTakesOnlyTheReportedEvent | crates/waitprims-async/src/first_match.rs:134-304 | over any run without such a gap all queues are what arrived, except the head that is reported |
| FirstMatchProofs.EndingAccountsIff | crates/waitprims-async/src/first_match.rs:134-304 | the step that ends a run reports all it took, if and only if it is not a ready race with an event whose lease runs out between the two clock readings |
| FirstMatchProofs.RunAccountsIff | crates/waitprims-async/src/first_match.rs:134-304 | over every run that returns an outcome: all queues are what arrived minus the one head that is reported, if and only if the input that ended it, at the state it met, is not such a race |
| FirstMatchProofs.HeldBindsLineUp | crates/waitprims-async/src/first_match.rs:247-284 | binds are held only when the race handed over one idle observation per registration, in order |
| FirstMatchProofs.RunHoldsInOrder | crates/waitprims-async/src/first_match.rs:247-284 | in every run, held binds means every start cursor is known |
| FirstMatchProofs.CleanArmsMember | crates/waitprims-async/src/outcome.rs:78-87 | clean arms are quiet, move no cursor, and contain a required arm exactly when the set does |
| FirstMatchProofs.DeadlineOutcomeNormativeIff | crates/waitprims-async/src/first_match.rs:456-483 | a live deadline outcome is normative if and only if some registration is required |
| FirstMatchProofs.PartialMovesOnlyTheWinner | crates/waitprims-async/src/outcome.rs:101-134 | in a partial outcome only the reported event's arm moves its cursor; the others are deferred |
| FirstMatchAdmission.EndingStepMeets | crates/waitprims-core/src/validate.rs:621-760 | the step that ends a live run: its outcome is authenticated, and it meets the normative, lease and bounds rules each if and only if that input, at the state it met, does not slip it: a deadline with no required registration, a cancellation or failure after a lease, a harvested event without room for one |
| FirstMatchAdmission.RunMeetsRules | crates/waitprims-async/src/first_match.rs:134-304 | a run that returns an outcome returns it at one input, and that input, at the state it met, decides the same three conditions |
| FirstMatchAdmission.LiveOutcomeMeets | crates/waitprims-core/src/validate.rs:621-760 | the same from the start of a run; with room for one event everywhere the bounds always hold, and with a required registration the outcome is always normative |
| FirstMatchAdmission.NoRequiredBindIsRefused | crates/waitprims-core/src/validate.rs:250-348 | a run without a required registration whose quiet deadline outcome is not normative |
| FirstMatchAdmission.CancelledPastLease | crates/waitprims-core/src/validate.rs:674-703 | a run cancelled after a lease whose outcome the lease rule rejects |
| FirstMatchAdmission.ZeroBoundExceeded | crates/waitprims-core/src/validate.rs:705-759 | a run that reports an event under bounds of zero |
| FirstMatchReport.DecisionTold | crates/waitprims-async/src/first_match.rs:410-454 | what is decided from a harvest, with its reason, by whether it has an event, an overflow or an arm that broke |
| FirstMatchReport.LiveOutcomeTold | crates/waitprims-async/src/first_match.rs:134-304 | over every run: each kind of outcome, and its reason, if and only if the input that ended the run and the harvest at the state it met are such, with posture at both readings of the clock |
| FirstMatchRunner.LiveWait.ExtendReady | crates/waitprims-async/src/first_match.rs:320-333 | asks exactly the arms without an entry, and pops each event it takes |
| FirstMatchRunner.LiveWait.RestoreOwned | crates/waitprims-async/src/first_match.rs:345-388 | pushes events back in harvest order, skips the winner, stops at a refusal |
| FirstMatchRunner.LiveWait.Decide | crates/waitprims-async/src/first_match.rs:410-454 | the fold over the harvest computes the decision |
| FirstMatchRunner.LiveWait.DecideAndRestore | crates/waitprims-async/src/first_match.rs:390-408 | deciding and giving back, in place, is the settle function |
| FirstMatchRunner.LiveWait.RaceReady | crates/waitprims-async/src/first_match.rs:166-203 | the ready branch, in place, is a step of the state machine |
| FirstMatchRunner.LiveWait.BindRaceReady | crates/waitprims-async/src/first_match.rs:247-284 | the ready branch of the first race, in place, is a step of the state machine and holds the binds when undecided |
| FirstMatchRunner.LiveWait.RaceFails | crates/waitprims-async/src/first_match.rs:176-179 | the failing branch gives back what the other arms handed over |
| FirstMatchRunner.LiveWait.DeadlineWake | crates/waitprims-async/src/first_match.rs:214-235 | the timer branch, in place, with the binds held or not, is a step of the state machine |
| FirstMatchRunner.LiveWait.HeadDeadline | crates/waitprims-async/src/first_match.rs:157-163 | the deadlines at the head of the loop, in place, are a step of the state machine |
| FirstMatchRunner.LiveWait.CancelAt | crates/waitprims-async/src/first_match.rs:149-156 | a cancellation, in place, is a step of the state machine |
| FirstMatchRunner.LiveWait.BindResolved | crates/waitprims-async/src/first_match.rs:85-93 | a start is recorded once, while the binds are not held |
| FirstMatchRunner.LiveWait.Take | crates/waitprims-async/src/first_match.rs:148-303 | whichever branch an input selects, one turn of the loop is the step of the state machine |
| FirstMatchRunner.LiveWait.RunUntil | crates/waitprims-async/src/first_match.rs:134-304 | the loop over any inputs leaves the state that the machine reaches, so every theorem about runs holds of it |
| PollBudget.TakeMeets | crates/waitprims-async/src/poll_cycle.rs:169-189 | an event is admitted exactly when no byte limit is used up and all totals stay within limits; the counters then count it |
| PollBudget.CollectBudget.TryTake | crates/waitprims-async/src/poll_cycle.rs:169-189 | the counters stay the totals over what was admitted, below aggregate, request and per-registration limits |
| PollCycle.FirstLabelled | crates/waitprims-async/src/poll_cycle.rs:1375-1387 | the first arm that a cursor names, or none |
| PollCustody.OrderCoversOnce | crates/waitprims-async/src/poll_cycle.rs:396-403 | the fairness order has every arm exactly once |
| PollCustody.DrainSplits | crates/waitprims-async/src/poll_cycle.rs:781-814 | a drain takes a prefix of the queue and leaves the rest |
| PollCustody.RecordByArm | crates/waitprims-async/src/poll_cycle.rs:701-739 | recording a harvest keeps each arm's events and queue, visits every arm that had something, and no other |
| PollCustody.PushAllBackWhole | crates/waitprims-async/src/poll_cycle.rs:666-671 | pushing back last first restores the order |
| PollCustody.EmitConserves | crates/waitprims-async/src/poll_cycle.rs:657-690 | every exit through emit leaves the queues as found |
| PollCustody.NextConserves | crates/waitprims-async/src/poll_cycle.rs:405-615 | every branch of the loop keeps admitted plus queued equal to the stream |
| PollCustody.CycleConserves | crates/waitprims-async/src/poll_cycle.rs:405-814 | over any interleaving a cycle that returns an outcome leaves each queue as found plus arrivals; so does a failing one unless an event was refused |
| PollCustody.DrainWithinBudget | crates/waitprims-async/src/poll_cycle.rs:781-814 | draining keeps the counters equal to the totals and below the limits |
| PollCustody.RunInBudget | crates/waitprims-async/src/poll_cycle.rs:405-615 | in every run the counters are the totals over the visits, below every limit |
| PollCustody.CycleHarvestsBounded | crates/waitprims-async/src/poll_cycle.rs:405-615 | a cycle over n arms takes at most 2n + 1 harvests, whatever the observers do |
| PollVisits.DrainIff | crates/waitprims-async/src/poll_cycle.rs:781-814 | a drain is not truncated exactly when it took every event that was due, no overflow followed and room is left; what it did not take did not fit |
| PollVisits.RunSees | crates/waitprims-async/src/poll_cycle.rs:701-779 | over every run: each visit mirrors what its arm handed over at the happening that recorded it, a signal by kind and reason, an event with those behind it that were due |
| PollVisits.DeferredDoesNotFit | crates/waitprims-async/src/poll_cycle.rs:692-739 | over every run: an arm is put off only when its event does not fit on top of all that the cycle has admitted by its end |
| PollReport.TableIff | crates/waitprims-async/src/poll_cycle.rs:898-1044 | each row of the decision table by what the visits show, and the reason of a failure |
| PollReport.CycleKindIff | crates/waitprims-async/src/poll_cycle.rs:828-1083 | over every run: each kind of outcome, posture included, and its reason, if and only if the run ended so and its visits show that, by quantifiers over the arms |
| PollReport.CycleArmsTold | crates/waitprims-async/src/poll_cycle.rs:1108-1276 | over every run: an outcome tells of exactly the arms whose start is known, in registration order, and of each its status, counts, reason and cursors as its visit has them, whether events were kept, and whether it was reached |
| PollReport.CycleEventsTold | crates/waitprims-async/src/poll_cycle.rs:1124-1183 | over every run: an outcome of kind events or partial reports exactly what the arms admitted, any other nothing |
| PollReport.EventsLeaveNothingDue | crates/waitprims-async/src/poll_cycle.rs:990-1000 | over every run: an outcome of kind events leaves, on an arm with events, none that was due when it was recorded, and has put off no required arm |
| PollReport.CycleCoverageIff | crates/waitprims-async/src/poll_cycle.rs:1278-1301 | over every run: complete coverage is claimed if and only if the kind may and every requested arm id is carried |
| PollReport.CycleGoesOn | crates/waitprims-async/src/poll_cycle.rs:405-615 | over every run: a cycle that goes on waits for some arm, and is ended by a deadline it sees exactly when it is reached |
| PollReport.CycleErrorTold | crates/waitprims-async/src/poll_cycle.rs:405-690 | over every run that ends in an error: which one, by the happening that ended it, with a refused give-back only when the observer refuses |
| PollReportWitnesses.CrampedOutcome | crates/waitprims-async/src/poll_cycle.rs:994-1000 | a run whose outcome is partial, with a saturated arm and a required one put off |
| PollReportWitnesses.OptionalEventWaits | crates/waitprims-async/src/poll_cycle.rs:928-932 | a run whose outcome is of kind events while the event of an optional arm still waits |
| PollOutcomes.KthRequired | crates/waitprims-async/src/poll_cycle.rs:1323-1336 | each requested arm id within the count of required registrations is taken by one |
| PollOutcomes.QuietArmsAreClean | crates/waitprims-async/src/poll_cycle.rs:898-1044 | a quiet decision leaves every required arm clean, and idle for no_change |
| PollOutcomes.CoverageIff | crates/waitprims-async/src/poll_cycle.rs:1278-1301 | a kind that may claim complete coverage claims it exactly when every requested arm id is carried by a started, clean arm |
| PollOutcomes.FittingArmsCarried | crates/waitprims-async/src/poll_cycle.rs:1278-1336 | in a quiet cycle every requested arm id that a required registration takes is carried |
| PollOutcomes.FilledKeepsEvents | crates/waitprims-async/src/poll_cycle.rs:845-860 | filling at the deadline completes the visits, keeps each one there is, and defers the others exactly when some arm has events |
| PollOutcomes.AssembledNormativeIff | crates/waitprims-core/src/validate.rs:250-348 | a complete cycle's outcome meets the normative rule if and only if, when quiet, some registration is required and every requested arm id is carried by a started, clean arm |
| PollOutcomes.CoverageClaimIsTrue | crates/waitprims-core/src/validate.rs:360-408 | an outcome that claims complete coverage has every requested arm |
| PollOutcomes.ReportedAreAdmitted | crates/waitprims-async/src/poll_cycle.rs:1124-1183 | the reported events are the admitted ones, in registration order |
| PollOutcomes.ReportedWithinBounds | crates/waitprims-core/src/validate.rs:705-759 | neither event-bound rule rejects an outcome |
| PollOutcomes.PostureAuthenticates | crates/waitprims-core/src/validate.rs:648-672 | without the receipt it takes, no outcome is clean |
| PollOutcomes.EndingLeaseIff | crates/waitprims-core/src/validate.rs:674-703 | the happening that ends a cycle breaks the lease rule exactly when a lease is over and it cancels, finds a required bind missing at the deadline, or ends in failing visits |
| PollOutcomes.CycleLeaseIff | crates/waitprims-core/src/validate.rs:674-703 | over every run: the outcome meets the lease rule if and only if the happening that ended the cycle, at the state it met, is none of these |
| PollOutcomes.CycleMeetsRules | crates/waitprims-async/src/poll_cycle.rs:828-1044 | every outcome of every run passes coverage, bounds and authentication; and the normative rule if and only if, when quiet, some registration is required and every requested arm id is carried by the starts and visits of the run |
| PollWitnesses.NoRequiredArmRefused | crates/waitprims-core/src/validate.rs:250-348 | a run whose quiet outcome is not normative for want of a required registration |
| PollWitnesses.SurplusArmRefused | crates/waitprims-core/src/validate.rs:250-348 | a run whose quiet outcome is not normative because one requested arm id has no registration |
| PollWitnesses.OptionalArmAccepted | crates/waitprims-core/src/validate.rs:250-348 | a run with more requested arm ids than required registrations whose outcome is normative: an optional registration carries the surplus one |
| PollWitnesses.CancelledPastLeaseRefused | crates/waitprims-async/src/poll_cycle.rs:1046-1059 | a run cancelled after its lease whose outcome the lease rule rejects |
| PollCursors.BackedIff | crates/waitprims-async/src/poll_cycle.rs:1124-1183 | each retained cursor is the one after the retained events, if and only if posture did not rewrite events that move it |
| PollCursors.CycleBackedIff | crates/waitprims-async/src/poll_cycle.rs:1046-1183 | over every run: each retained cursor is the one after the retained events, if and only if no arm is skipped, that is, unless posture bars when the cycle ends, its visits report, and the events of an arm move its cursor |
| PollWitnesses.RewriteKeepsMovedCursor | crates/waitprims-async/src/poll_cycle.rs:1085-1106 | a run whose rewritten outcome retains no event and still moves its cursor |
| PollWitnesses.RewrittenAckSkips | crates/waitprims-async/src/poll_cycle.rs:34-40 | a run whose rewritten outcome is honestly acknowledged: the ack is accepted, commits the cursor past an event, and delivers nothing |
| PollCursors.CycleAckAcceptedIff | crates/waitprims-core/src/validate.rs:410-484 | over every run, rewritten outcomes included: the honest acknowledgement is accepted if and only if the outcome reports nothing or no event id was admitted from two arms |
| PollCursors.CycleAckAccepted | crates/waitprims-core/src/validate.rs:410-484 | when no event id comes from two arms, every outcome of every run has its honest acknowledgement accepted |
| PollWitnesses.SharedEventIdRefused | crates/waitprims-core/src/validate.rs:410-484 | a run of two arms that share an event id whose honest acknowledgement is refused |
| PollCursors.RunStartsHonest | crates/waitprims-async/src/poll_cycle.rs:253-272 | in every run a bound arm starts at its acknowledged anchor |
| PollCursors.CycleRetains | crates/waitprims-async/src/poll_cycle.rs:1124-1183 | over every run: what an outcome retains for an arm is a prefix of what the arm received, and the cursor is the one after it if and only if the arm is not skipped |
| PollCursors.RoundExactIff | crates/waitprims-testkit/src/case.rs:148-164 | one cycle with or without an accepted ack keeps delivered ids and committed anchor in step with the log, if and only if it does not acknowledge a skipped arm |
| PollCursors.DeliveredExactlyOnce | crates/waitprims-async/src/poll_cycle.rs:34-40 | over any list of cycles, each log is delivered from its start, once and in order, and the committed anchor is in step, all the way, if and only if no round acknowledges a skipped arm |
| PollFairness.AdvancesIff | crates/waitprims-async/src/poll_cycle.rs:1347-1388 | exactly when feeding the next cursor back starts one arm further |
| PollFairness.ArmNamedStartResets | crates/waitprims-async/src/poll_cycle.rs:1347-1388 | a requested arm id `start` sends the rotation back to the first arm |
| PollFairness.ArmNamedStartHoldsRotation | crates/waitprims-async/src/poll_cycle.rs:1347-1388 | when the second arm is called `start`, any number of cycles that hand on the cursor all begin at the first arm |
| PollFairness.EachCycleAdvances | crates/waitprims-async/src/poll_cycle.rs:1347-1388 | over any list of completed cycles that hand on the cursor, each with its own deadlines, bounds, anchors and happenings, every cycle starts one arm further, around |
| PollFairness.RotationAfter | crates/waitprims-async/src/poll_cycle.rs:1347-1388 | within one round of such cycles the first turn passes each arm once |
| PollFairness.FirstTurnAdmits | crates/waitprims-async/src/poll_cycle.rs:721-734 | the first arm of the order has an event it can afford admitted, first in its visit |
| PollFairness.OfferAtFirstTurn | crates/waitprims-async/src/poll_cycle.rs:701-739 | in a whole cycle, an arm with the first turn that offers an affordable event when the cycle first records ends the cycle with that event admitted, first in its visit |
| PollFairness.AdmittedWithinOneRound | crates/waitprims-async/src/poll_cycle.rs:701-739 | over n such cycles, an arm that offers an affordable event at the first record of each has one admitted, first in its visit, in the final state of one of them |
| PollFairness.RotationNeverStarves | crates/waitprims-core/src/validate.rs:486-548 | the starvation rule never fires on the outcomes of such cycles |
| PollReportWitnesses.HeldRotationStarves | crates/waitprims-core/src/validate.rs:486-548 | any two or more linked cycles under an arm id `start` that the starvation rule rejects |
| PollRunner.FairnessStartIndex | crates/waitprims-async/src/poll_cycle.rs:1370-1388 | the loop computes the start index |
| PollRunner.Decide | crates/waitprims-async/src/poll_cycle.rs:898-1044 | the scanning loop computes the decision table, whose rows `PollReport.TableIff` states by the visits |
| PollRunner.BuildOutcome | crates/waitprims-async/src/poll_cycle.rs:1108-1241 | the loop over the arms computes the outcome, whose arms, events and coverage `PollReport.CycleArmsTold`, `CycleEventsTold` and `CycleCoverageIff` state by the visits |
| PollRunner.PollRun.DrainReady | crates/waitprims-async/src/poll_cycle.rs:781-814 | the drain loop, on the shared budget, computes the drain function |
| PollRunner.PollRun.VisitArm | crates/waitprims-async/src/poll_cycle.rs:741-779 | one visit, in place, computes its function and keeps the budget tallied |
| PollRunner.PollRun.RecordReady | crates/waitprims-async/src/poll_cycle.rs:701-739 | both loops of recording, in place, compute the record function |
| PollRunner.PollRun.GiveBack | crates/waitprims-async/src/poll_cycle.rs:657-676 | the nested restore loops compute the restore function |
| PollRunner.PollRun.Finish | crates/waitprims-async/src/poll_cycle.rs:678-690 | emit: a refused restore turns an outcome into an error |
| PollRunner.PollRun.OnObserved | crates/waitprims-async/src/poll_cycle.rs:478-500 | the observing branch, in place, is a step of the state machine |
| PollRunner.PollRun.OnBound | crates/waitprims-async/src/poll_cycle.rs:501-526 | the binding branch, in place, is a step of the state machine |
| PollRunner.PollRun.OnDeadline | crates/waitprims-async/src/poll_cycle.rs:542-554 | the timer branch, in place, is a step of the state machine |
| PollRunner.PollRun.OnObserveFailure | crates/waitprims-async/src/poll_cycle.rs:479-487 | a failed observation, in place, is a step of the state machine |
| PollRunner.PollRun.OnBindFailure | crates/waitprims-async/src/poll_cycle.rs:502-504 | a failed bind, in place, is a step of the state machine |
| PollRunner.PollRun.OnCancel | crates/waitprims-async/src/poll_cycle.rs:423-437 | a cancellation, in place, is a step of the state machine |
| PollRunner.PollRun.OnDeadlineSeen | crates/waitprims-async/src/poll_cycle.rs:438-446 | the deadlines at the head of the loop, in place, are a step of the state machine |
| PollRunner.PollRun.Turn | crates/waitprims-async/src/poll_cycle.rs:422-614 | whichever branch a happening selects, one turn of the loop is the step of the state machine |
| PollRunner.PollRun.RunUntil | crates/waitprims-async/src/poll_cycle.rs:405-615 | the loop over any happenings leaves the state that the machine reaches, so every theorem about runs holds of it |
| PollRunner.DrainEndless | crates/waitprims-testkit/src/observer.rs:372-455 | draining ends even on an observer that is always ready; what was taken and then what is back at the front is what was there and then the minted events, in order |
| SchemaClosure.CollectDefRefs | crates/waitprims-core/src/contract.rs:186-207 | collects exactly the definitions named anywhere inside a value |
| SchemaClosure.ClosedHoldsReachable | crates/waitprims-core/src/contract.rs:148-162 | a set closed under references holds everything reachable |
| SchemaClosure.NeededNames | crates/waitprims-core/src/contract.rs:148-162 | the worklist ends with exactly the reachable definitions, or fails exactly when a reachable one is missing |
| SchemaClosure.SelectMessageSchema | crates/waitprims-core/src/contract.rs:135-184 | fails exactly on a missing kind or reachable name; else returns the definition with exactly what it reaches |
| SchemaClosure.DocumentResolvesIff | crates/waitprims-core/src/contract.rs:164-184 | every reference in the returned document resolves inside its own definitions if and only if the stray ones do |
| SchemaClosure.PlainDocumentResolves | crates/waitprims-core/src/contract.rs:164-184 | with a string for `$schema` and no definition called `$ref` every reference resolves |
| SchemaClosure.StrayReferenceIsLost | crates/waitprims-core/src/contract.rs:172-184 | an entry, selected without an error, whose document names a definition it lacks |
| FsBind.TokenRoundTrip | crates/waitprims-fs/src/lib.rs:749-762 | a token reads back as its sequence under its own session, and as nothing under another |
| FsBind.NamespacesApart | crates/waitprims-fs/src/lib.rs:756-762 | tokens of one namespace are never read in another |
| FsBind.TokenSequenceIff | crates/waitprims-fs/src/lib.rs:756-762 | exactly which texts are read as a sequence number |
| FsBind.PlusSignIsRead | crates/waitprims-fs/src/lib.rs:756-762 | a spelling that no bind prints is accepted |
| FsBind.OwnsExactlyItsOwn | crates/waitprims-fs/src/lib.rs:347-373 | a bind owns the events it minted, and of other binds' events none |
| FsBind.MintsIff | crates/waitprims-fs/src/lib.rs:436-501 | what a live bind answers to a change: an event exactly when the change is inside, of the class the bind is for, within its byte limit and materialized as it should be; each other answer exactly in its case |
| FsBind.FirstSignalAnswers | crates/waitprims-fs/src/lib.rs:294-309 | a poll passes over the changes that the bind ignores and answers the first other signal |
| FsBind.RunChains | crates/waitprims-fs/src/lib.rs:405-501 | from the opening of a bind, with events given back newest first, in any interleaving: the events out and given back are the whole chain in order, with consecutive anchors |
| FsBind.FreshEventsChain | crates/waitprims-fs/src/lib.rs:405-501 | whatever is given back, in whatever order, and whatever else the bind is handed: the events it mints are the next ones of one chain, each once, in order, and the anchor is the one after the last |
| FsBind.AnyOrderConserves | crates/waitprims-fs/src/lib.rs:311-322 | with events given back in any order, the events out and the events given back are every event minted, each exactly once |
| FsBind.RedeliveredInOrder | crates/waitprims-fs/src/lib.rs:311-322 | events given back newest first come out again oldest first |
| FsBind.FsBind.TakeImmediate | crates/waitprims-fs/src/lib.rs:405-421 | released, then restored, then overflow, then terminal, each consumed once |
| FsBind.FsBind.ProcessEvent | crates/waitprims-fs/src/lib.rs:436-501 | mints the next event only when every check passes, and moves the anchor with it |
| FsBind.FsBind.PollReady | crates/waitprims-fs/src/lib.rs:294-309 | what is at hand, else the first signal that yields something |
| FsBind.FsBind.RestoreReady | crates/waitprims-fs/src/lib.rs:311-322 | takes an owned event back in front, refuses any other |
| Rfc3339.ParseDigits | crates/waitprims-core/src/rfc3339.rs:283-292 | reads exactly n digits as their value |
| Rfc3339.FractionValue | crates/waitprims-core/src/rfc3339.rs:212-236 | a fraction of up to six digits counts with its value, and further digits are dropped |
| Rfc3339.OffsetIff | crates/waitprims-core/src/rfc3339.rs:242-264 | exactly which offsets are read, and their signed minutes |
| Rfc3339.FormattedReadsBack | crates/waitprims-core/src/rfc3339.rs:88-115 | a printed instant reads back with the digits below a microsecond dropped |
| Rfc3339.RoundTripIff | crates/waitprims-core/src/rfc3339.rs:88-115 | the round trip is exact if and only if the instant is a whole number of microseconds |
| Rfc3339.NanosecondIsLost | crates/waitprims-core/src/rfc3339.rs:88-115 | one nanosecond past a second reads back as the second |
| Rfc3339.ReadInstant | crates/waitprims-core/src/rfc3339.rs:176-273 | the scanning reader computes the strict grammar, calendar included |

## Left out

- JcsParser.Parser.ReadNumber: weaker than the source for fractions, exponents and integers beyond 2^53, whose text is read but whose value is the error `NumberOutsideModel`, because `ryu_js` shortest digits are foreign code.
- JcsGrammar.StrictIff: texts with fractions, exponents or integers beyond 2^53 spell no value here, because their values are outside this model, and `JcsCanonical.CanonicalIsShortest` says nothing of them.
- Rfc3339.ReadInstant: does not shift the instant to UTC by its offset, because the `time` crate does that; the reader's fields keep the offset.
- The order in which a poll cycle gives back the values of a failed race, which is the fairness order in the source and registration order here: the two differ only in what stays out when an observer refuses one of them.
- UTF-8 bytes: a text is a sequence of Unicode scalar values.
- `serde`, `jsonschema`, SHA-256: the digest of a payload is a length, a schema check is not part of this model.
- Real tokio scheduling, wakers and the cancel channel: moves of a state machine and a flag.
- Duplicate registration ids: start cursors are kept per position, where the source looks them up by id.
- Sums of per-registration byte counters beyond 2^64: they are unbounded here; the aggregate counters saturate as in the source.
- Durations of 2^63 seconds and more, which `saturating_add` wraps to negative ones.
- `resolve`, the reference checks before each run, and the fields copied verbatim into outcomes (capabilities, correlation, grants, actors, `proposed_next_anchors`, which repeats each arm's own proposed anchor).
- The two clock readings around `decide_at_deadline` are one: with a clock that does not go back, the deadline reached at the first is reached at the second.
- How late a timer of the held sessions fires: the runners compute its target, and wake then or at any later time.
- `silent_cursor_advance`: rotating the fairness cursor under tight bounds can change which events a cycle reports, so no such theorem holds over unacknowledged cycles.
- Filesystem I/O in `waitprims-fs`: path safety, normalization, descriptor size and the sink's answer are inputs. The 64-bit sequence counter is unbounded; ownership is stated for numbers that fit.
- The CLI, diagnostics, release scripts and `receipts.rs`: plumbing, easy members.
