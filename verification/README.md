# Verified model of the supervisor's durable host contract

This project models, in Dafny, the part of the supervisor that decides what an execution host has
emitted, what was acknowledged, what may run, and what evidence survives a restart. It proves
properties of that model over all inputs, all runs and all interleavings.

Check everything with `dafny verify dfyconfig.toml`.

## How it is organised

The durable event outbox.

- `Decimal.dfy`, `SortKeys.dfy`: canonical decimal sequences and the fixed-width text keys.
- `EventStream.dfy`: what the stream *means*, without tables: a log, the time at which each event was
  acknowledged, a watermark and a floor. This is the naive model that stamps every event.
- `Replay.dfy`: replay pages over that meaning and a reader that follows `nextAfter`.
- `Outbox.dfy`: the class `EventOutbox` with the real tables (retained rows, compact ranges, per-partition
  counters kept by triggers). Every method is proved to do to the meaning what `EventStream` says, and
  its invariant is proved to imply the startup audit.
- `AckKeys.dfy`: the text comparisons in the queries agree with integer comparisons.
- `Pruner.dfy`: the background pruner on top of the outbox, and any run of its pages, kicks and capacity
  reports interleaved with appends, acknowledgements and prunes from outside.

The command protocol.

- `Receipts.dfy`: receipt rows, the upsert, the request digest, the retirement decision.
- `CommandEvidence.dfy`: the response built from a version 2 row, the event payload, the output manifest, and
  the checks on them.
- `ReceiptProtocol.dfy`: the protocol as a step relation over any interleaving of submits, completions,
  failed writes, restarts, recoveries, confirmations and retirements.
- `ReceiptEffects.dfy`: what each step leaves behind, said of receipts, promises and events alone: how every ending is
  stored, what every submit is answered.
- `ReceiptRuns.dfy`: what holds over every run, recoveries of running commands and late confirmations included.
- `PromptEvidence.dfy`: over every run, exactly when the evidence that version 2 prompts store passes its checks.
- `EvidenceJournal.dfy`: receipts over the real event stream, and the tables of both after the same run.
- `CommandReceipts.dfy`: the class with the tables and the in-flight map, one protocol step a method, and every
  run of the protocol as a run of these methods.
- `Fence.dfy`: the epoch high-water of a run and the process obligations registered under it.

Output framing.

- `Framing.dfy`: the capture loops with spool, log and offsets, against a reference that never sees chunks, and what
  the first drain request or failure leads to, whatever is answered.
- `JsonScan.dfy`: the lexical complexity scanner, and what it decides about JSON text.
- `Buffers.dfy`: producer slots, retained bytes and the decoder permit.

The other state machines and the encoders.

- `Progress.dfy`, `ProgressCredit.dfy`: the no-progress guardrail, against an account of the session read off its
  history, and what counts as progress.
- `CanonicalJson.dfy`, `CanonicalSpelling.dfy`, `JsonReader.dfy`: canonical command JSON, its text unit by unit, and a
  reader that inverts it.
- `ObjectIntegrity.dfy`: digest, entity tag and content range headers.
- `Permissions.dfy`: the registry of pending permissions.
- `ImportLedger.dfy`: the import progress ledger.

## Where the code does less than it says

Each of these is proved, with the exact condition where there is one.

- The stream row after event number 2^63 − 1 holds a `next` that the program's own parser refuses; it is the
  only reachable state that fails the audit (`EventStream.ReadableUnlessExhausted`,
  `EventStream.ExhaustionIsReached`, `Outbox.EventOutbox.ValidPassesAudit`).
- The startup audit does not look at the acknowledgement ranges, so passing it does not by itself survive the next
  append: it does exactly when no range covers the sequence that the append is given and the next one can still be
  read (`Outbox.AuditSurvivesAppendIff`, `Outbox.AuditAloneIsNotKept`). The invariant that is kept also says that
  the ranges end at or below the watermark.
- The "no retained rows" corruption report is raised on a healthy stream exactly when the requested span is
  empty or reversed (`Replay.CorruptExactlyWhenSpanIsEmpty`).
- When the log write of a part that ends a line fails, the part is already in the spool but not yet counted:
  the published segment then reports one complete frame too few (`Framing.SegmentIsExactIff`).
- A replay of a version 1 command has the body that the first caller got if and only if that body was present;
  an absent one is replayed as an empty object (`ReceiptRuns.ReplayRepeatsTheOutcome`).
- Every command that may execute, and some queries, first reconcile the session processes of the run
  (supervisor/src/http-api.ts:804-820, supervisor/src/session-process-ownership.ts:240-282), and for a released
  process that settles accepted creates and prompts as lost without asking whether one is in flight
  (supervisor/src/host-state.ts:1953-1995). A run recovered under itself rewrites the settled receipt when it ends,
  even a retired one (`ReceiptRuns.RetiredReceiptIsRewritten`).
- A confirmation that the process of a failed create has exited reads the receipt, waits, and writes what it read
  (supervisor/src/session-create-outcome.ts:101-136) over whatever is stored by then. A create that recovery settles
  in between, or that is retired in between, is rewritten although its command is neither running nor in flight
  (`ReceiptRuns.LateConfirmationRewrites`, `ReceiptRuns.LateConfirmationRewritesTombstone`).
- These two are all: a settled receipt, in whatever settled form it takes later, is never rewritten if and only if its
  command is not running and no confirmation is outstanding whose row would still change it
  (`ReceiptRuns.SettledIsFrozenIffQuiescent`, `ReceiptRuns.RecoveryIsSafeIffUnattended`,
  `ReceiptRuns.RetiredIsFrozenIffQuiescent`).
- A version 2 row answers with evidence that passes its checks if and only if it is no tombstone and, if it reports
  success, its last event is the one at its terminal position, whatever was recovered when
  (`PromptEvidence.StoredEvidencePassesIff`). For a prompt that is not recovered while it runs that means: exactly
  until it is retired (`PromptEvidence.AnswersUntilRetired`, `CommandEvidence.TombstoneIsRefused`). For one that is,
  the row of a late success does not pass (`PromptEvidence.LateSuccessSpoilsEvidence`), and the row of any other late
  end does, even a retired one (`PromptEvidence.LateEndPassesIffNotCompleted`, `PromptEvidence.RetiredRowAnswersAgain`).
- The position that a version 2 prompt's output names is read before the output is captured. The payload is accepted
  if and only if the capture has appended no event itself and the position is within the counter limit; otherwise
  nothing is stored and the receipt stays as it was (`PromptEvidence.PredictionHoldsIffCaptureIsSilent`).
- The canonical encoder compares the number of an array's keys with its length. An array with a hole and as many
  other keys passes, and its holes have the empty text (`CanonicalJson.HoleIsEncodedAsEmpty`). What is encoded
  is JSON data if and only if no array carries other keys, as nothing that a JSON parser returns does
  (`CanonicalJson.EncodesJsonExactly`).
- A create whose receipt is given a session by recovery no longer answers to its own request
  (`ReceiptProtocol.RecoveredCreateRefusesItsOwnRequest`).

## Assumptions

- Every SQLite transaction is one atomic step: it applies fully or not at all.
- SHA-256 is collision-free. In the receipt model a digest is a constructor of what it was taken of; that the
  text it is taken of determines the request is proved in `JsonReader.dfy`.
- Whether an append is admitted, and which partition it is charged to, is a parameter (`Draft.spend`).
- Code between two waits runs without interruption, so it is one step; where a wait stands between the reading and
  the writing of a receipt, as in the confirmation of a process exit, these are two steps. The
  capture of a version 2 prompt's output and the write that follows it are one step too.
- How many events a capture appends itself, and whether there is a response to capture, are parameters.
- `ReceiptRuns.EvidenceIsOrdered` speaks of runs in which acceptances are written as their routes write them:
  with an event for commands of a session, without one for all others.

## Model

| member | source | states |
|---|---|---|
| Decimal.PrintIsCanonical | supervisor/src/host-state.ts:3373-3389 | a printed number is canonical decimal text worth that number |
| Decimal.ValuePrints | supervisor/src/host-state.ts:3373-3389 | every canonical text is the one spelling of its value |
| Decimal.PrintIsSpelled | supervisor/src/host-state.ts:3373-3389 | a number is written digit by digit, the last one being its remainder by ten |
| SortKeys.ParseInvertsPrint | supervisor/src/host-state.ts:3373-3389 | a sequence is read back exactly up to the counter limit and refused above it |
| SortKeys.PrintInvertsParse | supervisor/src/host-state.ts:3373-3389 | each accepted sequence has one accepted spelling |
| SortKeys.KeyIsSpelled | supervisor/src/host-state.ts:3391-3402 | a key is the number with zeros in front to twenty characters, and −1 a minus and nineteen zeros |
| SortKeys.KeyOrder | supervisor/src/host-state.ts:3391-3402 | text order of sort keys is integer order, the −1 sentinel included |
| SortKeys.OpenBounds | supervisor/src/host-state.ts:2504-2533 | the open bounds used in queries lie below and above every key |
| AckKeys.KeyedLookupAgrees | supervisor/src/outbox-ack.ts:29-35 | the timestamp lookup over text keys finds what the lookup over integers finds |
| AckKeys.PendingTestAgrees | supervisor/src/outbox-ack.ts:17-26 | the trigger's "still unacknowledged" test means: after the watermark, a missing watermark included |
| AckKeys.ScanBoundsAgree | supervisor/src/host-state.ts:2596-2679 | the contiguity scan visits exactly the rows after the watermark and up to the request |
| EventStream.AppendEffect | supervisor/src/host-state.ts:3057-3139 | a batch is appended whole, in order and unacknowledged, or not at all, and exactly when |
| EventStream.AckEffect | supervisor/src/host-state.ts:2596-2679 | which requests are accepted, that each stamps exactly what it newly acknowledges, and that a repeat changes nothing |
| EventStream.FitIsLongest | supervisor/src/host-state.ts:3414-3461 | a page is the longest run within its row and byte bounds, and is never empty for want of space |
| EventStream.PruneStops | supervisor/src/host-state.ts:2710-2796 | a prune page takes the longest run of events acknowledged, and before the cutoff if there is one, within 100 rows and 1 MiB, and moves the floor over it |
| EventStream.RunExtends | supervisor/src/host-state.ts:2596-2796 | no run rewrites an event, moves a mark back or changes an acknowledgement time |
| EventStream.ReadableUnlessExhausted | supervisor/src/host-state.ts:3373-3389 | the stored next sequence can be read back in every reachable state but the one after 2^63 events |
| EventStream.ExhaustionIsReached | supervisor/src/host-state.ts:3057-3139 | 2^63 appends reach that state, and from it nothing can be appended or acknowledged |
| Replay.PageIsSpan | supervisor/src/host-state.ts:3414-3461 | a page holds exactly the events just after its start with their acknowledgement times, is the longest within the limit, 500 rows and 1 MiB, and is empty only if nothing is left |
| Replay.ReplayRefusals | supervisor/src/host-state.ts:2504-2571 | which replays are refused, for what, and exactly when |
| Replay.EventsAfterIsGapless | supervisor/src/host-state.ts:2504-2533 | open-ended replay refuses a cursor below the floor and otherwise has no gap |
| Replay.CorruptExactlyWhenSpanIsEmpty | supervisor/src/host-state.ts:2534-2571 | the corruption report is raised exactly for an empty or reversed span |
| Replay.SpanIsGapless | supervisor/src/host-state.ts:2534-2571 | one span page: complete, a gapless prefix, or a stated loss, and exactly when each |
| Replay.FollowIsGapless | supervisor/src/host-state.ts:2534-2571 | following nextAfter under any interleaved appends, acknowledgements and prunes ends, and yields the span or a gapless prefix and a stated loss |
| Outbox.AddedRange | supervisor/src/outbox-ack.ts:38-75 | a new range stamps exactly the rows it names |
| Outbox.DroppedRangesDoNotMatter | supervisor/src/host-state.ts:2727-2786 | deleting the ranges a prune has passed changes no surviving row's time |
| Outbox.RecountAfterAck | supervisor/src/outbox-ack.ts:47-65 | raising the watermark takes exactly the range totals out of the unacknowledged counters |
| Outbox.PrunedTables | supervisor/src/host-state.ts:2764-2795 | tables without a prunable prefix and its ranges mean the pruned stream |
| Outbox.AuditAloneIsNotKept | supervisor/src/host-state.ts:3237-3360 | tables that pass the audit may fail it after one append |
| Outbox.AuditSurvivesAppendIff | supervisor/src/host-state.ts:3057-3139 | audited tables pass again after an accepted append exactly when no range covers its sequence and the next sequence can be read |
| Outbox.Seek | supervisor/src/host-state.ts:3414-3461 | finds the first retained row after a cursor |
| Outbox.TakePage | supervisor/src/host-state.ts:3414-3461 | the page loop over rows takes the longest run within the bounds |
| Outbox.ReadPage | supervisor/src/host-state.ts:3414-3461 | the page read from rows and ranges is the page of the stream, acknowledgement times included |
| Outbox.WalkPrunable | supervisor/src/host-state.ts:2727-2763 | the prune scan over rows and ranges counts what the stream allows |
| Outbox.EventOutbox.ValidPassesAudit | supervisor/src/host-state.ts:3237-3360 | the kept invariant implies everything the audit checks, unless the sequences are used up |
| Outbox.EventOutbox.Load | supervisor/src/host-state.ts:3237-3360 | any audited tables with orderly ranges are those of some stream |
| Outbox.EventOutbox.Audit | supervisor/src/host-state.ts:3237-3360 | the audit loops accept exactly the audited tables |
| Outbox.EventOutbox.CountPartition | supervisor/src/host-state.ts:3237-3280 | the audit's grouped totals are the recount of a partition |
| Outbox.EventOutbox.AppendRuntimeEvents | supervisor/src/host-state.ts:1288-1325 | one event or a frame pair becomes rows, counters and next as in the stream; a refusal changes nothing |
| Outbox.EventOutbox.AppendPair | supervisor/src/host-state.ts:1304-1325 | if the second of a pair is refused the first is rolled back |
| Outbox.EventOutbox.AppendOneRow | supervisor/src/host-state.ts:3057-3139 | one append, with its refusals in order |
| Outbox.EventOutbox.InsertTrigger | supervisor/src/outbox-budget.ts:118-125 | a new row enters all four counters of its partition |
| Outbox.EventOutbox.DeleteTrigger | supervisor/src/outbox-ack.ts:17-26 | a deleted row leaves the retained counters, and the unacknowledged ones only past the watermark |
| Outbox.EventOutbox.AckRuntimeEvents | supervisor/src/host-state.ts:2596-2679 | an acknowledgement does to the tables what it does to the stream; a refusal changes nothing |
| Outbox.EventOutbox.RecordAck | supervisor/src/outbox-ack.ts:38-75 | the counters equal a recount again and one range is added |
| Outbox.EventOutbox.SubtractRange | supervisor/src/outbox-ack.ts:47-65 | one partition's counters are moved to the new watermark, the others untouched |
| Outbox.EventOutbox.PruneAcknowledgedRuntimeEvents | supervisor/src/host-state.ts:2710-2796 | a prune page deletes from the front exactly what the stream allows, and keeps exactly the ranges that end after the floor |
| Outbox.EventOutbox.CommitPrune | supervisor/src/host-state.ts:2764-2795 | floor, rows, ranges and counters move together, and exactly the ranges that end after the floor stay |
| Outbox.EventOutbox.DeleteThrough | supervisor/src/host-state.ts:2764-2786 | deleting row by row keeps the counters equal to a recount |
| Outbox.EventOutbox.RuntimeEventsAfter | supervisor/src/host-state.ts:2504-2533 | open-ended replay from the tables is that of the stream |
| Outbox.EventOutbox.RuntimeEventsInRange | supervisor/src/host-state.ts:2534-2571 | span replay from the tables is that of the stream |
| Outbox.Simulate | supervisor/src/host-state.ts:3237-3360 | every run of the tables means the same run of the stream, and its end passes the audit unless the sequences are used up |
| Pruner.PagesAreBounded | supervisor/src/host-state.ts:3586-3633 | over any operations on the stream productive pages are at most as many as events pruned, and without an acknowledgement as many as there were to prune |
| Pruner.StallLastsUntilAck | supervisor/src/host-state.ts:3682-3693 | once all acknowledged events are pruned, only a newer acknowledgement makes more prunable |
| Pruner.Drive | supervisor/src/host-state.ts:3554-3787 | over any run of pages, kicks, capacity reports, appends, acknowledgements, prunes and a stop: one page at most is scheduled, stalls stay sound, and without a new acknowledgement at most acked − floor pages continue a pass |
| Pruner.Happen | supervisor/src/host-state.ts:3554-3787 | each of these, at any moment, keeps the invariant; a page that continues its pass has deleted something |
| Pruner.RuntimeEventPruner.PassEndsUnlessAcknowledged | supervisor/src/host-state.ts:3586-3633 | the active pass has had at most as many productive pages as events were prunable when it began, or came to be by acknowledgements since |
| Pruner.RuntimeEventPruner.constructor | supervisor/src/host-state.ts:3649-3651 | boot prunes one grace page at once, or nothing if storage is unavailable or faults, and opens no episode |
| Pruner.RuntimeEventPruner.Kick | supervisor/src/host-state.ts:3638-3647 | a kick starts a pass only if none is active, and is remembered otherwise |
| Pruner.RuntimeEventPruner.EndPass | supervisor/src/host-state.ts:3574-3585 | all kicks remembered during a pass become exactly one further pass, retained pressure winning |
| Pruner.RuntimeEventPruner.PassEnded | supervisor/src/host-state.ts:3701-3745 | an episode closes exactly when both the retained regular rows and their bytes, recounted, are below the low marks, and otherwise takes in what the pass did and stalls at the present watermark, where nothing is left to prune |
| Pruner.RuntimeEventPruner.RunPage | supervisor/src/host-state.ts:3586-3633 | a retained-pressure pass ends only below both low marks or at an unacknowledged head, and deletes while a mark is reached and the head is acknowledged; a grace pass deletes only what is past the grace period and ends only at what is not |
| Pruner.RuntimeEventPruner.PrunePage | supervisor/src/host-state.ts:3694-3700 | a page prunes what its mode allows, and its own commit starts nothing |
| Pruner.RuntimeEventPruner.Delete | supervisor/src/host-state.ts:3586-3633 | what one page deletes, and exactly when it deletes nothing |
| Pruner.RuntimeEventPruner.NoteRetained | supervisor/src/host-state.ts:3752-3787 | a kick is due exactly if rows or bytes, recounted, reach a soft mark and the episode is not stalled at this watermark |
| Pruner.RuntimeEventPruner.OnCapacity | supervisor/src/host-state.ts:3752-3787 | a due kick starts a pass or is remembered, and at the soft marks either a pass is active or nothing can be pruned |
| Pruner.RuntimeEventPruner.Stop | supervisor/src/host-state.ts:3656-3665 | nothing stays scheduled |
| Receipts.IdentityIsFirstWriteWins | supervisor/src/host-state.ts:3190-3235 | over any puts the identity columns keep their first value, the outcome takes the last |
| Receipts.MintedReceiptAcceptsExactly | supervisor/src/command-receipts.ts:667-698 | a receipt minted for one request accepts exactly that request |
| Receipts.RetirementIsExact | supervisor/src/host-state.ts:2099-2193 | each answer of the retirement handshake, and exactly when it is given |
| ReceiptEffects.SuccessIsStored | supervisor/src/command-receipts.ts:390-453 | a success is stored as completed, and handed out |
| ReceiptEffects.TypedFailureIsStored | supervisor/src/command-receipts.ts:390-453 | a typed failure is stored as rejected, and handed out |
| ReceiptEffects.UntypedFailureIsNotStored | supervisor/src/command-receipts.ts:436-446 | any other failure of an awaited command leaves the receipt as it was and fails the waiters |
| ReceiptEffects.BackgroundFailureIsStored | supervisor/src/command-receipts.ts:351-388 | in the background every failure is stored as rejected |
| ReceiptEffects.UnconfirmedExitIsStored | supervisor/src/command-receipts.ts:421-441 | an unconfirmed exit leaves the receipt accepted and unresolved, and fails the waiters |
| ReceiptEffects.BrokenWriteFails | supervisor/src/command-receipts.ts:455-537 | a lost write stores nothing, one after which a hook threw stores the same, and both fail the waiters |
| ReceiptEffects.RetryAfterUntypedFailure | supervisor/src/command-receipts.ts:130-219 | after an untyped failure the same request starts a reservation or deletion again, and any other command has lost its turn |
| ReceiptEffects.SubmitIsAnswered | supervisor/src/command-receipts.ts:130-349 | what every submit is answered and leaves behind, by the receipt and the promise it finds |
| ReceiptEffects.RecoveryIs | supervisor/src/host-state.ts:1443-1536 | recovery makes an accepted receipt a 409 with an event at the next position, and changes nothing else |
| ReceiptEffects.BootRepairsAre | supervisor/src/host-state.ts:1996-2040 | boot marks an accepted create 503 and completes an accepted upload or deletion, and touches nothing else |
| ReceiptEffects.ConfirmationIs | supervisor/src/session-create-outcome.ts:101-158 | which receipt a confirmation remembers, and what it writes when it ends |
| ReceiptEffects.RetirementIs | supervisor/src/host-state.ts:2099-2193 | retirement replaces the body and notes the time, of exactly the receipts that may be retired |
| ReceiptRuns.SubmitContinues | supervisor/src/command-receipts.ts:130-349 | a submit, whatever the state of its command, keeps one run at most, and leaves a settled receipt as it is |
| ReceiptRuns.FinishContinues | supervisor/src/command-receipts.ts:351-453 | whoever waits for a finished run is handed the outcome that its settled receipt holds, or a failure, and nothing runs any more |
| ReceiptProtocol.ConfirmationOverwrites | supervisor/src/session-create-outcome.ts:101-158 | the row that a confirmation read before its wait replaces phase, status, body and event id, and nothing that identifies the command or locates its evidence |
| ReceiptRuns.CompleteContinues | supervisor/src/runtime-object-recovery.ts:40-98 | completing an upload or deletion at boot settles an accepted receipt and leaves a settled one as it is |
| ReceiptProtocol.RecoveredCreateRefusesItsOwnRequest | supervisor/src/host-state.ts:1498-1515 | a session filled in by recovery makes a create refuse its own request |
| ReceiptRuns.AtMostOnce | supervisor/src/command-receipts.ts:130-453 | over every run an effect starts at most once a command id, restartable kinds apart, and never twice at a time |
| ReceiptRuns.ReplayRepeatsTheOutcome | supervisor/src/command-receipts.ts:130-219 | callers, joiners and later replays get one outcome, until retirement |
| ReceiptRuns.FirstRequestOwnsTheId | supervisor/src/command-receipts.ts:667-698 | an id first stored for one request accepts exactly that request ever after |
| ReceiptRuns.SettledIsFrozenIffQuiescent | supervisor/src/command-receipts.ts:390-453 | no settled form of a receipt is rewritten by any continuation exactly when its command is not running and no outstanding confirmation would change it |
| ReceiptRuns.RecoveryIsSafeIffUnattended | supervisor/src/host-state.ts:1953-1995 | what recovery settles stays as it is exactly when the command was not running and no confirmation of its exit was outstanding |
| ReceiptRuns.RetiredReceiptIsRewritten | supervisor/src/http-api.ts:804-820 | from an empty host, a retired receipt is rewritten by the run that was recovered under it |
| ReceiptRuns.RetiredIsFrozenIffQuiescent | supervisor/src/host-state.ts:2099-2193 | a retired receipt never changes exactly under that condition, and a repeated retirement names the same time |
| ReceiptRuns.LateConfirmationRewrites | supervisor/src/session-create-outcome.ts:101-136 | from an empty host, a confirmation turns the 409 that recovery stored during its wait into a 503 |
| ReceiptRuns.LateConfirmationRewritesTombstone | supervisor/src/session-create-outcome.ts:101-136 | and overwrites the tombstone if the create has been retired as well |
| ReceiptRuns.RetiredStaysAcked | supervisor/src/host-state.ts:2099-2193 | over every run the terminal event of a retired version 2 command is acknowledged |
| ReceiptRuns.EvidenceIsOrdered | supervisor/src/host-state.ts:2447-2495 | acceptance precedes the terminal event, both at emitted positions, whatever is recovered when |
| CommandEvidence.StoredRowAnswersAsPublished | supervisor/src/command-receipts.ts:556-602 | a row answers with the evidence its payload carried exactly when it holds that event's position, as far as it refers to output |
| CommandEvidence.RowPassesExactly | runtime/command-evidence.ts:342-441 | which rows pass the checks on responses, field by field for each phase |
| CommandEvidence.TombstoneIsRefused | supervisor/src/command-receipts.ts:556-602 | a retired version 2 row does not pass the checks on responses |
| PromptEvidence.StoredEvidencePassesIff | runtime/command-evidence.ts:384-470 | over every run, a version 2 row answers with evidence that passes exactly if it is no tombstone and a reported success's last event is at its terminal position; positions are in order |
| PromptEvidence.AnswersUntilRetired | supervisor/src/command-receipts.ts:556-602 | a prompt that is not recovered while it runs answers exactly until it is retired, whatever happens to others |
| PromptEvidence.PredictionHoldsIffCaptureIsSilent | supervisor/src/http-api.ts:1098-1180 | over every run, manifest and output reference are valid within the counter limit, and the payload is accepted exactly when moreover the capture appended nothing; then the event stands where it was predicted |
| PromptEvidence.FailureIsAlwaysPublished | supervisor/src/command-event.ts:13-57 | over every run, a failed prompt's payload is accepted exactly within the counter limit, whatever was appended before |
| PromptEvidence.SuccessIsStoredExactly | supervisor/src/http-api.ts:1098-1180 | what the success of a version 2 prompt stores, and exactly when |
| PromptEvidence.FailureIsStoredExactly | supervisor/src/http-api.ts:1098-1180 | what its failure stores, and exactly when |
| PromptEvidence.PromptIsAccepted | supervisor/src/http-api.ts:1098-1180 | a new prompt is accepted with an event at the next position |
| PromptEvidence.LateEndPassesIffNotCompleted | runtime/command-evidence.ts:425-446 | over every run, the stored end of a prompt that was settled under its run answers with evidence that passes, retired or not, exactly when it is no success |
| PromptEvidence.LateSuccessSpoilsEvidence | supervisor/src/session-process-ownership.ts:240-282 | a success after a recovery of the running prompt is stored, and its row no longer passes |
| PromptEvidence.RetiredRowAnswersAgain | supervisor/src/command-receipts.ts:351-453 | from an empty host, a retired version 2 row answers again once the run recovered under it fails |
| EvidenceJournal.PositionsNameOwnEvents | supervisor/src/host-state.ts:2447-2495 | over every run the positions a receipt names are those of its own command's events in the one stream, and a retired version 2 command's is stamped as acknowledged |
| EvidenceJournal.InTables | supervisor/src/host-state.ts:2447-2495 | receipt tables and outbox tables after the same run: they agree on next and watermark, every stored position above the floor is a retained row with the command's event, and that of a retired version 2 row is acknowledged |
| CommandReceipts.ReceiptBook.Store | supervisor/src/host-state.ts:2447-2495 | a receipt and its event commit together at the same position |
| CommandReceipts.ReceiptBook.PrepareWrite | supervisor/src/http-api.ts:1098-1180 | what a write will store: output captured first, evidence that fails its checks refused |
| CommandReceipts.ReceiptBook.Record | supervisor/src/command-receipts.ts:455-537 | one receipt write, refused, stored, or stored before a later hook threw |
| CommandReceipts.ReceiptBook.RunFresh | supervisor/src/command-receipts.ts:390-405 | acceptance is durable before the effect starts |
| CommandReceipts.ReceiptBook.ExecuteCommand | supervisor/src/command-receipts.ts:130-219 | is the protocol's submit, other ids untouched |
| CommandReceipts.ReceiptBook.ExecuteRestartableUpload | supervisor/src/command-receipts.ts:221-265 | is the protocol's submit for uploads |
| CommandReceipts.ReceiptBook.ExecuteAsync | supervisor/src/command-receipts.ts:271-349 | is the protocol's submit for prompts |
| CommandReceipts.ReceiptBook.Conclude | supervisor/src/command-receipts.ts:351-453 | what a finished effect writes, and what its waiters are handed |
| CommandReceipts.ReceiptBook.Complete | supervisor/src/command-receipts.ts:351-453 | is the protocol's finish |
| CommandReceipts.ReceiptBook.Forget | supervisor/src/command-receipts.ts:214-218 | a settled promise leaves the table |
| CommandReceipts.ReceiptBook.Reopen | supervisor/src/command-receipts.ts:79-112 | a restart keeps receipts and forgets what was in flight |
| CommandReceipts.ReceiptBook.RetireReceipt | supervisor/src/host-state.ts:2099-2193 | the retirement handshake, checks in order |
| CommandReceipts.ReceiptBook.SettleLost | supervisor/src/host-state.ts:1443-1536 | is the protocol's recovery |
| CommandReceipts.ReceiptBook.MarkExitUnconfirmed | supervisor/src/host-state.ts:1996-2040 | is the protocol's marking at boot |
| CommandReceipts.ReceiptBook.ReadForConfirmation | supervisor/src/session-create-outcome.ts:101-125 | the unresolved row is held while the exit is waited for |
| CommandReceipts.ReceiptBook.WriteConfirmation | supervisor/src/session-create-outcome.ts:125-158 | what was held is written, whatever is stored by then |
| CommandReceipts.ReceiptBook.SettleObject | supervisor/src/runtime-object-recovery.ts:40-98 | is the protocol's completion of an upload or deletion |
| CommandReceipts.Perform | supervisor/src/command-receipts.ts:130-453 | every act of the protocol is what the responsible method does to the tables |
| CommandReceipts.Simulate | supervisor/src/command-receipts.ts:130-453 | over every run the tables hold what the protocol's host holds, so what is proved of its runs holds of them; at most one start a command id, restartable kinds apart |
| Fence.RunKeepsInv | supervisor/src/execution-fence.ts:26-103 | over every run the high-water covers all accepted fences and obligations were registered under one |
| Fence.RunEvolves | supervisor/src/host-state.ts:1766-1816 | epochs never fall, identities are never replaced, released is absorbing |
| Fence.EpochBindsOneAssignment | supervisor/src/host-state.ts:1667-1749 | obligations of the same run and epoch share the assignment |
| Fence.FencedForever | supervisor/src/execution-fence.ts:59-73 | a command below the high-water stays refused |
| Fence.FenceIsAnswered | supervisor/src/execution-fence.ts:26-103 | which rule refuses a fence, and what an accepted one is told, exactly |
| Fence.ExecutionHost.Apply | supervisor/src/execution-fence.ts:26-103 | the rules in order: host, run, epoch, assignment |
| Fence.ExecutionHost.RegisterSessionProcess | supervisor/src/host-state.ts:1667-1749 | registration needs the current accepted create and open wallet, and repeats only itself |
| Fence.ExecutionHost.ReleaseSessionProcess | supervisor/src/host-state.ts:1766-1798 | release is idempotent and bound to its boot and namespace |
| Fence.ExecutionHost.ReleaseSessionProcessesFromPriorBoot | supervisor/src/host-state.ts:1799-1816 | releases exactly the registered processes of another boot, with the present boot, and counts them |
| Framing.UndisturbedIsExact | supervisor/src/bounded-acp-stream.ts:282-404 | the chunk-free reference cuts the input into frames and loses nothing |
| Framing.SegmentIsExactIff | supervisor/src/bounded-acp-stream.ts:341-349 | the published counts are exact unless the failure was in logging a part that ends a line |
| Framing.FrameCapture.AdmitPart | supervisor/src/bounded-acp-stream.ts:318-338 | when a drain begins and what fails, before any write |
| Framing.FrameCapture.AppendPart | supervisor/src/bounded-acp-stream.ts:341-349 | spool, log and counters move in this order, also when the log fails |
| Framing.FrameCapture.HandOn | supervisor/src/bounded-acp-stream.ts:350-396 | a complete frame is handed on whole and leaves the spool, or stays in it and output storage is reported incomplete |
| Framing.FrameCapture.TakePart | supervisor/src/bounded-acp-stream.ts:313-379 | what one part does to frames, spool, log, drain and failure, whatever is answered |
| Framing.FrameCapture.TakeChunk | supervisor/src/bounded-acp-stream.ts:308-380 | the inner loop cuts a chunk at its newlines and stops at a failure; the first part that does not go smoothly decides the course |
| Framing.FrameCapture.TakeAll | supervisor/src/bounded-acp-stream.ts:307-380 | the same over all chunks |
| Framing.FrameCapture.PublishSegment | supervisor/src/bounded-acp-stream.ts:293-304 | a drained spool is described once |
| Framing.FrameCapture.Conclude | supervisor/src/bounded-acp-stream.ts:381-404 | success only with an empty spool and no drain; which failure is reported; a segment exactly when a failure leaves bytes and somebody receives them |
| Framing.FrameCapture.Capture | supervisor/src/bounded-acp-stream.ts:282-404 | yielded frames and spool are the log; undisturbed, the frames are those of the reference; otherwise they are the lines before the first part that was drained or failed, the failure says which it was, and a drain keeps all later bytes |
| JsonScan.ParseFrameBounds | supervisor/src/bounded-acp-stream.ts:442-464 | the loop refuses exactly what the fold over bytes refuses |
| JsonScan.WalkValue | supervisor/src/bounded-acp-stream.ts:450-464 | wherever a value stands the scanner returns to its depth and stops inside exactly when a bound is passed |
| JsonScan.ScannerAcceptsExactly | supervisor/src/bounded-acp-stream.ts:442-464 | any spelling of a JSON value is accepted exactly within 32 levels and 8192 structural characters, ending at depth zero with the exact count |
| Buffers.RunFits | supervisor/src/bounded-acp-stream.ts:34-118 | over any run of reservations and releases the recounted total stays in bounds |
| Buffers.ReleaseRestores | supervisor/src/bounded-acp-stream.ts:46-70 | a released slot is given back whole |
| Buffers.OutputBuffers.ReserveOutputProducer | supervisor/src/bounded-acp-stream.ts:46-70 | a slot is granted exactly when it fits; the counter equals the recount |
| Buffers.OutputBuffers.ReleaseOutputProducer | supervisor/src/bounded-acp-stream.ts:65-69 | the slot of that lease is freed once |
| Buffers.OutputBuffers.RetainedOutputBudget | supervisor/src/bounded-acp-stream.ts:88-93 | a new budget owns nothing |
| Buffers.OutputBuffers.Reserve | supervisor/src/bounded-acp-stream.ts:94-110 | bytes are granted exactly when both limits allow |
| Buffers.OutputBuffers.Release | supervisor/src/bounded-acp-stream.ts:111-115 | all bytes of that budget are returned |
| Buffers.OutputBuffers.OutputBufferStats | supervisor/src/bounded-acp-stream.ts:72-86 | what is reported never exceeds 10 MiB |
| Buffers.OutputBuffers.AcquireDecoder | supervisor/src/bounded-acp-stream.ts:131-134 | at most one holder; later callers join the end of the queue |
| Buffers.OutputBuffers.ReleaseDecoder | supervisor/src/bounded-acp-stream.ts:136-141 | the permit passes to whoever asked next, or becomes free |
| Progress.StateIsExact | supervisor/src/guardrail-progress.ts:94-206 | the bounded state equals what the whole history says |
| Progress.NoIdIsCountedTwice | supervisor/src/guardrail-progress.ts:107-128 | no tool id is counted twice |
| ProgressCredit.ProgressExactly | supervisor/src/guardrail-progress.ts:130-156 | exactly when a counted operation makes progress, by its status, kind, request and result and those credited before |
| ProgressCredit.CountedExactly | supervisor/src/guardrail-progress.ts:107-128 | an operation is counted exactly at the first report of an outcome for a tool with an id |
| ProgressCredit.LatestIsLastSent | supervisor/src/guardrail-progress.ts:67-82 | what is known of a tool is what was sent last, raw input before locations and raw output before content |
| ProgressCredit.DiagnosticsAreExact | supervisor/src/guardrail-progress.ts:171-196 | the diagnostics are the last ten operations, each with its reason |
| Progress.CreditsAreBounded | supervisor/src/guardrail-progress.ts:130-156 | at most 4096 credits |
| Progress.CreditIsGivenOnce | supervisor/src/guardrail-progress.ts:130-156 | nothing is credited for the same fingerprint twice |
| Progress.TripsExactly | supervisor/src/guardrail-progress.ts:157-196 | exactly when the guardrail trips |
| Progress.TripMeansNoProgress | supervisor/src/guardrail-hooks.ts:293-303 | a trip means that the last maxTurns counted operations made no progress |
| Progress.UntrippedSessionIsBounded | supervisor/src/guardrail-progress.ts:80-196 | an untripped session has at most 4096 credits and 4096 + 4097·(2·maxTurns − 1) counted operations |
| Progress.CohortIsInFlight | supervisor/src/guardrail-progress.ts:157-167 | the cohort is in flight and exists only at the threshold |
| Progress.CohortStarts | supervisor/src/guardrail-progress.ts:157-167 | it starts as everything in flight when the threshold is reached |
| Progress.CohortOnlyShrinks | supervisor/src/guardrail-progress.ts:157-167 | it loses exactly the tools that settle, and starts cannot extend it |
| CanonicalJson.QuoteString | runtime/command-json.ts:8-24 | the loop accepts exactly the strings whose surrogates pair up |
| CanonicalJson.SortAscends | runtime/command-json.ts:53-62 | keys come out strictly ascending, none lost or added |
| CanonicalSpelling.LessIsByUnits | runtime/command-json.ts:53-62 | the order of keys is the order of texts by their first differing UTF-16 unit |
| CanonicalSpelling.ObjectIsSpelled | runtime/command-json.ts:44-70 | an object is its properties in that order, each once, with colons, commas and braces |
| CanonicalSpelling.ArrayIsSpelled | runtime/command-json.ts:38-43 | an array is its items in order, with commas and brackets |
| CanonicalSpelling.ScalarsAreSpelled | runtime/command-json.ts:26-37 | how scalars are spelled, and which are refused |
| CanonicalSpelling.NumeralsAre | runtime/command-json.ts:26-37 | the texts taken for numbers |
| CanonicalSpelling.UnitsAreSpelled | runtime/command-json.ts:23-23 | a text is spelled unit by unit, with short escapes and lower-case hexadecimal ones |
| CanonicalSpelling.TextIsRefused | runtime/command-json.ts:8-24 | a text is refused exactly if a surrogate is not one of a pair |
| CanonicalJson.AscendingIsUnique | runtime/command-json.ts:53-62 | the key order is determined by the set of keys |
| CanonicalJson.EncodesExactly | runtime/command-json.ts:26-70 | encoding succeeds exactly on what passes the count of keys and the other checks all the way down, within the remaining levels |
| CanonicalJson.CountingTellsHoles | runtime/command-json.ts:39-43 | without other keys, the count of keys equals the length exactly when there is no hole |
| CanonicalJson.JsonIffPlainArrays | runtime/command-json.ts:39-43 | what is accepted is JSON data exactly when its arrays carry no other keys |
| CanonicalJson.EncodesJsonExactly | runtime/command-json.ts:26-70 | of values with plain arrays, exactly well-formed JSON data nested at most 64 containers deep is encoded |
| CanonicalJson.HoleIsEncodedAsEmpty | runtime/command-json.ts:39-43 | an array with a hole and one other key has the text of the empty array |
| JsonReader.BodyReads | runtime/command-json.ts:23-23 | every string is recovered from its quoted form |
| JsonReader.DecodeInvertsEncode | runtime/command-json.ts:26-70 | a reader recovers the value from its canonical text, whenever arrays are plain |
| JsonReader.TextOfMeaning | runtime/command-json.ts:53-65 | the text does not depend on property insertion order |
| JsonReader.SameTextIffSameValue | supervisor/src/command-receipts.ts:638-665 | requests with plain arrays share canonical text exactly when they are the same JSON value |
| ObjectIntegrity.HexIsSpelled | runtime/object-integrity.ts:4-6 | a byte is two lower-case digits, the high one first |
| ObjectIntegrity.Base64IsSpelled | runtime/object-integrity.ts:4-6 | three bytes are four digits with the same 24 bits; fewer are the digits that they reach |
| ObjectIntegrity.HeadersAreSpelled | runtime/object-integrity.ts:4-50 | the text of digest, tag and content range |
| ObjectIntegrity.FromHexInvertsToHex | runtime/object-integrity.ts:4-6 | bytes are recovered from their hexadecimal text |
| ObjectIntegrity.ToHexInvertsFromHex | runtime/object-integrity.ts:4-6 | lower-case hexadecimal text is recovered from its bytes |
| ObjectIntegrity.DecodeInvertsEncode64 | runtime/object-integrity.ts:4-6 | bytes of any length are recovered from their base64 digits |
| ObjectIntegrity.DigestReads | runtime/object-integrity.ts:13-22 | every 32-byte hash is recovered from its header |
| ObjectIntegrity.DigestPrints | runtime/object-integrity.ts:13-22 | an accepted header is the one spelling of its hash |
| ObjectIntegrity.DigestAcceptsExactly | runtime/object-integrity.ts:13-22 | the accepted headers are exactly those of hashes |
| ObjectIntegrity.EtagReads | runtime/object-integrity.ts:24-33 | generation and hash are recovered from their tag |
| ObjectIntegrity.EtagPrints | runtime/object-integrity.ts:24-33 | an accepted tag is the one spelling of what it names |
| ObjectIntegrity.EtagsAreDistinct | runtime/object-integrity.ts:8-10 | different generations or hashes have different tags |
| ObjectIntegrity.RangeReads | runtime/object-integrity.ts:35-50 | every acceptable range is recovered from its header |
| ObjectIntegrity.RangePrints | runtime/object-integrity.ts:35-50 | an accepted header is the one spelling of an acceptable range |
| ObjectIntegrity.RangeAcceptsExactly | runtime/object-integrity.ts:35-50 | of all ranges exactly those are accepted that are not empty, lie within the object and fit one response |
| Permissions.EachIsSettledOnce | supervisor/src/pending-permissions.ts:72-271 | in any order of operations an outcome once given never changes, and one request has one open deferred |
| Permissions.EachGetsItsOutcome | supervisor/src/pending-permissions.ts:99-268 | each operation gives the open requests it names its own outcome, and others none |
| Permissions.NoneIsLost | supervisor/src/pending-permissions.ts:72-271 | after every run the answered, cancelled and rejected are those that its successful answers, cancellations, caps, rejections, collisions and purges settled, and whatever else was registered is open |
| Permissions.CapReachesItsOwn | supervisor/src/pending-permissions.ts:123-148 | a cap timer settles the registration that armed it and no other |
| Permissions.OpenIsArmed | supervisor/src/pending-permissions.ts:123-158 | without a handler every open request has a timer running |
| Permissions.PendingPermissions.Evict | supervisor/src/pending-permissions.ts:81-92 | removes one entry, its timer, and a session left empty |
| Permissions.PendingPermissions.RegisterRequest | supervisor/src/pending-permissions.ts:99-160 | a collision rejects the earlier deferred and replaces it |
| Permissions.PendingPermissions.ResolveRequest | supervisor/src/pending-permissions.ts:162-179 | settles the open request, if any, with the choice |
| Permissions.PendingPermissions.CancelRequest | supervisor/src/pending-permissions.ts:181-198 | settles the open request, if any, as cancelled |
| Permissions.PendingPermissions.RejectRequest | supervisor/src/pending-permissions.ts:200-217 | settles the open request, if any, with an error |
| Permissions.PendingPermissions.FireCap | supervisor/src/pending-permissions.ts:123-148 | a handler takes over, otherwise the request is cancelled |
| Permissions.PendingPermissions.TotalSize | supervisor/src/pending-permissions.ts:231-237 | the sum of the session sizes is the number of open deferreds |
| Permissions.PendingPermissions.Size | supervisor/src/pending-permissions.ts:219-229 | one session's size is the number of its open deferreds |
| Permissions.PendingPermissions.RequestIds | supervisor/src/pending-permissions.ts:239-243 | the open requests of a session, each once |
| Permissions.PendingPermissions.PurgeSession | supervisor/src/pending-permissions.ts:245-268 | rejects every open request of a session and no other |
| ImportLedger.RunKeepsInv | supervisor/src/import-progress.ts:167-321 | over every run items stay sound, nothing committed is lost, generations only grow |
| ImportLedger.ReceivedIsCoveredOnce | supervisor/src/import-progress.ts:249-304 | what was received is covered by the chunks, each byte once, within the size |
| ImportLedger.FittingChunkIsCommitted | supervisor/src/import-progress.ts:249-304 | a chunk is committed, and appended, exactly if its index is new and it continues an unsealed item within its size |
| ImportLedger.CompleteItemIsSealed | supervisor/src/import-progress.ts:306-321 | an item is sealed exactly if it is complete, and a sealed one answers to its object only |
| ImportLedger.RepeatedChunkChangesNothing | supervisor/src/import-progress.ts:254-273 | a committed chunk sent again is a duplicate, anything else under its index a conflict, for ever |
| ImportLedger.SealIsFinal | supervisor/src/import-progress.ts:306-321 | a sealed item is complete and keeps its object id |
| ImportLedger.ImportProgress.Take | supervisor/src/import-progress.ts:249-304 | the checks on a chunk in order, and the new row |
| ImportLedger.ImportProgress.ReceiveChunk | supervisor/src/import-progress.ts:249-304 | commits a chunk or changes nothing |
| ImportLedger.ImportProgress.SealImportItem | supervisor/src/import-progress.ts:306-321 | seals a complete item once |
| ImportLedger.ImportProgress.EnableGeneration | supervisor/src/import-progress.ts:167-190 | issues a generation above every earlier one |
| ImportLedger.ImportProgress.RegisterImportItem | supervisor/src/import-progress.ts:207-213 | registering a known item changes nothing |

## Left out

- SQLite, its write-ahead log, statement handling, disk headroom and the storage fault latch.
- Schema migrations and the obligations that a migration seeds; process obligations start from an empty table.
- Wallets, teardown credits, frame credits, file budgets and capacity limits; the outbox takes their answer as a parameter.
- The JSON envelope of an event (what the audit re-parses of it), event ids, and listeners on appended events.
- Times are integers and every time given parses, but for the release of a process, where a missing time stands for one that does not.
- Timestamps of receipts (received, completed). An event id is the position it is derived from, and the stream id, of which there is one, is left out of the evidence.
- Of the checks on version 2 evidence: those on sequences, positions, bindings, phases and statuses are modelled; the formats of identifiers, digests, stop reasons, runtime objects and error codes are not.
- Capturing a command's output (its storage, funding and object reference) is modelled by what it appends.
- Recovery settles any accepted receipt in the model; outside boot the code looks for creates and prompts only, and after boot it needs a released process or an open wallet.
- The body stored with an accepted asynchronous command (its id and state) is modelled as the empty object, and the texts of error bodies are dropped.
- SHA-256 and the printing of numbers: a digest stands for its text, a number for its printed form, so negative zero is zero.
- JSON.stringify of a string follows section 3.2.2.2 of RFC 8785; accessors, proxies and objects that change while they are read are not modelled.
- What follows the scanner in a frame: UTF-8 decoding, JSON.parse, the checks on a message and its dispatch.
- An abandoned frame reader (a consumer that stops between two frames), and partial writes to the log or the spool file.
- Non-integer byte counts offered to the retained budget.
- Permissions.PendingPermissions.RequestIds: does not model the insertion order of the requests of a session.
- The order in which a purge rejects the requests of one session.
- What makes a confirmation of a process exit begin (the exit, the published terminal output, the session) and succeed; in the model it may begin whenever the create is unresolved.
- Process signalling, exit waits and process inspection; eviction of sessions under a lower epoch.
- The fence is checked when a command arrives, not again when its effect starts, and no more is claimed.
- The timer of the pruner, its log lines, and the health and pressure snapshots.
- Import manifest identity on reopening, the item listing and the snapshot totals.
- The other guardrail rules (path, capability, repetition), HTTP routes, the event transport and the user interface.
