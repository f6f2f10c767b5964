# WriteRelay, modelled and proved in Dafny

WriteRelay takes events that an application commits to PostgreSQL, captures them from the write-ahead log into a
SQLite spool, acknowledges the log only once they are durable, and delivers each event to every configured sink, in
order, with retries. A receiver helper turns the resulting at-least-once delivery into one committed effect. This
project models that path and proves what it promises over every run: crashes, lost answers, retries, concurrent
receivers and all.

Check everything with `dafny verify dfyconfig.toml`.

## How the model is built

| files | what they hold |
|---|---|
| `Basics`, `Timestamps`, `TimestampReading`, `Unicode` | shared values; the fixed-width timestamp text, why comparing it is comparing time, and what it denotes; UTF-16 |
| `SpoolState`, `SpoolCapture`, `SpoolSinks`, `SpoolDelivery`, `SpoolPrune` | the spool's tables as a value, its invariant and schema triggers, and each store operation as a function |
| `SpoolRuns`, `SpoolTriggers`, `CaptureIndependence` | any sequence of store operations and crashes: the invariant, what no run can undo, non-interference, when new deliveries become due; the schema triggers are exact; capture never notices the other operations |
| `Store` | the store as a class that updates its tables, each transaction a loop over a copy that is committed or dropped |
| `StateMachine`, `DiskGuard`, `Replicator` | the capture session: the pgoutput state machine, the disk guard, and the receive loop with its acknowledgments |
| `Capture`, `Provenance`, `CaptureRuns`, `CaptureProgress` | the whole capture protocol as a step system: server log and slot, sessions, crashes, lost acknowledgments, replaced slots, other work on the spool; which message each row comes from, and how far capture can get |
| `SessionRuns`, `SlotReplacement` | the receive loop refines the step system; exactly which slots may replace another |
| `Webhook`, `Worker`, `DeliveryRuns` | response classification, backoff, the worker, and whole delivery runs: order and draining |
| `Inbox`, `InboxHelpers`, `EndToEnd`, `DeliveryProgress` | the receiver inbox as a protocol of concurrent transactions, the Go and TypeScript helpers that drive it, the composition with the relay, and why it is never stuck |
| `JsonEscapes`, `JsonCopy` | the Go escape scanner and the TypeScript JSON copy with its cycle check |

SHA-256 is a parameter (`Hash`), so every theorem holds for every digest function; only the theorems about the
idempotency key assume that its hash has no collisions. Clocks, probe results, network outcomes, SQLite commit failures and the
sinks' answers are parameters of each operation. A SQLite transaction is a copy that is committed or dropped. A turn
of the receive loop touches the spool in at most one transaction, so other work on the spool is placed between turns. Times
are nanoseconds in the years 0 to 9999. An event's sequence number is its position in `events`, and a sink's id its
position in `sinks`: rows are only ever appended. PostgreSQL is assumed to behave as "Logical Streaming Replication
Protocol", version 1, documents: a session streams, in commit order, every transaction whose end lies past both the
start position and the slot's confirmed position. Inbox receipts are assumed not to be deleted.

## What does not hold, and exactly when it does

- `deliveryKey` joins sink name, source and id with NUL, and sources and ids may themselves contain NUL
  (`requiredString` in internal/event/event.go asks only that they are not empty). Then different events can share a
  key: `Webhooks.KeysCollide` is such a pair. `Webhooks.KeySharedExactly` says for which identities that can happen:
  exactly those whose source and id, joined, hold another NUL strictly inside. `EndToEnd.KeysDistinctExactly` says
  for which spools it does: exactly those in which two events read the same once joined. The end-to-end theorems hold
  for all others, in particular when no source contains NUL (`EndToEnd.PlainSourcesApart`).
- `startLSN` prefers the local checkpoint, but the server starts at the slot's confirmed position when that is
  further on. If the slot is dropped and created again ahead of the spool, events in between are lost without an
  error: `SlotReplacement.ReplacedSlotLoses` is a run after which one is missing for good. The guard that
  `startLSN` could evaluate from what it reads, that the slot's confirmed position is not past the start position, is
  exactly what is needed: `SlotReplacement.ReplacementExactly`. Capture refinement and acknowledgment safety hold on
  every run in which each replacing slot meets it.
- A driver that neither probes the transaction nor looks at the answer to COMMIT would report a swallowed SQL error
  as processed (`Inbox.UndetectedAbort`); one of the two precautions is exactly what is needed
  (`Inbox.TrustworthyExactly`), and all three drivers take one.
- Timestamp texts sort as time among years with the same number of digits, but the layout does not pad a year past
  9999: the first instant of year 10000 sorts before the first instant of year 2000
  (`Timestamps.Year10000SortsEarly`). Years of different lengths sort right if and only if the longer year is at least
  the shorter one with zeros appended to the same length (`Timestamps.LongerYears`; for the instants of this model
  against any later year, `Timestamps.LaterThanModelled`).

## Model

| member | source | states |
|---|---|---|
| `Timestamps.DateMonotone` | internal/spool/sqlite/sqlite.go:752-754 | later day numbers have lexicographically later civil dates, across leap years and month ends |
| `Timestamps.RenderLess` | internal/spool/sqlite/sqlite.go:31 | comparing two fixed-width renderings byte by byte is comparing the first differing field |
| `Timestamps.TextOrderIsTimeOrder` | internal/spool/sqlite/sqlite.go:752-754 | SQLite's text order on formatted timestamps is the time order, and equal texts are equal instants, for all instants of years 0 to 9999 |
| `TimestampReading.TextDenotes` | internal/spool/sqlite/sqlite.go:752-754 | for every instant the stored text is a date-time in UTC with nanoseconds (section 5.6 of RFC 3339), and reading it back on the Gregorian calendar gives the instant |
| `Timestamps.LongerYears` | internal/spool/sqlite/sqlite.go:31 | of two instants whose years have different numbers of digits, the one with more is later, and its text sorts after the other's if and only if its year is at least the shorter year with zeros appended, and before it otherwise |
| `Timestamps.LaterThanModelled` | internal/spool/sqlite/sqlite.go:752-754 | the same for every instant up to year 9999 against any instant of a later year |
| `Timestamps.Year10000SortsEarly` | internal/spool/sqlite/sqlite.go:31 | a failing pair: the text of the first instant of year 10000 sorts before that of the first instant of year 2000 |
| `SpoolState.InsertKeeps` | internal/spool/sqlite/migrations/003_payload_retention.sql:24-30 | inserting pending rows for retained events and active sinks preserves the other parts of the invariant |
| `SpoolCapture.IngestNew` | internal/spool/sqlite/sqlite.go:268-326 | a new identity appends one row, gives every active sink a delivery of it that is pending, unattempted and due from the given moment, and keeps the invariant |
| `SpoolCapture.IngestKnown` | internal/spool/sqlite/sqlite.go:298-326 | a known identity is a replay if and only if the digests agree, and then changes nothing |
| `SpoolCapture.IngestVerdict` | internal/spool/sqlite/sqlite.go:204-223 | the loop over a batch succeeds if and only if every event is valid and no identity, of a row or an earlier event, recurs with another digest; an error says which of the two it was |
| `SpoolCapture.PersistVerdict` | internal/spool/sqlite/sqlite.go:189-248 | all or nothing, even when a late event conflicts: it succeeds if and only if the positions are ordered, every event has source, id, type, a matching digest, the batch's commit and its own index, and no identity conflicts; then the rows are the old ones plus the first occurrences in message order, each added event has a pending delivery for every active sink, due from the moment it was ingested, Inserted + Replayed is the batch length, and the checkpoint is the maximum of old and new |
| `SpoolCapture.ReplayIsNoOp` | internal/spool/sqlite/sqlite.go:204-245 | re-persisting represented events succeeds and leaves events and deliveries unchanged |
| `SpoolCapture.RepresentsAddAll` | internal/spool/sqlite/sqlite.go:268-310 | rows that are the first occurrences of a history stay so when a batch is added to both |
| `SpoolSinks.RegisterVerdict` | internal/spool/sqlite/sqlite.go:369-421 | registering succeeds if and only if names and types are present, names distinct, and known names keep their type and fingerprint; it activates exactly those sinks and backfills them with pending deliveries due now; an error names the registration at fault |
| `SpoolSinks.DeactivateVerdict` | internal/spool/sqlite/sqlite.go:423-471 | removal succeeds if and only if no sink to be removed has unfinished deliveries, and switches off exactly those sinks |
| `SpoolSinks.ConfigureVerdict` | internal/spool/sqlite/sqlite.go:356-476 | success is decided by exactly those conditions, and then precisely the registered names are active, each with the type and fingerprint it was registered with, and each is covered; an error names its reason |
| `SpoolSinks.ConfigureAgain` | internal/spool/sqlite/sqlite.go:356-476 | configuring the same sinks again, as every start does, succeeds and changes nothing |
| `SpoolDelivery.NextDueIsLeast` | internal/spool/sqlite/sqlite.go:478-513 | the heads-first query returns a row if and only if it is the least due unfinished row of an active sink with no earlier unfinished row |
| `SpoolDelivery.SchedulerRefinement` | internal/spool/sqlite/sqlite.go:478-513 | the query on timestamp texts returns exactly what the naive rule on instants returns, including nothing |
| `SpoolDelivery.SelectedPayload` | internal/spool/sqlite/sqlite.go:484-505 | a selected delivery is its row's in every field: sink name and type, source, id, type, subject, attempts and payload; the payload is never a pruned one and hashes to the stored digest |
| `SpoolDelivery.MarkDeliveredKeeps` | internal/spool/sqlite/sqlite.go:515-536 | the guarded update succeeds if and only if the row is unfinished with the same attempt count; it leaves state, times, attempt count, error and status as specified, field by field, changes no other row, keeps the invariant and trips no trigger |
| `SpoolDelivery.MarkFailedKeeps` | internal/spool/sqlite/sqlite.go:538-584 | the same for a failure, whether retried or dead-lettered |
| `SpoolDelivery.RedriveKeeps` | internal/spool/sqlite/sqlite.go:702-734 | a redrive succeeds if and only if an active sink of that name holds a dead letter of that event; it makes that row due now with nothing attempted or recorded, changes no other, keeps the invariant and trips no trigger |
| `SpoolPrune.CandidatesAreFirst` | internal/spool/sqlite/prune.go:106-116 | a prunable event is passed over only when the limit is used up by older ones |
| `SpoolPrune.CandidatesByTime` | internal/spool/sqlite/prune.go:113-116 | selecting by timestamp text selects what comparing instants would |
| `SpoolPrune.PruneAllBlanks` | internal/spool/sqlite/prune.go:137-151 | updating the candidates one at a time blanks exactly their payloads, and no update is refused |
| `SpoolPrune.PruneVerdict` | internal/spool/sqlite/prune.go:47-159 | a prune fails only on its options (a cutoff that is zero or in the future, a limit outside 1 to 1000); it blanks exactly the oldest events whose deliveries all succeeded before the cutoff, up to the limit, touches nothing else, reports each with identity and size, and reports as total exactly the payload bytes freed; a dry run reports the same and changes nothing |
| `SpoolPrune.PrunableIsExpired` | internal/spool/sqlite/prune.go:109-115 | what the selection query accepts is what the rule on instants says: retained, with deliveries, all delivered before the cutoff |
| `SpoolPrune.FreedBytes` | internal/spool/sqlite/prune.go:126-127 | the running byte total equals the difference in stored payload bytes before and after |
| `SpoolPrune.ZeroTimeIsYearOne` | internal/spool/sqlite/prune.go:50-52 | the refused zero cutoff is the first instant of the year 1 |
| `SpoolPrune.PruneInvisible` | internal/spool/sqlite/prune.go:137-151 | a batch gets the same verdict, counts and checkpoint before and after a prune, and pruning commutes with persisting it |
| `SpoolRuns.AttemptKeeps` | internal/spool/sqlite/migrations/003_payload_retention.sql:7-39 | every store operation keeps the invariant and none of the four triggers can fire |
| `SpoolRuns.RunsKeepInvariant` | internal/spool/sqlite/sqlite.go:312-326 | in every state of every run: active sinks cover retained events, inactive sinks have no unfinished row, pruned events are delivered everywhere, retained payloads match their digests, and the next operation trips no trigger |
| `SpoolRuns.RunsEvolve` | internal/spool/sqlite/migrations/003_payload_retention.sql:17-39 | over any run events are never lost, reordered or rewritten (only pruned), sinks keep name, type and fingerprint, delivered rows never change and the checkpoint never decreases |
| `SpoolRuns.PersistedBecomesDue` | internal/spool/sqlite/sqlite.go:312-326 | every event a persist adds becomes eligible for every active sink at the moment it was ingested, once earlier deliveries of that sink are finished, whatever others do meanwhile |
| `SpoolRuns.RegisteredBecomesDue` | internal/spool/sqlite/sqlite.go:414-420 | the same for the retained events a newly registered sink is backfilled with |
| `SpoolTriggers.PruneTriggerExact` | internal/spool/sqlite/migrations/003_payload_retention.sql:7-15 | the trigger refuses to prune an event if and only if pruning it would break the invariant |
| `SpoolTriggers.RewriteTriggerExact` | internal/spool/sqlite/migrations/003_payload_retention.sql:17-22 | the trigger refuses to prune again exactly what was pruned before, which would change its record |
| `SpoolTriggers.InsertTriggerExact` | internal/spool/sqlite/migrations/003_payload_retention.sql:24-30 | the trigger refuses a new delivery of an active sink if and only if it would break the invariant |
| `SpoolTriggers.UpdateTriggerExact` | internal/spool/sqlite/migrations/003_payload_retention.sql:32-39 | the trigger refuses a change of state if and only if it would break the invariant |
| `SpoolRuns.SendIsUndisturbed` | internal/delivery/delivery.go:124-185 | between selecting a delivery and recording its result no run of persist, configure, redrive, prune or crash steps changes the row, its sink or its payload, so either result can be recorded |
| `CaptureIndependence.RunsAlike` | internal/spool/sqlite/sqlite.go:204-245 | two runs that offer the same batches in the same order agree on every event's identity and digest and on the checkpoint, whatever deliveries, sink changes, redrives, prunes and crashes either interleaves |
| `CaptureIndependence.CaptureIndependent` | internal/spool/sqlite/sqlite.go:268-326 | so after either run the next batch gets the same verdict, counts and checkpoint |
| `CaptureIndependence.PruneInvisibleForEver` | internal/spool/sqlite/prune.go:137-151 | after any run with or without a prune at its start, every batch gets the same verdict, counts and checkpoint |
| `SqliteStore.Store.PersistCommittedBatch` | internal/spool/sqlite/sqlite.go:189-248 | the tables become exactly the specified ones, added rows and deliveries included, or stay as they were, also when the commit fails |
| `SqliteStore.Store.ConfigureSinks` | internal/spool/sqlite/sqlite.go:356-476 | the same for sink configuration: the registered sinks are stored as given, active and covered, or nothing changes |
| `SqliteStore.Store.NextDueDelivery` | internal/spool/sqlite/sqlite.go:478-513 | returns the least eligible delivery by the naive rule on instants, with a payload that matches its digest, or nothing if there is none |
| `SqliteStore.Store.RecordDelivered` | internal/spool/sqlite/sqlite.go:515-536 | records exactly one row as delivered, or reports an error and changes nothing if the row moved on or SQLite fails |
| `SqliteStore.Store.RecordFailed` | internal/spool/sqlite/sqlite.go:538-584 | records exactly one row as waiting or dead-lettered, or reports an error and changes nothing |
| `SqliteStore.Store.RedriveDelivery` | internal/spool/sqlite/sqlite.go:702-734 | succeeds exactly when the dead letter exists and SQLite does not fail, and resets that row and no other |
| `SqliteStore.Store.PrunePayloads` | internal/spool/sqlite/prune.go:47-159 | the tables become exactly the pruned ones, with the report that belongs to them, or stay as they were |
| `SqliteStore.PersistTransaction` | internal/spool/sqlite/sqlite.go:204-241 | the loop with its running counters computes the specified transaction |
| `SqliteStore.RegisterAll` | internal/spool/sqlite/sqlite.go:367-421 | the loop over registrations computes the specified tables and collects exactly their names |
| `SqliteStore.CollectOthers` | internal/spool/sqlite/sqlite.go:423-445 | collects exactly the active sinks that were not configured, in order |
| `SqliteStore.RemoveOthers` | internal/spool/sqlite/sqlite.go:452-471 | the loop over those sinks agrees with a pass over all sinks |
| `SqliteStore.PruneTransaction` | internal/spool/sqlite/prune.go:106-151 | the select loop and the update loop compute the specified result and tables |
| `SqliteStore.CollectEntries` | internal/spool/sqlite/prune.go:120-136 | the entries, their count and the byte total agree with the candidates |
| `StateMachines.StateMachine.ConsumeMessage` | internal/postgres/state.go:48-96 | each message moves the buffered state, emits a batch or fails exactly as specified, and an error leaves the state alone |
| `StateMachines.StateMachine.ConsumeLogicalMessage` | internal/postgres/state.go:98-130 | the same for one logical message, limit checks included; an accepted protected message is buffered with the metadata the validator read, its content, digest and position, each in its own field |
| `StateMachines.StampEvents` | internal/postgres/state.go:74-80 | the loop stamps every event with the commit and its own index |
| `StateMachines.MachineTracksStream` | internal/postgres/state.go:48-141 | for every message stream, a message is refused exactly when a description without the machine says so; otherwise the buffer holds exactly the open transaction's accepted protected messages, one by one, in order and field by field, its byte count is their sum, and both stay within the limits |
| `StateMachines.EmittedBatches` | internal/postgres/state.go:63-82 | a batch is emitted exactly at an acceptable Commit, is the accepted protected messages since its own Begin, one by one and field by field, with the transaction's id, positions and time and consecutive indices, and every event in it passes the spool's validation |
| `StateMachines.RefusalReason` | internal/postgres/state.go:48-117 | a refused message is refused for the first thing wrong with it: misplaced, not transactional, over a limit, or invalid |
| `DiskGuard.Guard.Check` | internal/diskspace/guard.go:69-109 | a forced check admits only on a successful probe at the pause threshold, and a paused guard only on one at the resume threshold |
| `DiskGuard.AdmitsExactly` | internal/diskspace/guard.go:69-109 | a sample admits if and only if it succeeded at the pause threshold and, if the guard was paused, at the resume threshold; between samples the last verdict stands; a disabled guard always admits |
| `DiskGuard.PausedExactly` | internal/diskspace/guard.go:92-104 | over every probe sequence the guard is paused if and only if some sample failed or fell below the pause threshold and none since has reached both thresholds |
| `DiskGuard.PauseHolds` | internal/diskspace/guard.go:79-108 | over every probe sequence, a paused guard admits nothing until a probe succeeds at or above both thresholds |
| `DiskGuard.NoBatchWhilePaused` | internal/postgres/replicator.go:265-273 | of the batches admitted to the spool, in this session or a later one, none after a pause came before a successful probe at or above the resume threshold |
| `Replication.Replicator.PersistThenAcknowledge` | internal/postgres/replicator.go:362-384 | nothing is sent unless the batch is durable, and then exactly the checkpoint, which covers the batch |
| `Replication.Replicator.PersistBatch` | internal/postgres/replicator.go:263-273 | a pause at the last check leaves the spool and the server untouched |
| `Replication.Replicator.TakeTurn` | internal/postgres/replicator.go:183-259 | one turn persists at most one completed batch, answers a timeout or a requested keepalive with the durable position, and ends the session exactly for what it received, what failed, or a pause of the guard |
| `Replication.Replicator.RunOnce` | internal/postgres/replicator.go:134-261 | with any work by others on the spool between turns, a session persists exactly a gap-free prefix of the batches its messages complete, all of them if nothing ends it; it starts if and only if the guard admits it and there is a position to start from; every position sent is durable, or the slot's own start while the spool was empty; each batch was admitted by a forced check of its own, and a guard found paused lets none through without a probe at the resume threshold |
| `Replication.SessionEvolves` | internal/postgres/replicator.go:244-250 | a whole session, with the others' work in between, keeps the invariant and undoes nothing |
| `Capture.WireEmits` | internal/postgres/replicator.go:237-243 | feeding a transaction's messages emits its batch at the last message and never before, and only if every message was acceptable |
| `Capture.HistoryGrows` | internal/postgres/replicator.go:244-250 | moving the checkpoint to the next contributing transaction adds exactly its events to the history |
| `Provenance.RowsFromLog` | internal/postgres/state.go:118-129 | rows that are the first occurrences of the log's history are the messages that first use their identity, one row for each, in log order, with metadata, content, digest, position and commit in their own fields; a pruned row lacks the content alone |
| `CaptureRuns.RunKeeps` | internal/postgres/replicator.go:134-261 | the protocol invariant holds in every state of every run with arbitrary crashes, disconnects, lost acknowledgments, pauses, other spool work, and slots replaced at or behind the spool |
| `CaptureRuns.CaptureRefinement` | internal/postgres/replicator.go:134-261 | on every run the event rows are exactly the first occurrences by (source, id) of all protected messages in transactions past the initial slot position and up to the checkpoint: row by row the message of the log it comes from, field by field; and the checkpoint never passes a conflicting, invalid or over-limit transaction |
| `CaptureRuns.SendsWhatWasWritten` | internal/spool/sqlite/sqlite.go:484-505 | from the log to the sink: on every run a selected delivery carries the metadata and the bytes of the first message of the log with its identity |
| `CaptureRuns.AcknowledgmentSafety` | internal/postgres/replicator.go:195-250 | every position ever sent is at most the durable checkpoint of that moment, or the slot's initial position while the spool is empty; the checkpoint never decreases; the server's confirmed position never passes what is durable; only replacing the slot forgets positions sent to it |
| `CaptureRuns.ResumeSkipsNothing` | internal/postgres/replicator.go:318-331 | on every run, a new session starts exactly at the first item that is not durable |
| `CaptureRuns.ReplaceKeeps` | internal/postgres/replicator.go:285-331 | a slot at or behind the spool can replace another, and before the first batch any slot can |
| `CaptureProgress.ReachExactly` | internal/postgres/replicator.go:134-261 | capture gets as far as it may and no further: after any run, a session can bring the checkpoint to the end of a transaction if and only if no message up to there is refused and no identity up to there is used for two contents |
| `SlotReplacement.ReplacedSlotLoses` | internal/postgres/replicator.go:322-324 | for every checkpoint a run can have and every slot ahead of it, a run that puts the slot in place and ends with the checkpoint past an accepted event that the spool does not hold |
| `SlotReplacement.ReplacementExactly` | internal/postgres/replicator.go:318-331 | replacing slots by a given one at a given checkpoint keeps capture refinement on every run if and only if its confirmed position is not past the start position (or the checkpoint is 1, which no run reaches) |
| `SessionRuns.TurnRefines` | internal/postgres/replicator.go:183-259 | a turn of the receive loop is a few protocol steps: skip, receive, persist, acknowledge, report or end |
| `SessionRuns.SessionRefines` | internal/postgres/replicator.go:134-261 | a whole session of the code, on a server that sends its log while the log grows, the server confirms and others work on the spool, is a sequence of protocol steps with the same spool and the same positions sent |
| `SessionRuns.CodeRefinement` | internal/postgres/replicator.go:134-261 | so after any protocol run a session of the code, interleaved with the log's growth, the server's confirmations and other spool work, extends the run, leaves exactly the first occurrences up to its checkpoint in the spool, row by row the message of the log it comes from, and sent only durable positions or the initial one |
| `Webhooks.RetryAfterSeconds` | internal/delivery/webhook.go:140-147 | delta-seconds become nanoseconds without 64-bit overflow, saturating at the largest duration (section 10.2.3 of RFC 9110) |
| `Webhooks.ClassifyVerdict` | internal/delivery/webhook.go:122-135 | success is 200 to 299 and nothing else, a refusal is retryable for 408, 425, 429 and 5xx and nothing else, and status and Retry-After are passed on |
| `Webhooks.KeyTextInjective` | internal/delivery/webhook.go:160-165 | sink name, source and id are recoverable from the hashed text when name and source contain no NUL |
| `Webhooks.KeySharedExactly` | internal/delivery/webhook.go:160-165 | an identity shares its key text with another acceptable one, of any sink, if and only if its source and id, joined, hold another NUL strictly inside |
| `Webhooks.KeysCollide` | internal/delivery/webhook.go:160-165 | two acceptable identities with the same key, one of them with a source free of NUL |
| `DeliveryWorker.RetryDelay` | internal/delivery/delivery.go:187-199 | the doubling loop yields min(maxDelay, initialDelay * 2^k) and never leaves 64 bits |
| `DeliveryWorker.Plan` | internal/delivery/delivery.go:156-167 | every scheduled retry lies between the backoff and the maximum delay |
| `DeliveryWorker.ResponsePlan` | internal/delivery/webhook.go:122-148 | a refused response is retried exactly for 408, 425, 429 and 5xx while attempts are left, and a saturated Retry-After cannot be told from an exact one |
| `DeliveryWorker.PlanFailure` | internal/delivery/delivery.go:156-167 | the imperative decision agrees with the specified plan |
| `DeliveryWorker.RecordVerdict` | internal/delivery/delivery.go:139-175 | for every result, recording succeeds if and only if the row still awaits it, and leaves one row changed, field by field: delivered, or a dead letter, or waiting for the longer of backoff and Retry-After, capped; the stored error is cut to 2048 |
| `DeliveryWorker.ResponseRecorded` | internal/delivery/webhook.go:122-148 | a response makes its row delivered exactly on 200 to 299, waiting exactly on a retryable status with attempts left, and a dead letter otherwise, with the right deadline, times and status |
| `DeliveryWorker.Worker.ProcessOne` | internal/delivery/delivery.go:124-185 | with any work by others during the send, the worker records exactly the planned outcome for the row it selected; recording fails only if SQLite does, and then, as for a cancelled send, nothing is recorded |
| `DeliveryRuns.AttemptsInOrder` | internal/spool/sqlite/sqlite.go:478-513 | on every run, across crashes, captures, sink removal and reactivation, backfill and pruning, the events attempted for one sink never go back except to one redriven in between |
| `DeliveryRuns.TraceTells` | internal/delivery/delivery.go:124-153 | the observed attempts are all there are: one is observed exactly when an idle worker finds something eligible, and it is the least eligible row; a redrive exactly when a dead letter of that name exists |
| `DeliveryRuns.FinishedStays` | internal/spool/sqlite/sqlite.go:702-722 | only a redrive of that very row reopens a finished delivery |
| `DeliveryRuns.RecordingUsesWork` | internal/delivery/delivery.go:141-184 | recording any result strictly decreases the sum over unfinished rows of max(1, maxAttempts - attempts) |
| `DeliveryRuns.BacklogDrains` | internal/delivery/delivery.go:124-185 | without captures, redrives or registrations, the attempts recorded plus the work left never exceed the initial work, whatever the sinks answer |
| `DeliveryRuns.BacklogEnds` | internal/delivery/delivery.go:124-185 | after that many recorded attempts every delivery is terminal |
| `DeliveryRuns.BacklogNeverStalls` | internal/spool/sqlite/sqlite.go:478-513 | while anything is unfinished, something is due once its deadlines have passed |
| `Inbox.RunKeeps` | sdk/go/inbox.go:183-233 | over every interleaving of attempts: one holder per key, one effect per receipt, receipts never change, and every stage knows what it claims |
| `Inbox.InboxAtomicity` | sdk/go/inbox.go:183-233 | over every interleaving, with swallowed SQL errors, cancellation and commits of unknown outcome, the callback's writes commit at most once per key; success is reported only if they committed exactly once for the same digest; a conflict only if the receipt differs; the inconsistent outcome never |
| `Inbox.UndetectedAbort` | sdk/go/inbox.go:222-227 | for every delivery, a run in which a driver without either precaution reports processed and nothing was committed |
| `Inbox.TrustworthyExactly` | sdk/go/inbox.go:222-227 | a driver's reports are truthful on all runs if and only if it probes the transaction or checks the answer to COMMIT |
| `Inbox.DriversTrustworthy` | sdk/typescript/src/inbox.ts:167-175 | pgx, database/sql and the TypeScript helper qualify |
| `Inbox.FaultlessAttempt` | sdk/go/inbox.go:111-115 | an attempt without faults processes a new key once, and answers for a known one changing nothing, so a retry settles a commit of unknown outcome |
| `Inbox.SettleOutcomes` | sdk/go/inbox.go:227-231 | an unanswered COMMIT later takes effect as a whole or not at all, and frees the key either way |
| `InboxHelpers.RunInbox` | sdk/go/inbox.go:183-233 | the Go helper returns what its attempt in the protocol reports, truthfully; its attempt has committed something if and only if it returns processed, for which insert, callback, probe and COMMIT succeeded and nothing was cancelled; an error of its own needs a fault or a lock; a rollback that works leaves the transaction finished |
| `InboxHelpers.WithInbox` | sdk/typescript/src/inbox.ts:120-190 | the same for the TypeScript helper, without cancellation and probe, and a connection goes back to the pool only if its transaction is over on the server |
| `InboxHelpers.Claim` | sdk/go/inbox.go:194-218 | insert, then callback or comparison: the outcome matches the attempt's stage, succeeds only if each statement and the callback did, and commits nothing |
| `InboxHelpers.RunCallback` | sdk/go/inbox.go:200-203 | an error of the callback is the helper's error, and the transaction is then on its way to a rollback |
| `InboxHelpers.ReadReceipt` | sdk/go/inbox.go:204-215 | the comparison passes, conflicts or fails, and it fails exactly when the statement does |
| `InboxHelpers.Conclude` | sdk/go/inbox.go:219-232 | success exactly when the last test passes and the driver accepts the answer to COMMIT |
| `EndToEnd.RunKeeps` | internal/delivery/delivery.go:124-153 | the invariant of relay and receiver together holds in every state of every run, with requests lost, delayed or duplicated |
| `EndToEnd.DeliveredOnce` | sdk/go/inbox.go:183-233 | in every state of every run each delivered row has its effect committed exactly once, for its own bytes, and no row more than once |
| `EndToEnd.EffectIsOfRow` | sdk/go/inbox.go:183-233 | that effect is the row's own: its receipt was written by an attempt handling a request for that row, and the attempts under its key are exactly those |
| `DeliveryProgress.CanDeliver` | internal/delivery/delivery.go:124-153 | nothing is ever stuck: after any run, with a send under way and attempts left behind in any stage, the next due row can still be delivered, with exactly one effect and no other row changed |
| `EndToEnd.KeysDistinctExactly` | internal/delivery/webhook.go:160-165 | the rows of a spool have different keys if and only if no two events read the same once source and id are joined |
| `EndToEnd.PlainSourcesApart` | internal/delivery/webhook.go:160-165 | which is so when no source contains NUL |
| `EndToEnd.NoConflicts` | internal/delivery/webhook.go:160-165 | first tries, retries, redrives, duplicated and delayed requests never meet a content conflict |
| `EndToEnd.SameKeySameBytes` | internal/delivery/webhook.go:84-96 | two requests share a key if and only if they are for the same row, and then they carry the same bytes |
| `JsonEscapes.ValuePart` | sdk/go/writerelay.go:129-131 | judging a text's flat sequence of characters is judging each of its strings, member names included |
| `JsonEscapes.FourDigits` | sdk/go/writerelay.go:144 | four hexadecimal digits denote their values weighted by powers of sixteen |
| `JsonEscapes.DigitsExact` | sdk/go/writerelay.go:144 | the digits are 0 to 9 and a to f in either case, each with its value |
| `Unicode.PairsExact` | sdk/go/writerelay.go:149-155 | two code units are a high and a low surrogate if and only if they are the UTF-16 form of one scalar value, the one they pair up to |
| `JsonEscapes.ScanEscapes` | sdk/go/writerelay.go:136-159 | the skipping index stays in bounds, and the verdict is true exactly when no escape denotes NUL and surrogate escapes are properly paired; escaped backslashes are not misread |
| `JsonEscapes.ValidJson` | sdk/go/writerelay.go:132-161 | accepts exactly the valid UTF-8 JSON texts (sections 7 and 8.2 of RFC 8259) in which that holds for every string |
| `JsonCopy.ExpressionExact` | sdk/typescript/src/index.ts:138-146 | the Unicode regular expression matches exactly the strings that are not the UTF-16 form of scalar values other than NUL |
| `JsonCopy.AcceptableNode` | sdk/typescript/src/index.ts:155-176 | an object is acceptable, judged by all paths from it, exactly when it is no ancestor, is sound itself, and its children are acceptable below it |
| `JsonCopy.UnfoldingUnique` | sdk/typescript/src/index.ts:167-176 | a value has at most one finite unfolding |
| `JsonCopy.CopyLeaf` | sdk/typescript/src/index.ts:137-154 | a value that is not an object is copied if and only if it is JSON |
| `JsonCopy.Copier.CopyChildren` | sdk/typescript/src/index.ts:168-176 | the loop copies all children or stops at the first fault, which is then a fault of the object |
| `JsonCopy.Copier.JsonValue` | sdk/typescript/src/index.ts:136-180 | terminates on every finite graph, restores the ancestor set, accepts exactly the values from which no cycle and no invalid leaf, key or prototype is reachable, returns their unfolding with shared objects allowed, and otherwise names a fault the value has |

## Left out

- PostgreSQL connections, slot creation, setup and doctor: only the choice of the start position is modelled.
- pglogrepl decoding and log-position text: messages are abstract and positions are numbers.
- Event JSON parsing: the validator is a parameter with the contract that accepted events have non-empty id, source and type and fit the size limit.
- HTTP sending, HMAC signing, the date form of Retry-After and the status number inside the error text: a send has any result.
- Inbox argument checks, table names, DDL and connection checkout: the inbox model starts with a valid key and digest and an open transaction.
- The callback handle: that it is unusable after the callback returned, and hides transaction control, is assumed.
- JavaScript getters, proxies and subclass arrays: an object is its entries or items as read once.
- Columns that nothing reads back (captured_at, created_at, subject storage) and gaps in SQLite sequence numbers.
- I/O errors of single SQL statements: they end a transaction like a failed commit, which is modelled.
- The reconnect loop's timing, jitter and fatal-error list: in the protocol a session may end and begin again at any step.
- Configuration, CLI, logging, monitoring, statistics, migrations, file permissions and the user interface are not modelled.
- The UTF-8 and JSON syntax validators that the escape scanner runs after: their verdicts are parameters.
