# Logryph ledger: a verified model

Logryph is a tamper-evident event ledger. Producers submit events into a fixed-size
ring; one consumer numbers each event, hashes it onto the previous one, signs it and
stores it; an auditor re-reads the store and re-checks links, hashes and signatures; a
trace command shows the events of a task as a tree. This project models those parts in
Dafny and proves what they guarantee over every input and every run.

Check everything with `dafny verify dfyconfig.toml`.

## What is where

- `Ring.dfy`: the ring buffer as a class over an array, and the bounded queue it refines.
- `Latency.dfy`, `LatencyRace.dfy`: the latency histogram, and reading it while it changes.
- `Worker.dfy`: Submit, the consumer loop and Shutdown as a system of interleaved steps.
  Every list of steps is a schedule; a step that cannot be taken changes nothing.
- `WorkerInvariants.dfy`, `WorkerTheorems.dfy`: what every step keeps, and what follows
  for whole schedules.
- `WorkerFailures.dfy`, `WorkerDrops.dfy`: what can go wrong, exactly when, and schedules
  on which it does.
- `WorkerEnds.dfy`: Shutdown comes to an end, and the consumer leaves nothing behind.
- `DrainLoop.dfy`: the final drain of Shutdown as a loop over the real ring and histogram.
- `Codec.dfy`: Go values, JSON values, and the hash of an event.
- `Doubles.dfy`: which integers a double tells from all others.
- `JsonText.dfy`: why no JSON object's text is the end of another's.
- `Consistency.dfy`: the assumptions about the libraries hold of at least one library.
- `Events.dfy`: events, the hashed payload, and events as rows of text.
- `Store.dfy`: the tables and the queries.
- `Chain.dfy`, `Processor.dfy`, `Ledger.dfy`, `LedgerTheorems.dfy`: numbering, sealing,
  storing, task tracking, genesis and restarts, and the theorems over whole lives of a
  ledger.
- `TaskRows.dfy`: the task map and the completions against the stored rows.
- `EndToEnd.dfy`: worker and ledger joined, from Submit to the audit.
- `Starts.dfy`: what genesis, starts, restarts and key rotations achieve.
- `LongLives.dfy`: lives of any length.
- `Audit.dfy`: verification, and what a passed chain commits to.
- `Trace.dfy`, `TraceWalk.dfy`: the trace forest, its recursive pre-order, and the walk
  with the explicit stack.
- `Links.dfy`: parent links between tool calls, and what a lost event does to a trace.
- `Policy.dfy`: first-match policy evaluation.

## Assumptions

SHA-256, Ed25519 (sections 5.1.6 and 5.1.7 of RFC 8032), canonical JSON (RFC 8785),
encoding/json and time formatting (section 5.6 of RFC 3339) are fields of the record
`Codec.Lib`; `Codec.Lawful` states what is assumed of them and `LawsAreConsistent` shows
that this can be met:

- `json.Unmarshal` after `json.Marshal` gives the normal form `Codec.Normal`: unsigned
  integers become the nearest double, times become text, nil maps become null.
- canonical JSON is injective on objects;
- a SHA-256 value has 64 characters. It is not assumed to be injective: theorems about
  tampering end in "or these two different inputs have the same SHA-256 value";
- a signature verifies under exactly the public key of the key that made it;
- formatting a parsed time gives back the formatted text.

One more fact is not in `Lawful` and is asked for only where the previous hash of an edited
first event may have a length other than 64: `Codec.ObjectTexts`, that the canonical text
of an object has the lexical shape of a JSON object (section 4 of RFC 8259). From it the
hash input is proved to split in one way at any length.

Database errors, the clock, id generation and the event pool are parameters, so the
theorems hold for every choice of them. A failed `assert.Check` is an error return, as
when strict mode is off; in the default strict mode it panics instead, and the theorems
that a check cannot fire say where it does not matter.

## Findings

- A blocking Submit can drop its event without having waited: after a poll that saw
  space it looks again, and drops if other calls took the space. `LateDropExactly` gives
  the exact condition: the other calls in flight are at least as many as the free slots,
  and the call still polls or has just found room (with no free slot, a drain must be able
  to make one). `LossExactly` is the same for either mode and also counts refused pushes;
  `LateDropHappens` is a run for every capacity.
- Shutdown can make a Submit that is past its closing check send on the closed channel,
  which panics. `PanicExactly` gives the exact condition, `PanicHappens` a run.
- When the wait in Shutdown times out while the consumer is running, events can be handed
  over out of order, exactly when two different events are pending (`ReorderExactly`,
  `ReorderHappens`); none is lost or doubled (`ShutdownDelivers`).
- Reading stops silently at 100000 rows, so verification of a longer run reports Valid for
  its first 100000 events (`VerifyOutcome`, `RowsBeyondBoundUnread`); `LongLifeCutShort`
  is such a run.
- Indices are hashed as doubles. The hash fails to bind an index exactly from 2^53 on,
  except for the indices below 2^54 that are 2 mod 4, such as 2^53 + 2: both neighbours of
  those are ties that round away (`SharedExactly`, `IndexBoundExactly`).
- Verification checks neither that the first event is the genesis event nor that the chain
  goes on to the newest one: any block of consecutive events of a chain verifies as Valid.
  Every other selection fails at its first gap (`RemovalDetectedExactly`).
- KEY_MANAGEMENT.md lines 97 to 103 describe verification with several keys; the code
  verifies with one, and `VerifyOutcome` states what that gives.
- A tool call that is lost before the ledger hides all later calls of its task from the
  trace (`TraceShowsUnbrokenPrefix`).
- A reader of the latency metrics can see bucket counts and the latency count disagree,
  exactly when some record has not done both of its steps as the reading begins, or one
  begins later (`MisleadsExactly`, `MisleadsOnce`). The buckets exceed the count by at most the
  records between their steps (`ReadersView`); the count exceeds them without limit
  (`CountRunsAhead`).

## Model

| member | source | states |
|---|---|---|
| `Ring.QueueIsFifo` | internal/ring/buffer.go:42-83 | for every capacity and operation list: what was accepted is what was handed out followed by what is inside, and never more than the capacity is inside |
| `Ring.Replay` | internal/ring/buffer.go:27-107 | a fresh ring driven through any operation list gives exactly the answers of the bounded queue, wraparound included |
| `Ring.Buffer.Push` | internal/ring/buffer.go:42-59 | appends to the queue it stands for, or reports full and changes nothing; tail stays (head + count) mod capacity |
| `Ring.Buffer.Pop` | internal/ring/buffer.go:63-83 | removes and returns the oldest item, or reports empty and changes nothing |
| `Ring.Buffer.IsFull` | internal/ring/buffer.go:87-91 | true exactly when the queue has reached the capacity |
| `Ring.Buffer.IsEmpty` | internal/ring/buffer.go:95-99 | true exactly when the queue is empty |
| `Ring.Buffer.Len` | internal/ring/buffer.go:103-107 | the length of the queue |
| `Ring.New` | internal/ring/buffer.go:27-38 | an empty buffer of the given capacity, and none for a capacity that is not positive |
| `Latency.BucketsPartition` | internal/ledger/worker.go:62-70 | buckets are disjoint and cover every 64-bit latency: the bucket counts add up to the number of latencies |
| `Latency.BucketBounds` | internal/ledger/worker.go:62-70 | the seven buckets by their bounds: up to 1 ms, 5 ms, 10 ms, 25 ms, 50 ms, 100 ms, and above |
| `Latency.Histogram.Record` | internal/ledger/worker.go:500-528 | each bucket keeps counting exactly the latencies of its half-open interval; negative durations are ignored; the sum wraps at 64 bits |
| `Latency.Histogram.CountsAddUp` | internal/ledger/worker.go:500-528 | between records the bucket counts add up to the latency count |
| `LatencyRace.ReadersView` | internal/ledger/worker.go:303-319 | at every moment of every interleaving the bucket counts and the latency count differ by at most the records between their two steps, and loaded buckets exceed a count loaded after them by at most as many |
| `LatencyRace.DifferenceExactly` | internal/ledger/worker.go:512-527 | bucket counts less latency count are exactly the non-zero latencies in their bucket only less the zero latencies counted only |
| `LatencyRace.MisleadsExactly` | internal/ledger/worker.go:312-318 | with no further record beginning, some continuation makes a reader that starts now load buckets that do not add up to the count if and only if some record has not done both of its steps |
| `LatencyRace.MisleadsOnce` | internal/ledger/worker.go:512-527 | one record of any latency is enough |
| `LatencyRace.CountRunsAhead` | internal/ledger/worker.go:303-319 | for every n a reader can see empty buckets and a count of n, with no record in progress |
| `WorkerInvariants.Always` | internal/ledger/worker.go:225-498 | the invariants of queue, wake-up, counters, waits and shutdown hold after every schedule |
| `WorkerTheorems.NoLostWakeup` | internal/ledger/worker.go:466-498 | a parked consumer with events waiting has a token or a call about to send one; once all calls returned and no token is left, everything accepted has been handed over in order |
| `WorkerTheorems.ShutdownDelivers` | internal/ledger/worker.go:333-355 | after a Shutdown begun with no call past its closing check and whose drain began after the consumer had stopped, the sequence handed to ProcessEvent is the accepted sequence and the ring is empty; otherwise still nothing is lost or doubled |
| `WorkerEnds.ShutdownCompletes` | internal/ledger/worker.go:333-355 | from every state of every run with no call past its closing check and at most 2^20 slots, some continuation without a timeout ends with Shutdown finished cleanly and everything accepted handed over in order |
| `WorkerEnds.ConsumerLeavesNothing` | internal/ledger/worker.go:466-471 | a consumer stopped by a quiet Shutdown has emptied the ring: a buffered token is taken before the closed channel is seen |
| `WorkerTheorems.OversizedRingDeliversNothing` | internal/ledger/worker.go:473-476 | with a ring above 2^20 slots no event is ever handed over |
| `WorkerTheorems.Conservation` | internal/ledger/worker.go:225-280 | calls started equal dropped plus refused plus in flight plus queued plus processed plus being processed; refused is zero when calls do not overlap |
| `WorkerTheorems.HistogramConservation` | internal/ledger/worker.go:477-493 | the bucket counts add up to the processed counter, plus one for an event between its latency and its count |
| `WorkerTheorems.HealthAndLatencies` | internal/ledger/worker.go:412-423 | in every schedule the worker is unhealthy exactly when a handed event failed or a drain met a ring above 2^20 slots, and the recorded latencies are those of the processed events in order |
| `WorkerTheorems.TurnedAwayForCause` | internal/ledger/worker.go:233-272 | at most 1000 waits per call, all counted; every drop saw shutdown, or a full ring after 1000 full polls, or lost seen space to another push; the last only when calls overlap |
| `WorkerTheorems.CallEnds` | internal/ledger/worker.go:225-280 | whatever else is scheduled, a Submit has returned after 2004 steps of its own, unless the process went down |
| `WorkerDrops.LateDropExactly` | internal/ledger/worker.go:240-259 | before Shutdown and with no further Submit, some continuation drops a blocking call after it found room if and only if it still polls or has just found room, and the other calls in flight can fill the free slots (with none free: another call in flight and a drain that can make room) |
| `WorkerDrops.LossExactly` | internal/ledger/worker.go:233-272 | the same for either mode and for any loss after finding room, refused pushes included |
| `WorkerDrops.LateDropHappens` | internal/ledger/worker.go:240-259 | for every capacity, of one call more than there are slots the first can be dropped so, without one wait |
| `WorkerTheorems.QuietShutdownNeverPanics` | internal/ledger/worker.go:341-345 | no send on the closed channel if Shutdown begins with no call past its closing check |
| `WorkerFailures.PanicExactly` | internal/ledger/worker.go:274-279 | beginning Shutdown in a state of any run, some continuation sends on the closed channel if and only if a call is past its closing check and has pushed, has room, or will be given room by a drain |
| `WorkerFailures.PanicHappens` | internal/ledger/worker.go:341-345 | for every capacity and mode, a schedule of a fresh worker ends in that panic |
| `WorkerFailures.ReorderExactly` | internal/ledger/worker.go:347-352 | when the wait of a quiet Shutdown times out, some continuation hands events over out of order if and only if the consumer is still running and two neighbouring pending events differ (and the ring is within the drain bound); otherwise every continuation keeps the order |
| `WorkerFailures.DistinctPending` | internal/ledger/worker.go:347-352 | for distinct events that condition is: at least two are pending |
| `WorkerFailures.ReorderHappens` | internal/ledger/worker.go:347-352 | for every capacity within the bound and both modes, a schedule of a fresh worker ends out of order |
| `DrainLoop.FinalDrainer.DrainBuffer` | internal/ledger/worker.go:392-426 | hands over exactly the queued events, oldest first, counting and timing each; an oversized ring is reported and left alone |
| `DrainLoop.FinalDrainer.DrainAll` | internal/ledger/worker.go:408-425 | the bounded loop empties the ring |
| `DrainLoop.FinalDrainer.DrainOne` | internal/ledger/worker.go:412-423 | one iteration pops, hands over, times and counts the oldest event |
| `Doubles.SharedExactly` | internal/crypto/engine.go:36-43 | an integer shares its double with another one if and only if it is at least 2^53 and not a number 2 mod 4 below 2^54 |
| `Doubles.AloneAbove` | internal/crypto/engine.go:36-43 | 2^53 + 2 shares its double with no other integer |
| `Codec.NormalLoaded` | internal/crypto/engine.go:36-43 | a value loaded from JSON goes back to the same JSON |
| `Codec.EventHashValue` | internal/crypto/engine.go:17-58 | for a 64-character previous hash no check fires and the result is the hash of the plain concatenation |
| `Codec.EventHashExactly` | internal/crypto/engine.go:17-58 | for any previous hash: when a hash is computed at all, and that it is then the hash of the plain concatenation |
| `Codec.InputSplits` | internal/crypto/engine.go:52-57 | the unseparated hash input splits in one way only, because the previous hash has a fixed width |
| `Codec.InputSplitsAnywhere` | internal/crypto/engine.go:52-57 | and for previous hashes of any length, from the lexical shape of object texts alone |
| `JsonText.SuffixFree` | internal/crypto/engine.go:45-50 | no object's text is the end of another object's text: an inner object closes early, and a reading begun inside a string takes closing quotes for opening ones to the end |
| `Consistency.LawsAreConsistent` | internal/crypto/engine.go:30-57 | the assumptions about the libraries can be met together |
| `Events.PayloadSays` | internal/ledger/processor.go:136-151 | the hashed object has exactly the fourteen names, each with the JSON of the field of that name |
| `Events.SamePayload` | internal/ledger/processor.go:136-151 | two events have the same normalised payload exactly when they agree on all fourteen hashed fields |
| `Events.InputBinds` | internal/crypto/engine.go:52-57 | two events with previous hashes of equal length have the same hash input exactly when they agree on the previous hash and every hashed field |
| `Events.StoreRoundTrip` | internal/ledger/store/events.go:142-167 | an event rebuilt from its row has the same hashed fields and the same hash; nil maps stay nil, empty maps stay maps |
| `Events.ColumnsRead` | internal/ledger/store/events.go:142-167 | a text column reads as a map exactly when it is the text of an object, and then as that object; a time that does not parse reads as the zero time |
| `Events.SameHashedIsSame` | internal/ledger/audit/verify.go:97-114 | for events read from the store, equal hashed fields are equal fields, the index as soon as one of the two is told apart by its double |
| `Events.IndexBoundExactly` | internal/crypto/engine.go:30-50 | some other index gives the same hash input if and only if the index shares its double |
| `Events.AmbiguousIndexNotBound` | internal/crypto/engine.go:30-50 | every such index can be changed without changing the hash |
| `Store.AscendingIsOrderBy` | internal/ledger/store/events.go:105-111 | the ordered selection is a sorted permutation |
| `Store.LastEventIsHighest` | internal/ledger/store/events.go:83-97 | the last event is a row of the run with the highest index, given with its own hash; (0, "") when the run has no row |
| `Store.DB.GetAllEvents` | internal/ledger/store/events.go:100-176 | the rows of the run in index order, read back, at most 100000 of them |
| `Chain.GapAssertionsHold` | internal/ledger/processor.go:92-125 | in a linked run the next index is the row count, the link is the last hash, and the gap assertions hold |
| `Chain.SealedRow` | internal/ledger/processor.go:128-166 | sealing succeeds exactly for JSON-expressible events, and the stored row reads back with its own hash and signature |
| `Chain.PersistExtends` | internal/ledger/processor.go:72-89 | persisting fails exactly on a database error, an inexpressible event, or an empty or taken id, and then changes nothing; otherwise it extends the valid chain by one row |
| `Processor.EventProcessor.PersistEvent` | internal/ledger/processor.go:72-166 | the steps on the objects give the specified table and event |
| `Processor.EventProcessor.TrackTaskState` | internal/ledger/processor.go:51-65 | new task map, completion decision and table as specified |
| `Processor.EventProcessor.ProcessEvent` | internal/ledger/processor.go:32-49 | table, task map and completion as specified; a failed store leaves the task map alone |
| `Processor.TrackKeepsAgreement` | internal/ledger/processor.go:51-69 | one tracked event keeps the map equal to the replay of the reports |
| `Processor.CompletionsSeparated` | internal/ledger/processor.go:55-64 | between two completions of a task there is a non-terminal report on it |
| `Ledger.CreateGenesisBlock` | internal/ledger/genesis.go:14-87 | both tables after genesis, including the run record without its event |
| `Ledger.GenesisMatchesRecord` | internal/ledger/genesis.go:76-84 | the run record of a successful genesis carries the hash of the stored genesis event and a public key it verifies under |
| `Ledger.GenesisHash` | internal/ledger/genesis.go:45-67 | the map hashed for genesis gives the hash the writer's map gives |
| `Starts.GenesisExactly` | internal/ledger/genesis.go:63-87 | when genesis succeeds, when only its run record is inserted, and what both rows then hold |
| `Starts.GenesisReadsBack` | internal/ledger/genesis.go:24-43 | the stored genesis event reads back with public key, agent, version and, if there was one, the anchor |
| `Ledger.StartWorker` | internal/ledger/worker.go:178-206 | first start creates the genesis block, later starts continue the latest run, with an empty task map |
| `Starts.StartOutcome` | internal/ledger/worker.go:178-206 | after any life: a start on an empty ledger runs genesis, one on a ledger with a run continues it with an empty task map and leaves the tables alone, and a fault means no processor |
| `Starts.RestartResumes` | internal/ledger/worker.go:197-206 | after any life with a run record, a restart and then a storable event put that event at the next index of the same run |
| `Starts.RotationTakesEffect` | internal/crypto/signer.go:69-86 | after any life, the next event stored after a rotation verifies under exactly the new public key, or the old one if the new key could not be saved |
| `Ledger.Live` | internal/crypto/signer.go:69-86 | any list of starts, events and key rotations performed on the database, signer and processor objects leaves them as the life says |
| `Ledger.ProcessInRun` | internal/ledger/processor.go:32-65 | a processed event takes the next index and its completion, if stored, the one after; completions are emitted exactly for terminal reports on followed tasks |
| `Ledger.LifeKeeps` | internal/ledger/worker.go:185-206 | after any life there is at most one run, its rows form a valid chain, and the task map agrees with the log |
| `LedgerTheorems.GapFree` | internal/ledger/processor.go:92-125 | stored indices are 0..n-1 and the links start at the zero hash, after any mix of events, failures, restarts and rotations |
| `LedgerTheorems.GapAssertionsNeverFire` | internal/ledger/processor.go:109-122 | the next event can always be numbered and linked |
| `LedgerTheorems.VerifyOutcome` | internal/ledger/audit/verify.go:27-85 | verification counts the rows up to 100000 and is Valid exactly when every counted row was signed under the given key |
| `LongLives.LongLife` | internal/ledger/processor.go:92-125 | for every n a life whose table has n rows |
| `LongLives.LongLifeCutShort` | internal/ledger/store/events.go:123-126 | with more than 100000 rows such a life verifies as Valid with 100000 events |
| `LongLives.LongLifeExists` | internal/ledger/processor.go:92-125 | and there is a lawful library with such lives |
| `LedgerTheorems.WriteThenVerify` | internal/ledger/audit/verify.go:27-133 | whatever was processed under one key verifies as Valid with the number of stored events |
| `LedgerTheorems.PassesUnderItsOwnKey` | internal/crypto/signer.go:88-96 | every event verifies under the key in force when it was signed, across rotations |
| `TaskRows.TaskMapIsReplay` | internal/ledger/processor.go:32-69 | the task map holds a task exactly when the last report on it stored since the start is not terminal, with that state |
| `TaskRows.TaskMapByName` | internal/ledger/processor.go:51-69 | the map holds exactly the tasks whose last stored tool_call or tool_response since the start has a state other than completed, failed and cancelled, with that state |
| `TaskRows.CompletedExactly` | internal/ledger/processor.go:51-69 | a stored event is followed by a completion exactly when it is a tool_call or tool_response with state completed, failed or cancelled on a task left open, and the completion can be stored; it carries that task and state |
| `TaskRows.CompletionsInPlace` | internal/ledger/processor.go:55-65 | over the whole table and all restarts: completions are emitted exactly for terminal reports on tasks open in the rows since the start; those in the table are exactly the ones stored, each in the row after its report |
| `TaskRows.CompletionRowsSeparated` | internal/ledger/processor.go:55-64 | between any two completions of a task in the table, restarts or not, there is a non-terminal report on it |
| `EndToEnd.DeliveredAndVerified` | internal/ledger/worker.go:333-355 | after a quiet Shutdown that drained after the consumer stopped, the table holds genesis and then the accepted events in order, less exactly those that could not be stored, with a completion exactly where a storable one is due, and verifies as Valid |
| `LedgerTheorems.EditedLedgerDetected` | internal/ledger/audit/verify.go:59-84 | in a written ledger, a row edited in any hashed field or previous hash while keeping index and hash makes verification fail naming that index, or exhibits a collision |
| `Audit.VerifyChain` | internal/ledger/audit/verify.go:27-85 | the report is Valid exactly when there are events and all pass; otherwise it names the first failing event and what failed, and every earlier event passes |
| `Audit.CheckEvents` | internal/ledger/audit/verify.go:60-82 | the bounded loop computes that report |
| `Audit.CheckEvent` | internal/ledger/audit/verify.go:64-81 | link first, then hash, then signature |
| `Audit.RecomputedHash` | internal/ledger/audit/verify.go:97-119 | the map the auditor builds gives the hash the writer's map gives |
| `Audit.VerdictMeaning` | internal/ledger/audit/verify.go:87-133 | each verdict by the recomputed SHA-256 value and the signature check |
| `Audit.ReportUnique` | internal/ledger/audit/verify.go:59-84 | the events determine the report |
| `Audit.LastHashCommits` | internal/ledger/audit/verify.go:60-82 | two passed chains from the zero hash with the same last hash have the same length and agree on every hashed field everywhere, or there is a collision or an event that hashes to 64 zeros |
| `Audit.StoredHistoriesAgree` | internal/ledger/store/events.go:142-167 | for tables, such chains hold the same events field by field, indices included unless both share their doubles |
| `Audit.EditDetected` | internal/ledger/audit/verify.go:116-124 | in a passed chain, changing a hashed field or the previous hash while keeping the hash fails at that event, or exhibits a collision |
| `Audit.ChangeDetected` | internal/ledger/audit/verify.go:60-82 | a changed event that is not the last, even re-hashed and re-signed, fails there or at its successor's link, or exhibits a collision |
| `Audit.RemovalDetectedExactly` | internal/ledger/audit/verify.go:59-84 | of a passed chain with distinct ids, a selection of events passes if and only if it is one block of consecutive events, and otherwise fails first at its first gap, or there is a collision |
| `Audit.BlockUndetected` | internal/ledger/audit/verify.go:47-84 | every non-empty block of a passed chain verifies as Valid |
| `Audit.RowsBeyondBoundUnread` | internal/ledger/store/events.go:123-126 | once a run has 100000 rows, rows with later indices do not influence verification, in whatever order the table holds them |
| `Trace.ForestExists` | cmd/logyctl/commands/trace.go:100-119 | the parent links of events with distinct ids define a finite forest below the roots, whatever cycles lie elsewhere |
| `Trace.ForestNoRepeat` | cmd/logyctl/commands/trace.go:144-202 | its pre-order names each event at most once and is no longer than the event list |
| `Trace.ForestShowsRooted` | cmd/logyctl/commands/trace.go:144-202 | its pre-order shows exactly the events whose parent chain reaches a root, with a prefix of four characters per ancestor |
| `Trace.RootedPlain` | cmd/logyctl/commands/trace.go:186-189 | with at most 10000 children per node the chain condition is the plain one |
| `Trace.KidsInOrder` | cmd/logyctl/commands/trace.go:100-119 | siblings keep the order of the event list and none is left out |
| `Trace.TraceIsDrawn` | cmd/logyctl/commands/trace.go:146-201 | every line has blank space below each ancestor that is a last child and a bar below any other, and its marker says whether it is one itself |
| `TraceWalk.BuildTree` | cmd/logyctl/commands/trace.go:100-119 | roots and children in order; nothing for more than 100000 events |
| `TraceWalk.PushSiblings` | cmd/logyctl/commands/trace.go:190-201 | siblings go on the stack so that the first comes out first, and the stack bound cuts nothing off |
| `TraceWalk.PrintTraceTree` | cmd/logyctl/commands/trace.go:127-203 | the explicit-stack walk prints the recursive pre-order; neither bound cuts anything off |
| `TraceWalk.TraceTask` | cmd/logyctl/commands/trace.go:84-92 | the whole trace: each rooted event once, in pre-order, with its prefix; refused above 10000 roots |
| `Links.Interceptor.SubmitToolCallEvent` | internal/interceptor/server.go:204-239 | a new call is linked to the most recent call of its task |
| `Links.HandleRequests` | internal/interceptor/server.go:204-239 | requests handled one at a time leave every call so linked |
| `Links.TaskCallsFormChain` | internal/interceptor/server.go:225-237 | the calls of a task form one chain from a root, however tasks are interleaved |
| `Links.TasklessUnlinked` | internal/interceptor/server.go:225-237 | a call outside any task has no parent and is no parent |
| `Links.TraceShowsUnbrokenPrefix` | cmd/logyctl/commands/trace.go:111-116 | among any responses and completions, the trace shows a call exactly when it and all earlier calls of its task reached the ledger, indented by its position |
| `Policy.MatchPatternMeaning` | internal/observer/engine.go:188-206 | a pattern matches exactly itself, or names that extend the part before a final star; nothing matches when either is empty |
| `Policy.OperatorsCompare` | internal/observer/engine.go:242-268 | on finite numbers gt, lt, gte and lte hold exactly for x > y, x < y, x >= y and x <= y |
| `Policy.OperatorsAtTheEdges` | internal/observer/engine.go:242-268 | with a NaN none of the four holds; infinities lie beyond all finite numbers |
| `Policy.OperatorsOtherwise` | internal/observer/engine.go:227-274 | a missing key never holds, eq compares the printed value, no comparison holds of what is no number, an unknown operator asks nothing |
| `Policy.NumbersAre` | internal/observer/engine.go:276-292 | doubles and strings that parse are numbers, nothing else is |
| `Policy.CheckConditions` | internal/observer/engine.go:211-274 | true exactly when all conditions hold, within the limit and with parameters present |
| `Policy.RuleMatches` | internal/interceptor/server.go:177-194 | some pattern matches and all conditions hold |
| `Policy.EvaluatePolicy` | internal/interceptor/server.go:153-198 | the lowest-index matching rule decides, none means allow, and a rule over the limits met first is an error |
| `Policy.FirstMatchDecides` | internal/interceptor/server.go:164-198 | with the limits 256, 128 and 64 by name: the first rule with a matching pattern and all conditions decides, to redact if it names fields and to tag otherwise |
| `Policy.AppendKeepsVerdict` | internal/interceptor/server.go:153-198 | appending rules never changes the verdict on a request that a rule already decided |

## Left out

- Bodies of SHA-256, Ed25519, canonical JSON, encoding/json, time formatting and SQLite: replaced by the stated assumptions and by tables.
- Strings that are not valid UTF-8: JSON replaces their bad bytes; event strings come from JSON and are valid.
- Times with years outside 0 to 9999: they do not survive RFC 3339 text; event times come from the clock.
- An insert that succeeds but is reported as failed (RowsAffected error): the driver does not do this.
- Concurrent tool calls of one task racing on the last-event map: `HandleRequests` handles requests one at a time.
- A second Shutdown of the same worker, and the 2^30 bound on batches and ticks: the consumer runs as long as the schedule says.
- Overflow of 64-bit counters other than the latency sum.
- Submit with a nil event, nil receivers, and other nil checks.
- Liveness: that the consumer is eventually scheduled; the wake-up theorem is a safety statement.
- HTTP handling, redaction, policy reload, anchors and their live verification, Prometheus and CLI output, key files, pools and logging: input and output, or easy.
- The risk breakdown and other counts of GetRunStats: only the row count feeds the chain.
- Audit.EditDetected: for an edited first event whose previous hash has not 64 characters, the lexical shape of object texts is an extra hypothesis; the same holds for ChangeDetected and EditedLedgerDetected.
- TaskRows.CompletionsInPlace: assumes that no submitted event has the type task_terminal, which the source gives to completions only; the same holds for CompletionRowsSeparated.
- EndToEnd.DeliveredAndVerified: for the first start of a ledger and one key; restarts and rotations are covered by the theorems about lives.
