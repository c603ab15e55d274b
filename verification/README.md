# Selective capture in HOSE: a verified model

HOSE collects OpenTelemetry data from HOPR nodes and throws nearly all of it away. An operator opens a *debug
session* for a list of peers; from then on every span, metric and log of those peers is copied into the
session's tables until the session is ended. Old sessions are purged later, with their rows. Five parts take
part in this, and they run concurrently: the peer router, the debug-session handlers, the OTLP receivers, the
write buffer, and the cleanup. The project models them and proves what holds of them together.

## How the model is built

**The imperative code is imperative here.** `PeerRouter.Router`, `Database.Store`, `WriteBuffer.Buffer`,
`SessionTracker.Tracker`, `Receivers.Receiver`, `DebugSessions.Api`, `TraceSampler.Sampler` and
`ChannelWatcher.Watcher` are classes with the source's fields and the source's loops. Each method is proved
against a function of the old state or against a predicate over it: the router's map against a relation of
(peer, session) pairs, a transaction's statements against its whole effect, the loops of an export against the
fan-out of its routing units. Attribute lookup is pure in the source and is a set of functions in `Otlp`.

**Concurrency is a state machine.** `Pipeline` has one state for everything the tasks share and for where each
of them stands, and one action per atomic step: the two steps of a create, the two steps of an end, the cleanup,
the start of an export, one routing decision, one `try_send`, one receive, one timer tick, one transaction. Any
action may follow any other as long as its owner stands at that step. A run is a list of actions from the empty
system, and the theorems quantify over all runs. `Invariants` has the inductive invariant; `Capture`,
`Losses`, `LateRows`, `Lifecycle`, `Retention` and `Independence` have the theorems.

**The two views are tied together.** `ExportRuns` and `TurnRuns` show that an export, a turn of the flush loop
and a handler, when nothing interrupts them, are runs of the state machine. `Assembly.System` wires the objects up as
`src/main.rs` does and mirrors them in a state of the machine: each of its methods calls the class method, names the
actions by which it extends the run, and leaves the objects holding exactly what the state at the end of that run
holds. `Interleaving.Shared` does the same for single steps: every atomic call on a shared object is a method of its
own and extends the run by one action, in whatever order the calls of different handlers, exports and the flush loop
come. So what is proved of all runs holds of the objects.

| file | content |
|---|---|
| `Seqs.dfy`, `Types.dfy` | sequence vocabulary; record, decision and identifier types |
| `PeerRouter.dfy` | the inverted index, its relation, and the laws of add and remove |
| `Timestamps.dfy` | stored instants as text, and the proof that their text order is time order |
| `Database.dfy` | the tables, their keys, the four transactions |
| `WriteBuffer.dfy` | the bounded channel, the batching loop, all-or-nothing flushes |
| `SessionTracker.dfy` | merging of observed HOPR sessions |
| `Otlp.dfy`, `Receivers.dfy` | requests, peer extraction, routing units, fan-out; the export loops |
| `DebugSessions.dfy` | the handlers and the cleanup, one at a time |
| `Pipeline.dfy`, `Invariants.dfy` | the concurrent system and what every reachable state satisfies |
| `Capture.dfy`, `Losses.dfy`, `LateRows.dfy`, `Lifecycle.dfy`, `Retention.dfy`, `Independence.dfy` | the theorems over all runs |
| `Registry.dfy` | what a span and a whole trace export leave in the registry of HOPR sessions |
| `ExportRuns.dfy`, `TurnRuns.dfy`, `Assembly.dfy` | the sequential methods as runs, and the program as wired up |
| `Interleaving.dfy` | the shared objects, one atomic call at a time |
| `TraceSampler.dfy`, `ChannelWatcher.dfy` | the rate limiter and the channel diff cache |

## What is assumed

- A session identifier is never reused (they are version-4 UUIDs), and the system starts with an empty database:
  a restart empties the router (`src/main.rs:50`) but not the tables.
- A transaction commits or rolls back as one step. Besides its own constraints, an optional storage fault at any
  of its statements can fail it.
- `buffer_size` is at least 1, because the channel constructor panics on 0. `batch_size` may be 0; it behaves
  like 1, and `WriteBuffer.Limits.BatchBound` says so.
- `to_rfc3339` prints a UTC instant with 0, 3, 6 or 9 fractional digits, the fewest that lose nothing, and the
  offset `+00:00`. chrono is not part of this model. The form is the one of section 5.6 of RFC 3339; section 5.1
  of RFC 3339 promises that text order is time order only for equal numbers of fractional digits.
- The label that overrides `hopr.peer_id` comes from the environment in the source and is a parameter here.

## Where the code and what one expects of it differ

- *An active router is not always a correct one.* An end that fits between the commit of its create
  (`src/api/debug_sessions.rs:26`) and the routing of it (`src/api/debug_sessions.rs:34`) leaves a completed
  session routed for good. `Lifecycle.EndCanOvertakeCreate` gives the run and `Interleaving.OvertakeCreate` makes its
  calls on the objects; `Lifecycle.QuiescentRouter` says of each run whether it has happened, and `Lifecycle.OrderedRouter` that it cannot happen when ends wait for their
  creates.
- *A purge can cost other sessions their records.* A batch with one record of a purged session is discarded
  whole. `Losses.PurgeCostsAnother` is the run in which a session that is still active loses an accepted record
  without any storage fault. `Losses.BystanderLossIff` says for which configurations there is one: exactly those whose
  batches can hold two records, as the 100 of `src/main.rs:57` can. `Losses.LosesNothingIff` says of each run whether
  anything was lost, and `Capture.SafeRunsLoseNothing` and `Capture.UnsafeCleanupCostsABatch` say it of the purge.
- *Rows may be written after a session has ended and been unrouted.* `Losses.RowsAfterTheEnd` is a run, and
  `LateRows.LateRowsIff` says exactly when: at the teardown, a record of the session is still queued, still owed by an
  export, or in a batch whose sessions are all stored. `Capture.BoundedTail` bounds what can still be enqueued.
- The comment at `src/receiver/mod.rs:9-10` says the fallback key is used when the dedicated key is absent. The
  code also falls back when the first attribute with that key is empty or not a string, and the model follows it:
  `Otlp.UnusableKeyFallsBack` has the inputs, and `Otlp.PeerIdMeaning` the exact rule.

## Model

| member | source | states |
|---|---|---|
| PeerRouter.RelationDeterminesIndex | src/peer_router.rs:14-15 | An index without empty sets is determined by its claim relation, so the two views carry the same information. |
| PeerRouter.Router.constructor | src/peer_router.rs:19-23 | The router starts with no claim. |
| PeerRouter.Router.AddSession | src/peer_router.rs:26-30 | Afterwards the index stands for the old claims plus the session's claim on each listed peer, and holds no empty set. |
| PeerRouter.Router.RemoveSession | src/peer_router.rs:39-44 | Afterwards the index stands for the old claims without the session's; peers left without a claim are gone from the map. |
| PeerRouter.Router.Route | src/peer_router.rs:49-57 | Discard exactly when nobody claims the peer; otherwise the claiming sessions, once each, in any order. |
| PeerRouter.Router.HasRetainedPeers | src/peer_router.rs:60-62 | True exactly when some peer has a claiming session, although only the emptiness of the map is looked at. |
| PeerRouter.RemoveUndoesAdd | src/peer_router.rs:26-46 | Adding and then removing a session that claimed nothing restores the very same map. |
| PeerRouter.DifferentSessionsCommute | src/peer_router.rs:26-46 | Adds and removes of different sessions commute in every combination: both orders leave the very same map. |
| Timestamps.DigitsOrder | src/db/debug_sessions.rs:117 | Fixed-width decimals are ordered as text exactly as their numbers are. |
| Timestamps.FractionOrder | src/db/debug_sessions.rs:117 | Fraction plus offset is ordered as text exactly as the nanoseconds are, whatever two digit counts meet. |
| Timestamps.TextLessMeaning | src/db/debug_sessions.rs:133 | One text is smaller exactly when it is so at the first place where the two differ, or ends first. |
| Timestamps.TextForm | src/db/debug_sessions.rs:117 | The stored text is the year, month and day with their separators, then the time. |
| Timestamps.TimeForm | src/db/debug_sessions.rs:117 | The time is hour, minute and second with their separators, then the fraction and "+00:00". |
| Timestamps.FractionForm | src/db/debug_sessions.rs:117 | The fraction is nothing, or a point and 3, 6 or 9 digits, the fewest that lose nothing. |
| Timestamps.DayOrder | src/db/debug_sessions.rs:130 | Day numbers of the Gregorian calendar are ordered as (year, month, day) triples are. |
| Timestamps.DayLater | src/db/debug_sessions.rs:130 | The calendar's next day is 24 hours of 3600 seconds later. |
| Timestamps.TimeLater | src/db/debug_sessions.rs:130 | Hours, minutes and seconds have their lengths in nanoseconds. |
| Timestamps.FourHundredYears | src/db/debug_sessions.rs:130 | 400 years have 146097 days, from any year on. |
| Timestamps.TextOrderIsTimeOrder | src/db/debug_sessions.rs:117-133 | For all valid UTC instants with four-digit years, byte order of the stored texts is chronological order. |
| Database.CreateKeepsForeignKeys | migrations/001_initial_schema.sql:11-15 | A committed create keeps every declared key. |
| Database.PurgeKeepsForeignKeys | migrations/001_initial_schema.sql:12-66 | The delete and its cascades leave no row without its session. |
| Database.InsertKeepsForeignKeys | src/write_buffer.rs:100-173 | A committed batch keeps every declared key and puts each record in the table of its kind. |
| Database.CleanupIsChronological | src/db/debug_sessions.rs:129-139 | The purge deletes a session with a stored end exactly when it is completed and ended more than the retention period ago. |
| Database.StrikesMeaning | src/write_buffer.rs:100-173 | A fault strikes a transaction exactly when it hits one of its statements. |
| Database.Store.CreateDebugSession | src/db/debug_sessions.rs:8-44 | Succeeds exactly when the identifier is new, no peer repeats and no statement faults; then session and peers are stored, otherwise nothing changes. |
| Database.Store.EndDebugSession | src/db/debug_sessions.rs:116-126 | Reports a changed row exactly when the session was stored and active; then it is completed with the given end time. |
| Database.WithoutExpiredIsPurged | migrations/001_initial_schema.sql:12-66 | Deleting the expired sessions one by one, each with its cascades, leaves exactly the rows of the sessions that are kept. |
| Database.Store.DeleteExpiredSessions | src/db/debug_sessions.rs:129-139 | The loop over the session rows deletes the expired completed ones with all their rows, returns how many expired sessions there were, and touches no active session. |
| Database.Store.WriteBatch | src/write_buffer.rs:100-173 | All or nothing: the batch is stored in order by kind exactly when every session in it still exists and nothing faults. |
| WriteBuffer.Buffer.constructor | src/write_buffer.rs:50-59 | The buffer starts open and empty. |
| WriteBuffer.Buffer.TrySend | src/write_buffer.rs:34-46 | Refuses exactly when the channel is closed or full; otherwise appends; keeps conservation and the bounds. |
| WriteBuffer.Buffer.Pop | src/write_buffer.rs:73-74 | The oldest queued record moves to the end of the batch and nothing else changes. |
| WriteBuffer.Buffer.FlushBatch | src/write_buffer.rs:88-98 | One transaction on the whole batch: committed and stored exactly when nothing faults and every session is there, lost otherwise; the batch is cleared either way and logged with its outcome. |
| WriteBuffer.Buffer.ReceiveArm | src/write_buffer.rs:73-78 | The whole new state: the oldest queued record moves to the end of the batch, and the transaction runs exactly when the batch has reached its size, with the outcome its fault and the tables determine. |
| WriteBuffer.Buffer.TickArm | src/write_buffer.rs:79-83 | The whole new state: a nonempty batch gets its transaction whatever its size, and the queue is left alone. |
| WriteBuffer.Buffer.FlushLoop | src/write_buffer.rs:61-86 | The state after any script of arrivals and ready arms is the fold of its turns; accepted grew by exactly the arrivals that found room; each flush has its cause and the tables are the committed flushes' work. |
| WriteBuffer.AcceptedAreAdmitted | src/write_buffer.rs:34-85 | Which arrivals are taken depends on counting arrivals and receives alone, never on batches, faults or tables; what is taken ends up flushed, batched or queued, in order. |
| WriteBuffer.FlushesHaveCauses | src/write_buffer.rs:71-98 | Over any script each flush is the transaction of one of its turns, lost exactly to that turn's fault or to a missing session; the receive arm flushes full batches only. |
| WriteBuffer.Buffer.ProductiveTurn | src/write_buffer.rs:71-85 | One turn with something to do, of the chosen arm, makes (queue, batch) smaller. |
| WriteBuffer.Buffer.Drain | src/write_buffer.rs:71-85 | With no new sends the loop ends with queue and batch empty and everything accepted flushed; the state is the fold of the turns it took, the i-th with the i-th fault, so records are lost only to those faults or to missing sessions. |
| WriteBuffer.AllCommitted | src/write_buffer.rs:88-98 | With no flush lost the committed records are all flushed ones, in order. |
| WriteBuffer.ReplayConcat | src/write_buffer.rs:100-173 | The tables after a log of flushes do not depend on where the log is cut. |
| SessionTracker.Tracker.UpdateSession | src/session_tracker.rs:23-63 | One update merges its participant into the session's list in place. |
| SessionTracker.Tracker.GetSessionPeers | src/session_tracker.rs:79-86 | The participants' peers, position by position, or none for an unknown session. |
| SessionTracker.MergeSummarises | src/session_tracker.rs:36-45 | Merging keeps the list a summary of the log: each mentioned peer once, in order of first mention, with its latest role. |
| SessionTracker.LogMeaning | src/session_tracker.rs:34-53 | After any log, a session is known exactly when mentioned, with its first protocol, last hop count and such a summary. |
| SessionTracker.ResolvedPeersCanBeStored | src/session_tracker.rs:79-86 | Peers resolved from the tracker never violate the (session, peer) key of a new debug session. |
| Otlp.StringValMeaning | src/receiver/mod.rs:16-25 | The lookup yields a string exactly when the first attribute with the key carries it and it is nonempty. |
| Otlp.PeerIdMeaning | src/receiver/mod.rs:13-32 | For any resource, also an absent one: it names a peer if and only if it is there and its first value under the key, or else its first "service.instance.id", is that nonempty string. |
| Otlp.UnusableKeyFallsBack | src/receiver/mod.rs:20-31 | An empty or non-string first value under the key makes the service instance id the peer, whatever follows. |
| Otlp.SpanUnitsAreSingle | src/receiver/trace.rs:77-119 | A routing unit of spans holds one span. |
| Otlp.UnitsCoverRequest | src/receiver/trace.rs:61-189 | The units carry, in request order and once each, exactly the items of the resources that name a peer; every such span has a unit, and so a routing decision, of its own. |
| Otlp.UnitsCarryNamed | src/receiver/logs.rs:29-82 | An item is routed if and only if it lies below a resource that is there and names its peer, and under the kind of its request. |
| Otlp.UnitsConcat | src/receiver/trace.rs:61-79 | The units of a request are those of its resources, one resource after another. |
| Otlp.UnitsOfOneResource | src/receiver/metrics.rs:44-71 | One resource that names a peer gives a unit for every span in order, or one unit with all its records in order. |
| Otlp.FanoutExactly | src/receiver/trace.rs:168-184 | The send attempts of a unit are exactly its items for each named session, with its peer and kind and the item's own payload. |
| Otlp.FanoutForSession | src/receiver/trace.rs:158-186 | A session's share of an export's send attempts is the items of the units whose decision named it, in request order, once each, whatever order the session sets were iterated in. |
| Otlp.FanoutMembers | src/receiver/metrics.rs:54-71 | Every send attempt carries a named session and the unit's own peer and kind; there is one per item and session. |
| Receivers.Receiver.SendCopies | src/receiver/trace.rs:177-184 | Offers one item to every session named; refused copies are dropped without a retry. |
| Receivers.Receiver.ExportSpan | src/receiver/trace.rs:78-187 | One span: the registry update it calls for, then a fresh decision, then its copies. |
| Registry.StringAttrMeaning | src/receiver/trace.rs:195-208 | The string attribute is that of the first attribute with the key and any value, empty if that is no string; there is none exactly when no attribute with the key has a value. |
| Registry.IntAttrMeaning | src/receiver/trace.rs:210-223 | The integer attribute is the first integer under the key, whatever precedes it. |
| Registry.SpanContributes | src/receiver/trace.rs:80-112 | A span updates the registry exactly when its first valued session id is a nonempty string; role entry, exit or relay, protocol, and hop count modulo 2^32 are those the span gives, written out attribute by attribute. |
| Registry.KnownAfterExport | src/receiver/trace.rs:77-112 | An export registers a session exactly when some span below a resource that names a peer mentions it. |
| Registry.RoleAfterExport | src/receiver/trace.rs:98-112 | From an empty registry, a peer has the role given by the last span of the request that mentions the session below a resource naming the peer. |
| Receivers.Receiver.ExportTraces | src/receiver/trace.rs:54-192 | The channel takes exactly the fan-out of the request's units as far as it has room, and the registry receives exactly the spans' updates in order. |
| Receivers.Receiver.ExportRecords | src/receiver/metrics.rs:25-77 | The same for metrics and logs, with one decision for all records of a resource. |
| Receivers.Receiver.ExportResource | src/receiver/metrics.rs:44-73 | One resource: one decision, and on retain the copies of all its records for that decision. |
| Receivers.Receiver.SendResource | src/receiver/logs.rs:52-81 | The records of one routed resource, in order, each to all sessions of the one decision. |
| DebugSessions.Api.CreateSession | src/api/debug_sessions.rs:22-48 | Router and table agree before and after; a failed create changes neither. |
| DebugSessions.Api.EndSession | src/api/debug_sessions.rs:87-120 | The reply for each case; only a successful end touches the router, and router and table agree again. |
| DebugSessions.Api.CleanUp | src/cleanup.rs:11-32 | A purge keeps router and table in agreement without touching the router. |
| DebugSessions.CreateKeepsInverse | src/api/debug_sessions.rs:26-34 | Storing and routing the same peers keeps the router the inverse of the active sessions. |
| DebugSessions.EndKeepsInverse | src/api/debug_sessions.rs:95-111 | Completing and unrouting a session keeps it so. |
| DebugSessions.PurgeKeepsInverse | src/db/debug_sessions.rs:133 | Purging keeps it so, since no active session is purged. |
| Invariants.TablesKept | migrations/001_initial_schema.sql:2-73 | Every step keeps the declared keys, and the stored peers of a session are those its create was given. |
| Invariants.LifecycleKept | src/db/debug_sessions.rs:116-139 | Every step keeps rows, recorded ends, and ends still to be unrouted in agreement. |
| Invariants.RouterKept | src/api/debug_sessions.rs:26-34 | Every step keeps the routed pairs those of the sessions whose last router step was their add. |
| Invariants.RecordsKept | src/receiver/trace.rs:177-183 | Every record offered or still due is for a session created with the record's peer. |
| Invariants.ConservationKept | src/write_buffer.rs:34-98 | Every step keeps accepted equal to flushed, then batch, then queue. |
| Invariants.RowsKept | src/write_buffer.rs:103-171 | Every step keeps each table equal to the committed records of that kind and of stored sessions, in order. |
| Invariants.TasksKept | src/receiver/trace.rs:61-189 | Every step keeps each export's attempts plus due sends equal to the fan-out of its decisions so far. |
| Invariants.ReachableInv | src/write_buffer.rs:61-98 | All of the above in every state of every interleaving. |
| Capture.UndeclaredForeignKey | migrations/001_initial_schema.sql:11-24 | Every telemetry row's (session, peer) is a stored peer row, a key the schema does not declare. |
| Capture.Conservation | src/write_buffer.rs:34-98 | Accepted records are, as a sequence, all flushed batches, then the batch, then the queue: nothing duplicated, reordered or dropped. |
| Capture.RowsAreCommittedHistory | src/write_buffer.rs:103-171 | A stored session's rows of a kind are exactly its committed records in order; an absent session has none, despite deletions. |
| Capture.TablesByName | src/write_buffer.rs:109-167 | The span, metric and log tables each hold exactly the committed records of that kind of stored sessions. |
| Capture.LossAtOneFlush | src/write_buffer.rs:88-98 | A flush fails if and only if storage faults or some record's session was created and has since been deleted. |
| Capture.SafeRunsLoseNothing | src/db/debug_sessions.rs:133 | If no purge deletes a session that something in flight could still write for, committed, batch and queue together are the accepted records. |
| Capture.DeletedNeverCommits | src/db/debug_sessions.rs:133 | After a deletion no later flush that holds a record of that session is ever committed. |
| Capture.InFlightGetsFlushed | src/write_buffer.rs:71-98 | By the time the buffer has drained, everything accepted that was not yet flushed at an earlier state is in a flush finished since. |
| Capture.UnsafeCleanupCostsABatch | src/write_buffer.rs:88-98 | The converse: once a session is gone, each of its records that is not yet flushed and is accepted in the end dooms the batch that holds it, whether it was queued, batched, still to be sent, or brought in by a leftover route. |
| Capture.DecisionMeaning | src/peer_router.rs:49-57 | In every reachable state a decision names exactly the routed sessions created for the peer. |
| Capture.TasksAreRequests | src/receiver/trace.rs:54-192 | The exports of a run are its requests in the order they start, each with the units of its request and the decisions the run made for it. |
| Capture.ExactCapture | src/receiver/trace.rs:61-186 | With nothing refused, nothing lost and the buffer drained, a stored session's rows are its accepted records in enqueue order, and they interleave exactly what the decisions of the run's requests owed it, each export in request order and each item once. |
| Capture.TailIsFixed | src/peer_router.rs:39-46 | After teardown no run adds to what an export has sent and still owes to the session, over all kinds together. |
| Capture.BoundedTail | src/receiver/trace.rs:119-184 | After teardown, what an export sends to the session in any run plus what it then still owes is exactly what it owed at the teardown, and that is at most one copy of each item left of the unit it had routed: one span, or the rest of one resource. |
| Losses.LosesNothingIff | src/write_buffer.rs:88-98 | In a run without storage faults, committed, batch and queue are all that was accepted if and only if no record was flushed after its session's purge. |
| Losses.LossBlamesAPurge | src/write_buffer.rs:88-98 | In every reachable state, each flush lost without a fault holds a record of a session that has been purged. |
| Losses.BystanderLossIff | src/db/debug_sessions.rs:133 | A session that is still stored can lose a record without a fault, in some run, if and only if a batch can hold two records. |
| Losses.SingleRecordsSpareOthers | src/write_buffer.rs:75-77 | With batches of one record no run costs a stored session anything. |
| Losses.PurgeCostsAnother | src/db/debug_sessions.rs:129-139 | The run in which the purge of one session costs another, still active one its accepted record. |
| Losses.RowsAfterTheEnd | src/api/debug_sessions.rs:95-111 | The run in which a row is written after its session has ended and been unrouted. |
| LateRows.LateRowsIff | src/write_buffer.rs:71-98 | Once a stored session has been torn down, some run writes further rows of a kind for it if and only if, at that point, such a record is queued, owed by an export, or in a batch that can be stored. |
| LateRows.NoLateRows | src/api/debug_sessions.rs:95-111 | If nothing waits at the teardown, every run leaves the session's rows exactly as they were, or purges them. |
| LateRows.WaitingGetsWritten | src/write_buffer.rs:71-98 | If something waits, turns of the flush loop and the sends already owed suffice to write it. |
| Lifecycle.RouterFollowsTable | src/api/debug_sessions.rs:26-34 | In every reachable state, exactly which pairs are routed; an active session whose create returned is routed for all its peers. |
| Lifecycle.OvertakenInRun | src/api/debug_sessions.rs:95-111 | A session counts as overtaken exactly when the run has its router removal with no router add before it. |
| Lifecycle.QuiescentRouter | src/api/debug_sessions.rs:95-111 | With no request in flight the router is the inverse of the active sessions if and only if the run unrouted no session with peers before routing it. |
| Lifecycle.OrderedRunsNeverOvertake | src/api/debug_sessions.rs:26-34 | If ends wait for their creates, no session is ever unrouted before it was routed. |
| Lifecycle.OrderedRouter | src/api/debug_sessions.rs:95-111 | Then the router is the inverse of the active sessions whenever no request is in flight. |
| Lifecycle.EndCanOvertakeCreate | src/api/debug_sessions.rs:26-34 | The run that leaves a completed session routed, for every identifier and peer. |
| Lifecycle.StepEvolves | src/db/debug_sessions.rs:17-34 | Every step moves a session only forward through absent, active, completed, deleted; no active session is deleted. |
| Lifecycle.RunsEvolve | src/db/debug_sessions.rs:116-139 | The same over whole runs: a completed row, with its end time, never changes until it is deleted, and never returns. |
| Lifecycle.EndTimeIffCompleted | src/db/debug_sessions.rs:116-126 | A session has an end time exactly when it is completed, and only completed sessions have been deleted. |
| Retention.EndTimeIsTheEnds | src/db/debug_sessions.rs:116-126 | In every reachable state a completed row carries the time that the end which completed it was issued with. |
| Retention.EndedOnce | src/db/debug_sessions.rs:119 | In any run at most one end completes a session. |
| Retention.CleanupFollowsTheEnd | src/db/debug_sessions.rs:130-136 | A cleanup without a fault deletes a stored session if and only if the end that completed it was issued with a time before the cutoff. |
| Retention.RetainedFromTheEnd | src/db/debug_sessions.rs:129-139 | So retention is measured from the end action: the session goes exactly when more than the retention period has passed since then. |
| Lifecycle.OneEndSucceeds | src/db/debug_sessions.rs:119-125 | Once an end has succeeded no later end can, in any run; the session is in the log of ends, which has no duplicates. |
| Lifecycle.FailedCreateChangesNothing | src/api/debug_sessions.rs:26-31 | A create fails exactly on a repeated peer or a fault, and can then be erased from any run without changing where the run ends. |
| Lifecycle.InFlightBound | src/write_buffer.rs:56-97 | Queue and transactions stay within their sizes; between turns at most buffer size + max(batch size, 1) - 1 records are unflushed. |
| Lifecycle.BufferProgress | src/write_buffer.rs:71-97 | While anything is unflushed some turn is productive, even with only the timer left, and every productive turn shrinks the measure. |
| Lifecycle.CanDrain | src/write_buffer.rs:71-97 | Every reachable state can be drained by turns of the flush loop alone. |
| Independence.StepCommutes | src/receiver/trace.rs:158-185 | Each step, projected onto one session, is what its erased form does to the projected state. |
| Independence.ErasedRunProjects | src/write_buffer.rs:72-84 | The erased run is a run, and ends in the projection of the original final state, although batches are cut elsewhere. |
| Independence.ErasedRunKeepsEssentials | src/receiver/trace.rs:54-192 | Erasing keeps every request, every cleanup and every create and end of the one session, in order. |
| Independence.SessionIndependence | src/peer_router.rs:26-57 | With nothing refused or lost, a session's rows are those of a run in which no other session was created or ended, with the same requests, cleanups, and creates and ends of that session. |
| ExportRuns.OffersRun | src/receiver/trace.rs:177-184 | Consecutive sends of one export fill the channel's free slots in order and refuse the rest. |
| ExportRuns.ScriptRun | src/receiver/trace.rs:77-188 | Unit after unit, an uninterrupted export sends the fan-out of its decisions. |
| ExportRuns.AloneExportIsARun | src/receiver/trace.rs:54-192 | The effect promised by the receiver methods is that of a run of the concurrent system. |
| TurnRuns.ReceiveTurnIsARun | src/write_buffer.rs:73-78 | A receive, and a transaction if that filled the batch, lead to the same buffer, log and tables as the receive arm. |
| TurnRuns.TickTurnIsARun | src/write_buffer.rs:79-83 | A tick, and a transaction if something is batched, lead to the same buffer, log and tables as the tick arm. |
| TurnRuns.CreateIsARun | src/api/debug_sessions.rs:26-34 | The create's steps lead to the tables and routes that the create handler promises, and change nothing else. |
| TurnRuns.EndIsARun | src/api/debug_sessions.rs:95-111 | The end's steps lead to the tables and routes that the end handler promises, and change nothing else. |
| Assembly.System.constructor | src/main.rs:45-58 | The program starts as the machine does: wired up, with an empty run. |
| Assembly.System.CreateSession | src/api/debug_sessions.rs:22-48 | The handler, on the shared objects, extends the run by the create and, if it replies success, by its router step; the objects mirror the state that run ends in. |
| Assembly.System.EndSession | src/api/debug_sessions.rs:87-120 | The same for the end; a malformed identifier extends nothing. |
| Assembly.System.CleanUp | src/cleanup.rs:11-32 | The same for one round of the cleanup. |
| Assembly.System.ExportTraces | src/receiver/trace.rs:54-192 | The nested loops extend the run by the request's start and then, unit by unit, its decision and its sends. |
| Assembly.System.ExportMetrics | src/receiver/metrics.rs:25-77 | The same for metrics. |
| Assembly.System.ExportLogs | src/receiver/logs.rs:23-87 | The same for logs. |
| Assembly.System.ReceiveArm | src/write_buffer.rs:73-78 | The receive arm extends the run by a receive and, if the batch is full, its transaction. |
| Assembly.System.TickArm | src/write_buffer.rs:79-83 | The tick arm extends the run by a tick and, if anything is batched, its transaction. |
| Assembly.System.RowsHaveTheirPeers | migrations/001_initial_schema.sql:11-24 | Hence the store object itself never holds a telemetry row without its stored (session, peer) pair. |
| Interleaving.Shared.CommitCreate | src/db/debug_sessions.rs:8-44 | The database step of a create, between any two other calls, extends the run by that one action. |
| Interleaving.Shared.RouteCreate | src/api/debug_sessions.rs:34 | The router step of a create, likewise, with the peers the handler still holds. |
| Interleaving.Shared.CommitEnd | src/db/debug_sessions.rs:116-126 | The database step of an end, with its reply. |
| Interleaving.Shared.UnrouteEnd | src/api/debug_sessions.rs:111 | The router step of an end. |
| Interleaving.Shared.Purge | src/db/debug_sessions.rs:129-139 | One purge, also between the steps of others. |
| Interleaving.Shared.Decide | src/receiver/trace.rs:119 | One routing decision of one export. |
| Interleaving.Shared.Offer | src/receiver/trace.rs:177-183 | One send of one export, also while a transaction is due; taken exactly when there is room. |
| Interleaving.Shared.Pop | src/write_buffer.rs:73-75 | The receive arm up to its transaction, and whether that is due. |
| Interleaving.Shared.TimerTick | src/write_buffer.rs:79-80 | The tick arm up to its transaction, and whether that is due. |
| Interleaving.Shared.Transact | src/write_buffer.rs:88-98 | The transaction that is due. |
| Interleaving.Shared.RowsHaveTheirPeers | migrations/001_initial_schema.sql:11-24 | However the calls interleave, the store object never holds a telemetry row without its stored (session, peer) pair. |
| Interleaving.OvertakeCreate | src/api/debug_sessions.rs:26-34 | The four calls after which the store has the session completed and the router still routes it, with nothing in flight. |
| TraceSampler.Sampler.ShouldSample | src/receiver/trace.rs:36-49 | A call samples exactly when the history of calls makes it a greedy pick. |
| TraceSampler.PicksAreSpaced | src/receiver/trace.rs:43-46 | Each sample is checked at least one second, 10^9 nanoseconds, after the previous one was stored. |
| TraceSampler.WindowBound | src/receiver/trace.rs:20-49 | With a monotone clock, at most floor(length in seconds) + 1 samples are stored within any window. |
| TraceSampler.GreedyStaysAhead | src/receiver/trace.rs:36-49 | The m-th sample comes no later than the m-th of any other choice that keeps the gap. |
| TraceSampler.GreedyIsOptimal | src/receiver/trace.rs:36-49 | No choice of calls that keeps the gap yields more samples. |
| ChannelWatcher.Watcher.Poll | src/blokli/subscriptions.rs:34-67 | A round over the watched keys observes the channels of the successful queries in order; the cache and the events agree with all observations so far. |
| ChannelWatcher.ObservedParts | src/blokli/subscriptions.rs:37-40 | What a round observes is the sum over its queries: a successful one contributes what it returned, a failed one nothing. |
| ChannelWatcher.ObservedAt | src/blokli/subscriptions.rs:37-40 | Every successful query's channels are observed, after those of the earlier keys and before those of the later ones. |
| ChannelWatcher.FailuresAreInvisible | src/blokli/subscriptions.rs:62-64 | Leaving the failed queries out of a round changes nothing. |
| ChannelWatcher.ChangesMeaning | src/blokli/subscriptions.rs:41-48 | An observation counts as a change if and only if the channel was not seen before, or was last seen with another status, balance or ticket index. |
| ChannelWatcher.ChangePointsMeaning | src/blokli/subscriptions.rs:41-59 | The change points are exactly the positions of such observations. |
| ChannelWatcher.Watcher.Observe | src/blokli/subscriptions.rs:41-59 | One comparison with the cache emits an event with the channel's identifier, source, destination, status and balance, exactly when the observation is a change. |
| ChannelWatcher.ReplayRebuilds | src/blokli/subscriptions.rs:50-58 | The last event of each channel carries exactly the status and balance last observed, for every channel ever seen. |
| ChannelWatcher.EventsAreChangePoints | src/blokli/subscriptions.rs:41-59 | There is one event for each change point, in order, carrying the channel as it was seen there, field by field. |
| ChannelWatcher.SuccessiveEventsDiffer | src/blokli/subscriptions.rs:43-47 | Two successive events of a channel come from observations that differ in status, balance or ticket index. |

## Left out

- HTTP and gRPC serving, server-sent events, template pages and the browser code: input and output only.
- Locks, pools and the scheduler: a method that holds its lock throughout is one step, and any order of steps is
  allowed. Fairness is not modelled; progress is stated as the existence and the measure of productive turns.
- Interference inside class methods: the classes describe one call at a time, and interleaving is in `Pipeline`.
- Cancellation of a handler by a disconnecting client, and process restart.
- SQLite itself: a transaction is one atomic step; write-ahead logging, busy timeouts and partial reads are not
  described. A storage fault stands for every error that is not a constraint.
- Columns of the telemetry rows other than session, peer, kind and payload: identifiers are fresh UUIDs and every
  NOT NULL column is bound, so no insert fails on them.
- The session's name and creation time, the queries that list or show sessions, and pagination.
- `first_seen`, `last_seen` and the sorted listing of the session tracker: the clock is read before the lock is
  taken (`src/session_tracker.rs:30-31`), so `last_seen` is not monotone.
- The peer tracker and the broadcast of events to browsers; refused broadcasts are ignored by the source too.
- The sampling call inside the trace export: it changes nothing that the export reads, and `TraceSampler` has it
  on its own.
- The building of JSON payloads and hexadecimal identifiers: a payload is an opaque value.
- The identity bridge, the Blokli client and its channel queries, and configuration merging. Poll results are
  arbitrary inputs.
- Timestamps.TextOrderIsTimeOrder: does not cover years beyond four digits, whose texts have another width, or
  leap-second readings.
- Database.CleanupIsChronological: does not model overflow of the retention period in `src/db/debug_sessions.rs:130`.
- Closing of the channel inside `Pipeline` and `Assembly`: the receiver lives as long as the process, so sends find it
  open. `WriteBuffer.Buffer.Close` and `WriteBuffer.Buffer.TrySend` have the closed case.
- The session registry inside `Assembly`: an export updates it there too, but no step of the machine reads it;
  `Receivers.Receiver.ExportTraces` says what becomes of it.
