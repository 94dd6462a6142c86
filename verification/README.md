# pg_grpc: a verified model of the asynchronous call queue

pg_grpc lets SQL make gRPC calls. `grpc_call` blocks until the server has replied. `grpc_call_async`
inserts a row into `grpc.call_queue` and returns its id; when the transaction commits, a callback
raises a flag in shared memory and sets the latch of one background worker. The worker claims the
flag, drains the queue in batches (delete the rows, run their calls concurrently, insert the results,
delete results older than the TTL, commit), and goes back to sleep. `grpc_call_result` looks an id up.

This project models that machinery and proves what it promises over all interleavings, and, where a
promise does not hold of the code, exactly when it does.

| Files | What they hold |
|---|---|
| `Protocol.dfy` | The queue as a state machine: backends, commit callback, worker, tables, shared memory |
| `WakeUp.dfy`, `Ledger.dfy`, `Retention.dfy`, `Starvation.dfy`, `Progress.dfy`, `OneCall.dfy`, `LookupRace.dfy` | Properties of every run of it, and runs that break a promise |
| `Queue.dfy`, `JoinLoop.dfy`, `Worker.dfy`, `WorkerLoop.dfy` | The tables and the worker's loops as imperative code |
| `Blocks.dfy` | How a drain cuts the queue into batches |
| `DrainRun.dfy` | Which results a whole drain leaves, and that it is a run of the protocol |
| `Session.dfy`, `SessionRuns.dfy` | The guard and the commit callback of one backend, the shared memory cell, and that these are the protocol's client steps |
| `ChannelCache.dfy` | The channel cache under interleaved tasks |
| `ProtoRegistry.dfy`, `WorkerRegistry.dfy` | Staging, compilation and registry in a backend; the registry in the worker |
| `CallAsync.dfy`, `Options.dfy`, `MethodPath.dfy`, `Metadata.dfy` | One call on its synchronous and its asynchronous path, and what it is parsed from |
| `Replies.dfy` | What one call returns, said of its input alone |
| `AsyncReply.dfy` | From the enqueue to the lookup: the two paths put together |
| `Prelude.dfy`, `Json.dfy`, `Text.dfy`, `CallTypes.dfy`, `Batches.dfy` | Shared types and functions |

`dafny verify dfyconfig.toml` checks everything.

## What is taken from the surroundings

The behaviour of PostgreSQL, pgrx, tokio and the libraries is not in this repository. It enters the
model as follows.

- Committed rows are visible before the commit callback runs (`Commit` and `SwapGuard` are two steps).
- Sequence values are never handed out twice, also after a rollback (`Enqueue` only counts up).
- The open worker transaction's writes are invisible to others until its commit and gone when the
  worker dies (`Dequeue` and `Persist` change only the worker's own state; `CommitBatch` publishes).
- `wait_latch` resets the latch before it returns (`Wait`).
- Three points are fields of `Protocol.Environment`, so that theorems say what depends on them: whether
  a worker's process latch is already set when it publishes the pointer to it, whether asking for a
  received SIGTERM leaves it received, and whether nothing but the wait of the outer loop clears the
  worker's latch. (PostgreSQL's own waits, such as that for a row lock, use and reset the same latch.)
- The worker's transactions are READ COMMITTED: the dequeue reads what is committed when it begins,
  not the snapshot that was pushed when the transaction opened.
- `lookup` reads one snapshot in `Observe`; two snapshots are treated separately in `LookupRace.dfy`.
- `now()` is the start of the transaction, and the clock does not run backwards.
- tokio's tasks end in any order and any of them may panic; what becomes of each row's task is a
  parameter (`fates`), of which the join loop only uses that a result carries its row's id.
  `AsyncReply.TasksOf` makes it `call_async_row`, for which that is proved.
- What a server answers, what a compiler says and which addresses, names and header texts the
  libraries accept are parameters (`World`, the `Op` and `Step` arguments, `Rules`). A world answers
  both paths alike.
- Whether a cached channel can still be used is part of what a process remembers (`CallAsync.Memory`).
  A backend builds and drops a runtime for every call and keeps the channel (`src/call.rs:28-32`,
  `src/channel_cache.rs:14-15`), while the worker keeps one runtime (`src/worker.rs:36`); what that does
  to a channel is up to the client library. One that cannot be used fails reflection, or fails the
  call before the request goes out (`src/call.rs:206-208`); a usable one carries a call like a fresh one.
- A descriptor pool has one service of each name.

## Where the code and its comments or documentation disagree

The model follows the code. Each line names the lemma that says exactly when the promise holds.

- A committed row can be slept over: after a restart with rows left in the queue, when a latch is
  not set at publication, when a SIGTERM that broke the drain is forgotten, or when a statement of
  the worker's transaction waits for a lock on the latch that a committing backend has just set
  (`WakeUp.NeverLostExactlyWhen`). The comment at `src/worker.rs:10-11` speaks of a timeout of one
  second; the wait at `src/worker.rs:41` has none.
- A transaction that rolls back a savepoint with everything it enqueued still wakes the worker
  (`Session.SignalsForRowsExactlyWhen`, `SessionRuns.SavepointWakes`), against `src/lib.rs:103-104`.
- The TTL of a result runs from the start of the worker transaction, not from when the result is
  stored as `website/docs/guides/async-calls.md:139` says (`Retention.KeptSinceStoredExactlyWhen`,
  `Retention.DeletedTooEarly`).
  With a negative TTL a transaction deletes its own results
  (`Retention.OwnResultsSurviveExactlyWhen`, `Retention.OwnResultDeleted`).
- Enqueueing refuses timeouts over 2147483647 that `grpc_call` accepts, against `src/lib.rs:60` and
  `website/docs/reference.md:84` (`CallAsync.SameRulesExactlyWhen`, `CallAsync.LongTimeoutOnlySync`).
- Metadata is not looked at when a call is enqueued. A call with metadata that is neither null nor an
  object is queued, and can only fail (`CallAsync.AcceptedExactlyWhen`, `CallAsync.BadMetadataOnlyFails`,
  `CallAsync.StringMetadataQueued`).
- The registry and the channel cache are one per process. A proto that a user staged is unknown to the
  worker, and a channel that one process has cached the other may fail to open, or to use
  (`CallAsync.AgreeExactlyWhen`, `CallAsync.StagedProtoUnseen`).
- In the worker, reflection does not only fill missing keys: of two tasks that miss the same
  service, the later insert replaces the earlier (`WorkerRegistry.OverwritesExactlyWhen`).

## Model

| member | source | states |
|---|---|---|
| WakeUp.NeverLostExactlyWhen | src/worker.rs:9-78 | for every server and every state of its tables at start: no run ever has the worker asleep over committed rows with nobody about to wake it, if and only if the latch is set at publication, SIGTERM stays, only the outer wait clears the latch, and the queue starts empty |
| WakeUp.NoLostWakeUp | src/lib.rs:105-124 | on a server with these three properties that starts with an empty queue: in every reachable state of any interleaving of backends, worker, crashes and restarts, a worker sleeping over committed rows with its latch unset is still owed a flag store or a SetLatch by some backend |
| WakeUp.OwedWakeUpArrives | src/shmem.rs:18-31 | and that backend's remaining callback steps alone make the worker leave its wait, claim the flag and drain |
| Progress.SleepEnds | src/worker.rs:41-114 | from every reachable state in which the worker sleeps over rows, the callback of one backend and the worker, with nobody else taking a step, reach an empty queue, and every one of the rows then has its result or had it until a cleanup |
| Progress.NeverStuck | src/worker.rs:18-115 | in every reachable state the worker process can take a step, except exactly when it waits and its latch is not set |
| Progress.StepsInOrder | src/worker.rs:18-115 | in each place of the worker only the step that belongs there is possible, and no second worker starts beside it |
| Progress.AnyTime | src/worker.rs:7-14 | time can pass at any point, a worker can be signalled and can die at any point, and wait for a lock at any point of a transaction |
| Progress.AnyBackend | src/lib.rs:44-124 | a backend can enqueue, roll back to a savepoint, commit or abort at any point outside its callback |
| WakeUp.StaysAsleep | src/worker.rs:41 | over any run without a SetLatch, another signal or a death a sleeping worker sleeps on, and the rows it sleeps over stay queued: its wait has no timeout |
| WakeUp.SigtermEndsWait | src/worker.rs:24-41 | in every run in which only the outer wait clears the latch, a waiting worker that has received SIGTERM leaves its wait and exits |
| WakeUp.NoBatchAfterSigterm | src/worker.rs:58-61 | if asking for SIGTERM does not forget it, no run opens another transaction after it before the worker is started again |
| WakeUp.DrainStopsSoundly | src/worker.rs:46-78 | an empty dequeue is possible only if no committed row is there, and rows committed after it have the flag raised or about to be |
| WakeUp.StepKeepsInv | src/worker.rs:22-52 | every single step of any process keeps the invariant over guard, flag, pointer and latch |
| WakeUp.LeftoverRowsSleep | src/worker.rs:41-52 | a server that starts with rows in its queue has a run that sleeps over them, even with the latch set at publication |
| WakeUp.UnsetLatchSleeps | src/worker.rs:26-41 | without a latch set at publication a callback that finds no pointer is lost |
| WakeUp.ForgottenSigtermSleeps | src/worker.rs:58-61 | a SIGTERM that breaks the drain and is then forgotten leaves a claimed wake-up undone |
| WakeUp.ConsumedLatchSleeps | src/worker.rs:69-78 | if a lock wait may clear the latch, the cleanup after an empty dequeue can consume the signal of a call committed meanwhile, and the worker sleeps over it |
| Ledger.Conservation | src/queue.rs:35-104 | over every run each id handed out is in exactly one place (uncommitted, rolled back, queued, one stored result, expired), rows in flight still read as queued, and storing them cannot hit the primary key |
| Ledger.EveryStartConserved | src/async_schema.rs:7-23 | what the theorems about runs assume of a start holds at every start of every database, the first time on a new one and after any number of clean shutdowns |
| Ledger.ConservedForLife | src/async_schema.rs:7-23 | so in the whole life of a database, across restarts, an id is in exactly one place |
| Ledger.CrashReturnsRows | src/worker.rs:58-114 | when the worker dies at any point its rows are queued again and no id has moved |
| Ledger.StepBackward | src/queue.rs:35-116 | nothing appears from nowhere: where an id is after a step is where the step moves it from where it was before |
| Ledger.StepForward | src/queue.rs:35-116 | nothing is lost: the reverse |
| Ledger.ObservedInOrder | src/queue.rs:118-176 | lookups along any run see not found, PENDING, one fixed outcome, not found for ever, in that order; a row in flight reads PENDING |
| Ledger.RolledBackNeverSeen | src/lib.rs:74-98 | a rolled-back enqueue is never visible to anybody at any time |
| LookupRace.AcrossWrongExactlyWhen | src/queue.rs:118-176 | a lookup whose SELECTs read two snapshots answers something true at neither exactly when the call was pending at the first and finished at the second |
| LookupRace.RaceHappens | src/queue.rs:118-176 | on any server that starts with an empty queue, has the latch set at publication and a TTL that is not negative, there is a run in which a finished call so reads as not found |
| Starvation.NoStarvation | src/queue.rs:35-43 | with batches of at least `size` and no crash, at most k / size batches are dequeued before the one that takes a visible row, where k counts what is ahead of it, for any interleaving of later commits |
| Starvation.AheadIsQueuedOrUncommitted | src/queue.rs:36-38 | what is ahead of a row is exactly the smaller ids that are queued and untaken, or still uncommitted |
| Starvation.DequeuePasses | src/worker.rs:69-78 | a batch that passes a visible row over consumes a full batch of smaller ids |
| Retention.Retained | src/queue.rs:106-116 | over any run a stored result stays unchanged until more than the smallest TTL in force has passed since its transaction began |
| Retention.DeletedOnlyAfterTtl | src/queue.rs:106-116 | a result is deleted only by a transaction that began more than the TTL after the storing one |
| Retention.NothingOlderRemains | src/queue.rs:106-116 | after each worker transaction no result older than the TTL at its start remains |
| Retention.ReloadGoverns | src/worker.rs:42-44 | in any run, from one reload to the next a dequeue takes at most the reloaded number of rows, and fewer only if there are no more, and a cleanup goes by the reloaded TTL |
| Retention.OwnResultsSurviveExactlyWhen | src/worker.rs:106-108 | a transaction keeps the results it has just inserted if and only if the TTL is not negative |
| Retention.KeptSinceStoredExactlyWhen | src/async_schema.rs:17-23 | a result is kept for the TTL from the moment it is stored if and only if no time passed between opening and committing its transaction |
| Retention.DeletedTooEarly | src/worker.rs:63-113 | a run that breaks this, for a call that takes any time at all |
| Retention.OwnResultDeleted | src/worker.rs:106-108 | a run in which a result is deleted by the transaction that inserts it, the TTL being negative |
| Worker.RunTransaction | src/worker.rs:63-113 | one transaction takes the batch that is due, stores for each of its rows its own call's outcome, stamped with the start, and then cleans up by the TTL |
| Worker.Drain | src/worker.rs:58-114 | the inner loop ends, with an empty queue, after transactions that each took the due batch, the last of them the only empty one |
| WorkerLoop.Turn | src/worker.rs:46-114 | a turn claims the flag and drains exactly if it was raised, and a drain within the TTL leaves every queued row with its own outcome |
| WorkerLoop.TurnRefines | src/worker.rs:41-115 | that turn is a run of the protocol from after the wait to the next wait, with the same tables and the flag lowered |
| Blocks.DrainCount | src/worker.rs:56-78 | a queue of n rows takes exactly ceil(n / batch) transactions with rows, and one without |
| Blocks.BlocksIncrease | src/queue.rs:35-43 | the transactions take increasing blocks of ids |
| Blocks.BlocksFull | src/queue.rs:36-38 | every block but the last has the full batch size |
| Blocks.EveryRowTaken | src/worker.rs:69-78 | every row that is no longer queued is in one of the blocks |
| Blocks.EmptyAtEnd | src/worker.rs:69-78 | after the empty transaction nothing of the queue is left |
| Blocks.BlocksDetermined | src/queue.rs:35-43 | the queue and the batch size determine how many transactions there are and which rows each of them takes |
| DrainRun.StoredAndKept | src/worker.rs:106-113 | along the later transactions a stored result stays exactly as long as the last cleanup leaves it |
| DrainRun.RowFinished | src/worker.rs:106-113 | the row of each block has its own outcome stored with that transaction's start, if and only if this is within the TTL of the last cleanup |
| DrainRun.OneResultPerRow | src/worker.rs:56-114 | a drain ends with an empty queue and, if it took no longer than the TTL, every row that was queued reads as its own outcome |
| DrainRun.DrainRefines | src/worker.rs:58-114 | what the loop does to the tables, some run of protocol steps does to the state |
| DrainRun.DrainCanRun | src/async_schema.rs:7-23 | in a reachable state no queued row has a result, which is what the drain needs |
| Worker.LookupIsObserve | src/queue.rs:118-176 | `lookup` on the tables reads what the protocol says an observer sees |
| JoinLoop.RunBatch | src/worker.rs:82-104 | for every completion order and every set of panics, tasks whose results carry their own row's id give results with exactly the ids of the rows, each once, each with its own row's outcome |
| JoinLoop.SpawnAll | src/worker.rs:83-89 | the task-id map knows the row of every spawned task |
| JoinLoop.CollectAll | src/worker.rs:90-103 | collecting gives one result per task, also for the panicked ones |
| JoinLoop.CollectOne | src/worker.rs:91-102 | one more collected task keeps the results and the running tasks a partition of the batch |
| Queue.Database.Dequeue | src/queue.rs:35-61 | takes the smallest ids, as many as the batch size or all, each once and as it was queued, and leaves the rest |
| Queue.Database.InsertResults | src/queue.rs:63-104 | the four arrays stay aligned, and the insert goes through exactly when the ids are distinct and new |
| Queue.Database.TtlCleanup | src/queue.rs:106-116 | no result older than the TTL at the transaction's start remains, what is deleted was older, and what remains is as it was |
| Queue.InsertSucceeds | src/queue.rs:89-103 | a batch can be inserted if and only if its ids are distinct and new |
| Queue.StoreThenLookup | src/queue.rs:63-176 | after storing a batch each of its ids has its columns filled by its outcome and reads back as it, and every other id reads as before |
| Queue.LookupWithoutResult | src/queue.rs:151-174 | an id without a result reads as pending if it is queued and as not found otherwise |
| Session.OneSignalPerCommit | src/lib.rs:98-124 | over any history of a backend the guard is down at the start of every transaction, a committed one with any number of enqueues signals once, and no other ever does |
| Session.SignalsForRowsExactlyWhen | src/lib.rs:103-124 | a committed transaction signals for its rows only, if and only if it did not roll back all that it enqueued |
| Session.SavepointSignals | src/lib.rs:98-124 | savepoint, enqueue, rollback to it, commit: nothing is queued and the worker is signalled |
| Session.Client.WakeWorkerOnCommit | src/lib.rs:105-124 | the callback lowers the guard at every end of a transaction, and raises the flag and sets the published latch exactly at a commit with the guard up |
| SessionRuns.CommitRefines | src/lib.rs:109-118 | a commit with the callback after it is a run of the protocol, with the same guard, flag and latch at its end |
| SessionRuns.AbortRefines | src/lib.rs:119-123 | an abort with its callback is the protocol's step |
| SessionRuns.CallsRefine | src/lib.rs:74-98 | any number of calls in a transaction, accepted or refused, is a run of the protocol that nobody else sees |
| SessionRuns.TransactionRefines | src/lib.rs:45-124 | a whole transaction with its callback is a run of the protocol: it makes exactly its new ids visible if it commits and none if not, and raises the flag and sets a published latch exactly if it commits with some call accepted |
| SessionRuns.SavepointWakes | src/lib.rs:98-118 | for every backend that is at rest there is a run in which it enqueues, rolls that back to a savepoint and commits, and raises the flag and sets the latch over an unchanged queue |
| Session.SharedMemory.ClaimWake | src/worker.rs:46-52 | the compare-exchange claims a raised flag and lowers it |
| Session.SharedMemory.OnWorkerExit | src/worker.rs:9-14 | the exit hook leaves a pending wake-up and no pointer |
| ChannelCache.OneChannelPerKey | src/channel_cache.rs:17-43 | any two tasks given a channel for one key, at any times in any interleaving, were given the same one, built from that key's host, scheme and TLS settings |
| ChannelCache.SameChannelExactlyWhen | src/channel_cache.rs:17-42 | in any interleaving, two tasks that were given channels were given the same one if and only if they asked for the same endpoint, up to surrounding blanks, with the same TLS settings |
| ChannelCache.EntriesWereGot | src/channel_cache.rs:37-42 | over any run, every new entry is one that some task connected and was given: failed attempts leave none |
| ChannelCache.EntriesWereDialled | src/channel_cache.rs:36-42 | every entry there ever is was connected successfully by a task that asked for its key: failed attempts leave none |
| ChannelCache.FailedDialFails | src/channel_cache.rs:36-40 | in any interleaving a task whose connect fails has failed for good |
| ChannelCache.InsertGets | src/channel_cache.rs:42 | in any interleaving a task that connected and inserted was given a channel |
| ChannelCache.BeginDecides | src/channel_cache.rs:17-23 | a task that begins on a cached key has the cached channel whatever others do later; one with a bad endpoint has failed; any other goes to connect for its key |
| ChannelCache.NotStuck | src/channel_cache.rs:17-43 | a connect may end either way, an unfinished task always has its next step, and a finished one has none |
| ChannelCache.NoSharing | src/channel_cache.rs:11-12 | no connection is ever held under two keys |
| ChannelCache.StepKeepsInv | src/channel_cache.rs:21-42 | every step keeps each entry as it is, and every answer equal to its entry |
| ChannelCache.Cache.GetOrConnect | src/channel_cache.rs:17-43 | for a task alone: it succeeds if and only if its key is valid and either cached or reachable, a cached key with the stored channel, a new one with a channel built for it; a failure writes nothing |
| ProtoRegistry.EntryStays | src/proto_registry.rs:22-60 | along every sequence of statements an entry stays until its service is compiled again or unregistered; no call replaces it |
| ProtoRegistry.CallsOnlyAdd | src/call.rs:67-84 | calls add reflection entries for missing services only, and none at all with reflection off |
| ProtoRegistry.CompileAllOrNothing | src/lib.rs:235-255 | a failed compile changes neither map; a successful one overrides exactly the compiled services, each as user-staged with its own file's name and the text staged under that name, and empties the staging area |
| ProtoRegistry.StatementsDo | src/lib.rs:203-233 | staging, unstaging and unregistering change the one key they name, as they should, and nothing else; the two statements for everything empty one map and leave the other |
| ProtoRegistry.CallDoes | src/call.rs:67-84 | a call of a registered service gets its pool and changes nothing; of a missing one it gets what was fetched, and records it with its own endpoint, or fails |
| ProtoRegistry.RegisterAllOverrides | src/lib.rs:240-250 | the insert loop writes each compiled service's own entry and no other |
| ProtoRegistry.Process.CompileStaged | src/lib.rs:235-255 | the statement with its loop does that to the two maps |
| ProtoRegistry.Process.StageFile | src/lib.rs:203-223 | a file is staged if and only if neither its name nor its text is blank |
| ProtoRegistry.Process.UnstageFile | src/proto_staging.rs:19-21 | the file is no longer staged, and the answer is whether it was |
| ProtoRegistry.Process.RemoveService | src/proto_registry.rs:54-56 | the service is no longer registered, and the answer is whether it was |
| ProtoRegistry.Process.ClearStaged | src/proto_staging.rs:31-33 | nothing is staged any more |
| ProtoRegistry.Process.ClearRegistry | src/proto_registry.rs:58-60 | nothing is registered any more |
| ProtoRegistry.Process.ResolvePool | src/call.rs:67-84 | after a call that got a pool the registry answers with that pool; entries that were there stay; a failed call, or one with reflection off, changes nothing |
| ProtoRegistry.AnswersStay | src/call.rs:67-84 | every later call of a service gets the pool that the first one got, whatever its options and whatever its server says by then, until the service is compiled or unregistered |
| ProtoRegistry.BackfillWkts | src/proto.rs:140-151 | adds every missing bundled file and no other, never overwrites a file, and changes nothing if all are there |
| WorkerRegistry.OverwritesExactlyWhen | src/call.rs:67-84 | a task that missed overwrites an entry if and only if another inserted that service between its miss and its insert |
| WorkerRegistry.EntryReplaced | src/proto_registry.rs:44-52 | two tasks, one service, two endpoints: the first entry is replaced |
| WorkerRegistry.PresentExactlyWhen | src/proto_registry.rs:44-52 | a service is in the worker's registry if and only if some task of the run inserted it |
| WorkerRegistry.HitResolves | src/call.rs:67-68 | in any interleaving a task that begins while its service is registered is resolved with that pool, and one that misses with reflection off has failed |
| WorkerRegistry.FetchDecides | src/call.rs:69-78 | in any interleaving a task whose fetch fails has failed, and one whose fetch succeeds holds that pool, and is resolved with it once it has inserted it |
| WorkerRegistry.NotStuck | src/call.rs:67-84 | a fetch may be answered in any way, an unfinished task always has its next step, and a finished one has none |
| CallAsync.AgreeExactlyWhen | src/call.rs:65-132 | a queued call and the synchronous call agree in every world if and only if the two processes' registries answer alike for the called service, both or neither have a channel to its endpoint cached, and that channel, if the call gets to use it, is usable in both or neither |
| CallAsync.SameCall | src/call.rs:102-144 | with the same registry and cache the row's result has the row's id and is the synchronous reply, for every accepted input: the stored timeout survives its casts and parsing the stored options again cannot fail |
| Replies.SyncReplies | src/call.rs:32-97 | for every world, memory and input that is not refused outright: the call returns `v` if and only if it is not late, has a usable channel, a pool from the registry or by reflection, is prepared, has acceptable metadata and the server answers `v` to exactly the arguments of the input, defaults included; it fails with an error if and only if this is the error of the first stage that fails; and it times out with its own timeout if and only if it is late |
| Replies.SyncRefusals | src/lib.rs:180-186 | what an input that is refused outright is told: a connection error for its options, else, unless it is late, a proto error for its path or a connection error for its endpoint |
| Replies.RowReplies | src/call.rs:102-144 | the worker records for an accepted row success with `v` under exactly that condition, and otherwise the message of that error or of the timeout |
| CallAsync.RefusedWith | src/lib.rs:52-71 | an input that is refused at enqueue is told about its endpoint first, then its path, then its options |
| CallAsync.CastsWrap | src/call.rs:115-116 | each cast of a timeout keeps the value up to the width of its target and stays in the target's range |
| CallAsync.AcceptedExactlyWhen | src/lib.rs:52-72 | which inputs are accepted into the queue; they differ from those that the synchronous call can complete in some world by two exceptions only: a timeout over 2147483647 is refused, and metadata that is neither null nor an object is accepted |
| CallAsync.SameRulesExactlyWhen | src/lib.rs:52-72 | the two paths accept the same input if and only if both refuse it outright, or its metadata has the right shape exactly if its timeout fits |
| CallAsync.BadMetadataOnlyFails | src/call.rs:219-227 | a row with metadata of the wrong shape ends in an error in every world |
| CallAsync.StringMetadataQueued | src/lib.rs:74-96 | metadata that is a JSON string is queued, and no synchronous call with it can complete |
| CallAsync.LongTimeoutOnlySync | src/lib.rs:68-71 | a timeout of 2147483648 is taken by one path and refused by the other |
| CallAsync.StagedProtoUnseen | src/call.rs:67-83 | no run of the worker ever holds a user-staged entry; and in a world where the worker has or gets a channel and the call is not late, a queued call with reflection off fails as "not found in registry" unless another call has reflected the service in the worker |
| CallAsync.Enqueuer.GrpcCallAsync | src/lib.rs:45-101 | an accepted call takes one id, inserts one row and raises the guard; a refused one leaves no trace |
| Options.Parse | src/options.rs:24-73 | the parser with its loops and early returns computes the specified result |
| Options.ParsesExactly | src/options.rs:24-112 | for every value and every configuration: parsing yields it if and only if the value is null and every field absent, or an object of the five keys each of which reads, by itself, as that field |
| Options.TlsParsed | src/tls.rs:17-62 | for every value and every TLS configuration: parsing yields it if and only if the value is an object of the four keys each of which reads, by itself, as that field, with certificate and key given together |
| Json.GetFinds | src/options.rs:46-66 | the value read for a key is one given for it, and none is read only if none is given |
| Options.ParsedInRange | src/options.rs:77-112 | what was accepted is in range |
| MethodPath.ParseMethodAccepts | src/call.rs:146-159 | accepts a string if and only if it has exactly one slash, with text on both sides |
| MethodPath.ParseThenPrint | src/call.rs:146-159 | a parsed pair is trimmed, non-empty and slash-free, and printing and parsing it gives it again |
| MethodPath.PrintThenParse | src/call.rs:146-159 | every such pair survives printing and parsing |
| MethodPath.ValidateEndpointAccepts | src/endpoint.rs:3-21 | accepts a string if and only if it has text and no slash; validating the result changes nothing |
| Text.WhiteCodePoints | src/call.rs:153-154 | what is trimmed is the twenty-five code points of Unicode White_Space |
| Metadata.ApplyMetadata | src/call.rs:219-252 | the nested loops succeed if and only if every key and every value is acceptable, and then append the wanted headers to those that were there |
| Metadata.WantedExactly | src/call.rs:229-250 | for every list of headers: it is the wanted one if and only if it has, field by field and item by item, one header for each item that is not null, with the key's ASCII capitals made small and a string as it is, anything else as it is written out |
| Metadata.AcceptedExactly | src/call.rs:223-248 | metadata is acceptable if and only if it is absent, null, or an object of whose every field the library accepts the folded key and every text so listed |
| Metadata.HeadersOfObject | src/call.rs:229-250 | for every lower-case key the values are the non-null items of all keys that fold to it, in order, and the number of headers is the number of non-null items |
| Metadata.FlattenPerKey | src/call.rs:229-250 | the same for one key |
| Metadata.FlattenCount | src/call.rs:240-249 | no header is invented or lost |
| AsyncReply.DrainAnswers | src/worker.rs:56-114 | after a drain within the TTL every queued call reads as the synchronous reply to its input, or as panicked, if the processes remember alike |
| AsyncReply.Serve | src/worker.rs:46-114 | the same of the worker's turn with its loops |
| AsyncReply.ReadsAsAnswered | src/worker.rs:56-114 | after a drain within the TTL a queued call reads as `v` if and only if its task did not panic and the server, asked exactly as the input says, answered `v` |

## Left out

- Network transport, TLS handshakes, HTTP/2, the reflection stream and its fallback from v1 to v1alpha (src/proto.rs:11-98): a connect, a fetch and a call are answers of the world.
- Protobuf encoding and decoding, method resolution and the compiler (src/call.rs:161-184, src/proto.rs:100-138): a pool is its services and its files.
- Worker.Drain and WorkerLoop.Turn run without other sessions and without SIGTERM; both, and crashes, are in the protocol, of which they are runs.
- Starvation.NoStarvation: bounds the batches before a row, not the time that they take; a batch is as slow as its slowest call.
- The blocking wait of `grpc_call_result` (src/lib.rs:141-158): its end depends on which snapshot each poll sees.
- That a backend may set a latch that is no longer the worker's: the pointer is read under the lock and used after it; the model only says that such a set reaches no later worker.
- Two-phase commit, rows inserted into the queue by hand, SIGKILL and the truncation of unlogged tables after a server crash.
- What the client library makes of a TLS configuration (src/tls.rs:64-76).
- Text of error messages, apart from the recorded outcomes; GUC registration; a TTL text that is not an interval; how jsonb stores a value.
- The background worker's restart policy: a dead worker may start again at any time, or never.
- The listing functions of the registry and the staging area, which only copy a map.
- Endpoints of reflection entries: the registry is keyed by service alone, so no claim is made that a cached pool fits the endpoint it is used for.
