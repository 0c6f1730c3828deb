# A verified model of the Delta transaction service

The service coordinates commits to Delta Lake tables over gRPC. A client sends a list of actions
and, usually, the version it believes the table has; the service maps the actions, serializes
commits to one table inside one process with a reference-counted lock per table, checks the
version under that lock, and leaves the atomic write to the storage layer. It also streams the
active files of a table, converts per-file statistics between a typed form and the log's JSON,
restricts which tables a client may name, and counts what it serves.

This project models that logic in Dafny and proves what it guarantees.

| module | what it models |
|---|---|
| `TableLocks`, `TableLockProofs` | the lock manager as a machine of atomic steps, and what every interleaving keeps |
| `TableLockManagers` | the same manager as an object updated in place; every call is a step of the machine |
| `LoadThenRemove` | the earlier two-step removal, with the run in which it fails |
| `CommitProtocol`, `CommitSafety` | the commit handler on any number of replicas, with cancellations, late puts and outside writers |
| `SingleWriter` | the same protocol when one process is the only writer and puts finish under their lock |
| `SkippedEntries` | without those assumptions: the only three causes for a commit to land later than right behind the version it expected |
| `CommitRuns`, `CommitRaces` | runs that exist: an uncontended commit, one run for each of those causes, and a lost create race |
| `MissingTables`, `VersionConflicts` | when a request is answered FAILED_PRECONDITION, and when ABORTED because of its expected version |
| `RetryClients`, `RetryBound`, `RetryTermination`, `RetryCompletion`, `RetryWorstCase` | N writers in a read-commit-retry loop: how often they are aborted, how long they run, that they finish, and that the bound is attained |
| `Batching`, `ActiveFileStream` | the file listing: its messages, its loop, and producer, channel, client and commits interleaved |
| `WriterListings` | the listing of a table that N writers have written to |
| `Json`, `Doubles`, `Stats`, `Actions` | statistics, actions and operations on both sides of the wire |
| `Replay` | the active files of a log |
| `Allowlist` | the table allowlist and its configuration value |
| `Metrics` | the metrics layer |

## How to read it

The lock manager and the commit protocol are step machines. `Enabled` says when an atomic step can
be taken, `Apply` what it does, and a run is any sequence of enabled steps, so a statement about
all runs is a statement about all interleavings of any number of tasks. The steps of the lock
manager are those that the code performs under one shard lock or with one atomic instruction:
`lock_for`, acquiring and releasing the mutex, `fetch_sub`, `remove_if_unused`, and the drop of the
entry reference. A handler can be cancelled at any await; its guard goes first, its handle after.

The storage layer is modelled by the contract the code states for it. A put appends one entry at
the end of a log in one step. With a base snapshot it lands only if the conflict check, an
arbitrary function `accepts`, lets every entry since that snapshot pass. Without one it may land
wherever the log ends. A put may fail, may land without being acknowledged, and may land after its
handler was cancelled or has reported a failure.

`Sole` states the assumption of the single-writer results: all requests arrive at one replica,
nobody else appends, and no guard is released while its put may still land. None of the three parts
is implied by the code, and each is needed: `CommitRaces` has a run for the failure of each in which
a request that expected version 0 is answered with version 2. `SkippedEntries` shows, for every run,
that nothing else can cause this.

Three comments in the source describe something else than the code does, and the code is followed:
`src/grpc/mapping.rs:355-365` and `proto/delta_txn.proto:167-170` call the operation given to the
conflict check hardcoded (it comes from the commit info, `src/delta/commit.rs:93-137`);
`src/grpc/server.rs:111-114` calls the allowlist a character-prefix match (it is a path-segment
match, `src/config/storage.rs:56-67`); `src/delta/commit.rs:189` asks for exactly one protocol and
metadata action (the code asks for at least one of each and uses the first).

## Model

| member | source | states |
|---|---|---|
| TableLockProofs.MutualExclusion | src/locking/table_lock.rs:12-80 | in every run, over any number of handles and keys, two handles holding guards for one key are the same handle |
| TableLockProofs.StepKeepsInv | src/locking/table_lock.rs:12-80 | every atomic step keeps the invariant behind it: each counted handle's entry is the one the map holds for its key, counts are exact, holders are recorded, zero-count entries have a pending dropper |
| TableLockProofs.RefCountIsExact | src/locking/table_lock.rs:17 | in every reachable state each reference count is the number of handles not yet decremented, so a decrement never underflows |
| TableLockProofs.EveryMappedKeyHasAnOwner | src/locking/table_lock.rs:74-80 | each mapped key has a handle on its entry that is counted or about to remove it, and the count is zero exactly in the second case |
| TableLockProofs.NoHandlesNoEntries | src/locking/table_lock.rs:52-59 | when no handle is counted or pending the map is empty: nothing leaks |
| TableLockProofs.RemovalIsExact | src/locking/table_lock.rs:52-59 | although addresses are reused, a late dropper removes its slot exactly when the slot holds the very entry the handle was created on and no counted handle for the key is left; other keys are untouched |
| TableLockManagers.TableLockManager.LockFor | src/locking/table_lock.rs:12-23 | the fields afterwards are those of the run extended by this step; the new handle is on the entry the map holds for the key |
| TableLockManagers.TableLockManager.TryLock | src/locking/table_lock.rs:69-71 | the guard is granted exactly when no handle for the same key has one |
| TableLockManagers.TableLockManager.Decrement | src/locking/table_lock.rs:76 | the caller goes on to the removal exactly when no counted handle for the key is left |
| TableLockManagers.TableLockManager.RemoveUnused | src/locking/table_lock.rs:52-59 | the fields afterwards are those of the run extended by the shard-locked removal step |
| TableLockManagers.FreeMutex | src/locking/table_lock.rs:69-71 | in a reachable state a live handle finds its own mutex free exactly when no handle for the key holds a guard |
| TableLockManagers.LastMeansNoUsers | src/locking/table_lock.rs:74-80 | a count of one before the decrement is the same as no counted handle for the key after it |
| LoadThenRemove.LiveHandleIsEvicted | src/locking/table_lock.rs:25-36 | with the earlier load-then-remove design a run evicts an entry that a live handle still counts on |
| LoadThenRemove.TwoHoldersOfOneKey | src/locking/table_lock.rs:37-47 | that run goes on to two handles holding guards for one key |
| CommitSafety.LogsOnlyGrow | src/delta/commit.rs:139-168 | for any number of replicas and writers, every log only ever gets entries appended, at contiguous versions |
| CommitSafety.CommittedMeansInLog | src/grpc/server.rs:430-456 | an OK reply with version v means the request's mapped actions are in its table's log at v and nowhere else; with an expected version e, v > e and the conflict check accepted every entry strictly between |
| CommitSafety.DistinctVersions | src/grpc/server.rs:450-456 | two requests on one table are never told the same committed version |
| CommitSafety.SingleCreator | src/grpc/server.rs:389-428 | across all replicas at most one creating request per table is answered OK; the version is 0, and entry 0 is that request's actions with a protocol and a metadata action |
| CommitSafety.MeaningOfAborted | src/delta/errors.rs:50-52 | ABORTED for a request with an expected version: nothing of it is in any log, and the reported version is another one; without: a lost create race, with its actions in the log at the reported version, at least 1 |
| CommitSafety.MeaningOfRejections | src/grpc/server.rs:361-367 | in every run a request is answered PERMISSION_DENIED exactly when its URI, as sent with a scheme or as normalized, is not admitted, and otherwise INVALID_ARGUMENT exactly when its URI does not normalize or some action cannot be logged; neither these nor FAILED_PRECONDITION leave anything in any log |
| CommitSafety.TableDefinitionMeans | src/delta/commit.rs:14-27 | an action list defines a table exactly when it has a protocol action and a metadata action |
| MissingTables.MeaningOfFailedPrecondition | src/grpc/server.rs:389-413 | in every run a request is answered FAILED_PRECONDITION if and only if its exists-check, under its lock, found no log for its table and the request has an expected version or lacks a protocol or metadata action |
| VersionConflicts.MeaningOfConflict | src/grpc/server.rs:430-448 | in every run a request is told of a conflict with version a exactly when its check ran on a snapshot of version a other than the expected one, later or earlier, and that was the table's latest version when the request opened it under its lock |
| CommitSafety.OnlyAllowedTablesAreWritten | src/grpc/server.rs:149-160 | every entry a request put in a log is in the log of a table that its replica's allowlist admits, and is that request's actions |
| SingleWriter.NoLostUpdates | src/grpc/server.rs:378-456 | with a single writing process and puts finished under their lock, an OK commit with expected version e gets exactly e + 1, and that entry is its mapped actions |
| SingleWriter.NoLostCreateRace | src/delta/commit.rs:237-243 | under the same assumption a create race is never lost: every ABORTED answers an expected version and means nothing was appended |
| SingleWriter.CriticalSectionIsExclusive | src/grpc/server.rs:369-379 | under the same assumption at most one request per table is between its lock and the end of its put |
| SingleWriter.StepKeepsSoleInv | src/grpc/server.rs:378-448 | each step keeps what the lock buys: what a request in the critical section read about the log is still true |
| SkippedEntries.SkippedEntriesAreForeign | src/grpc/server.rs:369-456 | in every run, with any replicas, cancellations, late puts and outside writers: a commit that expected e and was told v skipped only entries written outside the service, by another replica, or by a put of its own replica that outlived its handler |
| SkippedEntries.LostRacesAreForeign | src/delta/commit.rs:197-210 | in every run, each version before the one that the loser of a create race is told is such an entry, so no race is lost to a handler of the same replica |
| SkippedEntries.SectionIsExclusive | src/grpc/server.rs:369-379 | on each replica, two requests for one table are never both between the grant of their locks and their replies |
| CommitRuns.UncontendedCommits | src/grpc/server.rs:378-456 | a valid request with the lock free, on a table at the version it expects or on one it may create, can be answered with the next version, its actions appended and nothing else changed in the log |
| CommitRaces.OutsideWriter | src/delta/commit.rs:139-147 | a run in which a writer outside the service gets between check and put: a request expecting version 0 is answered with version 2 |
| CommitRaces.OtherReplica | src/delta/commit.rs:197-201 | the same through a request of another replica, which has a lock manager of its own |
| CommitRaces.LatePut | src/delta/errors.rs:19-25 | the same through a put of the same replica that outlives its lock, both when its handler was cancelled and when it was told of a failure |
| CommitRaces.InternalIsAmbiguous | src/delta/errors.rs:53-63 | INTERNAL tells the client nothing about its commit: there are runs with and without its entry in the log |
| CommitRaces.LostCreateRace | src/delta/commit.rs:202-210 | a run in which two replicas create one table: the winner is told version 0, the loser ABORTED, with its actions in the log at version 1 |
| RetryBound.RetriesAreBounded | tests/e2e_concurrency.rs:41-64 | in every state of N read-commit-retry writers, at most N(N-1)/2 ABORTED replies were received in total and at most N versions added |
| RetryWorstCase.BoundIsAttained | tests/e2e_concurrency.rs:41-64 | for every set of N writers the server accepts there is a run in which all finish and exactly N(N-1)/2 ABORTED replies are received: the bound is exact |
| RetryBound.AllFinished | tests/e2e_concurrency.rs:68-84 | when all N writers have finished there are exactly N new versions, one per writer, each holding exactly that writer's mapped actions |
| RetryBound.WritersFilesAreListed | tests/e2e_concurrency.rs:80-84 | writers that each add one file under a different path: in the end the replay of the log has its earlier paths and theirs, and each file maps back as it was sent |
| WriterListings.WritersFilesAreStreamed | tests/e2e_concurrency.rs:72-109 | those writers done, the version is N later, and a completed listing that reports it has, over its batches, the earlier paths and theirs, each once, and each writer's file as it was sent |
| RetryTermination.RunsAreBounded | tests/e2e_concurrency.rs:41-64 | whatever the scheduling, failures and cancellations, N writers and the server together take at most 7N(N+1) steps |
| RetryCompletion.NextMove | tests/e2e_concurrency.rs:41-64 | no deadlock: while storage works and nobody is cancelled, an unfinished writer means some step can be taken |
| RetryCompletion.StuckMeansDone | tests/e2e_concurrency.rs:68-70 | so a run without failures that cannot go on has served every writer |
| RetryCompletion.SmoothRunsComplete | tests/e2e_concurrency.rs:41-70 | every run without failures, wherever it stands, can be completed to one in which all writers have finished |
| RetryCompletion.EveryWriterLandsOnce | tests/e2e_concurrency.rs:80-84 | such a run ends with exactly N more versions, one per writer, after at most N(N-1)/2 aborts |
| Batching.StreamActiveFiles | src/grpc/server.rs:224-341 | the producer sends exactly the prefix of the listing's message sequence that the client stayed for, whether opening fails, the source fails midway or the client leaves |
| Batching.StreamFiles | src/grpc/server.rs:256-341 | its loop sends exactly that prefix from the header on |
| Batching.ScriptIsFramed | src/grpc/server.rs:256-338 | every prefix of that sequence is well framed: one header first, batches of exactly 1000 files except a nonempty last one, at most one error, last |
| Batching.CutIsLossless | src/grpc/server.rs:318-338 | cutting into batches neither loses nor reorders a file |
| ActiveFileStream.ReceivedIsFramed | src/grpc/server.rs:224-341 | in every state of producer, channel and client, what the client received is a lone error or a header, full batches, and at most one smaller batch or error last |
| ActiveFileStream.NotFoundMeansMissing | src/grpc/server.rs:240-247 | a client is told NOT_FOUND only if the table had no log when it asked, and then is told nothing else |
| ActiveFileStream.ReceivedFilesAreAPrefix | src/grpc/server.rs:277-341 | the received files are, in order, the first files of the snapshot; a client that stayed to the end has all of them or an error as last message |
| ActiveFileStream.CompletedListingIsASnapshot | src/grpc/server.rs:249-338 | while commits keep landing, a listing completed without error is exactly the replay of the log up to the version in its header, each file once |
| Replay.ActiveMeansLastAdded | src/grpc/server.rs:272-277 | the replay it reports: a path is active exactly when the last add or remove of it in the log is an add, and then it is the file of that add |
| ActiveFileStream.BufferIsBounded | src/grpc/server.rs:35-40 | in every reachable state the files mapped but not received number at most (4 + 1) * 1000 |
| ActiveFileStream.NothingIsDropped | src/grpc/server.rs:276-338 | while the client stays, files taken from the source equal files received plus files held plus files lost; none is lost before the source fails, and then exactly those of the unfinished batch, fewer than 1000 |
| Stats.MapFileStats | src/grpc/mapping.rs:224-249 | the writer's loop, in any column order, gives an object with exactly the four keys, the record count, each section holding exactly the bounds that JSON can express, each as its own value, and a null count for every column; no text exactly for no statistics |
| Stats.MapStatsJsonToPb | src/grpc/mapping.rs:84-130 | the reader's loops, on any text: each bound is the string, boolean or number found for the column, the nearest double for an integer beyond i64, and none for a missing, null, array or object entry; counts are the integer found there, otherwise 0 |
| Stats.ReadMeans | src/grpc/mapping.rs:132-156 | the same of the function the round trips are proved about, for every text from any writer |
| Stats.WriteMeans | src/grpc/mapping.rs:251-274 | the same for the writing direction |
| Doubles.LargeIsNearest | src/grpc/mapping.rs:137-140 | the double read for an integer of 2^63 and more is the nearest of all finite doubles, ties to even |
| Stats.WriteThenRead | src/grpc/mapping.rs:219-249 | reading back written statistics removes exactly the NaN and infinite bounds, and keeps columns that have only a null count |
| Stats.WriteThenReadIsIdentity | src/grpc/mapping.rs:219-274 | it is the identity if and only if no bound is NaN or infinite |
| Stats.ReadIsNormalForm | src/grpc/mapping.rs:84-156 | for any text from any writer, including integers above the i64 range and nested values, writing and reading what was read changes nothing |
| Stats.ColumnsRead | src/grpc/mapping.rs:93-102 | statistics are read exactly when the text parses, and a column is reported exactly when one of the three sections is an object naming it |
| Actions.MapActionsMeans | src/grpc/mapping.rs:166-304 | a request is refused exactly when some action is missing, has a data-change flag other than 1 and 2, or does not deserialize; otherwise one log action per wire action, in order, field by field as sent: data change exactly for flag 1, tags and parameters absent exactly when empty, operations by name |
| Actions.MapActionsIsPointwise | src/grpc/mapping.rs:34-36 | the error of a refused request is that of its first bad action |
| Actions.OperationThroughBothLayers | src/delta/commit.rs:93-137 | the operation an existing-table commit is checked under is the one its first commit info asks for: text parameters as sent, every numeric parameter absent |
| Actions.NonDataChangingRequests | src/delta/commit.rs:120-128 | a request is committed as not changing data if and only if its first commit info says OPTIMIZE or VACUUM |
| Actions.DirectNumericParameters | src/delta/commit.rs:120-132 | when the log action is built directly, each numeric parameter of OPTIMIZE, VACUUM and RESTORE does arrive, in its own place |
| Actions.ParameterMeans | src/delta/commit.rs:42-63 | a parameter is found exactly when it is a string, an i64 or a u64 as asked for |
| Actions.CommittedFileIsListedBack | src/grpc/mapping.rs:56-75 | a file committed through the service is listed back as sent, up to: data change reported as true, tags dropped, non-finite bounds removed |
| Actions.ListedFileMeans | src/grpc/mapping.rs:56-75 | any file of the log, whoever wrote it, is listed with its own fields, null partition values as empty strings, the statistics its text stands for, data change true and no tags |
| Allowlist.AllowedIffSegmentPrefix | src/config/storage.rs:56-67 | for all strings: an absent allowlist admits every URI; one that is set admits a URI if and only if the '/'-segments of some prefix, without the empty one behind a trailing slash, are the first segments of the URI |
| Allowlist.PaddedJoinThenLoad | src/config/storage.rs:28-41 | whatever is written between the commas: the parts without the whitespace around them are loaded, in order, without the empty ones; no allowlist exactly if unset or nothing is left |
| Allowlist.JoinOfSplit | src/config/storage.rs:31 | joining the parts of any text gives it back, so its parts are the only separator-free ones that do |
| Allowlist.TrimIsPadded | src/config/storage.rs:32 | every text is its trimmed self with whitespace around it |
| Allowlist.SchemeMeans | src/grpc/server.rs:150 | a URI names a scheme exactly when it contains "://" |
| Allowlist.JoinThenLoad | src/config/storage.rs:30-40 | loading the comma-join of any nonempty list of trimmed, nonempty, comma-free prefixes returns that list |
| Allowlist.LoadIsNormalForm | src/config/storage.rs:29-34 | whatever text is configured, the loaded prefixes are of that kind and their join loads the same |
| Allowlist.NormalizeAndCheck | src/grpc/server.rs:149-160 | a URI is denied exactly when it names a scheme and is not admitted as sent, or normalizes to one that is not admitted; it is invalid exactly when it does not normalize and is not denied before; otherwise it passes as normalized, admitted |
| Metrics.Instruments.Record | src/telemetry/metrics.rs:93-114 | request count and histogram count equal the number of recordings, the error count those that are not OK |
| Metrics.ErrorsCountNonOk | src/telemetry/metrics.rs:110-112 | the error count is the number of recordings whose code is not 0 |
| Metrics.MetricsBody.PollFrame | src/telemetry/metrics.rs:260-291 | an armed body records the status in its trailers, or UNKNOWN for trailers without one, an error or a bare end, and is disarmed by it; any other poll, and any poll of a disarmed body, changes nothing |
| Metrics.ServeOne | src/telemetry/metrics.rs:131-291 | a call and any sequence of polls of its body record what `Recordings` says |
| Metrics.RecordedOnce | src/telemetry/metrics.rs:238-245 | for every outcome and every poll sequence, also past the end: at most one recording, and exactly one if and only if the call failed, the status came in the headers, or some poll ended the body |
| Metrics.FirstEndDecides | src/telemetry/metrics.rs:267-288 | the recording is the status of the first poll that ends the body: that of its trailers, otherwise UNKNOWN |
| Metrics.RecordingsMean | src/telemetry/metrics.rs:131-208 | what each request records: UNKNOWN for a failed call, the status of the headers, otherwise that of the first end of the body, and nothing before |
| Metrics.OncePerRequest | src/telemetry/metrics.rs:131-291 | the same, count and status, for one request among any interleaving of others |
| Metrics.RecordedOrWaiting | src/telemetry/metrics.rs:93-114 | over any interleaving of any set of requests, recordings plus bodies still waiting for their end equal the requests |
| Metrics.ServeAll | src/telemetry/metrics.rs:131-291 | any interleaving of calls and polls on shared counters records what `Play` says |

## Left out

- delta-rs, object_store, tonic, tokio, DashMap and serde_json: used through the contracts above (atomic conditional append, bounded FIFO channel, exclusive mutex, shard-atomic map entry).
- JSON text: a text is identified with what the parser makes of it, so that printing and parsing are inverse; for doubles this assumes an exact float round trip, which `Cargo.toml:59` does not switch on.
- Memory orderings: atomics are treated as sequentially consistent.
- Mutex fairness: who gets a free mutex next is arbitrary, so completion is stated as absence of deadlock plus a bound on the length of all runs.
- RetryCompletion.SmoothRunsComplete: assumes that storage calls succeed and no handler is cancelled; a writer whose read or commit fails otherwise stops, as in the test.
- URL normalization (`ensure_table_uri`): the result is a datum of each request, and keys both lock and log; two spellings that normalize differently are different tables here.
- Allowlist.NormalizeAndCheck: does not model the directory that normalization creates for a local path.
- Reading a table with no version (`src/grpc/server.rs:440`): an opened table always has one here.
- Casts of versions between `u64` and `i64`: versions are natural numbers.
- Typed partition values (`src/grpc/server.rs:290-308`): partition values are strings or null.
- `map_protocol` and `map_metadata`: what the foreign deserializer makes of the message, a value or an error, is a datum of the action.
- Engine info, user metadata and timestamps of a commit info: field copying.
- The operation of a creating commit: always a create and not seen by a conflict check.
- Metadata and protocol in `GetTable` and in the listing's header: field copying and a foreign schema parser.
- ActiveFileStream.CompletedListingIsASnapshot: assumes that the file source enumerates the replay of its snapshot, each active file once, in some order; deletion vectors are not part of it.
- Metric labels, latencies, and bodies dropped before their end, which the code never records.
- Authentication, health reporting, shutdown, telemetry setup, TLS and environment loading: plumbing.
