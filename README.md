# js-db native binding: a Dafny model of its handle lifecycle

js-db binds RocksDB to Node.js through N-API. The JavaScript side holds opaque handles: a
database, snapshots, iterators, transactions and write batches. Every engine call is a worker.
The main thread builds the worker and the libuv pool runs it; on the main thread again the
worker's `DoComplete` calls back and its `DoFinally` cleans up. The logic that needs care is
the bookkeeping that keeps a handle alive while work on it is still in flight:

- each owner (database, transaction) counts its pending work, one count per registered child
  and per unfinished `PriorityWorker`;
- a terminal worker (the database's close, a transaction's commit or rollback) submitted while
  work is pending is parked in a one-slot `closeWorker_`, and the owner then closes, rolls back
  or releases its children with a no-op callback;
- the decrement that brings the count back to its baseline (0 for the database, 1 for a
  transaction, whose reference starts at 1) queues the parked worker exactly once;
- an iterator's close is parked behind a `next` in flight and queued by the next's `DoFinally`;
- flags (`isClosing_`/`hasClosed_`, `isCommitting_`/`hasCommitted_`, `isRollbacking_`/
  `hasRollbacked_`, `isReleasing_`/`hasReleased_`) make every terminal action idempotent;
- the environment cleanup hook and the garbage-collection finalizers tear down synchronously
  whatever is still open.

The repository holds three generations of this code, and the model keeps them apart:

- **current** (`src/rocksdb/napi/index.cpp`, `transaction.cpp`, `snapshot.cpp`, `iterator.cpp`,
  `src/native/napi/*` and the workers under `src/*/napi/workers/`): module `Handles` models the
  handle classes in place (Database, Transaction, Snapshot, TransactionSnapshot, Iterator, with
  `modifies` frames and counting invariants); module `Lifecycle` models the same protocol as a
  state machine on values, one `System` record holding every handle and the pool of queued
  workers, with one function per entry point, one `Complete` step per worker and the
  finalizers and cleanup hook. `LifecycleInv` defines the invariant, `LifecycleSafety` and
  `LifecycleComplete` prove that every entry point and every completion keeps it, and
  `LifecycleRuns` proves that every run from `dbInit`, in any order of calls and completions,
  stays safe: the close runs only on a fully detached database, a commit or rollback only on an
  idle transaction, the counters sit at their baselines when idle, the source's own assertions
  hold, no worker is queued twice and nothing is closed, ended or released twice.
  `LifecycleTeardown` proves that the cleanup hook finishes every handle once and that the
  finalizers afterwards do nothing twice.
- **intermediate** (`src/rocksdb/napi/database.cpp`, `src/rocksdb/napi/workers.cpp`): module
  `Intermediate`, a database-only `priorityWork_` counter with its parked `pendingCloseWorker_`.
- **legacy** (`src/rocksdb/rocksdb.cpp`): module `Legacy`, the same counter plus its own
  Iterator and Transaction classes, the commit/rollback decisions and the `db_close` cascade as
  loops over copies of the registries.

Beside the lifecycle, the model covers the parts of the core that compute something:
`Cursors` (the range cursor of `BaseIterator` over a strictly sorted key sequence, with bound
precedence, limit and seeks), `Handles.Iterator.ReadMany` (reads bounded by a count and a byte
high-water mark), `RangeWorkers` (the clear and count workers' passes), `Statuses` (status to
error-code classification), `Guards` (the transaction-ready macros), `MultiGet` (multi-key
result assembly), `Batches` (the `hasData_` flag and the batch workers' write decision) and
`Debug` (the `NODE_DEBUG_NATIVE` token scan). `Keys` orders byte strings as
`rocksdb::Slice::compare` does; `Workers` names the workers and the handles they work on.

RocksDB itself is an input: a sorted key/value view for the cursor, and status values the
engine answers with. A worker's completion is one step (its DoExecute, DoComplete and DoFinally
together), so a worker's background execution is not interleaved with main-thread calls.

## Model

Source paths are relative to the repository root. "The invariant" in the Lifecycle rows is
`LifecycleInv.Inv`. It says:

- every counter equals its baseline plus its registered children plus its unfinished
  PriorityWorkers;
- each registry holds exactly the attached children of its owner, under ids the owner handed
  out;
- a parked worker was built and never queued, and every queued worker was queued once;
- every worker in the pool finds the state its work needs, and each handle's flags agree with
  the workers that exist for it.

| member | source | states |
|---|---|---|
| Statuses.ErrorFor | src/native/napi/worker.cpp:87-112 | a failed status becomes an error carrying its message: NotFound gives NOT_FOUND, Corruption gives CORRUPTION and Busy gives TRANSACTION_CONFLICT; an IOError gives LOCKED exactly when its message strictly extends one of the two lock prefixes, and IO_ERROR otherwise; every other code gives an error with no code |
| Statuses.BarePrefixIsIOError | src/native/napi/worker.cpp:95-101 | a message equal to a lock prefix is not long enough and gives IO_ERROR |
| Statuses.PosixLockIsLocked | src/native/napi/worker.cpp:95-97 | any non-empty text after the POSIX prefix gives LOCKED |
| Statuses.OnlyIOErrorReadsMessage | src/native/napi/worker.cpp:90-109 | for every failed code other than IOError the classification does not depend on the message |
| Statuses.BaseWorker.constructor | src/native/napi/worker.cpp:25-27 | a worker starts with an OK status and no message |
| Statuses.BaseWorker.SetStatus | src/native/napi/worker.cpp:47-54 | the status is recorded; the answer is true iff it is OK, and the status text is kept as the message only on failure |
| Statuses.BaseWorker.DoComplete | src/native/napi/worker.cpp:70-79 | exactly one handler runs: the OK callback iff the status is OK, otherwise the error callback with the classified error for the recorded message |
| Statuses.FailedRun | src/native/napi/worker.cpp:47-79 | a worker whose status failed completes with the error built from that status's own text |
| Guards.ReadyError | src/rocksdb/napi/utils.h:74-98 | no error iff none of the four flags is set; a committing or committed transaction gets TRANSACTION_COMMITTED; one that is rolling back or rolled back, and neither committing nor committed, gets TRANSACTION_ROLLBACKED |
| Guards.ReadyCb | src/rocksdb/napi/utils.h:74-86 | the callback variant never throws; it proceeds iff there is no error, and otherwise calls back with that error |
| Guards.Ready | src/rocksdb/napi/utils.h:88-98 | the throwing variant never calls back; it proceeds iff there is no error, and otherwise throws that error |
| Guards.CommittedFirst | src/rocksdb/napi/utils.h:75-80 | with a committing flag set, both variants report TRANSACTION_COMMITTED, even when a rollback flag is set too (also lines 89-93) |
| Guards.VariantsAgree | src/rocksdb/napi/utils.h:74-98 | the two variants block on the same flags and report the same error |
| Debug.TokensJoin | src/native/napi/debug.cpp:16-19 | the tokens the comma-separated scan yields join back, with commas, to the variable's text, and none of them holds a comma |
| Debug.DebugFlag.constructor | src/native/napi/debug.cpp:10 | the flag starts false |
| Debug.DebugFlag.CheckNodeDebugNative | src/native/napi/debug.cpp:12-26 | afterwards the flag is set iff it was set before or the variable is set and one of its tokens is exactly "*" or "rocksdb"; the scan never clears it |
| Debug.SingleToken | src/native/napi/debug.cpp:17-19 | text without a comma is read as one token |
| Debug.FirstToken | src/native/napi/debug.cpp:17-19 | comma-free text before a comma is the first token, and the rest is scanned on its own |
| Debug.NoTrimming | src/native/napi/debug.cpp:19-20 | tokens are compared untrimmed: " rocksdb" does not select logging |
| Debug.JoinTokens | src/native/napi/debug.cpp:17-19 | comma-free module names joined with commas are scanned back as exactly those names, in order |
| Debug.ListSelects | src/native/napi/debug.cpp:15-24 | a comma-separated list of module names selects logging iff one of its names is exactly "*" or "rocksdb", at any position |
| Batches.Batch.constructor | src/native/napi/batch.cpp:13-14 | a new batch is empty and has no data |
| Batches.Batch.Put | src/native/napi/batch.cpp:25-28 | the put is appended and hasData is set; hasData still says whether the batch holds anything |
| Batches.Batch.Del | src/native/napi/batch.cpp:30-33 | the delete is appended and hasData is set |
| Batches.Batch.Clear | src/native/napi/batch.cpp:35-38 | the batch is emptied and hasData reset |
| Batches.Batch.Write | src/native/napi/batch.cpp:40-44 | the database receives the batch's operations unchanged, with the given sync flag |
| Batches.BatchWriteExecute | src/rocksdb/napi/workers/batch_workers.cpp:46-50 | a write is submitted iff the batch holds data when the worker runs, and it is exactly the batch's contents |
| Batches.OpsOfEmpty | src/rocksdb/napi/index.cpp:713-734 | the scan yields no operation iff no element is well formed |
| Batches.BatchDo | src/rocksdb/napi/index.cpp:711-734 | the batch gets the operations of the well-formed elements, in order, and hasData is true iff some element is well formed |
| Batches.BatchWorkerExecute | src/rocksdb/napi/workers/batch_workers.cpp:26-30 | the worker writes iff it was built with hasData, and writes the batch it was given |
| Batches.BatchDoRun | src/rocksdb/napi/index.cpp:711-737 | batchDo followed by its worker writes exactly when some element is well formed, and never submits an empty batch |
| MultiGet.Assemble | src/native/napi/workers/database_workers.cpp:127-140 | one slot per answer in order (the value on OK, null on NotFound) up to the first answer that is neither, whose status becomes the worker's status; without such an answer every key has its slot |
| MultiGet.FirstFailureWins | src/native/napi/workers/transaction_workers.cpp:145-157 | the assembly fails exactly when some answer fails, and then at the first failing answer |
| MultiGet.GetMany | src/rocksdb/napi/workers/database_workers.cpp:106-135 | GetManyWorker assembles its cache under the same rule and releases the snapshot it took exactly once, on every path |
| Cursors.OutOfRange | src/rocksdb/napi/iterator.cpp:246-259 | a target is out of range exactly when it fails the lower side (`gte` if given, else `gt`) or the upper side (`lte` if given, else `lt`) |
| Cursors.BoundPrecedence | src/rocksdb/napi/iterator.cpp:247-257 | with `lte` and `gte` given, `lt` and `gt` are never consulted, and the range is the closed interval between them |
| Cursors.NoBoundsAdmitsAll | src/rocksdb/napi/iterator.cpp:246-259 | with no bound nothing is out of range |
| Cursors.LowerBound | src/rocksdb/napi/iterator.cpp:145 | the engine's Seek lands on the first key not below the target, or past the end |
| Cursors.UpperBound | src/rocksdb/napi/iterator.cpp:146-151 | the first key above the target, or past the end |
| Cursors.InRangeBlock | src/rocksdb/napi/iterator.cpp:246-259 | over sorted keys, the keys inside the range are exactly those between the start-side and the end-side positions |
| Cursors.InRangeMembers | src/rocksdb/napi/iterator.cpp:198-201 | a key is among the in-range keys iff it is stored and not out of range |
| Cursors.InRangeIsSlice | src/rocksdb/napi/iterator.cpp:139-173 | the in-range keys are the contiguous slice from the start-side position to the end-side position (also lines 246-259) |
| Cursors.VisitOrder | src/rocksdb/napi/iterator.cpp:139-173 | stepping from the start position visits the in-range keys in iteration order (ascending, or descending when reverse), and the position after the last visit holds nothing in range (also lines 208-215) |
| Cursors.VisitIndex | src/rocksdb/napi/iterator.cpp:139-173 | the number of visited keys is the size of the in-range block, and the t-th visit is at the t-th position of that block in iteration order (also lines 208-215) |
| Cursors.BaseIterator.constructor | src/rocksdb/napi/iterator.cpp:55-77 | a new iterator over the given view and options is open, has not sought and has counted nothing |
| Cursors.BaseIterator.EngineSeek | src/rocksdb/napi/iterator.cpp:145 | the engine cursor lands on the first key not below the target |
| Cursors.BaseIterator.Close | src/rocksdb/napi/iterator.cpp:112-135 | after any call the iterator is closed; a second call changes nothing |
| Cursors.BaseIterator.Increment | src/rocksdb/napi/iterator.cpp:203-206 | with a negative limit it answers true and counts nothing; otherwise it counts one read and answers true exactly for the first `limit` reads |
| Cursors.BaseIterator.Next | src/rocksdb/napi/iterator.cpp:208-215 | one engine step backwards when reverse, forwards otherwise |
| Cursors.BaseIterator.SeekToFirst | src/rocksdb/napi/iterator.cpp:217-224 | the first key in iteration order |
| Cursors.BaseIterator.SeekToLast | src/rocksdb/napi/iterator.cpp:226-233 | the last key in iteration order |
| Cursors.BaseIterator.SeekToEnd | src/rocksdb/napi/iterator.cpp:235-238 | the cursor ends on no key, past the last key in iteration order |
| Cursors.BaseIterator.SeekToRange | src/rocksdb/napi/iterator.cpp:139-173 | didSeek is set; forward the cursor is on the first key satisfying the lower side (first key at least `gte`, or first key above `gt`), reverse on the last key satisfying the upper side (last key at most `lte`, or last key below `lt`), otherwise on the first or last key |
| Cursors.BaseIterator.SeekAbove | src/rocksdb/napi/iterator.cpp:146-151 | seeking to `gt` and stepping over an equal key lands on the first key above `gt` |
| Cursors.BaseIterator.SeekAtMost | src/rocksdb/napi/iterator.cpp:152-159 | the reverse `lte` branch lands on the last key at most `lte` |
| Cursors.BaseIterator.SeekBelow | src/rocksdb/napi/iterator.cpp:160-167 | the reverse `lt` branch lands on the last key below `lt` |
| Cursors.BaseIterator.Seek | src/rocksdb/napi/iterator.cpp:175-196 | didSeek is set; an out-of-range target leaves the cursor on no key; otherwise it lands on the first key at or after the target (forward) or the last key at or before it (reverse) |
| Cursors.FirstAtLeastUnique | src/rocksdb/napi/iterator.cpp:144-145 | the position of the first key not below a target is unique |
| Cursors.FirstAboveUnique | src/rocksdb/napi/iterator.cpp:146-151 | the position of the first key above a target is unique |
| RangeWorkers.WalkOf | src/rocksdb/napi/iterator.cpp:139-173 | a fresh iterator that has sought its range visits, from its start position, exactly the in-range keys in iteration order, the limit admitting their first `limit` (also lines 203-215) |
| RangeWorkers.ReadOne | src/native/napi/workers/iterator_workers.cpp:121-126 | one round of the inner loop reads the next key of the walk and advances, or reports the walk ended (no valid key, or the limit reached), or, with a checked delete, that the engine refused the current key |
| RangeWorkers.PassStep | src/native/napi/workers/iterator_workers.cpp:121-126 | a read extends the pass by the next key of the walk and its size; an end or a refusal leaves the pass as it was, a refusal naming the refused key |
| RangeWorkers.ReadPass | src/native/napi/workers/iterator_workers.cpp:120-127 | a pass reads the next contiguous keys of the walk, `bytesRead` is their total size, it stops right after exceeding the 16 KiB mark, and a pass that stays within the mark without a refusal exhausts the walk |
| RangeWorkers.IteratorCount | src/native/napi/workers/iterator_workers.cpp:176-208 | the count never exceeds the number of in-range keys capped by the limit, equals it when the iterator's status is OK, the status is the iterator's, and the iterator is closed |
| RangeWorkers.CountLoop | src/native/napi/workers/iterator_workers.cpp:181-192 | the passes count at most the visible keys, and all of them when the iterator's status stays OK |
| RangeWorkers.ClearAsWritten | src/native/napi/workers/iterator_workers.cpp:113-152 | the keys deleted are a prefix of the visible keys; every batch written is non-empty, reads more than 0 bytes and all but the last exceed the mark; the clear stays unclosed only on a refused delete; with every engine call succeeding only empty keys can be left over, and the transaction variant deletes all |
| RangeWorkers.Clear | src/native/napi/workers/iterator_workers.cpp:113-152 | the corrected clear: the deleted keys are a prefix of the visible keys, the batches flatten to the deletes, a refused transaction delete names the first key left, and with every engine call succeeding the clear closes and deletes every visible key |
| RangeWorkers.ClearDirect | src/native/napi/workers/iterator_workers.cpp:136-149 | deleting through the transaction deletes a prefix of the visible keys; an unclosed clear stopped at a refused key; with OK status and closed, all visible keys are deleted; with no refusal the clear closes |
| RangeWorkers.DirectLoop | src/native/napi/workers/iterator_workers.cpp:137-149 | the transaction passes delete a prefix of the walk, all of it unless a delete is refused or the status fails |
| RangeWorkers.ClearBatched | src/rocksdb/napi/workers/iterator_workers.cpp:111-150 | the database branch with a checked or (src/rocksdb/rocksdb.cpp:1557-1585) unchecked delete: deletes are a prefix of the visible keys and the concatenation of the written batches, each batch is shaped by the mark, and with every engine call succeeding the clear closes, leaving only empty keys (stop on 0 bytes) or nothing (stop on 0 entries) |
| RangeWorkers.BatchedLoop | src/rocksdb/napi/workers/iterator_workers.cpp:117-133 | the outer loop of the database branch keeps the deletes equal to the batches written, each shaped by the mark, and without engine failures ends with exactly the leftover described for its stop test |
| RangeWorkers.BatchRound | src/rocksdb/napi/workers/iterator_workers.cpp:117-133 | a round either writes a non-empty batch of the next keys (progress), aborts on a refused delete, or stops: successfully only with an OK status, and leaving only empty keys or nothing depending on the stop test |
| RangeWorkers.ClearedSnoc | src/rocksdb/napi/workers/iterator_workers.cpp:129-132 | writing a pass's batch keeps the deletes a prefix of the walk equal to the flattened batches |
| RangeWorkers.ClearedStop | src/rocksdb/napi/workers/iterator_workers.cpp:126-128 | a pass that stops the clear as written leaves only empty keys after the deletes; stopping on an empty pass leaves nothing |
| RangeWorkers.BatchesSnoc | src/rocksdb/napi/workers/iterator_workers.cpp:119-132 | appending a pass that is non-empty, stops at the mark and exceeds it (or ends the range) keeps the batch shape |
| RangeWorkers.BatchesShape | src/rocksdb/napi/workers/iterator_workers.cpp:119-132 | every batch is non-empty and stops at the mark, all but the last exceed it, and, as written, each reads more than 0 bytes |
| RangeWorkers.EmptyKeyLeftOver | src/native/napi/workers/iterator_workers.cpp:128-130 | a range holding only the empty key, cleared through a write batch with every engine call succeeding: the clear as written deletes nothing, the corrected clear deletes the key |
| Handles.Pool.constructor | src/native/napi/worker.cpp:122 | nothing has been queued yet |
| Handles.Pool.NewJob | src/native/napi/worker.cpp:12-36 | a new worker object is distinct from every earlier one |
| Handles.Pool.Queue | src/native/napi/worker.cpp:122 | a worker is added to the queued set, and only one not queued before may be |
| Handles.Database.constructor | src/native/napi/database.cpp:20-31 | a new handle is closed, not closing, unattached, has no children, no close waiting and pending work 0, which satisfies the counting invariant |
| Handles.Database.Attach | src/native/napi/database.cpp:40-43 | after any call the reference exists; a second call changes nothing |
| Handles.Database.Detach | src/native/napi/database.cpp:45-49 | after any call the reference is gone |
| Handles.Database.Open | src/native/napi/database.cpp:51-54 | the engine handle is set exactly when the engine opened |
| Handles.Database.Close | src/native/napi/database.cpp:56-63 | the first call marks the handle closed and deletes the engine once; a repeated call deletes nothing more |
| Handles.Database.PendingWorkMeansWork | src/native/napi/database.cpp:184-187 | under the counting invariant, HasPendingWork holds exactly when some iterator, transaction or snapshot is registered or a PriorityWorker is unfinished |
| Handles.Database.IncrementPendingWork | src/native/napi/database.cpp:169-172 | allowed only before close; the count goes up by one |
| Handles.Database.DecrementPendingWork | src/native/napi/database.cpp:174-182 | the count goes down by one but not below 0; a parked close worker is queued and its slot emptied exactly when the count lands on 0, and otherwise nothing is queued |
| Handles.Database.AttachIterator | src/native/napi/database.cpp:146-150 | allowed only before close; the iterator is registered under its id and the count goes up by one |
| Handles.Database.DetachIterator | src/native/napi/database.cpp:152-155 | the id is unregistered, then the count is decremented with the parked close rule |
| Handles.Database.AttachTransaction | src/native/napi/database.cpp:157-162 | allowed only before close; the transaction is registered under its id and the count goes up by one |
| Handles.Database.DetachTransaction | src/native/napi/database.cpp:164-167 | the id is unregistered, then the count is decremented with the parked close rule |
| Handles.Database.AttachSnapshot | src/native/napi/database.cpp:135-139 | allowed only before close; the snapshot is registered under its id and the count goes up by one |
| Handles.Database.DetachSnapshot | src/native/napi/database.cpp:141-144 | the id is unregistered, then the count is decremented with the parked close rule |
| Handles.Database.BeginPriorityWork | src/native/napi/worker.cpp:124-128 | a PriorityWorker on the database holds one count for as long as it is unfinished |
| Handles.Database.EndPriorityWork | src/native/napi/worker.cpp:138-141 | a finishing PriorityWorker lets go of its count, with the parked close rule |
| Handles.Transaction.constructor | src/rocksdb/napi/transaction.cpp:19-35 | allowed only on an open database; the new transaction is live, unattached, neither committing nor rolling back, with no iterator, no close waiting and its pending-work field at 0 |
| Handles.Transaction.PendingWorkMeansWork | src/rocksdb/napi/transaction.cpp:189-193 | while attached, HasPendingWork (a field above the baseline 1) holds exactly when an iterator is registered or a PriorityWorker is unfinished |
| Handles.Transaction.Attach | src/rocksdb/napi/transaction.cpp:45-55 | the first call creates the reference at count 1 and registers the transaction with its database, adding one to the database's count; a repeat changes nothing |
| Handles.Transaction.Detach | src/rocksdb/napi/transaction.cpp:57-67 | the first call unregisters from the database (with the database's parked close rule) and drops the reference; a repeat changes nothing |
| Handles.Transaction.Commit | src/rocksdb/napi/transaction.cpp:69-85 | refused after a rollback; the first commit answers the engine's status and releases the engine transaction once; a repeat answers OK and releases nothing |
| Handles.Transaction.Rollback | src/rocksdb/napi/transaction.cpp:87-103 | refused after a commit; the first rollback answers the engine's status and releases the engine transaction once; a repeat answers OK and releases nothing |
| Handles.Transaction.SetSnapshot | src/rocksdb/napi/transaction.cpp:105-108 | allowed only on an open transaction; a new snapshot is taken |
| Handles.Transaction.GetSnapshot | src/rocksdb/napi/transaction.cpp:110-113 | allowed only on an open transaction; answers the last snapshot taken |
| Handles.Transaction.IncrementPendingWork | src/rocksdb/napi/transaction.cpp:170-175 | allowed only on an open transaction; an attached reference goes up by one and the field takes its value |
| Handles.Transaction.DecrementPendingWork | src/rocksdb/napi/transaction.cpp:177-187 | an attached reference above 0 goes down by one and the field takes its value; a parked commit or rollback is queued and its slot emptied exactly when the field is at the baseline 1 |
| Handles.Transaction.AttachIterator | src/rocksdb/napi/transaction.cpp:158-163 | allowed only on an open transaction; the iterator is registered under its id and the count goes up |
| Handles.Transaction.DetachIterator | src/rocksdb/napi/transaction.cpp:165-168 | the id is unregistered, then the count is decremented with the parked close rule |
| Handles.Transaction.BeginPriorityWork | src/native/napi/worker.cpp:130-134 | a PriorityWorker on the transaction holds one count for as long as it is unfinished |
| Handles.Transaction.EndPriorityWork | src/native/napi/worker.cpp:138-145 | a finishing PriorityWorker on the transaction lets go of its count, with the parked close rule |
| Handles.TransactionSnapshot.constructor | src/rocksdb/napi/snapshot.cpp:71-84 | allowed only on an open transaction; it takes a new transaction snapshot and holds that one |
| Handles.Snapshot.constructor | src/rocksdb/napi/snapshot.cpp:16-25 | allowed only on an open database; the new snapshot is neither releasing nor released and unattached |
| Handles.Snapshot.Attach | src/rocksdb/napi/snapshot.cpp:34-43 | the first call registers the snapshot with its database and adds one to the database's count; a repeat changes nothing |
| Handles.Snapshot.Detach | src/rocksdb/napi/snapshot.cpp:45-55 | the first call unregisters it, with the database's parked close rule; a repeat changes nothing |
| Handles.Snapshot.Release | src/rocksdb/napi/snapshot.cpp:57-67 | the engine snapshot is handed back exactly once over any number of calls, and the first call needs an open database |
| Handles.KeysOnlyReadsNoBytes | src/rocksdb/napi/iterator.cpp:373-375 | in keys-only mode no entry counts against the high-water mark |
| Handles.ShapeEntries | src/rocksdb/napi/iterator.cpp:368-380 | with keys or values requested, the cache holds one entry per entry read, in order, carrying the key and/or the value the mode asks for and empty otherwise |
| Handles.NeitherCachesNothing | src/rocksdb/napi/iterator.cpp:368-380 | with neither keys nor values the cache stays empty and no byte is counted |
| Handles.KeysOnlyFullAtSize | src/rocksdb/napi/iterator.cpp:373-375 | in keys-only mode a read is full exactly when it has read `size` entries, whatever their bytes (also lines 381) |
| Handles.NeitherNeverFull | src/rocksdb/napi/iterator.cpp:376-381 | with neither keys nor values and a size of at least 1, no read is ever full, so only the range or the limit ends it |
| Handles.Iterator.constructor | src/rocksdb/napi/iterator.cpp:261-308 | allowed only on an open owner; the new iterator has not sought, counted or cached anything, is on its first read, not nexting or closing, and unattached |
| Handles.Iterator.AttachToDatabase | src/rocksdb/napi/iterator.cpp:316-330 | the first call registers the iterator with its database and adds one to its count; a repeat changes nothing |
| Handles.Iterator.AttachToTransaction | src/rocksdb/napi/iterator.cpp:316-330 | the first call registers the iterator with its transaction and adds one to its reference count; a repeat changes nothing |
| Handles.Iterator.DetachFromDatabase | src/rocksdb/napi/iterator.cpp:332-347 | the first call unregisters it from its database with the parked close rule; a repeat changes nothing |
| Handles.Iterator.DetachFromTransaction | src/rocksdb/napi/iterator.cpp:332-347 | the first call unregisters it from its transaction with the transaction's parked commit/rollback rule; a repeat changes nothing |
| Handles.Iterator.Close | src/rocksdb/napi/iterator.cpp:349-353 | the engine iterator is closed |
| Handles.Iterator.Advance | src/rocksdb/napi/iterator.cpp:362-367 | the first pass reads at the cursor, later ones step first; the answer is true exactly when the cursor is on an in-range key and the limit admits one more read |
| Handles.Iterator.Take | src/rocksdb/napi/iterator.cpp:368-381 | the current entry is read, the cache grows by its mode-shaped form and bytesRead by its cost, and the answer is whether the read is now full |
| Handles.Iterator.ReadStep | src/rocksdb/napi/iterator.cpp:361-384 | one pass of the loop either ends the read (full, or no entry) or extends it by one entry while the cursor's remaining distance shrinks |
| Handles.Iterator.ReadMany | src/rocksdb/napi/iterator.cpp:355-386 | the entries read are the in-range entries at consecutive positions from the start, the cache is their mode-shaped form, no earlier prefix was full; true means the last entry filled the read, false means the range or the limit ended it, with the limit counter stated in both cases |
| Handles.Iterator.NextExecute | src/rocksdb/napi/workers/iterator_workers.cpp:38-48 | the first next seeks to the range start (or end when reverse); `finished` is true exactly when the read ended without filling, so the range or the limit was exhausted |
| Handles.Iterator.NextFinally | src/rocksdb/napi/workers/iterator_workers.cpp:72-82 | the next is over and a parked close worker is queued exactly once and its slot emptied |
| LifecycleSafety.InitInv | src/rocksdb/napi/index.cpp:254-264 | a database fresh from dbInit satisfies the lifecycle invariant |
| LifecycleSafety.DbOpenInv | src/rocksdb/napi/index.cpp:269-336 | dbOpen keeps the invariant, on the log-level error path and when it queues the OpenWorker |
| LifecycleSafety.DbWorkInv | src/rocksdb/napi/index.cpp:400-531 | queueing a PriorityWorker on the database keeps the invariant: the database's count gains exactly the one the worker holds |
| LifecycleSafety.SnapshotInitInv | src/rocksdb/napi/index.cpp:551-564 | snapshotInit keeps the invariant: the new snapshot takes a fresh id, is registered and counted once |
| LifecycleSafety.SnapshotReleaseDoInv | src/rocksdb/napi/index.cpp:140-147 | requesting a release of a snapshot not yet releasing keeps the invariant: the release worker is queued once and holds one database count |
| LifecycleSafety.SnapshotReleaseInv | src/rocksdb/napi/index.cpp:566-580 | snapshotRelease keeps the invariant, both when it calls back null on a repeat and when it requests the release |
| LifecycleSafety.IteratorInitInv | src/rocksdb/napi/index.cpp:611-640 | iteratorInit keeps the invariant: the new iterator takes a fresh id, is registered with the database and counted once |
| LifecycleSafety.TransactionIteratorInitInv | src/rocksdb/napi/index.cpp:1024-1055 | transactionIteratorInit keeps the invariant: behind the throwing guard, the new iterator takes the transaction's next id and adds one to the transaction's count |
| LifecycleSafety.IteratorSeekInv | src/rocksdb/napi/index.cpp:645-656 | iteratorSeek keeps the invariant |
| LifecycleSafety.IteratorNextvInv | src/rocksdb/napi/index.cpp:680-698 | iteratorNextv keeps the invariant: at most one next is in flight per iterator, and it is what a parked close waits for |
| LifecycleSafety.IteratorCloseDoInv | src/rocksdb/napi/index.cpp:88-102 | IteratorCloseDo on an iterator not yet closing keeps the invariant, whether it queues the close at once or parks it behind a next in flight |
| LifecycleSafety.IteratorCloseInv | src/rocksdb/napi/index.cpp:661-675 | iteratorClose keeps the invariant, both on a repeat (null callback) and on a first close |
| LifecycleSafety.TransactionInitInv | src/rocksdb/napi/index.cpp:811-826 | transactionInit keeps the invariant: the new transaction takes a fresh id, starts at its baseline 1 and adds one to the database's count |
| LifecycleSafety.EndNowInv | src/rocksdb/napi/index.cpp:111-117 | a commit or rollback on an idle transaction is queued at once and keeps the invariant (also lines 853-861) |
| LifecycleSafety.EndLaterInv | src/rocksdb/napi/index.cpp:118-134 | a commit or rollback on a busy transaction is parked, not queued, and keeps the invariant (also lines 862-877) |
| LifecycleSafety.TransactionRollbackDoInv | src/rocksdb/napi/index.cpp:107-135 | TransactionRollbackDo on an untouched transaction keeps the invariant, including its cascading close of the transaction's iterators |
| LifecycleSafety.TransactionRollbackInv | src/rocksdb/napi/index.cpp:885-900 | transactionRollback keeps the invariant, both on a repeat (null callback) and on a first rollback |
| LifecycleSafety.TransactionCommitInv | src/rocksdb/napi/index.cpp:841-880 | transactionCommit keeps the invariant: a repeat calls back null; otherwise the commit is queued when idle or parked with a cascading close of the iterators |
| LifecycleSafety.TransactionWorkerInv | src/native/napi/worker.cpp:130-134 | queueing a PriorityWorker on a transaction that may still work keeps the invariant: the transaction's count gains the one the worker holds |
| LifecycleSafety.TransactionTaskInv | src/rocksdb/napi/index.cpp:905-940 | get, getForUpdate, put and del behind the callback guard keep the invariant (also lines 984-1010) |
| LifecycleSafety.TransactionRangeTaskInv | src/rocksdb/napi/index.cpp:1057-1093 | clear and count behind the throwing guard keep the invariant |
| LifecycleSafety.TransactionMultiGetInv | src/rocksdb/napi/index.cpp:945-979 | multiGet and multiGetForUpdate, which have no guard, keep the invariant on a transaction not yet finished |
| LifecycleSafety.CloseIteratorsInv | src/rocksdb/napi/index.cpp:359-369 | the cascading close over a registry copy keeps the invariant, skipping iterators already closing or closed (also lines 866-877) |
| LifecycleSafety.RollbackTransactionsInv | src/rocksdb/napi/index.cpp:369-381 | the rollback cascade of dbClose keeps the invariant, skipping transactions already committing or rolling back |
| LifecycleSafety.ReleaseSnapshotsInv | src/rocksdb/napi/index.cpp:382-392 | the release cascade of dbClose keeps the invariant, skipping snapshots already releasing or released |
| LifecycleSafety.ParkedCloseInv | src/rocksdb/napi/index.cpp:355-356 | parking the CloseWorker while work is pending keeps the invariant: the parked worker is never in the pool |
| LifecycleSafety.DbCloseInv | src/rocksdb/napi/index.cpp:342-395 | dbClose keeps the invariant: the close is queued at once exactly when nothing is pending, otherwise parked and followed by the three cascades |
| LifecycleComplete.CompleteInv | src/native/napi/worker.cpp:63-68 | the completion of any worker in the pool, in any order, finds the handle it refers to and keeps the invariant, including the decrements of its DoFinally |
| LifecycleComplete.CloseDoneInv | src/native/napi/workers/database_workers.cpp:75-80 | the CloseWorker's completion (Close, then detach of the database reference) keeps the invariant |
| LifecycleComplete.ReleaseDoneInv | src/rocksdb/napi/workers/snapshot_workers.cpp:10-23 | the release worker's completion releases the snapshot, detaches it and decrements the database twice, keeping the invariant |
| LifecycleComplete.CloseDbIterDoneInv | src/rocksdb/napi/workers/iterator_workers.cpp:22-27 | an iterator close worker's completion on a database iterator closes and detaches it, keeping the invariant |
| LifecycleComplete.CloseTxnIterDoneInv | src/rocksdb/napi/workers/iterator_workers.cpp:22-27 | an iterator close worker's completion on a transaction iterator closes and detaches it, possibly queueing the transaction's parked commit or rollback, keeping the invariant |
| LifecycleComplete.NextDoneInv | src/rocksdb/napi/workers/iterator_workers.cpp:72-82 | a next worker's completion clears nexting and queues a parked close once, keeping the invariant |
| LifecycleComplete.EndDoneInv | src/rocksdb/napi/workers/transaction_workers.cpp:25-30 | a commit or rollback worker's completion ends the transaction once and detaches it from the database, keeping the invariant (also lines 43-50) |
| LifecycleComplete.DbTaskDoneInv | src/native/napi/worker.cpp:138-141 | a database PriorityWorker's completion lets go of its count, queueing a parked close exactly when the count lands on 0 |
| LifecycleComplete.TxnTaskDoneInv | src/native/napi/worker.cpp:138-145 | a transaction PriorityWorker's completion lets go of its count, queueing a parked commit or rollback exactly when the field lands on 1 |
| LifecycleComplete.OpenDoneInv | src/native/napi/workers/database_workers.cpp:66-68 | an OpenWorker's completion sets the engine open exactly when the engine opened, keeping the invariant |
| LifecycleRuns.InvCloseFindsDetached | src/native/napi/workers/database_workers.cpp:75-80 | under the invariant, a CloseWorker in the pool finds the database with no registered child, no PriorityWorker in flight and every handle detached |
| LifecycleRuns.InvEndFindsIdle | src/rocksdb/napi/index.cpp:107-135 | under the invariant, a commit or rollback worker in the pool finds its transaction with no iterator and no PriorityWorker left (also lines 841-880) |
| LifecycleRuns.InvBaselines | src/native/napi/database.cpp:184-187 | HasPendingWork is exactly "some child or PriorityWorker exists", with baseline 0 for the database and 1 for an attached transaction (also src/rocksdb/napi/transaction.cpp:189-193) |
| LifecycleRuns.InvAssertionsHold | src/rocksdb/napi/transaction.cpp:69-103 | the source's own assertions hold: a queued commit never finds a rollback done, a queued rollback never finds a commit done, and a snapshot release never increments a closed database (also src/native/napi/database.cpp:169-172) |
| LifecycleRuns.InvQueuedOnce | src/native/napi/database.cpp:178-181 | every worker is queued exactly once and a parked worker not yet (also src/rocksdb/napi/transaction.cpp:183-186) |
| LifecycleRuns.InvTerminalOnce | src/rocksdb/napi/transaction.cpp:69-103 | the engine, each cursor and each snapshot are let go of at most once, and a transaction ends at most once and never both ways |
| LifecycleRuns.InvSafe | src/rocksdb/napi/index.cpp:342-395 | the invariant implies all of the safety properties above together |
| LifecycleRuns.StepInv | src/rocksdb/napi/index.cpp:254-1093 | every enabled entry point or completion keeps the invariant and leaves the environment running |
| LifecycleRuns.RunInv | src/rocksdb/napi/index.cpp:254-1093 | any run of enabled events from an invariant state ends in an invariant state |
| LifecycleRuns.RunSafe | src/rocksdb/napi/index.cpp:254-1093 | from dbInit, whatever the JavaScript side calls and in whatever order workers complete, every state reached is safe |
| LifecycleTeardown.CloseCursorsEffect | src/rocksdb/napi/index.cpp:50-54 | the hook's iterator loop closes exactly the iterators of the registry copy in range, changing nothing else |
| LifecycleTeardown.RollbackAllEffect | src/rocksdb/napi/index.cpp:55-66 | the hook's transaction loop rolls back exactly the registered transactions, after closing exactly their registered iterators, changing nothing else |
| LifecycleTeardown.ReleaseAllEffect | src/rocksdb/napi/index.cpp:67-71 | the hook's snapshot loop releases exactly the registered snapshots, changing nothing else |
| LifecycleTeardown.InvAccounted | src/rocksdb/napi/index.cpp:46-77 | under the invariant, every handle is either finished exactly once or still attached and registered where the hook will find it |
| LifecycleTeardown.HookTearsDown | src/rocksdb/napi/index.cpp:46-77 | the cleanup hook, once the pool is empty, leaves every iterator closed, every transaction ended and every snapshot released exactly once, and closes an open engine once |
| LifecycleTeardown.FinalizersAfterTeardown | src/rocksdb/napi/index.cpp:154-235 | after the hook, each finalizer finds its handle finished and changes nothing, and the database finalizer closes the engine at most once |
| LifecycleTeardown.FinalizersWhileRunning | src/rocksdb/napi/index.cpp:154-235 | while the environment runs, the finalizer of a detached handle does nothing, and the database finalizer with nothing pending leaves the engine closed exactly once |
| Intermediate.Database.constructor | src/rocksdb/napi/database.cpp:12-18 | a new database has no engine, both id counters at 0, no parked close, no children and no priority work |
| Intermediate.Database.Open | src/rocksdb/napi/database.cpp:27-32 | the engine is set exactly when it opened; opening a handle with no engine keeps the count invariant and the open/delete accounting |
| Intermediate.Database.CloseDatabase | src/rocksdb/napi/database.cpp:34-37 | the engine is deleted once if it was set and the handle is left without one |
| Intermediate.Database.Destroy | src/rocksdb/napi/database.cpp:20-25 | the destructor deletes a still-set engine, so that every engine opened has been deleted exactly once |
| Intermediate.Database.PriorityWorkMeansWork | src/rocksdb/napi/database.cpp:136-138 | HasPriorityWork holds exactly when some iterator or transaction is registered or some PriorityWorker is unfinished |
| Intermediate.Database.IncrementPriorityWork | src/rocksdb/napi/database.cpp:123-125 | the count goes up by one |
| Intermediate.Database.DecrementPriorityWork | src/rocksdb/napi/database.cpp:127-134 | the count goes down by one without going below 0; a parked close is queued and its slot emptied exactly when the count is then 0, and otherwise nothing is queued |
| Intermediate.Database.AttachIterator | src/rocksdb/napi/database.cpp:103-106 | the id joins the iterator registry and the count goes up by one, keeping the invariant for a fresh id |
| Intermediate.Database.DetachIterator | src/rocksdb/napi/database.cpp:108-111 | the id leaves the iterator registry and the count goes down as DecrementPriorityWork says, keeping the invariant |
| Intermediate.Database.AttachTransaction | src/rocksdb/napi/database.cpp:113-116 | the id joins the transaction registry and the count goes up by one, keeping the invariant for a fresh id |
| Intermediate.Database.DetachTransaction | src/rocksdb/napi/database.cpp:118-121 | the id leaves the transaction registry and the count goes down as DecrementPriorityWork says, keeping the invariant |
| Intermediate.Database.BeginPriorityWork | src/rocksdb/napi/workers.cpp:458-461 | constructing a PriorityWorker on the database adds one in-flight worker and one count, keeping the invariant; the behaviour is taken from the commit worker's call site here and from the legacy PriorityWorker definition (src/rocksdb/rocksdb.cpp:651-655) |
| Intermediate.Database.EndPriorityWork | src/rocksdb/napi/workers.cpp:470-473 | PriorityWorker's DoFinally removes one in-flight worker and lets go of its count, queueing a parked close exactly when nothing is left; the behaviour is taken from the commit worker's call site here and from the legacy PriorityWorker definition (src/rocksdb/rocksdb.cpp:659-662) |
| Intermediate.TransactionWorkerFinally | src/rocksdb/napi/workers.cpp:487-490 | a commit or rollback worker's DoFinally detaches the transaction and then lets go of its own count: the count drops by two, the invariant holds, and a parked close is queued only once nothing is left (also lines 470-473) |
| Legacy.Database.constructor | src/rocksdb/rocksdb.cpp:520-526 | a new database has both id counters at 0, no parked close, no children and no priority work |
| Legacy.Database.PriorityWorkMeansWork | src/rocksdb/rocksdb.cpp:632-634 | HasPriorityWork holds exactly when some iterator or transaction is registered or some PriorityWorker is unfinished |
| Legacy.Database.IncrementPriorityWork | src/rocksdb/rocksdb.cpp:619-621 | the count goes up by one |
| Legacy.Database.DecrementPriorityWork | src/rocksdb/rocksdb.cpp:623-630 | the count goes down by one without going below 0; a parked close is queued and its slot emptied exactly when the count is then 0, and otherwise nothing is queued |
| Legacy.Database.AttachIterator | src/rocksdb/rocksdb.cpp:599-602 | the iterator is registered under its id and the count goes up by one, keeping the invariant for a fresh id |
| Legacy.Database.DetachIterator | src/rocksdb/rocksdb.cpp:604-607 | the id is unregistered and the count goes down as DecrementPriorityWork says, keeping the invariant |
| Legacy.Database.AttachTransaction | src/rocksdb/rocksdb.cpp:609-612 | the transaction is registered under its id and the count goes up by one, keeping the invariant for a fresh id |
| Legacy.Database.DetachTransaction | src/rocksdb/rocksdb.cpp:614-617 | the id is unregistered and the count goes down as DecrementPriorityWork says, keeping the invariant |
| Legacy.Database.BeginPriorityWork | src/rocksdb/rocksdb.cpp:651-655 | constructing a PriorityWorker adds one in-flight worker and one count, keeping the invariant |
| Legacy.Database.EndPriorityWork | src/rocksdb/rocksdb.cpp:659-662 | PriorityWorker's DoFinally removes one in-flight worker and lets go of its count, queueing a parked close exactly when nothing is left |
| Legacy.Iterator.constructor | src/rocksdb/rocksdb.cpp:866-892 | a new iterator belongs to its database under its id, holds its snapshot, and is neither closing, closed nor nexting |
| Legacy.Iterator.Close | src/rocksdb/rocksdb.cpp:774-781 | the iterator ends closed and its snapshot is handed back once, on the first close only |
| Legacy.Iterator.Attach | src/rocksdb/rocksdb.cpp:896-899 | the iterator is registered with its database and adds one count |
| Legacy.Iterator.NextFinally | src/rocksdb/rocksdb.cpp:1986-1996 | the next is over, and a close parked behind it is queued exactly once and its slot emptied |
| Legacy.Iterator.Detach | src/rocksdb/rocksdb.cpp:901-904 | the iterator is unregistered and the database's count goes down as DecrementPriorityWork says, with no guard against a second call |
| Legacy.Transaction.constructor | src/rocksdb/rocksdb.cpp:960-973 | a new transaction belongs to its database under its id, holds a live engine transaction and has every flag clear |
| Legacy.Transaction.Commit | src/rocksdb/rocksdb.cpp:1004-1016 | a first commit returns the engine's status and ends the engine transaction once; a repeat returns OK and changes nothing; commit and rollback never both happen |
| Legacy.Transaction.Detach | src/rocksdb/rocksdb.cpp:995-998 | the transaction is unregistered and the database's count goes down as DecrementPriorityWork says, with no guard against a second call |
| Legacy.Transaction.Rollback | src/rocksdb/rocksdb.cpp:1021-1033 | a first rollback returns the engine's status and ends the engine transaction once; a repeat returns OK and changes nothing |
| Legacy.IteratorInit | src/rocksdb/rocksdb.cpp:1828-1862 | the new iterator takes the next id, which was not registered, is registered under it, and adds one count, keeping the invariant |
| Legacy.TransactionInit | src/rocksdb/rocksdb.cpp:2287-2312 | the new transaction takes the next id, which was not registered, is registered under it with every flag clear, and adds one count, keeping the invariant |
| Legacy.CommitDecision | src/rocksdb/rocksdb.cpp:2346-2375 | transaction_commit queues a worker exactly when neither a commit nor a rollback was asked for, reports TRANSACTION_ROLLBACKED exactly when a rollback was, and answers null exactly on a repeated commit with no rollback |
| Legacy.RollbackDecision | src/rocksdb/rocksdb.cpp:2427-2446 | transaction_rollback queues a worker exactly when neither was asked for, reports TRANSACTION_COMMITTED exactly when a commit was, and answers null exactly on a repeated rollback with no commit |
| Legacy.ScheduledOnce | src/rocksdb/rocksdb.cpp:2346-2446 | once a commit or a rollback is scheduled, a second one answers null and the other is refused: each transaction gets at most one ending worker |
| Legacy.PrecedenceAgainstGuard | src/rocksdb/rocksdb.cpp:2346-2375 | the legacy rollback check reports what the later transaction-ready guard reports; the legacy commit check differs only when both a commit and a rollback flag are set, where it reports the rollback and the guard the commit |
| Legacy.TransactionCommit | src/rocksdb/rocksdb.cpp:2346-2375 | the answer is CommitDecision of the flags; when it schedules, one fresh commit worker is queued, the transaction is marked committing and the database gains one PriorityWorker count; otherwise nothing changes |
| Legacy.TransactionRollbackDo | src/rocksdb/rocksdb.cpp:2408-2422 | one fresh rollback worker is queued at once, the transaction is marked rolling back and the database gains one PriorityWorker count |
| Legacy.TransactionRollback | src/rocksdb/rocksdb.cpp:2427-2446 | the answer is RollbackDecision of the flags; when it schedules, it does what TransactionRollbackDo does; otherwise nothing changes |
| Legacy.TransactionWorkerFinally | src/rocksdb/rocksdb.cpp:2333-2336 | a commit or rollback worker's DoFinally detaches the transaction and then lets go of its own count: the count drops by two, the invariant holds, and a parked close is queued only once nothing is left (also lines 2395-2398) |
| Legacy.IteratorCloseDo | src/rocksdb/rocksdb.cpp:1912-1920 | the iterator is marked closing and a fresh close worker is made; it is parked behind a running next, and queued at once otherwise |
| Legacy.IteratorClose | src/rocksdb/rocksdb.cpp:1925-1937 | a close of an iterator already closing or closed answers null and changes nothing; otherwise it does what IteratorCloseDo does |
| Legacy.CloseDuringNext | src/rocksdb/rocksdb.cpp:1912-1920 | a close asked for during a next reaches the pool exactly once, when the next's DoFinally runs (also lines 1986-1996) |
| Legacy.CloseIfOpen | src/rocksdb/rocksdb.cpp:1268-1271 | one iterator of db_close's first loop: it is closing unless it had closed; its close reaches the pool, as the returned worker, exactly when it was neither closing, closed nor nexting, and a close behind a running next is parked out of the pool |
| Legacy.CloseAllIterators | src/rocksdb/rocksdb.cpp:1264-1272 | db_close's first loop: every registered iterator neither closing nor closed gets a close request; the closes that reach the pool are, by id, exactly those of the idle open iterators, each closing its own iterator, new to the pool and nothing else added; the database and its transactions are as they were |
| Legacy.RollbackIfUntouched | src/rocksdb/rocksdb.cpp:1278-1287 | one transaction of db_close's second loop gets a rollback worker exactly when none of its four flags is set; that worker, made at the next serial for this transaction, reaches the pool and adds one PriorityWorker count, and otherwise the pool, the serial and the counts are as they were (also lines 2408-2422) |
| Legacy.RollbackAllTransactions | src/rocksdb/rocksdb.cpp:1275-1288 | db_close's second loop: the rollbacks that reach the pool are, by id, exactly those of the untouched transactions, each rolling back its own transaction and new to the pool, and nothing else is added; each untouched transaction is marked rolling back, the count and in-flight workers grow by the number of rollbacks, and the registries and iterators are as they were |
| Legacy.CloseChildren | src/rocksdb/rocksdb.cpp:1262-1288 | the two loops in turn, against the iterators' and transactions' states before them: the pool gains exactly the closes of the idle open iterators and the rollbacks of the untouched transactions, all new to it, while the database's own close and the closes behind a running next stay parked out of it |
| Legacy.DbClose | src/rocksdb/rocksdb.cpp:1247-1291 | with no priority work the close is queued at once and nothing else changes; otherwise it is parked in pendingCloseWorker_ and stays out of the pool, the registries are kept, and the pool gains exactly the closes of the idle open iterators and the rollbacks of the untouched transactions, with one PriorityWorker count per rollback |
| Legacy.DeferClose | src/rocksdb/rocksdb.cpp:1259-1288 | the priority-work path of db_close: the close is parked in pendingCloseWorker_ first, then the two loops add exactly the closes of the idle open iterators and the rollbacks of the untouched transactions to the pool, leaving the registries as they were |
| Legacy.RollbacksExactly | src/rocksdb/rocksdb.cpp:1275-1288 | after the second loop has passed the ids below a bound, exactly the untouched transactions among them have a rollback, each for its own transaction and made no earlier than the loop began |
| Legacy.RollbacksCounted | src/rocksdb/rocksdb.cpp:1275-1288 | the second loop queues one rollback per untouched transaction it has passed, so the counts it adds equal the number of rollbacks |

## Left out

- N-API marshalling: argument parsing, `utils.cpp`, `Entry::Convert`/`ConvertByMode` and the JS values built for callbacks. These are foreign calls; the model keeps only each entry point's guard and lifecycle effect, and answers with a `Reply` value.
- RocksDB itself: open, get, put, write, multi-get, commit, approximate size, compaction, properties, destroy and repair, and the option and table configuration of `OpenWorker`. The engine is an input: a strictly sorted key view for cursors, and status values for every answer.
- The libuv pool and `napi_queue_async_work`: the pool is an abstract set of queued workers, completed one at a time in any order. Real threads and the timing of `DoExecute` against main-thread calls are not modelled.
- `napi_reference_ref`/`unref` and the garbage-collection timing that drives finalizers: counters are plain numbers, and the finalizers `GCDatabase`, `GCIterator`, `GCTransaction` and `GCSnapshot` are explicit operations.
- Memory management (`delete`, `delete this`, the slices and strings freed): engine objects that are deleted appear only as ghost counts of releases and deletions.
- `LOG_DEBUG` output, and `getenv`: the value of `NODE_DEBUG_NATIVE` is an input string.
- Ids are unbounded naturals: the source's `uint32_t` counters could wrap around after 2^32 handles and reuse an id; the model does not capture that.
- `iteratorNextv` does not reject a second next while one is in flight (src/rocksdb/napi/index.cpp:693-696); the model answers `Undefined` there and asserts nothing about it.
- `iteratorSeek` has no guard against a next in flight (src/rocksdb/napi/index.cpp:645-656): a seek while a `NextWorker` runs moves the cursor under it, a data race in the source. `Lifecycle.IteratorSeek` answers `Undefined` there and asserts nothing about it.
- Moving the engine cursor from an invalid position is undefined in RocksDB. `Cursors.BaseIterator.EngineNext` and `EnginePrev` leave the cursor where it is instead. The case is reachable: an `iteratorNextv` after a read that ran off the end calls `Next()` on an invalid cursor, because `first_` is false by then.
- `dbClose` does not short-circuit a repeated call and would overwrite the parked close (src/rocksdb/napi/index.cpp:342-348); the model keeps the overwrite, and answers `Undefined` when a close races an open still in the pool.
- A call on a database that is closing with its close already queued, or a database never opened, has undefined outcome in the source (the engine handle may already be deleted); `Lifecycle` answers `Undefined` and stops.
- `currentSnapshotId_` is not initialised by the database constructor (src/native/napi/database.cpp:20-28): the first snapshot id is a parameter of `Lifecycle.DbInit`, not 0.
- `transactionMultiGet` and `transactionMultiGetForUpdate` have no ready guard (src/rocksdb/napi/index.cpp:945-979): `LifecycleSafety.TransactionMultiGetInv` and the `TxnMultiGetOp` event require a transaction that has not finished, the condition of the worker constructor's assertion, and a call racing a queued commit or rollback answers `Undefined`.
- The clear worker's early return after a refused delete (src/native/napi/workers/iterator_workers.cpp:124 and 141) skips `iterator_->Close()` at line 151. `RangeWorkers.Clear`, `ClearDirect`, `ClearBatched` and `ClearAsWritten` return `closed == false` on that path and only there. The worker's destructor then deletes the unclosed iterator (line 109); that deletion is not modelled.
- RangeWorkers.IteratorCount: the iterator's status is one boolean, `iterOk`, for the whole run. With `iterOk` false the model stops after the first pass, while the source may count several passes before its status turns bad. Either way the error callback answers and the count is not reported.
- RangeWorkers.Clear: the same single `iterOk` covers the whole run. With `iterOk` false the model stops after the first pass, while the source may write several batches, or delete several passes in a transaction, before its status turns bad. Those earlier deletes are not represented.
- The native `IteratorClearWorker` and `IteratorCountWorker` always iterate forward (src/native/napi/workers/iterator_workers.cpp:91, 103, 160, 170). `RangeWorkers` takes `reverse` as a parameter, which covers both these and the rocksdb `ClearWorker`, which honours it.
- The per-operation `!hasClosed_` assertions of the engine wrappers (src/native/napi/database.cpp:65-133) and of the transaction's get, put and del (src/rocksdb/napi/transaction.cpp:105-156) are not restated per operation: `Lifecycle` seals a closed database and a finished transaction against new work, and `LifecycleRuns.InvAssertionsHold` covers the assertions the counters make.
- The destructors' assertions (`~Transaction`, `~Snapshot`, legacy `~BaseIterator` and `~Transaction`) are not modelled as operations; `LifecycleTeardown.HookTearsDown` shows that every handle is finished before the environment goes away.
- `GetForUpdate`'s `exclusive` flag, and the choice of a snapshot in the read options only when one is given, are passed straight to the engine and are not modelled.
- The headers (`*.h` other than `src/rocksdb/napi/utils.h`) are declarations and are not part of this model; some disagree with their `.cpp` files.
- The intermediate generation's `NextWorker::DoFinally` (src/rocksdb/napi/workers.cpp:398-408), `BatchWorker`/`BatchWriteWorker` (:425-429, 445-449), `GetManyWorker` (:147-170) and `ClearWorker` (:229-258) are the same code as the current ones and are modelled once, by `Handles.Iterator.NextFinally`, `Batches.BatchWorkerExecute`/`Batches.BatchWriteExecute`, `MultiGet.GetMany` and `RangeWorkers.ClearBatched`.
- The legacy monolith's `OutOfRange`, error classification, `ReadMany`, `ClearWorker` and `batch_do` (src/rocksdb/rocksdb.cpp:823-844, 472-494, 906-938, 1557-1585, 2064-2110) are the same code as their current forms and are modelled once, by `Cursors`, `Statuses`, `Handles.Iterator.ReadMany`, `RangeWorkers` and `Batches`. `src/rocksdb/napi/batch.cpp` is identical to `src/native/napi/batch.cpp` and shares `Batches.Batch`.
- Legacy.CloseAllIterators: says which closes reach the pool, not the snapshot releases that follow when those close workers complete; the completion of a close worker is modelled by `Legacy.Iterator.Close`.
- Legacy.TransactionCommit: the legacy commit reports a rollback before a commit, the opposite of the current ready guard; `Legacy.PrecedenceAgainstGuard` pins down exactly where they differ.

## Findings

| source | as written | input that shows it | evidently intended | confidence | as-written member | corrected member |
|---|---|---|---|---|---|---|
| src/native/napi/workers/iterator_workers.cpp:128-130 (also src/rocksdb/napi/workers/iterator_workers.cpp:126-128 and src/rocksdb/rocksdb.cpp:1574) | the batched clear stops as soon as a pass read 0 bytes, before writing that pass's batch | a range holding only the empty key: its one entry costs 0 bytes, so its delete is put in the batch and never written | stop only when a pass read no entry, after writing whatever the pass collected | not executed | RangeWorkers.ClearAsWritten, RangeWorkers.EmptyKeyLeftOver | RangeWorkers.Clear |
