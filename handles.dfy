// The handles of the current generation and their own bookkeeping:
// Database (native/napi/database.cpp), Transaction (rocksdb/napi/
// transaction.cpp), Snapshot and TransactionSnapshot (rocksdb/napi/
// snapshot.cpp) and Iterator (rocksdb/napi/iterator.cpp), together with the
// abstract worker pool their deferred workers are queued on.
//
// The libuv pool records the workers handed to it; the N-API
// reference count that Database and Transaction keep their pending work in
// is a plain counter (for Transaction a ghost `refs` stands for the
// reference count and `pendingWork` for the field it is copied into).

module Handles {
  import opened Common
  import opened Keys
  import opened Cursors
  import opened Statuses
  import opened Workers

  /**
   * The libuv pool, as far as the main thread can tell: the workers handed
   * to napi_queue_async_work so far. Which of them are still to complete is
   * recorded beside their handles (see the Lifecycle module).
   */
  class Pool {
    /** Every worker ever handed to napi_queue_async_work. */
    ghost var everQueued: set<Job>
    var nextSerial: nat

    constructor ()
      ensures everQueued == {} && nextSerial == 0
    {
      everQueued := {};
      nextSerial := 0;
    }

    /** `new XWorker(...)`: a worker object distinct from every earlier one. */
    method NewJob(w: Work) returns (j: Job)
      modifies this`nextSerial
      ensures j == Job(old(nextSerial), w) && nextSerial == old(nextSerial) + 1
    {
      j := Job(nextSerial, w);
      nextSerial := nextSerial + 1;
    }

    /** BaseWorker::Queue: an async work item may be queued only once. */
    method Queue(j: Job)
      requires j !in everQueued
      modifies this`everQueued
      ensures everQueued == old(everQueued) + {j}
    {
      everQueued := everQueued + {j};
    }
  }

  class Database {
    /** db_ != nullptr */
    var open: bool
    var isClosing: bool
    var hasClosed: bool
    var currentIteratorId: nat
    var currentTransactionId: nat
    var currentSnapshotId: nat
    var closeWorker: Option<Job>
    /** ref_ != nullptr */
    var attached: bool
    var pendingWork: nat
    var iterators: map<nat, Iterator>
    var transactions: map<nat, Transaction>
    var snapshots: map<nat, Snapshot>
    /** PriorityWorkers on this database constructed and not yet finished. */
    ghost var inflight: nat
    /** How many times db_ was deleted. */
    ghost var deletions: nat

    /**
     * The counter is the baseline 0 plus one per registered child and one
     * per unfinished PriorityWorker; the engine is deleted once, on close.
     */
    ghost predicate Valid()
      reads this
    {
      pendingWork == |iterators| + |transactions| + |snapshots| + inflight
      && deletions == (if hasClosed then 1 else 0)
      && (forall id :: id in iterators ==> id < currentIteratorId)
      && (forall id :: id in transactions ==> id < currentTransactionId)
      && (forall id :: id in snapshots ==> id < currentSnapshotId)
    }

    /** currentSnapshotId_ is left uninitialised by the constructor, so its start is a parameter. */
    constructor (snapshotIdStart: nat)
      ensures Valid() && !open && !isClosing && !hasClosed && !attached
      ensures currentIteratorId == 0 && currentTransactionId == 0 && currentSnapshotId == snapshotIdStart
      ensures closeWorker == None && pendingWork == 0 && inflight == 0
      ensures iterators == map[] && transactions == map[] && snapshots == map[]
    {
      open := false;
      isClosing := false;
      hasClosed := false;
      currentIteratorId := 0;
      currentTransactionId := 0;
      currentSnapshotId := snapshotIdStart;
      closeWorker := None;
      attached := false;
      pendingWork := 0;
      iterators := map[];
      transactions := map[];
      snapshots := map[];
      inflight := 0;
      deletions := 0;
    }

    /** The reference is created once, at count 0, so the baseline is 0. */
    method Attach()
      modifies this`attached
      ensures attached
    {
      if attached {
        return;
      }
      attached := true;
    }

    method Detach()
      modifies this`attached
      ensures !attached
    {
      if !attached {
        return;
      }
      attached := false;
    }

    /** OpenWorker::DoExecute: the engine handle is set exactly when the engine opened. */
    method Open(engineOpened: bool)
      modifies this`open
      ensures open == engineOpened
    {
      open := engineOpened;
    }

    /** The first call closes and deletes the engine; later calls change nothing. */
    method Close()
      modifies this`hasClosed, this`open, this`deletions
      ensures hasClosed
      ensures old(hasClosed) ==> open == old(open) && deletions == old(deletions)
      ensures !old(hasClosed) ==> !open && deletions == old(deletions) + 1
    {
      if hasClosed {
        return;
      }
      hasClosed := true;
      open := false;
      deletions := deletions + 1;
    }

    function HasPendingWork(): bool
      reads this
    {
      pendingWork > 0
    }

    /** With the baseline 0, pending work means a child or an unfinished PriorityWorker. */
    lemma PendingWorkMeansWork()
      requires Valid()
      ensures HasPendingWork() <==>
        |iterators| > 0 || |transactions| > 0 || |snapshots| > 0 || inflight > 0
    {
    }

    /**
     * Unlike Transaction's, this ignores `attached`: every caller runs
     * between Attach and Detach of the database reference, so the unattached
     * case is not reached.
     */
    method IncrementPendingWork()
      requires !hasClosed
      modifies this`pendingWork
      ensures pendingWork == old(pendingWork) + 1
    {
      pendingWork := pendingWork + 1;
    }

    /**
     * napi_reference_unref leaves a count of 0 as it is; reaching 0 with a
     * parked close worker queues it and empties the slot.
     */
    method DecrementPendingWork(pool: Pool)
      requires closeWorker.Some? ==> closeWorker.value !in pool.everQueued
      modifies this`pendingWork, this`closeWorker, pool`everQueued
      ensures pendingWork == if old(pendingWork) > 0 then old(pendingWork) - 1 else 0
      ensures old(closeWorker).Some? && pendingWork == 0 ==>
        closeWorker == None && pool.everQueued == old(pool.everQueued) + {old(closeWorker).value}
      ensures !(old(closeWorker).Some? && pendingWork == 0) ==>
        closeWorker == old(closeWorker) && pool.everQueued == old(pool.everQueued)
    {
      if pendingWork > 0 {
        pendingWork := pendingWork - 1;
      }
      if closeWorker.Some? && pendingWork == 0 {
        pool.Queue(closeWorker.value);
        closeWorker := None;
      }
    }

    method AttachIterator(id: nat, it: Iterator)
      requires !hasClosed
      modifies this`iterators, this`pendingWork
      ensures iterators == old(iterators)[id := it] && pendingWork == old(pendingWork) + 1
    {
      iterators := iterators[id := it];
      IncrementPendingWork();
    }

    method DetachIterator(id: nat, pool: Pool)
      requires closeWorker.Some? ==> closeWorker.value !in pool.everQueued
      modifies this`iterators, this`pendingWork, this`closeWorker, pool`everQueued
      ensures iterators == old(iterators) - {id}
      ensures pendingWork == if old(pendingWork) > 0 then old(pendingWork) - 1 else 0
      ensures old(closeWorker).Some? && pendingWork == 0 ==>
        closeWorker == None && pool.everQueued == old(pool.everQueued) + {old(closeWorker).value}
      ensures !(old(closeWorker).Some? && pendingWork == 0) ==>
        closeWorker == old(closeWorker) && pool.everQueued == old(pool.everQueued)
    {
      iterators := iterators - {id};
      DecrementPendingWork(pool);
    }

    method AttachTransaction(id: nat, transaction: Transaction)
      requires !hasClosed
      modifies this`transactions, this`pendingWork
      ensures transactions == old(transactions)[id := transaction] && pendingWork == old(pendingWork) + 1
    {
      transactions := transactions[id := transaction];
      IncrementPendingWork();
    }

    method DetachTransaction(id: nat, pool: Pool)
      requires closeWorker.Some? ==> closeWorker.value !in pool.everQueued
      modifies this`transactions, this`pendingWork, this`closeWorker, pool`everQueued
      ensures transactions == old(transactions) - {id}
      ensures pendingWork == if old(pendingWork) > 0 then old(pendingWork) - 1 else 0
      ensures old(closeWorker).Some? && pendingWork == 0 ==>
        closeWorker == None && pool.everQueued == old(pool.everQueued) + {old(closeWorker).value}
      ensures !(old(closeWorker).Some? && pendingWork == 0) ==>
        closeWorker == old(closeWorker) && pool.everQueued == old(pool.everQueued)
    {
      transactions := transactions - {id};
      DecrementPendingWork(pool);
    }

    method AttachSnapshot(id: nat, snapshot: Snapshot)
      requires !hasClosed
      modifies this`snapshots, this`pendingWork
      ensures snapshots == old(snapshots)[id := snapshot] && pendingWork == old(pendingWork) + 1
    {
      snapshots := snapshots[id := snapshot];
      IncrementPendingWork();
    }

    method DetachSnapshot(id: nat, pool: Pool)
      requires closeWorker.Some? ==> closeWorker.value !in pool.everQueued
      modifies this`snapshots, this`pendingWork, this`closeWorker, pool`everQueued
      ensures snapshots == old(snapshots) - {id}
      ensures pendingWork == if old(pendingWork) > 0 then old(pendingWork) - 1 else 0
      ensures old(closeWorker).Some? && pendingWork == 0 ==>
        closeWorker == None && pool.everQueued == old(pool.everQueued) + {old(closeWorker).value}
      ensures !(old(closeWorker).Some? && pendingWork == 0) ==>
        closeWorker == old(closeWorker) && pool.everQueued == old(pool.everQueued)
    {
      snapshots := snapshots - {id};
      DecrementPendingWork(pool);
    }

    /** PriorityWorker's constructor: the worker holds the database's counter. */
    method BeginPriorityWork()
      requires !hasClosed
      modifies this`pendingWork, this`inflight
      ensures pendingWork == old(pendingWork) + 1 && inflight == old(inflight) + 1
    {
      inflight := inflight + 1;
      IncrementPendingWork();
    }

    /** PriorityWorker::DoFinally: the worker lets go of the counter. */
    method EndPriorityWork(pool: Pool)
      requires inflight > 0
      requires closeWorker.Some? ==> closeWorker.value !in pool.everQueued
      modifies this`pendingWork, this`inflight, this`closeWorker, pool`everQueued
      ensures inflight == old(inflight) - 1
      ensures pendingWork == if old(pendingWork) > 0 then old(pendingWork) - 1 else 0
      ensures old(closeWorker).Some? && pendingWork == 0 ==>
        closeWorker == None && pool.everQueued == old(pool.everQueued) + {old(closeWorker).value}
      ensures !(old(closeWorker).Some? && pendingWork == 0) ==>
        closeWorker == old(closeWorker) && pool.everQueued == old(pool.everQueued)
    {
      inflight := inflight - 1;
      DecrementPendingWork(pool);
    }
  }

  class Transaction {
    const database: Database
    const id: nat
    /** tran_ != nullptr */
    var live: bool
    var isCommitting: bool
    var hasCommitted: bool
    var isRollbacking: bool
    var hasRollbacked: bool
    var currentIteratorId: nat
    var closeWorker: Option<Job>
    /** ref_ != nullptr */
    var attached: bool
    /** The field the reference count is copied into; it starts at 0. */
    var pendingWork: nat
    /** The N-API reference count, created at 1. */
    var refs: nat
    var iterators: map<nat, Iterator>
    /** Snapshots taken with SetSnapshot. */
    var snapshotsTaken: nat
    ghost var inflight: nat
    /** How many times tran_ was committed or rolled back and deleted. */
    ghost var releases: nat

    predicate Terminal()
      reads this
    {
      hasCommitted || hasRollbacked
    }

    /**
     * While attached, the reference count is the baseline 1 plus one per
     * iterator and one per unfinished PriorityWorker, and the field holds it
     * except before the first update; at most one terminal action happened.
     */
    ghost predicate Valid()
      reads this
    {
      (attached ==> refs == 1 + |iterators| + inflight && (pendingWork == refs || (pendingWork == 0 && refs == 1)))
      && !(hasCommitted && hasRollbacked)
      && releases == (if Terminal() then 1 else 0)
      && live == !Terminal()
      && (forall i :: i in iterators ==> i < currentIteratorId)
    }

    /** Database::NewTransaction asserts the database is open. */
    constructor (database: Database, id: nat)
      requires !database.hasClosed
      ensures this.database == database && this.id == id
      ensures Valid() && live && !attached && !isCommitting && !isRollbacking && !Terminal()
      ensures closeWorker == None && iterators == map[] && currentIteratorId == 0
      ensures pendingWork == 0 && inflight == 0 && refs == 0 && snapshotsTaken == 0
    {
      this.database := database;
      this.id := id;
      live := true;
      isCommitting := false;
      hasCommitted := false;
      isRollbacking := false;
      hasRollbacked := false;
      currentIteratorId := 0;
      closeWorker := None;
      attached := false;
      pendingWork := 0;
      refs := 0;
      iterators := map[];
      snapshotsTaken := 0;
      inflight := 0;
      releases := 0;
    }

    function HasPendingWork(): bool
      reads this
    {
      pendingWork > 1
    }

    /** With the baseline 1, pending work means an iterator or an unfinished PriorityWorker. */
    lemma PendingWorkMeansWork()
      requires Valid() && attached
      ensures HasPendingWork() <==> |iterators| > 0 || inflight > 0
    {
    }

    /** The reference is created once, at count 1, and registers the transaction with its database. */
    method Attach()
      requires !attached ==> !database.hasClosed
      modifies this`attached, this`refs, database`transactions, database`pendingWork
      ensures attached
      ensures old(attached) ==> refs == old(refs) && database.transactions == old(database.transactions)
                                && database.pendingWork == old(database.pendingWork)
      ensures !old(attached) ==> refs == 1 && database.transactions == old(database.transactions)[id := this]
                                 && database.pendingWork == old(database.pendingWork) + 1
    {
      if attached {
        return;
      }
      attached := true;
      refs := 1;
      database.AttachTransaction(id, this);
    }

    /** Unregisters from the database once and deletes the reference. */
    method Detach(pool: Pool)
      requires database.closeWorker.Some? ==> database.closeWorker.value !in pool.everQueued
      modifies this`attached, this`refs, database`transactions, database`pendingWork, database`closeWorker
      modifies pool`everQueued
      ensures !attached
      ensures old(attached) ==> refs == 0 && database.transactions == old(database.transactions) - {id}
      ensures old(attached) ==> database.pendingWork == if old(database.pendingWork) > 0 then old(database.pendingWork) - 1 else 0
      ensures old(attached) && old(database.closeWorker).Some? && database.pendingWork == 0 ==>
        database.closeWorker == None && pool.everQueued == old(pool.everQueued) + {old(database.closeWorker).value}
      ensures !(old(attached) && old(database.closeWorker).Some? && database.pendingWork == 0) ==>
        database.closeWorker == old(database.closeWorker) && pool.everQueued == old(pool.everQueued)
      ensures !old(attached) ==> refs == old(refs) && database.transactions == old(database.transactions)
                                 && database.pendingWork == old(database.pendingWork)
    {
      if !attached {
        return;
      }
      database.DetachTransaction(id, pool);
      attached := false;
      refs := 0;
    }

    /** Commits once, then answers OK; a rolled-back transaction cannot commit. */
    method Commit(outcome: Status) returns (s: Status)
      requires !hasRollbacked
      modifies this`hasCommitted, this`live, this`releases
      ensures hasCommitted
      ensures old(hasCommitted) ==> s == OkStatus && live == old(live) && releases == old(releases)
      ensures !old(hasCommitted) ==> s == outcome && !live && releases == old(releases) + 1
    {
      if hasCommitted {
        return OkStatus;
      }
      hasCommitted := true;
      s := outcome;
      live := false;
      releases := releases + 1;
    }

    /** Rolls back once, then answers OK; a committed transaction cannot roll back. */
    method Rollback(outcome: Status) returns (s: Status)
      requires !hasCommitted
      modifies this`hasRollbacked, this`live, this`releases
      ensures hasRollbacked
      ensures old(hasRollbacked) ==> s == OkStatus && live == old(live) && releases == old(releases)
      ensures !old(hasRollbacked) ==> s == outcome && !live && releases == old(releases) + 1
    {
      if hasRollbacked {
        return OkStatus;
      }
      hasRollbacked := true;
      s := outcome;
      live := false;
      releases := releases + 1;
    }

    /** SetSnapshot asserts the transaction is still open. */
    method SetSnapshot()
      requires !Terminal()
      modifies this`snapshotsTaken
      ensures snapshotsTaken == old(snapshotsTaken) + 1
    {
      snapshotsTaken := snapshotsTaken + 1;
    }

    /** GetSnapshot asserts the transaction is still open and gives the last snapshot taken. */
    method GetSnapshot() returns (snap: nat)
      requires !Terminal()
      ensures snap == snapshotsTaken
    {
      snap := snapshotsTaken;
    }

    /** napi_reference_ref, with the result copied into the field; it asserts an open transaction. */
    method IncrementPendingWork()
      requires !Terminal()
      modifies this`refs, this`pendingWork
      ensures attached ==> refs == old(refs) + 1 && pendingWork == refs
      ensures !attached ==> refs == old(refs) && pendingWork == old(pendingWork)
    {
      if attached {
        refs := refs + 1;
        pendingWork := refs;
      }
    }

    /** Landing on the baseline 1 with a parked commit or rollback queues it and empties the slot. */
    method DecrementPendingWork(pool: Pool)
      requires closeWorker.Some? ==> closeWorker.value !in pool.everQueued
      modifies this`refs, this`pendingWork, this`closeWorker, pool`everQueued
      ensures attached && old(refs) > 0 ==> refs == old(refs) - 1 && pendingWork == refs
      ensures !(attached && old(refs) > 0) ==> refs == old(refs) && pendingWork == old(pendingWork)
      ensures old(closeWorker).Some? && pendingWork == 1 ==>
        closeWorker == None && pool.everQueued == old(pool.everQueued) + {old(closeWorker).value}
      ensures !(old(closeWorker).Some? && pendingWork == 1) ==>
        closeWorker == old(closeWorker) && pool.everQueued == old(pool.everQueued)
    {
      if attached && refs > 0 {
        refs := refs - 1;
        pendingWork := refs;
      }
      if closeWorker.Some? && pendingWork == 1 {
        pool.Queue(closeWorker.value);
        closeWorker := None;
      }
    }

    method AttachIterator(iteratorId: nat, it: Iterator)
      requires !Terminal()
      modifies this`iterators, this`refs, this`pendingWork
      ensures iterators == old(iterators)[iteratorId := it]
      ensures attached ==> refs == old(refs) + 1 && pendingWork == refs
      ensures !attached ==> refs == old(refs) && pendingWork == old(pendingWork)
    {
      iterators := iterators[iteratorId := it];
      IncrementPendingWork();
    }

    method DetachIterator(iteratorId: nat, pool: Pool)
      requires closeWorker.Some? ==> closeWorker.value !in pool.everQueued
      modifies this`iterators, this`refs, this`pendingWork, this`closeWorker, pool`everQueued
      ensures iterators == old(iterators) - {iteratorId}
      ensures attached && old(refs) > 0 ==> refs == old(refs) - 1 && pendingWork == refs
      ensures !(attached && old(refs) > 0) ==> refs == old(refs) && pendingWork == old(pendingWork)
      ensures old(closeWorker).Some? && pendingWork == 1 ==>
        closeWorker == None && pool.everQueued == old(pool.everQueued) + {old(closeWorker).value}
      ensures !(old(closeWorker).Some? && pendingWork == 1) ==>
        closeWorker == old(closeWorker) && pool.everQueued == old(pool.everQueued)
    {
      iterators := iterators - {iteratorId};
      DecrementPendingWork(pool);
    }

    /** PriorityWorker's constructor on a transaction. */
    method BeginPriorityWork()
      requires !Terminal()
      modifies this`refs, this`pendingWork, this`inflight
      ensures inflight == old(inflight) + 1
      ensures attached ==> refs == old(refs) + 1 && pendingWork == refs
      ensures !attached ==> refs == old(refs) && pendingWork == old(pendingWork)
    {
      inflight := inflight + 1;
      IncrementPendingWork();
    }

    /** PriorityWorker::DoFinally on a transaction. */
    method EndPriorityWork(pool: Pool)
      requires inflight > 0
      requires closeWorker.Some? ==> closeWorker.value !in pool.everQueued
      modifies this`refs, this`pendingWork, this`inflight, this`closeWorker, pool`everQueued
      ensures inflight == old(inflight) - 1
      ensures attached && old(refs) > 0 ==> refs == old(refs) - 1 && pendingWork == refs
      ensures !(attached && old(refs) > 0) ==> refs == old(refs) && pendingWork == old(pendingWork)
      ensures old(closeWorker).Some? && pendingWork == 1 ==>
        closeWorker == None && pool.everQueued == old(pool.everQueued) + {old(closeWorker).value}
      ensures !(old(closeWorker).Some? && pendingWork == 1) ==>
        closeWorker == old(closeWorker) && pool.everQueued == old(pool.everQueued)
    {
      inflight := inflight - 1;
      DecrementPendingWork(pool);
    }
  }

  /** A snapshot taken inside a transaction: it is never registered anywhere. */
  class TransactionSnapshot {
    const transaction: Transaction
    const snap: nat

    constructor (transaction: Transaction)
      requires !transaction.Terminal()
      modifies transaction`snapshotsTaken
      ensures this.transaction == transaction
      ensures transaction.snapshotsTaken == old(transaction.snapshotsTaken) + 1 && snap == transaction.snapshotsTaken
    {
      this.transaction := transaction;
      transaction.SetSnapshot();
      var s := transaction.GetSnapshot();
      snap := s;
    }
  }

  class Snapshot {
    const database: Database
    const id: nat
    var isReleasing: bool
    var hasReleased: bool
    /** ref_ != nullptr */
    var attached: bool
    /** How many times snap_ was handed back to the database. */
    ghost var handedBack: nat

    ghost predicate Valid()
      reads this
    {
      handedBack == if hasReleased then 1 else 0
    }

    /** Database::NewSnapshot asserts the database is open. */
    constructor (database: Database, id: nat)
      requires !database.hasClosed
      ensures this.database == database && this.id == id
      ensures Valid() && !isReleasing && !hasReleased && !attached
    {
      this.database := database;
      this.id := id;
      isReleasing := false;
      hasReleased := false;
      attached := false;
      handedBack := 0;
    }

    /** Registers with the database at most once. */
    method Attach()
      requires !attached ==> !database.hasClosed
      modifies this`attached, database`snapshots, database`pendingWork
      ensures attached
      ensures old(attached) ==> database.snapshots == old(database.snapshots) && database.pendingWork == old(database.pendingWork)
      ensures !old(attached) ==> database.snapshots == old(database.snapshots)[id := this]
                                 && database.pendingWork == old(database.pendingWork) + 1
    {
      if attached {
        return;
      }
      attached := true;
      database.AttachSnapshot(id, this);
    }

    /** Unregisters at most once. */
    method Detach(pool: Pool)
      requires database.closeWorker.Some? ==> database.closeWorker.value !in pool.everQueued
      modifies this`attached, database`snapshots, database`pendingWork, database`closeWorker, pool`everQueued
      ensures !attached
      ensures old(attached) ==> database.snapshots == old(database.snapshots) - {id}
      ensures old(attached) ==> database.pendingWork == if old(database.pendingWork) > 0 then old(database.pendingWork) - 1 else 0
      ensures old(attached) && old(database.closeWorker).Some? && database.pendingWork == 0 ==>
        database.closeWorker == None && pool.everQueued == old(pool.everQueued) + {old(database.closeWorker).value}
      ensures !(old(attached) && old(database.closeWorker).Some? && database.pendingWork == 0) ==>
        database.closeWorker == old(database.closeWorker) && pool.everQueued == old(pool.everQueued)
      ensures !old(attached) ==> database.snapshots == old(database.snapshots) && database.pendingWork == old(database.pendingWork)
    {
      if !attached {
        return;
      }
      database.DetachSnapshot(id, pool);
      attached := false;
    }

    /** Hands snap_ back once; Database::ReleaseSnapshot asserts the database is open. */
    method Release()
      requires !hasReleased ==> !database.hasClosed
      modifies this`hasReleased, this`handedBack
      ensures hasReleased
      ensures handedBack == if old(hasReleased) then old(handedBack) else old(handedBack) + 1
    {
      if hasReleased {
        return;
      }
      hasReleased := true;
      handedBack := handedBack + 1;
    }
  }

  /** BaseIterator's database_ or transaction_: exactly one of them is set. */
  datatype Owner = OfDatabase(database: Database) | OfTransaction(transaction: Transaction)

  datatype Entry = Entry(key: Bytes, value: Bytes)

  /** What one entry adds to the cache in the iterator's mode. */
  function Emit(e: Entry, keys: bool, values: bool): seq<Entry> {
    if keys && values then [e]
    else if keys then [Entry(e.key, [])]
    else if values then [Entry([], e.value)]
    else []
  }

  /** The bytes one entry counts against the high-water mark in the iterator's mode. */
  function Cost(e: Entry, keys: bool, values: bool): nat {
    if keys && values then |e.key| + |e.value|
    else if values then |e.value|
    else 0
  }

  /** The cache ReadMany leaves after reading `read`. */
  function Shape(read: seq<Entry>, keys: bool, values: bool): seq<Entry> {
    if |read| == 0 then [] else Shape(read[..|read| - 1], keys, values) + Emit(read[|read| - 1], keys, values)
  }

  /** The bytesRead ReadMany has counted after reading `read`. */
  function ReadBytes(read: seq<Entry>, keys: bool, values: bool): nat {
    if |read| == 0 then 0 else ReadBytes(read[..|read| - 1], keys, values) + Cost(read[|read| - 1], keys, values)
  }

  /** The test that ends a read: more bytes than the mark, or enough entries. */
  predicate Full(read: seq<Entry>, keys: bool, values: bool, size: nat, highWaterMarkBytes: nat) {
    ReadBytes(read, keys, values) > highWaterMarkBytes || |Shape(read, keys, values)| >= size
  }

  /** Keys only: nothing counts against the mark. */
  lemma {:induction false} KeysOnlyReadsNoBytes(read: seq<Entry>)
    ensures ReadBytes(read, true, false) == 0
  {
    if |read| > 0 {
      KeysOnlyReadsNoBytes(read[..|read| - 1]);
    }
  }

  /** In any mode with keys or values the cache has one entry per entry read, shaped by the mode. */
  lemma {:induction false} ShapeEntries(read: seq<Entry>, keys: bool, values: bool)
    requires keys || values
    ensures |Shape(read, keys, values)| == |read|
    ensures forall i :: 0 <= i < |read| ==>
      Shape(read, keys, values)[i] == Entry(if keys then read[i].key else [], if values then read[i].value else [])
  {
    if |read| > 0 {
      ShapeEntries(read[..|read| - 1], keys, values);
    }
  }

  /** Neither keys nor values: the cache stays empty and no bytes count. */
  lemma {:induction false} NeitherCachesNothing(read: seq<Entry>)
    ensures Shape(read, false, false) == [] && ReadBytes(read, false, false) == 0
  {
    if |read| > 0 {
      NeitherCachesNothing(read[..|read| - 1]);
    }
  }

  /** Keys only: a read is full exactly when it holds `size` entries. */
  lemma KeysOnlyFullAtSize(read: seq<Entry>, size: nat, highWaterMarkBytes: nat)
    ensures Full(read, true, false, size, highWaterMarkBytes) <==> |read| >= size
  {
    KeysOnlyReadsNoBytes(read);
    ShapeEntries(read, true, false);
  }

  /** Neither keys nor values and a size of at least 1: no read is ever full. */
  lemma NeitherNeverFull(read: seq<Entry>, size: nat, highWaterMarkBytes: nat)
    requires size >= 1
    ensures !Full(read, false, false, size, highWaterMarkBytes)
  {
    NeitherCachesNothing(read);
  }

  class Iterator {
    const base: BaseIterator
    const owner: Owner
    const id: nat
    const keys: bool
    const values: bool
    const highWaterMarkBytes: nat
    var first: bool
    var nexting: bool
    var isClosing: bool
    var closeWorker: Option<Job>
    /** ref_ != nullptr */
    var attached: bool
    var cache: seq<Entry>

    /**
     * The engine iterator comes from Database::NewIterator or
     * Transaction::GetIterator, which assert an open owner; `store` and
     * `storeValues` are the sorted view it walks.
     */
    constructor (owner: Owner, id: nat, store: seq<Bytes>, storeValues: seq<Bytes>, reverse: bool, range: Range,
                 limit: int, keys: bool, values: bool, highWaterMarkBytes: nat)
      requires StrictlySorted(store) && |storeValues| == |store|
      requires owner.OfDatabase? ==> !owner.database.hasClosed
      requires owner.OfTransaction? ==> !owner.transaction.Terminal()
      ensures this.owner == owner && this.id == id && this.keys == keys && this.values == values
      ensures this.highWaterMarkBytes == highWaterMarkBytes && fresh(base)
      ensures base.keys == store && base.values == storeValues && base.reverse == reverse
      ensures base.range == range && base.limit == limit
      ensures base.Inv() && !base.hasClosed && !base.didSeek && base.count == 0
      ensures first && !nexting && !isClosing && closeWorker == None && !attached && cache == []
    {
      base := new BaseIterator(store, storeValues, reverse, range, limit);
      this.owner := owner;
      this.id := id;
      this.keys := keys;
      this.values := values;
      this.highWaterMarkBytes := highWaterMarkBytes;
      first := true;
      nexting := false;
      isClosing := false;
      closeWorker := None;
      attached := false;
      cache := [];
    }

    /** Iterator::Attach for an iterator of the database: registers with it at most once. */
    method AttachToDatabase(d: Database)
      requires owner == OfDatabase(d)
      requires !attached ==> !d.hasClosed
      modifies this`attached, d`iterators, d`pendingWork
      ensures attached
      ensures old(attached) ==> d.iterators == old(d.iterators) && d.pendingWork == old(d.pendingWork)
      ensures !old(attached) ==> d.iterators == old(d.iterators)[id := this] && d.pendingWork == old(d.pendingWork) + 1
    {
      if attached {
        return;
      }
      attached := true;
      d.AttachIterator(id, this);
    }

    /** Iterator::Attach for an iterator of a transaction: registers with it at most once. */
    method AttachToTransaction(t: Transaction)
      requires owner == OfTransaction(t)
      requires !attached ==> !t.Terminal()
      modifies this`attached, t`iterators, t`refs, t`pendingWork
      ensures attached
      ensures old(attached) ==> t.iterators == old(t.iterators) && t.refs == old(t.refs) && t.pendingWork == old(t.pendingWork)
      ensures !old(attached) ==> t.iterators == old(t.iterators)[id := this]
      ensures !old(attached) && t.attached ==> t.refs == old(t.refs) + 1 && t.pendingWork == t.refs
      ensures !old(attached) && !t.attached ==> t.refs == old(t.refs) && t.pendingWork == old(t.pendingWork)
    {
      if attached {
        return;
      }
      attached := true;
      t.AttachIterator(id, this);
    }

    /** Iterator::Detach for an iterator of the database: unregisters at most once. */
    method DetachFromDatabase(d: Database, pool: Pool)
      requires owner == OfDatabase(d)
      requires d.closeWorker.Some? ==> d.closeWorker.value !in pool.everQueued
      modifies this`attached, d`iterators, d`pendingWork, d`closeWorker, pool`everQueued
      ensures !attached
      ensures old(attached) ==> d.iterators == old(d.iterators) - {id}
      ensures old(attached) ==> d.pendingWork == if old(d.pendingWork) > 0 then old(d.pendingWork) - 1 else 0
      ensures old(attached) && old(d.closeWorker).Some? && d.pendingWork == 0 ==>
        d.closeWorker == None && pool.everQueued == old(pool.everQueued) + {old(d.closeWorker).value}
      ensures !(old(attached) && old(d.closeWorker).Some? && d.pendingWork == 0) ==>
        d.closeWorker == old(d.closeWorker) && pool.everQueued == old(pool.everQueued)
      ensures !old(attached) ==> d.iterators == old(d.iterators) && d.pendingWork == old(d.pendingWork)
    {
      if !attached {
        return;
      }
      d.DetachIterator(id, pool);
      attached := false;
    }

    /** Iterator::Detach for an iterator of a transaction: unregisters at most once. */
    method DetachFromTransaction(t: Transaction, pool: Pool)
      requires owner == OfTransaction(t)
      requires t.closeWorker.Some? ==> t.closeWorker.value !in pool.everQueued
      modifies this`attached, t`iterators, t`refs, t`pendingWork, t`closeWorker, pool`everQueued
      ensures !attached
      ensures old(attached) ==> t.iterators == old(t.iterators) - {id}
      ensures old(attached) && t.attached && old(t.refs) > 0 ==> t.refs == old(t.refs) - 1 && t.pendingWork == t.refs
      ensures !(old(attached) && t.attached && old(t.refs) > 0) ==> t.refs == old(t.refs) && t.pendingWork == old(t.pendingWork)
      ensures old(attached) && old(t.closeWorker).Some? && t.pendingWork == 1 ==>
        t.closeWorker == None && pool.everQueued == old(pool.everQueued) + {old(t.closeWorker).value}
      ensures !(old(attached) && old(t.closeWorker).Some? && t.pendingWork == 1) ==>
        t.closeWorker == old(t.closeWorker) && pool.everQueued == old(pool.everQueued)
      ensures !old(attached) ==> t.iterators == old(t.iterators)
    {
      if !attached {
        return;
      }
      t.DetachIterator(id, pool);
      attached := false;
    }

    /** Closes the engine iterator once. */
    method Close()
      modifies base`hasClosed
      ensures base.hasClosed
    {
      base.Close();
    }

    /** Where a read starts: at the cursor after a seek, else one step on. */
    function StartOf(first: bool, pos: int): int {
      if first || !(0 <= pos < |base.keys|) then pos else Offset(pos, 1)
    }

    ghost function Start(): int
      reads this`first, base
    {
      StartOf(first, base.pos)
    }

    /** BaseIterator::Valid on the cursor position `pos`. */
    predicate ValidAt(pos: int) {
      0 <= pos < |base.keys| && !OutOfRange(base.range, base.keys[pos])
    }

    /** The position `i` steps from `start` in the iteration direction. */
    function Offset(start: int, i: nat): int {
      if base.reverse then start - i else start + i
    }

    /** How far the cursor can still move in the iteration direction. */
    function RemainingOf(first: bool, pos: int): int {
      (if base.reverse then pos + 1 else |base.keys| - pos) + (if first then 1 else 0)
    }

    ghost function Remaining(): int
      reads this`first, base
    {
      RemainingOf(first, base.pos)
    }

    /** The entries read are those of the range at consecutive positions from `start`. */
    ghost predicate Walked(read: seq<Entry>, start: int)
    {
      |base.values| == |base.keys|
      && forall i :: 0 <= i < |read| ==>
           0 <= Offset(start, i) < |base.keys| && !OutOfRange(base.range, base.keys[Offset(start, i)])
           && read[i] == Entry(base.keys[Offset(start, i)], base.values[Offset(start, i)])
    }

    /** No prefix of `read` is full, so the loop went on after each of its entries. */
    ghost predicate Unfilled(read: seq<Entry>, size: nat)
    {
      |read| == 0 || (!Full(read, keys, values, size, highWaterMarkBytes) && Unfilled(read[..|read| - 1], size))
    }

    /** No entry before the last one filled the read. */
    ghost predicate NotFullBefore(read: seq<Entry>, size: nat)
    {
      |read| == 0 || Unfilled(read[..|read| - 1], size)
    }

    /** The first pass reads the current entry; later passes step first. */
    method Advance() returns (got: bool)
      requires base.Inv() && !base.hasClosed
      modifies this`first, base`pos, base`count
      ensures base.Inv() && !first
      ensures base.pos == old(Start())
      ensures got <==> base.Valid() && (base.limit < 0 || old(base.count) + 1 <= base.limit)
      ensures base.count == old(base.count) + (if base.limit >= 0 && base.Valid() then 1 else 0)
      ensures got ==> Remaining() < old(Remaining())
    {
      if !first {
        base.Next();
      } else {
        first := false;
      }
      got := base.Valid();
      if got {
        got := base.Increment();
      }
    }

    lemma WalkedSnoc(read: seq<Entry>, start: int)
      requires Walked(read, start)
      requires 0 <= Offset(start, |read|) < |base.keys| && !OutOfRange(base.range, base.keys[Offset(start, |read|)])
      ensures Walked(read + [Entry(base.keys[Offset(start, |read|)], base.values[Offset(start, |read|)])], start)
    {
    }

    lemma ShapeSnoc(read: seq<Entry>, e: Entry, size: nat)
      requires Unfilled(read, size)
      ensures Shape(read + [e], keys, values) == Shape(read, keys, values) + Emit(e, keys, values)
      ensures ReadBytes(read + [e], keys, values) == ReadBytes(read, keys, values) + Cost(e, keys, values)
      ensures NotFullBefore(read + [e], size)
      ensures !Full(read + [e], keys, values, size, highWaterMarkBytes) ==> Unfilled(read + [e], size)
    {
      assert (read + [e])[..|read|] == read;
    }

    /** The state at the head of the ReadMany loop, on the cursor's values. */
    ghost predicate LoopAt(first: bool, pos: int, count: int, cache: seq<Entry>,
                           read: seq<Entry>, start: int, count0: int, bytesRead: nat, size: nat)
    {
      Walked(read, start)
      && cache == Shape(read, keys, values) && bytesRead == ReadBytes(read, keys, values)
      && Unfilled(read, size)
      && StartOf(first, pos) == Offset(start, |read|)
      && count == count0 + (if base.limit < 0 then 0 else |read|)
      && (base.limit >= 0 && |read| > 0 ==> count0 + |read| <= base.limit)
    }

    /** What ReadMany promises when it returns `more`, on the cursor's values. */
    ghost predicate DoneAt(more: bool, pos: int, count: int, cache: seq<Entry>,
                           read: seq<Entry>, start: int, count0: int, size: nat)
    {
      Walked(read, start)
      && cache == Shape(read, keys, values)
      && NotFullBefore(read, size)
      && (more ==> |read| > 0 && Full(read, keys, values, size, highWaterMarkBytes) && pos == Offset(start, |read| - 1))
      && (!more ==> Unfilled(read, size) && pos == Offset(start, |read|))
      && (!more && ValidAt(pos) ==> base.limit >= 0 && count > base.limit)
      && (base.limit >= 0 && |read| > 0 ==> count0 + |read| <= base.limit)
      && count == count0 + (if base.limit < 0 then 0 else |read| + (if !more && ValidAt(pos) then 1 else 0))
    }

    /** After a successful advance: cache the entry in the mode's shape and count its bytes. */
    method Take(size: nat, ghost read: seq<Entry>, ghost start: int, bytesRead: nat)
      returns (full: bool, ghost read': seq<Entry>, bytesRead': nat)
      requires Walked(read, start) && Unfilled(read, size)
      requires cache == Shape(read, keys, values) && bytesRead == ReadBytes(read, keys, values)
      requires base.pos == Offset(start, |read|) && 0 <= base.pos < |base.keys|
      requires !OutOfRange(base.range, base.keys[base.pos])
      modifies this`cache
      ensures read' == read + [Entry(base.keys[base.pos], base.values[base.pos])]
      ensures Walked(read', start) && NotFullBefore(read', size)
      ensures cache == Shape(read', keys, values) && bytesRead' == ReadBytes(read', keys, values)
      ensures full <==> Full(read', keys, values, size, highWaterMarkBytes)
      ensures !full ==> Unfilled(read', size)
    {
      var p := base.pos;
      var e := Entry(base.keys[p], base.values[p]);
      read' := read + [e];
      WalkedSnoc(read, start);
      ShapeSnoc(read, e, size);
      cache := cache + Emit(e, keys, values);
      bytesRead' := bytesRead + Cost(e, keys, values);
      assert cache == Shape(read', keys, values) && bytesRead' == ReadBytes(read', keys, values);
      full := bytesRead' > highWaterMarkBytes || |cache| >= size;
    }

    /** An advance that found no entry, or hit the limit, ends the read without one. */
    lemma StopStep(first0: bool, pos0: int, c0: int, pos: int, count: int, cache: seq<Entry>,
                   read: seq<Entry>, start: int, count0: int, bytesRead: nat, size: nat)
      requires LoopAt(first0, pos0, c0, cache, read, start, count0, bytesRead, size)
      requires pos == StartOf(first0, pos0)
      requires !(ValidAt(pos) && (base.limit < 0 || c0 + 1 <= base.limit))
      requires count == c0 + (if base.limit >= 0 && ValidAt(pos) then 1 else 0)
      ensures DoneAt(false, pos, count, cache, read, start, count0, size)
    {
    }

    /** An advance that found an entry extends the read by it and goes on unless it filled the read. */
    lemma TakeStep(first0: bool, pos0: int, c0: int, pos: int, count: int, cache0: seq<Entry>, cache: seq<Entry>,
                   read: seq<Entry>, read': seq<Entry>, start: int, count0: int, bytesRead: nat, bytesRead': nat,
                   size: nat, full: bool)
      requires LoopAt(first0, pos0, c0, cache0, read, start, count0, bytesRead, size)
      requires pos == StartOf(first0, pos0) && ValidAt(pos) && (base.limit < 0 || c0 + 1 <= base.limit)
      requires count == c0 + (if base.limit >= 0 then 1 else 0)
      requires read' == read + [Entry(base.keys[pos], base.values[pos])]
      requires Walked(read', start) && NotFullBefore(read', size)
      requires cache == Shape(read', keys, values) && bytesRead' == ReadBytes(read', keys, values)
      requires full <==> Full(read', keys, values, size, highWaterMarkBytes)
      requires !full ==> Unfilled(read', size)
      ensures full ==> DoneAt(true, pos, count, cache, read', start, count0, size)
      ensures !full ==> LoopAt(false, pos, count, cache, read', start, count0, bytesRead', size)
    {
    }

    /** One pass of the ReadMany loop. */
    method ReadStep(size: nat, ghost read: seq<Entry>, ghost start: int, ghost count0: int, bytesRead: nat)
      returns (done: bool, more: bool, ghost read': seq<Entry>, bytesRead': nat)
      requires base.Inv() && !base.hasClosed
      requires LoopAt(first, base.pos, base.count, cache, read, start, count0, bytesRead, size)
      modifies this`cache, this`first, base`pos, base`count
      ensures base.Inv() && !base.hasClosed && !first
      ensures done ==> DoneAt(more, base.pos, base.count, cache, read', start, count0, size)
      ensures !done ==> LoopAt(first, base.pos, base.count, cache, read', start, count0, bytesRead', size)
                        && RemainingOf(first, base.pos) < RemainingOf(old(first), old(base.pos))
    {
      ghost var first0, pos0, c0, cache0 := first, base.pos, base.count, cache;
      var got := Advance();
      if !got {
        StopStep(first0, pos0, c0, base.pos, base.count, cache, read, start, count0, bytesRead, size);
        return true, false, read, bytesRead;
      }
      done, read', bytesRead' := Take(size, read, start, bytesRead);
      more := done;
      TakeStep(first0, pos0, c0, base.pos, base.count, cache0, cache, read, read', start, count0, bytesRead, bytesRead', size, done);
    }

    /**
     * Iterator::ReadMany: the entries read are the in-range keys at
     * consecutive positions from the start, cached in the mode's shape;
     * the read stops right after the first entry that fills it (result
     * true), or when the cursor leaves the range or the limit is reached
     * (result false).
     */
    method ReadMany(size: nat) returns (more: bool, ghost read: seq<Entry>)
      requires base.Inv() && !base.hasClosed
      modifies this`cache, this`first, base`pos, base`count
      ensures base.Inv() && !first
      ensures Walked(read, old(Start()))
      ensures cache == Shape(read, keys, values)
      ensures NotFullBefore(read, size)
      ensures more ==> |read| > 0 && Full(read, keys, values, size, highWaterMarkBytes)
                       && base.pos == Offset(old(Start()), |read| - 1)
      ensures !more ==> Unfilled(read, size) && base.pos == Offset(old(Start()), |read|)
      ensures !more && base.Valid() ==> base.limit >= 0 && base.count > base.limit
      ensures base.limit >= 0 && |read| > 0 ==> old(base.count) + |read| <= base.limit
      ensures base.count == old(base.count) + (if base.limit < 0 then 0 else |read| + (if !more && base.Valid() then 1 else 0))
    {
      ghost var start := Start();
      ghost var count0 := base.count;
      cache := [];
      var bytesRead: nat := 0;
      read := [];
      var done := false;
      more := false;
      while !done
        invariant base.Inv() && !base.hasClosed
        invariant !done ==> LoopAt(first, base.pos, base.count, cache, read, start, count0, bytesRead, size)
        invariant done ==> !first && DoneAt(more, base.pos, base.count, cache, read, start, count0, size)
        decreases if done then 0 else RemainingOf(first, base.pos) + 1
      {
        done, more, read, bytesRead := ReadStep(size, read, start, count0, bytesRead);
      }
    }

    /**
     * IteratorNextWorker::DoExecute: seek to the range on the first next,
     * then read; the callback's `finished` is the negation of ReadMany's
     * result, so it means the range or the limit was exhausted.
     */
    method NextExecute(size: nat) returns (finished: bool, ghost read: seq<Entry>, ghost start: int)
      requires base.Inv() && !base.hasClosed
      modifies this`cache, this`first, base`pos, base`count, base`didSeek
      ensures base.Inv() && base.didSeek && !first
      ensures old(base.didSeek) ==> start == old(Start())
      ensures !old(base.didSeek) && old(first) ==>
        start == if base.reverse then RangeEnd(base.keys, base.range) - 1 else RangeStart(base.keys, base.range)
      ensures Walked(read, start) && cache == Shape(read, keys, values) && NotFullBefore(read, size)
      ensures !finished ==> |read| > 0 && Full(read, keys, values, size, highWaterMarkBytes)
      ensures finished ==> Unfilled(read, size) && base.pos == Offset(start, |read|)
      ensures finished && base.Valid() ==> base.limit >= 0 && base.count > base.limit
    {
      if !base.didSeek {
        base.SeekToRange();
      }
      start := Start();
      var more;
      more, read := ReadMany(size);
      finished := !more;
    }

    /** IteratorNextWorker::DoFinally: the next is over; a parked close is queued and the slot emptied. */
    method NextFinally(pool: Pool)
      requires closeWorker.Some? ==> closeWorker.value !in pool.everQueued
      modifies this`nexting, this`closeWorker, pool`everQueued
      ensures !nexting && closeWorker == None
      ensures old(closeWorker).Some? ==> pool.everQueued == old(pool.everQueued) + {old(closeWorker).value}
      ensures old(closeWorker).None? ==> pool.everQueued == old(pool.everQueued)
    {
      nexting := false;
      if closeWorker.Some? {
        pool.Queue(closeWorker.value);
        closeWorker := None;
      }
    }
  }
}
