// The intermediate generation (rocksdb/napi/database.cpp and
// rocksdb/napi/workers.cpp): priority work is tracked on the database only.
// Iterators and transactions are registered by id; every registered child
// and every unfinished PriorityWorker holds one count of `priorityWork_`,
// and a close parked in `pendingCloseWorker_` is queued when the count
// comes back to 0.

module Intermediate {
  import opened Common
  import opened Workers
  import opened Handles

  class Database {
    /** db_ != NULL */
    var open: bool
    var currentIteratorId: nat
    var currentTransactionId: nat
    var pendingCloseWorker: Option<Job>
    var iterators: set<nat>
    var transactions: set<nat>
    var priorityWork: nat
    /** PriorityWorkers on this database constructed and not yet finished. */
    ghost var inflight: nat
    /** Engines opened so far, and how many of them were deleted. */
    ghost var opens: nat
    ghost var deletions: nat

    /**
     * The counter is one per registered child and one per unfinished
     * PriorityWorker; every engine opened is deleted once, unless it is the
     * one still open.
     */
    ghost predicate Valid()
      reads this
    {
      priorityWork == |iterators| + |transactions| + inflight
      && deletions + (if open then 1 else 0) == opens
      && (forall id | id in iterators :: id < currentIteratorId)
      && (forall id | id in transactions :: id < currentTransactionId)
    }

    constructor ()
      ensures Valid() && !open && opens == 0 && deletions == 0
      ensures currentIteratorId == 0 && currentTransactionId == 0
      ensures pendingCloseWorker == None && priorityWork == 0 && inflight == 0
      ensures iterators == {} && transactions == {}
    {
      open := false;
      currentIteratorId := 0;
      currentTransactionId := 0;
      pendingCloseWorker := None;
      iterators := {};
      transactions := {};
      priorityWork := 0;
      inflight := 0;
      opens := 0;
      deletions := 0;
    }

    /** Open: db_ is set when the engine opened. A handle already open is not deleted first. */
    method Open(engineOpened: bool)
      modifies this`open, this`opens
      ensures open == engineOpened && opens == old(opens) + (if engineOpened then 1 else 0)
      ensures old(Valid()) && !old(open) ==> Valid()
    {
      open := engineOpened;
      if engineOpened {
        opens := opens + 1;
      }
    }

    /** CloseDatabase deletes db_ (a no-op on NULL) and nulls it. */
    method CloseDatabase()
      modifies this`open, this`deletions
      ensures !open && deletions == old(deletions) + (if old(open) then 1 else 0)
      ensures old(Valid()) ==> Valid()
    {
      if open {
        deletions := deletions + 1;
      }
      open := false;
    }

    /** ~Database deletes db_ only when it is still set. */
    method Destroy()
      modifies this`open, this`deletions
      ensures !open && deletions == old(deletions) + (if old(open) then 1 else 0)
      ensures old(Valid()) ==> Valid() && deletions == opens
    {
      if open {
        deletions := deletions + 1;
        open := false;
      }
    }

    function HasPriorityWork(): bool
      reads this
    {
      priorityWork > 0
    }

    /** The baseline is 0: priority work means a child or an unfinished PriorityWorker. */
    lemma PriorityWorkMeansWork()
      requires Valid()
      ensures HasPriorityWork() <==> iterators != {} || transactions != {} || inflight > 0
    {
      if iterators != {} {
        var id :| id in iterators;
        assert |iterators| > 0;
      }
      if transactions != {} {
        var id :| id in transactions;
        assert |transactions| > 0;
      }
    }

    method IncrementPriorityWork()
      modifies this`priorityWork
      ensures priorityWork == old(priorityWork) + 1
    {
      priorityWork := priorityWork + 1;
    }

    /**
     * napi_reference_unref leaves a count of 0 as it is; a count of 0 with a
     * parked close queues it and empties the slot.
     */
    method DecrementPriorityWork(pool: Pool)
      requires pendingCloseWorker.Some? ==> pendingCloseWorker.value !in pool.everQueued
      modifies this`priorityWork, this`pendingCloseWorker, pool`everQueued
      ensures priorityWork == if old(priorityWork) > 0 then old(priorityWork) - 1 else 0
      ensures old(pendingCloseWorker).Some? && priorityWork == 0 ==>
        pendingCloseWorker == None && pool.everQueued == old(pool.everQueued) + {old(pendingCloseWorker).value}
      ensures !(old(pendingCloseWorker).Some? && priorityWork == 0) ==>
        pendingCloseWorker == old(pendingCloseWorker) && pool.everQueued == old(pool.everQueued)
    {
      if priorityWork > 0 {
        priorityWork := priorityWork - 1;
      }
      if priorityWork == 0 && pendingCloseWorker.Some? {
        pool.Queue(pendingCloseWorker.value);
        pendingCloseWorker := None;
      }
    }

    /** iterators_[id] = iterator: a re-used id is overwritten, and the counter still goes up. */
    method AttachIterator(id: nat)
      modifies this`iterators, this`priorityWork
      ensures iterators == old(iterators) + {id} && priorityWork == old(priorityWork) + 1
      ensures old(Valid()) && id !in old(iterators) && id < currentIteratorId ==> Valid()
    {
      iterators := iterators + {id};
      IncrementPriorityWork();
    }

    method DetachIterator(id: nat, pool: Pool)
      requires pendingCloseWorker.Some? ==> pendingCloseWorker.value !in pool.everQueued
      modifies this`iterators, this`priorityWork, this`pendingCloseWorker, pool`everQueued
      ensures iterators == old(iterators) - {id}
      ensures priorityWork == if old(priorityWork) > 0 then old(priorityWork) - 1 else 0
      ensures old(pendingCloseWorker).Some? && priorityWork == 0 ==>
        pendingCloseWorker == None && pool.everQueued == old(pool.everQueued) + {old(pendingCloseWorker).value}
      ensures !(old(pendingCloseWorker).Some? && priorityWork == 0) ==>
        pendingCloseWorker == old(pendingCloseWorker) && pool.everQueued == old(pool.everQueued)
      ensures old(Valid()) && id in old(iterators) ==> Valid()
    {
      iterators := iterators - {id};
      DecrementPriorityWork(pool);
    }

    method AttachTransaction(id: nat)
      modifies this`transactions, this`priorityWork
      ensures transactions == old(transactions) + {id} && priorityWork == old(priorityWork) + 1
      ensures old(Valid()) && id !in old(transactions) && id < currentTransactionId ==> Valid()
    {
      transactions := transactions + {id};
      IncrementPriorityWork();
    }

    method DetachTransaction(id: nat, pool: Pool)
      requires pendingCloseWorker.Some? ==> pendingCloseWorker.value !in pool.everQueued
      modifies this`transactions, this`priorityWork, this`pendingCloseWorker, pool`everQueued
      ensures transactions == old(transactions) - {id}
      ensures priorityWork == if old(priorityWork) > 0 then old(priorityWork) - 1 else 0
      ensures old(pendingCloseWorker).Some? && priorityWork == 0 ==>
        pendingCloseWorker == None && pool.everQueued == old(pool.everQueued) + {old(pendingCloseWorker).value}
      ensures !(old(pendingCloseWorker).Some? && priorityWork == 0) ==>
        pendingCloseWorker == old(pendingCloseWorker) && pool.everQueued == old(pool.everQueued)
      ensures old(Valid()) && id in old(transactions) ==> Valid()
    {
      transactions := transactions - {id};
      DecrementPriorityWork(pool);
    }

    /** PriorityWorker's constructor holds one count. */
    method BeginPriorityWork()
      modifies this`priorityWork, this`inflight
      ensures priorityWork == old(priorityWork) + 1 && inflight == old(inflight) + 1
      ensures old(Valid()) ==> Valid()
    {
      inflight := inflight + 1;
      IncrementPriorityWork();
    }

    /** PriorityWorker::DoFinally lets go of it. */
    method EndPriorityWork(pool: Pool)
      requires inflight > 0
      requires pendingCloseWorker.Some? ==> pendingCloseWorker.value !in pool.everQueued
      modifies this`priorityWork, this`inflight, this`pendingCloseWorker, pool`everQueued
      ensures inflight == old(inflight) - 1
      ensures priorityWork == if old(priorityWork) > 0 then old(priorityWork) - 1 else 0
      ensures old(pendingCloseWorker).Some? && priorityWork == 0 ==>
        pendingCloseWorker == None && pool.everQueued == old(pool.everQueued) + {old(pendingCloseWorker).value}
      ensures !(old(pendingCloseWorker).Some? && priorityWork == 0) ==>
        pendingCloseWorker == old(pendingCloseWorker) && pool.everQueued == old(pool.everQueued)
      ensures old(Valid()) ==> Valid()
    {
      inflight := inflight - 1;
      DecrementPriorityWork(pool);
    }
  }

  /**
   * CommitTransactionWorker / RollbackTransactionWorker::DoFinally: the
   * worker is a PriorityWorker on the database, and it detaches the
   * transaction before letting go of its own count. The count the worker
   * still holds keeps the detach from queueing a parked close, so the close
   * is queued only by the final decrement, after the transaction is gone,
   * and exactly when nothing else is left.
   */
  method TransactionWorkerFinally(db: Database, id: nat, pool: Pool)
    requires db.Valid() && id in db.transactions && db.inflight > 0
    requires db.pendingCloseWorker.Some? ==> db.pendingCloseWorker.value !in pool.everQueued
    modifies db`transactions, db`priorityWork, db`inflight, db`pendingCloseWorker, pool`everQueued
    ensures db.Valid() && db.transactions == old(db.transactions) - {id} && db.inflight == old(db.inflight) - 1
    ensures db.priorityWork == old(db.priorityWork) - 2
    ensures old(db.pendingCloseWorker).Some? && db.priorityWork == 0 ==>
      db.pendingCloseWorker == None && pool.everQueued == old(pool.everQueued) + {old(db.pendingCloseWorker).value}
    ensures !(old(db.pendingCloseWorker).Some? && db.priorityWork == 0) ==>
      db.pendingCloseWorker == old(db.pendingCloseWorker) && pool.everQueued == old(pool.everQueued)
  {
    db.DetachTransaction(id, pool);
    assert db.priorityWork > 0;
    db.EndPriorityWork(pool);
  }
}
