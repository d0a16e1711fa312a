// The legacy generation, the monolith rocksdb/rocksdb.cpp: priority work is
// tracked on the database only, and db_close cascades to the database's
// iterators and transactions; iterators and commit/rollback workers are
// their own objects with their own guards.

module Legacy {
  import opened Common
  import opened Guards
  import opened Statuses
  import opened Workers
  import opened Handles

  /** Every worker handed to the pool so far was made before the next serial. */
  ghost predicate Minted(pool: Pool)
    reads pool
  {
    forall j | j in pool.everQueued :: j.serial < pool.nextSerial
  }

  /** `new XWorker(...)` for one worker about to be queued. */
  method Mint(pool: Pool, w: Work) returns (j: Job)
    requires Minted(pool)
    modifies pool`nextSerial
    ensures j == Job(old(pool.nextSerial), w) && pool.nextSerial == old(pool.nextSerial) + 1
    ensures j !in pool.everQueued && Minted(pool)
  {
    j := pool.NewJob(w);
  }

  class Database {
    var currentIteratorId: nat
    var currentTransactionId: nat
    var pendingCloseWorker: Option<Job>
    var iterators: map<nat, Iterator>
    var transactions: map<nat, Transaction>
    var priorityWork: nat
    /** PriorityWorkers on this database constructed and not yet finished. */
    ghost var inflight: nat

    /**
     * One count per registered child and per unfinished PriorityWorker;
     * every child is registered under its own id, with this database, and
     * the ids come from the counters.
     */
    ghost predicate Valid()
      reads this`priorityWork, this`iterators, this`transactions, this`inflight
      reads this`currentIteratorId, this`currentTransactionId
    {
      priorityWork == |iterators| + |transactions| + inflight
      && (forall id | id in iterators :: iterators[id].id == id && iterators[id].database == this && id < currentIteratorId)
      && (forall id | id in transactions ::
            transactions[id].id == id && transactions[id].database == this && id < currentTransactionId)
    }

    constructor ()
      ensures Valid() && pendingCloseWorker == None && priorityWork == 0 && inflight == 0
      ensures iterators == map[] && transactions == map[] && currentIteratorId == 0 && currentTransactionId == 0
    {
      currentIteratorId := 0;
      currentTransactionId := 0;
      pendingCloseWorker := None;
      iterators := map[];
      transactions := map[];
      priorityWork := 0;
      inflight := 0;
    }

    function HasPriorityWork(): bool
      reads this
    {
      priorityWork > 0
    }

    /** The baseline is 0: priority work means a child or an unfinished PriorityWorker. */
    lemma PriorityWorkMeansWork()
      requires Valid()
      ensures HasPriorityWork() <==> iterators != map[] || transactions != map[] || inflight > 0
    {
      if iterators != map[] {
        var id :| id in iterators;
        assert id in iterators.Keys;
      }
      if transactions != map[] {
        var id :| id in transactions;
        assert id in transactions.Keys;
      }
    }

    method IncrementPriorityWork()
      modifies this`priorityWork
      ensures priorityWork == old(priorityWork) + 1
    {
      priorityWork := priorityWork + 1;
    }

    /** A decrement that leaves 0 queues a parked close once and empties the slot. */
    method DecrementPriorityWork(pool: Pool)
      requires pendingCloseWorker.Some? ==> pendingCloseWorker.value !in pool.everQueued
      modifies this`priorityWork, this`pendingCloseWorker, pool`everQueued
      ensures priorityWork == if old(priorityWork) > 0 then old(priorityWork) - 1 else 0
      ensures old(pendingCloseWorker).Some? && priorityWork == 0 ==>
        pendingCloseWorker == None && pool.everQueued == old(pool.everQueued) + {old(pendingCloseWorker).value}
      ensures !(old(pendingCloseWorker).Some? && priorityWork == 0) ==>
        pendingCloseWorker == old(pendingCloseWorker) && pool.everQueued == old(pool.everQueued)
    {
      if priorityWork > 0 {
        priorityWork := priorityWork - 1;
      }
      if priorityWork == 0 && pendingCloseWorker.Some? {
        pool.Queue(pendingCloseWorker.value);
        pendingCloseWorker := None;
      }
    }

    method AttachIterator(id: nat, it: Iterator)
      modifies this`iterators, this`priorityWork
      ensures iterators == old(iterators)[id := it] && priorityWork == old(priorityWork) + 1
      ensures old(Valid()) && id !in old(iterators) && it.id == id && it.database == this && id < currentIteratorId ==> Valid()
    {
      iterators := iterators[id := it];
      IncrementPriorityWork();
    }

    method DetachIterator(id: nat, pool: Pool)
      requires pendingCloseWorker.Some? ==> pendingCloseWorker.value !in pool.everQueued
      modifies this`iterators, this`priorityWork, this`pendingCloseWorker, pool`everQueued
      ensures iterators == old(iterators) - {id}
      ensures priorityWork == if old(priorityWork) > 0 then old(priorityWork) - 1 else 0
      ensures old(pendingCloseWorker).Some? && priorityWork == 0 ==>
        pendingCloseWorker == None && pool.everQueued == old(pool.everQueued) + {old(pendingCloseWorker).value}
      ensures !(old(pendingCloseWorker).Some? && priorityWork == 0) ==>
        pendingCloseWorker == old(pendingCloseWorker) && pool.everQueued == old(pool.everQueued)
      ensures old(Valid()) && id in old(iterators) ==> Valid()
    {
      iterators := iterators - {id};
      DecrementPriorityWork(pool);
    }

    method AttachTransaction(id: nat, t: Transaction)
      modifies this`transactions, this`priorityWork
      ensures transactions == old(transactions)[id := t] && priorityWork == old(priorityWork) + 1
      ensures old(Valid()) && id !in old(transactions) && t.id == id && t.database == this && id < currentTransactionId ==> Valid()
    {
      transactions := transactions[id := t];
      IncrementPriorityWork();
    }

    method DetachTransaction(id: nat, pool: Pool)
      requires pendingCloseWorker.Some? ==> pendingCloseWorker.value !in pool.everQueued
      modifies this`transactions, this`priorityWork, this`pendingCloseWorker, pool`everQueued
      ensures transactions == old(transactions) - {id}
      ensures priorityWork == if old(priorityWork) > 0 then old(priorityWork) - 1 else 0
      ensures old(pendingCloseWorker).Some? && priorityWork == 0 ==>
        pendingCloseWorker == None && pool.everQueued == old(pool.everQueued) + {old(pendingCloseWorker).value}
      ensures !(old(pendingCloseWorker).Some? && priorityWork == 0) ==>
        pendingCloseWorker == old(pendingCloseWorker) && pool.everQueued == old(pool.everQueued)
      ensures old(Valid()) && id in old(transactions) ==> Valid()
    {
      transactions := transactions - {id};
      DecrementPriorityWork(pool);
    }

    /** PriorityWorker's constructor holds one count. */
    method BeginPriorityWork()
      modifies this`priorityWork, this`inflight
      ensures priorityWork == old(priorityWork) + 1 && inflight == old(inflight) + 1
      ensures old(Valid()) ==> Valid()
    {
      inflight := inflight + 1;
      IncrementPriorityWork();
    }

    /** PriorityWorker::DoFinally lets go of it. */
    method EndPriorityWork(pool: Pool)
      requires inflight > 0
      requires pendingCloseWorker.Some? ==> pendingCloseWorker.value !in pool.everQueued
      modifies this`priorityWork, this`inflight, this`pendingCloseWorker, pool`everQueued
      ensures inflight == old(inflight) - 1
      ensures priorityWork == if old(priorityWork) > 0 then old(priorityWork) - 1 else 0
      ensures old(pendingCloseWorker).Some? && priorityWork == 0 ==>
        pendingCloseWorker == None && pool.everQueued == old(pool.everQueued) + {old(pendingCloseWorker).value}
      ensures !(old(pendingCloseWorker).Some? && priorityWork == 0) ==>
        pendingCloseWorker == old(pendingCloseWorker) && pool.everQueued == old(pool.everQueued)
      ensures old(Valid()) ==> Valid()
    {
      inflight := inflight - 1;
      DecrementPriorityWork(pool);
    }
  }

  class Iterator {
    const database: Database
    const id: nat
    var isClosing: bool
    var hasClosed: bool
    var nexting: bool
    var closeWorker: Option<Job>
    /** How many times the snapshot taken at construction was handed back. */
    ghost var snapshotReleases: nat

    /** The snapshot is handed back exactly when the iterator has closed. */
    ghost predicate Valid()
      reads this
    {
      snapshotReleases == (if hasClosed then 1 else 0)
    }

    /** BaseIterator takes a snapshot; Iterator starts with nothing in flight. */
    constructor (database: Database, id: nat)
      ensures this.database == database && this.id == id && Valid()
      ensures !isClosing && !hasClosed && !nexting && closeWorker == None
    {
      this.database := database;
      this.id := id;
      isClosing := false;
      hasClosed := false;
      nexting := false;
      closeWorker := None;
      snapshotReleases := 0;
    }

    /** BaseIterator::Close deletes the engine iterator and releases the snapshot, the first time only. */
    method Close()
      modifies this`hasClosed, this`snapshotReleases
      ensures hasClosed && snapshotReleases == old(snapshotReleases) + (if old(hasClosed) then 0 else 1)
      ensures old(Valid()) ==> Valid()
    {
      if !hasClosed {
        hasClosed := true;
        snapshotReleases := snapshotReleases + 1;
      }
    }

    /** Registers with the database; unlike the later generations, not guarded against a second call. */
    method Attach()
      modifies database`iterators, database`priorityWork
      ensures database.iterators == old(database.iterators)[id := this]
      ensures database.priorityWork == old(database.priorityWork) + 1
      ensures old(database.Valid()) && id !in old(database.iterators) && id < database.currentIteratorId ==> database.Valid()
    {
      database.AttachIterator(id, this);
    }

    /** NextWorker::DoFinally: the next is over; a parked close is queued and the slot emptied. */
    method NextFinally(pool: Pool)
      requires closeWorker.Some? ==> closeWorker.value !in pool.everQueued
      modifies this`nexting, this`closeWorker, pool`everQueued
      ensures !nexting && closeWorker == None
      ensures old(closeWorker).Some? ==> pool.everQueued == old(pool.everQueued) + {old(closeWorker).value}
      ensures old(closeWorker).None? ==> pool.everQueued == old(pool.everQueued)
    {
      nexting := false;
      if closeWorker.Some? {
        pool.Queue(closeWorker.value);
        closeWorker := None;
      }
    }

    /** Unregisters from the database, unguarded: every call decrements. */
    method Detach(pool: Pool)
      requires database.pendingCloseWorker.Some? ==> database.pendingCloseWorker.value !in pool.everQueued
      modifies database`iterators, database`priorityWork, database`pendingCloseWorker, pool`everQueued
      ensures database.iterators == old(database.iterators) - {id}
      ensures database.priorityWork == if old(database.priorityWork) > 0 then old(database.priorityWork) - 1 else 0
      ensures old(database.pendingCloseWorker).Some? && database.priorityWork == 0 ==>
        database.pendingCloseWorker == None
        && pool.everQueued == old(pool.everQueued) + {old(database.pendingCloseWorker).value}
      ensures !(old(database.pendingCloseWorker).Some? && database.priorityWork == 0) ==>
        database.pendingCloseWorker == old(database.pendingCloseWorker) && pool.everQueued == old(pool.everQueued)
      ensures old(database.Valid()) && id in old(database.iterators) ==> database.Valid()
    {
      database.DetachIterator(id, pool);
    }
  }

  class Transaction {
    const database: Database
    const id: nat
    var isCommitting: bool
    var hasCommitted: bool
    var isRollbacking: bool
    var hasRollbacked: bool
    /** dbTransaction_ != NULL */
    var live: bool
    /** How many times the engine transaction was committed or rolled back and deleted. */
    ghost var ends: nat

    function Flags(): TxnFlags
      reads this
    {
      TxnFlags(isCommitting, hasCommitted, isRollbacking, hasRollbacked)
    }

    /** The engine transaction is ended and deleted exactly once, by a commit or a rollback. */
    ghost predicate Valid()
      reads this
    {
      !(hasCommitted && hasRollbacked)
      && live == !(hasCommitted || hasRollbacked)
      && ends == (if hasCommitted || hasRollbacked then 1 else 0)
    }

    /** The constructor begins an engine transaction with every flag clear. */
    constructor (database: Database, id: nat)
      ensures this.database == database && this.id == id && Valid() && live
      ensures Flags() == TxnFlags(false, false, false, false)
    {
      this.database := database;
      this.id := id;
      isCommitting := false;
      hasCommitted := false;
      isRollbacking := false;
      hasRollbacked := false;
      live := true;
      ends := 0;
    }

    /**
     * Commit is idempotent: a second call answers OK and does nothing. A
     * first call dereferences dbTransaction_, which a rollback deleted.
     */
    method Commit(outcome: Status) returns (s: Status)
      requires !hasCommitted ==> live
      modifies this`hasCommitted, this`live, this`ends
      ensures hasCommitted
      ensures old(hasCommitted) ==> s == OkStatus && live == old(live) && ends == old(ends)
      ensures !old(hasCommitted) ==> s == outcome && !live && ends == old(ends) + 1
      ensures old(Valid()) ==> Valid()
    {
      if hasCommitted {
        return OkStatus;
      }
      hasCommitted := true;
      s := outcome;
      live := false;
      ends := ends + 1;
    }

    /** Unregisters from the database, unguarded like Iterator::Detach. */
    method Detach(pool: Pool)
      requires database.pendingCloseWorker.Some? ==> database.pendingCloseWorker.value !in pool.everQueued
      modifies database`transactions, database`priorityWork, database`pendingCloseWorker, pool`everQueued
      ensures database.transactions == old(database.transactions) - {id}
      ensures database.priorityWork == if old(database.priorityWork) > 0 then old(database.priorityWork) - 1 else 0
      ensures old(database.pendingCloseWorker).Some? && database.priorityWork == 0 ==>
        database.pendingCloseWorker == None
        && pool.everQueued == old(pool.everQueued) + {old(database.pendingCloseWorker).value}
      ensures !(old(database.pendingCloseWorker).Some? && database.priorityWork == 0) ==>
        database.pendingCloseWorker == old(database.pendingCloseWorker) && pool.everQueued == old(pool.everQueued)
      ensures old(database.Valid()) && id in old(database.transactions) ==> database.Valid()
    {
      database.DetachTransaction(id, pool);
    }

    /** Rollback is the mirror image of Commit. */
    method Rollback(outcome: Status) returns (s: Status)
      requires !hasRollbacked ==> live
      modifies this`hasRollbacked, this`live, this`ends
      ensures hasRollbacked
      ensures old(hasRollbacked) ==> s == OkStatus && live == old(live) && ends == old(ends)
      ensures !old(hasRollbacked) ==> s == outcome && !live && ends == old(ends) + 1
      ensures old(Valid()) ==> Valid()
    {
      if hasRollbacked {
        return OkStatus;
      }
      hasRollbacked := true;
      s := outcome;
      live := false;
      ends := ends + 1;
    }
  }

  /**
   * iterator_init: the next iterator id is taken from the counter, so it is
   * not registered yet, and the new iterator registers under it.
   */
  method IteratorInit(db: Database) returns (it: Iterator)
    requires db.Valid()
    modifies db`currentIteratorId, db`iterators, db`priorityWork
    ensures fresh(it) && it.database == db && it.id == old(db.currentIteratorId) && it.Valid()
    ensures !it.isClosing && !it.hasClosed && !it.nexting && it.closeWorker == None
    ensures db.currentIteratorId == old(db.currentIteratorId) + 1
    ensures db.iterators == old(db.iterators)[it.id := it] && it.id !in old(db.iterators)
    ensures db.priorityWork == old(db.priorityWork) + 1 && db.Valid()
  {
    var id := db.currentIteratorId;
    db.currentIteratorId := id + 1;
    it := new Iterator(db, id);
    it.Attach();
  }

  /** transaction_init: the same for a transaction, which begins with every flag clear. */
  method TransactionInit(db: Database) returns (t: Transaction)
    requires db.Valid()
    modifies db`currentTransactionId, db`transactions, db`priorityWork
    ensures fresh(t) && t.database == db && t.id == old(db.currentTransactionId) && t.Valid() && t.live
    ensures t.Flags() == TxnFlags(false, false, false, false)
    ensures db.currentTransactionId == old(db.currentTransactionId) + 1
    ensures db.transactions == old(db.transactions)[t.id := t] && t.id !in old(db.transactions)
    ensures db.priorityWork == old(db.priorityWork) + 1 && db.Valid()
  {
    var id := db.currentTransactionId;
    db.currentTransactionId := id + 1;
    t := new Transaction(db, id);
    db.AttachTransaction(id, t);
  }

  /** How transaction_commit and transaction_rollback answer: queue a worker, or call back at once. */
  datatype Answer = Schedule | AnswerNull | AnswerError(error: GuardError)

  /** Neither a commit nor a rollback was asked for: db_close rolls such a transaction back. */
  predicate Untouched(f: TxnFlags) {
    !Committing(f) && !Rollbacking(f)
  }

  /** transaction_commit: a rollback, asked for or done, is reported first; a second commit answers null. */
  function CommitDecision(f: TxnFlags): (a: Answer)
    ensures a == Schedule <==> Untouched(f)
    ensures a == AnswerError(TransactionRollbacked) <==> Rollbacking(f)
    ensures a == AnswerNull <==> Committing(f) && !Rollbacking(f)
  {
    if Rollbacking(f) then AnswerError(TransactionRollbacked)
    else if Committing(f) then AnswerNull
    else Schedule
  }

  /** transaction_rollback: a commit, asked for or done, is reported first; a second rollback answers null. */
  function RollbackDecision(f: TxnFlags): (a: Answer)
    ensures a == Schedule <==> Untouched(f)
    ensures a == AnswerError(TransactionCommitted) <==> Committing(f)
    ensures a == AnswerNull <==> Rollbacking(f) && !Committing(f)
  {
    if Committing(f) then AnswerError(TransactionCommitted)
    else if Rollbacking(f) then AnswerNull
    else Schedule
  }

  /**
   * Once a commit is scheduled (isCommitting set), a second commit answers
   * null and a rollback is refused, so each transaction gets at most one
   * ending worker; and symmetrically for a scheduled rollback.
   */
  lemma ScheduledOnce(f: TxnFlags)
    requires Untouched(f)
    ensures CommitDecision(f.(isCommitting := true)) == AnswerNull
    ensures RollbackDecision(f.(isCommitting := true)) == AnswerError(TransactionCommitted)
    ensures RollbackDecision(f.(isRollbacking := true)) == AnswerNull
    ensures CommitDecision(f.(isRollbacking := true)) == AnswerError(TransactionRollbacked)
  {
  }

  /**
   * The rollback check agrees with the transaction-ready guard of the
   * current generation; the commit check does not: with both a commit and
   * a rollback flag the guard reports the commit, transaction_commit the
   * rollback.
   */
  lemma PrecedenceAgainstGuard(f: TxnFlags)
    ensures RollbackDecision(f).AnswerError? ==> ReadyError(f) == Some(RollbackDecision(f).error)
    ensures Committing(f) && Rollbacking(f) ==>
      CommitDecision(f) == AnswerError(TransactionRollbacked) && ReadyError(f) == Some(TransactionCommitted)
    ensures !(Committing(f) && Rollbacking(f)) && CommitDecision(f).AnswerError? ==>
      ReadyError(f) == Some(CommitDecision(f).error)
  {
  }

  /** transaction_commit: the worker is a PriorityWorker on the database. */
  method TransactionCommit(t: Transaction, pool: Pool) returns (a: Answer, job: Option<Job>)
    requires Minted(pool)
    modifies t`isCommitting, t.database`priorityWork, t.database`inflight, pool`everQueued, pool`nextSerial
    ensures a == CommitDecision(old(t.Flags())) && Minted(pool)
    ensures a == Schedule ==>
      job == Some(Job(old(pool.nextSerial), CommitTxn(t.id))) && t.isCommitting
      && pool.everQueued == old(pool.everQueued) + {job.value} && pool.nextSerial == old(pool.nextSerial) + 1
      && t.database.priorityWork == old(t.database.priorityWork) + 1 && t.database.inflight == old(t.database.inflight) + 1
    ensures a != Schedule ==> job == None && unchanged(t, t.database, pool)
    ensures old(t.database.Valid()) ==> t.database.Valid()
  {
    a := CommitDecision(t.Flags());
    if a != Schedule {
      return a, None;
    }
    var j := Mint(pool, CommitTxn(t.id));
    t.database.BeginPriorityWork();
    t.isCommitting := true;
    pool.Queue(j);
    job := Some(j);
  }

  /** transaction_rollback_do: no check of its own; the worker is a PriorityWorker on the database. */
  method TransactionRollbackDo(t: Transaction, pool: Pool) returns (job: Job)
    requires Minted(pool)
    modifies t`isRollbacking, t.database`priorityWork, t.database`inflight, pool`everQueued, pool`nextSerial
    ensures job == Job(old(pool.nextSerial), RollbackTxn(t.id)) && t.isRollbacking && Minted(pool)
    ensures pool.everQueued == old(pool.everQueued) + {job} && pool.nextSerial == old(pool.nextSerial) + 1
    ensures t.database.priorityWork == old(t.database.priorityWork) + 1 && t.database.inflight == old(t.database.inflight) + 1
    ensures old(t.database.Valid()) ==> t.database.Valid()
  {
    job := Mint(pool, RollbackTxn(t.id));
    t.database.BeginPriorityWork();
    t.isRollbacking := true;
    pool.Queue(job);
  }

  /** transaction_rollback. */
  method TransactionRollback(t: Transaction, pool: Pool) returns (a: Answer, job: Option<Job>)
    requires Minted(pool)
    modifies t`isRollbacking, t.database`priorityWork, t.database`inflight, pool`everQueued, pool`nextSerial
    ensures a == RollbackDecision(old(t.Flags())) && Minted(pool)
    ensures a == Schedule ==>
      job == Some(Job(old(pool.nextSerial), RollbackTxn(t.id))) && t.isRollbacking
      && pool.everQueued == old(pool.everQueued) + {job.value} && pool.nextSerial == old(pool.nextSerial) + 1
      && t.database.priorityWork == old(t.database.priorityWork) + 1 && t.database.inflight == old(t.database.inflight) + 1
    ensures a != Schedule ==> job == None && unchanged(t, t.database, pool)
    ensures old(t.database.Valid()) ==> t.database.Valid()
  {
    a := RollbackDecision(t.Flags());
    if a != Schedule {
      return a, None;
    }
    var j := TransactionRollbackDo(t, pool);
    job := Some(j);
  }

  /**
   * Commit/RollbackTransactionWorker::DoFinally: detach the transaction,
   * then let go of the worker's own count. The count the worker still holds
   * keeps the detach from queueing a parked close; the close is queued by
   * the final decrement exactly when nothing else is left.
   */
  method TransactionWorkerFinally(t: Transaction, pool: Pool)
    requires t.database.Valid() && t.id in t.database.transactions && t.database.inflight > 0
    requires t.database.pendingCloseWorker.Some? ==> t.database.pendingCloseWorker.value !in pool.everQueued
    modifies t.database`transactions, t.database`priorityWork, t.database`inflight, t.database`pendingCloseWorker
    modifies pool`everQueued
    ensures t.database.Valid() && t.database.transactions == old(t.database.transactions) - {t.id}
    ensures t.database.inflight == old(t.database.inflight) - 1
    ensures t.database.priorityWork == old(t.database.priorityWork) - 2
    ensures old(t.database.pendingCloseWorker).Some? && t.database.priorityWork == 0 ==>
      t.database.pendingCloseWorker == None
      && pool.everQueued == old(pool.everQueued) + {old(t.database.pendingCloseWorker).value}
    ensures !(old(t.database.pendingCloseWorker).Some? && t.database.priorityWork == 0) ==>
      t.database.pendingCloseWorker == old(t.database.pendingCloseWorker) && pool.everQueued == old(pool.everQueued)
  {
    var db := t.database;
    t.Detach(pool);
    assert db.priorityWork > 0;
    db.EndPriorityWork(pool);
  }

  /** iterator_close_do: mark the iterator closing; park the close behind a running next, else queue it. */
  method IteratorCloseDo(it: Iterator, pool: Pool) returns (job: Job)
    requires Minted(pool)
    modifies it`isClosing, it`closeWorker, pool`everQueued, pool`nextSerial
    ensures job == Job(old(pool.nextSerial), CloseIterator(DbIterator(it.id))) && pool.nextSerial == old(pool.nextSerial) + 1
    ensures it.isClosing && Minted(pool)
    ensures it.nexting ==> it.closeWorker == Some(job) && job !in pool.everQueued && pool.everQueued == old(pool.everQueued)
    ensures !it.nexting ==> it.closeWorker == old(it.closeWorker) && pool.everQueued == old(pool.everQueued) + {job}
  {
    job := Mint(pool, CloseIterator(DbIterator(it.id)));
    it.isClosing := true;
    if it.nexting {
      it.closeWorker := Some(job);
    } else {
      pool.Queue(job);
    }
  }

  /** iterator_close: a second close answers null and schedules nothing. */
  method IteratorClose(it: Iterator, pool: Pool) returns (answeredNull: bool, job: Option<Job>)
    requires Minted(pool)
    modifies it`isClosing, it`closeWorker, pool`everQueued, pool`nextSerial
    ensures answeredNull <==> old(it.isClosing) || old(it.hasClosed)
    ensures answeredNull ==> job == None && unchanged(it, pool)
    ensures !answeredNull ==> job == Some(Job(old(pool.nextSerial), CloseIterator(DbIterator(it.id)))) && it.isClosing
    ensures !answeredNull && it.nexting ==> it.closeWorker == job && pool.everQueued == old(pool.everQueued)
    ensures !answeredNull && !it.nexting ==> pool.everQueued == old(pool.everQueued) + {job.value}
    ensures Minted(pool)
  {
    if it.isClosing || it.hasClosed {
      return true, None;
    }
    var j := IteratorCloseDo(it, pool);
    return false, Some(j);
  }

  /**
   * A close asked for during a next is parked, and the next's DoFinally
   * queues it: the close worker reaches the pool exactly once, after the
   * next has finished.
   */
  method CloseDuringNext(it: Iterator, pool: Pool) returns (job: Job)
    requires Minted(pool) && it.nexting && !it.isClosing && !it.hasClosed
    modifies it`isClosing, it`closeWorker, it`nexting, pool`everQueued, pool`nextSerial
    ensures pool.everQueued == old(pool.everQueued) + {job} && job !in old(pool.everQueued)
    ensures job.work == CloseIterator(DbIterator(it.id)) && it.isClosing && !it.nexting && it.closeWorker == None
  {
    var answeredNull, parked := IteratorClose(it, pool);
    assert parked == Some(Job(old(pool.nextSerial), CloseIterator(DbIterator(it.id))));
    job := parked.value;
    it.NextFinally(pool);
  }

  /** The flags of an iterator that db_close reads and writes. */
  datatype IterFlags = IterFlags(isClosing: bool, hasClosed: bool, nexting: bool, closeWorker: Option<Job>)

  function IterFlagsOf(it: Iterator): IterFlags
    reads it
  {
    IterFlags(it.isClosing, it.hasClosed, it.nexting, it.closeWorker)
  }

  /** Workers made and held back in a slot: none of them has reached the pool. */
  ghost predicate Unqueued(parked: set<Job>, pool: Pool)
    reads pool
  {
    forall j | j in parked :: j.serial < pool.nextSerial && j !in pool.everQueued
  }

  /**
   * After db_close's first loop reached an iterator that had flags `w` and
   * now has `now`: it is closing unless it had closed, and a close asked
   * for behind a running next is parked in its slot, among `parked`.
   */
  ghost predicate CloseRequested(now: IterFlags, w: IterFlags, parked: set<Job>)
  {
    now.hasClosed == w.hasClosed && now.nexting == w.nexting
    && now.isClosing == (w.isClosing || !w.hasClosed)
    && (!w.isClosing && !w.hasClosed && now.nexting ==> now.closeWorker.Some? && now.closeWorker.value in parked)
  }

  /** An iterator whose close db_close queues at once: open, not closing, no next running. */
  predicate IdleOpen(w: IterFlags) {
    !w.isClosing && !w.hasClosed && !w.nexting
  }

  /**
   * `closes` maps the id of each iterator of `its` below `bound` whose close
   * went to the pool, to that close worker: exactly the iterators that were
   * idle and open, each with its own close, all made from `serial0` on.
   */
  ghost predicate ClosesQueued(closes: map<nat, Job>, its: map<nat, Iterator>, was: map<nat, IterFlags>,
                               bound: nat, serial0: nat)
  {
    (forall id | id in its && id < bound :: id in was && (id in closes <==> IdleOpen(was[id])))
    && (forall id | id in closes ::
          id in its && id < bound && closes[id].work == CloseIterator(DbIterator(id)) && serial0 <= closes[id].serial)
  }

  /** One iterator of db_close's first loop; `queued` is the close it sent to the pool, if any. */
  method CloseIfOpen(it: Iterator, pool: Pool, ghost parked: set<Job>) returns (ghost parked': set<Job>, ghost queued: Option<Job>)
    requires Minted(pool) && Unqueued(parked, pool)
    modifies it`isClosing, it`closeWorker, pool`everQueued, pool`nextSerial
    ensures Minted(pool) && Unqueued(parked', pool) && parked <= parked'
    ensures CloseRequested(IterFlagsOf(it), old(IterFlagsOf(it)), parked')
    ensures old(pool.nextSerial) <= pool.nextSerial
    ensures queued.Some? <==> IdleOpen(old(IterFlagsOf(it)))
    ensures queued.Some? ==>
      queued.value == Job(old(pool.nextSerial), CloseIterator(DbIterator(it.id)))
      && pool.everQueued == old(pool.everQueued) + {queued.value}
    ensures queued.None? ==> pool.everQueued == old(pool.everQueued)
  {
    parked', queued := parked, None;
    if !it.isClosing && !it.hasClosed {
      var j := IteratorCloseDo(it, pool);
      if it.nexting {
        parked' := parked + {j};
      } else {
        queued := Some(j);
      }
    }
  }

  /** Adding a new key adds its value to a map's values. */
  lemma ValuesAdd(m: map<nat, Job>, k: nat, v: Job)
    requires k !in m
    ensures m[k := v].Values == m.Values + {v}
  {
    forall x | x in m[k := v].Values ensures x in m.Values + {v} {
      var y :| y in m[k := v] && m[k := v][y] == x;
      if y != k {
        assert m[y] == x;
      }
    }
    forall x | x in m.Values ensures x in m[k := v].Values {
      var y :| y in m && m[y] == x;
      assert y != k && m[k := v][y] == x;
    }
    assert m[k := v][k] == v;
  }

  /**
   * The step of db_close's first loop at id `i` of the copied registry
   * `its`, whose iterators had the flags `was` before the loop; the pool
   * has gained the closes in `closes` since it held `queued0`.
   */
  method CloseStep(pool: Pool, ghost parked: set<Job>, its: map<nat, Iterator>, ghost was: map<nat, IterFlags>,
                   i: nat, it: Iterator, ghost closes: map<nat, Job>, ghost queued0: set<Job>, ghost serial0: nat)
    returns (ghost parked': set<Job>, ghost closes': map<nat, Job>)
    requires i in its && its[i] == it && its.Keys <= was.Keys && Minted(pool) && Unqueued(parked, pool)
    requires forall id | id in its :: its[id].id == id
    requires forall id | id in its && id < i :: CloseRequested(IterFlagsOf(its[id]), was[id], parked)
    requires forall id | id in its && i <= id :: IterFlagsOf(its[id]) == was[id]
    requires ClosesQueued(closes, its, was, i, serial0) && serial0 <= pool.nextSerial
    requires pool.everQueued == queued0 + closes.Values
    modifies it`isClosing, it`closeWorker, pool`everQueued, pool`nextSerial
    ensures Minted(pool) && Unqueued(parked', pool) && parked <= parked'
    ensures forall id | id in its && id <= i :: CloseRequested(IterFlagsOf(its[id]), was[id], parked')
    ensures forall id | id in its && i < id :: IterFlagsOf(its[id]) == was[id]
    ensures ClosesQueued(closes', its, was, i + 1, serial0) && serial0 <= pool.nextSerial
    ensures pool.everQueued == queued0 + closes'.Values
  {
    forall id2 | id2 in its && id2 != i ensures its[id2] != it {
      assert its[id2].id == id2;
    }
    ghost var q;
    parked', q := CloseIfOpen(it, pool, parked);
    closes' := closes;
    if q.Some? {
      ValuesAdd(closes, i, q.value);
      closes' := closes[i := q.value];
    }
  }

  /**
   * db_close's first loop, over a copy of the iterator registry: every
   * iterator neither closing nor closed gets iterator_close_do. The close
   * of each idle one reaches the pool, as `closes` lists by id; the
   * workers in `parked0`, the database's own parked close among them, and
   * the closes parked behind a running next stay out of the pool.
   */
  method CloseAllIterators(db: Database, pool: Pool, ghost parked0: set<Job>)
    returns (ghost parked: set<Job>, ghost closes: map<nat, Job>)
    requires Minted(pool) && db.Valid() && Unqueued(parked0, pool)
    modifies pool`everQueued, pool`nextSerial
    modifies db.iterators.Values
    ensures Minted(pool) && Unqueued(parked, pool) && parked0 <= parked
    ensures unchanged(db) && unchanged(db.transactions.Values)
    ensures forall id | id in db.iterators :: CloseRequested(IterFlagsOf(db.iterators[id]), old(IterFlagsOf(db.iterators[id])), parked)
    ensures forall id | id in db.iterators :: id in closes <==> IdleOpen(old(IterFlagsOf(db.iterators[id])))
    ensures forall id | id in closes ::
      id in db.iterators && closes[id].work == CloseIterator(DbIterator(id)) && old(pool.nextSerial) <= closes[id].serial
    ensures pool.everQueued == old(pool.everQueued) + closes.Values && closes.Values !! old(pool.everQueued)
  {
    var its := db.iterators;
    ghost var was := FlagsOf(its);
    ghost var serial0 := pool.nextSerial;
    var n := db.currentIteratorId;
    assert forall id | id in its :: id < n && its[id].id == id;
    parked, closes := CloseLoop(db, pool, parked0, its, was, n);
    ClosesFresh(closes, serial0, old(pool.everQueued));
    forall id | id in its ensures CloseRequested(IterFlagsOf(its[id]), old(IterFlagsOf(its[id])), parked) {
      assert was[id] == old(IterFlagsOf(its[id]));
    }
    forall id | id in its ensures id in closes <==> IdleOpen(old(IterFlagsOf(its[id]))) {
      assert id < n && was[id] == old(IterFlagsOf(its[id]));
    }
  }

  /** The flags of the iterators of a registry. */
  ghost function FlagsOf(its: map<nat, Iterator>): (was: map<nat, IterFlags>)
    reads its.Values
    ensures was.Keys == its.Keys && forall id | id in its :: was[id] == IterFlagsOf(its[id])
  {
    map id | id in its :: IterFlagsOf(its[id])
  }

  /** Workers made from `serial0` on are new to a pool whose workers were all made before it. */
  lemma ClosesFresh(closes: map<nat, Job>, serial0: nat, queued: set<Job>)
    requires forall id | id in closes :: serial0 <= closes[id].serial
    requires forall j | j in queued :: j.serial < serial0
    ensures closes.Values !! queued
  {
    forall j | j in closes.Values ensures j !in queued {
      var id :| id in closes && closes[id] == j;
    }
  }

  /**
   * The loop itself, over the ids below the counter `n`, from the copied
   * registry `its` whose iterators had the flags `was`.
   */
  method CloseLoop(db: Database, pool: Pool, ghost parked0: set<Job>,
                   its: map<nat, Iterator>, ghost was: map<nat, IterFlags>, n: nat)
    returns (ghost parked: set<Job>, ghost closes: map<nat, Job>)
    requires forall id | id in its :: id < n && its[id].id == id
    requires its.Keys == was.Keys && forall id | id in its :: IterFlagsOf(its[id]) == was[id]
    requires Minted(pool) && Unqueued(parked0, pool)
    modifies its.Values, pool`everQueued, pool`nextSerial
    ensures Minted(pool) && Unqueued(parked, pool) && parked0 <= parked
    ensures unchanged(db) && unchanged(db.transactions.Values)
    ensures forall id | id in its :: CloseRequested(IterFlagsOf(its[id]), was[id], parked)
    ensures ClosesQueued(closes, its, was, n, old(pool.nextSerial))
    ensures pool.everQueued == old(pool.everQueued) + closes.Values
  {
    ghost var serial0 := pool.nextSerial;
    var i := 0;
    parked, closes := parked0, map[];
    // std::map visits its ids in ascending order; every id is below the counter.
    while i < n
      invariant i <= n
      invariant Minted(pool) && Unqueued(parked, pool) && parked0 <= parked
      invariant forall id | id in its && id < i :: CloseRequested(IterFlagsOf(its[id]), was[id], parked)
      invariant forall id | id in its && i <= id :: IterFlagsOf(its[id]) == was[id]
      invariant ClosesQueued(closes, its, was, i, serial0) && serial0 <= pool.nextSerial
      invariant pool.everQueued == old(pool.everQueued) + closes.Values
    {
      if i in its {
        parked, closes := CloseStep(pool, parked, its, was, i, its[i], closes, old(pool.everQueued), serial0);
      } else {
        forall id | id in its && id <= i ensures CloseRequested(IterFlagsOf(its[id]), was[id], parked) {
          assert id != i;
        }
      }
      i := i + 1;
    }
  }

  /** The state of a transaction that db_close reads and writes. */
  datatype TxnState = TxnState(flags: TxnFlags, live: bool, ends: nat)

  ghost function TxnStateOf(t: Transaction): TxnState
    reads t
  {
    TxnState(t.Flags(), t.live, t.ends)
  }

  /** The states of the transactions of a registry. */
  ghost function StatesOf(ts: map<nat, Transaction>): (was: map<nat, TxnState>)
    reads ts.Values
    ensures was.Keys == ts.Keys && forall id | id in ts :: was[id] == TxnStateOf(ts[id])
  {
    map id | id in ts :: TxnStateOf(ts[id])
  }

  /** After db_close's second loop reached a transaction that was in state `w` and is now in `now`: rolling back if it was untouched. */
  predicate RollbackRequested(now: TxnState, w: TxnState) {
    now.flags.isCommitting == w.flags.isCommitting && now.flags.hasCommitted == w.flags.hasCommitted
    && now.flags.hasRollbacked == w.flags.hasRollbacked && now.live == w.live && now.ends == w.ends
    && now.flags.isRollbacking == (w.flags.isRollbacking || Untouched(w.flags))
  }

  /**
   * The rollbacks db_close's second loop has queued once it has passed the
   * ids below `i` of a registry whose transactions were in the states
   * `was`: one per untouched transaction, each made at the next serial
   * from `serial0` on.
   */
  ghost function Rollbacks(was: map<nat, TxnState>, i: nat, serial0: nat): map<nat, Job>
  {
    if i == 0 then map[]
    else if i - 1 in was && Untouched(was[i - 1].flags) then
      Rollbacks(was, i - 1, serial0)[i - 1 := Job(serial0 + RollbackCount(was, i - 1), RollbackTxn(i - 1))]
    else Rollbacks(was, i - 1, serial0)
  }

  /** How many untouched transactions lie below `i`. */
  ghost function RollbackCount(was: map<nat, TxnState>, i: nat): nat
  {
    if i == 0 then 0
    else RollbackCount(was, i - 1) + if i - 1 in was && Untouched(was[i - 1].flags) then 1 else 0
  }

  /** One rollback per untouched transaction below `i`. */
  lemma {:induction false} RollbacksCounted(was: map<nat, TxnState>, i: nat, serial0: nat)
    ensures |Rollbacks(was, i, serial0)| == RollbackCount(was, i)
  {
    if i > 0 {
      RollbacksCounted(was, i - 1, serial0);
      RollbacksBelow(was, i - 1, serial0);
    }
  }

  /** Exactly the untouched transactions below `i` have a rollback, each its own and made from `serial0` on. */
  lemma {:induction false} RollbacksExactly(was: map<nat, TxnState>, i: nat, serial0: nat)
    ensures forall id | id in was && id < i :: id in Rollbacks(was, i, serial0) <==> Untouched(was[id].flags)
    ensures forall id | id in Rollbacks(was, i, serial0) ::
      id in was && id < i && Rollbacks(was, i, serial0)[id].work == RollbackTxn(id)
      && serial0 <= Rollbacks(was, i, serial0)[id].serial
  {
    if i > 0 {
      RollbacksExactly(was, i - 1, serial0);
    }
  }

  /** The rollbacks are new to a pool whose workers were all made before `serial0`. */
  lemma RollbacksFresh(was: map<nat, TxnState>, i: nat, serial0: nat, queued: set<Job>)
    requires forall j | j in queued :: j.serial < serial0
    ensures Rollbacks(was, i, serial0).Values !! queued
  {
    RollbacksExactly(was, i, serial0);
    forall j | j in Rollbacks(was, i, serial0).Values ensures j !in queued {
      var id :| id in Rollbacks(was, i, serial0) && Rollbacks(was, i, serial0)[id] == j;
    }
  }

  /** Passing id `i` adds its rollback, at the next serial, if its transaction was untouched, and nothing otherwise. */
  lemma RollbackNext(was: map<nat, TxnState>, i: nat, serial0: nat)
    ensures var added := i in was && Untouched(was[i].flags);
      RollbackCount(was, i + 1) == RollbackCount(was, i) + (if added then 1 else 0)
      && Rollbacks(was, i + 1, serial0).Values
         == Rollbacks(was, i, serial0).Values + (if added then {Job(serial0 + RollbackCount(was, i), RollbackTxn(i))} else {})
  {
    var rolls, j := Rollbacks(was, i, serial0), Job(serial0 + RollbackCount(was, i), RollbackTxn(i));
    if i in was && Untouched(was[i].flags) {
      assert Rollbacks(was, i + 1, serial0) == rolls[i := j];
      RollbacksBelow(was, i, serial0);
      ValuesAdd(rolls, i, j);
    } else {
      assert Rollbacks(was, i + 1, serial0) == rolls;
    }
  }

  /** Only ids below `i` have a rollback once the loop is at `i`. */
  lemma {:induction false} RollbacksBelow(was: map<nat, TxnState>, i: nat, serial0: nat)
    ensures i !in Rollbacks(was, i, serial0)
    ensures forall id | id in Rollbacks(was, i, serial0) :: id < i
  {
    if i > 0 {
      RollbacksBelow(was, i - 1, serial0);
    }
  }

  /**
   * One transaction of db_close's second loop: `r` says whether it got a
   * rollback worker, and `job` is that worker, which reaches the pool.
   */
  method RollbackIfUntouched(t: Transaction, pool: Pool, ghost parked: set<Job>) returns (r: bool, ghost job: Job)
    requires Minted(pool) && Unqueued(parked, pool)
    modifies t`isRollbacking, t.database`priorityWork, t.database`inflight, pool`everQueued, pool`nextSerial
    ensures Minted(pool) && Unqueued(parked, pool)
    ensures r == Untouched(old(t.Flags())) && RollbackRequested(TxnStateOf(t), old(TxnStateOf(t)))
    ensures t.database.priorityWork == old(t.database.priorityWork) + (if r then 1 else 0)
    ensures t.database.inflight == old(t.database.inflight) + (if r then 1 else 0)
    ensures pool.nextSerial == old(pool.nextSerial) + (if r then 1 else 0)
    ensures r ==> job == Job(old(pool.nextSerial), RollbackTxn(t.id)) && pool.everQueued == old(pool.everQueued) + {job}
    ensures !r ==> pool.everQueued == old(pool.everQueued)
    ensures old(t.database.Valid()) ==> t.database.Valid()
  {
    r := !(t.isCommitting || t.hasCommitted || t.isRollbacking || t.hasRollbacked);
    job := Job(pool.nextSerial, RollbackTxn(t.id));
    if r {
      job := TransactionRollbackDo(t, pool);
    }
  }

  /**
   * The invariant of db_close's second loop at id `i` over the copied
   * registry `ts`, whose transactions were in the states `was`, apart from
   * the counts and the pool.
   */
  ghost predicate RollInv(db: Database, pool: Pool, parked: set<Job>, ts: map<nat, Transaction>,
                          was: map<nat, TxnState>, i: nat)
    reads db, pool, ts.Values
  {
    ts.Keys == was.Keys
    && Minted(pool) && Unqueued(parked, pool) && db.Valid()
    && (forall id | id in ts :: RolledSoFar(TxnStateOf(ts[id]), was[id], id < i))
  }

  /** A transaction the loop has passed is as RollbackRequested says; one it has not is as it was. */
  predicate RolledSoFar(now: TxnState, w: TxnState, passed: bool) {
    if passed then RollbackRequested(now, w) else now == w
  }

  /** The step of db_close's second loop at id `i`: the transaction there, if any, is rolled back if untouched. */
  method RollbackStep(db: Database, pool: Pool, ghost parked: set<Job>,
                      ts: map<nat, Transaction>, ghost was: map<nat, TxnState>, i: nat,
                      ghost queued0: set<Job>, ghost serial0: nat, ghost pw0: nat, ghost inf0: nat)
    requires forall id | id in ts :: ts[id].database == db && ts[id].id == id
    requires RollInv(db, pool, parked, ts, was, i)
    requires db.priorityWork == pw0 + RollbackCount(was, i) && db.inflight == inf0 + RollbackCount(was, i)
    requires pool.nextSerial == serial0 + RollbackCount(was, i) && pool.everQueued == queued0 + Rollbacks(was, i, serial0).Values
    modifies ts.Values, db`priorityWork, db`inflight, pool`everQueued, pool`nextSerial
    ensures RollInv(db, pool, parked, ts, was, i + 1)
    ensures db.priorityWork == pw0 + RollbackCount(was, i + 1) && db.inflight == inf0 + RollbackCount(was, i + 1)
    ensures pool.nextSerial == serial0 + RollbackCount(was, i + 1)
    ensures pool.everQueued == queued0 + Rollbacks(was, i + 1, serial0).Values
  {
    RollbackNext(was, i, serial0);
    if i in ts {
      var t := ts[i];
      forall id2 | id2 in ts && id2 != i ensures ts[id2] != t {
        assert ts[id2].id == id2;
      }
      assert TxnStateOf(t) == was[i];
      var r; ghost var j;
      r, j := RollbackIfUntouched(t, pool, parked);
    }
  }

  /** The loop itself, over the ids below the counter `n`, from the copied registry `ts` whose transactions were in the states `was`. */
  method RollbackLoop(db: Database, pool: Pool, ghost parked: set<Job>,
                      ts: map<nat, Transaction>, ghost was: map<nat, TxnState>, n: nat)
    requires forall id | id in ts :: id < n && ts[id].database == db && ts[id].id == id
    requires RollInv(db, pool, parked, ts, was, 0)
    modifies ts.Values, db`priorityWork, db`inflight, pool`everQueued, pool`nextSerial
    ensures RollInv(db, pool, parked, ts, was, n)
    ensures unchanged(db`iterators, db`transactions, db`pendingCloseWorker) && unchanged(db.iterators.Values)
    ensures db.priorityWork == old(db.priorityWork) + RollbackCount(was, n)
    ensures db.inflight == old(db.inflight) + RollbackCount(was, n)
    ensures pool.nextSerial == old(pool.nextSerial) + RollbackCount(was, n)
    ensures pool.everQueued == old(pool.everQueued) + Rollbacks(was, n, old(pool.nextSerial)).Values
  {
    ghost var serial0, queued0, pw0, inf0 := pool.nextSerial, pool.everQueued, db.priorityWork, db.inflight;
    var i := 0;
    while i < n
      invariant i <= n
      invariant RollInv(db, pool, parked, ts, was, i)
      invariant unchanged(db`iterators, db`transactions, db`pendingCloseWorker) && unchanged(db.iterators.Values)
      invariant db.priorityWork == pw0 + RollbackCount(was, i) && db.inflight == inf0 + RollbackCount(was, i)
      invariant pool.nextSerial == serial0 + RollbackCount(was, i)
      invariant pool.everQueued == queued0 + Rollbacks(was, i, serial0).Values
    {
      RollbackStep(db, pool, parked, ts, was, i, queued0, serial0, pw0, inf0);
      i := i + 1;
    }
  }

  /**
   * db_close's second loop, over a copy of the transaction registry: every
   * transaction with none of the four flags gets a rollback worker, which
   * reaches the pool and holds a count of the database; `rolls` lists them
   * by transaction id.
   */
  method RollbackAllTransactions(db: Database, pool: Pool, ghost parked: set<Job>) returns (ghost rolls: map<nat, Job>)
    requires Minted(pool) && db.Valid() && Unqueued(parked, pool)
    modifies db`priorityWork, db`inflight, pool`everQueued, pool`nextSerial
    modifies db.transactions.Values
    ensures Minted(pool) && Unqueued(parked, pool) && db.Valid()
    ensures db.priorityWork == old(db.priorityWork) + |rolls| && db.inflight == old(db.inflight) + |rolls|
    ensures unchanged(db`iterators, db`transactions, db`pendingCloseWorker) && unchanged(db.iterators.Values)
    ensures forall id | id in db.transactions ::
      RollbackRequested(TxnStateOf(db.transactions[id]), old(TxnStateOf(db.transactions[id])))
    ensures forall id | id in db.transactions :: id in rolls <==> Untouched(old(db.transactions[id].Flags()))
    ensures forall id | id in rolls ::
      id in db.transactions && rolls[id].work == RollbackTxn(id) && old(pool.nextSerial) <= rolls[id].serial
    ensures pool.everQueued == old(pool.everQueued) + rolls.Values && rolls.Values !! old(pool.everQueued)
  {
    var ts := db.transactions;
    ghost var was := StatesOf(ts);
    ghost var serial0 := pool.nextSerial;
    var n := db.currentTransactionId;
    assert forall id | id in ts :: id < n && ts[id].database == db && ts[id].id == id;
    RollbackLoop(db, pool, parked, ts, was, n);
    rolls := Rollbacks(was, n, serial0);
    RollbacksCounted(was, n, serial0);
    RollbacksFresh(was, n, serial0, old(pool.everQueued));
    RollbacksExactly(was, n, serial0);
    forall id | id in ts ensures RollbackRequested(TxnStateOf(ts[id]), old(TxnStateOf(ts[id]))) {
      assert was[id] == old(TxnStateOf(ts[id]));
    }
    forall id | id in ts ensures id in rolls <==> Untouched(old(ts[id].Flags())) {
      assert id < n && was[id] == old(TxnStateOf(ts[id]));
    }
  }

  /**
   * db_close's two loops, behind its close parked in pendingCloseWorker_:
   * the closes of the idle iterators and the rollbacks of the untouched
   * transactions reach the pool, and nothing else does; the parked closes,
   * the database's and those behind a running next, stay out of it.
   */
  method CloseChildren(db: Database, pool: Pool, job: Job, ghost flags: map<nat, IterFlags>, ghost states: map<nat, TxnState>)
    returns (ghost parked: set<Job>, ghost closes: map<nat, Job>, ghost rolls: map<nat, Job>)
    requires Minted(pool) && db.Valid() && Unqueued({job}, pool)
    requires forall id | id in db.iterators :: id in flags && IterFlagsOf(db.iterators[id]) == flags[id]
    requires forall id | id in db.transactions :: id in states && TxnStateOf(db.transactions[id]) == states[id]
    modifies db`priorityWork, db`inflight, pool`everQueued, pool`nextSerial
    modifies db.iterators.Values, db.transactions.Values
    ensures Minted(pool) && db.Valid() && job in parked && Unqueued(parked, pool)
    ensures db.priorityWork == old(db.priorityWork) + |rolls| && db.inflight == old(db.inflight) + |rolls|
    ensures unchanged(db`iterators, db`transactions, db`pendingCloseWorker)
    ensures forall id | id in db.iterators ::
      CloseRequested(IterFlagsOf(db.iterators[id]), flags[id], parked) && (id in closes <==> IdleOpen(flags[id]))
    ensures forall id | id in closes :: id in db.iterators && closes[id].work == CloseIterator(DbIterator(id))
    ensures forall id | id in db.transactions ::
      RollbackRequested(TxnStateOf(db.transactions[id]), states[id]) && (id in rolls <==> Untouched(states[id].flags))
    ensures forall id | id in rolls :: id in db.transactions && rolls[id].work == RollbackTxn(id)
    ensures pool.everQueued == old(pool.everQueued) + closes.Values + rolls.Values
    ensures (closes.Values + rolls.Values) !! old(pool.everQueued)
  {
    parked, closes := CloseAllIterators(db, pool, {job});
    forall id | id in db.transactions ensures TxnStateOf(db.transactions[id]) == states[id] {
      assert db.transactions[id] in db.transactions.Values;
    }
    rolls := RollbackAllTransactions(db, pool, parked);
    forall id | id in db.iterators
      ensures CloseRequested(IterFlagsOf(db.iterators[id]), flags[id], parked) && (id in closes <==> IdleOpen(flags[id]))
    {
      assert db.iterators[id] in db.iterators.Values;
    }
  }

  /** db_close with priority work: its close is parked in pendingCloseWorker_, then the two loops run. */
  method DeferClose(db: Database, pool: Pool, job: Job, ghost flags: map<nat, IterFlags>, ghost states: map<nat, TxnState>)
    returns (ghost parked: set<Job>, ghost closes: map<nat, Job>, ghost rolls: map<nat, Job>)
    requires Minted(pool) && db.Valid() && Unqueued({job}, pool)
    requires forall id | id in db.iterators :: id in flags && IterFlagsOf(db.iterators[id]) == flags[id]
    requires forall id | id in db.transactions :: id in states && TxnStateOf(db.transactions[id]) == states[id]
    modifies db`pendingCloseWorker, db`priorityWork, db`inflight, pool`everQueued, pool`nextSerial
    modifies db.iterators.Values, db.transactions.Values
    ensures db.pendingCloseWorker == Some(job)
    ensures Minted(pool) && db.Valid() && job in parked && Unqueued(parked, pool)
    ensures db.priorityWork == old(db.priorityWork) + |rolls| && db.inflight == old(db.inflight) + |rolls|
    ensures unchanged(db`iterators, db`transactions)
    ensures forall id | id in db.iterators ::
      CloseRequested(IterFlagsOf(db.iterators[id]), flags[id], parked) && (id in closes <==> IdleOpen(flags[id]))
    ensures forall id | id in closes :: id in db.iterators && closes[id].work == CloseIterator(DbIterator(id))
    ensures forall id | id in db.transactions ::
      RollbackRequested(TxnStateOf(db.transactions[id]), states[id]) && (id in rolls <==> Untouched(states[id].flags))
    ensures forall id | id in rolls :: id in db.transactions && rolls[id].work == RollbackTxn(id)
    ensures pool.everQueued == old(pool.everQueued) + closes.Values + rolls.Values
    ensures (closes.Values + rolls.Values) !! old(pool.everQueued)
  {
    db.pendingCloseWorker := Some(job);
    forall id | id in db.iterators ensures IterFlagsOf(db.iterators[id]) == flags[id] {
      assert db.iterators[id] in db.iterators.Values;
    }
    forall id | id in db.transactions ensures TxnStateOf(db.transactions[id]) == states[id] {
      assert db.transactions[id] in db.transactions.Values;
    }
    parked, closes, rolls := CloseChildren(db, pool, job, flags, states);
  }

  /**
   * db_close: with no priority work the close is queued at once. Otherwise
   * it is parked in pendingCloseWorker_, over any close parked before, and
   * behind it the closes of the idle iterators and the rollbacks of the
   * untouched transactions are queued, exactly those.
   */
  method DbClose(db: Database, pool: Pool)
    returns (job: Job, ghost parked: set<Job>, ghost closes: map<nat, Job>, ghost rolls: map<nat, Job>)
    requires Minted(pool) && db.Valid()
    modifies db`pendingCloseWorker, db`priorityWork, db`inflight, pool`everQueued, pool`nextSerial
    modifies db.iterators.Values, db.transactions.Values
    ensures job == Job(old(pool.nextSerial), CloseDb) && Minted(pool) && db.Valid()
    ensures !old(db.HasPriorityWork()) ==>
      closes == map[] && rolls == map[] && parked == {} && unchanged(db)
      && pool.everQueued == old(pool.everQueued) + {job} && pool.nextSerial == old(pool.nextSerial) + 1
    ensures old(db.HasPriorityWork()) ==>
      db.pendingCloseWorker == Some(job) && job in parked && Unqueued(parked, pool)
      && db.iterators == old(db.iterators) && db.transactions == old(db.transactions)
      && db.priorityWork == old(db.priorityWork) + |rolls| && db.inflight == old(db.inflight) + |rolls|
      && pool.everQueued == old(pool.everQueued) + closes.Values + rolls.Values
      && (closes.Values + rolls.Values) !! old(pool.everQueued)
    ensures old(db.HasPriorityWork()) ==> forall id | id in db.iterators ::
      CloseRequested(IterFlagsOf(db.iterators[id]), old(IterFlagsOf(db.iterators[id])), parked)
      && (id in closes <==> IdleOpen(old(IterFlagsOf(db.iterators[id]))))
    ensures old(db.HasPriorityWork()) ==> forall id | id in closes ::
      id in db.iterators && closes[id].work == CloseIterator(DbIterator(id))
    ensures old(db.HasPriorityWork()) ==> forall id | id in db.transactions ::
      RollbackRequested(TxnStateOf(db.transactions[id]), old(TxnStateOf(db.transactions[id])))
      && (id in rolls <==> Untouched(old(db.transactions[id].Flags())))
    ensures old(db.HasPriorityWork()) ==> forall id | id in rolls ::
      id in db.transactions && rolls[id].work == RollbackTxn(id)
  {
    ghost var flags, states := FlagsOf(db.iterators), StatesOf(db.transactions);
    job := Mint(pool, CloseDb);
    if !db.HasPriorityWork() {
      pool.Queue(job);
      return job, {}, map[], map[];
    }
    parked, closes, rolls := DeferClose(db, pool, job, flags, states);
  }
}
