// Runs of the lifecycle: any sequence of entry-point calls and worker
// completions from dbInit keeps the invariant, and the invariant gives what
// the pending-work protocol is for: the database's close and a
// transaction's commit or rollback run only once everything they wait for
// has finished, each counter sits at its baseline when idle, the source's
// own assertions hold, no worker is queued twice and no handle is closed,
// ended or released twice.

module LifecycleRuns {
  import opened Common
  import opened Guards
  import opened Workers
  import opened Lifecycle
  import opened LifecycleInv
  import opened LifecycleSafety
  import opened LifecycleComplete

  /** One thing that happens on the main thread while the environment runs. */
  datatype Event =
    | Open(level: string)
    | Close
    | Work
    | SnapshotNew
    | SnapshotEnd(snapshot: nat)
    | IteratorNew
    | TxnIteratorNew(transaction: nat)
    | Seek(cursor: IterKey)
    | Nextv(cursor: IterKey, size: nat)
    | IteratorEnd(cursor: IterKey)
    | TxnNew
    | TxnIdOf(transaction: nat)
    | Commit(transaction: nat)
    | Rollback(transaction: nat)
    | TxnOp(transaction: nat)
    | TxnRangeOp(transaction: nat)
    | TxnMultiGetOp(transaction: nat)
    | TxnSnapshotOp(transaction: nat)
    | Finish(job: Job, openOk: bool)      // a worker of the pool completes

  /**
   * What the caller must bring to each entry point: the handle it names
   * exists, transactionCommit and transactionRollback's own assertions, and
   * for a completion a worker that is in the pool.
   */
  predicate Enabled(s: System, e: Event) {
    Running(s) &&
    match e
    case SnapshotEnd(id) => id in s.snaps
    case TxnIteratorNew(t) => t in s.txns
    case Seek(k) => k in s.iters
    case Nextv(k, _) => k in s.iters
    case IteratorEnd(k) => k in s.iters
    case TxnIdOf(t) => t in s.txns
    case Commit(t) => t in s.txns && !Rollbacking(s.txns[t].flags)
    case Rollback(t) => t in s.txns && !Committing(s.txns[t].flags)
    case TxnOp(t) => t in s.txns
    case TxnRangeOp(t) => t in s.txns
    case TxnMultiGetOp(t) => t in s.txns && !Terminal(s.txns[t].flags)
    case TxnSnapshotOp(t) => t in s.txns
    case Finish(j, _) => j in s.pool && Refers(s, j.work)
    case _ => true
  }

  /** The state after the event. */
  function Step(s: System, e: Event): System
    requires Enabled(s, e)
  {
    match e
    case Open(level) => DbOpen(s, level).state
    case Close => DbClose(s).state
    case Work => DbWork(s).state
    case SnapshotNew => SnapshotInit(s).state
    case SnapshotEnd(id) => SnapshotRelease(s, id).state
    case IteratorNew => IteratorInit(s).state
    case TxnIteratorNew(t) => TransactionIteratorInit(s, t).state
    case Seek(k) => IteratorSeek(s, k).state
    case Nextv(k, size) => IteratorNextv(s, k, size).state
    case IteratorEnd(k) => IteratorClose(s, k).state
    case TxnNew => TransactionInit(s).state
    case TxnIdOf(t) => TransactionId(s, t).state
    case Commit(t) => TransactionCommit(s, t).state
    case Rollback(t) => TransactionRollback(s, t).state
    case TxnOp(t) => TransactionTask(s, t).state
    case TxnRangeOp(t) => TransactionRangeTask(s, t).state
    case TxnMultiGetOp(t) => TransactionMultiGet(s, t).state
    case TxnSnapshotOp(t) => TransactionSnapshot(s, t).state
    case Finish(j, openOk) => Complete(s, j, openOk)
  }

  /** Every event of `evs` is enabled when it comes. */
  predicate Runs(s: System, evs: seq<Event>)
    decreases |evs|
  {
    |evs| == 0 || (Enabled(s, evs[0]) && Runs(Step(s, evs[0]), evs[1..]))
  }

  function After(s: System, evs: seq<Event>): System
    requires Runs(s, evs)
    decreases |evs|
  {
    if |evs| == 0 then s else After(Step(s, evs[0]), evs[1..])
  }

  // ---------------------------------------------------------------------
  // What the invariant is for

  /** The CloseWorker finds every child detached and no PriorityWorker on the database in flight. */
  predicate CloseFindsDetached(s: System) {
    forall j | j in s.pool && j.work == CloseDb ::
      s.db.iterators == {} && s.db.transactions == {} && s.db.snapshots == {} && DbHolders(s.pool) == {}
      && (forall k | k in s.iters :: !s.iters[k].attached)
      && (forall t | t in s.txns :: !s.txns[t].attached)
      && (forall id | id in s.snaps :: !s.snaps[id].attached)
  }

  /** A commit or rollback worker finds its transaction with no iterator and no PriorityWorker left. */
  predicate EndFindsIdle(s: System) {
    forall j | j in s.pool && (j.work.CommitTxn? || j.work.RollbackTxn?) ::
      j.work.transaction in s.txns && s.txns[j.work.transaction].iterators == {}
      && TxnHolders(s.pool, j.work.transaction) == {}
  }

  /** Database::HasPendingWork, baseline 0: some child is registered or some PriorityWorker is in flight. */
  predicate DbBaseline(s: System) {
    s.db.pendingWork > 0 <==>
      s.db.iterators != {} || s.db.transactions != {} || s.db.snapshots != {} || DbHolders(s.pool) != {}
  }

  /** Transaction::HasPendingWork, baseline 1: some iterator is registered or some PriorityWorker is in flight. */
  predicate TxnBaseline(s: System) {
    forall t | t in s.txns && s.txns[t].attached ::
      s.txns[t].pendingWork > 1 <==> s.txns[t].iterators != {} || TxnHolders(s.pool, t) != {}
  }

  /**
   * The source's assertions: Transaction::Commit's `!hasRollbacked_`,
   * Rollback's `!hasCommitted_`, and the `!hasClosed_` of the database
   * counter a snapshot release increments.
   */
  predicate AssertionsHold(s: System) {
    (forall j | j in s.pool && j.work.CommitTxn? ::
       j.work.transaction in s.txns && !s.txns[j.work.transaction].flags.hasRollbacked)
    && (forall j | j in s.pool && j.work.RollbackTxn? ::
       j.work.transaction in s.txns && !s.txns[j.work.transaction].flags.hasCommitted)
    && (forall id | id in s.snaps && !s.snaps[id].isReleasing && !s.snaps[id].hasReleased ::
       s.db.attached && !s.db.hasClosed)
  }

  /** Every worker was queued once, and a parked one not yet. */
  predicate QueuedOnce(s: System) {
    (forall j | j in s.queued :: s.queued[j] == 1)
    && (s.db.closeWorker.Some? ==> s.db.closeWorker.value !in s.queued)
    && (forall k | k in s.iters && s.iters[k].closeWorker.Some? :: s.iters[k].closeWorker.value !in s.queued)
    && (forall t | t in s.txns && s.txns[t].closeWorker.Some? :: s.txns[t].closeWorker.value !in s.queued)
  }

  /** The engine, every cursor and every snapshot are let go of at most once; a transaction ends at most once, one way. */
  predicate TerminalOnce(s: System) {
    s.db.closes <= 1
    && (forall k | k in s.iters :: s.iters[k].closes <= 1)
    && (forall t | t in s.txns :: s.txns[t].ends <= 1 && !(s.txns[t].flags.hasCommitted && s.txns[t].flags.hasRollbacked))
    && (forall id | id in s.snaps :: s.snaps[id].releases <= 1)
  }

  predicate Safe(s: System) {
    CloseFindsDetached(s) && EndFindsIdle(s) && DbBaseline(s) && TxnBaseline(s)
    && AssertionsHold(s) && QueuedOnce(s) && TerminalOnce(s)
  }

  lemma InvCloseFindsDetached(s: System)
    requires Inv(s)
    ensures CloseFindsDetached(s)
  {
    var d := s.db;
    forall j | j in s.pool && j.work == CloseDb
      ensures d.iterators == {} && d.transactions == {} && d.snapshots == {} && DbHolders(s.pool) == {}
      ensures forall k | k in s.iters :: !s.iters[k].attached
      ensures forall t | t in s.txns :: !s.txns[t].attached
      ensures forall id | id in s.snaps :: !s.snaps[id].attached
    {
      assert d.pendingWork == 0;
      assert |d.iterators| == 0 && |d.transactions| == 0 && |d.snapshots| == 0 && |DbHolders(s.pool)| == 0;
      forall t | t in s.txns ensures !s.txns[t].attached {
        assert s.txns[t].attached ==> t in d.transactions;
      }
      forall k | k in s.iters ensures !s.iters[k].attached {
        if k.DbIterator? {
          assert s.iters[k].attached ==> k.id in d.iterators;
        } else {
          assert OwnedBy(s.iters[k], k.id, k.transaction, s.txns);
          assert TxnShape(s.txns[k.transaction]);
        }
      }
      forall id | id in s.snaps ensures !s.snaps[id].attached {
        assert s.snaps[id].attached ==> id in d.snapshots;
      }
    }
  }

  lemma InvEndFindsIdle(s: System)
    requires Inv(s)
    ensures EndFindsIdle(s)
  {
    forall j | j in s.pool && (j.work.CommitTxn? || j.work.RollbackTxn?)
      ensures j.work.transaction in s.txns && s.txns[j.work.transaction].iterators == {}
      ensures TxnHolders(s.pool, j.work.transaction) == {}
    {
      var t := j.work.transaction;
      assert TxnJobOk(s.txns[t], j.work);
      assert TxnCount(s.txns[t], |TxnHolders(s.pool, t)|);
    }
  }

  lemma InvBaselines(s: System)
    requires Inv(s)
    ensures DbBaseline(s) && TxnBaseline(s)
  {
    assert DbCount(s.db.pendingWork, s.db.iterators, s.db.transactions, s.db.snapshots, s.pool, 0);
    forall t | t in s.txns && s.txns[t].attached
      ensures s.txns[t].pendingWork > 1 <==> s.txns[t].iterators != {} || TxnHolders(s.pool, t) != {}
    {
      assert TxnCount(s.txns[t], |TxnHolders(s.pool, t)|);
    }
  }

  lemma InvAssertionsHold(s: System)
    requires Inv(s)
    ensures AssertionsHold(s)
  {
    forall j | j in s.pool && (j.work.CommitTxn? || j.work.RollbackTxn?)
      ensures j.work.transaction in s.txns
      ensures j.work.CommitTxn? ==> !s.txns[j.work.transaction].flags.hasRollbacked
      ensures j.work.RollbackTxn? ==> !s.txns[j.work.transaction].flags.hasCommitted
    {
      var t := j.work.transaction;
      assert TxnJobOk(s.txns[t], j.work);
      assert TxnShape(s.txns[t]);
    }
    forall id | id in s.snaps && !s.snaps[id].isReleasing && !s.snaps[id].hasReleased
      ensures s.db.attached && !s.db.hasClosed
    {
      assert SnapShape(s.snaps[id]);
      assert id in s.db.snapshots;
      assert |s.db.snapshots| > 0;
    }
  }

  lemma InvQueuedOnce(s: System)
    requires Inv(s)
    ensures QueuedOnce(s)
  {
    forall k | k in s.iters && s.iters[k].closeWorker.Some? ensures s.iters[k].closeWorker.value !in s.queued {
      assert ParkedJob(s.iters[k].closeWorker, CloseIterator(k), s.queued, s.nextSerial);
    }
    forall t | t in s.txns && s.txns[t].closeWorker.Some? ensures s.txns[t].closeWorker.value !in s.queued {
      assert ParkedJob(s.txns[t].closeWorker, EndWork(s.txns[t].flags, t), s.queued, s.nextSerial);
    }
  }

  lemma InvTerminalOnce(s: System)
    requires Inv(s)
    ensures TerminalOnce(s)
  {
    forall k | k in s.iters ensures s.iters[k].closes <= 1 {
      assert IterShape(s.iters[k]);
    }
    forall t | t in s.txns
      ensures s.txns[t].ends <= 1 && !(s.txns[t].flags.hasCommitted && s.txns[t].flags.hasRollbacked)
    {
      assert TxnShape(s.txns[t]);
    }
    forall id | id in s.snaps ensures s.snaps[id].releases <= 1 {
      assert SnapShape(s.snaps[id]);
    }
  }

  lemma InvSafe(s: System)
    requires Inv(s)
    ensures Safe(s)
  {
    InvCloseFindsDetached(s);
    InvEndFindsIdle(s);
    InvBaselines(s);
    InvAssertionsHold(s);
    InvQueuedOnce(s);
    InvTerminalOnce(s);
  }

  // ---------------------------------------------------------------------
  // Every step keeps the invariant

  /** The entry points in four groups, each with its own proof; 4 is a completion. */
  function Group(e: Event): nat {
    match e
    case Open(_) => 0
    case Close => 0
    case Work => 0
    case SnapshotNew => 0
    case SnapshotEnd(_) => 0
    case IteratorNew => 1
    case Seek(_) => 1
    case Nextv(_, _) => 1
    case IteratorEnd(_) => 1
    case TxnNew => 2
    case TxnIteratorNew(_) => 2
    case Commit(_) => 2
    case Rollback(_) => 2
    case Finish(_, _) => 4
    case _ => 3
  }

  /** The entry points without a cascade leave the environment's own flags alone. */
  lemma EntryRunning(s: System, e: Event)
    requires Enabled(s, e) && Group(e) < 4 && !e.Close? && !e.Commit? && !e.Rollback?
    ensures Running(Step(s, e))
  {
    match e
    case Open(level) =>
    case Work =>
    case SnapshotNew =>
    case SnapshotEnd(id) =>
    case IteratorNew =>
    case Seek(k) =>
    case Nextv(k, size) =>
    case IteratorEnd(k) =>
    case TxnNew =>
    case TxnIteratorNew(t) =>
    case TxnIdOf(t) =>
    case TxnOp(t) =>
    case TxnRangeOp(t) =>
    case TxnMultiGetOp(t) =>
    case TxnSnapshotOp(t) =>
  }

  lemma DecDbFlags(s: System)
    ensures DecDb(s).cleanedUp == s.cleanedUp && DecDb(s).collected == s.collected
  {
  }

  lemma DecTxnFlags(s: System, t: nat)
    requires t in s.txns
    ensures DecTxn(s, t).cleanedUp == s.cleanedUp && DecTxn(s, t).collected == s.collected
  {
  }

  lemma DetachIteratorFlags(s: System, k: IterKey)
    requires HasIter(s, k)
    ensures DetachIterator(s, k).cleanedUp == s.cleanedUp && DetachIterator(s, k).collected == s.collected
  {
    var it := s.iters[k];
    if it.attached {
      var s1 := s.(iters := s.iters[k := it.(attached := false)]);
      match k
      case DbIterator(id) => DecDbFlags(s1.(db := s1.db.(iterators := s1.db.iterators - {id})));
      case TxnIterator(t, id) =>
        DecTxnFlags(s1.(txns := s1.txns[t := s1.txns[t].(iterators := s1.txns[t].iterators - {id})]), t);
    }
  }

  lemma DetachTransactionFlags(s: System, t: nat)
    requires t in s.txns
    ensures DetachTransaction(s, t).cleanedUp == s.cleanedUp && DetachTransaction(s, t).collected == s.collected
  {
    var x := s.txns[t];
    if x.attached {
      DecDbFlags(s.(txns := s.txns[t := x.(attached := false, refs := 0)],
                    db := s.db.(transactions := s.db.transactions - {t})));
    }
  }

  lemma DetachSnapshotFlags(s: System, id: nat)
    requires id in s.snaps
    ensures DetachSnapshot(s, id).cleanedUp == s.cleanedUp && DetachSnapshot(s, id).collected == s.collected
  {
    var x := s.snaps[id];
    if x.attached {
      DecDbFlags(s.(snaps := s.snaps[id := x.(attached := false)],
                    db := s.db.(snapshots := s.db.snapshots - {id})));
    }
  }

  /** A worker's completion leaves the environment's own flags alone. */
  lemma CompleteRunning(s: System, j: Job, openOk: bool)
    requires j in s.pool && Refers(s, j.work)
    ensures Complete(s, j, openOk).cleanedUp == s.cleanedUp && Complete(s, j, openOk).collected == s.collected
  {
    var s0 := s.(pool := s.pool - {j});
    match j.work
    case OpenDb =>
    case CloseDb =>
    case DbTask => DecDbFlags(s0);
    case ReleaseSnapshot(id) =>
      var s1 := s0.(snaps := s0.snaps[id := ReleaseSnap(s0.snaps[id])]);
      DetachSnapshotFlags(s1, id);
      DecDbFlags(DetachSnapshot(s1, id));
    case CloseIterator(k) => DetachIteratorFlags(s0.(iters := s0.iters[k := CloseCursor(s0.iters[k])]), k);
    case NextIterator(k, _) =>
    case CommitTxn(t) => DetachTransactionFlags(s0.(txns := s0.txns[t := CommitTxnRec(s0.txns[t])]), t);
    case RollbackTxn(t) => DetachTransactionFlags(s0.(txns := s0.txns[t := RollbackTxnRec(s0.txns[t])]), t);
    case TxnTask(t) => DecTxnFlags(s0, t);
  }

  lemma DbEntryInv(s: System, e: Event)
    requires Inv(s) && Enabled(s, e) && Group(e) == 0
    ensures Inv(Step(s, e)) && Running(Step(s, e))
  {
    match e
    case Open(level) => DbOpenInv(s, level); EntryRunning(s, e);
    case Close => DbCloseInv(s);
    case Work => DbWorkInv(s); EntryRunning(s, e);
    case SnapshotNew => SnapshotInitInv(s); EntryRunning(s, e);
    case SnapshotEnd(id) => SnapshotReleaseInv(s, id); EntryRunning(s, e);
  }

  lemma IteratorEntryInv(s: System, e: Event)
    requires Inv(s) && Enabled(s, e) && Group(e) == 1
    ensures Inv(Step(s, e)) && Running(Step(s, e))
  {
    EntryRunning(s, e);
    match e
    case IteratorNew => IteratorInitInv(s);
    case Seek(k) => IteratorSeekInv(s, k);
    case Nextv(k, size) => IteratorNextvInv(s, k, size);
    case IteratorEnd(k) => IteratorCloseInv(s, k);
  }

  lemma TxnEntryInv(s: System, e: Event)
    requires Inv(s) && Enabled(s, e) && Group(e) == 2
    ensures Inv(Step(s, e)) && Running(Step(s, e))
  {
    match e
    case TxnNew => TransactionInitInv(s); EntryRunning(s, e);
    case TxnIteratorNew(t) => TransactionIteratorInitInv(s, t); EntryRunning(s, e);
    case Commit(t) => TransactionCommitInv(s, t);
    case Rollback(t) => TransactionRollbackInv(s, t);
  }

  lemma TxnOpEntryInv(s: System, e: Event)
    requires Inv(s) && Enabled(s, e) && Group(e) == 3
    ensures Inv(Step(s, e)) && Running(Step(s, e))
  {
    EntryRunning(s, e);
    match e
    case TxnIdOf(t) =>
    case TxnOp(t) => TransactionTaskInv(s, t);
    case TxnRangeOp(t) => TransactionRangeTaskInv(s, t);
    case TxnMultiGetOp(t) => TransactionMultiGetInv(s, t);
    case TxnSnapshotOp(t) =>
  }

  lemma StepInv(s: System, e: Event)
    requires Inv(s) && Enabled(s, e)
    ensures Inv(Step(s, e)) && Running(Step(s, e))
  {
    if e.Finish? {
      CompleteInv(s, e.job, e.openOk);
      CompleteRunning(s, e.job, e.openOk);
    } else if Group(e) == 0 {
      DbEntryInv(s, e);
    } else if Group(e) == 1 {
      IteratorEntryInv(s, e);
    } else if Group(e) == 2 {
      TxnEntryInv(s, e);
    } else {
      TxnOpEntryInv(s, e);
    }
  }

  lemma {:induction false} RunInv(s: System, evs: seq<Event>)
    requires Inv(s) && Running(s) && Runs(s, evs)
    ensures Inv(After(s, evs)) && Running(After(s, evs))
    decreases |evs|
  {
    if |evs| > 0 {
      StepInv(s, evs[0]);
      RunInv(Step(s, evs[0]), evs[1..]);
    }
  }

  /**
   * From dbInit, whatever the JavaScript side calls and in whatever order
   * the pool completes its workers, every state reached is safe.
   */
  lemma RunSafe(snapshotIdStart: nat, evs: seq<Event>)
    requires Runs(DbInit(snapshotIdStart), evs)
    ensures Safe(After(DbInit(snapshotIdStart), evs))
  {
    InitInv(snapshotIdStart);
    RunInv(DbInit(snapshotIdStart), evs);
    InvSafe(After(DbInit(snapshotIdStart), evs));
  }
}
