// The invariant of the handle lifecycle while the environment runs, piece
// by piece. Each piece takes only the parts of the System it speaks of, so
// that a transition leaving those parts alone keeps the piece at no cost.

module LifecycleInv {
  import opened Common
  import opened Guards
  import opened Workers
  import opened Lifecycle

  /** The workers holding the database's count while in flight: its PriorityWorkers. */
  predicate IsDbHolder(w: Work) {
    w.DbTask? || w.ReleaseSnapshot?
  }

  function DbHolders(pool: set<Job>): set<Job> {
    set j | j in pool && IsDbHolder(j.work)
  }

  /** The PriorityWorkers in flight on transaction `t`. */
  function TxnHolders(pool: set<Job>, t: nat): set<Job> {
    set j | j in pool && j.work == TxnTask(t)
  }

  /** The work of a transaction's end worker, by the request made. */
  function EndWork(f: TxnFlags, t: nat): Work {
    if f.isCommitting then CommitTxn(t) else RollbackTxn(t)
  }

  /** Workers of which at most one is in flight per handle; the size of a next is not part of its kind. */
  predicate Exclusive(w: Work) {
    !(w.CloseDb? || w.DbTask? || w.TxnTask?)
  }

  function Kind(w: Work): Work {
    if w.NextIterator? then NextIterator(w.cursor, 0) else w
  }

  /** The handle a worker works on. */
  datatype Handle = OnDb | OnSnap(snapshot: nat) | OnIter(cursor: IterKey) | OnTxn(transaction: nat)

  function Target(w: Work): Handle {
    match w
    case ReleaseSnapshot(id) => OnSnap(id)
    case CloseIterator(k) => OnIter(k)
    case NextIterator(k, _) => OnIter(k)
    case CommitTxn(t) => OnTxn(t)
    case RollbackTxn(t) => OnTxn(t)
    case TxnTask(t) => OnTxn(t)
    case _ => OnDb
  }

  /** Two pools hold the same workers on every handle but `h`. */
  predicate AgreeOff(p: set<Job>, p': set<Job>, h: Handle) {
    (forall j | j in p' && Target(j.work) != h :: j in p)
    && (forall j | j in p && Target(j.work) != h :: j in p')
  }

  // ---------------------------------------------------------------------
  // Workers built, queued and parked

  /** Every worker queued so far has a serial below the next and was queued once; the pool was queued. */
  predicate FreshOk(queued: multiset<Job>, pool: set<Job>, n: nat) {
    (forall j | j in queued :: j.serial < n && queued[j] == 1)
    && (forall j | j in pool :: j in queued)
  }

  /** A parked worker was built, was never queued, and does what its slot is for. */
  predicate ParkedJob(o: Option<Job>, w: Work, queued: multiset<Job>, n: nat) {
    o.Some? ==> o.value.work == w && o.value.serial < n && o.value !in queued
  }

  predicate ItersParked(iters: map<IterKey, Iter>, queued: multiset<Job>, n: nat) {
    forall k | k in iters :: ParkedJob(iters[k].closeWorker, CloseIterator(k), queued, n)
  }

  predicate TxnsParked(txns: map<nat, Txn>, queued: multiset<Job>, n: nat) {
    forall t | t in txns :: ParkedJob(txns[t].closeWorker, EndWork(txns[t].flags, t), queued, n)
  }

  // ---------------------------------------------------------------------
  // Registries

  /** The database's registries hold exactly its attached children, by the ids it handed out. */
  predicate DbChildren(dIters: set<nat>, dTxns: set<nat>, dSnaps: set<nat>, ci: nat, ct: nat, cs: nat,
                       iters: map<IterKey, Iter>, txns: map<nat, Txn>, snaps: map<nat, Snap>) {
    (forall id | id in dIters :: DbIterator(id) in iters && iters[DbIterator(id)].attached)
    && (forall id | id in dTxns :: id in txns && txns[id].attached)
    && (forall id | id in dSnaps :: id in snaps && snaps[id].attached)
    && (forall k | k in iters && k.DbIterator? :: k.id < ci && (iters[k].attached ==> k.id in dIters))
    && (forall t | t in txns :: t < ct && (txns[t].attached ==> t in dTxns))
    && (forall id | id in snaps :: id < cs && (snaps[id].attached ==> id in dSnaps))
  }

  /**
   * A transaction's iterator belongs to an existing transaction, which
   * registers it exactly while it is attached and is unfinished while it is.
   */
  predicate TxnChildren(iters: map<IterKey, Iter>, txns: map<nat, Txn>) {
    (forall k | k in iters && k.TxnIterator? :: OwnedBy(iters[k], k.id, k.transaction, txns))
    && (forall t | t in txns :: forall id | id in txns[t].iterators ::
          TxnIterator(t, id) in iters && iters[TxnIterator(t, id)].attached)
  }

  predicate OwnedBy(it: Iter, id: nat, t: nat, txns: map<nat, Txn>) {
    t in txns && id < txns[t].currentIteratorId
    && (it.attached ==> id in txns[t].iterators && !Terminal(txns[t].flags))
  }

  // ---------------------------------------------------------------------
  // Counts

  /** pendingWork is the database's baseline 0 plus its children and its PriorityWorkers in flight. */
  predicate DbCount(pendingWork: nat, dIters: set<nat>, dTxns: set<nat>, dSnaps: set<nat>, pool: set<Job>, extra: nat) {
    pendingWork == |dIters| + |dTxns| + |dSnaps| + |DbHolders(pool)| + extra
  }

  /**
   * An attached transaction's reference counts its baseline 1 plus its
   * iterators and PriorityWorkers, and its field is that count or still 0
   * from construction; a detached one has neither.
   */
  predicate TxnCount(x: Txn, holders: nat) {
    if x.attached then
      x.refs == 1 + |x.iterators| + holders && (x.pendingWork == x.refs || (x.pendingWork == 0 && x.refs == 1))
    else
      x.iterators == {} && holders == 0
  }

  /** `off` names a transaction whose count is, for the moment, one above its holders. */
  predicate TxnCounts(txns: map<nat, Txn>, pool: set<Job>, off: Option<nat>) {
    forall t | t in txns :: TxnCount(txns[t], |TxnHolders(pool, t)| + (if off == Some(t) then 1 else 0))
  }

  // ---------------------------------------------------------------------
  // What each worker in the pool finds when it runs

  predicate DbJobs(d: Db, pool: set<Job>) {
    forall j | j in pool ::
      (j.work.OpenDb? ==> !d.open && !d.isClosing && !d.hasClosed)
      && (j.work.CloseDb? ==> d.isClosing && d.pendingWork == 0 && d.closeWorker.None?)
  }

  predicate SnapJobs(snaps: map<nat, Snap>, pool: set<Job>) {
    forall j | j in pool && j.work.ReleaseSnapshot? ::
      j.work.snapshot in snaps && snaps[j.work.snapshot].isReleasing && snaps[j.work.snapshot].attached
  }

  /** A close runs on an attached iterator with no next in flight; a next on a nexting one. */
  predicate IterJobs(iters: map<IterKey, Iter>, pool: set<Job>) {
    forall j | j in pool && (j.work.CloseIterator? || j.work.NextIterator?) ::
      j.work.cursor in iters && IterJobOk(iters[j.work.cursor], j.work)
  }

  predicate IterJobOk(it: Iter, w: Work) {
    if w.CloseIterator? then it.isClosing && !it.nexting && it.attached && it.closeWorker.None?
    else it.nexting
  }

  /** A commit or rollback runs on an attached transaction with nothing pending; a PriorityWorker on an attached one. */
  predicate TxnJobs(txns: map<nat, Txn>, pool: set<Job>) {
    forall j | j in pool && (j.work.CommitTxn? || j.work.RollbackTxn? || j.work.TxnTask?) ::
      j.work.transaction in txns && TxnJobOk(txns[j.work.transaction], j.work)
  }

  predicate TxnJobOk(x: Txn, w: Work) {
    if w.TxnTask? then x.attached
    else (if w.CommitTxn? then x.flags.isCommitting else x.flags.isRollbacking)
         && x.attached && x.closeWorker.None? && x.pendingWork <= 1
  }

  predicate Unique(pool: set<Job>) {
    forall j1, j2 | j1 in pool && j2 in pool && Exclusive(j1.work) && Kind(j1.work) == Kind(j2.work) :: j1 == j2
  }

  // ---------------------------------------------------------------------
  // The handles' own flags

  predicate DbShape(d: Db) {
    (d.closeWorker.Some? ==> d.isClosing && d.pendingWork > 0)
    && (d.hasClosed ==> !d.open && d.isClosing)
    && (!d.open ==> d.pendingWork == 0 && d.closeWorker.None?)
    && d.attached == !d.hasClosed
    && d.closes == (if d.hasClosed then 1 else 0)
  }

  /** A close requested and not parked is queued. */
  predicate DbWaits(d: Db, pool: set<Job>) {
    d.isClosing && !d.hasClosed && d.closeWorker.None? ==> Awaits(pool, CloseDb)
  }

  predicate IterShape(it: Iter) {
    (it.nexting ==> it.attached)
    && (it.closeWorker.Some? ==> it.isClosing && it.nexting)
    && it.attached == !it.hasClosed
    && (it.hasClosed ==> it.isClosing)
    && it.closes == (if it.hasClosed then 1 else 0)
  }

  predicate IterShapes(iters: map<IterKey, Iter>) {
    forall k | k in iters :: IterShape(iters[k])
  }

  predicate ItersWait(iters: map<IterKey, Iter>, pool: set<Job>) {
    forall k | k in iters && iters[k].isClosing && !iters[k].hasClosed && iters[k].closeWorker.None? ::
      Awaits(pool, CloseIterator(k))
  }

  predicate TxnShape(x: Txn) {
    var f := x.flags;
    !(Committing(f) && Rollbacking(f))
    && (f.hasCommitted ==> f.isCommitting)
    && (f.hasRollbacked ==> f.isRollbacking)
    && (x.closeWorker.Some? ==> !Untouched(f) && x.attached && x.pendingWork > 1)
    && x.attached == !Terminal(f)
    && x.ends == (if Terminal(f) then 1 else 0)
  }

  predicate TxnShapes(txns: map<nat, Txn>) {
    forall t | t in txns :: TxnShape(txns[t])
  }

  predicate TxnsWait(txns: map<nat, Txn>, pool: set<Job>) {
    forall t | t in txns && !Untouched(txns[t].flags) && !Terminal(txns[t].flags) && txns[t].closeWorker.None? ::
      Awaits(pool, EndWork(txns[t].flags, t))
  }

  predicate SnapShape(x: Snap) {
    x.attached == !x.hasReleased
    && (x.hasReleased ==> x.isReleasing)
    && x.releases == (if x.hasReleased then 1 else 0)
  }

  predicate SnapShapes(snaps: map<nat, Snap>) {
    forall id | id in snaps :: SnapShape(snaps[id])
  }

  predicate SnapsWait(snaps: map<nat, Snap>, pool: set<Job>) {
    forall id | id in snaps && snaps[id].isReleasing && !snaps[id].hasReleased :: Awaits(pool, ReleaseSnapshot(id))
  }

  // ---------------------------------------------------------------------
  // The invariant

  /** The invariant of a running environment. */
  predicate Inv(s: System) {
    InvOff(s, 0, None)
  }

  /**
   * The invariant, but for a decrement still to come: the database's count
   * `extra` above its children and holders, and transaction `off`'s one above.
   */
  predicate InvOff(s: System, extra: nat, off: Option<nat>) {
    InvQueue(s) && InvCount(s, extra, off) && InvDb(s) && InvIters(s) && InvTxns(s) && InvSnaps(s)
  }

  /** Workers are queued once each and parked ones never. */
  predicate InvQueue(s: System) {
    FreshOk(s.queued, s.pool, s.nextSerial)
    && ParkedJob(s.db.closeWorker, CloseDb, s.queued, s.nextSerial)
    && ItersParked(s.iters, s.queued, s.nextSerial)
    && TxnsParked(s.txns, s.queued, s.nextSerial)
    && Unique(s.pool)
  }

  /** The registries and the counts. */
  predicate InvCount(s: System, extra: nat, off: Option<nat>) {
    var d := s.db;
    DbChildren(d.iterators, d.transactions, d.snapshots, d.currentIteratorId, d.currentTransactionId,
               d.currentSnapshotId, s.iters, s.txns, s.snaps)
    && TxnChildren(s.iters, s.txns)
    && DbCount(d.pendingWork, d.iterators, d.transactions, d.snapshots, s.pool, extra)
    && TxnCounts(s.txns, s.pool, off)
  }

  predicate InvDb(s: System) {
    DbJobs(s.db, s.pool) && DbShape(s.db) && DbWaits(s.db, s.pool)
  }

  predicate InvIters(s: System) {
    IterJobs(s.iters, s.pool) && IterShapes(s.iters) && ItersWait(s.iters, s.pool)
  }

  predicate InvTxns(s: System) {
    TxnJobs(s.txns, s.pool) && TxnShapes(s.txns) && TxnsWait(s.txns, s.pool)
  }

  predicate InvSnaps(s: System) {
    SnapJobs(s.snaps, s.pool) && SnapShapes(s.snaps) && SnapsWait(s.snaps, s.pool)
  }

  // ---------------------------------------------------------------------
  // Counting workers in flight

  lemma DbHoldersAdd(pool: set<Job>, j: Job)
    requires j !in pool
    ensures |DbHolders(pool + {j})| == |DbHolders(pool)| + (if IsDbHolder(j.work) then 1 else 0)
  {
    if IsDbHolder(j.work) {
      assert DbHolders(pool + {j}) == DbHolders(pool) + {j};
    } else {
      assert DbHolders(pool + {j}) == DbHolders(pool);
    }
  }

  lemma DbHoldersRemove(pool: set<Job>, j: Job)
    requires j in pool
    ensures |DbHolders(pool - {j})| == |DbHolders(pool)| - (if IsDbHolder(j.work) then 1 else 0)
  {
    if IsDbHolder(j.work) {
      assert DbHolders(pool) == DbHolders(pool - {j}) + {j};
    } else {
      assert DbHolders(pool - {j}) == DbHolders(pool);
    }
  }

  lemma TxnHoldersAdd(pool: set<Job>, j: Job)
    requires j !in pool
    ensures forall t :: |TxnHolders(pool + {j}, t)| == |TxnHolders(pool, t)| + (if j.work == TxnTask(t) then 1 else 0)
  {
    forall t ensures |TxnHolders(pool + {j}, t)| == |TxnHolders(pool, t)| + (if j.work == TxnTask(t) then 1 else 0) {
      if j.work == TxnTask(t) {
        assert TxnHolders(pool + {j}, t) == TxnHolders(pool, t) + {j};
      } else {
        assert TxnHolders(pool + {j}, t) == TxnHolders(pool, t);
      }
    }
  }

  lemma TxnHoldersRemove(pool: set<Job>, j: Job)
    requires j in pool
    ensures forall t :: |TxnHolders(pool - {j}, t)| == |TxnHolders(pool, t)| - (if j.work == TxnTask(t) then 1 else 0)
  {
    forall t ensures |TxnHolders(pool - {j}, t)| == |TxnHolders(pool, t)| - (if j.work == TxnTask(t) then 1 else 0) {
      if j.work == TxnTask(t) {
        assert TxnHolders(pool, t) == TxnHolders(pool - {j}, t) + {j};
      } else {
        assert TxnHolders(pool - {j}, t) == TxnHolders(pool, t);
      }
    }
  }
}
