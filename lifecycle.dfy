// The handle lifecycle of the current generation as a state machine on
// values: rocksdb/napi/index.cpp's entry points, the completion of a worker
// on the main thread (DoExecute, DoComplete and DoFinally of
// native/napi/worker.cpp in one step), the garbage-collection finalizers and
// the environment cleanup hook.
//
// Every handle is a record in one System value, kept under its id for ever
// (a detached handle stays, with `attached` false); the libuv pool is the
// set of workers queued and not yet completed, completed one at a time in
// any order. A call the source accepts but whose outcome it leaves
// undefined (a worker racing a close already queued, a second next on the
// same cursor) answers `Undefined` and changes nothing.

module Lifecycle {
  import opened Common
  import opened Guards
  import opened Workers

  /** The Database handle (native/napi/database.cpp). */
  datatype Db = Db(
    open: bool,                 // db_ != nullptr
    isClosing: bool,
    hasClosed: bool,
    attached: bool,             // ref_ != nullptr
    pendingWork: nat,
    closeWorker: Option<Job>,
    iterators: set<nat>,        // the keys of iterators_, transactions_, snapshots_
    transactions: set<nat>,
    snapshots: set<nat>,
    currentIteratorId: nat,
    currentTransactionId: nat,
    currentSnapshotId: nat,
    closes: nat)                // how often Close released the engine

  /** An Iterator handle (rocksdb/napi/iterator.cpp); `hasClosed` is its BaseIterator's. */
  datatype Iter = Iter(first: bool, nexting: bool, isClosing: bool, hasClosed: bool,
                       attached: bool, closeWorker: Option<Job>, closes: nat)

  /**
   * A Transaction handle (rocksdb/napi/transaction.cpp): `refs` is the count
   * of its N-API reference and `pendingWork` the field that count is copied
   * into whenever it changes; `ends` counts the commits and rollbacks that
   * took effect.
   */
  datatype Txn = Txn(flags: TxnFlags, attached: bool, refs: nat, pendingWork: nat,
                     closeWorker: Option<Job>, iterators: set<nat>, currentIteratorId: nat, ends: nat)

  /** A Snapshot handle (rocksdb/napi/snapshot.cpp); `releases` counts the snapshots handed back. */
  datatype Snap = Snap(isReleasing: bool, hasReleased: bool, attached: bool, releases: nat)

  /**
   * One database and everything created from it. `pool` holds the workers
   * queued and not yet completed, `queued` every queue call so far.
   */
  datatype System = System(db: Db, iters: map<IterKey, Iter>, txns: map<nat, Txn>, snaps: map<nat, Snap>,
                           pool: set<Job>, queued: multiset<Job>, nextSerial: nat,
                           cleanedUp: bool, collected: bool)

  /** How an entry point returns to JavaScript. */
  datatype Reply =
    | Scheduled                       // a worker was queued or parked; it calls back when it completes
    | CalledBackNull                  // the callback was called at once with null
    | CalledBackError(code: string)   // the callback was called at once with an error
    | Threw(code: string)
    | Returned(id: nat)               // a new handle's id, or a transaction's id
    | ReturnedUnregistered            // transactionSnapshot's external, which no registry holds
    | ReturnedNothing
    | Undefined                       // the outcome is not defined: the model stops here

  datatype Answer = Answer(state: System, reply: Reply)

  /** The database's own context is reachable: its object is alive and the environment runs. */
  predicate Running(s: System) {
    !s.cleanedUp && !s.collected
  }

  /** A worker on the database would race an engine that is not open, or a close queued or done. */
  predicate Sealed(d: Db) {
    !d.open || d.hasClosed || (d.isClosing && d.closeWorker.None?)
  }

  /** Some worker doing `w` waits in the pool. */
  predicate Awaits(pool: set<Job>, w: Work) {
    exists j | j in pool :: j.work == w
  }

  /** The iterator exists, and so does the transaction that owns it, if any. */
  predicate HasIter(s: System, k: IterKey) {
    k in s.iters && (k.TxnIterator? ==> k.transaction in s.txns)
  }

  /** A worker keeps a reference to the handle it works on. */
  predicate Refers(s: System, w: Work) {
    match w
    case ReleaseSnapshot(id) => id in s.snaps
    case CloseIterator(k) => HasIter(s, k)
    case NextIterator(k, _) => HasIter(s, k)
    case CommitTxn(t) => t in s.txns
    case RollbackTxn(t) => t in s.txns
    case TxnTask(t) => t in s.txns
    case _ => true
  }

  /** Neither committing nor rolling back, nor done with either. */
  predicate Untouched(f: TxnFlags) {
    !Committing(f) && !Rollbacking(f)
  }

  predicate Terminal(f: TxnFlags) {
    f.hasCommitted || f.hasRollbacked
  }

  function KeyOf(owner: Option<nat>, id: nat): IterKey {
    if owner.Some? then TxnIterator(owner.value, id) else DbIterator(id)
  }

  // ---------------------------------------------------------------------
  // The handles' own operations, on records

  /** BaseWorker::Queue. */
  function Queue(s: System, j: Job): System {
    s.(pool := s.pool + {j}, queued := s.queued + multiset{j})
  }

  /** `new XWorker(...)`: the next serial is taken. */
  function Minted(s: System): System {
    s.(nextSerial := s.nextSerial + 1)
  }

  /**
   * Database::IncrementPendingWork: the count of the database's reference
   * grows while the reference exists; its `!hasClosed_` assertion is proved
   * of the invariant.
   */
  function IncDb(s: System): System {
    if s.db.attached then s.(db := s.db.(pendingWork := s.db.pendingWork + 1)) else s
  }

  /** Database::DecrementPendingWork: on reaching 0 a parked close is queued and the slot cleared. */
  function DecDb(s: System): System {
    var d := if s.db.attached && s.db.pendingWork > 0 then s.db.(pendingWork := s.db.pendingWork - 1) else s.db;
    if d.closeWorker.Some? && d.pendingWork == 0 then Queue(s.(db := d.(closeWorker := None)), d.closeWorker.value)
    else s.(db := d)
  }

  /** Transaction::IncrementPendingWork: the reference count grows only while the reference exists. */
  function IncTxn(s: System, t: nat): System
    requires t in s.txns
  {
    var x := s.txns[t];
    if x.attached then s.(txns := s.txns[t := x.(refs := x.refs + 1, pendingWork := x.refs + 1)]) else s
  }

  /** Transaction::DecrementPendingWork: on landing at 1 a parked commit or rollback is queued. */
  function DecTxn(s: System, t: nat): System
    requires t in s.txns
  {
    var x0 := s.txns[t];
    var x := if x0.attached && x0.refs > 0 then x0.(refs := x0.refs - 1, pendingWork := x0.refs - 1) else x0;
    if x.closeWorker.Some? && x.pendingWork == 1 then Queue(s.(txns := s.txns[t := x.(closeWorker := None)]), x.closeWorker.value)
    else s.(txns := s.txns[t := x])
  }

  /** Database::Close: the first call releases the engine, later ones do nothing. */
  function CloseDatabase(d: Db): Db {
    if d.hasClosed then d else d.(hasClosed := true, open := false, closes := d.closes + 1)
  }

  /** BaseIterator::Close, idempotent. */
  function CloseCursor(it: Iter): Iter {
    if it.hasClosed then it else it.(hasClosed := true, closes := it.closes + 1)
  }

  /** Snapshot::Release: hands the snapshot back once. */
  function ReleaseSnap(x: Snap): Snap {
    if x.hasReleased then x else x.(hasReleased := true, releases := x.releases + 1)
  }

  /** Transaction::Commit, idempotent (its `!hasRollbacked_` assertion is proved of the invariant). */
  function CommitTxnRec(x: Txn): Txn {
    if x.flags.hasCommitted then x else x.(flags := x.flags.(hasCommitted := true), ends := x.ends + 1)
  }

  /** Transaction::Rollback, idempotent. */
  function RollbackTxnRec(x: Txn): Txn {
    if x.flags.hasRollbacked then x else x.(flags := x.flags.(hasRollbacked := true), ends := x.ends + 1)
  }

  /** Iterator::Detach: leaves its owner's registry once, decrementing the owner. */
  function DetachIterator(s: System, k: IterKey): System
    requires HasIter(s, k)
  {
    var it := s.iters[k];
    if !it.attached then s
    else
      var s1 := s.(iters := s.iters[k := it.(attached := false)]);
      match k
      case DbIterator(id) => DecDb(s1.(db := s1.db.(iterators := s1.db.iterators - {id})))
      case TxnIterator(t, id) =>
        DecTxn(s1.(txns := s1.txns[t := s1.txns[t].(iterators := s1.txns[t].iterators - {id})]), t)
  }

  /** Transaction::Detach: leaves the database's registry once and drops its reference. */
  function DetachTransaction(s: System, t: nat): System
    requires t in s.txns
  {
    var x := s.txns[t];
    if !x.attached then s
    else DecDb(s.(txns := s.txns[t := x.(attached := false, refs := 0)],
                  db := s.db.(transactions := s.db.transactions - {t})))
  }

  /** Snapshot::Detach: leaves the database's registry once. */
  function DetachSnapshot(s: System, id: nat): System
    requires id in s.snaps
  {
    var x := s.snaps[id];
    if !x.attached then s
    else DecDb(s.(snaps := s.snaps[id := x.(attached := false)],
                  db := s.db.(snapshots := s.db.snapshots - {id})))
  }

  // ---------------------------------------------------------------------
  // The shared requests of index.cpp and their cascades

  /** IteratorCloseDo: mark closing; queue the close now unless a next is in flight, else park it. */
  function IteratorCloseDo(s: System, k: IterKey): System
    requires k in s.iters
  {
    var j := Job(s.nextSerial, CloseIterator(k));
    var it := s.iters[k].(isClosing := true);
    if !it.nexting then Queue(Minted(s).(iters := s.iters[k := it]), j)
    else Minted(s).(iters := s.iters[k := it.(closeWorker := Some(j))])
  }

  /**
   * The cascading close of an owner's iterators: IteratorCloseDo on every id
   * of the registry copy `reg` from `i` up to `n`, in ascending order, except
   * on iterators already closing or closed.
   */
  function CloseIterators(s: System, owner: Option<nat>, reg: set<nat>, i: nat, n: nat): System
    decreases n - i
  {
    if i >= n then s
    else
      var k := KeyOf(owner, i);
      var s1 := if i in reg && k in s.iters && !s.iters[k].isClosing && !s.iters[k].hasClosed
                then IteratorCloseDo(s, k) else s;
      CloseIterators(s1, owner, reg, i + 1, n)
  }

  /**
   * TransactionRollbackDo: mark rolling back; queue the rollback now unless
   * work is pending, else park it and close the transaction's iterators.
   */
  function TransactionRollbackDo(s: System, t: nat): System
    requires t in s.txns
  {
    var j := Job(s.nextSerial, RollbackTxn(t));
    var x := s.txns[t].(flags := s.txns[t].flags.(isRollbacking := true));
    if !(x.pendingWork > 1) then Queue(Minted(s).(txns := s.txns[t := x]), j)
    else CloseIterators(Minted(s).(txns := s.txns[t := x.(closeWorker := Some(j))]),
                        Some(t), x.iterators, 0, x.currentIteratorId)
  }

  /** The rollback cascade of dbClose: TransactionRollbackDo on every registered transaction not yet committing or rolling back. */
  function RollbackTransactions(s: System, reg: set<nat>, i: nat, n: nat): System
    decreases n - i
  {
    if i >= n then s
    else
      var s1 := if i in reg && i in s.txns && Untouched(s.txns[i].flags) then TransactionRollbackDo(s, i) else s;
      RollbackTransactions(s1, reg, i + 1, n)
  }

  /** SnapshotReleaseDo: mark releasing and queue the release, a PriorityWorker on the database. */
  function SnapshotReleaseDo(s: System, id: nat): System
    requires id in s.snaps
  {
    var j := Job(s.nextSerial, ReleaseSnapshot(id));
    Queue(IncDb(Minted(s)).(snaps := s.snaps[id := s.snaps[id].(isReleasing := true)]), j)
  }

  /** The release cascade of dbClose: SnapshotReleaseDo on every registered snapshot not releasing or released. */
  function ReleaseSnapshots(s: System, reg: set<nat>, i: nat, n: nat): System
    decreases n - i
  {
    if i >= n then s
    else
      var s1 := if i in reg && i in s.snaps && !s.snaps[i].isReleasing && !s.snaps[i].hasReleased
                then SnapshotReleaseDo(s, i) else s;
      ReleaseSnapshots(s1, reg, i + 1, n)
  }

  // ---------------------------------------------------------------------
  // Entry points

  /** dbInit: a new Database, attached to its JS object by a reference at count 0. */
  function DbInit(snapshotIdStart: nat): System {
    System(Db(false, false, false, true, 0, None, {}, {}, {}, 0, 0, snapshotIdStart, 0),
           map[], map[], map[], {}, multiset{}, 0, false, false)
  }

  /** The infoLogLevel values dbOpen accepts; the empty string means none was given. */
  predicate KnownLogLevel(level: string) {
    level == "" || level == "debug" || level == "info" || level == "warn"
    || level == "error" || level == "fatal" || level == "header"
  }

  /** dbOpen: an unknown log level is reported through the callback; otherwise an OpenWorker is queued. */
  function DbOpen(s: System, level: string): Answer
    requires Running(s)
  {
    if !KnownLogLevel(level) then Answer(s, CalledBackError("DB_OPEN"))
    else if s.db.open || s.db.isClosing || s.db.hasClosed || Awaits(s.pool, OpenDb) then Answer(s, Undefined)
    else Answer(Queue(Minted(s), Job(s.nextSerial, OpenDb)), Scheduled)
  }

  /**
   * dbClose: mark closing; queue the close now if nothing is pending, else
   * park it (over any close parked before) and cascade: close the iterators,
   * roll back the transactions and release the snapshots not yet doing so.
   */
  function DbClose(s: System): Answer
    requires Running(s)
  {
    if Awaits(s.pool, OpenDb) then Answer(s, Undefined)
    else
      var j := Job(s.nextSerial, CloseDb);
      var s1 := Minted(s).(db := s.db.(isClosing := true));
      if !(s.db.pendingWork > 0) then Answer(Queue(s1, j), Scheduled)
      else
        var d := s.db;
        var s2 := s1.(db := s1.db.(closeWorker := Some(j)));
        var s3 := CloseIterators(s2, None, d.iterators, 0, d.currentIteratorId);
        var s4 := RollbackTransactions(s3, d.transactions, 0, d.currentTransactionId);
        Answer(ReleaseSnapshots(s4, d.snapshots, 0, d.currentSnapshotId), Scheduled)
  }

  /**
   * dbGet, dbPut, dbDel, dbMultiGet, dbClear, dbCount, dbApproximateSize,
   * dbCompactRange, batchDo and batchWrite: a PriorityWorker on the
   * database, queued at once.
   */
  function DbWork(s: System): Answer
    requires Running(s)
  {
    if Sealed(s.db) then Answer(s, Undefined)
    else Answer(Queue(IncDb(Minted(s)), Job(s.nextSerial, DbTask)), Scheduled)
  }

  /** snapshotInit: the next snapshot id; the new snapshot is attached to the database. */
  function SnapshotInit(s: System): Answer
    requires Running(s)
  {
    if Sealed(s.db) then Answer(s, Undefined)
    else
      var id := s.db.currentSnapshotId;
      var d := s.db.(currentSnapshotId := id + 1, snapshots := s.db.snapshots + {id});
      Answer(IncDb(s.(db := d, snaps := s.snaps[id := Snap(false, false, true, 0)])), Returned(id))
  }

  /** snapshotRelease: a null callback if a release was already requested, else SnapshotReleaseDo. */
  function SnapshotRelease(s: System, id: nat): Answer
    requires Running(s) && id in s.snaps
  {
    if s.snaps[id].isReleasing || s.snaps[id].hasReleased then Answer(s, CalledBackNull)
    else Answer(SnapshotReleaseDo(s, id), Scheduled)
  }

  /** A new Iterator, attached, before its first read. */
  function NewIter(): Iter {
    Iter(true, false, false, false, true, None, 0)
  }

  /** iteratorInit: the database's next iterator id; the new iterator is attached to the database. */
  function IteratorInit(s: System): Answer
    requires Running(s)
  {
    if Sealed(s.db) then Answer(s, Undefined)
    else
      var id := s.db.currentIteratorId;
      var d := s.db.(currentIteratorId := id + 1, iterators := s.db.iterators + {id});
      Answer(IncDb(s.(db := d, iters := s.iters[DbIterator(id) := NewIter()])), Returned(id))
  }

  /** transactionIteratorInit: behind the throwing guard, the transaction's next iterator id. */
  function TransactionIteratorInit(s: System, t: nat): Answer
    requires Running(s) && t in s.txns
  {
    var x := s.txns[t];
    var guard := Ready(x.flags);
    if guard.Throw? then Answer(s, Threw(ErrorCode(guard.error).0))
    else
      var id := x.currentIteratorId;
      var x1 := x.(currentIteratorId := id + 1, iterators := x.iterators + {id});
      Answer(IncTxn(s.(txns := s.txns[t := x1], iters := s.iters[TxnIterator(t, id) := NewIter()]), t), Returned(id))
  }

  /** iteratorSeek: nothing on a closing or closed iterator; otherwise the next read starts where the seek lands. */
  function IteratorSeek(s: System, k: IterKey): Answer
    requires Running(s) && k in s.iters
  {
    var it := s.iters[k];
    if it.isClosing || it.hasClosed then Answer(s, ReturnedNothing)
    else if it.nexting then Answer(s, Undefined)
    else Answer(s.(iters := s.iters[k := it.(first := true)]), ReturnedNothing)
  }

  /** iteratorClose: a null callback if a close was already requested, else IteratorCloseDo. */
  function IteratorClose(s: System, k: IterKey): Answer
    requires Running(s) && k in s.iters
  {
    if s.iters[k].isClosing || s.iters[k].hasClosed then Answer(s, CalledBackNull)
    else Answer(IteratorCloseDo(s, k), Scheduled)
  }

  /** iteratorNextv: ITERATOR_NOT_OPEN on a closing or closed iterator; otherwise a NextWorker, asking for at least 1 entry. */
  function IteratorNextv(s: System, k: IterKey, size: nat): Answer
    requires Running(s) && k in s.iters
  {
    var n := if size == 0 then 1 else size;
    var it := s.iters[k];
    if it.isClosing || it.hasClosed then Answer(s, CalledBackError("ITERATOR_NOT_OPEN"))
    else if it.nexting then Answer(s, Undefined)
    else Answer(Queue(Minted(s).(iters := s.iters[k := it.(nexting := true)]), Job(s.nextSerial, NextIterator(k, n))),
                Scheduled)
  }

  /** A new Transaction, attached: its reference starts at count 1, the field at 0. */
  function NewTxn(): Txn {
    Txn(TxnFlags(false, false, false, false), true, 1, 0, None, {}, 0, 0)
  }

  /** transactionInit: the database's next transaction id; the new transaction is attached to the database. */
  function TransactionInit(s: System): Answer
    requires Running(s)
  {
    if Sealed(s.db) then Answer(s, Undefined)
    else
      var id := s.db.currentTransactionId;
      var d := s.db.(currentTransactionId := id + 1, transactions := s.db.transactions + {id});
      Answer(IncDb(s.(db := d, txns := s.txns[id := NewTxn()])), Returned(id))
  }

  /** transactionId: behind the throwing guard, the transaction's own id. */
  function TransactionId(s: System, t: nat): Answer
    requires Running(s) && t in s.txns
  {
    var guard := Ready(s.txns[t].flags);
    if guard.Throw? then Answer(s, Threw(ErrorCode(guard.error).0)) else Answer(s, Returned(t))
  }

  /**
   * transactionCommit (which asserts no rollback was requested): a null
   * callback if a commit was already requested; otherwise mark committing and
   * queue the commit unless work is pending, else park it and close the
   * transaction's iterators.
   */
  function TransactionCommit(s: System, t: nat): Answer
    requires Running(s) && t in s.txns && !Rollbacking(s.txns[t].flags)
  {
    var x := s.txns[t];
    if Committing(x.flags) then Answer(s, CalledBackNull)
    else
      var j := Job(s.nextSerial, CommitTxn(t));
      var x1 := x.(flags := x.flags.(isCommitting := true));
      if !(x1.pendingWork > 1) then Answer(Queue(Minted(s).(txns := s.txns[t := x1]), j), Scheduled)
      else Answer(CloseIterators(Minted(s).(txns := s.txns[t := x1.(closeWorker := Some(j))]),
                                 Some(t), x1.iterators, 0, x1.currentIteratorId), Scheduled)
  }

  /** transactionRollback (which asserts no commit was requested): a null callback if a rollback was already requested, else TransactionRollbackDo. */
  function TransactionRollback(s: System, t: nat): Answer
    requires Running(s) && t in s.txns && !Committing(s.txns[t].flags)
  {
    if Rollbacking(s.txns[t].flags) then Answer(s, CalledBackNull)
    else Answer(TransactionRollbackDo(s, t), Scheduled)
  }

  /** A PriorityWorker on the transaction, queued at once. */
  function TransactionWorker(s: System, t: nat): System
    requires t in s.txns
  {
    Queue(IncTxn(Minted(s), t), Job(s.nextSerial, TxnTask(t)))
  }

  /** transactionGet, transactionGetForUpdate, transactionPut and transactionDel: behind the callback guard. */
  function TransactionTask(s: System, t: nat): Answer
    requires Running(s) && t in s.txns
  {
    var guard := ReadyCb(s.txns[t].flags);
    if guard.CallbackWith? then Answer(s, CalledBackError(ErrorCode(guard.error).0))
    else Answer(TransactionWorker(s, t), Scheduled)
  }

  /** transactionClear and transactionCount: behind the throwing guard. */
  function TransactionRangeTask(s: System, t: nat): Answer
    requires Running(s) && t in s.txns
  {
    var guard := Ready(s.txns[t].flags);
    if guard.Throw? then Answer(s, Threw(ErrorCode(guard.error).0))
    else Answer(TransactionWorker(s, t), Scheduled)
  }

  /**
   * transactionMultiGet and transactionMultiGetForUpdate have no guard: the
   * worker's IncrementPendingWork asserts the transaction is not finished,
   * and a worker issued after the commit or rollback was queued races it.
   */
  function TransactionMultiGet(s: System, t: nat): Answer
    requires Running(s) && t in s.txns && !Terminal(s.txns[t].flags)
  {
    var x := s.txns[t];
    if !Untouched(x.flags) && x.closeWorker.None? then Answer(s, Undefined)
    else Answer(TransactionWorker(s, t), Scheduled)
  }

  /** transactionSnapshot: behind the throwing guard; the TransactionSnapshot is registered nowhere. */
  function TransactionSnapshot(s: System, t: nat): Answer
    requires Running(s) && t in s.txns
  {
    var guard := Ready(s.txns[t].flags);
    if guard.Throw? then Answer(s, Threw(ErrorCode(guard.error).0)) else Answer(s, ReturnedUnregistered)
  }

  // ---------------------------------------------------------------------
  // Completion of a worker on the main thread

  /**
   * A worker of the pool completes: what its DoExecute does to the handles,
   * then its DoFinally. `openOk` is the engine's answer to an OpenWorker.
   */
  function Complete(s: System, j: Job, openOk: bool): System
    requires j in s.pool && Refers(s, j.work)
  {
    var s0 := s.(pool := s.pool - {j});
    match j.work
    case OpenDb => s0.(db := s0.db.(open := openOk))
    case CloseDb => s0.(db := CloseDatabase(s0.db).(attached := false))
    case DbTask => DecDb(s0)
    case ReleaseSnapshot(id) => DecDb(DetachSnapshot(s0.(snaps := s0.snaps[id := ReleaseSnap(s0.snaps[id])]), id))
    case CloseIterator(k) => DetachIterator(s0.(iters := s0.iters[k := CloseCursor(s0.iters[k])]), k)
    case NextIterator(k, _) =>
      var it := s0.iters[k].(nexting := false, first := false);
      if it.closeWorker.Some? then Queue(s0.(iters := s0.iters[k := it.(closeWorker := None)]), it.closeWorker.value)
      else s0.(iters := s0.iters[k := it])
    case CommitTxn(t) => DetachTransaction(s0.(txns := s0.txns[t := CommitTxnRec(s0.txns[t])]), t)
    case RollbackTxn(t) => DetachTransaction(s0.(txns := s0.txns[t := RollbackTxnRec(s0.txns[t])]), t)
    case TxnTask(t) => DecTxn(s0, t)
  }

  // ---------------------------------------------------------------------
  // Garbage-collection finalizers and the environment cleanup hook

  /**
   * GCDatabase runs once nothing references the database object and no
   * worker is about, or after the cleanup hook: close and detach unless a
   * close was already requested.
   */
  function GCDatabase(s: System): System
    requires !s.collected && (s.cleanedUp || (s.db.pendingWork == 0 && s.pool == {}))
  {
    var d := if !s.db.isClosing && !s.db.hasClosed then CloseDatabase(s.db).(attached := false) else s.db;
    s.(db := d, collected := true)
  }

  /** GCIterator: the iterator's reference keeps it alive while attached; close and detach unless a close was requested. */
  function GCIterator(s: System, k: IterKey): System
    requires HasIter(s, k) && (!s.iters[k].attached || s.cleanedUp)
  {
    var it := s.iters[k];
    if !it.isClosing && !it.hasClosed then DetachIterator(s.(iters := s.iters[k := CloseCursor(it)]), k) else s
  }

  /** GCTransaction: roll back and detach unless a commit or rollback was requested. */
  function GCTransaction(s: System, t: nat): System
    requires t in s.txns && (!s.txns[t].attached || s.cleanedUp)
  {
    var x := s.txns[t];
    if Untouched(x.flags) then DetachTransaction(s.(txns := s.txns[t := RollbackTxnRec(x)]), t) else s
  }

  /** GCSnapshot: release and detach unless a release was requested. */
  function GCSnapshot(s: System, id: nat): System
    requires id in s.snaps && (!s.snaps[id].attached || s.cleanedUp)
  {
    var x := s.snaps[id];
    if !x.isReleasing && !x.hasReleased then DetachSnapshot(s.(snaps := s.snaps[id := ReleaseSnap(x)]), id) else s
  }

  /** The hook's synchronous close of an owner's iterators: Iterator::Close on every id of `reg`, no detach. */
  function CloseCursors(s: System, owner: Option<nat>, reg: set<nat>, i: nat, n: nat): System
    decreases n - i
  {
    if i >= n then s
    else
      var k := KeyOf(owner, i);
      var s1 := if i in reg && k in s.iters then s.(iters := s.iters[k := CloseCursor(s.iters[k])]) else s;
      CloseCursors(s1, owner, reg, i + 1, n)
  }

  /** The hook's transactions: close each one's iterators, then Transaction::Rollback. */
  function RollbackAll(s: System, reg: set<nat>, i: nat, n: nat): System
    decreases n - i
  {
    if i >= n then s
    else
      var s1 :=
        if i in reg && i in s.txns then
          var c := CloseCursors(s, Some(i), s.txns[i].iterators, 0, s.txns[i].currentIteratorId);
          if i in c.txns then c.(txns := c.txns[i := RollbackTxnRec(c.txns[i])]) else c
        else s;
      RollbackAll(s1, reg, i + 1, n)
  }

  /** The hook's snapshots: Snapshot::Release on every one. */
  function ReleaseAll(s: System, reg: set<nat>, i: nat, n: nat): System
    decreases n - i
  {
    if i >= n then s
    else
      var s1 := if i in reg && i in s.snaps then s.(snaps := s.snaps[i := ReleaseSnap(s.snaps[i])]) else s;
      ReleaseAll(s1, reg, i + 1, n)
  }

  /**
   * env_cleanup_hook, once every queued worker has finished: if the engine is
   * open and not closed, close every iterator, close each transaction's
   * iterators and roll it back, release every snapshot and close the
   * database, all synchronously and without detaching anything.
   */
  function EnvCleanupHook(s: System): System
    requires Running(s) && s.pool == {}
  {
    var d := s.db;
    var s1 :=
      if !d.hasClosed && d.open then
        var a := CloseCursors(s, None, d.iterators, 0, d.currentIteratorId);
        var b := RollbackAll(a, d.transactions, 0, d.currentTransactionId);
        var c := ReleaseAll(b, d.snapshots, 0, d.currentSnapshotId);
        c.(db := CloseDatabase(c.db))
      else s;
    s1.(cleanedUp := true)
  }
}
