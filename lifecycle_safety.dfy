// The lifecycle invariant holds initially and every entry point keeps it.
// Each preservation proof is split by the invariant's groups, and each group
// lemma assumes only the pieces of the invariant it needs.

module LifecycleSafety {
  import opened Common
  import opened Guards
  import opened Workers
  import opened Lifecycle
  import opened LifecycleInv
  import opened LifecycleSteps

  lemma InitInv(snapshotIdStart: nat)
    ensures Inv(DbInit(snapshotIdStart))
  {
  }

  // ---------------------------------------------------------------------
  // Work on the database

  lemma DbWorkInv(s: System)
    requires Inv(s) && Running(s)
    ensures Inv(DbWork(s).state)
  {
    if !Sealed(s.db) {
      DbWorkQueue(s);
      DbWorkCount(s);
      DbWorkHandles(s);
    }
  }

  lemma DbWorkQueue(s: System)
    requires InvQueue(s) && Running(s) && !Sealed(s.db) && s.db.attached
    ensures InvQueue(DbWork(s).state)
  {
    var j := Job(s.nextSerial, DbTask);
    var r := DbWork(s).state;
    assert r.iters == s.iters && r.txns == s.txns && r.db.closeWorker == s.db.closeWorker;
    assert r.pool == s.pool + {j} && r.queued == s.queued + multiset{j} && r.nextSerial == s.nextSerial + 1;
    FreshQueue(s.queued, s.pool, s.nextSerial, j);
    ParkedQueue(s.queued, s.nextSerial, j, s.db.closeWorker, CloseDb, s.iters, s.txns);
    UniqueAdd(s.pool, j);
  }

  lemma DbWorkCount(s: System)
    requires InvCount(s, 0, None) && FreshOk(s.queued, s.pool, s.nextSerial) && DbShape(s.db)
    requires Running(s) && !Sealed(s.db)
    ensures InvCount(DbWork(s).state, 0, None)
  {
    var j := Job(s.nextSerial, DbTask);
    var r := DbWork(s).state;
    var d := s.db;
    assert r.iters == s.iters && r.txns == s.txns && r.snaps == s.snaps && r.pool == s.pool + {j};
    assert r.db == d.(pendingWork := d.pendingWork + 1);
    FreshQueue(s.queued, s.pool, s.nextSerial, j);
    CountsAddDbHolder(d.pendingWork, d.iterators, d.transactions, d.snapshots, s.txns, s.pool, j, 0, None);
  }

  lemma DbWorkHandles(s: System)
    requires InvDb(s) && InvIters(s) && InvTxns(s) && InvSnaps(s) && Running(s) && !Sealed(s.db)
    ensures InvDb(DbWork(s).state) && InvIters(DbWork(s).state) && InvTxns(DbWork(s).state) && InvSnaps(DbWork(s).state)
  {
    var j := Job(s.nextSerial, DbTask);
    var r := DbWork(s).state;
    assert r.iters == s.iters && r.txns == s.txns && r.snaps == s.snaps && r.pool == s.pool + {j};
    AgreeAdd(s.pool, j);
    SnapsFrame(s.snaps, s.pool, r.pool, OnDb);
    ItersFrame(s.iters, s.pool, r.pool, OnDb);
    TxnsFrame(s.txns, s.pool, r.pool, OnDb);
    DbJobsKept(s.db, r.db, s.pool, r.pool);
  }

  lemma DbOpenInv(s: System, level: string)
    requires Inv(s) && Running(s)
    ensures Inv(DbOpen(s, level).state)
  {
    if KnownLogLevel(level) && !(s.db.open || s.db.isClosing || s.db.hasClosed || Awaits(s.pool, OpenDb)) {
      DbOpenQueue(s, level);
      DbOpenCount(s, level);
      DbOpenHandles(s, level);
    }
  }

  lemma DbOpenQueue(s: System, level: string)
    requires InvQueue(s) && Running(s)
    requires KnownLogLevel(level) && !(s.db.open || s.db.isClosing || s.db.hasClosed || Awaits(s.pool, OpenDb))
    ensures InvQueue(DbOpen(s, level).state)
  {
    var r := DbOpen(s, level).state;
    var j := Job(s.nextSerial, OpenDb);
    assert r.iters == s.iters && r.txns == s.txns && r.db == s.db;
    assert r.pool == s.pool + {j} && r.queued == s.queued + multiset{j} && r.nextSerial == s.nextSerial + 1;
    FreshQueue(s.queued, s.pool, s.nextSerial, j);
    ParkedQueue(s.queued, s.nextSerial, j, s.db.closeWorker, CloseDb, s.iters, s.txns);
    UniqueAdd(s.pool, j);
  }

  lemma DbOpenCount(s: System, level: string)
    requires InvCount(s, 0, None) && FreshOk(s.queued, s.pool, s.nextSerial) && Running(s)
    requires KnownLogLevel(level) && !(s.db.open || s.db.isClosing || s.db.hasClosed || Awaits(s.pool, OpenDb))
    ensures InvCount(DbOpen(s, level).state, 0, None)
  {
    var r := DbOpen(s, level).state;
    var j := Job(s.nextSerial, OpenDb);
    assert r.iters == s.iters && r.txns == s.txns && r.snaps == s.snaps && r.db == s.db && r.pool == s.pool + {j};
    var d := s.db;
    FreshQueue(s.queued, s.pool, s.nextSerial, j);
    CountsAddFree(d.pendingWork, d.iterators, d.transactions, d.snapshots, s.txns, s.pool, j, 0, None);
  }

  lemma DbOpenHandles(s: System, level: string)
    requires InvDb(s) && InvIters(s) && InvTxns(s) && InvSnaps(s) && Running(s)
    requires KnownLogLevel(level) && !(s.db.open || s.db.isClosing || s.db.hasClosed || Awaits(s.pool, OpenDb))
    ensures var r := DbOpen(s, level).state; InvDb(r) && InvIters(r) && InvTxns(r) && InvSnaps(r)
  {
    var r := DbOpen(s, level).state;
    var j := Job(s.nextSerial, OpenDb);
    assert r.iters == s.iters && r.txns == s.txns && r.snaps == s.snaps && r.db == s.db && r.pool == s.pool + {j};
    AgreeAdd(s.pool, j);
    SnapsFrame(s.snaps, s.pool, r.pool, OnDb);
    ItersFrame(s.iters, s.pool, r.pool, OnDb);
    TxnsFrame(s.txns, s.pool, r.pool, OnDb);
  }

  // ---------------------------------------------------------------------
  // New handles

  lemma SnapshotInitInv(s: System)
    requires Inv(s) && Running(s)
    ensures Inv(SnapshotInit(s).state)
  {
    if !Sealed(s.db) {
      SnapshotInitCount(s);
      SnapshotInitHandles(s);
    }
  }

  lemma SnapshotInitCount(s: System)
    requires InvCount(s, 0, None) && DbShape(s.db) && Running(s) && !Sealed(s.db)
    ensures InvCount(SnapshotInit(s).state, 0, None)
  {
    var r := SnapshotInit(s).state;
    var d := s.db;
    assert r.iters == s.iters && r.txns == s.txns && r.snaps == s.snaps[d.currentSnapshotId := Snap(false, false, true, 0)];
    assert r.pool == s.pool;
    ChildrenAddSnap(d.iterators, d.transactions, d.snapshots, d.currentIteratorId, d.currentTransactionId,
                    d.currentSnapshotId, s.iters, s.txns, s.snaps, Snap(false, false, true, 0));
  }

  lemma SnapshotInitHandles(s: System)
    requires InvDb(s) && InvIters(s) && InvTxns(s) && InvSnaps(s) && Running(s) && !Sealed(s.db)
    requires DbChildren(s.db.iterators, s.db.transactions, s.db.snapshots, s.db.currentIteratorId,
                        s.db.currentTransactionId, s.db.currentSnapshotId, s.iters, s.txns, s.snaps)
    ensures var r := SnapshotInit(s).state; InvDb(r) && InvIters(r) && InvTxns(r) && InvSnaps(r)
  {
    var r := SnapshotInit(s).state;
    var d := s.db;
    assert r.iters == s.iters && r.txns == s.txns && r.snaps == s.snaps[d.currentSnapshotId := Snap(false, false, true, 0)];
    assert r.pool == s.pool;
    SnapsStep(s.snaps, s.pool, s.pool, d.currentSnapshotId, Snap(false, false, true, 0));
    DbJobsKept(s.db, r.db, s.pool, r.pool);
  }

  lemma IteratorInitInv(s: System)
    requires Inv(s) && Running(s)
    ensures Inv(IteratorInit(s).state)
  {
    if !Sealed(s.db) {
      IteratorInitQueue(s);
      IteratorInitCount(s);
      IteratorInitHandles(s);
    }
  }

  lemma IteratorInitQueue(s: System)
    requires InvQueue(s) && Running(s) && !Sealed(s.db)
    ensures InvQueue(IteratorInit(s).state)
  {
    var r := IteratorInit(s).state;
    var k := DbIterator(s.db.currentIteratorId);
    assert r.iters == s.iters[k := NewIter()] && r.txns == s.txns && r.db.closeWorker == s.db.closeWorker;
    assert r.pool == s.pool && r.queued == s.queued && r.nextSerial == s.nextSerial;
    ItersParkedPut(s.iters, s.queued, s.nextSerial, k, NewIter());
  }

  lemma IteratorInitCount(s: System)
    requires InvCount(s, 0, None) && DbShape(s.db) && Running(s) && !Sealed(s.db)
    ensures InvCount(IteratorInit(s).state, 0, None)
  {
    var r := IteratorInit(s).state;
    var d := s.db;
    var k := DbIterator(d.currentIteratorId);
    assert r.iters == s.iters[k := NewIter()] && r.txns == s.txns && r.snaps == s.snaps && r.pool == s.pool;
    ChildrenAddIter(d.iterators, d.transactions, d.snapshots, d.currentIteratorId, d.currentTransactionId,
                    d.currentSnapshotId, s.iters, s.txns, s.snaps, NewIter());
    OwnersAddDbIter(s.iters, s.txns, k, NewIter());
  }

  lemma IteratorInitHandles(s: System)
    requires InvDb(s) && InvIters(s) && InvTxns(s) && InvSnaps(s) && Running(s) && !Sealed(s.db)
    requires DbChildren(s.db.iterators, s.db.transactions, s.db.snapshots, s.db.currentIteratorId,
                        s.db.currentTransactionId, s.db.currentSnapshotId, s.iters, s.txns, s.snaps)
    ensures var r := IteratorInit(s).state; InvDb(r) && InvIters(r) && InvTxns(r) && InvSnaps(r)
  {
    var r := IteratorInit(s).state;
    var k := DbIterator(s.db.currentIteratorId);
    assert r.iters == s.iters[k := NewIter()] && r.txns == s.txns && r.snaps == s.snaps && r.pool == s.pool;
    ItersStep(s.iters, s.pool, s.pool, k, NewIter());
    DbJobsKept(s.db, r.db, s.pool, r.pool);
  }

  lemma TransactionInitInv(s: System)
    requires Inv(s) && Running(s)
    ensures Inv(TransactionInit(s).state)
  {
    if !Sealed(s.db) {
      TransactionInitQueue(s);
      TransactionInitCount(s);
      TransactionInitHandles(s);
    }
  }

  lemma TransactionInitQueue(s: System)
    requires InvQueue(s) && Running(s) && !Sealed(s.db)
    ensures InvQueue(TransactionInit(s).state)
  {
    var r := TransactionInit(s).state;
    var t := s.db.currentTransactionId;
    assert r.iters == s.iters && r.txns == s.txns[t := NewTxn()] && r.db.closeWorker == s.db.closeWorker;
    assert r.pool == s.pool && r.queued == s.queued && r.nextSerial == s.nextSerial;
    TxnsParkedPut(s.txns, s.queued, s.nextSerial, t, NewTxn());
  }

  lemma TransactionInitCount(s: System)
    requires InvCount(s, 0, None) && TxnJobs(s.txns, s.pool) && DbShape(s.db) && Running(s) && !Sealed(s.db)
    ensures InvCount(TransactionInit(s).state, 0, None)
  {
    var r := TransactionInit(s).state;
    var d := s.db;
    var t := d.currentTransactionId;
    assert r.iters == s.iters && r.txns == s.txns[t := NewTxn()] && r.snaps == s.snaps && r.pool == s.pool;
    ChildrenAddTxn(d.iterators, d.transactions, d.snapshots, d.currentIteratorId, d.currentTransactionId,
                   d.currentSnapshotId, s.iters, s.txns, s.snaps, NewTxn());
    OwnersAddTxn(s.iters, s.txns, t, NewTxn());
    NoHolders(s.txns, s.pool, t);
    CountsPut(s.txns, s.pool, s.pool, t, NewTxn(), None, None);
  }

  lemma TransactionInitHandles(s: System)
    requires InvDb(s) && InvIters(s) && InvTxns(s) && InvSnaps(s) && Running(s) && !Sealed(s.db)
    requires DbChildren(s.db.iterators, s.db.transactions, s.db.snapshots, s.db.currentIteratorId,
                        s.db.currentTransactionId, s.db.currentSnapshotId, s.iters, s.txns, s.snaps)
    ensures var r := TransactionInit(s).state; InvDb(r) && InvIters(r) && InvTxns(r) && InvSnaps(r)
  {
    var r := TransactionInit(s).state;
    var t := s.db.currentTransactionId;
    assert r.iters == s.iters && r.txns == s.txns[t := NewTxn()] && r.snaps == s.snaps && r.pool == s.pool;
    TxnsStep(s.txns, s.pool, s.pool, t, NewTxn());
    DbJobsKept(s.db, r.db, s.pool, r.pool);
  }

  lemma TransactionIteratorInitInv(s: System, t: nat)
    requires Inv(s) && Running(s) && t in s.txns
    ensures Inv(TransactionIteratorInit(s, t).state)
  {
    if Ready(s.txns[t].flags).Proceed? {
      TransactionIteratorInitQueue(s, t);
      TransactionIteratorInitCount(s, t);
      TransactionIteratorInitHandles(s, t);
    }
  }

  /** The record transactionIteratorInit leaves for the transaction. */
  function WithIterator(x: Txn): Txn {
    x.(currentIteratorId := x.currentIteratorId + 1, iterators := x.iterators + {x.currentIteratorId},
       refs := x.refs + 1, pendingWork := x.refs + 1)
  }

  /** The state after a transaction's iterator() call that passes its guard. */
  lemma TransactionIteratorInitState(s: System, t: nat)
    requires Running(s) && t in s.txns && Ready(s.txns[t].flags).Proceed?
    ensures var r := TransactionIteratorInit(s, t).state; var x := s.txns[t];
      x.attached ==>
        r.iters == s.iters[TxnIterator(t, x.currentIteratorId) := NewIter()] && r.txns == s.txns[t := WithIterator(x)]
        && r.db == s.db && r.snaps == s.snaps && r.pool == s.pool && r.queued == s.queued && r.nextSerial == s.nextSerial
  {
    var x := s.txns[t];
    var x1 := x.(currentIteratorId := x.currentIteratorId + 1, iterators := x.iterators + {x.currentIteratorId});
    assert WithIterator(x) == x1.(refs := x1.refs + 1, pendingWork := x1.refs + 1);
    assert s.txns[t := x1][t := WithIterator(x)] == s.txns[t := WithIterator(x)];
  }

  lemma TransactionIteratorInitQueue(s: System, t: nat)
    requires InvQueue(s) && Running(s) && t in s.txns && Ready(s.txns[t].flags).Proceed? && TxnShape(s.txns[t])
    ensures InvQueue(TransactionIteratorInit(s, t).state)
  {
    var r := TransactionIteratorInit(s, t).state;
    var x := s.txns[t];
    var k := TxnIterator(t, x.currentIteratorId);
    assert r.iters == s.iters[k := NewIter()] && r.txns == s.txns[t := WithIterator(x)] && r.db == s.db;
    assert r.pool == s.pool && r.queued == s.queued && r.nextSerial == s.nextSerial;
    ItersParkedPut(s.iters, s.queued, s.nextSerial, k, NewIter());
    TxnsParkedPut(s.txns, s.queued, s.nextSerial, t, WithIterator(x));
  }

  lemma TransactionIteratorInitCount(s: System, t: nat)
    requires InvCount(s, 0, None) && TxnShapes(s.txns) && Running(s) && t in s.txns && Ready(s.txns[t].flags).Proceed?
    ensures InvCount(TransactionIteratorInit(s, t).state, 0, None)
  {
    TransactionIteratorInitRegistry(s, t);
    FreshTxnIter(s.iters, s.txns, t);
    TransactionIteratorInitCounts(s, t);
  }

  lemma TransactionIteratorInitRegistry(s: System, t: nat)
    requires Running(s) && t in s.txns && Ready(s.txns[t].flags).Proceed?
    requires DbChildren(s.db.iterators, s.db.transactions, s.db.snapshots, s.db.currentIteratorId,
                        s.db.currentTransactionId, s.db.currentSnapshotId, s.iters, s.txns, s.snaps)
    requires TxnChildren(s.iters, s.txns) && TxnShape(s.txns[t])
    ensures var r := TransactionIteratorInit(s, t).state;
      DbChildren(r.db.iterators, r.db.transactions, r.db.snapshots, r.db.currentIteratorId,
                 r.db.currentTransactionId, r.db.currentSnapshotId, r.iters, r.txns, r.snaps)
      && TxnChildren(r.iters, r.txns)
  {
    var r := TransactionIteratorInit(s, t).state;
    var x := s.txns[t];
    var k := TxnIterator(t, x.currentIteratorId);
    var d := s.db;
    assert r.iters == s.iters[k := NewIter()] && r.txns == s.txns[t := WithIterator(x)] && r.db == s.db;
    assert r.snaps == s.snaps;
    ChildrenTxnIter(d.iterators, d.transactions, d.snapshots, d.currentIteratorId, d.currentTransactionId,
                    d.currentSnapshotId, s.iters, s.txns, s.snaps, t, WithIterator(x), k, NewIter());
    OwnersAddTxnIter(s.iters, s.txns, t, WithIterator(x), NewIter());
  }

  lemma TransactionIteratorInitCounts(s: System, t: nat)
    requires Running(s) && t in s.txns && Ready(s.txns[t].flags).Proceed?
    requires s.txns[t].currentIteratorId !in s.txns[t].iterators && TxnShape(s.txns[t]) && TxnCounts(s.txns, s.pool, None)
    requires DbCount(s.db.pendingWork, s.db.iterators, s.db.transactions, s.db.snapshots, s.pool, 0)
    ensures var r := TransactionIteratorInit(s, t).state;
      DbCount(r.db.pendingWork, r.db.iterators, r.db.transactions, r.db.snapshots, r.pool, 0)
      && TxnCounts(r.txns, r.pool, None)
  {
    var r := TransactionIteratorInit(s, t).state;
    var x := s.txns[t];
    assert x.attached;
    TransactionIteratorInitState(s, t);
    assert TxnCount(x, |TxnHolders(s.pool, t)|);
    assert |WithIterator(x).iterators| == |x.iterators| + 1;
    CountsPut(s.txns, s.pool, s.pool, t, WithIterator(x), None, None);
  }

  lemma TransactionIteratorInitHandles(s: System, t: nat)
    requires InvDb(s) && InvIters(s) && InvTxns(s) && InvSnaps(s) && Running(s) && t in s.txns
    requires Ready(s.txns[t].flags).Proceed? && TxnChildren(s.iters, s.txns)
    ensures var r := TransactionIteratorInit(s, t).state; InvDb(r) && InvIters(r) && InvTxns(r) && InvSnaps(r)
  {
    FreshTxnIter(s.iters, s.txns, t);
    var r := TransactionIteratorInit(s, t).state;
    var x := s.txns[t];
    var k := TxnIterator(t, x.currentIteratorId);
    assert r.iters == s.iters[k := NewIter()] && r.txns == s.txns[t := WithIterator(x)] && r.db == s.db;
    assert r.snaps == s.snaps && r.pool == s.pool;
    assert TxnShape(x);
    ItersStep(s.iters, s.pool, s.pool, k, NewIter());
    TxnsStep(s.txns, s.pool, s.pool, t, WithIterator(x));
  }

  // ---------------------------------------------------------------------
  // Iterators

  lemma IteratorSeekInv(s: System, k: IterKey)
    requires Inv(s) && Running(s) && k in s.iters
    ensures Inv(IteratorSeek(s, k).state)
  {
    var it := s.iters[k];
    if !it.isClosing && !it.hasClosed && !it.nexting {
      SeekQueue(s, k);
      SeekCount(s, k);
      SeekHandles(s, k);
    }
  }

  lemma SeekQueue(s: System, k: IterKey)
    requires InvQueue(s) && Running(s) && k in s.iters
    requires !s.iters[k].isClosing && !s.iters[k].hasClosed && !s.iters[k].nexting
    ensures InvQueue(IteratorSeek(s, k).state)
  {
    var r := IteratorSeek(s, k).state;
    var it2 := s.iters[k].(first := true);
    assert r.iters == s.iters[k := it2] && r.txns == s.txns && r.db == s.db;
    assert r.pool == s.pool && r.queued == s.queued && r.nextSerial == s.nextSerial;
    ItersParkedPut(s.iters, s.queued, s.nextSerial, k, it2);
  }

  lemma SeekCount(s: System, k: IterKey)
    requires InvCount(s, 0, None) && Running(s) && k in s.iters
    requires !s.iters[k].isClosing && !s.iters[k].hasClosed && !s.iters[k].nexting
    ensures InvCount(IteratorSeek(s, k).state, 0, None)
  {
    var r := IteratorSeek(s, k).state;
    var it2 := s.iters[k].(first := true);
    var d := s.db;
    assert r.iters == s.iters[k := it2] && r.txns == s.txns && r.snaps == s.snaps && r.db == s.db && r.pool == s.pool;
    IterRecordSame(d.iterators, d.transactions, d.snapshots, d.currentIteratorId, d.currentTransactionId,
                   d.currentSnapshotId, s.iters, s.txns, s.snaps, k, it2);
  }

  lemma SeekHandles(s: System, k: IterKey)
    requires InvDb(s) && InvIters(s) && InvTxns(s) && InvSnaps(s) && Running(s) && k in s.iters
    requires !s.iters[k].isClosing && !s.iters[k].hasClosed && !s.iters[k].nexting
    ensures var r := IteratorSeek(s, k).state; InvDb(r) && InvIters(r) && InvTxns(r) && InvSnaps(r)
  {
    var r := IteratorSeek(s, k).state;
    var it2 := s.iters[k].(first := true);
    assert r.iters == s.iters[k := it2] && r.txns == s.txns && r.snaps == s.snaps && r.db == s.db && r.pool == s.pool;
    ItersStep(s.iters, s.pool, s.pool, k, it2);
  }

  lemma IteratorNextvInv(s: System, k: IterKey, size: nat)
    requires Inv(s) && Running(s) && k in s.iters
    ensures Inv(IteratorNextv(s, k, size).state)
  {
    var it := s.iters[k];
    if !it.isClosing && !it.hasClosed && !it.nexting {
      NextvQueue(s, k, size);
      NextvCount(s, k, size);
      NextvHandles(s, k, size);
    }
  }

  lemma NextvQueue(s: System, k: IterKey, size: nat)
    requires InvQueue(s) && IterJobs(s.iters, s.pool) && Running(s) && k in s.iters
    requires !s.iters[k].isClosing && !s.iters[k].hasClosed && !s.iters[k].nexting
    ensures InvQueue(IteratorNextv(s, k, size).state)
  {
    var r := IteratorNextv(s, k, size).state;
    var it2 := s.iters[k].(nexting := true);
    var j := Job(s.nextSerial, NextIterator(k, if size == 0 then 1 else size));
    assert r.iters == s.iters[k := it2] && r.txns == s.txns && r.db == s.db;
    assert r.pool == s.pool + {j} && r.queued == s.queued + multiset{j} && r.nextSerial == s.nextSerial + 1;
    FreshQueue(s.queued, s.pool, s.nextSerial, j);
    ParkedQueue(s.queued, s.nextSerial, j, s.db.closeWorker, CloseDb, s.iters, s.txns);
    ItersParkedPut(s.iters, r.queued, r.nextSerial, k, it2);
    UniqueAdd(s.pool, j);
  }

  lemma NextvCount(s: System, k: IterKey, size: nat)
    requires InvCount(s, 0, None) && FreshOk(s.queued, s.pool, s.nextSerial) && Running(s) && k in s.iters
    requires !s.iters[k].isClosing && !s.iters[k].hasClosed && !s.iters[k].nexting
    ensures InvCount(IteratorNextv(s, k, size).state, 0, None)
  {
    var r := IteratorNextv(s, k, size).state;
    var it2 := s.iters[k].(nexting := true);
    var j := Job(s.nextSerial, NextIterator(k, if size == 0 then 1 else size));
    assert r.iters == s.iters[k := it2] && r.txns == s.txns && r.snaps == s.snaps && r.db == s.db;
    assert r.pool == s.pool + {j};
    var d := s.db;
    FreshQueue(s.queued, s.pool, s.nextSerial, j);
    CountsAddFree(d.pendingWork, d.iterators, d.transactions, d.snapshots, s.txns, s.pool, j, 0, None);
    IterRecordSame(d.iterators, d.transactions, d.snapshots, d.currentIteratorId, d.currentTransactionId,
                   d.currentSnapshotId, s.iters, s.txns, s.snaps, k, it2);
  }

  lemma NextvHandles(s: System, k: IterKey, size: nat)
    requires InvDb(s) && InvIters(s) && InvTxns(s) && InvSnaps(s) && Running(s) && k in s.iters
    requires !s.iters[k].isClosing && !s.iters[k].hasClosed && !s.iters[k].nexting
    ensures var r := IteratorNextv(s, k, size).state; InvDb(r) && InvIters(r) && InvTxns(r) && InvSnaps(r)
  {
    var r := IteratorNextv(s, k, size).state;
    var it2 := s.iters[k].(nexting := true);
    var j := Job(s.nextSerial, NextIterator(k, if size == 0 then 1 else size));
    assert r.iters == s.iters[k := it2] && r.txns == s.txns && r.snaps == s.snaps && r.db == s.db;
    assert r.pool == s.pool + {j};
    AgreeAdd(s.pool, j);
    DbFrame(s.db, s.pool, r.pool, OnIter(k));
    SnapsFrame(s.snaps, s.pool, r.pool, OnIter(k));
    TxnsFrame(s.txns, s.pool, r.pool, OnIter(k));
    ItersStep(s.iters, s.pool, r.pool, k, it2);
  }

  /** IteratorCloseDo on an iterator not yet closing keeps the invariant. */
  lemma IteratorCloseDoInv(s: System, k: IterKey)
    requires Inv(s) && Running(s) && k in s.iters && !s.iters[k].isClosing && !s.iters[k].hasClosed
    ensures Inv(IteratorCloseDo(s, k)) && Running(IteratorCloseDo(s, k))
  {
    if !s.iters[k].nexting {
      CloseNowQueue(s, k);
      CloseNowCount(s, k);
      CloseNowHandles(s, k);
    } else {
      CloseLaterQueue(s, k);
      CloseLaterCount(s, k);
      CloseLaterHandles(s, k);
    }
  }

  lemma CloseNowQueue(s: System, k: IterKey)
    requires InvQueue(s) && IterJobs(s.iters, s.pool) && IterShapes(s.iters)
    requires k in s.iters && !s.iters[k].isClosing && !s.iters[k].hasClosed && !s.iters[k].nexting
    ensures InvQueue(IteratorCloseDo(s, k))
  {
    var r := IteratorCloseDo(s, k);
    var j := Job(s.nextSerial, CloseIterator(k));
    var it := s.iters[k].(isClosing := true);
    assert r.iters == s.iters[k := it] && r.txns == s.txns && r.db == s.db;
    assert r.pool == s.pool + {j} && r.queued == s.queued + multiset{j} && r.nextSerial == s.nextSerial + 1;
    assert IterShape(s.iters[k]);
    FreshQueue(s.queued, s.pool, s.nextSerial, j);
    ParkedQueue(s.queued, s.nextSerial, j, s.db.closeWorker, CloseDb, s.iters, s.txns);
    ItersParkedPut(s.iters, r.queued, r.nextSerial, k, it);
    UniqueAdd(s.pool, j);
  }

  lemma CloseNowCount(s: System, k: IterKey)
    requires InvCount(s, 0, None) && FreshOk(s.queued, s.pool, s.nextSerial)
    requires k in s.iters && !s.iters[k].isClosing && !s.iters[k].hasClosed && !s.iters[k].nexting
    ensures InvCount(IteratorCloseDo(s, k), 0, None)
  {
    var r := IteratorCloseDo(s, k);
    var j := Job(s.nextSerial, CloseIterator(k));
    var it := s.iters[k].(isClosing := true);
    var d := s.db;
    assert r.iters == s.iters[k := it] && r.txns == s.txns && r.snaps == s.snaps && r.db == s.db;
    assert r.pool == s.pool + {j};
    FreshQueue(s.queued, s.pool, s.nextSerial, j);
    CountsAddFree(d.pendingWork, d.iterators, d.transactions, d.snapshots, s.txns, s.pool, j, 0, None);
    IterRecordSame(d.iterators, d.transactions, d.snapshots, d.currentIteratorId, d.currentTransactionId,
                   d.currentSnapshotId, s.iters, s.txns, s.snaps, k, it);
  }

  lemma CloseNowHandles(s: System, k: IterKey)
    requires InvDb(s) && InvIters(s) && InvTxns(s) && InvSnaps(s)
    requires k in s.iters && !s.iters[k].isClosing && !s.iters[k].hasClosed && !s.iters[k].nexting
    ensures var r := IteratorCloseDo(s, k); InvDb(r) && InvIters(r) && InvTxns(r) && InvSnaps(r)
  {
    var r := IteratorCloseDo(s, k);
    var j := Job(s.nextSerial, CloseIterator(k));
    var it := s.iters[k].(isClosing := true);
    assert r.iters == s.iters[k := it] && r.txns == s.txns && r.snaps == s.snaps && r.db == s.db;
    assert r.pool == s.pool + {j};
    assert IterShape(s.iters[k]);
    AgreeAdd(s.pool, j);
    DbFrame(s.db, s.pool, r.pool, OnIter(k));
    SnapsFrame(s.snaps, s.pool, r.pool, OnIter(k));
    TxnsFrame(s.txns, s.pool, r.pool, OnIter(k));
    ItersStep(s.iters, s.pool, r.pool, k, it);
  }

  lemma CloseLaterQueue(s: System, k: IterKey)
    requires InvQueue(s) && k in s.iters && !s.iters[k].isClosing && !s.iters[k].hasClosed && s.iters[k].nexting
    ensures InvQueue(IteratorCloseDo(s, k))
  {
    var r := IteratorCloseDo(s, k);
    var j := Job(s.nextSerial, CloseIterator(k));
    var it2 := s.iters[k].(isClosing := true, closeWorker := Some(j));
    assert r.iters == s.iters[k := it2] && r.txns == s.txns && r.db == s.db;
    assert r.pool == s.pool && r.queued == s.queued && r.nextSerial == s.nextSerial + 1;
    ParkedMint(s.queued, s.nextSerial, s.db.closeWorker, CloseDb, s.iters, s.txns);
    ItersParkedPut(s.iters, r.queued, r.nextSerial, k, it2);
  }

  lemma CloseLaterCount(s: System, k: IterKey)
    requires InvCount(s, 0, None) && k in s.iters && !s.iters[k].isClosing && !s.iters[k].hasClosed && s.iters[k].nexting
    ensures InvCount(IteratorCloseDo(s, k), 0, None)
  {
    var r := IteratorCloseDo(s, k);
    var j := Job(s.nextSerial, CloseIterator(k));
    var it2 := s.iters[k].(isClosing := true, closeWorker := Some(j));
    var d := s.db;
    assert r.iters == s.iters[k := it2] && r.txns == s.txns && r.snaps == s.snaps && r.db == s.db && r.pool == s.pool;
    IterRecordSame(d.iterators, d.transactions, d.snapshots, d.currentIteratorId, d.currentTransactionId,
                   d.currentSnapshotId, s.iters, s.txns, s.snaps, k, it2);
  }

  lemma CloseLaterHandles(s: System, k: IterKey)
    requires InvDb(s) && InvIters(s) && InvTxns(s) && InvSnaps(s)
    requires k in s.iters && !s.iters[k].isClosing && !s.iters[k].hasClosed && s.iters[k].nexting
    ensures var r := IteratorCloseDo(s, k); InvDb(r) && InvIters(r) && InvTxns(r) && InvSnaps(r)
  {
    var r := IteratorCloseDo(s, k);
    var j := Job(s.nextSerial, CloseIterator(k));
    var it2 := s.iters[k].(isClosing := true, closeWorker := Some(j));
    assert r.iters == s.iters[k := it2] && r.txns == s.txns && r.snaps == s.snaps && r.db == s.db && r.pool == s.pool;
    assert IterShape(s.iters[k]);
    ItersStep(s.iters, s.pool, s.pool, k, it2);
  }

  lemma IteratorCloseInv(s: System, k: IterKey)
    requires Inv(s) && Running(s) && k in s.iters
    ensures Inv(IteratorClose(s, k).state)
  {
    if !s.iters[k].isClosing && !s.iters[k].hasClosed {
      IteratorCloseDoInv(s, k);
    }
  }

  // ---------------------------------------------------------------------
  // Snapshots

  /** SnapshotReleaseDo on a snapshot not yet releasing keeps the invariant. */
  lemma SnapshotReleaseDoInv(s: System, id: nat)
    requires Inv(s) && Running(s) && id in s.snaps && !s.snaps[id].isReleasing && !s.snaps[id].hasReleased
    ensures Inv(SnapshotReleaseDo(s, id)) && Running(SnapshotReleaseDo(s, id))
  {
    var d := s.db;
    SnapKeepsBusy(d, s.iters, s.txns, s.snaps, s.pool, 0, id);
    Busy(d, s.pool);
    ReleaseQueue(s, id);
    ReleaseCount(s, id);
    ReleaseHandles(s, id);
  }

  lemma ReleaseQueue(s: System, id: nat)
    requires InvQueue(s) && SnapJobs(s.snaps, s.pool) && id in s.snaps && !s.snaps[id].isReleasing && s.db.attached
    ensures InvQueue(SnapshotReleaseDo(s, id))
  {
    var r := SnapshotReleaseDo(s, id);
    var j := Job(s.nextSerial, ReleaseSnapshot(id));
    assert r.iters == s.iters && r.txns == s.txns && r.db.closeWorker == s.db.closeWorker;
    assert r.pool == s.pool + {j} && r.queued == s.queued + multiset{j} && r.nextSerial == s.nextSerial + 1;
    assert forall j' | j' in s.pool :: Kind(j'.work) != Kind(j.work);
    FreshQueue(s.queued, s.pool, s.nextSerial, j);
    ParkedQueue(s.queued, s.nextSerial, j, s.db.closeWorker, CloseDb, s.iters, s.txns);
    UniqueAdd(s.pool, j);
  }

  lemma ReleaseCount(s: System, id: nat)
    requires InvCount(s, 0, None) && FreshOk(s.queued, s.pool, s.nextSerial) && s.db.attached
    requires id in s.snaps && !s.snaps[id].isReleasing
    ensures InvCount(SnapshotReleaseDo(s, id), 0, None)
  {
    var r := SnapshotReleaseDo(s, id);
    var j := Job(s.nextSerial, ReleaseSnapshot(id));
    var x := s.snaps[id].(isReleasing := true);
    var d := s.db;
    assert r.iters == s.iters && r.txns == s.txns && r.snaps == s.snaps[id := x];
    assert r.db == d.(pendingWork := d.pendingWork + 1) && r.pool == s.pool + {j};
    FreshQueue(s.queued, s.pool, s.nextSerial, j);
    CountsAddDbHolder(d.pendingWork, d.iterators, d.transactions, d.snapshots, s.txns, s.pool, j, 0, None);
    SnapRecordSame(d.iterators, d.transactions, d.snapshots, d.currentIteratorId, d.currentTransactionId,
                   d.currentSnapshotId, s.iters, s.txns, s.snaps, id, x);
  }

  lemma ReleaseHandles(s: System, id: nat)
    requires InvDb(s) && InvIters(s) && InvTxns(s) && InvSnaps(s)
    requires s.db.attached && s.db.pendingWork > 0 && id in s.snaps && !s.snaps[id].isReleasing && !s.snaps[id].hasReleased
    ensures var r := SnapshotReleaseDo(s, id); InvDb(r) && InvIters(r) && InvTxns(r) && InvSnaps(r)
  {
    var r := SnapshotReleaseDo(s, id);
    var j := Job(s.nextSerial, ReleaseSnapshot(id));
    var x := s.snaps[id].(isReleasing := true);
    var d := s.db;
    assert r.iters == s.iters && r.txns == s.txns && r.snaps == s.snaps[id := x];
    assert r.db == d.(pendingWork := d.pendingWork + 1) && r.pool == s.pool + {j};
    AgreeAdd(s.pool, j);
    BusyJobs(d, r.db, s.pool, r.pool);
    DbFrame(d, s.pool, r.pool, OnSnap(id));
    ItersFrame(s.iters, s.pool, r.pool, OnSnap(id));
    TxnsFrame(s.txns, s.pool, r.pool, OnSnap(id));
    SnapsStep(s.snaps, s.pool, r.pool, id, x);
  }

  lemma SnapshotReleaseInv(s: System, id: nat)
    requires Inv(s) && Running(s) && id in s.snaps
    ensures Inv(SnapshotRelease(s, id).state)
  {
    if !s.snaps[id].isReleasing && !s.snaps[id].hasReleased {
      SnapshotReleaseDoInv(s, id);
    }
  }

  // ---------------------------------------------------------------------
  // Transactions

  /** The flags after a commit (`commit`) or a rollback is requested. */
  function Requested(f: TxnFlags, commit: bool): TxnFlags {
    if commit then f.(isCommitting := true) else f.(isRollbacking := true)
  }

  /** The end worker queued at once: nothing else is pending on the transaction. */
  function EndNow(s: System, t: nat, commit: bool): System
    requires t in s.txns
  {
    var x := s.txns[t];
    Queue(Minted(s).(txns := s.txns[t := x.(flags := Requested(x.flags, commit))]),
          Job(s.nextSerial, EndWork(Requested(x.flags, commit), t)))
  }

  /** The end worker parked until the transaction's pending work drains. */
  function EndLater(s: System, t: nat, commit: bool): System
    requires t in s.txns
  {
    var x := s.txns[t];
    var f := Requested(x.flags, commit);
    Minted(s).(txns := s.txns[t := x.(flags := f, closeWorker := Some(Job(s.nextSerial, EndWork(f, t))))])
  }

  lemma EndNowInv(s: System, t: nat, commit: bool)
    requires Inv(s) && Running(s) && t in s.txns && Untouched(s.txns[t].flags) && s.txns[t].pendingWork <= 1
    ensures Inv(EndNow(s, t, commit)) && Running(EndNow(s, t, commit))
  {
    assert TxnShape(s.txns[t]);
    EndNowQueue(s, t, commit);
    EndNowCount(s, t, commit);
    EndNowHandles(s, t, commit);
  }

  lemma EndNowQueue(s: System, t: nat, commit: bool)
    requires InvQueue(s) && TxnJobs(s.txns, s.pool) && t in s.txns && Untouched(s.txns[t].flags) && TxnShape(s.txns[t])
    ensures InvQueue(EndNow(s, t, commit))
  {
    var r := EndNow(s, t, commit);
    var x := s.txns[t];
    var x1 := x.(flags := Requested(x.flags, commit));
    var j := Job(s.nextSerial, EndWork(x1.flags, t));
    assert r.iters == s.iters && r.txns == s.txns[t := x1] && r.db == s.db;
    assert r.pool == s.pool + {j} && r.queued == s.queued + multiset{j} && r.nextSerial == s.nextSerial + 1;
    assert forall j' | j' in s.pool :: Kind(j'.work) != Kind(j.work);
    FreshQueue(s.queued, s.pool, s.nextSerial, j);
    ParkedQueue(s.queued, s.nextSerial, j, s.db.closeWorker, CloseDb, s.iters, s.txns);
    TxnsParkedPut(s.txns, r.queued, r.nextSerial, t, x1);
    UniqueAdd(s.pool, j);
  }

  lemma EndNowCount(s: System, t: nat, commit: bool)
    requires InvCount(s, 0, None) && FreshOk(s.queued, s.pool, s.nextSerial)
    requires t in s.txns && Untouched(s.txns[t].flags) && TxnShape(s.txns[t])
    ensures InvCount(EndNow(s, t, commit), 0, None)
  {
    var r := EndNow(s, t, commit);
    var x := s.txns[t];
    var x1 := x.(flags := Requested(x.flags, commit));
    var j := Job(s.nextSerial, EndWork(x1.flags, t));
    var d := s.db;
    assert r.iters == s.iters && r.txns == s.txns[t := x1] && r.snaps == s.snaps && r.db == s.db;
    assert r.pool == s.pool + {j};
    FreshQueue(s.queued, s.pool, s.nextSerial, j);
    CountsAddFree(d.pendingWork, d.iterators, d.transactions, d.snapshots, s.txns, s.pool, j, 0, None);
    CountsRecord(s.txns, r.pool, t, x1, None);
    TxnRecordSame(d.iterators, d.transactions, d.snapshots, d.currentIteratorId, d.currentTransactionId,
                  d.currentSnapshotId, s.iters, s.txns, s.snaps, t, x1);
  }

  lemma EndNowHandles(s: System, t: nat, commit: bool)
    requires InvDb(s) && InvIters(s) && InvTxns(s) && InvSnaps(s)
    requires t in s.txns && Untouched(s.txns[t].flags) && s.txns[t].pendingWork <= 1
    ensures var r := EndNow(s, t, commit); InvDb(r) && InvIters(r) && InvTxns(r) && InvSnaps(r)
  {
    var r := EndNow(s, t, commit);
    var x := s.txns[t];
    var x1 := x.(flags := Requested(x.flags, commit));
    var j := Job(s.nextSerial, EndWork(x1.flags, t));
    assert r.iters == s.iters && r.txns == s.txns[t := x1] && r.snaps == s.snaps && r.db == s.db;
    assert r.pool == s.pool + {j};
    assert TxnShape(x);
    AgreeAdd(s.pool, j);
    DbFrame(s.db, s.pool, r.pool, OnTxn(t));
    SnapsFrame(s.snaps, s.pool, r.pool, OnTxn(t));
    ItersFrame(s.iters, s.pool, r.pool, OnTxn(t));
    TxnsStep(s.txns, s.pool, r.pool, t, x1);
  }

  lemma EndLaterInv(s: System, t: nat, commit: bool)
    requires Inv(s) && Running(s) && t in s.txns && Untouched(s.txns[t].flags) && s.txns[t].pendingWork > 1
    ensures Inv(EndLater(s, t, commit)) && Running(EndLater(s, t, commit))
  {
    assert TxnShape(s.txns[t]);
    EndLaterQueue(s, t, commit);
    EndLaterCount(s, t, commit);
    EndLaterHandles(s, t, commit);
  }

  lemma EndLaterQueue(s: System, t: nat, commit: bool)
    requires InvQueue(s) && t in s.txns
    ensures InvQueue(EndLater(s, t, commit))
  {
    var r := EndLater(s, t, commit);
    var x := s.txns[t];
    var f := Requested(x.flags, commit);
    var x2 := x.(flags := f, closeWorker := Some(Job(s.nextSerial, EndWork(f, t))));
    assert r.iters == s.iters && r.txns == s.txns[t := x2] && r.db == s.db;
    assert r.pool == s.pool && r.queued == s.queued && r.nextSerial == s.nextSerial + 1;
    ParkedMint(s.queued, s.nextSerial, s.db.closeWorker, CloseDb, s.iters, s.txns);
    TxnsParkedPut(s.txns, r.queued, r.nextSerial, t, x2);
  }

  lemma EndLaterCount(s: System, t: nat, commit: bool)
    requires InvCount(s, 0, None) && t in s.txns && Untouched(s.txns[t].flags) && TxnShape(s.txns[t])
    ensures InvCount(EndLater(s, t, commit), 0, None)
  {
    var r := EndLater(s, t, commit);
    var x := s.txns[t];
    var f := Requested(x.flags, commit);
    var x2 := x.(flags := f, closeWorker := Some(Job(s.nextSerial, EndWork(f, t))));
    var d := s.db;
    assert r.iters == s.iters && r.txns == s.txns[t := x2] && r.snaps == s.snaps && r.db == s.db && r.pool == s.pool;
    CountsRecord(s.txns, s.pool, t, x2, None);
    TxnRecordSame(d.iterators, d.transactions, d.snapshots, d.currentIteratorId, d.currentTransactionId,
                  d.currentSnapshotId, s.iters, s.txns, s.snaps, t, x2);
  }

  lemma EndLaterHandles(s: System, t: nat, commit: bool)
    requires InvDb(s) && InvIters(s) && InvTxns(s) && InvSnaps(s)
    requires t in s.txns && Untouched(s.txns[t].flags) && s.txns[t].pendingWork > 1
    ensures var r := EndLater(s, t, commit); InvDb(r) && InvIters(r) && InvTxns(r) && InvSnaps(r)
  {
    var r := EndLater(s, t, commit);
    var x := s.txns[t];
    var f := Requested(x.flags, commit);
    var x2 := x.(flags := f, closeWorker := Some(Job(s.nextSerial, EndWork(f, t))));
    assert r.iters == s.iters && r.txns == s.txns[t := x2] && r.snaps == s.snaps && r.db == s.db && r.pool == s.pool;
    assert TxnShape(x);
    TxnsStep(s.txns, s.pool, s.pool, t, x2);
  }

  /** TransactionRollbackDo on a transaction neither committing nor rolling back keeps the invariant. */
  lemma TransactionRollbackDoInv(s: System, t: nat)
    requires Inv(s) && Running(s) && t in s.txns && Untouched(s.txns[t].flags)
    ensures Inv(TransactionRollbackDo(s, t)) && Running(TransactionRollbackDo(s, t))
  {
    var x := s.txns[t];
    if x.pendingWork > 1 {
      EndLaterInv(s, t, false);
      var s1 := EndLater(s, t, false);
      CloseIteratorsInv(s1, Some(t), x.iterators, 0, x.currentIteratorId);
    } else {
      EndNowInv(s, t, false);
    }
  }

  lemma TransactionRollbackInv(s: System, t: nat)
    requires Inv(s) && Running(s) && t in s.txns && !Committing(s.txns[t].flags)
    ensures Inv(TransactionRollback(s, t).state) && Running(TransactionRollback(s, t).state)
  {
    if !Rollbacking(s.txns[t].flags) {
      TransactionRollbackDoInv(s, t);
    }
  }

  lemma TransactionCommitInv(s: System, t: nat)
    requires Inv(s) && Running(s) && t in s.txns && !Rollbacking(s.txns[t].flags)
    ensures Inv(TransactionCommit(s, t).state) && Running(TransactionCommit(s, t).state)
  {
    var x := s.txns[t];
    if !Committing(x.flags) {
      if x.pendingWork > 1 {
        EndLaterInv(s, t, true);
        var s1 := EndLater(s, t, true);
        CloseIteratorsInv(s1, Some(t), x.iterators, 0, x.currentIteratorId);
      } else {
        EndNowInv(s, t, true);
      }
    }
  }

  /** A PriorityWorker may start on a transaction unfinished and not waiting on its end worker. */
  predicate MayWork(x: Txn) {
    !Terminal(x.flags) && (Untouched(x.flags) || x.closeWorker.Some?)
  }

  lemma TransactionWorkerInv(s: System, t: nat)
    requires Inv(s) && Running(s) && t in s.txns && MayWork(s.txns[t])
    ensures Inv(TransactionWorker(s, t))
  {
    assert TxnShape(s.txns[t]);
    TxnWorkerQueue(s, t);
    TxnWorkerCount(s, t);
    TxnWorkerHandles(s, t);
  }

  /** The record a PriorityWorker's constructor leaves for its transaction. */
  function Incremented(x: Txn): Txn {
    x.(refs := x.refs + 1, pendingWork := x.refs + 1)
  }

  /** The state after a PriorityWorker is made for an attached transaction and queued. */
  lemma TxnWorkerState(s: System, t: nat)
    requires t in s.txns && s.txns[t].attached
    ensures var r := TransactionWorker(s, t); var j := Job(s.nextSerial, TxnTask(t));
      r.iters == s.iters && r.txns == s.txns[t := Incremented(s.txns[t])] && r.snaps == s.snaps && r.db == s.db
      && r.pool == s.pool + {j} && r.queued == s.queued + multiset{j} && r.nextSerial == s.nextSerial + 1
  {
    assert IncTxn(Minted(s), t).txns == s.txns[t := Incremented(s.txns[t])];
  }

  lemma TxnWorkerQueue(s: System, t: nat)
    requires InvQueue(s) && t in s.txns && s.txns[t].attached
    ensures InvQueue(TransactionWorker(s, t))
  {
    var r := TransactionWorker(s, t);
    var j := Job(s.nextSerial, TxnTask(t));
    TxnWorkerState(s, t);
    FreshQueue(s.queued, s.pool, s.nextSerial, j);
    ParkedQueue(s.queued, s.nextSerial, j, s.db.closeWorker, CloseDb, s.iters, s.txns);
    TxnsParkedPut(s.txns, r.queued, r.nextSerial, t, Incremented(s.txns[t]));
    UniqueAdd(s.pool, j);
  }

  lemma TxnWorkerCount(s: System, t: nat)
    requires InvCount(s, 0, None) && FreshOk(s.queued, s.pool, s.nextSerial) && t in s.txns && s.txns[t].attached
    ensures InvCount(TransactionWorker(s, t), 0, None)
  {
    var r := TransactionWorker(s, t);
    var j := Job(s.nextSerial, TxnTask(t));
    var x1 := Incremented(s.txns[t]);
    var d := s.db;
    TxnWorkerState(s, t);
    FreshQueue(s.queued, s.pool, s.nextSerial, j);
    assert TxnCount(s.txns[t], |TxnHolders(s.pool, t)|);
    CountsAddTxnHolder(d.pendingWork, d.iterators, d.transactions, d.snapshots, s.txns, s.pool, j, t, x1, 0);
    TxnRecordSame(d.iterators, d.transactions, d.snapshots, d.currentIteratorId, d.currentTransactionId,
                  d.currentSnapshotId, s.iters, s.txns, s.snaps, t, x1);
  }

  lemma TxnWorkerHandles(s: System, t: nat)
    requires InvDb(s) && InvIters(s) && InvTxns(s) && InvSnaps(s) && TxnCounts(s.txns, s.pool, None)
    requires t in s.txns && MayWork(s.txns[t]) && s.txns[t].attached
    ensures var r := TransactionWorker(s, t); InvDb(r) && InvIters(r) && InvTxns(r) && InvSnaps(r)
  {
    var r := TransactionWorker(s, t);
    var j := Job(s.nextSerial, TxnTask(t));
    var x1 := Incremented(s.txns[t]);
    TxnWorkerState(s, t);
    assert TxnShape(s.txns[t]) && TxnCount(s.txns[t], |TxnHolders(s.pool, t)|);
    AgreeAdd(s.pool, j);
    DbFrame(s.db, s.pool, r.pool, OnTxn(t));
    SnapsFrame(s.snaps, s.pool, r.pool, OnTxn(t));
    ItersFrame(s.iters, s.pool, r.pool, OnTxn(t));
    TxnsStep(s.txns, s.pool, r.pool, t, x1);
  }

  lemma TransactionTaskInv(s: System, t: nat)
    requires Inv(s) && Running(s) && t in s.txns
    ensures Inv(TransactionTask(s, t).state)
  {
    var x := s.txns[t];
    if ReadyCb(x.flags).Proceed? {
      assert TransactionTask(s, t).state == TransactionWorker(s, t);
      assert Untouched(x.flags) && TxnShape(x);
      TransactionWorkerInv(s, t);
    }
  }

  lemma TransactionRangeTaskInv(s: System, t: nat)
    requires Inv(s) && Running(s) && t in s.txns
    ensures Inv(TransactionRangeTask(s, t).state)
  {
    var x := s.txns[t];
    if Ready(x.flags).Proceed? {
      assert TransactionRangeTask(s, t).state == TransactionWorker(s, t);
      assert Untouched(x.flags) && TxnShape(x);
      TransactionWorkerInv(s, t);
    }
  }

  lemma TransactionMultiGetInv(s: System, t: nat)
    requires Inv(s) && Running(s) && t in s.txns && !Terminal(s.txns[t].flags)
    ensures Inv(TransactionMultiGet(s, t).state)
  {
    var x := s.txns[t];
    if !(!Untouched(x.flags) && x.closeWorker.None?) {
      TransactionWorkerInv(s, t);
    }
  }

  // ---------------------------------------------------------------------
  // The cascades

  lemma {:induction false} CloseIteratorsInv(s: System, owner: Option<nat>, reg: set<nat>, i: nat, n: nat)
    requires Inv(s) && Running(s)
    ensures Inv(CloseIterators(s, owner, reg, i, n)) && Running(CloseIterators(s, owner, reg, i, n))
    decreases n - i
  {
    if i < n {
      var k := KeyOf(owner, i);
      if i in reg && k in s.iters && !s.iters[k].isClosing && !s.iters[k].hasClosed {
        IteratorCloseDoInv(s, k);
        CloseIteratorsInv(IteratorCloseDo(s, k), owner, reg, i + 1, n);
      } else {
        CloseIteratorsInv(s, owner, reg, i + 1, n);
      }
    }
  }

  lemma {:induction false} RollbackTransactionsInv(s: System, reg: set<nat>, i: nat, n: nat)
    requires Inv(s) && Running(s)
    ensures Inv(RollbackTransactions(s, reg, i, n)) && Running(RollbackTransactions(s, reg, i, n))
    decreases n - i
  {
    if i < n {
      if i in reg && i in s.txns && Untouched(s.txns[i].flags) {
        TransactionRollbackDoInv(s, i);
        RollbackTransactionsInv(TransactionRollbackDo(s, i), reg, i + 1, n);
      } else {
        RollbackTransactionsInv(s, reg, i + 1, n);
      }
    }
  }

  lemma {:induction false} ReleaseSnapshotsInv(s: System, reg: set<nat>, i: nat, n: nat)
    requires Inv(s) && Running(s)
    ensures Inv(ReleaseSnapshots(s, reg, i, n)) && Running(ReleaseSnapshots(s, reg, i, n))
    decreases n - i
  {
    if i < n {
      if i in reg && i in s.snaps && !s.snaps[i].isReleasing && !s.snaps[i].hasReleased {
        SnapshotReleaseDoInv(s, i);
        ReleaseSnapshotsInv(SnapshotReleaseDo(s, i), reg, i + 1, n);
      } else {
        ReleaseSnapshotsInv(s, reg, i + 1, n);
      }
    }
  }

  // ---------------------------------------------------------------------
  // dbClose

  /** dbClose with nothing pending: the CloseWorker is queued at once. */
  function CloseQueued(s: System): System {
    Queue(Minted(s).(db := s.db.(isClosing := true)), Job(s.nextSerial, CloseDb))
  }

  /** dbClose with work pending: the CloseWorker is parked, before the cascade. */
  function CloseParked(s: System): System {
    Minted(s).(db := s.db.(isClosing := true, closeWorker := Some(Job(s.nextSerial, CloseDb))))
  }

  lemma DbCloseInv(s: System)
    requires Inv(s) && Running(s)
    ensures Inv(DbClose(s).state) && Running(DbClose(s).state)
  {
    var d := s.db;
    if !Awaits(s.pool, OpenDb) {
      if d.pendingWork == 0 {
        assert DbClose(s).state == CloseQueued(s);
        CloseQueuedQueue(s);
        CloseQueuedCount(s);
        CloseQueuedHandles(s);
      } else {
        ParkedCloseInv(s);
        var s2 := CloseParked(s);
        CloseIteratorsInv(s2, None, d.iterators, 0, d.currentIteratorId);
        var s3 := CloseIterators(s2, None, d.iterators, 0, d.currentIteratorId);
        RollbackTransactionsInv(s3, d.transactions, 0, d.currentTransactionId);
        var s4 := RollbackTransactions(s3, d.transactions, 0, d.currentTransactionId);
        ReleaseSnapshotsInv(s4, d.snapshots, 0, d.currentSnapshotId);
      }
    }
  }

  lemma CloseQueuedQueue(s: System)
    requires InvQueue(s)
    ensures InvQueue(CloseQueued(s))
  {
    var r := CloseQueued(s);
    var j := Job(s.nextSerial, CloseDb);
    assert r.iters == s.iters && r.txns == s.txns && r.db.closeWorker == s.db.closeWorker;
    assert r.pool == s.pool + {j} && r.queued == s.queued + multiset{j} && r.nextSerial == s.nextSerial + 1;
    FreshQueue(s.queued, s.pool, s.nextSerial, j);
    ParkedQueue(s.queued, s.nextSerial, j, s.db.closeWorker, CloseDb, s.iters, s.txns);
    UniqueAdd(s.pool, j);
  }

  lemma CloseQueuedCount(s: System)
    requires InvCount(s, 0, None) && FreshOk(s.queued, s.pool, s.nextSerial)
    ensures InvCount(CloseQueued(s), 0, None)
  {
    var r := CloseQueued(s);
    var j := Job(s.nextSerial, CloseDb);
    var d := s.db;
    assert r.iters == s.iters && r.txns == s.txns && r.snaps == s.snaps && r.pool == s.pool + {j};
    assert r.db == d.(isClosing := true);
    FreshQueue(s.queued, s.pool, s.nextSerial, j);
    CountsAddFree(d.pendingWork, d.iterators, d.transactions, d.snapshots, s.txns, s.pool, j, 0, None);
  }

  lemma CloseQueuedHandles(s: System)
    requires InvDb(s) && InvIters(s) && InvTxns(s) && InvSnaps(s)
    requires s.db.pendingWork == 0 && !Awaits(s.pool, OpenDb)
    ensures var r := CloseQueued(s); InvDb(r) && InvIters(r) && InvTxns(r) && InvSnaps(r)
  {
    var r := CloseQueued(s);
    var j := Job(s.nextSerial, CloseDb);
    assert r.iters == s.iters && r.txns == s.txns && r.snaps == s.snaps && r.pool == s.pool + {j};
    assert r.db == s.db.(isClosing := true);
    assert forall j' | j' in s.pool :: j'.work != OpenDb;
    AgreeAdd(s.pool, j);
    SnapsFrame(s.snaps, s.pool, r.pool, OnDb);
    ItersFrame(s.iters, s.pool, r.pool, OnDb);
    TxnsFrame(s.txns, s.pool, r.pool, OnDb);
  }

  lemma ParkedCloseInv(s: System)
    requires Inv(s) && Running(s) && s.db.pendingWork > 0 && !Awaits(s.pool, OpenDb)
    ensures Inv(CloseParked(s)) && Running(CloseParked(s))
  {
    var r := CloseParked(s);
    var j := Job(s.nextSerial, CloseDb);
    assert r.iters == s.iters && r.txns == s.txns && r.snaps == s.snaps && r.pool == s.pool && r.queued == s.queued;
    assert r.db == s.db.(isClosing := true, closeWorker := Some(j)) && r.nextSerial == s.nextSerial + 1;
    Busy(s.db, s.pool);
    ParkedMint(s.queued, s.nextSerial, s.db.closeWorker, CloseDb, s.iters, s.txns);
    assert j !in s.queued;
    assert forall j' | j' in s.pool :: j'.work != OpenDb && j'.work != CloseDb;
  }
}
