// The completion of each worker keeps the invariant: the handle it refers
// to still exists, the state its DoExecute and DoComplete take for granted
// holds, and what they change (a handle closed, released, ended or
// detached, a count decremented, a parked worker queued) leaves the
// invariant as it was.

module LifecycleComplete {
  import opened Common
  import opened Guards
  import opened Workers
  import opened Lifecycle
  import opened LifecycleInv
  import opened LifecycleSteps

  // ---------------------------------------------------------------------
  // A worker leaves the pool

  function Dropped(s: System, j: Job): System {
    s.(pool := s.pool - {j})
  }

  lemma AwaitsDrop(p: set<Job>, j: Job, w: Work)
    requires Awaits(p, w) && j.work != w
    ensures Awaits(p - {j}, w)
  {
    var c :| c in p && c.work == w;
    assert c in p - {j};
  }

  /** Removing a worker other than a close keeps what the database's workers find and the waits. */
  lemma DbDrop(d: Db, d': Db, p: set<Job>, j: Job)
    requires DbJobs(d, p) && DbWaits(d, p) && j.work != CloseDb
    requires d'.open == d.open && d'.isClosing == d.isClosing && d'.hasClosed == d.hasClosed
    requires d'.pendingWork == d.pendingWork && d'.closeWorker == d.closeWorker
    ensures DbJobs(d', p - {j}) && DbWaits(d', p - {j})
  {
    if d.isClosing && !d.hasClosed && d.closeWorker.None? {
      AwaitsDrop(p, j, CloseDb);
    }
  }

  lemma SnapsDrop(snaps: map<nat, Snap>, p: set<Job>, j: Job)
    requires SnapJobs(snaps, p) && SnapsWait(snaps, p) && !j.work.ReleaseSnapshot?
    ensures SnapJobs(snaps, p - {j}) && SnapsWait(snaps, p - {j})
  {
    forall id | id in snaps && snaps[id].isReleasing && !snaps[id].hasReleased
      ensures Awaits(p - {j}, ReleaseSnapshot(id))
    {
      AwaitsDrop(p, j, ReleaseSnapshot(id));
    }
  }

  lemma ItersDrop(iters: map<IterKey, Iter>, p: set<Job>, j: Job)
    requires IterJobs(iters, p) && ItersWait(iters, p) && !j.work.CloseIterator?
    ensures IterJobs(iters, p - {j}) && ItersWait(iters, p - {j})
  {
    forall k | k in iters && iters[k].isClosing && !iters[k].hasClosed && iters[k].closeWorker.None?
      ensures Awaits(p - {j}, CloseIterator(k))
    {
      AwaitsDrop(p, j, CloseIterator(k));
    }
  }

  lemma TxnsDrop(txns: map<nat, Txn>, p: set<Job>, j: Job)
    requires TxnJobs(txns, p) && TxnsWait(txns, p) && !j.work.CommitTxn? && !j.work.RollbackTxn?
    ensures TxnJobs(txns, p - {j}) && TxnsWait(txns, p - {j})
  {
    forall t | t in txns && !Untouched(txns[t].flags) && !Terminal(txns[t].flags) && txns[t].closeWorker.None?
      ensures Awaits(p - {j}, EndWork(txns[t].flags, t))
    {
      AwaitsDrop(p, j, EndWork(txns[t].flags, t));
    }
  }

  /** A worker leaving the pool and another on the same handle joining it change nothing elsewhere. */
  lemma AgreeSwap(p: set<Job>, j: Job, c: Job)
    requires Target(j.work) == Target(c.work)
    ensures AgreeOff(p, p - {j} + {c}, Target(j.work))
  {
  }

  lemma CountsRemoveFree(pw: nat, dI: set<nat>, dT: set<nat>, dS: set<nat>, txns: map<nat, Txn>, p: set<Job>, j: Job,
                         extra: nat, off: Option<nat>)
    requires DbCount(pw, dI, dT, dS, p, extra) && TxnCounts(txns, p, off)
    requires j in p && !IsDbHolder(j.work) && !j.work.TxnTask?
    ensures DbCount(pw, dI, dT, dS, p - {j}, extra) && TxnCounts(txns, p - {j}, off)
  {
    DbHoldersRemove(p, j);
    TxnHoldersRemove(p, j);
  }

  /** A PriorityWorker on the database leaves: its count is now one above its children and holders. */
  lemma CountsRemoveDbHolder(pw: nat, dI: set<nat>, dT: set<nat>, dS: set<nat>, txns: map<nat, Txn>, p: set<Job>, j: Job,
                             extra: nat)
    requires DbCount(pw, dI, dT, dS, p, extra) && TxnCounts(txns, p, None)
    requires j in p && IsDbHolder(j.work)
    ensures DbCount(pw, dI, dT, dS, p - {j}, extra + 1) && TxnCounts(txns, p - {j}, None)
  {
    DbHoldersRemove(p, j);
    TxnHoldersRemove(p, j);
  }

  /** A PriorityWorker on transaction `t` leaves: its count is now one above. */
  lemma CountsRemoveTxnHolder(pw: nat, dI: set<nat>, dT: set<nat>, dS: set<nat>, txns: map<nat, Txn>, p: set<Job>, j: Job,
                              t: nat, extra: nat)
    requires DbCount(pw, dI, dT, dS, p, extra) && TxnCounts(txns, p, None)
    requires j in p && j.work == TxnTask(t)
    ensures DbCount(pw, dI, dT, dS, p - {j}, extra) && TxnCounts(txns, p - {j}, Some(t))
  {
    DbHoldersRemove(p, j);
    TxnHoldersRemove(p, j);
    forall t' | t' in txns
      ensures TxnCount(txns[t'], |TxnHolders(p - {j}, t')| + (if Some(t) == Some(t') then 1 else 0))
    {
      assert TxnCount(txns[t'], |TxnHolders(p, t')|);
    }
  }

  /** Transaction `t` becomes `x`, whose count is one above its holders. */
  lemma CountsOff(txns: map<nat, Txn>, p: set<Job>, t: nat, x: Txn)
    requires TxnCounts(txns, p, None) && TxnCount(x, |TxnHolders(p, t)| + 1)
    ensures TxnCounts(txns[t := x], p, Some(t))
  {
  }

  // ---------------------------------------------------------------------
  // Registries losing a child

  lemma ChildrenDetachSnap(dI: set<nat>, dT: set<nat>, dS: set<nat>, ci: nat, ct: nat, cs: nat,
                           iters: map<IterKey, Iter>, txns: map<nat, Txn>, snaps: map<nat, Snap>, id: nat, y: Snap)
    requires DbChildren(dI, dT, dS, ci, ct, cs, iters, txns, snaps) && id in snaps && snaps[id].attached && !y.attached
    ensures DbChildren(dI, dT, dS - {id}, ci, ct, cs, iters, txns, snaps[id := y])
    ensures |dS - {id}| == |dS| - 1
  {
    assert id in dS && dS == (dS - {id}) + {id};
  }

  lemma ChildrenDetachDbIter(dI: set<nat>, dT: set<nat>, dS: set<nat>, ci: nat, ct: nat, cs: nat,
                             iters: map<IterKey, Iter>, txns: map<nat, Txn>, snaps: map<nat, Snap>, k: IterKey, y: Iter)
    requires DbChildren(dI, dT, dS, ci, ct, cs, iters, txns, snaps) && k in iters && k.DbIterator?
    requires iters[k].attached && !y.attached
    ensures DbChildren(dI - {k.id}, dT, dS, ci, ct, cs, iters[k := y], txns, snaps)
    ensures |dI - {k.id}| == |dI| - 1
  {
    assert k.id in dI && dI == (dI - {k.id}) + {k.id};
  }

  lemma ChildrenDetachTxn(dI: set<nat>, dT: set<nat>, dS: set<nat>, ci: nat, ct: nat, cs: nat,
                          iters: map<IterKey, Iter>, txns: map<nat, Txn>, snaps: map<nat, Snap>, t: nat, y: Txn)
    requires DbChildren(dI, dT, dS, ci, ct, cs, iters, txns, snaps) && t in txns && txns[t].attached && !y.attached
    ensures DbChildren(dI, dT - {t}, dS, ci, ct, cs, iters, txns[t := y], snaps)
    ensures |dT - {t}| == |dT| - 1
  {
    assert t in dT && dT == (dT - {t}) + {t};
  }

  lemma OwnersSetDbIter(iters: map<IterKey, Iter>, txns: map<nat, Txn>, k: IterKey, it: Iter)
    requires TxnChildren(iters, txns) && k.DbIterator?
    ensures TxnChildren(iters[k := it], txns)
  {
  }

  /** A transaction's iterator detaches and leaves its owner's registry. */
  lemma OwnersDetachTxnIter(iters: map<IterKey, Iter>, txns: map<nat, Txn>, k: IterKey, y: Iter)
    requires TxnChildren(iters, txns) && k in iters && k.TxnIterator? && !y.attached
    ensures k.transaction in txns
    ensures var t := k.transaction;
      TxnChildren(iters[k := y], txns[t := txns[t].(iterators := txns[t].iterators - {k.id})])
  {
    assert OwnedBy(iters[k], k.id, k.transaction, txns);
  }

  /** A transaction with no iterators left detaches. */
  lemma OwnersDetachTxn(iters: map<IterKey, Iter>, txns: map<nat, Txn>, t: nat, y: Txn)
    requires TxnChildren(iters, txns) && t in txns && txns[t].iterators == {}
    requires y.iterators == {} && y.currentIteratorId == txns[t].currentIteratorId
    ensures TxnChildren(iters, txns[t := y])
  {
    forall k | k in iters && k.TxnIterator? ensures OwnedBy(iters[k], k.id, k.transaction, txns[t := y]) {
      assert OwnedBy(iters[k], k.id, k.transaction, txns);
    }
  }

  // ---------------------------------------------------------------------
  // Exclusive workers are alone on their handle

  /** A close or next of cursor `k` is the only close or next of `k` in flight. */
  lemma IterAlone(iters: map<IterKey, Iter>, p: set<Job>, j: Job, k: IterKey)
    requires IterJobs(iters, p) && Unique(p) && j in p
    requires (j.work.CloseIterator? || j.work.NextIterator?) && j.work.cursor == k
    ensures forall j' | j' in p - {j} :: !((j'.work.CloseIterator? || j'.work.NextIterator?) && j'.work.cursor == k)
  {
    assert IterJobOk(iters[k], j.work);
    forall j' | j' in p - {j} && (j'.work.CloseIterator? || j'.work.NextIterator?)
      ensures j'.work.cursor != k
    {
      assert IterJobOk(iters[j'.work.cursor], j'.work);
      assert j'.work.cursor == k ==> Kind(j'.work) != Kind(j.work);
    }
  }

  /** A transaction's end worker, with no PriorityWorker on it, is alone on it. */
  lemma TxnAlone(txns: map<nat, Txn>, p: set<Job>, j: Job, t: nat)
    requires TxnJobs(txns, p) && Unique(p) && j in p && TxnHolders(p, t) == {} && t in txns && TxnShape(txns[t])
    requires j.work == CommitTxn(t) || j.work == RollbackTxn(t)
    ensures forall j' | j' in p - {j} && (j'.work.CommitTxn? || j'.work.RollbackTxn? || j'.work.TxnTask?) ::
      j'.work.transaction != t
  {
    assert TxnJobOk(txns[t], j.work);
    forall j' | j' in p - {j} && (j'.work.CommitTxn? || j'.work.RollbackTxn? || j'.work.TxnTask?)
      ensures j'.work.transaction != t
    {
      assert j'.work == TxnTask(t) ==> j' in TxnHolders(p, t);
      assert TxnJobOk(txns[j'.work.transaction], j'.work);
      assert j'.work.transaction == t ==> Kind(j'.work) != Kind(j.work);
    }
  }

  // ---------------------------------------------------------------------
  // The decrements

  /** Database::DecrementPendingWork with the count one above its children and holders. */
  lemma DecDbInv(s: System, e: nat)
    requires InvOff(s, e + 1, None)
    ensures InvOff(DecDb(s), e, None)
  {
    var d := s.db;
    Busy(d, s.pool);
    if d.closeWorker.Some? && d.pendingWork == 1 {
      DecDbUnparkQueue(s);
      DecDbUnparkCount(s, e);
      DecDbUnparkHandles(s);
    } else {
      DecDbKeepCount(s, e);
      DecDbKeepDb(s);
    }
  }

  lemma DecDbKeepCount(s: System, e: nat)
    requires InvCount(s, e + 1, None) && s.db.attached && !(s.db.closeWorker.Some? && s.db.pendingWork == 1)
    ensures DecDb(s) == s.(db := s.db.(pendingWork := s.db.pendingWork - 1))
    ensures InvCount(DecDb(s), e, None)
  {
  }

  lemma DecDbKeepDb(s: System)
    requires InvDb(s) && s.db.attached && s.db.pendingWork > 0 && !(s.db.closeWorker.Some? && s.db.pendingWork == 1)
    ensures DecDb(s) == s.(db := s.db.(pendingWork := s.db.pendingWork - 1))
    ensures InvDb(DecDb(s))
  {
    var d := s.db;
    BusyJobs(d, d.(pendingWork := d.pendingWork - 1), s.pool, s.pool);
  }

  lemma DecDbUnparkQueue(s: System)
    requires InvQueue(s) && s.db.attached && s.db.closeWorker.Some? && s.db.pendingWork == 1
    ensures InvQueue(DecDb(s))
  {
    var d := s.db;
    var c := d.closeWorker.value;
    var r := DecDb(s);
    assert r.iters == s.iters && r.txns == s.txns && r.db.closeWorker == None;
    assert r.pool == s.pool + {c} && r.queued == s.queued + multiset{c} && r.nextSerial == s.nextSerial;
    FreshUnpark(s.queued, s.pool, s.nextSerial, c);
    assert forall k | k in s.iters && s.iters[k].closeWorker.Some? :: s.iters[k].closeWorker.value.work != CloseDb;
    assert forall t | t in s.txns && s.txns[t].closeWorker.Some? :: s.txns[t].closeWorker.value.work != CloseDb;
    ParkedUnpark(s.queued, s.nextSerial, c, None, CloseDb, s.iters, s.txns);
    UniqueAdd(s.pool, c);
  }

  lemma DecDbUnparkCount(s: System, e: nat)
    requires InvCount(s, e + 1, None) && FreshOk(s.queued, s.pool, s.nextSerial)
    requires ParkedJob(s.db.closeWorker, CloseDb, s.queued, s.nextSerial)
    requires s.db.attached && s.db.closeWorker.Some? && s.db.pendingWork == 1
    ensures InvCount(DecDb(s), e, None)
  {
    var d := s.db;
    var c := d.closeWorker.value;
    var r := DecDb(s);
    assert r.iters == s.iters && r.txns == s.txns && r.snaps == s.snaps && r.pool == s.pool + {c};
    assert r.db == d.(pendingWork := 0, closeWorker := None);
    CountsAddFree(0, d.iterators, d.transactions, d.snapshots, s.txns, s.pool, c, e, None);
  }

  lemma DecDbUnparkHandles(s: System)
    requires InvDb(s) && InvIters(s) && InvTxns(s) && InvSnaps(s)
    requires s.db.attached && s.db.open && s.db.closeWorker.Some? && s.db.pendingWork == 1
    requires s.db.closeWorker.value.work == CloseDb
    ensures var r := DecDb(s); InvDb(r) && InvIters(r) && InvTxns(r) && InvSnaps(r)
  {
    var d := s.db;
    var c := d.closeWorker.value;
    var r := DecDb(s);
    assert r.iters == s.iters && r.txns == s.txns && r.snaps == s.snaps && r.pool == s.pool + {c};
    assert r.db == d.(pendingWork := 0, closeWorker := None);
    assert forall j | j in s.pool :: j.work != OpenDb && j.work != CloseDb;
    AgreeAdd(s.pool, c);
    SnapsFrame(s.snaps, s.pool, r.pool, OnDb);
    ItersFrame(s.iters, s.pool, r.pool, OnDb);
    TxnsFrame(s.txns, s.pool, r.pool, OnDb);
  }

  /** Transaction::DecrementPendingWork with transaction `t`'s count one above its holders. */
  lemma DecTxnInv(s: System, t: nat)
    requires InvOff(s, 0, Some(t)) && t in s.txns
    ensures Inv(DecTxn(s, t))
  {
    var x0 := s.txns[t];
    assert TxnCount(x0, |TxnHolders(s.pool, t)| + 1) && TxnShape(x0);
    assert x0.attached && x0.refs > 1 && x0.pendingWork == x0.refs;
    var x := x0.(refs := x0.refs - 1, pendingWork := x0.refs - 1);
    if x.closeWorker.Some? && x.pendingWork == 1 {
      DecTxnUnparkQueue(s, t);
      DecTxnUnparkCount(s, t);
      DecTxnUnparkHandles(s, t);
    } else {
      DecTxnKeepQueue(s, t);
      DecTxnKeepCount(s, t);
      DecTxnKeepHandles(s, t);
    }
  }

  /** The record Transaction::DecrementPendingWork leaves on an attached transaction. */
  function Decremented(x: Txn): Txn
    requires x.refs > 0
  {
    x.(refs := x.refs - 1, pendingWork := x.refs - 1)
  }

  lemma DecTxnUnparkQueue(s: System, t: nat)
    requires InvQueue(s) && TxnJobs(s.txns, s.pool) && t in s.txns && s.txns[t].attached && s.txns[t].refs > 1
    requires s.txns[t].closeWorker.Some? && s.txns[t].refs == 2
    ensures InvQueue(DecTxn(s, t))
  {
    var x0 := s.txns[t];
    var c := x0.closeWorker.value;
    var x := Decremented(x0).(closeWorker := None);
    var r := DecTxn(s, t);
    assert r.iters == s.iters && r.txns == s.txns[t := x] && r.db == s.db;
    assert r.pool == s.pool + {c} && r.queued == s.queued + multiset{c} && r.nextSerial == s.nextSerial;
    assert c.work == EndWork(x0.flags, t);
    FreshUnpark(s.queued, s.pool, s.nextSerial, c);
    TxnsParkedPut(s.txns, s.queued, s.nextSerial, t, x);
    assert forall k | k in s.iters && s.iters[k].closeWorker.Some? :: s.iters[k].closeWorker.value.work != c.work;
    assert forall t' | t' in s.txns && t' != t && s.txns[t'].closeWorker.Some? ::
      s.txns[t'].closeWorker.value.work != c.work;
    ParkedUnpark(s.queued, s.nextSerial, c, s.db.closeWorker, CloseDb, s.iters, s.txns[t := x]);
    assert forall j | j in s.pool && (j.work.CommitTxn? || j.work.RollbackTxn?) :: j.work.transaction != t;
    UniqueAdd(s.pool, c);
  }

  lemma DecTxnUnparkCount(s: System, t: nat)
    requires InvCount(s, 0, Some(t)) && FreshOk(s.queued, s.pool, s.nextSerial) && t in s.txns
    requires ParkedJob(s.txns[t].closeWorker, EndWork(s.txns[t].flags, t), s.queued, s.nextSerial)
    requires s.txns[t].attached && s.txns[t].closeWorker.Some? && s.txns[t].refs == 2
    ensures InvCount(DecTxn(s, t), 0, None)
  {
    var x0 := s.txns[t];
    var c := x0.closeWorker.value;
    var x := Decremented(x0).(closeWorker := None);
    var r := DecTxn(s, t);
    var d := s.db;
    assert r.iters == s.iters && r.txns == s.txns[t := x] && r.db == s.db && r.snaps == s.snaps;
    assert r.pool == s.pool + {c};
    assert TxnCount(x0, |TxnHolders(s.pool, t)| + 1);
    CountsPut(s.txns, s.pool, s.pool, t, x, Some(t), None);
    CountsAddFree(d.pendingWork, d.iterators, d.transactions, d.snapshots, s.txns[t := x], s.pool, c, 0, None);
    TxnRecordSame(d.iterators, d.transactions, d.snapshots, d.currentIteratorId, d.currentTransactionId,
                  d.currentSnapshotId, s.iters, s.txns, s.snaps, t, x);
  }

  lemma DecTxnUnparkHandles(s: System, t: nat)
    requires InvDb(s) && InvIters(s) && InvTxns(s) && InvSnaps(s) && t in s.txns
    requires ParkedJob(s.txns[t].closeWorker, EndWork(s.txns[t].flags, t), s.queued, s.nextSerial)
    requires s.txns[t].attached && s.txns[t].closeWorker.Some? && s.txns[t].refs == 2
    ensures var r := DecTxn(s, t); InvDb(r) && InvIters(r) && InvTxns(r) && InvSnaps(r)
  {
    var x0 := s.txns[t];
    var c := x0.closeWorker.value;
    var x := Decremented(x0).(closeWorker := None);
    var r := DecTxn(s, t);
    assert r.iters == s.iters && r.txns == s.txns[t := x] && r.db == s.db && r.snaps == s.snaps;
    assert r.pool == s.pool + {c};
    assert TxnShape(x0) && c.work == EndWork(x0.flags, t);
    assert forall j | j in s.pool && (j.work.CommitTxn? || j.work.RollbackTxn?) :: j.work.transaction != t;
    AgreeAdd(s.pool, c);
    DbFrame(s.db, s.pool, r.pool, OnTxn(t));
    SnapsFrame(s.snaps, s.pool, r.pool, OnTxn(t));
    ItersFrame(s.iters, s.pool, r.pool, OnTxn(t));
    TxnsStep(s.txns, s.pool, r.pool, t, x);
  }

  lemma DecTxnKeepQueue(s: System, t: nat)
    requires InvQueue(s) && t in s.txns && s.txns[t].attached && s.txns[t].refs > 0
    requires !(s.txns[t].closeWorker.Some? && s.txns[t].refs == 2)
    ensures InvQueue(DecTxn(s, t))
  {
    var x := Decremented(s.txns[t]);
    var r := DecTxn(s, t);
    assert r == s.(txns := s.txns[t := x]);
    TxnsParkedPut(s.txns, s.queued, s.nextSerial, t, x);
  }

  lemma DecTxnKeepCount(s: System, t: nat)
    requires InvCount(s, 0, Some(t)) && t in s.txns && s.txns[t].attached && s.txns[t].refs > 1
    requires !(s.txns[t].closeWorker.Some? && s.txns[t].refs == 2)
    ensures InvCount(DecTxn(s, t), 0, None)
  {
    var x := Decremented(s.txns[t]);
    var r := DecTxn(s, t);
    var d := s.db;
    assert r == s.(txns := s.txns[t := x]);
    assert TxnCount(s.txns[t], |TxnHolders(s.pool, t)| + 1);
    CountsPut(s.txns, s.pool, s.pool, t, x, Some(t), None);
    TxnRecordSame(d.iterators, d.transactions, d.snapshots, d.currentIteratorId, d.currentTransactionId,
                  d.currentSnapshotId, s.iters, s.txns, s.snaps, t, x);
  }

  lemma DecTxnKeepHandles(s: System, t: nat)
    requires InvTxns(s) && t in s.txns && s.txns[t].attached && s.txns[t].refs > 1
    requires s.txns[t].pendingWork == s.txns[t].refs
    requires !(s.txns[t].closeWorker.Some? && s.txns[t].refs == 2)
    ensures InvTxns(DecTxn(s, t))
  {
    var x := Decremented(s.txns[t]);
    var r := DecTxn(s, t);
    assert r == s.(txns := s.txns[t := x]);
    assert TxnShape(s.txns[t]);
    TxnsStep(s.txns, s.pool, s.pool, t, x);
  }

  // ---------------------------------------------------------------------
  // Each worker's completion

  /** A worker in flight refers to a handle that exists. */
  lemma PoolRefers(s: System, j: Job)
    requires Inv(s) && j in s.pool
    ensures Refers(s, j.work)
  {
    if j.work.CloseIterator? || j.work.NextIterator? {
      var k := j.work.cursor;
      assert k in s.iters;
      assert k.TxnIterator? ==> OwnedBy(s.iters[k], k.id, k.transaction, s.txns);
    }
  }

  /** The OpenWorker completes, the engine open or not as `openOk` says. */
  lemma OpenDoneInv(s: System, j: Job, openOk: bool)
    requires Inv(s) && j in s.pool && j.work == OpenDb
    ensures Inv(Dropped(s, j).(db := s.db.(open := openOk)))
  {
    var p := s.pool;
    var r := Dropped(s, j).(db := s.db.(open := openOk));
    var d := s.db;
    assert r.iters == s.iters && r.txns == s.txns && r.snaps == s.snaps && r.pool == p - {j};
    assert forall j' | j' in p - {j} :: Kind(j'.work) != Kind(j.work);
    assert forall j' | j' in p :: j'.work != CloseDb;
    FreshRemove(s.queued, p, s.nextSerial, j);
    UniqueRemove(p, j);
    CountsRemoveFree(d.pendingWork, d.iterators, d.transactions, d.snapshots, s.txns, p, j, 0, None);
    SnapsDrop(s.snaps, p, j);
    ItersDrop(s.iters, p, j);
    TxnsDrop(s.txns, p, j);
  }

  /** The CloseWorker completes: the engine is closed and the database detached. */
  lemma CloseDoneInv(s: System, j: Job)
    requires Inv(s) && j in s.pool && j.work == CloseDb
    ensures Inv(Dropped(s, j).(db := CloseDatabase(s.db).(attached := false)))
  {
    var p := s.pool;
    var r := Dropped(s, j).(db := CloseDatabase(s.db).(attached := false));
    var d := s.db;
    assert r.iters == s.iters && r.txns == s.txns && r.snaps == s.snaps && r.pool == p - {j};
    assert forall j' | j' in p :: j'.work != OpenDb;
    FreshRemove(s.queued, p, s.nextSerial, j);
    UniqueRemove(p, j);
    CountsRemoveFree(d.pendingWork, d.iterators, d.transactions, d.snapshots, s.txns, p, j, 0, None);
    SnapsDrop(s.snaps, p, j);
    ItersDrop(s.iters, p, j);
    TxnsDrop(s.txns, p, j);
  }

  /** A PriorityWorker on the database completes and decrements it. */
  lemma DbTaskDoneInv(s: System, j: Job)
    requires Inv(s) && j in s.pool && j.work == DbTask
    ensures Inv(DecDb(Dropped(s, j)))
  {
    var p := s.pool;
    var m := Dropped(s, j);
    var d := s.db;
    FreshRemove(s.queued, p, s.nextSerial, j);
    UniqueRemove(p, j);
    CountsRemoveDbHolder(d.pendingWork, d.iterators, d.transactions, d.snapshots, s.txns, p, j, 0);
    DbDrop(d, d, p, j);
    SnapsDrop(s.snaps, p, j);
    ItersDrop(s.iters, p, j);
    TxnsDrop(s.txns, p, j);
    DecDbInv(m, 0);
  }

  /** A PriorityWorker on transaction `t` completes and decrements it. */
  lemma TxnTaskDoneInv(s: System, j: Job, t: nat)
    requires Inv(s) && j in s.pool && j.work == TxnTask(t)
    ensures t in s.txns && Inv(DecTxn(Dropped(s, j), t))
  {
    var p := s.pool;
    var m := Dropped(s, j);
    var d := s.db;
    assert TxnJobOk(s.txns[t], j.work);
    FreshRemove(s.queued, p, s.nextSerial, j);
    UniqueRemove(p, j);
    CountsRemoveTxnHolder(d.pendingWork, d.iterators, d.transactions, d.snapshots, s.txns, p, j, t, 0);
    DbDrop(d, d, p, j);
    SnapsDrop(s.snaps, p, j);
    ItersDrop(s.iters, p, j);
    TxnsDrop(s.txns, p, j);
    DecTxnInv(m, t);
  }

  /** The snapshot record a SnapshotReleaseWorker leaves: released and detached. */
  function Released(x: Snap): Snap {
    ReleaseSnap(x).(attached := false)
  }

  /** A SnapshotReleaseWorker's state after Snapshot::Detach's registry change and before its two decrements. */
  function ReleaseMid(s: System, j: Job, id: nat): System
    requires id in s.snaps
  {
    Dropped(s, j).(snaps := s.snaps[id := Released(s.snaps[id])], db := s.db.(snapshots := s.db.snapshots - {id}))
  }

  lemma ReleaseDoneInv(s: System, j: Job, id: nat)
    requires Inv(s) && j in s.pool && j.work == ReleaseSnapshot(id)
    ensures id in s.snaps && Inv(DecDb(DecDb(ReleaseMid(s, j, id))))
  {
    ReleaseMidQueue(s, j, id);
    ReleaseMidCount(s, j, id);
    ReleaseMidHandles(s, j, id);
    var m := ReleaseMid(s, j, id);
    DecDbInv(m, 1);
    DecDbInv(DecDb(m), 0);
  }

  lemma ReleaseMidQueue(s: System, j: Job, id: nat)
    requires InvQueue(s) && j in s.pool && id in s.snaps
    ensures InvQueue(ReleaseMid(s, j, id))
  {
    var r := ReleaseMid(s, j, id);
    assert r.iters == s.iters && r.txns == s.txns && r.db.closeWorker == s.db.closeWorker;
    assert r.pool == s.pool - {j} && r.queued == s.queued && r.nextSerial == s.nextSerial;
    FreshRemove(s.queued, s.pool, s.nextSerial, j);
    UniqueRemove(s.pool, j);
  }

  lemma ReleaseMidCount(s: System, j: Job, id: nat)
    requires InvCount(s, 0, None) && SnapJobs(s.snaps, s.pool) && j in s.pool && j.work == ReleaseSnapshot(id)
    ensures id in s.snaps && InvCount(ReleaseMid(s, j, id), 2, None)
  {
    var r := ReleaseMid(s, j, id);
    var d := s.db;
    var p := s.pool;
    assert r.iters == s.iters && r.txns == s.txns && r.pool == p - {j};
    assert r.snaps == s.snaps[id := Released(s.snaps[id])] && r.db == d.(snapshots := d.snapshots - {id});
    CountsRemoveDbHolder(d.pendingWork, d.iterators, d.transactions, d.snapshots, s.txns, p, j, 0);
    ChildrenDetachSnap(d.iterators, d.transactions, d.snapshots, d.currentIteratorId, d.currentTransactionId,
                       d.currentSnapshotId, s.iters, s.txns, s.snaps, id, Released(s.snaps[id]));
  }

  lemma ReleaseMidHandles(s: System, j: Job, id: nat)
    requires InvDb(s) && InvIters(s) && InvTxns(s) && InvSnaps(s) && Unique(s.pool)
    requires j in s.pool && j.work == ReleaseSnapshot(id)
    ensures id in s.snaps
    ensures var r := ReleaseMid(s, j, id); InvDb(r) && InvIters(r) && InvTxns(r) && InvSnaps(r)
  {
    var r := ReleaseMid(s, j, id);
    var p := s.pool;
    var y := Released(s.snaps[id]);
    assert r.iters == s.iters && r.txns == s.txns && r.pool == p - {j};
    assert r.snaps == s.snaps[id := y] && r.db == s.db.(snapshots := s.db.snapshots - {id});
    assert SnapShape(s.snaps[id]);
    assert forall j' | j' in p - {j} :: Kind(j'.work) != Kind(j.work);
    AgreeRemove(p, j);
    DbDrop(s.db, r.db, p, j);
    SnapsStep(s.snaps, p, r.pool, id, y);
    ItersDrop(s.iters, p, j);
    TxnsDrop(s.txns, p, j);
  }

  /** The iterator record an IteratorCloseWorker leaves: closed and detached. */
  function Closed(it: Iter): Iter {
    CloseCursor(it).(attached := false)
  }

  /** An IteratorCloseWorker on a database iterator, after Iterator::Detach's registry change and before its decrement. */
  function CloseDbIterMid(s: System, j: Job, k: IterKey): System
    requires k in s.iters && k.DbIterator?
  {
    Dropped(s, j).(iters := s.iters[k := Closed(s.iters[k])], db := s.db.(iterators := s.db.iterators - {k.id}))
  }

  lemma CloseDbIterDoneInv(s: System, j: Job, k: IterKey)
    requires Inv(s) && j in s.pool && j.work == CloseIterator(k) && k.DbIterator?
    ensures k in s.iters && Inv(DecDb(CloseDbIterMid(s, j, k)))
  {
    CloseDbIterQueue(s, j, k);
    CloseDbIterCount(s, j, k);
    CloseDbIterHandles(s, j, k);
    DecDbInv(CloseDbIterMid(s, j, k), 0);
  }

  lemma CloseDbIterQueue(s: System, j: Job, k: IterKey)
    requires InvQueue(s) && j in s.pool && k in s.iters && k.DbIterator?
    ensures InvQueue(CloseDbIterMid(s, j, k))
  {
    var r := CloseDbIterMid(s, j, k);
    assert r.iters == s.iters[k := Closed(s.iters[k])] && r.txns == s.txns && r.db.closeWorker == s.db.closeWorker;
    assert r.pool == s.pool - {j} && r.queued == s.queued && r.nextSerial == s.nextSerial;
    FreshRemove(s.queued, s.pool, s.nextSerial, j);
    ItersParkedPut(s.iters, s.queued, s.nextSerial, k, Closed(s.iters[k]));
    UniqueRemove(s.pool, j);
  }

  lemma CloseDbIterCount(s: System, j: Job, k: IterKey)
    requires InvCount(s, 0, None) && IterJobs(s.iters, s.pool) && j in s.pool && j.work == CloseIterator(k) && k.DbIterator?
    ensures k in s.iters && InvCount(CloseDbIterMid(s, j, k), 1, None)
  {
    var r := CloseDbIterMid(s, j, k);
    var d := s.db;
    var p := s.pool;
    assert IterJobOk(s.iters[k], j.work);
    assert r.txns == s.txns && r.snaps == s.snaps && r.pool == p - {j};
    assert r.iters == s.iters[k := Closed(s.iters[k])] && r.db == d.(iterators := d.iterators - {k.id});
    CountsRemoveFree(d.pendingWork, d.iterators, d.transactions, d.snapshots, s.txns, p, j, 0, None);
    ChildrenDetachDbIter(d.iterators, d.transactions, d.snapshots, d.currentIteratorId, d.currentTransactionId,
                         d.currentSnapshotId, s.iters, s.txns, s.snaps, k, Closed(s.iters[k]));
    OwnersSetDbIter(s.iters, s.txns, k, Closed(s.iters[k]));
  }

  lemma CloseDbIterHandles(s: System, j: Job, k: IterKey)
    requires InvDb(s) && InvIters(s) && InvTxns(s) && InvSnaps(s) && Unique(s.pool)
    requires j in s.pool && j.work == CloseIterator(k) && k.DbIterator?
    ensures k in s.iters
    ensures var r := CloseDbIterMid(s, j, k); InvDb(r) && InvIters(r) && InvTxns(r) && InvSnaps(r)
  {
    var r := CloseDbIterMid(s, j, k);
    var p := s.pool;
    var y := Closed(s.iters[k]);
    assert r.snaps == s.snaps && r.txns == s.txns && r.pool == p - {j};
    assert r.iters == s.iters[k := y] && r.db == s.db.(iterators := s.db.iterators - {k.id});
    assert IterJobOk(s.iters[k], j.work) && IterShape(s.iters[k]);
    IterAlone(s.iters, p, j, k);
    AgreeRemove(p, j);
    DbDrop(s.db, r.db, p, j);
    ItersStep(s.iters, p, r.pool, k, y);
    SnapsDrop(s.snaps, p, j);
    TxnsDrop(s.txns, p, j);
  }

  /** An IteratorCloseWorker on a transaction's iterator, before the transaction's decrement. */
  function CloseTxnIterMid(s: System, j: Job, k: IterKey): System
    requires k in s.iters && k.TxnIterator? && k.transaction in s.txns
  {
    var x := s.txns[k.transaction];
    Dropped(s, j).(iters := s.iters[k := Closed(s.iters[k])],
                   txns := s.txns[k.transaction := x.(iterators := x.iterators - {k.id})])
  }

  lemma CloseTxnIterDoneInv(s: System, j: Job, k: IterKey)
    requires Inv(s) && j in s.pool && j.work == CloseIterator(k) && k.TxnIterator?
    ensures HasIter(s, k) && Inv(DecTxn(CloseTxnIterMid(s, j, k), k.transaction))
  {
    PoolRefers(s, j);
    CloseTxnIterQueue(s, j, k);
    CloseTxnIterCount(s, j, k);
    CloseTxnIterHandles(s, j, k);
    DecTxnInv(CloseTxnIterMid(s, j, k), k.transaction);
  }

  lemma CloseTxnIterQueue(s: System, j: Job, k: IterKey)
    requires InvQueue(s) && j in s.pool && HasIter(s, k) && k.TxnIterator?
    ensures InvQueue(CloseTxnIterMid(s, j, k))
  {
    var r := CloseTxnIterMid(s, j, k);
    var t := k.transaction;
    var x := s.txns[t].(iterators := s.txns[t].iterators - {k.id});
    assert r.iters == s.iters[k := Closed(s.iters[k])] && r.txns == s.txns[t := x] && r.db == s.db;
    assert r.pool == s.pool - {j} && r.queued == s.queued && r.nextSerial == s.nextSerial;
    FreshRemove(s.queued, s.pool, s.nextSerial, j);
    ItersParkedPut(s.iters, s.queued, s.nextSerial, k, Closed(s.iters[k]));
    TxnsParkedPut(s.txns, s.queued, s.nextSerial, t, x);
    UniqueRemove(s.pool, j);
  }

  lemma CloseTxnIterCount(s: System, j: Job, k: IterKey)
    requires InvCount(s, 0, None) && IterJobs(s.iters, s.pool) && j in s.pool && j.work == CloseIterator(k)
    requires HasIter(s, k) && k.TxnIterator?
    ensures InvCount(CloseTxnIterMid(s, j, k), 0, Some(k.transaction))
  {
    var r := CloseTxnIterMid(s, j, k);
    var d := s.db;
    var t := k.transaction;
    var x0 := s.txns[t];
    var x := x0.(iterators := x0.iterators - {k.id});
    assert IterJobOk(s.iters[k], j.work);
    assert OwnedBy(s.iters[k], k.id, t, s.txns);
    assert r.snaps == s.snaps && r.db == d && r.pool == s.pool - {j};
    assert r.iters == s.iters[k := Closed(s.iters[k])] && r.txns == s.txns[t := x];
    CloseTxnIterCounts(d.pendingWork, d.iterators, d.transactions, d.snapshots, s.txns, s.pool, j, t, k.id);
    ChildrenTxnIter(d.iterators, d.transactions, d.snapshots, d.currentIteratorId, d.currentTransactionId,
                    d.currentSnapshotId, s.iters, s.txns, s.snaps, t, x, k, Closed(s.iters[k]));
    OwnersDetachTxnIter(s.iters, s.txns, k, Closed(s.iters[k]));
  }

  /** A transaction's iterator leaves its registry: the transaction's count is one above. */
  lemma CloseTxnIterCounts(pw: nat, dI: set<nat>, dT: set<nat>, dS: set<nat>, txns: map<nat, Txn>, p: set<Job>, j: Job,
                           t: nat, id: nat)
    requires DbCount(pw, dI, dT, dS, p, 0) && TxnCounts(txns, p, None)
    requires j in p && j.work.CloseIterator? && t in txns && txns[t].attached && id in txns[t].iterators
    ensures var x := txns[t].(iterators := txns[t].iterators - {id});
      DbCount(pw, dI, dT, dS, p - {j}, 0) && TxnCounts(txns[t := x], p - {j}, Some(t))
  {
    var x0 := txns[t];
    var x := x0.(iterators := x0.iterators - {id});
    CountsRemoveFree(pw, dI, dT, dS, txns, p, j, 0, None);
    assert TxnCount(x0, |TxnHolders(p - {j}, t)|);
    assert x0.iterators == (x0.iterators - {id}) + {id};
    CountsOff(txns, p - {j}, t, x);
  }

  lemma CloseTxnIterHandles(s: System, j: Job, k: IterKey)
    requires InvDb(s) && InvIters(s) && InvTxns(s) && InvSnaps(s) && Unique(s.pool)
    requires j in s.pool && j.work == CloseIterator(k) && HasIter(s, k) && k.TxnIterator?
    ensures var r := CloseTxnIterMid(s, j, k); InvDb(r) && InvIters(r) && InvTxns(r) && InvSnaps(r)
  {
    var r := CloseTxnIterMid(s, j, k);
    var p := s.pool;
    var t := k.transaction;
    var x := s.txns[t].(iterators := s.txns[t].iterators - {k.id});
    var y := Closed(s.iters[k]);
    assert r.snaps == s.snaps && r.db == s.db && r.pool == p - {j};
    assert r.iters == s.iters[k := y] && r.txns == s.txns[t := x];
    assert IterJobOk(s.iters[k], j.work) && IterShape(s.iters[k]) && TxnShape(s.txns[t]);
    IterAlone(s.iters, p, j, k);
    AgreeRemove(p, j);
    DbDrop(s.db, s.db, p, j);
    ItersStep(s.iters, p, r.pool, k, y);
    SnapsDrop(s.snaps, p, j);
    TxnsDrop(s.txns, p, j);
    TxnsStep(s.txns, r.pool, r.pool, t, x);
  }

  /** The iterator record an IteratorNextWorker leaves: no next in flight, no close parked. */
  function Resumed(it: Iter): Iter {
    it.(nexting := false, first := false, closeWorker := None)
  }

  /** An IteratorNextWorker completes; a close parked behind it is queued. */
  lemma NextDoneInv(s: System, j: Job, k: IterKey, openOk: bool)
    requires Inv(s) && j in s.pool && j.work.NextIterator? && j.work.cursor == k && HasIter(s, k)
    ensures Inv(Complete(s, j, openOk))
  {
    var it := s.iters[k];
    assert IterJobOk(it, j.work) && IterShape(it);
    if it.closeWorker.Some? {
      NextUnparkQueue(s, j, k);
      NextUnparkCount(s, j, k);
      NextUnparkHandles(s, j, k);
    } else {
      assert Complete(s, j, openOk) == Dropped(s, j).(iters := s.iters[k := Resumed(it)]);
      NextKeepQueue(s, j, k);
      NextKeepCount(s, j, k);
      NextKeepHandles(s, j, k);
    }
  }

  function NextUnparked(s: System, j: Job, k: IterKey): System
    requires k in s.iters && s.iters[k].closeWorker.Some?
  {
    Queue(Dropped(s, j).(iters := s.iters[k := Resumed(s.iters[k])]), s.iters[k].closeWorker.value)
  }

  lemma NextUnparkQueue(s: System, j: Job, k: IterKey)
    requires InvQueue(s) && IterJobs(s.iters, s.pool) && j in s.pool && j.work.NextIterator? && j.work.cursor == k
    requires k in s.iters && s.iters[k].closeWorker.Some? && s.iters[k].nexting
    ensures InvQueue(NextUnparked(s, j, k))
  {
    var it := s.iters[k];
    var c := it.closeWorker.value;
    var r := NextUnparked(s, j, k);
    var p := s.pool;
    assert r.iters == s.iters[k := Resumed(it)] && r.txns == s.txns && r.db == s.db;
    assert r.pool == p - {j} + {c} && r.queued == s.queued + multiset{c} && r.nextSerial == s.nextSerial;
    assert c.work == CloseIterator(k);
    FreshRemove(s.queued, p, s.nextSerial, j);
    FreshUnpark(s.queued, p - {j}, s.nextSerial, c);
    UnparkIter(s.queued, s.nextSerial, s.db.closeWorker, s.iters, s.txns, k);
    NoCloseOn(s.iters, p, k);
    UniqueRemove(p, j);
    UniqueAdd(p - {j}, c);
  }

  /** A cursor's parked close is queued and its slot cleared: the other slots stay parked. */
  lemma UnparkIter(q: multiset<Job>, n: nat, o: Option<Job>, iters: map<IterKey, Iter>, txns: map<nat, Txn>, k: IterKey)
    requires ParkedJob(o, CloseDb, q, n) && ItersParked(iters, q, n) && TxnsParked(txns, q, n)
    requires k in iters && iters[k].closeWorker.Some?
    ensures var c := iters[k].closeWorker.value; var iters' := iters[k := Resumed(iters[k])];
      ParkedJob(o, CloseDb, q + multiset{c}, n) && ItersParked(iters', q + multiset{c}, n) && TxnsParked(txns, q + multiset{c}, n)
  {
    var c := iters[k].closeWorker.value;
    assert c.work == CloseIterator(k);
    ItersParkedPut(iters, q, n, k, Resumed(iters[k]));
    assert forall k' | k' in iters && k' != k && iters[k'].closeWorker.Some? :: iters[k'].closeWorker.value.work != c.work;
    assert forall t | t in txns && txns[t].closeWorker.Some? :: txns[t].closeWorker.value.work != c.work;
    ParkedUnpark(q, n, c, o, CloseDb, iters[k := Resumed(iters[k])], txns);
  }

  /** While a next is in flight on cursor `k`, no close of it is. */
  lemma NoCloseOn(iters: map<IterKey, Iter>, p: set<Job>, k: IterKey)
    requires IterJobs(iters, p) && k in iters && iters[k].nexting
    ensures forall j | j in p && j.work.CloseIterator? :: Kind(j.work) != CloseIterator(k)
  {
    forall j | j in p && j.work.CloseIterator? ensures j.work.cursor != k {
      assert IterJobOk(iters[j.work.cursor], j.work);
    }
  }

  lemma NextUnparkCount(s: System, j: Job, k: IterKey)
    requires InvCount(s, 0, None) && FreshOk(s.queued, s.pool, s.nextSerial) && j in s.pool && j.work.NextIterator?
    requires k in s.iters && s.iters[k].closeWorker.Some?
    requires ParkedJob(s.iters[k].closeWorker, CloseIterator(k), s.queued, s.nextSerial)
    ensures InvCount(NextUnparked(s, j, k), 0, None)
  {
    var it := s.iters[k];
    var c := it.closeWorker.value;
    var r := NextUnparked(s, j, k);
    var p := s.pool;
    var d := s.db;
    assert r.iters == s.iters[k := Resumed(it)] && r.txns == s.txns && r.db == d && r.snaps == s.snaps;
    assert r.pool == p - {j} + {c} && c !in p;
    CountsRemoveFree(d.pendingWork, d.iterators, d.transactions, d.snapshots, s.txns, p, j, 0, None);
    CountsAddFree(d.pendingWork, d.iterators, d.transactions, d.snapshots, s.txns, p - {j}, c, 0, None);
    IterRecordSame(d.iterators, d.transactions, d.snapshots, d.currentIteratorId, d.currentTransactionId,
                   d.currentSnapshotId, s.iters, s.txns, s.snaps, k, Resumed(it));
  }

  lemma NextUnparkHandles(s: System, j: Job, k: IterKey)
    requires InvDb(s) && InvIters(s) && InvTxns(s) && InvSnaps(s) && Unique(s.pool)
    requires j in s.pool && j.work.NextIterator? && j.work.cursor == k
    requires k in s.iters && s.iters[k].closeWorker.Some? && s.iters[k].closeWorker.value.work == CloseIterator(k)
    ensures var r := NextUnparked(s, j, k); InvDb(r) && InvIters(r) && InvTxns(r) && InvSnaps(r)
  {
    var it := s.iters[k];
    var c := it.closeWorker.value;
    var r := NextUnparked(s, j, k);
    var p := s.pool;
    assert r.iters == s.iters[k := Resumed(it)] && r.txns == s.txns && r.db == s.db && r.snaps == s.snaps;
    assert r.pool == p - {j} + {c};
    assert IterJobOk(it, j.work) && IterShape(it);
    IterAlone(s.iters, p, j, k);
    AgreeSwap(p, j, c);
    DbFrame(s.db, p, r.pool, OnIter(k));
    SnapsFrame(s.snaps, p, r.pool, OnIter(k));
    TxnsFrame(s.txns, p, r.pool, OnIter(k));
    ItersStep(s.iters, p, r.pool, k, Resumed(it));
  }

  lemma NextKeepQueue(s: System, j: Job, k: IterKey)
    requires InvQueue(s) && j in s.pool && k in s.iters
    ensures InvQueue(Dropped(s, j).(iters := s.iters[k := Resumed(s.iters[k])]))
  {
    var it := s.iters[k];
    var r := Dropped(s, j).(iters := s.iters[k := Resumed(it)]);
    assert r.txns == s.txns && r.db == s.db && r.pool == s.pool - {j} && r.queued == s.queued;
    FreshRemove(s.queued, s.pool, s.nextSerial, j);
    ItersParkedPut(s.iters, s.queued, s.nextSerial, k, Resumed(it));
    UniqueRemove(s.pool, j);
  }

  lemma NextKeepCount(s: System, j: Job, k: IterKey)
    requires InvCount(s, 0, None) && j in s.pool && j.work.NextIterator? && k in s.iters
    ensures InvCount(Dropped(s, j).(iters := s.iters[k := Resumed(s.iters[k])]), 0, None)
  {
    var it := s.iters[k];
    var r := Dropped(s, j).(iters := s.iters[k := Resumed(it)]);
    var p := s.pool;
    var d := s.db;
    assert r.txns == s.txns && r.db == d && r.snaps == s.snaps && r.pool == p - {j};
    CountsRemoveFree(d.pendingWork, d.iterators, d.transactions, d.snapshots, s.txns, p, j, 0, None);
    IterRecordSame(d.iterators, d.transactions, d.snapshots, d.currentIteratorId, d.currentTransactionId,
                   d.currentSnapshotId, s.iters, s.txns, s.snaps, k, Resumed(it));
  }

  lemma NextKeepHandles(s: System, j: Job, k: IterKey)
    requires InvDb(s) && InvIters(s) && InvTxns(s) && InvSnaps(s) && Unique(s.pool)
    requires j in s.pool && j.work.NextIterator? && j.work.cursor == k && k in s.iters && s.iters[k].closeWorker.None?
    ensures var r := Dropped(s, j).(iters := s.iters[k := Resumed(s.iters[k])]);
      InvDb(r) && InvIters(r) && InvTxns(r) && InvSnaps(r)
  {
    var it := s.iters[k];
    var r := Dropped(s, j).(iters := s.iters[k := Resumed(it)]);
    var p := s.pool;
    assert r.txns == s.txns && r.db == s.db && r.snaps == s.snaps && r.pool == p - {j};
    assert IterJobOk(it, j.work) && IterShape(it);
    IterAlone(s.iters, p, j, k);
    if it.isClosing && !it.hasClosed {
      AwaitsDrop(p, j, CloseIterator(k));
    }
    AgreeRemove(p, j);
    DbDrop(s.db, s.db, p, j);
    SnapsDrop(s.snaps, p, j);
    TxnsDrop(s.txns, p, j);
    ItersStep(s.iters, p, r.pool, k, Resumed(it));
  }

  /** The transaction record a commit or rollback worker leaves: ended and detached, its reference dropped. */
  function Ended(x: Txn, commit: bool): Txn {
    (if commit then CommitTxnRec(x) else RollbackTxnRec(x)).(attached := false, refs := 0)
  }

  /** A commit or rollback worker's state after Transaction::Detach's registry change and before its decrement. */
  function EndMid(s: System, j: Job, t: nat, commit: bool): System
    requires t in s.txns
  {
    Dropped(s, j).(txns := s.txns[t := Ended(s.txns[t], commit)],
                   db := s.db.(transactions := s.db.transactions - {t}))
  }

  /** A TransactionCommitWorker (`commit`) or TransactionRollbackWorker completes. */
  lemma EndDoneInv(s: System, j: Job, t: nat, commit: bool)
    requires Inv(s) && j in s.pool && j.work == (if commit then CommitTxn(t) else RollbackTxn(t))
    ensures t in s.txns && Inv(DecDb(EndMid(s, j, t, commit)))
  {
    assert TxnJobOk(s.txns[t], j.work) && TxnShape(s.txns[t]);
    assert TxnCount(s.txns[t], |TxnHolders(s.pool, t)|);
    EndMidQueue(s, j, t, commit);
    EndMidCount(s, j, t, commit);
    EndMidHandles(s, j, t, commit);
    DecDbInv(EndMid(s, j, t, commit), 0);
  }

  lemma EndMidQueue(s: System, j: Job, t: nat, commit: bool)
    requires InvQueue(s) && j in s.pool && t in s.txns && s.txns[t].closeWorker.None?
    ensures InvQueue(EndMid(s, j, t, commit))
  {
    var r := EndMid(s, j, t, commit);
    var y := Ended(s.txns[t], commit);
    assert r.iters == s.iters && r.txns == s.txns[t := y] && r.db.closeWorker == s.db.closeWorker;
    assert r.pool == s.pool - {j} && r.queued == s.queued && r.nextSerial == s.nextSerial;
    FreshRemove(s.queued, s.pool, s.nextSerial, j);
    TxnsParkedPut(s.txns, s.queued, s.nextSerial, t, y);
    UniqueRemove(s.pool, j);
  }

  lemma EndMidCount(s: System, j: Job, t: nat, commit: bool)
    requires InvCount(s, 0, None) && j in s.pool && j.work == (if commit then CommitTxn(t) else RollbackTxn(t))
    requires t in s.txns && s.txns[t].attached && s.txns[t].pendingWork <= 1
    ensures InvCount(EndMid(s, j, t, commit), 1, None)
  {
    var r := EndMid(s, j, t, commit);
    var x := s.txns[t];
    var y := Ended(x, commit);
    var d := s.db;
    var p := s.pool;
    assert r.iters == s.iters && r.txns == s.txns[t := y] && r.snaps == s.snaps && r.pool == p - {j};
    assert r.db == d.(transactions := d.transactions - {t});
    assert TxnCount(x, |TxnHolders(p, t)|);
    assert x.iterators == {} && |TxnHolders(p, t)| == 0;
    TxnHoldersRemove(p, j);
    CountsRemoveFree(d.pendingWork, d.iterators, d.transactions, d.snapshots, s.txns, p, j, 0, None);
    CountsPut(s.txns, p - {j}, p - {j}, t, y, None, None);
    ChildrenDetachTxn(d.iterators, d.transactions, d.snapshots, d.currentIteratorId, d.currentTransactionId,
                      d.currentSnapshotId, s.iters, s.txns, s.snaps, t, y);
    OwnersDetachTxn(s.iters, s.txns, t, y);
  }

  lemma EndMidHandles(s: System, j: Job, t: nat, commit: bool)
    requires InvDb(s) && InvIters(s) && InvTxns(s) && InvSnaps(s) && Unique(s.pool)
    requires j in s.pool && j.work == (if commit then CommitTxn(t) else RollbackTxn(t))
    requires t in s.txns && TxnHolders(s.pool, t) == {}
    ensures var r := EndMid(s, j, t, commit); InvDb(r) && InvIters(r) && InvTxns(r) && InvSnaps(r)
  {
    var r := EndMid(s, j, t, commit);
    var x := s.txns[t];
    var y := Ended(x, commit);
    var p := s.pool;
    assert r.iters == s.iters && r.txns == s.txns[t := y] && r.snaps == s.snaps && r.pool == p - {j};
    assert r.db == s.db.(transactions := s.db.transactions - {t});
    assert TxnJobOk(x, j.work) && TxnShape(x);
    TxnAlone(s.txns, p, j, t);
    AgreeRemove(p, j);
    DbDrop(s.db, r.db, p, j);
    SnapsDrop(s.snaps, p, j);
    ItersDrop(s.iters, p, j);
    TxnsStep(s.txns, p, r.pool, t, y);
  }

  /** Every worker's completion keeps the invariant, and finds the handle it refers to. */
  lemma CompleteInv(s: System, j: Job, openOk: bool)
    requires Inv(s) && Running(s) && j in s.pool
    ensures Refers(s, j.work) && Inv(Complete(s, j, openOk))
  {
    PoolRefers(s, j);
    match j.work
    case OpenDb => OpenDoneInv(s, j, openOk);
    case CloseDb => CloseDoneInv(s, j);
    case DbTask => DbTaskDoneInv(s, j);
    case ReleaseSnapshot(id) => ReleaseCompleteInv(s, j, id, openOk);
    case CloseIterator(k) => CloseCompleteInv(s, j, k, openOk);
    case NextIterator(k, _) => NextDoneInv(s, j, k, openOk);
    case CommitTxn(t) => EndCompleteInv(s, j, t, openOk);
    case RollbackTxn(t) => EndCompleteInv(s, j, t, openOk);
    case TxnTask(t) => TxnTaskDoneInv(s, j, t);
  }

  lemma ReleaseCompleteInv(s: System, j: Job, id: nat, openOk: bool)
    requires Inv(s) && j in s.pool && j.work == ReleaseSnapshot(id) && id in s.snaps
    ensures Inv(Complete(s, j, openOk))
  {
    ReleaseDoneInv(s, j, id);
    assert SnapJobs(s.snaps, s.pool);
    ReleaseEq(s, j, id, openOk);
  }

  lemma DetachSnapshotEq(s: System, id: nat)
    requires id in s.snaps && s.snaps[id].attached
    ensures DetachSnapshot(s, id)
         == DecDb(s.(snaps := s.snaps[id := s.snaps[id].(attached := false)], db := s.db.(snapshots := s.db.snapshots - {id})))
  {
  }

  /** The state a SnapshotReleaseWorker's completion hands to Snapshot::Detach. */
  function ReleaseStart(s: System, j: Job, id: nat): System
    requires id in s.snaps
  {
    Dropped(s, j).(snaps := s.snaps[id := ReleaseSnap(s.snaps[id])])
  }

  lemma ReleaseEq(s: System, j: Job, id: nat, openOk: bool)
    requires j in s.pool && j.work == ReleaseSnapshot(id) && id in s.snaps && s.snaps[id].attached
    ensures Complete(s, j, openOk) == DecDb(DetachSnapshot(ReleaseStart(s, j, id), id))
    ensures DetachSnapshot(ReleaseStart(s, j, id), id) == DecDb(ReleaseMid(s, j, id))
  {
    var s1 := ReleaseStart(s, j, id);
    var x := s1.snaps[id];
    var m := s1.(snaps := s1.snaps[id := x.(attached := false)], db := s1.db.(snapshots := s1.db.snapshots - {id}));
    DetachSnapshotEq(s1, id);
    assert m == ReleaseMid(s, j, id);
  }

  lemma CloseCompleteInv(s: System, j: Job, k: IterKey, openOk: bool)
    requires Inv(s) && j in s.pool && j.work == CloseIterator(k) && HasIter(s, k)
    ensures Inv(Complete(s, j, openOk))
  {
    assert IterJobOk(s.iters[k], j.work);
    if k.DbIterator? {
      CloseDbIterDoneInv(s, j, k);
      CloseDbIterEq(s, j, k, openOk);
    } else {
      CloseTxnIterDoneInv(s, j, k);
      CloseTxnIterEq(s, j, k, openOk);
    }
  }

  lemma DetachDbIterEq(s: System, k: IterKey)
    requires k in s.iters && k.DbIterator? && s.iters[k].attached
    ensures var s2 := s.(iters := s.iters[k := s.iters[k].(attached := false)]);
      DetachIterator(s, k) == DecDb(s2.(db := s2.db.(iterators := s2.db.iterators - {k.id})))
  {
  }

  lemma CloseDbIterEq(s: System, j: Job, k: IterKey, openOk: bool)
    requires j in s.pool && j.work == CloseIterator(k) && k in s.iters && k.DbIterator? && s.iters[k].attached
    ensures Complete(s, j, openOk) == DecDb(CloseDbIterMid(s, j, k))
  {
    var s0 := Dropped(s, j);
    var s1 := s0.(iters := s0.iters[k := CloseCursor(s0.iters[k])]);
    var s2 := s1.(iters := s1.iters[k := s1.iters[k].(attached := false)]);
    var m := s2.(db := s2.db.(iterators := s2.db.iterators - {k.id}));
    assert Complete(s, j, openOk) == DetachIterator(s1, k);
    DetachDbIterEq(s1, k);
    assert m == CloseDbIterMid(s, j, k);
  }

  lemma CloseTxnIterEq(s: System, j: Job, k: IterKey, openOk: bool)
    requires j in s.pool && j.work == CloseIterator(k) && HasIter(s, k) && k.TxnIterator? && s.iters[k].attached
    ensures Complete(s, j, openOk) == DecTxn(CloseTxnIterMid(s, j, k), k.transaction)
  {
    var t := k.transaction;
    var s0 := Dropped(s, j);
    var s1 := s0.(iters := s0.iters[k := CloseCursor(s0.iters[k])]);
    var s2 := s1.(iters := s1.iters[k := s1.iters[k].(attached := false)]);
    var m := s2.(txns := s2.txns[t := s2.txns[t].(iterators := s2.txns[t].iterators - {k.id})]);
    assert Complete(s, j, openOk) == DetachIterator(s1, k);
    assert DetachIterator(s1, k) == DecTxn(m, t);
    assert m == CloseTxnIterMid(s, j, k);
  }

  lemma EndCompleteInv(s: System, j: Job, t: nat, openOk: bool)
    requires Inv(s) && j in s.pool && (j.work == CommitTxn(t) || j.work == RollbackTxn(t)) && t in s.txns
    ensures Inv(Complete(s, j, openOk))
  {
    var commit := j.work.CommitTxn?;
    EndDoneInv(s, j, t, commit);
    assert TxnJobOk(s.txns[t], j.work);
    EndEq(s, j, t, openOk);
  }

  lemma EndEq(s: System, j: Job, t: nat, openOk: bool)
    requires j in s.pool && (j.work == CommitTxn(t) || j.work == RollbackTxn(t)) && t in s.txns && s.txns[t].attached
    ensures Complete(s, j, openOk) == DecDb(EndMid(s, j, t, j.work.CommitTxn?))
  {
    var commit := j.work.CommitTxn?;
    var s0 := Dropped(s, j);
    var x := s0.txns[t];
    var s1 := s0.(txns := s0.txns[t := if commit then CommitTxnRec(x) else RollbackTxnRec(x)]);
    var x1 := s1.txns[t];
    var m := s1.(txns := s1.txns[t := x1.(attached := false, refs := 0)], db := s1.db.(transactions := s1.db.transactions - {t}));
    assert Complete(s, j, openOk) == DetachTransaction(s1, t);
    assert DetachTransaction(s1, t) == DecDb(m);
    assert m == EndMid(s, j, t, commit);
  }
}
