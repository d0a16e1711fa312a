// Lemmas the preservation proofs share: how each piece of the invariant
// survives a worker queued or completed, and a record replaced.

module LifecycleSteps {
  import opened Common
  import opened Guards
  import opened Workers
  import opened Lifecycle
  import opened LifecycleInv

  // ---------------------------------------------------------------------
  // Workers built and queued

  lemma FreshQueue(queued: multiset<Job>, pool: set<Job>, n: nat, j: Job)
    requires FreshOk(queued, pool, n) && j.serial == n
    ensures FreshOk(queued + multiset{j}, pool + {j}, n + 1) && j !in pool
  {
  }

  /** A parked worker is queued as its slot is cleared. */
  lemma FreshUnpark(queued: multiset<Job>, pool: set<Job>, n: nat, j: Job)
    requires FreshOk(queued, pool, n) && j.serial < n && j !in queued
    ensures FreshOk(queued + multiset{j}, pool + {j}, n) && j !in pool
  {
  }

  lemma FreshRemove(queued: multiset<Job>, pool: set<Job>, n: nat, j: Job)
    requires FreshOk(queued, pool, n)
    ensures FreshOk(queued, pool - {j}, n)
  {
  }

  lemma ParkedQueue(q: multiset<Job>, n: nat, j: Job, o: Option<Job>, w: Work, iters: map<IterKey, Iter>, txns: map<nat, Txn>)
    requires j.serial >= n
    requires ParkedJob(o, w, q, n) && ItersParked(iters, q, n) && TxnsParked(txns, q, n)
    ensures ParkedJob(o, w, q + multiset{j}, n + 1) && ItersParked(iters, q + multiset{j}, n + 1)
    ensures TxnsParked(txns, q + multiset{j}, n + 1)
  {
  }

  lemma ParkedMint(q: multiset<Job>, n: nat, o: Option<Job>, w: Work, iters: map<IterKey, Iter>, txns: map<nat, Txn>)
    requires ParkedJob(o, w, q, n) && ItersParked(iters, q, n) && TxnsParked(txns, q, n)
    ensures ParkedJob(o, w, q, n + 1) && ItersParked(iters, q, n + 1) && TxnsParked(txns, q, n + 1)
  {
  }

  /** Queueing a parked worker leaves every other slot's parked worker unqueued. */
  lemma ParkedUnpark(q: multiset<Job>, n: nat, j: Job, o: Option<Job>, w: Work, iters: map<IterKey, Iter>, txns: map<nat, Txn>)
    requires ParkedJob(o, w, q, n) && ItersParked(iters, q, n) && TxnsParked(txns, q, n)
    requires o.Some? ==> o.value != j
    requires forall k | k in iters && iters[k].closeWorker.Some? :: iters[k].closeWorker.value != j
    requires forall t | t in txns && txns[t].closeWorker.Some? :: txns[t].closeWorker.value != j
    ensures ParkedJob(o, w, q + multiset{j}, n) && ItersParked(iters, q + multiset{j}, n)
    ensures TxnsParked(txns, q + multiset{j}, n)
  {
  }

  /** A worker that is not exclusive, or whose kind is not in flight, keeps the pool's workers apart. */
  lemma UniqueAdd(pool: set<Job>, j: Job)
    requires Unique(pool)
    requires Exclusive(j.work) ==> forall j' | j' in pool :: Kind(j'.work) != Kind(j.work)
    ensures Unique(pool + {j})
  {
  }

  lemma UniqueRemove(pool: set<Job>, j: Job)
    requires Unique(pool)
    ensures Unique(pool - {j})
  {
  }

  // ---------------------------------------------------------------------
  // The pool changes on one handle

  lemma AgreeAdd(p: set<Job>, j: Job)
    ensures AgreeOff(p, p + {j}, Target(j.work))
  {
  }

  lemma AgreeRemove(p: set<Job>, j: Job)
    ensures AgreeOff(p, p - {j}, Target(j.work))
  {
  }

  lemma AwaitsKept(p: set<Job>, p': set<Job>, h: Handle, w: Work)
    requires AgreeOff(p, p', h) && Target(w) != h && Awaits(p, w)
    ensures Awaits(p', w)
  {
    var j :| j in p && j.work == w;
    assert j in p';
  }

  lemma HoldersKept(p: set<Job>, p': set<Job>, h: Handle, t: nat)
    requires AgreeOff(p, p', h) && h != OnTxn(t)
    ensures TxnHolders(p', t) == TxnHolders(p, t)
  {
  }

  /** The database's workers, when the pool changes on another handle. */
  lemma DbFrame(d: Db, p: set<Job>, p': set<Job>, h: Handle)
    requires DbJobs(d, p) && DbWaits(d, p) && AgreeOff(p, p', h) && h != OnDb
    ensures DbJobs(d, p') && DbWaits(d, p')
  {
    if d.isClosing && !d.hasClosed && d.closeWorker.None? {
      AwaitsKept(p, p', h, CloseDb);
    }
  }

  lemma SnapsFrame(snaps: map<nat, Snap>, p: set<Job>, p': set<Job>, h: Handle)
    requires SnapJobs(snaps, p) && SnapsWait(snaps, p) && AgreeOff(p, p', h) && !h.OnSnap?
    ensures SnapJobs(snaps, p') && SnapsWait(snaps, p')
  {
    forall id | id in snaps && snaps[id].isReleasing && !snaps[id].hasReleased ensures Awaits(p', ReleaseSnapshot(id)) {
      AwaitsKept(p, p', h, ReleaseSnapshot(id));
    }
  }

  lemma ItersFrame(iters: map<IterKey, Iter>, p: set<Job>, p': set<Job>, h: Handle)
    requires IterJobs(iters, p) && ItersWait(iters, p) && AgreeOff(p, p', h) && !h.OnIter?
    ensures IterJobs(iters, p') && ItersWait(iters, p')
  {
    forall k | k in iters && iters[k].isClosing && !iters[k].hasClosed && iters[k].closeWorker.None?
      ensures Awaits(p', CloseIterator(k))
    {
      AwaitsKept(p, p', h, CloseIterator(k));
    }
  }

  lemma TxnsFrame(txns: map<nat, Txn>, p: set<Job>, p': set<Job>, h: Handle)
    requires TxnJobs(txns, p) && TxnsWait(txns, p) && AgreeOff(p, p', h) && !h.OnTxn?
    ensures TxnJobs(txns, p') && TxnsWait(txns, p')
  {
    forall t | t in txns && !Untouched(txns[t].flags) && !Terminal(txns[t].flags) && txns[t].closeWorker.None?
      ensures Awaits(p', EndWork(txns[t].flags, t))
    {
      AwaitsKept(p, p', h, EndWork(txns[t].flags, t));
    }
  }

  lemma CountsFrame(txns: map<nat, Txn>, p: set<Job>, p': set<Job>, h: Handle, off: Option<nat>)
    requires TxnCounts(txns, p, off) && AgreeOff(p, p', h) && !h.OnTxn?
    ensures TxnCounts(txns, p', off)
  {
    forall t | t in txns ensures TxnHolders(p', t) == TxnHolders(p, t) {
      HoldersKept(p, p', h, t);
    }
  }

  // ---------------------------------------------------------------------
  // One record replaced, with the pool changing on its handle

  lemma SnapsStep(snaps: map<nat, Snap>, p: set<Job>, p': set<Job>, id: nat, x: Snap)
    requires SnapJobs(snaps, p) && SnapShapes(snaps) && SnapsWait(snaps, p) && AgreeOff(p, p', OnSnap(id))
    requires SnapShape(x)
    requires x.isReleasing && !x.hasReleased ==> Awaits(p', ReleaseSnapshot(id))
    requires forall j | j in p' && j.work == ReleaseSnapshot(id) :: x.isReleasing && x.attached
    ensures SnapJobs(snaps[id := x], p') && SnapShapes(snaps[id := x]) && SnapsWait(snaps[id := x], p')
  {
    forall i | i in snaps && i != id && snaps[i].isReleasing && !snaps[i].hasReleased
      ensures Awaits(p', ReleaseSnapshot(i))
    {
      AwaitsKept(p, p', OnSnap(id), ReleaseSnapshot(i));
    }
  }

  lemma ItersStep(iters: map<IterKey, Iter>, p: set<Job>, p': set<Job>, k: IterKey, it: Iter)
    requires IterJobs(iters, p) && IterShapes(iters) && ItersWait(iters, p) && AgreeOff(p, p', OnIter(k))
    requires IterShape(it)
    requires it.isClosing && !it.hasClosed && it.closeWorker.None? ==> Awaits(p', CloseIterator(k))
    requires forall j | j in p' && (j.work.CloseIterator? || j.work.NextIterator?) && j.work.cursor == k :: IterJobOk(it, j.work)
    ensures IterJobs(iters[k := it], p') && IterShapes(iters[k := it]) && ItersWait(iters[k := it], p')
  {
    forall k' | k' in iters && k' != k && iters[k'].isClosing && !iters[k'].hasClosed && iters[k'].closeWorker.None?
      ensures Awaits(p', CloseIterator(k'))
    {
      AwaitsKept(p, p', OnIter(k), CloseIterator(k'));
    }
  }

  lemma TxnsStep(txns: map<nat, Txn>, p: set<Job>, p': set<Job>, t: nat, x: Txn)
    requires TxnJobs(txns, p) && TxnShapes(txns) && TxnsWait(txns, p) && AgreeOff(p, p', OnTxn(t))
    requires TxnShape(x)
    requires !Untouched(x.flags) && !Terminal(x.flags) && x.closeWorker.None? ==> Awaits(p', EndWork(x.flags, t))
    requires forall j | j in p' && (j.work.CommitTxn? || j.work.RollbackTxn? || j.work.TxnTask?) && j.work.transaction == t ::
      TxnJobOk(x, j.work)
    ensures TxnJobs(txns[t := x], p') && TxnShapes(txns[t := x]) && TxnsWait(txns[t := x], p')
  {
    forall t' | t' in txns && t' != t && !Untouched(txns[t'].flags) && !Terminal(txns[t'].flags) && txns[t'].closeWorker.None?
      ensures Awaits(p', EndWork(txns[t'].flags, t'))
    {
      AwaitsKept(p, p', OnTxn(t), EndWork(txns[t'].flags, t'));
    }
  }

  /** One transaction's record and holders change; `off` may be settled on it. */
  lemma CountsPut(txns: map<nat, Txn>, p: set<Job>, p': set<Job>, t: nat, x: Txn, off: Option<nat>, off': Option<nat>)
    requires TxnCounts(txns, p, off) && AgreeOff(p, p', OnTxn(t))
    requires off' == off || (off' == None && off == Some(t))
    requires TxnCount(x, |TxnHolders(p', t)| + (if off' == Some(t) then 1 else 0))
    ensures TxnCounts(txns[t := x], p', off')
  {
    forall t' | t' in txns && t' != t ensures TxnHolders(p', t') == TxnHolders(p, t') {
      HoldersKept(p, p', OnTxn(t), t');
    }
  }

  lemma ItersParkedPut(iters: map<IterKey, Iter>, q: multiset<Job>, n: nat, k: IterKey, it: Iter)
    requires ItersParked(iters, q, n) && ParkedJob(it.closeWorker, CloseIterator(k), q, n)
    ensures ItersParked(iters[k := it], q, n)
  {
  }

  lemma TxnsParkedPut(txns: map<nat, Txn>, q: multiset<Job>, n: nat, t: nat, x: Txn)
    requires TxnsParked(txns, q, n) && ParkedJob(x.closeWorker, EndWork(x.flags, t), q, n)
    ensures TxnsParked(txns[t := x], q, n)
  {
  }

  // ---------------------------------------------------------------------
  // The database's own workers

  /** A busy database is open, not closed, and its close, if requested, is parked. */
  lemma Busy(d: Db, p: set<Job>)
    requires DbShape(d) && DbWaits(d, p) && DbJobs(d, p) && d.pendingWork > 0
    ensures !Sealed(d) || (d.isClosing && d.closeWorker.Some?)
    ensures d.open && !d.hasClosed && d.attached
  {
    forall j | j in p ensures j.work != CloseDb {
    }
  }

  /** Neither an open nor a close is in flight on a database taking new work. */
  lemma DbJobsKept(d: Db, d': Db, p: set<Job>, p': set<Job>)
    requires DbJobs(d, p) && !Sealed(d)
    requires forall j | j in p' && (j.work.OpenDb? || j.work.CloseDb?) :: j in p
    requires d'.open == d.open && d'.isClosing == d.isClosing && d'.hasClosed == d.hasClosed && d'.closeWorker == d.closeWorker
    ensures DbJobs(d', p')
  {
  }

  // ---------------------------------------------------------------------
  // Registries

  lemma ChildrenAddIter(dI: set<nat>, dT: set<nat>, dS: set<nat>, ci: nat, ct: nat, cs: nat,
                        iters: map<IterKey, Iter>, txns: map<nat, Txn>, snaps: map<nat, Snap>, it: Iter)
    requires DbChildren(dI, dT, dS, ci, ct, cs, iters, txns, snaps) && it.attached
    ensures DbChildren(dI + {ci}, dT, dS, ci + 1, ct, cs, iters[DbIterator(ci) := it], txns, snaps)
    ensures ci !in dI && DbIterator(ci) !in iters
  {
  }

  lemma ChildrenAddTxn(dI: set<nat>, dT: set<nat>, dS: set<nat>, ci: nat, ct: nat, cs: nat,
                       iters: map<IterKey, Iter>, txns: map<nat, Txn>, snaps: map<nat, Snap>, x: Txn)
    requires DbChildren(dI, dT, dS, ci, ct, cs, iters, txns, snaps) && x.attached
    ensures DbChildren(dI, dT + {ct}, dS, ci, ct + 1, cs, iters, txns[ct := x], snaps)
    ensures ct !in dT && ct !in txns
  {
  }

  lemma ChildrenAddSnap(dI: set<nat>, dT: set<nat>, dS: set<nat>, ci: nat, ct: nat, cs: nat,
                        iters: map<IterKey, Iter>, txns: map<nat, Txn>, snaps: map<nat, Snap>, x: Snap)
    requires DbChildren(dI, dT, dS, ci, ct, cs, iters, txns, snaps) && x.attached
    ensures DbChildren(dI, dT, dS + {cs}, ci, ct, cs + 1, iters, txns, snaps[cs := x])
    ensures cs !in dS && cs !in snaps
  {
  }

  /** A transaction's record changes, staying attached, and it may gain an iterator. */
  lemma ChildrenTxnIter(dI: set<nat>, dT: set<nat>, dS: set<nat>, ci: nat, ct: nat, cs: nat,
                        iters: map<IterKey, Iter>, txns: map<nat, Txn>, snaps: map<nat, Snap>,
                        t: nat, x: Txn, k: IterKey, it: Iter)
    requires DbChildren(dI, dT, dS, ci, ct, cs, iters, txns, snaps) && t in txns && txns[t].attached && x.attached
    requires k.TxnIterator?
    ensures DbChildren(dI, dT, dS, ci, ct, cs, iters[k := it], txns[t := x], snaps)
  {
  }

  lemma OwnersAddDbIter(iters: map<IterKey, Iter>, txns: map<nat, Txn>, k: IterKey, it: Iter)
    requires TxnChildren(iters, txns) && k.DbIterator? && k !in iters
    ensures TxnChildren(iters[k := it], txns)
  {
  }

  lemma OwnersAddTxn(iters: map<IterKey, Iter>, txns: map<nat, Txn>, t: nat, x: Txn)
    requires TxnChildren(iters, txns) && t !in txns && x.iterators == {}
    ensures TxnChildren(iters, txns[t := x])
  {
  }

  /** No worker is in flight on a transaction that does not exist. */
  lemma NoHolders(txns: map<nat, Txn>, pool: set<Job>, t: nat)
    requires TxnJobs(txns, pool) && t !in txns
    ensures TxnHolders(pool, t) == {}
  {
  }

  /** An iterator's record changes, staying attached or detached as it was. */
  lemma IterRecordSame(dI: set<nat>, dT: set<nat>, dS: set<nat>, ci: nat, ct: nat, cs: nat,
                       iters: map<IterKey, Iter>, txns: map<nat, Txn>, snaps: map<nat, Snap>, k: IterKey, it: Iter)
    requires DbChildren(dI, dT, dS, ci, ct, cs, iters, txns, snaps) && TxnChildren(iters, txns)
    requires k in iters && it.attached == iters[k].attached
    ensures DbChildren(dI, dT, dS, ci, ct, cs, iters[k := it], txns, snaps) && TxnChildren(iters[k := it], txns)
  {
  }

  /** A transaction's record changes, keeping its registry, its attachment and whether it is finished. */
  lemma TxnRecordSame(dI: set<nat>, dT: set<nat>, dS: set<nat>, ci: nat, ct: nat, cs: nat,
                      iters: map<IterKey, Iter>, txns: map<nat, Txn>, snaps: map<nat, Snap>, t: nat, x: Txn)
    requires DbChildren(dI, dT, dS, ci, ct, cs, iters, txns, snaps) && TxnChildren(iters, txns)
    requires t in txns && x.attached == txns[t].attached && x.iterators == txns[t].iterators
    requires x.currentIteratorId == txns[t].currentIteratorId && Terminal(x.flags) == Terminal(txns[t].flags)
    ensures DbChildren(dI, dT, dS, ci, ct, cs, iters, txns[t := x], snaps) && TxnChildren(iters, txns[t := x])
  {
  }

  /** A transaction's next iterator, registered as it is made. */
  lemma OwnersAddTxnIter(iters: map<IterKey, Iter>, txns: map<nat, Txn>, t: nat, x: Txn, it: Iter)
    requires TxnChildren(iters, txns) && t in txns && !Terminal(x.flags)
    requires x.currentIteratorId == txns[t].currentIteratorId + 1
    requires x.iterators == txns[t].iterators + {txns[t].currentIteratorId} && it.attached
    ensures TxnChildren(iters[TxnIterator(t, txns[t].currentIteratorId) := it], txns[t := x])
    ensures txns[t].currentIteratorId !in txns[t].iterators && TxnIterator(t, txns[t].currentIteratorId) !in iters
  {
    var k := TxnIterator(t, txns[t].currentIteratorId);
    assert k in iters ==> OwnedBy(iters[k], k.id, t, txns);
    var iters' := iters[k := it];
    var txns' := txns[t := x];
    forall k' | k' in iters' && k'.TxnIterator? ensures OwnedBy(iters'[k'], k'.id, k'.transaction, txns') {
      if k' != k {
        assert OwnedBy(iters[k'], k'.id, k'.transaction, txns);
      }
    }
  }

  /** A database busy with a child or a holder has taken no close or open in flight. */
  lemma BusyJobs(d: Db, d': Db, p: set<Job>, p': set<Job>)
    requires DbJobs(d, p) && DbShape(d) && d.pendingWork > 0
    requires forall j | j in p' && (j.work.OpenDb? || j.work.CloseDb?) :: j in p
    ensures DbJobs(d', p')
  {
  }

  /** An attached snapshot keeps the database's count above 0. */
  lemma SnapKeepsBusy(d: Db, iters: map<IterKey, Iter>, txns: map<nat, Txn>, snaps: map<nat, Snap>,
                      pool: set<Job>, extra: nat, id: nat)
    requires DbChildren(d.iterators, d.transactions, d.snapshots, d.currentIteratorId, d.currentTransactionId,
                        d.currentSnapshotId, iters, txns, snaps)
    requires DbCount(d.pendingWork, d.iterators, d.transactions, d.snapshots, pool, extra)
    requires id in snaps && snaps[id].attached
    ensures d.pendingWork > 0
  {
    assert id in d.snapshots;
  }

  /** A transaction's next iterator id is not in use. */
  lemma FreshTxnIter(iters: map<IterKey, Iter>, txns: map<nat, Txn>, t: nat)
    requires TxnChildren(iters, txns) && t in txns
    ensures TxnIterator(t, txns[t].currentIteratorId) !in iters
    ensures txns[t].currentIteratorId !in txns[t].iterators
  {
    var k := TxnIterator(t, txns[t].currentIteratorId);
    assert k in iters ==> OwnedBy(iters[k], k.id, t, txns);
  }

  /** A snapshot's record changes, staying attached or detached as it was. */
  lemma SnapRecordSame(dI: set<nat>, dT: set<nat>, dS: set<nat>, ci: nat, ct: nat, cs: nat,
                       iters: map<IterKey, Iter>, txns: map<nat, Txn>, snaps: map<nat, Snap>, id: nat, x: Snap)
    requires DbChildren(dI, dT, dS, ci, ct, cs, iters, txns, snaps)
    requires id in snaps && x.attached == snaps[id].attached
    ensures DbChildren(dI, dT, dS, ci, ct, cs, iters, txns, snaps[id := x])
  {
  }

  /** A worker that holds no count joins the pool. */
  lemma CountsAddFree(pw: nat, dI: set<nat>, dT: set<nat>, dS: set<nat>, txns: map<nat, Txn>, p: set<Job>, j: Job,
                      extra: nat, off: Option<nat>)
    requires DbCount(pw, dI, dT, dS, p, extra) && TxnCounts(txns, p, off)
    requires j !in p && !IsDbHolder(j.work) && !j.work.TxnTask?
    ensures DbCount(pw, dI, dT, dS, p + {j}, extra) && TxnCounts(txns, p + {j}, off)
  {
    DbHoldersAdd(p, j);
    TxnHoldersAdd(p, j);
  }

  /** One of the database's PriorityWorkers joins the pool, the count having grown with it. */
  lemma CountsAddDbHolder(pw: nat, dI: set<nat>, dT: set<nat>, dS: set<nat>, txns: map<nat, Txn>, p: set<Job>, j: Job,
                          extra: nat, off: Option<nat>)
    requires DbCount(pw, dI, dT, dS, p, extra) && TxnCounts(txns, p, off)
    requires j !in p && IsDbHolder(j.work)
    ensures DbCount(pw + 1, dI, dT, dS, p + {j}, extra) && TxnCounts(txns, p + {j}, off)
  {
    DbHoldersAdd(p, j);
    TxnHoldersAdd(p, j);
  }

  /** One of transaction `t`'s PriorityWorkers joins the pool, its record becoming `x`. */
  lemma CountsAddTxnHolder(pw: nat, dI: set<nat>, dT: set<nat>, dS: set<nat>, txns: map<nat, Txn>, p: set<Job>, j: Job,
                           t: nat, x: Txn, extra: nat)
    requires DbCount(pw, dI, dT, dS, p, extra) && TxnCounts(txns, p, None)
    requires j !in p && j.work == TxnTask(t) && t in txns && TxnCount(x, |TxnHolders(p, t)| + 1)
    ensures DbCount(pw, dI, dT, dS, p + {j}, extra) && TxnCounts(txns[t := x], p + {j}, None)
  {
    DbHoldersAdd(p, j);
    TxnHoldersAdd(p, j);
  }

  /** A transaction's record changes, keeping what its count speaks of. */
  lemma CountsRecord(txns: map<nat, Txn>, p: set<Job>, t: nat, x: Txn, off: Option<nat>)
    requires TxnCounts(txns, p, off) && t in txns
    requires x.attached == txns[t].attached && x.refs == txns[t].refs && x.pendingWork == txns[t].pendingWork
    requires x.iterators == txns[t].iterators
    ensures TxnCounts(txns[t := x], p, off)
  {
  }
}
