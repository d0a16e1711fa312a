// The end of a database's life: the environment cleanup hook closes,
// rolls back and releases synchronously whatever was still open, and the
// garbage-collection finalizers that run afterwards, or on handles already
// detached while the environment runs, do nothing twice.

module LifecycleTeardown {
  import opened Common
  import opened Guards
  import opened Workers
  import opened Lifecycle
  import opened LifecycleInv

  /** Iterator `k` is one of those CloseCursors(_, owner, reg, i, n) closes. */
  predicate ClosesIn(owner: Option<nat>, reg: set<nat>, i: nat, n: nat, k: IterKey) {
    (if owner.Some? then k.TxnIterator? && k.transaction == owner.value else k.DbIterator?)
    && i <= k.id < n && k.id in reg
  }

  /** Iterator `k` belongs to a transaction that RollbackAll(s, reg, i, n) reaches, and is in its registry. */
  predicate RolledIn(s: System, reg: set<nat>, i: nat, n: nat, k: IterKey) {
    k.TxnIterator? && i <= k.transaction < n && k.transaction in reg && k.transaction in s.txns
    && k.id in s.txns[k.transaction].iterators && k.id < s.txns[k.transaction].currentIteratorId
  }

  /** `r` differs from `s` only in its iterators, transactions and snapshots, over the same ids. */
  predicate SameFrame(s: System, r: System) {
    r.db == s.db && r.pool == s.pool && r.queued == s.queued && r.nextSerial == s.nextSerial
    && r.cleanedUp == s.cleanedUp && r.collected == s.collected
    && r.iters.Keys == s.iters.Keys && r.txns.Keys == s.txns.Keys && r.snaps.Keys == s.snaps.Keys
  }

  lemma {:induction false} CloseCursorsEffect(s: System, owner: Option<nat>, reg: set<nat>, i: nat, n: nat)
    ensures SameFrame(s, CloseCursors(s, owner, reg, i, n))
    ensures CloseCursors(s, owner, reg, i, n).txns == s.txns && CloseCursors(s, owner, reg, i, n).snaps == s.snaps
    ensures forall k | k in s.iters ::
      CloseCursors(s, owner, reg, i, n).iters[k]
        == if ClosesIn(owner, reg, i, n, k) then CloseCursor(s.iters[k]) else s.iters[k]
    decreases n - i
  {
    if i < n {
      var k0 := KeyOf(owner, i);
      var s1 := if i in reg && k0 in s.iters then s.(iters := s.iters[k0 := CloseCursor(s.iters[k0])]) else s;
      CloseCursorsEffect(s1, owner, reg, i + 1, n);
      forall k | k in s.iters
        ensures CloseCursors(s, owner, reg, i, n).iters[k]
          == if ClosesIn(owner, reg, i, n, k) then CloseCursor(s.iters[k]) else s.iters[k]
      {
        if k == k0 {
          assert !ClosesIn(owner, reg, i + 1, n, k);
        } else {
          assert ClosesIn(owner, reg, i, n, k) == ClosesIn(owner, reg, i + 1, n, k);
        }
      }
    }
  }

  lemma {:induction false} RollbackAllEffect(s: System, reg: set<nat>, i: nat, n: nat)
    ensures SameFrame(s, RollbackAll(s, reg, i, n)) && RollbackAll(s, reg, i, n).snaps == s.snaps
    ensures forall t | t in s.txns ::
      RollbackAll(s, reg, i, n).txns[t] == if i <= t < n && t in reg then RollbackTxnRec(s.txns[t]) else s.txns[t]
    ensures forall k | k in s.iters ::
      RollbackAll(s, reg, i, n).iters[k] == if RolledIn(s, reg, i, n, k) then CloseCursor(s.iters[k]) else s.iters[k]
    decreases n - i
  {
    if i < n {
      if i in reg && i in s.txns {
        var c := CloseCursors(s, Some(i), s.txns[i].iterators, 0, s.txns[i].currentIteratorId);
        CloseCursorsEffect(s, Some(i), s.txns[i].iterators, 0, s.txns[i].currentIteratorId);
        var s1 := c.(txns := c.txns[i := RollbackTxnRec(c.txns[i])]);
        RollbackAllEffect(s1, reg, i + 1, n);
        RolledStep(s, s1, reg, i, n);
      } else {
        RollbackAllEffect(s, reg, i + 1, n);
        forall k | k in s.iters ensures RolledIn(s, reg, i, n, k) == RolledIn(s, reg, i + 1, n, k) {
        }
      }
    }
  }

  /** One transaction's step of RollbackAll, and the rest of the cascade after it. */
  lemma RolledStep(s: System, s1: System, reg: set<nat>, i: nat, n: nat)
    requires i < n && i in reg && i in s.txns
    requires SameFrame(s, CloseCursors(s, Some(i), s.txns[i].iterators, 0, s.txns[i].currentIteratorId))
    requires CloseCursors(s, Some(i), s.txns[i].iterators, 0, s.txns[i].currentIteratorId).txns == s.txns
    requires var c := CloseCursors(s, Some(i), s.txns[i].iterators, 0, s.txns[i].currentIteratorId);
      s1 == c.(txns := c.txns[i := RollbackTxnRec(c.txns[i])])
    requires CloseCursors(s, Some(i), s.txns[i].iterators, 0, s.txns[i].currentIteratorId).snaps == s.snaps
    requires forall k | k in s.iters ::
      s1.iters[k] == if ClosesIn(Some(i), s.txns[i].iterators, 0, s.txns[i].currentIteratorId, k)
                     then CloseCursor(s.iters[k]) else s.iters[k]
    requires SameFrame(s1, RollbackAll(s1, reg, i + 1, n)) && RollbackAll(s1, reg, i + 1, n).snaps == s1.snaps
    requires forall t | t in s1.txns ::
      RollbackAll(s1, reg, i + 1, n).txns[t] == if i + 1 <= t < n && t in reg then RollbackTxnRec(s1.txns[t]) else s1.txns[t]
    requires forall k | k in s1.iters ::
      RollbackAll(s1, reg, i + 1, n).iters[k] == if RolledIn(s1, reg, i + 1, n, k) then CloseCursor(s1.iters[k]) else s1.iters[k]
    ensures RollbackAll(s, reg, i, n) == RollbackAll(s1, reg, i + 1, n)
    ensures SameFrame(s, RollbackAll(s, reg, i, n)) && RollbackAll(s, reg, i, n).snaps == s.snaps
    ensures forall t | t in s.txns ::
      RollbackAll(s, reg, i, n).txns[t] == if i <= t < n && t in reg then RollbackTxnRec(s.txns[t]) else s.txns[t]
    ensures forall k | k in s.iters ::
      RollbackAll(s, reg, i, n).iters[k] == if RolledIn(s, reg, i, n, k) then CloseCursor(s.iters[k]) else s.iters[k]
  {
    var r := RollbackAll(s1, reg, i + 1, n);
    assert s1.txns.Keys == s.txns.Keys;
    forall k | k in s.iters
      ensures r.iters[k] == if RolledIn(s, reg, i, n, k) then CloseCursor(s.iters[k]) else s.iters[k]
    {
      if k.TxnIterator? && k.transaction == i {
        assert !RolledIn(s1, reg, i + 1, n, k);
        assert RolledIn(s, reg, i, n, k) == ClosesIn(Some(i), s.txns[i].iterators, 0, s.txns[i].currentIteratorId, k);
      } else {
        assert !ClosesIn(Some(i), s.txns[i].iterators, 0, s.txns[i].currentIteratorId, k);
        assert s1.iters[k] == s.iters[k];
        assert k.TxnIterator? && k.transaction in s.txns ==> s1.txns[k.transaction] == s.txns[k.transaction];
        assert RolledIn(s, reg, i, n, k) == RolledIn(s1, reg, i + 1, n, k);
      }
    }
  }

  lemma {:induction false} ReleaseAllEffect(s: System, reg: set<nat>, i: nat, n: nat)
    ensures SameFrame(s, ReleaseAll(s, reg, i, n))
    ensures ReleaseAll(s, reg, i, n).iters == s.iters && ReleaseAll(s, reg, i, n).txns == s.txns
    ensures forall id | id in s.snaps ::
      ReleaseAll(s, reg, i, n).snaps[id] == if i <= id < n && id in reg then ReleaseSnap(s.snaps[id]) else s.snaps[id]
    decreases n - i
  {
    if i < n {
      var s1 := if i in reg && i in s.snaps then s.(snaps := s.snaps[i := ReleaseSnap(s.snaps[i])]) else s;
      ReleaseAllEffect(s1, reg, i + 1, n);
    }
  }

  /**
   * After the hook every iterator is closed, every transaction committed or
   * rolled back and every snapshot released, each exactly once; the engine
   * is closed at most once, and once for sure if it was open.
   */
  predicate TornDown(h: System) {
    h.db.closes == (if h.db.hasClosed then 1 else 0) && ItersTorn(h) && TxnsTorn(h) && SnapsTorn(h)
  }

  predicate ItersTorn(h: System) {
    forall k | k in h.iters :: h.iters[k].hasClosed && h.iters[k].closes == 1
  }

  predicate TxnsTorn(h: System) {
    forall t | t in h.txns :: Terminal(h.txns[t].flags) && h.txns[t].ends == 1
  }

  predicate SnapsTorn(h: System) {
    forall id | id in h.snaps :: h.snaps[id].hasReleased && h.snaps[id].releases == 1
  }

  /** The handles are finished, or registered where the hook will find them. */
  predicate Accounted(s: System) {
    var d := s.db;
    (forall k | k in s.iters ::
       (!s.iters[k].attached ==> s.iters[k].hasClosed && s.iters[k].closes == 1)
       && (s.iters[k].attached ==>
             !s.iters[k].hasClosed && s.iters[k].closes == 0
             && (k.DbIterator? ==> ClosesIn(None, d.iterators, 0, d.currentIteratorId, k))
             && (k.TxnIterator? ==> RolledIn(s, d.transactions, 0, d.currentTransactionId, k))))
    && (forall t | t in s.txns ::
       (!s.txns[t].attached ==> Terminal(s.txns[t].flags) && s.txns[t].ends == 1)
       && (s.txns[t].attached ==>
             !Terminal(s.txns[t].flags) && s.txns[t].ends == 0 && t in d.transactions && t < d.currentTransactionId))
    && (forall t | t in d.transactions :: t in s.txns && s.txns[t].attached)
    && (forall id | id in s.snaps ::
       (!s.snaps[id].attached ==> s.snaps[id].hasReleased && s.snaps[id].releases == 1)
       && (s.snaps[id].attached ==>
             !s.snaps[id].hasReleased && s.snaps[id].releases == 0 && id in d.snapshots && id < d.currentSnapshotId))
  }

  lemma InvAccounted(s: System)
    requires Inv(s)
    ensures Accounted(s)
  {
    var d := s.db;
    forall k | k in s.iters && s.iters[k].attached
      ensures k.DbIterator? ==> ClosesIn(None, d.iterators, 0, d.currentIteratorId, k)
      ensures k.TxnIterator? ==> RolledIn(s, d.transactions, 0, d.currentTransactionId, k)
    {
      if k.TxnIterator? {
        var t := k.transaction;
        assert OwnedBy(s.iters[k], k.id, t, s.txns);
        assert TxnShape(s.txns[t]);
        assert t in d.transactions && t < d.currentTransactionId;
      }
    }
    forall k | k in s.iters ensures IterShape(s.iters[k]) {
    }
    forall t | t in s.txns ensures TxnShape(s.txns[t]) {
    }
    forall id | id in s.snaps ensures SnapShape(s.snaps[id]) {
    }
  }

  /** With the engine closed or never opened, nothing pending and so nothing attached. */
  lemma IdleFinished(s: System)
    requires Accounted(s) && s.db.iterators == {} && s.db.transactions == {} && s.db.snapshots == {}
    requires s.db.closes == (if s.db.hasClosed then 1 else 0)
    ensures TornDown(s)
  {
  }

  /** The hook's cascade over an open engine finishes every handle. */
  lemma CascadeFinished(s: System)
    requires Accounted(s) && !s.db.hasClosed && s.db.closes == 0
    ensures TornDown(EnvCleanupHookCascade(s))
  {
    CascadeIters(s);
    CascadeTxns(s);
    CascadeSnaps(s);
  }

  lemma CascadeIters(s: System)
    requires Accounted(s)
    ensures ItersTorn(EnvCleanupHookCascade(s))
  {
    var d := s.db;
    var a := CloseCursors(s, None, d.iterators, 0, d.currentIteratorId);
    CloseCursorsEffect(s, None, d.iterators, 0, d.currentIteratorId);
    var b := RollbackAll(a, d.transactions, 0, d.currentTransactionId);
    RollbackAllEffect(a, d.transactions, 0, d.currentTransactionId);
    ReleaseAllEffect(b, d.snapshots, 0, d.currentSnapshotId);
    assert a.txns == s.txns;
    forall k | k in s.iters ensures RolledIn(a, d.transactions, 0, d.currentTransactionId, k)
                                    == RolledIn(s, d.transactions, 0, d.currentTransactionId, k) {
    }
  }

  lemma CascadeTxns(s: System)
    requires Accounted(s)
    ensures TxnsTorn(EnvCleanupHookCascade(s))
  {
    var d := s.db;
    var a := CloseCursors(s, None, d.iterators, 0, d.currentIteratorId);
    CloseCursorsEffect(s, None, d.iterators, 0, d.currentIteratorId);
    var b := RollbackAll(a, d.transactions, 0, d.currentTransactionId);
    RollbackAllEffect(a, d.transactions, 0, d.currentTransactionId);
    ReleaseAllEffect(b, d.snapshots, 0, d.currentSnapshotId);
  }

  lemma CascadeSnaps(s: System)
    requires Accounted(s)
    ensures SnapsTorn(EnvCleanupHookCascade(s)) && EnvCleanupHookCascade(s).db == CloseDatabase(s.db)
  {
    var d := s.db;
    var a := CloseCursors(s, None, d.iterators, 0, d.currentIteratorId);
    CloseCursorsEffect(s, None, d.iterators, 0, d.currentIteratorId);
    var b := RollbackAll(a, d.transactions, 0, d.currentTransactionId);
    RollbackAllEffect(a, d.transactions, 0, d.currentTransactionId);
    ReleaseAllEffect(b, d.snapshots, 0, d.currentSnapshotId);
  }

  /** The part of env_cleanup_hook that runs on an open engine. */
  function EnvCleanupHookCascade(s: System): System {
    var d := s.db;
    var a := CloseCursors(s, None, d.iterators, 0, d.currentIteratorId);
    var b := RollbackAll(a, d.transactions, 0, d.currentTransactionId);
    var c := ReleaseAll(b, d.snapshots, 0, d.currentSnapshotId);
    c.(db := CloseDatabase(c.db))
  }

  /**
   * env_cleanup_hook, reached once the pool is empty, finishes every
   * handle: by then either the engine is closed or was never opened, and
   * nothing is attached, or the hook's own cascade closes it all.
   */
  lemma HookTearsDown(s: System)
    requires Inv(s) && Running(s) && s.pool == {}
    ensures TornDown(EnvCleanupHook(s)) && EnvCleanupHook(s).cleanedUp
    ensures s.db.open && !s.db.hasClosed ==> EnvCleanupHook(s).db.hasClosed
  {
    InvAccounted(s);
    var d := s.db;
    assert DbShape(d);
    if !d.hasClosed && d.open {
      CascadeFinished(s);
      assert EnvCleanupHook(s) == EnvCleanupHookCascade(s).(cleanedUp := true);
    } else {
      assert d.pendingWork == 0;
      assert DbCount(d.pendingWork, d.iterators, d.transactions, d.snapshots, s.pool, 0);
      IdleFinished(s);
      assert EnvCleanupHook(s) == s.(cleanedUp := true);
    }
  }

  /**
   * The finalizers after the hook find every handle finished and do
   * nothing to it; the database's finalizer closes the engine only if
   * neither a close nor the hook did.
   */
  lemma FinalizersAfterTeardown(h: System)
    requires TornDown(h) && h.cleanedUp && !h.collected
    ensures forall k | HasIter(h, k) :: GCIterator(h, k) == h
    ensures forall t | t in h.txns :: GCTransaction(h, t) == h
    ensures forall id | id in h.snaps :: GCSnapshot(h, id) == h
    ensures GCDatabase(h).db.closes <= 1 && GCDatabase(h).collected
  {
  }

  /**
   * While the environment runs the finalizer of a detached handle finds it
   * finished and does nothing; the database's, which runs once nothing is
   * pending and the pool is empty, leaves the engine closed exactly once.
   */
  lemma FinalizersWhileRunning(s: System)
    requires Inv(s) && Running(s)
    ensures forall k | HasIter(s, k) && !s.iters[k].attached :: GCIterator(s, k) == s
    ensures forall t | t in s.txns && !s.txns[t].attached :: GCTransaction(s, t) == s
    ensures forall id | id in s.snaps && !s.snaps[id].attached :: GCSnapshot(s, id) == s
    ensures s.db.pendingWork == 0 && s.pool == {} ==>
      GCDatabase(s).db.hasClosed && GCDatabase(s).db.closes == 1
  {
    InvAccounted(s);
    assert DbShape(s.db) && DbWaits(s.db, s.pool);
  }
}
