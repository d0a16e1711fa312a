// The clear and count workers: they drain a key range through a freshly
// made BaseIterator in passes bounded by a 16 KiB high-water mark.
//  - native/napi/workers/iterator_workers.cpp: IteratorClearWorker and
//    IteratorCountWorker, always forward.
//  - rocksdb/napi/workers/iterator_workers.cpp and
//    rocksdb/napi/workers/database_workers.cpp: ClearWorker, which honours
//    `reverse`.
// The engine's status answers are inputs: `iterOk` for the iterator's
// status, `refused` for the keys whose delete fails, `failingWrites` for the
// indices of the batch writes that fail.

module RangeWorkers {
  import opened Common
  import opened Keys
  import opened Cursors

  /** The pass bound, 16 * 1024 bytes. */
  const HighWaterMark: nat := 16 * 1024

  /** The number of entries a limit admits out of n. */
  function Capped(limit: int, n: nat): nat {
    if limit < 0 || n <= limit then n else limit
  }

  function Flatten(ps: seq<seq<Bytes>>): seq<Bytes> {
    if |ps| == 0 then [] else Flatten(ps[..|ps| - 1]) + ps[|ps| - 1]
  }

  lemma FlattenSnoc(ps: seq<seq<Bytes>>, p: seq<Bytes>)
    ensures Flatten(ps + [p]) == Flatten(ps) + p
  {
    assert (ps + [p])[..|ps|] == ps;
  }

  lemma KeyBytesSnoc(ks: seq<Bytes>, k: Bytes)
    ensures KeyBytes(ks + [k]) == KeyBytes(ks) + |k|
  {
    assert (ks + [k])[..|ks|] == ks;
  }

  lemma {:induction false} KeyBytesZero(ks: seq<Bytes>)
    requires KeyBytes(ks) == 0
    ensures forall i :: 0 <= i < |ks| ==> ks[i] == []
  {
    if |ks| > 0 {
      KeyBytesZero(ks[..|ks| - 1]);
      assert forall i :: 0 <= i < |ks| - 1 ==> ks[..|ks| - 1][i] == ks[i];
    }
  }

  lemma {:induction false} KeyBytesAppend(a: seq<Bytes>, b: seq<Bytes>)
    ensures KeyBytes(a + b) == KeyBytes(a) + KeyBytes(b)
    decreases |b|
  {
    if |b| > 0 {
      var c := b[..|b| - 1];
      KeyBytesAppend(a, c);
      assert (a + b)[..|a + b| - 1] == a + c;
    } else {
      assert a + b == a;
    }
  }

  /** The keys a limited iteration over the range visits, in order. */
  function Visible(keys: seq<Bytes>, range: Range, reverse: bool, limit: int): seq<Bytes> {
    var vis := Visiting(keys, range, reverse);
    vis[..Capped(limit, |vis|)]
  }

  /** The position of the t-th key visited from `first`. */
  function Cur(it: BaseIterator, first: int, t: int): int {
    if it.reverse then first - t else first + t
  }

  /**
   * `order` holds the keys of the range in visiting order, the first at
   * position `first`, and the position after the last one holds no key of
   * the range; `visible` is the part of `order` the limit admits.
   */
  ghost predicate Walks(it: BaseIterator, visible: seq<Bytes>, order: seq<Bytes>, first: int) {
    |visible| == Capped(it.limit, |order|) && visible == order[..|visible|]
    && (forall t {:trigger Cur(it, first, t)} :: 0 <= t < |order| ==>
          0 <= Cur(it, first, t) < |it.keys| && it.keys[Cur(it, first, t)] == order[t]
          && !OutOfRange(it.range, order[t]))
    && (0 <= Cur(it, first, |order|) < |it.keys| ==> OutOfRange(it.range, it.keys[Cur(it, first, |order|)]))
  }

  /** A freshly made iterator walks its range as Visiting and Visible say. */
  lemma WalkOf(it: BaseIterator)
    requires StrictlySorted(it.keys)
    ensures Walks(it, Visible(it.keys, it.range, it.reverse, it.limit),
                  Visiting(it.keys, it.range, it.reverse), VisitPos(it.keys, it.range, it.reverse, 0))
  {
    VisitOrder(it.keys, it.range, it.reverse);
    var first := VisitPos(it.keys, it.range, it.reverse, 0);
    forall t ensures Cur(it, first, t) == VisitPos(it.keys, it.range, it.reverse, t) {
    }
  }

  /**
   * The iterator has visited the first `t` keys of its walk: it sits on the
   * next one, and its limit counter agrees.
   */
  ghost predicate At(it: BaseIterator, visible: seq<Bytes>, first: int, t: nat)
    reads it
  {
    it.Inv() && !it.hasClosed && t <= |visible|
    && it.pos == (if it.reverse then first - t else first + t)
    && (it.limit >= 0 ==> it.count == t || (it.count > t && t == it.limit))
  }

  /** A pass stops as soon as it has read more than the mark: all but its last key fit. */
  predicate StopsAtMark(pass: seq<Bytes>) {
    |pass| > 0 ==> KeyBytes(pass) - |pass[|pass| - 1]| <= HighWaterMark
  }

  lemma PrefixSlice<T>(s: seq<T>, i: nat, p: seq<T>)
    requires i <= |s| && p <= s[i..]
    ensures i + |p| <= |s| && p == s[i..i + |p|]
  {
    assert s[i..][..|p|] == s[i..i + |p|];
  }

  lemma PrefixSnoc<T>(s: seq<T>, i: nat, j: nat)
    requires i <= j <= |s|
    ensures s[..j] == s[..i] + s[i..j]
  {
  }

  /** How one step of a pass ends. */
  datatype Step = Read | Ended | Refused

  /**
   * One round of the inner loop: the Valid() and Increment() tests, then
   * the current key and, with `checkDelete`, its delete.
   */
  method ReadOne(it: BaseIterator, ghost visible: seq<Bytes>, ghost order: seq<Bytes>, ghost first: int,
                 ghost t: nat, checkDelete: bool, refused: set<Bytes>)
    returns (key: Bytes, step: Step)
    requires Walks(it, visible, order, first) && At(it, visible, first, t)
    modifies it`pos, it`count
    ensures it.Inv() && !it.hasClosed
    ensures step == Ended ==> t == |visible| && At(it, visible, first, t)
    ensures step != Ended ==> t < |visible| && key == visible[t]
    ensures step == Read ==> At(it, visible, first, t + 1) && (checkDelete ==> key !in refused)
    ensures step == Refused ==> checkDelete && key in refused
  {
    key := [];
    assert it.pos == Cur(it, first, t);
    if !it.Valid() {
      return key, Ended;
    }
    assert t < |order| && it.keys[it.pos] == order[t];
    var more := it.Increment();
    if !more {
      return key, Ended;
    }
    key := it.keys[it.pos];
    if checkDelete && key in refused {
      return key, Refused;
    }
    it.Next();
    step := Read;
  }

  /** The loop state of a pass: `pass` are the next keys of the walk, and `bytesRead` their size. */
  ghost predicate InPass(it: BaseIterator, visible: seq<Bytes>, first: int, consumed: nat,
                         pass: seq<Bytes>, bytesRead: nat)
    reads it
  {
    At(it, visible, first, consumed + |pass|) && consumed <= |visible| && pass <= visible[consumed..]
    && KeyBytes(pass) == bytesRead && StopsAtMark(pass)
  }

  /** One round of the inner loop, with the pass's bookkeeping. */
  method PassStep(it: BaseIterator, ghost visible: seq<Bytes>, ghost order: seq<Bytes>, ghost first: int,
                  ghost consumed: nat, pass: seq<Bytes>, bytesRead: nat, checkDelete: bool, refused: set<Bytes>)
    returns (pass': seq<Bytes>, bytesRead': nat, step: Step)
    requires Walks(it, visible, order, first) && InPass(it, visible, first, consumed, pass, bytesRead)
    requires bytesRead <= HighWaterMark
    modifies it`pos, it`count
    ensures step == Read ==> InPass(it, visible, first, consumed, pass', bytesRead') && |pass'| == |pass| + 1
    ensures step != Read ==> pass' == pass && bytesRead' == bytesRead
    ensures step == Ended ==>
      InPass(it, visible, first, consumed, pass, bytesRead) && consumed + |pass| == |visible|
    ensures step == Refused ==>
      checkDelete && consumed + |pass| < |visible| && visible[consumed + |pass|] in refused
  {
    ghost var t := consumed + |pass|;
    var key;
    key, step := ReadOne(it, visible, order, first, t, checkDelete, refused);
    if step != Read {
      return pass, bytesRead, step;
    }
    assert key == visible[consumed..][|pass|];
    KeyBytesSnoc(pass, key);
    pass' := pass + [key];
    bytesRead' := bytesRead + |key|;
  }

  /**
   * One pass of the inner loop `while (bytesRead <= hwm && Valid() &&
   * Increment())`, shared by the clear and count workers. With
   * `checkDelete`, a delete the engine refuses ends the pass (`failed`);
   * `pass` holds the keys read and, for a clear, deleted.
   */
  method ReadPass(it: BaseIterator, ghost visible: seq<Bytes>, ghost order: seq<Bytes>, ghost first: int,
                  consumed: nat, checkDelete: bool, refused: set<Bytes>)
    returns (pass: seq<Bytes>, bytesRead: nat, failed: bool)
    requires Walks(it, visible, order, first) && At(it, visible, first, consumed)
    modifies it`pos, it`count
    ensures failed ==> checkDelete
    ensures consumed + |pass| <= |visible|
    ensures pass == visible[consumed..consumed + |pass|]
    ensures !failed ==> At(it, visible, first, consumed + |pass|)
    ensures failed ==> consumed + |pass| < |visible| && visible[consumed + |pass|] in refused
    ensures KeyBytes(pass) == bytesRead
    ensures !failed && bytesRead <= HighWaterMark ==> consumed + |pass| == |visible|
    ensures StopsAtMark(pass)
  {
    pass, bytesRead, failed := [], 0, false;
    var step;
    while bytesRead <= HighWaterMark
      invariant InPass(it, visible, first, consumed, pass, bytesRead)
      decreases |visible| - |pass|
    {
      pass, bytesRead, step := PassStep(it, visible, order, first, consumed, pass, bytesRead, checkDelete, refused);
      if step != Read {
        failed := step == Refused;
        break;
      }
    }
    PrefixSlice(visible, consumed, pass);
  }

  /**
   * The count loop, one for the database and the transaction variant
   * alike. With an OK status the count is the number of in-range keys, or
   * the limit when that is smaller and not negative.
   */
  method IteratorCount(keys: seq<Bytes>, values: seq<Bytes>, range: Range, limit: int, iterOk: bool)
    returns (ok: bool, count: nat, closed: bool)
    requires StrictlySorted(keys) && |values| == |keys|
    ensures ok == iterOk && closed
    ensures count <= Capped(limit, |InRange(keys, range)|)
    ensures ok ==> count == Capped(limit, |InRange(keys, range)|)
  {
    var it := new BaseIterator(keys, values, false, range, limit);
    it.SeekToRange();
    WalkOf(it);
    count := CountLoop(it, Visible(keys, range, false, limit), Visiting(keys, range, false),
                       VisitPos(keys, range, false, 0), iterOk);
    it.Close();
    ok := iterOk;
    closed := it.hasClosed;
  }

  /** The passes of the count worker: each adds the entries it read. */
  method CountLoop(it: BaseIterator, ghost visible: seq<Bytes>, ghost order: seq<Bytes>, ghost first: int,
                   iterOk: bool)
    returns (count: nat)
    requires Walks(it, visible, order, first) && At(it, visible, first, 0)
    modifies it`pos, it`count
    ensures count <= |visible|
    ensures iterOk ==> count == |visible|
  {
    count := 0;
    while true
      invariant At(it, visible, first, count)
      decreases |visible| - count
    {
      var pass, bytesRead, _ := ReadPass(it, visible, order, first, count, false, {});
      count := count + |pass|;
      if !iterOk || bytesRead == 0 {
        break;
      }
    }
  }

  /**
   * How a clear deletes: the database variants collect the deletes in a
   * WriteBatch, checking each delete or not; the transaction variant
   * deletes through the transaction, checking each delete.
   */
  datatype ClearVariant = DatabaseBatch(checkDelete: bool) | TransactionDeletes

  /**
   * The engine's answers during one clear: the iterator's status, the keys
   * whose delete fails and the indices of the batch writes that fail.
   */
  datatype Engine = Engine(iterOk: bool, refused: set<Bytes>, failingWrites: set<nat>)

  predicate AllOk(e: Engine) {
    e.iterOk && e.refused == {} && e.failingWrites == {}
  }

  /**
   * The clear loop as written: a pass that read 0 bytes ends the clear
   * before its batch is written. `deleted` are the keys whose deletion took
   * effect, `batches` the write batches submitted successfully. With every
   * engine call succeeding, only empty keys at the end can be left over.
   */
  method ClearAsWritten(keys: seq<Bytes>, values: seq<Bytes>, range: Range, reverse: bool,
                        limit: int, v: ClearVariant, e: Engine)
    returns (ok: bool, closed: bool, deleted: seq<Bytes>, batches: seq<seq<Bytes>>)
    requires StrictlySorted(keys) && |values| == |keys|
    ensures deleted <= Visible(keys, range, reverse, limit)
    ensures ok ==> e.iterOk
    ensures !closed ==> !ok && v != DatabaseBatch(false)
    ensures v.DatabaseBatch? ==> Flatten(batches) == deleted
    ensures v.DatabaseBatch? ==> deleted == [] || KeyBytes(deleted) > 0
    ensures v.TransactionDeletes? ==> batches == []
    ensures forall j :: 0 <= j < |batches| ==> |batches[j]| > 0 && KeyBytes(batches[j]) > 0
    ensures forall j :: 0 <= j < |batches| ==> StopsAtMark(batches[j])
    ensures forall j :: 0 <= j < |batches| - 1 ==> KeyBytes(batches[j]) > HighWaterMark
    ensures AllOk(e) ==> ok && closed
    ensures AllOk(e) && v.TransactionDeletes? ==> deleted == Visible(keys, range, reverse, limit)
    ensures AllOk(e) ==> forall i :: |deleted| <= i < |Visible(keys, range, reverse, limit)| ==>
      Visible(keys, range, reverse, limit)[i] == []
  {
    if v.DatabaseBatch? {
      ok, closed, deleted, batches := ClearBatched(keys, values, range, reverse, limit, v.checkDelete, e, true);
    } else {
      ok, closed, deleted := ClearDirect(keys, values, range, reverse, limit, e);
      batches := [];
    }
  }

  /**
   * The clear loop as evidently intended: a pass ends the clear only when it
   * consumed no entry, so every visited key is deleted.
   */
  method Clear(keys: seq<Bytes>, values: seq<Bytes>, range: Range, reverse: bool,
               limit: int, v: ClearVariant, e: Engine)
    returns (ok: bool, closed: bool, deleted: seq<Bytes>, batches: seq<seq<Bytes>>)
    requires StrictlySorted(keys) && |values| == |keys|
    ensures deleted <= Visible(keys, range, reverse, limit)
    ensures ok ==> e.iterOk
    ensures !closed ==> !ok && v != DatabaseBatch(false)
    ensures v.DatabaseBatch? ==> Flatten(batches) == deleted
    ensures v.TransactionDeletes? ==> batches == []
    ensures v.TransactionDeletes? && !closed ==>
      |deleted| < |Visible(keys, range, reverse, limit)|
      && Visible(keys, range, reverse, limit)[|deleted|] in e.refused
    ensures forall j :: 0 <= j < |batches| ==> |batches[j]| > 0 && StopsAtMark(batches[j])
    ensures forall j :: 0 <= j < |batches| - 1 ==> KeyBytes(batches[j]) > HighWaterMark
    ensures AllOk(e) ==> ok && closed && deleted == Visible(keys, range, reverse, limit)
  {
    if v.DatabaseBatch? {
      ok, closed, deleted, batches := ClearBatched(keys, values, range, reverse, limit, v.checkDelete, e, false);
    } else {
      ok, closed, deleted := ClearDirect(keys, values, range, reverse, limit, e);
      batches := [];
    }
  }

  /**
   * The transaction branch: each key is deleted as it is read, so a refused
   * delete leaves the keys before it deleted and the clear unclosed.
   */
  method ClearDirect(keys: seq<Bytes>, values: seq<Bytes>, range: Range, reverse: bool,
                     limit: int, e: Engine)
    returns (ok: bool, closed: bool, deleted: seq<Bytes>)
    requires StrictlySorted(keys) && |values| == |keys|
    ensures deleted <= Visible(keys, range, reverse, limit)
    ensures ok ==> e.iterOk
    ensures !closed ==> !ok
    ensures !closed ==>
      |deleted| < |Visible(keys, range, reverse, limit)|
      && Visible(keys, range, reverse, limit)[|deleted|] in e.refused
    ensures closed && e.iterOk ==> ok && deleted == Visible(keys, range, reverse, limit)
    ensures e.refused == {} ==> closed
  {
    var it := new BaseIterator(keys, values, reverse, range, limit);
    it.SeekToRange();
    WalkOf(it);
    var failed;
    ok, failed, deleted := DirectLoop(it, Visible(keys, range, reverse, limit), Visiting(keys, range, reverse),
                                      VisitPos(keys, range, reverse, 0), e);
    if failed {
      // The worker returns without closing its iterator.
      return false, false, deleted;
    }
    it.Close();
    closed := it.hasClosed;
  }

  /** The passes of the transaction branch. */
  method DirectLoop(it: BaseIterator, ghost visible: seq<Bytes>, ghost order: seq<Bytes>, ghost first: int,
                    e: Engine)
    returns (ok: bool, failed: bool, deleted: seq<Bytes>)
    requires Walks(it, visible, order, first) && At(it, visible, first, 0)
    modifies it`pos, it`count
    ensures deleted <= visible
    ensures ok ==> e.iterOk
    ensures failed ==> !ok && |deleted| < |visible| && visible[|deleted|] in e.refused
    ensures !failed && e.iterOk ==> ok && deleted == visible
  {
    deleted, ok, failed := [], true, false;
    var consumed: nat := 0;
    ghost var done := false;
    while true
      invariant At(it, visible, first, consumed)
      invariant done ==> consumed == |visible|
      invariant deleted == visible[..consumed]
      decreases |visible| - consumed
    {
      var pass, bytesRead, refused := ReadPass(it, visible, order, first, consumed, true, e.refused);
      PrefixSnoc(visible, consumed, consumed + |pass|);
      deleted := deleted + pass;
      if refused {
        ok, failed := false, true;
        break;
      }
      consumed := consumed + |pass|;
      done := done || bytesRead <= HighWaterMark;
      if !e.iterOk || bytesRead == 0 {
        ok := e.iterOk;
        break;
      }
    }
  }

  /**
   * The database branch: a pass's deletes take effect when its batch is
   * written. `stopOnZeroBytes` selects the stop test after a pass: no bytes
   * read (as written) or no entry read (as intended).
   */
  method ClearBatched(keys: seq<Bytes>, values: seq<Bytes>, range: Range, reverse: bool,
                      limit: int, checkDelete: bool, e: Engine, stopOnZeroBytes: bool)
    returns (ok: bool, closed: bool, deleted: seq<Bytes>, batches: seq<seq<Bytes>>)
    requires StrictlySorted(keys) && |values| == |keys|
    ensures deleted <= Visible(keys, range, reverse, limit)
    ensures ok ==> e.iterOk
    ensures !closed ==> checkDelete && !ok
    ensures Flatten(batches) == deleted
    ensures forall j :: 0 <= j < |batches| ==> |batches[j]| > 0 && StopsAtMark(batches[j])
    ensures stopOnZeroBytes ==> forall j :: 0 <= j < |batches| ==> KeyBytes(batches[j]) > 0
    ensures forall j :: 0 <= j < |batches| - 1 ==> KeyBytes(batches[j]) > HighWaterMark
    ensures stopOnZeroBytes ==> deleted == [] || KeyBytes(deleted) > 0
    ensures AllOk(e) ==> ok && closed
    ensures AllOk(e) && !stopOnZeroBytes ==> deleted == Visible(keys, range, reverse, limit)
    ensures AllOk(e) ==> forall i :: |deleted| <= i < |Visible(keys, range, reverse, limit)| ==>
      Visible(keys, range, reverse, limit)[i] == []
  {
    var it := new BaseIterator(keys, values, reverse, range, limit);
    it.SeekToRange();
    WalkOf(it);
    var failed;
    ok, failed, deleted, batches := BatchedLoop(it, Visible(keys, range, reverse, limit),
                                                Visiting(keys, range, reverse),
                                                VisitPos(keys, range, reverse, 0),
                                                checkDelete, e, stopOnZeroBytes);
    BatchesShape(batches, stopOnZeroBytes, true);
    if failed {
      // The worker returns without closing its iterator.
      return false, false, deleted, batches;
    }
    it.Close();
    closed := it.hasClosed;
  }

  /** The passes of the database branch, one write batch each. */
  method BatchedLoop(it: BaseIterator, ghost visible: seq<Bytes>, ghost order: seq<Bytes>, ghost first: int,
                     checkDelete: bool, e: Engine, stopOnZeroBytes: bool)
    returns (ok: bool, failed: bool, deleted: seq<Bytes>, batches: seq<seq<Bytes>>)
    requires Walks(it, visible, order, first) && At(it, visible, first, 0)
    modifies it`pos, it`count
    ensures deleted <= visible
    ensures ok ==> e.iterOk
    ensures failed ==> checkDelete && !ok
    ensures Flatten(batches) == deleted
    ensures Batches(batches, stopOnZeroBytes, true)
    ensures stopOnZeroBytes ==> deleted == [] || KeyBytes(deleted) > 0
    ensures AllOk(e) ==> ok && !failed
    ensures AllOk(e) && !stopOnZeroBytes ==> deleted == visible
    ensures AllOk(e) ==> forall i :: |deleted| <= i < |visible| ==> visible[i] == []
  {
    deleted, batches := [], [];
    var writes: nat := 0;
    var consumed: nat := 0;
    ghost var done := false;
    while true
      invariant BatchState(it, visible, first, consumed, done, deleted, batches, stopOnZeroBytes)
      decreases |visible| - consumed
    {
      var round;
      consumed, done, deleted, batches, round :=
        BatchRound(it, visible, order, first, consumed, done, deleted, batches, writes, checkDelete, e, stopOnZeroBytes);
      match round {
        case Written =>
          writes := writes + 1;
        case Stopped(stopOk) =>
          ok, failed := stopOk, false;
          break;
        case Aborted =>
          ok, failed := false, true;
          break;
      }
    }
  }

  /** How one pass of the database branch ends. */
  datatype Round = Written | Stopped(ok: bool) | Aborted

  /**
   * The loop state of the database branch: `deleted` are the first
   * `consumed` keys of the walk, split into `batches`; `done` records that a
   * pass ended below the mark.
   */
  ghost predicate BatchState(it: BaseIterator, visible: seq<Bytes>, first: int, consumed: nat, done: bool,
                             deleted: seq<Bytes>, batches: seq<seq<Bytes>>, stopOnZeroBytes: bool)
    reads it
  {
    At(it, visible, first, consumed) && Cleared(visible, consumed, done, deleted, batches, stopOnZeroBytes)
  }

  /** The part of the loop state that does not depend on the iterator. */
  ghost predicate Cleared(visible: seq<Bytes>, consumed: nat, done: bool,
                          deleted: seq<Bytes>, batches: seq<seq<Bytes>>, stopOnZeroBytes: bool)
  {
    consumed <= |visible| && (done ==> consumed == |visible|)
    && deleted == visible[..consumed] && Flatten(batches) == deleted
    && Batches(batches, stopOnZeroBytes, done)
    && (stopOnZeroBytes ==> deleted == [] || KeyBytes(deleted) > 0)
  }

  /** Writing the batch of a pass that read at least one entry (and, as written, one byte). */
  lemma ClearedSnoc(visible: seq<Bytes>, consumed: nat, done: bool, deleted: seq<Bytes>,
                    batches: seq<seq<Bytes>>, stopOnZeroBytes: bool, pass: seq<Bytes>)
    requires Cleared(visible, consumed, done, deleted, batches, stopOnZeroBytes)
    requires consumed + |pass| <= |visible| && pass == visible[consumed..consumed + |pass|]
    requires |pass| > 0 && StopsAtMark(pass) && (stopOnZeroBytes ==> KeyBytes(pass) > 0)
    requires KeyBytes(pass) <= HighWaterMark ==> consumed + |pass| == |visible|
    ensures Cleared(visible, consumed + |pass|, done || KeyBytes(pass) <= HighWaterMark,
                    deleted + pass, batches + [pass], stopOnZeroBytes)
  {
    assert !done;
    var done' := KeyBytes(pass) <= HighWaterMark;
    PrefixSnoc(visible, consumed, consumed + |pass|);
    FlattenSnoc(batches, pass);
    BatchesSnoc(batches, pass, stopOnZeroBytes, false, done');
    KeyBytesAppend(deleted, pass);
    assert stopOnZeroBytes ==> KeyBytes(deleted + pass) > 0;
  }

  /**
   * One round of the outer loop of the database branch: a pass, the stop
   * test, and the batch write that makes the pass's deletes take effect.
   */
  method BatchRound(it: BaseIterator, ghost visible: seq<Bytes>, ghost order: seq<Bytes>, ghost first: int,
                    consumed: nat, ghost done: bool, deleted: seq<Bytes>, batches: seq<seq<Bytes>>,
                    writes: nat, checkDelete: bool, e: Engine, stopOnZeroBytes: bool)
    returns (consumed': nat, ghost done': bool, deleted': seq<Bytes>, batches': seq<seq<Bytes>>, round: Round)
    requires Walks(it, visible, order, first)
    requires BatchState(it, visible, first, consumed, done, deleted, batches, stopOnZeroBytes)
    modifies it`pos, it`count
    ensures round == Written ==>
      BatchState(it, visible, first, consumed', done', deleted', batches', stopOnZeroBytes)
      && consumed < consumed'
    ensures round != Written ==> deleted' == deleted && batches' == batches
    ensures round == Aborted ==> checkDelete && e.refused != {}
    ensures round.Stopped? && round.ok ==> e.iterOk
    ensures round == Stopped(false) ==> !e.iterOk || writes in e.failingWrites
    ensures round == Stopped(true) && stopOnZeroBytes ==>
      forall i :: |deleted| <= i < |visible| ==> visible[i] == []
    ensures round == Stopped(true) && !stopOnZeroBytes ==> deleted == visible
  {
    var pass, bytesRead, refused := ReadPass(it, visible, order, first, consumed, checkDelete, e.refused);
    deleted', batches' := deleted, batches;
    consumed', done' := consumed + |pass|, done || bytesRead <= HighWaterMark;
    if refused {
      return consumed', done', deleted', batches', Aborted;
    }
    if !e.iterOk || (if stopOnZeroBytes then bytesRead == 0 else |pass| == 0) {
      if e.iterOk {
        ClearedStop(visible, consumed, deleted, pass, stopOnZeroBytes);
      }
      return consumed', done', deleted', batches', Stopped(e.iterOk);
    }
    if writes in e.failingWrites {
      return consumed', done', deleted', batches', Stopped(false);
    }
    ClearedSnoc(visible, consumed, done, deleted, batches, stopOnZeroBytes, pass);
    batches', deleted' := batches + [pass], deleted + pass;
    round := Written;
  }

  /** A pass that ends the clear leaves nothing but empty keys (as written) or nothing at all. */
  lemma ClearedStop(visible: seq<Bytes>, consumed: nat, deleted: seq<Bytes>, pass: seq<Bytes>, stopOnZeroBytes: bool)
    requires consumed + |pass| <= |visible| && pass == visible[consumed..consumed + |pass|]
    requires deleted == visible[..consumed]
    requires KeyBytes(pass) <= HighWaterMark ==> consumed + |pass| == |visible|
    requires if stopOnZeroBytes then KeyBytes(pass) == 0 else |pass| == 0
    ensures stopOnZeroBytes ==> forall i :: |deleted| <= i < |visible| ==> visible[i] == []
    ensures !stopOnZeroBytes ==> deleted == visible
  {
    if stopOnZeroBytes {
      KeyBytesZero(pass);
      forall i | |deleted| <= i < |visible| ensures visible[i] == [] {
        assert visible[i] == pass[i - consumed];
      }
    }
  }

  /**
   * The shape of the batches written so far: none is empty, each fits the
   * mark but for its last key, all but the last exceed it, and the last
   * exceeds it too unless the range is exhausted.
   */
  ghost predicate Batches(batches: seq<seq<Bytes>>, stopOnZeroBytes: bool, done: bool)
    decreases |batches|
  {
    |batches| == 0 ||
    var last := batches[|batches| - 1];
    Batches(batches[..|batches| - 1], stopOnZeroBytes, false)
    && |last| > 0 && StopsAtMark(last) && (stopOnZeroBytes ==> KeyBytes(last) > 0)
    && (KeyBytes(last) > HighWaterMark || done)
  }

  lemma BatchesSnoc(batches: seq<seq<Bytes>>, pass: seq<Bytes>, stopOnZeroBytes: bool, wasDone: bool, done: bool)
    requires Batches(batches, stopOnZeroBytes, wasDone) && !wasDone
    requires |pass| > 0 && StopsAtMark(pass) && (stopOnZeroBytes ==> KeyBytes(pass) > 0)
    requires KeyBytes(pass) > HighWaterMark || done
    ensures Batches(batches + [pass], stopOnZeroBytes, done)
  {
    assert (batches + [pass])[..|batches|] == batches;
  }

  /** The shape of the batches, one batch at a time. */
  lemma {:induction false} BatchesShape(batches: seq<seq<Bytes>>, stopOnZeroBytes: bool, done: bool)
    requires Batches(batches, stopOnZeroBytes, done)
    ensures forall j :: 0 <= j < |batches| ==> |batches[j]| > 0 && StopsAtMark(batches[j])
    ensures stopOnZeroBytes ==> forall j :: 0 <= j < |batches| ==> KeyBytes(batches[j]) > 0
    ensures forall j :: 0 <= j < |batches| - 1 ==> KeyBytes(batches[j]) > HighWaterMark
    decreases |batches|
  {
    if |batches| > 0 {
      var init := batches[..|batches| - 1];
      BatchesShape(init, stopOnZeroBytes, false);
      assert forall j :: 0 <= j < |init| ==> init[j] == batches[j];
      if |init| > 0 {
        assert init[..|init| - 1] == batches[..|init| - 1];
      }
    }
  }

  /**
   * A range holding only the empty key, cleared through a write batch with
   * every engine call succeeding: the clear as written deletes nothing, the
   * corrected one deletes the key.
   */
  method EmptyKeyLeftOver() returns (deleted: seq<Bytes>, fixed: seq<Bytes>)
    ensures Visible([[]], NoBounds, false, -1) == [[]]
    ensures deleted == [] && fixed == [[]]
  {
    var e := Engine(true, {}, {});
    var v := DatabaseBatch(true);
    assert InRange([[]], NoBounds) == [[]] by {
      NoBoundsAdmitsAll([]);
    }
    var ok, closed, batches;
    ok, closed, deleted, batches := ClearAsWritten([[]], [[]], NoBounds, false, -1, v, e);
    ok, closed, fixed, batches := Clear([[]], [[]], NoBounds, false, -1, v, e);
  }
}
