// Write batches: the Batch handle (native/napi/batch.cpp and the identical
// rocksdb/napi/batch.cpp), the element scan of batchDo
// (rocksdb/napi/index.cpp) and the write decisions of BatchWorker and
// BatchWriteWorker (rocksdb/napi/workers/batch_workers.cpp,
// rocksdb/napi/workers.cpp): a batch is written only when it holds data.

module Batches {
  import opened Common

  datatype Op = Put(key: Bytes, value: Bytes) | Del(key: Bytes)

  /** What Database::WriteBatch receives. */
  datatype Submission = Submission(ops: seq<Op>, sync: bool)

  class Batch {
    /** The rocksdb::WriteBatch contents. */
    var ops: seq<Op>
    var hasData: bool

    /** hasData_ says whether the batch holds any operation. */
    ghost predicate Inv()
      reads this
    {
      hasData <==> |ops| > 0
    }

    constructor ()
      ensures ops == [] && !hasData && Inv()
    {
      ops := [];
      hasData := false;
    }

    method Put(key: Bytes, value: Bytes)
      modifies this
      ensures ops == old(ops) + [Op.Put(key, value)] && hasData && Inv()
    {
      ops := ops + [Op.Put(key, value)];
      hasData := true;
    }

    method Del(key: Bytes)
      modifies this
      ensures ops == old(ops) + [Op.Del(key)] && hasData && Inv()
    {
      ops := ops + [Op.Del(key)];
      hasData := true;
    }

    method Clear()
      modifies this
      ensures ops == [] && !hasData && Inv()
    {
      ops := [];
      hasData := false;
    }

    /**
     * Batch::Write: the batch goes to the database unchanged, with the sync
     * flag. The source does nothing else, so the contract is a pass-through.
     */
    method Write(sync: bool) returns (w: Submission)
      ensures w.ops == ops && w.sync == sync
    {
      w := Submission(ops, sync);
    }
  }

  /** BatchWriteWorker::DoExecute: the batch is written only if hasData_ is set when it runs. */
  method BatchWriteExecute(batch: Batch, sync: bool) returns (w: Option<Submission>)
    requires batch.Inv()
    ensures w.Some? <==> |batch.ops| > 0
    ensures w.Some? ==> w.value == Submission(batch.ops, sync)
  {
    if batch.hasData {
      var written := batch.Write(sync);
      w := Some(written);
    } else {
      w := None;
    }
  }

  /** One element of the array batchDo receives. */
  datatype Element =
    | NotAnObject
    | Entry(kind: string, key: Option<Bytes>, value: Option<Bytes>)

  /** The operation a well-formed element adds: a del with a key, a put with a key and a value. */
  function OpOf(e: Element): Option<Op> {
    match e
    case NotAnObject => None
    case Entry(kind, key, value) =>
      if kind == "del" && key.Some? then Some(Op.Del(key.value))
      else if kind == "put" && key.Some? && value.Some? then Some(Op.Put(key.value, value.value))
      else None
  }

  /** The operations of the well-formed elements, in order. */
  function OpsOf(es: seq<Element>): seq<Op> {
    if |es| == 0 then []
    else
      var init := OpsOf(es[..|es| - 1]);
      match OpOf(es[|es| - 1])
      case Some(op) => init + [op]
      case None => init
  }

  /** No operation comes from anywhere but a well-formed element. */
  lemma {:induction false} OpsOfEmpty(es: seq<Element>)
    ensures |OpsOf(es)| == 0 <==> forall i :: 0 <= i < |es| ==> OpOf(es[i]).None?
  {
    if |es| > 0 {
      OpsOfEmpty(es[..|es| - 1]);
      assert forall i :: 0 <= i < |es| - 1 ==> es[..|es| - 1][i] == es[i];
    }
  }

  /**
   * batchDo: the scan of the elements into a fresh WriteBatch; hasData is
   * set by the first well-formed element.
   */
  method BatchDo(elements: seq<Element>) returns (ops: seq<Op>, hasData: bool)
    ensures ops == OpsOf(elements)
    ensures hasData <==> exists i :: 0 <= i < |elements| && OpOf(elements[i]).Some?
  {
    ops := [];
    hasData := false;
    var i := 0;
    while i < |elements|
      invariant 0 <= i <= |elements|
      invariant ops == OpsOf(elements[..i])
      invariant hasData <==> |ops| > 0
    {
      assert elements[..i + 1][..i] == elements[..i];
      match OpOf(elements[i]) {
        case Some(op) =>
          ops := ops + [op];
          if !hasData {
            hasData := true;
          }
        case None =>
      }
      i := i + 1;
    }
    assert elements[..i] == elements;
    OpsOfEmpty(elements);
  }

  /** BatchWorker::DoExecute: it writes exactly when constructed with hasData. */
  method BatchWorkerExecute(ops: seq<Op>, sync: bool, hasData: bool) returns (w: Option<Submission>)
    ensures w.Some? <==> hasData
    ensures w.Some? ==> w.value.ops == ops && w.value.sync == sync
  {
    if hasData {
      w := Some(Submission(ops, sync));
    } else {
      w := None;
    }
  }

  /**
   * batchDo followed by its worker: a write happens exactly when some
   * element is well formed, and it never submits an empty batch.
   */
  method BatchDoRun(elements: seq<Element>, sync: bool) returns (w: Option<Submission>)
    ensures w.Some? <==> exists i :: 0 <= i < |elements| && OpOf(elements[i]).Some?
    ensures w.Some? ==> w.value == Submission(OpsOf(elements), sync) && |w.value.ops| > 0
  {
    var ops, hasData := BatchDo(elements);
    OpsOfEmpty(elements);
    w := BatchWorkerExecute(ops, sync, hasData);
  }
}
