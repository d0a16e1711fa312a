// Multi-key reads: the result assembly shared by MultiGetWorker
// (native/napi/workers/database_workers.cpp), TransactionMultiGetWorker and
// TransactionMultiGetForUpdateWorker (native/napi/workers/
// transaction_workers.cpp), and the GetManyWorker of the older generations
// (rocksdb/napi/workers/database_workers.cpp, rocksdb/napi/workers.cpp),
// which looks each key up in turn under a snapshot of its own.

module MultiGet {
  import opened Common
  import opened Statuses

  /** The engine's answer for one key: its status and, on OK, the value. */
  datatype Lookup = Lookup(status: Status, value: Bytes)

  /** An answer other than OK and NotFound stops the assembly. */
  predicate Fails(l: Lookup) {
    l.status.code != Ok && l.status.code != NotFound
  }

  /** The slot a non-failing answer fills: the value on OK, null on NotFound. */
  function Slot(l: Lookup): Option<Bytes> {
    if l.status.code == Ok then Some(l.value) else None
  }

  /**
   * The DoExecute loop: one slot per answer, in order, until the first
   * failing answer, whose status becomes the worker's status.
   */
  method Assemble(answers: seq<Lookup>) returns (values: seq<Option<Bytes>>, failure: Option<Status>)
    ensures |values| <= |answers|
    ensures forall i :: 0 <= i < |values| ==> !Fails(answers[i]) && values[i] == Slot(answers[i])
    ensures failure.None? ==> |values| == |answers|
    ensures failure.Some? ==> |values| < |answers| && Fails(answers[|values|])
                              && failure.value == answers[|values|].status
  {
    values := [];
    failure := None;
    var i := 0;
    while i != |answers|
      invariant 0 <= i <= |answers| && |values| == i
      invariant forall j :: 0 <= j < i ==> !Fails(answers[j]) && values[j] == Slot(answers[j])
    {
      var a := answers[i];
      if a.status.code == Ok {
        values := values + [Some(a.value)];
      } else if a.status.code == NotFound {
        values := values + [None];
      } else {
        failure := Some(a.status);
        return;
      }
      i := i + 1;
    }
  }

  /** The assembly fails exactly when some answer fails, and then at the first one. */
  lemma FirstFailureWins(answers: seq<Lookup>, values: seq<Option<Bytes>>, failure: Option<Status>)
    requires |values| <= |answers|
    requires forall i :: 0 <= i < |values| ==> !Fails(answers[i])
    requires failure.None? ==> |values| == |answers|
    requires failure.Some? ==> |values| < |answers| && Fails(answers[|values|])
    ensures failure.Some? <==> exists i :: 0 <= i < |answers| && Fails(answers[i])
    ensures failure.Some? ==> forall i :: 0 <= i < |answers| && Fails(answers[i]) ==> |values| <= i
  {
  }

  /** The engine side of GetMany: one snapshot held for the whole read. */
  class SnapshotCount {
    var held: nat
    var released: nat

    constructor ()
      ensures held == 0 && released == 0
    {
      held := 0;
      released := 0;
    }
  }

  /**
   * GetManyWorker: a snapshot taken at construction, the per-key Get loop
   * with the same assembly rule, and the snapshot released on every path.
   */
  method GetMany(answers: seq<Lookup>, snaps: SnapshotCount) returns (cache: seq<Option<Bytes>>, failure: Option<Status>)
    modifies snaps
    ensures snaps.held == old(snaps.held) + 1 && snaps.released == old(snaps.released) + 1
    ensures |cache| <= |answers|
    ensures forall i :: 0 <= i < |cache| ==> !Fails(answers[i]) && cache[i] == Slot(answers[i])
    ensures failure.None? ==> |cache| == |answers|
    ensures failure.Some? ==> |cache| < |answers| && Fails(answers[|cache|])
                              && failure.value == answers[|cache|].status
  {
    snaps.held := snaps.held + 1;
    cache, failure := Assemble(answers);
    snaps.released := snaps.released + 1;
  }
}
