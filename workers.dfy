// The workers the main thread builds and hands to the libuv pool: what each
// one does and which handle it works on. Handles are named by their ids;
// an iterator by its owner's registry and its id there, because the
// database and every transaction number their iterators from 0 on their own.

module Workers {

  /** An iterator's place: the database's registry or a transaction's. */
  datatype IterKey = DbIterator(id: nat) | TxnIterator(transaction: nat, id: nat)

  /** What a worker does, and on which handle. */
  datatype Work =
    | OpenDb                                // OpenWorker, a BaseWorker
    | CloseDb                               // CloseWorker, a BaseWorker
    | DbTask                                // get, put, del, multiGet, clear, count, approximateSize,
                                            // compactRange, batchDo, batchWrite: PriorityWorkers on the database
    | ReleaseSnapshot(snapshot: nat)        // SnapshotReleaseWorker, a PriorityWorker on the database
    | CloseIterator(cursor: IterKey)        // IteratorCloseWorker, a BaseWorker
    | NextIterator(cursor: IterKey, size: nat) // IteratorNextWorker, a BaseWorker
    | CommitTxn(transaction: nat)           // TransactionCommitWorker, a BaseWorker
    | RollbackTxn(transaction: nat)         // TransactionRollbackWorker, a BaseWorker
    | TxnTask(transaction: nat)             // get, getForUpdate, multiGet, put, del, clear, count:
                                            // PriorityWorkers on the transaction

  /** One worker object: `serial` tells apart workers doing the same work. */
  datatype Job = Job(serial: nat, work: Work)
}
