// The transaction-ready guards of rocksdb/napi/utils.h: an operation on a
// transaction proceeds only while it is neither committing nor rolling back
// and has done neither; the committed check takes precedence.

module Guards {
  import opened Common

  /** The four terminal-state flags of a Transaction. */
  datatype TxnFlags = TxnFlags(isCommitting: bool, hasCommitted: bool,
                               isRollbacking: bool, hasRollbacked: bool)

  datatype GuardError = TransactionCommitted | TransactionRollbacked

  /** How a guarded entry point ends. */
  datatype Outcome =
    | Proceed
    | CallbackWith(error: GuardError)  // ASSERT_TRANSACTION_READY_CB
    | Throw(error: GuardError)         // ASSERT_TRANSACTION_READY

  predicate Committing(f: TxnFlags) {
    f.isCommitting || f.hasCommitted
  }

  predicate Rollbacking(f: TxnFlags) {
    f.isRollbacking || f.hasRollbacked
  }

  /** The error code and message each guard error carries. */
  function ErrorCode(e: GuardError): (r: (string, string)) {
    match e
    case TransactionCommitted => ("TRANSACTION_COMMITTED", "Transaction is already committed")
    case TransactionRollbacked => ("TRANSACTION_ROLLBACKED", "Transaction is already rollbacked")
  }

  /** The shared decision: which error, if any, the guard reports. */
  function ReadyError(f: TxnFlags): (e: Option<GuardError>)
    ensures e.None? <==> !Committing(f) && !Rollbacking(f)
    ensures Committing(f) ==> e == Some(TransactionCommitted)
    ensures Rollbacking(f) && !Committing(f) ==> e == Some(TransactionRollbacked)
  {
    if Committing(f) then Some(TransactionCommitted)
    else if Rollbacking(f) then Some(TransactionRollbacked)
    else None
  }

  /** ASSERT_TRANSACTION_READY_CB: report through the callback and schedule nothing. */
  function ReadyCb(f: TxnFlags): (o: Outcome)
    ensures !o.Throw?
    ensures o.Proceed? <==> ReadyError(f).None?
    ensures o.CallbackWith? ==> Some(o.error) == ReadyError(f)
  {
    match ReadyError(f)
    case None => Proceed
    case Some(e) => CallbackWith(e)
  }

  /** ASSERT_TRANSACTION_READY: throw instead, with the same precedence. */
  function Ready(f: TxnFlags): (o: Outcome)
    ensures !o.CallbackWith?
    ensures o.Proceed? <==> ReadyError(f).None?
    ensures o.Throw? ==> Some(o.error) == ReadyError(f)
  {
    match ReadyError(f)
    case None => Proceed
    case Some(e) => Throw(e)
  }

  /** The committed check comes first: it wins even when a rollback flag is set too. */
  lemma CommittedFirst(f: TxnFlags)
    requires Committing(f)
    ensures ReadyCb(f) == CallbackWith(TransactionCommitted)
    ensures Ready(f) == Throw(TransactionCommitted)
  {
  }

  /** The two variants block on the same flags and report the same error. */
  lemma VariantsAgree(f: TxnFlags)
    ensures ReadyCb(f).Proceed? <==> Ready(f).Proceed?
    ensures ReadyCb(f).CallbackWith? <==> Ready(f).Throw?
    ensures ReadyCb(f).CallbackWith? ==> ReadyCb(f).error == Ready(f).error
  {
  }
}
