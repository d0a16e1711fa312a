// Worker status handling (native/napi/worker.cpp): a worker records the
// engine's status, and on completion calls exactly one of its OK or error
// handlers; the error handler turns the status into a JS error with a code.

module Statuses {
  import opened Common

  /** The kinds of rocksdb::Status. */
  datatype Code =
    | Ok | NotFound | Corruption | NotSupported | InvalidArgument | IOError
    | MergeInProgress | Incomplete | ShutdownInProgress | TimedOut | Aborted
    | Busy | Expired | TryAgain

  /** A status and the text its ToString() renders. */
  datatype Status = Status(code: Code, text: string)

  const OkStatus := Status(Ok, "OK")

  /** The error a callback receives: with a code, or a plain Error. */
  datatype JsError = CodeError(code: string, message: string) | PlainError(message: string)

  /** What DoComplete hands to the callback. */
  datatype Callback = OkCallback | ErrorCallback(error: JsError)

  /** The POSIX lock-failure prefix (fs_posix.cc); 15 characters. */
  const PosixLock := "IO error: lock "
  /** The Windows lock-failure prefix (env_win.cc); 32 characters. */
  const WindowsLock := "IO error: Failed to create lock "

  /**
   * `strlen(msg) > n && strncmp(prefix, msg, n) == 0` for a prefix of
   * exactly n characters: the message is longer than the prefix and starts
   * with it.
   */
  predicate StrictlyExtends(msg: string, prefix: string) {
    |msg| > |prefix| && msg[..|prefix|] == prefix
  }

  /** An IOError that reports a held lock. */
  predicate LockMessage(msg: string) {
    StrictlyExtends(msg, PosixLock) || StrictlyExtends(msg, WindowsLock)
  }

  /** BaseWorker::HandleErrorCallback: the error for a failed status. */
  function ErrorFor(code: Code, msg: string): (e: JsError)
    requires code != Ok
    ensures e.message == msg
    ensures e.CodeError? <==> code in {NotFound, Corruption, IOError, Busy}
    ensures e.CodeError? && e.code == "LOCKED" ==> code == IOError && LockMessage(msg)
    ensures code == NotFound ==> e == CodeError("NOT_FOUND", msg)
    ensures code == Corruption ==> e == CodeError("CORRUPTION", msg)
    ensures code == Busy ==> e == CodeError("TRANSACTION_CONFLICT", msg)
    ensures code == IOError ==> e == CodeError(if LockMessage(msg) then "LOCKED" else "IO_ERROR", msg)
    ensures code !in {NotFound, Corruption, IOError, Busy} ==> e == PlainError(msg)
  {
    match code
    case NotFound => CodeError("NOT_FOUND", msg)
    case Corruption => CodeError("CORRUPTION", msg)
    case IOError =>
      if StrictlyExtends(msg, PosixLock) then CodeError("LOCKED", msg)
      else if StrictlyExtends(msg, WindowsLock) then CodeError("LOCKED", msg)
      else CodeError("IO_ERROR", msg)
    case Busy => CodeError("TRANSACTION_CONFLICT", msg)
    case _ => PlainError(msg)
  }

  /** A message equal to the prefix itself is not long enough. */
  lemma BarePrefixIsIOError()
    ensures ErrorFor(IOError, PosixLock) == CodeError("IO_ERROR", PosixLock)
    ensures ErrorFor(IOError, WindowsLock) == CodeError("IO_ERROR", WindowsLock)
  {
    assert WindowsLock[..15][10] != PosixLock[10];
  }

  /** Any text after the POSIX prefix makes the error LOCKED. */
  lemma PosixLockIsLocked(rest: string)
    requires |rest| > 0
    ensures ErrorFor(IOError, PosixLock + rest).code == "LOCKED"
  {
    assert (PosixLock + rest)[..|PosixLock|] == PosixLock;
  }

  /** Only IOError looks at the message; the other codes ignore it. */
  lemma OnlyIOErrorReadsMessage(code: Code, m1: string, m2: string)
    requires code != Ok && code != IOError
    ensures ErrorFor(code, m1).CodeError? == ErrorFor(code, m2).CodeError?
    ensures ErrorFor(code, m1).CodeError? ==> ErrorFor(code, m1).code == ErrorFor(code, m2).code
  {
  }

  /** The status part of a BaseWorker. */
  class BaseWorker {
    var status: Status
    var errMsg: Option<string>

    /** A failed status always has its message recorded. */
    ghost predicate Inv()
      reads this
    {
      status.code != Ok ==> errMsg.Some?
    }

    constructor ()
      ensures status == OkStatus && errMsg == None && Inv()
    {
      status := OkStatus;
      errMsg := None;
    }

    /** BaseWorker::SetStatus: true iff OK; the message is kept only on failure. */
    method SetStatus(s: Status) returns (ok: bool)
      modifies this
      ensures ok <==> s.code == Ok
      ensures status == s && Inv()
      ensures errMsg == if ok then old(errMsg) else Some(s.text)
    {
      status := s;
      if s.code != Ok {
        errMsg := Some(s.text);
        return false;
      }
      return true;
    }

    /** BaseWorker::DoComplete: exactly one of the two handlers, chosen by the status. */
    method DoComplete() returns (cb: Callback)
      requires Inv()
      ensures cb.OkCallback? <==> status.code == Ok
      ensures cb.ErrorCallback? ==> cb.error == ErrorFor(status.code, errMsg.value)
    {
      if status.code == Ok {
        cb := OkCallback;
      } else {
        cb := ErrorCallback(ErrorFor(status.code, errMsg.value));
      }
    }
  }

  /** A worker whose last status failed reports that status's own text. */
  method FailedRun(s: Status) returns (cb: Callback)
    requires s.code != Ok
    ensures cb == ErrorCallback(ErrorFor(s.code, s.text))
  {
    var w := new BaseWorker();
    var ok := w.SetStatus(s);
    cb := w.DoComplete();
  }
}
