/** How the engagement app turns errors into responses: handlers throw (or pass to `next`) error
    objects, unmatched routes get a 404 error, and one central handler writes the JSON reply. */
module ErrorFlow {
  import opened Common

  /** An `Error` as the handlers build it: `createError(status, message)` sets `statusCode`, a plain
      `new Error(message)` (or any runtime failure) has none. */
  datatype ErrorObj = ErrorObj(message: string, statusCode: Option<int>)

  function CreateError(statusCode: int, message: string): (e: ErrorObj)
    ensures e.statusCode == Some(statusCode) && e.message == message
  {
    ErrorObj(message, Some(statusCode))
  }

  /** A failure of the runtime or the store (a validation error, a duplicate key, a null read). */
  function RuntimeError(message: string): (e: ErrorObj)
    ensures e.statusCode.None?
  {
    ErrorObj(message, None)
  }

  /** What the client receives from the central handler. */
  datatype Response = Response(status: int, message: string, stack: string)

  /** The placeholder shown instead of a stack trace in production. */
  const StackPlaceholder := "\U{1F95E}"

  /** `notFound`: the response status becomes 404 and an error naming the URL goes on. */
  function NotFound(originalUrl: string): (r: (int, ErrorObj))
    ensures r.0 == 404 && r.1.statusCode.None?
    ensures |r.1.message| >= |originalUrl| && r.1.message[|r.1.message| - |originalUrl|..] == originalUrl
  {
    (404, ErrorObj("Not Found - " + originalUrl, None))
  }

  /** `errorHandler` as written: the status is the response's own status, 200 read as 500; the
      error's `statusCode` is never consulted. `stack` is the error's trace. */
  function ErrorHandlerAsWritten(resStatus: int, err: ErrorObj, stack: string, production: bool): (r: Response)
    ensures r.status == (if resStatus == 200 then 500 else resStatus)
    ensures r.message == err.message
    ensures r.stack == (if production then StackPlaceholder else stack)
  {
    Response(if resStatus == 200 then 500 else resStatus, err.message, if production then StackPlaceholder else stack)
  }

  /** Every handler throws before setting a status, so as written each `createError` status is lost:
      a 401, 403, 404 or 400 reaches the client as 500. */
  lemma AsWrittenLosesStatus(statusCode: int, message: string, stack: string, production: bool)
    requires statusCode != 500
    ensures ErrorHandlerAsWritten(200, CreateError(statusCode, message), stack, production).status == 500
    ensures ErrorHandlerAsWritten(200, CreateError(statusCode, message), stack, production).status != statusCode
  {
  }

  /** The evidently intended handler: the error's own `statusCode` when it has one, otherwise the
      response status with 200 read as 500. */
  function ErrorHandler(resStatus: int, err: ErrorObj, stack: string, production: bool): (r: Response)
    ensures err.statusCode.Some? ==> r.status == err.statusCode.value
    ensures err.statusCode.None? ==> r == ErrorHandlerAsWritten(resStatus, err, stack, production)
    ensures r.message == err.message
    ensures r.stack == (if production then StackPlaceholder else stack)
  {
    match err.statusCode
    case Some(s) => Response(s, err.message, if production then StackPlaceholder else stack)
    case None => ErrorHandlerAsWritten(resStatus, err, stack, production)
  }

  /** The two handlers agree wherever the error carries no status of its own, and an unmatched
      route answers 404 with both. */
  lemma HandlersAgreeWithoutStatus(resStatus: int, err: ErrorObj, stack: string, production: bool, url: string)
    ensures err.statusCode.None? ==>
      ErrorHandler(resStatus, err, stack, production) == ErrorHandlerAsWritten(resStatus, err, stack, production)
    ensures var (s, e) := NotFound(url);
            ErrorHandler(s, e, stack, production).status == 404 && ErrorHandlerAsWritten(s, e, stack, production).status == 404
  {
  }

  /** A handler's outcome: a success status, or an error thrown (or passed to `next`) before any
      status was set. */
  datatype Reply = Success(status: int) | Failure(err: ErrorObj)

  /** A handler's outcome together with the store it leaves behind. */
  datatype Outcome<S> = Outcome(reply: Reply, store: S)

  /** The status the client sees for a handler's outcome, through the corrected central handler. */
  function StatusOf(r: Reply): (s: int)
    ensures r.Success? ==> s == r.status
    ensures r.Failure? && r.err.statusCode.Some? ==> s == r.err.statusCode.value
    ensures r.Failure? && r.err.statusCode.None? ==> s == 500
  {
    match r
    case Success(s) => s
    case Failure(e) => ErrorHandler(200, e, "", true).status
  }

  /** `createError` statuses reach the client unchanged. */
  lemma CreatedErrorKeepsStatus(statusCode: int, message: string)
    ensures StatusOf(Failure(CreateError(statusCode, message))) == statusCode
  {
  }
}
