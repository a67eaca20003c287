/** The shared error-response shaper of the API routes (`handleApiError`) and
    the wrapper that routes a handler's exception through it
    (`withErrorHandling`). The logger call is modelled as the log record it
    would emit; the clock reading it carries is left out. */
module ApiErrorHandler {
  import opened Common
  import Text

  /** What the shaper reads off a thrown value: `error?.message`,
      `error?.code` and `error?.stack` (None when absent or when the thrown
      value is null, undefined or a primitive). */
  datatype Thrown = Thrown(message: Option<string>, code: Option<string>, stack: Option<string>)

  /** The options object; None is a property that is not given, so that the
      destructuring default applies. */
  datatype ErrorOptions = ErrorOptions(status: Option<int>, message: Option<string>,
                                       route: Option<string>, httpMethod: Option<string>)

  datatype LogLevel = Error | Warn

  /** A call of the logger: its level and its message line. */
  datatype LogRecord = LogRecord(level: LogLevel, text: string)

  /** The JSON body; each Option field is a property that is present or not. */
  datatype ErrorBody = ErrorBody(error: string, details: Option<string>, code: Option<string>, stack: Option<string>)

  datatype ErrorResponse = ErrorResponse(status: int, body: ErrorBody, log: Option<LogRecord>)

  const DefaultStatus := 500
  const DefaultMessage := "Internal server error"
  const Unknown := "unknown"
  const UnknownCode := "UNKNOWN"

  function GetOr<T>(o: Option<T>, default: T): T
  {
    if o.Some? then o.value else default
  }

  /** `error?.message || message` */
  function ErrorText(error: Thrown, message: string): (t: string)
    ensures Truthy(error.message) ==> t == error.message.value
    ensures !Truthy(error.message) ==> t == message
  {
    if Truthy(error.message) then error.message.value else message
  }

  /** `error?.code || "UNKNOWN"` */
  function ErrorCode(error: Thrown): (c: string)
    ensures Truthy(error.code) ==> c == error.code.value
    ensures !Truthy(error.code) ==> c == UnknownCode
    ensures c != ""
  {
    if Truthy(error.code) then error.code.value else UnknownCode
  }

  /** The log record for a status: error level for 500, warn level for any
      other status from 400 up, nothing below 400. */
  function LogFor(status: int, route: string, httpMethod: string): (l: Option<LogRecord>)
    ensures status == 500 ==> l == Some(LogRecord(Error, "[" + httpMethod + "] " + route + " - 500 Error"))
    ensures status != 500 && status >= 400 ==>
      l == Some(LogRecord(Warn, "[" + httpMethod + "] " + route + " - " + Text.IntToString(status) + " Error"))
    ensures status < 400 ==> l == None
  {
    if status == 500 then Some(LogRecord(Error, "[" + httpMethod + "] " + route + " - 500 Error"))
    else if status >= 400 then Some(LogRecord(Warn, "[" + httpMethod + "] " + route + " - " + Text.IntToString(status) + " Error"))
    else None
  }

  /** `handleApiError(error, options)` with `NODE_ENV === "development"`
      given as `development`. */
  function HandleApiError(error: Thrown, options: ErrorOptions, development: bool): (r: ErrorResponse)
    ensures r.status == GetOr(options.status, DefaultStatus)
    ensures r.body.error == GetOr(options.message, DefaultMessage)
    ensures r.log == LogFor(r.status, GetOr(options.route, Unknown), GetOr(options.httpMethod, Unknown))
    ensures development ==> r.body.details == Some(ErrorText(error, r.body.error))
                            && r.body.code == Some(ErrorCode(error))
                            && r.body.stack == (if Truthy(error.stack) then error.stack else None)
    ensures !development ==> r.body.details == None && r.body.stack == None
                             && (r.body.code.Some? <==> r.status != 500)
                             && (r.body.code.Some? ==> r.body.code.value == ErrorCode(error))
  {
    var status := GetOr(options.status, DefaultStatus);
    var message := GetOr(options.message, DefaultMessage);
    var route := GetOr(options.route, Unknown);
    var httpMethod := GetOr(options.httpMethod, Unknown);
    var errorMessage := ErrorText(error, message);
    var errorCode := ErrorCode(error);
    var log := LogFor(status, route, httpMethod);
    if development then
      ErrorResponse(status, ErrorBody(message, Some(errorMessage), Some(errorCode),
                                      if Truthy(error.stack) then error.stack else None), log)
    else
      ErrorResponse(status, ErrorBody(message, None, None, None)
                              .(code := if status == 500 then None else Some(errorCode)), log)
  }

  /** The body's `error` is the caller's message, never the thrown text: two
      errors thrown with different messages give the same `error` field. */
  lemma ErrorFieldIgnoresThrownText(e1: Thrown, e2: Thrown, options: ErrorOptions, development: bool)
    ensures HandleApiError(e1, options, development).body.error == HandleApiError(e2, options, development).body.error
    ensures HandleApiError(e1, options, development).status == HandleApiError(e2, options, development).status
  {
  }

  /** Outside development a 500 response reveals nothing of the thrown value:
      it depends on the options only. */
  lemma ProductionHidesInternalErrors(e1: Thrown, e2: Thrown, options: ErrorOptions)
    requires GetOr(options.status, DefaultStatus) == 500
    ensures HandleApiError(e1, options, false) == HandleApiError(e2, options, false)
  {
  }

  /** How a wrapped handler ends: it returns a response or throws. */
  datatype HandlerRun<R> = Returned(response: R) | Threw(error: Thrown)

  datatype Wrapped<R> = Passed(response: R) | Caught(errorResponse: ErrorResponse)

  /** `withErrorHandling(handler, routeName)` applied to a request whose
      method is `requestMethod`. */
  function WithErrorHandling<R>(run: HandlerRun<R>, routeName: string, requestMethod: string, development: bool): (w: Wrapped<R>)
    ensures run.Returned? ==> w == Passed(run.response)
    ensures run.Threw? ==>
      w.Caught? && w.errorResponse == HandleApiError(run.error, ErrorOptions(None, None, Some(routeName), Some(requestMethod)), development)
  {
    match run
    case Returned(response) => Passed(response)
    case Threw(error) =>
      Caught(HandleApiError(error, ErrorOptions(None, None, Some(routeName), Some(requestMethod)), development))
  }

  /** A handler that throws is answered with status 500 and the generic
      message, and the failure is logged at error level under the route's
      name and the request's method. */
  lemma {:induction false} WrappedThrowIs500<R>(error: Thrown, routeName: string, requestMethod: string, development: bool)
    ensures var w := WithErrorHandling<R>(Threw(error), routeName, requestMethod, development);
            w.Caught? && w.errorResponse.status == 500
            && w.errorResponse.body.error == "Internal server error"
            && w.errorResponse.log == Some(LogRecord(Error, "[" + requestMethod + "] " + routeName + " - 500 Error"))
            && (!development ==> w.errorResponse.body.code == None)
  {
    var w := WithErrorHandling<R>(Threw(error), routeName, requestMethod, development);
    assert w.errorResponse == HandleApiError(error, ErrorOptions(None, None, Some(routeName), Some(requestMethod)), development);
  }
}
