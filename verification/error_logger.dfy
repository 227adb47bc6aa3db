/**
 * The redaction rules of src/middleware/error-logger.middleware.ts: the
 * record `errorLogger` builds from an error and a request, the two shapes
 * it is logged in (development and otherwise), `logError`,
 * `sanitizeError` and `sanitizeRequest`. Timestamps and the logger itself
 * are not modelled.
 */
module ErrorLogger {
  import opened Wrappers
  import opened Domain
  import opened Errors
  import opened Failures
  import opened ErrorMiddleware

  const Redacted: string := "[REDACTED]"

  /**
   * The parts of an Express request the logger reads; `headers` maps a
   * header name to its (truthy or empty) value, `body` None is undefined.
   */
  datatype Request = Request(
    verb: string,
    path: string,
    params: map<string, Json>,
    query: map<string, Json>,
    body: Option<Json>,
    headers: map<string, string>,
    ip: Option<string>,
    userId: Option<Id>)

  /**
   * The request part of a log record; `headers` and `body` are None when the
   * record leaves them out, a header value None is `undefined`.
   */
  datatype RequestLog = RequestLog(
    verb: string,
    path: string,
    params: map<string, Json>,
    query: map<string, Json>,
    body: Option<Json>,
    headers: Option<map<string, Option<string>>>,
    ip: Option<string>,
    userId: Option<Id>)

  /** An `ErrorDetails` (or a `Partial<ErrorDetails>`) as built or logged. */
  datatype LogRecord = LogRecord(
    name: string,
    message: string,
    stack: Option<string>,
    statusCode: Option<int>,
    code: Option<string>,
    errors: Option<ErrorMap>,
    request: Option<RequestLog>,
    context: Option<map<string, Json>>)

  /** The headers with `authorization` overwritten by the placeholder, or by undefined when it is falsy or missing. */
  function RecordedHeaders(headers: map<string, string>): (h: map<string, Option<string>>)
    ensures "authorization" in h
    ensures h["authorization"] == (if "authorization" in headers && headers["authorization"] != "" then Some(Redacted) else None)
    ensures forall k :: k in headers && k != "authorization" ==> k in h && h[k] == Some(headers[k])
    ensures forall k :: k in h ==> k in headers || k == "authorization"
  {
    var copied := map k | k in headers :: Some(headers[k]);
    copied["authorization" := if "authorization" in headers && headers["authorization"] != "" then Some(Redacted) else None]
  }

  /** The `ErrorDetails` record `errorLogger` builds before logging it; `stack` is `err.stack`. */
  function ErrorDetailsOf(err: Thrown, req: Request, env: NodeEnv, stack: string): (d: LogRecord)
    ensures d.name == Name(err) && d.message == Message(err)
    ensures d.stack.Some? <==> env == Development
    ensures err.ApiErr? ==> d.statusCode == Some(err.api.statusCode) && d.code == Some(err.api.code) && d.errors == err.api.errors
    ensures !err.ApiErr? ==> d.statusCode == None && d.code == None && d.errors == None
    ensures d.request.Some? && d.request.value.body == req.body && d.request.value.headers == Some(RecordedHeaders(req.headers))
    ensures d.context == None
  {
    var request := RequestLog(req.verb, req.path, req.params, req.query, req.body,
                              Some(RecordedHeaders(req.headers)), req.ip, req.userId);
    var base := LogRecord(Name(err), Message(err), if env == Development then Some(stack) else None,
                          None, None, None, Some(request), None);
    if err.ApiErr? then base.(statusCode := Some(err.api.statusCode), code := Some(err.api.code), errors := err.api.errors)
    else base
  }

  /** What is logged under NODE_ENV=development: every header kept, cookie and authorization forced to the placeholder. */
  function DevelopmentLog(d: LogRecord): (r: LogRecord)
    requires d.request.Some? && d.request.value.headers.Some?
    ensures r.request.Some? && r.request.value.headers.Some?
    ensures "authorization" in r.request.value.headers.value && "cookie" in r.request.value.headers.value
    ensures r.request.value.headers.value["authorization"] == Some(Redacted)
    ensures r.request.value.headers.value["cookie"] == Some(Redacted)
    ensures forall k :: k in d.request.value.headers.value && k != "authorization" && k != "cookie" ==>
              k in r.request.value.headers.value && r.request.value.headers.value[k] == d.request.value.headers.value[k]
    ensures r.request.value.body == d.request.value.body
    ensures r == d.(request := r.request)
  {
    var rq := d.request.value;
    var headers := rq.headers.value["cookie" := Some(Redacted)]["authorization" := Some(Redacted)];
    d.(request := Some(rq.(headers := Some(headers))))
  }

  /** What is logged otherwise: no headers, no stack, and a truthy body replaced by the placeholder. */
  function ProductionLog(d: LogRecord): (r: LogRecord)
    requires d.request.Some?
    ensures r.stack == None
    ensures r.request.Some? && r.request.value.headers == None
    ensures r.request.value.body == (if d.request.value.body.Some? && Truthy(d.request.value.body.value) then Some(JStr(Redacted)) else None)
    ensures r.name == d.name && r.message == d.message && r.statusCode == d.statusCode && r.code == d.code && r.errors == d.errors
  {
    var rq := d.request.value;
    var body := if rq.body.Some? && Truthy(rq.body.value) then Some(JStr(Redacted)) else None;
    d.(stack := None, request := Some(rq.(headers := None, body := body)))
  }

  /** `errorLogger(err, req, res, next)`: the record logged and the error handed to `next`. */
  function LogAndForward(err: Thrown, req: Request, env: NodeEnv, stack: string): (r: (LogRecord, Thrown))
    ensures r.1 == err
    ensures r.0.name == Name(err) && r.0.message == Message(err)
  {
    var d := ErrorDetailsOf(err, req, env, stack);
    (if env == Development then DevelopmentLog(d) else ProductionLog(d), err)
  }

  /**
   * Whatever the environment, no logged header carries the authorization
   * value itself; outside development neither headers nor a stack nor the
   * body's content is logged.
   */
  lemma {:induction false} LoggedRequestIsRedacted(err: Thrown, req: Request, env: NodeEnv, stack: string)
    ensures var log := LogAndForward(err, req, env, stack).0;
            log.request.Some? &&
            (log.request.value.headers.Some? ==>
               "authorization" in log.request.value.headers.value &&
               log.request.value.headers.value["authorization"] == Some(Redacted))
    ensures env != Development ==>
              var log := LogAndForward(err, req, env, stack).0;
              log.stack == None && log.request.value.headers == None &&
              (log.request.value.body == None || log.request.value.body == Some(JStr(Redacted)))
    ensures env == Development ==>
              var log := LogAndForward(err, req, env, stack).0;
              log.stack == Some(stack) && log.request.value.body == req.body
  {
    var d := ErrorDetailsOf(err, req, env, stack);
    if env == Development {
      var log := DevelopmentLog(d);
      assert log.stack == d.stack;
    } else {
      var log := ProductionLog(d);
    }
  }

  /** `logError(error, context?)`: the record logged. */
  function LogError(err: Thrown, context: Option<map<string, Json>>, env: NodeEnv, stack: string): (r: LogRecord)
    ensures r.name == Name(err) && r.message == Message(err) && r.request == None && r.context == context
    ensures r.stack.Some? <==> env == Development
    ensures err.ApiErr? ==> r.statusCode == Some(err.api.statusCode) && r.code == Some(err.api.code) && r.errors == err.api.errors
    ensures !err.ApiErr? ==> r.statusCode == None && r.code == None && r.errors == None
  {
    var base := LogRecord(Name(err), Message(err), None, None, None, None, None, None);
    var withApi := if err.ApiErr? then base.(statusCode := Some(err.api.statusCode), code := Some(err.api.code), errors := err.api.errors) else base;
    var withStack := if env == Development then withApi.(stack := Some(stack)) else withApi;
    withStack.(context := context)
  }

  /** `sanitizeError(error)`: like `logError` without context, but with defaults for an empty name or message. */
  function SanitizeError(err: Thrown, env: NodeEnv, stack: string): (r: LogRecord)
    ensures r.name == (if Name(err) == "" then "UnknownError" else Name(err))
    ensures r.message == (if Message(err) == "" then "An unknown error occurred" else Message(err))
    ensures r.name != "" && r.message != ""
    ensures r.stack.Some? <==> env == Development
    ensures err.ApiErr? ==> r.statusCode == Some(err.api.statusCode) && r.code == Some(err.api.code) && r.errors == err.api.errors
    ensures r.request == None && r.context == None
  {
    var base := LogRecord(if Name(err) == "" then "UnknownError" else Name(err),
                          if Message(err) == "" then "An unknown error occurred" else Message(err),
                          None, None, None, None, None, None);
    var withApi := if err.ApiErr? then base.(statusCode := Some(err.api.statusCode), code := Some(err.api.code), errors := err.api.errors) else base;
    if env == Development then withApi.(stack := Some(stack)) else withApi
  }

  /** For an error with a name and a message, sanitizing gives the record `logError` logs without context. */
  lemma SanitizeAgreesWithLogError(err: Thrown, env: NodeEnv, stack: string)
    requires Name(err) != "" && Message(err) != ""
    ensures SanitizeError(err, env, stack) == LogError(err, None, env, stack)
  {
  }

  /** `sanitizeRequest(req)`: the request without its body and headers. */
  function SanitizeRequest(req: Request): (r: RequestLog)
    ensures r.body == None && r.headers == None
    ensures r.verb == req.verb && r.path == req.path && r.params == req.params && r.query == req.query
    ensures r.ip == req.ip && r.userId == req.userId
  {
    RequestLog(req.verb, req.path, req.params, req.query, None, None, req.ip, req.userId)
  }

  /** Outside development, a request with a falsy body is logged exactly as `sanitizeRequest` would render it. */
  lemma ProductionRequestIsSanitized(err: Thrown, req: Request, env: NodeEnv, stack: string)
    requires env != Development
    requires req.body.None? || !Truthy(req.body.value)
    ensures LogAndForward(err, req, env, stack).0.request == Some(SanitizeRequest(req))
  {
  }
}
