/**
 * The Express error handler of src/middleware/error.middleware.ts: a
 * first-match decision table from the kind or name of an error to an HTTP
 * status and an error code, plus `createErrorResponse` and
 * `isOperationalError`. The statuses are those of section 15 of RFC 9110
 * and 429 from section 4 of RFC 6585.
 */
module ErrorMiddleware {
  import opened Domain
  import opened Wrappers
  import opened Errors
  import opened Failures

  /** The JSON body the handler sends; absent members are None. */
  datatype ErrorBody = ErrorBody(
    status: string,
    code: string,
    message: string,
    errors: Option<ErrorMap>,
    data: Option<Json>,
    stack: Option<string>)

  datatype HttpResponse = HttpResponse(httpStatus: int, body: ErrorBody)

  function Reply(httpStatus: int, code: string, message: string): HttpResponse {
    HttpResponse(httpStatus, ErrorBody("error", code, message, None, None, None))
  }

  /** The SQLSTATE switch of the DatabaseError branch (Appendix A of the PostgreSQL documentation). */
  function DatabaseErrorResponse(code: string): (r: HttpResponse)
    ensures code == "23505" ==> r.httpStatus == 409 && r.body.code == "DUPLICATE_ENTRY"
    ensures code == "23503" ==> r.httpStatus == 400 && r.body.code == "FOREIGN_KEY_VIOLATION"
    ensures code == "23502" ==> r.httpStatus == 400 && r.body.code == "NULL_VIOLATION"
    ensures code == "22P02" ==> r.httpStatus == 400 && r.body.code == "INVALID_INPUT"
    ensures code !in {"23505", "23503", "23502", "22P02"} ==> r.httpStatus == 500 && r.body.code == "DATABASE_ERROR"
  {
    if code == "23505" then Reply(409, "DUPLICATE_ENTRY", "Resource already exists")
    else if code == "23503" then Reply(400, "FOREIGN_KEY_VIOLATION", "Referenced resource does not exist")
    else if code == "23502" then Reply(400, "NULL_VIOLATION", "Required field is missing")
    else if code == "22P02" then Reply(400, "INVALID_INPUT", "Invalid input format")
    else Reply(500, "DATABASE_ERROR", "Database operation failed")
  }

  /** The messages of the MulterError branch, looked up by `err.message`. */
  const MulterMessages: map<string, string> := map[
    "LIMIT_FILE_SIZE" := "File size exceeds the allowed limit",
    "LIMIT_FILE_COUNT" := "Too many files uploaded",
    "LIMIT_FIELD_KEY" := "Field name is too long",
    "LIMIT_FIELD_VALUE" := "Field value is too long",
    "LIMIT_FIELD_COUNT" := "Too many fields in form",
    "LIMIT_UNEXPECTED_FILE" := "Unexpected field in form"]

  /** True when the error reaches the generic 500 at the end of the chain. */
  predicate IsUnhandled(err: Thrown) {
    !err.ApiErr? && !err.JoiValidation? && !err.Database? &&
    Name(err) !in {"JsonWebTokenError", "TokenExpiredError", "MulterError", "S3ServiceException", "RateLimitExceeded"}
  }

  /**
   * `errorHandler(err, req, res, next)`: the response for `err` under NODE_ENV
   * `env`, where `stack` is the error's stack trace. Logging is not modelled.
   */
  function ErrorHandler(err: Thrown, env: NodeEnv, stack: string): (r: HttpResponse)
    ensures r.body.status == "error"
    ensures err.ApiErr? ==> r.httpStatus == err.api.statusCode && r.body.code == err.api.code &&
                            r.body.message == err.api.message && r.body.errors == err.api.errors &&
                            r.body.data == Some(JStr(err.api.code))
    ensures !err.ApiErr? ==> r.httpStatus in {400, 401, 409, 429, 500} && r.body.data == None
    ensures err.JoiValidation? ==> r.httpStatus == 400 && r.body.code == "VALIDATION_ERROR" &&
                                   r.body.errors == Some(ErrorsByKey(err.details, DottedKey))
    ensures err.Database? ==> r == DatabaseErrorResponse(err.code)
    ensures !err.ApiErr? && !err.JoiValidation? && !err.Database? && Name(err) == "JsonWebTokenError" ==>
              r.httpStatus == 401 && r.body.code == "INVALID_TOKEN"
    ensures !err.ApiErr? && !err.JoiValidation? && !err.Database? && Name(err) == "TokenExpiredError" ==>
              r.httpStatus == 401 && r.body.code == "TOKEN_EXPIRED"
    ensures !err.ApiErr? && !err.JoiValidation? && !err.Database? && Name(err) == "MulterError" ==>
              r.httpStatus == 400 && r.body.code == "FILE_UPLOAD_ERROR" &&
              r.body.message == (if Message(err) in MulterMessages then MulterMessages[Message(err)] else "File upload failed")
    ensures IsUnhandled(err) ==> r.httpStatus == 500 && r.body.code == "INTERNAL_SERVER_ERROR" &&
                                 r.body.message == (if env == Production then "An unexpected error occurred" else Message(err)) &&
                                 (r.body.stack.Some? <==> env == Development)
    ensures !IsUnhandled(err) ==> r.body.stack == None
  {
    match err
    case ApiErr(a) =>
      HttpResponse(a.statusCode, ErrorBody("error", a.code, a.message, a.errors, Some(JStr(a.code)), None))
    case JoiValidation(_, details) =>
      HttpResponse(400, ErrorBody("error", "VALIDATION_ERROR", "Validation error", Some(ErrorsByKey(details, DottedKey)), None, None))
    case Database(code, _) =>
      DatabaseErrorResponse(code)
    case _ =>
      ByName(Name(err), Message(err), env, stack)
  }

  /** The branches of the handler that test `err.name`, then the generic 500. */
  function ByName(name: string, message: string, env: NodeEnv, stack: string): (r: HttpResponse)
    ensures r.body.status == "error" && r.body.data == None && r.httpStatus in {400, 401, 429, 500}
    ensures name == "JsonWebTokenError" ==> r.httpStatus == 401 && r.body.code == "INVALID_TOKEN"
    ensures name == "TokenExpiredError" ==> r.httpStatus == 401 && r.body.code == "TOKEN_EXPIRED"
    ensures name == "MulterError" ==>
              r.httpStatus == 400 && r.body.code == "FILE_UPLOAD_ERROR" &&
              r.body.message == (if message in MulterMessages then MulterMessages[message] else "File upload failed")
    ensures name == "S3ServiceException" ==> r.httpStatus == 500 && r.body.code == "STORAGE_ERROR"
    ensures name == "RateLimitExceeded" ==> r.httpStatus == 429 && r.body.code == "RATE_LIMIT_EXCEEDED"
    ensures name !in {"JsonWebTokenError", "TokenExpiredError", "MulterError", "S3ServiceException", "RateLimitExceeded"} ==>
              r.httpStatus == 500 && r.body.code == "INTERNAL_SERVER_ERROR" &&
              r.body.message == (if env == Production then "An unexpected error occurred" else message) &&
              (r.body.stack.Some? <==> env == Development)
    ensures name in {"JsonWebTokenError", "TokenExpiredError", "MulterError", "S3ServiceException", "RateLimitExceeded"} ==>
              r.body.stack == None
  {
    if name == "JsonWebTokenError" then Reply(401, "INVALID_TOKEN", "Invalid token")
    else if name == "TokenExpiredError" then Reply(401, "TOKEN_EXPIRED", "Token has expired")
    else if name == "MulterError" then
      Reply(400, "FILE_UPLOAD_ERROR", if message in MulterMessages then MulterMessages[message] else "File upload failed")
    else if name == "S3ServiceException" then Reply(500, "STORAGE_ERROR", "File storage operation failed")
    else if name == "RateLimitExceeded" then Reply(429, "RATE_LIMIT_EXCEEDED", "Too many requests, please try again later")
    else
      HttpResponse(500, ErrorBody("error", "INTERNAL_SERVER_ERROR",
                                  if env == Production then "An unexpected error occurred" else message,
                                  None, None, if env == Development then Some(stack) else None))
  }

  /**
   * The handler knows nothing of `ApplicationError`: every error of that
   * hierarchy, whatever its own status, is answered with a generic 500.
   */
  lemma ApplicationErrorsBecomeInternal(a: ApplicationError, env: NodeEnv, stack: string)
    requires a.name in {"ApplicationError", "ValidationError", "AuthenticationError", "AuthorizationError"}
    ensures ErrorHandler(AppErr(a), env, stack).httpStatus == 500
    ensures ErrorHandler(AppErr(a), env, stack).body.code == "INTERNAL_SERVER_ERROR"
  {
    assert IsUnhandled(AppErr(a));
  }

  /** JavaScript truthiness of a JSON value. */
  predicate Truthy(v: Json) {
    match v
    case JNull => false
    case JBool(b) => b
    case JNum(n) => n != 0
    case JStr(s) => s != ""
    case JArr(_) => true
    case JObj(_) => true
  }

  /**
   * `createErrorResponse(code, message, statusCode = 500, errors?, data?)`;
   * `stack` is the trace of the `Error` it creates. The status code is
   * accepted but never appears in the result.
   */
  function CreateErrorResponse(code: string, message: string, statusCode: Option<int>,
                               errors: Option<ErrorMap>, data: Option<Json>,
                               env: NodeEnv, stack: string): (r: ErrorBody)
    ensures r.status == "error" && r.code == code && r.message == message
    ensures r.errors == errors
    ensures r.data.Some? <==> data.Some? && Truthy(data.value)
    ensures r.data.Some? ==> r.data == data
    ensures r.stack.Some? <==> env == Development
  {
    ErrorBody("error", code, message, errors,
              if data.Some? && Truthy(data.value) then data else None,
              if env == Development then Some(stack) else None)
  }

  /** The SQLSTATEs the source calls operational. */
  const OperationalCodes: set<string> := {"23505", "23503", "23502", "22P02"}

  /** `isOperationalError(error)`; for a DatabaseError it compares the MESSAGE with the SQLSTATE list. */
  predicate IsOperationalError(err: Thrown) {
    match err
    case ApiErr(a) => a.statusCode < 500
    case Database(_, message) => message in OperationalCodes
    case JoiValidation(_, _) => true
    case _ => false
  }

  /** For ApiError and Joi errors, "operational" coincides with a 4xx answer from the handler. */
  lemma OperationalMeansClientError(err: Thrown, env: NodeEnv, stack: string)
    requires err.ApiErr? || err.JoiValidation?
    ensures IsOperationalError(err) <==> ErrorHandler(err, env, stack).httpStatus < 500
  {
  }

  /**
   * For a DatabaseError the two disagree: a unique violation is answered
   * with 409, yet it is not operational unless its message happens to be a
   * SQLSTATE; and a message equal to "23505" makes an unknown code operational
   * although it is answered with 500.
   */
  lemma DatabaseOperationalIgnoresCode(env: NodeEnv, stack: string)
    ensures ErrorHandler(Database("23505", "duplicate key value violates unique constraint"), env, stack).httpStatus == 409
    ensures !IsOperationalError(Database("23505", "duplicate key value violates unique constraint"))
    ensures ErrorHandler(Database("XX000", "23505"), env, stack).httpStatus == 500
    ensures IsOperationalError(Database("XX000", "23505"))
  {
  }

  /**
   * The test as evidently intended: a DatabaseError is operational when its
   * SQLSTATE is one of the four the handler answers with a 4xx.
   */
  predicate IsOperationalByCode(err: Thrown) {
    match err
    case ApiErr(a) => a.statusCode < 500
    case Database(code, _) => code in OperationalCodes
    case JoiValidation(_, _) => true
    case _ => false
  }

  /**
   * With the code compared, "operational" coincides with a 4xx answer for
   * every ApiError, Joi error and DatabaseError, whatever the message.
   */
  lemma OperationalByCodeMeansClientError(err: Thrown, env: NodeEnv, stack: string)
    requires err.ApiErr? || err.JoiValidation? || err.Database?
    ensures IsOperationalByCode(err) <==> ErrorHandler(err, env, stack).httpStatus < 500
    ensures err.Database? ==> (IsOperationalByCode(err) <==> IsOperationalByCode(Database(err.code, "")))
  {
    if err.Database? {
      assert ErrorHandler(err, env, stack) == DatabaseErrorResponse(err.code);
    }
  }

  /**
   * The `message` the multer package gives each of its error codes; the
   * code itself is in `err.code`.
   */
  const MulterLibraryText: map<string, string> := map[
    "LIMIT_PART_COUNT" := "Too many parts",
    "LIMIT_FILE_SIZE" := "File too large",
    "LIMIT_FILE_COUNT" := "Too many files",
    "LIMIT_FIELD_KEY" := "Field name too long",
    "LIMIT_FIELD_VALUE" := "Field value too long",
    "LIMIT_FIELD_COUNT" := "Too many fields",
    "LIMIT_UNEXPECTED_FILE" := "Unexpected field",
    "MISSING_FIELD_NAME" := "Field name missing"]

  /**
   * The multer branch as written looks its table up by `err.message`, so a
   * multer error, whose message is readable text, always gets the
   * fallback "File upload failed".
   */
  lemma MulterLookupMisses(code: string, env: NodeEnv, stack: string)
    requires code in MulterLibraryText
    ensures ErrorHandler(Other("MulterError", MulterLibraryText[code]), env, stack).body.message == "File upload failed"
  {
    assert MulterLibraryText[code] !in MulterMessages;
  }

  /** The multer branch as evidently intended: the table looked up by `err.code`. */
  function MulterReplyByCode(code: string): (r: HttpResponse)
    ensures r.httpStatus == 400 && r.body.code == "FILE_UPLOAD_ERROR"
  {
    Reply(400, "FILE_UPLOAD_ERROR", if code in MulterMessages then MulterMessages[code] else "File upload failed")
  }

  /**
   * Looked up by code, each of the six limits the table lists gets its own
   * message, never the fallback, and only unlisted codes get the fallback.
   */
  lemma MulterCodesAnsweredApart(c1: string, c2: string)
    ensures c1 in MulterMessages ==> MulterReplyByCode(c1).body.message != "File upload failed"
    ensures c1 !in MulterMessages ==> MulterReplyByCode(c1).body.message == "File upload failed"
    ensures c1 in MulterMessages && c2 in MulterMessages && c1 != c2 ==>
              MulterReplyByCode(c1).body.message != MulterReplyByCode(c2).body.message
  {
  }
}
