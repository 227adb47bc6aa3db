/**
 * The static mappers of `ErrorUtils` (src/utils/error-utils.ts): a second,
 * smaller set of error-to-response tables that differs from the Express
 * error handler on SQLSTATEs, on multer codes and on what counts as
 * "operational".
 */
module ErrorUtils {
  import opened Wrappers
  import opened Errors
  import opened Failures
  import opened ErrorMiddleware

  /** `handleValidationError`: fills the dictionary with the dotted paths, then answers 400. */
  method HandleValidationError(details: seq<Detail>) returns (r: HttpResponse)
    ensures r.httpStatus == 400 && r.body.status == "error"
    ensures r.body.code == "VALIDATION_ERROR" && r.body.message == "Validation error"
    ensures r.body.errors == Some(ErrorsByKey(details, DottedKey))
    ensures r.body.data == None && r.body.stack == None
  {
    var errors := CollectErrors(details, DottedKey);
    r := HttpResponse(400, ErrorBody("error", "VALIDATION_ERROR", "Validation error", Some(errors), None, None));
  }

  /** `handleDatabaseError`: only unique and foreign-key violations are told apart. */
  function HandleDatabaseError(code: string): (r: HttpResponse)
    ensures r.body.status == "error" && r.body.errors == None
    ensures code == "23505" ==> r.httpStatus == 409 && r.body.code == "DUPLICATE_ENTRY"
    ensures code == "23503" ==> r.httpStatus == 400 && r.body.code == "FOREIGN_KEY_VIOLATION"
    ensures code != "23505" && code != "23503" ==> r.httpStatus == 500 && r.body.code == "DATABASE_ERROR"
  {
    if code == "23505" then Reply(409, "DUPLICATE_ENTRY", "Resource already exists")
    else if code == "23503" then Reply(400, "FOREIGN_KEY_VIOLATION", "Referenced resource does not exist")
    else Reply(500, "DATABASE_ERROR", "Database operation failed")
  }

  /**
   * The two SQLSTATE tables agree on every code except the not-null
   * violation 23502 and the invalid text representation 22P02, which the
   * Express handler answers with 400 and `ErrorUtils` with 500.
   */
  lemma DatabaseMappersDiffer(code: string)
    ensures HandleDatabaseError(code) == DatabaseErrorResponse(code) <==> code != "23502" && code != "22P02"
    ensures code == "23502" || code == "22P02" ==>
              HandleDatabaseError(code).httpStatus == 500 && DatabaseErrorResponse(code).httpStatus == 400
  {
  }

  /** `handleAuthenticationError`: `error.message`, or the default when it is empty or missing. */
  function HandleAuthenticationError(message: Option<string>): (r: HttpResponse)
    ensures r.httpStatus == 401 && r.body.code == "AUTHENTICATION_ERROR"
    ensures message.Some? && message.value != "" ==> r.body.message == message.value
    ensures message.None? || message.value == "" ==> r.body.message == "Authentication failed"
    ensures r.body.message != ""
  {
    Reply(401, "AUTHENTICATION_ERROR",
          if message.Some? && message.value != "" then message.value else "Authentication failed")
  }

  /** The messages of `handleFileUploadError`, looked up by `error.code`. */
  const UploadMessages: map<string, string> := map[
    "LIMIT_FILE_SIZE" := "File size exceeds limit",
    "LIMIT_FILE_COUNT" := "Too many files",
    "LIMIT_UNEXPECTED_FILE" := "Unexpected field",
    "LIMIT_FIELD_KEY" := "Field name too long",
    "LIMIT_FIELD_VALUE" := "Field value too long",
    "LIMIT_FIELD_COUNT" := "Too many fields",
    "LIMIT_PART_COUNT" := "Too many parts"]

  /** `handleFileUploadError`: always 400; `code` is `error.code` (None when it is missing). */
  function HandleFileUploadError(code: Option<string>): (r: HttpResponse)
    ensures r.httpStatus == 400 && r.body.code == "FILE_UPLOAD_ERROR"
    ensures code.Some? && code.value in UploadMessages ==> r.body.message == UploadMessages[code.value]
    ensures code.None? || code.value !in UploadMessages ==> r.body.message == "File upload failed"
  {
    Reply(400, "FILE_UPLOAD_ERROR",
          if code.Some? && code.value in UploadMessages then UploadMessages[code.value] else "File upload failed")
  }

  /**
   * The two multer tables: `ErrorUtils` knows one code more (LIMIT_PART_COUNT),
   * looks it up by `error.code` where the handler uses `error.message`, and
   * words every message differently.
   */
  lemma UploadTablesDiffer()
    ensures UploadMessages.Keys == MulterMessages.Keys + {"LIMIT_PART_COUNT"}
    ensures forall k :: k in MulterMessages ==> UploadMessages[k] != MulterMessages[k]
  {
  }

  /** `ErrorUtils.isOperationalError`: only an ApiError below 500. */
  predicate UtilsIsOperational(err: Thrown) {
    err.ApiErr? && err.api.statusCode < 500
  }

  /** Every error `ErrorUtils` calls operational the Express handler calls operational too, but not conversely. */
  lemma OperationalTestsCompared(err: Thrown)
    ensures UtilsIsOperational(err) ==> IsOperationalError(err)
    ensures err.JoiValidation? ==> IsOperationalError(err) && !UtilsIsOperational(err)
  {
  }

  datatype LogLevel = Warn | Error

  /** `handleError`: the level at which the error is logged. */
  function HandleError(err: Thrown): (level: LogLevel)
    ensures level == Warn <==> err.ApiErr? && err.api.statusCode < 500
  {
    if UtilsIsOperational(err) then Warn else Error
  }

  /** An error logged as a warning is one the Express handler answers with a 4xx or lower status. */
  lemma WarnedErrorsAreAnsweredBelow500(err: Thrown, env: NodeEnv, stack: string)
    ensures HandleError(err) == Warn ==> ErrorHandler(err, env, stack).httpStatus < 500
    ensures HandleError(err) == Error && !err.ApiErr? && IsUnhandled(err) ==>
              ErrorHandler(err, env, stack).httpStatus == 500
  {
  }
}
