/**
 * The two error families of the service: the `ApplicationError` hierarchy
 * (src/utils/errors.ts) thrown by services and controllers, and `ApiError`
 * with its static factories and `toJSON` (src/utils/api-error.ts).
 */
module Errors {
  import opened Wrappers

  /** The value of NODE_ENV, as far as the source distinguishes it. */
  datatype NodeEnv = Development | Production | OtherEnv

  type ErrorMap = map<string, string>

  /**
   * An instance of `ApplicationError` or of one of its subclasses; `name`
   * tells which class built it. Only `ValidationError` carries `errors`.
   */
  datatype ApplicationError = ApplicationError(
    name: string,
    message: string,
    statusCode: int,
    errors: Option<ErrorMap>)

  /** `new ApplicationError(message, statusCode?)`. */
  function NewApplicationError(message: string, statusCode: Option<int>): (e: ApplicationError)
    ensures e.name == "ApplicationError" && e.message == message && e.errors == None
    ensures statusCode == None ==> e.statusCode == 500
    ensures statusCode != None ==> e.statusCode == statusCode.value
  {
    ApplicationError("ApplicationError", message, statusCode.GetOr(500), None)
  }

  /** `new ValidationError(message, errors)`: always a 400 carrying the given map. */
  function NewValidationError(message: string, errors: ErrorMap): (e: ApplicationError)
    ensures e.name == "ValidationError" && e.message == message
    ensures e.statusCode == 400 && e.errors == Some(errors)
  {
    var base := NewApplicationError(message, Some(400));
    base.(name := "ValidationError", errors := Some(errors))
  }

  /** `new AuthenticationError(message?)`. */
  function NewAuthenticationError(message: Option<string>): (e: ApplicationError)
    ensures e.name == "AuthenticationError" && e.statusCode == 401 && e.errors == None
    ensures e.message == message.GetOr("Authentication required")
  {
    NewApplicationError(message.GetOr("Authentication required"), Some(401)).(name := "AuthenticationError")
  }

  /** `new AuthorizationError(message?)`. */
  function NewAuthorizationError(message: Option<string>): (e: ApplicationError)
    ensures e.name == "AuthorizationError" && e.statusCode == 403 && e.errors == None
    ensures e.message == message.GetOr("Access denied")
  {
    NewApplicationError(message.GetOr("Access denied"), Some(403)).(name := "AuthorizationError")
  }

  /** An `ApiError`; its `name` is always "ApiError". */
  datatype ApiError = ApiError(statusCode: int, message: string, code: string, errors: Option<ErrorMap>)

  /** `new ApiError(statusCode, message, code?, errors?)`. */
  function NewApiError(statusCode: int, message: string, code: Option<string>, errors: Option<ErrorMap>): (e: ApiError)
    ensures e.statusCode == statusCode && e.message == message && e.errors == errors
    ensures code == None ==> e.code == "API_ERROR"
    ensures code != None ==> e.code == code.value
  {
    ApiError(statusCode, message, code.GetOr("API_ERROR"), errors)
  }

  function BadRequest(message: string, code: Option<string>, errors: Option<ErrorMap>): (e: ApiError)
    ensures e.statusCode == 400 && e.message == message && e.errors == errors
    ensures e.code == code.GetOr("BAD_REQUEST")
  {
    NewApiError(400, message, Some(code.GetOr("BAD_REQUEST")), errors)
  }

  function Unauthorized(message: Option<string>, code: Option<string>): (e: ApiError)
    ensures e.statusCode == 401 && e.errors == None
    ensures e.message == message.GetOr("Unauthorized") && e.code == code.GetOr("UNAUTHORIZED")
  {
    NewApiError(401, message.GetOr("Unauthorized"), Some(code.GetOr("UNAUTHORIZED")), None)
  }

  function Forbidden(message: Option<string>, code: Option<string>): (e: ApiError)
    ensures e.statusCode == 403 && e.errors == None
    ensures e.message == message.GetOr("Forbidden") && e.code == code.GetOr("FORBIDDEN")
  {
    NewApiError(403, message.GetOr("Forbidden"), Some(code.GetOr("FORBIDDEN")), None)
  }

  function NotFound(message: Option<string>, code: Option<string>): (e: ApiError)
    ensures e.statusCode == 404 && e.errors == None
    ensures e.message == message.GetOr("Resource not found") && e.code == code.GetOr("NOT_FOUND")
  {
    NewApiError(404, message.GetOr("Resource not found"), Some(code.GetOr("NOT_FOUND")), None)
  }

  function MethodNotAllowed(message: Option<string>, code: Option<string>): (e: ApiError)
    ensures e.statusCode == 405 && e.errors == None
    ensures e.message == message.GetOr("Method not allowed") && e.code == code.GetOr("METHOD_NOT_ALLOWED")
  {
    NewApiError(405, message.GetOr("Method not allowed"), Some(code.GetOr("METHOD_NOT_ALLOWED")), None)
  }

  function Conflict(message: Option<string>, code: Option<string>, errors: Option<ErrorMap>): (e: ApiError)
    ensures e.statusCode == 409 && e.errors == errors
    ensures e.message == message.GetOr("Conflict") && e.code == code.GetOr("CONFLICT")
  {
    NewApiError(409, message.GetOr("Conflict"), Some(code.GetOr("CONFLICT")), errors)
  }

  function UnprocessableEntity(message: Option<string>, code: Option<string>, errors: Option<ErrorMap>): (e: ApiError)
    ensures e.statusCode == 422 && e.errors == errors
    ensures e.message == message.GetOr("Unprocessable Entity") && e.code == code.GetOr("UNPROCESSABLE_ENTITY")
  {
    NewApiError(422, message.GetOr("Unprocessable Entity"), Some(code.GetOr("UNPROCESSABLE_ENTITY")), errors)
  }

  function TooManyRequests(message: Option<string>, code: Option<string>): (e: ApiError)
    ensures e.statusCode == 429 && e.errors == None
    ensures e.message == message.GetOr("Too many requests") && e.code == code.GetOr("TOO_MANY_REQUESTS")
  {
    NewApiError(429, message.GetOr("Too many requests"), Some(code.GetOr("TOO_MANY_REQUESTS")), None)
  }

  function Internal(message: Option<string>, code: Option<string>): (e: ApiError)
    ensures e.statusCode == 500 && e.errors == None
    ensures e.message == message.GetOr("Internal server error") && e.code == code.GetOr("INTERNAL_SERVER_ERROR")
  {
    NewApiError(500, message.GetOr("Internal server error"), Some(code.GetOr("INTERNAL_SERVER_ERROR")), None)
  }

  /** The object `toJSON` builds; absent optional members are None. */
  datatype ApiErrorJson = ApiErrorJson(
    status: string,
    statusCode: int,
    code: string,
    message: string,
    errors: Option<ErrorMap>,
    stack: Option<string>)

  /** `error.toJSON()`; `stack` is the error's captured stack trace. */
  function ToJson(e: ApiError, env: NodeEnv, stack: string): (j: ApiErrorJson)
    ensures j.status == "error" && j.statusCode == e.statusCode && j.code == e.code && j.message == e.message
    ensures j.errors == e.errors
    ensures j.stack.Some? <==> env == Development
    ensures j.stack.Some? ==> j.stack.value == stack
  {
    ApiErrorJson("error", e.statusCode, e.code, e.message, e.errors,
                 if env == Development then Some(stack) else None)
  }
}
