# Permit portal backend — a Dafny model

This project models the core of a municipal permit portal backend. Citizens
register, log in and keep a profile. They create permit applications, attach
documents and follow each application through its statuses. Staff verify the
documents. The service is an Express application over PostgreSQL, with S3 for
stored files, SMTP for mail, bcrypt for password hashes and JWT for sessions.

The model keeps the behaviour the service's own code fixes:

- the SQL statements it runs, as operations on abstract tables;
- the BEGIN / COMMIT / ROLLBACK structure of every write handler;
- the order in which it calls storage, the database and the mailer;
- the decision tables that turn an error into an HTTP answer;
- the redaction rules of its error log;
- the request gates and the rules of the validation schemas. Where a schema declares its keys at the wrong level, the gap is recorded under "## Findings".

Modules, one per component of the service:

| module | file | models |
|---|---|---|
| `Wrappers` | wrappers.dfy | `Option` and `Result` |
| `Text` | text.dfy | string helpers: search, split, join |
| `Domain` | domain.dfy | the enumerations of src/types, JSON values and the table rows |
| `Errors` | errors.dfy | `ApplicationError` and its subclasses, `ApiError`, its factories and `toJSON` |
| `Failures` | failures.dfy | what a handler can catch, and the `errors[key] = message` fold over Joi details |
| `ErrorMiddleware` | error_middleware.dfy | `errorHandler`, `createErrorResponse`, `isOperationalError` |
| `ErrorUtils` | error_utils.dfy | the static mappers of `ErrorUtils` |
| `ErrorLogger` | error_logger.dfy | `errorLogger`, `logError`, `sanitizeError`, `sanitizeRequest` |
| `Validation` | validation.dfy | the shared rules, `validateSchema` and every Joi schema, as predicates |
| `Gates` | gates.dfy | `authMiddleware`, `requireRole`, `fileFilter` and its limits, `validateRequest` |
| `Http` | http.dfy | controller responses and the shared catch block |
| `Storage` | storage.dfy | the URL and key helpers of the storage service, and the bucket as a class |
| `Store` | store.dfy | the five tables, a `Database` class with BEGIN / COMMIT / ROLLBACK, and one method per SQL statement |
| `Notifications` | notifications.dfy | `sendNotification`, the preference rule and the template table |
| `Applications` | applications.dfy | the five handlers of the application controller |
| `Documents` | documents.dfy | the document service |
| `Users` | users.dfy | the user service |
| `Auth` | auth.dfy | registration and login |

How the outside world appears in the model:

- **The database.** `Store.Database` holds the tables and the copy BEGIN
  takes. ROLLBACK restores that copy when a transaction is open. Outside a
  transaction it does nothing, as in PostgreSQL.
- **Failures.** A request's statements and storage calls are numbered in the
  order they run. A `Faults` value names the call that throws, if any. It
  also supplies the fresh uuids and the locations S3 reports. Each handler's
  contract states its outcome for every choice of failing call.
- **Libraries.** bcrypt and JWT are function parameters: `compare`,
  `hashWithSalt`, `sign` and `verify`. Joi's `email()` and `uuid()` are the
  parameters `emailOk` and `uuidOk`. A schema's `validate` is a parameter
  returning passed, failed or threw.
- **Stateful services.** The bucket is the class `Storage.ObjectStore`, a set
  of keys. The mailer is the class `Notifications.Mailer`, the list of mails
  sent.

## Model

| member | source | states |
|---|---|---|
| Errors.NewApplicationError | src/utils/errors.ts:1-9 | name "ApplicationError", the given message, status 500 unless one is given |
| Errors.NewValidationError | src/utils/errors.ts:11-19 | always 400, carrying exactly the given errors map |
| Errors.NewAuthenticationError | src/utils/errors.ts:21-26 | 401, message "Authentication required" unless one is given |
| Errors.NewAuthorizationError | src/utils/errors.ts:28-33 | 403, message "Access denied" unless one is given |
| Errors.NewApiError | src/utils/api-error.ts:7-20 | keeps status, message and errors; code defaults to "API_ERROR" |
| Errors.BadRequest | src/utils/api-error.ts:24-30 | 400, passes the errors map through, code defaults to "BAD_REQUEST", no default message |
| Errors.Unauthorized | src/utils/api-error.ts:32-37 | 401, no errors map, default message and code "Unauthorized" / "UNAUTHORIZED" |
| Errors.Forbidden | src/utils/api-error.ts:39-44 | 403, no errors map, defaults "Forbidden" / "FORBIDDEN" |
| Errors.NotFound | src/utils/api-error.ts:46-51 | 404, no errors map, defaults "Resource not found" / "NOT_FOUND" |
| Errors.MethodNotAllowed | src/utils/api-error.ts:53-58 | 405, no errors map, defaults "Method not allowed" / "METHOD_NOT_ALLOWED" |
| Errors.Conflict | src/utils/api-error.ts:60-66 | 409, passes the errors map through, defaults "Conflict" / "CONFLICT" |
| Errors.UnprocessableEntity | src/utils/api-error.ts:68-74 | 422, passes the errors map through, defaults "Unprocessable Entity" / "UNPROCESSABLE_ENTITY" |
| Errors.TooManyRequests | src/utils/api-error.ts:76-81 | 429 (section 4 of RFC 6585), no errors map, defaults "Too many requests" / "TOO_MANY_REQUESTS" |
| Errors.Internal | src/utils/api-error.ts:83-88 | 500, no errors map, defaults "Internal server error" / "INTERNAL_SERVER_ERROR" |
| Errors.ToJson | src/utils/api-error.ts:91-100 | status "error" with the error's status, code, message and errors; a stack exactly in development |
| Failures.StripWrappers | src/middleware/validate.middleware.ts:27-29 | no element of the result is "body", "query" or "params", and a path without them comes back unchanged |
| Failures.StripKeepsOthers | src/middleware/validate.middleware.ts:27-29 | every element other than a wrapper is kept exactly as often as it occurs in the path |
| Failures.StripConcat | src/middleware/validate.middleware.ts:27-29 | stripping a concatenation strips each part, so the kept elements stay in their order |
| Failures.ErrorsByKeyLastWins | src/middleware/validate.middleware.ts:26-31 | the keys are exactly the details' keys, and each key holds the message of the last detail with that key |
| Failures.CollectErrors | src/utils/validation.utils.ts:71-73 | the `forEach` loop builds the same dictionary as the last-wins fold |
| ErrorMiddleware.DatabaseErrorResponse | src/middleware/error.middleware.ts:68-103 | 23505 gives 409 DUPLICATE_ENTRY; 23503, 23502 and 22P02 give 400 with their own codes; any other SQLSTATE gives 500 DATABASE_ERROR |
| ErrorMiddleware.ErrorHandler | src/middleware/error.middleware.ts:7-176 | first match wins: an ApiError answers with its own fields; Joi gives 400 keyed by dotted path; a DatabaseError goes through the SQLSTATE table; token and multer errors by name; otherwise 500, generic in production, with a stack only in development |
| ErrorMiddleware.ByName | src/middleware/error.middleware.ts:107-175 | the name branches: 401 INVALID_TOKEN, 401 TOKEN_EXPIRED, 400 with the multer message or "File upload failed", 500 STORAGE_ERROR, 429, then the generic 500 |
| ErrorMiddleware.ApplicationErrorsBecomeInternal | src/middleware/error.middleware.ts:30-175 | an `ApplicationError` of any subclass, whatever its status, is answered 500 INTERNAL_SERVER_ERROR |
| ErrorMiddleware.CreateErrorResponse | src/middleware/error.middleware.ts:189-204 | status "error", the given code, message and errors; data only when truthy; a stack exactly in development; the status code never appears |
| ErrorMiddleware.OperationalMeansClientError | src/middleware/error.middleware.ts:207-220 | for ApiError and Joi errors, operational holds exactly when the handler answers below 500 |
| ErrorMiddleware.DatabaseOperationalIgnoresCode | src/middleware/error.middleware.ts:211-214 | a unique violation answered 409 is not operational, and an unknown code answered 500 is operational when its message reads "23505" |
| ErrorMiddleware.OperationalByCodeMeansClientError | src/middleware/error.middleware.ts:211-214 | with the code compared instead, operational holds exactly when the answer is below 500, for DatabaseErrors too, whatever the message |
| ErrorMiddleware.MulterLookupMisses | src/middleware/error.middleware.ts:123-138 | a multer error, whose message is readable text, always gets the fallback "File upload failed" |
| ErrorMiddleware.MulterCodesAnsweredApart | src/middleware/error.middleware.ts:123-138 | looked up by code, each listed limit gets its own message and never the fallback; an unlisted code gets the fallback |
| ErrorUtils.HandleValidationError | src/utils/error-utils.ts:6-19 | 400 VALIDATION_ERROR, "Validation error", errors keyed by dotted path, last detail wins |
| ErrorUtils.HandleDatabaseError | src/utils/error-utils.ts:21-47 | only 23505 (409) and 23503 (400) are told apart; every other code is 500 DATABASE_ERROR |
| ErrorUtils.DatabaseMappersDiffer | src/utils/error-utils.ts:21-47 | the two SQLSTATE tables agree on every code except 23502 and 22P02, which get 500 here and 400 in the handler |
| ErrorUtils.HandleAuthenticationError | src/utils/error-utils.ts:49-55 | 401 AUTHENTICATION_ERROR with the error's message, or "Authentication failed" when it is empty or missing |
| ErrorUtils.HandleFileUploadError | src/utils/error-utils.ts:57-73 | 400 FILE_UPLOAD_ERROR, message looked up by `error.code`, fallback "File upload failed" |
| ErrorUtils.UploadTablesDiffer | src/utils/error-utils.ts:57-73 | this table has one key more than the handler's (LIMIT_PART_COUNT), and every shared key is worded differently |
| ErrorUtils.OperationalTestsCompared | src/utils/error-utils.ts:75-80 | what this test calls operational the handler's test does too; a Joi error is operational only for the handler |
| ErrorUtils.HandleError | src/utils/error-utils.ts:82-90 | logs at warn exactly for an ApiError below 500, at error otherwise |
| ErrorUtils.WarnedErrorsAreAnsweredBelow500 | src/utils/error-utils.ts:82-90 | an error logged at warn is answered below 500 by the handler; an unhandled one logged at error is answered 500 |
| ErrorLogger.RecordedHeaders | src/middleware/error-logger.middleware.ts:41-44 | every header is kept, and authorization becomes "[REDACTED]" when present and non-empty, undefined otherwise |
| ErrorLogger.ErrorDetailsOf | src/middleware/error-logger.middleware.ts:31-56 | the name and message of the error, a stack exactly in development, the ApiError fields copied, the request body and redacted headers |
| ErrorLogger.DevelopmentLog | src/middleware/error-logger.middleware.ts:59-70 | cookie and authorization forced to "[REDACTED]", every other header and the body kept, nothing else changed |
| ErrorLogger.ProductionLog | src/middleware/error-logger.middleware.ts:71-83 | no headers, no stack, a truthy body replaced by "[REDACTED]" and a falsy one dropped, the error fields kept |
| ErrorLogger.LogAndForward | src/middleware/error-logger.middleware.ts:25-86 | `next` receives the same error, and the record names it |
| ErrorLogger.LoggedRequestIsRedacted | src/middleware/error-logger.middleware.ts:41-83 | in every environment a logged authorization header is the placeholder; outside development no headers, stack or body content are logged; in development the stack and the body are |
| ErrorLogger.LogError | src/middleware/error-logger.middleware.ts:89-114 | name, message and context of the error, its ApiError fields, a stack exactly in development, no request |
| ErrorLogger.SanitizeError | src/middleware/error-logger.middleware.ts:117-135 | an empty name becomes "UnknownError" and an empty message "An unknown error occurred"; otherwise as `logError` |
| ErrorLogger.SanitizeAgreesWithLogError | src/middleware/error-logger.middleware.ts:117-135 | for an error with a name and a message, sanitizing gives what `logError` logs without context |
| ErrorLogger.SanitizeRequest | src/middleware/error-logger.middleware.ts:138-148 | method, path, params, query, ip and user id, and never the body or headers |
| ErrorLogger.ProductionRequestIsSanitized | src/middleware/error-logger.middleware.ts:71-83 | outside development, a request with a falsy body is logged exactly as `sanitizeRequest` renders it |
| Validation.JsLength | src/validations/user.validation.ts:7-8 | the length Joi compares: at least the number of characters and at most twice it, and equal to it exactly when every character lies below U+10000 |
| Validation.PasswordMinIsImplied | src/utils/validation.utils.ts:20-23 | a password passes `min(8)` and the pattern exactly when it passes the pattern: the pattern alone asks for eight characters |
| Validation.PhoneShape | src/utils/validation.utils.ts:29-35 | an accepted phone number has at least ten characters and a '+' only in front |
| Validation.ZipShapes | src/validations/application.validation.ts:17 | a text without a dash is a zip code exactly when it is five digits; `d-e` is one exactly when `d` is five digits and `e` four |
| Validation.PageOrDefault | src/utils/validation.utils.ts:43-45 | page defaults to 1 and is refused below 1 |
| Validation.LimitOrDefault | src/utils/validation.utils.ts:46-49 | limit defaults to 10 and is refused outside 1..100 |
| Validation.MergeOptions | src/utils/validation.utils.ts:58-67 | each option the caller gives wins over the default (abortEarly false, allowUnknown true, stripUnknown true) |
| Validation.MergeOptionsLaws | src/utils/validation.utils.ts:58-67 | no options give the defaults, merging twice is merging once, and every option ends up set |
| Validation.ValidateSchema | src/utils/validation.utils.ts:53-78 | the merged options are passed on; a failure returns only the errors keyed by dotted path, a success only the value |
| Validation.LoginIsLaxer | src/validations/auth.validation.ts:42-57 | every password the register rule accepts passes login, and login also accepts weak ones |
| Validation.ProfileUpdateNeedsPhone | src/validations/user.validation.ts:5-19 | the shared phone rule is required, so an accepted profile update always carries a phone and `.min(1)` never decides |
| Validation.ChangePasswordSchemasAgree | src/validations/user.validation.ts:21-30 | the user schema, through the shared password rule, and the auth schema, with its rules written out, accept the same bodies; an accepted confirmation is a strong password |
| Validation.EnumSetsMatchEntities | src/types/application.types.ts:18-31 | the schema enumerations of type and status are exactly the names of the entity enumerations |
| Validation.ListBoundsMatchPagination | src/validations/application.validation.ts:50-57 | a list query the schema accepts has page and limit within the shared pagination bounds |
| Validation.PagesAreWholeNumbers | src/validations/document.validation.ts:19 | a page count is accepted exactly when it is a whole number of at least 1 |
| Validation.RejectionNeedsNotes | src/validations/document.validation.ts:25-36 | a rejection is accepted exactly when notes are given; a verification needs none |
| Gates.BearerToken | src/middleware/auth.middleware.ts:11 | no header gives no token; a token has no space and follows a space in the header |
| Gates.AuthMiddleware | src/middleware/auth.middleware.ts:5-23 | a missing or empty token gives 401 "No token provided", a failed verification 401 "Invalid token", otherwise the decoded payload passes |
| Gates.SchemeIsIgnored | src/middleware/auth.middleware.ts:11-15 | any scheme word carries the token like "Bearer" (unlike section 2.1 of RFC 6750), and a bare token is refused as missing |
| Gates.RequireRole | src/middleware/auth.middleware.ts:26-38 | 401 without a user, 403 for an unlisted role, and passes exactly when the role is listed |
| Gates.AuthThenRole | src/middleware/auth.middleware.ts:17-36 | behind both gates, an authenticated request passes exactly when its token's role is listed; an empty list refuses everyone |
| Gates.FileFilter | src/middleware/upload.middleware.ts:18-28 | accepts exactly the six listed types; otherwise a 400 `ApplicationError` naming the type |
| Gates.FileFilterIsValidateFileType | src/middleware/upload.middleware.ts:18-28 | the filter agrees with the storage service's type check on the same list |
| Gates.Wrapped | src/middleware/validate.middleware.ts:14-21 | the object handed to the schema holds exactly the body, query and params of the request |
| Gates.ValidateRequest | src/middleware/validate.middleware.ts:5-57 | a throw gives 500; a failure gives 400 with the errors keyed by the unwrapped path and the request untouched; a success replaces body, query and params and calls `next` once |
| Gates.StrippedKeyIgnoresWrapper | src/middleware/validate.middleware.ts:27-29 | the key of a detail does not depend on the wrapper it sits under |
| Gates.TopLevel | src/middleware/validate.middleware.ts:7-21 | the top level of an object schema run with allowUnknown and stripUnknown: it passes exactly when every required key is present, enough declared keys remain and the nested rules accept, and then it keeps the declared members only |
| Gates.WrappedHoldsOnlyWrappers | src/middleware/validate.middleware.ts:14-21 | the object handed to the schema has no member but "body", "query" and "params" |
| Gates.ApplicationSchemasMissTheRequest | src/validations/application.validation.ts:4-65 | run on the wrapped request, createApplication and the id schemas always fail, updateApplication always fails its `.min(1)`, and getApplications passes with the empty object, which has no `query` |
| Gates.NestedSchemaReadsThePart | src/middleware/validate.middleware.ts:14-47 | a schema nested under its wrapper passes exactly when that part passes; validation then replaces the part by its declared members and leaves the other parts unchanged |
| Gates.NestedCreateAcceptsTheBody | src/validations/application.validation.ts:4-36 | nested under `body`, createApplication passes a body that holds `type` and `data` accepted by its rules |
| Http.Caught | src/controllers/application.controller.ts:98-110 | an `ApplicationError` is answered with its own status and message, anything else 500 with the handler's fallback |
| Storage.ParseUrl | src/services/storage.service.ts:94 | a parsed URL has a non-empty scheme that prefixes the input, a non-empty lower-case host without '/', and a path starting with '/' |
| Storage.GetKeyFromUrl | src/services/storage.service.ts:87-112 | a non-http input is the key; a host containing "s3.amazonaws.com" keeps the whole path; another host ending in "amazonaws.com" drops the first segment; anything else, or an unparsable URL, is 400 "Invalid file URL" |
| Storage.HostCaseIgnored | src/services/storage.service.ts:94-104 | the case of the host's letters never changes the key or the error `getKeyFromUrl` gives for an http(s) URL |
| Storage.PathKeys | src/services/storage.service.ts:99-104 | splitting the path and joining from piece 1 or 2 gives the path without its '/' or without its first segment |
| Storage.AcceptedUrlsAreAmazon | src/services/storage.service.ts:114-124 | a URL the extractor accepts has an Amazon host, and `isValidS3Url` holds for it exactly when its path is longer than "/" |
| Storage.GenerateS3Url | src/services/storage.service.ts:126-128 | the URL is https and ends with "/" and the key |
| Storage.RegionalHostHasNoSlash | src/services/storage.service.ts:127 | the generated host has no '/' and ends in "amazonaws.com" |
| Storage.ParseComposed | src/services/storage.service.ts:94 | scheme, "://", host and path parse back into those three parts, the host lower-cased |
| Storage.ParseGenerated | src/services/storage.service.ts:126-128 | a generated URL parses into https, the lower-cased regional host and "/" followed by the key |
| Storage.GenerateThenExtract | src/services/storage.service.ts:101-104 | generating then extracting drops the key's first segment, so a key with a '/' never comes back |
| Storage.ExtnameShape | src/services/storage.service.ts:32 | an extension is empty or a '.' followed by no '.' or '/', and ends the name |
| Storage.UploadKey | src/services/storage.service.ts:32-33 | the key is "documents/" + the uuid + the name's extension |
| Storage.UploadKeyIsBare | src/services/storage.service.ts:90-92 | an upload key is returned unchanged by the extractor |
| Storage.GeneratedUploadKeyLosesPrefix | src/services/storage.service.ts:101-104 | through `generateS3Url`, an upload key comes back without "documents/" |
| Storage.ObjectStore.Upload | src/services/storage.service.ts:30-58 | adds exactly the new key and reports location, key and bucket, or throws 500 "Failed to upload file" and adds nothing |
| Storage.ObjectStore.Delete | src/services/storage.service.ts:60-72 | removes exactly the key (an absent key succeeds), or throws 500 "Failed to delete file" and removes nothing |
| Store.FindApplication | src/controllers/application.controller.ts:248-251 | a row with both the id and the owner, or None exactly when there is none |
| Store.FindApplicationById | src/services/document.service.ts:23-26 | a row with the id, or None exactly when there is none |
| Store.FindUser | src/services/notification.service.ts:54-57 | a user with the id, whatever the status, or None exactly when there is none |
| Store.FindUserByEmail | src/controllers/auth.controller.ts:92-95 | a user with the address, or None exactly when there is none; while addresses are unique it is the one user who has it |
| Store.Database.Begin | src/controllers/application.controller.ts:31-33 | opens a transaction holding a copy of the tables; its NOW() is later than every stored time |
| Store.Database.Commit | src/controllers/application.controller.ts:71 | closes the transaction and keeps the tables |
| Store.Database.Rollback | src/controllers/application.controller.ts:92-94 | restores BEGIN's copy when a transaction is open, and changes nothing otherwise |
| Store.Database.InsertApplication | src/controllers/application.controller.ts:36-47 | appends exactly one row with a fresh id and the transaction's time |
| Store.Database.InsertDocument | src/controllers/application.controller.ts:58-67 | appends exactly one pending, unverified row with a fresh id |
| Store.Database.UpdateApplication | src/controllers/application.controller.ts:260-269 | only the caller's row with the id changes, and RETURNING gives it |
| Store.Database.InsertHistory | src/controllers/application.controller.ts:272-290 | appends exactly one history row stamped with the transaction's time |
| Store.Database.DeleteDocumentsOf | src/controllers/application.controller.ts:372-375 | removes the application's documents and no other row |
| Store.Database.DeleteHistoryOf | src/controllers/application.controller.ts:378-381 | removes the application's history and no other row |
| Store.Database.DeleteApplication | src/controllers/application.controller.ts:384-387 | removes the caller's row with the id and no other |
| Store.Database.DeleteDocument | src/services/document.service.ts:157 | removes the rows with the id and no other |
| Store.Database.VerifyDocument | src/services/document.service.ts:104-117 | only the rows with the id change: status, verifier, time and metadata |
| Store.Database.InsertUser | src/controllers/auth.controller.ts:37-50 | appends exactly one user with a fresh id |
| Store.Database.UpdateUser | src/services/user.service.ts:47-58 | only the rows with the id change, by COALESCE and the preference merge |
| Store.Database.SetPasswordHash | src/services/user.service.ts:117-124 | only the hash of the rows with the id changes |
| Store.Database.InsertNotification | src/services/notification.service.ts:40-51 | appends one unread row that a ROLLBACK elsewhere does not undo |
| Store.Coalesced | src/controllers/application.controller.ts:260-269 | only the caller's row with the id changes: data and status when given, kept otherwise; ids, owner, type and time never change |
| Store.JsonbSetNotes | src/services/document.service.ts:109-113 | NULL notes give NULL; otherwise the notes under "verificationNotes" and every other stored key kept |
| Store.VerifiedRows | src/services/document.service.ts:104-117 | the rows with the id get the status, time, verifier and new metadata; every other row and every key column is kept |
| Store.MergePreferences | src/services/user.service.ts:52-55 | a NULL stored object stays NULL, a NULL patch changes nothing, otherwise a shallow merge where the patch wins |
| Store.ProfileUpdated | src/services/user.service.ts:47-66 | only the rows with the id change: names and phone when given, preferences merged; id, e-mail, hash, role and status never change |
| Store.PasswordSet | src/services/user.service.ts:117-124 | only the rows with the id change, and only their hash |
| Notifications.NotificationTemplate | src/services/notification.service.ts:98-133 | exactly the created and status-changed types have a template, greeting the user with two lines; the other three throw "not implemented" |
| Notifications.TemplatesShowTheirPayload | src/services/notification.service.ts:103-120 | the created mail shows the type and "draft", the status mail the old and the new status, under their subjects |
| Notifications.OnlyFalseSwitchesMailOff | src/services/notification.service.ts:62-68 | mail is off exactly when the entry under the type's key has `email` false; a missing object or entry leaves it on |
| Notifications.ProfileFlagsNeverSwitchMailOff | src/services/notification.service.ts:62 | the flags a profile update stores are not keyed by notification type, so they never switch a mail off |
| Notifications.Mailer.Send | src/services/notification.service.ts:84-96 | delivers exactly one mail, or throws and delivers none |
| Notifications.Mailed | src/services/notification.service.ts:59-68 | at most one mail, sent exactly when the steps before it succeed and the user wants it |
| Notifications.SendNotification | src/services/notification.service.ts:37-82 | the row is stored first and kept whatever follows; a lookup failure, an unknown user, a missing template or a failed send is thrown to the caller |
| Applications.ArrayOnly | src/controllers/application.controller.ts:52 | only an array in `req.files` reaches the file loop, and then exactly that array |
| Applications.IntendedFiles | src/middleware/upload.middleware.ts:40-46 | the loop's files as intended: none without an upload, the array itself, or every per-field array |
| Applications.RoutedFilesAreSkipped | src/routes/application.routes.ts:17-40 | on the create and update routes, which mount `upload.fields`, the loop sees no file even when multer accepted some |
| Applications.IntendedFilesAreAllFields | src/middleware/upload.middleware.ts:40-46 | the intended list holds every file of every field and nothing else |
| Applications.PendingDocuments | src/controllers/application.controller.ts:53-68 | one pending row per file, typed by its field and located where S3 reported it, with consecutive fresh ids |
| Applications.AttachFile | src/controllers/application.controller.ts:54-67 | one turn of the loop: upload, then insert, or stop at the first of the two that throws |
| Applications.AttachFiles | src/controllers/application.controller.ts:52-69 | without a throw, one row and one object per file; with one, the loop stops there and earlier uploads stay in the bucket |
| Applications.DraftError | src/controllers/application.controller.ts:36-68 | which throw the create transaction sees: an upload failure on an upload call, a query error otherwise |
| Applications.DraftErrorAnswers | src/controllers/application.controller.ts:98-110 | a failed upload is answered 500 "Failed to upload file", any other throw 500 "Failed to create application" |
| Applications.InsertDraft | src/controllers/application.controller.ts:36-47 | appends the caller's application with status draft |
| Applications.StoreDraft | src/controllers/application.controller.ts:31-71 | the transaction commits the draft and its pending documents, or stops at the first throw with BEGIN's copy still held |
| Applications.NotifyCreated | src/controllers/application.controller.ts:74-82 | sends the created notification for the new application with its type and "draft" |
| Applications.CreateSteps | src/controllers/application.controller.ts:29-91 | a throw before COMMIT leaves the transaction open and sends nothing; the notification comes only after COMMIT |
| Applications.CreateApplication | src/controllers/application.controller.ts:22-111 | a throw before COMMIT restores the tables and keeps earlier uploads; after COMMIT the rows stay, and a failed notification still answers 500 |
| Applications.Count | src/controllers/application.controller.ts:152 | the count PostgreSQL reads from an accepted LIMIT or OFFSET is that number |
| Applications.Bound | src/controllers/application.controller.ts:134-155 | `$k` is bound exactly when 1 ≤ k ≤ the number of parameters |
| Applications.BuildListStatement | src/controllers/application.controller.ts:119-155 | the statement selects exactly the caller's rows matching the given filters, and LIMIT and OFFSET bind the last two parameters |
| Applications.Page | src/controllers/application.controller.ts:152 | the rows from position `offset` on, in order: exactly `limit` of them, or as many as remain, or none past the end |
| Applications.NewestFirst | src/controllers/application.controller.ts:151 | the same rows, in strictly falling creation time |
| Applications.RunList | src/controllers/application.controller.ts:157 | every row returned is in the table and selected by the statement; a LIMIT or OFFSET that is negative, fractional or NaN returns nothing |
| Applications.AggregatedDocuments | src/controllers/application.controller.ts:122-130 | the application's documents, or one all-NULL entry when it has none |
| Applications.EntriesCover | src/controllers/application.controller.ts:122-128 | the entries of some rows are the entries of exactly those rows |
| Applications.TotalPages | src/controllers/application.controller.ts:166 | `Math.ceil(count / limit)`: a page count for a positive limit, NaN or Infinity for a zero limit |
| Applications.ListResponse | src/controllers/application.controller.ts:113-184 | 200 exactly when neither query throws, `Number(limit)` is a whole number ≥ 0 and `(Number(page) - 1) * Number(limit)` is a whole number ≥ 0, with `currentPage` the page number even when fractional; otherwise 500 "Failed to fetch applications" |
| Applications.ListResponseAt | src/controllers/application.controller.ts:116-176 | the same answer, with the offset given: 200 exactly when neither query throws and LIMIT and OFFSET are whole numbers ≥ 0 |
| Applications.RunBuiltList | src/controllers/application.controller.ts:119-157 | the built statement returns the page of the caller's matching rows, newest first, or fails on a LIMIT or OFFSET that is negative, fractional or NaN |
| Applications.GetApplications | src/controllers/application.controller.ts:113-184 | the answer of the list handler for `Number(page)` and `Number(limit)`, with page 1 and limit 10 when absent |
| Applications.PageOfNewest | src/controllers/application.controller.ts:149-153 | a page of newest-first rows is the window of the matching rows from `offset` on: exactly `limit` of them or as many as remain, each a matching row of the table, in strictly falling time |
| Applications.ListedPageIsOwnedAndNewestFirst | src/controllers/application.controller.ts:119-176 | a listed page is the window of the caller's matching applications, newest first, from `(page - 1) * limit` on and `limit` long unless they run out; each carries its aggregated documents |
| Applications.TotalIgnoresFilters | src/controllers/application.controller.ts:160-166 | the total and the page count do not depend on the filters: they count all the caller's applications |
| Applications.HasMoreWhenRowsRemain | src/controllers/application.controller.ts:165-174 | with a positive limit the page count covers the total exactly, and for a whole page number `hasMore` holds exactly when rows lie beyond the page |
| Applications.HistoryNewestFirst | src/controllers/application.controller.ts:213-218 | exactly the application's history, newest first |
| Applications.GetApplication | src/controllers/application.controller.ts:186-232 | 404 for an id that is not the caller's; otherwise the row, its documents and its history newest first; 500 when a query throws |
| Applications.CoalescedFindsRevised | src/controllers/application.controller.ts:260-269 | reading the row back after the update gives the checked row with the given data and status, everything else kept |
| Applications.RecordUpdate | src/controllers/application.controller.ts:259-290 | the update and exactly one history row (action "update", old status, `status` or the old one, "Application updated"), with any status accepted |
| Applications.UpdateError | src/controllers/application.controller.ts:259-307 | which throw the update transaction sees: an upload failure on an upload call, a query error otherwise |
| Applications.ReviseApplication | src/controllers/application.controller.ts:259-309 | the update, its history row and the files are committed together, or nothing is and the transaction stays open |
| Applications.UpdateThrownAnswers | src/controllers/application.controller.ts:337-348 | a throw in the check gives 500, a row that is not the caller's 404, and a later throw 500 naming its kind |
| Applications.CheckedOutcome | src/controllers/application.controller.ts:247-309 | once the check finds the row, the update commits exactly when no later call throws |
| Applications.CheckAndRevise | src/controllers/application.controller.ts:247-309 | the ownership check, then the update on the row it found |
| Applications.StoreUpdate | src/controllers/application.controller.ts:243-309 | the update transaction commits the revised row, or stops with BEGIN's copy still held |
| Applications.NotifyStatusChange | src/controllers/application.controller.ts:311-322 | a notification goes out only when a status is given and differs from the old one |
| Applications.UpdateSteps | src/controllers/application.controller.ts:242-330 | a throw before COMMIT sends nothing; after COMMIT the status notification follows |
| Applications.UpdateApplication | src/controllers/application.controller.ts:234-350 | all or nothing in the database; earlier uploads stay; 200 with the revised row, or 500 after COMMIT when the notification throws |
| Applications.DeletionRemovesOnlyTheApplication | src/controllers/application.controller.ts:371-387 | after the three deletes no row has the id or refers to it, and every other row of every table is kept |
| Applications.DeleteSteps | src/controllers/application.controller.ts:357-389 | the ownership check, the three deletes and COMMIT, or a throw with BEGIN's copy still held |
| Applications.DeleteApplication | src/controllers/application.controller.ts:352-416 | 204 and the application gone with its documents and history, or the tables unchanged with 404 or 500; the handler has no access to the bucket, so stored objects remain |
| Documents.MapDocumentRenamesOnly | src/services/document.service.ts:169-181 | the mapping is a bijection between rows and documents: it only renames |
| Documents.UploadMetadata | src/services/document.service.ts:54-59 | original name, type and size, then the caller's keys, which win |
| Documents.CallerMetadataOverridesFileFacts | src/services/document.service.ts:54-59 | caller metadata naming `originalName` or `size` replaces what the upload reported |
| Documents.UploadRefusals | src/services/document.service.ts:23-37 | a missing application is 404 and another user's is 403, both before any object is written |
| Documents.UploadSteps | src/services/document.service.ts:22-61 | the checks, the upload and one pending row with the caller's metadata, or the throw with the upload left in the bucket |
| Documents.UploadDocument | src/services/document.service.ts:13-72 | commits the one new row and returns it mapped, or rolls back, rethrows and keeps any uploaded object |
| Documents.OwnedDocument | src/services/document.service.ts:76-82 | a document with the id whose application belongs to the caller, or None exactly when there is none |
| Documents.OthersDocumentsAreHidden | src/services/document.service.ts:77-80 | a document of another user's application is never found, even by id |
| Documents.GetDocument | src/services/document.service.ts:74-93 | the caller's document with the id, 404 otherwise, and the query error when the query throws |
| Documents.FindDocument | src/services/document.service.ts:114 | a row with the id, or None exactly when there is none |
| Documents.VerifyWithoutNotesClearsMetadata | src/services/document.service.ts:109-116 | without notes the whole metadata becomes NULL; with notes every other key is kept |
| Documents.VerifiedRowFound | src/services/document.service.ts:104-121 | after the update the row with the id is the verified one, and there is none when there was none |
| Documents.VerifyDocument | src/services/document.service.ts:95-132 | any document is verified, owner unchecked, with status, verifier, time and notes; 404 when no row has the id; rolled back on any throw |
| Documents.RowFailureLeavesDanglingRow | src/services/document.service.ts:152-161 | when the row's delete throws after the object's, the row stays while its object is gone |
| Documents.RemoveDocument | src/services/document.service.ts:152-157 | the key from the path, the object's deletion, then the row's; a bad URL, a storage failure or a query failure stops there |
| Documents.DeleteSteps | src/services/document.service.ts:137-159 | the ownership lookup, then the object and the row |
| Documents.DeleteDocument | src/services/document.service.ts:134-167 | only the caller's document goes; the object goes before the row and is not restored by the ROLLBACK |
| Documents.DeleteRemovesOnlyThatDocument | src/services/document.service.ts:157 | a committed delete removes exactly the one document with the id and no other row |
| Users.MapUserDropsOnlyTheHash | src/services/user.service.ts:139-153 | two rows map to the same user exactly when they differ at most in the password hash |
| Users.PreferencesView | src/services/user.service.ts:15-22 | exactly the six keys, each NULL when the stored object or key is missing, otherwise the stored value as text |
| Users.FlagsComeBackAsText | src/services/user.service.ts:15-22 | stored boolean flags never read back as themselves, and a NULL object reads back as six NULLs |
| Users.LiveUser | src/services/user.service.ts:24 | a user with the id that is not deleted, or None exactly when every such user is deleted |
| Users.DeletedUsersAreHiddenFromReads | src/services/user.service.ts:24-30 | a soft-deleted user is hidden from reads although the id-only queries still find the row |
| Users.GetUserById | src/services/user.service.ts:10-37 | the user exactly when a non-deleted one has the id, with the six-key preferences; otherwise 404 "User not found" |
| Users.ProfileUpdateIsIdempotent | src/services/user.service.ts:47-58 | the same update twice is the update once, and it never touches id, e-mail, hash, role or status |
| Users.ProfileRowFound | src/services/user.service.ts:57-70 | after the update the row with the id is the updated one, and there is none when there was none |
| Users.UpdateProfile | src/services/user.service.ts:39-84 | by id alone, so a soft-deleted user is updated too; 404 and rollback when no row has the id |
| Users.ChangePassword | src/services/user.service.ts:86-137 | succeeds exactly when the user exists, the current password matches and neither call throws, storing the new hash; otherwise the user is not found, the password is incorrect or a query failed, and the tables are unchanged |
| Users.ChangedPasswordIsTheCurrentOne | src/services/user.service.ts:113-124 | only the user's own hash changes, and the new password is the one the next change accepts as current |
| Auth.Login | src/controllers/auth.controller.ts:85-145 | 200 with a session exactly when the address is known, the password matches and signing the token does not throw; the same 401 "Invalid credentials" otherwise; 500 when the query or the signing throws |
| Auth.LoginIgnoresStatus | src/controllers/auth.controller.ts:92-127 | a suspended, inactive or soft-deleted user with the right password gets a session |
| Auth.FailedLoginsLookAlike | src/controllers/auth.controller.ts:97-115 | an unknown address and a wrong password get the identical reply |
| Auth.Register | src/controllers/auth.controller.ts:13-83 | a taken address gives 400 and inserts nothing; otherwise one active citizen row holding the hash, and 201 with a token over id, e-mail and role; when signing the token throws, 500 with the row already inserted |
| Auth.RegisterThenLogin | src/controllers/auth.controller.ts:37-127 | logging in after registering gives the same session under 200, and registering the address again is refused |

## Left out

- Logging output: the model keeps what each log record holds, not the logger calls or their text.
- Connection acquire and release on the pool: a failed `connect` is not modelled.
- uuid generation: ids are natural numbers drawn from a counter, and upload uuids come from the `Faults` value.
- Timestamps: NOW() is a counter advanced once per transaction. Only the times that order rows are kept. These are the creation times of applications and history rows, and `verified_at`. The `created_at`, `updated_at` and `last_login_at` of users and documents are not modelled.
- bcrypt and jsonwebtoken: `compare`, `hashWithSalt`, `sign` and `verify` are parameters, and their cryptography is not modelled. A throw from `jwt.sign` is a numbered fault of login and register, but a throw from `genSalt`, `hash` or `compare` is not modelled.
- Joi: `email()`, `uuid()` and `guid()`, date parsing and message interpolation are not modelled. Each schema's rules are a predicate over the part of the request they are meant for. Only the schemas named in the table above carry stated properties. The other schemas are written out as predicates for reference: register, forgotPassword, resetPassword, createApplication, updateApplication, the id schemas and uploadDocument. The stripping of unknown keys is modelled only at the top level of the wrapped request (`Gates.TopLevel`).
- The handlers behind the application schemas: the application schemas declare their keys at the top level, so the model of each handler starts from the request as the corrected, nested schema would let it through (see "## Findings"). The 400 answers of the schemas as written are stated by `Gates.ApplicationSchemasMissTheRequest`. What Express does with the throw of `getApplications` when `req.query` is undefined is not modelled.
- The `->>` text of a JSON array or object: it is the `render` parameter of `Users.PreferencesView`.
- JSON numbers: `JNum` holds integers only, so a fractional number in stored application `data` or in a preference value cannot be expressed.
- The column default of `users.notification_preferences`: it comes from the migrations, which are not part of this model. It is the `defaultPreferences` parameter of `Auth.Register`.
- `getSignedUrl`, `getFileMetadata` and `copyFile` of the storage service: thin wrappers over S3 calls.
- WHATWG URL parsing: a URL is split into scheme, host and path only, and the host is lower-cased in ASCII. Percent-encoding, ports, credentials, queries, fragments, the lower-casing of the scheme and the IDNA processing of non-ASCII hosts are not modelled.
- Multer itself: the model does not enforce the limits or parse the upload. `Applications.RequestFiles` is the value multer leaves in `req.files`. The handlers' `files` parameter is the list `Applications.IntendedFiles` gives (see "## Findings").
- BEGIN, COMMIT and ROLLBACK never throw. A COMMIT throw would end like a throw from the last statement. A ROLLBACK throw, which replaces the caught error, is not modelled.
- Applications.GetApplications: `page` and `limit` are the values of `Number(…)`, kept as exact reals or NaN. Three things are not modelled:
  - Infinity;
  - the rounding of floating-point arithmetic;
  - the text of `limit` as PostgreSQL reads it. The query text itself is bound, so a text such as "1e1" or "10.0" whose number is whole is treated like "10".
- Concurrency between requests: each request runs alone. This covers the race between the duplicate-address check and the insert of `register`.
- The HTML of the mails: a template is a subject, a greeting and its labelled lines.
- The forgot-password and reset-password handlers: only their schemas are modelled.
- Where the service's documentation and its code differ, the model follows the code:
  - a notification failure after COMMIT answers 500 although the rows stay committed;
  - a duplicate registration answers 400;
  - every update appends a history row, and any status may follow any status;
  - deleting an application leaves its stored objects in the bucket;
  - the aggregated documents of an application without any hold one all-NULL entry;
  - the list total ignores the status and type filters;
  - verifying a document checks no ownership;
  - verifying without notes nulls the metadata;
  - the preference flags come back as text;
  - login ignores the user's status;
  - a soft-deleted user can still update the profile and change the password.
- `UserStatus` in src/types/user.types.ts:17 lacks `deleted`, which the user service filters on. The model's status enumeration includes it.

## Findings

| source | as written | input that shows it | evidently intended | confidence | as-written member | corrected member |
|---|---|---|---|---|---|---|
| src/middleware/error.middleware.ts:211-214 | a DatabaseError is operational when its message is one of the four SQLSTATE codes | a DatabaseError with code 23505 and message "duplicate key value violates unique constraint": answered 409, yet not operational | compare the error's code, which the handler's own switch uses | not executed | ErrorMiddleware.DatabaseOperationalIgnoresCode | ErrorMiddleware.OperationalByCodeMeansClientError |
| src/validations/application.validation.ts:4-65 | the application schemas declare `type`, `data`, `status`, `page`, `id` and the rest at the top level, while validate.middleware.ts:14-21 validates `{body, query, params}` with stripUnknown | any POST /applications, GET or DELETE /applications/:id, or PUT /applications/:id: always 400; GET /applications: passes with `{}`, so `req.query` becomes undefined and application.controller.ts:115 throws | nest the keys under `body` or `params`, as the auth, user and document schemas do | not executed | Gates.ApplicationSchemasMissTheRequest | Gates.NestedSchemaReadsThePart |
| src/middleware/error.middleware.ts:123-138 | the multer table is looked up by `err.message` | a MulterError with code LIMIT_FILE_SIZE and message "File too large": answered "File upload failed" | look the table up by `err.code` | not executed | ErrorMiddleware.MulterLookupMisses | ErrorMiddleware.MulterCodesAnsweredApart |
| src/controllers/application.controller.ts:52 | the file loop runs only when `req.files` is an array, while application.routes.ts:19 and :38 mount `upload.fields`, which builds an object of per-field arrays | a POST /applications carrying one `sitePlan` file: the file is accepted by multer, yet it is never uploaded to S3 or recorded as a document | iterate the per-field arrays | not executed | Applications.RoutedFilesAreSkipped | Applications.IntendedFilesAreAllFields |
