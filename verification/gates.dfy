/**
 * The middleware that lets a request through or answers it early:
 * `authMiddleware` and `requireRole` (src/middleware/auth.middleware.ts),
 * the multer file filter and limits (src/middleware/upload.middleware.ts)
 * and `validateRequest` (src/middleware/validate.middleware.ts).
 */
module Gates {
  import opened Wrappers
  import opened Text
  import opened Domain
  import opened Errors
  import opened Failures
  import opened Storage
  import opened Validation

  /** A middleware's decision: answer with a status and a message, or call `next` with a value. */
  datatype Gate<+T> = Deny(status: int, message: string) | Pass(value: T)

  /** `req.headers.authorization?.split(' ')[1]`: None when the header or the second piece is missing. */
  function BearerToken(header: Option<string>): (token: Option<string>)
    ensures header.None? ==> token.None?
    ensures token.Some? ==> ' ' !in token.value && Contains(header.value, " " + token.value)
  {
    if header.None? then None
    else
      var parts := Split(header.value, ' ');
      if |parts| >= 2 then
        SplitPieces(header.value, ' ');
        Some(parts[1])
      else None
  }

  /**
   * `authMiddleware`; `verify` is `jwt.verify` with the server's secret
   * (None when it throws). On success `req.user` is the decoded payload.
   */
  function AuthMiddleware(header: Option<string>, verify: string -> Option<UserPayload>): (g: Gate<UserPayload>)
    ensures BearerToken(header).None? || BearerToken(header) == Some("") ==> g == Deny(401, "No token provided")
    ensures BearerToken(header).Some? && BearerToken(header).value != "" ==>
              (verify(BearerToken(header).value).None? ==> g == Deny(401, "Invalid token")) &&
              (verify(BearerToken(header).value).Some? ==> g == Pass(verify(BearerToken(header).value).value))
  {
    var token := BearerToken(header);
    if token.None? || token.value == "" then Deny(401, "No token provided")
    else match verify(token.value)
      case None => Deny(401, "Invalid token")
      case Some(user) => Pass(user)
  }

  /**
   * The word before the space is never looked at: any scheme, not only
   * "Bearer" (section 2.1 of RFC 6750), carries the token, and a bare
   * token without a scheme is refused as missing.
   */
  lemma {:induction false} SchemeIsIgnored(scheme: string, token: string, verify: string -> Option<UserPayload>)
    requires ' ' !in scheme && ' ' !in token
    ensures BearerToken(Some(scheme + " " + token)) == Some(token)
    ensures AuthMiddleware(Some(scheme + " " + token), verify) == AuthMiddleware(Some("Bearer " + token), verify)
    ensures AuthMiddleware(Some(token), verify) == Deny(401, "No token provided")
  {
    assert scheme + " " + token == scheme + [' '] + token;
    SplitAt(scheme, ' ', token);
    SplitNone(token, ' ');
    assert ' ' in scheme + " " + token by { assert (scheme + " " + token)[|scheme|] == ' '; }
    assert "Bearer " + token == "Bearer" + [' '] + token;
    SplitAt("Bearer", ' ', token);
    assert ' ' in "Bearer " + token by { assert ("Bearer " + token)[6] == ' '; }
  }

  /** `requireRole(roles)`: 401 without a user, 403 for a role outside the list, otherwise `next`. */
  function RequireRole(user: Option<UserPayload>, roles: seq<string>): (g: Gate<()>)
    ensures user.None? ==> g == Deny(401, "Unauthorized")
    ensures user.Some? && RoleName(user.value.role) !in roles ==> g == Deny(403, "Forbidden")
    ensures g.Pass? <==> user.Some? && RoleName(user.value.role) in roles
  {
    if user.None? then Deny(401, "Unauthorized")
    else if RoleName(user.value.role) !in roles then Deny(403, "Forbidden")
    else Pass(())
  }

  /** An authenticated request reaches the handler behind `requireRole` exactly when its token's role is listed. */
  lemma AuthThenRole(header: Option<string>, verify: string -> Option<UserPayload>, roles: seq<string>)
    requires AuthMiddleware(header, verify).Pass?
    ensures RequireRole(Some(AuthMiddleware(header, verify).value), roles).Pass? <==>
              RoleName(AuthMiddleware(header, verify).value.role) in roles
    ensures roles == [] ==> RequireRole(Some(AuthMiddleware(header, verify).value), roles) == Deny(403, "Forbidden")
  {
  }

  // ---- upload.middleware.ts ----

  const AllowedFileTypes: seq<string> := [
    "application/pdf",
    "image/jpeg",
    "image/png",
    "image/gif",
    "application/msword",
    "application/vnd.openxmlformats-officedocument.wordprocessingml.document"]

  /** Ten mebibytes. */
  const MaxFileSize: nat := 10 * 1024 * 1024

  const MaxFilesPerRequest: nat := 5

  /** The fields of `applicationFiles` with their `maxCount`. */
  const ApplicationFileFields: seq<(string, nat)> := [
    ("constructionPlans", 3),
    ("sitePlan", 1),
    ("propertyDeed", 1),
    ("identification", 1),
    ("other", 5)]

  /** `fileFilter`: accepts a listed MIME type, otherwise hands multer a 400 naming the type. */
  function FileFilter(file: UploadedFile): (r: Result<bool, ApplicationError>)
    ensures r.Ok? ==> r.value
    ensures r.Err? ==> r.error == NewApplicationError("File type " + file.mimetype + " is not supported", Some(400))
    ensures r.Ok? <==> file.mimetype in AllowedFileTypes
  {
    if file.mimetype !in AllowedFileTypes then Err(NewApplicationError("File type " + file.mimetype + " is not supported", Some(400)))
    else Ok(true)
  }

  /** The filter is the storage service's type check against the same list. */
  lemma FileFilterIsValidateFileType(file: UploadedFile)
    ensures FileFilter(file).Ok? <==> ValidateFileType(file, AllowedFileTypes)
  {
  }

  function SumMaxCounts(fields: seq<(string, nat)>): nat {
    if |fields| == 0 then 0 else fields[0].1 + SumMaxCounts(fields[1..])
  }

  /** The limits: ten mebibytes per file, and five files per request although the fields allow eleven. */
  lemma UploadLimits()
    ensures MaxFileSize == 10485760 && MaxFilesPerRequest == 5
    ensures SumMaxCounts(ApplicationFileFields) == 11
    ensures forall i :: 0 <= i < |ApplicationFileFields| ==> ApplicationFileFields[i].1 <= MaxFilesPerRequest
  {
  }

  // ---- validate.middleware.ts ----

  /** The parts of `req` that `validateRequest` reads and overwrites; `next` counts the calls of `next()`. */
  class IncomingRequest {
    var body: Option<Json>
    var query: Option<Json>
    var params: Option<Json>
    var nextCalls: nat

    constructor(body: Option<Json>, query: Option<Json>, params: Option<Json>)
      ensures this.body == body && this.query == query && this.params == params && nextCalls == 0
    {
      this.body := body;
      this.query := query;
      this.params := params;
      nextCalls := 0;
    }
  }

  /** A JSON body sent in reply. */
  datatype Reply = Reply(status: int, message: string, errors: Option<ErrorMap>)

  /** The options `validateRequest` passes to Joi. */
  const RequestOptions: ValidationOptions := ValidationOptions(Some(false), Some(true), Some(true))

  /** `v[key]` on a JSON value: None (undefined) unless `v` is an object holding the key. */
  function Member(v: Json, key: string): (r: Option<Json>)
    ensures r.Some? <==> v.JObj? && key in v.fields
  {
    if v.JObj? && key in v.fields then Some(v.fields[key]) else None
  }

  /** The object `{body, query, params}` handed to the schema; undefined members are left out. */
  function Wrapped(body: Option<Json>, query: Option<Json>, params: Option<Json>): (w: Json)
    ensures w.JObj?
    ensures Member(w, "body") == body && Member(w, "query") == query && Member(w, "params") == params
  {
    var withBody: map<string, Json> := if body.Some? then map["body" := body.value] else map[];
    var withQuery := if query.Some? then withBody["query" := query.value] else withBody;
    JObj(if params.Some? then withQuery["params" := params.value] else withQuery)
  }

  /**
   * `validateRequest(schema)` applied to `req`, where `validate` is the
   * schema's `validate`. It answers 400 with the errors keyed by the path
   * without its wrappers, or 500 when validation throws; otherwise it
   * replaces the three request parts and calls `next` once (None: no reply).
   */
  method ValidateRequest(req: IncomingRequest, validate: (Json, ValidationOptions) -> SchemaOutcome)
    returns (reply: Option<Reply>)
    modifies req
    ensures var outcome := validate(Wrapped(old(req.body), old(req.query), old(req.params)), RequestOptions);
            (outcome.Threw? ==> reply == Some(Reply(500, "Internal server error during validation", None))) &&
            (outcome.Failed? ==> reply == Some(Reply(400, "Validation error", Some(ErrorsByKey(outcome.details, StrippedKey))))) &&
            (!outcome.Passed? ==> req.body == old(req.body) && req.query == old(req.query) &&
                                  req.params == old(req.params) && req.nextCalls == old(req.nextCalls)) &&
            (outcome.Passed? ==> reply == None && req.body == Member(outcome.value, "body") &&
                                 req.query == Member(outcome.value, "query") &&
                                 req.params == Member(outcome.value, "params") &&
                                 req.nextCalls == old(req.nextCalls) + 1)
  {
    var outcome := validate(Wrapped(req.body, req.query, req.params), RequestOptions);
    match outcome {
      case Threw =>
        reply := Some(Reply(500, "Internal server error during validation", None));
      case Failed(details) =>
        var errors := CollectErrors(details, StrippedKey);
        reply := Some(Reply(400, "Validation error", Some(errors)));
      case Passed(value) =>
        req.body := Member(value, "body");
        req.query := Member(value, "query");
        req.params := Member(value, "params");
        req.nextCalls := req.nextCalls + 1;
        reply := None;
    }
  }

  /**
   * Dropping the wrappers merges keys: an error on `body.id` and a later one
   * on `params.id` share the key "id", and only the later message is kept.
   */
  lemma WrapperKeysCollide(m1: string, m2: string)
    ensures ErrorsByKey([Detail(["body", "id"], m1), Detail(["params", "id"], m2)], StrippedKey) == map["id" := m2]
  {
    assert StripWrappers(["body", "id"]) == ["id"] by {
      assert ["body", "id"][1..] == ["id"];
      assert ["id"][1..] == [];
    }
    assert StripWrappers(["params", "id"]) == ["id"] by {
      assert ["params", "id"][1..] == ["id"];
      assert ["id"][1..] == [];
    }
    var ds := [Detail(["body", "id"], m1), Detail(["params", "id"], m2)];
    assert StrippedKey(ds[0]) == "id" && StrippedKey(ds[1]) == "id";
    assert ds[..1] == [Detail(["body", "id"], m1)];
    assert ds[..1][..0] == [];
    assert ErrorsByKey(ds[..1], StrippedKey) == map["id" := m1];
    assert ErrorsByKey(ds, StrippedKey) == ErrorsByKey(ds[..1], StrippedKey)["id" := m2];
  }

  /** The key of a detail does not depend on the wrapper it sits under. */
  lemma {:induction false} StrippedKeyIgnoresWrapper(w: string, path: seq<string>, message: string)
    requires w in {"body", "query", "params"}
    ensures StrippedKey(Detail([w] + path, message)) == StrippedKey(Detail(path, message))
  {
    assert ([w] + path)[1..] == path;
  }

  // ---- the application schemas under validateRequest ----

  /**
   * The top level of a Joi object schema: the keys it declares, the keys
   * it requires, and its `.min(n)` on the number of keys.
   */
  datatype TopSchema = TopSchema(declared: set<string>, required: set<string>, minKeys: nat)

  /** The declared members of a value, which is what `stripUnknown` leaves of it. */
  function Declared(v: Json, keys: set<string>): (m: map<string, Json>)
    ensures forall k :: k in m <==> k in keys && Member(v, k).Some?
    ensures forall k :: k in m ==> Member(v, k) == Some(m[k])
  {
    if v.JObj? then map k | k in v.fields && k in keys :: v.fields[k] else map[]
  }

  /**
   * A Joi object schema run with `allowUnknown` and `stripUnknown`, as far
   * as its top level goes: None (a failure) when a required key is
   * missing, when fewer than `minKeys` declared members remain, or when
   * `nested`, the verdict of the rules on those members, refuses;
   * otherwise the declared members alone.
   */
  function TopLevel(s: TopSchema, v: Json, nested: map<string, Json> -> bool): (r: Option<Json>)
    ensures r.Some? <==> (forall k :: k in s.required ==> Member(v, k).Some?) &&
                         |Declared(v, s.declared)| >= s.minKeys && nested(Declared(v, s.declared))
    ensures r.Some? ==> r.value == JObj(Declared(v, s.declared))
  {
    var kept := Declared(v, s.declared);
    if exists k :: k in s.required && Member(v, k).None? then None
    else if |kept| < s.minKeys || !nested(kept) then None
    else Some(JObj(kept))
  }

  /** The top levels of the application schemas, whose keys are not nested under `body`, `query` or `params`. */
  const CreateApplicationKeys: TopSchema := TopSchema({"type", "data"}, {"type", "data"}, 0)
  const UpdateApplicationKeys: TopSchema := TopSchema({"data", "status"}, {}, 1)
  const GetApplicationsKeys: TopSchema := TopSchema({"page", "limit", "status", "type", "startDate", "endDate"}, {}, 0)
  const ApplicationIdKeys: TopSchema := TopSchema({"id"}, {"id"}, 0)

  /** The object `validateRequest` validates holds nothing but the three wrappers. */
  lemma WrappedHoldsOnlyWrappers(body: Option<Json>, query: Option<Json>, params: Option<Json>, k: string)
    ensures Member(Wrapped(body, query, params), k).Some? ==> IsWrapper(k)
  {
  }

  /** A schema that declares no wrapper keeps nothing of the wrapped request. */
  lemma {:induction false} NothingDeclared(body: Option<Json>, query: Option<Json>, params: Option<Json>, keys: set<string>)
    requires forall k :: k in keys ==> !IsWrapper(k)
    ensures Declared(Wrapped(body, query, params), keys) == map[]
  {
    var m := Declared(Wrapped(body, query, params), keys);
    forall k | k in m
      ensures false
    {
      WrappedHoldsOnlyWrappers(body, query, params, k);
    }
  }

  /**
   * The application schemas as written, run on the wrapped request:
   * createApplication and the id schemas always miss a required key,
   * updateApplication is always left with no key for its `.min(1)`, and
   * getApplications passes with the empty object, whose `query` member is
   * undefined.
   */
  lemma {:induction false} ApplicationSchemasMissTheRequest(body: Option<Json>, query: Option<Json>, params: Option<Json>,
                                                           nested: map<string, Json> -> bool)
    ensures TopLevel(CreateApplicationKeys, Wrapped(body, query, params), nested).None?
    ensures TopLevel(ApplicationIdKeys, Wrapped(body, query, params), nested).None?
    ensures TopLevel(UpdateApplicationKeys, Wrapped(body, query, params), nested).None?
    ensures TopLevel(GetApplicationsKeys, Wrapped(body, query, params), nested) ==
              (if nested(map[]) then Some(JObj(map[])) else None)
    ensures Member(JObj(map[]), "query").None?
  {
    var w := Wrapped(body, query, params);
    WrappedHoldsOnlyWrappers(body, query, params, "type");
    WrappedHoldsOnlyWrappers(body, query, params, "id");
    NothingDeclared(body, query, params, UpdateApplicationKeys.declared);
    NothingDeclared(body, query, params, GetApplicationsKeys.declared);
  }

  /**
   * The evidently intended schema: the same keys nested under the wrapper
   * `w` the handler reads them from, and the other wrappers declared so
   * that the stripping keeps them. Express always supplies the three
   * parts; a missing one is refused.
   */
  function NestedTopLevel(w: string, s: TopSchema, v: Json, nested: map<string, Json> -> bool): (r: Option<Json>)
    requires IsWrapper(w)
  {
    match Member(v, w)
    case None => None
    case Some(part) =>
      match TopLevel(s, part, nested)
      case None => None
      case Some(value) => Some(JObj(Declared(v, {"body", "query", "params"})[w := value]))
  }

  /**
   * Nested under its wrapper, a schema judges the part the handler reads:
   * it passes exactly when that part passes the schema, validation then
   * replaces the part by its declared members, and the other parts come
   * through unchanged.
   */
  lemma NestedSchemaReadsThePart(w: string, s: TopSchema, body: Option<Json>, query: Option<Json>, params: Option<Json>,
                                 nested: map<string, Json> -> bool)
    requires IsWrapper(w)
    ensures var v := Wrapped(body, query, params);
            var r := NestedTopLevel(w, s, v, nested);
            (r.Some? <==> Member(v, w).Some? && TopLevel(s, Member(v, w).value, nested).Some?) &&
            (r.Some? ==> Member(r.value, w) == TopLevel(s, Member(v, w).value, nested) &&
                         forall x :: IsWrapper(x) && x != w ==> Member(r.value, x) == Member(v, x))
  {
  }

  /** Nested under `body`, createApplication passes a body holding `type` and `data` that its rules accept. */
  lemma NestedCreateAcceptsTheBody(fields: map<string, Json>, query: Option<Json>, params: Option<Json>,
                                   nested: map<string, Json> -> bool)
    requires "type" in fields && "data" in fields
    requires nested(map["type" := fields["type"], "data" := fields["data"]])
    ensures NestedTopLevel("body", CreateApplicationKeys, Wrapped(Some(JObj(fields)), query, params), nested).Some?
  {
    var kept := Declared(JObj(fields), CreateApplicationKeys.declared);
    assert kept == map["type" := fields["type"], "data" := fields["data"]];
  }
}
