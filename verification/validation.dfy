/**
 * The request schemas of the service as predicates: the shared rules of
 * src/utils/validation.utils.ts (password, phone, pagination,
 * `validateSchema`) and the Joi schemas of src/validations. A field that
 * is absent is None; a present `Joi.string()` must be non-empty. Joi's
 * `email()`, `uuid()`/`guid()` and date parsing are the parameters
 * `emailOk`, `uuidOk` and dates in milliseconds; numbers are reals, as in
 * JavaScript.
 */
module Validation {
  import opened Wrappers
  import opened Domain
  import opened Errors
  import opened Failures

  // ---- character classes of the patterns ----

  predicate IsLower(c: char) { 'a' <= c <= 'z' }
  predicate IsUpper(c: char) { 'A' <= c <= 'Z' }
  predicate IsDigit(c: char) { '0' <= c <= '9' }
  predicate IsSpecial(c: char) { c in {'@', '$', '!', '%', '*', '?', '&'} }

  /** `\s` of a JavaScript regular expression (the WhiteSpace and LineTerminator code points of ECMA-262). */
  predicate IsJsSpace(c: char) {
    c in {'\t', '\n', '\U{000B}', '\U{000C}', '\r', ' ', '\U{00A0}', '\U{1680}', '\U{2028}', '\U{2029}',
          '\U{202F}', '\U{205F}', '\U{3000}', '\U{FEFF}'} ||
    '\U{2000}' <= c <= '\U{200A}'
  }

  /**
   * `value.length` in JavaScript, which Joi's `min`, `max` and `length`
   * compare with: UTF-16 code units, two for a character beyond U+FFFF.
   */
  function JsLength(s: string): (n: nat)
    ensures |s| <= n <= 2 * |s|
    ensures n == |s| <==> forall i :: 0 <= i < |s| ==> s[i] as int < 0x1_0000
  {
    if |s| == 0 then 0
    else
      var n := (if s[0] as int < 0x1_0000 then 1 else 2) + JsLength(s[1..]);
      assert forall i :: 1 <= i < |s| ==> s[i] == s[1..][i - 1];
      n
  }

  /** A present `Joi.string()`: Joi refuses the empty string. */
  predicate NonEmpty(s: Option<string>) { s.None? || s.value != "" }

  /** A `Joi.string().required()`. */
  predicate Required(s: Option<string>) { s.Some? && s.value != "" }

  /**
   * The password pattern: at least eight characters, each a letter, a digit
   * or one of "@$!%*?&", with at least one lower-case letter, one
   * upper-case letter, one digit and one special character.
   */
  predicate StrongPassword(s: string) {
    |s| >= 8 &&
    (exists i :: 0 <= i < |s| && IsLower(s[i])) &&
    (exists i :: 0 <= i < |s| && IsUpper(s[i])) &&
    (exists i :: 0 <= i < |s| && IsDigit(s[i])) &&
    (exists i :: 0 <= i < |s| && IsSpecial(s[i])) &&
    (forall i :: 0 <= i < |s| ==> IsLower(s[i]) || IsUpper(s[i]) || IsDigit(s[i]) || IsSpecial(s[i]))
  }

  /** `commonValidations.password` and the register/reset/change password fields: required, min(8) and the pattern. */
  predicate PasswordRule(s: Option<string>) {
    Required(s) && JsLength(s.value) >= 8 && StrongPassword(s.value)
  }

  /** The `.min(8)` adds nothing: the pattern alone already asks for eight characters. */
  lemma PasswordMinIsImplied(s: Option<string>)
    ensures PasswordRule(s) <==> Required(s) && StrongPassword(s.value)
  {
  }

  predicate PhoneChar(c: char) { IsDigit(c) || IsJsSpace(c) || c == '-' || c == '(' || c == ')' }

  predicate PhoneBody(s: string) { |s| >= 10 && forall i :: 0 <= i < |s| ==> PhoneChar(s[i]) }

  /** The phone pattern: an optional leading '+', then at least ten digits, spaces, '-', '(' or ')'. */
  predicate PhonePattern(s: string) {
    PhoneBody(s) || (|s| >= 1 && s[0] == '+' && PhoneBody(s[1..]))
  }

  /** `commonValidations.phone` and the register phone field. */
  predicate PhoneRule(s: Option<string>) {
    Required(s) && PhonePattern(s.value)
  }

  /** A phone number has at least ten characters and a '+' only in front. */
  lemma PhoneShape(s: string)
    requires PhonePattern(s)
    ensures |s| >= 10
    ensures forall i :: 0 < i < |s| ==> s[i] != '+'
  {
    if !PhoneBody(s) {
      forall i | 0 < i < |s| ensures s[i] != '+' {
        assert s[1..][i - 1] == s[i];
      }
    }
  }

  /** The zip code pattern: five digits, optionally followed by '-' and four digits. */
  predicate ZipPattern(s: string) {
    (|s| == 5 || (|s| == 10 && s[5] == '-' && forall i :: 6 <= i < 10 ==> IsDigit(s[i]))) &&
    forall i :: 0 <= i < 5 ==> IsDigit(s[i])
  }

  /** A run of exactly `n` decimal digits. */
  predicate Digits(s: string, n: nat) {
    |s| == n && forall i :: 0 <= i < n ==> IsDigit(s[i])
  }

  /**
   * The two shapes the zip pattern `^\d{5}(-\d{4})?$` admits: a text
   * without a dash matches exactly when it is five digits, and a text
   * `d-e` split at a dash matches exactly when `d` is five digits and `e`
   * four.
   */
  lemma ZipShapes(s: string, d: string, e: string)
    ensures (forall i :: 0 <= i < |s| ==> s[i] != '-') ==> (ZipPattern(s) <==> Digits(s, 5))
    ensures ZipPattern(d + "-" + e) <==> Digits(d, 5) && Digits(e, 4)
  {
    var t := d + "-" + e;
    assert t[|d|] == '-';
    assert forall i :: 0 <= i < |d| ==> t[i] == d[i];
    assert forall i :: 0 <= i < |e| ==> t[|d| + 1 + i] == e[i];
  }

  /** `commonValidations.pagination.page`: at least 1, 1 when absent. */
  function PageOrDefault(page: Option<real>): (r: Option<real>)
    ensures page.None? ==> r == Some(1.0)
    ensures page.Some? && page.value >= 1.0 ==> r == page
    ensures page.Some? && page.value < 1.0 ==> r.None?
  {
    if page.None? then Some(1.0) else if page.value >= 1.0 then page else None
  }

  /** `commonValidations.pagination.limit`: between 1 and 100, 10 when absent. */
  function LimitOrDefault(limit: Option<real>): (r: Option<real>)
    ensures limit.None? ==> r == Some(10.0)
    ensures limit.Some? && 1.0 <= limit.value <= 100.0 ==> r == limit
    ensures limit.Some? && !(1.0 <= limit.value <= 100.0) ==> r.None?
  {
    if limit.None? then Some(10.0) else if 1.0 <= limit.value <= 100.0 then limit else None
  }

  // ---- validateSchema ----

  /** Joi validation options; a None member is one the object leaves out. */
  datatype ValidationOptions = ValidationOptions(abortEarly: Option<bool>, allowUnknown: Option<bool>, stripUnknown: Option<bool>)

  const DefaultOptions: ValidationOptions := ValidationOptions(Some(false), Some(true), Some(true))

  /** `{...defaultOptions, ...options}`: every member the caller gives wins. */
  function MergeOptions(options: ValidationOptions): (r: ValidationOptions)
    ensures r.abortEarly == (if options.abortEarly.Some? then options.abortEarly else Some(false))
    ensures r.allowUnknown == (if options.allowUnknown.Some? then options.allowUnknown else Some(true))
    ensures r.stripUnknown == (if options.stripUnknown.Some? then options.stripUnknown else Some(true))
  {
    ValidationOptions(
      if options.abortEarly.Some? then options.abortEarly else DefaultOptions.abortEarly,
      if options.allowUnknown.Some? then options.allowUnknown else DefaultOptions.allowUnknown,
      if options.stripUnknown.Some? then options.stripUnknown else DefaultOptions.stripUnknown)
  }

  lemma MergeOptionsLaws(options: ValidationOptions)
    ensures MergeOptions(ValidationOptions(None, None, None)) == DefaultOptions
    ensures MergeOptions(MergeOptions(options)) == MergeOptions(options)
    ensures MergeOptions(options).abortEarly.Some? && MergeOptions(options).allowUnknown.Some? && MergeOptions(options).stripUnknown.Some?
  {
  }

  /** What `schema.validate(data, options)` gives: a throw, an error with its details, or the validated value. */
  datatype SchemaOutcome = Threw | Failed(details: seq<Detail>) | Passed(value: Json)

  /** The object `validateSchema` returns; `SchemaThrew` is an exception that escapes it. */
  datatype SchemaResult = ErrorResult(error: ErrorMap) | ValueResult(value: Json) | SchemaThrew

  /**
   * `validateSchema(data, schema, options)`, where `validate` is the
   * schema's `validate`: the merged options are passed on, and a failure
   * is folded into a dictionary keyed by the dotted path.
   */
  method ValidateSchema(data: Json, validate: (Json, ValidationOptions) -> SchemaOutcome, options: ValidationOptions)
    returns (r: SchemaResult)
    ensures validate(data, MergeOptions(options)).Threw? ==> r == SchemaThrew
    ensures validate(data, MergeOptions(options)).Failed? ==>
              r == ErrorResult(ErrorsByKey(validate(data, MergeOptions(options)).details, DottedKey))
    ensures validate(data, MergeOptions(options)).Passed? ==> r == ValueResult(validate(data, MergeOptions(options)).value)
  {
    var outcome := validate(data, MergeOptions(options));
    match outcome {
      case Threw => r := SchemaThrew;
      case Failed(details) =>
        var errors := CollectErrors(details, DottedKey);
        r := ErrorResult(errors);
      case Passed(value) => r := ValueResult(value);
    }
  }

  // ---- src/validations/auth.validation.ts ----

  datatype RegisterBody = RegisterBody(email: Option<string>, password: Option<string>, firstName: Option<string>,
                                       lastName: Option<string>, phone: Option<string>)

  predicate EmailRule(email: Option<string>, emailOk: string -> bool) {
    Required(email) && emailOk(email.value)
  }

  predicate RegisterSchema(b: RegisterBody, emailOk: string -> bool) {
    EmailRule(b.email, emailOk) && PasswordRule(b.password) && Required(b.firstName) &&
    Required(b.lastName) && PhoneRule(b.phone)
  }

  datatype LoginBody = LoginBody(email: Option<string>, password: Option<string>)

  /** Login applies no pattern to the password: any non-empty string passes. */
  predicate LoginSchema(b: LoginBody, emailOk: string -> bool) {
    EmailRule(b.email, emailOk) && Required(b.password)
  }

  /** Every registered password passes the login schema, but login accepts weak passwords too. */
  lemma LoginIsLaxer(email: string, emailOk: string -> bool)
    requires email != "" && emailOk(email)
    ensures forall p :: PasswordRule(Some(p)) ==> LoginSchema(LoginBody(Some(email), Some(p)), emailOk)
    ensures LoginSchema(LoginBody(Some(email), Some("x")), emailOk) && !PasswordRule(Some("x"))
  {
  }

  predicate ForgotPasswordSchema(email: Option<string>, emailOk: string -> bool) {
    EmailRule(email, emailOk)
  }

  datatype ResetPasswordBody = ResetPasswordBody(token: Option<string>, password: Option<string>, confirmPassword: Option<string>)

  /** `Joi.valid(Joi.ref('password'))`: the confirmation is present and equal to the password ("Passwords must match"). */
  predicate ResetPasswordSchema(b: ResetPasswordBody) {
    Required(b.token) && PasswordRule(b.password) && Required(b.confirmPassword) && b.confirmPassword == b.password
  }

  datatype ChangePasswordBody = ChangePasswordBody(currentPassword: Option<string>, newPassword: Option<string>, confirmPassword: Option<string>)

  /** `authValidation.changePassword`, whose new-password rules are written out in place. */
  predicate AuthChangePasswordSchema(b: ChangePasswordBody) {
    Required(b.currentPassword) &&
    b.newPassword.Some? && JsLength(b.newPassword.value) >= 8 && StrongPassword(b.newPassword.value) &&
    b.newPassword.value != "" &&
    Required(b.confirmPassword) && b.confirmPassword == b.newPassword
  }

  // ---- src/validations/user.validation.ts ----

  /** The six preference flags. */
  const PreferenceKeys: set<string> :=
    {"email", "sms", "applicationUpdates", "documentRequests", "statusChanges", "generalAnnouncements"}

  datatype UpdateProfileBody = UpdateProfileBody(firstName: Option<string>, lastName: Option<string>, phone: Option<string>,
                                                 notificationPreferences: Option<map<string, Json>>)

  /** `Joi.string().min(2).max(50)`, counted in UTF-16 code units. */
  predicate NameLength(s: Option<string>) { s.None? || 2 <= JsLength(s.value) <= 50 }

  /** The body has at least one key: `.min(1)`. */
  predicate HasAKey(b: UpdateProfileBody) {
    b.firstName.Some? || b.lastName.Some? || b.phone.Some? || b.notificationPreferences.Some?
  }

  predicate UpdateProfileSchema(b: UpdateProfileBody) {
    NameLength(b.firstName) && NameLength(b.lastName) && PhoneRule(b.phone) &&
    (b.notificationPreferences.Some? ==>
       forall k :: k in PreferenceKeys && k in b.notificationPreferences.value ==> b.notificationPreferences.value[k].JBool?) &&
    HasAKey(b)
  }

  /**
   * The shared phone rule is required, so a profile update must always send
   * a phone number, and `.min(1)` can never be what rejects a body.
   */
  lemma ProfileUpdateNeedsPhone(b: UpdateProfileBody)
    ensures UpdateProfileSchema(b) ==> b.phone.Some?
    ensures PhoneRule(b.phone) ==> HasAKey(b)
    ensures !UpdateProfileSchema(UpdateProfileBody(Some("Ada"), None, None, None))
  {
  }

  /** `userValidation.changePassword`, whose new password is the shared `commonValidations.password`. */
  predicate UserChangePasswordSchema(b: ChangePasswordBody) {
    Required(b.currentPassword) && PasswordRule(b.newPassword) &&
    Required(b.confirmPassword) && b.confirmPassword == b.newPassword
  }

  /**
   * The two change-password schemas accept exactly the same bodies: the
   * rules written out in auth.validation.ts are those of the shared
   * password rule, and the confirmation is a strong password too.
   */
  lemma ChangePasswordSchemasAgree(b: ChangePasswordBody)
    ensures UserChangePasswordSchema(b) <==> AuthChangePasswordSchema(b)
    ensures UserChangePasswordSchema(b) ==> StrongPassword(b.confirmPassword.value)
  {
  }

  // ---- src/validations/application.validation.ts ----

  const ApplicationTypeNames: set<string> := {"building_permit", "business_license", "planning_permit", "zoning_request"}

  const ApplicationStatusNames: set<string> :=
    {"draft", "submitted", "under_review", "information_required", "approved", "rejected"}

  /** The statuses `updateStatus` accepts. */
  const ReviewStatusNames: set<string> := {"under_review", "information_required", "approved", "rejected"}

  /** The document types of `uploadDocuments` (five). */
  const ApplicationDocumentTypes: set<string> := {"construction_plan", "site_plan", "property_deed", "identification", "other"}

  /** The schema enumerations are exactly the names of the entity enumerations. */
  lemma EnumSetsMatchEntities(t: string)
    ensures t in ApplicationTypeNames <==> exists a :: ApplicationTypeName(a) == t
    ensures t in ApplicationStatusNames <==> exists s :: StatusName(s) == t
  {
    if t in ApplicationTypeNames {
      if t == "building_permit" { assert ApplicationTypeName(BuildingPermit) == t; }
      else if t == "business_license" { assert ApplicationTypeName(BusinessLicense) == t; }
      else if t == "planning_permit" { assert ApplicationTypeName(PlanningPermit) == t; }
      else { assert ApplicationTypeName(ZoningRequest) == t; }
    }
    if t in ApplicationStatusNames {
      if t == "draft" { assert StatusName(Draft) == t; }
      else if t == "submitted" { assert StatusName(Submitted) == t; }
      else if t == "under_review" { assert StatusName(UnderReview) == t; }
      else if t == "information_required" { assert StatusName(InformationRequired) == t; }
      else if t == "approved" { assert StatusName(Approved) == t; }
      else { assert StatusName(Rejected) == t; }
    }
  }

  /** `updateStatus` cannot move an application back to draft or submitted. */
  lemma ReviewStatusesExcludeEarlyStates()
    ensures ReviewStatusNames < ApplicationStatusNames
    ensures StatusName(Draft) !in ReviewStatusNames && StatusName(Submitted) !in ReviewStatusNames
  {
  }

  datatype Address = Address(street: Option<string>, city: Option<string>, state: Option<string>, zipCode: Option<string>)

  datatype Applicant = Applicant(firstName: Option<string>, lastName: Option<string>, email: Option<string>,
                                 phone: Option<string>, isOwner: Option<bool>)

  datatype Contractor = Contractor(companyName: Option<string>, licenseNumber: Option<string>, contactName: Option<string>,
                                   email: Option<string>, phone: Option<string>)

  datatype CreateData = CreateData(
    projectType: Option<string>,
    projectDescription: Option<string>,
    estimatedCost: Option<real>,
    startDate: Option<int>,
    propertyAddress: Option<Address>,
    parcelNumber: Option<string>,
    zoneType: Option<string>,
    applicant: Option<Applicant>,
    contractor: Option<Contractor>)

  predicate AddressSchema(a: Address) {
    Required(a.street) && Required(a.city) && Required(a.state) && JsLength(a.state.value) == 2 &&
    Required(a.zipCode) && ZipPattern(a.zipCode.value)
  }

  predicate ApplicantSchema(a: Applicant, emailOk: string -> bool) {
    Required(a.firstName) && Required(a.lastName) && EmailRule(a.email, emailOk) &&
    Required(a.phone) && PhonePattern(a.phone.value) && a.isOwner.Some?
  }

  predicate ContractorSchema(c: Contractor, emailOk: string -> bool) {
    Required(c.companyName) && Required(c.licenseNumber) && Required(c.contactName) &&
    EmailRule(c.email, emailOk) && Required(c.phone) && PhonePattern(c.phone.value)
  }

  /** `createApplication`; `now` is the time of validation, in the unit of `startDate`. */
  predicate CreateApplicationSchema(appType: Option<string>, data: Option<CreateData>, now: int, emailOk: string -> bool) {
    appType.Some? && appType.value in ApplicationTypeNames &&
    data.Some? &&
    var d := data.value;
    Required(d.projectType) && Required(d.projectDescription) &&
    d.estimatedCost.Some? && d.estimatedCost.value >= 0.0 &&
    d.startDate.Some? && d.startDate.value > now &&
    d.propertyAddress.Some? && AddressSchema(d.propertyAddress.value) &&
    Required(d.parcelNumber) && Required(d.zoneType) &&
    d.applicant.Some? && ApplicantSchema(d.applicant.value, emailOk) &&
    d.contractor.Some? && ContractorSchema(d.contractor.value, emailOk)
  }

  /**
   * `updateApplication` as Joi reads it when nothing is stripped: `data` an
   * object, `status` one of the six, and at least one key (`otherKeys`
   * counts the unknown ones). Under `stripUnknown` the unknown keys are gone
   * before `.min(1)` counts, which `Gates.TopLevel` states.
   */
  predicate UpdateApplicationSchema(data: Option<Json>, status: Option<string>, otherKeys: nat) {
    (data.None? || data.value.JObj?) &&
    (status.None? || status.value in ApplicationStatusNames) &&
    (data.Some? || status.Some? || otherKeys > 0)
  }

  datatype ListQuery = ListQuery(page: Option<real>, limit: Option<real>, status: Option<string>, appType: Option<string>,
                                 startDate: Option<int>, endDate: Option<int>)

  /** `getApplications`: an end date must come after a start date, so it cannot be given alone. */
  predicate GetApplicationsSchema(q: ListQuery) {
    (q.page.None? || q.page.value >= 1.0) &&
    (q.limit.None? || 1.0 <= q.limit.value <= 100.0) &&
    NonEmpty(q.status) && NonEmpty(q.appType) &&
    (q.endDate.Some? ==> q.startDate.Some? && q.endDate.value > q.startDate.value)
  }

  /** The list schema's page and limit bounds are those of the shared pagination rule. */
  lemma ListBoundsMatchPagination(q: ListQuery)
    requires GetApplicationsSchema(q)
    ensures PageOrDefault(q.page).Some? && LimitOrDefault(q.limit).Some?
    ensures 1.0 <= LimitOrDefault(q.limit).value <= 100.0
  {
  }

  /** `getApplication`, `deleteApplication`: a required uuid. */
  predicate IdSchema(id: Option<string>, uuidOk: string -> bool) {
    Required(id) && uuidOk(id.value)
  }

  predicate DeleteDocumentParamsSchema(id: Option<string>, documentId: Option<string>, uuidOk: string -> bool) {
    IdSchema(id, uuidOk) && IdSchema(documentId, uuidOk)
  }

  predicate UploadDocumentsSchema(id: Option<string>, docType: Option<string>, uuidOk: string -> bool) {
    IdSchema(id, uuidOk) && docType.Some? && docType.value in ApplicationDocumentTypes
  }

  predicate UpdateStatusSchema(id: Option<string>, status: Option<string>, notes: Option<string>, uuidOk: string -> bool) {
    IdSchema(id, uuidOk) && status.Some? && status.value in ReviewStatusNames && NonEmpty(notes)
  }

  // ---- src/validations/document.validation.ts ----

  /** The document types of `uploadDocument` (seven). */
  const DocumentTypes: set<string> :=
    {"construction_plan", "site_plan", "property_deed", "identification", "contractor_license", "insurance_certificate", "other"}

  /** The two document-type lists: the application one is a strict subset of the document one. */
  lemma DocumentTypeSets()
    ensures ApplicationDocumentTypes < DocumentTypes
    ensures DocumentTypes - ApplicationDocumentTypes == {"contractor_license", "insurance_certificate"}
  {
  }

  datatype DocumentMetadataInput = DocumentMetadataInput(pages: Option<real>, verificationNotes: Option<string>)

  /** `Joi.number().integer().min(1)`. */
  predicate PagesRule(pages: Option<real>) {
    pages.None? || (pages.value == pages.value.Floor as real && pages.value >= 1.0)
  }

  predicate UploadDocumentSchema(applicationId: Option<string>, docType: Option<string>,
                                 metadata: Option<DocumentMetadataInput>, uuidOk: string -> bool) {
    IdSchema(applicationId, uuidOk) &&
    docType.Some? && docType.value in DocumentTypes &&
    (metadata.Some? ==> PagesRule(metadata.value.pages) && NonEmpty(metadata.value.verificationNotes))
  }

  function AsReal(n: int): real { n as real }

  /** `Joi.number().integer().min(1)` admits exactly the whole numbers from 1 on. */
  lemma PagesAreWholeNumbers(x: real)
    ensures PagesRule(Some(x)) <==> exists n :: 1 <= n && x == AsReal(n)
  {
    if PagesRule(Some(x)) {
      assert x == AsReal(x.Floor);
    }
  }

  /** `verifyDocument`: notes are required exactly when the status is "rejected". */
  predicate VerifyDocumentSchema(id: Option<string>, status: Option<string>, notes: Option<string>, uuidOk: string -> bool) {
    IdSchema(id, uuidOk) &&
    status.Some? && status.value in {"verified", "rejected"} &&
    (if status.value == "rejected" then Required(notes) else NonEmpty(notes))
  }

  lemma RejectionNeedsNotes(id: string, notes: Option<string>, uuidOk: string -> bool)
    requires uuidOk(id) && id != ""
    ensures !VerifyDocumentSchema(Some(id), Some("rejected"), None, uuidOk)
    ensures VerifyDocumentSchema(Some(id), Some("verified"), None, uuidOk)
    ensures VerifyDocumentSchema(Some(id), Some("rejected"), notes, uuidOk) <==> Required(notes)
  {
  }
}
