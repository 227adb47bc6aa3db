/**
 * The entities of the permit portal: the enumerations of the files under src/types,
 * the JSON values the service stores and returns, and the rows of the
 * `applications`, `documents`, `application_history`, `users` and
 * `notifications` tables.
 */
module Domain {
  import opened Wrappers

  /** Database identities (the source uses uuids; here they are drawn from a counter). */
  type Id = nat

  datatype ApplicationType = BuildingPermit | BusinessLicense | PlanningPermit | ZoningRequest

  datatype ApplicationStatus =
    | Draft | Submitted | UnderReview | InformationRequired | Approved | Rejected

  datatype DocumentStatus = Pending | Verified | DocumentRejected

  datatype UserRole = Citizen | Staff | Admin

  /** `deleted` is not in the declared type but the user service filters on it. */
  datatype UserStatus = Active | Inactive | Suspended | Deleted

  datatype NotificationType =
    | ApplicationCreated | ApplicationUpdated | ApplicationStatusChanged
    | DocumentUploaded | ReviewCompleted

  function ApplicationTypeName(t: ApplicationType): string {
    match t
    case BuildingPermit => "building_permit"
    case BusinessLicense => "business_license"
    case PlanningPermit => "planning_permit"
    case ZoningRequest => "zoning_request"
  }

  function StatusName(s: ApplicationStatus): string {
    match s
    case Draft => "draft"
    case Submitted => "submitted"
    case UnderReview => "under_review"
    case InformationRequired => "information_required"
    case Approved => "approved"
    case Rejected => "rejected"
  }

  function RoleName(r: UserRole): string {
    match r
    case Citizen => "citizen"
    case Staff => "staff"
    case Admin => "admin"
  }

  /** The key a notification type has in a user's preference object. */
  function NotificationTypeName(t: NotificationType): string {
    match t
    case ApplicationCreated => "application_created"
    case ApplicationUpdated => "application_updated"
    case ApplicationStatusChanged => "application_status_changed"
    case DocumentUploaded => "document_uploaded"
    case ReviewCompleted => "review_completed"
  }

  /** A JSON value as stored in a `json`/`jsonb` column or carried in a request. */
  datatype Json =
    | JNull
    | JBool(b: bool)
    | JNum(n: int)
    | JStr(s: string)
    | JArr(items: seq<Json>)
    | JObj(fields: map<string, Json>)

  /** A file as multer hands it over (its bytes are not modelled). */
  datatype UploadedFile = UploadedFile(fieldname: string, originalname: string, mimetype: string, size: nat)

  datatype ApplicationRow = ApplicationRow(
    id: Id,
    userId: Id,
    appType: ApplicationType,
    status: ApplicationStatus,
    data: Json,
    createdAt: nat)

  /** A `documents` row; `metadata` None is SQL NULL. */
  datatype DocumentRow = DocumentRow(
    id: Id,
    applicationId: Id,
    docType: string,
    path: string,
    status: DocumentStatus,
    verifiedAt: Option<nat>,
    verifiedBy: Option<Id>,
    metadata: Option<map<string, Json>>)

  datatype HistoryRow = HistoryRow(
    applicationId: Id,
    userId: Id,
    action: string,
    previousStatus: ApplicationStatus,
    newStatus: ApplicationStatus,
    notes: string,
    createdAt: nat)

  /** A `users` row; `preferences` None is SQL NULL. */
  datatype UserRow = UserRow(
    id: Id,
    email: string,
    passwordHash: string,
    firstName: string,
    lastName: string,
    phone: string,
    role: UserRole,
    status: UserStatus,
    preferences: Option<map<string, Json>>)

  datatype NotificationRow = NotificationRow(
    id: Id,
    userId: Id,
    notificationType: NotificationType,
    applicationId: Id,
    data: map<string, Json>,
    readAt: Option<nat>)

  /** The payload of an access token: `{id, email, role}`. */
  datatype UserPayload = UserPayload(id: Id, email: string, role: UserRole)
}
