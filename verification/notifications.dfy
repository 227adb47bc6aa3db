/**
 * `NotificationService` (src/services/notification.service.ts): the
 * notification row is stored first, then the recipient is looked up, and a
 * templated mail goes out unless the recipient switched mail off for that
 * type. The HTML of a template is reduced to the subject, the name it greets
 * and the labelled payload values it shows.
 */
module Notifications {
  import opened Wrappers
  import opened Domain
  import opened Failures
  import opened Store
  import opened Validation

  datatype NotificationPayload = NotificationPayload(
    notificationType: NotificationType,
    userId: Id,
    applicationId: Id,
    data: map<string, Json>)

  /** A rendered template; a value that is None is printed as "undefined". */
  datatype EmailTemplate = EmailTemplate(subject: string, greeting: string, lines: seq<(string, Option<Json>)>)

  datatype Email = Email(to: string, template: EmailTemplate)

  /** What the three unimplemented templates throw. */
  const NotImplemented: Thrown := Other("Error", "Function not implemented.")

  /** Reading `notification_preferences` of the undefined row when no user has the id. */
  const NoSuchUser: Thrown := Other("TypeError", "Cannot read properties of undefined (reading 'notification_preferences')")

  /** What a failed SMTP delivery throws (its text comes from the transport and is not modelled). */
  const MailError: Thrown := Other("Error", "mail delivery failed")

  /** `data.key`: None when the key is missing. */
  function Field(data: map<string, Json>, key: string): (r: Option<Json>)
    ensures r.Some? <==> key in data
    ensures r.Some? ==> r.value == data[key]
  {
    if key in data then Some(data[key]) else None
  }

  /** `getNotificationTemplate(payload, user)`: two templates, and three entries that throw. */
  function NotificationTemplate(t: NotificationType, data: map<string, Json>, firstName: string)
    : (r: Result<EmailTemplate, Thrown>)
    ensures r.Ok? <==> t == ApplicationCreated || t == ApplicationStatusChanged
    ensures r.Err? ==> r.error == NotImplemented
    ensures r.Ok? ==> r.value.greeting == firstName && |r.value.lines| == 2
  {
    match t
    case ApplicationCreated =>
      Ok(EmailTemplate("Your Application Has Been Created", firstName,
                       [("Application Type", Field(data, "applicationType")), ("Status", Field(data, "status"))]))
    case ApplicationStatusChanged =>
      Ok(EmailTemplate("Application Status Updated", firstName,
                       [("Previous Status", Field(data, "previousStatus")), ("New Status", Field(data, "newStatus"))]))
    case _ => Err(NotImplemented)
  }

  /** The payload data `createApplication` sends: `{ applicationType: type, status: 'draft' }`. */
  function CreatedData(appType: ApplicationType): map<string, Json> {
    map["applicationType" := JStr(ApplicationTypeName(appType)), "status" := JStr(StatusName(Draft))]
  }

  /** The payload data `updateApplication` sends: `{ previousStatus, newStatus }`. */
  function StatusChangedData(previous: ApplicationStatus, next: ApplicationStatus): map<string, Json> {
    map["previousStatus" := JStr(StatusName(previous)), "newStatus" := JStr(StatusName(next))]
  }

  /**
   * The two mails the controllers can trigger show what they were sent:
   * the type and "draft" for a new application, the old and new status for
   * a change.
   */
  lemma TemplatesShowTheirPayload(appType: ApplicationType, previous: ApplicationStatus, next: ApplicationStatus, name: string)
    ensures NotificationTemplate(ApplicationCreated, CreatedData(appType), name) ==
              Ok(EmailTemplate("Your Application Has Been Created", name,
                               [("Application Type", Some(JStr(ApplicationTypeName(appType)))), ("Status", Some(JStr("draft")))]))
    ensures NotificationTemplate(ApplicationStatusChanged, StatusChangedData(previous, next), name) ==
              Ok(EmailTemplate("Application Status Updated", name,
                               [("Previous Status", Some(JStr(StatusName(previous)))), ("New Status", Some(JStr(StatusName(next))))]))
  {
  }

  /** `user.notification_preferences?.[type]?.email !== false`. */
  predicate EmailWanted(prefs: Option<map<string, Json>>, t: NotificationType) {
    !(prefs.Some? && NotificationTypeName(t) in prefs.value &&
      prefs.value[NotificationTypeName(t)].JObj? &&
      "email" in prefs.value[NotificationTypeName(t)].fields &&
      prefs.value[NotificationTypeName(t)].fields["email"] == JBool(false))
  }

  /**
   * Mail is switched off only by an object under the type's own key whose
   * `email` is exactly false: a missing or NULL preference object, a
   * missing entry, or any other value (true, "false", 0, null) leaves it on.
   */
  lemma OnlyFalseSwitchesMailOff(prefs: Option<map<string, Json>>, t: NotificationType, entry: Json)
    ensures prefs.None? ==> EmailWanted(prefs, t)
    ensures prefs.Some? && NotificationTypeName(t) !in prefs.value ==> EmailWanted(prefs, t)
    ensures prefs.Some? ==>
              (!EmailWanted(Some(prefs.value[NotificationTypeName(t) := entry]), t) <==>
                 entry.JObj? && "email" in entry.fields && entry.fields["email"] == JBool(false))
  {
  }

  /**
   * The preference flags a profile update stores (email, sms, …) are not
   * keyed by notification type, so no preference object made of them can
   * switch any mail off.
   */
  lemma ProfileFlagsNeverSwitchMailOff(prefs: map<string, Json>, t: NotificationType)
    requires prefs.Keys <= PreferenceKeys
    ensures EmailWanted(Some(prefs), t)
  {
    assert NotificationTypeName(t) !in PreferenceKeys;
  }

  /** The SMTP transport: the mails handed over so far. */
  class Mailer {
    var sent: seq<Email>

    constructor()
      ensures sent == []
    {
      sent := [];
    }

    /** `sendMail`: delivers the mail, or throws and delivers nothing. */
    method Send(to: string, template: EmailTemplate, fails: bool) returns (r: Result<(), Thrown>)
      modifies this
      ensures fails ==> r == Err(MailError) && sent == old(sent)
      ensures !fails ==> r == Ok(()) && sent == old(sent) + [Email(to, template)]
    {
      if fails {
        return Err(MailError);
      }
      sent := sent + [Email(to, template)];
      r := Ok(());
    }
  }

  /**
   * Whether `sendNotification` returns normally, with its calls numbered from
   * `first` (insert, user lookup, mail).
   */
  predicate Delivered(users: seq<UserRow>, p: NotificationPayload, f: Faults, first: nat) {
    !Fails(f, first) && !Fails(f, first + 1) && FindUser(users, p.userId).Some? &&
    (EmailWanted(FindUser(users, p.userId).value.preferences, p.notificationType) ==>
       NotificationTemplate(p.notificationType, p.data, FindUser(users, p.userId).value.firstName).Ok? &&
       !Fails(f, first + 2))
  }

  /** The mail `sendNotification` hands over: one, when it gets that far and the send succeeds. */
  function Mailed(users: seq<UserRow>, p: NotificationPayload, f: Faults, first: nat): (r: seq<Email>)
    ensures |r| <= 1
    ensures r != [] <==> Delivered(users, p, f, first) && EmailWanted(FindUser(users, p.userId).value.preferences, p.notificationType)
  {
    if Delivered(users, p, f, first) && EmailWanted(FindUser(users, p.userId).value.preferences, p.notificationType) then
      var user := FindUser(users, p.userId).value;
      [Email(user.email, NotificationTemplate(p.notificationType, p.data, user.firstName).value)]
    else []
  }

  /**
   * `sendNotification(payload)`. The row (read_at NULL) is stored before
   * anything else and stays whatever happens next; a mail goes out only to
   * an existing user who did not switch it off, and only for a type with a
   * template. Every failure is thrown on to the caller.
   */
  method SendNotification(db: Database, mailer: Mailer, p: NotificationPayload, f: Faults, first: nat)
    returns (r: Result<(), Thrown>)
    requires db.Valid()
    modifies db, mailer
    ensures db.Valid() && db.inTransaction == old(db.inTransaction) && db.clock == old(db.clock)
    ensures r.Ok? <==> Delivered(old(db.tables.users), p, f, first)
    ensures Fails(f, first) ==>
              r == Err(QueryError) && db.tables == old(db.tables) && db.saved == old(db.saved) &&
              db.nextId == old(db.nextId)
    ensures !Fails(f, first) ==>
              var row := NotificationRow(old(db.nextId), p.userId, p.notificationType, p.applicationId, p.data, None);
              db.tables == old(db.tables).(notifications := old(db.tables.notifications) + [row]) &&
              db.saved == old(db.saved).(notifications := old(db.saved.notifications) + [row]) &&
              db.nextId == old(db.nextId) + 1
    ensures !Fails(f, first) && Fails(f, first + 1) ==> r == Err(QueryError)
    ensures !Fails(f, first) && !Fails(f, first + 1) && FindUser(old(db.tables.users), p.userId).None? ==>
              r == Err(NoSuchUser)
    ensures mailer.sent == old(mailer.sent) + Mailed(old(db.tables.users), p, f, first)
    ensures r.Err? && !Fails(f, first) && !Fails(f, first + 1) && FindUser(old(db.tables.users), p.userId).Some? ==>
              r.error == (if NotificationTemplate(p.notificationType, p.data,
                                                  FindUser(old(db.tables.users), p.userId).value.firstName).Err?
                          then NotImplemented else MailError)
  {
    if Fails(f, first) {
      return Err(QueryError);
    }
    var users := db.tables.users;
    var row := db.InsertNotification(p.userId, p.notificationType, p.applicationId, p.data);
    if Fails(f, first + 1) {
      return Err(QueryError);
    }
    var user := FindUser(users, p.userId);
    if user.None? {
      return Err(NoSuchUser);
    }
    if EmailWanted(user.value.preferences, p.notificationType) {
      var template := NotificationTemplate(p.notificationType, p.data, user.value.firstName);
      if template.Err? {
        return Err(template.error);
      }
      var sent := mailer.Send(user.value.email, template.value, Fails(f, first + 2));
      if sent.Err? {
        return Err(sent.error);
      }
    }
    r := Ok(());
  }
}
