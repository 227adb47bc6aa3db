/**
 * The PostgreSQL database the handlers and services talk to, reduced to the
 * five tables they read and write. BEGIN takes a copy of the tables,
 * ROLLBACK puts it back (and does nothing when no transaction is open, as
 * PostgreSQL does), COMMIT drops it. Each statement a handler sends is a
 * method that rewrites the tables; the queries are functions of them.
 */
module Store {
  import opened Wrappers
  import opened Domain
  import opened Errors
  import opened Failures

  datatype Tables = Tables(
    applications: seq<ApplicationRow>,
    documents: seq<DocumentRow>,
    history: seq<HistoryRow>,
    users: seq<UserRow>,
    notifications: seq<NotificationRow>)

  // ---- sequence helpers ----

  /** The rows `keep` accepts, in their order. */
  function Filter<T(!new)>(s: seq<T>, keep: T -> bool): (r: seq<T>)
    ensures |r| <= |s|
    ensures forall x :: x in r <==> x in s && keep(x)
  {
    if s == [] then []
    else
      var rest := Filter(s[1..], keep);
      assert forall x :: x in s <==> x == s[0] || x in s[1..];
      if keep(s[0]) then [s[0]] + rest else rest
  }

  /** Two tests that agree on every row keep the same rows. */
  lemma {:induction false} FilterAgrees<T(!new)>(s: seq<T>, p: T -> bool, q: T -> bool)
    requires forall x :: x in s ==> p(x) == q(x)
    ensures Filter(s, p) == Filter(s, q)
  {
    if s != [] {
      FilterAgrees(s[1..], p, q);
    }
  }

  /** The first row `p` accepts: `rows[0]` of a query without ORDER BY over a key. */
  function FindFirst<T(!new)>(s: seq<T>, p: T -> bool): (r: Option<T>)
    ensures r.Some? ==> r.value in s && p(r.value)
    ensures r.None? <==> forall x :: x in s ==> !p(x)
  {
    if s == [] then None
    else if p(s[0]) then Some(s[0])
    else FindFirst(s[1..], p)
  }

  /** The first row `p` accepts is any row it accepts, when at most one does. */
  lemma {:induction false} FindFirstUnique<T(!new)>(s: seq<T>, p: T -> bool, x: T)
    requires x in s && p(x)
    requires forall i, j :: 0 <= i < j < |s| && p(s[i]) ==> !p(s[j])
    ensures FindFirst(s, p) == Some(x)
  {
    if s[0] != x {
      assert forall i, j :: 0 <= i < j < |s[1..]| && p(s[1..][i]) ==> !p(s[1..][j]) by {
        forall i, j | 0 <= i < j < |s[1..]| && p(s[1..][i])
          ensures !p(s[1..][j])
        {
          assert s[1..][i] == s[i + 1] && s[1..][j] == s[j + 1];
        }
      }
      var k :| 0 <= k < |s| && s[k] == x;
      assert k > 0;
      assert !p(s[0]);
      assert x in s[1..] by { assert s[1..][k - 1] == x; }
      FindFirstUnique(s[1..], p, x);
    }
  }

  function Reverse<T>(s: seq<T>): (r: seq<T>)
    ensures |r| == |s|
    ensures forall i :: 0 <= i < |s| ==> r[i] == s[|s| - 1 - i]
  {
    if s == [] then [] else Reverse(s[1..]) + [s[0]]
  }

  // ---- invariants of the tables ----

  /** Application ids are distinct and every row is younger than the ones before it. */
  predicate AppsOrdered(apps: seq<ApplicationRow>) {
    forall i, j :: 0 <= i < j < |apps| ==> apps[i].id != apps[j].id && apps[i].createdAt < apps[j].createdAt
  }

  /** History rows are appended in time order. */
  predicate HistoryOrdered(history: seq<HistoryRow>) {
    forall i, j :: 0 <= i < j < |history| ==> history[i].createdAt < history[j].createdAt
  }

  predicate HasApplication(apps: seq<ApplicationRow>, id: Id) {
    exists a :: a in apps && a.id == id
  }

  predicate DocumentIdsDistinct(docs: seq<DocumentRow>) {
    forall i, j :: 0 <= i < j < |docs| ==> docs[i].id != docs[j].id
  }

  /** Ids and e-mail addresses of users are distinct. */
  predicate UsersDistinct(users: seq<UserRow>) {
    forall i, j :: 0 <= i < j < |users| ==> users[i].id != users[j].id && users[i].email != users[j].email
  }

  /** Every id is below `nextId` and every timestamp at most `clock`. */
  predicate Bounded(t: Tables, nextId: nat, clock: nat) {
    (forall a :: a in t.applications ==> a.id < nextId && a.createdAt <= clock) &&
    (forall d :: d in t.documents ==> d.id < nextId) &&
    (forall h :: h in t.history ==> h.createdAt <= clock) &&
    (forall u :: u in t.users ==> u.id < nextId) &&
    (forall n :: n in t.notifications ==> n.id < nextId)
  }

  /** Every document and every history row belongs to an application that exists. */
  predicate Referenced(t: Tables) {
    (forall d :: d in t.documents ==> HasApplication(t.applications, d.applicationId)) &&
    (forall h :: h in t.history ==> HasApplication(t.applications, h.applicationId))
  }

  predicate WellFormed(t: Tables, nextId: nat, clock: nat) {
    AppsOrdered(t.applications) && HistoryOrdered(t.history) &&
    DocumentIdsDistinct(t.documents) && UsersDistinct(t.users) &&
    Bounded(t, nextId, clock) && Referenced(t)
  }

  /** Every timestamp of the tables lies before `now`. */
  predicate Before(t: Tables, now: nat) {
    (forall a :: a in t.applications ==> a.createdAt < now) &&
    (forall h :: h in t.history ==> h.createdAt < now)
  }

  // ---- the row tests of the DELETE statements ----

  /** Documents of any other application. */
  function DocumentsOutside(applicationId: Id): DocumentRow -> bool {
    (d: DocumentRow) => d.applicationId != applicationId
  }

  /** History rows of any other application. */
  function HistoryOutside(applicationId: Id): HistoryRow -> bool {
    (h: HistoryRow) => h.applicationId != applicationId
  }

  /** Applications other than the caller's row with this id. */
  function OtherThan(id: Id, userId: Id): ApplicationRow -> bool {
    (a: ApplicationRow) => !(a.id == id && a.userId == userId)
  }

  function DocumentsOtherThan(id: Id): DocumentRow -> bool {
    (d: DocumentRow) => d.id != id
  }

  // ---- the row tests of the SELECT statements ----

  /** `WHERE application_id = $1` on documents. */
  function DocumentsOf(applicationId: Id): DocumentRow -> bool {
    (d: DocumentRow) => d.applicationId == applicationId
  }

  /** `WHERE application_id = $1` on history rows. */
  function HistoryOf(applicationId: Id): HistoryRow -> bool {
    (h: HistoryRow) => h.applicationId == applicationId
  }

  /** `WHERE user_id = $1` on applications. */
  function OwnedBy(userId: Id): ApplicationRow -> bool {
    (a: ApplicationRow) => a.userId == userId
  }

  // ---- queries ----

  /** `SELECT * FROM applications WHERE id = $1 AND user_id = $2`. */
  function FindApplication(apps: seq<ApplicationRow>, id: Id, userId: Id): (r: Option<ApplicationRow>)
    ensures r.Some? ==> r.value in apps && r.value.id == id && r.value.userId == userId
    ensures r.None? <==> forall a :: a in apps ==> !(a.id == id && a.userId == userId)
  {
    FindFirst(apps, (a: ApplicationRow) => a.id == id && a.userId == userId)
  }

  /** `SELECT user_id FROM applications WHERE id = $1`. */
  function FindApplicationById(apps: seq<ApplicationRow>, id: Id): (r: Option<ApplicationRow>)
    ensures r.Some? ==> r.value in apps && r.value.id == id
    ensures r.None? <==> !HasApplication(apps, id)
  {
    FindFirst(apps, (a: ApplicationRow) => a.id == id)
  }

  /** `SELECT … FROM users WHERE id = $1`, whatever the status. */
  function FindUser(users: seq<UserRow>, id: Id): (r: Option<UserRow>)
    ensures r.Some? ==> r.value in users && r.value.id == id
    ensures r.None? <==> forall u :: u in users ==> u.id != id
  {
    FindFirst(users, (u: UserRow) => u.id == id)
  }

  /**
   * `SELECT * FROM users WHERE email = $1`: with addresses unique, as the
   * UNIQUE constraint on `users.email` keeps them, `rows[0]` is the one user
   * who has the address.
   */
  function FindUserByEmail(users: seq<UserRow>, email: string): (r: Option<UserRow>)
    ensures r.Some? ==> r.value in users && r.value.email == email
    ensures r.None? <==> forall u :: u in users ==> u.email != email
    ensures UsersDistinct(users) ==> forall u :: u in users && u.email == email ==> r == Some(u)
  {
    var p := (u: UserRow) => u.email == email;
    assert UsersDistinct(users) ==> forall u :: u in users && u.email == email ==> FindFirst(users, p) == Some(u) by {
      if UsersDistinct(users) {
        forall u | u in users && u.email == email
          ensures FindFirst(users, p) == Some(u)
        {
          FindFirstUnique(users, p, u);
        }
      }
    }
    FindFirst(users, p)
  }

  // ---- faults ----

  /**
   * How the outside world behaves during one request. The external calls a
   * request makes (every query other than BEGIN, COMMIT and ROLLBACK, every
   * storage call and the mail) are numbered from 0 in the order it makes
   * them; `failAt` is the number of the first one that throws, if any, and
   * nothing after it runs. `uuids(k)` and `locations(k)` are the uuid drawn
   * for, and the Location S3 reports for, an upload made as call k.
   */
  datatype Faults = Faults(failAt: Option<nat>, uuids: nat -> string, locations: nat -> string)

  predicate Fails(f: Faults, k: nat) {
    f.failAt == Some(k)
  }

  /** One of the calls numbered `lo` up to (excluding) `hi` throws. */
  predicate FailsIn(f: Faults, lo: nat, hi: nat) {
    f.failAt.Some? && lo <= f.failAt.value < hi
  }

  /** A range of calls throws exactly when its first call or the rest of it does. */
  lemma FailsInFirst(f: Faults, lo: nat, hi: nat)
    ensures lo >= hi ==> !FailsIn(f, lo, hi)
    ensures lo < hi ==> (FailsIn(f, lo, hi) <==> Fails(f, lo) || FailsIn(f, lo + 1, hi))
  {
  }

  /** What a failing query throws: pg's `DatabaseError` (its SQLSTATE plays no part in the handlers). */
  const QueryError: Thrown := Thrown.Database("XX000", "query failed")

  // ---- the database ----

  class Database {
    var tables: Tables
    /** The copy BEGIN took; ROLLBACK puts it back. */
    var saved: Tables
    var inTransaction: bool
    /** The identity the next inserted row gets (the source draws uuids). */
    var nextId: nat
    /** NOW(): the start time of the last transaction. */
    var clock: nat

    ghost predicate Valid()
      reads this
    {
      WellFormed(tables, nextId, clock) && (inTransaction ==> WellFormed(saved, nextId, clock))
    }

    constructor(initial: Tables, nextId: nat, clock: nat)
      requires WellFormed(initial, nextId, clock)
      ensures Valid() && !inTransaction
      ensures tables == initial && this.nextId == nextId && this.clock == clock
    {
      tables := initial;
      saved := initial;
      inTransaction := false;
      this.nextId := nextId;
      this.clock := clock;
    }

    /** BEGIN on a connection fresh from the pool; the transaction's NOW() is later than every earlier one. */
    method Begin()
      requires Valid() && !inTransaction
      modifies this
      ensures Valid() && inTransaction && saved == tables && tables == old(tables)
      ensures nextId == old(nextId) && clock == old(clock) + 1
      ensures Before(tables, clock)
    {
      saved := tables;
      inTransaction := true;
      clock := clock + 1;
    }

    method Commit()
      requires Valid()
      modifies this
      ensures Valid() && !inTransaction && tables == old(tables) && saved == old(saved)
      ensures nextId == old(nextId) && clock == old(clock)
    {
      inTransaction := false;
    }

    /** ROLLBACK: restores the copy when a transaction is open, and is a no-op otherwise. */
    method Rollback()
      requires Valid()
      modifies this
      ensures Valid() && !inTransaction
      ensures old(inTransaction) ==> tables == old(saved)
      ensures !old(inTransaction) ==> tables == old(tables)
      ensures nextId == old(nextId) && clock == old(clock)
    {
      if inTransaction {
        tables := saved;
        inTransaction := false;
      }
    }

    /** `INSERT INTO applications … VALUES (…, NOW(), NOW()) RETURNING *`. */
    method InsertApplication(userId: Id, appType: ApplicationType, status: ApplicationStatus, data: Json)
      returns (row: ApplicationRow)
      requires Valid() && Before(tables, clock)
      modifies this
      ensures Valid() && inTransaction == old(inTransaction) && saved == old(saved) && clock == old(clock)
      ensures row == ApplicationRow(old(nextId), userId, appType, status, data, clock)
      ensures tables == old(tables).(applications := old(tables.applications) + [row])
      ensures nextId == old(nextId) + 1
      ensures forall h :: h in tables.history ==> h.createdAt < clock
    {
      row := ApplicationRow(nextId, userId, appType, status, data, clock);
      var apps := tables.applications + [row];
      assert forall a :: a in apps ==> a in tables.applications || a == row;
      assert forall x :: HasApplication(tables.applications, x) ==> HasApplication(apps, x);
      tables := tables.(applications := apps);
      nextId := nextId + 1;
    }

    /** `INSERT INTO documents (application_id, type, path, status[, metadata]) VALUES (…, 'pending', …)`. */
    method InsertDocument(applicationId: Id, docType: string, path: string, metadata: Option<map<string, Json>>)
      returns (row: DocumentRow)
      requires Valid() && HasApplication(tables.applications, applicationId)
      modifies this
      ensures Valid() && inTransaction == old(inTransaction) && saved == old(saved) && clock == old(clock)
      ensures row == DocumentRow(old(nextId), applicationId, docType, path, Pending, None, None, metadata)
      ensures tables == old(tables).(documents := old(tables.documents) + [row])
      ensures nextId == old(nextId) + 1
    {
      row := DocumentRow(nextId, applicationId, docType, path, Pending, None, None, metadata);
      var docs := tables.documents + [row];
      assert forall d :: d in docs ==> d in tables.documents || d == row;
      tables := tables.(documents := docs);
      nextId := nextId + 1;
    }

    /** `UPDATE applications SET data = COALESCE($1, data), status = COALESCE($2, status) WHERE id = $3 AND user_id = $4`. */
    method UpdateApplication(id: Id, userId: Id, data: Option<Json>, status: Option<ApplicationStatus>)
      returns (returned: Option<ApplicationRow>)
      requires Valid()
      modifies this
      ensures Valid() && inTransaction == old(inTransaction) && saved == old(saved)
      ensures nextId == old(nextId) && clock == old(clock)
      ensures tables == old(tables).(applications := Coalesced(old(tables.applications), id, userId, data, status))
      ensures forall x :: HasApplication(old(tables.applications), x) ==> HasApplication(tables.applications, x)
      ensures returned == FindApplication(tables.applications, id, userId)
    {
      var apps := Coalesced(tables.applications, id, userId, data, status);
      SameKeysKeepWellFormed(tables, apps, nextId, clock);
      tables := tables.(applications := apps);
      returned := FindApplication(apps, id, userId);
    }

    /** `INSERT INTO application_history (…) VALUES (…, NOW())`. */
    method InsertHistory(applicationId: Id, userId: Id, action: string,
                         previousStatus: ApplicationStatus, newStatus: ApplicationStatus, notes: string)
      returns (row: HistoryRow)
      requires Valid() && HasApplication(tables.applications, applicationId)
      requires forall h :: h in tables.history ==> h.createdAt < clock
      modifies this
      ensures Valid() && inTransaction == old(inTransaction) && saved == old(saved)
      ensures nextId == old(nextId) && clock == old(clock)
      ensures row == HistoryRow(applicationId, userId, action, previousStatus, newStatus, notes, clock)
      ensures tables == old(tables).(history := old(tables.history) + [row])
    {
      row := HistoryRow(applicationId, userId, action, previousStatus, newStatus, notes, clock);
      var history := tables.history + [row];
      assert forall h :: h in history ==> h in tables.history || h == row;
      tables := tables.(history := history);
    }

    /** `DELETE FROM documents WHERE application_id = $1`. */
    method DeleteDocumentsOf(applicationId: Id)
      requires Valid()
      modifies this
      ensures Valid() && inTransaction == old(inTransaction) && saved == old(saved)
      ensures nextId == old(nextId) && clock == old(clock)
      ensures tables == old(tables).(documents := Filter(old(tables.documents), DocumentsOutside(applicationId)))
    {
      var docs := Filter(tables.documents, DocumentsOutside(applicationId));
      FilterKeepsDistinctDocuments(tables.documents, DocumentsOutside(applicationId));
      tables := tables.(documents := docs);
    }

    /** `DELETE FROM application_history WHERE application_id = $1`. */
    method DeleteHistoryOf(applicationId: Id)
      requires Valid()
      modifies this
      ensures Valid() && inTransaction == old(inTransaction) && saved == old(saved)
      ensures nextId == old(nextId) && clock == old(clock)
      ensures tables == old(tables).(history := Filter(old(tables.history), HistoryOutside(applicationId)))
    {
      var history := Filter(tables.history, HistoryOutside(applicationId));
      FilterKeepsHistoryOrder(tables.history, HistoryOutside(applicationId));
      tables := tables.(history := history);
    }

    /**
     * `DELETE FROM applications WHERE id = $1 AND user_id = $2`, once no
     * document or history row refers to the id any more (the handler deletes
     * those first; what the schema would do otherwise is not modelled).
     */
    method DeleteApplication(id: Id, userId: Id)
      requires Valid()
      requires forall d :: d in tables.documents ==> d.applicationId != id
      requires forall h :: h in tables.history ==> h.applicationId != id
      modifies this
      ensures Valid() && inTransaction == old(inTransaction) && saved == old(saved)
      ensures nextId == old(nextId) && clock == old(clock)
      ensures tables == old(tables).(applications := Filter(old(tables.applications), OtherThan(id, userId)))
    {
      var keep := OtherThan(id, userId);
      var apps := Filter(tables.applications, keep);
      FilterKeepsAppOrder(tables.applications, keep);
      assert forall x :: x != id && HasApplication(tables.applications, x) ==> HasApplication(apps, x) by {
        forall x | x != id && HasApplication(tables.applications, x)
          ensures HasApplication(apps, x)
        {
          var a :| a in tables.applications && a.id == x;
          assert keep(a);
        }
      }
      tables := tables.(applications := apps);
    }

    /** `DELETE FROM documents WHERE id = $1`. */
    method DeleteDocument(id: Id)
      requires Valid()
      modifies this
      ensures Valid() && inTransaction == old(inTransaction) && saved == old(saved)
      ensures nextId == old(nextId) && clock == old(clock)
      ensures tables == old(tables).(documents := Filter(old(tables.documents), DocumentsOtherThan(id)))
    {
      var docs := Filter(tables.documents, DocumentsOtherThan(id));
      FilterKeepsDistinctDocuments(tables.documents, DocumentsOtherThan(id));
      tables := tables.(documents := docs);
    }

    /**
     * `UPDATE documents SET status = $1, verified_at = NOW(), verified_by = $2,
     * metadata = jsonb_set(COALESCE(metadata, '{}'), '{verificationNotes}', $3) WHERE id = $4`.
     */
    method VerifyDocument(id: Id, status: DocumentStatus, verifierId: Id, notes: Option<Json>)
      requires Valid()
      modifies this
      ensures Valid() && inTransaction == old(inTransaction) && saved == old(saved)
      ensures nextId == old(nextId) && clock == old(clock)
      ensures tables == old(tables).(documents := VerifiedRows(old(tables.documents), id, status, verifierId, clock, notes))
    {
      var docs := VerifiedRows(tables.documents, id, status, verifierId, clock, notes);
      SameDocumentKeysKeepWellFormed(tables, docs, nextId, clock);
      tables := tables.(documents := docs);
    }

    /** `INSERT INTO users (…) VALUES (…)` for an address no user has. */
    method InsertUser(email: string, passwordHash: string, firstName: string, lastName: string, phone: string,
                      role: UserRole, status: UserStatus, preferences: Option<map<string, Json>>)
      returns (row: UserRow)
      requires Valid() && FindUserByEmail(tables.users, email).None?
      modifies this
      ensures Valid() && inTransaction == old(inTransaction) && saved == old(saved) && clock == old(clock)
      ensures row == UserRow(old(nextId), email, passwordHash, firstName, lastName, phone, role, status, preferences)
      ensures tables == old(tables).(users := old(tables.users) + [row])
      ensures nextId == old(nextId) + 1
    {
      row := UserRow(nextId, email, passwordHash, firstName, lastName, phone, role, status, preferences);
      var users := tables.users + [row];
      assert forall u :: u in users ==> u in tables.users || u == row;
      assert forall i :: 0 <= i < |tables.users| ==> tables.users[i] in tables.users;
      tables := tables.(users := users);
      nextId := nextId + 1;
    }

    /**
     * `UPDATE users SET first_name = COALESCE($1, first_name), …,
     * notification_preferences = COALESCE(notification_preferences || $4, notification_preferences) WHERE id = $5`.
     */
    method UpdateUser(id: Id, firstName: Option<string>, lastName: Option<string>, phone: Option<string>,
                      preferences: Option<map<string, Json>>)
      requires Valid()
      modifies this
      ensures Valid() && inTransaction == old(inTransaction) && saved == old(saved)
      ensures nextId == old(nextId) && clock == old(clock)
      ensures tables == old(tables).(users := ProfileUpdated(old(tables.users), id, firstName, lastName, phone, preferences))
    {
      var users := ProfileUpdated(tables.users, id, firstName, lastName, phone, preferences);
      tables := tables.(users := users);
    }

    /** `UPDATE users SET password_hash = $1 WHERE id = $2`. */
    method SetPasswordHash(id: Id, passwordHash: string)
      requires Valid()
      modifies this
      ensures Valid() && inTransaction == old(inTransaction) && saved == old(saved)
      ensures nextId == old(nextId) && clock == old(clock)
      ensures tables == old(tables).(users := PasswordSet(old(tables.users), id, passwordHash))
    {
      tables := tables.(users := PasswordSet(tables.users, id, passwordHash));
    }

    /**
     * `INSERT INTO notifications (…, read_at) VALUES (…, NULL)`, sent on a
     * pool of its own: the row is committed at once, so a ROLLBACK of an
     * open transaction elsewhere keeps it.
     */
    method InsertNotification(userId: Id, notificationType: NotificationType, applicationId: Id, data: map<string, Json>)
      returns (row: NotificationRow)
      requires Valid()
      modifies this
      ensures Valid() && inTransaction == old(inTransaction) && clock == old(clock)
      ensures row == NotificationRow(old(nextId), userId, notificationType, applicationId, data, None)
      ensures tables == old(tables).(notifications := old(tables.notifications) + [row])
      ensures saved == old(saved).(notifications := old(saved.notifications) + [row])
      ensures nextId == old(nextId) + 1
    {
      row := NotificationRow(nextId, userId, notificationType, applicationId, data, None);
      assert forall n :: n in tables.notifications + [row] ==> n in tables.notifications || n == row;
      assert forall n :: n in saved.notifications + [row] ==> n in saved.notifications || n == row;
      tables := tables.(notifications := tables.notifications + [row]);
      saved := saved.(notifications := saved.notifications + [row]);
      nextId := nextId + 1;
    }
  }

  // ---- the row rewrites of the UPDATE statements ----

  /** The rows `UPDATE applications … COALESCE` leaves: matching rows get the supplied data and status. */
  function Coalesced(apps: seq<ApplicationRow>, id: Id, userId: Id, data: Option<Json>, status: Option<ApplicationStatus>)
    : (r: seq<ApplicationRow>)
    ensures |r| == |apps|
    ensures forall i :: 0 <= i < |apps| ==>
              r[i].id == apps[i].id && r[i].userId == apps[i].userId && r[i].appType == apps[i].appType &&
              r[i].createdAt == apps[i].createdAt
    ensures forall i :: 0 <= i < |apps| && !(apps[i].id == id && apps[i].userId == userId) ==> r[i] == apps[i]
    ensures forall i :: 0 <= i < |apps| && apps[i].id == id && apps[i].userId == userId ==>
              r[i].data == data.GetOr(apps[i].data) && r[i].status == status.GetOr(apps[i].status)
  {
    seq(|apps|, i requires 0 <= i < |apps| =>
      if apps[i].id == id && apps[i].userId == userId
      then apps[i].(data := data.GetOr(apps[i].data), status := status.GetOr(apps[i].status))
      else apps[i])
  }

  /**
   * `jsonb_set(COALESCE(metadata, '{}'), '{verificationNotes}', notes)`.
   * The function is strict: with SQL NULL notes (None) the result is NULL.
   */
  function JsonbSetNotes(metadata: Option<map<string, Json>>, notes: Option<Json>): (r: Option<map<string, Json>>)
    ensures notes.None? ==> r.None?
    ensures notes.Some? ==> r.Some? && "verificationNotes" in r.value && r.value["verificationNotes"] == notes.value
    ensures notes.Some? ==> forall k :: k != "verificationNotes" ==>
              (k in r.value <==> metadata.Some? && k in metadata.value) &&
              (k in r.value ==> r.value[k] == metadata.value[k])
  {
    if notes.None? then None
    else Some(metadata.GetOr(map[])["verificationNotes" := notes.value])
  }

  /** The rows `UPDATE documents … WHERE id = $4` leaves. */
  function VerifiedRows(docs: seq<DocumentRow>, id: Id, status: DocumentStatus, verifierId: Id, now: nat, notes: Option<Json>)
    : (r: seq<DocumentRow>)
    ensures |r| == |docs|
    ensures forall i :: 0 <= i < |docs| ==>
              r[i].id == docs[i].id && r[i].applicationId == docs[i].applicationId &&
              r[i].docType == docs[i].docType && r[i].path == docs[i].path
    ensures forall i :: 0 <= i < |docs| && docs[i].id != id ==> r[i] == docs[i]
    ensures forall i :: 0 <= i < |docs| && docs[i].id == id ==>
              r[i].status == status && r[i].verifiedAt == Some(now) && r[i].verifiedBy == Some(verifierId) &&
              r[i].metadata == JsonbSetNotes(docs[i].metadata, notes)
  {
    seq(|docs|, i requires 0 <= i < |docs| =>
      if docs[i].id == id
      then docs[i].(status := status, verifiedAt := Some(now), verifiedBy := Some(verifierId),
                    metadata := JsonbSetNotes(docs[i].metadata, notes))
      else docs[i])
  }

  /**
   * `COALESCE(notification_preferences || patch, notification_preferences)`:
   * a shallow merge where the patch wins; NULL stays NULL because NULL || x
   * is NULL, and a NULL patch leaves the value as it is.
   */
  function MergePreferences(stored: Option<map<string, Json>>, patch: Option<map<string, Json>>): (r: Option<map<string, Json>>)
    ensures stored.None? ==> r.None?
    ensures patch.None? ==> r == stored
    ensures stored.Some? && patch.Some? ==> r.Some? && r.value.Keys == stored.value.Keys + patch.value.Keys
    ensures stored.Some? && patch.Some? ==> forall k :: k in r.value ==>
              r.value[k] == (if k in patch.value then patch.value[k] else stored.value[k])
  {
    if stored.None? || patch.None? then stored
    else Some(stored.value + patch.value)
  }

  /** The rows `UPDATE users … WHERE id = $5` of `updateProfile` leaves. */
  function ProfileUpdated(users: seq<UserRow>, id: Id, firstName: Option<string>, lastName: Option<string>,
                          phone: Option<string>, preferences: Option<map<string, Json>>): (r: seq<UserRow>)
    ensures |r| == |users|
    ensures forall i :: 0 <= i < |users| ==>
              r[i].id == users[i].id && r[i].email == users[i].email && r[i].passwordHash == users[i].passwordHash &&
              r[i].role == users[i].role && r[i].status == users[i].status
    ensures forall i :: 0 <= i < |users| && users[i].id != id ==> r[i] == users[i]
    ensures forall i :: 0 <= i < |users| && users[i].id == id ==>
              r[i].firstName == firstName.GetOr(users[i].firstName) &&
              r[i].lastName == lastName.GetOr(users[i].lastName) &&
              r[i].phone == phone.GetOr(users[i].phone) &&
              r[i].preferences == MergePreferences(users[i].preferences, preferences)
  {
    seq(|users|, i requires 0 <= i < |users| =>
      if users[i].id == id
      then users[i].(firstName := firstName.GetOr(users[i].firstName), lastName := lastName.GetOr(users[i].lastName),
                     phone := phone.GetOr(users[i].phone),
                     preferences := MergePreferences(users[i].preferences, preferences))
      else users[i])
  }

  /** The rows `UPDATE users SET password_hash = $1 WHERE id = $2` leaves. */
  function PasswordSet(users: seq<UserRow>, id: Id, passwordHash: string): (r: seq<UserRow>)
    ensures |r| == |users|
    ensures forall i :: 0 <= i < |users| && users[i].id != id ==> r[i] == users[i]
    ensures forall i :: 0 <= i < |users| && users[i].id == id ==> r[i] == users[i].(passwordHash := passwordHash)
  {
    seq(|users|, i requires 0 <= i < |users| =>
      if users[i].id == id then users[i].(passwordHash := passwordHash) else users[i])
  }

  // ---- rewrites and filters keep the invariants ----

  /** `apps` holds, row by row, the same ids and creation times as `t.applications`. */
  predicate SameKeys(t: Tables, apps: seq<ApplicationRow>) {
    |apps| == |t.applications| &&
    forall i :: 0 <= i < |apps| ==> apps[i].id == t.applications[i].id && apps[i].createdAt == t.applications[i].createdAt
  }

  /** Rewriting application rows without touching ids or creation times keeps the tables well formed. */
  lemma SameKeysKeepWellFormed(t: Tables, apps: seq<ApplicationRow>, nextId: nat, clock: nat)
    requires WellFormed(t, nextId, clock) && SameKeys(t, apps)
    ensures WellFormed(t.(applications := apps), nextId, clock)
    ensures forall x :: HasApplication(t.applications, x) ==> HasApplication(apps, x)
  {
    var t' := t.(applications := apps);
    forall x | HasApplication(t.applications, x)
      ensures HasApplication(apps, x)
    {
      var a :| a in t.applications && a.id == x;
      var i :| 0 <= i < |t.applications| && t.applications[i] == a;
      assert apps[i] in apps;
    }
    forall a | a in apps
      ensures a.id < nextId && a.createdAt <= clock
    {
      var i :| 0 <= i < |apps| && apps[i] == a;
      assert t.applications[i] in t.applications;
    }
    assert Referenced(t');
    assert Bounded(t', nextId, clock);
  }

  /** Rewriting document rows without touching ids or owners keeps the tables well formed. */
  lemma SameDocumentKeysKeepWellFormed(t: Tables, docs: seq<DocumentRow>, nextId: nat, clock: nat)
    requires WellFormed(t, nextId, clock) && |docs| == |t.documents|
    requires forall i :: 0 <= i < |docs| ==> docs[i].id == t.documents[i].id && docs[i].applicationId == t.documents[i].applicationId
    ensures WellFormed(t.(documents := docs), nextId, clock)
  {
    var t' := t.(documents := docs);
    forall d | d in docs
      ensures d.id < nextId && HasApplication(t.applications, d.applicationId)
    {
      var i :| 0 <= i < |docs| && docs[i] == d;
      assert t.documents[i] in t.documents;
    }
    assert DocumentIdsDistinct(docs) by {
      forall i, j | 0 <= i < j < |docs|
        ensures docs[i].id != docs[j].id
      {
      }
    }
    assert Referenced(t');
    assert Bounded(t', nextId, clock);
  }

  /** Application ids are keys: two rows with one id are the same row. */
  lemma SameIdSameApplication(apps: seq<ApplicationRow>, a: ApplicationRow, b: ApplicationRow)
    requires AppsOrdered(apps) && a in apps && b in apps && a.id == b.id
    ensures a == b
  {
    var i :| 0 <= i < |apps| && apps[i] == a;
    var j :| 0 <= j < |apps| && apps[j] == b;
    assert i == j;
  }

  /** A row ahead of an ordered table, older than every row of it and with a new id, keeps it ordered. */
  lemma ConsKeepsAppOrder(x: ApplicationRow, rest: seq<ApplicationRow>)
    requires AppsOrdered(rest)
    requires forall y :: y in rest ==> y.id != x.id && x.createdAt < y.createdAt
    ensures AppsOrdered([x] + rest)
  {
    var r := [x] + rest;
    forall i, j | 0 <= i < j < |r|
      ensures r[i].id != r[j].id && r[i].createdAt < r[j].createdAt
    {
      assert r[j] == rest[j - 1];
      assert rest[j - 1] in rest;
      if i > 0 {
        assert r[i] == rest[i - 1];
      }
    }
  }

  lemma ConsKeepsHistoryOrder(x: HistoryRow, rest: seq<HistoryRow>)
    requires HistoryOrdered(rest)
    requires forall y :: y in rest ==> x.createdAt < y.createdAt
    ensures HistoryOrdered([x] + rest)
  {
    var r := [x] + rest;
    forall i, j | 0 <= i < j < |r|
      ensures r[i].createdAt < r[j].createdAt
    {
      assert r[j] == rest[j - 1];
      assert rest[j - 1] in rest;
      if i > 0 {
        assert r[i] == rest[i - 1];
      }
    }
  }

  lemma ConsKeepsDistinctDocuments(x: DocumentRow, rest: seq<DocumentRow>)
    requires DocumentIdsDistinct(rest)
    requires forall y :: y in rest ==> y.id != x.id
    ensures DocumentIdsDistinct([x] + rest)
  {
    var r := [x] + rest;
    forall i, j | 0 <= i < j < |r|
      ensures r[i].id != r[j].id
    {
      assert r[j] == rest[j - 1];
      assert rest[j - 1] in rest;
      if i > 0 {
        assert r[i] == rest[i - 1];
      }
    }
  }

  lemma {:induction false} FilterKeepsAppOrder(apps: seq<ApplicationRow>, keep: ApplicationRow -> bool)
    requires AppsOrdered(apps)
    ensures AppsOrdered(Filter(apps, keep))
  {
    if apps != [] {
      var tail := apps[1..];
      assert AppsOrdered(tail) by {
        forall i, j | 0 <= i < j < |tail|
          ensures tail[i].id != tail[j].id && tail[i].createdAt < tail[j].createdAt
        {
          assert tail[i] == apps[i + 1] && tail[j] == apps[j + 1];
        }
      }
      FilterKeepsAppOrder(tail, keep);
      var rest := Filter(tail, keep);
      if keep(apps[0]) {
        assert forall x :: x in rest ==> x.id != apps[0].id && apps[0].createdAt < x.createdAt by {
          forall x | x in rest
            ensures x.id != apps[0].id && apps[0].createdAt < x.createdAt
          {
            var j :| 0 <= j < |tail| && tail[j] == x;
            assert apps[j + 1] == x;
          }
        }
        ConsKeepsAppOrder(apps[0], rest);
      }
    }
  }

  lemma {:induction false} FilterKeepsHistoryOrder(history: seq<HistoryRow>, keep: HistoryRow -> bool)
    requires HistoryOrdered(history)
    ensures HistoryOrdered(Filter(history, keep))
  {
    if history != [] {
      var tail := history[1..];
      assert HistoryOrdered(tail) by {
        forall i, j | 0 <= i < j < |tail|
          ensures tail[i].createdAt < tail[j].createdAt
        {
          assert tail[i] == history[i + 1] && tail[j] == history[j + 1];
        }
      }
      FilterKeepsHistoryOrder(tail, keep);
      var rest := Filter(tail, keep);
      if keep(history[0]) {
        assert forall x :: x in rest ==> history[0].createdAt < x.createdAt by {
          forall x | x in rest
            ensures history[0].createdAt < x.createdAt
          {
            var j :| 0 <= j < |tail| && tail[j] == x;
            assert history[j + 1] == x;
          }
        }
        ConsKeepsHistoryOrder(history[0], rest);
      }
    }
  }

  lemma {:induction false} FilterKeepsDistinctDocuments(docs: seq<DocumentRow>, keep: DocumentRow -> bool)
    requires DocumentIdsDistinct(docs)
    ensures DocumentIdsDistinct(Filter(docs, keep))
  {
    if docs != [] {
      var tail := docs[1..];
      assert DocumentIdsDistinct(tail) by {
        forall i, j | 0 <= i < j < |tail|
          ensures tail[i].id != tail[j].id
        {
          assert tail[i] == docs[i + 1] && tail[j] == docs[j + 1];
        }
      }
      FilterKeepsDistinctDocuments(tail, keep);
      var rest := Filter(tail, keep);
      if keep(docs[0]) {
        assert forall x :: x in rest ==> x.id != docs[0].id by {
          forall x | x in rest
            ensures x.id != docs[0].id
          {
            var j :| 0 <= j < |tail| && tail[j] == x;
            assert docs[j + 1] == x;
          }
        }
        ConsKeepsDistinctDocuments(docs[0], rest);
      }
    }
  }
}
