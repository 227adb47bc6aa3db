/**
 * `UserService` (src/services/user.service.ts): reading a user who is not
 * deleted, with the six preference flags read back as text; updating the
 * profile in a transaction; changing the password after checking the
 * current one. A throw inside a transaction issues ROLLBACK and is thrown on.
 */
module Users {
  import opened Wrappers
  import opened Domain
  import opened Errors
  import opened Failures
  import opened Store
  import opened Validation

  /** The `User` the service returns: the row under camelCase names, without the password hash. */
  datatype User = User(
    id: Id,
    email: string,
    firstName: string,
    lastName: string,
    phone: string,
    role: UserRole,
    status: UserStatus,
    notificationPreferences: Option<map<string, Json>>)

  /** `mapUserFromDb(row)`. */
  function MapUser(row: UserRow): User {
    User(row.id, row.email, row.firstName, row.lastName, row.phone, row.role, row.status, row.preferences)
  }

  /** The mapping drops the password hash and nothing else. */
  lemma MapUserDropsOnlyTheHash(r1: UserRow, r2: UserRow)
    ensures MapUser(r1) == MapUser(r2) <==> r1.(passwordHash := "") == r2.(passwordHash := "")
  {
  }

  const UserNotFound: Thrown := AppErr(NewApplicationError("User not found", Some(404)))
  const IncorrectPassword: Thrown := AppErr(NewApplicationError("Current password is incorrect", Some(400)))

  // ---- getUserById ----

  function DigitChar(d: nat): char
    requires d < 10
  {
    "0123456789"[d]
  }

  function NatText(n: nat): string
    decreases n
  {
    if n < 10 then [DigitChar(n)] else NatText(n / 10) + [DigitChar(n % 10)]
  }

  /**
   * `prefs->>'key'` for one stored value: SQL NULL stays NULL and every other
   * value becomes its text; `render` is PostgreSQL's text output of an array
   * or object.
   */
  function ColumnText(v: Json, render: Json -> string): Json {
    match v
    case JNull => JNull
    case JBool(b) => JStr(if b then "true" else "false")
    case JNum(n) => JStr(if n < 0 then "-" + NatText(-n) else NatText(n))
    case JStr(s) => v
    case _ => JStr(render(v))
  }

  /**
   * `json_build_object('email', prefs->>'email', …)`: always the six keys,
   * each NULL when the stored object or the key is missing, otherwise the
   * stored value as text.
   */
  function PreferencesView(prefs: Option<map<string, Json>>, render: Json -> string): (r: map<string, Json>)
    ensures r.Keys == PreferenceKeys
    ensures forall k :: k in r ==> r[k].JNull? || r[k].JStr?
    ensures forall k :: k in r && (prefs.None? || k !in prefs.value) ==> r[k] == JNull
    ensures forall k :: k in r && prefs.Some? && k in prefs.value && prefs.value[k].JStr? ==> r[k] == prefs.value[k]
    ensures forall k :: k in r && prefs.Some? && k in prefs.value && prefs.value[k].JBool? ==>
              r[k] == JStr(if prefs.value[k].b then "true" else "false")
  {
    map k | k in PreferenceKeys :: if prefs.Some? && k in prefs.value then ColumnText(prefs.value[k], render) else JNull
  }

  /**
   * The flags a profile update stores are booleans, but they come back as
   * the strings "true" and "false": a stored object with any flag never
   * reads back as itself, and a missing object reads back as six NULLs.
   */
  lemma FlagsComeBackAsText(prefs: map<string, Json>, render: Json -> string)
    requires prefs.Keys <= PreferenceKeys && prefs != map[]
    requires forall k :: k in prefs ==> prefs[k].JBool?
    ensures PreferencesView(Some(prefs), render) != prefs
    ensures PreferencesView(None, render) == map k | k in PreferenceKeys :: JNull
  {
    var k :| k in prefs;
    assert PreferencesView(Some(prefs), render)[k].JStr?;
  }

  /** The row `SELECT u.*, json_build_object(…) AS notification_preferences` hands to the mapping. */
  function Viewed(row: UserRow, render: Json -> string): UserRow {
    row.(preferences := Some(PreferencesView(row.preferences, render)))
  }

  /** `WHERE id = $1 AND status != 'deleted'`. */
  function LiveUser(users: seq<UserRow>, id: Id): (r: Option<UserRow>)
    ensures r.Some? ==> r.value in users && r.value.id == id && r.value.status != Deleted
    ensures r.None? <==> forall u :: u in users && u.id == id ==> u.status == Deleted
  {
    FindFirst(users, (u: UserRow) => u.id == id && u.status != Deleted)
  }

  /**
   * A soft-deleted user is hidden from the read although its row is still
   * there for the id-only queries of the update and the password change;
   * any other user is found by both.
   */
  lemma DeletedUsersAreHiddenFromReads(users: seq<UserRow>, u: UserRow)
    requires UsersDistinct(users) && u in users
    ensures FindUser(users, u.id) == Some(u)
    ensures u.status == Deleted ==> LiveUser(users, u.id).None?
    ensures u.status != Deleted ==> LiveUser(users, u.id) == Some(u)
  {
    FindFirstUnique(users, (e: UserRow) => e.id == u.id, u);
    var i :| 0 <= i < |users| && users[i] == u;
    forall e | e in users && e.id == u.id
      ensures e == u
    {
      var j :| 0 <= j < |users| && users[j] == e;
      assert i == j;
    }
    if u.status != Deleted {
      FindFirstUnique(users, (e: UserRow) => e.id == u.id && e.status != Deleted, u);
    }
  }

  /** `getUserById` (call 0 is the query). */
  method GetUserById(db: Database, id: Id, render: Json -> string, f: Faults) returns (r: Result<User, Thrown>)
    ensures Fails(f, 0) ==> r == Err(QueryError)
    ensures !Fails(f, 0) ==> (r.Ok? <==> exists u :: u in db.tables.users && u.id == id && u.status != Deleted)
    ensures !Fails(f, 0) && r.Err? ==> r.error == UserNotFound
    ensures r.Ok? ==>
              r.value.id == id && r.value.status != Deleted &&
              r.value.notificationPreferences.Some? && r.value.notificationPreferences.value.Keys == PreferenceKeys &&
              exists u :: u in db.tables.users && r.value == MapUser(Viewed(u, render))
  {
    if Fails(f, 0) {
      return Err(QueryError);
    }
    var found := LiveUser(db.tables.users, id);
    if found.None? {
      return Err(UserNotFound);
    }
    r := Ok(MapUser(Viewed(found.value, render)));
  }

  // ---- updateProfile ----

  /**
   * The row `UPDATE users SET first_name = COALESCE($1, first_name), …`
   * makes of `u`: each supplied name and phone replaces the stored one, and
   * the preferences are merged.
   */
  function Profiled(u: UserRow, data: UpdateProfileBody): UserRow {
    u.(firstName := data.firstName.GetOr(u.firstName), lastName := data.lastName.GetOr(u.lastName),
       phone := data.phone.GetOr(u.phone),
       preferences := MergePreferences(u.preferences, data.notificationPreferences))
  }

  /**
   * The same update twice is the update once, and an update never touches
   * the identity, the credentials, the role or the status.
   */
  lemma ProfileUpdateIsIdempotent(u: UserRow, data: UpdateProfileBody)
    ensures Profiled(Profiled(u, data), data) == Profiled(u, data)
    ensures var p := Profiled(u, data);
            p.id == u.id && p.email == u.email && p.passwordHash == u.passwordHash &&
            p.role == u.role && p.status == u.status
  {
    if u.preferences.Some? && data.notificationPreferences.Some? {
      var m := u.preferences.value + data.notificationPreferences.value;
      assert m + data.notificationPreferences.value == m;
    }
  }

  /** After the UPDATE, the row with the id is the updated one; with no row there is none. */
  lemma ProfileRowFound(users: seq<UserRow>, id: Id, data: UpdateProfileBody)
    requires UsersDistinct(users)
    ensures var rows := ProfileUpdated(users, id, data.firstName, data.lastName, data.phone, data.notificationPreferences);
            (FindUser(users, id).None? ==> FindUser(rows, id).None?) &&
            (FindUser(users, id).Some? ==> FindUser(rows, id) == Some(Profiled(FindUser(users, id).value, data)))
  {
    var rows := ProfileUpdated(users, id, data.firstName, data.lastName, data.phone, data.notificationPreferences);
    if FindUser(users, id).None? {
      forall e | e in rows
        ensures e.id != id
      {
        var i :| 0 <= i < |rows| && rows[i] == e;
        assert users[i] in users;
      }
    } else {
      var u := FindUser(users, id).value;
      var i :| 0 <= i < |users| && users[i] == u;
      assert rows[i] == Profiled(u, data);
      FindFirstUnique(rows, (e: UserRow) => e.id == id, rows[i]);
    }
  }

  /**
   * `updateProfile`: BEGIN, the UPDATE (call 0) matched by id alone, so a
   * soft-deleted user is updated too, then COMMIT and the updated row, or
   * ROLLBACK and a 404 when no row has the id.
   */
  method UpdateProfile(db: Database, id: Id, data: UpdateProfileBody, f: Faults) returns (r: Result<User, Thrown>)
    requires db.Valid() && !db.inTransaction
    modifies db
    ensures db.Valid() && !db.inTransaction && db.clock == old(db.clock) + 1 && db.nextId == old(db.nextId)
    ensures r.Ok? <==> !Fails(f, 0) && FindUser(old(db.tables.users), id).Some?
    ensures Fails(f, 0) ==> r == Err(QueryError)
    ensures !Fails(f, 0) && FindUser(old(db.tables.users), id).None? ==> r == Err(UserNotFound)
    ensures r.Err? ==> db.tables == old(db.tables)
    ensures r.Ok? ==>
              r.value == MapUser(Profiled(FindUser(old(db.tables.users), id).value, data)) &&
              db.tables == old(db.tables).(users := ProfileUpdated(old(db.tables.users), id, data.firstName, data.lastName,
                                                                   data.phone, data.notificationPreferences))
  {
    db.Begin();
    if Fails(f, 0) {
      db.Rollback();
      return Err(QueryError);
    }
    ProfileRowFound(db.tables.users, id, data);
    db.UpdateUser(id, data.firstName, data.lastName, data.phone, data.notificationPreferences);
    var returned := FindUser(db.tables.users, id);
    if returned.None? {
      db.Rollback();
      return Err(UserNotFound);
    }
    db.Commit();
    r := Ok(MapUser(returned.value));
  }

  // ---- changePassword ----

  /** The user exists and `bcrypt.compare(currentPassword, password_hash)` accepts. */
  predicate PasswordAccepted(users: seq<UserRow>, id: Id, currentPassword: string, compare: (string, string) -> bool) {
    FindUser(users, id).Some? && compare(currentPassword, FindUser(users, id).value.passwordHash)
  }

  /** Whether the change reaches COMMIT: past the SELECT (call 0), the check, and the UPDATE (call 1). */
  predicate PasswordChanges(users: seq<UserRow>, id: Id, currentPassword: string, compare: (string, string) -> bool,
                            f: Faults)
  {
    !Fails(f, 0) && PasswordAccepted(users, id, currentPassword, compare) && !Fails(f, 1)
  }

  /** What the change throws when it does not reach COMMIT. */
  function PasswordThrown(users: seq<UserRow>, id: Id, currentPassword: string, compare: (string, string) -> bool,
                          f: Faults): Thrown
  {
    if Fails(f, 0) then QueryError
    else if FindUser(users, id).None? then UserNotFound
    else if !compare(currentPassword, FindUser(users, id).value.passwordHash) then IncorrectPassword
    else QueryError
  }

  /**
   * `changePassword`: BEGIN, the SELECT (call 0), the check of the current
   * password, the UPDATE (call 1) with `hashWithSalt(newPassword)`, which
   * is `bcrypt.hash` with the salt `genSalt(10)` drew, then COMMIT; any
   * throw issues ROLLBACK and leaves the hash as it was.
   */
  method ChangePassword(db: Database, id: Id, currentPassword: string, newPassword: string,
                        compare: (string, string) -> bool, hashWithSalt: string -> string, f: Faults)
    returns (r: Result<(), Thrown>)
    requires db.Valid() && !db.inTransaction
    modifies db
    ensures db.Valid() && !db.inTransaction && db.clock == old(db.clock) + 1 && db.nextId == old(db.nextId)
    ensures r.Ok? <==> PasswordChanges(old(db.tables.users), id, currentPassword, compare, f)
    ensures r.Err? ==>
              r.error == PasswordThrown(old(db.tables.users), id, currentPassword, compare, f) &&
              db.tables == old(db.tables)
    ensures r.Ok? ==> db.tables == old(db.tables).(users := PasswordSet(old(db.tables.users), id, hashWithSalt(newPassword)))
  {
    db.Begin();
    if Fails(f, 0) {
      db.Rollback();
      return Err(QueryError);
    }
    var user := FindUser(db.tables.users, id);
    if user.None? {
      db.Rollback();
      return Err(UserNotFound);
    }
    if !compare(currentPassword, user.value.passwordHash) {
      db.Rollback();
      return Err(IncorrectPassword);
    }
    var newHash := hashWithSalt(newPassword);
    if Fails(f, 1) {
      db.Rollback();
      return Err(QueryError);
    }
    db.SetPasswordHash(id, newHash);
    db.Commit();
    r := Ok(());
  }

  /**
   * The new hash replaces the user's own and no other; when bcrypt accepts
   * a password against its own hash, the new password is then the one the
   * next change accepts as current.
   */
  lemma ChangedPasswordIsTheCurrentOne(users: seq<UserRow>, id: Id, currentPassword: string, newPassword: string,
                                       compare: (string, string) -> bool, hashWithSalt: string -> string, f: Faults)
    requires UsersDistinct(users) && PasswordChanges(users, id, currentPassword, compare, f)
    requires compare(newPassword, hashWithSalt(newPassword))
    ensures FindUser(PasswordSet(users, id, hashWithSalt(newPassword)), id) ==
              Some(FindUser(users, id).value.(passwordHash := hashWithSalt(newPassword)))
    ensures PasswordAccepted(PasswordSet(users, id, hashWithSalt(newPassword)), id, newPassword, compare)
    ensures forall x :: x != id ==> FindUser(PasswordSet(users, id, hashWithSalt(newPassword)), x) == FindUser(users, x)
  {
    var h := hashWithSalt(newPassword);
    var rows := PasswordSet(users, id, h);
    var u := FindUser(users, id).value;
    var i :| 0 <= i < |users| && users[i] == u;
    FindFirstUnique(rows, (e: UserRow) => e.id == id, rows[i]);
    forall x | x != id
      ensures FindUser(rows, x) == FindUser(users, x)
    {
      SameFindUser(users, rows, id, x);
    }
  }

  /** Rows that differ only in rows with id `id` answer every other id alike. */
  lemma {:induction false} SameFindUser(users: seq<UserRow>, rows: seq<UserRow>, id: Id, x: Id)
    requires |rows| == |users| && x != id
    requires forall i :: 0 <= i < |users| ==> rows[i].id == users[i].id
    requires forall i :: 0 <= i < |users| && users[i].id != id ==> rows[i] == users[i]
    ensures FindUser(rows, x) == FindUser(users, x)
  {
    if users != [] {
      SameFindUser(users[1..], rows[1..], id, x);
    }
  }
}
