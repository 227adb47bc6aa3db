/**
 * `AuthController` (src/controllers/auth.controller.ts): registration and
 * login. Both answer with a reply of their own rather than throwing: a
 * session (a token and the public fields of the user) or a message. The
 * queries go to the pool directly, outside any transaction. `bcrypt` and
 * `jwt.sign` are parameters: `compare` checks a password against a stored
 * hash, `hashWithSalt` is `bcrypt.hash` with the salt `genSalt(10)` drew,
 * and `sign(payload, expiresIn)` signs with the server's secret.
 */
module Auth {
  import opened Wrappers
  import opened Domain
  import opened Store

  /** The `user` of an `AuthResponse`. */
  datatype AuthUser = AuthUser(id: Id, email: string, firstName: string, lastName: string, role: UserRole)

  datatype AuthBody = Session(token: string, user: AuthUser) | Message(message: string)

  datatype AuthReply = AuthReply(status: int, body: AuthBody)

  /** The `expiresIn` of every token. */
  const TokenLifetime: string := "24h"

  const UserExists: AuthReply := AuthReply(400, Message("User already exists"))
  const InvalidCredentials: AuthReply := AuthReply(401, Message("Invalid credentials"))
  const RegistrationFailed: AuthReply := AuthReply(500, Message("Server error during registration"))
  const LoginFailed: AuthReply := AuthReply(500, Message("Server error during login"))

  /** The token and the user a session for `u` carries: the token signs exactly `{id, email, role}`. */
  function SessionFor(u: UserRow, sign: (UserPayload, string) -> string): AuthBody {
    Session(sign(UserPayload(u.id, u.email, u.role), TokenLifetime),
            AuthUser(u.id, u.email, u.firstName, u.lastName, u.role))
  }

  // ---- login ----

  /**
   * `login` (call 0 is the query by e-mail, call 1 is `jwt.sign`, which
   * throws when the secret is missing). The status of the user is never
   * looked at, and an unknown address and a wrong password get the same 401.
   */
  function Login(users: seq<UserRow>, email: string, password: string, compare: (string, string) -> bool,
                 sign: (UserPayload, string) -> string, f: Faults): (reply: AuthReply)
    ensures reply.status in {200, 401, 500}
    ensures reply.status == 500 ==> reply == LoginFailed
    ensures reply.status == 401 ==> reply == InvalidCredentials
    ensures reply.status == 401 <==>
              !Fails(f, 0) && (FindUserByEmail(users, email).None? ||
                               !compare(password, FindUserByEmail(users, email).value.passwordHash))
    ensures reply.status == 200 <==>
              !Fails(f, 0) && FindUserByEmail(users, email).Some? &&
              compare(password, FindUserByEmail(users, email).value.passwordHash) && !Fails(f, 1)
    ensures reply.status == 200 ==>
              reply.body.Session? && reply.body.user.email == email &&
              reply.body == SessionFor(FindUserByEmail(users, email).value, sign)
  {
    if Fails(f, 0) then LoginFailed
    else
      var user := FindUserByEmail(users, email);
      if user.None? then InvalidCredentials
      else if !compare(password, user.value.passwordHash) then InvalidCredentials
      else if Fails(f, 1) then LoginFailed
      else AuthReply(200, SessionFor(user.value, sign))
  }

  /**
   * A suspended, inactive or soft-deleted user with the right password
   * gets a session like any active one.
   */
  lemma LoginIgnoresStatus(users: seq<UserRow>, u: UserRow, password: string, compare: (string, string) -> bool,
                           sign: (UserPayload, string) -> string, f: Faults)
    requires UsersDistinct(users) && u in users && !Fails(f, 0) && !Fails(f, 1)
    requires compare(password, u.passwordHash)
    ensures Login(users, u.email, password, compare, sign, f) == AuthReply(200, SessionFor(u, sign))
  {
  }

  /** The reply does not tell an unknown address from a known one with the wrong password. */
  lemma FailedLoginsLookAlike(users: seq<UserRow>, unknown: string, u: UserRow, password: string, wrong: string,
                              compare: (string, string) -> bool, sign: (UserPayload, string) -> string, f: Faults)
    requires UsersDistinct(users) && u in users && !Fails(f, 0)
    requires forall e :: e in users ==> e.email != unknown
    requires !compare(wrong, u.passwordHash)
    ensures Login(users, unknown, password, compare, sign, f) == Login(users, u.email, wrong, compare, sign, f)
    ensures Login(users, unknown, password, compare, sign, f) == InvalidCredentials
  {
  }

  // ---- register ----

  /** The row registration inserts: a citizen, active, holding the hash and never the password. */
  function NewUser(id: Id, email: string, passwordHash: string, firstName: string, lastName: string, phone: string,
                   defaultPreferences: Option<map<string, Json>>): UserRow
  {
    UserRow(id, email, passwordHash, firstName, lastName, phone, Citizen, Active, defaultPreferences)
  }

  /** Whether registration inserts: past the lookup (call 0), the address free, and the INSERT (call 1). */
  predicate RegisterInserts(users: seq<UserRow>, email: string, f: Faults) {
    !Fails(f, 0) && FindUserByEmail(users, email).None? && !Fails(f, 1)
  }

  /**
   * `register`. `defaultPreferences` is the column default of
   * `notification_preferences`, which the INSERT does not set. Call 2 is
   * `jwt.sign`: when it throws, the row is already stored, since no
   * transaction surrounds the INSERT, and the answer is still 500.
   */
  method Register(db: Database, email: string, password: string, firstName: string, lastName: string, phone: string,
                  defaultPreferences: Option<map<string, Json>>, hashWithSalt: string -> string,
                  sign: (UserPayload, string) -> string, f: Faults)
    returns (reply: AuthReply)
    requires db.Valid()
    modifies db
    ensures db.Valid() && db.inTransaction == old(db.inTransaction) && db.saved == old(db.saved) && db.clock == old(db.clock)
    ensures reply.status == 201 <==> RegisterInserts(old(db.tables.users), email, f) && !Fails(f, 2)
    ensures !RegisterInserts(old(db.tables.users), email, f) ==>
              db.tables == old(db.tables) && db.nextId == old(db.nextId) &&
              reply == (if !Fails(f, 0) && FindUserByEmail(old(db.tables.users), email).Some?
                        then UserExists else RegistrationFailed)
    ensures RegisterInserts(old(db.tables.users), email, f) ==>
              var row := NewUser(old(db.nextId), email, hashWithSalt(password), firstName, lastName, phone,
                                 defaultPreferences);
              db.tables == old(db.tables).(users := old(db.tables.users) + [row]) &&
              db.nextId == old(db.nextId) + 1 &&
              reply == (if Fails(f, 2) then RegistrationFailed else AuthReply(201, SessionFor(row, sign)))
  {
    if Fails(f, 0) {
      return RegistrationFailed;
    }
    if FindUserByEmail(db.tables.users, email).Some? {
      return UserExists;
    }
    var passwordHash := hashWithSalt(password);
    if Fails(f, 1) {
      return RegistrationFailed;
    }
    var row := db.InsertUser(email, passwordHash, firstName, lastName, phone, Citizen, Active, defaultPreferences);
    if Fails(f, 2) {
      return RegistrationFailed;
    }
    reply := AuthReply(201, SessionFor(row, sign));
  }

  /**
   * Once registration has stored the user, logging in with the same address
   * and password yields the session registration signs, under 200 instead
   * of 201, provided bcrypt accepts a password against its own hash and
   * nothing throws; registering the address a second time is refused.
   */
  lemma RegisterThenLogin(users: seq<UserRow>, nextId: Id, email: string, password: string, firstName: string,
                          lastName: string, phone: string, defaultPreferences: Option<map<string, Json>>,
                          compare: (string, string) -> bool, hashWithSalt: string -> string,
                          sign: (UserPayload, string) -> string, f: Faults, g: Faults)
    requires RegisterInserts(users, email, f) && !Fails(g, 0) && !Fails(g, 1)
    requires compare(password, hashWithSalt(password))
    ensures var row := NewUser(nextId, email, hashWithSalt(password), firstName, lastName, phone, defaultPreferences);
            Login(users + [row], email, password, compare, sign, g) == AuthReply(200, SessionFor(row, sign)) &&
            !RegisterInserts(users + [row], email, g)
  {
    var row := NewUser(nextId, email, hashWithSalt(password), firstName, lastName, phone, defaultPreferences);
    var s := users + [row];
    assert forall i :: 0 <= i < |users| ==> s[i] == users[i] && users[i] in users;
    FindFirstUnique(s, (e: UserRow) => e.email == email, row);
  }
}
