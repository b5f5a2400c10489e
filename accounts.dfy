/**
 * The account and enrollment handlers of server.js: the decision procedure of
 * `/api/auth/login` (lines 113-161) over the stored users, and the table
 * updates of `/api/auth/register` (lines 78-110) and
 * `/api/courses/:id/enroll` (lines 272-297) on an in-memory database.
 */
module Accounts {
  import opened Wrappers
  import opened Middleware

  /** A row of `users`, keyed by its email. */
  datatype UserRecord = UserRecord(
    userId: nat,
    fullName: string,
    email: string,
    passwordHash: string,
    role: string,
    isActive: int,
    collegeName: Option<string>,
    branch: Option<string>,
    year: Option<string>,
    mobile: Option<string>)

  /** The body of a registration request; any field may be absent. */
  datatype Registration = Registration(
    fullName: Option<string>,
    email: Option<string>,
    password: Option<string>,
    collegeName: Option<string>,
    branch: Option<string>,
    year: Option<string>,
    mobile: Option<string>)

  /** The user part of a successful login response. */
  datatype PublicUser = PublicUser(userId: nat, fullName: string, email: string, role: string)

  datatype LoginResult = LoginOk(token: string, user: PublicUser) | LoginFailed(response: ErrorResponse)
  datatype RegisterResult = Registered(userId: nat) | RegisterFailed(response: ErrorResponse)
  datatype EnrollResult = Enrolled | EnrollFailed(response: ErrorResponse)

  const InvalidCredentials := ErrorResponse(401, "Invalid credentials")
  const AccountInactive := ErrorResponse(403, "Account is inactive")
  const AllFieldsRequired := ErrorResponse(400, "All fields are required")
  const EmailRegistered := ErrorResponse(400, "Email already registered")
  const AlreadyEnrolled := ErrorResponse(400, "Already enrolled in this course")

  /** The `expiresIn` option every token is signed with. */
  const TokenLifetime := "24h"

  /** A string field is given when it is truthy in JavaScript: present and not empty. */
  predicate Present(field: Option<string>)
  {
    field.Some? && field.value != []
  }

  /** The three fields registration insists on. */
  predicate Complete(input: Registration)
  {
    Present(input.fullName) && Present(input.email) && Present(input.password)
  }

  /** The token payload issued for a stored user. */
  function ClaimsOf(u: UserRecord): Claims
  {
    Claims(u.userId, u.email, u.role)
  }

  /**
   * The login handler. `passwordMatches` stands for `bcrypt.compare` and
   * `sign(claims, expiresIn)` for `jwt.sign` with the server's secret.
   * An absent email binds as SQL NULL and so finds no row.
   * A token is issued if and only if the email names a stored user whose
   * account is active and whose password hash the password matches; the
   * token is signed over exactly `{user_id, email, role}` of that stored
   * record with a 24h lifetime, and the user in the response is that record.
   */
  function Login(users: map<string, UserRecord>, email: Option<string>, password: string,
                 passwordMatches: (string, string) -> bool,
                 sign: (Claims, string) -> string): (r: LoginResult)
    ensures r.LoginOk? <==>
              && email.Some? && email.value in users
              && users[email.value].isActive == 1
              && passwordMatches(password, users[email.value].passwordHash)
    ensures r.LoginOk? ==>
              var u := users[email.value];
              && r.token == sign(Claims(u.userId, u.email, u.role), "24h")
              && r.user == PublicUser(u.userId, u.fullName, u.email, u.role)
  {
    if email.None? || email.value !in users then LoginFailed(InvalidCredentials)
    else
      var u := users[email.value];
      if u.isActive != 1 then LoginFailed(AccountInactive)
      else if !passwordMatches(password, u.passwordHash) then LoginFailed(InvalidCredentials)
      else LoginOk(sign(ClaimsOf(u), TokenLifetime), PublicUser(u.userId, u.fullName, u.email, u.role))
  }

  /** An unknown email is 401 "Invalid credentials", whatever the password. */
  lemma LoginUnknownEmail(users: map<string, UserRecord>, email: Option<string>, password: string,
                          passwordMatches: (string, string) -> bool, sign: (Claims, string) -> string)
    requires email.None? || email.value !in users
    ensures Login(users, email, password, passwordMatches, sign) == LoginFailed(InvalidCredentials)
  {
  }

  /**
   * An inactive account is 403 "Account is inactive" before the password is
   * checked: neither the password nor the password check changes the answer.
   */
  lemma LoginInactiveBeforePassword(users: map<string, UserRecord>, email: string,
                                    password: string, otherPassword: string,
                                    passwordMatches: (string, string) -> bool,
                                    otherMatches: (string, string) -> bool,
                                    sign: (Claims, string) -> string)
    requires email in users && users[email].isActive != 1
    ensures Login(users, Some(email), password, passwordMatches, sign) == LoginFailed(AccountInactive)
    ensures Login(users, Some(email), password, passwordMatches, sign) ==
            Login(users, Some(email), otherPassword, otherMatches, sign)
  {
  }

  /**
   * A wrong password on an active account gets the very response an unknown
   * email gets, so the answer does not reveal which emails are registered.
   */
  lemma LoginWrongPasswordLikeUnknownEmail(users: map<string, UserRecord>, email: string, unknown: string,
                                           password: string, passwordMatches: (string, string) -> bool,
                                           sign: (Claims, string) -> string)
    requires email in users && users[email].isActive == 1
    requires !passwordMatches(password, users[email].passwordHash)
    requires unknown !in users
    ensures Login(users, Some(email), password, passwordMatches, sign) == LoginFailed(InvalidCredentials)
    ensures Login(users, Some(email), password, passwordMatches, sign) ==
            Login(users, Some(unknown), password, passwordMatches, sign)
  {
  }

  /**
   * The tables the handlers touch: `users` keyed by email, the user ids that
   * have a `user_settings` row, the `(user_id, course_id)` pairs of
   * `course_enrollments`, and the next auto-increment user id. The role and
   * active flag of a new user are the columns' defaults, given at construction.
   */
  class Database {
    var users: map<string, UserRecord>
    var settings: set<nat>
    var enrollments: set<(nat, string)>
    var nextId: nat
    const defaultRole: string
    const defaultActive: int

    /**
     * Every user is stored under its own email, has an id already handed out
     * and a settings row; every settings row belongs to an id handed out; no
     * two users share an id.
     */
    ghost predicate Valid()
      reads this
    {
      && (forall e :: e in users ==>
            users[e].email == e && users[e].userId < nextId && users[e].userId in settings)
      && (forall id :: id in settings ==> id < nextId)
      && (forall e, e' :: e in users && e' in users && users[e].userId == users[e'].userId ==> e == e')
    }

    constructor (defaultRole: string, defaultActive: int)
      ensures Valid()
      ensures users == map[] && settings == {} && enrollments == {} && nextId == 1
      ensures this.defaultRole == defaultRole && this.defaultActive == defaultActive
    {
      users := map[];
      settings := {};
      enrollments := {};
      nextId := 1;
      this.defaultRole := defaultRole;
      this.defaultActive := defaultActive;
    }

    /** The row registration inserts for `input` under id `id`. */
    function NewUser(input: Registration, id: nat, passwordHash: string): UserRecord
      requires Complete(input)
    {
      UserRecord(id, input.fullName.value, input.email.value, passwordHash, defaultRole, defaultActive,
                 input.collegeName, input.branch, input.year, input.mobile)
    }

    /**
     * The register handler. `passwordHash` is what `bcrypt.hash` made of the
     * password. Missing fields are refused first, then an email already in
     * use; both leave every table as it was. Otherwise exactly one user, with
     * a fresh id, and exactly one settings row for that id are added.
     */
    method Register(input: Registration, passwordHash: string) returns (r: RegisterResult)
      requires Valid()
      modifies this`users, this`settings, this`nextId
      ensures Valid()
      ensures !Complete(input) ==>
                r == RegisterFailed(AllFieldsRequired) &&
                users == old(users) && settings == old(settings) && nextId == old(nextId)
      ensures Complete(input) && input.email.value in old(users) ==>
                r == RegisterFailed(EmailRegistered) &&
                users == old(users) && settings == old(settings) && nextId == old(nextId)
      ensures Complete(input) && input.email.value !in old(users) ==>
                && r == Registered(old(nextId))
                && (forall e :: e in old(users) ==> old(users)[e].userId != r.userId)
                && users == old(users)[input.email.value := NewUser(input, r.userId, passwordHash)]
                && |users| == |old(users)| + 1
                && r.userId !in old(settings)
                && settings == old(settings) + {r.userId}
                && nextId == old(nextId) + 1
    {
      if !Complete(input) {
        return RegisterFailed(AllFieldsRequired);
      }
      var email := input.email.value;
      if email in users {
        return RegisterFailed(EmailRegistered);
      }
      var id := nextId;
      users := users[email := NewUser(input, id, passwordHash)];
      nextId := nextId + 1;
      settings := settings + {id};
      r := Registered(id);
    }

    /**
     * The enroll handler's table update: a pair already present is refused
     * and changes nothing; otherwise exactly that pair is added.
     */
    method Enroll(userId: nat, courseId: string) returns (r: EnrollResult)
      requires Valid()
      modifies this`enrollments
      ensures Valid()
      ensures (userId, courseId) in old(enrollments) ==>
                r == EnrollFailed(AlreadyEnrolled) && enrollments == old(enrollments)
      ensures (userId, courseId) !in old(enrollments) ==>
                r == Enrolled && enrollments == old(enrollments) + {(userId, courseId)}
    {
      if (userId, courseId) in enrollments {
        return EnrollFailed(AlreadyEnrolled);
      }
      enrollments := enrollments + {(userId, courseId)};
      r := Enrolled;
    }
  }
}
