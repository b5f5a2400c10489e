/**
 * How the pieces meet: the enroll route behind `authenticateToken`
 * (server.js:272), and the path of a token from the login response through
 * the browser's header (global.js:16) back into the gates.
 */
module Routes {
  import opened Wrappers
  import opened Header
  import opened Middleware
  import opened Accounts

  /**
   * What `jwt.sign` and `jwt.verify` are assumed to promise each other while
   * a token is within its lifetime: a signed token is a non-empty string
   * without spaces (the compact form is base64url parts joined by dots), and
   * verifying it gives back exactly the claims that were signed.
   */
  ghost predicate TokenCodec(sign: (Claims, string) -> string, verify: string -> Option<Claims>)
  {
    forall c: Claims :: sign(c, TokenLifetime) != [] && ' ' !in sign(c, TokenLifetime) &&
                        verify(sign(c, TokenLifetime)) == Some(c)
  }

  /**
   * `POST /api/courses/:id/enroll`: `authenticateToken`, then the handler,
   * which enrolls the user named by the token. A rejected request never
   * reaches the handler and leaves the enrollments untouched; no route
   * changes the users or settings tables.
   */
  method EnrollRoute(req: Request, db: Database, courseId: string, verify: string -> Option<Claims>)
    returns (outcome: Option<EnrollResult>)
    requires Untouched(req) && db.Valid()
    modifies req, db
    ensures db.Valid()
    ensures db.users == old(db.users) && db.settings == old(db.settings) && db.nextId == old(db.nextId)
    ensures outcome.None? <==> Authenticate(req.authorization, verify).Halt?
    ensures outcome.None? ==>
              req.response == Some(Authenticate(req.authorization, verify).response) &&
              db.enrollments == old(db.enrollments)
    ensures outcome.Some? ==>
              var pair := (Authenticate(req.authorization, verify).user.userId, courseId);
              && (pair in old(db.enrollments) ==>
                    outcome.value == EnrollFailed(AlreadyEnrolled) && db.enrollments == old(db.enrollments))
              && (pair !in old(db.enrollments) ==>
                    outcome.value == Enrolled && db.enrollments == old(db.enrollments) + {pair})
  {
    var handlerRuns := RunAuthenticatedRoute(req, verify);
    if !handlerRuns {
      return None;
    }
    var r := db.Enroll(req.user.value.userId, courseId);
    outcome := Some(r);
  }

  /**
   * A token issued by login, sent back by the browser as `"Bearer " + token`,
   * gets through `authenticateToken` with exactly the stored user's
   * `{user_id, email, role}`, and through the admin chain if and only if that
   * stored role was "admin" when the token was issued.
   */
  lemma IssuedTokenOpensGates(users: map<string, UserRecord>, email: Option<string>, password: string,
                              passwordMatches: (string, string) -> bool,
                              sign: (Claims, string) -> string, verify: string -> Option<Claims>)
    requires TokenCodec(sign, verify)
    requires Login(users, email, password, passwordMatches, sign).LoginOk?
    ensures email.Some? && email.value in users
    ensures var u := users[email.value];
            var header := ClientHeader(Some(Login(users, email, password, passwordMatches, sign).token));
            && Authenticate(header, verify) == Continue(Claims(u.userId, u.email, u.role))
            && AdminChain(header, verify) ==
                 if u.role == "admin" then Continue(Claims(u.userId, u.email, u.role)) else Halt(AdminRequired)
  {
    var token := Login(users, email, password, passwordMatches, sign).token;
    assert token == sign(ClaimsOf(users[email.value]), TokenLifetime);
    ClientHeaderRoundTrip(Some(token));
  }

  /**
   * The row `Database.Register` stores for a complete registration (its
   * ensures puts `NewUser(input, id, passwordHash)` under the email) lets
   * that email log in with the registered password, provided the column
   * default makes new accounts active and `passwordHash` is what the
   * password hashes to; the token is issued for the new row.
   */
  lemma RegisteredUserLogsIn(db: Database, users: map<string, UserRecord>, input: Registration,
                             id: nat, passwordHash: string,
                             passwordMatches: (string, string) -> bool, sign: (Claims, string) -> string)
    requires Complete(input) && db.defaultActive == 1
    requires passwordMatches(input.password.value, passwordHash)
    ensures var u := db.NewUser(input, id, passwordHash);
            Login(users[input.email.value := u], input.email, input.password.value, passwordMatches, sign) ==
            LoginOk(sign(Claims(id, input.email.value, db.defaultRole), TokenLifetime),
                    PublicUser(id, input.fullName.value, input.email.value, db.defaultRole))
  {
  }
}
