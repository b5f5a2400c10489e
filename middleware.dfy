/**
 * The two request gates of server.js: `authenticateToken` (lines 52-63) and
 * `isAdmin` (lines 66-71), first as decisions over their inputs, then as the
 * stages that update the request and call `next()`, chained the way the
 * routes chain them.
 */
module Middleware {
  import opened Wrappers
  import opened Header

  /** The payload a token carries, `{user_id, email, role}`, as `jwt.verify` decodes it into `req.user`. */
  datatype Claims = Claims(userId: nat, email: string, role: string)

  /** A response `res.status(status).json({ error })`. */
  datatype ErrorResponse = ErrorResponse(status: nat, error: string)

  const AdminRole := "admin"
  const AccessDenied := ErrorResponse(401, "Access denied")
  const InvalidToken := ErrorResponse(403, "Invalid token")
  const AdminRequired := ErrorResponse(403, "Admin access required")

  /** What a gate does: call `next()` with the request's user, or answer and stop. */
  datatype Step = Continue(user: Claims) | Halt(response: ErrorResponse)

  /**
   * `authenticateToken`'s decision, with `verify` standing for `jwt.verify`
   * and the server's secret. It answers only 401 "Access denied" (exactly
   * when there is no token) or 403 "Invalid token" (exactly when the
   * verifier refuses the token); when it continues, the user is what the
   * verifier decoded from the header's token.
   */
  function Authenticate(header: Option<string>, verify: string -> Option<Claims>): (r: Step)
    ensures r.Halt? ==> r.response in {AccessDenied, InvalidToken}
    ensures r == Halt(AccessDenied) <==> ExtractToken(header).None?
    ensures r == Halt(InvalidToken) <==> ExtractToken(header).Some? && verify(ExtractToken(header).value).None?
    ensures r.Continue? ==> ExtractToken(header).Some? && verify(ExtractToken(header).value) == Some(r.user)
  {
    match ExtractToken(header)
    case None => Halt(AccessDenied)
    case Some(token) =>
      match verify(token)
      case None => Halt(InvalidToken)
      case Some(user) => Continue(user)
  }

  /** `isAdmin`'s decision: it continues if and only if the role is "admin", and never changes the user. */
  function RequireAdmin(user: Claims): (r: Step)
    ensures r.Continue? <==> user.role == AdminRole
    ensures r.Continue? ==> r.user == user
    ensures r.Halt? ==> r.response == AdminRequired
  {
    if user.role == AdminRole then Continue(user) else Halt(AdminRequired)
  }

  /**
   * The chain `authenticateToken, isAdmin` in front of every admin route: the
   * handler is reached if and only if a token is present, the verifier
   * accepts it and the decoded role is "admin"; the handler then sees the
   * decoded claims.
   */
  function AdminChain(header: Option<string>, verify: string -> Option<Claims>): (r: Step)
    ensures r.Continue? <==>
              ExtractToken(header).Some? && verify(ExtractToken(header).value).Some? &&
              verify(ExtractToken(header).value).value.role == AdminRole
    ensures r.Continue? ==> Some(r.user) == verify(ExtractToken(header).value)
  {
    match Authenticate(header, verify)
    case Halt(response) => Halt(response)
    case Continue(user) => RequireAdmin(user)
  }

  /**
   * A request without a token is refused with 401 "Access denied" by both
   * chains, whatever the verifier would have said: verification is never
   * consulted and no role check comes first.
   */
  lemma MissingTokenDenied(header: Option<string>, verify: string -> Option<Claims>, other: string -> Option<Claims>)
    requires ExtractToken(header) == None
    ensures Authenticate(header, verify) == Authenticate(header, other) == Halt(AccessDenied)
    ensures AdminChain(header, verify) == AdminChain(header, other) == Halt(AccessDenied)
  {
  }

  /**
   * The admin chain's rejections, in the order they are decided: a missing
   * token is 401 before anything else; a refused token is 403 "Invalid token"
   * before the role is looked at; only then a non-admin role is 403
   * "Admin access required".
   */
  lemma AdminChainRejections(header: Option<string>, verify: string -> Option<Claims>)
    ensures ExtractToken(header).None? ==> AdminChain(header, verify) == Halt(AccessDenied)
    ensures ExtractToken(header).Some? && verify(ExtractToken(header).value).None? ==>
              AdminChain(header, verify) == Halt(InvalidToken)
    ensures ExtractToken(header).Some? && verify(ExtractToken(header).value).Some? &&
            verify(ExtractToken(header).value).value.role != AdminRole ==>
              AdminChain(header, verify) == Halt(AdminRequired)
    ensures AdminChain(header, verify).Halt? ==>
              AdminChain(header, verify).response in {AccessDenied, InvalidToken, AdminRequired}
  {
  }

  /**
   * One request on its way through the gates. `user` is `req.user` (unset
   * until a token verifies), `response` is what a gate answered, if any, and
   * `nextCalls` counts the calls to `next()`, so a chain of `k` gates has
   * handed the request to its handler exactly when `nextCalls == k`.
   */
  class Request {
    const authorization: Option<string>
    var user: Option<Claims>
    var response: Option<ErrorResponse>
    var nextCalls: nat

    constructor (authorization: Option<string>)
      ensures this.authorization == authorization
      ensures user == None && response == None && nextCalls == 0
    {
      this.authorization := authorization;
      user := None;
      response := None;
      nextCalls := 0;
    }

    /**
     * `authenticateToken`: on success sets the user to the decoded claims and
     * calls `next()` once; on failure answers and leaves the user and
     * `next()` alone.
     */
    method AuthenticateToken(verify: string -> Option<Claims>)
      modifies this
      ensures Authenticate(authorization, verify).Continue? ==>
                && user == Some(Authenticate(authorization, verify).user)
                && response == old(response)
                && nextCalls == old(nextCalls) + 1
      ensures Authenticate(authorization, verify).Halt? ==>
                && user == old(user)
                && response == Some(Authenticate(authorization, verify).response)
                && nextCalls == old(nextCalls)
    {
      var token := ExtractToken(authorization);
      if token.None? {
        response := Some(AccessDenied);
        return;
      }
      var decoded := verify(token.value);
      if decoded.None? {
        response := Some(InvalidToken);
        return;
      }
      user := decoded;
      nextCalls := nextCalls + 1;
    }

    /**
     * `isAdmin`, which reads `req.user` and so runs only after a successful
     * `authenticateToken`: calls `next()` once for an admin, answers 403
     * otherwise, and never touches the user.
     */
    method IsAdmin()
      requires user.Some?
      modifies this`response, this`nextCalls
      ensures user == old(user)
      ensures RequireAdmin(user.value).Continue? ==> response == old(response) && nextCalls == old(nextCalls) + 1
      ensures RequireAdmin(user.value).Halt? ==>
                response == Some(RequireAdmin(user.value).response) && nextCalls == old(nextCalls)
    {
      if user.value.role != AdminRole {
        response := Some(AdminRequired);
        return;
      }
      nextCalls := nextCalls + 1;
    }
  }

  /** A request that no gate has seen yet. */
  predicate Untouched(req: Request)
    reads req
  {
    req.user == None && req.response == None && req.nextCalls == 0
  }

  /**
   * A route guarded by `authenticateToken` alone: the handler runs exactly
   * when the gate continues, and then sees the decoded user.
   */
  method RunAuthenticatedRoute(req: Request, verify: string -> Option<Claims>) returns (handlerRuns: bool)
    requires Untouched(req)
    modifies req
    ensures handlerRuns <==> Authenticate(req.authorization, verify).Continue?
    ensures handlerRuns ==> req.user == Some(Authenticate(req.authorization, verify).user) && req.response == None
    ensures !handlerRuns ==> req.user == None && req.response == Some(Authenticate(req.authorization, verify).response)
  {
    req.AuthenticateToken(verify);
    handlerRuns := req.nextCalls == 1;
  }

  /**
   * An admin route, `authenticateToken, isAdmin, handler`: `isAdmin` runs only
   * if `authenticateToken` called `next()`, and the handler only if both did.
   */
  method RunAdminRoute(req: Request, verify: string -> Option<Claims>) returns (handlerRuns: bool)
    requires Untouched(req)
    modifies req
    ensures handlerRuns <==> AdminChain(req.authorization, verify).Continue?
    ensures handlerRuns ==>
              req.user == Some(AdminChain(req.authorization, verify).user) && req.response == None &&
              req.user.value.role == AdminRole
    ensures handlerRuns ==> req.nextCalls == 2
    ensures !handlerRuns ==> req.response == Some(AdminChain(req.authorization, verify).response)
    ensures !handlerRuns ==>
              && req.user == (if Authenticate(req.authorization, verify).Continue?
                              then Some(Authenticate(req.authorization, verify).user) else None)
              && req.nextCalls == (if Authenticate(req.authorization, verify).Continue? then 1 else 0)
  {
    req.AuthenticateToken(verify);
    if req.nextCalls == 1 {
      req.IsAdmin();
    }
    handlerRuns := req.nextCalls == 2;
  }
}
