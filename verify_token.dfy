/** verifyToken: the session gate in front of protected handlers. It reads the `token` cookie,
    verifies it with JWT_SECRET and writes the decoded claims onto the request. */
module VerifyToken {
  import opened Jwt
  import TokenCookie

  /** What a middleware does with a request: hand it on with `next()`, or answer it. */
  datatype GateOutcome = Next | Respond(status: nat, message: string)

  /** The claims the gate lets through, or the answer it writes. */
  datatype GateResult = Pass(userId: string, userRole: string) | Stop(status: nat, message: string)

  const NoTokenMessage := "Unauthorized - No token was provided."
  const InvalidTokenMessage := "Unauthorized - Invalid token."
  const SecretMissingMessage := "JWT_SECRET or NODE_ENV is not defined in environment variables"

  /** `req.cookies.token` is present and truthy. */
  predicate HasToken(cookies: map<string, Token>)
  {
    TokenCookie.CookieName in cookies && cookies[TokenCookie.CookieName] != Malformed("")
  }

  /** The gate's decision on a cookie jar at a given time. */
  function Check(cookies: map<string, Token>, env: Env, nowMs: nat): (r: GateResult)
    // A request passes exactly when its token verifies under the secret to a claims payload, and it
    // passes with exactly those claims.
    ensures r.Pass? <==> HasToken(cookies) && env.jwtSecret != ""
                         && Verify(cookies[TokenCookie.CookieName], env.jwtSecret, nowMs).Decoded?
                         && Verify(cookies[TokenCookie.CookieName], env.jwtSecret, nowMs).payload.Claims?
    ensures r.Pass? ==> Verify(cookies[TokenCookie.CookieName], env.jwtSecret, nowMs) == Decoded(Claims(r.userId, r.userRole))
    // The failures: no cookie is 401; a missing secret and every verification error (bad signature,
    // expired, malformed) are 500 with the error's message; a falsy payload is 401.
    ensures !HasToken(cookies) ==> r == Stop(401, NoTokenMessage)
    ensures HasToken(cookies) && env.jwtSecret == "" ==> r == Stop(500, SecretMissingMessage)
    ensures HasToken(cookies) && env.jwtSecret != "" && Verify(cookies[TokenCookie.CookieName], env.jwtSecret, nowMs).Thrown?
            ==> r == Stop(500, Verify(cookies[TokenCookie.CookieName], env.jwtSecret, nowMs).message)
    ensures HasToken(cookies) && env.jwtSecret != "" && Verify(cookies[TokenCookie.CookieName], env.jwtSecret, nowMs) == Decoded(EmptyPayload)
            ==> r == Stop(401, InvalidTokenMessage)
  {
    if !HasToken(cookies) then Stop(401, NoTokenMessage)
    else if env.jwtSecret == "" then Stop(500, SecretMissingMessage)
    else
      match Verify(cookies[TokenCookie.CookieName], env.jwtSecret, nowMs)
      case Thrown(message) => Stop(500, message)
      case Decoded(EmptyPayload) => Stop(401, InvalidTokenMessage)
      case Decoded(Claims(userId, userRole)) => Pass(userId, userRole)
  }

  /** The Express request as far as the gates see it: its cookies and the two properties
      verifyToken attaches ("" until attached). */
  class Request {
    const cookies: map<string, Token>
    var userId: string
    var userRole: string

    constructor (cookies: map<string, Token>)
      ensures this.cookies == cookies && userId == "" && userRole == ""
    {
      this.cookies := cookies;
      userId := "";
      userRole := "";
    }
  }

  /** The middleware itself: early returns, then the claims are written onto the request and
      `next()` is called. */
  method VerifyToken(req: Request, env: Env, nowMs: nat) returns (out: GateOutcome)
    modifies req
    ensures out.Next? <==> Check(req.cookies, env, nowMs).Pass?
    ensures out.Next? ==> req.userId == Check(req.cookies, env, nowMs).userId
                          && req.userRole == Check(req.cookies, env, nowMs).userRole
    ensures out.Respond? ==> out.status == Check(req.cookies, env, nowMs).status
                             && out.message == Check(req.cookies, env, nowMs).message
                             && unchanged(req)
  {
    if !HasToken(req.cookies) {
      return Respond(401, NoTokenMessage);
    }
    var token := req.cookies[TokenCookie.CookieName];
    if env.jwtSecret == "" {
      // thrown inside the try block and answered by its catch
      return Respond(500, SecretMissingMessage);
    }
    var decoded := Verify(token, env.jwtSecret, nowMs);
    if decoded.Thrown? {
      return Respond(500, decoded.message);
    }
    if decoded.payload.EmptyPayload? {
      return Respond(401, InvalidTokenMessage);
    }
    req.userId := decoded.payload.userId;
    req.userRole := decoded.payload.userRole;
    return Next;
  }
}
