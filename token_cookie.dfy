/** generateTokenAndSetCookie: sign the session claims and describe the `token` cookie that
    carries them. The effect `res.cookie(...)` is returned as the cookie to set. */
module TokenCookie {
  import opened Jwt

  datatype SameSite = Strict | Lax

  datatype CookieOptions = CookieOptions(httpOnly: bool, secure: bool, sameSite: SameSite, maxAgeMs: nat)

  datatype SetCookie = SetCookie(name: string, value: Token, options: CookieOptions)

  /** The cookie set together with the returned token, or the error thrown for a missing variable. */
  datatype Issued = Issued(cookie: SetCookie, token: Token) | EnvMissing(message: string)

  /** The cookie name the session gate reads and logout clears. */
  const CookieName := "token"

  const MaxAgeMs: nat := 7 * 24 * 60 * 60 * 1000

  const EnvMissingMessage := "JWT_SECRET or NODE_ENV is not defined in environment variables"

  function GenerateTokenAndSetCookie(env: Env, userId: string, userRole: string, nowMs: nat): (r: Issued)
    // It throws, before signing anything, exactly when a variable is unset.
    ensures r.EnvMissing? <==> env.jwtSecret == "" || env.nodeEnv == ""
    ensures r.EnvMissing? ==> r.message == EnvMissingMessage
    // The cookie is `token` and carries the very token returned, whose claims are exactly {userId, userRole}.
    ensures r.Issued? ==> r.cookie.name == CookieName && r.cookie.value == r.token
    ensures r.Issued? ==> r.token.Signed? && r.token.payload == Claims(userId, userRole) && r.token.key == env.jwtSecret
    // The cookie lives exactly as long as the token.
    ensures r.Issued? ==> r.cookie.options.maxAgeMs == 1000 * (r.token.exp - r.token.iat)
    // Always HTTP-only; secure and same-site strict exactly in production, same-site lax otherwise.
    ensures r.Issued? ==> r.cookie.options.httpOnly
    ensures r.Issued? ==> (r.cookie.options.secure <==> env.nodeEnv == "production")
    ensures r.Issued? ==> (r.cookie.options.sameSite == Strict <==> env.nodeEnv == "production")
  {
    if env.jwtSecret == "" || env.nodeEnv == "" then EnvMissing(EnvMissingMessage)
    else
      var token := Sign(Claims(userId, userRole), env.jwtSecret, nowMs);
      var production := env.nodeEnv == "production";
      var options := CookieOptions(true, production, if production then Strict else Lax, MaxAgeMs);
      Issued(SetCookie(CookieName, token, options), token)
  }

  /** The cookie handed out decodes, under the same secret, to the claims it was issued for during
      its whole lifetime except possibly the last second: `iat` is the issue time rounded down to
      the second, so the token can expire up to 999 ms before the cookie does. */
  lemma IssuedCookieDecodes(env: Env, userId: string, userRole: string, issuedMs: nat, nowMs: nat)
    requires GenerateTokenAndSetCookie(env, userId, userRole, issuedMs).Issued?
    requires issuedMs <= nowMs && nowMs + 1000 <= issuedMs + MaxAgeMs
    ensures Verify(GenerateTokenAndSetCookie(env, userId, userRole, issuedMs).cookie.value, env.jwtSecret, nowMs)
            == Decoded(Claims(userId, userRole))
  {
    SignThenVerify(Claims(userId, userRole), env.jwtSecret, issuedMs, nowMs);
  }

  /** The last second: a cookie issued at 999 ms is still within its max-age at 604,800,000 ms,
      but the token inside it is already expired. */
  lemma CookieOutlivesToken(env: Env, userId: string, userRole: string)
    requires env.jwtSecret != "" && env.nodeEnv != ""
    ensures var issued := GenerateTokenAndSetCookie(env, userId, userRole, 999);
            604_800_000 < 999 + issued.cookie.options.maxAgeMs
            && Verify(issued.cookie.value, env.jwtSecret, 604_800_000) == Thrown(ExpiredMessage)
  {
  }
}
