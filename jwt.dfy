/** The JSON Web Tokens (RFC 7519) the server issues, with signing and verification idealised:
    a token verifies under a key exactly when it was signed with that key. The `exp` and `iat`
    claims are in seconds (RFC 7519 sections 4.1.4 and 4.1.6) and a token is expired from the
    second `exp` on, as the jsonwebtoken library decides. */
module Jwt {

  /** The two process environment variables the session code reads; "" stands for unset. */
  datatype Env = Env(jwtSecret: string, nodeEnv: string)

  /** The payload of a token: the application's claims, or a payload that decodes to a falsy value. */
  datatype Payload = Claims(userId: string, userRole: string) | EmptyPayload

  /** A cookie value: a signed token, or text that is not a token at all ("" is the empty cookie). */
  datatype Token = Signed(payload: Payload, key: string, iat: nat, exp: nat) | Malformed(raw: string)

  /** `expiresIn: "7d"`. */
  const SevenDaysSeconds: nat := 7 * 24 * 60 * 60

  /** `jwt.sign(payload, key, { expiresIn: "7d" })` at time `nowMs` (milliseconds since the epoch). */
  function Sign(payload: Payload, key: string, nowMs: nat): Token
  {
    Signed(payload, key, nowMs / 1000, nowMs / 1000 + SevenDaysSeconds)
  }

  /** What `jwt.verify` does: it returns the payload or throws an error with a message. */
  datatype Verified = Decoded(payload: Payload) | Thrown(message: string)

  const MalformedMessage := "jwt malformed"
  const BadSignatureMessage := "invalid signature"
  const ExpiredMessage := "jwt expired"

  function Verify(t: Token, key: string, nowMs: nat): Verified
  {
    match t
    case Malformed(_) => Thrown(MalformedMessage)
    case Signed(p, k, _, exp) =>
      if k != key then Thrown(BadSignatureMessage)
      else if nowMs / 1000 >= exp then Thrown(ExpiredMessage)
      else Decoded(p)
  }

  /** A token signed with a key decodes under that key to the signed payload for seven days,
      and is rejected as expired afterwards. */
  lemma SignThenVerify(payload: Payload, key: string, issuedMs: nat, nowMs: nat)
    ensures Verify(Sign(payload, key, issuedMs), key, nowMs)
            == if nowMs / 1000 < issuedMs / 1000 + SevenDaysSeconds then Decoded(payload) else Thrown(ExpiredMessage)
  {
  }

  /** Verification under any other key fails, whatever the time. */
  lemma ForeignKeyRejected(payload: Payload, key: string, other: string, issuedMs: nat, nowMs: nat)
    requires other != key
    ensures Verify(Sign(payload, key, issuedMs), other, nowMs) == Thrown(BadSignatureMessage)
  {
  }
}
