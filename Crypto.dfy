/**
 * The password hasher (bcrypt) and the token service (jsonwebtoken) as
 * uninterpreted functions passed in as values. Each comes with a predicate
 * stating the one property the application relies on; lemmas that need the
 * property take the predicate as a precondition.
 */
module Crypto {
  import opened Wrappers

  /** The salt a hash call draws; randomness is a parameter of the model. */
  type Salt = nat

  /** `bcrypt.hash(password, 10)` and `bcrypt.compare(password, hash)`. */
  datatype Hasher = Hasher(hash: (string, Salt) -> string, compare: (string, string) -> bool)

  /** A password always matches any hash of itself. */
  ghost predicate HashRoundTrip(h: Hasher) {
    forall p, salt :: h.compare(p, h.hash(p, salt))
  }

  /** `expiresIn: "1h"`, in seconds. */
  const TokenLifetime: int := 3600

  /** The payload `jwt.sign` embeds: the subject id, issued-at and expiry (seconds). */
  datatype Claims = Claims(id: int, iat: int, exp: int)

  /** Why `jwt.verify` throws. */
  datatype VerifyError = Malformed | BadSignature | Expired

  /**
   * `jwt.sign(claims, secret)` and `jwt.verify(token, secret)` under the
   * process-wide secret, `verify` reading the clock as its second argument.
   */
  datatype TokenService = TokenService(
    sign: Claims -> string,
    verify: (string, int) -> Result<Claims, VerifyError>)

  /**
   * A signed token is a non-empty compact string without spaces; verifying it
   * gives back its claims until the expiry instant and fails with `Expired`
   * from then on.
   */
  ghost predicate SignVerifyRoundTrip(ts: TokenService) {
    && (forall c :: ts.sign(c) != "" && ' ' !in ts.sign(c))
    && (forall c, now :: ts.verify(ts.sign(c), now) == if now < c.exp then Ok(c) else Err(Expired))
  }

  /** The claims `login` signs at instant `now`: `{ id }` plus a one-hour expiry. */
  function LoginClaims(id: int, now: int): (c: Claims)
    ensures c.id == id && c.exp - c.iat == TokenLifetime && c.iat == now
  {
    Claims(id, now, now + TokenLifetime)
  }
}
