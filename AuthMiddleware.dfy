/**
 * The bearer-token gate in front of every task route
 * (Backend/src/middleware/auth.js, `verifyToken`).
 */
module AuthMiddleware {
  import opened Wrappers
  import opened JsString
  import opened Crypto

  /**
   * What the gate does with a request: answer it itself, or set
   * `req.user = { id }` and call `next()`. A value is exactly one of the two.
   */
  datatype Outcome = Respond(status: int, message: string) | Next(userId: int)

  const HeaderMissing := Respond(401, "Authorization header missing")
  const TokenMissing := Respond(401, "Token missing")
  const InvalidToken := Respond(403, "Invalid or expired token")

  /** `authHeader.split(" ")[1]`: the second space-separated field, if there is one. */
  function SecondField(header: string): (token: Option<string>)
    ensures token.Some? <==> Occurrences(header, ' ') >= 1
    ensures token.Some? ==> ' ' !in token.value
  {
    var parts := Split(header, ' ');
    if |parts| >= 2 then Some(parts[1]) else None
  }

  /**
   * `verifyToken(req, res, next)` for the `Authorization` header `header`,
   * with `ts` the token service under the process-wide secret and `now` the
   * clock reading `jwt.verify` uses.
   */
  function VerifyToken(ts: TokenService, header: Option<string>, now: int): (o: Outcome)
    ensures !Truthy(header) ==> o == HeaderMissing
    ensures Truthy(header) && !Truthy(SecondField(header.value)) ==> o == TokenMissing
    ensures o.Next? <==>
      Truthy(header) && Truthy(SecondField(header.value)) && ts.verify(SecondField(header.value).value, now).Ok?
    ensures o.Next? ==> o.userId == ts.verify(SecondField(header.value).value, now).value.id
    ensures (Truthy(header) && Truthy(SecondField(header.value))
             && ts.verify(SecondField(header.value).value, now).Err?) ==> o == InvalidToken
    ensures o.Respond? ==> o in {HeaderMissing, TokenMissing, InvalidToken}
  {
    if !Truthy(header) then HeaderMissing
    else
      var token := SecondField(header.value);
      if !Truthy(token) then TokenMissing
      else match ts.verify(token.value, now)
        case Ok(decoded) => Next(decoded.id)
        case Err(_) => InvalidToken
  }

  /**
   * The token is the text between the first and the second space, whatever
   * the first word is: the scheme word is never compared with "Bearer".
   */
  lemma TokenIsSecondWord(scheme: string, token: string, tail: string)
    requires ' ' !in scheme && ' ' !in token
    requires tail == "" || tail[0] == ' '
    ensures SecondField(scheme + " " + token + tail) == Some(token)
  {
    assert scheme + " " + token + tail == scheme + [' '] + (token + tail);
    SplitWordThenSeparator(scheme, token + tail, ' ');
    SplitAfterWord(token, tail, ' ');
    assert Split(tail, ' ')[0] == "" by {
      if tail != "" {
        assert Split(tail, ' ') == [""] + Split(tail[1..], ' ');
      }
    }
    assert token + "" == token;
  }

  /** A header of one word, "Bearer " and a doubled space all give 401 "Token missing". */
  lemma NoSecondWordIsTokenMissing(scheme: string, rest: string, ts: TokenService, now: int)
    requires ' ' !in scheme && scheme != ""
    ensures VerifyToken(ts, Some(scheme), now) == TokenMissing
    ensures VerifyToken(ts, Some(scheme + " "), now) == TokenMissing
    ensures VerifyToken(ts, Some(scheme + "  " + rest), now) == TokenMissing
  {
    SplitAfterWord(scheme, "", ' ');
    assert scheme + "" == scheme;
    assert Split(scheme, ' ') == [scheme];
    TokenIsSecondWord(scheme, "", "");
    assert scheme + " " + "" + "" == scheme + " ";
    TokenIsSecondWord(scheme, "", " " + rest);
    assert scheme + " " + "" + (" " + rest) == scheme + "  " + rest;
  }

  /**
   * Any scheme word followed by a token the service accepts lets the request
   * through with the token's subject id; a rejected token gives 403.
   */
  lemma AnySchemeWord(ts: TokenService, scheme: string, token: string, now: int)
    requires ' ' !in scheme && ' ' !in token && token != ""
    ensures ts.verify(token, now).Ok? ==>
      VerifyToken(ts, Some(scheme + " " + token), now) == Next(ts.verify(token, now).value.id)
    ensures ts.verify(token, now).Err? ==>
      VerifyToken(ts, Some(scheme + " " + token), now) == InvalidToken
  {
    TokenIsSecondWord(scheme, token, "");
    assert scheme + " " + token + "" == scheme + " " + token;
  }

  /**
   * A token issued by `login` at `iat` opens the gate for its user until one
   * hour later, and is answered with 403 from then on.
   */
  lemma LoginTokenLifetime(ts: TokenService, id: int, iat: int, now: int)
    requires SignVerifyRoundTrip(ts)
    ensures now < iat + TokenLifetime ==>
      VerifyToken(ts, Some("Bearer " + ts.sign(LoginClaims(id, iat))), now) == Next(id)
    ensures now >= iat + TokenLifetime ==>
      VerifyToken(ts, Some("Bearer " + ts.sign(LoginClaims(id, iat))), now) == InvalidToken
  {
    var token := ts.sign(LoginClaims(id, iat));
    assert "Bearer " + token == "Bearer" + " " + token;
    AnySchemeWord(ts, "Bearer", token, now);
  }
}
