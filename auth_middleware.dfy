/**
 * middleware/authmiddleware.js, `protect`: reads the Authorization header,
 * takes the token after "Bearer", verifies it, refuses a session older than
 * 48 hours and hands the caller's account, without its password, to the
 * next handler.  Token verification (`jwt.verify`) is a parameter; the clock
 * is the `nowMillis` argument.
 */
module AuthMiddleware {
  import opened Wrappers
  import opened ObjectIds
  import opened JsErrors
  import opened JsStrings
  import opened UserSchema

  /** 48 hours, in seconds. */
  const MaxSessionAge: int := 48 * 60 * 60

  /** What a verified token carries: the account id and the issue time in seconds. */
  datatype Claims = Claims(id: ObjectId, iat: int)

  /** `next()` with `req.auth` set (to null when the account no longer exists),
      or an error thrown on to the error middleware. */
  datatype Guard = Next(auth: Option<PublicAccount>) | Reject(error: Exn)

  function NotAuthorized(): Exn { Raise("Not authorized", 403) }
  function SessionExpired(): Exn { Raise("Session expired", 401) }

  /** `header.split(" ")[1]`: the second space-separated field, if there is one. */
  function BearerToken(header: string): (t: Option<string>)
    ensures t.Some? <==> ' ' in header
  {
    var fields := Split(header, ' ');
    SplitHasSecondFieldIffSpace(header);
    if |fields| >= 2 then Some(fields[1]) else None
  }

  lemma SplitHasSecondFieldIffSpace(s: string)
    ensures |Split(s, ' ')| >= 2 <==> ' ' in s
  {
    JoinSplit(s, ' ');
    var fields := Split(s, ' ');
    if |fields| >= 2 {
      assert s == fields[0] + [' '] + Join(fields[1..], ' ');
      assert s[|fields[0]|] == ' ';
    }
  }

  /** The claims of the token in an acceptable header, when it verifies. */
  function Decoded(authorization: Option<string>, verify: string -> Option<Claims>): Option<Claims> {
    if authorization.Some? && StartsWith(authorization.value, "Bearer") then
      match BearerToken(authorization.value)
      case None => None
      case Some(token) => verify(token)
    else None
  }

  /** `protect`.  `nowMillis` is `Date.now()`; the age test is strict. */
  function Protect(authorization: Option<string>, verify: string -> Option<Claims>,
                   nowMillis: nat, accounts: map<ObjectId, Account>): (g: Guard)
    ensures g.Reject? && g.error.statusCode == Some(401)
        <==> Decoded(authorization, verify).Some? && nowMillis / 1000 - Decoded(authorization, verify).value.iat > MaxSessionAge
    ensures g.Next? <==>
      (Decoded(authorization, verify).Some? && nowMillis / 1000 - Decoded(authorization, verify).value.iat <= MaxSessionAge)
    ensures Decoded(authorization, verify).None? ==> g == Reject(NotAuthorized())
    ensures g.Reject? ==> g.error in {NotAuthorized(), SessionExpired()}
    ensures g.Next? ==> var id := Decoded(authorization, verify).value.id;
      g.auth == if id in accounts then Some(WithoutPassword(id, accounts[id])) else None
  {
    match Decoded(authorization, verify)
    case None => Reject(NotAuthorized())
    case Some(claims) =>
      if nowMillis / 1000 - claims.iat > MaxSessionAge then Reject(SessionExpired())
      else Next(if claims.id in accounts then Some(WithoutPassword(claims.id, accounts[claims.id])) else None)
  }

  /** A missing header, or one that does not start with "Bearer" (the test is
      case-sensitive), is refused with 403 whatever the token. */
  lemma NoBearerPrefixIsForbidden(authorization: Option<string>, verify: string -> Option<Claims>,
                                  nowMillis: nat, accounts: map<ObjectId, Account>)
    requires authorization.None? || !StartsWith(authorization.value, "Bearer")
    ensures Protect(authorization, verify, nowMillis, accounts) == Reject(NotAuthorized())
  {
  }

  /** The token is the text after "Bearer " when it contains no space. */
  lemma {:induction false} TokenFollowsBearer(token: string)
    requires ' ' !in token
    ensures StartsWith("Bearer " + token, "Bearer")
    ensures BearerToken("Bearer " + token) == Some(token)
  {
    var h := "Bearer " + token;
    assert h == Join(["Bearer", token], ' ');
    SplitJoin(["Bearer", token], ' ');
    assert h[..6] == "Bearer";
  }

  /** The prefix test needs no space after "Bearer": in "BearerX t" the token is t. */
  lemma {:induction false} PrefixNeedsNoSpace(glued: string, token: string)
    requires ' ' !in glued && ' ' !in token
    ensures StartsWith("Bearer" + glued + " " + token, "Bearer")
    ensures BearerToken("Bearer" + glued + " " + token) == Some(token)
  {
    var h := "Bearer" + glued + " " + token;
    assert h == Join(["Bearer" + glued, token], ' ');
    assert ' ' !in "Bearer" + glued;
    SplitJoin(["Bearer" + glued, token], ' ');
    assert h[..6] == "Bearer";
  }

  /** A header without a space has no token, and is refused with 403. */
  lemma NoTokenIsForbidden(header: string, verify: string -> Option<Claims>,
                           nowMillis: nat, accounts: map<ObjectId, Account>)
    requires ' ' !in header
    ensures Protect(Some(header), verify, nowMillis, accounts) == Reject(NotAuthorized())
  {
  }

  /** A session exactly 48 hours old is still accepted; one second more and it
      is refused with 401. */
  lemma SessionAgeBoundary(token: string, verify: string -> Option<Claims>,
                           c: Claims, accounts: map<ObjectId, Account>)
    requires ' ' !in token && verify(token) == Some(c) && c.iat >= 0
    ensures Protect(Some("Bearer " + token), verify, (c.iat + MaxSessionAge) * 1000, accounts).Next?
    ensures Protect(Some("Bearer " + token), verify, (c.iat + MaxSessionAge + 1) * 1000, accounts)
            == Reject(SessionExpired())
  {
    TokenFollowsBearer(token);
  }

  /** A token that does not verify is refused with 403, never 401. */
  lemma UnverifiedTokenIsForbidden(token: string, verify: string -> Option<Claims>,
                                   nowMillis: nat, accounts: map<ObjectId, Account>)
    requires ' ' !in token && verify(token).None?
    ensures Protect(Some("Bearer " + token), verify, nowMillis, accounts) == Reject(NotAuthorized())
  {
    TokenFollowsBearer(token);
  }
}
