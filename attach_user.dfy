/**
 * The optional-login middleware: it looks for a session token in the `auth`
 * cookie, then in a bearer header, and attaches the verified user to the
 * request. It never answers the request itself. Verification with the JWT
 * secret is an oracle that yields the payload or nothing (when it throws).
 */
module AttachUser {
  import opened Wrappers
  import opened Text

  const BearerPrefix := "Bearer "

  /** The signed payload of a session token. */
  datatype JwtPayload = JwtPayload(uid: int, role: string, email: string)

  /** `req.user` */
  datatype SessionUser = SessionUser(id: int, role: string, email: string)

  /** The middleware always calls `next()` once, carrying the (possibly updated) `req.user`. */
  datatype Proceed = Proceed(user: Option<SessionUser>)

  /**
   * `cookie || (bearer?.startsWith("Bearer ") ? bearer.slice(7) : undefined)`:
   * an empty cookie counts as none; a non-empty one is used whatever the
   * header says, and otherwise the token is what follows "Bearer ".
   */
  function TokenFrom(cookie: Option<string>, authorization: Option<string>): (t: Option<string>)
    ensures cookie.Some? && cookie.value != "" ==> t == cookie
    ensures (cookie.None? || cookie.value == "") ==>
              (t.Some? <==> authorization.Some? && StartsWith(authorization.value, BearerPrefix))
    ensures (cookie.None? || cookie.value == "") && t.Some? ==> BearerPrefix + t.value == authorization.value
  {
    if cookie.Some? && cookie.value != "" then cookie
    else if authorization.Some? && StartsWith(authorization.value, BearerPrefix) then
      assert BearerPrefix + authorization.value[|BearerPrefix|..] == authorization.value;
      Some(authorization.value[|BearerPrefix|..])
    else None
  }

  /**
   * Without a cookie, the header's token is everything after "Bearer "
   * (spaces included), and a header without that prefix gives no token.
   */
  lemma HeaderToken(authorization: string, token: string)
    ensures TokenFrom(None, Some(BearerPrefix + token)) == Some(token)
    ensures !StartsWith(authorization, BearerPrefix) ==> TokenFrom(None, Some(authorization)).None?
  {
    assert (BearerPrefix + token)[..|BearerPrefix|] == BearerPrefix;
    assert (BearerPrefix + token)[|BearerPrefix|..] == token;
  }

  /**
   * `attachUser`: with no token (or an empty one) `req.user` is left as it
   * was; a token that verifies replaces it with the payload's id, role and
   * email; one that does not verify is ignored.
   */
  function AttachUser(user: Option<SessionUser>, cookie: Option<string>, authorization: Option<string>,
                      verify: string -> Option<JwtPayload>): (r: Proceed)
    ensures r.user != user ==>
              TokenFrom(cookie, authorization).Some? && TokenFrom(cookie, authorization).value != ""
              && verify(TokenFrom(cookie, authorization).value).Some?
    ensures cookie.Some? && cookie.value != "" && verify(cookie.value).Some? ==>
              var p := verify(cookie.value).value;
              r.user == Some(SessionUser(p.uid, p.role, p.email))
    ensures (cookie.None? || cookie.value == "") && authorization.Some? && StartsWith(authorization.value, BearerPrefix)
            && |authorization.value| > |BearerPrefix| && verify(authorization.value[|BearerPrefix|..]).Some? ==>
              var p := verify(authorization.value[|BearerPrefix|..]).value;
              r.user == Some(SessionUser(p.uid, p.role, p.email))
  {
    var token := TokenFrom(cookie, authorization);
    if token.None? || token.value == "" then Proceed(user)
    else match verify(token.value)
      case Some(payload) => Proceed(Some(SessionUser(payload.uid, payload.role, payload.email)))
      case None => Proceed(user)
  }

  /** Running the middleware twice on the same request attaches the same user as running it once. */
  lemma AttachUserIdempotent(user: Option<SessionUser>, cookie: Option<string>, authorization: Option<string>,
                             verify: string -> Option<JwtPayload>)
    ensures AttachUser(AttachUser(user, cookie, authorization, verify).user, cookie, authorization, verify)
            == AttachUser(user, cookie, authorization, verify)
  {
  }
}
