/**
 * The admin guard in front of the recipe writes: a bearer token from the
 * `Authorization` header, verified with the server's JWT secret, whose
 * payload must not be past its `exp` and, for `requireAdmin`, must carry the
 * role "admin". Token verification itself is an oracle; the clock is the
 * current time in milliseconds.
 */
module Auth {
  import opened Wrappers
  import opened Text

  const BearerPrefix := "Bearer "

  /** The decoded payload, as far as the guard reads it. */
  datatype Claims = Claims(role: Option<string>, exp: Option<int>)

  /**
   * What `jwt.verify` throws. `TokenExpiredError` and `NotBeforeError` are
   * subclasses of `JsonWebTokenError` in the library; anything else is some
   * other exception.
   */
  datatype VerifyError = JsonWebTokenError | TokenExpiredError | NotBeforeError | OtherException

  /** `e instanceof jwt.JsonWebTokenError` */
  predicate IsJsonWebTokenError(e: VerifyError) {
    e != OtherException
  }

  /** `jwt.verify(token, secret)`: the decoded payload, or the error it throws. */
  datatype Verification = Decoded(claims: Claims) | Failed(error: VerifyError)

  /** The guard's effect: exactly one response sent, or `req.user` set and `next()` called. */
  datatype AuthOutcome = Reject(status: int, error: string) | Next(user: Claims)

  /**
   * `authHeader.split(' ')[1]`, reading a missing field as "" (both are
   * falsy): a field, so it holds no space.
   */
  function BearerToken(header: string): (token: string)
    ensures forall j :: 0 <= j < |token| ==> token[j] != ' '
  {
    var parts := Split(header, ' ');
    if |parts| > 1 then parts[1] else ""
  }

  /** After the "Bearer " prefix, the token is the text up to the next space. */
  lemma BearerTokenIsSecondField(header: string)
    requires StartsWith(header, BearerPrefix)
    ensures BearerToken(header) == TakeUntil(header[|BearerPrefix|..], ' ')
  {
    var rest := header[|BearerPrefix|..];
    assert header == "Bearer" + [' '] + rest;
    SplitAfterPrefix("Bearer", ' ', rest);
    SplitFirstField(rest, ' ');
  }

  /** "Bearer " alone and "Bearer  x" (two spaces) both give an empty token. */
  lemma EmptyBearerTokens(x: string)
    ensures BearerToken("Bearer ") == "" && BearerToken("Bearer  " + x) == ""
  {
    BearerTokenIsSecondField("Bearer ");
    assert ("Bearer ")[|BearerPrefix|..] == [];
    BearerTokenIsSecondField("Bearer  " + x);
    assert ("Bearer  " + x)[|BearerPrefix|..] == [' '] + x;
  }

  /** The token the header presents, when it is a bearer header with a non-empty token. */
  function PresentedToken(authorization: Option<string>): (t: Option<string>)
    ensures t.Some? <==> authorization.Some? && StartsWith(authorization.value, BearerPrefix)
                         && BearerToken(authorization.value) != ""
    ensures t.Some? ==> t.value != "" && forall j :: 0 <= j < |t.value| ==> t.value[j] != ' '
  {
    if authorization.None? || authorization.value == "" || !StartsWith(authorization.value, BearerPrefix) then None
    else
      var token := BearerToken(authorization.value);
      BearerTokenIsSecondField(authorization.value);
      if token == "" then None else Some(token)
  }

  /**
   * `decoded.exp && decoded.exp < Math.floor(Date.now() / 1000)`: an `exp` of
   * 0 is no expiry; otherwise the token has expired once the clock, in
   * milliseconds, reaches the end of the second `exp` names (integer division
   * by a positive divisor rounds down, as `Math.floor` does).
   */
  function Expired(c: Claims, nowMs: int): (expired: bool)
    ensures c.exp.None? || c.exp.value == 0 ==> !expired
    ensures c.exp.Some? && c.exp.value != 0 ==> (expired <==> (c.exp.value + 1) * 1000 <= nowMs)
  {
    c.exp.Some? && c.exp.value != 0 && c.exp.value < nowMs / 1000
  }

  /**
   * `requireAuth`: a missing or non-bearer header, or an empty token, is 401
   * "Access token required"; a missing secret is 500 before any verification;
   * a decoded payload past its `exp` is 401 "Token expired"; otherwise the
   * payload becomes `req.user`. A thrown `JsonWebTokenError` (its subclasses
   * included) is 401 "Invalid token", anything else 500.
   */
  function RequireAuth(authorization: Option<string>, secret: Option<string>,
                       verify: (string, string) -> Verification, nowMs: int): (o: AuthOutcome)
    ensures PresentedToken(authorization).None? <==> o == Reject(401, "Access token required")
    ensures PresentedToken(authorization).Some? && (secret.None? || secret.value == "") ==>
              o == Reject(500, "Server configuration error")
    ensures o.Next? <==>
              PresentedToken(authorization).Some? && secret.Some? && secret.value != ""
              && verify(PresentedToken(authorization).value, secret.value).Decoded?
              && !Expired(verify(PresentedToken(authorization).value, secret.value).claims, nowMs)
    ensures o.Next? ==> o.user == verify(PresentedToken(authorization).value, secret.value).claims
    ensures PresentedToken(authorization).Some? && secret.Some? && secret.value != ""
            && verify(PresentedToken(authorization).value, secret.value).Failed? ==>
              var e := verify(PresentedToken(authorization).value, secret.value).error;
              o == (if IsJsonWebTokenError(e) then Reject(401, "Invalid token") else Reject(500, "Internal server error"))
    ensures o.Reject? ==> o.status in {401, 500}
  {
    if authorization.None? || authorization.value == "" || !StartsWith(authorization.value, BearerPrefix) then
      Reject(401, "Access token required")
    else
      var token := BearerToken(authorization.value);
      if token == "" then Reject(401, "Access token required")
      else if secret.None? || secret.value == "" then Reject(500, "Server configuration error")
      else match verify(token, secret.value)
        case Failed(e) =>
          if IsJsonWebTokenError(e) then Reject(401, "Invalid token")
          else if e == TokenExpiredError then Reject(401, "Token expired")
          else Reject(500, "Internal server error")
        case Decoded(claims) =>
          if Expired(claims, nowMs) then Reject(401, "Token expired")
          else Next(claims)
  }

  /**
   * The "Token expired" answer comes only from the `exp` check on a decoded
   * payload: a thrown `TokenExpiredError` is caught as a `JsonWebTokenError`
   * first and answered "Invalid token".
   */
  lemma TokenExpiredOnlyFromExpCheck(authorization: Option<string>, secret: Option<string>,
                                     verify: (string, string) -> Verification, nowMs: int)
    ensures var o := RequireAuth(authorization, secret, verify, nowMs);
            o == Reject(401, "Token expired") ==>
              verify(PresentedToken(authorization).value, secret.value).Decoded?
              && Expired(verify(PresentedToken(authorization).value, secret.value).claims, nowMs)
    ensures var o := RequireAuth(authorization, secret, verify, nowMs);
            PresentedToken(authorization).Some? && secret.Some? && secret.value != ""
            && verify(PresentedToken(authorization).value, secret.value) == Failed(TokenExpiredError) ==>
              o == Reject(401, "Invalid token")
  {
  }

  /** An `exp` equal to the current second has not expired yet. */
  lemma ExpiryBoundary(c: Claims, nowMs: int)
    requires c.exp == Some(nowMs / 1000)
    ensures !Expired(c, nowMs)
  {
  }

  /**
   * `requireAdmin`: whatever `requireAuth` answers stands (its own `next` is
   * then never called); an authenticated user whose role is not "admin" gets
   * 403 "Admin access required".
   */
  function RequireAdmin(authorization: Option<string>, secret: Option<string>,
                        verify: (string, string) -> Verification, nowMs: int): (o: AuthOutcome)
    ensures o.Next? ==>
              PresentedToken(authorization).Some? && secret.Some? && secret.value != ""
              && verify(PresentedToken(authorization).value, secret.value) == Decoded(o.user)
              && !Expired(o.user, nowMs) && o.user.role == Some("admin")
    ensures RequireAuth(authorization, secret, verify, nowMs).Reject? ==> o == RequireAuth(authorization, secret, verify, nowMs)
    ensures RequireAuth(authorization, secret, verify, nowMs).Next? ==>
              (o.Next? <==> RequireAuth(authorization, secret, verify, nowMs).user.role == Some("admin"))
    ensures o.Reject? && RequireAuth(authorization, secret, verify, nowMs).Next? ==> o == Reject(403, "Admin access required")
  {
    match RequireAuth(authorization, secret, verify, nowMs)
    case Reject(status, error) => Reject(status, error)
    case Next(user) =>
      if user.role != Some("admin") then Reject(403, "Admin access required")
      else Next(user)
  }

  /** Every request an admin guard lets through is also let through by the plain guard, with the same user. */
  lemma AdminImpliesAuthenticated(authorization: Option<string>, secret: Option<string>,
                                  verify: (string, string) -> Verification, nowMs: int)
    requires RequireAdmin(authorization, secret, verify, nowMs).Next?
    ensures RequireAuth(authorization, secret, verify, nowMs) == RequireAdmin(authorization, secret, verify, nowMs)
  {
  }
}
