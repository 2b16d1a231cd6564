/** The authentication middleware: the bearer-header check and token read, and
    the role gate. Token verification (signature and expiry) is a parameter. */
module Session {
  import opened Common
  import opened Text
  import opened Auth

  const BearerPrefix: string := "Bearer "

  /** authMiddleware: the claims to attach to the request, or the error passed on.
      `verify` stands for jwt.verify with the server's secret: the claims of a
      valid, unexpired token and None otherwise. */
  function Authenticate(header: Option<string>, verify: string -> Option<Claims>): (r: Result<Claims>)
    ensures (header.None? || !StartsWith(header.value, BearerPrefix)) ==>
      r == Err(Fail(401, "Missing or invalid authorization"))
    ensures header.Some? && StartsWith(header.value, BearerPrefix) ==>
      && (r.Ok? <==> verify(header.value[|BearerPrefix|..]).Some?)
      && (r.Ok? ==> r.value == verify(header.value[|BearerPrefix|..]).value)
      && (r.Err? ==> r.error == Fail(401, "Invalid or expired token"))
  {
    if header.None? || !StartsWith(header.value, BearerPrefix) then Err(Fail(401, "Missing or invalid authorization"))
    else
      match verify(header.value[7..])
      case None => Err(Fail(401, "Invalid or expired token"))
      case Some(claims) => Ok(claims)
  }

  /** The token read from "Bearer " + t is t itself: a client sending the token it
      was issued is authenticated with exactly that token's claims. */
  lemma BearerRoundTrip(token: string, verify: string -> Option<Claims>)
    ensures var r := Authenticate(Some(BearerPrefix + token), verify);
      && (verify(token).Some? ==> r == Ok(verify(token).value))
      && (verify(token).None? ==> r == Err(Fail(401, "Invalid or expired token")))
  {
    var h := BearerPrefix + token;
    assert h[..|BearerPrefix|] == BearerPrefix;
    assert h[|BearerPrefix|..] == token;
  }

  /** A header in any other scheme (here "bearer " in lower case) is refused before
      any token check. */
  lemma SchemeIsCaseSensitive(token: string, verify: string -> Option<Claims>)
    ensures Authenticate(Some("bearer " + token), verify) == Err(Fail(401, "Missing or invalid authorization"))
  {
    var h := "bearer " + token;
    assert h[0] == 'b';
  }

  /** requireRole: the error passed on, None when the request may proceed. */
  function RequireRole(user: Option<Claims>, roles: seq<Role>): (r: Option<AppError>)
    ensures r.None? <==> user.Some? && user.value.role in roles
    ensures user.None? ==> r == Some(Fail(401, "Unauthorized"))
    ensures user.Some? && user.value.role !in roles ==> r == Some(Fail(403, "Insufficient permissions"))
  {
    if user.None? then Some(Fail(401, "Unauthorized"))
    else if user.value.role !in roles then Some(Fail(403, "Insufficient permissions"))
    else None
  }

  /** An owner-only route lets owners through and turns staff away with 403. */
  lemma OwnerOnlyRoutes(c: Claims)
    ensures RequireRole(Some(c), [Owner]) == if c.role == Owner then None else Some(Fail(403, "Insufficient permissions"))
  {
  }
}
