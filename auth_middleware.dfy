/**
 * The route guards of backend/src/middlewares/authMiddleware.js: `protect`
 * reads the bearer token, verifies it, loads the user and rejects a token
 * issued before the user's last password change; `adminOnly` lets only an
 * admin through. Token verification and the password-change check belong
 * to libraries outside this model and are parameters.
 */
module AuthMiddleware {
  import opened Wrappers
  import opened Text
  import opened Domain
  import opened Store

  /** What a verified token carries: the user id and the issue time. */
  datatype Claims = Claims(id: Id, iat: int)

  const NoToken := "Not authorized to access this route"
  const UserNotFound := "User not found"
  const PasswordChanged := "Password recently changed. Please login again."
  const TokenFailed := "Not authorized, token failed"
  const AdminOnlyMessage := "Access denied. Admin only."

  /** The token of an `Authorization` header: the second space-separated
      part of a header that starts with "Bearer", when that part is not
      empty. */
  function BearerToken(header: Option<string>): (r: Option<string>)
    ensures r.Some? ==> header.Some? && StartsWith(header.value, "Bearer") && r.value != ""
    ensures r.Some? ==> ' ' !in r.value
  {
    if header.None? || !StartsWith(header.value, "Bearer") then None
    else
      var parts := Split(header.value, ' ');
      if |parts| < 2 || parts[1] == "" then None else Some(parts[1])
  }

  /** A well-formed header, "Bearer " and a token without spaces, yields
      that token. */
  lemma BearerTokenOfHeader(token: string)
    requires token != "" && ' ' !in token
    ensures BearerToken(Some("Bearer " + token)) == Some(token)
  {
    assert "Bearer " + token == "Bearer" + [' '] + token;
    SplitPrefix("Bearer", ' ', token);
    SplitNoSep(token, ' ');
    assert ("Bearer " + token)[..6] == "Bearer";
  }

  /** A header with nothing after "Bearer" carries no token. */
  lemma BareBearerHasNoToken()
    ensures BearerToken(Some("Bearer")) == None
    ensures BearerToken(Some("Bearer ")) == None
  {
    SplitNoSep("Bearer", ' ');
    assert "Bearer " == "Bearer" + [' '] + "";
    SplitPrefix("Bearer", ' ', "");
  }

  /** `protect`: 401 without a token, 401 when the token does not verify,
      for an unknown user, and for a token issued before the user's last
      password change; otherwise the request goes on with the stored user
      as `req.user`. `verify(token)` is `jwt.verify` (`None` when it
      throws) and `changedAfter(u, iat)` is `u.changedPasswordAfter(iat)`. */
  function Protect(header: Option<string>, us: seq<User>, verify: string -> Option<Claims>,
                   changedAfter: (User, int) -> bool): (r: Response<User>)
    ensures r.Fail? ==> r.code == 401
    ensures r == Fail(401, NoToken) <==> BearerToken(header).None?
    ensures r == Fail(401, TokenFailed) <==>
              BearerToken(header).Some? && verify(BearerToken(header).value).None?
    ensures r == Fail(401, UserNotFound) <==>
              && BearerToken(header).Some? && verify(BearerToken(header).value).Some?
              && !HasUser(us, verify(BearerToken(header).value).value.id)
    ensures r.Ok? <==>
              && BearerToken(header).Some?
              && var claims := verify(BearerToken(header).value);
              && claims.Some? && HasUser(us, claims.value.id)
              && !changedAfter(us[FindUser(us, claims.value.id).value], claims.value.iat)
    ensures r.Ok? ==> r.value in us && r.value.id == verify(BearerToken(header).value).value.id
  {
    match BearerToken(header)
    case None => Fail(401, NoToken)
    case Some(token) =>
      match verify(token)
      case None => Fail(401, TokenFailed)
      case Some(claims) =>
        match FindUser(us, claims.id)
        case None => Fail(401, UserNotFound)
        case Some(i) =>
          if changedAfter(us[i], claims.iat) then Fail(401, PasswordChanged)
          else Ok(us[i])
  }

  /** The caller a handler sees behind `protect`. */
  function CallerOf(u: User): Caller {
    Caller(u.id, u.role)
  }

  /** `adminOnly`: the request goes on only with a user whose role is
      admin; anything else answers 403. */
  function AdminOnly(user: Option<User>): (r: Response<Caller>)
    ensures r.Ok? <==> user.Some? && user.value.role == Admin
    ensures r.Ok? ==> r.value == CallerOf(user.value) && r.value.role == Admin
    ensures r.Fail? ==> r == Fail(403, AdminOnlyMessage)
  {
    if user.Some? && user.value.role == Admin then Ok(CallerOf(user.value)) else Fail(403, AdminOnlyMessage)
  }

  /** The admin-only routes (`protect` then `adminOnly`) reach their
      handler exactly when the token names a stored admin whose password
      has not changed since the token was issued; a stored member gets
      403, and every earlier failure keeps its 401. */
  lemma AdminRouteGate(header: Option<string>, us: seq<User>, verify: string -> Option<Claims>,
                       changedAfter: (User, int) -> bool)
    ensures var p := Protect(header, us, verify, changedAfter);
            var gate := if p.Ok? then AdminOnly(Some(p.value)) else Fail(p.code, p.message);
            && (gate.Ok? <==> p.Ok? && p.value.role == Admin)
            && (gate.Ok? ==> gate.value == CallerOf(p.value) && HasUser(us, gate.value.id))
            && (p.Ok? && p.value.role == Member ==> gate == Fail(403, AdminOnlyMessage))
            && (p.Fail? ==> gate.code == 401)
  {
    var p := Protect(header, us, verify, changedAfter);
    if p.Ok? {
      var k :| 0 <= k < |us| && us[k] == p.value;
      assert us[k].id == p.value.id;
    }
  }
}
