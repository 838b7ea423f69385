// The request middleware: bearer-token authentication, which fills the
// request context from the token's claims, and the role gate. Token
// signing and parsing are parameters; the context is a string map.
module Middleware {
  import opened Common
  import opened Text

  /** The claims a valid access token carries. */
  datatype Claims = Claims(userId: string, username: string, userType: string)

  /** What a middleware does with the request: hand it on with the context, or abort with a status. */
  datatype Outcome = Next(ctx: map<string, string>) | Abort(status: Status)

  // Token lifetimes, in seconds.
  const ACCESS_TOKEN_LIFETIME := 24 * 3600
  const REFRESH_TOKEN_LIFETIME := 7 * 24 * 3600

  /** The registered claims of a signed token: issued at, expires at. */
  datatype Validity = Validity(issuedAt: int, expiresAt: int)

  /** GenerateToken: issued now, expiring a day later. */
  function AccessTokenValidity(now: int): (v: Validity)
    ensures v.issuedAt == now && v.expiresAt - v.issuedAt == 86400
  {
    Validity(now, now + ACCESS_TOKEN_LIFETIME)
  }

  /** GenerateRefreshToken: issued now, expiring seven days later. */
  function RefreshTokenValidity(now: int): (v: Validity)
    ensures v.issuedAt == now && v.expiresAt - v.issuedAt == 604800
  {
    Validity(now, now + REFRESH_TOKEN_LIFETIME)
  }

  /**
   * The time check jwt's registered claims pass at time t: issued no later
   * than t, and t strictly before the expiry.
   */
  predicate TimeValid(v: Validity, t: int)
  {
    v.issuedAt <= t < v.expiresAt
  }

  /**
   * The token in an Authorization header: the header split on ' ' must
   * give exactly two parts, the first being "Bearer".
   */
  function BearerToken(header: string): (t: Option<string>)
    ensures t.Some? ==> ' ' !in t.value
  {
    var parts := Split(header, ' ');
    if |parts| != 2 || parts[0] != "Bearer" then None
    else
      SplitJoin(header, ' ');
      Some(parts[1])
  }

  /** A header is accepted exactly when it is "Bearer", one space, and a token holding no space. */
  lemma BearerTokenExactly(header: string, token: string)
    ensures BearerToken(header) == Some(token) <==> header == "Bearer " + token && ' ' !in token
  {
    if BearerToken(header) == Some(token) {
      SplitJoin(header, ' ');
      var parts := Split(header, ' ');
      assert parts[1..] == [token];
      assert Join(parts, ' ') == "Bearer" + " " + token;
    }
    if header == "Bearer " + token && ' ' !in token {
      var parts := ["Bearer", token];
      assert ' ' !in parts[0] by {
        forall i | 0 <= i < |parts[0]| ensures parts[0][i] != ' ' { }
      }
      assert parts[1..] == [token];
      assert Join(parts, ' ') == header;
      JoinSplit(parts, ' ');
    }
  }

  /** Illustrates BearerTokenExactly: an empty header, another scheme, or two spaces after "Bearer" give no token. */
  lemma MalformedHeaders(token: string)
    ensures BearerToken("") == None
    ensures BearerToken("Basic" + " " + token) == None
    ensures BearerToken("Bearer" + " " + (" " + token)) == None
  {
    assert Split("", ' ') == [""];
    OtherSchemeRefused(token);
    DoubleSpaceRefused(token);
  }

  lemma OtherSchemeRefused(token: string)
    ensures BearerToken("Basic" + " " + token) == None
  {
    assert ' ' !in "Basic" by {
      forall i | 0 <= i < 5 ensures "Basic"[i] != ' ' { }
    }
    assert "Basic" + " " + token == "Basic" + [' '] + token;
    SplitAtFirst("Basic", ' ', token);
    assert Split("Basic" + " " + token, ' ')[0] == "Basic";
    assert "Basic"[1] != "Bearer"[1];
  }

  lemma DoubleSpaceRefused(token: string)
    ensures BearerToken("Bearer" + " " + (" " + token)) == None
  {
    assert ' ' !in "Bearer" by {
      forall i | 0 <= i < 6 ensures "Bearer"[i] != ' ' { }
    }
    assert "Bearer" + " " + (" " + token) == "Bearer" + [' '] + ([' '] + token);
    DoubleSeparatorSplits("Bearer", ' ', token);
  }

  /** A separator-free word followed by two separators splits into at least three parts. */
  lemma DoubleSeparatorSplits(p: string, sep: char, t: string)
    requires sep !in p
    ensures |Split(p + [sep] + ([sep] + t), sep)| >= 3
  {
    SplitAtFirst(p, sep, [sep] + t);
    assert [sep] + t == [] + [sep] + t;
    SplitAtFirst([], sep, t);
  }

  /** The context after a successful authentication: the three claims set, everything else kept. */
  function WithClaims(ctx: map<string, string>, c: Claims): (ctx': map<string, string>)
    ensures ctx'.Keys == ctx.Keys + {"user_id", "username", "user_type"}
    ensures ctx'["user_id"] == c.userId && ctx'["username"] == c.username && ctx'["user_type"] == c.userType
    ensures forall k :: k in ctx && k !in {"user_id", "username", "user_type"} ==> ctx'[k] == ctx[k]
  {
    ctx["user_id" := c.userId]["username" := c.username]["user_type" := c.userType]
  }

  /**
   * The claims a header authenticates at time `now`: the bearer token must
   * decode (its signature checks out under the secret, which `decode`
   * holds) and its registered times must be valid then.
   */
  function Authenticate(header: string, decode: string -> Option<(Claims, Validity)>, now: int): Option<Claims>
  {
    match BearerToken(header)
    case None => None
    case Some(token) =>
      match decode(token)
      case None => None
      case Some(cv) => if TimeValid(cv.1, now) then Some(cv.0) else None
  }

  /**
   * AuthMiddleware: no header, a malformed header, or a token that does not
   * parse or is not valid at `now` aborts with 401; otherwise the claims
   * are set in the context and the request goes on.
   */
  method AuthMiddleware(header: string, decode: string -> Option<(Claims, Validity)>, now: int, ctx: map<string, string>)
    returns (out: Outcome)
    ensures out.Abort? ==> out.status == Unauthorized
    ensures header == "" ==> out.Abort?
    ensures out.Next? <==> Authenticate(header, decode, now).Some?
    ensures out.Next? ==> out.ctx == WithClaims(ctx, Authenticate(header, decode, now).value)
  {
    if header == "" {
      assert Split(header, ' ') == [""];
      return Abort(Unauthorized);
    }
    var parts := Split(header, ' ');
    if |parts| != 2 || parts[0] != "Bearer" {
      return Abort(Unauthorized);
    }
    var parsed := decode(parts[1]);
    if parsed.None? || !TimeValid(parsed.value.1, now) {
      return Abort(Unauthorized);
    }
    var claims := parsed.value.0;
    var ctx' := ctx;
    ctx' := ctx'["user_id" := claims.userId];
    ctx' := ctx'["username" := claims.username];
    ctx' := ctx'["user_type" := claims.userType];
    out := Next(ctx');
  }

  /**
   * The access token GenerateToken signs at time `issued`, sent as
   * "Bearer <token>", authenticates its claims from issue until one day
   * later, and never outside that window.
   */
  lemma AccessTokenWindow(token: string, c: Claims, issued: int, decode: string -> Option<(Claims, Validity)>, now: int)
    requires ' ' !in token
    requires decode(token) == Some((c, AccessTokenValidity(issued)))
    ensures Authenticate("Bearer " + token, decode, now) == if issued <= now < issued + 86400 then Some(c) else None
  {
    BearerTokenExactly("Bearer " + token, token);
  }

  /**
   * The refresh token carries no user claims, yet the middleware does not
   * tell it from an access token: it authenticates as the empty user, and
   * for seven days instead of one.
   */
  lemma RefreshTokenWindow(token: string, issued: int, decode: string -> Option<(Claims, Validity)>, now: int)
    requires ' ' !in token
    requires decode(token) == Some((Claims("", "", ""), RefreshTokenValidity(issued)))
    ensures Authenticate("Bearer " + token, decode, now) ==
      if issued <= now < issued + 604800 then Some(Claims("", "", "")) else None
    ensures issued + 86400 <= now < issued + 604800 ==> Authenticate("Bearer " + token, decode, now).Some?
  {
    BearerTokenExactly("Bearer " + token, token);
  }

  /** The gate's decision: the context holds a value under "role" equal to one of the roles. */
  predicate RoleGranted(ctx: map<string, string>, roles: seq<string>)
  {
    "role" in ctx && ctx["role"] in roles
  }

  /**
   * RequireRole: a missing "role" value aborts with 403; the value is
   * compared with each listed role in turn, and the request goes on at
   * the first match; no match aborts with 403.
   */
  method RequireRole(roles: seq<string>, ctx: map<string, string>) returns (out: Outcome)
    ensures out.Next? <==> RoleGranted(ctx, roles)
    ensures out.Next? ==> out.ctx == ctx
    ensures out.Abort? ==> out.status == Forbidden
  {
    if "role" !in ctx {
      return Abort(Forbidden);
    }
    var userType := ctx["role"];
    for i := 0 to |roles|
      invariant userType !in roles[..i]
    {
      if roles[i] == userType {
        return Next(ctx);
      }
    }
    assert roles[..|roles|] == roles;
    out := Abort(Forbidden);
  }

  /**
   * The authentication step stores the role under "user_type" and the gate
   * reads "role": behind the authentication step alone, the gate refuses
   * every caller, whatever roles it lists.
   */
  lemma GateRefusesAuthenticatedCallers(ctx: map<string, string>, c: Claims, roles: seq<string>)
    requires "role" !in ctx
    ensures "user_type" in WithClaims(ctx, c) && WithClaims(ctx, c)["user_type"] == c.userType
    ensures !RoleGranted(WithClaims(ctx, c), roles)
  {
  }
}
