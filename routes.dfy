/** The gated routes: `/data` and `/list` of the data service and `/logout`
    of the auth service each run behind the token gate, which consults the
    shared revocation store at the time of the request. `/authorize` and
    `/register` are not gated. */
module Routes {
  import opened Common
  import opened Http
  import Jwt
  import Revocation
  import Items
  import DataApi
  import AuthApi
  import Users

  /** The gate's revocation checker: the shared store as it reads at `now`. */
  function Checker(entries: Revocation.Entries, now: int, reachable: bool): string -> Result<bool, string> {
    token => Revocation.IsRevoked(entries, token, now, reachable)
  }

  /** A request to `/data` (or to `/list` when `list`) with this
      `Authorization` header: the gate's rejection, or the handler run with
      the context the gate built. */
  function DataRoute(p: Jwt.Primitives, secret: string, now: int, entries: Revocation.Entries, reachable: bool,
                     t: Items.Tables, header: string, req: DataApi.DataRequest, list: bool): DataApi.Served
  {
    match Jwt.Gate(p, secret, now, header, req.ctx, Checker(entries, now, reachable))
    case Reject(status, message, _, _) => DataApi.Served([ErrorText(status, message)], t)
    case Pass(_, _, ctx) =>
      if list then DataApi.HandlerList(t, req.(ctx := ctx)) else DataApi.HandlerData(t, req.(ctx := ctx))
  }

  /** A request to `/logout`. */
  function LogoutRoute(p: Jwt.Primitives, secret: string, now: int, entries: Revocation.Entries, reachable: bool,
                       req: AuthApi.AuthRequest): (Response<AuthApi.Doc>, Revocation.Entries)
  {
    match Jwt.Gate(p, secret, now, req.header, req.ctx, Checker(entries, now, reachable))
    case Reject(status, message, _, _) => ([ErrorText(status, message)], entries)
    case Pass(_, _, ctx) => AuthApi.HandlerLogout(entries, req.(ctx := ctx), now, reachable)
  }

  function BearerHeader(token: string): string {
    Jwt.BEARER + " " + token
  }

  // ---------------------------------------------------------------------
  // Sessions end to end
  // ---------------------------------------------------------------------

  /** A token issued at `issued`, presented before its expiry as
      "Bearer <token>", passes the header check and verifies to the claims it
      was issued with. */
  lemma IssuedTokenAccepted(p: Jwt.Primitives, secret: string, username: string, issued: int, now: int)
    requires Jwt.Sound(p) && Jwt.GenerateJwt(p, secret, username, issued).Ok?
    requires now < issued + Jwt.TOKEN_LIFETIME
    ensures var token := Jwt.GenerateJwt(p, secret, username, issued).value;
      && Jwt.TokenFromHeader(BearerHeader(token)) == Ok(token)
      && Jwt.GetJwtClaims(p, secret, token, now) == Ok(Jwt.IssueClaims(p, username, issued))
  {
    var token := Jwt.GenerateJwt(p, secret, username, issued).value;
    Jwt.IssueThenVerify(p, secret, username, issued, now);
    Jwt.BearerHeaderIff(BearerHeader(token), token);
  }

  /** A live, unrevoked token reaches the handler, which runs with the claims
      issued for the username: every store call is keyed by the owner key of
      that username. */
  lemma GatedRequestRunsAsOwner(p: Jwt.Primitives, secret: string, username: string, issued: int, now: int,
                                entries: Revocation.Entries, t: Items.Tables, req: DataApi.DataRequest, list: bool)
    requires Jwt.Sound(p) && Jwt.GenerateJwt(p, secret, username, issued).Ok?
    requires now < issued + Jwt.TOKEN_LIFETIME
    requires Revocation.IsRevoked(entries, Jwt.GenerateJwt(p, secret, username, issued).value, now, true) == Ok(false)
    ensures var token := Jwt.GenerateJwt(p, secret, username, issued).value;
      var claims := Jwt.IssueClaims(p, username, issued);
      var inner := req.(ctx := Jwt.WithClaims(req.ctx, claims));
      && claims.subject == Jwt.HashUsername(p, username)
      && Jwt.ClaimsFromContext(inner.ctx) == Ok(claims)
      && DataRoute(p, secret, now, entries, true, t, BearerHeader(token), req, list)
         == if list then DataApi.HandlerList(t, inner) else DataApi.HandlerData(t, inner)
  {
    IssuedTokenAccepted(p, secret, username, issued, now);
  }

  /** The gate fails closed when the revocation store cannot be reached: a
      500, and the handler does not run. */
  lemma UnreachableStoreFailsClosed(p: Jwt.Primitives, secret: string, now: int, entries: Revocation.Entries,
                                    t: Items.Tables, header: string, req: DataApi.DataRequest, list: bool)
    requires Jwt.TokenFromHeader(header).Ok?
    ensures var s := DataRoute(p, secret, now, entries, false, t, header, req, list);
      Status(s.response) == 500 && s.store == t
  {
  }

  /** A token presented at or after its expiry is refused with 401, and the
      handler does not run. */
  lemma ExpiredTokenRejected(p: Jwt.Primitives, secret: string, username: string, issued: int, now: int,
                             entries: Revocation.Entries, t: Items.Tables, req: DataApi.DataRequest, list: bool)
    requires Jwt.Sound(p) && Jwt.GenerateJwt(p, secret, username, issued).Ok?
    requires issued + Jwt.TOKEN_LIFETIME <= now
    requires Revocation.IsRevoked(entries, Jwt.GenerateJwt(p, secret, username, issued).value, now, true) == Ok(false)
    ensures var token := Jwt.GenerateJwt(p, secret, username, issued).value;
      DataRoute(p, secret, now, entries, true, t, BearerHeader(token), req, list)
      == DataApi.Served([ErrorText(401, Jwt.EXPIRED_MESSAGE)], t)
  {
    var token := Jwt.GenerateJwt(p, secret, username, issued).value;
    Jwt.IssueThenVerify(p, secret, username, issued, now);
    Jwt.BearerHeaderIff(BearerHeader(token), token);
  }

  /** Logout, then reuse: a logout with a live token answers 200; the same
      token is then refused at `/data` with "token is revoked" for the rest
      of its life, and a second logout is refused by the gate before it can
      revoke again. */
  lemma LogoutThenReuse(p: Jwt.Primitives, secret: string, username: string, issued: int, now: int, later: int,
                        entries: Revocation.Entries, ctx: Jwt.Context, t: Items.Tables, dataReq: DataApi.DataRequest)
    requires Jwt.Sound(p) && Jwt.GenerateJwt(p, secret, username, issued).Ok?
    requires now <= later < issued + Jwt.TOKEN_LIFETIME
    requires Revocation.IsRevoked(entries, Jwt.GenerateJwt(p, secret, username, issued).value, now, true) == Ok(false)
    ensures var token := Jwt.GenerateJwt(p, secret, username, issued).value;
      var logout := AuthApi.AuthRequest("GET", None, BearerHeader(token), ctx);
      var (resp, after) := LogoutRoute(p, secret, now, entries, true, logout);
      && resp == [JsonBody(200, AuthApi.NullDoc)]
      && DataRoute(p, secret, later, after, true, t, BearerHeader(token), dataReq, false)
         == DataApi.Served([ErrorText(401, "token is revoked")], t)
      && LogoutRoute(p, secret, later, after, true, logout) == ([ErrorText(401, "token is revoked")], after)
  {
    var token := Jwt.GenerateJwt(p, secret, username, issued).value;
    IssuedTokenAccepted(p, secret, username, issued, now);
    Revocation.RevokedUntilExpiry(entries, token, issued + Jwt.TOKEN_LIFETIME, now, later);
  }

  /** A GET of another user's item, with a valid token, is a 500 "Failed to
      get item" and shows nothing of the item. */
  lemma CrossTenantGetIs500(p: Jwt.Primitives, secret: string, bob: string, issued: int, now: int,
                            entries: Revocation.Entries, t: Items.Tables, id: int, alice: string,
                            req: DataApi.DataRequest)
    requires Jwt.Sound(p) && Jwt.GenerateJwt(p, secret, bob, issued).Ok?
    requires now < issued + Jwt.TOKEN_LIFETIME
    requires Revocation.IsRevoked(entries, Jwt.GenerateJwt(p, secret, bob, issued).value, now, true) == Ok(false)
    requires t.Valid() && t.Visible(id, Jwt.HashUsername(p, alice)) && p.sha256(alice) != p.sha256(bob)
    requires req.httpMethod == "GET" && DataApi.ParseIdParam(req.query) == Ok(id)
    ensures var token := Jwt.GenerateJwt(p, secret, bob, issued).value;
      DataRoute(p, secret, now, entries, true, t, BearerHeader(token), req, false)
      == DataApi.Served([ErrorText(500, "Failed to get item")], t)
  {
    GatedRequestRunsAsOwner(p, secret, bob, issued, now, entries, t, req, false);
    Jwt.OwnerKeysEqualIffDigestsEqual(p, alice, bob);
  }

  /** Register, then log in: registering a new name answers the next id;
      logging in with the same password then answers 200 with a token that
      verifies to the claims issued for the name; a password the stored hash
      does not match answers 401; registering the name again answers 500. */
  lemma RegisterThenAuthorize(users: Users.UserTable, username: string, password: string, wrong: string,
                              hash: string, matches: (string, string) -> bool,
                              p: Jwt.Primitives, secret: string, now: int)
    requires users.Valid() && username !in users.accounts
    requires |username| <= Users.MAX_USERNAME_LENGTH && |hash| <= Users.MAX_PASSWORD_LENGTH
    requires matches(hash, password) && !matches(hash, wrong)
    requires Jwt.Sound(p) && Jwt.GenerateJwt(p, secret, username, now).Ok?
    ensures var register := AuthApi.AuthRequest("POST", Some(AuthApi.Credentials(username, password)), "", map[]);
      var (resp, after) := AuthApi.HandlerRegister(users, register, Some(hash));
      var login := AuthApi.HandlerAuthorize(after, register, matches, p, secret, now);
      var bad := AuthApi.HandlerAuthorize(after, register.(body := Some(AuthApi.Credentials(username, wrong))),
                                          matches, p, secret, now);
      && resp == [JsonBody(200, AuthApi.IdDoc(users.nextId))]
      && Status(login) == 200 && login[0].JsonBody? && login[0].doc.TokenDoc?
      && login[0].doc.token != []
      && Jwt.GetJwtClaims(p, secret, login[0].doc.token, now) == Ok(Jwt.IssueClaims(p, username, now))
      && bad == [ErrorText(401, "Error get user from db")]
      && Status(AuthApi.HandlerRegister(after, register, Some(hash)).0) == 500
  {
    var register := AuthApi.AuthRequest("POST", Some(AuthApi.Credentials(username, password)), "", map[]);
    AuthApi.RegisterOutcomes(users, register, hash);
    var after := AuthApi.HandlerRegister(users, register, Some(hash)).1;
    AuthApi.RegisterOutcomes(after, register, hash);
    Jwt.IssueThenVerify(p, secret, username, now, now);
  }
}
