/** The request handlers of the auth service (`/authorize`, `/register` and
    `/logout`).

    bcrypt is outside the model: `matches(hash, plain)` is the answer of
    `CompareHashAndPassword`, and the outcome of `GenerateFromPassword` for
    this request (the hash, or None when hashing fails) is a parameter, since
    the salt makes it differ from call to call. */
module AuthApi {
  import opened Common
  import opened Http
  import Jwt
  import Users
  import Revocation

  datatype Credentials = Credentials(username: string, password: string)

  /** A request: its method, the outcome of decoding its JSON body, its
      `Authorization` header ("" when absent) and its context. */
  datatype AuthRequest = AuthRequest(httpMethod: string, body: Option<Credentials>, header: string, ctx: Jwt.Context)

  datatype Doc =
    | TokenDoc(token: string)
    | IdDoc(id: int)
    | NullDoc

  /** The method check at the top of each handler: it writes a 405 but does
      not return, so the handler goes on and its own writes follow. */
  function MethodCheck(req: AuthRequest, expected: string): (head: Response<Doc>)
    ensures head == [] <==> req.httpMethod == expected
    ensures head != [] ==> head == [ErrorText(STATUS_METHOD_NOT_ALLOWED, "Method Not Allowed")]
  {
    if req.httpMethod == expected then [] else [ErrorText(STATUS_METHOD_NOT_ALLOWED, "Method Not Allowed")]
  }

  /** `HandlerAuthorize`. The store is only read. */
  function HandlerAuthorize(users: Users.UserTable, req: AuthRequest, matches: (string, string) -> bool,
                            p: Jwt.Primitives, secret: string, now: int): Response<Doc>
  {
    MethodCheck(req, "POST") +
      match req.body
      case None => [ErrorText(STATUS_BAD_REQUEST, "Invalid input")]
      case Some(input) =>
        match users.Get(input.username)
        case Err(_) => [ErrorText(STATUS_INTERNAL_SERVER_ERROR, "Error get user from db")]
        case Ok(user) =>
          if !matches(user.password, input.password) then
            [ErrorText(STATUS_UNAUTHORIZED, "Error get user from db")]
          else
            match Jwt.GenerateJwt(p, secret, user.username, now)
            case Err(_) => [ErrorText(STATUS_INTERNAL_SERVER_ERROR, "Token generation failed")]
            case Ok(token) => [JsonBody(STATUS_OK, TokenDoc(token))]
  }

  /** `HandlerRegister`: the row stores the hash, not the password. A failed
      insert may still have drawn an id. */
  function HandlerRegister(users: Users.UserTable, req: AuthRequest, hashed: Option<string>)
    : (Response<Doc>, Users.UserTable)
  {
    var head := MethodCheck(req, "POST");
    match req.body
    case None => (head + [ErrorText(STATUS_BAD_REQUEST, "Invalid input")], users)
    case Some(input) =>
      match hashed
      case None => (head + [ErrorText(STATUS_INTERNAL_SERVER_ERROR, "Error generating hash grom password")], users)
      case Some(hash) =>
        var (after, r) := users.Insert(Users.User(0, input.username, hash));
        match r
        case Err(_) => (head + [ErrorText(STATUS_INTERNAL_SERVER_ERROR, "Error when create user")], after)
        case Ok(id) => (head + [JsonBody(STATUS_OK, IdDoc(id))], after)
  }

  /** `HandlerLogout` at time `now`: revokes the presented token until the
      expiry in the claims the gate attached. */
  function HandlerLogout(entries: Revocation.Entries, req: AuthRequest, now: int, reachable: bool)
    : (Response<Doc>, Revocation.Entries)
  {
    var head := MethodCheck(req, "GET");
    match Jwt.TokenFromHeader(req.header)
    case Err(e) => (head + [ErrorText(STATUS_UNAUTHORIZED, e)], entries)
    case Ok(token) =>
      match Jwt.ClaimsFromContext(req.ctx)
      case Err(e) => (head + [ErrorText(STATUS_INTERNAL_SERVER_ERROR, e)], entries)
      case Ok(claims) =>
        var (after, err) := Revocation.Revoke(entries, token, claims.expiresAt, now, reachable);
        match err
        case Some(e) => (head + [ErrorText(STATUS_UNAUTHORIZED, e)], after)
        case None => (head + [JsonBody(STATUS_OK, NullDoc)], after)
  }

  // ---------------------------------------------------------------------
  // Properties of the handlers
  // ---------------------------------------------------------------------

  /** A wrong method is answered 405, yet the handler runs on: whatever it
      writes next follows the 405 and the store changes as for the right
      method. */
  lemma RegisterWrongMethodContinues(users: Users.UserTable, req: AuthRequest, hashed: Option<string>)
    requires req.httpMethod != "POST"
    ensures var r := HandlerRegister(users, req, hashed);
      var right := HandlerRegister(users, req.(httpMethod := "POST"), hashed);
      && Status(r.0) == 405 && r.0 == [ErrorText(405, "Method Not Allowed")] + right.0 && r.1 == right.1
  {
    assert MethodCheck(req.(httpMethod := "POST"), "POST") == [];
  }

  lemma LogoutWrongMethodContinues(entries: Revocation.Entries, req: AuthRequest, now: int, reachable: bool)
    requires req.httpMethod != "GET"
    ensures var r := HandlerLogout(entries, req, now, reachable);
      var right := HandlerLogout(entries, req.(httpMethod := "GET"), now, reachable);
      && Status(r.0) == 405 && r.0 == [ErrorText(405, "Method Not Allowed")] + right.0 && r.1 == right.1
  {
    assert MethodCheck(req.(httpMethod := "GET"), "GET") == [];
  }

  lemma AuthorizeWrongMethodContinues(users: Users.UserTable, req: AuthRequest, matches: (string, string) -> bool,
                                      p: Jwt.Primitives, secret: string, now: int)
    requires req.httpMethod != "POST"
    ensures var r := HandlerAuthorize(users, req, matches, p, secret, now);
      var right := HandlerAuthorize(users, req.(httpMethod := "POST"), matches, p, secret, now);
      && Status(r) == 405 && r == [ErrorText(405, "Method Not Allowed")] + right
  {
    assert MethodCheck(req.(httpMethod := "POST"), "POST") == [];
  }

  /** Authorize over POST: 400 for an undecodable body, 500 for an unknown
      user, 401 for a wrong password; otherwise a token issued now for the
      stored username, or 500 if signing fails. */
  lemma AuthorizeOutcomes(users: Users.UserTable, req: AuthRequest, matches: (string, string) -> bool,
                          p: Jwt.Primitives, secret: string, now: int)
    requires req.httpMethod == "POST"
    ensures var r := HandlerAuthorize(users, req, matches, p, secret, now);
      && |r| == 1
      && (req.body.None? ==> Status(r) == 400)
      && (req.body.Some? && req.body.value.username !in users.accounts ==> Status(r) == 500)
      && (req.body.Some? && req.body.value.username in users.accounts ==>
           var stored := users.accounts[req.body.value.username].password;
           && (!matches(stored, req.body.value.password) ==> Status(r) == 401)
           && (matches(stored, req.body.value.password) ==>
                match Jwt.GenerateJwt(p, secret, req.body.value.username, now)
                case Ok(token) => r == [JsonBody(200, TokenDoc(token))]
                case Err(_) => Status(r) == 500))
      && (Status(r) == 200 <==>
           && req.body.Some?
           && req.body.value.username in users.accounts
           && matches(users.accounts[req.body.value.username].password, req.body.value.password)
           && Jwt.GenerateJwt(p, secret, req.body.value.username, now).Ok?)
  {
  }

  /** Register over POST with a hash in hand: 200 with the new id iff the
      username and the hash can be stored in their columns and the username,
      as stored, is new; the row then holds the hash. A value of the column's
      size or less is stored as given; a longer one only when what lies past
      the limit is spaces, cut to the limit. Every failure is a 500 that
      leaves the rows as they were. */
  lemma RegisterOutcomes(users: Users.UserTable, req: AuthRequest, hash: string)
    requires users.Valid() && req.httpMethod == "POST" && req.body.Some?
    ensures var input := req.body.value;
      var name := Users.FitVarchar(input.username, Users.MAX_USERNAME_LENGTH);
      var stored := Users.FitVarchar(hash, Users.MAX_PASSWORD_LENGTH);
      var (resp, after) := HandlerRegister(users, req, Some(hash));
      && after.Valid()
      && (Status(resp) == 200 <==> name.Some? && stored.Some? && name.value !in users.accounts)
      && (Status(resp) != 200 ==> Status(resp) == 500 && after.accounts == users.accounts)
      && (Status(resp) == 200 ==>
           && resp == [JsonBody(200, IdDoc(users.nextId))]
           && after.Get(name.value) == Ok(Users.User(users.nextId, name.value, stored.value)))
  {
    Users.InsertEffect(users, Users.User(0, req.body.value.username, hash));
  }

  /** A failed hash, or an undecodable body, stores nothing. */
  lemma RegisterFailuresStoreNothing(users: Users.UserTable, req: AuthRequest, hashed: Option<string>)
    requires req.httpMethod == "POST" && (req.body.None? || hashed.None?)
    ensures HandlerRegister(users, req, hashed).1 == users
    ensures Status(HandlerRegister(users, req, hashed).0) == if req.body.None? then 400 else 500
  {
  }

  /** Logout over GET: 401 for a bad header, 500 without claims, 401 for a
      failed revocation (an expired token or an unreachable store), else 200
      and the token is revoked until the expiry in its claims. */
  lemma LogoutOutcomes(entries: Revocation.Entries, req: AuthRequest, now: int, reachable: bool)
    requires req.httpMethod == "GET"
    ensures var (resp, after) := HandlerLogout(entries, req, now, reachable);
      && (Jwt.TokenFromHeader(req.header).Err? ==> Status(resp) == 401 && after == entries)
      && (Jwt.TokenFromHeader(req.header).Ok? && Jwt.ClaimsFromContext(req.ctx).Err? ==>
           Status(resp) == 500 && after == entries)
      && (Status(resp) == 200 <==>
           && Jwt.TokenFromHeader(req.header).Ok?
           && Jwt.ClaimsFromContext(req.ctx).Ok?
           && now < Jwt.ClaimsFromContext(req.ctx).value.expiresAt
           && reachable)
      && (Status(resp) == 200 ==>
           var token := Jwt.TokenFromHeader(req.header).value;
           forall later :: now <= later < Jwt.ClaimsFromContext(req.ctx).value.expiresAt ==>
             Revocation.IsRevoked(after, token, later, true) == Ok(true))
      && (Status(resp) != 200 && Status(resp) != 500 ==> Status(resp) == 401)
      && (Status(resp) != 200 ==> after == entries)
  {
    if Jwt.TokenFromHeader(req.header).Ok? && Jwt.ClaimsFromContext(req.ctx).Ok? {
      var token := Jwt.TokenFromHeader(req.header).value;
      var exp := Jwt.ClaimsFromContext(req.ctx).value.expiresAt;
      if now < exp && reachable {
        forall later | now <= later < exp
          ensures Revocation.IsRevoked(HandlerLogout(entries, req, now, reachable).1, token, later, true) == Ok(true)
        {
          Revocation.RevokedUntilExpiry(entries, token, exp, now, later);
        }
      }
    }
  }
}
