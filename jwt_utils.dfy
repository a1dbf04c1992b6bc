/** The token helpers and the authentication gate shared by both services:
    parsing of the `Authorization: Bearer <token>` header, the owner key
    (hex-encoded SHA-256 of the username), the claim set of an issued token,
    verification, the request context that carries the verified claims, and
    the middleware's fixed decision order.

    SHA-256 and HS256 signing/parsing (section 3.2 of RFC 7518) are library
    code; they are fields of `Primitives`, and what the model takes of them on trust
    is the predicate `Sound`. */
module Jwt {
  import opened Common

  type Byte = b: int | 0 <= b < 256

  /** A SHA-256 digest: 32 bytes. */
  type Digest = s: seq<Byte> | |s| == 32 witness seq(32, _ => 0)

  datatype UserInfo = UserInfo(userId: int, isAdmin: bool)

  /** The claim set of a token: the `UserInfo` extension and the registered
      claims `iss`, `sub`, `iat` and `exp` of section 4.1 of RFC 7519, the
      times in whole seconds. */
  datatype Claims = Claims(
    userInfo: UserInfo,
    issuer: string,
    subject: string,
    issuedAt: int,
    expiresAt: int)

  /** The library calls: `sha256` of a string's bytes, `sign` (claims, key) to
      a compact HS256 token or a signing error, `parse` (token, key) to the
      claims whose signature checks under the key. */
  datatype Primitives = Primitives(
    sha256: string -> Digest,
    sign: (Claims, string) -> Option<string>,
    parse: (string, string) -> Option<Claims>)

  /** What the model takes on trust of the library: a token signed with a key parses
      back, under that key, to the claims it was signed over; and a compact
      serialisation (base64url segments joined by dots) is non-empty and holds
      no space. */
  ghost predicate Sound(p: Primitives) {
    forall c: Claims, key: string :: p.sign(c, key).Some? ==>
      p.parse(p.sign(c, key).value, key) == Some(c) &&
      p.sign(c, key).value != [] && ' ' !in p.sign(c, key).value
  }

  /** The process-wide signing secret, written once at startup. */
  class JwtSecret {
    var value: string

    constructor ()
      ensures value == ""
    {
      value := "";
    }

    method InitJwtSecret(secret: string)
      modifies this
      ensures value == secret
    {
      value := secret;
    }
  }

  // ---------------------------------------------------------------------
  // Owner key: hex.EncodeToString(sha256.Sum256([]byte(username)))
  // ---------------------------------------------------------------------

  predicate IsLowerHex(c: char) {
    '0' <= c <= '9' || 'a' <= c <= 'f'
  }

  function HexValue(c: char): (n: int)
    requires IsLowerHex(c)
    ensures 0 <= n < 16
  {
    if c <= '9' then c as int - '0' as int else c as int - 'a' as int + 10
  }

  function HexDigit(n: int): (c: char)
    requires 0 <= n < 16
    ensures IsLowerHex(c) && HexValue(c) == n
  {
    if n < 10 then ('0' as int + n) as char else ('a' as int + n - 10) as char
  }

  /** Lower-case hexadecimal, two digits per byte, high nibble first. */
  function HexEncode(bytes: seq<Byte>): (s: string)
    ensures |s| == 2 * |bytes|
    ensures forall i :: 0 <= i < |s| ==> IsLowerHex(s[i])
  {
    if bytes == [] then []
    else [HexDigit(bytes[0] / 16), HexDigit(bytes[0] % 16)] + HexEncode(bytes[1..])
  }

  function HexDecode(s: string): (bytes: seq<Byte>)
    requires |s| % 2 == 0
    requires forall i :: 0 <= i < |s| ==> IsLowerHex(s[i])
    ensures |bytes| == |s| / 2
  {
    if s == [] then []
    else [HexValue(s[0]) * 16 + HexValue(s[1])] + HexDecode(s[2..])
  }

  lemma {:induction false} HexRoundTrip(bytes: seq<Byte>)
    ensures HexDecode(HexEncode(bytes)) == bytes
  {
    if bytes != [] {
      var s := HexEncode(bytes);
      assert s[2..] == HexEncode(bytes[1..]);
      HexRoundTrip(bytes[1..]);
    }
  }

  /** The owner key every store call is scoped by: 64 lower-case hex digits. */
  function HashUsername(p: Primitives, username: string): (ownerKey: string)
    ensures |ownerKey| == 64
    ensures forall i :: 0 <= i < |ownerKey| ==> IsLowerHex(ownerKey[i])
  {
    HexEncode(p.sha256(username))
  }

  /** The owner key is exactly the hex form of the 32-byte digest. */
  lemma OwnerKeyDecodes(p: Primitives, username: string)
    ensures HexDecode(HashUsername(p, username)) == p.sha256(username)
  {
    HexRoundTrip(p.sha256(username));
  }

  /** Two usernames share an owner key iff their digests collide. */
  lemma OwnerKeysEqualIffDigestsEqual(p: Primitives, a: string, b: string)
    ensures HashUsername(p, a) == HashUsername(p, b) <==> p.sha256(a) == p.sha256(b)
  {
    OwnerKeyDecodes(p, a);
    OwnerKeyDecodes(p, b);
  }

  // ---------------------------------------------------------------------
  // Header parsing: strings.Split(h, " ") and the "Bearer" check
  // ---------------------------------------------------------------------

  /** Go's `strings.Split(s, " ")`: the pieces between single spaces; a string
      without a space is one piece, and "" is [""]. */
  function Split(s: string): (parts: seq<string>)
    ensures |parts| >= 1
    ensures forall i :: 0 <= i < |parts| ==> ' ' !in parts[i]
  {
    if s == [] then [[]]
    else
      var rest := Split(s[1..]);
      if s[0] == ' ' then [[]] + rest else [[s[0]] + rest[0]] + rest[1..]
  }

  /** Go's `strings.Join(parts, " ")`, the inverse of `Split`. */
  function Join(parts: seq<string>): string
    requires |parts| >= 1
  {
    if |parts| == 1 then parts[0] else parts[0] + " " + Join(parts[1..])
  }

  function SpaceCount(s: string): nat {
    if s == [] then 0 else (if s[0] == ' ' then 1 else 0) + SpaceCount(s[1..])
  }

  lemma {:induction false} JoinSplit(s: string)
    ensures Join(Split(s)) == s
  {
    if s != [] {
      JoinSplit(s[1..]);
      var rest := Split(s[1..]);
      if s[0] == ' ' {
        assert Split(s)[1..] == rest;
      } else if |rest| == 1 {
        assert Join(Split(s)) == [s[0]] + rest[0];
      } else {
        assert Split(s)[1..] == rest[1..];
        assert Join(Split(s)) == [s[0]] + (rest[0] + " " + Join(rest[1..]));
      }
    }
  }

  /** There is one more piece than there are spaces. */
  lemma {:induction false} SplitLength(s: string)
    ensures |Split(s)| == SpaceCount(s) + 1
  {
    if s != [] {
      SplitLength(s[1..]);
    }
  }

  lemma {:induction false} SplitWithoutSpace(s: string)
    requires ' ' !in s
    ensures Split(s) == [s]
  {
    if s != [] {
      assert ' ' !in s[1..];
      SplitWithoutSpace(s[1..]);
      assert [s[0]] + s[1..] == s;
    }
  }

  lemma {:induction false} SplitAfterWord(a: string, b: string)
    requires ' ' !in a
    ensures Split(a + " " + b) == [a] + Split(b)
  {
    if a == [] {
      assert (a + " " + b)[1..] == b;
    } else {
      assert ' ' !in a[1..];
      SplitAfterWord(a[1..], b);
      assert (a + " " + b)[1..] == a[1..] + " " + b;
      assert [a[0]] + a[1..] == a;
    }
  }

  const BEARER := "Bearer"

  /** `GetJwtTokenFromHeader`, on the value of the `Authorization` header
      ("" when the header is absent). */
  function TokenFromHeader(header: string): Result<string, string> {
    if header == "" then Err("authorization header is missing")
    else
      var parts := Split(header);
      if |parts| != 2 || parts[0] != BEARER then Err("invalid authorization header format")
      else Ok(parts[1])
  }

  /** The header is accepted exactly when it is "Bearer", one space, and a
      token without spaces; the result is that token. The scheme is
      case-sensitive and a second space anywhere is refused. */
  lemma BearerHeaderIff(header: string, token: string)
    ensures TokenFromHeader(header) == Ok(token) <==> header == BEARER + " " + token && ' ' !in token
  {
    if header == BEARER + " " + token && ' ' !in token {
      SplitAfterWord(BEARER, token);
      SplitWithoutSpace(token);
    }
    if TokenFromHeader(header) == Ok(token) {
      JoinSplit(header);
      var parts := Split(header);
      assert Join(parts) == parts[0] + " " + parts[1];
    }
  }

  lemma MissingHeaderRejected()
    ensures TokenFromHeader("") == Err("authorization header is missing")
  {
  }

  /** "Bearer " followed by nothing yields the empty token. */
  lemma EmptyBearerTokenAccepted()
    ensures TokenFromHeader("Bearer ") == Ok("")
  {
    BearerHeaderIff("Bearer ", "");
  }

  /** A doubled space is refused. */
  lemma DoubleSpaceRejected(token: string)
    ensures TokenFromHeader("Bearer  " + token).Err?
  {
    var tail := " " + token;
    assert "Bearer  " + token == BEARER + " " + tail;
    SplitAfterWord(BEARER, tail);
    assert tail[1..] == token;
    assert |Split("Bearer  " + token)| == 1 + |Split(tail)| == 2 + |Split(token)|;
  }

  /** The scheme is case-sensitive. */
  lemma LowerCaseSchemeRejected(token: string)
    ensures TokenFromHeader("bearer " + token).Err?
  {
    assert "bearer " + token == "bearer" + " " + token;
    SplitAfterWord("bearer", token);
    assert Split("bearer " + token)[0] == "bearer";
    assert "bearer"[0] != BEARER[0];
  }

  // ---------------------------------------------------------------------
  // Issuance and verification
  // ---------------------------------------------------------------------

  const ISSUER := "auth_service"

  /** Five minutes, in seconds. */
  const TOKEN_LIFETIME := 5 * 60

  function NewUserInfo(): UserInfo {
    UserInfo(-1, false)
  }

  /** The claims `GenerateJWT` signs for `username` at time `now`. */
  function IssueClaims(p: Primitives, username: string, now: int): Claims {
    Claims(NewUserInfo(), ISSUER, HashUsername(p, username), now, now + TOKEN_LIFETIME)
  }

  /** `GenerateJWT`: sign the claims with the secret. */
  function GenerateJwt(p: Primitives, secret: string, username: string, now: int): (r: Result<string, string>)
    ensures r.Ok? <==> p.sign(IssueClaims(p, username, now), secret).Some?
  {
    match p.sign(IssueClaims(p, username, now), secret)
    case Some(token) => Ok(token)
    case None => Err("token signing failed")
  }

  const EXPIRED_MESSAGE := "token has invalid claims: token is expired"

  /** `GetJWTClaims`: the signature must check under the secret and the token
      must not be expired; `iat` is not checked (the parser's default). */
  function GetJwtClaims(p: Primitives, secret: string, token: string, now: int): Result<Claims, string> {
    match p.parse(token, secret)
    case None => Err("token is malformed or its signature is invalid")
    case Some(c) => if now < c.expiresAt then Ok(c) else Err(EXPIRED_MESSAGE)
  }

  /** A token issued at `issued` carries the fixed issuer, the owner key of
      the username, the default user info and a five-minute window, and
      verifies to exactly those claims at every time before its expiry and at
      no time from its expiry on. */
  lemma IssueThenVerify(p: Primitives, secret: string, username: string, issued: int, now: int)
    requires Sound(p)
    requires GenerateJwt(p, secret, username, issued).Ok?
    ensures var token := GenerateJwt(p, secret, username, issued).value;
      && token != [] && ' ' !in token
      && GetJwtClaims(p, secret, token, now)
         == if now < issued + TOKEN_LIFETIME then Ok(IssueClaims(p, username, issued)) else Err(EXPIRED_MESSAGE)
    ensures var c := IssueClaims(p, username, issued);
      && c.issuer == "auth_service" && c.subject == HashUsername(p, username)
      && c.issuedAt == issued && c.expiresAt == issued + 300
      && c.userInfo.userId == -1 && !c.userInfo.isAdmin
  {
  }

  // ---------------------------------------------------------------------
  // The request context and the gate
  // ---------------------------------------------------------------------

  /** A value stored in a request's context: a (possibly nil) `*Claims`, or a
      value of some other type. */
  datatype CtxValue = ClaimsRef(ref: Option<Claims>) | OtherValue

  type Context = map<string, CtxValue>

  const CLAIMS_KEY := "claims"

  function WithClaims(ctx: Context, c: Claims): Context {
    ctx[CLAIMS_KEY := ClaimsRef(Some(c))]
  }

  /** `GetClaimsFromContext`: fails iff no non-nil `*Claims` is stored under
      "claims". */
  function ClaimsFromContext(ctx: Context): (r: Result<Claims, string>)
    ensures r.Ok? <==> CLAIMS_KEY in ctx && ctx[CLAIMS_KEY] != OtherValue && ctx[CLAIMS_KEY].ref.Some?
    ensures r.Ok? ==> ctx[CLAIMS_KEY] == ClaimsRef(Some(r.value))
  {
    if CLAIMS_KEY in ctx && ctx[CLAIMS_KEY].ClaimsRef? && ctx[CLAIMS_KEY].ref.Some?
    then Ok(ctx[CLAIMS_KEY].ref.value)
    else Err("Unable to extract claims from contest")
  }

  lemma ClaimsFromContextWithClaims(ctx: Context, c: Claims)
    ensures ClaimsFromContext(WithClaims(ctx, c)) == Ok(c)
  {
  }

  /** The middleware's outcome: the response it writes (together with which of
      the revocation lookup and the verification it ran), or the token and
      verified claims with which it calls the wrapped handler, once. */
  datatype GateResult =
    | Reject(status: int, message: string, lookedUp: bool, verified: bool)
    | Pass(token: string, claims: Claims, ctx: Context)

  /** `JwtMiddleware`: header, then revocation lookup, then signature and
      expiry, then the claims go into the context. `isRevoked` is the
      revocation checker's answer for a token. */
  function Gate(p: Primitives, secret: string, now: int, header: string, ctx: Context,
                isRevoked: string -> Result<bool, string>): (r: GateResult)
    ensures TokenFromHeader(header).Err? ==>
      r == Reject(401, TokenFromHeader(header).error, false, false)
    ensures TokenFromHeader(header).Ok? && isRevoked(TokenFromHeader(header).value).Err? ==>
      r.Reject? && r.status == 500 && !r.verified
    ensures TokenFromHeader(header).Ok? && isRevoked(TokenFromHeader(header).value) == Ok(true) ==>
      r == Reject(401, "token is revoked", true, false)
    ensures r.Pass? <==>
      && TokenFromHeader(header).Ok?
      && isRevoked(TokenFromHeader(header).value) == Ok(false)
      && GetJwtClaims(p, secret, TokenFromHeader(header).value, now).Ok?
    ensures r.Pass? ==>
      && r.token == TokenFromHeader(header).value
      && Ok(r.claims) == GetJwtClaims(p, secret, r.token, now)
      && r.ctx == WithClaims(ctx, r.claims)
    ensures r.Reject? && r.status != 500 ==> r.status == 401
  {
    match TokenFromHeader(header)
    case Err(e) => Reject(401, e, false, false)
    case Ok(token) =>
      match isRevoked(token)
      case Err(e) => Reject(500, "failed to check token revocation: " + e, true, false)
      case Ok(revoked) =>
        if revoked then Reject(401, "token is revoked", true, false)
        else
          match GetJwtClaims(p, secret, token, now)
          case Err(e) => Reject(401, e, true, true)
          case Ok(c) => Pass(token, c, WithClaims(ctx, c))
  }
}
