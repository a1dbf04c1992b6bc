# Session and tenant isolation of Ipkis/microservice, in Dafny

This project models the session and tenant-isolation layer of a two-service
Go system:

- The **auth service** registers users, logs them in and logs them out.
  Login checks a bcrypt hash and issues a five-minute HS256 JWT whose
  subject is the owner key: the hex-encoded SHA-256 of the username.
  Logout revokes the token.
- The **data service** stores JSON items scoped by that owner key.
- A token gate (`JwtMiddleware`) stands in front of the data service's
  `/data` and `/list` and of the auth service's `/logout`; `/authorize` and
  `/register` are not gated. The gate:
  1. parses `Authorization: Bearer <token>`;
  2. asks the shared key-value store whether the token is revoked;
  3. verifies the signature and the expiry;
  4. puts the claims into the request context.

Modules, one per source file:

| module | file | models |
|---|---|---|
| `Jwt` | `jwt_utils.dfy` | `utils/jwt/jwt_utils.go`: header parsing (Go's `strings.Split` on a single space), hex and the owner key, the claim set, verification, the context, the gate. SHA-256 and HS256 sign/parse are fields of `Primitives`; the predicate `Sound` states what is taken of them on trust. |
| `Revocation` | `redis_utils.dfy` | `utils/redis/redis_utils.go`: the store as a map from key to (value, expiry) with an integer clock in seconds. The class `RevocationStore` holds that map and the clock. |
| `Items` | `item_store.dfy` | `mock_service/database/postgresql.go`: `_items`, `_user2items`, the join view, `insert_into_items`, the DO INSTEAD rules and the `BIGSERIAL` sequence. The pure `Tables` value is the specification; the class `ItemStore` has two maps and a counter. |
| `Users` | `user_store.dfy` | `auth_service/database/postgresql.go`: the `users` table (`SERIAL` id, `VARCHAR(50) UNIQUE` username, `VARCHAR(512)` password), as `UserTable` and the class `UserStore`. |
| `DataApi` | `data_api.dfy` | `mock_service/api/api.go`: `strconv.ParseInt(s, 10, 64)`, `parseIDParam`, and the handlers as functions from (store, request) to (writes, new store). |
| `AuthApi` | `auth_api.dfy` | `auth_service/api/api.go`: the three handlers over an abstract bcrypt. |
| `Routes` | `routes.dfy` | The gate in front of `/data`, `/list` and `/logout`, and end-to-end sessions. |
| `Http`, `Common` | `http.dfy`, `common.dfy` | Responses as sequences of writes, with the status of the first write sent; `Option` and `Result`. |

How `net/http` is modelled:

- A response is the sequence of writes a handler makes.
- The client sees the status of the first write, or 200 if nothing was written.
- This captures two behaviours of the code. The auth handlers write a 405 for
  a wrong method and then carry on. The data handlers return silently when a
  body does not decode.

How PostgreSQL sequences are modelled:

- A sequence value is drawn even when the insert then fails. This happens
  with a NOT NULL violation inside `insert_into_items` and with the UNIQUE
  violation on `users.username`, so the counter advances on those failures.
- Each value is cast to its `VARCHAR(n)` column before the sequence is drawn.
  A value of more than `n` characters is cut to `n` when everything past the
  limit is spaces, and refused otherwise; a refused value draws no id. The
  unique check on `users.username` applies to the name as cut.

Two behaviours of the code worth stating on their own:

- `handleGet` maps every store error to 500, so a GET of an absent id or of
  another user's item answers 500 ("Failed to get item"), not 404
  (`Routes.CrossTenantGetIs500`).
- A token is accepted iff `now < exp`. golang-jwt v5 does not check `iat` by
  default, so a token is not refused before its issue time.

## Model

| member | source | states |
|---|---|---|
| `Jwt.JwtSecret.constructor` | utils/jwt/jwt_utils.go:32 | the secret starts as the empty string (the package variable's zero value) |
| `Jwt.JwtSecret.InitJwtSecret` | utils/jwt/jwt_utils.go:34-36 | afterwards the secret is exactly the value given |
| `Jwt.HexEncode` | utils/jwt/jwt_utils.go:45 | the encoding is two lower-case hex digits per byte |
| `Jwt.HexRoundTrip` | utils/jwt/jwt_utils.go:45 | decoding the hex form of any byte string gives back those bytes |
| `Jwt.HashUsername` | utils/jwt/jwt_utils.go:43-46 | the owner key is always 64 lower-case hex characters |
| `Jwt.OwnerKeyDecodes` | utils/jwt/jwt_utils.go:43-46 | the owner key is exactly the hex form of the 32-byte SHA-256 digest of the username |
| `Jwt.OwnerKeysEqualIffDigestsEqual` | utils/jwt/jwt_utils.go:43-46 | two usernames share an owner key iff their digests are equal |
| `Jwt.Split` | utils/jwt/jwt_utils.go:70 | `strings.Split(h, " ")` yields at least one part, and no part contains a space |
| `Jwt.JoinSplit` | utils/jwt/jwt_utils.go:70 | joining the parts with single spaces gives back the header |
| `Jwt.SplitLength` | utils/jwt/jwt_utils.go:70 | there is exactly one more part than there are spaces |
| `Jwt.SplitWithoutSpace` | utils/jwt/jwt_utils.go:70 | a string without a space splits into itself alone |
| `Jwt.SplitAfterWord` | utils/jwt/jwt_utils.go:70 | a space-free word, a space and a rest split into the word followed by the rest's parts |
| `Jwt.TokenFromHeader` | utils/jwt/jwt_utils.go:63-76 | `GetJwtTokenFromHeader`; its contract is stated by `Jwt.BearerHeaderIff` and the header lemmas below |
| `Jwt.BearerHeaderIff` | utils/jwt/jwt_utils.go:63-76 | the header yields token t iff it is exactly "Bearer", one space, then t, and t has no space |
| `Jwt.MissingHeaderRejected` | utils/jwt/jwt_utils.go:64-67 | an empty header fails with "authorization header is missing" |
| `Jwt.EmptyBearerTokenAccepted` | utils/jwt/jwt_utils.go:69-75 | "Bearer " yields the empty token |
| `Jwt.DoubleSpaceRejected` | utils/jwt/jwt_utils.go:70-73 | "Bearer" followed by two spaces is refused, whatever follows |
| `Jwt.LowerCaseSchemeRejected` | utils/jwt/jwt_utils.go:70-73 | a lower-case "bearer" scheme is refused |
| `Jwt.NewUserInfo` | utils/jwt/jwt_utils.go:20-25 | the default user info {UserID -1, IsAdmin false}; stated as part of the issued claims by `Jwt.IssueThenVerify` |
| `Jwt.IssueClaims` | utils/jwt/jwt_utils.go:48-58 | the claim set `GenerateJWT` signs; stated by `Jwt.IssueThenVerify` |
| `Jwt.GetJwtClaims` | utils/jwt/jwt_utils.go:78-99 | `GetJWTClaims` over the abstract parser; its contract (the issued claims before `exp`, the expiry error from then on) is stated by `Jwt.IssueThenVerify` |
| `Jwt.GenerateJwt` | utils/jwt/jwt_utils.go:48-61 | issuance succeeds iff signing the issued claims with the secret succeeds |
| `Jwt.IssueThenVerify` | utils/jwt/jwt_utils.go:48-99 | Given a sound library, a token issued at `iat` is non-empty and has no space. It verifies to exactly its issued claims at every time before `iat + 300` and fails as expired from then on. Those claims are: issuer "auth_service", subject the owner key of the username, `exp = iat + 300`, user info {-1, false}. |
| `Jwt.ClaimsFromContext` | utils/jwt/jwt_utils.go:130-137 | succeeds iff a non-nil claims value is stored under "claims", and returns that value |
| `Jwt.WithClaims` | utils/jwt/jwt_utils.go:124 | the context the gate hands on; read back unchanged, as `Jwt.ClaimsFromContextWithClaims` states |
| `Jwt.ClaimsFromContextWithClaims` | utils/jwt/jwt_utils.go:124-137 | claims the gate stores are read back unchanged by the handlers |
| `Jwt.Gate` | utils/jwt/jwt_utils.go:101-128 | The middleware's order. A header error is 401, with no lookup and no verification. A lookup error is 500 and nothing is verified. A revoked token is 401 "token is revoked" and is not verified. The handler runs iff the header parses, the token is not revoked and its claims verify; it then runs with exactly the verified claims under "claims". Every other rejection is 401. |
| `Revocation.KeyInjective` | utils/redis/redis_utils.go:30-38 | distinct tokens have distinct "revoked:" keys |
| `Revocation.IsRevoked` | utils/redis/redis_utils.go:37-46 | An error is returned iff the store is unreachable. The answer is "revoked" iff the key is live and holds exactly "true". |
| `Revocation.Revoke` | utils/redis/redis_utils.go:24-35 | `RevokeToken` at a given time; specified by `Revocation.RevokeExpiredRejected`, `RevokeUnreachableFails`, `RevokedUntilExpiry`, `RevokeLeavesOthers` and `RevokeTwice` |
| `Revocation.RevokeExpiredRejected` | utils/redis/redis_utils.go:24-28 | revoking a token whose expiry is not in the future fails with "token already expired" and changes nothing |
| `Revocation.RevokeUnreachableFails` | utils/redis/redis_utils.go:30-33 | with the store unreachable, revoking a live token fails and changes nothing |
| `Revocation.RevokedUntilExpiry` | utils/redis/redis_utils.go:24-46 | after a successful revocation at n, the token reads as revoked at every time in [n, exp) and as not revoked from exp on |
| `Revocation.RevokeLeavesOthers` | utils/redis/redis_utils.go:30-38 | revoking one token leaves every other token's status as it was, at every time |
| `Revocation.RevokeTwice` | utils/redis/redis_utils.go:30 | a second revocation of a live token succeeds, leaves the store as the first left it, and the token stays revoked |
| `Revocation.AbsentKeyNotRevoked` | utils/redis/redis_utils.go:38-41 | an absent key reads as not revoked, without error |
| `Revocation.OtherValueNotRevoked` | utils/redis/redis_utils.go:45 | a live key holding anything but "true" reads as not revoked |
| `Revocation.RevocationStore.constructor` | utils/redis/redis_utils.go:15-22 | the client starts over the given store contents and clock |
| `Revocation.RevocationStore.Advance` | utils/redis/redis_utils.go:30 | the clock moves forward by the given seconds and the stored keys are unchanged; the key-value store expires them by their TTL |
| `Revocation.RevocationStore.RevokeToken` | utils/redis/redis_utils.go:24-35 | the new store contents and the error are those of `Revoke` at the store's clock; the clock is unchanged |
| `Revocation.RevocationStore.IsTokenRevoked` | utils/redis/redis_utils.go:37-46 | an error iff the store is unreachable; "revoked" iff `IsRevoked` says so at the store's clock |
| `Revocation.RevokeThenExpire` | utils/redis/redis_utils.go:24-46 | through the client, a live token revoked now reads as revoked, and once the clock reaches its expiry it reads as not revoked |
| `Items.EmptyValid` | mock_service/database/postgresql.go:67-77 | the freshly created tables satisfy the invariant: associations and items match one to one, and ids lie below the sequence |
| `Items.Tables.Insert` | mock_service/database/postgresql.go:88-102 | `insert_into_items` through `Insert`; specified by `Items.InsertEffect` |
| `Items.InsertEffect` | mock_service/database/postgresql.go:88-146 | Insert fails iff the name is empty or the value is nil, and then writes no row. On success it writes the item and its one association together. The id is fresh, above every existing id, and the owner's Get returns what was sent. The sequence advances either way. |
| `Items.InsertEmptyNameFails` | mock_service/database/postgresql.go:132-146 | an empty name is a NOT NULL violation on "name" and writes nothing |
| `Items.Tables.Get` | mock_service/database/postgresql.go:79-86 | the join view read by `Get`; specified by `Items.GetIffAssociated` |
| `Items.GetIffAssociated` | mock_service/database/postgresql.go:148-163 | Get succeeds iff the item is associated with the caller, and then returns that item's id |
| `Items.Tables.Update` | mock_service/database/postgresql.go:112-122 | the update rule on the view; specified by `Items.UpdateEffect` |
| `Items.UpdateEffect` | mock_service/database/postgresql.go:112-122 | Update succeeds iff the caller owns the item. On success the name is replaced only by a non-empty name, the value only by a given value, and every other row, association and the sequence are unchanged. Otherwise it returns "no rows affected" and changes nothing. |
| `Items.EmptyPatchKeepsRecord` | mock_service/database/postgresql.go:117-118 | an update with an empty name and no value leaves the store as it was |
| `Items.Tables.Delete` | mock_service/database/postgresql.go:104-111 | the delete rule on the view; specified by `Items.DeleteEffect` |
| `Items.DeleteEffect` | mock_service/database/postgresql.go:104-111 | Delete succeeds iff the caller owns the item. On success it removes the item and, by the cascade, its association, leaves the sequence where it was, and no one can Get the item afterwards. Otherwise it returns "no rows affected" and changes nothing. |
| `Items.StepAdvances` | mock_service/database/postgresql.go:65-122 | no insert, update or delete lowers the `BIGSERIAL` sequence, and a successful insert returns its current value and advances it by one |
| `Items.RunIdsFresh` | mock_service/database/postgresql.go:65-146 | Over any run of inserts, updates and deletes, the ids returned by the inserts are strictly increasing. Each lies at or above the sequence's starting value and below its final value, and none is an id that existed at the start. An id, once handed out, is never handed out again, even after its item is deleted. |
| `Items.Tables.Listing` | mock_service/database/postgresql.go:165-197 | the owner's rows of the view in id order; specified by `Items.ListBelowSorted`, `ListBelowMembers` and `ListingExact` |
| `Items.ListBelowSorted` | mock_service/database/postgresql.go:166 | the listing is in strictly ascending id order |
| `Items.ListBelowMembers` | mock_service/database/postgresql.go:166 | an item is listed iff its id is below the bound, it belongs to the owner, and it shows the stored row |
| `Items.ListingExact` | mock_service/database/postgresql.go:165-197 | GetAll returns exactly the records the owner's Get returns, in ascending id order |
| `Items.Isolation` | mock_service/database/postgresql.go:79-122 | For an item of A and another owner B: B's Get fails; B's Update and Delete of it report "no rows affected" and change nothing; B's listing omits it; no Update, Delete or Insert by B changes A's view of it. |
| `Items.ItemStore.constructor` | mock_service/database/postgresql.go:65-126 | on a fresh database the store starts empty with the sequence at 1 |
| `Items.ItemStore.Insert` | mock_service/database/postgresql.go:132-146 | the new state and result are those of `Tables.Insert`; on error the id is 0 |
| `Items.ItemStore.Get` | mock_service/database/postgresql.go:148-163 | succeeds iff the item is associated with the caller, returning its id, name and value; otherwise the "no rows" error |
| `Items.ItemStore.GetAll` | mock_service/database/postgresql.go:165-197 | the row loop returns exactly the owner's listing |
| `Items.ItemStore.Update` | mock_service/database/postgresql.go:219-250 | the new state and error are those of `Tables.Update` |
| `Items.ItemStore.Delete` | mock_service/database/postgresql.go:199-217 | the new state and error are those of `Tables.Delete` |
| `Users.FitVarchar` | auth_service/database/postgresql.go:67-69 | A value of at most `n` characters is kept as it is. A longer one is kept, cut to exactly its first `n` characters, iff every character past the limit is a space; otherwise it is refused. |
| `Users.UserTable.Insert` | auth_service/database/postgresql.go:79-87 | the INSERT with its column casts, sequence and unique index; specified by `Users.InsertEffect` |
| `Users.InsertEffect` | auth_service/database/postgresql.go:64-87 | Insert succeeds iff both values can be cast to their columns (`FitVarchar` to 50 and 512) and the username as cast is new. The row then stores the cast values under a fresh id and Get of the cast name returns them; values that already fit are stored as given. A username that cannot be cast fails with "value too long" and changes nothing. Whenever it fails no row changes. A taken cast username is a unique violation. |
| `Users.PaddedUsernameTruncated` | auth_service/database/postgresql.go:67-87 | A username padded with spaces past 50 characters is stored under its first 50 characters with the next id. The same name with a letter past the limit is refused and nothing changes. |
| `Users.FirstUserThenDuplicate` | auth_service/database/postgresql.go:64-87 | the first user of an empty table gets id 1; the same username again is a unique violation |
| `Users.UserTable.Get` | auth_service/database/postgresql.go:89-100 | the SELECT by username; specified by `Users.GetEffect` |
| `Users.GetEffect` | auth_service/database/postgresql.go:89-100 | Get succeeds iff the name is stored, with the username set to the name asked for and the stored password |
| `Users.UserTable.Delete` | auth_service/database/postgresql.go:130-148 | the DELETE by username with its row count; specified by `Users.DeleteEffect` |
| `Users.DeleteEffect` | auth_service/database/postgresql.go:130-148 | Delete removes that user iff present, leaving every other row and the sequence as they were; otherwise "no rows affected" and nothing changes |
| `Users.UserStore.constructor` | auth_service/database/postgresql.go:64-73 | on a fresh database the table starts empty with the sequence at 1 |
| `Users.UserStore.Insert` | auth_service/database/postgresql.go:79-87 | the new state and result are those of `UserTable.Insert`, space-padded over-long values cut as the column cast does; on error the id is 0 |
| `Users.UserStore.Get` | auth_service/database/postgresql.go:89-100 | succeeds iff the name is stored, returning its id and password under that name |
| `Users.UserStore.GetAll` | auth_service/database/postgresql.go:102-128 | every user exactly once, with the stored id and an empty password |
| `Users.UserStore.Delete` | auth_service/database/postgresql.go:130-148 | the new state and error are those of `UserTable.Delete` |
| `Users.UserStore.Update` | auth_service/database/postgresql.go:150-181 | always succeeds and changes nothing |
| `DataApi.ParseInt64` | mock_service/api/api.go:180 | a parsed value always lies in the 64-bit range |
| `DataApi.ParseNumeral` | mock_service/api/api.go:180 | A digit string, optionally after '+' or '-', parses to its value, negated after '-'. It is refused when that value is out of range. |
| `DataApi.FormatParseRoundTrip` | mock_service/api/api.go:180 | every 64-bit value parses back from its decimal form |
| `DataApi.OutOfRangeRejected` | mock_service/api/api.go:180-184 | numerals beyond the 64-bit range are refused, signed or not |
| `DataApi.MinInt64Parses` | mock_service/api/api.go:180 | "-9223372036854775808" parses to the minimum |
| `DataApi.MalformedRejected` | mock_service/api/api.go:180-184 | the empty string, a bare sign, and any non-digit after the optional sign are refused |
| `DataApi.QueryValue` | mock_service/api/api.go:175 | `Query().Get("id")`: the first value given, or ""; stated in `DataApi.ParseIdParam`'s contract |
| `DataApi.ParseIdParam` | mock_service/api/api.go:174-186 | A missing or empty `id` fails with "ID parameter is required". A value that does not parse fails with "invalid ID". Otherwise the result is the parsed value. |
| `DataApi.IdParamRoundTrip` | mock_service/api/api.go:174-186 | every 64-bit id written in decimal is read back as itself |
| `DataApi.MutationFailure` | mock_service/api/api.go:82-91 | the error mapping of update and delete; specified by `DataApi.MutationFailureStatus` |
| `DataApi.MutationFailureStatus` | mock_service/api/api.go:82-91 | a failed update or delete answers 404 iff the store error's text is "no rows affected", and 500 otherwise |
| `DataApi.HandlerData` | mock_service/api/api.go:22-37 | the method switch; specified by `DataApi.UnknownMethodRejected` and the handler lemmas below |
| `DataApi.HandleCreate` | mock_service/api/api.go:39-61 | `handleCreate`; specified by `DataApi.CreateEffect`, `UndecodableBodySilent` and `MissingClaimsRejected` |
| `DataApi.HandleUpdate` | mock_service/api/api.go:63-95 | `handleUpdate`; specified by `DataApi.UpdateEffect`, `IdCheckedFirst`, `UndecodableBodySilent` and `MissingClaimsRejected` |
| `DataApi.HandleDelete` | mock_service/api/api.go:97-124 | `handleDelete`; specified by `DataApi.DeleteEffect`, `IdCheckedFirst` and `MissingClaimsRejected` |
| `DataApi.HandleGet` | mock_service/api/api.go:126-150 | `handleGet`; specified by `DataApi.GetEffect`, `IdCheckedFirst` and `MissingClaimsRejected` |
| `DataApi.HandlerList` | mock_service/api/api.go:152-171 | `HandlerList`; specified by `DataApi.ListEffect` and `ListIsolation` |
| `DataApi.UnknownMethodRejected` | mock_service/api/api.go:25-36 | any method but GET, POST, PUT and DELETE gets 405 "Method Not Allowed" and no store call |
| `DataApi.IdCheckedFirst` | mock_service/api/api.go:63-132 | GET, PUT and DELETE reject a bad id with 400 and the parse error, whatever the body and claims, with no store call |
| `DataApi.UndecodableBodySilent` | mock_service/api/api.go:39-73 | an undecodable body in create or update writes nothing (an empty 200) and makes no store call |
| `DataApi.MissingClaimsRejected` | mock_service/api/api.go:45-160 | without claims, each handler answers 500 once past its id and body checks, and makes no store call |
| `DataApi.CreateEffect` | mock_service/api/api.go:39-61 | Create answers 200 with the new id iff the item has a name and a value. The item is then visible to the caller only. Otherwise it answers 500 and no row is written. |
| `DataApi.UpdateEffect` | mock_service/api/api.go:63-95 | update answers 200 iff the caller owns the item, which then holds the merged record; otherwise 404 "Item not found" and nothing changes |
| `DataApi.DeleteEffect` | mock_service/api/api.go:97-124 | delete answers 200 iff the caller owns the item; the item and its association are then gone for everyone and the sequence is unchanged; otherwise 404 and nothing changes |
| `DataApi.GetEffect` | mock_service/api/api.go:126-150 | get answers 200 with the stored record iff the caller owns it; otherwise 500 "Failed to get item"; the store is unchanged |
| `DataApi.ListEffect` | mock_service/api/api.go:152-171 | list answers 200 with exactly the caller's items in ascending id order |
| `DataApi.DataIsolation` | mock_service/api/api.go:22-150 | no request under B's claims returns an item of A, and A's view of it is unchanged afterwards |
| `DataApi.ListIsolation` | mock_service/api/api.go:152-171 | B's listing never shows an item of A |
| `AuthApi.HandlerAuthorize` | auth_service/api/api.go:25-57 | specified by `AuthApi.AuthorizeOutcomes` and `AuthorizeWrongMethodContinues` |
| `AuthApi.HandlerRegister` | auth_service/api/api.go:59-90 | specified by `AuthApi.RegisterOutcomes`, `RegisterFailuresStoreNothing` and `RegisterWrongMethodContinues` |
| `AuthApi.HandlerLogout` | auth_service/api/api.go:92-121 | specified by `AuthApi.LogoutOutcomes` and `LogoutWrongMethodContinues` |
| `AuthApi.MethodCheck` | auth_service/api/api.go:27-29 | the check writes nothing iff the method is the expected one, and otherwise a single 405 |
| `AuthApi.AuthorizeWrongMethodContinues` | auth_service/api/api.go:27-29 | a non-POST authorize is answered 405 yet continues exactly as a POST would |
| `AuthApi.RegisterWrongMethodContinues` | auth_service/api/api.go:61-63 | a non-POST register is answered 405 yet still registers exactly as a POST would |
| `AuthApi.LogoutWrongMethodContinues` | auth_service/api/api.go:95-97 | a non-GET logout is answered 405 yet still revokes exactly as a GET would |
| `AuthApi.AuthorizeOutcomes` | auth_service/api/api.go:25-57 | An undecodable body is 400, an unknown user 500, a wrong password 401. A failed signing is 500. Otherwise the answer is exactly the token from `GenerateJwt` for the username. 200 iff user found, password matched and signing succeeded. |
| `AuthApi.RegisterOutcomes` | auth_service/api/api.go:59-90 | register answers 200 with the next id iff the username and the hash can be cast to their columns and the cast username is new; the row then holds the cast hash under the cast name; otherwise 500 and no row changes |
| `AuthApi.RegisterFailuresStoreNothing` | auth_service/api/api.go:65-75 | an undecodable body (400) or a failed hash (500) stores nothing |
| `AuthApi.LogoutOutcomes` | auth_service/api/api.go:92-121 | A header error is 401 and missing claims 500. A failed revocation is 401. Otherwise 200, and the token is revoked until its `exp`. The store changes only on 200. |
| `Routes.DataRoute` | mock_service/main.go:45-46 | `/data` and `/list` behind the gate; specified by the session lemmas below |
| `Routes.LogoutRoute` | auth_service/main.go:47 | `/logout` behind the gate; specified by `Routes.LogoutThenReuse` |
| `Routes.IssuedTokenAccepted` | utils/jwt/jwt_utils.go:63-99 | an issued token, presented as "Bearer <token>" before expiry, passes the header check and verifies to its issued claims |
| `Routes.GatedRequestRunsAsOwner` | mock_service/main.go:45-46 | a live unrevoked token reaches the handler with its claims in the context, so every store call is keyed by the owner key of the username |
| `Routes.UnreachableStoreFailsClosed` | utils/jwt/jwt_utils.go:109-113 | if the revocation store is unreachable the gate answers 500 and the handler does not run |
| `Routes.ExpiredTokenRejected` | utils/jwt/jwt_utils.go:119-123 | an expired token is refused with 401 and the handler does not run |
| `Routes.LogoutThenReuse` | auth_service/main.go:47 | After a logout with a live token (200), the same token is refused at `/data` with 401 "token is revoked" for the rest of its life. A second logout is refused by the gate before it can revoke. |
| `Routes.CrossTenantGetIs500` | mock_service/api/api.go:141-146 | a GET of another user's item with a valid token answers 500 "Failed to get item" |
| `Routes.RegisterThenAuthorize` | auth_service/api/api_test.go:75-130 | Registering a new name answers the next id. Logging in with the password then gives 200 and a token verifying to the issued claims. A non-matching password gives 401, and registering the same name again gives 500. |

## Left out

- JSON encoding and decoding are not modelled. A request body is already
  decoded, or None when it does not decode. An item's value is an opaque
  payload, and a nil `value` map is None. `ItemsDoc([])` stands for the JSON
  `null` that a nil slice encodes to.
- The `json.Marshal`/`Unmarshal` failures of the item value inside the store
  are not modelled.
- SHA-256, HS256 signing and parsing, and compact JWT serialisation are
  library code. They are function-valued parameters, and `Jwt.Sound` states
  what is taken of them on trust. `NumericDate` truncation to seconds is not
  modelled: time is whole seconds throughout.
- bcrypt is not modelled. `CompareHashAndPassword` is a parameter
  `matches(hash, plain)`. The outcome of `GenerateFromPassword` is a
  per-request parameter, because the salt makes it random.
- Jwt.Gate: the error texts of golang-jwt's parser are not reproduced. A
  malformed or badly signed token gets one fixed message; the status (401)
  is modelled.
- Jwt.Gate: every token is taken to carry `exp`, as every token this
  system issues does. A token without `exp` would be accepted by the
  library, and that case is not modelled.
- Database and store failures other than those the schema defines are not
  modelled: connection loss, `rows.Err`, `RowsAffected` errors. The item and
  user stores never fail in any other way. The revocation store's
  reachability is an explicit parameter.
- Connection setup is not modelled: `InitialzeDB`, `CREATE DATABASE` and its
  42P04 handling, `FinishDB`, `InitRedisClient`'s network client,
  `config.go`, and reading the environment in `main.go`.
- The stores' constructors start from a fresh database. `CREATE TABLE IF
  NOT EXISTS` keeps the rows and sequences of an earlier run; that start is
  covered by the lemmas, which hold over any valid table state.
- The NOT NULL error text is PostgreSQL's from version 13 on, which names the
  relation. Only "no rows affected" is compared by the handlers, so the
  difference from older versions is not observable.
- A string containing U+0000 (a JSON `"\u0000"`, which `encoding/json`
  accepts) is refused by PostgreSQL in a `TEXT`/`VARCHAR` parameter and in
  `jsonb`. Such a name, value, username or hash makes the source answer 500
  where the model stores the row; text encoding is not modelled.
- Concurrency between requests is not modelled. Each handler runs
  atomically over the store state it is given.
- Logging is not modelled.
- Integer widths are not modelled. The `BIGSERIAL`/`SERIAL` counters and
  `int64` ids are unbounded integers, so sequence exhaustion and the 32-bit
  limit of `users.id` are not modelled. The id parameter's 64-bit range is
  modelled exactly.
- bcrypt's 72-byte password limit is not modelled. It shows up only as a
  failed hash, which is the None case of the hash parameter.
- Users.UserStore.GetAll: the order of rows from `SELECT ... FROM users`
  without `ORDER BY` is unspecified. The method promises every user exactly
  once and no particular order.
