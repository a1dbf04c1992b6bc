/** The request handlers of the data service (`/data` and `/list`).

    Each handler is a function from the store's state and the request to what
    it writes and the store's new state. The request carries its method, its
    query parameters, the outcome of decoding its JSON body (None when the
    body does not decode) and its context, into which the gate has put the
    verified claims. The owner key of every store call is the claims'
    subject. */
module DataApi {
  import opened Common
  import opened Http
  import opened Items
  import Jwt

  // ---------------------------------------------------------------------
  // Decimal ids: `strconv.ParseInt(s, 10, 64)` and its inverse
  // ---------------------------------------------------------------------

  const MIN_INT64 := -0x8000_0000_0000_0000
  const MAX_INT64 := 0x7fff_ffff_ffff_ffff

  predicate IsDigit(c: char) {
    '0' <= c <= '9'
  }

  predicate AllDigits(s: string) {
    forall i :: 0 <= i < |s| ==> IsDigit(s[i])
  }

  /** The value of a string of decimal digits, most significant first. */
  function DigitsValue(s: string): nat
    requires AllDigits(s)
  {
    if s == [] then 0 else 10 * DigitsValue(s[..|s| - 1]) + (s[|s| - 1] as int - '0' as int)
  }

  function DigitChar(d: int): (c: char)
    requires 0 <= d < 10
    ensures IsDigit(c) && c as int - '0' as int == d
  {
    ('0' as int + d) as char
  }

  /** The shortest decimal numeral of `n` (`strconv.FormatUint`). */
  function NatDigits(n: nat): (s: string)
    ensures |s| >= 1 && AllDigits(s)
    ensures n >= 10 ==> |s| >= 2
  {
    if n < 10 then [DigitChar(n)] else NatDigits(n / 10) + [DigitChar(n % 10)]
  }

  /** `strconv.FormatInt(v, 10)`. */
  function FormatInt(v: int): string {
    if v < 0 then "-" + NatDigits(-v) else NatDigits(v)
  }

  /** `strconv.ParseInt(s, 10, 64)`: an optional sign, then one or more
      decimal digits and nothing else, with the value in the 64-bit range.
      Every failure (syntax or range) is None. */
  function ParseInt64(s: string): (r: Option<int>)
    ensures r.Some? ==> MIN_INT64 <= r.value <= MAX_INT64
  {
    var signed := |s| > 0 && (s[0] == '+' || s[0] == '-');
    var digits := if signed then s[1..] else s;
    if digits == [] || !AllDigits(digits) then None
    else
      var v: int := if signed && s[0] == '-' then -(DigitsValue(digits) as int) else DigitsValue(digits);
      if MIN_INT64 <= v <= MAX_INT64 then Some(v) else None
  }

  lemma {:induction false} NatDigitsValue(n: nat)
    ensures DigitsValue(NatDigits(n)) == n
  {
    if n >= 10 {
      NatDigitsValue(n / 10);
      var s := NatDigits(n);
      assert s[..|s| - 1] == NatDigits(n / 10);
    }
  }

  /** An unsigned numeral, and one after a '+' or a '-', parse to their
      value when it is in range and are refused otherwise. */
  lemma ParseNumeral(d: string)
    requires |d| >= 1 && AllDigits(d)
    ensures ParseInt64(d) == if DigitsValue(d) <= MAX_INT64 then Some(DigitsValue(d) as int) else None
    ensures ParseInt64("+" + d) == ParseInt64(d)
    ensures ParseInt64("-" + d) ==
      if -(DigitsValue(d) as int) >= MIN_INT64 then Some(-(DigitsValue(d) as int)) else None
  {
    assert IsDigit(d[0]);
    ParseAfterSign('+', d);
    ParseAfterSign('-', d);
  }

  lemma ParseAfterSign(sign: char, d: string)
    requires sign == '+' || sign == '-'
    requires |d| >= 1 && AllDigits(d)
    ensures var v: int := if sign == '-' then -(DigitsValue(d) as int) else DigitsValue(d);
      ParseInt64([sign] + d) == if MIN_INT64 <= v <= MAX_INT64 then Some(v) else None
  {
    var s := [sign] + d;
    assert s[0] == sign && s[1..] == d;
  }

  /** Every 64-bit value parses back from its decimal form. */
  lemma FormatParseRoundTrip(v: int)
    requires MIN_INT64 <= v <= MAX_INT64
    ensures ParseInt64(FormatInt(v)) == Some(v)
  {
    if v < 0 {
      var d := NatDigits(-v);
      NatDigitsValue(-v);
      ParseNumeral(d);
      assert FormatInt(v) == "-" + d;
      assert DigitsValue(d) == -v;
    } else {
      var d := NatDigits(v);
      NatDigitsValue(v);
      ParseNumeral(d);
      assert FormatInt(v) == d;
      assert DigitsValue(d) == v;
    }
  }

  /** A numeral above the 64-bit range is refused, with or without a sign. */
  lemma OutOfRangeRejected(n: nat)
    requires n > MAX_INT64
    ensures ParseInt64(NatDigits(n)) == None
    ensures ParseInt64("+" + NatDigits(n)) == None
    ensures n > -MIN_INT64 ==> ParseInt64("-" + NatDigits(n)) == None
  {
    NatDigitsValue(n);
    ParseNumeral(NatDigits(n));
  }

  /** The most negative value has a numeral of its own: "-9223372036854775808"
      parses although its magnitude does not fit a positive int64. */
  lemma MinInt64Parses()
    ensures ParseInt64("-" + NatDigits(-MIN_INT64)) == Some(MIN_INT64)
  {
    FormatParseRoundTrip(MIN_INT64);
  }

  /** The empty string, a bare sign, and any character other than a digit
      after the optional sign are refused. */
  lemma MalformedRejected(s: string, i: int)
    requires 0 <= i < |s| && !IsDigit(s[i])
    requires i > 0 || (s[0] != '+' && s[0] != '-')
    ensures ParseInt64("") == None && ParseInt64("+") == None && ParseInt64("-") == None
    ensures ParseInt64(s) == None
  {
    var signed := |s| > 0 && (s[0] == '+' || s[0] == '-');
    var digits := if signed then s[1..] else s;
    if signed {
      assert digits[i - 1] == s[i];
    } else {
      assert digits[i] == s[i];
    }
  }

  // ---------------------------------------------------------------------
  // The `id` query parameter
  // ---------------------------------------------------------------------

  type Query = map<string, seq<string>>

  /** `URL.Query().Get(key)`: the first value given for the key, or "". */
  function QueryValue(query: Query, key: string): string {
    if key in query && |query[key]| > 0 then query[key][0] else ""
  }

  const ID_REQUIRED := "ID parameter is required"
  const INVALID_ID := "invalid ID"

  /** `parseIDParam`. */
  function ParseIdParam(query: Query): (r: Result<int, string>)
    ensures r == Err(ID_REQUIRED) <==> QueryValue(query, "id") == ""
    ensures r == Err(INVALID_ID) <==> QueryValue(query, "id") != "" && ParseInt64(QueryValue(query, "id")).None?
    ensures r.Ok? ==> ParseInt64(QueryValue(query, "id")) == Some(r.value)
  {
    var param := QueryValue(query, "id");
    if param == "" then Err(ID_REQUIRED)
    else
      match ParseInt64(param)
      case None => Err(INVALID_ID)
      case Some(id) => Ok(id)
  }

  /** Every 64-bit id, written in decimal as the first `id` value, is read
      back as itself. */
  lemma IdParamRoundTrip(query: Query, v: int)
    requires MIN_INT64 <= v <= MAX_INT64
    requires "id" in query && |query["id"]| > 0 && query["id"][0] == FormatInt(v)
    ensures ParseIdParam(query) == Ok(v)
  {
    FormatParseRoundTrip(v);
  }

  // ---------------------------------------------------------------------
  // Requests, responses and the handlers
  // ---------------------------------------------------------------------

  datatype DataRequest = DataRequest(httpMethod: string, query: Query, body: Option<DBItem>, ctx: Jwt.Context)

  /** The JSON documents the handlers send. `ItemsDoc([])` is sent as `null`
      (a nil slice). */
  datatype Doc =
    | IdDoc(id: int)
    | MessageDoc(message: string)
    | ItemDoc(item: DBItem)
    | ItemsDoc(items: seq<DBItem>)

  /** What a handler wrote and the store's state afterwards. */
  datatype Served = Served(response: Response<Doc>, store: Tables)

  const NO_ROWS_AFFECTED := "no rows affected"

  /** The response to a failed update or delete: the store error's text is
      compared with "no rows affected". */
  function MutationFailure(err: StoreError, action: string): Write<Doc> {
    if err.Text() == NO_ROWS_AFFECTED then ErrorText(STATUS_NOT_FOUND, "Item not found")
    else ErrorText(STATUS_INTERNAL_SERVER_ERROR, "Failed to " + action + " item")
  }

  /** "no rows affected" is 404 and every other store error is 500. */
  lemma MutationFailureStatus(err: StoreError, action: string)
    ensures MutationFailure(err, action).status == 404 <==> err.Text() == "no rows affected"
    ensures MutationFailure(err, action).status != 404 ==> MutationFailure(err, action).status == 500
    ensures err.NoRowsAffected? ==> MutationFailure(err, action).status == 404
    ensures err.NoRows? || err.NotNullViolation? ==> MutationFailure(err, action).status == 500
  {
    if err.NoRows? {
      assert |err.Text()| != |NO_ROWS_AFFECTED|;
    } else if err.NotNullViolation? {
      var prefix := "pq: null value in column \"";
      assert err.Text() == prefix + (err.column + "\" of relation \"_items\" violates not-null constraint");
      assert err.Text()[0] == prefix[0] == 'p';
    }
  }

  /** `handleCreate`. A failed insert has still drawn its id. */
  function HandleCreate(t: Tables, req: DataRequest): Served {
    match req.body
    case None => Served([], t)
    case Some(item) =>
      match Jwt.ClaimsFromContext(req.ctx)
      case Err(e) => Served([ErrorText(STATUS_INTERNAL_SERVER_ERROR, e)], t)
      case Ok(claims) =>
        var (after, r) := t.Insert(item, claims.subject);
        match r
        case Err(_) => Served([ErrorText(STATUS_INTERNAL_SERVER_ERROR, "Failed to insert item")], after)
        case Ok(id) => Served([JsonBody(STATUS_OK, IdDoc(id))], after)
  }

  /** `handleUpdate`: id, then body, then claims, then the store. */
  function HandleUpdate(t: Tables, req: DataRequest): Served {
    match ParseIdParam(req.query)
    case Err(e) => Served([ErrorText(STATUS_BAD_REQUEST, e)], t)
    case Ok(id) =>
      match req.body
      case None => Served([], t)
      case Some(patch) =>
        match Jwt.ClaimsFromContext(req.ctx)
        case Err(e) => Served([ErrorText(STATUS_INTERNAL_SERVER_ERROR, e)], t)
        case Ok(claims) =>
          var (after, err) := t.Update(id, patch, claims.subject);
          match err
          case Some(e) => Served([MutationFailure(e, "update")], after)
          case None => Served([JsonBody(STATUS_OK, MessageDoc("Item updated successfully"))], after)
  }

  /** `handleDelete`: id, then claims, then the store. */
  function HandleDelete(t: Tables, req: DataRequest): Served {
    match ParseIdParam(req.query)
    case Err(e) => Served([ErrorText(STATUS_BAD_REQUEST, e)], t)
    case Ok(id) =>
      match Jwt.ClaimsFromContext(req.ctx)
      case Err(e) => Served([ErrorText(STATUS_INTERNAL_SERVER_ERROR, e)], t)
      case Ok(claims) =>
        var (after, err) := t.Delete(id, claims.subject);
        match err
        case Some(e) => Served([MutationFailure(e, "delete")], after)
        case None => Served([JsonBody(STATUS_OK, MessageDoc("Item deleted successfully"))], after)
  }

  /** `handleGet`: every store error, an item of another owner included, is
      a 500. */
  function HandleGet(t: Tables, req: DataRequest): Served {
    match ParseIdParam(req.query)
    case Err(e) => Served([ErrorText(STATUS_BAD_REQUEST, e)], t)
    case Ok(id) =>
      match Jwt.ClaimsFromContext(req.ctx)
      case Err(e) => Served([ErrorText(STATUS_INTERNAL_SERVER_ERROR, e)], t)
      case Ok(claims) =>
        match t.Get(id, claims.subject)
        case Err(_) => Served([ErrorText(STATUS_INTERNAL_SERVER_ERROR, "Failed to get item")], t)
        case Ok(item) => Served([JsonBody(STATUS_OK, ItemDoc(item))], t)
  }

  /** `HandlerData`: method dispatch. */
  function HandlerData(t: Tables, req: DataRequest): Served {
    if req.httpMethod == "GET" then HandleGet(t, req)
    else if req.httpMethod == "POST" then HandleCreate(t, req)
    else if req.httpMethod == "PUT" then HandleUpdate(t, req)
    else if req.httpMethod == "DELETE" then HandleDelete(t, req)
    else Served([ErrorText(STATUS_METHOD_NOT_ALLOWED, "Method Not Allowed")], t)
  }

  /** `HandlerList`, for any method. */
  function HandlerList(t: Tables, req: DataRequest): Served {
    match Jwt.ClaimsFromContext(req.ctx)
    case Err(e) => Served([ErrorText(STATUS_INTERNAL_SERVER_ERROR, e)], t)
    case Ok(claims) => Served([JsonBody(STATUS_OK, ItemsDoc(t.Listing(claims.subject)))], t)
  }

  // ---------------------------------------------------------------------
  // Properties of the handlers
  // ---------------------------------------------------------------------

  predicate IdMethod(m: string) {
    m == "GET" || m == "PUT" || m == "DELETE"
  }

  /** Any method but GET, POST, PUT and DELETE is answered 405 and leaves
      the store alone. */
  lemma UnknownMethodRejected(t: Tables, req: DataRequest)
    requires req.httpMethod !in {"GET", "POST", "PUT", "DELETE"}
    ensures HandlerData(t, req) == Served([ErrorText(405, "Method Not Allowed")], t)
  {
  }

  /** GET, PUT and DELETE check the id before anything else: a bad id is a
      400 carrying the parse error, whatever the body and the claims, and no
      store call is made. */
  lemma IdCheckedFirst(t: Tables, req: DataRequest)
    requires IdMethod(req.httpMethod) && ParseIdParam(req.query).Err?
    ensures HandlerData(t, req) == Served([ErrorText(400, ParseIdParam(req.query).error)], t)
    ensures Status(HandlerData(t, req).response) == 400
  {
  }

  /** A body that does not decode ends create and update with nothing
      written (the client sees an empty 200) and no store call. */
  lemma UndecodableBodySilent(t: Tables, req: DataRequest)
    requires req.body.None?
    requires req.httpMethod == "POST" || (req.httpMethod == "PUT" && ParseIdParam(req.query).Ok?)
    ensures HandlerData(t, req) == Served([], t)
    ensures Status(HandlerData(t, req).response) == 200
  {
  }

  /** Without claims in the context every handler that gets past its id and
      body checks answers 500 before touching the store. */
  lemma MissingClaimsRejected(t: Tables, req: DataRequest)
    requires Jwt.ClaimsFromContext(req.ctx).Err?
    ensures Status(HandlerList(t, req).response) == 500 && HandlerList(t, req).store == t
    ensures req.httpMethod in {"GET", "POST", "PUT", "DELETE"} &&
            (IdMethod(req.httpMethod) ==> ParseIdParam(req.query).Ok?) &&
            (req.httpMethod in {"POST", "PUT"} ==> req.body.Some?) ==>
      HandlerData(t, req) == Served([ErrorText(500, "Unable to extract claims from contest")], t)
  {
  }

  /** Create: 200 with the new id iff the item has a name and a value; the
      item is then visible to the caller, and only to the caller, with what
      was sent. A failed insert writes no row and answers 500. */
  lemma CreateEffect(t: Tables, req: DataRequest, claims: Jwt.Claims)
    requires t.Valid() && req.httpMethod == "POST" && req.body.Some?
    requires Jwt.ClaimsFromContext(req.ctx) == Ok(claims)
    ensures var s := HandlerData(t, req);
      && s.store.Valid()
      && (Status(s.response) == 200 <==> req.body.value.name != "" && req.body.value.value.Some?)
      && (Status(s.response) != 200 ==>
           Status(s.response) == 500 && s.store.items == t.items && s.store.owners == t.owners)
      && (Status(s.response) == 200 ==>
           && s.response == [JsonBody(200, IdDoc(t.nextId))]
           && t.nextId !in t.items
           && s.store.Get(t.nextId, claims.subject)
              == Ok(DBItem(t.nextId, req.body.value.name, req.body.value.value))
           && forall other :: other != claims.subject ==> s.store.Get(t.nextId, other).Err?)
  {
    InsertEffect(t, req.body.value, claims.subject);
  }

  /** Update: 200 iff the caller owns the item, and the item then holds the
      merged record; otherwise 404 and nothing changes. */
  lemma UpdateEffect(t: Tables, req: DataRequest, claims: Jwt.Claims)
    requires t.Valid() && req.httpMethod == "PUT" && req.body.Some?
    requires ParseIdParam(req.query).Ok? && Jwt.ClaimsFromContext(req.ctx) == Ok(claims)
    ensures var id := ParseIdParam(req.query).value;
      var patch := req.body.value;
      var s := HandlerData(t, req);
      && s.store.Valid()
      && (Status(s.response) == 200 <==> t.Visible(id, claims.subject))
      && (Status(s.response) != 200 ==> s == Served([ErrorText(404, "Item not found")], t))
      && (Status(s.response) == 200 ==>
           s.store.Get(id, claims.subject) == Ok(DBItem(id,
             if patch.name == "" then t.items[id].name else patch.name,
             Some(if patch.value.None? then t.items[id].value else patch.value.value))))
  {
    Items.UpdateEffect(t, ParseIdParam(req.query).value, req.body.value, claims.subject);
    MutationFailureStatus(NoRowsAffected, "update");
  }

  /** Delete: 200 iff the caller owns the item, which is then gone for
      everyone; otherwise 404 and nothing changes. */
  lemma DeleteEffect(t: Tables, req: DataRequest, claims: Jwt.Claims)
    requires t.Valid() && req.httpMethod == "DELETE"
    requires ParseIdParam(req.query).Ok? && Jwt.ClaimsFromContext(req.ctx) == Ok(claims)
    ensures var id := ParseIdParam(req.query).value;
      var s := HandlerData(t, req);
      && s.store.Valid()
      && (Status(s.response) == 200 <==> t.Visible(id, claims.subject))
      && (Status(s.response) != 200 ==> s == Served([ErrorText(404, "Item not found")], t))
      && (Status(s.response) == 200 ==>
           && s.store.items == t.items - {id}
           && s.store.owners == t.owners - {id}
           && s.store.nextId == t.nextId
           && forall anyone :: s.store.Get(id, anyone).Err?)
  {
    Items.DeleteEffect(t, ParseIdParam(req.query).value, claims.subject);
    MutationFailureStatus(NoRowsAffected, "delete");
  }

  /** Get: 200 with the stored record iff the caller owns the item; an item
      that is missing or belongs to someone else is a 500, not a 404. */
  lemma GetEffect(t: Tables, req: DataRequest, claims: Jwt.Claims)
    requires t.Valid() && req.httpMethod == "GET"
    requires ParseIdParam(req.query).Ok? && Jwt.ClaimsFromContext(req.ctx) == Ok(claims)
    ensures var id := ParseIdParam(req.query).value;
      var s := HandlerData(t, req);
      && s.store == t
      && (Status(s.response) == 200 <==> t.Visible(id, claims.subject))
      && (Status(s.response) == 200 ==>
           s.response == [JsonBody(200, ItemDoc(DBItem(id, t.items[id].name, Some(t.items[id].value))))])
      && (Status(s.response) != 200 ==> s.response == [ErrorText(500, "Failed to get item")])
  {
  }

  /** List: 200 with exactly the caller's items, by ascending id. */
  lemma ListEffect(t: Tables, req: DataRequest, claims: Jwt.Claims)
    requires t.Valid() && Jwt.ClaimsFromContext(req.ctx) == Ok(claims)
    ensures var s := HandlerList(t, req);
      && s.store == t && Status(s.response) == 200
      && s.response[0].JsonBody? && s.response[0].doc.ItemsDoc?
      && AscendingIds(s.response[0].doc.items)
      && forall x :: x in s.response[0].doc.items <==> t.Get(x.id, claims.subject) == Ok(x)
  {
    ListingExact(t, claims.subject);
  }

  /** The response shows the item with this id. */
  predicate Reveals(w: Write<Doc>, id: int) {
    && w.JsonBody?
    && ((w.doc.ItemDoc? && w.doc.item.id == id) ||
        (w.doc.ItemsDoc? && exists x :: x in w.doc.items && x.id == id))
  }

  /** Tenant isolation at `/data`: whatever request B sends, no response
      shows B an item of A's, and A's view of it is the same afterwards. */
  lemma DataIsolation(t: Tables, req: DataRequest, id: int, a: string, b: Jwt.Claims)
    requires t.Valid() && t.Visible(id, a) && b.subject != a
    requires Jwt.ClaimsFromContext(req.ctx) == Ok(b)
    ensures forall k :: 0 <= k < |HandlerData(t, req).response| ==> !Reveals(HandlerData(t, req).response[k], id)
    ensures HandlerData(t, req).store.Get(id, a) == t.Get(id, a)
  {
    var patch := if req.body.Some? then req.body.value else DBItem(0, "", None);
    Isolation(t, id, a, b.subject, patch, patch);
    if req.httpMethod == "GET" && ParseIdParam(req.query).Ok? {
      var asked := ParseIdParam(req.query).value;
      if t.Visible(asked, b.subject) {
        assert asked != id;
      }
    }
  }

  /** Tenant isolation at `/list`: B's listing never shows an item of A's. */
  lemma ListIsolation(t: Tables, req: DataRequest, id: int, a: string, b: Jwt.Claims)
    requires t.Valid() && t.Visible(id, a) && b.subject != a
    requires Jwt.ClaimsFromContext(req.ctx) == Ok(b)
    ensures forall k :: 0 <= k < |HandlerList(t, req).response| ==> !Reveals(HandlerList(t, req).response[k], id)
  {
    Isolation(t, id, a, b.subject, DBItem(0, "", None), DBItem(0, "", None));
  }
}
