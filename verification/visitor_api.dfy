/**
 * The visitor routes (`app/api/v1/visitor.py`): the bearer-token gate and the
 * five handlers, each mapping the service's outcome to an HTTP status code and
 * the `data` member of the response envelope. The database session, the
 * password hasher, the JWT signer and the timestamp rendering are parameters.
 */
module VisitorApi {
  import opened Common
  import opened Text
  import opened Config
  import opened Auth
  import opened VisitorModel
  import opened VisitorSchemas
  import opened VisitorService

  const MAX_PAGE_SIZE := 100

  datatype Context = Context(settings: Settings, hasher: Hasher, signer: Signer, iso: int -> string)

  /** The `data` member of a success envelope. */
  datatype Data =
    | SessionData(user: map<string, Json>, token: TokenResponse)
    | UserData(user: map<string, Json>)
    | PageData(visitors: seq<map<string, Json>>, total: int, skip: int, limit: int)

  /** A success envelope carries `data`; a failure is the status code of the `HTTPException` raised. */
  datatype Reply = Success(code: int, data: Data) | Failure(code: int)

  /** A reply and the store the request leaves behind. */
  datatype Exchange = Exchange(reply: Reply, db: Db)

  // -------------------------------------------------------------------- gate

  /**
   * Python's `int(x)` on a decoded claim: a string is parsed as an ASCII integer
   * literal, an integer is itself, a boolean is 0 or 1; a missing claim,
   * `null`, an array or an object raises `TypeError`.
   */
  function PyInt(j: Option<Json>): (r: Option<int>)
    ensures j.Some? && j.value.JStr? ==> r == ParsePyInt(j.value.s)
    ensures j.Some? && j.value.JInt? ==> r == Some(j.value.i)
    ensures j.None? || j.value.JNull? || j.value.JArr? || j.value.JObj? ==> r.None?
  {
    match j
    case None => None
    case Some(v) =>
      match PyIntOf(v)
      case Converted(i) => Some(i)
      case _ => None
  }

  datatype Gate = Admit(account: Account) | Reject(code: int)

  /**
   * `get_current_visitor` after the token was decoded: no claims (or an empty
   * claim set) is 401; a `type` other than "visitor" is 403; a `sub` that
   * `int` cannot convert is 401; an id with no row is 404; otherwise the row.
   */
  function CurrentVisitor(db: Db, payload: Option<Claims>): (g: Gate)
    ensures g.Reject? ==> g.code in {401, 403, 404}
    ensures g.Reject? && g.code == 401 <==>
              payload.None? || payload.value == map[] || (Get(payload.value, "type") == Some(JStr("visitor")) && PyInt(Get(payload.value, "sub")).None?)
    ensures g.Reject? && g.code == 403 <==>
              payload.Some? && payload.value != map[] && Get(payload.value, "type") != Some(JStr("visitor"))
    ensures g.Admit? <==>
              && payload.Some? && payload.value != map[]
              && Get(payload.value, "type") == Some(JStr("visitor"))
              && PyInt(Get(payload.value, "sub")).Some?
              && PyInt(Get(payload.value, "sub")).value in db.rows
    ensures g.Admit? ==> g.account == db.rows[PyInt(Get(payload.value, "sub")).value]
  {
    if payload.None? || payload.value == map[] then Reject(401)
    else
      var claims := payload.value;
      if Get(claims, "type") != Some(JStr("visitor")) then Reject(403)
      else match PyInt(Get(claims, "sub"))
        case None => Reject(401)
        case Some(id) =>
          match GetById(db, id)
          case None => Reject(404)
          case Some(a) => Admit(a)
  }

  /**
   * The gate applied to a presented bearer token at instant `now`: a token
   * that decodes to `None` is 401, and an exception escaping the decoder is
   * answered 500 by the framework.
   */
  function Authorize(ctx: Context, db: Db, token: string, now: int): (g: Gate)
    ensures g == Reject(500) <==> DecodeAccessToken(ctx.signer, ctx.settings, token, now).Raises?
    ensures DecodeAccessToken(ctx.signer, ctx.settings, token, now).Refused? ==> g == Reject(401)
    ensures DecodeAccessToken(ctx.signer, ctx.settings, token, now).Payload? ==>
              g == CurrentVisitor(db, Some(DecodeAccessToken(ctx.signer, ctx.settings, token, now).claims))
  {
    match DecodeAccessToken(ctx.signer, ctx.settings, token, now)
    case Payload(c) => CurrentVisitor(db, Some(c))
    case Refused => CurrentVisitor(db, None)
    case Raises => Reject(500)
  }

  /**
   * The token issued for an account opens the gate to exactly that account,
   * at any instant up to its expiry, as long as the row exists. (An id too
   * long for `str` makes `create_token` raise, so no token exists for it.)
   */
  lemma IssuedTokenAdmits(ctx: Context, db: Db, id: int, issued: int, later: int)
    requires RoundTrips(ctx.signer)
    requires Valid(db) && id in db.rows && WithinIntDigits(id)
    requires later <= Expiry(ctx.settings, None, issued)
    ensures Authorize(ctx, db, CreateToken(ctx.signer, ctx.settings, id, issued), later) == Admit(db.rows[id])
  {
    var c := TokenClaims(id);
    DecodeIssued(ctx.signer, ctx.settings, c, None, issued, later);
    var payload := WithExpiry(c, Expiry(ctx.settings, None, issued));
    assert Get(payload, "type") == Some(JStr("visitor"));
    assert Get(payload, "sub") == Some(c["sub"]);
    assert payload != map[] by { assert "sub" in payload; }
  }

  // ---------------------------------------------------------------- handlers

  /** The `data` of a successful register or login: the public account and a bearer token for its id. */
  function Session(ctx: Context, a: Account, now: int): (data: Data)
    ensures data.SessionData? && data.user == ToDict(a, ctx.iso)
    ensures data.token.tokenType == "bearer"
    ensures data.token.accessToken == CreateToken(ctx.signer, ctx.settings, a.id, now)
  {
    SessionData(ToDict(a, ctx.iso), BearerToken(CreateToken(ctx.signer, ctx.settings, a.id, now)))
  }

  /**
   * `POST /register`: 422 when the body fails validation; 201 with the new
   * account and a token; 400 when the username or email is taken; 500 for
   * any other failure.
   */
  function RegisterVisitor(ctx: Context, db: Db, input: RegisterInput, now: int): (x: Exchange)
    ensures x.reply.code in {201, 400, 422, 500}
    ensures x.reply.code != 201 ==> x.db == db && x.reply.Failure?
    ensures x.reply.code == 422 <==> RegisterErrors(input) != []
    ensures x.reply.code == 400 <==> RegisterErrors(input) == [] && |MatchingKeys(db, input.username, input.email)| == 1
    ensures x.reply.code == 500 <==> RegisterErrors(input) == [] && |MatchingKeys(db, input.username, input.email)| > 1
    ensures x.reply.code == 201 ==>
              var s := Register(db, input, ctx.hasher, now);
              s.out.Ok? && x.db == s.db && x.reply == Success(201, Session(ctx, s.out.value, now))
  {
    if RegisterErrors(input) != [] then Exchange(Failure(422), db)
    else
      var s := Register(db, input, ctx.hasher, now);
      match s.out
      case Ok(a) => Exchange(Success(201, Session(ctx, a, now)), s.db)
      case Raised(e) => Exchange(Failure(if e == UsernameOrEmailTaken then 400 else 500), s.db)
  }

  /**
   * `POST /login` as written: the 401 for unknown credentials is raised
   * inside the `try` whose `except Exception` turns it into 500. A disabled
   * account is 403 (`ValueError`), an ambiguous lookup 500, success 200.
   */
  function LoginVisitor(ctx: Context, db: Db, input: LoginInput, now: int): (x: Exchange)
    ensures x.reply.code in {200, 403, 500}
    ensures x.reply.code != 200 ==> x.db == db && x.reply.Failure?
    ensures var s := Authenticate(db, input, ctx.hasher, now);
            && (x.reply.code == 403 <==> s.out == Raised(AccountDisabled))
            && (x.reply.code == 500 <==> s.out == Ok(None) || s.out == Raised(MultipleResultsFound))
            && (x.reply.code == 200 ==> s.out.Ok? && s.out.value.Some? && x.db == s.db
                                        && x.reply == Success(200, Session(ctx, s.out.value.value, now)))
  {
    var s := Authenticate(db, input, ctx.hasher, now);
    match s.out
    case Ok(None) => Exchange(Failure(500), s.db)
    case Ok(Some(a)) => Exchange(Success(200, Session(ctx, a, now)), s.db)
    case Raised(e) => Exchange(Failure(if e == AccountDisabled then 403 else 500), s.db)
  }

  /** `POST /login` as evidently intended: unknown credentials answer 401. */
  function LoginIntended(ctx: Context, db: Db, input: LoginInput, now: int): (x: Exchange)
    ensures x.reply.code in {200, 401, 403, 500}
    ensures x.reply.code != 200 ==> x.db == db && x.reply.Failure?
    ensures var s := Authenticate(db, input, ctx.hasher, now);
            && (x.reply.code == 401 <==> s.out == Ok(None))
            && (x.reply.code == 403 <==> s.out == Raised(AccountDisabled))
            && (x.reply.code == 500 <==> s.out == Raised(MultipleResultsFound))
            && (x.reply.code == 200 <==> s.out.Ok? && s.out.value.Some?)
  {
    var x := LoginVisitor(ctx, db, input, now);
    if Authenticate(db, input, ctx.hasher, now).out == Ok(None) then Exchange(Failure(401), x.db) else x
  }

  /** A wrong password for an existing account: as written the server answers 500, as intended 401. */
  lemma WrongPasswordAnswers500(ctx: Context, db: Db, input: LoginInput, now: int, k: int)
    requires MatchingKeys(db, input.username, input.username) == {k}
    requires !ctx.hasher.verify(input.password, db.rows[k].hashedPassword)
    ensures LoginVisitor(ctx, db, input, now).reply == Failure(500)
    ensures LoginIntended(ctx, db, input, now).reply == Failure(401)
  {
    assert k in MatchingKeys(db, input.username, input.username);
  }

  /** `GET /me`: the gate's account, or the gate's status code. */
  function Me(ctx: Context, db: Db, token: string, now: int): (r: Reply)
    ensures r.Success? <==> Authorize(ctx, db, token, now).Admit?
    ensures r.Success? ==> r == Success(200, UserData(ToDict(Authorize(ctx, db, token, now).account, ctx.iso)))
    ensures r.Failure? ==> r.code == Authorize(ctx, db, token, now).code
  {
    match Authorize(ctx, db, token, now)
    case Reject(c) => Failure(c)
    case Admit(a) => Success(200, UserData(ToDict(a, ctx.iso)))
  }

  /**
   * `PUT /me`: the gate first, then body validation (422), then the partial
   * update of the gate's account. The 404 for a vanished row is raised inside
   * the `try` and leaves as 500.
   */
  function UpdateMe(ctx: Context, db: Db, token: string, input: UpdateInput, now: int): (x: Exchange)
    ensures x.reply.code != 200 ==> x.db == db && x.reply.Failure?
    ensures Authorize(ctx, db, token, now).Reject? ==> x.reply == Failure(Authorize(ctx, db, token, now).code)
    ensures Authorize(ctx, db, token, now).Admit? && UpdateErrors(input) != [] ==> x.reply == Failure(422)
    ensures x.reply.code == 200 <==>
              && Authorize(ctx, db, token, now).Admit? && UpdateErrors(input) == []
              && Authorize(ctx, db, token, now).account.id in db.rows
    ensures Valid(db) && Authorize(ctx, db, token, now).Admit? && UpdateErrors(input) == [] ==> x.reply.code == 200
    ensures x.reply.code == 200 ==>
              var s := Update(db, Authorize(ctx, db, token, now).account.id, input, now);
              && s.out.value.Some?
              && x.db == s.db
              && x.reply == Success(200, UserData(ToDict(s.out.value.value, ctx.iso)))
  {
    match Authorize(ctx, db, token, now)
    case Reject(c) => Exchange(Failure(c), db)
    case Admit(a) =>
      if UpdateErrors(input) != [] then Exchange(Failure(422), db)
      else
        var s := Update(db, a.id, input, now);
        match s.out.value
        case None => Exchange(Failure(500), s.db)
        case Some(b) => Exchange(Success(200, UserData(ToDict(b, ctx.iso))), s.db)
  }

  /** The page size after the route's cap. */
  function ClampLimit(limit: int): (r: int)
    ensures r <= MAX_PAGE_SIZE
    ensures limit <= MAX_PAGE_SIZE ==> r == limit
    ensures limit > MAX_PAGE_SIZE ==> r == MAX_PAGE_SIZE
  {
    if limit > MAX_PAGE_SIZE then MAX_PAGE_SIZE else limit
  }

  /** `{"visitors": [v.to_dict() ...], "total": ..., "skip": ..., "limit": ...}` for a page. */
  function PageOf(p: Page, iso: int -> string): (d: Data)
    ensures d.PageData? && |d.visitors| == |p.items|
    ensures forall i :: 0 <= i < |p.items| ==> d.visitors[i] == ToDict(p.items[i], iso)
    ensures d.total == p.total && d.skip == p.skip && d.limit == p.limit
  {
    PageData(seq(|p.items|, i requires 0 <= i < |p.items| => ToDict(p.items[i], iso)), p.total, p.skip, p.limit)
  }

  /**
   * `GET /`: the limit is capped at 100 before the query; a query failure
   * (a negative `skip` or `limit`) is 500. The route reads no token.
   */
  function ListVisitors(ctx: Context, db: Db, skip: int, limit: int, status: Option<string>): (r: Reply)
    ensures r.Success? <==> skip >= 0 && ClampLimit(limit) >= 0
    ensures r.Failure? ==> r.code == 500
    ensures r.Success? ==>
              var p := List(db, skip, ClampLimit(limit), status).value;
              && r.code == 200
              && r.data == PageOf(p, ctx.iso)
              && p.limit == ClampLimit(limit)
              && |p.items| <= MAX_PAGE_SIZE
  {
    match List(db, skip, ClampLimit(limit), status)
    case Raised(_) => Failure(500)
    case Ok(p) => Success(200, PageOf(p, ctx.iso))
  }
}
