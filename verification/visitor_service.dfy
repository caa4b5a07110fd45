/**
 * The visitor account manager (`app/services/visitor_service.py`). The
 * database is a map from primary key to row plus the auto-increment counter;
 * every operation is a pure transition from the store before to the outcome
 * and the store after. Password hashing is a pair of functions of which only
 * `verify(p, hash(p))` is assumed.
 */
module VisitorService {
  import opened Common
  import opened Text
  import opened VisitorModel
  import opened VisitorSchemas
  import opened Config
  import opened Auth

  datatype Db = Db(rows: map<int, Account>, nextId: int)

  /**
   * What the table guarantees: every row sits under its own id, ids come from
   * the auto-increment counter, and `username` and `email` are each unique.
   */
  predicate Valid(db: Db) {
    && db.nextId >= 1
    && (forall k | k in db.rows :: db.rows[k].id == k && 1 <= k < db.nextId)
    && (forall k1, k2 | k1 in db.rows && k2 in db.rows && db.rows[k1].username == db.rows[k2].username :: k1 == k2)
    && (forall k1, k2 | k1 in db.rows && k2 in db.rows && db.rows[k1].email == db.rows[k2].email :: k1 == k2)
  }

  datatype Hasher = Hasher(hash: string -> string, verify: (string, string) -> bool)

  /** The one property assumed of the password hasher. */
  ghost predicate Sound(h: Hasher) {
    forall p :: h.verify(p, h.hash(p))
  }

  /** The exceptions the service raises. */
  datatype Error =
    | UsernameOrEmailTaken   // ValueError on registration
    | AccountDisabled        // ValueError on login
    | MultipleResultsFound   // scalar_one_or_none() saw more than one row
    | InvalidPaging          // the database rejects a negative OFFSET or LIMIT

  datatype Outcome<T> = Ok(value: T) | Raised(error: Error)

  /** An operation's outcome together with the store it leaves behind. */
  datatype Step<T> = Step(out: Outcome<T>, db: Db)

  // ----------------------------------------------------------------- lookups

  /** The rows `WHERE username = :username OR email = :email` selects. */
  function MatchingKeys(db: Db, username: string, email: string): (keys: set<int>)
    ensures forall k :: k in keys <==> k in db.rows && (db.rows[k].username == username || db.rows[k].email == email)
  {
    set k | k in db.rows && (db.rows[k].username == username || db.rows[k].email == email)
  }

  datatype Row = NoRow | OneRow(key: int) | ManyRows

  lemma NonEmpty(keys: set<int>)
    requires keys != {}
    ensures exists k :: k in keys
  {
    assert (forall k :: k !in keys) ==> keys == {};
  }

  lemma SingletonOf(keys: set<int>)
    requires |keys| == 1
    ensures exists k :: keys == {k}
  {
    NonEmpty(keys);
    var k :| k in keys;
    assert |keys - {k}| == 0;
    assert keys == {k};
  }

  /** `result.scalar_one_or_none()` over the selected keys. */
  function ScalarOneOrNone(keys: set<int>): (r: Row)
    ensures r == NoRow <==> keys == {}
    ensures r.OneRow? <==> |keys| == 1
    ensures r.OneRow? ==> keys == {r.key}
    ensures r == ManyRows <==> |keys| > 1
  {
    if keys == {} then NoRow
    else if |keys| == 1 then
      SingletonOf(keys);
      var k :| keys == {k};
      OneRow(k)
    else ManyRows
  }

  // ---------------------------------------------------------------- register

  /**
   * `create_visitor`: refuses when any row already has the username or the
   * email; otherwise inserts one ACTIVE row under the next id, with the hash
   * of the password and the given name and phone.
   */
  function Register(db: Db, input: RegisterInput, h: Hasher, now: int): (r: Step<Account>)
    ensures r.out.Raised? ==> r.db == db
    ensures r.out == Raised(UsernameOrEmailTaken) <==> |MatchingKeys(db, input.username, input.email)| == 1
    ensures r.out == Raised(MultipleResultsFound) <==> |MatchingKeys(db, input.username, input.email)| > 1
    ensures r.out.Ok? <==> MatchingKeys(db, input.username, input.email) == {}
    ensures r.out.Ok? ==>
              var a := r.out.value;
              && a == NewVisitor(db.nextId, input.username, input.email, h.hash(input.password), input.name, input.phone, now)
              && r.db == Db(db.rows[db.nextId := a], db.nextId + 1)
    ensures Valid(db) && r.out.Ok? ==> r.out.value.id !in db.rows && Valid(r.db)
  {
    var keys := MatchingKeys(db, input.username, input.email);
    match ScalarOneOrNone(keys)
    case ManyRows => Step(Raised(MultipleResultsFound), db)
    case OneRow(_) => Step(Raised(UsernameOrEmailTaken), db)
    case NoRow =>
      assert forall k | k in db.rows :: k !in keys;
      var a := NewVisitor(db.nextId, input.username, input.email, h.hash(input.password), input.name, input.phone, now);
      Step(Ok(a), Db(db.rows[db.nextId := a], db.nextId + 1))
  }

  /** A duplicate username or email leaves the store unchanged, so uniqueness survives every registration. */
  lemma RegisterKeepsIdentitiesUnique(db: Db, input: RegisterInput, h: Hasher, now: int, k: int)
    requires Valid(db)
    requires k in db.rows && (db.rows[k].username == input.username || db.rows[k].email == input.email)
    ensures Register(db, input, h, now).out.Raised?
    ensures Register(db, input, h, now).db == db
    ensures Valid(Register(db, input, h, now).db)
  {
    assert k in MatchingKeys(db, input.username, input.email);
  }

  // ------------------------------------------------------------ authenticate

  /**
   * `authenticate_visitor`: looks the login string up as username or email.
   * No row, or a password that does not verify, is the same `Ok(None)` with
   * the store untouched; a verified non-ACTIVE account raises; otherwise the
   * login is recorded.
   */
  function Authenticate(db: Db, login: LoginInput, h: Hasher, now: int): (r: Step<Option<Account>>)
    ensures r.out != Ok(None) || r.db == db
    ensures r.out.Raised? ==> r.db == db
    ensures var keys := MatchingKeys(db, login.username, login.username);
            && (r.out == Raised(MultipleResultsFound) <==> |keys| > 1)
            && (r.out == Ok(None) <==>
                  keys == {} || (exists k :: keys == {k} && !h.verify(login.password, db.rows[k].hashedPassword)))
            && (r.out == Raised(AccountDisabled) <==>
                  exists k :: keys == {k} && h.verify(login.password, db.rows[k].hashedPassword) && db.rows[k].status != Active)
            && (r.out.Ok? && r.out.value.Some? ==>
                  exists k :: && keys == {k}
                              && db.rows[k].status == Active
                              && h.verify(login.password, db.rows[k].hashedPassword)
                              && r.out.value.value == RecordLogin(db.rows[k], now)
                              && r.db == db.(rows := db.rows[k := r.out.value.value]))
  {
    var keys := MatchingKeys(db, login.username, login.username);
    match ScalarOneOrNone(keys)
    case NoRow => Step(Ok(None), db)
    case ManyRows => Step(Raised(MultipleResultsFound), db)
    case OneRow(k) =>
      var a := db.rows[k];
      if !h.verify(login.password, a.hashedPassword) then Step(Ok(None), db)
      else if a.status != Active then Step(Raised(AccountDisabled), db)
      else
        var b := RecordLogin(a, now);
        Step(Ok(Some(b)), db.(rows := db.rows[k := b]))
  }

  /** Recording a login changes no identity, so the store stays valid. */
  lemma AuthenticateKeepsValid(db: Db, login: LoginInput, h: Hasher, now: int)
    requires Valid(db)
    ensures Valid(Authenticate(db, login, h, now).db)
  {
    var r := Authenticate(db, login, h, now);
    if r.db != db {
      var k :| MatchingKeys(db, login.username, login.username) == {k} && r.db == db.(rows := db.rows[k := r.out.value.value]);
      assert k in MatchingKeys(db, login.username, login.username);
    }
  }

  // ------------------------------------------------------------------- reads

  /** `get_visitor_by_id`: a pure read. */
  function GetById(db: Db, id: int): (r: Option<Account>)
    ensures r.Some? <==> id in db.rows
    ensures r.Some? ==> r.value == db.rows[id]
    ensures Valid(db) && r.Some? ==> r.value.id == id
  {
    if id in db.rows then Some(db.rows[id]) else None
  }

  // ------------------------------------------------------------------ update

  /** The column after a partial update: a given value replaces it, an omitted one keeps it. */
  function Overwrite(given: Option<string>, current: Option<string>): (r: Option<string>)
    ensures given.Some? ==> r == given
    ensures given.None? ==> r == current
  {
    if given.Some? then given else current
  }

  /**
   * `update_visitor`: `None` for an unknown id; otherwise only the supplied
   * profile fields are written and `updated_at` becomes `now`.
   */
  function Update(db: Db, id: int, input: UpdateInput, now: int): (r: Step<Option<Account>>)
    ensures r.out.Ok?
    ensures id !in db.rows <==> r.out.value.None?
    ensures id !in db.rows ==> r.db == db
    ensures id in db.rows ==>
              var a, b := db.rows[id], r.out.value.value;
              && (input.name.Some? ==> b.name == input.name)
              && (input.name.None? ==> b.name == a.name)
              && (input.phone.Some? ==> b.phone == input.phone)
              && (input.phone.None? ==> b.phone == a.phone)
              && (input.avatar.Some? ==> b.avatar == input.avatar)
              && (input.avatar.None? ==> b.avatar == a.avatar)
              && b.updatedAt == now
              && b.(name := a.name, phone := a.phone, avatar := a.avatar, updatedAt := a.updatedAt) == a
              && r.db == db.(rows := db.rows[id := b])
    ensures Valid(db) ==> Valid(r.db)
  {
    if id !in db.rows then Step(Ok(None), db)
    else
      var a := db.rows[id];
      var b := a.(name := Overwrite(input.name, a.name), phone := Overwrite(input.phone, a.phone),
                  avatar := Overwrite(input.avatar, a.avatar), updatedAt := now);
      Step(Ok(Some(b)), db.(rows := db.rows[id := b]))
  }

  // ------------------------------------------------------------------ listing

  /**
   * `if status:` — no filter for `None` or the empty string. Otherwise the
   * column must equal the bound string: the enum type binds a member's value
   * or its name as that member's stored name, so either spelling selects it.
   */
  predicate Selected(a: Account, status: Option<string>) {
    || status.None?
    || status.value == ""
    || a.status.Value() == status.value
    || a.status.Name() == status.value
  }

  function SelectedKeys(db: Db, status: Option<string>): (keys: set<int>)
    ensures keys <= db.rows.Keys
    ensures forall k :: k in keys <==> k in db.rows && Selected(db.rows[k], status)
  {
    set k | k in db.rows && Selected(db.rows[k], status)
  }

  /** Filtering by a member's value or by its name selects exactly the rows holding that member. */
  lemma FilterByMember(db: Db, st: UserStatus)
    ensures SelectedKeys(db, Some(st.Value())) == SelectedKeys(db, Some(st.Name()))
            == set k | k in db.rows && db.rows[k].status == st
  {
  }

  /**
   * The listing order: newer `created_at` first. SQL leaves rows with equal
   * `created_at` in no particular order; the model puts the larger id first.
   */
  predicate ListedBefore(rows: map<int, Account>, k1: int, k2: int)
    requires k1 in rows && k2 in rows
  {
    rows[k1].createdAt > rows[k2].createdAt || (rows[k1].createdAt == rows[k2].createdAt && k1 > k2)
  }

  predicate IsFirst(rows: map<int, Account>, m: int, keys: set<int>)
    requires keys <= rows.Keys
  {
    m in keys && forall k | k in keys && k != m :: ListedBefore(rows, m, k)
  }

  lemma {:induction false} FirstExists(rows: map<int, Account>, keys: set<int>)
    requires keys <= rows.Keys && keys != {}
    ensures exists m :: IsFirst(rows, m, keys)
    decreases |keys|
  {
    NonEmpty(keys);
    var x :| x in keys;
    var rest := keys - {x};
    if rest == {} {
      assert keys == {x};
      assert IsFirst(rows, x, keys);
    } else {
      FirstExists(rows, rest);
      var m :| IsFirst(rows, m, rest);
      if ListedBefore(rows, x, m) {
        forall k | k in keys && k != x
          ensures ListedBefore(rows, x, k)
        {
          if k != m {
            assert ListedBefore(rows, m, k);
          }
        }
        assert IsFirst(rows, x, keys);
      } else {
        assert IsFirst(rows, m, keys);
      }
    }
  }

  /** The keys in listing order. */
  function OrderedKeys(rows: map<int, Account>, keys: set<int>): (r: seq<int>)
    requires keys <= rows.Keys
    ensures |r| == |keys|
    ensures forall i :: 0 <= i < |r| ==> r[i] in keys
    ensures forall k :: k in keys ==> k in r
    ensures forall i, j :: 0 <= i < j < |r| ==> ListedBefore(rows, r[i], r[j])
    decreases |keys|
  {
    if keys == {} then []
    else
      FirstExists(rows, keys);
      var m :| IsFirst(rows, m, keys);
      [m] + OrderedKeys(rows, keys - {m})
  }

  /** Every selected row, in listing order. */
  function Listing(db: Db, status: Option<string>): (rows: seq<Account>)
    ensures |rows| == |SelectedKeys(db, status)|
    ensures forall i, j :: 0 <= i < j < |rows| ==> rows[i].createdAt >= rows[j].createdAt
  {
    var ordered := OrderedKeys(db.rows, SelectedKeys(db, status));
    var rows := seq(|ordered|, i requires 0 <= i < |ordered| => db.rows[ordered[i]]);
    forall i, j | 0 <= i < j < |rows|
      ensures rows[i].createdAt >= rows[j].createdAt
    {
      assert ListedBefore(db.rows, ordered[i], ordered[j]);
    }
    rows
  }

  /** The listing holds exactly the rows the filter selects. */
  lemma ListingContents(db: Db, status: Option<string>, a: Account)
    ensures a in Listing(db, status) <==> a in db.rows.Values && Selected(a, status)
  {
    var keys := SelectedKeys(db, status);
    var ordered := OrderedKeys(db.rows, keys);
    var rows := Listing(db, status);
    assert forall i :: 0 <= i < |rows| ==> rows[i] == db.rows[ordered[i]];
    if a in rows {
      var i :| 0 <= i < |rows| && rows[i] == a;
      assert ordered[i] in keys;
    }
    if a in db.rows.Values && Selected(a, status) {
      var k :| k in db.rows && db.rows[k] == a;
      assert k in keys;
      var i :| 0 <= i < |ordered| && ordered[i] == k;
      assert rows[i] == a;
    }
  }

  datatype Page = Page(items: seq<Account>, total: int, skip: int, limit: int)

  function Min(a: int, b: int): int {
    if a <= b then a else b
  }

  /**
   * `get_all_visitors`: `total` counts every selected row whatever `skip`
   * and `limit` are; the items are the listing from position `skip` on, at
   * most `limit` of them; `skip` and `limit` are echoed. A negative `skip`
   * or `limit` reaches the database as a negative OFFSET or LIMIT and raises.
   */
  function List(db: Db, skip: int, limit: int, status: Option<string>): (r: Outcome<Page>)
    ensures r.Ok? <==> skip >= 0 && limit >= 0
    ensures r.Ok? ==>
              var p, all := r.value, Listing(db, status);
              && p.total == |SelectedKeys(db, status)|
              && p.skip == skip && p.limit == limit
              && |p.items| <= limit
              && p.items == all[Min(skip, |all|)..Min(skip + limit, |all|)]
  {
    if skip < 0 || limit < 0 then Raised(InvalidPaging)
    else
      var all := Listing(db, status);
      Ok(Page(all[Min(skip, |all|)..Min(skip + limit, |all|)], |SelectedKeys(db, status)|, skip, limit))
  }

  /** The page `List` returns, as a window of the listing. */
  lemma PageIsWindow(db: Db, skip: int, limit: int, status: Option<string>) returns (lo: int, hi: int)
    requires skip >= 0 && limit >= 0
    ensures 0 <= lo <= hi <= |Listing(db, status)|
    ensures List(db, skip, limit, status).value.items == Listing(db, status)[lo..hi]
  {
    var all := Listing(db, status);
    lo, hi := Min(skip, |all|), Min(skip + limit, |all|);
  }

  lemma WindowNewestFirst(db: Db, status: Option<string>, lo: int, hi: int)
    requires 0 <= lo <= hi <= |Listing(db, status)|
    ensures var items := Listing(db, status)[lo..hi];
            forall i, j :: 0 <= i < j < |items| ==> items[i].createdAt >= items[j].createdAt
  {
  }

  /** Every account on a page is one the filter selects. */
  lemma PageSelected(db: Db, skip: int, limit: int, status: Option<string>, a: Account)
    requires skip >= 0 && limit >= 0
    requires a in List(db, skip, limit, status).value.items
    ensures a in db.rows.Values && Selected(a, status)
  {
    var lo, hi := PageIsWindow(db, skip, limit, status);
    var all := Listing(db, status);
    assert a in all[lo..hi];
    assert a in all;
    ListingContents(db, status, a);
  }

  /** A page lists its accounts newest first. */
  lemma PageNewestFirst(db: Db, skip: int, limit: int, status: Option<string>)
    requires skip >= 0 && limit >= 0
    ensures var items := List(db, skip, limit, status).value.items;
            forall i, j :: 0 <= i < j < |items| ==> items[i].createdAt >= items[j].createdAt
  {
    var lo, hi := PageIsWindow(db, skip, limit, status);
    WindowNewestFirst(db, status, lo, hi);
  }

  /**
   * Consecutive pages tile the listing: the page of `a` rows at `skip`
   * followed by the page of `b` rows at `skip + a` is the page of `a + b` rows at `skip`.
   */
  lemma PagesTile(db: Db, status: Option<string>, skip: nat, a: nat, b: nat)
    ensures List(db, skip, a, status).value.items + List(db, skip + a, b, status).value.items
            == List(db, skip, a + b, status).value.items
  {
    var all := Listing(db, status);
    var lo, mid, hi := Min(skip, |all|), Min(skip + a, |all|), Min(skip + a + b, |all|);
    assert all[lo..mid] + all[mid..hi] == all[lo..hi];
  }

  /** A page starting at 0 that is as large as the total lists every selected account. */
  lemma FullListing(db: Db, status: Option<string>, k: int)
    requires k in db.rows && Selected(db.rows[k], status)
    ensures db.rows[k] in List(db, 0, |SelectedKeys(db, status)|, status).value.items
  {
    var all := Listing(db, status);
    assert all[0..|all|] == all;
    ListingContents(db, status, db.rows[k]);
  }

  // --------------------------------------------- login ambiguity across columns

  /**
   * Registration checks the username against usernames and the email against
   * emails only, so one account's username may equal another's email. Login
   * looks the string up in both columns and then finds two rows.
   */
  lemma RegisterAdmitsAmbiguousLogin(h: Hasher, now: int)
    ensures var ann := RegisterInput("ann", "ann@x.io", "secret1", None, None);
            var bob := RegisterInput("ann@x.io", "bob@x.io", "secret2", None, None);
            var s1 := Register(Db(map[], 1), ann, h, now);
            var s2 := Register(s1.db, bob, h, now);
            && RegisterErrors(ann) == [] && RegisterErrors(bob) == []
            && s1.out.Ok? && s2.out.Ok? && Valid(s2.db)
            && Authenticate(s2.db, LoginInput("ann@x.io", "secret1"), h, now).out == Raised(MultipleResultsFound)
  {
    var ann := RegisterInput("ann", "ann@x.io", "secret1", None, None);
    var bob := RegisterInput("ann@x.io", "bob@x.io", "secret2", None, None);
    var s1 := Register(Db(map[], 1), ann, h, now);
    assert MatchingKeys(Db(map[], 1), ann.username, ann.email) == {};
    assert s1.db.rows.Keys == {1};
    assert MatchingKeys(s1.db, bob.username, bob.email) == {};
    var s2 := Register(s1.db, bob, h, now);
    var keys := MatchingKeys(s2.db, "ann@x.io", "ann@x.io");
    assert 1 in keys && 2 in keys;
    assert {1, 2} <= keys;
    assert |{1, 2}| == 2;
  }

  /** No row's username is another row's email: a login string then names at most one account. */
  predicate Unambiguous(db: Db) {
    && Valid(db)
    && forall k1, k2 | k1 in db.rows && k2 in db.rows && db.rows[k1].username == db.rows[k2].email :: k1 == k2
  }

  /** Some account already uses `x` as its username or as its email. */
  predicate IdentityTaken(db: Db, x: string) {
    exists k | k in db.rows :: db.rows[k].username == x || db.rows[k].email == x
  }

  /**
   * Registration as login needs it: refused when the new username or the new
   * email is already any account's username or email; otherwise it inserts
   * exactly as `Register` does.
   */
  function RegisterUnambiguous(db: Db, input: RegisterInput, h: Hasher, now: int): (r: Step<Account>)
    ensures r.out.Raised? ==> r.db == db && r.out.error == UsernameOrEmailTaken
    ensures r.out.Ok? <==> !IdentityTaken(db, input.username) && !IdentityTaken(db, input.email)
    ensures r.out.Ok? ==> r == Register(db, input, h, now)
  {
    if IdentityTaken(db, input.username) || IdentityTaken(db, input.email) then Step(Raised(UsernameOrEmailTaken), db)
    else
      var keys := MatchingKeys(db, input.username, input.email);
      assert forall k :: k !in keys;
      assert keys == {};
      Register(db, input, h, now)
  }

  /** The corrected registration keeps the store unambiguous. */
  lemma RegisterUnambiguousKeepsInvariant(db: Db, input: RegisterInput, h: Hasher, now: int)
    requires Unambiguous(db)
    ensures Unambiguous(RegisterUnambiguous(db, input, h, now).db)
  {
    var r := RegisterUnambiguous(db, input, h, now);
    if r.out.Ok? {
      forall k1, k2 | k1 in r.db.rows && k2 in r.db.rows && r.db.rows[k1].username == r.db.rows[k2].email
        ensures k1 == k2
      {
      }
    }
  }

  /** On an unambiguous store a login string matches at most one row, so login never raises `MultipleResultsFound`. */
  lemma UnambiguousLogin(db: Db, login: LoginInput, h: Hasher, now: int)
    requires Unambiguous(db)
    ensures Authenticate(db, login, h, now).out != Raised(MultipleResultsFound)
  {
    var keys := MatchingKeys(db, login.username, login.username);
    if keys != {} {
      NonEmpty(keys);
      var k :| k in keys;
      forall j | j in keys
        ensures j == k
      {
      }
      assert keys == {k};
    }
  }

  /**
   * A freshly registered account logs in with its password, by username or
   * by email, provided no other account uses that string in either column.
   */
  lemma RegisterThenAuthenticate(db: Db, input: RegisterInput, h: Hasher, now: int, login: string, later: int)
    requires Valid(db) && Sound(h)
    requires Register(db, input, h, now).out.Ok?
    requires login == input.username || login == input.email
    requires !IdentityTaken(db, login)
    ensures var s := Register(db, input, h, now);
            var b := RecordLogin(s.out.value, later);
            Authenticate(s.db, LoginInput(login, input.password), h, later) == Step(Ok(Some(b)), s.db.(rows := s.db.rows[b.id := b]))
  {
    var s := Register(db, input, h, now);
    var a := s.out.value;
    var keys := MatchingKeys(s.db, login, login);
    assert forall k :: k in keys <==> k == a.id;
    assert keys == {a.id};
    assert h.verify(input.password, h.hash(input.password));
  }

  // ------------------------------------------------------------------ tokens

  /** The claims `create_token` signs for a visitor id, before `exp` is added. */
  function TokenClaims(id: int): (c: Claims)
    ensures c.Keys == {"sub", "type"}
    ensures c["type"] == JStr("visitor")
    ensures c["sub"] == JStr(IntToDecimal(id))
    ensures WithinIntDigits(id) ==> ParsePyInt(c["sub"].s) == Some(id)
  {
    assert WithinIntDigits(id) ==> ParsePyInt(IntToDecimal(id)) == Some(id) by {
      if WithinIntDigits(id) {
        DecimalRoundTrip(id);
      }
    }
    map["sub" := JStr(IntToDecimal(id)), "type" := JStr("visitor")]
  }

  /** `create_token(visitor_id)`: the default lifetime, since no delta is passed. */
  function CreateToken(sg: Signer, st: Settings, id: int, now: int): string {
    CreateAccessToken(sg, st, TokenClaims(id), None, now)
  }
}
