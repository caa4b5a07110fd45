/**
 * The `visitors` table (`app/models/visitor.py`): the account status enum,
 * the account record with its column defaults, the `onupdate` refresh of
 * `updated_at`, and the `to_dict` projection every response is built from.
 */
module VisitorModel {
  import opened Common

  /** `UserStatus`: a closed set of three values. */
  datatype UserStatus = Active | Inactive | Banned {
    /** The enum's string value. */
    function Value(): string {
      match this
      case Active => "active"
      case Inactive => "inactive"
      case Banned => "banned"
    }

    /** The member's name, which is what the SQL enum column stores. */
    function Name(): string {
      match this
      case Active => "ACTIVE"
      case Inactive => "INACTIVE"
      case Banned => "BANNED"
    }
  }

  /** `UserStatus(s)`: the member whose value is `s`, if any. */
  function ParseStatus(s: string): (r: Option<UserStatus>)
    ensures r.Some? ==> r.value.Value() == s
    ensures r.None? <==> s !in {"active", "inactive", "banned"}
  {
    if s == "active" then Some(Active)
    else if s == "inactive" then Some(Inactive)
    else if s == "banned" then Some(Banned)
    else None
  }

  /** Every status is recovered from its value, and no two statuses share a value. */
  lemma StatusValueRoundTrip(st: UserStatus, other: UserStatus)
    ensures ParseStatus(st.Value()) == Some(st)
    ensures st.Value() == other.Value() ==> st == other
  {
  }

  /**
   * One row. `name`, `phone`, `avatar` and `lastLoginAt` are nullable; the
   * other columns are `NOT NULL`. Instants are whole seconds.
   */
  datatype Account = Account(
    id: int,
    username: string,
    email: string,
    hashedPassword: string,
    name: Option<string>,
    phone: Option<string>,
    avatar: Option<string>,
    lastLoginAt: Option<int>,
    loginCount: int,
    status: UserStatus,
    createdAt: int,
    updatedAt: int)

  /**
   * `Visitor(...)` as inserted at `now`: the columns given, and the defaults
   * for the rest (no avatar, never logged in, zero logins, ACTIVE, both
   * timestamps `now`).
   */
  function NewVisitor(id: int, username: string, email: string, hashedPassword: string,
                      name: Option<string>, phone: Option<string>, now: int): (a: Account)
    ensures a.id == id && a.username == username && a.email == email && a.hashedPassword == hashedPassword
    ensures a.name == name && a.phone == phone && a.avatar == None
    ensures a.loginCount == 0 && a.lastLoginAt == None && a.status == Active
    ensures a.createdAt == now && a.updatedAt == now
  {
    Account(id, username, email, hashedPassword, name, phone, None, None, 0, Active, now, now)
  }

  /** A login at `now`: one more login, `last_login_at` set, and the `onupdate` hook refreshes `updated_at`. */
  function RecordLogin(a: Account, now: int): (b: Account)
    ensures b.loginCount == a.loginCount + 1
    ensures b.lastLoginAt == Some(now) && b.updatedAt == now
    ensures b.(loginCount := a.loginCount, lastLoginAt := a.lastLoginAt, updatedAt := a.updatedAt) == a
  {
    a.(lastLoginAt := Some(now), loginCount := a.loginCount + 1, updatedAt := now)
  }

  const DictKeys: set<string> :=
    {"id", "username", "email", "profile", "status", "login_count", "last_login_at", "created_at", "updated_at"}

  const ProfileKeys: set<string> := {"name", "phone", "avatar"}

  /** A timestamp as `isoformat()`, or `null` when unset. */
  function IsoOrNull(t: Option<int>, iso: int -> string): (j: Json)
    ensures t.None? <==> j == JNull
  {
    match t
    case None => JNull
    case Some(v) => JStr(iso(v))
  }

  /**
   * `to_dict()`: the public projection of a row. `iso` renders an instant as
   * `datetime.isoformat()` does.
   */
  function ToDict(a: Account, iso: int -> string): (d: map<string, Json>)
    ensures d.Keys == DictKeys
    ensures "hashed_password" !in d
    ensures d["id"] == JInt(a.id) && d["username"] == JStr(a.username) && d["email"] == JStr(a.email)
    ensures d["status"] == JStr(a.status.Value()) && d["login_count"] == JInt(a.loginCount)
    ensures d["profile"].JObj? && d["profile"].fields.Keys == ProfileKeys
    ensures d["profile"].fields["name"] == OptStr(a.name)
    ensures d["profile"].fields["phone"] == OptStr(a.phone)
    ensures d["profile"].fields["avatar"] == OptStr(a.avatar)
    ensures a.lastLoginAt.None? <==> d["last_login_at"] == JNull
    ensures a.lastLoginAt.Some? ==> d["last_login_at"] == JStr(iso(a.lastLoginAt.value))
    ensures d["created_at"] == JStr(iso(a.createdAt)) && d["updated_at"] == JStr(iso(a.updatedAt))
  {
    map[
      "id" := JInt(a.id),
      "username" := JStr(a.username),
      "email" := JStr(a.email),
      "profile" := JObj(map["name" := OptStr(a.name), "phone" := OptStr(a.phone), "avatar" := OptStr(a.avatar)]),
      "status" := JStr(a.status.Value()),
      "login_count" := JInt(a.loginCount),
      "last_login_at" := IsoOrNull(a.lastLoginAt, iso),
      "created_at" := JStr(iso(a.createdAt)),
      "updated_at" := JStr(iso(a.updatedAt))]
  }

  ghost predicate Injective(iso: int -> string) {
    forall x, y :: iso(x) == iso(y) ==> x == y
  }

  lemma OptStrInjective(x: Option<string>, y: Option<string>)
    requires OptStr(x) == OptStr(y)
    ensures x == y
  {
  }

  /**
   * The projection hides the password hash and nothing else: two rows have
   * the same `to_dict` exactly when they differ at most in `hashed_password`
   * (for a timestamp rendering that tells instants apart).
   */
  lemma ToDictHidesExactlyThePassword(a: Account, b: Account, iso: int -> string)
    requires Injective(iso)
    ensures ToDict(a, iso) == ToDict(b, iso) <==> a.(hashedPassword := b.hashedPassword) == b
  {
    var da, db := ToDict(a, iso), ToDict(b, iso);
    if da == db {
      assert da["profile"].fields["name"] == db["profile"].fields["name"];
      OptStrInjective(a.name, b.name);
      assert da["profile"].fields["phone"] == db["profile"].fields["phone"];
      OptStrInjective(a.phone, b.phone);
      assert da["profile"].fields["avatar"] == db["profile"].fields["avatar"];
      OptStrInjective(a.avatar, b.avatar);
      assert a.status.Value() == b.status.Value();
      assert da["last_login_at"] == db["last_login_at"];
      assert a.lastLoginAt == b.lastLoginAt;
      assert iso(a.createdAt) == iso(b.createdAt);
      assert iso(a.updatedAt) == iso(b.updatedAt);
    }
  }
}
