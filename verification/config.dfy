/**
 * The backend's settings (`app/config.py`) and the values derived from them:
 * the comma-separated lists, the database URL and the start-up validation.
 * Loading from the environment and the random default secret are outside the
 * model; a `Settings` value is what loading produced.
 */
module Config {
  import opened Common
  import opened Text

  const ALGORITHM := "HS256"
  /** Seven days: 7 * 24 * 60 minutes. */
  const ACCESS_TOKEN_EXPIRE_MINUTES := 10080
  const REFRESH_TOKEN_EXPIRE_DAYS := 30
  /** The placeholder secret that `validate_settings` refuses in production. */
  const PLACEHOLDER_SECRET := "your-secret-key-change-this-in-production"
  const DEFAULT_CORS_ORIGINS := "http://localhost:5199,http://127.0.0.1:5199,http://localhost:5173,http://127.0.0.1:5173"
  const DEFAULT_UPLOAD_EXTENSIONS := ".jpg,.jpeg,.png,.gif,.pdf"
  const URL_SCHEME := "mysql+aiomysql://"

  datatype Settings = Settings(
    environment: string,
    debug: bool,
    reload: bool,
    dbHost: string,
    dbPort: int,
    dbUser: string,
    dbPassword: string,
    dbName: string,
    dbCharset: string,
    secretKey: string,
    algorithm: string,
    accessTokenExpireMinutes: int,
    corsOrigins: string,
    uploadExtensions: string)

  /** The class defaults; `secret` stands for the value `secrets.token_urlsafe(32)` drew. */
  function Defaults(secret: string): Settings {
    Settings(
      environment := "development",
      debug := true,
      reload := true,
      dbHost := "localhost",
      dbPort := 3306,
      dbUser := "root",
      dbPassword := "",
      dbName := "ai_library",
      dbCharset := "utf8mb4",
      secretKey := secret,
      algorithm := ALGORITHM,
      accessTokenExpireMinutes := ACCESS_TOKEN_EXPIRE_MINUTES,
      corsOrigins := DEFAULT_CORS_ORIGINS,
      uploadExtensions := DEFAULT_UPLOAD_EXTENSIONS)
  }

  // ------------------------------------------------------ comma-separated lists

  /** `r` is `piece` with surrounding (Python) whitespace removed. */
  ghost predicate StrippedPiece(piece: string, r: string) {
    exists i :: StrippedAt(piece, r, IsPyWhitespace, i)
  }

  lemma InfixLacksSeparator(piece: string, r: string, i: int, c: char)
    requires 0 <= i && i + |r| <= |piece| && r == piece[i..i + |r|]
    requires !Contains(piece, [c])
    ensures c !in r
  {
    if c in r {
      var m :| 0 <= m < |r| && r[m] == c;
      assert piece[i + m..i + m + 1] == [c];
      assert OccursAt(piece, [c], i + m);
    }
  }

  /** Each piece stripped, in order. */
  function StripAll(pieces: seq<string>): (r: seq<string>)
    ensures |r| == |pieces|
    ensures forall i :: 0 <= i < |r| ==> r[i] == Strip(pieces[i], IsPyWhitespace)
  {
    seq(|pieces|, i requires 0 <= i < |pieces| => Strip(pieces[i], IsPyWhitespace))
  }

  /**
   * `[x.strip() for x in s.split(",")]`: one entry per comma-separated piece,
   * in order, each stripped; no entry contains a comma.
   */
  function CommaList(s: string): (r: seq<string>)
    ensures |r| == CountOf(s, ',') + 1
    ensures forall i :: 0 <= i < |r| ==> ',' !in r[i]
    ensures exists pieces :: |pieces| == |r| && Join(pieces, ",") == s
              && forall i :: 0 <= i < |r| ==> StrippedPiece(pieces[i], r[i])
  {
    CommaListFacts(s);
    StripAll(Split(s, ","))
  }

  lemma CommaListFacts(s: string)
    ensures var pieces := Split(s, ",");
            var r := StripAll(pieces);
            && |r| == CountOf(s, ',') + 1
            && (forall i :: 0 <= i < |r| ==> ',' !in r[i] && StrippedPiece(pieces[i], r[i]))
            && Join(pieces, ",") == s
  {
    var pieces := Split(s, ",");
    var r := StripAll(pieces);
    SplitCount(s, ',');
    SplitJoin(s, ",");
    SplitPiecesClean(s, ",");
    forall i | 0 <= i < |r|
      ensures ',' !in r[i] && StrippedPiece(pieces[i], r[i])
    {
      StripSpec(pieces[i], IsPyWhitespace);
      var j :| StrippedAt(pieces[i], r[i], IsPyWhitespace, j);
      InfixLacksSeparator(pieces[i], r[i], j, ',');
    }
  }

  /** `ALLOWED_ORIGINS`: the CORS origins list. */
  function AllowedOrigins(st: Settings): seq<string> {
    CommaList(st.corsOrigins)
  }

  /** `ALLOWED_UPLOAD_EXTENSIONS`: split and stripped the same way. */
  function AllowedUploadExtensions(st: Settings): seq<string> {
    CommaList(st.uploadExtensions)
  }

  // ---------------------------------------------------------- database URL

  /** `DATABASE_URL`: the SQLAlchemy URL for the async MySQL driver. */
  function DatabaseUrl(st: Settings): (url: string)
    ensures StartsWith(url, URL_SCHEME)
  {
    URL_SCHEME + st.dbUser + ":" + st.dbPassword + "@" + st.dbHost + ":" + IntToDecimal(st.dbPort)
      + "/" + st.dbName + "?charset=" + st.dbCharset
  }

  datatype DbTarget = DbTarget(user: string, password: string, host: string, port: int, name: string, charset: string)

  /** The text before the first `c` and the text after it. */
  function Cut(s: string, c: char): (r: Option<(string, string)>)
    ensures r.None? <==> c !in s
    ensures r.Some? ==> c !in r.value.0 && s == r.value.0 + [c] + r.value.1
  {
    if s == [] then None
    else if s[0] == c then Some(([], s[1..]))
    else match Cut(s[1..], c)
      case None => None
      case Some(p) => Some(([s[0]] + p.0, p.1))
  }

  lemma {:induction false} CutAt(a: string, c: char, b: string)
    requires c !in a
    ensures Cut(a + [c] + b, c) == Some((a, b))
  {
    var s := a + [c] + b;
    if a == [] {
      assert s[1..] == b;
    } else {
      assert s[1..] == a[1..] + [c] + b;
      CutAt(a[1..], c, b);
      assert [a[0]] + a[1..] == a;
    }
  }

  /**
   * The model's own reading of the URL format, used to state what the URL
   * carries: the user runs to the first ':', the password to the next '@',
   * the host to the next ':', the port to the next '/', the database name to
   * the '?', and the query must be `charset=...`. No percent-decoding is done.
   */
  function ParseDatabaseUrl(url: string): Option<DbTarget> {
    if !StartsWith(url, URL_SCHEME) then None else ParseCredentials(url[|URL_SCHEME|..])
  }

  /** `user:password@` and the rest. */
  function ParseCredentials(s: string): Option<DbTarget> {
    match Cut(s, ':')
    case None => None
    case Some(p) =>
      match Cut(p.1, '@')
      case None => None
      case Some(q) => ParseLocation(p.0, q.0, q.1)
  }

  /** `host:port/` and the rest. */
  function ParseLocation(user: string, password: string, s: string): Option<DbTarget> {
    match Cut(s, ':')
    case None => None
    case Some(p) =>
      match Cut(p.1, '/')
      case None => None
      case Some(q) => ParseDatabase(user, password, p.0, q.0, q.1)
  }

  /** `name?charset=...`, with the port text read as a Python integer. */
  function ParseDatabase(user: string, password: string, host: string, port: string, s: string): Option<DbTarget> {
    match Cut(s, '?')
    case None => None
    case Some(p) =>
      if StartsWith(p.1, "charset=") then
        match ParsePyInt(port)
        case None => None
        case Some(n) => Some(DbTarget(user, password, host, n, p.0, p.1[8..]))
      else None
  }

  /** The URL text after the scheme, nested the way the parser takes it apart. */
  function UrlBody(user: string, password: string, host: string, port: string, name: string, charset: string): string {
    user + ":" + (password + "@" + (host + ":" + (port + "/" + (name + "?" + ("charset=" + charset)))))
  }

  lemma UrlBodyFlat(st: Settings)
    ensures DatabaseUrl(st) == URL_SCHEME + UrlBody(st.dbUser, st.dbPassword, st.dbHost, IntToDecimal(st.dbPort), st.dbName, st.dbCharset)
  {
  }

  /**
   * The URL carries every database setting back out unchanged, provided no
   * field contains a character that ends it under the usual URL reading
   * (':' or '/' in the user, '@' in the password, ':', '/' or '?' in the host,
   * '?' in the name) and neither user nor password contains a '%', which a
   * URL reader would take as a percent escape.
   */
  lemma DatabaseUrlRoundTrip(st: Settings)
    requires ':' !in st.dbUser && '@' !in st.dbPassword && ':' !in st.dbHost && '?' !in st.dbName
    requires '/' !in st.dbUser && '/' !in st.dbHost && '?' !in st.dbHost
    requires '%' !in st.dbUser && '%' !in st.dbPassword
    requires WithinIntDigits(st.dbPort)
    ensures ParseDatabaseUrl(DatabaseUrl(st)) ==
            Some(DbTarget(st.dbUser, st.dbPassword, st.dbHost, st.dbPort, st.dbName, st.dbCharset))
  {
    var port := IntToDecimal(st.dbPort);
    var body := UrlBody(st.dbUser, st.dbPassword, st.dbHost, port, st.dbName, st.dbCharset);
    assert '/' !in port;
    DecimalRoundTrip(st.dbPort);
    UrlBodyFlat(st);
    DropPrefix(URL_SCHEME, body);
    ParseBody(st.dbUser, st.dbPassword, st.dbHost, port, st.dbPort, st.dbName, st.dbCharset);
  }

  lemma DropPrefix(a: string, b: string)
    ensures StartsWith(a + b, a) && (a + b)[|a|..] == b
  {
    assert (a + b)[..|a|] == a;
  }

  lemma ParseBody(user: string, password: string, host: string, port: string, portValue: int, name: string, charset: string)
    requires ':' !in user && '@' !in password && ':' !in host && '/' !in port && '?' !in name
    requires ParsePyInt(port) == Some(portValue)
    ensures ParseCredentials(UrlBody(user, password, host, port, name, charset))
            == Some(DbTarget(user, password, host, portValue, name, charset))
  {
    var q := "charset=" + charset;
    var r4 := port + "/" + (name + "?" + q);
    var r2 := password + "@" + (host + ":" + r4);
    CutAt(user, ':', r2);
    CutAt(password, '@', host + ":" + r4);
    ParseLocationBody(user, password, host, port, portValue, name, charset);
  }

  lemma ParseLocationBody(user: string, password: string, host: string, port: string, portValue: int, name: string, charset: string)
    requires ':' !in host && '/' !in port && '?' !in name
    requires ParsePyInt(port) == Some(portValue)
    ensures ParseLocation(user, password, host + ":" + (port + "/" + (name + "?" + ("charset=" + charset))))
            == Some(DbTarget(user, password, host, portValue, name, charset))
  {
    var q := "charset=" + charset;
    CutAt(host, ':', port + "/" + (name + "?" + q));
    CutAt(port, '/', name + "?" + q);
    CutAt(name, '?', q);
    DropPrefix("charset=", charset);
  }

  // --------------------------------------------------------- validate_settings

  datatype SettingsProblem =
    | DebugInProduction
    | PlaceholderSecretInProduction
    | ReloadInProduction
    | MissingDbHost
    | MissingDbName

  /** The problems `validate_settings` collects, in the order it collects them. */
  function SettingsProblems(st: Settings): (errors: seq<SettingsProblem>)
    ensures DebugInProduction in errors <==> st.environment == "production" && st.debug
    ensures PlaceholderSecretInProduction in errors <==> st.environment == "production" && st.secretKey == PLACEHOLDER_SECRET
    ensures ReloadInProduction in errors <==> st.environment == "production" && st.reload
    ensures MissingDbHost in errors <==> st.dbHost == ""
    ensures MissingDbName in errors <==> st.dbName == ""
  {
    var production :=
      if st.environment == "production" then
        (if st.debug then [DebugInProduction] else [])
        + (if st.secretKey == PLACEHOLDER_SECRET then [PlaceholderSecretInProduction] else [])
        + (if st.reload then [ReloadInProduction] else [])
      else [];
    production
      + (if st.dbHost == "" then [MissingDbHost] else [])
      + (if st.dbName == "" then [MissingDbName] else [])
  }

  /**
   * `validate_settings()`: true exactly when no problem was collected. In
   * production DEBUG, RELOAD or the placeholder secret each make it false;
   * anywhere, an empty DB_HOST or DB_NAME does.
   */
  function ValidateSettings(st: Settings): (ok: bool)
    ensures ok <==> SettingsProblems(st) == []
    ensures ok <==> && (st.environment == "production" ==> !st.debug && !st.reload && st.secretKey != PLACEHOLDER_SECRET)
                    && st.dbHost != ""
                    && st.dbName != ""
  {
    var errors := SettingsProblems(st);
    assert errors != [] ==> errors[0] in errors;
    |errors| == 0
  }

  /** The shipped defaults pass validation; switched to production they do not, since DEBUG is on. */
  lemma DefaultsValidation(secret: string)
    ensures ValidateSettings(Defaults(secret))
    ensures !ValidateSettings(Defaults(secret).(environment := "production"))
  {
  }
}
