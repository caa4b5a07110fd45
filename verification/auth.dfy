/**
 * Access tokens (`app/utils/auth.py`): a JSON Web Token whose claim set is the
 * caller's claims plus an `exp` claim (section 4.1.4 of RFC 7519), signed with
 * HMAC SHA-256 (section 3.2 of RFC 7518) under the server secret.
 *
 * The JWS signer is kept abstract: `sign` stands for `jwt.encode` and
 * `verify` for the signature and format check inside `jwt.decode`; the only
 * thing assumed of the pair is that verifying with the same key and an
 * accepted algorithm gives back the signed claims. Instants are whole seconds
 * since the epoch.
 */
module Auth {
  import opened Common
  import opened Text
  import opened Config

  type Claims = map<string, Json>

  datatype Signer = Signer(
    sign: (Claims, string, string) -> string,
    verify: (string, string, seq<string>) -> Option<Claims>)

  /** Verifying a token with the key and an algorithm it was signed with recovers its claims. */
  ghost predicate RoundTrips(sg: Signer) {
    forall c, key, alg, algs :: alg in algs ==> sg.verify(sg.sign(c, key, alg), key, algs) == Some(c)
  }

  /**
   * The expiry instant `create_access_token` chooses: `now + expires_delta`
   * when a delta is given and is not zero (a zero `timedelta` is falsy),
   * otherwise `now` plus the configured lifetime in minutes.
   */
  function Expiry(st: Settings, delta: Option<int>, now: int): (exp: int)
    ensures delta.Some? && delta.value != 0 ==> exp == now + delta.value
    ensures delta.None? || delta.value == 0 ==> exp == now + st.accessTokenExpireMinutes * 60
  {
    match delta
    case Some(d) => if d != 0 then now + d else now + st.accessTokenExpireMinutes * 60
    case None => now + st.accessTokenExpireMinutes * 60
  }

  /** `to_encode = data.copy(); to_encode.update({"exp": expire})`. */
  function WithExpiry(data: Claims, exp: int): (c: Claims)
    ensures c.Keys == data.Keys + {"exp"}
    ensures c["exp"] == JInt(exp)
    ensures forall k :: k in data && k != "exp" ==> c[k] == data[k]
  {
    data["exp" := JInt(exp)]
  }

  /** `create_access_token(data, expires_delta)`. */
  function CreateAccessToken(sg: Signer, st: Settings, data: Claims, delta: Option<int>, now: int): string {
    sg.sign(WithExpiry(data, Expiry(st, delta, now)), st.secretKey, st.algorithm)
  }

  /** What `decode_access_token` comes to: the claims, `None`, or an exception it does not catch. */
  datatype Decoded =
    | Payload(claims: Claims)
    | Refused               // `jwt.decode` raised a `JWTError`, caught and turned into `None`
    | Raises                // `jwt.decode` raised a `TypeError`, which escapes

  /**
   * The `exp` check `jwt.decode` makes: a token without `exp` never expires;
   * otherwise `int(exp)` must succeed and not lie before the current instant.
   */
  predicate ExpiryAccepts(c: Claims, now: int) {
    "exp" !in c || (PyIntOf(c["exp"]).Converted? && now <= PyIntOf(c["exp"]).value)
  }

  /** The `sub` check `jwt.decode` makes: when present, the subject must be a string. */
  predicate SubjectAccepts(c: Claims) {
    "sub" !in c || c["sub"].JStr?
  }

  /**
   * The claim checks of `jwt.decode` that bear on this server's tokens, in
   * the library's order: `exp` (whose `int()` may raise `TypeError`, which is
   * not a `JWTError`), then `sub`.
   */
  function CheckClaims(c: Claims, now: int): (r: Decoded)
    ensures r.Payload? ==> r.claims == c
  {
    if "exp" in c && PyIntOf(c["exp"]).TypeError? then Raises
    else if !ExpiryAccepts(c, now) || !SubjectAccepts(c) then Refused
    else Payload(c)
  }

  /**
   * `decode_access_token(token)`: the claims when the signature verifies and
   * the claim checks pass; `None` for every `JWTError` (bad signature,
   * malformed token, an `exp` that is past or not an integer literal, a
   * `sub` that is not a string); and the `TypeError` of an `exp` that is
   * `null`, an array or an object propagates out of it.
   */
  function DecodeAccessToken(sg: Signer, st: Settings, token: string, now: int): (r: Decoded)
    ensures r.Payload? <==> match sg.verify(token, st.secretKey, [st.algorithm])
                            case None => false
                            case Some(c) => ExpiryAccepts(c, now) && SubjectAccepts(c)
    ensures r.Payload? ==> sg.verify(token, st.secretKey, [st.algorithm]) == Some(r.claims)
    ensures r.Raises? <==> match sg.verify(token, st.secretKey, [st.algorithm])
                           case None => false
                           case Some(c) => "exp" in c && (c["exp"].JNull? || c["exp"].JArr? || c["exp"].JObj?)
  {
    match sg.verify(token, st.secretKey, [st.algorithm])
    case None => Refused
    case Some(c) => CheckClaims(c, now)
  }

  /**
   * Concrete payloads on which the library's `exp` and `sub` handling
   * differs from a plain integer comparison: a numeric string `exp` is
   * accepted, a `null` one raises, and an integer `sub` is refused.
   */
  lemma ClaimTypeCases(now: int)
    requires now <= 9999999999
    ensures CheckClaims(map["exp" := JStr("9999999999"), "type" := JStr("visitor")], now).Payload?
    ensures CheckClaims(map["exp" := JNull, "sub" := JStr("5")], now) == Raises
    ensures CheckClaims(map["type" := JStr("visitor"), "sub" := JInt(5)], now) == Refused
  {
    var e := "9999999999";
    assert ParsePyInt(e) == Some(9999999999) by {
      assert e == IntToDecimal(9999999999) by {
        assert NatToDecimal(9999999999) == e;
      }
      DecimalRoundTrip(9999999999);
    }
  }

  /**
   * A token issued at `now` decodes, at any instant up to its expiry, to
   * exactly the caller's claims plus `exp`, unless the caller put a `sub`
   * that is not a string into them: issuing and decoding use the same secret
   * and the one configured algorithm.
   */
  lemma DecodeIssued(sg: Signer, st: Settings, data: Claims, delta: Option<int>, now: int, later: int)
    requires RoundTrips(sg)
    requires later <= Expiry(st, delta, now)
    ensures DecodeAccessToken(sg, st, CreateAccessToken(sg, st, data, delta, now), later)
            == if SubjectAccepts(data) then Payload(WithExpiry(data, Expiry(st, delta, now))) else Refused
  {
    var c := WithExpiry(data, Expiry(st, delta, now));
    assert st.algorithm in [st.algorithm];
    assert sg.verify(sg.sign(c, st.secretKey, st.algorithm), st.secretKey, [st.algorithm]) == Some(c);
  }

  /** After its expiry instant the same token decodes to `None`. */
  lemma DecodeExpired(sg: Signer, st: Settings, data: Claims, delta: Option<int>, now: int, later: int)
    requires RoundTrips(sg)
    requires later > Expiry(st, delta, now)
    ensures DecodeAccessToken(sg, st, CreateAccessToken(sg, st, data, delta, now), later) == Refused
  {
    var c := WithExpiry(data, Expiry(st, delta, now));
    assert st.algorithm in [st.algorithm];
    assert sg.verify(sg.sign(c, st.secretKey, st.algorithm), st.secretKey, [st.algorithm]) == Some(c);
  }
}
