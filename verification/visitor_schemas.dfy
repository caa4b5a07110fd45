/**
 * Request and response shapes of the visitor API (`app/schemas/visitor.py`)
 * and the field constraints the request models enforce before a handler runs.
 * Lengths count Unicode code points, as Python's `len` does. The email format
 * check (`EmailStr`) is not part of this model.
 */
module VisitorSchemas {
  import opened Common
  import opened Text

  const USERNAME_MIN_LENGTH := 3
  const USERNAME_MAX_LENGTH := 20
  const PASSWORD_MIN_LENGTH := 6
  const PHONE_LENGTH := 11

  datatype RegisterInput = RegisterInput(
    username: string,
    email: string,
    password: string,
    name: Option<string>,
    phone: Option<string>)

  /** The login form: `username` may hold a username or an email; neither field is constrained. */
  datatype LoginInput = LoginInput(username: string, password: string)

  /** The profile update: each field independently omittable, and omitted means `None`. */
  datatype UpdateInput = UpdateInput(name: Option<string>, phone: Option<string>, avatar: Option<string>)

  datatype TokenResponse = TokenResponse(accessToken: string, tokenType: string)

  /** The phone pattern `^1[3-9]\d{9}$`, over ASCII digits. */
  predicate IsMobilePhone(s: string) {
    && |s| == PHONE_LENGTH
    && s[0] == '1'
    && '3' <= s[1] <= '9'
    && forall i :: 2 <= i < |s| ==> IsDigit(s[i])
  }

  predicate PhoneAccepted(phone: Option<string>) {
    phone.None? || IsMobilePhone(phone.value)
  }

  datatype FieldError = UsernameLength | PasswordLength | PhonePattern

  /** The field errors `VisitorRegister` reports for an input, in field order. */
  function RegisterErrors(r: RegisterInput): (errors: seq<FieldError>)
    ensures UsernameLength in errors <==> !(USERNAME_MIN_LENGTH <= |r.username| <= USERNAME_MAX_LENGTH)
    ensures PasswordLength in errors <==> |r.password| < PASSWORD_MIN_LENGTH
    ensures PhonePattern in errors <==> !PhoneAccepted(r.phone)
    ensures |errors| <= 3
  {
    (if USERNAME_MIN_LENGTH <= |r.username| <= USERNAME_MAX_LENGTH then [] else [UsernameLength])
    + (if |r.password| >= PASSWORD_MIN_LENGTH then [] else [PasswordLength])
    + (if PhoneAccepted(r.phone) then [] else [PhonePattern])
  }

  /** The field errors `VisitorUpdate` reports: only the phone pattern is checked. */
  function UpdateErrors(u: UpdateInput): (errors: seq<FieldError>)
    ensures errors == [] <==> PhoneAccepted(u.phone)
    ensures forall e :: e in errors ==> e == PhonePattern
  {
    if PhoneAccepted(u.phone) then [] else [PhonePattern]
  }

  /** `TokenResponse(access_token=...)`: the token type defaults to "bearer". */
  function BearerToken(token: string): (t: TokenResponse)
    ensures t.accessToken == token && t.tokenType == "bearer"
  {
    TokenResponse(token, "bearer")
  }

  /**
   * The accepted registrations are exactly those whose username has 3 to 20
   * characters, whose password has at least 6 (with no upper bound), and
   * whose phone is absent or an 11-character mobile number.
   */
  lemma RegisterAccepted(r: RegisterInput)
    ensures RegisterErrors(r) == [] <==>
            && 3 <= |r.username| <= 20
            && |r.password| >= 6
            && (r.phone.None? || (|r.phone.value| == 11 && r.phone.value[0] == '1' && '3' <= r.phone.value[1] <= '9'
                                  && forall i :: 2 <= i < 11 ==> '0' <= r.phone.value[i] <= '9'))
  {
    var errors := RegisterErrors(r);
    if errors != [] {
      assert errors[0] in errors;
    }
  }
}
