/**
 * String primitives the backend (Python) and the web client (TypeScript)
 * rely on: whitespace stripping, prefix tests, splitting on a separator and
 * joining back, and the decimal rendering and parsing of integers
 * (`str(n)` and `int(s)` in Python).
 */
module Text {
  import opened Common

  predicate IsDigit(c: char) {
    '0' <= c <= '9'
  }

  /** The characters Python's `str.isspace` accepts; `str.strip()` removes them. */
  predicate IsPyWhitespace(c: char) {
    || ('\t' <= c <= '\r')
    || ('\U{1C}' <= c <= ' ')
    || c == '\U{85}' || c == '\U{A0}' || c == '\U{1680}'
    || ('\U{2000}' <= c <= '\U{200A}')
    || c == '\U{2028}' || c == '\U{2029}' || c == '\U{202F}' || c == '\U{205F}' || c == '\U{3000}'
  }

  /** The characters JavaScript's `String.prototype.trim` removes (white space and line terminators). */
  predicate IsJsWhitespace(c: char) {
    || ('\t' <= c <= '\r')
    || c == ' ' || c == '\U{A0}' || c == '\U{1680}'
    || ('\U{2000}' <= c <= '\U{200A}')
    || c == '\U{2028}' || c == '\U{2029}' || c == '\U{202F}' || c == '\U{205F}' || c == '\U{3000}'
    || c == '\U{FEFF}'
  }

  predicate StartsWith(s: string, prefix: string) {
    |prefix| <= |s| && s[..|prefix|] == prefix
  }

  // ---------------------------------------------------------------- stripping

  /** The first position at or after `i` that does not hold whitespace (or `|s|`). */
  function LeadEnd(s: string, ws: char -> bool, i: nat): (j: nat)
    requires i <= |s|
    ensures i <= j <= |s|
    ensures forall k :: i <= k < j ==> ws(s[k])
    ensures j == |s| || !ws(s[j])
    decreases |s| - i
  {
    if i < |s| && ws(s[i]) then LeadEnd(s, ws, i + 1) else i
  }

  /** The end of the last non-whitespace character in `s[lo..j]` (or `lo`). */
  function TrailStart(s: string, ws: char -> bool, lo: nat, j: nat): (e: nat)
    requires lo <= j <= |s|
    ensures lo <= e <= j
    ensures forall k :: e <= k < j ==> ws(s[k])
    ensures e == lo || !ws(s[e - 1])
    decreases j - lo
  {
    if j > lo && ws(s[j - 1]) then TrailStart(s, ws, lo, j - 1) else j
  }

  /**
   * `r` is `s` with a whitespace run of length `i` removed in front and a
   * whitespace run removed behind, and `r` neither starts nor ends with whitespace.
   */
  ghost predicate StrippedAt(s: string, r: string, ws: char -> bool, i: int) {
    && 0 <= i && i + |r| <= |s|
    && r == s[i..i + |r|]
    && (forall k :: 0 <= k < i ==> ws(s[k]))
    && (forall k :: i + |r| <= k < |s| ==> ws(s[k]))
    && (r == [] || (!ws(r[0]) && !ws(r[|r| - 1])))
  }

  /** Python `s.strip()` / JavaScript `s.trim()`, for the whitespace class `ws`. */
  function Strip(s: string, ws: char -> bool): string {
    var a := LeadEnd(s, ws, 0);
    s[a..TrailStart(s, ws, a, |s|)]
  }

  /** Stripping removes a whitespace run in front and one behind, and leaves neither end on whitespace. */
  lemma StripSpec(s: string, ws: char -> bool)
    ensures exists i :: StrippedAt(s, Strip(s, ws), ws, i)
  {
    var a := LeadEnd(s, ws, 0);
    assert StrippedAt(s, Strip(s, ws), ws, a);
  }

  /** Stripping a string that neither starts nor ends with whitespace leaves it unchanged. */
  lemma StripUnchanged(s: string, ws: char -> bool)
    requires s == [] || (!ws(s[0]) && !ws(s[|s| - 1]))
    ensures Strip(s, ws) == s
  {
    assert LeadEnd(s, ws, 0) == 0;
    assert TrailStart(s, ws, 0, |s|) == |s|;
    assert s[0..|s|] == s;
  }

  // ------------------------------------------------------- splitting, joining

  predicate OccursAt(s: string, sep: string, k: int) {
    0 <= k && k + |sep| <= |s| && s[k..k + |sep|] == sep
  }

  predicate Contains(s: string, sep: string) {
    exists k :: 0 <= k <= |s| && OccursAt(s, sep, k)
  }

  /** The leftmost occurrence of `sep` in `s` at or after `from`. */
  function FindFrom(s: string, sep: string, from: nat): (r: Option<nat>)
    ensures r.Some? ==> from <= r.value && r.value + |sep| <= |s|
    ensures forall k :: from <= k && (r.None? || k < r.value) ==> !OccursAt(s, sep, k)
    decreases |s| - from
  {
    if from + |sep| > |s| then None
    else if s[from..from + |sep|] == sep then Some(from)
    else FindFrom(s, sep, from + 1)
  }

  /** What `FindFrom` finds is an occurrence. */
  lemma {:induction false} FindFromOccurs(s: string, sep: string, from: nat)
    ensures FindFrom(s, sep, from).Some? ==> OccursAt(s, sep, FindFrom(s, sep, from).value)
    decreases |s| - from
  {
    if from + |sep| <= |s| && s[from..from + |sep|] != sep {
      FindFromOccurs(s, sep, from + 1);
    }
  }

  /** `parts.join(sep)` (Python `sep.join(parts)`). */
  function Join(parts: seq<string>, sep: string): string {
    if |parts| == 0 then ""
    else if |parts| == 1 then parts[0]
    else parts[0] + sep + Join(parts[1..], sep)
  }

  function Last<T>(s: seq<T>): T
    requires |s| > 0
  {
    s[|s| - 1]
  }

  lemma PrefixBeforeFirst(s: string, sep: string, i: nat)
    requires |sep| > 0 && i <= |s|
    requires forall k :: 0 <= k < i ==> !OccursAt(s, sep, k)
    ensures !Contains(s[..i], sep)
  {
    forall k | 0 <= k <= i && OccursAt(s[..i], sep, k)
      ensures false
    {
      assert s[..i][k..k + |sep|] == s[k..k + |sep|];
      assert OccursAt(s, sep, k);
    }
  }

  /**
   * `s.split(sep)` in both Python and JavaScript: the pieces between the
   * leftmost non-overlapping occurrences of `sep`, scanning left to right.
   */
  function Split(s: string, sep: string): (parts: seq<string>)
    requires |sep| > 0
    ensures |parts| >= 1
    decreases |s|
  {
    match FindFrom(s, sep, 0)
    case None => [s]
    case Some(i) => [s[..i]] + Split(s[i + |sep|..], sep)
  }

  /** Joining the pieces with the separator gives back the split string. */
  lemma {:induction false} SplitJoin(s: string, sep: string)
    requires |sep| > 0
    ensures Join(Split(s, sep), sep) == s
    decreases |s|
  {
    match FindFrom(s, sep, 0)
    case None =>
    case Some(i) =>
      var rest := s[i + |sep|..];
      FindFromOccurs(s, sep, 0);
      SplitUnfold(s, sep, i);
      SplitJoin(rest, sep);
      JoinCons(s[..i], Split(rest, sep), sep);
      CutAround(s, i, |sep|);
  }

  lemma JoinCons(x: string, rest: seq<string>, sep: string)
    requires |rest| >= 1
    ensures Join([x] + rest, sep) == x + sep + Join(rest, sep)
  {
    assert ([x] + rest)[1..] == rest;
  }

  lemma ConcatAssoc<T>(x: seq<T>, y: seq<T>, z: seq<T>)
    ensures (x + y) + z == x + (y + z)
  {
  }

  lemma CutAround<T>(s: seq<T>, i: nat, n: nat)
    requires i + n <= |s|
    ensures s == s[..i] + s[i..i + n] + s[i + n..]
  {
  }

  /** No piece of a split contains the separator. */
  lemma {:induction false} SplitPiecesClean(s: string, sep: string)
    requires |sep| > 0
    ensures forall i :: 0 <= i < |Split(s, sep)| ==> !Contains(Split(s, sep)[i], sep)
    decreases |s|
  {
    match FindFrom(s, sep, 0)
    case None =>
      assert Split(s, sep) == [s];
      assert !Contains(s, sep);
    case Some(i) =>
      SplitUnfold(s, sep, i);
      PrefixBeforeFirst(s, sep, i);
      SplitPiecesClean(s[i + |sep|..], sep);
  }

  lemma FoundMeansContains(s: string, sep: string)
    ensures FindFrom(s, sep, 0).Some? ==> Contains(s, sep)
  {
    var r := FindFrom(s, sep, 0);
    FindFromOccurs(s, sep, 0);
    if r.Some? {
      assert OccursAt(s, sep, r.value);
    }
  }

  /** A string without the separator splits into itself alone. */
  lemma SplitWhole(s: string, sep: string)
    requires |sep| > 0 && !Contains(s, sep)
    ensures Split(s, sep) == [s]
  {
    FoundMeansContains(s, sep);
  }

  lemma SplitUnfold(s: string, sep: string, i: nat)
    requires |sep| > 0
    requires FindFrom(s, sep, 0) == Some(i)
    ensures Split(s, sep) == [s[..i]] + Split(s[i + |sep|..], sep)
  {
  }

  /** An occurrence at `i` with none between `from` and `i` is what `FindFrom` finds. */
  lemma {:induction false} FindFromIs(s: string, sep: string, from: nat, i: nat)
    requires from <= i && OccursAt(s, sep, i)
    requires forall k :: from <= k < i ==> !OccursAt(s, sep, k)
    ensures FindFrom(s, sep, from) == Some(i)
    decreases i - from
  {
    if from < i {
      assert !OccursAt(s, sep, from);
      FindFromIs(s, sep, from + 1, i);
    }
  }

  /** If `s` has a leftmost occurrence of `sep` at `i`, so has `s + t`. */
  lemma FindFromAppend(s: string, t: string, sep: string, i: nat)
    requires FindFrom(s, sep, 0) == Some(i)
    ensures FindFrom(s + t, sep, 0) == Some(i)
  {
    FindFromOccurs(s, sep, 0);
    assert (s + t)[i..i + |sep|] == s[i..i + |sep|];
    assert OccursAt(s + t, sep, i);
    forall k | 0 <= k < i
      ensures !OccursAt(s + t, sep, k)
    {
      assert (s + t)[k..k + |sep|] == s[k..k + |sep|];
      assert !OccursAt(s, sep, k);
    }
    FindFromIs(s + t, sep, 0, i);
  }

  /**
   * Splitting `s + t` is splitting `s`, keeping every complete piece, and
   * splitting what was left over together with `t`.
   */
  lemma {:induction false} SplitAppend(s: string, t: string, sep: string)
    requires |sep| > 0
    ensures var p := Split(s, sep);
            Split(s + t, sep) == p[..|p| - 1] + Split(Last(p) + t, sep)
    decreases |s|
  {
    match FindFrom(s, sep, 0)
    case None =>
      assert Split(s, sep) == [s];
      assert Split(s + t, sep) == [s][..0] + Split(s + t, sep);
    case Some(i) =>
      FindFromAppend(s, t, sep, i);
      var s' := s[i + |sep|..];
      var p' := Split(s', sep);
      var p := Split(s, sep);
      SplitUnfold(s, sep, i);
      SplitUnfold(s + t, sep, i);
      assert (s + t)[..i] == s[..i];
      assert (s + t)[i + |sep|..] == s' + t;
      SplitAppend(s', t, sep);
      ConsButLast(s[..i], p', Split(Last(p') + t, sep));
  }

  /** Putting `x` in front of a non-empty `p` keeps its last element and puts `x` in front of the rest. */
  lemma ConsButLast<T>(x: T, p: seq<T>, tail: seq<T>)
    requires |p| >= 1
    ensures var q := [x] + p;
            q[..|q| - 1] + tail == [x] + (p[..|p| - 1] + tail) && Last(q) == Last(p)
  {
    var q := [x] + p;
    assert q[..|q| - 1] == [x] + p[..|p| - 1];
  }

  function CountOf(s: string, c: char): nat {
    if s == [] then 0 else (if s[0] == c then 1 else 0) + CountOf(s[1..], c)
  }

  lemma {:induction false} CountOfAppend(a: string, b: string, c: char)
    ensures CountOf(a + b, c) == CountOf(a, c) + CountOf(b, c)
  {
    if a == [] {
      assert a + b == b;
    } else {
      assert (a + b)[1..] == a[1..] + b;
      CountOfAppend(a[1..], b, c);
    }
  }

  lemma {:induction false} CountOfAbsent(a: string, c: char)
    requires forall k :: 0 <= k < |a| ==> a[k] != c
    ensures CountOf(a, c) == 0
  {
    if a != [] {
      CountOfAbsent(a[1..], c);
    }
  }

  /** Splitting on a one-character separator yields one piece more than the separator occurs. */
  lemma {:induction false} SplitCount(s: string, c: char)
    ensures |Split(s, [c])| == CountOf(s, c) + 1
    decreases |s|
  {
    FindFromOccurs(s, [c], 0);
    match FindFrom(s, [c], 0)
    case None =>
      forall k | 0 <= k < |s|
        ensures s[k] != c
      {
        assert !OccursAt(s, [c], k);
      }
      CountOfAbsent(s, c);
    case Some(i) =>
      forall k | 0 <= k < i
        ensures s[k] != c
      {
        assert !OccursAt(s, [c], k);
        assert s[k..k + 1] == [s[k]];
      }
      assert s[..i][..] == s[..i];
      CountOfAbsent(s[..i], c);
      assert s[i..i + 1] == [c];
      assert s == s[..i] + [c] + s[i + 1..];
      CountOfAppend(s[..i] + [c], s[i + 1..], c);
      CountOfAppend(s[..i], [c], c);
      assert CountOf([c], c) == 1;
      SplitCount(s[i + 1..], c);
      assert Split(s, [c]) == [s[..i]] + Split(s[i + 1..], [c]);
  }

  // --------------------------------------------------------------- integers

  function DigitChar(d: nat): (c: char)
    requires d < 10
    ensures IsDigit(c)
  {
    ('0' as int + d) as char
  }

  function DigitValue(c: char): nat
    requires IsDigit(c)
  {
    c as int - '0' as int
  }

  function NatToDecimal(n: nat): (r: string)
    ensures |r| >= 1
    ensures forall i :: 0 <= i < |r| ==> IsDigit(r[i])
    decreases n
  {
    if n < 10 then [DigitChar(n)] else NatToDecimal(n / 10) + [DigitChar(n % 10)]
  }

  /** Python `str(n)` for an `int`. */
  function IntToDecimal(n: int): string {
    if n < 0 then "-" + NatToDecimal(-n) else NatToDecimal(n)
  }

  /**
   * The digit groups Python's `int()` accepts in base 10, restricted to the
   * ASCII digits: digits, with single underscores between digits.
   */
  predicate DigitGroups(s: string) {
    && |s| >= 1
    && IsDigit(s[0])
    && IsDigit(s[|s| - 1])
    && (forall i :: 0 <= i < |s| ==> IsDigit(s[i]) || s[i] == '_')
    && (forall i :: 0 <= i < |s| - 1 && s[i] == '_' ==> IsDigit(s[i + 1]))
  }

  function DigitsValue(s: string): nat
    requires forall i :: 0 <= i < |s| ==> IsDigit(s[i]) || s[i] == '_'
  {
    if s == [] then 0
    else if s[|s| - 1] == '_' then DigitsValue(s[..|s| - 1])
    else DigitsValue(s[..|s| - 1]) * 10 + DigitValue(s[|s| - 1])
  }

  /** Python's default `sys.get_int_max_str_digits()`: the most digits `int()` and `str()` handle in base 10. */
  const PY_INT_MAX_STR_DIGITS: nat := 4300

  /**
   * The characters `int()` skips around a number: those of `str.isspace`
   * except the information separators U+001C..U+001F, which `int()` passes
   * on as ASCII and then does not count as space.
   */
  predicate IsIntWhitespace(c: char) {
    IsPyWhitespace(c) && !('\U{1C}' <= c <= '\U{1F}')
  }

  /** How many digits `s` holds; the underscores between groups are not counted. */
  function DigitCount(s: string): nat {
    if s == [] then 0
    else DigitCount(s[..|s| - 1]) + (if IsDigit(s[|s| - 1]) then 1 else 0)
  }

  /** Whether `str(n)` writes at most the digits Python's conversions allow. */
  predicate WithinIntDigits(n: int) {
    |NatToDecimal(if n < 0 then -n else n)| <= PY_INT_MAX_STR_DIGITS
  }

  /**
   * Python `int(s)` for a `str` written in ASCII digits: surrounding
   * `int()` whitespace is ignored, one optional sign, then digit groups of
   * at most `PY_INT_MAX_STR_DIGITS` digits; anything else raises
   * `ValueError`, modelled as `None`. Python also accepts the decimal
   * digits of other scripts, which this reading refuses.
   */
  function ParsePyInt(s: string): Option<int> {
    var t := Strip(s, IsIntWhitespace);
    if |t| > 0 && (t[0] == '-' || t[0] == '+') then
      ParseSigned(t[0] == '-', t[1..])
    else ParseSigned(false, t)
  }

  function ParseSigned(negative: bool, body: string): Option<int> {
    if DigitGroups(body) && DigitCount(body) <= PY_INT_MAX_STR_DIGITS then
      var v: int := DigitsValue(body);
      Some(if negative then -v else v)
    else None
  }

  lemma {:induction false} DigitsValueOfDecimal(n: nat)
    ensures DigitsValue(NatToDecimal(n)) == n
    decreases n
  {
    if n >= 10 {
      var p := NatToDecimal(n / 10);
      var r := p + [DigitChar(n % 10)];
      assert r[..|r| - 1] == p;
      DigitsValueOfDecimal(n / 10);
    }
  }

  lemma {:induction false} DigitCountOfDigits(s: string)
    requires forall i :: 0 <= i < |s| ==> IsDigit(s[i])
    ensures DigitCount(s) == |s|
  {
    if s != [] {
      DigitCountOfDigits(s[..|s| - 1]);
    }
  }

  /**
   * `int(str(n)) == n`: the decimal rendering of an integer parses back to
   * it, for every integer `str` itself is willing to render.
   */
  lemma DecimalRoundTrip(n: int)
    requires WithinIntDigits(n)
    ensures ParsePyInt(IntToDecimal(n)) == Some(n)
  {
    var d := IntToDecimal(n);
    var m: nat := if n < 0 then -n else n;
    var digits := NatToDecimal(m);
    assert !IsIntWhitespace(d[0]) && !IsIntWhitespace(d[|d| - 1]);
    StripUnchanged(d, IsIntWhitespace);
    DecimalBodyParses(n < 0, m);
    if n < 0 {
      assert d[1..] == digits;
    }
  }

  /** The digits `str` writes for `m` pass as the body of a signed integer. */
  lemma DecimalBodyParses(negative: bool, m: nat)
    requires |NatToDecimal(m)| <= PY_INT_MAX_STR_DIGITS
    ensures ParseSigned(negative, NatToDecimal(m)) == Some(if negative then -(m as int) else m as int)
  {
    var digits := NatToDecimal(m);
    assert DigitGroups(digits);
    DigitCountOfDigits(digits);
    DigitsValueOfDecimal(m);
  }

  /** What Python's `int(x)` does with a decoded JSON value. */
  datatype PyIntOutcome = Converted(value: int) | ValueError | TypeError

  /**
   * Python `int(x)` on a JSON value: a string is parsed as above (`ValueError`
   * when it is not an integer literal), an integer is itself, a boolean is 0
   * or 1, and `null`, an array or an object raise `TypeError`.
   */
  function PyIntOf(j: Json): (r: PyIntOutcome)
    ensures j.JStr? ==> (r.ValueError? <==> ParsePyInt(j.s).None?)
    ensures j.JStr? && r.Converted? ==> ParsePyInt(j.s) == Some(r.value)
    ensures j.JInt? ==> r == Converted(j.i)
    ensures r.TypeError? <==> j.JNull? || j.JArr? || j.JObj?
  {
    match j
    case JStr(s) => (match ParsePyInt(s) case Some(v) => Converted(v) case None => ValueError)
    case JInt(i) => Converted(i)
    case JBool(b) => Converted(if b then 1 else 0)
    case _ => TypeError
  }

  /** A leading U+001C is not space to `int()`, although `str.isspace` accepts it. */
  lemma SeparatorIsNotIntSpace()
    ensures IsPyWhitespace('\U{1C}')
    ensures ParsePyInt("\U{1C}5") == None && ParsePyInt(" 5") == Some(5)
  {
    assert Strip("\U{1C}5", IsIntWhitespace) == "\U{1C}5" by {
      StripUnchanged("\U{1C}5", IsIntWhitespace);
    }
    assert Strip(" 5", IsIntWhitespace) == "5" by {
      StripSpec(" 5", IsIntWhitespace);
    }
    assert DigitCount("5") == 1 by { assert "5"[..0] == ""; }
  }
}
