/**
 * Python's `int(x)` on the values a deserialised record field can hold:
 * an `int` is returned as it is, a `bool` becomes 0 or 1, and a `str` is
 * parsed as a base-10 literal — surrounding whitespace is ignored, one `+`
 * or `-` may lead, and single underscores may separate digits. Anything else
 * raises `ValueError`, and so does a literal with more digits than the
 * interpreter's default limit on integer string conversion.
 */
module IntCoercion {
  import opened Wrappers

  /** A field value as handed to a constructor. */
  datatype Scalar = Int(i: int) | Bool(b: bool) | Str(s: string)

  /**
   * `ValueError: invalid literal for int() with base 10: <text>`, or
   * `ValueError: Exceeds the limit (<limit> digits) for integer string
   * conversion: value has <digits> digits`.
   */
  datatype ValueError = InvalidLiteral(text: string) | ExceedsDigitLimit(limit: nat, digits: nat)

  /** `sys.int_info.default_max_str_digits`. */
  const MaxStrDigits: nat := 4300

  /** The whitespace `int()` skips around a literal: space, tab, LF, VT, FF, CR. */
  predicate IsSpace(c: char) {
    c == ' ' || '\t' <= c <= '\r'
  }

  predicate IsDigit(c: char) {
    '0' <= c <= '9'
  }

  function DigitValue(c: char): nat
    requires IsDigit(c)
  {
    c as int - '0' as int
  }

  function TrimStart(s: string): string {
    if |s| > 0 && IsSpace(s[0]) then TrimStart(s[1..]) else s
  }

  function TrimEnd(s: string): string {
    if |s| > 0 && IsSpace(s[|s| - 1]) then TrimEnd(s[..|s| - 1]) else s
  }

  /** The literal with the whitespace `int()` skips removed from both ends. */
  function Strip(s: string): string {
    TrimEnd(TrimStart(s))
  }

  /** Digits, where every underscore sits between two digits. */
  predicate WellFormedDigits(s: string)
    decreases |s|
  {
    && |s| > 0
    && IsDigit(s[|s| - 1])
    && (|| |s| == 1
        || WellFormedDigits(s[..|s| - 1])
        || (|s| >= 3 && s[|s| - 2] == '_' && WellFormedDigits(s[..|s| - 2])))
  }

  /** The number the digits of `s` spell, underscores skipped. */
  function DigitsValue(s: string): nat
    requires WellFormedDigits(s)
    decreases |s|
  {
    var d := DigitValue(s[|s| - 1]);
    if |s| == 1 then d
    else if s[|s| - 2] == '_' then
      assert !WellFormedDigits(s[..|s| - 1]) by {
        assert s[..|s| - 1][|s| - 2] == '_';
      }
      10 * DigitsValue(s[..|s| - 2]) + d
    else 10 * DigitsValue(s[..|s| - 1]) + d
  }

  /** The text after an optional leading sign. */
  function Unsigned(t: string): (r: string)
    ensures |r| <= |t|
  {
    if |t| > 0 && (t[0] == '+' || t[0] == '-') then t[1..] else t
  }

  /** The value of an already stripped literal, or `None` when it is malformed. */
  function LiteralValue(t: string): Option<int> {
    var body := Unsigned(t);
    if WellFormedDigits(body) then
      var v: int := DigitsValue(body);
      Some(if |t| > 0 && t[0] == '-' then -v else v)
    else
      None
  }

  /** The number of digits in `s`, underscores not counted. */
  function DigitCount(s: string): nat {
    if s == [] then 0
    else DigitCount(s[..|s| - 1]) + if IsDigit(s[|s| - 1]) then 1 else 0
  }

  /**
   * `int(text)` for a `str` argument. The whole literal, trailing text
   * included, is checked first; only a valid literal has its digits counted
   * against the limit.
   */
  function ParseInt(text: string): (r: Result<int, ValueError>)
    ensures r.Failure? ==>
      || r.error == InvalidLiteral(text)
      || (r.error.ExceedsDigitLimit? && r.error.limit == MaxStrDigits && r.error.digits > MaxStrDigits)
  {
    match LiteralValue(Strip(text))
    case None => Failure(InvalidLiteral(text))
    case Some(v) =>
      var digits := DigitCount(Unsigned(Strip(text)));
      if digits > MaxStrDigits then Failure(ExceedsDigitLimit(MaxStrDigits, digits))
      else Success(v)
  }

  /** `int(v)`. */
  function ToInt(v: Scalar): (r: Result<int, ValueError>)
    ensures v.Int? ==> r == Success(v.i)
    ensures v.Bool? ==> r == Success(if v.b then 1 else 0)
  {
    match v
    case Int(i) => Success(i)
    case Bool(b) => Success(if b then 1 else 0)
    case Str(s) => ParseInt(s)
  }

  /** The decimal digits of `n`, most significant first. */
  function Decimal(n: nat): (r: string)
    ensures |r| > 0 && IsDigit(r[0]) && IsDigit(r[|r| - 1])
  {
    if n < 10 then ['0' + n as char]
    else Decimal(n / 10) + ['0' + (n % 10) as char]
  }

  /** `str(i)` for an int. */
  function IntStr(i: int): string {
    if i < 0 then "-" + Decimal(-i) else Decimal(i)
  }

  /** How many digits `str(i)` writes. */
  function DecimalLength(i: int): nat {
    |Decimal(if i < 0 then -i else i)|
  }

  lemma {:induction false} DecimalDigits(n: nat)
    ensures WellFormedDigits(Decimal(n))
    ensures DigitsValue(Decimal(n)) == n
  {
    if n >= 10 {
      DecimalDigits(n / 10);
      var d := Decimal(n);
      assert d[..|d| - 1] == Decimal(n / 10);
    }
  }

  lemma {:induction false} TrimStartSkipsSpaces(ws: string, t: string)
    requires forall k :: 0 <= k < |ws| ==> IsSpace(ws[k])
    requires |t| > 0 && !IsSpace(t[0])
    ensures TrimStart(ws + t) == t
    decreases |ws|
  {
    if |ws| > 0 {
      assert (ws + t)[1..] == ws[1..] + t;
      TrimStartSkipsSpaces(ws[1..], t);
    }
  }

  lemma {:induction false} TrimEndSkipsSpaces(t: string, ws: string)
    requires forall k :: 0 <= k < |ws| ==> IsSpace(ws[k])
    requires |t| > 0 && !IsSpace(t[|t| - 1])
    ensures TrimEnd(t + ws) == t
    decreases |ws|
  {
    if |ws| > 0 {
      assert (t + ws)[..|t + ws| - 1] == t + ws[..|ws| - 1];
      TrimEndSkipsSpaces(t, ws[..|ws| - 1]);
    }
  }

  lemma StripAround(before: string, t: string, after: string)
    requires forall k :: 0 <= k < |before| ==> IsSpace(before[k])
    requires forall k :: 0 <= k < |after| ==> IsSpace(after[k])
    requires |t| > 0 && !IsSpace(t[0]) && !IsSpace(t[|t| - 1])
    ensures Strip(before + t + after) == t
  {
    TrimStartSkipsSpaces(before, t + after);
    assert before + t + after == before + (t + after);
    TrimEndSkipsSpaces(t, after);
  }

  lemma LiteralValueOfIntStr(i: int)
    ensures LiteralValue(IntStr(i)) == Some(i)
  {
    var n: nat := if i < 0 then -i else i;
    DecimalDigits(n);
    if i < 0 {
      assert IntStr(i)[1..] == Decimal(n);
    }
  }

  lemma {:induction false} DecimalDigitCount(n: nat)
    ensures DigitCount(Decimal(n)) == |Decimal(n)|
  {
    if n >= 10 {
      DecimalDigitCount(n / 10);
      var d := Decimal(n);
      assert d[..|d| - 1] == Decimal(n / 10);
    }
  }

  /** `str(i)` starts with its sign or a digit, never with whitespace. */
  lemma IntStrStart(i: int)
    ensures |IntStr(i)| > 0 && !IsSpace(IntStr(i)[0])
  {
  }

  /** `str(i)` loses its sign, if any, and leaves its digits. */
  lemma UnsignedIntStr(i: int, after: string)
    ensures Unsigned(IntStr(i) + after) == Decimal(if i < 0 then -i else i) + after
  {
    var n: nat := if i < 0 then -i else i;
    var s := IntStr(i) + after;
    if i < 0 {
      assert s == "-" + (Decimal(n) + after);
    } else {
      assert s[0] == Decimal(n)[0];
    }
  }

  /** Trailing whitespace is stripped only after the last character that is not whitespace. */
  lemma {:induction false} TrimEndAfter(t: string, rest: string)
    requires |rest| > 0 && !IsSpace(rest[0])
    ensures TrimEnd(t + rest) == t + TrimEnd(rest)
    decreases |rest|
  {
    if IsSpace(rest[|rest| - 1]) {
      assert (t + rest)[..|t + rest| - 1] == t + rest[..|rest| - 1];
      TrimEndAfter(t, rest[..|rest| - 1]);
    }
  }

  /** A well-formed digit string holds nothing but digits and underscores. */
  lemma {:induction false} WellFormedDigitsChars(s: string)
    requires WellFormedDigits(s)
    ensures forall k :: 0 <= k < |s| ==> IsDigit(s[k]) || s[k] == '_'
    decreases |s|
  {
    if |s| > 1 {
      if WellFormedDigits(s[..|s| - 1]) {
        WellFormedDigitsChars(s[..|s| - 1]);
        assert forall k :: 0 <= k < |s| - 1 ==> s[k] == s[..|s| - 1][k];
      } else {
        WellFormedDigitsChars(s[..|s| - 2]);
        assert forall k :: 0 <= k < |s| - 2 ==> s[k] == s[..|s| - 2][k];
      }
    }
  }

  /**
   * `int()` reads back what `str()` wrote, whatever whitespace surrounds it,
   * unless it has more digits than the conversion limit allows.
   */
  lemma ParseIntStr(i: int, before: string, after: string)
    requires forall k :: 0 <= k < |before| ==> IsSpace(before[k])
    requires forall k :: 0 <= k < |after| ==> IsSpace(after[k])
    ensures ParseInt(before + IntStr(i) + after)
         == if DecimalLength(i) > MaxStrDigits then Failure(ExceedsDigitLimit(MaxStrDigits, DecimalLength(i)))
            else Success(i)
  {
    var n: nat := if i < 0 then -i else i;
    var t := IntStr(i);
    DecimalDigitCount(n);
    IntStrStart(i);
    assert t[|t| - 1] == Decimal(n)[|Decimal(n)| - 1];
    StripAround(before, t, after);
    LiteralValueOfIntStr(i);
    UnsignedIntStr(i, []);
    assert t + [] == t;
  }

  /** Skipping the leading whitespace `int()` skips removes a prefix of it and leaves a suffix. */
  lemma {:induction false} TrimStartIsSuffix(s: string)
    ensures |TrimStart(s)| <= |s| && TrimStart(s) == s[|s| - |TrimStart(s)|..]
    ensures |TrimStart(s)| > 0 ==> !IsSpace(TrimStart(s)[0])
    ensures forall k :: 0 <= k < |s| - |TrimStart(s)| ==> IsSpace(s[k])
    decreases |s|
  {
    if |s| > 0 && IsSpace(s[0]) {
      TrimStartIsSuffix(s[1..]);
    }
  }

  /** Skipping the trailing whitespace `int()` skips removes a suffix of it and leaves a prefix. */
  lemma {:induction false} TrimEndIsPrefix(s: string)
    ensures |TrimEnd(s)| <= |s| && TrimEnd(s) == s[..|TrimEnd(s)|]
    ensures |TrimEnd(s)| > 0 ==> !IsSpace(TrimEnd(s)[|TrimEnd(s)| - 1])
    ensures forall k :: |TrimEnd(s)| <= k < |s| ==> IsSpace(s[k])
    decreases |s|
  {
    if |s| > 0 && IsSpace(s[|s| - 1]) {
      TrimEndIsPrefix(s[..|s| - 1]);
    }
  }

  /**
   * Text after a number that is neither a digit, an underscore nor
   * whitespace raises the invalid-literal error however many digits come
   * before it: the literal is validated before its digits are counted.
   */
  lemma TrailingTextCheckedBeforeLimit(i: int, rest: string)
    requires |rest| > 0 && !IsDigit(rest[0]) && rest[0] != '_' && !IsSpace(rest[0])
    ensures ParseInt(IntStr(i) + rest) == Failure(InvalidLiteral(IntStr(i) + rest))
  {
    var n: nat := if i < 0 then -i else i;
    IntStrStart(i);
    assert (IntStr(i) + rest)[0] == IntStr(i)[0];
    TrimEndAfter(IntStr(i), rest);
    var u := TrimEnd(rest);
    TrimEndIsPrefix(rest);
    assert |u| > 0 && u[0] == rest[0];
    UnsignedIntStr(i, u);
    var body := Decimal(n) + u;
    assert body[|Decimal(n)|] == rest[0];
    if WellFormedDigits(body) {
      WellFormedDigitsChars(body);
    }
  }

  /** Without a digit in the text, the stripped literal has no value. */
  lemma NoDigitNoLiteral(text: string)
    requires forall k :: 0 <= k < |text| ==> !IsDigit(text[k])
    ensures LiteralValue(Strip(text)) == None
  {
    var t := TrimStart(text);
    TrimStartIsSuffix(text);
    var u := TrimEnd(t);
    TrimEndIsPrefix(t);
    var body := Unsigned(u);
    if |body| > 0 {
      assert body[|body| - 1] == u[|u| - 1] == t[|u| - 1] == text[|text| - |t| + |u| - 1];
    }
  }

  /** A string without a single digit always raises `ValueError` for that text. */
  lemma NoDigitNoInt(text: string)
    requires forall k :: 0 <= k < |text| ==> !IsDigit(text[k])
    ensures ParseInt(text) == Failure(InvalidLiteral(text))
  {
    NoDigitNoLiteral(text);
  }
}
