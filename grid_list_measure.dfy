/** The two coercions of the grid list's measure helpers, over the integer
    part of JavaScript's `number`.

    `coerceToString` is the template string `${value || ''}`: the falsy values
    `0` and `''` become `''`, everything else its string form.
    `coerceToNumber` passes numbers through and runs `parseInt(value, 10)` on
    strings; `None` stands for the `NaN` that `parseInt` returns when no digit
    follows the leading white space and sign. */
module GridListMeasure {
  import opened Optional

  /** The `string | number` argument of both coercions. */
  datatype StringOrNumber = Str(s: string) | Num(n: int)

  /** JavaScript truthiness restricted to these two types: `0` and `''` are falsy. */
  predicate IsFalsy(v: StringOrNumber) {
    v == Num(0) || v == Str("")
  }

  /* ---------- number to string (decimal rendering) ---------- */

  predicate IsDigit(c: char) {
    '0' <= c <= '9'
  }

  /** Every character of `s` is a decimal digit. */
  predicate AllDigits(s: string) {
    forall k :: 0 <= k < |s| ==> IsDigit(s[k])
  }

  function DigitChar(d: nat): (c: char)
    requires d < 10
    ensures IsDigit(c) && c as int - '0' as int == d
  {
    ('0' as int + d) as char
  }

  function DigitValue(c: char): (d: int)
    ensures IsDigit(c) ==> 0 <= d < 10 && DigitChar(d) == c
  {
    c as int - '0' as int
  }

  /** Decimal digits of a natural number, most significant first, no leading zeros. */
  function NatToDecimal(n: nat): (r: string)
    ensures |r| >= 1
    ensures AllDigits(r)
    ensures r[0] == '0' ==> n == 0
  {
    if n < 10 then [DigitChar(n)] else NatToDecimal(n / 10) + [DigitChar(n % 10)]
  }

  /** The decimal rendering of an integer that `String(n)` gives for integers
      up to 2^53 in magnitude: a `-` before the digits of a negative value.
      Larger values print exactly here. */
  function IntToDecimal(n: int): (r: string)
    ensures |r| >= 1
    ensures r[0] == '-' <==> n < 0
    ensures n >= 0 ==> r == NatToDecimal(n)
    ensures n < 0 ==> r == "-" + NatToDecimal(-n)
  {
    if n < 0 then "-" + NatToDecimal(-n) else NatToDecimal(n)
  }

  /* ---------- parseInt(s, 10) ---------- */

  /** StrWhiteSpaceChar of ECMAScript 2017 section 7.2 / 7.3 (WhiteSpace and
      LineTerminator), which `parseInt` skips before the number. */
  predicate IsJsWhiteSpace(c: char)
    ensures IsJsWhiteSpace(c) ==> !IsDigit(c) && c != '+' && c != '-'
  {
    c == '\t' || c == '\n' || c == '\U{B}' || c == '\U{C}' || c == '\r' || c == ' '
    || c == '\U{A0}' || c == '\U{1680}' || ('\U{2000}' <= c <= '\U{200A}')
    || c == '\U{2028}' || c == '\U{2029}' || c == '\U{202F}' || c == '\U{205F}'
    || c == '\U{3000}' || c == '\U{FEFF}'
  }

  /** Every character of `s` is white space. */
  predicate AllWhiteSpace(s: string) {
    forall k :: 0 <= k < |s| ==> IsJsWhiteSpace(s[k])
  }

  /** The string with its leading white space removed. */
  function TrimStart(s: string): (r: string)
    ensures r == [] || !IsJsWhiteSpace(r[0])
    ensures |r| <= |s|
  {
    if s != [] && IsJsWhiteSpace(s[0]) then TrimStart(s[1..]) else s
  }

  /** What `TrimStart` removes is a prefix made only of white space. */
  lemma {:induction false} TrimStartRemovesWhiteSpacePrefix(s: string)
    ensures s[|s| - |TrimStart(s)|..] == TrimStart(s)
    ensures AllWhiteSpace(s[..|s| - |TrimStart(s)|])
  {
    if s != [] && IsJsWhiteSpace(s[0]) {
      TrimStartRemovesWhiteSpacePrefix(s[1..]);
      var k := |s| - |TrimStart(s)|;
      assert s[k..] == s[1..][k - 1..];
      assert s[..k] == [s[0]] + s[1..][..k - 1];
    }
  }

  /** The longest prefix of `s` made of decimal digits. */
  function DigitPrefix(s: string): (r: string)
    ensures |r| <= |s| && r == s[..|r|]
    ensures AllDigits(r)
    ensures |r| < |s| ==> !IsDigit(s[|r|])
  {
    if s != [] && IsDigit(s[0]) then [s[0]] + DigitPrefix(s[1..]) else []
  }

  /** The value of a string of decimal digits, most significant first. */
  function DigitsValue(d: string): (v: int)
    ensures AllDigits(d) ==> v >= 0
  {
    if d == [] then 0 else 10 * DigitsValue(d[..|d| - 1]) + DigitValue(d[|d| - 1])
  }

  /** `parseInt(s, 10)` on integers: skip white space, then read a signed
      numeral; no digit at all is `NaN` (`None`). */
  function ParseInt(s: string): (r: Option<int>)
    ensures r.Some? <==> var u := UnsignedPart(TrimStart(s)); u != [] && IsDigit(u[0])
    ensures r.Some? && r.value < 0 ==> IsNegative(TrimStart(s))
  {
    ParseSigned(TrimStart(s))
  }

  /** An optional `-` or `+`, then the longest run of digits. */
  function ParseSigned(t: string): (r: Option<int>)
    ensures r.Some? <==> UnsignedPart(t) != [] && IsDigit(UnsignedPart(t)[0])
    ensures r.Some? && !IsNegative(t) ==> r.value >= 0
    ensures r.Some? && IsNegative(t) ==> r.value <= 0
  {
    var digits := DigitPrefix(UnsignedPart(t));
    if digits == [] then None
    else Some(if IsNegative(t) then -DigitsValue(digits) else DigitsValue(digits))
  }

  /** The numeral carries a minus sign. */
  predicate IsNegative(t: string) {
    t != [] && t[0] == '-'
  }

  /** What follows an optional leading sign. */
  function UnsignedPart(t: string): string {
    if t != [] && (t[0] == '-' || t[0] == '+') then t[1..] else t
  }

  /* ---------- the two coercions ---------- */

  /** `coerceToString`: falsy values become the empty string. */
  function CoerceToString(v: StringOrNumber): (r: string)
    ensures r == [] <==> IsFalsy(v)
    ensures v.Str? ==> r == v.s
    ensures v.Num? && v.n != 0 ==> r == IntToDecimal(v.n)
  {
    if IsFalsy(v) then ""
    else match v
      case Str(s) => s
      case Num(n) => IntToDecimal(n)
  }

  /** `coerceToNumber`: numbers unchanged, strings through `parseInt(_, 10)`. */
  function CoerceToNumber(v: StringOrNumber): (r: Option<int>)
    ensures v.Num? ==> r == Some(v.n)
  {
    match v
    case Str(s) => ParseInt(s)
    case Num(n) => Some(n)
  }

  /* ---------- properties ---------- */

  /** Converting a string again changes nothing. */
  lemma CoerceToStringIdempotent(v: StringOrNumber)
    ensures CoerceToString(Str(CoerceToString(v))) == CoerceToString(v)
  {
  }

  /** Reading back the digits of `n` yields `n`. */
  lemma {:induction false} DigitsValueOfNatToDecimal(n: nat)
    ensures DigitsValue(NatToDecimal(n)) == n
  {
    var r := NatToDecimal(n);
    if n >= 10 {
      DigitsValueOfNatToDecimal(n / 10);
      assert r[..|r| - 1] == NatToDecimal(n / 10);
    }
  }

  /** The digit prefix stops at the first character that is not a digit. */
  lemma {:induction false} DigitPrefixStops(d: string, rest: string)
    requires AllDigits(d)
    requires rest == [] || !IsDigit(rest[0])
    ensures DigitPrefix(d + rest) == d
  {
    if d != [] {
      assert (d + rest)[1..] == d[1..] + rest;
      DigitPrefixStops(d[1..], rest);
    } else {
      assert d + rest == rest;
    }
  }

  /** Leading white space is skipped entirely and nothing beyond it. */
  lemma {:induction false} TrimStartSkipsWhiteSpace(ws: string, t: string)
    requires AllWhiteSpace(ws)
    requires t == [] || !IsJsWhiteSpace(t[0])
    ensures TrimStart(ws + t) == t
  {
    if ws != [] {
      assert (ws + t)[1..] == ws[1..] + t;
      TrimStartSkipsWhiteSpace(ws[1..], t);
    } else {
      assert ws + t == t;
    }
  }

  /** A numeral after its sign: the digit run `d` ends where `rest` begins. */
  lemma ParseSignedOfNumeral(sign: string, d: string, rest: string)
    requires sign == "" || sign == "+" || sign == "-"
    requires d != [] && AllDigits(d)
    requires rest == [] || !IsDigit(rest[0])
    ensures ParseSigned(sign + d + rest) ==
            Some(if sign == "-" then -DigitsValue(d) else DigitsValue(d))
  {
    var t := sign + d + rest;
    assert UnsignedPart(t) == d + rest && IsNegative(t) == (sign == "-") by {
      if sign == "" {
        assert t == d + rest && t[0] == d[0];
      } else {
        assert t[0] == sign[0] && t[1..] == d + rest;
      }
    }
    DigitPrefixStops(d, rest);
    ParseSignedOfDigits(t, d);
  }

  /** `ParseSigned` once its digit run is known. */
  lemma ParseSignedOfDigits(t: string, d: string)
    requires d != [] && DigitPrefix(UnsignedPart(t)) == d
    ensures ParseSigned(t) == Some(if IsNegative(t) then -DigitsValue(d) else DigitsValue(d))
  {
  }

  /** The characterisation of `parseInt(_, 10)`: white space, then an optional
      sign, then a non-empty run of digits `d` followed by anything that does not
      start with a digit, parses to the signed value of `d`. */
  lemma ParseIntOfNumeral(ws: string, sign: string, d: string, rest: string)
    requires AllWhiteSpace(ws)
    requires sign == "" || sign == "+" || sign == "-"
    requires d != [] && AllDigits(d)
    requires rest == [] || !IsDigit(rest[0])
    ensures ParseInt(ws + sign + d + rest) ==
            Some(if sign == "-" then -DigitsValue(d) else DigitsValue(d))
  {
    var t := sign + d + rest;
    assert ws + sign + d + rest == ws + t;
    assert t[0] == if sign == "" then d[0] else sign[0];
    TrimStartSkipsWhiteSpace(ws, t);
    ParseSignedOfNumeral(sign, d, rest);
  }

  /** Without a digit after the white space and sign, `parseInt` gives `NaN`. */
  lemma ParseIntWithoutDigits(ws: string, sign: string, rest: string)
    requires AllWhiteSpace(ws)
    requires sign == "" || sign == "+" || sign == "-"
    requires rest == [] || !IsDigit(rest[0])
    requires sign == "" ==> rest == [] || (!IsJsWhiteSpace(rest[0]) && rest[0] != '+' && rest[0] != '-')
    ensures ParseInt(ws + sign + rest) == None
  {
    var t := sign + rest;
    assert ws + sign + rest == ws + t;
    if sign != "" {
      assert t[0] == sign[0] && t[1..] == rest;
    } else {
      assert t == rest;
    }
    TrimStartSkipsWhiteSpace(ws, t);
  }

  /** A bare run of digits parses to its value. */
  lemma ParseIntOfDigits(d: string)
    requires d != [] && AllDigits(d)
    ensures ParseInt(d) == Some(DigitsValue(d))
  {
    assert "" + "" + d + "" == d;
    ParseIntOfNumeral("", "", d, "");
  }

  /** A minus sign and a run of digits parse to the negated value. */
  lemma ParseIntOfNegatedDigits(d: string)
    requires d != [] && AllDigits(d)
    ensures ParseInt("-" + d) == Some(-DigitsValue(d))
  {
    assert "" + "-" + d + "" == "-" + d;
    ParseIntOfNumeral("", "-", d, "");
  }

  /** `parseInt` reads back the digits of a natural number. */
  lemma ParseIntOfNatToDecimal(m: nat)
    ensures ParseInt(NatToDecimal(m)) == Some(m)
  {
    DigitsValueOfNatToDecimal(m);
    ParseIntOfDigits(NatToDecimal(m));
  }

  /** `parseInt` reads back a minus sign and the digits of a natural number. */
  lemma ParseIntOfNegatedNatToDecimal(m: nat)
    ensures ParseInt("-" + NatToDecimal(m)) == Some(-(m as int))
  {
    DigitsValueOfNatToDecimal(m);
    ParseIntOfNegatedDigits(NatToDecimal(m));
  }

  /** `parseInt` reads back the decimal rendering of every integer. */
  lemma ParseIntOfIntToDecimal(n: int)
    ensures ParseInt(IntToDecimal(n)) == Some(n)
  {
    if n < 0 {
      ParseIntOfNegatedNatToDecimal(-n);
    } else {
      ParseIntOfNatToDecimal(n);
    }
  }

  /** Round trip through both coercions for every non-zero integer. */
  lemma CoerceRoundTrip(n: int)
    requires n != 0
    ensures CoerceToNumber(Str(CoerceToString(Num(n)))) == Some(n)
  {
    ParseIntOfIntToDecimal(n);
  }

  /** Zero is the exception: it is falsy, becomes `''`, and `''` parses to `NaN`. */
  lemma ZeroDoesNotRoundTrip()
    ensures CoerceToString(Num(0)) == ""
    ensures CoerceToNumber(Str(CoerceToString(Num(0)))) == None
  {
  }
}
