/**
 * The JavaScript number routines the plugin relies on, on exact integers and
 * reals: `Math.round`, `parseInt(s, 10)`, `Number.prototype.toString` for
 * non-negative integers, `toFixed(1)` and the "integer, else one decimal"
 * display used in the usage message (src/index.ts:59, 68-69, 182-184).
 */
module Numbers {
  import opened Wrappers

  // ---------------------------------------------------------------- rounding

  /** `Math.round`: the nearest integer, halves rounding toward +infinity. */
  function JsRound(x: real): (r: int)
    ensures r as real - 0.5 <= x < r as real + 0.5
  {
    (x + 0.5).Floor
  }

  lemma {:induction false} JsRoundMonotone(x: real, y: real)
    requires x <= y
    ensures JsRound(x) <= JsRound(y)
  {
  }

  // ------------------------------------------------------------------ digits

  predicate IsDigit(c: char) {
    '0' <= c <= '9'
  }

  predicate AllDigits(s: string) {
    forall i | 0 <= i < |s| :: IsDigit(s[i])
  }

  function DigitChar(d: nat): (c: char)
    requires d < 10
    ensures IsDigit(c)
  {
    ('0' as int + d) as char
  }

  function DigitValue(c: char): (d: nat)
    requires IsDigit(c)
    ensures d < 10 && DigitChar(d) == c
  {
    c as int - '0' as int
  }

  /** The value of a run of decimal digits, read most significant first. */
  function DigitsValue(ds: string): nat
    requires AllDigits(ds)
  {
    if ds == [] then 0 else 10 * DigitsValue(ds[..|ds| - 1]) + DigitValue(ds[|ds| - 1])
  }

  /**
   * `String(n)` for a non-negative integer: its decimal digits, without
   * leading zeros.
   */
  function DecimalString(n: nat): (s: string)
    ensures s != [] && AllDigits(s)
    ensures s[0] == '0' ==> n == 0 && s == "0"
  {
    if n < 10 then [DigitChar(n)] else DecimalString(n / 10) + [DigitChar(n % 10)]
  }

  /** Reading the digits of `DecimalString(n)` gives `n` back. */
  lemma {:induction false} DecimalStringValue(n: nat)
    ensures DigitsValue(DecimalString(n)) == n
  {
    if n >= 10 {
      var s := DecimalString(n);
      assert s[..|s| - 1] == DecimalString(n / 10);
      DecimalStringValue(n / 10);
    }
  }

  // ---------------------------------------------------------------- parseInt

  /**
   * The characters `parseInt` trims from the front: ECMAScript's WhiteSpace
   * (TAB, VT, FF, ZWNBSP and the Unicode space separators) and
   * LineTerminator (LF, CR, LS, PS).
   */
  predicate IsJsWhiteSpace(c: char) {
    c == '\t' || c == '\n' || c == '\U{000B}' || c == '\U{000C}' || c == '\r'
    || c == ' ' || c == '\U{00A0}' || c == '\U{1680}'
    || ('\U{2000}' <= c <= '\U{200A}')
    || c == '\U{2028}' || c == '\U{2029}' || c == '\U{202F}' || c == '\U{205F}'
    || c == '\U{3000}' || c == '\U{FEFF}'
  }

  predicate AllWhiteSpace(s: string) {
    forall i | 0 <= i < |s| :: IsJsWhiteSpace(s[i])
  }

  /** The string with its leading white space removed. */
  function TrimStart(s: string): (r: string)
    ensures |r| <= |s| && r == s[|s| - |r|..]
    ensures AllWhiteSpace(s[..|s| - |r|])
    ensures r == [] || !IsJsWhiteSpace(r[0])
  {
    if s != [] && IsJsWhiteSpace(s[0]) then TrimStart(s[1..]) else s
  }

  /** The length of the run of decimal digits at the front of `s`. */
  function LeadingDigits(s: string): (n: nat)
    ensures n <= |s| && AllDigits(s[..n])
    ensures n == |s| || !IsDigit(s[n])
  {
    if s != [] && IsDigit(s[0]) then
      assert forall i | 1 <= i < 1 + LeadingDigits(s[1..]) :: s[i] == s[1..][i - 1];
      1 + LeadingDigits(s[1..])
    else 0
  }

  /**
   * `parseInt(s, 10)`: skip leading white space, take an optional sign,
   * then the longest run of decimal digits; anything after it is ignored.
   * `None` is NaN (no digit where one is needed). The sign of a zero is
   * dropped: `-0` is `Some(0)`, which no caller here can tell from `+0`.
   */
  function ParseInt(s: string): (r: Option<int>)
    ensures AllWhiteSpace(s) ==> r.None?
    ensures r.Some? && r.value < 0 ==> TrimStart(s)[0] == '-'
  {
    ParseSigned(TrimStart(s))
  }

  /** `parseInt` on text whose leading white space is already gone. */
  function ParseSigned(t: string): (r: Option<int>)
    // A number starts with a digit, or with a sign directly followed by one.
    ensures r.Some? ==> t != [] && (IsDigit(t[0]) || ((t[0] == '-' || t[0] == '+') && |t| > 1 && IsDigit(t[1])))
    ensures r.Some? && r.value < 0 ==> t[0] == '-'
  {
    if t != [] && t[0] == '-' then
      match ParseDigits(t[1..])
      case None => None
      case Some(magnitude) => Some(-magnitude)
    else if t != [] && t[0] == '+' then ParseDigits(t[1..])
    else ParseDigits(t)
  }

  /** The leading run of digits, if there is one, as a number. */
  function ParseDigits(body: string): (r: Option<int>)
    ensures r.Some? <==> body != [] && IsDigit(body[0])
    ensures r.Some? ==> r.value >= 0
  {
    var n := LeadingDigits(body);
    if n == 0 then None else Some(DigitsValue(body[..n]))
  }

  lemma {:induction false} TrimStartAfterWhiteSpace(lead: string, rest: string)
    requires AllWhiteSpace(lead)
    requires rest == [] || !IsJsWhiteSpace(rest[0])
    ensures TrimStart(lead + rest) == rest
  {
    if lead != [] {
      assert (lead + rest)[1..] == lead[1..] + rest;
      TrimStartAfterWhiteSpace(lead[1..], rest);
    }
  }

  lemma {:induction false} LeadingDigitsOfRun(ds: string, tail: string)
    requires AllDigits(ds)
    requires tail == [] || !IsDigit(tail[0])
    ensures LeadingDigits(ds + tail) == |ds|
  {
    if ds != [] {
      assert (ds + tail)[1..] == ds[1..] + tail;
      LeadingDigitsOfRun(ds[1..], tail);
    }
  }

  /**
   * `parseInt` reads back what `String(n)` wrote, whatever white space
   * precedes it, whatever sign is written, and whatever non-digit text
   * follows it.
   */
  lemma {:induction false} ParseIntOfNumeral(lead: string, sign: string, n: nat, tail: string)
    requires AllWhiteSpace(lead)
    requires sign == "" || sign == "+" || sign == "-"
    requires tail == [] || !IsDigit(tail[0])
    ensures ParseInt(lead + sign + DecimalString(n) + tail)
         == Some(if sign == "-" then -(n as int) else n)
  {
    var ds := DecimalString(n);
    var body := ds + tail;
    var rest := sign + body;
    assert lead + sign + ds + tail == lead + rest;
    assert body[0] == ds[0];
    assert !IsJsWhiteSpace(rest[0]) by {
      assert rest[0] == if sign == "" then ds[0] else sign[0];
    }
    TrimStartAfterWhiteSpace(lead, rest);
    assert ParseInt(lead + rest) == ParseSigned(rest);
    ParseSignedOfSign(sign, body);
    ParseDigitsOfRun(ds, tail);
    DecimalStringValue(n);
  }

  /** The sign only decides whether the digits' value is negated. */
  lemma {:induction false} ParseSignedOfSign(sign: string, body: string)
    requires sign == "" || sign == "+" || sign == "-"
    requires body != [] && IsDigit(body[0])
    ensures ParseSigned(sign + body)
         == if sign == "-" && ParseDigits(body).Some? then Some(-ParseDigits(body).value) else ParseDigits(body)
  {
    var t := sign + body;
    if sign == "" {
      assert t == body;
    } else {
      assert t[0] == sign[0] && t[1..] == body;
    }
  }

  /** A run of digits followed by a non-digit (or nothing) reads as its value. */
  lemma {:induction false} ParseDigitsOfRun(ds: string, tail: string)
    requires ds != [] && AllDigits(ds)
    requires tail == [] || !IsDigit(tail[0])
    ensures ParseDigits(ds + tail) == Some(DigitsValue(ds))
  {
    LeadingDigitsOfRun(ds, tail);
    assert (ds + tail)[..|ds|] == ds;
  }

  /** `parseInt(String(n))` is `n`. */
  lemma {:induction false} ParseIntOfDecimal(n: nat)
    ensures ParseInt(DecimalString(n)) == Some(n)
  {
    var ds := DecimalString(n);
    assert TrimStart(ds) == ds;
    assert ParseSigned(ds) == ParseDigits(ds);
    ParseDigitsOfRun(ds, "");
    assert ds + "" == ds;
    DecimalStringValue(n);
  }

  /** `parseInt` yields NaN when no digit follows the white space and sign. */
  lemma {:induction false} ParseIntNaN(lead: string, sign: string, tail: string)
    requires AllWhiteSpace(lead)
    requires sign == "" || sign == "+" || sign == "-"
    requires tail == [] || (!IsDigit(tail[0]) && !IsJsWhiteSpace(tail[0]) && (sign == "" ==> tail[0] != '+' && tail[0] != '-'))
    ensures ParseInt(lead + sign + tail) == None
  {
    var rest := sign + tail;
    assert lead + sign + tail == lead + rest;
    TrimStartAfterWhiteSpace(lead, rest);
    assert sign != "" ==> rest[1..] == tail;
  }

  // ----------------------------------------------------------------- display

  /**
   * `x.toFixed(1)` for `x >= 0`: the integer `n` nearest to `10 * x` (the
   * larger one on a tie), written with one digit after the point.
   */
  function ToFixed1(x: real): (r: string)
    requires x >= 0.0
    ensures |r| >= 3 && r[|r| - 2] == '.'
    ensures AllDigits(r[..|r| - 2]) && IsDigit(r[|r| - 1])
    // No leading zero in the integer part.
    ensures r[0] == '0' ==> |r| == 3
    // The digits denote the integer nearest to ten times `x`.
    ensures 10 * DigitsValue(r[..|r| - 2]) + DigitValue(r[|r| - 1]) == JsRound(10.0 * x)
  {
    var n := JsRound(10.0 * x);
    var r := DecimalString(n / 10) + "." + [DigitChar(n % 10)];
    assert r[..|r| - 2] == DecimalString(n / 10);
    DecimalStringValue(n / 10);
    r
  }

  predicate IsIntegral(x: real) {
    x == x.Floor as real
  }

  /**
   * The display of a non-negative number in the usage message: the bare
   * integer when `Number.isInteger` holds, else `toFixed(1)`.
   */
  function Display(x: real): (r: string)
    requires x >= 0.0
    ensures r != []
    ensures forall i | 0 <= i < |r| :: IsDigit(r[i]) || r[i] == '.'
    ensures IsIntegral(x) <==> AllDigits(r)
    // No leading zero: a zero first is the number 0 or the integer part of `0.d`.
    ensures r[0] == '0' ==> r == "0" || (|r| == 3 && r[1] == '.')
    // At most one point, and only before the last digit.
    ensures forall i | 0 <= i < |r| && r[i] == '.' :: i == |r| - 2
    ensures IsIntegral(x) ==> AllDigits(r) && DigitsValue(r) as real == x
    ensures !IsIntegral(x) ==>
              |r| >= 3 && AllDigits(r[..|r| - 2]) && IsDigit(r[|r| - 1]) &&
              10 * DigitsValue(r[..|r| - 2]) + DigitValue(r[|r| - 1]) == JsRound(10.0 * x)
  {
    if IsIntegral(x) then
      DecimalStringValue(x.Floor);
      DecimalString(x.Floor)
    else
      ToFixed1(x)
  }

  /** An integral display reads back, through `parseInt`, as the same number. */
  lemma {:induction false} DisplayOfIntegerRoundTrip(n: nat)
    ensures Display(n as real) == DecimalString(n)
    ensures ParseInt(Display(n as real)) == Some(n)
  {
    ParseIntOfDecimal(n);
  }
}
