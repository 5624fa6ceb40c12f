/** The JavaScript conversions the views rely on: the global `parseInt` with no
    radix argument (section 19.2.5 of ECMA-262), the canonical decimal text of
    an integer (what `${n}` and JSX render), and truthiness as used by `!x`
    and `x || y`.  Numbers are mathematical integers: `NaN` is `None`, `-0`
    is `0`, and the loss of precision above 2^53 is not modelled. */
module Js {
  import opened Common

  // ---------------------------------------------------------------------
  // Characters

  /** ECMAScript's StrWhiteSpaceChar: WhiteSpace (tab, vertical tab, form
      feed, no-break space, byte order mark and every Zs space) and
      LineTerminator. */
  predicate IsStrWhiteSpace(c: char) {
    c == '\t' || c == '\n' || c == '\U{B}' || c == '\U{C}' || c == '\r' || c == ' '
    || c == '\U{A0}' || c == '\U{1680}' || ('\U{2000}' <= c <= '\U{200A}')
    || c == '\U{2028}' || c == '\U{2029}' || c == '\U{202F}' || c == '\U{205F}'
    || c == '\U{3000}' || c == '\U{FEFF}'
  }

  predicate IsDecimalDigit(c: char) {
    '0' <= c <= '9'
  }

  /** The value of `c` as a digit in radices up to 36, or 36 when it is not one. */
  function DigitValue(c: char): (v: int)
    ensures 0 <= v <= 36
    ensures v < 10 <==> IsDecimalDigit(c)
  {
    if '0' <= c <= '9' then c as int - '0' as int
    else if 'a' <= c <= 'z' then c as int - 'a' as int + 10
    else if 'A' <= c <= 'Z' then c as int - 'A' as int + 10
    else 36
  }

  predicate IsDigit(c: char, radix: int) {
    DigitValue(c) < radix
  }

  /** Every character of `s` is a decimal digit (vacuously so for ""). */
  predicate AllDigits(s: string) {
    forall i :: 0 <= i < |s| ==> IsDecimalDigit(s[i])
  }

  function DigitChar(d: int): (c: char)
    requires 0 <= d < 10
    ensures IsDecimalDigit(c) && DigitValue(c) == d
  {
    ('0' as int + d) as char
  }

  // ---------------------------------------------------------------------
  // Digit strings

  /** `s` without its leading white space. */
  function TrimStart(s: string): (r: string)
    ensures r == [] || !IsStrWhiteSpace(r[0])
  {
    if s != [] && IsStrWhiteSpace(s[0]) then TrimStart(s[1..]) else s
  }

  /** The length of the longest prefix of `s` made of radix-`radix` digits. */
  function DigitRun(s: string, radix: int): (k: nat)
    ensures k <= |s|
    ensures forall i :: 0 <= i < k ==> IsDigit(s[i], radix)
    ensures k == |s| || !IsDigit(s[k], radix)
  {
    if s != [] && IsDigit(s[0], radix) then 1 + DigitRun(s[1..], radix) else 0
  }

  /** The value of a digit string, most significant digit first. */
  function DigitsValue(ds: string, radix: int): int {
    if ds == [] then 0
    else DigitsValue(ds[..|ds| - 1], radix) * radix + DigitValue(ds[|ds| - 1])
  }

  /** The canonical decimal digits of `n`: no leading zero except for 0 itself. */
  function DecimalDigits(n: nat): (s: string)
    ensures |s| >= 1 && AllDigits(s)
    ensures s[0] == '0' ==> n == 0
  {
    if n < 10 then [DigitChar(n)] else DecimalDigits(n / 10) + [DigitChar(n % 10)]
  }

  /** `String(n)` for an integer `n`. */
  function DecimalText(n: int): string {
    if n < 0 then "-" + DecimalDigits(-n) else DecimalDigits(n)
  }

  // ---------------------------------------------------------------------
  // parseInt

  /** `parseInt(s)`: skip leading white space, read an optional sign, switch
      to radix 16 after a `0x` or `0X` prefix, and read the longest run of
      digits; no digit at all gives `NaN`. */
  function ParseInt(s: string): Option<int> {
    ParseSigned(TrimStart(s))
  }

  /** The sign step of `parseInt`, on text that starts with no white space. */
  function ParseSigned(t: string): Option<int> {
    if t != [] && t[0] == '-' then
      match ParseUnsigned(t[1..])
      case Some(m) => Some(-m)
      case None => None
    else if t != [] && t[0] == '+' then ParseUnsigned(t[1..])
    else ParseUnsigned(t)
  }

  /** The radix step of `parseInt`: a `0x` or `0X` prefix selects radix 16. */
  function ParseUnsigned(u: string): Option<int> {
    if |u| >= 2 && u[0] == '0' && (u[1] == 'x' || u[1] == 'X') then ParseRun(u[2..], 16)
    else ParseRun(u, 10)
  }

  /** The digit step of `parseInt`: the value of the leading run of digits. */
  function ParseRun(v: string, radix: int): Option<int> {
    var k := DigitRun(v, radix);
    if k == 0 then None else Some(DigitsValue(v[..k], radix))
  }

  // ---------------------------------------------------------------------
  // Truthiness

  /** `!!x` for a number read by `parseInt`: `NaN` and `0` are falsy. */
  predicate NumberTruthy(x: Option<int>) {
    x.Some? && x.value != 0
  }

  /** `!!s` for a string: only the empty string is falsy. */
  predicate StringTruthy(s: string) {
    s != ""
  }

  /** `x || fallback` for an optional string (`undefined`, `null` and `''` fall through). */
  function OrElse(x: Option<string>, fallback: string): (r: string)
    ensures x.Some? && StringTruthy(x.value) ==> r == x.value
    ensures !(x.Some? && StringTruthy(x.value)) ==> r == fallback
  {
    if x.Some? && x.value != "" then x.value else fallback
  }

  // ---------------------------------------------------------------------
  // Lemmas

  /** The canonical digits of `n` read back as `n`. */
  lemma {:induction false} DecimalDigitsValue(n: nat)
    ensures DigitsValue(DecimalDigits(n), 10) == n
  {
    var s := DecimalDigits(n);
    if n < 10 {
      assert s[..|s| - 1] == [];
    } else {
      DecimalDigitsValue(n / 10);
      assert s[..|s| - 1] == DecimalDigits(n / 10);
    }
  }

  /** A string of decimal digits followed by something that is not a digit
      has exactly that many leading digits. */
  lemma {:induction false} DigitRunOfDigits(ds: string, t: string)
    requires AllDigits(ds)
    requires t == [] || !IsDecimalDigit(t[0])
    ensures DigitRun(ds + t, 10) == |ds|
  {
    if ds != [] {
      assert (ds + t)[1..] == ds[1..] + t;
      DigitRunOfDigits(ds[1..], t);
    } else {
      assert ds + t == t;
    }
  }

  /** `parseInt` reads the decimal text of `n` back as `n`, whatever
      non-digit text follows it ("12.5" and "1e3" read as 12 and 1), except
      that "0" followed by "x" or "X" starts a hexadecimal number. */
  lemma ParseIntOfDecimalText(n: int, t: string)
    requires t == [] || (!IsDecimalDigit(t[0]) && !(n == 0 && (t[0] == 'x' || t[0] == 'X')))
    ensures ParseInt(DecimalText(n) + t) == Some(n)
  {
    if n < 0 {
      Associative("-", DecimalDigits(-n), t);
      ParseIntOfNegativeDigits(-n, t);
    } else {
      ParseIntOfDigits(n, t);
    }
  }

  /** The negative case of the previous lemma. */
  lemma ParseIntOfNegativeDigits(m: nat, t: string)
    requires t == [] || !IsDecimalDigit(t[0])
    requires m > 0
    ensures ParseInt("-" + (DecimalDigits(m) + t)) == Some(-(m as int))
  {
    ParseUnsignedOfDigits(m, t);
    ParseIntNegative(DecimalDigits(m) + t);
  }

  /** The non-negative case of the previous lemma. */
  lemma ParseIntOfDigits(n: nat, t: string)
    requires t == [] || (!IsDecimalDigit(t[0]) && !(n == 0 && (t[0] == 'x' || t[0] == 'X')))
    ensures ParseInt(DecimalDigits(n) + t) == Some(n)
  {
    var u := DecimalDigits(n) + t;
    ParseUnsignedOfDigits(n, t);
    assert IsDecimalDigit(u[0]);
    TrimStartWithoutSpace(u);
  }

  /** A leading minus sign negates what follows it. */
  lemma ParseIntNegative(u: string)
    ensures ParseInt("-" + u) == match ParseUnsigned(u) case Some(m) => Some(-m) case None => None
  {
    var s := "-" + u;
    TrimStartWithoutSpace(s);
    assert s[1..] == u;
  }

  /** The unsigned part of the previous lemma. */
  lemma ParseUnsignedOfDigits(m: nat, t: string)
    requires t == [] || (!IsDecimalDigit(t[0]) && !(m == 0 && (t[0] == 'x' || t[0] == 'X')))
    ensures ParseUnsigned(DecimalDigits(m) + t) == Some(m)
  {
    var d := DecimalDigits(m);
    var u := d + t;
    assert !(|u| >= 2 && u[0] == '0' && (u[1] == 'x' || u[1] == 'X')) by {
      if |u| >= 2 && u[0] == '0' {
        assert m == 0 && |d| == 1;
        assert u[1] == t[0];
      }
    }
    DigitRunOfDigits(d, t);
    assert u[..|d|] == d;
    DecimalDigitsValue(m);
  }

  /** Round trip: `parseInt(String(n)) == n`. */
  lemma ParseIntRoundTrip(n: int)
    ensures ParseInt(DecimalText(n)) == Some(n)
  {
    ParseIntOfDecimalText(n, []);
    assert DecimalText(n) + [] == DecimalText(n);
  }

  /** Leading white space does not change what `parseInt` reads. */
  lemma ParseIntSkipsWhiteSpace(c: char, s: string)
    requires IsStrWhiteSpace(c)
    ensures ParseInt([c] + s) == ParseInt(s)
  {
    assert TrimStart([c] + s) == TrimStart(s) by {
      assert ([c] + s)[1..] == s;
    }
  }

  lemma Associative(a: string, b: string, c: string)
    ensures (a + b) + c == a + (b + c)
  {
  }

  /** The two halves of a concatenation. */
  lemma Halves(p: string, x: string)
    ensures (p + x)[..|p|] == p && (p + x)[|p|..] == x
  {
  }

  /** Text that does not start with white space is left as it is. */
  lemma TrimStartWithoutSpace(s: string)
    requires s == [] || !IsStrWhiteSpace(s[0])
    ensures TrimStart(s) == s
  {
  }

  /** `String(NaN)`, and whatever follows it, reads back as `NaN`. */
  lemma NaNReadsAsNaN(t: string)
    ensures ParseInt("NaN" + t) == None
  {
    ParseIntWithoutDigits("NaN" + t);
  }

  /** Text with no digit after the optional sign is `NaN`. */
  lemma ParseIntWithoutDigits(s: string)
    requires s == [] || (!IsDigit(s[0], 10) && s[0] != '-' && s[0] != '+' && !IsStrWhiteSpace(s[0]))
    ensures ParseInt(s) == None
  {
    TrimStartWithoutSpace(s);
  }
}
