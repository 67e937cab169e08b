/** The two JavaScript number/text conversions the admin pages use: a template
    literal `${n}` of a non-negative integer, and `parseInt(s) || 0`. */
module Text {
  import opened Outcomes

  predicate IsDigit(c: char) {
    '0' <= c <= '9'
  }

  predicate AllDigits(s: string) {
    forall i :: 0 <= i < |s| ==> IsDigit(s[i])
  }

  function DigitChar(d: nat): (c: char)
    requires d < 10
    ensures IsDigit(c)
  {
    (('0' as int) + d) as char
  }

  function DigitValue(c: char): (d: nat)
    requires IsDigit(c)
    ensures d < 10
  {
    (c as int) - ('0' as int)
  }

  /** The decimal rendering of `n` (what `${Date.now()}` writes): only digits,
      never empty, and no leading zero unless `n` is zero. */
  function DecimalString(n: nat): (s: string)
    ensures |s| >= 1 && AllDigits(s)
    ensures s[0] == '0' ==> n == 0
    decreases n
  {
    if n < 10 then [DigitChar(n)] else DecimalString(n / 10) + [DigitChar(n % 10)]
  }

  /** The value of a string of decimal digits, read most significant first. */
  function DigitsValue(s: string): nat
    requires AllDigits(s)
  {
    if s == [] then 0 else DigitsValue(s[..|s| - 1]) * 10 + DigitValue(s[|s| - 1])
  }

  /** Reading back the decimal rendering of `n` gives `n`. */
  lemma {:induction false} DigitsValueOfDecimal(n: nat)
    ensures DigitsValue(DecimalString(n)) == n
    decreases n
  {
    var s := DecimalString(n);
    if n < 10 {
      assert s[..|s| - 1] == [];
    } else {
      assert s[..|s| - 1] == DecimalString(n / 10);
      DigitsValueOfDecimal(n / 10);
    }
  }

  /** The characters JavaScript's parseInt skips before the number
      (the ASCII part of its StrWhiteSpaceChar set). */
  predicate IsSpace(c: char) {
    c == ' ' || c == '\t' || c == '\n' || c == '\r' || c == '\U{000B}' || c == '\U{000C}'
  }

  function TrimStart(s: string): (r: string)
    ensures r == [] || !IsSpace(r[0])
    ensures |r| <= |s| && r == s[|s| - |r|..]
  {
    if s != [] && IsSpace(s[0]) then TrimStart(s[1..]) else s
  }

  /** The longest prefix of `s` made of decimal digits. */
  function LeadingDigits(s: string): (d: string)
    ensures d <= s && AllDigits(d)
    ensures |d| < |s| ==> !IsDigit(s[|d|])
  {
    if s != [] && IsDigit(s[0]) then [s[0]] + LeadingDigits(s[1..]) else []
  }

  /** JavaScript's parseInt with no radix on a string that carries no "0x" prefix:
      skip leading white space, read an optional sign, then the longest run of
      decimal digits; no digits at all is NaN (here None). */
  function ParseInt(s: string): Option<int> {
    ParseSigned(TrimStart(s))
  }

  /** parseInt after the white space: an optional sign, then the digits. */
  function ParseSigned(t: string): Option<int> {
    if t != [] && t[0] == '-' then Negate(ParseDigits(t[1..]))
    else if t != [] && t[0] == '+' then ParseDigits(t[1..])
    else ParseDigits(t)
  }

  /** The value of the leading digits, or None when there are none. */
  function ParseDigits(body: string): Option<int> {
    var digits := LeadingDigits(body);
    if digits == [] then None else Some(DigitsValue(digits))
  }

  function Negate(v: Option<int>): Option<int> {
    match v
    case None => None
    case Some(x) => Some(-x)
  }

  /** `parseInt(s) || 0`: NaN (and zero) become 0.
      A string without any digit, the empty string included, gives 0. */
  function ParseOrZero(s: string): (n: int)
    ensures (forall i :: 0 <= i < |s| ==> !IsDigit(s[i])) ==> n == 0
  {
    match ParseInt(s)
    case None => 0
    case Some(v) => v
  }

  /** A string of digits is its own longest digit prefix. */
  lemma {:induction false} LeadingDigitsOfDigits(s: string)
    requires AllDigits(s)
    ensures LeadingDigits(s) == s
  {
    if s != [] {
      LeadingDigitsOfDigits(s[1..]);
    }
  }

  /** The decimal rendering of `n` reads back as `n`. */
  lemma ParseDigitsOfDecimal(n: nat)
    ensures ParseDigits(DecimalString(n)) == Some(n)
  {
    LeadingDigitsOfDigits(DecimalString(n));
    DigitsValueOfDecimal(n);
  }

  lemma TrimStartNoSpace(s: string)
    requires s != [] && !IsSpace(s[0])
    ensures TrimStart(s) == s
  {
  }

  /** `parseInt` reads back what `${n}` writes. */
  lemma ParseOrZeroOfDecimal(n: nat)
    ensures ParseOrZero(DecimalString(n)) == n
  {
    var s := DecimalString(n);
    TrimStartNoSpace(s);
    ParseDigitsOfDecimal(n);
    assert ParseSigned(s) == ParseDigits(s);
  }

  /** ... and with a minus sign in front, the negated value. */
  lemma ParseOrZeroOfNegatedDecimal(n: nat)
    ensures ParseOrZero("-" + DecimalString(n)) == -(n as int)
  {
    var s := DecimalString(n);
    var m := "-" + s;
    TrimStartNoSpace(m);
    assert m[0] == '-' && m[1..] == s;
    ParseDigitsOfDecimal(n);
    assert ParseSigned(m) == Negate(ParseDigits(s));
  }
}
