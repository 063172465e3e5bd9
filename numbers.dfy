/**
 * The JavaScript numbers the credit store holds, and the two conversions it
 * uses to keep its balance in local storage: `toString()` and
 * `parseInt(s, 10)`.
 */
module Numbers {
  import opened Wrappers

  /** A JavaScript number that is an integer, or `NaN`. */
  datatype Number = Int(value: int) | NaN

  predicate IsDigit(c: char) { '0' <= c <= '9' }

  /** The leading characters `parseInt` skips: space, tab, LF, VT, FF and CR (JavaScript also skips other Unicode white space). */
  predicate IsSpace(c: char) { c == ' ' || c == '\t' || c == '\n' || c == '\U{0B}' || c == '\U{0C}' || c == '\r' }

  predicate AllDigits(s: string) { forall i :: 0 <= i < |s| ==> IsDigit(s[i]) }

  function DigitValue(c: char): (d: nat)
    requires IsDigit(c)
    ensures d < 10
  {
    (c as int) - ('0' as int)
  }

  function DigitChar(d: nat): (c: char)
    requires d < 10
    ensures IsDigit(c) && DigitValue(c) == d
  {
    ('0' as int + d) as char
  }

  /** The decimal digits of `n`, most significant first, without leading zeros. */
  function NatDigits(n: nat): (s: string)
    ensures 1 <= |s| && AllDigits(s)
    ensures s[0] == '0' ==> n == 0
    decreases n
  {
    if n < 10 then [DigitChar(n)] else NatDigits(n / 10) + [DigitChar(n % 10)]
  }

  /** `n.toString()` for an integer `n`. */
  function ToDecimal(n: int): (s: string)
    ensures 1 <= |s|
    ensures n < 0 <==> s[0] == '-'
    ensures n >= 0 ==> IsDigit(s[0])
  {
    if n < 0 then "-" + NatDigits(-n) else NatDigits(n)
  }

  /** The number a string of decimal digits denotes. */
  function DigitsValue(s: string): nat
    requires AllDigits(s)
    decreases |s|
  {
    if s == [] then 0 else DigitsValue(s[..|s| - 1]) * 10 + DigitValue(s[|s| - 1])
  }

  /** How many characters at the front of `s` are digits. */
  function LeadingDigits(s: string): (k: nat)
    ensures k <= |s| && AllDigits(s[..k])
    ensures k < |s| ==> !IsDigit(s[k])
  {
    if s == [] || !IsDigit(s[0]) then 0 else 1 + LeadingDigits(s[1..])
  }

  function TrimStart(s: string): (t: string)
    ensures t == [] || !IsSpace(t[0])
  {
    if s != [] && IsSpace(s[0]) then TrimStart(s[1..]) else s
  }

  /** The value of the longest run of digits at the front of `u`, if there is one. */
  function LeadingNumber(u: string): (r: Option<nat>)
    ensures r.Some? <==> u != [] && IsDigit(u[0])
  {
    var k := LeadingDigits(u);
    if k == 0 then None else Some(DigitsValue(u[..k]))
  }

  /** `t` without its one leading sign, if it has one. */
  function Unsigned(t: string): string
  {
    if t != [] && (t[0] == '-' || t[0] == '+') then t[1..] else t
  }

  /**
   * `parseInt(s, 10)`: skip leading white space, read one optional sign,
   * then the longest run of digits; anything after that run is ignored.
   * Without a digit there, the answer is `NaN`.
   */
  function ParseInt(s: string): (r: Number)
    ensures r.NaN? <==> Unsigned(TrimStart(s)) == [] || !IsDigit(Unsigned(TrimStart(s))[0])
    ensures r.Int? && r.value < 0 ==> TrimStart(s)[0] == '-'
  {
    ParseSigned(TrimStart(s))
  }

  /** `parseInt` once the white space is skipped. */
  function ParseSigned(t: string): Number
  {
    if t != [] && t[0] == '-' then
      match LeadingNumber(t[1..])
      case None => NaN
      case Some(v) => Int(0 - v as int)
    else if t != [] && t[0] == '+' then
      match LeadingNumber(t[1..])
      case None => NaN
      case Some(v) => Int(v)
    else
      match LeadingNumber(t)
      case None => NaN
      case Some(v) => Int(v)
  }

  /** `n.toString()`. */
  function NumberToString(n: Number): (s: string)
    ensures s != ""
    ensures s == "NaN" <==> n.NaN?
  {
    match n
    case Int(v) => ToDecimal(v)
    case NaN => "NaN"
  }

  lemma {:induction false} NatDigitsValue(n: nat)
    ensures DigitsValue(NatDigits(n)) == n
    decreases n
  {
    var s := NatDigits(n);
    if n >= 10 {
      NatDigitsValue(n / 10);
      assert s[..|s| - 1] == NatDigits(n / 10);
    }
  }

  lemma {:induction false} LeadingDigitsOfDigits(s: string, tail: string)
    requires AllDigits(s)
    requires tail == [] || !IsDigit(tail[0])
    ensures LeadingDigits(s + tail) == |s|
    decreases |s|
  {
    if s != [] {
      assert (s + tail)[1..] == s[1..] + tail;
      LeadingDigitsOfDigits(s[1..], tail);
    } else {
      assert s + tail == tail;
    }
  }

  lemma LeadingNumberOfDigits(digits: string, tail: string)
    requires 1 <= |digits| && AllDigits(digits)
    requires tail == [] || !IsDigit(tail[0])
    ensures LeadingNumber(digits + tail) == Some(DigitsValue(digits))
  {
    LeadingDigitsOfDigits(digits, tail);
    assert (digits + tail)[..|digits|] == digits;
  }

  lemma ParseNonNegative(m: nat, tail: string)
    requires tail == [] || !IsDigit(tail[0])
    ensures ParseInt(NatDigits(m) + tail) == Int(m)
  {
    var digits := NatDigits(m);
    NatDigitsValue(m);
    LeadingNumberOfDigits(digits, tail);
    var s := digits + tail;
    assert s[0] == digits[0];
    assert TrimStart(s) == s;
    assert ParseSigned(s) == Int(m);
  }

  lemma TrimStartNoSpace(s: string)
    requires s != [] && !IsSpace(s[0])
    ensures TrimStart(s) == s
  {
  }

  lemma ParseNegative(m: nat, tail: string)
    requires tail == [] || !IsDigit(tail[0])
    ensures ParseInt("-" + NatDigits(m) + tail) == Int(0 - m as int)
  {
    var digits := NatDigits(m);
    var u := digits + tail;
    var s := "-" + u;
    assert "-" + digits + tail == s;
    NatDigitsValue(m);
    LeadingNumberOfDigits(digits, tail);
    assert s[1..] == u;
    TrimStartNoSpace(s);
    assert ParseSigned(s) == Int(0 - m as int);
  }

  /**
   * Reading back what `toString` wrote gives the same integer, even when
   * other text that does not start with a digit follows it.
   */
  lemma ParseToDecimal(n: int, tail: string)
    requires tail == [] || !IsDigit(tail[0])
    ensures ParseInt(ToDecimal(n) + tail) == Int(n)
  {
    if n < 0 {
      ParseNegative(-n, tail);
    } else {
      ParseNonNegative(n, tail);
    }
  }

  /** Whatever number `toString` wrote, `parseInt` reads back the same one. */
  lemma ParseNumberToString(n: Number)
    ensures ParseInt(NumberToString(n)) == n
  {
    match n
    case Int(v) =>
      ParseToDecimal(v, "");
      assert ToDecimal(v) + "" == ToDecimal(v);
    case NaN =>
      assert TrimStart("NaN") == "NaN";
  }
}
