/** Decimal rendering of a Kotlin `Int`, as produced by a string template
    such as `"UNKNOWN_$eventType"`, and the parser that inverts it. */
module Decimal {
  import opened Jvm

  predicate IsDigit(c: char) {
    '0' <= c <= '9'
  }

  function DigitChar(d: int): (c: char)
    requires 0 <= d < 10
    ensures IsDigit(c) && c as int - '0' as int == d
  {
    ('0' as int + d) as char
  }

  function DigitValue(c: char): int
    requires IsDigit(c)
  {
    c as int - '0' as int
  }

  /** A non-empty run of digits with no superfluous leading zero. */
  predicate IsCanonicalDigits(s: string) {
    && |s| > 0
    && (forall i | 0 <= i < |s| :: IsDigit(s[i]))
    && (|s| > 1 ==> s[0] != '0')
  }

  /** What `Integer.toString` produces: canonical digits, with a leading
      minus sign exactly for negative numbers (so never "-0"). */
  predicate IsCanonicalDecimal(s: string) {
    || IsCanonicalDigits(s)
    || (|s| > 1 && s[0] == '-' && IsCanonicalDigits(s[1..]) && s[1..] != "0")
  }

  function NatToDecimal(n: nat): (s: string)
    ensures IsCanonicalDigits(s)
    ensures n == 0 <==> s == "0"
    decreases n
  {
    if n < 10 then [DigitChar(n)]
    else NatToDecimal(n / 10) + [DigitChar(n % 10)]
  }

  /** `Integer.toString(n)`, the text a Kotlin string template inserts for `$n`. */
  function IntToDecimal(n: int): (s: string)
    ensures IsCanonicalDecimal(s)
    ensures n < 0 <==> s[0] == '-'
  {
    if n < 0 then "-" + NatToDecimal(-n) else NatToDecimal(n)
  }

  /** Reads a non-empty run of digits, most significant first. */
  function ParseDigits(s: string): (r: Option<nat>)
    ensures r.Some? <==> |s| > 0 && forall i | 0 <= i < |s| :: IsDigit(s[i])
    decreases |s|
  {
    if |s| == 0 || !IsDigit(s[|s| - 1]) then None
    else if |s| == 1 then Some(DigitValue(s[0]))
    else match ParseDigits(s[..|s| - 1])
      case None => None
      case Some(v) => Some(v * 10 + DigitValue(s[|s| - 1]))
  }

  /** Reads an optionally negative decimal integer. */
  function ParseInt(s: string): Option<int> {
    if |s| > 0 && s[0] == '-' then
      match ParseDigits(s[1..])
      case None => None
      case Some(v) => Some(0 - v as int)
    else
      match ParseDigits(s)
      case None => None
      case Some(v) => Some(v)
  }

  lemma {:induction false} ParseNatToDecimal(n: nat)
    ensures ParseDigits(NatToDecimal(n)) == Some(n)
    decreases n
  {
    if n >= 10 {
      var s := NatToDecimal(n);
      var prefix := NatToDecimal(n / 10);
      assert s == prefix + [DigitChar(n % 10)];
      assert s[..|s| - 1] == prefix;
      ParseNatToDecimal(n / 10);
    }
  }

  /** The rendering loses nothing: parsing it gives back the number. */
  lemma ParseIntToDecimal(n: int)
    ensures ParseInt(IntToDecimal(n)) == Some(n)
  {
    if n < 0 {
      ParseNatToDecimal(-n);
      assert IntToDecimal(n)[1..] == NatToDecimal(-n);
    } else {
      ParseNatToDecimal(n);
    }
  }

  /** Distinct numbers render as distinct texts. */
  lemma IntToDecimalInjective(m: int, n: int)
    requires IntToDecimal(m) == IntToDecimal(n)
    ensures m == n
  {
    ParseIntToDecimal(m);
    ParseIntToDecimal(n);
  }
}
