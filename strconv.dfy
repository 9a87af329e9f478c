/** Decimal rendering of unsigned identifiers, as Go's strconv.FormatUint(n, 10)
    produces it, with the parser that inverts it. Identifiers throughout the
    envoy layer are compared as these decimal strings. */
module Strconv {

  predicate IsDigit(c: char) {
    '0' <= c <= '9'
  }

  predicate IsDigits(s: string) {
    forall i :: 0 <= i < |s| ==> IsDigit(s[i])
  }

  function Digit(d: nat): (c: char)
    requires d < 10
    ensures IsDigit(c)
  {
    ('0' as int + d) as char
  }

  function DigitValue(c: char): (d: nat)
    requires IsDigit(c)
    ensures d < 10
  {
    c as int - '0' as int
  }

  /** strconv.FormatUint(n, 10): never empty, only digits, no leading zero. */
  function FormatUint(n: nat): (s: string)
    ensures |s| > 0 && IsDigits(s)
    ensures |s| > 1 ==> s[0] != '0'
    ensures s[0] == '0' ==> n == 0
    decreases n
  {
    if n < 10 then [Digit(n)] else FormatUint(n / 10) + [Digit(n % 10)]
  }

  /** The value of a string of decimal digits. */
  function ParseUint(s: string): nat
    requires IsDigits(s)
    decreases |s|
  {
    if s == [] then 0 else ParseUint(s[..|s| - 1]) * 10 + DigitValue(s[|s| - 1])
  }

  lemma {:induction false} ParseFormatUint(n: nat)
    ensures ParseUint(FormatUint(n)) == n
  {
    if n >= 10 {
      var s := FormatUint(n);
      assert s[..|s| - 1] == FormatUint(n / 10);
      ParseFormatUint(n / 10);
    }
  }

  /** Two identifiers render to the same decimal string only when they are equal. */
  lemma FormatUintInjective(a: nat, b: nat)
    requires FormatUint(a) == FormatUint(b)
    ensures a == b
  {
    ParseFormatUint(a);
    ParseFormatUint(b);
  }
}
