/**
 * Decimal rendering of non-negative integers, as Python's str() does it for
 * the retention count and the block counter, and a reader that recovers the
 * number from its digits.
 */
module Decimal {
  import opened Wrappers

  predicate IsDigit(c: char) {
    '0' <= c <= '9'
  }

  predicate AllDigits(s: string) {
    forall k | 0 <= k < |s| :: IsDigit(s[k])
  }

  function DigitChar(d: nat): (c: char)
    requires d < 10
    ensures IsDigit(c) && c as int - '0' as int == d
  {
    (('0' as int) + d) as char
  }

  /** str(n) for n >= 0: the shortest run of decimal digits, no leading zero. */
  function DecimalOf(n: nat): (s: string)
    ensures |s| >= 1 && AllDigits(s)
    ensures (s[0] == '0') <==> n == 0
    ensures n == 0 ==> s == "0"
    decreases n
  {
    if n < 10 then [DigitChar(n)] else DecimalOf(n / 10) + [DigitChar(n % 10)]
  }

  /** The value of a run of decimal digits, read most significant first. */
  function DigitsValue(s: string): nat
    requires AllDigits(s)
    decreases |s|
  {
    if s == [] then 0
    else DigitsValue(s[..|s| - 1]) * 10 + (s[|s| - 1] as int - '0' as int)
  }

  /** Reads a decimal numeral back; anything that is not one yields None. */
  function ParseDecimal(s: string): (r: Option<nat>)
    ensures r.Some? <==> |s| >= 1 && AllDigits(s)
  {
    if |s| >= 1 && AllDigits(s) then Some(DigitsValue(s)) else None
  }

  /** Reading back what DecimalOf wrote gives the number again. */
  lemma {:induction false} ParseDecimalOf(n: nat)
    ensures ParseDecimal(DecimalOf(n)) == Some(n)
    decreases n
  {
    var s := DecimalOf(n);
    if n < 10 {
      assert s[..0] == [];
      assert DigitsValue(s) == DigitsValue(s[..0]) * 10 + n;
    } else {
      ParseDecimalOf(n / 10);
      assert s[..|s| - 1] == DecimalOf(n / 10);
      assert DigitsValue(s) == DigitsValue(DecimalOf(n / 10)) * 10 + n % 10;
    }
  }

  /** Distinct numbers are written differently. */
  lemma DecimalOfInjective(m: nat, n: nat)
    requires DecimalOf(m) == DecimalOf(n)
    ensures m == n
  {
    ParseDecimalOf(m);
    ParseDecimalOf(n);
  }
}
