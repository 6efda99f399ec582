/**
 * The one-time verification code of sign-up (src/app/api/sign-up/route.ts:20):
 * an integer in 100000..999999 turned into a string by `Number.prototype.toString`.
 * The random draw itself is an input of the model.
 */
module VerifyCodes {

  /** The integers `Math.floor(100000 + Math.random() * 900000)` can produce. */
  type SixDigit = n: int | 100000 <= n <= 999999 witness 100000

  predicate IsDigit(c: char)
  {
    '0' <= c <= '9'
  }

  predicate AllDigits(s: string)
  {
    forall i :: 0 <= i < |s| ==> IsDigit(s[i])
  }

  function DigitValue(c: char): (d: nat)
    requires IsDigit(c)
    ensures d < 10
  {
    c as int - '0' as int
  }

  function DigitChar(d: nat): (c: char)
    requires d < 10
    ensures IsDigit(c) && DigitValue(c) == d
  {
    ('0' as int + d) as char
  }

  function Pow10(k: nat): (p: nat)
    ensures p >= 1
  {
    if k == 0 then 1 else 10 * Pow10(k - 1)
  }

  /** JavaScript's decimal rendering of a non-negative integer: its digits, most significant first, no leading zero. */
  function DecimalString(n: nat): (s: string)
    ensures |s| >= 1 && AllDigits(s)
    ensures n > 0 ==> s[0] != '0'
    decreases n
  {
    if n < 10 then [DigitChar(n)] else DecimalString(n / 10) + [DigitChar(n % 10)]
  }

  /** The value a string of decimal digits denotes. */
  function ParseDecimal(s: string): nat
    requires AllDigits(s)
  {
    if s == [] then 0 else 10 * ParseDecimal(s[..|s| - 1]) + DigitValue(s[|s| - 1])
  }

  /** Reading the rendering back gives the number. */
  lemma {:induction false} ParseDecimalString(n: nat)
    ensures ParseDecimal(DecimalString(n)) == n
    decreases n
  {
    var s := DecimalString(n);
    if n >= 10 {
      ParseDecimalString(n / 10);
      assert s[..|s| - 1] == DecimalString(n / 10);
    }
  }

  /** A number with k + 1 digits renders as k + 1 characters. */
  lemma {:induction false} DecimalStringLength(n: nat, k: nat)
    requires Pow10(k) <= n < Pow10(k + 1)
    ensures |DecimalString(n)| == k + 1
    decreases k
  {
    if k > 0 {
      DecimalStringLength(n / 10, k - 1);
    }
  }

  /** The stored and mailed verification code: six decimal digits that denote the drawn number. */
  function CodeString(code: SixDigit): (s: string)
    ensures |s| == 6 && AllDigits(s) && s[0] != '0'
    ensures ParseDecimal(s) == code
  {
    DecimalStringLength(code, 5);
    ParseDecimalString(code);
    DecimalString(code)
  }

  /** Different draws give different codes. */
  lemma CodeStringInjective(a: SixDigit, b: SixDigit)
    ensures CodeString(a) == CodeString(b) <==> a == b
  {
  }
}
