/** Character-level helpers for the QString operations src/projectmodel.cpp
    relies on: suffix tests, space normalisation and decimal numbers. */
module Text {

  /** QString::endsWith */
  predicate EndsWith(s: string, suffix: string) {
    |suffix| <= |s| && s[|s| - |suffix|..] == suffix
  }

  /** QString::replace(' ', '_') */
  function ReplaceSpaces(s: string): (r: string)
    ensures |r| == |s|
    ensures ' ' !in r
    ensures ' ' !in s ==> r == s
  {
    seq(|s|, i requires 0 <= i < |s| => if s[i] == ' ' then '_' else s[i])
  }

  predicate IsDigit(c: char) {
    '0' <= c <= '9'
  }

  predicate AllDigits(s: string) {
    forall i :: 0 <= i < |s| ==> IsDigit(s[i])
  }

  /** The number a string of decimal digits denotes. */
  function DigitsValue(s: string): nat
    requires AllDigits(s)
  {
    if s == [] then 0 else DigitsValue(s[..|s| - 1]) * 10 + (s[|s| - 1] as int - '0' as int)
  }

  /** QString::number / QString("%1").arg for a non-negative integer. */
  function DecimalString(n: nat): (s: string)
    ensures |s| > 0 && AllDigits(s)
  {
    if n < 10 then [('0' as int + n) as char]
    else DecimalString(n / 10) + [('0' as int + n % 10) as char]
  }

  /** Reading a number's decimal form gives the number back. */
  lemma {:induction false} DecimalStringValue(n: nat)
    ensures DigitsValue(DecimalString(n)) == n
  {
    if n >= 10 {
      DecimalStringValue(n / 10);
      var s := DecimalString(n);
      assert s[..|s| - 1] == DecimalString(n / 10);
    }
  }

  /** Different numbers have different decimal forms. */
  lemma DecimalStringInjective(m: nat, n: nat)
    requires DecimalString(m) == DecimalString(n)
    ensures m == n
  {
    DecimalStringValue(m);
    DecimalStringValue(n);
  }

  const UINT_MAX: nat := 0xFFFF_FFFF

  /** QString::toUInt(): the value of a non-empty string of decimal digits
      that fits in 32 bits; 0 for anything else (the failure value). */
  function ToUInt(s: string): (r: nat)
    ensures r <= UINT_MAX
    ensures r != 0 ==> |s| > 0 && AllDigits(s) && r == DigitsValue(s)
  {
    if |s| > 0 && AllDigits(s) && DigitsValue(s) <= UINT_MAX then DigitsValue(s) else 0
  }

  const LLONG_MIN: int := -0x8000_0000_0000_0000
  const LLONG_MAX: int := 0x7FFF_FFFF_FFFF_FFFF

  /** QString::toLongLong(): an optional sign and decimal digits whose value
      fits in 64 bits; 0 for anything else. */
  function ToLongLong(s: string): (r: int)
    ensures LLONG_MIN <= r <= LLONG_MAX
  {
    var neg := |s| > 0 && s[0] == '-';
    var digits := if |s| > 0 && (s[0] == '-' || s[0] == '+') then s[1..] else s;
    if |digits| == 0 || !AllDigits(digits) then 0
    else
      var v: int := if neg then -(DigitsValue(digits) as int) else DigitsValue(digits);
      if LLONG_MIN <= v <= LLONG_MAX then v else 0
  }
}
