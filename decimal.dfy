/** Decimal rendering of integers (Python's `str(n)`, JavaScript's `${n}`) and reading it back. */
module Decimal {

  function DigitChar(d: nat): char
    requires d < 10
  {
    "0123456789"[d]
  }

  predicate IsDigit(c: char) {
    '0' <= c <= '9'
  }

  function DigitValue(c: char): nat
    requires IsDigit(c)
  {
    (c as int - '0' as int) as nat
  }

  /** Decimal digits of a natural number, most significant first, without leading zeros. */
  function NatDigits(n: nat): (r: string)
    ensures r != [] && forall i :: 0 <= i < |r| ==> IsDigit(r[i])
    ensures |r| > 1 ==> r[0] != '0'
    decreases n
  {
    if n < 10 then [DigitChar(n)] else NatDigits(n / 10) + [DigitChar(n % 10)]
  }

  /** The value of a string of decimal digits. */
  function DigitsValue(s: string): nat
    requires forall i :: 0 <= i < |s| ==> IsDigit(s[i])
  {
    if s == [] then 0 else 10 * DigitsValue(s[..|s| - 1]) + DigitValue(s[|s| - 1])
  }

  /** Reading back the digits of `n` gives `n`. */
  lemma {:induction false} NatDigitsRoundTrip(n: nat)
    ensures DigitsValue(NatDigits(n)) == n
    decreases n
  {
    if n >= 10 {
      var s := NatDigits(n);
      assert s[..|s| - 1] == NatDigits(n / 10);
      NatDigitsRoundTrip(n / 10);
    }
  }

  /** Python's `str(n)` / JavaScript's `${n}` for an integer. */
  function IntToString(n: int): (r: string)
    ensures n < 0 <==> (r != [] && r[0] == '-')
  {
    if n < 0 then "-" + NatDigits(-n) else NatDigits(n)
  }

  /** An optional '-' followed by decimal digits. */
  predicate Numeral(s: string) {
    && s != []
    && (s[0] == '-' ==> forall i :: 1 <= i < |s| ==> IsDigit(s[i]))
    && (s[0] != '-' ==> forall i :: 0 <= i < |s| ==> IsDigit(s[i]))
  }

  /** Reads an optionally signed decimal integer. */
  function ParseInt(s: string): int
    requires Numeral(s)
  {
    if s[0] == '-' then -(DigitsValue(s[1..]) as int) else DigitsValue(s)
  }

  /** The string of an integer is a numeral that reads back as that integer. */
  lemma IntToStringRoundTrip(n: int)
    ensures Numeral(IntToString(n)) && ParseInt(IntToString(n)) == n
  {
    var r := IntToString(n);
    if n < 0 {
      var m: nat := -n;
      assert r == "-" + NatDigits(m);
      NegativeRoundTrip(m);
    } else {
      assert r == NatDigits(n);
      NonNegativeRoundTrip(n);
    }
  }

  lemma NonNegativeRoundTrip(m: nat)
    ensures Numeral(NatDigits(m)) && ParseInt(NatDigits(m)) == m
  {
    assert IsDigit(NatDigits(m)[0]);
    NatDigitsRoundTrip(m);
  }

  lemma NegativeRoundTrip(m: nat)
    ensures Numeral("-" + NatDigits(m)) && ParseInt("-" + NatDigits(m)) == -(m as int)
  {
    var r := "-" + NatDigits(m);
    assert r[1..] == NatDigits(m);
    NatDigitsRoundTrip(m);
  }
}
