/** Decimal rendering of integers, as JavaScript's template literals do it
    (`${n}`) for integral numbers below 10^21: an optional '-' followed by
    the digits, with no leading zeros. The model's log messages, cache keys
    and URLs are built with it. */
module Decimal {

  predicate IsDigit(c: char) {
    '0' <= c <= '9'
  }

  function Digit(d: nat): (c: char)
    requires d < 10
    ensures IsDigit(c)
    ensures c as int - '0' as int == d
  {
    ('0' as int + d) as char
  }

  predicate AllDigits(s: string) {
    forall i :: 0 <= i < |s| ==> IsDigit(s[i])
  }

  /** The number a string of decimal digits denotes (Horner's rule, most
      significant digit first). */
  function DigitsValue(s: string): nat
    requires AllDigits(s)
  {
    if s == [] then 0
    else DigitsValue(s[..|s| - 1]) * 10 + (s[|s| - 1] as int - '0' as int)
  }

  /** `${n}` for a natural n: the shortest digit string denoting n. */
  function NatToString(n: nat): (s: string)
    ensures |s| >= 1
    ensures AllDigits(s)
    ensures DigitsValue(s) == n
    ensures |s| == 1 <==> n < 10
    ensures n >= 10 ==> s[0] != '0'
    decreases n
  {
    if n < 10 then [Digit(n)]
    else
      var s := NatToString(n / 10) + [Digit(n % 10)];
      assert s[..|s| - 1] == NatToString(n / 10);
      s
  }

  /** `${i}` for an integer i: a '-' for negatives, then the digits of |i|. */
  function IntToString(i: int): (s: string)
    ensures |s| >= 1
    ensures s[0] == '-' <==> i < 0
    ensures i >= 0 ==> AllDigits(s) && DigitsValue(s) == i
    ensures i < 0 ==> AllDigits(s[1..]) && DigitsValue(s[1..]) == -i
    ensures i >= 10 ==> s[0] != '0'
    ensures i <= -10 ==> s[1] != '0'
    ensures 0 <= i < 10 ==> |s| == 1
    ensures -10 < i < 0 ==> |s| == 2
  {
    if i < 0 then "-" + NatToString(-i) else NatToString(i)
  }

  /** Distinct naturals render to distinct strings: each string's digits
      give its number back. */
  lemma NatToStringInjective(a: nat, b: nat)
    requires NatToString(a) == NatToString(b)
    ensures a == b
  {
  }

  /** Distinct integers render to distinct strings, so keys built from them
      never collide. */
  lemma IntToStringInjective(a: int, b: int)
    requires IntToString(a) == IntToString(b)
    ensures a == b
  {
  }

  lemma NatToStringExamples()
    ensures NatToString(0) == "0"
    ensures NatToString(123) == "123"
    ensures IntToString(-5) == "-5"
  {
    assert NatToString(12) == NatToString(1) + [Digit(2)];
  }
}
