/** Decimal text, as snprintf prints it and strtoll reads it back. */
module Decimal {
  import opened Base

  const MINUS: byte := '-' as int

  predicate IsDigit(c: int) {
    '0' as int <= c <= '9' as int
  }

  predicate AllDigits(s: bytes) {
    forall i :: 0 <= i < |s| ==> IsDigit(s[i])
  }

  /** Most significant digit first, no leading zero. */
  function Digits(n: nat): (s: bytes)
    ensures AllDigits(s) && |s| > 0
    ensures s[0] == '0' as int ==> n == 0 && |s| == 1
  {
    if n < 10 then ['0' as int + n] else Digits(n / 10) + ['0' as int + n % 10]
  }

  function IntText(v: int): bytes {
    if v < 0 then [MINUS] + Digits(-v) else Digits(v)
  }

  function DigitsValue(s: bytes): int
  {
    if s == [] then 0
    else DigitsValue(s[..|s| - 1]) * 10 + (s[|s| - 1] - '0' as int)
  }

  /** The number strtoll sees in an optional minus sign followed by digits. */
  function IntValue(s: bytes): int {
    if s != [] && s[0] == MINUS then -DigitsValue(s[1..]) else DigitsValue(s)
  }

  lemma {:induction false} DigitsRoundTrip(n: nat)
    ensures DigitsValue(Digits(n)) == n
  {
    if n >= 10 {
      DigitsRoundTrip(n / 10);
      assert Digits(n)[..|Digits(n)| - 1] == Digits(n / 10);
    }
  }

  /** Printing and then parsing any integer gives it back. */
  lemma IntRoundTrip(v: int)
    ensures IntValue(IntText(v)) == v
  {
    if v < 0 {
      DigitsRoundTrip(-v);
      assert IntText(v)[1..] == Digits(-v);
    } else {
      DigitsRoundTrip(v);
    }
  }
}
