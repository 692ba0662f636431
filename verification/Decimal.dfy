/** Decimal text of natural numbers. */
module Decimal {
  import opened Text

  predicate IsDigit(c: char) { '0' <= c <= '9' }

  predicate AllDigits(s: string) {
    forall i :: 0 <= i < |s| ==> IsDigit(s[i])
  }

  function DigitOf(d: nat): (c: char)
    requires d < 10
    ensures IsDigit(c)
  {
    '0' + d as char
  }

  /** `str(n)` */
  function Dec(n: nat): string {
    (if n < 10 then "" else Dec(n / 10)) + [DigitOf(n % 10)]
  }

  /** The number a text of digits spells. */
  function Value(s: string): nat
    requires AllDigits(s)
  {
    if s == "" then 0 else Value(s[..|s| - 1]) * 10 + (s[|s| - 1] - '0') as nat
  }

  lemma {:induction false} DecRoundTrip(n: nat)
    ensures Dec(n) != "" && AllDigits(Dec(n)) && Value(Dec(n)) == n
  {
    if n >= 10 { DecRoundTrip(n / 10); }
    assert Dec(n)[..|Dec(n)| - 1] == if n < 10 then "" else Dec(n / 10);
  }

  lemma DecLength(n: nat)
    ensures n < 1000 ==> |Dec(n)| <= 3
    ensures n < 100000 ==> |Dec(n)| <= 5
  {
    assert n < 100 ==> |Dec(n / 10)| == 1;
    assert n < 1000 ==> |Dec(n / 10)| <= 2;
    assert n < 10000 ==> |Dec(n / 10)| <= 3 by { assert n < 10000 ==> |Dec(n / 10 / 10)| <= 2; }
    assert n < 100000 ==> |Dec(n / 10)| <= 4 by {
      assert n < 100000 ==> |Dec(n / 10 / 10)| <= 3 by { assert n < 100000 ==> |Dec(n / 10 / 10 / 10)| <= 2; }
    }
  }
}
