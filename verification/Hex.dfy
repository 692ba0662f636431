/** Hexadecimal text of natural numbers. */
module Hex {
  import opened Text
  import Powers

  function Digit(d: nat): char
    requires d < 16
  {
    "0123456789abcdef"[d]
  }

  predicate IsDigit(c: char) { '0' <= c <= '9' || 'a' <= c <= 'f' }

  function DigitValue(c: char): (d: nat)
    requires IsDigit(c)
    ensures d < 16
  {
    if c <= '9' then (c - '0') as nat else (c - 'a') as nat + 10
  }

  /** `"%x" % n` */
  function Digits(n: nat): string {
    (if n < 16 then [] else Digits(n / 16)) + [Digit(n % 16)]
  }

  function Zeros(k: nat): string { if k == 0 then [] else ['0'] + Zeros(k - 1) }

  /** `"%0<width>x" % n` */
  function Padded(n: nat, width: nat): string {
    var t := Digits(n);
    if |t| < width then Zeros(width - |t|) + t else t
  }

  /** `int(s, 16)` */
  function Value(s: string): nat
    requires forall i :: 0 <= i < |s| ==> IsDigit(s[i])
  {
    if s == [] then 0 else Value(s[..|s| - 1]) * 16 + DigitValue(s[|s| - 1])
  }

  function Pow16(k: nat): nat { if k == 0 then 1 else 16 * Pow16(k - 1) }

  /** Exactly `width` digits. */
  function Fixed(n: nat, width: nat): (r: string)
    ensures |r| == width
  {
    if width == 0 then [] else Fixed(n / 16, width - 1) + [Digit(n % 16)]
  }

  lemma DigitRoundTrip(d: nat)
    requires d < 16
    ensures IsDigit(Digit(d)) && DigitValue(Digit(d)) == d
  {
  }

  /** Reading the printed number back gives the number. */
  lemma {:induction false} DigitsRoundTrip(n: nat)
    ensures forall i :: 0 <= i < |Digits(n)| ==> IsDigit(Digits(n)[i])
    ensures Value(Digits(n)) == n
  {
    DigitRoundTrip(n % 16);
    if n >= 16 { DigitsRoundTrip(n / 16); }
    assert Digits(n)[..|Digits(n)| - 1] == if n < 16 then [] else Digits(n / 16);
  }

  lemma {:induction false} ZerosSnoc(k: nat)
    ensures Zeros(k + 1) == Zeros(k) + ['0'] && |Zeros(k)| == k
  {
    if k > 0 { ZerosSnoc(k - 1); assert ['0'] + (Zeros(k - 1) + ['0']) == (['0'] + Zeros(k - 1)) + ['0']; }
  }

  lemma {:induction false} FixedZero(width: nat)
    ensures Fixed(0, width) == Zeros(width)
  {
    if width > 0 { FixedZero(width - 1); ZerosSnoc(width - 1); }
  }

  lemma {:induction false} DigitsLength(n: nat, width: nat)
    requires n < Pow16(width) && width > 0
    ensures |Digits(n)| <= width
  {
    if n >= 16 { assert width > 1; DigitsLength(n / 16, width - 1); }
  }

  lemma PaddedSnoc(n: nat, width: nat)
    requires n >= 16 && width > 0
    ensures Padded(n, width) == Padded(n / 16, width - 1) + [Digit(n % 16)]
  {
    hide Zeros, Digit;
    var t, front := Digits(n), Digits(n / 16);
    assert t == front + [Digit(n % 16)];
    if |t| < width { assert Zeros(width - |t|) + t == (Zeros(width - |t|) + front) + [Digit(n % 16)]; }
  }

  lemma PaddedDigit(n: nat, width: nat)
    requires n < 16 && width > 0
    ensures Padded(n, width) == Fixed(n, width)
  {
    hide Digit, Zeros;
    FixedZero(width - 1);
    ZerosSnoc(width - 1);
    OneDigit(n);
    assert Fixed(n, width) == Fixed(0, width - 1) + [Digit(n)];
    if width == 1 { assert Fixed(0, 0) + [Digit(n)] == [Digit(n)]; }
  }

  lemma OneDigit(n: nat)
    requires n < 16
    ensures Digits(n) == [Digit(n)]
  {
    hide Digit, Zeros;
    assert n % 16 == n;
    assert Digits(n) == [] + [Digit(n)];
  }

  /** Padding fills up to the fixed form; a number too large for the width keeps more digits. */
  lemma {:induction false} PaddedIsFixed(n: nat, width: nat)
    requires n < Pow16(width) && width > 0
    ensures Padded(n, width) == Fixed(n, width)
  {
    hide Padded, Digit;
    if n < 16 {
      PaddedDigit(n, width);
    } else {
      assert width > 1;
      PaddedIsFixed(n / 16, width - 1);
      PaddedSnoc(n, width);
    }
  }

  lemma {:induction false} LessSnoc(a: string, b: string, c: char, d: char)
    requires |a| == |b|
    ensures Less(a + [c], b + [d]) <==> Less(a, b) || (a == b && c < d)
  {
    if a == [] {
      assert a + [c] == [c] && b + [d] == [d];
    } else {
      LessSnoc(a[1..], b[1..], c, d);
      assert (a + [c])[1..] == a[1..] + [c] && (b + [d])[1..] == b[1..] + [d];
      assert a == [a[0]] + a[1..] && b == [b[0]] + b[1..];
    }
  }

  lemma {:induction false} FixedOrder(a: nat, b: nat, width: nat)
    requires a < Pow16(width) && b < Pow16(width)
    ensures Less(Fixed(a, width), Fixed(b, width)) <==> a < b
    ensures Fixed(a, width) == Fixed(b, width) <==> a == b
  {
    if width > 0 {
      FixedOrder(a / 16, b / 16, width - 1);
      LessSnoc(Fixed(a / 16, width - 1), Fixed(b / 16, width - 1), Digit(a % 16), Digit(b % 16));
      DigitOrder(a % 16, b % 16);
      if Fixed(a, width) == Fixed(b, width) {
        assert Fixed(a, width)[..width - 1] == Fixed(a / 16, width - 1) && Fixed(b, width)[..width - 1] == Fixed(b / 16, width - 1);
        assert Fixed(a, width)[width - 1] == Fixed(b, width)[width - 1];
      }
    }
  }

  lemma DigitOrder(c: nat, d: nat)
    requires c < 16 && d < 16
    ensures Digit(c) < Digit(d) <==> c < d
    ensures Digit(c) == Digit(d) <==> c == d
  {
    DigitRoundTrip(c);
    DigitRoundTrip(d);
  }

  lemma Pow16Of16()
    ensures Pow16(16) == 0x1_0000_0000_0000_0000
  {
    assert Pow16(4) == 0x1_0000;
    assert Pow16(8) == 0x1_0000_0000;
    assert Pow16(12) == 0x1_0000_0000_0000;
  }

  /** Zero-padded to 16 digits, numbers below 2^64 compare as text the way they compare as numbers. */
  lemma PaddedOrder(a: nat, b: nat)
    requires a < 0x1_0000_0000_0000_0000 && b < 0x1_0000_0000_0000_0000
    ensures Less(Padded(a, 16), Padded(b, 16)) <==> a < b
    ensures Padded(a, 16) == Padded(b, 16) <==> a == b
  {
    Pow16Of16();
    PaddedIsFixed(a, 16);
    PaddedIsFixed(b, 16);
    FixedOrder(a, b, 16);
  }

  lemma {:induction false} ValueOfZeros(k: nat)
    ensures |Zeros(k)| == k && forall i :: 0 <= i < k ==> IsDigit(Zeros(k)[i])
    ensures Value(Zeros(k)) == 0
  {
    if k > 0 {
      ValueOfZeros(k - 1);
      ZerosSnoc(k - 1);
      assert Zeros(k)[..k - 1] == Zeros(k - 1);
    }
  }

  lemma {:induction false} ValueOfPadding(k: nat, s: string)
    requires forall i :: 0 <= i < |s| ==> IsDigit(s[i])
    ensures forall i :: 0 <= i < |Zeros(k) + s| ==> IsDigit((Zeros(k) + s)[i])
    ensures Value(Zeros(k) + s) == Value(s)
    decreases |s|
  {
    var t := Zeros(k) + s;
    if s == [] {
      assert t == Zeros(k);
      ValueOfZeros(k);
    } else {
      ValueOfPadding(k, s[..|s| - 1]);
      assert t[..|t| - 1] == Zeros(k) + s[..|s| - 1];
    }
  }

  /** The padded text names one number, whatever its length. */
  lemma PaddedInjective(a: nat, b: nat, width: nat)
    requires Padded(a, width) == Padded(b, width)
    ensures a == b
  {
    hide Digits, Zeros, Value;
    PaddedValue(a, width);
    PaddedValue(b, width);
  }

  lemma PaddedValue(n: nat, width: nat)
    ensures (forall i :: 0 <= i < |Padded(n, width)| ==> IsDigit(Padded(n, width)[i])) && Value(Padded(n, width)) == n
  {
    hide Digits, Zeros, Value;
    DigitsRoundTrip(n);
    if |Digits(n)| < width { ValueOfPadding(width - |Digits(n)|, Digits(n)); }
  }

  lemma {:induction false} DigitsPrefix(m: nat, k: nat, r: nat)
    requires m > 0 && r < Pow16(k)
    ensures Digits(m) <= Digits(m * Pow16(k) + r)
  {
    if k == 0 {
      assert m * Pow16(k) + r == m;
    } else {
      var n, p := m * Pow16(k) + r, m * Pow16(k - 1);
      Shift(m, Pow16(k - 1), r);
      DigitsPrefix(m, k - 1, r / 16);
      assert Digits(n) == Digits(n / 16) + [Digit(n % 16)];
    }
  }

  lemma Shift(m: nat, p: nat, r: nat)
    requires m > 0 && r < 16 * p
    ensures (m * (16 * p) + r) / 16 == m * p + r / 16 && m * (16 * p) + r >= 16 && r / 16 < p
  {
    assert m * (16 * p) == 16 * (m * p);
    assert m * p >= p;
  }

  lemma {:induction false} PowPositive(k: nat)
    ensures Pow16(k) >= 1
  {
    if k > 0 { PowPositive(k - 1); }
  }

  lemma {:induction false} DigitsAtLeast(n: nat, width: nat)
    requires n >= Pow16(width)
    ensures |Digits(n)| > width
  {
    if width > 0 {
      PowPositive(width - 1);
      assert n >= 16;
      DigitsAtLeast(n / 16, width - 1);
    }
  }

  /** The digits of the fixed form, the highest first. */
  lemma {:induction false} FixedAt(n: nat, width: nat, i: nat)
    requires i < width
    ensures Pow16(width - 1 - i) > 0 && Fixed(n, width)[i] == "0123456789abcdef"[n / Pow16(width - 1 - i) % 16]
  {
    var p := Pow16(width - 1 - i);
    DigitIs(n % 16);
    if i < width - 1 {
      FixedAt(n / 16, width - 1, i);
      SixteenMore(n, Pow16(width - 2 - i));
    }
  }

  lemma DigitIs(d: nat)
    requires d < 16
    ensures Digit(d) == "0123456789abcdef"[d]
  {
  }

  lemma SixteenMore(n: nat, p: nat)
    requires p > 0
    ensures n / 16 / p == n / (16 * p)
  {
    var q, r := n / (16 * p), n % (16 * p);
    assert n == 16 * p * q + r && 0 <= r < 16 * p;
    assert n / 16 == q * p + r / 16 && r / 16 < p;
    Powers.Remainder(n / 16, p, q, r / 16);
  }
}
