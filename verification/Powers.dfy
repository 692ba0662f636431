/** Powers of two, which table sizes are: `h & (n - 1)` is then the remainder of h by n. */
module Powers {

  predicate IsPower(p: nat) {
    p == 1 || (p > 0 && p % 2 == 0 && IsPower(p / 2))
  }

  /** The first power of two from `n` up. */
  method NextPowerOfTwo(n: nat) returns (p: nat)
    ensures n <= p && IsPower(p) && (n > 1 ==> p < 2 * n)
  {
    p := 1;
    while p < n
      invariant IsPower(p) && (n > 1 ==> p < 2 * n)
      decreases n - p
    {
      p := 2 * p;
    }
  }

  /** `a & b`, bit by bit. */
  function And(a: nat, b: nat): nat
    decreases a
  {
    if a == 0 || b == 0 then 0 else 2 * And(a / 2, b / 2) + if a % 2 == 1 && b % 2 == 1 then 1 else 0
  }

  /** Masking with one less than a power of two leaves the remainder. */
  lemma {:induction false} MaskIsRemainder(h: nat, n: nat)
    requires IsPower(n)
    ensures n > 0 && And(h, n - 1) == h % n
    decreases h
  {
    hide And;
    if h == 0 || n == 1 {
      NoBits(h, n);
    } else {
      EvenPower(n);
      MaskIsRemainder(h / 2, n / 2);
      AndStep(h, n);
      HalfOf(h, n);
    }
  }

  lemma NoBits(h: nat, n: nat)
    requires n > 0 && (h == 0 || n == 1)
    ensures And(h, n - 1) == h % n
  {
    if h == 0 { Remainder(0, n, 0, 0); }
  }

  lemma EvenPower(n: nat)
    requires IsPower(n) && n != 1
    ensures n > 1 && n % 2 == 0 && IsPower(n / 2)
  {
  }

  lemma AndStep(h: nat, n: nat)
    requires h > 0 && n > 1 && n % 2 == 0
    ensures And(h, n - 1) == 2 * And(h / 2, n / 2 - 1) + h % 2
  {
    assert (n - 1) / 2 == n / 2 - 1 && (n - 1) % 2 == 1;
  }

  lemma HalfOf(h: nat, n: nat)
    requires n > 1 && n % 2 == 0
    ensures h % n == 2 * (h / 2 % (n / 2)) + h % 2
  {
    var q, r := h / 2 / (n / 2), h / 2 % (n / 2);
    assert h == 2 * (q * (n / 2) + r) + h % 2;
    assert 2 * (q * (n / 2)) == q * n;
    assert h == q * n + (2 * r + h % 2);
    Remainder(h, n, q, 2 * r + h % 2);
  }

  lemma Remainder(h: nat, n: nat, q: nat, r: nat)
    requires h == q * n + r && r < n
    ensures h % n == r && h / n == q
  {
    assert h == h / n * n + h % n;
    if h / n < q { MulStep(h / n, q, n); }
    if q < h / n { MulStep(q, h / n, n); }
  }

  lemma MulStep(a: nat, b: nat, n: nat)
    requires a < b
    ensures a * n + n <= b * n
  {
    assert b * n == (a + 1) * n + (b - a - 1) * n;
  }
}
