/**
 The word chain of sensor/src/fasthash.rs: rotate, xor and multiply modulo 2^64, with a length and a tail of
 overlapping reads. Every step can be undone, so no byte of an input is ignored.
 */
module FxHash {

  const M := 0x1_0000_0000_0000_0000
  const H := 0x1_0000_0000
  const SEED64 := 0x517c_c1b7_2722_0a95
  const AVALANCHE := 0xd6e8_feb8_6659_fd93

  type Word = w: nat | w < 0x1_0000_0000_0000_0000
  type Byte = b: nat | b < 256

  function Pow2(n: nat): nat {
    if n == 0 then 1 else 2 * Pow2(n - 1)
  }

  /** `a ^ b` on n bits. */
  function Xor(a: nat, b: nat, n: nat): (x: nat)
    ensures x < Pow2(n)
  {
    if n == 0 then 0 else 2 * Xor(a / 2, b / 2, n - 1) + (a % 2 + b % 2) % 2
  }

  lemma {:induction false} XorInjective(a: nat, b: nat, c: nat, n: nat)
    requires b < Pow2(n) && c < Pow2(n)
    ensures Xor(a, b, n) == Xor(a, c, n) ==> b == c
    ensures Xor(b, a, n) == Xor(c, a, n) ==> b == c
  {
    if n > 0 { XorInjective(a / 2, b / 2, c / 2, n - 1); }
  }

  lemma Pow2Is()
    ensures Pow2(64) == M && Pow2(32) == H
  {
    assert Pow2(8) == 0x100;
    assert Pow2(16) == 0x1_0000;
    assert Pow2(24) == 0x100_0000;
    assert Pow2(32) == H;
    assert Pow2(40) == 0x100_0000_0000;
    assert Pow2(48) == 0x1_0000_0000_0000;
    assert Pow2(56) == 0x100_0000_0000_0000;
  }

  function XorWord(a: Word, b: Word): Word {
    Pow2Is();
    Xor(a, b, 64)
  }

  function RotateLeft5(h: Word): Word {
    h % 0x800_0000_0000_0000 * 32 + h / 0x800_0000_0000_0000
  }

  function WrappingMul(h: Word, m: Word): Word {
    h * m % M
  }

  function AddToHash(h: Word, i: Word): Word {
    WrappingMul(XorWord(RotateLeft5(h), i), SEED64)
  }

  /** h ^ (h >> 32): the upper half stays, the lower is mixed with it. */
  function Fold32(h: Word): Word {
    Pow2Is();
    UpperFits(h);
    h / H * H + Xor(h % H, h / H, 32)
  }

  lemma UpperFits(h: Word)
    ensures h / H * H <= M - H
  {
    assert h / H < H;
  }

  function Finish(h: Word): Word {
    Fold32(WrappingMul(Fold32(h), AVALANCHE))
  }

  // ---- multiplying by an odd number can be undone

  const SEED_INVERSE := 0x2040_003d_7809_70bd
  const AVALANCHE_INVERSE := 0xcfee_444d_8b59_a89b

  lemma Inverses()
    ensures SEED64 * SEED_INVERSE == 739706870995725965 * M + 1
    ensures AVALANCHE * AVALANCHE_INVERSE == 12578109465933073204 * M + 1
  {
  }

  lemma ModIs(x: int, h: nat, t: int, n: nat)
    requires n > 0 && h < n && x == h + n * t
    ensures x % n == h
  {
    var q, r := x / n, x % n;
    assert x == n * q + r;
    Between(n, q - t, h - r);
  }

  /** A multiple of n strictly between -n and n is zero. */
  lemma Between(n: nat, d: int, e: int)
    requires n > 0 && n * d == e && 0 - n < e < n
    ensures e == 0
  {
    if d > 0 { Product(n, d); } else if d < 0 { Product(n, -d); }
  }

  lemma Product(n: nat, d: nat)
    requires d > 0
    ensures n * d >= n
  {
    assert n * d == n + n * (d - 1);
  }

  /** (h * m mod n) * inv mod n is h, when m * inv is one more than a multiple of n. */
  lemma MulBack(h: nat, m: nat, inv: nat, k: nat, n: nat)
    requires n > 0 && h < n && m * inv == k * n + 1
    ensures h * m % n * inv % n == h
  {
    var q, r := h * m / n, h * m % n;
    assert h * m == n * q + r;
    Unmultiplied(h, m, inv, k, n, q, r);
    ModIs(r * inv, h, h * k - q * inv, n);
  }

  lemma Unmultiplied(h: int, m: int, inv: int, k: int, n: int, q: int, r: int)
    requires m * inv == k * n + 1 && h * m == n * q + r
    ensures r * inv == h + n * (h * k - q * inv)
  {
    assert r * inv == (h * m - n * q) * inv;
    assert (h * m - n * q) * inv == h * m * inv - n * q * inv;
    assert h * m * inv == h * (m * inv);
    assert h * (k * n + 1) == h * k * n + h;
    assert n * (h * k - q * inv) == n * (h * k) - n * (q * inv);
    assert n * q * inv == n * (q * inv);
    assert h * k * n == n * (h * k);
  }

  lemma MulInjective(g: Word, h: Word)
    ensures WrappingMul(g, SEED64) == WrappingMul(h, SEED64) ==> g == h
    ensures WrappingMul(g, AVALANCHE) == WrappingMul(h, AVALANCHE) ==> g == h
  {
    Inverses();
    MulBack(g, SEED64, SEED_INVERSE, 739706870995725965, M);
    MulBack(h, SEED64, SEED_INVERSE, 739706870995725965, M);
    MulBack(g, AVALANCHE, AVALANCHE_INVERSE, 12578109465933073204, M);
    MulBack(h, AVALANCHE, AVALANCHE_INVERSE, 12578109465933073204, M);
  }

  lemma RotateInjective(g: Word, h: Word)
    requires RotateLeft5(g) == RotateLeft5(h)
    ensures g == h
  {
    var t := 0x800_0000_0000_0000;
    assert g / t < 32 && h / t < 32;
    assert RotateLeft5(g) % 32 == g / t && RotateLeft5(h) % 32 == h / t;
    assert RotateLeft5(g) / 32 == g % t && RotateLeft5(h) / 32 == h % t;
  }

  /** A step keeps two words apart, and two states. */
  lemma StepInjective(g: Word, h: Word, i: Word, j: Word)
    ensures AddToHash(g, i) == AddToHash(g, j) ==> i == j
    ensures AddToHash(g, i) == AddToHash(h, i) ==> g == h
  {
    hide WrappingMul, RotateLeft5, Xor;
    Pow2Is();
    MulInjective(XorWord(RotateLeft5(g), i), XorWord(RotateLeft5(g), j));
    MulInjective(XorWord(RotateLeft5(g), i), XorWord(RotateLeft5(h), i));
    XorInjective(RotateLeft5(g), i, j, 64);
    XorInjective(i, RotateLeft5(g), RotateLeft5(h), 64);
    if RotateLeft5(g) == RotateLeft5(h) { RotateInjective(g, h); }
  }

  lemma FoldInjective(g: Word, h: Word)
    requires Fold32(g) == Fold32(h)
    ensures g == h
  {
    hide Xor;
    Pow2Is();
    var x, y := Xor(g % H, g / H, 32), Xor(h % H, h / H, 32);
    assert x < H && y < H;
    assert (g / H * H + x) / H == g / H && (h / H * H + y) / H == h / H;
    assert x == y;
    XorInjective(g / H, g % H, h % H, 32);
  }

  lemma FinishInjective(g: Word, h: Word)
    ensures Finish(g) == Finish(h) <==> g == h
  {
    hide Fold32, WrappingMul;
    if Finish(g) == Finish(h) {
      FoldInjective(WrappingMul(Fold32(g), AVALANCHE), WrappingMul(Fold32(h), AVALANCHE));
      MulInjective(Fold32(g), Fold32(h));
      FoldInjective(g, h);
    }
  }

  // ---- bytes

  /** u64::from_le_bytes, and u32 for four. */
  function LittleEndian(bytes: seq<Byte>): (w: nat)
    requires |bytes| <= 8
    ensures |bytes| == 4 ==> w < H
    ensures |bytes| == 8 ==> w < M
  {
    Bounds(bytes);
    Value(bytes)
  }

  function Value(bytes: seq<Byte>): nat {
    if bytes == [] then 0 else bytes[0] + 256 * Value(bytes[1..])
  }

  function Pow256(n: nat): nat {
    if n == 0 then 1 else 256 * Pow256(n - 1)
  }

  lemma {:induction false} ValueBound(bytes: seq<Byte>)
    ensures Value(bytes) < Pow256(|bytes|)
  {
    if bytes != [] { ValueBound(bytes[1..]); }
  }

  lemma Bounds(bytes: seq<Byte>)
    ensures |bytes| == 4 ==> Value(bytes) < H
    ensures |bytes| == 8 ==> Value(bytes) < M
  {
    ValueBound(bytes);
    assert Pow256(4) == H;
    assert Pow256(6) == 0x1_0000_0000_0000;
    assert Pow256(8) == M;
  }

  lemma {:induction false} ValueInjective(a: seq<Byte>, b: seq<Byte>)
    requires |a| == |b| && Value(a) == Value(b)
    ensures a == b
  {
    if a != [] {
      assert a[0] == Value(a) % 256 == b[0];
      ValueInjective(a[1..], b[1..]);
      assert a == [a[0]] + a[1..] && b == [b[0]] + b[1..];
    }
  }

  /** The one to seven bytes after the last whole word, by overlapping reads. */
  function TailWord(rest: seq<Byte>): Word
    requires 1 <= |rest| < 8
  {
    var n := |rest|;
    if n >= 4 then LittleEndian(rest[..4]) * H + LittleEndian(rest[n - 4..])
    else
      var a: nat, b: nat, c: nat := rest[0], rest[n / 2], rest[n - 1];
      a * 0x1_0000 + b * 0x100 + c
  }

  /** Every byte of the tail is read: tails of one length with one word are one tail. */
  lemma TailInjective(a: seq<Byte>, b: seq<Byte>)
    requires 1 <= |a| == |b| < 8 && TailWord(a) == TailWord(b)
    ensures a == b
  {
    if |a| >= 4 { LongTailInjective(a, b); } else { ShortTailInjective(a, b); }
  }

  lemma LongTailInjective(a: seq<Byte>, b: seq<Byte>)
    requires 4 <= |a| == |b| < 8 && TailWord(a) == TailWord(b)
    ensures a == b
  {
    hide Value;
    var n := |a|;
    TailHalves(LittleEndian(a[..4]), LittleEndian(a[n - 4..]), LittleEndian(b[..4]), LittleEndian(b[n - 4..]));
    ValueInjective(a[..4], b[..4]);
    ValueInjective(a[n - 4..], b[n - 4..]);
    forall i | 0 <= i < n ensures a[i] == b[i] {
      if i < 4 { assert a[i] == a[..4][i] == b[..4][i]; } else { assert a[i] == a[n - 4..][i - (n - 4)] == b[n - 4..][i - (n - 4)]; }
    }
  }

  lemma ShortTailInjective(a: seq<Byte>, b: seq<Byte>)
    requires 1 <= |a| == |b| < 4 && TailWord(a) == TailWord(b)
    ensures a == b
  {
    var n := |a|;
    ThreeBytes(a[0], a[n / 2], a[n - 1], b[0], b[n / 2], b[n - 1]);
  }

  lemma ThreeBytes(a: Byte, b: Byte, c: Byte, d: Byte, e: Byte, f: Byte)
    requires (a as nat) * 0x1_0000 + (b as nat) * 0x100 + c == (d as nat) * 0x1_0000 + (e as nat) * 0x100 + f
    ensures a == d && b == e && c == f
  {
  }

  lemma TailHalves(a: nat, b: nat, c: nat, d: nat)
    requires a < H && b < H && c < H && d < H && a * H + b == c * H + d
    ensures a == c && b == d
  {
  }

  /** The chain over the whole words and the tail. */
  function Blocks(bytes: seq<Byte>): (ws: seq<Word>)
    decreases |bytes|
  {
    if bytes == [] then []
    else if |bytes| < 8 then [TailWord(bytes)]
    else [LittleEndian(bytes[..8])] + Blocks(bytes[8..])
  }

  function Chain(h: Word, ws: seq<Word>): Word
    decreases |ws|
  {
    if ws == [] then h else Chain(AddToHash(h, ws[0]), ws[1..])
  }

  /** `write`: the length first, then the words. */
  function Write(h: Word, bytes: seq<Byte>): Word
    requires |bytes| < 0x1_0000_0000_0000_0000
  {
    Chain(AddToHash(h, |bytes|), Blocks(bytes))
  }

  method WriteBytes(start: Word, bytes: seq<Byte>) returns (h: Word)
    requires |bytes| < 0x1_0000_0000_0000_0000
    ensures h == Write(start, bytes)
  {
    hide AddToHash, TailWord, LittleEndian;
    h := AddToHash(start, |bytes|);
    var i := 0;
    assert bytes[0..] == bytes;
    while i + 8 <= |bytes|
      invariant 0 <= i <= |bytes|
      invariant Chain(h, Blocks(bytes[i..])) == Write(start, bytes)
    {
      var rest := bytes[i..];
      assert rest[..8] == bytes[i..i + 8] && rest[8..] == bytes[i + 8..];
      assert Blocks(rest)[1..] == Blocks(bytes[i + 8..]);
      h := AddToHash(h, LittleEndian(bytes[i..i + 8]));
      i := i + 8;
    }
    if i < |bytes| {
      assert Blocks(bytes[i..])[1..] == [];
      h := AddToHash(h, TailWord(bytes[i..]));
    }
  }

  lemma {:induction false} ChainInjective(g: Word, h: Word, ws: seq<Word>)
    requires g != h
    ensures Chain(g, ws) != Chain(h, ws)
    decreases |ws|
  {
    hide AddToHash;
    if ws != [] {
      StepInjective(g, h, ws[0], ws[0]);
      ChainInjective(AddToHash(g, ws[0]), AddToHash(h, ws[0]), ws[1..]);
    }
  }

  /** The two inputs differ, and only within bytes 8k to 8k+7. */
  ghost predicate DifferInBlock(a: seq<Byte>, b: seq<Byte>, k: nat) {
    |a| == |b| && a != b && forall i :: 0 <= i < |a| && i / 8 != k ==> a[i] == b[i]
  }

  lemma {:induction false} BlocksDiffer(h: Word, a: seq<Byte>, b: seq<Byte>, k: nat)
    requires DifferInBlock(a, b, k)
    ensures Chain(h, Blocks(a)) != Chain(h, Blocks(b))
    decreases |a|
  {
    hide AddToHash, TailWord, LittleEndian;
    if |a| < 8 {
      if a != [] {
        OneBlock(a);
        OneBlock(b);
        if TailWord(a) == TailWord(b) { TailInjective(a, b); }
        StepInjective(h, h, TailWord(a), TailWord(b));
      }
    } else {
      var v, w := LittleEndian(a[..8]), LittleEndian(b[..8]);
      FirstBlock(h, a);
      FirstBlock(h, b);
      if k == 0 {
        assert a[8..] == b[8..];
        assert a == a[..8] + a[8..] && b == b[..8] + b[8..];
        if v == w { WordInjective(a[..8], b[..8]); }
        StepInjective(h, h, v, w);
        ChainInjective(AddToHash(h, v), AddToHash(h, w), Blocks(a[8..]));
      } else {
        assert a[..8] == b[..8];
        assert a == a[..8] + a[8..] && b == b[..8] + b[8..];
        forall i | 0 <= i < |a[8..]| && i / 8 != k - 1 ensures a[8..][i] == b[8..][i] { assert (i + 8) / 8 == i / 8 + 1; assert a[i + 8] == b[i + 8]; }
        BlocksDiffer(AddToHash(h, v), a[8..], b[8..], k - 1);
      }
    }
  }

  lemma OneBlock(a: seq<Byte>)
    requires 0 < |a| < 8
    ensures forall h: Word :: Chain(h, Blocks(a)) == AddToHash(h, TailWord(a))
  {
    hide AddToHash, TailWord;
    assert Blocks(a)[1..] == [];
  }

  lemma FirstBlock(h: Word, a: seq<Byte>)
    requires |a| >= 8
    ensures Chain(h, Blocks(a)) == Chain(AddToHash(h, LittleEndian(a[..8])), Blocks(a[8..]))
  {
    hide AddToHash, LittleEndian;
    assert Blocks(a)[1..] == Blocks(a[8..]);
  }

  lemma WordInjective(a: seq<Byte>, b: seq<Byte>)
    requires |a| == |b| <= 8 && LittleEndian(a) == LittleEndian(b)
    ensures a == b
  {
    ValueInjective(a, b);
  }

  /**
   From one start, inputs of one length that differ within one 8-byte block - a whole word or the tail - hash
   differently: no byte is ignored.
   */
  lemma NoByteIgnored(start: Word, a: seq<Byte>, b: seq<Byte>, k: nat)
    requires DifferInBlock(a, b, k) && |a| < 0x1_0000_0000_0000_0000
    ensures Finish(Write(start, a)) != Finish(Write(start, b))
  {
    hide AddToHash, Finish;
    BlocksDiffer(AddToHash(start, |a|), a, b, k);
    FinishInjective(Write(start, a), Write(start, b));
  }

  // ---- the steps, spelled out

  function Bit(x: nat, i: nat): nat {
    if i == 0 then x % 2 else Bit(x / 2, i - 1)
  }

  lemma XorHalves(a: nat, b: nat, n: nat)
    requires n > 0
    ensures Xor(a, b, n) / 2 == Xor(a / 2, b / 2, n - 1) && Xor(a, b, n) % 2 == (if a % 2 == b % 2 then 0 else 1)
  {
  }

  /** A bit of an exclusive or is set exactly if it is in one of the two. */
  lemma {:induction false} XorBits(a: nat, b: nat, n: nat, i: nat)
    requires i < n
    ensures Bit(Xor(a, b, n), i) == if Bit(a, i) == Bit(b, i) then 0 else 1
  {
    XorHalves(a, b, n);
    if i > 0 { XorBits(a / 2, b / 2, n - 1, i - 1); }
  }

  lemma {:induction false} XorZero(a: nat, n: nat)
    requires a < Pow2(n)
    ensures Xor(0, a, n) == a && Xor(a, 0, n) == a
  {
    if n > 0 { XorZero(a / 2, n - 1); }
  }

  /** From nothing a word is multiplied by the seed; a state is turned left by five bits first, round the end. */
  lemma StepIs(i: Word)
    ensures AddToHash(0, i) == i * 0x517c_c1b7_2722_0a95 % 0x1_0000_0000_0000_0000
    ensures AddToHash(1, 0) == 32 * 0x517c_c1b7_2722_0a95 % 0x1_0000_0000_0000_0000
    ensures AddToHash(0x0800_0000_0000_0000, 0) == 0x517c_c1b7_2722_0a95
  {
    hide Xor;
    Pow2Is();
    XorZero(i, 64);
    XorZero(32, 64);
    XorZero(1, 64);
  }

  /** A bit of two numbers side by side. */
  lemma {:induction false} BitParts(a: nat, b: nat, n: nat, i: nat)
    requires b < Pow2(n)
    ensures Bit(a * Pow2(n) + b, i) == if i < n then Bit(b, i) else Bit(a, i - n)
  {
    if n == 0 {
      assert a * Pow2(n) + b == a;
    } else {
      var p := Pow2(n - 1);
      assert a * Pow2(n) + b == 2 * (a * p) + b by { assert a * (2 * p) == 2 * (a * p); }
      assert (a * Pow2(n) + b) / 2 == a * p + b / 2 && (a * Pow2(n) + b) % 2 == b % 2;
      if i > 0 { BitParts(a, b / 2, n - 1, i - 1); }
    }
  }

  /** The two halves of a word. */
  lemma HalfBits(a: nat, b: nat, i: nat)
    requires b < H && i < 64
    ensures Bit(a * H + b, i) == if i < 32 then Bit(b, i) else Bit(a, i - 32)
  {
    hide Bit;
    Pow2Is();
    BitParts(a, b, 32, i);
  }

  /** Mixing leaves the upper 32 bits, and turns a lower one over where the one 32 places above is set. */
  lemma FoldBits(h: Word, i: nat)
    requires i < 64
    ensures Bit(Fold32(h), i) == if i >= 32 || Bit(h, i + 32) == 0 then Bit(h, i) else 1 - Bit(h, i)
  {
    hide Xor, Bit, Pow2;
    Pow2Is();
    var a, b := h / H, h % H;
    assert a * H + b == h;
    HalfBits(a, b, i);
    HalfBits(a, Xor(b, a, 32), i);
    if i < 32 {
      XorBits(b, a, 32, i);
      HalfBits(a, b, i + 32);
      BitIsOne(h, i);
      BitIsOne(h, i + 32);
    }
  }

  lemma {:induction false} BitIsOne(x: nat, i: nat)
    ensures Bit(x, i) == 0 || Bit(x, i) == 1
  {
    if i > 0 { BitIsOne(x / 2, i - 1); }
  }

  /** The final mixing of a state of 32 bits. */
  lemma FinishIs(h: Word)
    requires h < 0x1_0000_0000
    ensures Finish(h) == Fold32(h * 0xd6e8_feb8_6659_fd93 % 0x1_0000_0000_0000_0000)
  {
    hide Xor;
    Pow2Is();
    XorZero(h, 32);
    assert Fold32(h) == h;
  }

  function FourBytes(a: Byte, b: Byte, c: Byte, d: Byte): nat {
    a + (b as nat) * 0x100 + (c as nat) * 0x1_0000 + (d as nat) * 0x100_0000
  }

  /** The word of one to seven bytes, by their number. */
  lemma TailIs(b: seq<Byte>)
    requires 1 <= |b| < 8
    ensures |b| == 1 ==> TailWord(b) == (b[0] as nat) * 0x1_0101
    ensures |b| == 2 ==> TailWord(b) == (b[0] as nat) * 0x1_0000 + (b[1] as nat) * 0x101
    ensures |b| == 3 ==> TailWord(b) == (b[0] as nat) * 0x1_0000 + (b[1] as nat) * 0x100 + b[2]
    ensures |b| >= 4 ==> var k := |b| - 4;
      TailWord(b) == 0x1_0000_0000 * FourBytes(b[0], b[1], b[2], b[3]) + FourBytes(b[k], b[k + 1], b[k + 2], b[k + 3])
  {
    hide Value;
    if |b| >= 4 {
      var k := |b| - 4;
      FourValue(b[..4]);
      FourValue(b[k..]);
    }
  }

  lemma FourValue(b: seq<Byte>)
    requires |b| == 4
    ensures Value(b) == FourBytes(b[0], b[1], b[2], b[3])
  {
    assert b[1..][1..] == b[2..] && b[2..][1..] == b[3..] && b[3..][1..] == [];
    assert Value(b[3..]) == b[3];
    assert Value(b[2..]) == b[2] + 256 * Value(b[3..]);
  }

  /** What is mixed in for eight bytes, fewer, or more: the length, each whole word from its lowest byte up, and the tail. */
  lemma WordsAre(h: Word, b: seq<Byte>)
    requires |b| < 0x1_0000_0000_0000_0000
    ensures |b| == 0 ==> Write(h, b) == AddToHash(h, 0)
    ensures 0 < |b| < 8 ==> Write(h, b) == AddToHash(AddToHash(h, |b|), TailWord(b))
    ensures |b| >= 8 ==> Blocks(b)[0] == FourBytes(b[0], b[1], b[2], b[3]) + 0x1_0000_0000 * FourBytes(b[4], b[5], b[6], b[7])
    ensures |b| >= 8 ==> Blocks(b)[1..] == Blocks(b[8..])
  {
    hide AddToHash, TailWord, FourBytes;
    if b == [] {
    } else if |b| < 8 {
      var w := [TailWord(b)];
      assert Blocks(b) == w && w[1..] == [];
      assert Chain(AddToHash(h, |b|), w) == Chain(AddToHash(AddToHash(h, |b|), w[0]), w[1..]);
    } else {
      EightValue(b[..8]);
      Bounds(b[..8]);
    }
  }

  lemma EightValue(b: seq<Byte>)
    requires |b| == 8
    ensures Value(b) == FourBytes(b[0], b[1], b[2], b[3]) + 0x1_0000_0000 * FourBytes(b[4], b[5], b[6], b[7])
  {
    FourValue(b[4..]);
    assert b[1..][1..] == b[2..] && b[2..][1..] == b[3..] && b[3..][1..] == b[4..];
    assert Value(b[3..]) == b[3] + 256 * Value(b[4..]);
    assert Value(b[2..]) == b[2] + 256 * Value(b[3..]);
    assert Value(b[1..]) == b[1] + 256 * Value(b[2..]);
  }
}
