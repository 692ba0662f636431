/**
 The fixed-capacity string of sensor/src/smallstr.rs, a byte a character here: what does not fit is cut off, and of a
 text between two UTF-8 characters.
 */
module SmallStr {
  import opened Text
  import opened Decimal

  /** The first loop of push_u16: the digits of v at the end of five places. */
  method Tail(v: nat) returns (tmp: array<char>, i: nat)
    requires v < 0x1_0000
    ensures fresh(tmp) && tmp.Length == 5 && i < 5 && tmp[i..] == Dec(v)
  {
    tmp, i := new char[5](k => '\0'), 5;
    var w := v;
    DecLength(v);
    while true
      invariant 0 < i <= 5 && |Dec(w)| <= i
      invariant Dec(w) + tmp[i..] == Dec(v)
      decreases i
    {
      i := i - 1;
      tmp[i] := DigitOf(w % 10);
      w := w / 10;
      if w == 0 {
        break;
      }
    }
  }

  /** One more byte of `digits`, unless the string is full. */
  lemma Pushed(before: string, digits: string, k: nat, cap: nat)
    requires k < |digits| && |before| <= cap
    ensures var upto := if k <= cap - |before| then digits[..k] else digits[..cap - |before|];
      (before + upto) + (if |before + upto| < cap then [digits[k]] else "")
        == before + if k + 1 <= cap - |before| then digits[..k + 1] else digits[..cap - |before|]
  {
  }

  /** A byte inside a UTF-8 character. */
  predicate Continues(c: char) { 0x80 as char <= c < 0xC0 as char }

  /** `floor_char_boundary`: the last place up to n where a character begins. */
  function Boundary(s: string, n: nat): (b: nat)
    requires n < |s|
    ensures b <= n && (b == 0 || !Continues(s[b]))
    ensures forall k :: b < k <= n ==> Continues(s[k])
  {
    if n > 0 && Continues(s[n]) then Boundary(s, n - 1) else n
  }

  method FloorCharBoundary(s: string, n: nat) returns (b: nat)
    requires n < |s|
    ensures b == Boundary(s, n)
    ensures b <= n && (b == 0 || s[b] as int / 64 != 2) && forall k :: b < k <= n ==> s[k] as int / 64 == 2
  {
    b := n;
    while b > 0 && Continues(s[b])
      invariant b <= n && Boundary(s, b) == Boundary(s, n)
    {
      b := b - 1;
    }
  }

  /** The bytes of one character. */
  predicate OneChar(c: string) {
    c != "" && !Continues(c[0]) && forall i :: 0 < i < |c| ==> Continues(c[i])
  }

  function Concat(chars: seq<string>): string {
    if chars == [] then "" else chars[0] + Concat(chars[1..])
  }

  lemma {:induction false} BoundaryIs(s: string, n: nat, b: nat)
    requires b <= n < |s| && (b == 0 || !Continues(s[b])) && forall k :: b < k <= n ==> Continues(s[k])
    ensures Boundary(s, n) == b
  {
    if b < n { BoundaryIs(s, n - 1, b); }
  }

  /** What is left of a text of whole characters is one of whole characters. */
  lemma {:induction false} CutIsWhole(chars: seq<string>, n: nat) returns (k: nat)
    requires (forall i :: 0 <= i < |chars| ==> OneChar(chars[i])) && n < |Concat(chars)|
    ensures k <= |chars| && Concat(chars)[..Boundary(Concat(chars), n)] == Concat(chars[..k])
  {
    hide Boundary;
    var c, rest, s := chars[0], Concat(chars[1..]), Concat(chars);
    if n < |c| {
      forall j | 0 < j <= n ensures Continues(s[j]) { assert s[j] == c[j]; }
      BoundaryIs(s, n, 0);
      k := 0;
    } else {
      var k' := CutIsWhole(chars[1..], n - |c|);
      var b := Boundary(rest, n - |c|);
      RestStarts(chars[1..]);
      assert s[|c| + b] == rest[b];
      forall j | |c| + b < j <= n ensures Continues(s[j]) { assert s[j] == rest[j - |c|]; }
      BoundaryIs(s, n, |c| + b);
      k := k' + 1;
      assert chars[..k][1..] == chars[1..][..k'];
      assert s[..|c| + b] == c + rest[..b];
    }
  }

  lemma RestStarts(chars: seq<string>)
    requires forall i :: 0 <= i < |chars| ==> OneChar(chars[i])
    ensures Concat(chars) != "" ==> !Continues(Concat(chars)[0])
  {
  }

  class SmallStr {
    const cap: nat
    const buf: array<char>
    var len: nat

    ghost predicate Valid()
      reads this
    {
      buf.Length == cap && len <= cap
    }

    ghost function Text(): string
      reads this, buf
      requires Valid()
    {
      buf[..len]
    }

    constructor (cap: nat)
      ensures Valid() && this.cap == cap && Text() == "" && fresh(buf)
    {
      this.cap := cap;
      buf := new char[cap](i => '\0');
      len := 0;
    }

    method AsStr() returns (s: string)
      requires Valid()
      ensures s == Text()
    {
      s := buf[..len];
    }

    method Clear()
      requires Valid()
      modifies `len
      ensures Valid() && Text() == ""
    {
      len := 0;
    }

    method PushByte(b: char)
      requires Valid()
      modifies `len, buf
      ensures Valid() && Text() == old(Text()) + if old(len) < cap then [b] else ""
    {
      if len < cap {
        buf[len] := b;
        len := len + 1;
      }
    }

    method PushStr(s: string)
      requires Valid()
      modifies `len, buf
      ensures Valid()
      ensures Text() == old(Text()) + if |s| <= cap - old(len) then s else s[..Boundary(s, cap - old(len))]
    {
      var n := if |s| <= cap - len then |s| else cap - len;
      if n < |s| { n := FloorCharBoundary(s, n); }
      var i := 0;
      ghost var before := Text();
      while i < n
        invariant 0 <= i <= n && len == old(len)
        invariant buf[..len + i] == before + s[..i]
      {
        buf[len + i] := s[i];
        i := i + 1;
      }
      len := len + n;
    }

    /** The decimal text of v, digit by digit from its end. */
    method PushU16(v: nat)
      requires Valid() && v < 0x1_0000
      modifies `len, buf
      ensures Valid()
      ensures Text() == old(Text()) + if |Dec(v)| <= cap - old(len) then Dec(v) else Dec(v)[..cap - old(len)]
    {
      var tmp, i := Tail(v);
      ghost var digits, before := tmp[i..], Text();
      var j := i;
      while j < 5
        invariant i <= j <= 5 && Valid() && tmp[i..] == digits
        invariant len == |Text()| >= |before|
        invariant Text() == before + if j - i <= cap - |before| then digits[..j - i] else digits[..cap - |before|]
      {
        Pushed(before, digits, j - i, cap);
        PushByte(tmp[j]);
        j := j + 1;
      }
    }

    method PushU8Dec(v: nat)
      requires Valid() && v < 256
      modifies `len, buf
      ensures Valid()
      ensures Text() == old(Text()) + if |Dec(v)| <= cap - old(len) then Dec(v) else Dec(v)[..cap - old(len)]
    {
      PushU16(v);
    }
  }
}
