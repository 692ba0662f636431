/**
 Which texts are IPv6 literals and which address each one is (sensor/src/addr.rs, parse_ipv6): a grammar without the
 steps of the parser, and the parser against it, for every text.
 */
module Ipv6Literals {
  import opened Text
  import opened Ipv6Text
  import opened Ipv6Parse
  import opened AddrText
  import opened Addr
  import Decimal
  import Hex

  // ---- the grammar

  function DigitValue(c: char): (d: nat)
    requires IsHexDigit(c)
    ensures d < 16
  {
    if '0' <= c <= '9' then (c - '0') as nat
    else if 'a' <= c <= 'f' then 10 + (c - 'a') as nat
    else 10 + (c - 'A') as nat
  }

  /** The number that digits spell in a base. */
  function Spelled(s: string, base: nat): nat
    requires forall i :: 0 <= i < |s| ==> IsHexDigit(s[i])
  {
    if s == "" then 0 else Spelled(s[..|s| - 1], base) * base + DigitValue(s[|s| - 1])
  }

  /** One to four hexadecimal digits of either case. */
  predicate IsWord16(part: string, g: nat) {
    1 <= |part| <= 4 && (forall i :: 0 <= i < |part| ==> IsHexDigit(part[i])) && g == Spelled(part, 16)
  }

  /** One to three decimal digits, up to 255. */
  predicate IsByte(part: string) {
    1 <= |part| <= 3 && (forall i :: 0 <= i < |part| ==> '0' <= part[i] <= '9') && Spelled(part, 10) <= 255
  }

  predicate IsQuadOf(part: string, p: string, q: string, r: string, s: string, hi: nat, lo: nat) {
    && IsByte(p) && IsByte(q) && IsByte(r) && IsByte(s) && part == p + "." + (q + "." + (r + "." + s))
    && hi == Spelled(p, 10) * 256 + Spelled(q, 10) && lo == Spelled(r, 10) * 256 + Spelled(s, 10)
  }

  /** Four bytes with dots between, as two groups. */
  ghost predicate IsQuad(part: string, hi: nat, lo: nat) {
    exists p, q, r, s :: IsQuadOf(part, p, q, r, s, hi, lo)
  }

  /** The groups of parts that stand between colons: a word is one, and a quad at the end is two. */
  ghost predicate Reads(parts: seq<string>, gs: seq<nat>) {
    if parts == [] then gs == []
    else
      || (gs != [] && IsWord16(parts[0], gs[0]) && Reads(parts[1..], gs[1..]))
      || (|parts| == 1 && |gs| == 2 && IsQuad(parts[0], gs[0], gs[1]))
  }

  /** Nothing, or parts with single colons between. */
  ghost predicate Side(s: string, parts: seq<string>, gs: seq<nat>) {
    && s == Join(parts, ':') && (forall i :: 0 <= i < |parts| ==> ':' !in parts[i]) && Reads(parts, gs)
  }

  /** Two sides around "::". */
  ghost predicate Sides(text: string, l: string, r: string, lp: seq<string>, rp: seq<string>, lg: seq<nat>, rg: seq<nat>, gs: seq<nat>) {
    && text == l + "::" + r && Side(l, lp, lg) && Side(r, rp, rg)
    && |lg| + |rg| <= 7 && gs == lg + seq(8 - |lg| - |rg|, i => 0) + rg
  }

  /** Eight groups, or two sides around "::" of no more than seven. */
  ghost predicate Literal(text: string, gs: seq<nat>) {
    && text != "" && |text| <= 45 && |gs| == 8
    && (|| (exists parts :: Side(text, parts, gs))
        || (exists l, r, lp, rp, lg, rg :: Sides(text, l, r, lp, rp, lg, rg, gs)))
  }

  // ---- one part

  lemma {:induction false} SpelledHex(s: string)
    requires AllHex(s)
    ensures Spelled(s, 16) == Number(s)
  {
    LowerHex(s);
    if s != "" {
      var t := s[..|s| - 1];
      SpelledHex(t);
      LowerHex(t);
      assert LowerAscii(s)[..|s| - 1] == LowerAscii(t);
    }
  }

  lemma {:induction false} SpelledDec(s: string)
    requires Decimal.AllDigits(s)
    ensures Spelled(s, 10) == Decimal.Value(s)
  {
    if s != "" { SpelledDec(s[..|s| - 1]); }
  }

  lemma ByteIs(p: string)
    ensures IsOctet(p) <==> IsByte(p)
    ensures IsByte(p) ==> Spelled(p, 10) == Decimal.Value(p) && '.' !in p && ':' !in p
  {
    if Decimal.AllDigits(p) { SpelledDec(p); }
  }

  lemma WordIs(p: string)
    requires AllHex(p) && |p| <= 4
    ensures Number(p) == Spelled(p, 16) < GROUP
  {
    SpelledHex(p);
    LowerHex(p);
    NumberFits(LowerAscii(p));
    FourPlaces(|p|);
  }

  lemma FourPlaces(n: nat)
    requires n <= 4
    ensures Hex.Pow16(n) <= GROUP
  {
    assert Hex.Pow16(4) == GROUP && Hex.Pow16(3) == 4096 && Hex.Pow16(2) == 256 && Hex.Pow16(1) == 16;
  }

  /** Splitting loses nothing. */
  lemma {:induction false} JoinSplit(s: string, c: char)
    ensures Join(Split(s, c), c) == s
  {
    if s != "" {
      var rest := Split(s[1..], c);
      JoinSplit(s[1..], c);
      assert s == [s[0]] + s[1..];
      if s[0] == c {
        assert ([""] + rest)[1..] == rest;
        assert "" + [c] + s[1..] == s;
      } else {
        var parts := [[s[0]] + rest[0]] + rest[1..];
        assert parts[1..] == rest[1..];
        if |rest| > 1 { assert [s[0]] + rest[0] + [c] + Join(rest[1..], c) == [s[0]] + (rest[0] + [c] + Join(rest[1..], c)); }
      }
    }
  }

  lemma JoinFour(p: string, q: string, r: string, s: string)
    ensures Join([p, q, r, s], '.') == p + "." + (q + "." + (r + "." + s))
  {
    assert [p, q, r, s][1..] == [q, r, s] && [q, r, s][1..] == [r, s] && [r, s][1..] == [s];
    assert Join([r, s], '.') == r + "." + s;
    assert Join([q, r, s], '.') == q + "." + (r + "." + s);
  }

  /** The dotted quads are the texts that are read as addresses. */
  lemma QuadIs(part: string)
    ensures AddrToInt(part).Some? <==> exists hi: nat, lo: nat :: IsQuad(part, hi, lo)
    ensures forall hi: nat, lo: nat :: IsQuad(part, hi, lo) ==> '.' in part && AddrToInt(part) == Some(hi * GROUP + lo) && hi < GROUP && lo < GROUP
  {
    hide Split, Join, Decimal.Value, Spelled, IsByte;
    var ps := Split(part, '.');
    if AddrToInt(part).Some? {
      JoinSplit(part, '.');
      ByteIs(ps[0]);
      ByteIs(ps[1]);
      ByteIs(ps[2]);
      ByteIs(ps[3]);
      JoinFour(ps[0], ps[1], ps[2], ps[3]);
      assert ps == [ps[0], ps[1], ps[2], ps[3]];
      var hi, lo := Decimal.Value(ps[0]) * 256 + Decimal.Value(ps[1]), Decimal.Value(ps[2]) * 256 + Decimal.Value(ps[3]);
      assert IsQuadOf(part, ps[0], ps[1], ps[2], ps[3], hi, lo);
      assert IsQuad(part, hi, lo);
    }
    forall hi: nat, lo: nat | IsQuad(part, hi, lo)
      ensures '.' in part && AddrToInt(part) == Some(hi * GROUP + lo) && hi < GROUP && lo < GROUP
    {
      var p, q, r, s :| IsQuadOf(part, p, q, r, s, hi, lo);
      QuadReads(part, p, q, r, s, hi, lo);
    }
  }

  lemma QuadReads(part: string, p: string, q: string, r: string, s: string, hi: nat, lo: nat)
    requires IsQuadOf(part, p, q, r, s, hi, lo)
    ensures '.' in part && AddrToInt(part) == Some(hi * GROUP + lo) && hi < GROUP && lo < GROUP
  {
    hide Split, Join, Decimal.Value, Spelled, IsOctet;
    ByteIs(p);
    ByteIs(q);
    ByteIs(r);
    ByteIs(s);
    JoinFour(p, q, r, s);
    SplitJoin([p, q, r, s], '.');
    assert part[|p|] == '.';
  }

  /** What the parser makes of one part. */
  lemma PartIs(part: string, last: bool)
    ensures ParsePart(part, last).Some? ==>
      var gs := ParsePart(part, last).value;
      (|gs| == 1 && IsWord16(part, gs[0])) || (last && |gs| == 2 && IsQuad(part, gs[0], gs[1]))
    ensures forall g: nat :: IsWord16(part, g) ==> g < GROUP && ParsePart(part, last) == Some([g])
    ensures forall hi: nat, lo: nat :: last && IsQuad(part, hi, lo) ==> hi < GROUP && lo < GROUP && ParsePart(part, last) == Some([hi, lo])
  {
    hide IsQuad, AddrToInt, Number, Spelled;
    QuadIs(part);
    if AllHex(part) && |part| <= 4 { WordIs(part); }
    if last && AddrToInt(part).Some? {
      var hi: nat, lo: nat :| IsQuad(part, hi, lo);
      assert (hi * GROUP + lo) / GROUP == hi && (hi * GROUP + lo) % GROUP == lo;
    }
    forall hi: nat, lo: nat | last && IsQuad(part, hi, lo) ensures hi < GROUP && lo < GROUP && ParsePart(part, last) == Some([hi, lo]) {
      assert (hi * GROUP + lo) / GROUP == hi && (hi * GROUP + lo) % GROUP == lo;
    }
  }

  // ---- parts between colons

  lemma {:induction false} ReadsParse(parts: seq<string>, gs: seq<nat>)
    requires Reads(parts, gs)
    ensures ParseParts(parts) == Some(gs)
    decreases |parts|
  {
    hide ParsePart, IsWord16, IsQuad;
    if parts != [] {
      PartIs(parts[0], |parts| == 1);
      if gs != [] && IsWord16(parts[0], gs[0]) && Reads(parts[1..], gs[1..]) {
        ReadsParse(parts[1..], gs[1..]);
        assert gs == [gs[0]] + gs[1..];
      } else {
        assert parts[1..] == [] && gs == [gs[0], gs[1]] && gs + [] == gs;
        assert ParseParts(parts[1..]) == Some([]);
      }
    }
  }

  lemma {:induction false} ParseReads(parts: seq<string>)
    requires ParseParts(parts).Some?
    ensures Reads(parts, ParseParts(parts).value)
    decreases |parts|
  {
    hide ParsePart, IsWord16, IsQuad;
    if parts != [] {
      var g, rest := ParsePart(parts[0], |parts| == 1).value, ParseParts(parts[1..]).value;
      PartIs(parts[0], |parts| == 1);
      ParseReads(parts[1..]);
      var gs := g + rest;
      if |g| == 1 { assert gs[1..] == rest; } else { assert parts[1..] == [] && rest == []; }
    }
  }

  lemma {:induction false} ReadsFull(parts: seq<string>, gs: seq<nat>)
    requires Reads(parts, gs)
    ensures forall i :: 0 <= i < |parts| ==> parts[i] != ""
    decreases |parts|
  {
    hide IsByte, Spelled;
    if parts != [] && gs != [] && IsWord16(parts[0], gs[0]) && Reads(parts[1..], gs[1..]) {
      ReadsFull(parts[1..], gs[1..]);
      assert forall i :: 0 < i < |parts| ==> parts[i] == parts[1..][i - 1];
    }
  }

  /** Full parts with single colons between have no double colon, and what follows them brings the first. */
  lemma {:induction false} SideDouble(parts: seq<string>)
    requires parts != [] && forall i :: 0 <= i < |parts| ==> ':' !in parts[i] && parts[i] != ""
    ensures var t := Join(parts, ':');
      && t != "" && t[0] != ':' && Double(t) == None
      && forall rest :: Double(t + "::" + rest) == Some(|t|)
    decreases |parts|
  {
    hide Double;
    var w := parts[0];
    if |parts| == 1 {
      DoublePass(w, "");
      DoubleEnds("", "");
      assert w + "" == w;
      forall rest ensures Double(w + "::" + rest) == Some(|w|) {
        DoublePass(w, "::" + rest);
        DoubleEnds("", rest);
        assert w + "::" + rest == w + ("::" + rest);
      }
    } else {
      var t := Join(parts[1..], ':');
      SideDouble(parts[1..]);
      DoubleColon(t);
      DoublePass(w, ":" + t);
      assert Join(parts, ':') == w + (":" + t);
      forall rest ensures Double(Join(parts, ':') + "::" + rest) == Some(|Join(parts, ':')|) {
        assert Join(parts, ':') + "::" + rest == w + (":" + (t + "::" + rest));
        DoubleColon(t + "::" + rest);
        DoublePass(w, ":" + (t + "::" + rest));
      }
    }
  }

  /** A side is read as its groups. */
  lemma SideReads(s: string, parts: seq<string>, gs: seq<nat>)
    requires Side(s, parts, gs)
    ensures ParseGroups(s) == Some(gs)
    ensures Double(s) == None && forall rest :: Double(s + "::" + rest) == Some(|s|)
  {
    hide Reads, ParseParts, Double, Split;
    ReadsParse(parts, gs);
    ReadsFull(parts, gs);
    if parts == [] {
      JoinNone();
      NoReads(gs);
      DoubleEnds("", "");
      forall rest ensures Double(s + "::" + rest) == Some(|s|) { DoubleEnds("", rest); assert s + "::" + rest == "::" + rest; }
    } else {
      SplitJoin(parts, ':');
      SideDouble(parts);
    }
  }

  lemma NoReads(gs: seq<nat>)
    requires Reads([], gs)
    ensures gs == []
  {
  }

  /** What is read as groups is a side. */
  lemma SideOf(s: string) returns (parts: seq<string>)
    requires ParseGroups(s).Some?
    ensures Side(s, parts, ParseGroups(s).value)
  {
    hide ParseParts, Split;
    if s == "" {
      parts := [];
      JoinNone();
    } else {
      parts := Split(s, ':');
      JoinSplit(s, ':');
      SplitParts(s, ':');
      ParseReads(parts);
      assert forall i :: 0 <= i < |parts| ==> parts[i] in parts;
    }
  }

  lemma {:induction false} DoubleColons(t: string)
    requires Double(t).Some?
    ensures var i := Double(t).value; t[i] == ':' && t[i + 1] == ':'
    decreases |t|
  {
    if !(t[0] == ':' && t[1] == ':') { DoubleColons(t[1..]); }
  }

  lemma DoubleAt(t: string)
    requires Double(t).Some?
    ensures var i := Double(t).value; t == t[..i] + "::" + t[i + 2..]
  {
    hide Double;
    DoubleColons(t);
  }

  // ---- the literals

  lemma LiteralParses(text: string, gs: seq<nat>)
    requires Literal(text, gs)
    ensures ParseV6(text) == Some(gs)
  {
    hide Side, ParseGroups, Double;
    if parts :| Side(text, parts, gs) {
      SideReads(text, parts, gs);
    } else {
      var l, r, lp, rp, lg, rg :| Sides(text, l, r, lp, rp, lg, rg, gs);
      SideReads(l, lp, lg);
      SideReads(r, rp, rg);
      assert text[..|l|] == l && text[|l| + 2..] == r;
      assert Zeros(8 - |lg| - |rg|) == seq(8 - |lg| - |rg|, i => 0);
    }
  }

  lemma ParsesLiteral(text: string)
    requires ParseV6(text).Some?
    ensures Literal(text, ParseV6(text).value)
  {
    hide Side, ParseGroups, Double;
    if Double(text).None? {
      var parts := SideOf(text);
    } else {
      var i := Double(text).value;
      DoubleAt(text);
      var l, r := text[..i], text[i + 2..];
      var lp := SideOf(l);
      var rp := SideOf(r);
      var lg, rg := ParseGroups(l).value, ParseGroups(r).value;
      assert Zeros(8 - |lg| - |rg|) == seq(8 - |lg| - |rg|, i => 0);
      assert Sides(text, l, r, lp, rp, lg, rg, ParseV6(text).value);
    }
  }

  /** Exactly the literals are read, each as its groups. */
  lemma LiteralExactly(text: string, gs: seq<nat>)
    ensures ParseV6(text) == Some(gs) <==> Literal(text, gs)
  {
    hide Literal, ParseV6;
    if ParseV6(text).Some? { ParsesLiteral(text); }
    if Literal(text, gs) { LiteralParses(text, gs); }
  }

  // ---- a dotted quad at the end

  /** The same two groups in hexadecimal. */
  function Words(v: nat): string
    requires v < 0x1_0000_0000
  {
    Hex.Digits(v / GROUP) + ":" + Hex.Digits(v % GROUP)
  }

  lemma QuadGroups(v: nat)
    requires v < 0x1_0000_0000
    ensures IsQuad(Quad(v), v / GROUP, v % GROUP) && ':' !in Quad(v)
    ensures forall hi: nat, lo: nat :: IsQuad(Quad(v), hi, lo) ==> hi == v / GROUP && lo == v % GROUP
    ensures forall g: nat :: !IsWord16(Quad(v), g)
  {
    hide Quad, AddrToInt, IsQuad, Spelled;
    QuadRoundTrip(v);
    QuadIs(Quad(v));
    forall hi: nat, lo: nat | IsQuad(Quad(v), hi, lo) ensures hi == v / GROUP && lo == v % GROUP {
      assert hi * GROUP + lo == v;
    }
    NoColon(Quad(v));
  }

  lemma NoColon(part: string)
    requires exists hi: nat, lo: nat :: IsQuad(part, hi, lo)
    ensures ':' !in part
  {
    hide Spelled;
    var hi: nat, lo: nat :| IsQuad(part, hi, lo);
    var p, q, r, s :| IsQuadOf(part, p, q, r, s, hi, lo);
    ByteIs(p);
    ByteIs(q);
    ByteIs(r);
    ByteIs(s);
  }

  lemma WordsAre(g: Group)
    ensures IsWord16(Hex.Digits(g), g) && ':' !in Hex.Digits(g)
  {
    hide Hex.Digits, Hex.Value, Hex.DigitValue, Spelled, LowerAscii;
    Hex4Spells(g);
    var w := Hex.Digits(g);
    LowerStays(w);
    SpelledHex(w);
  }

  lemma LowerStays(w: string)
    requires forall i :: 0 <= i < |w| ==> Hex.IsDigit(w[i])
    ensures LowerAscii(w) == w && AllHex(w) && ':' !in w
  {
  }

  lemma {:induction false} SplitSnoc(h: string, q: string, c: char)
    requires c !in q
    ensures Split(h + [c] + q, c) == Split(h, c) + [q]
    decreases |h|
  {
    var s := h + [c] + q;
    if h == "" {
      SplitWhole(q, c);
      assert s[1..] == q;
    } else {
      assert s[1..] == h[1..] + [c] + q && s[0] == h[0];
      SplitSnoc(h[1..], q, c);
    }
  }

  /** A quad after some parts is read as the two words would be. */
  lemma {:induction false} QuadLast(front: seq<string>, v: nat, gs: seq<nat>)
    requires v < 0x1_0000_0000 && Reads(front + [Quad(v)], gs)
    ensures |gs| >= 2 && gs[|gs| - 2] == v / GROUP && gs[|gs| - 1] == v % GROUP
    ensures Reads(front + [Hex.Digits(v / GROUP), Hex.Digits(v % GROUP)], gs)
    decreases |front|
  {
    hide Quad, Hex.Digits, IsQuad, Spelled;
    var q, a, b := Quad(v), Hex.Digits(v / GROUP), Hex.Digits(v % GROUP);
    QuadGroups(v);
    if front == [] {
      WordsAre(v / GROUP);
      WordsAre(v % GROUP);
      assert front + [q] == [q] && front + [a, b] == [a, b] && [a, b][1..] == [b] && [b][1..] == [];
      assert gs[1..][1..] == [];
      assert Reads([b], gs[1..]);
    } else {
      assert (front + [q])[1..] == front[1..] + [q] && (front + [a, b])[1..] == front[1..] + [a, b];
      QuadLast(front[1..], v, gs[1..]);
    }
  }

  /** A side that ends in a quad. */
  lemma SideQuad(h: string, v: nat, parts: seq<string>, gs: seq<nat>) returns (words: seq<string>)
    requires v < 0x1_0000_0000 && Side(h + ":" + Quad(v), parts, gs)
    ensures |gs| >= 2 && gs[|gs| - 2] == v / GROUP && gs[|gs| - 1] == v % GROUP
    ensures Side(h + ":" + Words(v), words, gs)
  {
    hide Quad, Hex.Digits, Reads, Split, Join;
    var q, a, b := Quad(v), Hex.Digits(v / GROUP), Hex.Digits(v % GROUP);
    QuadGroups(v);
    WordsAre(v / GROUP);
    WordsAre(v % GROUP);
    var front := Split(h, ':');
    JoinNone();
    SplitJoin(parts, ':');
    SplitSnoc(h, q, ':');
    assert parts == front + [q];
    QuadLast(front, v, gs);
    words := front + [a, b];
    SplitSnoc(h, a, ':');
    SplitSnoc(h + ":" + a, b, ':');
    var t := h + ":" + a + ":" + b;
    JoinSplit(t, ':');
    SplitParts(t, ':');
    assert words == front + [a] + [b] && h + ":" + Words(v) == t;
    assert forall i :: 0 <= i < |words| ==> words[i] in words;
  }

  /** A side that is a quad. */
  lemma QuadSide(v: nat, parts: seq<string>, gs: seq<nat>) returns (words: seq<string>)
    requires v < 0x1_0000_0000 && Side(Quad(v), parts, gs)
    ensures gs == [v / GROUP, v % GROUP]
    ensures Side(Words(v), words, gs)
  {
    hide Quad, Hex.Digits, Split, IsQuad, Spelled, Join;
    var q, a, b := Quad(v), Hex.Digits(v / GROUP), Hex.Digits(v % GROUP);
    QuadGroups(v);
    WordsAre(v / GROUP);
    WordsAre(v % GROUP);
    QuadLength(v);
    JoinNone();
    SplitJoin(parts, ':');
    SplitWhole(q, ':');
    words := [a, b];
    assert parts == [q];
    assert [] + [q] == [q] && [] + [a, b] == [a, b];
    QuadLast([], v, gs);
    JoinTwo(a, b);
    assert parts[1..] == [];
  }

  lemma ByteLength(o: nat)
    requires o < 256
    ensures 1 <= |Decimal.Dec(o)| <= 3 && (o >= 10 ==> |Decimal.Dec(o)| >= 2)
  {
    hide Decimal.Dec;
    Decimal.DecLength(o);
    Decimal.DecRoundTrip(o);
    if o >= 10 { TwoDigits(o); }
  }

  lemma TwoDigits(o: nat)
    requires o >= 10
    ensures |Decimal.Dec(o)| >= 2
  {
    Decimal.DecRoundTrip(o / 10);
    assert Decimal.Dec(o) == Decimal.Dec(o / 10) + [Decimal.DigitOf(o % 10)];
  }

  lemma WordLength(a: nat, b: nat)
    requires a < 256 && b < 256
    ensures 1 <= |Hex.Digits(a * 256 + b)| <= |Decimal.Dec(a)| + 1 + |Decimal.Dec(b)|
  {
    hide Decimal.Dec, Hex.Digits;
    ByteLength(a);
    ByteLength(b);
    FourPlaces(0);
    Hex4Spells(a * 256 + b);
    if a < 10 { Hex.DigitsLength(a * 256 + b, 3); }
  }

  lemma QuadLength(v: nat)
    requires v < 0x1_0000_0000
    ensures 7 <= |Quad(v)| <= 15 && |Words(v)| <= |Quad(v)|
  {
    hide Decimal.Dec, Hex.Digits, Join;
    var o := Octets(v);
    ByteLength(o[0]);
    ByteLength(o[1]);
    ByteLength(o[2]);
    ByteLength(o[3]);
    JoinFour(Decimal.Dec(o[0]), Decimal.Dec(o[1]), Decimal.Dec(o[2]), Decimal.Dec(o[3]));
    OctetPairs(v);
    WordLength(o[0], o[1]);
    WordLength(o[2], o[3]);
  }

  lemma OctetPairs(v: nat)
    requires v < 0x1_0000_0000
    ensures var o := Octets(v); v / GROUP == o[0] * 256 + o[1] && v % GROUP == o[2] * 256 + o[3]
  {
    assert v / 0x1_0000 / 256 == v / 0x100_0000;
    assert v % GROUP / 256 == v / 256 % 256;
  }

  lemma JoinTwo(a: string, b: string)
    ensures Join([a, b], ':') == a + ":" + b
  {
    assert [a, b][1..] == [b];
  }

  lemma QuadSides(head: string, v: nat, gs: seq<nat>, l: string, r: string, lp: seq<string>, rp: seq<string>, lg: seq<nat>, rg: seq<nat>)
    requires v < 0x1_0000_0000 && Sides(head + ":" + Quad(v), l, r, lp, rp, lg, rg, gs)
    ensures |gs| == 8 && gs[6] == v / GROUP && gs[7] == v % GROUP
    ensures exists r', rp' :: Sides(head + ":" + Words(v), l, r', lp, rp', lg, rg, gs)
  {
    hide Side, Quad, Words;
    var q := Quad(v);
    QuadLength(v);
    QuadGroups(v);
    var words: seq<string>;
    var h := TailOf(head, q, l, r);
    if r == q {
      words := QuadSide(v, rp, rg);
      assert head + ":" + Words(v) == l + "::" + Words(v);
      assert Sides(head + ":" + Words(v), l, Words(v), lp, words, lg, rg, gs);
    } else {
      words := SideQuad(h, v, rp, rg);
      assert head + ":" + Words(v) == l + "::" + (h + ":" + Words(v));
      assert Sides(head + ":" + Words(v), l, h + ":" + Words(v), lp, words, lg, rg, gs);
    }
  }

  /** A literal that ends in a dotted quad is the one with two words in its place. */
  lemma QuadLiteral(head: string, v: nat, gs: seq<nat>)
    requires v < 0x1_0000_0000 && Literal(head + ":" + Quad(v), gs)
    ensures |gs| == 8 && gs[6] == v / GROUP && gs[7] == v % GROUP
    ensures Literal(head + ":" + Words(v), gs)
  {
    hide Side, Quad, Words, Sides;
    var text := head + ":" + Quad(v);
    QuadLength(v);
    if parts :| Side(text, parts, gs) {
      var words := SideQuad(head, v, parts, gs);
    } else {
      var l, r, lp, rp, lg, rg :| Sides(text, l, r, lp, rp, lg, rg, gs);
      QuadSides(head, v, gs, l, r, lp, rp, lg, rg);
    }
  }

  lemma LongTail(head: string, q: string, l: string, r: string)
    requires head + ":" + q == l + "::" + r && ':' !in q
    ensures |r| >= |q|
  {
    var t := head + ":" + q;
    assert t[|l| + 1] == (l + "::" + r)[|l| + 1] == ':';
    forall i | |head| < i < |t| ensures t[i] != ':' { assert t[i] == q[i - |head| - 1]; }
  }

  /** Where a text that ends in a colon and q is cut at a double colon, what follows ends in q. */
  lemma TailOf(head: string, q: string, l: string, r: string) returns (h: string)
    requires head + ":" + q == l + "::" + r && q != "" && ':' !in q
    ensures if r == q then head == l + ":" else r == h + ":" + q && head == l + "::" + h
  {
    var t := head + ":" + q;
    assert t[|t| - |r|..] == r && t[|t| - |q|..] == q;
    LongTail(head, q, l, r);
    if |r| == |q| {
      assert r == q;
      assert t[..|head|] == head && (l + "::" + r)[..|l| + 1] == l + ":";
      h := "";
    } else {
      h := r[..|r| - |q| - 1];
      assert t[|t| - |q| - 1] == ':' && t[|t| - |q| - 1] == r[|r| - |q| - 1];
      assert r == r[..|r| - |q| - 1] + [r[|r| - |q| - 1]] + r[|r| - |q|..] && r[|r| - |q|..] == q;
      assert t == l + "::" + h + ":" + q && |head| == |l + "::" + h|;
      assert t[..|head|] == head && t[..|head|] == l + "::" + h;
    }
  }

  /** The number of such a literal: its low 32 bits are the quad's, and it is read as with two words. */
  lemma QuadTail(head: string, v: nat)
    requires v < 0x1_0000_0000 && ParseNumber(head + ":" + Quad(v)).Some?
    ensures ParseNumber(head + ":" + Quad(v)).value % 0x1_0000_0000 == v
    ensures ParseNumber(head + ":" + Words(v)) == ParseNumber(head + ":" + Quad(v))
  {
    hide Quad, Words, ParseV6, Literal;
    var gs := ParseV6(head + ":" + Quad(v)).value;
    LiteralExactly(head + ":" + Quad(v), gs);
    QuadLiteral(head, v, gs);
    LiteralExactly(head + ":" + Words(v), gs);
    LowWords(gs);
  }

  lemma LowWords(gs: seq<Group>)
    requires |gs| == 8
    ensures NumberOf(gs) % 0x1_0000_0000 == gs[6] * GROUP + gs[7]
  {
    assert gs[..7][..6] == gs[..6];
    var n := NumberOf(gs[..6]);
    assert NumberOf(gs) == (n * GROUP + gs[6]) * GROUP + gs[7];
    assert (n * GROUP + gs[6]) * GROUP + gs[7] == n * 0x1_0000_0000 + (gs[6] * GROUP + gs[7]);
  }

  function MappedGroups(v: nat): seq<Group>
    requires v < 0x1_0000_0000
  {
    [0, 0, 0, 0, 0, 0xffff, v / GROUP, v % GROUP]
  }

  lemma MappedSide(v: nat)
    requires v < 0x1_0000_0000
    ensures Side("ffff:" + Quad(v), ["ffff", Quad(v)], [0xffff, v / GROUP, v % GROUP])
  {
    hide Quad, Reads;
    QuadLength(v);
    QuadGroups(v);
    MappedReads(v);
    JoinTwo("ffff", Quad(v));
  }

  lemma MappedLiteral(v: nat)
    requires v < 0x1_0000_0000
    ensures Literal("::ffff:" + Quad(v), MappedGroups(v))
  {
    hide Quad, Side;
    var gs, rg: seq<nat>, r := MappedGroups(v), [0xffff, v / GROUP, v % GROUP], "ffff:" + Quad(v);
    QuadLength(v);
    MappedSide(v);
    NothingSide();
    assert "::ffff:" + Quad(v) == "" + "::" + r && gs == [] + seq(8 - 0 - 3, i => 0) + rg;
    assert Sides("::ffff:" + Quad(v), "", r, [], ["ffff", Quad(v)], [], rg, gs);
  }

  lemma NothingSide()
    ensures Side("", [], [])
  {
    JoinNone();
    NothingReads();
  }

  /** An IPv4-mapped address. */
  lemma MappedV4(v: nat)
    requires v < 0x1_0000_0000
    ensures ParseNumber("::ffff:" + Quad(v)) == Some(0xffff_0000_0000 + v)
  {
    hide Quad, ParseV6, Literal;
    MappedLiteral(v);
    LiteralExactly("::ffff:" + Quad(v), MappedGroups(v));
    MappedNumber(MappedGroups(v), v);
  }

  lemma NothingReads()
    ensures Reads([], [])
  {
  }

  lemma MappedReads(v: nat)
    requires v < 0x1_0000_0000
    ensures Reads(["ffff", Quad(v)], [0xffff, v / GROUP, v % GROUP]) && ':' !in "ffff"
  {
    hide Quad, IsQuad;
    QuadGroups(v);
    assert "ffff"[..3] == "fff" && "fff"[..2] == "ff" && "ff"[..1] == "f" && "f"[..0] == "";
    assert Spelled("f", 16) == 15 && Spelled("ff", 16) == 255 && Spelled("fff", 16) == 4095 && Spelled("ffff", 16) == 65535;
    var parts, gs := ["ffff", Quad(v)], [0xffff, v / GROUP, v % GROUP];
    assert parts[1..] == [Quad(v)] && gs[1..] == [v / GROUP, v % GROUP];
  }

  lemma MappedNumber(gs: seq<Group>, v: nat)
    requires v < 0x1_0000_0000 && gs == [0, 0, 0, 0, 0, 0xffff, v / GROUP, v % GROUP]
    ensures NumberOf(gs) == 0xffff_0000_0000 + v
  {
    assert gs[..7][..6] == gs[..6] && gs[..6][..5] == gs[..5] && gs[..5][..4] == gs[..4];
    assert gs[..4][..3] == gs[..3] && gs[..3][..2] == gs[..2] && gs[..2][..1] == gs[..1] && gs[..1][..0] == [];
    assert NumberOf(gs[..1]) == 0;
    assert NumberOf(gs[..2]) == 0;
    assert NumberOf(gs[..3]) == 0;
    assert NumberOf(gs[..4]) == 0;
    assert NumberOf(gs[..5]) == 0;
    assert NumberOf(gs[..6]) == 0xffff;
    assert NumberOf(gs[..7]) == 0xffff * GROUP + v / GROUP;
  }

  /** A quad is also read before "::", where no other text follows: the first two groups. */
  lemma QuadFirst(v: nat)
    requires v < 0x1_0000_0000
    ensures ParseV6(Quad(v) + "::") == Some([v / GROUP, v % GROUP, 0, 0, 0, 0, 0, 0])
  {
    hide Quad, ParseV6, IsQuad;
    var gs, lg: seq<nat>, q := [v / GROUP, v % GROUP, 0, 0, 0, 0, 0, 0], [v / GROUP, v % GROUP], Quad(v);
    QuadLength(v);
    QuadGroups(v);
    JoinNone();
    NothingReads();
    JoinOne(q);
    assert Reads([q], lg);
    assert q + "::" == q + "::" + "" && gs == lg + seq(8 - 2 - 0, i => 0) + [];
    assert Sides(q + "::", q, "", [q], [], lg, [], gs);
    LiteralExactly(q + "::", gs);
  }

  lemma JoinOne(a: string)
    ensures Join([a], ':') == a
  {
  }

  // ---- canonical forms of keys

  predicate IsPort(p: string) {
    1 <= |p| <= 5 && (forall i :: 0 <= i < |p| ==> '0' <= p[i] <= '9') && Spelled(p, 10) <= 65535
  }

  /** The canonical form of a bracketed key: the address rewritten and the port kept, or the text as it is. */
  lemma KeyCanonical(a: string, port: string)
    requires ']' !in a
    ensures CanonicalIpText("[" + a + "]:" + port) ==
      if ParseNumber(a).Some? && IsPort(port) then "[" + TextOf(V6(ParseNumber(a).value)) + "]:" + port else "[" + a + "]:" + port
  {
    hide ParseNumber, TextOf, Spelled, Find, Decimal.Value;
    var text := "[" + a + "]:" + port;
    KeyParts(a, port);
    if Decimal.AllDigits(port) { SpelledDec(port); }
    PortDigits(port);
  }

  lemma PortDigits(port: string)
    ensures Decimal.AllDigits(port) <==> forall i :: 0 <= i < |port| ==> '0' <= port[i] <= '9'
  {
  }

  /** Where a bracketed key is cut. */
  lemma KeyParts(a: string, port: string)
    requires ']' !in a
    ensures var text := "[" + a + "]:" + port;
      && text[0] == '[' && ':' in text && Find(text[1..], "]:") == Some(|a|)
      && text[1..][..|a|] == a && text[1..][|a| + 2..] == port
  {
    hide Find;
    var text := "[" + a + "]:" + port;
    FindFirst(a, port, "]:");
    assert text[1..] == a + ("]:" + port) && text[|a| + 2] == ':';
    assert text[1..][..|a|] == a && text[1..][|a| + 2..] == port;
  }

  /** The canonical form of any other text. */
  lemma TextCanonical(text: string)
    requires text == "" || text[0] != '['
    ensures CanonicalIpText(text) == if ':' in text && ParseNumber(text).Some? then TextOf(V6(ParseNumber(text).value)) else text
  {
  }
}
