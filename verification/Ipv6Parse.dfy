/**
 Reading addresses back (sensor/src/addr.rs): dotted quads, and IPv6 literals with "::" and a trailing
 dotted quad. What the renderer writes is read back to the address it was written for.
 */
module Ipv6Parse {
  import opened Text
  import opened Ipv6Text
  import Decimal
  import Hex

  // ---- numbers and groups

  const GROUP := 0x1_0000

  /** The n lowest 16-bit groups of v, highest first. */
  function GroupsOf(v: nat, n: nat): (gs: seq<Group>)
    ensures |gs| == n
  {
    if n == 0 then [] else GroupsOf(v / GROUP, n - 1) + [v % GROUP]
  }

  function NumberOf(gs: seq<Group>): nat {
    if gs == [] then 0 else NumberOf(gs[..|gs| - 1]) * GROUP + gs[|gs| - 1]
  }

  function Bound(n: nat): nat {
    if n == 0 then 1 else Bound(n - 1) * GROUP
  }

  lemma {:induction false} GroupsRoundTrip(v: nat, n: nat)
    requires v < Bound(n)
    ensures NumberOf(GroupsOf(v, n)) == v
  {
    if n > 0 {
      GroupsRoundTrip(v / GROUP, n - 1);
      assert GroupsOf(v, n)[..n - 1] == GroupsOf(v / GROUP, n - 1);
    }
  }

  lemma {:induction false} NumberRoundTrip(gs: seq<Group>)
    ensures GroupsOf(NumberOf(gs), |gs|) == gs && NumberOf(gs) < Bound(|gs|)
  {
    if gs != [] {
      NumberRoundTrip(gs[..|gs| - 1]);
    }
  }

  // ---- dotted quads

  predicate IsOctet(p: string) {
    p != "" && |p| <= 3 && Decimal.AllDigits(p) && Decimal.Value(p) <= 255
  }

  function AddrToInt(value: string): (r: Option<nat>)
    ensures r.Some? ==> r.value < 0x1_0000_0000
  {
    var p := Split(value, '.');
    if |p| == 4 && IsOctet(p[0]) && IsOctet(p[1]) && IsOctet(p[2]) && IsOctet(p[3])
    then Some(((Decimal.Value(p[0]) * 256 + Decimal.Value(p[1])) * 256 + Decimal.Value(p[2])) * 256 + Decimal.Value(p[3]))
    else None
  }

  function Octets(v: nat): (o: seq<nat>)
    requires v < 0x1_0000_0000
    ensures |o| == 4 && forall i :: 0 <= i < 4 ==> o[i] < 256
  {
    [v / 0x100_0000, v / 0x1_0000 % 256, v / 256 % 256, v % 256]
  }

  /** `int_to_addr` */
  function Quad(v: nat): string
    requires v < 0x1_0000_0000
  {
    var o := Octets(v);
    Join([Decimal.Dec(o[0]), Decimal.Dec(o[1]), Decimal.Dec(o[2]), Decimal.Dec(o[3])], '.')
  }

  lemma OctetText(o: nat)
    requires o < 256
    ensures IsOctet(Decimal.Dec(o)) && Decimal.Value(Decimal.Dec(o)) == o
    ensures '.' !in Decimal.Dec(o) && ':' !in Decimal.Dec(o)
  {
    Decimal.DecRoundTrip(o);
    Decimal.DecLength(o);
  }

  lemma QuadRoundTrip(v: nat)
    requires v < 0x1_0000_0000
    ensures AddrToInt(Quad(v)) == Some(v)
  {
    hide IsOctet, Join, Split, Decimal.Dec, Decimal.Value;
    var o := Octets(v);
    OctetText(o[0]);
    OctetText(o[1]);
    OctetText(o[2]);
    OctetText(o[3]);
    SplitJoin([Decimal.Dec(o[0]), Decimal.Dec(o[1]), Decimal.Dec(o[2]), Decimal.Dec(o[3])], '.');
    assert v / 256 == v / 0x1_0000 * 256 + v / 256 % 256;
    assert v / 0x1_0000 == v / 0x100_0000 * 256 + v / 0x1_0000 % 256;
  }

  // ---- IPv6 literals

  predicate IsHexDigit(c: char) {
    '0' <= c <= '9' || 'a' <= c <= 'f' || 'A' <= c <= 'F'
  }

  predicate AllHex(s: string) {
    forall i :: 0 <= i < |s| ==> IsHexDigit(s[i])
  }

  lemma LowerHex(s: string)
    requires AllHex(s)
    ensures forall i :: 0 <= i < |s| ==> Hex.IsDigit(LowerAscii(s)[i])
  {
  }

  function Number(s: string): nat
    requires AllHex(s)
  {
    LowerHex(s);
    Hex.Value(LowerAscii(s))
  }

  lemma {:induction false} NumberFits(s: string)
    requires forall i :: 0 <= i < |s| ==> Hex.IsDigit(s[i])
    ensures Hex.Value(s) < Hex.Pow16(|s|)
  {
    if s != "" { NumberFits(s[..|s| - 1]); }
  }

  /** One part between colons; only the last may be a dotted quad. */
  function ParsePart(part: string, last: bool): Option<seq<Group>> {
    if part == "" then None
    else if last && '.' in part then
      var v := AddrToInt(part);
      if v.None? then None else Some([v.value / GROUP, v.value % GROUP])
    else if |part| > 4 || !AllHex(part) then None
    else if Number(part) >= GROUP then None
    else Some([Number(part)])
  }

  function ParseParts(parts: seq<string>): Option<seq<Group>> {
    if parts == [] then Some([])
    else
      var g := ParsePart(parts[0], |parts| == 1);
      var rest := ParseParts(parts[1..]);
      if g.None? || rest.None? then None else Some(g.value + rest.value)
  }

  function ParseGroups(s: string): Option<seq<Group>> {
    if s == "" then Some([]) else ParseParts(Split(s, ':'))
  }

  /** Where "::" first stands. */
  function Double(t: string): (r: Option<nat>)
    ensures r.Some? ==> r.value + 2 <= |t|
  {
    if |t| < 2 then None
    else if t[0] == ':' && t[1] == ':' then Some(0)
    else match Double(t[1..]) case None => None case Some(i) => Some(i + 1)
  }

  function Zeros(n: nat): (z: seq<Group>)
    ensures |z| == n
  {
    seq(n, i => 0)
  }

  function ParseV6(text: string): (r: Option<seq<Group>>)
    ensures r.Some? ==> |r.value| == 8
  {
    if text == "" || |text| > 45 then None
    else
      match Double(text)
      case None =>
        var gs := ParseGroups(text);
        if gs.Some? && |gs.value| == 8 then gs else None
      case Some(i) =>
        var tail := text[i + 2..];
        if Double(tail).Some? then None
        else
          var left, right := ParseGroups(text[..i]), ParseGroups(tail);
          if left.None? || right.None? || |left.value| + |right.value| > 7 then None
          else Some(left.value + Zeros(8 - |left.value| - |right.value|) + right.value)
  }

  // ---- what is written is read back

  /** A text of one group. */
  ghost predicate Spells(w: string, g: Group) {
    && 0 < |w| <= 4 && (forall i :: 0 <= i < |w| ==> Hex.IsDigit(w[i]))
    && Hex.Value(w) == g
  }

  ghost predicate SpellsAll(ws: seq<string>, gs: seq<Group>) {
    |ws| == |gs| && forall i :: 0 <= i < |ws| ==> Spells(ws[i], gs[i])
  }

  lemma PartSpelled(w: string, g: Group, last: bool)
    requires Spells(w, g)
    ensures ParsePart(w, last) == Some([g]) && ':' !in w && '.' !in w
  {
    assert LowerAscii(w) == w;
  }

  lemma {:induction false} PartsSpelled(ws: seq<string>, gs: seq<Group>)
    requires SpellsAll(ws, gs)
    ensures ParseParts(ws) == Some(gs)
  {
    hide Spells, ParsePart;
    if ws != [] {
      PartSpelled(ws[0], gs[0], |ws| == 1);
      PartsSpelled(ws[1..], gs[1..]);
      assert [gs[0]] + gs[1..] == gs;
    }
  }

  lemma GroupsSpelled(ws: seq<string>, gs: seq<Group>)
    requires SpellsAll(ws, gs)
    ensures ParseGroups(Join(ws, ':')) == Some(gs)
  {
    hide Spells, ParsePart, ParseParts, Split;
    forall i | 0 <= i < |ws| ensures ':' !in ws[i] && ws[i] != "" { PartSpelled(ws[i], gs[i], false); SpelledText(ws[i], gs[i]); }
    PartsSpelled(ws, gs);
    if ws != [] { SplitJoin(ws, ':'); }
  }

  lemma SpelledText(w: string, g: Group)
    requires Spells(w, g)
    ensures w != "" && w[0] != ':' && |w| <= 4 && ':' !in w && '.' !in w
  {
  }

  /** Joined groups hold no double colon, and none next to what follows. */
  lemma {:induction false} NoDouble(ws: seq<string>, gs: seq<Group>)
    requires SpellsAll(ws, gs) && ws != []
    ensures var t := Join(ws, ':');
      && t != "" && t[0] != ':' && |t| <= 5 * |ws| - 1
      && Double(t) == None
      && (forall rest :: Double(t + "::" + rest) == Some(|t|))
      && '.' !in t
  {
    hide Spells, Double;
    SpelledText(ws[0], gs[0]);
    if |ws| == 1 {
      DoublePass(ws[0], "");
      assert ws[0] + "" == ws[0];
      DoubleEnds(ws[0], "");
      forall rest ensures Double(ws[0] + "::" + rest) == Some(|ws[0]|) {
        DoublePass(ws[0], "::" + rest);
        DoubleEnds("", rest);
        assert ws[0] + "::" + rest == ws[0] + ("::" + rest);
      }
    } else {
      var t := Join(ws[1..], ':');
      NoDouble(ws[1..], gs[1..]);
      DoubleColon(t);
      DoublePass(ws[0], ":" + t);
      assert Join(ws, ':') == ws[0] + (":" + t);
      forall rest ensures Double(Join(ws, ':') + "::" + rest) == Some(|Join(ws, ':')|) {
        assert Join(ws, ':') + "::" + rest == ws[0] + (":" + (t + "::" + rest));
        DoubleColon(t + "::" + rest);
        DoublePass(ws[0], ":" + (t + "::" + rest));
      }
    }
  }

  /** A word before a text shifts its double colon. */
  lemma {:induction false} DoublePass(w: string, t: string)
    requires ':' !in w
    ensures Double(w + t) == match Double(t) case None => None case Some(i) => Some(|w| + i)
  {
    if w == "" {
      assert w + t == t;
    } else {
      assert (w + t)[1..] == w[1..] + t;
      DoublePass(w[1..], t);
      if |w + t| < 2 { assert t == ""; }
    }
  }

  /** So does a colon before a text that does not begin with one. */
  lemma DoubleColon(t: string)
    requires t != "" && t[0] != ':'
    ensures Double(":" + t) == match Double(t) case None => None case Some(i) => Some(1 + i)
  {
    assert (":" + t)[1..] == t;
  }

  lemma DoubleEnds(w: string, rest: string)
    ensures Double("") == None && Double("::" + rest) == Some(0)
  {
  }

  function Hex4s(gs: seq<Group>): (ws: seq<string>)
    ensures |ws| == |gs|
  {
    seq(|gs|, i requires 0 <= i < |gs| => Hex4(gs[i]))
  }

  function Shorts(gs: seq<Group>): (ws: seq<string>)
    ensures |ws| == |gs|
  {
    seq(|gs|, i requires 0 <= i < |gs| => Hex.Digits(gs[i]))
  }

  lemma {:induction false} ExpandJoins(gs: seq<Group>)
    requires gs != []
    ensures Expand(gs) == Join(Hex4s(gs), ':')
  {
    hide Hex4;
    if |gs| == 1 {
      assert Hex4s(gs) == [Hex4(gs[0])];
      assert Hex4(gs[0]) + "" == Hex4(gs[0]);
    } else {
      ExpandJoins(gs[1..]);
      assert Hex4s(gs)[1..] == Hex4s(gs[1..]);
      assert Expand(gs) == Hex4(gs[0]) + ":" + Expand(gs[1..]);
    }
  }

  lemma {:induction false} ShortenedJoins(gs: seq<Group>)
    ensures Shortened(gs) == Join(Shorts(gs), ':')
  {
    hide Hex.Digits;
    if |gs| == 1 {
      assert Shorts(gs) == [Hex.Digits(gs[0])];
      assert Hex.Digits(gs[0]) + "" == Hex.Digits(gs[0]);
    } else if |gs| > 1 {
      ShortenedJoins(gs[1..]);
      assert Shorts(gs)[1..] == Shorts(gs[1..]);
      assert Shortened(gs) == Hex.Digits(gs[0]) + ":" + Shortened(gs[1..]);
    }
  }

  lemma Hex4Spells(g: Group)
    ensures Spells(Hex4(g), g) && Spells(Hex.Digits(g), g)
  {
    ShortDigits(g);
    Hex.DigitsRoundTrip(g);
    Hex.ValueOfPadding(4 - |Hex.Digits(g)|, Hex.Digits(g));
  }

  lemma AllSpelled(gs: seq<Group>)
    ensures SpellsAll(Hex4s(gs), gs) && SpellsAll(Shorts(gs), gs)
  {
    hide Spells, Hex4, Hex.Digits;
    forall i | 0 <= i < |gs| ensures Spells(Hex4s(gs)[i], gs[i]) && Spells(Shorts(gs)[i], gs[i]) { Hex4Spells(gs[i]); }
  }

  /** Whatever eight groups are rendered to, the parser reads them back; so two addresses never share a text. */
  lemma RenderRoundTrip(gs: seq<Group>)
    requires |gs| == 8
    ensures ParseV6(Render(gs)) == Some(gs)
    ensures |Render(gs)| <= 39 && ':' in Render(gs) && '.' !in Render(gs)
  {
    hide Spells, SpellsAll, Longest, Join, Expand, Shortened, Double, ParseGroups;
    LongestIs(gs, 0, 0, 0);
    var (at, n) := Gap(gs);
    AllSpelled(gs);
    if n == 0 {
      ExpandJoins(gs);
      NoDouble(Hex4s(gs), gs);
      GroupsSpelled(Hex4s(gs), gs);
      ExpandColon(gs);
    } else {
      GapRoundTrip(gs, at, n);
    }
  }

  lemma ExpandColon(gs: seq<Group>)
    requires |gs| > 1
    ensures ':' in Expand(gs)
  {
    hide Hex4;
    assert Expand(gs) == Hex4(gs[0]) + ":" + (Hex4(gs[1..][0]) + Padded4(gs[1..][1..]));
    assert Expand(gs)[4] == ':';
  }

  lemma GapRoundTrip(gs: seq<Group>, at: nat, n: nat)
    requires |gs| == 8 && n > 0 && at + n < 8 && forall k :: at <= k < at + n ==> gs[k] == 0
    ensures var t := Shortened(gs[..at]) + "::" + Shortened(gs[at + n..]);
      ParseV6(t) == Some(gs) && |t| <= 39 && ':' in t && '.' !in t
  {
    hide Spells, SpellsAll, Shortened, Join, Double, ParseGroups;
    var left, right := gs[..at], gs[at + n..];
    var l, r := Shortened(left), Shortened(right);
    AllSpelled(left);
    AllSpelled(right);
    ShortenedJoins(left);
    ShortenedJoins(right);
    GroupsSpelled(Shorts(left), left);
    GroupsSpelled(Shorts(right), right);
    NoDouble(Shorts(right), right);
    var t := l + "::" + r;
    if at == 0 {
      JoinNone();
      assert Shorts(left) == [];
      DoubleEnds("", r);
      assert t == "::" + r;
    } else {
      NoDouble(Shorts(left), left);
    }
    assert t[..|l|] == l && t[|l| + 2..] == r && t[|l|] == ':';
    assert left + Zeros(8 - |left| - |right|) + right == gs;
  }

  lemma JoinNone()
    ensures Join([], ':') == ""
  {
  }

  lemma RenderInjective(a: seq<Group>, b: seq<Group>)
    requires |a| == |b| == 8 && Render(a) == Render(b)
    ensures a == b
  {
    RenderRoundTrip(a);
    RenderRoundTrip(b);
  }
}
