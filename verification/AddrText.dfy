/**
 Texts of addresses and what is read from them (sensor/src/addr.rs): the parser of IPv6 literals, canonical
 forms, and `host:port` keys, shown to undo what the renderer does.
 */
module AddrText {
  import opened Text
  import opened SmallStr
  import opened Ipv6Text
  import opened Ipv6Parse
  import opened Addr
  import Decimal

  // ---- parse_ipv6 as it runs

  method ParseGroupsInto(s: string) returns (r: Option<seq<Group>>)
    ensures r == ParseGroups(s)
  {
    hide ParsePart;
    if s == "" {
      return Some([]);
    }
    var parts := Split(s, ':');
    var groups: seq<Group> := [];
    var i := 0;
    assert parts[0..] == parts;
    if ParseParts(parts).Some? { assert [] + ParseParts(parts).value == ParseParts(parts).value; }
    while i < |parts|
      invariant 0 <= i <= |parts|
      invariant ParseParts(parts) == match ParseParts(parts[i..]) case None => None case Some(rest) => Some(groups + rest)
    {
      assert parts[i..][1..] == parts[i + 1..];
      var g := ParsePart(parts[i], i + 1 == |parts|);
      if g.None? {
        return None;
      }
      if ParseParts(parts[i + 1..]).Some? {
        assert groups + (g.value + ParseParts(parts[i + 1..]).value) == (groups + g.value) + ParseParts(parts[i + 1..]).value;
      }
      groups := groups + g.value;
      i := i + 1;
    }
    assert parts[i..] == [] && groups + [] == groups;
    return Some(groups);
  }

  method ParseIpv6(text: string) returns (r: Option<nat>)
    ensures r == ParseNumber(text)
  {
    hide ParseGroups, Double, Bound;
    if text == "" || |text| > 45 {
      return None;
    }
    var at := Double(text);
    var head := if at.Some? then text[..at.value] else text;
    if at.Some? && Double(text[at.value + 2..]).Some? {
      return None;
    }
    var left := ParseGroupsInto(head);
    if left.None? {
      return None;
    }
    var groups := left.value;
    if at.Some? {
      var right := ParseGroupsInto(text[at.value + 2..]);
      if right.None? {
        return None;
      }
      var trailing := right.value;
      if |groups| + |trailing| > 7 {
        return None;
      }
      ghost var n := |groups|;
      while |groups| + |trailing| < 8
        invariant n <= |groups| && |groups| + |trailing| <= 8
        invariant groups == left.value + Zeros(|groups| - n)
      {
        assert Zeros(|groups| - n + 1) == Zeros(|groups| - n) + [0];
        groups := groups + [0];
      }
      groups := groups + trailing;
    }
    if |groups| != 8 {
      return None;
    }
    var out := 0;
    var i := 0;
    while i < 8
      invariant 0 <= i <= 8 && out == NumberOf(groups[..i])
    {
      assert groups[..i + 1][..i] == groups[..i];
      out := out * GROUP + groups[i];
      i := i + 1;
    }
    assert groups[..8] == groups;
    return Some(out);
  }

  function ParseNumber(text: string): (r: Option<nat>)
    ensures r.Some? ==> r.value < Bound(8)
  {
    match ParseV6(text)
    case None => None
    case Some(gs) =>
      NumberRoundTrip(gs);
      Some(NumberOf(gs))
  }

  /** Every IPv6 address is read back from its text, which fits its buffer and holds a colon and no dot. */
  lemma V6RoundTrip(v: nat)
    requires v < Bound(8)
    ensures ParseNumber(TextOf(V6(v))) == Some(v)
    ensures |TextOf(V6(v))| <= 39 && ':' in TextOf(V6(v)) && '.' !in TextOf(V6(v))
  {
    GroupsRoundTrip(v, 8);
    RenderRoundTrip(GroupsOf(v, 8));
  }

  // ---- canonical forms

  function ParseCanonicalIp(text: string): (r: Option<Ip>)
    ensures r.Some? ==> IsIp(r.value)
  {
    var v4 := AddrToInt(text);
    if v4.Some? then
      if TextOf(V4(v4.value)) == text then Some(V4(v4.value)) else None
    else if ':' !in text then None
    else
      var v6 := ParseNumber(text);
      if v6.None? then None
      else if TextOf(V6(v6.value)) == text then Some(V6(v6.value)) else None
  }

  /** Exactly the texts of the renderer are accepted, each as the address it is the text of. */
  lemma CanonicalExactly(text: string, ip: Ip)
    requires IsIp(ip)
    ensures ParseCanonicalIp(text) == Some(ip) <==> text == TextOf(ip)
  {
    match ip
    case V4(v) => QuadRoundTrip(v);
    case V6(v) =>
      V6RoundTrip(v);
      SplitWhole(TextOf(ip), '.');
  }

  /** The first place of a needle. */
  function Find(t: string, needle: string): (r: Option<nat>)
    ensures r.Some? ==> r.value + |needle| <= |t| && t[r.value..r.value + |needle|] == needle
  {
    if |t| < |needle| then None
    else if t[..|needle|] == needle then Some(0)
    else if t == "" then None
    else match Find(t[1..], needle)
      case None => None
      case Some(i) =>
        assert t[1..][i..i + |needle|] == t[i + 1..i + 1 + |needle|];
        Some(i + 1)
  }

  function CanonicalIpText(text: string): string {
    if ':' !in text then text
    else if text[0] == '[' then
      var rest := text[1..];
      match Find(rest, "]:")
      case None => text
      case Some(i) =>
        var v6, port := ParseNumber(rest[..i]), rest[i + 2..];
        if v6.None? || port == "" || |port| > 5 || !Decimal.AllDigits(port) || Decimal.Value(port) > 0xffff then text
        else Keyed(v6.value, port)
    else
      var v6 := ParseNumber(text);
      if v6.None? then text else TextOf(V6(v6.value))
  }

  function Keyed(v: nat, port: string): string
    requires v < Bound(8)
  {
    "[" + TextOf(V6(v)) + "]:" + port
  }

  lemma {:induction false} FindFirst(w: string, rest: string, needle: string)
    requires needle != "" && needle[0] !in w
    ensures Find(w + (needle + rest), needle) == Some(|w|)
  {
    if w == "" {
      assert w + (needle + rest) == needle + rest;
    } else {
      assert (w + (needle + rest))[1..] == w[1..] + (needle + rest);
      FindFirst(w[1..], rest, needle);
    }
  }

  /** A rendered address has no bracket and does not begin like one. */
  lemma NoBracket(v: nat)
    requires v < Bound(8)
    ensures var t := TextOf(V6(v)); t != "" && '[' !in t && ']' !in t
  {
    V6RoundTrip(v);
    RenderChars(GroupsOf(v, 8));
  }

  lemma {:induction false} JoinChars(ws: seq<string>, c: char)
    requires c != ':' && forall i :: 0 <= i < |ws| ==> c !in ws[i]
    ensures c !in Join(ws, ':')
  {
    if |ws| > 1 { JoinChars(ws[1..], c); }
  }

  lemma RenderChars(gs: seq<Group>)
    requires |gs| == 8
    ensures '[' !in Render(gs) && ']' !in Render(gs)
  {
    hide Spells, Longest, Expand, Shortened, Join;
    LongestIs(gs, 0, 0, 0);
    var (at, n) := Gap(gs);
    if n == 0 {
      ExpandJoins(gs);
      Brackets(Hex4s(gs), gs) by { AllSpelled(gs); }
    } else {
      ShortenedJoins(gs[..at]);
      ShortenedJoins(gs[at + n..]);
      Brackets(Shorts(gs[..at]), gs[..at]) by { AllSpelled(gs[..at]); }
      Brackets(Shorts(gs[at + n..]), gs[at + n..]) by { AllSpelled(gs[at + n..]); }
    }
  }

  lemma Brackets(ws: seq<string>, gs: seq<Group>)
    requires SpellsAll(ws, gs)
    ensures '[' !in Join(ws, ':') && ']' !in Join(ws, ':')
  {
    hide Join;
    forall i | 0 <= i < |ws| ensures '[' !in ws[i] && ']' !in ws[i] { assert Spells(ws[i], gs[i]); }
    JoinChars(ws, '[');
    JoinChars(ws, ']');
  }

  /** The canonical form is its own canonical form. */
  lemma CanonicalIdempotent(text: string)
    ensures CanonicalIpText(CanonicalIpText(text)) == CanonicalIpText(text)
  {
    hide ParseNumber, TextOf, Decimal.Value;
    if ':' in text && text[0] == '[' {
      var rest := text[1..];
      if Find(rest, "]:").Some? {
        var i := Find(rest, "]:").value;
        var v6, port := ParseNumber(rest[..i]), rest[i + 2..];
        if v6.Some? { KeyedIsCanonical(v6.value, port); }
      }
    } else if ParseNumber(text).Some? {
      V6RoundTrip(ParseNumber(text).value);
      NoBracket(ParseNumber(text).value);
    }
  }

  lemma KeyedIsCanonical(v: nat, port: string)
    requires v < Bound(8)
    ensures CanonicalIpText(Keyed(v, port)) == Keyed(v, port)
  {
    hide ParseNumber, TextOf, Decimal.Value;
    var t, key := TextOf(V6(v)), Keyed(v, port);
    V6RoundTrip(v);
    NoBracket(v);
    FindFirst(t, port, "]:");
    assert key[1..] == t + ("]:" + port);
    assert key[1..][..|t|] == t && key[1..][|t| + 2..] == port;
  }

  /** Two literals have one canonical text exactly if they are one address. */
  lemma CanonicalSeparates(a: string, b: string)
    requires ParseNumber(a).Some? && ParseNumber(b).Some? && ':' in a && ':' in b && a[0] != '[' && b[0] != '['
    ensures CanonicalIpText(a) == CanonicalIpText(b) <==> ParseNumber(a) == ParseNumber(b)
  {
    hide ParseNumber, TextOf;
    V6RoundTrip(ParseNumber(a).value);
    V6RoundTrip(ParseNumber(b).value);
  }

  // ---- host:port

  function KeyOf(ip: Ip, port: nat): string
    requires IsIp(ip)
  {
    match ip
    case V4(_) => TextOf(ip) + ":" + Decimal.Dec(port)
    case V6(_) => "[" + TextOf(ip) + "]" + ":" + Decimal.Dec(port)
  }

  /** The key fits its buffer, whatever the address and the port. */
  method AddrPort(ip: Ip, port: nat) returns (out: SmallStr)
    requires IsIp(ip) && port < 0x1_0000
    ensures out.Valid() && fresh(out) && out.Text() == KeyOf(ip, port) && |out.Text()| < out.cap == 64
  {
    hide TextOf, Decimal.Dec, Bound;
    out := new SmallStr(64);
    var text := new SmallStr(48);
    RenderInto(ip, text);
    TextFits(ip);
    Decimal.DecLength(port);
    var a := text.AsStr();
    match ip
    case V4(_) =>
      out.PushStr(a);
      out.PushByte(':');
      assert out.Text() == a + ":";
      out.PushU16(port);
    case V6(_) =>
      out.PushByte('[');
      out.PushStr(a);
      assert out.Text() == "[" + a;
      out.PushByte(']');
      out.PushByte(':');
      assert out.Text() == "[" + a + "]" + ":";
      out.PushU16(port);
  }

  lemma TextFits(ip: Ip)
    requires IsIp(ip)
    ensures |TextOf(ip)| <= 39
  {
    match ip
    case V4(v) =>
      var o := Octets(v);
      OctetText(o[0]);
      OctetText(o[1]);
      OctetText(o[2]);
      OctetText(o[3]);
      JoinFour(Decimal.Dec(o[0]), Decimal.Dec(o[1]), Decimal.Dec(o[2]), Decimal.Dec(o[3]));
    case V6(v) => V6RoundTrip(v);
  }

  predicate IsSpace(c: char) {
    var u := c as int;
    9 <= u <= 13 || u == 32 || u == 0x85 || u == 0xA0 || u == 0x1680 || 0x2000 <= u <= 0x200A
      || u == 0x2028 || u == 0x2029 || u == 0x202F || u == 0x205F || u == 0x3000
  }

  function Trim(s: string): string {
    Trimmed(s, c => IsSpace(c))
  }

  /** The last place of a character. */
  function Last(s: string, c: char): (i: nat)
    requires c in s
    ensures i < |s| && s[i] == c && c !in s[i + 1..]
  {
    if s[|s| - 1] == c then |s| - 1
    else
      assert c in s[..|s| - 1] by { var k :| 0 <= k < |s| && s[k] == c; assert s[..|s| - 1][k] == c; }
      var i := Last(s[..|s| - 1], c);
      assert s[i + 1..] == s[..|s| - 1][i + 1..] + [s[|s| - 1]];
      i
  }

  function ParseHostPort(text: string): (string, Option<nat>) {
    var value := Trim(text);
    var (host, port) :=
      if value != "" && value[0] == '[' && Find(value, "]").Some? then
        var rest := value[1..];
        (match Find(rest, "]")
         case None => (value, "")
         case Some(i) =>
           var after := rest[i + 1..];
           (rest[..i], if after != "" && after[0] == ':' then after[1..] else ""))
      else if ':' !in value then (value, "")
      else (value[..Last(value, ':')], value[Last(value, ':') + 1..]);
    (host, if port == "" || !Decimal.AllDigits(port) || Decimal.Value(port) > 0xffff then None else Some(Decimal.Value(port)))
  }

  lemma LastIs(s: string, c: char, i: nat)
    requires i < |s| && s[i] == c && c !in s[i + 1..]
    ensures c in s && Last(s, c) == i
  {
    hide Last;
    OneLast(s, c, i, Last(s, c));
    OneLast(s, c, Last(s, c), i);
  }

  lemma OneLast(s: string, c: char, i: nat, j: nat)
    requires i < |s| && j < |s| && s[i] == c && c !in s[j + 1..]
    ensures i <= j
  {
  }

  lemma TrimKeeps(s: string)
    requires s != "" && !IsSpace(s[0]) && !IsSpace(s[|s| - 1])
    ensures Trim(s) == s
  {
  }

  /** A key is read back to its address text and its port. */
  lemma HostPortRoundTrip(ip: Ip, port: nat)
    requires IsIp(ip) && port < 0x1_0000
    ensures ParseHostPort(KeyOf(ip, port)) == (TextOf(ip), Some(port))
  {
    hide TextOf, Decimal.Dec, Decimal.Value, ParseHostPort;
    Decimal.DecRoundTrip(port);
    match ip
    case V4(v) =>
      QuadChars(v);
      TextOfQuad(v);
      SplitPlain(TextOf(ip), Decimal.Dec(port));
    case V6(v) =>
      NoBracket(v);
      SplitBracketed(TextOf(ip), Decimal.Dec(port));
      assert "[" + TextOf(ip) + "]" + ":" + Decimal.Dec(port) == "[" + TextOf(ip) + "]:" + Decimal.Dec(port);
  }

  lemma TextOfQuad(v: nat)
    requires v < 0x1_0000_0000
    ensures TextOf(V4(v)) == Quad(v)
  {
  }

  lemma SplitPlain(t: string, d: string)
    requires t != "" && Decimal.IsDigit(t[0]) && d != "" && Decimal.AllDigits(d)
    ensures ParseHostPort(t + ":" + d) == (t, if Decimal.Value(d) > 0xffff then None else Some(Decimal.Value(d)))
  {
    hide Decimal.Value, Find, Trim;
    var key := t + ":" + d;
    assert key[|t|] == ':' && key[|t| + 1..] == d && key[..|t|] == t && key[0] == t[0];
    assert key[|key| - 1] == d[|d| - 1] && Decimal.IsDigit(d[|d| - 1]);
    TrimKeeps(key);
    LastIs(key, ':', |t|);
  }

  lemma LastDigit(d: string)
    requires d != "" && Decimal.AllDigits(d)
    ensures Decimal.IsDigit(d[|d| - 1])
  {
  }

  lemma SplitBracketed(t: string, d: string)
    requires ']' !in t && d != "" && Decimal.AllDigits(d)
    ensures ParseHostPort("[" + t + "]:" + d) == (t, if Decimal.Value(d) > 0xffff then None else Some(Decimal.Value(d)))
  {
    hide Decimal.Value, Find, Trim, Last, Decimal.AllDigits;
    var key := "[" + t + "]:" + d;
    LastDigit(d);
    assert key[|key| - 1] == d[|d| - 1];
    TrimKeeps(key);
    FindFirst("[" + t, ":" + d, "]");
    assert key == ("[" + t) + ("]" + (":" + d));
    FindFirst(t, ":" + d, "]");
    assert key[1..] == t + ("]" + (":" + d));
    assert key[1..][..|t|] == t && key[1..][|t| + 1..] == ":" + d && (":" + d)[1..] == d;
  }

  lemma QuadChars(v: nat)
    requires v < 0x1_0000_0000
    ensures Quad(v) != "" && Decimal.IsDigit(Quad(v)[0])
  {
    hide Decimal.Dec;
    var o := Octets(v);
    JoinFour(Decimal.Dec(o[0]), Decimal.Dec(o[1]), Decimal.Dec(o[2]), Decimal.Dec(o[3]));
    Decimal.DecRoundTrip(o[0]);
    assert Decimal.IsDigit(Decimal.Dec(o[0])[0]);
  }
}
