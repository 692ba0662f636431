/**
 Rendering and reading addresses as sensor/src/addr.rs does, in fixed buffers and loops, against the texts of
 modules Ipv6Text and Ipv6Parse.
 */
module Addr {
  import opened Text
  import opened SmallStr
  import opened Ipv6Text
  import opened Ipv6Parse
  import Decimal
  import Hex

  /** An address as its 32 or 128 bits. */
  datatype Ip = V4(v: nat) | V6(v: nat)

  predicate IsIp(ip: Ip) {
    match ip case V4(v) => v < 0x1_0000_0000 case V6(v) => v < Bound(8)
  }

  /** The text of an address. */
  function TextOf(ip: Ip): string
    requires IsIp(ip)
  {
    match ip case V4(v) => Quad(v) case V6(v) => Render(GroupsOf(v, 8))
  }

  // ---- rendering

  /** The loop over runs of units: the longest, and the first place of one that long. */
  method FindBest(b: string) returns (bestUnits: nat, firstBestAt: nat)
    ensures (bestUnits, firstBestAt) == Best(b, 0, 0, 0)
  {
    bestUnits, firstBestAt := 0, 0;
    var i := 0;
    while i + 5 <= |b|
      invariant 0 <= i <= |b|
      invariant Best(b, i, bestUnits, firstBestAt) == Best(b, 0, 0, 0)
      decreases |b| - i
    {
      if b[i..i + 5] == UNIT {
        var start, units := i, 0;
        while i + 5 <= |b| && b[i..i + 5] == UNIT
          invariant start <= i <= |b| && i == start + 5 * units
          invariant units + Units(b, i) == Units(b, start)
          decreases |b| - i
        {
          units := units + 1;
          i := i + 5;
        }
        if units > bestUnits {
          bestUnits := units;
          firstBestAt := start;
        }
      } else {
        i := i + 1;
      }
    }
  }

  /** The greedy, backtracking match of one anchor: the place of the word character, seen from zstart. */
  method MatchZeros(s: string, zstart: nat) returns (r: Option<nat>)
    requires zstart <= |s|
    ensures r == match Cut(s[zstart..]) case None => None case Some(k) => Some(zstart + k)
  {
    var j := zstart;
    while j < |s| && s[j] == '0'
      invariant zstart <= j <= |s|
      invariant LeadingZeros(s[zstart..]) == j - zstart + LeadingZeros(s[j..])
      invariant forall p :: zstart <= p < j ==> s[p] == '0'
    {
      assert s[j..][1..] == s[j + 1..];
      j := j + 1;
    }
    assert LeadingZeros(s[zstart..]) == j - zstart;
    var k := j;
    while true
      invariant zstart <= k <= j
      invariant k < j ==> !(j > zstart && j < |s| && IsWord(s[j])) && k == j - 1
      decreases k
    {
      if k > zstart && k < |s| && IsWord(s[k]) {
        return Some(k);
      }
      if k <= zstart {
        return None;
      }
      k := k - 1;
    }
  }

  /** The anchor that matches at the start of t, and the place of its word character. */
  function Matched(t: string, first: bool): (r: Option<(nat, nat)>)
    requires t != ""
    ensures r.Some? ==> r.value.0 <= r.value.1 < |t| && r.value.0 <= 1 && (r.value.0 == 1 ==> r.value.1 > 1)
  {
    if first && Cut(t).Some? then Some((0, Cut(t).value))
    else if t[0] == ':' && Cut(t[1..]).Some? then Some((1, 1 + Cut(t[1..]).value))
    else None
  }

  lemma SubMatched(t: string, first: bool)
    requires t != ""
    ensures Sub(t, first) == match Matched(t, first)
      case None => [t[0]] + Sub(t[1..], false)
      case Some((anchor, k)) => (if anchor == 1 then ":" else "") + [t[k]] + Sub(t[k + 1..], false)
  {
    hide Cut, Sub;
    match Matched(t, first)
    case None => SubNext(t, first);
    case Some((anchor, k)) =>
      if anchor == 1 {
        assert t == ":" + t[1..];
        SubColonHere(t[1..], k - 1, first);
        assert t[1..][k - 1] == t[k] && t[1..][k..] == t[k + 1..];
      } else {
        SubHere(t, k);
        assert "" + [t[k]] == [t[k]];
      }
  }

  /** The loop over the anchors at place i. */
  method MatchAt(s: string, i: nat) returns (r: Option<(nat, nat)>)
    requires i < |s|
    ensures r == match Matched(s[i..], i == 0) case None => None case Some((anchor, k)) => Some((anchor, i + k))
  {
    hide Cut;
    var anchors := (if i == 0 then [0] else []) + (if s[i] == ':' then [1] else []);
    ghost var t := s[i..];
    assert t[0] == s[i] && t[0..] == t && t[1..] == s[i + 1..];
    var a := 0;
    while a < |anchors|
      invariant 0 <= a <= |anchors|
      invariant i == 0 && a > 0 ==> Cut(t).None?
      invariant s[i] == ':' && a == |anchors| ==> Cut(t[1..]).None?
    {
      var anchor := anchors[a];
      assert anchor == (if i == 0 && a == 0 then 0 else 1) && t[anchor..] == s[i + anchor..];
      var k := MatchZeros(s, i + anchor);
      if k.Some? {
        return Some((anchor, k.value));
      }
      a := a + 1;
    }
    return None;
  }

  /** The substitution, pushed into `out`. */
  method PushStripped(s: string, out: SmallStr)
    requires out.Valid() && out.Text() == "" && |s| <= out.cap
    modifies out, out.buf
    ensures out.Valid() && out.Text() == Sub(s, true)
  {
    hide Sub, Matched;
    var i := 0;
    assert s[0..] == s;
    while i < |s|
      invariant 0 <= i <= |s| && out.Valid() && |out.Text()| <= i
      invariant out.Text() + Sub(s[i..], i == 0) == Sub(s, true)
    {
      ghost var t, before := s[i..], out.Text();
      SubMatched(t, i == 0);
      var m := MatchAt(s, i);
      if m.Some? {
        var (anchor, k) := m.value;
        assert t[k - i + 1..] == s[k + 1..] && t[k - i] == s[k];
        if anchor == 1 { out.PushByte(':'); }
        out.PushByte(s[k]);
        Pushed(before, (if anchor == 1 then ":" else ""), s[k], Sub(s[k + 1..], false));
        i := k + 1;
      } else {
        assert t[1..] == s[i + 1..];
        out.PushByte(s[i]);
        Pushed(before, "", s[i], Sub(s[i + 1..], false));
        i := i + 1;
      }
    }
    SubNone();
    assert s[i..] == "" && out.Text() + "" == out.Text();
  }

  lemma Pushed(before: string, colon: string, c: char, rest: string)
    ensures before + (colon + [c] + rest) == (before + colon + [c]) + rest
    ensures before + ([c] + rest) == (before + [c]) + rest
    ensures before + "" == before
  {
  }

  /** compress_ipv6_into: the whole text fits whatever the address was, if the address does. */
  method CompressInto(address: string, out: SmallStr)
    requires out.Valid() && out.Text() == "" && |address| < out.cap && |address| < 48
    modifies out, out.buf
    ensures out.Valid() && out.Text() == Compress(address)
  {
    hide Sub, Best, Compress;
    var bestUnits, firstBestAt := FindBest(address);
    BestFits(address, 0, 0, 0);
    Compressed(address);
    if bestUnits == 0 {
      out.PushStr(address);
      return;
    }
    var s := Collapse(address, firstBestAt, bestUnits);
    PushStripped(s, out);
    SubFits(s);
    var tail := out.AsStr();
    if tail != "" && tail[0] == ':' && !(|tail| > 1 && tail[1] == ':') {
      out.Clear();
      out.PushByte(':');
      out.PushStr(tail);
    }
  }

  lemma Compressed(b: string)
    requires Best(b, 0, 0, 0).1 + 5 * Best(b, 0, 0, 0).0 <= |b|
    ensures Compress(b) == if Best(b, 0, 0, 0).0 == 0 then b else Doubled(Sub(Collapsed(b), true))
  {
  }

  /** The replacement of the run, in a scratch buffer. */
  method Collapse(address: string, at: nat, units: nat) returns (s: string)
    requires units > 0 && at + 5 * units <= |address| < 48
    ensures s == address[..at] + ":" + address[at + 5 * units..] && |s| < |address|
  {
    var collapsed := new SmallStr(48);
    collapsed.PushStr(address[..at]);
    collapsed.PushByte(':');
    collapsed.PushStr(address[at + units * 5..]);
    s := collapsed.AsStr();
  }

  lemma SubFits(s: string)
    ensures |Sub(s, true)| <= |s|
  {
    hide Sub, Matched, Cut;
    if s == "" {
      SubNone();
    } else {
      SubMatched(s, true);
      match Matched(s, true)
      case None => SubLength(s[1..]);
      case Some((anchor, k)) => SubLength(s[k + 1..]);
    }
  }

  method PushHex4(out: SmallStr, hi: nat, lo: nat)
    requires hi < 256 && lo < 256 && out.Valid() && |out.Text()| + 4 <= out.cap
    modifies out, out.buf
    ensures out.Valid() && out.Text() == old(out.Text()) + Hex4(hi * 256 + lo)
  {
    hide Hex4, Hex.Digit;
    ByteDigits(hi, lo);
    ghost var before := out.Text();
    out.PushByte(Hex.Digit(hi / 16));
    out.PushByte(Hex.Digit(hi % 16));
    out.PushByte(Hex.Digit(lo / 16));
    out.PushByte(Hex.Digit(lo % 16));
    assert out.Text() == before + [Hex.Digit(hi / 16), Hex.Digit(hi % 16), Hex.Digit(lo / 16), Hex.Digit(lo % 16)];
  }

  lemma ByteDigits(hi: nat, lo: nat)
    requires hi < 256 && lo < 256
    ensures Hex4(hi * 256 + lo) == [Hex.Digit(hi / 16), Hex.Digit(hi % 16), Hex.Digit(lo / 16), Hex.Digit(lo % 16)]
  {
    hide Hex4, Hex.Digit;
    var g := hi * 256 + lo;
    Hex4Is(g);
    assert g / 256 == hi && g % 256 == lo;
    assert g / 16 == hi * 16 + lo / 16;
    assert g / 4096 == hi / 16;
  }

  method RenderInto(ip: Ip, out: SmallStr)
    requires IsIp(ip) && out.Valid() && out.cap == 48 && out.Text() == ""
    modifies out, out.buf
    ensures out.Valid() && out.Text() == TextOf(ip)
  {
    match ip
    case V4(v) =>
      PushQuad(v, out);
    case V6(v) =>
      var gs := GroupsOf(v, 8);
      var expanded := new SmallStr(40);
      PushGroups(gs, expanded);
      var text := expanded.AsStr();
      CompressInto(text, out);
      CompressIsRender(gs);
  }

  /** The loop over the groups of an IPv6 address. */
  method PushGroups(gs: seq<Group>, expanded: SmallStr)
    requires |gs| == 8 && expanded.Valid() && expanded.cap == 40 && expanded.Text() == ""
    modifies expanded, expanded.buf
    ensures expanded.Valid() && expanded.Text() == Expand(gs)
  {
    hide Expand;
    var g := 0;
    while g < 8
      invariant 0 <= g <= 8 && expanded.Valid()
      invariant expanded.Text() == if g == 0 then "" else Expand(gs[..g])
    {
      ghost var before := expanded.Text();
      ExpandPush(gs, g);
      if g > 0 {
        expanded.PushByte(':');
      }
      PushHex4(expanded, gs[g] / 256, gs[g] % 256);
      assert gs[g] / 256 * 256 + gs[g] % 256 == gs[g];
      g := g + 1;
    }
    assert gs[..8] == gs;
  }

  lemma ExpandPush(gs: seq<Group>, g: nat)
    requires g < |gs|
    ensures Expand(gs[..g + 1]) == (if g == 0 then "" else Expand(gs[..g]) + ":") + Hex4(gs[g])
  {
    hide Hex4;
    if g == 0 {
      assert gs[..1] == [gs[0]] && Padded4([]) == "";
    } else {
      PaddedPush(gs[1..], g - 1);
      assert gs[..g + 1][1..] == gs[1..][..g] && gs[..g][1..] == gs[1..][..g - 1];
    }
  }

  lemma {:induction false} PaddedPush(gs: seq<Group>, g: nat)
    requires g < |gs|
    ensures Padded4(gs[..g + 1]) == Padded4(gs[..g]) + ":" + Hex4(gs[g])
  {
    hide Hex4;
    if g == 0 {
      assert gs[..1] == [gs[0]] && gs[..0] == [];
      assert Padded4([]) == "";
      assert Padded4([gs[0]]) == ":" + Hex4(gs[0]) + "";
    } else {
      PaddedPush(gs[1..], g - 1);
      assert gs[..g + 1][1..] == gs[1..][..g] && gs[..g][1..] == gs[1..][..g - 1];
    }
  }

  method PushQuad(v: nat, out: SmallStr)
    requires v < 0x1_0000_0000 && out.Valid() && out.cap == 48 && out.Text() == ""
    modifies out, out.buf
    ensures out.Valid() && out.Text() == Quad(v)
  {
    hide Decimal.Dec, Octets, Join;
    var o := Octets(v);
    Shifts(v);
    ghost var a, b, c := Decimal.Dec(o[0]), Decimal.Dec(o[1]), Decimal.Dec(o[2]);
    JoinFour(a, b, c, Decimal.Dec(o[3]));
    PushOctet(o[0], out);
    out.PushByte('.');
    assert out.Text() == a + ".";
    PushOctet(o[1], out);
    out.PushByte('.');
    assert out.Text() == a + "." + b + ".";
    PushOctet(o[2], out);
    out.PushByte('.');
    assert out.Text() == a + "." + b + "." + c + ".";
    PushOctet(o[3], out);
  }

  method PushOctet(o: nat, out: SmallStr)
    requires o < 256 && out.Valid() && |out.Text()| + 3 <= out.cap
    modifies out, out.buf
    ensures out.Valid() && out.Text() == old(out.Text()) + Decimal.Dec(o) && |out.Text()| <= |old(out.Text())| + 3
  {
    hide Decimal.Dec;
    Decimal.DecLength(o);
    out.PushU8Dec(o);
  }

  /** The four bytes of the word, as shifts and casts give them. */
  lemma Shifts(v: nat)
    requires v < 0x1_0000_0000
    ensures Octets(v) == [v / 0x100_0000 % 256, v / 0x1_0000 % 256, v / 256 % 256, v % 256]
  {
  }

  lemma JoinFour(a: string, b: string, c: string, d: string)
    ensures Join([a, b, c, d], '.') == a + "." + b + "." + c + "." + d
  {
    assert [a, b, c, d][1..] == [b, c, d] && [b, c, d][1..] == [c, d] && [c, d][1..] == [d];
    assert Join([c, d], '.') == c + ['.'] + d;
    assert Join([b, c, d], '.') == b + ['.'] + (c + ['.'] + d);
  }

  lemma {:induction false} SubLength(t: string)
    ensures |Sub(t, false)| <= |t|
    decreases |t|
  {
    if t != "" {
      if t[0] == ':' && Cut(t[1..]).Some? { SubLength(t[1..][Cut(t[1..]).value + 1..]); } else { SubLength(t[1..]); }
    }
  }
}
