/**
 The text prefilter of an address search (core/httpd.py): an address inside a network has the network's whole
 octets in its text, so a line without them holds no such address, unless the line writes its octets in another way.
 */
module CidrNeedle {
  import opened Text
  import opened Ipv6Parse
  import opened Powers
  import Decimal

  const WORD := 0x1_0000_0000

  /** `v >> k` */
  function Shift(v: nat, k: nat): nat {
    if k == 0 then v else Shift(v / 2, k - 1)
  }

  /** `v << k` */
  function Left(v: nat, k: nat): nat {
    if k == 0 then v else 2 * Left(v, k - 1)
  }

  /** `v & make_mask(bits)`: all but the upper bits cleared. */
  function Masked(v: nat, bits: nat): nat
    requires bits <= 32
  {
    Left(Shift(v, 32 - bits), 32 - bits)
  }

  /** The decimal texts of the first n octets, joined by dots. */
  function Head(v: nat, n: nat): string
    requires v < WORD && n <= 4
  {
    var o := Octets(v);
    Join(seq(n, i requires 0 <= i < n => Decimal.Dec(o[i])), '.')
  }

  /** What a line must hold for an address of the network: its whole octets, and a dot if others follow. */
  function Needle(prefix: nat, bits: nat): (needle: Option<string>)
    requires prefix < WORD && bits <= 32
  {
    var fixed := bits / 8;
    if fixed == 0 then None else Some(Head(prefix, fixed) + if fixed < 4 then "." else "")
  }

  // ---- an address of the network begins with the needle

  lemma {:induction false} ShiftTwice(v: nat, a: nat, b: nat)
    ensures Shift(v, a + b) == Shift(Shift(v, a), b)
  {
    if a > 0 { ShiftTwice(v / 2, a - 1, b); }
  }

  lemma {:induction false} LeftInjective(v: nat, w: nat, k: nat)
    requires Left(v, k) == Left(w, k)
    ensures v == w
  {
    if k > 0 { LeftInjective(v, w, k - 1); }
  }

  lemma {:induction false} LeftBack(v: nat, k: nat)
    ensures Shift(Left(v, k), k) == v
  {
    if k > 0 { LeftBack(v, k - 1); }
  }

  lemma {:induction false} ShiftLow(v: nat, k: nat)
    ensures Left(Shift(v, k), k) <= v
  {
    if k > 0 {
      ShiftLow(v / 2, k - 1);
    }
  }

  lemma ShiftOctet(v: nat)
    ensures Shift(v, 8) == v / 256
  {
    assert Shift(v, 1) == v / 2;
    ShiftTwice(v, 1, 1);
    assert Shift(v / 2, 1) == v / 4;
    ShiftTwice(v, 2, 2);
    assert Shift(v / 4, 2) == v / 16 by { ShiftTwice(v / 4, 1, 1); assert Shift(v / 4, 1) == v / 8; assert Shift(v / 8, 1) == v / 16; }
    ShiftTwice(v, 4, 4);
    var x := v / 16;
    assert Shift(x, 4) == x / 16 by {
      ShiftTwice(x, 2, 2);
      ShiftTwice(x, 1, 1);
      ShiftTwice(x / 4, 1, 1);
      assert Shift(x, 1) == x / 2 && Shift(x / 2, 1) == x / 4 && Shift(x / 4, 1) == x / 8 && Shift(x / 8, 1) == x / 16;
    }
  }

  /** Addresses of one network share its whole octets. */
  lemma SameOctets(v: nat, w: nat, bits: nat, i: nat)
    requires v < WORD && w < WORD && bits <= 32 && Masked(v, bits) == Masked(w, bits) && i < bits / 8
    ensures Octets(v)[i] == Octets(w)[i]
  {
    hide Octets;
    LeftInjective(Shift(v, 32 - bits), Shift(w, 32 - bits), 32 - bits);
    var more := bits - 8 * (i + 1);
    ShiftTwice(v, 32 - bits, more);
    ShiftTwice(w, 32 - bits, more);
    OctetIs(v, i);
    OctetIs(w, i);
  }

  lemma OctetIs(v: nat, i: nat)
    requires v < WORD && i < 4
    ensures Octets(v)[i] == Shift(v, 32 - 8 * (i + 1)) % 256
  {
    hide Shift;
    ShiftOctet(v);
    ShiftOctet(v / 256);
    ShiftOctet(v / 0x1_0000);
    ShiftTwice(v, 8, 8);
    ShiftTwice(v, 16, 8);
    ShiftNone(v);
    assert v / 256 / 256 == v / 0x1_0000 && v / 0x1_0000 / 256 == v / 0x100_0000;
  }

  lemma ShiftNone(v: nat)
    ensures Shift(v, 0) == v
  {
  }

  lemma {:induction false} JoinPrefix(a: seq<string>, b: seq<string>, c: char)
    requires a != [] && |a| <= |b| && a == b[..|a|]
    ensures Join(a, c) + (if |a| < |b| then [c] else "") <= Join(b, c)
  {
    if |a| == 1 {
      assert a[0] == b[0];
      if |b| == 1 { assert a[0] + "" == a[0]; }
    } else {
      assert a[1..] == b[1..][..|a| - 1];
      JoinPrefix(a[1..], b[1..], c);
      var rest := Join(a[1..], c) + (if |a| < |b| then [c] else "");
      assert Join(a, c) + (if |a| < |b| then [c] else "") == a[0] + [c] + rest;
      assert Join(b, c) == a[0] + [c] + Join(b[1..], c);
      Prefixed(a[0] + [c], rest, Join(b[1..], c));
    }
  }

  lemma Prefixed(head: string, a: string, b: string)
    requires a <= b
    ensures head + a <= head + b
  {
    assert head + b == (head + a) + b[|a|..];
  }

  /** The text of an address inside the network begins with the needle. */
  lemma NeedleBegins(v: nat, prefix: nat, bits: nat)
    requires v < WORD && prefix < WORD && bits <= 32 && Masked(v, bits) == Masked(prefix, bits) && bits >= 8
    ensures Needle(prefix, bits).value <= Quad(v)
  {
    hide Octets, Masked, Decimal.Dec, Join;
    var fixed, o, q := bits / 8, Octets(v), Octets(prefix);
    var a := seq(fixed, i requires 0 <= i < fixed => Decimal.Dec(q[i]));
    var b := [Decimal.Dec(o[0]), Decimal.Dec(o[1]), Decimal.Dec(o[2]), Decimal.Dec(o[3])];
    forall i | 0 <= i < fixed ensures a[i] == b[i] { SameOctets(v, prefix, bits, i); }
    assert a == b[..fixed];
    JoinPrefix(a, b, '.');
    if fixed == 4 { assert Join(a, '.') + "" == Join(a, '.'); }
  }

  lemma Inside(line: string, text: string, needle: string)
    requires Contains(line, text) && needle <= text
    ensures Contains(line, needle)
  {
    var i :| 0 <= i <= |line| && Occurs(line, text, i);
    assert line[i..] == text + line[i..][|text|..];
    assert needle + (text[|needle|..] + line[i..][|text|..]) == line[i..];
    assert Occurs(line, needle, i);
  }

  // ---- masks and needles, as numbers and texts

  function Power(k: nat): nat { if k == 0 then 1 else 2 * Power(k - 1) }

  lemma {:induction false} ShiftIs(v: nat, k: nat)
    ensures Power(k) > 0 && Shift(v, k) == v / Power(k) && Left(v, k) == v * Power(k)
  {
    if k > 0 {
      ShiftIs(v / 2, k - 1);
      ShiftIs(v, k - 1);
      Halves(v, Power(k - 1));
    }
  }

  lemma Halves(v: nat, p: nat)
    requires p > 0
    ensures v / 2 / p == v / (2 * p) && 2 * (v * p) == v * (2 * p)
  {
    var q, r := v / (2 * p), v % (2 * p);
    assert v == 2 * p * q + r && 0 <= r < 2 * p;
    assert v / 2 == q * p + r / 2 && r / 2 < p;
    Remainder(v / 2, p, q, r / 2);
  }

  /** A mask clears the lower bits: what is left is the greatest multiple of their power not above the address. */
  lemma MaskedIs(v: nat, bits: nat)
    requires bits <= 32
    ensures Power(32 - bits) > 0 && Masked(v, bits) == v - v % Power(32 - bits)
  {
    hide Shift, Left, Power;
    ShiftIs(v, 32 - bits);
    ShiftIs(v / Power(32 - bits), 32 - bits);
    DivTimes(v, Power(32 - bits));
  }

  lemma DivTimes(v: nat, p: nat)
    requires p > 0
    ensures v / p * p == v - v % p
  {
  }

  /** The needle is the whole octets, each followed by a dot but the fourth. */
  lemma NeedleIs(v: nat, bits: nat)
    requires v < WORD && bits <= 32
    ensures var (a, b, c, d) := (Decimal.Dec(v / 0x100_0000), Decimal.Dec(v / 0x1_0000 % 256), Decimal.Dec(v / 0x100 % 256), Decimal.Dec(v % 256));
      Needle(v, bits) ==
        if bits < 8 then None
        else if bits < 16 then Some(a + ".")
        else if bits < 24 then Some(a + "." + (b + "."))
        else if bits < 32 then Some(a + "." + (b + "." + (c + ".")))
        else Some(a + "." + (b + "." + (c + "." + d)))
  {
    hide Decimal.Dec, Join;
    var o := Octets(v);
    var a, b, c, d := Decimal.Dec(o[0]), Decimal.Dec(o[1]), Decimal.Dec(o[2]), Decimal.Dec(o[3]);
    var fixed := bits / 8;
    var texts := seq(fixed, i requires 0 <= i < fixed => Decimal.Dec(o[i]));
    if fixed == 1 { assert texts == [a]; } else if fixed == 2 { assert texts == [a, b]; }
    else if fixed == 3 { assert texts == [a, b, c]; } else if fixed == 4 { assert texts == [a, b, c, d]; }
    JoinFew(a, b, c, d);
  }

  lemma JoinFew(a: string, b: string, c: string, d: string)
    ensures Join([a], '.') == a && Join([a, b], '.') + "." == a + "." + (b + ".")
    ensures Join([a, b, c], '.') + "." == a + "." + (b + "." + (c + "."))
    ensures Join([a, b, c, d], '.') + "" == a + "." + (b + "." + (c + "." + d))
  {
    assert [a, b][1..] == [b] && [a, b, c][1..] == [b, c] && [b, c][1..] == [c];
    assert [a, b, c, d][1..] == [b, c, d] && [b, c, d][1..] == [c, d] && [c, d][1..] == [d];
    assert Join([c, d], '.') == c + "." + d;
    assert Join([b, c, d], '.') == b + "." + (c + "." + d);
    assert Join([b, c], '.') == b + "." + c;
  }

  // ---- the queries

  /** What `\d+\.\d+\.\d+\.\d+` matches: four runs of digits of any length. */
  predicate Dotted(parts: seq<string>) {
    |parts| == 4 && forall i :: 0 <= i < 4 ==> parts[i] != "" && Decimal.AllDigits(parts[i])
  }

  /** `addr_to_int`, which checks no octet. */
  function AddrToInt(parts: seq<string>): nat
    requires Dotted(parts)
  {
    Decimal.Value(parts[0]) * 0x100_0000 + Decimal.Value(parts[1]) * 0x1_0000 + Decimal.Value(parts[2]) * 256 + Decimal.Value(parts[3])
  }

  /** `addr_to_int(...) & mask == prefix` */
  predicate InNetwork(parts: seq<string>, prefix: nat, bits: nat)
    requires Dotted(parts) && bits <= 32
  {
    Masked(AddrToInt(parts) % WORD, bits) == prefix
  }

  /** Octets up to 255, written without leading zeros. */
  predicate Canonical(parts: seq<string>)
    requires Dotted(parts)
  {
    forall i :: 0 <= i < 4 ==> Decimal.Value(parts[i]) < 256 && parts[i] == Decimal.Dec(Decimal.Value(parts[i]))
  }

  lemma CanonicalIsQuad(parts: seq<string>)
    requires Dotted(parts) && Canonical(parts)
    ensures AddrToInt(parts) < WORD && Join(parts, '.') == Quad(AddrToInt(parts))
  {
    hide Decimal.Dec, Join, Decimal.Value, Decimal.AllDigits, Octets;
    OctetsOf(Decimal.Value(parts[0]), Decimal.Value(parts[1]), Decimal.Value(parts[2]), Decimal.Value(parts[3]));
    var o := Octets(AddrToInt(parts));
    assert parts == [Decimal.Dec(o[0]), Decimal.Dec(o[1]), Decimal.Dec(o[2]), Decimal.Dec(o[3])];
  }

  lemma OctetsOf(a: nat, b: nat, c: nat, d: nat)
    requires a < 256 && b < 256 && c < 256 && d < 256
    ensures var v := a * 0x100_0000 + b * 0x1_0000 + c * 256 + d; v < WORD && Octets(v) == [a, b, c, d]
  {
    var v := a * 0x100_0000 + b * 0x1_0000 + c * 256 + d;
    assert v / 256 == a * 0x1_0000 + b * 256 + c;
    assert v / 0x1_0000 == a * 256 + b;
    assert v / 0x100_0000 == a;
  }

  /** Whether one of the addresses found in a line is in the network. */
  predicate AnyInside(found: seq<seq<string>>, prefix: nat, bits: nat)
    requires bits <= 32 && forall i :: 0 <= i < |found| ==> Dotted(found[i])
  {
    exists i :: 0 <= i < |found| && InNetwork(found[i], prefix, bits)
  }

  /** An IP or CIDR query by its address and its length; None for a length over 32. */
  function HuntIpQuery(parts: seq<string>, bits: nat): (r: Option<(nat, nat, Option<string>)>)
    requires Dotted(parts)
    ensures r.None? <==> bits > 32
    ensures r.Some? ==>
      var (prefix, bits, needle) := r.value;
      prefix < WORD && bits <= 32 && Masked(prefix, bits) == prefix && needle == Needle(prefix, bits) && InNetwork(parts, prefix, bits)
  {
    if bits > 32 then None
    else
      var prefix := Masked(AddrToInt(parts) % WORD, bits);
      MaskedFits(AddrToInt(parts) % WORD, bits);
      Some((prefix, bits, Needle(prefix, bits)))
  }

  lemma MaskedFits(v: nat, bits: nat)
    requires bits <= 32
    ensures Masked(v, bits) <= v && Masked(Masked(v, bits), bits) == Masked(v, bits)
  {
    ShiftLow(v, 32 - bits);
    LeftBack(Shift(v, 32 - bits), 32 - bits);
  }

  /**
   `_hunt_line_has_ip`: the prefilter, then the addresses of the line. A yes is always right, and so is a no
   about a line with canonical addresses only, or for a network without a needle.
   */
  method HuntLineHasIp(line: string, found: seq<seq<string>>, prefix: nat, bits: nat, needle: Option<string>) returns (r: bool)
    requires bits <= 32
    requires forall i :: 0 <= i < |found| ==> Dotted(found[i]) && Contains(line, Join(found[i], '.'))
    requires prefix < WORD && Masked(prefix, bits) == prefix && needle == Needle(prefix, bits)
    ensures r <==> AnyInside(found, prefix, bits) && (bits < 8 || Contains(line, needle.value))
    ensures (forall i :: 0 <= i < |found| ==> Canonical(found[i])) ==> r == AnyInside(found, prefix, bits)
  {
    hide Masked, Contains, Canonical, Join, AddrToInt, Head;
    if needle.Some? && !Contains(line, needle.value) {
      if i :| 0 <= i < |found| && InNetwork(found[i], prefix, bits) && Canonical(found[i]) {
        CanonicalHasNeedle(line, found[i], prefix, bits);
      }
      return false;
    }
    for i := 0 to |found|
      invariant forall k :: 0 <= k < i ==> !InNetwork(found[k], prefix, bits)
    {
      if InNetwork(found[i], prefix, bits) {
        return true;
      }
    }
    return false;
  }

  lemma CanonicalHasNeedle(line: string, parts: seq<string>, prefix: nat, bits: nat)
    requires Dotted(parts) && Canonical(parts) && Contains(line, Join(parts, '.'))
    requires 8 <= bits <= 32 && prefix < WORD && Masked(prefix, bits) == prefix && InNetwork(parts, prefix, bits)
    ensures Contains(line, Needle(prefix, bits).value)
  {
    hide Masked, Contains, Canonical, Join, AddrToInt, Head, Quad;
    CanonicalIsQuad(parts);
    NeedleBegins(AddrToInt(parts), prefix, bits);
    Inside(line, Quad(AddrToInt(parts)), Needle(prefix, bits).value);
  }

  const ADDRESS: seq<string> := ["10", "0", "0", "5"]
  const SAME_ADDRESS: seq<string> := ["10", "00", "0", "5"]

  lemma SmallValues()
    ensures Decimal.AllDigits("10") && Decimal.AllDigits("0") && Decimal.AllDigits("00") && Decimal.AllDigits("5")
    ensures Decimal.Value("10") == 10 && Decimal.Value("0") == 0 && Decimal.Value("00") == 0 && Decimal.Value("5") == 5
    ensures Decimal.Dec(10) == "10" && Decimal.Dec(0) == "0" && Decimal.Dec(5) == "5"
  {
    assert "10"[..1] == "1" && "00"[..1] == "0" && "0"[..0] == "" && "5"[..0] == "";
  }

  lemma SmallTexts()
    ensures Join(ADDRESS, '.') == "10.0.0.5" && Join(SAME_ADDRESS, '.') == "10.00.0.5"
  {
    assert ADDRESS[1..] == ["0", "0", "5"] && SAME_ADDRESS[1..] == ["00", "0", "5"];
    assert ["0", "0", "5"][1..] == ["0", "5"] && ["00", "0", "5"][1..] == ["0", "5"] && ["0", "5"][1..] == ["5"];
    assert Join(["0", "5"], '.') == "0.5";
  }

  lemma WholeAddress(v: nat)
    requires v == 0x0A00_0005
    ensures Masked(v, 32) == v && Needle(v, 32) == Some("10.0.0.5")
  {
    hide Decimal.Dec, Join, Quad, Decimal.Value, Decimal.AllDigits;
    SmallValues();
    SmallTexts();
    var o := Octets(v);
    assert o == [10, 0, 0, 5];
    var texts := seq(4, i requires 0 <= i < 4 => Decimal.Dec(o[i]));
    assert texts[0] == "10" && texts[1] == "0" && texts[2] == "0" && texts[3] == "5";
    assert texts == ADDRESS && Head(v, 4) == Join(texts, '.') && "10.0.0.5" + "" == "10.0.0.5";
  }

  lemma NotThere()
    ensures !Contains("10.00.0.5", "10.0.0.5") && Contains("10.00.0.5", "10.00.0.5")
  {
    var line, needle := "10.00.0.5", "10.0.0.5";
    forall i | 0 <= i <= |line| ensures !Occurs(line, needle, i) {
      if i == 0 { assert line[0..][4] != needle[4]; } else if i == 1 { assert line[1..][0] != needle[0]; }
    }
    assert Occurs(line, line, 0);
  }

  /** A query of an address, and a line that holds this address by its value: the prefilter skips the line. */
  method SkipsOddOctets() returns (r: bool)
    ensures Dotted(ADDRESS) && Join(ADDRESS, '.') == "10.0.0.5" && HuntIpQuery(ADDRESS, 32).Some?
    ensures Dotted(SAME_ADDRESS) && Join(SAME_ADDRESS, '.') == "10.00.0.5"
    ensures AnyInside([SAME_ADDRESS], HuntIpQuery(ADDRESS, 32).value.0, 32) && !r
  {
    hide Decimal.Value, Decimal.AllDigits, Decimal.Dec, Contains, Needle, Masked, Join;
    SmallValues();
    SmallTexts();
    NotThere();
    WholeAddress(0x0A00_0005);
    assert AddrToInt(ADDRESS) == AddrToInt(SAME_ADDRESS) == 0x0A00_0005;
    assert InNetwork([SAME_ADDRESS][0], 0x0A00_0005, 32);
    var query := HuntIpQuery(ADDRESS, 32);
    r := HuntLineHasIp("10.00.0.5", [SAME_ADDRESS], query.value.0, 32, query.value.2);
  }

  /** The needles of some networks, none of them of less than 8 bits. */
  function NetworkNeedles(networks: seq<(nat, nat)>): seq<string>
    requires forall i :: 0 <= i < |networks| ==> networks[i].0 < WORD && 8 <= networks[i].1 <= 32
  {
    seq(|networks|, i requires 0 <= i < |networks| => Needle(networks[i].0, networks[i].1).value)
  }

  /** `_scope_needles`: the addresses' own texts and the networks' needles; None if nothing can be skipped. */
  method ScopeNeedles(addresses: seq<string>, networks: seq<(nat, nat)>) returns (needles: Option<seq<string>>)
    requires forall i :: 0 <= i < |networks| ==> networks[i].0 < WORD && networks[i].1 <= 32
    ensures needles.None? <==> (addresses == [] && networks == []) || exists i :: 0 <= i < |networks| && networks[i].1 < 8
    ensures needles.Some? ==> needles.value == addresses + NetworkNeedles(networks)
  {
    hide Head;
    needles := None;
    var out := addresses;
    for i := 0 to |networks|
      invariant needles == None
      invariant forall k :: 0 <= k < i ==> networks[k].1 >= 8
      invariant out == addresses + NetworkNeedles(networks[..i])
    {
      var needle := Needle(networks[i].0, networks[i].1);
      if needle.None? {
        return None;
      }
      out := out + [needle.value];
      assert NetworkNeedles(networks[..i + 1]) == NetworkNeedles(networks[..i]) + [needle.value];
    }
    assert networks[..|networks|] == networks;
    return if out == [] then None else Some(out);
  }

  /** A line is in scope by one of its address texts, or by an address of one of the networks. */
  ghost predicate InScope(line: string, addresses: seq<string>, networks: seq<(nat, nat)>)
    requires forall i :: 0 <= i < |networks| ==> networks[i].0 < WORD && networks[i].1 <= 32
  {
    || (exists i :: 0 <= i < |addresses| && Contains(line, addresses[i]))
    || (exists i, v :: 0 <= i < |networks| && 0 <= v < WORD && Contains(line, Quad(v)) && Masked(v, networks[i].1) == Masked(networks[i].0, networks[i].1))
  }

  /** Every line in scope holds one of the needles, so the sieve skips none. */
  lemma ScopeHasNeedle(line: string, addresses: seq<string>, networks: seq<(nat, nat)>)
    requires forall i :: 0 <= i < |networks| ==> networks[i].0 < WORD && 8 <= networks[i].1 <= 32
    requires InScope(line, addresses, networks)
    ensures HasAny(line, addresses + NetworkNeedles(networks))
  {
    hide Contains, Quad, Masked, Head;
    var needles := addresses + NetworkNeedles(networks);
    if i :| 0 <= i < |addresses| && Contains(line, addresses[i]) {
      assert needles[i] == addresses[i];
    } else {
      var i, v :| 0 <= i < |networks| && 0 <= v < WORD && Contains(line, Quad(v)) && Masked(v, networks[i].1) == Masked(networks[i].0, networks[i].1);
      var (network, bits) := networks[i];
      NeedleBegins(v, network, bits);
      assert needles[|addresses| + i] == Needle(network, bits).value;
      Inside(line, Quad(v), Needle(network, bits).value);
    }
  }
}
