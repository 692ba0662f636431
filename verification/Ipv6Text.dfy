/**
 The text Maltrail gives an IPv6 address (core/addr.py, sensor/src/addr.rs), which is not the recommended
 one: the first longest run of zero groups before the last group becomes "::" and the other groups lose their
 leading zeros; without such a run every group keeps its four digits. An address is eight 16-bit groups.
 */
module Ipv6Text {
  import opened Text
  import opened Hex

  type Group = g: nat | g < 0x1_0000

  predicate IsWord(c: char) {
    '0' <= c <= '9' || 'a' <= c <= 'z' || 'A' <= c <= 'Z' || c == '_'
  }

  // ---- compress_ipv6 on any text

  const UNIT := "0000:"

  predicate UnitAt(b: string, i: nat) {
    i + 5 <= |b| && b[i..i + 5] == UNIT
  }

  /** How many units follow one another from i. */
  function Units(b: string, i: nat): nat
    decreases |b| - i
  {
    if UnitAt(b, i) then 1 + Units(b, i + 5) else 0
  }

  /** The first of the longest runs of units from i on, unless (units, at) is as long: its length and its place. */
  function Best(b: string, i: nat, units: nat, at: nat): (nat, nat)
    decreases |b| - i
  {
    if i + 5 > |b| then (units, at)
    else if UnitAt(b, i) then
      var u := Units(b, i);
      Best(b, i + 5 * u, if u > units then u else units, if u > units then i else at)
    else Best(b, i + 1, units, at)
  }

  function LeadingZeros(t: string): (n: nat)
    ensures n <= |t|
  {
    if t == "" || t[0] != '0' then 0 else 1 + LeadingZeros(t[1..])
  }

  /** Where the word character of a greedy, backtracking `0+(\w)` is, from the start of t. */
  function Cut(t: string): (k: Option<nat>)
    ensures k.Some? ==> 0 < k.value < |t|
  {
    var n := LeadingZeros(t);
    if n >= 1 && n < |t| && IsWord(t[n]) then Some(n) else if n >= 2 then Some(n - 1) else None
  }

  /** re.sub of `(\A|:)0+(\w)`; `first` at the start of the text. */
  function Sub(t: string, first: bool): string
    decreases |t|
  {
    if t == "" then ""
    else if first && Cut(t).Some? then [t[Cut(t).value]] + Sub(t[Cut(t).value + 1..], false)
    else if t[0] == ':' && Cut(t[1..]).Some? then
      var k := Cut(t[1..]).value;
      [':', t[1..][k]] + Sub(t[1..][k + 1..], false)
    else [t[0]] + Sub(t[1..], false)
  }

  function Doubled(t: string): string {
    if t != "" && t[0] == ':' && !(|t| > 1 && t[1] == ':') then ":" + t else t
  }

  function Collapsed(b: string): string
    requires Best(b, 0, 0, 0).1 + 5 * Best(b, 0, 0, 0).0 <= |b|
  {
    var (units, at) := Best(b, 0, 0, 0);
    b[..at] + ":" + b[at + 5 * units..]
  }

  lemma {:induction false} BestFits(b: string, i: nat, units: nat, at: nat)
    requires at + 5 * units <= |b|
    ensures Best(b, i, units, at).1 + 5 * Best(b, i, units, at).0 <= |b|
    decreases |b| - i
  {
    if i + 5 <= |b| {
      if UnitAt(b, i) {
        var u := Units(b, i);
        UnitsFit(b, i);
        BestFits(b, i + 5 * u, if u > units then u else units, if u > units then i else at);
      } else {
        BestFits(b, i + 1, units, at);
      }
    }
  }

  lemma {:induction false} UnitsFit(b: string, i: nat)
    requires i <= |b|
    ensures i + 5 * Units(b, i) <= |b|
    decreases |b| - i
  {
    if UnitAt(b, i) { UnitsFit(b, i + 5); }
  }

  function Compress(b: string): string {
    BestFits(b, 0, 0, 0);
    if Best(b, 0, 0, 0).0 == 0 then b else Doubled(Sub(Collapsed(b), true))
  }

  // ---- the text of eight groups

  function Hex4(g: Group): (s: string)
    ensures |s| == 4
  {
    Fixed(g, 4)
  }

  /** Each group after a colon, with all digits or without leading zeros. */
  function Padded4(gs: seq<Group>): (s: string)
    ensures |s| == 5 * |gs|
  {
    if gs == [] then "" else ":" + Hex4(gs[0]) + Padded4(gs[1..])
  }

  function Short(gs: seq<Group>): string {
    if gs == [] then "" else ":" + Digits(gs[0]) + Short(gs[1..])
  }

  /** "%04x:%04x:..." */
  function Expand(gs: seq<Group>): (s: string)
    requires gs != []
    ensures |s| == 5 * |gs| - 1
  {
    Hex4(gs[0]) + Padded4(gs[1..])
  }

  function Shortened(gs: seq<Group>): string {
    if gs == [] then "" else Digits(gs[0]) + Short(gs[1..])
  }

  /** The zero groups that follow one another from i, the last group aside. */
  function ZeroRun(gs: seq<Group>, i: nat): (n: nat)
    requires i <= |gs|
    ensures i + n <= |gs| && (n > 0 ==> i + n < |gs|)
    decreases |gs| - i
  {
    if i + 1 < |gs| && gs[i] == 0 then 1 + ZeroRun(gs, i + 1) else 0
  }

  /** The first of the longest runs of zero groups from i on, unless (n, at) is as long. */
  function Longest(gs: seq<Group>, i: nat, n: nat, at: nat): (nat, nat)
    requires i <= |gs|
    decreases |gs| - i
  {
    if i + 1 >= |gs| then (n, at)
    else
      var u := ZeroRun(gs, i);
      if u == 0 then Longest(gs, i + 1, n, at)
      else Longest(gs, i + u, if u > n then u else n, if u > n then i else at)
  }

  /** Where "::" goes: its first group and how many. */
  function Gap(gs: seq<Group>): (nat, nat) {
    var (n, at) := Longest(gs, 0, 0, 0);
    (at, n)
  }

  lemma {:induction false} LongestIs(gs: seq<Group>, i: nat, n: nat, at: nat)
    requires i <= |gs| && at + n <= |gs| && (n > 0 ==> at + n < |gs|)
    requires forall k :: at <= k < at + n ==> gs[k] == 0
    ensures var (m, a) := Longest(gs, i, n, at);
      && m >= n && a + m <= |gs| && (m > 0 ==> a + m < |gs|)
      && (forall k :: a <= k < a + m ==> gs[k] == 0)
    decreases |gs| - i
  {
    if i + 1 < |gs| {
      var u := ZeroRun(gs, i);
      ZeroRunIs(gs, i);
      if u == 0 { LongestIs(gs, i + 1, n, at); } else if u > n { LongestIs(gs, i + u, u, i); } else { LongestIs(gs, i + u, n, at); }
    }
  }

  /** The rest of a run of zero groups is a run, shorter by what was left off. */
  lemma {:induction false} ZeroRunRest(gs: seq<Group>, i: nat, j: nat)
    requires i <= |gs| && j <= ZeroRun(gs, i)
    ensures ZeroRun(gs, i + j) == ZeroRun(gs, i) - j
    decreases j
  {
    if j > 0 { ZeroRunRest(gs, i + 1, j - 1); }
  }

  /** The runs from the groups before `end` are no longer than n; that from `at` is as long, and the earlier ones are shorter. */
  ghost predicate FirstLongest(gs: seq<Group>, end: nat, n: nat, at: nat)
    requires end <= |gs| + 1
  {
    && at <= |gs| && ZeroRun(gs, at) >= n && (n > 0 ==> ZeroRun(gs, at) == n) && (n == 0 ==> at == 0)
    && (forall k :: 0 <= k < end ==> ZeroRun(gs, k) <= n)
    && (forall k :: 0 <= k < at ==> ZeroRun(gs, k) < n)
  }

  lemma FirstLongestNext(gs: seq<Group>, i: nat, n: nat, at: nat)
    requires i < |gs| && FirstLongest(gs, i, n, at)
    ensures var u := ZeroRun(gs, i);
      && (u == 0 ==> FirstLongest(gs, i + 1, n, at))
      && (u > n ==> FirstLongest(gs, i + u, u, i))
      && (0 < u <= n ==> FirstLongest(gs, i + u, n, at))
  {
    hide ZeroRun;
    var u := ZeroRun(gs, i);
    forall k | i <= k < i + u ensures ZeroRun(gs, k) == u - (k - i) { ZeroRunRest(gs, i, k - i); }
  }

  lemma {:induction false} LongestFrom(gs: seq<Group>, i: nat, n: nat, at: nat)
    requires i <= |gs| && FirstLongest(gs, i, n, at)
    ensures FirstLongest(gs, |gs| + 1, Longest(gs, i, n, at).0, Longest(gs, i, n, at).1)
    decreases |gs| - i
  {
    if i + 1 < |gs| {
      FirstLongestNext(gs, i, n, at);
      var u := ZeroRun(gs, i);
      if u == 0 { LongestFrom(gs, i + 1, n, at); } else { LongestFrom(gs, i + u, if u > n then u else n, if u > n then i else at); }
    } else {
      assert ZeroRun(gs, |gs|) == 0 && (i < |gs| ==> ZeroRun(gs, i) == 0);
    }
  }

  /** The gap is a longest run of zero groups before the last group, and the first of them. */
  lemma GapIsFirstLongest(gs: seq<Group>)
    requires gs != []
    ensures var (at, n) := Gap(gs);
      && at <= |gs| && ZeroRun(gs, at) == n
      && (forall k :: 0 <= k <= |gs| ==> ZeroRun(gs, k) <= n)
      && (forall k :: 0 <= k < at ==> ZeroRun(gs, k) < n)
  {
    LongestFrom(gs, 0, 0, 0);
  }

  const TWO_RUNS: seq<Group> := [1, 0, 0, 2, 0, 0, 3, 4]

  /** Without a zero group before the last one nothing is shortened: every group keeps its four digits. */
  lemma NothingShortened(gs: seq<Group>)
    requires gs != [] && forall k :: 0 <= k < |gs| - 1 ==> gs[k] != 0
    ensures Render(gs) == Expand(gs) && |Render(gs)| == 5 * |gs| - 1
  {
    hide Render, Expand, Hex4;
    NoRun(gs, 0);
    RenderWhole(gs);
  }

  lemma {:induction false} NoRun(gs: seq<Group>, i: nat)
    requires i <= |gs| && forall k :: 0 <= k < |gs| - 1 ==> gs[k] != 0
    ensures Longest(gs, i, 0, 0) == (0, 0)
    decreases |gs| - i
  {
    if i + 1 < |gs| { NoRun(gs, i + 1); }
  }

  lemma RenderWhole(gs: seq<Group>)
    requires gs != [] && Longest(gs, 0, 0, 0) == (0, 0)
    ensures Render(gs) == Expand(gs)
  {
  }

  lemma TwoRuns()
    ensures var gs := TWO_RUNS;
      && ZeroRun(gs, 0) == 0 && ZeroRun(gs, 1) == 2 && ZeroRun(gs, 3) == 0 && ZeroRun(gs, 4) == 2 && ZeroRun(gs, 6) == 0
      && Gap(gs) == (1, 2)
  {
    var gs := TWO_RUNS;
    assert ZeroRun(gs, 3) == 0 && ZeroRun(gs, 2) == 1 && ZeroRun(gs, 6) == 0 && ZeroRun(gs, 5) == 1;
    assert Longest(gs, 6, 2, 1) == Longest(gs, 7, 2, 1) == (2, 1);
    assert Longest(gs, 3, 2, 1) == Longest(gs, 4, 2, 1) == Longest(gs, 6, 2, 1);
    assert Longest(gs, 0, 0, 0) == Longest(gs, 1, 0, 0) == Longest(gs, 3, 2, 1);
  }

  lemma ShortNext(g: Group, rest: seq<Group>)
    requires g < 16
    ensures Short([g] + rest) == [':', Digit(g)] + Short(rest)
    ensures Shortened([g] + rest) == [Digit(g)] + Short(rest)
  {
    assert ([g] + rest)[1..] == rest;
    assert Digits(g) == [Digit(g)];
  }

  /** Of two runs of one length the first is collapsed, not the last. */
  lemma FirstNotLast()
    ensures Gap(TWO_RUNS) == (1, 2) && ZeroRun(TWO_RUNS, 4) == 2
    ensures Render(TWO_RUNS) == "1::2:0:0:3:4"
  {
    hide Digit, Digits, Short, Shortened, Longest, ZeroRun;
    var gs := TWO_RUNS;
    TwoRuns();
    TwoTexts();
    assert gs[..1] == [1] && gs[3..] == [2, 0, 0, 3, 4];
  }

  lemma TwoTexts()
    ensures Shortened([1]) == "1" && Shortened([2, 0, 0, 3, 4]) == "2:0:0:3:4"
  {
    hide Digits, Short, Shortened;
    assert Short([]) == "" by { ShortNone(); }
    assert [1] + [] == [1] && [4] + [] == [4] && [3] + [4] == [3, 4] && [0] + [3, 4] == [0, 3, 4];
    assert [0] + [0, 3, 4] == [0, 0, 3, 4] && [2] + [0, 0, 3, 4] == [2, 0, 0, 3, 4];
    ShortNext(1, []);
    ShortNext(4, []);
    ShortNext(3, [4]);
    ShortNext(0, [3, 4]);
    ShortNext(0, [0, 3, 4]);
    ShortNext(2, [0, 0, 3, 4]);
  }

  lemma ShortNone()
    ensures Short([]) == ""
  {
  }

  lemma {:induction false} ZeroRunIs(gs: seq<Group>, i: nat)
    requires i <= |gs|
    ensures forall k :: i <= k < i + ZeroRun(gs, i) ==> gs[k] == 0
    decreases |gs| - i
  {
    if i + 1 < |gs| && gs[i] == 0 { ZeroRunIs(gs, i + 1); }
  }

  /** What the renderer writes. */
  function Render(gs: seq<Group>): string
    requires gs != []
  {
    LongestIs(gs, 0, 0, 0);
    var (at, n) := Gap(gs);
    if n == 0 then Expand(gs) else Shortened(gs[..at]) + "::" + Shortened(gs[at + n..])
  }

  // ---- runs of units are runs of zero groups

  lemma Hex4Is(g: Group)
    ensures Hex4(g) == [Digit(g / 4096), Digit(g / 256 % 16), Digit(g / 16 % 16), Digit(g % 16)]
  {
    assert g / 16 / 16 / 16 == g / 4096 && g / 16 / 16 == g / 256;
    assert Fixed(g / 4096, 1) == [Digit(g / 4096)];
    assert Fixed(g / 256, 2) == Fixed(g / 4096, 1) + [Digit(g / 256 % 16)];
    assert Fixed(g / 16, 3) == Fixed(g / 256, 2) + [Digit(g / 16 % 16)];
  }

  lemma Hex4Chars(g: Group)
    ensures forall i :: 0 <= i < 4 ==> Hex.IsDigit(Hex4(g)[i]) && IsWord(Hex4(g)[i]) && Hex4(g)[i] != ':'
    ensures Hex4(g) == "0000" <==> g == 0
  {
    hide Fixed, Hex4, Digit, DigitValue;
    Hex4Is(g);
    DigitRoundTrip(g / 4096);
    DigitRoundTrip(g / 256 % 16);
    DigitRoundTrip(g / 16 % 16);
    DigitRoundTrip(g % 16);
    DigitOrder(g / 4096, 0);
    DigitOrder(g / 256 % 16, 0);
    DigitOrder(g / 16 % 16, 0);
    DigitOrder(g % 16, 0);
    ZeroDigit();
  }

  lemma ZeroDigit()
    ensures Digit(0) == '0'
  {
  }

  lemma {:induction false} ExpandDrop(gs: seq<Group>, k: nat)
    requires k < |gs|
    ensures Expand(gs)[5 * k..] == Expand(gs[k..])
  {
    if k > 0 {
      assert gs[1..][k - 1..] == gs[k..];
      PaddedExpand(gs[1..]);
      ExpandDrop(gs[1..], k - 1);
      assert Expand(gs) == Hex4(gs[0]) + ":" + Expand(gs[1..]);
      assert Expand(gs)[5 * k..] == Expand(gs)[5..][5 * (k - 1)..];
    }
  }

  lemma PaddedExpand(gs: seq<Group>)
    requires gs != []
    ensures Padded4(gs) == ":" + Expand(gs)
  {
  }

  /** Units stand where a zero group before the last begins, and nowhere else. */
  lemma UnitIsZero(gs: seq<Group>, k: nat)
    requires k < |gs|
    ensures UnitAt(Expand(gs), 5 * k) <==> k + 1 < |gs| && gs[k] == 0
    ensures forall p :: 5 * k < p < 5 * k + 5 ==> !UnitAt(Expand(gs), p)
  {
    hide Hex4, Padded4;
    var b := Expand(gs);
    if k + 1 < |gs| {
      GroupText(gs, k);
      Hex4Chars(gs[k]);
      ZeroUnit(Hex4(gs[k]));
      forall p | 5 * k < p < 5 * k + 5 ensures !UnitAt(b, p) { ColonInside(b, p, 5 * k + 4); }
    }
  }

  lemma ColonInside(b: string, p: nat, colon: nat)
    requires p <= colon < p + 4 && colon < |b| && b[colon] == ':'
    ensures !UnitAt(b, p)
  {
    if p + 5 <= |b| { assert b[p..p + 5][colon - p] == ':' != UNIT[colon - p]; }
  }

  lemma ZeroUnit(t: string)
    requires |t| == 4
    ensures t + ":" == UNIT <==> t == "0000"
  {
    assert UNIT == "0000" + ":";
    if t + ":" == UNIT { assert t == (t + ":")[..4] == UNIT[..4]; }
  }

  lemma GroupText(gs: seq<Group>, k: nat)
    requires k + 1 < |gs|
    ensures Expand(gs)[5 * k..5 * k + 5] == Hex4(gs[k]) + ":" && Expand(gs)[5 * k + 4] == ':'
  {
    hide Hex4;
    ExpandDrop(gs, k);
    assert Expand(gs[k..]) == Hex4(gs[k]) + ":" + (Hex4(gs[k..][1]) + Padded4(gs[k..][1..][1..]));
    assert Expand(gs)[5 * k..][..5] == Hex4(gs[k]) + ":";
  }

  lemma {:induction false} UnitsAreZeros(gs: seq<Group>, k: nat)
    requires k < |gs|
    ensures Units(Expand(gs), 5 * k) == ZeroRun(gs, k)
    decreases |gs| - k
  {
    UnitIsZero(gs, k);
    if k + 1 < |gs| && gs[k] == 0 {
      UnitsAreZeros(gs, k + 1);
      assert 5 * (k + 1) == 5 * k + 5;
    }
  }

  lemma {:induction false} BestIsLongest(gs: seq<Group>, k: nat, n: nat, at: nat)
    requires k < |gs|
    ensures var (m, a) := Longest(gs, k, n, at); Best(Expand(gs), 5 * k, n, 5 * at) == (m, 5 * a)
    decreases |gs| - k
  {
    hide UnitAt, Expand, Units;
    var b := Expand(gs);
    UnitIsZero(gs, k);
    UnitsAreZeros(gs, k);
    if k + 1 < |gs| {
      var u := ZeroRun(gs, k);
      if u == 0 {
        assert Best(b, 5 * k, n, 5 * at) == Best(b, 5 * k + 1, n, 5 * at);
        assert Best(b, 5 * k + 1, n, 5 * at) == Best(b, 5 * k + 2, n, 5 * at);
        assert Best(b, 5 * k + 2, n, 5 * at) == Best(b, 5 * k + 3, n, 5 * at);
        assert Best(b, 5 * k + 3, n, 5 * at) == Best(b, 5 * k + 4, n, 5 * at);
        assert Best(b, 5 * k + 4, n, 5 * at) == Best(b, 5 * (k + 1), n, 5 * at);
        BestIsLongest(gs, k + 1, n, at);
      } else {
        assert 5 * k + 5 * u == 5 * (k + u);
        BestIsLongest(gs, k + u, if u > n then u else n, if u > n then k else at);
      }
    }
  }

  // ---- stripping leading zeros

  lemma {:induction false} ZerosLead(k: nat, t: string)
    ensures LeadingZeros(Zeros(k) + t) == k + LeadingZeros(t)
  {
    if k > 0 {
      ZerosLead(k - 1, t);
      assert (Zeros(k) + t)[1..] == Zeros(k - 1) + t;
    } else {
      assert Zeros(0) + t == t;
    }
  }

  /** The digits of a group: at most four, word characters, and no leading zero but that of zero itself. */
  lemma ShortDigits(g: Group)
    ensures 0 < |Digits(g)| <= 4 && Hex4(g) == Zeros(4 - |Digits(g)|) + Digits(g)
    ensures forall i :: 0 <= i < |Digits(g)| ==> Hex.IsDigit(Digits(g)[i]) && IsWord(Digits(g)[i]) && Digits(g)[i] != ':'
    ensures g == 0 ==> Digits(g) == "0"
    ensures g > 0 ==> Digits(g)[0] != '0'
  {
    hide Fixed, Pow16;
    FourDigits();
    PaddedIsFixed(g, 4);
    DigitsLength(g, 4);
    DigitsRoundTrip(g);
    if g > 0 { NoLeadingZero(g); }
  }

  lemma {:induction false} NoLeadingZero(n: nat)
    requires n > 0
    ensures Digits(n)[0] != '0'
  {
    if n < 16 { DigitRoundTrip(n); } else { NoLeadingZero(n / 16); }
  }

  lemma {:induction false} SubPass(w: string, rest: string)
    requires ':' !in w
    ensures Sub(w + rest, false) == w + Sub(rest, false)
  {
    if w == "" {
      assert w + rest == rest;
    } else {
      assert (w + rest)[1..] == w[1..] + rest;
      SubPass(w[1..], rest);
    }
  }

  /** Where a text ends, or a colon follows. */
  predicate Ends(rest: string) {
    rest == "" || rest[0] == ':'
  }

  lemma CutGroup(g: Group, rest: string)
    requires Ends(rest)
    ensures Cut(Hex4(g) + rest) == if |Digits(g)| == 4 then None else Some(4 - |Digits(g)|)
  {
    hide Digits, Hex4, Fixed, LeadingZeros;
    ShortDigits(g);
    var d := Digits(g);
    ZerosSnoc(4 - |d|);
    assert Hex4(g) + rest == Zeros(4 - |d|) + (d + rest);
    ZerosLead(4 - |d|, d + rest);
    NoLead(rest);
    if g == 0 {
      ZerosLead(1, rest);
      assert Zeros(1) == "0";
    } else {
      NoLead(d + rest);
      assert (Hex4(g) + rest)[4 - |d|] == d[0];
    }
  }

  lemma NoLead(t: string)
    requires t == "" || t[0] != '0'
    ensures LeadingZeros(t) == 0
  {
  }

  lemma SubCut(t: string, k: nat, w: string, rest: string, first: bool)
    requires Cut(t) == Some(k) && t[k..] == w + rest && w != "" && ':' !in w
    ensures Sub(t, true) == w + Sub(rest, false)
    ensures Sub(":" + t, first) == ":" + (w + Sub(rest, false))
  {
    hide Sub, Cut, IsWord;
    assert t[k + 1..] == t[k..][1..] == w[1..] + rest && t[k] == t[k..][0] == w[0];
    SubPass(w[1..], rest);
    SubHere(t, k);
    SubColonHere(t, k, first);
    assert [w[0]] + (w[1..] + Sub(rest, false)) == w + Sub(rest, false);
    assert [':', w[0]] + (w[1..] + Sub(rest, false)) == ":" + (w + Sub(rest, false));
  }

  /** One substitution at the start of a text, and one at a colon. */
  lemma SubHere(t: string, k: nat)
    requires Cut(t) == Some(k)
    ensures k < |t| && Sub(t, true) == [t[k]] + Sub(t[k + 1..], false)
  {
    hide Cut;
  }

  lemma SubColonHere(t: string, k: nat, first: bool)
    requires Cut(t) == Some(k)
    ensures k < |t| && Sub(":" + t, first) == [':', t[k]] + Sub(t[k + 1..], false)
  {
    hide Cut, IsWord;
    assert (":" + t)[1..] == t && (":" + t)[0] == ':';
    NoCutAtColon(t);
  }

  lemma SubNext(t: string, first: bool)
    requires t != "" && !(first && Cut(t).Some?) && !(t[0] == ':' && Cut(t[1..]).Some?)
    ensures Sub(t, first) == [t[0]] + Sub(t[1..], false)
  {
    hide Cut;
  }

  lemma NoCutAtColon(t: string)
    ensures Cut(":" + t) == None
  {
    assert LeadingZeros(":" + t) == 0;
  }

  lemma SubNoCut(w: string, rest: string, first: bool)
    requires Cut(w + rest) == None && w != "" && ':' !in w
    ensures Sub(w + rest, true) == w + Sub(rest, false)
    ensures Sub(":" + (w + rest), first) == ":" + (w + Sub(rest, false))
  {
    var t := w + rest;
    SubPass(w, rest);
    SubPass(w[1..], rest);
    assert t[1..] == w[1..] + rest;
    assert [w[0]] + (w[1..] + Sub(rest, false)) == w + Sub(rest, false);
    assert (":" + t)[1..] == t && LeadingZeros(":" + t) == 0;
  }

  /** A group at the start, or after a colon, keeps its digits without leading zeros. */
  lemma SubGroup(g: Group, rest: string, first: bool)
    requires Ends(rest)
    ensures Sub(Hex4(g) + rest, true) == Digits(g) + Sub(rest, false)
    ensures Sub(":" + (Hex4(g) + rest), first) == ":" + (Digits(g) + Sub(rest, false))
  {
    hide Sub, Cut, Digits, Hex4, Fixed;
    var t, d := Hex4(g) + rest, Digits(g);
    CutGroup(g, rest);
    ShortDigits(g);
    if |d| == 4 {
      assert Hex4(g) == "" + d == d;
      SubNoCut(d, rest, first);
    } else {
      ZerosSnoc(4 - |d|);
      assert t[4 - |d|..] == d + rest;
      SubCut(t, 4 - |d|, d, rest, first);
    }
  }

  lemma FourDigits()
    ensures Pow16(4) == 0x1_0000
  {
  }

  lemma PaddedCons(gs: seq<Group>, rest: string)
    requires gs != []
    ensures Padded4(gs) + rest == ":" + (Hex4(gs[0]) + (Padded4(gs[1..]) + rest))
    ensures Short(gs) + rest == ":" + (Digits(gs[0]) + (Short(gs[1..]) + rest))
    ensures Ends(rest) ==> Ends(Padded4(gs[1..]) + rest)
  {
    hide Hex4, Digits, Padded4, Short, Ends;
    PaddedIs(gs);
    Regroup(":", Hex4(gs[0]), Padded4(gs[1..]), rest);
    Regroup(":", Digits(gs[0]), Short(gs[1..]), rest);
    PaddedEnds(gs[1..], rest);
  }

  lemma PaddedIs(gs: seq<Group>)
    requires gs != []
    ensures Padded4(gs) == ":" + Hex4(gs[0]) + Padded4(gs[1..]) && Short(gs) == ":" + Digits(gs[0]) + Short(gs[1..])
  {
    hide Hex4, Digits;
  }

  lemma PaddedEnds(gs: seq<Group>, rest: string)
    ensures Ends(rest) ==> Ends(Padded4(gs) + rest)
  {
    hide Hex4, Digits;
    if gs == [] {
      assert Padded4(gs) + rest == rest;
    } else {
      assert Padded4(gs)[0] == ':';
    }
  }

  lemma Regroup(a: string, b: string, c: string, d: string)
    ensures a + b + c + d == a + (b + (c + d))
  {
  }

  lemma {:induction false} SubPadded(gs: seq<Group>, rest: string, first: bool)
    requires Ends(rest) && (gs != [] || !first)
    ensures Sub(Padded4(gs) + rest, first) == Short(gs) + Sub(rest, false)
  {
    hide Sub, Hex4, Digits, Ends;
    if gs == [] {
      assert Padded4(gs) + rest == rest;
    } else {
      SubPadded(gs[1..], rest, false);
      PaddedCons(gs, rest);
      PaddedCons(gs, Sub(rest, false));
      SubGroup(gs[0], Padded4(gs[1..]) + rest, first);
    }
  }

  /** A colon before another stays. */
  lemma SubColon(rest: string)
    requires rest != "" && rest[0] == ':'
    ensures Sub(":" + rest, false) == ":" + Sub(rest, false)
  {
    assert (":" + rest)[1..] == rest;
  }

  // ---- compress_ipv6 of the expanded text

  lemma CollapsedIs(gs: seq<Group>, at: nat, n: nat)
    requires n > 0 && at + n < |gs|
    ensures var b := Expand(gs);
      b[..5 * at] + ":" + b[5 * at + 5 * n..] == (if at == 0 then "" else Expand(gs[..at]) + ":") + Padded4(gs[at + n..])
  {
    ExpandDrop(gs, at + n);
    PaddedExpand(gs[at + n..]);
    assert 5 * at + 5 * n == 5 * (at + n);
    if at > 0 { ExpandTake(gs, at); }
  }

  lemma {:induction false} ExpandTake(gs: seq<Group>, at: nat)
    requires 0 < at < |gs|
    ensures Expand(gs)[..5 * at] == Expand(gs[..at]) + ":"
  {
    PaddedExpand(gs[1..]);
    assert Expand(gs) == Hex4(gs[0]) + ":" + Expand(gs[1..]);
    if at > 1 {
      ExpandTake(gs[1..], at - 1);
      assert gs[..at][1..] == gs[1..][..at - 1];
      PaddedExpand(gs[..at][1..]);
      assert Expand(gs)[..5 * at] == Hex4(gs[0]) + ":" + Expand(gs[1..])[..5 * (at - 1)];
    }
  }

  lemma SubLeft(gs: seq<Group>, rest: string)
    requires gs != [] && rest != "" && rest[0] == ':'
    ensures Sub(Expand(gs) + ":" + rest, true) == Shortened(gs) + ":" + Sub(rest, false)
  {
    hide Sub, Hex4, Digits;
    var tail := ":" + rest;
    assert Expand(gs) + ":" + rest == Hex4(gs[0]) + (Padded4(gs[1..]) + tail);
    assert Ends(Padded4(gs[1..]) + tail);
    SubGroup(gs[0], Padded4(gs[1..]) + tail, true);
    SubPadded(gs[1..], tail, false);
    SubColon(rest);
  }

  lemma ShortIs(gs: seq<Group>)
    requires gs != []
    ensures Short(gs) == ":" + Shortened(gs) && Shortened(gs) != "" && Shortened(gs)[0] != ':'
  {
    hide Digits, IsWord, Hex.IsDigit, Hex4;
    ShortDigits(gs[0]);
    ShortOne(Digits(gs[0]), Short(gs[1..]));
  }

  lemma ShortOne(d: string, rest: string)
    requires d != "" && d[0] != ':'
    ensures ":" + d + rest == ":" + (d + rest) && d + rest != "" && (d + rest)[0] != ':'
  {
  }

  /** Maltrail's compress_ipv6 on an expanded address is the text described above. */
  lemma CompressIsRender(gs: seq<Group>)
    requires gs != []
    ensures Compress(Expand(gs)) == Render(gs)
  {
    hide Best, Longest, Sub, Short, Shortened, Padded4, Doubled, Expand, Hex4;
    BestIsLongest(gs, 0, 0, 0);
    BestFits(Expand(gs), 0, 0, 0);
    LongestIs(gs, 0, 0, 0);
    var (at, n) := Gap(gs);
    if n > 0 {
      CollapsedIs(gs, at, n);
      SubSides(gs, at, gs[at + n..]);
    }
  }

  lemma SubSides(gs: seq<Group>, at: nat, right: seq<Group>)
    requires at < |gs| && right != []
    ensures Doubled(Sub((if at == 0 then "" else Expand(gs[..at]) + ":") + Padded4(right), true)) == Shortened(gs[..at]) + "::" + Shortened(right)
  {
    hide Sub, Expand, Digits, Short, Shortened, Padded4;
    assert Padded4(right) + "" == Padded4(right);
    SubPadded(right, "", at == 0);
    SubNone();
    assert Short(right) + "" == Short(right);
    ShortIs(right);
    PaddedExpand(right);
    if at == 0 {
      assert "" + Padded4(right) == Padded4(right) && gs[..0] == [];
      assert Shortened([]) == "" by { ShortenedNone(); }
    } else {
      SubLeft(gs[..at], Padded4(right));
      ShortIs(gs[..at]);
    }
  }

  lemma ShortenedNone()
    ensures Shortened([]) == ""
  {
  }

  lemma SubNone()
    ensures Sub("", false) == "" && Sub("", true) == ""
  {
  }
}
