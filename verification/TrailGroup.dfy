/** The renames of the trail post-processing and the group of keys they stay in (core/update.py). */
module TrailGroup {
  import opened Text

  /** What the model takes from outside: case folding beyond ASCII and the idna codec (None: it refuses). */
  datatype Names = Names(unicodeLower: string -> string, idna: string -> Option<string>)

  const WWW := "www."

  function Lower(n: Names, key: string): string {
    if IsAscii(key) then LowerAscii(key) else n.unicodeLower(key)
  }

  /** `key.split('?')[0]` */
  function Cut(s: string): string {
    if s == [] || s[0] == '?' then [] else [s[0]] + Cut(s[1..])
  }

  /** `re.sub("/+", "/", s)` */
  function Collapse(s: string): string {
    if s == [] then []
    else if s[0] == '/' && |s| > 1 && s[1] == '/' then Collapse(s[1..])
    else [s[0]] + Collapse(s[1..])
  }

  /** `s.replace("//", "/")`: pairs, left to right, without overlap. */
  function Halve(s: string): string {
    if s == [] then []
    else if s[0] == '/' && |s| > 1 && s[1] == '/' then ['/'] + Halve(s[2..])
    else [s[0]] + Halve(s[1..])
  }

  /** Every leading "www." and dot. */
  function StripLead(s: string): string {
    if WWW <= s then StripLead(s[4..])
    else if "." <= s then StripLead(s[1..])
    else s
  }

  function StripTrail(s: string): string {
    if s != [] && s[|s| - 1] == '.' then StripTrail(s[..|s| - 1]) else s
  }

  /** `s.lstrip('.')` */
  function StripDots(s: string): string {
    if "." <= s then StripDots(s[1..]) else s
  }

  /** `_group` */
  function Group(n: Names, key: string): string {
    var k := Lower(n, key);
    StripTrail(StripLead(if '/' in k || '?' in k then Collapse(Cut(k)) else k))
  }

  /** `_idn_groups` for a non-ASCII key, and the own group of an ASCII one. */
  function IdnGroups(n: Names, key: string): set<string> {
    {Group(n, key)} +
    if !IsAscii(key) && n.idna(key).Some? then {Group(n, n.idna(key).value)} else {}
  }

  // ---- how the pieces commute

  lemma {:induction false} CutNothing(s: string)
    requires '?' !in s
    ensures Cut(s) == s
  {
    if s != [] { CutNothing(s[1..]); }
  }

  lemma {:induction false} CutHasNoQuery(s: string)
    ensures '?' !in Cut(s)
    ensures '/' in Cut(s) ==> '/' in s
  {
    if s != [] && s[0] != '?' { CutHasNoQuery(s[1..]); }
  }

  lemma {:induction false} CollapseNothing(s: string)
    requires '/' !in s
    ensures Collapse(s) == s
  {
    if s != [] { CollapseNothing(s[1..]); }
  }

  lemma LowerCons(c: char, s: string)
    ensures LowerAscii([c] + s) == [LowerChar(c)] + LowerAscii(s)
  {
  }

  lemma LowerDrop(s: string, i: nat)
    requires i <= |s|
    ensures LowerAscii(s)[i..] == LowerAscii(s[i..])
  {
  }

  lemma {:induction false} CutLower(s: string)
    ensures Cut(LowerAscii(s)) == LowerAscii(Cut(s))
  {
    hide LowerAscii;
    if s != [] {
      LowerDrop(s, 1);
      CutLower(s[1..]);
      if s[0] != '?' { LowerCons(s[0], Cut(s[1..])); }
    }
  }

  lemma {:induction false} HalveLower(s: string)
    ensures Halve(LowerAscii(s)) == LowerAscii(Halve(s))
  {
    hide LowerAscii;
    if s == [] {
    } else if s[0] == '/' && |s| > 1 && s[1] == '/' {
      LowerDrop(s, 2);
      HalveLower(s[2..]);
      LowerCons('/', Halve(s[2..]));
    } else {
      LowerDrop(s, 1);
      HalveLower(s[1..]);
      LowerCons(s[0], Halve(s[1..]));
    }
  }

  lemma {:induction false} CutHalve(s: string)
    ensures Cut(Halve(s)) == Halve(Cut(s))
  {
    if s == [] {
    } else if s[0] == '/' && |s| > 1 && s[1] == '/' {
      CutHalve(s[2..]);
      assert Cut(s) == ['/', '/'] + Cut(s[2..]) by { assert s[1..][1..] == s[2..]; }
      assert Cut(s)[2..] == Cut(s[2..]);
    } else {
      CutHalve(s[1..]);
      assert s[0] != '?' ==> Cut(s)[1..] == Cut(s[1..]);
    }
  }

  lemma {:induction false} CollapseHalve(s: string)
    ensures Collapse(Halve(s)) == Collapse(s)
    ensures (s != [] && s[0] == '/') <==> (Halve(s) != [] && Halve(s)[0] == '/')
  {
    if s == [] {
    } else if s[0] == '/' && |s| > 1 && s[1] == '/' {
      CollapseHalve(s[2..]);
      assert s[1..][1..] == s[2..];
      assert Halve(s)[1..] == Halve(s[2..]);
    } else {
      CollapseHalve(s[1..]);
      assert Halve(s)[1..] == Halve(s[1..]);
    }
  }

  lemma {:induction false} HalveKeepsSlash(s: string)
    ensures '/' in Halve(s) <==> '/' in s
    ensures '?' in Halve(s) <==> '?' in s
    ensures IsAscii(s) ==> IsAscii(Halve(s))
  {
    if s == [] {
    } else if s[0] == '/' && |s| > 1 && s[1] == '/' {
      HalveKeepsSlash(s[2..]);
      assert s == ['/', '/'] + s[2..];
    } else {
      HalveKeepsSlash(s[1..]);
      assert s == [s[0]] + s[1..];
    }
  }

  lemma {:induction false} CutAscii(s: string)
    requires IsAscii(s)
    ensures IsAscii(Cut(s))
  {
    if s != [] && s[0] != '?' { CutAscii(s[1..]); }
  }

  lemma {:induction false} SuffixAscii(s: string, i: nat)
    requires IsAscii(s) && i <= |s|
    ensures IsAscii(s[i..])
  {
    forall j | 0 <= j < |s[i..]| ensures s[i..][j] < 128 as char { assert s[i..][j] == s[i + j]; }
  }

  /** The branch in `_group` only skips work: the cut and the collapse change nothing without '/' and '?'. */
  lemma GroupUnconditional(n: Names, key: string)
    ensures Group(n, key) == StripTrail(StripLead(Collapse(Cut(Lower(n, key)))))
  {
    var k := Lower(n, key);
    if '/' !in k && '?' !in k { CutNothing(k); CollapseNothing(k); }
  }

  // ---- each rename of the cleanup stays in the group

  lemma GroupOfLower(n: Names, key: string)
    requires IsAscii(key)
    ensures Group(n, LowerAscii(key)) == Group(n, key)
  {
    assert LowerAscii(LowerAscii(key)) == LowerAscii(key);
  }

  lemma GroupOfWithoutWww(n: Names, key: string)
    requires IsAscii(key) && WWW <= key
    ensures Group(n, key[4..]) == Group(n, key)
  {
    hide Cut, Collapse, LowerAscii, StripTrail, StripLead;
    var t := key[4..];
    SuffixAscii(key, 4);
    GroupUnconditional(n, key);
    GroupUnconditional(n, t);
    LowerWww(t);
    assert key == WWW + t;
    PrefixThrough(LowerAscii(t));
    StripWww(Collapse(Cut(LowerAscii(t))));
  }

  lemma LowerWww(t: string)
    ensures LowerAscii(WWW + t) == WWW + LowerAscii(t)
  {
  }

  lemma StripWww(t: string)
    ensures StripLead(WWW + t) == StripLead(t)
  {
    assert (WWW + t)[4..] == t;
  }

  lemma PrefixThrough(u: string)
    ensures Collapse(Cut(WWW + u)) == WWW + Collapse(Cut(u))
  {
    CutOver(WWW, u);
    CollapseOver(WWW, Cut(u));
  }

  lemma {:induction false} CutOver(p: string, u: string)
    requires '?' !in p
    ensures Cut(p + u) == p + Cut(u)
  {
    if p == [] {
      assert p + u == u;
    } else {
      assert (p + u)[1..] == p[1..] + u;
      CutOver(p[1..], u);
    }
  }

  lemma {:induction false} CollapseOver(p: string, u: string)
    requires '/' !in p
    ensures Collapse(p + u) == p + Collapse(u)
  {
    if p == [] {
      assert p + u == u;
    } else {
      assert (p + u)[1..] == p[1..] + u;
      CollapseOver(p[1..], u);
    }
  }

  lemma GroupOfCut(n: Names, key: string)
    requires IsAscii(key)
    ensures Group(n, Cut(key)) == Group(n, key)
  {
    GroupUnconditional(n, key);
    GroupUnconditional(n, Cut(key));
    CutAscii(key);
    CutLower(key);
    CutHasNoQuery(LowerAscii(key));
    CutNothing(Cut(LowerAscii(key)));
  }

  lemma GroupOfHalve(n: Names, key: string)
    requires IsAscii(key)
    ensures Group(n, Halve(key)) == Group(n, key)
  {
    GroupUnconditional(n, key);
    GroupUnconditional(n, Halve(key));
    HalveKeepsSlash(key);
    HalveLower(key);
    CutHalve(LowerAscii(key));
    CollapseHalve(Cut(LowerAscii(key)));
  }

  // ---- the group of an ASCII key is ASCII

  lemma {:induction false} CollapseAscii(s: string)
    requires IsAscii(s)
    ensures IsAscii(Collapse(s))
  {
    if s != [] {
      SuffixAscii(s, 1);
      CollapseAscii(s[1..]);
    }
  }

  lemma {:induction false} StripLeadAscii(s: string)
    requires IsAscii(s)
    ensures IsAscii(StripLead(s))
  {
    if WWW <= s {
      SuffixAscii(s, 4);
      StripLeadAscii(s[4..]);
    } else if "." <= s {
      SuffixAscii(s, 1);
      StripLeadAscii(s[1..]);
    }
  }

  lemma {:induction false} StripTrailAscii(s: string)
    requires IsAscii(s)
    ensures IsAscii(StripTrail(s))
  {
    if s != [] && s[|s| - 1] == '.' {
      assert forall i :: 0 <= i < |s| - 1 ==> s[..|s| - 1][i] == s[i];
      StripTrailAscii(s[..|s| - 1]);
    }
  }

  lemma GroupAscii(n: Names, key: string)
    requires IsAscii(key)
    ensures IsAscii(Group(n, key))
  {
    hide IsAscii, Cut, Collapse, StripLead, StripTrail;
    GroupUnconditional(n, key);
    var k := LowerAscii(key);
    CutAscii(k);
    CollapseAscii(Cut(k));
    StripLeadAscii(Collapse(Cut(k)));
    StripTrailAscii(StripLead(Collapse(Cut(k))));
  }

  // ---- the names a key can become

  function NormalKey(n: Names, key: string): string {
    if IsAscii(key) then LowerAscii(key) else if n.idna(key).Some? then n.idna(key).value else key
  }

  function WwwKey(key: string): string { if WWW <= key && '/' !in key then key[4..] else key }

  function QueryKey(key: string): string { if '?' in key && !("/" <= key) then Cut(key) else key }

  function SlashesKey(key: string): string { if Contains(key, "//") then Halve(key) else key }

  /** The groups of what the renames make of a name, one after the other. */
  function RenameGroups(n: Names, k: string): set<string> {
    var k1 := WwwKey(k);
    var k2 := QueryKey(k1);
    var k3 := SlashesKey(k2);
    {Group(n, k), Group(n, k1), Group(n, k2), Group(n, k3), Group(n, Lower(n, k3))}
  }

  /** The groups of all names the cleanup can give a key. */
  function Reach(n: Names, key: string): set<string> {
    {Group(n, key)} + RenameGroups(n, NormalKey(n, key))
  }

  /** The groups a key reaches are those the first pass holds back for it, or hold no ASCII name. */
  predicate Foreseen(n: Names, key: string) {
    forall g :: g in Reach(n, key) ==> g in IdnGroups(n, key) || !IsAscii(g)
  }

  /** An ASCII name keeps its group through all renames. */
  lemma RenamesKeepGroup(n: Names, k: string)
    requires IsAscii(k)
    ensures RenameGroups(n, k) == {Group(n, k)}
  {
    hide Group, Cut, Halve, Contains;
    var k1 := WwwKey(k);
    var k2 := QueryKey(k1);
    var k3 := SlashesKey(k2);
    if WWW <= k { SuffixAscii(k, 4); GroupOfWithoutWww(n, k); }
    CutAscii(k1);
    GroupOfCut(n, k1);
    HalveKeepsSlash(k2);
    GroupOfHalve(n, k2);
    GroupOfLower(n, k3);
  }

  lemma ReachAscii(n: Names, key: string)
    requires IsAscii(key)
    ensures Reach(n, key) == {Group(n, key)}
  {
    hide Group, RenameGroups;
    RenamesKeepGroup(n, LowerAscii(key));
    GroupOfLower(n, key);
  }

  /** Every ASCII name is foreseen, and every name idna turns into an ASCII one. */
  lemma ForeseenNames(n: Names, key: string)
    ensures IsAscii(key) || (n.idna(key).Some? && IsAscii(n.idna(key).value)) ==> Reach(n, key) == IdnGroups(n, key) && Foreseen(n, key)
    ensures IdnGroups(n, key) <= Reach(n, key)
  {
    hide Group, RenameGroups;
    if IsAscii(key) {
      ReachAscii(n, key);
    } else if n.idna(key).Some? && IsAscii(n.idna(key).value) {
      RenamesKeepGroup(n, n.idna(key).value);
    }
    OwnRename(n, NormalKey(n, key));
  }

  lemma OwnGroup(n: Names, key: string)
    ensures Group(n, key) in Reach(n, key)
  {
  }

  lemma OwnRename(n: Names, k: string)
    ensures Group(n, k) in RenameGroups(n, k)
  {
  }
}
