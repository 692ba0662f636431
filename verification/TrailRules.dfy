/**
 What the rules of the trail build leave of a trail (core/update.py): the label a run of merges ends with, the name
 and the label a visit of the post-processing leaves, and the confidence of a reference. Every keyword is spelled out
 here, apart from the rules themselves.
 */
module TrailRules {
  import opened Text
  import opened TrailGroup
  import opened TrailShard
  import opened TrailMerge
  import TrailBuild
  import Hex

  // ---- which label a merged trail keeps

  /** A label that is taken over whatever was there. */
  predicate Commands(v: Pair) {
    || ((v.reference == "(static)" || v.reference == "(custom)") && !Contains(v.info, "history"))
    || Contains(v.info, "mass scanner") || Contains(v.info, "ipinfo")
  }

  /** One that only a new trail gets. */
  predicate Yields(v: Pair) {
    && !Commands(v)
    && (|| Contains(v.info, "reputation") || Contains(v.info, "attacker") || Contains(v.info, "spammer")
        || Contains(v.info, "abuser") || Contains(v.info, "malicious") || Contains(v.info, "dnspod")
        || Contains(v.info, "nicru") || Contains(v.info, "crawler") || Contains(v.info, "compromised")
        || Contains(v.info, "bad history"))
  }

  predicate Ordinary(v: Pair) { !Commands(v) && !Yields(v) }

  /** One that stays until a commanding one comes. */
  predicate Holds(v: Pair) { v.reference == "(static)" || v.reference == "(custom)" }

  /** The last commanding label, or the first of all if there is none. */
  predicate IsBase(values: seq<Pair>, b: nat) {
    b < |values| && (b == 0 || Commands(values[b])) && forall j :: b < j < |values| ==> !Commands(values[j])
  }

  /**
   Of labels merged one after the other w is left: it is the base, or an ordinary one after it that no holding label
   came before; and no ordinary one comes after it unless it holds.
   */
  predicate Kept(values: seq<Pair>, b: nat, w: nat) {
    && IsBase(values, b) && b <= w < |values|
    && (w == b || Ordinary(values[w]))
    && (forall j :: b <= j < w && (j == b || Ordinary(values[j])) ==> !Holds(values[j]))
    && (Holds(values[w]) || forall j :: w < j < |values| ==> !Ordinary(values[j]))
  }

  lemma KeptUnique(values: seq<Pair>, b: nat, w: nat, b': nat, w': nat)
    requires Kept(values, b, w) && Kept(values, b', w')
    ensures b == b' && w == w'
  {
    hide Commands, Yields, Holds;
  }

  /** The labels merged under a key, in order. */
  function ValuesOf(rows: seq<Numbered>, k: string): seq<Pair> {
    if rows == [] then []
    else
      var x := rows[|rows| - 1].row;
      ValuesOf(rows[..|rows| - 1], k) + if x.key == k then [x.value] else []
  }

  ghost predicate OnlyMerged(rows: seq<Numbered>, k: string) {
    forall i :: 0 <= i < |rows| && rows[i].row.key == k ==> rows[i].row.kind == Merge
  }

  function References(values: seq<Pair>): set<string> {
    set v | v in values :: v.reference
  }

  lemma HasOne(s: string, needles: seq<string>, i: nat)
    requires i < |needles| && Contains(s, needles[i])
    ensures HasAny(s, needles)
  {
  }

  lemma LowInfo(info: string)
    ensures HasAny(info, LOW_PRIORITY_INFO_KEYWORDS) <==>
      || Contains(info, "reputation") || Contains(info, "attacker") || Contains(info, "spammer")
      || Contains(info, "abuser") || Contains(info, "malicious") || Contains(info, "dnspod")
      || Contains(info, "nicru") || Contains(info, "crawler") || Contains(info, "compromised")
      || Contains(info, "bad history")
  {
    hide Contains;
    var l := LOW_PRIORITY_INFO_KEYWORDS;
    assert |l| == 10;
    assert l[0] == "reputation" && l[1] == "attacker" && l[2] == "spammer" && l[3] == "abuser" && l[4] == "malicious";
    assert l[5] == "dnspod" && l[6] == "nicru" && l[7] == "crawler" && l[8] == "compromised" && l[9] == "bad history";
  }

  lemma HighInfo(info: string)
    ensures HasAny(info, HIGH_PRIORITY_INFO_KEYWORDS) <==> Contains(info, "mass scanner") || Contains(info, "ipinfo")
  {
    hide Contains;
    var h := HIGH_PRIORITY_INFO_KEYWORDS;
    assert |h| == 2 && h[0] == "mass scanner" && h[1] == "ipinfo";
  }

  lemma HighReference(reference: string)
    ensures reference in HIGH_PRIORITY_REFERENCES <==> reference == "(static)" || reference == "(custom)"
  {
    var h := HIGH_PRIORITY_REFERENCES;
    assert |h| == 2 && h[0] == "(static)" && h[1] == "(custom)";
  }

  lemma OperatorReference(reference: string)
    ensures HasAny(reference, CUSTOM_OR_STATIC) <==> Contains(reference, "custom") || Contains(reference, "static")
  {
    hide Contains;
    var c := CUSTOM_OR_STATIC;
    assert |c| == 2 && c[0] == "custom" && c[1] == "static";
  }

  lemma WinsWhen(current: Option<Pair>, v: Pair)
    ensures Wins(current, v) <==> current.None? || Commands(v) || (Ordinary(v) && !Holds(current.value))
  {
    hide HasAny, Contains;
    LowInfo(v.info);
    HighInfo(v.info);
    HighReference(v.reference);
    if current.Some? { HighReference(current.value.reference); }
  }

  lemma KeptNext(values: seq<Pair>, v: Pair, b: nat, w: nat)
    requires Kept(values, b, w)
    ensures var (next, n) := (values + [v], |values|);
      if Commands(v) then Kept(next, n, n)
      else if Ordinary(v) && !Holds(values[w]) then Kept(next, b, n)
      else Kept(next, b, w)
  {
    hide Commands, Yields, Holds;
  }

  /** The entry of a key, and its agreement set, are those the labels merged under it leave. */
  ghost predicate Merged(s: State, k: string, values: seq<Pair>) {
    && (k in s.store.at <==> values != [])
    && (k in s.store.at ==> exists b: nat, w: nat :: w < |values| && Kept(values, b, w) && s.store.at[k] == values[w])
    && (k in s.dups <==> |values| > 1)
    && (k in s.dups ==> s.dups[k] == References(values))
  }

  lemma OtherRow(s: State, row: Row, k: string)
    requires row.key != k
    ensures Get(Apply(s, row), k) == Get(s, k)
    ensures k in Apply(s, row).dups <==> k in s.dups
    ensures k in s.dups ==> Apply(s, row).dups[k] == s.dups[k]
  {
    hide Wins, HasAny;
  }

  lemma MergeRow(s: State, row: Row, values: seq<Pair>)
    requires row.kind == Merge && Merged(s, row.key, values)
    ensures Merged(Apply(s, row), row.key, values + [row.value])
  {
    hide Wins, HasAny, Kept, Commands, Yields, Holds;
    var k, v, next := row.key, row.value, values + [row.value];
    WinsWhen(Get(s, k), v);
    MoreReferences(values, v);
    if values == [] {
      OneKept(v);
      assert next == [v];
    } else {
      var b: nat, w: nat :| w < |values| && Kept(values, b, w) && s.store.at[k] == values[w];
      KeptNext(values, v, b, w);
      assert next[|values|] == v && next[w] == values[w];
      if |values| == 1 { assert values == [values[0]] && References(values) == {values[0].reference}; }
    }
  }

  lemma OneKept(v: Pair)
    ensures Kept([v], 0, 0)
  {
  }

  lemma MoreReferences(values: seq<Pair>, v: Pair)
    ensures References(values + [v]) == References(values) + {v.reference}
  {
    assert forall x :: x in values + [v] <==> x in values || x == v;
  }

  /** After any rows, of which those of this key are merges, its label is the one left of theirs. */
  lemma {:induction false} LabelKept(rows: seq<Numbered>, k: string)
    requires OnlyMerged(rows, k)
    ensures Merged(Fed(rows), k, ValuesOf(rows, k))
  {
    hide Apply, Kept, References;
    if rows != [] {
      var front, x := rows[..|rows| - 1], rows[|rows| - 1];
      LabelKept(front, k);
      var s := Fed(front).(now := x.seqNo);
      if x.row.key == k {
        MergeRow(s, x.row, ValuesOf(front, k));
      } else {
        OtherRow(s, x.row, k);
        assert ValuesOf(front, k) + [] == ValuesOf(front, k);
      }
    }
  }

  /** A set row is always taken over; a remote one unless the trail it is checked as has an operator's reference. */
  lemma OtherKinds(s: State, row: Row)
    requires row.kind != Merge
    ensures var (t, k) := (Apply(s, row), row.key);
      && (row.kind == Set ==> k in t.store.at && t.store.at[k] == row.value)
      && (row.kind == Remote ==>
            var held := row.check in s.store.at && (Contains(s.store.at[row.check].reference, "custom") || Contains(s.store.at[row.check].reference, "static"));
            Get(t, k) == if held then Get(s, k) else Some(row.value))
      && t.dups == s.dups
  {
    hide HasAny, Contains;
    if row.check in s.store.at { OperatorReference(s.store.at[row.check].reference); }
  }

  // ---- confidence

  /** What a trail's confidence is, by its reference and the size of its agreement set. */
  predicate IsConfidence(reference: string, agreeing: nat, score: int) {
    if Contains(reference, "custom") || Contains(reference, "static") then score == 100
    else if agreeing == 0 then score == 40
    else if agreeing == 1 then score == 55
    else if agreeing == 2 then score == 70
    else if agreeing == 3 then score == 85
    else score == 100
  }

  lemma ConfidenceIs(reference: string, agreeing: nat)
    ensures IsConfidence(reference, agreeing, ConfidenceScore(reference, agreeing))
  {
    hide HasAny, Contains;
    OperatorReference(reference);
  }

  /** Of a trail merged under one key: a single listing agrees with none, and more with all references listed, its own among them. */
  lemma AgreementIs(rows: seq<Numbered>, k: string)
    requires OnlyMerged(rows, k) && k in Fed(rows).store.at
    ensures var values := ValuesOf(rows, k);
      IsConfidence(Fed(rows).store.at[k].reference, if |values| > 1 then |References(values)| else 0, ScoreOf(Fed(rows), k).1)
  {
    hide Fed, ValuesOf, Kept, References, IsConfidence, ConfidenceScore;
    var s := Fed(rows);
    LabelKept(rows, k);
    ConfidenceIs(s.store.at[k].reference, if k in s.dups then |s.dups[k]| else 0);
  }

  // ---- the names a visit goes through

  /** Parts with a separator of two characters between them, or of one. */
  function Joined(parts: seq<string>, sep: string): string {
    if parts == [] then "" else if |parts| == 1 then parts[0] else parts[0] + sep + Joined(parts[1..], sep)
  }

  /** `b.replace("//", "/")`: the double slashes met from the left, none inside the parts between. */
  ghost predicate Replaced(b: string, c: string, parts: seq<string>) {
    && parts != [] && b == Joined(parts, "//") && c == Joined(parts, "/")
    && (forall i :: 0 <= i < |parts| - 1 ==> !Contains(parts[i] + "/", "//"))
    && !Contains(parts[|parts| - 1], "//")
  }

  /** `b` up to its first question mark. */
  predicate UpToQuery(b: string, c: string) {
    c <= b && '?' !in c && (c == b || b[|c|] == '?')
  }

  /** The names of a visit: in lower case or by idna, without "www.", without a query, with single slashes, in lower case. */
  datatype Names5 = Names5(lower: string, bare: string, path: string, slim: string, last: string)

  ghost predicate Renamed(n: Names, k: string, m: Names5) {
    && (if IsAscii(k) then |m.lower| == |k| && (forall i :: 0 <= i < |k| ==> m.lower[i] == if 'A' <= k[i] <= 'Z' then k[i] - 'A' + 'a' else k[i])
        else m.lower == match n.idna(k) case None => k case Some(name) => name)
    && (if "www." <= m.lower && '/' !in m.lower then m.lower == "www." + m.bare else m.bare == m.lower)
    && (if '?' in m.bare && m.bare[0] != '/' then UpToQuery(m.bare, m.path) else m.path == m.bare)
    && (exists parts :: Replaced(m.path, m.slim, parts))
    && (if IsAscii(m.slim) then |m.last| == |m.slim| && (forall i :: 0 <= i < |m.slim| ==> m.last[i] == if 'A' <= m.slim[i] <= 'Z' then m.slim[i] - 'A' + 'a' else m.slim[i])
        else m.last == n.unicodeLower(m.slim))
  }

  lemma {:induction false} HalveParts(s: string) returns (parts: seq<string>)
    ensures Replaced(s, Halve(s), parts)
  {
    if s == "" {
      parts := [""];
    } else if s[0] == '/' && |s| > 1 && s[1] == '/' {
      var rest := HalveParts(s[2..]);
      parts := [""] + rest;
      assert parts[1..] == rest;
      assert s == "" + "//" + s[2..];
    } else {
      var rest := HalveParts(s[1..]);
      parts := [[s[0]] + rest[0]] + rest[1..];
      assert parts[1..] == rest[1..];
      FirstPart(s, rest);
    }
  }

  lemma FirstPart(s: string, rest: seq<string>)
    requires s != "" && !(s[0] == '/' && |s| > 1 && s[1] == '/') && Replaced(s[1..], Halve(s[1..]), rest)
    ensures Replaced(s, Halve(s), [[s[0]] + rest[0]] + rest[1..])
  {
    hide Contains, Joined, Halve;
    var c, parts := s[0], [[s[0]] + rest[0]] + rest[1..];
    JoinedCons(c, rest, "//");
    JoinedCons(c, rest, "/");
    HalveOne(s);
    assert s == [c] + s[1..];
    if |rest| == 1 {
      JoinedOne(rest, "//");
      DoubleSlash(c, rest[0]);
    } else {
      DoubleSlash(c, rest[0] + "/");
      assert [c] + (rest[0] + "/") == parts[0] + "/";
      JoinedStarts(rest);
      forall i | 0 < i < |parts| ensures parts[i] == rest[i] { }
    }
  }

  lemma HalveOne(s: string)
    requires s != "" && !(s[0] == '/' && |s| > 1 && s[1] == '/')
    ensures Halve(s) == [s[0]] + Halve(s[1..])
  {
  }

  lemma JoinedOne(parts: seq<string>, sep: string)
    requires |parts| == 1
    ensures Joined(parts, sep) == parts[0]
  {
  }

  lemma JoinedCons(c: char, parts: seq<string>, sep: string)
    requires parts != []
    ensures Joined([[c] + parts[0]] + parts[1..], sep) == [c] + Joined(parts, sep)
  {
    var more := [[c] + parts[0]] + parts[1..];
    assert more[1..] == parts[1..];
    if |parts| > 1 { assert [c] + parts[0] + sep + Joined(parts[1..], sep) == [c] + (parts[0] + sep + Joined(parts[1..], sep)); }
  }

  lemma JoinedStarts(parts: seq<string>)
    requires |parts| > 1
    ensures Joined(parts, "//") != "" && (parts[0] + "/")[0] == Joined(parts, "//")[0]
  {
  }

  lemma DoubleSlash(c: char, t: string)
    ensures Contains([c] + t, "//") <==> Contains(t, "//") || (c == '/' && t != "" && t[0] == '/')
  {
    var s := [c] + t;
    if Contains(t, "//") {
      var i :| 0 <= i <= |t| && Occurs(t, "//", i);
      assert s[i + 1..] == t[i..] && Occurs(s, "//", i + 1);
    }
    if c == '/' && t != "" && t[0] == '/' { assert s[0..] == s && s[..2] == "//" && s == "//" + s[2..] && Occurs(s, "//", 0); }
    if Contains(s, "//") {
      var i :| 0 <= i <= |s| && Occurs(s, "//", i);
      assert s[i..][0] == '/' && s[i..][1] == '/';
      if i > 0 { assert t[i - 1..] == s[i..] && Occurs(t, "//", i - 1); }
    }
  }

  lemma {:induction false} CutIs(s: string)
    ensures UpToQuery(s, Cut(s))
  {
    if s != "" && s[0] != '?' {
      CutIs(s[1..]);
      assert s == [s[0]] + s[1..];
    }
  }

  /** The names the rules go through, one from the other. */
  function NamesOf(n: Names, k: string): Names5 {
    var l := NormalKey(n, k);
    var a := WwwKey(l);
    var b := QueryKey(a);
    var c := SlashesKey(b);
    Names5(l, a, b, c, Lower(n, c))
  }

  lemma NamesAre(n: Names, k: string)
    ensures Renamed(n, k, NamesOf(n, k))
  {
    hide Contains, Halve, Cut, Replaced;
    var m := NamesOf(n, k);
    CutIs(m.bare);
    var parts := HalveParts(m.path);
    if !Contains(m.path, "//") { assert Replaced(m.path, m.path, [m.path]) by { OnePart(m.path); } }
    if WWW <= m.lower { assert m.lower == WWW + m.lower[4..]; }
  }

  lemma OnePart(s: string)
    requires !Contains(s, "//")
    ensures Replaced(s, s, [s])
  {
    hide Contains;
  }

  // ---- what a visit of the cleanup leaves

  /** The entries but the gone ones, and the visited trail under its present name; the empty name aside. */
  ghost predicate Stands(at: map<string, Pair>, t: State, key: string, value: Pair, gone: set<string>) {
    forall x :: x != "" ==>
      && (x in t.store.at <==> x == key || (x in at && x !in gone))
      && (x in t.store.at ==> t.store.at[x] == if x == key then value else at[x])
  }

  lemma ThenStands(at: map<string, Pair>, s: State, w: Walk, op: Op, gone: set<string>)
    requires Stands(at, DoAll(s, w.ops), w.key, w.value, gone)
    ensures op.Drop? ==> Stands(at, DoAll(s, w.ops + [op]), w.key, w.value, gone)
    ensures op.Put? && op.key == w.key ==> Stands(at, DoAll(s, w.ops + [op]), w.key, op.value, gone)
    ensures op == Del(w.key) ==> Stands(at, DoAll(s, w.ops + [op]), "", w.value, gone + {w.key})
  {
    DoMore(s, w.ops, op);
  }

  lemma PutThenDel(at: map<string, Pair>, t: State, key: string, value: Pair, gone: set<string>, k: string)
    requires Stands(at, t, key, value, gone) && k != key
    ensures Stands(at, Do(Do(t, Op.Put(k, value)), Del(key)), k, value, gone + {key})
  {
  }

  lemma DelThenPut(at: map<string, Pair>, t: State, key: string, value: Pair, gone: set<string>, k: string)
    requires Stands(at, t, key, value, gone) && k != key
    ensures Stands(at, Do(Do(t, Del(key)), Op.Put(k, value)), k, value, gone + {key})
    ensures Stands(at, Do(t, Del(key)), "", value, gone + {key})
  {
  }

  lemma MoveStands(at: map<string, Pair>, s: State, w: Walk, k: string, gone: set<string>)
    requires Stands(at, DoAll(s, w.ops), w.key, w.value, gone) && k != w.key
    ensures Stands(at, DoAll(s, w.RenameTo(k).ops), k, w.value, gone + {w.key})
    ensures Stands(at, DoAll(s, w.MoveTo(k).ops), k, w.value, gone + {w.key})
    ensures Stands(at, DoAll(s, w.ops + [Del(w.key), Op.Put(k, w.value)]), k, w.value, gone + {w.key})
  {
    hide DoAll, Do, Stands;
    DoMore(s, w.ops, Del(w.key));
    DoTwoMore(s, w.ops, Del(w.key), Op.Put(k, w.value));
    DoTwoMore(s, w.ops, Op.Put(k, w.value), Del(w.key));
    PutThenDel(at, DoAll(s, w.ops), w.key, w.value, gone, k);
    DelThenPut(at, DoAll(s, w.ops), w.key, w.value, gone, k);
  }

  /** A name that is given up for another one. */
  function Left(from: string, to: string): set<string> { if from == to then {} else {from} }

  function Gone(k: string, m: Names5): set<string> {
    Left(k, m.lower) + Left(m.lower, m.bare) + Left(m.bare, m.path) + Left(m.path, m.slim) + Left(m.slim, m.last)
  }

  /** What has been done so far stands, and so do the agreement sets. */
  ghost predicate Holding(at: map<string, Pair>, s: State, w: Walk, gone: set<string>) {
    Stands(at, DoAll(s, w.ops), w.key, w.value, gone) && DoAll(s, w.ops).dups == w.dups
  }

  lemma MoveDups(s: State, w: Walk, k: string)
    ensures DoAll(s, w.RenameTo(k).ops).dups == DoAll(s, w.MoveTo(k).ops).dups == DoAll(s, w.ops).dups
    ensures DoAll(s, w.ops + [Del(w.key), Op.Put(k, w.value)]).dups == DoAll(s, w.ops).dups
  {
    hide DoAll;
    DoMore(s, w.ops, Del(w.key));
    DoTwoMore(s, w.ops, Del(w.key), Op.Put(k, w.value));
    DoTwoMore(s, w.ops, Op.Put(k, w.value), Del(w.key));
  }

  /** Moving from one name to another keeps all that. */
  ghost predicate Moves(at: map<string, Pair>, s: State, w: Walk, w': Walk, k: string, gone: set<string>) {
    && Holding(at, s, w', gone + Left(w.key, k)) && w'.key == k && w'.value == w.value && w'.dups == w.dups && !w'.done
  }

  lemma MoveHolds(at: map<string, Pair>, s: State, w: Walk, k: string, gone: set<string>)
    requires Holding(at, s, w, gone) && !w.done
    ensures k != w.key ==> Moves(at, s, w, w.RenameTo(k), k, gone) && Moves(at, s, w, w.MoveTo(k), k, gone)
    ensures k != w.key ==> Moves(at, s, w, w.(ops := w.ops + [Del(w.key), Op.Put(k, w.value)], key := k), k, gone)
    ensures k == w.key ==> Moves(at, s, w, w, k, gone)
  {
    hide Stands, DoAll;
    assert gone + {} == gone;
    if k != w.key {
      MoveStands(at, s, w, k, gone);
      MoveDups(s, w, k);
    }
  }

  lemma NormalizeHolds(r: Rules, at: map<string, Pair>, s: State, w: Walk, gone: set<string>)
    requires Holding(at, s, w, gone) && !w.done
    ensures Moves(at, s, w, Normalize(r, w), NormalKey(r.names, w.key), gone)
  {
    hide Moves, Holding, IsAscii;
    MoveHolds(at, s, w, NormalKey(r.names, w.key), gone);
  }

  lemma WwwHolds(at: map<string, Pair>, s: State, w: Walk, gone: set<string>)
    requires Holding(at, s, w, gone) && !w.done
    ensures Moves(at, s, w, Www(w), WwwKey(w.key), gone)
  {
    hide Moves, Holding;
    MoveHolds(at, s, w, WwwKey(w.key), gone);
  }

  lemma QueryHolds(at: map<string, Pair>, s: State, w: Walk, gone: set<string>)
    requires Holding(at, s, w, gone) && !w.done
    ensures Moves(at, s, w, Query(w), QueryKey(w.key), gone)
  {
    hide Moves, Holding, Cut;
    MoveHolds(at, s, w, QueryKey(w.key), gone);
    CutHasNoQuery(w.key);
  }

  lemma SlashesHolds(at: map<string, Pair>, s: State, w: Walk, gone: set<string>)
    requires Holding(at, s, w, gone) && !w.done
    ensures Moves(at, s, w, Slashes(w), SlashesKey(w.key), gone)
  {
    hide Moves, Holding, Halve, Contains;
    MoveHolds(at, s, w, SlashesKey(w.key), gone);
    TrailBuild.HalveShortens(w.key);
  }

  lemma RecaseHolds(r: Rules, at: map<string, Pair>, s: State, w: Walk, gone: set<string>)
    requires Holding(at, s, w, gone) && !w.done
    ensures Moves(at, s, w, Recase(r, w), Lower(r.names, w.key), gone)
  {
    hide Moves, Holding, Lower;
    MoveHolds(at, s, w, Lower(r.names, w.key), gone);
  }

  /** The five names of a walk that is not stopped. */
  lemma RenamesHold(r: Rules, at: map<string, Pair>, s: State, w: Walk, gone: set<string>)
    requires Holding(at, s, w, gone) && !w.done
    ensures var w' := Recase(r, Slashes(Query(Www(w)))); var (a, b) := (WwwKey(w.key), QueryKey(WwwKey(w.key)));
      var c := SlashesKey(b); var d := Lower(r.names, c);
      && Holding(at, s, w', gone + Left(w.key, a) + Left(a, b) + Left(b, c) + Left(c, d))
      && w'.key == d && w'.value == w.value && w'.dups == w.dups && !w'.done
  {
    hide Holding, Www, Query, Slashes, Recase, WwwKey, QueryKey, SlashesKey, Lower, Left;
    WwwHolds(at, s, w, gone);
    var w1 := Www(w);
    var g1 := gone + Left(w.key, w1.key);
    QueryHolds(at, s, w1, g1);
    var w2 := Query(w1);
    var g2 := g1 + Left(w1.key, w2.key);
    SlashesHolds(at, s, w2, g2);
    RecaseHolds(r, at, s, Slashes(w2), g2 + Left(w2.key, Slashes(w2).key));
  }

  // ---- the label a visit leaves

  predicate Sunk(info: string) { Contains(info, "parking site") || Contains(info, "sinkhole") }

  /** Whether a visit deletes its trail, by the name in lower case. */
  predicate Drops(r: Rules, dups: map<string, set<string>>, l: string, v: Pair) {
    || r.disabled(v.info) || l == ""
    || (r.alphaOnly(l) && !Contains(v.reference, "custom") && !Contains(v.reference, "static"))
    || (r.dottedQuad(l)
        && (|| r.octetAbove255(l)
            || (r.ipMinimumFeeds > 1 && !r.customStatic(v.reference) && (Sunk(v.info) || l !in dups || |dups[l]| < r.ipMinimumFeeds))))
  }

  /** Whether it gets as far as the rules for addresses, and forgets who agreed on a sinkhole. */
  predicate Forgets(r: Rules, l: string, v: Pair) {
    && !r.disabled(v.info) && l != "" && r.dottedQuad(l) && Sunk(v.info)
    && !(r.alphaOnly(l) && !Contains(v.reference, "custom") && !Contains(v.reference, "static"))
  }

  function NewInfo(r: Rules, l: string, info: string): string {
    if r.dottedQuad(l) && info == "malware" then "potential malware site"
    else if info == "ransomware" then "ransomware (malware)"
    else info
  }

  /** The other feeds that agree are named once, in the reference. */
  function NewReference(r: Rules, dups: map<string, set<string>>, d: string, reference: string): string {
    if d in dups && (exists x :: x in dups[d] && x != reference) && !Contains(reference, " (+")
    then reference + " (+" + r.joined(dups[d] - {reference}) + ")"
    else reference
  }

  lemma SunkIs(info: string)
    ensures HasAny(info, ["parking site", "sinkhole"]) <==> Sunk(info)
  {
    hide Contains;
    var l := ["parking site", "sinkhole"];
    assert l[0] == "parking site" && l[1] == "sinkhole";
  }

  lemma RelabelHolds(at: map<string, Pair>, s: State, w: Walk, info: string, better: string, gone: set<string>)
    requires Holding(at, s, w, gone) && !w.done
    ensures var w' := Relabel(w, info, better);
      && Holding(at, s, w', gone) && w'.key == w.key && w'.dups == w.dups && !w'.done
      && w'.value == Pair(if w.value.info == info then better else w.value.info, w.value.reference)
  {
    hide DoAll, Stands;
    var op := Op.Put(w.key, Pair(better, w.value.reference));
    ThenStands(at, s, w, op, gone);
    DoMore(s, w.ops, op);
  }

  lemma SinkholeHolds(at: map<string, Pair>, s: State, w: Walk, gone: set<string>)
    requires Holding(at, s, w, gone) && !w.done
    ensures var w' := Sinkhole(w);
      && Holding(at, s, w', gone) && w'.key == w.key && w'.value == w.value && !w'.done
      && w'.dups == if Sunk(w.value.info) then w.dups - {w.key} else w.dups
  {
    hide DoAll, Stands, HasAny, Sunk;
    SunkIs(w.value.info);
    ThenStands(at, s, w, Drop(w.key), gone);
    DoMore(s, w.ops, Drop(w.key));
    assert w.key !in w.dups ==> w.dups - {w.key} == w.dups;
  }

  lemma StopHolds(at: map<string, Pair>, s: State, w: Walk, gone: set<string>)
    requires Holding(at, s, w, gone)
    ensures Stands(at, DoAll(s, w.Stop().ops), "", w.value, gone + {w.key}) && DoAll(s, w.Stop().ops).dups == w.dups
  {
    hide DoAll, Stands;
    ThenStands(at, s, w, Del(w.key), gone);
    DoMore(s, w.ops, Del(w.key));
  }

  lemma CreditHolds(r: Rules, at: map<string, Pair>, s: State, w: Walk, gone: set<string>)
    requires Holding(at, s, w, gone) && !w.done
    ensures var w' := Credit(r, w);
      && Stands(at, DoAll(s, w'.ops), w.key, Pair(w.value.info, NewReference(r, w.dups, w.key, w.value.reference)), gone)
      && DoAll(s, w'.ops).dups == w.dups
  {
    hide DoAll, Stands, Contains;
    var v := Pair(w.value.info, NewReference(r, w.dups, w.key, w.value.reference));
    var op := Op.Put(w.key, v);
    ThenStands(at, s, w, op, gone);
    DoMore(s, w.ops, op);
    if w.key in w.dups {
      var others := w.dups[w.key] - {w.value.reference};
      if others != {} {
        var x :| x in others;
        assert x in w.dups[w.key] && x != w.value.reference;
      } else {
        forall x | x in w.dups[w.key] ensures x == w.value.reference { assert x !in others; }
      }
    }
  }

  /** The rules for addresses, and the label they leave. */
  lemma AddressHolds(r: Rules, at: map<string, Pair>, s: State, w: Walk, gone: set<string>)
    requires Holding(at, s, w, gone) && !w.done && r.dottedQuad(w.key)
    ensures var w' := Address(r, w); var dups := if Sunk(w.value.info) then w.dups - {w.key} else w.dups;
      && w'.done == (r.octetAbove255(w.key)
           || (r.ipMinimumFeeds > 1 && !r.customStatic(w.value.reference) && (Sunk(w.value.info) || w.key !in w.dups || |w.dups[w.key]| < r.ipMinimumFeeds)))
      && (w'.done ==> Stands(at, DoAll(s, w'.ops), "", w'.value, gone + {w.key}) && DoAll(s, w'.ops).dups == dups)
      && (!w'.done ==>
            Holding(at, s, w', gone) && w'.key == w.key && w'.dups == dups
            && w'.value == Pair(if w.value.info == "malware" then "potential malware site" else w.value.info, w.value.reference))
  {
    hide DoAll, Stands, Sinkhole, Relabel, Sunk, Holding;
    SinkholeHolds(at, s, w, gone);
    var w1 := Sinkhole(w);
    RelabelHolds(at, s, w1, "malware", "potential malware site", gone);
    var w2 := Relabel(w1, "malware", "potential malware site");
    StopHolds(at, s, w2, gone);
  }

  /** What is left of a trail with value v in the state t, when `m` are its names and `dups` was agreed on before. */
  ghost predicate Leaves(r: Rules, at: map<string, Pair>, dups: map<string, set<string>>, t: State, k: string, v: Pair, m: Names5) {
    && t.dups == (if Forgets(r, m.lower, v) then dups - {m.lower} else dups)
    && (if r.disabled(v.info) then Stands(at, t, "", v, {k})
        else if Drops(r, dups, m.lower, v) then Stands(at, t, "", v, Left(k, m.lower) + {m.lower})
        else Stands(at, t, m.last, Pair(NewInfo(r, m.lower, v.info), NewReference(r, t.dups, m.last, v.reference)), Gone(k, m)))
  }

  /** A visit of the cleanup: which names go, under which name the trail stands, and with which label. */
  lemma CleanupLeaves(r: Rules, s: State, k: string) returns (m: Names5)
    requires k in s.store.at
    ensures Renamed(r.names, k, m)
    ensures Leaves(r, s.store.at, s.dups, Visit(r, Cleanup, s, k), k, s.store.at[k], m)
  {
    hide Renamed, NamesOf, Clean, Leaves;
    m := NamesOf(r.names, k);
    NamesAre(r.names, k);
    StartHolds(s, k);
    CleanLeaves(r, s.store.at, Start(s, Cleanup, k), Walk([], k, s.store.at[k], s.dups, false));
  }

  lemma StartHolds(s: State, k: string)
    requires k in s.store.at
    ensures Holding(s.store.at, Start(s, Cleanup, k), Walk([], k, s.store.at[k], s.dups, false), {})
  {
  }

  lemma CleanLeaves(r: Rules, at: map<string, Pair>, s: State, w: Walk)
    requires Holding(at, s, w, {}) && w.ops == [] && !w.done
    ensures Leaves(r, at, w.dups, DoAll(s, Clean(r, w).ops), w.key, w.value, NamesOf(r.names, w.key))
  {
    hide DoAll, Stands, Holding, Normalize, Address, Relabel, Credit, Recase, Slashes, Query, Www, Sunk, Contains, HasAny;
    var k, v, l := w.key, w.value, NormalKey(r.names, w.key);
    assert {} + {k} == {k} && {} + Left(k, l) == Left(k, l);
    if r.disabled(v.info) {
      StopHolds(at, s, w, {});
      return;
    }
    var w1, g1 := Normalize(r, w), Left(k, l);
    NormalizeHolds(r, at, s, w, {});
    OperatorReference(v.reference);
    if Junk(r, w1) {
      StopHolds(at, s, w1, g1);
    } else {
      NamedLeaves(r, at, s, w1, k);
      AfterIs(r, w, w1);
    }
  }

  function After(r: Rules, w: Walk): Walk {
    var w := Address(r, w);
    if w.done then w else Credit(r, Recase(r, Slashes(Query(Www(Relabel(w, "ransomware", "ransomware (malware)"))))))
  }

  lemma AfterIs(r: Rules, w: Walk, w1: Walk)
    requires !r.disabled(w.value.info) && w1 == Normalize(r, w) && !Junk(r, w1)
    ensures Clean(r, w) == After(r, w1)
  {
  }

  /** The visit of a trail that is neither disabled nor junk, from its name in lower case on. */
  lemma NamedLeaves(r: Rules, at: map<string, Pair>, s: State, w: Walk, k: string)
    requires w.key == NormalKey(r.names, k) && Holding(at, s, w, Left(k, w.key)) && !w.done && w.key != "" && !r.disabled(w.value.info)
    requires !(r.alphaOnly(w.key) && !Contains(w.value.reference, "custom") && !Contains(w.value.reference, "static"))
    ensures Leaves(r, at, w.dups, DoAll(s, After(r, w).ops), k, w.value, NamesOf(r.names, k))
  {
    hide DoAll, Stands, Holding, Address, Relabel, Credit, Recase, Slashes, Query, Www, NewReference, Sunk, Contains, NamesOf;
    var v, g, w2 := w.value, Left(k, w.key), Address(r, w);
    LowerName(r.names, k);
    if r.dottedQuad(w.key) {
      AddressHolds(r, at, s, w, g);
      if w2.done { NothingStands(at, DoAll(s, w2.ops), w2.value, v, g + {w.key}); }
    } else {
      NoAddress(r, w);
    }
    if !w2.done { KeptLeaves(r, at, s, w2, k); }
  }

  lemma LowerName(n: Names, k: string)
    ensures NamesOf(n, k).lower == NormalKey(n, k)
  {
  }

  lemma KeptLeaves(r: Rules, at: map<string, Pair>, s: State, w: Walk, k: string)
    requires w.key == NormalKey(r.names, k) && Holding(at, s, w, Left(k, w.key)) && !w.done
    ensures var w' := Credit(r, Recase(r, Slashes(Query(Www(Relabel(w, "ransomware", "ransomware (malware)"))))));
      var (m, t) := (NamesOf(r.names, k), DoAll(s, w'.ops));
      && Stands(at, t, m.last, Pair(if w.value.info == "ransomware" then "ransomware (malware)" else w.value.info,
                                    NewReference(r, t.dups, m.last, w.value.reference)), Gone(k, m))
      && t.dups == w.dups
  {
    hide DoAll, Stands, Holding, Relabel, Credit, Recase, Slashes, Query, Www, NewReference;
    var w1 := Relabel(w, "ransomware", "ransomware (malware)");
    RelabelHolds(at, s, w, "ransomware", "ransomware (malware)", Left(k, w.key));
    RenamesHold(r, at, s, w1, Left(k, w.key));
    CreditHolds(r, at, s, Recase(r, Slashes(Query(Www(w1)))), Gone(k, NamesOf(r.names, k)));
  }

  lemma NothingStands(at: map<string, Pair>, t: State, value: Pair, other: Pair, gone: set<string>)
    requires Stands(at, t, "", value, gone)
    ensures Stands(at, t, "", other, gone)
  {
  }

  lemma NoAddress(r: Rules, w: Walk)
    requires !r.dottedQuad(w.key)
    ensures Address(r, w) == w
  {
  }

  // ---- what the whitelist pass leaves

  /** A trail is dropped by a whitelist, by its first characters, by its address, or as a text that cannot be written. */
  predicate Unlisted(r: Rules, k: string, v: Pair) {
    || r.whitelisted(k) || "127." <= k || "192.168." <= k || "localhost" <= k
    || (r.leadingIpv4(k).Some? && r.bogonOrCdn(r.leadingIpv4(k).value) && !Contains(v.info, "parking") && !Contains(v.info, "sinkhole"))
    || !r.encodable(k) || !r.encodable(v.info) || !r.encodable(v.reference)
  }

  lemma SweepLeaves(r: Rules, s: State, k: string)
    requires k in s.store.at
    ensures var t := Visit(r, Whitelist, s, k);
      && t.store.at == (if Unlisted(r, k, s.store.at[k]) then s.store.at - {k} else s.store.at)
      && t.dups == s.dups
  {
    hide Contains, DoAll;
    UnwantedIs(r, k, s.store.at[k]);
    DoNothing(s);
    DoMore(s, [], Del(k));
    assert [] + [Del(k)] == [Del(k)];
  }

  lemma DoNothing(s: State)
    ensures DoAll(s, []) == s
  {
  }

  lemma UnwantedIs(r: Rules, k: string, v: Pair)
    ensures Unwanted(r, k, v) <==> Unlisted(r, k, v)
  {
    hide Contains;
    var p, l := BAD_TRAIL_PREFIXES, ["parking", "sinkhole"];
    assert |p| == 3 && p[0] == "127." && p[1] == "192.168." && p[2] == "localhost";
    assert l[0] == "parking" && l[1] == "sinkhole";
  }

  // ---- the key of a source row

  /** A source's name is made canonical if it holds a colon, and then loses one leading "www." unless it holds a slash. */
  lemma SourceKeyIs(e: TrailBuild.Env, name: string)
    ensures var (k, c) := (TrailBuild.SourceKey(e, name), if ':' in name then e.canonical(name) else name);
      if "www." <= c && '/' !in c then c == "www." + k else k == c
  {
  }

  /** A source's rows are merges, one an item, in order. */
  lemma {:induction false} SourceRowsAre(e: TrailBuild.Env, items: seq<(string, Pair)>)
    ensures var rows := TrailBuild.MergeRows(e, items);
      && |rows| == |items|
      && forall i :: 0 <= i < |rows| ==> rows[i].kind == Merge && rows[i].key == TrailBuild.SourceKey(e, items[i].0) && rows[i].value == items[i].1
  {
    if items != [] { SourceRowsAre(e, items[..|items| - 1]); }
  }

  // ---- the row of a trail

  /** The trail and its label, behind its stamp. */
  lemma RowIs(s: State, k: string)
    requires k in s.store.at && k in s.stamps && s.stamps[k] < 0x1_0000_0000_0000_0000
    ensures RowOf(s, k).trail == k && RowOf(s, k).value == s.store.at[k] && SixteenHex(RowOf(s, k).order, s.stamps[k])
  {
    hide Hex.Padded, Hex.Fixed;
    OrderIs(s.stamps[k]);
  }

  /** Sixteen hexadecimal digits, the highest first. */
  ghost predicate SixteenHex(order: string, stamp: nat) {
    |order| == 16 && forall i :: 0 <= i < 16 ==> HexAt(order[i], stamp, 15 - i)
  }

  predicate HexAt(c: char, stamp: nat, place: nat) {
    Hex.Pow16(place) > 0 && c == "0123456789abcdef"[stamp / Hex.Pow16(place) % 16]
  }

  lemma OrderIs(stamp: nat)
    requires stamp < 0x1_0000_0000_0000_0000
    ensures SixteenHex(OrderText(stamp), stamp)
  {
    Hex.Pow16Of16();
    Hex.PaddedIsFixed(stamp, 16);
    HexOf(stamp, Hex.Fixed(stamp, 16));
  }

  lemma HexOf(stamp: nat, order: string)
    requires order == Hex.Fixed(stamp, 16)
    ensures SixteenHex(order, stamp)
  {
    hide Hex.Fixed, Hex.Pow16;
    forall i: nat | i < 16 ensures HexAt(order[i], stamp, 15 - i) { Hex.FixedAt(stamp, 16, i); }
  }
}
