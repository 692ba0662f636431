/** An input on which the streaming build writes its rows in another order than the one-dict build. */
module BuildsDiffer {
  import opened Text
  import opened TrailGroup
  import opened TrailShard
  import opened TrailLocality
  import opened TrailMerge
  import opened TrailOrder
  import opened TrailBuild
  import opened TrailParts
  import opened BuildsAgree
  import Hex
  import Sorting

  /** `(?i)\A\.?[a-z]+\Z` */
  predicate AlphaOnly(key: string) {
    AllLetters(if key != "" && key[0] == '.' then key[1..] else key)
  }

  predicate AllLetters(s: string) {
    s != "" && forall i :: 0 <= i < |s| ==> 'a' <= s[i] <= 'z' || 'A' <= s[i] <= 'Z'
  }

  /** No info regex, no feed minimum, nothing whitelisted, no addresses. */
  const PLAIN := Rules(Names(k => k, k => None), info => false, AlphaOnly, k => false, k => false, 0, reference => false,
                       others => "", k => false, k => None, k => false, text => true)

  function Source(key: string, reference: string): Row { Row(Merge, key, Pair("malware", reference), "") }

  // ---- facts about short strings

  lemma TooShort(s: string, needle: string)
    requires |s| < |needle|
    ensures !Contains(s, needle)
  {
  }

  lemma NoNeedle(s: string, needle: string)
    requires needle != "" && needle[0] !in s
    ensures !Contains(s, needle)
  {
    assert forall i :: 0 <= i < |s| ==> s[i..][0] == s[i] && s[i] in s;
  }

  lemma Dotted(k: string, i: nat)
    requires 0 < i < |k| && k[0] != '.' && k[i] == '.'
    ensures !AlphaOnly(k)
  {
    assert !AllLetters(k);
  }

  lemma FeedReference()
    ensures !HasAny("feed", CUSTOM_OR_STATIC)
  {
    TooShort("feed", "custom");
    TooShort("feed", "static");
  }

  /** A name the rename rules leave alone, apart from a leading "www.". */
  predicate Bare(k: string) {
    IsAscii(k) && k != "" && '?' !in k && '/' !in k && LowerAscii(k) == k
  }

  /** A visit of a name, in lower case `l`, that is neither junk nor an address, and has no query and no path. */
  lemma VisitPlain(s: State, k: string, l: string, v: Pair)
    requires k in s.store.at && s.store.at[k] == v && k in s.stamps && s.dups == map[]
    requires v.info != "ransomware" && (AlphaOnly(l) ==> HasAny(v.reference, CUSTOM_OR_STATIC))
    requires IsAscii(k) && l == LowerAscii(k) && Bare(l) && (WWW <= l ==> Bare(l[4..]))
    ensures Ops(PLAIN, Cleanup, s, k) ==
      (if l != k then [Op.Put(l, v), Del(k)] else []) + (if WWW <= l then [Del(l), Op.Put(l[4..], v)] else [])
  {
    var w := Walk([], k, v, s.dups, false);
    var w1 := Normalize(PLAIN, w);
    assert w1.key == l;
    assert !Junk(PLAIN, w1);
    assert Address(PLAIN, w1) == w1;
    assert Relabel(w1, "ransomware", "ransomware (malware)") == w1;
    var w2 := Www(w1);
    assert Query(w2) == w2;
    NoNeedle(w2.key, "//");
    assert Slashes(w2) == w2;
    assert Recase(PLAIN, w2) == w2;
    assert Credit(PLAIN, w2) == w2;
  }

  /** A visit of a letters-only name of a feed deletes it. */
  lemma VisitJunk(s: State, k: string)
    requires k in s.store.at && s.store.at[k] == FEED && k in s.stamps
    requires IsAscii(k) && AlphaOnly(k) && LowerAscii(k) == k
    ensures Ops(PLAIN, Cleanup, s, k) == [Del(k)]
  {
    var w := Walk([], k, FEED, s.dups, false);
    FeedReference();
    assert Junk(PLAIN, Normalize(PLAIN, w));
  }

  lemma DoTwo(s: State, a: Op, b: Op)
    ensures DoAll(s, [a, b]) == Do(Do(s, a), b)
  {
    DoMore(s, [], a);
    assert [] + [a] == [a];
    DoMore(s, [a], b);
    assert [a] + [b] == [a, b];
  }

  lemma DoThree(s: State, a: Op, b: Op, c: Op)
    ensures DoAll(s, [a, b, c]) == Do(Do(Do(s, a), b), c)
  {
    assert [a, b, c][..2] == [a, b];
    DoTwo(s, a, b);
  }

  lemma DoFour(s: State, a: Op, b: Op, c: Op, d: Op)
    ensures DoAll(s, [a, b, c, d]) == Do(Do(Do(Do(s, a), b), c), d)
  {
    assert [a, b, c, d][..3] == [a, b, c];
    DoThree(s, a, b, c);
  }

  // ---- another order

  /** The keys of five rows of one feed, in this order, and what the last one becomes. */
  datatype Five = Five(upper: string, x: string, wwww: string, www: string, other: string, lower: string)

  const NAMES := Five("WWW.x", "x", "www.www.x", "www.x", "C.d", "c.d")

  ghost predicate Fit(f: Five) {
    && IsAscii(f.upper) && LowerAscii(f.upper) == f.www && IsAscii(f.other) && LowerAscii(f.other) == f.lower
    && Bare(f.wwww) && Bare(f.www) && Bare(f.x) && Bare(f.lower)
    && WWW <= f.wwww && f.wwww[4..] == f.www && WWW <= f.www && f.www[4..] == f.x && !(WWW <= f.lower)
    && !AlphaOnly(f.wwww) && !AlphaOnly(f.www) && !AlphaOnly(f.lower) && AlphaOnly(f.x)
    && Apart([f.upper, f.x, f.wwww, f.www, f.other]) && f.lower !in [f.upper, f.x, f.wwww, f.www, f.other]
  }

  ghost predicate Apart(s: seq<string>) { forall i, j :: 0 <= i < j < |s| ==> s[i] != s[j] }

  lemma NamesFit()
    ensures Fit(NAMES)
  {
    LowerNames();
    BareNames();
    ApartNames();
  }

  lemma LowerNames()
    ensures var f := NAMES; IsAscii(f.upper) && LowerAscii(f.upper) == f.www && IsAscii(f.other) && LowerAscii(f.other) == f.lower
  {
  }

  lemma BareNames()
    ensures var f := NAMES; Bare(f.wwww) && Bare(f.www) && Bare(f.x) && Bare(f.lower)
    ensures var f := NAMES; WWW <= f.wwww && f.wwww[4..] == f.www && WWW <= f.www && f.www[4..] == f.x && !(WWW <= f.lower)
    ensures var f := NAMES; !AlphaOnly(f.wwww) && !AlphaOnly(f.www) && !AlphaOnly(f.lower) && AlphaOnly(f.x)
  {
    hide Bare, AlphaOnly;
    var f := NAMES;
    Dotted(f.wwww, 3);
    Dotted(f.www, 3);
    Dotted(f.lower, 1);
    SmallNames(f);
    SmallBare(f.wwww);
    SmallBare(f.www);
    SmallBare(f.lower);
    SmallBare(f.x);
    LettersOnly(f.x);
  }

  predicate Small(k: string) { k != "" && forall i :: 0 <= i < |k| ==> k[i] == '.' || 'a' <= k[i] <= 'z' }

  lemma SmallBare(k: string)
    requires Small(k)
    ensures Bare(k)
  {
    assert LowerAscii(k) == k;
  }

  lemma SmallNames(f: Five)
    requires f == NAMES
    ensures Small(f.wwww) && Small(f.www) && Small(f.x) && Small(f.lower)
  {
  }

  lemma LettersOnly(k: string)
    requires k == "x"
    ensures AlphaOnly(k)
  {
  }

  lemma ApartNames()
    ensures var f := NAMES; Apart([f.upper, f.x, f.wwww, f.www, f.other]) && f.lower !in [f.upper, f.x, f.wwww, f.www, f.other]
  {
    var f := NAMES;
    assert |f.upper| == 5 && |f.x| == 1 && |f.wwww| == 9 && |f.www| == 5 && |f.other| == 3 && |f.lower| == 3;
    assert f.upper[0] == 'W' && f.www[0] == 'w' && f.other[0] == 'C' && f.lower[0] == 'c';
  }

  const FEED := Pair("malware", "feed")

  function Keys(f: Five): seq<string> { [f.upper, f.x, f.wwww, f.www, f.other] }

  function Sources(keys: seq<string>): seq<Row> {
    seq(|keys|, i requires 0 <= i < |keys| => Source(keys[i], "feed"))
  }

  function Reordered(f: Five): seq<Row> { Sources(Keys(f)) }

  /** Keys stamped by their places. */
  function Places(keys: seq<string>): map<string, nat> {
    if keys == [] then map[] else Places(keys[..|keys| - 1])[keys[|keys| - 1] := |keys| - 1]
  }

  function Fill(stamps: map<string, nat>): map<string, Pair> { map k | k in stamps :: FEED }

  /** A state given by its keys and stamps, all with the same value. */
  function St(order: seq<string>, stamps: map<string, nat>, now: nat): State {
    State(Dict(order, Fill(stamps)), stamps, map[], now)
  }

  lemma FedOne(rows: seq<Numbered>, order: seq<string>, stamps: map<string, nat>, k: string, n: nat)
    requires Same(Fed(rows), St(order, stamps, 0)) && k !in stamps
    ensures Same(Fed(rows + [Numbered(n, Source(k, "feed"))]), St(order + [k], stamps[k := n], 0))
  {
    var all := rows + [Numbered(n, Source(k, "feed"))];
    hide Apply, Fill;
    assert all[..|all| - 1] == rows;
    var t := Fed(rows).(now := n);
    assert t == St(order, stamps, n);
    FillIs(stamps, k);
    ApplyNew(t, k);
    StPutNew(order, stamps, n, k);
  }

  lemma FillIs(stamps: map<string, nat>, k: string)
    ensures k in Fill(stamps) <==> k in stamps
  {
  }

  lemma ApplyNew(s: State, k: string)
    requires k !in s.store.at
    ensures Apply(s, Source(k, "feed")) == Do(s, Op.Put(k, FEED))
  {
    hide HasAny, Contains;
  }

  lemma NothingFed()
    ensures Same(Fed(Number(Sources([]))), St([], Places([]), 0))
  {
    assert Fill(map[]) == map[];
  }

  lemma {:induction false} SourcesFed(keys: seq<string>)
    requires Apart(keys)
    ensures Same(Fed(Number(Sources(keys))), St(keys, Places(keys), 0))
    ensures Places(keys).Keys == set k | k in keys
  {
    hide Fed, Fill, Number;
    if keys == [] {
      NothingFed();
    } else {
      var front, k := keys[..|keys| - 1], keys[|keys| - 1];
      SourcesFed(front);
      assert keys == front + [k];
      assert Sources(keys) == Sources(front) + [Source(k, "feed")];
      NumberMore(Sources(front), Source(k, "feed"));
      FedOne(Number(Sources(front)), front, Places(front), k, |front|);
    }
  }

  const V2: nat := LateFrom(2)
  const V3: nat := LateFrom(V2)
  const V4: nat := LateFrom(4)

  lemma StPutNew(order: seq<string>, stamps: map<string, nat>, n: nat, k: string)
    requires k !in stamps
    ensures Do(St(order, stamps, n), Op.Put(k, FEED)) == St(order + [k], stamps[k := n], n + 1)
  {
    assert Fill(stamps)[k := FEED] == Fill(stamps[k := n]);
  }

  lemma StPutOld(order: seq<string>, stamps: map<string, nat>, n: nat, k: string)
    requires k in stamps
    ensures Do(St(order, stamps, n), Op.Put(k, FEED)) == St(order, stamps, n)
  {
    assert Fill(stamps)[k := FEED] == Fill(stamps);
  }

  lemma StDel(order: seq<string>, stamps: map<string, nat>, n: nat, k: string)
    ensures Do(St(order, stamps, n), Del(k)) == St(Without(order, k), stamps - {k}, n)
  {
    assert Fill(stamps) - {k} == Fill(stamps - {k});
  }

  lemma StStart(s: State, order: seq<string>, stamps: map<string, nat>, k: string)
    requires Same(s, St(order, stamps, 0)) && k in stamps
    ensures Start(s, Cleanup, k) == St(order, stamps, LateFrom(stamps[k]))
    ensures k in s.store.at && s.store.at[k] == FEED && k in s.stamps && s.dups == map[]
  {
  }

  lemma WithoutCons(x: string, rest: seq<string>, k: string)
    ensures Without([x] + rest, k) == if x == k then Without(rest, k) else [x] + Without(rest, k)
  {
    assert ([x] + rest)[1..] == rest;
  }

  lemma {:induction false} WithoutNone(order: seq<string>, k: string)
    requires k !in order
    ensures Without(order, k) == order
  {
    if order != [] { WithoutNone(order[1..], k); }
  }

  /** A lower-case name starting "www." loses the "www.". */
  lemma VisitWww(s: State, order: seq<string>, stamps: map<string, nat>, k: string)
    requires Same(s, St(order, stamps, 0)) && k in stamps && WWW <= k && k[4..] !in stamps && k[4..] != k
    requires Bare(k) && !AlphaOnly(k) && Bare(k[4..])
    ensures Same(Visit(PLAIN, Cleanup, s, k), St(Without(order, k) + [k[4..]], (stamps - {k})[k[4..] := LateFrom(stamps[k])], 0))
  {
    var n := LateFrom(stamps[k]);
    StStart(s, order, stamps, k);
    VisitPlain(s, k, k, FEED);
    assert [] + [Del(k), Op.Put(k[4..], FEED)] == [Del(k), Op.Put(k[4..], FEED)];
    DoTwo(St(order, stamps, n), Del(k), Op.Put(k[4..], FEED));
    StDel(order, stamps, n, k);
    StPutNew(Without(order, k), stamps - {k}, n, k[4..]);
  }

  /** A name in upper case takes the place of its lower-case form, and that one loses its "www." to a name already there. */
  lemma VisitUpperWww(s: State, order: seq<string>, stamps: map<string, nat>, k: string, l: string)
    requires Same(s, St(order, stamps, 0)) && k in stamps && l in stamps && k != l && l == LowerAscii(k) && IsAscii(k)
    requires Bare(l) && !AlphaOnly(l) && WWW <= l && Bare(l[4..]) && l[4..] in stamps && l[4..] != k && l[4..] != l
    ensures Same(Visit(PLAIN, Cleanup, s, k), St(Without(Without(order, k), l), stamps - {k} - {l}, 0))
  {
    hide LateFrom, Without, LowerAscii, Ops;
    var n, x := LateFrom(stamps[k]), l[4..];
    StStart(s, order, stamps, k);
    VisitPlain(s, k, l, FEED);
    assert [Op.Put(l, FEED), Del(k)] + [Del(l), Op.Put(x, FEED)] == [Op.Put(l, FEED), Del(k), Del(l), Op.Put(x, FEED)];
    DoFour(St(order, stamps, n), Op.Put(l, FEED), Del(k), Del(l), Op.Put(x, FEED));
    StPutOld(order, stamps, n, l);
    StDel(order, stamps, n, k);
    StDel(Without(order, k), stamps - {k}, n, l);
    StPutOld(Without(Without(order, k), l), stamps - {k} - {l}, n, x);
  }

  /** A letters-only name of a feed goes. */
  lemma VisitLetters(s: State, order: seq<string>, stamps: map<string, nat>, k: string)
    requires Same(s, St(order, stamps, 0)) && k in stamps && Bare(k) && AlphaOnly(k)
    ensures Same(Visit(PLAIN, Cleanup, s, k), St(Without(order, k), stamps - {k}, 0))
  {
    var n := LateFrom(stamps[k]);
    StStart(s, order, stamps, k);
    VisitJunk(s, k);
    DoMore(St(order, stamps, n), [], Del(k));
    assert [] + [Del(k)] == [Del(k)];
    StDel(order, stamps, n, k);
  }

  /** A name in upper case is put in lower case. */
  lemma VisitUpper(s: State, order: seq<string>, stamps: map<string, nat>, k: string, l: string)
    requires Same(s, St(order, stamps, 0)) && k in stamps && l !in stamps && k != l && l == LowerAscii(k) && IsAscii(k)
    requires Bare(l) && !AlphaOnly(l) && !(WWW <= l)
    ensures Same(Visit(PLAIN, Cleanup, s, k), St(Without(order + [l], k), stamps[l := LateFrom(stamps[k])] - {k}, 0))
  {
    var n := LateFrom(stamps[k]);
    StStart(s, order, stamps, k);
    VisitPlain(s, k, l, FEED);
    assert [Op.Put(l, FEED), Del(k)] + [] == [Op.Put(l, FEED), Del(k)];
    DoTwo(St(order, stamps, n), Op.Put(l, FEED), Del(k));
    StPutNew(order, stamps, n, l);
    StDel(order + [l], stamps[l := n], n + 1, k);
  }

  lemma SweepKeeps(s: State, k: string)
    requires BareKey(k)
    ensures Visit(PLAIN, Whitelist, s, k) == s
  {
  }

  predicate BareKey(k: string) { forall i :: 0 <= i < |BAD_TRAIL_PREFIXES| ==> !(BAD_TRAIL_PREFIXES[i] <= k) }

  /** The orders and stamps the visits go through, as facts about distinct names. */
  lemma Through(a: string, x: string, ww: string, w: string, o: string, c: string)
    requires Apart([a, x, ww, w, o]) && c != o && c != x
    ensures var s0 := [a, x, ww, w, o]; Without(Without(s0, a), w) == [x, ww, o]
    ensures Without([x, ww, o], x) == [ww, o]
    ensures Without([ww, o], ww) + [w] == [o, w] && Without([o, w], w) + [x] == [o, x] && Without([o, x] + [c], o) == [x, c]
  {
    var s0 := [a, x, ww, w, o];
    assert s0[0] != s0[1] && s0[0] != s0[2] && s0[0] != s0[3] && s0[0] != s0[4] && s0[1] != s0[2] && s0[1] != s0[3] && s0[1] != s0[4];
    assert s0[2] != s0[3] && s0[2] != s0[4] && s0[3] != s0[4];
    WithoutThese(a, [x, ww, w, o], a);
    WithoutThese(x, [ww, w, o], w);
    WithoutThese(ww, [w, o], w);
    WithoutThese(w, [o], w);
    WithoutThese(x, [ww, o], x);
    WithoutThese(ww, [o], ww);
    WithoutThese(o, [w], w);
    WithoutThese(w, [], w);
    WithoutThese(o, [x, c], o);
    assert [o, x] + [c] == [o, x, c];
  }

  lemma WithoutThese(h: string, t: seq<string>, k: string)
    ensures h == k && k !in t ==> Without([h] + t, k) == t
    ensures h != k ==> Without([h] + t, k) == [h] + Without(t, k)
  {
    WithoutCons(h, t, k);
    if k !in t { WithoutNone(t, k); }
  }

  /** "x" ends up before the other name, but stamped after it. */
  ghost predicate Reordering(s: State, f: Five) {
    && s.store.order == [f.x, f.lower] && f.x in s.stamps && f.lower in s.stamps
    && s.stamps[f.x] == V3 && s.stamps[f.lower] == V4
  }

  lemma ReorderedCleanup(s: State, f: Five)
    requires Fit(f) && Same(s, St(Keys(f), Places(Keys(f)), 0))
    ensures Reordering(VisitAll(PLAIN, Cleanup, s, Keys(f)), f)
  {
    hide Visit, VisitAll, Bare, AlphaOnly, LowerAscii, IsAscii, St, Same, Without, LateFrom, Places, Fit, Apart;
    var keys := Keys(f);
    var s3, p3 := FirstVisits(s, f);
    var s5 := LastVisits(s3, p3, f);
    FitNames(f);
    var s1 := Visit(PLAIN, Cleanup, s, f.upper);
    var s2 := Visit(PLAIN, Cleanup, s1, f.x);
    VisitFive(s, s1, s2, s3, Visit(PLAIN, Cleanup, s3, f.www), keys);
  }

  lemma FitNames(f: Five)
    requires Fit(f)
    ensures Keys(f) == [f.upper, f.x, f.wwww, f.www, f.other]
  {
  }

  /** The visits of the names in upper case, "x" and "www.www.x". */
  lemma FirstVisits(s: State, f: Five) returns (s3: State, p3: map<string, nat>)
    requires Fit(f) && Same(s, St(Keys(f), Places(Keys(f)), 0))
    ensures s3 == Visit(PLAIN, Cleanup, Visit(PLAIN, Cleanup, Visit(PLAIN, Cleanup, s, f.upper), f.x), f.wwww)
    ensures Same(s3, St([f.other, f.www], p3, 0))
    ensures p3.Keys == {f.other, f.www} && p3[f.other] == 4 && p3[f.www] == LateFrom(2)
  {
    hide Visit, VisitAll, Bare, AlphaOnly, LowerAscii, IsAscii, St, Same, Without, LateFrom, Places;
    var keys := Keys(f);
    var p0 := Places(keys);
    FitPlaces(f);
    Through(f.upper, f.x, f.wwww, f.www, f.other, f.lower);
    var p1 := p0 - {f.upper} - {f.www};
    VisitUpperWww(s, keys, p0, f.upper, f.www);
    var s1 := Visit(PLAIN, Cleanup, s, f.upper);
    var p2 := p1 - {f.x};
    VisitLetters(s1, [f.x, f.wwww, f.other], p1, f.x);
    var s2 := Visit(PLAIN, Cleanup, s1, f.x);
    VisitWww(s2, [f.wwww, f.other], p2, f.wwww);
    s3, p3 := Visit(PLAIN, Cleanup, s2, f.wwww), (p2 - {f.wwww})[f.www := LateFrom(2)];
    PlacesKeys(f);
    assert p3.Keys == {f.other, f.www};
  }

  lemma PlacesKeys(f: Five)
    ensures Places(Keys(f)).Keys == {f.upper, f.x, f.wwww, f.www, f.other}
  {
    hide Places;
    var keys := Keys(f);
    assert forall k :: k in {f.upper, f.x, f.wwww, f.www, f.other} <==> k in keys by {
      assert keys[0] == f.upper && keys[1] == f.x && keys[2] == f.wwww && keys[3] == f.www && keys[4] == f.other;
    }
    PlacesIn(keys);
  }

  lemma {:induction false} PlacesIn(keys: seq<string>)
    ensures forall k :: k in Places(keys) <==> k in keys
  {
    if keys != [] { PlacesIn(keys[..|keys| - 1]); }
  }

  /** The visits of "www.x" and of the other name. */
  lemma LastVisits(s3: State, p3: map<string, nat>, f: Five) returns (s5: State)
    requires Fit(f) && Same(s3, St([f.other, f.www], p3, 0))
    requires p3.Keys == {f.other, f.www} && p3[f.other] == 4 && p3[f.www] == LateFrom(2)
    ensures s5 == Visit(PLAIN, Cleanup, Visit(PLAIN, Cleanup, s3, f.www), f.other) && Reordering(s5, f)
  {
    hide Visit, VisitAll, Bare, AlphaOnly, LowerAscii, IsAscii, St, Same, Without, LateFrom;
    FitPlaces(f);
    Through(f.upper, f.x, f.wwww, f.www, f.other, f.lower);
    var p4 := (p3 - {f.www})[f.x := V3];
    VisitWww(s3, [f.other, f.www], p3, f.www);
    var s4 := Visit(PLAIN, Cleanup, s3, f.www);
    VisitUpper(s4, [f.other, f.x], p4, f.other, f.lower);
    s5 := Visit(PLAIN, Cleanup, s4, f.other);
    StData(s5, [f.x, f.lower], p4[f.lower := V4] - {f.other});
  }

  lemma VisitFive(s: State, s1: State, s2: State, s3: State, s4: State, keys: seq<string>)
    requires |keys| == 5
    requires s1 == Visit(PLAIN, Cleanup, s, keys[0]) && s2 == Visit(PLAIN, Cleanup, s1, keys[1]) && s3 == Visit(PLAIN, Cleanup, s2, keys[2])
    requires s4 == Visit(PLAIN, Cleanup, s3, keys[3])
    ensures VisitAll(PLAIN, Cleanup, s, keys) == Visit(PLAIN, Cleanup, s4, keys[4])
  {
    hide *;
    assert keys[0..] == keys && keys[5..] == [];
    VisitAllStep(PLAIN, Cleanup, s, keys, 0);
    VisitAllStep(PLAIN, Cleanup, s1, keys, 1);
    VisitAllStep(PLAIN, Cleanup, s2, keys, 2);
    VisitAllStep(PLAIN, Cleanup, s3, keys, 3);
    VisitAllStep(PLAIN, Cleanup, s4, keys, 4);
    VisitNone(PLAIN, Cleanup, Visit(PLAIN, Cleanup, s4, keys[4]));
  }

  lemma StData(s: State, order: seq<string>, stamps: map<string, nat>)
    requires Same(s, St(order, stamps, 0))
    ensures s.store.order == order && s.stamps == stamps
  {
  }

  lemma {:induction false} PlacesAre(keys: seq<string>)
    requires Apart(keys)
    ensures forall i :: 0 <= i < |keys| ==> keys[i] in Places(keys) && Places(keys)[keys[i]] == i
    ensures forall k :: k in Places(keys) ==> k in keys
  {
    if keys != [] {
      PlacesAre(keys[..|keys| - 1]);
    }
  }

  lemma ReorderedSweep(s: State, x: string, y: string)
    requires BareKey(x) && BareKey(y)
    ensures VisitAll(PLAIN, Whitelist, s, [x, y]) == s
  {
    hide Visit, VisitAll;
    SweepKeeps(s, x);
    SweepKeeps(s, y);
    assert [x, y][0..] == [x, y] && [x, y][2..] == [];
    VisitAllStep(PLAIN, Whitelist, s, [x, y], 0);
    VisitAllStep(PLAIN, Whitelist, s, [x, y], 1);
    VisitNone(PLAIN, Whitelist, s);
  }

  lemma ReorderedBuild(e: Env, f: Five)
    requires e.rules == PLAIN && Fit(f) && BareKey(f.x) && BareKey(f.lower)
    ensures Wf(Full(e, Reordered(f))) && Reordering(Full(e, Reordered(f)), f)
  {
    hide VisitAll, Fed, Number, Fit, Wf, Sources, Reordering, Places;
    BuildWf(PLAIN, Number(Reordered(f)));
    FitApart(f);
    SourcesFed(Keys(f));
    var s := Fed(Number(Reordered(f)));
    StData(s, Keys(f), Places(Keys(f)));
    ReorderedCleanup(s, f);
    ReorderingOrder(VisitAll(PLAIN, Cleanup, s, s.store.order), f);
    ReorderedSweep(VisitAll(PLAIN, Cleanup, s, s.store.order), f.x, f.lower);
  }

  lemma ReorderingOrder(s: State, f: Five)
    requires Reordering(s, f)
    ensures s.store.order == [f.x, f.lower]
  {
  }

  lemma FitPlaces(f: Five)
    requires Fit(f)
    ensures Apart(Keys(f))
    ensures var p := Places(Keys(f));
      && f.upper in p && f.x in p && f.wwww in p && f.www in p && f.other in p && f.lower !in p
      && p[f.wwww] == 2 && p[f.other] == 4
    ensures f.upper != f.x && f.upper != f.wwww && f.upper != f.www && f.upper != f.other
    ensures f.x != f.wwww && f.x != f.www && f.x != f.other && f.wwww != f.www && f.wwww != f.other && f.www != f.other
  {
    hide Bare, AlphaOnly, LowerAscii, IsAscii, Places;
    var keys := Keys(f);
    assert keys[0] == f.upper && keys[1] == f.x && keys[2] == f.wwww && keys[3] == f.www && keys[4] == f.other;
    PlacesAre(keys);
  }

  lemma FitApart(f: Five)
    requires Fit(f)
    ensures Apart(Keys(f))
  {
  }

  /**
   On these rows the one dict ends with "x" before "c.d", but "x" carries the later stamp: it was put
   back late, and visited again from there.
   */
  lemma ReorderedIs(e: Env)
    requires e.rules == PLAIN
    ensures AllProper(e, Reordered(NAMES)) && Wf(Full(e, Reordered(NAMES)))
    ensures !Sorting.Sorted(RowLess, Rows(Full(e, Reordered(NAMES))))
  {
    hide Full, AllProper, Reordered, Fit;
    NamesFit();
    NamesProper(e, NAMES);
    NamesStay(NAMES);
    ReorderedBuild(e, NAMES);
    NotSortedRows(Full(e, Reordered(NAMES)), NAMES);
  }

  /** The names as the feed has them: a row's key is the name without a leading "www.". */
  function FeedNames(f: Five): seq<string> { [f.upper, f.x, WWW + f.wwww, WWW + f.www, f.other] }

  function Items(names: seq<string>): seq<(string, Pair)> {
    seq(|names|, i requires 0 <= i < |names| => (names[i], FEED))
  }

  const FEED_ITEMS := Items(FeedNames(NAMES))

  const FIVE_NAMES: seq<TrailBuild.Source> := [Results(FEED_ITEMS)]

  lemma SourceKeyIs(e: Env, name: string)
    requires ':' !in name && '/' !in name
    ensures SourceKey(e, name) == if WWW <= name then name[4..] else name
  {
  }

  lemma {:induction false} ItemRows(e: Env, names: seq<string>, keys: seq<string>)
    requires |names| == |keys| && forall i :: 0 <= i < |names| ==> SourceKey(e, names[i]) == keys[i]
    ensures MergeRows(e, Items(names)) == Sources(keys)
  {
    if names != [] {
      var last := |names| - 1;
      ItemRows(e, names[..last], keys[..last]);
      assert Items(names)[..last] == Items(names[..last]);
    }
  }

  lemma FeedRows(e: Env)
    ensures AllRows(e, FIVE_NAMES) == Reordered(NAMES)
  {
    hide MergeRows, SourceKey;
    var names, keys := FeedNames(NAMES), Keys(NAMES);
    forall i | 0 <= i < 5 ensures SourceKey(e, names[i]) == keys[i] {
      FeedName(i);
      SourceKeyIs(e, names[i]);
    }
    ItemRows(e, names, keys);
    assert FIVE_NAMES[..0] == [] && AllRows(e, FIVE_NAMES) == [] + MergeRows(e, FEED_ITEMS);
  }

  lemma FeedName(i: nat)
    requires i < 5
    ensures var names := FeedNames(NAMES);
      ':' !in names[i] && '/' !in names[i] && Keys(NAMES)[i] == if WWW <= names[i] then names[i][4..] else names[i]
  {
    var f := NAMES;
    assert (WWW + f.wwww)[4..] == f.wwww && (WWW + f.www)[4..] == f.www;
    assert f.upper[0] == 'W' && f.x[0] == 'x' && f.other[0] == 'C';
  }

  /**
   One feed of the five names "WWW.x", "x", "www.www.www.x", "www.www.x" and "C.d", in this order: both builds
   run on it, and the streaming one, which writes rows in the order of their stamps, writes another file.
   */
  method OrderCanDiffer(e: Env) returns (dict: seq<OutRow>, streamed: seq<OutRow>)
    requires e.rules == PLAIN
    ensures Wf(Full(e, AllRows(e, FIVE_NAMES)))
    ensures DictRows(Full(e, AllRows(e, FIVE_NAMES)), dict) && StreamedRows(Full(e, AllRows(e, FIVE_NAMES)), streamed)
    ensures Written(streamed) != Written(dict)
    ensures forall p :: p in Written(streamed) <==> p in Written(dict)
  {
    hide *;
    FeedRows(e);
    ReorderedIs(e);
    ReorderedSize();
    var scores, streamedScores;
    dict, scores, streamed, streamedScores := BuildBoth(e, FIVE_NAMES);
  }

  lemma ReorderedSize()
    ensures |Reordered(NAMES)| <= MAX_ROWS
  {
  }

  lemma NamesStay(f: Five)
    requires f == NAMES
    ensures BareKey(f.x) && BareKey(f.lower)
  {
    assert f.x[0] == 'x' && f.lower[0] == 'c';
    assert |BAD_TRAIL_PREFIXES| == 3 && BAD_TRAIL_PREFIXES[0][0] == '1' && BAD_TRAIL_PREFIXES[1][0] == '1' && BAD_TRAIL_PREFIXES[2][0] == 'l';
  }

  lemma NamesProper(e: Env, f: Five)
    requires Fit(f)
    ensures AllProper(e, Reordered(f))
  {
    hide Group, LowerAscii, AlphaOnly, Bare, IsAscii, Foreseen, Reach, IdnGroups;
    forall i | 0 <= i < 5 ensures Foreseen(e.rules.names, Keys(f)[i]) {
      FitAscii(f, i);
      ForeseenNames(e.rules.names, Keys(f)[i]);
    }
    var rows := Reordered(f);
    forall i | 0 <= i < |rows| ensures Proper(e.rules.names, rows[i]) { assert rows[i] == Source(Keys(f)[i], "feed"); }
  }

  lemma FitAscii(f: Five, i: nat)
    requires Fit(f) && i < 5
    ensures IsAscii(Keys(f)[i])
  {
    hide LowerAscii, AlphaOnly, Apart;
  }

  lemma NotSortedRows(s: State, f: Five)
    requires Wf(s) && Reordering(s, f)
    ensures !Sorting.Sorted(RowLess, Rows(s))
  {
    TextsDiffer();
    var a, b := Rows(s)[0], Rows(s)[1];
    FieldsOrder(a, b);
    assert a.order == OrderText(V3) && b.order == OrderText(V4);
  }

  lemma FieldsOrder(a: OutRow, b: OutRow)
    requires !Less(a.order, b.order) && a.order != b.order
    ensures !RowLess(a, b)
  {
    assert Fields(a)[0] == a.order && Fields(b)[0] == b.order;
  }

  /** A number of at least 16 digits starts with the digits of its leading part. */
  lemma TextHead(n: nat, m: nat, k: nat, r: nat)
    requires m > 0 && r < Hex.Pow16(k) && n == m * Hex.Pow16(k) + r && n >= Hex.Pow16(15)
    ensures Hex.Digits(m) <= OrderText(n)
  {
    Hex.DigitsPrefix(m, k, r);
    Hex.DigitsAtLeast(n, 15);
  }

  /** 17 digits starting "44" against 16 starting "40". */
  lemma TextsDiffer()
    ensures !Less(OrderText(V3), OrderText(V4)) && OrderText(V3) != OrderText(V4)
  {
    hide Less, OrderText;
    PowersBelow();
    TextHead(V3, 0x44, 15, 0x200);
    TextHead(V4, 0x40, 14, 0x40);
    assert Hex.Digits(0x44) == "44" && Hex.Digits(0x40) == "40";
    HeadsDecide(OrderText(V3), OrderText(V4));
  }

  lemma PowersBelow()
    ensures Hex.Pow16(15) == 0x1000_0000_0000_0000 && Hex.Pow16(14) == 0x100_0000_0000_0000
  {
    assert Hex.Pow16(4) == 0x1_0000;
    assert Hex.Pow16(8) == 0x1_0000_0000;
    assert Hex.Pow16(12) == 0x1_0000_0000_0000;
  }

  lemma HeadsDecide(a: string, b: string)
    requires "44" <= a && "40" <= b
    ensures !Less(a, b) && a != b
  {
    assert a[0] == b[0] == '4' && a[1] == '4' && b[1] == '0';
    assert a[1..][0] == '4' && b[1..][0] == '0';
  }
}
