/**
 A remote custom line that is checked in another group than it is stored in: for every such line there is an input
 on which the streaming build writes other contents than the one-dict build.
 */
module RemoteDiffers {
  import opened Text
  import opened TrailGroup
  import opened TrailShard
  import opened TrailLocality
  import opened TrailMerge
  import opened TrailOrder
  import opened TrailBuild
  import opened TrailParts
  import opened StreamBuild
  import opened BuildsAgree
  import opened BuildsDiffer
  import Sorting

  const CUSTOM := Pair("x", "(custom)")
  const REMOTE := Pair("blacklisted", "(remote custom)")

  /** The lines of which RemoteFormsGroup says that their two forms are in different groups. */
  predicate Splits(line: string) {
    IsAscii(line) && '/' !in line && '?' !in line && StripLead(LowerAscii(line)) == "" && Strip(line) != ""
  }

  /** A custom trail named "www." and the line, merged as the line; and the remote row the caller makes of the line. */
  function CustomRow(line: string): Row { Row(Merge, line, CUSTOM, "") }

  function RemoteRow(line: string): Row { Row(Remote, Strip(line), REMOTE, line) }

  function Sources(line: string): seq<Source> {
    [Results([(WWW + line, CUSTOM)]), OneRemote(Strip(line), REMOTE, line)]
  }

  /** The same rows, the remote one checked as it is stored. */
  function Moved(line: string): seq<Row> { [CustomRow(line), RemoteRow(line).(check := Strip(line))] }

  // ---- the line and its groups

  lemma {:induction false} OnlyWsAndDots(s: string)
    requires StripLead(s) == ""
    ensures forall c :: c in s ==> c == 'w' || c == '.'
  {
    if WWW <= s {
      assert s == WWW + s[4..];
      OnlyWsAndDots(s[4..]);
    } else if "." <= s {
      assert s == "." + s[1..];
      OnlyWsAndDots(s[1..]);
    }
  }

  /** What is stored is made of the letter w and dots. */
  predicate Ws(k: string) { forall i :: 0 <= i < |k| ==> k[i] == 'w' || k[i] == 'W' || k[i] == '.' }

  lemma LineIs(line: string)
    requires Splits(line)
    ensures Ws(line) && Ws(Strip(line)) && IsAscii(Strip(line)) && ':' !in WWW + line
  {
    hide StripDots, StripTrail, StripLead;
    OnlyWsAndDots(LowerAscii(line));
    forall i | 0 <= i < |line| ensures line[i] == 'w' || line[i] == 'W' || line[i] == '.' {
      assert LowerAscii(line)[i] in LowerAscii(line);
    }
    StripDotsAre(line);
    StripTrailIs(StripDots(line));
    forall i | 0 <= i < |Strip(line)| ensures Strip(line)[i] in line { assert Strip(line)[i] in Strip(line); }
  }

  lemma GroupsAre(n: Names, line: string)
    requires Splits(line)
    ensures Group(n, line) == "" && Group(n, Strip(line)) == "www"
  {
    hide StripDots, Cut, Collapse;
    LineIs(line);
    var L := LowerAscii(line);
    var y := StripDots(line);
    StripDotsAre(line);
    StripTrailIs(y);
    StripLeadDots(L);
    StripLeavesWww(StripDots(L));
    assert LowerAscii(Strip(line)) == StripTrail(StripDots(L));
    assert |LowerAscii(Strip(line))| > 0;
    LowerKeeps(line);
    LowerKeeps(Strip(line));
    assert StripTrail("www") == "www";
  }

  // ---- the one dict keeps the remote trail out

  lemma CustomReferences()
    ensures HasAny("(custom)", CUSTOM_OR_STATIC) && HasAny("(remote custom)", CUSTOM_OR_STATIC)
  {
    assert CUSTOM_OR_STATIC[0] == "custom";
    assert "(custom)"[1..7] == "custom" && Occurs("(custom)", "custom", 1);
    assert "(remote custom)"[8..14] == "custom" && Occurs("(remote custom)", "custom", 8);
  }

  lemma FedSnoc(rows: seq<Numbered>, x: Numbered)
    ensures Fed(rows + [x]) == ApplyAt(Fed(rows), x)
    ensures Fed([]) == EMPTY
  {
    assert (rows + [x])[..|rows|] == rows;
  }

  /** One dict of both rows is one dict of the custom row. */
  lemma CustomKeepsOut(line: string)
    ensures Same(Fed(Number([CustomRow(line), RemoteRow(line)])), Fed([Numbered(0, CustomRow(line))]))
    ensures Wf(Fed([Numbered(0, CustomRow(line))]))
  {
    hide Fed, Strip, Wf;
    var first, second := Numbered(0, CustomRow(line)), Numbered(1, RemoteRow(line));
    assert Number([CustomRow(line), RemoteRow(line)]) == [first] + [second];
    assert [] + [first] == [first];
    FedSnoc([], first);
    FedSnoc([first], second);
    FedWf([first]);
    CustomReferences();
    assert Fed([first]).store.at[line] == CUSTOM;
  }

  lemma DictGroups(e: Env, line: string)
    requires e.rules == PLAIN && Splits(line)
    ensures forall k :: k in Full(e, [CustomRow(line), RemoteRow(line)]).store.order ==> Group(e.rules.names, k) == ""
  {
    hide PostProcess, Fed, Number, Strip, Wf, Group, AllGroups, Splits;
    var rows, one := [CustomRow(line), RemoteRow(line)], [Numbered(0, CustomRow(line))];
    CustomKeepsOut(line);
    FedWf(one);
    PostProcessSame(PLAIN, Fed(Number(rows)), Fed(one));
    CustomGroup(e.rules.names, line);
    BuildGroups(PLAIN, one);
  }

  lemma CustomGroup(n: Names, line: string)
    requires Splits(line)
    ensures AllGroups(n, [Numbered(0, CustomRow(line))]) == {""} && Proper(n, CustomRow(line))
  {
    hide Strip, Group, Foreseen, Reach;
    LineIs(line);
    GroupsAre(n, line);
    ReachAscii(n, line);
    ForeseenNames(n, line);
    var one := [Numbered(0, CustomRow(line))];
    assert one[0] in one && Reach(n, line) == {""};
    assert forall x :: x in one ==> x.row.key == line;
  }

  // ---- built alone, the remote trail stays

  lemma RemoteFed(line: string, row: Row)
    requires row == RemoteRow(line).(check := row.check)
    ensures Fed([Numbered(1, row)]) == State(Dict([Strip(line)], map[Strip(line) := REMOTE]), map[Strip(line) := 1], map[], 2)
  {
    hide Fed, Strip;
    FedSnoc([], Numbered(1, row));
    assert [] + [Numbered(1, row)] == [Numbered(1, row)];
    assert Apply(EMPTY.(now := 1), row) == Do(EMPTY.(now := 1), Op.Put(Strip(line), REMOTE));
  }

  /** The name a visit leaves: lower case, without a leading "www.". */
  function Left(k: string): string {
    var l := LowerAscii(k);
    if WWW <= l then l[4..] else l
  }

  lemma LastPut(s: State, ops: seq<Op>, k: string, v: Pair)
    ensures k in DoAll(s, ops + [Op.Put(k, v)]).store.at
  {
    DoMore(s, ops, Op.Put(k, v));
  }

  lemma VisitLeaves(s: State, k: string)
    requires k in s.store.at && s.store.at[k] == REMOTE && k in s.stamps && s.dups == map[]
    requires IsAscii(k) && Ws(k) && k != "" && Left(k) != ""
    ensures Left(k) in Visit(PLAIN, Cleanup, s, k).store.at
  {
    hide AlphaOnly, Ops, DoAll, LateFrom, Ws, Bare, LowerAscii;
    WsStay(k);
    CustomReferences();
    VisitPlain(s, k, LowerAscii(k), REMOTE);
    OpsLeave(Start(s, Cleanup, k), k, LowerAscii(k), REMOTE);
  }

  lemma OpsLeave(s: State, k: string, l: string, v: Pair)
    requires k in s.store.at
    ensures (if WWW <= l then l[4..] else l) in
      DoAll(s, (if l != k then [Op.Put(l, v), Del(k)] else []) + (if WWW <= l then [Del(l), Op.Put(l[4..], v)] else [])).store.at
  {
    hide DoAll;
    var head := if l != k then [Op.Put(l, v), Del(k)] else [];
    if WWW <= l {
      assert head + [Del(l), Op.Put(l[4..], v)] == (head + [Del(l)]) + [Op.Put(l[4..], v)];
      LastPut(s, head + [Del(l)], l[4..], v);
    } else {
      assert head + [] == head;
      if l != k { DoTwo(s, Op.Put(l, v), Del(k)); } else { DoNone(s); }
    }
  }

  lemma DoNone(s: State)
    ensures DoAll(s, []) == s
  {
  }

  lemma WsStay(k: string)
    requires IsAscii(k) && Ws(k) && k != "" && Left(k) != ""
    ensures Ws(LowerAscii(k)) && Ws(Left(k)) && Bare(LowerAscii(k)) && (WWW <= LowerAscii(k) ==> Bare(LowerAscii(k)[4..]))
    ensures BareKey(Left(k))
  {
    hide Bare, BareKey, LowerAscii;
    LowerWs(k);
    var l := LowerAscii(k);
    WsBare(l);
    if WWW <= l { WsTail(l); WsBare(l[4..]); }
    WsKey(Left(k));
  }

  lemma LowerWs(k: string)
    requires Ws(k)
    ensures Ws(LowerAscii(k)) && LowerAscii(LowerAscii(k)) == LowerAscii(k)
  {
  }

  lemma WsTail(l: string)
    requires Ws(l) && |l| >= 4 && LowerAscii(l) == l
    ensures Ws(l[4..]) && LowerAscii(l[4..]) == l[4..]
  {
    assert forall i :: 0 <= i < |l[4..]| ==> l[4..][i] == l[i + 4] && LowerAscii(l)[i + 4] == l[i + 4];
  }

  lemma WsBare(l: string)
    requires Ws(l) && l != "" && LowerAscii(l) == l
    ensures Bare(l)
  {
    hide LowerAscii;
  }

  lemma WsKey(k: string)
    requires Ws(k)
    ensures BareKey(k)
  {
    assert |BAD_TRAIL_PREFIXES| == 3 && BAD_TRAIL_PREFIXES[0][0] == '1' && BAD_TRAIL_PREFIXES[1][0] == '1' && BAD_TRAIL_PREFIXES[2][0] == 'l';
  }

  lemma {:induction false} SweepSpares(s: State, keys: seq<string>, k: string)
    requires BareKey(k) && k in s.store.at
    ensures k in VisitAll(PLAIN, Whitelist, s, keys).store.at
    decreases |keys|
  {
    hide BareKey, Unwanted;
    if keys != [] {
      SweepOne(s, keys[0], k);
      SweepSpares(Visit(PLAIN, Whitelist, s, keys[0]), keys[1..], k);
    }
  }

  lemma SweepOne(s: State, key: string, k: string)
    requires BareKey(k) && k in s.store.at
    ensures k in Visit(PLAIN, Whitelist, s, key).store.at
  {
    hide BareKey, Ops, DoAll;
    if key == k {
      SweepKeeps(s, k);
    } else {
      SweepOps(s, key);
      DoNone(s);
      DoMore(s, [], Del(key));
      assert [] + [Del(key)] == [Del(key)];
    }
  }

  lemma SweepOps(s: State, key: string)
    ensures Ops(PLAIN, Whitelist, s, key) == [] || Ops(PLAIN, Whitelist, s, key) == [Del(key)]
    ensures Start(s, Whitelist, key) == s
  {
    hide Unwanted;
  }

  lemma VisitOne(pass: Pass, s: State, k: string)
    ensures VisitAll(PLAIN, pass, s, [k]) == Visit(PLAIN, pass, s, k)
  {
    hide Visit;
    assert [k][0..] == [k] && [k][1..] == [];
    VisitAllStep(PLAIN, pass, s, [k], 0);
    VisitNone(PLAIN, pass, Visit(PLAIN, pass, s, k));
  }

  lemma RemoteStays(line: string, row: Row)
    requires Splits(line) && row == RemoteRow(line).(check := row.check)
    ensures Left(Strip(line)) in TrailMerge.Build(PLAIN, [Numbered(1, row)]).store.at
  {
    hide Fed, VisitAll, Strip, Left, Visit;
    var s, k := Fed([Numbered(1, row)]), Strip(line);
    LineIs(line);
    LeftIs(line);
    RemoteFed(line, row);
    VisitLeaves(s, k);
    VisitOne(Cleanup, s, k);
    WsStay(k);
    var t := VisitAll(PLAIN, Cleanup, s, s.store.order);
    SweepSpares(t, t.store.order, Left(k));
  }

  /** Something is left: the stored form does not end in a dot. */
  lemma LeftIs(line: string)
    requires Splits(line)
    ensures Left(Strip(line)) != ""
  {
    hide StripDots;
    var k := Strip(line);
    EndsInNoDot(StripDots(line));
    var l := LowerAscii(k);
    assert l[|l| - 1] == LowerChar(k[|k| - 1]) != '.';
  }

  lemma {:induction false} EndsInNoDot(s: string)
    ensures StripTrail(s) != "" ==> StripTrail(s)[|StripTrail(s)| - 1] != '.'
  {
    if s != [] && s[|s| - 1] == '.' { EndsInNoDot(s[..|s| - 1]); }
  }

  // ---- the two builds

  /** What the first pass holds back: the remote row, and nothing else. */
  lemma HeldBack(e: Env, line: string)
    requires e.rules == PLAIN && Splits(line) && Hash32(e, "") != Hash32(e, "www")
    ensures var rows := [CustomRow(line), RemoteRow(line)];
      && Hashes(e, rows) == [Hash32(e, ""), Hash32(e, "www")]
      && Repeats(e, rows) == {Hash32(e, "www")}
  {
    hide Group, Strip, Hash32, BitsOf, Bits;
    var c, r := CustomRow(line), RemoteRow(line);
    LineIs(line);
    GroupsAre(e.rules.names, line);
    assert [] + [c] == [c] && [c] + [r] == [c, r];
    PassMore(e, [], c);
    PassMore(e, [c], r);
    NothingSet(e, line);
  }

  lemma NothingSet(e: Env, key: string)
    ensures !(BitsOf(e, key) <= Bits(e, [])) && Repeats(e, []) == {} && Hashes(e, []) == []
  {
    var h := e.hash(Group(e.rules.names, key));
    assert FirstBit(h) in BitsOf(e, key);
  }

  /** The streaming build makes of these rows what the one dict makes of the moved ones. */
  lemma MovedAlike(e: Env, line: string)
    requires e.rules == PLAIN && Splits(line) && Hash32(e, "") != Hash32(e, "www")
    ensures var rows := [CustomRow(line), RemoteRow(line)];
      Alike(rows, Moved(line), Hashes(e, rows), Repeats(e, rows)) && AllProper(e, Moved(line))
  {
    hide Group, Strip, Hash32, Fed, Hashes, Repeats, Foreseen, AllProper;
    var rows, built := [CustomRow(line), RemoteRow(line)], Moved(line);
    MovedProper(e, line);
    var hashes, repeat := Hashes(e, rows), Repeats(e, rows);
    LineIs(line);
    HeldBack(e, line);
    PickedTwo(rows, hashes, repeat);
    PickedTwo(built, hashes, repeat);
    RemoteFed(line, rows[1]);
    RemoteFed(line, built[1]);
  }

  lemma MovedProper(e: Env, line: string)
    requires Splits(line)
    ensures AllProper(e, Moved(line))
  {
    hide Group, Strip, Foreseen, Reach, IdnGroups, Splits;
    LineIs(line);
    SplitsAscii(line);
    ForeseenNames(e.rules.names, line);
    ForeseenNames(e.rules.names, Strip(line));
  }

  lemma SplitsAscii(line: string)
    requires Splits(line)
    ensures IsAscii(line)
  {
  }

  lemma PickedTwo(rows: seq<Row>, hashes: seq<int>, repeat: set<int>)
    requires |rows| == |hashes| == 2 && hashes[0] !in repeat && hashes[1] in repeat
    ensures Picked(rows, hashes, repeat, 0, 2, true) == [Numbered(1, rows[1])]
  {
    assert Picked(rows, hashes, repeat, 0, 1, true) == [];
  }

  lemma OnlySecond(n: Names, a: Numbered, b: Numbered, G: set<string>)
    requires Group(n, a.row.key) !in G && Group(n, b.row.key) in G
    ensures OnlyRows(n, [a, b], G) == [b]
  {
    hide Group;
    assert [a, b][..1] == [a] && [a][..0] == [];
    assert OnlyRows(n, [a], G) == [];
  }

  /** The one dict of the moved rows has a trail in the group of the remote row. */
  lemma MovedHas(e: Env, line: string)
    requires e.rules == PLAIN && Splits(line) && AllProper(e, Moved(line))
    ensures exists k :: k in Full(e, Moved(line)).store.at && Group(e.rules.names, k) == "www"
  {
    hide Strip, Left, PostProcess, Fed, Group, Reach, Foreseen;
    var n, rows, G := e.rules.names, Number(Moved(line)), {"www"};
    var row := Moved(line)[1];
    LineIs(line);
    GroupsAre(n, line);
    ReachAscii(n, line);
    ReachAscii(n, Strip(line));
    assert rows == [Numbered(0, CustomRow(line)), Numbered(1, row)];
    OnlySecond(n, Numbered(0, CustomRow(line)), Numbered(1, row), G);
    BuildOnly(PLAIN, rows, G);
    RemoteStays(line, row);
    var k := Left(Strip(line));
    assert k in Only(n, Full(e, Moved(line)), G).store.at;
  }

  /**
   For every line whose two forms are in different groups, a custom trail "www." and the line, and any hash that
   tells the two groups apart: the streaming build writes a trail of a group the one-dict build writes none of.
   */
  method RemoteCanDiffer(e: Env, line: string) returns (dict: seq<OutRow>, streamed: seq<OutRow>)
    requires e.rules == PLAIN && Splits(line) && Hash32(e, "") != Hash32(e, "www")
    ensures Wf(Full(e, AllRows(e, Sources(line)))) && DictRows(Full(e, AllRows(e, Sources(line))), dict)
    ensures Wf(Full(e, Moved(line))) && StreamedRows(Full(e, Moved(line)), streamed)
    ensures forall x :: x in dict ==> Group(e.rules.names, x.trail) == ""
    ensures exists x :: x in streamed && Group(e.rules.names, x.trail) == "www"
  {
    hide *;
    SourcesAre(e, line);
    var one, stream := FeedAll(e, Sources(line));
    DictGroups(e, line);
    MovedAlike(e, line);
    MovedHas(e, line);
    PassIs(stream);
    FullIs(e, AllRows(e, Sources(line)));
    FullIs(e, Moved(line));
    var scores;
    dict, scores := one.Build();
    DictRowsIn(e, [CustomRow(line), RemoteRow(line)], dict, "");
    MovedSize(line);
    streamed, scores := stream.Build(Moved(line));
    StreamedIs(Full(e, Moved(line)), streamed);
    HasRow(Full(e, Moved(line)), e.rules.names);
  }

  lemma StreamedIs(full: State, out: seq<OutRow>)
    requires Wf(full) && Sorting.Sorted(RowLess, out) && forall x :: x in out <==> x in Rows(full)
    ensures StreamedRows(full, out)
  {
  }

  lemma FullIs(e: Env, rows: seq<Row>)
    ensures Full(e, rows) == TrailMerge.Build(e.rules, Number(rows)) && Wf(Full(e, rows))
  {
    BuildWf(e.rules, Number(rows));
  }

  lemma MovedSize(line: string)
    ensures |Moved(line)| <= MAX_ROWS
  {
  }

  lemma DictRowsIn(e: Env, rows: seq<Row>, out: seq<OutRow>, group: string)
    requires Wf(TrailMerge.Build(e.rules, Number(rows))) && DictRows(TrailMerge.Build(e.rules, Number(rows)), out)
    requires forall k :: k in Full(e, rows).store.order ==> Group(e.rules.names, k) == group
    ensures forall x :: x in out ==> Group(e.rules.names, x.trail) == group
  {
    hide Group, Wf, Number;
  }

  lemma SourcesAre(e: Env, line: string)
    requires Splits(line)
    ensures AllRows(e, Sources(line)) == [CustomRow(line), RemoteRow(line)]
  {
    hide Strip;
    LineIs(line);
    assert SourceKey(e, WWW + line) == line by { assert (WWW + line)[4..] == line; }
    var items := [(WWW + line, CUSTOM)];
    assert items[..0] == [] && MergeRows(e, items) == [CustomRow(line)];
    assert Sources(line)[..1] == [Results(items)] && Sources(line)[..1][..0] == [];
    assert AllRows(e, Sources(line)[..1]) == [CustomRow(line)];
  }

  lemma PassIs(stream: Stream)
    requires stream.Valid()
    ensures stream.hashes == Hashes(stream.env, stream.rows) && stream.repeat == Repeats(stream.env, stream.rows)
    ensures stream.rows == AllRows(stream.env, stream.sources)
  {
  }

  lemma HasRow(s: State, n: Names)
    requires Wf(s) && exists k :: k in s.store.at && Group(n, k) == "www"
    ensures exists x :: x in Rows(s) && Group(n, x.trail) == "www"
  {
    hide Group;
    var k :| k in s.store.at && Group(n, k) == "www";
    RowsAre(s);
    assert RowOf(s, k) in Rows(s);
  }
}
