/**
 The streaming build against the one-dict build: what "byte for byte the one-dict build" amounts to.
 */
module BuildsAgree {
  import opened Text
  import opened TrailGroup
  import opened TrailShard
  import opened TrailMerge
  import opened TrailOrder
  import opened TrailBuild
  import opened TrailParts
  import opened StreamBuild
  import TrailFold
  import Sorting

  /** A row as it is written: trail, info, reference. */
  function Written(rows: seq<OutRow>): seq<(string, Pair)> {
    seq(|rows|, i requires 0 <= i < |rows| => (rows[i].trail, rows[i].value))
  }

  /** What the streaming build writes. */
  ghost predicate StreamedRows(full: State, out: seq<OutRow>)
    requires Wf(full)
  {
    Sorting.Sorted(RowLess, out) && forall x :: x in out <==> x in Rows(full)
  }

  /** The same trails with the same values, each written once by both builds. */
  lemma SameContents(full: State, streamed: seq<OutRow>, dict: seq<OutRow>)
    requires Wf(full) && StreamedRows(full, streamed) && DictRows(full, dict)
    ensures forall p :: p in Written(streamed) <==> p in Written(dict)
    ensures forall p :: p in Written(dict) <==> p.0 in full.store.at && p.1 == full.store.at[p.0]
    ensures forall i, j :: 0 <= i < j < |streamed| ==> streamed[i].trail != streamed[j].trail
    ensures forall i, j :: 0 <= i < j < |dict| ==> dict[i].trail != dict[j].trail
  {
    StreamedContents(full, streamed);
    DictContents(full, dict);
  }

  lemma StreamedContents(full: State, streamed: seq<OutRow>)
    requires Wf(full) && StreamedRows(full, streamed)
    ensures forall p :: p in Written(streamed) <==> p.0 in full.store.at && p.1 == full.store.at[p.0]
    ensures forall i, j :: 0 <= i < j < |streamed| ==> streamed[i].trail != streamed[j].trail
  {
    hide RowLess, Rows, OrderText;
    RowsAre(full);
    RowLessStrict();
    forall p: (string, Pair)
      ensures p in Written(streamed) <==> p.0 in full.store.at && p.1 == full.store.at[p.0]
    {
      if p.0 in full.store.at && p.1 == full.store.at[p.0] {
        var x := RowOf(full, p.0);
        assert x in Rows(full);
        var j :| 0 <= j < |streamed| && streamed[j] == x;
        assert Written(streamed)[j] == p;
      }
      if p in Written(streamed) {
        var j :| 0 <= j < |streamed| && Written(streamed)[j] == p;
        assert streamed[j] in streamed;
      }
    }
    forall i, j | 0 <= i < j < |streamed| ensures streamed[i].trail != streamed[j].trail {
      assert streamed[i] in streamed && streamed[j] in streamed && RowLess(streamed[i], streamed[j]);
    }
  }

  lemma DictContents(full: State, dict: seq<OutRow>)
    requires Wf(full) && DictRows(full, dict)
    ensures forall p :: p in Written(dict) <==> p.0 in full.store.at && p.1 == full.store.at[p.0]
    ensures forall i, j :: 0 <= i < j < |dict| ==> dict[i].trail != dict[j].trail
  {
    forall p: (string, Pair)
      ensures p in Written(dict) <==> p.0 in full.store.at && p.1 == full.store.at[p.0]
    {
      if p.0 in full.store.at && p.1 == full.store.at[p.0] {
        var i :| 0 <= i < |full.store.order| && full.store.order[i] == p.0;
        assert Written(dict)[i] == p;
      }
    }
  }

  /** Both builds write the same scores in the same order, whatever the rows. */
  lemma SameScores(full: State, a: seq<(string, int)>, b: seq<(string, int)>)
    requires AreScores(full, a) && AreScores(full, b)
    ensures a == b
  {
    ScoreLessStrict();
    Sorting.SortedUnique(ScoreLess, a, b);
  }

  /** The two files are the same, row by row, exactly when the one dict ends up in the order of its stamps. */
  lemma SameOrder(full: State, streamed: seq<OutRow>, dict: seq<OutRow>)
    requires Wf(full) && StreamedRows(full, streamed) && DictRows(full, dict)
    ensures Written(streamed) == Written(dict) <==> Sorting.Sorted(RowLess, Rows(full))
  {
    RowsAre(full);
    if Sorting.Sorted(RowLess, Rows(full)) {
      RowLessStrict();
      Sorting.SortedUnique(RowLess, streamed, Rows(full));
    }
    if Written(streamed) == Written(dict) {
      assert |streamed| == |Written(streamed)| == |Rows(full)|;
      forall i | 0 <= i < |streamed| ensures streamed[i] == Rows(full)[i] {
        assert streamed[i] in streamed;
        assert Written(streamed)[i] == Written(dict)[i];
      }
      assert streamed == Rows(full);
    }
  }

  /** The files are the same whenever every inserting visit of the cleanup starts from a merge-phase stamp. */
  lemma SameOrderWhenOrderly(e: Env, rows: seq<Row>, streamed: seq<OutRow>, dict: seq<OutRow>)
    requires |rows| <= MAX_ROWS && Orderly(e.rules, Number(rows)) && Wf(Full(e, rows))
    requires StreamedRows(Full(e, rows), streamed) && DictRows(Full(e, rows), dict)
    ensures Written(streamed) == Written(dict)
  {
    InNumber(rows);
    BuildOrdered(e.rules, Number(rows), 0, |rows|);
    OrderedRows(Full(e, rows), 0, |rows|);
    SameOrder(Full(e, rows), streamed, dict);
  }

  /** In particular whenever the cleanup renames none of the rows' keys. */
  lemma SameOrderWhenStill(e: Env, rows: seq<Row>, streamed: seq<OutRow>, dict: seq<OutRow>)
    requires |rows| <= MAX_ROWS && (forall i :: 0 <= i < |rows| ==> Still(rows[i].key)) && Wf(Full(e, rows))
    requires StreamedRows(Full(e, rows), streamed) && DictRows(Full(e, rows), dict)
    ensures Written(streamed) == Written(dict)
  {
    hide Still, Full, Orderly, Wf;
    InNumber(rows);
    StillOrderly(e.rules, Number(rows));
    SameOrderWhenOrderly(e, rows, streamed, dict);
  }

  method FeedBoth(one: OneDictBuild, stream: Stream, source: Source)
    requires one.Valid() && stream.Valid() && one.env == stream.env
    modifies one, one.one, stream, stream.bits
    ensures one.Valid() && stream.Valid()
    ensures one.rows == old(one.rows) + RowsOf(one.env, source)
    ensures stream.rows == old(stream.rows) + RowsOf(one.env, source)
  {
    hide OneDictBuild.Valid, Stream.Valid, MergeRows;
    match source
    case Results(items) =>
      one.MergeSource(items);
      stream.MergeSource(items);
    case OneRemote(key, value, check) =>
      one.RemoteRow(key, value, check);
      stream.RemoteRow(key, value, check);
    case OneSet(key, value) =>
      one.SetRow(key, value);
      stream.SetRow(key, value);
  }

  method FeedAll(e: Env, sources: seq<Source>) returns (one: OneDictBuild, stream: Stream)
    ensures fresh(one) && fresh(one.one) && fresh(stream) && fresh(stream.bits)
    ensures one.Valid() && stream.Valid() && one.env == stream.env == e
    ensures one.rows == stream.rows == AllRows(e, sources)
  {
    one := new OneDictBuild(e);
    stream := new Stream(e);
    hide OneDictBuild.Valid, Stream.Valid, MergeRows;
    for i := 0 to |sources|
      invariant one.Valid() && stream.Valid()
      invariant one.rows == stream.rows == AllRows(e, sources[..i])
    {
      assert sources[..i + 1] == sources[..i] + [sources[i]];
      MoreRows(e, sources[..i], sources[i]);
      FeedBoth(one, stream, sources[i]);
    }
    assert sources[..|sources|] == sources;
  }

  /** With a folding that works character by character only remote rows can fail what the builds count on. */
  lemma ProperWhenCharwise(e: Env, f: char -> string, rows: seq<Row>)
    requires TrailFold.Charwise(e.rules.names, f)
    ensures AllProper(e, rows) <==> forall i :: 0 <= i < |rows| && rows[i].kind == Remote ==>
      Group(e.rules.names, rows[i].check) == Group(e.rules.names, rows[i].key)
  {
    hide TrailFold.Charwise, Group, Foreseen;
    forall i | 0 <= i < |rows| ensures Foreseen(e.rules.names, rows[i].key) { TrailFold.AllForeseen(e.rules.names, f, rows[i].key); }
    if forall i :: 0 <= i < |rows| && rows[i].kind == Remote ==> Group(e.rules.names, rows[i].check) == Group(e.rules.names, rows[i].key) {
      forall i | 0 <= i < |rows| ensures Proper(e.rules.names, rows[i]) { }
    }
    if AllProper(e, rows) {
      forall i | 0 <= i < |rows| && rows[i].kind == Remote ensures Group(e.rules.names, rows[i].check) == Group(e.rules.names, rows[i].key) {
        assert Proper(e.rules.names, rows[i]);
      }
    }
  }

  /** Both builds of the same sources. */
  method BuildBoth(e: Env, sources: seq<Source>)
    returns (dict: seq<OutRow>, dictScores: seq<(string, int)>, streamed: seq<OutRow>, streamedScores: seq<(string, int)>)
    requires AllProper(e, AllRows(e, sources)) && |AllRows(e, sources)| <= MAX_ROWS
    ensures Wf(Full(e, AllRows(e, sources)))
    ensures DictRows(Full(e, AllRows(e, sources)), dict) && AreScores(Full(e, AllRows(e, sources)), dictScores)
    ensures StreamedRows(Full(e, AllRows(e, sources)), streamed)
    ensures dictScores == streamedScores
    ensures forall p :: p in Written(streamed) <==> p in Written(dict)
    ensures Written(streamed) == Written(dict) <==> Sorting.Sorted(RowLess, Rows(Full(e, AllRows(e, sources))))
    ensures Orderly(e.rules, Number(AllRows(e, sources))) ==> Written(streamed) == Written(dict)
  {
    hide AllProper, Wf, Rows, Orderly, OneDictBuild.Valid, Stream.Valid, Written, AllRows;
    var one, stream := FeedAll(e, sources);
    dict, dictScores := one.Build();
    assert |stream.hashes| == |stream.rows| by { stream.Counts(); }
    AlikeItself(stream.rows, stream.hashes, stream.repeat);
    streamed, streamedScores := stream.Build(stream.rows);
    BothBuilt(e, AllRows(e, sources), dict, dictScores, streamed, streamedScores);
  }

  lemma BothBuilt(e: Env, rows: seq<Row>, dict: seq<OutRow>, dictScores: seq<(string, int)>,
                  streamed: seq<OutRow>, streamedScores: seq<(string, int)>)
    requires Wf(Full(e, rows)) && |rows| <= MAX_ROWS
    requires DictRows(Full(e, rows), dict) && StreamedRows(Full(e, rows), streamed)
    requires AreScores(Full(e, rows), dictScores) && AreScores(Full(e, rows), streamedScores)
    ensures dictScores == streamedScores
    ensures forall p :: p in Written(streamed) <==> p in Written(dict)
    ensures Written(streamed) == Written(dict) <==> Sorting.Sorted(RowLess, Rows(Full(e, rows)))
    ensures Orderly(e.rules, Number(rows)) ==> Written(streamed) == Written(dict)
  {
    SameScores(Full(e, rows), dictScores, streamedScores);
    SameContents(Full(e, rows), streamed, dict);
    SameOrder(Full(e, rows), streamed, dict);
    if Orderly(e.rules, Number(rows)) { SameOrderWhenOrderly(e, rows, streamed, dict); }
  }

  // ---- the caller's side

  lemma {:induction false} StripLeadDots(s: string)
    ensures StripLead(StripDots(s)) == StripLead(s)
  {
    if "." <= s {
      assert s[0] == '.';
      StripLeadDots(s[1..]);
    }
  }

  /** `key.strip('.')` */
  function Strip(key: string): string { StripTrail(StripDots(key)) }

  lemma {:induction false} StripTrailOver(p: string, u: string)
    requires StripTrail(u) != []
    ensures StripTrail(p + u) == p + StripTrail(u)
    decreases |u|
  {
    if u[|u| - 1] == '.' {
      assert (p + u)[..|p + u| - 1] == p + u[..|u| - 1];
      StripTrailOver(p, u[..|u| - 1]);
    }
  }

  lemma {:induction false} StripTrailHead(u: string)
    requires u != [] && u[0] != '.'
    ensures StripTrail(u) != [] && StripTrail(u) <= u
  {
    if u[|u| - 1] == '.' {
      StripTrailHead(u[..|u| - 1]);
    }
  }

  /** What `StripLead` takes. */
  function Lead(s: string): string {
    if WWW <= s then WWW + Lead(s[4..])
    else if "." <= s then "." + Lead(s[1..])
    else ""
  }

  lemma DotIsNotWww(s: string)
    ensures "." <= s <==> s != "" && s[0] == '.'
    ensures WWW <= s ==> s[0] == 'w' && s == WWW + s[4..]
    ensures "." <= s ==> s == "." + s[1..]
  {
  }

  lemma {:induction false} LeadAndRest(s: string)
    ensures s == Lead(s) + StripLead(s)
    ensures !(WWW <= StripLead(s)) && !("." <= StripLead(s))
  {
    hide StripLead;
    DotIsNotWww(s);
    if WWW <= s {
      LeadAndRest(s[4..]);
      LeadOnce(WWW, s[4..]);
      assert WWW + (Lead(s[4..]) + StripLead(s[4..])) == (WWW + Lead(s[4..])) + StripLead(s[4..]);
    } else if "." <= s {
      LeadAndRest(s[1..]);
      LeadOnce(".", s[1..]);
      assert "." + (Lead(s[1..]) + StripLead(s[1..])) == ("." + Lead(s[1..])) + StripLead(s[1..]);
    } else {
      LeadNone(s);
    }
  }

  lemma {:induction false} LeadThenOther(s: string, u: string)
    requires u != [] && !(WWW <= u) && !("." <= u)
    ensures StripLead(Lead(s) + u) == u
  {
    hide StripLead;
    if WWW <= s {
      var rest := Lead(s[4..]) + u;
      LeadThenOther(s[4..], u);
      LeadOnce(WWW, rest);
      assert Lead(s) + u == WWW + rest;
    } else if "." <= s {
      var rest := Lead(s[1..]) + u;
      LeadThenOther(s[1..], u);
      LeadOnce(".", rest);
      assert Lead(s) + u == "." + rest;
    } else {
      assert Lead(s) + u == u;
      LeadNone(u);
    }
  }

  lemma LeadNone(u: string)
    requires !(WWW <= u) && !("." <= u)
    ensures StripLead(u) == u
  {
  }

  lemma LeadOnce(p: string, t: string)
    requires p == WWW || p == "."
    ensures StripLead(p + t) == StripLead(t)
  {
    assert p == WWW ==> (p + t)[4..] == t;
    assert p == "." ==> (p + t)[1..] == t && (p + t)[0] == '.';
  }

  /** Stripped of its outer dots, a name keeps its group unless only "www." and dots are left of it. */
  lemma StripKeepsCore(s: string)
    requires StripLead(s) != ""
    ensures StripTrail(StripLead(StripTrail(s))) == StripTrail(StripLead(s))
  {
    var u := StripLead(s);
    LeadAndRest(s);
    StripTrailHead(u);
    StripTrailOver(Lead(s), u);
    LeadThenOther(s, StripTrail(u));
    StripTrailTwice(u);
  }

  lemma {:induction false} StripTrailTwice(u: string)
    ensures StripTrail(StripTrail(u)) == StripTrail(u)
  {
    if u != [] && u[|u| - 1] == '.' { StripTrailTwice(u[..|u| - 1]); }
  }

  lemma {:induction false} StripTrailNothing(s: string, t: string)
    requires StripTrail(t) == ""
    ensures StripTrail(s + t) == StripTrail(s)
    decreases |t|
  {
    if t != "" {
      assert (s + t)[..|s + t| - 1] == s + t[..|t| - 1];
      StripTrailNothing(s, t[..|t| - 1]);
    } else {
      assert s + t == s;
    }
  }

  /** Of a name made of "www." and dots only, outer dots apart, "www" is left. */
  lemma {:induction false} StripLeavesWww(s: string)
    requires StripLead(s) == ""
    ensures StripTrail(s) == "" || StripLead(StripTrail(s)) == "www"
  {
    if WWW <= s {
      var t := s[4..];
      StripLeavesWww(t);
      assert s == WWW + t;
      if StripTrail(t) == "" {
        StripTrailNothing(WWW, t);
        assert WWW[..3] == "www";
        assert StripTrail(WWW) == StripTrail("www") == "www";
      } else {
        StripTrailOver(WWW, t);
        assert (WWW + StripTrail(t))[4..] == StripTrail(t);
      }
    } else if "." <= s {
      var t := s[1..];
      StripLeavesWww(t);
      assert s == "." + t;
      if StripTrail(t) == "" {
        StripTrailNothing(".", t);
        assert "."[..0] == "";
        assert StripTrail(".") == StripTrail("") == "";
      } else {
        StripTrailOver(".", t);
        assert ("." + StripTrail(t))[1..] == StripTrail(t);
        assert !(WWW <= "." + StripTrail(t)) by { assert ("." + StripTrail(t))[0] == '.'; }
      }
    }
  }

  lemma {:induction false} StripDotsAre(s: string)
    ensures LowerAscii(StripDots(s)) == StripDots(LowerAscii(s))
    ensures forall c :: c in StripDots(s) ==> c in s
    ensures '?' in s ==> '?' in StripDots(s)
    ensures StripLead(Cut(StripDots(s))) == StripLead(Cut(s))
    ensures IsAscii(s) ==> IsAscii(StripDots(s))
  {
    if "." <= s {
      var t := s[1..];
      assert s == "." + t;
      assert LowerAscii(s)[1..] == LowerAscii(t);
      StripDotsAre(t);
      assert Cut(s) == "." + Cut(t);
      assert ("." + Cut(t))[1..] == Cut(t) && ("." + Cut(t))[0] == '.';
      if IsAscii(s) { SuffixAscii(s, 1); }
    }
  }

  lemma {:induction false} StripTrailIs(s: string)
    ensures LowerAscii(StripTrail(s)) == StripTrail(LowerAscii(s))
    ensures forall c :: c in StripTrail(s) ==> c in s
    ensures '?' in s ==> '?' in StripTrail(s)
    ensures '?' in s ==> Cut(StripTrail(s)) == Cut(s)
    ensures IsAscii(s) ==> IsAscii(StripTrail(s))
  {
    if s != [] && s[|s| - 1] == '.' {
      var t := s[..|s| - 1];
      assert s == t + ".";
      assert LowerAscii(s)[..|s| - 1] == LowerAscii(t);
      StripTrailIs(t);
      if '?' in t { CutStops(t, "."); }
    }
  }

  lemma {:induction false} CutStops(s: string, t: string)
    requires '?' in s
    ensures Cut(s + t) == Cut(s)
  {
    if s[0] != '?' {
      assert (s + t)[1..] == s[1..] + t;
      CutStops(s[1..], t);
    }
  }

  /**
   The caller checks a remote line as written and stores it without its outer dots. The two forms
   are in one group exactly unless the line is only "www." and dots: the condition under which the
   streaming build may take the row.
   */
  lemma RemoteFormsGroup(n: Names, line: string)
    requires IsAscii(line) && '/' !in line
    ensures Group(n, Strip(line)) == Group(n, line)
      <==> '?' in line || StripLead(LowerAscii(line)) != "" || Strip(line) == ""
  {
    hide StripDots, Cut, Collapse, LowerAscii;
    var y := StripDots(line);
    StripDotsAre(line);
    StripTrailIs(y);
    StripDotsAre(LowerAscii(line));
    StripTrailIs(StripDots(LowerAscii(line)));
    GroupUnconditional(n, line);
    GroupUnconditional(n, Strip(line));
    var L := LowerAscii(line);
    assert LowerAscii(Strip(line)) == Strip(L);
    LowerKeeps(line);
    LowerKeeps(y);
    LowerKeeps(Strip(line));
    CutHasNoQuery(L);
    CutHasNoQuery(Strip(L));
    CollapseNothing(Cut(L));
    CollapseNothing(Cut(Strip(L)));
    assert Group(n, line) == StripTrail(StripLead(Cut(L)));
    assert Group(n, Strip(line)) == StripTrail(StripLead(Cut(Strip(L))));
    if '?' !in line {
      CutNothing(L);
      CutNothing(Strip(L));
      StripLeadDots(L);
      if StripLead(L) != "" {
        StripKeepsCore(StripDots(L));
      } else {
        StripLeavesWww(StripDots(L));
        assert Strip(line) == "" <==> Strip(L) == "";
        assert StripTrail("www") == "www";
      }
    }
  }

  lemma LowerKeeps(s: string)
    ensures '?' in LowerAscii(s) <==> '?' in s
    ensures '/' in LowerAscii(s) <==> '/' in s
  {
    forall c | c == '?' || c == '/' ensures c in LowerAscii(s) <==> c in s {
      if c in s { var i :| 0 <= i < |s| && s[i] == c; assert LowerAscii(s)[i] == c; }
      if c in LowerAscii(s) { var i :| 0 <= i < |s| && LowerAscii(s)[i] == c; assert s[i] == c; }
    }
  }
}
