/**
 Which rows of a day make one threat, and what a threat and the totals say of their rows (html/js/engine.js). The
 markers, columns and bounds are spelled out here, apart from the rules themselves.
 */
module ThreatRows {
  import opened Text
  import opened Collect
  import opened Threats
  import Engine

  // ---- the text a row is grouped by

  predicate IsDns(row: Row) requires |row| >= 11 { Contains(row[9], " dns exhaustion ") }

  predicate IsDga(row: Row) requires |row| >= 11 { Contains(row[9], " dga ") }

  predicate IsHeuristic(row: Row) requires |row| >= 11 { Contains(row[10], "heuristic") }

  /** What a trail's sources are counted under: the trail, with the info key for a heuristic one. */
  function FloodText(env: Env, row: Row): string
    requires |row| >= 11
  {
    env.normTrail(row[8]) + if IsHeuristic(row) then "\U{1F}" + env.infoKey(row[9]) else ""
  }

  /** The two sides of the text a row is grouped by. */
  function Left(env: Env, flood: set<string>, row: Row): string
    requires |row| >= 11
  {
    if IsDns(row) then env.infoKey(row[9]) else if FloodText(env, row) in flood then "..." else row[2]
  }

  function Right(env: Env, flood: set<string>, row: Row): string
    requires |row| >= 11
  {
    if IsDns(row) then env.normTrail(row[8])
    else if FloodText(env, row) in flood then FloodText(env, row)
    else if IsDga(row) then env.infoKey(row[9])
    else env.normTrail(row[8]) + if IsHeuristic(row) then env.infoKey(row[9]) else ""
  }

  lemma KeyIs(env: Env, flood: set<string>, row: Row)
    requires |row| >= 11
    ensures FloodKey(env, row) == FloodText(env, row)
    ensures Key(env, flood, row).0 == Left(env, flood, row) + "~>" + Right(env, flood, row)
    ensures Key(env, flood, row).1 == if IsDns(row) then Dnsx else if FloodText(env, row) in flood then Flood else if IsDga(row) then Dga else Plain
  {
    hide Contains;
    assert env.normTrail(row[8]) + "" == env.normTrail(row[8]);
    assert row[2] + "~>" + env.normTrail(row[8]) + env.infoKey(row[9]) == row[2] + "~>" + (env.normTrail(row[8]) + env.infoKey(row[9]));
    assert env.normTrail(row[8]) + "\U{1F}" + env.infoKey(row[9]) == env.normTrail(row[8]) + ("\U{1F}" + env.infoKey(row[9]));
  }

  /** Without the separator in its left side a text has one left and one right side. */
  lemma SidesApart(a: string, b: string, c: string, d: string)
    requires !Contains(a, "~>") && !Contains(c, "~>") && a + "~>" + b == c + "~>" + d
    ensures a == c && b == d
  {
    if |a| < |c| { OneSide(a, b, c, d); } else if |c| < |a| { OneSide(c, d, a, b); } else {
      assert a == (a + "~>" + b)[..|a|] && c == (c + "~>" + d)[..|c|];
      assert b == (a + "~>" + b)[|a| + 2..] && d == (c + "~>" + d)[|c| + 2..];
    }
  }

  lemma OneSide(a: string, b: string, c: string, d: string)
    requires |a| < |c| && a + "~>" + b == c + "~>" + d
    ensures Contains(c, "~>")
  {
    var s, t := a + "~>" + b, c + "~>" + d;
    assert s[|a|] == '~' && s[|a| + 1] == '>';
    assert c[|a|] == t[|a|] == '~' && t[|c|] == '~';
    if |c| > |a| + 1 {
      assert c[|a| + 1] == t[|a| + 1];
      assert c[|a|..][..2] == "~>" && c[|a|..] == "~>" + c[|a|..][2..];
      assert Occurs(c, "~>", |a|);
    }
  }

  // ---- the threat a row lands in

  function After(env: Env, flood: set<string>, rows: seq<Row>): Groups { GroupRows(env, flood, NO_GROUPS, rows) }

  /** Row i adds to the count of threat p. */
  predicate Lands(env: Env, flood: set<string>, rows: seq<Row>, i: nat, p: nat)
    requires i < |rows|
  {
    var (g, h) := (After(env, flood, rows[..i]).threats, After(env, flood, rows[..i + 1]).threats);
    p < |h| && (p >= |g| || h[p].count != g[p].count)
  }

  /** What one row does to a list of threats: it lands in threat p, or in none. */
  ghost predicate Adds(env: Env, flood: set<string>, g: Groups, h: Groups, row: Row, p: nat) {
    && |row| >= 11
    && p < |h.threats| && |g.threats| <= |h.threats| <= |g.threats| + 1 && (|h.threats| == |g.threats| + 1 ==> p == |g.threats|)
    && (forall q :: 0 <= q < |g.threats| && q != p ==> h.threats[q] == g.threats[q])
    && h.threats[p].key == Left(env, flood, row) + "~>" + Right(env, flood, row)
    && (p < |g.threats| ==> h.threats[p].key == g.threats[p].key && h.threats[p].count > g.threats[p].count)
    && (p == |g.threats| ==> h.threats[p].count > 0)
  }

  /** The row counts, and no threat was refused for it. */
  predicate Taken(env: Env, g: Groups, h: Groups, row: Row) { Counts(env, row) && h.dropped == g.dropped }

  /** The threat takes the row in, as the threat it was or one the row opens; the row is kept if there is room for it. */
  ghost predicate Stores(env: Env, g: Groups, h: Groups, row: Row, p: nat) {
    exists key :: StoresUnder(env, g, h, row, p, key)
  }

  predicate StoresUnder(env: Env, g: Groups, h: Groups, row: Row, p: nat, key: (string, Kind)) {
    && |row| >= 11 && p < |h.threats| && p <= |g.threats|
    && var t := if p < |g.threats| then g.threats[p] else Open(env, key, row);
      && h.threats[p] == Extend(env, t, row, g.stored < 60000)
      && h.stored == if g.stored < 60000 && |t.events| < 500 then g.stored + 1 else g.stored
  }

  lemma RowAdds(env: Env, flood: set<string>, g: Groups, row: Row) returns (p: nat)
    requires Sound(g)
    ensures var h := GroupRow(env, flood, g, row);
      && Sound(h)
      && (Taken(env, g, h, row) ==> Stores(env, g, h, row, p))
      && g.stored <= h.stored <= 60000
      && (if Taken(env, g, h, row) then Adds(env, flood, g, h, row, p) else h.threats == g.threats)
  {
    hide Sound, Key, Weight, Left, Right, Adds, Stores, Grow, Store;
    GroupRowSound(env, flood, g, row);
    SoundStored(GroupRow(env, flood, g, row));
    p := 0;
    if Counts(env, row) {
      var key := Key(env, flood, row);
      if Known(g, key.0) || |g.threats| < MAX_THREATS {
        p := Grow(env, g, key, row).byKey[key.0];
        RowStores(env, g, key, row);
        GrownAdds(env, flood, g, row);
      }
    }
  }

  lemma GrownAdds(env: Env, flood: set<string>, g: Groups, row: Row)
    requires Sound(g) && |row| >= 11
    requires var key := Key(env, flood, row); Known(g, key.0) || |g.threats| < MAX_THREATS
    ensures var key := Key(env, flood, row); var grown := Grow(env, g, key, row); var p := grown.byKey[key.0];
      var h := Store(env, grown, p, row);
      Adds(env, flood, g, h, row, p) && h.stored >= g.stored && h.dropped == g.dropped
  {
    hide Sound, Key, Weight, Left, Right;
    KeyIs(env, flood, row);
    GrowSound(env, g, Key(env, flood, row), row);
  }

  lemma SoundStored(g: Groups)
    requires Sound(g)
    ensures g.stored <= 60000
  {
  }

  lemma RowStores(env: Env, g: Groups, key: (string, Kind), row: Row)
    requires Sound(g) && |row| >= 11 && (Known(g, key.0) || |g.threats| < MAX_THREATS)
    ensures var grown := Grow(env, g, key, row);
      Stores(env, g, Store(env, grown, grown.byKey[key.0], row), row, grown.byKey[key.0])
  {
    hide Sound, Extend, Open;
    var grown := Grow(env, g, key, row);
    var p := grown.byKey[key.0];
    assert !Known(g, key.0) ==> p == |g.threats| && grown.threats[p] == Open(env, key, row);
    assert StoresUnder(env, g, Store(env, grown, p, row), row, p, key);
  }

  /** Row i of a day, from the threats before it to those after it. */
  lemma DayAdds(env: Env, flood: set<string>, rows: seq<Row>, i: nat) returns (p: nat)
    requires i < |rows|
    ensures var (g, h) := (After(env, flood, rows[..i]), After(env, flood, rows[..i + 1]));
      && Sound(g) && Sound(h) && h == GroupRow(env, flood, g, rows[i])
      && (if Taken(env, g, h, rows[i]) then Adds(env, flood, g, h, rows[i], p) else h.threats == g.threats)
      && (Taken(env, g, h, rows[i]) ==> Stores(env, g, h, rows[i], p))
      && g.stored <= h.stored <= 60000
      && forall q: nat :: Lands(env, flood, rows, i, q) <==> Taken(env, g, h, rows[i]) && q == p
  {
    hide Sound, GroupRow, Adds, Taken, Stores;
    EveryEventCounted(env, flood, rows[..i]);
    assert rows[..i + 1][..i] == rows[..i];
    var g, h := After(env, flood, rows[..i]), After(env, flood, rows[..i + 1]);
    p := RowAdds(env, flood, g, rows[i]);
    if Taken(env, g, h, rows[i]) { AddsMoves(env, flood, g, h, rows[i], p); }
    forall q: nat ensures Lands(env, flood, rows, i, q) <==> Taken(env, g, h, rows[i]) && q == p {
      if Taken(env, g, h, rows[i]) && q != p && q < |h.threats| { AddsOther(env, flood, g, h, rows[i], p, q); }
    }
  }

  lemma AddsMoves(env: Env, flood: set<string>, g: Groups, h: Groups, row: Row, p: nat)
    requires Adds(env, flood, g, h, row, p)
    ensures h.threats != g.threats
    ensures p < |h.threats| && (p >= |g.threats| || h.threats[p].count != g.threats[p].count)
  {
    hide Left, Right;
  }

  lemma AddsOther(env: Env, flood: set<string>, g: Groups, h: Groups, row: Row, p: nat, q: nat)
    requires Adds(env, flood, g, h, row, p) && q < |h.threats| && q != p
    ensures q < |g.threats| && h.threats[q] == g.threats[q]
  {
    hide Left, Right;
  }

  /** Threats keep their places and their texts. */
  lemma {:induction false} KeysStay(env: Env, flood: set<string>, rows: seq<Row>, i: nat)
    requires i <= |rows|
    ensures var (g, h) := (After(env, flood, rows[..i]).threats, After(env, flood, rows).threats);
      |g| <= |h| && forall q :: 0 <= q < |g| ==> h[q].key == g[q].key
    decreases |rows|
  {
    hide After, Sound, Left, Right;
    if i == |rows| {
      assert rows[..i] == rows;
    } else {
      var front := rows[..|rows| - 1];
      KeysStay(env, flood, front, i);
      assert front[..i] == rows[..i] && rows[..|rows|] == rows;
      var p := DayAdds(env, flood, rows, |rows| - 1);
    }
  }

  /** A row that counts lands in exactly one threat, or is dropped; any other lands in none. */
  lemma LandsOnce(env: Env, flood: set<string>, rows: seq<Row>, i: nat) returns (p: nat)
    requires i < |rows|
    ensures var (g, h) := (After(env, flood, rows[..i]), After(env, flood, rows[..i + 1]));
      forall q: nat :: Lands(env, flood, rows, i, q) <==> Counts(env, rows[i]) && h.dropped == g.dropped && q == p
    ensures Lands(env, flood, rows, i, p) ==>
      && |rows[i]| >= 11 && p < |After(env, flood, rows).threats|
      && After(env, flood, rows).threats[p].key == Left(env, flood, rows[i]) + "~>" + Right(env, flood, rows[i])
  {
    hide After, Sound, GroupRow, Adds, Left, Right, Lands;
    p := DayAdds(env, flood, rows, i);
    KeysStay(env, flood, rows, i + 1);
    var g, h := After(env, flood, rows[..i]), After(env, flood, rows[..i + 1]);
    if Taken(env, g, h, rows[i]) { AddsText(env, flood, g, h, rows[i], p); }
  }

  lemma AddsText(env: Env, flood: set<string>, g: Groups, h: Groups, row: Row, p: nat)
    requires Adds(env, flood, g, h, row, p)
    ensures |row| >= 11 && p < |h.threats| && h.threats[p].key == Left(env, flood, row) + "~>" + Right(env, flood, row)
  {
    hide Left, Right;
  }

  /**
   Two rows of a day land in one threat exactly if both sides of their texts are equal, when no source and no info key
   holds the separator.
   */
  lemma SameThreat(env: Env, flood: set<string>, rows: seq<Row>, i: nat, j: nat, p: nat, q: nat)
    requires i < |rows| && j < |rows| && Lands(env, flood, rows, i, p) && Lands(env, flood, rows, j, q)
    requires forall k :: 0 <= k < |rows| && |rows[k]| >= 11 ==> !Contains(rows[k][2], "~>") && !Contains(env.infoKey(rows[k][9]), "~>")
    ensures |rows[i]| >= 11 && |rows[j]| >= 11
    ensures p == q <==> Left(env, flood, rows[i]) == Left(env, flood, rows[j]) && Right(env, flood, rows[i]) == Right(env, flood, rows[j])
  {
    hide After, Lands, Right, Contains;
    var p' := LandsOnce(env, flood, rows, i);
    var q' := LandsOnce(env, flood, rows, j);
    SoundKeys(env, flood, rows);
    LeftPlain(env, flood, rows[i]);
    LeftPlain(env, flood, rows[j]);
    if p == q {
      SidesApart(Left(env, flood, rows[i]), Right(env, flood, rows[i]), Left(env, flood, rows[j]), Right(env, flood, rows[j]));
    }
  }

  lemma LeftPlain(env: Env, flood: set<string>, row: Row)
    requires |row| >= 11 && !Contains(row[2], "~>") && !Contains(env.infoKey(row[9]), "~>")
    ensures !Contains(Left(env, flood, row), "~>")
  {
    forall i | 0 <= i <= 3 ensures !Occurs("...", "~>", i) { if i < 3 { assert "..."[i..][0] == '.'; } }
  }

  lemma SoundKeys(env: Env, flood: set<string>, rows: seq<Row>)
    ensures var t := After(env, flood, rows).threats;
      forall p, q :: 0 <= p < |t| && 0 <= q < |t| && t[p].key == t[q].key ==> p == q
  {
    hide GroupRows;
    EveryEventCounted(env, flood, rows);
  }

  // ---- what a row weighs

  lemma OneOrMore(text: string)
    ensures |Split(text, ',')| >= 1 && (',' !in text ==> |Split(text, ',')| == 1)
  {
    if ',' !in text { SplitWhole(text, ','); }
  }

  lemma {:induction false} WidestIs(row: Row, i: nat, w: nat)
    requires |row| >= 11 && 3 <= i <= 7 && w >= 1
    ensures var r := Widest(row, i, w);
      && r >= w && (forall c :: i <= c < 7 ==> |Split(row[c], ',')| <= r)
      && (r == w || exists c :: i <= c < 7 && |Split(row[c], ',')| == r)
    decreases 7 - i
  {
    hide Split;
    if i < 7 {
      OneOrMore(row[i]);
      WidestIs(row, i + 1, if ',' in row[i] && |Split(row[i], ',')| > w then |Split(row[i], ',')| else w);
    }
  }

  /** A row stands for as many events as the longest list in its ports, addresses and protocol has parts, and those its info adds. */
  lemma WeightIs(env: Env, row: Row)
    requires |row| >= 11
    ensures Weight(env, row) >= env.more(row[9])
    ensures var n := Weight(env, row) - env.more(row[9]);
      && |Split(row[3], ',')| <= n && |Split(row[4], ',')| <= n && |Split(row[5], ',')| <= n && |Split(row[6], ',')| <= n
      && n in {|Split(row[3], ',')|, |Split(row[4], ',')|, |Split(row[5], ',')|, |Split(row[6], ',')|}
  {
    WidestIs(row, 3, 1);
  }

  /** The events of the rows that count and meet a test. */
  function Events(env: Env, rows: seq<Row>, test: Row -> bool): nat {
    if rows == [] then 0
    else
      var row := rows[|rows| - 1];
      Events(env, rows[..|rows| - 1], test) + if Counts(env, row) && test(row) then Weight(env, row) else 0
  }

  // ---- the totals

  function Any(): Row -> bool { row => true }

  function OfHour(env: Env, h: nat): Row -> bool { row => |row| > 0 && env.hourOf(row[0]) == h }

  function OfSource(k: string): Row -> bool { row => |row| > 2 && row[2] == k }

  function OfTrail(env: Env, k: string): Row -> bool { row => |row| > 8 && env.normTrail(row[8]) == k }

  function OfType(k: string): Row -> bool { row => |row| > 7 && row[7] == k }

  function OfTypeHour(env: Env, k: string, h: nat): Row -> bool { row => |row| > 7 && row[7] == k && env.hourOf(row[0]) == h }

  function CountAt(m: map<string, nat>, k: string): nat { if k in m then m[k] else 0 }

  lemma EventsNext(env: Env, rows: seq<Row>, row: Row, test: Row -> bool)
    ensures Events(env, rows + [row], test) == Events(env, rows, test) + if Counts(env, row) && test(row) then Weight(env, row) else 0
  {
    assert (rows + [row])[..|rows|] == rows;
  }

  /** The sources that a flood text was seen from. */
  ghost predicate SeenFrom(env: Env, rows: seq<Row>, fk: string, src: string) {
    exists i :: 0 <= i < |rows| && Counts(env, rows[i]) && FloodText(env, rows[i]) == fk && rows[i][2] == src
  }

  /** The totals by hour, source, trail and type: each the events of the rows with this value in its column. */
  ghost predicate HoursOf(env: Env, rows: seq<Row>, t: Totals) {
    && t.events == Events(env, rows, Any())
    && |t.hours| == 24 && (forall h: nat :: h < 24 ==> t.hours[h] == Events(env, rows, OfHour(env, h)))
  }

  ghost predicate TalliesOf(env: Env, rows: seq<Row>, t: Totals) {
    && (forall k :: CountAt(t.sources, k) == Events(env, rows, OfSource(k)))
    && (forall k :: CountAt(t.trails, k) == Events(env, rows, OfTrail(env, k)))
    && (forall k :: CountAt(t.types, k) == Events(env, rows, OfType(k)))
  }

  ghost predicate TypeHoursOf(env: Env, rows: seq<Row>, t: Totals) {
    && (forall k :: |HoursAt(t.typeHours, k)| == 24)
    && (forall k, h: nat :: h < 24 ==> HoursAt(t.typeHours, k)[h] == Events(env, rows, OfTypeHour(env, k, h)))
  }

  ghost predicate SourcesOf(env: Env, rows: seq<Row>, t: Totals) {
    forall k, src :: src in SrcsAt(t.trailSrcs, k) <==> SeenFrom(env, rows, k, src)
  }

  lemma HoursNext(env: Env, rows: seq<Row>, row: Row, t: Totals)
    requires HoursOf(env, rows, t)
    ensures HoursOf(env, rows + [row], TotalRow(env, t, row))
  {
    hide Weight, FloodKey;
    var t' := TotalRow(env, t, row);
    EventsNext(env, rows, row, Any());
    forall h: nat | h < 24 ensures t'.hours[h] == Events(env, rows + [row], OfHour(env, h)) { EventsNext(env, rows, row, OfHour(env, h)); }
  }

  lemma TalliesNext(env: Env, rows: seq<Row>, row: Row, t: Totals)
    requires TalliesOf(env, rows, t)
    ensures TalliesOf(env, rows + [row], TotalRow(env, t, row))
  {
    hide Weight, FloodKey;
    var t' := TotalRow(env, t, row);
    forall k ensures CountAt(t'.sources, k) == Events(env, rows + [row], OfSource(k)) { EventsNext(env, rows, row, OfSource(k)); }
    forall k ensures CountAt(t'.trails, k) == Events(env, rows + [row], OfTrail(env, k)) { EventsNext(env, rows, row, OfTrail(env, k)); }
    forall k ensures CountAt(t'.types, k) == Events(env, rows + [row], OfType(k)) { EventsNext(env, rows, row, OfType(k)); }
  }

  lemma TypeHoursNext(env: Env, rows: seq<Row>, row: Row, t: Totals)
    requires TypeHoursOf(env, rows, t)
    ensures TypeHoursOf(env, rows + [row], TotalRow(env, t, row))
  {
    hide Weight, FloodKey;
    var t' := TotalRow(env, t, row);
    forall k ensures |HoursAt(t'.typeHours, k)| == 24 && |HoursAt(t.typeHours, k)| == 24 { assert |HoursAt(t.typeHours, k)| == 24; }
    forall k, h: nat | h < 24 ensures HoursAt(t'.typeHours, k)[h] == Events(env, rows + [row], OfTypeHour(env, k, h)) {
      EventsNext(env, rows, row, OfTypeHour(env, k, h));
    }
  }

  lemma SourcesNext(env: Env, rows: seq<Row>, row: Row, t: Totals)
    requires SourcesOf(env, rows, t)
    ensures SourcesOf(env, rows + [row], TotalRow(env, t, row))
  {
    hide Weight, FloodKey, FloodText;
    var t', all := TotalRow(env, t, row), rows + [row];
    if Counts(env, row) { KeyIs(env, {}, row); }
    forall k, src ensures src in SrcsAt(t'.trailSrcs, k) <==> SeenFrom(env, all, k, src) {
      assert SeenFrom(env, all, k, src) <==> SeenFrom(env, rows, k, src) || (Counts(env, row) && FloodText(env, row) == k && row[2] == src) by {
        assert all[|rows|] == row;
        if i :| 0 <= i < |rows| && Counts(env, rows[i]) && FloodText(env, rows[i]) == k && rows[i][2] == src { assert all[i] == rows[i]; }
      }
    }
  }

  lemma NoTotalsYet(env: Env)
    ensures HoursOf(env, [], NO_TOTALS) && TalliesOf(env, [], NO_TOTALS) && TypeHoursOf(env, [], NO_TOTALS) && SourcesOf(env, [], NO_TOTALS)
  {
  }

  /** The totals of a day. */
  lemma {:induction false} TotalsAre(env: Env, rows: seq<Row>)
    ensures var t := TotalRows(env, NO_TOTALS, rows);
      HoursOf(env, rows, t) && TalliesOf(env, rows, t) && TypeHoursOf(env, rows, t) && SourcesOf(env, rows, t)
  {
    hide TotalRow, HoursOf, TalliesOf, TypeHoursOf, SourcesOf;
    if rows == [] {
      NoTotalsYet(env);
    } else {
      var front, row := rows[..|rows| - 1], rows[|rows| - 1];
      TotalsAre(env, front);
      assert front + [row] == rows;
      var t := TotalRows(env, NO_TOTALS, front);
      HoursNext(env, front, row, t);
      TalliesNext(env, front, row, t);
      TypeHoursNext(env, front, row, t);
      SourcesNext(env, front, row, t);
    }
  }

  /** The flood set of a day: the texts seen from more than fifty sources. */
  lemma FloodIs(env: Env, rows: seq<Row>, fk: string, srcs: set<string>)
    requires forall src :: src in srcs <==> SeenFrom(env, rows, fk, src)
    ensures fk in Full(env, rows).flood <==> |srcs| > 50
  {
    hide HoursOf, TalliesOf, TypeHoursOf, SeenFrom, TotalRows;
    TotalsAre(env, rows);
    var seen := SrcsAt(Full(env, rows).totals.trailSrcs, fk);
    assert seen == srcs;
  }

  // ---- what a threat says of the rows that landed in it

  function Landed(env: Env, flood: set<string>, rows: seq<Row>, p: nat): seq<Row> {
    if rows == [] then []
    else
      var last := |rows| - 1;
      Landed(env, flood, rows[..last], p) + if Lands(env, flood, rows, last, p) then [rows[last]] else []
  }

  /** The distinct values of a column, comma lists taken apart. */
  function Column(rows: seq<Row>, c: nat): Values
    requires forall i :: 0 <= i < |rows| ==> c < |rows[i]|
  {
    if rows == [] then NONE_YET else TakeAll(Column(rows[..|rows| - 1], c), Split(rows[|rows| - 1][c], ','))
  }

  ghost predicate AllCount(env: Env, rows: seq<Row>) { forall i :: 0 <= i < |rows| ==> Counts(env, rows[i]) }

  /** A threat of these rows: opened by the first, with their events by hour, their first and last times and their values. */
  ghost predicate ThreatOf(env: Env, t: Threat, rows: seq<Row>) {
    && rows != [] && AllCount(env, rows)
    && t.head == rows[0] && t.sev == env.severity(rows[0][9], rows[0][10]) && t.uid == env.uid(t.key, t.kind)
    && Counted(env, t, rows) && Timed(t, rows) && Valued(t, rows)
  }

  ghost predicate Counted(env: Env, t: Threat, rows: seq<Row>) {
    && t.count == Events(env, rows, Any())
    && |t.hours| == 24 && (forall h: nat :: h < 24 ==> t.hours[h] == Events(env, rows, OfHour(env, h)))
  }

  ghost predicate Timed(t: Threat, rows: seq<Row>)
    requires forall i :: 0 <= i < |rows| ==> |rows[i]| >= 11
  {
    && (exists i :: 0 <= i < |rows| && rows[i][0] == t.first) && (forall i :: 0 <= i < |rows| ==> !Less(rows[i][0], t.first))
    && (exists i :: 0 <= i < |rows| && rows[i][0] == t.last) && (forall i :: 0 <= i < |rows| ==> !Less(t.last, rows[i][0]))
  }

  /** Sources, source ports, destinations, their ports, protocols and sensors. */
  ghost predicate Valued(t: Threat, rows: seq<Row>)
    requires forall i :: 0 <= i < |rows| ==> |rows[i]| >= 11
  {
    t.cols == [Column(rows, 2), Column(rows, 3), Column(rows, 4), Column(rows, 5), Column(rows, 6), Column(rows, 1)]
  }

  /** The rows kept for a threat are its first ones: all, or five hundred, unless the day has kept sixty thousand. */
  ghost predicate Kept(t: Threat, rows: seq<Row>, stored: nat) {
    t.events <= rows && |t.events| <= 500 && (t.events == rows || |t.events| == 500 || stored == 60000)
  }

  lemma ColumnNext(rows: seq<Row>, row: Row, c: nat)
    requires (forall i :: 0 <= i < |rows| ==> c < |rows[i]|) && c < |row|
    ensures Column(rows + [row], c) == TakeAll(Column(rows, c), Split(row[c], ','))
  {
    assert (rows + [row])[..|rows|] == rows;
  }

  lemma CountedNext(env: Env, t: Threat, rows: seq<Row>, row: Row, room: bool)
    requires Counted(env, t, rows) && Counts(env, row)
    ensures Counted(env, Extend(env, t, row, room), rows + [row])
  {
    hide Weight, TakeAll;
    var t', all := Extend(env, t, row, room), rows + [row];
    EventsNext(env, rows, row, Any());
    forall h: nat | h < 24 ensures t'.hours[h] == Events(env, all, OfHour(env, h)) { EventsNext(env, rows, row, OfHour(env, h)); }
  }

  lemma TimedNext(env: Env, t: Threat, rows: seq<Row>, row: Row, room: bool)
    requires (forall i :: 0 <= i < |rows| ==> |rows[i]| >= 11) && |row| >= 11
    requires Timed(t, rows) || (rows == [] && t.first == t.last == row[0])
    ensures Timed(Extend(env, t, row, room), rows + [row])
  {
    hide Weight, TakeAll, Less;
    var t', all := Extend(env, t, row, room), rows + [row];
    LessIrreflexive(row[0]);
    assert all[|rows|] == row;
    assert forall i :: 0 <= i < |rows| ==> all[i] == rows[i];
    if rows != [] {
      var f :| 0 <= f < |rows| && rows[f][0] == t.first;
      var l :| 0 <= l < |rows| && rows[l][0] == t.last;
      assert all[f][0] == t.first && all[l][0] == t.last;
      forall i | 0 <= i < |rows| ensures !Less(rows[i][0], t'.first) && !Less(t'.last, rows[i][0]) {
        if Less(row[0], t.first) && Less(rows[i][0], row[0]) { LessTransitive(rows[i][0], row[0], t.first); }
        if Less(t.last, row[0]) && Less(row[0], rows[i][0]) { LessTransitive(t.last, row[0], rows[i][0]); }
      }
    }
  }

  lemma ValuedNext(env: Env, t: Threat, rows: seq<Row>, row: Row, room: bool)
    requires (forall i :: 0 <= i < |rows| ==> |rows[i]| >= 11) && |row| >= 11 && Valued(t, rows)
    ensures Valued(Extend(env, t, row, room), rows + [row])
  {
    hide Weight, TakeAll;
    ColumnNext(rows, row, 1);
    ColumnNext(rows, row, 2);
    ColumnNext(rows, row, 3);
    ColumnNext(rows, row, 4);
    ColumnNext(rows, row, 5);
    ColumnNext(rows, row, 6);
  }

  lemma OpenIs(env: Env, key: (string, Kind), row: Row, room: bool)
    requires Counts(env, row)
    ensures ThreatOf(env, Extend(env, Open(env, key, row), row, room), [row])
  {
    hide Weight, TakeAll, Counted, Timed, Less;
    var t := Open(env, key, row);
    assert [] + [row] == [row];
    OpenCounted(env, key, row);
    CountedNext(env, t, [], row, room);
    TimedNext(env, t, [], row, room);
    ValuedNext(env, t, [], row, room);
  }

  lemma OpenCounted(env: Env, key: (string, Kind), row: Row)
    requires Counts(env, row)
    ensures Counted(env, Open(env, key, row), []) && Valued(Open(env, key, row), [])
  {
  }

  lemma ExtendIs(env: Env, t: Threat, rows: seq<Row>, row: Row, room: bool)
    requires ThreatOf(env, t, rows) && Counts(env, row)
    ensures ThreatOf(env, Extend(env, t, row, room), rows + [row])
  {
    hide Weight, TakeAll, Counted, Timed, Valued, Less, Collect6;
    CountedNext(env, t, rows, row, room);
    TimedNext(env, t, rows, row, room);
    ValuedNext(env, t, rows, row, room);
  }

  /** Every threat of a day is that of the rows that landed in it. */
  lemma {:induction false} ThreatIs(env: Env, flood: set<string>, rows: seq<Row>, p: nat)
    requires p < |After(env, flood, rows).threats|
    ensures var t := After(env, flood, rows).threats[p];
      && ThreatOf(env, t, Landed(env, flood, rows, p))
      && Kept(t, Landed(env, flood, rows, p), After(env, flood, rows).stored)
  {
    hide After, Sound, GroupRow, Adds, Taken, ThreatOf, Kept, Lands, Stores;
    NoneAfter(env, flood);
    if rows != [] {
      var last := |rows| - 1;
      var front := rows[..last];
      assert rows[..last + 1] == rows;
      var g, h := After(env, flood, front), After(env, flood, rows);
      var q := DayAdds(env, flood, rows, last);
      if Taken(env, g, h, rows[last]) {
        AddsMoves(env, flood, g, h, rows[last], q);
        if p != q { AddsOther(env, flood, g, h, rows[last], q, p); }
      }
      if p < |g.threats| { ThreatIs(env, flood, front, p); } else { NeverLanded(env, flood, front, p); }
      var L := Landed(env, flood, front, p);
      if Taken(env, g, h, rows[last]) && p == q {
        TakenCounts(env, g, h, rows[last]);
        LandedHere(env, g, h, rows[last], p, L);
      } else {
        assert L + [] == L;
        KeptStays(g.threats[p], L, g.stored, h.stored);
      }
    }
  }

  lemma NoneAfter(env: Env, flood: set<string>)
    ensures After(env, flood, []).threats == []
  {
  }

  lemma {:induction false} NeverLanded(env: Env, flood: set<string>, rows: seq<Row>, p: nat)
    requires p >= |After(env, flood, rows).threats|
    ensures Landed(env, flood, rows, p) == []
  {
    hide After, Sound, GroupRow, Adds, Taken, Stores;
    if rows != [] {
      var last := |rows| - 1;
      assert rows[..last + 1] == rows;
      KeysStay(env, flood, rows, last);
      NeverLanded(env, flood, rows[..last], p);
    }
  }

  lemma TakenCounts(env: Env, g: Groups, h: Groups, row: Row)
    requires Taken(env, g, h, row)
    ensures Counts(env, row)
  {
  }

  lemma KeptStays(t: Threat, rows: seq<Row>, stored: nat, stored': nat)
    requires Kept(t, rows, stored) && stored <= stored' <= 60000
    ensures Kept(t, rows, stored')
  {
  }

  lemma LandedHere(env: Env, g: Groups, h: Groups, row: Row, p: nat, rows: seq<Row>)
    requires Stores(env, g, h, row, p) && Counts(env, row) && h.stored <= 60000
    requires if p < |g.threats| then ThreatOf(env, g.threats[p], rows) && Kept(g.threats[p], rows, g.stored) else rows == []
    ensures ThreatOf(env, h.threats[p], rows + [row]) && Kept(h.threats[p], rows + [row], h.stored)
  {
    hide ThreatOf, Counted, Timed, Valued, Weight;
    var key :| StoresUnder(env, g, h, row, p, key);
    if p < |g.threats| {
      ExtendIs(env, g.threats[p], rows, row, g.stored < 60000);
      KeptNext(env, g.threats[p], rows, row, g.stored);
    } else {
      OpenIs(env, key, row, g.stored < 60000);
      KeptNext(env, Open(env, key, row), [], row, g.stored);
      assert [] + [row] == [row];
    }
  }

  lemma KeptNext(env: Env, t: Threat, rows: seq<Row>, row: Row, stored: nat)
    requires |row| >= 11 && Kept(t, rows, stored) && stored <= 60000
    ensures Kept(Extend(env, t, row, stored < 60000), rows + [row], if stored < 60000 && |t.events| < 500 then stored + 1 else stored)
  {
    hide Weight, Collect6, Less;
  }

  // ---- refused rows, and severities

  /** A row is refused only when there are 120000 threats, and none of its text. */
  lemma DropsWhen(env: Env, flood: set<string>, g: Groups, row: Row)
    requires Sound(g)
    ensures var h := GroupRow(env, flood, g, row);
      h.dropped > g.dropped <==>
        Counts(env, row) && |g.threats| == 120000
        && forall p :: 0 <= p < |g.threats| ==> g.threats[p].key != Left(env, flood, row) + "~>" + Right(env, flood, row)
  {
    hide Key, Left, Right, Fit, StoredSum;
    if Counts(env, row) { KeyIs(env, flood, row); }
  }

  function OfSeverity(threats: seq<Threat>, s: nat): set<nat> {
    set i: nat | i < |threats| && threats[i].sev == s
  }

  /** The count of a severity is the number of its threats. */
  lemma {:induction false} SevCountIs(threats: seq<Threat>, s: nat)
    ensures SevCount(threats, s) == |OfSeverity(threats, s)|
  {
    if threats == [] {
      assert OfSeverity(threats, s) == {};
    } else {
      var last := |threats| - 1;
      SevCountIs(threats[..last], s);
      assert OfSeverity(threats, s) == OfSeverity(threats[..last], s) + if threats[last].sev == s then {last} else {};
    }
  }

  /** The three severities share out all threats, and in each hour the events of all threats. */
  lemma {:induction false} SeveritiesShare(threats: seq<Threat>, h: nat)
    requires forall i :: 0 <= i < |threats| ==> h < |threats[i].hours|
    ensures SevCount(threats, 1) + SevCount(threats, 2) + SevCount(threats, 3) == |threats|
    ensures SevHour(threats, 1, h) + SevHour(threats, 2, h) + SevHour(threats, 3, h) == HourSum(threats, h)
    ensures forall s: nat :: (forall i :: 0 <= i < |threats| ==> threats[i].sev != s) ==> SevHour(threats, s, h) == 0
  {
    if threats != [] {
      var front := threats[..|threats| - 1];
      SeveritiesShare(front, h);
      assert forall i :: 0 <= i < |front| ==> front[i] == threats[i];
    }
  }

  function HourSum(threats: seq<Threat>, h: nat): nat
    requires forall i :: 0 <= i < |threats| ==> h < |threats[i].hours|
  {
    if threats == [] then 0 else HourSum(threats[..|threats| - 1], h) + threats[|threats| - 1].hours[h]
  }

  // ---- which threats a merge touches

  /** The threat was opened, or its count rose. */
  predicate Rose(g: seq<Threat>, h: seq<Threat>, p: nat) {
    p < |h| && (p >= |g| || h[p].count > g[p].count)
  }

  ghost predicate Rises(g: seq<Threat>, h: seq<Threat>) {
    |g| <= |h| && forall q :: 0 <= q < |g| ==> h[q].count >= g[q].count
  }

  lemma MarkedIs(env: Env, a: Aggregate, row: Row, touched: seq<nat>)
    requires Sound(a.groups)
    ensures var b := MergeRow(env, a, row);
      && Sound(b.groups) && Rises(a.groups.threats, b.groups.threats)
      && forall p: nat :: p in Engine.Mark(env, a, row, touched) <==> p in touched || Rose(a.groups.threats, b.groups.threats, p)
  {
    hide Sound, GroupRow, Adds, Stores, Left, Right, Key, TotalRow, FloodKey;
    var b := MergeRow(env, a, row);
    if Counts(env, row) {
      var g, h := a.groups, b.groups;
      var at := RowAdds(env, b.flood, g, row);
      if Taken(env, g, h, row) {
        AddsRises(env, b.flood, g, h, row, at);
        KeyIs(env, b.flood, row);
        SoundAt(h, at);
        assert Engine.Place(env, a, row) == Some(at);
      } else {
        DroppedMore(env, b.flood, g, row);
        assert Engine.Place(env, a, row) == None;
      }
    }
  }

  lemma DroppedMore(env: Env, flood: set<string>, g: Groups, row: Row)
    ensures GroupRow(env, flood, g, row).dropped >= g.dropped
  {
    hide Key, Extend, Open, Known;
  }

  lemma SoundAt(h: Groups, p: nat)
    requires Sound(h) && p < |h.threats|
    ensures h.threats[p].key in h.byKey && h.byKey[h.threats[p].key] == p
  {
    hide Fit, StoredSum;
  }

  lemma AddsRises(env: Env, flood: set<string>, g: Groups, h: Groups, row: Row, p: nat)
    requires Adds(env, flood, g, h, row, p)
    ensures Rises(g.threats, h.threats) && forall q: nat :: Rose(g.threats, h.threats, q) <==> q == p
    ensures |row| >= 11 && p < |h.threats| && h.threats[p].key == Left(env, flood, row) + "~>" + Right(env, flood, row)
  {
    hide Left, Right;
  }

  /** A merge marks exactly the threats it opened and those whose counts it raised. */
  lemma {:induction false} TouchedAre(env: Env, a: Aggregate, rows: seq<Row>, touched: seq<nat>)
    requires Sound(a.groups)
    ensures var h := Merge(env, a, rows).groups;
      && Sound(h) && Rises(a.groups.threats, h.threats)
      && forall p: nat :: p in Engine.Touched(env, a, rows, touched) <==> p in touched || Rose(a.groups.threats, h.threats, p)
  {
    hide Sound, MergeRow, Engine.Mark;
    if rows != [] {
      var front := rows[..|rows| - 1];
      TouchedAre(env, a, front, touched);
      MarkedIs(env, Merge(env, a, front), rows[|rows| - 1], Engine.Touched(env, a, front, touched));
    }
  }
}
