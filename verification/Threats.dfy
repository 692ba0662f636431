/**
 What the dashboard engine computes (html/js/engine.js): totals and threats of a day of event rows, in
 full and merged row by row. Normalising, severity, hours and hashing are parameters.
 */
module Threats {
  import opened Text
  import opened Collect

  const FLOOD_THRESH := 50
  const MAX_STORED_EVENTS := 60000
  const MAX_EVENTS_EACH := 500
  const MAX_THREATS := 120000
  const DAY := 24

  type Row = seq<string>
  type Hour = h: nat | h < DAY
  type Severity = s: nat | 1 <= s <= 3 witness 1

  datatype Kind = Plain | Dnsx | Flood | Dga

  datatype Env = Env(
    isType: string -> bool,
    normTrail: string -> string,
    infoKey: string -> string,
    more: string -> nat,
    hourOf: string -> Hour,
    severity: (string, string) -> Severity,
    uid: (string, Kind) -> string)

  predicate Counts(env: Env, row: Row) {
    |row| >= 11 && env.isType(row[7])
  }

  // ---- one row

  /** The events a line stands for: the longest comma list of its ports, addresses and protocol, and the overflow. */
  function Weight(env: Env, row: Row): (w: nat)
    requires |row| >= 11
    ensures w > 0
  {
    Widest(row, 3, 1) + env.more(row[9])
  }

  function Widest(row: Row, i: nat, w: nat): (r: nat)
    requires |row| >= 11 && 3 <= i <= 7
    ensures r >= w
    decreases 7 - i
  {
    if i == 7 then w
    else
      var n := |Split(row[i], ',')|;
      Widest(row, i + 1, if ',' in row[i] && n > w then n else w)
  }

  function FloodKey(env: Env, row: Row): string
    requires |row| >= 11
  {
    if Contains(row[10], "heuristic") then env.normTrail(row[8]) + "\U{1F}" + env.infoKey(row[9]) else env.normTrail(row[8])
  }

  /** The text a row is grouped by, and the kind of its threat. */
  function Key(env: Env, flood: set<string>, row: Row): (string, Kind)
    requires |row| >= 11
  {
    var src, nt, ikey := row[2], env.normTrail(row[8]), env.infoKey(row[9]);
    if Contains(row[9], " dns exhaustion ") then (ikey + "~>" + nt, Dnsx)
    else if FloodKey(env, row) in flood then ("..." + "~>" + FloodKey(env, row), Flood)
    else if Contains(row[9], " dga ") then (src + "~>" + ikey, Dga)
    else if Contains(row[10], "heuristic") then (src + "~>" + nt + ikey, Plain)
    else (src + "~>" + nt, Plain)
  }

  // ---- totals

  datatype Totals = Totals(
    events: nat,
    hours: seq<nat>,
    sources: map<string, nat>,
    trails: map<string, nat>,
    types: map<string, nat>,
    typeHours: map<string, seq<nat>>,
    trailSrcs: map<string, set<string>>)

  function Zeros(): (z: seq<nat>)
    ensures |z| == DAY && forall h :: 0 <= h < DAY ==> z[h] == 0
  {
    seq(DAY, h => 0)
  }

  function Bump(m: map<string, nat>, k: string, w: nat): map<string, nat> {
    m[k := (if k in m then m[k] else 0) + w]
  }

  function BumpHour(hours: seq<nat>, h: nat, w: nat): (r: seq<nat>)
    ensures |r| == |hours|
  {
    if h < |hours| then hours[h := hours[h] + w] else hours
  }

  function HoursAt(m: map<string, seq<nat>>, k: string): seq<nat> {
    if k in m then m[k] else Zeros()
  }

  function SrcsAt(m: map<string, set<string>>, k: string): set<string> {
    if k in m then m[k] else {}
  }

  const NO_TOTALS := Totals(0, Zeros(), map[], map[], map[], map[], map[])

  function TotalRow(env: Env, t: Totals, row: Row): Totals {
    if !Counts(env, row) then t
    else
      var w, h, fk := Weight(env, row), env.hourOf(row[0]), FloodKey(env, row);
      Totals(t.events + w, BumpHour(t.hours, h, w), Bump(t.sources, row[2], w), Bump(t.trails, env.normTrail(row[8]), w),
        Bump(t.types, row[7], w), t.typeHours[row[7] := BumpHour(HoursAt(t.typeHours, row[7]), h, w)],
        t.trailSrcs[fk := SrcsAt(t.trailSrcs, fk) + {row[2]}])
  }

  function TotalRows(env: Env, t: Totals, rows: seq<Row>): Totals {
    if rows == [] then t else TotalRow(env, TotalRows(env, t, rows[..|rows| - 1]), rows[|rows| - 1])
  }

  /** The trails seen from more sources than the threshold. */
  function Floods(trailSrcs: map<string, set<string>>): set<string> {
    set fk | fk in trailSrcs && |trailSrcs[fk]| > FLOOD_THRESH
  }

  // ---- threats

  /** `head` is the row that opened the threat; `cols` collect the src, sport, dst, dport, proto and sensor values. */
  datatype Threat = Threat(key: string, kind: Kind, head: Row, sev: Severity, uid: string, count: nat, first: string, last: string,
                           hours: seq<nat>, cols: seq<Values>, events: seq<Row>)

  datatype Groups = Groups(threats: seq<Threat>, byKey: map<string, nat>, stored: nat, dropped: nat)

  const NO_GROUPS := Groups([], map[], 0, 0)

  function Open(env: Env, key: (string, Kind), row: Row): (t: Threat)
    requires |row| >= 11
    ensures |t.cols| == 6
  {
    Threat(key.0, key.1, row, env.severity(row[9], row[10]), env.uid(key.0, key.1), 0, row[0], row[0], Zeros(),
      [NONE_YET, NONE_YET, NONE_YET, NONE_YET, NONE_YET, NONE_YET], [])
  }

  function Column(i: nat): (c: nat)
    requires i < 6
    ensures c < 7
  {
    if i == 5 then 1 else i + 2
  }

  function Collect6(cols: seq<Values>, row: Row): (r: seq<Values>)
    requires |row| >= 11
    ensures |r| == |cols|
  {
    seq(|cols|, i requires 0 <= i < |cols| => if i < 6 then TakeAll(cols[i], Split(row[Column(i)], ',')) else cols[i])
  }

  /** One more row of a threat; `room` says whether the row may still be stored. */
  function Extend(env: Env, t: Threat, row: Row, room: bool): (r: Threat)
    requires |row| >= 11
    ensures |r.cols| == |t.cols| && r.sev == t.sev && r.key == t.key && r.kind == t.kind && r.head == t.head && r.uid == t.uid
    ensures r.hours == BumpHour(t.hours, env.hourOf(row[0]), Weight(env, row))
  {
    t.(count := t.count + Weight(env, row),
       hours := BumpHour(t.hours, env.hourOf(row[0]), Weight(env, row)),
       cols := Collect6(t.cols, row),
       events := if room && |t.events| < MAX_EVENTS_EACH then t.events + [row] else t.events,
       first := if Less(row[0], t.first) then row[0] else t.first,
       last := if Less(t.last, row[0]) then row[0] else t.last)
  }

  /** The place of a threat, if the index and the list agree on it. */
  predicate Known(g: Groups, key: string) {
    key in g.byKey && g.byKey[key] < |g.threats|
  }

  function GroupRow(env: Env, flood: set<string>, g: Groups, row: Row): Groups {
    if !Counts(env, row) then g
    else
      var key := Key(env, flood, row);
      if !Known(g, key.0) && |g.threats| >= MAX_THREATS then g.(dropped := g.dropped + 1)
      else
        var grown := Grow(env, g, key, row);
        Store(env, grown, grown.byKey[key.0], row)
  }

  /** The threat of a key, opened if there is none. */
  function Grow(env: Env, g: Groups, key: (string, Kind), row: Row): (r: Groups)
    requires |row| >= 11
    ensures Known(r, key.0)
  {
    if Known(g, key.0) then g else g.(threats := g.threats + [Open(env, key, row)], byKey := g.byKey[key.0 := |g.threats|])
  }

  function Store(env: Env, g: Groups, i: nat, row: Row): Groups
    requires i < |g.threats| && |row| >= 11
  {
    var room := g.stored < MAX_STORED_EVENTS;
    var t := g.threats[i];
    g.(threats := g.threats[i := Extend(env, t, row, room)], stored := if room && |t.events| < MAX_EVENTS_EACH then g.stored + 1 else g.stored)
  }

  function GroupRows(env: Env, flood: set<string>, g: Groups, rows: seq<Row>): Groups {
    if rows == [] then g else GroupRow(env, flood, GroupRows(env, flood, g, rows[..|rows| - 1]), rows[|rows| - 1])
  }

  // ---- full and incremental aggregation

  datatype Aggregate = Aggregate(totals: Totals, flood: set<string>, groups: Groups)

  /** aggregateRows: one pass for the flood trails, then one over all rows with the flood set of the whole day. */
  function Full(env: Env, rows: seq<Row>): Aggregate {
    var totals := TotalRows(env, NO_TOTALS, rows);
    Aggregate(totals, Floods(totals.trailSrcs), GroupRows(env, Floods(totals.trailSrcs), NO_GROUPS, rows))
  }

  /** One row of mergeRows: the flood set is that of the rows up to this one. */
  function MergeRow(env: Env, a: Aggregate, row: Row): Aggregate {
    if !Counts(env, row) then a
    else
      var totals, fk := TotalRow(env, a.totals, row), FloodKey(env, row);
      var flood := if row[2] !in SrcsAt(a.totals.trailSrcs, fk) && |totals.trailSrcs[fk]| > FLOOD_THRESH then a.flood + {fk} else a.flood;
      Aggregate(totals, flood, GroupRow(env, flood, a.groups, row))
  }

  function Merge(env: Env, a: Aggregate, rows: seq<Row>): Aggregate {
    if rows == [] then a else MergeRow(env, Merge(env, a, rows[..|rows| - 1]), rows[|rows| - 1])
  }

  // ---- the totals and the flood set never depend on how the rows were split

  lemma {:induction false} TotalsConcat(env: Env, t: Totals, a: seq<Row>, b: seq<Row>)
    ensures TotalRows(env, t, a + b) == TotalRows(env, TotalRows(env, t, a), b)
  {
    if b == [] {
      assert a + b == a;
    } else {
      assert (a + b)[..|a + b| - 1] == a + b[..|b| - 1];
      TotalsConcat(env, t, a, b[..|b| - 1]);
    }
  }

  lemma {:induction false} GroupsConcat(env: Env, flood: set<string>, g: Groups, a: seq<Row>, b: seq<Row>)
    ensures GroupRows(env, flood, g, a + b) == GroupRows(env, flood, GroupRows(env, flood, g, a), b)
  {
    if b == [] {
      assert a + b == a;
    } else {
      assert (a + b)[..|a + b| - 1] == a + b[..|b| - 1];
      GroupsConcat(env, flood, g, a, b[..|b| - 1]);
    }
  }

  lemma FloodsStep(env: Env, t: Totals, row: Row)
    requires Counts(env, row)
    ensures var fk := FloodKey(env, row); var t' := TotalRow(env, t, row);
      && fk in t'.trailSrcs
      && Floods(t.trailSrcs) <= Floods(t'.trailSrcs)
      && Floods(t'.trailSrcs) == (if row[2] !in SrcsAt(t.trailSrcs, fk) && |t'.trailSrcs[fk]| > FLOOD_THRESH then Floods(t.trailSrcs) + {fk} else Floods(t.trailSrcs))
  {
    var fk := FloodKey(env, row);
    FloodsAdd(t.trailSrcs, fk, row[2]);
  }

  lemma FloodsAdd(m: map<string, set<string>>, fk: string, src: string)
    ensures var m' := m[fk := SrcsAt(m, fk) + {src}];
      && Floods(m) <= Floods(m')
      && Floods(m') == (if src !in SrcsAt(m, fk) && |m'[fk]| > FLOOD_THRESH then Floods(m) + {fk} else Floods(m))
  {
    var srcs := SrcsAt(m, fk);
    if src in srcs { assert srcs + {src} == srcs; }
    assert |srcs + {src}| >= |srcs|;
  }

  /** Merging keeps the totals and the flood set of a full aggregation, whatever it does to the threats. */
  lemma {:induction false} MergeTotals(env: Env, a: Aggregate, rows: seq<Row>)
    requires a.flood == Floods(a.totals.trailSrcs)
    ensures Merge(env, a, rows).totals == TotalRows(env, a.totals, rows)
    ensures Merge(env, a, rows).flood == Floods(Merge(env, a, rows).totals.trailSrcs)
    ensures a.flood <= Merge(env, a, rows).flood
  {
    if rows != [] {
      var front, row := rows[..|rows| - 1], rows[|rows| - 1];
      MergeTotals(env, a, front);
      if Counts(env, row) { FloodsStep(env, Merge(env, a, front).totals, row); }
    }
  }

  /** Rows are grouped alike under two flood sets that give each of them the same key. */
  ghost predicate SameKeys(env: Env, f: set<string>, g: set<string>, rows: seq<Row>) {
    forall i :: 0 <= i < |rows| && Counts(env, rows[i]) ==> Key(env, f, rows[i]) == Key(env, g, rows[i])
  }

  lemma {:induction false} SameKeysSameGroups(env: Env, f: set<string>, g: set<string>, from: Groups, rows: seq<Row>)
    requires SameKeys(env, f, g, rows)
    ensures GroupRows(env, f, from, rows) == GroupRows(env, g, from, rows)
  {
    if rows != [] {
      var front := rows[..|rows| - 1];
      assert forall i :: 0 <= i < |front| ==> front[i] == rows[i];
      SameKeysSameGroups(env, f, g, from, front);
    }
  }

  /** Each row of b had, when it was merged, the key that the flood set of the whole day gives it. */
  ghost predicate KeyedAsMerged(env: Env, a: Aggregate, b: seq<Row>, flood: set<string>) {
    forall i :: 0 <= i < |b| && Counts(env, b[i]) ==> Key(env, Merge(env, a, b[..i + 1]).flood, b[i]) == Key(env, flood, b[i])
  }

  lemma {:induction false} MergeGroups(env: Env, a: Aggregate, b: seq<Row>, flood: set<string>)
    requires KeyedAsMerged(env, a, b, flood)
    ensures Merge(env, a, b).groups == GroupRows(env, flood, a.groups, b)
  {
    hide Key, TotalRow, Store, Open, FloodKey;
    if b != [] {
      var front, last := b[..|b| - 1], |b| - 1;
      forall i | 0 <= i < |front| && Counts(env, front[i])
        ensures Key(env, Merge(env, a, front[..i + 1]).flood, front[i]) == Key(env, flood, front[i])
      {
        assert front[..i + 1] == b[..i + 1];
      }
      MergeGroups(env, a, front, flood);
      assert b[..last + 1] == b;
    }
  }

  /**
   Merging b into a full aggregate of a gives the full aggregate of a + b: totals and flood set always;
   threats, their order, counts, hours, values, stored rows and the dropped count whenever the rows'
   grouping does not depend on which flood trails were known at the time.
   */
  lemma MergeIsFull(env: Env, a: seq<Row>, b: seq<Row>)
    ensures Merge(env, Full(env, a), b).totals == Full(env, a + b).totals
    ensures Merge(env, Full(env, a), b).flood == Full(env, a + b).flood
    ensures SameKeys(env, Full(env, a).flood, Full(env, a + b).flood, a) && KeyedAsMerged(env, Full(env, a), b, Full(env, a + b).flood)
      ==> Merge(env, Full(env, a), b) == Full(env, a + b)
  {
    var day, flood := Full(env, a), Full(env, a + b).flood;
    TotalsConcat(env, NO_TOTALS, a, b);
    MergeTotals(env, day, b);
    if SameKeys(env, day.flood, flood, a) && KeyedAsMerged(env, day, b, flood) {
      MergeGroups(env, day, b, flood);
      SameKeysSameGroups(env, day.flood, flood, NO_GROUPS, a);
      GroupsConcat(env, flood, NO_GROUPS, a, b);
    }
  }

  /** In particular when b brings no trail over the threshold. */
  lemma MergeIsFullWithoutNewFlood(env: Env, a: seq<Row>, b: seq<Row>)
    requires Full(env, a + b).flood == Full(env, a).flood
    ensures Merge(env, Full(env, a), b) == Full(env, a + b)
  {
    hide Full, Merge, Key, SameKeys;
    var day := Full(env, a);
    MergeIsFull(env, a, b);
    forall i | 0 <= i < |b| && Counts(env, b[i])
      ensures Key(env, Merge(env, day, b[..i + 1]).flood, b[i]) == Key(env, day.flood, b[i])
    {
      FullFloods(env, a);
      FloodBetween(env, day, b, i + 1);
    }
    SameItself(env, day.flood, a);
  }

  lemma FullFloods(env: Env, rows: seq<Row>)
    ensures Full(env, rows).flood == Floods(Full(env, rows).totals.trailSrcs)
  {
  }

  lemma SameItself(env: Env, flood: set<string>, rows: seq<Row>)
    ensures SameKeys(env, flood, flood, rows)
  {
  }

  /** A flood set that is the same before and after was the same all along. */
  lemma FloodBetween(env: Env, s: Aggregate, b: seq<Row>, i: nat)
    requires s.flood == Floods(s.totals.trailSrcs) && i <= |b| && Merge(env, s, b).flood == s.flood
    ensures Merge(env, s, b[..i]).flood == s.flood
  {
    hide Merge;
    MergeTotals(env, s, b[..i]);
    MergeTotals(env, Merge(env, s, b[..i]), b[i..]);
    MergeConcat(env, s, b[..i], b[i..]);
    assert b[..i] + b[i..] == b;
  }

  lemma {:induction false} MergeConcat(env: Env, s: Aggregate, a: seq<Row>, b: seq<Row>)
    ensures Merge(env, s, a + b) == Merge(env, Merge(env, s, a), b)
  {
    hide MergeRow;
    if b == [] {
      assert a + b == a;
    } else {
      assert (a + b)[..|a + b| - 1] == a + b[..|b| - 1];
      MergeConcat(env, s, a, b[..|b| - 1]);
    }
  }

  // ---- what a list of threats holds

  function CountSum(threats: seq<Threat>): nat {
    if threats == [] then 0 else CountSum(threats[..|threats| - 1]) + threats[|threats| - 1].count
  }

  function StoredSum(threats: seq<Threat>): nat {
    if threats == [] then 0 else StoredSum(threats[..|threats| - 1]) + |threats[|threats| - 1].events|
  }

  /** The threats of a severity. */
  function SevCount(threats: seq<Threat>, s: nat): nat {
    if threats == [] then 0 else SevCount(threats[..|threats| - 1], s) + if threats[|threats| - 1].sev == s then 1 else 0
  }

  /** The events of a severity in an hour. */
  function SevHour(threats: seq<Threat>, s: nat, h: nat): nat {
    if threats == [] then 0
    else
      var t := threats[|threats| - 1];
      SevHour(threats[..|threats| - 1], s, h) + if t.sev == s && h < |t.hours| then t.hours[h] else 0
  }

  /** Replacing one threat changes the sums by what it changes. */
  lemma {:induction false} SumsAt(threats: seq<Threat>, i: nat, t: Threat)
    requires i < |threats|
    ensures CountSum(threats[i := t]) - CountSum(threats) == t.count - threats[i].count
    ensures StoredSum(threats[i := t]) - StoredSum(threats) == |t.events| - |threats[i].events|
  {
    var last := |threats| - 1;
    if i == last {
      assert threats[i := t][..last] == threats[..last];
    } else {
      SumsAt(threats[..last], i, t);
      assert threats[i := t][..last] == threats[..last][i := t];
    }
  }

  lemma {:induction false} SevAt(threats: seq<Threat>, i: nat, t: Threat, s: nat, h: nat)
    requires i < |threats| && t.sev == threats[i].sev && |t.hours| == |threats[i].hours|
    ensures SevCount(threats[i := t], s) == SevCount(threats, s)
    ensures t.sev == s && h < |t.hours| ==> SevHour(threats[i := t], s, h) + threats[i].hours[h] == SevHour(threats, s, h) + t.hours[h]
    ensures !(t.sev == s && h < |t.hours|) ==> SevHour(threats[i := t], s, h) == SevHour(threats, s, h)
  {
    var last := |threats| - 1;
    if i == last {
      assert threats[i := t][..last] == threats[..last];
    } else {
      SevAt(threats[..last], i, t, s, h);
      assert threats[i := t][..last] == threats[..last][i := t];
    }
  }

  lemma SumsPush(threats: seq<Threat>, t: Threat, s: nat, h: nat)
    ensures CountSum(threats + [t]) == CountSum(threats) + t.count
    ensures StoredSum(threats + [t]) == StoredSum(threats) + |t.events|
    ensures SevCount(threats + [t], s) == SevCount(threats, s) + if t.sev == s then 1 else 0
    ensures SevHour(threats + [t], s, h) == SevHour(threats, s, h) + if t.sev == s && h < |t.hours| then t.hours[h] else 0
  {
    assert (threats + [t])[..|threats|] == threats;
  }

  /** The index finds every threat at its place, and all bounds hold. */
  ghost predicate Sound(g: Groups) {
    && |g.threats| <= MAX_THREATS
    && (forall i :: 0 <= i < |g.threats| ==> g.threats[i].key in g.byKey && g.byKey[g.threats[i].key] == i)
    && (forall k :: k in g.byKey ==> g.byKey[k] < |g.threats| && g.threats[g.byKey[k]].key == k)
    && (forall i :: 0 <= i < |g.threats| ==> Fit(g.threats[i]))
    && g.stored == StoredSum(g.threats) <= MAX_STORED_EVENTS
  }

  ghost predicate Fit(t: Threat) {
    && |t.hours| == DAY && |t.cols| == 6 && |t.events| <= MAX_EVENTS_EACH
    && forall i :: 0 <= i < 6 ==> Proper(t.cols[i])
  }

  lemma ExtendFit(env: Env, t: Threat, row: Row, room: bool)
    requires |row| >= 11 && Fit(t)
    ensures Fit(Extend(env, t, row, room))
    ensures var r := Extend(env, t, row, room);
      && r.count == t.count + Weight(env, row)
      && t.events <= r.events
      && (forall i :: 0 <= i < 6 ==> t.cols[i].vals <= r.cols[i].vals && (t.cols[i].capped ==> r.cols[i].capped))
  {
    forall i | 0 <= i < 6
      ensures Proper(TakeAll(t.cols[i], Split(row[Column(i)], ',')))
      ensures t.cols[i].vals <= TakeAll(t.cols[i], Split(row[Column(i)], ',')).vals
      ensures t.cols[i].capped ==> TakeAll(t.cols[i], Split(row[Column(i)], ',')).capped
    {
      TakeAllProper(t.cols[i], Split(row[Column(i)], ','));
    }
  }

  /** A group row keeps the index and the bounds, and adds the row's weight to one threat unless it is dropped. */
  lemma GroupRowSound(env: Env, flood: set<string>, g: Groups, row: Row)
    requires Sound(g)
    ensures var r := GroupRow(env, flood, g, row);
      && Sound(r) && r.dropped >= g.dropped
      && CountSum(r.threats) == CountSum(g.threats) + if !Counts(env, row) || r.dropped > g.dropped then 0 else Weight(env, row)
  {
    hide Sound, Key, Weight, Open, Store, Grow, CountSum;
    if !Counts(env, row) { return; }
    var key := Key(env, flood, row);
    if !Known(g, key.0) && |g.threats| >= MAX_THREATS {
      DropSound(g);
      return;
    }
    var grown := Grow(env, g, key, row);
    GrowSound(env, g, key, row);
    StoreSound(env, grown, grown.byKey[key.0], row);
    StoreDrops(env, grown, grown.byKey[key.0], row);
  }

  lemma StoreDrops(env: Env, g: Groups, i: nat, row: Row)
    requires i < |g.threats| && |row| >= 11
    ensures Store(env, g, i, row).dropped == g.dropped
  {
  }

  lemma DropSound(g: Groups)
    requires Sound(g)
    ensures Sound(g.(dropped := g.dropped + 1))
  {
    hide Fit;
  }

  lemma GrowSound(env: Env, g: Groups, key: (string, Kind), row: Row)
    requires Sound(g) && |row| >= 11 && (Known(g, key.0) || |g.threats| < MAX_THREATS)
    ensures var r := Grow(env, g, key, row);
      && Sound(r) && r.threats[r.byKey[key.0]].key == key.0 && r.dropped == g.dropped && g.threats <= r.threats
      && CountSum(r.threats) == CountSum(g.threats)
  {
    hide Key, Weight, SevCount, SevHour;
    if !Known(g, key.0) {
      SumsPush(g.threats, Open(env, key, row), 0, 0);
    }
  }

  lemma StoreSound(env: Env, g: Groups, i: nat, row: Row)
    requires Sound(g) && i < |g.threats| && |row| >= 11
    ensures Sound(Store(env, g, i, row)) && CountSum(Store(env, g, i, row).threats) == CountSum(g.threats) + Weight(env, row)
  {
    hide Fit, CountSum, StoredSum, Weight, Collect6, BumpHour;
    var t := Extend(env, g.threats[i], row, g.stored < MAX_STORED_EVENTS);
    ExtendFit(env, g.threats[i], row, g.stored < MAX_STORED_EVENTS);
    SumsAt(g.threats, i, t);
  }

  /** With no threat refused, every event of the day is counted in exactly one threat. */
  lemma {:induction false} EveryEventCounted(env: Env, flood: set<string>, rows: seq<Row>)
    ensures Sound(GroupRows(env, flood, NO_GROUPS, rows))
    ensures GroupRows(env, flood, NO_GROUPS, rows).dropped == 0 ==>
      CountSum(GroupRows(env, flood, NO_GROUPS, rows).threats) == TotalRows(env, NO_TOTALS, rows).events
    ensures CountSum(GroupRows(env, flood, NO_GROUPS, rows).threats) <= TotalRows(env, NO_TOTALS, rows).events
  {
    hide Sound, GroupRow, Key, Weight, FloodKey, Bump, BumpHour, HoursAt, SrcsAt;
    NoThreats();
    if rows != [] {
      EveryEventCounted(env, flood, rows[..|rows| - 1]);
      GroupRowSound(env, flood, GroupRows(env, flood, NO_GROUPS, rows[..|rows| - 1]), rows[|rows| - 1]);
    }
  }

  lemma NoThreats()
    ensures Sound(NO_GROUPS)
  {
  }

  /** The same over any split of the day into a load and merges, grouping exceptions included. */
  lemma {:induction false} MergeSound(env: Env, a: Aggregate, rows: seq<Row>)
    requires Sound(a.groups)
    ensures Sound(Merge(env, a, rows).groups)
    ensures a.groups.dropped <= Merge(env, a, rows).groups.dropped
    ensures Merge(env, a, rows).groups.dropped == a.groups.dropped ==>
      CountSum(Merge(env, a, rows).groups.threats) - CountSum(a.groups.threats) == Merge(env, a, rows).totals.events - a.totals.events
  {
    hide Sound, GroupRow, CountSum, Key, Weight, FloodKey, Bump, BumpHour, HoursAt, SrcsAt;
    if rows != [] {
      var before, row := Merge(env, a, rows[..|rows| - 1]), rows[|rows| - 1];
      MergeSound(env, a, rows[..|rows| - 1]);
      if Counts(env, row) {
        GroupRowSound(env, MergeRow(env, before, row).flood, before.groups, row);
      }
    }
  }

  // ---- and only then: the events counted under the flood trails tell the difference

  const DOTS := "..."

  /** The events of the threats that stand for flood trails. */
  function FloodSum(threats: seq<Threat>): nat {
    if threats == [] then 0
    else FloodSum(threats[..|threats| - 1]) + if DOTS <= threats[|threats| - 1].key then threats[|threats| - 1].count else 0
  }

  lemma {:induction false} FloodSumAt(threats: seq<Threat>, i: nat, t: Threat)
    requires i < |threats| && t.key == threats[i].key
    ensures FloodSum(threats[i := t]) - FloodSum(threats) == if DOTS <= t.key then t.count - threats[i].count else 0
  {
    var last := |threats| - 1;
    if i == last {
      assert threats[i := t][..last] == threats[..last];
    } else {
      FloodSumAt(threats[..last], i, t);
      assert threats[i := t][..last] == threats[..last][i := t];
    }
  }

  /** What a row adds to them. */
  function FloodWeight(env: Env, flood: set<string>, row: Row): nat {
    if Counts(env, row) && DOTS <= Key(env, flood, row).0 then Weight(env, row) else 0
  }

  function FloodWeights(env: Env, flood: set<string>, rows: seq<Row>): nat {
    if rows == [] then 0 else FloodWeights(env, flood, rows[..|rows| - 1]) + FloodWeight(env, flood, rows[|rows| - 1])
  }

  function MergedWeights(env: Env, a: Aggregate, rows: seq<Row>): nat {
    if rows == [] then 0
    else MergedWeights(env, a, rows[..|rows| - 1]) + FloodWeight(env, Merge(env, a, rows).flood, rows[|rows| - 1])
  }

  lemma GroupRowFlood(env: Env, flood: set<string>, g: Groups, row: Row)
    requires Sound(g)
    ensures GroupRow(env, flood, g, row).dropped >= g.dropped
    ensures GroupRow(env, flood, g, row).dropped == g.dropped ==>
      FloodSum(GroupRow(env, flood, g, row).threats) == FloodSum(g.threats) + FloodWeight(env, flood, row)
  {
    hide Sound, Key, Weight, Store, Grow, FloodSum;
    if !Counts(env, row) { return; }
    var key := Key(env, flood, row);
    if !Known(g, key.0) && |g.threats| >= MAX_THREATS { return; }
    var grown := Grow(env, g, key, row);
    GrowSound(env, g, key, row);
    GrowFlood(env, g, key, row);
    StoreFlood(env, grown, grown.byKey[key.0], row);
    StoreDrops(env, grown, grown.byKey[key.0], row);
  }

  lemma GrowFlood(env: Env, g: Groups, key: (string, Kind), row: Row)
    requires |row| >= 11
    ensures FloodSum(Grow(env, g, key, row).threats) == FloodSum(g.threats)
  {
    if !Known(g, key.0) {
      assert (g.threats + [Open(env, key, row)])[..|g.threats|] == g.threats;
    }
  }

  lemma StoreFlood(env: Env, g: Groups, i: nat, row: Row)
    requires i < |g.threats| && |row| >= 11
    ensures FloodSum(Store(env, g, i, row).threats) == FloodSum(g.threats) + if DOTS <= g.threats[i].key then Weight(env, row) else 0
  {
    hide FloodSum, Weight, Collect6, BumpHour;
    FloodSumAt(g.threats, i, Extend(env, g.threats[i], row, g.stored < MAX_STORED_EVENTS));
  }

  lemma {:induction false} GroupsFlood(env: Env, flood: set<string>, g: Groups, rows: seq<Row>)
    requires Sound(g)
    ensures Sound(GroupRows(env, flood, g, rows)) && GroupRows(env, flood, g, rows).dropped >= g.dropped
    ensures GroupRows(env, flood, g, rows).dropped == g.dropped ==>
      FloodSum(GroupRows(env, flood, g, rows).threats) == FloodSum(g.threats) + FloodWeights(env, flood, rows)
  {
    hide Sound, GroupRow, FloodWeight;
    if rows != [] {
      var front := rows[..|rows| - 1];
      GroupsFlood(env, flood, g, front);
      GroupRowFlood(env, flood, GroupRows(env, flood, g, front), rows[|rows| - 1]);
      GroupRowSound(env, flood, GroupRows(env, flood, g, front), rows[|rows| - 1]);
    }
  }

  lemma {:induction false} MergeFlood(env: Env, a: Aggregate, rows: seq<Row>)
    requires Sound(a.groups)
    ensures Sound(Merge(env, a, rows).groups) && Merge(env, a, rows).groups.dropped >= a.groups.dropped
    ensures Merge(env, a, rows).groups.dropped == a.groups.dropped ==>
      FloodSum(Merge(env, a, rows).groups.threats) == FloodSum(a.groups.threats) + MergedWeights(env, a, rows)
  {
    hide Sound, GroupRow, Key, Weight, TotalRow;
    if rows != [] {
      var before, row := Merge(env, a, rows[..|rows| - 1]), rows[|rows| - 1];
      MergeFlood(env, a, rows[..|rows| - 1]);
      if Counts(env, row) {
        GroupRowFlood(env, MergeRow(env, before, row).flood, before.groups, row);
        GroupRowSound(env, MergeRow(env, before, row).flood, before.groups, row);
      }
    }
  }

  /** No source and no info key of a row is written like a flood threat's. */
  ghost predicate NoDots(env: Env, rows: seq<Row>) {
    forall i :: 0 <= i < |rows| && Counts(env, rows[i]) ==> !(DOTS <= rows[i][2]) && !(DOTS <= env.infoKey(rows[i][9]))
  }

  lemma DotsAhead(head: string, tail: string)
    ensures DOTS <= head + "~>" + tail <==> DOTS <= head
  {
    var text := head + "~>" + tail;
    if |head| < 3 { assert text[|head|] == '~'; }
  }

  /** With more flood trails known, a row can only move to a flood threat. */
  lemma KeyMoves(env: Env, f: set<string>, g: set<string>, row: Row)
    requires f <= g && (Counts(env, row) ==> !(DOTS <= row[2]) && !(DOTS <= env.infoKey(row[9])))
    ensures FloodWeight(env, f, row) <= FloodWeight(env, g, row)
    ensures Counts(env, row) && FloodWeight(env, f, row) == FloodWeight(env, g, row) ==> Key(env, f, row) == Key(env, g, row)
  {
    hide FloodKey, Contains, Weight;
    if Counts(env, row) {
      var src, nt, ikey := row[2], env.normTrail(row[8]), env.infoKey(row[9]);
      DotsAhead(ikey, nt);
      DotsAhead(src, ikey);
      DotsAhead(src, nt);
      DotsAhead(src, nt + ikey);
      assert src + "~>" + nt + ikey == src + "~>" + (nt + ikey);
      DotsAhead(DOTS, FloodKey(env, row));
      assert DOTS + "~>" + FloodKey(env, row) == "..." + "~>" + FloodKey(env, row);
    }
  }

  lemma {:induction false} WeightsMove(env: Env, f: set<string>, g: set<string>, rows: seq<Row>)
    requires f <= g && NoDots(env, rows)
    ensures FloodWeights(env, f, rows) <= FloodWeights(env, g, rows)
    ensures FloodWeights(env, f, rows) == FloodWeights(env, g, rows) ==> SameKeys(env, f, g, rows)
  {
    hide FloodWeight, Key;
    if rows != [] {
      var front, row := rows[..|rows| - 1], rows[|rows| - 1];
      assert forall i :: 0 <= i < |front| ==> front[i] == rows[i];
      WeightsMove(env, f, g, front);
      KeyMoves(env, f, g, row);
    }
  }

  lemma {:induction false} MergedMove(env: Env, a: Aggregate, b: seq<Row>, g: set<string>)
    requires NoDots(env, b) && a.flood == Floods(a.totals.trailSrcs) && Merge(env, a, b).flood <= g
    ensures MergedWeights(env, a, b) <= FloodWeights(env, g, b)
    ensures MergedWeights(env, a, b) == FloodWeights(env, g, b) ==> KeyedAsMerged(env, a, b, g)
  {
    hide FloodWeight, Key, MergeRow, Floods, KeyedAsMerged, Merge;
    if b == [] {
      KeyedNone(env, a, g);
    } else {
      var front, row := b[..|b| - 1], b[|b| - 1];
      assert forall i :: 0 <= i < |front| ==> front[i] == b[i];
      MergeTotals(env, a, front);
      MergeTotals(env, Merge(env, a, front), [row]);
      MergeConcat(env, a, front, [row]);
      assert front + [row] == b;
      MergedMove(env, a, front, g);
      KeyMoves(env, Merge(env, a, b).flood, g, row);
      if MergedWeights(env, a, b) == FloodWeights(env, g, b) { KeyedSnoc(env, a, b, g); }
    }
  }

  lemma KeyedNone(env: Env, a: Aggregate, g: set<string>)
    ensures KeyedAsMerged(env, a, [], g)
  {
  }

  lemma KeyedSnoc(env: Env, a: Aggregate, b: seq<Row>, g: set<string>)
    requires b != [] && KeyedAsMerged(env, a, b[..|b| - 1], g)
    requires Counts(env, b[|b| - 1]) ==> Key(env, Merge(env, a, b).flood, b[|b| - 1]) == Key(env, g, b[|b| - 1])
    ensures KeyedAsMerged(env, a, b, g)
  {
    hide Merge, Key;
    var front := b[..|b| - 1];
    forall i | 0 <= i < |b| && Counts(env, b[i]) ensures Key(env, Merge(env, a, b[..i + 1]).flood, b[i]) == Key(env, g, b[i]) {
      if i < |front| { assert front[i] == b[i] && front[..i + 1] == b[..i + 1]; } else { assert b[..i + 1] == b; }
    }
  }

  lemma {:induction false} FloodWeightsConcat(env: Env, flood: set<string>, a: seq<Row>, b: seq<Row>)
    ensures FloodWeights(env, flood, a + b) == FloodWeights(env, flood, a) + FloodWeights(env, flood, b)
  {
    hide FloodWeight;
    if b == [] {
      assert a + b == a;
    } else {
      assert (a + b)[..|a + b| - 1] == a + b[..|b| - 1];
      FloodWeightsConcat(env, flood, a, b[..|b| - 1]);
    }
  }

  /**
   The merge is the full aggregate exactly if the rows' grouping does not depend on which flood trails were
   known at the time: a row that would be grouped otherwise is missing from the events of its flood trail.
   */
  lemma MergeIsFullExactly(env: Env, a: seq<Row>, b: seq<Row>)
    requires NoDots(env, a + b) && Full(env, a + b).groups.dropped == 0
    ensures Merge(env, Full(env, a), b) == Full(env, a + b) <==>
      SameKeys(env, Full(env, a).flood, Full(env, a + b).flood, a) && KeyedAsMerged(env, Full(env, a), b, Full(env, a + b).flood)
  {
    hide SameKeys, KeyedAsMerged, TotalRows, GroupRows, Merge, Floods, FloodWeights, MergedWeights, Sound;
    MergeIsFull(env, a, b);
    if Merge(env, Full(env, a), b) == Full(env, a + b) {
      var day, flood := Full(env, a), Full(env, a + b).flood;
      assert forall i :: 0 <= i < |a| ==> a[i] == (a + b)[i];
      assert forall i :: 0 <= i < |b| ==> b[i] == (a + b)[|a| + i];
      FullFloods(env, a);
      MergeTotals(env, day, b);
      NothingYet();
      GroupsFlood(env, day.flood, NO_GROUPS, a);
      GroupsFlood(env, flood, NO_GROUPS, a + b);
      MergeFlood(env, day, b);
      FloodWeightsConcat(env, flood, a, b);
      WeightsMove(env, day.flood, flood, a);
      MergedMove(env, day, b, flood);
    }
  }

  lemma NothingYet()
    ensures Sound(NO_GROUPS) && FloodSum(NO_GROUPS.threats) == 0
  {
  }

  // ---- a trail that crosses the threshold in a merge can leave other threats than a full load

  /** A source of n letters. */
  function Name(n: nat): (s: string)
    ensures |s| == n
  {
    seq(n, k => 'a')
  }

  function Scan(i: nat): Row {
    ["", "", Name(i + 1), "", "", "", "", "T", "", "", ""]
  }

  function Scans(n: nat): seq<Row> {
    seq(n, i requires 0 <= i < n => Scan(i))
  }

  function Sources(n: nat): (s: set<string>)
    ensures |s| == n && forall src :: src in s ==> |src| <= n
  {
    if n == 0 then {} else Sources(n - 1) + {Name(n)}
  }

  lemma ScanKeys(env: Env, i: nat, flood: set<string>)
    ensures FloodKey(env, Scan(i)) == env.normTrail("")
    ensures env.normTrail("") in flood ==> Key(env, flood, Scan(i)) == ("..." + "~>" + env.normTrail(""), Flood)
    ensures env.normTrail("") !in flood ==> Key(env, flood, Scan(i)) == (Scan(i)[2] + "~>" + env.normTrail(""), Plain)
  {
    assert !Contains("", "heuristic") && !Contains("", " dns exhaustion ") && !Contains("", " dga ");
  }

  lemma ScanTotal(env: Env, t: Totals, i: nat)
    requires env.isType("T")
    ensures TotalRow(env, t, Scan(i)).trailSrcs == t.trailSrcs[env.normTrail("") := SrcsAt(t.trailSrcs, env.normTrail("")) + {Scan(i)[2]}]
  {
    hide Weight, Bump, BumpHour, HoursAt, SrcsAt, Contains, Key;
    ScanKeys(env, i, {});
  }

  lemma ScansStep(n: nat)
    ensures |Scans(n)| == n && Scans(n + 1) == Scans(n) + [Scan(n)] && Scan(n)[2] == Name(n + 1)
    ensures n > 0 ==> Scans(n)[n - 1] == Scan(n - 1) && Scans(n)[..n - 1] == Scans(n - 1)
  {
  }

  lemma {:induction false} ScanSources(env: Env, n: nat)
    requires env.isType("T")
    ensures TotalRows(env, NO_TOTALS, Scans(n)).trailSrcs == if n == 0 then map[] else map[env.normTrail("") := Sources(n)]
  {
    hide TotalRow, Scans, Scan;
    ScansStep(n);
    if n > 0 {
      ScansStep(n - 1);
      ScanSources(env, n - 1);
      ScanTotal(env, TotalRows(env, NO_TOTALS, Scans(n - 1)), n - 1);
    }
  }

  lemma {:induction false} OneKeyOneThreat(env: Env, flood: set<string>, rows: seq<Row>, key: string)
    requires forall i :: 0 <= i < |rows| && Counts(env, rows[i]) ==> Key(env, flood, rows[i]).0 == key
    ensures var g := GroupRows(env, flood, NO_GROUPS, rows); |g.threats| <= 1 && (|g.threats| == 1 ==> Known(g, key))
  {
    hide Key, Extend, Open;
    if rows != [] {
      var front := rows[..|rows| - 1];
      assert forall i :: 0 <= i < |front| ==> front[i] == rows[i];
      OneKeyOneThreat(env, flood, front, key);
    }
  }

  lemma {:induction false} NeverFewer(env: Env, flood: set<string>, g: Groups, rows: seq<Row>)
    ensures |GroupRows(env, flood, g, rows).threats| >= |g.threats|
  {
    if rows != [] { NeverFewer(env, flood, g, rows[..|rows| - 1]); }
  }

  /** Fifty sources on one trail loaded, the fifty-first merged: other threats than the full load of all 51. */
  lemma NewFloodDiffers(env: Env)
    requires env.isType("T")
    ensures var a, b := Scans(FLOOD_THRESH), [Scan(FLOOD_THRESH)];
      Merge(env, Full(env, a), b).groups.threats != Full(env, a + b).groups.threats
  {
    hide GroupRows, TotalRows, Merge, Scan;
    var a, b := Scans(FLOOD_THRESH), [Scan(FLOOD_THRESH)];
    ScanFlood(env, FLOOD_THRESH);
    TwoThreats(env, a, Full(env, a).flood);
    OneThreat(env, FLOOD_THRESH + 1, Full(env, a + b).flood);
    MergeRowGrows(env, Full(env, a), b);
  }

  lemma ScanFlood(env: Env, n: nat)
    requires env.isType("T") && n == FLOOD_THRESH
    ensures Scans(n) + [Scan(n)] == Scans(n + 1)
    ensures env.normTrail("") !in Full(env, Scans(n)).flood
    ensures env.normTrail("") in Full(env, Scans(n + 1)).flood
  {
    hide GroupRows, TotalRows, Scan, Scans, Sources, Floods;
    ScansStep(n);
    ScanSources(env, n);
    ScanSources(env, n + 1);
    OneTrail(env.normTrail(""), Sources(n));
    OneTrail(env.normTrail(""), Sources(n + 1));
  }

  lemma OneTrail(fk: string, srcs: set<string>)
    ensures fk in Floods(map[fk := srcs]) <==> |srcs| > FLOOD_THRESH
  {
  }

  lemma OneThreat(env: Env, n: nat, flood: set<string>)
    requires env.normTrail("") in flood
    ensures |GroupRows(env, flood, NO_GROUPS, Scans(n)).threats| <= 1
  {
    hide Key, GroupRows;
    var rows, key := Scans(n), "..." + "~>" + env.normTrail("");
    forall i | 0 <= i < |rows| && Counts(env, rows[i]) ensures Key(env, flood, rows[i]).0 == key { ScanKeys(env, i, flood); }
    OneKeyOneThreat(env, flood, rows, key);
  }

  lemma MergeRowGrows(env: Env, a: Aggregate, b: seq<Row>)
    requires |b| == 1
    ensures |Merge(env, a, b).groups.threats| >= |a.groups.threats|
  {
    assert b[..0] == [];
    assert Merge(env, a, b) == MergeRow(env, a, b[0]);
  }

  lemma TwoThreats(env: Env, a: seq<Row>, flood: set<string>)
    requires env.isType("T") && |a| >= 2 && a[0] == Scan(0) && a[1] == Scan(1) && env.normTrail("") !in flood
    ensures |GroupRows(env, flood, NO_GROUPS, a).threats| >= 2
  {
    hide GroupRow, Scan;
    var two := [Scan(0), Scan(1)];
    assert a == two + a[2..];
    GroupsConcat(env, flood, NO_GROUPS, two, a[2..]);
    NeverFewer(env, flood, GroupRows(env, flood, NO_GROUPS, two), a[2..]);
    assert two[..1] == [Scan(0)] && two[..1][..0] == [];
    assert GroupRows(env, flood, NO_GROUPS, two[..1]) == GroupRow(env, flood, NO_GROUPS, Scan(0));
    FirstTwo(env, flood);
  }

  lemma FirstTwo(env: Env, flood: set<string>)
    requires env.isType("T") && env.normTrail("") !in flood
    ensures |GroupRow(env, flood, GroupRow(env, flood, NO_GROUPS, Scan(0)), Scan(1)).threats| == 2
  {
    hide Extend, Key, FloodKey;
    ScanKeys(env, 0, flood);
    ScanKeys(env, 1, flood);
    assert |Scan(0)[2] + "~>" + env.normTrail("")| != |Scan(1)[2] + "~>" + env.normTrail("")|;
  }
}
