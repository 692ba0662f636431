/**
 The aggregate of html/js/engine.js as it is updated in place: aggregateRows() builds it in two passes over
 all rows, mergeRows() folds new rows in, and both are shown to compute what module Threats specifies.
 */
module Engine {
  import opened Text
  import opened Collect
  import opened Threats

  /** The counters per severity agree with the threats. */
  ghost predicate Severities(threats: seq<Threat>, sevCount: seq<nat>, sevHours: seq<seq<nat>>) {
    && |sevCount| == |sevHours| == 4
    && forall s :: 1 <= s <= 3 ==> sevCount[s] == SevCount(threats, s) && HoursOf(threats, s, sevHours[s])
  }

  ghost predicate HoursOf(threats: seq<Threat>, s: nat, hours: seq<nat>) {
    |hours| == DAY && forall h :: 0 <= h < DAY ==> hours[h] == SevHour(threats, s, h)
  }

  lemma SeveritiesPush(threats: seq<Threat>, t: Threat, sevCount: seq<nat>, sevHours: seq<seq<nat>>)
    requires Severities(threats, sevCount, sevHours) && t.hours == Zeros()
    ensures Severities(threats + [t], sevCount[t.sev := sevCount[t.sev] + 1], sevHours)
  {
    forall s | 1 <= s <= 3
      ensures sevCount[t.sev := sevCount[t.sev] + 1][s] == SevCount(threats + [t], s) && HoursOf(threats + [t], s, sevHours[s])
    {
      SumsPush(threats, t, s, 0);
      forall h | 0 <= h < DAY ensures SevHour(threats + [t], s, h) == sevHours[s][h] { SumsPush(threats, t, s, h); }
    }
  }

  lemma SeveritiesExtend(threats: seq<Threat>, i: nat, t: Threat, hr: Hour, w: nat, sevCount: seq<nat>, sevHours: seq<seq<nat>>)
    requires Severities(threats, sevCount, sevHours) && i < |threats| && t.sev == threats[i].sev
    requires |threats[i].hours| == DAY && t.hours == BumpHour(threats[i].hours, hr, w)
    ensures Severities(threats[i := t], sevCount, sevHours[t.sev := BumpHour(sevHours[t.sev], hr, w)])
  {
    var after := sevHours[t.sev := BumpHour(sevHours[t.sev], hr, w)];
    forall s | 1 <= s <= 3
      ensures sevCount[s] == SevCount(threats[i := t], s) && HoursOf(threats[i := t], s, after[s])
    {
      SevAt(threats, i, t, s, 0);
      forall h | 0 <= h < DAY ensures SevHour(threats[i := t], s, h) == after[s][h] {
        SevAt(threats, i, t, s, h);
        assert sevHours[s][h] == SevHour(threats, s, h);
      }
    }
  }

  lemma BumpSize(m: map<string, nat>, k: string, w: nat)
    ensures |Bump(m, k, w)| == |m| + if k in m then 0 else 1
  {
  }

  /** A set of positions in the order they were first added. */
  function AddTo(touched: seq<nat>, i: nat): seq<nat> {
    if i in touched then touched else touched + [i]
  }

  /** The position of the threat a merged row went to; None for a row that is skipped or dropped. */
  function Place(env: Env, a: Aggregate, row: Row): Option<nat> {
    if !Counts(env, row) || MergeRow(env, a, row).groups.dropped > a.groups.dropped then None
    else
      var b := MergeRow(env, a, row);
      var key := Key(env, b.flood, row).0;
      if key in b.groups.byKey then Some(b.groups.byKey[key]) else None
  }

  /** What mergeRows marks touched. */
  function Touched(env: Env, a: Aggregate, rows: seq<Row>, touched: seq<nat>): seq<nat> {
    if rows == [] then touched
    else
      var front := rows[..|rows| - 1];
      Mark(env, Merge(env, a, front), rows[|rows| - 1], Touched(env, a, front, touched))
  }

  function Mark(env: Env, a: Aggregate, row: Row, touched: seq<nat>): seq<nat> {
    match Place(env, a, row) case None => touched case Some(i) => AddTo(touched, i)
  }

  lemma SoundFit(g: Threats.Groups, i: nat)
    requires Sound(g) && i < |g.threats|
    ensures Fit(g.threats[i])
  {
  }

  /** accum() on each of the six columns. */
  method TakeColumns(before: seq<Values>, row: Row) returns (cols: seq<Values>)
    requires |row| >= 11 && |before| == 6 && forall i :: 0 <= i < 6 ==> Proper(before[i])
    ensures cols == Collect6(before, row)
  {
    hide TakeAll, Split, Proper;
    cols := before;
    for q := 0 to 6
      invariant |cols| == 6
      invariant forall p :: 0 <= p < q ==> cols[p] == TakeAll(before[p], Split(row[Column(p)], ','))
      invariant forall p :: q <= p < 6 ==> cols[p] == before[p]
    {
      var more := Accum(cols[q], row[Column(q)]);
      cols := cols[q := more];
    }
  }

  lemma KnownIs(g: Threats.Groups, key: string)
    requires Sound(g)
    ensures Known(g, key) <==> key in g.byKey
  {
  }

  lemma OpenIs(env: Env, key: (string, Kind), row: Row, g: Threats.Groups)
    requires Sound(g) && |row| >= 11 && |g.threats| < MAX_THREATS && key.0 !in g.byKey
    ensures Open(env, key, row).hours == Zeros() && Open(env, key, row).key == key.0
    ensures Sound(g.(threats := g.threats + [Open(env, key, row)], byKey := g.byKey[key.0 := |g.threats|]))
  {
    SumsPush(g.threats, Open(env, key, row), 0, 0);
    assert Fit(Open(env, key, row));
  }

  lemma SeveritiesShape(threats: seq<Threat>, sevCount: seq<nat>, sevHours: seq<seq<nat>>)
    requires Severities(threats, sevCount, sevHours)
    ensures |sevCount| == |sevHours| == 4
  {
  }

  lemma FitHours(t: Threat)
    requires Fit(t)
    ensures |t.hours| == DAY
  {
  }

  lemma ExtendIs(env: Env, t: Threat, row: Row, w: nat, hr: Hour)
    requires |row| >= 11 && w == Weight(env, row) && hr == env.hourOf(row[0])
    ensures forall room :: Extend(env, t, row, room).sev == t.sev && Extend(env, t, row, room).hours == BumpHour(t.hours, hr, w)
  {
  }

  lemma TotalTrails(env: Env, t: Threats.Totals, row: Row)
    requires Counts(env, row)
    ensures TotalRow(env, t, row).trailSrcs == t.trailSrcs[FloodKey(env, row) := SrcsAt(t.trailSrcs, FloodKey(env, row)) + {row[2]}]
  {
  }

  lemma SkippedRow(env: Env, a: Aggregate, row: Row)
    ensures !Counts(env, row) ==> MergeRow(env, a, row) == a && forall touched :: Mark(env, a, row, touched) == touched
  {
  }

  lemma Counting(env: Env, row: Row)
    ensures Counts(env, row) <==> |row| >= 11 && env.isType(row[7])
  {
  }

  /** A row that counts is refused, or stored in the threat of its key. */
  lemma RowSplit(env: Env, flood: set<string>, g: Threats.Groups, row: Row)
    requires Counts(env, row)
    ensures var key := Key(env, flood, row); var grown := Grow(env, g, key, row);
      && GroupRow(env, flood, g, row) ==
           (if !Known(g, key.0) && |g.threats| >= MAX_THREATS then g.(dropped := g.dropped + 1) else Store(env, grown, grown.byKey[key.0], row))
      && (Known(g, key.0) ==> grown == g)
      && grown.dropped == g.dropped
      && Store(env, grown, grown.byKey[key.0], row).dropped == g.dropped
      && Store(env, grown, grown.byKey[key.0], row).byKey == grown.byKey
  {
    hide Key, Extend, Open;
  }

  /** What a row does to an aggregate, given the flood set after it. */
  lemma Merged(env: Env, a: Aggregate, row: Row, flood: set<string>)
    requires Counts(env, row)
    requires flood == Floods(TotalRow(env, a.totals, row).trailSrcs) && a.flood == Floods(a.totals.trailSrcs)
    ensures var g := GroupRow(env, flood, a.groups, row); var key := Key(env, flood, row).0;
      && MergeRow(env, a, row) == Aggregate(TotalRow(env, a.totals, row), flood, g)
      && g.dropped >= a.groups.dropped
      && Place(env, a, row) == (if g.dropped == a.groups.dropped && key in g.byKey then Some(g.byKey[key]) else None)
  {
    FloodsStep(env, a.totals, row);
  }

  lemma TotalRowIs(env: Env, t: Totals, row: Row)
    requires Counts(env, row)
    ensures var (w, hr) := (Weight(env, row), env.hourOf(row[0]));
      TotalRow(env, t, row).(trailSrcs := t.trailSrcs) ==
      Totals(t.events + w, BumpHour(t.hours, hr, w), Bump(t.sources, row[2], w), Bump(t.trails, env.normTrail(row[8]), w),
             Bump(t.types, row[7], w), t.typeHours[row[7] := BumpHour(HoursAt(t.typeHours, row[7]), hr, w)], t.trailSrcs)
  {
    hide Bump, BumpHour, HoursAt, SrcsAt, Weight, FloodKey;
  }

  lemma RowSources(env: Env, t: Totals, row: Row)
    ensures TotalRow(env, t, row).trailSrcs ==
      if Counts(env, row) then t.trailSrcs[FloodKey(env, row) := SrcsAt(t.trailSrcs, FloodKey(env, row)) + {row[2]}] else t.trailSrcs
  {
    hide Bump, BumpHour, HoursAt, SrcsAt, Weight, FloodKey;
  }

  /** A row that counts, merged: its totals, the flood set, its threat, and the mark. */
  lemma MergedRow(env: Env, a: Aggregate, row: Row, totals: Threats.Totals, flood: set<string>, g: Threats.Groups, marks: seq<nat>, touched: seq<nat>)
    requires Counts(env, row) && a.flood == Floods(a.totals.trailSrcs)
    requires totals == TotalRow(env, a.totals, row) && flood == Floods(totals.trailSrcs) && g == GroupRow(env, flood, a.groups, row)
    requires g.dropped > a.groups.dropped ==> touched == marks
    requires g.dropped == a.groups.dropped ==> var key := Key(env, flood, row).0; key in g.byKey && touched == AddTo(marks, g.byKey[key])
    ensures Aggregate(totals, flood, g) == MergeRow(env, a, row) && touched == Mark(env, a, row, marks)
  {
    hide TotalRow, GroupRow, Floods, Key, AddTo, MergeRow, Place;
    Merged(env, a, row, flood);
  }

  class Day {
    const env: Env
    var threats: seq<Threat>
    var byKey: map<string, nat>
    var trailSrcs: map<string, set<string>>
    var flood: set<string>
    var events: nat
    var evStored: nat
    var dropped: nat
    var sources: nat
    var trailsN: nat
    var hours: seq<nat>
    var sevHours: seq<seq<nat>>
    var sevCount: seq<nat>
    var typeCounts: map<string, nat>
    var srcCounts: map<string, nat>
    var trailCounts: map<string, nat>
    var typeHours: map<string, seq<nat>>
    var touched: seq<nat>

    ghost function Totals(): Threats.Totals
      reads `events, `hours, `srcCounts, `trailCounts, `typeCounts, `typeHours, `trailSrcs
    {
      Threats.Totals(events, hours, srcCounts, trailCounts, typeCounts, typeHours, trailSrcs)
    }

    ghost function Groups(): Threats.Groups
      reads `threats, `byKey, `evStored, `dropped
    {
      Threats.Groups(threats, byKey, evStored, dropped)
    }

    ghost function Value(): Aggregate
      reads this
    {
      Aggregate(Totals(), flood, Groups())
    }

    ghost predicate Valid()
      reads this
    {
      && Sound(Groups())
      && flood == Floods(trailSrcs)
      && sources == |srcCounts| && trailsN == |trailCounts|
      && Severities(threats, sevCount, sevHours)
    }

    /** The totals of one row. */
    method AddTotals(row: Row, w: nat, hr: Hour)
      requires Counts(env, row) && w == Weight(env, row) && hr == env.hourOf(row[0])
      requires sources == |srcCounts| && trailsN == |trailCounts|
      modifies `events, `hours, `sources, `trailsN, `srcCounts, `trailCounts, `typeCounts, `typeHours
      ensures Totals() == TotalRow(env, old(Totals()), row).(trailSrcs := old(trailSrcs))
      ensures sources == |srcCounts| && trailsN == |trailCounts|
    {
      hide Bump, BumpHour, HoursAt, SrcsAt, Weight, FloodKey, TotalRow;
      TotalRowIs(env, Totals(), row);
      events := events + w;
      hours := BumpHour(hours, hr, w);
      AddDistinct(row[2], env.normTrail(row[8]), w);
      typeCounts := Bump(typeCounts, row[7], w);
      typeHours := typeHours[row[7] := BumpHour(HoursAt(typeHours, row[7]), hr, w)];
    }

    /** The two counts that come with a running number of distinct keys. */
    method AddDistinct(src: string, nt: string, w: nat)
      requires sources == |srcCounts| && trailsN == |trailCounts|
      modifies `sources, `trailsN, `srcCounts, `trailCounts
      ensures srcCounts == Bump(old(srcCounts), src, w) && trailCounts == Bump(old(trailCounts), nt, w)
      ensures sources == |srcCounts| && trailsN == |trailCounts|
    {
      hide Bump;
      BumpSize(srcCounts, src, w);
      BumpSize(trailCounts, nt, w);
      if src !in srcCounts {
        sources := sources + 1;
      }
      srcCounts := Bump(srcCounts, src, w);
      if nt !in trailCounts {
        trailsN := trailsN + 1;
      }
      trailCounts := Bump(trailCounts, nt, w);
    }

    /** The source of one row, and its trail when that crosses the threshold. */
    method AddSource(row: Row)
      requires Counts(env, row)
      modifies `trailSrcs, `flood
      ensures var (fk, was) := (FloodKey(env, row), old(trailSrcs));
        && trailSrcs == was[fk := SrcsAt(was, fk) + {row[2]}]
        && flood == if row[2] !in SrcsAt(was, fk) && |trailSrcs[fk]| > FLOOD_THRESH then old(flood) + {fk} else old(flood)
    {
      hide Bump, BumpHour, HoursAt, Weight, FloodKey;
      var fk := FloodKey(env, row);
      if fk !in trailSrcs {
        trailSrcs := trailSrcs[fk := {}];
      }
      if row[2] !in trailSrcs[fk] {
        trailSrcs := trailSrcs[fk := trailSrcs[fk] + {row[2]}];
        if fk !in flood && |trailSrcs[fk]| > FLOOD_THRESH {
          flood := flood + {fk};
        }
      } else {
        assert trailSrcs[fk] + {row[2]} == trailSrcs[fk];
      }
    }

    /** The columns, bounds and rows of threat i take one more row in. */
    method StoreRow(i: nat, row: Row, w: nat, hr: Hour)
      requires Sound(Groups()) && i < |threats| && Counts(env, row) && w == Weight(env, row) && hr == env.hourOf(row[0])
      modifies `threats, `evStored
      ensures Groups() == Store(env, old(Groups()), i, row)
    {
      hide BumpHour, Weight, TakeAll, Split, Less, Sound;
      SoundFit(Groups(), i);
      var t := threats[i];
      var cols := TakeColumns(t.cols, row);
      t := t.(count := t.count + w, hours := BumpHour(t.hours, hr, w), cols := cols);
      if evStored < MAX_STORED_EVENTS && |t.events| < MAX_EVENTS_EACH {
        t := t.(events := t.events + [row]);
        evStored := evStored + 1;
      }
      if Less(row[0], t.first) { t := t.(first := row[0]); }
      if Less(t.last, row[0]) { t := t.(last := row[0]); }
      threats := threats[i := t];
    }

    /** The threat of one row. */
    method GroupOne(row: Row, w: nat, hr: Hour)
      requires Sound(Groups()) && Severities(threats, sevCount, sevHours)
      requires Counts(env, row) && w == Weight(env, row) && hr == env.hourOf(row[0])
      modifies `threats, `byKey, `evStored, `dropped, `sevCount, `sevHours, `touched
      ensures Groups() == GroupRow(env, flood, old(Groups()), row)
      ensures Sound(Groups()) && Severities(threats, sevCount, sevHours)
      ensures dropped > old(dropped) ==> touched == old(touched)
      ensures dropped == old(dropped) ==>
        Key(env, flood, row).0 in byKey && touched == AddTo(old(touched), byKey[Key(env, flood, row).0])
    {
      hide Sound, Fit, Severities, Key, Weight, Extend, Open, BumpHour, AddTo, GroupRow, Store, Grow;
      ghost var was := Groups();
      GroupRowSound(env, flood, was, row);
      var key := Key(env, flood, row);
      KnownIs(was, key.0);
      RowSplit(env, flood, was, row);
      if key.0 !in byKey {
        if |threats| >= MAX_THREATS {
          dropped := dropped + 1;
          return;
        }
        OpenThreat(key, row);
      }
      var i := byKey[key.0];
      StoreOne(i, row, w, hr);
      touched := AddTo(touched, i);
    }

    /** A threat of its own for a row. */
    method OpenThreat(key: (string, Kind), row: Row)
      requires Sound(Groups()) && Severities(threats, sevCount, sevHours) && |row| >= 11
      requires key.0 !in byKey && |threats| < MAX_THREATS
      modifies `threats, `byKey, `sevCount
      ensures Groups() == Grow(env, old(Groups()), key, row)
      ensures Sound(Groups()) && Severities(threats, sevCount, sevHours)
    {
      hide Sound, Fit, Severities;
      ghost var was := Groups();
      GrowSound(env, was, key, row);
      KnownIs(was, key.0);
      var t := Open(env, key, row);
      SeveritiesPush(threats, t, sevCount, sevHours);
      SeveritiesShape(threats, sevCount, sevHours);
      byKey := byKey[key.0 := |threats|];
      threats := threats + [t];
      sevCount := sevCount[t.sev := sevCount[t.sev] + 1];
    }

    /** A row stored in threat i, and counted for its severity. */
    method StoreOne(i: nat, row: Row, w: nat, hr: Hour)
      requires Sound(Groups()) && Severities(threats, sevCount, sevHours) && i < |threats|
      requires Counts(env, row) && w == Weight(env, row) && hr == env.hourOf(row[0])
      modifies `threats, `evStored, `sevHours
      ensures Groups() == Store(env, old(Groups()), i, row)
      ensures Severities(threats, sevCount, sevHours)
    {
      hide Sound, Fit, Severities, Weight, Extend, BumpHour;
      ghost var before := threats;
      SoundFit(Groups(), i);
      FitHours(threats[i]);
      StoreRow(i, row, w, hr);
      ExtendIs(env, before[i], row, w, hr);
      SeveritiesExtend(before, i, threats[i], hr, w, sevCount, sevHours);
      SeveritiesShape(before, sevCount, sevHours);
      var sev := threats[i].sev;
      sevHours := sevHours[sev := BumpHour(sevHours[sev], hr, w)];
    }

    /** The totals of one merged row, its source and its trail. */
    method CountOne(row: Row, w: nat, hr: Hour)
      requires Counts(env, row) && w == Weight(env, row) && hr == env.hourOf(row[0])
      requires sources == |srcCounts| && trailsN == |trailCounts| && flood == Floods(trailSrcs)
      modifies `events, `hours, `sources, `trailsN, `srcCounts, `trailCounts, `typeCounts, `typeHours, `trailSrcs, `flood
      ensures Totals() == TotalRow(env, old(Totals()), row)
      ensures sources == |srcCounts| && trailsN == |trailCounts| && flood == Floods(trailSrcs)
    {
      hide Weight, TotalRow, Floods, SrcsAt, FloodKey;
      FloodsStep(env, Totals(), row);
      TotalTrails(env, Totals(), row);
      AddTotals(row, w, hr);
      AddSource(row);
    }

    /** One row of mergeRows. */
    method MergeOne(row: Row)
      requires Valid()
      modifies this
      ensures Valid() && Value() == MergeRow(env, old(Value()), row)
      ensures touched == Mark(env, old(Value()), row, old(touched))
    {
      hide MergeRow, Mark, Counts, Valid, Value;
      Counting(env, row);
      SkippedRow(env, Value(), row);
      if |row| < 11 { return; }
      if !env.isType(row[7]) { return; }
      MergeCounted(row, Weight(env, row), env.hourOf(row[0]));
    }

    method MergeCounted(row: Row, w: nat, hr: Hour)
      requires Valid() && Counts(env, row) && w == Weight(env, row) && hr == env.hourOf(row[0])
      modifies this
      ensures Valid() && Value() == MergeRow(env, old(Value()), row)
      ensures touched == Mark(env, old(Value()), row, old(touched))
    {
      hide Sound, Severities, Key, Weight, AddTo, TotalRow, GroupRow, Floods, MergeRow, Counts, Valid, Value, Mark, SrcsAt, FloodKey, Place;
      ghost var totals, groups, known, marks := Totals(), Groups(), flood, touched;
      ValidParts();
      CountOne(row, w, hr);
      ghost var counted := Totals();
      assert Groups() == groups;
      GroupOne(row, w, hr);
      assert Totals() == counted;
      MergedRow(env, Aggregate(totals, known, groups), row, counted, flood, Groups(), marks, touched);
      PartsValid();
    }

    lemma ValidParts()
      requires Valid()
      ensures Sound(Groups()) && Severities(threats, sevCount, sevHours)
      ensures flood == Floods(trailSrcs) && sources == |srcCounts| && trailsN == |trailCounts|
      ensures Value() == Aggregate(Totals(), flood, Groups())
    {
    }

    lemma PartsValid()
      requires Sound(Groups()) && Severities(threats, sevCount, sevHours)
      requires flood == Floods(trailSrcs) && sources == |srcCounts| && trailsN == |trailCounts|
      ensures Valid() && Value() == Aggregate(Totals(), flood, Groups())
    {
    }

    /** Folds the rows in, and marks the threats they went to. */
    method MergeRows(rows: seq<Row>)
      requires Valid()
      modifies this
      ensures Valid() && Value() == Merge(env, old(Value()), rows)
      ensures touched == Touched(env, old(Value()), rows, old(touched))
    {
      for r := 0 to |rows|
        invariant Valid() && Value() == Merge(env, old(Value()), rows[..r])
        invariant touched == Touched(env, old(Value()), rows[..r], old(touched))
      {
        assert rows[..r + 1][..r] == rows[..r];
        MergeOne(rows[r]);
      }
      assert rows[..|rows|] == rows;
    }

    /** The full aggregate of the rows: flood trails first, then the threats, then uids and severities. */
    constructor (env: Env, rows: seq<Row>)
      ensures Valid() && this.env == env && Value() == Full(env, rows) && touched == []
    {
      this.env := env;
      threats, byKey, evStored, dropped := [], map[], 0, 0;
      trailSrcs, flood := map[], {};
      events, hours, sources, trailsN := 0, Zeros(), 0, 0;
      srcCounts, trailCounts, typeCounts, typeHours := map[], map[], map[], map[];
      sevCount, sevHours := [0, 0, 0, 0], [Zeros(), Zeros(), Zeros(), Zeros()];
      touched := [];
      new;
      Load(rows);
    }

    method Load(rows: seq<Row>)
      requires Totals() == NO_TOTALS && Groups() == NO_GROUPS && flood == {} && sources == trailsN == 0
      requires sevCount == [0, 0, 0, 0] && sevHours == [Zeros(), Zeros(), Zeros(), Zeros()]
      modifies this
      ensures Valid() && Value() == Full(env, rows) && touched == old(touched)
    {
      hide TotalRows, GroupRows, Zeros, Sound, Named, Severities;
      FindFlood(rows);
      ghost var unnamed := env.(uid := (k, kind) => "");
      NoRows(env);
      GroupAll(rows, unnamed);
      GroupsNamed(env, unnamed, flood, rows);
      ghost var groups := Groups();
      ThirdPass();
      NamedSound(env, groups);
    }

    /** The first loop. */
    method FindFlood(rows: seq<Row>)
      requires trailSrcs == map[]
      modifies `trailSrcs, `flood
      ensures trailSrcs == TotalRows(env, NO_TOTALS, rows).trailSrcs && flood == Floods(trailSrcs)
    {
      hide TotalRows, TotalRow;
      NoRows(env);
      for r := 0 to |rows|
        invariant trailSrcs == TotalRows(env, NO_TOTALS, rows[..r]).trailSrcs
      {
        NextRow(env, env, {}, rows, r);
        FirstPass(rows[r], TotalRows(env, NO_TOTALS, rows[..r]));
      }
      assert rows[..|rows|] == rows;
      flood := set fk | fk in trailSrcs && |trailSrcs[fk]| > FLOOD_THRESH;
    }

    /** The second loop. */
    method GroupAll(rows: seq<Row>, ghost unnamed: Env)
      requires unnamed == env.(uid := unnamed.uid) && forall k, kind :: unnamed.uid(k, kind) == ""
      requires Totals() == NO_TOTALS.(trailSrcs := trailSrcs) && Groups() == NO_GROUPS && sources == trailsN == 0
      modifies `threats, `byKey, `evStored, `dropped, `events, `hours, `sources, `trailsN, `srcCounts, `trailCounts, `typeCounts, `typeHours
      ensures Totals() == TotalRows(env, NO_TOTALS, rows).(trailSrcs := trailSrcs)
      ensures sources == |srcCounts| && trailsN == |trailCounts|
      ensures Groups() == GroupRows(unnamed, flood, NO_GROUPS, rows) && Sound(Groups())
    {
      hide TotalRows, TotalRow, GroupRows, GroupRow, Sound;
      NoRows(env);
      for r := 0 to |rows|
        invariant Totals() == TotalRows(env, NO_TOTALS, rows[..r]).(trailSrcs := trailSrcs)
        invariant sources == |srcCounts| && trailsN == |trailCounts|
        invariant Groups() == GroupRows(unnamed, flood, NO_GROUPS, rows[..r]) && Sound(Groups())
      {
        NextRow(env, unnamed, flood, rows, r);
        SecondPass(rows[r], unnamed, TotalRows(env, NO_TOTALS, rows[..r]));
      }
      assert rows[..|rows|] == rows;
    }

    /** A row of the first pass. */
    method FirstPass(row: Row, ghost before: Threats.Totals)
      requires trailSrcs == before.trailSrcs
      modifies `trailSrcs
      ensures trailSrcs == TotalRow(env, before, row).trailSrcs
    {
      hide TotalRow, FloodKey;
      RowSources(env, before, row);
      if |row| < 11 { return; }
      if !env.isType(row[7]) { return; }
      var fk := FloodKey(env, row);
      if fk !in trailSrcs {
        trailSrcs := trailSrcs[fk := {}];
      }
      trailSrcs := trailSrcs[fk := trailSrcs[fk] + {row[2]}];
    }

    /** A row of the second pass; the threats get their uids later. */
    method SecondPass(row: Row, ghost unnamed: Env, ghost before: Threats.Totals)
      requires unnamed == env.(uid := unnamed.uid) && forall k, kind :: unnamed.uid(k, kind) == ""
      requires Sound(Groups()) && sources == |srcCounts| && trailsN == |trailCounts|
      requires Totals() == before.(trailSrcs := trailSrcs)
      modifies `threats, `byKey, `evStored, `dropped, `events, `hours, `sources, `trailsN, `srcCounts, `trailCounts, `typeCounts, `typeHours
      ensures Totals() == TotalRow(env, before, row).(trailSrcs := trailSrcs)
      ensures sources == |srcCounts| && trailsN == |trailCounts|
      ensures Groups() == GroupRow(unnamed, flood, old(Groups()), row) && Sound(Groups())
    {
      hide Sound, TotalRow, GroupRow, Weight;
      Skipped(env, unnamed, flood, before, Groups(), row);
      if |row| < 11 { return; }
      if !env.isType(row[7]) { return; }
      var w, hr := Weight(env, row), env.hourOf(row[0]);
      TotalApart(env, before, row, trailSrcs);
      AddTotals(row, w, hr);
      GroupUnnamed(row, w, hr, unnamed);
    }

    /** The threat of a row in the second pass. */
    method GroupUnnamed(row: Row, w: nat, hr: Hour, ghost unnamed: Env)
      requires unnamed == env.(uid := unnamed.uid) && forall k, kind :: unnamed.uid(k, kind) == ""
      requires Sound(Groups())
      requires Counts(env, row) && w == Weight(env, row) && hr == env.hourOf(row[0])
      modifies `threats, `byKey, `evStored, `dropped
      ensures Groups() == GroupRow(unnamed, flood, old(Groups()), row) && Sound(Groups())
    {
      hide Sound, GroupRow, Weight, Store, Key, Open;
      GroupRowSound(unnamed, flood, Groups(), row);
      UnnamedIs(env, unnamed, flood, Groups(), row);
      var key := Key(env, flood, row);
      if key.0 !in byKey {
        if |threats| >= MAX_THREATS {
          dropped := dropped + 1;
          return;
        }
        var t := Open(env, key, row).(uid := "");
        byKey := byKey[key.0 := |threats|];
        threats := threats + [t];
      }
      StoreRow(byKey[key.0], row, w, hr);
    }

    /** The last loop: uids, and the counters per severity. */
    method ThirdPass()
      requires Sound(Groups())
      requires sevCount == [0, 0, 0, 0] && sevHours == [Zeros(), Zeros(), Zeros(), Zeros()]
      modifies `threats, `sevCount, `sevHours
      ensures threats == Named(env, old(threats))
      ensures Severities(threats, sevCount, sevHours)
    {
      hide Sound, Severities, NamedTo, Named, AddHours;
      ghost var was := threats;
      ghost var groups := Groups();
      NamedEnds(env, was, sevCount, sevHours);
      var i := 0;
      while i < |threats|
        invariant 0 <= i <= |threats| == |was|
        invariant threats == NamedTo(env, was, i)
        invariant Severities(Named(env, was[..i]), sevCount, sevHours)
      {
        NamedNext(env, was, i);
        SoundFit(groups, i);
        FitHours(was[i]);
        var t := threats[i].(uid := env.uid(threats[i].key, threats[i].kind));
        SeveritiesShape(Named(env, was[..i]), sevCount, sevHours);
        SeveritiesAdd(Named(env, was[..i]), t, sevCount, sevHours);
        sevCount := sevCount[t.sev := sevCount[t.sev] + 1];
        sevHours := sevHours[t.sev := AddHours(sevHours[t.sev], t.hours)];
        threats := threats[i := t];
        i := i + 1;
      }
      assert was[..i] == was;
    }
  }

  lemma NoRows(env: Env)
    ensures forall t :: TotalRows(env, t, []) == t
    ensures forall e: Env, flood, g :: GroupRows(e, flood, g, []) == g
    ensures Sound(NO_GROUPS)
  {
  }

  lemma NextRow(env: Env, unnamed: Env, flood: set<string>, rows: seq<Row>, r: nat)
    requires r < |rows|
    ensures TotalRows(env, NO_TOTALS, rows[..r + 1]) == TotalRow(env, TotalRows(env, NO_TOTALS, rows[..r]), rows[r])
    ensures GroupRows(unnamed, flood, NO_GROUPS, rows[..r + 1]) == GroupRow(unnamed, flood, GroupRows(unnamed, flood, NO_GROUPS, rows[..r]), rows[r])
  {
    assert rows[..r + 1][..r] == rows[..r];
  }

  lemma NamedSound(env: Env, g: Threats.Groups)
    requires Sound(g)
    ensures Sound(g.(threats := Named(env, g.threats)))
  {
    NamedSums(env, g.threats);
    var n := Named(env, g.threats);
    forall i | 0 <= i < |n| ensures Fit(n[i]) { assert Fit(g.threats[i]); }
  }

  lemma {:induction false} NamedSums(env: Env, threats: seq<Threat>)
    ensures StoredSum(Named(env, threats)) == StoredSum(threats)
  {
    if threats != [] {
      NamedSums(env, threats[..|threats| - 1]);
      assert Named(env, threats)[..|threats| - 1] == Named(env, threats[..|threats| - 1]);
    }
  }

  lemma Skipped(env: Env, unnamed: Env, flood: set<string>, t: Threats.Totals, g: Threats.Groups, row: Row)
    requires unnamed == env.(uid := unnamed.uid)
    ensures !Counts(env, row) ==> TotalRow(env, t, row) == t && GroupRow(unnamed, flood, g, row) == g
  {
  }

  /** The other totals do not look at the sources per trail. */
  lemma TotalApart(env: Env, t: Threats.Totals, row: Row, trailSrcs: map<string, set<string>>)
    ensures TotalRow(env, t.(trailSrcs := trailSrcs), row).(trailSrcs := trailSrcs) == TotalRow(env, t, row).(trailSrcs := trailSrcs)
  {
  }

  lemma UnnamedIs(env: Env, unnamed: Env, flood: set<string>, g: Threats.Groups, row: Row)
    requires unnamed == env.(uid := unnamed.uid) && forall k, kind :: unnamed.uid(k, kind) == ""
    requires Sound(g) && Counts(env, row)
    ensures var key := Key(env, flood, row);
      && (key.0 !in g.byKey && |g.threats| >= MAX_THREATS ==> GroupRow(unnamed, flood, g, row) == g.(dropped := g.dropped + 1))
      && (key.0 !in g.byKey && |g.threats| < MAX_THREATS ==>
            var grown := g.(threats := g.threats + [Open(env, key, row).(uid := "")], byKey := g.byKey[key.0 := |g.threats|]);
            Sound(grown) && GroupRow(unnamed, flood, g, row) == Store(env, grown, |g.threats|, row))
      && (key.0 in g.byKey ==> g.byKey[key.0] < |g.threats| && GroupRow(unnamed, flood, g, row) == Store(env, g, g.byKey[key.0], row))
  {
    hide Extend, Key, Weight;
    SameEnv(env, unnamed, flood, row);
    var key := Key(env, flood, row);
    if key.0 !in g.byKey && |g.threats| < MAX_THREATS {
      OpenIs(unnamed, key, row, g);
      StoreSame(env, unnamed, g.(threats := g.threats + [Open(unnamed, key, row)], byKey := g.byKey[key.0 := |g.threats|]), |g.threats|, row);
    } else if key.0 in g.byKey {
      StoreSame(env, unnamed, g, g.byKey[key.0], row);
    }
  }

  lemma StoreSame(env: Env, unnamed: Env, g: Threats.Groups, i: nat, row: Row)
    requires unnamed == env.(uid := unnamed.uid) && i < |g.threats| && |row| >= 11
    ensures Store(env, g, i, row) == Store(unnamed, g, i, row)
  {
  }

  /** The first n threats named, the others not yet. */
  function NamedTo(env: Env, threats: seq<Threat>, n: nat): (r: seq<Threat>)
    requires n <= |threats|
    ensures |r| == |threats|
  {
    Named(env, threats[..n]) + threats[n..]
  }

  lemma NamedNext(env: Env, threats: seq<Threat>, i: nat)
    requires i < |threats|
    ensures NamedTo(env, threats, i)[i] == threats[i]
    ensures var t := threats[i].(uid := env.uid(threats[i].key, threats[i].kind));
      && NamedTo(env, threats, i)[i := t] == NamedTo(env, threats, i + 1)
      && Named(env, threats[..i + 1]) == Named(env, threats[..i]) + [t]
  {
  }

  lemma NamedEnds(env: Env, threats: seq<Threat>, sevCount: seq<nat>, sevHours: seq<seq<nat>>)
    requires sevCount == [0, 0, 0, 0] && sevHours == [Zeros(), Zeros(), Zeros(), Zeros()]
    ensures NamedTo(env, threats, 0) == threats && NamedTo(env, threats, |threats|) == Named(env, threats)
    ensures Severities(Named(env, threats[..0]), sevCount, sevHours)
  {
    assert threats[..|threats|] == threats && Named(env, threats[..0]) == [];
  }

  function Named(env: Env, threats: seq<Threat>): (r: seq<Threat>)
    ensures |r| == |threats|
  {
    seq(|threats|, i requires 0 <= i < |threats| => threats[i].(uid := env.uid(threats[i].key, threats[i].kind)))
  }

  function AddHours(a: seq<nat>, b: seq<nat>): seq<nat> {
    if |a| == |b| then seq(|a|, i requires 0 <= i < |a| && |a| == |b| => a[i] + b[i]) else a
  }

  lemma SeveritiesAdd(threats: seq<Threat>, t: Threat, sevCount: seq<nat>, sevHours: seq<seq<nat>>)
    requires Severities(threats, sevCount, sevHours) && |t.hours| == DAY
    ensures Severities(threats + [t], sevCount[t.sev := sevCount[t.sev] + 1], sevHours[t.sev := AddHours(sevHours[t.sev], t.hours)])
  {
    var after := sevHours[t.sev := AddHours(sevHours[t.sev], t.hours)];
    forall s | 1 <= s <= 3
      ensures sevCount[t.sev := sevCount[t.sev] + 1][s] == SevCount(threats + [t], s) && HoursOf(threats + [t], s, after[s])
    {
      SumsPush(threats, t, s, 0);
      forall h | 0 <= h < DAY ensures SevHour(threats + [t], s, h) == after[s][h] {
        SumsPush(threats, t, s, h);
        assert sevHours[s][h] == SevHour(threats, s, h);
      }
    }
  }

  /** Naming the threats at the end gives what naming them when they open does. */
  lemma {:induction false} GroupsNamed(env: Env, unnamed: Env, flood: set<string>, rows: seq<Row>)
    requires unnamed == env.(uid := unnamed.uid)
    ensures var g := GroupRows(unnamed, flood, NO_GROUPS, rows);
      GroupRows(env, flood, NO_GROUPS, rows) == g.(threats := Named(env, g.threats))
  {
    if rows == [] {
      assert Named(env, []) == [];
    } else {
      GroupsNamed(env, unnamed, flood, rows[..|rows| - 1]);
      RowNamed(env, unnamed, flood, GroupRows(unnamed, flood, NO_GROUPS, rows[..|rows| - 1]), rows[|rows| - 1]);
    }
  }

  lemma RowNamed(env: Env, unnamed: Env, flood: set<string>, g: Threats.Groups, row: Row)
    requires unnamed == env.(uid := unnamed.uid)
    ensures var n := GroupRow(unnamed, flood, g, row);
      GroupRow(env, flood, g.(threats := Named(env, g.threats)), row) == n.(threats := Named(env, n.threats))
  {
    if !Counts(env, row) { return; }
    SameEnv(env, unnamed, flood, row);
    var key := Key(env, flood, row);
    var named := g.(threats := Named(env, g.threats));
    if !Known(g, key.0) {
      if |g.threats| >= MAX_THREATS { return; }
      var a, b := Open(env, key, row), Open(unnamed, key, row);
      assert Named(env, g.threats) + [a] == Named(env, g.threats + [b]);
      StoreNamed(env, unnamed, g.(threats := g.threats + [b], byKey := g.byKey[key.0 := |g.threats|]), |g.threats|, row);
    } else {
      StoreNamed(env, unnamed, g, g.byKey[key.0], row);
    }
  }

  lemma SameEnv(env: Env, unnamed: Env, flood: set<string>, row: Row)
    requires unnamed == env.(uid := unnamed.uid) && |row| >= 11
    ensures Key(env, flood, row) == Key(unnamed, flood, row) && Weight(env, row) == Weight(unnamed, row)
  {
  }

  lemma StoreNamed(env: Env, unnamed: Env, g: Threats.Groups, i: nat, row: Row)
    requires unnamed == env.(uid := unnamed.uid) && i < |g.threats| && |row| >= 11
    ensures var n := Store(unnamed, g, i, row);
      Store(env, g.(threats := Named(env, g.threats)), i, row) == n.(threats := Named(env, n.threats))
  {
    var n := Store(unnamed, g, i, row);
    assert Store(env, g.(threats := Named(env, g.threats)), i, row).threats == Named(env, n.threats);
  }
}
