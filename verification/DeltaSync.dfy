/**
 The delta protocol between the dashboard's worker (html/js/worker.js) and its page (html/js/main.js): new
 threats whole, and of the ones already sent only what moved. Threats are identified by position.
 */
module DeltaSync {
  import opened Text
  import opened Collect
  import opened Threats
  import opened Engine

  /** What the worker remembers of a threat it sent. */
  datatype Info = Info(rows: nat, sizes: seq<nat>, first: string, last: string)

  /** A threat on the wire: the values of its six sets back to back, how many belong to each, and which are capped. */
  datatype Record = Record(threat: Threat, values: seq<string>, lens: seq<nat>, caps: seq<bool>)

  datatype Growth = Growth(added: seq<string>, lens: seq<nat>, caps: seq<bool>)

  /** What moved; None stands for the null, or the missing entry, of an unchanged part. */
  datatype Update = Update(idx: nat, count: nat, first: Option<string>, last: Option<string>, hours: seq<nat>,
                           rows: seq<Row>, growth: Option<Growth>)

  datatype Delta = Delta(records: seq<Record>, updates: seq<Update>)

  // ---- flat lists of values

  function Flat(parts: seq<seq<string>>): seq<string> {
    if parts == [] then [] else parts[0] + Flat(parts[1..])
  }

  function Lens(parts: seq<seq<string>>): (r: seq<nat>)
    ensures |r| == |parts|
  {
    seq(|parts|, i requires 0 <= i < |parts| => |parts[i]|)
  }

  function Sum(lens: seq<nat>): nat {
    if lens == [] then 0 else lens[0] + Sum(lens[1..])
  }

  /** Back from the flat list to its parts. */
  function Parts(values: seq<string>, lens: seq<nat>): (r: seq<seq<string>>)
    ensures |r| == |lens|
    decreases |lens|
  {
    if lens == [] then []
    else if lens[0] > |values| then [values] + Parts([], lens[1..])
    else [values[..lens[0]]] + Parts(values[lens[0]..], lens[1..])
  }

  lemma {:induction false} PartsOfFlat(parts: seq<seq<string>>)
    ensures Parts(Flat(parts), Lens(parts)) == parts
  {
    if parts != [] {
      PartsOfFlat(parts[1..]);
      assert Lens(parts)[1..] == Lens(parts[1..]);
      assert Flat(parts)[..|parts[0]|] == parts[0] && Flat(parts)[|parts[0]|..] == Flat(parts[1..]);
    }
  }

  /** JavaScript's Set.add for each value in turn. */
  function AddAll(vals: seq<string>, more: seq<string>): seq<string>
    decreases |more|
  {
    if more == [] then vals else AddAll(Add(vals, more[0]), more[1..])
  }

  lemma {:induction false} AddAllNew(vals: seq<string>, more: seq<string>)
    requires forall i, j :: 0 <= i < j < |vals + more| ==> (vals + more)[i] != (vals + more)[j]
    ensures AddAll(vals, more) == vals + more
    decreases |more|
  {
    if more != [] {
      assert forall i :: 0 <= i < |vals| ==> vals[i] == (vals + more)[i] != (vals + more)[|vals|] == more[0];
      assert (vals + [more[0]]) + more[1..] == vals + more;
      AddAllNew(vals + [more[0]], more[1..]);
    } else {
      assert vals + more == vals;
    }
  }

  // ---- the worker's side

  function Vals(cols: seq<Values>): (r: seq<seq<string>>)
    ensures |r| == |cols|
  {
    seq(|cols|, i requires 0 <= i < |cols| => cols[i].vals)
  }

  function Caps(cols: seq<Values>): (r: seq<bool>)
    ensures |r| == |cols|
  {
    seq(|cols|, i requires 0 <= i < |cols| => cols[i].capped)
  }

  function InfoOf(t: Threat): Info {
    Info(|t.events|, Lens(Vals(t.cols)), t.first, t.last)
  }

  function RecordOf(t: Threat): Record {
    Record(t, Flat(Vals(t.cols)), Lens(Vals(t.cols)), Caps(t.cols))
  }

  /** The values each set gained since. */
  function Gains(cols: seq<Values>, sizes: seq<nat>): (r: seq<seq<string>>)
    requires |sizes| == |cols|
    ensures |r| == |cols|
  {
    seq(|cols|, i requires 0 <= i < |cols| => if sizes[i] <= |cols[i].vals| then cols[i].vals[sizes[i]..] else [])
  }

  function GrowthOf(cols: seq<Values>, sizes: seq<nat>): Option<Growth>
    requires |sizes| == |cols|
  {
    if forall i :: 0 <= i < |cols| ==> |cols[i].vals| == sizes[i] then None
    else Some(Growth(Flat(Gains(cols, sizes)), Lens(Gains(cols, sizes)), Caps(cols)))
  }

  function UpdateOf(i: nat, t: Threat, info: Info): Update
    requires |info.sizes| == |t.cols|
  {
    Update(i, t.count, if t.first != info.first then Some(t.first) else None, if t.last != info.last then Some(t.last) else None,
      t.hours, if |t.events| > info.rows then t.events[info.rows..] else [], GrowthOf(t.cols, info.sizes))
  }

  // ---- the page's side

  function SetCols(values: seq<string>, lens: seq<nat>, caps: seq<bool>): (cols: seq<Values>)
    requires |caps| == |lens|
    ensures |cols| == |lens|
  {
    var parts := Parts(values, lens);
    seq(|lens|, i requires 0 <= i < |lens| => Values(if caps[i] then MAX_CONDENSED else lens[i], caps[i], AddAll([], parts[i])))
  }

  function GrowCols(cols: seq<Values>, g: Growth): (r: seq<Values>)
    requires |g.lens| == |g.caps| == |cols|
    ensures |r| == |cols|
  {
    var parts := Parts(g.added, g.lens);
    seq(|cols|, i requires 0 <= i < |cols| =>
      var vals := AddAll(cols[i].vals, parts[i]); Values(if g.caps[i] then MAX_CONDENSED else |vals|, g.caps[i], vals))
  }

  function FromRecord(r: Record): Threat {
    if |r.caps| == |r.lens| then r.threat.(cols := SetCols(r.values, r.lens, r.caps)) else r.threat
  }

  function Updated(t: Threat, u: Update): Threat {
    t.(count := u.count,
       first := if u.first.Some? then u.first.value else t.first,
       last := if u.last.Some? then u.last.value else t.last,
       hours := u.hours,
       events := t.events + u.rows,
       cols := if u.growth.Some? && |u.growth.value.lens| == |u.growth.value.caps| == |t.cols| then GrowCols(t.cols, u.growth.value) else t.cols)
  }

  function ApplyUpdates(page: seq<Threat>, us: seq<Update>): (r: seq<Threat>)
    ensures |r| == |page|
    decreases |us|
  {
    if us == [] then page
    else
      var before, u := ApplyUpdates(page, us[..|us| - 1]), us[|us| - 1];
      if u.idx < |before| then before[u.idx := Updated(before[u.idx], u)] else before
  }

  function FromRecords(rs: seq<Record>): (r: seq<Threat>)
    ensures |r| == |rs|
  {
    seq(|rs|, i requires 0 <= i < |rs| => FromRecord(rs[i]))
  }

  function ApplyDelta(page: seq<Threat>, d: Delta): seq<Threat> {
    ApplyUpdates(page + FromRecords(d.records), d.updates)
  }

  // ---- one threat, sent whole or updated, is the worker's

  /**
   The page's copy of a threat. Only the capped flag of a set may lag, and only where the ellipsis that
   closed the set was one of its hundred values already, so that closing it added nothing to send.
   */
  ghost predicate Copy(page: Threat, t: Threat) {
    && page == t.(cols := page.cols)
    && |page.cols| == |t.cols|
    && forall i :: 0 <= i < |t.cols| ==> CopyOf(page.cols[i], t.cols[i])
  }

  ghost predicate CopyOf(page: Values, s: Values) {
    && page.vals == s.vals && page.n == s.n
    && (page.capped == s.capped || (s.capped && |s.vals| == MAX_CONDENSED))
  }

  ghost predicate Grew(from: Values, to: Values) {
    Proper(from) && Proper(to) && from.vals <= to.vals && (from.capped ==> to.capped)
  }

  /** What may happen to a threat between two deltas. */
  ghost predicate Moved(from: Threat, to: Threat) {
    && to == from.(count := to.count, first := to.first, last := to.last, hours := to.hours, cols := to.cols, events := to.events)
    && from.events <= to.events
    && |from.cols| == |to.cols|
    && forall i :: 0 <= i < |to.cols| ==> Grew(from.cols[i], to.cols[i])
  }

  lemma RecordCopies(t: Threat)
    requires forall i :: 0 <= i < |t.cols| ==> Proper(t.cols[i])
    ensures FromRecord(RecordOf(t)) == t
  {
    PartsOfFlat(Vals(t.cols));
    forall i | 0 <= i < |t.cols| ensures AddAll([], t.cols[i].vals) == t.cols[i].vals {
      assert [] + t.cols[i].vals == t.cols[i].vals;
      AddAllNew([], t.cols[i].vals);
    }
    assert FromRecord(RecordOf(t)).cols == t.cols;
  }

  lemma GrowthCopies(page: seq<Values>, from: seq<Values>, to: seq<Values>)
    requires |page| == |from| == |to|
    requires forall i :: 0 <= i < |to| ==> CopyOf(page[i], from[i]) && Grew(from[i], to[i])
    ensures var g := GrowthOf(to, Lens(Vals(from)));
      var after := if g.Some? then GrowCols(page, g.value) else page;
      forall i :: 0 <= i < |to| ==> CopyOf(after[i], to[i])
  {
    var sizes := Lens(Vals(from));
    var gains := Gains(to, sizes);
    PartsOfFlat(gains);
    forall i | 0 <= i < |to|
      ensures page[i].vals + gains[i] == to[i].vals && AddAll(page[i].vals, gains[i]) == to[i].vals
    {
      assert to[i].vals == from[i].vals + to[i].vals[|from[i].vals|..];
      AddAllNew(page[i].vals, gains[i]);
    }
  }

  lemma UpdateCopies(page: Threat, from: Threat, to: Threat, i: nat)
    requires Copy(page, from) && Moved(from, to)
    ensures Copy(Updated(page, UpdateOf(i, to, InfoOf(from))), to)
  {
    GrowthCopies(page.cols, from.cols, to.cols);
    assert to.events == from.events + to.events[|from.events|..];
  }

  /** The lagging flag is real: an ellipsis among a hundred logged values closes its set unseen. */
  lemma CapLags(s: Values, part: string)
    requires Proper(s) && !s.capped && s.n == MAX_CONDENSED && ELLIPSIS in s.vals && part != "" && part !in s.vals
    ensures Take(s, part).capped && GrowthOf([Take(s, part)], Lens(Vals([s]))) == None
  {
    assert Lens(Vals([s]))[0] == |s.vals|;
  }

  // ---- what a merge moves, and what it marks

  ghost predicate AllMoved(from: seq<Threat>, to: seq<Threat>, touched: seq<nat>) {
    && |from| <= |to|
    && forall i :: 0 <= i < |from| ==> Moved(from[i], to[i]) && (i !in touched ==> to[i] == from[i])
  }

  ghost predicate Places(touched: seq<nat>, n: nat) {
    && (forall k :: 0 <= k < |touched| ==> touched[k] < n)
    && AllDistinct(touched)
  }

  lemma MovedSelf(t: Threat)
    requires Fit(t)
    ensures Moved(t, t)
  {
  }

  lemma MovedOn(a: Threat, b: Threat, c: Threat)
    requires Moved(a, b) && Moved(b, c)
    ensures Moved(a, c)
  {
    hide Proper;
  }

  lemma RowMoves(env: Env, a: Aggregate, row: Row, touched: seq<nat>)
    requires Sound(a.groups) && a.flood == Floods(a.totals.trailSrcs) && Places(touched, |a.groups.threats|)
    ensures var b := MergeRow(env, a, row);
      var marked := Mark(env, a, row, touched);
      && AllMoved(a.groups.threats, b.groups.threats, marked)
      && Places(marked, |b.groups.threats|)
      && (forall i :: i in touched ==> i in marked)
  {
    hide Moved, Sound, Key, Floods, TotalRow, MergeRow, GroupRow, Place;
    forall i | 0 <= i < |a.groups.threats| ensures Moved(a.groups.threats[i], a.groups.threats[i]) {
      SoundFit(a.groups, i);
      MovedSelf(a.groups.threats[i]);
    }
    SkippedRow(env, a, row);
    if !Counts(env, row) { return; }
    var flood := Floods(TotalRow(env, a.totals, row).trailSrcs);
    Merged(env, a, row, flood);
    GroupMoves(env, flood, a.groups, row);
  }

  lemma GroupMoves(env: Env, flood: set<string>, g: Groups, row: Row)
    requires Sound(g) && Counts(env, row)
    ensures var r := GroupRow(env, flood, g, row); var key := Key(env, flood, row).0;
      && |g.threats| <= |r.threats|
      && (r.dropped > g.dropped ==> r.threats == g.threats)
      && (r.dropped == g.dropped ==> key in r.byKey && r.byKey[key] < |r.threats|)
      && (forall i :: 0 <= i < |g.threats| ==>
            Moved(g.threats[i], r.threats[i]) && (!(key in r.byKey && r.byKey[key] == i) || r.dropped > g.dropped ==> r.threats[i] == g.threats[i]))
  {
    hide Proper, Extend, Key, Weight, Open;
    forall i | 0 <= i < |g.threats|
      ensures Moved(g.threats[i], g.threats[i])
      ensures Moved(g.threats[i], Extend(env, g.threats[i], row, g.stored < MAX_STORED_EVENTS))
    {
      MovedSelf(g.threats[i]);
      ExtendMoves(env, g.threats[i], row, g.stored < MAX_STORED_EVENTS);
    }
  }

  lemma ExtendMoves(env: Env, t: Threat, row: Row, room: bool)
    requires |row| >= 11 && Fit(t)
    ensures Moved(t, Extend(env, t, row, room))
  {
    hide Proper, TakeAll, Split, Weight, BumpHour, Less;
    ExtendFit(env, t, row, room);
  }

  lemma {:induction false} MergeMoves(env: Env, a: Aggregate, rows: seq<Row>, touched: seq<nat>)
    requires Sound(a.groups) && a.flood == Floods(a.totals.trailSrcs) && Places(touched, |a.groups.threats|)
    ensures AllMoved(a.groups.threats, Merge(env, a, rows).groups.threats, Touched(env, a, rows, touched))
    ensures Places(Touched(env, a, rows, touched), |Merge(env, a, rows).groups.threats|)
    ensures forall i :: i in touched ==> i in Touched(env, a, rows, touched)
  {
    hide Moved, MergeRow, Place, Floods, Sound;
    if rows == [] {
      forall i | 0 <= i < |a.groups.threats| ensures Moved(a.groups.threats[i], a.groups.threats[i]) {
        SoundFit(a.groups, i);
        MovedSelf(a.groups.threats[i]);
      }
    } else {
      var front, row := rows[..|rows| - 1], rows[|rows| - 1];
      var b := Merge(env, a, front);
      MergeMoves(env, a, front, touched);
      MergeTotals(env, a, front);
      MergeSound(env, a, front);
      RowMoves(env, b, row, Touched(env, a, front, touched));
      var c := MergeRow(env, b, row);
      forall i | 0 <= i < |a.groups.threats| ensures Moved(a.groups.threats[i], c.groups.threats[i]) {
        MovedOn(a.groups.threats[i], b.groups.threats[i], c.groups.threats[i]);
      }
    }
  }

  // ---- any run of merges and deltas

  function Known(touched: seq<nat>, n: nat): (r: seq<nat>) {
    if touched == [] then []
    else
      var front, i := Known(touched[..|touched| - 1], n), touched[|touched| - 1];
      if i < n then front + [i] else front
  }

  ghost predicate AllDistinct(s: seq<nat>) {
    forall j, k :: 0 <= j < k < |s| ==> s[j] != s[k]
  }

  lemma {:induction false} KnownIs(touched: seq<nat>, n: nat)
    ensures forall i :: i in Known(touched, n) <==> i in touched && i < n
    ensures AllDistinct(touched) ==> AllDistinct(Known(touched, n))
  {
    if touched != [] {
      var front, last := touched[..|touched| - 1], touched[|touched| - 1];
      KnownIs(front, n);
      assert touched == front + [last];
      if AllDistinct(touched) {
        assert forall k :: 0 <= k < |front| ==> front[k] == touched[k];
        assert last !in front;
        forall k | 0 <= k < |Known(front, n)| ensures Known(front, n)[k] != last { assert Known(front, n)[k] in Known(front, n); }
      }
    }
  }

  /** The parts of worker and page agree on their shapes. */
  predicate Shaped(threats: seq<Threat>, sent: seq<Info>, ups: seq<nat>) {
    && |sent| <= |threats|
    && forall k :: 0 <= k < |ups| ==> ups[k] < |sent| && |sent[ups[k]].sizes| == |threats[ups[k]].cols|
  }

  function UpdatesOf(threats: seq<Threat>, sent: seq<Info>, ups: seq<nat>): (us: seq<Update>)
    requires Shaped(threats, sent, ups)
    ensures |us| == |ups|
  {
    seq(|ups|, k requires 0 <= k < |ups| => UpdateOf(ups[k], threats[ups[k]], sent[ups[k]]))
  }

  function RecordsOf(threats: seq<Threat>): (rs: seq<Record>)
    ensures |rs| == |threats|
  {
    seq(|threats|, i requires 0 <= i < |threats| => RecordOf(threats[i]))
  }

  function DeltaOf(threats: seq<Threat>, sent: seq<Info>, touched: seq<nat>): Delta
    requires Shaped(threats, sent, Known(touched, |sent|))
  {
    Delta(RecordsOf(threats[|sent|..]), UpdatesOf(threats, sent, Known(touched, |sent|)))
  }

  function InfosOf(threats: seq<Threat>): (r: seq<Info>)
    ensures |r| == |threats|
  {
    seq(|threats|, i requires 0 <= i < |threats| => InfoOf(threats[i]))
  }

  /** Worker and page with `shipped`, the threats as the last delta found them. */
  ghost predicate Synced(threats: seq<Threat>, touched: seq<nat>, sent: seq<Info>, page: seq<Threat>, shipped: seq<Threat>) {
    && |page| == |shipped| && sent == InfosOf(shipped)
    && AllMoved(shipped, threats, touched)
    && Places(touched, |threats|)
    && forall i :: 0 <= i < |page| ==> Copy(page[i], shipped[i])
  }

  lemma SyncedShape(threats: seq<Threat>, touched: seq<nat>, sent: seq<Info>, page: seq<Threat>, shipped: seq<Threat>)
    requires Synced(threats, touched, sent, page, shipped)
    ensures Shaped(threats, sent, Known(touched, |sent|))
  {
    var ups := Known(touched, |sent|);
    KnownIs(touched, |sent|);
    forall k | 0 <= k < |ups| ensures ups[k] < |sent| && |sent[ups[k]].sizes| == |threats[ups[k]].cols| {
      assert ups[k] in ups;
      assert Moved(shipped[ups[k]], threats[ups[k]]);
    }
  }

  /** Updates to distinct positions change each of them once. */
  lemma {:induction false} UpdatesAt(page: seq<Threat>, us: seq<Update>, i: nat)
    requires i < |page|
    requires forall j, k :: 0 <= j < k < |us| ==> us[j].idx != us[k].idx
    ensures forall k :: 0 <= k < |us| && us[k].idx == i ==> ApplyUpdates(page, us)[i] == Updated(page[i], us[k])
    ensures (forall k :: 0 <= k < |us| ==> us[k].idx != i) ==> ApplyUpdates(page, us)[i] == page[i]
  {
    hide Updated;
    if us != [] {
      UpdatesAt(page, us[..|us| - 1], i);
    }
  }

  /** After a delta the page has a copy of every threat the worker has. */
  lemma DeltaCopies(threats: seq<Threat>, touched: seq<nat>, sent: seq<Info>, page: seq<Threat>, shipped: seq<Threat>)
    requires Synced(threats, touched, sent, page, shipped)
    requires forall i :: 0 <= i < |threats| ==> Fit(threats[i])
    ensures Shaped(threats, sent, Known(touched, |sent|))
    ensures Synced(threats, [], InfosOf(threats), ApplyDelta(page, DeltaOf(threats, sent, touched)), threats)
  {
    hide Updated, Moved, Copy, UpdateOf, InfoOf, RecordOf, Fit, FromRecord, ApplyUpdates, Known;
    SyncedShape(threats, touched, sent, page, shipped);
    var d := DeltaOf(threats, sent, touched);
    var whole := page + FromRecords(d.records);
    forall i | 0 <= i < |threats|
      ensures Copy(ApplyUpdates(whole, d.updates)[i], threats[i]) && Moved(threats[i], threats[i])
    {
      MovedSelf(threats[i]);
      if i >= |sent| {
        CopyWhole(threats[i]);
        UpdatedOnce(threats, sent, touched, whole, i);
      } else {
        UpdatedOnce(threats, sent, touched, whole, i);
        if i in touched { UpdateCopies(page[i], shipped[i], threats[i], i); }
      }
    }
  }

  lemma UpdatedOnce(threats: seq<Threat>, sent: seq<Info>, touched: seq<nat>, whole: seq<Threat>, i: nat)
    requires Shaped(threats, sent, Known(touched, |sent|)) && Places(touched, |threats|) && i < |whole| == |threats|
    ensures var after := ApplyUpdates(whole, UpdatesOf(threats, sent, Known(touched, |sent|)))[i];
      if i in touched && i < |sent| then |sent[i].sizes| == |threats[i].cols| && after == Updated(whole[i], UpdateOf(i, threats[i], sent[i]))
      else after == whole[i]
  {
    hide Updated, ApplyUpdates, Known;
    var ups := Known(touched, |sent|);
    var us := UpdatesOf(threats, sent, ups);
    KnownIs(touched, |sent|);
    forall k | 0 <= k < |us| ensures us[k].idx == ups[k] { IdxOf(ups[k], threats[ups[k]], sent[ups[k]]); }
    UpdatesAt(whole, us, i);
    if i in touched && i < |sent| {
      var k :| 0 <= k < |ups| && ups[k] == i;
      assert us[k] == UpdateOf(i, threats[i], sent[i]);
    } else {
      forall k | 0 <= k < |us| ensures us[k].idx != i { assert ups[k] in ups; }
    }
  }

  lemma IdxOf(i: nat, t: Threat, info: Info)
    requires |info.sizes| == |t.cols|
    ensures UpdateOf(i, t, info).idx == i
  {
  }

  lemma CopyWhole(t: Threat)
    requires Fit(t)
    ensures Copy(FromRecord(RecordOf(t)), t)
  {
    RecordCopies(t);
  }

  datatype Event = Rows(rows: seq<Row>) | Send

  /** The worker's aggregate with what it marked and what it remembers sending, and the page. */
  datatype Link = Link(day: Aggregate, touched: seq<nat>, sent: seq<Info>, page: seq<Threat>, deltas: seq<Delta>)

  /** A new worker, its aggregate that of the first rows, and an empty page. */
  function Begin(env: Env, rows: seq<Row>): Link {
    Link(Full(env, rows), [], [], [], [])
  }

  function Step(env: Env, l: Link, e: Event): Link {
    match e
    case Rows(rows) => l.(day := Merge(env, l.day, rows), touched := Touched(env, l.day, rows, l.touched))
    case Send =>
      var threats := l.day.groups.threats;
      if !Shaped(threats, l.sent, Known(l.touched, |l.sent|)) then l
      else
        var d := DeltaOf(threats, l.sent, l.touched);
        l.(touched := [], sent := InfosOf(threats), page := ApplyDelta(l.page, d), deltas := l.deltas + [d])
  }

  function Run(env: Env, l: Link, events: seq<Event>): Link {
    if events == [] then l else Step(env, Run(env, l, events[..|events| - 1]), events[|events| - 1])
  }

  /** A page that applies the deltas one after the other. */
  function Replay(deltas: seq<Delta>): seq<Threat> {
    if deltas == [] then [] else ApplyDelta(Replay(deltas[..|deltas| - 1]), deltas[|deltas| - 1])
  }

  ghost predicate Linked(l: Link) {
    && Sound(l.day.groups) && l.day.flood == Floods(l.day.totals.trailSrcs)
    && l.page == Replay(l.deltas)
    && exists shipped :: Synced(l.day.groups.threats, l.touched, l.sent, l.page, shipped)
  }

  lemma BeginLinked(env: Env, rows: seq<Row>)
    ensures Linked(Begin(env, rows))
  {
    var l := Begin(env, rows);
    EveryEventCounted(env, l.day.flood, rows);
    assert Synced(l.day.groups.threats, [], [], [], []);
  }

  lemma StepLinked(env: Env, l: Link, e: Event)
    requires Linked(l)
    ensures Linked(Step(env, l, e))
  {
    hide Sound, Floods, Merge, Touched, ApplyDelta, DeltaOf, Shaped, Known, Synced;
    var threats := l.day.groups.threats;
    var shipped :| Synced(threats, l.touched, l.sent, l.page, shipped);
    match e
    case Rows(rows) =>
      MergeTotals(env, l.day, rows);
      MergeSound(env, l.day, rows);
      SyncedOn(env, l, rows, shipped);
    case Send =>
      forall i | 0 <= i < |threats| ensures Fit(threats[i]) { SoundFit(l.day.groups, i); }
      DeltaCopies(threats, l.touched, l.sent, l.page, shipped);
      var d := DeltaOf(threats, l.sent, l.touched);
      assert (l.deltas + [d])[..|l.deltas|] == l.deltas;
  }

  lemma SyncedOn(env: Env, l: Link, rows: seq<Row>, shipped: seq<Threat>)
    requires Sound(l.day.groups) && l.day.flood == Floods(l.day.totals.trailSrcs)
    requires Synced(l.day.groups.threats, l.touched, l.sent, l.page, shipped)
    ensures Synced(Merge(env, l.day, rows).groups.threats, Touched(env, l.day, rows, l.touched), l.sent, l.page, shipped)
  {
    hide Sound, Floods, Merge, Touched, Moved, Copy, InfosOf;
    MergeMoves(env, l.day, rows, l.touched);
    var before, after := l.day.groups.threats, Merge(env, l.day, rows).groups.threats;
    forall i | 0 <= i < |shipped| ensures Moved(shipped[i], after[i]) {
      MovedOn(shipped[i], before[i], after[i]);
    }
  }

  lemma {:induction false} RunLinked(env: Env, rows: seq<Row>, events: seq<Event>)
    ensures Linked(Run(env, Begin(env, rows), events))
  {
    if events == [] {
      BeginLinked(env, rows);
    } else {
      RunLinked(env, rows, events[..|events| - 1]);
      StepLinked(env, Run(env, Begin(env, rows), events[..|events| - 1]), events[|events| - 1]);
    }
  }

  /**
   Whatever merges and deltas went before, once a delta is sent the page, which only replays deltas, has a
   copy of every threat of the aggregate, in its order: count, first, last, hours, values and stored rows.
   */
  lemma ReplayRebuilds(env: Env, rows: seq<Row>, events: seq<Event>)
    ensures var l := Run(env, Begin(env, rows), events + [Send]);
      && |Replay(l.deltas)| == |l.day.groups.threats|
      && forall i :: 0 <= i < |l.day.groups.threats| ==> Copy(Replay(l.deltas)[i], l.day.groups.threats[i])
  {
    RunLinked(env, rows, events);
    RunLinked(env, rows, events + [Send]);
    assert (events + [Send])[..|events|] == events;
    Sent(env, Run(env, Begin(env, rows), events));
  }

  lemma Sent(env: Env, l: Link)
    requires Linked(l)
    ensures var m := Step(env, l, Send);
      && |m.page| == |m.day.groups.threats|
      && forall i :: 0 <= i < |m.page| ==> Copy(m.page[i], m.day.groups.threats[i])
  {
    hide Sound, ApplyDelta, DeltaOf, Shaped, Known, Copy;
    var threats := l.day.groups.threats;
    var shipped :| Synced(threats, l.touched, l.sent, l.page, shipped);
    forall i | 0 <= i < |threats| ensures Fit(threats[i]) { SoundFit(l.day.groups, i); }
    DeltaCopies(threats, l.touched, l.sent, l.page, shipped);
  }

  /** The keys of all records sent, delta after delta. */
  function KeysSent(deltas: seq<Delta>): seq<string> {
    if deltas == [] then []
    else
      var rs := deltas[|deltas| - 1].records;
      KeysSent(deltas[..|deltas| - 1]) + seq(|rs|, i requires 0 <= i < |rs| => rs[i].threat.key)
  }

  /** Every threat is sent whole once: the keys sent are those of the aggregate up to the last one sent, in order. */
  lemma {:induction false} SentOnce(env: Env, rows: seq<Row>, events: seq<Event>)
    ensures var l := Run(env, Begin(env, rows), events); var threats := l.day.groups.threats;
      && |l.sent| <= |threats|
      && KeysSent(l.deltas) == seq(|l.sent|, i requires 0 <= i < |l.sent| && |l.sent| <= |threats| => threats[i].key)
  {
    hide Sound, Floods, Merge, Touched, ApplyDelta, Known, Moved, Copy, UpdatesOf, Full, Shaped;
    if events != [] {
      var front, e := events[..|events| - 1], events[|events| - 1];
      var l := Run(env, Begin(env, rows), front);
      SentOnce(env, rows, front);
      RunLinked(env, rows, front);
      var shipped :| Synced(l.day.groups.threats, l.touched, l.sent, l.page, shipped);
      match e
      case Rows(more) => KeysStay(env, l, more, shipped);
      case Send =>
        SyncedShape(l.day.groups.threats, l.touched, l.sent, l.page, shipped);
        var d := DeltaOf(l.day.groups.threats, l.sent, l.touched);
        assert (l.deltas + [d])[..|l.deltas|] == l.deltas;
    }
  }

  lemma KeysStay(env: Env, l: Link, rows: seq<Row>, shipped: seq<Threat>)
    requires Sound(l.day.groups) && l.day.flood == Floods(l.day.totals.trailSrcs)
    requires Synced(l.day.groups.threats, l.touched, l.sent, l.page, shipped)
    ensures var (before, after) := (l.day.groups.threats, Merge(env, l.day, rows).groups.threats);
      |before| <= |after| && forall i :: 0 <= i < |before| ==> after[i].key == before[i].key
  {
    hide Sound, Floods, Merge, Touched;
    MergeMoves(env, l.day, rows, l.touched);
  }
}
