/**
 The two sides of the delta protocol as they run: the worker's state (html/js/worker.js) and the page's copy
 (html/js/main.js), each shown to compute what module DeltaSync specifies.
 */
module WorkerPage {
  import opened Text
  import opened Collect
  import opened Threats
  import opened Engine
  import opened DeltaSync

  lemma {:induction false} FlatPush(parts: seq<seq<string>>, part: seq<string>)
    ensures Flat(parts + [part]) == Flat(parts) + part
  {
    if parts == [] {
      assert [part][1..] == [] && Flat([part]) == part + [];
    } else {
      assert (parts + [part])[1..] == parts[1..] + [part];
      FlatPush(parts[1..], part);
    }
  }

  lemma {:induction false} AddAllPush(vals: seq<string>, more: seq<string>, v: string)
    ensures AddAll(vals, more + [v]) == Add(AddAll(vals, more), v)
    decreases |more|
  {
    if more == [] {
      assert [v][1..] == [];
    } else {
      assert (more + [v])[1..] == more[1..] + [v];
      AddAllPush(Add(vals, more[0]), more[1..], v);
    }
  }

  /** Where the values of set i start in the flat list. */
  lemma {:induction false} PartAt(values: seq<string>, lens: seq<nat>, i: nat)
    requires i < |lens| && Sum(lens) <= |values|
    ensures Sum(lens[..i]) + lens[i] == Sum(lens[..i + 1]) <= Sum(lens)
    ensures Parts(values, lens)[i] == values[Sum(lens[..i])..Sum(lens[..i + 1])]
    decreases |lens|
  {
    hide Parts, Sum;
    SumNone();
    PartsCons(values, lens);
    if i == 0 {
      SumCons(lens[..1]);
      assert lens[..0] == [] && lens[..1] == [lens[0]] && [lens[0]][1..] == [];
    } else {
      SumCons(lens[..i]);
      SumCons(lens[..i + 1]);
      assert lens[..i][0] == lens[0] && lens[..i + 1][0] == lens[0];
      assert lens[..i][1..] == lens[1..][..i - 1] && lens[..i + 1][1..] == lens[1..][..i];
      PartAt(values[lens[0]..], lens[1..], i - 1);
    }
  }

  /** The six sets of a threat, flat. */
  method Sets(cols: seq<Values>) returns (v: seq<string>, n: seq<nat>)
    ensures v == Flat(Vals(cols)) && n == Lens(Vals(cols))
  {
    v, n := [], [];
    for i := 0 to |cols|
      invariant v == Flat(Vals(cols)[..i]) && n == Lens(Vals(cols))[..i]
    {
      ghost var before := v;
      var l := cols[i].vals;
      n := n + [|l|];
      for j := 0 to |l|
        invariant v == before + l[..j]
      {
        v := v + [l[j]];
      }
      FlatPush(Vals(cols)[..i], l);
      assert Vals(cols)[..i + 1] == Vals(cols)[..i] + [l];
    }
    assert Vals(cols)[..|cols|] == Vals(cols);
  }

  /** What the sets gained since their sizes were `sizes`; None if nothing. */
  method Gained(cols: seq<Values>, sizes: seq<nat>) returns (g: Option<Growth>)
    requires |sizes| == |cols| && forall i :: 0 <= i < |cols| ==> sizes[i] <= |cols[i].vals|
    ensures g == GrowthOf(cols, sizes)
  {
    var added, lens, any := [], [], false;
    ghost var gains := Gains(cols, sizes);
    for q := 0 to |cols|
      invariant added == Flat(gains[..q]) && lens == Lens(gains)[..q]
      invariant any <==> exists i :: 0 <= i < q && |cols[i].vals| != sizes[i]
    {
      FlatPush(gains[..q], gains[q]);
      assert gains[..q + 1] == gains[..q] + [gains[q]];
      var l := cols[q].vals;
      if |l| == sizes[q] {
        lens := lens + [0];
        continue;
      }
      any := true;
      ghost var before := added;
      for z := sizes[q] to |l|
        invariant added == before + l[sizes[q]..z]
      {
        added := added + [l[z]];
      }
      lens := lens + [|l| - sizes[q]];
    }
    assert gains[..|cols|] == gains && Lens(gains)[..|cols|] == Lens(gains);
    if !any { return None; }
    return Some(Growth(added, lens, Caps(cols)));
  }

  class Worker {
    const day: Day
    var sent: seq<Info>
    ghost var shipped: seq<Threat>

    ghost predicate Valid()
      reads this, day
    {
      && day.Valid()
      && sent == InfosOf(shipped)
      && AllMoved(shipped, day.threats, day.touched)
      && Places(day.touched, |day.threats|)
    }

    constructor (env: Env, rows: seq<Row>)
      ensures Valid() && fresh(day) && day.Value() == Full(env, rows) && sent == [] && day.touched == []
    {
      day := new Day(env, rows);
      sent, shipped := [], [];
    }

    method Merge(rows: seq<Row>)
      requires Valid()
      modifies this, day
      ensures Valid() && sent == old(sent) && shipped == old(shipped)
      ensures day.Value() == Threats.Merge(day.env, old(day.Value()), rows)
      ensures day.touched == Touched(day.env, old(day.Value()), rows, old(day.touched))
    {
      hide Sound, Severities, Floods, Threats.Merge, Touched, Moved;
      MergeMoves(day.env, day.Value(), rows, day.touched);
      ghost var before := day.threats;
      day.MergeRows(rows);
      forall i | 0 <= i < |shipped| ensures Moved(shipped[i], day.threats[i]) {
        MovedOn(shipped[i], before[i], day.threats[i]);
      }
    }

    method Delta() returns (d: DeltaSync.Delta)
      requires Valid()
      modifies this, day`touched
      ensures Valid() && shipped == old(day.threats) && sent == InfosOf(day.threats) && day.touched == []
      ensures Shaped(old(day.threats), old(sent), DeltaSync.Known(old(day.touched), |old(sent)|))
      ensures d == DeltaOf(old(day.threats), old(sent), old(day.touched))
    {
      hide Sound, Severities, Floods, Moved, UpdateOf, RecordOf, InfoOf, DeltaSync.Known, Lens, Vals, Flat, Caps, UpdatesOf;
      WorkerShape(day.threats, day.touched, sent, shipped);
      var n := |sent|;
      var records, infos := Records(n);
      var updates;
      updates, infos := Updates(infos, n);
      Refreshed(day.threats, day.touched, sent, shipped, infos);
      sent := infos;
      shipped := day.threats;
      day.touched := [];
      forall i | 0 <= i < |day.threats| ensures Moved(day.threats[i], day.threats[i]) {
        SoundFit(day.Groups(), i);
        MovedSelf(day.threats[i]);
      }
      return DeltaSync.Delta(records, updates);
    }

    /** The threats not sent yet, whole, and what is remembered of all. */
    method Records(n: nat) returns (records: seq<Record>, infos: seq<Info>)
      requires n == |sent| <= |day.threats|
      ensures records == RecordsOf(day.threats[n..]) && infos == sent + InfosOf(day.threats[n..])
    {
      hide RecordOf, InfoOf, Lens, Vals, Flat, Caps;
      ghost var threats := day.threats;
      records, infos := [], sent;
      for i := n to |day.threats|
        invariant records == RecordsOf(threats[n..i])
        invariant infos == sent + InfosOf(threats[n..i])
      {
        var t := day.threats[i];
        var v, lens := Sets(t.cols);
        Wire(t);
        assert threats[n..i + 1] == threats[n..i] + [t];
        records := records + [Record(t, v, lens, Caps(t.cols))];
        infos := infos + [Info(|t.events|, lens, t.first, t.last)];
      }
      assert threats[n..|threats|] == threats[n..];
    }

    /** The touched threats that were sent before: what moved, and what is remembered of them from now on. */
    method Updates(infos: seq<Info>, n: nat) returns (updates: seq<Update>, after: seq<Info>)
      requires Valid() && n == |sent| <= |infos| == |day.threats| && infos[..n] == sent
      requires Shaped(day.threats, sent, DeltaSync.Known(day.touched, n))
      ensures updates == UpdatesOf(day.threats, sent, DeltaSync.Known(day.touched, n))
      ensures |after| == |infos|
      ensures forall i :: 0 <= i < |after| ==> after[i] == if i < n && i in day.touched then InfoOf(day.threats[i]) else infos[i]
    {
      hide Sound, Severities, Floods, Moved, UpdateOf, InfoOf, GrowthOf, DeltaSync.Known, Lens, Vals;
      KnownNone(n);
      updates, after := [], infos;
      ghost var touched := day.touched;
      for k := 0 to |day.touched|
        invariant |updates| == |DeltaSync.Known(touched[..k], n)|
        invariant forall j :: 0 <= j < |updates| ==> DeltaSync.Known(touched[..k], n)[j] < n
        invariant forall j :: 0 <= j < |updates| ==> var i := DeltaSync.Known(touched[..k], n)[j];
          |sent[i].sizes| == |day.threats[i].cols| && updates[j] == UpdateOf(i, day.threats[i], sent[i])
        invariant |after| == |infos|
        invariant forall i :: 0 <= i < |after| ==> after[i] == if i < n && i in touched[..k] then InfoOf(day.threats[i]) else infos[i]
      {
        KnownNext(touched, k, n);
        assert touched[..k + 1] == touched[..k] + [touched[k]];
        var i := day.touched[k];
        if i >= n { continue; }
        var t, info := day.threats[i], after[i];
        assert info == sent[i] by { assert touched[k] !in touched[..k]; assert infos[i] == infos[..n][i]; }
        SizesGrew(shipped[i], t);
        var growth := Gained(t.cols, info.sizes);
        var u := Update(i, t.count, if t.first != info.first then Some(t.first) else None, if t.last != info.last then Some(t.last) else None,
          t.hours, if |t.events| > info.rows then t.events[info.rows..] else [], growth);
        UpdateIs(u, i, t, info);
        updates := updates + [u];
        InfoMoves(shipped[i], t);
        info := info.(first := t.first, last := t.last);
        if |t.events| > info.rows { info := info.(rows := |t.events|); }
        if growth.Some? { info := info.(sizes := Lens(Vals(t.cols))); }
        after := after[i := info];
      }
      assert touched[..|touched|] == touched;
    }
  }

  lemma WorkerShape(threats: seq<Threat>, touched: seq<nat>, sent: seq<Info>, shipped: seq<Threat>)
    requires sent == InfosOf(shipped) && AllMoved(shipped, threats, touched) && Places(touched, |threats|)
    ensures Shaped(threats, sent, DeltaSync.Known(touched, |sent|))
  {
    hide Moved;
    forall i | 0 <= i < |shipped| ensures Copy(shipped[i], shipped[i]) { }
    SyncedShape(threats, touched, sent, shipped, shipped);
  }

  lemma KnownNone(n: nat)
    ensures DeltaSync.Known([], n) == []
  {
  }

  lemma KnownNext(touched: seq<nat>, k: nat, n: nat)
    requires k < |touched|
    ensures DeltaSync.Known(touched[..k + 1], n) == DeltaSync.Known(touched[..k], n) + if touched[k] < n then [touched[k]] else []
  {
    assert touched[..k + 1][..k] == touched[..k];
  }

  lemma Wire(t: Threat)
    ensures RecordOf(t) == Record(t, Flat(Vals(t.cols)), Lens(Vals(t.cols)), Caps(t.cols))
    ensures InfoOf(t) == Info(|t.events|, Lens(Vals(t.cols)), t.first, t.last)
  {
  }

  lemma SizesGrew(from: Threat, to: Threat)
    requires Moved(from, to)
    ensures |InfoOf(from).sizes| == |to.cols|
    ensures forall i :: 0 <= i < |to.cols| ==> InfoOf(from).sizes[i] <= |to.cols[i].vals|
    ensures InfoOf(from).rows <= |to.events|
  {
  }

  lemma UpdateIs(u: Update, i: nat, t: Threat, info: Info)
    requires |info.sizes| == |t.cols|
    requires u == Update(i, t.count, if t.first != info.first then Some(t.first) else None, if t.last != info.last then Some(t.last) else None,
      t.hours, if |t.events| > info.rows then t.events[info.rows..] else [], GrowthOf(t.cols, info.sizes))
    ensures u == UpdateOf(i, t, info)
  {
  }

  /** Refreshing only what moved gives what remembering the whole threat would. */
  lemma InfoMoves(from: Threat, to: Threat)
    requires Moved(from, to)
    ensures |InfoOf(from).sizes| == |to.cols|
    ensures InfoOf(to) == Info(if |to.events| > InfoOf(from).rows then |to.events| else InfoOf(from).rows,
      if GrowthOf(to.cols, InfoOf(from).sizes).Some? then Lens(Vals(to.cols)) else InfoOf(from).sizes, to.first, to.last)
  {
    if GrowthOf(to.cols, InfoOf(from).sizes).None? {
      assert Lens(Vals(to.cols)) == InfoOf(from).sizes;
    }
  }

  lemma Refreshed(threats: seq<Threat>, touched: seq<nat>, sent: seq<Info>, shipped: seq<Threat>, after: seq<Info>)
    requires sent == InfosOf(shipped) && AllMoved(shipped, threats, touched) && |after| == |threats|
    requires forall i :: 0 <= i < |after| ==>
      after[i] == if i < |sent| && i in touched then InfoOf(threats[i]) else (sent + InfosOf(threats[|sent|..]))[i]
    ensures after == InfosOf(threats)
  {
    hide Moved, InfoOf;
  }

  // ---- the page

  /** The six sets of a threat from their flat form. */
  method SetSets(v: seq<string>, n: seq<nat>, caps: seq<bool>) returns (cols: seq<Values>)
    requires |caps| == |n| && Sum(n) <= |v|
    ensures cols == SetCols(v, n, caps)
  {
    cols := [];
    var o := 0;
    assert n[..0] == [];
    for i := 0 to |n|
      invariant cols == SetCols(v, n, caps)[..i] && o == Sum(n[..i]) <= |v|
    {
      PartAt(v, n, i);
      var end := o + n[i];
      var vals := AddRange([], v, o, end);
      cols := cols + [Values(if caps[i] then MAX_CONDENSED else n[i], caps[i], vals)];
      o := end;
    }
  }

  /** `while (o < end) vals.add(v[o++])` */
  method AddRange(before: seq<string>, v: seq<string>, from: nat, end: nat) returns (vals: seq<string>)
    requires from <= end <= |v|
    ensures vals == AddAll(before, v[from..end])
  {
    vals := before;
    for o := from to end
      invariant vals == AddAll(before, v[from..o])
    {
      AddAllPush(before, v[from..o], v[o]);
      assert v[from..o + 1] == v[from..o] + [v[o]];
      vals := Add(vals, v[o]);
    }
  }

  lemma SumCons(lens: seq<nat>)
    requires lens != []
    ensures Sum(lens) == lens[0] + Sum(lens[1..])
  {
  }

  lemma PartsCons(values: seq<string>, lens: seq<nat>)
    requires lens != [] && Sum(lens) <= |values|
    ensures lens[0] <= |values|
    ensures Parts(values, lens) == [values[..lens[0]]] + Parts(values[lens[0]..], lens[1..])
    ensures Sum(lens) == lens[0] + Sum(lens[1..])
  {
  }

  lemma SumNone()
    ensures Sum([]) == 0
  {
  }

  lemma GrownAt(before: seq<Values>, g: Growth, i: nat)
    requires |g.lens| == |g.caps| == |before| && i < |before|
    ensures var vals := AddAll(before[i].vals, Parts(g.added, g.lens)[i]);
      GrowCols(before, g)[i] == Values(if g.caps[i] then MAX_CONDENSED else |vals|, g.caps[i], vals)
  {
    hide Parts, AddAll;
  }

  /** The values the sets gained, appended. */
  method GrowSets(before: seq<Values>, g: Growth) returns (cols: seq<Values>)
    requires |g.lens| == |g.caps| == |before| && Sum(g.lens) <= |g.added|
    ensures cols == GrowCols(before, g)
  {
    hide GrowCols, Parts, Sum, AddAll;
    cols := [];
    var o := 0;
    assert g.lens[..0] == [];
    SumNone();
    for i := 0 to |before|
      invariant cols == GrowCols(before, g)[..i] && o == Sum(g.lens[..i]) <= |g.added|
    {
      PartAt(g.added, g.lens, i);
      GrownAt(before, g, i);
      var end := o + g.lens[i];
      var vals := AddRange(before[i].vals, g.added, o, end);
      cols := cols + [Values(if g.caps[i] then MAX_CONDENSED else |vals|, g.caps[i], vals)];
      o := end;
    }
  }

  lemma NoUpdates(page: seq<Threat>, us: seq<Update>)
    requires us == []
    ensures ApplyUpdates(page, us) == page
  {
  }

  lemma NextUpdate(page: seq<Threat>, us: seq<Update>, i: nat)
    requires i < |us|
    ensures var before := ApplyUpdates(page, us[..i]);
      ApplyUpdates(page, us[..i + 1]) == if us[i].idx < |before| then before[us[i].idx := Updated(before[us[i].idx], us[i])] else before
  {
    assert us[..i + 1][..i] == us[..i];
  }

  lemma UpdatedIs(t: Threat, u: Update)
    ensures Updated(t, u) == t.(count := u.count, hours := u.hours,
      first := if u.first.Some? then u.first.value else t.first, last := if u.last.Some? then u.last.value else t.last,
      events := t.events + u.rows,
      cols := if u.growth.Some? && |u.growth.value.lens| == |u.growth.value.caps| == |t.cols| then GrowCols(t.cols, u.growth.value) else t.cols)
  {
  }

  /** The lists of a delta are as long as they say. */
  ghost predicate WellFormed(d: DeltaSync.Delta) {
    && (forall i :: 0 <= i < |d.records| ==> |d.records[i].caps| == |d.records[i].lens| && Sum(d.records[i].lens) <= |d.records[i].values|)
    && (forall i :: 0 <= i < |d.updates| && d.updates[i].growth.Some? ==>
          var g := d.updates[i].growth.value; |g.caps| == |g.lens| == 6 && Sum(g.lens) <= |g.added|)
  }

  class Page {
    var threats: seq<Threat>

    constructor ()
      ensures threats == []
    {
      threats := [];
    }

    method Apply(d: DeltaSync.Delta)
      requires WellFormed(d) && forall i :: 0 <= i < |threats| ==> |threats[i].cols| == 6
      requires forall i :: 0 <= i < |d.records| ==> |d.records[i].lens| == 6
      modifies this
      ensures threats == ApplyDelta(old(threats), d)
      ensures forall i :: 0 <= i < |threats| ==> |threats[i].cols| == 6
    {
      hide ApplyUpdates, Updated, GrowCols, SetCols, Sum;
      for i := 0 to |d.records|
        invariant threats == old(threats) + FromRecords(d.records)[..i]
        invariant forall k :: 0 <= k < |threats| ==> |threats[k].cols| == 6
      {
        var r := d.records[i];
        var cols := SetSets(r.values, r.lens, r.caps);
        threats := threats + [r.threat.(cols := cols)];
      }
      ghost var whole := threats;
      assert whole == old(threats) + FromRecords(d.records);
      NoUpdates(whole, d.updates[..0]);
      for i := 0 to |d.updates|
        invariant threats == ApplyUpdates(whole, d.updates[..i])
        invariant forall k :: 0 <= k < |threats| ==> |threats[k].cols| == 6
      {
        NextUpdate(whole, d.updates, i);
        var u := d.updates[i];
        if u.idx >= |threats| { continue; }
        var t := threats[u.idx];
        UpdatedIs(t, u);
        t := t.(count := u.count, hours := u.hours);
        if u.first.Some? { t := t.(first := u.first.value); }
        if u.last.Some? { t := t.(last := u.last.value); }
        t := t.(events := t.events + u.rows);
        if u.growth.Some? {
          var cols := GrowSets(t.cols, u.growth.value);
          t := t.(cols := cols);
        }
        threats := threats[u.idx := t];
      }
      assert d.updates[..|d.updates|] == d.updates;
    }
  }

  lemma {:induction false} SumOfLens(parts: seq<seq<string>>)
    ensures Sum(Lens(parts)) == |Flat(parts)|
  {
    if parts != [] {
      SumOfLens(parts[1..]);
      assert Lens(parts)[1..] == Lens(parts[1..]);
    }
  }

  lemma DeltaWellFormed(threats: seq<Threat>, sent: seq<Info>, touched: seq<nat>)
    requires Shaped(threats, sent, DeltaSync.Known(touched, |sent|))
    requires forall i :: 0 <= i < |threats| ==> |threats[i].cols| == 6
    ensures WellFormed(DeltaOf(threats, sent, touched))
    ensures forall i :: 0 <= i < |DeltaOf(threats, sent, touched).records| ==> |DeltaOf(threats, sent, touched).records[i].lens| == 6
  {
    var d, ups := DeltaOf(threats, sent, touched), DeltaSync.Known(touched, |sent|);
    forall i | 0 <= i < |d.records| ensures Sum(d.records[i].lens) == |d.records[i].values| { SumOfLens(Vals(threats[|sent|..][i].cols)); }
    forall i | 0 <= i < |d.updates| && d.updates[i].growth.Some?
      ensures Sum(d.updates[i].growth.value.lens) == |d.updates[i].growth.value.added|
    {
      SumOfLens(Gains(threats[ups[i]].cols, sent[ups[i]].sizes));
    }
  }

  /** One delta from a worker to a page that has applied all before it: the page then has every threat. */
  method Exchange(worker: Worker, page: Page)
    requires worker.Valid() && |page.threats| == |worker.shipped|
    requires forall i :: 0 <= i < |page.threats| ==> |page.threats[i].cols| == 6 && Copy(page.threats[i], worker.shipped[i])
    modifies worker, worker.day, page
    ensures worker.Valid() && worker.day.threats == old(worker.day.threats) == worker.shipped
    ensures |page.threats| == |worker.day.threats|
    ensures forall i :: 0 <= i < |page.threats| ==> |page.threats[i].cols| == 6 && Copy(page.threats[i], worker.day.threats[i])
  {
    hide Sound, Severities, Floods, Moved, Copy, DeltaOf, Shaped, WellFormed, Proper, ApplyDelta;
    ghost var threats, touched, sent, shipped, copies := worker.day.threats, worker.day.touched, worker.sent, worker.shipped, page.threats;
    forall i | 0 <= i < |threats| ensures Fit(threats[i]) { SoundFit(worker.day.Groups(), i); }
    var d := worker.Delta();
    DeltaWellFormed(threats, sent, touched);
    DeltaCopies(threats, touched, sent, copies, shipped);
    page.Apply(d);
  }
}
