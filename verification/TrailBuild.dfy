/**
 `_Shard` and `_TrailBuild` (core/update.py) as they run: dictionaries changed in place, step by step.
 */
module TrailBuild {
  import opened Text
  import opened TrailGroup
  import opened TrailShard
  import opened TrailLocality
  import opened TrailMerge
  import TrailOrder
  import Sorting

  class Shard {
    const stamped: bool
    var store: Dict
    var duplicates: map<string, set<string>>
    var stamps: map<string, nat>
    var now: nat
    /** The data with every stamp, whether this shard keeps stamps or not. */
    ghost var model: State

    ghost predicate Valid()
      reads this
      ensures Valid() ==> Wf(model)
    {
      && Wf(model) && store == model.store && duplicates == model.dups
      && (stamped ==> stamps == model.stamps && now == model.now)
    }

    constructor (stamped: bool)
      ensures Valid() && model == EMPTY && this.stamped == stamped
    {
      this.stamped := stamped;
      store := Dict([], map[]);
      duplicates, stamps, now := map[], map[], 0;
      model := EMPTY;
    }

    /** `shard.now = n` */
    method SetNow(n: nat)
      requires Valid()
      modifies this
      ensures Valid() && model == old(model).(now := n)
    {
      now := n;
      model := model.(now := n);
    }

    method Put(key: string, value: Pair)
      requires Valid()
      modifies this
      ensures Valid() && model == Do(old(model), Op.Put(key, value))
    {
      DoWf(model, Op.Put(key, value));
      if stamped && key !in store.at {
        stamps := stamps[key := now];
        now := now + 1;
      }
      store := if key in store.at then Dict(store.order, store.at[key := value])
               else Dict(store.order + [key], store.at[key := value]);
      model := Do(model, Op.Put(key, value));
    }

    /** A missing key would be an error. */
    method Delete(key: string)
      requires Valid() && key in store.at
      modifies this
      ensures Valid() && model == Do(old(model), Op.Del(key))
    {
      DoWf(model, Op.Del(key));
      store := Dict(Without(store.order, key), store.at - {key});
      if stamped { stamps := stamps - {key}; }
      model := Do(model, Op.Del(key));
    }

    method Apply(row: Row)
      requires Valid()
      modifies this
      ensures Valid() && model == TrailShard.Apply(old(model), row)
    {
      match row.kind
      case Merge =>
        var current := Get(State(store, map[], duplicates, 0), row.key);
        if current.Some? {
          if row.key !in duplicates { duplicates := duplicates[row.key := {current.value.reference}]; }
          duplicates := duplicates[row.key := duplicates[row.key] + {row.value.reference}];
          model := Agree(model, row.key, row.value.reference);
        }
        if Wins(current, row.value) { Put(row.key, row.value); }
      case Remote =>
        if row.check in store.at && HasAny(store.at[row.check].reference, CUSTOM_OR_STATIC) { return; }
        Put(row.key, row.value);
      case Set =>
        Put(row.key, row.value);
    }

    // ---- one visit of the cleanup, rule by rule

    /** The visit has done `w.ops` to `m` and holds `key` and `value`. */
    ghost predicate At(m: State, w: Walk, key: string, value: Pair)
      reads this
    {
      && Valid() && model == DoAll(m, w.ops) && w.key == key && w.value == value && w.dups == duplicates && !w.done
      && (key == "" || key in store.at)
    }

    method MoveTo(key: string, to: string, value: Pair, ghost m: State, ghost w: Walk) returns (ghost w': Walk)
      requires At(m, w, key, value) && key in store.at && key != to
      modifies this
      ensures w' == w.MoveTo(to) && At(m, w', to, value)
    {
      Delete(key);
      if to != "" {
        Put(to, value);
      }
      DoMore(m, w.ops, Del(key));
      DoTwoMore(m, w.ops, Del(key), Op.Put(to, value));
      w' := w.MoveTo(to);
    }

    method Normalize(r: Rules, key: string, value: Pair, ghost m: State, ghost w: Walk) returns (k: string, ghost w': Walk)
      requires At(m, w, key, value) && key in store.at
      modifies this
      ensures w' == TrailShard.Normalize(r, w) && At(m, w', k, value) && k in store.at
    {
      k, w' := key, TrailShard.Normalize(r, w);
      var name := if IsAscii(key) then Some(LowerAscii(key)) else r.names.idna(key);
      if name.Some? && name.value != key {
        Put(name.value, value);
        Delete(key);
        k := name.value;
        DoTwoMore(m, w.ops, Op.Put(k, value), Del(key));
      }
    }

    method DropSinkhole(key: string, value: Pair, ghost m: State, ghost w: Walk) returns (ghost w': Walk)
      requires At(m, w, key, value) && key in store.at
      modifies this
      ensures w' == Sinkhole(w) && At(m, w', key, value) && key in store.at
    {
      hide HasAny, DoAll;
      if HasAny(value.info, ["parking site", "sinkhole"]) && key in duplicates {
        duplicates := duplicates - {key};
        model := Do(model, Drop(key));
        DoMore(m, w.ops, Drop(key));
      }
      w' := Sinkhole(w);
    }

    method Relabel(key: string, value: Pair, info: string, better: string, ghost m: State, ghost w: Walk)
      returns (v: Pair, ghost w': Walk)
      requires At(m, w, key, value) && key in store.at
      modifies this
      ensures w' == TrailShard.Relabel(w, info, better) && At(m, w', key, v) && key in store.at
    {
      v, w' := value, TrailShard.Relabel(w, info, better);
      if value.info == info {
        v := Pair(better, value.reference);
        DoMore(m, w.ops, Op.Put(key, v));
        Put(key, v);
      }
    }

    /** None: the trail was deleted. */
    method Address(r: Rules, key: string, value: Pair, ghost m: State, ghost w: Walk)
      returns (v: Option<Pair>, ghost w': Walk)
      requires At(m, w, key, value) && key in store.at
      modifies this
      ensures w' == TrailShard.Address(r, w)
      ensures v.Some? ==> At(m, w', key, v.value) && key in store.at
      ensures v.None? ==> w'.done && Valid() && model == DoAll(m, w'.ops)
    {
      if !r.dottedQuad(key) { return Some(value), w; }
      w' := DropSinkhole(key, value, m, w);
      var held;
      held, w' := Relabel(key, value, "malware", "potential malware site", m, w');
      DoMore(m, w'.ops, Del(key));
      if r.ipMinimumFeeds > 1 && (key !in duplicates || |duplicates[key]| < r.ipMinimumFeeds) && !r.customStatic(held.reference) {
        Delete(key);
        return None, w'.Stop();
      }
      if r.octetAbove255(key) {
        Delete(key);
        return None, w'.Stop();
      }
      return Some(held), w';
    }

    method RenameWww(key: string, value: Pair, ghost m: State, ghost w: Walk) returns (k: string, ghost w': Walk)
      requires At(m, w, key, value)
      modifies this
      ensures w' == Www(w) && At(m, w', k, value)
    {
      k, w' := key, w;
      if WWW <= key && '/' !in key {
        w' := MoveTo(key, key[4..], value, m, w);
        k := key[4..];
      }
    }

    method RenameQuery(key: string, value: Pair, ghost m: State, ghost w: Walk) returns (k: string, ghost w': Walk)
      requires At(m, w, key, value)
      modifies this
      ensures w' == Query(w) && At(m, w', k, value)
    {
      k, w' := key, w;
      if '?' in key && !("/" <= key) {
        CutHasNoQuery(key);
        w' := MoveTo(key, Cut(key), value, m, w);
        k := Cut(key);
      }
    }

    method RenameSlashes(key: string, value: Pair, ghost m: State, ghost w: Walk) returns (k: string, ghost w': Walk)
      requires At(m, w, key, value)
      modifies this
      ensures w' == Slashes(w) && At(m, w', k, value)
    {
      k, w' := key, w;
      if Contains(key, "//") {
        HalveShortens(key);
        w' := MoveTo(key, Halve(key), value, m, w);
        k := Halve(key);
      }
    }

    method RenameCase(r: Rules, key: string, value: Pair, ghost m: State, ghost w: Walk) returns (k: string, ghost w': Walk)
      requires At(m, w, key, value)
      modifies this
      ensures w' == Recase(r, w) && At(m, w', k, value)
    {
      k, w' := Lower(r.names, key), Recase(r, w);
      LowerOfEmpty(r.names);
      if key != k {
        Delete(key);
        Put(k, value);
        DoTwoMore(m, w.ops, Del(key), Op.Put(k, value));
      }
    }

    method CreditFeeds(r: Rules, key: string, value: Pair, ghost m: State, ghost w: Walk)
      requires At(m, w, key, value)
      modifies this
      ensures Valid() && model == DoAll(m, Credit(r, w).ops)
    {
      if key in duplicates {
        var others := duplicates[key] - {value.reference};
        if others != {} && !Contains(value.reference, " (+") {
          var credited := Pair(value.info, value.reference + " (+" + r.joined(others) + ")");
          DoMore(m, w.ops, Op.Put(key, credited));
          Put(key, credited);
        }
      }
    }

    /** One visit of the basic cleanup. */
    method CleanTrail(r: Rules, key0: string)
      requires Valid()
      modifies this
      ensures Valid() && model == Visit(r, Cleanup, old(model), key0)
    {
      if key0 !in store.at { return; }
      var key, value := key0, store.at[key0];
      ghost var w := Walk([], key, value, duplicates, false);
      SetNow(LateFrom(if stamped then stamps[key] else 0));
      model := Start(old(model), Cleanup, key);
      ghost var m := model;
      if r.disabled(value.info) {
        Delete(key);
        DoMore(m, [], Del(key));
        assert [] + [Del(key)] == [Del(key)];
        return;
      }
      key, w := Normalize(r, key, value, m, w);
      if key == "" || (r.alphaOnly(key) && !HasAny(value.reference, CUSTOM_OR_STATIC)) {
        DoMore(m, w.ops, Del(key));
        Delete(key);
        return;
      }
      var held;
      held, w := Address(r, key, value, m, w);
      if held.None? { return; }
      value, w := Relabel(key, held.value, "ransomware", "ransomware (malware)", m, w);
      key, w := RenameWww(key, value, m, w);
      key, w := RenameQuery(key, value, m, w);
      key, w := RenameSlashes(key, value, m, w);
      key, w := RenameCase(r, key, value, m, w);
      CreditFeeds(r, key, value, m, w);
    }

    /** One visit of the whitelist pass. */
    method SweepTrail(r: Rules, key: string)
      requires Valid()
      modifies this
      ensures Valid() && model == Visit(r, Whitelist, old(model), key)
    {
      DoMore(model, [], Del(key));
      assert [] + [Del(key)] == [Del(key)];
      if key in store.at && Unwanted(r, key, store.at[key]) { Delete(key); }
    }

    method RunPass(r: Rules, pass: Pass)
      requires Valid()
      modifies this
      ensures Valid() && model == VisitAll(r, pass, old(model), old(model).store.order)
    {
      hide Visit, VisitAll, Wf;
      var keys := store.order;
      ghost var m := model;
      for i := 0 to |keys|
        invariant Valid() && VisitAll(r, pass, model, keys[i..]) == VisitAll(r, pass, m, keys)
      {
        VisitAllStep(r, pass, model, keys, i);
        match pass
        case Cleanup => CleanTrail(r, keys[i]);
        case Whitelist => SweepTrail(r, keys[i]);
      }
      assert keys[|keys|..] == [];
      VisitNone(r, pass, model);
    }

    method PostProcess(r: Rules)
      requires Valid()
      modifies this
      ensures Valid() && model == TrailShard.PostProcess(r, old(model))
    {
      RunPass(r, Cleanup);
      RunPass(r, Whitelist);
    }

    method Rows() returns (rows: seq<OutRow>)
      requires Valid()
      ensures stamped ==> rows == TrailOrder.Rows(model)
      ensures |rows| == |model.store.order|
      ensures forall i :: 0 <= i < |rows| ==> rows[i].trail == model.store.order[i] && rows[i].value == model.store.at[rows[i].trail]
    {
      hide OrderText;
      rows := [];
      for i := 0 to |store.order|
        invariant |rows| == i
        invariant forall j :: 0 <= j < i ==> rows[j].trail == store.order[j] && rows[j].value == store.at[rows[j].trail]
        invariant stamped ==> forall j :: 0 <= j < i ==> rows[j] == RowOf(model, store.order[j])
      {
        var k := store.order[i];
        rows := rows + [OutRow(if stamped then OrderText(stamps[k]) else "", k, store.at[k])];
      }
    }

    /** (trail, confidence), sorted by trail. */
    method Scores() returns (scores: seq<(string, int)>)
      requires Valid()
      ensures AreScores(model, scores)
    {
      hide HasAny, ConfidenceScore, ScoreIn, AreScores, Less, Sorting.Sort;
      var keys := Sorting.Sort(Less, store.order);
      SortedKeys(store.order);
      scores := [];
      for i := 0 to |keys|
        invariant |scores| == i
        invariant forall j :: 0 <= j < i ==> scores[j] == ScoreIn(store, duplicates, keys[j])
      {
        scores := scores + [ScoreIn(store, duplicates, keys[i])];
      }
      ScoresAre(model, keys, scores);
    }
  }

  /** Every trail of `s` with its confidence, once, sorted by trail. */
  ghost predicate AreScores(s: State, scores: seq<(string, int)>) {
    && Sorting.Sorted(ScoreLess, scores)
    && (forall p :: p in scores <==> p.0 in s.store.at && p == ScoreOf(s, p.0))
  }

  lemma SortedKeys(order: seq<string>)
    requires Distinct(order)
    ensures Sorting.Sorted(Less, Sorting.Sort(Less, order))
    ensures forall k :: k in Sorting.Sort(Less, order) <==> k in order
  {
    LessStrict();
    Sorting.SortSorted(Less, order);
  }

  lemma ScoresAre(s: State, keys: seq<string>, scores: seq<(string, int)>)
    requires Sorting.Sorted(Less, keys) && |scores| == |keys|
    requires forall k :: k in keys <==> k in s.store.at
    requires forall j :: 0 <= j < |keys| ==> scores[j] == ScoreOf(s, keys[j])
    ensures AreScores(s, scores)
  {
    forall p ensures p in scores <==> p.0 in s.store.at && p == ScoreOf(s, p.0) {
      if p.0 in s.store.at && p == ScoreOf(s, p.0) {
        assert p.0 in keys;
        var j :| 0 <= j < |keys| && keys[j] == p.0;
        assert scores[j] == p;
      }
    }
  }

  lemma LowerOfEmpty(n: Names)
    ensures Lower(n, "") == ""
  {
    assert LowerAscii("") == "";
  }

  lemma VisitNone(r: Rules, pass: Pass, s: State)
    ensures VisitAll(r, pass, s, []) == s
  {
  }

  lemma VisitAllStep(r: Rules, pass: Pass, s: State, keys: seq<string>, i: nat)
    requires i < |keys|
    ensures VisitAll(r, pass, s, keys[i..]) == VisitAll(r, pass, Visit(r, pass, s, keys[i]), keys[i + 1..])
  {
    assert keys[i..][0] == keys[i] && keys[i..][1..] == keys[i + 1..];
  }

  /** Pairs compare by trail, then by score. */
  predicate ScoreLess(a: (string, int), b: (string, int)) {
    Less(a.0, b.0) || (a.0 == b.0 && a.1 < b.1)
  }

  lemma LessStrict()
    ensures Sorting.Strict(Less)
  {
    forall a: string, b: string, c: string
      ensures !Less(a, a) && (Less(a, b) || a == b || Less(b, a)) && (Less(a, b) && Less(b, c) ==> Less(a, c))
    {
      LessIrreflexive(a);
      LessTotal(a, b);
      if Less(a, b) && Less(b, c) { LessTransitive(a, b, c); }
    }
  }

  lemma ScoreLessStrict()
    ensures Sorting.Strict(ScoreLess)
  {
    LessStrict();
  }

  lemma {:induction false} HalveShortens(s: string)
    ensures |Halve(s)| <= |s|
    ensures Contains(s, "//") ==> |Halve(s)| < |s|
  {
    if s == [] {
    } else if s[0] == '/' && |s| > 1 && s[1] == '/' {
      HalveShortens(s[2..]);
    } else {
      HalveShortens(s[1..]);
      if Contains(s, "//") {
        var i :| 0 <= i <= |s| && Occurs(s, "//", i);
        assert s[i..][0] == '/' && s[i..][1] == '/';
        assert i > 0;
        assert s[1..][i - 1..] == s[i..];
        assert Occurs(s[1..], "//", i - 1);
      }
    }
  }

  /** What the builds take from outside besides the rules. */
  datatype Env = Env(rules: Rules, canonical: string -> string, hash: string -> int)

  /** The key a merged source row is stored under. */
  function SourceKey(e: Env, key: string): string {
    var key := if ':' in key then e.canonical(key) else key;
    if WWW <= key && '/' !in key then key[4..] else key
  }

  datatype Source = Results(items: seq<(string, Pair)>) | OneRemote(key: string, value: Pair, check: string) | OneSet(key: string, value: Pair)

  function MergeRows(e: Env, items: seq<(string, Pair)>): seq<Row> {
    if items == [] then []
    else MergeRows(e, items[..|items| - 1]) + [var x := items[|items| - 1]; Row(Merge, SourceKey(e, x.0), x.1, "")]
  }

  function RowsOf(e: Env, source: Source): seq<Row> {
    match source
    case Results(items) => MergeRows(e, items)
    case OneRemote(key, value, check) => [Row(Remote, key, value, check)]
    case OneSet(key, value) => [Row(Set, key, value, "")]
  }

  /** Every source row in order. */
  function AllRows(e: Env, sources: seq<Source>): seq<Row> {
    if sources == [] then [] else AllRows(e, sources[..|sources| - 1]) + RowsOf(e, sources[|sources| - 1])
  }

  /** Rows numbered from 0. */
  function Number(rows: seq<Row>): seq<Numbered> {
    seq(|rows|, i requires 0 <= i < |rows| => Numbered(i, rows[i]))
  }

  lemma NumberMore(rows: seq<Row>, row: Row)
    ensures Number(rows + [row]) == Number(rows) + [Numbered(|rows|, row)]
  {
  }

  /** What the one-dict build writes, given its final state. */
  ghost predicate DictRows(full: State, out: seq<OutRow>)
    requires Wf(full)
  {
    |out| == |full.store.order|
    && forall i :: 0 <= i < |out| ==> out[i].trail == full.store.order[i] && out[i].value == full.store.at[full.store.order[i]]
  }

  /** `_TrailBuild`: the trail set in one dict. */
  class OneDictBuild {
    const env: Env
    const one: Shard
    /** The rows applied so far. */
    ghost var rows: seq<Row>

    ghost predicate Valid()
      reads this, one
    {
      one.Valid() && !one.stamped && Same(one.model, Fed(Number(rows)))
    }

    constructor (env: Env)
      ensures Valid() && fresh(one) && rows == [] && this.env == env
    {
      this.env := env;
      one := new Shard(false);
      rows := [];
    }

    method Apply(row: Row)
      requires Valid()
      modifies this, one
      ensures Valid() && rows == old(rows) + [row]
    {
      one.model := one.model.(now := |rows|);
      one.Apply(row);
      NumberMore(rows, row);
      assert Number(rows + [row])[..|rows|] == Number(rows);
      rows := rows + [row];
    }

    method MergeSource(items: seq<(string, Pair)>)
      requires Valid()
      modifies this, one
      ensures Valid() && rows == old(rows) + MergeRows(env, items)
    {
      for i := 0 to |items|
        invariant Valid() && rows == old(rows) + MergeRows(env, items[..i])
      {
        assert items[..i + 1][..i] == items[..i];
        Apply(Row(Merge, SourceKey(env, items[i].0), items[i].1, ""));
      }
      assert items[..|items|] == items;
    }

    method RemoteRow(key: string, value: Pair, check: string)
      requires Valid()
      modifies this, one
      ensures Valid() && rows == old(rows) + [Row(Remote, key, value, check)]
    {
      Apply(Row(Remote, key, value, check));
    }

    method SetRow(key: string, value: Pair)
      requires Valid()
      modifies this, one
      ensures Valid() && rows == old(rows) + [Row(Set, key, value, "")]
    {
      Apply(Row(Set, key, value, ""));
    }

    /** The rows in the order trails.csv is written, and the scores sorted by trail. */
    method Build() returns (out: seq<OutRow>, scores: seq<(string, int)>)
      requires Valid()
      modifies one
      ensures var s := TrailMerge.Build(env.rules, Number(rows));
        Wf(s) && DictRows(s, out) && AreScores(s, scores)
    {
      PostProcessSame(env.rules, one.model, Fed(Number(rows)));
      one.PostProcess(env.rules);
      BuildWf(env.rules, Number(rows));
      out := one.Rows();
      scores := one.Scores();
    }
  }
}
