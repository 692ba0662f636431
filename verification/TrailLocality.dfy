/**
 A key meets only keys of its own group: what happens to the trails of one set of groups does not
 depend on any other trail. `Only` keeps the part of a shard that belongs to a set of groups, and
 every step of the build commutes with it, order and stamps included.
 */
module TrailLocality {
  import opened Text
  import opened TrailGroup
  import opened TrailShard

  function OnlyKeys(n: Names, order: seq<string>, G: set<string>): seq<string> {
    if order == [] then []
    else if Group(n, order[0]) in G then [order[0]] + OnlyKeys(n, order[1..], G)
    else OnlyKeys(n, order[1..], G)
  }

  function OnlyIn<V>(n: Names, m: map<string, V>, G: set<string>): map<string, V> {
    map k | k in m && Group(n, k) in G :: m[k]
  }

  function Only(n: Names, s: State, G: set<string>): State {
    State(Dict(OnlyKeys(n, s.store.order, G), OnlyIn(n, s.store.at, G)), OnlyIn(n, s.stamps, G), OnlyIn(n, s.dups, G), s.now)
  }

  /** The same data; every step sets `now` before it inserts. */
  predicate Same(s: State, t: State) {
    s.(now := 0) == t.(now := 0)
  }

  /** G has either every group the key can reach or none of them. */
  predicate Settled(n: Names, key: string, G: set<string>) {
    Reach(n, key) <= G || Reach(n, key) !! G
  }

  // ---- primitive operations

  lemma {:induction false} OnlyKeysAppend(n: Names, order: seq<string>, k: string, G: set<string>)
    ensures OnlyKeys(n, order + [k], G) == OnlyKeys(n, order, G) + (if Group(n, k) in G then [k] else [])
  {
    if order != [] {
      assert (order + [k])[1..] == order[1..] + [k];
      OnlyKeysAppend(n, order[1..], k, G);
    } else {
      assert (order + [k])[1..] == [];
    }
  }

  lemma {:induction false} OnlyKeysWithout(n: Names, order: seq<string>, k: string, G: set<string>)
    ensures OnlyKeys(n, Without(order, k), G) == Without(OnlyKeys(n, order, G), k)
    ensures Group(n, k) !in G ==> OnlyKeys(n, Without(order, k), G) == OnlyKeys(n, order, G)
  {
    if order != [] {
      OnlyKeysWithout(n, order[1..], k, G);
      var rest := OnlyKeys(n, order[1..], G);
      if order[0] != k {
        assert Without(order, k)[0] == order[0] && Without(order, k)[1..] == Without(order[1..], k);
      }
      if Group(n, order[0]) in G {
        assert OnlyKeys(n, order, G)[0] == order[0] && OnlyKeys(n, order, G)[1..] == rest;
      }
    }
  }

  lemma KeptIn<V>(n: Names, m: map<string, V>, k: string, G: set<string>)
    ensures Group(n, k) in G ==> (k in OnlyIn(n, m, G) <==> k in m)
  {
    hide Group;
  }

  lemma PutOnly(n: Names, s: State, k: string, v: Pair, G: set<string>)
    ensures Group(n, k) in G ==> Only(n, Do(s, Put(k, v)), G) == Do(Only(n, s, G), Put(k, v))
    ensures Group(n, k) !in G ==> Same(Only(n, Do(s, Put(k, v)), G), Only(n, s, G))
  {
    hide Group, OnlyKeys, OnlyIn;
    OnlyKeysAppend(n, s.store.order, k, G);
    KeptIn(n, s.store.at, k, G);
    InsertIn(n, s.store.at, k, v, G);
    InsertIn(n, s.stamps, k, s.now, G);
  }

  lemma DelOnly(n: Names, s: State, k: string, G: set<string>)
    ensures Group(n, k) in G ==> Only(n, Do(s, Del(k)), G) == Do(Only(n, s, G), Del(k))
    ensures Group(n, k) !in G ==> Same(Only(n, Do(s, Del(k)), G), Only(n, s, G))
  {
    OnlyKeysWithout(n, s.store.order, k, G);
    RemoveIn(n, s.store.at, k, G);
    RemoveIn(n, s.stamps, k, G);
  }

  lemma InsertIn<V>(n: Names, m: map<string, V>, k: string, v: V, G: set<string>)
    ensures OnlyIn(n, m[k := v], G) == if Group(n, k) in G then OnlyIn(n, m, G)[k := v] else OnlyIn(n, m, G)
  {
  }

  lemma RemoveIn<V>(n: Names, m: map<string, V>, k: string, G: set<string>)
    ensures OnlyIn(n, m - {k}, G) == if Group(n, k) in G then OnlyIn(n, m, G) - {k} else OnlyIn(n, m, G)
  {
  }

  lemma DoOnly(n: Names, s: State, op: Op, G: set<string>)
    ensures Group(n, op.key) in G ==> Only(n, Do(s, op), G) == Do(Only(n, s, G), op)
    ensures Group(n, op.key) !in G ==> Same(Only(n, Do(s, op), G), Only(n, s, G))
  {
    match op
    case Put(k, v) => PutOnly(n, s, k, v, G);
    case Del(k) => DelOnly(n, s, k, G);
    case Drop(k) => RemoveIn(n, s.dups, k, G);
  }

  ghost predicate Touches(n: Names, ops: seq<Op>, G: set<string>) {
    forall i :: 0 <= i < |ops| ==> Group(n, ops[i].key) in G
  }

  lemma {:induction false} DoAllInside(n: Names, s: State, ops: seq<Op>, G: set<string>)
    requires Touches(n, ops, G)
    ensures Only(n, DoAll(s, ops), G) == DoAll(Only(n, s, G), ops)
  {
    if ops != [] {
      DoAllInside(n, s, ops[..|ops| - 1], G);
      DoOnly(n, DoAll(s, ops[..|ops| - 1]), ops[|ops| - 1], G);
    }
  }

  lemma {:induction false} DoAllOutside(n: Names, s: State, ops: seq<Op>, R: set<string>, G: set<string>)
    requires Touches(n, ops, R) && R !! G
    ensures Same(Only(n, DoAll(s, ops), G), Only(n, s, G))
  {
    if ops != [] {
      DoAllOutside(n, s, ops[..|ops| - 1], R, G);
      DoOnly(n, DoAll(s, ops[..|ops| - 1]), ops[|ops| - 1], G);
    }
  }

  // ---- a cleanup visit stays within reach of its key

  /** The walk has touched only groups in R, and the group of its present key is in R. */
  ghost predicate Within(n: Names, w: Walk, R: set<string>) {
    Touches(n, w.ops, R) && Group(n, w.key) in R
  }

  lemma NormalizeWithin(r: Rules, w: Walk)
    requires w.ops == []
    ensures Within(r.names, Normalize(r, w), Reach(r.names, w.key)) && Normalize(r, w).key == NormalKey(r.names, w.key)
  {
    hide Group, RenameGroups;
    OwnRename(r.names, NormalKey(r.names, w.key));
  }

  lemma MoveWithin(n: Names, w: Walk, k: string, R: set<string>)
    requires Within(n, w, R) && Group(n, k) in R
    ensures Within(n, w.MoveTo(k), R)
  {
    hide Group;
  }

  lemma WwwWithin(n: Names, w: Walk, R: set<string>)
    requires Within(n, w, R) && Group(n, WwwKey(w.key)) in R
    ensures Within(n, Www(w), R) && Www(w).key == WwwKey(w.key)
  {
    hide Group, Within;
    if WWW <= w.key { MoveWithin(n, w, WwwKey(w.key), R); }
  }

  lemma QueryWithin(n: Names, w: Walk, R: set<string>)
    requires Within(n, w, R) && Group(n, QueryKey(w.key)) in R
    ensures Within(n, Query(w), R) && Query(w).key == QueryKey(w.key)
  {
    hide Group, Cut, Within;
    MoveWithin(n, w, QueryKey(w.key), R);
  }

  lemma SlashesWithin(n: Names, w: Walk, R: set<string>)
    requires Within(n, w, R) && Group(n, SlashesKey(w.key)) in R
    ensures Within(n, Slashes(w), R) && Slashes(w).key == SlashesKey(w.key)
  {
    hide Group, Halve, Contains, Within;
    MoveWithin(n, w, SlashesKey(w.key), R);
  }

  lemma RecaseWithin(r: Rules, w: Walk, R: set<string>)
    requires Within(r.names, w, R) && Group(r.names, Lower(r.names, w.key)) in R
    ensures Within(r.names, Recase(r, w), R)
  {
    hide Group, Lower;
  }

  lemma AddressWithin(r: Rules, w: Walk, R: set<string>)
    requires Within(r.names, w, R) && !w.done
    ensures Within(r.names, Address(r, w), R) && Address(r, w).key == w.key
  {
    var w1 := Sinkhole(w);
    assert Within(r.names, w1, R) && w1.key == w.key;
    var w2 := Relabel(w1, "malware", "potential malware site");
    assert Within(r.names, w2, R) && w2.key == w.key;
    assert Within(r.names, w2.Stop(), R);
  }

  /** The renames after the address rules. */
  function Tail(r: Rules, w: Walk): Walk {
    Recase(r, Slashes(Query(Www(w))))
  }

  lemma TailWithin(r: Rules, w: Walk, R: set<string>)
    requires Within(r.names, w, R) && RenameGroups(r.names, w.key) <= R
    ensures Within(r.names, Tail(r, w), R)
  {
    hide Within, Www, Query, Slashes, Recase, Group, WwwKey, QueryKey, SlashesKey, Lower;
    WwwWithin(r.names, w, R);
    QueryWithin(r.names, Www(w), R);
    SlashesWithin(r.names, Query(Www(w)), R);
    RecaseWithin(r, Slashes(Query(Www(w))), R);
  }

  lemma RelabelWithin(n: Names, w: Walk, info: string, better: string, R: set<string>)
    requires Within(n, w, R)
    ensures Within(n, Relabel(w, info, better), R) && Relabel(w, info, better).key == w.key
  {
  }

  lemma CreditWithin(r: Rules, w: Walk, R: set<string>)
    requires Within(r.names, w, R)
    ensures Within(r.names, Credit(r, w), R)
  {
  }

  lemma CleanReach(r: Rules, w: Walk)
    requires w.ops == [] && !w.done
    ensures Touches(r.names, Clean(r, w).ops, Reach(r.names, w.key))
  {
    var R := Reach(r.names, w.key);
    if r.disabled(w.value.info) { return; }
    var w1 := Normalize(r, w);
    NormalizeWithin(r, w);
    if Junk(r, w1) { return; }
    var w2 := Address(r, w1);
    AddressWithin(r, w1, R);
    if w2.done { return; }
    var w3 := Relabel(w2, "ransomware", "ransomware (malware)");
    RelabelWithin(r.names, w2, "ransomware", "ransomware (malware)", R);
    TailWithin(r, w3, R);
    CreditWithin(r, Tail(r, w3), R);
  }

  // ---- and depends only on what is within reach

  ghost predicate SameFor(n: Names, w: Walk, v: Walk, G: set<string>) {
    v == w.(dups := OnlyIn(n, w.dups, G)) && Group(n, w.key) in G
  }

  lemma SinkholeDependsOn(n: Names, w: Walk, v: Walk, G: set<string>)
    requires SameFor(n, w, v, G)
    ensures SameFor(n, Sinkhole(w), Sinkhole(v), G)
  {
    RemoveIn(n, w.dups, w.key, G);
  }

  lemma AddressDependsOn(r: Rules, w: Walk, v: Walk, G: set<string>)
    requires SameFor(r.names, w, v, G)
    ensures SameFor(r.names, Address(r, w), Address(r, v), G)
  {
    SinkholeDependsOn(r.names, w, v, G);
    var w1, v1 := Sinkhole(w), Sinkhole(v);
    var w2, v2 := Relabel(w1, "malware", "potential malware site"), Relabel(v1, "malware", "potential malware site");
    assert SameFor(r.names, w2, v2, G);
    assert TooFewFeeds(r, w2) == TooFewFeeds(r, v2);
  }

  lemma TailDependsOn(r: Rules, w: Walk, v: Walk, G: set<string>)
    requires SameFor(r.names, w, v, G) && Within(r.names, w, G) && RenameGroups(r.names, w.key) <= G
    ensures SameFor(r.names, Tail(r, w), Tail(r, v), G)
  {
    hide Group, OnlyIn, RenameGroups, Touches, Www, Query, Slashes, Recase;
    TailWithin(r, w, G);
    TailDups(r, w, v.dups);
  }

  /** The renames do not look at the agreement sets. */
  lemma TailDups(r: Rules, w: Walk, dups: map<string, set<string>>)
    ensures Tail(r, w.(dups := dups)) == Tail(r, w).(dups := dups) && Tail(r, w).dups == w.dups
  {
    hide Contains, Halve, Cut, Lower;
    var v := w.(dups := dups);
    assert Www(v) == Www(w).(dups := dups) && Www(w).dups == w.dups;
    var w1, v1 := Www(w), Www(v);
    assert Query(v1) == Query(w1).(dups := dups) && Query(w1).dups == w1.dups;
    var w2, v2 := Query(w1), Query(v1);
    assert Slashes(v2) == Slashes(w2).(dups := dups) && Slashes(w2).dups == w2.dups;
  }

  lemma WithinMore(n: Names, w: Walk, R: set<string>, G: set<string>)
    requires Within(n, w, R) && R <= G
    ensures Within(n, w, G)
  {
    hide Group;
  }

  lemma NormalizeSame(r: Rules, w: Walk, v: Walk, G: set<string>)
    requires v == w.(dups := OnlyIn(r.names, w.dups, G)) && Within(r.names, Normalize(r, w), G)
    ensures SameFor(r.names, Normalize(r, w), Normalize(r, v), G) && Junk(r, Normalize(r, w)) == Junk(r, Normalize(r, v))
    ensures Normalize(r, v).done == v.done && Normalize(r, w).done == w.done
  {
    hide Group, OnlyIn, HasAny, Touches;
  }

  lemma RelabelSame(n: Names, w: Walk, v: Walk, G: set<string>)
    requires SameFor(n, w, v, G)
    ensures SameFor(n, Relabel(w, "ransomware", "ransomware (malware)"), Relabel(v, "ransomware", "ransomware (malware)"), G)
  {
    hide Group, OnlyIn;
  }

  lemma SameDone(n: Names, w: Walk, v: Walk, G: set<string>)
    requires SameFor(n, w, v, G)
    ensures v.done == w.done && v.ops == w.ops && v.key == w.key && v.value == w.value
  {
    hide Group, OnlyIn;
  }

  lemma CleanDependsOn(r: Rules, w: Walk, G: set<string>)
    requires w.ops == [] && !w.done && Reach(r.names, w.key) <= G
    ensures Clean(r, w.(dups := OnlyIn(r.names, w.dups, G))).ops == Clean(r, w).ops
  {
    hide Group, OnlyIn, Touches, Address, Relabel, Credit, HasAny, Within, SameFor, Normalize;
    var n := r.names;
    var v := w.(dups := OnlyIn(n, w.dups, G));
    if r.disabled(w.value.info) { return; }
    NormalizeWithin(r, w);
    var w1, v1 := Normalize(r, w), Normalize(r, v);
    WithinMore(n, w1, Reach(n, w.key), G);
    NormalizeSame(r, w, v, G);
    SameDone(n, w1, v1, G);
    if Junk(r, w1) { return; }
    AddressDependsOn(r, w1, v1, G);
    AddressWithin(r, w1, G);
    var w2, v2 := Address(r, w1), Address(r, v1);
    SameDone(n, w2, v2, G);
    if w2.done { return; }
    var w3, v3 := Relabel(w2, "ransomware", "ransomware (malware)"), Relabel(v2, "ransomware", "ransomware (malware)");
    RelabelSame(n, w2, v2, G);
    RelabelWithin(n, w2, "ransomware", "ransomware (malware)", G);
    TailDependsOn(r, w3, v3, G);
    CreditDependsOn(r, Tail(r, w3), Tail(r, v3), G);
  }

  lemma CreditDependsOn(r: Rules, w: Walk, v: Walk, G: set<string>)
    requires SameFor(r.names, w, v, G)
    ensures Credit(r, w).ops == Credit(r, v).ops
  {
  }

  // ---- visits and passes

  lemma OpsReach(r: Rules, pass: Pass, s: State, key: string)
    ensures Touches(r.names, Ops(r, pass, s, key), if pass == Cleanup then Reach(r.names, key) else {Group(r.names, key)})
  {
    if key in s.store.at { if pass == Cleanup { CleanReach(r, Walk([], key, s.store.at[key], s.dups, false)); } }
  }

  lemma OpsDependOn(r: Rules, pass: Pass, s: State, key: string, G: set<string>)
    requires pass == Cleanup ==> Reach(r.names, key) <= G
    requires Group(r.names, key) in G
    ensures Ops(r, pass, Only(r.names, s, G), key) == Ops(r, pass, s, key)
  {
    if key in s.store.at && pass == Cleanup {
      CleanDependsOn(r, Walk([], key, s.store.at[key], s.dups, false), G);
    }
  }

  lemma StartOnly(n: Names, pass: Pass, s: State, key: string, G: set<string>)
    requires Group(n, key) in G
    ensures Only(n, Start(s, pass, key), G) == Start(Only(n, s, G), pass, key)
  {
  }

  lemma VisitInside(r: Rules, pass: Pass, s: State, key: string, G: set<string>)
    requires pass == Cleanup ==> Reach(r.names, key) <= G
    requires Group(r.names, key) in G
    ensures Only(r.names, Visit(r, pass, s, key), G) == Visit(r, pass, Only(r.names, s, G), key)
  {
    OpsDependOn(r, pass, s, key, G);
    StartOnly(r.names, pass, s, key, G);
    OpsReach(r, pass, s, key);
    DoAllInside(r.names, Start(s, pass, key), Ops(r, pass, s, key), G);
  }

  lemma VisitOutside(r: Rules, pass: Pass, s: State, key: string, G: set<string>)
    requires pass == Cleanup ==> Reach(r.names, key) !! G
    requires Group(r.names, key) !in G
    ensures Same(Only(r.names, Visit(r, pass, s, key), G), Only(r.names, s, G))
  {
    OpsReach(r, pass, s, key);
    DoAllOutside(r.names, Start(s, pass, key), Ops(r, pass, s, key),
                 if pass == Cleanup then Reach(r.names, key) else {Group(r.names, key)}, G);
  }

  /** What a step does to the data does not depend on `now`: the step sets it. */
  lemma VisitSame(r: Rules, pass: Pass, s: State, t: State, key: string)
    requires Same(s, t) && (key in s.store.at ==> key in s.stamps)
    ensures Same(Visit(r, pass, s, key), Visit(r, pass, t, key))
  {
    if key in s.store.at && pass == Whitelist {
      if Unwanted(r, key, s.store.at[key]) {
        assert DoAll(s, [Del(key)]) == Do(DoAll(s, []), Del(key)) && DoAll(t, [Del(key)]) == Do(DoAll(t, []), Del(key));
      }
    }
  }

  lemma {:induction false} VisitAllSame(r: Rules, pass: Pass, s: State, t: State, keys: seq<string>)
    requires Same(s, t) && Wf(s)
    ensures Same(VisitAll(r, pass, s, keys), VisitAll(r, pass, t, keys))
    decreases |keys|
  {
    if keys != [] {
      VisitSame(r, pass, s, t, keys[0]);
      VisitWf(r, pass, s, keys[0]);
      VisitAllSame(r, pass, Visit(r, pass, s, keys[0]), Visit(r, pass, t, keys[0]), keys[1..]);
    }
  }

  lemma {:induction false} OnlyWf(n: Names, s: State, G: set<string>)
    requires Wf(s)
    ensures Wf(Only(n, s, G))
  {
    OnlyKeysAre(n, s.store.order, G);
  }

  lemma {:induction false} OnlyKeysAre(n: Names, order: seq<string>, G: set<string>)
    ensures forall k :: k in OnlyKeys(n, order, G) <==> k in order && Group(n, k) in G
    ensures Distinct(order) ==> Distinct(OnlyKeys(n, order, G))
  {
    if order != [] {
      var rest := order[1..];
      assert order == [order[0]] + rest;
      if Distinct(order) {
        forall i, j | 0 <= i < j < |rest| ensures rest[i] != rest[j] { assert rest[i] == order[i + 1] && rest[j] == order[j + 1]; }
        assert order[0] !in rest;
      }
      OnlyKeysAre(n, rest, G);
    }
  }

  lemma {:induction false} VisitAllOnly(r: Rules, pass: Pass, s: State, keys: seq<string>, G: set<string>)
    requires Wf(s)
    requires pass == Cleanup ==> forall k :: k in keys ==> Settled(r.names, k, G)
    ensures Same(Only(r.names, VisitAll(r, pass, s, keys), G), VisitAll(r, pass, Only(r.names, s, G), OnlyKeys(r.names, keys, G)))
    decreases |keys|
  {
    hide Group, Reach, Visit, Wf, Only;
    var n := r.names;
    if keys != [] {
      var k := keys[0];
      OwnGroup(n, k);
      assert k in keys;
      assert forall x :: x in keys[1..] ==> x in keys;
      var s1 := Visit(r, pass, s, k);
      VisitWf(r, pass, s, k);
      VisitAllOnly(r, pass, s1, keys[1..], G);
      OnlyWf(n, s, G);
      OnlyWf(n, s1, G);
      if Group(n, k) in G {
        VisitInside(r, pass, s, k, G);
        assert OnlyKeys(n, keys, G)[1..] == OnlyKeys(n, keys[1..], G);
      } else {
        VisitOutside(r, pass, s, k, G);
        assert OnlyKeys(n, keys, G) == OnlyKeys(n, keys[1..], G);
        VisitAllSame(r, pass, Only(n, s1, G), Only(n, s, G), OnlyKeys(n, keys[1..], G));
      }
    }
  }

  lemma PostProcessOnly(r: Rules, s: State, G: set<string>)
    requires Wf(s)
    requires forall k :: k in s.store.order ==> Settled(r.names, k, G)
    ensures Same(Only(r.names, PostProcess(r, s), G), PostProcess(r, Only(r.names, s, G)))
  {
    var n := r.names;
    var s1 := VisitAll(r, Cleanup, s, s.store.order);
    VisitAllWf(r, Cleanup, s, s.store.order);
    VisitAllOnly(r, Cleanup, s, s.store.order, G);
    VisitAllOnly(r, Whitelist, s1, s1.store.order, G);
    var t1 := VisitAll(r, Cleanup, Only(n, s, G), OnlyKeys(n, s.store.order, G));
    OnlyWf(n, s1, G);
    VisitAllSame(r, Whitelist, Only(n, s1, G), t1, t1.store.order);
  }
}
