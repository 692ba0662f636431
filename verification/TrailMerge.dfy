/**
 The whole build as a function of the source rows, and what it does on a part of them.
 */
module TrailMerge {
  import opened Text
  import opened TrailGroup
  import opened TrailShard
  import opened TrailLocality

  /** A source row with its sequence number. */
  datatype Numbered = Numbered(seqNo: nat, row: Row)

  function ApplyAt(s: State, x: Numbered): State {
    Apply(s.(now := x.seqNo), x.row)
  }

  /** The merge phase. */
  function Fed(rows: seq<Numbered>): State {
    if rows == [] then EMPTY else ApplyAt(Fed(rows[..|rows| - 1]), rows[|rows| - 1])
  }

  function Build(r: Rules, rows: seq<Numbered>): State {
    PostProcess(r, Fed(rows))
  }

  function OnlyRows(n: Names, rows: seq<Numbered>, G: set<string>): seq<Numbered> {
    if rows == [] then []
    else
      var x := rows[|rows| - 1];
      OnlyRows(n, rows[..|rows| - 1], G) + (if Group(n, x.row.key) in G then [x] else [])
  }

  /** A remote row is checked in its own group. */
  predicate Fair(n: Names, row: Row) {
    row.kind == Remote ==> Group(n, row.check) == Group(n, row.key)
  }

  lemma AgreeOnly(n: Names, s: State, key: string, reference: string, G: set<string>)
    ensures Group(n, key) in G ==> Only(n, Agree(s, key, reference), G) == Agree(Only(n, s, G), key, reference)
    ensures Group(n, key) !in G ==> Only(n, Agree(s, key, reference), G) == Only(n, s, G)
  {
    if key in s.store.at {
      var seen := (if key in s.dups then s.dups[key] else {s.store.at[key].reference}) + {reference};
      InsertIn(n, s.dups, key, seen, G);
    }
  }

  lemma GetOnly(n: Names, s: State, row: Row, G: set<string>)
    requires Group(n, row.key) in G
    ensures Get(Only(n, s, G), row.key) == Get(s, row.key)
    ensures Group(n, row.check) in G ==> Get(Only(n, s, G), row.check) == Get(s, row.check)
  {
    hide Group;
  }

  lemma SameItself(s: State)
    ensures Same(s, s)
  {
  }

  lemma ApplyOnly(n: Names, s: State, row: Row, G: set<string>)
    requires Fair(n, row)
    ensures Group(n, row.key) in G ==> Only(n, Apply(s, row), G) == Apply(Only(n, s, G), row)
    ensures Group(n, row.key) !in G ==> Same(Only(n, Apply(s, row), G), Only(n, s, G))
  {
    hide Wins, HasAny, Do, Agree, Only, Group, Same;
    if Group(n, row.key) in G { GetOnly(n, s, row, G); }
    SameItself(Only(n, s, G));
    match row.kind
    case Merge =>
      AgreeOnly(n, s, row.key, row.value.reference, G);
      PutOnly(n, Agree(s, row.key, row.value.reference), row.key, row.value, G);
    case Remote => PutOnly(n, s, row.key, row.value, G);
    case Set => PutOnly(n, s, row.key, row.value, G);
  }

  lemma {:induction false} FedWf(rows: seq<Numbered>)
    ensures Wf(Fed(rows))
    ensures forall k :: k in Fed(rows).store.order ==> exists i :: 0 <= i < |rows| && rows[i].row.key == k
  {
    if rows != [] {
      var front, x := rows[..|rows| - 1], rows[|rows| - 1];
      FedWf(front);
      ApplyWf(Fed(front).(now := x.seqNo), x.row);
      forall k | k in Fed(rows).store.order ensures exists i :: 0 <= i < |rows| && rows[i].row.key == k {
        if k in Fed(front).store.order {
          var i :| 0 <= i < |front| && front[i].row.key == k;
          assert rows[i].row.key == k;
        } else {
          assert rows[|rows| - 1].row.key == k;
        }
      }
    }
  }

  lemma {:induction false} FedOnly(n: Names, rows: seq<Numbered>, G: set<string>)
    requires forall i :: 0 <= i < |rows| ==> Fair(n, rows[i].row)
    ensures Same(Only(n, Fed(rows), G), Fed(OnlyRows(n, rows, G)))
  {
    if rows != [] {
      var front, x := rows[..|rows| - 1], rows[|rows| - 1];
      FedOnly(n, front, G);
      var s := Fed(front).(now := x.seqNo);
      ApplyOnly(n, s, x.row, G);
      if Group(n, x.row.key) in G {
        assert Only(n, s, G) == Fed(OnlyRows(n, front, G)).(now := x.seqNo);
        assert OnlyRows(n, rows, G)[..|OnlyRows(n, rows, G)| - 1] == OnlyRows(n, front, G);
      } else {
        assert OnlyRows(n, rows, G) == OnlyRows(n, front, G);
      }
    }
  }

  lemma PostProcessSame(r: Rules, s: State, t: State)
    requires Same(s, t) && Wf(s)
    ensures Same(PostProcess(r, s), PostProcess(r, t))
  {
    VisitAllSame(r, Cleanup, s, t, s.store.order);
    var s', t' := VisitAll(r, Cleanup, s, s.store.order), VisitAll(r, Cleanup, t, t.store.order);
    VisitAllWf(r, Cleanup, s, s.store.order);
    VisitAllSame(r, Whitelist, s', t', s'.store.order);
  }

  lemma BuildWf(r: Rules, rows: seq<Numbered>)
    ensures Wf(Build(r, rows))
  {
    FedWf(rows);
    var s := Fed(rows);
    VisitAllWf(r, Cleanup, s, s.store.order);
    VisitAllWf(r, Whitelist, VisitAll(r, Cleanup, s, s.store.order), VisitAll(r, Cleanup, s, s.store.order).store.order);
  }

  /**
   Building only the rows of some groups gives exactly that part of the build of all rows: the same
   trails with the same values, in the same order, with the same stamps and agreement counts.
   */
  lemma BuildOnly(r: Rules, rows: seq<Numbered>, G: set<string>)
    requires forall i :: 0 <= i < |rows| ==> Fair(r.names, rows[i].row) && Settled(r.names, rows[i].row.key, G)
    ensures Same(Only(r.names, Build(r, rows), G), Build(r, OnlyRows(r.names, rows, G)))
  {
    var n := r.names;
    FedWf(rows);
    FedOnly(n, rows, G);
    PostProcessOnly(r, Fed(rows), G);
    OnlyWf(n, Fed(rows), G);
    PostProcessSame(r, Only(n, Fed(rows), G), Fed(OnlyRows(n, rows, G)));
  }

  /** Every group a row can reach. */
  function AllGroups(n: Names, rows: seq<Numbered>): set<string> {
    set i, g | 0 <= i < |rows| && g in Reach(n, rows[i].row.key) :: g
  }

  lemma {:induction false} OnlyAllRows(n: Names, rows: seq<Numbered>, G: set<string>)
    requires forall i :: 0 <= i < |rows| ==> Group(n, rows[i].row.key) in G
    ensures OnlyRows(n, rows, G) == rows
  {
    if rows != [] { OnlyAllRows(n, rows[..|rows| - 1], G); }
  }

  lemma {:induction false} OnlyKeysAll(n: Names, order: seq<string>, G: set<string>)
    requires OnlyKeys(n, order, G) == order
    ensures forall k :: k in order ==> Group(n, k) in G
  {
    OnlyKeysAre(n, order, G);
  }

  /** No trail of the build is outside the groups its rows can reach. */
  lemma BuildGroups(r: Rules, rows: seq<Numbered>)
    requires forall i :: 0 <= i < |rows| ==> Fair(r.names, rows[i].row)
    ensures forall k :: k in Build(r, rows).store.order ==> Group(r.names, k) in AllGroups(r.names, rows)
  {
    var n := r.names;
    var G := AllGroups(n, rows);
    forall i | 0 <= i < |rows| ensures Reach(n, rows[i].row.key) <= G && Group(n, rows[i].row.key) in G { OwnGroup(n, rows[i].row.key); }
    BuildOnly(r, rows, G);
    OnlyAllRows(n, rows, G);
    OnlyKeysAll(n, Build(r, rows).store.order, G);
  }
}
