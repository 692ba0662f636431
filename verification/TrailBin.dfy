/**
 Building the keyless trail store in two passes (core/common.py) and looking keys up in it
 (core/trailsbin.py). Hashes may collide and keys may repeat; the hash is any function to 64 bits.
 */
module TrailBin {
  import opened Text
  import opened TrailTable

  type Hash64 = h: nat | h < HALF * HALF

  datatype Row<P> = Row(key: string, pair: P)

  /** What a dict built from the rows holds. */
  function LastWins<P>(rows: seq<Row<P>>): map<string, P> {
    if rows == [] then map[] else var r := rows[|rows| - 1]; LastWins(rows[..|rows| - 1])[r.key := r.pair]
  }

  function Hashes<P>(rows: seq<Row<P>>, hash: string -> Hash64): set<nat> {
    if rows == [] then {} else Hashes(rows[..|rows| - 1], hash) + {hash(rows[|rows| - 1].key)}
  }

  /** The hashes of two rows or more. */
  function Clashing<P>(rows: seq<Row<P>>, hash: string -> Hash64): set<nat> {
    if rows == [] then {}
    else
      var front, h := rows[..|rows| - 1], hash(rows[|rows| - 1].key);
      if h in Hashes(front, hash) then Clashing(front, hash) + {h} else Clashing(front, hash)
  }

  function Pairs<P>(rows: seq<Row<P>>): set<P> {
    if rows == [] then {} else Pairs(rows[..|rows| - 1]) + {rows[|rows| - 1].pair}
  }

  lemma {:induction false} HashesAre<P>(rows: seq<Row<P>>, hash: string -> Hash64, h: nat)
    ensures h in Hashes(rows, hash) <==> exists i :: 0 <= i < |rows| && hash(rows[i].key) == h
  {
    if rows != [] {
      var front, r := rows[..|rows| - 1], rows[|rows| - 1];
      HashesAre(front, hash, h);
      if i :| 0 <= i < |rows| && hash(rows[i].key) == h {
        assert i < |front| ==> front[i] == rows[i];
      }
      if h in Hashes(front, hash) {
        var i :| 0 <= i < |front| && hash(front[i].key) == h;
        assert rows[i] == front[i];
      }
    }
  }

  lemma {:induction false} ClashingAre<P>(rows: seq<Row<P>>, hash: string -> Hash64, h: nat)
    ensures h in Clashing(rows, hash) <==> exists i, j :: 0 <= i < j < |rows| && hash(rows[i].key) == hash(rows[j].key) == h
  {
    if rows != [] {
      var front, last := rows[..|rows| - 1], |rows| - 1;
      ClashingAre(front, hash, h);
      HashesAre(front, hash, h);
      if i, j :| 0 <= i < j < |rows| && hash(rows[i].key) == hash(rows[j].key) == h {
        assert front[i] == rows[i];
        assert j < last ==> front[j] == rows[j];
      }
      if h in Clashing(front, hash) {
        var i, j :| 0 <= i < j < |front| && hash(front[i].key) == hash(front[j].key) == h;
        assert rows[i] == front[i] && rows[j] == front[j];
      } else if h in Clashing(rows, hash) {
        var i :| 0 <= i < |front| && hash(front[i].key) == h;
        assert rows[i] == front[i] && hash(rows[last].key) == h;
      }
    }
  }

  lemma {:induction false} KeyHashed<P>(rows: seq<Row<P>>, hash: string -> Hash64, k: string)
    requires k in LastWins(rows)
    ensures hash(k) in Hashes(rows, hash)
  {
    if k != rows[|rows| - 1].key { KeyHashed(rows[..|rows| - 1], hash, k); }
  }

  lemma {:induction false} HashKeyed<P>(rows: seq<Row<P>>, hash: string -> Hash64, h: nat) returns (k: string)
    requires h in Hashes(rows, hash)
    ensures k in LastWins(rows) && hash(k) == h
  {
    if hash(rows[|rows| - 1].key) == h { k := rows[|rows| - 1].key; } else { k := HashKeyed(rows[..|rows| - 1], hash, h); }
  }

  /** A hash of one row only has one key. */
  lemma {:induction false} LoneKey<P>(rows: seq<Row<P>>, hash: string -> Hash64, k: string, k': string)
    requires k in LastWins(rows) && k' in LastWins(rows) && hash(k) == hash(k') && hash(k) !in Clashing(rows, hash)
    ensures k == k'
  {
    var front, last := rows[..|rows| - 1], rows[|rows| - 1].key;
    if k != last && k' != last {
      LoneKey(front, hash, k, k');
    } else if k != k' {
      KeyHashed(front, hash, if k == last then k' else k);
    }
  }

  // ---- the build

  /** `pairs` numbers the pairs as `pairList` lists them. */
  ghost predicate Interned<P>(pairs: map<P, nat>, pairList: seq<P>) {
    && |pairs| == |pairList|
    && (forall p :: p in pairs ==> pairs[p] < |pairList| && pairList[pairs[p]] == p)
    && (forall i :: 0 <= i < |pairList| ==> pairList[i] in pairs)
  }

  /** The table after rows: the hash of every row outside `left`, with the number of its key's pair. */
  ghost predicate Numbered<P>(rows: seq<Row<P>>, hash: string -> Hash64, left: set<nat>, stored: map<nat, nat>, pairs: map<P, nat>) {
    forall k :: k in LastWins(rows) && hash(k) !in left ==>
      hash(k) in stored && LastWins(rows)[k] in pairs && stored[hash(k)] == pairs[LastWins(rows)[k]]
  }

  /** What the first pass knows of the rows it has read. */
  ghost predicate Seen<P>(rows: seq<Row<P>>, hash: string -> Hash64, stored: map<nat, nat>, pairs: map<P, nat>, colliding: set<nat>) {
    && stored.Keys == Hashes(rows, hash) && colliding == Clashing(rows, hash)
    && pairs.Keys == Pairs(rows)
    && Numbered(rows, hash, colliding, stored, pairs)
    && |stored| <= |rows|
    && (colliding == {} ==> |stored| == |LastWins(rows)|)
  }

  lemma SeenNone<P>(hash: string -> Hash64)
    ensures var none: seq<Row<P>> := []; Seen(none, hash, map[], map[], {}) && Interned<P>(map[], [])
  {
  }

  /** Interning keeps the old numbers. */
  ghost predicate Grown<P>(before: map<P, nat>, after: map<P, nat>) {
    forall p :: p in before ==> p in after && after[p] == before[p]
  }

  lemma Next<P>(rows: seq<Row<P>>, row: Row<P>, hash: string -> Hash64)
    ensures Hashes(rows + [row], hash) == Hashes(rows, hash) + {hash(row.key)}
    ensures hash(row.key) in Hashes(rows, hash) ==> Clashing(rows + [row], hash) == Clashing(rows, hash) + {hash(row.key)}
    ensures hash(row.key) !in Hashes(rows, hash) ==> Clashing(rows + [row], hash) == Clashing(rows, hash)
    ensures Pairs(rows + [row]) == Pairs(rows) + {row.pair}
    ensures LastWins(rows + [row]) == LastWins(rows)[row.key := row.pair]
  {
    assert (rows + [row])[..|rows|] == rows;
  }

  lemma SeenNext<P>(rows: seq<Row<P>>, row: Row<P>, hash: string -> Hash64, stored: map<nat, nat>, pairs: map<P, nat>, pairs': map<P, nat>, colliding: set<nat>)
    requires Seen(rows, hash, stored, pairs, colliding)
    requires Grown(pairs, pairs') && pairs'.Keys == pairs.Keys + {row.pair}
    ensures var h := hash(row.key);
      if h in stored then Seen(rows + [row], hash, stored, pairs', colliding + {h})
      else Seen(rows + [row], hash, stored[h := pairs'[row.pair]], pairs', colliding)
  {
    hide Seen;
    if hash(row.key) in stored {
      SeenAgain(rows, row, hash, stored, pairs, pairs', colliding);
    } else {
      SeenNew(rows, row, hash, stored, pairs, pairs', colliding);
    }
  }

  lemma SeenAgain<P>(rows: seq<Row<P>>, row: Row<P>, hash: string -> Hash64, stored: map<nat, nat>, pairs: map<P, nat>, pairs': map<P, nat>, colliding: set<nat>)
    requires Seen(rows, hash, stored, pairs, colliding) && hash(row.key) in stored
    requires Grown(pairs, pairs') && pairs'.Keys == pairs.Keys + {row.pair}
    ensures Seen(rows + [row], hash, stored, pairs', colliding + {hash(row.key)})
  {
    hide Hashes, Clashing, Pairs, LastWins, Numbered, Grown;
    Next(rows, row, hash);
    NumberedNext(rows, row, hash, stored, pairs, pairs', colliding);
  }

  lemma SeenNew<P>(rows: seq<Row<P>>, row: Row<P>, hash: string -> Hash64, stored: map<nat, nat>, pairs: map<P, nat>, pairs': map<P, nat>, colliding: set<nat>)
    requires Seen(rows, hash, stored, pairs, colliding) && hash(row.key) !in stored
    requires Grown(pairs, pairs') && pairs'.Keys == pairs.Keys + {row.pair}
    ensures Seen(rows + [row], hash, stored[hash(row.key) := pairs'[row.pair]], pairs', colliding)
  {
    hide Hashes, Clashing, Pairs, LastWins, Numbered, Grown;
    Next(rows, row, hash);
    NumberedNext(rows, row, hash, stored, pairs, pairs', colliding);
    LastGrows(rows, row, hash);
  }

  lemma LastGrows<P>(rows: seq<Row<P>>, row: Row<P>, hash: string -> Hash64)
    requires hash(row.key) !in Hashes(rows, hash)
    ensures |LastWins(rows + [row])| == |LastWins(rows)| + 1
  {
    Next(rows, row, hash);
    if row.key in LastWins(rows) { KeyHashed(rows, hash, row.key); }
  }

  lemma NumberedNext<P>(rows: seq<Row<P>>, row: Row<P>, hash: string -> Hash64, stored: map<nat, nat>, pairs: map<P, nat>, pairs': map<P, nat>, colliding: set<nat>)
    requires stored.Keys == Hashes(rows, hash) && Numbered(rows, hash, colliding, stored, pairs)
    requires Grown(pairs, pairs') && pairs'.Keys == pairs.Keys + {row.pair}
    ensures var h := hash(row.key);
      if h in stored then Numbered(rows + [row], hash, colliding + {h}, stored, pairs')
      else Numbered(rows + [row], hash, colliding, stored[h := pairs'[row.pair]], pairs')
  {
    hide Hashes, LastWins;
    Next(rows, row, hash);
    forall k | k in LastWins(rows) ensures hash(k) in stored { KeyHashed(rows, hash, k); }
  }

  /** The first pass: every row into the table; a hash that is already there is noted. */
  method FirstPass<P(==)>(rows: seq<Row<P>>, hash: string -> Hash64, table: Table)
      returns (ok: bool, pairs: map<P, nat>, pairList: seq<P>, colliding: set<nat>, n: nat)
    requires table.Valid() && table.stored == map[] && |rows| < table.cap
    modifies table, table.hi, table.lo, table.val
    ensures ok <==> |Pairs(rows)| < EMPTY
    ensures ok ==> table.Valid() && n == |table.stored| && Interned(pairs, pairList)
    ensures ok ==> Seen(rows, hash, table.stored, pairs, colliding)
  {
    hide Seen, Interned, Pairs, Grown, Table.Valid;
    ok, pairs, pairList, colliding, n := true, map[], [], {}, 0;
    var i := 0;
    SeenNone<P>(hash);
    while i < |rows|
      invariant 0 <= i <= |rows|
      invariant table.Valid() && n == |table.stored| <= i
      invariant Interned(pairs, pairList) && |pairList| < EMPTY
      invariant Seen(rows[..i], hash, table.stored, pairs, colliding)
    {
      var row := rows[i];
      ghost var before := pairs;
      Intern(pairs, pairList, row.pair);
      if row.pair !in pairs {
        pairs := pairs[row.pair := |pairList|];
        pairList := pairList + [row.pair];
        if |pairList| >= EMPTY {
          TooMany(rows, i, hash, table.stored, before, colliding);
          ok := false;
          return;
        }
      }
      SeenNext(rows[..i], row, hash, table.stored, before, pairs, colliding);
      assert rows[..i] + [row] == rows[..i + 1];
      var inserted := table.Insert(hash(row.key), pairs[row.pair]);
      if inserted {
        n := n + 1;
      } else {
        colliding := colliding + {hash(row.key)};
      }
      i := i + 1;
    }
    assert rows[..i] == rows;
    Few(rows, hash, table.stored, pairs, pairList, colliding);
  }

  lemma Intern<P>(pairs: map<P, nat>, pairList: seq<P>, p: P)
    requires Interned(pairs, pairList)
    ensures p in pairs ==> pairs[p] < |pairList| && Grown(pairs, pairs) && pairs.Keys + {p} == pairs.Keys
    ensures p !in pairs ==>
      var more := pairs[p := |pairList|];
      Interned(more, pairList + [p]) && Grown(pairs, more) && more.Keys == pairs.Keys + {p} && |more| == |pairList| + 1
  {
  }

  lemma Few<P>(rows: seq<Row<P>>, hash: string -> Hash64, stored: map<nat, nat>, pairs: map<P, nat>, pairList: seq<P>, colliding: set<nat>)
    requires Seen(rows, hash, stored, pairs, colliding) && Interned(pairs, pairList)
    ensures |Pairs(rows)| == |pairList|
  {
  }

  lemma TooMany<P>(rows: seq<Row<P>>, i: nat, hash: string -> Hash64, stored: map<nat, nat>, pairs: map<P, nat>, colliding: set<nat>)
    requires i < |rows| && Seen(rows[..i], hash, stored, pairs, colliding) && rows[i].pair !in pairs
    ensures |Pairs(rows)| >= |pairs| + 1
  {
    assert rows[..i + 1][..i] == rows[..i];
    PairsGrow(rows, i + 1);
    assert Pairs(rows[..i + 1]) == Pairs(rows[..i]) + {rows[i].pair};
  }

  lemma {:induction false} PairsGrow<P>(rows: seq<Row<P>>, i: nat)
    requires i <= |rows|
    ensures |Pairs(rows[..i])| <= |Pairs(rows)|
    decreases |rows| - i
  {
    if i == |rows| {
      assert rows[..i] == rows;
    } else {
      assert rows[..i + 1][..i] == rows[..i];
      Subset(Pairs(rows[..i]), Pairs(rows[..i + 1]));
      PairsGrow(rows, i + 1);
    }
  }

  // ---- the second pass and lookups

  /** What the second pass holds: the hashes outside `colliding` in the table, the keys of the others verbatim. */
  ghost predicate Kept<P>(rows: seq<Row<P>>, hash: string -> Hash64, colliding: set<nat>, stored: map<nat, nat>, pairs: map<P, nat>, collisions: map<string, P>) {
    && stored.Keys == Hashes(rows, hash) - colliding
    && Numbered(rows, hash, colliding, stored, pairs)
    && (forall k :: k in collisions <==> k in LastWins(rows) && hash(k) in colliding)
    && (forall k :: k in collisions ==> collisions[k] == LastWins(rows)[k])
    && |stored| + |collisions| == |LastWins(rows)|
    && |stored| <= |rows|
  }

  lemma KeptNone<P>(hash: string -> Hash64, colliding: set<nat>, pairs: map<P, nat>)
    ensures Kept([], hash, colliding, map[], pairs, map[])
  {
  }

  /** Without collisions the first pass has kept every row already. */
  lemma SeenKept<P>(rows: seq<Row<P>>, hash: string -> Hash64, stored: map<nat, nat>, pairs: map<P, nat>)
    requires Seen(rows, hash, stored, pairs, {})
    ensures Kept(rows, hash, {}, stored, pairs, map[])
  {
  }

  lemma KeptNext<P>(all: seq<Row<P>>, i: nat, hash: string -> Hash64, colliding: set<nat>, stored: map<nat, nat>, pairs: map<P, nat>, collisions: map<string, P>)
    requires i < |all| && pairs.Keys == Pairs(all) && colliding == Clashing(all, hash)
    requires Kept(all[..i], hash, colliding, stored, pairs, collisions)
    ensures all[i].pair in pairs
    ensures hash(all[i].key) in colliding ==> Kept(all[..i + 1], hash, colliding, stored, pairs, collisions[all[i].key := all[i].pair])
    ensures hash(all[i].key) !in colliding ==> hash(all[i].key) !in stored
    ensures hash(all[i].key) !in colliding ==>
      Kept(all[..i + 1], hash, colliding, stored[hash(all[i].key) := pairs[all[i].pair]], pairs, collisions)
  {
    hide Hashes, Clashing, Pairs, LastWins, Kept;
    assert all[..i] + [all[i]] == all[..i + 1];
    Upto(all, i, hash);
    if hash(all[i].key) in colliding {
      KeptAside(all[..i], all[i], hash, colliding, stored, pairs, collisions);
    } else {
      KeptIn(all[..i], all[i], hash, colliding, stored, pairs, collisions);
    }
  }

  lemma KeptAside<P>(rows: seq<Row<P>>, row: Row<P>, hash: string -> Hash64, colliding: set<nat>, stored: map<nat, nat>, pairs: map<P, nat>, collisions: map<string, P>)
    requires Kept(rows, hash, colliding, stored, pairs, collisions) && hash(row.key) in colliding
    ensures Kept(rows + [row], hash, colliding, stored, pairs, collisions[row.key := row.pair])
  {
    hide Hashes, Clashing, Pairs, LastWins, Numbered;
    Next(rows, row, hash);
    assert Hashes(rows + [row], hash) - colliding == Hashes(rows, hash) - colliding;
    NumberedAside(rows, row, hash, colliding, stored, pairs);
    Counts(LastWins(rows), collisions, row.key, row.pair);
  }

  lemma Counts<P>(last: map<string, P>, collisions: map<string, P>, key: string, pair: P)
    requires key in collisions <==> key in last
    ensures |last[key := pair]| - |last| == |collisions[key := pair]| - |collisions|
  {
  }

  lemma NumberedAside<P>(rows: seq<Row<P>>, row: Row<P>, hash: string -> Hash64, left: set<nat>, stored: map<nat, nat>, pairs: map<P, nat>)
    requires Numbered(rows, hash, left, stored, pairs) && hash(row.key) in left
    ensures Numbered(rows + [row], hash, left, stored, pairs)
  {
    hide Hashes, Clashing, Pairs, LastWins;
    Next(rows, row, hash);
  }

  lemma KeptIn<P>(rows: seq<Row<P>>, row: Row<P>, hash: string -> Hash64, colliding: set<nat>, stored: map<nat, nat>, pairs: map<P, nat>, collisions: map<string, P>)
    requires Kept(rows, hash, colliding, stored, pairs, collisions) && row.pair in pairs
    requires hash(row.key) !in colliding && hash(row.key) !in Hashes(rows, hash)
    ensures hash(row.key) !in stored
    ensures Kept(rows + [row], hash, colliding, stored[hash(row.key) := pairs[row.pair]], pairs, collisions)
  {
    hide Hashes, Clashing, Pairs, LastWins, Numbered;
    Next(rows, row, hash);
    LastGrows(rows, row, hash);
    NumberedIn(rows, row, hash, colliding, stored, pairs);
    if row.key in LastWins(rows) { KeyHashed(rows, hash, row.key); }
  }

  lemma NumberedIn<P>(rows: seq<Row<P>>, row: Row<P>, hash: string -> Hash64, left: set<nat>, stored: map<nat, nat>, pairs: map<P, nat>)
    requires Numbered(rows, hash, left, stored, pairs) && hash(row.key) !in Hashes(rows, hash) && row.pair in pairs
    ensures Numbered(rows + [row], hash, left, stored[hash(row.key) := pairs[row.pair]], pairs)
  {
    hide Hashes, Clashing, Pairs, LastWins;
    Next(rows, row, hash);
    forall k | k in LastWins(rows) ensures hash(k) in Hashes(rows, hash) { KeyHashed(rows, hash, k); }
  }

  /** A row whose hash was there before it collides; its pair is among the pairs. */
  lemma Upto<P>(all: seq<Row<P>>, i: nat, hash: string -> Hash64)
    requires i < |all|
    ensures hash(all[i].key) in Hashes(all[..i], hash) ==> hash(all[i].key) in Clashing(all, hash)
    ensures all[i].pair in Pairs(all)
  {
    HashesAre(all[..i], hash, hash(all[i].key));
    ClashingAre(all, hash, hash(all[i].key));
    PairIn(all, i);
  }

  lemma {:induction false} PairIn<P>(rows: seq<Row<P>>, i: nat)
    requires i < |rows|
    ensures rows[i].pair in Pairs(rows)
  {
    if i < |rows| - 1 { PairIn(rows[..|rows| - 1], i); }
  }

  /** One row of the second pass. */
  method SecondRow<P(==)>(rows: seq<Row<P>>, i: nat, hash: string -> Hash64, table: Table, pairs: map<P, nat>, ghost pairList: seq<P>,
                          colliding: set<nat>, before: map<string, P>, n0: nat)
      returns (collisions: map<string, P>, n: nat)
    requires i < |rows| < table.cap && table.Valid() && n0 == |table.stored| <= i
    requires Interned(pairs, pairList) && |pairList| < EMPTY && pairs.Keys == Pairs(rows) && colliding == Clashing(rows, hash)
    requires Kept(rows[..i], hash, colliding, table.stored, pairs, before)
    modifies table, table.hi, table.lo, table.val
    ensures table.Valid() && n == |table.stored| <= i + 1
    ensures Kept(rows[..i + 1], hash, colliding, table.stored, pairs, collisions)
  {
    hide *;
    collisions, n := before, n0;
    var row := rows[i];
    var h := hash(row.key);
    KeptNext(rows, i, hash, colliding, table.stored, pairs, collisions);
    Intern(pairs, pairList, row.pair);
    if h in colliding {
      collisions := collisions[row.key := row.pair];
    } else {
      var inserted := table.Insert(h, pairs[row.pair]);
      if inserted {
        n := n + 1;
      }
    }
  }

  method SecondPass<P(==)>(rows: seq<Row<P>>, hash: string -> Hash64, table: Table, pairs: map<P, nat>, ghost pairList: seq<P>, colliding: set<nat>)
      returns (collisions: map<string, P>, n: nat)
    requires table.Valid() && table.stored == map[] && |rows| < table.cap
    requires Interned(pairs, pairList) && |pairList| < EMPTY && pairs.Keys == Pairs(rows) && colliding == Clashing(rows, hash)
    modifies table, table.hi, table.lo, table.val
    ensures table.Valid() && n == |table.stored|
    ensures Kept(rows, hash, colliding, table.stored, pairs, collisions)
  {
    hide *;
    collisions, n := map[], 0;
    var i := 0;
    KeptNone(hash, colliding, pairs);
    while i < |rows|
      invariant 0 <= i <= |rows|
      invariant table.Valid() && n == |table.stored| <= i
      invariant Kept(rows[..i], hash, colliding, table.stored, pairs, collisions)
    {
      collisions, n := SecondRow(rows, i, hash, table, pairs, pairList, colliding, collisions, n);
      i := i + 1;
    }
    assert rows[..i] == rows;
  }

  /** The handles of a built store. */
  datatype Handles<P> = Handles(table: Table, pairList: seq<P>, collisions: map<string, P>, length: nat)

  /** What a lookup says of a key, given what the table stores. */
  function Answer<P>(stored: map<nat, nat>, pairList: seq<P>, collisions: map<string, P>, hash: string -> Hash64, key: string): Option<P> {
    if key in collisions then Some(collisions[key])
    else if hash(key) in stored && stored[hash(key)] < |pairList| then Some(pairList[stored[hash(key)]])
    else None
  }

  method Lookup<P>(handles: Handles<P>, hash: string -> Hash64, key: string) returns (r: Option<P>)
    requires handles.table.Valid() && |handles.table.stored| < handles.table.cap
    ensures r == Answer(handles.table.stored, handles.pairList, handles.collisions, hash, key)
  {
    hide Table.Valid;
    if key in handles.collisions {
      return Some(handles.collisions[key]);
    }
    var v := handles.table.Find(hash(key));
    if v.None? {
      return None;
    }
    return if v.value < |handles.pairList| then Some(handles.pairList[v.value]) else None;
  }

  /**
   What the store says of a key: for a key of the rows its last pair, collisions or not; for any other
   key nothing, unless its hash is that of exactly one row, whose pair it then gets.
   */
  ghost predicate Faithful<P>(rows: seq<Row<P>>, hash: string -> Hash64, stored: map<nat, nat>, pairList: seq<P>, collisions: map<string, P>) {
    && (forall k :: k in LastWins(rows) ==> Answer(stored, pairList, collisions, hash, k) == Some(LastWins(rows)[k]))
    && (forall k :: k !in LastWins(rows) ==>
          (Answer(stored, pairList, collisions, hash, k).Some? <==> hash(k) in Hashes(rows, hash) - Clashing(rows, hash)))
    && (forall k, lone :: k !in LastWins(rows) && lone in LastWins(rows) && hash(k) == hash(lone) && hash(k) !in Clashing(rows, hash) ==>
          Answer(stored, pairList, collisions, hash, k) == Some(LastWins(rows)[lone]))
  }

  lemma KeptIsFaithful<P>(rows: seq<Row<P>>, hash: string -> Hash64, stored: map<nat, nat>, pairs: map<P, nat>, pairList: seq<P>, collisions: map<string, P>)
    requires Kept(rows, hash, Clashing(rows, hash), stored, pairs, collisions) && Interned(pairs, pairList)
    ensures Faithful(rows, hash, stored, pairList, collisions)
  {
    hide Hashes, Clashing, LastWins;
    forall k | hash(k) in stored ensures stored[hash(k)] < |pairList| {
      var lone := HashKeyed(rows, hash, hash(k));
    }
  }

  /** None: more distinct pairs than a slot can number. */
  method BuildBin<P(==)>(rows: seq<Row<P>>, nHint: nat, hash: string -> Hash64) returns (r: Option<Handles<P>>)
    requires |rows| <= nHint
    ensures r.Some? <==> |Pairs(rows)| < EMPTY
    ensures r.Some? ==> r.value.table.Valid() && |r.value.table.stored| < r.value.table.cap
    ensures r.Some? ==> Faithful(rows, hash, r.value.table.stored, r.value.pairList, r.value.collisions)
    ensures r.Some? ==> r.value.length == |LastWins(rows)|
  {
    hide Kept, Interned, Pairs, Clashing, LastWins, Table.Valid, Faithful;
    var table := new Table(nHint);
    var ok, pairs, pairList, colliding, n := FirstPass(rows, hash, table);
    if !ok { return None; }
    var collisions := map[];
    Few(rows, hash, table.stored, pairs, pairList, colliding);
    if colliding != {} {
      table := new Table(nHint);
      collisions, n := SecondPass(rows, hash, table, pairs, pairList, colliding);
    } else {
      SeenKept(rows, hash, table.stored, pairs);
    }
    KeptCounts(rows, hash, colliding, table.stored, pairs, collisions);
    KeptIsFaithful(rows, hash, table.stored, pairs, pairList, collisions);
    return Some(Handles(table, pairList, collisions, n + |collisions|));
  }

  lemma KeptCounts<P>(rows: seq<Row<P>>, hash: string -> Hash64, colliding: set<nat>, stored: map<nat, nat>, pairs: map<P, nat>, collisions: map<string, P>)
    requires Kept(rows, hash, colliding, stored, pairs, collisions)
    ensures |stored| <= |rows| && |stored| + |collisions| == |LastWins(rows)|
  {
  }
}
