/**
 Which groups the first pass of the streaming build holds back (core/update.py, `_seen`), with its bits spelled out:
 all that are met again, all a name beyond ASCII or a remote row brings, and others only when both their bits are
 those of earlier rows.
 */
module StreamFilter {
  import opened Text
  import opened TrailGroup
  import opened TrailShard
  import opened TrailBuild
  import opened StreamBuild
  import TrailParts

  function HashOf(e: Env, row: Row): int { e.hash(Group(e.rules.names, row.key)) }

  /** A row's two bits: of the low and of the upper half of its hash. */
  predicate Sets(e: Env, row: Row, bit: int) {
    bit == HashOf(e, row) % 33554432 || bit == HashOf(e, row) / 4294967296 % 33554432
  }

  /** The bit was set for one of the first n rows. */
  ghost predicate Marked(e: Env, rows: seq<Row>, n: nat, bit: int)
    requires n <= |rows|
  {
    exists j :: 0 <= j < n && Sets(e, rows[j], bit)
  }

  /** Row i is a reason to hold back the hash x. */
  ghost predicate Reason(e: Env, rows: seq<Row>, i: nat, x: int)
    requires i < |rows|
  {
    var h := HashOf(e, rows[i]);
    || (!IsAscii(rows[i].key) && exists g :: g in IdnGroups(e.rules.names, rows[i].key) && x == e.hash(g) % 4294967296)
    || (x == h % 4294967296
        && (rows[i].kind == Remote || (Marked(e, rows, i, h % 33554432) && Marked(e, rows, i, h / 4294967296 % 33554432))))
  }

  lemma {:induction false} MarkedIs(e: Env, rows: seq<Row>, bit: nat)
    ensures bit in Bits(e, rows) <==> Marked(e, rows, |rows|, bit)
  {
    hide BitsOf, Sets, Marked;
    if rows == [] {
      assert !Marked(e, [], 0, bit) by { NoneMarked(e, bit); }
    } else {
      var front, last := rows[..|rows| - 1], |rows| - 1;
      MarkedIs(e, front, bit);
      MarkedFront(e, rows, front, last, bit);
      MarkedNext(e, rows, last, bit);
      BitsAreSet(e, rows[last], bit);
    }
  }

  lemma NoneMarked(e: Env, bit: int)
    ensures !Marked(e, [], 0, bit)
  {
  }

  lemma MarkedNext(e: Env, rows: seq<Row>, n: nat, bit: int)
    requires n < |rows|
    ensures Marked(e, rows, n + 1, bit) <==> Marked(e, rows, n, bit) || Sets(e, rows[n], bit)
  {
    hide Sets;
  }

  lemma BitsAreSet(e: Env, row: Row, bit: nat)
    ensures bit in BitsOf(e, row.key) <==> Sets(e, row, bit)
  {
    hide Group;
  }

  lemma MarkedFront(e: Env, rows: seq<Row>, front: seq<Row>, n: nat, bit: int)
    requires n <= |front| <= |rows| && front == rows[..|front|]
    ensures Marked(e, rows, n, bit) <==> Marked(e, front, n, bit)
  {
    hide Sets;
    assert forall j :: 0 <= j < n ==> front[j] == rows[j];
  }

  lemma NotedIs(e: Env, rows: seq<Row>, x: int)
    requires rows != []
    ensures var (front, last) := (rows[..|rows| - 1], |rows| - 1);
      (x in Noted(e, front, rows[last].key) || (rows[last].kind == Remote && x == HashOf(e, rows[last]) % 4294967296))
        <==> Reason(e, rows, last, x)
  {
    hide Group, IdnGroups, Bits, Marked;
    var front, last := rows[..|rows| - 1], |rows| - 1;
    var h := HashOf(e, rows[last]);
    MarkedIs(e, front, FirstBit(h));
    MarkedIs(e, front, SecondBit(h));
    MarkedFront(e, rows, front, last, FirstBit(h));
    MarkedFront(e, rows, front, last, SecondBit(h));
  }

  /** Exactly the hashes some row gives a reason for are held back. */
  lemma {:induction false} RepeatsAre(e: Env, rows: seq<Row>, x: int)
    ensures x in Repeats(e, rows) <==> exists i :: 0 <= i < |rows| && Reason(e, rows, i, x)
  {
    hide Noted, Reason;
    if rows != [] {
      var front, last := rows[..|rows| - 1], |rows| - 1;
      RepeatsAre(e, front, x);
      NotedIs(e, rows, x);
      forall i | 0 <= i < last ensures Reason(e, rows, i, x) <==> Reason(e, front, i, x) { ReasonFront(e, rows, front, i, x); }
      LastHash(e, rows[last]);
    }
  }

  lemma LastHash(e: Env, row: Row)
    ensures TrailParts.Hash32(e, Group(e.rules.names, row.key)) == HashOf(e, row) % 4294967296
  {
  }

  lemma ReasonFront(e: Env, rows: seq<Row>, front: seq<Row>, i: nat, x: int)
    requires i < |front| <= |rows| && front == rows[..|front|]
    ensures Reason(e, rows, i, x) <==> Reason(e, front, i, x)
  {
    hide Group, IdnGroups, Marked;
    var h := HashOf(e, rows[i]);
    assert front[i] == rows[i];
    MarkedFront(e, rows, front, i, h % 33554432);
    MarkedFront(e, rows, front, i, h / 4294967296 % 33554432);
  }
}
