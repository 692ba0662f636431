/**
 The stamps: where they come from, and when a shard's entries stand in the order of their stamps.
 */
module TrailOrder {
  import opened Text
  import opened TrailGroup
  import opened TrailShard
  import opened TrailLocality
  import opened TrailMerge
  import Hex
  import Sorting

  // ---- comparing rows

  /** Tuples of strings compare field by field. */
  predicate TupleLess(a: seq<string>, b: seq<string>) {
    if a == [] then b != []
    else b != [] && (Less(a[0], b[0]) || (a[0] == b[0] && TupleLess(a[1..], b[1..])))
  }

  function Fields(r: OutRow): seq<string> { [r.order, r.trail, r.value.info, r.value.reference] }

  predicate RowLess(a: OutRow, b: OutRow) { TupleLess(Fields(a), Fields(b)) }

  lemma {:induction false} TupleStrict(a: seq<string>, b: seq<string>, c: seq<string>)
    ensures !TupleLess(a, a)
    ensures TupleLess(a, b) || a == b || TupleLess(b, a)
    ensures TupleLess(a, b) && TupleLess(b, c) ==> TupleLess(a, c)
  {
    if a != [] && b != [] && c != [] {
      LessIrreflexive(a[0]);
      LessTotal(a[0], b[0]);
      if Less(a[0], b[0]) && Less(b[0], c[0]) { LessTransitive(a[0], b[0], c[0]); }
      TupleStrict(a[1..], b[1..], c[1..]);
      assert a[0] == b[0] && a[1..] == b[1..] ==> a == [a[0]] + a[1..] == b;
    } else if a != [] && b != [] {
      LessIrreflexive(a[0]);
      LessTotal(a[0], b[0]);
      TupleStrict(a[1..], b[1..], []);
      assert a[0] == b[0] && a[1..] == b[1..] ==> a == [a[0]] + a[1..] == b;
    } else if a != [] {
      LessIrreflexive(a[0]);
      TupleStrict(a[1..], [], []);
    }
  }

  lemma RowLessStrict()
    ensures Sorting.Strict(RowLess)
  {
    forall a: OutRow, b: OutRow, c: OutRow
      ensures !RowLess(a, a)
      ensures RowLess(a, b) || a == b || RowLess(b, a)
      ensures RowLess(a, b) && RowLess(b, c) ==> RowLess(a, c)
    {
      TupleStrict(Fields(a), Fields(b), Fields(c));
      if Fields(a) == Fields(b) {
        assert a.order == Fields(a)[0] == b.order && a.trail == Fields(a)[1] == b.trail;
        assert a.value.info == Fields(a)[2] == b.value.info && a.value.reference == Fields(a)[3] == b.value.reference;
      }
    }
  }

  function Rows(s: State): seq<OutRow>
    requires Wf(s)
  {
    seq(|s.store.order|, i requires 0 <= i < |s.store.order| => RowOf(s, s.store.order[i]))
  }

  // ---- entries in the order of their stamps

  ghost predicate Increasing(order: seq<string>, stamps: map<string, nat>) {
    && (forall i :: 0 <= i < |order| ==> order[i] in stamps)
    && (forall i, j :: 0 <= i < j < |order| ==> stamps[order[i]] < stamps[order[j]])
  }

  ghost predicate Ordered(s: State) { Increasing(s.store.order, s.stamps) }

  ghost predicate Bounded(s: State, b: nat) { forall k :: k in s.stamps ==> s.stamps[k] < b }

  lemma {:induction false} WithoutIncreasing(order: seq<string>, stamps: map<string, nat>, k: string)
    requires Increasing(order, stamps)
    ensures Increasing(Without(order, k), stamps)
    ensures forall x :: x in Without(order, k) ==> x in order && x != k
  {
    if order != [] {
      var rest := order[1..];
      assert order == [order[0]] + rest;
      WithoutIncreasing(rest, stamps, k);
      forall x | x in rest ensures stamps[order[0]] < stamps[x] { var i :| 0 <= i < |rest| && rest[i] == x; assert order[i + 1] == x; }
    }
  }

  lemma DoOrdered(s: State, op: Op)
    requires Wf(s) && Ordered(s)
    requires op.Put? && op.key !in s.store.at ==> Bounded(s, s.now)
    ensures Ordered(Do(s, op))
  {
    match op
    case Put(k, v) =>
    case Del(k) =>
      WithoutIncreasing(s.store.order, s.stamps, k);
    case Drop(k) =>
  }

  lemma {:induction false} DoAllOrdered(s: State, ops: seq<Op>)
    requires Wf(s) && Ordered(s) && Bounded(s, s.now)
    ensures Ordered(DoAll(s, ops)) && Bounded(DoAll(s, ops), DoAll(s, ops).now)
    ensures s.now <= DoAll(s, ops).now <= s.now + |ops|
  {
    if ops != [] {
      DoAllOrdered(s, ops[..|ops| - 1]);
      DoAllWf(s, ops[..|ops| - 1]);
      DoOrdered(DoAll(s, ops[..|ops| - 1]), ops[|ops| - 1]);
    }
  }

  /** Operations that insert nothing leave the remaining stamps as they are. */
  lemma {:induction false} DoAllQuiet(s: State, ops: seq<Op>)
    requires Wf(s)
    ensures s.now <= DoAll(s, ops).now
    ensures DoAll(s, ops).now == s.now ==> forall k :: k in DoAll(s, ops).stamps ==> k in s.stamps && DoAll(s, ops).stamps[k] == s.stamps[k]
    ensures DoAll(s, ops).now == s.now && Ordered(s) ==> Ordered(DoAll(s, ops))
  {
    if ops != [] {
      DoAllQuiet(s, ops[..|ops| - 1]);
      DoAllWf(s, ops[..|ops| - 1]);
      var t := DoAll(s, ops[..|ops| - 1]);
      if t.now == s.now == DoAll(s, ops).now && Ordered(t) { DoOrdered(t, ops[|ops| - 1]); }
    }
  }

  /** What the operations insert is stamped from `now` on; every other entry keeps its stamp. */
  lemma {:induction false} DoAllStamps(s: State, ops: seq<Op>)
    requires Wf(s)
    ensures s.now <= DoAll(s, ops).now <= s.now + |ops|
    ensures forall k :: k in DoAll(s, ops).stamps ==>
      (k in s.stamps && DoAll(s, ops).stamps[k] == s.stamps[k]) || s.now <= DoAll(s, ops).stamps[k] < s.now + |ops|
  {
    if ops != [] {
      DoAllStamps(s, ops[..|ops| - 1]);
      DoAllWf(s, ops[..|ops| - 1]);
    }
  }

  /** Fewer insertions in a visit than there are slots for. */
  lemma CleanLength(r: Rules, w: Walk)
    requires w.ops == [] && !w.done
    ensures |Clean(r, w).ops| < SLOTS
  {
    if r.disabled(w.value.info) { return; }
    var w1 := Normalize(r, w);
    assert |w1.ops| <= 2;
    if Junk(r, w1) { return; }
    AddressLength(r, w1);
    var w2 := Address(r, w1);
    if w2.done { return; }
    var w3 := Relabel(w2, "ransomware", "ransomware (malware)");
    assert |w3.ops| <= |w2.ops| + 1;
    TailLength(r, w3);
    var w4 := Tail(r, w3);
    CreditLength(r, w4);
  }

  lemma CreditLength(r: Rules, w: Walk)
    ensures |Credit(r, w).ops| <= |w.ops| + 1
  {
  }

  lemma AddressLength(r: Rules, w: Walk)
    ensures |Address(r, w).ops| <= |w.ops| + 3
  {
    var w1 := Sinkhole(w);
    assert |w1.ops| <= |w.ops| + 1;
    var w2 := Relabel(w1, "malware", "potential malware site");
    assert |w2.ops| <= |w1.ops| + 1;
    assert |w2.Stop().ops| == |w2.ops| + 1;
  }

  lemma TailLength(r: Rules, w: Walk)
    ensures |Tail(r, w).ops| <= |w.ops| + 8
  {
    var w1 := Www(w);
    assert |w1.ops| <= |w.ops| + 2;
    var w2 := Query(w1);
    assert |w2.ops| <= |w1.ops| + 2;
    var w3 := Slashes(w2);
    assert |w3.ops| <= |w2.ops| + 2;
  }

  // ---- the merge phase

  ghost predicate Ascending(rows: seq<Numbered>) {
    forall i, j :: 0 <= i < j < |rows| ==> rows[i].seqNo < rows[j].seqNo
  }

  ghost predicate FromRow(rows: seq<Numbered>, k: string, stamp: nat) {
    exists i :: 0 <= i < |rows| && rows[i].row.key == k && rows[i].seqNo == stamp
  }

  lemma {:induction false} FedStamps(rows: seq<Numbered>)
    requires Ascending(rows)
    ensures Wf(Fed(rows)) && Ordered(Fed(rows))
    ensures forall k :: k in Fed(rows).stamps ==> FromRow(rows, k, Fed(rows).stamps[k])
  {
    if rows != [] {
      hide Apply;
      var front, x := rows[..|rows| - 1], rows[|rows| - 1];
      FedStamps(front);
      FedWf(rows);
      var s, t := Fed(front).(now := x.seqNo), Fed(rows);
      assert Bounded(s, s.now);
      ApplyStamps(s, x.row);
      forall k | k in t.stamps ensures FromRow(rows, k, t.stamps[k]) {
        if k in s.stamps && t.stamps[k] == s.stamps[k] {
          var i :| 0 <= i < |front| && front[i].row.key == k && front[i].seqNo == s.stamps[k];
          assert rows[i].row.key == k;
        } else {
          assert rows[|rows| - 1].row.key == k;
        }
      }
    }
  }

  /** A source row inserts its key at most, stamped now. */
  lemma ApplyStamps(s: State, row: Row)
    requires Wf(s) && Ordered(s) && Bounded(s, s.now)
    ensures Ordered(Apply(s, row))
    ensures forall k :: k in Apply(s, row).stamps ==> (k in s.stamps && Apply(s, row).stamps[k] == s.stamps[k]) || (k == row.key && Apply(s, row).stamps[k] == s.now)
  {
    hide Wins, HasAny;
    var u := if row.kind == Merge then Agree(s, row.key, row.value.reference) else s;
    var t := Apply(s, row);
    assert t == u || t == Do(u, Put(row.key, row.value));
    DoOrdered(u, Put(row.key, row.value));
  }

  // ---- the cleanup

  /** `m` are the merge-phase stamps: below LATE, an entry still has its own. */
  ghost predicate Early(s: State, m: map<string, nat>) {
    forall k :: k in s.stamps && s.stamps[k] < LATE ==> k in m && m[k] == s.stamps[k]
  }

  lemma VisitEarly(r: Rules, pass: Pass, s: State, key: string, m: map<string, nat>)
    requires Wf(s) && Early(s, m)
    ensures Early(Visit(r, pass, s, key), m)
  {
    DoAllStamps(Start(s, pass, key), Ops(r, pass, s, key));
    if pass == Whitelist {
      WhitelistQuiet(r, s, key);
    }
  }

  lemma WhitelistQuiet(r: Rules, s: State, key: string)
    requires Wf(s)
    ensures var t := Visit(r, Whitelist, s, key);
      (forall k :: k in t.stamps ==> k in s.stamps && t.stamps[k] == s.stamps[k]) && (Ordered(s) ==> Ordered(t))
  {
    DoMore(s, [], Del(key));
    assert [] + [Del(key)] == [Del(key)];
    if Ordered(s) { DoOrdered(s, Del(key)); }
  }

  lemma {:induction false} WhitelistAllQuiet(r: Rules, s: State, keys: seq<string>)
    requires Wf(s)
    ensures var t := VisitAll(r, Whitelist, s, keys);
      (forall k :: k in t.stamps ==> k in s.stamps && t.stamps[k] == s.stamps[k]) && (Ordered(s) ==> Ordered(t))
    decreases |keys|
  {
    if keys != [] {
      WhitelistQuiet(r, s, keys[0]);
      VisitWf(r, Whitelist, s, keys[0]);
      WhitelistAllQuiet(r, Visit(r, Whitelist, s, keys[0]), keys[1..]);
    }
  }

  lemma {:induction false} CleanupEarly(r: Rules, s: State, keys: seq<string>, m: map<string, nat>)
    requires Wf(s) && Early(s, m)
    ensures Early(VisitAll(r, Cleanup, s, keys), m)
    decreases |keys|
  {
    if keys != [] {
      VisitEarly(r, Cleanup, s, keys[0], m);
      VisitWf(r, Cleanup, s, keys[0]);
      CleanupEarly(r, Visit(r, Cleanup, s, keys[0]), keys[1..], m);
    }
  }

  /** A stamp below LATE in the finished build is the sequence number of a row of that very trail. */
  lemma BuildEarly(r: Rules, rows: seq<Numbered>)
    requires Ascending(rows)
    ensures Wf(Build(r, rows))
    ensures forall k :: k in Build(r, rows).stamps && Build(r, rows).stamps[k] < LATE ==> FromRow(rows, k, Build(r, rows).stamps[k])
  {
    hide Wf, Fed, VisitAll, FromRow;
    var s := Fed(rows);
    FedStamps(rows);
    BuildWf(r, rows);
    CleanupEarly(r, s, s.store.order, s.stamps);
    var t := VisitAll(r, Cleanup, s, s.store.order);
    VisitAllWf(r, Cleanup, s, s.store.order);
    WhitelistAllQuiet(r, t, t.store.order);
  }

  /** The visit inserts nothing, or the visited trail still has its merge-phase stamp. */
  ghost predicate KeepsPlace(r: Rules, s: State, key: string) {
    Visit(r, Cleanup, s, key).now == Start(s, Cleanup, key).now || (key in s.stamps && s.stamps[key] < LATE)
  }

  ghost predicate AllKeepPlace(r: Rules, s: State, keys: seq<string>)
    decreases |keys|
  {
    keys == [] || (KeepsPlace(r, s, keys[0]) && AllKeepPlace(r, Visit(r, Cleanup, s, keys[0]), keys[1..]))
  }

  /** Every inserting visit of the cleanup of these rows starts from a merge-phase stamp. */
  ghost predicate Orderly(r: Rules, rows: seq<Numbered>) {
    AllKeepPlace(r, Fed(rows), Fed(rows).store.order)
  }

  /** Stamps given for the sequence numbers from lo to hi, in either phase. */
  ghost predicate InRange(s: State, lo: nat, hi: nat) {
    forall k :: k in s.stamps ==> lo <= s.stamps[k] < hi || LateFrom(lo) <= s.stamps[k] < LateFrom(hi)
  }

  lemma VisitOrdered(r: Rules, s: State, key: string, m: map<string, nat>, lo: nat, hi: nat)
    requires Wf(s) && Ordered(s) && Early(s, m) && InRange(s, lo, hi) && KeepsPlace(r, s, key)
    requires key in m && lo <= m[key] < hi <= LATE
    requires Bounded(s, LateFrom(m[key]))
    ensures var t := Visit(r, Cleanup, s, key);
      Ordered(t) && InRange(t, lo, hi) && Bounded(t, LateFrom(m[key] + 1))
  {
    hide Clean, DoAll;
    var s0, ops := Start(s, Cleanup, key), Ops(r, Cleanup, s, key);
    if key in s.store.at { CleanLength(r, Walk([], key, s.store.at[key], s.dups, false)); }
    if DoAll(s0, ops).now == s0.now {
      DoAllQuiet(s0, ops);
    } else {
      assert key in s.store.at && s0.now == LateFrom(m[key]);
      DoAllOrdered(s0, ops);
      DoAllStamps(s0, ops);
    }
  }

  lemma {:induction false} CleanupOrdered(r: Rules, s: State, keys: seq<string>, m: map<string, nat>, lo: nat, hi: nat)
    requires Wf(s) && Ordered(s) && Early(s, m) && InRange(s, lo, hi) && AllKeepPlace(r, s, keys)
    requires Increasing(keys, m) && hi <= LATE
    requires forall i :: 0 <= i < |keys| ==> lo <= m[keys[i]] < hi
    requires keys != [] ==> Bounded(s, LateFrom(m[keys[0]]))
    ensures Ordered(VisitAll(r, Cleanup, s, keys)) && InRange(VisitAll(r, Cleanup, s, keys), lo, hi)
    decreases |keys|
  {
    if keys != [] {
      var k, rest := keys[0], keys[1..];
      var t := Visit(r, Cleanup, s, k);
      VisitOrdered(r, s, k, m, lo, hi);
      VisitWf(r, Cleanup, s, k);
      VisitEarly(r, Cleanup, s, k, m);
      forall i, j | 0 <= i < j < |rest| ensures m[rest[i]] < m[rest[j]] { assert rest[i] == keys[i + 1] && rest[j] == keys[j + 1]; }
      forall i | 0 <= i < |rest| ensures rest[i] in m && lo <= m[rest[i]] < hi { assert rest[i] == keys[i + 1]; }
      if rest != [] { assert rest[0] == keys[1]; assert LateFrom(m[k] + 1) <= LateFrom(m[rest[0]]); }
      CleanupOrdered(r, t, rest, m, lo, hi);
    }
  }

  ghost predicate Between(rows: seq<Numbered>, lo: nat, hi: nat) {
    forall i :: 0 <= i < |rows| ==> lo <= rows[i].seqNo < hi
  }

  /** An orderly build ends with its entries in the order of their stamps. */
  lemma BuildOrdered(r: Rules, rows: seq<Numbered>, lo: nat, hi: nat)
    requires Ascending(rows) && Between(rows, lo, hi) && hi <= LATE && Orderly(r, rows)
    ensures Wf(Build(r, rows)) && Ordered(Build(r, rows)) && InRange(Build(r, rows), lo, hi)
  {
    var s := Fed(rows);
    FedStamps(rows);
    BuildWf(r, rows);
    forall k | k in s.stamps ensures lo <= s.stamps[k] < hi { assert FromRow(rows, k, s.stamps[k]); }
    CleanupOrdered(r, s, s.store.order, s.stamps, lo, hi);
    var t := VisitAll(r, Cleanup, s, s.store.order);
    VisitAllWf(r, Cleanup, s, s.store.order);
    WhitelistAllQuiet(r, t, t.store.order);
  }

  /** With fewer than 2^58 rows every stamp has 16 digits, so entries in stamp order are rows in text order. */
  lemma OrderedRows(s: State, lo: nat, hi: nat)
    requires Wf(s) && Ordered(s) && InRange(s, lo, hi) && hi <= 0x0400_0000_0000_0000
    ensures Sorting.Sorted(RowLess, Rows(s))
  {
    forall i, j | 0 <= i < j < |Rows(s)| ensures RowLess(Rows(s)[i], Rows(s)[j]) {
      Hex.PaddedOrder(s.stamps[s.store.order[i]], s.stamps[s.store.order[j]]);
      assert s.store.order[i] in s.stamps && s.store.order[j] in s.stamps;
    }
  }

  // ---- rows whose keys the cleanup does not rename

  /** A key as the cleanup leaves it: lower case, no "www." of a name, no query but of a path, no "//". */
  predicate Still(k: string) {
    && IsAscii(k) && LowerAscii(k) == k
    && (WWW <= k ==> '/' in k) && ('?' in k ==> "/" <= k) && !Contains(k, "//")
  }

  /** Puts of the key and drops, and at most a deletion at the end. */
  ghost predicate InPlace(ops: seq<Op>, k: string) {
    forall i :: 0 <= i < |ops| ==> ops[i].Drop? || (ops[i].Put? && ops[i].key == k) || (ops[i] == Del(k) && i == |ops| - 1)
  }

  ghost predicate NoDel(ops: seq<Op>) { forall i :: 0 <= i < |ops| ==> !ops[i].Del? }

  lemma {:induction false} InPlaceQuiet(s: State, ops: seq<Op>, k: string)
    requires InPlace(ops, k) && k in s.store.at
    ensures DoAll(s, ops).now == s.now && (NoDel(ops) ==> k in DoAll(s, ops).store.at)
  {
    if ops != [] {
      var front := ops[..|ops| - 1];
      assert forall i :: 0 <= i < |front| ==> front[i] == ops[i];
      InPlaceQuiet(s, front, k);
    }
  }

  lemma InPlaceThen(ops: seq<Op>, op: Op, k: string)
    requires InPlace(ops, k) && NoDel(ops) && (op.Drop? || op.key == k)
    ensures InPlace(ops + [op], k) && (!op.Del? ==> NoDel(ops + [op]))
  {
  }

  lemma RelabelInPlace(w: Walk, info: string, better: string)
    requires InPlace(w.ops, w.key) && NoDel(w.ops)
    ensures var v := Relabel(w, info, better); v.key == w.key && v.done == w.done && InPlace(v.ops, w.key) && NoDel(v.ops)
  {
    hide InPlace, NoDel;
    InPlaceThen(w.ops, Op.Put(w.key, Pair(better, w.value.reference)), w.key);
  }

  lemma AddressInPlace(r: Rules, w: Walk)
    requires w.ops == [] && !w.done
    ensures var v := Address(r, w); v.key == w.key && InPlace(v.ops, w.key) && (v.done || NoDel(v.ops))
  {
    hide HasAny, Relabel, TooFewFeeds;
    if r.dottedQuad(w.key) {
      var s := Sinkhole(w);
      assert InPlace(s.ops, w.key) && NoDel(s.ops);
      RelabelInPlace(s, "malware", "potential malware site");
      var v := Relabel(s, "malware", "potential malware site");
      InPlaceThen(v.ops, Del(v.key), w.key);
    }
  }

  lemma StillInPlace(r: Rules, w: Walk)
    requires w.ops == [] && !w.done && Still(w.key)
    ensures InPlace(Clean(r, w).ops, w.key)
  {
    hide Address, Relabel, InPlace, NoDel, HasAny, LowerAscii, Contains;
    NothingInPlace(w.key);
    assert Normalize(r, w) == w;
    InPlaceThen([], Del(w.key), w.key);
    AddressInPlace(r, w);
    var a := Address(r, w);
    if !a.done {
      RelabelInPlace(a, "ransomware", "ransomware (malware)");
      var b := Relabel(a, "ransomware", "ransomware (malware)");
      assert Recase(r, Slashes(Query(Www(b)))) == b;
      CreditInPlace(r, b);
    }
  }

  lemma CreditInPlace(r: Rules, w: Walk)
    requires InPlace(w.ops, w.key) && NoDel(w.ops)
    ensures InPlace(Credit(r, w).ops, w.key)
  {
  }

  lemma NothingInPlace(k: string)
    ensures InPlace([], k) && NoDel([])
  {
  }

  lemma StillKeepPlace(r: Rules, s: State, key: string)
    requires Still(key)
    ensures KeepsPlace(r, s, key)
  {
    hide Still, Clean, DoAll, InPlace;
    if key in s.store.at {
      StillInPlace(r, Walk([], key, s.store.at[key], s.dups, false));
      InPlaceQuiet(Start(s, Cleanup, key), Ops(r, Cleanup, s, key), key);
    } else {
      assert DoAll(s, []) == s by { DoAllNone(s); }
    }
  }

  lemma DoAllNone(s: State)
    ensures DoAll(s, []) == s
  {
  }

  lemma {:induction false} AllStillKeepPlace(r: Rules, s: State, keys: seq<string>)
    requires forall i :: 0 <= i < |keys| ==> Still(keys[i])
    ensures AllKeepPlace(r, s, keys)
    decreases |keys|
  {
    hide Still, KeepsPlace, Visit;
    if keys != [] {
      StillKeepPlace(r, s, keys[0]);
      AllStillKeepPlace(r, Visit(r, Cleanup, s, keys[0]), keys[1..]);
    }
  }

  /** Rows whose keys the cleanup does not rename are always orderly. */
  lemma StillOrderly(r: Rules, rows: seq<Numbered>)
    requires Ascending(rows) && forall i :: 0 <= i < |rows| ==> Still(rows[i].row.key)
    ensures Orderly(r, rows)
  {
    hide Still;
    var s := Fed(rows);
    FedStamps(rows);
    FedWf(rows);
    forall i | 0 <= i < |s.store.order| ensures Still(s.store.order[i]) {
      assert FromRow(rows, s.store.order[i], s.stamps[s.store.order[i]]);
    }
    AllStillKeepPlace(r, s, s.store.order);
  }

  // ---- rows whose groups are seen once

  ghost predicate Singles(n: Names, rows: seq<Numbered>) {
    && (forall i :: 0 <= i < |rows| ==> IsAscii(rows[i].row.key))
    && (forall i, j :: 0 <= i < j < |rows| ==> Group(n, rows[i].row.key) != Group(n, rows[j].row.key))
  }

  lemma {:induction false} DoAllFrame(n: Names, s: State, ops: seq<Op>, R: set<string>, k: string)
    requires Touches(n, ops, R) && Group(n, k) !in R
    ensures k in DoAll(s, ops).stamps <==> k in s.stamps
    ensures k in s.stamps ==> DoAll(s, ops).stamps[k] == s.stamps[k]
  {
    if ops != [] { DoAllFrame(n, s, ops[..|ops| - 1], R, k); }
  }

  lemma {:induction false} SinglesKeepPlace(r: Rules, s: State, keys: seq<string>)
    requires Wf(s)
    requires forall i :: 0 <= i < |keys| ==> IsAscii(keys[i])
    requires forall i, j :: 0 <= i < j < |keys| ==> Group(r.names, keys[i]) != Group(r.names, keys[j])
    requires forall i :: 0 <= i < |keys| && keys[i] in s.stamps ==> s.stamps[keys[i]] < LATE
    ensures AllKeepPlace(r, s, keys)
    decreases |keys|
  {
    if keys != [] {
      var n, k, rest := r.names, keys[0], keys[1..];
      var t := Visit(r, Cleanup, s, k);
      OpsReach(r, Cleanup, s, k);
      ReachAscii(n, k);
      VisitWf(r, Cleanup, s, k);
      forall i | 0 <= i < |rest|
        ensures IsAscii(rest[i]) && (rest[i] in t.stamps ==> t.stamps[rest[i]] < LATE)
      {
        assert rest[i] == keys[i + 1];
        DoAllFrame(n, Start(s, Cleanup, k), Ops(r, Cleanup, s, k), Reach(n, k), rest[i]);
      }
      forall i, j | 0 <= i < j < |rest| ensures Group(n, rest[i]) != Group(n, rest[j]) {
        assert rest[i] == keys[i + 1] && rest[j] == keys[j + 1];
      }
      SinglesKeepPlace(r, t, rest);
    }
  }

  /** Rows that share no group are always orderly. */
  lemma SinglesOrderly(r: Rules, rows: seq<Numbered>, hi: nat)
    requires Singles(r.names, rows) && Ascending(rows) && Between(rows, 0, hi) && hi <= LATE
    ensures Orderly(r, rows)
  {
    var s := Fed(rows);
    FedStamps(rows);
    FedWf(rows);
    var keys := s.store.order;
    forall i | 0 <= i < |keys| ensures IsAscii(keys[i]) {
      assert FromRow(rows, keys[i], s.stamps[keys[i]]);
    }
    forall i, j | 0 <= i < j < |keys| ensures Group(r.names, keys[i]) != Group(r.names, keys[j]) {
      assert FromRow(rows, keys[i], s.stamps[keys[i]]) && FromRow(rows, keys[j], s.stamps[keys[j]]);
    }
    forall i | 0 <= i < |keys| && keys[i] in s.stamps ensures s.stamps[keys[i]] < LATE {
      assert FromRow(rows, keys[i], s.stamps[keys[i]]);
    }
    SinglesKeepPlace(r, s, keys);
  }
}
