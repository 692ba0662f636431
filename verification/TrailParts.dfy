/**
 How the streaming build splits the rows: those whose group hash is held back as repeated, and the
 rest, cut into batches. Each part, built on its own, is that part of the build of all rows.
 */
module TrailParts {
  import opened Text
  import opened TrailGroup
  import opened TrailShard
  import opened TrailLocality
  import opened TrailMerge
  import opened TrailOrder
  import opened TrailBuild
  import Hex
  import Sorting

  /** `1 << 58` rows: more would not leave 16 slots of 16 digits for every row. */
  const MAX_ROWS: nat := 0x0400_0000_0000_0000

  function Hash32(e: Env, group: string): nat {
    e.hash(group) % 0x1_0000_0000
  }

  /** What the first pass leaves behind. */
  ghost predicate Counted(e: Env, rows: seq<Row>, hashes: seq<int>, repeat: set<int>): (r: bool)
    ensures r ==> |hashes| == |rows|
  {
    && |hashes| == |rows|
    && (forall i :: 0 <= i < |rows| ==> hashes[i] == Hash32(e, Group(e.rules.names, rows[i].key)))
    && (forall i, j :: 0 <= i < j < |rows| && Group(e.rules.names, rows[i].key) == Group(e.rules.names, rows[j].key) ==> hashes[i] in repeat)
    && (forall i, g :: 0 <= i < |rows| && !IsAscii(rows[i].key) && g in IdnGroups(e.rules.names, rows[i].key) ==> Hash32(e, g) in repeat)
  }

  /** What the streaming build counts on: a foreseen name, and a remote row checked in its own group. */
  predicate Proper(n: Names, row: Row) {
    Foreseen(n, row.key) && Fair(n, row)
  }

  ghost predicate AllProper(e: Env, rows: seq<Row>) {
    forall i :: 0 <= i < |rows| ==> Proper(e.rules.names, rows[i])
  }

  /** The rows from lo to hi that are held back (or the ones that are not). */
  function Picked(rows: seq<Row>, hashes: seq<int>, repeat: set<int>, lo: nat, hi: nat, held: bool): (r: seq<Numbered>)
    requires hi <= |rows| == |hashes|
    ensures forall x :: x in r <==> lo <= x.seqNo < hi && x.row == rows[x.seqNo] && (hashes[x.seqNo] in repeat) == held
    ensures Ascending(r) && Between(r, lo, hi)
    decreases hi
  {
    if hi <= lo then []
    else
      var front := Picked(rows, hashes, repeat, lo, hi - 1, held);
      if (hashes[hi - 1] in repeat) == held then front + [Numbered(hi - 1, rows[hi - 1])] else front
  }

  lemma {:induction false} OnlyRowsAre(n: Names, rows: seq<Numbered>, G: set<string>)
    ensures forall x :: x in OnlyRows(n, rows, G) <==> x in rows && Group(n, x.row.key) in G
    ensures Ascending(rows) ==> Ascending(OnlyRows(n, rows, G))
  {
    hide Group;
    if rows != [] {
      var front, last := rows[..|rows| - 1], rows[|rows| - 1];
      OnlyRowsAre(n, front, G);
      assert rows == front + [last];
      if Ascending(rows) { LastIsGreatest(front, last); }
    }
  }

  lemma LastIsGreatest(front: seq<Numbered>, last: Numbered)
    requires Ascending(front + [last])
    ensures Ascending(front) && forall x :: x in front ==> x.seqNo < last.seqNo
  {
    var all := front + [last];
    assert forall i :: 0 <= i < |front| ==> all[i] == front[i];
    forall x | x in front ensures x.seqNo < last.seqNo {
      var i :| 0 <= i < |front| && front[i] == x;
      assert all[i].seqNo < all[|front|].seqNo;
    }
  }

  /** A set of numbered rows has one ascending listing. */
  lemma {:induction false} AscendingUnique(a: seq<Numbered>, b: seq<Numbered>)
    requires Ascending(a) && Ascending(b) && forall x :: x in a <==> x in b
    ensures a == b
  {
    if a == [] {
      Sorting.HasElement(b);
    } else {
      var x, a' := a[|a| - 1], a[..|a| - 1];
      assert x in b;
      var y, b' := b[|b| - 1], b[..|b| - 1];
      assert y in a;
      assert a == a' + [x] && b == b' + [y];
      LastIsGreatest(a', x);
      LastIsGreatest(b', y);
      assert x == y;
      forall z ensures z in a' <==> z in b' {
        assert z in a <==> z == x || z in a';
        assert z in b <==> z == y || z in b';
      }
      AscendingUnique(a', b');
    }
  }

  function GroupsOf(n: Names, rows: seq<Numbered>): set<string> {
    set x | x in rows :: Group(n, x.row.key)
  }

  /** The reachable groups whose hash is held back, or that hold no ASCII name and so no row that is not held back. */
  function HeldGroups(e: Env, rows: seq<Row>, repeat: set<int>): set<string> {
    set g | g in AllGroups(e.rules.names, Number(rows)) && (Hash32(e, g) in repeat || !IsAscii(g))
  }

  function Full(e: Env, rows: seq<Row>): State { TrailMerge.Build(e.rules, Number(rows)) }

  lemma InNumber(rows: seq<Row>)
    ensures Ascending(Number(rows)) && Between(Number(rows), 0, |rows|)
    ensures forall x: Numbered :: x in Number(rows) <==> 0 <= x.seqNo < |rows| && x.row == rows[x.seqNo]
  {
    forall x: Numbered | 0 <= x.seqNo < |rows| && x.row == rows[x.seqNo] ensures x in Number(rows) { assert Number(rows)[x.seqNo] == x; }
  }

  lemma ReachIsAll(e: Env, rows: seq<Row>, i: nat)
    requires i < |rows|
    ensures Reach(e.rules.names, rows[i].key) <= AllGroups(e.rules.names, Number(rows))
  {
    assert Number(rows)[i].row == rows[i];
  }

  /** A row reaches held groups only if it is held back, and only its own group, which is not held, if it is not. */
  lemma RowSides(e: Env, rows: seq<Row>, hashes: seq<int>, repeat: set<int>, i: nat)
    requires Counted(e, rows, hashes, repeat) && AllProper(e, rows) && i < |rows|
    ensures var (n, key, H) := (e.rules.names, rows[i].key, HeldGroups(e, rows, repeat));
      && Group(n, key) in Reach(n, key)
      && (hashes[i] in repeat ==> Reach(n, key) <= H)
      && (hashes[i] !in repeat ==> IsAscii(key) && IsAscii(Group(n, key)) && Reach(n, key) == {Group(n, key)} && Group(n, key) !in H)
  {
    hide Group, Reach, Hash32, IsAscii, AllGroups, Number;
    var n, key := e.rules.names, rows[i].key;
    OwnGroup(n, key);
    ReachIsAll(e, rows, i);
    assert hashes[i] == Hash32(e, Group(n, key)) && Proper(n, rows[i]);
    if IsAscii(key) {
      ReachAscii(n, key);
      GroupAscii(n, key);
    } else {
      assert Group(n, key) in IdnGroups(n, key);
      forall g | g in Reach(n, key) ensures Hash32(e, g) in repeat || !IsAscii(g) { }
    }
  }

  /** The held-back rows build the held-back part. */
  lemma HeldPart(e: Env, rows: seq<Row>, hashes: seq<int>, repeat: set<int>)
    requires Counted(e, rows, hashes, repeat) && AllProper(e, rows)
    ensures Same(Only(e.rules.names, Full(e, rows), HeldGroups(e, rows, repeat)),
                 TrailMerge.Build(e.rules, Picked(rows, hashes, repeat, 0, |rows|, true)))
  {
    hide Group, Reach, Hash32, IsAscii, HeldGroups, TrailMerge.Build, Same, Only, Picked, Foreseen;
    var n, N, G := e.rules.names, Number(rows), HeldGroups(e, rows, repeat);
    InNumber(rows);
    forall i | 0 <= i < |N|
      ensures Fair(n, N[i].row) && Settled(n, N[i].row.key, G)
      ensures Group(n, N[i].row.key) in G <==> hashes[i] in repeat
    {
      assert N[i].row == rows[i] && Proper(n, rows[i]);
      RowSides(e, rows, hashes, repeat, i);
    }
    BuildOnly(e.rules, N, G);
    OnlyRowsAre(n, N, G);
    var picked := Picked(rows, hashes, repeat, 0, |rows|, true);
    forall x ensures x in OnlyRows(n, N, G) <==> x in picked {
      if x in N { assert N[x.seqNo] == x; }
      if x in picked { assert N[x.seqNo] == x; }
    }
    AscendingUnique(OnlyRows(n, N, G), picked);
  }

  /** A row that is not held back has its group to itself. */
  lemma LonelyRow(e: Env, rows: seq<Row>, hashes: seq<int>, repeat: set<int>, i: nat, j: nat)
    requires Counted(e, rows, hashes, repeat) && AllProper(e, rows) && i < |rows| && j < |rows| && i != j && hashes[i] !in repeat
    ensures IsAscii(rows[i].key)
    ensures Group(e.rules.names, rows[i].key) !in Reach(e.rules.names, rows[j].key)
  {
    hide Group, Reach, Hash32, IsAscii, HeldGroups;
    RowSides(e, rows, hashes, repeat, i);
    RowSides(e, rows, hashes, repeat, j);
  }

  /** Where a row stands to the groups of a batch of rows that are not held back. */
  lemma BatchSides(e: Env, rows: seq<Row>, hashes: seq<int>, repeat: set<int>, lo: nat, hi: nat, j: nat)
    requires Counted(e, rows, hashes, repeat) && AllProper(e, rows) && lo <= hi <= |rows| && j < |rows|
    ensures var (n, batch) := (e.rules.names, Picked(rows, hashes, repeat, lo, hi, false));
      && Settled(n, rows[j].key, GroupsOf(n, batch))
      && (Numbered(j, rows[j]) in batch <==> Group(n, rows[j].key) in GroupsOf(n, batch))
  {
    hide Group, Reach, Hash32, IsAscii, HeldGroups, Counted, AllProper;
    var n, batch := e.rules.names, Picked(rows, hashes, repeat, lo, hi, false);
    RowSides(e, rows, hashes, repeat, j);
    forall x | x in batch
      ensures Group(n, x.row.key) !in HeldGroups(e, rows, repeat)
      ensures Group(n, x.row.key) == Group(n, rows[j].key) ==> x == Numbered(j, rows[j])
    {
      RowSides(e, rows, hashes, repeat, x.seqNo);
      if x.seqNo != j { LonelyRow(e, rows, hashes, repeat, x.seqNo, j); }
    }
  }

  /** A batch of the other rows builds its own part, and its rows share no group. */
  lemma BatchPart(e: Env, rows: seq<Row>, hashes: seq<int>, repeat: set<int>, lo: nat, hi: nat)
    requires Counted(e, rows, hashes, repeat) && AllProper(e, rows) && lo <= hi <= |rows|
    ensures var batch := Picked(rows, hashes, repeat, lo, hi, false);
      && Same(Only(e.rules.names, Full(e, rows), GroupsOf(e.rules.names, batch)), TrailMerge.Build(e.rules, batch))
      && Singles(e.rules.names, batch)
  {
    hide Group, Reach, Hash32, IsAscii, Picked, GroupsOf, TrailMerge.Build, Same, Only, Foreseen, Counted;
    var n, N := e.rules.names, Number(rows);
    var batch := Picked(rows, hashes, repeat, lo, hi, false);
    var G := GroupsOf(n, batch);
    InNumber(rows);
    BatchSingles(e, rows, hashes, repeat, lo, hi);
    forall j | 0 <= j < |N|
      ensures Fair(n, N[j].row) && Settled(n, N[j].row.key, G)
      ensures N[j] in batch <==> Group(n, N[j].row.key) in G
    {
      assert N[j] == Numbered(j, rows[j]) && Proper(n, rows[j]);
      BatchSides(e, rows, hashes, repeat, lo, hi, j);
    }
    BuildOnly(e.rules, N, G);
    OnlyRowsAre(n, N, G);
    forall x ensures x in OnlyRows(n, N, G) <==> x in batch {
      if x in N { assert N[x.seqNo] == x; }
      if x in batch { assert N[x.seqNo] == x; }
    }
    AscendingUnique(OnlyRows(n, N, G), batch);
  }

  lemma BatchSingles(e: Env, rows: seq<Row>, hashes: seq<int>, repeat: set<int>, lo: nat, hi: nat)
    requires Counted(e, rows, hashes, repeat) && AllProper(e, rows) && lo <= hi <= |rows|
    ensures Singles(e.rules.names, Picked(rows, hashes, repeat, lo, hi, false))
  {
    hide Group, Reach, Hash32, IsAscii, Picked, Counted, AllProper;
    var n, batch := e.rules.names, Picked(rows, hashes, repeat, lo, hi, false);
    forall i | 0 <= i < |batch| ensures IsAscii(batch[i].row.key) {
      assert batch[i] in batch;
      RowSides(e, rows, hashes, repeat, batch[i].seqNo);
    }
    forall i, j | 0 <= i < j < |batch| ensures Group(n, batch[i].row.key) != Group(n, batch[j].row.key) {
      assert batch[i] in batch && batch[j] in batch;
      LonelyRow(e, rows, hashes, repeat, batch[i].seqNo, batch[j].seqNo);
      RowSides(e, rows, hashes, repeat, batch[j].seqNo);
    }
  }

  /** Every trail of the whole build is in the held-back part or in the other one, and not in both. */
  lemma PartsCover(e: Env, rows: seq<Row>, hashes: seq<int>, repeat: set<int>)
    requires Counted(e, rows, hashes, repeat) && AllProper(e, rows)
    ensures var G := GroupsOf(e.rules.names, Picked(rows, hashes, repeat, 0, |rows|, false));
      forall k :: k in Full(e, rows).store.order ==> Group(e.rules.names, k) in HeldGroups(e, rows, repeat) + G
  {
    hide Group, Reach, Hash32, IsAscii, Picked, HeldGroups, Foreseen, Counted;
    var n, N := e.rules.names, Number(rows);
    var lonely := Picked(rows, hashes, repeat, 0, |rows|, false);
    InNumber(rows);
    forall i | 0 <= i < |N| ensures Fair(n, N[i].row) {
      assert N[i].row == rows[i] && Proper(n, rows[i]);
    }
    BuildGroups(e.rules, N);
    forall k | k in Full(e, rows).store.order ensures Group(n, k) in HeldGroups(e, rows, repeat) + GroupsOf(n, lonely) {
      var g := Group(n, k);
      assert g in AllGroups(n, N);
      var i :| 0 <= i < |N| && g in Reach(n, N[i].row.key);
      assert N[i] == Numbered(i, rows[i]);
      RowSides(e, rows, hashes, repeat, i);
      if hashes[i] !in repeat { assert N[i] in lonely; }
    }
  }

  lemma PartsDisjoint(e: Env, rows: seq<Row>, hashes: seq<int>, repeat: set<int>, lo: nat, mid: nat, hi: nat)
    requires Counted(e, rows, hashes, repeat) && AllProper(e, rows) && lo <= mid <= hi <= |rows|
    ensures HeldGroups(e, rows, repeat) !! GroupsOf(e.rules.names, Picked(rows, hashes, repeat, lo, hi, false))
    ensures var a, b := Picked(rows, hashes, repeat, lo, mid, false), Picked(rows, hashes, repeat, mid, hi, false);
      && GroupsOf(e.rules.names, a) !! GroupsOf(e.rules.names, b)
      && GroupsOf(e.rules.names, Picked(rows, hashes, repeat, lo, hi, false)) == GroupsOf(e.rules.names, a) + GroupsOf(e.rules.names, b)
  {
    hide Group, Reach, Hash32, IsAscii, Picked, Counted, AllProper, HeldGroups;
    var n := e.rules.names;
    var a, b := Picked(rows, hashes, repeat, lo, mid, false), Picked(rows, hashes, repeat, mid, hi, false);
    forall x, y | x in a && y in b ensures Group(n, x.row.key) != Group(n, y.row.key) {
      LonelyRow(e, rows, hashes, repeat, x.seqNo, y.seqNo);
      RowSides(e, rows, hashes, repeat, y.seqNo);
    }
    var all := Picked(rows, hashes, repeat, lo, hi, false);
    forall x | x in all ensures Group(n, x.row.key) !in HeldGroups(e, rows, repeat) { RowSides(e, rows, hashes, repeat, x.seqNo); }
    assert forall x :: x in all <==> x in a || x in b;
  }

  // ---- the rows of a part

  lemma RowsAre(s: State)
    requires Wf(s)
    ensures forall x :: x in Rows(s) <==> x.trail in s.store.at && x == RowOf(s, x.trail)
    ensures |Rows(s)| == |s.store.order|
  {
    forall x: OutRow | x.trail in s.store.at && x == RowOf(s, x.trail) ensures x in Rows(s) {
      var i :| 0 <= i < |s.store.order| && s.store.order[i] == x.trail;
      assert Rows(s)[i] == x;
    }
  }

  /** A part's rows are the whole build's rows of its groups; its scores are the whole build's scores. */
  lemma PartRows(n: Names, full: State, part: State, G: set<string>)
    requires Wf(full) && Wf(part) && Same(Only(n, full, G), part)
    ensures forall x :: x in Rows(part) <==> x in Rows(full) && Group(n, x.trail) in G
    ensures forall k :: k in part.store.at <==> k in full.store.at && Group(n, k) in G
    ensures forall k :: k in part.store.at ==> ScoreOf(part, k) == ScoreOf(full, k)
  {
    RowsAre(full);
    RowsAre(part);
    assert part.store.at == OnlyIn(n, full.store.at, G) && part.stamps == OnlyIn(n, full.stamps, G) && part.dups == OnlyIn(n, full.dups, G);
  }

  predicate IsEarlyText(order: string) { Less(order, OrderText(LATE)) }

  predicate IsEarly(x: OutRow) { IsEarlyText(x.order) }

  lemma OrderBefore(x: OutRow, y: OutRow)
    requires Less(x.order, y.order)
    ensures RowLess(x, y)
  {
    assert Fields(x)[0] == x.order && Fields(y)[0] == y.order;
  }

  /** An early row is stamped within the batch, a late one after every late row of earlier batches. */
  ghost predicate ShapedText(order: string, lo: nat, hi: nat) {
    if IsEarlyText(order) then !Less(order, OrderText(lo)) && Less(order, OrderText(hi))
    else !Less(order, OrderText(LateFrom(lo))) && Less(order, OrderText(LateFrom(hi)))
  }

  ghost predicate Shaped(y: OutRow, lo: nat, hi: nat) { ShapedText(y.order, lo, hi) }

  /** A batch's rows come out sorted and within the batch's stamps. */
  lemma BatchShape(e: Env, rows: seq<Row>, hashes: seq<int>, repeat: set<int>, lo: nat, hi: nat)
    requires Counted(e, rows, hashes, repeat) && AllProper(e, rows) && lo <= hi <= |rows| <= MAX_ROWS
    ensures var b := TrailMerge.Build(e.rules, Picked(rows, hashes, repeat, lo, hi, false));
      && Wf(b) && Sorting.Sorted(RowLess, Rows(b))
      && (forall y :: y in Rows(b) ==> Shaped(y, lo, hi))
      && (forall y :: y in Rows(b) && IsEarly(y) ==> y.trail in b.stamps && b.stamps[y.trail] < LATE)
  {
    var picked := Picked(rows, hashes, repeat, lo, hi, false);
    BatchPart(e, rows, hashes, repeat, lo, hi);
    SinglesOrderly(e.rules, picked, hi);
    BuildOrdered(e.rules, picked, lo, hi);
    var b := TrailMerge.Build(e.rules, picked);
    OrderedRows(b, lo, hi);
    ShapedRows(b, lo, hi);
  }

  lemma ShapedRows(b: State, lo: nat, hi: nat)
    requires Wf(b) && InRange(b, lo, hi) && hi <= MAX_ROWS
    ensures forall y :: y in Rows(b) ==> Shaped(y, lo, hi)
    ensures forall y :: y in Rows(b) && IsEarly(y) ==> y.trail in b.stamps && b.stamps[y.trail] < LATE
  {
    RowsAre(b);
    forall y | y in Rows(b)
      ensures Shaped(y, lo, hi)
      ensures IsEarly(y) ==> y.trail in b.stamps && b.stamps[y.trail] < LATE
    {
      ShapedRow(b, y.trail, lo, hi);
    }
  }

  lemma ShapedRow(b: State, k: string, lo: nat, hi: nat)
    requires k in b.store.at && k in b.stamps && InRange(b, lo, hi) && hi <= MAX_ROWS
    ensures Shaped(RowOf(b, k), lo, hi)
    ensures IsEarly(RowOf(b, k)) ==> b.stamps[k] < LATE
  {
    StampShape(b.stamps[k], lo, hi);
  }

  lemma StampShape(t: nat, lo: nat, hi: nat)
    requires lo <= t < hi || LateFrom(lo) <= t < LateFrom(hi)
    requires hi <= MAX_ROWS
    ensures ShapedText(OrderText(t), lo, hi)
    ensures IsEarlyText(OrderText(t)) ==> t < LATE
  {
    if t < LATE { EarlyShape(t, lo, hi); } else { LateShape(t, lo, hi); }
  }

  lemma EarlyShape(t: nat, lo: nat, hi: nat)
    requires t < LATE && lo <= t < hi <= MAX_ROWS
    ensures ShapedText(OrderText(t), lo, hi)
  {
    EarlyText(t, lo, hi);
  }

  lemma LateShape(t: nat, lo: nat, hi: nat)
    requires LateFrom(lo) <= t < LateFrom(hi) && hi <= MAX_ROWS
    ensures ShapedText(OrderText(t), lo, hi) && !IsEarlyText(OrderText(t))
  {
    LateText(t, LateFrom(lo), LateFrom(hi));
  }

  lemma TextOrder(t: nat, m: nat)
    requires t < 0x1_0000_0000_0000_0000 && m < 0x1_0000_0000_0000_0000
    ensures Less(OrderText(t), OrderText(m)) <==> t < m
  {
    Hex.PaddedOrder(t, m);
  }

  lemma EarlyText(t: nat, lo: nat, hi: nat)
    requires lo <= t < hi <= LATE && t < LATE
    ensures IsEarlyText(OrderText(t)) && !Less(OrderText(t), OrderText(lo)) && Less(OrderText(t), OrderText(hi))
  {
    TextOrder(t, LATE);
    TextOrder(t, lo);
    TextOrder(t, hi);
  }

  lemma LateText(t: nat, lo: nat, hi: nat)
    requires LATE <= lo <= t < hi < 0x1_0000_0000_0000_0000
    ensures !IsEarlyText(OrderText(t)) && !Less(OrderText(t), OrderText(lo)) && Less(OrderText(t), OrderText(hi))
  {
    TextOrder(t, LATE);
    TextOrder(t, lo);
    TextOrder(t, hi);
  }

  /** Two rows of the whole build with the same early stamp are one row. */
  lemma EarlyDistinct(e: Env, rows: seq<Row>, x: OutRow, y: OutRow)
    requires Wf(Full(e, rows)) && x in Rows(Full(e, rows)) && y in Rows(Full(e, rows))
    requires x.order == y.order && Full(e, rows).stamps[y.trail] < LATE
    requires y.trail in Full(e, rows).stamps
    ensures x.trail == y.trail
  {
    var s := Full(e, rows);
    InNumber(rows);
    RowsAre(s);
    Hex.PaddedInjective(s.stamps[x.trail], s.stamps[y.trail], 16);
    BuildEarly(e.rules, Number(rows));
    var t := s.stamps[y.trail];
    assert FromRow(Number(rows), x.trail, t) && FromRow(Number(rows), y.trail, t);
  }

  // ---- scores piled up in sorted runs and a buffer

  ghost predicate Piles(runs: seq<seq<(string, int)>>, pile: seq<(string, int)>) {
    && Sorting.Distinct(pile)
    && (forall i :: 0 <= i < |runs| ==> Sorting.Sorted(ScoreLess, runs[i]))
    && (forall i, j, p :: 0 <= i < j < |runs| && p in runs[i] ==> p !in runs[j])
    && (forall i, p :: 0 <= i < |runs| && p in runs[i] ==> p !in pile)
  }

  ghost predicate InPiles(runs: seq<seq<(string, int)>>, pile: seq<(string, int)>, p: (string, int)) {
    p in pile || exists i :: 0 <= i < |runs| && p in runs[i]
  }

  lemma PileUp(runs: seq<seq<(string, int)>>, pile: seq<(string, int)>, more: seq<(string, int)>)
    requires Piles(runs, pile) && Sorting.Distinct(more)
    requires forall p :: p in more ==> !InPiles(runs, pile, p)
    ensures Piles(runs, pile + more)
    ensures forall p :: InPiles(runs, pile + more, p) <==> InPiles(runs, pile, p) || p in more
  {
    forall i, j | 0 <= i < |pile| <= j < |pile| + |more| ensures pile[i] != (pile + more)[j] {
      assert pile[i] in pile && more[j - |pile|] in more;
    }
  }

  lemma RunOutPiles(runs: seq<seq<(string, int)>>, pile: seq<(string, int)>)
    requires Piles(runs, pile)
    ensures Piles(runs + [Sorting.Sort(ScoreLess, pile)], [])
    ensures forall p :: InPiles(runs + [Sorting.Sort(ScoreLess, pile)], [], p) <==> InPiles(runs, pile, p)
  {
    ScoreLessStrict();
    Sorting.SortSorted(ScoreLess, pile);
    var more := runs + [Sorting.Sort(ScoreLess, pile)];
    forall p ensures InPiles(more, [], p) <==> InPiles(runs, pile, p) {
      if p in pile { assert p in more[|runs|]; }
      if i :| 0 <= i < |runs| && p in runs[i] { assert p in more[i]; }
    }
  }

  lemma {:induction false} MergePiles(runs: seq<seq<(string, int)>>)
    requires Piles(runs, [])
    ensures Sorting.Sorted(ScoreLess, Sorting.MergeRuns(ScoreLess, runs))
    ensures forall p :: p in Sorting.MergeRuns(ScoreLess, runs) <==> InPiles(runs, [], p)
  {
    if runs != [] {
      var rest := runs[1..];
      assert forall i :: 0 <= i < |rest| ==> rest[i] == runs[i + 1];
      MergePiles(rest);
      ScoreLessStrict();
      forall p ensures InPiles(runs, [], p) <==> p in runs[0] || InPiles(rest, [], p) {
        if i :| 0 <= i < |rest| && p in rest[i] { assert p in runs[i + 1]; }
        if i :| 0 <= i < |runs| && p in runs[i] { assert i > 0 ==> p in rest[i - 1]; }
      }
      forall p | InPiles(rest, [], p) ensures p !in runs[0] {
        var i :| 0 <= i < |rest| && p in rest[i];
        assert p in runs[i + 1];
      }
      Sorting.MergeSorted(ScoreLess, runs[0], Sorting.MergeRuns(ScoreLess, rest));
    }
  }

  /** The piles hold the scores of exactly the trails in the groups G. */
  ghost predicate ScoresFor(n: Names, full: State, G: set<string>, runs: seq<seq<(string, int)>>, pile: seq<(string, int)>) {
    && Piles(runs, pile)
    && (forall p :: InPiles(runs, pile, p) <==> p.0 in full.store.at && Group(n, p.0) in G && p == ScoreOf(full, p.0))
  }

  lemma ScoresMore(n: Names, full: State, part: State, G: set<string>, H: set<string>,
                   runs: seq<seq<(string, int)>>, pile: seq<(string, int)>, more: seq<(string, int)>)
    requires Wf(full) && Wf(part) && Same(Only(n, full, H), part) && G !! H
    requires ScoresFor(n, full, G, runs, pile) && AreScores(part, more)
    ensures ScoresFor(n, full, G + H, runs, pile + more)
  {
    PartRows(n, full, part, H);
    ScoreLessStrict();
    Sorting.SortedDistinct(ScoreLess, more);
    PileUp(runs, pile, more);
  }

  // ---- the merge of a batch's rows with the held rows

  /**
   Where the streaming stands: the rows of the groups A and D are out, put aside as late, or still
   held, in this order; `lo` and `lateLo` are the texts of the next batch's first stamps.
   */
  ghost predicate Streaming(n: Names, full: State, A: set<string>, D: set<string>, lateMark: string, lo: string, lateLo: string,
                            rest: seq<OutRow>, out: seq<OutRow>, late: seq<OutRow>)
    requires Wf(full)
  {
    && Sorting.Sorted(RowLess, rest) && Sorting.Sorted(RowLess, out) && Sorting.Sorted(RowLess, late)
    && (forall x :: x in rest ==> Group(n, x.trail) in A && x in Rows(full))
    && (forall x :: x in out ==> Less(x.order, lateMark) && Less(x.order, lo))
    && (forall x :: x in late ==> !Less(x.order, lateMark) && Less(x.order, lateLo) && Group(n, x.trail) in D)
    && (forall x, y :: x in out && y in rest ==> RowLess(x, y))
    && (forall x :: x in out || x in late || x in rest <==> x in Rows(full) && Group(n, x.trail) in A + D)
  }

  lemma NotBelow(x: OutRow, y: OutRow, text: string)
    requires Less(x.order, text) && !Less(y.order, text)
    ensures RowLess(x, y)
  {
    LessTotal(x.order, y.order);
    if Less(y.order, x.order) { LessTransitive(y.order, x.order, text); }
    OrderBefore(x, y);
  }
}
