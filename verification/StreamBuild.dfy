/**
 `_StreamBuild` (core/update.py): a bit filter finds the groups seen more than once, those are built
 in one small shard, everything else is built in batches and streamed out, merged by stamp.
 */
module StreamBuild {
  import opened Text
  import opened TrailGroup
  import opened TrailShard
  import opened TrailLocality
  import opened TrailMerge
  import opened TrailOrder
  import opened TrailBuild
  import opened TrailParts
  import Sorting

  const FILTER_BITS: nat := 0x200_0000
  const BATCH := 50000
  const RUN := 100000

  function FirstBit(h: int): nat { h % FILTER_BITS }

  function SecondBit(h: int): nat { (h / 0x1_0000_0000) % FILTER_BITS }

  predicate IsSet(byte: bv8, i: nat)
    requires i < 8
  {
    (byte >> i) & 1 == 1
  }

  lemma SetKeeps(byte: bv8, i: nat, j: nat)
    requires i < 8 && j < 8
    ensures IsSet(byte | (1 << i), j) <==> i == j || IsSet(byte, j)
  {
  }

  lemma BothSet(x: bv8, y: bv8, i: nat, j: nat)
    requires i < 8 && j < 8
    ensures ((x >> i) & (y >> j) & 1) == 1 <==> IsSet(x, i) && IsSet(y, j)
  {
  }

  lemma CountMore(e: Env, rows: seq<Row>, hashes: seq<int>, repeat: set<int>, row: Row, repeat': set<int>)
    requires Counted(e, rows, hashes, repeat) && repeat <= repeat'
    requires !IsAscii(row.key) ==> forall g :: g in IdnGroups(e.rules.names, row.key) ==> Hash32(e, g) in repeat'
    requires forall i :: 0 <= i < |rows| && Group(e.rules.names, rows[i].key) == Group(e.rules.names, row.key)
                ==> Hash32(e, Group(e.rules.names, row.key)) in repeat'
    ensures Counted(e, rows + [row], hashes + [Hash32(e, Group(e.rules.names, row.key))], repeat')
  {
  }

  // ---- the first pass, as functions of the rows

  /** The filter bits of a group's hash. */
  function BitsOf(e: Env, key: string): set<nat> {
    var h := e.hash(Group(e.rules.names, key));
    {FirstBit(h), SecondBit(h)}
  }

  function Bits(e: Env, rows: seq<Row>): set<nat> {
    if rows == [] then {} else Bits(e, rows[..|rows| - 1]) + BitsOf(e, rows[|rows| - 1].key)
  }

  /** The hashes a key adds to those held back: those of its idna groups if it is not ASCII, its own if its bits were set. */
  function Noted(e: Env, rows: seq<Row>, key: string): set<int> {
    (if IsAscii(key) then {} else set g | g in IdnGroups(e.rules.names, key) :: Hash32(e, g)) +
    (if BitsOf(e, key) <= Bits(e, rows) then {Hash32(e, Group(e.rules.names, key))} else {})
  }

  /** The hashes held back: what the keys note, and those of the remote rows. */
  function Repeats(e: Env, rows: seq<Row>): set<int> {
    if rows == [] then {}
    else
      var front, row := rows[..|rows| - 1], rows[|rows| - 1];
      Repeats(e, front) + Noted(e, front, row.key) + if row.kind == Remote then {Hash32(e, Group(e.rules.names, row.key))} else {}
  }

  function Hashes(e: Env, rows: seq<Row>): seq<int> {
    seq(|rows|, i requires 0 <= i < |rows| => Hash32(e, Group(e.rules.names, rows[i].key)))
  }

  lemma PassMore(e: Env, rows: seq<Row>, row: Row)
    ensures Bits(e, rows + [row]) == Bits(e, rows) + BitsOf(e, row.key)
    ensures Repeats(e, rows + [row]) ==
      Repeats(e, rows) + Noted(e, rows, row.key) + if row.kind == Remote then {Hash32(e, Group(e.rules.names, row.key))} else {}
    ensures Hashes(e, rows + [row]) == Hashes(e, rows) + [Hash32(e, Group(e.rules.names, row.key))]
  {
    hide BitsOf, Noted, Hash32;
    assert (rows + [row])[..|rows|] == rows;
  }

  lemma RemoteMore(e: Env, rows: seq<Row>, row: Row)
    requires row.kind == Remote
    ensures Repeats(e, rows) + Noted(e, rows, row.key) + {Hash32(e, Group(e.rules.names, row.key))} == Repeats(e, rows + [row])
  {
    PassMore(e, rows, row);
  }

  lemma {:induction false} BitsKnown(e: Env, rows: seq<Row>, i: nat)
    requires i < |rows|
    ensures BitsOf(e, rows[i].key) <= Bits(e, rows)
  {
    hide BitsOf;
    var front := rows[..|rows| - 1];
    if i < |front| {
      assert front[i] == rows[i];
      BitsKnown(e, front, i);
    }
  }

  /** The filter may hold back a group without need, but misses none that repeats. */
  lemma {:induction false} NoneMissed(e: Env, rows: seq<Row>)
    ensures Counted(e, rows, Hashes(e, rows), Repeats(e, rows))
  {
    hide Hash32, Bits;
    if rows != [] {
      var front, row := rows[..|rows| - 1], rows[|rows| - 1];
      assert front + [row] == rows;
      NoneMissed(e, front);
      PassMore(e, front, row);
      forall i | 0 <= i < |front| && Group(e.rules.names, front[i].key) == Group(e.rules.names, row.key)
        ensures Hash32(e, Group(e.rules.names, row.key)) in Repeats(e, rows)
      {
        BitsKnown(e, front, i);
      }
      CountMore(e, front, Hashes(e, front), Repeats(e, front), row, Repeats(e, rows));
    }
  }

  class Stream {
    const env: Env
    var sources: seq<Source>
    var seqNo: nat
    const bits: array<bv8>
    var repeat: set<int>
    var hashes: seq<int>
    var runs: seq<seq<(string, int)>>
    ghost var rows: seq<Row>
    /** The rows the build stands for. */
    ghost var meant: seq<Row>

    ghost predicate BitAt(a: nat)
      requires a < FILTER_BITS && bits.Length == FILTER_BITS / 8
      reads bits
    {
      IsSet(bits[a / 8], a % 8)
    }

    /** Exactly these bits are set. */
    ghost predicate BitsAre(on: set<nat>)
      reads bits
    {
      bits.Length == FILTER_BITS / 8 && forall x: nat :: x < FILTER_BITS ==> (BitAt(x) <==> x in on)
    }

    /** The filter, the hashes and the hashes held back are those of the rows so far. */
    ghost predicate Seeing()
      reads this, bits
    {
      && BitsAre(Bits(env, rows))
      && seqNo == |rows|
      && hashes == Hashes(env, rows)
      && repeat == Repeats(env, rows)
    }

    ghost predicate Valid()
      reads this, bits
    {
      Seeing() && rows == AllRows(env, sources) && runs == []
    }

    constructor (env: Env)
      ensures Valid() && fresh(bits) && rows == [] && this.env == env
    {
      this.env := env;
      sources, seqNo, repeat, hashes, runs, rows, meant := [], 0, {}, [], [], [], [];
      bits := new bv8[FILTER_BITS / 8](_ => 0);
    }

    lemma Counts()
      requires Valid()
      ensures |hashes| == |rows|
    {
    }

    /** `_seen` for a row's key; a remote row's hash is still to be held back. */
    method Seen(ghost row: Row, key: string)
      requires Seeing() && row.key == key
      modifies this`seqNo, this`repeat, this`hashes, this`rows, bits
      ensures rows == old(rows) + [row] && seqNo == |rows|
      ensures BitsAre(Bits(env, rows)) && hashes == Hashes(env, rows)
      ensures repeat == Repeats(env, old(rows)) + Noted(env, old(rows), key)
      ensures |hashes| > 0 && hashes[|hashes| - 1] == Hash32(env, Group(env.rules.names, key))
      ensures row.kind != Remote ==> Seeing()
    {
      hide BitsAre, Bits, Hashes, Repeats, Noted, Hash32, BitsOf;
      PassMore(env, rows, row);
      Note(key);
      hashes := hashes + [Hash32(env, Group(env.rules.names, key))];
      seqNo := seqNo + 1;
      rows := rows + [row];
    }

    /** Marks the key's group, and holds it back if both its bits were set already. */
    method Note(key: string)
      requires BitsAre(Bits(env, rows))
      modifies this`repeat, bits
      ensures repeat == old(repeat) + Noted(env, rows, key)
      ensures BitsAre(Bits(env, rows) + BitsOf(env, key))
    {
      hide Bits;
      var h := env.hash(Group(env.rules.names, key));
      var a, b := FirstBit(h), SecondBit(h);
      if !IsAscii(key) {
        repeat := repeat + set g | g in IdnGroups(env.rules.names, key) :: Hash32(env, g);
      }
      var known := BothBits(a, b);
      if known {
        repeat := repeat + {h % 0x1_0000_0000};
      } else {
        SetBit(a);
        SetBit(b);
      }
    }

    method BothBits(a: nat, b: nat) returns (r: bool)
      requires a < FILTER_BITS && b < FILTER_BITS && bits.Length == FILTER_BITS / 8
      ensures r <==> BitAt(a) && BitAt(b)
    {
      BothSet(bits[a / 8], bits[b / 8], a % 8, b % 8);
      r := ((bits[a / 8] >> (a % 8)) & (bits[b / 8] >> (b % 8)) & 1) == 1;
    }

    method SetBit(a: nat)
      requires a < FILTER_BITS && bits.Length == FILTER_BITS / 8
      modifies bits
      ensures forall x :: 0 <= x < FILTER_BITS ==> (BitAt(x) <==> x == a || old(BitAt(x)))
    {
      forall j | 0 <= j < 8 ensures IsSet(bits[a / 8] | (1 << (a % 8)), j) <==> a % 8 == j || IsSet(bits[a / 8], j) {
        SetKeeps(bits[a / 8], a % 8, j);
      }
      bits[a / 8] := bits[a / 8] | (1 << (a % 8));
    }

    method MergeSource(items: seq<(string, Pair)>)
      requires Valid()
      modifies this, bits
      ensures Valid() && rows == old(rows) + MergeRows(env, items)
    {
      hide BitsAre, Bits, Hashes, Repeats, Noted, BitsOf, Hash32, Group;
      for i := 0 to |items|
        invariant Seeing() && rows == old(rows) + MergeRows(env, items[..i]) && runs == [] && sources == old(sources)
      {
        MergeRowsMore(env, items, i);
        var key := SourceKey(env, items[i].0);
        Seen(Row(Merge, key, items[i].1, ""), key);
      }
      assert items[..|items|] == items;
      MoreRows(env, sources, Results(items));
      sources := sources + [Results(items)];
    }

    /** A remote row is always held back. */
    method RemoteRow(key: string, value: Pair, check: string)
      requires Valid()
      modifies this, bits
      ensures Valid() && rows == old(rows) + [Row(Remote, key, value, check)]
    {
      hide BitsAre, Bits, Hashes, Repeats, Noted, BitsOf, Hash32, Group;
      var row := Row(Remote, key, value, check);
      MoreRows(env, sources, OneRemote(key, value, check));
      sources := sources + [OneRemote(key, value, check)];
      ghost var before := rows;
      Seen(row, key);
      RemoteMore(env, before, row);
      repeat := repeat + {hashes[|hashes| - 1]};
    }

    method SetRow(key: string, value: Pair)
      requires Valid()
      modifies this, bits
      ensures Valid() && rows == old(rows) + [Row(Set, key, value, "")]
    {
      hide BitsAre, Bits, Hashes, Repeats, Noted, BitsOf, Hash32, Group;
      var row := Row(Set, key, value, "");
      MoreRows(env, sources, OneSet(key, value));
      sources := sources + [OneSet(key, value)];
      Seen(row, key);
    }

    // ---- the build

    /** Sorts the scores collected so far into a run. */
    method RunOut(pile: seq<(string, int)>)
      requires Piles(runs, pile)
      modifies this`runs
      ensures Piles(runs, [])
      ensures forall p :: InPiles(runs, [], p) <==> InPiles(old(runs), pile, p)
    {
      if pile != [] {
        RunOutPiles(runs, pile);
        runs := runs + [Sorting.Sort(ScoreLess, pile)];
      }
    }

    /** Post-processes a shard that holds the part G of the whole build, and collects its scores. */
    method Finish(shard: Shard, pile: seq<(string, int)>, ghost full: State, ghost F: set<string>, ghost G: set<string>)
      returns (rows: seq<OutRow>, pile': seq<(string, int)>)
      requires shard.Valid() && shard.stamped && Wf(full) && F !! G
      requires Same(Only(env.rules.names, full, G), PostProcess(env.rules, shard.model))
      requires ScoresFor(env.rules.names, full, F, runs, pile)
      modifies shard, this`runs
      ensures ScoresFor(env.rules.names, full, F + G, runs, pile')
      ensures shard.Valid() && shard.model == PostProcess(env.rules, old(shard.model)) && rows == Rows(shard.model)
    {
      shard.PostProcess(env.rules);
      var more := shard.Scores();
      ScoresMore(env.rules.names, full, shard.model, F, G, runs, pile, more);
      pile' := pile + more;
      if |pile'| >= RUN {
        RunOut(pile');
        pile' := [];
      }
      rows := shard.Rows();
    }

    /** The rows below `lo` are streamed, and their scores are piled up. */
    ghost predicate Stands(lo: nat, rest: seq<OutRow>, out: seq<OutRow>, late: seq<OutRow>, pile: seq<(string, int)>)
      reads this
    {
      Standing(env, meant, hashes, repeat, runs, lo, rest, out, late, pile)
    }

    /** Finishes a batch and streams its rows. */
    method Drain(batch: Shard, held: seq<OutRow>, p: nat, out: seq<OutRow>, late: seq<OutRow>, pile: seq<(string, int)>,
                 ghost lo: nat, ghost hi: nat)
      returns (q: nat, out': seq<OutRow>, late': seq<OutRow>, pile': seq<(string, int)>)
      requires p <= |held| && lo <= hi <= |meant| == |hashes| && Stands(lo, held[p..], out, late, pile)
      requires batch.Valid() && batch.stamped && Same(batch.model, Fed(Picked(meant, hashes, repeat, lo, hi, false)))
      modifies batch, this`runs
      ensures q <= |held| && Stands(hi, held[q..], out', late', pile')
    {
      hide *;
      ghost var n, full := env.rules.names, Full(env, meant);
      ghost var A, D := HeldGroups(env, meant, repeat), GroupsOf(n, Picked(meant, hashes, repeat, 0, lo, false));
      ghost var D' := GroupsOf(n, Picked(meant, hashes, repeat, lo, hi, false));
      ghost var before, model := runs, batch.model;
      assert Standing(env, meant, hashes, repeat, before, lo, held[p..], out, late, pile) by { StandsIs(lo, held[p..], out, late, pile); }
      ShardWf(batch);
      BatchReady(env, meant, hashes, repeat, before, lo, hi, held[p..], out, late, pile, model);
      var rows';
      rows', pile' := Finish(batch, pile, full, A + D, D');
      var sent, aside;
      sent, aside, q := Emit(OrderText(LATE), held, p, rows');
      out', late' := out + sent, late + aside;
      BatchDone(env, meant, hashes, repeat, before, lo, hi, held[p..], out, late, pile, model, rows', runs, pile', Emission(sent, aside, held[q..]));
      StandsIs(hi, held[q..], out', late', pile');
    }

    lemma StandsIs(lo: nat, rest: seq<OutRow>, out: seq<OutRow>, late: seq<OutRow>, pile: seq<(string, int)>)
      ensures Stands(lo, rest, out, late, pile) == Standing(env, meant, hashes, repeat, runs, lo, rest, out, late, pile)
    {
    }

    /** Every row of a repeated group, in one dict. */
    method FeedHeld() returns (repeated: Shard)
      requires rows == AllRows(env, sources) && |hashes| == |rows|
      ensures fresh(repeated) && repeated.Valid() && repeated.stamped
      ensures Same(repeated.model, Fed(Picked(rows, hashes, repeat, 0, |rows|, true)))
    {
      hide *;
      var all := AllRows(env, sources);
      repeated := new Shard(true);
      FedNone(rows, hashes, repeat, 0, true);
      SameItself(repeated.model);
      for i := 0 to |all|
        invariant repeated.Valid() && repeated.stamped && fresh(repeated)
        invariant Same(repeated.model, Fed(Picked(rows, hashes, repeat, 0, i, true)))
      {
        if hashes[i] in repeat {
          FeedMore(rows, hashes, repeat, 0, i, true, repeated.model);
          repeated.SetNow(i);
          repeated.Apply(all[i]);
          SameItself(repeated.model);
        } else {
          FeedLess(rows, hashes, repeat, 0, i, true);
        }
      }
    }

    /** The expensive path. */
    method BuildHeld() returns (held: seq<OutRow>, pile: seq<(string, int)>)
      requires rows == AllRows(env, sources) && |meant| <= MAX_ROWS && runs == []
      requires Alike(rows, meant, hashes, repeat)
      requires Counted(env, meant, hashes, repeat) && AllProper(env, meant)
      modifies this`runs
      ensures Stands(0, held, [], [], pile)
    {
      hide *;
      ghost var n, full, A := env.rules.names, Full(env, meant), HeldGroups(env, meant, repeat);
      FullWf(env, meant);
      AlikeSize(rows, meant, hashes, repeat);
      var repeated := FeedHeld();
      ghost var model := repeated.model;
      AlikeHeld(rows, meant, hashes, repeat, model);
      ShardWf(repeated);
      HeldBuilt(env, meant, hashes, repeat, model);
      NoScores(n, full, runs);
      var found;
      found, pile := Finish(repeated, [], full, {}, A);
      ShardWf(repeated);
      held := Sorting.Sort(RowLess, found);
      assert {} + A == A && {} !! A;
      HeldStanding(env, meant, hashes, repeat, runs, pile, PostProcess(env.rules, model));
      StandsIs(0, held, [], [], pile);
    }

    /** The cheap path: groups seen once, in batches, merged with the held rows by stamp. */
    method StreamRows(held: seq<OutRow>, pile0: seq<(string, int)>)
      returns (p: nat, out: seq<OutRow>, late: seq<OutRow>, pile: seq<(string, int)>)
      requires rows == AllRows(env, sources) && |rows| == |hashes| == |meant|
      requires Alike(rows, meant, hashes, repeat) && Stands(0, held, [], [], pile0)
      modifies this`runs
      ensures p <= |held| && Stands(|meant|, held[p..], out, late, pile)
    {
      hide *;
      var all := AllRows(env, sources);
      p, out, late, pile := 0, [], [], pile0;
      var batch := new Shard(true);
      ghost var lo: nat := 0;
      assert held[0..] == held;
      FedNone(meant, hashes, repeat, 0, false);
      SameItself(batch.model);
      for i := 0 to |all|
        invariant lo <= i && p <= |held| && fresh(batch) && batch.Valid() && batch.stamped
        invariant Stands(lo, held[p..], out, late, pile)
        invariant Same(batch.model, Fed(Picked(meant, hashes, repeat, lo, i, false)))
      {
        AlikeAt(rows, meant, hashes, repeat, i);
        if hashes[i] !in repeat {
          p, out, late, pile, batch, lo := StreamRow(held, p, out, late, pile, batch, i, all[i], lo);
        } else {
          FeedLess(meant, hashes, repeat, lo, i, false);
        }
      }
      p, out, late, pile := Drain(batch, held, p, out, late, pile, lo, |meant|);
    }

    /** One row of the cheap path; a full batch is drained. */
    method StreamRow(held: seq<OutRow>, p0: nat, out0: seq<OutRow>, late0: seq<OutRow>, pile0: seq<(string, int)>,
                     batch0: Shard, i: nat, row: Row, ghost lo0: nat)
      returns (p: nat, out: seq<OutRow>, late: seq<OutRow>, pile: seq<(string, int)>, batch: Shard, ghost lo: nat)
      requires lo0 <= i < |meant| == |hashes| && row == meant[i] && hashes[i] !in repeat
      requires p0 <= |held| && Stands(lo0, held[p0..], out0, late0, pile0)
      requires batch0.Valid() && batch0.stamped && Same(batch0.model, Fed(Picked(meant, hashes, repeat, lo0, i, false)))
      modifies batch0, this`runs
      ensures lo <= i + 1 && p <= |held| && Stands(lo, held[p..], out, late, pile)
      ensures batch == batch0 || fresh(batch)
      ensures batch.Valid() && batch.stamped && Same(batch.model, Fed(Picked(meant, hashes, repeat, lo, i + 1, false)))
    {
      hide *;
      p, out, late, pile, batch, lo := p0, out0, late0, pile0, batch0, lo0;
      FeedMore(meant, hashes, repeat, lo, i, false, batch.model);
      batch.SetNow(i);
      batch.Apply(row);
      SameItself(batch.model);
      if |batch.store.order| >= BATCH {
        p, out, late, pile := Drain(batch, held, p, out, late, pile, lo, i + 1);
        batch := new Shard(true);
        lo := i + 1;
        FedNone(meant, hashes, repeat, lo, false);
        SameItself(batch.model);
      }
    }

    /**
     The rows as they are written, and the scores. The rows are those of the one-dict build, each once, sorted by
     stamp and trail; the scores are its scores. The one dict is that of the rows themselves, or of others that
     differ from them in the held-back rows only and make the same of those.
     */
    method Build(ghost built: seq<Row>) returns (out: seq<OutRow>, scores: seq<(string, int)>)
      requires Valid() && AllProper(env, built) && |built| <= MAX_ROWS
      requires Alike(rows, built, hashes, repeat)
      modifies this`runs, this`meant
      ensures Wf(Full(env, built))
      ensures Sorting.Sorted(RowLess, out)
      ensures forall x :: x in out <==> x in Rows(Full(env, built))
      ensures AreScores(Full(env, built), scores)
    {
      hide Counted, AllProper, Streaming, Piles, InPiles, Full, Wf, Rows, AreScores, Picked, HeldGroups, GroupsOf, Hashes, Repeats, Bits, Fed;
      FullWf(env, built);
      NoneMissed(env, rows);
      AlikeCounted(env, rows, built, hashes, repeat);
      meant := built;
      var held, pile := BuildHeld();
      var p, early, late;
      p, early, late, pile := StreamRows(held, pile);
      RunOut(pile);
      out := early + Sorting.Merge(RowLess, late, held[p..]);
      scores := Sorting.MergeRuns(ScoreLess, runs);
      StreamBuilt(env, built, hashes, repeat, held[p..], early, late, runs);
    }
  }

  /** After streaming the rows below `lo`: what is left, out and aside, and the scores so far. */
  ghost predicate Standing(e: Env, rows: seq<Row>, hashes: seq<int>, repeat: set<int>, runs: seq<seq<(string, int)>>,
                           lo: nat, rest: seq<OutRow>, out: seq<OutRow>, late: seq<OutRow>, pile: seq<(string, int)>)
  {
    && lo <= |rows| <= MAX_ROWS && Counted(e, rows, hashes, repeat) && AllProper(e, rows) && Wf(Full(e, rows))
    && (var n, A, D := e.rules.names, HeldGroups(e, rows, repeat), GroupsOf(e.rules.names, Picked(rows, hashes, repeat, 0, lo, false));
        && Streaming(n, Full(e, rows), A, D, OrderText(LATE), OrderText(lo), OrderText(LateFrom(lo)), rest, out, late)
        && ScoresFor(n, Full(e, rows), A + D, runs, pile))
  }

  lemma ShardWf(shard: Shard)
    requires shard.Valid()
    ensures Wf(shard.model)
  {
  }

  /** A batch as it is finished: its part of the whole build, apart from what is streamed. */
  lemma BatchReady(e: Env, rows: seq<Row>, hashes: seq<int>, repeat: set<int>, runs: seq<seq<(string, int)>>, lo: nat, hi: nat,
                   rest: seq<OutRow>, out: seq<OutRow>, late: seq<OutRow>, pile: seq<(string, int)>, batch: State)
    requires Standing(e, rows, hashes, repeat, runs, lo, rest, out, late, pile) && lo <= hi <= |rows| == |hashes|
    requires Wf(batch) && Same(batch, Fed(Picked(rows, hashes, repeat, lo, hi, false)))
    ensures Wf(Full(e, rows))
    ensures var n := e.rules.names;
      var (A, D, D') := (HeldGroups(e, rows, repeat), GroupsOf(n, Picked(rows, hashes, repeat, 0, lo, false)), GroupsOf(n, Picked(rows, hashes, repeat, lo, hi, false)));
      && A + D !! D'
      && Same(Only(n, Full(e, rows), D'), PostProcess(e.rules, batch))
      && ScoresFor(n, Full(e, rows), A + D, runs, pile)
  {
    hide Streaming, ScoresFor, Counted, AllProper, Full, Wf, Picked, HeldGroups, GroupsOf, Fed, PostProcess;
    var picked := Picked(rows, hashes, repeat, lo, hi, false);
    PartsDisjoint(e, rows, hashes, repeat, 0, lo, hi);
    PartsDisjoint(e, rows, hashes, repeat, lo, lo, hi);
    BatchPart(e, rows, hashes, repeat, lo, hi);
    FedWf(picked);
    PostProcessSame(e.rules, batch, Fed(picked));
  }

  /** A batch streamed. */
  lemma BatchDone(e: Env, rows: seq<Row>, hashes: seq<int>, repeat: set<int>, runs: seq<seq<(string, int)>>, lo: nat, hi: nat,
                  rest: seq<OutRow>, out: seq<OutRow>, late: seq<OutRow>, pile: seq<(string, int)>, batch: State,
                  batchRows: seq<OutRow>, runs': seq<seq<(string, int)>>, pile': seq<(string, int)>, sent: Emission)
    requires Standing(e, rows, hashes, repeat, runs, lo, rest, out, late, pile) && lo <= hi <= |rows| == |hashes|
    requires Wf(batch) && Same(batch, Fed(Picked(rows, hashes, repeat, lo, hi, false)))
    requires Wf(PostProcess(e.rules, batch)) && batchRows == Rows(PostProcess(e.rules, batch))
    requires var n := e.rules.names;
      ScoresFor(n, Full(e, rows), HeldGroups(e, rows, repeat) + GroupsOf(n, Picked(rows, hashes, repeat, 0, lo, false))
                + GroupsOf(n, Picked(rows, hashes, repeat, lo, hi, false)), runs', pile')
    requires Emitted(OrderText(LATE), rest, batchRows) == sent
    ensures Standing(e, rows, hashes, repeat, runs', hi, sent.rest, out + sent.out, late + sent.late, pile')
  {
    hide ScoresFor, Counted, AllProper, Full, Wf, Picked, HeldGroups, GroupsOf, Fed, PostProcess, OrderText, LateFrom, Rows, Emitted, Emits, Shaped, NotAfter;
    var n, full, A := e.rules.names, Full(e, rows), HeldGroups(e, rows, repeat);
    var picked := Picked(rows, hashes, repeat, lo, hi, false);
    var D, D' := GroupsOf(n, Picked(rows, hashes, repeat, 0, lo, false)), GroupsOf(n, picked);
    FedWf(picked);
    PostProcessSame(e.rules, batch, Fed(picked));
    SameRows(PostProcess(e.rules, batch), TrailMerge.Build(e.rules, picked));
    BatchFits(e, rows, hashes, repeat, lo, hi, rest, batchRows);
    BelowMarks(lo, hi, batchRows);
    EmittedIs(OrderText(LATE), OrderText(hi), rest, batchRows);
    MarksMove(lo, hi);
    BatchPart(e, rows, hashes, repeat, lo, hi);
    PartRows(n, full, TrailMerge.Build(e.rules, picked), D');
    PartsDisjoint(e, rows, hashes, repeat, 0, lo, hi);
    StreamStep(n, full, A, D, D', OrderText(LATE), OrderText(lo), OrderText(hi), OrderText(LateFrom(lo)), OrderText(LateFrom(hi)),
               rest, out, late, batchRows, sent);
    assert A + D + D' == A + (D + D');
  }

  /** The marks of a batch bound its rows. */
  lemma BelowMarks(lo: nat, hi: nat, batchRows: seq<OutRow>)
    requires forall y :: y in batchRows ==> Shaped(y, lo, hi)
    ensures forall y :: y in batchRows && Less(y.order, OrderText(LATE)) ==> Less(y.order, OrderText(hi)) && !Less(y.order, OrderText(lo))
    ensures forall y :: y in batchRows && !Less(y.order, OrderText(LATE)) ==> !Less(y.order, OrderText(LateFrom(lo))) && Less(y.order, OrderText(LateFrom(hi)))
  {
  }

  /** Rows that differ in the held-back ones only, of which one dict makes the same. */
  ghost predicate Alike(rows: seq<Row>, built: seq<Row>, hashes: seq<int>, repeat: set<int>) {
    && |built| == |rows| == |hashes|
    && (forall i :: 0 <= i < |rows| ==> built[i].key == rows[i].key && (hashes[i] !in repeat ==> built[i] == rows[i]))
    && Same(Fed(Picked(rows, hashes, repeat, 0, |rows|, true)), Fed(Picked(built, hashes, repeat, 0, |rows|, true)))
  }

  lemma AlikeItself(rows: seq<Row>, hashes: seq<int>, repeat: set<int>)
    requires |hashes| == |rows|
    ensures Alike(rows, rows, hashes, repeat)
  {
  }

  lemma AlikeSize(rows: seq<Row>, built: seq<Row>, hashes: seq<int>, repeat: set<int>)
    requires Alike(rows, built, hashes, repeat)
    ensures |built| == |rows| == |hashes|
  {
    hide Fed, Picked;
  }

  lemma AlikeHeld(rows: seq<Row>, built: seq<Row>, hashes: seq<int>, repeat: set<int>, s: State)
    requires Alike(rows, built, hashes, repeat) && Same(s, Fed(Picked(rows, hashes, repeat, 0, |rows|, true)))
    ensures |built| == |hashes| && Same(s, Fed(Picked(built, hashes, repeat, 0, |built|, true)))
  {
    hide Fed, Picked;
  }

  lemma AlikeAt(rows: seq<Row>, built: seq<Row>, hashes: seq<int>, repeat: set<int>, i: nat)
    requires Alike(rows, built, hashes, repeat) && i < |rows|
    ensures |built| == |rows| == |hashes| && (hashes[i] !in repeat ==> built[i] == rows[i])
  {
    hide Fed, Picked;
  }

  lemma AlikeCounted(e: Env, rows: seq<Row>, built: seq<Row>, hashes: seq<int>, repeat: set<int>)
    requires Alike(rows, built, hashes, repeat) && Counted(e, rows, hashes, repeat)
    ensures Counted(e, built, hashes, repeat)
  {
    hide Fed, Picked, Group, Hash32, Reach;
  }

  /** At the end of the stream everything is out. */
  lemma StreamBuilt(e: Env, rows: seq<Row>, hashes: seq<int>, repeat: set<int>, rest: seq<OutRow>, early: seq<OutRow>, late: seq<OutRow>,
                    runs: seq<seq<(string, int)>>)
    requires Counted(e, rows, hashes, repeat) && AllProper(e, rows) && Wf(Full(e, rows))
    requires var D := GroupsOf(e.rules.names, Picked(rows, hashes, repeat, 0, |rows|, false));
      && Streaming(e.rules.names, Full(e, rows), HeldGroups(e, rows, repeat), D,
                   OrderText(LATE), OrderText(|rows|), OrderText(LateFrom(|rows|)), rest, early, late)
      && ScoresFor(e.rules.names, Full(e, rows), HeldGroups(e, rows, repeat) + D, runs, [])
    ensures Sorting.Sorted(RowLess, early + Sorting.Merge(RowLess, late, rest))
    ensures forall x :: x in early + Sorting.Merge(RowLess, late, rest) <==> x in Rows(Full(e, rows))
    ensures AreScores(Full(e, rows), Sorting.MergeRuns(ScoreLess, runs))
  {
    var n, full, A := e.rules.names, Full(e, rows), HeldGroups(e, rows, repeat);
    var D := GroupsOf(n, Picked(rows, hashes, repeat, 0, |rows|, false));
    PartsCover(e, rows, hashes, repeat);
    PartsDisjoint(e, rows, hashes, repeat, 0, 0, |rows|);
    StreamEnd(n, full, A, D, OrderText(LATE), OrderText(|rows|), OrderText(LateFrom(|rows|)), rest, early, late);
    MergePiles(runs);
    AllScores(n, full, A + D, runs, Sorting.MergeRuns(ScoreLess, runs));
  }

  lemma SameRows(s: State, t: State)
    requires Wf(s) && Same(s, t)
    ensures Wf(t) && Rows(s) == Rows(t)
  {
  }

  lemma MarksMove(lo: nat, hi: nat)
    requires lo <= hi <= MAX_ROWS
    ensures NotAfter(OrderText(lo), OrderText(hi)) && NotAfter(OrderText(LateFrom(lo)), OrderText(LateFrom(hi)))
  {
    if lo < hi {
      TextOrder(lo, hi);
      TextOrder(LateFrom(lo), LateFrom(hi));
    }
  }

  /** A batch's rows are sorted, no early one shares a stamp with a held row, and all are within the batch's stamps. */
  lemma BatchFits(e: Env, rows: seq<Row>, hashes: seq<int>, repeat: set<int>, lo: nat, hi: nat, rest: seq<OutRow>, batch: seq<OutRow>)
    requires Counted(e, rows, hashes, repeat) && AllProper(e, rows) && lo <= hi <= |rows| <= MAX_ROWS && Wf(Full(e, rows))
    requires Wf(TrailMerge.Build(e.rules, Picked(rows, hashes, repeat, lo, hi, false)))
    requires batch == Rows(TrailMerge.Build(e.rules, Picked(rows, hashes, repeat, lo, hi, false)))
    requires forall x :: x in rest ==> Group(e.rules.names, x.trail) in HeldGroups(e, rows, repeat) && x in Rows(Full(e, rows))
    ensures Sorting.Sorted(RowLess, batch)
    ensures forall y :: y in batch ==> Shaped(y, lo, hi)
    ensures forall x, y :: x in rest && y in batch && Less(y.order, OrderText(LATE)) ==> x.order != y.order
  {
    var n, full := e.rules.names, Full(e, rows);
    var picked := Picked(rows, hashes, repeat, lo, hi, false);
    var part := TrailMerge.Build(e.rules, picked);
    BatchShape(e, rows, hashes, repeat, lo, hi);
    BatchPart(e, rows, hashes, repeat, lo, hi);
    PartRows(n, full, part, GroupsOf(n, picked));
    PartsDisjoint(e, rows, hashes, repeat, lo, lo, hi);
    RowsAre(full);
    forall x, y | x in rest && y in batch && IsEarly(y) && x.order == y.order ensures false {
      assert part.stamps == OnlyIn(n, full.stamps, GroupsOf(n, picked));
      EarlyDistinct(e, rows, x, y);
    }
  }

  lemma FeedMore(rows: seq<Row>, hashes: seq<int>, repeat: set<int>, lo: nat, i: nat, held: bool, s: State)
    requires lo <= i < |rows| == |hashes| && (hashes[i] in repeat) == held
    requires Same(s, Fed(Picked(rows, hashes, repeat, lo, i, held)))
    ensures Apply(s.(now := i), rows[i]) == Fed(Picked(rows, hashes, repeat, lo, i + 1, held))
  {
    var front := Picked(rows, hashes, repeat, lo, i, held);
    assert Picked(rows, hashes, repeat, lo, i + 1, held) == front + [Numbered(i, rows[i])];
    assert (front + [Numbered(i, rows[i])])[..|front|] == front;
  }

  lemma FullWf(e: Env, rows: seq<Row>)
    ensures Wf(Full(e, rows))
  {
    BuildWf(e.rules, Number(rows));
  }

  lemma NoGroups(n: Names, rows: seq<Row>, hashes: seq<int>, repeat: set<int>)
    requires |rows| == |hashes|
    ensures GroupsOf(n, Picked(rows, hashes, repeat, 0, 0, false)) == {}
  {
  }

  lemma FedNone(rows: seq<Row>, hashes: seq<int>, repeat: set<int>, lo: nat, held: bool)
    requires lo <= |rows| == |hashes|
    ensures Fed(Picked(rows, hashes, repeat, lo, lo, held)) == EMPTY
  {
  }

  lemma FeedLess(rows: seq<Row>, hashes: seq<int>, repeat: set<int>, lo: nat, i: nat, held: bool)
    requires lo <= i < |rows| == |hashes| && (hashes[i] in repeat) != held
    ensures Picked(rows, hashes, repeat, lo, i + 1, held) == Picked(rows, hashes, repeat, lo, i, held)
  {
  }

  lemma HeldBuilt(e: Env, rows: seq<Row>, hashes: seq<int>, repeat: set<int>, s: State)
    requires Counted(e, rows, hashes, repeat) && AllProper(e, rows)
    requires Wf(s) && Same(s, Fed(Picked(rows, hashes, repeat, 0, |rows|, true)))
    ensures Same(Only(e.rules.names, Full(e, rows), HeldGroups(e, rows, repeat)), PostProcess(e.rules, s))
  {
    HeldPart(e, rows, hashes, repeat);
    PostProcessSame(e.rules, s, Fed(Picked(rows, hashes, repeat, 0, |rows|, true)));
  }

  lemma NoScores(n: Names, full: State, runs: seq<seq<(string, int)>>)
    requires runs == []
    ensures ScoresFor(n, full, {}, runs, [])
  {
  }

  /** Before the first batch: the held rows, sorted, are the rows of the held groups. */
  lemma HeldStands(e: Env, rows: seq<Row>, hashes: seq<int>, repeat: set<int>, part: State)
    requires Counted(e, rows, hashes, repeat) && AllProper(e, rows) && Wf(Full(e, rows)) && Wf(part)
    requires Same(Only(e.rules.names, Full(e, rows), HeldGroups(e, rows, repeat)), part)
    ensures Streaming(e.rules.names, Full(e, rows), HeldGroups(e, rows, repeat), GroupsOf(e.rules.names, Picked(rows, hashes, repeat, 0, 0, false)),
                      OrderText(LATE), OrderText(0), OrderText(LateFrom(0)), Sorting.Sort(RowLess, Rows(part)), [], [])
  {
    RowsAre(part);
    RowLessStrict();
    assert Sorting.Distinct(Rows(part));
    Sorting.SortSorted(RowLess, Rows(part));
    PartRows(e.rules.names, Full(e, rows), part, HeldGroups(e, rows, repeat));
  }

  /** The held rows sorted, and their scores: where streaming starts. */
  lemma HeldStanding(e: Env, rows: seq<Row>, hashes: seq<int>, repeat: set<int>, runs: seq<seq<(string, int)>>, pile: seq<(string, int)>, part: State)
    requires Counted(e, rows, hashes, repeat) && AllProper(e, rows) && |rows| == |hashes| && |rows| <= MAX_ROWS && Wf(Full(e, rows)) && Wf(part)
    requires Same(Only(e.rules.names, Full(e, rows), HeldGroups(e, rows, repeat)), part)
    requires ScoresFor(e.rules.names, Full(e, rows), HeldGroups(e, rows, repeat), runs, pile)
    ensures Standing(e, rows, hashes, repeat, runs, 0, Sorting.Sort(RowLess, Rows(part)), [], [], pile)
  {
    hide Counted, AllProper, Streaming, ScoresFor, Full, Wf, Same, Only, Picked, GroupsOf, HeldGroups, Rows, OrderText;
    HeldStands(e, rows, hashes, repeat, part);
    NoGroups(e.rules.names, rows, hashes, repeat);
    assert HeldGroups(e, rows, repeat) + {} == HeldGroups(e, rows, repeat);
  }

  lemma AllScores(n: Names, full: State, G: set<string>, runs: seq<seq<(string, int)>>, scores: seq<(string, int)>)
    requires Wf(full) && ScoresFor(n, full, G, runs, []) && Sorting.Sorted(ScoreLess, scores)
    requires forall p :: p in scores <==> InPiles(runs, [], p)
    requires forall k :: k in full.store.order ==> Group(n, k) in G
    ensures AreScores(full, scores)
  {
  }

  lemma MergeRowsMore(e: Env, items: seq<(string, Pair)>, i: nat)
    requires i < |items|
    ensures MergeRows(e, items[..i + 1]) == MergeRows(e, items[..i]) + [Row(Merge, SourceKey(e, items[i].0), items[i].1, "")]
  {
    assert items[..i + 1][..i] == items[..i];
  }

  lemma MoreRows(e: Env, sources: seq<Source>, source: Source)
    ensures AllRows(e, sources + [source]) == AllRows(e, sources) + RowsOf(e, source)
  {
    assert (sources + [source])[..|sources|] == sources;
  }

  datatype Emission = Emission(out: seq<OutRow>, late: seq<OutRow>, rest: seq<OutRow>)

  /** What streaming a batch's rows sends out, puts aside, and leaves of the held rows. */
  function Emitted(lateMark: string, held: seq<OutRow>, rows: seq<OutRow>): Emission
    decreases |held| + |rows|
  {
    if rows == [] then Emission([], [], held)
    else if !Less(rows[0].order, lateMark) then
      var e := Emitted(lateMark, held, rows[1..]);
      e.(late := [rows[0]] + e.late)
    else if held != [] && Less(held[0].order, rows[0].order) && Less(held[0].order, lateMark) then
      var e := Emitted(lateMark, held[1..], rows);
      e.(out := [held[0]] + e.out)
    else
      var e := Emitted(lateMark, held, rows[1..]);
      e.(out := [rows[0]] + e.out)
  }

  /**
   Streams a batch's rows: late ones are put aside, early ones go out, each after the early held
   rows that come before it.
   */
  method Emit(lateMark: string, held: seq<OutRow>, p: nat, rows: seq<OutRow>)
    returns (out: seq<OutRow>, late: seq<OutRow>, q: nat)
    requires p <= |held|
    ensures p <= q <= |held|
    ensures Emitted(lateMark, held[p..], rows) == Emission(out, late, held[q..])
  {
    out, late, q := [], [], p;
    ghost var all := Emitted(lateMark, held[p..], rows);
    for i := 0 to |rows|
      invariant p <= q <= |held|
      invariant Rest(all, out, late, Emitted(lateMark, held[q..], rows[i..]))
    {
      assert rows[i..][0] == rows[i] && rows[i..][1..] == rows[i + 1..];
      if !Less(rows[i].order, lateMark) {
        late := late + [rows[i]];
      } else {
        while q < |held| && Less(held[q].order, rows[i].order) && Less(held[q].order, lateMark)
          invariant p <= q <= |held|
          invariant Rest(all, out, late, Emitted(lateMark, held[q..], rows[i..]))
        {
          assert held[q..][0] == held[q] && held[q..][1..] == held[q + 1..];
          out := out + [held[q]];
          q := q + 1;
        }
        if q < |held| { assert held[q..][0] == held[q]; }
        out := out + [rows[i]];
      }
    }
    assert rows[|rows|..] == [];
  }

  ghost predicate Rest(all: Emission, out: seq<OutRow>, late: seq<OutRow>, e: Emission) {
    all.out == out + e.out && all.late == late + e.late && all.rest == e.rest
  }

  ghost predicate Above(x: OutRow, s: seq<OutRow>) { forall y :: y in s ==> RowLess(x, y) }

  lemma AboveTail(s: seq<OutRow>)
    requires s != [] && Sorting.Sorted(RowLess, s)
    ensures Above(s[0], s[1..]) && Sorting.Sorted(RowLess, s[1..])
    ensures forall y :: y in s <==> y == s[0] || y in s[1..]
  {
    forall y | y in s[1..] ensures RowLess(s[0], y) { var j :| 0 <= j < |s[1..]| && s[1..][j] == y; assert s[j + 1] == y; }
    assert s == [s[0]] + s[1..];
  }

  lemma AboveLess(x: OutRow, z: OutRow, s: seq<OutRow>)
    requires RowLess(x, z) && Above(z, s)
    ensures Above(x, s)
  {
    RowLessStrict();
  }

  ghost predicate Emits(lateMark: string, mark: string, held: seq<OutRow>, rows: seq<OutRow>, e: Emission) {
    && Sorting.Sorted(RowLess, e.out) && Sorting.Sorted(RowLess, e.late) && Sorting.Sorted(RowLess, e.rest)
    && (forall x :: x in e.out ==> Less(x.order, lateMark) && Less(x.order, mark) && Above(x, e.rest))
    && (forall x :: x in e.late <==> x in rows && !Less(x.order, lateMark))
    && (forall x :: x in e.rest ==> x in held)
    && (forall x :: x in e.out || x in e.late || x in e.rest <==> x in held || x in rows)
  }

  lemma ConsSorted(x: OutRow, s: seq<OutRow>)
    requires Sorting.Sorted(RowLess, s) && Above(x, s)
    ensures Sorting.Sorted(RowLess, [x] + s)
  {
    Sorting.SortedCons(RowLess, x, s);
  }

  lemma EmitHead(x: OutRow, lateMark: string, mark: string, held: seq<OutRow>, rows: seq<OutRow>, e: Emission)
    requires Emits(lateMark, mark, held, rows, e)
    requires Above(x, held) && Above(x, rows) && Less(x.order, lateMark) && Less(x.order, mark)
    ensures Sorting.Sorted(RowLess, [x] + e.out)
    ensures forall y :: y in [x] + e.out ==> Less(y.order, lateMark) && Less(y.order, mark) && Above(y, e.rest)
  {
    forall y | y in e.out ensures RowLess(x, y) { assert y in e.out || y in e.late || y in e.rest; }
    ConsSorted(x, e.out);
  }

  /** Sorted in, sorted out: nothing is lost, and what is left of the held rows comes after what went out. */
  lemma {:induction false} EmittedIs(lateMark: string, mark: string, held: seq<OutRow>, rows: seq<OutRow>)
    requires Sorting.Sorted(RowLess, held) && Sorting.Sorted(RowLess, rows)
    requires forall x, y :: x in held && y in rows && Less(y.order, lateMark) ==> x.order != y.order
    requires forall y :: y in rows && Less(y.order, lateMark) ==> Less(y.order, mark)
    ensures Emits(lateMark, mark, held, rows, Emitted(lateMark, held, rows))
    decreases |held| + |rows|
  {
    if rows != [] {
      AboveTail(rows);
      var b := rows[0];
      if held != [] { AboveTail(held); }
      if !Less(b.order, lateMark) {
        EmittedIs(lateMark, mark, held, rows[1..]);
        var e := Emitted(lateMark, held, rows[1..]);
        assert Above(b, e.late);
        ConsSorted(b, e.late);
      } else if held != [] && Less(held[0].order, b.order) && Less(held[0].order, lateMark) {
        EmittedIs(lateMark, mark, held[1..], rows);
        OrderBefore(held[0], b);
        AboveLess(held[0], b, rows[1..]);
        LessTransitive(held[0].order, b.order, mark);
        EmitHead(held[0], lateMark, mark, held[1..], rows, Emitted(lateMark, held[1..], rows));
      } else {
        EmittedIs(lateMark, mark, held, rows[1..]);
        if held != [] {
          RowBeforeHeld(lateMark, b, held[0]);
          AboveLess(b, held[0], held[1..]);
        }
        EmitHead(b, lateMark, mark, held, rows[1..], Emitted(lateMark, held, rows[1..]));
      }
    }
  }

  lemma RowBeforeHeld(lateMark: string, b: OutRow, h: OutRow)
    requires Less(b.order, lateMark) && b.order != h.order
    requires !(Less(h.order, b.order) && Less(h.order, lateMark))
    ensures RowLess(b, h)
  {
    if Less(h.order, lateMark) {
      LessTotal(h.order, b.order);
      OrderBefore(b, h);
    } else {
      NotBelow(b, h, lateMark);
    }
  }

  predicate NotAfter(a: string, b: string) { a == b || Less(a, b) }

  /** Streaming one more batch: its rows are those of the groups D'. */
  lemma StreamStep(n: Names, full: State, A: set<string>, D: set<string>, D': set<string>, lateMark: string,
                   lo: string, hi: string, lateLo: string, lateHi: string,
                   rest: seq<OutRow>, out: seq<OutRow>, late: seq<OutRow>, rows: seq<OutRow>, e: Emission)
    requires Wf(full) && Streaming(n, full, A, D, lateMark, lo, lateLo, rest, out, late)
    requires Emits(lateMark, hi, rest, rows, e)
    requires forall x :: x in rows <==> x in Rows(full) && Group(n, x.trail) in D'
    requires forall y :: y in rows && Less(y.order, lateMark) ==> !Less(y.order, lo)
    requires forall y :: y in rows && !Less(y.order, lateMark) ==> !Less(y.order, lateLo) && Less(y.order, lateHi)
    requires NotAfter(lo, hi) && NotAfter(lateLo, lateHi)
    ensures Streaming(n, full, A, D + D', lateMark, hi, lateHi, e.rest, out + e.out, late + e.late)
  {
    forall x, y | x in out && y in e.out ensures RowLess(x, y) {
      assert y in rest || y in rows;
      if y !in rest { NotBelow(x, y, lo); }
    }
    forall x, y | x in late && y in e.late ensures RowLess(x, y) { NotBelow(x, y, lateLo); }
    Sorting.SortedAppend(RowLess, out, e.out);
    Sorting.SortedAppend(RowLess, late, e.late);
    forall x | x in out ensures Less(x.order, hi) { if lo != hi { LessTransitive(x.order, lo, hi); } }
    forall x | x in late ensures Less(x.order, lateHi) { if lateLo != lateHi { LessTransitive(x.order, lateLo, lateHi); } }
  }

  /** The end of the stream: late rows and remaining held rows, merged, come after everything that is out. */
  lemma StreamEnd(n: Names, full: State, A: set<string>, D: set<string>, lateMark: string, lo: string, lateLo: string,
                  rest: seq<OutRow>, out: seq<OutRow>, late: seq<OutRow>)
    requires Wf(full) && Streaming(n, full, A, D, lateMark, lo, lateLo, rest, out, late) && A !! D
    requires forall k :: k in full.store.order ==> Group(n, k) in A + D
    ensures Sorting.Sorted(RowLess, out + Sorting.Merge(RowLess, late, rest))
    ensures forall x :: x in out + Sorting.Merge(RowLess, late, rest) <==> x in Rows(full)
  {
    RowLessStrict();
    var tail := Sorting.Merge(RowLess, late, rest);
    forall x | x in late ensures x !in rest { assert Group(n, x.trail) in D; }
    Sorting.MergeSorted(RowLess, late, rest);
    forall x, y | x in out && y in tail ensures RowLess(x, y) {
      if y in late { NotBelow(x, y, lateMark); }
    }
    Sorting.SortedAppend(RowLess, out, tail);
    RowsAre(full);
  }
}
