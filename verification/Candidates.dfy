/**
 The chunked line sieve of core/httpd.py: lines of a log that can match are found by byte search a chunk at a
 time; every candidate still goes through the exact test.
 */
module Candidates {
  import opened Text
  import opened Feed
  import Sorting

  const CR: Byte := 13

  function LowerByte(b: Byte): Byte {
    if 65 <= b <= 90 then b + 32 else b
  }

  /** `bytes.lower()`, which folds ASCII only. */
  function Lower(s: seq<Byte>): (r: seq<Byte>)
    ensures |r| == |s| && forall i :: 0 <= i < |s| ==> r[i] == LowerByte(s[i])
  {
    seq(|s|, i requires 0 <= i < |s| => LowerByte(s[i]))
  }

  predicate At(s: seq<Byte>, needle: seq<Byte>, i: nat) {
    i + |needle| <= |s| && s[i..i + |needle|] == needle
  }

  predicate Holds(s: seq<Byte>, needle: seq<Byte>) {
    exists i :: 0 <= i <= |s| && At(s, needle, i)
  }

  predicate Ascii(needle: seq<Byte>) {
    forall i :: 0 <= i < |needle| ==> needle[i] < 128
  }

  /** What the exact test may rely on: a needle in the line, or with folding a byte that is not ASCII. */
  predicate Candidate(line: seq<Byte>, needles: seq<seq<Byte>>, fold: bool) {
    || (exists k :: 0 <= k < |needles| && Ascii(needles[k]) && Holds(if fold then Lower(line) else line, needles[k]))
    || (fold && !Ascii(line))
  }

  function Filter(lines: seq<seq<Byte>>, p: seq<Byte> -> bool): seq<seq<Byte>> {
    if lines == [] then [] else (if p(lines[0]) then [lines[0]] else []) + Filter(lines[1..], p)
  }

  lemma {:induction false} FilterConcat(a: seq<seq<Byte>>, b: seq<seq<Byte>>, p: seq<Byte> -> bool)
    ensures Filter(a + b, p) == Filter(a, p) + Filter(b, p)
  {
    if a == [] {
      assert a + b == b;
    } else {
      assert (a + b)[1..] == a[1..] + b;
      FilterConcat(a[1..], b, p);
    }
  }

  // ---- starts of lines

  /** Where the line of byte `at` starts. */
  function StartOf(chunk: seq<Byte>, at: nat): (s: nat)
    requires at <= |chunk|
    ensures s <= at
  {
    Whole(chunk[..at])
  }

  predicate IsStart(chunk: seq<Byte>, s: nat) {
    s < |chunk| && (s == 0 || chunk[s - 1] == NEWLINE)
  }

  lemma StartIs(chunk: seq<Byte>, at: nat)
    requires at < |chunk|
    ensures IsStart(chunk, StartOf(chunk, at))
    ensures NEWLINE !in chunk[StartOf(chunk, at)..at]
  {
    var s := StartOf(chunk, at);
    assert chunk[..at][s..] == chunk[s..at];
  }

  /** The line that starts at s. */
  function LineAt(chunk: seq<Byte>, s: nat): (line: seq<Byte>)
    requires s < |chunk|
    ensures line != []
  {
    chunk[s..][..LineEnd(chunk[s..])]
  }

  function LinesAt(chunk: seq<Byte>, order: seq<nat>): (lines: seq<seq<Byte>>)
    requires forall k :: 0 <= k < |order| ==> order[k] < |chunk|
    ensures |lines| == |order|
  {
    seq(|order|, k requires 0 <= k < |order| => LineAt(chunk, order[k]))
  }

  ghost predicate Rising(order: seq<nat>) {
    forall i, j :: 0 <= i < j < |order| ==> order[i] < order[j]
  }

  /** Picking lines by their starts, in order, loses none that p keeps. */
  lemma {:induction false} PickedFilter(chunk: seq<Byte>, off: nat, order: seq<nat>, p: seq<Byte> -> bool)
    requires off <= |chunk| && (off == |chunk| || IsStart(chunk, off))
    requires Rising(order) && forall k :: 0 <= k < |order| ==> off <= order[k] < |chunk| && IsStart(chunk, order[k])
    requires forall s :: off <= s < |chunk| && IsStart(chunk, s) && p(LineAt(chunk, s)) ==> s in order
    ensures Filter(LinesAt(chunk, order), p) == Filter(Lines(chunk[off..]), p)
    decreases |chunk| - off
  {
    hide LineEnd, Filter, Lines, IsStart, LinesAt;
    if off == |chunk| {
      NothingPicked(chunk, order, p);
    } else {
      NextStart(chunk, off);
      var next := off + |LineAt(chunk, off)|;
      FirstLine(chunk, off, p);
      if order != [] && order[0] == off {
        FirstPicked(chunk, order, p);
        forall k | 0 <= k < |order[1..]| ensures next <= order[1..][k] { assert order[1..][k] == order[k + 1] > off; }
        PickedFilter(chunk, next, order[1..], p);
      } else {
        assert off !in order;
        forall k | 0 <= k < |order| ensures next <= order[k] { }
        PickedFilter(chunk, next, order, p);
      }
    }
  }

  lemma NothingPicked(chunk: seq<Byte>, order: seq<nat>, p: seq<Byte> -> bool)
    requires order == []
    ensures Filter(LinesAt(chunk, order), p) == Filter(Lines(chunk[|chunk|..]), p)
  {
  }

  lemma FirstLine(chunk: seq<Byte>, off: nat, p: seq<Byte> -> bool)
    requires off < |chunk|
    ensures var line := LineAt(chunk, off);
      off + |line| <= |chunk| && Filter(Lines(chunk[off..]), p) == (if p(line) then [line] else []) + Filter(Lines(chunk[off + |line|..]), p)
  {
    hide LineEnd, Lines;
    var rest := chunk[off..];
    LinesCons(rest, p);
    assert rest[LineEnd(rest)..] == chunk[off + LineEnd(rest)..];
  }

  lemma LinesCons(rest: seq<Byte>, p: seq<Byte> -> bool)
    requires rest != []
    ensures var n := LineEnd(rest); Filter(Lines(rest), p) == (if p(rest[..n]) then [rest[..n]] else []) + Filter(Lines(rest[n..]), p)
  {
    hide LineEnd;
  }

  lemma FirstPicked(chunk: seq<Byte>, order: seq<nat>, p: seq<Byte> -> bool)
    requires order != [] && forall k :: 0 <= k < |order| ==> order[k] < |chunk|
    ensures var line := LineAt(chunk, order[0]);
      Filter(LinesAt(chunk, order), p) == (if p(line) then [line] else []) + Filter(LinesAt(chunk, order[1..]), p)
  {
    assert LinesAt(chunk, order)[1..] == LinesAt(chunk, order[1..]);
  }

  /** No line starts inside another. */
  lemma NextStart(chunk: seq<Byte>, off: nat)
    requires off < |chunk|
    ensures var next := off + |LineAt(chunk, off)|;
      && off < next <= |chunk| && (next == |chunk| || IsStart(chunk, next))
      && forall s :: off < s < next ==> !IsStart(chunk, s)
  {
    var n := LineEnd(chunk[off..]);
    forall s | off < s < off + n ensures !IsStart(chunk, s) {
      assert chunk[off..][..n - 1][s - 1 - off] == chunk[s - 1];
    }
    assert chunk[off..][n - 1] == chunk[off + n - 1];
  }

  // ---- the sieve over one chunk

  /** A place the sieve meets: of a needle, or with folding of a byte that is not ASCII. */
  predicate Place(chunk: seq<Byte>, needles: seq<seq<Byte>>, fold: bool, i: nat)
    requires i < |chunk|
  {
    || (exists k :: 0 <= k < |needles| && Ascii(needles[k]) && At(if fold then Lower(chunk) else chunk, needles[k], i))
    || (fold && chunk[i] >= 128)
  }

  /** The starts of the lines of all places. */
  function Starts(chunk: seq<Byte>, needles: seq<seq<Byte>>, fold: bool): set<nat> {
    set i: nat | i < |chunk| && Place(chunk, needles, fold, i) :: StartOf(chunk, i)
  }

  /** The starts cover every candidate. */
  ghost predicate Covers(chunk: seq<Byte>, needles: seq<seq<Byte>>, fold: bool, starts: set<nat>) {
    && (forall s :: s in starts ==> IsStart(chunk, s))
    && (forall s :: 0 <= s < |chunk| && IsStart(chunk, s) && Candidate(LineAt(chunk, s), needles, fold) ==> s in starts)
  }

  /** `hay.find(needle, from)` */
  function FindFrom(hay: seq<Byte>, needle: seq<Byte>, from: nat): (r: Option<nat>)
    ensures r.Some? ==> from <= r.value && At(hay, needle, r.value)
    ensures r.Some? ==> forall i :: from <= i < r.value ==> !At(hay, needle, i)
    ensures r.None? ==> forall i :: from <= i ==> !At(hay, needle, i)
    decreases |hay| + 1 - from
  {
    if from + |needle| > |hay| then None
    else if At(hay, needle, from) then Some(from)
    else FindFrom(hay, needle, from + 1)
  }

  /** All places of one needle, each giving the start of its line. */
  method SieveNeedle(chunk: seq<Byte>, hay: seq<Byte>, needle: seq<Byte>, before: set<nat>) returns (starts: set<nat>)
    requires |hay| == |chunk| && needle != []
    ensures starts == before + set i: nat | i < |chunk| && At(hay, needle, i) :: StartOf(chunk, i)
  {
    hide StartOf, FindFrom;
    starts := before;
    var at := FindFrom(hay, needle, 0);
    ghost var done: nat := 0;
    while at.Some?
      invariant at == FindFrom(hay, needle, done) && done <= |hay| + 1
      invariant starts == before + set i: nat | i < |chunk| && i < done && At(hay, needle, i) :: StartOf(chunk, i)
      decreases |hay| + 1 - done
    {
      starts := starts + {StartOf(chunk, at.value)};
      done := at.value + 1;
      at := FindFrom(hay, needle, at.value + 1);
    }
  }

  method SieveNonAscii(chunk: seq<Byte>, before: set<nat>) returns (starts: set<nat>)
    ensures starts == before + set i: nat | i < |chunk| && chunk[i] >= 128 :: StartOf(chunk, i)
  {
    hide StartOf;
    starts := before;
    for i := 0 to |chunk|
      invariant starts == before + set k: nat | k < i && chunk[k] >= 128 :: StartOf(chunk, k)
    {
      if chunk[i] >= 128 {
        starts := starts + {StartOf(chunk, i)};
      }
    }
  }

  method Sieve(chunk: seq<Byte>, needles: seq<seq<Byte>>, fold: bool) returns (starts: set<nat>)
    requires forall k :: 0 <= k < |needles| ==> needles[k] != []
    ensures starts == Starts(chunk, needles, fold) && Covers(chunk, needles, fold, starts)
  {
    hide StartOf, Candidate, Covers, At;
    starts := {};
    var hay := if fold then Lower(chunk) else chunk;
    for k := 0 to |needles|
      invariant starts == set i: nat | i < |chunk| && Met(hay, needles, k, i) :: StartOf(chunk, i)
    {
      if Ascii(needles[k]) {
        starts := SieveNeedle(chunk, hay, needles[k], starts);
      }
    }
    if fold {
      starts := SieveNonAscii(chunk, starts);
    }
    StartsCover(chunk, needles, fold);
  }

  /** A place of one of the first n needles. */
  ghost predicate Met(hay: seq<Byte>, needles: seq<seq<Byte>>, n: nat, i: nat) {
    exists k :: 0 <= k < n && k < |needles| && Ascii(needles[k]) && At(hay, needles[k], i)
  }

  lemma StartsCover(chunk: seq<Byte>, needles: seq<seq<Byte>>, fold: bool)
    requires forall k :: 0 <= k < |needles| ==> needles[k] != []
    ensures Covers(chunk, needles, fold, Starts(chunk, needles, fold))
  {
    hide StartOf, Candidate, Place, IsStart;
    var starts := Starts(chunk, needles, fold);
    forall s | s in starts ensures IsStart(chunk, s) {
      var i: nat :| i < |chunk| && Place(chunk, needles, fold, i) && StartOf(chunk, i) == s;
      StartIs(chunk, i);
    }
    forall s | 0 <= s < |chunk| && IsStart(chunk, s) && Candidate(LineAt(chunk, s), needles, fold) ensures s in starts {
      var i := Witness(chunk, needles, fold, s);
    }
  }

  /** A candidate line holds a place the sieve meets, and the line of that place is the line itself. */
  lemma Witness(chunk: seq<Byte>, needles: seq<seq<Byte>>, fold: bool, s: nat) returns (i: nat)
    requires s < |chunk| && IsStart(chunk, s) && Candidate(LineAt(chunk, s), needles, fold)
    requires forall k :: 0 <= k < |needles| ==> needles[k] != []
    ensures i < |chunk| && StartOf(chunk, i) == s && Place(chunk, needles, fold, i)
  {
    hide LineEnd, StartOf, Lower, LineAt, IsStart, At, Ascii, Holds;
    var line := LineAt(chunk, s);
    if k :| 0 <= k < |needles| && Ascii(needles[k]) && Holds(if fold then Lower(line) else line, needles[k]) {
      i := NeedleIn(chunk, needles[k], fold, s);
      assert At(if fold then Lower(chunk) else chunk, needles[k], i);
    } else {
      i := ByteIn(chunk, s);
    }
    InLine(chunk, s, i);
  }

  lemma LineIs(chunk: seq<Byte>, s: nat)
    requires s < |chunk|
    ensures s + |LineAt(chunk, s)| <= |chunk| && LineAt(chunk, s) == chunk[s..s + |LineAt(chunk, s)|]
  {
    hide LineEnd;
  }

  lemma ByteIn(chunk: seq<Byte>, s: nat) returns (i: nat)
    requires s < |chunk| && !Ascii(LineAt(chunk, s))
    ensures s <= i < s + |LineAt(chunk, s)| && i < |chunk| && chunk[i] >= 128
  {
    hide LineAt;
    LineIs(chunk, s);
    var line := LineAt(chunk, s);
    var k :| 0 <= k < |line| && line[k] >= 128;
    i := s + k;
  }

  lemma NeedleIn(chunk: seq<Byte>, needle: seq<Byte>, fold: bool, s: nat) returns (i: nat)
    requires s < |chunk| && needle != [] && Holds(if fold then Lower(LineAt(chunk, s)) else LineAt(chunk, s), needle)
    ensures s <= i < s + |LineAt(chunk, s)| && At(if fold then Lower(chunk) else chunk, needle, i)
  {
    hide LineAt, Lower;
    LineIs(chunk, s);
    var line := LineAt(chunk, s);
    var part := if fold then Lower(line) else line;
    var at :| 0 <= at <= |part| && At(part, needle, at);
    i := s + at;
    if fold { LowerSlice(chunk, s, s + |line|); }
    AtShifts(if fold then Lower(chunk) else chunk, part, needle, s, at);
  }

  lemma AtShifts(hay: seq<Byte>, part: seq<Byte>, needle: seq<Byte>, s: nat, at: nat)
    requires s + |part| <= |hay| && part == hay[s..s + |part|] && At(part, needle, at)
    ensures At(hay, needle, s + at)
  {
    SliceOfSlice(hay, s, |part|, at, |needle|);
  }

  lemma SliceOfSlice(hay: seq<Byte>, s: nat, n: nat, at: nat, m: nat)
    requires s + n <= |hay| && at + m <= n
    ensures hay[s..s + n][at..at + m] == hay[s + at..s + at + m]
  {
    var a, b := hay[s..s + n][at..at + m], hay[s + at..s + at + m];
    forall k | 0 <= k < m ensures a[k] == b[k] { assert a[k] == hay[s..s + n][at + k] == hay[s + (at + k)] == b[k]; }
  }

  lemma LowerSlice(s: seq<Byte>, i: nat, j: nat)
    requires i <= j <= |s|
    ensures Lower(s)[i..j] == Lower(s[i..j])
  {
  }

  lemma InLine(chunk: seq<Byte>, s: nat, i: nat)
    requires s < |chunk| && IsStart(chunk, s) && s <= i < s + |LineAt(chunk, s)|
    ensures i < |chunk| && StartOf(chunk, i) == s
  {
    var n := LineEnd(chunk[s..]);
    forall k | s <= k < i ensures chunk[k] != NEWLINE { assert chunk[s..][..n - 1][k - s] == chunk[k]; }
    assert NEWLINE !in chunk[..i][s..];
    WholeUnique(chunk[..i], s);
  }

  // ---- what a reader of chunks is given

  predicate Below(a: nat, b: nat) { a < b }

  /** The members below n, in order. */
  function Listed(s: set<nat>, n: nat): (order: seq<nat>)
    ensures Rising(order) && forall x :: x in order <==> x in s && x < n
    ensures forall k :: 0 <= k < |order| ==> order[k] < n
  {
    if n == 0 then []
    else
      var less := Listed(s, n - 1);
      if n - 1 in s then less + [n - 1] else less
  }

  function Newlines(chunk: seq<Byte>): nat {
    if chunk == [] then 0 else Newlines(chunk[..|chunk| - 1]) + if chunk[|chunk| - 1] == NEWLINE then 1 else 0
  }

  /** `chunk.splitlines(True)`, which breaks lines at carriage returns too. */
  function SplitLines(chunk: seq<Byte>): (lines: seq<seq<Byte>>)
    decreases |chunk|
  {
    if chunk == [] then [] else var n := BreakEnd(chunk); [chunk[..n]] + SplitLines(chunk[n..])
  }

  function BreakEnd(chunk: seq<Byte>): (n: nat)
    requires chunk != []
    ensures 0 < n <= |chunk|
    ensures Paired(chunk[..n])
  {
    if chunk[0] == NEWLINE || |chunk| == 1 then 1
    else if chunk[0] == CR then (if chunk[1] == NEWLINE then 2 else 1)
    else
      var n := BreakEnd(chunk[1..]);
      PairedCons(chunk, n);
      1 + n
  }

  /** No carriage return but at the end or before a newline. */
  predicate Paired(text: seq<Byte>) {
    forall i :: 0 <= i < |text| && text[i] == CR ==> i + 1 == |text| || text[i + 1] == NEWLINE
  }

  lemma PairedCons(text: seq<Byte>, n: nat)
    requires n < |text| && text[0] != CR && Paired(text[1..][..n])
    ensures Paired(text[..1 + n])
  {
    forall i | 0 <= i < 1 + n && text[i] == CR ensures i == n || text[i + 1] == NEWLINE {
      assert text[1..][..n][i - 1] == CR;
      if i < n { assert text[1..][..n][i] == text[i + 1]; }
    }
  }

  /** The lines read from one chunk: candidates, or every line once the sieve is off. */
  function Shown(chunk: seq<Byte>, needles: seq<seq<Byte>>, fold: bool, sieve: bool): seq<seq<Byte>> {
    if sieve then
      StartsInside(chunk, needles, fold);
      LinesAt(chunk, Listed(Starts(chunk, needles, fold), |chunk|))
    else SplitLines(chunk)
  }

  /** Whether the sieve stays on after a chunk. */
  predicate Keeps(chunk: seq<Byte>, needles: seq<seq<Byte>>, fold: bool, sieve: bool) {
    sieve && (fold || |Starts(chunk, needles, fold)| * 2 <= Newlines(chunk))
  }

  /** The chunks that blocks are read in: whole lines as soon as there is one, and what is left at the end. */
  function Chunks(blocks: seq<seq<Byte>>, pending: seq<Byte>): seq<seq<Byte>> {
    if blocks == [] then (if pending == [] then [] else [pending])
    else
      var chunk := pending + blocks[0];
      var cut := Whole(chunk);
      if cut == 0 then Chunks(blocks[1..], chunk) else [chunk[..cut]] + Chunks(blocks[1..], chunk[cut..])
  }

  function Reading(chunks: seq<seq<Byte>>, needles: seq<seq<Byte>>, fold: bool, sieve: bool): seq<seq<Byte>> {
    if chunks == [] then []
    else Shown(chunks[0], needles, fold, sieve) + Reading(chunks[1..], needles, fold, Keeps(chunks[0], needles, fold, sieve))
  }

  /** Once the sieve is off, no line that can match has a carriage return of its own. */
  predicate Exact(chunks: seq<seq<Byte>>, needles: seq<seq<Byte>>, fold: bool, sieve: bool) {
    if chunks == [] then true
    else (sieve || CleanHits(chunks[0], needles, fold)) && Exact(chunks[1..], needles, fold, Keeps(chunks[0], needles, fold, sieve))
  }

  predicate CleanHits(chunk: seq<Byte>, needles: seq<seq<Byte>>, fold: bool) {
    forall line :: line in Lines(chunk) && Candidate(line, needles, fold) ==> Paired(line)
  }

  lemma StartsInside(chunk: seq<Byte>, needles: seq<seq<Byte>>, fold: bool)
    ensures forall s :: s in Starts(chunk, needles, fold) ==> s < |chunk|
  {
    hide StartOf, Place;
  }

  // ---- splitting at carriage returns

  /** Splitting at carriage returns too gives the lines exactly if every carriage return belongs to a line end. */
  lemma SplitIsLines(chunk: seq<Byte>)
    ensures SplitLines(chunk) == Lines(chunk) <==> Paired(chunk)
  {
    if Paired(chunk) {
      PairedSplit(chunk);
    } else if SplitLines(chunk) == Lines(chunk) {
      PiecesPaired(chunk);
      PairedLines(chunk);
    }
  }

  lemma {:induction false} PairedSplit(chunk: seq<Byte>)
    requires Paired(chunk)
    ensures SplitLines(chunk) == Lines(chunk)
    decreases |chunk|
  {
    hide Paired;
    if chunk != [] {
      BreakIsLine(chunk);
      PairedParts(chunk, LineEnd(chunk));
      PairedSplit(chunk[LineEnd(chunk)..]);
    }
  }

  lemma {:induction false} BreakIsLine(chunk: seq<Byte>)
    requires chunk != [] && Paired(chunk)
    ensures BreakEnd(chunk) == LineEnd(chunk)
  {
    if chunk[0] != NEWLINE && |chunk| > 1 {
      PairedParts(chunk, 1);
      BreakIsLine(chunk[1..]);
    }
  }

  lemma PairedParts(text: seq<Byte>, n: nat)
    requires n <= |text| && Paired(text)
    ensures Paired(text[..n]) && Paired(text[n..])
  {
    forall i | 0 <= i < |text[n..]| && text[n..][i] == CR ensures i + 1 == |text[n..]| || text[n..][i + 1] == NEWLINE {
      assert text[n + i] == CR;
    }
  }

  lemma {:induction false} PiecesPaired(chunk: seq<Byte>)
    ensures forall x :: x in SplitLines(chunk) ==> Paired(x)
    decreases |chunk|
  {
    hide Paired, BreakEnd;
    if chunk != [] { PiecesPaired(chunk[BreakEnd(chunk)..]); }
  }

  /** Paired lines make a paired text: one after the other, each ends in a newline. */
  lemma {:induction false} PairedLines(chunk: seq<Byte>)
    requires forall x :: x in Lines(chunk) ==> Paired(x)
    ensures Paired(chunk)
    decreases |chunk|
  {
    if chunk != [] {
      var n := LineEnd(chunk);
      var rest := chunk[n..];
      assert Lines(chunk) == [chunk[..n]] + Lines(rest);
      assert Paired(chunk[..n]);
      PairedLines(rest);
      forall i | 0 <= i < |chunk| && chunk[i] == CR ensures i + 1 == |chunk| || chunk[i + 1] == NEWLINE {
        if i < n { assert chunk[..n][i] == CR; } else { assert rest[i - n] == CR; }
      }
    }
  }

  /** Splitting whole lines and what follows. */
  lemma {:induction false} SplitConcat(a: seq<Byte>, b: seq<Byte>)
    requires a == [] || a[|a| - 1] == NEWLINE
    ensures SplitLines(a + b) == SplitLines(a) + SplitLines(b)
    decreases |a|
  {
    hide BreakEnd;
    if a == [] {
      assert a + b == b;
    } else {
      var n := BreakEnd(a);
      BreakEndPrefix(a, b);
      assert (a + b)[..n] == a[..n] && (a + b)[n..] == a[n..] + b;
      if n < |a| { assert a[n..][|a| - n - 1] == NEWLINE; }
      SplitConcat(a[n..], b);
    }
  }

  lemma {:induction false} BreakEndPrefix(a: seq<Byte>, b: seq<Byte>)
    requires a != [] && a[|a| - 1] == NEWLINE
    ensures BreakEnd(a + b) == BreakEnd(a)
    decreases |a|
  {
    if a[0] != NEWLINE && a[0] != CR {
      assert (a + b)[1..] == a[1..] + b;
      BreakEndPrefix(a[1..], b);
    }
  }

  /** A part of a line holds no needle the line does not hold. */
  lemma PartCandidate(text: seq<Byte>, i: nat, j: nat, needles: seq<seq<Byte>>, fold: bool)
    requires i <= j <= |text| && Candidate(text[i..j], needles, fold)
    ensures Candidate(text, needles, fold)
  {
    hide At, Lower;
    var part := text[i..j];
    if k :| 0 <= k < |needles| && Ascii(needles[k]) && Holds(if fold then Lower(part) else part, needles[k]) {
      var hay := if fold then Lower(part) else part;
      var at :| 0 <= at <= |hay| && At(hay, needles[k], at);
      if fold { LowerSlice(text, i, j); }
      AtShifts(if fold then Lower(text) else text, hay, needles[k], i, at);
      assert Holds(if fold then Lower(text) else text, needles[k]);
    } else {
      var k :| 0 <= k < |part| && part[k] >= 128;
      assert text[i + k] >= 128;
    }
  }

  lemma {:induction false} PiecesCandidate(text: seq<Byte>, needles: seq<seq<Byte>>, fold: bool)
    ensures forall x :: x in SplitLines(text) && Candidate(x, needles, fold) ==> Candidate(text, needles, fold)
    decreases |text|
  {
    hide Candidate, BreakEnd;
    if text != [] {
      var n := BreakEnd(text);
      PiecesCandidate(text[n..], needles, fold);
      if Candidate(text[..n], needles, fold) { assert text[0..n] == text[..n]; PartCandidate(text, 0, n, needles, fold); }
      if Candidate(text[n..], needles, fold) { assert text[n..|text|] == text[n..]; PartCandidate(text, n, |text|, needles, fold); }
    }
  }

  lemma {:induction false} FilterNone(lines: seq<seq<Byte>>, p: seq<Byte> -> bool)
    ensures Filter(lines, p) == [] <==> forall x :: x in lines ==> !p(x)
  {
    if lines != [] { FilterNone(lines[1..], p); }
  }

  /** A chunk read without the sieve gives a filter its lines, if the lines that can match are clean. */
  lemma {:induction false} PlainChunk(chunk: seq<Byte>, needles: seq<seq<Byte>>, fold: bool, p: seq<Byte> -> bool)
    requires forall line :: p(line) ==> Candidate(line, needles, fold)
    requires CleanHits(chunk, needles, fold)
    ensures Filter(SplitLines(chunk), p) == Filter(Lines(chunk), p)
    decreases |chunk|
  {
    hide Candidate, Filter, Paired, LineEnd, BreakEnd;
    if chunk != [] {
      var n := LineEnd(chunk);
      var line, rest := chunk[..n], chunk[n..];
      assert Lines(chunk) == [line] + Lines(rest);
      PlainChunk(rest, needles, fold, p);
      assert chunk == line + rest;
      if rest != [] { assert chunk[n - 1] == NEWLINE; }
      SplitRest(line, rest);
      FilterConcat(SplitLines(line), SplitLines(rest), p);
      FilterConcat([line], Lines(rest), p);
      PlainLine(line, needles, fold, p);
    }
  }

  lemma SplitRest(line: seq<Byte>, rest: seq<Byte>)
    requires line != [] && (rest == [] || line[|line| - 1] == NEWLINE)
    ensures SplitLines(line + rest) == SplitLines(line) + SplitLines(rest)
  {
    hide BreakEnd;
    if rest == [] { assert line + rest == line; } else { SplitConcat(line, rest); }
  }

  lemma PlainLine(line: seq<Byte>, needles: seq<seq<Byte>>, fold: bool, p: seq<Byte> -> bool)
    requires line != [] && LineEnd(line) == |line|
    requires forall x :: p(x) ==> Candidate(x, needles, fold)
    requires Candidate(line, needles, fold) ==> Paired(line)
    ensures Filter(SplitLines(line), p) == Filter([line], p)
  {
    hide Candidate, Paired, LineEnd, SplitLines;
    if Candidate(line, needles, fold) {
      PairedSplit(line);
      OneLine(line);
    } else {
      PiecesCandidate(line, needles, fold);
      FilterNone(SplitLines(line), p);
      FilterNone([line], p);
    }
  }

  lemma OneLine(line: seq<Byte>)
    requires line != [] && LineEnd(line) == |line|
    ensures Lines(line) == [line]
  {
    assert line[..|line|] == line && line[|line|..] == [] && Lines([]) == [];
  }

  // ---- the whole file

  /** `sorted(starts)` */
  method Sorted(starts: set<nat>, ghost n: nat) returns (order: seq<nat>)
    requires forall s :: s in starts ==> s < n
    ensures order == Listed(starts, n)
  {
    order := [];
    var left := starts;
    while left != {}
      invariant left <= starts && Rising(order)
      invariant forall s :: s in order <==> s in starts - left
      invariant forall s, t :: s in order && t in left ==> s < t
      decreases |left|
    {
      var least := Least(left);
      assert forall k :: 0 <= k < |order| ==> order[k] in order;
      order := order + [least];
      left := left - {least};
    }
    Sorting.SortedUnique(Below, order, Listed(starts, n));
  }

  method Least(s: set<nat>) returns (m: nat)
    requires s != {}
    ensures m in s && forall x :: x in s ==> m <= x
  {
    m :| m in s;
    var left := s - {m};
    while left != {}
      invariant left <= s && m in s && forall y :: y in s && y !in left ==> m <= y
      decreases |left|
    {
      var x :| x in left;
      if x < m { m := x; }
      left := left - {x};
    }
  }

  /** One chunk of whole lines, or the last line: candidates, or every line once the sieve is off. */
  method Yield(chunk: seq<Byte>, needles: seq<seq<Byte>>, fold: bool, sieve: bool) returns (out: seq<seq<Byte>>, keep: bool)
    requires forall k :: 0 <= k < |needles| ==> needles[k] != []
    ensures out == Shown(chunk, needles, fold, sieve) && keep == Keeps(chunk, needles, fold, sieve)
  {
    hide Candidate, Lines, Starts, SplitLines, Covers;
    if !sieve {
      return SplitLines(chunk), false;
    }
    StartsInside(chunk, needles, fold);
    var starts := Sieve(chunk, needles, fold);
    var order := Sorted(starts, |chunk|);
    out := [];
    for k := 0 to |order|
      invariant forall i :: 0 <= i < |order| ==> order[i] < |chunk|
      invariant out == LinesAt(chunk, order)[..k]
    {
      out := out + [LineAt(chunk, order[k])];
    }
    assert LinesAt(chunk, order)[..|order|] == LinesAt(chunk, order);
    keep := fold || |starts| * 2 <= Newlines(chunk);
  }

  /** Reading a log by any blocks gives the lines of its chunks, sieved until a chunk turns the sieve off. */
  method Candidates(blocks: seq<seq<Byte>>, needles: seq<seq<Byte>>, fold: bool) returns (out: seq<seq<Byte>>)
    requires forall k :: 0 <= k < |blocks| ==> blocks[k] != []
    requires forall k :: 0 <= k < |needles| ==> needles[k] != []
    ensures out == Reading(Chunks(blocks, []), needles, fold, true)
  {
    hide Shown, Keeps, Whole;
    out := [];
    var pending, sieve := [], true;
    var i := 0;
    assert blocks[0..] == blocks;
    while i < |blocks|
      invariant 0 <= i <= |blocks|
      invariant out + Reading(Chunks(blocks[i..], pending), needles, fold, sieve) == Reading(Chunks(blocks, []), needles, fold, true)
    {
      var chunk := pending + blocks[i];
      assert blocks[i..][1..] == blocks[i + 1..];
      var cut := Whole(chunk);
      i := i + 1;
      if cut == 0 {
        pending := chunk;
        continue;
      }
      pending := chunk[cut..];
      var more, keep := Yield(chunk[..cut], needles, fold, sieve);
      sieve := keep;
      out := out + more;
    }
    if pending != [] {
      var more, keep := Yield(pending, needles, fold, sieve);
      out := out + more;
    }
  }

  /** The lines of chunks, one after the other. */
  function AllLines(chunks: seq<seq<Byte>>): seq<seq<Byte>> {
    if chunks == [] then [] else Lines(chunks[0]) + AllLines(chunks[1..])
  }

  /** No line straddles two chunks: their lines are those of the file. */
  lemma {:induction false} ChunkLines(blocks: seq<seq<Byte>>, pending: seq<Byte>)
    ensures AllLines(Chunks(blocks, pending)) == Lines(pending + Concat(blocks))
    decreases |blocks|
  {
    hide Lines, Whole;
    if blocks == [] {
      assert pending + Concat(blocks) == pending;
      if pending == [] { LinesNone(); }
    } else {
      var chunk, rest := pending + blocks[0], blocks[1..];
      ConcatCons(blocks);
      assert pending + Concat(blocks) == chunk + Concat(rest);
      var cut := Whole(chunk);
      if cut == 0 {
        ChunkLines(rest, chunk);
      } else {
        ChunkLines(rest, chunk[cut..]);
        assert chunk + Concat(rest) == chunk[..cut] + (chunk[cut..] + Concat(rest));
        LinesConcat(chunk[..cut], chunk[cut..] + Concat(rest));
      }
    }
  }

  lemma LinesNone()
    ensures Lines([]) == []
  {
  }

  lemma Regroup<T>(a: seq<T>, b: seq<T>, c: seq<T>)
    ensures (a + b) + c == a + (b + c)
  {
  }

  lemma {:induction false} ConcatCons(parts: seq<seq<Byte>>)
    requires parts != []
    ensures Concat(parts) == parts[0] + Concat(parts[1..])
  {
    var front, last := parts[..|parts| - 1], parts[|parts| - 1];
    if front != [] {
      ConcatCons(front);
      assert parts[1..] == front[1..] + [last];
      ConcatPush(front[1..], last);
      Regroup(parts[0], Concat(front[1..]), last);
    }
  }

  /** One chunk, filtered by a test that implies a needle. */
  lemma ShownKeeps(chunk: seq<Byte>, needles: seq<seq<Byte>>, fold: bool, sieve: bool, p: seq<Byte> -> bool)
    requires forall k :: 0 <= k < |needles| ==> needles[k] != []
    requires forall line :: p(line) ==> Candidate(line, needles, fold)
    requires sieve || CleanHits(chunk, needles, fold)
    ensures Filter(Shown(chunk, needles, fold, sieve), p) == Filter(Lines(chunk), p)
  {
    hide Candidate, Filter, Lines, Starts, SplitLines, CleanHits, LinesAt;
    if sieve {
      StartsInside(chunk, needles, fold);
      StartsCover(chunk, needles, fold);
      var order := Listed(Starts(chunk, needles, fold), |chunk|);
      forall k | 0 <= k < |order| ensures 0 <= order[k] < |chunk| && IsStart(chunk, order[k]) { assert order[k] in order; }
      PickedFilter(chunk, 0, order, p);
      assert chunk[0..] == chunk;
    } else {
      PlainChunk(chunk, needles, fold, p);
    }
  }

  lemma {:induction false} ReadingKeeps(chunks: seq<seq<Byte>>, needles: seq<seq<Byte>>, fold: bool, sieve: bool, p: seq<Byte> -> bool)
    requires forall k :: 0 <= k < |needles| ==> needles[k] != []
    requires forall line :: p(line) ==> Candidate(line, needles, fold)
    requires Exact(chunks, needles, fold, sieve)
    ensures Filter(Reading(chunks, needles, fold, sieve), p) == Filter(AllLines(chunks), p)
  {
    hide Candidate, Filter, Lines, Shown, Keeps, CleanHits;
    if chunks != [] {
      var chunk, rest, keep := chunks[0], chunks[1..], Keeps(chunks[0], needles, fold, sieve);
      ShownKeeps(chunk, needles, fold, sieve, p);
      ReadingKeeps(rest, needles, fold, keep, p);
      FilterConcat(Shown(chunk, needles, fold, sieve), Reading(rest, needles, fold, keep), p);
      FilterConcat(Lines(chunk), AllLines(rest), p);
    }
  }

  /** A line that can match and has a carriage return of its own. */
  predicate Torn(line: seq<Byte>, needles: seq<seq<Byte>>, fold: bool) {
    Candidate(line, needles, fold) && !Paired(line)
  }

  /** Such a line of a chunk read without the sieve never comes out whole. */
  lemma {:induction false} TornLost(chunks: seq<seq<Byte>>, needles: seq<seq<Byte>>, fold: bool, sieve: bool)
    requires forall k :: 0 <= k < |needles| ==> needles[k] != []
    ensures var q := line => Torn(line, needles, fold);
      var (read, all) := (|Filter(Reading(chunks, needles, fold, sieve), q)|, |Filter(AllLines(chunks), q)|);
      read <= all && (Exact(chunks, needles, fold, sieve) || read < all)
  {
    hide Candidate, Filter, Lines, Shown, Keeps, CleanHits, Paired;
    if chunks != [] {
      var q := line => Torn(line, needles, fold);
      var chunk, rest, keep := chunks[0], chunks[1..], Keeps(chunks[0], needles, fold, sieve);
      TornLost(rest, needles, fold, keep);
      FilterConcat(Shown(chunk, needles, fold, sieve), Reading(rest, needles, fold, keep), q);
      FilterConcat(Lines(chunk), AllLines(rest), q);
      if sieve { ShownKeeps(chunk, needles, fold, sieve, q); } else { TornChunk(chunk, needles, fold); }
    }
  }

  lemma TornChunk(chunk: seq<Byte>, needles: seq<seq<Byte>>, fold: bool)
    ensures var q := line => Torn(line, needles, fold);
      Filter(Shown(chunk, needles, fold, false), q) == [] && (Filter(Lines(chunk), q) == [] <==> CleanHits(chunk, needles, fold))
  {
    hide Candidate, Filter, Lines, SplitLines, Paired;
    var q := line => Torn(line, needles, fold);
    PiecesPaired(chunk);
    FilterNone(SplitLines(chunk), q);
    FilterNone(Lines(chunk), q);
  }

  lemma {:induction false} FilterTwice(lines: seq<seq<Byte>>, p: seq<Byte> -> bool, q: seq<Byte> -> bool)
    requires forall line :: q(line) ==> p(line)
    ensures Filter(Filter(lines, p), q) == Filter(lines, q)
  {
    if lines != [] {
      FilterTwice(lines[1..], p, q);
      if p(lines[0]) {
        assert Filter(lines, p) == [lines[0]] + Filter(lines[1..], p);
        FilterConcat([lines[0]], Filter(lines[1..], p), q);
        FilterConcat([lines[0]], lines[1..], q);
        assert [lines[0]] + lines[1..] == lines;
      } else {
        assert Filter(lines, p) == Filter(lines[1..], p) && Filter(lines, q) == Filter(lines[1..], q);
      }
    }
  }

  /**
   Filtering what is read by any test that implies a needle gives the lines, in their order, that filtering the
   whole log gives, if no line that can match has a carriage return of its own once the sieve is off; and only
   then for the test that is the needle itself.
   */
  lemma ExactlyWhenClean(blocks: seq<seq<Byte>>, needles: seq<seq<Byte>>, fold: bool, p: seq<Byte> -> bool)
    requires forall k :: 0 <= k < |needles| ==> needles[k] != []
    requires forall line :: p(line) ==> Candidate(line, needles, fold)
    ensures var (chunks, any) := (Chunks(blocks, []), line => Candidate(line, needles, fold));
      var read := Reading(chunks, needles, fold, true);
      && (Exact(chunks, needles, fold, true) ==> Filter(read, p) == Filter(Lines(Concat(blocks)), p))
      && (Exact(chunks, needles, fold, true) <==> Filter(read, any) == Filter(Lines(Concat(blocks)), any))
  {
    hide Candidate, Filter, Lines, Reading, Exact, Paired;
    var chunks, any, torn := Chunks(blocks, []), line => Candidate(line, needles, fold), line => Torn(line, needles, fold);
    var read := Reading(chunks, needles, fold, true);
    ChunkLines(blocks, []);
    assert [] + Concat(blocks) == Concat(blocks);
    if Exact(chunks, needles, fold, true) {
      ReadingKeeps(chunks, needles, fold, true, p);
      ReadingKeeps(chunks, needles, fold, true, any);
    } else {
      TornLost(chunks, needles, fold, true);
      FilterTwice(read, any, torn);
      FilterTwice(AllLines(chunks), any, torn);
    }
  }

  /** Folding, and a log whose carriage returns all belong to line ends, are read exactly. */
  lemma {:induction false} OftenExact(blocks: seq<seq<Byte>>, pending: seq<Byte>, needles: seq<seq<Byte>>, fold: bool, sieve: bool)
    requires (fold && sieve) || Paired(pending + Concat(blocks))
    ensures Exact(Chunks(blocks, pending), needles, fold, sieve)
    decreases |blocks|
  {
    hide Lines, Whole, Paired, Starts, CleanHits;
    if blocks == [] {
      assert pending + Concat(blocks) == pending;
      if Paired(pending) { PairedClean(pending, needles, fold); }
    } else {
      var chunk, rest := pending + blocks[0], blocks[1..];
      ConcatCons(blocks);
      var all := chunk + Concat(rest);
      assert pending + Concat(blocks) == all;
      var cut := Whole(chunk);
      if cut == 0 {
        OftenExact(rest, chunk, needles, fold, sieve);
      } else {
        assert all[..cut] == chunk[..cut] && all[cut..] == chunk[cut..] + Concat(rest);
        if Paired(all) {
          PairedParts(all, cut);
          PairedClean(chunk[..cut], needles, fold);
        }
        OftenExact(rest, chunk[cut..], needles, fold, Keeps(chunk[..cut], needles, fold, sieve));
      }
    }
  }

  lemma PairedClean(chunk: seq<Byte>, needles: seq<seq<Byte>>, fold: bool)
    requires Paired(chunk)
    ensures CleanHits(chunk, needles, fold)
  {
    hide Paired, Candidate, Lines;
    PairedSplit(chunk);
    PiecesPaired(chunk);
  }

  // ---- a log that is not read exactly

  const NEEDLE: seq<Byte> := [110]
  const TORN_LINE: seq<Byte> := [65, 13, 110, 10]

  function Ns(k: nat): seq<Byte> { seq(k, i => 110) }

  /** A log of a matching line, which turns the sieve off, and of one with a carriage return inside. */
  function TwoBlocks(k: nat): seq<seq<Byte>> { [Ns(k) + [10], TORN_LINE] }

  /**
   The line "A CR n" of the second block is read as two lines, the second of which matches alone. With
   k = 1024 * 1024 - 1 the first block is a whole one, as the program reads them, and the second the end of the log.
   */
  lemma ReturnsTearLines(k: nat)
    requires k > 0
    ensures var (blocks, any) := (TwoBlocks(k), line => Candidate(line, [NEEDLE], false));
      && |blocks[0]| == k + 1
      && Filter(Reading(Chunks(blocks, []), [NEEDLE], false, true), any) != Filter(Lines(Concat(blocks)), any)
  {
    hide Reading, Filter, Lines, Candidate, Ns;
    var blocks := TwoBlocks(k);
    TwoChunks(Ns(k) + [10]);
    TurnsOff(k);
    TornLine();
    assert Chunks(blocks, [])[1..] == [TORN_LINE];
    ExactlyWhenClean(blocks, [NEEDLE], false, line => Candidate(line, [NEEDLE], false));
  }

  lemma TwoChunks(first: seq<Byte>)
    requires first != [] && first[|first| - 1] == NEWLINE
    ensures Chunks([first, TORN_LINE], []) == [first, TORN_LINE]
  {
    assert [] + first == first && first[..|first|] == first && first[|first|..] == [];
    assert [] + TORN_LINE == TORN_LINE && TORN_LINE[..4] == TORN_LINE && TORN_LINE[4..] == [];
    assert [first, TORN_LINE][1..] == [TORN_LINE] && [TORN_LINE][1..] == [];
    assert Whole(first) == |first| && Whole(TORN_LINE) == 4;
    assert Chunks([TORN_LINE], []) == [TORN_LINE];
  }

  lemma {:induction false} NoNewlines(k: nat)
    ensures Newlines(Ns(k)) == 0
  {
    if k > 0 {
      NoNewlines(k - 1);
      assert Ns(k)[..k - 1] == Ns(k - 1);
    }
  }

  lemma TurnsOff(k: nat)
    requires k > 0
    ensures |Ns(k)| == k && !Keeps(Ns(k) + [10], [NEEDLE], false, true)
  {
    var block := Ns(k) + [10];
    NoNewlines(k);
    assert block[..k] == Ns(k);
    assert block[0..1] == NEEDLE;
    assert At(block, NEEDLE, 0) && Ascii([NEEDLE][0]) && Place(block, [NEEDLE], false, 0);
    assert StartOf(block, 0) in Starts(block, [NEEDLE], false);
    assert |Starts(block, [NEEDLE], false)| > 0;
  }

  lemma TornLine()
    ensures !CleanHits(TORN_LINE, [NEEDLE], false)
  {
    assert TORN_LINE[1..][1..][1..] == [10];
    assert LineEnd(TORN_LINE) == 4;
    OneLine(TORN_LINE);
    assert TORN_LINE[1] == CR && !Paired(TORN_LINE);
    assert At(TORN_LINE, [NEEDLE][0], 2) && Holds(TORN_LINE, [NEEDLE][0]) && Ascii([NEEDLE][0]);
  }
}
