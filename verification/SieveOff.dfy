/**
 When the line sieve of core/httpd.py turns itself off: by the number of lines that hold a needle, of all lines of a
 chunk.
 */
module SieveOff {
  import opened Text
  import opened Feed
  import opened Candidates

  function Hits(chunk: seq<Byte>, needles: seq<seq<Byte>>, fold: bool): seq<seq<Byte>> {
    Filter(Lines(chunk), line => Candidate(line, needles, fold))
  }

  /** The needles searched for hold no line break. */
  ghost predicate InOneLine(needles: seq<seq<Byte>>) {
    forall k :: 0 <= k < |needles| ==> needles[k] != [] && NEWLINE !in needles[k]
  }

  // ---- the lines of the starts are the lines that can match

  lemma NeedleEnds(chunk: seq<Byte>, needle: seq<Byte>, fold: bool, s: nat, i: nat)
    requires s < |chunk| && s <= i < s + |LineAt(chunk, s)| && needle != [] && NEWLINE !in needle
    requires At(if fold then Lower(chunk) else chunk, needle, i)
    ensures var line := LineAt(chunk, s); Holds(if fold then Lower(line) else line, needle)
  {
    hide Lower, LineAt;
    LineIs(chunk, s);
    var line, hay, n := LineAt(chunk, s), if fold then Lower(chunk) else chunk, |needle|;
    var e := s + |line|;
    if i + n > e { BreakIn(chunk, needle, fold, s, i); }
    if fold { LowerSlice(chunk, s, e); }
    SliceOfSlice(hay, s, |line|, i - s, n);
    assert At(if fold then Lower(line) else line, needle, i - s);
  }

  /** A needle that goes beyond its line holds a line break. */
  lemma BreakIn(chunk: seq<Byte>, needle: seq<Byte>, fold: bool, s: nat, i: nat)
    requires s < |chunk| && s <= i < s + |LineAt(chunk, s)| < i + |needle|
    requires At(if fold then Lower(chunk) else chunk, needle, i)
    ensures NEWLINE in needle
  {
    hide Lower, LineAt;
    var e := s + |LineAt(chunk, s)|;
    LineStops(chunk, s);
    LowerBreak(chunk, e - 1);
    var hay := if fold then Lower(chunk) else chunk;
    assert hay[i..i + |needle|][e - 1 - i] == hay[e - 1];
  }

  lemma LineStops(chunk: seq<Byte>, s: nat)
    requires s < |chunk|
    ensures var e := s + |LineAt(chunk, s)|; e <= |chunk| && (e < |chunk| ==> chunk[e - 1] == NEWLINE)
  {
    var n := LineEnd(chunk[s..]);
    assert chunk[s..][n - 1] == chunk[s + n - 1];
  }

  lemma LowerBreak(chunk: seq<Byte>, i: nat)
    requires i < |chunk|
    ensures chunk[i] == NEWLINE ==> Lower(chunk)[i] == NEWLINE
  {
  }

  lemma PlaceMatches(chunk: seq<Byte>, needles: seq<seq<Byte>>, fold: bool, i: nat)
    requires i < |chunk| && InOneLine(needles) && Place(chunk, needles, fold, i)
    ensures IsStart(chunk, StartOf(chunk, i)) && Candidate(LineAt(chunk, StartOf(chunk, i)), needles, fold)
  {
    hide StartOf, LineAt, Lower, At, Holds;
    var s := StartOf(chunk, i);
    StartIs(chunk, i);
    PlaceInside(chunk, i);
    var line := LineAt(chunk, s);
    if k :| 0 <= k < |needles| && Ascii(needles[k]) && At(if fold then Lower(chunk) else chunk, needles[k], i) {
      NeedleEnds(chunk, needles[k], fold, s, i);
    } else {
      LineIs(chunk, s);
      assert line[i - s] == chunk[i];
    }
  }

  lemma PlaceInside(chunk: seq<Byte>, i: nat)
    requires i < |chunk|
    ensures i < StartOf(chunk, i) + |LineAt(chunk, StartOf(chunk, i))|
  {
    hide StartOf, LineAt;
    var s := StartOf(chunk, i);
    StartIs(chunk, i);
    LineStops(chunk, s);
    assert forall k :: s <= k < i ==> chunk[s..i][k - s] == chunk[k];
    assert forall k :: s <= k < i ==> chunk[k] != NEWLINE;
  }

  lemma {:induction false} ListedCount(s: set<nat>, n: nat)
    requires forall x :: x in s ==> x < n
    ensures |Listed(s, n)| == |s|
  {
    if n == 0 {
      assert forall x :: x !in s;
    } else {
      var less := s - {n - 1};
      ListedCount(less, n - 1);
      ListedSame(s, less, n - 1);
      if n - 1 in s { assert |s| == |less| + 1; } else { assert less == s; }
    }
  }

  lemma {:induction false} ListedSame(s: set<nat>, t: set<nat>, n: nat)
    requires forall x :: x < n ==> (x in s <==> x in t)
    ensures Listed(s, n) == Listed(t, n)
  {
    if n > 0 { ListedSame(s, t, n - 1); }
  }

  lemma {:induction false} FilterAll(lines: seq<seq<Byte>>, p: seq<Byte> -> bool)
    requires forall x :: x in lines ==> p(x)
    ensures Filter(lines, p) == lines
  {
    if lines != [] { FilterAll(lines[1..], p); }
  }

  lemma StartsAreHits(chunk: seq<Byte>, needles: seq<seq<Byte>>, fold: bool)
    requires InOneLine(needles)
    ensures |Starts(chunk, needles, fold)| == |Hits(chunk, needles, fold)|
  {
    hide StartOf, Candidate, Place, LineAt, Lines, Filter, IsStart;
    var starts, p := Starts(chunk, needles, fold), (line: seq<Byte>) => Candidate(line, needles, fold);
    StartsCover(chunk, needles, fold);
    StartsInside(chunk, needles, fold);
    var order := Listed(starts, |chunk|);
    ListedCount(starts, |chunk|);
    forall s | s in starts ensures s < |chunk| && Candidate(LineAt(chunk, s), needles, fold) {
      var i: nat :| i < |chunk| && Place(chunk, needles, fold, i) && StartOf(chunk, i) == s;
      PlaceMatches(chunk, needles, fold, i);
    }
    assert forall k :: 0 <= k < |order| ==> order[k] in starts;
    FirstStart(chunk);
    PickedFilter(chunk, 0, order, p);
    FilterAll(LinesAt(chunk, order), p);
    assert chunk[0..] == chunk;
  }

  lemma FirstStart(chunk: seq<Byte>)
    ensures chunk != [] ==> IsStart(chunk, 0)
  {
  }

  // ---- the newlines are the lines

  lemma {:induction false} NewlinesConcat(a: seq<Byte>, b: seq<Byte>)
    ensures Newlines(a + b) == Newlines(a) + Newlines(b)
  {
    if b == [] {
      assert a + b == a;
    } else {
      assert (a + b)[..|a + b| - 1] == a + b[..|b| - 1];
      NewlinesConcat(a, b[..|b| - 1]);
    }
  }

  lemma {:induction false} NoneIn(a: seq<Byte>)
    requires NEWLINE !in a
    ensures Newlines(a) == 0
  {
    if a != [] { NoneIn(a[..|a| - 1]); }
  }

  lemma {:induction false} NewlinesAre(chunk: seq<Byte>)
    ensures Newlines(chunk) == |Lines(chunk)| - if chunk == [] || chunk[|chunk| - 1] == NEWLINE then 0 else 1
    decreases |chunk|
  {
    hide LineEnd;
    if chunk != [] {
      var n := LineEnd(chunk);
      var line, rest := chunk[..n], chunk[n..];
      NewlinesAre(rest);
      NewlinesConcat(line, rest);
      assert line + rest == chunk;
      NoneIn(line[..n - 1]);
      assert line[..n - 1] == chunk[..n - 1];
      assert Lines(chunk) == [line] + Lines(rest);
    }
  }

  /**
   The sieve stays on as long as it folds case, or at most half as many lines can match as the chunk has whole lines;
   once off it stays off.
   */
  lemma KeepsWhen(chunk: seq<Byte>, needles: seq<seq<Byte>>, fold: bool, sieve: bool)
    requires InOneLine(needles)
    ensures var whole := |Lines(chunk)| - if chunk == [] || chunk[|chunk| - 1] == NEWLINE then 0 else 1;
      Keeps(chunk, needles, fold, sieve) <==> sieve && (fold || 2 * |Hits(chunk, needles, fold)| <= whole)
  {
    hide Starts, Hits, Lines;
    StartsAreHits(chunk, needles, fold);
    NewlinesAre(chunk);
  }

  // ---- which lines can match

  /** The byte itself, or with folding its small letter. */
  function Folded(b: Byte, fold: bool): Byte { if fold && 65 <= b <= 90 then b + 32 else b }

  ghost predicate Spells(line: seq<Byte>, at: nat, needle: seq<Byte>, fold: bool) {
    at + |needle| <= |line| && forall j :: 0 <= j < |needle| ==> Folded(line[at + j], fold) == needle[j]
  }

  /** A line can match if a needle of ASCII bytes is spelled in it, or with folding if it has any other byte. */
  lemma CandidateWhen(line: seq<Byte>, needles: seq<seq<Byte>>, fold: bool)
    ensures Candidate(line, needles, fold) <==>
      || (exists k, at :: 0 <= k < |needles| && 0 <= at && (forall j :: 0 <= j < |needles[k]| ==> needles[k][j] < 128) && Spells(line, at, needles[k], fold))
      || (fold && exists i :: 0 <= i < |line| && line[i] >= 128)
  {
    var hay := if fold then Lower(line) else line;
    assert forall i :: 0 <= i < |line| ==> hay[i] == Folded(line[i], fold);
    forall k, at: nat | 0 <= k < |needles| ensures At(hay, needles[k], at) <==> Spells(line, at, needles[k], fold) {
      SpellsAt(line, hay, at, needles[k], fold);
    }
    if k, at :| 0 <= k < |needles| && 0 <= at && (forall j :: 0 <= j < |needles[k]| ==> needles[k][j] < 128) && Spells(line, at, needles[k], fold) {
      assert At(hay, needles[k], at) && Ascii(needles[k]) && Holds(hay, needles[k]);
    }
    if k :| 0 <= k < |needles| && Ascii(needles[k]) && Holds(hay, needles[k]) {
      var at :| 0 <= at <= |hay| && At(hay, needles[k], at);
      assert Spells(line, at, needles[k], fold);
    }
  }

  lemma SpellsAt(line: seq<Byte>, hay: seq<Byte>, at: nat, needle: seq<Byte>, fold: bool)
    requires |hay| == |line| && forall i :: 0 <= i < |line| ==> hay[i] == Folded(line[i], fold)
    ensures At(hay, needle, at) <==> Spells(line, at, needle, fold)
  {
    if at + |needle| <= |line| {
      var part := hay[at..at + |needle|];
      assert forall j :: 0 <= j < |needle| ==> part[j] == Folded(line[at + j], fold);
    }
  }
}
