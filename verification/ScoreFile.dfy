/**
 The confidence file between its writer (core/update.py) and its reader (core/httpd.py): what a build scores, written
 as sorted records, is what a lookup by key answers.
 */
module ScoreFile {
  import opened Text
  import opened TrailShard
  import opened TrailBuild
  import opened TrailRules
  import C = Confidence
  import Decimal
  import Sorting

  type Score = (string, int)

  /** A text encoding that keeps the order of texts and gives a tab or a newline for these only, as UTF-8 does. */
  ghost predicate Faithful(encode: string -> string) {
    && (forall a, b :: Less(a, b) ==> Less(encode(a), encode(b)))
    && (forall a :: '\t' in a <==> '\t' in encode(a))
    && (forall a :: '\n' in a <==> '\n' in encode(a))
  }

  /** `int()` of what the writer writes. */
  function Number(text: string): Option<int> {
    if text != "" && Decimal.AllDigits(text) then Some(Decimal.Value(text)) else None
  }

  /** "%s\t%s\n" */
  function RecordOf(score: Score, encode: string -> string): C.Record {
    C.Record(encode(score.0), Decimal.Dec(if score.1 < 0 then 0 else score.1))
  }

  function Records(scores: seq<Score>, encode: string -> string): seq<C.Record> {
    seq(|scores|, i requires 0 <= i < |scores| => RecordOf(scores[i], encode))
  }

  /** `_write_scores`; no score is negative. */
  method WriteScores(scores: seq<Score>, encode: string -> string) returns (data: string)
    requires forall i :: 0 <= i < |scores| ==> scores[i].1 >= 0
    ensures data == C.Buffer(Records(scores, encode))
  {
    hide Decimal.Dec;
    data := "";
    for i := 0 to |scores|
      invariant data == C.Buffer(Records(scores[..i], encode))
    {
      var line := encode(scores[i].0) + "\t" + Decimal.Dec(scores[i].1) + "\n";
      BufferMore(scores, encode, i);
      data := data + line;
    }
    assert scores[..|scores|] == scores;
  }

  lemma BufferMore(scores: seq<Score>, encode: string -> string, i: nat)
    requires i < |scores| && scores[i].1 >= 0
    ensures C.Buffer(Records(scores[..i + 1], encode)) ==
      C.Buffer(Records(scores[..i], encode)) + (encode(scores[i].0) + "\t" + Decimal.Dec(scores[i].1) + "\n")
  {
    hide Decimal.Dec;
    var more := [RecordOf(scores[i], encode)];
    assert Records(scores[..i + 1], encode) == Records(scores[..i], encode) + more;
    C.BufferConcat(Records(scores[..i], encode), more);
    assert more[1..] == [] && C.Buffer(more) == C.Bytes(more[0]) + "";
  }

  lemma ScoreRange(reference: string, agreeing: nat)
    ensures 40 <= ConfidenceScore(reference, agreeing) <= 100
  {
    hide HasAny;
  }

  /** The names the file can hold. */
  ghost predicate Plain(s: State) {
    forall k :: k in s.store.at ==> '\t' !in k && '\n' !in k
  }

  lemma NoneNegative(s: State, scores: seq<Score>)
    requires AreScores(s, scores)
    ensures forall i :: 0 <= i < |scores| ==> scores[i].1 >= 0 && scores[i].0 in s.store.at && scores[i] == ScoreOf(s, scores[i].0)
  {
    hide ConfidenceScore;
    forall i | 0 <= i < |scores| ensures scores[i].1 >= 0 && scores[i].0 in s.store.at && scores[i] == ScoreOf(s, scores[i].0) {
      var k := scores[i].0;
      assert scores[i] in scores;
      ScoreRange(s.store.at[k].reference, if k in s.dups then |s.dups[k]| else 0);
    }
  }

  lemma RecordsSorted(s: State, scores: seq<Score>, encode: string -> string)
    requires AreScores(s, scores) && Faithful(encode)
    ensures C.SortedByKey(Records(scores, encode))
  {
    hide ScoreOf, Decimal.Dec, Less;
    NoneNegative(s, scores);
    var rs := Records(scores, encode);
    forall i, j | 0 <= i < j < |rs| ensures Less(rs[i].key, rs[j].key) {
      assert ScoreLess(scores[i], scores[j]);
      LessIrreflexive(scores[i].0);
    }
  }

  /** The file of a build's scores is one of clean records sorted by key exactly if no name has a tab or a newline. */
  lemma FileIsSound(s: State, scores: seq<Score>, encode: string -> string)
    requires AreScores(s, scores) && Faithful(encode)
    ensures C.Sound(C.Buffer(Records(scores, encode)), Records(scores, encode)) <==> Plain(s)
  {
    hide ScoreOf, AreScores, Decimal.Dec, C.Buffer, C.SortedByKey;
    NoneNegative(s, scores);
    RecordsSorted(s, scores, encode);
    var rs := Records(scores, encode);
    if Plain(s) {
      forall i | 0 <= i < |rs| ensures '\t' !in rs[i].key && '\n' !in rs[i].key && '\n' !in rs[i].score {
        Digits(if scores[i].1 < 0 then 0 else scores[i].1);
      }
    }
    if C.Clean(rs) {
      forall k | k in s.store.at ensures '\t' !in k && '\n' !in k {
        IsScore(s, scores, k);
        ScoreKey(s, k);
        var i :| 0 <= i < |scores| && scores[i] == ScoreOf(s, k);
        assert rs[i].key == encode(k);
      }
    }
  }

  lemma Digits(n: nat)
    ensures '\n' !in Decimal.Dec(n) && Number(Decimal.Dec(n)) == Some(n)
  {
    hide Decimal.Dec;
    Decimal.DecRoundTrip(n);
    assert forall i :: 0 <= i < |Decimal.Dec(n)| ==> Decimal.IsDigit(Decimal.Dec(n)[i]);
  }

  /** A scan of the file finds the build's score of a trail, and nothing for another name. */
  lemma ScanIsScore(s: State, scores: seq<Score>, encode: string -> string, key: string)
    requires AreScores(s, scores) && Faithful(encode)
    ensures C.Scan(Records(scores, encode), encode(key), Number) == if key in s.store.at then Some(ScoreOf(s, key).1) else None
  {
    hide ScoreOf, Decimal.Dec, Number, C.Scan, C.Buffer, Less;
    NoneNegative(s, scores);
    RecordsSorted(s, scores, encode);
    var rs := Records(scores, encode);
    if key in s.store.at {
      assert ScoreOf(s, key) in scores by { IsScore(s, scores, key); }
      var i :| 0 <= i < |scores| && scores[i] == ScoreOf(s, key);
      ScoreKey(s, key);
      C.ScanFinds(rs, encode(key), Number, i);
      Digits(scores[i].1);
    } else {
      forall i | 0 <= i < |rs| ensures rs[i].key != encode(key) {
        LessTotal(scores[i].0, key);
        LessIrreflexive(encode(key));
      }
      C.ScanMisses(rs, encode(key), Number);
    }
  }

  lemma ScoreKey(s: State, k: string)
    requires k in s.store.at
    ensures ScoreOf(s, k).0 == k
  {
  }

  lemma IsScore(s: State, scores: seq<Score>, k: string)
    requires AreScores(s, scores) && k in s.store.at
    ensures ScoreOf(s, k) in scores
  {
    ScoreKey(s, k);
    hide ScoreOf;
    assert ScoreOf(s, k) in scores <==> ScoreOf(s, k).0 in s.store.at && ScoreOf(s, k) == ScoreOf(s, ScoreOf(s, k).0);
  }

  /**
   From a build's scores to an answer: the confidence of a trail of the build, None of any other name or of a name too
   long. A name with a tab or a newline is never found, and beside one nothing is promised.
   */
  method WriteAndLookup(ghost s: State, scores: seq<Score>, encode: string -> string, key: string) returns (r: Option<int>)
    requires AreScores(s, scores) && Faithful(encode)
    ensures Plain(s) ==> r == if key in s.store.at && key != "" && |key| <= 256 then Some(ScoreOf(s, key).1) else None
    ensures Plain(s) && key in s.store.at && key != "" && |key| <= 256 ==>
      IsConfidence(s.store.at[key].reference, if key in s.dups then |s.dups[key]| else 0, r.value)
    ensures '\t' in key || '\n' in key ==> r == None
  {
    hide ScoreOf, AreScores, Plain, Number, C.Scan, C.Sound, C.Buffer, IsConfidence;
    NoneNegative(s, scores);
    var data := WriteScores(scores, encode);
    FileIsSound(s, scores, encode);
    ScanIsScore(s, scores, encode, key);
    r := C.Lookup(data, key, encode, Number, Records(scores, encode));
    ScoreIs(s, key);
  }

  lemma ScoreIs(s: State, k: string)
    ensures k in s.store.at ==> IsConfidence(s.store.at[k].reference, if k in s.dups then |s.dups[k]| else 0, ScoreOf(s, k).1)
  {
    hide ConfidenceScore, IsConfidence;
    if k in s.store.at { ConfidenceIs(s.store.at[k].reference, if k in s.dups then |s.dups[k]| else 0); }
  }
}
