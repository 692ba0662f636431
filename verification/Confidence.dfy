/**
 The binary search over variable-length records of core/httpd.py: a mapped buffer of `key TAB score NEWLINE`
 records, sorted by key, searched by byte position.
 */
module Confidence {
  import opened Text

  /** The bytes of one record; a key has no tab and no newline, a score no newline. */
  datatype Record = Record(key: string, score: string)

  function Bytes(r: Record): string {
    r.key + "\t" + r.score + "\n"
  }

  function Buffer(rs: seq<Record>): string {
    if rs == [] then "" else Bytes(rs[0]) + Buffer(rs[1..])
  }

  /** Where record k begins. */
  function Offset(rs: seq<Record>, k: nat): (o: nat)
    requires k <= |rs|
  {
    |Buffer(rs[..k])|
  }

  ghost predicate Clean(rs: seq<Record>) {
    forall i :: 0 <= i < |rs| ==> '\t' !in rs[i].key && '\n' !in rs[i].key && '\n' !in rs[i].score
  }

  ghost predicate SortedByKey(rs: seq<Record>) {
    forall i, j :: 0 <= i < j < |rs| ==> Less(rs[i].key, rs[j].key)
  }

  /** The last place of c before `end`, or -1. */
  function RFind(data: string, c: char, end: nat): (r: int)
    requires end <= |data|
    ensures -1 <= r < end && (r >= 0 ==> data[r] == c)
    ensures forall i :: r < i < end ==> data[i] != c
  {
    if end == 0 then -1 else if data[end - 1] == c then end - 1 else RFind(data, c, end - 1)
  }

  /** The first place of c from `start` and before `end`, or -1. */
  function Find(data: string, c: char, start: nat, end: nat): (r: int)
    requires start <= end <= |data|
    ensures r == -1 || (start <= r < end && data[r] == c && forall i :: start <= i < r ==> data[i] != c)
    ensures r == -1 ==> forall i :: start <= i < end ==> data[i] != c
    decreases end - start
  {
    if start == end then -1 else if data[start] == c then start else Find(data, c, start + 1, end)
  }

  // ---- where records are

  lemma {:induction false} BufferConcat(a: seq<Record>, b: seq<Record>)
    ensures Buffer(a + b) == Buffer(a) + Buffer(b)
  {
    if a == [] {
      assert a + b == b;
    } else {
      assert (a + b)[1..] == a[1..] + b;
      BufferConcat(a[1..], b);
    }
  }

  lemma OffsetNext(rs: seq<Record>, k: nat)
    requires k < |rs|
    ensures Offset(rs, k + 1) == Offset(rs, k) + |Bytes(rs[k])| <= |Buffer(rs)|
    ensures Buffer(rs)[Offset(rs, k)..Offset(rs, k + 1)] == Bytes(rs[k])
  {
    hide Bytes;
    assert rs[..k + 1] == rs[..k] + [rs[k]] && rs == rs[..k + 1] + rs[k + 1..];
    BufferConcat(rs[..k], [rs[k]]);
    BufferConcat(rs[..k + 1], rs[k + 1..]);
    assert Buffer([rs[k]]) == Bytes(rs[k]) + "";
  }

  lemma {:induction false} OffsetsGrow(rs: seq<Record>, i: nat, j: nat)
    requires i <= j <= |rs|
    ensures Offset(rs, i) + 2 * (j - i) <= Offset(rs, j)
    decreases j - i
  {
    hide Buffer;
    if i < j {
      OffsetsGrow(rs, i, j - 1);
      OffsetNext(rs, j - 1);
    }
  }

  /** The record that holds a byte, between two others. */
  lemma {:induction false} Holder(rs: seq<Record>, i: nat, j: nat, mid: nat) returns (k: nat)
    requires i < j <= |rs| && Offset(rs, i) <= mid < Offset(rs, j)
    ensures i <= k < j && Offset(rs, k) <= mid < Offset(rs, k + 1)
    decreases j - i
  {
    if mid < Offset(rs, i + 1) {
      k := i;
    } else {
      k := Holder(rs, i + 1, j, mid);
    }
  }

  /** Around a byte of record k, the newlines and the tab are those of the record. */
  lemma Around(rs: seq<Record>, k: nat, mid: nat)
    requires Clean(rs) && k < |rs| && Offset(rs, k) <= mid < Offset(rs, k + 1)
    ensures mid < |Buffer(rs)| && Offset(rs, k + 1) <= |Buffer(rs)|
    ensures var (data, start, end) := (Buffer(rs), Offset(rs, k), Offset(rs, k + 1) - 1);
      && RFind(data, '\n', mid) + 1 == start
      && Find(data, '\n', mid, |data|) == end
      && Find(data, '\t', start, end) == start + |rs[k].key|
      && data[start..start + |rs[k].key|] == rs[k].key
      && data[start + |rs[k].key| + 1..end] == rs[k].score
  {
    hide Buffer, RFind, Find, Offset, Clean;
    OffsetNext(rs, k);
    var data, start, end := Buffer(rs), Offset(rs, k), Offset(rs, k + 1) - 1;
    if start > 0 { BeforeIsNewline(rs, k); }
    InRecord(rs, k, data, start, end);
    RFindIs(data, '\n', mid, start - 1);
    FindIs(data, '\n', mid, |data|, end);
    FindIs(data, '\t', start, end, start + |rs[k].key|);
  }

  /** The bytes of record k, where it is in the buffer. */
  lemma InRecord(rs: seq<Record>, k: nat, data: string, start: nat, end: nat)
    requires Clean(rs) && k < |rs| && start <= end < |data| && data[start..end + 1] == Bytes(rs[k])
    ensures var tab := start + |rs[k].key|;
      && tab < end && data[end] == '\n' && data[tab] == '\t'
      && (forall i :: start <= i < end ==> data[i] != '\n') && (forall i :: start <= i < tab ==> data[i] != '\t')
      && data[start..tab] == rs[k].key && data[tab + 1..end] == rs[k].score
  {
    var b, tab := Bytes(rs[k]), start + |rs[k].key|;
    RecordBytes(rs[k]);
    assert |b| == end + 1 - start;
    forall i | 0 <= i < |b| ensures data[start + i] == b[i] { assert data[start..end + 1][i] == data[start + i]; }
    forall i | start <= i < end ensures data[i] != '\n' { assert data[start + (i - start)] == b[i - start]; }
    forall i | start <= i < tab ensures data[i] != '\t' { assert data[start + (i - start)] == b[i - start]; }
    assert data[start..tab] == data[start..end + 1][..|rs[k].key|];
    assert data[tab + 1..end] == data[start..end + 1][|rs[k].key| + 1..|b| - 1];
  }

  lemma RecordBytes(r: Record)
    requires '\t' !in r.key && '\n' !in r.key && '\n' !in r.score
    ensures var b := Bytes(r);
      && b[|b| - 1] == '\n' && (forall i :: 0 <= i < |b| - 1 ==> b[i] != '\n')
      && b[|r.key|] == '\t' && (forall i :: 0 <= i < |r.key| ==> b[i] != '\t')
      && b[..|r.key|] == r.key && b[|r.key| + 1..|b| - 1] == r.score
  {
    var b := Bytes(r);
    forall i | 0 <= i < |b| - 1 ensures b[i] != '\n' {
      if i < |r.key| { assert b[i] == r.key[i]; } else if i > |r.key| { assert b[i] == r.score[i - |r.key| - 1]; }
    }
    forall i | 0 <= i < |r.key| ensures b[i] != '\t' { assert b[i] == r.key[i]; }
  }

  lemma FindIs(data: string, c: char, start: nat, end: nat, r: nat)
    requires start <= r < end <= |data| && data[r] == c && forall i :: start <= i < r ==> data[i] != c
    ensures Find(data, c, start, end) == r
  {
    hide Find;
  }

  lemma RFindIs(data: string, c: char, end: nat, r: int)
    requires -1 <= r < end <= |data| && (r >= 0 ==> data[r] == c) && forall i :: r < i < end ==> data[i] != c
    ensures RFind(data, c, end) == r
  {
    hide RFind;
  }

  lemma BeforeIsNewline(rs: seq<Record>, k: nat)
    requires 0 < k <= |rs| || (k <= |rs| && Offset(rs, k) > 0)
    ensures 0 < Offset(rs, k) <= |Buffer(rs)| && Buffer(rs)[Offset(rs, k) - 1] == '\n'
  {
    hide Buffer;
    if k == 0 { NoOffset(rs); }
    OffsetNext(rs, k - 1);
    var b := Bytes(rs[k - 1]);
    assert Buffer(rs)[Offset(rs, k - 1)..Offset(rs, k)][|b| - 1] == Buffer(rs)[Offset(rs, k) - 1];
  }

  lemma NoOffset(rs: seq<Record>)
    ensures Offset(rs, 0) == 0 && Offset(rs, |rs|) == |Buffer(rs)|
  {
    assert rs[..0] == [] && rs[..|rs|] == rs;
  }

  // ---- the search

  /** What a scan of the records would answer. */
  function Scan(rs: seq<Record>, key: string, number: string -> Option<int>): Option<int> {
    if rs == [] then None else if rs[0].key == key then number(rs[0].score) else Scan(rs[1..], key, number)
  }

  lemma {:induction false} ScanFinds(rs: seq<Record>, key: string, number: string -> Option<int>, k: nat)
    requires SortedByKey(rs) && k < |rs| && rs[k].key == key
    ensures Scan(rs, key, number) == number(rs[k].score)
  {
    if k > 0 {
      LessIrreflexive(key);
      ScanFinds(rs[1..], key, number, k - 1);
    }
  }

  lemma {:induction false} ScanMisses(rs: seq<Record>, key: string, number: string -> Option<int>)
    requires forall i :: 0 <= i < |rs| ==> rs[i].key != key
    ensures Scan(rs, key, number) == None
  {
    if rs != [] { ScanMisses(rs[1..], key, number); }
  }

  ghost predicate Sound(data: string, rs: seq<Record>) {
    data == Buffer(rs) && Clean(rs) && SortedByKey(rs)
  }

  /** The keys below i are smaller and those from j on larger. */
  ghost predicate Narrowed(rs: seq<Record>, key: string, i: nat, j: nat) {
    && i <= j <= |rs|
    && (forall k :: 0 <= k < i ==> Less(rs[k].key, key))
    && (forall k :: j <= k < |rs| ==> Less(key, rs[k].key))
  }

  lemma NotIn(data: string, c: char, from: nat, to: nat)
    requires from <= to <= |data| && forall i :: from <= i < to ==> data[i] != c
    ensures c !in data[from..to]
  {
  }

  /** The line of a byte: where it starts and ends, its text before the first tab, and after it. */
  method LineAt(data: string, mid: nat) returns (start: nat, end: nat, key: string, score: string)
    requires mid < |data|
    ensures start == RFind(data, '\n', mid) + 1 <= mid <= end <= |data|
    ensures var found := Find(data, '\n', mid, |data|); end == if found == -1 then |data| else found
    ensures var sep := Find(data, '\t', start, end);
      && key == data[start..if sep != -1 then sep else end]
      && score == if sep != -1 then data[sep + 1..end] else ""
    ensures '\t' !in key && '\n' !in key
  {
    hide RFind, Find;
    start := RFind(data, '\n', mid) + 1;
    var found := Find(data, '\n', mid, |data|);
    end := if found == -1 then |data| else found;
    var sep := Find(data, '\t', start, end);
    var stop := if sep != -1 then sep else end;
    NotIn(data, '\t', start, stop);
    NotIn(data, '\n', start, stop);
    key := data[start..stop];
    score := if sep != -1 then data[sep + 1..end] else "";
  }

  /** At first all records are open. */
  lemma Whole(data: string, rs: seq<Record>, key: string)
    ensures Sound(data, rs) ==> Narrowed(rs, key, 0, |rs|) && Offset(rs, 0) == 0 && Offset(rs, |rs|) == |data|
  {
    hide Buffer, Clean, Less;
    NoOffset(rs);
  }

  /** The record met at a byte between the bounds, and what the newline and tab searches give there. */
  lemma Meet(data: string, rs: seq<Record>, key: string, i: nat, j: nat, mid: nat) returns (k: nat)
    requires Sound(data, rs) && Narrowed(rs, key, i, j) && Offset(rs, i) <= mid < Offset(rs, j)
    ensures i <= k < j && SortedByKey(rs) && k + 1 <= |rs|
    ensures mid < |data|
    ensures var (start, end) := (RFind(data, '\n', mid) + 1, Find(data, '\n', mid, |data|));
      && start == Offset(rs, k) && end == Offset(rs, k + 1) - 1 && 0 <= start <= end
      && var sep := Find(data, '\t', start, end);
      start <= sep < end && data[start..sep] == rs[k].key && data[sep + 1..end] == rs[k].score
  {
    hide Buffer, RFind, Find, Clean, Offset, Less;
    if i == j { assert false; }
    k := Holder(rs, i, j, mid);
    Around(rs, k, mid);
  }

  lemma Empty(data: string, rs: seq<Record>, key: string, i: nat, j: nat)
    requires Sound(data, rs) && Narrowed(rs, key, i, j) && Offset(rs, j) <= Offset(rs, i)
    ensures i == j && SortedByKey(rs)
  {
    hide Buffer, Clean, Offset, Less;
    if i < j { OffsetsGrow(rs, i, j); }
  }

  /**
   Stops on every buffer, and finds no key with a tab or a newline in any. On a buffer of sorted records it answers
   what a scan would, with lo and hi always at record boundaries.
   */
  method Search(data: string, key: string, number: string -> Option<int>, ghost rs: seq<Record>) returns (r: Option<int>)
    ensures Sound(data, rs) ==> r == Scan(rs, key, number)
    ensures '\t' in key || '\n' in key ==> r == None
  {
    hide Buffer, Scan, RFind, Find, Clean, SortedByKey, Less, Offset, Narrowed, Sound;
    var lo, hi := 0, |data|;
    ghost var i, j: nat := 0, |rs|;
    Whole(data, rs, key);
    while lo < hi
      invariant 0 <= lo && hi <= |data|
      invariant i <= |rs| && j <= |rs|
      invariant Sound(data, rs) ==> Narrowed(rs, key, i, j) && lo == Offset(rs, i) && hi == Offset(rs, j)
      decreases hi - lo
    {
      var mid := (lo + hi) / 2;
      var start, end, lineKey, score := LineAt(data, mid);
      ghost var k: nat := 0;
      if Sound(data, rs) { k := Meet(data, rs, key, i, j, mid); }
      if lineKey == key {
        if Sound(data, rs) { ScanFinds(rs, key, number, k); }
        return number(score);
      }
      if Less(lineKey, key) {
        lo := end + 1;
        if Sound(data, rs) {
          NarrowUp(rs, key, k, i, j);
          i := k + 1;
        }
      } else {
        hi := start;
        if Sound(data, rs) {
          NarrowDown(rs, key, k, i, j);
          j := k;
        }
      }
    }
    if Sound(data, rs) {
      Empty(data, rs, key, i, j);
      NoneLeft(rs, key, i);
      ScanMisses(rs, key, number);
    }
    return None;
  }

  lemma NarrowUp(rs: seq<Record>, key: string, k: nat, i: nat, j: nat)
    requires SortedByKey(rs) && Narrowed(rs, key, i, j) && i <= k < j && Less(rs[k].key, key)
    ensures Narrowed(rs, key, k + 1, j)
  {
    forall l | 0 <= l < k ensures Less(rs[l].key, key) { LessTransitive(rs[l].key, rs[k].key, key); }
  }

  lemma NarrowDown(rs: seq<Record>, key: string, k: nat, i: nat, j: nat)
    requires SortedByKey(rs) && Narrowed(rs, key, i, j) && i <= k < j && rs[k].key != key && !Less(rs[k].key, key)
    ensures Narrowed(rs, key, i, k)
  {
    LessTotal(rs[k].key, key);
    forall l | k < l < |rs| ensures Less(key, rs[l].key) { LessTransitive(key, rs[k].key, rs[l].key); }
  }

  lemma NoneLeft(rs: seq<Record>, key: string, i: nat)
    requires Narrowed(rs, key, i, i)
    ensures forall k :: 0 <= k < |rs| ==> rs[k].key != key
  {
    LessIrreflexive(key);
  }

  /** The lookup: no key, and none of more than 256 characters, is ever found. */
  method Lookup(data: string, key: string, encode: string -> string, number: string -> Option<int>, ghost rs: seq<Record>)
      returns (r: Option<int>)
    ensures Sound(data, rs) ==> r == if key == "" || |key| > 256 then None else Scan(rs, encode(key), number)
    ensures '\t' in encode(key) || '\n' in encode(key) ==> r == None
  {
    if key == "" || |key| > 256 {
      return None;
    }
    r := Search(data, encode(key), number, rs);
  }
}
