/**
 The country tables: sorted rows of range starts with empty rows for the gaps, stored as hexadecimal deltas
 (core/update.py), read back and bisected (core/geo.py).
 */
module Geo {
  import opened Text
  import Decimal
  import Hex
  import Ipv6Parse
  import Sorting

  datatype Record = Record(start: nat, end: nat, cc: string)

  datatype Row = Row(start: nat, cc: string)

  predicate Has(r: Record, v: nat) { r.start <= v <= r.end }

  /** Ranges are not empty, countries have names, and ranges of different countries are disjoint. */
  ghost predicate Proper(records: seq<Record>) {
    && (forall i :: 0 <= i < |records| ==> records[i].start <= records[i].end && records[i].cc != "")
    && (forall i, j :: 0 <= i < |records| && 0 <= j < |records| && records[i].cc != records[j].cc ==>
          records[i].end < records[j].start || records[j].end < records[i].start)
  }

  /** The country of an address: that of a record that holds it. */
  ghost predicate CountryOf(records: seq<Record>, v: nat, cc: Option<string>) {
    match cc
    case Some(c) => exists i :: 0 <= i < |records| && Has(records[i], v) && records[i].cc == c
    case None => forall i :: 0 <= i < |records| ==> !Has(records[i], v)
  }

  /** What a table answers: the last row that starts at or before v, if it names a country. */
  function At(rows: seq<Row>, v: nat): Option<string> {
    if rows == [] then None
    else
      var last := rows[|rows| - 1];
      if last.start <= v then (if last.cc == "" then None else Some(last.cc)) else At(rows[..|rows| - 1], v)
  }

  // ---- rows

  /** Of the records' order only the order by start matters. */
  predicate StartsBefore(a: Record, b: Record) { a.start < b.start }

  ghost predicate ByStart(rs: seq<Record>) {
    forall i, j :: 0 <= i < j < |rs| ==> rs[i].start <= rs[j].start
  }

  /** `records.sort()` */
  function Sort(rs: seq<Record>): seq<Record> { Sorting.Sort(StartsBefore, rs) }

  lemma SortSorts(rs: seq<Record>)
    ensures ByStart(Sort(rs)) && forall r :: r in Sort(rs) <==> r in rs
  {
    Sorting.SortInOrder(StartsBefore, rs);
  }

  /** Ascending ranges, none touching the next of its own country. */
  ghost predicate Ascending(ms: seq<Record>) {
    && (forall i :: 0 <= i < |ms| ==> ms[i].start <= ms[i].end && ms[i].cc != "")
    && (forall i, j :: 0 <= i < j < |ms| ==> ms[i].end < ms[j].start)
  }

  ghost predicate SameCountries(a: seq<Record>, b: seq<Record>) {
    && (forall i, v :: 0 <= i < |a| && Has(a[i], v) ==> HeldIn(b, v, a[i].cc))
    && (forall j, v :: 0 <= j < |b| && Has(b[j], v) ==> HeldIn(a, v, b[j].cc))
  }

  ghost predicate HeldIn(a: seq<Record>, v: nat, cc: string) {
    exists i :: 0 <= i < |a| && Has(a[i], v) && a[i].cc == cc
  }

  /** The last merged range ends where one of its records does. */
  ghost predicate EndsLike(ms: seq<Record>, rs: seq<Record>) {
    ms != [] ==> exists k :: 0 <= k < |rs| && rs[k].end == ms[|ms| - 1].end && rs[k].cc == ms[|ms| - 1].cc
  }

  /** A range of whole units, of a country a line can hold. */
  ghost predicate Fits(r: Record, u: nat)
    requires u > 0
  {
    r.start % u == 0 && (r.end + 1) % u == 0 && '\n' !in r.cc && PyStrip(r.cc) == r.cc
  }

  /** The first loop: adjacent or overlapping ranges of one country become one. */
  method Merge(rs: seq<Record>, ghost u: nat) returns (merged: seq<Record>)
    requires Proper(rs) && ByStart(rs) && u > 0 && forall i :: 0 <= i < |rs| ==> Fits(rs[i], u)
    ensures Ascending(merged) && SameCountries(merged, rs) && forall i :: 0 <= i < |merged| ==> Fits(merged[i], u)
  {
    hide SameCountries, Proper, Fits, EndsLike;
    merged := [];
    NoCountries();
    for n := 0 to |rs|
      invariant Ascending(merged) && SameCountries(merged, rs[..n]) && EndsLike(merged, rs[..n])
      invariant (merged == []) == (n == 0)
      invariant forall i :: 0 <= i < |merged| ==> Fits(merged[i], u)
      invariant merged != [] && n < |rs| ==> merged[|merged| - 1].start <= rs[n].start
    {
      var r, last := rs[n], |merged| - 1;
      ghost var before := merged;
      NextFits(rs, n, merged);
      assert rs[..n + 1] == rs[..n] + [r];
      if merged != [] && merged[last].cc == r.cc && r.start <= merged[last].end + 1 {
        merged := merged[last := merged[last].(end := if merged[last].end >= r.end then merged[last].end else r.end)];
        Widened(before, rs[..n], r, merged[last]);
        FitsWide(before[last], r, u);
      } else {
        merged := merged + [r];
        Added(before, rs[..n], r);
      }
    }
    assert rs[..|rs|] == rs;
  }

  lemma NoCountries()
    ensures SameCountries([], []) && EndsLike([], [])
  {
  }

  /** The next record starts after the last range ends, unless they are of one country. */
  lemma NextFits(rs: seq<Record>, n: nat, ms: seq<Record>)
    requires Proper(rs) && ByStart(rs) && n < |rs| && EndsLike(ms, rs[..n])
    ensures rs[n].start <= rs[n].end && rs[n].cc != ""
    ensures ms != [] && ms[|ms| - 1].cc != rs[n].cc ==> ms[|ms| - 1].end < rs[n].start
  {
    if ms != [] && ms[|ms| - 1].cc != rs[n].cc {
      var k :| 0 <= k < |rs[..n]| && rs[..n][k].end == ms[|ms| - 1].end && rs[..n][k].cc == ms[|ms| - 1].cc;
      assert rs[k] == rs[..n][k] && rs[k].start <= rs[n].start;
    }
  }

  lemma FitsWide(m: Record, r: Record, u: nat)
    requires u > 0 && Fits(m, u) && Fits(r, u)
    ensures Fits(m.(end := if m.end >= r.end then m.end else r.end), u)
  {
    hide PyStrip;
  }

  lemma Widened(ms: seq<Record>, rs: seq<Record>, r: Record, wide: Record)
    requires SameCountries(ms, rs) && ms != [] && EndsLike(ms, rs) && r.start <= r.end
    requires var m := ms[|ms| - 1];
      && m.start <= m.end && m.cc == r.cc && m.start <= r.start <= m.end + 1
      && wide == m.(end := if m.end >= r.end then m.end else r.end)
    ensures SameCountries(ms[|ms| - 1 := wide], rs + [r]) && EndsLike(ms[|ms| - 1 := wide], rs + [r])
  {
    var last := |ms| - 1;
    var after, all := ms[last := wide], rs + [r];
    forall i, v | 0 <= i < |after| && Has(after[i], v) ensures HeldIn(all, v, after[i].cc) {
      if Has(ms[i], v) { HeldMore(rs, r, v, ms[i].cc); } else { assert all[|rs|] == r && Has(r, v); }
    }
    forall j, v | 0 <= j < |all| && Has(all[j], v) ensures HeldIn(after, v, all[j].cc) {
      if j < |rs| {
        assert HeldIn(ms, v, rs[j].cc);
        var i :| 0 <= i < |ms| && Has(ms[i], v) && ms[i].cc == rs[j].cc;
        assert Has(after[i], v) && after[i].cc == ms[i].cc;
      } else {
        assert Has(after[last], v);
      }
    }
    var k :| 0 <= k < |rs| && rs[k].end == ms[last].end && rs[k].cc == ms[last].cc;
    assert all[k] == rs[k] && all[|rs|] == r;
  }

  lemma HeldMore(rs: seq<Record>, r: Record, v: nat, cc: string)
    requires HeldIn(rs, v, cc)
    ensures HeldIn(rs + [r], v, cc)
  {
    var k :| 0 <= k < |rs| && Has(rs[k], v) && rs[k].cc == cc;
    assert (rs + [r])[k] == rs[k];
  }

  lemma Added(ms: seq<Record>, rs: seq<Record>, r: Record)
    requires SameCountries(ms, rs)
    ensures SameCountries(ms + [r], rs + [r]) && EndsLike(ms + [r], rs + [r])
  {
    var after, all := ms + [r], rs + [r];
    assert after[|ms|] == r && all[|rs|] == r;
    forall i, v | 0 <= i < |after| && Has(after[i], v) ensures HeldIn(all, v, after[i].cc) {
      if i < |ms| { HeldMore(rs, r, v, ms[i].cc); }
    }
    forall j, v | 0 <= j < |all| && Has(all[j], v) ensures HeldIn(after, v, all[j].cc) {
      if j < |rs| { assert HeldIn(ms, v, rs[j].cc); HeldMore(ms, r, v, rs[j].cc); }
    }
  }

  /** Rows start one after the other, and up to `prev` they answer for the ranges. */
  ghost predicate Answers(rows: seq<Row>, ms: seq<Record>, prev: int) {
    && (forall i, j :: 0 <= i < j < |rows| ==> rows[i].start < rows[j].start)
    && (forall i :: 0 <= i < |rows| ==> rows[i].start <= prev)
    && (forall v: nat :: v <= prev ==> CountryOf(ms, v, At(rows, v)))
  }

  lemma AtPush(rows: seq<Row>, row: Row, v: nat)
    ensures At(rows + [row], v) == if row.start <= v then (if row.cc == "" then None else Some(row.cc)) else At(rows, v)
  {
    assert (rows + [row])[..|rows|] == rows;
  }

  /** A gap between two ranges. */
  lemma GapAnswers(rows: seq<Row>, ms: seq<Record>, prev: int, upto: nat)
    requires Answers(rows, ms, prev) && -1 <= prev < upto && forall i :: 0 <= i < |ms| ==> ms[i].end <= prev
    ensures Answers(rows + [Row(prev + 1, "")], ms, upto)
  {
    var more := rows + [Row(prev + 1, "")];
    forall v: nat | v <= upto ensures CountryOf(ms, v, At(more, v)) { AtPush(rows, Row(prev + 1, ""), v); }
  }

  lemma RangeAnswers(rows: seq<Row>, ms: seq<Record>, prev: int, m: Record)
    requires Answers(rows, ms, prev) && prev == m.start - 1 && m.start <= m.end && m.cc != ""
    ensures Answers(rows + [Row(m.start, m.cc)], ms + [m], m.end)
  {
    var more, all := rows + [Row(m.start, m.cc)], ms + [m];
    forall v: nat | v <= m.end ensures CountryOf(all, v, At(more, v)) {
      AtPush(rows, Row(m.start, m.cc), v);
      if v >= m.start {
        assert Has(all[|ms|], v);
      } else {
        match At(rows, v)
        case None =>
        case Some(c) =>
          var i :| 0 <= i < |ms| && Has(ms[i], v) && ms[i].cc == c;
          assert all[i] == ms[i];
      }
    }
  }

  /** The second loop: a row per range, and one without a country per gap and after the last. */
  method RowsOf(merged: seq<Record>) returns (rows: seq<Row>)
    requires Ascending(merged)
    ensures forall i, j :: 0 <= i < j < |rows| ==> rows[i].start < rows[j].start
    ensures forall v: nat :: CountryOf(merged, v, At(rows, v))
    ensures forall i :: 0 <= i < |rows| ==> FromRange(merged, rows[i])
  {
    hide At, CountryOf;
    rows := [];
    var prev := -1;
    for n := 0 to |merged|
      invariant Answers(rows, merged[..n], prev) && -1 <= prev
      invariant prev == if n == 0 then -1 else merged[n - 1].end
      invariant forall i :: 0 <= i < |rows| ==> FromRange(merged, rows[i])
    {
      var m := merged[n];
      assert merged[..n + 1] == merged[..n] + [m];
      if prev < m.start - 1 {
        GapAnswers(rows, merged[..n], prev, m.start - 1);
        rows := rows + [Row(if prev >= 0 then prev + 1 else 0, "")];
      }
      RangeAnswers(rows, merged[..n], m.start - 1, m);
      rows := rows + [Row(m.start, m.cc)];
      prev := m.end;
    }
    assert merged[..|merged|] == merged;
    ghost var more := rows + [Row(prev + 1, "")];
    forall v: nat ensures CountryOf(merged, v, At(more, v)) {
      GapAnswers(rows, merged, prev, if v > prev then v else prev + 1);
    }
    rows := rows + [Row(prev + 1, "")];
  }

  /** A row starts at zero, where a range does, or right after one ends; its country is that of a range, or none. */
  ghost predicate FromRange(ms: seq<Record>, row: Row) {
    && (row.start == 0 || exists i :: 0 <= i < |ms| && (row.start == ms[i].start || row.start == ms[i].end + 1))
    && (row.cc == "" || exists i :: 0 <= i < |ms| && row.cc == ms[i].cc)
  }

  // ---- storage

  const MAGIC := "#hexdelta1"

  /** The unit of a stored start: a /64 for IPv6. */
  function Unit(v6: bool): (u: nat)
    ensures u > 0
  {
    if v6 then 0x1_0000_0000_0000_0000 else 1
  }

  predicate IsPySpace(c: char) {
    var u := c as int;
    9 <= u <= 13 || 28 <= u <= 32 || u == 0x85 || u == 0xA0 || u == 0x1680 || 0x2000 <= u <= 0x200A
      || u == 0x2028 || u == 0x2029 || u == 0x202F || u == 0x205F || u == 0x3000
  }

  function PyStrip(s: string): string {
    Trimmed(s, c => IsPySpace(c))
  }

  function HeadLine(v6: bool): string {
    MAGIC + ":" + if v6 then "6" else "4"
  }

  /** The lines of rows whose starts, in units, follow `previous`. */
  function Encode(rows: seq<Row>, u: nat, previous: nat): seq<string>
    requires u > 0
    decreases |rows|
  {
    if rows == [] then []
    else
      var value := rows[0].start / u;
      [Hex.Digits(if value >= previous then value - previous else 0) + "," + rows[0].cc] + Encode(rows[1..], u, value)
  }

  method WriteGeo(rows: seq<Row>, v6: bool) returns (text: string)
    requires forall i, j :: 0 <= i < j < |rows| ==> rows[i].start <= rows[j].start
    ensures text == Join([HeadLine(v6)] + Encode(rows, Unit(v6), 0), '\n')
  {
    hide Hex.Digits, HeadLine, Unit, Join, Encode;
    var u := Unit(v6);
    var lines := [HeadLine(v6)];
    var previous: nat := 0;
    assert rows[0..] == rows;
    for i := 0 to |rows|
      invariant lines + Encode(rows[i..], u, previous) == [HeadLine(v6)] + Encode(rows, u, 0)
      invariant previous == if i == 0 then 0 else rows[i - 1].start / u
    {
      var value := rows[i].start / u;
      if i > 0 { Quotient(rows[i - 1].start, rows[i].start, u); }
      EncodeNext(rows, i, u, previous);
      Regroup(lines, Hex.Digits(value - previous) + "," + rows[i].cc, Encode(rows[i + 1..], u, value));
      lines := lines + [Hex.Digits(value - previous) + "," + rows[i].cc];
      previous := value;
    }
    assert rows[|rows|..] == [] && lines + [] == lines;
    EncodeNone(u, previous);
    text := Join(lines, '\n');
  }

  lemma EncodeNext(rows: seq<Row>, i: nat, u: nat, previous: nat)
    requires i < |rows| && u > 0 && previous <= rows[i].start / u
    ensures Encode(rows[i..], u, previous)
      == [Hex.Digits(rows[i].start / u - previous) + "," + rows[i].cc] + Encode(rows[i + 1..], u, rows[i].start / u)
  {
    hide Hex.Digits;
    assert rows[i..][1..] == rows[i + 1..];
  }

  lemma EncodeNone(u: nat, previous: nat)
    requires u > 0
    ensures Encode([], u, previous) == []
  {
  }

  lemma Regroup<T>(a: seq<T>, x: T, b: seq<T>)
    ensures a + ([x] + b) == (a + [x]) + b
  {
  }

  lemma Quotient(a: nat, b: nat, u: nat)
    requires a <= b && u > 0
    ensures a / u <= b / u
  {
    MulOrder(b / u, a / u, u);
    assert a == a / u * u + a % u && b == b / u * u + b % u;
  }

  lemma MulOrder(p: nat, q: nat, u: nat)
    ensures p < q ==> p * u + u <= q * u
  {
    if p < q {
      var k := q - p - 1;
      assert (p + 1 + k) * u == (p + 1) * u + k * u;
      assert (p + 1) * u == p * u + u;
    }
  }

  lemma Exact(start: nat, u: nat)
    requires u > 0 && start % u == 0
    ensures start / u * u == start
  {
  }

  /** The place of the first comma, or the length. */
  function Comma(line: string): (i: nat)
    ensures i <= |line| && ',' !in line[..i] && (i < |line| ==> line[i] == ',')
  {
    if line == "" || line[0] == ',' then 0 else 1 + Comma(line[1..])
  }

  /** One line of a table: None if it is not a row, and an error if its number does not parse. */
  datatype Parsed = Skip | Error | Entry(number: nat, cc: string)

  function ParseLine(line: string, delta: bool): Parsed {
    var comma := Comma(line);
    if comma == 0 || comma == |line| then Skip
    else
      var digits, cc := line[..comma], PyStrip(line[comma + 1..]);
      if delta then
        (if Ipv6Parse.AllHex(digits) then Entry(Ipv6Parse.Number(digits), cc) else Error)
      else if Decimal.AllDigits(digits) then Entry(Decimal.Value(digits), cc)
      else Error
  }

  /** The rows of lines of either form; deltas accumulate. */
  function Decode(lines: seq<string>, delta: bool, u: nat, previous: nat): Option<seq<Row>> {
    if lines == [] then Some([])
    else
      match ParseLine(lines[0], delta)
      case Skip => Decode(lines[1..], delta, u, previous)
      case Error => None
      case Entry(n, cc) =>
        var start := if delta then (previous + n) * u else n;
        match Decode(lines[1..], delta, u, previous + n)
        case None => None
        case Some(rest) => Some([Row(start, cc)] + rest)
  }

  function EndsSix(line: string): bool {
    var t := PyStrip(line);
    |t| >= 2 && t[|t| - 2..] == ":6"
  }

  /** `_parse`, a number that does not parse leaving no table. */
  method Parse(text: string) returns (r: Option<seq<Row>>)
    ensures r == ParsedTable(text)
  {
    hide ParseLine, Split, EndsSix, Unit, Decode;
    var lines := Split(text, '\n');
    var delta := MAGIC <= lines[0];
    var u := if delta && EndsSix(lines[0]) then Unit(true) else 1;
    var rest := if delta then lines[1..] else lines;
    var rows: seq<Row>, previous := [], 0;
    assert rest[0..] == rest;
    if Decode(rest, delta, u, 0).Some? { assert rows + Decode(rest, delta, u, 0).value == Decode(rest, delta, u, 0).value; }
    for i := 0 to |rest|
      invariant Decode(rest, delta, u, 0) == match Decode(rest[i..], delta, u, previous) case None => None case Some(more) => Some(rows + more)
    {
      DecodeNext(rest, i, delta, u, previous);
      match ParseLine(rest[i], delta)
      case Skip =>
      case Error => return None;
      case Entry(n, cc) =>
        var start := if delta then (previous + n) * u else n;
        if Decode(rest[i + 1..], delta, u, previous + n).Some? {
          Regroup(rows, Row(start, cc), Decode(rest[i + 1..], delta, u, previous + n).value);
        }
        rows := rows + [Row(start, cc)];
        previous := previous + n;
    }
    assert rest[|rest|..] == [] && rows + [] == rows;
    DecodeNone(delta, u, previous);
    return Some(rows);
  }

  lemma DecodeNone(delta: bool, u: nat, previous: nat)
    ensures Decode([], delta, u, previous) == Some([])
  {
  }

  lemma DecodeNext(lines: seq<string>, i: nat, delta: bool, u: nat, previous: nat)
    requires i < |lines|
    ensures Decode(lines[i..], delta, u, previous) == match ParseLine(lines[i], delta)
      case Skip => Decode(lines[i + 1..], delta, u, previous)
      case Error => None
      case Entry(n, cc) =>
        (match Decode(lines[i + 1..], delta, u, previous + n)
         case None => None
         case Some(rest) => Some([Row(if delta then (previous + n) * u else n, cc)] + rest))
  {
    hide ParseLine;
    assert lines[i..][1..] == lines[i + 1..];
  }

  function ParsedTable(text: string): Option<seq<Row>> {
    var lines := Split(text, '\n');
    var delta := MAGIC <= lines[0];
    Decode(if delta then lines[1..] else lines, delta, if delta && EndsSix(lines[0]) then Unit(true) else 1, 0)
  }

  /** The rows a table can hold: country names without a line break or space around, starts in whole units. */
  ghost predicate Storable(rows: seq<Row>, u: nat)
    requires u > 0
  {
    forall i :: 0 <= i < |rows| ==> '\n' !in rows[i].cc && PyStrip(rows[i].cc) == rows[i].cc && rows[i].start % u == 0
  }

  lemma {:induction false} DecodeEncode(rows: seq<Row>, u: nat, previous: nat)
    requires u > 0 && Storable(rows, u)
    requires rows != [] ==> previous <= rows[0].start / u
    requires forall i, j :: 0 <= i < j < |rows| ==> rows[i].start <= rows[j].start
    ensures Decode(Encode(rows, u, previous), true, u, previous) == Some(rows)
    decreases |rows|
  {
    hide ParseLine, Hex.Digits, PyStrip;
    if rows != [] {
      var value := rows[0].start / u;
      Exact(rows[0].start, u);
      LineRoundTrip(value - previous, rows[0].cc);
      if |rows| > 1 { Quotient(rows[0].start, rows[1].start, u); }
      DecodeEncode(rows[1..], u, value);
      DecodeStep(Encode(rows, u, previous), u, previous, value - previous, rows[0].cc);
      assert Row(value * u, rows[0].cc) == rows[0] && [rows[0]] + rows[1..] == rows;
    }
  }

  lemma DecodeStep(lines: seq<string>, u: nat, previous: nat, n: nat, cc: string)
    requires lines != [] && ParseLine(lines[0], true) == Entry(n, cc)
    ensures Decode(lines, true, u, previous) == match Decode(lines[1..], true, u, previous + n)
      case None => None
      case Some(rest) => Some([Row((previous + n) * u, cc)] + rest)
  {
    hide ParseLine;
  }

  lemma LineRoundTrip(n: nat, cc: string)
    requires PyStrip(cc) == cc && '\n' !in cc
    ensures ParseLine(Hex.Digits(n) + "," + cc, true) == Entry(n, cc) && '\n' !in Hex.Digits(n) + "," + cc
  {
    hide Hex.Digits, PyStrip, ParseLine;
    HexLine(n, cc);
    Hex.DigitsRoundTrip(n);
  }

  lemma NotEmpty(n: nat)
    ensures Hex.Digits(n) != ""
  {
  }

  lemma {:induction false} CommaAfter(d: string, rest: string)
    requires ',' !in d
    ensures Comma(d + "," + rest) == |d|
  {
    if d != "" {
      assert (d + "," + rest)[1..] == d[1..] + "," + rest;
      CommaAfter(d[1..], rest);
    }
  }

  lemma {:induction false} EncodedLines(rows: seq<Row>, u: nat, previous: nat)
    requires u > 0 && Storable(rows, u)
    ensures forall i :: 0 <= i < |Encode(rows, u, previous)| ==> '\n' !in Encode(rows, u, previous)[i]
    decreases |rows|
  {
    hide Hex.Digits, PyStrip, ParseLine;
    if rows != [] {
      var value := rows[0].start / u;
      LineRoundTrip(if value >= previous then value - previous else 0, rows[0].cc);
      EncodedLines(rows[1..], u, value);
    }
  }

  /** A table is read back as it was written. */
  lemma TableRoundTrip(rows: seq<Row>, v6: bool)
    requires Storable(rows, Unit(v6)) && forall i, j :: 0 <= i < j < |rows| ==> rows[i].start <= rows[j].start
    ensures ParsedTable(Join([HeadLine(v6)] + Encode(rows, Unit(v6), 0), '\n')) == Some(rows)
  {
    hide Encode, Decode, Join, Split, PyStrip, Unit, HeadLine, EndsSix, ParsedTable;
    var u := Unit(v6);
    var lines := [HeadLine(v6)] + Encode(rows, u, 0);
    EncodedLines(rows, u, 0);
    HeadIs(v6);
    SplitJoin(lines, '\n');
    TableOf(Join(lines, '\n'), lines, v6);
    assert lines[1..] == Encode(rows, u, 0);
    if rows != [] { DivNat(rows[0].start, u); }
    DecodeEncode(rows, u, 0);
  }

  lemma DivNat(a: nat, u: nat)
    requires u > 0
    ensures a / u >= 0
  {
  }

  lemma TableOf(text: string, lines: seq<string>, v6: bool)
    requires Split(text, '\n') == lines && lines[0] == HeadLine(v6)
    ensures ParsedTable(text) == Decode(lines[1..], true, Unit(v6), 0)
  {
    hide Decode, Split, HeadLine, EndsSix;
    HeadIs(v6);
  }

  lemma HeadIs(v6: bool)
    ensures '\n' !in HeadLine(v6) && MAGIC <= HeadLine(v6) && (EndsSix(HeadLine(v6)) <==> v6) && Unit(false) == 1
  {
    var h := HeadLine(v6);
    assert h[|h| - 2..] == if v6 then ":6" else ":4";
    assert !IsPySpace(h[0]) && !IsPySpace(h[|h| - 1]);
  }

  // ---- lookups

  /** bisect_right over the starts, and the country of the row before. */
  method Lookup(rows: seq<Row>, v: nat) returns (r: Option<string>)
    requires forall i, j :: 0 <= i < j < |rows| ==> rows[i].start <= rows[j].start
    ensures r == At(rows, v)
  {
    if rows == [] { return None; }
    var lo, hi := 0, |rows|;
    while lo < hi
      invariant lo <= hi <= |rows|
      invariant forall i :: 0 <= i < lo ==> rows[i].start <= v
      invariant forall i :: hi <= i < |rows| ==> v < rows[i].start
    {
      var mid := (lo + hi) / 2;
      if v < rows[mid].start { hi := mid; } else { lo := mid + 1; }
    }
    AtIs(rows, v, lo);
    if lo == 0 { return None; }
    var cc := rows[lo - 1].cc;
    return if cc == "" then None else Some(cc);
  }

  lemma {:induction false} AtIs(rows: seq<Row>, v: nat, n: nat)
    requires n <= |rows| && (forall i :: 0 <= i < n ==> rows[i].start <= v) && forall i :: n <= i < |rows| ==> v < rows[i].start
    ensures At(rows, v) == if n == 0 || rows[n - 1].cc == "" then None else Some(rows[n - 1].cc)
  {
    if n < |rows| { AtIs(rows[..|rows| - 1], v, n); }
  }

  ghost predicate Allocations(records: seq<Record>, u: nat)
    requires u > 0
  {
    Proper(records) && forall i :: 0 <= i < |records| ==> Fits(records[i], u)
  }

  /**
   From records to answers: build the rows, write them, read them back and bisect. Every address gets the
   country of a record that holds it, and an address of no record gets none.
   */
  method Locate(records: seq<Record>, v6: bool, v: nat) returns (r: Option<string>)
    requires Allocations(records, Unit(v6))
    ensures CountryOf(records, v, r)
  {
    hide CountryOf, At, Encode, Decode, Unit, PyStrip, Proper, SameCountries, Ascending, Join, Fits, FromRange;
    var sorted := Sort(records);
    SortedAllocations(records, Unit(v6));
    var merged := Merge(sorted, Unit(v6));
    var rows := RowsOf(merged);
    RowsStorable(merged, rows, Unit(v6));
    var text := WriteGeo(rows, v6);
    TableRoundTrip(rows, v6);
    var table := Parse(text);
    r := Lookup(table.value, v);
    SameAnswer(records, sorted, merged, v, r);
  }

  lemma SortedAllocations(records: seq<Record>, u: nat)
    requires u > 0 && Allocations(records, u)
    ensures Proper(Sort(records)) && ByStart(Sort(records))
    ensures forall i :: 0 <= i < |Sort(records)| ==> Fits(Sort(records)[i], u)
  {
    hide Sort, PyStrip, Fits;
    SortSorts(records);
    var s := Sort(records);
    forall i | 0 <= i < |s| ensures exists k :: 0 <= k < |records| && records[k] == s[i] { assert s[i] in s && s[i] in records; }
  }

  lemma RowsStorable(ms: seq<Record>, rows: seq<Row>, u: nat)
    requires u > 0 && (forall i :: 0 <= i < |ms| ==> Fits(ms[i], u)) && forall i :: 0 <= i < |rows| ==> FromRange(ms, rows[i])
    ensures Storable(rows, u)
  {
    hide PyStrip;
    NoName();
    forall i | 0 <= i < |rows| ensures '\n' !in rows[i].cc && PyStrip(rows[i].cc) == rows[i].cc && rows[i].start % u == 0 {
      assert FromRange(ms, rows[i]);
    }
  }

  lemma NoName()
    ensures PyStrip("") == ""
  {
  }

  lemma SameAnswer(records: seq<Record>, sorted: seq<Record>, merged: seq<Record>, v: nat, r: Option<string>)
    requires sorted == Sort(records) && SameCountries(merged, sorted) && CountryOf(merged, v, r)
    ensures CountryOf(records, v, r)
  {
    hide Sort;
    SortSorts(records);
    match r
    case Some(c) =>
      var i :| 0 <= i < |merged| && Has(merged[i], v) && merged[i].cc == c;
      assert HeldIn(sorted, v, c);
      var k :| 0 <= k < |sorted| && Has(sorted[k], v) && sorted[k].cc == c;
      assert sorted[k] in sorted && sorted[k] in records;
    case None =>
      forall k | 0 <= k < |records| ensures !Has(records[k], v) {
        assert records[k] in records && records[k] in sorted;
        var j :| 0 <= j < |sorted| && sorted[j] == records[k];
        assert !Has(sorted[j], v) || HeldIn(merged, v, sorted[j].cc);
      }
  }

  // ---- the format, spelled out

  /** An IPv6 table counts in units of a /64. */
  lemma UnitIs()
    ensures Unit(false) == 1 && Unit(true) == 0x1_0000_0000_0000_0000
    ensures HeadLine(false) == "#hexdelta1:4" && HeadLine(true) == "#hexdelta1:6"
  {
  }

  const TWO_ROWS := [Row(10, "AA"), Row(42, "BB")]

  /** A table of two rows, as it is stored. */
  method StoredTable() returns (text: string)
    ensures text == "#hexdelta1:4\na,AA\n20,BB"
  {
    hide Join, Hex.Digits;
    text := WriteGeo(TWO_ROWS, false);
    UnitIs();
    TwoLines();
    JoinThree("#hexdelta1:4", "a,AA", "20,BB");
    assert "a,AA" + "\n" + "20,BB" == "a,AA\n20,BB";
    assert "#hexdelta1:4" + "\n" + "a,AA\n20,BB" == "#hexdelta1:4\na,AA\n20,BB";
  }

  lemma TwoLines()
    ensures [HeadLine(false)] + Encode(TWO_ROWS, 1, 0) == ["#hexdelta1:4", "a,AA", "20,BB"]
  {
    hide Hex.Digits;
    SmallHex();
    var last := [Row(42, "BB")];
    assert TWO_ROWS[1..] == last && last[1..] == [];
    assert Encode([], 1, 42) == [];
    assert Encode(last, 1, 10) == [Hex.Digits(32) + "," + "BB"] + [];
    assert Encode(TWO_ROWS, 1, 0) == [Hex.Digits(10) + "," + "AA"] + Encode(last, 1, 10);
    assert "a" + "," + "AA" == "a,AA" && "20" + "," + "BB" == "20,BB" && MAGIC + ":" + "4" == "#hexdelta1:4";
  }

  lemma SmallHex()
    ensures Hex.Digits(10) == "a" && Hex.Digits(32) == "20"
  {
    assert Hex.Digits(2) == "2";
  }

  lemma JoinThree(a: string, b: string, c: string)
    ensures Join([a, b, c], '\n') == a + "\n" + (b + "\n" + c)
  {
    assert [a, b, c][1..] == [b, c] && [b, c][1..] == [c];
    assert Join([b, c], '\n') == b + "\n" + c;
  }

  /** An IPv6 table is one whose first line ends in ":6", spaces aside. */
  lemma SixWhen(left: string, core: string, right: string)
    requires (forall i :: 0 <= i < |left| ==> IsPySpace(left[i])) && (forall i :: 0 <= i < |right| ==> IsPySpace(right[i]))
    requires core == "" || (!IsPySpace(core[0]) && !IsPySpace(core[|core| - 1]))
    ensures EndsSix(left + core + right) <==> |core| >= 2 && core[|core| - 2] == ':' && core[|core| - 1] == '6'
  {
    hide IsPySpace;
    TrimmedIs(left, core, right, c => IsPySpace(c));
    if |core| >= 2 { assert core[|core| - 2..] == [core[|core| - 2], core[|core| - 1]] && ":6" == [':', '6']; }
  }

  predicate NoRow(line: string) { ',' !in line || line[0] == ',' }

  /** Lines of hexadecimal distances and countries, with others between that have no comma or begin with one. */
  predicate Deltas(lines: seq<string>, rows: seq<Row>, u: nat, previous: nat)
    requires u > 0
  {
    if lines == [] then rows == []
    else if NoRow(lines[0]) then Deltas(lines[1..], rows, u, previous)
    else
      && rows != [] && rows[0].start % u == 0 && rows[0].start / u >= previous
      && lines[0] == Hex.Digits(rows[0].start / u - previous) + "," + rows[0].cc && PyStrip(rows[0].cc) == rows[0].cc
      && Deltas(lines[1..], rows[1..], u, rows[0].start / u)
  }

  lemma {:induction false} DeltaLines(lines: seq<string>, rows: seq<Row>, u: nat, previous: nat)
    requires u > 0 && Deltas(lines, rows, u, previous)
    ensures Decode(lines, true, u, previous) == Some(rows)
    decreases |lines|
  {
    hide PyStrip, Hex.Digits, ParseLine;
    if lines != [] {
      if NoRow(lines[0]) {
        SkippedLine(lines[0], true);
        DeltaLines(lines[1..], rows, u, previous);
      } else {
        var value := rows[0].start / u;
        Exact(rows[0].start, u);
        HexLine(value - previous, rows[0].cc);
        DeltaLines(lines[1..], rows[1..], u, value);
        DecodeStep(lines, u, previous, value - previous, rows[0].cc);
        assert Row(value * u, rows[0].cc) == rows[0] && [rows[0]] + rows[1..] == rows;
      }
    }
  }

  lemma HexLine(n: nat, cc: string)
    requires PyStrip(cc) == cc
    ensures ParseLine(Hex.Digits(n) + "," + cc, true) == Entry(n, cc)
  {
    hide Hex.Digits, PyStrip;
    var d := Hex.Digits(n);
    Hex.DigitsRoundTrip(n);
    NotEmpty(n);
    CommaAfter(d, cc);
    assert (d + "," + cc)[..|d|] == d && (d + "," + cc)[|d| + 1..] == cc;
    assert LowerAscii(d) == d;
  }

  /** A text whose first line begins with the mark is read as such lines, in units of a /64 if that line ends in ":6". */
  lemma NewTable(text: string, rows: seq<Row>)
    requires "#hexdelta1" <= Split(text, '\n')[0]
    requires Deltas(Split(text, '\n')[1..], rows, if EndsSix(Split(text, '\n')[0]) then 0x1_0000_0000_0000_0000 else 1, 0)
    ensures ParsedTable(text) == Some(rows)
  {
    hide Deltas, Decode, Split, EndsSix;
    var lines := Split(text, '\n');
    DeltaLines(lines[1..], rows, if EndsSix(lines[0]) then 0x1_0000_0000_0000_0000 else 1, 0);
  }

  // ---- the format before it

  /** Lines of decimal starts and countries, in any order, with others between that have no comma or begin with one. */
  predicate Lists(lines: seq<string>, rows: seq<Row>) {
    if lines == [] then rows == []
    else if NoRow(lines[0]) then Lists(lines[1..], rows)
    else
      && rows != [] && lines[0] == Decimal.Dec(rows[0].start) + "," + rows[0].cc && PyStrip(rows[0].cc) == rows[0].cc
      && Lists(lines[1..], rows[1..])
  }

  /** A text that does not begin with the mark of deltas is read as such lines. */
  lemma OldTable(text: string, rows: seq<Row>)
    requires Lists(Split(text, '\n'), rows) && !("#hexdelta1" <= text)
    ensures ParsedTable(text) == Some(rows)
  {
    hide Lists, Decode, Split, EndsSix, Unit;
    var lines := Split(text, '\n');
    SplitHead(text, '\n');
    assert lines[0] <= text;
    OldLines(lines, rows, 0);
  }

  lemma {:induction false} SplitHead(s: string, c: char)
    ensures Split(s, c)[0] <= s
  {
    if s != "" { SplitHead(s[1..], c); }
  }

  lemma {:induction false} OldLines(lines: seq<string>, rows: seq<Row>, previous: nat)
    requires Lists(lines, rows)
    ensures Decode(lines, false, 1, previous) == Some(rows)
    decreases |lines|
  {
    hide PyStrip, Decimal.Dec, ParseLine;
    if lines != [] {
      if NoRow(lines[0]) {
        SkippedLine(lines[0], false);
        OldLines(lines[1..], rows, previous);
      } else {
        OldLine(rows[0].start, rows[0].cc);
        OldLines(lines[1..], rows[1..], previous + rows[0].start);
        assert Row(rows[0].start, rows[0].cc) == rows[0] && [rows[0]] + rows[1..] == rows;
      }
    }
  }

  lemma SkippedLine(line: string, delta: bool)
    requires NoRow(line)
    ensures ParseLine(line, delta) == Skip
  {
    hide PyStrip, Comma;
    if ',' !in line { NoComma(line); } else { FirstComma(line); }
  }

  lemma {:induction false} NoComma(line: string)
    requires ',' !in line
    ensures Comma(line) == |line|
  {
    if line != "" { NoComma(line[1..]); }
  }

  lemma FirstComma(line: string)
    requires line != "" && line[0] == ','
    ensures Comma(line) == 0
  {
  }

  lemma OldLine(n: nat, cc: string)
    requires PyStrip(cc) == cc
    ensures ParseLine(Decimal.Dec(n) + "," + cc, false) == Entry(n, cc)
  {
    hide Decimal.Dec, PyStrip;
    var d := Decimal.Dec(n);
    Decimal.DecRoundTrip(n);
    CommaAfter(d, cc);
    assert (d + "," + cc)[..|d|] == d && (d + "," + cc)[|d| + 1..] == cc;
  }
}
