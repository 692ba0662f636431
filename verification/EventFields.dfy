/**
 The fields of an event line, by the quotes before each character instead of a state (core/logfmt.py), and the values
 the sensor writes, spelled out (sensor/src/event.rs).
 */
module EventFields {
  import opened Text
  import opened EventLine
  import Decimal

  // ---- splitting any text

  /** An odd number of quotes stands before i. */
  predicate Inside(line: string, i: nat)
    requires i <= |line|
  {
    if i == 0 then false else Inside(line, i - 1) != (line[i - 1] == '"')
  }

  /** A space or a line break with an even number of quotes before it. */
  predicate Stops(line: string, i: nat)
    requires i < |line|
  {
    !Inside(line, i) && line[i] in {' ', '\n', '\r'}
  }

  /** What a character leaves of itself: a quote nothing, but for the first of two where an odd number is before. */
  function Left(line: string, i: nat): string
    requires i < |line|
  {
    if line[i] != '"' then [line[i]]
    else if Inside(line, i) && i + 1 < |line| && line[i + 1] == '"' then "\""
    else ""
  }

  function LeftOf(line: string, from: nat, to: nat): string
    requires from <= to <= |line|
    decreases |line| - from
  {
    if from == to then "" else Left(line, from) + LeftOf(line, from + 1, to)
  }

  /** The first stop from i on, or the end. */
  function NextStop(line: string, i: nat): (k: nat)
    requires i <= |line|
    ensures i <= k <= |line| && (k < |line| ==> Stops(line, k)) && forall j :: i <= j < k ==> !Stops(line, j)
    decreases |line| - i
  {
    if i == |line| || Stops(line, i) then i else NextStop(line, i + 1)
  }

  /** The fields from i on: one up to each space that stops, and a last one up to a line break or the end. */
  function FieldsFrom(line: string, i: nat): (fields: seq<string>)
    requires i <= |line|
    ensures fields != []
    decreases |line| - i
  {
    var k := NextStop(line, i);
    if k < |line| && line[k] == ' ' then [LeftOf(line, i, k)] + FieldsFrom(line, k + 1) else [LeftOf(line, i, k)]
  }

  lemma StepField(line: string, i: nat)
    requires i < |line| && !Stops(line, i)
    ensures var (f, g) := (FieldsFrom(line, i), FieldsFrom(line, i + 1));
      f == [Left(line, i) + g[0]] + g[1..]
  {
    hide Left, Inside;
    var k := NextStop(line, i);
    assert k == NextStop(line, i + 1);
    assert LeftOf(line, i, k) == Left(line, i) + LeftOf(line, i + 1, k);
  }

  /** The splitter on the rest of a line, inside quotes exactly if an odd number was before. */
  lemma {:induction false} SplitRest(line: string, i: nat, part: string)
    requires i <= |line|
    ensures var f := FieldsFrom(line, i); SplitFrom(line[i..], Inside(line, i), part) == [part + f[0]] + f[1..]
    decreases |line| - i
  {
    hide FieldsFrom, SplitFrom;
    if i == |line| {
      NoField(line);
      SplitNone(part);
      assert line[i..] == "" && part + "" == part;
    } else {
      var rest, ch := line[i..], line[i];
      assert rest[0] == ch && rest[1..] == line[i + 1..];
      assert Inside(line, i + 1) == (Inside(line, i) != (ch == '"'));
      SplitOne(rest, Inside(line, i), part);
      if Stops(line, i) {
        StopField(line, i);
        assert part + "" == part;
        if ch == ' ' { SplitRest(line, i + 1, ""); OneField(FieldsFrom(line, i + 1)); }
      } else if Inside(line, i) && ch == '"' && i + 1 < |line| && line[i + 1] == '"' {
        assert rest[1] == '"' && rest[2..] == line[i + 2..];
        SplitRest(line, i + 2, part + "\"");
        StepField(line, i);
        StepField(line, i + 1);
        Glue(part, "\"", FieldsFrom(line, i + 2)[0]);
        assert "" + FieldsFrom(line, i + 2)[0] == FieldsFrom(line, i + 2)[0];
      } else {
        SplitRest(line, i + 1, part + Left(line, i));
        StepField(line, i);
        Glue(part, Left(line, i), FieldsFrom(line, i + 1)[0]);
        assert part + "" == part;
      }
    }
  }

  lemma Glue(a: string, b: string, c: string)
    ensures (a + b) + c == a + (b + c)
  {
  }

  lemma OneField(f: seq<string>)
    requires f != []
    ensures ["" + f[0]] + f[1..] == f
  {
    assert "" + f[0] == f[0];
  }

  lemma NoField(line: string)
    ensures FieldsFrom(line, |line|) == [""]
  {
  }

  lemma StopField(line: string, i: nat)
    requires i < |line| && Stops(line, i)
    ensures FieldsFrom(line, i) == if line[i] == ' ' then [""] + FieldsFrom(line, i + 1) else [""]
  {
    assert NextStop(line, i) == i;
  }

  lemma SplitNone(part: string)
    ensures forall quoted :: SplitFrom("", quoted, part) == [part]
  {
  }

  lemma SplitOne(rest: string, quoted: bool, part: string)
    requires rest != ""
    ensures var ch := rest[0];
      SplitFrom(rest, quoted, part) ==
        if quoted && ch == '"' && |rest| > 1 && rest[1] == '"' then SplitFrom(rest[2..], true, part + "\"")
        else if ch == '"' then SplitFrom(rest[1..], !quoted, part)
        else if quoted then SplitFrom(rest[1..], true, part + [ch])
        else if ch == ' ' then [part] + SplitFrom(rest[1..], false, "")
        else if ch == '\n' || ch == '\r' then [part]
        else SplitFrom(rest[1..], false, part + [ch])
  {
  }

  /** The splitter on any text, written by the sensor or not. */
  lemma SplitIs(line: string)
    ensures SplitFrom(line, false, "") == FieldsFrom(line, 0)
  {
    hide SplitFrom, FieldsFrom;
    SplitRest(line, 0, "");
    OneField(FieldsFrom(line, 0));
    assert line[0..] == line;
  }

  // ---- what is written

  /** A text with its line breaks as spaces, and a dash for nothing. */
  predicate IsClean(v: string, s: string) {
    if s == "" then v == "-"
    else |v| == |s| && forall k :: 0 <= k < |s| ==> v[k] == if s[k] == '\n' || s[k] == '\r' then ' ' else s[k]
  }

  predicate IsCleanField(v: string, f: Field) {
    match f
    case Str(s) => IsClean(v, s)
    case Int(i) =>
      if i == 0 then v == "-"
      else
        && (i < 0 ==> v != "" && v[0] == '-')
        && var d := if i < 0 then v[1..] else v; d != "" && Decimal.AllDigits(d) && Decimal.Value(d) == if i < 0 then -i else i
  }

  lemma CleanIs(s: string)
    ensures IsClean(Clean(s), s)
  {
  }

  lemma CleanFieldIs(f: Field)
    ensures IsCleanField(CleanField(f), f)
  {
    hide Decimal.Value, Decimal.Dec, Clean;
    match f
    case Str(s) => CleanIs(s);
    case Int(i) =>
      Decimal.DecRoundTrip(if i < 0 then -i else i);
      var d := Decimal.Dec(if i < 0 then -i else i);
      if i < 0 { assert ("-" + d)[1..] == d; }
  }

  /** The eleven values of an event, in the order of the log's columns. */
  lemma ValuesAreThese(e: Event, sensor: string, localtime: string)
    ensures var v := Values(e, sensor, localtime);
      && IsClean(v[0], localtime) && IsClean(v[1], sensor) && IsClean(v[2], e.srcIp) && IsCleanField(v[3], e.srcPort)
      && IsCleanField(v[4], e.dstIp) && IsCleanField(v[5], e.dstPort) && IsCleanField(v[6], e.proto) && IsClean(v[7], e.trailType)
      && IsCleanField(v[8], e.trail) && IsClean(v[9], e.info) && IsClean(v[10], e.reference)
  {
    hide Values, Clean, CleanField, IsClean, IsCleanField;
    ValuesAre(e, sensor, localtime);
    CleanIs(localtime);
    CleanIs(sensor);
    CleanIs(e.srcIp);
    CleanFieldIs(e.srcPort);
    CleanFieldIs(e.dstIp);
    CleanFieldIs(e.dstPort);
    CleanFieldIs(e.proto);
    CleanIs(e.trailType);
    CleanFieldIs(e.trail);
    CleanIs(e.info);
    CleanIs(e.reference);
  }

  /** Parts with two quotes between them. */
  function Doubles(parts: seq<string>): string {
    if parts == [] then "" else if |parts| == 1 then parts[0] else parts[0] + "\"\"" + Doubles(parts[1..])
  }

  /** A value stands as it is, or in quotes, its own quotes doubled, if it has a space or a quote. */
  predicate IsQuoted(q: string, v: string) {
    if ' ' in v || '"' in v then q == "\"" + Doubles(Split(v, '"')) + "\"" else q == v
  }

  lemma {:induction false} DoubledIs(s: string)
    ensures Doubled(s) == Doubles(Split(s, '"'))
  {
    if s != "" {
      DoubledIs(s[1..]);
      var rest := Split(s[1..], '"');
      if s[0] == '"' {
        assert ([""] + rest)[1..] == rest;
      } else {
        assert ([[s[0]] + rest[0]] + rest[1..])[1..] == rest[1..];
        if |rest| > 1 { Glue([s[0]], rest[0], "\"\"" + Doubles(rest[1..])); }
      }
    }
  }

  lemma {:induction false} JoinNext(parts: seq<string>, part: string, c: char)
    requires parts != []
    ensures Join(parts + [part], c) == Join(parts, c) + [c] + part
  {
    var all := parts + [part];
    if |parts| == 1 {
      assert all[1..] == [part];
    } else {
      assert all[1..] == parts[1..] + [part];
      JoinNext(parts[1..], part, c);
    }
  }

  /** The text of a line: its values, each quoted if it must be, with single spaces between. */
  lemma {:induction false} BodyIs(values: seq<string>) returns (texts: seq<string>)
    requires values != []
    ensures |texts| == |values| && (forall i :: 0 <= i < |values| ==> IsQuoted(texts[i], values[i]))
    ensures Body(values) == Join(texts, ' ')
  {
    hide Doubles, Doubled, Split;
    var last := |values| - 1;
    DoubledIs(values[last]);
    if last == 0 {
      texts := [Quoted(values[0])];
    } else {
      var front := BodyIs(values[..last]);
      texts := front + [Quoted(values[last])];
      JoinNext(front, Quoted(values[last]), ' ');
      assert " " == [' '];
    }
  }

  // ---- a whole line

  /** Up to the first line break. */
  predicate FirstLine(line: string, text: string) {
    text <= line && '\n' !in text && '\r' !in text && (text == line || line[|text|] in {'\n', '\r'})
  }

  lemma {:induction false} BeforeIs(text: string, c: char)
    ensures var b := Before(text, c); b <= text && c !in b && (b == text || text[|b|] == c)
  {
    if text != "" && text[0] != c {
      BeforeIs(text[1..], c);
      assert text == [text[0]] + text[1..];
    }
  }

  lemma FirstLineIs(line: string)
    ensures FirstLine(line, Before(Before(line, '\n'), '\r'))
  {
    hide Before;
    BeforeIs(line, '\n');
    BeforeIs(Before(line, '\n'), '\r');
  }

  /**
   A line that begins with a brace is JSON; of any other the first eleven fields count, those of the csv reader for its
   first line or, if that refuses, those above; a line of fewer is none.
   */
  lemma FieldsAre(line: string, csv: Csv, json: Csv, text: string)
    requires FirstLine(line, text)
    ensures var fields := if csv(text).Some? then csv(text).value else FieldsFrom(line, 0);
      Fields(line, csv, json) ==
        if "{" <= line then json(line) else if |fields| >= 11 then Some(fields[..11]) else None
  {
    hide Before, FieldsFrom, SplitFrom;
    FirstLineIs(line);
    SplitIs(line);
    OneFirstLine(line, text, Before(Before(line, '\n'), '\r'));
  }

  lemma OneFirstLine(line: string, a: string, b: string)
    requires FirstLine(line, a) && FirstLine(line, b)
    ensures a == b
  {
    assert a == line[..|a|] && b == line[..|b|];
    assert forall i :: 0 <= i < |a| ==> a[i] == line[i] && a[i] !in {'\n', '\r'};
    assert forall i :: 0 <= i < |b| ==> b[i] == line[i] && b[i] !in {'\n', '\r'};
  }
}
