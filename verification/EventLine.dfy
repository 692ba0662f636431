/**
 The event log line: how the sensor writes it (sensor/src/event.rs) and how the readers take it apart
 (core/logfmt.py).
 */
module EventLine {
  import opened Text
  import Decimal

  datatype Field = Int(i: int) | Str(s: string)

  datatype Event = Event(srcIp: string, srcPort: Field, dstIp: Field, dstPort: Field, proto: Field, trailType: string,
                         trail: Field, info: string, reference: string)

  // ---- writing

  function IntText(i: int): string {
    if i < 0 then "-" + Decimal.Dec(-i) else Decimal.Dec(i)
  }

  predicate IsBreak(c: char) { c == '\n' || c == '\r' }

  /** CR and LF turned into spaces. */
  function Flatten(s: string): (r: string)
    ensures |r| == |s| && forall i :: 0 <= i < |s| ==> r[i] == if IsBreak(s[i]) then ' ' else s[i]
  {
    seq(|s|, i requires 0 <= i < |s| => if IsBreak(s[i]) then ' ' else s[i])
  }

  /** What a reader is to get back of a value. */
  function Clean(s: string): string {
    if s == "" then "-" else Flatten(s)
  }

  function CleanField(f: Field): string {
    match f
    case Int(i) => if i == 0 then "-" else IntText(i)
    case Str(s) => Clean(s)
  }

  function Doubled(s: string): string {
    if s == "" then "" else (if s[0] == '"' then "\"\"" else [s[0]]) + Doubled(s[1..])
  }

  predicate Plain(s: string) {
    ' ' !in s && '"' !in s
  }

  function Quoted(s: string): string {
    if Plain(s) then s else "\"" + Doubled(s) + "\""
  }

  /** Values with one space between them. */
  function Body(values: seq<string>): string
    requires values != []
  {
    var last := |values| - 1;
    if last == 0 then Quoted(values[0]) else Body(values[..last]) + " " + Quoted(values[last])
  }

  lemma DoubledNext(out: string, s: string, i: nat)
    requires i < |s|
    ensures out + Doubled(s[i..]) == out + (if s[i] == '"' then "\"\"" else [s[i]]) + Doubled(s[i + 1..])
  {
    assert s[i..][1..] == s[i + 1..];
  }

  lemma DoubledEnd(out: string, s: string)
    ensures out + Doubled(s[|s|..]) == out
  {
  }

  method PushSafeValue(before: string, value: string) returns (out: string)
    ensures out == before + Quoted(Clean(value))
  {
    hide Doubled;
    out := before;
    if value == "" {
      out := out + "-";
      return;
    }
    var needsFlatten := exists i :: 0 <= i < |value| && IsBreak(value[i]);
    var flattened := if needsFlatten then Flatten(value) else value;
    assert flattened == Clean(value) && flattened[0..] == flattened;
    if ' ' in flattened || '"' in flattened {
      out := out + "\"";
      ghost var head := out;
      var i := 0;
      while i < |flattened|
        invariant 0 <= i <= |flattened|
        invariant out + Doubled(flattened[i..]) == head + Doubled(flattened)
      {
        DoubledNext(out, flattened, i);
        if flattened[i] == '"' {
          out := out + "\"\"";
        } else {
          out := out + [flattened[i]];
        }
        i := i + 1;
      }
      DoubledEnd(out, flattened);
      out := out + "\"";
    } else {
      out := out + flattened;
    }
  }

  method PushSafeField(before: string, f: Field) returns (out: string)
    ensures out == before + Quoted(CleanField(f))
  {
    match f
    case Int(i) =>
      if i == 0 { return before + "-"; }
      IntPlain(i);
      return before + IntText(i);
    case Str(s) =>
      if s == "" { return before + "-"; }
      out := PushSafeValue(before, s);
  }

  lemma IntPlain(i: int)
    ensures Plain(IntText(i)) && !Broken(IntText(i)) && IntText(i) != ""
  {
    hide Decimal.Dec;
    var d := Decimal.Dec(if i < 0 then -i else i);
    Decimal.DecRoundTrip(if i < 0 then -i else i);
    forall k | 0 <= k < |d| ensures d[k] != ' ' && d[k] != '"' && !IsBreak(d[k]) { assert Decimal.IsDigit(d[k]); }
  }

  predicate Broken(s: string) {
    exists k :: 0 <= k < |s| && IsBreak(s[k])
  }

  /** The eleven values of a line, as a reader is to get them. */
  function Values(e: Event, sensor: string, localtime: string): (v: seq<string>)
    ensures |v| == 11
  {
    [Clean(localtime), Clean(sensor), Clean(e.srcIp), CleanField(e.srcPort), CleanField(e.dstIp), CleanField(e.dstPort),
     CleanField(e.proto), Clean(e.trailType), CleanField(e.trail), Clean(e.info), Clean(e.reference)]
  }

  lemma ValuesAre(e: Event, sensor: string, localtime: string)
    ensures var v := Values(e, sensor, localtime);
      && v[0] == Clean(localtime) && v[1] == Clean(sensor) && v[2] == Clean(e.srcIp) && v[3] == CleanField(e.srcPort)
      && v[4] == CleanField(e.dstIp) && v[5] == CleanField(e.dstPort) && v[6] == CleanField(e.proto) && v[7] == Clean(e.trailType)
      && v[8] == CleanField(e.trail) && v[9] == Clean(e.info) && v[10] == Clean(e.reference)
  {
  }

  method RenderLine(e: Event, sensor: string, localtime: string) returns (out: string)
    ensures out == Body(Values(e, sensor, localtime)) + "\n"
  {
    hide Quoted, Clean, CleanField, Body, Values;
    ghost var v := Values(e, sensor, localtime);
    ValuesAre(e, sensor, localtime);
    BodyOne(v);
    out := PushSafeValue("", localtime);
    BodyNext(v, 1);
    out := PushSafeValue(out + " ", sensor);
    BodyNext(v, 2);
    out := PushSafeValue(out + " ", e.srcIp);
    BodyNext(v, 3);
    out := PushSafeField(out + " ", e.srcPort);
    BodyNext(v, 4);
    out := PushSafeField(out + " ", e.dstIp);
    BodyNext(v, 5);
    out := PushSafeField(out + " ", e.dstPort);
    BodyNext(v, 6);
    out := PushSafeField(out + " ", e.proto);
    BodyNext(v, 7);
    out := PushSafeValue(out + " ", e.trailType);
    BodyNext(v, 8);
    out := PushSafeField(out + " ", e.trail);
    BodyNext(v, 9);
    out := PushSafeValue(out + " ", e.info);
    BodyNext(v, 10);
    out := PushSafeValue(out + " ", e.reference);
    assert v[..11] == v;
    out := out + "\n";
  }

  lemma BodyOne(v: seq<string>)
    requires v != []
    ensures Body(v[..1]) == "" + Quoted(v[0])
  {
  }

  lemma BodyNext(v: seq<string>, k: nat)
    requires 0 < k < |v|
    ensures Body(v[..k + 1]) == Body(v[..k]) + " " + Quoted(v[k])
  {
    assert v[..k + 1][..k] == v[..k];
  }

  // ---- splitting

  /** The splitter's state machine from one character on: inside quotes or not, with the part of a field read. */
  function SplitFrom(line: string, quoted: bool, part: string): (fields: seq<string>)
    ensures |fields| > 0
    decreases |line|
  {
    if line == "" then [part]
    else
      var ch := line[0];
      if quoted then
        if ch == '"' && |line| > 1 && line[1] == '"' then SplitFrom(line[2..], true, part + "\"")
        else if ch == '"' then SplitFrom(line[1..], false, part)
        else SplitFrom(line[1..], true, part + [ch])
      else if ch == '"' then SplitFrom(line[1..], true, part)
      else if ch == ' ' then [part] + SplitFrom(line[1..], false, "")
      else if IsBreak(ch) then [part]
      else SplitFrom(line[1..], false, part + [ch])
  }

  method SplitTextLineSlow(line: string) returns (fields: seq<string>)
    ensures fields == SplitFrom(line, false, "")
  {
    fields := [];
    var parts, quoted := "", false;
    var i := 0;
    assert line[0..] == line;
    while i < |line|
      invariant 0 <= i <= |line|
      invariant fields + SplitFrom(line[i..], quoted, parts) == SplitFrom(line, false, "")
    {
      var ch := line[i];
      ghost var rest := line[i..];
      assert rest[1..] == line[i + 1..];
      if quoted {
        if ch == '"' {
          if line[i + 1..] != "" && line[i + 1] == '"' {
            assert rest[1] == '"' && rest[2..] == line[i + 2..];
            parts := parts + "\"";
            i := i + 2;
            continue;
          }
          quoted := false;
        } else {
          parts := parts + [ch];
        }
      } else if ch == '"' {
        quoted := true;
      } else if ch == ' ' {
        assert fields + ([parts] + SplitFrom(line[i + 1..], false, "")) == (fields + [parts]) + SplitFrom(line[i + 1..], false, "");
        fields := fields + [parts];
        parts := "";
      } else if IsBreak(ch) {
        fields := fields + [parts];
        return;
      } else {
        parts := parts + [ch];
      }
      i := i + 1;
    }
    fields := fields + [parts];
  }

  // ---- a line is taken apart into what was written

  lemma {:induction false} ReadPlain(s: string, rest: string, part: string)
    requires Plain(s) && !Broken(s)
    ensures SplitFrom(s + rest, false, part) == SplitFrom(rest, false, part + s)
    decreases |s|
  {
    if s == "" {
      assert s + rest == rest && part + s == part;
    } else {
      assert (s + rest)[1..] == s[1..] + rest && (part + [s[0]]) + s[1..] == part + s;
      assert !IsBreak(s[0]);
      assert forall k :: 0 <= k < |s[1..]| ==> s[1..][k] == s[k + 1];
      ReadPlain(s[1..], rest, part + [s[0]]);
    }
  }

  lemma {:induction false} ReadDoubled(s: string, rest: string, part: string)
    requires rest == "" || rest[0] != '"'
    ensures SplitFrom(Doubled(s) + ("\"" + rest), true, part) == SplitFrom(rest, false, part + s)
    decreases |s|
  {
    hide Broken, IsBreak, SplitFrom;
    var tail := "\"" + rest;
    if s == "" {
      assert Doubled(s) + tail == tail && tail[1..] == rest && part + s == part;
      ReadEnd(tail, part);
    } else {
      ReadDoubled(s[1..], rest, part + [s[0]]);
      assert (part + [s[0]]) + s[1..] == part + s;
      assert Doubled(s) + tail == (if s[0] == '"' then "\"\"" else [s[0]]) + (Doubled(s[1..]) + tail);
      ReadOne(s[0], Doubled(s[1..]) + tail, part);
    }
  }

  lemma ReadEnd(line: string, part: string)
    requires line != "" && line[0] == '"' && (|line| > 1 ==> line[1] != '"')
    ensures SplitFrom(line, true, part) == SplitFrom(line[1..], false, part)
  {
  }

  lemma ReadOne(c: char, rest: string, part: string)
    ensures SplitFrom((if c == '"' then "\"\"" else [c]) + rest, true, part) == SplitFrom(rest, true, part + [c])
  {
    if c == '"' { assert ("\"\"" + rest)[2..] == rest; } else { assert ([c] + rest)[1..] == rest; }
  }

  lemma ReadField(s: string, rest: string)
    requires !Broken(s) && (rest == "" || rest[0] != '"')
    ensures SplitFrom(Quoted(s) + rest, false, "") == SplitFrom(rest, false, s)
  {
    hide Doubled, Broken;
    assert "" + s == s;
    if Plain(s) {
      ReadPlain(s, rest, "");
    } else {
      ReadDoubled(s, rest, "");
      var tail := Doubled(s) + ("\"" + rest);
      assert Quoted(s) + rest == ['"'] + tail && (['"'] + tail)[1..] == tail;
    }
  }

  ghost predicate NoBreaks(values: seq<string>) {
    forall i :: 0 <= i < |values| ==> !Broken(values[i])
  }

  lemma ReadSpace(part: string, rest: string)
    ensures SplitFrom(" " + rest, false, part) == [part] + SplitFrom(rest, false, "")
  {
    assert (" " + rest)[1..] == rest;
  }

  lemma {:induction false} ReadBody(values: seq<string>, rest: string)
    requires values != [] && NoBreaks(values)
    ensures SplitFrom(Body(values) + " " + rest, false, "") == values + SplitFrom(rest, false, "")
  {
    hide Quoted, Broken, SplitFrom;
    var last := |values| - 1;
    var tail := " " + rest;
    ReadField(values[last], tail);
    ReadSpace(values[last], rest);
    if last == 0 {
      assert Body(values) + " " + rest == Quoted(values[0]) + tail && [values[0]] == values;
    } else {
      ReadBody(values[..last], Quoted(values[last]) + tail);
      assert Body(values) + " " + rest == Body(values[..last]) + " " + (Quoted(values[last]) + tail);
      assert values[..last] + ([values[last]] + SplitFrom(rest, false, "")) == values + SplitFrom(rest, false, "");
    }
  }

  /** Splitting a line of any values without line breaks gives the values. */
  lemma LineRoundTrip(values: seq<string>)
    requires values != [] && NoBreaks(values)
    ensures SplitFrom(Body(values) + "\n", false, "") == values
  {
    hide Quoted, Broken;
    var last := |values| - 1;
    ReadField(values[last], "\n");
    if last > 0 {
      ReadBody(values[..last], Quoted(values[last]) + "\n");
      assert Body(values) + "\n" == Body(values[..last]) + " " + (Quoted(values[last]) + "\n");
      assert values[..last] + [values[last]] == values;
    }
  }

  /** The same without the newline, as the csv reader is given it. */
  lemma BodyRoundTrip(values: seq<string>)
    requires values != [] && NoBreaks(values)
    ensures SplitFrom(Body(values), false, "") == values
  {
    hide Quoted, Broken;
    var last := |values| - 1;
    ReadField(values[last], "");
    assert Quoted(values[last]) + "" == Quoted(values[last]);
    if last > 0 {
      ReadBody(values[..last], Quoted(values[last]));
      assert values[..last] + [values[last]] == values;
    }
  }

  lemma CleanUnbroken(s: string)
    ensures !Broken(Clean(s)) && Clean(s) != ""
  {
  }

  lemma CleanFieldUnbroken(f: Field)
    ensures !Broken(CleanField(f)) && CleanField(f) != ""
  {
    if f.Int? { IntPlain(f.i); }
  }

  lemma ValuesUnbroken(e: Event, sensor: string, localtime: string)
    ensures NoBreaks(Values(e, sensor, localtime))
  {
    hide Clean, CleanField, Broken;
    CleanUnbroken(localtime);
    CleanUnbroken(sensor);
    CleanUnbroken(e.srcIp);
    CleanFieldUnbroken(e.srcPort);
    CleanFieldUnbroken(e.dstIp);
    CleanFieldUnbroken(e.dstPort);
    CleanFieldUnbroken(e.proto);
    CleanUnbroken(e.trailType);
    CleanFieldUnbroken(e.trail);
    CleanUnbroken(e.info);
    CleanUnbroken(e.reference);
  }

  /** A text has no line break: quoting adds none. */
  lemma {:induction false} QuotedUnbroken(s: string)
    requires !Broken(s)
    ensures !Broken(Quoted(s))
  {
    if !Plain(s) {
      DoubledUnbroken(s);
      var q, d := Quoted(s), Doubled(s);
      forall k | 0 <= k < |q| ensures !IsBreak(q[k]) { if 0 < k <= |d| { assert q[k] == d[k - 1]; } }
    }
  }

  lemma {:induction false} DoubledUnbroken(s: string)
    requires !Broken(s)
    ensures !Broken(Doubled(s))
    decreases |s|
  {
    if s != "" {
      assert !IsBreak(s[0]);
      assert forall k :: 0 <= k < |s[1..]| ==> s[1..][k] == s[k + 1];
      DoubledUnbroken(s[1..]);
      var head, d := if s[0] == '"' then "\"\"" else [s[0]], Doubled(s[1..]);
      forall k | 0 <= k < |head + d| ensures !IsBreak((head + d)[k]) { if k >= |head| { assert (head + d)[k] == d[k - |head|]; } }
    }
  }

  lemma {:induction false} BodyUnbroken(values: seq<string>)
    requires values != [] && NoBreaks(values)
    ensures !Broken(Body(values))
  {
    hide Quoted;
    var last := |values| - 1;
    QuotedUnbroken(values[last]);
    if last > 0 {
      BodyUnbroken(values[..last]);
      var a, q := Body(values[..last]), Quoted(values[last]);
      forall k | 0 <= k < |Body(values)| ensures !IsBreak(Body(values)[k]) {
        if k < |a| { assert Body(values)[k] == a[k]; } else if k > |a| { assert Body(values)[k] == q[k - |a| - 1]; }
      }
    }
  }

  /** The csv reader takes one text and may refuse it. */
  type Csv = string -> Option<seq<string>>

  /** `text.partition(c)[0]` */
  function Before(text: string, c: char): string {
    if text == "" || text[0] == c then "" else [text[0]] + Before(text[1..], c)
  }

  /** `split_text_line`: the csv reader on the text before a line break, and the splitter above for what it refuses. */
  function SplitTextLine(line: string, csv: Csv): seq<string> {
    match csv(Before(Before(line, '\n'), '\r'))
    case Some(fields) => fields
    case None => SplitFrom(line, false, "")
  }

  /** On lines of several values, such as the sensor writes, the reader gives what the splitter gives, or refuses. */
  ghost predicate Agrees(csv: Csv) {
    forall values: seq<string> :: |values| > 1 && NoBreaks(values) ==>
      csv(Body(values)) == None || csv(Body(values)) == Some(SplitFrom(Body(values), false, ""))
  }

  // ---- Python's own reader

  datatype State = Start | InField | InQuotes | QuoteInQuotes

  function Add(part: string, fields: Option<seq<string>>): Option<seq<string>> {
    if fields.Some? then Some([part] + fields.value) else None
  }

  /**
   The state machine of Python's csv reader for this dialect from one character on: a quote opens quotes only at
   the start of a field, whatever follows a closing quote goes on the field, and a character over the limit of a
   field is refused, as is a text after a line break.
   */
  function CsvFrom(limit: nat, line: string, state: State, part: string): Option<seq<string>> {
    if line == "" then Some([part])
    else
      var ch := line[0];
      if state != InQuotes && IsBreak(ch) then if forall k :: 0 <= k < |line| ==> IsBreak(line[k]) then Some([part]) else None
      else if state != InQuotes && ch == ' ' then Add(part, CsvFrom(limit, line[1..], Start, ""))
      else if state == Start && ch == '"' then CsvFrom(limit, line[1..], InQuotes, part)
      else if state == InQuotes && ch == '"' then CsvFrom(limit, line[1..], QuoteInQuotes, part)
      else if |part| >= limit then None
      else CsvFrom(limit, line[1..], if state == InQuotes || (state == QuoteInQuotes && ch == '"') then InQuotes else InField, part + [ch])
  }

  /** `csv.reader([line], delimiter=" ")`: no field for an empty line; some versions refuse a NUL. */
  function CsvReader(limit: nat, noNul: bool, line: string): Option<seq<string>> {
    if noNul && '\0' in line then None
    else if forall k :: 0 <= k < |line| ==> IsBreak(line[k]) then Some([])
    else CsvFrom(limit, line, Start, "")
  }

  /** What the reader makes of the end of a field. */
  function AfterField(limit: nat, rest: string, part: string): Option<seq<string>> {
    if rest == "" then Some([part]) else Add(part, CsvFrom(limit, rest[1..], Start, ""))
  }

  /** Nothing for a text over the limit. */
  function Within(limit: nat, s: string, n: nat, fields: Option<seq<string>>): Option<seq<string>> {
    if s != "" && n > limit then None else fields
  }

  predicate AllWithin(limit: nat, values: seq<string>) {
    forall i :: 0 <= i < |values| ==> |values[i]| <= limit
  }

  lemma {:induction false} CsvPlain(limit: nat, s: string, rest: string, part: string)
    requires Plain(s) && !Broken(s) && (rest == "" || rest[0] == ' ')
    ensures CsvFrom(limit, s + rest, InField, part) == Within(limit, s, |part| + |s|, AfterField(limit, rest, part + s))
    decreases |s|
  {
    if s == "" {
      assert s + rest == rest && part + s == part;
    } else {
      assert (s + rest)[1..] == s[1..] + rest && (part + [s[0]]) + s[1..] == part + s;
      assert !IsBreak(s[0]);
      assert forall k :: 0 <= k < |s[1..]| ==> s[1..][k] == s[k + 1];
      CsvPlain(limit, s[1..], rest, part + [s[0]]);
    }
  }

  lemma {:induction false} CsvDoubled(limit: nat, s: string, rest: string, part: string)
    requires rest == "" || rest[0] == ' '
    ensures CsvFrom(limit, Doubled(s) + ("\"" + rest), InQuotes, part) == Within(limit, s, |part| + |s|, AfterField(limit, rest, part + s))
    decreases |s|
  {
    hide Broken;
    var tail := "\"" + rest;
    var line := Doubled(s) + tail;
    if s == "" {
      assert line == tail && tail[1..] == rest && part + s == part;
    } else {
      CsvDoubled(limit, s[1..], rest, part + [s[0]]);
      assert (part + [s[0]]) + s[1..] == part + s;
      if s[0] == '"' {
        assert line[2..] == Doubled(s[1..]) + tail && line[0] == '"' && line[1] == '"';
        assert line[1..][1..] == line[2..];
      } else {
        assert line[1..] == Doubled(s[1..]) + tail;
      }
    }
  }

  lemma CsvUnquoted(limit: nat, s: string, rest: string)
    requires Plain(s) && !Broken(s) && (rest == "" || rest[0] == ' ')
    ensures CsvFrom(limit, s + rest, Start, "") == Within(limit, s, |s|, AfterField(limit, rest, s))
  {
    if s == "" {
      assert s + rest == rest;
    } else {
      assert !IsBreak(s[0]);
      assert forall k :: 0 <= k < |s[1..]| ==> s[1..][k] == s[k + 1];
      assert (s + rest)[1..] == s[1..] + rest && [s[0]] + s[1..] == s && "" + [s[0]] == [s[0]];
      CsvPlain(limit, s[1..], rest, [s[0]]);
    }
  }

  lemma CsvQuoted(limit: nat, s: string, rest: string)
    requires rest == "" || rest[0] == ' '
    ensures CsvFrom(limit, ['"'] + (Doubled(s) + ("\"" + rest)), Start, "") == Within(limit, s, |s|, AfterField(limit, rest, s))
  {
    hide Doubled;
    var tail := Doubled(s) + ("\"" + rest);
    CsvDoubled(limit, s, rest, "");
    assert "" + s == s && (['"'] + tail)[1..] == tail;
  }

  lemma CsvField(limit: nat, s: string, rest: string)
    requires !Broken(s) && (rest == "" || rest[0] == ' ')
    ensures CsvFrom(limit, Quoted(s) + rest, Start, "") == Within(limit, s, |s|, AfterField(limit, rest, s))
  {
    hide Doubled, Plain, Broken, CsvFrom, AfterField;
    if Plain(s) {
      CsvUnquoted(limit, s, rest);
    } else {
      CsvQuoted(limit, s, rest);
      assert Quoted(s) + rest == ['"'] + (Doubled(s) + ("\"" + rest));
    }
  }

  lemma {:induction false} CsvBody(limit: nat, values: seq<string>, rest: string)
    requires values != [] && NoBreaks(values)
    ensures var c, d := CsvFrom(limit, Body(values) + " " + rest, Start, ""), CsvFrom(limit, rest, Start, "");
      c == if d.Some? && AllWithin(limit, values) then Some(values + d.value) else None
  {
    hide Quoted, Broken, CsvFrom;
    var last := |values| - 1;
    var tail := " " + rest;
    CsvField(limit, values[last], tail);
    assert tail[1..] == rest;
    var d := CsvFrom(limit, rest, Start, "");
    if last == 0 {
      assert Body(values) + " " + rest == Quoted(values[0]) + tail;
      assert [values[last]] == values;
    } else {
      CsvBody(limit, values[..last], Quoted(values[last]) + tail);
      assert Body(values) + " " + rest == Body(values[..last]) + " " + (Quoted(values[last]) + tail);
      if d.Some? { assert values[..last] + ([values[last]] + d.value) == values + d.value; }
    }
  }

  /** Python's reader reads a line of several values back, exactly if none is over the limit, or holds a NUL it refuses. */
  lemma CsvReads(limit: nat, noNul: bool, values: seq<string>)
    requires |values| > 1 && NoBreaks(values)
    ensures CsvReader(limit, noNul, Body(values)) ==
      if AllWithin(limit, values) && !(noNul && '\0' in Body(values)) then Some(values) else None
  {
    hide Quoted, Broken, CsvFrom;
    var last := |values| - 1;
    CsvField(limit, values[last], "");
    CsvBody(limit, values[..last], Quoted(values[last]));
    assert Quoted(values[last]) + "" == Quoted(values[last]);
    assert Body(values)[|Body(values[..last])|] == ' ';
    assert values[..last] + [values[last]] == values;
  }

  /** So it is, whatever its limit, one the theorem below is about. */
  lemma CsvAgrees(limit: nat, noNul: bool)
    ensures Agrees(line => CsvReader(limit, noNul, line))
    ensures CsvReader(limit, noNul, "") == Some([])
  {
    hide Body, CsvReader, SplitFrom;
    forall values: seq<string> | |values| > 1 && NoBreaks(values)
      ensures var c := CsvReader(limit, noNul, Body(values)); c == None || c == Some(SplitFrom(Body(values), false, ""))
    {
      BodyRoundTrip(values);
      CsvReads(limit, noNul, values);
    }
    NothingRead(limit, noNul);
  }

  lemma NothingRead(limit: nat, noNul: bool)
    ensures CsvReader(limit, noNul, "") == Some([])
  {
  }

  predicate IsJsonLine(line: string) {
    line != "" && line[0] == '{'
  }

  /** `fields()`, with the reading of JSON lines a parameter. */
  function Fields(line: string, csv: Csv, json: Csv): Option<seq<string>> {
    if IsJsonLine(line) then json(line)
    else
      var values := SplitTextLine(line, csv);
      if |values| >= 11 then Some(values[..11]) else None
  }

  lemma {:induction false} BeforeNone(text: string, c: char)
    requires c !in text
    ensures Before(text, c) == text && Before(text + [c], c) == text
  {
    if text == "" {
      assert text + [c] == [c];
    } else {
      assert (text + [c])[1..] == text[1..] + [c];
      BeforeNone(text[1..], c);
    }
  }

  /**
   Every event comes back from its line: exactly eleven fields, each the value written with its line breaks
   turned into spaces and "-" for nothing; and the line holds one newline, its last character.
   */
  lemma EventRoundTrip(e: Event, sensor: string, localtime: string, csv: Csv, json: Csv)
    requires Agrees(csv)
    ensures var line := Body(Values(e, sensor, localtime)) + "\n";
      && SplitFrom(line, false, "") == Values(e, sensor, localtime)
      && (!IsJsonLine(line) ==> Fields(line, csv, json) == Some(Values(e, sensor, localtime)))
      && forall k :: 0 <= k < |line| ==> (line[k] == '\n' <==> k == |line| - 1)
  {
    hide Values, Body, SplitFrom, Before;
    var v := Values(e, sensor, localtime);
    ValuesUnbroken(e, sensor, localtime);
    LineRoundTrip(v);
    BodyRoundTrip(v);
    BodyUnbroken(v);
    assert v[..11] == v;
    var b := Body(v);
    forall k | 0 <= k < |b| ensures (b + "\n")[k] != '\n' && b[k] != '\r' { assert !IsBreak(b[k]); }
    BeforeNone(b, '\n');
    BeforeNone(b, '\r');
  }

  /**
   The line is taken for JSON exactly if its timestamp begins with a brace and needs no quotes; a timestamp
   with a space, as the sensor writes them, never does.
   */
  lemma NeverJson(e: Event, sensor: string, localtime: string)
    ensures IsJsonLine(Body(Values(e, sensor, localtime)) + "\n") <==>
      localtime != "" && localtime[0] == '{' && Plain(localtime) && !Broken(localtime)
    ensures ' ' in localtime ==> !IsJsonLine(Body(Values(e, sensor, localtime)) + "\n")
  {
    var v := Values(e, sensor, localtime);
    BodyHead(v);
    CleanUnbroken(localtime);
    if localtime != "" && Broken(localtime) {
      var k :| 0 <= k < |localtime| && IsBreak(localtime[k]);
      assert Flatten(localtime)[k] == ' ';
    } else if localtime != "" {
      assert Flatten(localtime) == localtime;
    }
  }

  lemma {:induction false} BodyHead(values: seq<string>)
    requires values != [] && values[0] != ""
    ensures Body(values) != "" && Body(values)[0] == Quoted(values[0])[0]
  {
    if |values| > 1 { BodyHead(values[..|values| - 1]); }
  }
}
