/**
 Reassembling lines from an arbitrarily chunked byte stream (html/js/worker.js): the parser is handed
 whole lines only, and the bytes after the last newline wait for the next chunk.
 */
module Feed {
  import opened Text

  type Byte = b: nat | b < 256

  const NEWLINE: Byte := 10

  /** The length of the bytes up to and with the last newline; 0 without one. */
  function Whole(bytes: seq<Byte>): (n: nat)
    ensures n <= |bytes|
    ensures n > 0 ==> bytes[n - 1] == NEWLINE
    ensures NEWLINE !in bytes[n..]
  {
    if bytes == [] then 0
    else if bytes[|bytes| - 1] == NEWLINE then |bytes|
    else Whole(bytes[..|bytes| - 1])
  }

  function Concat<T>(parts: seq<seq<T>>): seq<T> {
    if parts == [] then [] else Concat(parts[..|parts| - 1]) + parts[|parts| - 1]
  }

  /** The lines of a text, each with its newline, and a last one without. */
  function Lines(bytes: seq<Byte>): (lines: seq<seq<Byte>>)
    decreases |bytes|
  {
    if bytes == [] then [] else var n := LineEnd(bytes); [bytes[..n]] + Lines(bytes[n..])
  }

  function LineEnd(bytes: seq<Byte>): (n: nat)
    requires bytes != []
    ensures 0 < n <= |bytes|
    ensures NEWLINE !in bytes[..n - 1]
    ensures bytes[n - 1] == NEWLINE || n == |bytes|
  {
    if bytes[0] == NEWLINE || |bytes| == 1 then 1 else 1 + LineEnd(bytes[1..])
  }

  /** `texts` went to the parser, `rest` waits. */
  class Reader {
    var pending: Option<seq<Byte>>
    ghost var texts: seq<seq<Byte>>

    ghost function Rest(): seq<Byte>
      reads this
    {
      if pending.Some? then pending.value else []
    }

    /** Everything read so far: whole lines parsed, the start of one pending. */
    ghost predicate Holds(stream: seq<Byte>)
      reads this
    {
      && Concat(texts) == stream[..Whole(stream)]
      && Rest() == stream[Whole(stream)..]
      && forall i :: 0 <= i < |texts| ==> texts[i] != [] && texts[i][|texts[i]| - 1] == NEWLINE
    }

    constructor ()
      ensures Holds([]) && pending == None
    {
      pending, texts := None, [];
    }

    method Join(u8: seq<Byte>) returns (all: seq<Byte>)
      modifies `pending
      ensures all == old(Rest()) + u8 && pending == None
    {
      if pending.None? {
        assert [] + u8 == u8;
        return u8;
      }
      all := pending.value + u8;
      pending := None;
    }

    /** The text handed to the parser, if the chunk completes a line. */
    method Chunk(u8: seq<Byte>, ghost stream: seq<Byte>) returns (text: Option<seq<Byte>>)
      requires Holds(stream)
      modifies this
      ensures Holds(stream + u8)
      ensures texts == old(texts) + if text.Some? then [text.value] else []
    {
      hide Whole, Concat;
      var all := Join(u8);
      var nl := Whole(all);
      WholeAppend(stream, u8);
      if nl == 0 {
        pending := Some(all);
        return None;
      }
      var whole := all[..nl];
      if nl < |all| {
        pending := Some(all[nl..]);
      }
      ConcatPush(texts, whole);
      texts := texts + [whole];
      return Some(whole);
    }

    /** The length of the incomplete final line. */
    method End() returns (tail: nat)
      modifies `pending
      ensures tail == old(|Rest()|) && pending == None
    {
      tail := if pending.Some? then |pending.value| else 0;
      pending := None;
    }
  }

  lemma ConcatPush<T>(parts: seq<seq<T>>, part: seq<T>)
    ensures Concat(parts + [part]) == Concat(parts) + part
  {
    assert (parts + [part])[..|parts|] == parts;
  }

  /** The whole lines of a longer stream: those of the stream, and those of its rest with what is new. */
  lemma WholeAppend(stream: seq<Byte>, u8: seq<Byte>)
    ensures var all := stream[Whole(stream)..] + u8;
      && Whole(stream + u8) == Whole(stream) + Whole(all)
      && (stream + u8)[..Whole(stream + u8)] == stream[..Whole(stream)] + all[..Whole(all)]
      && (stream + u8)[Whole(stream + u8)..] == all[Whole(all)..]
  {
    hide Whole;
    var a := stream[..Whole(stream)];
    assert stream + u8 == a + (stream[Whole(stream)..] + u8);
    WholeAfter(a, stream[Whole(stream)..] + u8);
  }

  lemma WholeAfter(a: seq<Byte>, b: seq<Byte>)
    requires a == [] || a[|a| - 1] == NEWLINE
    ensures Whole(a + b) == |a| + Whole(b)
    ensures (a + b)[..Whole(a + b)] == a + b[..Whole(b)] && (a + b)[Whole(a + b)..] == b[Whole(b)..]
  {
    hide Whole;
    assert (a + b)[|a| + Whole(b)..] == b[Whole(b)..];
    WholeUnique(a + b, |a| + Whole(b));
  }

  lemma WholeUnique(bytes: seq<Byte>, n: nat)
    requires n <= |bytes| && (n > 0 ==> bytes[n - 1] == NEWLINE) && NEWLINE !in bytes[n..]
    ensures Whole(bytes) == n
  {
    hide Whole;
    NoneAfter(bytes, n, Whole(bytes));
    NoneAfter(bytes, Whole(bytes), n);
  }

  lemma NoneAfter(bytes: seq<Byte>, n: nat, m: nat)
    requires n <= |bytes| && NEWLINE !in bytes[n..] && m <= |bytes| && (m > 0 ==> bytes[m - 1] == NEWLINE)
    ensures m <= n
  {
  }

  /** Lines never straddle two texts that end in newlines. */
  lemma {:induction false} LinesConcat(a: seq<Byte>, b: seq<Byte>)
    requires a == [] || a[|a| - 1] == NEWLINE
    ensures Lines(a + b) == Lines(a) + Lines(b)
    decreases |a|
  {
    hide LineEnd;
    if a == [] {
      assert a + b == b;
    } else {
      var n := LineEnd(a);
      LineEndPrefix(a, b);
      assert (a + b)[..n] == a[..n] && (a + b)[n..] == a[n..] + b;
      if n < |a| { assert a[n..][|a| - n - 1] == NEWLINE; }
      LinesConcat(a[n..], b);
    }
  }

  lemma {:induction false} LineEndPrefix(a: seq<Byte>, b: seq<Byte>)
    requires a != [] && a[|a| - 1] == NEWLINE
    ensures LineEnd(a + b) == LineEnd(a)
    decreases |a|
  {
    if a[0] != NEWLINE {
      assert (a + b)[1..] == a[1..] + b;
      LineEndPrefix(a[1..], b);
    }
  }

  function LinesEach(texts: seq<seq<Byte>>): seq<seq<Byte>> {
    if texts == [] then [] else LinesEach(texts[..|texts| - 1]) + Lines(texts[|texts| - 1])
  }

  /**
   However the stream was cut into chunks, the lines of the texts the parser got, in their order, are the
   complete lines of the stream.
   */
  lemma {:induction false} LinesOfTexts(texts: seq<seq<Byte>>)
    requires forall i :: 0 <= i < |texts| ==> texts[i] != [] && texts[i][|texts[i]| - 1] == NEWLINE
    ensures Lines(Concat(texts)) == LinesEach(texts)
    ensures texts != [] ==> Concat(texts) != [] && Concat(texts)[|Concat(texts)| - 1] == NEWLINE
  {
    hide Lines;
    if texts == [] {
      NoLines();
    } else {
      LinesOfTexts(texts[..|texts| - 1]);
      LinesConcat(Concat(texts[..|texts| - 1]), texts[|texts| - 1]);
    }
  }

  lemma NoLines()
    ensures Lines([]) == []
  {
  }

  /** Two ways of cutting one stream hand the parser the same bytes and leave the same rest. */
  lemma SameStream(a: seq<seq<Byte>>, b: seq<seq<Byte>>)
    requires Concat(a) == Concat(b)
    ensures Parsed(a) == Parsed(b) == (Concat(a)[..Whole(Concat(a))], Concat(a)[Whole(Concat(a))..])
  {
    ParsedIs(a);
    ParsedIs(b);
  }

  /** What reading chunk by chunk parses and leaves. */
  function Parsed(chunks: seq<seq<Byte>>): (seq<Byte>, seq<Byte>) {
    if chunks == [] then ([], [])
    else
      var (texts, rest) := Parsed(chunks[..|chunks| - 1]);
      var all := rest + chunks[|chunks| - 1];
      (texts + all[..Whole(all)], all[Whole(all)..])
  }

  lemma {:induction false} ParsedIs(chunks: seq<seq<Byte>>)
    ensures Parsed(chunks) == (Concat(chunks)[..Whole(Concat(chunks))], Concat(chunks)[Whole(Concat(chunks))..])
  {
    if chunks != [] {
      ParsedIs(chunks[..|chunks| - 1]);
      WholeAppend(Concat(chunks[..|chunks| - 1]), chunks[|chunks| - 1]);
    }
  }
}
