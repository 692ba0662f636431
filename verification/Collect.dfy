/**
 The bounded collector of distinct values of html/js/engine.js: accum() adds a value, or the parts of a
 comma list, until MAX_CONDENSED distinct ones are in; then an ellipsis closes the set.
 */
module Collect {
  import opened Text

  const MAX_CONDENSED := 100
  const ELLIPSIS := "\U{2026}"

  /** `vals` is a JavaScript Set: distinct values in the order they were added. */
  datatype Values = Values(n: nat, capped: bool, vals: seq<string>)

  const NONE_YET := Values(0, false, [])

  /** Adding to a JavaScript Set. */
  function Add(vals: seq<string>, v: string): seq<string> {
    if v in vals then vals else vals + [v]
  }

  /** One part of a list. */
  function Take(s: Values, part: string): Values {
    if s.capped || part == "" || part in s.vals then s
    else if s.n >= MAX_CONDENSED then s.(vals := Add(s.vals, ELLIPSIS), capped := true)
    else s.(vals := s.vals + [part], n := s.n + 1)
  }

  function TakeAll(s: Values, parts: seq<string>): Values {
    if parts == [] then s else Take(TakeAll(s, parts[..|parts| - 1]), parts[|parts| - 1])
  }

  method Accum(s: Values, raw: string) returns (t: Values)
    requires Proper(s)
    ensures t == TakeAll(s, Split(raw, ',')) && Proper(t)
  {
    TakeAllProper(s, Split(raw, ','));
    if s.capped {
      CappedStays(s, Split(raw, ','));
      return s;
    }
    if raw in s.vals {
      TakeOne(s, raw);
      return s;
    }
    if ',' !in raw {
      TakeOne(s, raw);
      if raw == "" { return s; }
      if s.n >= MAX_CONDENSED { return s.(vals := Add(s.vals, ELLIPSIS), capped := true); }
      return s.(vals := s.vals + [raw], n := s.n + 1);
    }
    t := s;
    var parts := Split(raw, ',');
    for i := 0 to |parts|
      invariant t == TakeAll(s, parts[..i]) && !t.capped
    {
      assert parts[..i + 1][..i] == parts[..i];
      var p := parts[i];
      if p == "" || p in t.vals { continue; }
      if t.n >= MAX_CONDENSED {
        t := t.(vals := Add(t.vals, ELLIPSIS), capped := true);
        CappedRest(s, parts, i + 1);
        return;
      }
      t := t.(vals := t.vals + [p], n := t.n + 1);
    }
    assert parts[..|parts|] == parts;
  }

  lemma {:induction false} CappedStays(s: Values, parts: seq<string>)
    requires s.capped
    ensures TakeAll(s, parts) == s
  {
    if parts != [] { CappedStays(s, parts[..|parts| - 1]); }
  }

  lemma {:induction false} CappedRest(s: Values, parts: seq<string>, i: nat)
    requires i <= |parts| && TakeAll(s, parts[..i]).capped
    ensures TakeAll(s, parts) == TakeAll(s, parts[..i])
    decreases |parts| - i
  {
    if i == |parts| {
      assert parts[..i] == parts;
    } else {
      assert parts[..i + 1][..i] == parts[..i];
      CappedRest(s, parts, i + 1);
    }
  }

  lemma TakeOne(s: Values, raw: string)
    requires ',' !in raw
    ensures TakeAll(s, Split(raw, ',')) == Take(s, raw)
  {
    SplitWhole(raw, ',');
    assert [raw][..0] == [];
  }

  // ---- what a collector holds

  /** Distinct non-empty values without a comma; open, they are counted; capped, they are the cap and the ellipsis. */
  ghost predicate Proper(s: Values) {
    && (forall i, j :: 0 <= i < j < |s.vals| ==> s.vals[i] != s.vals[j])
    && (forall v :: v in s.vals ==> v != "" && ',' !in v)
    && s.n <= MAX_CONDENSED
    && (if s.capped then s.n == MAX_CONDENSED && (|s.vals| == s.n || |s.vals| == s.n + 1) && ELLIPSIS in s.vals else |s.vals| == s.n)
  }

  lemma TakeProper(s: Values, part: string)
    requires Proper(s) && ',' !in part
    ensures Proper(Take(s, part)) && s.vals <= Take(s, part).vals && (s.capped ==> Take(s, part).capped)
  {
  }

  lemma {:induction false} TakeEach(s: Values, parts: seq<string>)
    requires Proper(s) && forall p :: p in parts ==> ',' !in p
    ensures Proper(TakeAll(s, parts)) && s.vals <= TakeAll(s, parts).vals && (s.capped ==> TakeAll(s, parts).capped)
  {
    if parts != [] {
      TakeEach(s, parts[..|parts| - 1]);
      TakeProper(TakeAll(s, parts[..|parts| - 1]), parts[|parts| - 1]);
    }
  }

  /** A collector only grows, at its end. */
  lemma TakeAllProper(s: Values, raw: seq<string>)
    requires Proper(s) && exists text :: raw == Split(text, ',')
    ensures Proper(TakeAll(s, raw)) && s.vals <= TakeAll(s, raw).vals && (s.capped ==> TakeAll(s, raw).capped)
  {
    var text :| raw == Split(text, ',');
    SplitParts(text, ',');
    TakeEach(s, raw);
  }

  // ---- the reference: the distinct parts of everything seen, cut at the cap

  function AllParts(raws: seq<string>): seq<string> {
    if raws == [] then [] else AllParts(raws[..|raws| - 1]) + Split(raws[|raws| - 1], ',')
  }

  /** Distinct non-empty parts, in the order they first come. */
  function Distinct(parts: seq<string>): seq<string> {
    if parts == [] then []
    else
      var front, p := Distinct(parts[..|parts| - 1]), parts[|parts| - 1];
      if p == "" then front else Add(front, p)
  }

  function Cut(all: seq<string>): Values {
    if |all| <= MAX_CONDENSED then Values(|all|, false, all)
    else Values(MAX_CONDENSED, true, Add(all[..MAX_CONDENSED], ELLIPSIS))
  }

  lemma TakeIsCut(parts: seq<string>, part: string)
    requires TakeAll(NONE_YET, parts) == Cut(Distinct(parts))
    ensures Take(TakeAll(NONE_YET, parts), part) == Cut(Distinct(parts + [part]))
  {
    assert (parts + [part])[..|parts|] == parts;
    var all, more := Distinct(parts), Distinct(parts + [part]);
    if |all| > MAX_CONDENSED {
      assert more[..MAX_CONDENSED] == all[..MAX_CONDENSED];
    } else if |more| > MAX_CONDENSED {
      assert more[..MAX_CONDENSED] == all;
    }
  }

  lemma {:induction false} PartsAreCut(parts: seq<string>)
    ensures TakeAll(NONE_YET, parts) == Cut(Distinct(parts))
  {
    if parts != [] {
      var front := parts[..|parts| - 1];
      PartsAreCut(front);
      TakeIsCut(front, parts[|parts| - 1]);
      assert front + [parts[|parts| - 1]] == parts;
    }
  }

  lemma {:induction false} TakeConcat(s: Values, a: seq<string>, b: seq<string>)
    ensures TakeAll(s, a + b) == TakeAll(TakeAll(s, a), b)
  {
    if b == [] {
      assert a + b == a;
    } else {
      assert (a + b)[..|a + b| - 1] == a + b[..|b| - 1];
      TakeConcat(s, a, b[..|b| - 1]);
    }
  }

  function Collected(raws: seq<string>): Values {
    if raws == [] then NONE_YET else TakeAll(Collected(raws[..|raws| - 1]), Split(raws[|raws| - 1], ','))
  }

  /** Any run of accum() holds the first hundred distinct parts seen, and an ellipsis if there were more. */
  lemma {:induction false} CollectedIsCut(raws: seq<string>)
    ensures Collected(raws) == Cut(Distinct(AllParts(raws)))
  {
    CollectedIsParts(raws);
    PartsAreCut(AllParts(raws));
  }

  lemma {:induction false} CollectedIsParts(raws: seq<string>)
    ensures Collected(raws) == TakeAll(NONE_YET, AllParts(raws))
  {
    if raws != [] {
      CollectedIsParts(raws[..|raws| - 1]);
      TakeConcat(NONE_YET, AllParts(raws[..|raws| - 1]), Split(raws[|raws| - 1], ','));
    }
  }

  /** The reference has each part but the empty one, once, the earlier before the later. */
  lemma {:induction false} DistinctAre(parts: seq<string>)
    ensures forall p :: p in Distinct(parts) <==> p in parts && p != ""
    ensures forall i, j :: 0 <= i < j < |Distinct(parts)| ==> Distinct(parts)[i] != Distinct(parts)[j]
    ensures forall n :: 0 <= n <= |parts| ==> Distinct(parts[..n]) <= Distinct(parts)
  {
    if parts != [] {
      var last := |parts| - 1;
      DistinctAre(parts[..last]);
      assert parts == parts[..last] + [parts[last]];
      forall n | 0 <= n <= |parts| ensures Distinct(parts[..n]) <= Distinct(parts) {
        if n == |parts| { assert parts[..n] == parts; } else { assert parts[..last][..n] == parts[..n]; }
      }
    }
  }

  /** A hundred values at most, and then one ellipsis. */
  lemma HundredValues(raws: seq<string>)
    ensures var (all, c) := (Distinct(AllParts(raws)), Collected(raws));
      && c.n == (if |all| <= 100 then |all| else 100) && (c.capped <==> |all| > 100)
      && (|all| <= 100 ==> c.vals == all)
      && (|all| > 100 ==> c.vals == if "\U{2026}" in all[..100] then all[..100] else all[..100] + ["\U{2026}"])
  {
    CollectedIsCut(raws);
  }
}
