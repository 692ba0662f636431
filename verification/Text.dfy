/** Strings as the modelled programs see them: sequences of characters, compared character by character. */
module Text {

  datatype Option<+T> = None | Some(value: T)

  /** `needle in s` */
  predicate Contains(s: string, needle: string) {
    exists i :: 0 <= i <= |s| && Occurs(s, needle, i)
  }

  predicate Occurs(s: string, needle: string, i: nat)
    requires i <= |s|
  {
    needle <= s[i..]
  }

  /** `any(_ in s for _ in needles)` */
  predicate HasAny(s: string, needles: seq<string>) {
    exists i :: 0 <= i < |needles| && Contains(s, needles[i])
  }

  predicate IsAscii(s: string) {
    forall i :: 0 <= i < |s| ==> s[i] < 128 as char
  }

  function LowerChar(c: char): char {
    if 'A' <= c <= 'Z' then c - 'A' + 'a' else c
  }

  /** `s.lower()` of an ASCII string */
  function LowerAscii(s: string): (r: string)
    ensures |r| == |s|
    ensures forall i :: 0 <= i < |s| ==> r[i] == LowerChar(s[i])
    ensures IsAscii(s) ==> IsAscii(r)
  {
    seq(|s|, i requires 0 <= i < |s| => LowerChar(s[i]))
  }

  /** Strict lexicographic order. */
  predicate Less(a: string, b: string) {
    if a == [] then b != []
    else b != [] && (a[0] < b[0] || (a[0] == b[0] && Less(a[1..], b[1..])))
  }

  lemma {:induction false} LessIrreflexive(a: string)
    ensures !Less(a, a)
  {
    if a != [] { LessIrreflexive(a[1..]); }
  }

  lemma {:induction false} LessTransitive(a: string, b: string, c: string)
    requires Less(a, b) && Less(b, c)
    ensures Less(a, c)
  {
    if a != [] && a[0] == b[0] == c[0] { LessTransitive(a[1..], b[1..], c[1..]); }
  }

  lemma {:induction false} LessTotal(a: string, b: string)
    ensures Less(a, b) || a == b || Less(b, a)
  {
    if a != [] && b != [] && a[0] == b[0] {
      LessTotal(a[1..], b[1..]);
      assert a[1..] == b[1..] ==> a == [a[0]] + a[1..] == b;
    }
  }

  /** `s.split(c)` */
  function Split(s: string, c: char): (parts: seq<string>)
    ensures |parts| > 0
  {
    if s == "" then [""]
    else
      var rest := Split(s[1..], c);
      if s[0] == c then [""] + rest else [[s[0]] + rest[0]] + rest[1..]
  }

  /** `c.join(parts)` */
  function Join(parts: seq<string>, c: char): string {
    if parts == [] then "" else if |parts| == 1 then parts[0] else parts[0] + [c] + Join(parts[1..], c)
  }

  lemma {:induction false} SplitWhole(s: string, c: char)
    requires c !in s
    ensures Split(s, c) == [s]
  {
    if s != "" {
      SplitWhole(s[1..], c);
      assert [s[0]] + s[1..] == s;
    }
  }

  lemma {:induction false} SplitParts(s: string, c: char)
    ensures forall p :: p in Split(s, c) ==> c !in p
  {
    if s != "" { SplitParts(s[1..], c); }
  }

  lemma {:induction false} SplitFirst(part: string, rest: string, c: char)
    requires c !in part
    ensures Split(part + [c] + rest, c) == [part] + Split(rest, c)
  {
    var s := part + [c] + rest;
    if part == "" {
      assert s[1..] == rest;
    } else {
      assert s[1..] == part[1..] + [c] + rest;
      SplitFirst(part[1..], rest, c);
      assert [part[0]] + part[1..] == part;
    }
  }

  /** Splitting what was joined gives the parts back, if the separator is in none of them. */
  lemma {:induction false} SplitJoin(parts: seq<string>, c: char)
    requires parts != [] && forall i :: 0 <= i < |parts| ==> c !in parts[i]
    ensures Split(Join(parts, c), c) == parts
  {
    if |parts| == 1 {
      SplitWhole(parts[0], c);
    } else {
      SplitJoin(parts[1..], c);
      SplitFirst(parts[0], Join(parts[1..], c), c);
    }
  }

  /** `s.strip()`, for some notion of space. */
  function Trimmed(s: string, space: char -> bool): string {
    if s == "" then ""
    else if space(s[0]) then Trimmed(s[1..], space)
    else if space(s[|s| - 1]) then Trimmed(s[..|s| - 1], space)
    else s
  }

  lemma {:induction false} TrimmedBlank(s: string, space: char -> bool)
    requires forall i :: 0 <= i < |s| ==> space(s[i])
    ensures Trimmed(s, space) == ""
  {
    if s != "" { TrimmedBlank(s[1..], space); }
  }

  /** Only the spaces at both ends go. */
  lemma {:induction false} TrimmedIs(left: string, core: string, right: string, space: char -> bool)
    requires (forall i :: 0 <= i < |left| ==> space(left[i])) && (forall i :: 0 <= i < |right| ==> space(right[i]))
    requires core == "" || (!space(core[0]) && !space(core[|core| - 1]))
    ensures Trimmed(left + core + right, space) == core
    decreases |left| + |right|
  {
    var s := left + core + right;
    if left != "" {
      assert s[1..] == left[1..] + core + right;
      TrimmedIs(left[1..], core, right, space);
    } else if core == "" {
      assert s == right;
      TrimmedBlank(right, space);
    } else if right != "" {
      var less := right[..|right| - 1];
      assert s[..|s| - 1] == left + core + less && s[0] == core[0] && s[|s| - 1] == right[|right| - 1];
      TrimmedIs(left, core, less, space);
    } else {
      assert s == core;
    }
  }
}
