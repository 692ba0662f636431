/** Sorted sequences, `sorted()` and `heapq.merge`, over any strict total order. */
module Sorting {

  ghost predicate Strict<T(!new)>(lt: (T, T) -> bool) {
    && (forall a :: !lt(a, a))
    && (forall a, b :: lt(a, b) || a == b || lt(b, a))
    && (forall a, b, c :: lt(a, b) && lt(b, c) ==> lt(a, c))
  }

  ghost predicate Sorted<T>(lt: (T, T) -> bool, s: seq<T>) {
    forall i, j :: 0 <= i < j < |s| ==> lt(s[i], s[j])
  }

  ghost predicate Distinct<T>(s: seq<T>) {
    forall i, j :: 0 <= i < j < |s| ==> s[i] != s[j]
  }

  function Insert<T>(lt: (T, T) -> bool, x: T, s: seq<T>): seq<T> {
    if s == [] || lt(x, s[0]) then [x] + s else [s[0]] + Insert(lt, x, s[1..])
  }

  /** `sorted(s)` */
  function Sort<T>(lt: (T, T) -> bool, s: seq<T>): seq<T> {
    if s == [] then [] else Insert(lt, s[0], Sort(lt, s[1..]))
  }

  /** `heapq.merge(a, b)` */
  function Merge<T>(lt: (T, T) -> bool, a: seq<T>, b: seq<T>): seq<T> {
    if a == [] then b
    else if b == [] then a
    else if lt(b[0], a[0]) then [b[0]] + Merge(lt, a, b[1..])
    else [a[0]] + Merge(lt, a[1..], b)
  }

  /** `heapq.merge(*runs)` */
  function MergeRuns<T>(lt: (T, T) -> bool, runs: seq<seq<T>>): seq<T> {
    if runs == [] then [] else Merge(lt, runs[0], MergeRuns(lt, runs[1..]))
  }

  lemma {:induction false} InsertSorted<T(!new)>(lt: (T, T) -> bool, x: T, s: seq<T>)
    requires Strict(lt) && Sorted(lt, s) && x !in s
    ensures Sorted(lt, Insert(lt, x, s))
    ensures forall y :: y in Insert(lt, x, s) <==> y == x || y in s
  {
    if s == [] {
    } else if lt(x, s[0]) {
    } else {
      var rest := s[1..];
      assert s == [s[0]] + rest;
      InsertSorted(lt, x, rest);
      assert s[0] in s;
      SortedCons(lt, s[0], Insert(lt, x, rest));
    }
  }

  lemma SortedCons<T>(lt: (T, T) -> bool, x: T, s: seq<T>)
    requires Sorted(lt, s) && forall y :: y in s ==> lt(x, y)
    ensures Sorted(lt, [x] + s)
  {
  }

  lemma {:induction false} SortSorted<T(!new)>(lt: (T, T) -> bool, s: seq<T>)
    requires Strict(lt) && Distinct(s)
    ensures Sorted(lt, Sort(lt, s))
    ensures forall y :: y in Sort(lt, s) <==> y in s
  {
    if s != [] {
      var rest := s[1..];
      assert s == [s[0]] + rest;
      assert s[0] !in rest;
      SortSorted(lt, rest);
      InsertSorted(lt, s[0], Sort(lt, rest));
    }
  }

  /** An order by a part of the elements: some differ and yet none comes first. */
  ghost predicate Weak<T(!new)>(lt: (T, T) -> bool) {
    && (forall a, b :: lt(a, b) ==> !lt(b, a))
    && (forall a, b, c :: !lt(a, b) && !lt(b, c) ==> !lt(a, c))
  }

  ghost predicate InOrder<T>(lt: (T, T) -> bool, s: seq<T>) {
    forall i, j :: 0 <= i < j < |s| ==> !lt(s[j], s[i])
  }

  lemma {:induction false} InsertInOrder<T(!new)>(lt: (T, T) -> bool, x: T, s: seq<T>)
    requires Weak(lt) && InOrder(lt, s)
    ensures InOrder(lt, Insert(lt, x, s))
    ensures forall y :: y in Insert(lt, x, s) <==> y == x || y in s
  {
    if s != [] && !lt(x, s[0]) {
      var rest := s[1..];
      assert s == [s[0]] + rest;
      InsertInOrder(lt, x, rest);
      var more := Insert(lt, x, rest);
      forall j | 0 <= j < |more| ensures !lt(more[j], s[0]) {
        assert more[j] in more;
        if more[j] != x { var i :| 0 <= i < |rest| && rest[i] == more[j]; assert s[i + 1] == more[j]; }
      }
    }
  }

  lemma {:induction false} SortInOrder<T(!new)>(lt: (T, T) -> bool, s: seq<T>)
    requires Weak(lt)
    ensures InOrder(lt, Sort(lt, s))
    ensures forall y :: y in Sort(lt, s) <==> y in s
  {
    if s != [] {
      assert s == [s[0]] + s[1..];
      SortInOrder(lt, s[1..]);
      InsertInOrder(lt, s[0], Sort(lt, s[1..]));
    }
  }

  lemma {:induction false} MergeSorted<T(!new)>(lt: (T, T) -> bool, a: seq<T>, b: seq<T>)
    requires Strict(lt) && Sorted(lt, a) && Sorted(lt, b)
    requires forall x :: x in a ==> x !in b
    ensures Sorted(lt, Merge(lt, a, b))
    ensures forall y :: y in Merge(lt, a, b) <==> y in a || y in b
    decreases |a| + |b|
  {
    if a == [] || b == [] {
    } else if lt(b[0], a[0]) {
      assert b == [b[0]] + b[1..];
      MergeSorted(lt, a, b[1..]);
      MergeHead(lt, a, b[1..], b[0]);
    } else {
      assert a == [a[0]] + a[1..];
      MergeSorted(lt, a[1..], b);
      assert a[0] in a && b[0] in b;
      MergeHead(lt, a[1..], b, a[0]);
    }
  }

  lemma MergeHead<T(!new)>(lt: (T, T) -> bool, a: seq<T>, b: seq<T>, x: T)
    requires Strict(lt) && Sorted(lt, a) && Sorted(lt, b) && Sorted(lt, Merge(lt, a, b))
    requires forall y :: y in Merge(lt, a, b) <==> y in a || y in b
    requires a != [] ==> lt(x, a[0])
    requires b != [] ==> lt(x, b[0])
    ensures Sorted(lt, [x] + Merge(lt, a, b))
  {
    forall y | y in Merge(lt, a, b) ensures lt(x, y) {
      if y in a { var i :| 0 <= i < |a| && a[i] == y; } else { var i :| 0 <= i < |b| && b[i] == y; }
    }
  }

  lemma HasElement<T>(s: seq<T>)
    ensures s != [] ==> exists x :: x in s
  {
    if s != [] { assert s[0] in s; }
  }

  /** A set has one sorted listing. */
  lemma {:induction false} SortedUnique<T(!new)>(lt: (T, T) -> bool, a: seq<T>, b: seq<T>)
    requires Strict(lt) && Sorted(lt, a) && Sorted(lt, b)
    requires forall x :: x in a <==> x in b
    ensures a == b
  {
    if a == [] {
      HasElement(b);
    } else {
      assert a[0] in b;
      assert b[0] in a;
      assert a[0] == b[0];
      var a', b' := a[1..], b[1..];
      assert a == [a[0]] + a' && b == [b[0]] + b';
      forall x ensures x in a' <==> x in b' {
        if x in a' { var i :| 0 <= i < |a'| && a'[i] == x; assert a[i + 1] == x && lt(a[0], x); }
        if x in b' { var i :| 0 <= i < |b'| && b'[i] == x; assert b[i + 1] == x && lt(b[0], x); }
        assert x in a ==> x == a[0] || x in a';
        assert x in b ==> x == b[0] || x in b';
      }
      SortedUnique(lt, a', b');
    }
  }

  lemma SortedDistinct<T(!new)>(lt: (T, T) -> bool, s: seq<T>)
    requires Strict(lt) && Sorted(lt, s)
    ensures Distinct(s)
  {
  }

  /** Concatenation of sorted sequences, the first below the second. */
  lemma SortedAppend<T(!new)>(lt: (T, T) -> bool, a: seq<T>, b: seq<T>)
    requires Sorted(lt, a) && Sorted(lt, b)
    requires forall x, y :: x in a && y in b ==> lt(x, y)
    ensures Sorted(lt, a + b)
  {
  }
}
