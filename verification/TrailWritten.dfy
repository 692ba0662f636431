/**
 From the rows of a trail to what is written of it (core/update.py): for a trail that no other row's renames can
 reach, its name, its label and its confidence, from the labels merged under it.
 */
module TrailWritten {
  import opened Text
  import opened TrailGroup
  import opened TrailShard
  import opened TrailLocality
  import opened TrailMerge
  import opened TrailRules

  // ---- the whitelist pass

  /** The whitelist pass deletes the unlisted trails, and nothing else. */
  lemma {:induction false} SweepAllLeaves(r: Rules, s: State, keys: seq<string>)
    requires forall i, j :: 0 <= i < j < |keys| ==> keys[i] != keys[j]
    ensures var t := VisitAll(r, Whitelist, s, keys);
      && (forall x :: x in t.store.at <==> x in s.store.at && !(x in keys && Unlisted(r, x, s.store.at[x])))
      && (forall x :: x in t.store.at ==> t.store.at[x] == s.store.at[x])
      && t.dups == s.dups
    decreases |keys|
  {
    hide Visit, Unlisted;
    if keys != [] {
      var k, rest := keys[0], keys[1..];
      var s1 := Visit(r, Whitelist, s, k);
      if k in s.store.at { SweepLeaves(r, s, k); } else { NoVisit(r, s, k); }
      assert forall i :: 0 <= i < |rest| ==> rest[i] == keys[i + 1];
      SweepAllLeaves(r, s1, rest);
      assert k !in rest;
      assert forall x :: x in keys <==> x == k || x in rest;
    }
  }

  lemma NoVisit(r: Rules, s: State, k: string)
    requires k !in s.store.at
    ensures Visit(r, Whitelist, s, k) == s
  {
  }

  // ---- a trail by itself

  /** The rows of a key are merges, and no name that a row of another key can be given is in a group of its names. */
  ghost predicate Lone(n: Names, rows: seq<Numbered>, k: string) {
    forall i :: 0 <= i < |rows| ==>
      && Fair(n, rows[i].row)
      && (if rows[i].row.key == k then rows[i].row.kind == Merge else Reach(n, rows[i].row.key) !! Reach(n, k))
  }

  lemma {:induction false} LoneRows(n: Names, rows: seq<Numbered>, k: string)
    requires Lone(n, rows, k)
    ensures var only := OnlyRows(n, rows, Reach(n, k));
      && (forall i :: 0 <= i < |only| ==> only[i].row.key == k && only[i].row.kind == Merge)
      && ValuesOf(only, k) == ValuesOf(rows, k)
  {
    hide Group, Reach;
    if rows != [] {
      var front, x := rows[..|rows| - 1], rows[|rows| - 1];
      LoneRows(n, front, k);
      OwnGroup(n, x.row.key);
      var only := OnlyRows(n, front, Reach(n, k));
      if x.row.key == k {
        assert (only + [x])[..|only|] == only;
      } else {
        assert only + [] == only && ValuesOf(front, k) + [] == ValuesOf(front, k);
      }
    }
  }

  lemma {:induction false} SingleKey(rows: seq<Numbered>, k: string)
    requires forall i :: 0 <= i < |rows| ==> rows[i].row.key == k && rows[i].row.kind == Merge
    ensures var s := Fed(rows);
      && s.store.order == (if rows == [] then [] else [k])
      && s.store.at.Keys == (if rows == [] then {} else {k})
      && s.dups.Keys <= {k}
  {
    hide HasAny, Contains;
    if rows != [] {
      SingleKey(rows[..|rows| - 1], k);
      WinsWhen(None, rows[|rows| - 1].row.value);
    }
  }

  /** The agreement sets of a trail merged with these labels. */
  function Agreed(k: string, values: seq<Pair>): map<string, set<string>> {
    if |values| > 1 then map[k := References(values)] else map[]
  }

  /** The names, the label and the confidence of a trail that is left with the value v. */
  ghost predicate Written(r: Rules, t: State, k: string, v: Pair, agreed: map<string, set<string>>, m: Names5) {
    var dups := if Forgets(r, m.lower, v) then agreed - {m.lower} else agreed;
    var mark := Pair(NewInfo(r, m.lower, v.info), NewReference(r, dups, m.last, v.reference));
    && Renamed(r.names, k, m)
    && (forall x :: x != "" && Group(r.names, x) in Reach(r.names, k) ==>
          (x in t.store.at <==> x == m.last && !Drops(r, agreed, m.lower, v) && !Unlisted(r, x, mark)))
    && (forall x :: x != "" && Group(r.names, x) in Reach(r.names, k) && x in t.store.at ==>
          && t.store.at[x] == mark
          && IsConfidence(mark.reference, if x in dups then |dups[x]| else 0, ScoreOf(t, x).1))
  }

  /** What is written of a trail by itself: nothing but its last name, with the label its merges leave. */
  lemma TrailIsWritten(r: Rules, rows: seq<Numbered>, k: string) returns (b: nat, w: nat, m: Names5)
    requires Lone(r.names, rows, k) && ValuesOf(rows, k) != []
    ensures var values := ValuesOf(rows, k);
      && w < |values| && Kept(values, b, w)
      && Written(r, TrailMerge.Build(r, rows), k, values[w], Agreed(k, values), m)
  {
    var n, values, G := r.names, ValuesOf(rows, k), Reach(r.names, k);
    var only := OnlyRows(n, rows, G);
    LoneRows(n, rows, k);
    b, w, m := SingleIsWritten(r, only, k);
    LoneSettled(n, rows, k);
    BuildOnly(r, rows, G);
    WrittenOnly(r, TrailMerge.Build(r, rows), TrailMerge.Build(r, only), k, values[w], Agreed(k, values), m);
  }

  lemma LoneSettled(n: Names, rows: seq<Numbered>, k: string)
    requires Lone(n, rows, k)
    ensures forall i :: 0 <= i < |rows| ==> Fair(n, rows[i].row) && Settled(n, rows[i].row.key, Reach(n, k))
  {
    hide Reach, Group;
  }

  lemma WrittenOnly(r: Rules, full: State, part: State, k: string, v: Pair, agreed: map<string, set<string>>, m: Names5)
    requires Same(Only(r.names, full, Reach(r.names, k)), part) && Written(r, part, k, v, agreed, m)
    ensures Written(r, full, k, v, agreed, m)
  {
    hide Reach, Group, Forgets, NewInfo, NewReference, Renamed, Drops, Unlisted, ConfidenceScore, IsConfidence;
  }

  lemma SingleIsWritten(r: Rules, rows: seq<Numbered>, k: string) returns (b: nat, w: nat, m: Names5)
    requires ValuesOf(rows, k) != [] && forall i :: 0 <= i < |rows| ==> rows[i].row.key == k && rows[i].row.kind == Merge
    ensures var values := ValuesOf(rows, k);
      && w < |values| && Kept(values, b, w)
      && Written(r, TrailMerge.Build(r, rows), k, values[w], Agreed(k, values), m)
  {
    hide Fed, VisitAll, Visit, Kept, References, Written, ValuesOf;
    var s, values := Fed(rows), ValuesOf(rows, k);
    LabelKept(rows, k);
    SingleKey(rows, k);
    b, w :| w < |values| && Kept(values, b, w) && s.store.at[k] == values[w];
    m := CleanupLeaves(r, s, k);
    VisitOne(r, Cleanup, s, k);
    var t := VisitAll(r, Cleanup, s, s.store.order);
    FedWf(rows);
    VisitAllWf(r, Cleanup, s, s.store.order);
    SweepAllLeaves(r, t, t.store.order);
    assert s.dups == Agreed(k, values);
    SweptIsWritten(r, s, t, VisitAll(r, Whitelist, t, t.store.order), k, values[w], m);
  }

  lemma VisitOne(r: Rules, pass: Pass, s: State, k: string)
    ensures VisitAll(r, pass, s, [k]) == Visit(r, pass, s, k)
  {
    hide Visit;
    assert [k][1..] == [];
  }

  lemma SweptIsWritten(r: Rules, s: State, t: State, u: State, k: string, v: Pair, m: Names5)
    requires s.store.at == map[k := v] && Renamed(r.names, k, m) && Leaves(r, s.store.at, s.dups, t, k, v, m)
    requires forall x :: x in u.store.at <==> x in t.store.at && !Unlisted(r, x, t.store.at[x])
    requires forall x :: x in u.store.at ==> u.store.at[x] == t.store.at[x]
    requires u.dups == t.dups
    ensures Written(r, u, k, v, s.dups, m)
  {
    hide Reach, Group, Renamed, Unlisted, ConfidenceScore, IsConfidence, NewInfo, NewReference, Drops, Forgets, Leaves;
    LeavesOne(r, s, t, k, v, m);
    forall x | x in u.store.at ensures ScoreOf(u, x).1 == ConfidenceScore(u.store.at[x].reference, if x in u.dups then |u.dups[x]| else 0) { }
    forall reference: string, n: nat ensures IsConfidence(reference, n, ConfidenceScore(reference, n)) { ConfidenceIs(reference, n); }
  }

  /** A visit of the only trail leaves it under its last name or not at all. */
  lemma LeavesOne(r: Rules, s: State, t: State, k: string, v: Pair, m: Names5)
    requires s.store.at == map[k := v] && Leaves(r, s.store.at, s.dups, t, k, v, m)
    ensures forall x :: x != "" ==> (x in t.store.at <==> x == m.last && !Drops(r, s.dups, m.lower, v))
    ensures var dups := if Forgets(r, m.lower, v) then s.dups - {m.lower} else s.dups;
      t.dups == dups && forall x :: x != "" && x in t.store.at ==>
        t.store.at[x] == Pair(NewInfo(r, m.lower, v.info), NewReference(r, dups, m.last, v.reference))
  {
    hide Forgets, NewInfo, NewReference, Contains, Sunk;
  }
}
