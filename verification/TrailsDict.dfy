/**
 The compact store of core/trailsdict.py: finalize() replaces every key by its hash, split over two sorted
 arrays, and keeps verbatim only the keys whose hash another key shares. Lookups bisect.
 */
module TrailsDict {
  import opened Text
  import opened TrailTable
  import Sorting

  type Hash63 = h: nat | h < 0x8000_0000_0000_0000

  datatype Snapshot<P> = Snapshot(hi: seq<nat>, lo: seq<nat>, values: seq<nat>, pairList: seq<P>, collisions: map<string, P>, length: nat)

  /** The keys of one hash: the usual one, or a list of several. */
  datatype Group = Bare(key: string) | Listed(keys: seq<string>)

  function Members(g: Group): seq<string> {
    match g case Bare(k) => [k] case Listed(ks) => ks
  }

  /** The first index from i that holds both halves of h. */
  function Place(hi: seq<nat>, lo: seq<nat>, h: nat, i: nat): (r: Option<nat>)
    requires |hi| == |lo| && i <= |hi|
    ensures r.Some? ==> i <= r.value < |hi| && hi[r.value] == Hi(h) && lo[r.value] == Lo(h)
    ensures r.None? ==> forall j :: i <= j < |hi| ==> !(hi[j] == Hi(h) && lo[j] == Lo(h))
    decreases |hi| - i
  {
    if i == |hi| then None else if hi[i] == Hi(h) && lo[i] == Lo(h) then Some(i) else Place(hi, lo, h, i + 1)
  }

  /** Three arrays of one length, the high halves sorted, every value a number of a pair. */
  ghost predicate Shaped<P>(s: Snapshot<P>) {
    && |s.hi| == |s.lo| == |s.values|
    && (forall i, j :: 0 <= i < j < |s.hi| ==> s.hi[i] <= s.hi[j])
    && (forall i :: 0 <= i < |s.values| ==> s.values[i] < |s.pairList|)
  }

  ghost function Answer<P>(s: Snapshot<P>, hash: string -> Hash63, key: string): Option<P>
    requires Shaped(s)
  {
    if key in s.collisions then Some(s.collisions[key])
    else match Place(s.hi, s.lo, hash(key), 0)
      case None => None
      case Some(i) => Some(s.pairList[s.values[i]])
  }

  /** The hash of `lone` is the hash of no other key. */
  ghost predicate Alone<P>(trails: map<string, P>, hash: string -> Hash63, lone: string) {
    lone in trails && forall k :: k in trails && hash(k) == hash(lone) ==> k == lone
  }

  /**
   The snapshot answers for the dict: a stored key has its value and the length is that of the dict, hashes
   shared or not; a key that is not stored misses, unless its hash is that of a lone stored key.
   */
  ghost predicate Compacts<P>(trails: map<string, P>, hash: string -> Hash63, s: Snapshot<P>) {
    && Shaped(s)
    && s.length == |trails|
    && (forall k :: k in trails ==> Answer(s, hash, k) == Some(trails[k]))
    && (forall k :: k !in trails ==> (Answer(s, hash, k).Some? <==> exists lone :: Alone(trails, hash, lone) && hash(lone) == hash(k)))
    && (forall k, lone :: k !in trails && Alone(trails, hash, lone) && hash(lone) == hash(k) ==> Answer(s, hash, k) == Some(trails[lone]))
  }

  /** The first index whose element is not below the target. */
  method BisectLeft(a: seq<nat>, target: nat) returns (i: nat)
    requires forall i, j :: 0 <= i < j < |a| ==> a[i] <= a[j]
    ensures i <= |a|
    ensures forall j :: 0 <= j < i ==> a[j] < target
    ensures forall j :: i <= j < |a| ==> target <= a[j]
  {
    var end := |a|;
    i := 0;
    while i < end
      invariant i <= end <= |a|
      invariant forall j :: 0 <= j < i ==> a[j] < target
      invariant forall j :: end <= j < |a| ==> target <= a[j]
    {
      var mid := (i + end) / 2;
      if a[mid] < target {
        i := mid + 1;
      } else {
        end := mid;
      }
    }
  }

  lemma {:induction false} PlaceSkips(hi: seq<nat>, lo: seq<nat>, h: nat, i: nat, j: nat)
    requires |hi| == |lo| && i <= j <= |hi|
    requires forall k :: i <= k < j ==> !(hi[k] == Hi(h) && lo[k] == Lo(h))
    ensures Place(hi, lo, h, i) == Place(hi, lo, h, j)
    decreases j - i
  {
    if i < j { PlaceSkips(hi, lo, h, i + 1, j); }
  }

  // ---- what finalize builds

  /** `groups` sorts the keys done so far by hash; a list has two keys or more. */
  ghost predicate Grouped(done: set<string>, hash: string -> Hash63, groups: map<nat, Group>) {
    && (forall h :: h in groups && groups[h].Bare? ==> groups[h].key in done && hash(groups[h].key) == h)
    && (forall h :: h in groups && groups[h].Listed? ==> Several(groups[h].keys) && forall k :: k in groups[h].keys ==> k in done && hash(k) == h)
    && (forall k :: k in done ==> hash(k) in groups && k in Members(groups[hash(k)]))
  }

  ghost predicate Several(keys: seq<string>) {
    |keys| > 1 && keys[0] != keys[1]
  }

  lemma GroupNext(done: set<string>, hash: string -> Hash63, groups: map<nat, Group>, key: string)
    requires Grouped(done, hash, groups) && key !in done
    ensures var h := hash(key);
      var g := if h !in groups then Bare(key) else match groups[h] case Bare(k) => Listed([k, key]) case Listed(ks) => Listed(ks + [key]);
      Grouped(done + {key}, hash, groups[h := g])
  {
  }

  /** Clean rows list the hashes of the bare keys done so far, each once. */
  ghost predicate Listing(clean: seq<(nat, nat)>, lone: map<nat, nat>) {
    && (forall i :: 0 <= i < |clean| ==> clean[i].0 in lone && lone[clean[i].0] == clean[i].1)
    && (forall i, j :: 0 <= i < j < |clean| ==> clean[i].0 != clean[j].0)
    && (forall h :: h in lone ==> (h, lone[h]) in clean)
  }

  /** Tuples compare by hash, then by number. */
  predicate RowBelow(a: (nat, nat), b: (nat, nat)) { a.0 < b.0 || (a.0 == b.0 && a.1 < b.1) }

  /** `clean.sort()` */
  function Sort(rows: seq<(nat, nat)>): seq<(nat, nat)> { Sorting.Sort(RowBelow, rows) }

  ghost predicate Rising(rows: seq<(nat, nat)>) {
    forall i, j :: 0 <= i < j < |rows| ==> rows[i].0 < rows[j].0
  }

  /** Sorted rows of distinct hashes rise. */
  lemma SortRises(rows: seq<(nat, nat)>)
    requires forall i, j :: 0 <= i < j < |rows| ==> rows[i].0 != rows[j].0
    ensures Rising(Sort(rows)) && forall x :: x in Sort(rows) <==> x in rows
  {
    Sorting.SortSorted(RowBelow, rows);
    var s := Sort(rows);
    forall i, j | 0 <= i < j < |s| ensures s[i].0 < s[j].0 {
      assert s[i] in s && s[j] in s;
      var k :| 0 <= k < |rows| && rows[k] == s[i];
      var l :| 0 <= l < |rows| && rows[l] == s[j];
      assert k != l;
    }
  }

  function Packed<P>(clean: seq<(nat, nat)>, pairList: seq<P>, collisions: map<string, P>, length: nat): (s: Snapshot<P>)
    ensures |s.hi| == |s.lo| == |s.values| == |clean|
    ensures s.pairList == pairList && s.collisions == collisions && s.length == length
  {
    var n := |clean|;
    Snapshot(seq(n, i requires 0 <= i < n => clean[i].0 / HALF), seq(n, i requires 0 <= i < n => clean[i].0 % HALF),
      seq(n, i requires 0 <= i < n => clean[i].1), pairList, collisions, length)
  }

  /** What the loop over the groups knows of the hashes done so far. */
  ghost predicate Collected<P>(trails: map<string, P>, hash: string -> Hash63, groups: map<nat, Group>, done: set<nat>,
                               lone: map<nat, nat>, pairList: seq<P>, collisions: map<string, P>) {
    && Grouped(trails.Keys, hash, groups)
    && (forall h :: h in lone <==> h in done && h in groups && groups[h].Bare?)
    && (forall h :: h in lone ==> lone[h] < |pairList| && pairList[lone[h]] == trails[groups[h].key])
    && (forall k :: k in collisions <==> k in trails && hash(k) in done && groups[hash(k)].Listed?)
    && (forall k :: k in collisions ==> collisions[k] == trails[k])
  }

  /** A bare key is alone with its hash, a listed one is not. */
  lemma BareIsAlone<P>(trails: map<string, P>, hash: string -> Hash63, groups: map<nat, Group>, k: string)
    requires Grouped(trails.Keys, hash, groups) && k in trails
    ensures Alone(trails, hash, k) <==> groups[hash(k)] == Bare(k)
    ensures groups[hash(k)].Bare? ==> groups[hash(k)] == Bare(k)
  {
    var g := groups[hash(k)];
    if g.Listed? {
      assert g.keys[0] in g.keys && g.keys[1] in g.keys;
    }
  }

  lemma ListedHash<P>(trails: map<string, P>, hash: string -> Hash63, groups: map<nat, Group>, h: nat)
    requires Grouped(trails.Keys, hash, groups) && h in groups
    ensures exists k :: k in trails && hash(k) == h
  {
    if groups[h].Listed? { assert groups[h].keys[0] in groups[h].keys; }
  }

  /** The split arrays find exactly the listed hashes, with their numbers. */
  lemma SplitFinds<P>(clean: seq<(nat, nat)>, lone: map<nat, nat>, s: Snapshot<P>, h: Hash63)
    requires (forall x :: x in clean ==> x.0 in lone && lone[x.0] == x.1 && x.0 < 0x8000_0000_0000_0000)
    requires forall g :: g in lone ==> (g, lone[g]) in clean
    requires s == Packed(clean, s.pairList, s.collisions, s.length)
    ensures match Place(s.hi, s.lo, h, 0) case None => h !in lone case Some(i) => h in lone && s.values[i] == lone[h]
  {
    match Place(s.hi, s.lo, h, 0)
    case None =>
      if h in lone {
        var i :| 0 <= i < |clean| && clean[i] == (h, lone[h]);
        assert s.hi[i] == Hi(h) && s.lo[i] == Lo(h) by { SmallHi(h); }
        assert false;
      }
    case Some(i) =>
      assert clean[i] in clean;
      SmallHi(h);
      SmallHi(clean[i].0);
      Halves(clean[i].0, h);
  }

  lemma SmallHi(h: nat)
    requires h < 0x8000_0000_0000_0000
    ensures h / HALF == Hi(h) && h < HALF * HALF
  {
    assert h / HALF < HALF;
  }

  lemma SplitShaped<P>(clean: seq<(nat, nat)>, s: Snapshot<P>)
    requires Rising(clean) && forall x :: x in clean ==> x.1 < |s.pairList|
    requires s == Packed(clean, s.pairList, s.collisions, s.length)
    ensures Shaped(s)
  {
    forall i, j | 0 <= i < j < |clean| ensures s.hi[i] <= s.hi[j] {
      Quotient(clean[i].0, clean[j].0);
    }
    forall i | 0 <= i < |clean| ensures s.values[i] < |s.pairList| { assert clean[i] in clean; }
  }

  lemma Quotient(a: nat, b: nat)
    requires a <= b
    ensures a / HALF <= b / HALF
  {
  }

  lemma CollectedCompacts<P>(trails: map<string, P>, hash: string -> Hash63, groups: map<nat, Group>,
                             lone: map<nat, nat>, clean: seq<(nat, nat)>, s: Snapshot<P>)
    requires Collected(trails, hash, groups, groups.Keys, lone, s.pairList, s.collisions)
    requires Listing(clean, lone) && s == Packed(Sort(clean), s.pairList, s.collisions, |trails|)
    ensures Compacts(trails, hash, s)
  {
    hide Place, Packed, Sort, Grouped, Several, Rising, Shaped;
    forall x | x in clean ensures x.0 in lone && lone[x.0] == x.1 && x.1 < |s.pairList| && x.0 < 0x8000_0000_0000_0000 {
      var i :| 0 <= i < |clean| && clean[i] == x;
      LoneHash(trails, hash, groups, x.0);
    }
    SortRises(clean);
    SplitShaped(Sort(clean), s);
    forall k: string ensures match Place(s.hi, s.lo, hash(k), 0) case None => hash(k) !in lone case Some(i) => hash(k) in lone && s.values[i] == lone[hash(k)] {
      SplitShape(s);
      SplitFinds(Sort(clean), lone, s, hash(k));
    }
    AnswersAre(trails, hash, groups, lone, s);
  }

  lemma SplitShape<P>(s: Snapshot<P>)
    requires Shaped(s)
    ensures |s.hi| == |s.lo| == |s.values|
  {
  }

  lemma LoneHash<P>(trails: map<string, P>, hash: string -> Hash63, groups: map<nat, Group>, h: nat)
    requires Grouped(trails.Keys, hash, groups) && h in groups
    ensures h < 0x8000_0000_0000_0000
  {
    ListedHash(trails, hash, groups, h);
  }

  lemma AnswersAre<P>(trails: map<string, P>, hash: string -> Hash63, groups: map<nat, Group>, lone: map<nat, nat>, s: Snapshot<P>)
    requires Collected(trails, hash, groups, groups.Keys, lone, s.pairList, s.collisions) && Shaped(s) && s.length == |trails|
    requires forall k: string {:trigger Answer(s, hash, k)} ::
      match Place(s.hi, s.lo, hash(k), 0) case None => hash(k) !in lone case Some(i) => hash(k) in lone && s.values[i] == lone[hash(k)]
    ensures Compacts(trails, hash, s)
  {
    hide Place, Grouped, Several, Shaped;
    forall k | k in trails ensures Answer(s, hash, k) == Some(trails[k]) {
      InGroups(trails, hash, groups, k);
      BareIsAlone(trails, hash, groups, k);
    }
    forall k | k !in trails
      ensures Answer(s, hash, k).Some? <==> exists lone :: Alone(trails, hash, lone) && hash(lone) == hash(k)
      ensures forall lone :: Alone(trails, hash, lone) && hash(lone) == hash(k) ==> Answer(s, hash, k) == Some(trails[lone])
    {
      forall x | Alone(trails, hash, x) && hash(x) == hash(k) ensures Answer(s, hash, k) == Some(trails[x]) {
        InGroups(trails, hash, groups, x);
        BareIsAlone(trails, hash, groups, x);
      }
      if hash(k) in lone {
        BareOne(trails, hash, groups, hash(k));
        BareIsAlone(trails, hash, groups, groups[hash(k)].key);
      }
    }
  }

  lemma InGroups<P>(trails: map<string, P>, hash: string -> Hash63, groups: map<nat, Group>, k: string)
    requires Grouped(trails.Keys, hash, groups) && k in trails
    ensures hash(k) in groups
  {
  }

  lemma BareOne<P>(trails: map<string, P>, hash: string -> Hash63, groups: map<nat, Group>, h: nat)
    requires Grouped(trails.Keys, hash, groups) && h in groups && groups[h].Bare?
    ensures groups[h].key in trails && hash(groups[h].key) == h
  {
  }

  // ---- the store

  lemma KeptOne<P>(trails: map<string, P>, hash: string -> Hash63, s: Snapshot<P>, key: string)
    requires Compacts(trails, hash, s)
    ensures Shaped(s) && (key in trails ==> Answer(s, hash, key) == Some(trails[key]))
  {
    hide Answer, Alone, Shaped;
  }

  /** Build mode while `frozen` is None; finalize() leaves it for good. */
  class Store<P(==)> {
    const hash: string -> Hash63
    var trails: Option<map<string, P>>
    var frozen: Option<Snapshot<P>>
    /** The trails the store was given. */
    ghost var given: map<string, P>

    ghost predicate Valid()
      reads this
    {
      if frozen.None? then trails == Some(given) else Compacts(given, hash, frozen.value)
    }

    constructor (hash: string -> Hash63, dict: map<string, P>)
      ensures Valid() && frozen == None && given == dict && this.hash == hash
    {
      this.hash := hash;
      trails, frozen, given := Some(dict), None, dict;
    }

    ghost function Value(key: string): Option<P>
      reads this
      requires Valid()
    {
      if frozen.Some? then Answer(frozen.value, hash, key)
      else if key in trails.value then Some(trails.value[key])
      else None
    }

    /** In either mode a key the store was given has its value. */
    method Get(key: string) returns (r: Option<P>)
      requires Valid()
      ensures r == Value(key) && (key in given ==> r == Some(given[key]))
    {
      hide Compacts, Alone;
      if frozen.Some? { KeptOne(given, hash, frozen.value, key); }
      if frozen.None? {
        return if key in trails.value then Some(trails.value[key]) else None;
      }
      var s := frozen.value;
      if key in s.collisions { return Some(s.collisions[key]); }
      var h := hash(key);
      var i := BisectLeft(s.hi, Hi(h));
      PlaceSkips(s.hi, s.lo, h, 0, i);
      while i < |s.hi| && s.hi[i] == Hi(h)
        invariant i <= |s.hi|
        invariant forall j :: i <= j < |s.hi| ==> Hi(h) <= s.hi[j]
        invariant Place(s.hi, s.lo, h, 0) == Place(s.hi, s.lo, h, i)
      {
        if s.lo[i] == Lo(h) { return Some(s.pairList[s.values[i]]); }
        i := i + 1;
      }
      assert forall j :: i <= j < |s.hi| ==> s.hi[i] <= s.hi[j];
      PlaceSkips(s.hi, s.lo, h, i, |s.hi|);
      return None;
    }

    method Contains(key: string) returns (r: bool)
      requires Valid()
      ensures r == Value(key).Some? && (key in given ==> r)
    {
      hide Compacts, Alone;
      if frozen.Some? { KeptOne(given, hash, frozen.value, key); }
      if frozen.None? {
        return key in trails.value;
      }
      var s := frozen.value;
      if key in s.collisions { return true; }
      var h := hash(key);
      var i := BisectLeft(s.hi, Hi(h));
      PlaceSkips(s.hi, s.lo, h, 0, i);
      while i < |s.hi| && s.hi[i] == Hi(h)
        invariant i <= |s.hi|
        invariant forall j :: i <= j < |s.hi| ==> Hi(h) <= s.hi[j]
        invariant Place(s.hi, s.lo, h, 0) == Place(s.hi, s.lo, h, i)
      {
        if s.lo[i] == Lo(h) { return true; }
        i := i + 1;
      }
      assert forall j :: i <= j < |s.hi| ==> s.hi[i] <= s.hi[j];
      PlaceSkips(s.hi, s.lo, h, i, |s.hi|);
      return false;
    }

    method Len() returns (n: nat)
      requires Valid()
      ensures n == |given|
    {
      n := if frozen.Some? then frozen.value.length else |trails.value|;
    }

    /** Nothing happens the second time; the keys and the groups are taken in any order. */
    method Finalize()
      requires Valid()
      modifies this
      ensures Valid() && frozen.Some? && given == old(given)
      ensures old(frozen).Some? ==> frozen == old(frozen) && trails == old(trails)
      ensures old(frozen).None? ==> trails == None && Compacts(old(trails).value, hash, frozen.value)
    {
      if frozen.Some? { return; }
      var dict := trails.value;
      var groups := GroupByHash(dict, hash);
      var pairList, collisions, clean;
      ghost var lone;
      pairList, collisions, clean, lone := Collect(dict, hash, groups);
      frozen := Some(Packed(Sort(clean), pairList, collisions, |dict|));
      CollectedCompacts(dict, hash, groups, lone, clean, frozen.value);
      trails := None;
    }
  }

  method GroupByHash<P>(dict: map<string, P>, hash: string -> Hash63) returns (groups: map<nat, Group>)
    ensures Grouped(dict.Keys, hash, groups)
  {
    groups := map[];
    var left := dict.Keys;
    while left != {}
      invariant left <= dict.Keys && Grouped(dict.Keys - left, hash, groups)
      decreases |left|
    {
      var key :| key in left;
      var h := hash(key);
      GroupNext(dict.Keys - left, hash, groups, key);
      assert dict.Keys - (left - {key}) == dict.Keys - left + {key};
      if h !in groups {
        groups := groups[h := Bare(key)];
      } else {
        match groups[h]
        case Listed(ks) => groups := groups[h := Listed(ks + [key])];
        case Bare(k) => groups := groups[h := Listed([k, key])];
      }
      left := left - {key};
    }
    assert dict.Keys - left == dict.Keys;
  }

  /** The inner loop: the keys of a shared hash into the side dict. */
  method KeepVerbatim<P>(dict: map<string, P>, keys: seq<string>, before: map<string, P>) returns (after: map<string, P>)
    requires forall k :: k in keys ==> k in dict
    ensures forall k :: k in after <==> k in before || k in keys
    ensures forall k :: k in after ==> after[k] == if k in keys then dict[k] else before[k]
  {
    after := before;
    var i := 0;
    while i < |keys|
      invariant 0 <= i <= |keys|
      invariant forall k :: k in after <==> k in before || k in keys[..i]
      invariant forall k :: k in after ==> after[k] == if k in keys[..i] then dict[k] else before[k]
    {
      after := after[keys[i] := dict[keys[i]]];
      i := i + 1;
    }
    assert keys[..i] == keys;
  }

  /** The second loop of finalize: shared hashes aside, pairs numbered as they come. */
  method Collect<P(==)>(dict: map<string, P>, hash: string -> Hash63, groups: map<nat, Group>)
      returns (pairList: seq<P>, collisions: map<string, P>, clean: seq<(nat, nat)>, ghost lone: map<nat, nat>)
    requires Grouped(dict.Keys, hash, groups)
    ensures Collected(dict, hash, groups, groups.Keys, lone, pairList, collisions) && Listing(clean, lone)
  {
    hide Grouped, Listing, Collected;
    pairList, collisions, clean, lone := [], map[], [], map[];
    var pairIndex: map<P, nat> := map[];
    var left := groups.Keys;
    CollectedNone(dict, hash, groups);
    while left != {}
      invariant left <= groups.Keys && Collected(dict, hash, groups, groups.Keys - left, lone, pairList, collisions) && Listing(clean, lone)
      invariant forall p :: p in pairIndex ==> pairIndex[p] < |pairList| && pairList[pairIndex[p]] == p
      decreases |left|
    {
      var h :| h in left;
      ghost var done, before := groups.Keys - left, pairList;
      assert groups.Keys - (left - {h}) == done + {h};
      match groups[h] {
        case Listed(keys) =>
          ghost var was := collisions;
          ListedIn(dict, hash, groups, h);
          collisions := KeepVerbatim(dict, keys, collisions);
          CollectedListed(dict, hash, groups, done, lone, pairList, was, collisions, h);
        case Bare(key) =>
          BareOne(dict, hash, groups, h);
          var pair := dict[key];
          if pair !in pairIndex {
            pairIndex := pairIndex[pair := |pairList|];
            pairList := pairList + [pair];
          }
          CollectedBare(dict, hash, groups, done, lone, before, pairList, collisions, h, pairIndex[pair]);
          ListingNext(clean, lone, h, pairIndex[pair]);
          clean := clean + [(h, pairIndex[pair])];
          lone := lone[h := pairIndex[pair]];
      }
      left := left - {h};
    }
    assert groups.Keys - left == groups.Keys;
  }

  lemma CollectedNone<P>(dict: map<string, P>, hash: string -> Hash63, groups: map<nat, Group>)
    requires Grouped(dict.Keys, hash, groups)
    ensures Collected(dict, hash, groups, groups.Keys - groups.Keys, map[], [], map[]) && Listing([], map[])
  {
  }

  lemma ListedIn<P>(dict: map<string, P>, hash: string -> Hash63, groups: map<nat, Group>, h: nat)
    requires Grouped(dict.Keys, hash, groups) && h in groups && groups[h].Listed?
    ensures forall k :: k in groups[h].keys ==> k in dict && hash(k) == h
    ensures forall k :: k in dict && hash(k) == h ==> k in groups[h].keys
  {
  }

  lemma CollectedListed<P>(dict: map<string, P>, hash: string -> Hash63, groups: map<nat, Group>, done: set<nat>,
                           lone: map<nat, nat>, pairList: seq<P>, before: map<string, P>, after: map<string, P>, h: nat)
    requires Collected(dict, hash, groups, done, lone, pairList, before) && h in groups && groups[h].Listed?
    requires forall k :: k in after <==> k in before || k in groups[h].keys
    requires forall k :: k in after ==> after[k] == if k in groups[h].keys then (if k in dict then dict[k] else after[k]) else before[k]
    ensures Collected(dict, hash, groups, done + {h}, lone, pairList, after)
  {
    hide Grouped;
    ListedIn(dict, hash, groups, h);
  }

  lemma CollectedBare<P>(dict: map<string, P>, hash: string -> Hash63, groups: map<nat, Group>, done: set<nat>,
                         lone: map<nat, nat>, before: seq<P>, after: seq<P>, collisions: map<string, P>, h: nat, pi: nat)
    requires Collected(dict, hash, groups, done, lone, before, collisions) && h in groups && groups[h].Bare? && groups[h].key in dict
    requires h !in done && before <= after && pi < |after| && after[pi] == dict[groups[h].key]
    ensures h !in lone && Collected(dict, hash, groups, done + {h}, lone[h := pi], after, collisions)
  {
    hide Grouped;
    forall g | g in lone ensures after[lone[g]] == before[lone[g]] { }
    forall k | k in dict && hash(k) == h ensures groups[hash(k)].Bare? { }
  }

  lemma ListingNext(clean: seq<(nat, nat)>, lone: map<nat, nat>, h: nat, pi: nat)
    requires Listing(clean, lone) && h !in lone
    ensures Listing(clean + [(h, pi)], lone[h := pi])
  {
    var more := clean + [(h, pi)];
    assert more[|clean|] == (h, pi);
    forall g | g in lone ensures (g, lone[g]) in more { }
  }
}
