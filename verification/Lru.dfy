/**
 The sensor's cache (sensor/src/lru.rs): a doubly linked list threaded through a slab of nodes, an index
 from hash to slot, a free list, SIEVE's moving hand and an admission doorkeeper.
 */
module Lru {
  import opened Text
  import opened SieveSpec
  import opened Powers

  const NIL := 0xFFFF_FFFF

  datatype Node<K, V> = Node(key: K, hash: nat, value: V, prev: nat, next: nat, visited: bool)

  /** The slots `list`, newest first, are in the slab and no slot occurs twice. */
  ghost predicate Live<K, V>(nodes: seq<Node<K, V>>, list: seq<nat>) {
    && (forall i :: 0 <= i < |list| ==> list[i] < |nodes|)
    && (forall i, j :: 0 <= i < j < |list| ==> list[i] != list[j])
  }

  /** The links from head to tail go through `list`, and back. */
  ghost predicate Linked<K, V>(nodes: seq<Node<K, V>>, list: seq<nat>, head: nat, tail: nat) {
    && Live(nodes, list)
    && |nodes| <= NIL
    && (if list == [] then head == tail == NIL else
          && head == list[0] && nodes[head].prev == NIL
          && tail == list[|list| - 1] && nodes[tail].next == NIL)
    && (forall i, j :: 0 <= i < j < |list| && j == i + 1 ==> nodes[list[i]].next == list[j] && nodes[list[j]].prev == list[i])
  }

  /** Every slot of the slab is live or free, never both, and the free list holds none twice. */
  ghost predicate Partition<K, V>(nodes: seq<Node<K, V>>, list: seq<nat>, free: seq<nat>) {
    && |nodes| == |list| + |free|
    && (forall i :: 0 <= i < |free| ==> free[i] < |nodes| && free[i] !in list)
    && (forall i, j :: 0 <= i < j < |free| ==> free[i] != free[j])
    && (forall slot :: 0 <= slot < |nodes| ==> slot in list || slot in free)
  }

  /** The index holds the hash of every live slot, and nothing else. */
  ghost predicate Indexed<K, V>(nodes: seq<Node<K, V>>, list: seq<nat>, index: map<nat, nat>)
    requires Live(nodes, list)
  {
    && |index| == |list|
    && (forall i :: 0 <= i < |list| ==> nodes[list[i]].hash in index && index[nodes[list[i]].hash] == list[i])
    && (forall h :: h in index ==> index[h] in list && index[h] < |nodes| && nodes[index[h]].hash == h)
  }

  ghost function Entries<K, V>(nodes: seq<Node<K, V>>, list: seq<nat>): (r: seq<Entry<K, V>>)
    requires Live(nodes, list)
    ensures |r| == |list|
  {
    seq(|list|, i requires 0 <= i < |list| =>
      var n := nodes[list[i]]; Entry(n.key, n.hash, n.value, n.visited))
  }

  /** The nodes differ in their links at most. */
  ghost predicate SameData<K, V>(before: seq<Node<K, V>>, after: seq<Node<K, V>>) {
    && |after| == |before|
    && forall i :: 0 <= i < |before| ==> after[i] == before[i].(prev := after[i].prev, next := after[i].next)
  }

  ghost function Without(list: seq<nat>, i: nat): seq<nat>
    requires i < |list|
  {
    list[..i] + list[i + 1..]
  }

  lemma WithoutAt(list: seq<nat>, i: nat)
    requires i < |list|
    ensures |Without(list, i)| == |list| - 1
    ensures forall k :: 0 <= k < |list| - 1 ==> Without(list, i)[k] == list[if k < i then k else k + 1]
  {
  }

  lemma WithoutPrev(list: seq<nat>, i: nat)
    requires i < |list|
    ensures |Without(list, i)| == |list| - 1
    ensures i > 0 ==> Without(list, i)[i - 1] == list[i - 1]
  {
  }

  lemma WithoutHas(list: seq<nat>, i: nat, k: nat)
    requires i < |list| && k < |list| && k != i
    ensures list[k] in Without(list, i)
  {
    assert Without(list, i)[if k < i then k else k - 1] == list[k];
  }

  /** Rewriting a live node's key, value and bit changes its entry and nothing else. */
  lemma Rewrite<K, V>(nodes: seq<Node<K, V>>, list: seq<nat>, i: nat, node: Node<K, V>, head: nat, tail: nat, free: seq<nat>, index: map<nat, nat>)
    requires Linked(nodes, list, head, tail) && Partition(nodes, list, free) && Indexed(nodes, list, index)
    requires i < |list| && node.prev == nodes[list[i]].prev && node.next == nodes[list[i]].next && node.hash == nodes[list[i]].hash
    ensures var after := nodes[list[i] := node];
      && Linked(after, list, head, tail) && Partition(after, list, free) && Indexed(after, list, index)
      && Entries(after, list) == Entries(nodes, list)[i := Entry(node.key, node.hash, node.value, node.visited)]
  {
    hide Linked, Partition, Indexed, Entries, Live;
    Ends(nodes, list, head, tail);
    RewriteLinks(nodes, list, i, node, head, tail, free);
    RewriteIndex(nodes, list, i, node, index);
    RewriteEntry(nodes, list, i, node);
  }

  lemma RewriteLinks<K, V>(nodes: seq<Node<K, V>>, list: seq<nat>, i: nat, node: Node<K, V>, head: nat, tail: nat, free: seq<nat>)
    requires Linked(nodes, list, head, tail) && Partition(nodes, list, free)
    requires i < |list| && node.prev == nodes[list[i]].prev && node.next == nodes[list[i]].next
    ensures Linked(nodes[list[i] := node], list, head, tail) && Partition(nodes[list[i] := node], list, free)
  {
    var after := nodes[list[i] := node];
    forall k | 0 <= k < |list| ensures after[list[k]].next == nodes[list[k]].next && after[list[k]].prev == nodes[list[k]].prev { }
  }

  lemma RewriteIndex<K, V>(nodes: seq<Node<K, V>>, list: seq<nat>, i: nat, node: Node<K, V>, index: map<nat, nat>)
    requires Live(nodes, list) && Indexed(nodes, list, index) && i < |list| && node.hash == nodes[list[i]].hash
    ensures Live(nodes[list[i] := node], list) && Indexed(nodes[list[i] := node], list, index)
  {
  }

  lemma RewriteEntry<K, V>(nodes: seq<Node<K, V>>, list: seq<nat>, i: nat, node: Node<K, V>)
    requires Live(nodes, list) && i < |list|
    ensures Live(nodes[list[i] := node], list)
    ensures Entries(nodes[list[i] := node], list) == Entries(nodes, list)[i := Entry(node.key, node.hash, node.value, node.visited)]
  {
    var entries, rewritten := Entries(nodes, list), Entries(nodes[list[i] := node], list);
    forall k | 0 <= k < |list| && k != i ensures rewritten[k] == entries[k] { assert list[k] != list[i]; }
  }

  /** The neighbours of place i are joined, the other links are as they were. */
  ghost predicate Joined<K, V>(before: seq<Node<K, V>>, after: seq<Node<K, V>>, list: seq<nat>, i: nat)
    requires Live(before, list) && |after| == |before| && i < |list|
  {
    forall k :: 0 <= k < |list| && k != i ==>
      && after[list[k]].next == (if k == i - 1 then before[list[i]].next else before[list[k]].next)
      && after[list[k]].prev == (if k == i + 1 then before[list[i]].prev else before[list[k]].prev)
  }

  /** Joining the neighbours of place i takes it out of the list. */
  lemma Unlink<K, V>(before: seq<Node<K, V>>, after: seq<Node<K, V>>, list: seq<nat>, i: nat, head: nat, tail: nat)
    requires Linked(before, list, head, tail) && i < |list| && SameData(before, after) && Joined(before, after, list, i)
    ensures Linked(after, Without(list, i),
      if i == 0 then before[list[0]].next else head, if i == |list| - 1 then before[list[i]].prev else tail)
  {
    hide Without, Joined, SameData;
    WithoutAt(list, i);
    var left := Without(list, i);
    SameAt(before, after, list[i]);
    if left != [] {
      JoinedEnds(before, after, list, i, head, tail);
    }
    forall a, b | 0 <= a < b < |left| && b == a + 1
      ensures left[a] < |after| && left[b] < |after| && after[left[a]].next == left[b] && after[left[b]].prev == left[a]
    {
      JoinedAt(before, after, list, i, head, tail, if a < i then a else a + 1, if b < i then b else b + 1);
    }
  }

  lemma JoinedAt<K, V>(before: seq<Node<K, V>>, after: seq<Node<K, V>>, list: seq<nat>, i: nat, head: nat, tail: nat, k: nat, l: nat)
    requires Linked(before, list, head, tail) && i < |list| && |after| == |before| && Joined(before, after, list, i)
    requires k < l < |list| && k != i && l != i && (l == k + 1 || (l == i + 1 && i == k + 1))
    ensures list[k] < |after| && list[l] < |after| && after[list[k]].next == list[l] && after[list[l]].prev == list[k]
  {
    hide Linked;
    NextOf(before, list, head, tail, k);
    PrevOf(before, list, head, tail, l);
    NextOf(before, list, head, tail, i);
    PrevOf(before, list, head, tail, i);
    PrevOf(before, list, head, tail, k);
  }

  lemma JoinedEnds<K, V>(before: seq<Node<K, V>>, after: seq<Node<K, V>>, list: seq<nat>, i: nat, head: nat, tail: nat)
    requires Linked(before, list, head, tail) && i < |list| && |list| > 1 && |after| == |before| && Joined(before, after, list, i)
    ensures var (first, last) := (if i == 0 then list[1] else list[0], if i == |list| - 1 then list[|list| - 2] else list[|list| - 1]);
      first < |after| && last < |after| && after[first].prev == NIL && after[last].next == NIL
  {
    hide Linked;
    PrevOf(before, list, head, tail, 0);
    PrevOf(before, list, head, tail, 1);
    NextOf(before, list, head, tail, |list| - 1);
    NextOf(before, list, head, tail, |list| - 2);
  }

  ghost function Fronting<K, V>(nodes: seq<Node<K, V>>, idx: nat, head: nat): (after: seq<Node<K, V>>)
    requires idx < |nodes| && (head == NIL || head < |nodes|)
    ensures |after| == |nodes|
  {
    var first := nodes[idx := nodes[idx].(next := head, prev := NIL)];
    if head == NIL then first else first[head := first[head].(prev := idx)]
  }

  /** Linking a slot before the head puts it at the front of the list. */
  lemma LinkFront<K, V>(nodes: seq<Node<K, V>>, list: seq<nat>, idx: nat, head: nat, tail: nat)
    requires Linked(nodes, list, head, tail) && idx < |nodes| && idx !in list
    ensures head == NIL || (head < |nodes| && head != idx)
    ensures Linked(Fronting(nodes, idx, head), [idx] + list, idx, if tail == NIL then idx else tail)
    ensures SameData(nodes, Fronting(nodes, idx, head))
  {
    hide Fronting;
    Ends(nodes, list, head, tail);
    if list != [] { assert list[0] in list; }
    var after, more := Fronting(nodes, idx, head), [idx] + list;
    FrontingIs(nodes, idx, head);
    assert forall k :: 0 <= k < |list| ==> more[k + 1] == list[k];
    forall k | 0 <= k < |list| ensures list[k] < |nodes| && list[k] != idx && after[list[k]].next == nodes[list[k]].next {
      assert list[k] in list;
    }
    forall i, j | 0 <= i < j < |more| && j == i + 1 ensures after[more[i]].next == more[j] && after[more[j]].prev == more[i] {
      FrontLink(nodes, list, idx, head, tail, i);
    }
  }

  lemma FrontLink<K, V>(nodes: seq<Node<K, V>>, list: seq<nat>, idx: nat, head: nat, tail: nat, k: nat)
    requires Linked(nodes, list, head, tail) && idx < |nodes| && idx !in list && k < |list| && head < |nodes|
    ensures var (after, before) := (Fronting(nodes, idx, head), if k == 0 then idx else list[k - 1]);
      list[k] < |nodes| && before < |nodes| && after[list[k]].prev == before && after[before].next == list[k]
  {
    hide Linked;
    PrevOf(nodes, list, head, tail, k);
    HeadIs(nodes, list, head, tail);
    assert list[k] in list && list[0] in list;
    if k > 0 {
      NextOf(nodes, list, head, tail, k - 1);
      assert list[k - 1] in list;
    }
  }

  lemma HeadIs<K, V>(nodes: seq<Node<K, V>>, list: seq<nat>, head: nat, tail: nat)
    requires Linked(nodes, list, head, tail)
    ensures if list == [] then head == NIL else head == list[0] < |nodes|
  {
  }

  lemma FrontingIs<K, V>(nodes: seq<Node<K, V>>, idx: nat, head: nat)
    requires idx < |nodes| && (head == NIL || (head < |nodes| && head != idx))
    ensures var after := Fronting(nodes, idx, head);
      && SameData(nodes, after)
      && after[idx].next == head && after[idx].prev == NIL
      && forall slot :: 0 <= slot < |nodes| && slot != idx ==> after[slot].next == nodes[slot].next
  {
  }

  /** What is left of the partition, the index and the entries when a slot is freed. */
  lemma Freed<K, V>(before: seq<Node<K, V>>, after: seq<Node<K, V>>, list: seq<nat>, i: nat, free: seq<nat>, index: map<nat, nat>)
    requires Live(before, list) && Partition(before, list, free) && Indexed(before, list, index)
    requires i < |list| && SameData(before, after)
    ensures var (left, idx) := (Without(list, i), list[i]);
      && Live(after, left) && Partition(after, left, free + [idx]) && Indexed(after, left, index - {before[idx].hash})
      && Entries(after, left) == Entries(before, list)[..i] + Entries(before, list)[i + 1..]
  {
    FreedPartition(before, after, list, i, free);
    FreedIndex(before, after, list, i, index);
    FreedEntries(before, after, list, i);
  }

  lemma FreedEntries<K, V>(before: seq<Node<K, V>>, after: seq<Node<K, V>>, list: seq<nat>, i: nat)
    requires Live(before, list) && i < |list| && SameData(before, after)
    ensures Live(after, Without(list, i))
    ensures Entries(after, Without(list, i)) == Entries(before, list)[..i] + Entries(before, list)[i + 1..]
  {
    hide Without;
    WithoutAt(list, i);
  }

  lemma FreedPartition<K, V>(before: seq<Node<K, V>>, after: seq<Node<K, V>>, list: seq<nat>, i: nat, free: seq<nat>)
    requires Live(before, list) && Partition(before, list, free) && i < |list| && |after| == |before|
    ensures Partition(after, Without(list, i), free + [list[i]])
  {
    hide Without;
    WithoutAt(list, i);
    var left, more := Without(list, i), free + [list[i]];
    forall slot | 0 <= slot < |before| ensures slot in left || slot in more {
      if slot in list {
        var k :| 0 <= k < |list| && list[k] == slot;
        if k == i { assert more[|free|] == slot; } else { WithoutHas(list, i, k); }
      } else {
        var k :| 0 <= k < |free| && free[k] == slot;
        assert more[k] == slot;
      }
    }
  }

  lemma FreedIndex<K, V>(before: seq<Node<K, V>>, after: seq<Node<K, V>>, list: seq<nat>, i: nat, index: map<nat, nat>)
    requires Live(before, list) && Indexed(before, list, index) && i < |list| && SameData(before, after)
    ensures Live(after, Without(list, i)) && Indexed(after, Without(list, i), index - {before[list[i]].hash})
  {
    FreedEntries(before, after, list, i);
    var left, h0 := Without(list, i), before[list[i]].hash;
    var rest := index - {h0};
    assert |rest| == |left| by { assert index.Keys == rest.Keys + {h0}; }
    forall h | h in rest ensures rest[h] in left && rest[h] < |after| && after[rest[h]].hash == h {
      var k := Place(before, list, index, h);
      WithoutHas(list, i, k);
    }
    forall k | 0 <= k < |left| ensures after[left[k]].hash in rest && rest[after[left[k]].hash] == left[k] {
      WithoutAt(list, i);
      DistinctHashes(before, list, index, if k < i then k else k + 1, i);
    }
    hide Without, Live;
  }

  lemma Place<K, V>(nodes: seq<Node<K, V>>, list: seq<nat>, index: map<nat, nat>, h: nat) returns (k: nat)
    requires Live(nodes, list) && Indexed(nodes, list, index) && h in index
    ensures k < |list| && list[k] == index[h] && nodes[list[k]].hash == h
  {
    k :| k < |list| && list[k] == index[h];
  }

  lemma DistinctHashes<K, V>(nodes: seq<Node<K, V>>, list: seq<nat>, index: map<nat, nat>, k: nat, i: nat)
    requires Live(nodes, list) && Indexed(nodes, list, index) && k < |list| && i < |list| && k != i
    ensures nodes[list[k]].hash in index && index[nodes[list[k]].hash] == list[k]
    ensures nodes[list[k]].hash != nodes[list[i]].hash
  {
    assert list[k] != list[i];
  }

  /** All slots but idx are live or free, and idx is neither. */
  ghost predicate Spared<K, V>(nodes: seq<Node<K, V>>, list: seq<nat>, free: seq<nat>, idx: nat) {
    && |nodes| == |list| + 1 + |free|
    && idx < |nodes| && idx !in list && idx !in free
    && (forall i :: 0 <= i < |free| ==> free[i] < |nodes| && free[i] !in list)
    && (forall i, j :: 0 <= i < j < |free| ==> free[i] != free[j])
    && (forall slot :: 0 <= slot < |nodes| && slot != idx ==> slot in list || slot in free)
  }

  /** Taking a slot for a new node, from the free list or else at the end of the slab. */
  lemma Spare<K, V>(nodes: seq<Node<K, V>>, list: seq<nat>, head: nat, tail: nat, free: seq<nat>, index: map<nat, nat>, node: Node<K, V>)
    requires Linked(nodes, list, head, tail) && Partition(nodes, list, free) && Indexed(nodes, list, index) && |list| < NIL
    requires node.hash !in index
    ensures |index| == |list| && |nodes| == |list| + |free|
    ensures free != [] ==>
      var idx := free[|free| - 1];
      idx < |nodes| && TakenFrom(nodes, nodes[idx := node], list, head, tail, free[..|free| - 1], index, idx)
    ensures free == [] ==> TakenFrom(nodes, nodes + [node], list, head, tail, free, index, |nodes|)
  {
    if free == [] {
      SpareIs(nodes, nodes + [node], list, head, tail, index, |nodes|);
    } else {
      SpareIs(nodes, nodes[free[|free| - 1] := node], list, head, tail, index, free[|free| - 1]);
      Popped(nodes, nodes[free[|free| - 1] := node], list, free);
      hide Spared;
    }
  }

  lemma Popped<K, V>(nodes: seq<Node<K, V>>, after: seq<Node<K, V>>, list: seq<nat>, free: seq<nat>)
    requires Partition(nodes, list, free) && free != [] && |after| == |nodes|
    ensures Spared(after, list, free[..|free| - 1], free[|free| - 1])
  {
    var idx, less := free[|free| - 1], free[..|free| - 1];
    forall slot | 0 <= slot < |nodes| && slot != idx ensures slot in list || slot in less {
      if slot in free { var k :| 0 <= k < |free| && free[k] == slot; assert less[k] == slot; }
    }
  }

  lemma SpareIs<K, V>(nodes: seq<Node<K, V>>, after: seq<Node<K, V>>, list: seq<nat>, head: nat, tail: nat, index: map<nat, nat>, idx: nat)
    requires Linked(nodes, list, head, tail) && Indexed(nodes, list, index)
    requires |nodes| <= |after| <= NIL && idx !in list
    requires forall slot :: 0 <= slot < |nodes| && slot != idx ==> after[slot] == nodes[slot]
    ensures Linked(after, list, head, tail) && Indexed(after, list, index)
    ensures Entries(after, list) == Entries(nodes, list)
  {
    assert forall i :: 0 <= i < |list| ==> after[list[i]] == nodes[list[i]];
  }

  ghost predicate TakenFrom<K, V>(nodes: seq<Node<K, V>>, after: seq<Node<K, V>>, list: seq<nat>, head: nat, tail: nat,
                                  free: seq<nat>, index: map<nat, nat>, idx: nat)
    requires Live(nodes, list)
  {
    && Linked(after, list, head, tail) && Indexed(after, list, index) && Spared(after, list, free, idx)
    && Entries(after, list) == Entries(nodes, list)
  }

  /** The partition, the index and the entries when the spare slot goes to the front. */
  lemma Fronted<K, V>(before: seq<Node<K, V>>, after: seq<Node<K, V>>, list: seq<nat>, idx: nat, free: seq<nat>, index: map<nat, nat>)
    requires Live(before, list) && Indexed(before, list, index) && SameData(before, after)
    requires Spared(before, list, free, idx) && before[idx].hash !in index
    ensures var more := [idx] + list;
      && Live(after, more) && Partition(after, more, free) && Indexed(after, more, index[before[idx].hash := idx])
      && Entries(after, more) == [Entry(before[idx].key, before[idx].hash, before[idx].value, before[idx].visited)] + Entries(before, list)
  {
    hide Indexed, Partition, Spared;
    SparedSlot(before, list, free, idx);
    FrontedIndex(before, after, list, idx, index);
    FrontedPartition(before, after, list, idx, free);
    assert Entries(after, [idx] + list)
      == [Entry(before[idx].key, before[idx].hash, before[idx].value, before[idx].visited)] + Entries(before, list);
  }

  lemma SparedSlot<K, V>(nodes: seq<Node<K, V>>, list: seq<nat>, free: seq<nat>, idx: nat)
    requires Spared(nodes, list, free, idx)
    ensures idx < |nodes| && idx !in list
  {
  }

  lemma FrontedPartition<K, V>(before: seq<Node<K, V>>, after: seq<Node<K, V>>, list: seq<nat>, idx: nat, free: seq<nat>)
    requires Spared(before, list, free, idx) && |after| == |before|
    ensures Partition(after, [idx] + list, free)
  {
  }

  lemma FrontedIndex<K, V>(before: seq<Node<K, V>>, after: seq<Node<K, V>>, list: seq<nat>, idx: nat, index: map<nat, nat>)
    requires Live(before, list) && Indexed(before, list, index) && SameData(before, after)
    requires idx < |before| && idx !in list && before[idx].hash !in index
    ensures Live(after, [idx] + list) && Indexed(after, [idx] + list, index[before[idx].hash := idx])
  {
    hide SameData;
    var more, grown := [idx] + list, index[before[idx].hash := idx];
    assert more[0] == idx && forall i :: 0 < i < |more| ==> more[i] == list[i - 1];
    SameAt(before, after, idx);
    forall i | 0 <= i < |list| ensures after[list[i]].hash == before[list[i]].hash && list[i] != idx {
      SameAt(before, after, list[i]);
      assert list[i] in list;
    }
    forall h | h in grown ensures grown[h] in more && grown[h] < |after| && after[grown[h]].hash == h {
      if h != before[idx].hash { SameAt(before, after, index[h]); }
    }
  }

  lemma SameAt<K, V>(before: seq<Node<K, V>>, after: seq<Node<K, V>>, slot: nat)
    requires SameData(before, after) && slot < |before|
    ensures |after| == |before| && after[slot].hash == before[slot].hash
  {
  }

  lemma Empty<K, V>()
    ensures var none: seq<Node<K, V>> := [];
      && Live(none, []) && Linked(none, [], NIL, NIL) && Partition(none, [], []) && Indexed(none, [], map[]) && Entries(none, []) == []
  {
  }

  lemma WalkStep<K, V>(entries: seq<Entry<K, V>>, i: nat)
    requires i < |entries|
    ensures var cleared := entries[i := entries[i].(visited := false)];
      if entries[i].visited then Count(cleared) < Count(entries) && Walk(entries, i) == Walk(cleared, Before(i, |entries|))
      else Walk(entries, i) == (entries, i)
  {
    if entries[i].visited { CountClear(entries, i); }
  }

  lemma Ends<K, V>(nodes: seq<Node<K, V>>, list: seq<nat>, head: nat, tail: nat)
    requires Linked(nodes, list, head, tail)
    ensures Live(nodes, list)
    ensures if list == [] then tail == NIL else tail == list[|list| - 1] < NIL
  {
  }

  lemma NextOf<K, V>(nodes: seq<Node<K, V>>, list: seq<nat>, head: nat, tail: nat, i: nat)
    requires Linked(nodes, list, head, tail) && i < |list|
    ensures head == list[0] && tail == list[|list| - 1]
    ensures nodes[list[i]].next == if i == |list| - 1 then NIL else list[i + 1]
    ensures i < |list| - 1 ==> list[i + 1] < NIL
  {
    if i < |list| - 1 { assert list[i + 1] < |nodes|; }
  }

  lemma Counted<K, V>(nodes: seq<Node<K, V>>, list: seq<nat>, head: nat, tail: nat, index: map<nat, nat>)
    requires Linked(nodes, list, head, tail) && Indexed(nodes, list, index)
    ensures |index| == |list|
  {
  }

  lemma PrevOf<K, V>(nodes: seq<Node<K, V>>, list: seq<nat>, head: nat, tail: nat, i: nat)
    requires Linked(nodes, list, head, tail) && i < |list|
    ensures Live(nodes, list) && list[i] < |nodes| && list[i] < NIL
    ensures nodes[list[i]].prev == if i == 0 then NIL else list[i - 1]
    ensures i > 0 ==> list[i - 1] < NIL
  {
    if i > 0 { assert list[i - 1] < |nodes|; }
  }

  lemma EntryAt<K, V>(nodes: seq<Node<K, V>>, list: seq<nat>, i: nat)
    requires Live(nodes, list) && i < |list|
    ensures list[i] < |nodes|
    ensures var n := nodes[list[i]]; Entries(nodes, list)[i] == Entry(n.key, n.hash, n.value, n.visited)
  {
  }

  /** The hand clears a bit and goes one place on: the links and the index stand, and the rest of the walk is the same. */
  lemma OnePlace<K, V>(nodes: seq<Node<K, V>>, list: seq<nat>, i: nat, head: nat, tail: nat, free: seq<nat>, index: map<nat, nat>)
    requires Linked(nodes, list, head, tail) && Partition(nodes, list, free) && Indexed(nodes, list, index)
    requires i < |list| && list[i] < |nodes| && nodes[list[i]].visited
    ensures var after := nodes[list[i] := nodes[list[i]].(visited := false)];
      var j := Before(i, |list|);
      && Live(after, list) && Linked(after, list, head, tail) && Partition(after, list, free) && Indexed(after, list, index)
      && list[j] < |nodes| && list[j] == (if nodes[list[i]].prev == NIL then tail else nodes[list[i]].prev)
      && Live(nodes, list) && Walk(Entries(nodes, list), i) == Walk(Entries(after, list), j)
      && Count(Entries(after, list)) < Count(Entries(nodes, list))
  {
    hide Linked, Live, Partition, Indexed, Entries, Count, Walk;
    var after := nodes[list[i] := nodes[list[i]].(visited := false)];
    Ends(nodes, list, head, tail);
    PrevOf(nodes, list, head, tail, i);
    EntryAt(nodes, list, i);
    WalkStep(Entries(nodes, list), i);
    Rewrite(nodes, list, i, nodes[list[i]].(visited := false), head, tail, free, index);
    Ends(after, list, head, tail);
    EntryAt(after, list, Before(i, |list|));
  }

  /** What a cache keeps: the links, the slots, the index and the hand agree on one list of at most `capacity` slots. */
  ghost predicate Good<K, V>(nodes: seq<Node<K, V>>, list: seq<nat>, head: nat, tail: nat, free: seq<nat>, index: map<nat, nat>,
                             at: Option<nat>, hand: nat, capacity: nat)
  {
    && 0 < capacity <= NIL
    && |list| <= capacity && |nodes| <= capacity
    && Linked(nodes, list, head, tail)
    && Partition(nodes, list, free)
    && Indexed(nodes, list, index)
    && (at.Some? ==> at.value < |list|)
    && hand == (if at.None? then NIL else list[at.value])
  }

  /** What a cache keeps when its entry at place i goes and the hand moves on. */
  lemma Removed<K, V>(before: seq<Node<K, V>>, after: seq<Node<K, V>>, list: seq<nat>, i: nat, head: nat, tail: nat, newHead: nat, newTail: nat,
                      free: seq<nat>, index: map<nat, nat>, capacity: nat)
    requires 0 < capacity <= NIL && |list| <= capacity && |before| <= capacity && i < |list|
    requires Linked(before, list, head, tail) && Partition(before, list, free) && Indexed(before, list, index)
    requires SameData(before, after) && Linked(after, Without(list, i), newHead, newTail)
    ensures list[i] < |before| && Live(after, Without(list, i)) && |after| == |before|
    ensures Good(after, Without(list, i), newHead, newTail, free + [list[i]], index - {after[list[i]].hash},
                 if i == 0 then None else Some(i - 1), before[list[i]].prev, capacity)
    ensures |Without(list, i)| == |list| - 1
    ensures Entries(after, Without(list, i)) == Entries(before, list)[..i] + Entries(before, list)[i + 1..]
  {
    hide Linked, Partition, Indexed, Entries, Without, SameData, Live;
    PrevOf(before, list, head, tail, i);
    Freed(before, after, list, i, free, index);
    WithoutPrev(list, i);
    SameAt(before, after, list[i]);
  }

  /** What a cache keeps when a spare slot goes to the front, its hash into the index, and the hand one place back. */
  lemma Added<K, V>(before: seq<Node<K, V>>, after: seq<Node<K, V>>, list: seq<nat>, idx: nat, head: nat, tail: nat, newTail: nat, hand: nat,
                    free: seq<nat>, index: map<nat, nat>, at: Option<nat>, capacity: nat)
    requires 0 < capacity <= NIL && |list| < capacity && |before| <= capacity
    requires at.Some? ==> at.value < |list|
    requires hand == if at.None? then NIL else list[at.value]
    requires Linked(before, list, head, tail) && Indexed(before, list, index) && Spared(before, list, free, idx) && before[idx].hash !in index
    requires SameData(before, after) && Linked(after, [idx] + list, idx, newTail)
    ensures |after| == |before| && Live(after, [idx] + list)
    ensures Good(after, [idx] + list, idx, newTail, free, index[before[idx].hash := idx],
                 if at.None? then None else Some(at.value + 1), hand, capacity)
    ensures Entries(after, [idx] + list) == [Entry(before[idx].key, before[idx].hash, before[idx].value, before[idx].visited)] + Entries(before, list)
  {
    hide Linked, Partition, Indexed, Entries, SameData, Live;
    Ends(before, list, head, tail);
    Fronted(before, after, list, idx, free, index);
    SameAt(before, after, idx);
  }

  class LruMap<K(==), V> {
    const hash: K -> nat
    var index: map<nat, nat>
    var nodes: seq<Node<K, V>>
    var free: seq<nat>
    var head: nat
    var tail: nat
    var hand: nat
    var capacity: nat
    var doorkeeper: seq<nat>
    ghost var list: seq<nat>
    ghost var at: Option<nat>

    ghost predicate Valid()
      reads this
    {
      && (doorkeeper == [] || IsPower(|doorkeeper|))
      && Good(nodes, list, head, tail, free, index, at, hand, capacity)
    }

    ghost function Abstract(): Sieve<K, V>
      reads this
      requires Live(nodes, list)
    {
      Sieve(Entries(nodes, list), at, capacity, doorkeeper)
    }

    constructor (capacity: nat, hash: K -> nat)
      requires capacity <= NIL
      ensures Valid() && this.hash == hash
      ensures Abstract() == Sieve([], None, if capacity == 0 then 1 else capacity, [])
    {
      this.hash := hash;
      index, nodes, free, doorkeeper := map[], [], [], [];
      head, tail, hand := NIL, NIL, NIL;
      this.capacity := if capacity == 0 then 1 else capacity;
      list, at := [], None;
    }

    method WithAdmissionFilter(slots: nat)
      requires Valid()
      modifies `doorkeeper
      ensures Valid() && Abstract() == old(Abstract()).(doorkeeper := doorkeeper)
      ensures |doorkeeper| >= 64 && |doorkeeper| >= slots && forall i :: 0 <= i < |doorkeeper| ==> doorkeeper[i] == 0
    {
      hide Good;
      var n := NextPowerOfTwo(if slots < 64 then 64 else slots);
      doorkeeper := seq(n, i => 0);
    }

    method Len() returns (n: nat)
      requires Valid()
      ensures n == |Abstract().entries| <= capacity
    {
      n := |index|;
    }

    method Clear()
      requires Valid()
      modifies `index, `nodes, `free, `head, `tail, `hand, `list, `at
      ensures Valid() && Abstract() == old(Abstract()).(entries := [], hand := None)
    {
      hide Linked, Live, Partition, Indexed, Entries, IsPower;
      index, nodes, free := map[], [], [];
      head, tail, hand := NIL, NIL, NIL;
      list, at := [], None;
      Empty<K, V>();
    }

    method Slot(h: nat, key: K) returns (r: Option<nat>)
      requires Valid()
      ensures match Hit(Abstract(), h, key) case None => r == None case Some(i) => r == Some(list[i])
    {
      ghost var found := FindIs(h);
      if h !in index { return None; }
      var idx := index[h];
      r := if nodes[idx].key == key then Some(idx) else None;
    }

    /** The index finds what a scan of the list would. */
    lemma FindIs(h: nat) returns (r: Option<nat>)
      requires Valid()
      ensures r == Find(Abstract().entries, h)
      ensures r.Some? <==> h in index
      ensures r.Some? ==> index[h] == list[r.value]
    {
      r := Find(Abstract().entries, h);
      if h in index {
        var i :| 0 <= i < |list| && list[i] == index[h];
        assert Abstract().entries[i].hash == h;
      }
    }

    method GetHashed(h: nat, key: K) returns (r: Option<V>)
      requires Valid()
      modifies `nodes
      ensures Valid() && Abstract() == Touch(old(Abstract()), h, key)
      ensures match Hit(old(Abstract()), h, key)
        case None => Abstract() == old(Abstract())
        case Some(i) => Abstract() == old(Abstract()).(entries := old(Abstract()).entries[i := old(Abstract()).entries[i].(visited := true)])
      ensures r == match Hit(old(Abstract()), h, key) case None => None case Some(i) => Some(old(Abstract()).entries[i].value)
    {
      hide Linked, Live, Partition, Indexed, Entries, IsPower, Find;
      var slot := Slot(h, key);
      ghost var found := FindIs(h);
      if slot.None? { return None; }
      Ends(nodes, list, head, tail);
      EntryAt(nodes, list, found.value);
      Rewrite(nodes, list, found.value, nodes[slot.value].(visited := true), head, tail, free, index);
      nodes := nodes[slot.value := nodes[slot.value].(visited := true)];
      return Some(nodes[slot.value].value);
    }

    method Get(key: K) returns (r: Option<V>)
      requires Valid()
      modifies `nodes
      ensures Valid() && Abstract() == Do(old(Abstract()), hash, Request.Get(key))
      ensures r == match Hit(old(Abstract()), hash(key), key) case None => None case Some(i) => Some(old(Abstract()).entries[i].value)
    {
      r := GetHashed(hash(key), key);
    }

    method Contains(key: K) returns (r: bool)
      requires Valid()
      ensures r == Hit(Abstract(), hash(key), key).Some?
    {
      var slot := Slot(hash(key), key);
      r := slot.Some?;
    }

    method Detach(idx: nat, ghost i: nat)
      requires Linked(nodes, list, head, tail) && i < |list| && list[i] == idx
      modifies `nodes, `head, `tail, `list
      ensures list == old(Without(list, i)) && Linked(nodes, list, head, tail)
      ensures SameData(old(nodes), nodes)
    {
      hide Linked, Without;
      PrevOf(nodes, list, head, tail, i);
      NextOf(nodes, list, head, tail, i);
      var prev, next := nodes[idx].prev, nodes[idx].next;
      if prev != NIL {
        nodes := nodes[prev := nodes[prev].(next := next)];
      } else if head == idx {
        head := next;
      }
      if next != NIL {
        nodes := nodes[next := nodes[next].(prev := prev)];
      } else if tail == idx {
        tail := prev;
      }
      nodes := nodes[idx := nodes[idx].(prev := NIL, next := NIL)];
      Unlink(old(nodes), nodes, list, i, old(head), old(tail));
      list := Without(list, i);
    }

    method PushFront(idx: nat)
      requires Linked(nodes, list, head, tail) && idx < |nodes| && idx !in list
      modifies `nodes, `head, `tail, `list
      ensures list == [idx] + old(list) && head == idx && Linked(nodes, list, head, tail)
      ensures SameData(old(nodes), nodes)
    {
      hide Linked, SameData;
      Ends(nodes, list, head, tail);
      LinkFront(nodes, list, idx, head, tail);
      var first := head;
      nodes := nodes[idx := nodes[idx].(next := first)];
      nodes := nodes[idx := nodes[idx].(prev := NIL)];
      if first != NIL {
        nodes := nodes[first := nodes[first].(prev := idx)];
      }
      assert nodes == Fronting(old(nodes), idx, first);
      head := idx;
      if tail == NIL {
        tail := idx;
      }
      list := [idx] + list;
    }

    /** The loop of evict: from place i towards the head, clear bits up to the first entry without one. */
    method Sweep(from: nat, ghost i: nat) returns (idx: nat, ghost stop: nat)
      requires Linked(nodes, list, head, tail) && Partition(nodes, list, free) && Indexed(nodes, list, index)
      requires i < |list| && list[i] == from
      modifies `nodes
      ensures |nodes| == old(|nodes|)
      ensures Linked(nodes, list, head, tail) && Partition(nodes, list, free) && Indexed(nodes, list, index)
      ensures stop < |list| && list[stop] == idx
      ensures (Entries(nodes, list), stop) == Walk(old(Entries(nodes, list)), i)
    {
      hide Linked, Live, Partition, Indexed, Entries, SieveSpec.Count, Walk, Before;
      idx, stop := from, i;
      Ends(nodes, list, head, tail);
      EntryAt(nodes, list, stop);
      while nodes[idx].visited
        invariant Live(nodes, list) && Linked(nodes, list, head, tail) && Partition(nodes, list, free) && Indexed(nodes, list, index)
        invariant |nodes| == old(|nodes|)
        invariant stop < |list| && list[stop] == idx < |nodes|
        invariant Walk(Entries(nodes, list), stop) == Walk(old(Entries(nodes, list)), i)
        decreases Count(Entries(nodes, list))
      {
        OnePlace(nodes, list, stop, head, tail, free, index);
        nodes := nodes[idx := nodes[idx].(visited := false)];
        idx := if nodes[idx].prev == NIL then tail else nodes[idx].prev;
        stop := Before(stop, |list|);
      }
      EntryAt(nodes, list, stop);
      WalkStep(Entries(nodes, list), stop);
    }

    /** The end of evict: the hand moves on, and the slot it stopped at is freed. */
    method Remove(idx: nat, ghost i: nat)
      requires 0 < capacity <= NIL && |list| <= capacity && |nodes| <= capacity
      requires doorkeeper == [] || IsPower(|doorkeeper|)
      requires Linked(nodes, list, head, tail) && Partition(nodes, list, free) && Indexed(nodes, list, index)
      requires i < |list| && list[i] == idx
      modifies `index, `nodes, `free, `head, `tail, `hand, `list, `at
      ensures Valid() && |list| == old(|list|) - 1 && index.Keys <= old(index.Keys)
      ensures Entries(nodes, list) == old(Entries(nodes, list)[..i] + Entries(nodes, list)[i + 1..])
      ensures at == if i == 0 then None else Some(i - 1)
    {
      hide Linked, Live, Partition, Indexed, Entries, Without, SameData, IsPower, Good;
      Ends(nodes, list, head, tail);
      PrevOf(nodes, list, head, tail, i);
      ghost var before, was := nodes, list;
      hand := nodes[idx].prev;
      Detach(idx, i);
      Removed(before, nodes, was, i, old(head), old(tail), head, tail, free, index, capacity);
      index := index - {nodes[idx].hash};
      free := free + [idx];
      at := if i == 0 then None else Some(i - 1);
    }

    method Evict()
      requires Valid()
      modifies `index, `nodes, `free, `head, `tail, `hand, `list, `at
      ensures Valid() && Abstract() == SieveSpec.Evict(old(Abstract()))
      ensures |list| == (if old(list) == [] then 0 else old(|list|) - 1) && index.Keys <= old(index.Keys)
    {
      hide Linked, Live, Partition, Indexed, Entries, Walk, IsPower;
      Ends(nodes, list, head, tail);
      if at.Some? { PrevOf(nodes, list, head, tail, at.value); }
      var idx: nat := if hand == NIL then tail else hand;
      if idx == NIL { return; }
      ghost var i: nat := Start(Abstract());
      idx, i := Sweep(idx, i);
      Remove(idx, i);
    }

    method InsertHashed(h: nat, key: K, value: V)
      requires Valid()
      modifies `index, `nodes, `free, `head, `tail, `hand, `list, `at
      ensures Valid() && Abstract() == SieveSpec.Insert(old(Abstract()), h, key, value)
    {
      hide Linked, Live, Partition, Indexed, Entries, IsPower, Find, SieveSpec.Evict, SieveSpec.PushFront;
      ghost var found := FindIs(h);
      if h in index {
        var idx := index[h];
        Ends(nodes, list, head, tail);
        EntryAt(nodes, list, found.value);
        var node := nodes[idx].(visited := nodes[idx].key == key).(key := key, value := value);
        Rewrite(nodes, list, found.value, node, head, tail, free, index);
        nodes := nodes[idx := node];
        return;
      }
      Counted(nodes, list, head, tail, index);
      if |index| >= capacity {
        Evict();
      }
      AddNew(h, key, value);
    }

    /** The end of insert_hashed: a slot for the new node, the index, and the front of the list. */
    method AddNew(h: nat, key: K, value: V)
      requires Valid() && |list| < capacity && h !in index
      modifies `index, `nodes, `free, `head, `tail, `list, `at
      ensures Valid() && Abstract() == SieveSpec.PushFront(old(Abstract()), Entry(key, h, value, false))
    {
      hide Linked, Live, Partition, Indexed, Entries, SameData, IsPower;
      var node := Node(key, h, value, NIL, NIL, false);
      var idx: nat;
      Spare(nodes, list, head, tail, free, index, node);
      if free != [] {
        idx := free[|free| - 1];
        free := free[..|free| - 1];
        nodes := nodes[idx := node];
      } else {
        nodes := nodes + [node];
        idx := |nodes| - 1;
      }
      ghost var before, was := nodes, list;
      PushFront(idx);
      Added(before, nodes, was, idx, old(head), old(tail), tail, hand, free, index, at, capacity);
      index := index[h := idx];
      at := if at.None? then None else Some(at.value + 1);
    }

    method Insert(key: K, value: V)
      requires Valid()
      modifies `index, `nodes, `free, `head, `tail, `hand, `list, `at
      ensures Valid() && Abstract() == Do(old(Abstract()), hash, Request.Put(key, value))
    {
      InsertHashed(hash(key), key, value);
    }

    method Admit(h: nat) returns (admitted: bool)
      requires Valid()
      modifies `doorkeeper
      ensures Valid() && (admitted, Abstract()) == SieveSpec.Admit(old(Abstract()), h)
    {
      hide Good;
      if doorkeeper == [] { return true; }
      var slot := h % |doorkeeper|;
      var fingerprint := Fingerprint(h);
      if doorkeeper[slot] == fingerprint { return true; }
      doorkeeper := doorkeeper[slot := fingerprint];
      return false;
    }

    method InsertIfSeenBefore(key: K, value: V)
      requires Valid()
      modifies `index, `nodes, `free, `head, `tail, `hand, `list, `at, `doorkeeper
      ensures Valid() && Abstract() == Do(old(Abstract()), hash, Request.PutIfSeen(key, value))
    {
      var h := hash(key);
      hide Linked, Live, Partition, Indexed, Entries, IsPower, SieveSpec.Insert, SieveSpec.Admit;
      var admitted := Admit(h);
      if admitted {
        InsertHashed(h, key, value);
      }
    }
  }
}
