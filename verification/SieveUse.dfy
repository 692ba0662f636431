/**
 What the cache remembers of use (sensor/src/lru.rs): when the bit of an entry is set, over whole runs, where new
 entries and the hand are, and which entry an eviction takes.
 */
module SieveUse {
  import opened Text
  import opened SieveSpec

  // ---- one request

  lemma PlaceOf<K, V>(s: Sieve<K, V>, h: nat) returns (i: nat)
    requires Find(s.entries, h).Some?
    ensures i < |s.entries| && s.entries[i].hash == h && Find(s.entries, h) == Some(i)
  {
    i := Find(s.entries, h).value;
  }

  lemma FindsPlace<K, V>(s: Sieve<K, V>, i: nat)
    requires Sound(s) && i < |s.entries|
    ensures Find(s.entries, s.entries[i].hash) == Some(i)
  {
  }

  /** A get that hits sets the bit of its entry and changes nothing else; one that misses changes nothing. */
  lemma GetMarks<K, V>(s: Sieve<K, V>, hash: K -> nat, key: K)
    requires Sound(s)
    ensures var t := Do(s, hash, Get(key));
      && t.hand == s.hand && t.capacity == s.capacity && t.doorkeeper == s.doorkeeper && |t.entries| == |s.entries|
      && forall i :: 0 <= i < |s.entries| ==>
           t.entries[i] == if s.entries[i].key == key && s.entries[i].hash == hash(key) then s.entries[i].(visited := true) else s.entries[i]
  {
    forall i | 0 <= i < |s.entries| && s.entries[i].hash == hash(key) ensures Find(s.entries, hash(key)) == Some(i) { FindsPlace(s, i); }
  }

  /** A put under a hash that is there replaces its entry in place: the bit is set if it had the same key. */
  lemma PutReplaces<K, V>(s: Sieve<K, V>, hash: K -> nat, key: K, value: V, i: nat)
    requires Sound(s) && i < |s.entries| && s.entries[i].hash == hash(key)
    ensures var t := Do(s, hash, Put(key, value));
      && t.hand == s.hand && t.capacity == s.capacity && t.doorkeeper == s.doorkeeper
      && t.entries == s.entries[i := Entry(key, hash(key), value, s.entries[i].key == key)]
  {
    FindsPlace(s, i);
  }

  /** Any other put makes room if the cache is full, and the new entry comes first, without a bit; the hand stays on its entry. */
  lemma PutAdds<K, V>(s: Sieve<K, V>, hash: K -> nat, key: K, value: V)
    requires Sound(s) && forall i :: 0 <= i < |s.entries| ==> s.entries[i].hash != hash(key)
    ensures var (t, room) := (Do(s, hash, Put(key, value)), if |s.entries| == s.capacity then Evict(s) else s);
      && t.entries == [Entry(key, hash(key), value, false)] + room.entries
      && (t.hand.Some? <==> room.hand.Some?)
      && (t.hand.Some? ==> room.hand.value < |room.entries| && t.entries[t.hand.value] == room.entries[room.hand.value] && t.hand.value == room.hand.value + 1)
      && t.capacity == s.capacity && t.doorkeeper == s.doorkeeper
  {
    hide Evict;
    if Find(s.entries, hash(key)).Some? { var i := PlaceOf(s, hash(key)); }
    EvictFrame(s);
  }

  lemma EvictFrame<K, V>(s: Sieve<K, V>)
    requires HandIn(s)
    ensures Evict(s).capacity == s.capacity && Evict(s).doorkeeper == s.doorkeeper
  {
  }

  // ---- one eviction

  /** The place the hand starts from: its own, or the oldest entry. */
  function From<K, V>(s: Sieve<K, V>): (start: nat)
    requires HandIn(s) && s.entries != []
    ensures start < |s.entries|
  {
    match s.hand case Some(i) => i case None => |s.entries| - 1
  }

  /** How far a place is on the way from the oldest entry towards the newest and round again. */
  function Distance(from: nat, n: nat, k: nat): nat
    requires from < n && k < n
  {
    if k <= from then from - k else from + (n - k)
  }

  /** The hand passes an entry: it and all those on the way to it have their bits set. */
  ghost predicate Passed<K, V>(s: Sieve<K, V>, k: nat)
    requires HandIn(s) && k < |s.entries|
  {
    forall m :: 0 <= m < |s.entries| && Distance(From(s), |s.entries|, m) <= Distance(From(s), |s.entries|, k) ==> s.entries[m].visited
  }

  /**
   The victim is the first entry without a bit on the hand's way, or the hand's own if all have one; the bits of those
   passed are cleared, the others stay as they are, and the hand is left on the entry after the victim.
   */
  lemma EvictTakes<K, V>(s: Sieve<K, V>) returns (victim: nat)
    requires Sound(s) && s.entries != []
    ensures victim < |s.entries|
    ensures var (n, from) := (|s.entries|, From(s));
      && (forall m :: 0 <= m < n && Distance(from, n, m) < Distance(from, n, victim) ==> s.entries[m].visited)
      && (s.entries[victim].visited ==> victim == from && forall m :: 0 <= m < n ==> s.entries[m].visited)
    ensures var t := Evict(s);
      && |t.entries| == |s.entries| - 1 && t.capacity == s.capacity && t.doorkeeper == s.doorkeeper
      && (forall k :: 0 <= k < |s.entries| && k != victim ==>
            t.entries[if k < victim then k else k - 1] == if Passed(s, k) then s.entries[k].(visited := false) else s.entries[k])
      && t.hand == if victim == 0 then None else Some(victim - 1)
  {
    hide Sound, Evict, Walk, Passed;
    SoundHand(s);
    var after, j;
    victim, after, j := Stops(s);
    EvictIs(s);
    RemovedAt(after, victim);
  }

  /** Where the hand's walk stops, and what is left of the bits. */
  lemma Stops<K, V>(s: Sieve<K, V>) returns (stop: nat, after: seq<Entry<K, V>>, j: nat)
    requires HandIn(s) && s.entries != []
    ensures (after, stop) == Walk(s.entries, From(s)) && stop < |s.entries| == |after|
    ensures forall k :: 0 <= k < |s.entries| ==> after[k] == if Passed(s, k) then s.entries[k].(visited := false) else s.entries[k]
    ensures forall m :: 0 <= m < |s.entries| && Distance(From(s), |s.entries|, m) < j ==> s.entries[m].visited
    ensures if j < |s.entries| then Distance(From(s), |s.entries|, stop) == j && !s.entries[stop].visited
            else stop == From(s) && forall m :: 0 <= m < |s.entries| ==> s.entries[m].visited
  {
    hide Walk, Passed, Steps, Swept;
    var walk := Walk(s.entries, From(s));
    after, stop := walk.0, walk.1;
    StartIs(s);
    j := WalkIs(s.entries, From(s));
    PassedFirst(s, after, stop, j);
  }

  lemma SoundHand<K, V>(s: Sieve<K, V>)
    requires Sound(s)
    ensures HandIn(s)
  {
  }

  lemma StartIs<K, V>(s: Sieve<K, V>)
    requires HandIn(s) && s.entries != []
    ensures Start(s) == From(s)
  {
  }

  lemma RemovedAt<T>(a: seq<T>, i: nat)
    requires i < |a|
    ensures var b := a[..i] + a[i + 1..];
      |b| == |a| - 1 && forall k :: 0 <= k < |a| && k != i ==> b[if k < i then k else k - 1] == a[k]
  {
  }

  lemma EvictIs<K, V>(s: Sieve<K, V>)
    requires HandIn(s) && s.entries != []
    ensures var (after, stop) := Walk(s.entries, From(s));
      Evict(s) == s.(entries := after[..stop] + after[stop + 1..], hand := if stop == 0 then None else Some(stop - 1))
  {
    hide Walk;
  }

  /** The places before the one the walk stops at are those the hand passes. */
  lemma PassedFirst<K, V>(s: Sieve<K, V>, after: seq<Entry<K, V>>, stop: nat, j: nat)
    requires HandIn(s) && s.entries != [] && stop < |s.entries| && Swept(s.entries, after, From(s), j)
    requires if j < |s.entries| then Steps(From(s), |s.entries|, stop) == j && !s.entries[stop].visited else stop == From(s)
    ensures |after| == |s.entries|
    ensures forall k :: 0 <= k < |s.entries| ==> (Passed(s, k) <==> Distance(From(s), |s.entries|, k) < j)
    ensures forall k :: 0 <= k < |s.entries| ==> after[k] == if Passed(s, k) then s.entries[k].(visited := false) else s.entries[k]
    ensures forall m :: 0 <= m < |s.entries| && Distance(From(s), |s.entries|, m) < j ==> s.entries[m].visited
    ensures if j < |s.entries| then Distance(From(s), |s.entries|, stop) == j && !s.entries[stop].visited else stop == From(s)
  {
    var from, n := From(s), |s.entries|;
    assert forall k :: 0 <= k < n ==> Distance(from, n, k) == Steps(from, n, k);
    forall k | 0 <= k < n ensures Passed(s, k) <==> Distance(from, n, k) < j {
      if Distance(from, n, k) >= j { assert j < n && Distance(from, n, stop) <= Distance(from, n, k); }
    }
  }

  /** An entry with its bit set survives an eviction if another has none. */
  lemma UsedSurvives<K, V>(s: Sieve<K, V>, k: nat, other: nat)
    requires Sound(s) && k < |s.entries| && other < |s.entries| && s.entries[k].visited && !s.entries[other].visited
    ensures exists i :: 0 <= i < |Evict(s).entries| && Evict(s).entries[i].(visited := true) == s.entries[k]
  {
    hide Evict, Passed, From;
    var victim := EvictTakes(s);
    var i := if k < victim then k else k - 1;
    assert Evict(s).entries[i].(visited := true) == s.entries[k];
  }

  // ---- over a run

  /** Every entry is under the hash of its key. */
  ghost predicate Hashed<K, V>(s: Sieve<K, V>, hash: K -> nat) {
    Sound(s) && forall i :: 0 <= i < |s.entries| ==> s.entries[i].hash == hash(s.entries[i].key)
  }

  ghost predicate Cached<K, V>(s: Sieve<K, V>, key: K) {
    exists i :: 0 <= i < |s.entries| && s.entries[i].key == key
  }

  /** The bit of a key's entry. */
  ghost predicate Marked<K, V>(s: Sieve<K, V>, key: K) {
    exists i :: 0 <= i < |s.entries| && s.entries[i].key == key && s.entries[i].visited
  }

  /** The doorkeeper lets a hash in: there is none, or its slot holds the fingerprint. */
  ghost predicate Opens<K, V>(s: Sieve<K, V>, h: nat) {
    s.doorkeeper == [] || s.doorkeeper[h % |s.doorkeeper|] == 2 * (h / 0x2_0000) + 1
  }

  /** The request puts its key. */
  ghost predicate Puts<K, V>(s: Sieve<K, V>, hash: K -> nat, r: Request<K, V>) {
    r.Put? || (r.PutIfSeen? && Opens(s, hash(r.key)))
  }

  /** The request is a hit on the key, or overwrites its entry. */
  ghost predicate Uses<K, V>(s: Sieve<K, V>, hash: K -> nat, r: Request<K, V>, key: K) {
    Cached(s, key) && (r.Get? || Puts(s, hash, r)) && r.key == key
  }

  /** The request makes room, and the hand passes the key's entry. */
  ghost predicate Passes<K, V>(s: Sieve<K, V>, hash: K -> nat, r: Request<K, V>, key: K)
    requires HandIn(s)
  {
    && Puts(s, hash, r) && |s.entries| == s.capacity && (forall i :: 0 <= i < |s.entries| ==> s.entries[i].hash != hash(r.key))
    && exists i :: 0 <= i < |s.entries| && s.entries[i].key == key && Passed(s, i)
  }

  lemma OpensIs<K, V>(s: Sieve<K, V>, h: nat)
    ensures Admit(s, h).0 <==> Opens(s, h)
    ensures Admit(s, h).1.entries == s.entries && Admit(s, h).1.hand == s.hand && Admit(s, h).1.capacity == s.capacity
    ensures Opens(s, h) ==> Admit(s, h).1 == s
  {
    assert h / 0x2_0000 == h / 0x1_0000 / 2;
  }

  /** What one request does to the bit of a key that is cached after it. */
  ghost predicate MarkNext<K, V>(s: Sieve<K, V>, hash: K -> nat, r: Request<K, V>, t: Sieve<K, V>, key: K)
    requires HandIn(s)
  {
    Marked(t, key) <==> Uses(s, hash, r, key) || (Cached(s, key) && Marked(s, key) && !Passes(s, hash, r, key))
  }

  lemma GetNext<K, V>(s: Sieve<K, V>, hash: K -> nat, g: K, key: K)
    requires Hashed(s, hash)
    ensures var t := Do(s, hash, Get(g));
      Hashed(t, hash) && (Cached(t, key) ==> Cached(s, key) && MarkNext(s, hash, Get(g), t, key))
  {
    GetMarks(s, hash, g);
    DoSound(s, hash, Get(g));
  }

  lemma ReplaceNext<K, V>(s: Sieve<K, V>, hash: K -> nat, p: K, value: V, key: K, at: nat)
    requires Hashed(s, hash) && at < |s.entries| && s.entries[at].hash == hash(p)
    ensures var t := Do(s, hash, Put(p, value));
      Hashed(t, hash) && (Cached(t, key) ==> MarkNext(s, hash, Put(p, value), t, key))
  {
    hide Passed;
    PutReplaces(s, hash, p, value, at);
    DoSound(s, hash, Put(p, value));
    var t := Do(s, hash, Put(p, value));
    assert t.entries[at].key == p && (t.entries[at].visited <==> s.entries[at].key == p);
    forall i | 0 <= i < |s.entries| && s.entries[i].key == p ensures i == at { }
    if key == p {
    } else {
      assert !Uses(s, hash, Put(p, value), key);
      forall i | 0 <= i < |s.entries| && s.entries[i].key == key && i != at ensures t.entries[i] == s.entries[i] { }
    }
  }

  /** A new entry in a cache with room. */
  lemma AddNext<K, V>(s: Sieve<K, V>, hash: K -> nat, p: K, value: V, key: K)
    requires Hashed(s, hash) && |s.entries| < s.capacity && forall i :: 0 <= i < |s.entries| ==> s.entries[i].hash != hash(p)
    ensures var t := Do(s, hash, Put(p, value));
      Hashed(t, hash) && (Cached(t, key) ==> MarkNext(s, hash, Put(p, value), t, key))
  {
    hide Passed;
    PutAdds(s, hash, p, value);
    DoSound(s, hash, Put(p, value));
    var t := Do(s, hash, Put(p, value));
    assert forall i :: 0 <= i < |s.entries| ==> t.entries[i + 1] == s.entries[i];
    assert forall i :: 0 < i < |t.entries| ==> t.entries[i] == s.entries[i - 1];
    assert t.entries[0] == Entry(p, hash(p), value, false);
  }

  /** A new entry in a full cache. */
  lemma EvictNext<K, V>(s: Sieve<K, V>, hash: K -> nat, p: K, value: V, key: K)
    requires Hashed(s, hash) && |s.entries| == s.capacity && forall i :: 0 <= i < |s.entries| ==> s.entries[i].hash != hash(p)
    ensures var t := Do(s, hash, Put(p, value));
      Hashed(t, hash) && (Cached(t, key) ==> MarkNext(s, hash, Put(p, value), t, key))
  {
    hide Passed, Evict, From, Distance, Do, Sound, Marked;
    var r := Put(p, value);
    SoundHand(s);
    DoSound(s, hash, r);
    var victim := EvictPlaces(s, hash, p, value);
    var t := Do(s, hash, r);
    assert Hashed(t, hash);
    if Cached(t, key) {
      var i: nat :| i < |t.entries| && t.entries[i].key == key;
      OneEntry(t, hash, key, i);
      assert !Cached(s, p);
      if i > 0 {
        var k := if i - 1 < victim then i - 1 else i;
        OneEntry(s, hash, key, k);
        assert s.entries[k].key == key && key != p;
        assert Passes(s, hash, r, key) <==> Passed(s, k);
      }
    }
  }

  /** A key has one entry. */
  lemma OneEntry<K, V>(s: Sieve<K, V>, hash: K -> nat, key: K, i: nat)
    requires Hashed(s, hash) && i < |s.entries| && s.entries[i].key == key
    ensures forall j :: 0 <= j < |s.entries| && s.entries[j].key == key ==> j == i
    ensures Marked(s, key) <==> s.entries[i].visited
  {
  }

  /** Where the entries of a full cache are after a new one came. */
  lemma EvictPlaces<K, V>(s: Sieve<K, V>, hash: K -> nat, p: K, value: V) returns (victim: nat)
    requires Sound(s) && |s.entries| == s.capacity && forall i :: 0 <= i < |s.entries| ==> s.entries[i].hash != hash(p)
    ensures victim < |s.entries|
    ensures var t := Do(s, hash, Put(p, value));
      && |t.entries| == |s.entries| && t.entries[0] == Entry(p, hash(p), value, false)
      && forall i :: 0 < i < |t.entries| ==> var k := if i - 1 < victim then i - 1 else i;
           t.entries[i] == if Passed(s, k) then s.entries[k].(visited := false) else s.entries[k]
  {
    hide Passed, Evict, From, Distance, Do;
    PutAdds(s, hash, p, value);
    victim := EvictTakes(s);
    var t := Do(s, hash, Put(p, value));
    forall i | 0 < i < |t.entries|
      ensures var k := if i - 1 < victim then i - 1 else i;
        t.entries[i] == if Passed(s, k) then s.entries[k].(visited := false) else s.entries[k]
    {
      var k := if i - 1 < victim then i - 1 else i;
      assert t.entries[i] == Evict(s).entries[if k < victim then k else k - 1];
    }
  }

  lemma PutNext<K, V>(s: Sieve<K, V>, hash: K -> nat, p: K, value: V, key: K)
    requires Hashed(s, hash)
    ensures var t := Do(s, hash, Put(p, value));
      Hashed(t, hash) && (Cached(t, key) ==> MarkNext(s, hash, Put(p, value), t, key))
  {
    hide MarkNext, Cached;
    if at :| 0 <= at < |s.entries| && s.entries[at].hash == hash(p) {
      ReplaceNext(s, hash, p, value, key, at);
    } else if |s.entries| < s.capacity {
      AddNext(s, hash, p, value, key);
    } else {
      EvictNext(s, hash, p, value, key);
    }
  }

  /** One request: the bit of a key cached after it is set if it was used, or was set before and not passed by the hand. */
  lemma DoNext<K, V>(s: Sieve<K, V>, hash: K -> nat, r: Request<K, V>, key: K)
    requires Hashed(s, hash)
    ensures var t := Do(s, hash, r);
      Hashed(t, hash) && (Cached(t, key) ==> MarkNext(s, hash, r, t, key))
  {
    DoSound(s, hash, r);
    match r
    case Get(g) => GetNext(s, hash, g, key);
    case Put(p, v) => PutNext(s, hash, p, v, key);
    case PutIfSeen(p, v) =>
      OpensIs(s, hash(p));
      if Opens(s, hash(p)) { PutNext(s, hash, p, v, key); }
    case Clear =>
  }

  /** The cache before request j of a run. */
  function Before<K(==), V>(s: Sieve<K, V>, hash: K -> nat, rs: seq<Request<K, V>>, j: nat): (t: Sieve<K, V>)
    requires HandIn(s) && j <= |rs|
    ensures HandIn(t)
  {
    Run(s, hash, rs[..j])
  }

  /** Request j leaves the key cached, and the hand does not pass it. */
  ghost predicate Spares<K, V>(s: Sieve<K, V>, hash: K -> nat, rs: seq<Request<K, V>>, j: nat, key: K)
    requires HandIn(s) && j < |rs|
  {
    && Cached(Before(s, hash, rs, j), key) && Cached(Before(s, hash, rs, j + 1), key)
    && !Passes(Before(s, hash, rs, j), hash, rs[j], key)
  }

  /** Some request used the key, and all later ones spared it. */
  ghost predicate UsedSince<K, V>(s: Sieve<K, V>, hash: K -> nat, rs: seq<Request<K, V>>, key: K)
    requires HandIn(s)
  {
    exists i :: 0 <= i < |rs| && Uses(Before(s, hash, rs, i), hash, rs[i], key)
      && forall j :: i < j < |rs| ==> Spares(s, hash, rs, j, key)
  }

  /**
   Over any run from an empty cache, the bit of a cached key is set exactly if it was hit, or overwritten under its own
   key, since it was inserted and since the hand last passed it.
   */
  lemma {:induction false} MarkedIs<K, V>(s: Sieve<K, V>, hash: K -> nat, rs: seq<Request<K, V>>, key: K)
    requires Sound(s) && s.entries == []
    ensures Hashed(Run(s, hash, rs), hash)
    ensures Cached(Run(s, hash, rs), key) ==> (Marked(Run(s, hash, rs), key) <==> UsedSince(s, hash, rs, key))
  {
    hide Passes, Do;
    if rs != [] {
      var front, r := rs[..|rs| - 1], rs[|rs| - 1];
      MarkedIs(s, hash, front, key);
      DoNext(Run(s, hash, front), hash, r, key);
      if Cached(Run(s, hash, rs), key) { UsedNext(s, hash, front, r, key); }
      assert front + [r] == rs;
    }
  }

  lemma UsedNext<K, V>(s: Sieve<K, V>, hash: K -> nat, front: seq<Request<K, V>>, r: Request<K, V>, key: K)
    requires HandIn(s) && Cached(Run(s, hash, front + [r]), key)
    ensures var t := Run(s, hash, front);
      UsedSince(s, hash, front + [r], key) <==>
        Uses(t, hash, r, key) || (Cached(t, key) && UsedSince(s, hash, front, key) && !Passes(t, hash, r, key))
  {
    hide Passes, Uses, Run, Cached;
    var rs, n, t := front + [r], |front|, Run(s, hash, front);
    assert rs[..n] == front && rs[..n + 1] == rs;
    forall j | 0 <= j <= n ensures Before(s, hash, rs, j) == Before(s, hash, front, j) { assert rs[..j] == front[..j]; }
    assert forall j :: 0 <= j < n ==> rs[j] == front[j];
    assert forall j :: 0 <= j < n ==> (Spares(s, hash, rs, j, key) <==> Spares(s, hash, front, j, key));
    assert front[..n] == front;
    assert Spares(s, hash, rs, n, key) <==> Cached(t, key) && !Passes(t, hash, r, key);
    if Uses(t, hash, r, key) { assert Uses(Before(s, hash, rs, n), hash, rs[n], key); }
    if UsedSince(s, hash, front, key) && Cached(t, key) && !Passes(t, hash, r, key) {
      var i :| 0 <= i < n && Uses(Before(s, hash, front, i), hash, front[i], key) && forall j :: i < j < n ==> Spares(s, hash, front, j, key);
      assert Uses(Before(s, hash, rs, i), hash, rs[i], key);
    }
  }

  /** A key used since then is still cached after the next put of another hash, if some cached key was not used. */
  lemma UsedStays<K, V>(s: Sieve<K, V>, hash: K -> nat, rs: seq<Request<K, V>>, p: K, value: V, key: K, other: K)
    requires Sound(s) && s.entries == [] && hash(p) != hash(key)
    requires Cached(Run(s, hash, rs), key) && UsedSince(s, hash, rs, key)
    requires Cached(Run(s, hash, rs), other) && !UsedSince(s, hash, rs, other)
    ensures Cached(Do(Run(s, hash, rs), hash, Put(p, value)), key)
  {
    hide UsedSince, Do, Evict;
    var t := Run(s, hash, rs);
    MarkedIs(s, hash, rs, key);
    MarkedIs(s, hash, rs, other);
    var k: nat :| k < |t.entries| && t.entries[k].key == key && t.entries[k].visited;
    var o: nat :| o < |t.entries| && t.entries[o].key == other;
    if at :| 0 <= at < |t.entries| && t.entries[at].hash == hash(p) {
      PutReplaces(t, hash, p, value, at);
      assert Do(t, hash, Put(p, value)).entries[k].key == key;
    } else {
      PutAdds(t, hash, p, value);
      var room := if |t.entries| == t.capacity then Evict(t) else t;
      if |t.entries| == t.capacity { UsedSurvives(t, k, o); }
      var i :| 0 <= i < |room.entries| && room.entries[i].key == key;
      assert Do(t, hash, Put(p, value)).entries[i + 1].key == key;
    }
  }
}
