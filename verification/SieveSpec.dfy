/**
 The SIEVE cache policy (sensor/src/lru.rs) on a plain sequence: entries newest first, a hand that
 walks from the oldest towards the newest and round again, and an admission doorkeeper.
 */
module SieveSpec {
  import opened Text

  datatype Entry<K, V> = Entry(key: K, hash: nat, value: V, visited: bool)

  datatype Sieve<K, V> = Sieve(entries: seq<Entry<K, V>>, hand: Option<nat>, capacity: nat, doorkeeper: seq<nat>)

  /** The hand is off the list or at a place of it. */
  predicate HandIn<K, V>(s: Sieve<K, V>) {
    s.hand.Some? ==> s.hand.value < |s.entries|
  }

  function Count<K, V>(entries: seq<Entry<K, V>>): nat {
    if entries == [] then 0 else (if entries[0].visited then 1 else 0) + Count(entries[1..])
  }

  lemma {:induction false} CountClear<K, V>(entries: seq<Entry<K, V>>, i: nat)
    requires i < |entries| && entries[i].visited
    ensures Count(entries[i := entries[i].(visited := false)]) < Count(entries)
  {
    var cleared := entries[i := entries[i].(visited := false)];
    if i == 0 {
      assert cleared[1..] == entries[1..];
    } else {
      CountClear(entries[1..], i - 1);
      assert cleared[1..] == entries[1..][i - 1 := entries[i].(visited := false)];
    }
  }

  /** One place towards the newest entry, from there round to the oldest. */
  function Before(i: nat, n: nat): (j: nat)
    requires i < n
    ensures j < n
  {
    if i == 0 then n - 1 else i - 1
  }

  /** The hand's walk from `i`: bits cleared on the way, and the place it stops at. */
  function Walk<K, V>(entries: seq<Entry<K, V>>, i: nat): (seq<Entry<K, V>>, nat)
    requires i < |entries|
    ensures |Walk(entries, i).0| == |entries| && Walk(entries, i).1 < |entries|
    decreases Count(entries)
  {
    if !entries[i].visited then (entries, i)
    else
      CountClear(entries, i);
      Walk(entries[i := entries[i].(visited := false)], Before(i, |entries|))
  }

  function Start<K, V>(s: Sieve<K, V>): (start: nat)
    requires HandIn(s) && s.entries != []
    ensures start < |s.entries|
  {
    if s.hand.None? then |s.entries| - 1 else s.hand.value
  }

  function Evict<K, V>(s: Sieve<K, V>): (t: Sieve<K, V>)
    requires HandIn(s)
    ensures HandIn(t)
  {
    if s.entries == [] then s
    else
      var (entries, i) := Walk(s.entries, Start(s));
      s.(entries := entries[..i] + entries[i + 1..], hand := if i == 0 then None else Some(i - 1))
  }

  /** The place of a hash. */
  function Find<K, V>(entries: seq<Entry<K, V>>, h: nat): (r: Option<nat>)
    ensures r.Some? ==> r.value < |entries| && entries[r.value].hash == h
    ensures r.None? ==> forall i :: 0 <= i < |entries| ==> entries[i].hash != h
  {
    if entries == [] then None
    else if entries[0].hash == h then Some(0)
    else match Find(entries[1..], h)
      case None => None
      case Some(i) => Some(i + 1)
  }

  /** The place of a key that hashes to `h`, if it is cached. */
  function Hit<K(==), V>(s: Sieve<K, V>, h: nat, key: K): Option<nat> {
    match Find(s.entries, h)
    case None => None
    case Some(i) => if s.entries[i].key == key then Some(i) else None
  }

  function Touch<K(==), V>(s: Sieve<K, V>, h: nat, key: K): (t: Sieve<K, V>)
    requires HandIn(s)
    ensures HandIn(t)
  {
    match Hit(s, h, key)
    case None => s
    case Some(i) => s.(entries := s.entries[i := s.entries[i].(visited := true)])
  }

  function PushFront<K, V>(s: Sieve<K, V>, e: Entry<K, V>): (t: Sieve<K, V>)
    requires HandIn(s)
    ensures HandIn(t)
  {
    s.(entries := [e] + s.entries, hand := if s.hand.None? then None else Some(s.hand.value + 1))
  }

  function Insert<K(==), V>(s: Sieve<K, V>, h: nat, key: K, value: V): (t: Sieve<K, V>)
    requires HandIn(s)
    ensures HandIn(t)
  {
    match Find(s.entries, h)
    case Some(i) => s.(entries := s.entries[i := Entry(key, h, value, s.entries[i].key == key)])
    case None => PushFront(if |s.entries| >= s.capacity then Evict(s) else s, Entry(key, h, value, false))
  }

  function Fingerprint(h: nat): nat {
    var q := h / 0x1_0000;
    if q % 2 == 0 then q + 1 else q
  }

  /** The doorkeeper: whether `h` is let in, and what it remembers. */
  function Admit<K, V>(s: Sieve<K, V>, h: nat): (bool, Sieve<K, V>) {
    if s.doorkeeper == [] then (true, s)
    else
      var slot := h % |s.doorkeeper|;
      if s.doorkeeper[slot] == Fingerprint(h) then (true, s)
      else (false, s.(doorkeeper := s.doorkeeper[slot := Fingerprint(h)]))
  }

  function InsertIfSeenBefore<K(==), V>(s: Sieve<K, V>, h: nat, key: K, value: V): (t: Sieve<K, V>)
    requires HandIn(s)
    ensures HandIn(t)
  {
    var (admitted, s') := Admit(s, h);
    if admitted then Insert(s', h, key, value) else s'
  }

  // ---- what eviction does

  /** How many steps the hand takes from `start` to place k for the first time. */
  function Steps(start: nat, n: nat, k: nat): nat
    requires start < n && k < n
  {
    if k <= start then start - k else n + start - k
  }

  /**
   The walk is at most one lap: it clears the bits of the first j places, all of them set, and stops
   at the next one, which has no bit; only if every bit was set does it come round to its start.
   */
  lemma WalkIs<K, V>(entries: seq<Entry<K, V>>, start: nat) returns (j: nat)
    requires start < |entries|
    ensures j <= |entries|
    ensures var n, (after, stop) := |entries|, Walk(entries, start);
      && Swept(entries, after, start, j)
      && (if j < n then Steps(start, n, stop) == j && !entries[stop].visited else stop == start)
  {
    j := WalkFrom(entries, entries, start, start, 0);
  }

  /** `after` is `entries` with the bits of the first j places from `start` cleared, all of them set before. */
  ghost predicate Swept<K, V>(entries: seq<Entry<K, V>>, after: seq<Entry<K, V>>, start: nat, j: nat)
    requires start < |entries|
  {
    && |after| == |entries|
    && forall k :: 0 <= k < |entries| ==>
         && (Steps(start, |entries|, k) < j ==> entries[k].visited && after[k] == entries[k].(visited := false))
         && (Steps(start, |entries|, k) >= j ==> after[k] == entries[k])
  }

  lemma {:induction false} WalkFrom<K, V>(entries: seq<Entry<K, V>>, now: seq<Entry<K, V>>, start: nat, at: nat, steps: nat) returns (j: nat)
    requires start < |entries| && at < |entries| && steps <= |entries| && Swept(entries, now, start, steps)
    requires if steps < |entries| then Steps(start, |entries|, at) == steps else at == start
    ensures steps <= j <= |entries|
    ensures var n, (after, stop) := |entries|, Walk(now, at);
      && Swept(entries, after, start, j)
      && (if j < n then Steps(start, n, stop) == j && !entries[stop].visited else stop == start)
    decreases |entries| - steps
  {
    var n := |entries|;
    if steps == n || !now[at].visited {
      j := steps;
    } else {
      CountClear(now, at);
      j := WalkFrom(entries, now[at := now[at].(visited := false)], start, Before(at, n), steps + 1);
    }
  }

  /** A visited entry is evicted only if every entry was visited, and then it is the one the hand was on. */
  lemma VisitedSurvives<K, V>(s: Sieve<K, V>)
    requires HandIn(s) && s.entries != []
    requires s.entries[Walk(s.entries, Start(s)).1].visited
    ensures forall k :: 0 <= k < |s.entries| ==> s.entries[k].visited
    ensures Walk(s.entries, Start(s)).1 == Start(s)
  {
    var j := WalkIs(s.entries, Start(s));
  }

  // ---- what the cache answers

  ghost predicate Sound<K, V>(s: Sieve<K, V>) {
    && s.capacity > 0 && |s.entries| <= s.capacity
    && HandIn(s)
    && (forall i, j :: 0 <= i < j < |s.entries| ==> s.entries[i].hash != s.entries[j].hash)
  }

  datatype Request<K, V> = Get(key: K) | Put(key: K, value: V) | PutIfSeen(key: K, value: V) | Clear

  function Do<K(==), V>(s: Sieve<K, V>, hash: K -> nat, r: Request<K, V>): (t: Sieve<K, V>)
    requires HandIn(s)
    ensures HandIn(t)
  {
    match r
    case Get(k) => Touch(s, hash(k), k)
    case Put(k, v) => Insert(s, hash(k), k, v)
    case PutIfSeen(k, v) => InsertIfSeenBefore(s, hash(k), k, v)
    case Clear => s.(entries := [], hand := None)
  }

  /** The place an entry had before the one at `stop` went. */
  function Was(stop: nat, i: nat): nat {
    if i < stop then i else i + 1
  }

  /** The entry evicted is the one the walk stops at; the others stay, in their order. */
  lemma EvictKeeps<K, V>(s: Sieve<K, V>)
    requires HandIn(s) && s.entries != []
    ensures |Evict(s).entries| == |s.entries| - 1
    ensures var stop := Walk(s.entries, Start(s)).1;
      forall i :: 0 <= i < |Evict(s).entries| ==>
        var e := s.entries[Was(stop, i)];
        Evict(s).entries[i] == e || Evict(s).entries[i] == e.(visited := false)
  {
    var j := WalkIs(s.entries, Start(s));
  }

  lemma EvictSound<K, V>(s: Sieve<K, V>)
    requires Sound(s) && s.entries != []
    ensures Sound(Evict(s))
  {
    EvictKeeps(s);
    hide Walk, Start;
  }

  lemma DoSound<K, V>(s: Sieve<K, V>, hash: K -> nat, r: Request<K, V>)
    requires Sound(s)
    ensures Sound(Do(s, hash, r)) && Do(s, hash, r).capacity == s.capacity
  {
    var s' := match r case PutIfSeen(k, v) => Admit(s, hash(k)).1 case _ => s;
    if s.entries != [] { EvictSound(s); EvictSound(s'); }
    match r
    case Get(k) =>
    case Put(k, v) => InsertSound(s, hash(k), k, v);
    case PutIfSeen(k, v) => InsertSound(s', hash(k), k, v);
    case Clear =>
  }

  lemma InsertSound<K, V>(s: Sieve<K, V>, h: nat, key: K, value: V)
    requires Sound(s)
    ensures Sound(Insert(s, h, key, value))
  {
    if Find(s.entries, h).None? && |s.entries| >= s.capacity {
      EvictSound(s);
      EvictKeeps(s);
    }
  }

  /** Every cached value is the function's value of its own key. */
  ghost predicate Caches<K, V>(s: Sieve<K, V>, f: K -> V) {
    forall e :: e in s.entries ==> e.value == f(e.key)
  }

  lemma DoCaches<K, V>(s: Sieve<K, V>, hash: K -> nat, r: Request<K, V>, f: K -> V)
    requires Sound(s) && Caches(s, f)
    requires (r.Put? || r.PutIfSeen?) ==> r.value == f(r.key)
    ensures Caches(Do(s, hash, r), f)
  {
    match r
    case Get(k) => TouchCaches(s, hash(k), k, f);
    case Put(k, v) => InsertCaches(s, hash(k), k, f);
    case PutIfSeen(k, v) => InsertCaches(Admit(s, hash(k)).1, hash(k), k, f);
    case Clear =>
  }

  lemma TouchCaches<K, V>(s: Sieve<K, V>, h: nat, key: K, f: K -> V)
    requires HandIn(s) && Caches(s, f)
    ensures Caches(Touch(s, h, key), f)
  {
    var t := Touch(s, h, key);
    forall e | e in t.entries ensures e.value == f(e.key) {
      var i :| 0 <= i < |t.entries| && t.entries[i] == e;
      assert s.entries[i] in s.entries;
    }
  }

  lemma InsertCaches<K, V>(s: Sieve<K, V>, h: nat, key: K, f: K -> V)
    requires Sound(s) && Caches(s, f)
    ensures Caches(Insert(s, h, key, f(key)), f)
  {
    hide Evict;
    if Find(s.entries, h).Some? {
      var i, t := Find(s.entries, h).value, Insert(s, h, key, f(key));
      forall e | e in t.entries ensures e.value == f(e.key) {
        var k :| 0 <= k < |t.entries| && t.entries[k] == e;
        assert s.entries[k] in s.entries;
      }
    } else if |s.entries| >= s.capacity {
      EvictCaches(s, f);
    }
  }

  lemma EvictCaches<K, V>(s: Sieve<K, V>, f: K -> V)
    requires HandIn(s) && s.entries != [] && Caches(s, f)
    ensures Caches(Evict(s), f)
  {
    EvictKeeps(s);
    var stop, t := Walk(s.entries, Start(s)).1, Evict(s);
    forall e | e in t.entries ensures e.value == f(e.key) {
      var i :| 0 <= i < |t.entries| && t.entries[i] == e;
      assert s.entries[Was(stop, i)] in s.entries;
    }
  }

  function Run<K(==), V>(s: Sieve<K, V>, hash: K -> nat, rs: seq<Request<K, V>>): (t: Sieve<K, V>)
    requires HandIn(s)
    ensures HandIn(t)
  {
    if rs == [] then s
    else Do(Run(s, hash, rs[..|rs| - 1]), hash, rs[|rs| - 1])
  }

  /**
   Over any run from an empty cache whose inserts give every key k the value f(k), a hit on k is f(k):
   also when keys share a hash, when the doorkeeper turns inserts away, and after any evictions.
   */
  lemma {:induction false} HitsAreRight<K, V>(s: Sieve<K, V>, hash: K -> nat, rs: seq<Request<K, V>>, f: K -> V, key: K)
    requires Sound(s) && s.entries == []
    requires forall r :: r in rs && (r.Put? || r.PutIfSeen?) ==> r.value == f(r.key)
    ensures Sound(Run(s, hash, rs)) && Caches(Run(s, hash, rs), f)
    ensures var t := Run(s, hash, rs); var hit := Hit(t, hash(key), key);
      hit.Some? ==> t.entries[hit.value].key == key && t.entries[hit.value].value == f(key)
  {
    if rs != [] {
      var front, r := rs[..|rs| - 1], rs[|rs| - 1];
      HitsAreRight(s, hash, front, f, key);
      DoSound(Run(s, hash, front), hash, r);
      DoCaches(Run(s, hash, front), hash, r, f);
    }
    var t := Run(s, hash, rs);
    var hit := Hit(t, hash(key), key);
    if hit.Some? { assert t.entries[hit.value] in t.entries; }
  }

  // ---- what the doorkeeper remembers

  /** The fingerprint of the last sighting in `rs` that fell in this slot of a table of n; 0 if none did. */
  function LastSeen<K, V>(hash: K -> nat, rs: seq<Request<K, V>>, n: nat, slot: nat): nat
    requires n > 0
  {
    if rs == [] then 0
    else
      var r := rs[|rs| - 1];
      if r.PutIfSeen? && hash(r.key) % n == slot then Fingerprint(hash(r.key))
      else LastSeen(hash, rs[..|rs| - 1], n, slot)
  }

  /**
   After any run from an empty doorkeeper a hash is let in exactly if the last sighting in its slot had
   its fingerprint: never at the first sighting in a slot, always at the second of two in a row.
   */
  lemma {:induction false} LetIn<K, V>(s: Sieve<K, V>, hash: K -> nat, rs: seq<Request<K, V>>, h: nat)
    requires HandIn(s) && s.doorkeeper != [] && forall i :: 0 <= i < |s.doorkeeper| ==> s.doorkeeper[i] == 0
    ensures var n := |s.doorkeeper|;
      && |Run(s, hash, rs).doorkeeper| == n
      && Run(s, hash, rs).doorkeeper[h % n] == LastSeen(hash, rs, n, h % n)
      && Admit(Run(s, hash, rs), h).0 == (LastSeen(hash, rs, n, h % n) == Fingerprint(h))
  {
    if rs != [] {
      LetIn(s, hash, rs[..|rs| - 1], h);
    }
  }
}
