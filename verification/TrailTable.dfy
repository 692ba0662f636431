/**
 The open-addressing table of core/trailsbin.py: two halves of a 64-bit hash and a value per slot,
 linear probing, and no key. A hash is a number below 2^64.
 */
module TrailTable {
  import opened Text
  import opened Powers

  const EMPTY := 0xFFFF_FFFF
  const HALF := 0x1_0000_0000

  /** The slot d places after `start`, round a table of n slots. */
  function Probe(start: nat, n: nat, d: nat): (slot: nat)
    requires start < n && d < n
    ensures slot < n
  {
    if start + d < n then start + d else start + d - n
  }

  lemma ProbeNext(start: nat, n: nat, d: nat)
    requires start < n && d + 1 < n
    ensures (Probe(start, n, d) + 1) % n == Probe(start, n, d + 1)
  {
    if Probe(start, n, d) + 1 == n {
      assert n % n == 0;
    }
  }

  function Hi(h: nat): nat { h / HALF % HALF }

  function Lo(h: nat): nat { h % HALF }

  lemma Halves(h: nat, g: nat)
    requires h < HALF * HALF && g < HALF * HALF && Hi(h) == Hi(g) && Lo(h) == Lo(g)
    ensures h == g
  {
    assert h / HALF < HALF && g / HALF < HALF;
  }

  /**
   What the slots hold, seen from `stored` (hash to value) and `at` (hash to its distance from home):
   an occupied slot holds a stored hash, and a stored hash is reached from its home over occupied slots.
   */
  ghost predicate Holds(hi: seq<nat>, lo: seq<nat>, val: seq<nat>, stored: map<nat, nat>, at: map<nat, nat>) {
    && |hi| == |lo| == |val| > 0
    && stored.Keys == at.Keys
    && (forall h :: h in stored ==> h < HALF * HALF && at[h] < |val| && Sits(hi, lo, val, h, stored[h], at[h]))
    && (forall s :: 0 <= s < |val| && val[s] != EMPTY ==> exists h :: h in stored && Probe(h % |val|, |val|, at[h]) == s)
  }

  /** `h` is at distance d from home with value v, and every slot on the way is taken. */
  ghost predicate Sits(hi: seq<nat>, lo: seq<nat>, val: seq<nat>, h: nat, v: nat, d: nat)
    requires |hi| == |lo| == |val| && d < |val|
  {
    var n, s := |val|, Probe(h % |val|, |val|, d);
    && hi[s] == Hi(h) && lo[s] == Lo(h) && val[s] == v < EMPTY
    && forall e :: 0 <= e < d ==> val[Probe(h % n, n, e)] != EMPTY
  }

  /** The hashes that sit in the first m slots. */
  ghost function Owners(stored: map<nat, nat>, at: map<nat, nat>, n: nat, m: nat): set<nat>
    requires n > 0 && stored.Keys == at.Keys && forall h :: h in stored ==> at[h] < n
  {
    set h | h in stored && Probe(h % n, n, at[h]) < m
  }

  lemma {:induction false} OwnersGrow(hi: seq<nat>, lo: seq<nat>, val: seq<nat>, stored: map<nat, nat>, at: map<nat, nat>, m: nat)
    requires Holds(hi, lo, val, stored, at) && m <= |val|
    requires forall s :: 0 <= s < m ==> val[s] != EMPTY
    ensures |val| > 0 && stored.Keys == at.Keys && forall h :: h in stored ==> at[h] < |val|
    ensures |Owners(stored, at, |val|, m)| >= m
  {
    hide Holds, Probe;
    HoldsShape(hi, lo, val, stored, at);
    if m > 0 {
      OwnersGrow(hi, lo, val, stored, at, m - 1);
      var h := Owner(hi, lo, val, stored, at, m - 1);
      Subset(Owners(stored, at, |val|, m - 1) + {h}, Owners(stored, at, |val|, m));
    }
  }

  lemma HoldsShape(hi: seq<nat>, lo: seq<nat>, val: seq<nat>, stored: map<nat, nat>, at: map<nat, nat>)
    requires Holds(hi, lo, val, stored, at)
    ensures |val| > 0 && stored.Keys == at.Keys && forall h :: h in stored ==> at[h] < |val|
  {
    hide Sits;
  }

  lemma Owner(hi: seq<nat>, lo: seq<nat>, val: seq<nat>, stored: map<nat, nat>, at: map<nat, nat>, s: nat) returns (h: nat)
    requires Holds(hi, lo, val, stored, at) && s < |val| && val[s] != EMPTY
    ensures h in stored && h in at && at[h] < |val| && Probe(h % |val|, |val|, at[h]) == s
  {
    hide Sits, Probe;
    h :| h in stored && Probe(h % |val|, |val|, at[h]) == s;
  }

  /** A table with more slots than stored hashes has a free one, some distance from any home. */
  lemma HasRoom(hi: seq<nat>, lo: seq<nat>, val: seq<nat>, stored: map<nat, nat>, at: map<nat, nat>, start: nat) returns (d: nat)
    requires Holds(hi, lo, val, stored, at) && |stored| < |val| && start < |val|
    ensures d < |val| && val[Probe(start, |val|, d)] == EMPTY
  {
    var n := |val|;
    if forall s :: 0 <= s < n ==> val[s] != EMPTY {
      OwnersGrow(hi, lo, val, stored, at, n);
      Subset(Owners(stored, at, n, n), stored.Keys);
      assert false;
    }
    var s :| 0 <= s < n && val[s] == EMPTY;
    d := if s >= start then s - start else n + s - start;
  }

  lemma Subset<T>(a: set<T>, b: set<T>)
    requires a <= b
    ensures |a| <= |b|
  {
    assert b == a + (b - a);
  }

  /** The first d slots from the home of h are taken, by others. */
  ghost predicate Passed(hi: seq<nat>, lo: seq<nat>, val: seq<nat>, h: nat, d: nat)
    requires |hi| == |lo| == |val| && d < |val|
  {
    forall e :: 0 <= e < d ==>
      var s := Probe(h % |val|, |val|, e); val[s] != EMPTY && !(hi[s] == Hi(h) && lo[s] == Lo(h))
  }

  lemma PassedNone(hi: seq<nat>, lo: seq<nat>, val: seq<nat>, h: nat)
    requires |hi| == |lo| == |val| > 0
    ensures Passed(hi, lo, val, h, 0) && Probe(h % |val|, |val|, 0) == h % |val|
  {
  }

  lemma PassedNext(hi: seq<nat>, lo: seq<nat>, val: seq<nat>, h: nat, d: nat, free: nat)
    requires |hi| == |lo| == |val| && d <= free < |val| && Passed(hi, lo, val, h, d)
    requires var s := Probe(h % |val|, |val|, d); val[s] != EMPTY && !(hi[s] == Hi(h) && lo[s] == Lo(h))
    requires val[Probe(h % |val|, |val|, free)] == EMPTY
    ensures d < free && Passed(hi, lo, val, h, d + 1)
    ensures (Probe(h % |val|, |val|, d) + 1) % |val| == Probe(h % |val|, |val|, d + 1)
  {
    ProbeNext(h % |val|, |val|, d);
  }

  /** A free slot after others says that h is not stored. */
  lemma Absent(hi: seq<nat>, lo: seq<nat>, val: seq<nat>, stored: map<nat, nat>, at: map<nat, nat>, h: nat, d: nat)
    requires Holds(hi, lo, val, stored, at) && d < |val| && Passed(hi, lo, val, h, d)
    requires val[Probe(h % |val|, |val|, d)] == EMPTY
    ensures h !in stored
  {
  }

  /** An occupied slot with both halves of h holds h. */
  lemma Occupant(hi: seq<nat>, lo: seq<nat>, val: seq<nat>, stored: map<nat, nat>, at: map<nat, nat>, slot: nat, h: nat)
    requires Holds(hi, lo, val, stored, at) && slot < |val| && val[slot] != EMPTY
    requires h < HALF * HALF && hi[slot] == Hi(h) && lo[slot] == Lo(h)
    ensures h in stored && stored[h] == val[slot]
  {
    var g :| g in stored && Probe(g % |val|, |val|, at[g]) == slot;
    Halves(g, h);
  }

  /** Writing a new hash into the first free slot from its home disturbs no other. */
  lemma StillHolds(hi: seq<nat>, lo: seq<nat>, val: seq<nat>, stored: map<nat, nat>, at: map<nat, nat>, h: nat, v: nat, d: nat)
    requires Holds(hi, lo, val, stored, at) && h < HALF * HALF && h !in stored && v < EMPTY && d < |val|
    requires val[Probe(h % |val|, |val|, d)] == EMPTY
    requires Passed(hi, lo, val, h, d)
    ensures var s := Probe(h % |val|, |val|, d);
      Holds(hi[s := Hi(h)], lo[s := Lo(h)], val[s := v], stored[h := v], at[h := d])
  {
    var n := |val|;
    var s := Probe(h % n, n, d);
    var hi', lo', val', stored', at' := hi[s := Hi(h)], lo[s := Lo(h)], val[s := v], stored[h := v], at[h := d];
    forall g | g in stored' ensures g < HALF * HALF && at'[g] < n && Sits(hi', lo', val', g, stored'[g], at'[g]) {
      if g != h { assert Sits(hi, lo, val, g, stored[g], at[g]); }
    }
    forall t | 0 <= t < n && val'[t] != EMPTY ensures exists g :: g in stored' && Probe(g % n, n, at'[g]) == t {
      if t == s {
        assert h in stored';
      } else {
        var g :| g in stored && Probe(g % n, n, at[g]) == t;
        assert g in stored' && at'[g] == at[g];
      }
    }
  }

  class Table {
    const hi: array<nat>
    const lo: array<nat>
    const val: array<nat>
    const cap: nat
    ghost var stored: map<nat, nat>
    ghost var at: map<nat, nat>

    ghost predicate Valid()
      reads this, hi, lo, val
    {
      && hi.Length == lo.Length == val.Length == cap && IsPower(cap)
      && hi != lo && hi != val && lo != val
      && Holds(hi[..], lo[..], val[..], stored, at)
    }

    /** A power of two of slots, at least twice the rows expected, all of them free. */
    constructor (nHint: nat)
      ensures Valid() && fresh(hi) && fresh(lo) && fresh(val)
      ensures stored == map[]
      ensures IsPower(cap) && 2 * nHint <= cap && (nHint > 0 ==> cap < 4 * nHint)
    {
      var n := NextPowerOfTwo(nHint * 2);
      cap := n;
      hi := new nat[n](i => 0);
      lo := new nat[n](i => 0);
      val := new nat[n](i => EMPTY);
      stored, at := map[], map[];
    }

    /** False, and nothing changes, when the hash is already there. */
    method Insert(h: nat, pidx: nat) returns (ok: bool)
      requires Valid() && |stored| < cap && h < HALF * HALF && pidx < EMPTY
      modifies this, hi, lo, val
      ensures Valid()
      ensures ok == (h !in old(stored))
      ensures stored == if ok then old(stored)[h := pidx] else old(stored)
    {
      hide Holds, Passed, Probe, Hi, Lo, IsPower;
      var slot := h % cap;
      ghost var d: nat := 0;
      ghost var his, los, vals := hi[..], lo[..], val[..];
      PassedNone(his, los, vals, h);
      ghost var free := HasRoom(his, los, vals, stored, at, h % cap);
      while val[slot] != EMPTY
        invariant unchanged(this, hi, lo, val)
        invariant d <= free && slot == Probe(h % cap, cap, d)
        invariant Passed(his, los, vals, h, d)
        decreases free - d
      {
        if hi[slot] == Hi(h) && lo[slot] == Lo(h) {
          Occupant(his, los, vals, stored, at, slot, h);
          return false;
        }
        PassedNext(his, los, vals, h, d, free);
        slot := (slot + 1) % cap;
        d := d + 1;
      }
      Absent(his, los, vals, stored, at, h, d);
      StillHolds(his, los, vals, stored, at, h, pidx, d);
      hi[slot] := Hi(h);
      lo[slot] := Lo(h);
      val[slot] := pidx;
      assert hi[..] == his[slot := Hi(h)] && lo[..] == los[slot := Lo(h)] && val[..] == vals[slot := pidx];
      stored, at := stored[h := pidx], at[h := d];
      return true;
    }

    /** Probes from the home of h to its value, or to a free slot. */
    method Find(h: nat) returns (r: Option<nat>)
      requires Valid() && |stored| < cap && h < HALF * HALF
      ensures r == if h in stored then Some(stored[h]) else None
    {
      hide Holds, Passed, Probe, Hi, Lo, IsPower;
      var slot := h % cap;
      ghost var d: nat := 0;
      PassedNone(hi[..], lo[..], val[..], h);
      ghost var free := HasRoom(hi[..], lo[..], val[..], stored, at, h % cap);
      while true
        invariant d <= free && slot == Probe(h % cap, cap, d)
        invariant Passed(hi[..], lo[..], val[..], h, d)
        decreases free - d
      {
        var v := val[slot];
        if v == EMPTY {
          Absent(hi[..], lo[..], val[..], stored, at, h, d);
          return None;
        }
        if hi[slot] == Hi(h) && lo[slot] == Lo(h) {
          Occupant(hi[..], lo[..], val[..], stored, at, slot, h);
          return Some(v);
        }
        PassedNext(hi[..], lo[..], val[..], h, d, free);
        slot := (slot + 1) % cap;
        d := d + 1;
      }
    }
  }
}
