/**
 One shard of the trail build (core/update.py, `_Shard`).

 The rules are first written as functions: a cleanup visit turns the visited trail into a list of
 primitive dictionary operations. The class below runs the same rules in place, step by step.
 */
module TrailShard {
  import opened Text
  import opened TrailGroup
  import Hex

  datatype Pair = Pair(info: string, reference: string)

  /** A dictionary that remembers insertion order. */
  datatype Dict = Dict(order: seq<string>, at: map<string, Pair>)

  /** A shard's data. `stamps` holds each entry's place in the global order. */
  datatype State = State(store: Dict, stamps: map<string, nat>, dups: map<string, set<string>>, now: nat)

  const EMPTY := State(Dict([], map[]), map[], map[], 0)

  datatype Kind = Merge | Remote | Set

  /** One source row; `check` is the form a remote row is checked as. */
  datatype Row = Row(kind: Kind, key: string, value: Pair, check: string)

  /** Everything the rules ask of configuration, regular expressions, whitelist and address lists. */
  datatype Rules = Rules(
    names: Names,
    disabled: string -> bool,
    alphaOnly: string -> bool,
    dottedQuad: string -> bool,
    octetAbove255: string -> bool,
    ipMinimumFeeds: int,
    customStatic: string -> bool,
    joined: set<string> -> string,
    whitelisted: string -> bool,
    leadingIpv4: string -> Option<string>,
    bogonOrCdn: string -> bool,
    encodable: string -> bool)

  const LOW_PRIORITY_INFO_KEYWORDS := ["reputation", "attacker", "spammer", "abuser", "malicious", "dnspod", "nicru",
                                       "crawler", "compromised", "bad history"]
  const HIGH_PRIORITY_INFO_KEYWORDS := ["mass scanner", "ipinfo"]
  const HIGH_PRIORITY_REFERENCES := ["(static)", "(custom)"]
  const BAD_TRAIL_PREFIXES := ["127.", "192.168.", "localhost"]
  const CUSTOM_OR_STATIC := ["custom", "static"]

  /** `1 << 62`: re-insertions during the cleanup are stamped from here on. */
  const LATE: nat := 0x4000_0000_0000_0000
  /** Stamps reserved for one visit of the cleanup. */
  const SLOTS: nat := 16

  /** `late + (stamp << 4)`: where the insertions of a visit are stamped from. */
  function LateFrom(stamp: nat): nat { LATE + 16 * stamp }

  // ---- primitive operations

  datatype Op = Put(key: string, value: Pair) | Del(key: string) | Drop(key: string)

  function Without(order: seq<string>, key: string): seq<string> {
    if order == [] then []
    else if order[0] == key then Without(order[1..], key)
    else [order[0]] + Without(order[1..], key)
  }

  function Do(s: State, op: Op): State {
    match op
    case Put(k, v) =>
      if k in s.store.at then s.(store := Dict(s.store.order, s.store.at[k := v]))
      else State(Dict(s.store.order + [k], s.store.at[k := v]), s.stamps[k := s.now], s.dups, s.now + 1)
    case Del(k) => s.(store := Dict(Without(s.store.order, k), s.store.at - {k}), stamps := s.stamps - {k})
    case Drop(k) => s.(dups := s.dups - {k})
  }

  function DoAll(s: State, ops: seq<Op>): State {
    if ops == [] then s else Do(DoAll(s, ops[..|ops| - 1]), ops[|ops| - 1])
  }

  // ---- the merge rule

  predicate Wins(current: Option<Pair>, value: Pair) {
    || !(current.Some? && (HasAny(value.info, LOW_PRIORITY_INFO_KEYWORDS) || current.value.reference in HIGH_PRIORITY_REFERENCES))
    || (value.reference in HIGH_PRIORITY_REFERENCES && !Contains(value.info, "history"))
    || HasAny(value.info, HIGH_PRIORITY_INFO_KEYWORDS)
  }

  function Get(s: State, key: string): Option<Pair> {
    if key in s.store.at then Some(s.store.at[key]) else None
  }

  function Agree(s: State, key: string, reference: string): State {
    match Get(s, key)
    case None => s
    case Some(current) =>
      var seen := if key in s.dups then s.dups[key] else {current.reference};
      s.(dups := s.dups[key := seen + {reference}])
  }

  /** `apply` for one source row. */
  function Apply(s: State, row: Row): State {
    match row.kind
    case Merge =>
      var s' := Agree(s, row.key, row.value.reference);
      if Wins(Get(s, row.key), row.value) then Do(s', Put(row.key, row.value)) else s'
    case Remote =>
      var current := Get(s, row.check);
      if current.Some? && HasAny(current.value.reference, CUSTOM_OR_STATIC) then s else Do(s, Put(row.key, row.value))
    case Set => Do(s, Put(row.key, row.value))
  }

  // ---- one visit of the basic cleanup

  /** The visit so far: the operations made, the trail's present key and value, and the agreement counts. */
  datatype Walk = Walk(ops: seq<Op>, key: string, value: Pair, dups: map<string, set<string>>, done: bool) {
    function Then(op: Op): Walk { this.(ops := ops + [op]) }
    function Stop(): Walk { Then(Del(key)).(done := true) }
    function PutBack(v: Pair): Walk { Then(Put(key, v)).(value := v) }
    /** Insert under the new name, then delete the old one. */
    function RenameTo(k: string): Walk { this.(ops := ops + [Put(k, value), Del(key)], key := k) }
    /** Delete the old name, then insert under the new one unless it is empty. */
    function MoveTo(k: string): Walk {
      this.(ops := ops + (if k == "" then [Del(key)] else [Del(key), Put(k, value)]), key := k)
    }
  }

  function Normalize(r: Rules, w: Walk): Walk {
    if IsAscii(w.key) then
      var k := LowerAscii(w.key);
      if k != w.key then w.RenameTo(k) else w
    else
      match r.names.idna(w.key)
      case None => w
      case Some(k) => if k != w.key then w.RenameTo(k) else w
  }

  predicate Junk(r: Rules, w: Walk) {
    w.key == "" || (r.alphaOnly(w.key) && !HasAny(w.value.reference, CUSTOM_OR_STATIC))
  }

  function Sinkhole(w: Walk): Walk {
    if HasAny(w.value.info, ["parking site", "sinkhole"]) && w.key in w.dups
    then w.Then(Drop(w.key)).(dups := w.dups - {w.key}) else w
  }

  function Relabel(w: Walk, info: string, better: string): Walk {
    if w.value.info == info then w.PutBack(Pair(better, w.value.reference)) else w
  }

  predicate TooFewFeeds(r: Rules, w: Walk) {
    r.ipMinimumFeeds > 1 && (w.key !in w.dups || |w.dups[w.key]| < r.ipMinimumFeeds) && !r.customStatic(w.value.reference)
  }

  function Address(r: Rules, w: Walk): Walk {
    if !r.dottedQuad(w.key) then w
    else
      var w := Relabel(Sinkhole(w), "malware", "potential malware site");
      if TooFewFeeds(r, w) || r.octetAbove255(w.key) then w.Stop() else w
  }

  function Www(w: Walk): Walk {
    if WWW <= w.key && '/' !in w.key then w.MoveTo(w.key[4..]) else w
  }

  function Query(w: Walk): Walk {
    if '?' in w.key && !("/" <= w.key) then w.MoveTo(Cut(w.key)) else w
  }

  function Slashes(w: Walk): Walk {
    if Contains(w.key, "//") then w.MoveTo(Halve(w.key)) else w
  }

  function Recase(r: Rules, w: Walk): Walk {
    var k := Lower(r.names, w.key);
    if w.key != k then w.(ops := w.ops + [Del(w.key), Put(k, w.value)], key := k) else w
  }

  function Credit(r: Rules, w: Walk): Walk {
    if w.key in w.dups then
      var others := w.dups[w.key] - {w.value.reference};
      if others != {} && !Contains(w.value.reference, " (+")
      then w.Then(Put(w.key, Pair(w.value.info, w.value.reference + " (+" + r.joined(others) + ")"))) else w
    else w
  }

  function Clean(r: Rules, w: Walk): Walk {
    if r.disabled(w.value.info) then w.Stop()
    else
      var w := Normalize(r, w);
      if Junk(r, w) then w.Stop()
      else
        var w := Address(r, w);
        if w.done then w else Credit(r, Recase(r, Slashes(Query(Www(Relabel(w, "ransomware", "ransomware (malware)"))))))
  }

  /** The operations of the two post-processing passes at `key`, in the state it is visited in. */
  datatype Pass = Cleanup | Whitelist

  predicate Unwanted(r: Rules, key: string, value: Pair) {
    || r.whitelisted(key)
    || (exists i :: 0 <= i < |BAD_TRAIL_PREFIXES| && BAD_TRAIL_PREFIXES[i] <= key)
    || (var address := r.leadingIpv4(key);
        address.Some? && r.bogonOrCdn(address.value) && !HasAny(value.info, ["parking", "sinkhole"]))
    || !r.encodable(key) || !r.encodable(value.info) || !r.encodable(value.reference)
  }

  function Ops(r: Rules, pass: Pass, s: State, key: string): seq<Op> {
    match Get(s, key)
    case None => []
    case Some(value) =>
      match pass
      case Cleanup => Clean(r, Walk([], key, value, s.dups, false)).ops
      case Whitelist => if Unwanted(r, key, value) then [Del(key)] else []
  }

  /** Where the stamps of a visit start. */
  function Start(s: State, pass: Pass, key: string): State {
    if pass == Cleanup && key in s.store.at && key in s.stamps then s.(now := LateFrom(s.stamps[key])) else s
  }

  function Visit(r: Rules, pass: Pass, s: State, key: string): State {
    DoAll(Start(s, pass, key), Ops(r, pass, s, key))
  }

  function VisitAll(r: Rules, pass: Pass, s: State, keys: seq<string>): State
    decreases |keys|
  {
    if keys == [] then s else VisitAll(r, pass, Visit(r, pass, s, keys[0]), keys[1..])
  }

  function PostProcess(r: Rules, s: State): State {
    var s := VisitAll(r, Cleanup, s, s.store.order);
    VisitAll(r, Whitelist, s, s.store.order)
  }

  // ---- what a shard hands out

  /** (order, trail, info, reference); the order is the stamp as 16 hex digits. */
  datatype OutRow = OutRow(order: string, trail: string, value: Pair)

  function OrderText(stamp: nat): string { Hex.Padded(stamp, 16) }

  ghost predicate Distinct(order: seq<string>) {
    forall i, j :: 0 <= i < j < |order| ==> order[i] != order[j]
  }

  ghost predicate Wf(s: State) {
    && Distinct(s.store.order)
    && (forall k :: k in s.store.order <==> k in s.store.at)
    && s.stamps.Keys == s.store.at.Keys
  }

  function RowOf(s: State, k: string): OutRow
    requires k in s.store.at && k in s.stamps
  {
    OutRow(OrderText(s.stamps[k]), k, s.store.at[k])
  }

  function ConfidenceScore(reference: string, agreeing: nat): int {
    if HasAny(reference, CUSTOM_OR_STATIC) then 100
    else var a := if agreeing < 4 then agreeing else 4;
      if 40 + 15 * a < 100 then 40 + 15 * a else 100
  }

  function ScoreIn(store: Dict, dups: map<string, set<string>>, k: string): (string, int)
    requires k in store.at
  {
    (k, ConfidenceScore(store.at[k].reference, if k in dups then |dups[k]| else 0))
  }

  function ScoreOf(s: State, k: string): (string, int)
    requires k in s.store.at
  {
    ScoreIn(s.store, s.dups, k)
  }

  // ---- well-formedness

  lemma {:induction false} WithoutIs(order: seq<string>, key: string)
    requires Distinct(order)
    ensures forall k :: k in Without(order, key) <==> k in order && k != key
    ensures Distinct(Without(order, key))
  {
    if order != [] {
      var rest := order[1..];
      assert order == [order[0]] + rest;
      assert Distinct(rest) by {
        forall i, j | 0 <= i < j < |rest| ensures rest[i] != rest[j] { assert rest[i] == order[i + 1] && rest[j] == order[j + 1]; }
      }
      WithoutIs(rest, key);
      assert order[0] !in rest;
    }
  }

  lemma DoWf(s: State, op: Op)
    requires Wf(s)
    ensures Wf(Do(s, op))
  {
    var o := Do(s, op).store.order;
    if op.Del? { WithoutIs(s.store.order, op.key); }
  }

  lemma {:induction false} DoAllWf(s: State, ops: seq<Op>)
    requires Wf(s)
    ensures Wf(DoAll(s, ops))
  {
    if ops != [] {
      DoAllWf(s, ops[..|ops| - 1]);
      DoWf(DoAll(s, ops[..|ops| - 1]), ops[|ops| - 1]);
    }
  }

  lemma DoMore(s: State, ops: seq<Op>, op: Op)
    ensures DoAll(s, ops + [op]) == Do(DoAll(s, ops), op)
  {
    assert (ops + [op])[..|ops|] == ops;
  }

  lemma DoTwoMore(s: State, ops: seq<Op>, op: Op, op': Op)
    ensures DoAll(s, ops + [op, op']) == Do(Do(DoAll(s, ops), op), op')
  {
    assert (ops + [op, op'])[..|ops| + 1] == ops + [op];
    DoMore(s, ops, op);
  }

  lemma ApplyWf(s: State, row: Row)
    requires Wf(s)
    ensures Wf(Apply(s, row))
  {
    DoWf(s, Put(row.key, row.value));
    if row.kind == Merge { DoWf(Agree(s, row.key, row.value.reference), Put(row.key, row.value)); }
  }

  lemma VisitWf(r: Rules, pass: Pass, s: State, key: string)
    requires Wf(s)
    ensures Wf(Visit(r, pass, s, key))
  {
    DoAllWf(Start(s, pass, key), Ops(r, pass, s, key));
  }

  lemma {:induction false} VisitAllWf(r: Rules, pass: Pass, s: State, keys: seq<string>)
    requires Wf(s)
    ensures Wf(VisitAll(r, pass, s, keys))
    decreases keys
  {
    if keys != [] {
      VisitWf(r, pass, s, keys[0]);
      VisitAllWf(r, pass, Visit(r, pass, s, keys[0]), keys[1..]);
    }
  }
}
