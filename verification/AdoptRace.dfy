/**
 `TrailsDict.adopt` against a concurrent reader (core/trailsdict.py). A reader tries _mmap, _frozen and
 _trails in this order, one read at a time; adopt writes the fields one at a time. Version k of the trails
 has the mode modes[k], and a field holds the version it came from.
 */
module AdoptRace {
  import opened Text

  datatype Mode = Mmap | Frozen | Build

  datatype Memory = Memory(mmap: Option<nat>, frozen: Option<nat>, trails: Option<nat>)

  datatype Write = SetMmap(x: Option<nat>) | SetFrozen(x: Option<nat>) | SetTrails(x: Option<nat>) | SetPairs

  function Apply(m: Memory, w: Write): Memory {
    match w
    case SetMmap(x) => m.(mmap := x)
    case SetFrozen(x) => m.(frozen := x)
    case SetTrails(x) => m.(trails := x)
    case SetPairs => m
  }

  /** The memory after the first n writes. */
  function After(m: Memory, ws: seq<Write>, n: nat): Memory
    requires n <= |ws|
  {
    if n == 0 then m else Apply(After(m, ws, n - 1), ws[n - 1])
  }

  const WRITES := 4

  /** The writes of adopt for version v, in their order. */
  function Adopt(mode: Mode, v: nat): (ws: seq<Write>)
    ensures |ws| == WRITES
  {
    match mode
    case Mmap => [SetFrozen(None), SetTrails(None), SetPairs, SetMmap(Some(v))]
    case Frozen => [SetFrozen(Some(v)), SetTrails(None), SetPairs, SetMmap(None)]
    case Build => [SetPairs, SetTrails(Some(v)), SetFrozen(None), SetMmap(None)]
  }

  /** A dict at rest with version v. */
  function Settled(mode: Mode, v: nat): Memory {
    match mode
    case Mmap => Memory(Some(v), None, None)
    case Frozen => Memory(None, Some(v), None)
    case Build => Memory(None, None, Some(v))
  }

  /** Where a reader is; `since` is the version at rest when it started. */
  datatype Reader = Idle | AtFrozen(since: nat) | AtTrails(since: nat) | Answered(since: nat, v: nat) | Failed

  /** `version` is being written, `done` writes of it so far; with all of them done it is at rest. */
  datatype State = State(mem: Memory, version: nat, done: nat, reader: Reader)

  datatype Event = Writer | Read

  function AtRest(s: State): nat {
    if s.done < WRITES && s.version > 0 then s.version - 1 else s.version
  }

  function Step(modes: seq<Mode>, s: State, e: Event): State
    requires s.version < |modes|
  {
    match e
    case Writer =>
      if s.done < WRITES then s.(mem := Apply(s.mem, Adopt(modes[s.version], s.version)[s.done]), done := s.done + 1)
      else if s.version + 1 < |modes| then s.(version := s.version + 1, done := 0)
      else s
    case Read =>
      match s.reader
      case Idle =>
        if s.mem.mmap.Some? then s.(reader := Answered(AtRest(s), s.mem.mmap.value)) else s.(reader := AtFrozen(AtRest(s)))
      case AtFrozen(since) =>
        if s.mem.frozen.Some? then s.(reader := Answered(since, s.mem.frozen.value)) else s.(reader := AtTrails(since))
      case AtTrails(since) =>
        if s.mem.trails.Some? then s.(reader := Answered(since, s.mem.trails.value)) else s.(reader := Failed)
      case Answered(_, _) => s
      case Failed => s
  }

  function Run(modes: seq<Mode>, s: State, events: seq<Event>): State
    requires s.version < |modes|
    decreases |events|
  {
    if events == [] then s else Run(modes, Step(modes, s, events[0]), events[1..])
  }

  function Initial(modes: seq<Mode>): State
    requires modes != []
  {
    State(Settled(modes[0], 0), 0, WRITES, Idle)
  }

  /** The reader has not failed, and what it answered was at rest or being written during its read. */
  ghost predicate Good(s: State) {
    && !s.reader.Failed?
    && (s.reader.Answered? ==> s.reader.since <= s.reader.v <= s.version)
  }

  function Rank(mode: Mode): nat {
    match mode case Mmap => 2 case Frozen => 1 case Build => 0
  }

  /** Every adopt keeps the mode, or moves from mmap towards build. */
  ghost predicate Falling(modes: seq<Mode>) {
    forall i, j :: 0 <= i < j < |modes| && j == i + 1 ==> Rank(modes[j]) <= Rank(modes[i])
  }

  // ---- falling modes are safe

  /** The memory is that of the version before with the writes of this one done so far. */
  ghost predicate Written(modes: seq<Mode>, s: State) {
    && s.version < |modes| && s.done <= WRITES
    && if s.version == 0 then s.done == WRITES && s.mem == Settled(modes[0], 0)
       else s.mem == After(Settled(modes[s.version - 1], s.version - 1), Adopt(modes[s.version], s.version), s.done)
  }

  ghost predicate Inv(modes: seq<Mode>, s: State) {
    && Written(modes, s)
    && Good(s)
    && match s.reader
       case AtFrozen(since) => since <= AtRest(s) && s.mem.mmap.None?
       case AtTrails(since) => since <= AtRest(s) && s.mem.mmap.None? && s.mem.frozen.None?
       case _ => true
  }

  /** What a reader finds first is at rest or being written, and a field once left is not filled again. */
  lemma FirstFound(modes: seq<Mode>, s: State)
    requires Falling(modes) && Written(modes, s)
    ensures s.mem.mmap.Some? ==> AtRest(s) <= s.mem.mmap.value <= s.version
    ensures s.mem.mmap.None? && s.mem.frozen.Some? ==> AtRest(s) <= s.mem.frozen.value <= s.version
    ensures s.mem.mmap.None? && s.mem.frozen.None? ==> s.mem.trails.Some? && AtRest(s) <= s.mem.trails.value <= s.version
    ensures s.mem.mmap.None? ==> modes[s.version] != Mmap
    ensures s.mem.mmap.None? && s.mem.frozen.None? ==> modes[s.version] == Build
  {
    if s.version > 0 { AfterIs(Settled(modes[s.version - 1], s.version - 1), Adopt(modes[s.version], s.version), s.done); }
  }

  lemma AfterIs(m: Memory, ws: seq<Write>, n: nat)
    requires n <= |ws| == WRITES
    ensures After(m, ws, 1) == Apply(m, ws[0])
    ensures After(m, ws, 2) == Apply(After(m, ws, 1), ws[1])
    ensures After(m, ws, 3) == Apply(After(m, ws, 2), ws[2])
    ensures After(m, ws, 4) == Apply(After(m, ws, 3), ws[3])
    ensures n == 0 || n == 1 || n == 2 || n == 3 || n == 4
  {
  }

  lemma AdoptSettles(from: Mode, to: Mode, v: nat, w: nat)
    ensures After(Settled(from, v), Adopt(to, w), WRITES) == Settled(to, w)
  {
    AfterIs(Settled(from, v), Adopt(to, w), WRITES);
  }

  lemma WriterKeeps(modes: seq<Mode>, s: State)
    requires Written(modes, s)
    ensures Written(modes, Step(modes, s, Writer))
  {
    if s.done == WRITES && s.version > 0 {
      AdoptSettles(modes[s.version - 1], modes[s.version], s.version - 1, s.version);
    }
  }

  lemma StepKeeps(modes: seq<Mode>, s: State, e: Event)
    requires Falling(modes) && Inv(modes, s)
    ensures Inv(modes, Step(modes, s, e))
  {
    hide Written, Falling, After;
    FirstFound(modes, s);
    if e == Writer {
      WriterKeeps(modes, s);
      FirstFound(modes, Step(modes, s, e));
    } else {
      ReaderKeeps(modes, s);
    }
  }

  lemma ReaderKeeps(modes: seq<Mode>, s: State)
    requires Written(modes, s)
    ensures Written(modes, Step(modes, s, Read))
  {
  }

  lemma {:induction false} RunKeeps(modes: seq<Mode>, s: State, events: seq<Event>)
    requires Falling(modes) && Inv(modes, s)
    ensures Inv(modes, Run(modes, s, events))
    decreases |events|
  {
    if events != [] {
      StepKeeps(modes, s, events[0]);
      RunKeeps(modes, Step(modes, s, events[0]), events[1..]);
    }
  }

  // ---- a rise is not

  lemma {:induction false} RunAppend(modes: seq<Mode>, s: State, a: seq<Event>, b: seq<Event>)
    requires s.version < |modes|
    ensures Run(modes, s, a).version < |modes|
    ensures Run(modes, s, a + b) == Run(modes, Run(modes, s, a), b)
    decreases |a|
  {
    if a == [] {
      assert a + b == b;
    } else {
      assert (a + b)[0] == a[0] && (a + b)[1..] == a[1..] + b;
      RunAppend(modes, Step(modes, s, a[0]), a[1..], b);
    }
  }

  function Rest(modes: seq<Mode>, k: nat): State
    requires k < |modes|
  {
    State(Settled(modes[k], k), k, WRITES, Idle)
  }

  /** The writer alone brings version k to rest. */
  lemma {:induction false} ReachRest(modes: seq<Mode>, k: nat) returns (events: seq<Event>)
    requires k < |modes|
    ensures Run(modes, Initial(modes), events) == Rest(modes, k)
  {
    if k == 0 {
      events := [];
    } else {
      var front := ReachRest(modes, k - 1);
      var s := Rest(modes, k - 1);
      var one := [Writer, Writer, Writer, Writer, Writer];
      RunAppend(modes, Initial(modes), front, one);
      var s1 := Step(modes, s, Writer);
      var s2 := Step(modes, s1, Writer);
      var s3 := Step(modes, s2, Writer);
      var s4 := Step(modes, s3, Writer);
      var s5 := Step(modes, s4, Writer);
      FiveSteps(modes, s, one, s1, s2, s3, s4, s5);
      events := front + one;
    }
  }

  lemma FiveSteps(modes: seq<Mode>, s: State, es: seq<Event>, s1: State, s2: State, s3: State, s4: State, s5: State)
    requires s.version < |modes| && s1.version < |modes| && s2.version < |modes| && s3.version < |modes| && s4.version < |modes|
    requires |es| == 5
    requires s1 == Step(modes, s, es[0]) && s2 == Step(modes, s1, es[1]) && s3 == Step(modes, s2, es[2])
    requires s4 == Step(modes, s3, es[3]) && s5 == Step(modes, s4, es[4])
    ensures Run(modes, s, es) == s5
  {
    var t1, t2, t3, t4 := es[1..], es[2..], es[3..], es[4..];
    assert t1[1..] == t2 && t2[1..] == t3 && t3[1..] == t4 && t4[1..] == [];
    assert Run(modes, s4, t4) == s5;
    assert Run(modes, s3, t3) == s5;
    assert Run(modes, s2, t2) == s5;
    assert Run(modes, s1, t1) == s5;
  }

  /** The interleaving in which a reader meets no backing when the mode rises from version k to the next. */
  function Witness(from: Mode): seq<Event> {
    if from == Frozen then [Writer, Read, Writer, Writer, Read] else [Writer, Read, Read, Writer, Writer]
  }

  lemma RunOne(modes: seq<Mode>, s: State, e: Event)
    requires s.version < |modes|
    ensures Run(modes, s, [e]) == Step(modes, s, e)
  {
  }

  /** What a rise overwrites first. */
  lemma AdoptRises(to: Mode, v: nat)
    ensures to == Mmap ==> Adopt(to, v)[0] == SetFrozen(None)
    ensures to == Frozen ==> Adopt(to, v)[0] == SetFrozen(Some(v))
    ensures to != Build ==> Adopt(to, v)[1] == SetTrails(None)
  {
  }

  lemma RiseFails(modes: seq<Mode>, k: nat)
    requires k + 1 < |modes| && Rank(modes[k]) < Rank(modes[k + 1])
    ensures Run(modes, Rest(modes, k), Witness(modes[k]) + [Read]).reader == Failed
  {
    hide Run, Adopt;
    var s, es := Rest(modes, k), Witness(modes[k]);
    AdoptRises(modes[k + 1], k + 1);
    var s1 := Step(modes, s, es[0]);
    var s2 := Step(modes, s1, es[1]);
    var s3 := Step(modes, s2, es[2]);
    var s4 := Step(modes, s3, es[3]);
    var s5 := Step(modes, s4, es[4]);
    FiveSteps(modes, s, es, s1, s2, s3, s4, s5);
    RunAppend(modes, s, es, [Read]);
    RunOne(modes, s5, Read);
  }

  /**
   Readers are safe under every interleaving exactly if no adopt of the run moves from a lower mode to a
   higher one: frozen to mmap, build to mmap and build to frozen each can leave a reader with nothing.
   */
  lemma SafeExactlyWhenFalling(modes: seq<Mode>)
    requires modes != []
    ensures (forall events :: Good(Run(modes, Initial(modes), events))) <==> Falling(modes)
  {
    if Falling(modes) {
      forall events ensures Good(Run(modes, Initial(modes), events)) {
        RunKeeps(modes, Initial(modes), events);
      }
    } else {
      var k, j :| 0 <= k < j < |modes| && j == k + 1 && Rank(modes[j]) > Rank(modes[k]);
      var front := ReachRest(modes, k);
      var rest := Witness(modes[k]) + [Read];
      RunAppend(modes, Initial(modes), front, rest);
      RiseFails(modes, k);
      assert !Good(Run(modes, Initial(modes), front + rest));
    }
  }
}
