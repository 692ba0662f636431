/**
 Alert delivery (core/alert.py): the tailer queues alerts, a second thread posts the oldest one until it is
 delivered, and a full queue drops its oldest, perhaps the very alert being posted. Every accepted alert is
 an object of its own, here its number in the order of acceptance.
 */
module Alert {
  import opened Text

  const MAX_ALERT_QUEUE := 1000
  const RETRY_MIN := 1
  const RETRY_MAX := 60

  /** Where the delivering thread is. */
  datatype Deliverer = Waiting | Posting(alert: nat) | Sleeping

  /** `gone` are the alerts dropped and `done` those posted successfully, in this order. */
  datatype State = State(queue: seq<nat>, accepted: nat, dropped: nat, sent: nat, failures: nat, failing: bool, delay: nat,
                         thread: Deliverer, gone: seq<nat>, done: seq<nat>)

  /** One atomic step of either thread; an alert without a body is refused. */
  datatype Event = Send(body: bool) | Take | Answer(ok: bool) | Wake

  const BEGIN := State([], 0, 0, 0, 0, false, RETRY_MIN, Waiting, [], [])

  function Step(s: State, e: Event): State {
    match e
    case Send(body) =>
      if !body then s
      else
        var t := if |s.queue| >= MAX_ALERT_QUEUE then s.(queue := s.queue[1..], dropped := s.dropped + 1, gone := s.gone + [s.queue[0]]) else s;
        t.(queue := t.queue + [s.accepted], accepted := s.accepted + 1)
    case Take =>
      if s.thread == Waiting && s.queue != [] then s.(thread := Posting(s.queue[0])) else s
    case Answer(ok) =>
      if !s.thread.Posting? then s
      else if ok then
        s.(queue := if s.queue != [] && s.queue[0] == s.thread.alert then s.queue[1..] else s.queue,
           sent := s.sent + 1, done := s.done + [s.thread.alert],
           failures := if s.failing then 0 else s.failures, failing := false, delay := RETRY_MIN, thread := Waiting)
      else s.(failures := s.failures + 1, failing := true, thread := Sleeping)
    case Wake =>
      if s.thread == Sleeping then s.(delay := if s.delay * 2 < RETRY_MAX then s.delay * 2 else RETRY_MAX, thread := Waiting) else s
  }

  function Run(events: seq<Event>): State {
    if events == [] then BEGIN else Step(Run(events[..|events| - 1]), events[|events| - 1])
  }

  /** The first alert that has not left the queue. */
  function Low(s: State): int {
    s.accepted - |s.queue|
  }

  /** Ascending numbers below `n`. */
  ghost predicate Ascending(ids: seq<nat>, n: int) {
    && (forall i, j :: 0 <= i < j < |ids| ==> ids[i] < ids[j])
    && (forall i :: 0 <= i < |ids| ==> ids[i] < n)
  }

  ghost predicate Inv(s: State) {
    && |s.queue| <= MAX_ALERT_QUEUE && 0 <= Low(s)
    && (forall i :: 0 <= i < |s.queue| ==> s.queue[i] == Low(s) + i)
    && Ascending(s.gone, Low(s)) && Ascending(s.done, if s.thread.Posting? then s.thread.alert else Low(s))
    && s.dropped == |s.gone| && s.sent == |s.done|
    && (forall a :: 0 <= a < Low(s) ==> a in s.gone || a in s.done)
    && (s.thread.Posting? ==> s.thread.alert <= Low(s) && s.thread.alert < s.accepted && (s.thread.alert < Low(s) ==> s.thread.alert in s.gone))
    && RETRY_MIN <= s.delay <= RETRY_MAX
    && (s.failing <==> s.failures > 0)
  }

  /** The alerts counted both as dropped and as sent. */
  ghost function Both(s: State): set<nat> {
    set a | a in s.gone && a in s.done
  }

  lemma SendKeeps(s: State, body: bool)
    requires Inv(s)
    ensures Inv(Step(s, Send(body)))
    ensures body ==> Step(s, Send(body)).done == s.done && Both(Step(s, Send(body))) == Both(s)
  {
    var t := Step(s, Send(body));
    if body && |s.queue| >= MAX_ALERT_QUEUE {
      var head := s.queue[0];
      assert t.gone == s.gone + [head];
      forall a | 0 <= a < Low(t) ensures a in t.gone || a in t.done { if a == head { assert t.gone[|s.gone|] == a; } }
      assert head !in s.done by { forall i | 0 <= i < |s.done| ensures s.done[i] < head { } }
    }
  }

  lemma AnswerKeeps(s: State, ok: bool)
    requires Inv(s)
    ensures Inv(Step(s, Answer(ok)))
    ensures ok && s.thread.Posting? ==>
      Both(Step(s, Answer(ok))) == (if s.thread.alert < Low(s) then Both(s) + {s.thread.alert} else Both(s)) && s.thread.alert !in Both(s)
  {
    var t := Step(s, Answer(ok));
    if s.thread.Posting? && ok {
      var a := s.thread.alert;
      assert t.done == s.done + [a];
      assert t.done[|s.done|] == a;
      forall b | 0 <= b < Low(t) ensures b in t.gone || b in t.done { if b in s.done { assert b in t.done; } }
    }
  }

  lemma {:induction false} Reachable(events: seq<Event>)
    ensures Inv(Run(events))
  {
    if events != [] {
      var front, e := events[..|events| - 1], events[|events| - 1];
      Reachable(front);
      match e
      case Send(body) => SendKeeps(Run(front), body);
      case Answer(ok) => AnswerKeeps(Run(front), ok);
      case Take =>
      case Wake =>
    }
  }

  /**
   In every interleaving: the queue stays within its cap; no alert is posted successfully twice, and the
   successes follow the order of sending; every accepted alert is still queued, was dropped or was sent.
   */
  lemma Delivery(events: seq<Event>)
    ensures var s := Run(events);
      && |s.queue| <= MAX_ALERT_QUEUE
      && (forall i, j :: 0 <= i < j < |s.done| ==> s.done[i] < s.done[j] < s.accepted)
      && (forall a :: 0 <= a < s.accepted ==> a in s.queue || a in s.gone || a in s.done)
      && (forall a :: a in s.queue ==> a !in s.gone && a !in s.done)
  {
    Reachable(events);
    var s := Run(events);
    forall a | 0 <= a < s.accepted ensures a in s.queue || a in s.gone || a in s.done {
      if a >= Low(s) { assert s.queue[a - Low(s)] == a; }
    }
  }

  /**
   Nothing is lost or counted twice but the alerts dropped while their post was under way and then
   delivered all the same: those count as dropped and as sent.
   */
  lemma {:induction false} Conservation(events: seq<Event>)
    ensures var s := Run(events); s.accepted + |Both(s)| == |s.queue| + s.dropped + s.sent
  {
    hide Inv;
    NoneBoth();
    if events != [] {
      var front, e := events[..|events| - 1], events[|events| - 1];
      Conservation(front);
      Reachable(front);
      var s := Run(front);
      match e
      case Send(body) => SendKeeps(s, body);
      case Answer(ok) =>
        AnswerKeeps(s, ok);
        if s.thread.Posting? && ok && s.thread.alert < Low(s) && s.queue != [] { assert s.queue[0] != s.thread.alert; }
      case Take =>
      case Wake =>
    }
  }

  lemma NoneBoth()
    ensures Both(BEGIN) == {}
  {
  }

  /** An alert that counts as both was under way when it was dropped: it left the queue before its answer came. */
  lemma DroppedInFlight(s: State)
    requires Inv(s) && s.thread.Posting?
    ensures s.thread.alert in s.gone <==> s.thread.alert != Low(s)
    ensures Step(s, Answer(true)).queue == if s.thread.alert in s.gone then s.queue else s.queue[1..]
  {
  }

  /** A thousand alerts wait at most: one more takes the place of the oldest, and only then is one dropped. */
  lemma DropsWhenFull(s: State, e: Event)
    requires Inv(s)
    ensures var t := Step(s, e);
      && (t.dropped != s.dropped <==> e == Send(true) && |s.queue| == 1000)
      && (t.dropped != s.dropped ==> t.dropped == s.dropped + 1 && t.gone == s.gone + [s.queue[0]] && t.queue == s.queue[1..] + [s.accepted])
      && (t.accepted != s.accepted <==> e == Send(true))
  {
  }

  /** The same post tried again and again: it fails, and the thread wakes up. */
  function Retries(n: nat): seq<Event> {
    if n == 0 then [] else Retries(n - 1) + [Take] + [Answer(false)] + [Wake]
  }

  function Doubled(n: nat): nat { if n == 0 then 1 else 2 * Doubled(n - 1) }

  /** From the first failure on the pauses are 1, 2, 4, 8, 16, 32 and then 60 seconds, until a success. */
  lemma {:induction false} DelayGrows(events: seq<Event>, n: nat)
    requires Run(events).thread == Waiting && Run(events).queue != [] && Run(events).failures == 0 && Run(events).delay == 1
    ensures var (s, t) := (Run(events), Run(events + Retries(n)));
      && t.delay == (if n < 6 then Doubled(n) else 60)
      && t.failures == n && t.thread == Waiting && t.queue == s.queue && t.sent == s.sent && t.done == s.done
  {
    hide Run;
    if n == 0 {
      assert events + [] == events;
    } else {
      var front := events + Retries(n - 1);
      DelayGrows(events, n - 1);
      RunMore(front, Take);
      RunMore(front + [Take], Answer(false));
      RunMore(front + [Take] + [Answer(false)], Wake);
      assert front + [Take] + [Answer(false)] + [Wake] == events + Retries(n);
      SmallDelays();
      if n < 7 { DelayStep(n); }
    }
  }

  lemma SmallDelays()
    ensures Doubled(0) == 1 && Doubled(1) == 2 && Doubled(2) == 4 && Doubled(3) == 8 && Doubled(4) == 16 && Doubled(5) == 32
  {
  }

  lemma DelayStep(n: nat)
    requires 0 < n < 7
    ensures Doubled(n) == 2 * Doubled(n - 1)
  {
  }

  /** A success forgets the failures and starts the pauses anew. */
  lemma SuccessResets(s: State)
    requires Inv(s) && s.thread.Posting?
    ensures var t := Step(s, Answer(true));
      t.delay == 1 && t.failures == 0 && t.sent == s.sent + 1 && t.done == s.done + [s.thread.alert] && t.thread == Waiting
  {
  }

  function Sends(k: nat): seq<Event> {
    if k == 0 then [] else Sends(k - 1) + [Send(true)]
  }

  function Numbers(k: nat): seq<nat> { seq(k, i => i) }

  lemma {:induction false} SendsFill(k: nat)
    requires k <= MAX_ALERT_QUEUE
    ensures Run(Sends(k)) == BEGIN.(queue := Numbers(k), accepted := k)
  {
    if k > 0 {
      SendsFill(k - 1);
      RunMore(Sends(k - 1), Send(true));
      assert Numbers(k - 1) + [k - 1] == Numbers(k);
    }
  }

  lemma RunMore(events: seq<Event>, e: Event)
    ensures Run(events + [e]) == Step(Run(events), e)
  {
    assert (events + [e])[..|events|] == events;
  }

  /** A run with an alert of both kinds: a full queue, its oldest alert taken, one more sent, and then the answer. */
  function DropInFlight(): seq<Event> {
    Sends(MAX_ALERT_QUEUE) + [Take] + [Send(true)] + [Answer(true)]
  }

  lemma CountedTwice()
    ensures var s := Run(DropInFlight());
      && Both(s) == {0} && s.gone == s.done == [0]
      && s.accepted == MAX_ALERT_QUEUE + 1 && |s.queue| == MAX_ALERT_QUEUE && s.dropped == s.sent == 1
  {
    hide Run, Sends;
    var all := Sends(MAX_ALERT_QUEUE);
    SendsFill(MAX_ALERT_QUEUE);
    RunMore(all, Take);
    RunMore(all + [Take], Send(true));
    RunMore(all + [Take] + [Send(true)], Answer(true));
    var t := Step(Step(Run(all), Take), Send(true));
    assert t.thread == Posting(0) && t.queue[0] == 1;
  }

  /** The module state of the program; a method is what one thread does under the lock. */
  class Alerts {
    var queue: seq<nat>
    var dropped: nat
    var sent: nat
    var failures: nat
    var failing: bool
    var delay: nat
    ghost var accepted: nat
    ghost var thread: Deliverer
    ghost var gone: seq<nat>
    ghost var done: seq<nat>

    ghost function Value(): State
      reads this
    {
      State(queue, accepted, dropped, sent, failures, failing, delay, thread, gone, done)
    }

    constructor ()
      ensures Value() == BEGIN
    {
      queue, dropped, sent, failures, failing, delay := [], 0, 0, 0, false, RETRY_MIN;
      accepted, thread, gone, done := 0, Waiting, [], [];
    }

    method Send(payload: Option<nat>) returns (queued: bool)
      requires payload.Some? ==> payload.value == accepted
      modifies this
      ensures queued == payload.Some? && Value() == Step(old(Value()), Event.Send(payload.Some?))
    {
      if payload.None? { return false; }
      if |queue| >= MAX_ALERT_QUEUE {
        gone := gone + [queue[0]];
        queue := queue[1..];
        dropped := dropped + 1;
      }
      queue := queue + [payload.value];
      accepted := accepted + 1;
      return true;
    }

    method Take() returns (payload: Option<nat>)
      requires thread == Waiting
      modifies `thread
      ensures Value() == Step(old(Value()), Event.Take)
      ensures payload == if thread.Posting? then Some(thread.alert) else None
    {
      if queue == [] { return None; }
      thread := Posting(queue[0]);
      return Some(queue[0]);
    }

    method Delivered(payload: nat)
      requires thread == Posting(payload)
      modifies this
      ensures Value() == Step(old(Value()), Answer(true))
    {
      if queue != [] && queue[0] == payload {
        queue := queue[1..];
      }
      sent := sent + 1;
      if failing {
        failing, failures := false, 0;
      }
      delay := RETRY_MIN;
      thread, done := Waiting, done + [payload];
    }

    method Failed(payload: nat)
      requires thread == Posting(payload)
      modifies this
      ensures Value() == Step(old(Value()), Answer(false))
    {
      failures := failures + 1;
      failing := true;
      thread := Sleeping;
    }

    method Woken()
      requires thread == Sleeping
      modifies this
      ensures Value() == Step(old(Value()), Wake)
    {
      delay := if delay * 2 < RETRY_MAX then delay * 2 else RETRY_MAX;
      thread := Waiting;
    }
  }
}
