/** How tight the bounds on requeues are, and what they owe to the tracker's memory. */
module RetryLimits {
  import opened Basics
  import opened EventConsumers
  import opened RetryBudget

  // ---------- Runs that start anywhere ----------

  function Next(kind: Kind, cfg: Config, w: World, a: Action): World {
    if Enabled(cfg, w, a) then Apply(kind, cfg, w, a) else w
  }

  function RunFrom(kind: Kind, cfg: Config, w: World, actions: seq<Action>): World
    decreases |actions|
  {
    if actions == [] then w else RunFrom(kind, cfg, Next(kind, cfg, w, actions[0]), actions[1..])
  }

  lemma {:induction false} RunLast(kind: Kind, cfg: Config, before: seq<Action>, last: Action)
    ensures Run(kind, cfg, before + [last]) == Next(kind, cfg, Run(kind, cfg, before), last)
  {
    assert (before + [last])[..|before|] == before;
  }

  lemma {:induction false} RunGoesOn(kind: Kind, cfg: Config, before: seq<Action>, more: seq<Action>)
    ensures Run(kind, cfg, before + more) == RunFrom(kind, cfg, Run(kind, cfg, before), more)
    decreases |more|
  {
    if more == [] {
      assert before + more == before;
    } else {
      var longer := before + [more[0]];
      assert longer[..|longer| - 1] == before;
      assert before + more == longer + more[1..];
      RunGoesOn(kind, cfg, longer, more[1..]);
    }
  }

  lemma {:induction false} RunFromGoesOn(kind: Kind, cfg: Config, w: World, a: seq<Action>, b: seq<Action>)
    ensures RunFrom(kind, cfg, w, a + b) == RunFrom(kind, cfg, RunFrom(kind, cfg, w, a), b)
    decreases |a|
  {
    if a == [] {
      assert a + b == b;
    } else {
      assert (a + b)[1..] == a[1..] + b;
      RunFromGoesOn(kind, cfg, Next(kind, cfg, w, a[0]), a[1..], b);
    }
  }

  /** `times` stretches of one handler with nothing in between. */
  function Stretches(id: nat, oracle: Oracle, times: nat): seq<Action> {
    if times == 0 then [] else [Proceed(id, oracle)] + Stretches(id, oracle, times - 1)
  }

  lemma {:induction false} OneStretch(kind: Kind, cfg: Config, w: World, id: nat, oracle: Oracle, times: nat)
    requires times > 0
    ensures RunFrom(kind, cfg, w, Stretches(id, oracle, times))
         == RunFrom(kind, cfg, Next(kind, cfg, w, Proceed(id, oracle)), Stretches(id, oracle, times - 1))
  {
  }

  lemma {:induction false} NoMoreStretches(kind: Kind, cfg: Config, w: World, id: nat, oracle: Oracle, times: nat)
    requires id !in w.handlers
    ensures RunFrom(kind, cfg, w, Stretches(id, oracle, times)) == w
  {
    if times > 0 {
      OneStretch(kind, cfg, w, id, oracle, times);
      NoMoreStretches(kind, cfg, w, id, oracle, times - 1);
    }
  }

  // ---------- What one handler can be made to do ----------

  const FAILING := Oracle(Some(Unexpected), Confirmed)
  const SUCCEEDING := Oracle(None, Confirmed)

  function Moved(w: World, id: nat, position: Position): World
    requires id in w.handlers
  {
    w.(handlers := w.handlers[id := w.handlers[id].(position := position)])
  }

  /** Delivering a ready message starts a handler, which finds its event not completed. */
  lemma {:induction false} Starts(kind: Kind, cfg: Config, w: World, m: nat, e: EventId)
    requires m in w.messages && w.messages[m] == Message(e, true, Ready) && e !in w.tracker.completed
    requires |HandlersOf(w, e)| < cfg.handlersPerEvent
    ensures RunFrom(kind, cfg, w, [Deliver(m), Proceed(w.nextHandler, FAILING)]) == w.(
      messages := w.messages[m := Message(e, true, Unsettled(w.nextHandler))],
      handlers := w.handlers[w.nextHandler := Handler(m, e, Executing)],
      nextHandler := w.nextHandler + 1,
      delivered := w.delivered + multiset{e})
  {
    var actions := [Deliver(m), Proceed(w.nextHandler, FAILING)];
    var w1 := Next(kind, cfg, w, actions[0]);
    var w2 := Next(kind, cfg, w1, actions[1]);
    assert actions[1..] == [actions[1]] && [actions[1]][1..] == [];
    assert RunFrom(kind, cfg, w1, [actions[1]]) == RunFrom(kind, cfg, w2, []) == w2;
    assert w2.handlers == w.handlers[w.nextHandler := Handler(m, e, Executing)];
  }

  /** The handler's delivery is the valid one of its message. */
  ghost predicate Holds(w: World, id: nat, m: nat, e: EventId) {
    && id in w.handlers && w.handlers[id].message == m && w.handlers[id].event == e
    && m in w.messages && w.messages[m] == Message(e, true, Unsettled(id))
  }

  lemma {:induction false} Settles(kind: Kind, cfg: Config, w: World, id: nat, m: nat, e: EventId, oracle: Oracle)
    requires Holds(w, id, m, e) && (w.handlers[id].position.Requeueing? || w.handlers[id].position.Acking?)
    ensures Next(kind, cfg, w, Proceed(id, oracle)) == w.(
      handlers := w.handlers - {id},
      messages := w.messages[m := Message(e, true, SettledStatus(w.handlers[id].position))],
      requeued := if w.handlers[id].position.Requeueing? then w.requeued + multiset{e} else w.requeued)
  {
  }

  /** The world after a handler's failure was counted within the limit and its message requeued. */
  function Requeued(w: World, id: nat, m: nat, e: EventId): World {
    w.(handlers := w.handlers - {id},
       messages := w.messages[m := Message(e, true, Ready)],
       tracker := w.tracker.Counted(e),
       requeued := w.requeued + multiset{e})
  }

  lemma {:induction false} RequeueingSettles(kind: Kind, cfg: Config, w: World, id: nat, m: nat, e: EventId, times: nat)
    requires Holds(w, id, m, e) && w.handlers[id].position.Requeueing? && times > 0
    ensures RunFrom(kind, cfg, w, Stretches(id, FAILING, times)) == w.(
      handlers := w.handlers - {id},
      messages := w.messages[m := Message(e, true, Ready)],
      requeued := w.requeued + multiset{e})
  {
    hide RunFrom;
    OneStretch(kind, cfg, w, id, FAILING, times);
    Settles(kind, cfg, w, id, m, e, FAILING);
    NoMoreStretches(kind, cfg, Next(kind, cfg, w, Proceed(id, FAILING)), id, FAILING, times - 1);
  }

  /** A handler that has started can fail, be counted and requeue its message. */
  lemma {:induction false} Fails(kind: Kind, cfg: Config, w: World, id: nat, m: nat, e: EventId)
    requires Holds(w, id, m, e) && w.handlers[id].position.Executing?
    requires w.tracker.Count(e) < cfg.maxRetries
    ensures RunFrom(kind, cfg, w, Stretches(id, FAILING, 5)) == Requeued(w, id, m, e)
  {
    hide RunFrom;
    var count := w.tracker.Count(e) + 1;
    var w1 := Moved(w, id, Counting);
    var w2 := Moved(w1, id, Deciding(count)).(tracker := w.tracker.Counted(e));
    OneStretch(kind, cfg, w, id, FAILING, 5);
    assert Next(kind, cfg, w, Proceed(id, FAILING)) == w1;
    OneStretch(kind, cfg, w1, id, FAILING, 4);
    assert Next(kind, cfg, w1, Proceed(id, FAILING)) == w2;
    OneStretch(kind, cfg, w2, id, FAILING, 3);
    var w3 := Moved(w2, id, AfterDecision(kind, cfg.maxRetries, count));
    assert Next(kind, cfg, w2, Proceed(id, FAILING)) == w3;
    if kind.Minutes? {
      OneStretch(kind, cfg, w3, id, FAILING, 2);
      var w4 := Moved(w3, id, Requeueing);
      assert Next(kind, cfg, w3, Proceed(id, FAILING)) == w4;
      RequeueingSettles(kind, cfg, w4, id, m, e, 1);
      assert w4.handlers - {id} == w.handlers - {id};
    } else {
      RequeueingSettles(kind, cfg, w3, id, m, e, 2);
      assert w3.handlers - {id} == w.handlers - {id};
    }
  }

  lemma {:induction false} MarkingFinishes(kind: Kind, cfg: Config, w: World, id: nat, m: nat, e: EventId, times: nat)
    requires Holds(w, id, m, e) && w.handlers[id].position.Marking? && times >= 3
    ensures RunFrom(kind, cfg, w, Stretches(id, SUCCEEDING, times)) == w.(
      handlers := w.handlers - {id},
      messages := w.messages[m := Message(e, true, Acked)],
      tracker := w.tracker.Completed(e).Cleared(e))
  {
    hide RunFrom;
    var w1 := Moved(w, id, Clearing).(tracker := w.tracker.Completed(e));
    OneStretch(kind, cfg, w, id, SUCCEEDING, times);
    assert Next(kind, cfg, w, Proceed(id, SUCCEEDING)) == w1;
    var w2 := Moved(w1, id, Acking).(tracker := w1.tracker.Cleared(e));
    OneStretch(kind, cfg, w1, id, SUCCEEDING, times - 1);
    assert Next(kind, cfg, w1, Proceed(id, SUCCEEDING)) == w2;
    OneStretch(kind, cfg, w2, id, SUCCEEDING, times - 2);
    Settles(kind, cfg, w2, id, m, e, SUCCEEDING);
    NoMoreStretches(kind, cfg, Next(kind, cfg, w2, Proceed(id, SUCCEEDING)), id, SUCCEEDING, times - 3);
    assert w2.handlers - {id} == w.handlers - {id};
  }

  /** A handler that has started can succeed: its message is acknowledged and the count is gone. */
  lemma {:induction false} Finishes(kind: Kind, cfg: Config, w: World, id: nat, m: nat, e: EventId)
    requires Holds(w, id, m, e) && w.handlers[id].position.Executing?
    ensures RunFrom(kind, cfg, w, Stretches(id, SUCCEEDING, 5)) == w.(
      handlers := w.handlers - {id},
      messages := w.messages[m := Message(e, true, Acked)],
      tracker := w.tracker.Completed(e).Cleared(e),
      published := if kind.Minutes? then w.published + [GeneratedEvent(e)] else w.published)
  {
    hide RunFrom;
    OneStretch(kind, cfg, w, id, SUCCEEDING, 5);
    if kind.Minutes? {
      var w1 := Moved(w, id, Publishing);
      assert Next(kind, cfg, w, Proceed(id, SUCCEEDING)) == w1;
      OneStretch(kind, cfg, w1, id, SUCCEEDING, 4);
      var w2 := Moved(w1, id, Marking).(published := w.published + [GeneratedEvent(e)]);
      assert Next(kind, cfg, w1, Proceed(id, SUCCEEDING)) == w2;
      MarkingFinishes(kind, cfg, w2, id, m, e, 3);
      assert w2.handlers - {id} == w.handlers - {id};
    } else {
      var w1 := Moved(w, id, Marking);
      assert Next(kind, cfg, w, Proceed(id, SUCCEEDING)) == w1;
      MarkingFinishes(kind, cfg, w1, id, m, e, 4);
      assert w1.handlers - {id} == w.handlers - {id};
    }
  }

  // ---------- One message, again and again ----------

  /** One delivery of `m` that fails. */
  function FailedDelivery(m: nat, id: nat): seq<Action> {
    [Deliver(m), Proceed(id, FAILING)] + Stretches(id, FAILING, 5)
  }

  lemma {:induction false} DeliveryFails(kind: Kind, cfg: Config, w: World, m: nat, e: EventId)
    requires m in w.messages && w.messages[m] == Message(e, true, Ready) && e !in w.tracker.completed
    requires w.handlers == map[] && cfg.handlersPerEvent >= 1 && w.tracker.Count(e) < cfg.maxRetries
    ensures RunFrom(kind, cfg, w, FailedDelivery(m, w.nextHandler)) == w.(
      nextHandler := w.nextHandler + 1,
      delivered := w.delivered + multiset{e},
      tracker := w.tracker.Counted(e),
      requeued := w.requeued + multiset{e})
  {
    hide RunFrom;
    var id := w.nextHandler;
    assert HandlersOf(w, e) == {};
    Starts(kind, cfg, w, m, e);
    var started := RunFrom(kind, cfg, w, [Deliver(m), Proceed(id, FAILING)]);
    RunFromGoesOn(kind, cfg, w, [Deliver(m), Proceed(id, FAILING)], Stretches(id, FAILING, 5));
    Fails(kind, cfg, started, id, m, e);
    assert started.handlers - {id} == map[];
    assert started.messages[m := Message(e, true, Ready)] == w.messages;
  }

  /** `n` failed deliveries of message 0, the tracker forgetting after each. */
  function ForgetfulRun(e: EventId, n: nat): seq<Action> {
    if n == 0 then [Arrive(0, e, true)]
    else ForgetfulRun(e, n - 1) + FailedDelivery(0, n - 1) + [Forget]
  }

  lemma {:induction false} ForgetfulRequeues(kind: Kind, cfg: Config, e: EventId, n: nat)
    requires cfg.maxRetries >= 1 && cfg.handlersPerEvent >= 1
    ensures
      var w := Run(kind, cfg, ForgetfulRun(e, n));
      && w.messages == map[0 := Message(e, true, Ready)] && w.handlers == map[]
      && w.nextHandler == n && w.tracker == NEW_TRACKER && w.requeued[e] == n
  {
    hide RunFrom, Run, FailedDelivery;
    if n == 0 {
      RunLast(kind, cfg, [], Arrive(0, e, true));
      assert [] + [Arrive(0, e, true)] == ForgetfulRun(e, 0);
      NothingRun(kind, cfg);
    } else {
      var before, failed := ForgetfulRun(e, n - 1), FailedDelivery(0, n - 1);
      ForgetfulRequeues(kind, cfg, e, n - 1);
      DeliveryFails(kind, cfg, Run(kind, cfg, before), 0, e);
      RunGoesOn(kind, cfg, before, failed);
      RunLast(kind, cfg, before + failed, Forget);
    }
  }

  lemma {:induction false} NothingRun(kind: Kind, cfg: Config)
    ensures Run(kind, cfg, []) == INITIAL_WORLD
  {
  }

  // ---------- Without retries, or without handlers, nothing is requeued ----------

  /** No handler is on its way to requeue, and no count is below one. */
  ghost predicate NeverRequeues(w: World) {
    && w.requeued == multiset{}
    && forall id :: id in w.handlers ==>
         var p := w.handlers[id].position;
         !p.Sleeping? && !p.Requeueing? && (p.Deciding? ==> p.count >= 1)
  }

  lemma {:induction false} StepNeverRequeues(kind: Kind, cfg: Config, w: World, a: Action)
    requires cfg.maxRetries == 0 && NeverRequeues(w)
    ensures NeverRequeues(Next(kind, cfg, w, a))
  {
  }

  lemma {:induction false} NoRetriesNoRequeues(kind: Kind, cfg: Config, actions: seq<Action>)
    requires cfg.maxRetries == 0 || cfg.handlersPerEvent == 0
    ensures Run(kind, cfg, actions).requeued == multiset{}
    ensures cfg.maxRetries == 0 ==> NeverRequeues(Run(kind, cfg, actions))
    ensures cfg.handlersPerEvent == 0 ==> Run(kind, cfg, actions).handlers == map[]
  {
    if actions != [] {
      var n := |actions| - 1;
      NoRetriesNoRequeues(kind, cfg, actions[..n]);
      if cfg.maxRetries == 0 {
        StepNeverRequeues(kind, cfg, Run(kind, cfg, actions[..n]), actions[n]);
      }
    }
  }

  ghost predicate CanRequeue(kind: Kind, cfg: Config, e: EventId, n: nat) {
    exists actions :: Run(kind, cfg, actions).requeued[e] >= n
  }

  /**
   * When the tracker may forget, the requeues of an event are unbounded if and only if there are
   * retries at all and a handler to fail.
   */
  lemma {:induction false} UnboundedIffRetries(kind: Kind, cfg: Config, e: EventId)
    ensures (forall n :: CanRequeue(kind, cfg, e, n)) <==> cfg.maxRetries >= 1 && cfg.handlersPerEvent >= 1
  {
    if cfg.maxRetries >= 1 && cfg.handlersPerEvent >= 1 {
      forall n: nat ensures CanRequeue(kind, cfg, e, n) {
        ForgetfulRequeues(kind, cfg, e, n);
      }
    } else {
      if CanRequeue(kind, cfg, e, 1) {
        var actions :| Run(kind, cfg, actions).requeued[e] >= 1;
        NoRetriesNoRequeues(kind, cfg, actions);
      }
    }
  }

  // ---------- The bound for a tracker that forgets nothing is attained ----------

  /** The numbers `from`, ..., `from` + `size` - 1. */
  function Interval(from: nat, size: nat): set<nat> {
    if size == 0 then {} else Interval(from, size - 1) + {from + size - 1}
  }

  lemma {:induction false} IntervalSpec(from: nat, size: nat)
    ensures forall i: nat :: i in Interval(from, size) <==> from <= i < from + size
    ensures |Interval(from, size)| == size
  {
    if size > 0 {
      IntervalSpec(from, size - 1);
      assert from + size - 1 !in Interval(from, size - 1);
    }
  }

  /** Messages 0, ..., `copies` - 1 of one event; the first `open` are held by handlers `base`, ... */
  function Copies(e: EventId, copies: nat, open: nat, base: nat): map<nat, Message> {
    map m | m in Interval(0, copies) :: Message(e, true, if m < open then Unsettled(base + m) else Ready)
  }

  /** Handlers `base`, ..., `base` + `k` - 1, each executing its own message. */
  function Started(e: EventId, base: nat, k: nat): map<nat, Handler> {
    var ids := Interval(base, k);
    map id | id in ids :: Handler(Max(0, id - base), e, Executing)
  }

  lemma {:induction false} CopiesSpec(e: EventId, copies: nat, open: nat, base: nat)
    ensures forall m: nat :: m in Copies(e, copies, open, base) <==> m < copies
    ensures forall m: nat :: m < copies ==>
      Copies(e, copies, open, base)[m] == Message(e, true, if m < open then Unsettled(base + m) else Ready)
  {
    IntervalSpec(0, copies);
  }

  lemma {:induction false} StartedSpec(e: EventId, base: nat, k: nat)
    ensures forall id: nat :: id in Started(e, base, k) <==> base <= id < base + k
    ensures forall id: nat :: base <= id < base + k ==> Started(e, base, k)[id] == Handler(id - base, e, Executing)
    ensures |Started(e, base, k).Keys| == k
  {
    hide Interval;
    IntervalSpec(base, k);
    assert Started(e, base, k).Keys == Interval(base, k);
  }

  function Arrivals(e: EventId, copies: nat): seq<Action> {
    if copies == 0 then [] else Arrivals(e, copies - 1) + [Arrive(copies - 1, e, true)]
  }

  lemma {:induction false} OneMoreCopy(e: EventId, copies: nat)
    ensures copies !in Copies(e, copies, 0, 0)
    ensures Copies(e, copies + 1, 0, 0) == Copies(e, copies, 0, 0)[copies := Message(e, true, Ready)]
  {
    hide Copies;
    CopiesSpec(e, copies, 0, 0);
    CopiesSpec(e, copies + 1, 0, 0);
  }

  lemma {:induction false} AllArrive(kind: Kind, cfg: Config, e: EventId, copies: nat)
    ensures Run(kind, cfg, Arrivals(e, copies)) == INITIAL_WORLD.(messages := Copies(e, copies, 0, 0))
    ensures forall a :: a in Arrivals(e, copies) ==> TrackerIntact(a)
  {
    if copies > 0 {
      var before := Arrivals(e, copies - 1);
      AllArrive(kind, cfg, e, copies - 1);
      RunLast(kind, cfg, before, Arrive(copies - 1, e, true));
      OneMoreCopy(e, copies - 1);
    } else {
      assert Copies(e, 0, 0, 0) == map[];
    }
  }

  /** `n` failed deliveries of message 0. */
  function FailedDeliveries(n: nat): seq<Action> {
    if n == 0 then [] else FailedDeliveries(n - 1) + FailedDelivery(0, n - 1)
  }

  /** The world in which the copies wait and `n` failures are counted. */
  ghost predicate Waiting(w: World, e: EventId, copies: nat, n: nat) {
    && w.messages == Copies(e, copies, 0, 0) && w.handlers == map[] && w.nextHandler == n
    && e !in w.tracker.completed && w.tracker.Count(e) == n && w.requeued[e] == n
  }

  lemma {:induction false} FailuresAddUp(kind: Kind, cfg: Config, e: EventId, w: World, n: nat)
    requires cfg.handlersPerEvent >= 1 && n <= cfg.maxRetries && Waiting(w, e, cfg.handlersPerEvent, 0)
    ensures Waiting(RunFrom(kind, cfg, w, FailedDeliveries(n)), e, cfg.handlersPerEvent, n)
  {
    hide Next;
    if n > 0 {
      FailuresAddUp(kind, cfg, e, w, n - 1);
      var before := RunFrom(kind, cfg, w, FailedDeliveries(n - 1));
      RunFromGoesOn(kind, cfg, w, FailedDeliveries(n - 1), FailedDelivery(0, n - 1));
      CopiesSpec(e, cfg.handlersPerEvent, 0, 0);
      DeliveryFails(kind, cfg, before, 0, e);
    }
  }

  /** Starting handlers for messages 0, ..., `k` - 1. */
  function StartAll(base: nat, k: nat): seq<Action> {
    if k == 0 then [] else StartAll(base, k - 1) + [Deliver(k - 1), Proceed(base + k - 1, FAILING)]
  }

  ghost predicate Running(w: World, e: EventId, copies: nat, base: nat, k: nat) {
    && w.messages == Copies(e, copies, k, base) && w.handlers == Started(e, base, k)
    && w.nextHandler == base + k && e !in w.tracker.completed
    && w.tracker.Count(e) == base && w.requeued[e] == base
  }

  lemma {:induction false} AllStart(kind: Kind, cfg: Config, e: EventId, w: World, base: nat, k: nat)
    requires Waiting(w, e, cfg.handlersPerEvent, base) && k <= cfg.handlersPerEvent
    ensures Running(RunFrom(kind, cfg, w, StartAll(base, k)), e, cfg.handlersPerEvent, base, k)
  {
    hide Next;
    var copies := cfg.handlersPerEvent;
    if k == 0 {
      assert Copies(e, copies, 0, base) == Copies(e, copies, 0, 0);
      assert Started(e, base, 0) == map[];
    } else {
      AllStart(kind, cfg, e, w, base, k - 1);
      var before := RunFrom(kind, cfg, w, StartAll(base, k - 1));
      RunFromGoesOn(kind, cfg, w, StartAll(base, k - 1), [Deliver(k - 1), Proceed(base + k - 1, FAILING)]);
      OneMoreStarts(kind, cfg, e, before, base, k - 1);
    }
  }

  lemma {:induction false} OneMoreOpen(e: EventId, copies: nat, k: nat, base: nat)
    requires k < copies
    ensures Copies(e, copies, k + 1, base) == Copies(e, copies, k, base)[k := Message(e, true, Unsettled(base + k))]
  {
    hide Copies;
    CopiesSpec(e, copies, k, base);
    CopiesSpec(e, copies, k + 1, base);
  }

  lemma {:induction false} OneMoreStarted(e: EventId, base: nat, k: nat)
    ensures Started(e, base, k + 1) == Started(e, base, k)[base + k := Handler(k, e, Executing)]
  {
    hide Started;
    StartedSpec(e, base, k);
    StartedSpec(e, base, k + 1);
  }

  lemma {:induction false} OneMoreStarts(kind: Kind, cfg: Config, e: EventId, w: World, base: nat, k: nat)
    requires Running(w, e, cfg.handlersPerEvent, base, k) && k < cfg.handlersPerEvent
    ensures Running(RunFrom(kind, cfg, w, [Deliver(k), Proceed(base + k, FAILING)]), e,
                    cfg.handlersPerEvent, base, k + 1)
  {
    hide RunFrom, Copies, Started;
    var copies := cfg.handlersPerEvent;
    CopiesSpec(e, copies, k, base);
    StartedSpec(e, base, k);
    OneMoreOpen(e, copies, k, base);
    OneMoreStarted(e, base, k);
    assert HandlersOf(w, e) == Started(e, base, k).Keys;
    Starts(kind, cfg, w, k, e);
  }

  // ---------- Successes that make room for failures ----------

  /** The count after `k` failures, each behind a success whenever the count has reached `r`. */
  function CountAfter(r: nat, k: nat): nat {
    if k == 0 then r
    else if CountAfter(r, k - 1) == r then 1
    else CountAfter(r, k - 1) + 1
  }

  /** How many successes that takes. */
  function Finished(r: nat, k: nat): nat {
    if k == 0 then 0 else Finished(r, k - 1) + if CountAfter(r, k - 1) == r then 1 else 0
  }

  lemma {:induction false} FinishedSpec(r: nat, k: nat)
    requires r > 0
    ensures CountAfter(r, k) <= r && Finished(r, k) * r == k + r - CountAfter(r, k)
  {
    if k > 0 {
      FinishedSpec(r, k - 1);
      assert (Finished(r, k - 1) + 1) * r == Finished(r, k - 1) * r + r;
    }
  }

  /** One more of `s` handlers is left to succeed while not all failures they make room for have happened. */
  lemma {:induction false} OneMoreCanFinish(r: nat, k: nat, s: nat)
    requires r > 0 && k < s * r && CountAfter(r, k) == r
    ensures Finished(r, k) < s
  {
    FinishedSpec(r, k);
    if Finished(r, k) >= s {
      TimesMonotone(s, Finished(r, k), r);
    }
  }

  lemma {:induction false} TimesMonotone(a: nat, b: nat, r: nat)
    requires a <= b
    ensures a * r <= b * r
  {
  }

  /** Handlers `base`, ... succeed; handlers `base` + `s`, ..., `k` of them, fail as soon as there is room. */
  function Endings(base: nat, s: nat, r: nat, k: nat): seq<Action> {
    if k == 0 then []
    else
      Endings(base, s, r, k - 1)
      + ((if CountAfter(r, k - 1) == r then Stretches(base + Finished(r, k - 1), SUCCEEDING, 5) else [])
         + Stretches(base + s + k - 1, FAILING, 5))
  }

  /** The handler executes its own message. */
  ghost predicate Executes(w: World, e: EventId, base: nat, id: nat) {
    && base <= id && id in w.handlers && w.handlers[id] == Handler(id - base, e, Executing)
    && id - base in w.messages && w.messages[id - base] == Message(e, true, Unsettled(id))
  }

  /** The handlers that have not ended are executing. */
  ghost predicate Remaining(w: World, e: EventId, base: nat, s: nat, c: nat, finished: nat, failed: nat) {
    forall id: nat :: base + finished <= id < base + s || base + s + failed <= id < base + c ==>
      Executes(w, e, base, id)
  }

  ghost predicate Ended(w: World, e: EventId, base: nat, s: nat, c: nat, finished: nat, failed: nat, count: nat) {
    && Remaining(w, e, base, s, c, finished, failed)
    && w.tracker.Count(e) == count && w.requeued[e] == base + failed
  }

  lemma {:induction false} StartedRemain(w: World, e: EventId, base: nat, s: nat, c: nat)
    requires Running(w, e, c, base, c) && s <= c
    ensures Ended(w, e, base, s, c, 0, 0, base)
  {
    hide Copies, Started;
    CopiesSpec(e, c, c, base);
    StartedSpec(e, base, c);
  }

  /** One handler succeeds and clears the count. */
  lemma {:induction false} OneFinishes(
    kind: Kind, cfg: Config, w: World, e: EventId, base: nat, s: nat, c: nat, finished: nat, failed: nat, count: nat)
    requires Ended(w, e, base, s, c, finished, failed, count) && finished < s
    ensures Ended(RunFrom(kind, cfg, w, Stretches(base + finished, SUCCEEDING, 5)),
                  e, base, s, c, finished + 1, failed, 0)
  {
    hide RunFrom;
    assert Executes(w, e, base, base + finished);
    Finishes(kind, cfg, w, base + finished, finished, e);
    var w' := RunFrom(kind, cfg, w, Stretches(base + finished, SUCCEEDING, 5));
    forall id: nat | base + finished < id < base + s || base + s + failed <= id < base + c
      ensures Executes(w', e, base, id)
    {
      assert Executes(w, e, base, id);
    }
  }

  /** One handler fails within the limit. */
  lemma {:induction false} OneFails(
    kind: Kind, cfg: Config, w: World, e: EventId, base: nat, s: nat, c: nat, finished: nat, failed: nat, count: nat)
    requires Ended(w, e, base, s, c, finished, failed, count) && s + failed < c && count < cfg.maxRetries
    ensures Ended(RunFrom(kind, cfg, w, Stretches(base + s + failed, FAILING, 5)),
                  e, base, s, c, finished, failed + 1, count + 1)
  {
    hide RunFrom;
    assert Executes(w, e, base, base + s + failed);
    Fails(kind, cfg, w, base + s + failed, s + failed, e);
    var w' := RunFrom(kind, cfg, w, Stretches(base + s + failed, FAILING, 5));
    forall id: nat | base + finished <= id < base + s || base + s + failed < id < base + c
      ensures Executes(w', e, base, id)
    {
      assert Executes(w, e, base, id);
    }
  }

  /** One more failure, behind a success if the count has reached the limit. */
  lemma {:induction false} OneMoreEnds(
    kind: Kind, cfg: Config, w: World, e: EventId, s: nat, k: nat, success: seq<Action>, failure: seq<Action>)
    requires var r, c := cfg.maxRetries, cfg.handlersPerEvent;
      && r > 0 && s + k < c && k < s * r && Ended(w, e, r, s, c, Finished(r, k), k, CountAfter(r, k))
      && success == (if CountAfter(r, k) == r then Stretches(r + Finished(r, k), SUCCEEDING, 5) else [])
      && failure == Stretches(r + s + k, FAILING, 5)
    ensures var r, c := cfg.maxRetries, cfg.handlersPerEvent;
      Ended(RunFrom(kind, cfg, w, success + failure), e, r, s, c, Finished(r, k + 1), k + 1, CountAfter(r, k + 1))
  {
    hide Ended, Next;
    var r, c := cfg.maxRetries, cfg.handlersPerEvent;
    RunFromGoesOn(kind, cfg, w, success, failure);
    FinishedSpec(r, k);
    if CountAfter(r, k) == r {
      OneMoreCanFinish(r, k, s);
      OneFinishes(kind, cfg, w, e, r, s, c, Finished(r, k), k, r);
      OneFails(kind, cfg, RunFrom(kind, cfg, w, success), e, r, s, c, Finished(r, k) + 1, k, 0);
    } else {
      OneFails(kind, cfg, w, e, r, s, c, Finished(r, k), k, CountAfter(r, k));
    }
  }

  lemma {:induction false} AllEnd(kind: Kind, cfg: Config, w: World, e: EventId, s: nat, k: nat)
    requires var r, c := cfg.maxRetries, cfg.handlersPerEvent;
      s + k <= c && k <= s * r && Ended(w, e, r, s, c, 0, 0, r)
    ensures var r, c := cfg.maxRetries, cfg.handlersPerEvent;
      Ended(RunFrom(kind, cfg, w, Endings(r, s, r, k)), e, r, s, c, Finished(r, k), k, CountAfter(r, k))
  {
    hide Next, Ended, Stretches;
    var r := cfg.maxRetries;
    if k > 0 {
      AllEnd(kind, cfg, w, e, s, k - 1);
      assert r > 0 by {
        TimesZero(s, r);
      }
      var before := Endings(r, s, r, k - 1);
      var success := if CountAfter(r, k - 1) == r then Stretches(r + Finished(r, k - 1), SUCCEEDING, 5) else [];
      var failure := Stretches(r + s + k - 1, FAILING, 5);
      RunFromGoesOn(kind, cfg, w, before, success + failure);
      OneMoreEnds(kind, cfg, RunFrom(kind, cfg, w, before), e, s, k - 1, success, failure);
    }
  }

  lemma {:induction false} TimesZero(s: nat, r: nat)
    ensures r == 0 ==> s * r == 0
  {
  }

  /**
   * Copies arrive; one fails up to the limit; all run together; `s` of them succeed, each making room
   * for the failures of others.
   */
  function WorstRun(cfg: Config, e: EventId, s: nat, k: nat): seq<Action> {
    var r, c := cfg.maxRetries, cfg.handlersPerEvent;
    Arrivals(e, c) + (FailedDeliveries(r) + (StartAll(r, c) + Endings(r, s, r, k)))
  }

  lemma {:induction false} RunFourParts(
    kind: Kind, cfg: Config, a: seq<Action>, b: seq<Action>, c: seq<Action>, d: seq<Action>)
    ensures Run(kind, cfg, a + (b + (c + d)))
         == RunFrom(kind, cfg, RunFrom(kind, cfg, RunFrom(kind, cfg, Run(kind, cfg, a), b), c), d)
  {
    hide RunFrom;
    RunGoesOn(kind, cfg, a, b + (c + d));
    RunFromGoesOn(kind, cfg, Run(kind, cfg, a), b, c + d);
    RunFromGoesOn(kind, cfg, RunFrom(kind, cfg, Run(kind, cfg, a), b), c, d);
  }

  lemma {:induction false} WorstRunRequeues(kind: Kind, cfg: Config, e: EventId, s: nat, k: nat)
    requires cfg.handlersPerEvent >= 1 && s + k <= cfg.handlersPerEvent && k <= s * cfg.maxRetries
    ensures Run(kind, cfg, WorstRun(cfg, e, s, k)).requeued[e] == cfg.maxRetries + k
  {
    hide RunFrom, Run;
    var r, c := cfg.maxRetries, cfg.handlersPerEvent;
    RunFourParts(kind, cfg, Arrivals(e, c), FailedDeliveries(r), StartAll(r, c), Endings(r, s, r, k));
    AllArrive(kind, cfg, e, c);
    var w0 := Run(kind, cfg, Arrivals(e, c));
    FailuresAddUp(kind, cfg, e, w0, r);
    var w1 := RunFrom(kind, cfg, w0, FailedDeliveries(r));
    AllStart(kind, cfg, e, w1, r, c);
    var w2 := RunFrom(kind, cfg, w1, StartAll(r, c));
    StartedRemain(w2, e, r, s, c);
    AllEnd(kind, cfg, w2, e, s, k);
  }

  ghost predicate AllIntact(actions: seq<Action>) {
    forall a :: a in actions ==> TrackerIntact(a)
  }

  lemma {:induction false} StretchesIntact(id: nat, oracle: Oracle, times: nat)
    ensures AllIntact(Stretches(id, oracle, times))
  {
    if times > 0 {
      StretchesIntact(id, oracle, times - 1);
    }
  }

  lemma {:induction false} DeliveriesIntact(n: nat)
    ensures AllIntact(FailedDeliveries(n))
  {
    if n > 0 {
      DeliveriesIntact(n - 1);
      StretchesIntact(n - 1, FAILING, 5);
    }
  }

  lemma {:induction false} StartsIntact(base: nat, k: nat)
    ensures AllIntact(StartAll(base, k))
  {
    if k > 0 {
      StartsIntact(base, k - 1);
    }
  }

  lemma {:induction false} EndingsIntact(base: nat, s: nat, r: nat, k: nat)
    ensures AllIntact(Endings(base, s, r, k))
  {
    if k > 0 {
      EndingsIntact(base, s, r, k - 1);
      StretchesIntact(base + Finished(r, k - 1), SUCCEEDING, 5);
      StretchesIntact(base + s + k - 1, FAILING, 5);
    }
  }

  lemma {:induction false} WorstRunIntact(kind: Kind, cfg: Config, e: EventId, s: nat, k: nat)
    ensures AllIntact(WorstRun(cfg, e, s, k))
  {
    AllArrive(kind, cfg, e, cfg.handlersPerEvent);
    DeliveriesIntact(cfg.maxRetries);
    StartsIntact(cfg.maxRetries, cfg.handlersPerEvent);
    EndingsIntact(cfg.maxRetries, s, cfg.maxRetries, k);
  }

  /**
   * With an intact tracker the bound on requeues is the best possible, for every limit and number of
   * handlers; while there are no more further handlers than retries it is their sum.
   */
  lemma {:induction false} RequeueBoundAttained(kind: Kind, cfg: Config, e: EventId) returns (actions: seq<Action>)
    requires cfg.handlersPerEvent >= 1
    ensures AllIntact(actions) && Run(kind, cfg, actions).requeued[e] == MostRequeues(cfg)
    ensures cfg.handlersPerEvent - 1 <= cfg.maxRetries ==>
      MostRequeues(cfg) == cfg.maxRetries + cfg.handlersPerEvent - 1
  {
    var s := MostExtraSpec(cfg, cfg.handlersPerEvent);
    var k := Max(0, Extra(cfg, s));
    assert Extra(cfg, 1) <= MostExtra(cfg, cfg.handlersPerEvent);
    actions := WorstRun(cfg, e, s, k);
    WorstRunRequeues(kind, cfg, e, s, k);
    WorstRunIntact(kind, cfg, e, s, k);
  }

  ghost predicate CanRequeueRemembered(kind: Kind, cfg: Config, e: EventId, n: nat) {
    exists actions :: AllIntact(actions) && Run(kind, cfg, actions).requeued[e] >= n
  }

  /** With a handler and an intact tracker, an event can be requeued `n` times just for `n` up to the bound. */
  lemma {:induction false} RequeuesIff(kind: Kind, cfg: Config, e: EventId, n: nat)
    requires cfg.handlersPerEvent >= 1
    ensures CanRequeueRemembered(kind, cfg, e, n) <==> n <= MostRequeues(cfg)
  {
    if CanRequeueRemembered(kind, cfg, e, n) {
      var actions :| AllIntact(actions) && Run(kind, cfg, actions).requeued[e] >= n;
      RequeuesBounded(kind, cfg, actions, e);
    }
    if n <= MostRequeues(cfg) {
      var actions := RequeueBoundAttained(kind, cfg, e);
    }
  }
}
