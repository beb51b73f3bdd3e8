/** How often an event is requeued and delivered, and how long its handlers wait. */
module RetryBudget {
  import opened Basics
  import opened EventConsumers

  // ---------- Counting handlers and messages ----------

  /** The handlers of `e` whose position satisfies `p`. */
  function Members(handlers: map<nat, Handler>, e: EventId, p: Position -> bool): set<nat> {
    set id | id in handlers && handlers[id].event == e && p(handlers[id].position)
  }

  lemma {:induction false} InMembers(handlers: map<nat, Handler>, e: EventId, p: Position -> bool)
    ensures forall id :: id in Members(handlers, e, p) <==>
      id in handlers && handlers[id].event == e && p(handlers[id].position)
  {
  }

  function One(b: bool): nat {
    if b then 1 else 0
  }

  lemma {:induction false} MembersRemoved(handlers: map<nat, Handler>, id: nat, e: EventId, p: Position -> bool)
    requires id in handlers
    ensures |Members(handlers - {id}, e, p)|
         == |Members(handlers, e, p)| - One(handlers[id].event == e && p(handlers[id].position))
  {
    assert Members(handlers - {id}, e, p) == Members(handlers, e, p) - {id};
  }

  lemma {:induction false} MembersAdded(
    handlers: map<nat, Handler>, id: nat, h: Handler, e: EventId, p: Position -> bool)
    requires id !in handlers
    ensures |Members(handlers[id := h], e, p)|
         == |Members(handlers, e, p)| + One(h.event == e && p(h.position))
  {
    hide Members;
    var before, after := Members(handlers, e, p), Members(handlers[id := h], e, p);
    InMembers(handlers, e, p);
    InMembers(handlers[id := h], e, p);
    if h.event == e && p(h.position) {
      assert after == before + {id};
    } else {
      assert after == before;
    }
  }

  lemma {:induction false} MembersMoved(
    handlers: map<nat, Handler>, id: nat, h: Handler, e: EventId, p: Position -> bool)
    requires id in handlers
    ensures |Members(handlers[id := h], e, p)|
         == |Members(handlers, e, p)| - One(handlers[id].event == e && p(handlers[id].position))
            + One(h.event == e && p(h.position))
  {
    MembersRemoved(handlers, id, e, p);
    MembersAdded(handlers - {id}, id, h, e, p);
    assert (handlers - {id})[id := h] == handlers[id := h];
  }

  /** The messages of `e` whose status satisfies `q`. */
  function Copies(messages: map<nat, Message>, e: EventId, q: Status -> bool): set<nat> {
    set m | m in messages && messages[m].event == e && q(messages[m].status)
  }

  lemma {:induction false} InCopies(messages: map<nat, Message>, e: EventId, q: Status -> bool)
    ensures forall m :: m in Copies(messages, e, q) <==>
      m in messages && messages[m].event == e && q(messages[m].status)
  {
  }

  lemma {:induction false} CopiesAdded(
    messages: map<nat, Message>, m: nat, message: Message, e: EventId, q: Status -> bool)
    requires m !in messages
    ensures |Copies(messages[m := message], e, q)|
         == |Copies(messages, e, q)| + One(message.event == e && q(message.status))
  {
    hide Copies;
    var before, after := Copies(messages, e, q), Copies(messages[m := message], e, q);
    InCopies(messages, e, q);
    InCopies(messages[m := message], e, q);
    if message.event == e && q(message.status) {
      assert after == before + {m};
    } else {
      assert after == before;
    }
  }

  lemma {:induction false} CopiesRemoved(messages: map<nat, Message>, m: nat, e: EventId, q: Status -> bool)
    requires m in messages
    ensures |Copies(messages - {m}, e, q)|
         == |Copies(messages, e, q)| - One(messages[m].event == e && q(messages[m].status))
  {
    assert Copies(messages - {m}, e, q) == Copies(messages, e, q) - {m};
  }

  lemma {:induction false} CopiesMoved(
    messages: map<nat, Message>, m: nat, message: Message, e: EventId, q: Status -> bool)
    requires m in messages
    ensures |Copies(messages[m := message], e, q)|
         == |Copies(messages, e, q)| - One(messages[m].event == e && q(messages[m].status))
            + One(message.event == e && q(message.status))
  {
    CopiesRemoved(messages, m, e, q);
    CopiesAdded(messages - {m}, m, message, e, q);
    assert (messages - {m})[m := message] == messages[m := message];
  }

  // ---------- The requeue budget ----------

  /** The handler may still fail and be counted. */
  predicate MayFail(p: Position) {
    p.Executing? || p.Publishing? || p.Counting?
  }

  /** The handler was counted within the limit and is on its way to requeue its message. */
  predicate WillRequeue(maxRetries: nat, p: Position) {
    p.Sleeping? || p.Requeueing? || (p.Deciding? && p.count <= maxRetries)
  }

  function Within(maxRetries: nat): Position -> bool {
    p => WillRequeue(maxRetries, p)
  }

  predicate AnyPosition(p: Position) {
    true
  }

  function FailingCount(w: World, e: EventId): nat {
    |Members(w.handlers, e, MayFail)|
  }

  function WaitingCount(w: World, cfg: Config, e: EventId): nat {
    |Members(w.handlers, e, Within(cfg.maxRetries))|
  }

  /** The tracker forgets nothing. */
  predicate TrackerIntact(a: Action) {
    !a.Forget? && !a.ExpireCompleted? && !a.ExpireRetries?
  }

  /** The handler has succeeded but not yet cleared its event's count. */
  predicate IsFinishing(p: Position) {
    p.Marking? || p.Clearing?
  }

  function FinishingCount(w: World, e: EventId): nat {
    |Members(w.handlers, e, IsFinishing)|
  }

  /** A handler of the event that succeeded clears the event's count. */
  predicate ClearsCount(w: World, a: Action, e: EventId) {
    && a.Proceed? && a.handler in w.handlers
    && w.handlers[a.handler].event == e && w.handlers[a.handler].position.Clearing?
  }

  /** How often handlers that succeeded have cleared the count of the event. */
  function Clears(kind: Kind, cfg: Config, actions: seq<Action>, e: EventId): nat {
    if actions == [] then 0
    else
      var init, a := actions[..|actions| - 1], actions[|actions| - 1];
      Clears(kind, cfg, init, e) + One(ClearsCount(Run(kind, cfg, init), a, e))
  }

  /** What a handler's position still costs once its event is completed. */
  function Burden(maxRetries: nat, p: Position): nat {
    One(WillRequeue(maxRetries, p)) + One(MayFail(p)) + One(IsFinishing(p))
  }

  function BurdenOf(cfg: Config, w: World, e: EventId): nat {
    WaitingCount(w, cfg, e) + FailingCount(w, e) + FinishingCount(w, e)
  }

  /** Every clearing of the count pays for as many requeues as there are retries. */
  ghost predicate PaidByCounts(cfg: Config, w: World, e: EventId, clears: nat) {
    w.requeued[e] + WaitingCount(w, cfg, e) <= clears * cfg.maxRetries + Min(w.tracker.Count(e), cfg.maxRetries)
  }

  /** Once the event is completed every clearing and every further requeue uses up a handler. */
  ghost predicate PaidByHandlers(cfg: Config, w: World, e: EventId, clears: nat) {
    && |Members(w.handlers, e, AnyPosition)| <= cfg.handlersPerEvent
    && (forall id :: id in w.handlers && w.handlers[id].position.Clearing? ==>
          w.handlers[id].event in w.tracker.completed)
    && if e in w.tracker.completed
       then w.requeued[e] + BurdenOf(cfg, w, e) + clears <= cfg.maxRetries + cfg.handlersPerEvent
       else clears == 0
  }

  ghost predicate Budgeted(cfg: Config, w: World, e: EventId, clears: nat) {
    PaidByCounts(cfg, w, e, clears) && PaidByHandlers(cfg, w, e, clears)
  }

  lemma {:induction false} AllMembers(w: World, e: EventId)
    ensures Members(w.handlers, e, AnyPosition) == HandlersOf(w, e)
  {
  }

  lemma {:induction false} FailingOrFinishing(w: World, e: EventId)
    ensures FailingCount(w, e) + FinishingCount(w, e) <= |Members(w.handlers, e, AnyPosition)|
  {
    var failing, finishing := Members(w.handlers, e, MayFail), Members(w.handlers, e, IsFinishing);
    assert failing !! finishing && |failing + finishing| == |failing| + |finishing|;
    CardinalityOfSubset(failing + finishing, Members(w.handlers, e, AnyPosition));
  }

  lemma {:induction false} CardinalityOfSubset(a: set<nat>, b: set<nat>)
    requires a <= b
    ensures |a| <= |b|
  {
    if a != {} {
      var x :| x in a;
      CardinalityOfSubset(a - {x}, b - {x});
    }
  }

  lemma {:induction false} StepPaidByCounts(
    kind: Kind, cfg: Config, w: World, id: nat, oracle: Oracle, e: EventId, clears: nat)
    requires PaidByCounts(cfg, w, e, clears) && id in w.handlers && !Settling(w.handlers[id].position)
    ensures PaidByCounts(cfg, Advance(kind, cfg, w, id, oracle), e,
                         clears + One(ClearsCount(w, Proceed(id, oracle), e)))
  {
    MembersMoved(w.handlers, id, Advance(kind, cfg, w, id, oracle).handlers[id], e, Within(cfg.maxRetries));
    assert (clears + 1) * cfg.maxRetries == clears * cfg.maxRetries + cfg.maxRetries;
  }

  lemma {:induction false} BurdenShrinks(kind: Kind, maxRetries: nat, t: Tracker, h: Handler, oracle: Oracle)
    requires !Settling(h.position) && (h.event in t.completed || h.position.Marking?)
    ensures Burden(maxRetries, NextPosition(kind, maxRetries, t, h, oracle)) + One(h.position.Clearing?)
         <= Burden(maxRetries, h.position)
  {
  }

  lemma {:induction false} BurdenMoved(cfg: Config, w: World, id: nat, h: Handler, e: EventId)
    requires id in w.handlers && h.event == w.handlers[id].event
    ensures
      var w' := w.(handlers := w.handlers[id := h]);
      && |Members(w'.handlers, e, AnyPosition)| == |Members(w.handlers, e, AnyPosition)|
      && BurdenOf(cfg, w', e) == BurdenOf(cfg, w, e)
           + if h.event == e
             then Burden(cfg.maxRetries, h.position) - Burden(cfg.maxRetries, w.handlers[id].position) else 0
  {
    MembersMoved(w.handlers, id, h, e, AnyPosition);
    MembersMoved(w.handlers, id, h, e, MayFail);
    MembersMoved(w.handlers, id, h, e, IsFinishing);
    MembersMoved(w.handlers, id, h, e, Within(cfg.maxRetries));
  }

  lemma {:induction false} StepPaidByHandlers(
    kind: Kind, cfg: Config, w: World, id: nat, oracle: Oracle, e: EventId, clears: nat)
    requires Budgeted(cfg, w, e, clears) && id in w.handlers && !Settling(w.handlers[id].position)
    ensures PaidByHandlers(cfg, Advance(kind, cfg, w, id, oracle), e,
                           clears + One(ClearsCount(w, Proceed(id, oracle), e)))
  {
    hide Members, Burden;
    var h := w.handlers[id];
    BurdenMoved(cfg, w, id, Advance(kind, cfg, w, id, oracle).handlers[id], e);
    if h.event in w.tracker.completed || h.position.Marking? {
      BurdenShrinks(kind, cfg.maxRetries, w.tracker, h, oracle);
    }
    FailingOrFinishing(w, e);
    assert clears == 0 ==> clears * cfg.maxRetries == 0;
  }

  lemma {:induction false} GoneBudgeted(cfg: Config, w: World, id: nat, e: EventId, clears: nat)
    requires Budgeted(cfg, w, e, clears) && id in w.handlers
    ensures Budgeted(cfg, w.(handlers := w.handlers - {id}), e, clears)
  {
    MembersRemoved(w.handlers, id, e, AnyPosition);
    MembersRemoved(w.handlers, id, e, MayFail);
    MembersRemoved(w.handlers, id, e, IsFinishing);
    MembersRemoved(w.handlers, id, e, Within(cfg.maxRetries));
  }

  lemma {:induction false} EndBudgeted(cfg: Config, w: World, id: nat, e: EventId, clears: nat)
    requires Budgeted(cfg, w, e, clears) && id in w.handlers && Settling(w.handlers[id].position)
    ensures Budgeted(cfg, SettleMessage(w, id), e, clears)
  {
    MembersRemoved(w.handlers, id, e, AnyPosition);
    MembersRemoved(w.handlers, id, e, MayFail);
    MembersRemoved(w.handlers, id, e, IsFinishing);
    MembersRemoved(w.handlers, id, e, Within(cfg.maxRetries));
  }

  lemma {:induction false} DeliverBudgeted(kind: Kind, cfg: Config, w: World, m: nat, e: EventId, clears: nat)
    requires Linked(w) && Budgeted(cfg, w, e, clears) && Enabled(cfg, w, Deliver(m))
    ensures Budgeted(cfg, Apply(kind, cfg, w, Deliver(m)), e, clears)
  {
    var h := Apply(kind, cfg, w, Deliver(m)).handlers[w.nextHandler];
    AllMembers(w, e);
    MembersAdded(w.handlers, w.nextHandler, h, e, AnyPosition);
    MembersAdded(w.handlers, w.nextHandler, h, e, MayFail);
    MembersAdded(w.handlers, w.nextHandler, h, e, IsFinishing);
    MembersAdded(w.handlers, w.nextHandler, h, e, Within(cfg.maxRetries));
  }

  lemma {:induction false} ApplyBudgeted(kind: Kind, cfg: Config, w: World, a: Action, e: EventId, clears: nat)
    requires Linked(w) && Budgeted(cfg, w, e, clears) && Enabled(cfg, w, a) && TrackerIntact(a)
    ensures Budgeted(cfg, Apply(kind, cfg, w, a), e, clears + One(ClearsCount(w, a, e)))
  {
    hide Members;
    match a
    case Deliver(m) => DeliverBudgeted(kind, cfg, w, m, e, clears);
    case Kill(id) => GoneBudgeted(cfg, w, id, e, clears);
    case Proceed(id, oracle) =>
      if Settling(w.handlers[id].position) {
        EndBudgeted(cfg, w, id, e, clears);
      } else {
        StepPaidByCounts(kind, cfg, w, id, oracle, e, clears);
        StepPaidByHandlers(kind, cfg, w, id, oracle, e, clears);
      }
    case _ =>
  }

  lemma {:induction false} InitiallyBudgeted(cfg: Config, e: EventId)
    ensures Budgeted(cfg, INITIAL_WORLD, e, 0)
  {
    assert Members(INITIAL_WORLD.handlers, e, AnyPosition) == {};
    assert Members(INITIAL_WORLD.handlers, e, MayFail) == {};
    assert Members(INITIAL_WORLD.handlers, e, IsFinishing) == {};
    assert Members(INITIAL_WORLD.handlers, e, Within(cfg.maxRetries)) == {};
  }

  lemma {:induction false} RunBudgeted(kind: Kind, cfg: Config, actions: seq<Action>, e: EventId)
    requires forall a :: a in actions ==> TrackerIntact(a)
    ensures Budgeted(cfg, Run(kind, cfg, actions), e, Clears(kind, cfg, actions, e))
  {
    hide Budgeted, Apply;
    if actions == [] {
      InitiallyBudgeted(cfg, e);
    } else {
      var init, a := actions[..|actions| - 1], actions[|actions| - 1];
      RunBudgeted(kind, cfg, init, e);
      RunLinked(kind, cfg, init);
      var w := Run(kind, cfg, init);
      if Enabled(cfg, w, a) {
        ApplyBudgeted(kind, cfg, w, a, e, Clears(kind, cfg, init, e));
      }
    }
  }

  /**
   * When `finished` of the handlers succeed and the others fail, each success makes room for as many
   * requeues as there are retries, and each failure may use it.
   */
  function Extra(cfg: Config, finished: nat): int {
    Min(cfg.handlersPerEvent - finished, finished * cfg.maxRetries)
  }

  /** The most that up to `n` successes make room for. */
  function MostExtra(cfg: Config, n: nat): nat {
    if n == 0 then 0 else Max(MostExtra(cfg, n - 1), Extra(cfg, n))
  }

  /** How often all copies of an event together can be requeued. */
  function MostRequeues(cfg: Config): nat {
    cfg.maxRetries + MostExtra(cfg, cfg.handlersPerEvent)
  }

  lemma {:induction false} MostExtraSpec(cfg: Config, n: nat) returns (best: nat)
    ensures best <= n && Extra(cfg, best) <= MostExtra(cfg, n) == Max(0, Extra(cfg, best))
    ensures forall finished: nat :: finished <= n ==> Extra(cfg, finished) <= MostExtra(cfg, n)
    ensures MostExtra(cfg, n) <= Max(0, cfg.handlersPerEvent - 1)
  {
    best := 0;
    if n > 0 {
      best := MostExtraSpec(cfg, n - 1);
      if MostExtra(cfg, n) != MostExtra(cfg, n - 1) {
        best := n;
      }
    }
  }

  /**
   * While the tracker forgets nothing, all copies of an event together are requeued at most
   * `MostRequeues` times, which is at most `maxRetries` plus one for every further handler that may
   * run beside another. Handlers may die and deliveries may be taken back.
   */
  lemma {:induction false} RequeuesBounded(kind: Kind, cfg: Config, actions: seq<Action>, e: EventId)
    requires forall a :: a in actions ==> TrackerIntact(a)
    ensures Run(kind, cfg, actions).requeued[e] <= MostRequeues(cfg)
    ensures cfg.handlersPerEvent >= 1 ==> MostRequeues(cfg) <= cfg.maxRetries + cfg.handlersPerEvent - 1
  {
    RunBudgeted(kind, cfg, actions, e);
    var clears := Clears(kind, cfg, actions, e);
    var best := MostExtraSpec(cfg, cfg.handlersPerEvent);
    assert clears <= cfg.handlersPerEvent ==> Extra(cfg, clears) <= MostExtra(cfg, cfg.handlersPerEvent);
  }

  // ---------- Deliveries ----------

  predicate IsOpen(s: Status) { s.Unsettled? }

  predicate IsSettled(s: Status) { s.Acked? || s.DeadLettered? }

  predicate IsReady(s: Status) { s.Ready? }

  predicate AnyStatus(s: Status) { true }

  function UnsettledCopies(w: World, e: EventId): set<nat> {
    Copies(w.messages, e, IsOpen)
  }

  function SettledCopies(w: World, e: EventId): set<nat> {
    Copies(w.messages, e, IsSettled)
  }

  function AllCopies(w: World, e: EventId): set<nat> {
    Copies(w.messages, e, AnyStatus)
  }

  /** Every delivery is still open, was requeued or dropped, or settled its message for good. */
  ghost predicate DeliveriesBalance(w: World, e: EventId) {
    w.delivered[e] == w.requeued[e] + w.dropped[e] + |UnsettledCopies(w, e)| + |SettledCopies(w, e)|
  }

  lemma {:induction false} MovedBalance(w: World, m: nat, message: Message, e: EventId)
    requires m in w.messages && message.event == w.messages[m].event
    ensures var w' := w.(messages := w.messages[m := message]);
      && |UnsettledCopies(w', e)| == |UnsettledCopies(w, e)|
           - One(message.event == e && w.messages[m].status.Unsettled?)
           + One(message.event == e && message.status.Unsettled?)
      && |SettledCopies(w', e)| == |SettledCopies(w, e)|
           - One(message.event == e && (w.messages[m].status.Acked? || w.messages[m].status.DeadLettered?))
           + One(message.event == e && (message.status.Acked? || message.status.DeadLettered?))
  {
    CopiesMoved(w.messages, m, message, e, IsOpen);
    CopiesMoved(w.messages, m, message, e, IsSettled);
  }

  lemma {:induction false} SettleBalance(w: World, id: nat, e: EventId)
    requires Linked(w) && DeliveriesBalance(w, e)
    requires id in w.handlers && Settling(w.handlers[id].position)
    ensures DeliveriesBalance(SettleMessage(w, id), e)
  {
    var h := w.handlers[id];
    if w.messages[h.message].status == Unsettled(id) {
      MovedBalance(w, h.message, w.messages[h.message].(status := SettledStatus(h.position)), e);
    }
  }

  lemma {:induction false} ApplyBalance(kind: Kind, cfg: Config, w: World, a: Action, e: EventId)
    requires Linked(w) && DeliveriesBalance(w, e) && Enabled(cfg, w, a)
    ensures DeliveriesBalance(Apply(kind, cfg, w, a), e)
  {
    match a
    case Arrive(m, event, readable) =>
      CopiesAdded(w.messages, m, Message(event, readable, Ready), e, IsOpen);
      CopiesAdded(w.messages, m, Message(event, readable, Ready), e, IsSettled);
    case Deliver(m) =>
      MovedBalance(w, m, w.messages[m].(status := Unsettled(w.nextHandler)), e);
    case Drop(m) =>
      MovedBalance(w, m, w.messages[m].(status := Ready), e);
    case Proceed(id, oracle) =>
      if Settling(w.handlers[id].position) {
        SettleBalance(w, id, e);
      }
    case _ =>
  }

  /** Deliveries are conserved in every run, whatever the tracker forgets. */
  lemma {:induction false} RunBalance(kind: Kind, cfg: Config, actions: seq<Action>, e: EventId)
    ensures DeliveriesBalance(Run(kind, cfg, actions), e)
  {
    if actions != [] {
      var init, a := actions[..|actions| - 1], actions[|actions| - 1];
      RunBalance(kind, cfg, init, e);
      RunLinked(kind, cfg, init);
      var w := Run(kind, cfg, init);
      if Enabled(cfg, w, a) {
        ApplyBalance(kind, cfg, w, a, e);
      }
    } else {
      assert UnsettledCopies(INITIAL_WORLD, e) == {} && SettledCopies(INITIAL_WORLD, e) == {};
    }
  }

  lemma {:induction false} CopiesPartition(w: World, e: EventId)
    ensures |UnsettledCopies(w, e)| + |SettledCopies(w, e)| <= |AllCopies(w, e)|
    ensures |UnsettledCopies(w, e)| + |SettledCopies(w, e)| == |AllCopies(w, e)| ==>
      forall m :: m in w.messages && w.messages[m].event == e ==> !w.messages[m].status.Ready?
  {
    var open, closed, all := UnsettledCopies(w, e), SettledCopies(w, e), AllCopies(w, e);
    var ready := Copies(w.messages, e, IsReady);
    assert open !! closed && all == open + closed + ready;
    assert |open + closed| == |open| + |closed|;
    assert (open + closed) !! ready;
    assert |all| == |open + closed| + |ready|;
    forall m | m in w.messages && w.messages[m].event == e && w.messages[m].status.Ready?
      ensures m in ready
    {
    }
  }

  /**
   * While the tracker forgets nothing, `n` copies of an event take at most `n` deliveries and one for
   * every requeue there can be, besides those the broker took back; when that many have happened, no
   * copy is waiting for another.
   */
  lemma {:induction false} DeliveriesBounded(kind: Kind, cfg: Config, actions: seq<Action>, e: EventId)
    requires forall a :: a in actions ==> TrackerIntact(a)
    ensures
      var w := Run(kind, cfg, actions);
      var bound := |AllCopies(w, e)| + MostRequeues(cfg);
      && w.delivered[e] <= bound + w.dropped[e]
      && (w.delivered[e] == bound + w.dropped[e] ==>
            forall m :: m in w.messages && w.messages[m].event == e ==> !w.messages[m].status.Ready?)
  {
    RequeuesBounded(kind, cfg, actions, e);
    RunBalance(kind, cfg, actions, e);
    CopiesPartition(Run(kind, cfg, actions), e);
  }

  // ---------- Back-off ----------

  function Pow2(n: nat): real {
    if n == 0 then 1.0 else 2.0 * Pow2(n - 1)
  }

  /** `_retry_delay_seconds`. */
  function RetryDelay(base: real, cap: real, retryCount: nat): real {
    var delay := base * Pow2(Max(retryCount - 1, 0));
    if delay <= cap then delay else cap
  }

  /** The waits before the first `n` requeues of an event. */
  function TotalDelay(base: real, cap: real, n: nat): real {
    if n == 0 then 0.0 else TotalDelay(base, cap, n - 1) + RetryDelay(base, cap, n)
  }

  /** `base * 2^n`, by repeated doubling. */
  function Doubled(base: real, n: nat): real {
    if n == 0 then base else 2.0 * Doubled(base, n - 1)
  }

  lemma {:induction false} DoubledIsPower(base: real, n: nat)
    ensures Doubled(base, n) == base * Pow2(n)
  {
    if n > 0 {
      DoubledIsPower(base, n - 1);
    }
  }

  lemma {:induction false} DoubledMonotone(base: real, m: nat, n: nat)
    requires base >= 0.0 && m <= n
    ensures base <= Doubled(base, m) <= Doubled(base, n)
  {
    if m < n {
      DoubledMonotone(base, m, n - 1);
    } else if m > 0 {
      DoubledMonotone(base, m - 1, n - 1);
    }
  }

  lemma {:induction false} RetryDelayIsCappedDoubling(base: real, cap: real, n: nat)
    ensures RetryDelay(base, cap, n)
         == var d := Doubled(base, Max(n - 1, 0)); if d <= cap then d else cap
  {
    DoubledIsPower(base, Max(n - 1, 0));
  }

  /** The back-off doubles with every failure up to its cap, and never decreases. */
  lemma {:induction false} RetryDelayMonotone(base: real, cap: real, m: nat, n: nat)
    requires base >= 0.0 && m <= n
    ensures RetryDelay(base, cap, m) <= RetryDelay(base, cap, n) <= cap
    ensures n > 0 && base * Pow2(n - 1) <= cap ==> RetryDelay(base, cap, n) == base * Pow2(n - 1)
    ensures n > 0 && base * Pow2(n - 1) >= cap ==> RetryDelay(base, cap, n) == cap
  {
    RetryDelayIsCappedDoubling(base, cap, m);
    RetryDelayIsCappedDoubling(base, cap, n);
    DoubledMonotone(base, Max(m - 1, 0), Max(n - 1, 0));
  }

  lemma {:induction false} TotalDelayDoubled(base: real, cap: real, n: nat)
    requires base >= 0.0
    ensures TotalDelay(base, cap, n) <= Doubled(base, n) - base
    ensures n > 0 && Doubled(base, n - 1) <= cap ==> TotalDelay(base, cap, n) == Doubled(base, n) - base
  {
    if n > 0 {
      TotalDelayDoubled(base, cap, n - 1);
      RetryDelayIsCappedDoubling(base, cap, n);
      if n > 1 {
        DoubledMonotone(base, n - 2, n - 1);
      }
    }
  }

  lemma {:induction false} TotalDelayCapped(base: real, cap: real, n: nat)
    ensures TotalDelay(base, cap, n) <= (n as real) * cap
  {
    if n > 0 {
      TotalDelayCapped(base, cap, n - 1);
      assert n as real == (n - 1) as real + 1.0;
    }
  }

  /**
   * `n` waits last at most `base * (2^n - 1)` and at most `n * cap`; exactly the former as long
   * as the last of them is not capped.
   */
  lemma {:induction false} TotalDelayBounded(base: real, cap: real, n: nat)
    requires base >= 0.0
    ensures TotalDelay(base, cap, n) <= base * (Pow2(n) - 1.0)
    ensures TotalDelay(base, cap, n) <= (n as real) * cap
    ensures n > 0 && base * Pow2(n - 1) <= cap ==> TotalDelay(base, cap, n) == base * (Pow2(n) - 1.0)
  {
    TotalDelayDoubled(base, cap, n);
    TotalDelayCapped(base, cap, n);
    DoubledIsPower(base, n);
    if n > 0 {
      DoubledIsPower(base, n - 1);
    }
    assert base * (Pow2(n) - 1.0) == base * Pow2(n) - base;
  }
}
