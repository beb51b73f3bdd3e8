/**
 * The three event processors (app/events/rabbit.py), each handling one message from start to end,
 * and how that relates to the machine of interleaving handlers.
 */
module EventProcessors {
  import opened Basics
  import opened EventConsumers
  import opened EventTrackers
  import opened RetryBudget

  datatype Settlement = Ack | Reject(requeue: bool)

  /** What a handler that runs alone leaves behind. */
  datatype Handled = Handled(tracker: Tracker, published: seq<Envelope>, settlement: Settlement)

  function HandleFailure(
    kind: Kind, maxRetries: nat, t: Tracker, e: EventId, f: Failure, published: seq<Envelope>): Handled
  {
    if !Retryable(kind, f) then Handled(t, published, Reject(false))
    else
      var counted := t.Counted(e);
      Handled(counted, published, Reject(counted.Count(e) <= maxRetries))
  }

  function HandleAlone(
    kind: Kind, maxRetries: nat, t: Tracker, e: EventId, readable: bool, oracle: Oracle): Handled
  {
    if !readable then Handled(t, [], Reject(false))
    else if e in t.completed then Handled(t, [], Ack)
    else if oracle.execution.Some? then HandleFailure(kind, maxRetries, t, e, oracle.execution.value, [])
    else if !kind.Minutes? then Handled(t.Completed(e).Cleared(e), [], Ack)
    else
      match oracle.publication
      case Confirmed => Handled(t.Completed(e).Cleared(e), [GeneratedEvent(e)], Ack)
      case NotConfirmed(f, arrived) =>
        HandleFailure(kind, maxRetries, t, e, f, if arrived then [GeneratedEvent(e)] else [])
  }

  // ---------- What is counted and what is dead-lettered ----------

  /** The outcome for a failure that counts or not: the tracker, and whether the message goes back. */
  ghost predicate HandledAsFailure(r: Handled, maxRetries: nat, t: Tracker, e: EventId, counts: bool) {
    var before := if e in t.retries then t.retries[e] else 0;
    && r.settlement == Reject(counts && before < maxRetries)
    && r.tracker == (if counts then t.(retries := t.retries[e := before + 1]) else t)
  }

  /**
   * A failing execution counts for the minutes and index events when it is a retryable `AiError` or
   * any other exception, and for the removal events only when it is no `AiError`. What counts goes
   * back to the queue until the limit is reached; nothing else does.
   */
  lemma {:induction false} ExecutionFailureHandled(
    kind: Kind, maxRetries: nat, t: Tracker, e: EventId, publication: Publication, retryable: bool)
    requires e !in t.completed
    ensures
      var r := HandleAlone(kind, maxRetries, t, e, true, Oracle(Some(AiError(retryable)), publication));
      HandledAsFailure(r, maxRetries, t, e, kind != Removal && retryable) && r.published == []
    ensures
      var r := HandleAlone(kind, maxRetries, t, e, true, Oracle(Some(Unexpected), publication));
      HandledAsFailure(r, maxRetries, t, e, true) && r.published == []
  {
  }

  /** The same holds for the minutes event whose publication fails, which may have arrived. */
  lemma {:induction false} PublicationFailureHandled(
    maxRetries: nat, t: Tracker, e: EventId, arrived: bool, retryable: bool)
    requires e !in t.completed
    ensures
      var r := HandleAlone(Minutes, maxRetries, t, e, true, Oracle(None, NotConfirmed(AiError(retryable), arrived)));
      && HandledAsFailure(r, maxRetries, t, e, retryable)
      && r.published == if arrived then [GeneratedEvent(e)] else []
    ensures
      var r := HandleAlone(Minutes, maxRetries, t, e, true, Oracle(None, NotConfirmed(Unexpected, arrived)));
      && HandledAsFailure(r, maxRetries, t, e, true)
      && r.published == if arrived then [GeneratedEvent(e)] else []
  {
  }

  class MinutesEventProcessor {
    const tracker: RedisEventTracker
    const maxRetries: nat
    const base: real
    const cap: real

    constructor (tracker: RedisEventTracker, maxRetries: nat, base: real, cap: real)
      ensures this.tracker == tracker && this.maxRetries == maxRetries && this.base == base && this.cap == cap
    {
      this.tracker, this.maxRetries, this.base, this.cap := tracker, maxRetries, base, cap;
    }

    /** `slept` is the back-off waited through before the message was requeued. */
    method Process(e: EventId, readable: bool, oracle: Oracle)
      returns (published: seq<Envelope>, slept: Option<real>, settlement: Settlement)
      requires tracker.Valid()
      modifies tracker
      ensures tracker.Valid()
      ensures Handled(tracker.value, published, settlement)
        == HandleAlone(Minutes, maxRetries, old(tracker.value), e, readable, oracle)
      ensures slept == if settlement == Reject(true)
                       then Some(RetryDelay(base, cap, tracker.value.Count(e))) else None
    {
      published, slept := [], None;
      if !readable {
        return published, slept, Reject(false);
      }
      var done := tracker.IsCompleted(e);
      if done {
        return published, slept, Ack;
      }
      if oracle.execution.Some? {
        slept, settlement := HandleFailure(e, Retryable(Minutes, oracle.execution.value));
        return;
      }
      var publication := oracle.publication;
      if publication.NotConfirmed? {
        if publication.arrived {
          published := [GeneratedEvent(e)];
        }
        slept, settlement := HandleFailure(e, Retryable(Minutes, publication.failure));
        return;
      }
      published := [GeneratedEvent(e)];
      tracker.MarkCompleted(e);
      settlement := Ack;
    }

    method HandleFailure(e: EventId, retryable: bool) returns (slept: Option<real>, settlement: Settlement)
      requires tracker.Valid()
      modifies tracker
      ensures tracker.Valid()
      ensures tracker.value == if retryable then old(tracker.value).Counted(e) else old(tracker.value)
      ensures settlement == Reject(retryable && tracker.value.Count(e) <= maxRetries)
      ensures slept == if settlement == Reject(true)
                       then Some(RetryDelay(base, cap, tracker.value.Count(e))) else None
    {
      if !retryable {
        return None, Reject(false);
      }
      var count := tracker.IncrementRetry(e);
      if count > maxRetries {
        return None, Reject(false);
      }
      return Some(RetryDelay(base, cap, count)), Reject(true);
    }
  }

  class DocumentIndexEventProcessor {
    const tracker: InMemoryEventTracker
    const maxRetries: nat

    constructor (tracker: InMemoryEventTracker, maxRetries: nat)
      ensures this.tracker == tracker && this.maxRetries == maxRetries
    {
      this.tracker, this.maxRetries := tracker, maxRetries;
    }

    method Process(e: EventId, readable: bool, oracle: Oracle) returns (settlement: Settlement)
      modifies tracker
      ensures Handled(tracker.Value(), [], settlement)
        == HandleAlone(Index, maxRetries, old(tracker.Value()), e, readable, oracle)
    {
      if !readable {
        return Reject(false);
      }
      var done := tracker.IsCompleted(e);
      if done {
        return Ack;
      }
      if oracle.execution.Some? {
        var retryable := Retryable(Index, oracle.execution.value);
        var retryCount := 0;
        if retryable {
          retryCount := tracker.IncrementRetry(e);
        }
        return Reject(retryable && retryCount <= maxRetries);
      }
      tracker.MarkCompleted(e);
      settlement := Ack;
    }
  }

  class DocumentIndexRemovedEventProcessor {
    const tracker: InMemoryEventTracker
    const maxRetries: nat

    constructor (tracker: InMemoryEventTracker, maxRetries: nat)
      ensures this.tracker == tracker && this.maxRetries == maxRetries
    {
      this.tracker, this.maxRetries := tracker, maxRetries;
    }

    method Process(e: EventId, readable: bool, oracle: Oracle) returns (settlement: Settlement)
      modifies tracker
      ensures Handled(tracker.Value(), [], settlement)
        == HandleAlone(Removal, maxRetries, old(tracker.Value()), e, readable, oracle)
    {
      if !readable {
        return Reject(false);
      }
      var done := tracker.IsCompleted(e);
      if done {
        return Ack;
      }
      match oracle.execution
      case Some(AiError(_)) =>
        return Reject(false);
      case Some(Unexpected) =>
        var retryCount := tracker.IncrementRetry(e);
        return Reject(retryCount <= maxRetries);
      case None =>
        tracker.MarkCompleted(e);
        settlement := Ack;
    }
  }

  // ---------- Alone and interleaved ----------

  /** Let one handler run `steps` stretches with nothing in between. */
  function RunHandler(kind: Kind, cfg: Config, w: World, id: nat, oracle: Oracle, steps: nat): World
    decreases steps
  {
    if steps == 0 || id !in w.handlers then w
    else RunHandler(kind, cfg, Advance(kind, cfg, w, id, oracle), id, oracle, steps - 1)
  }

  /** The part of a world one handler's progress depends on. */
  ghost predicate At(w: World, id: nat, h: Handler, t: Tracker, published: seq<Envelope>) {
    id in w.handlers && w.handlers[id] == h && w.tracker == t && w.published == published
  }

  lemma {:induction false} OneStretch(kind: Kind, cfg: Config, w: World, id: nat, oracle: Oracle)
    requires id in w.handlers && !Settling(w.handlers[id].position)
    ensures
      var h := w.handlers[id];
      At(Advance(kind, cfg, w, id, oracle), id,
         h.(position := NextPosition(kind, cfg.maxRetries, w.tracker, h, oracle)),
         NextTracker(w.tracker, h), NextPublished(w.published, h, oracle))
    ensures Advance(kind, cfg, w, id, oracle).messages == w.messages
  {
  }

  function Settles(s: Settlement): Position {
    match s
    case Ack => Acking
    case Reject(requeue) => if requeue then Requeueing else Rejecting
  }

  /** A handler about to count a failure ends up settling as `HandleFailure` says. */
  lemma {:induction false} FailureRuns(
    kind: Kind, cfg: Config, w: World, id: nat, oracle: Oracle, f: Failure) returns (steps: nat)
    requires id in w.handlers && w.handlers[id].position == EventConsumers.Failing(kind, f)
    ensures
      var h := w.handlers[id];
      var r := HandleFailure(kind, cfg.maxRetries, w.tracker, h.event, f, []);
      var w' := RunHandler(kind, cfg, w, id, oracle, steps);
      At(w', id, h.(position := Settles(r.settlement)), r.tracker, w.published) && w'.messages == w.messages
  {
    if !Retryable(kind, f) {
      steps := 0;
    } else {
      var w1 := Advance(kind, cfg, w, id, oracle);
      OneStretch(kind, cfg, w, id, oracle);
      var w2 := Advance(kind, cfg, w1, id, oracle);
      OneStretch(kind, cfg, w1, id, oracle);
      assert RunHandler(kind, cfg, w, id, oracle, 2) == RunHandler(kind, cfg, w1, id, oracle, 1) == w2;
      steps := 2;
      if w2.handlers[id].position.Sleeping? {
        OneStretch(kind, cfg, w2, id, oracle);
        assert RunHandler(kind, cfg, w, id, oracle, 3) == RunHandler(kind, cfg, w1, id, oracle, 2)
            == RunHandler(kind, cfg, w2, id, oracle, 1) == Advance(kind, cfg, w2, id, oracle);
        steps := 3;
      }
    }
  }

  /** Running on after running is running longer. */
  lemma {:induction false} RunFurther(kind: Kind, cfg: Config, w: World, id: nat, oracle: Oracle, a: nat, b: nat)
    ensures RunHandler(kind, cfg, RunHandler(kind, cfg, w, id, oracle, a), id, oracle, b)
         == RunHandler(kind, cfg, w, id, oracle, a + b)
    decreases a
  {
    if a > 0 && id in w.handlers {
      var w1 := Advance(kind, cfg, w, id, oracle);
      RunFurther(kind, cfg, w1, id, oracle, a - 1, b);
      assert RunHandler(kind, cfg, w, id, oracle, a) == RunHandler(kind, cfg, w1, id, oracle, a - 1);
      assert RunHandler(kind, cfg, w, id, oracle, a + b) == RunHandler(kind, cfg, w1, id, oracle, a + b - 1);
    }
  }

  lemma {:induction false} MarkingRuns(kind: Kind, cfg: Config, w: World, id: nat, oracle: Oracle)
    requires id in w.handlers && w.handlers[id].position.Marking?
    ensures
      var h := w.handlers[id];
      var w' := RunHandler(kind, cfg, w, id, oracle, 2);
      && At(w', id, h.(position := Acking), w.tracker.Completed(h.event).Cleared(h.event), w.published)
      && w'.messages == w.messages
  {
    var w1 := Advance(kind, cfg, w, id, oracle);
    OneStretch(kind, cfg, w, id, oracle);
    OneStretch(kind, cfg, w1, id, oracle);
    assert RunHandler(kind, cfg, w, id, oracle, 2) == RunHandler(kind, cfg, w1, id, oracle, 1)
        == Advance(kind, cfg, w1, id, oracle);
  }

  /**
   * A handler of the machine that nobody interrupts does what the processor does: it reaches the
   * settlement, the tracker and the publications of `HandleAlone`.
   */
  lemma {:induction false} AloneIsARun(kind: Kind, cfg: Config, w: World, id: nat, oracle: Oracle) returns (steps: nat)
    requires id in w.handlers && w.handlers[id].position.Checking?
    ensures
      var h := w.handlers[id];
      var r := HandleAlone(kind, cfg.maxRetries, w.tracker, h.event, true, oracle);
      var w' := RunHandler(kind, cfg, w, id, oracle, steps);
      && At(w', id, h.(position := Settles(r.settlement)), r.tracker, w.published + r.published)
      && w'.messages == w.messages
  {
    var w1 := Advance(kind, cfg, w, id, oracle);
    OneStretch(kind, cfg, w, id, oracle);
    assert RunHandler(kind, cfg, w, id, oracle, 1) == w1;
    assert w.published + [] == w.published;
    if w1.handlers[id].position.Acking? {
      steps := 1;
    } else {
      var w2 := Advance(kind, cfg, w1, id, oracle);
      OneStretch(kind, cfg, w1, id, oracle);
      assert RunHandler(kind, cfg, w, id, oracle, 2) == RunHandler(kind, cfg, w1, id, oracle, 1) == w2;
      if oracle.execution.Some? {
        var more := FailureRuns(kind, cfg, w2, id, oracle, oracle.execution.value);
        RunFurther(kind, cfg, w, id, oracle, 2, more);
        steps := 2 + more;
      } else if !kind.Minutes? {
        MarkingRuns(kind, cfg, w2, id, oracle);
        RunFurther(kind, cfg, w, id, oracle, 2, 2);
        steps := 4;
      } else {
        var more := PublicationRuns(cfg, w2, id, oracle);
        RunFurther(kind, cfg, w, id, oracle, 2, more);
        steps := 2 + more;
      }
    }
  }

  lemma {:induction false} PublicationRuns(cfg: Config, w: World, id: nat, oracle: Oracle) returns (steps: nat)
    requires id in w.handlers && w.handlers[id].position.Publishing?
    requires w.handlers[id].event !in w.tracker.completed && oracle.execution.None?
    ensures
      var h := w.handlers[id];
      var r := HandleAlone(Minutes, cfg.maxRetries, w.tracker, h.event, true, oracle);
      var w' := RunHandler(Minutes, cfg, w, id, oracle, steps);
      && At(w', id, h.(position := Settles(r.settlement)), r.tracker, w.published + r.published)
      && w'.messages == w.messages
  {
    var w1 := Advance(Minutes, cfg, w, id, oracle);
    OneStretch(Minutes, cfg, w, id, oracle);
    assert RunHandler(Minutes, cfg, w, id, oracle, 1) == w1;
    assert w.published + [] == w.published;
    match oracle.publication
    case Confirmed =>
      MarkingRuns(Minutes, cfg, w1, id, oracle);
      RunFurther(Minutes, cfg, w, id, oracle, 1, 2);
      steps := 3;
    case NotConfirmed(f, _) =>
      var more := FailureRuns(Minutes, cfg, w1, id, oracle, f);
      RunFurther(Minutes, cfg, w, id, oracle, 1, more);
      steps := 1 + more;
  }

  // ---------- A poisonous message, handled again and again ----------

  /** The tracker after `n` handlings, each failing in a retryable way. */
  function AfterFailures(kind: Kind, maxRetries: nat, e: EventId, n: nat): Tracker {
    if n == 0 then NEW_TRACKER
    else HandleAlone(kind, maxRetries, AfterFailures(kind, maxRetries, e, n - 1), e, true,
                     Oracle(Some(Unexpected), Confirmed)).tracker
  }

  /** Handled one at a time, a message that always fails is requeued `maxRetries` times, then dead-lettered. */
  lemma {:induction false} PoisonousMessage(kind: Kind, maxRetries: nat, e: EventId, n: nat)
    ensures AfterFailures(kind, maxRetries, e, n) == Tracker({}, if n == 0 then map[] else map[e := n])
    ensures HandleAlone(kind, maxRetries, AfterFailures(kind, maxRetries, e, n), e, true,
                        Oracle(Some(Unexpected), Confirmed)).settlement == Reject(n < maxRetries)
  {
    if n > 0 {
      PoisonousMessage(kind, maxRetries, e, n - 1);
    }
  }
}
