/**
 * Why an event is dead-lettered or requeued (app/events/rabbit.py), in every interleaving of its
 * handlers: what each consumer does with which failure.
 */
module FailureCauses {
  import opened Basics
  import opened EventConsumers

  // ---------- What has happened in a run ----------

  /** The action lets a handler of the event fail this way, executing or publishing. */
  predicate FailsWith(w: World, a: Action, e: EventId, f: Failure) {
    && a.Proceed? && a.handler in w.handlers && w.handlers[a.handler].event == e
    && match w.handlers[a.handler].position
       case Executing => a.oracle.execution == Some(f)
       case Publishing => a.oracle.publication.NotConfirmed? && a.oracle.publication.failure == f
       case _ => false
  }

  /** The action lets a handler of the event decide on a count beyond the limit. */
  predicate GivesUp(maxRetries: nat, w: World, a: Action, e: EventId) {
    && a.Proceed? && a.handler in w.handlers && w.handlers[a.handler].event == e
    && w.handlers[a.handler].position.Deciding? && w.handlers[a.handler].position.count > maxRetries
  }

  ghost predicate HasFailed(kind: Kind, cfg: Config, actions: seq<Action>, e: EventId, f: Failure) {
    exists i :: 0 <= i < |actions| && FailsWith(Run(kind, cfg, actions[..i]), actions[i], e, f)
  }

  ghost predicate HasGivenUp(kind: Kind, cfg: Config, actions: seq<Action>, e: EventId) {
    exists i :: 0 <= i < |actions| && GivesUp(cfg.maxRetries, Run(kind, cfg, actions[..i]), actions[i], e)
  }

  /** A failure that no retry can help, or too many of the others; for removals every `AiError`. */
  ghost predicate MayReject(kind: Kind, cfg: Config, actions: seq<Action>, e: EventId) {
    || HasFailed(kind, cfg, actions, e, AiError(false))
    || (kind == Removal && HasFailed(kind, cfg, actions, e, AiError(true)))
    || HasGivenUp(kind, cfg, actions, e)
  }

  /** A failure that is worth a retry: no `AiError`, or, but for removals, a retryable one. */
  ghost predicate MayRequeue(kind: Kind, cfg: Config, actions: seq<Action>, e: EventId) {
    || HasFailed(kind, cfg, actions, e, Unexpected)
    || (kind != Removal && HasFailed(kind, cfg, actions, e, AiError(true)))
  }

  lemma {:induction false} StillHasFailed(
    kind: Kind, cfg: Config, before: seq<Action>, a: Action, e: EventId, f: Failure)
    ensures HasFailed(kind, cfg, before, e, f) ==> HasFailed(kind, cfg, before + [a], e, f)
    ensures FailsWith(Run(kind, cfg, before), a, e, f) ==> HasFailed(kind, cfg, before + [a], e, f)
  {
    var all := before + [a];
    if HasFailed(kind, cfg, before, e, f) {
      var i :| 0 <= i < |before| && FailsWith(Run(kind, cfg, before[..i]), before[i], e, f);
      assert all[..i] == before[..i] && all[i] == before[i];
    }
    assert all[..|before|] == before && all[|before|] == a;
  }

  lemma {:induction false} StillHasGivenUp(kind: Kind, cfg: Config, before: seq<Action>, a: Action, e: EventId)
    ensures HasGivenUp(kind, cfg, before, e) ==> HasGivenUp(kind, cfg, before + [a], e)
    ensures GivesUp(cfg.maxRetries, Run(kind, cfg, before), a, e) ==> HasGivenUp(kind, cfg, before + [a], e)
  {
    var all := before + [a];
    if HasGivenUp(kind, cfg, before, e) {
      var i :| 0 <= i < |before| && GivesUp(cfg.maxRetries, Run(kind, cfg, before[..i]), before[i], e);
      assert all[..i] == before[..i] && all[i] == before[i];
    }
    assert all[..|before|] == before && all[|before|] == a;
  }

  lemma {:induction false} StillHappened(kind: Kind, cfg: Config, before: seq<Action>, a: Action, e: EventId)
    ensures forall f :: HasFailed(kind, cfg, before, e, f) ==> HasFailed(kind, cfg, before + [a], e, f)
    ensures forall f :: FailsWith(Run(kind, cfg, before), a, e, f) ==> HasFailed(kind, cfg, before + [a], e, f)
    ensures HasGivenUp(kind, cfg, before, e) ==> HasGivenUp(kind, cfg, before + [a], e)
    ensures GivesUp(cfg.maxRetries, Run(kind, cfg, before), a, e) ==> HasGivenUp(kind, cfg, before + [a], e)
  {
    forall f {
      StillHasFailed(kind, cfg, before, a, e, f);
    }
    StillHasGivenUp(kind, cfg, before, a, e);
  }

  // ---------- What every run keeps ----------

  ghost predicate HandlerHasCause(kind: Kind, cfg: Config, actions: seq<Action>, w: World, h: Handler) {
    && (h.position.Rejecting? ==>
          MayReject(kind, cfg, actions, h.event) || (h.message in w.messages && !w.messages[h.message].readable))
    && (h.position.Counting? || h.position.Deciding? || h.position.Sleeping? || h.position.Requeueing? ==>
          MayRequeue(kind, cfg, actions, h.event))
  }

  /** Whoever rejects or requeues has a reason, and so has whatever was rejected or requeued. */
  ghost predicate AllHaveCauses(kind: Kind, cfg: Config, actions: seq<Action>, w: World) {
    && (forall id :: id in w.handlers ==> HandlerHasCause(kind, cfg, actions, w, w.handlers[id]))
    && (forall m :: m in w.messages && w.messages[m].status.DeadLettered? && w.messages[m].readable ==>
          MayReject(kind, cfg, actions, w.messages[m].event))
    && (forall e :: w.requeued[e] > 0 ==> MayRequeue(kind, cfg, actions, e))
  }

  lemma {:induction false} MayStill(kind: Kind, cfg: Config, before: seq<Action>, a: Action, e: EventId)
    ensures MayReject(kind, cfg, before, e) ==> MayReject(kind, cfg, before + [a], e)
    ensures MayRequeue(kind, cfg, before, e) ==> MayRequeue(kind, cfg, before + [a], e)
  {
    hide HasFailed, HasGivenUp;
    StillHappened(kind, cfg, before, a, e);
  }

  lemma {:induction false} CausesStay(kind: Kind, cfg: Config, before: seq<Action>, a: Action, w: World)
    requires AllHaveCauses(kind, cfg, before, w)
    ensures AllHaveCauses(kind, cfg, before + [a], w)
  {
    hide MayReject, MayRequeue;
    var after := before + [a];
    forall id | id in w.handlers ensures HandlerHasCause(kind, cfg, after, w, w.handlers[id]) {
      MayStill(kind, cfg, before, a, w.handlers[id].event);
    }
    forall m | m in w.messages && w.messages[m].status.DeadLettered? && w.messages[m].readable
      ensures MayReject(kind, cfg, after, w.messages[m].event)
    {
      MayStill(kind, cfg, before, a, w.messages[m].event);
    }
    forall e | w.requeued[e] > 0 ensures MayRequeue(kind, cfg, after, e) {
      MayStill(kind, cfg, before, a, e);
    }
  }

  /** A failure is a cause for one of the two. */
  lemma {:induction false} FailureIsCause(
    kind: Kind, cfg: Config, before: seq<Action>, a: Action, e: EventId, f: Failure)
    requires FailsWith(Run(kind, cfg, before), a, e, f)
    ensures if f.Unexpected? || (kind != Removal && f.retryable)
            then MayRequeue(kind, cfg, before + [a], e) else MayReject(kind, cfg, before + [a], e)
  {
    hide HasFailed, HasGivenUp, Run;
    StillHasFailed(kind, cfg, before, a, e, f);
  }

  lemma {:induction false} GivingUpIsCause(kind: Kind, cfg: Config, before: seq<Action>, a: Action, e: EventId)
    requires GivesUp(cfg.maxRetries, Run(kind, cfg, before), a, e)
    ensures MayReject(kind, cfg, before + [a], e)
  {
    StillHasGivenUp(kind, cfg, before, a, e);
  }

  /** The next position of a handler has its cause. */
  lemma {:induction false} AdvancedHasCause(kind: Kind, cfg: Config, before: seq<Action>, id: nat, oracle: Oracle)
    requires
      var w := Run(kind, cfg, before);
      && id in w.handlers && !Settling(w.handlers[id].position)
      && HandlerHasCause(kind, cfg, before + [Proceed(id, oracle)], w, w.handlers[id])
    ensures
      var w := Run(kind, cfg, before);
      HandlerHasCause(kind, cfg, before + [Proceed(id, oracle)], w, Advance(kind, cfg, w, id, oracle).handlers[id])
  {
    hide MayReject, MayRequeue, Run;
    var a, h := Proceed(id, oracle), Run(kind, cfg, before).handlers[id];
    match h.position
    case Executing =>
      if oracle.execution.Some? {
        FailureIsCause(kind, cfg, before, a, h.event, oracle.execution.value);
      }
    case Publishing =>
      if oracle.publication.NotConfirmed? {
        FailureIsCause(kind, cfg, before, a, h.event, oracle.publication.failure);
      }
    case Deciding(count) =>
      if count > cfg.maxRetries {
        GivingUpIsCause(kind, cfg, before, a, h.event);
      }
    case _ =>
  }

  lemma {:induction false} SettleHasCauses(kind: Kind, cfg: Config, actions: seq<Action>, w: World, id: nat)
    requires Linked(w) && AllHaveCauses(kind, cfg, actions, w)
    requires id in w.handlers && Settling(w.handlers[id].position)
    ensures AllHaveCauses(kind, cfg, actions, SettleMessage(w, id))
  {
    hide MayReject, MayRequeue;
    assert HandlerHasCause(kind, cfg, actions, w, w.handlers[id]);
  }

  lemma {:induction false} AdvanceHasCauses(
    kind: Kind, cfg: Config, actions: seq<Action>, w: World, id: nat, oracle: Oracle)
    requires Linked(w) && AllHaveCauses(kind, cfg, actions, w)
    requires id in w.handlers && !Settling(w.handlers[id].position)
    requires HandlerHasCause(kind, cfg, actions, w, Advance(kind, cfg, w, id, oracle).handlers[id])
    ensures AllHaveCauses(kind, cfg, actions, Advance(kind, cfg, w, id, oracle))
  {
    hide MayReject, MayRequeue, NextPosition, NextTracker, NextPublished;
  }

  lemma {:induction false} ApplyHasCauses(kind: Kind, cfg: Config, actions: seq<Action>, w: World, a: Action)
    requires Linked(w) && Enabled(cfg, w, a) && AllHaveCauses(kind, cfg, actions, w)
    requires a.Proceed? && !Settling(w.handlers[a.handler].position) ==>
      HandlerHasCause(kind, cfg, actions, w, Advance(kind, cfg, w, a.handler, a.oracle).handlers[a.handler])
    ensures AllHaveCauses(kind, cfg, actions, Apply(kind, cfg, w, a))
  {
    hide MayReject, MayRequeue, NextPosition;
    if a.Proceed? {
      if Settling(w.handlers[a.handler].position) {
        SettleHasCauses(kind, cfg, actions, w, a.handler);
      } else {
        AdvanceHasCauses(kind, cfg, actions, w, a.handler, a.oracle);
      }
    }
  }

  lemma {:induction false} RunHasCauses(kind: Kind, cfg: Config, actions: seq<Action>)
    ensures AllHaveCauses(kind, cfg, actions, Run(kind, cfg, actions))
  {
    hide AllHaveCauses, Apply, Advance, HandlerHasCause;
    if actions == [] {
      NothingHasCauses(kind, cfg);
    } else {
      var n := |actions| - 1;
      var before, a := actions[..n], actions[n];
      var w := Run(kind, cfg, before);
      assert before + [a] == actions;
      RunHasCauses(kind, cfg, before);
      RunLinked(kind, cfg, before);
      CausesStay(kind, cfg, before, a, w);
      if Enabled(cfg, w, a) {
        if a.Proceed? && !Settling(w.handlers[a.handler].position) {
          OneHasCause(kind, cfg, actions, w, a.handler);
          AdvancedHasCause(kind, cfg, before, a.handler, a.oracle);
        }
        ApplyHasCauses(kind, cfg, actions, w, a);
      }
    }
  }

  lemma {:induction false} NothingHasCauses(kind: Kind, cfg: Config)
    ensures AllHaveCauses(kind, cfg, [], INITIAL_WORLD)
  {
  }

  lemma {:induction false} OneHasCause(kind: Kind, cfg: Config, actions: seq<Action>, w: World, id: nat)
    requires AllHaveCauses(kind, cfg, actions, w) && id in w.handlers
    ensures HandlerHasCause(kind, cfg, actions, w, w.handlers[id])
  {
  }

  /**
   * However handlers interleave, die and are replaced, and whatever the tracker forgets: a readable
   * message is dead-lettered only after its event failed in a way no retry can help, or was counted
   * beyond the limit; and an event is requeued only after it failed in a way that is worth a retry.
   */
  lemma {:induction false} RejectedForCause(kind: Kind, cfg: Config, actions: seq<Action>, m: nat)
    requires m in Run(kind, cfg, actions).messages
    requires Run(kind, cfg, actions).messages[m].status.DeadLettered? && Run(kind, cfg, actions).messages[m].readable
    ensures MayReject(kind, cfg, actions, Run(kind, cfg, actions).messages[m].event)
  {
    RunHasCauses(kind, cfg, actions);
  }

  lemma {:induction false} RequeuedForCause(kind: Kind, cfg: Config, actions: seq<Action>, e: EventId)
    requires Run(kind, cfg, actions).requeued[e] > 0
    ensures MayRequeue(kind, cfg, actions, e)
  {
    RunHasCauses(kind, cfg, actions);
  }
}
