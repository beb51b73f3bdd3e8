/**
 * The RabbitMQ consumers (app/events/rabbit.py) as a machine of interleaving handlers: every
 * `await` is a point where other handlers run, a handler may die anywhere, and the broker may
 * take back an unsettled message at any time while its old handler still runs.
 */
module EventConsumers {
  import opened Basics
  import opened Uuids

  type EventId = Uuid

  datatype Kind = Minutes | Index | Removal

  datatype Failure = AiError(retryable: bool) | Unexpected

  /** The removal consumer dead-letters every `AiError`, whatever its `retryable` says. */
  predicate Retryable(kind: Kind, f: Failure) {
    f.Unexpected? || (!kind.Removal? && f.retryable)
  }

  // ---------- The trackers' value ----------

  datatype Tracker = Tracker(completed: set<EventId>, retries: map<EventId, nat>)
  {
    function Count(e: EventId): nat { if e in retries then retries[e] else 0 }
    function Completed(e: EventId): Tracker { this.(completed := completed + {e}) }
    function Cleared(e: EventId): Tracker { this.(retries := retries - {e}) }
    function Counted(e: EventId): Tracker { this.(retries := retries[e := Count(e) + 1]) }
  }

  const NEW_TRACKER := Tracker({}, map[])

  // ---------- Published envelopes ----------

  function OutputId(source: EventId): NameUuid {
    Uuid5("minutes.generated:" + ToText(source))
  }

  datatype Envelope = Envelope(eventId: NameUuid, source: EventId)

  function GeneratedEvent(source: EventId): Envelope {
    Envelope(OutputId(source), source)
  }

  // ---------- Handlers and messages ----------

  /** Where a handler is between two awaits. */
  datatype Position =
    | Checking
    | Executing
    | Publishing
    | Marking
    | Clearing
    | Acking
    | Counting
    | Deciding(count: nat)
    | Sleeping(count: nat)
    | Requeueing
    | Rejecting

  datatype Handler = Handler(message: nat, event: EventId, position: Position)

  datatype Status = Ready | Unsettled(handler: nat) | Acked | DeadLettered

  /** A message whose body cannot be read still carries the event it was meant to. */
  datatype Message = Message(event: EventId, readable: bool, status: Status)

  /** What the surroundings answer to one handler. */
  datatype Oracle = Oracle(execution: Option<Failure>, publication: Publication)

  /** A failed publication may have reached the broker all the same. */
  datatype Publication = Confirmed | NotConfirmed(failure: Failure, arrived: bool)

  datatype Config = Config(maxRetries: nat, handlersPerEvent: nat)

  datatype World = World(
    messages: map<nat, Message>,
    handlers: map<nat, Handler>,
    nextHandler: nat,
    tracker: Tracker,
    published: seq<Envelope>,
    delivered: multiset<EventId>,
    requeued: multiset<EventId>,
    dropped: multiset<EventId>)

  const INITIAL_WORLD := World(map[], map[], 0, NEW_TRACKER, [], multiset{}, multiset{}, multiset{})

  datatype Action =
    | Arrive(message: nat, event: EventId, readable: bool)
    | Deliver(message: nat)
    | Proceed(handler: nat, oracle: Oracle)
    | Kill(handler: nat)
    | Drop(message: nat)
    | Forget
    | ExpireCompleted(event: EventId)
    | ExpireRetries(event: EventId)

  // ---------- One await-free stretch of a handler ----------

  function Failing(kind: Kind, f: Failure): Position {
    if Retryable(kind, f) then Counting else Rejecting
  }

  function AfterExecution(kind: Kind, execution: Option<Failure>): Position {
    if execution.Some? then Failing(kind, execution.value)
    else if kind.Minutes? then Publishing
    else Marking
  }

  function AfterDecision(kind: Kind, maxRetries: nat, count: nat): Position {
    if count > maxRetries then Rejecting
    else if kind.Minutes? then Sleeping(count)
    else Requeueing
  }

  predicate Settling(p: Position) {
    p.Acking? || p.Requeueing? || p.Rejecting?
  }

  /** The position a handler reaches, when it does not settle its message. */
  function NextPosition(kind: Kind, maxRetries: nat, t: Tracker, h: Handler, oracle: Oracle): Position
    requires !Settling(h.position)
  {
    match h.position
    case Checking => if h.event in t.completed then Acking else Executing
    case Executing => AfterExecution(kind, oracle.execution)
    case Publishing =>
      if oracle.publication.Confirmed? then Marking else Failing(kind, oracle.publication.failure)
    case Marking => Clearing
    case Clearing => Acking
    case Counting => Deciding(t.Count(h.event) + 1)
    case Deciding(count) => AfterDecision(kind, maxRetries, count)
    case Sleeping(_) => Requeueing
  }

  function NextTracker(t: Tracker, h: Handler): Tracker {
    match h.position
    case Marking => t.Completed(h.event)
    case Clearing => t.Cleared(h.event)
    case Counting => t.Counted(h.event)
    case _ => t
  }

  function NextPublished(published: seq<Envelope>, h: Handler, oracle: Oracle): seq<Envelope> {
    if h.position.Publishing? && (oracle.publication.Confirmed? || oracle.publication.arrived)
    then published + [GeneratedEvent(h.event)]
    else published
  }

  function SettledStatus(p: Position): Status
    requires Settling(p)
  {
    if p.Acking? then Acked else if p.Requeueing? then Ready else DeadLettered
  }

  /** Settle the message, if this handler's delivery is still the valid one, and end the handler. */
  function SettleMessage(w: World, id: nat): World
    requires id in w.handlers && Settling(w.handlers[id].position)
  {
    var h := w.handlers[id];
    var gone := w.(handlers := w.handlers - {id});
    if h.message in w.messages && w.messages[h.message].status == Unsettled(id) then
      gone.(messages := w.messages[h.message := w.messages[h.message].(status := SettledStatus(h.position))],
            requeued := if h.position.Requeueing?
                        then w.requeued + multiset{h.event} else w.requeued)
    else gone
  }

  function Advance(kind: Kind, cfg: Config, w: World, id: nat, oracle: Oracle): World
    requires id in w.handlers
  {
    var h := w.handlers[id];
    if Settling(h.position) then SettleMessage(w, id)
    else w.(
      handlers := w.handlers[id := h.(position := NextPosition(kind, cfg.maxRetries, w.tracker, h, oracle))],
      tracker := NextTracker(w.tracker, h),
      published := NextPublished(w.published, h, oracle))
  }

  /** The handlers of an event that are running, whether or not their delivery is still valid. */
  function HandlersOf(w: World, e: EventId): set<nat> {
    set id | id in w.handlers && w.handlers[id].event == e
  }

  predicate Enabled(cfg: Config, w: World, a: Action) {
    match a
    case Arrive(m, _, _) => m !in w.messages
    case Deliver(m) =>
      && m in w.messages && w.messages[m].status.Ready?
      && |HandlersOf(w, w.messages[m].event)| < cfg.handlersPerEvent
    case Proceed(id, _) => id in w.handlers
    case Kill(id) => id in w.handlers
    case Drop(m) => m in w.messages && w.messages[m].status.Unsettled?
    case Forget => true
    case ExpireCompleted(_) => true
    case ExpireRetries(_) => true
  }

  function Apply(kind: Kind, cfg: Config, w: World, a: Action): World
    requires Enabled(cfg, w, a)
  {
    match a
    case Arrive(m, e, readable) => w.(messages := w.messages[m := Message(e, readable, Ready)])
    case Deliver(m) =>
      var message := w.messages[m];
      w.(messages := w.messages[m := message.(status := Unsettled(w.nextHandler))],
         handlers := w.handlers[w.nextHandler :=
           Handler(m, message.event, if message.readable then Checking else Rejecting)],
         nextHandler := w.nextHandler + 1,
         delivered := w.delivered + multiset{message.event})
    case Proceed(id, oracle) => Advance(kind, cfg, w, id, oracle)
    case Kill(id) => w.(handlers := w.handlers - {id})
    case Drop(m) =>
      w.(messages := w.messages[m := w.messages[m].(status := Ready)],
         dropped := w.dropped + multiset{w.messages[m].event})
    case Forget => w.(tracker := NEW_TRACKER)
    case ExpireCompleted(e) => w.(tracker := w.tracker.(completed := w.tracker.completed - {e}))
    case ExpireRetries(e) => w.(tracker := w.tracker.Cleared(e))
  }

  /** Actions that find nothing to do are skipped. */
  function Run(kind: Kind, cfg: Config, actions: seq<Action>): World {
    if actions == [] then INITIAL_WORLD
    else
      var w := Run(kind, cfg, actions[..|actions| - 1]);
      var a := actions[|actions| - 1];
      if Enabled(cfg, w, a) then Apply(kind, cfg, w, a) else w
  }

  // ---------- What is always true ----------

  /** Handlers know their message, and handler numbers are not reused. */
  ghost predicate Linked(w: World) {
    && (forall id :: id in w.handlers ==>
          && id < w.nextHandler
          && w.handlers[id].message in w.messages
          && w.messages[w.handlers[id].message].event == w.handlers[id].event)
    && (forall m :: m in w.messages && w.messages[m].status.Unsettled? ==>
          w.messages[m].status.handler < w.nextHandler)
  }

  lemma {:induction false} ApplyLinked(kind: Kind, cfg: Config, w: World, a: Action)
    requires Linked(w) && Enabled(cfg, w, a)
    ensures Linked(Apply(kind, cfg, w, a))
  {
  }

  lemma {:induction false} RunLinked(kind: Kind, cfg: Config, actions: seq<Action>)
    ensures Linked(Run(kind, cfg, actions))
  {
    if actions != [] {
      var init := actions[..|actions| - 1];
      RunLinked(kind, cfg, init);
      if Enabled(cfg, Run(kind, cfg, init), actions[|actions| - 1]) {
        ApplyLinked(kind, cfg, Run(kind, cfg, init), actions[|actions| - 1]);
      }
    }
  }

  // ---------- An acknowledged minutes event was published ----------

  function Sources(published: seq<Envelope>): set<EventId> {
    if published == [] then {}
    else Sources(published[..|published| - 1]) + {published[|published| - 1].source}
  }

  lemma {:induction false} SourcesSnoc(published: seq<Envelope>, e: Envelope)
    ensures Sources(published + [e]) == Sources(published) + {e.source}
  {
    assert (published + [e])[..|published|] == published;
  }

  predicate PastPublication(p: Position) {
    p.Marking? || p.Clearing? || p.Acking?
  }

  ghost predicate AckedIsPublished(w: World) {
    var sources := Sources(w.published);
    && w.tracker.completed <= sources
    && (forall id :: id in w.handlers && PastPublication(w.handlers[id].position) ==>
          w.handlers[id].event in sources)
    && (forall m :: m in w.messages && w.messages[m].status.Acked? ==> w.messages[m].event in sources)
  }

  lemma {:induction false} AdvancePublished(cfg: Config, w: World, id: nat, oracle: Oracle)
    requires Linked(w) && AckedIsPublished(w) && id in w.handlers
    ensures AckedIsPublished(Advance(Minutes, cfg, w, id, oracle))
  {
    SourcesSnoc(w.published, GeneratedEvent(w.handlers[id].event));
  }

  lemma {:induction false} ApplyPublished(cfg: Config, w: World, a: Action)
    requires Linked(w) && AckedIsPublished(w) && Enabled(cfg, w, a)
    ensures AckedIsPublished(Apply(Minutes, cfg, w, a))
  {
    if a.Proceed? {
      AdvancePublished(cfg, w, a.handler, a.oracle);
    }
  }

  lemma {:induction false} RunPublished(cfg: Config, actions: seq<Action>)
    ensures AckedIsPublished(Run(Minutes, cfg, actions))
  {
    if actions != [] {
      var init := actions[..|actions| - 1];
      var w, a := Run(Minutes, cfg, init), actions[|actions| - 1];
      RunPublished(cfg, init);
      RunLinked(Minutes, cfg, init);
      if Enabled(cfg, w, a) {
        ApplyPublished(cfg, w, a);
      }
    }
  }

  // ---------- A receiver that drops known ids ----------

  predicate Known(inbox: seq<Envelope>, id: NameUuid) {
    exists i :: 0 <= i < |inbox| && inbox[i].eventId == id
  }

  /** What a receiver keeps that drops every envelope whose id it has seen. */
  function Inbox(published: seq<Envelope>): seq<Envelope> {
    if published == [] then []
    else
      var inbox := Inbox(published[..|published| - 1]);
      var last := published[|published| - 1];
      if Known(inbox, last.eventId) then inbox else inbox + [last]
  }

  ghost predicate IdsFollowSources(published: seq<Envelope>) {
    forall i :: 0 <= i < |published| ==> published[i].eventId == OutputId(published[i].source)
  }

  lemma {:induction false} OutputIdInjective(e: EventId, e': EventId)
    requires OutputId(e) == OutputId(e')
    ensures e == e'
  {
    var prefix := "minutes.generated:";
    assert OutputId(e).name[|prefix|..] == ToText(e);
    assert OutputId(e').name[|prefix|..] == ToText(e');
    ToTextInjective(e, e');
  }

  lemma {:induction false} InboxSpec(published: seq<Envelope>)
    requires IdsFollowSources(published)
    ensures IdsFollowSources(Inbox(published))
    ensures Sources(Inbox(published)) == Sources(published)
    ensures forall i, j :: 0 <= i < j < |Inbox(published)| ==>
      Inbox(published)[i].source != Inbox(published)[j].source
  {
    if published != [] {
      var init := published[..|published| - 1];
      var last := published[|published| - 1];
      InboxSpec(init);
      var inbox := Inbox(init);
      if Known(inbox, last.eventId) {
        var i :| 0 <= i < |inbox| && inbox[i].eventId == last.eventId;
        OutputIdInjective(inbox[i].source, last.source);
        SourceOfMember(inbox, i);
      } else {
        SourcesSnoc(inbox, last);
      }
    }
  }

  lemma {:induction false} SourceOfMember(published: seq<Envelope>, i: nat)
    requires i < |published|
    ensures published[i].source in Sources(published)
  {
    if i < |published| - 1 {
      SourceOfMember(published[..|published| - 1], i);
    }
  }

  lemma {:induction false} MemberOfSource(published: seq<Envelope>, e: EventId) returns (i: nat)
    requires e in Sources(published)
    ensures i < |published| && published[i].source == e
  {
    if published[|published| - 1].source == e {
      i := |published| - 1;
    } else {
      i := MemberOfSource(published[..|published| - 1], e);
    }
  }

  lemma {:induction false} AdvanceIds(kind: Kind, cfg: Config, w: World, a: Action)
    requires Enabled(cfg, w, a) && IdsFollowSources(w.published)
    ensures IdsFollowSources(Apply(kind, cfg, w, a).published)
  {
  }

  lemma {:induction false} RunIds(kind: Kind, cfg: Config, actions: seq<Action>)
    ensures IdsFollowSources(Run(kind, cfg, actions).published)
  {
    if actions != [] {
      var init := actions[..|actions| - 1];
      RunIds(kind, cfg, init);
      if Enabled(cfg, Run(kind, cfg, init), actions[|actions| - 1]) {
        AdvanceIds(kind, cfg, Run(kind, cfg, init), actions[|actions| - 1]);
      }
    }
  }

  /**
   * However handlers interleave, die and are replaced, and whatever the tracker forgets, two
   * publications carry the same id exactly when they come from the same event.
   */
  lemma {:induction false} SameIdSameSource(cfg: Config, actions: seq<Action>, i: nat, j: nat)
    requires i < |Run(Minutes, cfg, actions).published| && j < |Run(Minutes, cfg, actions).published|
    ensures
      var published := Run(Minutes, cfg, actions).published;
      published[i].eventId == published[j].eventId <==> published[i].source == published[j].source
  {
    RunIds(Minutes, cfg, actions);
    var published := Run(Minutes, cfg, actions).published;
    if published[i].eventId == published[j].eventId {
      OutputIdInjective(published[i].source, published[j].source);
    }
  }

  /** ... and an acknowledged event reaches a receiver that drops known ids exactly once. */
  lemma {:induction false} AckedReachesInboxOnce(cfg: Config, actions: seq<Action>, m: nat) returns (i: nat)
    requires m in Run(Minutes, cfg, actions).messages
    requires Run(Minutes, cfg, actions).messages[m].status.Acked?
    ensures
      var w := Run(Minutes, cfg, actions);
      var inbox, e := Inbox(w.published), w.messages[m].event;
      && i < |inbox| && inbox[i] == GeneratedEvent(e)
      && forall j :: 0 <= j < |inbox| && j != i ==> inbox[j].source != e
  {
    RunPublished(cfg, actions);
    RunIds(Minutes, cfg, actions);
    var w := Run(Minutes, cfg, actions);
    InboxSpec(w.published);
    i := MemberOfSource(Inbox(w.published), w.messages[m].event);
  }
}
