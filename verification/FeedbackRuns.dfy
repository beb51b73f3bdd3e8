/** Whole runs of the feedback processor: any number of calls, ticks, windows and clean-ups. */
module FeedbackRuns {
  import opened Basics
  import opened FeedbackModel
  import opened WindowHistory

  /** The consumer loop's clean-up, or the handling of one stream entry with its surroundings. */
  datatype Input =
    | Tick(now: int)
    | Arrival(now: int, event: RawEvent, workflow: Command -> WorkflowOutcome, publish: PublishOutcome)

  /** The input is a segment event that meets its schema. */
  predicate FromSchema(input: Input) {
    input.Arrival? && input.event.SegmentCreated? && input.event.payload.MeetsSchema()
  }

  /** The processor's state, and what happened so far to each of its windows and to its publisher. */
  datatype World = World(state: State, lives: map<WindowKey, Life>, published: seq<Publication>)

  const INITIAL_WORLD := World(INITIAL_STATE, map[], [])

  function Step(cfg: Config, fp: seq<Segment> -> string, s: State, input: Input): (State, Effect)
    requires cfg.maxSegments >= 1
  {
    match input
    case Tick(now) => (Cleanup(cfg, s, now), NO_EFFECT)
    case Arrival(now, event, workflow, publish) => Process(cfg, fp, s, event, now, workflow, publish)
  }

  /** The windows that outlive the clean-up an input starts with. */
  function Survivors(cfg: Config, s: State, input: Input): map<WindowKey, Window> {
    if input.Arrival? && !(input.event.SegmentCreated? && input.event.payload.isFinal) then s.windows
    else Cleanup(cfg, s, input.now).windows
  }

  function Recorded(life: Life, e: Effect): Life
    requires e.admitted.Some?
  {
    var admitted := life.admitted + [e.admitted.value.1];
    match e.query
    case None => life.(admitted := admitted)
    case Some((command, succeeded)) =>
      var from := Max(0, |admitted| - |command.transcriptWindow|);
      Life(admitted, life.queries + [Query(from, |admitted|, command, NewestEnd(admitted), succeeded)])
  }

  function LifeAfter(cfg: Config, w: World, input: Input, e: Effect, key: WindowKey): Life {
    var life := if key in Survivors(cfg, w.state, input) && key in w.lives then w.lives[key] else NEW_LIFE;
    if e.admitted.Some? && e.admitted.value.0 == key then Recorded(life, e) else life
  }

  function Advance(cfg: Config, fp: seq<Segment> -> string, w: World, input: Input): World
    requires cfg.maxSegments >= 1
  {
    var (s', e) := Step(cfg, fp, w.state, input);
    World(s',
          map k | k in s'.windows :: LifeAfter(cfg, w, input, e, k),
          w.published + if e.published.Some? then [e.published.value] else [])
  }

  function Run(cfg: Config, fp: seq<Segment> -> string, inputs: seq<Input>): World
    requires cfg.maxSegments >= 1
  {
    if inputs == [] then INITIAL_WORLD
    else Advance(cfg, fp, Run(cfg, fp, inputs[..|inputs| - 1]), inputs[|inputs| - 1])
  }

  ghost predicate Follows(cfg: Config, fp: seq<Segment> -> string, w: World, w': World)
    requires cfg.maxSegments >= 1
  {
    exists input :: w' == Advance(cfg, fp, w, input)
  }

  /** Some run of the processor leads here. */
  ghost predicate Reachable(cfg: Config, fp: seq<Segment> -> string, w: World)
    requires cfg.maxSegments >= 1
  {
    exists trace: seq<World> ::
      && trace != [] && trace[0] == INITIAL_WORLD && trace[|trace| - 1] == w
      && forall i :: 0 <= i < |trace| - 1 ==> Follows(cfg, fp, trace[i], trace[i + 1])
  }

  // ---------- Windows ----------

  ghost predicate WindowsConsistent(cfg: Config, fp: seq<Segment> -> string, w: World) {
    && w.lives.Keys == w.state.windows.Keys
    && forall k :: k in w.lives ==> Consistent(cfg, fp, w.state.windows[k], w.lives[k])
  }

  /** What a query leaves in its window. */
  function Gated(w: Window, fp: seq<Segment> -> string, endedAtMs: nat, succeeded: bool): Window {
    if succeeded
    then w.(lastQueryEndedAtMs := Some(endedAtMs), lastQueryFingerprint := Some(fp(w.segments)))
    else w
  }

  lemma {:induction false} SettleShape(
    cfg: Config, s: State, event: RawEvent, attempt: Attempt, publish: PublishOutcome, taken: Effect)
    requires event.SegmentCreated? && event.payload.Key() in s.windows
    requires taken.query == None && taken.published == None
    ensures
      var (s', e) := Settle(cfg, s, event, attempt, publish, taken);
      var p := event.payload;
      && e.admitted == taken.admitted
      && e.query == (if attempt.NotDue? then None else Some((attempt.command, attempt.Answered?)))
      && s'.windows == (if attempt.Answered?
                        then Queried(s, p.Key(), p.endedAtMs, attempt.fingerprint).windows else s.windows)
      && (e.published == None ==> s'.lastPublishedAt == s.lastPublishedAt)
      && (e.published.Some? ==>
            && attempt.Answered? && attempt.feedback == Some(e.published.value.feedback)
            && !CoolingDown(cfg, s.lastPublishedAt, e.published.value.feedback)
            && s'.lastPublishedAt == s.lastPublishedAt[KeyOf(e.published.value) :=
                                                       e.published.value.feedback.generatedAt])
  {
  }

  lemma {:induction false} TryQueryFacts(
    cfg: Config, fp: seq<Segment> -> string, w: Window, event: RawEvent, workflow: Command -> WorkflowOutcome)
    requires event.SegmentCreated?
    ensures
      var attempt := TryQuery(cfg, fp, w, event, workflow);
      && (!attempt.NotDue? ==>
            attempt.command == CommandFor(event, w.segments) && Ripe(cfg, w, event.payload.endedAtMs))
      && (attempt.Answered? ==> attempt.fingerprint == fp(w.segments))
      && (attempt.Answered? && attempt.feedback.Some? ==>
            workflow(CommandFor(event, w.segments)) == Generated(attempt.feedback.value))
  {
  }

  lemma {:induction false} EvaluateShape(
    cfg: Config, fp: seq<Segment> -> string, s: State, event: RawEvent,
    workflow: Command -> WorkflowOutcome, publish: PublishOutcome, taken: Effect)
    requires event.SegmentCreated? && event.payload.Key() in s.windows
    requires taken.query == None && taken.published == None
    ensures
      var (s', e) := Evaluate(cfg, fp, s, event, workflow, publish, taken);
      var key := event.payload.Key();
      var w := s.windows[key];
      && e.admitted == taken.admitted
      && (e.query.Some? ==>
            e.query.value.0 == CommandFor(event, w.segments) && Ripe(cfg, w, event.payload.endedAtMs))
      && s'.windows == s.windows[key :=
           if e.query.Some? then Gated(w, fp, event.payload.endedAtMs, e.query.value.1) else w]
  {
    var key := event.payload.Key();
    var w := s.windows[key];
    assert s.windows[key := w] == s.windows;
    TryQueryFacts(cfg, fp, w, event, workflow);
    SettleShape(cfg, s, event, TryQuery(cfg, fp, w, event, workflow), publish, taken);
  }

  /** An event touches no window but its own, except that clean-up may remove expired ones. */
  lemma {:induction false} OtherWindowsUntouched(
    cfg: Config, fp: seq<Segment> -> string, s: State, event: RawEvent, now: int,
    workflow: Command -> WorkflowOutcome, publish: PublishOutcome, key: WindowKey)
    requires cfg.maxSegments >= 1
    requires event.SegmentCreated? && event.payload.isFinal ==> key != event.payload.Key()
    ensures
      var s' := Process(cfg, fp, s, event, now, workflow, publish).0;
      && (key in s'.windows ==> key in s.windows && s'.windows[key] == s.windows[key])
      && (key in s.windows && key !in s'.windows ==> WindowExpired(cfg, s.windows[key], now))
  {
    if event.SegmentCreated? && event.payload.isFinal {
      var (s1, verdict) := Intake(cfg, s, event.payload, now);
      if verdict.Taken? {
        EvaluateShape(cfg, fp, s1, event, workflow, publish,
                      NO_EFFECT.(admitted := Some((event.payload.Key(), event.payload.ToSegment()))));
      }
    }
  }

  /** What an event does to its own window and to the record of that window's life. */
  lemma {:induction false} EventWindowShape(
    cfg: Config, fp: seq<Segment> -> string, w: World, input: Input, found: Window, life: Life)
    requires cfg.maxSegments >= 1
    requires input.Arrival? && input.event.SegmentCreated? && input.event.payload.isFinal
    requires found == WindowFor(Cleanup(cfg, w.state, input.now), input.event.payload.Key(), input.now)
    requires life == LifeAfter(cfg, w, input, NO_EFFECT, input.event.payload.Key())
    ensures
      var (s', e) := Step(cfg, fp, w.state, input);
      var p := input.event.payload;
      var after := LifeAfter(cfg, w, input, e, p.Key());
      && p.Key() in s'.windows
      && (!Admission(found, p).Taken? ==> s'.windows[p.Key()] == found && after == life)
      && (Admission(found, p).Taken? ==>
            var w1 := Absorb(cfg, found, p, input.now);
            && e.admitted == Some((p.Key(), p.ToSegment()))
            && (e.query.Some? ==> e.query.value.0.transcriptWindow == w1.segments && Ripe(cfg, w1, p.endedAtMs))
            && s'.windows[p.Key()] ==
                 (if e.query.Some? then Gated(w1, fp, p.endedAtMs, e.query.value.1) else w1)
            && after == Recorded(life, e))
  {
    var p := input.event.payload;
    var (s1, verdict) := Intake(cfg, w.state, p, input.now);
    if verdict.Taken? {
      EvaluateShape(cfg, fp, s1, input.event, input.workflow, input.publish,
                    NO_EFFECT.(admitted := Some((p.Key(), p.ToSegment()))));
    }
  }

  /** The window an event is for stays consistent with its life. */
  lemma {:induction false} EventWindowConsistent(cfg: Config, fp: seq<Segment> -> string, w: World, input: Input)
    requires cfg.maxSegments >= 1 && WindowsConsistent(cfg, fp, w)
    requires input.Arrival? && input.event.SegmentCreated? && input.event.payload.isFinal
    ensures
      var (s', e) := Step(cfg, fp, w.state, input);
      var key := input.event.payload.Key();
      key in s'.windows && Consistent(cfg, fp, s'.windows[key], LifeAfter(cfg, w, input, e, key))
  {
    var p := input.event.payload;
    var found := WindowFor(Cleanup(cfg, w.state, input.now), p.Key(), input.now);
    var life := LifeAfter(cfg, w, input, NO_EFFECT, p.Key());
    FoundConsistent(cfg, fp, w, input.now, p.Key());
    EventWindowShape(cfg, fp, w, input, found, life);
    if Admission(found, p).Taken? {
      RecordedConsistent(cfg, fp, found, life, p, input.now, Step(cfg, fp, w.state, input).1);
    }
  }

  lemma {:induction false} FoundConsistent(cfg: Config, fp: seq<Segment> -> string, w: World, now: int, key: WindowKey)
    requires WindowsConsistent(cfg, fp, w)
    ensures
      var clean := Cleanup(cfg, w.state, now);
      Consistent(cfg, fp, WindowFor(clean, key, now), if key in clean.windows then w.lives[key] else NEW_LIFE)
  {
    NewWindowConsistent(cfg, fp, now);
  }

  /** The window that took a segment, and perhaps ran a query, fits its recorded life. */
  lemma {:induction false} RecordedConsistent(
    cfg: Config, fp: seq<Segment> -> string, found: Window, life: Life, p: SegmentPayload, now: int, e: Effect)
    requires cfg.maxSegments >= 1
    requires Consistent(cfg, fp, found, life) && Admission(found, p).Taken?
    requires e.admitted == Some((p.Key(), p.ToSegment()))
    requires var w := Absorb(cfg, found, p, now);
      e.query.Some? ==> e.query.value.0.transcriptWindow == w.segments && Ripe(cfg, w, p.endedAtMs)
    ensures
      var w := Absorb(cfg, found, p, now);
      var w' := if e.query.Some? then Gated(w, fp, p.endedAtMs, e.query.value.1) else w;
      Consistent(cfg, fp, w', Recorded(life, e))
  {
    var w := Absorb(cfg, found, p, now);
    var grown := life.(admitted := life.admitted + [p.ToSegment()]);
    AbsorbConsistent(cfg, fp, found, life, p, now);
    if e.query.Some? {
      QueriesOfGrownLife(cfg, fp, found, life, p.ToSegment());
      var (command, succeeded) := e.query.value;
      assert Recorded(life, e)
        == grown.(queries := grown.queries + [QueryOf(w, grown.admitted, command, succeeded)]);
      QueryConsistent(cfg, fp, w, grown, command, succeeded);
    } else {
      assert Recorded(life, e) == grown;
    }
  }

  lemma {:induction false} QueriesOfGrownLife(
    cfg: Config, fp: seq<Segment> -> string, w: Window, life: Life, s: Segment)
    requires Consistent(cfg, fp, w, life)
    ensures QueriesBefore(life.(admitted := life.admitted + [s]))
  {
    forall i | 0 <= i < |life.queries| ensures life.queries[i].upTo <= |life.admitted| {
      assert QueryFits(cfg, life.queries[i], life.admitted, Start(w, life.admitted));
    }
  }

  lemma {:induction false} AdvanceConsistentFor(
    cfg: Config, fp: seq<Segment> -> string, w: World, input: Input, key: WindowKey)
    requires cfg.maxSegments >= 1 && WindowsConsistent(cfg, fp, w)
    requires key in Advance(cfg, fp, w, input).state.windows
    ensures
      var w' := Advance(cfg, fp, w, input);
      Consistent(cfg, fp, w'.state.windows[key], w'.lives[key])
  {
    var w' := Advance(cfg, fp, w, input);
    var (s', e) := Step(cfg, fp, w.state, input);
    assert w'.state.windows[key] == s'.windows[key];
    assert w'.lives[key] == LifeAfter(cfg, w, input, e, key);
    if input.Arrival? && input.event.SegmentCreated? && input.event.payload.isFinal {
      if key == input.event.payload.Key() {
        EventWindowConsistent(cfg, fp, w, input);
      } else {
        UnrelatedLife(cfg, fp, w, input, key);
      }
    } else {
      assert s'.windows[key] == w.state.windows[key] && w'.lives[key] == w.lives[key];
    }
  }

  lemma {:induction false} AdvanceConsistent(cfg: Config, fp: seq<Segment> -> string, w: World, input: Input)
    requires cfg.maxSegments >= 1 && WindowsConsistent(cfg, fp, w)
    ensures WindowsConsistent(cfg, fp, Advance(cfg, fp, w, input))
  {
    forall key | key in Advance(cfg, fp, w, input).state.windows {
      AdvanceConsistentFor(cfg, fp, w, input, key);
    }
  }

  lemma {:induction false} UnrelatedLife(
    cfg: Config, fp: seq<Segment> -> string, w: World, input: Input, key: WindowKey)
    requires cfg.maxSegments >= 1 && WindowsConsistent(cfg, fp, w)
    requires input.Arrival? && input.event.SegmentCreated? && input.event.payload.isFinal
    requires key != input.event.payload.Key()
    requires key in Step(cfg, fp, w.state, input).0.windows
    ensures
      var (s', e) := Step(cfg, fp, w.state, input);
      key in w.lives && s'.windows[key] == w.state.windows[key]
      && LifeAfter(cfg, w, input, e, key) == w.lives[key]
  {
    var p := input.event.payload;
    var (s1, verdict) := Intake(cfg, w.state, p, input.now);
    if verdict.Taken? {
      EvaluateShape(cfg, fp, s1, input.event, input.workflow, input.publish,
                    NO_EFFECT.(admitted := Some((p.Key(), p.ToSegment()))));
    }
  }

  lemma {:induction false} TraceConsistent(cfg: Config, fp: seq<Segment> -> string, trace: seq<World>, n: nat)
    requires cfg.maxSegments >= 1 && n < |trace| && trace[0] == INITIAL_WORLD
    requires forall i :: 0 <= i < |trace| - 1 ==> Follows(cfg, fp, trace[i], trace[i + 1])
    ensures WindowsConsistent(cfg, fp, trace[n])
  {
    if n > 0 {
      TraceConsistent(cfg, fp, trace, n - 1);
      assert Follows(cfg, fp, trace[n - 1], trace[n - 1 + 1]);
      var input :| trace[n] == Advance(cfg, fp, trace[n - 1], input);
      AdvanceConsistent(cfg, fp, trace[n - 1], input);
    }
  }

  lemma {:induction false} ReachableWorldConsistent(cfg: Config, fp: seq<Segment> -> string, w: World)
    requires cfg.maxSegments >= 1 && Reachable(cfg, fp, w)
    ensures WindowsConsistent(cfg, fp, w)
  {
    var trace: seq<World> :|
      && trace != [] && trace[0] == INITIAL_WORLD && trace[|trace| - 1] == w
      && forall i :: 0 <= i < |trace| - 1 ==> Follows(cfg, fp, trace[i], trace[i + 1]);
    TraceConsistent(cfg, fp, trace, |trace| - 1);
  }

  /** Every window of every reachable state is consistent with the life it has led. */
  lemma {:induction false} ReachableConsistent(cfg: Config, fp: seq<Segment> -> string, w: World, key: WindowKey)
    requires cfg.maxSegments >= 1 && Reachable(cfg, fp, w)
    requires key in w.lives || key in w.state.windows
    ensures key in w.lives && key in w.state.windows
    ensures Consistent(cfg, fp, w.state.windows[key], w.lives[key])
  {
    ReachableWorldConsistent(cfg, fp, w);
  }

  /**
   * In every reachable state a window is the newest part of the segments it admitted: at most
   * `maxSegments` of them, ending in the newest, with exactly their ids, its oldest one not
   * expired; and if end times never went back, it is the declarative window.
   */
  lemma {:induction false} ReachableWindow(cfg: Config, fp: seq<Segment> -> string, world: World, key: WindowKey)
    requires cfg.maxSegments >= 1 && Reachable(cfg, fp, world)
    requires key in world.state.windows
    ensures key in world.lives
    ensures
      var w, admitted := world.state.windows[key], world.lives[key].admitted;
      && |w.segments| <= Min(|admitted|, cfg.maxSegments)
      && w.segments == TakeLast(admitted, |w.segments|)
      && w.segmentIds == Ids(w.segments) && IdsDiffer(w.segments)
      && SequencesIncrease(admitted)
      && (admitted != [] ==>
            && w.segments != [] && w.segments[|w.segments| - 1] == admitted[|admitted| - 1]
            && w.segments[0].endedAtMs >= NewestEnd(admitted) - cfg.WindowMs())
      && (EndTimesNondecreasing(admitted) ==> w.segments == RecentSegments(cfg, admitted))
  {
    ReachableConsistent(cfg, fp, world, key);
    ReachableWindowShape(cfg, world.state.windows[key], world.lives[key].admitted);
  }

  lemma {:induction false} ReachableWindowShape(cfg: Config, w: Window, admitted: seq<Segment>)
    requires Tracks(cfg, w, admitted)
    ensures w.segments == TakeLast(admitted, |w.segments|)
    ensures w.segmentIds == Ids(w.segments) && IdsDiffer(w.segments)
    ensures EndTimesNondecreasing(admitted) ==> w.segments == RecentSegments(cfg, admitted)
  {
    ExactIdsMeaning(w.segments, w.segmentIds);
    if EndTimesNondecreasing(admitted) {
      WindowIsRecentSegments(cfg, w, admitted);
    }
  }

  /** Any two queries executed in one life, successful or not, had different fingerprints. */
  lemma {:induction false} FingerprintsDistinct(
    cfg: Config, lower: string -> string, world: World, key: WindowKey, i: nat, j: nat)
    requires cfg.maxSegments >= 1 && Reachable(cfg, FingerprintWith(lower), world)
    requires key in world.lives && i < j < |world.lives[key].queries|
    ensures
      var queries := world.lives[key].queries;
      Fingerprint(queries[i].Segments(), lower) != Fingerprint(queries[j].Segments(), lower)
  {
    ReachableConsistent(cfg, FingerprintWith(lower), world, key);
    QueriesDiffer(cfg, lower, world.state.windows[key], world.lives[key], i, j);
  }

  /**
   * In a reachable state the fingerprint comparison of process_raw never holds: whatever segment
   * is admitted next, its window's fingerprint is not the remembered one.
   */
  lemma {:induction false} FingerprintGateNeverFires(
    cfg: Config, lower: string -> string, world: World, p: SegmentPayload, now: int)
    requires cfg.maxSegments >= 1 && Reachable(cfg, FingerprintWith(lower), world)
    requires Intake(cfg, world.state, p, now).1.Taken?
    ensures
      var w := Intake(cfg, world.state, p, now).0.windows[p.Key()];
      w.lastQueryFingerprint != Some(Fingerprint(w.segments, lower))
  {
    var fp := FingerprintWith(lower);
    ReachableWorldConsistent(cfg, fp, world);
    FoundConsistent(cfg, fp, world, now, p.Key());
    var clean := Cleanup(cfg, world.state, now);
    var found := WindowFor(clean, p.Key(), now);
    var life := if p.Key() in clean.windows then world.lives[p.Key()] else NEW_LIFE;
    AbsorbConsistent(cfg, fp, found, life, p, now);
    QueriesOfGrownLife(cfg, fp, found, life, p.ToSegment());
    FingerprintIsNew(cfg, lower, Absorb(cfg, found, p, now),
                     life.(admitted := life.admitted + [p.ToSegment()]));
  }

  /** In one life, every executed query met the size minima with a contiguous run of admitted segments. */
  lemma {:induction false} QueriesMeetMinima(
    cfg: Config, fp: seq<Segment> -> string, world: World, key: WindowKey, i: nat)
    requires cfg.maxSegments >= 1 && Reachable(cfg, fp, world)
    requires key in world.lives && i < |world.lives[key].queries|
    ensures MeetsMinima(cfg, world.lives[key].queries[i], world.lives[key].admitted)
  {
    ReachableConsistent(cfg, fp, world, key);
    QueryFacts(cfg, fp, world.state.windows[key], world.lives[key], i);
  }

  /** In one life, successful queries lie at least as many trigger intervals apart as positions. */
  lemma {:induction false} SuccessfulQueriesSpaced(
    cfg: Config, fp: seq<Segment> -> string, world: World, key: WindowKey, i: nat, j: nat)
    requires cfg.maxSegments >= 1 && Reachable(cfg, fp, world)
    requires key in world.lives && i <= j < |Successes(world.lives[key].queries)|
    ensures
      var ok := Successes(world.lives[key].queries);
      ok[j].endedAtMs - ok[i].endedAtMs >= (j - i) * cfg.TriggerMs()
  {
    ReachableConsistent(cfg, fp, world, key);
    SuccessesFarApart(Successes(world.lives[key].queries), cfg.TriggerMs(), i, j);
  }

  // ---------- Publications ----------

  ghost predicate ClockNeverGoesBack(inputs: seq<Input>) {
    forall i, j :: 0 <= i < j < |inputs| ==> inputs[i].now <= inputs[j].now
  }

  /** Clock readings never go back, and a result is dated no earlier than the call it comes from. */
  ghost predicate ClockRuns(inputs: seq<Input>) {
    && ClockNeverGoesBack(inputs)
    && (forall i, c :: 0 <= i < |inputs| && inputs[i].Arrival? && inputs[i].workflow(c).Generated? ==>
          inputs[i].workflow(c).feedback.generatedAt >= inputs[i].now)
  }

  function KeyOf(p: Publication): DedupeKey {
    DedupeKeyOf(p.feedback)
  }

  /** When `key` was last published. */
  function LastPublished(published: seq<Publication>, key: DedupeKey): Option<int> {
    if published == [] then None
    else
      var last := published[|published| - 1];
      if KeyOf(last) == key then Some(last.feedback.generatedAt)
      else LastPublished(published[..|published| - 1], key)
  }

  ghost predicate NoLaterThanLast(published: seq<Publication>) {
    forall i :: 0 <= i < |published| ==>
      var last := LastPublished(published, KeyOf(published[i]));
      last.Some? && published[i].feedback.generatedAt <= last.value
  }

  ghost predicate FarApart(published: seq<Publication>, cooldown: int) {
    forall i, j :: 0 <= i < j < |published| && KeyOf(published[i]) == KeyOf(published[j]) ==>
      published[j].feedback.generatedAt - published[i].feedback.generatedAt >= cooldown
  }

  /** The map remembers the last publication of a key until it is older than the memory. */
  ghost predicate Remembers(cfg: Config, s: State, published: seq<Publication>, now: int) {
    forall key ::
      var last := LastPublished(published, key);
      && (key in s.lastPublishedAt ==> last == Some(s.lastPublishedAt[key]))
      && (last.Some? && key !in s.lastPublishedAt ==> last.value < now - cfg.Memory())
  }

  ghost predicate PublicationsSpaced(cfg: Config, w: World, now: int) {
    && Remembers(cfg, w.state, w.published, now)
    && NoLaterThanLast(w.published)
    && FarApart(w.published, cfg.Cooldown())
  }

  lemma {:induction false} EvaluatePublishes(
    cfg: Config, fp: seq<Segment> -> string, s: State, event: RawEvent,
    workflow: Command -> WorkflowOutcome, publish: PublishOutcome, taken: Effect)
    requires event.SegmentCreated? && event.payload.Key() in s.windows
    requires taken.query == None && taken.published == None
    ensures
      var (s', e) := Evaluate(cfg, fp, s, event, workflow, publish, taken);
      && (e.published == None ==> s'.lastPublishedAt == s.lastPublishedAt)
      && (e.published.Some? ==>
            var f := e.published.value.feedback;
            && workflow(CommandFor(event, s.windows[event.payload.Key()].segments)) == Generated(f)
            && !CoolingDown(cfg, s.lastPublishedAt, f)
            && s'.lastPublishedAt == s.lastPublishedAt[KeyOf(e.published.value) := f.generatedAt])
  {
    var w := s.windows[event.payload.Key()];
    TryQueryFacts(cfg, fp, w, event, workflow);
    SettleShape(cfg, s, event, TryQuery(cfg, fp, w, event, workflow), publish, taken);
  }

  /** A published feedback is the workflow's answer to the query of the window that took the event. */
  lemma {:induction false} PublishedAnswersQuery(
    cfg: Config, fp: seq<Segment> -> string, s: State, event: RawEvent, now: int,
    workflow: Command -> WorkflowOutcome, publish: PublishOutcome)
    requires cfg.maxSegments >= 1
    requires Process(cfg, fp, s, event, now, workflow, publish).1.published.Some?
    ensures event.SegmentCreated? && Intake(cfg, s, event.payload, now).1.Taken?
    ensures
      var e := Process(cfg, fp, s, event, now, workflow, publish).1;
      var command := CommandFor(event, Intake(cfg, s, event.payload, now).0.windows[event.payload.Key()].segments);
      && workflow(command) == Generated(e.published.value.feedback)
      && e.query == Some((command, true))
  {
    var p := event.payload;
    var s1 := Intake(cfg, s, p, now).0;
    var w := s1.windows[p.Key()];
    TryQueryFacts(cfg, fp, w, event, workflow);
    SettleShape(cfg, s1, event, TryQuery(cfg, fp, w, event, workflow), publish,
                NO_EFFECT.(admitted := Some((p.Key(), p.ToSegment()))));
  }

  /** A feedback that is not cooling down is at least the cooldown away from every publication of its key. */
  lemma {:induction false} FarFromPublished(
    cfg: Config, memory: map<DedupeKey, int>, published: seq<Publication>, f: Feedback, now: int)
    requires Remembers(cfg, State(map[], memory), published, now) && NoLaterThanLast(published)
    requires f.generatedAt >= now && !CoolingDown(cfg, memory, f)
    ensures forall i :: 0 <= i < |published| && KeyOf(published[i]) == DedupeKeyOf(f) ==>
      f.generatedAt - published[i].feedback.generatedAt >= cfg.Cooldown()
  {
    forall i | 0 <= i < |published| && KeyOf(published[i]) == DedupeKeyOf(f)
      ensures f.generatedAt - published[i].feedback.generatedAt >= cfg.Cooldown()
    {
      var last := LastPublished(published, DedupeKeyOf(f));
      assert last.Some? && published[i].feedback.generatedAt <= last.value;
    }
  }

  lemma {:induction false} AppendPublication(
    cfg: Config, memory: map<DedupeKey, int>, published: seq<Publication>, p: Publication, now: int)
    requires Remembers(cfg, State(map[], memory), published, now)
    requires NoLaterThanLast(published) && FarApart(published, cfg.Cooldown())
    requires p.feedback.generatedAt >= now && !CoolingDown(cfg, memory, p.feedback)
    ensures NoLaterThanLast(published + [p]) && FarApart(published + [p], cfg.Cooldown())
    ensures Remembers(cfg, State(map[], memory[KeyOf(p) := p.feedback.generatedAt]), published + [p], now)
  {
    assert (published + [p])[..|published|] == published;
    FarFromPublished(cfg, memory, published, p.feedback, now);
    forall key
      ensures LastPublished(published + [p], key)
        == if key == KeyOf(p) then Some(p.feedback.generatedAt) else LastPublished(published, key)
    {
    }
  }

  lemma {:induction false} AdvanceSpaced(cfg: Config, fp: seq<Segment> -> string, w: World, input: Input, before: int)
    requires cfg.maxSegments >= 1
    requires PublicationsSpaced(cfg, w, before) && before <= input.now
    requires input.Arrival? ==> forall c :: input.workflow(c).Generated? ==>
      input.workflow(c).feedback.generatedAt >= input.now
    ensures PublicationsSpaced(cfg, Advance(cfg, fp, w, input), input.now)
  {
    var clean := Cleanup(cfg, w.state, input.now);
    assert Remembers(cfg, clean, w.published, input.now);
    var (s', e) := Step(cfg, fp, w.state, input);
    if input.Arrival? && input.event.SegmentCreated? && input.event.payload.isFinal {
      var p := input.event.payload;
      var (s1, verdict) := Intake(cfg, w.state, p, input.now);
      assert s1.lastPublishedAt == clean.lastPublishedAt;
      if verdict.Taken? {
        EvaluatePublishes(cfg, fp, s1, input.event, input.workflow, input.publish,
                          NO_EFFECT.(admitted := Some((p.Key(), p.ToSegment()))));
        if e.published.Some? {
          assert Remembers(cfg, State(map[], clean.lastPublishedAt), w.published, input.now);
          AppendPublication(cfg, clean.lastPublishedAt, w.published, e.published.value, input.now);
        }
      }
    }
    if e.published == None {
      assert w.published + [] == w.published;
    }
  }

  /**
   * Over a whole run, with clean-ups anywhere and publishing attempts that raise anywhere, two
   * publications with the same key are at least the cooldown apart.
   */
  lemma {:induction false} CooldownHolds(cfg: Config, fp: seq<Segment> -> string, inputs: seq<Input>)
    requires cfg.maxSegments >= 1 && ClockRuns(inputs)
    ensures FarApart(Run(cfg, fp, inputs).published, cfg.Cooldown())
    ensures inputs != [] ==>
      PublicationsSpaced(cfg, Run(cfg, fp, inputs), inputs[|inputs| - 1].now)
  {
    if inputs != [] {
      var init := inputs[..|inputs| - 1];
      var last := inputs[|inputs| - 1];
      CooldownHolds(cfg, fp, init);
      var before := if init == [] then last.now else init[|init| - 1].now;
      assert before <= last.now;
      AdvanceSpaced(cfg, fp, Run(cfg, fp, init), last, before);
    }
  }
}
