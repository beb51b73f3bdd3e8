/**
 * What one call of the feedback processor does, in the terms of its event: whom a query is for, when
 * a window is asked, when a feedback is published and which windows live on
 * (app/consumers/redis_feedback.py).
 */
module FeedbackRules {
  import opened Basics
  import opened Uuids
  import opened FeedbackModel
  import opened WindowHistory
  import opened FeedbackRuns
  import opened FeedbackIsolation

  // ---------- Whom a query is for ----------

  lemma {:induction false} TrimKeepsLast(w: Window, cutoff: int)
    requires w.segments != [] && w.segments[|w.segments| - 1].endedAtMs >= cutoff
    ensures
      var r := Trim(w, cutoff).segments;
      r != [] && r[|r| - 1] == w.segments[|w.segments| - 1]
    decreases |w.segments|
  {
    if w.segments[0].endedAtMs < cutoff {
      TrimKeepsLast(DropOldest(w), cutoff);
    }
  }

  /** The command is for the event's meeting, session, organization and participants. */
  ghost predicate ForEvent(command: Command, event: RawEvent) {
    && event.SegmentCreated?
    && command.meetingId == event.payload.meetingId && command.sessionId == event.payload.sessionId
    && command.organizationId == event.payload.organizationId
    && command.participantUserIds == event.payload.participantUserIds
    && command.correlationId == event.correlationId
  }

  /** The segments end with what the event carries. */
  ghost predicate EndsWithEvent(segments: seq<Segment>, event: RawEvent) {
    && event.SegmentCreated? && segments != []
    && var last, p := segments[|segments| - 1], event.payload;
       && last.segmentId == p.segmentId && last.sequence == p.sequence
       && last.language == p.language && last.text == p.text
       && last.startedAtMs == p.startedAtMs && last.endedAtMs == p.endedAtMs
  }

  /**
   * Every query is for its event's meeting, session, organization and participants, carries the
   * event's correlation id, and asks with the window of that meeting and session, which ends with the
   * event's segment.
   */
  lemma {:induction false} QueryIsForEvent(
    cfg: Config, fp: seq<Segment> -> string, s: State, event: RawEvent, now: int,
    workflow: Command -> WorkflowOutcome, publish: PublishOutcome)
    requires cfg.maxSegments >= 1
    requires Process(cfg, fp, s, event, now, workflow, publish).1.query.Some?
    ensures
      var (s', e) := Process(cfg, fp, s, event, now, workflow, publish);
      var command := e.query.value.0;
      && ForEvent(command, event) && event.payload.isFinal && EndsWithEvent(command.transcriptWindow, event)
      && var key := WindowKey(event.payload.meetingId, event.payload.sessionId);
         key in s'.windows && s'.windows[key].segments == command.transcriptWindow
  {
    var p := event.payload;
    var found := WindowFor(Cleanup(cfg, s, now), p.Key(), now);
    var grown := Append(found, p.ToSegment(), cfg.maxSegments);
    EventSeesItsWindow(cfg, fp, s, event, now, workflow, publish);
    TryQueryFacts(cfg, fp, Absorb(cfg, found, p, now), event, workflow);
    TrimKeepsLast(grown.(lastSequence := Some(p.sequence), lastActivityAt := now), p.endedAtMs - cfg.WindowMs());
  }

  /** What is published is the workflow's answer to that query, under the event's correlation id. */
  lemma {:induction false} PublicationIsForEvent(
    cfg: Config, fp: seq<Segment> -> string, s: State, event: RawEvent, now: int,
    workflow: Command -> WorkflowOutcome, publish: PublishOutcome)
    requires cfg.maxSegments >= 1
    requires Process(cfg, fp, s, event, now, workflow, publish).1.published.Some?
    ensures
      var e := Process(cfg, fp, s, event, now, workflow, publish).1;
      && e.query.Some? && ForEvent(e.query.value.0, event)
      && workflow(e.query.value.0) == Generated(e.published.value.feedback)
      && e.published.value.correlationId == event.correlationId
  {
    PublishedAnswersQuery(cfg, fp, s, event, now, workflow, publish);
    QueryIsForEvent(cfg, fp, s, event, now, workflow, publish);
    CorrelationIsEvents(cfg, fp, s, event, now, workflow, publish);
  }

  lemma {:induction false} CorrelationIsEvents(
    cfg: Config, fp: seq<Segment> -> string, s: State, event: RawEvent, now: int,
    workflow: Command -> WorkflowOutcome, publish: PublishOutcome)
    requires cfg.maxSegments >= 1
    ensures
      var published := Process(cfg, fp, s, event, now, workflow, publish).1.published;
      published.Some? ==> event.SegmentCreated? && published.value.correlationId == event.correlationId
  {
  }

  // ---------- When a segment is admitted and a window asked ----------

  /** The life a segment for `key` finds. */
  function LifeFor(cfg: Config, w: World, key: WindowKey, now: int): Life {
    if key in Cleanup(cfg, w.state, now).windows && key in w.lives then w.lives[key] else NEW_LIFE
  }

  /** No segment of the window has the id, none admitted has the sequence or a later one, and times are in order. */
  ghost predicate Admissible(window: seq<Segment>, admitted: seq<Segment>, p: SegmentPayload) {
    && (forall i :: 0 <= i < |window| ==> window[i].segmentId != p.segmentId)
    && (forall i :: 0 <= i < |admitted| ==> admitted[i].sequence < p.sequence)
    && p.startedAtMs <= p.endedAtMs
  }

  lemma {:induction false} InIds(segments: seq<Segment>, id: Uuid)
    ensures id in Ids(segments) <==> exists i :: 0 <= i < |segments| && segments[i].segmentId == id
  {
  }

  lemma {:induction false} TakenIff(cfg: Config, fp: seq<Segment> -> string, w: Window, life: Life, p: SegmentPayload)
    requires Consistent(cfg, fp, w, life)
    ensures Admission(w, p).Taken? <==> Admissible(w.segments, life.admitted, p)
  {
    ExactIdsMeaning(w.segments, w.segmentIds);
    InIds(w.segments, p.segmentId);
    if life.admitted != [] {
      assert life.admitted[|life.admitted| - 1].sequence == w.lastSequence.value;
    }
  }

  /**
   * In a reachable state a final segment is admitted just when it is new to its window, later than all
   * admitted ones and not inverted.
   */
  lemma {:induction false} AdmittedIff(
    cfg: Config, fp: seq<Segment> -> string, w: World, event: RawEvent, now: int,
    workflow: Command -> WorkflowOutcome, publish: PublishOutcome)
    requires cfg.maxSegments >= 1 && Reachable(cfg, fp, w) && event.SegmentCreated? && event.payload.isFinal
    ensures
      var p := event.payload;
      var key := WindowKey(p.meetingId, p.sessionId);
      var found := WindowFor(Cleanup(cfg, w.state, now), key, now);
      Process(cfg, fp, w.state, event, now, workflow, publish).1.admitted.Some? <==>
        Admissible(found.segments, LifeFor(cfg, w, key, now).admitted, p)
  {
    var key := event.payload.Key();
    ReachableWorldConsistent(cfg, fp, w);
    FoundConsistent(cfg, fp, w, now, key);
    TakenIff(cfg, fp, WindowFor(Cleanup(cfg, w.state, now), key, now), LifeFor(cfg, w, key, now), event.payload);
    EventSeesItsWindow(cfg, fp, w.state, event, now, workflow, publish);
  }

  /** The window is large enough, and the last success of its life is a trigger interval ago. */
  ghost predicate Due(cfg: Config, window: seq<Segment>, life: Life, endedAtMs: nat) {
    && |window| >= cfg.minSegments && TextLength(window) >= cfg.minWindowChars
    && var ok := Successes(life.queries);
       ok == [] || endedAtMs - ok[|ok| - 1].endedAtMs >= cfg.triggerIntervalSeconds * 1_000
  }

  /** In a reachable state the segment that is admitted leads to a query just when its window is due. */
  lemma {:induction false} QueriedIff(
    cfg: Config, lower: string -> string, w: World, event: RawEvent, now: int,
    workflow: Command -> WorkflowOutcome, publish: PublishOutcome)
    requires cfg.maxSegments >= 1 && Reachable(cfg, FingerprintWith(lower), w)
    requires Process(cfg, FingerprintWith(lower), w.state, event, now, workflow, publish).1.admitted.Some?
    ensures event.SegmentCreated?
    ensures
      var (s', e) := Process(cfg, FingerprintWith(lower), w.state, event, now, workflow, publish);
      var key := WindowKey(event.payload.meetingId, event.payload.sessionId);
      && key in s'.windows
      && (e.query.Some? <==>
            Due(cfg, s'.windows[key].segments, LifeFor(cfg, w, key, now), event.payload.endedAtMs))
  {
    var fp, p := FingerprintWith(lower), event.payload;
    var found := WindowFor(Cleanup(cfg, w.state, now), p.Key(), now);
    var life := LifeFor(cfg, w, p.Key(), now);
    ReachableWorldConsistent(cfg, fp, w);
    FoundConsistent(cfg, fp, w, now, p.Key());
    EventSeesItsWindow(cfg, fp, w.state, event, now, workflow, publish);
    FingerprintGateNeverFires(cfg, lower, w, p, now);
    AbsorbKeepsGates(cfg, found, p, now);
    var taken := Absorb(cfg, found, p, now);
    TryQueryRuns(cfg, fp, taken, event, workflow);
    assert GateMatches(found, Successes(life.queries), fp);
  }

  lemma {:induction false} TrimKeepsGates(w: Window, cutoff: int)
    ensures Trim(w, cutoff).lastQueryEndedAtMs == w.lastQueryEndedAtMs
    ensures Trim(w, cutoff).lastQueryFingerprint == w.lastQueryFingerprint
    decreases |w.segments|
  {
    if w.segments != [] && w.segments[0].endedAtMs < cutoff {
      TrimKeepsGates(DropOldest(w), cutoff);
    }
  }

  lemma {:induction false} AbsorbKeepsGates(cfg: Config, w: Window, p: SegmentPayload, now: int)
    requires cfg.maxSegments >= 1
    ensures Absorb(cfg, w, p, now).lastQueryEndedAtMs == w.lastQueryEndedAtMs
    ensures Absorb(cfg, w, p, now).lastQueryFingerprint == w.lastQueryFingerprint
  {
    TrimKeepsGates(
      Append(w, p.ToSegment(), cfg.maxSegments).(lastSequence := Some(p.sequence), lastActivityAt := now),
      p.endedAtMs - cfg.WindowMs());
  }

  lemma {:induction false} TryQueryRuns(
    cfg: Config, fp: seq<Segment> -> string, w: Window, event: RawEvent, workflow: Command -> WorkflowOutcome)
    requires event.SegmentCreated? && w.lastQueryFingerprint != Some(fp(w.segments))
    ensures TryQuery(cfg, fp, w, event, workflow).NotDue? <==> !Ripe(cfg, w, event.payload.endedAtMs)
  {
  }

  // ---------- When a feedback is published ----------

  /** Of one meeting, session and type, with sources from the same minutes in the same order. */
  ghost predicate SameSubject(f: Feedback, g: Feedback) {
    && f.meetingId == g.meetingId && f.sessionId == g.sessionId && f.feedbackType == g.feedbackType
    && |f.sources| == |g.sources|
    && forall i :: 0 <= i < |f.sources| ==> f.sources[i].minutesId == g.sources[i].minutesId
  }

  lemma {:induction false} SameKeyIff(f: Feedback, g: Feedback)
    ensures DedupeKeyOf(f) == DedupeKeyOf(g) <==> SameSubject(f, g)
  {
    var a, b := MinutesIds(f.sources), MinutesIds(g.sources);
    assert forall i :: 0 <= i < |f.sources| ==> a[i] == f.sources[i].minutesId;
    assert forall i :: 0 <= i < |g.sources| ==> b[i] == g.sources[i].minutesId;
    if SameSubject(f, g) {
      assert a == b;
    }
  }

  /** Some publication on the same subject is younger than the cooldown. */
  ghost predicate PublishedRecently(cfg: Config, published: seq<Publication>, f: Feedback) {
    exists i :: 0 <= i < |published| && SameSubject(published[i].feedback, f)
      && f.generatedAt - published[i].feedback.generatedAt < cfg.cooldownSeconds * 1_000_000
  }

  lemma {:induction false} LastIsPublished(published: seq<Publication>, key: DedupeKey) returns (i: nat)
    requires LastPublished(published, key).Some?
    ensures i < |published| && KeyOf(published[i]) == key
    ensures LastPublished(published, key) == Some(published[i].feedback.generatedAt)
  {
    var n := |published| - 1;
    if KeyOf(published[n]) == key {
      i := n;
    } else {
      i := LastIsPublished(published[..n], key);
    }
  }

  lemma {:induction false} CoolingIffRecent(
    cfg: Config, memory: map<DedupeKey, int>, published: seq<Publication>, f: Feedback, now: int)
    requires Remembers(cfg, State(map[], memory), published, now) && NoLaterThanLast(published)
    requires f.generatedAt >= now
    ensures CoolingDown(cfg, memory, f) <==> PublishedRecently(cfg, published, f)
  {
    var key := DedupeKeyOf(f);
    if CoolingDown(cfg, memory, f) {
      var i := LastIsPublished(published, key);
      SameKeyIff(published[i].feedback, f);
    }
    if PublishedRecently(cfg, published, f) {
      var i :| 0 <= i < |published| && SameSubject(published[i].feedback, f)
        && f.generatedAt - published[i].feedback.generatedAt < cfg.cooldownSeconds * 1_000_000;
      SameKeyIff(published[i].feedback, f);
      var last := LastPublished(published, KeyOf(published[i]));
      assert last.Some? && published[i].feedback.generatedAt <= last.value;
    }
  }

  /** What the second half of a call publishes when the workflow gives a feedback. */
  lemma {:induction false} EvaluatePublishesIff(
    cfg: Config, fp: seq<Segment> -> string, s: State, event: RawEvent,
    workflow: Command -> WorkflowOutcome, publish: PublishOutcome, taken: Effect, f: Feedback)
    requires event.SegmentCreated? && event.payload.Key() in s.windows
    requires taken.query == None && taken.published == None
    requires var e := Evaluate(cfg, fp, s, event, workflow, publish, taken).1;
      e.query.Some? && workflow(e.query.value.0) == Generated(f)
    ensures
      Evaluate(cfg, fp, s, event, workflow, publish, taken).1.published ==
        if publish.PublishReturned? && !CoolingDown(cfg, s.lastPublishedAt, f)
        then Some(Publication(f, event.correlationId)) else None
  {
    var attempt := TryQuery(cfg, fp, s.windows[event.payload.Key()], event, workflow);
    TryQueryFacts(cfg, fp, s.windows[event.payload.Key()], event, workflow);
    SettleShape(cfg, s, event, attempt, publish, taken);
    AnsweredWhenGenerated(cfg, fp, s.windows[event.payload.Key()], event, workflow, f);
    assert attempt.Answered? && attempt.feedback == Some(f);
  }

  lemma {:induction false} AnsweredWhenGenerated(
    cfg: Config, fp: seq<Segment> -> string, w: Window, event: RawEvent,
    workflow: Command -> WorkflowOutcome, f: Feedback)
    requires event.SegmentCreated? && workflow(CommandFor(event, w.segments)) == Generated(f)
    ensures
      var attempt := TryQuery(cfg, fp, w, event, workflow);
      !attempt.NotDue? ==> attempt.Answered? && attempt.feedback == Some(f)
  {
  }

  lemma {:induction false} ProcessPublishesIff(
    cfg: Config, fp: seq<Segment> -> string, s: State, event: RawEvent, now: int,
    workflow: Command -> WorkflowOutcome, publish: PublishOutcome, f: Feedback)
    requires cfg.maxSegments >= 1
    requires var e := Process(cfg, fp, s, event, now, workflow, publish).1;
      e.query.Some? && workflow(e.query.value.0) == Generated(f)
    ensures event.SegmentCreated?
    ensures
      Process(cfg, fp, s, event, now, workflow, publish).1.published ==
        if publish.PublishReturned? && !CoolingDown(cfg, Cleanup(cfg, s, now).lastPublishedAt, f)
        then Some(Publication(f, event.correlationId)) else None
  {
    var p := event.payload;
    var s1 := Intake(cfg, s, p, now).0;
    EvaluatePublishesIff(cfg, fp, s1, event, workflow, publish,
                         NO_EFFECT.(admitted := Some((p.Key(), p.ToSegment()))), f);
  }

  /**
   * After any run, a feedback that the workflow gives is published, under the event's correlation id,
   * if and only if the publisher returns and nothing on the same subject was published within the
   * cooldown.
   */
  lemma {:induction false} PublishedIff(
    cfg: Config, fp: seq<Segment> -> string, inputs: seq<Input>, last: Input, f: Feedback)
    requires cfg.maxSegments >= 1 && ClockRuns(inputs + [last]) && last.Arrival?
    requires var e := Step(cfg, fp, Run(cfg, fp, inputs).state, last).1;
      e.query.Some? && last.workflow(e.query.value.0) == Generated(f)
    ensures last.event.SegmentCreated?
    ensures
      var w := Run(cfg, fp, inputs);
      Step(cfg, fp, w.state, last).1.published ==
        if last.publish.PublishReturned? && !PublishedRecently(cfg, w.published, f)
        then Some(Publication(f, last.event.correlationId)) else None
  {
    var w, all := Run(cfg, fp, inputs), inputs + [last];
    assert all[|inputs|] == last && forall i :: 0 <= i < |inputs| ==> all[i] == inputs[i];
    assert ClockRuns(inputs);
    CooldownHolds(cfg, fp, inputs);
    var before := if inputs == [] then last.now else inputs[|inputs| - 1].now;
    var clean := Cleanup(cfg, w.state, last.now);
    assert before <= last.now;
    assert Remembers(cfg, State(map[], clean.lastPublishedAt), w.published, last.now);
    ProcessPublishesIff(cfg, fp, w.state, last.event, last.now, last.workflow, last.publish, f);
    assert f.generatedAt >= last.now by {
      var command := Step(cfg, fp, w.state, last).1.query.value.0;
      assert all[|inputs|].workflow(command).Generated?;
    }
    CoolingIffRecent(cfg, clean.lastPublishedAt, w.published, f, last.now);
  }

  // ---------- Which windows live on ----------

  /** The last activity of every window is that of one of its events. */
  ghost predicate ActiveThroughEvents(inputs: seq<Input>, w: World) {
    forall key :: key in w.state.windows ==>
      exists i :: 0 <= i < |inputs| && Concerns(inputs[i], key)
        && inputs[i].now == w.state.windows[key].lastActivityAt
  }

  lemma {:induction false} AbsorbIsActive(cfg: Config, w: Window, p: SegmentPayload, now: int)
    requires cfg.maxSegments >= 1
    ensures Absorb(cfg, w, p, now).lastActivityAt == now
  {
    TrimKeepsActivity(
      Append(w, p.ToSegment(), cfg.maxSegments).(lastSequence := Some(p.sequence), lastActivityAt := now),
      p.endedAtMs - cfg.WindowMs());
  }

  lemma {:induction false} TrimKeepsActivity(w: Window, cutoff: int)
    ensures Trim(w, cutoff).lastActivityAt == w.lastActivityAt
    decreases |w.segments|
  {
    if w.segments != [] && w.segments[0].endedAtMs < cutoff {
      TrimKeepsActivity(DropOldest(w), cutoff);
    }
  }

  lemma {:induction false} StepActivity(cfg: Config, fp: seq<Segment> -> string, s: State, input: Input, key: WindowKey)
    requires cfg.maxSegments >= 1 && key in Step(cfg, fp, s, input).0.windows
    ensures
      var after := Step(cfg, fp, s, input).0.windows[key].lastActivityAt;
      || (Concerns(input, key) && after == input.now)
      || (key in s.windows && after == s.windows[key].lastActivityAt)
  {
    if Concerns(input, key) {
      EventSeesItsWindow(cfg, fp, s, input.event, input.now, input.workflow, input.publish);
      AbsorbIsActive(cfg, WindowFor(Cleanup(cfg, s, input.now), key, input.now), input.event.payload, input.now);
    } else if input.Arrival? {
      OtherWindowsUntouched(cfg, fp, s, input.event, input.now, input.workflow, input.publish, key);
    }
  }

  lemma {:induction false} RunActivity(cfg: Config, fp: seq<Segment> -> string, inputs: seq<Input>)
    requires cfg.maxSegments >= 1
    ensures ActiveThroughEvents(inputs, Run(cfg, fp, inputs))
  {
    if inputs != [] {
      var n := |inputs| - 1;
      var w, w' := Run(cfg, fp, inputs[..n]), Run(cfg, fp, inputs);
      RunActivity(cfg, fp, inputs[..n]);
      forall key | key in w'.state.windows
        ensures exists i :: 0 <= i < |inputs| && Concerns(inputs[i], key)
                  && inputs[i].now == w'.state.windows[key].lastActivityAt
      {
        StepActivity(cfg, fp, w.state, inputs[n], key);
        if key in w.state.windows && w'.state.windows[key].lastActivityAt == w.state.windows[key].lastActivityAt {
          var i :| 0 <= i < n && Concerns(inputs[..n][i], key)
            && inputs[..n][i].now == w.state.windows[key].lastActivityAt;
          assert inputs[i] == inputs[..n][i];
        } else {
          assert Concerns(inputs[n], key);
        }
      }
    }
  }

  /** The input cleans up first. */
  predicate Cleans(input: Input) {
    input.Tick? || (input.event.SegmentCreated? && input.event.payload.isFinal)
  }

  /**
   * A tick or a final segment leaves a window, other than the segment's own, just when it was active
   * within the time to live; and a window's last activity is one of its events.
   */
  lemma {:induction false} LivesOnIff(
    cfg: Config, fp: seq<Segment> -> string, inputs: seq<Input>, last: Input, key: WindowKey)
    requires cfg.maxSegments >= 1 && Cleans(last) && !Concerns(last, key)
    ensures
      var w := Run(cfg, fp, inputs);
      key in Step(cfg, fp, w.state, last).0.windows <==>
        key in w.state.windows
        && last.now - w.state.windows[key].lastActivityAt < cfg.stateTtlSeconds * 1_000_000
    ensures ActiveThroughEvents(inputs, Run(cfg, fp, inputs))
  {
    var w := Run(cfg, fp, inputs);
    RunActivity(cfg, fp, inputs);
    if last.Arrival? {
      var p := last.event.payload;
      EventSeesItsWindow(cfg, fp, w.state, last.event, last.now, last.workflow, last.publish);
      SurvivorsOfEvent(cfg, fp, w.state, last, key);
    }
  }

  lemma {:induction false} SurvivorsOfEvent(
    cfg: Config, fp: seq<Segment> -> string, s: State, input: Input, key: WindowKey)
    requires cfg.maxSegments >= 1 && input.Arrival? && input.event.SegmentCreated? && input.event.payload.isFinal
    requires key != input.event.payload.Key()
    ensures key in Step(cfg, fp, s, input).0.windows <==> key in Cleanup(cfg, s, input.now).windows
  {
    var p := input.event.payload;
    var (s1, verdict) := Intake(cfg, s, p, input.now);
    if verdict.Taken? {
      EvaluateShape(cfg, fp, s1, input.event, input.workflow, input.publish,
                    NO_EFFECT.(admitted := Some((p.Key(), p.ToSegment()))));
    }
  }

  /** What is remembered of publications is forgotten when it is older than both periods. */
  lemma {:induction false} RememberedIff(cfg: Config, s: State, now: int, key: DedupeKey)
    ensures key in Cleanup(cfg, s, now).lastPublishedAt <==>
      && key in s.lastPublishedAt
      && (now - s.lastPublishedAt[key] <= cfg.stateTtlSeconds * 1_000_000
          || now - s.lastPublishedAt[key] <= cfg.cooldownSeconds * 1_000_000)
  {
  }
}
