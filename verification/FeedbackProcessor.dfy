/** The stateful feedback processor, in the shape of app/consumers/redis_feedback.py. */
module FeedbackProcessor {
  import opened Basics
  import opened Uuids
  import opened FeedbackModel

  class MeetingWindowState {
    var segments: seq<Segment>
    var segmentIds: set<Uuid>
    var lastSequence: Option<nat>
    var lastActivityAt: int
    var lastQueryEndedAtMs: Option<nat>
    var lastQueryFingerprint: Option<string>

    constructor (now: int)
      ensures Value() == EmptyWindow(now)
    {
      segments := [];
      segmentIds := {};
      lastSequence := None;
      lastActivityAt := now;
      lastQueryEndedAtMs := None;
      lastQueryFingerprint := None;
    }

    ghost function Value(): Window
      reads this
    {
      Window(segments, segmentIds, lastSequence, lastActivityAt, lastQueryEndedAtMs, lastQueryFingerprint)
    }

    method AppendSegment(segment: Segment, maxSegments: nat)
      requires 1 <= maxSegments
      modifies this
      ensures Value() == Append(old(Value()), segment, maxSegments)
    {
      if |segments| >= maxSegments {
        var evicted := segments[0];
        segments := segments[1..];
        segmentIds := segmentIds - {evicted.segmentId};
      }
      segments := segments + [segment];
      segmentIds := segmentIds + {segment.segmentId};
    }

    method TrimExpiredSegments(latestEndedAtMs: nat, maxWindowSeconds: nat)
      modifies this
      ensures Value() == Trim(old(Value()), latestEndedAtMs - maxWindowSeconds * 1000)
    {
      var minEndedAtMs := latestEndedAtMs - maxWindowSeconds * 1000;
      while segments != [] && segments[0].endedAtMs < minEndedAtMs
        invariant Trim(Value(), minEndedAtMs) == Trim(old(Value()), minEndedAtMs)
        decreases |segments|
      {
        var expired := segments[0];
        segments := segments[1..];
        segmentIds := segmentIds - {expired.segmentId};
      }
    }

    method TotalTextLength() returns (total: nat)
      ensures total == TextLength(segments)
    {
      total := 0;
      for i := 0 to |segments|
        invariant total + TextLength(segments[i..]) == TextLength(segments)
      {
        total := total + |segments[i].text|;
        assert segments[i..][1..] == segments[i + 1..];
      }
      assert segments[|segments|..] == [];
    }
  }

  class FeedbackEventProcessor {
    const cfg: Config
    const fp: seq<Segment> -> string
    var windows: map<WindowKey, MeetingWindowState>
    var lastPublishedAt: map<DedupeKey, int>

    /** No two keys share a window object. */
    ghost predicate Valid()
      reads this
    {
      && cfg.maxSegments >= 1
      && forall k, l :: k in windows && l in windows && k != l ==> windows[k] != windows[l]
    }

    ghost function Value(): State
      reads this, windows.Values
    {
      State(map k | k in windows :: windows[k].Value(), lastPublishedAt)
    }

    constructor (cfg: Config, lower: string -> string)
      requires cfg.maxSegments >= 1
      ensures Valid() && this.cfg == cfg && fp == FingerprintWith(lower)
      ensures Value() == INITIAL_STATE
    {
      this.cfg := cfg;
      fp := FingerprintWith(lower);
      windows := map[];
      lastPublishedAt := map[];
    }

    method CleanupExpiredState(now: int)
      requires Valid()
      modifies this
      ensures Valid() && windows.Values <= old(windows.Values)
      ensures Value() == Cleanup(cfg, old(Value()), now)
    {
      var expiredKeys := set k | k in windows && now - windows[k].lastActivityAt >= cfg.Ttl();
      var cutoff := now - cfg.Memory();
      var expiredDedupeKeys := set k | k in lastPublishedAt && lastPublishedAt[k] < cutoff;
      var keys := expiredKeys;
      while keys != {}
        invariant keys <= expiredKeys
        invariant windows == old(windows) - (expiredKeys - keys)
        invariant lastPublishedAt == old(lastPublishedAt)
      {
        var key :| key in keys;
        windows := windows - {key};
        keys := keys - {key};
      }
      var dedupeKeys := expiredDedupeKeys;
      while dedupeKeys != {}
        invariant dedupeKeys <= expiredDedupeKeys
        invariant windows == old(windows) - expiredKeys
        invariant lastPublishedAt == old(lastPublishedAt) - (expiredDedupeKeys - dedupeKeys)
      {
        var key :| key in dedupeKeys;
        lastPublishedAt := lastPublishedAt - {key};
        dedupeKeys := dedupeKeys - {key};
      }
    }

    /** `setdefault`: the key's window, created when it is missing. */
    method WindowOf(key: WindowKey, now: int) returns (state: MeetingWindowState)
      requires Valid()
      modifies this`windows
      ensures Valid() && key in windows && windows[key] == state
      ensures fresh(windows.Values - old(windows.Values))
      ensures state.Value() == WindowFor(old(Value()), key, now)
      ensures Value() == old(Value()).(windows := old(Value()).windows[key := state.Value()])
    {
      if key !in windows {
        var created := new MeetingWindowState(now);
        windows := windows[key := created];
      }
      state := windows[key];
    }

    /** Admit a segment into a window: append it, move the gates, trim. */
    method Take(key: WindowKey, state: MeetingWindowState, payload: SegmentPayload, now: int)
      requires Valid() && key in windows && windows[key] == state
      modifies state
      ensures state.Value() == Absorb(cfg, old(state.Value()), payload, now)
      ensures Value() == old(Value()).(windows := old(Value()).windows[key := state.Value()])
    {
      ghost var before := Value();
      state.AppendSegment(payload.ToSegment(), cfg.maxSegments);
      state.lastSequence := Some(payload.sequence);
      state.lastActivityAt := now;
      state.TrimExpiredSegments(payload.endedAtMs, cfg.maxWindowSeconds);
      assert Value().windows == before.windows[key := state.Value()];
    }

    /** Remember a query that did not fail. */
    method MarkQueried(key: WindowKey, state: MeetingWindowState, endedAtMs: nat, fingerprint: string)
      requires Valid() && key in windows && windows[key] == state
      modifies state
      ensures Value() == Queried(old(Value()), key, endedAtMs, fingerprint)
    {
      ghost var before := Value();
      state.lastQueryEndedAtMs := Some(endedAtMs);
      state.lastQueryFingerprint := Some(fingerprint);
      assert Value().windows == before.windows[key := state.Value()];
    }

    /** Publish a result unless its key is cooling down. */
    method PublishFeedback(feedback: Feedback, correlationId: Uuid, publish: PublishOutcome)
      returns (published: Option<Publication>, raised: bool)
      requires Valid()
      modifies this`lastPublishedAt
      ensures (Value(), published, raised) == Deliver(cfg, old(Value()), feedback, correlationId, publish)
    {
      published, raised := None, false;
      var dedupeKey := DedupeKeyOf(feedback);
      if dedupeKey in lastPublishedAt
         && feedback.generatedAt - lastPublishedAt[dedupeKey] < cfg.Cooldown() {
        return;
      }
      if publish.NoPublisher? {
        return;
      }
      if publish.PublishRaised? {
        raised := true;
        return;
      }
      lastPublishedAt := lastPublishedAt[dedupeKey := feedback.generatedAt];
      published := Some(Publication(feedback, correlationId));
      assert Value().windows == old(Value()).windows;
    }

    /** Everything up to the admission of the segment. */
    method TakeSegment(payload: SegmentPayload, now: int)
      returns (state: MeetingWindowState, verdict: Verdict)
      requires Valid()
      modifies this, windows.Values
      ensures Valid() && fresh(windows.Values - old(windows.Values))
      ensures payload.Key() in windows && windows[payload.Key()] == state
      ensures (Value(), verdict) == Intake(cfg, old(Value()), payload, now)
    {
      CleanupExpiredState(now);
      ghost var clean := Value();
      var key := payload.Key();
      state := WindowOf(key, now);
      ghost var found := state.Value();
      if payload.segmentId in state.segmentIds {
        return state, Ignored;
      }
      if state.lastSequence.Some? && payload.sequence <= state.lastSequence.value {
        return state, Ignored;
      }
      if payload.endedAtMs < payload.startedAtMs {
        return state, Raised;
      }
      Take(key, state, payload, now);
      UpdateTwice(clean.windows, key, found, state.Value());
      return state, Taken;
    }

    method ProcessRaw(
        event: RawEvent, now: int, workflow: Command -> WorkflowOutcome, publish: PublishOutcome)
      returns (effect: Effect)
      requires Valid()
      modifies this, windows.Values
      ensures Valid() && fresh(windows.Values - old(windows.Values))
      ensures (Value(), effect) == Process(cfg, fp, old(Value()), event, now, workflow, publish)
    {
      if !event.SegmentCreated? || !event.payload.isFinal {
        return NO_EFFECT;
      }
      var state, verdict := TakeSegment(event.payload, now);
      match verdict
      case Ignored =>
        effect := NO_EFFECT;
      case Raised =>
        effect := NO_EFFECT.(raised := true);
      case Taken =>
        var attempt := AskWorkflow(state, event, workflow);
        effect := SettleAttempt(
          state, event, attempt, publish,
          NO_EFFECT.(admitted := Some((event.payload.Key(), event.payload.ToSegment()))));
    }

    /** The gates in front of the query, and the query. */
    method AskWorkflow(state: MeetingWindowState, event: RawEvent, workflow: Command -> WorkflowOutcome)
      returns (attempt: Attempt)
      requires event.SegmentCreated?
      ensures attempt == TryQuery(cfg, fp, state.Value(), event, workflow)
    {
      var payload := event.payload;
      if |state.segments| < cfg.minSegments {
        return NotDue;
      }
      var chars := state.TotalTextLength();
      if chars < cfg.minWindowChars {
        return NotDue;
      }
      if state.lastQueryEndedAtMs.Some?
         && payload.endedAtMs - state.lastQueryEndedAtMs.value < cfg.TriggerMs() {
        return NotDue;
      }
      var fingerprint := fp(state.segments);
      if state.lastQueryFingerprint == Some(fingerprint) {
        return NotDue;
      }
      var command := CommandFor(event, state.segments);
      match workflow(command)
      case WorkflowFailed => return Failed(command);
      case NoFeedback => return Answered(command, fingerprint, None);
      case Generated(f) => return Answered(command, fingerprint, Some(f));
    }

    /** Remember an answered query, and publish its feedback. */
    method SettleAttempt(
        state: MeetingWindowState, event: RawEvent, attempt: Attempt, publish: PublishOutcome, taken: Effect)
      returns (effect: Effect)
      requires Valid() && event.SegmentCreated?
      requires event.payload.Key() in windows && windows[event.payload.Key()] == state
      modifies this`lastPublishedAt, state
      ensures Valid()
      ensures (Value(), effect) == Settle(cfg, old(Value()), event, attempt, publish, taken)
    {
      if attempt.NotDue? {
        return taken;
      }
      if attempt.Failed? {
        return taken.(query := Some((attempt.command, false)));
      }
      MarkQueried(event.payload.Key(), state, event.payload.endedAtMs, attempt.fingerprint);
      effect := taken.(query := Some((attempt.command, true)));
      if attempt.feedback.None? {
        return;
      }
      var published, raised := PublishFeedback(attempt.feedback.value, event.correlationId, publish);
      effect := effect.(published := published, raised := raised);
    }
  }
}
