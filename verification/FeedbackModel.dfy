/**
 * Values and single-event behaviour of the realtime feedback consumer
 * (app/consumers/redis_feedback.py). Times of day are microseconds, speech times milliseconds.
 */
module FeedbackModel {
  import opened Basics
  import opened Text
  import opened Uuids

  const MICROS_PER_SECOND := 1_000_000

  datatype Config = Config(
    maxSegments: nat,
    maxWindowSeconds: nat,
    minSegments: int,
    minWindowChars: int,
    triggerIntervalSeconds: int,
    cooldownSeconds: nat,
    stateTtlSeconds: int)
  {
    function WindowMs(): nat { maxWindowSeconds * 1000 }
    function TriggerMs(): int { triggerIntervalSeconds * 1000 }
    function Ttl(): int { stateTtlSeconds * MICROS_PER_SECOND }
    function Cooldown(): nat { cooldownSeconds * MICROS_PER_SECOND }
    /** How long a publication is remembered. */
    function Memory(): int { Max(Ttl(), Cooldown()) }
  }

  datatype Segment = Segment(
    segmentId: Uuid, sequence: nat, language: string, text: string, startedAtMs: nat, endedAtMs: nat)

  datatype SegmentPayload = SegmentPayload(
    meetingId: Uuid, sessionId: Uuid, organizationId: Uuid, participantUserIds: seq<Uuid>,
    segmentId: Uuid, sequence: nat, language: string, text: string, isFinal: bool,
    startedAtMs: nat, endedAtMs: nat)
  {
    function Key(): WindowKey { WindowKey(meetingId, sessionId) }
    function ToSegment(): Segment {
      Segment(segmentId, sequence, language, text, startedAtMs, endedAtMs)
    }

    /** The lengths the payload's schema asks for; whatever does not meet it arrives as `Malformed`. */
    predicate MeetsSchema() {
      participantUserIds != [] && 1 <= |language| <= 20 && 1 <= |text| <= 4_000
    }
  }

  /** What parsing the raw stream entry can give. */
  datatype RawEvent =
    | Malformed
    | OtherType
    | SegmentCreated(correlationId: Uuid, payload: SegmentPayload)

  datatype Command = Command(
    meetingId: Uuid, sessionId: Uuid, organizationId: Uuid, participantUserIds: seq<Uuid>,
    correlationId: Uuid, transcriptWindow: seq<Segment>)

  datatype FeedbackType = DecisionReminder | DuplicateDiscussion | ResolvedTopic

  datatype Candidate = Candidate(
    minutesId: Uuid, meetingId: Option<Uuid>, title: string, meetingDate: string, snippet: string,
    score: real)

  datatype Feedback = Feedback(
    feedbackId: Uuid, meetingId: Uuid, sessionId: Uuid, feedbackType: FeedbackType, message: string,
    sources: seq<Candidate>, audienceUserIds: seq<Uuid>, fromSequence: nat, toSequence: nat,
    generatedAt: int)

  datatype WorkflowOutcome = WorkflowFailed | NoFeedback | Generated(feedback: Feedback)

  /** The publisher may be missing, may return normally, or may raise, before or after the event arrived. */
  datatype PublishOutcome = NoPublisher | PublishReturned | PublishRaised(arrived: bool)

  datatype WindowKey = WindowKey(meetingId: Uuid, sessionId: Uuid)

  datatype DedupeKey = DedupeKey(
    meetingId: Uuid, sessionId: Uuid, feedbackType: FeedbackType, minutesIds: seq<Uuid>)

  /** The value of one `MeetingWindowState`. */
  datatype Window = Window(
    segments: seq<Segment>,
    segmentIds: set<Uuid>,
    lastSequence: Option<nat>,
    lastActivityAt: int,
    lastQueryEndedAtMs: Option<nat>,
    lastQueryFingerprint: Option<string>)

  /** The value of the processor's two dictionaries. */
  datatype State = State(windows: map<WindowKey, Window>, lastPublishedAt: map<DedupeKey, int>)

  const INITIAL_STATE := State(map[], map[])

  // ---------- The fingerprint ----------

  /** `sequence:text` of every segment, the text stripped and lower-cased. */
  function Entries(segments: seq<Segment>, lower: string -> string): (r: seq<string>)
    ensures |r| == |segments|
    ensures forall i :: 0 <= i < |r| ==>
      r[i] == Decimal(segments[i].sequence) + ":" + lower(Strip(segments[i].text))
  {
    if segments == [] then []
    else [Decimal(segments[0].sequence) + ":" + lower(Strip(segments[0].text))]
         + Entries(segments[1..], lower)
  }

  function Fingerprint(segments: seq<Segment>, lower: string -> string): string {
    Join(Entries(segments, lower), "|")
  }

  /** The fingerprint as the function the processor is built with. */
  function FingerprintWith(lower: string -> string): seq<Segment> -> string {
    segments => Fingerprint(segments, lower)
  }

  // ---------- The window ----------

  /** A window as `setdefault` creates it. */
  function EmptyWindow(now: int): Window {
    Window([], {}, None, now, None, None)
  }

  /** Drop the oldest segment and forget its id. */
  function DropOldest(w: Window): Window
    requires w.segments != []
  {
    w.(segments := w.segments[1..], segmentIds := w.segmentIds - {w.segments[0].segmentId})
  }

  function Append(w: Window, segment: Segment, maxSegments: nat): Window
    requires 1 <= maxSegments
  {
    var room := if |w.segments| >= maxSegments then DropOldest(w) else w;
    room.(segments := room.segments + [segment], segmentIds := room.segmentIds + {segment.segmentId})
  }

  /** Drop the oldest segment for as long as it ended before `cutoff`. */
  function Trim(w: Window, cutoff: int): Window
    decreases |w.segments|
  {
    if w.segments != [] && w.segments[0].endedAtMs < cutoff then Trim(DropOldest(w), cutoff) else w
  }

  datatype Verdict = Ignored | Raised | Taken

  /** The gates in front of the window: known id, stale sequence, inverted time range. */
  function Admission(w: Window, p: SegmentPayload): Verdict {
    if p.segmentId in w.segmentIds then Ignored
    else if w.lastSequence.Some? && p.sequence <= w.lastSequence.value then Ignored
    else if p.endedAtMs < p.startedAtMs then Raised
    else Taken
  }

  /** The window after an admitted segment. */
  function Absorb(cfg: Config, w: Window, p: SegmentPayload, now: int): Window
    requires cfg.maxSegments >= 1
  {
    var grown := Append(w, p.ToSegment(), cfg.maxSegments)
                 .(lastSequence := Some(p.sequence), lastActivityAt := now);
    Trim(grown, p.endedAtMs - cfg.WindowMs())
  }

  function TextLength(segments: seq<Segment>): nat {
    if segments == [] then 0 else |segments[0].text| + TextLength(segments[1..])
  }

  /** Size, length and interval gates; the fingerprint gate is kept apart. */
  predicate Ripe(cfg: Config, w: Window, endedAtMs: nat) {
    && |w.segments| >= cfg.minSegments
    && TextLength(w.segments) >= cfg.minWindowChars
    && (w.lastQueryEndedAtMs.Some? ==> endedAtMs - w.lastQueryEndedAtMs.value >= cfg.TriggerMs())
  }

  // ---------- Publishing ----------

  function MinutesIds(sources: seq<Candidate>): seq<Uuid> {
    seq(|sources|, i requires 0 <= i < |sources| => sources[i].minutesId)
  }

  function DedupeKeyOf(f: Feedback): DedupeKey {
    DedupeKey(f.meetingId, f.sessionId, f.feedbackType, MinutesIds(f.sources))
  }

  predicate CoolingDown(cfg: Config, lastPublishedAt: map<DedupeKey, int>, f: Feedback) {
    var key := DedupeKeyOf(f);
    key in lastPublishedAt && f.generatedAt - lastPublishedAt[key] < cfg.Cooldown()
  }

  datatype Publication = Publication(feedback: Feedback, correlationId: Uuid)

  /**
   * What a call does besides changing the state: the segment it admitted, the query it executed
   * and whether that succeeded, the publication that returned normally, and whether it raised.
   */
  datatype Effect = Effect(
    admitted: Option<(WindowKey, Segment)>,
    query: Option<(Command, bool)>,
    published: Option<Publication>,
    raised: bool)

  const NO_EFFECT := Effect(None, None, None, false)

  // ---------- One call of process_raw ----------

  predicate WindowExpired(cfg: Config, w: Window, now: int) {
    now - w.lastActivityAt >= cfg.Ttl()
  }

  function Cleanup(cfg: Config, s: State, now: int): State {
    State(
      map k | k in s.windows && !WindowExpired(cfg, s.windows[k], now) :: s.windows[k],
      map k | k in s.lastPublishedAt && !(s.lastPublishedAt[k] < now - cfg.Memory()) :: s.lastPublishedAt[k])
  }

  /** The window an event finds: the kept one, or a new empty one. */
  function WindowFor(s: State, key: WindowKey, now: int): Window {
    if key in s.windows then s.windows[key] else EmptyWindow(now)
  }

  function CommandFor(event: RawEvent, segments: seq<Segment>): Command
    requires event.SegmentCreated?
  {
    var p := event.payload;
    Command(p.meetingId, p.sessionId, p.organizationId, p.participantUserIds, event.correlationId, segments)
  }

  function Deliver(cfg: Config, s: State, f: Feedback, correlationId: Uuid, publish: PublishOutcome)
    : (State, Option<Publication>, bool)
  {
    if CoolingDown(cfg, s.lastPublishedAt, f) || publish.NoPublisher? then (s, None, false)
    else if publish.PublishRaised? then (s, None, true)
    else (s.(lastPublishedAt := s.lastPublishedAt[DedupeKeyOf(f) := f.generatedAt]),
          Some(Publication(f, correlationId)), false)
  }

  function Process(
    cfg: Config, fp: seq<Segment> -> string, s: State, event: RawEvent, now: int,
    workflow: Command -> WorkflowOutcome, publish: PublishOutcome): (State, Effect)
    requires cfg.maxSegments >= 1
  {
    if !event.SegmentCreated? || !event.payload.isFinal then (s, NO_EFFECT)
    else
      var p := event.payload;
      var (s', verdict) := Intake(cfg, s, p, now);
      match verdict
      case Ignored => (s', NO_EFFECT)
      case Raised => (s', NO_EFFECT.(raised := true))
      case Taken =>
        Evaluate(cfg, fp, s', event, workflow, publish, NO_EFFECT.(admitted := Some((p.Key(), p.ToSegment()))))
  }

  /** The first half of a call: clean up, find the window, and let it take the segment or refuse it. */
  function Intake(cfg: Config, s: State, p: SegmentPayload, now: int): (r: (State, Verdict))
    requires cfg.maxSegments >= 1
    ensures p.Key() in r.0.windows
  {
    var clean := Cleanup(cfg, s, now);
    var found := WindowFor(clean, p.Key(), now);
    var verdict := Admission(found, p);
    var w := if verdict.Taken? then Absorb(cfg, found, p, now) else found;
    (clean.(windows := clean.windows[p.Key() := w]), verdict)
  }

  /** The second half of a call: gates, query and publication for the window that took the event. */
  function Evaluate(
    cfg: Config, fp: seq<Segment> -> string, s: State, event: RawEvent,
    workflow: Command -> WorkflowOutcome, publish: PublishOutcome, taken: Effect): (State, Effect)
    requires event.SegmentCreated? && event.payload.Key() in s.windows
  {
    Settle(cfg, s, event, TryQuery(cfg, fp, s.windows[event.payload.Key()], event, workflow), publish, taken)
  }

  /** A window may not be due, or its query may fail, or be answered, possibly with a feedback. */
  datatype Attempt =
    | NotDue
    | Failed(command: Command)
    | Answered(command: Command, fingerprint: string, feedback: Option<Feedback>)

  function TryQuery(
    cfg: Config, fp: seq<Segment> -> string, w: Window, event: RawEvent,
    workflow: Command -> WorkflowOutcome): Attempt
    requires event.SegmentCreated?
  {
    var fingerprint := fp(w.segments);
    if !Ripe(cfg, w, event.payload.endedAtMs) || w.lastQueryFingerprint == Some(fingerprint) then NotDue
    else
      var command := CommandFor(event, w.segments);
      match workflow(command)
      case WorkflowFailed => Failed(command)
      case NoFeedback => Answered(command, fingerprint, None)
      case Generated(f) => Answered(command, fingerprint, Some(f))
  }

  function Settle(
    cfg: Config, s: State, event: RawEvent, attempt: Attempt, publish: PublishOutcome, taken: Effect)
    : (State, Effect)
    requires event.SegmentCreated? && event.payload.Key() in s.windows
  {
    match attempt
    case NotDue => (s, taken)
    case Failed(command) => (s, taken.(query := Some((command, false))))
    case Answered(command, fingerprint, feedback) =>
      var queried := Queried(s, event.payload.Key(), event.payload.endedAtMs, fingerprint);
      var asked := taken.(query := Some((command, true)));
      if feedback.None? then (queried, asked)
      else
        var (s', published, raised) := Deliver(cfg, queried, feedback.value, event.correlationId, publish);
        (s', asked.(published := published, raised := raised))
  }

  /** The state after a query that did not fail. */
  function Queried(s: State, key: WindowKey, endedAtMs: nat, fingerprint: string): State
    requires key in s.windows
  {
    s.(windows := s.windows[key := s.windows[key].(
      lastQueryEndedAtMs := Some(endedAtMs), lastQueryFingerprint := Some(fingerprint))])
  }
}
