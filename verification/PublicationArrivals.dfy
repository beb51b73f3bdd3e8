/** Feedback that reached the output stream although its publisher raised (app/consumers/redis_feedback.py). */
module PublicationArrivals {
  import opened Basics
  import opened FeedbackModel
  import opened FeedbackRuns
  import opened FeedbackRules
  import opened WindowHistory

  /** A feedback that reached the output stream, and whether its publisher returned. */
  datatype Reached = Reached(feedback: Feedback, returned: bool)

  /** What a call put into the stream. */
  function ReachedBy(input: Input, e: Effect): Option<Reached> {
    if e.published.Some? then Some(Reached(e.published.value.feedback, true))
    else if input.Arrival? && input.publish.PublishRaised? && input.publish.arrived && e.raised && e.query.Some? then
      match input.workflow(e.query.value.0)
      case Generated(f) => Some(Reached(f, false))
      case _ => None
    else None
  }

  /** Everything a run put into the stream. */
  function Arrivals(cfg: Config, fp: seq<Segment> -> string, inputs: seq<Input>): seq<Reached>
    requires cfg.maxSegments >= 1
  {
    if inputs == [] then []
    else
      var init, last := inputs[..|inputs| - 1], inputs[|inputs| - 1];
      var reached := ReachedBy(last, Step(cfg, fp, Run(cfg, fp, init).state, last).1);
      Arrivals(cfg, fp, init) + if reached.Some? then [reached.value] else []
  }

  // ---------- What returned keeps its distance ----------

  /** Every arrival whose publisher returned is a publication. */
  ghost predicate ReturnedArePublished(arrivals: seq<Reached>, published: seq<Publication>) {
    forall i :: 0 <= i < |arrivals| && arrivals[i].returned ==>
      exists j :: 0 <= j < |published| && published[j].feedback == arrivals[i].feedback
  }

  predicate SameKey(a: Reached, b: Reached) {
    DedupeKeyOf(a.feedback) == DedupeKeyOf(b.feedback)
  }

  /** After an arrival whose publisher returned, none of its key comes within the cooldown. */
  ghost predicate FarFromReturned(arrivals: seq<Reached>, cooldown: int) {
    forall i, j :: 0 <= i < j < |arrivals| && arrivals[i].returned && SameKey(arrivals[i], arrivals[j]) ==>
      arrivals[j].feedback.generatedAt - arrivals[i].feedback.generatedAt >= cooldown
  }

  /** What reaches the stream answers the query and was not cooling down. */
  lemma {:induction false} EvaluateReaches(
    cfg: Config, fp: seq<Segment> -> string, s: State, input: Input, taken: Effect)
    requires input.Arrival? && input.event.SegmentCreated? && input.event.payload.Key() in s.windows
    requires taken.query == None && taken.published == None && !taken.raised
    ensures
      var e := Evaluate(cfg, fp, s, input.event, input.workflow, input.publish, taken).1;
      var reached := ReachedBy(input, e);
      reached.Some? ==>
        && e.query.Some? && input.workflow(e.query.value.0) == Generated(reached.value.feedback)
        && e.query.value.0 == CommandFor(input.event, s.windows[input.event.payload.Key()].segments)
        && !CoolingDown(cfg, s.lastPublishedAt, reached.value.feedback)
  {
    var w := s.windows[input.event.payload.Key()];
    var attempt := TryQuery(cfg, fp, w, input.event, input.workflow);
    TryQueryFacts(cfg, fp, w, input.event, input.workflow);
    SettleShape(cfg, s, input.event, attempt, input.publish, taken);
  }

  /** The feedback is what the workflow answers to a query for the event. */
  ghost predicate Answers(input: Input, f: Feedback) {
    input.Arrival? && exists c :: input.workflow(c) == Generated(f) && ForEvent(c, input.event)
  }

  lemma {:induction false} StepReaches(cfg: Config, fp: seq<Segment> -> string, s: State, input: Input)
    requires cfg.maxSegments >= 1
    ensures
      var reached := ReachedBy(input, Step(cfg, fp, s, input).1);
      reached.Some? ==>
        && Answers(input, reached.value.feedback)
        && !CoolingDown(cfg, Cleanup(cfg, s, input.now).lastPublishedAt, reached.value.feedback)
  {
    if input.Arrival? && input.event.SegmentCreated? && input.event.payload.isFinal {
      var p := input.event.payload;
      var (s1, verdict) := Intake(cfg, s, p, input.now);
      if verdict.Taken? {
        EvaluateReaches(cfg, fp, s1, input, NO_EFFECT.(admitted := Some((p.Key(), p.ToSegment()))));
      }
    }
  }

  lemma {:induction false} OneMoreArrival(
    cfg: Config, arrivals: seq<Reached>, published: seq<Publication>, memory: map<DedupeKey, int>,
    reached: Reached, now: int)
    requires ReturnedArePublished(arrivals, published) && FarFromReturned(arrivals, cfg.Cooldown())
    requires Remembers(cfg, State(map[], memory), published, now) && NoLaterThanLast(published)
    requires reached.feedback.generatedAt >= now && !CoolingDown(cfg, memory, reached.feedback)
    ensures FarFromReturned(arrivals + [reached], cfg.Cooldown())
  {
    FarFromPublished(cfg, memory, published, reached.feedback, now);
  }

  lemma {:induction false} PublishedGrows(
    arrivals: seq<Reached>, published: seq<Publication>, reached: Option<Reached>, added: seq<Publication>)
    requires ReturnedArePublished(arrivals, published)
    requires reached.Some? && reached.value.returned ==> |added| == 1 && added[0].feedback == reached.value.feedback
    ensures ReturnedArePublished(arrivals + if reached.Some? then [reached.value] else [], published + added)
  {
    var all := arrivals + if reached.Some? then [reached.value] else [];
    forall i | 0 <= i < |all| && all[i].returned
      ensures exists j :: 0 <= j < |published + added| && (published + added)[j].feedback == all[i].feedback
    {
      if i < |arrivals| {
        var j :| 0 <= j < |published| && published[j].feedback == arrivals[i].feedback;
        assert (published + added)[j] == published[j];
      } else {
        assert (published + added)[|published|] == added[0];
      }
    }
  }

  /** The memory after the clean-up that a call starts with. */
  lemma {:induction false} CleanRemembers(cfg: Config, s: State, published: seq<Publication>, before: int, now: int)
    requires Remembers(cfg, s, published, before) && before <= now
    ensures Remembers(cfg, State(map[], Cleanup(cfg, s, now).lastPublishedAt), published, now)
  {
  }

  lemma {:induction false} ArrivalsSpaced(cfg: Config, fp: seq<Segment> -> string, inputs: seq<Input>)
    requires cfg.maxSegments >= 1 && ClockRuns(inputs)
    ensures ReturnedArePublished(Arrivals(cfg, fp, inputs), Run(cfg, fp, inputs).published)
    ensures FarFromReturned(Arrivals(cfg, fp, inputs), cfg.Cooldown())
  {
    if inputs != [] {
      var init, last := inputs[..|inputs| - 1], inputs[|inputs| - 1];
      var w, arrivals := Run(cfg, fp, init), Arrivals(cfg, fp, init);
      var e := Step(cfg, fp, w.state, last).1;
      var reached := ReachedBy(last, e);
      ArrivalsSpaced(cfg, fp, init);
      CooldownHolds(cfg, fp, init);
      PublishedGrows(arrivals, w.published, reached, if e.published.Some? then [e.published.value] else []);
      if reached.Some? {
        var before := if init == [] then last.now else init[|init| - 1].now;
        StepReaches(cfg, fp, w.state, last);
        CleanRemembers(cfg, w.state, w.published, before, last.now);
        OneMoreArrival(cfg, arrivals, w.published, Cleanup(cfg, w.state, last.now).lastPublishedAt,
                       reached.value, last.now);
      } else {
        assert arrivals + [] == arrivals;
      }
    }
  }

  /**
   * Two feedbacks of one key that reached the stream are closer than the cooldown only if the
   * publisher of the earlier one raised although it had arrived.
   */
  lemma {:induction false} CloseArrivalsRaised(
    cfg: Config, fp: seq<Segment> -> string, inputs: seq<Input>, i: nat, j: nat)
    requires cfg.maxSegments >= 1 && ClockRuns(inputs) && i < j < |Arrivals(cfg, fp, inputs)|
    requires
      var a, b := Arrivals(cfg, fp, inputs)[i], Arrivals(cfg, fp, inputs)[j];
      SameKey(a, b) && b.feedback.generatedAt - a.feedback.generatedAt < cfg.Cooldown()
    ensures !Arrivals(cfg, fp, inputs)[i].returned
  {
    ArrivalsSpaced(cfg, fp, inputs);
  }

  // ---------- ... and what raised does not ----------

  const EXAMPLE_CONFIG := Config(8, 45, 1, 1, 15, 90, 300)
  const EXAMPLE_KEY := WindowKey(0, 0)
  const EXAMPLE_SOURCE := Candidate(9, None, "t", "d", "s", 1.0)

  /** The same reminder for every window. */
  function Reminder(c: Command): WorkflowOutcome {
    if c.transcriptWindow == [] then NoFeedback
    else Generated(Feedback(
      0, c.meetingId, c.sessionId, DecisionReminder, "m", [EXAMPLE_SOURCE], c.participantUserIds,
      c.transcriptWindow[0].sequence, c.transcriptWindow[|c.transcriptWindow| - 1].sequence, 0))
  }

  function ExamplePayload(number: nat): SegmentPayload
    requires number < 2
  {
    SegmentPayload(0, 0, 0, [0], number, number, "ko", "x", true, 0, 15_000 * number)
  }

  function ExampleInput(number: nat, publish: PublishOutcome): Input
    requires number < 2
  {
    Arrival(0, SegmentCreated(0, ExamplePayload(number)), Reminder, publish)
  }

  function ExampleFeedback(to: nat): Feedback {
    Feedback(0, 0, 0, DecisionReminder, "m", [EXAMPLE_SOURCE], [0], 0, to, 0)
  }

  const FIRST := ExamplePayload(0).ToSegment()
  const SECOND := ExamplePayload(1).ToSegment()

  /** A due window of the example asks for the reminder. */
  lemma {:induction false} DueWindow(fp: seq<Segment> -> string, w: Window, number: nat, publish: PublishOutcome)
    requires number < 2 && w.segments == [FIRST, SECOND][..number + 1] && w.lastQueryFingerprint != Some(fp(w.segments))
    requires w.lastQueryEndedAtMs.Some? ==> 15_000 * number - w.lastQueryEndedAtMs.value >= 15_000
    ensures TryQuery(EXAMPLE_CONFIG, fp, w, ExampleInput(number, publish).event, Reminder)
         == Answered(CommandFor(ExampleInput(number, publish).event, w.segments), fp(w.segments),
                     Some(ExampleFeedback(number)))
  {
    assert w.segments[0] == FIRST;
    assert TextLength(w.segments) >= |w.segments[0].text| == 1;
  }

  lemma {:induction false} FirstTaken()
    ensures Intake(EXAMPLE_CONFIG, INITIAL_STATE, ExamplePayload(0), 0)
         == (State(map[EXAMPLE_KEY := Window([FIRST], {0}, Some(0), 0, None, None)], map[]), Taken)
  {
    var clean := Cleanup(EXAMPLE_CONFIG, INITIAL_STATE, 0);
    assert clean == INITIAL_STATE;
    var grown := Append(EmptyWindow(0), FIRST, 8);
    assert grown.segments == [FIRST] && grown.segmentIds == {0};
    assert Absorb(EXAMPLE_CONFIG, EmptyWindow(0), ExamplePayload(0), 0) == Window([FIRST], {0}, Some(0), 0, None, None);
  }

  /** The first reminder arrives, and its publisher raises. */
  lemma {:induction false} FirstReminder(fp: seq<Segment> -> string)
    ensures
      var (s, e) := Step(EXAMPLE_CONFIG, fp, INITIAL_STATE, ExampleInput(0, PublishRaised(true)));
      && s == State(map[EXAMPLE_KEY := Window([FIRST], {0}, Some(0), 0, Some(0), Some(fp([FIRST])))], map[])
      && ReachedBy(ExampleInput(0, PublishRaised(true)), e) == Some(Reached(ExampleFeedback(0), false))
  {
    var w := Window([FIRST], {0}, Some(0), 0, None, None);
    FirstTaken();
    assert [FIRST, SECOND][..1] == [FIRST];
    DueWindow(fp, w, 0, PublishRaised(true));
  }

  lemma {:induction false} SecondTaken(w: Window)
    requires w.segments == [FIRST] && w.segmentIds == {0} && w.lastSequence == Some(0) && w.lastActivityAt == 0
    ensures Intake(EXAMPLE_CONFIG, State(map[EXAMPLE_KEY := w], map[]), ExamplePayload(1), 0)
         == (State(map[EXAMPLE_KEY := w.(segments := [FIRST, SECOND], segmentIds := {0, 1}, lastSequence := Some(1))],
                   map[]), Taken)
  {
    var clean := Cleanup(EXAMPLE_CONFIG, State(map[EXAMPLE_KEY := w], map[]), 0);
    assert clean == State(map[EXAMPLE_KEY := w], map[]);
    var grown, taken := Append(w, SECOND, 8), Absorb(EXAMPLE_CONFIG, w, ExamplePayload(1), 0);
    assert grown.segments == [FIRST, SECOND] && grown.segmentIds == {0, 1};
    assert taken == w.(segments := [FIRST, SECOND], segmentIds := {0, 1}, lastSequence := Some(1));
    assert map[EXAMPLE_KEY := w][EXAMPLE_KEY := taken] == map[EXAMPLE_KEY := taken];
  }

  /** The second one arrives at once. */
  lemma {:induction false} SecondReminder(fp: seq<Segment> -> string)
    requires fp([FIRST]) != fp([FIRST, SECOND])
    ensures
      var s := State(map[EXAMPLE_KEY := Window([FIRST], {0}, Some(0), 0, Some(0), Some(fp([FIRST])))], map[]);
      var e := Step(EXAMPLE_CONFIG, fp, s, ExampleInput(1, PublishReturned)).1;
      ReachedBy(ExampleInput(1, PublishReturned), e) == Some(Reached(ExampleFeedback(1), true))
  {
    var w := Window([FIRST], {0}, Some(0), 0, Some(0), Some(fp([FIRST])));
    SecondTaken(w);
    assert [FIRST, SECOND][..2] == [FIRST, SECOND];
    DueWindow(fp, w.(segments := [FIRST, SECOND], segmentIds := {0, 1}, lastSequence := Some(1)), 1, PublishReturned);
  }

  lemma {:induction false} FingerprintsDiffer(lower: string -> string)
    ensures Fingerprint([FIRST], lower) != Fingerprint([FIRST, SECOND], lower)
  {
    LaterWindowDiffers([FIRST, SECOND], 0, 1, 0, 2, lower);
    assert [FIRST, SECOND][0..1] == [FIRST] && [FIRST, SECOND][0..2] == [FIRST, SECOND];
  }

  lemma {:induction false} ExampleMeetsSchema(inputs: seq<Input>, first: PublishOutcome, second: PublishOutcome)
    requires inputs == [ExampleInput(0, first), ExampleInput(1, second)]
    ensures forall i :: 0 <= i < |inputs| ==> FromSchema(inputs[i])
    ensures ClockRuns(inputs)
  {
  }

  /**
   * The cooldown does not hold for what arrived: two reminders of one key reach the stream at the
   * same time, the first from a publisher that raised.
   */
  lemma {:induction false} CloseArrivals(lower: string -> string) returns (inputs: seq<Input>)
    ensures ClockRuns(inputs) && forall i :: 0 <= i < |inputs| ==> FromSchema(inputs[i])
    ensures
      var arrivals := Arrivals(EXAMPLE_CONFIG, FingerprintWith(lower), inputs);
      && |arrivals| == 2 && SameKey(arrivals[0], arrivals[1])
      && !arrivals[0].returned && arrivals[1].returned
      && arrivals[1].feedback.generatedAt - arrivals[0].feedback.generatedAt == 0 < EXAMPLE_CONFIG.Cooldown()
  {
    hide Step, ReachedBy, FromSchema, ClockRuns;
    var fp := FingerprintWith(lower);
    var a, b := ExampleInput(0, PublishRaised(true)), ExampleInput(1, PublishReturned);
    inputs := [a, b];
    ExampleMeetsSchema(inputs, PublishRaised(true), PublishReturned);
    FingerprintsDiffer(lower);
    FirstReminder(fp);
    SecondReminder(fp);
    assert [a, b][..1] == [a] && [a][..0] == [];
    assert Run(EXAMPLE_CONFIG, fp, [a]) == Advance(EXAMPLE_CONFIG, fp, INITIAL_WORLD, a);
    assert Arrivals(EXAMPLE_CONFIG, fp, [a]) == [] + [Reached(ExampleFeedback(0), false)];
  }
}
