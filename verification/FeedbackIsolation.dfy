/** Meetings do not interfere: each window lives as if its own events were the only ones. */
module FeedbackIsolation {
  import opened Basics
  import opened FeedbackModel
  import opened WindowHistory
  import opened FeedbackRuns

  /** The input is an event that reaches the window of `key`. */
  predicate Concerns(input: Input, key: WindowKey) {
    && input.Arrival? && input.event.SegmentCreated? && input.event.payload.isFinal
    && input.event.payload.Key() == key
  }

  /** The inputs that concern one window. */
  function Own(inputs: seq<Input>, key: WindowKey): seq<Input> {
    if inputs == [] then []
    else
      var before, last := Own(inputs[..|inputs| - 1], key), inputs[|inputs| - 1];
      if Concerns(last, key) then before + [last] else before
  }

  // ---------- What an event does to its window depends on the window alone ----------

  /** The query an event leads to in the window it finds, if any. */
  function QueryIn(
    cfg: Config, fp: seq<Segment> -> string, found: Window, event: RawEvent, now: int,
    workflow: Command -> WorkflowOutcome): Attempt
    requires cfg.maxSegments >= 1 && event.SegmentCreated?
  {
    if Admission(found, event.payload).Taken?
    then TryQuery(cfg, fp, Absorb(cfg, found, event.payload, now), event, workflow)
    else NotDue
  }

  function WindowAfter(
    cfg: Config, fp: seq<Segment> -> string, found: Window, event: RawEvent, now: int,
    workflow: Command -> WorkflowOutcome): Window
    requires cfg.maxSegments >= 1 && event.SegmentCreated?
  {
    if Admission(found, event.payload).Taken?
    then Gated(Absorb(cfg, found, event.payload, now), fp, event.payload.endedAtMs,
               QueryIn(cfg, fp, found, event, now, workflow).Answered?)
    else found
  }

  lemma {:induction false} EventSeesItsWindow(
    cfg: Config, fp: seq<Segment> -> string, s: State, event: RawEvent, now: int,
    workflow: Command -> WorkflowOutcome, publish: PublishOutcome)
    requires cfg.maxSegments >= 1 && event.SegmentCreated? && event.payload.isFinal
    ensures
      var (s', e) := Process(cfg, fp, s, event, now, workflow, publish);
      var key := event.payload.Key();
      var found := WindowFor(Cleanup(cfg, s, now), key, now);
      var attempt := QueryIn(cfg, fp, found, event, now, workflow);
      && key in s'.windows && s'.windows[key] == WindowAfter(cfg, fp, found, event, now, workflow)
      && e.admitted == (if Admission(found, event.payload).Taken? then Some((key, event.payload.ToSegment())) else None)
      && e.query == (if attempt.NotDue? then None else Some((attempt.command, attempt.Answered?)))
  {
    var p := event.payload;
    var (s1, verdict) := Intake(cfg, s, p, now);
    if verdict.Taken? {
      var w := s1.windows[p.Key()];
      TryQueryFacts(cfg, fp, w, event, workflow);
      SettleShape(cfg, s1, event, TryQuery(cfg, fp, w, event, workflow), publish,
                  NO_EFFECT.(admitted := Some((p.Key(), p.ToSegment()))));
    }
  }

  // ---------- Two worlds that agree on one window ----------

  /** Where `whole` has a window for `key`, `alone` has the same one with the same life. */
  ghost predicate Agree(whole: World, alone: World, key: WindowKey) {
    && key in whole.state.windows && key in whole.lives && key in alone.state.windows && key in alone.lives
    && whole.state.windows[key] == alone.state.windows[key]
    && whole.lives[key] == alone.lives[key]
  }

  /** A window only `alone` still has, has expired. */
  ghost predicate KeepsUp(cfg: Config, whole: World, alone: World, key: WindowKey, now: int) {
    && (key in whole.state.windows ==> Agree(whole, alone, key))
    && (key in alone.state.windows && key !in whole.state.windows ==> WindowExpired(cfg, alone.state.windows[key], now))
    && alone.lives.Keys == alone.state.windows.Keys
  }

  lemma {:induction false} OwnEvent(
    cfg: Config, fp: seq<Segment> -> string, whole: World, alone: World, input: Input, key: WindowKey, before: int)
    requires cfg.maxSegments >= 1 && Concerns(input, key) && before <= input.now
    requires KeepsUp(cfg, whole, alone, key, before)
    ensures Agree(Advance(cfg, fp, whole, input), Advance(cfg, fp, alone, input), key)
    ensures KeepsUp(cfg, Advance(cfg, fp, whole, input), Advance(cfg, fp, alone, input), key, input.now)
  {
    EventSeesItsWindow(cfg, fp, whole.state, input.event, input.now, input.workflow, input.publish);
    EventSeesItsWindow(cfg, fp, alone.state, input.event, input.now, input.workflow, input.publish);
    SameFound(cfg, whole, alone, key, before, input.now);
    SameLife(cfg, fp, whole, alone, input, key, before);
  }

  lemma {:induction false} SameFound(cfg: Config, whole: World, alone: World, key: WindowKey, before: int, now: int)
    requires KeepsUp(cfg, whole, alone, key, before) && before <= now
    ensures key in Cleanup(cfg, whole.state, now).windows <==> key in Cleanup(cfg, alone.state, now).windows
    ensures WindowFor(Cleanup(cfg, whole.state, now), key, now) == WindowFor(Cleanup(cfg, alone.state, now), key, now)
  {
  }

  /** The life an event finds: that of the surviving window, or a new one. */
  function FoundLife(cfg: Config, w: World, now: int, key: WindowKey): Life {
    if key in Cleanup(cfg, w.state, now).windows && key in w.lives then w.lives[key] else NEW_LIFE
  }

  lemma {:induction false} SameFoundLife(cfg: Config, whole: World, alone: World, key: WindowKey, before: int, now: int)
    requires KeepsUp(cfg, whole, alone, key, before) && before <= now
    ensures FoundLife(cfg, whole, now, key) == FoundLife(cfg, alone, now, key)
  {
    SameFound(cfg, whole, alone, key, before, now);
  }

  lemma {:induction false} OwnLife(cfg: Config, w: World, input: Input, e: Effect, key: WindowKey)
    requires Concerns(input, key)
    ensures LifeAfter(cfg, w, input, e, key) ==
      if e.admitted.Some? && e.admitted.value.0 == key then Recorded(FoundLife(cfg, w, input.now, key), e)
      else FoundLife(cfg, w, input.now, key)
  {
  }

  lemma {:induction false} SameRecord(life: Life, e: Effect, e': Effect)
    requires e.admitted == e'.admitted && e.admitted.Some? && e.query == e'.query
    ensures Recorded(life, e) == Recorded(life, e')
  {
  }

  lemma {:induction false} SameLife(
    cfg: Config, fp: seq<Segment> -> string, whole: World, alone: World, input: Input, key: WindowKey, before: int)
    requires cfg.maxSegments >= 1 && Concerns(input, key) && before <= input.now
    requires KeepsUp(cfg, whole, alone, key, before)
    ensures
      LifeAfter(cfg, whole, input, Step(cfg, fp, whole.state, input).1, key)
        == LifeAfter(cfg, alone, input, Step(cfg, fp, alone.state, input).1, key)
  {
    var e, e' := Step(cfg, fp, whole.state, input).1, Step(cfg, fp, alone.state, input).1;
    SameFound(cfg, whole, alone, key, before, input.now);
    EventSeesItsWindow(cfg, fp, whole.state, input.event, input.now, input.workflow, input.publish);
    EventSeesItsWindow(cfg, fp, alone.state, input.event, input.now, input.workflow, input.publish);
    assert e.admitted == e'.admitted && e.query == e'.query;
    SameFoundLife(cfg, whole, alone, key, before, input.now);
    OwnLife(cfg, whole, input, e, key);
    OwnLife(cfg, alone, input, e', key);
    if e.admitted.Some? {
      SameRecord(FoundLife(cfg, whole, input.now, key), e, e');
    }
  }

  lemma {:induction false} OtherInput(
    cfg: Config, fp: seq<Segment> -> string, whole: World, alone: World, input: Input, key: WindowKey, before: int)
    requires cfg.maxSegments >= 1 && !Concerns(input, key) && before <= input.now
    requires KeepsUp(cfg, whole, alone, key, before)
    requires key in whole.state.windows ==> key in whole.lives
    ensures KeepsUp(cfg, Advance(cfg, fp, whole, input), alone, key, input.now)
  {
    if input.Arrival? {
      OtherWindowsUntouched(cfg, fp, whole.state, input.event, input.now, input.workflow, input.publish, key);
      if input.event.SegmentCreated? && input.event.payload.isFinal {
        var p := input.event.payload;
        EventSeesItsWindow(cfg, fp, whole.state, input.event, input.now, input.workflow, input.publish);
      }
    }
  }

  /**
   * However the events of all meetings interleave, a window that exists is the one its own events
   * alone would have given, with the same admitted segments and the same queries; one that its own
   * events alone would still have is gone only because it expired.
   */
  lemma {:induction false} AsIfAlone(cfg: Config, fp: seq<Segment> -> string, inputs: seq<Input>, key: WindowKey)
    requires cfg.maxSegments >= 1 && inputs != [] && ClockNeverGoesBack(inputs)
    ensures KeepsUp(cfg, Run(cfg, fp, inputs), Run(cfg, fp, Own(inputs, key)), key, inputs[|inputs| - 1].now)
  {
    hide Advance;
    var init, last := inputs[..|inputs| - 1], inputs[|inputs| - 1];
    var whole, alone := Run(cfg, fp, init), Run(cfg, fp, Own(init, key));
    var before := last.now;
    if init != [] {
      AsIfAlone(cfg, fp, init, key);
      before := init[|init| - 1].now;
      assert init[|init| - 1] == inputs[|init| - 1];
    }
    assert KeepsUp(cfg, whole, alone, key, before);
    if Concerns(last, key) {
      OwnEvent(cfg, fp, whole, alone, last, key, before);
      RunOneMore(cfg, fp, Own(init, key), last);
    } else {
      OtherInput(cfg, fp, whole, alone, last, key, before);
    }
  }

  lemma {:induction false} RunOneMore(cfg: Config, fp: seq<Segment> -> string, inputs: seq<Input>, last: Input)
    requires cfg.maxSegments >= 1
    ensures Run(cfg, fp, inputs + [last]) == Advance(cfg, fp, Run(cfg, fp, inputs), last)
  {
    assert (inputs + [last])[..|inputs|] == inputs;
  }
}
