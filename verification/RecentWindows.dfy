/**
 * When the incremental window of the feedback processor is the filter it stands for: the newest
 * `max_segments` segments, without those that ended too long before the newest one
 * (app/consumers/redis_feedback.py).
 */
module RecentWindows {
  import opened Basics
  import opened Uuids
  import opened FeedbackModel
  import opened WindowHistory
  import opened FeedbackRuns
  import opened FeedbackIsolation

  // ---------- The segments of a window ----------

  function TrimOld(segments: seq<Segment>, cutoff: int): seq<Segment> {
    if segments != [] && segments[0].endedAtMs < cutoff then TrimOld(segments[1..], cutoff) else segments
  }

  function Cutoff(cfg: Config, newest: Segment): int {
    newest.endedAtMs - cfg.WindowMs()
  }

  /** The segments of a window that holds `segments` and takes one more. */
  function Taking(cfg: Config, segments: seq<Segment>, s: Segment): seq<Segment>
    requires cfg.maxSegments >= 1
  {
    TrimOld((if |segments| >= cfg.maxSegments then segments[1..] else segments) + [s], Cutoff(cfg, s))
  }

  /** The segments of a window that has taken `admitted`, one after the other. */
  function Incremental(cfg: Config, admitted: seq<Segment>): seq<Segment>
    requires cfg.maxSegments >= 1
  {
    if admitted == [] then []
    else Taking(cfg, Incremental(cfg, admitted[..|admitted| - 1]), admitted[|admitted| - 1])
  }

  lemma {:induction false} TrimSegments(w: Window, cutoff: int)
    ensures Trim(w, cutoff).segments == TrimOld(w.segments, cutoff)
    decreases |w.segments|
  {
    if w.segments != [] && w.segments[0].endedAtMs < cutoff {
      TrimSegments(DropOldest(w), cutoff);
    }
  }

  lemma {:induction false} AbsorbSegments(cfg: Config, w: Window, p: SegmentPayload, now: int)
    requires cfg.maxSegments >= 1
    ensures Absorb(cfg, w, p, now).segments == Taking(cfg, w.segments, p.ToSegment())
  {
    var s := p.ToSegment();
    var grown := Append(w, s, cfg.maxSegments).(lastSequence := Some(p.sequence), lastActivityAt := now);
    TrimSegments(grown, Cutoff(cfg, s));
  }

  // ---------- Every window of every run ----------

  lemma {:induction false} IncrementalSnoc(cfg: Config, admitted: seq<Segment>, s: Segment)
    requires cfg.maxSegments >= 1
    ensures Incremental(cfg, admitted + [s]) == Taking(cfg, Incremental(cfg, admitted), s)
  {
    assert (admitted + [s])[..|admitted|] == admitted;
  }

  /** The window of `key` holds what its admitted segments leave. */
  ghost predicate InStep(cfg: Config, w: World, key: WindowKey)
    requires cfg.maxSegments >= 1
  {
    key in w.state.windows ==>
      key in w.lives && w.state.windows[key].segments == Incremental(cfg, w.lives[key].admitted)
  }

  lemma {:induction false} RecordedAdmits(life: Life, e: Effect)
    requires e.admitted.Some?
    ensures Recorded(life, e).admitted == life.admitted + [e.admitted.value.1]
  {
  }

  /** What an event does to its own window's segments and to the record of what was admitted. */
  lemma {:induction false} OwnAdvance(cfg: Config, fp: seq<Segment> -> string, w: World, input: Input, key: WindowKey)
    requires cfg.maxSegments >= 1 && Concerns(input, key)
    ensures
      var found := WindowFor(Cleanup(cfg, w.state, input.now), key, input.now);
      var life := FoundLife(cfg, w, input.now, key);
      var w' := Advance(cfg, fp, w, input);
      && key in w'.state.windows && key in w'.lives
      && w'.state.windows[key] == WindowAfter(cfg, fp, found, input.event, input.now, input.workflow)
      && w'.lives[key].admitted ==
           if Admission(found, input.event.payload).Taken? then life.admitted + [input.event.payload.ToSegment()]
           else life.admitted
  {
    var e := Step(cfg, fp, w.state, input).1;
    EventSeesItsWindow(cfg, fp, w.state, input.event, input.now, input.workflow, input.publish);
    OwnLife(cfg, w, input, e, key);
    if e.admitted.Some? {
      RecordedAdmits(FoundLife(cfg, w, input.now, key), e);
    }
  }

  lemma {:induction false} OwnInStep(cfg: Config, fp: seq<Segment> -> string, w: World, input: Input, key: WindowKey)
    requires cfg.maxSegments >= 1 && Concerns(input, key) && InStep(cfg, w, key)
    ensures InStep(cfg, Advance(cfg, fp, w, input), key)
  {
    var found := WindowFor(Cleanup(cfg, w.state, input.now), key, input.now);
    var life := FoundLife(cfg, w, input.now, key);
    OwnAdvance(cfg, fp, w, input, key);
    assert found.segments == Incremental(cfg, life.admitted);
    if Admission(found, input.event.payload).Taken? {
      AbsorbSegments(cfg, found, input.event.payload, input.now);
      IncrementalSnoc(cfg, life.admitted, input.event.payload.ToSegment());
    }
  }

  /** A tick, or an entry that is no final segment, changes no surviving window and no life. */
  lemma {:induction false} IdleKeeps(cfg: Config, fp: seq<Segment> -> string, w: World, input: Input, key: WindowKey)
    requires cfg.maxSegments >= 1 && w.lives.Keys == w.state.windows.Keys
    requires input.Arrival? ==> !(input.event.SegmentCreated? && input.event.payload.isFinal)
    requires key in Step(cfg, fp, w.state, input).0.windows
    ensures key in w.lives && Step(cfg, fp, w.state, input).0.windows[key] == w.state.windows[key]
    ensures LifeAfter(cfg, w, input, Step(cfg, fp, w.state, input).1, key) == w.lives[key]
  {
  }

  lemma {:induction false} OtherInStep(cfg: Config, fp: seq<Segment> -> string, w: World, input: Input, key: WindowKey)
    requires cfg.maxSegments >= 1 && !Concerns(input, key)
    requires WindowsConsistent(cfg, fp, w) && InStep(cfg, w, key)
    ensures InStep(cfg, Advance(cfg, fp, w, input), key)
  {
    if key in Step(cfg, fp, w.state, input).0.windows {
      if input.Arrival? && input.event.SegmentCreated? && input.event.payload.isFinal {
        UnrelatedLife(cfg, fp, w, input, key);
      } else {
        IdleKeeps(cfg, fp, w, input, key);
      }
      UnchangedInStep(cfg, fp, w, input, key);
    }
  }

  lemma {:induction false} UnchangedInStep(
    cfg: Config, fp: seq<Segment> -> string, w: World, input: Input, key: WindowKey)
    requires cfg.maxSegments >= 1 && InStep(cfg, w, key) && key in w.state.windows && key in w.lives
    requires key in Step(cfg, fp, w.state, input).0.windows
    requires Step(cfg, fp, w.state, input).0.windows[key] == w.state.windows[key]
    requires LifeAfter(cfg, w, input, Step(cfg, fp, w.state, input).1, key) == w.lives[key]
    ensures InStep(cfg, Advance(cfg, fp, w, input), key)
  {
  }

  lemma {:induction false} TraceInStep(
    cfg: Config, fp: seq<Segment> -> string, trace: seq<World>, n: nat, key: WindowKey)
    requires cfg.maxSegments >= 1 && n < |trace| && trace[0] == INITIAL_WORLD
    requires forall i :: 0 <= i < |trace| - 1 ==> Follows(cfg, fp, trace[i], trace[i + 1])
    ensures InStep(cfg, trace[n], key)
  {
    if n > 0 {
      TraceInStep(cfg, fp, trace, n - 1, key);
      TraceConsistent(cfg, fp, trace, n - 1);
      assert Follows(cfg, fp, trace[n - 1], trace[n - 1 + 1]);
      var input :| trace[n] == Advance(cfg, fp, trace[n - 1], input);
      if Concerns(input, key) {
        OwnInStep(cfg, fp, trace[n - 1], input, key);
      } else {
        OtherInStep(cfg, fp, trace[n - 1], input, key);
      }
    }
  }

  /** In every reachable state every window holds what its admitted segments leave. */
  lemma {:induction false} ReachableIsIncremental(cfg: Config, fp: seq<Segment> -> string, world: World, key: WindowKey)
    requires cfg.maxSegments >= 1 && Reachable(cfg, fp, world) && key in world.state.windows
    ensures key in world.lives
    ensures world.state.windows[key].segments == Incremental(cfg, world.lives[key].admitted)
  {
    var trace: seq<World> :|
      && trace != [] && trace[0] == INITIAL_WORLD && trace[|trace| - 1] == world
      && forall i :: 0 <= i < |trace| - 1 ==> Follows(cfg, fp, trace[i], trace[i + 1]);
    TraceInStep(cfg, fp, trace, |trace| - 1, key);
  }

  // ---------- The window starts at the first segment that is not expired ----------

  lemma {:induction false} TrimOldSpec(segments: seq<Segment>, cutoff: int) returns (k: nat)
    requires segments != [] && segments[|segments| - 1].endedAtMs >= cutoff
    ensures k < |segments| && TrimOld(segments, cutoff) == segments[k..]
    ensures segments[k].endedAtMs >= cutoff && AllExpired(segments, 0, k, cutoff)
    decreases |segments|
  {
    k := 0;
    if segments[0].endedAtMs < cutoff {
      var rest := TrimOldSpec(segments[1..], cutoff);
      k := rest + 1;
      forall i | 0 <= i < k ensures segments[i].endedAtMs < cutoff {
        if i > 0 {
          assert segments[i] == segments[1..][i - 1];
        }
      }
    }
  }

  /** The position among the admitted segments where the window starts. */
  function StartOf(cfg: Config, admitted: seq<Segment>): int
    requires cfg.maxSegments >= 1
  {
    |admitted| - |Incremental(cfg, admitted)|
  }

  ghost predicate IsSuffix(cfg: Config, admitted: seq<Segment>)
    requires cfg.maxSegments >= 1
  {
    && Oldest(cfg, |admitted|) <= StartOf(cfg, admitted) <= |admitted|
    && (admitted != [] ==> StartOf(cfg, admitted) < |admitted|)
    && Incremental(cfg, admitted) == admitted[StartOf(cfg, admitted)..]
  }

  /** Where the newest `max_segments` of `n` segments begin. */
  function Oldest(cfg: Config, n: nat): nat {
    Max(0, n - cfg.maxSegments)
  }

  lemma {:induction false} Grown(cfg: Config, admitted: seq<Segment>, start: nat, s: Segment) returns (from: nat)
    requires cfg.maxSegments >= 1 && Oldest(cfg, |admitted|) <= start <= |admitted|
    ensures from == Max(start, Oldest(cfg, |admitted| + 1)) <= |admitted|
    ensures
      var held := admitted[start..];
      (if |held| >= cfg.maxSegments then held[1..] else held) + [s] == (admitted + [s])[from..]
  {
    from := Max(start, Oldest(cfg, |admitted| + 1));
  }

  /** `start` is the first position from `from` on whose segment has not expired. */
  ghost predicate FirstFresh(segments: seq<Segment>, from: int, start: int, cutoff: int) {
    && 0 <= from <= start < |segments|
    && AllExpired(segments, from, start, cutoff)
    && segments[start].endedAtMs >= cutoff
  }

  lemma {:induction false} TrimTail(segments: seq<Segment>, from: nat, cutoff: int) returns (start: nat)
    requires from < |segments| && segments[|segments| - 1].endedAtMs >= cutoff
    ensures FirstFresh(segments, from, start, cutoff)
    ensures TrimOld(segments[from..], cutoff) == segments[start..]
  {
    var tail := segments[from..];
    var k := TrimOldSpec(tail, cutoff);
    start := from + k;
    assert tail[k..] == segments[start..];
    forall i | from <= i < start ensures segments[i].endedAtMs < cutoff {
      assert segments[i] == tail[i - from];
    }
  }

  /** Taking a segment moves the start to the first segment, from there on, that has not expired. */
  lemma {:induction false} StartMoves(cfg: Config, admitted: seq<Segment>, s: Segment)
    requires cfg.maxSegments >= 1 && IsSuffix(cfg, admitted)
    ensures IsSuffix(cfg, admitted + [s])
    ensures FirstFresh(admitted + [s], Max(StartOf(cfg, admitted), Oldest(cfg, |admitted| + 1)),
                       StartOf(cfg, admitted + [s]), Cutoff(cfg, s))
  {
    var from := Grown(cfg, admitted, StartOf(cfg, admitted), s);
    IncrementalSnoc(cfg, admitted, s);
    var start := TrimTail(admitted + [s], from, Cutoff(cfg, s));
    assert Incremental(cfg, admitted + [s]) == (admitted + [s])[start..];
    assert StartOf(cfg, admitted + [s]) == start;
  }

  lemma {:induction false} IncrementalIsSuffix(cfg: Config, admitted: seq<Segment>)
    requires cfg.maxSegments >= 1
    ensures IsSuffix(cfg, admitted)
  {
    if admitted != [] {
      var init := admitted[..|admitted| - 1];
      IncrementalIsSuffix(cfg, init);
      StartMoves(cfg, init, admitted[|admitted| - 1]);
      assert init + [admitted[|admitted| - 1]] == admitted;
    }
  }

  // ---------- The filter ----------

  lemma {:induction false} FilterConcat(a: seq<Segment>, b: seq<Segment>, cutoff: int)
    ensures NotOlderThan(a + b, cutoff) == NotOlderThan(a, cutoff) + NotOlderThan(b, cutoff)
  {
    if a == [] {
      assert a + b == b;
    } else {
      assert (a + b)[1..] == a[1..] + b;
      FilterConcat(a[1..], b, cutoff);
    }
  }

  lemma {:induction false} FilterLength(segments: seq<Segment>, cutoff: int)
    ensures |NotOlderThan(segments, cutoff)| <= |segments|
    ensures |NotOlderThan(segments, cutoff)| == |segments| ==>
      forall i :: 0 <= i < |segments| ==> segments[i].endedAtMs >= cutoff
    ensures NotOlderThan(segments, cutoff) == [] ==> AllExpired(segments, 0, |segments|, cutoff)
  {
    if segments != [] {
      FilterLength(segments[1..], cutoff);
    }
  }

  lemma {:induction false} FilterMembers(segments: seq<Segment>, cutoff: int)
    ensures forall s :: s in NotOlderThan(segments, cutoff) ==> s.endedAtMs >= cutoff
  {
    if segments != [] {
      FilterMembers(segments[1..], cutoff);
    }
  }

  lemma {:induction false} FilterKeepsFresh(segments: seq<Segment>, cutoff: int)
    requires forall i :: 0 <= i < |segments| ==> segments[i].endedAtMs >= cutoff
    ensures NotOlderThan(segments, cutoff) == segments
  {
    NotOlderThanSkips(segments, cutoff, 0);
  }

  /** The filter gives the segments from `start` on just when these are fresh and those before are not. */
  lemma {:induction false} FilterIsSuffix(segments: seq<Segment>, start: nat, cutoff: int)
    requires start <= |segments|
    ensures NotOlderThan(segments, cutoff) == segments[start..] <==>
      && AllExpired(segments, 0, start, cutoff)
      && forall i :: start <= i < |segments| ==> segments[i].endedAtMs >= cutoff
  {
    var before, behind := segments[..start], segments[start..];
    assert segments == before + behind;
    FilterConcat(before, behind, cutoff);
    if NotOlderThan(segments, cutoff) == behind {
      FilterMembers(segments, cutoff);
      forall i | start <= i < |segments| ensures segments[i].endedAtMs >= cutoff {
        assert behind[i - start] in behind;
      }
      FilterKeepsFresh(behind, cutoff);
      FilterLength(before, cutoff);
      assert |NotOlderThan(before, cutoff)| == 0;
      forall i | 0 <= i < start ensures segments[i].endedAtMs < cutoff {
        assert segments[i] == before[i];
      }
    }
    if AllExpired(segments, 0, start, cutoff)
      && forall i :: start <= i < |segments| ==> segments[i].endedAtMs >= cutoff {
      NotOlderThanSkips(segments, cutoff, start);
    }
  }

  /** Segment `i` has not expired when the window holds the first `m` segments. */
  predicate Fresh(cfg: Config, admitted: seq<Segment>, m: nat, i: int)
    requires 0 <= i < m <= |admitted|
  {
    admitted[i].endedAtMs >= Cutoff(cfg, admitted[m - 1])
  }

  /** The window that took the first `m` segments is the filter. */
  ghost predicate MatchesFilter(cfg: Config, admitted: seq<Segment>, m: nat)
    requires cfg.maxSegments >= 1 && m <= |admitted|
  {
    Incremental(cfg, admitted[..m]) == RecentSegments(cfg, admitted[..m])
  }

  /** Among the newest `max_segments` of the first `m`, the fresh ones are those from `start` on. */
  ghost predicate FreshFrom(cfg: Config, admitted: seq<Segment>, m: nat, start: int)
    requires m <= |admitted|
  {
    forall i :: Oldest(cfg, m) <= i < m ==> (Fresh(cfg, admitted, m, i) <==> start <= i)
  }

  lemma {:induction false} FreshInNewest(cfg: Config, admitted: seq<Segment>, m: nat, start: nat, newest: seq<Segment>)
    requires 0 < m <= |admitted| && Oldest(cfg, m) <= start < m
    requires newest == admitted[Oldest(cfg, m)..m]
    ensures FreshFrom(cfg, admitted, m, start) <==>
      && AllExpired(newest, 0, start - Oldest(cfg, m), Cutoff(cfg, admitted[m - 1]))
      && forall i :: start - Oldest(cfg, m) <= i < |newest| ==> newest[i].endedAtMs >= Cutoff(cfg, admitted[m - 1])
  {
    var lo, cutoff := Oldest(cfg, m), Cutoff(cfg, admitted[m - 1]);
    if FreshFrom(cfg, admitted, m, start) {
      forall i | 0 <= i < |newest| ensures newest[i].endedAtMs >= cutoff <==> start - lo <= i {
        assert Fresh(cfg, admitted, m, lo + i) <==> start <= lo + i;
      }
    } else {
      var i :| lo <= i < m && !(Fresh(cfg, admitted, m, i) <==> start <= i);
      assert newest[i - lo] == admitted[i];
    }
  }

  lemma {:induction false} SameTail(segments: seq<Segment>, lo: nat, start: nat, m: nat)
    requires lo <= start <= m <= |segments|
    ensures segments[lo..m][start - lo..] == segments[..m][start..]
  {
  }

  lemma {:induction false} RecentIsFilter(cfg: Config, admitted: seq<Segment>, m: nat)
    requires 0 < m <= |admitted|
    ensures RecentSegments(cfg, admitted[..m])
         == NotOlderThan(admitted[Oldest(cfg, m)..m], Cutoff(cfg, admitted[m - 1]))
  {
    assert TakeLast(admitted[..m], cfg.maxSegments) == admitted[Oldest(cfg, m)..m];
  }

  lemma {:induction false} FilterIsRecent(cfg: Config, admitted: seq<Segment>, m: nat, start: nat)
    requires 0 < m <= |admitted| && Oldest(cfg, m) <= start < m
    ensures RecentSegments(cfg, admitted[..m]) == admitted[..m][start..] <==> FreshFrom(cfg, admitted, m, start)
  {
    var lo, newest := Oldest(cfg, m), admitted[Oldest(cfg, m)..m];
    RecentIsFilter(cfg, admitted, m);
    SameTail(admitted, lo, start, m);
    FilterIsSuffix(newest, start - lo, Cutoff(cfg, admitted[m - 1]));
    FreshInNewest(cfg, admitted, m, start, newest);
  }

  /** Where the window starts that took the first `m` segments. */
  function StartAt(cfg: Config, admitted: seq<Segment>, m: nat): int
    requires cfg.maxSegments >= 1 && m <= |admitted|
  {
    StartOf(cfg, admitted[..m])
  }

  lemma {:induction false} StartBounds(cfg: Config, admitted: seq<Segment>, m: nat)
    requires cfg.maxSegments >= 1 && 0 < m <= |admitted|
    ensures Oldest(cfg, m) <= StartAt(cfg, admitted, m) < m
    ensures MatchesFilter(cfg, admitted, m) <==> FreshFrom(cfg, admitted, m, StartAt(cfg, admitted, m))
  {
    IncrementalIsSuffix(cfg, admitted[..m]);
    FilterIsRecent(cfg, admitted, m, StartAt(cfg, admitted, m));
  }

  /** The next start is the first, from the present one on, that is fresh then. */
  lemma {:induction false} StartSteps(cfg: Config, admitted: seq<Segment>, m: nat, next: nat)
    requires cfg.maxSegments >= 1 && m < |admitted| && next == m + 1
    ensures FirstFresh(admitted[..next], Max(StartAt(cfg, admitted, m), Oldest(cfg, next)),
                       StartAt(cfg, admitted, next), Cutoff(cfg, admitted[m]))
  {
    assert admitted[..m] + [admitted[m]] == admitted[..next];
    IncrementalIsSuffix(cfg, admitted[..m]);
    StartMoves(cfg, admitted[..m], admitted[m]);
  }

  lemma {:induction false} FirstFreshMeans(cfg: Config, admitted: seq<Segment>, next: nat, from: int, start: int)
    requires 0 < next <= |admitted|
    requires FirstFresh(admitted[..next], from, start, Cutoff(cfg, admitted[next - 1]))
    ensures 0 <= from <= start < next && Fresh(cfg, admitted, next, start)
    ensures forall i :: from <= i < start ==> !Fresh(cfg, admitted, next, i)
  {
    forall i | from <= i < start ensures !Fresh(cfg, admitted, next, i) {
      assert admitted[..next][i] == admitted[i];
    }
  }

  /** Among the newest `max_segments` of the first `m`, no expired one stands behind a fresh one. */
  ghost predicate FreshStayTogether(cfg: Config, admitted: seq<Segment>, m: nat)
    requires m <= |admitted|
  {
    forall i, j :: Oldest(cfg, m) <= i < j < m && Fresh(cfg, admitted, m, i) ==> Fresh(cfg, admitted, m, j)
  }

  /** What has expired among `m` segments and is still among the newest of one more, is expired then too. */
  ghost predicate ExpiredStayExpired(cfg: Config, admitted: seq<Segment>, m: nat)
    requires m < |admitted|
  {
    forall i :: Oldest(cfg, m + 1) <= i < m && !Fresh(cfg, admitted, m, i) ==> !Fresh(cfg, admitted, m + 1, i)
  }

  lemma {:induction false} MatchKeeps(cfg: Config, admitted: seq<Segment>, m: nat, next: nat)
    requires cfg.maxSegments >= 1 && 0 < m < |admitted| && next == m + 1
    requires MatchesFilter(cfg, admitted, m)
    requires ExpiredStayExpired(cfg, admitted, m) && FreshStayTogether(cfg, admitted, next)
    ensures MatchesFilter(cfg, admitted, next)
  {
    var start, start' := StartAt(cfg, admitted, m), StartAt(cfg, admitted, next);
    StartBounds(cfg, admitted, m);
    StartBounds(cfg, admitted, next);
    StartSteps(cfg, admitted, m, next);
    FirstFreshMeans(cfg, admitted, next, Max(start, Oldest(cfg, next)), start');
    forall i | Oldest(cfg, next) <= i < next ensures Fresh(cfg, admitted, next, i) <==> start' <= i {
      if i < start {
        assert !Fresh(cfg, admitted, m, i);
      }
    }
  }

  lemma {:induction false} FirstMatches(cfg: Config, admitted: seq<Segment>)
    requires cfg.maxSegments >= 1 && admitted != []
    ensures MatchesFilter(cfg, admitted, 1)
  {
    StartBounds(cfg, admitted, 1);
    assert Fresh(cfg, admitted, 1, 0);
  }

  lemma {:induction false} MatchKeepsFreshTogether(cfg: Config, admitted: seq<Segment>, m: nat)
    requires cfg.maxSegments >= 1 && 0 < m <= |admitted| && MatchesFilter(cfg, admitted, m)
    ensures FreshStayTogether(cfg, admitted, m)
  {
    StartBounds(cfg, admitted, m);
  }

  lemma {:induction false} MatchesKeepExpired(cfg: Config, admitted: seq<Segment>, m: nat, next: nat)
    requires cfg.maxSegments >= 1 && 0 < m < |admitted| && next == m + 1
    requires MatchesFilter(cfg, admitted, m) && MatchesFilter(cfg, admitted, next)
    ensures ExpiredStayExpired(cfg, admitted, m)
  {
    var start, start' := StartAt(cfg, admitted, m), StartAt(cfg, admitted, next);
    StartBounds(cfg, admitted, m);
    StartBounds(cfg, admitted, next);
    StartSteps(cfg, admitted, m, next);
    FirstFreshMeans(cfg, admitted, next, Max(start, Oldest(cfg, next)), start');
    forall i | Oldest(cfg, next) <= i < m && !Fresh(cfg, admitted, m, i) ensures !Fresh(cfg, admitted, next, i) {
      assert i < start;
    }
  }

  ghost predicate MatchesThroughout(cfg: Config, admitted: seq<Segment>)
    requires cfg.maxSegments >= 1
  {
    forall m :: 0 < m <= |admitted| ==> MatchesFilter(cfg, admitted, m)
  }

  ghost predicate EndTimesFit(cfg: Config, admitted: seq<Segment>) {
    && (forall m :: 0 < m <= |admitted| ==> FreshStayTogether(cfg, admitted, m))
    && (forall m :: 0 < m < |admitted| ==> ExpiredStayExpired(cfg, admitted, m))
  }

  /**
   * The window is the filter after every admitted segment if and only if, among the newest
   * `max_segments` at every point, expired segments stand in front of the others, and what has
   * expired stays so.
   */
  lemma {:induction false} WindowIsFilterIff(cfg: Config, admitted: seq<Segment>)
    requires cfg.maxSegments >= 1
    ensures MatchesThroughout(cfg, admitted) <==> EndTimesFit(cfg, admitted)
  {
    if EndTimesFit(cfg, admitted) {
      forall m | 0 < m <= |admitted| ensures MatchesFilter(cfg, admitted, m) {
        FitMatches(cfg, admitted, m);
      }
    }
    if MatchesThroughout(cfg, admitted) {
      forall m | 0 < m <= |admitted|
        ensures FreshStayTogether(cfg, admitted, m)
        ensures m < |admitted| ==> ExpiredStayExpired(cfg, admitted, m)
      {
        MatchKeepsFreshTogether(cfg, admitted, m);
        if m < |admitted| {
          MatchesKeepExpired(cfg, admitted, m, m + 1);
        }
      }
    }
  }

  lemma {:induction false} FitMatches(cfg: Config, admitted: seq<Segment>, m: nat)
    requires cfg.maxSegments >= 1 && 0 < m <= |admitted| && EndTimesFit(cfg, admitted)
    ensures MatchesFilter(cfg, admitted, m)
  {
    if m == 1 {
      FirstMatches(cfg, admitted);
    } else {
      FitMatches(cfg, admitted, m - 1);
      assert ExpiredStayExpired(cfg, admitted, m - 1);
      MatchKeeps(cfg, admitted, m - 1, m);
    }
  }

  // ---------- A run whose window is not the filter ----------

  const EXAMPLE_KEY := WindowKey(0, 0)

  /** An event of the example's only meeting. */
  function ExampleInput(number: Uuid, endedAtMs: nat, workflow: Command -> WorkflowOutcome): Input {
    Arrival(0, SegmentCreated(0, SegmentPayload(0, 0, 0, [0], number, number, "ko", "x", true, 0, endedAtMs)),
            workflow, NoPublisher)
  }

  function ExampleSegment(number: Uuid, endedAtMs: nat): Segment {
    Segment(number, number, "ko", "x", 0, endedAtMs)
  }

  /** Room for three segments, ten seconds of speech, and never a query. */
  const EXAMPLE_CONFIG := Config(3, 10, 4, 0, 0, 0, 1)

  /** The window has taken the first segments of the example and holds them all. */
  ghost predicate HoldsExample(w: World, segments: seq<Segment>) {
    if segments == [] then w == INITIAL_WORLD
    else
      && EXAMPLE_KEY in w.state.windows && EXAMPLE_KEY in w.lives
      && w.lives[EXAMPLE_KEY].admitted == segments
      && var window := w.state.windows[EXAMPLE_KEY];
         && window.segments == segments && window.lastActivityAt == 0
         && window.lastSequence == Some(|segments| - 1)
         && forall id :: id in window.segmentIds ==> id < |segments|
  }

  lemma {:induction false} ExampleStep(
    fp: seq<Segment> -> string, w: World, segments: seq<Segment>, endedAtMs: nat,
    workflow: Command -> WorkflowOutcome)
    requires |segments| < 3 && HoldsExample(w, segments)
    requires (segments + [ExampleSegment(|segments|, endedAtMs)])[0].endedAtMs >= endedAtMs - 10_000
    ensures HoldsExample(Advance(EXAMPLE_CONFIG, fp, w, ExampleInput(|segments|, endedAtMs, workflow)),
                         segments + [ExampleSegment(|segments|, endedAtMs)])
  {
    var input := ExampleInput(|segments|, endedAtMs, workflow);
    var p := input.event.payload;
    OwnAdvance(EXAMPLE_CONFIG, fp, w, input, EXAMPLE_KEY);
    var found := WindowFor(Cleanup(EXAMPLE_CONFIG, w.state, 0), EXAMPLE_KEY, 0);
    assert found.segments == segments && Admission(found, p).Taken?;
    var taken := Absorb(EXAMPLE_CONFIG, found, p, 0);
    assert taken.segments == segments + [p.ToSegment()];
    assert !Ripe(EXAMPLE_CONFIG, taken, endedAtMs);
  }

  function ExampleInputs(workflow: Command -> WorkflowOutcome): seq<Input> {
    [] + [ExampleInput(0, 20_000, workflow)] + [ExampleInput(1, 5_000, workflow)] + [ExampleInput(2, 21_000, workflow)]
  }

  function ExampleSegments(): seq<Segment> {
    [] + [ExampleSegment(0, 20_000)] + [ExampleSegment(1, 5_000)] + [ExampleSegment(2, 21_000)]
  }

  lemma {:induction false} ExampleRun(fp: seq<Segment> -> string, workflow: Command -> WorkflowOutcome)
    ensures HoldsExample(Run(EXAMPLE_CONFIG, fp, ExampleInputs(workflow)), ExampleSegments())
  {
    hide Advance;
    var a, b := ExampleInput(0, 20_000, workflow), ExampleInput(1, 5_000, workflow);
    var first, second := ExampleSegment(0, 20_000), ExampleSegment(1, 5_000);
    var w0 := Run(EXAMPLE_CONFIG, fp, []);
    RunOneMore(EXAMPLE_CONFIG, fp, [], a);
    RunOneMore(EXAMPLE_CONFIG, fp, [] + [a], b);
    RunOneMore(EXAMPLE_CONFIG, fp, [] + [a] + [b], ExampleInput(2, 21_000, workflow));
    ExampleStep(fp, w0, [], 20_000, workflow);
    var w1 := Advance(EXAMPLE_CONFIG, fp, w0, a);
    ExampleStep(fp, w1, [] + [first], 5_000, workflow);
    ExampleStep(fp, Advance(EXAMPLE_CONFIG, fp, w1, b), [] + [first] + [second], 21_000, workflow);
  }

  lemma {:induction false} ExampleMeetsSchema(workflow: Command -> WorkflowOutcome)
    ensures forall i :: 0 <= i < |ExampleInputs(workflow)| ==> FromSchema(ExampleInputs(workflow)[i])
  {
  }

  /**
   * When end times go back the window need not be the filter: a run of events that meet their schema
   * in which an expired segment stays behind a fresh head.
   */
  lemma {:induction false} OutOfOrderEndTimes(fp: seq<Segment> -> string, workflow: Command -> WorkflowOutcome)
    returns (inputs: seq<Input>)
    ensures forall i :: 0 <= i < |inputs| ==> FromSchema(inputs[i])
    ensures
      var world := Run(EXAMPLE_CONFIG, fp, inputs);
      && EXAMPLE_KEY in world.state.windows && EXAMPLE_KEY in world.lives
      && world.state.windows[EXAMPLE_KEY].segments
           != RecentSegments(EXAMPLE_CONFIG, world.lives[EXAMPLE_KEY].admitted)
  {
    hide ExampleInputs, FromSchema, Run;
    inputs := ExampleInputs(workflow);
    ExampleMeetsSchema(workflow);
    ExampleRun(fp, workflow);
    HoldsExpired(ExampleSegments(), 1);
  }

  lemma {:induction false} HoldsExpired(segments: seq<Segment>, i: nat)
    requires i < |segments|
    requires segments[i].endedAtMs < Cutoff(EXAMPLE_CONFIG, segments[|segments| - 1])
    ensures segments != RecentSegments(EXAMPLE_CONFIG, segments)
  {
    FilterMembers(TakeLast(segments, 3), Cutoff(EXAMPLE_CONFIG, segments[|segments| - 1]));
    assert segments[i] in segments;
  }
}
