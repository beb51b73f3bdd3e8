/**
 * What one meeting window keeps from its creation to its removal: its relation to the list of
 * segments admitted so far, and to the queries executed for it.
 */
module WindowHistory {
  import opened Basics
  import opened Text
  import opened Uuids
  import opened FeedbackModel

  // ---------- Admitted segments ----------

  ghost predicate SequencesIncrease(segments: seq<Segment>) {
    forall i, j :: 0 <= i < j < |segments| ==> segments[i].sequence < segments[j].sequence
  }

  ghost predicate EndTimesNondecreasing(segments: seq<Segment>) {
    forall i, j :: 0 <= i < j < |segments| ==> segments[i].endedAtMs <= segments[j].endedAtMs
  }

  ghost predicate IdsDiffer(segments: seq<Segment>) {
    forall i, j :: 0 <= i < j < |segments| ==> segments[i].segmentId != segments[j].segmentId
  }

  ghost function Ids(segments: seq<Segment>): set<Uuid> {
    set i | 0 <= i < |segments| :: segments[i].segmentId
  }

  /** `ids` holds the id of every segment, each once, and nothing else. */
  ghost predicate ExactIds(segments: seq<Segment>, ids: set<Uuid>) {
    if segments == [] then ids == {}
    else segments[0].segmentId in ids && ExactIds(segments[1..], ids - {segments[0].segmentId})
  }

  lemma {:induction false} ExactIdsSnoc(segments: seq<Segment>, ids: set<Uuid>, s: Segment)
    requires ExactIds(segments, ids) && s.segmentId !in ids
    ensures ExactIds(segments + [s], ids + {s.segmentId})
  {
    if segments == [] {
      assert ids + {s.segmentId} - {s.segmentId} == {};
    } else {
      var id := segments[0].segmentId;
      ExactIdsSnoc(segments[1..], ids - {id}, s);
      assert (segments + [s])[1..] == segments[1..] + [s];
      assert ids + {s.segmentId} - {id} == ids - {id} + {s.segmentId};
    }
  }

  lemma {:induction false} ExactIdsMeaning(segments: seq<Segment>, ids: set<Uuid>)
    requires ExactIds(segments, ids)
    ensures ids == Ids(segments) && IdsDiffer(segments)
  {
    if segments != [] {
      var id := segments[0].segmentId;
      ExactIdsMeaning(segments[1..], ids - {id});
      forall i | 1 <= i < |segments| ensures segments[i].segmentId in ids - {id} {
        assert segments[1..][i - 1] == segments[i];
      }
      forall x | x in ids ensures x in Ids(segments) {
        if x == id {
          assert segments[0].segmentId == x;
        } else {
          assert x in Ids(segments[1..]);
          var i :| 0 <= i < |segments[1..]| && segments[1..][i].segmentId == x;
          assert segments[i + 1].segmentId == x;
        }
      }
    }
  }

  function NewestEnd(segments: seq<Segment>): nat
    requires segments != []
  {
    segments[|segments| - 1].endedAtMs
  }

  /** How many admitted segments the window has let go. */
  function Start(w: Window, admitted: seq<Segment>): int {
    |admitted| - |w.segments|
  }

  /** The window holds the newest admitted segments, at most `maxSegments`, and exactly their ids. */
  ghost predicate HoldsSuffix(cfg: Config, w: Window, admitted: seq<Segment>) {
    && |w.segments| <= cfg.maxSegments
    && 0 <= Start(w, admitted) && w.segments == admitted[Start(w, admitted)..]
    && ExactIds(w.segments, w.segmentIds)
    && (admitted != [] ==> w.segments != [])
  }

  /** The oldest kept segment has not expired; what a full window let go before time had expired. */
  ghost predicate KeepsRecent(cfg: Config, start: int, admitted: seq<Segment>)
    requires admitted != [] ==> 0 <= start < |admitted|
  {
    admitted != [] ==>
      var cutoff := NewestEnd(admitted) - cfg.WindowMs();
      && admitted[start].endedAtMs >= cutoff
      && (EndTimesNondecreasing(admitted) ==> AllExpired(admitted, |admitted| - cfg.maxSegments, start, cutoff))
  }

  /** The segments `lo`, ..., `hi` - 1 ended before the cutoff. */
  ghost predicate AllExpired(segments: seq<Segment>, lo: int, hi: int, cutoff: int)
    requires hi <= |segments|
  {
    forall i :: 0 <= i < hi && lo <= i ==> segments[i].endedAtMs < cutoff
  }

  /** The window after the segments in `admitted`. */
  ghost predicate Tracks(cfg: Config, w: Window, admitted: seq<Segment>) {
    && HoldsSuffix(cfg, w, admitted)
    && KeepsRecent(cfg, Start(w, admitted), admitted)
    && SequencesIncrease(admitted)
    && w.lastSequence == (if admitted == [] then None else Some(admitted[|admitted| - 1].sequence))
  }

  /** Trimming drops `k` segments, all expired, and stops in front of one that is not. */
  lemma {:induction false} TrimDropsExpiredPrefix(w: Window, cutoff: int) returns (k: nat)
    requires ExactIds(w.segments, w.segmentIds)
    ensures k <= |w.segments|
    ensures var r := Trim(w, cutoff);
      && r.segments == w.segments[k..]
      && ExactIds(r.segments, r.segmentIds)
      && r == w.(segments := r.segments, segmentIds := r.segmentIds)
    ensures forall i :: 0 <= i < k ==> w.segments[i].endedAtMs < cutoff
    ensures k < |w.segments| ==> w.segments[k].endedAtMs >= cutoff
    decreases |w.segments|
  {
    if w.segments != [] && w.segments[0].endedAtMs < cutoff {
      var k' := TrimDropsExpiredPrefix(DropOldest(w), cutoff);
      k := k' + 1;
      assert w.segments[1..][k'..] == w.segments[k..];
    } else {
      k := 0;
    }
  }

  lemma {:induction false} AppendKeepsIds(w: Window, s: Segment, maxSegments: nat)
    requires 1 <= maxSegments && |w.segments| <= maxSegments
    requires ExactIds(w.segments, w.segmentIds) && s.segmentId !in w.segmentIds
    ensures var r := Append(w, s, maxSegments);
      && ExactIds(r.segments, r.segmentIds)
      && |r.segments| == Min(|w.segments| + 1, maxSegments)
      && r.segments == (w.segments + [s])[|w.segments| + 1 - |r.segments|..]
  {
    var room := if |w.segments| >= maxSegments then DropOldest(w) else w;
    ExactIdsSnoc(room.segments, room.segmentIds, s);
  }

  lemma {:induction false} AppendSuffix(cfg: Config, w: Window, s: Segment, admitted: seq<Segment>)
    requires cfg.maxSegments >= 1
    requires HoldsSuffix(cfg, w, admitted) && s.segmentId !in w.segmentIds
    ensures var r := Append(w, s, cfg.maxSegments);
      && HoldsSuffix(cfg, r, admitted + [s])
      && Start(r, admitted + [s]) == Max(Start(w, admitted), |admitted| + 1 - cfg.maxSegments)
      && r == w.(segments := r.segments, segmentIds := r.segmentIds)
  {
    AppendKeepsIds(w, s, cfg.maxSegments);
    var r := Append(w, s, cfg.maxSegments);
    assert w.segments + [s] == (admitted + [s])[Start(w, admitted)..];
    assert r.segments == (admitted + [s])[Start(r, admitted + [s])..];
  }

  lemma {:induction false} TrimSuffix(cfg: Config, w: Window, cutoff: int, admitted: seq<Segment>) returns (k: nat)
    requires HoldsSuffix(cfg, w, admitted) && admitted != [] && NewestEnd(admitted) >= cutoff
    ensures var r := Trim(w, cutoff);
      && HoldsSuffix(cfg, r, admitted)
      && Start(r, admitted) == Start(w, admitted) + k < |admitted|
      && admitted[Start(r, admitted)].endedAtMs >= cutoff
      && r == w.(segments := r.segments, segmentIds := r.segmentIds)
    ensures AllExpired(admitted[Start(w, admitted)..], 0, k, cutoff)
  {
    k := TrimDropsExpiredPrefix(w, cutoff);
    var start := Start(w, admitted);
    assert w.segments[|w.segments| - 1] == admitted[|admitted| - 1];
    assert admitted[start..][k..] == admitted[start + k..];
  }

  lemma {:induction false} AbsorbSuffix(cfg: Config, w: Window, p: SegmentPayload, now: int, admitted: seq<Segment>)
    returns (grown: nat, k: nat)
    requires cfg.maxSegments >= 1
    requires HoldsSuffix(cfg, w, admitted) && p.segmentId !in w.segmentIds
    ensures var w' := Absorb(cfg, w, p, now);
      var admitted' := admitted + [p.ToSegment()];
      var cutoff := p.endedAtMs - cfg.WindowMs();
      && HoldsSuffix(cfg, w', admitted')
      && grown == Max(Start(w, admitted), |admitted'| - cfg.maxSegments)
      && Start(w', admitted') == grown + k < |admitted'|
      && admitted'[grown + k].endedAtMs >= cutoff
      && AllExpired(admitted'[grown..], 0, k, cutoff)
      && w' == w.(segments := w'.segments, segmentIds := w'.segmentIds,
                  lastSequence := Some(p.sequence), lastActivityAt := now)
  {
    var s := p.ToSegment();
    AppendSuffix(cfg, w, s, admitted);
    var full := Append(w, s, cfg.maxSegments).(lastSequence := Some(p.sequence), lastActivityAt := now);
    grown := Start(full, admitted + [s]);
    k := TrimSuffix(cfg, full, p.endedAtMs - cfg.WindowMs(), admitted + [s]);
  }

  lemma {:induction false} AbsorbDropsExpired(
    cfg: Config, admitted: seq<Segment>, s: Segment, start: nat, grown: nat, k: nat)
    requires start <= |admitted| && (admitted != [] ==> start < |admitted|)
    requires KeepsRecent(cfg, start, admitted)
    requires grown == Max(start, |admitted| + 1 - cfg.maxSegments) && grown + k <= |admitted|
    requires AllExpired((admitted + [s])[grown..], 0, k, s.endedAtMs - cfg.WindowMs())
    requires EndTimesNondecreasing(admitted + [s])
    ensures AllExpired(
      admitted + [s], |admitted| + 1 - cfg.maxSegments, grown + k, s.endedAtMs - cfg.WindowMs())
  {
    var admitted' := admitted + [s];
    forall i | 0 <= i < grown + k && |admitted'| - cfg.maxSegments <= i
      ensures admitted'[i].endedAtMs < s.endedAtMs - cfg.WindowMs()
    {
      if i >= grown {
        assert admitted'[i] == admitted'[grown..][i - grown];
      } else {
        assert EndTimesNondecreasing(admitted) by {
          assert forall j :: 0 <= j < |admitted| ==> admitted'[j] == admitted[j];
        }
        assert admitted'[i] == admitted[i];
        assert admitted'[|admitted| - 1].endedAtMs <= admitted'[|admitted|].endedAtMs;
      }
    }
  }

  lemma {:induction false} KeepsRecentGrows(
    cfg: Config, admitted: seq<Segment>, s: Segment, start: nat, grown: nat, k: nat)
    requires start <= |admitted| && (admitted != [] ==> start < |admitted|)
    requires KeepsRecent(cfg, start, admitted)
    requires grown == Max(start, |admitted| + 1 - cfg.maxSegments) && grown + k <= |admitted|
    requires (admitted + [s])[grown + k].endedAtMs >= s.endedAtMs - cfg.WindowMs()
    requires AllExpired((admitted + [s])[grown..], 0, k, s.endedAtMs - cfg.WindowMs())
    ensures KeepsRecent(cfg, grown + k, admitted + [s])
  {
    if EndTimesNondecreasing(admitted + [s]) {
      AbsorbDropsExpired(cfg, admitted, s, start, grown, k);
    }
  }

  lemma {:induction false} SequencesGrow(admitted: seq<Segment>, s: Segment)
    requires SequencesIncrease(admitted)
    requires admitted != [] ==> admitted[|admitted| - 1].sequence < s.sequence
    ensures SequencesIncrease(admitted + [s])
  {
    forall i | 0 <= i < |admitted| ensures admitted[i].sequence < s.sequence {
      if i < |admitted| - 1 {
        assert admitted[i].sequence < admitted[|admitted| - 1].sequence;
      }
    }
  }

  /** Admitting a segment keeps the window in step, and its start never moves back. */
  lemma {:induction false} AbsorbTracks(cfg: Config, w: Window, p: SegmentPayload, now: int, admitted: seq<Segment>)
    requires cfg.maxSegments >= 1
    requires Tracks(cfg, w, admitted) && Admission(w, p).Taken?
    ensures var w' := Absorb(cfg, w, p, now);
      && Tracks(cfg, w', admitted + [p.ToSegment()])
      && Start(w, admitted) <= Start(w', admitted + [p.ToSegment()])
      && w'.lastActivityAt == now
      && w'.lastQueryEndedAtMs == w.lastQueryEndedAtMs
      && w'.lastQueryFingerprint == w.lastQueryFingerprint
  {
    hide Absorb, ExactIds;
    var s := p.ToSegment();
    assert admitted != [] ==> admitted[|admitted| - 1].sequence < s.sequence;
    var grown, k := AbsorbSuffix(cfg, w, p, now, admitted);
    KeepsRecentGrows(cfg, admitted, s, Start(w, admitted), grown, k);
    SequencesGrow(admitted, s);
  }

  /** The declarative window: the newest `maxSegments` segments that ended recently enough. */
  function NotOlderThan(segments: seq<Segment>, cutoff: int): seq<Segment> {
    if segments == [] then []
    else if segments[0].endedAtMs >= cutoff then [segments[0]] + NotOlderThan(segments[1..], cutoff)
    else NotOlderThan(segments[1..], cutoff)
  }

  function RecentSegments(cfg: Config, admitted: seq<Segment>): seq<Segment> {
    if admitted == [] then []
    else NotOlderThan(TakeLast(admitted, cfg.maxSegments), NewestEnd(admitted) - cfg.WindowMs())
  }

  lemma {:induction false} NotOlderThanSkips(segments: seq<Segment>, cutoff: int, k: nat)
    requires k <= |segments|
    requires forall i :: 0 <= i < k ==> segments[i].endedAtMs < cutoff
    requires forall i :: k <= i < |segments| ==> segments[i].endedAtMs >= cutoff
    ensures NotOlderThan(segments, cutoff) == segments[k..]
  {
    if segments == [] {
    } else if k == 0 {
      assert segments == [segments[0]] + segments[1..];
      NotOlderThanSkips(segments[1..], cutoff, 0);
    } else {
      NotOlderThanSkips(segments[1..], cutoff, k - 1);
    }
  }

  lemma {:induction false} SuffixIsRecent(segments: seq<Segment>, lo: nat, start: nat, cutoff: int)
    requires lo <= start < |segments|
    requires EndTimesNondecreasing(segments) && segments[start].endedAtMs >= cutoff
    requires AllExpired(segments, lo, start, cutoff)
    ensures NotOlderThan(segments[lo..], cutoff) == segments[start..]
  {
    var recent := segments[lo..];
    var k := start - lo;
    forall i | k <= i < |recent| ensures recent[i].endedAtMs >= cutoff {
      if i > k {
        assert segments[start].endedAtMs <= segments[lo + i].endedAtMs;
      }
    }
    forall i | 0 <= i < k ensures recent[i].endedAtMs < cutoff {
      assert recent[i] == segments[lo + i];
    }
    NotOlderThanSkips(recent, cutoff, k);
    assert recent[k..] == segments[start..];
  }

  lemma {:induction false} RecentIsSuffix(cfg: Config, start: int, admitted: seq<Segment>)
    requires 0 <= start < |admitted| && |admitted| - start <= cfg.maxSegments
    requires KeepsRecent(cfg, start, admitted) && EndTimesNondecreasing(admitted)
    ensures RecentSegments(cfg, admitted) == admitted[start..]
  {
    var lo := Max(0, |admitted| - cfg.maxSegments);
    assert TakeLast(admitted, cfg.maxSegments) == admitted[lo..];
    SuffixIsRecent(admitted, lo, start, NewestEnd(admitted) - cfg.WindowMs());
  }

  /** With end times that never go back, the incremental window is the declarative one. */
  lemma {:induction false} WindowIsRecentSegments(cfg: Config, w: Window, admitted: seq<Segment>)
    requires Tracks(cfg, w, admitted) && EndTimesNondecreasing(admitted)
    ensures w.segments == RecentSegments(cfg, admitted)
  {
    if admitted != [] {
      RecentIsSuffix(cfg, Start(w, admitted), admitted);
    }
  }

  // ---------- Fingerprints ----------

  lemma {:induction false} EntriesConcat(a: seq<Segment>, b: seq<Segment>, lower: string -> string)
    ensures Entries(a + b, lower) == Entries(a, lower) + Entries(b, lower)
  {
    if a == [] {
      assert a + b == b;
    } else {
      assert (a + b)[1..] == a[1..] + b;
      EntriesConcat(a[1..], b, lower);
    }
  }

  /** A fingerprint starts with the decimal number of the first segment, closed by a colon. */
  lemma {:induction false} FingerprintHead(segments: seq<Segment>, lower: string -> string) returns (rest: string)
    requires segments != []
    ensures Fingerprint(segments, lower) == Decimal(segments[0].sequence) + [':'] + rest
  {
    var parts := Entries(segments, lower);
    var text := lower(Strip(segments[0].text));
    rest := if |parts| == 1 then text else text + "|" + Join(parts[1..], "|");
    assert Fingerprint(segments, lower) == Decimal(segments[0].sequence) + ":" + rest;
  }

  /**
   * Two windows over one list of segments with increasing sequences, the second ending later and
   * starting no earlier, have different fingerprints, whatever the texts contain.
   */
  lemma {:induction false} LaterWindowDiffers(
    admitted: seq<Segment>, lo: nat, hi: nat, lo': nat, hi': nat, lower: string -> string)
    requires SequencesIncrease(admitted)
    requires lo < hi < hi' <= |admitted| && lo <= lo' < hi'
    ensures Fingerprint(admitted[lo..hi], lower) != Fingerprint(admitted[lo'..hi'], lower)
  {
    var a, b := admitted[lo..hi], admitted[lo'..hi'];
    if lo == lo' {
      var more := admitted[hi..hi'];
      assert b == a + more;
      EntriesConcat(a, more, lower);
      JoinConcat(Entries(a, lower), Entries(more, lower), "|");
      assert |Fingerprint(b, lower)| > |Fingerprint(a, lower)|;
    } else if Fingerprint(a, lower) == Fingerprint(b, lower) {
      var rest := FingerprintHead(a, lower);
      var rest' := FingerprintHead(b, lower);
      DecimalPrefixInjective(a[0].sequence, b[0].sequence, ':', rest, rest');
      assert false;
    }
  }

  // ---------- Executed queries ----------

  /** A query executed when the window held `admitted[from..upTo]`. */
  datatype Query = Query(from: nat, upTo: nat, command: Command, endedAtMs: nat, succeeded: bool)
  {
    function Segments(): seq<Segment> { command.transcriptWindow }
  }

  /** Everything one window saw since it was created. */
  datatype Life = Life(admitted: seq<Segment>, queries: seq<Query>)

  const NEW_LIFE := Life([], [])

  function Successes(queries: seq<Query>): seq<Query> {
    if queries == [] then []
    else
      var last := queries[|queries| - 1];
      Successes(queries[..|queries| - 1]) + if last.succeeded then [last] else []
  }

  /**
   * The query's window is a nonempty contiguous run of admitted segments that meets the size
   * minima, and the query is dated by the run's last segment.
   */
  ghost predicate MeetsMinima(cfg: Config, q: Query, admitted: seq<Segment>) {
    && q.from < q.upTo <= |admitted|
    && q.Segments() == admitted[q.from..q.upTo] && q.endedAtMs == NewestEnd(q.Segments())
    && |q.Segments()| >= cfg.minSegments && TextLength(q.Segments()) >= cfg.minWindowChars
  }

  ghost predicate QueryFits(cfg: Config, q: Query, admitted: seq<Segment>, start: int) {
    MeetsMinima(cfg, q, admitted) && q.from <= start
  }

  ghost predicate QueriesAdvance(queries: seq<Query>) {
    forall i, j :: 0 <= i < j < |queries| ==>
      queries[i].from <= queries[j].from && queries[i].upTo < queries[j].upTo
  }

  /** Each successful query ended at least `interval` after the one before it. */
  ghost predicate Spaced(ok: seq<Query>, interval: int) {
    |ok| >= 2 ==>
      && ok[|ok| - 1].endedAtMs - ok[|ok| - 2].endedAtMs >= interval
      && Spaced(ok[..|ok| - 1], interval)
  }

  ghost predicate GateMatches(w: Window, ok: seq<Query>, fp: seq<Segment> -> string) {
    if ok == [] then w.lastQueryEndedAtMs == None && w.lastQueryFingerprint == None
    else
      var last := ok[|ok| - 1];
      && w.lastQueryEndedAtMs == Some(last.endedAtMs)
      && w.lastQueryFingerprint == Some(fp(last.Segments()))
  }

  ghost predicate QueriesFit(cfg: Config, queries: seq<Query>, admitted: seq<Segment>, start: int) {
    forall i :: 0 <= i < |queries| ==> QueryFits(cfg, queries[i], admitted, start)
  }

  /** The invariant of one window over its life. */
  ghost predicate Consistent(cfg: Config, fp: seq<Segment> -> string, w: Window, life: Life) {
    && Tracks(cfg, w, life.admitted)
    && QueriesFit(cfg, life.queries, life.admitted, Start(w, life.admitted))
    && QueriesAdvance(life.queries)
    && Spaced(Successes(life.queries), cfg.TriggerMs())
    && GateMatches(w, Successes(life.queries), fp)
  }

  lemma {:induction false} QueryFacts(cfg: Config, fp: seq<Segment> -> string, w: Window, life: Life, i: nat)
    requires Consistent(cfg, fp, w, life) && i < |life.queries|
    ensures MeetsMinima(cfg, life.queries[i], life.admitted)
  {
    assert QueryFits(cfg, life.queries[i], life.admitted, Start(w, life.admitted));
  }

  lemma {:induction false} NewWindowConsistent(cfg: Config, fp: seq<Segment> -> string, now: int)
    ensures Consistent(cfg, fp, EmptyWindow(now), NEW_LIFE)
  {
  }

  lemma {:induction false} SuccessesAreQueries(queries: seq<Query>)
    ensures forall i :: 0 <= i < |Successes(queries)| ==> Successes(queries)[i] in queries
  {
    if queries != [] {
      SuccessesAreQueries(queries[..|queries| - 1]);
    }
  }

  /** Admitting a segment keeps the invariant. */
  lemma {:induction false} AbsorbConsistent(
    cfg: Config, fp: seq<Segment> -> string, w: Window, life: Life, p: SegmentPayload, now: int)
    requires cfg.maxSegments >= 1
    requires Consistent(cfg, fp, w, life) && Admission(w, p).Taken?
    ensures Consistent(
      cfg, fp, Absorb(cfg, w, p, now), life.(admitted := life.admitted + [p.ToSegment()]))
  {
    AbsorbTracks(cfg, w, p, now, life.admitted);
    QueriesStillFit(cfg, life.queries, life.admitted, p.ToSegment(), Start(w, life.admitted),
                    Start(Absorb(cfg, w, p, now), life.admitted + [p.ToSegment()]));
  }

  lemma {:induction false} QueriesStillFit(
    cfg: Config, queries: seq<Query>, admitted: seq<Segment>, s: Segment, start: int, start': int)
    requires QueriesFit(cfg, queries, admitted, start) && start <= start'
    ensures QueriesFit(cfg, queries, admitted + [s], start')
  {
    forall i | 0 <= i < |queries| ensures QueryFits(cfg, queries[i], admitted + [s], start') {
      var q := queries[i];
      assert QueryFits(cfg, q, admitted, start);
      assert (admitted + [s])[q.from..q.upTo] == admitted[q.from..q.upTo];
    }
  }

  /** The query the window is about to execute. */
  function QueryOf(w: Window, admitted: seq<Segment>, command: Command, succeeded: bool): Query
    requires Start(w, admitted) >= 0 && admitted != []
  {
    Query(Start(w, admitted), |admitted|, command, NewestEnd(admitted), succeeded)
  }

  lemma {:induction false} EarlierQueryDiffers(
    cfg: Config, q: Query, admitted: seq<Segment>, start: nat, lower: string -> string)
    requires SequencesIncrease(admitted) && start < |admitted|
    requires QueryFits(cfg, q, admitted, start) && q.upTo < |admitted|
    ensures Fingerprint(q.Segments(), lower) != Fingerprint(admitted[start..], lower)
  {
    assert admitted[start..] == admitted[start..|admitted|];
    LaterWindowDiffers(admitted, q.from, q.upTo, start, |admitted|, lower);
  }

  /**
   * The fingerprint gate never fires: right after a segment was admitted, the window's fingerprint
   * differs from that of every query executed in this life, and so from the remembered one.
   */
  lemma {:induction false} FingerprintIsNew(cfg: Config, lower: string -> string, w: Window, life: Life)
    requires Consistent(cfg, FingerprintWith(lower), w, life) && life.admitted != []
    requires QueriesBefore(life)
    ensures forall i :: 0 <= i < |life.queries| ==>
      Fingerprint(life.queries[i].Segments(), lower) != Fingerprint(w.segments, lower)
    ensures w.lastQueryFingerprint != Some(Fingerprint(w.segments, lower))
  {
    forall i | 0 <= i < |life.queries|
      ensures Fingerprint(life.queries[i].Segments(), lower) != Fingerprint(w.segments, lower)
    {
      EarlierQueryDiffers(cfg, life.queries[i], life.admitted, Start(w, life.admitted), lower);
    }
    SuccessesAreQueries(life.queries);
    var ok := Successes(life.queries);
    if ok != [] {
      assert ok[|ok| - 1] in life.queries;
    }
  }

  /** Every recorded query was executed before the newest admitted segment arrived. */
  ghost predicate QueriesBefore(life: Life) {
    forall i :: 0 <= i < |life.queries| ==> life.queries[i].upTo < |life.admitted|
  }

  /** Any two queries of one life have different fingerprints. */
  lemma {:induction false} QueriesDiffer(cfg: Config, lower: string -> string, w: Window, life: Life, i: nat, j: nat)
    requires Consistent(cfg, FingerprintWith(lower), w, life) && i < j < |life.queries|
    ensures Fingerprint(life.queries[i].Segments(), lower) != Fingerprint(life.queries[j].Segments(), lower)
  {
    var q, q' := life.queries[i], life.queries[j];
    QueryFacts(cfg, FingerprintWith(lower), w, life, i);
    QueryFacts(cfg, FingerprintWith(lower), w, life, j);
    LaterWindowDiffers(life.admitted, q.from, q.upTo, q'.from, q'.upTo, lower);
  }

  /** Recording the executed query, and its success in the gates, keeps the invariant. */
  lemma {:induction false} QueryConsistent(
    cfg: Config, fp: seq<Segment> -> string, w: Window, life: Life, command: Command, succeeded: bool)
    requires Consistent(cfg, fp, w, life) && life.admitted != [] && QueriesBefore(life)
    requires Ripe(cfg, w, NewestEnd(life.admitted)) && command.transcriptWindow == w.segments
    ensures
      var life' := life.(queries := life.queries + [QueryOf(w, life.admitted, command, succeeded)]);
      var w' := if succeeded
        then w.(lastQueryEndedAtMs := Some(NewestEnd(life.admitted)),
                lastQueryFingerprint := Some(fp(w.segments)))
        else w;
      Consistent(cfg, fp, w', life')
  {
    var q := QueryOf(w, life.admitted, command, succeeded);
    NewQueryFits(cfg, w, life.admitted, q);
    QueryAppended(cfg, life.queries, life.admitted, Start(w, life.admitted), q);
    SuccessesSnoc(life.queries, q);
    if succeeded {
      SpacedSnoc(Successes(life.queries), q, cfg.TriggerMs());
      GatesDoNotMatter(cfg, w, NewestEnd(life.admitted), fp(w.segments), life.admitted);
    }
  }

  lemma {:induction false} NewQueryFits(cfg: Config, w: Window, admitted: seq<Segment>, q: Query)
    requires HoldsSuffix(cfg, w, admitted) && admitted != []
    requires q == QueryOf(w, admitted, q.command, q.succeeded) && q.Segments() == w.segments
    requires Ripe(cfg, w, NewestEnd(admitted))
    ensures QueryFits(cfg, q, admitted, Start(w, admitted))
  {
    assert admitted[q.from..q.upTo] == admitted[q.from..];
    assert NewestEnd(w.segments) == NewestEnd(admitted);
  }

  lemma {:induction false} GatesDoNotMatter(
    cfg: Config, w: Window, endedAtMs: nat, fingerprint: string, admitted: seq<Segment>)
    requires Tracks(cfg, w, admitted)
    ensures Tracks(
      cfg, w.(lastQueryEndedAtMs := Some(endedAtMs), lastQueryFingerprint := Some(fingerprint)), admitted)
  {
  }

  lemma {:induction false} SuccessesSnoc(queries: seq<Query>, q: Query)
    ensures Successes(queries + [q]) == if q.succeeded then Successes(queries) + [q] else Successes(queries)
  {
    assert (queries + [q])[..|queries|] == queries;
  }

  lemma {:induction false} SpacedSnoc(ok: seq<Query>, q: Query, interval: int)
    requires Spaced(ok, interval)
    requires ok != [] ==> q.endedAtMs - ok[|ok| - 1].endedAtMs >= interval
    ensures Spaced(ok + [q], interval)
  {
    assert (ok + [q])[..|ok|] == ok;
  }

  lemma {:induction false} QueryAppended(
    cfg: Config, queries: seq<Query>, admitted: seq<Segment>, start: int, q: Query)
    requires QueriesFit(cfg, queries, admitted, start) && QueriesAdvance(queries)
    requires QueryFits(cfg, q, admitted, start) && q.from == start && q.upTo == |admitted|
    requires forall i :: 0 <= i < |queries| ==> queries[i].upTo < |admitted|
    ensures QueriesFit(cfg, queries + [q], admitted, start) && QueriesAdvance(queries + [q])
  {
    forall i | 0 <= i < |queries| ensures queries[i].from <= q.from && queries[i].upTo < q.upTo {
      assert QueryFits(cfg, queries[i], admitted, start);
    }
  }

  /**
   * The k-th successful query of a life ended at least (k - 1) trigger intervals after the first,
   * and any two of them lie apart by as many intervals as they are positions apart.
   */
  lemma {:induction false} SuccessesFarApart(ok: seq<Query>, interval: int, i: nat, j: nat)
    requires Spaced(ok, interval) && i <= j < |ok|
    ensures ok[j].endedAtMs - ok[i].endedAtMs >= (j - i) * interval
    decreases |ok|
  {
    if j < |ok| - 1 {
      SuccessesFarApart(ok[..|ok| - 1], interval, i, j);
    } else if i < j {
      SuccessesFarApart(ok[..|ok| - 1], interval, i, j - 1);
      assert (j - 1 - i) * interval + interval == (j - i) * interval;
    }
  }
}
