/**
 * Who may see a feedback: the access filter (app/rag/feedback_access_filter.py), the payload
 * documents are indexed with (app/workflows/document_indexing.py) and the feedback workflow
 * (app/workflows/meeting_feedback.py).
 */
module FeedbackAccess {
  import opened Basics
  import opened Text
  import opened Uuids
  import opened FeedbackModel
  import opened WindowHistory
  import opened FeedbackRuns
  import opened FeedbackRules
  import opened PublicationArrivals

  // ---------- Filters and payloads ----------

  datatype Condition =
    | MatchValue(key: string, value: string)
    | MatchAny(key: string, values: seq<string>)

  datatype Filter = Filter(must: seq<Condition>, mustNot: seq<Condition>)

  /** The values a payload holds under each key path; a missing or null field holds none. */
  type Payload = map<string, seq<string>>

  function ValuesAt(payload: Payload, key: string): seq<string> {
    if key in payload then payload[key] else []
  }

  /** A condition holds when some value under its key matches. */
  predicate Holds(c: Condition, payload: Payload) {
    match c
    case MatchValue(key, value) => value in ValuesAt(payload, key)
    case MatchAny(key, values) => exists v :: v in values && v in ValuesAt(payload, key)
  }

  predicate Accepts(f: Filter, payload: Payload) {
    && (forall c :: c in f.must ==> Holds(c, payload))
    && (forall c :: c in f.mustNot ==> !Holds(c, payload))
  }

  datatype Document = Document(
    documentId: Uuid, documentType: string, organizationId: Option<Uuid>, ownerUserId: Uuid,
    userIds: seq<Uuid>, meetingId: Option<Uuid>)

  function ChatSourceType(documentType: string): string {
    if documentType == "MEETING_MINUTES" then "MINUTES" else documentType
  }

  function Texts(ids: seq<Uuid>): (r: seq<string>)
    ensures |r| == |ids|
    ensures forall i :: 0 <= i < |ids| ==> r[i] == ToText(ids[i])
  {
    if ids == [] then [] else [ToText(ids[0])] + Texts(ids[1..])
  }

  function OptionalText(id: Option<Uuid>): seq<string> {
    if id.None? then [] else [ToText(id.value)]
  }

  /** The filtered part of the payload a document's points carry. */
  function PayloadOf(d: Document): Payload {
    map[
      "sourceType" := [ChatSourceType(d.documentType)],
      "sourceId" := [ToText(d.documentId)],
      "organizationId" := OptionalText(d.organizationId),
      "ownerUserId" := [ToText(d.ownerUserId)],
      "allowedUserIds" := Texts(d.userIds),
      "metadata.meetingId" := OptionalText(d.meetingId)]
  }

  function UserConditions(ids: seq<Uuid>): (r: seq<Condition>)
    ensures |r| == |ids|
    ensures forall i :: 0 <= i < |ids| ==> r[i] == MatchAny("allowedUserIds", [ToText(ids[i])])
  {
    if ids == [] then [] else [MatchAny("allowedUserIds", [ToText(ids[0])])] + UserConditions(ids[1..])
  }

  function FeedbackFilter(command: Command, excludeMeetingId: string): Filter {
    Filter(
      [MatchValue("organizationId", ToText(command.organizationId)),
       MatchAny("sourceType", ["MEETING_MINUTES", "MINUTES"])]
      + UserConditions(SortedUnique(command.participantUserIds)),
      [MatchValue("metadata.meetingId", excludeMeetingId)])
  }

  method BuildFeedbackAccessFilter(command: Command, excludeMeetingId: string) returns (f: Filter)
    ensures f == FeedbackFilter(command, excludeMeetingId)
  {
    var must := [
      MatchValue("organizationId", ToText(command.organizationId)),
      MatchAny("sourceType", ["MEETING_MINUTES", "MINUTES"])];
    var participants := SortedUnique(command.participantUserIds);
    for i := 0 to |participants|
      invariant must + UserConditions(participants[i..])
             == FeedbackFilter(command, excludeMeetingId).must
    {
      assert participants[i..][1..] == participants[i + 1..];
      must := must + [MatchAny("allowedUserIds", [ToText(participants[i])])];
    }
    assert participants[|participants|..] == [];
    assert must + [] == must;
    f := Filter(must, [MatchValue("metadata.meetingId", excludeMeetingId)]);
  }

  /** What the filter is meant to let through. */
  ghost predicate Permitted(command: Command, d: Document) {
    && d.organizationId == Some(command.organizationId)
    && (d.documentType == "MEETING_MINUTES" || d.documentType == "MINUTES")
    && d.meetingId != Some(command.meetingId)
    && forall u :: u in command.participantUserIds ==> u in d.userIds
  }

  lemma {:induction false} TextMembership(u: Uuid, ids: seq<Uuid>)
    ensures ToText(u) in Texts(ids) <==> u in ids
  {
    if ToText(u) in Texts(ids) {
      var i :| 0 <= i < |ids| && Texts(ids)[i] == ToText(u);
      ToTextInjective(u, ids[i]);
    }
    if u in ids {
      var i :| 0 <= i < |ids| && ids[i] == u;
      assert Texts(ids)[i] == ToText(u);
    }
  }

  lemma {:induction false} OptionalTextMembership(u: Uuid, id: Option<Uuid>)
    ensures ToText(u) in OptionalText(id) <==> id == Some(u)
  {
    if id.Some? && ToText(u) == ToText(id.value) {
      ToTextInjective(u, id.value);
    }
  }

  lemma {:induction false} AnyOfOne(key: string, value: string, payload: Payload)
    ensures Holds(MatchAny(key, [value]), payload) <==> value in ValuesAt(payload, key)
  {
    assert value in [value];
  }

  lemma {:induction false} SourceTypeCondition(d: Document)
    ensures Holds(MatchAny("sourceType", ["MEETING_MINUTES", "MINUTES"]), PayloadOf(d))
       <==> (d.documentType == "MEETING_MINUTES" || d.documentType == "MINUTES")
  {
    var accepted := ["MEETING_MINUTES", "MINUTES"];
    assert accepted[0] in accepted && accepted[1] in accepted;
    assert ValuesAt(PayloadOf(d), "sourceType") == [ChatSourceType(d.documentType)];
  }

  lemma {:induction false} UserCondition(u: Uuid, d: Document)
    ensures Holds(MatchAny("allowedUserIds", [ToText(u)]), PayloadOf(d)) <==> u in d.userIds
  {
    AnyOfOne("allowedUserIds", ToText(u), PayloadOf(d));
    TextMembership(u, d.userIds);
  }

  lemma {:induction false} UserConditionsTogether(ids: seq<Uuid>, d: Document)
    ensures (forall c :: c in UserConditions(ids) ==> Holds(c, PayloadOf(d)))
       <==> (forall u :: u in ids ==> u in d.userIds)
  {
    var conditions := UserConditions(ids);
    if forall u :: u in ids ==> u in d.userIds {
      forall c | c in conditions ensures Holds(c, PayloadOf(d)) {
        var i :| 0 <= i < |conditions| && conditions[i] == c;
        assert ids[i] in d.userIds;
        UserCondition(ids[i], d);
      }
    }
    if forall c :: c in conditions ==> Holds(c, PayloadOf(d)) {
      forall u | u in ids ensures u in d.userIds {
        var i :| 0 <= i < |ids| && ids[i] == u;
        assert conditions[i] in conditions;
        UserCondition(u, d);
      }
    }
  }

  /**
   * The compiled filter, evaluated on an indexed payload, lets through exactly the minutes of the
   * same organization, of another meeting, that every participant may read.
   */
  lemma {:induction false} FilterMeansPermitted(command: Command, d: Document)
    ensures Accepts(FeedbackFilter(command, ToText(command.meetingId)), PayloadOf(d))
       <==> Permitted(command, d)
  {
    var f, payload := FeedbackFilter(command, ToText(command.meetingId)), PayloadOf(d);
    var users := SortedUnique(command.participantUserIds);
    assert f.must[0] in f.must && f.must[1] in f.must && f.mustNot[0] in f.mustNot;
    assert forall c :: c in f.must <==> c == f.must[0] || c == f.must[1] || c in UserConditions(users);
    SourceTypeCondition(d);
    OptionalTextMembership(command.organizationId, d.organizationId);
    OptionalTextMembership(command.meetingId, d.meetingId);
    UserConditionsTogether(users, d);
    SortedUniqueSpec(command.participantUserIds);
  }

  // ---------- The workflow ----------

  const MAX_FEEDBACK_SOURCES := 2

  /** The parts of the workflow that are patterns or wording. */
  datatype WorkflowConfig = WorkflowConfig(
    scoreThreshold: real,
    allowSemanticFallback: bool,
    classify: (string, string) -> Option<FeedbackType>,
    renderMessage: (FeedbackType, Candidate) -> string,
    compactSnippet: string -> string)

  /** What embedding and retrieval give for one call, with the new id and the current time. */
  datatype Surroundings = Surroundings(
    embeddingFails: bool, searchFails: bool, candidates: seq<Candidate>, newId: Uuid, now: int)

  function QueryTexts(segments: seq<Segment>): seq<string> {
    if segments == [] then [] else [Strip(segments[0].text)] + QueryTexts(segments[1..])
  }

  function QueryText(segments: seq<Segment>): string {
    Strip(Join(QueryTexts(segments), "\n"))
  }

  /** The type a candidate qualifies for, if it passes the gate. */
  function Qualify(cfg: WorkflowConfig, query: string, c: Candidate): Option<FeedbackType> {
    if c.score < cfg.scoreThreshold then None
    else
      var classified := cfg.classify(query, c.snippet);
      if classified == None && cfg.allowSemanticFallback then Some(DuplicateDiscussion) else classified
  }

  function Qualified(cfg: WorkflowConfig, query: string, candidates: seq<Candidate>)
    : seq<(Candidate, FeedbackType)>
  {
    if candidates == [] then []
    else
      var rest := candidates[..|candidates| - 1];
      var last := candidates[|candidates| - 1];
      var kind := Qualify(cfg, query, last);
      Qualified(cfg, query, rest) + if kind.Some? then [(last, kind.value)] else []
  }

  function Compact(cfg: WorkflowConfig, c: Candidate): Candidate {
    c.(snippet := cfg.compactSnippet(c.snippet))
  }

  function Sources(cfg: WorkflowConfig, qualified: seq<(Candidate, FeedbackType)>): (r: seq<Candidate>)
    ensures |r| == Min(|qualified|, MAX_FEEDBACK_SOURCES)
    ensures forall i :: 0 <= i < |r| ==> r[i] == Compact(cfg, qualified[i].0)
  {
    seq(Min(|qualified|, MAX_FEEDBACK_SOURCES),
        i requires 0 <= i < |qualified| => Compact(cfg, qualified[i].0))
  }

  function MinSequence(segments: seq<Segment>): nat
    requires segments != []
  {
    if |segments| == 1 then segments[0].sequence
    else Min(segments[0].sequence, MinSequence(segments[1..]))
  }

  function MaxSequence(segments: seq<Segment>): nat
    requires segments != []
  {
    if |segments| == 1 then segments[0].sequence
    else Max(segments[0].sequence, MaxSequence(segments[1..]))
  }

  function Execute(cfg: WorkflowConfig, command: Command, around: Surroundings): WorkflowOutcome {
    var query := QueryText(command.transcriptWindow);
    if query == "" then NoFeedback
    else if around.embeddingFails || around.searchFails then WorkflowFailed
    else
      assert command.transcriptWindow != [];
      Answer(cfg, command, Qualified(cfg, query, around.candidates), around.newId, around.now)
  }

  function Answer(
    cfg: WorkflowConfig, command: Command, qualified: seq<(Candidate, FeedbackType)>, newId: Uuid, now: int)
    : WorkflowOutcome
    requires command.transcriptWindow != []
  {
    if qualified == [] then NoFeedback
    else
      var (top, kind) := qualified[0];
      Generated(Feedback(
        newId, command.meetingId, command.sessionId, kind, cfg.renderMessage(kind, top),
        Sources(cfg, qualified), SortedUnique(command.participantUserIds),
        MinSequence(command.transcriptWindow), MaxSequence(command.transcriptWindow), now))
  }

  method QualifyCandidates(cfg: WorkflowConfig, query: string, candidates: seq<Candidate>)
    returns (qualified: seq<(Candidate, FeedbackType)>)
    ensures qualified == Qualified(cfg, query, candidates)
  {
    qualified := [];
    for i := 0 to |candidates|
      invariant qualified == Qualified(cfg, query, candidates[..i])
    {
      assert candidates[..i + 1][..i] == candidates[..i];
      var candidate := candidates[i];
      if candidate.score < cfg.scoreThreshold {
        continue;
      }
      var kind := cfg.classify(query, candidate.snippet);
      if kind == None && cfg.allowSemanticFallback {
        kind := Some(DuplicateDiscussion);
      }
      if kind != None {
        qualified := qualified + [(candidate, kind.value)];
      }
    }
    assert candidates[..|candidates|] == candidates;
  }

  method ExecuteWorkflow(cfg: WorkflowConfig, command: Command, around: Surroundings)
    returns (outcome: WorkflowOutcome)
    requires command.transcriptWindow != []
    ensures outcome == Execute(cfg, command, around)
  {
    var query := QueryText(command.transcriptWindow);
    if query == "" {
      return NoFeedback;
    }
    if around.embeddingFails || around.searchFails {
      return WorkflowFailed;
    }
    var qualified := QualifyCandidates(cfg, query, around.candidates);
    return Answer(cfg, command, qualified, around.newId, around.now);
  }

  // ---------- The query ----------

  /** The texts of some segments. */
  function TextsOf(segments: seq<Segment>): (r: seq<string>)
    ensures |r| == |segments|
    ensures forall i :: 0 <= i < |r| ==> r[i] == segments[i].text
  {
    seq(|segments|, i requires 0 <= i < |segments| => segments[i].text)
  }

  lemma {:induction false} QueryTextsSpec(segments: seq<Segment>)
    ensures |QueryTexts(segments)| == |segments|
    ensures forall i :: 0 <= i < |segments| ==> QueryTexts(segments)[i] == Strip(segments[i].text)
    ensures Solids(QueryTexts(segments)) == Solids(TextsOf(segments))
  {
    if segments != [] {
      QueryTextsSpec(segments[1..]);
      SolidStrip(segments[0].text);
      assert TextsOf(segments)[1..] == TextsOf(segments[1..]);
    }
  }

  lemma {:induction false} SolidsBlank(parts: seq<string>)
    ensures Solids(parts) == "" <==> forall i :: 0 <= i < |parts| ==> Blank(parts[i])
  {
    if parts != [] {
      SolidsBlank(parts[1..]);
      SolidBlank(parts[0]);
      assert forall i :: 1 <= i < |parts| ==> parts[i] == parts[1..][i - 1];
      assert forall i :: 0 <= i < |parts[1..]| ==> parts[1..][i] == parts[i + 1];
    }
  }

  /**
   * The query holds every character spoken that is no white space, once and in order; it is empty
   * just when nothing was said.
   */
  lemma {:induction false} QueryConserves(segments: seq<Segment>)
    ensures Solid(QueryText(segments)) == Solids(TextsOf(segments))
    ensures QueryText(segments) == "" <==> forall i :: 0 <= i < |segments| ==> Blank(segments[i].text)
  {
    var joined := Join(QueryTexts(segments), "\n");
    QueryTextsSpec(segments);
    SolidJoin(QueryTexts(segments), "\n");
    SolidStrip(joined);
    StripSpec(joined);
    SolidBlank(joined);
    SolidsBlank(TextsOf(segments));
  }

  /** When no segment is blank the query is their stripped texts, one to a line. */
  lemma {:induction false} QueryLines(segments: seq<Segment>)
    requires segments != [] && forall i :: 0 <= i < |segments| ==> !Blank(segments[i].text)
    ensures QueryText(segments) == Join(QueryTexts(segments), "\n")
  {
    var texts := QueryTexts(segments);
    QueryTextsSpec(segments);
    forall text | text in texts ensures Clean(text) {
      var i :| 0 <= i < |texts| && texts[i] == text;
      StripSpec(segments[i].text);
    }
    JoinClean(texts);
    StripClean(Join(texts, "\n"));
  }

  lemma {:induction false} JoinClean(parts: seq<string>)
    requires parts != [] && forall part :: part in parts ==> Clean(part)
    ensures Clean(Join(parts, "\n"))
  {
    assert parts[0] in parts;
    if |parts| > 1 {
      JoinClean(parts[1..]);
    }
  }

  // ---------- The answer ----------

  /** The candidate is good enough and is classified, or need not be. */
  ghost predicate Passes(cfg: WorkflowConfig, query: string, c: Candidate) {
    c.score >= cfg.scoreThreshold && (cfg.classify(query, c.snippet).Some? || cfg.allowSemanticFallback)
  }

  /** The type a candidate that passes stands for. */
  function TypeFor(cfg: WorkflowConfig, query: string, c: Candidate): FeedbackType {
    var classified := cfg.classify(query, c.snippet);
    if classified.Some? then classified.value else DuplicateDiscussion
  }

  /** Where the candidates that pass stand: each once, in order, and none is left out. */
  lemma {:induction false} QualifiedPositions(cfg: WorkflowConfig, query: string, candidates: seq<Candidate>)
    returns (at: seq<nat>)
    ensures |at| == |Qualified(cfg, query, candidates)|
    ensures forall k :: 0 <= k < |at| ==>
      && at[k] < |candidates|
      && Qualified(cfg, query, candidates)[k] == (candidates[at[k]], TypeFor(cfg, query, candidates[at[k]]))
    ensures forall k, l :: 0 <= k < l < |at| ==> at[k] < at[l]
    ensures forall i :: 0 <= i < |candidates| ==> (Passes(cfg, query, candidates[i]) <==> i in at)
  {
    at := [];
    if candidates != [] {
      var n := |candidates| - 1;
      at := QualifiedPositions(cfg, query, candidates[..n]);
      if Passes(cfg, query, candidates[n]) {
        at := at + [n];
      }
    }
  }

  /** `i` is the first candidate at or behind `from` that passes. */
  ghost predicate FirstPassing(cfg: WorkflowConfig, query: string, candidates: seq<Candidate>, from: nat, i: nat) {
    && from <= i < |candidates| && Passes(cfg, query, candidates[i])
    && forall j :: from <= j < i ==> !Passes(cfg, query, candidates[j])
  }

  lemma {:induction false} PassingPositions(
    cfg: WorkflowConfig, query: string, candidates: seq<Candidate>, at: seq<nat>)
    requires forall k :: 0 <= k < |at| ==> at[k] < |candidates|
    requires forall k, l :: 0 <= k < l < |at| ==> at[k] < at[l]
    requires forall i :: 0 <= i < |candidates| ==> (Passes(cfg, query, candidates[i]) <==> i in at)
    ensures |at| > 0 ==> FirstPassing(cfg, query, candidates, 0, at[0])
    ensures |at| > 1 ==> FirstPassing(cfg, query, candidates, at[0] + 1, at[1])
    ensures |at| == 1 ==> forall j :: at[0] < j < |candidates| ==> !Passes(cfg, query, candidates[j])
  {
    if |at| > 0 {
      assert at[0] in at;
      if |at| > 1 {
        assert at[1] in at;
      }
    }
  }

  /**
   * The first candidate that passes decides the type, the message and the first source; the next one
   * that passes, if any, is the second source, and there is no third.
   */
  lemma {:induction false} AnswerFollowsFirst(cfg: WorkflowConfig, command: Command, around: Surroundings)
    returns (first: nat, second: nat)
    requires Execute(cfg, command, around).Generated?
    ensures FirstPassing(cfg, QueryText(command.transcriptWindow), around.candidates, 0, first)
    ensures
      var f, query := Execute(cfg, command, around).feedback, QueryText(command.transcriptWindow);
      var c := around.candidates[first];
      && f.feedbackType == TypeFor(cfg, query, c) && f.message == cfg.renderMessage(f.feedbackType, c)
      && 1 <= |f.sources| <= 2 && f.sources[0] == c.(snippet := cfg.compactSnippet(c.snippet))
      && f.feedbackId == around.newId && f.generatedAt == around.now
    ensures
      var f, query := Execute(cfg, command, around).feedback, QueryText(command.transcriptWindow);
      if |f.sources| == 1 then forall j :: first < j < |around.candidates| ==> !Passes(cfg, query, around.candidates[j])
      else
        && FirstPassing(cfg, query, around.candidates, first + 1, second)
        && var c := around.candidates[second];
           f.sources[1] == c.(snippet := cfg.compactSnippet(c.snippet))
  {
    assert QueryText([]) == "";
    var query := QueryText(command.transcriptWindow);
    var at := QualifiedPositions(cfg, query, around.candidates);
    PassingPositions(cfg, query, around.candidates, at);
    first, second := at[0], if |at| > 1 then at[1] else 0;
  }

  /**
   * A query of blank texts is not asked; otherwise the workflow fails when embedding or the search
   * does, and gives a feedback just when some candidate passes.
   */
  lemma {:induction false} OutcomeIff(cfg: WorkflowConfig, command: Command, around: Surroundings)
    ensures
      var asked := exists i :: 0 <= i < |command.transcriptWindow| && !Blank(command.transcriptWindow[i].text);
      var fails := around.embeddingFails || around.searchFails;
      var outcome := Execute(cfg, command, around);
      && (outcome.WorkflowFailed? <==> asked && fails)
      && (outcome.Generated? <==> asked && !fails && exists i ::
            0 <= i < |around.candidates|
            && Passes(cfg, QueryText(command.transcriptWindow), around.candidates[i]))
  {
    var query := QueryText(command.transcriptWindow);
    QueryConserves(command.transcriptWindow);
    assert QueryText([]) == "";
    var at := QualifiedPositions(cfg, query, around.candidates);
    if |at| > 0 {
      assert at[0] in at;
    }
  }

  lemma {:induction false} QualifiedAreCandidates(cfg: WorkflowConfig, query: string, candidates: seq<Candidate>)
    ensures forall q :: q in Qualified(cfg, query, candidates) ==>
      q.0 in candidates && q.0.score >= cfg.scoreThreshold
  {
    if candidates != [] {
      QualifiedAreCandidates(cfg, query, candidates[..|candidates| - 1]);
    }
  }

  lemma {:induction false} SequenceBounds(segments: seq<Segment>)
    requires segments != [] && SequencesIncrease(segments)
    ensures MinSequence(segments) == segments[0].sequence
    ensures MaxSequence(segments) == segments[|segments| - 1].sequence
  {
    if |segments| > 1 {
      SequenceBounds(segments[1..]);
      assert segments[0].sequence < segments[1].sequence;
      assert segments[0].sequence < segments[|segments| - 1].sequence;
    }
  }

  // ---------- Publications ----------

  /** The candidate stands for a document of the index that the filter lets through. */
  ghost predicate Retrieved(docs: set<Document>, command: Command, c: Candidate) {
    exists d :: d in docs && d.documentId == c.minutesId
      && Accepts(FeedbackFilter(command, ToText(command.meetingId)), PayloadOf(d))
  }

  ghost predicate Retrieves(docs: set<Document>, command: Command, candidates: seq<Candidate>) {
    forall c :: c in candidates ==> Retrieved(docs, command, c)
  }

  /** The source's document may be read by everybody the feedback is sent to. */
  ghost predicate ReadableByAudience(docs: set<Document>, f: Feedback, source: Candidate) {
    exists d :: d in docs && d.documentId == source.minutesId
      && d.meetingId != Some(f.meetingId)
      && forall u :: u in f.audienceUserIds ==> u in d.userIds
  }

  lemma {:induction false} GeneratedFields(cfg: WorkflowConfig, command: Command, around: Surroundings)
    requires Execute(cfg, command, around).Generated?
    ensures command.transcriptWindow != []
    ensures
      var f := Execute(cfg, command, around).feedback;
      var qualified := Qualified(cfg, QueryText(command.transcriptWindow), around.candidates);
      && qualified != [] && f.sources == Sources(cfg, qualified)
      && f.meetingId == command.meetingId && f.sessionId == command.sessionId
      && f.audienceUserIds == SortedUnique(command.participantUserIds)
      && f.fromSequence == MinSequence(command.transcriptWindow)
      && f.toSequence == MaxSequence(command.transcriptWindow)
  {
    assert QueryText([]) == "";
  }

  lemma {:induction false} PermittedIsReadable(
    docs: set<Document>, command: Command, candidate: Candidate, source: Candidate, f: Feedback)
    requires Retrieved(docs, command, candidate) && source.minutesId == candidate.minutesId
    requires f.meetingId == command.meetingId
    requires f.audienceUserIds == SortedUnique(command.participantUserIds)
    ensures ReadableByAudience(docs, f, source)
  {
    var d :| d in docs && d.documentId == candidate.minutesId
      && Accepts(FeedbackFilter(command, ToText(command.meetingId)), PayloadOf(d));
    FilterMeansPermitted(command, d);
    SortedUniqueSpec(command.participantUserIds);
  }

  lemma {:induction false} GeneratedIsReadable(
    cfg: WorkflowConfig, docs: set<Document>, command: Command, around: Surroundings)
    requires Retrieves(docs, command, around.candidates)
    requires Execute(cfg, command, around).Generated?
    ensures
      var f := Execute(cfg, command, around).feedback;
      && 1 <= |f.sources| <= MAX_FEEDBACK_SOURCES
      && (forall u :: u in f.audienceUserIds <==> u in command.participantUserIds)
      && (forall i :: 0 <= i < |f.sources| ==>
            f.sources[i].score >= cfg.scoreThreshold && ReadableByAudience(docs, f, f.sources[i]))
  {
    var query := QueryText(command.transcriptWindow);
    var qualified := Qualified(cfg, query, around.candidates);
    var f := Execute(cfg, command, around).feedback;
    GeneratedFields(cfg, command, around);
    QualifiedAreCandidates(cfg, query, around.candidates);
    SortedUniqueSpec(command.participantUserIds);
    forall i | 0 <= i < |f.sources|
      ensures f.sources[i].score >= cfg.scoreThreshold && ReadableByAudience(docs, f, f.sources[i])
    {
      var c := qualified[i].0;
      assert qualified[i] in qualified && c in around.candidates && Retrieved(docs, command, c);
      PermittedIsReadable(docs, command, c, f.sources[i], f);
    }
  }

  /**
   * The feedback is for the event's meeting and session and goes to its participants, and each of its
   * sources stands for an indexed minutes document of the event's organization, of another meeting,
   * that all of them may read.
   */
  ghost predicate ForReadersOnly(docs: set<Document>, p: SegmentPayload, f: Feedback) {
    && f.meetingId == p.meetingId && f.sessionId == p.sessionId
    && (forall u :: u in f.audienceUserIds <==> u in p.participantUserIds)
    && forall i :: 0 <= i < |f.sources| ==> exists d :: d in docs && ReadableSource(d, p, f.sources[i])
  }

  ghost predicate ReadableSource(d: Document, p: SegmentPayload, source: Candidate) {
    && d.documentId == source.minutesId
    && d.organizationId == Some(p.organizationId)
    && (d.documentType == "MEETING_MINUTES" || d.documentType == "MINUTES")
    && d.meetingId != Some(p.meetingId)
    && forall u :: u in p.participantUserIds ==> u in d.userIds
  }

  lemma {:induction false} GeneratedForReadersOnly(
    cfg: WorkflowConfig, docs: set<Document>, command: Command, around: Surroundings, event: RawEvent)
    requires Retrieves(docs, command, around.candidates) && ForEvent(command, event)
    requires Execute(cfg, command, around).Generated?
    ensures ForReadersOnly(docs, event.payload, Execute(cfg, command, around).feedback)
  {
    var query := QueryText(command.transcriptWindow);
    var qualified := Qualified(cfg, query, around.candidates);
    var f := Execute(cfg, command, around).feedback;
    GeneratedFields(cfg, command, around);
    QualifiedAreCandidates(cfg, query, around.candidates);
    SortedUniqueSpec(command.participantUserIds);
    forall i | 0 <= i < |f.sources| ensures exists d :: d in docs && ReadableSource(d, event.payload, f.sources[i]) {
      var c := qualified[i].0;
      assert qualified[i] in qualified && Retrieved(docs, command, c);
      var d :| d in docs && d.documentId == c.minutesId
        && Accepts(FeedbackFilter(command, ToText(command.meetingId)), PayloadOf(d));
      FilterMeansPermitted(command, d);
      assert ReadableSource(d, event.payload, f.sources[i]);
    }
  }

  /** The workflow as the processor sees it, with retrieval answering each command. */
  function WorkflowWith(cfg: WorkflowConfig, around: Command -> Surroundings): Command -> WorkflowOutcome {
    command => Execute(cfg, command, around(command))
  }

  /**
   * Whatever call publishes a feedback, in whatever state, it is for the event's meeting, session and
   * participants, and each of its sources is an indexed minutes document of the event's organization,
   * of another meeting than the event's, that all participants may read.
   */
  lemma {:induction false} PublishedToReadersOnly(
    cfg: Config, fp: seq<Segment> -> string, s: State, event: RawEvent, now: int,
    workflow: WorkflowConfig, around: Command -> Surroundings, docs: set<Document>, publish: PublishOutcome)
    requires cfg.maxSegments >= 1
    requires forall c :: Retrieves(docs, c, around(c).candidates)
    requires Process(cfg, fp, s, event, now, WorkflowWith(workflow, around), publish).1.published.Some?
    ensures
      var published := Process(cfg, fp, s, event, now, WorkflowWith(workflow, around), publish).1.published.value;
      && event.SegmentCreated? && published.correlationId == event.correlationId
      && ForReadersOnly(docs, event.payload, published.feedback)
      && forall i :: 0 <= i < |published.feedback.sources| ==>
           ReadableByAudience(docs, published.feedback, published.feedback.sources[i])
  {
    var e := Process(cfg, fp, s, event, now, WorkflowWith(workflow, around), publish).1;
    PublicationIsForEvent(cfg, fp, s, event, now, WorkflowWith(workflow, around), publish);
    var command := e.query.value.0;
    GeneratedIsReadable(workflow, docs, command, around(command));
    GeneratedForReadersOnly(workflow, docs, command, around(command), event);
  }

  /** The same holds for whatever reaches the stream, though its publisher may have raised. */
  lemma {:induction false} ArrivedForReadersOnly(
    cfg: Config, fp: seq<Segment> -> string, s: State, input: Input,
    workflow: WorkflowConfig, around: Command -> Surroundings, docs: set<Document>)
    requires cfg.maxSegments >= 1 && input.Arrival? && input.workflow == WorkflowWith(workflow, around)
    requires forall c :: Retrieves(docs, c, around(c).candidates)
    requires ReachedBy(input, Step(cfg, fp, s, input).1).Some?
    ensures
      var f := ReachedBy(input, Step(cfg, fp, s, input).1).value.feedback;
      && input.event.SegmentCreated? && ForReadersOnly(docs, input.event.payload, f)
      && forall i :: 0 <= i < |f.sources| ==> ReadableByAudience(docs, f, f.sources[i])
  {
    StepReaches(cfg, fp, s, input);
    var f := ReachedBy(input, Step(cfg, fp, s, input).1).value.feedback;
    var command :| input.workflow(command) == Generated(f) && ForEvent(command, input.event);
    GeneratedIsReadable(workflow, docs, command, around(command));
    GeneratedForReadersOnly(workflow, docs, command, around(command), input.event);
  }

  /** In a reachable state, a published range is the first and last sequence of the queried window. */
  lemma {:induction false} PublishedRangeIsWindow(
    cfg: Config, fp: seq<Segment> -> string, world: World, event: RawEvent, now: int,
    workflow: WorkflowConfig, around: Command -> Surroundings, publish: PublishOutcome)
    requires cfg.maxSegments >= 1 && Reachable(cfg, fp, world)
    requires Process(cfg, fp, world.state, event, now, WorkflowWith(workflow, around), publish).1.published.Some?
    ensures
      var e := Process(cfg, fp, world.state, event, now, WorkflowWith(workflow, around), publish).1;
      var f := e.published.value.feedback;
      && e.query.Some?
      && var window := e.query.value.0.transcriptWindow;
         && window != [] && window[|window| - 1] == event.payload.ToSegment()
         && f.fromSequence == window[0].sequence && f.toSequence == event.payload.sequence
  {
    var p := event.payload;
    PublishedAnswersQuery(cfg, fp, world.state, event, now, WorkflowWith(workflow, around), publish);
    var segments := Intake(cfg, world.state, p, now).0.windows[p.Key()].segments;
    var command := CommandFor(event, segments);
    GeneratedFields(workflow, command, around(command));
    TakenWindowIncreases(cfg, fp, world, p, now);
    SequenceBounds(segments);
  }

  lemma {:induction false} TakenTracks(
    cfg: Config, fp: seq<Segment> -> string, world: World, p: SegmentPayload, now: int)
    returns (admitted: seq<Segment>)
    requires cfg.maxSegments >= 1 && WindowsConsistent(cfg, fp, world)
    requires Intake(cfg, world.state, p, now).1.Taken?
    ensures Tracks(cfg, Intake(cfg, world.state, p, now).0.windows[p.Key()], admitted + [p.ToSegment()])
  {
    FoundConsistent(cfg, fp, world, now, p.Key());
    var clean := Cleanup(cfg, world.state, now);
    admitted := if p.Key() in clean.windows then world.lives[p.Key()].admitted else [];
    AbsorbTracks(cfg, WindowFor(clean, p.Key(), now), p, now, admitted);
  }

  lemma {:induction false} TakenWindowIncreases(
    cfg: Config, fp: seq<Segment> -> string, world: World, p: SegmentPayload, now: int)
    requires cfg.maxSegments >= 1 && Reachable(cfg, fp, world)
    requires Intake(cfg, world.state, p, now).1.Taken?
    ensures
      var segments := Intake(cfg, world.state, p, now).0.windows[p.Key()].segments;
      segments != [] && SequencesIncrease(segments) && segments[|segments| - 1] == p.ToSegment()
  {
    ReachableWorldConsistent(cfg, fp, world);
    var admitted := TakenTracks(cfg, fp, world, p, now);
    SuffixIncreases(cfg, Intake(cfg, world.state, p, now).0.windows[p.Key()], admitted + [p.ToSegment()]);
  }

  lemma {:induction false} SuffixIncreases(cfg: Config, w: Window, admitted: seq<Segment>)
    requires Tracks(cfg, w, admitted) && admitted != []
    ensures w.segments != [] && SequencesIncrease(w.segments)
    ensures w.segments[|w.segments| - 1] == admitted[|admitted| - 1]
  {
    forall i, j | 0 <= i < j < |w.segments| ensures w.segments[i].sequence < w.segments[j].sequence {
      assert admitted[Start(w, admitted) + i].sequence < admitted[Start(w, admitted) + j].sequence;
    }
  }
}
