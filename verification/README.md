# Verified models of the Meetbowl AI server

A Dafny model of the parts of the Meetbowl AI server whose behaviour is hardest to see from any
single function, and proofs of what they keep over whole runs. `dafny verify dfyconfig.toml` checks
everything.

Code that changes state step by step is modelled by classes and methods with loops, each proved
against a function on values; the theorems are about those functions and about runs of them.
Network calls are oracles: parameters that say what the other side answered. A request that is
reported as failed may have had any part of its effect.

## What is modelled

- **Realtime feedback** (`FeedbackModel`, `FeedbackProcessor`, `WindowHistory`, `FeedbackRuns`,
  `FeedbackIsolation`, `RecentWindows`, `FeedbackRules`, `PublicationArrivals`, `FeedbackAccess`). One
  window of recent segments for each meeting and session, the gates in front of a query, the publication cooldown and
  the clean-up of both dictionaries. Runs are arbitrary sequences of events and clean-ups, with a
  workflow that may answer anything, fail, or give a feedback that the publisher may drop, or raise on
  before or after it arrived. A window's *life* runs from its creation to its clean-up and records what
  it admitted and queried. The workflow and the access filter behind it are modelled too, so that every
  publication is shown to reach only users who may read each of its sources.
- **RabbitMQ consumers** (`EventConsumers`, `FailureCauses`, `RetryBudget`, `RetryLimits`,
  `EventTrackers`, `EventProcessors`).
  A machine whose handlers interleave at every `await`, may die anywhere, and may lose their
  delivery to a redelivery while they still run. Trackers may forget, except where a theorem says
  otherwise. One machine serves the minutes, index and removal consumers, each with its own rule
  for what is retried; where the in-memory tracker needs no `await` the machine interleaves more
  finely than the code, which only adds runs. The three processors are classes; a handler of the
  machine that nobody interrupts does what they do.
- **Result cache** (`ResultCache`, `CacheCapacity`, `CacheInterleaving`). LRU order, capacity and time to
  live, one request at a time and with requests that interleave at their locks, fail and are cancelled.
- **Chunking** (`PlainWindows`, `MarkdownTables`, `Chunking`). Greedy packing of paragraphs, row-wise
  splitting of tables, overlapping windows.
- **Chunk index** (`DocumentStore`, `DocumentHistories`, `DocumentIndexing`, `DocumentReading`,
  `DocumentEvents`, `DocumentRoundTrip`). The points a document is stored as, replacing and removing documents in any
  order with any request failing, the indexing workflow, reading a document back, and what the
  document consumers do with the outcomes.
- **Retrieval merging** (`SourceMerge`, `SourceFolds`, `RankMerge`). Merging the chunks of one document,
  ranking one query's chunks by document, and merging the rankings of several queries.
- `Basics`, `Text`, `Uuids` and `Sorting` hold shared definitions. Python's `strip`, `split`,
  `splitlines`, `join`, `str(uuid)`, decimal printing and stable `sorted` are concrete functions with
  proved specifications; `lower`, the feedback classifier and the wording of messages are arbitrary
  functions; `uuid5` is injective on names. Scores, vectors and times are real numbers or integers.

## Where the code and its comments differ

The model follows the code.

- The fingerprint gate (`app/consumers/redis_feedback.py:136-138`) never fires: a window that has
  just taken a segment cannot have the fingerprint of an earlier query
  (`FeedbackRuns.FingerprintGateNeverFires`).
- The cache promises one computation for simultaneous requests of a key (`app/core/cache.py:14`).
  An eviction drops the key's lock while a waiter still holds on to it, so this holds exactly when
  all requested keys fit (`CacheInterleaving.SingleFlightIffKeysFit`).
- Table splitting promises to repeat the header in every piece (`app/pipelines/chunking.py:80`). A row
  that does not fit beside the header is cut into windows to which nothing is added
  (`MarkdownTables.HeaderLost`). Every chunk starts with a header of several lines exactly when every
  row fits beside it (`MarkdownTables.HeaderRepeatedIffAllFit`); with a header of one line a window
  may happen to start with it too (`MarkdownTables.HeaderRepeatedIff`, `MarkdownTables.HeaderByChance`).
- Removing a document before the collection exists is said to pass silently
  (`app/rag/qdrant_vector_store.py:43-44`); the 404 is an error (`DocumentHistories.RemoveNeedsCollection`).
- The removal consumer is said to requeue passing failures of the vector store
  (`app/events/rabbit.py:277-278`). What the adapter itself raises for them are `AiError`s, which go
  to the dead letters at once (`DocumentEvents.FailedRemovalSettlement`).
- Bad chunk sizes raise only for a content with a paragraph longer than a chunk, and then count as
  a retryable failure (`Chunking.RaisesIff`, `DocumentEvents.UnexpectedIffSizesFail`).
- The sections of a merged snippet are joined with a separator that the next merge splits at
  (`app/rag/source_merge.py:18`). A chunk that ends in the separator's opening half makes the next
  merge split one blank line too early (`SourceFolds.StraddlingFold`); it reads back what was
  written exactly when no section but the last ends so (`SourceFolds.MergedSectionsReadBack`).

## Model

| member | source | states |
|---|---|---|
| `FeedbackProcessor.MeetingWindowState.AppendSegment` | `app/consumers/redis_feedback.py:338-347` | the new window value: oldest dropped with its id when full, segment and id added |
| `FeedbackProcessor.MeetingWindowState.TrimExpiredSegments` | `app/consumers/redis_feedback.py:350-356` | the loop reaches the window value `Trim` describes |
| `FeedbackProcessor.FeedbackEventProcessor.CleanupExpiredState` | `app/consumers/redis_feedback.py:188-205` | both dictionaries keep exactly their unexpired entries; window objects stay apart |
| `FeedbackProcessor.FeedbackEventProcessor.TakeSegment` | `app/consumers/redis_feedback.py:97-126` | clean-up, `setdefault`, gates and append lead to the state and verdict of `Intake` |
| `FeedbackProcessor.FeedbackEventProcessor.ProcessRaw` | `app/consumers/redis_feedback.py:84-186` | one call leads to exactly the state and effect of `FeedbackModel.Process`, errors included |
| `FeedbackProcessor.FeedbackEventProcessor.PublishFeedback` | `app/consumers/redis_feedback.py:157-186` | the cooldown gate, a missing publisher, a raising publisher, and the remembered time |
| `WindowHistory.TrimDropsExpiredPrefix` | `app/consumers/redis_feedback.py:350-356` | trimming drops only expired segments and stops in front of one that is not |
| `WindowHistory.AbsorbTracks` | `app/consumers/redis_feedback.py:123-126` | taking a segment keeps the window a suffix of the admitted segments, and its start never moves back |
| `WindowHistory.WindowIsRecentSegments` | `app/consumers/redis_feedback.py:123-126` | with end times that never go back, the window is the last `max_segments` admitted, filtered by end time |
| `RecentWindows.ReachableIsIncremental` | `app/consumers/redis_feedback.py:338-356` | in every reachable state a window holds exactly what its admitted segments leave, one after the other |
| `RecentWindows.WindowIsFilterIff` | `app/consumers/redis_feedback.py:338-356` | the window is the declarative filter after every admitted segment if and only if, among the newest max_segments, expired segments stand in front of the others and what has expired stays so |
| `RecentWindows.OutOfOrderEndTimes` | `app/consumers/redis_feedback.py:350-356` | a run of events that meet their schema, whose end times go back and whose window is not the filter: an expired segment stays behind a fresh head |
| `WindowHistory.LaterWindowDiffers` | `app/consumers/redis_feedback.py:359-362` | windows of one history that end in different segments have different fingerprints, for any text |
| `WindowHistory.FingerprintIsNew` | `app/consumers/redis_feedback.py:136-138` | the fingerprint of a window that took a segment differs from that of every earlier query of its life |
| `WindowHistory.SuccessesFarApart` | `app/consumers/redis_feedback.py:131-135` | successful queries lie at least as many trigger intervals apart as positions, though end times need not rise |
| `FeedbackRuns.OtherWindowsUntouched` | `app/consumers/redis_feedback.py:98-108` | a call changes no window but its own, except that expired ones disappear |
| `FeedbackRuns.ReachableWindow` | `app/consumers/redis_feedback.py:100-126` | in every reachable state a window is a suffix of its admitted segments, ends in the newest, is bounded, has exactly its ids and an unexpired head, and is the declarative window when end times never go back |
| `FeedbackRuns.FingerprintsDistinct` | `app/consumers/redis_feedback.py:136-154` | within a life all executed queries have pairwise different fingerprints |
| `FeedbackRuns.FingerprintGateNeverFires` | `app/consumers/redis_feedback.py:136-138` | in a reachable state the fingerprint comparison never holds |
| `FeedbackRuns.QueriesMeetMinima` | `app/consumers/redis_feedback.py:127-130` | every executed query is a contiguous run of admitted segments that meets both minima |
| `FeedbackRuns.SuccessfulQueriesSpaced` | `app/consumers/redis_feedback.py:131-154` | over a whole life, success j comes at least (j - i) trigger intervals after success i |
| `FeedbackRuns.CooldownHolds` | `app/consumers/redis_feedback.py:157-205` | over a whole run two publications of one key are at least the cooldown apart, with clean-ups anywhere |
| `PublicationArrivals.CloseArrivalsRaised` | `app/consumers/redis_feedback.py:157-186` | two feedbacks of one key that reached the stream are closer than the cooldown only if the publisher of the earlier one raised |
| `PublicationArrivals.CloseArrivals` | `app/consumers/redis_feedback.py:157-186` | a run in which that happens: both arrive at the same time |
| `FeedbackRuns.PublishedAnswersQuery` | `app/consumers/redis_feedback.py:139-186` | what a call publishes is the answer to the query of the window that took its segment |
| `FeedbackRules.QueryIsForEvent` | `app/consumers/redis_feedback.py:139-149` | every query is for its event's meeting, session, organization and participants, under its correlation id, with the window of that meeting and session, which ends with the event's segment |
| `FeedbackRules.PublicationIsForEvent` | `app/consumers/redis_feedback.py:140-185` | what is published is the answer to that query, under the event's correlation id |
| `FeedbackRules.AdmittedIff` | `app/consumers/redis_feedback.py:109-126` | in a reachable state a final segment is admitted if and only if its id is not in the window, its sequence is later than all admitted and its times are not inverted |
| `FeedbackRules.QueriedIff` | `app/consumers/redis_feedback.py:127-149` | in a reachable state an admitted segment leads to a query if and only if the window meets both minima and the last success of its life is trigger_interval_seconds of speech ago |
| `FeedbackRules.PublishedIff` | `app/consumers/redis_feedback.py:157-186` | after any run a feedback is published if and only if the publisher returns and nothing of the same meeting, session, type and source minutes was published within cooldown_seconds |
| `FeedbackRules.LivesOnIff` | `app/consumers/redis_feedback.py:188-199` | a tick or a final segment leaves another window if and only if its last activity, an event of its own, is less than state_ttl_seconds ago |
| `FeedbackRules.RememberedIff` | `app/consumers/redis_feedback.py:200-205` | a publication is remembered until it is older than both periods |
| `FeedbackIsolation.EventSeesItsWindow` | `app/consumers/redis_feedback.py:97-154` | what an event does to its window, its admission and its query depend on nothing but the window it finds |
| `FeedbackIsolation.AsIfAlone` | `app/consumers/redis_feedback.py:97-154` | however the events of all meetings interleave, a window and its queries are those its own events alone would have given, up to clean-ups |
| `FeedbackAccess.BuildFeedbackAccessFilter` | `app/rag/feedback_access_filter.py:6-23` | the loop builds the filter tree with one condition per distinct participant |
| `FeedbackAccess.FilterMeansPermitted` | `app/rag/feedback_access_filter.py:9-23` | the filter accepts an indexed payload if and only if organization and type match, the meeting differs, and every participant is allowed |
| `FeedbackAccess.QualifyCandidates` | `app/workflows/meeting_feedback.py:82-90` | the gate keeps exactly the qualifying candidates, in order, with their types |
| `FeedbackAccess.ExecuteWorkflow` | `app/workflows/meeting_feedback.py:48-122` | the outcome for every query, retrieval failure and candidate list |
| `FeedbackAccess.QueryConserves` | `app/workflows/meeting_feedback.py:51-53` | the query holds all that was said, in order, and is empty if and only if nothing was |
| `FeedbackAccess.QueryLines` | `app/workflows/meeting_feedback.py:51` | without blank segments it is the stripped texts, one to a line |
| `FeedbackAccess.AnswerFollowsFirst` | `app/workflows/meeting_feedback.py:81-121` | the first candidate that passes the gate decides type, message and first source, the next one is the second source, and there is no third |
| `FeedbackAccess.OutcomeIff` | `app/workflows/meeting_feedback.py:51-101` | when the workflow fails, and that it gives a feedback if and only if something was said and some candidate passes |
| `FeedbackAccess.GeneratedIsReadable` | `app/workflows/meeting_feedback.py:82-122` | one or two sources, each above the threshold and readable by the whole audience, which is the participants |
| `FeedbackAccess.PublishedToReadersOnly` | `app/consumers/redis_feedback.py:139-186` | whatever is published, in whatever state, is for the event's meeting and session, and every source is a minutes document of the event's organization, of another meeting, that all its participants may read |
| `FeedbackAccess.ArrivedForReadersOnly` | `app/consumers/redis_feedback.py:157-186` | the same of whatever reaches the stream, though the publisher raises |
| `FeedbackAccess.PublishedRangeIsWindow` | `app/workflows/meeting_feedback.py:110-120` | in a reachable state the published range is the first and last sequence of the queried window |
| `Uuids.ToTextInjective` | `app/rag/feedback_access_filter.py:12-19` | different ids print differently |
| `Uuids.ToTextOrder` | `app/workflows/meeting_feedback.py:118` | the order of the texts, character by character, is the order of the numbers |
| `Uuids.SortedUniqueSpec` | `app/workflows/meeting_feedback.py:118` | `sorted(set(ids), key=str)` loses none, invents none, repeats none, and its texts ascend |
| `EventConsumers.RunPublished` | `app/events/rabbit.py:78-125` | in every interleaving with crashes and redelivery, completed, marked and acked minutes events were published |
| `EventConsumers.OutputIdInjective` | `app/events/mapper.py:67-69` | the output id tells its source event |
| `EventConsumers.SameIdSameSource` | `app/events/mapper.py:67-69` | two publications carry one id exactly when they come from one source event |
| `EventConsumers.InboxSpec` | `app/events/mapper.py:68-69` | a receiver that drops known ids keeps one envelope for each source and loses none |
| `EventConsumers.AckedReachesInboxOnce` | `app/events/rabbit.py:78-125` | an acked minutes event reaches such a receiver exactly once |
| `RetryBudget.RunBudgeted` | `app/events/rabbit.py:127-136` | the invariant that pays for every requeue out of the retry count, in every interleaving |
| `RetryBudget.RequeuesBounded` | `app/events/rabbit.py:127-136` | with at most C handlers at once, all copies together are requeued at most max_retries + max over s of min(C - s, s * max_retries) times, so at most max_retries + C - 1 times |
| `RetryBudget.RunBalance` | `app/events/rabbit.py:66-136` | deliveries are conserved: open, requeued, taken back or settled |
| `RetryBudget.DeliveriesBounded` | `app/events/rabbit.py:127-136` | n copies need at most n plus that many deliveries besides those taken back, after which none waits |
| `RetryLimits.RequeueBoundAttained` | `app/events/rabbit.py:127-136` | a run with an intact tracker attains that bound, for every max_retries and C; it is max_retries + C - 1 while C - 1 <= max_retries |
| `RetryLimits.RequeuesIff` | `app/events/rabbit.py:127-136` | with an intact tracker an event can be requeued n times if and only if n is within the bound |
| `RetryLimits.NoRetriesNoRequeues` | `app/events/rabbit.py:131-136` | without retries, or without handlers, nothing is ever requeued |
| `RetryLimits.UnboundedIffRetries` | `app/events/idempotency.py:6-44` | with a tracker that may forget, requeues are unbounded if and only if there is a retry and a handler |
| `FailureCauses.RejectedForCause` | `app/events/rabbit.py:96-136` | in every interleaving a readable message is dead-lettered only after a failure no retry can help, by its consumer's rule, or a count beyond the limit |
| `FailureCauses.RequeuedForCause` | `app/events/rabbit.py:96-136` | in every interleaving an event is requeued only after a failure that is worth a retry, by its consumer's rule |
| `RetryBudget.RetryDelayMonotone` | `app/events/rabbit.py:138-142` | the delay doubles with every failure up to the cap, and never decreases |
| `RetryBudget.TotalDelayBounded` | `app/events/rabbit.py:138-142` | n delays sum to at most both base * (2^n - 1) and n * cap |
| `EventTrackers.InMemoryEventTracker.MarkCompleted` | `app/events/idempotency.py:14-16` | the event is completed and its count gone |
| `EventTrackers.InMemoryEventTracker.IncrementRetry` | `app/events/idempotency.py:18-21` | the count grows by one and is returned |
| `EventTrackers.RedisEventTracker.MarkCompleted` | `app/events/idempotency.py:35-37` | on string keys the same change of the abstract tracker; the completion lives for ttl_seconds |
| `EventTrackers.RedisEventTracker.IncrementRetry` | `app/events/idempotency.py:39-44` | on string keys the same count as in memory; it lives for ttl_seconds from its first increment |
| `EventTrackers.RedisEventTracker.Wait` | `app/events/idempotency.py:32-44` | as time passes exactly the expired completions and counts are forgotten |
| `EventTrackers.LivesUntil` | `app/events/idempotency.py:32-44` | a key is there until its expiry time and no longer |
| `EventTrackers.RepresentsCompleted` | `app/events/idempotency.py:35-37` | setting one completion key completes that event and no other |
| `EventTrackers.RepresentsCounted` | `app/events/idempotency.py:39-44` | counting on one retry key counts that event and no other |
| `EventProcessors.MinutesEventProcessor.Process` | `app/events/rabbit.py:66-125` | settlement, tracker, publications and back-off of one handling |
| `EventProcessors.DocumentIndexEventProcessor.Process` | `app/events/rabbit.py:159-241` | settlement and tracker of one handling |
| `EventProcessors.DocumentIndexRemovedEventProcessor.Process` | `app/events/rabbit.py:258-286` | settlement and tracker of one handling; every `AiError` is dead-lettered |
| `EventProcessors.AloneIsARun` | `app/events/rabbit.py:66-286` | a handler of the machine that nobody interrupts does what the processor does |
| `EventProcessors.PoisonousMessage` | `app/events/rabbit.py:127-136` | handled one at a time, a message that always fails is requeued max_retries times, then dead-lettered |
| `EventProcessors.ExecutionFailureHandled` | `app/events/rabbit.py:96-286` | which failures of an execution are counted and requeued by which consumer, and what is dead-lettered uncounted |
| `EventProcessors.PublicationFailureHandled` | `app/events/rabbit.py:78-125` | the same for a publication that fails, whether or not it arrived |
| `ResultCache.AsyncResultCache.LookupKey` | `app/core/cache.py:39-48` | the ordered dictionary after a lookup, and its answer |
| `ResultCache.AsyncResultCache.InsertKey` | `app/core/cache.py:50-55` | the eviction loop leaves the newest entries and drops the locks of exactly the evicted keys |
| `ResultCache.AsyncResultCache.Get` | `app/core/cache.py:24-37` | one undisturbed request: state and answer |
| `ResultCache.ByRecencySpec` | `app/core/cache.py:39-55` | the reference order: the distinct requested keys by their last request |
| `ResultCache.StoreIsByRecency` | `app/core/cache.py:24-55` | after any sequential trace, if there is no time to live or nothing raises, the keys are the last max_size of that order over the touched keys |
| `ResultCache.TouchedAreAnswered` | `app/core/cache.py:24-37` | without a time to live and without `None` values exactly the answered requests touch their keys |
| `ResultCache.FailureStoresNothing` | `app/core/cache.py:24-48` | what a raising request leaves and answers, its key absent, live, expired or holding `None` |
| `ResultCache.HitIffYoung` | `app/core/cache.py:24-48` | a stored value is answered if and only if it is not `None` and at the first lookup no older than the time to live |
| `ResultCache.LockedHitIffYoung` | `app/core/cache.py:31-48` | under the key's lock it is the second lookup that counts |
| `ResultCache.HitsAreRecent` | `app/core/cache.py:24-55` | over any trace, every hit was computed for an earlier request of the key and stored at most the time to live before |
| `CacheCapacity.LargerCacheIncludes` | `app/core/cache.py:24-55` | without a time to live, whatever raises, a larger cache holds all a smaller one holds, in the same order |
| `CacheCapacity.AnsweredSuffix` | `app/core/cache.py:24-55` | while nothing raises the keys at a smaller capacity are a suffix of those at a larger one |
| `CacheCapacity.SuffixIff` | `app/core/cache.py:24-55` | without a time to live they are a suffix throughout if and only if no request raises for a key only the larger cache holds |
| `CacheCapacity.LostHitIffSmaller` | `app/core/cache.py:24-55` | such a request exists if and only if the capacities differ |
| `CacheCapacity.LargerCacheComputesLess` | `app/core/cache.py:24-55` | without a time to live the number of computations, failing ones and `None` included, never grows with the capacity |
| `ResultCache.CacheIsTransparent` | `app/core/cache.py:24-55` | over a function of the key every answer is the function's value |
| `CacheInterleaving.SingleFlightIffKeysFit` | `app/core/cache.py:24-55` | one computation per key at a time in every interleaving if and only if all keys fit; the failing interleaving is built |
| `CacheInterleaving.EachKeyComputedOnce` | `app/core/cache.py:24-55` | without expiry and with room for all keys, no key is successfully computed twice |
| `CacheInterleaving.Collision` | `app/core/cache.py:50-55` | with more keys than room, an interleaving with two computations of one key in flight |
| `PlainWindows.SplitPlainWindow` | `app/pipelines/chunking.py:118-130` | the loop cuts the specified windows and keeps the nonblank ones |
| `PlainWindows.SpansTile` | `app/pipelines/chunking.py:118-130` | windows start at the start, end at the end, are full but the last, and overlap their predecessor by exactly overlap_chars |
| `PlainWindows.SpansCover` | `app/pipelines/chunking.py:118-130` | every position lies in a window |
| `PlainWindows.SpanCount` | `app/pipelines/chunking.py:118-130` | a longer text has 1 + ceil((len - max) / (max - overlap)) windows, blank ones included |
| `PlainWindows.PlainWindowSpec` | `app/pipelines/chunking.py:118-130` | pieces are nonempty and fit, and every position that is no white space lies in a window that is cut and kept |
| `PlainWindows.GlueWithoutOverlap` | `app/pipelines/chunking.py:118-130` | without overlap the unstripped windows glue to the text |
| `PlainWindows.WindowsConserve` | `app/pipelines/chunking.py:118-130` | without overlap the returned windows hold every character that is no white space, once, in order |
| `PlainWindows.SplitByWindow` | `app/rag/chunking.py:61-69` | the loop of the other variant cuts the specified windows |
| `PlainWindows.SteppedReturnsPlain` | `app/rag/chunking.py:61-69` | the variant returns the texts of the same windows, followed only by ends of the last |
| `MarkdownTables.SplitMarkdownTable` | `app/pipelines/chunking.py:79-115` | the method returns the chunks the row packing specifies |
| `MarkdownTables.PackTableRows` | `app/pipelines/chunking.py:94-112` | the loop over the rows |
| `MarkdownTables.TableShowsItsRows` | `app/pipelines/chunking.py:79-115` | the returned chunks show every row once, in order: beside others under the header, or cut into windows that glue to it |
| `MarkdownTables.RowsConserved` | `app/pipelines/chunking.py:94-115` | the pieces the chunks are made from hold every row once, in order |
| `MarkdownTables.ChunksShowTheirRows` | `app/pipelines/chunking.py:94-115` | a row chunk is the header, a line break and its rows; the windows of an oversized row glue to it |
| `MarkdownTables.PiecesGood` | `app/pipelines/chunking.py:94-112` | row chunks fit and hold a row; only rows that do not fit beside the header are cut |
| `MarkdownTables.OversizedIff` | `app/pipelines/chunking.py:96-109` | a row is cut into windows if and only if it does not fit beside the header |
| `MarkdownTables.NothingButOversized` | `app/pipelines/chunking.py:96-114` | when no row fits beside the header every piece is a cut row |
| `MarkdownTables.TableChunksFit` | `app/pipelines/chunking.py:79-115` | every chunk of a table is nonempty and fits, and there is one |
| `MarkdownTables.HeaderRepeatedIff` | `app/pipelines/chunking.py:80-115` | unless the header fills a chunk, every returned chunk starts with the header if and only if the windows of every row that does not fit beside it do |
| `MarkdownTables.HeaderRepeatedIffAllFit` | `app/pipelines/chunking.py:80-115` | for a header of several lines: if and only if every row fits beside it |
| `MarkdownTables.FittingTableRepeatsHeader` | `app/pipelines/chunking.py:80-115` | when every row fits beside the header every chunk starts with the header |
| `MarkdownTables.HeaderLost` | `app/pipelines/chunking.py:80-115` | a table that is returned without its header |
| `MarkdownTables.HeaderByChance` | `app/pipelines/chunking.py:80-115` | with a header of one line, a row too long beside it that starts with it all the same |
| `MarkdownTables.LinesConserve` | `app/pipelines/chunking.py:81` | the lines of a table hold every character of the block that is no white space, once, in order |
| `MarkdownTables.TableIff` | `app/pipelines/chunking.py:57-69` | lines make a table if and only if there are two, all are between bars, and one of the first three is a separator |
| `MarkdownTables.SeparatorIff` | `app/pipelines/chunking.py:72-76` | a line of cells is a separator if and only if every cell, stripped, is of dashes and colons with a dash |
| `MarkdownTables.HeaderEndsAtSeparator` | `app/pipelines/chunking.py:82-87` | the header ends with the first separator among the first three lines |
| `MarkdownTables.AlignedTable` | `app/pipelines/chunking.py:82-87` | a table whose separator is its third line and sets alignments |
| `Chunking.SplitDocumentIntoChunks` | `app/pipelines/chunking.py:4-39` | the loop returns the specified chunks, or the `ValueError` it runs into |
| `Chunking.SplitLongBlock` | `app/pipelines/chunking.py:42-54` | the checks in their order, then the table or the window algorithm |
| `Chunking.BlocksConserved` | `app/pipelines/chunking.py:14-30` | the chunks hold every block once, in order |
| `Chunking.BlocksArePartsOf` | `app/pipelines/chunking.py:10` | the blocks are exactly the nonblank parts between blank lines, stripped, in order and as often as they stand there |
| `Chunking.ContentConserved` | `app/pipelines/chunking.py:10-39` | the chunks hold every character of the content that is no white space, once and in order, when every paragraph fits or is cut without overlap and is no table |
| `Chunking.RaisedError` | `app/pipelines/chunking.py:42-48` | which of the three errors is raised |
| `Chunking.LongIffTooLong` | `app/pipelines/chunking.py:16-27` | a block is cut if and only if it is longer than a chunk |
| `Chunking.RaisesIff` | `app/pipelines/chunking.py:42-48` | splitting raises if and only if the sizes are bad and some block is longer than a chunk |
| `Chunking.ChunksFit` | `app/pipelines/chunking.py:10-39` | every chunk is nonempty and fits, chunks are numbered from 0, and there is none exactly for blank content |
| `Chunking.PackingLossless` | `app/pipelines/chunking.py:14-30` | when every block fits, the joined chunks are the joined blocks |
| `Chunking.PackingOptimal` | `app/pipelines/chunking.py:14-30` | no order-preserving grouping whose groups fit has fewer groups than there are chunks, and the chunks are such a grouping |
| `DocumentStore.PointNameInjective` | `app/workflows/document_indexing.py:121-129` | the name of a point tells document, chunk index and strategy version |
| `DocumentStore.PointsOfSpec` | `app/workflows/document_indexing.py:119-164` | a document is stored as one point for each chunk, under different ids |
| `DocumentStore.FilterFindsDocument` | `app/rag/qdrant_vector_store.py:98-110` | the deletion filter matches exactly the document's points |
| `DocumentStore.QdrantVectorStore.Ensure` | `app/rag/qdrant_vector_store.py:51-86` | the cached dimension, creation, the dimension error, and faults on the way |
| `DocumentStore.QdrantVectorStore.DeleteDocument` | `app/rag/qdrant_vector_store.py:98-112` | exactly the document's points go; a failing request may have reached any of them |
| `DocumentStore.QdrantVectorStore.Upsert` | `app/rag/qdrant_vector_store.py:114-136` | the points stand under their ids; a failing request may have reached any of them |
| `DocumentStore.QdrantVectorStore.Replace` | `app/rag/qdrant_vector_store.py:33-40` | no points is an error; otherwise ensure, delete, upsert, stopping at the first failure |
| `DocumentHistories.OnePoints` | `app/rag/qdrant_vector_store.py:33-45` | one operation leaves other documents alone, replaces its own when it succeeds, and on failure leaves part of the old or part of the new |
| `DocumentHistories.StoreRepresentsCatalogue` | `app/rag/qdrant_vector_store.py:33-45` | after any history a document whose last operation did not fail has exactly the points of its last replace, or none once removed |
| `DocumentHistories.NoStrayPoint` | `app/rag/qdrant_vector_store.py:33-45` | when no last operation failed, every stored point belongs to the last replace of its document |
| `DocumentHistories.NeverMixed` | `app/rag/qdrant_vector_store.py:33-40` | even after failures the points of a document come from one version |
| `DocumentHistories.RetryMakesWhole` | `app/workflows/document_indexing.py:116-174` | indexing the same chunks again, after success or after a failure anywhere, leaves what one success leaves |
| `DocumentHistories.HistoryKeepsDimension` | `app/rag/qdrant_vector_store.py:51-86` | the remembered dimension is that of the collection, in every history |
| `DocumentHistories.IndexSucceedsIff` | `app/rag/qdrant_vector_store.py:33-86` | with no request failing, indexing succeeds if and only if there are chunks and no other dimension is in place |
| `DocumentHistories.RemoveNeedsCollection` | `app/rag/qdrant_vector_store.py:42-45` | with no request failing, a removal succeeds if and only if there is a collection; before the first indexing there is none |
| `DocumentIndexing.Execute` | `app/workflows/document_indexing.py:69-183` | the errors in their order with the store untouched, or the store after the replace and the chunk count |
| `DocumentIndexing.NoChunksNeverHappens` | `app/workflows/document_indexing.py:84-95` | the error for a document without chunks is never raised |
| `DocumentIndexing.PreparedFits` | `app/workflows/document_indexing.py:84-115` | what is stored has chunks, all nonempty and within the size |
| `DocumentIndexing.PreparedPoints` | `app/workflows/document_indexing.py:50-164` | which point stands for chunk i: its id, the i-th vector, the title, the document, and the chunk of the text, which is the command's content or else the file's |
| `DocumentIndexing.ContentComesFirst` | `app/workflows/document_indexing.py:44-47` | with content of its own a command does not depend on any file |
| `DocumentIndexing.UnpreparedIff` | `app/workflows/document_indexing.py:44-83` | each error before the embedding if and only if its cause |
| `DocumentIndexing.EmbeddingDecides` | `app/workflows/document_indexing.py:96-117` | what an embedding failure, a wrong count and the right count lead to |
| `DocumentIndexing.BadSizesIff` | `app/workflows/document_indexing.py:84-89` | bad sizes are noticed if and only if some paragraph is longer than a chunk |
| `DocumentEvents.AckedIndexIsStored` | `app/events/rabbit.py:171-204` | a new index event is acked only when the index holds exactly its chunks, other documents untouched |
| `DocumentEvents.FailedIndexSettlement` | `app/events/rabbit.py:179-241` | below the limit a failed index event is requeued if and only if its failure is no `AiError` or a retryable one; with expected replies, if and only if that is a retryable `AiError` or the sizes fail |
| `DocumentEvents.UnexpectedIffSizesFail` | `app/events/rabbit.py:176-200` | when the command is built and no reply is an unexpected exception, the failure is no `AiError` if and only if the sizes fail |
| `DocumentEvents.UnpreparedSettlement` | `app/events/rabbit.py:179-241` | a failed download or extraction counts as it says; a missing storage, text or audience never does |
| `DocumentEvents.EmbeddingSettlement` | `app/events/rabbit.py:179-241` | a failed embedding counts as it says, a wrong number of embeddings always |
| `DocumentEvents.StoringSettlement` | `app/events/rabbit.py:179-241` | a failure of the store counts as it says, or when it is no `AiError` |
| `DocumentEvents.FailedRemovalSettlement` | `app/events/rabbit.py:270-283` | a failed removal is requeued only for a failure that is no `AiError`; before the first indexing every removal is dead-lettered |
| `DocumentReading.JoinDocumentChunks` | `app/rag/qdrant_chat.py:253-268` | the loop joins the nonempty contents in chunk order, stripped and cut |
| `DocumentReading.SelectedIsOfDocument` | `app/rag/qdrant_chat.py:164-171` | the document filter selects exactly the document's points |
| `DocumentReading.ReadBack` | `app/rag/qdrant_chat.py:154-191` | up to 500 chunks read back as their contents in order, whatever order the scroll returns |
| `DocumentReading.HistoryReadBack` | `app/rag/qdrant_chat.py:154-191` | after any history a document reads back as its last replace, and as nothing once removed |
| `DocumentRoundTrip.TextReadsBack` | `app/rag/qdrant_chat.py:154-268` | a text that is indexed and read back is the same but for white space, up to where the limit cuts |
| `Sorting.SortBySpec` | `app/rag/qdrant_chat.py:263` | sorting permutes, orders, and keeps equal keys in their order |
| `SourceMerge.MergeChatSources` | `app/rag/source_merge.py:8-36` | the merged source, or the error for different resources |
| `SourceMerge.CollectSections` | `app/rag/source_merge.py:17-21` | the inner loop collects the stripped, nonempty, unknown parts |
| `SourceMerge.SectionLimitFits` | `app/rag/source_merge.py:22-27` | each of at most six sections gets at least 312 characters and all fit with their separators |
| `SourceMerge.SliceNeverCuts` | `app/rag/source_merge.py:22-33` | the final slice never cuts; at most six sections and 2,000 characters |
| `SourceMerge.SectionsOfSpec` | `app/rag/source_merge.py:16-21` | the sections are exactly those of either snippet, each once, the first snippet's first |
| `SourceMerge.MergedSectionsSpec` | `app/rag/source_merge.py:22-30` | each section is a prefix of an input section, at least 312 characters of it or all |
| `SourceMerge.MergedSectionsExact` | `app/rag/source_merge.py:22-30` | the first six sections stay, each whole if its length times their number fits, and otherwise cut to the longest prefix of which that is so |
| `SourceMerge.SectionsInOrder` | `app/rag/source_merge.py:16-21` | the sections stand in the order in which the two snippets first show them |
| `SourceMerge.MergedSnippetShape` | `app/rag/source_merge.py:30-33` | the snippet is the kept sections with the separator between them |
| `SourceFolds.SplitUndoesJoin` | `app/rag/source_merge.py:18-30` | splitting undoes joining if and only if no part but the last ends in the opening half of the separator |
| `SourceFolds.MergedSectionsReadBack` | `app/rag/source_merge.py:16-30` | the next merge reads the sections this one wrote if and only if none but the last ends so |
| `SourceFolds.StraddlingFold` | `app/rag/source_merge.py:16-30` | two chunks whose merged snippet is read back with a section neither has |
| `SourceFolds.FoldScore` | `app/rag/source_merge.py:31-36` | folding any number of sources takes the best score |
| `SourceFolds.FoldLimits` | `app/rag/source_merge.py:22-33` | however many sources are folded the limits hold and nothing is sliced away |
| `SourceFolds.FoldParts` | `app/rag/source_merge.py:18-33` | splitting the snippet of a fold gives the sections of its last merge, at most six, if and only if these are separable |
| `SourceFolds.FoldSections` | `app/rag/source_merge.py:16-30` | every section of a fold is a prefix of a section of some input when every merge on the way is read back |
| `SourceFolds.FoldSectionsIff` | `app/rag/source_merge.py:16-30` | when no section of an input starts with the text of the separator, that is so if and only if every merge on the way is read back |
| `SourceFolds.LeadFreeFolds` | `app/rag/source_merge.py:16-30` | every merge is read back when no section of any input contains the opening half of the separator |
| `RankMerge.AddSource` | `app/rag/multi_query_search.py:45-55` | one turn: merge, skip when full, or append; the index dictionary stays in step |
| `RankMerge.MergeRankings` | `app/rag/multi_query_search.py:38-56` | the nested loops collect the rank-major interleaving |
| `RankMerge.CollectSpec` | `app/rag/multi_query_search.py:38-56` | the result is the first top_n distinct documents of the stream, each the fold of all its sources |
| `RankMerge.EntryScore` | `app/rag/multi_query_search.py:45-55` | each entry has the best score of all its document's occurrences |
| `RankMerge.EntryKeepsFirst` | `app/rag/multi_query_search.py:45-55` | each entry keeps the type and title of its document's first occurrence |
| `RankMerge.EveryQueryHasItsShare` | `app/rag/multi_query_search.py:41-55` | the first floor(top_n / q) documents of every query are in the result |
| `RankMerge.Rerank` | `app/providers/vector_score_reranker.py:17-34` | the loop returns the specified ranking |
| `RankMerge.KeptChunksStable` | `app/providers/vector_score_reranker.py:21-22` | the chunks of one score that reach the threshold are all kept, as often as they stand and in their order |
| `RankMerge.RerankedSpec` | `app/providers/vector_score_reranker.py:21-34` | different documents in descending order of their best chunk, each with that score, all above the threshold |
| `RankMerge.RerankedComplete` | `app/providers/vector_score_reranker.py:21-34` | a document with a good enough chunk is left out only for top_n documents at least as good |

## Left out

- HTTP, Redis, RabbitMQ, S3 and the model providers themselves, stream discovery, topology, settings, routes and container wiring: input and output, replaced by oracles.
- Parsing and validation of messages: the model starts from typed payloads, with an unreadable message as its own case.
- Logging, prompts, evaluation scripts.
- Vector similarity, rank fusion, sparse encoding, query expansion, the regular expressions of the feedback classifier: library behaviour or pattern lists.
- Minutes evidence and quality filters, editor conversion, citation selection, date bounds of listings: simple filters and maps.
- Paragraph packing in `app/rag/chunking.py`: only its window algorithm is related to the other one.
- Rounding of floating-point scores and delays: they are real numbers.
- The chat access filter of `app/rag/qdrant_chat.py`: the reader is taken to be permitted, and all points of a document share the fields it looks at.
- A write that is applied after its request has already failed and a later request of the same document has been sent: operations on a document are taken to be over before the next begins, as the code has no lock across replicas.
- The order of an index event and a removal event of one document, which use separate queues.
- FeedbackRuns.CooldownHolds: takes a clock that does not go back and results dated no earlier than their call's clock reading; a publication counts when the publisher returns; `PublicationArrivals` says when what reached the stream can be closer.
- RetryBudget.RequeuesBounded: takes a tracker that forgets nothing; with one that may forget no bound holds unless there are no retries at all (`RetryLimits.UnboundedIffRetries`).
- EventTrackers.RedisEventTracker.MarkCompleted: one step in the class, with the clock standing still during a call; its two commands, and expiry between any two awaits, are separate actions of the interleaving machine.
- ResultCache.StoreIsByRecency: with a time to live, for traces whose computations do not raise; there a raising request may drop an expired entry, as `FailureStoresNothing` says.
- DocumentReading.ReadBack: for documents of at most 500 chunks; a longer one reads back as whichever 500 the scroll returns.
- Chunking.ContentConserved: takes contents that are split without repeating anything; overlapping windows repeat characters, and a table too long for a chunk repeats its header.
- DocumentRoundTrip.TextReadsBack: takes the same contents, and documents of at most 500 chunks.
- SourceFolds.FoldSections: takes folds whose merges are all read back; `StraddlingFold` shows one that is not, `LeadFreeFolds` gives a condition on the inputs, and `FoldSectionsIff` the converse for inputs no section of which starts with the text of the separator.
