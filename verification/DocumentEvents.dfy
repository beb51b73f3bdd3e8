/** What the document events' consumers (app/events/rabbit.py) do with the outcomes of the index. */
module DocumentEvents {
  import opened Basics
  import opened Uuids
  import opened DocumentStore
  import opened DocumentIndexing
  import opened EventConsumers
  import Chunking
  import Histories = DocumentHistories
  import Processors = EventProcessors

  /** Exceptions that are not `AiError`s reach the consumer as they are. */
  function IndexFailure(e: IndexError): Failure {
    match e
    case BadSizes(_) => Unexpected
    case Crashed => Unexpected
    case CountMismatch => AiError(true)
    case StageFailed(_, retryable) => AiError(retryable)
    case _ => AiError(false)
  }

  /**
   * Building the command: an unknown event type or payload is an `AiError`, a payload that passes
   * but makes no command raises outside the handler.
   */
  datatype Building = Built(command: Command) | InvalidEvent | BuildingCrashed

  /** Storing what was prepared, if anything was. */
  function StoreExecution(prepared: Result<(Indexed, nat), IndexError>, faults: Faults, s: Store)
    : (Store, Option<Failure>)
  {
    match prepared
    case Err(e) => (s, Some(IndexFailure(e)))
    case Ok((x, dimensions)) =>
      var (s', outcome) := Histories.Apply(s, Histories.Index(x, dimensions, faults));
      (s', if outcome.Failed? then Some(IndexFailure(StoringFailed(outcome.error))) else None)
  }

  /** One execution of an index event: the store it leaves, and its failure. */
  function IndexExecution(config: DocumentIndexing.Config, building: Building, services: Services, s: Store)
    : (Store, Option<Failure>)
  {
    match building
    case InvalidEvent => (s, Some(AiError(false)))
    case BuildingCrashed => (s, Some(Unexpected))
    case Built(command) => StoreExecution(Prepare(config, command, services), services.faults, s)
  }

  function StoreFailure(error: StoreError): Failure {
    match error
    case DocumentIndexFailed(retryable) => AiError(retryable)
    case UnexpectedStoreError => Unexpected
  }

  function RemovalExecution(d: Uuid, faults: Faults, s: Store): (Store, Option<Failure>) {
    var (s', outcome) := Histories.Apply(s, Histories.Remove(d, faults));
    (s', if outcome.Failed? then Some(StoreFailure(outcome.error)) else None)
  }

  /** The settlement of an event handled alone, given what its execution came to. */
  function Settled(kind: Kind, maxRetries: nat, t: Tracker, e: EventId, execution: Option<Failure>)
    : Processors.Settlement
  {
    Processors.HandleAlone(kind, maxRetries, t, e, true, Oracle(execution, Confirmed)).settlement
  }

  /**
   * An index event that is not known as completed is acknowledged only once the document's points
   * are exactly those of the chunks of its content, at least one and each within the size; the
   * points of other documents are what they were.
   */
  lemma {:induction false} AckedIndexIsStored(
    config: DocumentIndexing.Config, building: Building, services: Services, s: Store,
    maxRetries: nat, t: Tracker, e: EventId, other: Uuid)
    requires WellNamed(PointsIn(s)) && e !in t.completed
    requires Settled(Index, maxRetries, t, e, IndexExecution(config, building, services, s).1).Ack?
    ensures building.Built? && Prepare(config, building.command, services).Ok?
    ensures
      var d := building.command.document.documentId;
      var x := Prepare(config, building.command, services).value.0;
      var points := PointsIn(IndexExecution(config, building, services, s).0);
      && PointsOfDocument(points, d) == Histories.Stored(x)
      && Fitting(x.chunks, config.chunkSize)
      && (other != d ==> PointsOfDocument(points, other) == PointsOfDocument(PointsIn(s), other))
  {
    var command := building.command;
    PreparedFits(config, command, services);
    var (x, dimensions) := Prepare(config, command, services).value;
    Histories.OnePoints(s, Histories.Index(x, dimensions, services.faults), command.document.documentId);
    Histories.OnePoints(s, Histories.Index(x, dimensions, services.faults), other);
  }

  /** Whatever the consumer and the failure, a failed event is requeued just when it may be retried. */
  lemma {:induction false} FailureSettlement(kind: Kind, maxRetries: nat, t: Tracker, e: EventId, failure: Failure)
    requires e !in t.completed
    ensures Settled(kind, maxRetries, t, e, Some(failure))
         == Processors.Reject(Retryable(kind, failure) && t.Count(e) < maxRetries)
  {
  }

  // ---------- Failures that are no AiError ----------

  predicate ExpectedError(error: Option<StoreError>) {
    error.Some? ==> error.value.DocumentIndexFailed?
  }

  predicate ExpectedWrite(fault: Option<WriteFault>) {
    fault.Some? ==> fault.value.error.DocumentIndexFailed?
  }

  /** Whatever goes wrong with a request to the store is an `AiError`. */
  predicate ExpectedFaults(f: Faults) {
    && ExpectedError(f.lookup) && ExpectedError(f.indexes)
    && (f.creation.Some? ==> f.creation.value.error.DocumentIndexFailed?)
    && ExpectedWrite(f.deletion) && ExpectedWrite(f.upsert)
  }

  /** No reply of the surroundings is an unexpected exception. */
  predicate Expected(services: Services) {
    !services.file.FileCrashed? && !services.embedding.EmbeddingCrashed? && ExpectedFaults(services.faults)
  }

  lemma {:induction false} StoreFailsAsExpected(s: Store, a: Histories.Action)
    requires a.Index? && ExpectedFaults(a.faults)
    ensures Histories.Apply(s, a).1.Failed? ==> Histories.Apply(s, a).1.error.DocumentIndexFailed?
  {
  }

  lemma {:induction false} UnexpectedIffUnforeseen(
    prepared: Result<(Indexed, nat), IndexError>, faults: Faults, s: Store)
    requires ExpectedFaults(faults)
    ensures StoreExecution(prepared, faults, s).1 == Some(Unexpected) <==>
      prepared.Err? && (prepared.error.BadSizes? || prepared.error.Crashed?)
  {
    if prepared.Ok? {
      StoreFailsAsExpected(s, Histories.Index(prepared.value.0, prepared.value.1, faults));
    }
  }

  /**
   * When the command is built and no reply is an unexpected exception, the one failure that is no
   * `AiError` is that of bad sizes. It counts as retryable although no retry can help.
   */
  lemma {:induction false} UnexpectedIffSizesFail(
    config: DocumentIndexing.Config, command: Command, services: Services, s: Store)
    requires Expected(services)
    ensures IndexExecution(config, Built(command), services, s).1 == Some(Unexpected) <==>
      SizesFail(config, command, services)
  {
    UnexpectedIffUnforeseen(Prepare(config, command, services), services.faults, s);
    BadSizesIff(config, command, services);
  }

  /**
   * A failed index event is requeued, while its count is below the limit, for a retryable `AiError`
   * and for every other exception; when the command is built and no reply is an unexpected exception,
   * that is for a retryable `AiError` and for bad sizes.
   */
  lemma {:induction false} FailedIndexSettlement(
    config: DocumentIndexing.Config, building: Building, services: Services, s: Store,
    maxRetries: nat, t: Tracker, e: EventId)
    requires e !in t.completed && IndexExecution(config, building, services, s).1.Some?
    ensures
      var failure := IndexExecution(config, building, services, s).1.value;
      var settlement := Settled(Index, maxRetries, t, e, Some(failure));
      && settlement == Processors.Reject((failure.Unexpected? || failure.retryable) && t.Count(e) < maxRetries)
      && (building.Built? && Expected(services) ==>
            settlement == Processors.Reject(
              (failure == AiError(true) || SizesFail(config, building.command, services)) && t.Count(e) < maxRetries))
  {
    FailureSettlement(Index, maxRetries, t, e, IndexExecution(config, building, services, s).1.value);
    if building.Built? && Expected(services) {
      UnexpectedIffSizesFail(config, building.command, services, s);
    }
  }

  // ---------- Which failures of an index event count ----------

  /** The event goes back to the queue just when the failure counts and the limit is not reached. */
  ghost predicate RequeuedWhen(
    config: DocumentIndexing.Config, command: Command, services: Services, s: Store,
    maxRetries: nat, t: Tracker, e: EventId, counts: bool)
  {
    var before := if e in t.retries then t.retries[e] else 0;
    Settled(Index, maxRetries, t, e, IndexExecution(config, Built(command), services, s).1)
      == Processors.Reject(counts && before < maxRetries)
  }

  /** Whether an error of the preparation is worth a retry. */
  predicate ErrorCounts(error: IndexError) {
    match error
    case StageFailed(_, retryable) => retryable
    case CountMismatch => true
    case BadSizes(_) => true
    case Crashed => true
    case _ => false
  }

  lemma {:induction false} ErrorSettlement(
    config: DocumentIndexing.Config, command: Command, services: Services, s: Store,
    maxRetries: nat, t: Tracker, e: EventId)
    requires e !in t.completed && Prepare(config, command, services).Err?
    ensures RequeuedWhen(config, command, services, s, maxRetries, t, e,
                         ErrorCounts(Prepare(config, command, services).error))
  {
    hide Prepare;
    FailureSettlement(Index, maxRetries, t, e, IndexFailure(Prepare(config, command, services).error));
  }

  /** The event's file could not be had, for a reason that says whether a retry may help. */
  predicate FileFailed(services: Services, retryable: bool) {
    services.file == DownloadFailed(retryable) || services.file == ExtractionFailed(retryable)
  }

  /**
   * A failed download or extraction counts just when it says so; an unconfigured file storage, an empty
   * text and an empty audience never do.
   */
  lemma {:induction false} UnpreparedSettlement(
    config: DocumentIndexing.Config, command: Command, services: Services, s: Store,
    maxRetries: nat, t: Tracker, e: EventId)
    requires e !in t.completed
    ensures forall r :: NeedsFile(command) && FileFailed(services, r) ==>
      RequeuedWhen(config, command, services, s, maxRetries, t, e, r)
    ensures NeedsFile(command) && services.file.NotConfigured? ==>
      RequeuedWhen(config, command, services, s, maxRetries, t, e, false)
    ensures !HasContent(command) && !NeedsFile(command) ==>
      RequeuedWhen(config, command, services, s, maxRetries, t, e, false)
    ensures HasContent(command) && ScopeEmpty(command) ==>
      RequeuedWhen(config, command, services, s, maxRetries, t, e, false)
  {
    hide Prepare, RequeuedWhen, HasContent, NeedsFile;
    UnpreparedIff(config, command, services);
    if Prepare(config, command, services).Err? {
      ErrorSettlement(config, command, services, s, maxRetries, t, e);
    }
  }

  /** A failed embedding counts just when it says so, and a wrong number of embeddings always does. */
  lemma {:induction false} EmbeddingSettlement(
    config: DocumentIndexing.Config, command: Command, services: Services, s: Store,
    maxRetries: nat, t: Tracker, e: EventId, text: string, chunks: seq<Chunking.DocumentChunk>)
    requires e !in t.completed && ReachesEmbedding(config, command, services, text, chunks)
    ensures forall r :: services.embedding == EmbeddingFailed(r) ==>
      RequeuedWhen(config, command, services, s, maxRetries, t, e, r)
    ensures services.embedding.Embeddings? && |services.embedding.vectors| != |chunks| ==>
      RequeuedWhen(config, command, services, s, maxRetries, t, e, true)
    ensures services.embedding.EmbeddingCrashed? ==>
      RequeuedWhen(config, command, services, s, maxRetries, t, e, true)
  {
    hide Prepare, RequeuedWhen, ReachesEmbedding;
    EmbeddingDecides(config, command, services, text, chunks);
    if Prepare(config, command, services).Err? {
      ErrorSettlement(config, command, services, s, maxRetries, t, e);
    }
  }

  /** Once everything is prepared, a failure of the store counts when it says so or is no `AiError`. */
  lemma {:induction false} StoringSettlement(
    config: DocumentIndexing.Config, command: Command, services: Services, s: Store,
    maxRetries: nat, t: Tracker, e: EventId)
    requires e !in t.completed && Prepare(config, command, services).Ok?
    ensures
      var (x, dimensions) := Prepare(config, command, services).value;
      var outcome := Histories.Apply(s, Histories.Index(x, dimensions, services.faults)).1;
      outcome.Failed? ==>
        RequeuedWhen(config, command, services, s, maxRetries, t, e,
                     outcome.error.UnexpectedStoreError? || outcome.error.retryable)
  {
    hide Prepare, Histories.Apply;
    var (x, dimensions) := Prepare(config, command, services).value;
    var outcome := Histories.Apply(s, Histories.Index(x, dimensions, services.faults)).1;
    if outcome.Failed? {
      FailureSettlement(Index, maxRetries, t, e, IndexFailure(StoringFailed(outcome.error)));
    }
  }

  // ---------- Removals ----------

  /**
   * A removal that fails is requeued only for a failure that is no `AiError`: when the store asks
   * for a retry it is dead-lettered at once, and before the first indexing every removal is.
   */
  lemma {:induction false} FailedRemovalSettlement(
    start: Store, actions: seq<Histories.Action>, d: Uuid, faults: Faults, maxRetries: nat, t: Tracker, e: EventId)
    requires e !in t.completed
    ensures
      var failure := RemovalExecution(d, faults, Histories.Run(start, actions)).1;
      failure.Some? ==>
        Settled(Removal, maxRetries, t, e, failure)
          == Processors.Reject(failure.value.Unexpected? && t.Count(e) < maxRetries)
    ensures
      var calm := RemovalExecution(d, Faults(None, None, None, None, None), Histories.Run(start, actions)).1;
      start.collection.None? && (forall a :: a in actions ==> !a.Index?) ==>
        calm == Some(AiError(true)) && Settled(Removal, maxRetries, t, e, calm) == Processors.Reject(false)
  {
    var failure := RemovalExecution(d, faults, Histories.Run(start, actions)).1;
    if failure.Some? {
      FailureSettlement(Removal, maxRetries, t, e, failure.value);
    }
    Histories.RemoveNeedsCollection(start, actions, d);
  }
}
