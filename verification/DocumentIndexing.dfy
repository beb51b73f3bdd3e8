/** The indexing workflow (app/workflows/document_indexing.py). */
module DocumentIndexing {
  import opened Basics
  import opened Text
  import opened Uuids
  import opened DocumentStore
  import Access = FeedbackAccess
  import Chunking
  import Histories = DocumentHistories

  /** `document.userIds` are the users of the access scope. */
  datatype Command = Command(
    document: Access.Document, title: string, content: Option<string>, storageKey: Option<string>,
    departmentIds: seq<Uuid>, sharedWorkspaceIds: seq<Uuid>)

  datatype Config = Config(chunkSize: int, chunkOverlap: int, version: string)

  datatype Stage = Download | Extraction | Embedding | Storing

  /** `Crashed` stands for every exception that is neither an `AiError` nor one of the others. */
  datatype IndexError =
    | StorageNotConfigured
    | EmptyContent
    | EmptyScope
    | BadSizes(sizes: Chunking.SizeError)
    | NoChunks
    | CountMismatch
    | StageFailed(stage: Stage, retryable: bool)
    | Crashed

  // ---------- What the surroundings answer ----------

  datatype FileReply =
    | NotConfigured
    | DownloadFailed(retryable: bool)
    | ExtractionFailed(retryable: bool)
    | FileCrashed
    | Extracted(text: string)

  datatype EmbeddingReply =
    | EmbeddingFailed(retryable: bool)
    | EmbeddingCrashed
    | Embeddings(vectors: seq<Vector>, dimensions: nat)

  datatype Services = Services(file: FileReply, embedding: EmbeddingReply, faults: Faults)

  // ---------- The steps ----------

  function ResolveContent(command: Command, file: FileReply): Result<string, IndexError> {
    if command.content.Some? && Strip(command.content.value) != "" then Ok(Strip(command.content.value))
    else if command.storageKey.None? || command.storageKey.value == "" then Ok("")
    else
      match file
      case NotConfigured => Err(StorageNotConfigured)
      case DownloadFailed(retryable) => Err(StageFailed(Download, retryable))
      case ExtractionFailed(retryable) => Err(StageFailed(Extraction, retryable))
      case FileCrashed => Err(Crashed)
      case Extracted(text) => Ok(Strip(text))
  }

  predicate ScopeEmpty(command: Command) {
    command.document.userIds == [] && command.departmentIds == [] && command.sharedWorkspaceIds == []
  }

  function Paired(chunks: seq<Chunking.DocumentChunk>, vectors: seq<Vector>): (parts: seq<Embedded>)
    requires |chunks| == |vectors|
    ensures |parts| == |chunks|
    ensures forall i :: 0 <= i < |parts| ==> parts[i] == Embedded(chunks[i].content, vectors[i])
  {
    seq(|chunks|, i requires 0 <= i < |chunks| => Embedded(chunks[i].content, vectors[i]))
  }

  function EmbedChunks(
    config: Config, command: Command, chunks: seq<Chunking.DocumentChunk>, reply: EmbeddingReply)
    : Result<(Indexed, nat), IndexError>
  {
    match reply
    case EmbeddingFailed(retryable) => Err(StageFailed(Embedding, retryable))
    case EmbeddingCrashed => Err(Crashed)
    case Embeddings(vectors, dimensions) =>
      if |vectors| != |chunks| then Err(CountMismatch)
      else Ok((Indexed(command.document, command.title, config.version, Paired(chunks, vectors)), dimensions))
  }

  /** Everything before the store is touched: what to store, or the error. */
  function Prepare(config: Config, command: Command, services: Services): Result<(Indexed, nat), IndexError> {
    match ResolveContent(command, services.file)
    case Err(e) => Err(e)
    case Ok(content) =>
      if content == "" then Err(EmptyContent)
      else if ScopeEmpty(command) then Err(EmptyScope)
      else
        match Chunking.Chunked(command.title, content, config.chunkSize, config.chunkOverlap)
        case Err(sizes) => Err(BadSizes(sizes))
        case Ok(chunks) =>
          if chunks == [] then Err(NoChunks) else EmbedChunks(config, command, chunks, services.embedding)
  }

  /** The stage error wraps an `AiError` and nothing else. */
  function StoringFailed(error: StoreError): IndexError {
    match error
    case DocumentIndexFailed(retryable) => StageFailed(Storing, retryable)
    case UnexpectedStoreError => Crashed
  }

  /** `execute`: the number of chunks stored, or the error. */
  method Execute(config: Config, command: Command, services: Services, store: QdrantVectorStore)
    returns (chunkCount: Result<nat, IndexError>)
    modifies store
    ensures Prepare(config, command, services).Err? ==>
      && chunkCount == Err(Prepare(config, command, services).error)
      && store.Value() == old(store.Value())
    ensures Prepare(config, command, services).Ok? ==>
      var (x, dimensions) := Prepare(config, command, services).value;
      var (s, outcome) := Histories.Apply(old(store.Value()), Histories.Index(x, dimensions, services.faults));
      && store.Value() == s
      && chunkCount ==
        if outcome.Failed? then Err(StoringFailed(outcome.error)) else Ok(|x.chunks|)
  {
    var content := ResolveContent(command, services.file);
    if content.Err? {
      return Err(content.error);
    }
    if content.value == "" {
      return Err(EmptyContent);
    }
    if ScopeEmpty(command) {
      return Err(EmptyScope);
    }
    var chunks := Chunking.SplitDocumentIntoChunks(
      command.title, content.value, config.chunkSize, config.chunkOverlap);
    if chunks.Err? {
      return Err(BadSizes(chunks.error));
    }
    if chunks.value == [] {
      return Err(NoChunks);
    }
    var embedded := EmbedChunks(config, command, chunks.value, services.embedding);
    if embedded.Err? {
      return Err(embedded.error);
    }
    var (x, dimensions) := embedded.value;
    var outcome := store.Replace(
      ReplaceRequest(command.document.documentId, dimensions, PointsOf(x)), services.faults);
    if outcome.Failed? {
      return Err(StoringFailed(outcome.error));
    }
    return Ok(|chunks.value|);
  }

  // ---------- What it guarantees ----------

  lemma {:induction false} ResolvedIsStripped(command: Command, file: FileReply)
    requires ResolveContent(command, file).Ok? && ResolveContent(command, file).value != ""
    ensures !Blank(ResolveContent(command, file).value)
  {
    var content := ResolveContent(command, file).value;
    if command.content.Some? {
      StripSpec(command.content.value);
    }
    if file.Extracted? {
      StripSpec(file.text);
    }
    assert !IsSpace(content[0]);
  }

  /**
   * Splitting a content that got this far always gives a chunk: the error for a document without
   * chunks is never raised.
   */
  lemma {:induction false} NoChunksNeverHappens(config: Config, command: Command, services: Services)
    ensures Prepare(config, command, services) != Err(NoChunks)
  {
    var content := ResolveContent(command, services.file);
    if content.Ok? && content.value != "" {
      ResolvedIsStripped(command, services.file);
      if Chunking.Chunked(command.title, content.value, config.chunkSize, config.chunkOverlap).Ok? {
        Chunking.ChunksFit(command.title, content.value, config.chunkSize, config.chunkOverlap);
      }
    }
  }

  ghost predicate Fitting(chunks: seq<Embedded>, maxChars: int) {
    chunks != [] && forall i :: 0 <= i < |chunks| ==> 0 < |chunks[i].content| <= maxChars
  }

  /** What is prepared has chunks, each nonempty and within the configured size, and a nonempty audience. */
  lemma {:induction false} PreparedFits(config: Config, command: Command, services: Services)
    requires Prepare(config, command, services).Ok?
    ensures Fitting(Prepare(config, command, services).value.0.chunks, config.chunkSize)
    ensures Prepare(config, command, services).value.0.document == command.document
    ensures !ScopeEmpty(command)
  {
    var content := ResolveContent(command, services.file).value;
    ResolvedIsStripped(command, services.file);
    Chunking.ChunksFit(command.title, content, config.chunkSize, config.chunkOverlap);
  }

  /** The content and the scope are there, the sizes are bad, and some paragraph is longer than a chunk. */
  ghost predicate SizesFail(config: Config, command: Command, services: Services) {
    var content := ResolveContent(command, services.file);
    && content.Ok? && content.value != "" && !ScopeEmpty(command)
    && !(0 <= config.chunkOverlap < config.chunkSize)
    && exists b :: b in Chunking.Blocks(content.value) && |b| > config.chunkSize
  }

  /** The error for bad sizes depends on the content. */
  lemma {:induction false} BadSizesIff(config: Config, command: Command, services: Services)
    ensures Prepare(config, command, services).Err? && Prepare(config, command, services).error.BadSizes? <==>
      SizesFail(config, command, services)
  {
    var content := ResolveContent(command, services.file);
    if content.Ok? {
      Chunking.RaisesIff(command.title, content.value, config.chunkSize, config.chunkOverlap);
    }
  }

  // ---------- What is stored, in terms of the command and the replies ----------

  ghost predicate HasContent(command: Command) {
    command.content.Some? && !Blank(command.content.value)
  }

  /** The command has no content of its own but names a file. */
  ghost predicate NeedsFile(command: Command) {
    !HasContent(command) && command.storageKey.Some? && command.storageKey.value != ""
  }

  /** The text to index: the command's own content, unless that is blank, and otherwise the file's. */
  ghost predicate IsText(command: Command, file: FileReply, text: string) {
    if HasContent(command) then text == command.content.value
    else NeedsFile(command) && file == Extracted(text)
  }

  lemma {:induction false} ContentFound(command: Command, file: FileReply)
    ensures HasContent(command) ==> ResolveContent(command, file) == Ok(Strip(command.content.value))
    ensures !HasContent(command) && !NeedsFile(command) ==> ResolveContent(command, file) == Ok("")
    ensures forall text :: IsText(command, file, text) ==> ResolveContent(command, file) == Ok(Strip(text))
    ensures NeedsFile(command) && !file.Extracted? ==> ResolveContent(command, file).Err?
  {
    if command.content.Some? {
      StripSpec(command.content.value);
    }
  }

  /** Some text is there and somebody may read it, and it is split into these chunks. */
  ghost predicate ReachesEmbedding(
    config: Config, command: Command, services: Services, text: string, chunks: seq<Chunking.DocumentChunk>)
  {
    && IsText(command, services.file, text) && !Blank(text)
    && !(command.document.userIds == [] && command.departmentIds == [] && command.sharedWorkspaceIds == [])
    && Chunking.Chunked(command.title, Strip(text), config.chunkSize, config.chunkOverlap) == Ok(chunks)
  }

  /** With content of its own a command does not depend on any file. */
  lemma {:induction false} ContentComesFirst(config: Config, command: Command, services: Services, file: FileReply)
    requires HasContent(command)
    ensures Prepare(config, command, services) == Prepare(config, command, services.(file := file))
  {
    ContentFound(command, services.file);
    ContentFound(command, file);
  }

  /**
   * What is stored: for chunk `i` of the text the point named after document, chunk and version, with
   * the `i`th vector, the command's title and document, and the chunk's content.
   */
  lemma {:induction false} PreparedPoints(config: Config, command: Command, services: Services, i: nat)
    returns (text: string, chunks: seq<Chunking.DocumentChunk>)
    requires Prepare(config, command, services).Ok?
    ensures ReachesEmbedding(config, command, services, text, chunks)
    ensures services.embedding.Embeddings? && |services.embedding.vectors| == |chunks|
    ensures Prepare(config, command, services).value.1 == services.embedding.dimensions
    ensures |PointsOf(Prepare(config, command, services).value.0)| == |chunks|
    ensures i < |chunks| ==>
      PointsOf(Prepare(config, command, services).value.0)[i] == Point(
        Uuid5(ToText(command.document.documentId) + ":" + Decimal(i) + ":" + config.version),
        services.embedding.vectors[i],
        Payload(command.document, i, config.version, command.title, chunks[i].content))
  {
    hide Chunking.Chunked, Strip, Blank, ResolveContent, Decimal, ToText;
    text := if HasContent(command) then command.content.value
            else if services.file.Extracted? then services.file.text else "";
    ContentFound(command, services.file);
    StripSpec(text);
    chunks := Chunking.Chunked(command.title, Strip(text), config.chunkSize, config.chunkOverlap).value;
  }

  /** When nothing is stored, and why: the file, the text and the audience. */
  lemma {:induction false} UnpreparedIff(config: Config, command: Command, services: Services)
    ensures
      var prepared := Prepare(config, command, services);
      && (prepared == Err(StorageNotConfigured) <==> NeedsFile(command) && services.file.NotConfigured?)
      && (forall r :: prepared == Err(StageFailed(Download, r)) <==>
            NeedsFile(command) && services.file == DownloadFailed(r))
      && (forall r :: prepared == Err(StageFailed(Extraction, r)) <==>
            NeedsFile(command) && services.file == ExtractionFailed(r))
      && (prepared == Err(EmptyContent) <==>
            || (!HasContent(command) && !NeedsFile(command))
            || (NeedsFile(command) && services.file.Extracted? && Blank(services.file.text)))
      && (prepared == Err(EmptyScope) <==>
            && command.document.userIds == [] && command.departmentIds == [] && command.sharedWorkspaceIds == []
            && (HasContent(command)
                || (NeedsFile(command) && services.file.Extracted? && !Blank(services.file.text))))
  {
    ContentFound(command, services.file);
    if command.content.Some? {
      StripSpec(command.content.value);
    }
    if services.file.Extracted? {
      StripSpec(services.file.text);
    }
  }

  /** ... and the embeddings. */
  lemma {:induction false} EmbeddingDecides(
    config: Config, command: Command, services: Services, text: string, chunks: seq<Chunking.DocumentChunk>)
    requires ReachesEmbedding(config, command, services, text, chunks)
    ensures
      var prepared := Prepare(config, command, services);
      && (forall r :: services.embedding == EmbeddingFailed(r) ==> prepared == Err(StageFailed(Embedding, r)))
      && (services.embedding.EmbeddingCrashed? ==> prepared == Err(Crashed))
      && (services.embedding.Embeddings? && |services.embedding.vectors| != |chunks| ==>
            prepared == Err(CountMismatch))
      && (services.embedding.Embeddings? && |services.embedding.vectors| == |chunks| ==> prepared.Ok?)
  {
    ContentFound(command, services.file);
    StripSpec(text);
    NoChunksNeverHappens(config, command, services);
  }
}
