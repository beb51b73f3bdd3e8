/**
 * A document from its text to the chunk index and back (app/workflows/document_indexing.py,
 * app/rag/qdrant_vector_store.py, app/rag/qdrant_chat.py).
 */
module DocumentRoundTrip {
  import opened Basics
  import opened Text
  import opened DocumentStore
  import opened DocumentIndexing
  import Chunking
  import Histories = DocumentHistories
  import Reading = DocumentReading

  /** Every paragraph of the text fits in a chunk, or is cut without overlap and is no table. */
  ghost predicate SplitsCleanly(config: Config, text: string) {
    Chunking.SplitsCleanly(text, config.chunkSize, config.chunkOverlap)
  }

  lemma {:induction false} PreparedContents(config: Config, command: Command, services: Services)
    returns (text: string)
    requires Prepare(config, command, services).Ok?
    ensures IsText(command, services.file, text)
    ensures
      var x := Prepare(config, command, services).value.0;
      && x.document == command.document && (forall i :: 0 <= i < |x.chunks| ==> x.chunks[i].content != "")
      && (SplitsCleanly(config, Strip(text)) ==> Solids(Reading.Contents(x.chunks)) == Solid(text))
  {
    var x := Prepare(config, command, services).value.0;
    var chunks;
    text, chunks := PreparedPoints(config, command, services, 0);
    PreparedFits(config, command, services);
    forall i | 0 <= i < |x.chunks| ensures x.chunks[i].content == chunks[i].content {
      var again, same := PreparedPoints(config, command, services, i);
      assert PointsOf(x)[i] == PointOf(x, i);
    }
    if SplitsCleanly(config, Strip(text)) {
      Chunking.ContentConserved(command.title, Strip(text), config.chunkSize, config.chunkOverlap);
      assert Reading.Contents(x.chunks) == Chunking.Contents(chunks);
      SolidStrip(text);
    }
  }

  lemma {:induction false} CutSolid(text: string, contents: seq<string>, maxChars: int)
    requires Reading.IsCut(text, Strip(Join(contents, "\n")), maxChars)
    ensures Solid(text) <= Solids(contents)
    ensures maxChars >= |Join(contents, "\n")| ==> Solid(text) == Solids(contents)
  {
    var joined := Join(contents, "\n");
    SolidJoin(contents, "\n");
    SolidStrip(joined);
    StripSpec(joined);
    SolidPrefix(text, Strip(joined));
    if maxChars >= |joined| {
      assert text == Strip(joined);
    }
  }

  /**
   * Once a document is indexed, however its points are scrolled, reading it back gives the characters
   * of its text that are no white space, in order, up to where the limit cuts; with enough room all of
   * them. This is for texts of up to 500 chunks that are split without repeating anything.
   */
  lemma {:induction false} TextReadsBack(
    config: Config, command: Command, services: Services, s: Store, scroll: seq<Point>, maxChars: int)
    returns (text: string)
    requires WellNamed(PointsIn(s)) && Prepare(config, command, services).Ok?
    requires var (x, dimensions) := Prepare(config, command, services).value;
      var (s', outcome) := Histories.Apply(s, Histories.Index(x, dimensions, services.faults));
      && outcome.Done? && |x.chunks| <= 500
      && Reading.ScrollReply(scroll, PointsIn(s'), command.document.documentId)
    ensures IsText(command, services.file, text)
    ensures SplitsCleanly(config, Strip(text)) ==> Solid(Reading.JoinedChunks(scroll, maxChars)) <= Solid(text)
    ensures
      var contents := Reading.Contents(Prepare(config, command, services).value.0.chunks);
      SplitsCleanly(config, Strip(text)) && maxChars >= |Join(contents, "\n")| ==>
        Solid(Reading.JoinedChunks(scroll, maxChars)) == Solid(text)
  {
    hide Prepare, Histories.Apply, Reading.ScrollReply, Reading.IsCut;
    var (x, dimensions) := Prepare(config, command, services).value;
    var s' := Histories.Apply(s, Histories.Index(x, dimensions, services.faults)).0;
    text := PreparedContents(config, command, services);
    Histories.OnePoints(s, Histories.Index(x, dimensions, services.faults), x.document.documentId);
    Reading.ReadBack(x, scroll, PointsIn(s'), maxChars);
    CutSolid(Reading.JoinedChunks(scroll, maxChars), Reading.Contents(x.chunks), maxChars);
  }
}
