/** Splitting a document into chunks by whole paragraphs first (app/pipelines/chunking.py). */
module Chunking {
  import opened Basics
  import opened Text
  import opened PlainWindows
  import opened MarkdownTables

  const PARAGRAPH := "\n\n"

  datatype DocumentChunk = DocumentChunk(chunkIndex: nat, content: string, embeddingText: string)

  /** The `ValueError`s of `_split_long_block`. */
  datatype SizeError = MaxCharsNotPositive | OverlapNegative | OverlapNotSmaller

  /** The stripped, nonempty paragraphs of a content. */
  function Blocks(content: string): seq<string> {
    NonblankParts(Split(content, PARAGRAPH))
  }

  // ---------- Packing ----------

  /** A chunk made of whole blocks, or a block too long for one chunk. */
  datatype Portion = Packed(blocks: seq<string>) | Long(block: string)

  function Paragraphs(blocks: seq<string>): string {
    Join(blocks, PARAGRAPH)
  }

  function Flush(current: seq<string>): seq<Portion> {
    if current == [] then [] else [Packed(current)]
  }

  /** One turn of the loop: the portions it emits, and the blocks then collected. */
  function Place(current: seq<string>, block: string, maxChars: int): (seq<Portion>, seq<string>) {
    if |Paragraphs(current + [block])| <= maxChars then ([], current + [block])
    else if |block| <= maxChars then (Flush(current), [block])
    else (Flush(current) + [Long(block)], [])
  }

  /** What the loop still emits when the blocks `current` are collected. */
  function Pack(blocks: seq<string>, current: seq<string>, maxChars: int): seq<Portion>
    decreases |blocks|
  {
    if blocks == [] then Flush(current)
    else
      var (emitted, kept) := Place(current, blocks[0], maxChars);
      emitted + Pack(blocks[1..], kept, maxChars)
  }

  function SizesChecked(maxChars: int, overlapChars: int): (r: Result<(), SizeError>)
    ensures r.Ok? <==> GoodSizes(maxChars, overlapChars)
  {
    if maxChars <= 0 then Err(MaxCharsNotPositive)
    else if overlapChars < 0 then Err(OverlapNegative)
    else if overlapChars >= maxChars then Err(OverlapNotSmaller)
    else Ok(())
  }

  /** What `_split_long_block` returns or raises. */
  function LongBlock(block: string, maxChars: int, overlapChars: int): Result<seq<string>, SizeError> {
    match SizesChecked(maxChars, overlapChars)
    case Err(e) => Err(e)
    case Ok(_) =>
      if IsMarkdownTable(block) then Ok(TableChunks(block, maxChars))
      else Ok(PlainWindow(block, maxChars, overlapChars))
  }

  function PortionTexts(portion: Portion, maxChars: int, overlapChars: int): Result<seq<string>, SizeError> {
    match portion
    case Packed(blocks) => Ok([Paragraphs(blocks)])
    case Long(block) => LongBlock(block, maxChars, overlapChars)
  }

  /** The texts already there, followed by those of an outcome. */
  function After(done: seq<string>, outcome: Result<seq<string>, SizeError>): Result<seq<string>, SizeError> {
    match outcome
    case Err(e) => Err(e)
    case Ok(more) => Ok(done + more)
  }

  function Texts(portions: seq<Portion>, maxChars: int, overlapChars: int): Result<seq<string>, SizeError> {
    if portions == [] then Ok([])
    else
      match PortionTexts(portions[0], maxChars, overlapChars)
      case Err(e) => Err(e)
      case Ok(first) => After(first, Texts(portions[1..], maxChars, overlapChars))
  }

  function Numbered(title: string, texts: seq<string>): (chunks: seq<DocumentChunk>)
    ensures |chunks| == |texts|
    ensures forall i :: 0 <= i < |texts| ==> chunks[i].chunkIndex == i && chunks[i].content == texts[i]
    ensures forall i :: 0 <= i < |texts| ==> chunks[i].embeddingText == title + PARAGRAPH + texts[i]
  {
    seq(|texts|, i requires 0 <= i < |texts| => DocumentChunk(i, texts[i], title + PARAGRAPH + texts[i]))
  }

  /** The texts of the chunks of a content. */
  function ChunkTexts(content: string, maxChars: int, overlapChars: int): Result<seq<string>, SizeError> {
    Texts(Pack(Blocks(content), [], maxChars), maxChars, overlapChars)
  }

  function Chunked(title: string, content: string, maxChars: int, overlapChars: int)
    : Result<seq<DocumentChunk>, SizeError>
  {
    match ChunkTexts(content, maxChars, overlapChars)
    case Err(e) => Err(e)
    case Ok(texts) => Ok(Numbered(title, texts))
  }

  method SplitDocumentIntoChunks(title: string, content: string, maxChars: int, overlapChars: int)
    returns (result: Result<seq<DocumentChunk>, SizeError>)
    ensures result == Chunked(title, content, maxChars, overlapChars)
  {
    var blocks := Blocks(content);
    NonblankPartsClean(Split(content, PARAGRAPH));
    if blocks == [] {
      return Ok([]);
    }
    var chunks: seq<string> := [];
    var current := "";
    ghost var kept: seq<string> := [];
    ghost var all := ChunkTexts(content, maxChars, overlapChars);
    AfterNothing(all);
    assert blocks[0..] == blocks;
    for i := 0 to |blocks|
      invariant Collected(current, kept)
      invariant all == After(chunks, Texts(Pack(blocks[i..], kept, maxChars), maxChars, overlapChars))
    {
      var block := blocks[i];
      assert block in blocks && Clean(block);
      assert blocks[i..][0] == block && blocks[i..][1..] == blocks[i + 1..];
      ghost var (portions, kept') := Place(kept, block, maxChars);
      ghost var rest := Pack(blocks[i + 1..], kept', maxChars);
      TextsConcat(portions, rest, maxChars, overlapChars);
      var emitted;
      emitted, current := PlaceBlock(current, kept, block, maxChars, overlapChars);
      if emitted.Err? {
        return Err(emitted.error);
      }
      AfterTwice(chunks, emitted.value, Texts(rest, maxChars, overlapChars));
      chunks := chunks + emitted.value;
      kept := kept';
    }
    assert blocks[|blocks|..] == [];
    OneText(Packed(kept), maxChars, overlapChars);
    assert chunks + [] == chunks;
    if current != "" {
      chunks := chunks + [current];
    }
    return Ok(Numbered(title, chunks));
  }

  /** The text `current` is empty just when no block is collected. */
  ghost predicate Collected(current: string, kept: seq<string>) {
    current == Paragraphs(kept) && (current == "" <==> kept == [])
  }

  /** The body of the loop. */
  method PlaceBlock(current: string, ghost kept: seq<string>, block: string, maxChars: int, overlapChars: int)
    returns (chunks: Result<seq<string>, SizeError>, current': string)
    requires Collected(current, kept) && Clean(block)
    ensures chunks == Texts(Place(kept, block, maxChars).0, maxChars, overlapChars)
    ensures chunks.Ok? ==> Collected(current', Place(kept, block, maxChars).1)
  {
    current' := "";
    var candidate := if current == "" then block else current + PARAGRAPH + block;
    CandidateCollected(current, kept, block);
    PlaceTexts(current, kept, block, maxChars, overlapChars);
    if |candidate| <= maxChars {
      return Ok([]), candidate;
    }
    var flushed: seq<string> := [];
    if current != "" {
      flushed := flushed + [current];
    }
    assert flushed == if current == "" then [] else [current];
    if |block| <= maxChars {
      return Ok(flushed), block;
    }
    var windows := SplitLongBlock(block, maxChars, overlapChars);
    if windows.Err? {
      return windows, current';
    }
    chunks := Ok(flushed + windows.value);
  }

  lemma {:induction false} CandidateCollected(current: string, kept: seq<string>, block: string)
    requires Collected(current, kept) && Clean(block)
    ensures Collected(if current == "" then block else current + PARAGRAPH + block, kept + [block])
    ensures Collected(block, [block])
  {
    if kept == [] {
      assert kept + [block] == [block];
    } else {
      JoinSnoc(kept, block, PARAGRAPH);
    }
  }

  lemma {:induction false} PlaceTexts(
    current: string, kept: seq<string>, block: string, maxChars: int, overlapChars: int)
    requires Collected(current, kept)
    ensures
      var flushed := if current == "" then [] else [current];
      Texts(Place(kept, block, maxChars).0, maxChars, overlapChars) ==
        if |Paragraphs(kept + [block])| <= maxChars then Ok([])
        else if |block| <= maxChars then Ok(flushed)
        else After(flushed, LongBlock(block, maxChars, overlapChars))
  {
    OneText(Packed(kept), maxChars, overlapChars);
    OneText(Long(block), maxChars, overlapChars);
    TextsConcat(Flush(kept), [Long(block)], maxChars, overlapChars);
  }

  method SplitLongBlock(block: string, maxChars: int, overlapChars: int) returns (r: Result<seq<string>, SizeError>)
    ensures r == LongBlock(block, maxChars, overlapChars)
  {
    var checked := SizesChecked(maxChars, overlapChars);
    if checked.Err? {
      return Err(checked.error);
    }
    var chunks;
    if IsMarkdownTable(block) {
      chunks := SplitMarkdownTable(block, maxChars);
    } else {
      chunks := SplitPlainWindow(block, maxChars, overlapChars);
    }
    return Ok(chunks);
  }

  lemma {:induction false} OneText(portion: Portion, maxChars: int, overlapChars: int)
    ensures Texts([portion], maxChars, overlapChars) == PortionTexts(portion, maxChars, overlapChars)
  {
    assert [portion][1..] == [];
    match PortionTexts(portion, maxChars, overlapChars)
    case Err(_) =>
    case Ok(texts) => assert texts + [] == texts;
  }

  lemma {:induction false} AfterNothing(outcome: Result<seq<string>, SizeError>)
    ensures After([], outcome) == outcome
  {
    if outcome.Ok? {
      assert [] + outcome.value == outcome.value;
    }
  }

  lemma {:induction false} AfterTwice(a: seq<string>, b: seq<string>, outcome: Result<seq<string>, SizeError>)
    ensures After(a, After(b, outcome)) == After(a + b, outcome)
  {
    if outcome.Ok? {
      SeqAssociative(a, b, outcome.value);
    }
  }

  lemma {:induction false} TextsConcat(a: seq<Portion>, b: seq<Portion>, maxChars: int, overlapChars: int)
    ensures Texts(a + b, maxChars, overlapChars) ==
      match Texts(a, maxChars, overlapChars)
      case Err(e) => Err(e)
      case Ok(texts) => After(texts, Texts(b, maxChars, overlapChars))
  {
    var rest := Texts(b, maxChars, overlapChars);
    if a == [] {
      assert a + b == b;
      AfterNothing(rest);
    } else {
      assert (a + b)[1..] == a[1..] + b;
      TextsConcat(a[1..], b, maxChars, overlapChars);
      var first, more := PortionTexts(a[0], maxChars, overlapChars), Texts(a[1..], maxChars, overlapChars);
      if first.Ok? && more.Ok? {
        AfterTwice(first.value, more.value, rest);
      }
    }
  }

  // ---------- Blocks ----------

  /** Parts with no block between them join to a blank text. */
  lemma {:induction false} NoBlocksBlank(parts: seq<string>)
    requires NonblankParts(parts) == []
    ensures Blank(Join(parts, PARAGRAPH))
  {
    if parts != [] {
      StripSpec(parts[0]);
      NoBlocksBlank(parts[1..]);
    }
  }

  /**
   * The blocks are the parts between blank lines, stripped, but for the blank ones: in their order
   * and as often as they stand in the content.
   */
  lemma {:induction false} BlocksArePartsOf(content: string) returns (at: seq<nat>)
    ensures NonblankAt(Split(content, "\n\n"), Blocks(content), at)
  {
    at := NonblankPositions(Split(content, PARAGRAPH));
  }

  // ---------- Nothing is lost ----------

  function BlocksOf(portions: seq<Portion>): seq<string> {
    if portions == [] then []
    else (match portions[0]
          case Packed(blocks) => blocks
          case Long(block) => [block])
         + BlocksOf(portions[1..])
  }

  lemma {:induction false} BlocksOfConcat(a: seq<Portion>, b: seq<Portion>)
    ensures BlocksOf(a + b) == BlocksOf(a) + BlocksOf(b)
  {
    if a == [] {
      assert a + b == b;
    } else {
      assert (a + b)[1..] == a[1..] + b;
      BlocksOfConcat(a[1..], b);
    }
  }

  lemma {:induction false} BlocksOfOne(portion: Portion)
    ensures BlocksOf([portion]) == if portion.Packed? then portion.blocks else [portion.block]
  {
    assert [portion][1..] == [];
  }

  lemma {:induction false} PlaceConserves(current: seq<string>, block: string, maxChars: int)
    ensures var (emitted, kept) := Place(current, block, maxChars);
      BlocksOf(emitted) + kept == current + [block]
  {
    BlocksOfOne(Packed(current));
    BlocksOfOne(Long(block));
    BlocksOfConcat(Flush(current), [Long(block)]);
  }

  /** The portions hold the collected and the remaining blocks, in order, each once. */
  lemma {:induction false} BlocksConserved(blocks: seq<string>, current: seq<string>, maxChars: int)
    ensures BlocksOf(Pack(blocks, current, maxChars)) == current + blocks
    decreases |blocks|
  {
    if blocks == [] {
      BlocksOfOne(Packed(current));
    } else {
      var (emitted, kept) := Place(current, blocks[0], maxChars);
      PlaceConserves(current, blocks[0], maxChars);
      BlocksConserved(blocks[1..], kept, maxChars);
      BlocksOfConcat(emitted, Pack(blocks[1..], kept, maxChars));
      SeqAssociative(BlocksOf(emitted), kept, blocks[1..]);
      SeqAssociative(current, [blocks[0]], blocks[1..]);
      assert [blocks[0]] + blocks[1..] == blocks;
    }
  }

  /** Packed portions hold at least one block and fit; long ones do not fit. */
  ghost predicate GoodPortion(portion: Portion, maxChars: int) {
    match portion
    case Packed(blocks) => blocks != [] && |Paragraphs(blocks)| <= maxChars
    case Long(block) => |block| > maxChars
  }

  ghost predicate GoodPortions(portions: seq<Portion>, maxChars: int) {
    forall p :: p in portions ==> GoodPortion(p, maxChars)
  }

  lemma {:induction false} PortionsGood(blocks: seq<string>, current: seq<string>, maxChars: int)
    requires current == [] || |Paragraphs(current)| <= maxChars
    ensures GoodPortions(Pack(blocks, current, maxChars), maxChars)
    decreases |blocks|
  {
    if blocks != [] {
      var (_, kept) := Place(current, blocks[0], maxChars);
      assert Paragraphs([blocks[0]]) == blocks[0];
      PortionsGood(blocks[1..], kept, maxChars);
    }
  }

  lemma {:induction false} BlockHasPortion(portions: seq<Portion>, block: string) returns (i: nat)
    requires block in BlocksOf(portions)
    ensures i < |portions|
    ensures portions[i] == Long(block) || (portions[i].Packed? && block in portions[i].blocks)
  {
    if portions[0] == Long(block) || (portions[0].Packed? && block in portions[0].blocks) {
      i := 0;
    } else {
      i := BlockHasPortion(portions[1..], block);
      i := i + 1;
    }
  }

  lemma {:induction false} PortionHasBlocks(portions: seq<Portion>, i: nat)
    requires i < |portions|
    ensures portions[i].Long? ==> portions[i].block in BlocksOf(portions)
    ensures portions[i].Packed? ==> forall b :: b in portions[i].blocks ==> b in BlocksOf(portions)
  {
    if i > 0 {
      PortionHasBlocks(portions[1..], i - 1);
    }
  }

  /** A block is cut just when it does not fit, whatever stands around it. */
  lemma {:induction false} LongIffTooLong(blocks: seq<string>, maxChars: int, block: string)
    ensures Long(block) in Pack(blocks, [], maxChars) <==> block in blocks && |block| > maxChars
  {
    var portions := Pack(blocks, [], maxChars);
    BlocksConserved(blocks, [], maxChars);
    assert [] + blocks == blocks;
    PortionsGood(blocks, [], maxChars);
    if Long(block) in portions {
      var i :| 0 <= i < |portions| && portions[i] == Long(block);
      PortionHasBlocks(portions, i);
      assert GoodPortion(portions[i], maxChars);
    }
    if block in blocks && |block| > maxChars {
      var i := BlockHasPortion(portions, block);
      assert GoodPortion(portions[i], maxChars);
      if portions[i].Packed? {
        PartLength(portions[i].blocks, block, PARAGRAPH);
        assert false;
      }
    }
  }

  // ---------- No character is lost ----------

  /** The contents of chunks. */
  function Contents(chunks: seq<DocumentChunk>): (r: seq<string>)
    ensures |r| == |chunks|
    ensures forall i :: 0 <= i < |r| ==> r[i] == chunks[i].content
  {
    seq(|chunks|, i requires 0 <= i < |chunks| => chunks[i].content)
  }

  /** Cutting the block repeats and adds nothing. */
  predicate CutsCleanly(block: string, maxChars: int, overlapChars: int) {
    |block| > maxChars ==> maxChars > 0 && overlapChars == 0 && !IsMarkdownTable(block)
  }

  lemma {:induction false} TextsConserve(portions: seq<Portion>, maxChars: int, overlapChars: int)
    requires GoodPortions(portions, maxChars)
    requires forall b :: b in BlocksOf(portions) ==> CutsCleanly(b, maxChars, overlapChars)
    ensures Texts(portions, maxChars, overlapChars).Ok?
    ensures Solids(Texts(portions, maxChars, overlapChars).value) == Solids(BlocksOf(portions))
  {
    if portions != [] {
      var first, rest := portions[0], BlocksOf(portions[1..]);
      assert first in portions && GoodPortion(first, maxChars);
      assert BlocksOf(portions) == (if first.Packed? then first.blocks else [first.block]) + rest;
      TextsConserve(portions[1..], maxChars, overlapChars);
      var texts := Texts(portions[1..], maxChars, overlapChars).value;
      match first
      case Packed(blocks) =>
        SolidJoin(blocks, PARAGRAPH);
        SolidsConcat(blocks, rest);
        SolidsConcat([Paragraphs(blocks)], texts);
      case Long(block) =>
        assert block in BlocksOf(portions);
        WindowsConserve(block, maxChars);
        SolidsConcat([block], rest);
        SolidsConcat(PlainWindow(block, maxChars, 0), texts);
    }
  }

  /** Every paragraph of the content fits, or is cut cleanly. */
  ghost predicate SplitsCleanly(content: string, maxChars: int, overlapChars: int) {
    forall part :: part in Split(content, "\n\n") && Strip(part) != "" ==>
      CutsCleanly(Strip(part), maxChars, overlapChars)
  }

  lemma {:induction false} BlocksCutCleanly(content: string, maxChars: int, overlapChars: int)
    requires SplitsCleanly(content, maxChars, overlapChars)
    ensures forall b :: b in Blocks(content) ==> CutsCleanly(b, maxChars, overlapChars)
  {
    hide CutsCleanly, Strip, Split, Blocks;
    var parts, blocks := Split(content, PARAGRAPH), Blocks(content);
    var at := BlocksArePartsOf(content);
    forall b | b in blocks ensures CutsCleanly(b, maxChars, overlapChars) {
      var k :| 0 <= k < |blocks| && blocks[k] == b;
      assert parts[at[k]] in parts && at[k] in at;
    }
  }

  lemma {:induction false} SolidBlocks(content: string)
    ensures Solids(Blocks(content)) == Solid(content)
  {
    SolidNonblank(Split(content, PARAGRAPH));
    SolidSplit(content, PARAGRAPH);
  }

  /**
   * The chunks hold every character of the content that is no white space, once and in order, when
   * every paragraph fits; and also for longer ones that are no table, if windows do not overlap.
   */
  lemma {:induction false} ContentConserved(title: string, content: string, maxChars: int, overlapChars: int)
    requires SplitsCleanly(content, maxChars, overlapChars)
    ensures Chunked(title, content, maxChars, overlapChars).Ok?
    ensures Solids(Contents(Chunked(title, content, maxChars, overlapChars).value)) == Solid(content)
  {
    hide CutsCleanly, SplitsCleanly, Blocks, Pack, Texts;
    var blocks := Blocks(content);
    BlocksConserved(blocks, [], maxChars);
    assert [] + blocks == blocks;
    PortionsGood(blocks, [], maxChars);
    BlocksCutCleanly(content, maxChars, overlapChars);
    TextsConserve(Pack(blocks, [], maxChars), maxChars, overlapChars);
    SolidBlocks(content);
    var chunks := Chunked(title, content, maxChars, overlapChars).value;
    assert Contents(chunks) == ChunkTexts(content, maxChars, overlapChars).value;
  }

  // ---------- When it raises ----------

  lemma {:induction false} TextsFail(portions: seq<Portion>, maxChars: int, overlapChars: int)
    ensures Texts(portions, maxChars, overlapChars).Err? <==>
      (exists p :: p in portions && p.Long?) && !GoodSizes(maxChars, overlapChars)
    ensures Texts(portions, maxChars, overlapChars).Err? ==>
      SizesChecked(maxChars, overlapChars) == Err(Texts(portions, maxChars, overlapChars).error)
  {
    if portions != [] {
      TextsFail(portions[1..], maxChars, overlapChars);
      assert portions == [portions[0]] + portions[1..];
      if portions[0].Long? {
        assert portions[0] in portions;
      }
    }
  }

  /**
   * Splitting raises just when the sizes are bad and some block does not fit: bad sizes go
   * unnoticed as long as every block fits.
   */
  lemma {:induction false} RaisesIff(title: string, content: string, maxChars: int, overlapChars: int)
    ensures Chunked(title, content, maxChars, overlapChars).Err? <==>
      !GoodSizes(maxChars, overlapChars) && exists b :: b in Blocks(content) && |b| > maxChars
  {
    var portions := Pack(Blocks(content), [], maxChars);
    TextsFail(portions, maxChars, overlapChars);
    forall p | p in portions && p.Long? ensures p.block in Blocks(content) && |p.block| > maxChars {
      LongIffTooLong(Blocks(content), maxChars, p.block);
    }
    forall b | b in Blocks(content) && |b| > maxChars ensures Long(b) in portions {
      LongIffTooLong(Blocks(content), maxChars, b);
    }
  }

  /** Which error is raised: the sizes are checked in the order positive, not negative, smaller. */
  lemma {:induction false} RaisedError(title: string, content: string, maxChars: int, overlapChars: int)
    requires Chunked(title, content, maxChars, overlapChars).Err?
    ensures
      var error := Chunked(title, content, maxChars, overlapChars).error;
      && (error.MaxCharsNotPositive? <==> maxChars <= 0)
      && (error.OverlapNegative? <==> maxChars > 0 && overlapChars < 0)
      && (error.OverlapNotSmaller? <==> 0 < maxChars <= overlapChars)
  {
    TextsFail(Pack(Blocks(content), [], maxChars), maxChars, overlapChars);
  }

  // ---------- Sizes ----------

  lemma {:induction false} PortionFits(portion: Portion, maxChars: int, overlapChars: int)
    requires GoodPortion(portion, maxChars)
    requires portion.Packed? ==> forall b :: b in portion.blocks ==> Clean(b)
    requires portion.Long? ==> Clean(portion.block)
    ensures PortionTexts(portion, maxChars, overlapChars).Ok? ==>
      var texts := PortionTexts(portion, maxChars, overlapChars).value;
      texts != [] && forall c :: c in texts ==> 0 < |c| <= maxChars
  {
    match portion
    case Packed(blocks) =>
      assert blocks[0] in blocks && Clean(blocks[0]);
    case Long(block) =>
      if GoodSizes(maxChars, overlapChars) {
        assert !Blank(block) by {
          assert !IsSpace(block[0]);
        }
        if IsMarkdownTable(block) {
          TableChunksFit(block, maxChars);
        } else {
          PlainWindowNonempty(block, maxChars, overlapChars);
          PlainWindowSizes(block, maxChars, overlapChars);
        }
      }
  }

  ghost predicate CleanPortions(portions: seq<Portion>) {
    forall b :: b in BlocksOf(portions) ==> Clean(b)
  }

  lemma {:induction false} TextsFit(portions: seq<Portion>, maxChars: int, overlapChars: int)
    requires GoodPortions(portions, maxChars) && CleanPortions(portions)
    requires Texts(portions, maxChars, overlapChars).Ok?
    ensures var texts := Texts(portions, maxChars, overlapChars).value;
      (portions != [] ==> texts != []) && forall c :: c in texts ==> 0 < |c| <= maxChars
  {
    if portions != [] {
      assert GoodPortion(portions[0], maxChars);
      PortionFits(portions[0], maxChars, overlapChars);
      TextsFit(portions[1..], maxChars, overlapChars);
    }
  }

  /** Whenever splitting succeeds, every chunk is nonempty and fits, and chunks are numbered from 0. */
  lemma {:induction false} ChunksFit(title: string, content: string, maxChars: int, overlapChars: int)
    requires Chunked(title, content, maxChars, overlapChars).Ok?
    ensures var chunks := Chunked(title, content, maxChars, overlapChars).value;
      forall i :: 0 <= i < |chunks| ==> chunks[i].chunkIndex == i && 0 < |chunks[i].content| <= maxChars
    ensures Chunked(title, content, maxChars, overlapChars).value == [] <==> Blank(content)
  {
    var blocks := Blocks(content);
    var portions := Pack(blocks, [], maxChars);
    NonblankPartsClean(Split(content, PARAGRAPH));
    BlocksConserved(blocks, [], maxChars);
    assert [] + blocks == blocks;
    PortionsGood(blocks, [], maxChars);
    TextsFit(portions, maxChars, overlapChars);
    var texts := Texts(portions, maxChars, overlapChars).value;
    assert forall i :: 0 <= i < |texts| ==> texts[i] in texts;
    JoinUndoesSplit(content, PARAGRAPH);
    if blocks == [] {
      NoBlocksBlank(Split(content, PARAGRAPH));
    } else {
      BlockMakesNonblank(Split(content, PARAGRAPH));
    }
  }

  lemma {:induction false} NonblankConcat(a: string, b: string)
    requires !Blank(a) || !Blank(b)
    ensures !Blank(a + b)
  {
    if !Blank(a) {
      var i :| 0 <= i < |a| && !IsSpace(a[i]);
      assert (a + b)[i] == a[i];
    } else {
      var i :| 0 <= i < |b| && !IsSpace(b[i]);
      assert (a + b)[|a| + i] == b[i];
    }
  }

  lemma {:induction false} BlockMakesNonblank(parts: seq<string>)
    requires NonblankParts(parts) != []
    ensures !Blank(Join(parts, PARAGRAPH))
  {
    StripSpec(parts[0]);
    if |parts| > 1 {
      var rest := Join(parts[1..], PARAGRAPH);
      if Blank(parts[0]) {
        BlockMakesNonblank(parts[1..]);
        NonblankConcat(parts[0] + PARAGRAPH, rest);
      } else {
        NonblankConcat(parts[0], PARAGRAPH);
        NonblankConcat(parts[0] + PARAGRAPH, rest);
      }
    }
  }

  // ---------- Lossless and optimal ----------

  function Flatten(groups: seq<seq<string>>): seq<string> {
    if groups == [] then [] else groups[0] + Flatten(groups[1..])
  }

  /** The groups of packed portions. */
  function Groups(portions: seq<Portion>): seq<seq<string>>
    requires forall p :: p in portions ==> p.Packed?
  {
    if portions == [] then [] else [portions[0].blocks] + Groups(portions[1..])
  }

  ghost predicate AllFit(blocks: seq<string>, maxChars: int) {
    forall b :: b in blocks ==> |b| <= maxChars
  }

  lemma {:induction false} AllPacked(blocks: seq<string>, maxChars: int)
    requires AllFit(blocks, maxChars)
    ensures forall p :: p in Pack(blocks, [], maxChars) ==> p.Packed? && p.blocks != []
  {
    PortionsGood(blocks, [], maxChars);
    forall p | p in Pack(blocks, [], maxChars) ensures p.Packed? && p.blocks != [] {
      assert GoodPortion(p, maxChars);
      if p.Long? {
        LongIffTooLong(blocks, maxChars, p.block);
        assert false;
      }
    }
  }

  lemma {:induction false} PackedTexts(portions: seq<Portion>, maxChars: int, overlapChars: int)
    requires forall p :: p in portions ==> p.Packed? && p.blocks != []
    ensures Texts(portions, maxChars, overlapChars).Ok?
    ensures |Texts(portions, maxChars, overlapChars).value| == |portions|
    ensures Paragraphs(Texts(portions, maxChars, overlapChars).value) == Paragraphs(BlocksOf(portions))
    ensures portions != [] ==> BlocksOf(portions) != []
  {
    if portions != [] {
      var first, rest := portions[0].blocks, portions[1..];
      PackedTexts(rest, maxChars, overlapChars);
      var texts := Texts(rest, maxChars, overlapChars).value;
      assert Texts(portions, maxChars, overlapChars).value == [Paragraphs(first)] + texts;
      if rest == [] {
        assert BlocksOf(portions) == first;
        assert [Paragraphs(first)] + texts == [Paragraphs(first)];
      } else {
        JoinConcat(first, BlocksOf(rest), PARAGRAPH);
        JoinConcat([Paragraphs(first)], texts, PARAGRAPH);
      }
    }
  }

  /** When every block fits, the chunks joined by a blank line are the blocks joined by one. */
  lemma {:induction false} PackingLossless(content: string, maxChars: int, overlapChars: int)
    requires AllFit(Blocks(content), maxChars)
    ensures ChunkTexts(content, maxChars, overlapChars).Ok?
    ensures Paragraphs(ChunkTexts(content, maxChars, overlapChars).value) == Paragraphs(Blocks(content))
  {
    var blocks := Blocks(content);
    AllPacked(blocks, maxChars);
    PackedTexts(Pack(blocks, [], maxChars), maxChars, overlapChars);
    BlocksConserved(blocks, [], maxChars);
    assert [] + blocks == blocks;
  }

  /** `groups` cuts `blocks` into consecutive groups that fit. */
  ghost predicate Grouping(groups: seq<seq<string>>, blocks: seq<string>, maxChars: int) {
    Flatten(groups) == blocks && forall g :: g in groups ==> |Paragraphs(g)| <= maxChars
  }

  /** What is left of some groups after their first `n` blocks are gone. */
  function DropBlocks(groups: seq<seq<string>>, n: nat): seq<seq<string>> {
    if groups == [] then []
    else if n < |groups[0]| then [groups[0][n..]] + groups[1..]
    else DropBlocks(groups[1..], n - |groups[0]|)
  }

  lemma {:induction false} PartsFit(a: seq<string>, b: seq<string>)
    ensures |Paragraphs(a)| <= |Paragraphs(a + b)| && |Paragraphs(b)| <= |Paragraphs(a + b)|
  {
    if a == [] {
      assert a + b == b;
    } else if b == [] {
      assert a + b == a;
    } else {
      JoinConcat(a, b, PARAGRAPH);
    }
  }

  lemma {:induction false} DropBlocksGroups(groups: seq<seq<string>>, blocks: seq<string>, n: nat, maxChars: int)
    requires Grouping(groups, blocks, maxChars) && n <= |blocks|
    ensures Grouping(DropBlocks(groups, n), blocks[n..], maxChars)
    ensures |DropBlocks(groups, n)| <= |groups|
    ensures groups != [] && |groups[0]| <= n ==> |DropBlocks(groups, n)| < |groups|
    decreases |groups|
  {
    if groups != [] {
      var first, rest := groups[0], groups[1..];
      assert blocks == first + Flatten(rest);
      if n < |first| {
        PartsFit(first[..n], first[n..]);
        assert first[..n] + first[n..] == first;
        assert ([first[n..]] + rest)[1..] == rest;
        assert blocks[n..] == first[n..] + Flatten(rest);
      } else {
        DropBlocksGroups(rest, Flatten(rest), n - |first|, maxChars);
        assert blocks[n..] == Flatten(rest)[n - |first|..];
      }
    }
  }

  /** When the next block does not fit beside `current`, a first group holds no more than `current`. */
  lemma {:induction false} FirstGroupNoLonger(
    groups: seq<seq<string>>, current: seq<string>, block: string, rest: seq<string>, maxChars: int)
    requires groups != [] && Grouping(groups, current + ([block] + rest), maxChars)
    requires |Paragraphs(current + [block])| > maxChars
    ensures |groups[0]| <= |current|
  {
    var first := groups[0];
    var all := current + ([block] + rest);
    assert all == first + Flatten(groups[1..]);
    if |first| > |current| {
      var n := |current| + 1;
      assert first[..n] == all[..n] == current + [block];
      assert first == first[..n] + first[n..];
      PartsFit(first[..n], first[n..]);
      assert false;
    }
  }

  lemma {:induction false} BlockFits(groups: seq<seq<string>>, blocks: seq<string>, maxChars: int, block: string)
    requires Grouping(groups, blocks, maxChars) && block in blocks
    ensures |block| <= maxChars
    decreases |groups|
  {
    if block in groups[0] {
      PartLength(groups[0], block, PARAGRAPH);
      assert |Paragraphs(groups[0])| <= maxChars;
    } else {
      BlockFits(groups[1..], Flatten(groups[1..]), maxChars, block);
    }
  }

  lemma {:induction false} PackingOptimalFrom(
    blocks: seq<string>, current: seq<string>, groups: seq<seq<string>>, maxChars: int)
    requires Grouping(groups, current + blocks, maxChars)
    ensures |Pack(blocks, current, maxChars)| <= |groups|
    decreases |blocks|
  {
    if blocks == [] {
      if current != [] {
        assert groups != [];
      }
    } else {
      var block, rest := blocks[0], blocks[1..];
      assert blocks == [block] + rest;
      assert block in current + blocks;
      BlockFits(groups, current + blocks, maxChars, block);
      var (emitted, kept) := Place(current, block, maxChars);
      if |Paragraphs(current + [block])| <= maxChars {
        assert current + [block] + rest == current + blocks;
        PackingOptimalFrom(rest, kept, groups, maxChars);
      } else {
        assert current != [];
        FirstGroupNoLonger(groups, current, block, rest, maxChars);
        DropBlocksGroups(groups, current + blocks, |current|, maxChars);
        assert (current + blocks)[|current|..] == kept + rest;
        PackingOptimalFrom(rest, kept, DropBlocks(groups, |current|), maxChars);
      }
    }
  }

  lemma {:induction false} GroupsFlatten(portions: seq<Portion>)
    requires forall p :: p in portions ==> p.Packed?
    ensures Flatten(Groups(portions)) == BlocksOf(portions) && |Groups(portions)| == |portions|
    ensures forall g :: g in Groups(portions) ==> Packed(g) in portions
  {
    if portions != [] {
      GroupsFlatten(portions[1..]);
    }
  }

  /** The packed blocks are themselves cut into consecutive groups that fit. */
  lemma {:induction false} PackingGroups(blocks: seq<string>, maxChars: int)
    requires AllFit(blocks, maxChars)
    ensures forall p :: p in Pack(blocks, [], maxChars) ==> p.Packed?
    ensures Grouping(Groups(Pack(blocks, [], maxChars)), blocks, maxChars)
  {
    var portions := Pack(blocks, [], maxChars);
    AllPacked(blocks, maxChars);
    GroupsFlatten(portions);
    BlocksConserved(blocks, [], maxChars);
    assert [] + blocks == blocks;
    PortionsGood(blocks, [], maxChars);
    forall g | g in Groups(portions) ensures |Paragraphs(g)| <= maxChars {
      assert GoodPortion(Packed(g), maxChars);
    }
  }

  /**
   * No way of cutting the blocks into consecutive groups that fit uses fewer groups than there are
   * chunks, and the chunks are such a way.
   */
  lemma {:induction false} PackingOptimal(content: string, groups: seq<seq<string>>, maxChars: int, overlapChars: int)
    requires Grouping(groups, Blocks(content), maxChars)
    ensures ChunkTexts(content, maxChars, overlapChars).Ok?
    ensures |ChunkTexts(content, maxChars, overlapChars).value| <= |groups|
    ensures forall p :: p in Pack(Blocks(content), [], maxChars) ==> p.Packed?
    ensures
      var own := Groups(Pack(Blocks(content), [], maxChars));
      Grouping(own, Blocks(content), maxChars) && |own| == |ChunkTexts(content, maxChars, overlapChars).value|
  {
    var blocks := Blocks(content);
    forall b | b in blocks ensures |b| <= maxChars {
      BlockFits(groups, blocks, maxChars, b);
    }
    AllPacked(blocks, maxChars);
    PackedTexts(Pack(blocks, [], maxChars), maxChars, overlapChars);
    assert [] + blocks == blocks;
    PackingOptimalFrom(blocks, [], groups, maxChars);
    PackingGroups(blocks, maxChars);
    GroupsFlatten(Pack(blocks, [], maxChars));
  }
}
