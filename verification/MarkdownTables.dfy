/** Splitting a long Markdown table by rows (app/pipelines/chunking.py). */
module MarkdownTables {
  import opened Basics
  import opened Text
  import opened PlainWindows

  // ---------- Lines ----------

  /** The line boundaries of `str.splitlines`. */
  predicate IsLineBreak(c: char) {
    || '\n' <= c <= '\r' || '\U{1C}' <= c <= '\U{1E}'
    || c == '\U{85}' || c == '\U{2028}' || c == '\U{2029}'
  }

  function FindBreak(s: string, from: nat): (i: nat)
    requires from <= |s|
    ensures from <= i <= |s|
    ensures forall k :: from <= k < i ==> !IsLineBreak(s[k])
    ensures i < |s| ==> IsLineBreak(s[i])
    decreases |s| - from
  {
    if from == |s| || IsLineBreak(s[from]) then from else FindBreak(s, from + 1)
  }

  /** `str.splitlines()`. */
  function SplitLines(s: string): seq<string>
    decreases |s|
  {
    if s == "" then []
    else
      var i := FindBreak(s, 0);
      if i == |s| then [s]
      else
        var width := if s[i] == '\r' && i + 1 < |s| && s[i + 1] == '\n' then 2 else 1;
        [s[..i]] + SplitLines(s[i + width..])
  }

  /** The stripped, nonempty lines of a block. */
  function TableLines(block: string): seq<string> {
    NonblankParts(SplitLines(block))
  }

  /** `line.strip("|")`. */
  function StripBars(s: string): string {
    if s != "" && s[0] == '|' then StripBars(s[1..])
    else if s != "" && s[|s| - 1] == '|' then StripBars(s[..|s| - 1])
    else s
  }

  predicate IsSeparatorCell(cell: string) {
    cell != "" && (forall c :: c in cell ==> c == '-' || c == ':') && '-' in cell
  }

  predicate IsMarkdownSeparator(line: string) {
    forall cell :: cell in Split(StripBars(line), "|") ==> IsSeparatorCell(Strip(cell))
  }

  predicate IsRow(line: string) {
    line != "" && line[0] == '|' && line[|line| - 1] == '|'
  }

  predicate IsMarkdownTable(block: string) {
    var lines := TableLines(block);
    && |lines| >= 2
    && (forall line :: line in lines ==> IsRow(line))
    && (exists i :: 0 <= i < Min(3, |lines|) && IsMarkdownSeparator(lines[i]))
  }

  /** The first separator among the first three lines; 1 if there is none. */
  function SeparatorIndex(lines: seq<string>): (i: nat)
    ensures |lines| >= 2 ==> i < |lines|
  {
    if |lines| > 0 && IsMarkdownSeparator(lines[0]) then 0
    else if |lines| > 1 && IsMarkdownSeparator(lines[1]) then 1
    else if |lines| > 2 && IsMarkdownSeparator(lines[2]) then 2
    else 1
  }

  /** The lines up to the separator, and the others. */
  function HeaderAndRows(block: string): (parts: (seq<string>, seq<string>))
    requires |TableLines(block)| >= 2
    ensures parts.0 + parts.1 == TableLines(block) && parts.0 != []
  {
    var lines := TableLines(block);
    var cut := SeparatorIndex(lines) + 1;
    (lines[..cut], lines[cut..])
  }

  // ---------- Packing rows ----------

  /** A chunk is the header with some rows, or an oversized row cut into windows. */
  datatype Piece = Rows(rows: seq<string>) | Oversized(row: string)

  function TextOf(lines: seq<string>): string {
    Join(lines, "\n")
  }

  /** One turn of the loop: the pieces it emits, and the rows then collected beside the header. */
  function Place(header: seq<string>, current: seq<string>, row: string, maxChars: nat): (seq<Piece>, seq<string>) {
    if |TextOf(header + current + [row])| <= maxChars then ([], current + [row])
    else if current == [] then ([Oversized(row)], [])
    else if |TextOf(header + [row])| > maxChars then ([Rows(current), Oversized(row)], [])
    else ([Rows(current)], [row])
  }

  /** What the loop still emits when `current` are the rows collected beside the header. */
  function PackRows(header: seq<string>, rows: seq<string>, current: seq<string>, maxChars: nat): seq<Piece>
    decreases |rows|
  {
    if rows == [] then
      if current == [] then [] else [Rows(current)]
    else
      var (emitted, kept) := Place(header, current, rows[0], maxChars);
      emitted + PackRows(header, rows[1..], kept, maxChars)
  }

  function Chunks(header: seq<string>, piece: Piece, maxChars: nat): seq<string>
    requires maxChars > 0
  {
    match piece
    case Rows(rows) => [TextOf(header + rows)]
    case Oversized(row) => PlainWindow(row, maxChars, 0)
  }

  function AllChunks(header: seq<string>, pieces: seq<Piece>, maxChars: nat): seq<string>
    requires maxChars > 0
  {
    if pieces == [] then [] else Chunks(header, pieces[0], maxChars) + AllChunks(header, pieces[1..], maxChars)
  }

  /** What `_split_markdown_table` returns for a block of at least two lines. */
  function TableChunks(block: string, maxChars: nat): seq<string>
    requires maxChars > 0 && |TableLines(block)| >= 2
  {
    var (header, rows) := HeaderAndRows(block);
    if |TextOf(header)| >= maxChars then PlainWindow(block, maxChars, 0)
    else
      var chunks := AllChunks(header, PackRows(header, rows, [], maxChars), maxChars);
      if chunks == [] then [TextOf(header)] else chunks
  }

  method SplitMarkdownTable(block: string, maxChars: nat) returns (chunks: seq<string>)
    requires maxChars > 0 && |TableLines(block)| >= 2
    ensures chunks == TableChunks(block, maxChars)
  {
    var lines := TableLines(block);
    var cut := SeparatorIndex(lines) + 1;
    var header, rows := lines[..cut], lines[cut..];
    if |TextOf(header)| >= maxChars {
      chunks := SplitPlainWindow(block, maxChars, 0);
      return;
    }
    chunks := PackTableRows(header, rows, maxChars);
    if chunks == [] {
      chunks := [TextOf(header)];
    }
  }

  method PackTableRows(header: seq<string>, rows: seq<string>, maxChars: nat) returns (chunks: seq<string>)
    requires maxChars > 0
    ensures chunks == AllChunks(header, PackRows(header, rows, [], maxChars), maxChars)
  {
    chunks := [];
    var current := header;
    ghost var kept: seq<string> := [];
    ghost var all := AllChunks(header, PackRows(header, rows, [], maxChars), maxChars);
    assert header + kept == header;
    for i := 0 to |rows|
      invariant current == header + kept
      invariant chunks + AllChunks(header, PackRows(header, rows[i..], kept, maxChars), maxChars) == all
    {
      var emitted;
      ghost var (pieces, kept') := Place(header, kept, rows[i], maxChars);
      ghost var rest := PackRows(header, rows[i + 1..], kept', maxChars);
      assert rows[i..][0] == rows[i] && rows[i..][1..] == rows[i + 1..];
      AllChunksConcat(header, pieces, rest, maxChars);
      SeqAssociative(chunks, AllChunks(header, pieces, maxChars), AllChunks(header, rest, maxChars));
      emitted, current := PlaceRow(header, current, kept, rows[i], maxChars);
      chunks := chunks + emitted;
      kept := kept';
    }
    assert rows[|rows|..] == [];
    OneChunk(header, Rows(kept), maxChars);
    if |current| > |header| {
      chunks := chunks + [TextOf(current)];
    }
  }

  /** The body of the loop. */
  method PlaceRow(header: seq<string>, current: seq<string>, ghost kept: seq<string>, row: string, maxChars: nat)
    returns (chunks: seq<string>, current': seq<string>)
    requires maxChars > 0 && current == header + kept
    ensures chunks == AllChunks(header, Place(header, kept, row, maxChars).0, maxChars)
    ensures current' == header + Place(header, kept, row, maxChars).1
  {
    OneChunk(header, Rows(kept), maxChars);
    OneChunk(header, Oversized(row), maxChars);
    AllChunksConcat(header, [Rows(kept)], [Oversized(row)], maxChars);
    chunks := [];
    if |TextOf(current + [row])| <= maxChars {
      return chunks, current + [row];
    }
    if |current| > |header| {
      chunks := chunks + [TextOf(current)];
      current' := header + [row];
      if |TextOf(current')| > maxChars {
        var windows := SplitPlainWindow(row, maxChars, 0);
        chunks := chunks + windows;
        current' := header;
        assert [Rows(kept)] + [Oversized(row)] == [Rows(kept), Oversized(row)];
        assert header + [] == header;
      }
      return;
    }
    chunks := SplitPlainWindow(row, maxChars, 0);
    current' := header;
  }

  lemma {:induction false} OneChunk(header: seq<string>, piece: Piece, maxChars: nat)
    requires maxChars > 0
    ensures AllChunks(header, [piece], maxChars) == Chunks(header, piece, maxChars)
  {
    assert [piece][1..] == [];
  }

  lemma {:induction false} AllChunksConcat(header: seq<string>, a: seq<Piece>, b: seq<Piece>, maxChars: nat)
    requires maxChars > 0
    ensures AllChunks(header, a + b, maxChars) == AllChunks(header, a, maxChars) + AllChunks(header, b, maxChars)
  {
    if a == [] {
      assert a + b == b;
    } else {
      assert (a + b)[1..] == a[1..] + b;
      AllChunksConcat(header, a[1..], b, maxChars);
    }
  }

  // ---------- No row is lost ----------

  function RowsOf(pieces: seq<Piece>): seq<string> {
    if pieces == [] then []
    else (match pieces[0]
          case Rows(rows) => rows
          case Oversized(row) => [row])
         + RowsOf(pieces[1..])
  }

  lemma {:induction false} RowsOfConcat(a: seq<Piece>, b: seq<Piece>)
    ensures RowsOf(a + b) == RowsOf(a) + RowsOf(b)
  {
    if a == [] {
      assert a + b == b;
    } else {
      assert (a + b)[1..] == a[1..] + b;
      RowsOfConcat(a[1..], b);
    }
  }

  lemma {:induction false} RowsOfOne(piece: Piece)
    ensures RowsOf([piece]) == if piece.Rows? then piece.rows else [piece.row]
  {
    assert [piece][1..] == [];
  }

  lemma {:induction false} PlaceConserves(header: seq<string>, current: seq<string>, row: string, maxChars: nat)
    ensures var (emitted, kept) := Place(header, current, row, maxChars);
      RowsOf(emitted) + kept == current + [row]
  {
    RowsOfOne(Rows(current));
    RowsOfOne(Oversized(row));
    RowsOfConcat([Rows(current)], [Oversized(row)]);
    assert [Rows(current)] + [Oversized(row)] == [Rows(current), Oversized(row)];
  }

  /** The pieces hold the collected and the remaining rows, in order, each once. */
  lemma {:induction false} RowsConserved(
    header: seq<string>, rows: seq<string>, current: seq<string>, maxChars: nat)
    ensures RowsOf(PackRows(header, rows, current, maxChars)) == current + rows
    decreases |rows|
  {
    if rows == [] {
      RowsOfOne(Rows(current));
    } else {
      var (emitted, kept) := Place(header, current, rows[0], maxChars);
      PlaceConserves(header, current, rows[0], maxChars);
      RowsConserved(header, rows[1..], kept, maxChars);
      RowsOfConcat(emitted, PackRows(header, rows[1..], kept, maxChars));
      SeqAssociative(RowsOf(emitted), kept, rows[1..]);
      SeqAssociative(current, [rows[0]], rows[1..]);
      assert [rows[0]] + rows[1..] == rows;
    }
  }

  /**
   * Every chunk of rows is the header, a line break and the rows; every other chunk is a window of
   * an oversized row, and that row is what its windows, before stripping, glue to.
   */
  lemma {:induction false} ChunksShowTheirRows(header: seq<string>, piece: Piece, maxChars: nat)
    requires maxChars > 0 && header != []
    ensures piece.Rows? && piece.rows != [] ==>
      Chunks(header, piece, maxChars) == [TextOf(header) + "\n" + TextOf(piece.rows)]
    ensures piece.Oversized? ==>
      Glue(piece.row, Spans(|piece.row|, maxChars, 0, 0)) == piece.row
  {
    match piece
    case Rows(rows) =>
      if rows != [] {
        JoinConcat(header, rows, "\n");
      }
    case Oversized(row) =>
      GlueWithoutOverlap(row, maxChars, 0);
  }

  /** Header chunks fit and hold at least one row; windows are cut only from rows that do not fit. */
  ghost predicate GoodPiece(header: seq<string>, piece: Piece, maxChars: nat) {
    match piece
    case Rows(rows) => rows != [] && |TextOf(header + rows)| <= maxChars
    case Oversized(row) => |TextOf(header + [row])| > maxChars
  }

  ghost predicate GoodPieces(header: seq<string>, pieces: seq<Piece>, maxChars: nat) {
    forall p :: p in pieces ==> GoodPiece(header, p, maxChars)
  }

  lemma {:induction false} PlaceGood(header: seq<string>, current: seq<string>, row: string, maxChars: nat)
    requires current == [] || |TextOf(header + current)| <= maxChars
    ensures var (emitted, kept) := Place(header, current, row, maxChars);
      GoodPieces(header, emitted, maxChars) && (kept == [] || |TextOf(header + kept)| <= maxChars)
  {
    SeqAssociative(header, current, [row]);
    assert [] + [row] == [row];
  }

  lemma {:induction false} PiecesGood(header: seq<string>, rows: seq<string>, current: seq<string>, maxChars: nat)
    requires current == [] || |TextOf(header + current)| <= maxChars
    ensures GoodPieces(header, PackRows(header, rows, current, maxChars), maxChars)
    decreases |rows|
  {
    if rows != [] {
      PlaceGood(header, current, rows[0], maxChars);
      PiecesGood(header, rows[1..], Place(header, current, rows[0], maxChars).1, maxChars);
    }
  }

  lemma {:induction false} RowHasPiece(pieces: seq<Piece>, row: string) returns (i: nat)
    requires row in RowsOf(pieces)
    ensures i < |pieces|
    ensures pieces[i] == Oversized(row) || (pieces[i].Rows? && row in pieces[i].rows)
  {
    if pieces[0] == Oversized(row) || (pieces[0].Rows? && row in pieces[0].rows) {
      i := 0;
    } else {
      i := RowHasPiece(pieces[1..], row);
      i := i + 1;
    }
  }

  lemma {:induction false} OversizedRowIsThere(pieces: seq<Piece>, row: string)
    requires Oversized(row) in pieces
    ensures row in RowsOf(pieces)
  {
    if pieces[0] != Oversized(row) {
      OversizedRowIsThere(pieces[1..], row);
    }
  }

  lemma {:induction false} OneOfTheRows(header: seq<string>, rows: seq<string>, row: string)
    requires header != [] && row in rows
    ensures |TextOf(header + [row])| <= |TextOf(header + rows)|
  {
    JoinConcat(header, [row], "\n");
    JoinConcat(header, rows, "\n");
    PartLength(rows, row, "\n");
  }

  /** A row is cut into windows, with nothing added, just when it does not fit beside the header. */
  lemma {:induction false} OversizedIff(header: seq<string>, rows: seq<string>, maxChars: nat, row: string)
    requires header != []
    ensures Oversized(row) in PackRows(header, rows, [], maxChars)
       <==> row in rows && |TextOf(header + [row])| > maxChars
  {
    var pieces := PackRows(header, rows, [], maxChars);
    PiecesGood(header, rows, [], maxChars);
    RowsConserved(header, rows, [], maxChars);
    assert [] + rows == rows;
    if Oversized(row) in pieces {
      OversizedRowIsThere(pieces, row);
      assert GoodPiece(header, Oversized(row), maxChars);
    }
    if row in rows && |TextOf(header + [row])| > maxChars {
      var i := RowHasPiece(pieces, row);
      assert GoodPiece(header, pieces[i], maxChars);
      if pieces[i].Rows? {
        OneOfTheRows(header, pieces[i].rows, row);
      }
    }
  }

  /** When no row fits beside the header, every piece is a cut row. */
  lemma {:induction false} NothingButOversized(header: seq<string>, rows: seq<string>, maxChars: nat)
    requires header != []
    requires forall row :: row in rows ==> |TextOf(header + [row])| > maxChars
    ensures forall p :: p in PackRows(header, rows, [], maxChars) ==> p.Oversized?
  {
    var pieces := PackRows(header, rows, [], maxChars);
    PiecesGood(header, rows, [], maxChars);
    RowsConserved(header, rows, [], maxChars);
    assert [] + rows == rows;
    forall p | p in pieces ensures p.Oversized? {
      assert GoodPiece(header, p, maxChars);
      if p.Rows? {
        var row := p.rows[0];
        PieceRowIsThere(pieces, p, row);
        OneOfTheRows(header, p.rows, row);
      }
    }
  }

  lemma {:induction false} PieceRowIsThere(pieces: seq<Piece>, p: Piece, row: string)
    requires p in pieces && p.Rows? && row in p.rows
    ensures row in RowsOf(pieces)
  {
    if pieces[0] != p {
      PieceRowIsThere(pieces[1..], p, row);
    }
  }

  // ---------- Chunks of a table ----------

  lemma {:induction false} GoodChunks(header: seq<string>, piece: Piece, maxChars: nat)
    requires maxChars > 0 && header != [] && (forall h :: h in header ==> h != "")
    requires GoodPiece(header, piece, maxChars)
    ensures forall c :: c in Chunks(header, piece, maxChars) ==> 0 < |c| <= maxChars
    ensures piece.Oversized? && !Blank(piece.row) ==> Chunks(header, piece, maxChars) != []
  {
    match piece
    case Rows(rows) =>
      JoinConcat(header, rows, "\n");
    case Oversized(row) =>
      PlainWindowSizes(row, maxChars, 0);
      if !Blank(row) {
        PlainWindowNonempty(row, maxChars, 0);
      }
  }

  lemma {:induction false} AllChunksSizes(header: seq<string>, pieces: seq<Piece>, maxChars: nat)
    requires maxChars > 0 && header != [] && (forall h :: h in header ==> h != "")
    requires GoodPieces(header, pieces, maxChars)
    ensures forall c :: c in AllChunks(header, pieces, maxChars) ==> 0 < |c| <= maxChars
  {
    if pieces != [] {
      GoodChunks(header, pieces[0], maxChars);
      AllChunksSizes(header, pieces[1..], maxChars);
    }
  }

  /** Every chunk of a table is nonempty and fits, and there is at least one. */
  lemma {:induction false} TableChunksFit(block: string, maxChars: nat)
    requires maxChars > 0 && !Blank(block) && |TableLines(block)| >= 2
    ensures TableChunks(block, maxChars) != []
    ensures forall c :: c in TableChunks(block, maxChars) ==> 0 < |c| <= maxChars
  {
    var lines := TableLines(block);
    var (header, rows) := HeaderAndRows(block);
    if |TextOf(header)| >= maxChars {
      PlainWindowNonempty(block, maxChars, 0);
      PlainWindowSizes(block, maxChars, 0);
    } else {
      NonblankPartsClean(SplitLines(block));
      assert header[0] in lines;
      HeaderNonempty(lines, header);
      PiecesGood(header, rows, [], maxChars);
      AllChunksSizes(header, PackRows(header, rows, [], maxChars), maxChars);
    }
  }

  lemma {:induction false} HeaderNonempty(lines: seq<string>, header: seq<string>)
    requires (forall line :: line in lines ==> Clean(line)) && header <= lines
    ensures forall h :: h in header ==> h != ""
  {
    forall h | h in header ensures h != "" {
      assert h in lines;
    }
  }

  // ---------- Whether the chunks repeat the header ----------

  ghost predicate AllStartWith(header: string, chunks: seq<string>) {
    forall c :: c in chunks ==> header <= c
  }

  predicate Fits(header: seq<string>, row: string, maxChars: nat) {
    |TextOf(header + [row])| <= maxChars
  }

  lemma {:induction false} AllStartWithIff(header: string, of: seq<string>, pieces: seq<Piece>, maxChars: nat)
    requires maxChars > 0
    ensures AllStartWith(header, AllChunks(of, pieces, maxChars)) <==>
      forall p :: p in pieces ==> AllStartWith(header, Chunks(of, p, maxChars))
  {
    if pieces != [] {
      AllStartWithIff(header, of, pieces[1..], maxChars);
      var first, rest := Chunks(of, pieces[0], maxChars), AllChunks(of, pieces[1..], maxChars);
      if AllStartWith(header, first + rest) {
        forall c | c in first ensures header <= c {
          assert c in first + rest;
        }
        forall c | c in rest ensures header <= c {
          assert c in first + rest;
        }
      }
    }
  }

  /** Every row that does not fit beside the header is cut into windows that happen to start with it. */
  ghost predicate CutsStartWith(header: seq<string>, rows: seq<string>, maxChars: nat)
    requires maxChars > 0
  {
    forall row :: row in rows && !Fits(header, row, maxChars) ==>
      AllStartWith(TextOf(header), PlainWindow(row, maxChars, 0))
  }

  lemma {:induction false} PiecesRepeatIff(header: seq<string>, rows: seq<string>, maxChars: nat)
    requires maxChars > 0 && header != []
    ensures AllStartWith(TextOf(header), AllChunks(header, PackRows(header, rows, [], maxChars), maxChars))
       <==> CutsStartWith(header, rows, maxChars)
  {
    var pieces := PackRows(header, rows, [], maxChars);
    AllStartWithIff(TextOf(header), header, pieces, maxChars);
    PiecesGood(header, rows, [], maxChars);
    forall p | p in pieces
      ensures p.Rows? ==> AllStartWith(TextOf(header), Chunks(header, p, maxChars))
      ensures p.Oversized? ==> p.row in rows && !Fits(header, p.row, maxChars)
    {
      assert GoodPiece(header, p, maxChars);
      ChunksShowTheirRows(header, p, maxChars);
      if p.Oversized? {
        OversizedIff(header, rows, maxChars, p.row);
      }
    }
    forall row | row in rows && !Fits(header, row, maxChars) ensures Oversized(row) in pieces {
      OversizedIff(header, rows, maxChars, row);
    }
    if forall p :: p in pieces ==> AllStartWith(TextOf(header), Chunks(header, p, maxChars)) {
      forall row | row in rows && !Fits(header, row, maxChars)
        ensures AllStartWith(TextOf(header), PlainWindow(row, maxChars, 0))
      {
        assert Chunks(header, Oversized(row), maxChars) == PlainWindow(row, maxChars, 0);
      }
    }
  }

  /**
   * When the header does not fill a chunk, every chunk of the table starts with the header if and only
   * if the windows of every row that does not fit beside it do.
   */
  lemma {:induction false} HeaderRepeatedIff(block: string, maxChars: nat)
    requires maxChars > 0 && |TableLines(block)| >= 2
    requires |TextOf(HeaderAndRows(block).0)| < maxChars
    ensures
      var (header, rows) := HeaderAndRows(block);
      AllStartWith(TextOf(header), TableChunks(block, maxChars)) <==> CutsStartWith(header, rows, maxChars)
  {
    var (header, rows) := HeaderAndRows(block);
    PiecesRepeatIff(header, rows, maxChars);
    if AllChunks(header, PackRows(header, rows, [], maxChars), maxChars) == [] {
      assert TableChunks(block, maxChars) == [TextOf(header)];
    }
  }

  // ---------- ... for a header of several lines ----------

  ghost predicate OneLine(s: string) {
    forall i :: 0 <= i < |s| ==> !IsLineBreak(s[i])
  }

  lemma {:induction false} SliceOneLine(s: string, lo: nat, hi: nat)
    requires OneLine(s) && lo <= hi <= |s|
    ensures OneLine(s[lo..hi])
  {
  }

  lemma {:induction false} StripOneLine(s: string)
    requires OneLine(s)
    ensures OneLine(Strip(s))
  {
    var lo, hi := StripIsSlice(s);
    SliceOneLine(s, lo, hi);
  }

  lemma {:induction false} SplitLinesOneLine(s: string)
    ensures forall line :: line in SplitLines(s) ==> OneLine(line)
    decreases |s|
  {
    if s != "" {
      var i := FindBreak(s, 0);
      if i < |s| {
        var width := if s[i] == '\r' && i + 1 < |s| && s[i + 1] == '\n' then 2 else 1;
        SplitLinesOneLine(s[i + width..]);
      }
    }
  }

  lemma {:induction false} NonblankOneLine(parts: seq<string>)
    requires forall part :: part in parts ==> OneLine(part)
    ensures forall part :: part in NonblankParts(parts) ==> OneLine(part)
  {
    if parts != [] {
      StripOneLine(parts[0]);
      NonblankOneLine(parts[1..]);
    }
  }

  lemma {:induction false} KeptOneLine(text: string, spans: seq<Span>)
    requires OneLine(text)
    ensures forall w :: w in Kept(text, spans) ==> OneLine(w)
  {
    if spans != [] {
      var s := spans[0];
      if s.start <= s.end <= |text| {
        SliceOneLine(text, s.start, s.end);
      }
      StripOneLine(Window(text, s));
      KeptOneLine(text, spans[1..]);
    }
  }

  /** The text of at least two lines is not in one line. */
  lemma {:induction false} SeveralLines(header: seq<string>, line: string)
    requires |header| >= 2 && OneLine(line)
    ensures !(TextOf(header) <= line)
  {
    assert TextOf(header)[|header[0]|] == '\n';
  }

  /**
   * When the header has several lines and does not fill a chunk, every chunk of the table starts with
   * the header if and only if every row fits beside it.
   */
  lemma {:induction false} HeaderRepeatedIffAllFit(block: string, maxChars: nat)
    requires maxChars > 0 && |TableLines(block)| >= 2
    requires |TextOf(HeaderAndRows(block).0)| < maxChars && |HeaderAndRows(block).0| >= 2
    ensures
      var (header, rows) := HeaderAndRows(block);
      AllStartWith(TextOf(header), TableChunks(block, maxChars)) <==>
        forall row :: row in rows ==> Fits(header, row, maxChars)
  {
    var (header, rows) := HeaderAndRows(block);
    HeaderRepeatedIff(block, maxChars);
    SplitLinesOneLine(block);
    NonblankOneLine(SplitLines(block));
    NonblankPartsClean(SplitLines(block));
    forall row | row in rows ensures !AllStartWith(TextOf(header), PlainWindow(row, maxChars, 0)) {
      assert row in TableLines(block) && !IsSpace(row[0]);
      var windows := PlainWindow(row, maxChars, 0);
      PlainWindowNonempty(row, maxChars, 0);
      KeptOneLine(row, Spans(|row|, maxChars, 0, 0));
      assert windows[0] in windows;
      SeveralLines(header, windows[0]);
    }
  }

  lemma {:induction false} FittingTableRepeatsHeader(block: string, maxChars: nat)
    requires maxChars > 0 && |TableLines(block)| >= 2
    requires
      var (header, rows) := HeaderAndRows(block);
      |TextOf(header)| < maxChars && forall row :: row in rows ==> Fits(header, row, maxChars)
    ensures AllStartWith(TextOf(HeaderAndRows(block).0), TableChunks(block, maxChars))
  {
    HeaderRepeatedIff(block, maxChars);
  }

  // ---------- A table with a chunk without the header ----------

  lemma {:induction false} FirstLine(line: string, rest: string)
    requires OneLine(line)
    ensures SplitLines(line + "\n" + rest) == [line] + SplitLines(rest)
  {
    var text := line + "\n" + rest;
    assert text[|line|] == '\n';
    assert forall i :: 0 <= i < |line| ==> text[i] == line[i];
    assert FindBreak(text, 0) == |line|;
    assert text[..|line|] == line && text[|line| + 1..] == rest;
  }

  lemma {:induction false} LastLine(line: string)
    requires OneLine(line) && line != ""
    ensures SplitLines(line) == [line]
  {
  }

  lemma {:induction false} CleanParts(parts: seq<string>)
    requires forall part :: part in parts ==> Clean(part)
    ensures NonblankParts(parts) == parts
  {
    if parts != [] {
      assert parts[0] in parts;
      StripClean(parts[0]);
      CleanParts(parts[1..]);
    }
  }

  /** Lines without white space at their ends are read back from their text. */
  lemma {:induction false} LinesReadBack(lines: seq<string>)
    requires forall line :: line in lines ==> OneLine(line) && Clean(line)
    ensures SplitLines(TextOf(lines)) == lines && TableLines(TextOf(lines)) == lines
  {
    CleanParts(lines);
    if lines != [] {
      assert lines[0] in lines;
      if |lines| == 1 {
        LastLine(lines[0]);
      } else {
        LinesReadBack(lines[1..]);
        FirstLine(lines[0], TextOf(lines[1..]));
      }
    }
  }

  /** A row that fits in a chunk, but not beside the header, is a chunk of its own. */
  lemma {:induction false} LongRowAlone(header: seq<string>, row: string, maxChars: nat)
    requires maxChars > 0 && header != [] && Clean(row) && |row| <= maxChars && !Fits(header, row, maxChars)
    ensures AllChunks(header, PackRows(header, [row], [], maxChars), maxChars) == [row]
  {
    hide TextOf;
    assert header + [] + [row] == header + [row];
    assert PackRows(header, [row], [], maxChars) == [Oversized(row)];
    OneChunk(header, Oversized(row), maxChars);
    LastWindow(row, maxChars, 0, 0);
    assert row[0..|row|] == row;
    StripClean(row);
  }

  const NAMES := "|a|"
  const RULE := "|-|"
  const WIDE_ROW := "|xxxxxxxx|"

  lemma {:induction false} ExampleSeparator()
    ensures !IsMarkdownSeparator(NAMES) && IsMarkdownSeparator(RULE)
  {
    assert StripBars(NAMES) == "a" && Split("a", "|") == ["a"] && Strip("a") == "a";
    assert StripBars(RULE) == "-" && Split("-", "|") == ["-"] && Strip("-") == "-";
    assert "a" in ["a"];
  }

  /** Lines make a table when there are two, all are between bars, and one of the first three is a separator. */
  lemma {:induction false} TableIff(lines: seq<string>)
    requires forall line :: line in lines ==> OneLine(line) && Clean(line)
    ensures IsMarkdownTable(TextOf(lines)) <==>
      && |lines| >= 2
      && (forall i :: 0 <= i < |lines| ==>
            lines[i] != "" && lines[i][0] == '|' && lines[i][|lines[i]| - 1] == '|')
      && (IsMarkdownSeparator(lines[0]) || IsMarkdownSeparator(lines[1])
          || (|lines| > 2 && IsMarkdownSeparator(lines[2])))
  {
    hide IsMarkdownSeparator, TableLines, TextOf;
    LinesReadBack(lines);
    assert forall i :: 0 <= i < |lines| ==> lines[i] in lines;
  }

  /** The header of a table is its lines up to the first separator. */
  lemma {:induction false} HeaderOfLines(lines: seq<string>, n: nat)
    requires forall line :: line in lines ==> OneLine(line) && IsRow(line)
    requires |lines| >= 2 && n < |lines| && n <= 2
    requires IsMarkdownSeparator(lines[n]) && forall i :: 0 <= i < n ==> !IsMarkdownSeparator(lines[i])
    ensures IsMarkdownTable(TextOf(lines)) && HeaderAndRows(TextOf(lines)) == (lines[..n + 1], lines[n + 1..])
  {
    hide IsMarkdownSeparator, TableLines, TextOf;
    LinesReadBack(lines);
    assert forall i :: 0 <= i < |lines| ==> lines[i] in lines;
    assert IsMarkdownSeparator(lines[n]);
  }

  lemma {:induction false} OneLineText(a: string)
    ensures TextOf([a]) == a
  {
  }

  lemma {:induction false} TwoLinesText(a: string, b: string)
    ensures TextOf([a, b]) == a + "\n" + b
  {
    assert [a, b][1..] == [b];
    assert Join([b], "\n") == b;
  }

  lemma {:induction false} ThreeLinesText(a: string, b: string, c: string)
    ensures TextOf([a, b, c]) == a + "\n" + (b + "\n" + c)
  {
    assert [a, b, c][1..] == [b, c];
    TwoLinesText(b, c);
  }

  lemma {:induction false} ExampleHeader(block: string)
    requires block == NAMES + "\n" + (RULE + "\n" + WIDE_ROW)
    ensures IsMarkdownTable(block) && HeaderAndRows(block) == ([NAMES, RULE], [WIDE_ROW])
    ensures TextOf([NAMES, RULE]) == NAMES + "\n" + RULE
  {
    hide IsMarkdownSeparator, IsMarkdownTable, HeaderAndRows, TextOf;
    var lines := [NAMES, RULE, WIDE_ROW];
    ExampleSeparator();
    HeaderOfLines(lines, 1);
    ThreeLinesText(NAMES, RULE, WIDE_ROW);
    TwoLinesText(NAMES, RULE);
    assert lines[..2] == [NAMES, RULE] && lines[2..] == [WIDE_ROW];
  }

  lemma {:induction false} WithRow(header: seq<string>, row: string)
    requires header != []
    ensures |TextOf(header + [row])| == |TextOf(header)| + 1 + |row|
  {
    JoinConcat(header, [row], "\n");
  }

  /** A table whose only row is too long beside the header comes back without its header. */
  lemma {:induction false} HeaderLost(block: string)
    requires block == NAMES + "\n" + (RULE + "\n" + WIDE_ROW)
    ensures IsMarkdownTable(block) && HeaderAndRows(block) == ([NAMES, RULE], [WIDE_ROW])
    ensures TableChunks(block, 10) == [WIDE_ROW] && !AllStartWith(TextOf([NAMES, RULE]), [WIDE_ROW])
  {
    hide IsMarkdownTable, HeaderAndRows, PackRows, AllChunks, TextOf;
    ExampleHeader(block);
    WithRow([NAMES, RULE], WIDE_ROW);
    LongRowAlone([NAMES, RULE], WIDE_ROW, 10);
    assert WIDE_ROW in [WIDE_ROW] && NAMES[1] != WIDE_ROW[1];
  }

  /** With a header of one line a row too long beside it may happen to start with it. */
  lemma {:induction false} HeaderByChance(block: string, row: string)
    requires row == "|-|xxxxxxx|" && block == RULE + "\n" + row
    ensures IsMarkdownTable(block) && HeaderAndRows(block) == ([RULE], [row]) && !Fits([RULE], row, 12)
    ensures TableChunks(block, 12) == [row] && AllStartWith(TextOf([RULE]), [row])
  {
    hide IsMarkdownSeparator, IsMarkdownTable, HeaderAndRows, PackRows, AllChunks, TextOf;
    var lines := [RULE, row];
    ExampleSeparator();
    HeaderOfLines(lines, 0);
    TwoLinesText(RULE, row);
    assert lines[..1] == [RULE] && lines[1..] == [row];
    OneLineText(RULE);
    WithRow([RULE], row);
    LongRowAlone([RULE], row, 12);
  }

  // ---------- Which blocks are tables ----------

  lemma {:induction false} SolidAround(s: string, lo: nat, hi: nat)
    requires lo <= hi <= |s| && Blank(s[lo..hi])
    ensures Solid(s) == Solid(s[..lo]) + Solid(s[hi..])
  {
    assert s == s[..lo] + (s[lo..hi] + s[hi..]);
    SolidConcat(s[..lo], s[lo..hi] + s[hi..]);
    SolidConcat(s[lo..hi], s[hi..]);
    SolidBlank(s[lo..hi]);
  }

  /** The first line of a text, the break behind it, and the lines of the rest. */
  lemma {:induction false} LineOff(s: string) returns (lo: nat, hi: nat)
    requires s != ""
    ensures lo <= hi <= |s| && Blank(s[lo..hi])
    ensures if hi == lo then lo == |s| && SplitLines(s) == [s]
            else SplitLines(s) == [s[..lo]] + SplitLines(s[hi..])
  {
    lo := FindBreak(s, 0);
    hi := lo;
    if lo < |s| {
      hi := lo + if s[lo] == '\r' && lo + 1 < |s| && s[lo + 1] == '\n' then 2 else 1;
    }
  }

  lemma {:induction false} SolidLines(s: string)
    ensures Solids(SplitLines(s)) == Solid(s)
    decreases |s|
  {
    if s == "" {
      assert SplitLines(s) == [];
    } else {
      hide SplitLines;
      var lo, hi := LineOff(s);
      if hi > lo {
        SolidLines(s[hi..]);
        SolidAround(s, lo, hi);
        SolidsConcat([s[..lo]], SplitLines(s[hi..]));
      }
    }
  }

  /** The lines of a table hold every character of the block that is no white space, once, in order. */
  lemma {:induction false} LinesConserve(block: string)
    ensures Solids(TableLines(block)) == Solid(block)
    ensures forall line :: line in TableLines(block) ==> OneLine(line) && Clean(line)
  {
    SolidNonblank(SplitLines(block));
    SolidLines(block);
    SplitLinesOneLine(block);
    NonblankOneLine(SplitLines(block));
    NonblankPartsClean(SplitLines(block));
  }

  /** The header of a table ends with the first separator among its first three lines. */
  lemma {:induction false} HeaderEndsAtSeparator(block: string)
    requires IsMarkdownTable(block)
    ensures
      var (header, rows) := HeaderAndRows(block);
      && header + rows == TableLines(block) && 1 <= |header| <= 3
      && IsMarkdownSeparator(header[|header| - 1])
      && forall i :: 0 <= i < |header| - 1 ==> !IsMarkdownSeparator(header[i])
  {
    hide IsMarkdownSeparator;
  }

  /** Dashes and colons, at least one dash, and white space around them. */
  ghost predicate IsRule(cell: string) {
    var text := Strip(cell);
    && (forall i :: 0 <= i < |text| ==> text[i] == '-' || text[i] == ':')
    && exists i :: 0 <= i < |text| && text[i] == '-'
  }

  lemma {:induction false} BarAt(s: string, i: nat)
    ensures OccursAt(s, "|", i) <==> i < |s| && s[i] == '|'
  {
    if i < |s| {
      assert s[i..i + 1] == [s[i]];
    }
  }

  lemma {:induction false} FirstBar(first: string, rest: string)
    requires '|' !in first
    ensures Split(first, "|") == [first]
    ensures Split(first + "|" + rest, "|") == [first] + Split(rest, "|")
  {
    var text := first + "|" + rest;
    assert forall i :: 0 <= i < |first| ==> text[i] == first[i] && first[i] in first;
    BarAt(first, FindFrom(first, "|", 0));
    BarAt(text, FindFrom(text, "|", 0));
    BarAt(text, |first|);
    assert text[..|first|] == first && text[|first| + 1..] == rest;
  }

  lemma {:induction false} SplitCells(cells: seq<string>)
    requires cells != [] && forall cell :: cell in cells ==> '|' !in cell
    ensures Split(Join(cells, "|"), "|") == cells
  {
    assert cells[0] in cells;
    if |cells| == 1 {
      FirstBar(cells[0], "");
    } else {
      FirstBar(cells[0], Join(cells[1..], "|"));
      SplitCells(cells[1..]);
    }
  }

  lemma {:induction false} BarsStripped(inner: string)
    requires inner != "" && inner[0] != '|' && inner[|inner| - 1] != '|'
    ensures StripBars("|" + inner + "|") == inner
  {
    var line := "|" + inner + "|";
    assert line[1..] == inner + "|" && (inner + "|")[..|inner|] == inner;
    assert StripBars(inner) == inner;
    assert StripBars(inner + "|") == StripBars(inner);
  }

  lemma {:induction false} RuleIff(cell: string)
    ensures IsSeparatorCell(Strip(cell)) <==> IsRule(cell)
  {
    var text := Strip(cell);
    if IsSeparatorCell(text) {
      forall i | 0 <= i < |text| ensures text[i] == '-' || text[i] == ':' {
        assert text[i] in text;
      }
      var i :| 0 <= i < |text| && text[i] == '-';
    }
  }

  /** A line of cells between bars is a separator if and only if every cell is a rule. */
  lemma {:induction false} SeparatorIff(cells: seq<string>)
    requires cells != [] && cells[0] != "" && cells[|cells| - 1] != ""
    requires forall cell :: cell in cells ==> '|' !in cell
    ensures IsMarkdownSeparator("|" + Join(cells, "|") + "|") <==> forall i :: 0 <= i < |cells| ==> IsRule(cells[i])
  {
    var inner := Join(cells, "|");
    SplitCells(cells);
    JoinEnds(cells);
    BarsStripped(inner);
    forall cell | cell in cells ensures IsSeparatorCell(Strip(cell)) <==> IsRule(cell) {
      RuleIff(cell);
    }
  }

  lemma {:induction false} JoinEnds(cells: seq<string>)
    requires cells != [] && cells[0] != "" && cells[|cells| - 1] != ""
    requires forall cell :: cell in cells ==> '|' !in cell
    ensures
      var inner := Join(cells, "|");
      inner != "" && inner[0] != '|' && inner[|inner| - 1] != '|'
  {
    var last := cells[|cells| - 1];
    assert cells[0] in cells && last in cells && cells[0][0] in cells[0] && last[|last| - 1] in last;
    if |cells| > 1 {
      JoinSnoc(cells[..|cells| - 1], last, "|");
      assert cells[..|cells| - 1] + [last] == cells;
      assert Join(cells, "|") == cells[0] + "|" + Join(cells[1..], "|");
    }
  }

  lemma {:induction false} SeparatorOfTwo(a: string, b: string)
    requires a != "" && b != "" && '|' !in a && '|' !in b
    ensures IsMarkdownSeparator("|" + (a + "|" + b) + "|") <==> IsRule(a) && IsRule(b)
  {
    var cells := [a, b];
    SeparatorIff(cells);
    assert cells[1..] == [b] && Join([b], "|") == b;
    assert forall i :: 0 <= i < 2 ==> cells[i] == a || cells[i] == b;
    assert cells[0] == a && cells[1] == b;
  }

  lemma {:induction false} AlignmentRule()
    ensures IsRule(":-:") && IsRule(" --: ")
  {
    var text := Strip(":-:");
    assert text == ":-:" && text[1] == '-';
    StripSides("--:");
    var other := Strip(" --: ");
    assert other == "--:" && other[0] == '-';
  }

  lemma {:induction false} StripSides(s: string)
    requires Clean(s)
    ensures Strip(" " + s + " ") == s
  {
    var text := " " + s + " ";
    assert text[1..] == s + " " && (s + " ")[..|s|] == s;
    assert StripLeft(text) == s + " ";
    assert StripRight(s + " ") == StripRight(s) == s;
  }

  lemma {:induction false} LetterIsNoRule(cell: string)
    requires cell == "a" || cell == "c"
    ensures !IsRule(cell)
  {
    assert Strip(cell) == cell && (cell[0] == 'a' || cell[0] == 'c');
  }

  lemma {:induction false} AlignmentCells()
    ensures IsMarkdownSeparator("|:-:| --: |")
    ensures !IsMarkdownSeparator("|a|b|") && !IsMarkdownSeparator("|c|d|")
  {
    hide IsRule, IsMarkdownSeparator;
    AlignmentRule();
    LetterIsNoRule("a");
    LetterIsNoRule("c");
    SeparatorOfTwo(":-:", " --: ");
    SeparatorOfTwo("a", "b");
    SeparatorOfTwo("c", "d");
    assert "|" + (":-:" + "|" + " --: ") + "|" == "|:-:| --: |";
    assert "|" + ("a" + "|" + "b") + "|" == "|a|b|" && "|" + ("c" + "|" + "d") + "|" == "|c|d|";
  }

  /** A table whose separator is its third line and sets alignments. */
  lemma {:induction false} AlignedTable(lines: seq<string>)
    requires lines == ["|a|b|", "|c|d|", "|:-:| --: |", "|e|f|"]
    ensures IsMarkdownTable(TextOf(lines)) && HeaderAndRows(TextOf(lines)) == (lines[..3], lines[3..])
  {
    hide IsMarkdownSeparator, IsMarkdownTable, HeaderAndRows, TextOf;
    AlignmentCells();
    HeaderOfLines(lines, 2);
  }

  // ---------- The rows in the chunks ----------

  /**
   * The chunk texts show the rows in order, each once: a chunk is the header above the next rows,
   * or some chunks are the stripped windows that the next row is cut into without a gap.
   */
  ghost predicate Shows(header: string, rows: seq<string>, texts: seq<string>, maxChars: nat)
    requires maxChars > 0
    decreases |rows|
  {
    if rows == [] then texts == []
    else ShowsTogether(header, rows, texts, maxChars) || ShowsCut(header, rows, texts, maxChars)
  }

  ghost predicate ShowsTogether(header: string, rows: seq<string>, texts: seq<string>, maxChars: nat)
    requires maxChars > 0
    decreases |rows|, 0
  {
    exists k :: 0 < k <= |rows|
      && texts != [] && texts[0] == header + "\n" + TextOf(rows[..k])
      && Shows(header, rows[k..], texts[1..], maxChars)
  }

  ghost predicate ShowsCut(header: string, rows: seq<string>, texts: seq<string>, maxChars: nat)
    requires maxChars > 0 && rows != []
    decreases |rows|, 0
  {
    var windows := PlainWindow(rows[0], maxChars, 0);
    && Glue(rows[0], Spans(|rows[0]|, maxChars, 0, 0)) == rows[0]
    && windows <= texts
    && Shows(header, rows[1..], texts[|windows|..], maxChars)
  }

  lemma {:induction false} PiecesShow(header: seq<string>, pieces: seq<Piece>, maxChars: nat)
    requires maxChars > 0 && header != []
    requires forall p :: p in pieces && p.Rows? ==> p.rows != []
    ensures Shows(TextOf(header), RowsOf(pieces), AllChunks(header, pieces, maxChars), maxChars)
  {
    if pieces != [] {
      var rest := AllChunks(header, pieces[1..], maxChars);
      PiecesShow(header, pieces[1..], maxChars);
      ChunksShowTheirRows(header, pieces[0], maxChars);
      assert pieces[0] in pieces;
      match pieces[0]
      case Rows(rows) =>
        MoreTogether(TextOf(header), rows, RowsOf(pieces[1..]), rest, maxChars);
      case Oversized(row) =>
        MoreCut(TextOf(header), row, RowsOf(pieces[1..]), rest, maxChars);
    }
  }

  lemma {:induction false} MoreTogether(
    header: string, first: seq<string>, rows: seq<string>, texts: seq<string>, maxChars: nat)
    requires maxChars > 0 && first != [] && Shows(header, rows, texts, maxChars)
    ensures Shows(header, first + rows, [header + "\n" + TextOf(first)] + texts, maxChars)
  {
    var all, shown := first + rows, [header + "\n" + TextOf(first)] + texts;
    assert all[..|first|] == first && all[|first|..] == rows && shown[1..] == texts;
    assert ShowsTogether(header, all, shown, maxChars);
  }

  lemma {:induction false} MoreCut(header: string, row: string, rows: seq<string>, texts: seq<string>, maxChars: nat)
    requires maxChars > 0 && Shows(header, rows, texts, maxChars)
    ensures Shows(header, [row] + rows, PlainWindow(row, maxChars, 0) + texts, maxChars)
  {
    var windows := PlainWindow(row, maxChars, 0);
    var all, shown := [row] + rows, windows + texts;
    GlueWithoutOverlap(row, maxChars, 0);
    assert all[1..] == rows && shown[|windows|..] == texts;
    assert ShowsCut(header, all, shown, maxChars);
  }

  /**
   * Unless the header alone fills a chunk, the chunks of a table show its rows in order, each once;
   * a table without rows is its header.
   */
  lemma {:induction false} TableShowsItsRows(block: string, maxChars: nat)
    requires maxChars > 0 && |TableLines(block)| >= 2
    requires |TextOf(HeaderAndRows(block).0)| < maxChars
    ensures
      var (header, rows) := HeaderAndRows(block);
      if rows == [] then TableChunks(block, maxChars) == [TextOf(header)]
      else Shows(TextOf(header), rows, TableChunks(block, maxChars), maxChars)
  {
    var lines := TableLines(block);
    var (header, rows) := HeaderAndRows(block);
    var pieces := PackRows(header, rows, [], maxChars);
    RowsConserved(header, rows, [], maxChars);
    assert [] + rows == rows;
    PiecesGood(header, rows, [], maxChars);
    forall p | p in pieces && p.Rows? ensures p.rows != [] {
      assert GoodPiece(header, p, maxChars);
    }
    PiecesShow(header, pieces, maxChars);
    if rows != [] {
      NonblankPartsClean(SplitLines(block));
      assert rows[0] in lines && !IsSpace(rows[0][0]);
      ShownNotEmpty(TextOf(header), rows, AllChunks(header, pieces, maxChars), maxChars);
    }
  }

  lemma {:induction false} ShownNotEmpty(header: string, rows: seq<string>, texts: seq<string>, maxChars: nat)
    requires maxChars > 0 && rows != [] && !Blank(rows[0]) && Shows(header, rows, texts, maxChars)
    ensures texts != []
  {
    var windows := PlainWindow(rows[0], maxChars, 0);
    PlainWindowNonempty(rows[0], maxChars, 0);
    assert |windows| > 0;
    assert ShowsTogether(header, rows, texts, maxChars) || ShowsCut(header, rows, texts, maxChars);
    if ShowsCut(header, rows, texts, maxChars) {
      assert windows <= texts;
    }
  }
}
