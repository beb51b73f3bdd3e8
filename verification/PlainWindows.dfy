/**
 * Overlapping character windows: `_split_plain_window` (app/pipelines/chunking.py) and the variant
 * `_split_by_window` (app/rag/chunking.py).
 */
module PlainWindows {
  import opened Basics
  import opened Text

  /** The half-open range of positions one window covers. */
  datatype Span = Span(start: nat, end: nat)

  predicate GoodSizes(maxChars: int, overlapChars: int) {
    0 <= overlapChars < maxChars
  }

  /** The windows of a text of `length` characters, from `start` on. */
  function Spans(length: nat, maxChars: nat, overlapChars: nat, start: nat): seq<Span>
    requires GoodSizes(maxChars, overlapChars)
    decreases length - start
  {
    if start >= length then []
    else if start + maxChars >= length then [Span(start, length)]
    else [Span(start, start + maxChars)]
         + Spans(length, maxChars, overlapChars, Max(start + maxChars - overlapChars, start + 1))
  }

  /** The characters a span covers; none if it is not within the text. */
  function Window(text: string, s: Span): string {
    if s.start <= s.end <= |text| then text[s.start..s.end] else ""
  }

  ghost predicate Within(length: nat, spans: seq<Span>) {
    forall i :: 0 <= i < |spans| ==> spans[i].start < spans[i].end <= length
  }

  lemma {:induction false} SpansWithin(length: nat, maxChars: nat, overlapChars: nat, start: nat)
    requires GoodSizes(maxChars, overlapChars)
    ensures Within(length, Spans(length, maxChars, overlapChars, start))
    decreases length - start
  {
    if start + maxChars < length {
      SpansWithin(length, maxChars, overlapChars, Max(start + maxChars - overlapChars, start + 1));
    }
  }

  /** A window's piece: its stripped text, unless that is empty. */
  function Piece(window: string): seq<string> {
    var stripped := Strip(window);
    if stripped == "" then [] else [stripped]
  }

  /** The pieces of some windows of a text. */
  function Kept(text: string, spans: seq<Span>): seq<string> {
    if spans == [] then [] else Piece(Window(text, spans[0])) + Kept(text, spans[1..])
  }

  /** What `_split_plain_window` returns. */
  function PlainWindow(text: string, maxChars: nat, overlapChars: nat): seq<string>
    requires GoodSizes(maxChars, overlapChars)
  {
    Kept(text, Spans(|text|, maxChars, overlapChars, 0))
  }

  lemma {:induction false} KeptCons(text: string, s: Span, spans: seq<Span>, rest: seq<Span>)
    requires spans == [s] + rest
    ensures Kept(text, spans) == Piece(Window(text, s)) + Kept(text, rest)
  {
    assert spans[1..] == rest;
  }

  /** One step of the windows that is not the last. */
  lemma {:induction false} NextWindow(text: string, maxChars: nat, overlapChars: nat, start: nat) returns (next: nat)
    requires GoodSizes(maxChars, overlapChars) && start + maxChars < |text|
    ensures start < next == start + maxChars - overlapChars <= |text|
    ensures Kept(text, Spans(|text|, maxChars, overlapChars, start))
         == Piece(text[start..start + maxChars]) + Kept(text, Spans(|text|, maxChars, overlapChars, next))
  {
    next := start + maxChars - overlapChars;
    KeptCons(text, Span(start, start + maxChars), Spans(|text|, maxChars, overlapChars, start),
             Spans(|text|, maxChars, overlapChars, next));
  }

  /** The last window. */
  lemma {:induction false} LastWindow(text: string, maxChars: nat, overlapChars: nat, start: nat)
    requires GoodSizes(maxChars, overlapChars) && start < |text| <= start + maxChars
    ensures Kept(text, Spans(|text|, maxChars, overlapChars, start)) == Piece(text[start..|text|])
  {
    KeptCons(text, Span(start, |text|), Spans(|text|, maxChars, overlapChars, start), []);
  }

  method SplitPlainWindow(text: string, maxChars: nat, overlapChars: nat) returns (chunks: seq<string>)
    requires GoodSizes(maxChars, overlapChars)
    ensures chunks == PlainWindow(text, maxChars, overlapChars)
  {
    chunks := [];
    var start := 0;
    ghost var all := PlainWindow(text, maxChars, overlapChars);
    ghost var rest := all;
    while start < |text|
      invariant rest == Kept(text, Spans(|text|, maxChars, overlapChars, start))
      invariant chunks + rest == all
      decreases |text| - start
    {
      var end := Min(start + maxChars, |text|);
      var window := Strip(text[start..end]);
      ghost var piece := Piece(text[start..end]);
      ghost var before := chunks;
      if window != "" {
        chunks := chunks + [window];
      }
      assert chunks == before + piece;
      if end >= |text| {
        LastWindow(text, maxChars, overlapChars, start);
        break;
      }
      ghost var next := NextWindow(text, maxChars, overlapChars, start);
      rest := Kept(text, Spans(|text|, maxChars, overlapChars, next));
      SeqAssociative(before, piece, rest);
      start := Max(end - overlapChars, start + 1);
      assert start == next;
    }
  }

  // ---------- Shape ----------

  /**
   * The windows of a nonempty text: the first starts at the beginning, the last stops at the end,
   * all but the last are full, and each starts exactly `overlapChars` before its predecessor stops.
   */
  ghost predicate Tiles(spans: seq<Span>, start: nat, length: nat, maxChars: nat, overlapChars: nat) {
    && spans != [] && spans[0].start == start && spans[|spans| - 1].end == length
    && (forall i :: 0 <= i < |spans| ==> spans[i].start < spans[i].end <= spans[i].start + maxChars)
    && Chained(spans, maxChars, overlapChars)
  }

  ghost predicate Chained(spans: seq<Span>, maxChars: nat, overlapChars: nat) {
    |spans| >= 2 ==>
      && spans[0].end == spans[0].start + maxChars
      && spans[1].start == spans[0].end - overlapChars
      && Chained(spans[1..], maxChars, overlapChars)
  }

  lemma {:induction false} SpansTile(length: nat, maxChars: nat, overlapChars: nat, start: nat)
    requires GoodSizes(maxChars, overlapChars) && start < length
    ensures Tiles(Spans(length, maxChars, overlapChars, start), start, length, maxChars, overlapChars)
    decreases length - start
  {
    if start + maxChars < length {
      var next := start + maxChars - overlapChars;
      SpansTile(length, maxChars, overlapChars, next);
      TilesCons(Spans(length, maxChars, overlapChars, next), start, length, maxChars, overlapChars);
    }
  }

  lemma {:induction false} TilesCons(spans: seq<Span>, start: nat, length: nat, maxChars: nat, overlapChars: nat)
    requires GoodSizes(maxChars, overlapChars)
    requires Tiles(spans, start + maxChars - overlapChars, length, maxChars, overlapChars)
    ensures Tiles([Span(start, start + maxChars)] + spans, start, length, maxChars, overlapChars)
  {
    var all := [Span(start, start + maxChars)] + spans;
    assert all[1..] == spans && all[1] == spans[0];
    forall i | 0 <= i < |all| ensures all[i].start < all[i].end <= all[i].start + maxChars {
      if i > 0 {
        assert all[i] == spans[i - 1];
      }
    }
  }

  /** Every position from `start` on lies in a window. */
  lemma {:induction false} SpansCover(length: nat, maxChars: nat, overlapChars: nat, start: nat, p: nat)
    returns (i: nat)
    requires GoodSizes(maxChars, overlapChars) && start <= p < length
    ensures var spans := Spans(length, maxChars, overlapChars, start);
      i < |spans| && spans[i].start <= p < spans[i].end
    decreases length - start
  {
    if p < start + maxChars {
      i := 0;
    } else {
      i := SpansCover(length, maxChars, overlapChars, start + maxChars - overlapChars, p);
      i := i + 1;
    }
  }

  /** `q` is `a / b` rounded up. */
  ghost predicate IsCeiling(q: int, a: int, b: int) {
    (q - 1) * b < a <= q * b
  }

  /**
   * A nonempty text that fits has one window; a longer one has 1 + ceil((length - maxChars) /
   * (maxChars - overlapChars)), blank ones included.
   */
  lemma {:induction false} SpanCount(length: nat, maxChars: nat, overlapChars: nat, start: nat)
    requires GoodSizes(maxChars, overlapChars) && start < length
    ensures length - start <= maxChars ==> |Spans(length, maxChars, overlapChars, start)| == 1
    ensures length - start > maxChars ==>
      IsCeiling(|Spans(length, maxChars, overlapChars, start)| - 1, length - start - maxChars, maxChars - overlapChars)
    decreases length - start
  {
    if start + maxChars < length {
      var step := maxChars - overlapChars;
      SpanCount(length, maxChars, overlapChars, start + step);
      var more := |Spans(length, maxChars, overlapChars, start + step)|;
      assert |Spans(length, maxChars, overlapChars, start)| == 1 + more;
      assert (more - 1) * step + step == more * step;
      assert (more - 2) * step + step == (more - 1) * step;
    }
  }

  // ---------- What is kept ----------

  lemma {:induction false} KeptSizes(text: string, spans: seq<Span>, maxChars: nat)
    requires forall i :: 0 <= i < |spans| ==> spans[i].end <= spans[i].start + maxChars
    ensures forall c :: c in Kept(text, spans) ==> 0 < |c| <= maxChars
    ensures |Kept(text, spans)| <= |spans|
  {
    if spans != [] {
      StripSpec(Window(text, spans[0]));
      KeptSizes(text, spans[1..], maxChars);
    }
  }

  /** A window that is not blank is kept. */
  lemma {:induction false} KeptContains(text: string, spans: seq<Span>, i: nat)
    requires i < |spans| && !Blank(Window(text, spans[i]))
    ensures Strip(Window(text, spans[i])) in Kept(text, spans)
  {
    if i > 0 {
      KeptContains(text, spans[1..], i - 1);
    } else {
      StripSpec(Window(text, spans[0]));
    }
  }

  /**
   * Each piece is nonempty and at most `maxChars` long, and every position that is not white
   * space lies in a window whose stripped text is among the pieces.
   */
  lemma {:induction false} PlainWindowSpec(text: string, maxChars: nat, overlapChars: nat, p: nat)
    requires GoodSizes(maxChars, overlapChars)
    ensures forall c :: c in PlainWindow(text, maxChars, overlapChars) ==> 0 < |c| <= maxChars
    ensures p < |text| && !IsSpace(text[p]) ==>
      exists s :: s in Spans(|text|, maxChars, overlapChars, 0) && s.start <= p < s.end <= |text|
        && Strip(Window(text, s)) in PlainWindow(text, maxChars, overlapChars)
  {
    PlainWindowSizes(text, maxChars, overlapChars);
    if p < |text| && !IsSpace(text[p]) {
      var spans := Spans(|text|, maxChars, overlapChars, 0);
      var i := SpansCover(|text|, maxChars, overlapChars, 0, p);
      SpansWithin(|text|, maxChars, overlapChars, 0);
      WindowNotBlank(text, spans[i], p);
      KeptContains(text, spans, i);
    }
  }

  lemma {:induction false} PlainWindowSizes(text: string, maxChars: nat, overlapChars: nat)
    requires GoodSizes(maxChars, overlapChars)
    ensures forall c :: c in PlainWindow(text, maxChars, overlapChars) ==> 0 < |c| <= maxChars
  {
    if text != "" {
      SpansTile(|text|, maxChars, overlapChars, 0);
    }
    KeptSizes(text, Spans(|text|, maxChars, overlapChars, 0), maxChars);
  }

  lemma {:induction false} WindowNotBlank(text: string, s: Span, p: nat)
    requires s.start <= p < s.end <= |text| && !IsSpace(text[p])
    ensures !Blank(Window(text, s))
  {
    assert Window(text, s)[p - s.start] == text[p];
  }

  /** A text that is not blank gives at least one piece. */
  lemma {:induction false} PlainWindowNonempty(text: string, maxChars: nat, overlapChars: nat)
    requires GoodSizes(maxChars, overlapChars) && !Blank(text)
    ensures PlainWindow(text, maxChars, overlapChars) != []
  {
    var p :| 0 <= p < |text| && !IsSpace(text[p]);
    PlainWindowSpec(text, maxChars, overlapChars, p);
  }

  function Glue(text: string, spans: seq<Span>): string {
    if spans == [] then "" else Window(text, spans[0]) + Glue(text, spans[1..])
  }

  /** Without overlap, the windows before stripping, glued together, are the text. */
  lemma {:induction false} GlueWithoutOverlap(text: string, maxChars: nat, start: nat)
    requires maxChars > 0 && start <= |text|
    ensures Glue(text, Spans(|text|, maxChars, 0, start)) == text[start..]
    decreases |text| - start
  {
    var spans := Spans(|text|, maxChars, 0, start);
    if start + maxChars < |text| {
      GlueWithoutOverlap(text, maxChars, start + maxChars);
      assert spans[1..] == Spans(|text|, maxChars, 0, start + maxChars);
    } else if start < |text| {
      assert spans[1..] == [];
      assert Window(text, spans[0]) == text[start..];
    }
  }

  lemma {:induction false} SolidKept(text: string, spans: seq<Span>)
    ensures Solids(Kept(text, spans)) == Solid(Glue(text, spans))
  {
    if spans != [] {
      var window := Window(text, spans[0]);
      SolidKept(text, spans[1..]);
      SolidConcat(window, Glue(text, spans[1..]));
      SolidStrip(window);
      SolidsConcat(Piece(window), Kept(text, spans[1..]));
    }
  }

  /** Without overlap, the windows returned hold every character that is no white space, once, in order. */
  lemma {:induction false} WindowsConserve(text: string, maxChars: nat)
    requires maxChars > 0
    ensures Solids(PlainWindow(text, maxChars, 0)) == Solid(text)
  {
    SolidKept(text, Spans(|text|, maxChars, 0, 0));
    GlueWithoutOverlap(text, maxChars, 0);
    assert text[0..] == text;
  }

  // ---------- The variant that steps to the very end ----------

  function SteppedSpans(length: nat, maxChars: nat, step: nat, start: nat): seq<Span>
    requires step >= 1
    decreases length - start
  {
    if start >= length then []
    else [Span(start, Min(start + maxChars, length))] + SteppedSpans(length, maxChars, step, start + step)
  }

  /** What `_split_by_window` cuts from `start` on. */
  function SteppedWindows(text: string, maxChars: nat, step: nat, start: nat): seq<string>
    requires step >= 1
    decreases |text| - start
  {
    if start >= |text| then []
    else [Window(text, Span(start, Min(start + maxChars, |text|)))] + SteppedWindows(text, maxChars, step, start + step)
  }

  method SplitByWindow(text: string, maxChars: nat, overlapChars: nat) returns (windows: seq<string>)
    ensures windows == SteppedWindows(text, maxChars, Max(1, maxChars - overlapChars), 0)
  {
    var step := Max(1, maxChars - overlapChars);
    windows := [];
    var start := 0;
    while start < |text|
      invariant windows + SteppedWindows(text, maxChars, step, start) == SteppedWindows(text, maxChars, step, 0)
      decreases |text| - start
    {
      windows := windows + [text[start..Min(start + maxChars, |text|)]];
      start := start + step;
    }
  }

  lemma {:induction false} SteppedWindowsAreSpans(text: string, maxChars: nat, step: nat, start: nat)
    requires step >= 1
    ensures |SteppedWindows(text, maxChars, step, start)| == |SteppedSpans(|text|, maxChars, step, start)|
    ensures forall i :: 0 <= i < |SteppedSpans(|text|, maxChars, step, start)| ==>
      SteppedWindows(text, maxChars, step, start)[i] == Window(text, SteppedSpans(|text|, maxChars, step, start)[i])
    decreases |text| - start
  {
    if start < |text| {
      SteppedWindowsAreSpans(text, maxChars, step, start + step);
    }
  }

  /** The texts of some windows, blank and unstripped ones included. */
  function Texts(text: string, spans: seq<Span>): (windows: seq<string>)
    ensures |windows| == |spans|
    ensures forall i :: 0 <= i < |spans| ==> windows[i] == Window(text, spans[i])
  {
    seq(|spans|, i requires 0 <= i < |spans| => Window(text, spans[i]))
  }

  /** Every window starts at `start` or later and runs to the end of the text. */
  ghost predicate RunToEnd(spans: seq<Span>, start: nat, length: nat) {
    forall i :: 0 <= i < |spans| ==> start <= spans[i].start && spans[i].end == length
  }

  /**
   * Both algorithms cut the same windows, except that the stepping one goes on with windows that
   * lie inside the last one.
   */
  lemma {:induction false} SteppedExtendsPlain(length: nat, maxChars: nat, overlapChars: nat, start: nat)
    returns (extra: seq<Span>)
    requires GoodSizes(maxChars, overlapChars) && start < length
    ensures Spans(length, maxChars, overlapChars, start) != []
    ensures SteppedSpans(length, maxChars, maxChars - overlapChars, start)
         == Spans(length, maxChars, overlapChars, start) + extra
    ensures var plain := Spans(length, maxChars, overlapChars, start);
      plain[|plain| - 1].end == length && RunToEnd(extra, plain[|plain| - 1].start + 1, length)
    decreases length - start
  {
    var step := maxChars - overlapChars;
    if start + maxChars < length {
      extra := SteppedExtendsPlain(length, maxChars, overlapChars, start + step);
      OneMoreWindow(Spans(length, maxChars, overlapChars, start + step), extra,
                    SteppedSpans(length, maxChars, step, start + step), Span(start, start + maxChars));
      assert Spans(length, maxChars, overlapChars, start)
          == [Span(start, start + maxChars)] + Spans(length, maxChars, overlapChars, start + step);
      assert SteppedSpans(length, maxChars, step, start)
          == [Span(start, start + maxChars)] + SteppedSpans(length, maxChars, step, start + step);
    } else {
      extra := SteppedSpans(length, maxChars, step, start + step);
      SteppedTail(length, maxChars, step, start + step);
    }
  }

  /** `s` is what remains of `whole` without some of its first characters. */
  ghost predicate ProperEnd(s: string, whole: string) {
    |s| < |whole| && s == whole[|whole| - |s|..]
  }

  lemma {:induction false} LaterWindowIsEnd(text: string, last: Span, later: Span)
    requires last.start < later.start <= |text| && last.end == later.end == |text|
    ensures ProperEnd(Window(text, later), Window(text, last))
  {
    SliceOfSlice(text, last.start, |text|, later.start - last.start, |text| - last.start);
  }

  lemma {:induction false} TextsConcat(text: string, a: seq<Span>, b: seq<Span>)
    ensures Texts(text, a + b) == Texts(text, a) + Texts(text, b)
  {
  }

  /**
   * What the stepping method returns for a nonempty text: the windows the plain one cuts, before it
   * strips them, and then only ends of the last of these.
   */
  lemma {:induction false} SteppedReturnsPlain(
    text: string, maxChars: nat, overlapChars: nat) returns (extra: seq<string>)
    requires GoodSizes(maxChars, overlapChars) && text != ""
    ensures Spans(|text|, maxChars, overlapChars, 0) != []
    ensures
      var plain := Texts(text, Spans(|text|, maxChars, overlapChars, 0));
      && SteppedWindows(text, maxChars, Max(1, maxChars - overlapChars), 0) == plain + extra
      && forall i :: 0 <= i < |extra| ==> ProperEnd(extra[i], plain[|plain| - 1])
  {
    var step := maxChars - overlapChars;
    var spans := Spans(|text|, maxChars, overlapChars, 0);
    var more := SteppedExtendsPlain(|text|, maxChars, overlapChars, 0);
    extra := Texts(text, more);
    SteppedWindowsAreSpans(text, maxChars, step, 0);
    assert SteppedWindows(text, maxChars, step, 0) == Texts(text, spans + more);
    TextsConcat(text, spans, more);
    SteppedWithin(|text|, maxChars, step, 0);
    forall i | 0 <= i < |extra| ensures ProperEnd(extra[i], Window(text, spans[|spans| - 1])) {
      assert (spans + more)[|spans| + i] == more[i];
      LaterWindowIsEnd(text, spans[|spans| - 1], more[i]);
    }
  }

  lemma {:induction false} SteppedWithin(length: nat, maxChars: nat, step: nat, start: nat)
    requires step >= 1 && maxChars >= 1
    ensures Within(length, SteppedSpans(length, maxChars, step, start))
    decreases length - start
  {
    if start < length {
      SteppedWithin(length, maxChars, step, start + step);
    }
  }

  lemma {:induction false} OneMoreWindow(plain: seq<Span>, extra: seq<Span>, stepped: seq<Span>, first: Span)
    requires plain != [] && stepped == plain + extra
    ensures [first] + stepped == ([first] + plain) + extra
    ensures ([first] + plain)[|plain|] == plain[|plain| - 1]
  {
  }

  lemma {:induction false} SteppedTail(length: nat, maxChars: nat, step: nat, start: nat)
    requires step >= 1 && start + maxChars >= length
    ensures RunToEnd(SteppedSpans(length, maxChars, step, start), start, length)
    decreases length - start
  {
    if start < length {
      SteppedTail(length, maxChars, step, start + step);
    }
  }
}
