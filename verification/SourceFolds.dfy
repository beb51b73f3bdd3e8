/**
 * Reading a merged snippet back: when splitting gives the sections that were joined, and what that
 * means for folding many chunks of one document (app/rag/source_merge.py).
 */
module SourceFolds {
  import opened Basics
  import opened Text
  import opened Uuids
  import opened SourceMerge

  // ---------- Splitting undoes joining ----------

  /** The separator but for its closing blank line, which also opens it. */
  const LEAD := "\n\n" + CORE

  predicate EndsWith(s: string, tail: string) {
    |tail| <= |s| && s[|s| - |tail|..] == tail
  }

  /** The text's own end and the separator written behind it make a separator that starts too early. */
  predicate Straddles(p: string) {
    EndsWith(p, LEAD) || EndsWith(p, LEAD + "\n")
  }

  /** No part but the last straddles. */
  ghost predicate Separable(parts: seq<string>) {
    forall k :: 0 <= k < |parts| - 1 ==> !Straddles(parts[k])
  }

  lemma {:induction false} SeparatorShape()
    ensures |CORE| == 21 && |LEAD| == 23 && |SEPARATOR| == 25
    ensures SEPARATOR == LEAD + "\n\n"
    ensures SEPARATOR[0] == SEPARATOR[1] == SEPARATOR[23] == SEPARATOR[24] == '\n'
    ensures forall k :: 2 <= k < 23 ==> SEPARATOR[k] != '\n'
  {
  }

  /** Only its first one or two characters also end the separator. */
  lemma {:induction false} SeparatorBorders(d: nat)
    requires 0 < d < 25 && SEPARATOR[d..] == SEPARATOR[..25 - d]
    ensures d == 23 || d == 24
  {
    SeparatorShape();
    assert SEPARATOR[1..][1] == SEPARATOR[2] && SEPARATOR[..24][1] == SEPARATOR[1];
    assert SEPARATOR[d] == SEPARATOR[d..][0] == SEPARATOR[0];
  }

  /** A separator in front of the one that follows `p` straddles the end of `p`. */
  lemma {:induction false} EarlySeparator(p: string, rest: string, i: nat)
    requires FreeOf(p, SEPARATOR) && i < |p| && OccursAt(p + SEPARATOR + rest, SEPARATOR, i)
    ensures Straddles(p) && (|p| - i == 23 || |p| - i == 24)
  {
    var text := p + SEPARATOR + rest;
    SeparatorShape();
    assert text[0..|p|] == p;
    if i + 25 <= |p| {
      OccursInSlice(text, SEPARATOR, 0, |p|, i);
    } else {
      var d := |p| - i;
      assert SEPARATOR[d..] == text[i..i + 25][d..] == text[|p|..i + 25] == SEPARATOR[..25 - d];
      SeparatorBorders(d);
      assert p[i..] == text[i..i + 25][..d] == SEPARATOR[..d];
      assert SEPARATOR[..23] == LEAD && SEPARATOR[..24] == LEAD + "\n";
    }
  }

  lemma {:induction false} OccursAcross(p: string, sep: string, rest: string, d: nat)
    requires d <= |p| && d <= |sep|
    requires p[|p| - d..] == sep[..d] && sep[d..] == sep[..|sep| - d]
    ensures OccursAt(p + sep + rest, sep, |p| - d)
  {
    var text, i := p + sep + rest, |p| - d;
    assert text[i..i + |sep|] == p[i..] + sep[..|sep| - d] == sep[..d] + sep[d..] == sep;
  }

  lemma {:induction false} StraddlingSeparator(p: string, rest: string)
    requires Straddles(p)
    ensures exists i: nat :: i < |p| && OccursAt(p + SEPARATOR + rest, SEPARATOR, i)
  {
    SeparatorShape();
    assert SEPARATOR[..23] == LEAD && SEPARATOR[23..] == SEPARATOR[..2];
    assert SEPARATOR[..24] == LEAD + "\n" && SEPARATOR[24..] == SEPARATOR[..1];
    OccursAcross(p, SEPARATOR, rest, if EndsWith(p, LEAD) then 23 else 24);
  }

  /** The first separator is the one that follows `p` just when `p` does not straddle. */
  lemma {:induction false} FirstSeparator(p: string, rest: string)
    requires FreeOf(p, SEPARATOR)
    ensures FindFrom(p + SEPARATOR + rest, SEPARATOR, 0) <= |p|
    ensures FindFrom(p + SEPARATOR + rest, SEPARATOR, 0) == |p| <==> !Straddles(p)
  {
    var text := p + SEPARATOR + rest;
    var found := FindFrom(text, SEPARATOR, 0);
    assert text[|p|..|p| + |SEPARATOR|] == SEPARATOR;
    assert OccursAt(text, SEPARATOR, |p|);
    if found < |p| {
      EarlySeparator(p, rest, found);
    }
    if Straddles(p) {
      StraddlingSeparator(p, rest);
    }
  }

  lemma {:induction false} SplitAtFirst(p: string, rest: string)
    requires FreeOf(p, SEPARATOR)
    ensures !Straddles(p) ==> Split(p + SEPARATOR + rest, SEPARATOR) == [p] + Split(rest, SEPARATOR)
    ensures Straddles(p) ==> Split(p + SEPARATOR + rest, SEPARATOR)[0] != p
  {
    var text := p + SEPARATOR + rest;
    var found := FindFrom(text, SEPARATOR, 0);
    FirstSeparator(p, rest);
    assert text[..|p|] == p && text[|p| + |SEPARATOR|..] == rest;
    assert Split(text, SEPARATOR)[0] == text[..found];
  }

  lemma {:induction false} SplitAlone(p: string)
    requires FreeOf(p, SEPARATOR)
    ensures Split(p, SEPARATOR) == [p]
  {
  }

  lemma {:induction false} SeparableCons(first: string, rest: seq<string>)
    requires rest != []
    ensures Separable([first] + rest) <==> !Straddles(first) && Separable(rest)
  {
    var all := [first] + rest;
    if Separable(all) {
      assert !Straddles(all[0]);
      forall k | 0 <= k < |rest| - 1 ensures !Straddles(rest[k]) {
        assert all[k + 1] == rest[k];
      }
    }
  }

  /** Splitting a joined text gives back its parts if and only if they are separable. */
  lemma {:induction false} SplitUndoesJoin(parts: seq<string>)
    requires parts != [] && forall p :: p in parts ==> FreeOf(p, SEPARATOR)
    ensures Split(Join(parts, SEPARATOR), SEPARATOR) == parts <==> Separable(parts)
  {
    var first, rest := parts[0], parts[1..];
    assert first in parts && parts == [first] + rest;
    if rest == [] {
      SplitAlone(first);
    } else {
      SplitUndoesJoin(rest);
      SplitAtFirst(first, Join(rest, SEPARATOR));
      SeparableCons(first, rest);
      if !Straddles(first) {
        assert ([first] + Split(Join(rest, SEPARATOR), SEPARATOR))[1..] == Split(Join(rest, SEPARATOR), SEPARATOR);
      }
    }
  }

  // ---------- One merge ----------

  lemma {:induction false} SectionFree(s: string, snippet: string)
    requires SectionIn(s, snippet)
    ensures FreeOf(s, SEPARATOR)
  {
    var part :| part in Split(snippet, SEPARATOR) && s == Strip(part);
    SplitPartsFree(snippet, SEPARATOR);
    var lo, hi := StripIsSlice(part);
    SliceFreeOf(part, SEPARATOR, lo, hi);
  }

  lemma {:induction false} MergedSectionsFree(primary: string, additional: string)
    ensures forall p :: p in MergedSections(primary, additional) ==> FreeOf(p, SEPARATOR)
  {
    var parts := MergedSections(primary, additional);
    forall p | p in parts ensures FreeOf(p, SEPARATOR) {
      var k :| 0 <= k < |parts| && parts[k] == p;
      var s := MergedSectionsSpec(primary, additional, k);
      SectionFree(s, if SectionIn(s, primary) then primary else additional);
      assert p == s[0..|p|];
      SliceFreeOf(s, SEPARATOR, 0, |p|);
    }
  }

  /**
   * The next merge reads the sections that this one wrote if and only if none of them but the last
   * ends in the separator's opening half.
   */
  lemma {:induction false} MergedSectionsReadBack(primary: string, additional: string)
    requires MergedSections(primary, additional) != []
    ensures Split(MergedSnippet(primary, additional), SEPARATOR) == MergedSections(primary, additional)
       <==> Separable(MergedSections(primary, additional))
  {
    MergedSectionsFree(primary, additional);
    SliceNeverCuts(primary, additional);
    SplitUndoesJoin(MergedSections(primary, additional));
  }

  /** The section `s` is a prefix of a section of some of the sources. */
  ghost predicate PrefixOfInput(s: string, sources: seq<ChatSource>) {
    exists i, t :: 0 <= i < |sources| && SectionIn(t, sources[i].snippet) && s <= t
  }

  /** Stripping a prefix of a section only shortens it at the end. */
  lemma {:induction false} StripPrefix(p: string, t: string)
    requires p <= t && t != "" && !IsSpace(t[0])
    ensures Strip(p) <= t
  {
    StripRightSpec(p);
  }

  lemma {:induction false} SectionStart(s: string, snippet: string)
    requires SectionIn(s, snippet)
    ensures !IsSpace(s[0])
  {
    var part :| part in Split(snippet, SEPARATOR) && s == Strip(part);
    StripSpec(part);
  }

  lemma {:induction false} EmptyHasNoSection(s: string)
    ensures !SectionIn(s, "")
  {
    assert Split("", SEPARATOR) == [""];
  }

  /** A section read from a merged snippet is a prefix of a section of the two it was merged from. */
  lemma {:induction false} SectionOfMerged(s: string, primary: string, additional: string) returns (t: string)
    requires Separable(MergedSections(primary, additional))
    requires SectionIn(s, MergedSnippet(primary, additional))
    ensures SectionIn(t, primary) || SectionIn(t, additional)
    ensures s <= t
  {
    var parts := MergedSections(primary, additional);
    if parts == [] {
      EmptyHasNoSection(s);
    } else {
      MergedSectionsReadBack(primary, additional);
    }
    var part :| part in Split(MergedSnippet(primary, additional), SEPARATOR) && s == Strip(part);
    var k :| 0 <= k < |parts| && parts[k] == part;
    t := MergedSectionsSpec(primary, additional, k);
    SectionStart(t, if SectionIn(t, primary) then primary else additional);
    StripPrefix(part, t);
  }

  // ---------- Folding many sources ----------

  /** Merging sources into the first, one after the other. */
  function Fold(sources: seq<ChatSource>): ChatSource
    requires sources != []
  {
    if |sources| == 1 then sources[0]
    else Merged(Fold(sources[..|sources| - 1]), sources[|sources| - 1])
  }

  ghost predicate SameDocument(sources: seq<ChatSource>, d: Uuid) {
    sources != [] && forall i :: 0 <= i < |sources| ==> sources[i].resourceId == d
  }

  lemma {:induction false} FoldKeeps(sources: seq<ChatSource>, d: Uuid)
    requires SameDocument(sources, d)
    ensures Fold(sources).resourceId == d
    ensures Fold(sources).sourceType == sources[0].sourceType && Fold(sources).title == sources[0].title
    ensures sources[0].score <= Fold(sources).score
  {
    if |sources| > 1 {
      FoldKeeps(sources[..|sources| - 1], d);
    }
  }

  ghost predicate IsBestScore(best: real, sources: seq<ChatSource>) {
    && (forall i :: 0 <= i < |sources| ==> sources[i].score <= best)
    && (exists i :: 0 <= i < |sources| && sources[i].score == best)
  }

  lemma {:induction false} BestOfMore(best: real, sources: seq<ChatSource>, last: ChatSource)
    requires IsBestScore(best, sources)
    ensures IsBestScore(BestScore(best, last.score), sources + [last])
  {
    var all := sources + [last];
    var i :| 0 <= i < |sources| && sources[i].score == best;
    assert all[i].score == best && all[|sources|] == last;
  }

  /** Folding takes the best score. */
  lemma {:induction false} FoldScore(sources: seq<ChatSource>)
    requires sources != []
    ensures IsBestScore(Fold(sources).score, sources)
  {
    if |sources| == 1 {
      assert sources[0].score == Fold(sources).score;
    } else {
      var n := |sources| - 1;
      FoldScore(sources[..n]);
      BestOfMore(Fold(sources[..n]).score, sources[..n], sources[n]);
      assert sources[..n] + [sources[n]] == sources;
    }
  }

  /** The result of at least one merge keeps the limits on characters and sections. */
  lemma {:induction false} FoldLimits(sources: seq<ChatSource>)
    requires |sources| > 1
    ensures
      var before, last := Fold(sources[..|sources| - 1]), sources[|sources| - 1];
      && Fold(sources).snippet == Join(MergedSections(before.snippet, last.snippet), SEPARATOR)
      && |Fold(sources).snippet| <= MAX_SNIPPET_CHARS
      && |MergedSections(before.snippet, last.snippet)| <= MAX_SECTIONS
  {
    SliceNeverCuts(Fold(sources[..|sources| - 1]).snippet, sources[|sources| - 1].snippet);
  }

  /** The sections the last merge of a fold wrote. */
  function LastSections(sources: seq<ChatSource>): seq<string>
    requires |sources| > 1
  {
    MergedSections(Fold(sources[..|sources| - 1]).snippet, sources[|sources| - 1].snippet)
  }

  /** Every merge of the fold wrote sections the next one reads back. */
  ghost predicate FoldsSeparably(sources: seq<ChatSource>) {
    |sources| > 1 ==> FoldsSeparably(sources[..|sources| - 1]) && Separable(LastSections(sources))
  }

  /** Splitting a folded snippet gives the sections of its last merge, at most six, just when these are separable. */
  lemma {:induction false} FoldParts(sources: seq<ChatSource>)
    requires |sources| > 1
    ensures LastSections(sources) != [] ==>
      (Split(Fold(sources).snippet, SEPARATOR) == LastSections(sources) <==> Separable(LastSections(sources)))
    ensures Separable(LastSections(sources)) ==> |Split(Fold(sources).snippet, SEPARATOR)| <= MAX_SECTIONS
  {
    var n := |sources| - 1;
    var before, last := Fold(sources[..n]).snippet, sources[n].snippet;
    FoldLimits(sources);
    if MergedSections(before, last) == [] {
      assert Split("", SEPARATOR) == [""];
    } else {
      MergedSectionsReadBack(before, last);
    }
  }

  /** One step back from a section of a fold. */
  lemma {:induction false} SectionOfFold(sources: seq<ChatSource>, s: string) returns (t: string)
    requires |sources| > 1 && Separable(LastSections(sources))
    requires SectionIn(s, Fold(sources).snippet)
    ensures s <= t
    ensures
      || SectionIn(t, Fold(sources[..|sources| - 1]).snippet)
      || SectionIn(t, sources[|sources| - 1].snippet)
  {
    t := SectionOfMerged(s, Fold(sources[..|sources| - 1]).snippet, sources[|sources| - 1].snippet);
  }

  /**
   * However many sources are folded, every section of the result is a prefix of a section of one
   * of them, when every merge on the way wrote sections that are read back.
   */
  lemma {:induction false} FoldSections(sources: seq<ChatSource>, s: string)
    requires sources != [] && FoldsSeparably(sources)
    requires SectionIn(s, Fold(sources).snippet)
    ensures PrefixOfInput(s, sources)
    decreases |sources|
  {
    var n := |sources| - 1;
    if n == 0 {
      PrefixOfOne(s, s, sources, 0);
    } else {
      var t := SectionOfFold(sources, s);
      if SectionIn(t, sources[n].snippet) {
        PrefixOfOne(s, t, sources, n);
      } else {
        FoldSections(sources[..n], t);
        PrefixOfMore(s, t, sources[..n], sources);
      }
    }
  }

  lemma {:induction false} PrefixOfOne(s: string, t: string, sources: seq<ChatSource>, i: nat)
    requires i < |sources| && SectionIn(t, sources[i].snippet) && s <= t
    ensures PrefixOfInput(s, sources)
  {
  }

  lemma {:induction false} PrefixOfMore(s: string, t: string, fewer: seq<ChatSource>, sources: seq<ChatSource>)
    requires PrefixOfInput(t, fewer) && s <= t && fewer <= sources
    ensures PrefixOfInput(s, sources)
  {
    var i, u :| 0 <= i < |fewer| && SectionIn(u, fewer[i].snippet) && t <= u;
    PrefixOfOne(s, u, sources, i);
  }

  // ---------- What a fold shows that is not read back ----------

  /** Stripping leaves the separator's text at the start of a part, with or without a line break before it. */
  lemma {:induction false} StripKeepsCore(s: string)
    requires CORE <= s
    ensures CORE <= Strip(s) && Strip("\n" + s) == Strip(s)
  {
    SeparatorShape();
    assert s[0] == CORE[0] && s[20] == CORE[20];
    StripRightSpec(s);
    assert StripLeft(s) == s;
    assert ("\n" + s)[1..] == s;
  }

  lemma {:induction false} SeparatorStartsWithBreaks(s: string, i: nat)
    requires i < |s| && (s[i] != '\n' || (i + 1 < |s| && s[i + 1] != '\n'))
    ensures !OccursAt(s, SEPARATOR, i)
  {
    SeparatorShape();
    if i + 25 <= |s| {
      assert s[i..i + 25][0] == s[i] && s[i..i + 25][1] == s[i + 1];
    }
  }

  lemma {:induction false} CoreHasNoBreak(s: string, start: nat, i: nat)
    requires start + 21 <= |s| && s[start..start + 21] == CORE && start <= i < start + 21
    ensures s[i] != '\n'
  {
    SeparatorShape();
    assert s[i] == s[start..start + 21][i - start] == SEPARATOR[i - start + 2];
  }

  /** Where a text starts with the separator's text, no separator stands before the end of that. */
  lemma {:induction false} CoreIsFirst(tail: string)
    requires CORE <= tail
    ensures CORE <= Split(tail, SEPARATOR)[0]
  {
    forall i: nat | i < 21 ensures !OccursAt(tail, SEPARATOR, i) {
      CoreHasNoBreak(tail, 0, i);
      SeparatorStartsWithBreaks(tail, i);
    }
    assert FindFrom(tail, SEPARATOR, 0) >= 21;
  }

  lemma {:induction false} LateCoreIsFirst(tail: string)
    requires CORE <= tail
    ensures "\n" + CORE <= Split("\n" + tail, SEPARATOR)[0]
  {
    var late := "\n" + tail;
    assert late[1..22] == CORE;
    forall i: nat | i < 22 ensures !OccursAt(late, SEPARATOR, i) {
      CoreHasNoBreak(late, 1, if i == 0 then 1 else i);
      SeparatorStartsWithBreaks(late, i);
    }
    assert FindFrom(late, SEPARATOR, 0) >= 22;
  }

  /** What stands behind a separator that starts 23 or 24 characters before the end of `p`. */
  lemma {:induction false} BehindEarly(p: string, rest: string, d: nat)
    requires d <= |p| && (d == 23 || d == 24)
    ensures (p + SEPARATOR + rest)[|p| - d + 25..] == (if d == 23 then "" else "\n") + (CORE + "\n\n" + rest)
  {
    var behind := SEPARATOR[25 - d..];
    assert behind == (if d == 23 then "" else "\n") + (CORE + "\n\n");
    assert (p + SEPARATOR + rest)[|p| - d + 25..] == behind + rest;
  }

  /** The part behind a separator that was found too early starts with the separator's text. */
  lemma {:induction false} EarlySplit(p: string, rest: string)
    requires FreeOf(p, SEPARATOR) && Straddles(p)
    ensures |Split(p + SEPARATOR + rest, SEPARATOR)| > 1
    ensures CORE <= Strip(Split(p + SEPARATOR + rest, SEPARATOR)[1])
  {
    hide Straddles, Strip, FreeOf;
    var text, tail := p + SEPARATOR + rest, CORE + "\n\n" + rest;
    var found := FindFrom(text, SEPARATOR, 0);
    FirstSeparator(p, rest);
    EarlySeparator(p, rest, found);
    BehindEarly(p, rest, |p| - found);
    if |p| - found == 23 {
      assert "" + tail == tail;
      CoreIsFirst(tail);
      StripKeepsCore(Split(tail, SEPARATOR)[0]);
    } else {
      LateCoreIsFirst(tail);
      LateCore(Split("\n" + tail, SEPARATOR)[0]);
    }
  }

  lemma {:induction false} LateCore(s: string)
    requires "\n" + CORE <= s
    ensures CORE <= Strip(s)
  {
    assert s == "\n" + s[1..] && s[1..][..21] == s[1..22] == CORE;
    StripKeepsCore(s[1..]);
  }

  ghost predicate SomeStartsWithCore(parts: seq<string>) {
    exists k :: 0 <= k < |parts| && CORE <= parts[k]
  }

  /** One of the first `n` parts of the snippet starts with the separator's text. */
  ghost predicate ShowsCore(snippet: string, n: nat) {
    var parts := Split(snippet, SEPARATOR);
    exists k :: 0 <= k < Min(n, |parts|) && CORE <= Strip(parts[k])
  }

  lemma {:induction false} ShowsCoreAt(snippet: string, n: nat, k: nat)
    requires k < Min(n, |Split(snippet, SEPARATOR)|) && CORE <= Strip(Split(snippet, SEPARATOR)[k])
    ensures ShowsCore(snippet, n)
  {
  }

  lemma {:induction false} JoinShowsCore(parts: seq<string>)
    requires parts != [] && forall p :: p in parts ==> FreeOf(p, SEPARATOR)
    requires SomeStartsWithCore(parts) || !Separable(parts)
    ensures ShowsCore(Join(parts, SEPARATOR), |parts|)
  {
    var first, rest, all := parts[0], parts[1..], Join(parts, SEPARATOR);
    assert first in parts && parts == [first] + rest;
    if rest == [] {
      SplitAlone(first);
      StripKeepsCore(first);
      ShowsCoreAt(all, 1, 0);
    } else if Straddles(first) {
      EarlySplit(first, Join(rest, SEPARATOR));
      ShowsCoreAt(all, |parts|, 1);
    } else {
      SplitAtFirst(first, Join(rest, SEPARATOR));
      SeparableCons(first, rest);
      if CORE <= first {
        StripKeepsCore(first);
        ShowsCoreAt(all, |parts|, 0);
      } else {
        if SomeStartsWithCore(parts) {
          var k :| 0 <= k < |parts| && CORE <= parts[k];
          assert rest[k - 1] == parts[k];
        }
        JoinShowsCore(rest);
        LaterShowsCore(first, rest);
      }
    }
  }

  lemma {:induction false} LaterShowsCore(first: string, rest: seq<string>)
    requires rest != [] && ShowsCore(Join(rest, SEPARATOR), |rest|)
    requires Split(Join([first] + rest, SEPARATOR), SEPARATOR) == [first] + Split(Join(rest, SEPARATOR), SEPARATOR)
    ensures ShowsCore(Join([first] + rest, SEPARATOR), |rest| + 1)
  {
    var later := Split(Join(rest, SEPARATOR), SEPARATOR);
    var k :| 0 <= k < Min(|rest|, |later|) && CORE <= Strip(later[k]);
    assert ([first] + later)[k + 1] == later[k];
    ShowsCoreAt(Join([first] + rest, SEPARATOR), |rest| + 1, k + 1);
  }

  /** A part's section stands no later in the list than the part did. */
  lemma {:induction false} SectionKeepsPlace(sections: seq<string>, parts: seq<string>, i: nat) returns (k: nat)
    requires i < |parts| && Strip(parts[i]) != ""
    ensures k <= |sections| + i && k < |AddSections(sections, parts)|
    ensures AddSections(sections, parts)[k] == Strip(parts[i])
    decreases |parts|
  {
    var s := Strip(parts[i]);
    var next := WithSection(sections, Strip(parts[0]));
    if i == 0 {
      assert s in next;
      k :| 0 <= k < |next| && next[k] == s;
      AddSectionsSpec(next, parts[1..], s);
    } else {
      k := SectionKeepsPlace(next, parts[1..], i - 1);
    }
  }

  /** What one of the first six parts of a snippet shows, every merge into it keeps. */
  lemma {:induction false} MergeKeepsCore(primary: string, additional: string)
    requires ShowsCore(primary, MAX_SECTIONS)
    ensures SomeStartsWithCore(MergedSections(primary, additional))
  {
    var parts, sections := Split(primary, SEPARATOR), SectionsOf(primary, additional);
    var i :| 0 <= i < Min(MAX_SECTIONS, |parts|) && CORE <= Strip(parts[i]);
    var k := SectionKeepsPlace([], parts, i);
    SectionsOfSpec(primary, additional, "");
    SectionLimitFits(|FirstSections(sections)|);
    assert MergedSections(primary, additional)[k] == Cut(sections[k], SectionLimit(|FirstSections(sections)|));
    assert CORE <= MergedSections(primary, additional)[k];
  }

  lemma {:induction false} MergeShowsCore(primary: string, additional: string)
    requires ShowsCore(primary, MAX_SECTIONS) || !Separable(MergedSections(primary, additional))
    ensures ShowsCore(MergedSnippet(primary, additional), MAX_SECTIONS)
  {
    var parts := MergedSections(primary, additional);
    if ShowsCore(primary, MAX_SECTIONS) {
      MergeKeepsCore(primary, additional);
    }
    MergedSectionsFree(primary, additional);
    SliceNeverCuts(primary, additional);
    JoinShowsCore(parts);
    var read := Split(MergedSnippet(primary, additional), SEPARATOR);
    var k :| 0 <= k < Min(|parts|, |read|) && CORE <= Strip(read[k]);
    ShowsCoreAt(MergedSnippet(primary, additional), MAX_SECTIONS, k);
  }

  lemma {:induction false} UnseparableFoldShowsCore(sources: seq<ChatSource>)
    requires sources != [] && !FoldsSeparably(sources)
    ensures ShowsCore(Fold(sources).snippet, MAX_SECTIONS)
  {
    var n := |sources| - 1;
    if !FoldsSeparably(sources[..n]) {
      UnseparableFoldShowsCore(sources[..n]);
    }
    MergeShowsCore(Fold(sources[..n]).snippet, sources[n].snippet);
  }

  /**
   * When no section of any source starts with the separator's text, every section of a fold is a
   * prefix of a section of one of the sources if and only if every merge on the way wrote sections
   * that are read back.
   */
  lemma {:induction false} FoldSectionsIff(sources: seq<ChatSource>)
    requires sources != []
    requires forall i, s :: 0 <= i < |sources| && SectionIn(s, sources[i].snippet) ==> !(CORE <= s)
    ensures FoldsSeparably(sources) <==>
      forall s :: SectionIn(s, Fold(sources).snippet) ==> PrefixOfInput(s, sources)
  {
    if FoldsSeparably(sources) {
      forall s | SectionIn(s, Fold(sources).snippet) ensures PrefixOfInput(s, sources) {
        FoldSections(sources, s);
      }
    } else {
      UnseparableFoldShowsCore(sources);
      var parts := Split(Fold(sources).snippet, SEPARATOR);
      var k :| 0 <= k < Min(MAX_SECTIONS, |parts|) && CORE <= Strip(parts[k]);
      var s := Strip(parts[k]);
      assert SectionIn(s, Fold(sources).snippet) && !PrefixOfInput(s, sources);
    }
  }

  // ---------- A condition on the inputs ----------

  /** No section of the snippet contains the separator's opening half. */
  ghost predicate LeadFree(snippet: string) {
    forall s :: SectionIn(s, snippet) ==> FreeOf(s, LEAD)
  }

  lemma {:induction false} FreeDoesNotStraddle(p: string)
    requires FreeOf(p, LEAD)
    ensures !Straddles(p)
  {
    if EndsWith(p, LEAD) {
      assert OccursAt(p, LEAD, |p| - |LEAD|);
    }
    if EndsWith(p, LEAD + "\n") {
      var i := |p| - |LEAD| - 1;
      assert p[i..i + |LEAD|] == p[i..][..|LEAD|] == (LEAD + "\n")[..|LEAD|] == LEAD;
      assert OccursAt(p, LEAD, i);
    }
  }

  lemma {:induction false} PrefixFree(p: string, s: string)
    requires p <= s && FreeOf(s, LEAD)
    ensures FreeOf(p, LEAD)
  {
    assert p == s[0..|p|];
    SliceFreeOf(s, LEAD, 0, |p|);
  }

  lemma {:induction false} MergedLeadFree(primary: string, additional: string)
    requires LeadFree(primary) && LeadFree(additional)
    ensures Separable(MergedSections(primary, additional))
    ensures LeadFree(MergedSnippet(primary, additional))
  {
    var parts := MergedSections(primary, additional);
    forall k | 0 <= k < |parts| ensures !Straddles(parts[k]) {
      var s := MergedSectionsSpec(primary, additional, k);
      PrefixFree(parts[k], s);
      FreeDoesNotStraddle(parts[k]);
    }
    forall s | SectionIn(s, MergedSnippet(primary, additional)) ensures FreeOf(s, LEAD) {
      var t := SectionOfMerged(s, primary, additional);
      PrefixFree(s, t);
    }
  }

  /** Snippets whose sections do not contain the separator's opening half fold separably. */
  lemma {:induction false} LeadFreeFolds(sources: seq<ChatSource>)
    requires sources != [] && forall i :: 0 <= i < |sources| ==> LeadFree(sources[i].snippet)
    ensures FoldsSeparably(sources)
    ensures LeadFree(Fold(sources).snippet)
  {
    if |sources| > 1 {
      var n := |sources| - 1;
      LeadFreeFolds(sources[..n]);
      MergedLeadFree(Fold(sources[..n]).snippet, sources[n].snippet);
    }
  }

  // ---------- A fold that does not ----------

  lemma {:induction false} CleanAlone(s: string)
    requires Clean(s) && |s| < |SEPARATOR|
    ensures Split(s, SEPARATOR) == [s] && Strip(s) == s
  {
    SplitAlone(s);
  }

  /** The two sections of the example are joined, and then cut one separator too early. */
  lemma {:induction false} ExampleSections(primary: string, additional: string)
    requires primary == "a" + LEAD && additional == "b"
    ensures MergedSections(primary, additional) == [primary, additional]
    ensures MergedSnippet(primary, additional) == primary + SEPARATOR + additional
  {
    SeparatorShape();
    CleanAlone(primary);
    CleanAlone(additional);
    assert AddSections([], [primary]) == [primary] by {
      assert [primary][1..] == [];
    }
    assert AddSections([primary], [additional]) == [primary, additional] by {
      assert [additional][1..] == [];
    }
    var sections := [primary, additional];
    assert SectionLimit(2) == 987;
    assert forall i :: 0 <= i < 2 ==> Cut(sections[i], 987) == sections[i];
    assert CutAll(sections, 987) == sections;
    SliceNeverCuts(primary, additional);
    assert sections[1..] == [additional];
  }

  lemma {:induction false} ExampleSplit()
    ensures Split("a" + LEAD + SEPARATOR + "b", SEPARATOR) == ["a", CORE + "\n\n" + "b"]
    ensures Strip(CORE + "\n\n" + "b") == CORE + "\n\n" + "b"
  {
    var odd := CORE + "\n\n" + "b";
    SeparatorShape();
    assert "a" + LEAD + SEPARATOR + "b" == "a" + SEPARATOR + odd;
    CleanAlone("a");
    CleanAlone(odd);
    SplitAtFirst("a", odd);
  }

  /**
   * A chunk that ends in the separator's opening half makes the next merge read a section that no
   * chunk has: the separator written behind it is found one blank line too early.
   */
  lemma {:induction false} StraddlingFold(x: ChatSource, y: ChatSource)
    requires x.snippet == "a" + LEAD && y.snippet == "b"
    ensures Split(Fold([x, y]).snippet, SEPARATOR) == ["a", CORE + "\n\n" + "b"]
    ensures SectionIn(CORE + "\n\n" + "b", Fold([x, y]).snippet)
    ensures !PrefixOfInput(CORE + "\n\n" + "b", [x, y])
  {
    var odd := CORE + "\n\n" + "b";
    ExampleSections(x.snippet, y.snippet);
    assert [x, y][..1] == [x];
    ExampleSplit();
    assert ["a", odd][1] == odd;
    forall i, t | 0 <= i < 2 && SectionIn(t, [x, y][i].snippet) ensures !(odd <= t) {
      CleanAlone(x.snippet);
      CleanAlone(y.snippet);
    }
  }
}
