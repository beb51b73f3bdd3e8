/** Merging the chunks found of one document into one source (app/rag/source_merge.py). */
module SourceMerge {
  import opened Basics
  import opened Text
  import opened Uuids

  datatype ChatSource = ChatSource(
    sourceType: string, resourceId: Uuid, title: string, snippet: string, score: real)

  /** The `ValueError` for sources of two documents. */
  datatype MergeError = DifferentResources

  const MAX_SNIPPET_CHARS := 2_000
  const MAX_SECTIONS := 6
  const CORE := "--- related chunk ---"
  const SEPARATOR := "\n\n" + CORE + "\n\n"

  function BestScore(a: real, b: real): real {
    if a >= b then a else b
  }

  // ---------- Sections ----------

  /** The loop over the parts of one snippet. */
  function AddSections(sections: seq<string>, parts: seq<string>): seq<string>
    decreases |parts|
  {
    if parts == [] then sections
    else AddSections(WithSection(sections, Strip(parts[0])), parts[1..])
  }

  function WithSection(sections: seq<string>, normalized: string): seq<string> {
    if normalized == "" || normalized in sections then sections else sections + [normalized]
  }

  function SectionsOf(primary: string, additional: string): seq<string> {
    AddSections(AddSections([], Split(primary, SEPARATOR)), Split(additional, SEPARATOR))
  }

  function FirstSections(sections: seq<string>): seq<string> {
    sections[..Min(MAX_SECTIONS, |sections|)]
  }

  /** The characters each of `n` sections may take. */
  function SectionLimit(n: nat): int {
    Max(1, (MAX_SNIPPET_CHARS - |SEPARATOR| * Max(0, n - 1)) / Max(1, n))
  }

  function Cut(section: string, limit: nat): string {
    section[..Min(limit, |section|)]
  }

  function CutAll(sections: seq<string>, limit: nat): (cut: seq<string>)
    ensures |cut| == |sections|
    ensures forall i :: 0 <= i < |sections| ==> cut[i] == Cut(sections[i], limit)
  {
    seq(|sections|, i requires 0 <= i < |sections| => Cut(sections[i], limit))
  }

  /** The sections of a merged snippet. */
  function MergedSections(primary: string, additional: string): seq<string> {
    var sections := FirstSections(SectionsOf(primary, additional));
    CutAll(sections, SectionLimit(|sections|))
  }

  /** Sections cut to their share, joined, and sliced once more. */
  function Budgeted(sections: seq<string>): string {
    var snippet := Join(CutAll(sections, SectionLimit(|sections|)), SEPARATOR);
    snippet[..Min(MAX_SNIPPET_CHARS, |snippet|)]
  }

  function MergedSnippet(primary: string, additional: string): string {
    Budgeted(FirstSections(SectionsOf(primary, additional)))
  }

  function Merged(primary: ChatSource, additional: ChatSource): ChatSource {
    primary.(
      snippet := MergedSnippet(primary.snippet, additional.snippet),
      score := BestScore(primary.score, additional.score))
  }

  method MergeChatSources(primary: ChatSource, additional: ChatSource) returns (r: Result<ChatSource, MergeError>)
    ensures r ==
      if primary.resourceId != additional.resourceId then Err(DifferentResources) else Ok(Merged(primary, additional))
  {
    if primary.resourceId != additional.resourceId {
      return Err(DifferentResources);
    }
    var sections := CollectSections([], primary.snippet);
    sections := CollectSections(sections, additional.snippet);
    return Ok(primary.(
      snippet := Budgeted(FirstSections(sections)),
      score := BestScore(primary.score, additional.score)));
  }

  /** The inner loop. */
  method CollectSections(known: seq<string>, snippet: string) returns (sections: seq<string>)
    ensures sections == AddSections(known, Split(snippet, SEPARATOR))
  {
    sections := known;
    var parts := Split(snippet, SEPARATOR);
    for i := 0 to |parts|
      invariant AddSections(sections, parts[i..]) == AddSections(known, parts)
    {
      assert parts[i..][1..] == parts[i + 1..];
      var normalized := Strip(parts[i]);
      if normalized != "" && normalized !in sections {
        sections := sections + [normalized];
      }
    }
    assert parts[|parts|..] == [];
  }

  // ---------- The budget ----------

  /** With at most six sections, each gets at least 312 characters, and all fit with the separators. */
  lemma {:induction false} SectionLimitFits(n: nat)
    requires n <= MAX_SECTIONS
    ensures SectionLimit(n) >= 312
    ensures n >= 1 ==> n * SectionLimit(n) + |SEPARATOR| * (n - 1) <= MAX_SNIPPET_CHARS
  {
    assert |SEPARATOR| == 25;
  }

  lemma {:induction false} OneMore(m: nat, limit: nat, width: nat)
    ensures (m + 1) * limit == m * limit + limit
    ensures width * m == width * (m - 1) + width
  {
  }

  lemma {:induction false} JoinLength(parts: seq<string>, sep: string, limit: nat)
    requires parts != [] && forall p :: p in parts ==> |p| <= limit
    ensures |Join(parts, sep)| <= |parts| * limit + |sep| * (|parts| - 1)
  {
    if |parts| > 1 {
      JoinLength(parts[1..], sep, limit);
      OneMore(|parts| - 1, limit, |sep|);
    }
  }

  /** The final slice never cuts anything, so a merged snippet is its sections joined. */
  lemma {:induction false} SliceNeverCuts(primary: string, additional: string)
    ensures |MergedSections(primary, additional)| <= MAX_SECTIONS
    ensures MergedSnippet(primary, additional) == Join(MergedSections(primary, additional), SEPARATOR)
    ensures |MergedSnippet(primary, additional)| <= MAX_SNIPPET_CHARS
  {
    var parts := MergedSections(primary, additional);
    SectionLimitFits(|parts|);
    if parts != [] {
      JoinLength(parts, SEPARATOR, SectionLimit(|parts|));
    }
  }

  // ---------- Where the sections come from ----------

  /** The stripped, nonempty part `s` stands in the snippet. */
  ghost predicate SectionIn(s: string, snippet: string) {
    s != "" && exists part :: part in Split(snippet, SEPARATOR) && s == Strip(part)
  }

  lemma {:induction false} AddSectionsSpec(sections: seq<string>, parts: seq<string>, s: string)
    ensures s in AddSections(sections, parts) <==>
      s in sections || (s != "" && exists part :: part in parts && s == Strip(part))
    ensures sections <= AddSections(sections, parts)
    ensures Distinct(sections) ==> Distinct(AddSections(sections, parts))
    decreases |parts|
  {
    if parts != [] {
      var next := WithSection(sections, Strip(parts[0]));
      AddSectionsSpec(next, parts[1..], s);
      assert forall part :: part in parts <==> part == parts[0] || part in parts[1..];
    }
  }

  /** The sections of two snippets are exactly those of either, each once, the first snippet's first. */
  lemma {:induction false} SectionsOfSpec(primary: string, additional: string, s: string)
    ensures s in SectionsOf(primary, additional) <==> SectionIn(s, primary) || SectionIn(s, additional)
    ensures Distinct(SectionsOf(primary, additional))
    ensures AddSections([], Split(primary, SEPARATOR)) <= SectionsOf(primary, additional)
  {
    var first := AddSections([], Split(primary, SEPARATOR));
    AddSectionsSpec([], Split(primary, SEPARATOR), s);
    AddSectionsSpec(first, Split(additional, SEPARATOR), s);
  }

  /**
   * Every section of a merged snippet is a prefix of a section of one of the two snippets, at
   * least 312 characters of it or all; with at most six sections none is left out.
   */
  lemma {:induction false} MergedSectionsSpec(primary: string, additional: string, k: nat) returns (s: string)
    requires k < |MergedSections(primary, additional)|
    ensures SectionIn(s, primary) || SectionIn(s, additional)
    ensures MergedSections(primary, additional)[k] <= s
    ensures |MergedSections(primary, additional)[k]| >= Min(312, |s|)
    ensures |SectionsOf(primary, additional)| <= MAX_SECTIONS ==>
      |MergedSections(primary, additional)| == |SectionsOf(primary, additional)|
  {
    var sections := SectionsOf(primary, additional);
    var kept := FirstSections(sections);
    s := kept[k];
    assert s == sections[k] && s in sections;
    SectionsOfSpec(primary, additional, s);
    SectionLimitFits(|kept|);
  }

  lemma {:induction false} ShareIsLargest(n: nat)
    requires 1 <= n <= 6
    ensures n * SectionLimit(n) + 25 * (n - 1) <= 2_000 < n * (SectionLimit(n) + 1) + 25 * (n - 1)
  {
    assert |SEPARATOR| == 25;
  }

  lemma {:induction false} SmallerTimes(n: nat, a: int, b: int)
    requires a < b
    ensures n * (a + 1) <= n * b
  {
  }

  /**
   * The merge keeps the first six sections. Each is kept whole when as many of its length fit into
   * 2,000 characters with their separators; otherwise it is cut to the longest prefix of which as many
   * fit.
   */
  lemma {:induction false} MergedSectionsExact(primary: string, additional: string, k: nat)
    requires k < |MergedSections(primary, additional)|
    ensures |MergedSections(primary, additional)| == Min(6, |SectionsOf(primary, additional)|)
    ensures
      var n, whole := |MergedSections(primary, additional)|, SectionsOf(primary, additional)[k];
      var kept := MergedSections(primary, additional)[k];
      && kept <= whole
      && (n * |whole| + 25 * (n - 1) <= 2_000 ==> kept == whole)
      && (n * |whole| + 25 * (n - 1) > 2_000 ==>
            n * |kept| + 25 * (n - 1) <= 2_000 < n * (|kept| + 1) + 25 * (n - 1))
  {
    var n, whole := |MergedSections(primary, additional)|, SectionsOf(primary, additional)[k];
    var limit := SectionLimit(n);
    SectionLimitFits(n);
    ShareIsLargest(n);
    if |whole| > limit {
      SmallerTimes(n, limit, |whole|);
    } else {
      SmallerTimes(n, |whole|, limit + 1);
    }
  }

  /** The merged snippet is the kept sections with the separator between them. */
  lemma {:induction false} MergedSnippetShape(primary: string, additional: string)
    ensures MergedSnippet(primary, additional)
         == Join(MergedSections(primary, additional), "\n\n--- related chunk ---\n\n")
  {
    SliceNeverCuts(primary, additional);
    assert SEPARATOR == "\n\n--- related chunk ---\n\n";
  }

  lemma {:induction false} AddOneMore(sections: seq<string>, parts: seq<string>, last: string)
    ensures AddSections(sections, parts + [last]) == WithSection(AddSections(sections, parts), Strip(last))
    decreases |parts|
  {
    if parts == [] {
      assert ([] + [last])[1..] == [];
    } else {
      assert (parts + [last])[1..] == parts[1..] + [last];
      AddOneMore(WithSection(sections, Strip(parts[0])), parts[1..], last);
    }
  }

  lemma {:induction false} AddAll(sections: seq<string>, a: seq<string>, b: seq<string>)
    ensures AddSections(AddSections(sections, a), b) == AddSections(sections, a + b)
    decreases |b|
  {
    if b == [] {
      assert a + b == a;
    } else {
      var n := |b| - 1;
      assert b == b[..n] + [b[n]] && a + b == (a + b[..n]) + [b[n]];
      AddAll(sections, a, b[..n]);
      AddOneMore(AddSections(sections, a), b[..n], b[n]);
      AddOneMore(sections, a + b[..n], b[n]);
    }
  }

  /** Section `k` is what part `at[k]` strips to, and no part before that strips to it. */
  ghost predicate StandAt(sections: seq<string>, parts: seq<string>, at: seq<nat>) {
    && |at| == |sections|
    && (forall k :: 0 <= k < |at| ==> at[k] < |parts| && Strip(parts[at[k]]) == sections[k] != "")
    && (forall k, j :: 0 <= k < |at| && 0 <= j < at[k] ==> Strip(parts[j]) != sections[k])
    && (forall k, l :: 0 <= k < l < |at| ==> at[k] < at[l])
  }

  lemma {:induction false} SectionPositions(parts: seq<string>) returns (at: seq<nat>)
    ensures StandAt(AddSections([], parts), parts, at)
  {
    at := [];
    if parts != [] {
      var n := |parts| - 1;
      var before, last := parts[..n], parts[n];
      at := SectionPositions(before);
      assert parts == before + [last];
      AddOneMore([], before, last);
      AddSectionsSpec([], before, Strip(last));
      if Strip(last) != "" && Strip(last) !in AddSections([], before) {
        at := at + [n];
      }
    }
  }

  /** The sections stand in the order in which the two snippets first show them. */
  lemma {:induction false} SectionsInOrder(primary: string, additional: string) returns (at: seq<nat>)
    ensures StandAt(SectionsOf(primary, additional), Split(primary, SEPARATOR) + Split(additional, SEPARATOR), at)
  {
    at := SectionPositions(Split(primary, SEPARATOR) + Split(additional, SEPARATOR));
    AddAll([], Split(primary, SEPARATOR), Split(additional, SEPARATOR));
  }
}
