/** Reading a stored document back (`get_document`, `_join_document_chunks` in app/rag/qdrant_chat.py). */
module DocumentReading {
  import opened Basics
  import opened Text
  import opened Uuids
  import opened DocumentStore
  import opened Sorting
  import Access = FeedbackAccess
  import Histories = DocumentHistories

  const SCROLL_FETCH_LIMIT := 500

  /** `s[:n]`, which counts from the end for a negative `n`. */
  function Take(s: string, n: int): string {
    if n >= 0 then s[..Min(n, |s|)] else s[..Max(0, |s| + n)]
  }

  function ChunkOrder(p: Point): real {
    p.payload.chunkIndex as real
  }

  function NonemptyContents(points: seq<Point>): seq<string> {
    if points == [] then []
    else if points[0].payload.content == "" then NonemptyContents(points[1..])
    else [points[0].payload.content] + NonemptyContents(points[1..])
  }

  function JoinedChunks(points: seq<Point>, maxChars: int): string {
    Take(Strip(Join(NonemptyContents(SortBy(points, ChunkOrder)), "\n")), maxChars)
  }

  method JoinDocumentChunks(points: seq<Point>, maxChars: int) returns (text: string)
    ensures text == JoinedChunks(points, maxChars)
  {
    var sorted := SortBy(points, ChunkOrder);
    var parts: seq<string> := [];
    for i := 0 to |sorted|
      invariant parts + NonemptyContents(sorted[i..]) == NonemptyContents(sorted)
    {
      assert sorted[i..][1..] == sorted[i + 1..];
      var content := sorted[i].payload.content;
      if content != "" {
        parts := parts + [content];
      }
    }
    assert sorted[|sorted|..] == [] && parts + [] == parts;
    text := Take(Strip(Join(parts, "\n")), maxChars);
  }

  // ---------- What a scroll returns ----------

  /** The document filter: either key may name the document. */
  predicate Selected(p: Point, d: Uuid) {
    var fields := Access.PayloadOf(p.payload.document);
    || Access.Holds(Access.MatchValue("documentId", ToText(d)), fields)
    || Access.Holds(Access.MatchValue("sourceId", ToText(d)), fields)
  }

  lemma {:induction false} SelectedIsOfDocument(p: Point, d: Uuid)
    ensures Selected(p, d) <==> OfDocument(p, d)
  {
    FilterFindsDocument(p, d);
    assert Access.ValuesAt(Access.PayloadOf(p.payload.document), "documentId") == [];
  }

  predicate Holds(points: Points, p: Point) {
    p.id in points && points[p.id] == p
  }

  /** Some of the selected points, each once, in any order; all of them unless there are too many. */
  ghost predicate ScrollReply(scroll: seq<Point>, points: Points, d: Uuid) {
    && Distinct(scroll)
    && |scroll| <= SCROLL_FETCH_LIMIT
    && (forall p :: p in scroll ==> Holds(points, p) && Selected(p, d))
    && (|PointsOfDocument(points, d)| <= SCROLL_FETCH_LIMIT ==>
          forall p :: Holds(points, p) && Selected(p, d) ==> p in scroll)
  }

  // ---------- The order of the scroll does not matter ----------

  /** `s` lists 0, ..., n - 1 in ascending order. */
  lemma {:induction false} AscendingIsIdentity(s: seq<nat>, n: nat, k: nat)
    requires forall i, j :: 0 <= i < j < |s| ==> s[i] < s[j]
    requires forall v: nat :: v in s <==> v < n
    requires k < |s|
    ensures s[k] == k
  {
    if k > 0 {
      AscendingIsIdentity(s, n, k - 1);
    }
    assert s[k] in s;
    if s[k] > k {
      assert k in s;
      var j :| 0 <= j < |s| && s[j] == k;
    }
  }

  lemma {:induction false} AscendingLength(s: seq<nat>, n: nat)
    requires forall i, j :: 0 <= i < j < |s| ==> s[i] < s[j]
    requires forall v: nat :: v in s <==> v < n
    ensures |s| == n
  {
    if s != [] {
      AscendingIsIdentity(s, n, |s| - 1);
      assert s[|s| - 1] in s;
    }
    if n > 0 {
      assert n - 1 in s;
      var j :| 0 <= j < |s| && s[j] == n - 1;
      AscendingIsIdentity(s, n, j);
    }
  }

  function Indexes(points: seq<Point>): (r: seq<nat>)
    ensures |r| == |points|
    ensures forall i :: 0 <= i < |r| ==> r[i] == points[i].payload.chunkIndex
  {
    seq(|points|, i requires 0 <= i < |points| => points[i].payload.chunkIndex)
  }

  ghost predicate PointIn(x: Indexed, p: Point) {
    p.payload.chunkIndex < |x.chunks| && p == PointOf(x, p.payload.chunkIndex)
  }

  /** The points of a document sorted by chunk are its points in order. */
  lemma {:induction false} SortedPoints(x: Indexed, s: seq<Point>)
    requires Distinct(s) && SortedBy(s, ChunkOrder)
    requires forall p :: p in s <==> PointIn(x, p)
    ensures s == PointsOf(x)
  {
    var indexes := Indexes(s);
    forall i, j | 0 <= i < j < |s| ensures indexes[i] < indexes[j] {
      assert ChunkOrder(s[i]) <= ChunkOrder(s[j]);
      assert PointIn(x, s[i]) && PointIn(x, s[j]);
    }
    forall v: nat ensures v in indexes <==> v < |x.chunks| {
      if v in indexes {
        var i :| 0 <= i < |s| && indexes[i] == v;
        assert PointIn(x, s[i]);
      }
      if v < |x.chunks| {
        assert PointIn(x, PointOf(x, v));
        var i :| 0 <= i < |s| && s[i] == PointOf(x, v);
        assert indexes[i] == v;
      }
    }
    AscendingLength(indexes, |x.chunks|);
    forall k | 0 <= k < |s| ensures s[k] == PointOf(x, k) {
      AscendingIsIdentity(indexes, |x.chunks|, k);
      assert PointIn(x, s[k]);
    }
  }

  lemma {:induction false} DistinctOnce<T(!new)>(s: seq<T>, x: T)
    requires Distinct(s)
    ensures multiset(s)[x] <= 1
  {
    if s != [] {
      var n := |s| - 1;
      assert s == s[..n] + [s[n]];
      DistinctOnce(s[..n], x);
      if s[n] == x {
        assert x !in s[..n];
      }
    }
  }

  lemma {:induction false} CountedTwice<T>(t: seq<T>, i: nat, j: nat)
    requires i < j < |t| && t[i] == t[j]
    ensures multiset(t)[t[i]] >= 2
  {
    assert t == t[..j] + [t[j]] + t[j + 1..];
    assert t[i] in t[..j];
  }

  lemma {:induction false} PermutationDistinct<T(!new)>(s: seq<T>, t: seq<T>)
    requires Distinct(s) && multiset(s) == multiset(t)
    ensures Distinct(t)
  {
    forall i, j | 0 <= i < j < |t| ensures t[i] != t[j] {
      if t[i] == t[j] {
        DistinctOnce(s, t[i]);
        CountedTwice(t, i, j);
      }
    }
  }

  lemma {:induction false} ScrolledPoints(x: Indexed, scroll: seq<Point>, points: Points, p: Point)
    requires PointsOfDocument(points, x.document.documentId) == Histories.Stored(x)
    requires |x.chunks| <= SCROLL_FETCH_LIMIT
    requires ScrollReply(scroll, points, x.document.documentId)
    ensures p in scroll <==> PointIn(x, p)
  {
    var d := x.document.documentId;
    PointsOfSpec(x);
    SelectedIsOfDocument(p, d);
    if p in scroll {
      assert p.id in PointsOfDocument(points, d);
      var i :| 0 <= i < |x.chunks| && Histories.Stored(x)[p.id] == PointOf(x, i);
    }
    if PointIn(x, p) {
      assert p.id in Histories.Stored(x) && p.id in PointsOfDocument(points, d);
      assert Holds(points, p);
    }
  }

  function Contents(chunks: seq<Embedded>): (r: seq<string>)
    ensures |r| == |chunks|
    ensures forall i :: 0 <= i < |r| ==> r[i] == chunks[i].content
  {
    if chunks == [] then [] else [chunks[0].content] + Contents(chunks[1..])
  }

  lemma {:induction false} AllContents(x: Indexed, k: nat)
    requires k <= |x.chunks|
    requires forall i :: 0 <= i < |x.chunks| ==> x.chunks[i].content != ""
    ensures NonemptyContents(PointsOf(x)[k..]) == Contents(x.chunks[k..])
    decreases |x.chunks| - k
  {
    if k < |x.chunks| {
      AllContents(x, k + 1);
      assert PointsOf(x)[k..][1..] == PointsOf(x)[k + 1..];
      assert x.chunks[k..][1..] == x.chunks[k + 1..];
      assert PointsOf(x)[k..][0] == PointOf(x, k);
    }
  }

  /** Whatever order the points of a document come in, sorting by chunk gives them in order. */
  lemma {:induction false} ScrollSorted(x: Indexed, scroll: seq<Point>, points: Points)
    requires PointsOfDocument(points, x.document.documentId) == Histories.Stored(x)
    requires |x.chunks| <= SCROLL_FETCH_LIMIT
    requires ScrollReply(scroll, points, x.document.documentId)
    ensures SortBy(scroll, ChunkOrder) == PointsOf(x)
  {
    var sorted := SortBy(scroll, ChunkOrder);
    SortBySpec(scroll, ChunkOrder, 0.0);
    PermutationDistinct(scroll, sorted);
    forall p ensures p in sorted <==> PointIn(x, p) {
      SortByMembers(scroll, ChunkOrder, p);
      ScrolledPoints(x, scroll, points, p);
    }
    SortedPoints(x, sorted);
  }

  /** `text` is `whole`, or the characters of it that a limit leaves, counted from the start or the end. */
  ghost predicate IsCut(text: string, whole: string, maxChars: int) {
    && text <= whole
    && |text| == if maxChars >= 0 then Min(maxChars, |whole|) else Max(0, |whole| + maxChars)
  }

  /**
   * Reading back a document of up to 500 chunks gives the contents of its chunks in their order,
   * one to a line, cut to the limit, whatever order the points come in.
   */
  lemma {:induction false} ReadBack(x: Indexed, scroll: seq<Point>, points: Points, maxChars: int)
    requires PointsOfDocument(points, x.document.documentId) == Histories.Stored(x)
    requires |x.chunks| <= 500
    requires forall i :: 0 <= i < |x.chunks| ==> x.chunks[i].content != ""
    requires ScrollReply(scroll, points, x.document.documentId)
    ensures JoinedChunks(scroll, maxChars) == Take(Strip(Join(Contents(x.chunks), "\n")), maxChars)
    ensures IsCut(JoinedChunks(scroll, maxChars), Strip(Join(Contents(x.chunks), "\n")), maxChars)
  {
    hide ScrollReply, PointsOf, Strip, Join;
    ScrollSorted(x, scroll, points);
    AllContents(x, 0);
    assert PointsOf(x)[0..] == PointsOf(x) && x.chunks[0..] == x.chunks;
  }

  lemma {:induction false} NothingScrolled(scroll: seq<Point>, points: Points, d: Uuid)
    requires ScrollReply(scroll, points, d)
    ensures scroll != [] ==> PointsOfDocument(points, d) != map[]
  {
    if scroll != [] {
      SelectedIsOfDocument(scroll[0], d);
      assert scroll[0] in scroll;
      assert scroll[0].id in PointsOfDocument(points, d);
    }
  }

  /**
   * After any history of operations, a document whose last operation did not fail reads back as
   * the chunks of its last replace, and as nothing once it is removed.
   */
  lemma {:induction false} HistoryReadBack(
    start: Store, actions: seq<Histories.Action>, d: Uuid, scroll: seq<Point>, maxChars: int)
    requires PointsIn(start) == map[] && d !in Histories.Unfinished(start, actions)
    requires ScrollReply(scroll, PointsIn(Histories.Run(start, actions)), d)
    ensures d !in Histories.Catalogue(start, actions) ==> JoinedChunks(scroll, maxChars) == ""
    ensures d in Histories.Catalogue(start, actions) ==>
      var chunks := Histories.Catalogue(start, actions)[d].chunks;
      |chunks| <= 500 && (forall i :: 0 <= i < |chunks| ==> chunks[i].content != "") ==>
        IsCut(JoinedChunks(scroll, maxChars), Strip(Join(Contents(chunks), "\n")), maxChars)
  {
    var points, catalogue := PointsIn(Histories.Run(start, actions)), Histories.Catalogue(start, actions);
    Histories.StoreRepresentsCatalogue(start, actions, d);
    if d !in catalogue {
      NothingScrolled(scroll, points, d);
      assert SortBy(scroll, ChunkOrder) == [];
    } else {
      var x := catalogue[d];
      CatalogueKeys(start, actions, d);
      if |x.chunks| <= SCROLL_FETCH_LIMIT && forall i :: 0 <= i < |x.chunks| ==> x.chunks[i].content != "" {
        ReadBack(x, scroll, points, maxChars);
      }
    }
  }

  lemma {:induction false} CatalogueKeys(start: Store, actions: seq<Histories.Action>, d: Uuid)
    requires d in Histories.Catalogue(start, actions)
    ensures Histories.Catalogue(start, actions)[d].document.documentId == d
  {
    var n := |actions| - 1;
    if d in Histories.Catalogue(start, actions[..n]) {
      CatalogueKeys(start, actions[..n], d);
    }
  }
}
