/**
 * Ranking the chunks one query finds by document (app/providers/vector_score_reranker.py) and
 * merging the rankings of several queries (app/rag/multi_query_search.py).
 */
module RankMerge {
  import opened Basics
  import opened Uuids
  import opened Sorting
  import opened SourceMerge
  import opened SourceFolds

  // ---------- Collecting a stream of sources by document ----------

  function Ids(sources: seq<ChatSource>): (ids: seq<Uuid>)
    ensures |ids| == |sources|
    ensures forall i :: 0 <= i < |sources| ==> ids[i] == sources[i].resourceId
  {
    seq(|sources|, i requires 0 <= i < |sources| => sources[i].resourceId)
  }

  function PositionOf(ids: seq<Uuid>, d: Uuid): (i: nat)
    requires d in ids
    ensures i < |ids| && ids[i] == d
  {
    if ids[0] == d then 0 else 1 + PositionOf(ids[1..], d)
  }

  predicate Full(merged: seq<ChatSource>, limit: Option<nat>) {
    limit == Some(|merged|)
  }

  /** One turn of the loops: merge into the document's entry, or append unless it is full. */
  function Add(merged: seq<ChatSource>, source: ChatSource, limit: Option<nat>): seq<ChatSource> {
    if source.resourceId in Ids(merged) then
      var i := PositionOf(Ids(merged), source.resourceId);
      merged[i := Merged(merged[i], source)]
    else if Full(merged, limit) then merged
    else merged + [source]
  }

  function Collect(stream: seq<ChatSource>, limit: Option<nat>): seq<ChatSource> {
    if stream == [] then []
    else Add(Collect(stream[..|stream| - 1], limit), stream[|stream| - 1], limit)
  }

  /** The dictionary of positions agrees with the list. */
  ghost predicate Agrees(merged: seq<ChatSource>, index: map<Uuid, nat>) {
    && (forall i :: 0 <= i < |merged| ==> merged[i].resourceId in index && index[merged[i].resourceId] == i)
    && (forall d :: d in index ==> index[d] < |merged| && merged[index[d]].resourceId == d)
  }

  method AddSource(merged: seq<ChatSource>, index: map<Uuid, nat>, source: ChatSource, limit: Option<nat>)
    returns (merged': seq<ChatSource>, index': map<Uuid, nat>)
    requires Agrees(merged, index)
    ensures merged' == Add(merged, source, limit) && Agrees(merged', index')
  {
    var d := source.resourceId;
    if d in index {
      assert merged[index[d]].resourceId == d && Ids(merged)[index[d]] == d;
      var both := MergeChatSources(merged[index[d]], source);
      return merged[index[d] := both.value], index;
    }
    if limit == Some(|merged|) {
      return merged, index;
    }
    return merged + [source], index[d := |merged|];
  }

  // ---------- What is collected ----------

  /** The documents of a stream in the order of their first source. */
  function DistinctIds(stream: seq<ChatSource>): seq<Uuid> {
    if stream == [] then []
    else
      var before, d := DistinctIds(stream[..|stream| - 1]), stream[|stream| - 1].resourceId;
      if d in before then before else before + [d]
  }

  /** The sources of one document, in order. */
  function Of(stream: seq<ChatSource>, d: Uuid): seq<ChatSource> {
    if stream == [] then []
    else
      var before, last := Of(stream[..|stream| - 1], d), stream[|stream| - 1];
      if last.resourceId == d then before + [last] else before
  }

  function Limited<T>(s: seq<T>, limit: Option<nat>): seq<T> {
    if limit.None? then s else s[..Min(limit.value, |s|)]
  }

  lemma {:induction false} OfSome(stream: seq<ChatSource>, d: Uuid)
    ensures d in DistinctIds(stream) <==> Of(stream, d) != []
  {
    if stream != [] {
      OfSome(stream[..|stream| - 1], d);
    }
  }

  lemma {:induction false} DistinctIdsDiffer(stream: seq<ChatSource>)
    ensures Distinct(DistinctIds(stream))
    ensures |DistinctIds(stream)| <= |stream|
  {
    if stream != [] {
      DistinctIdsDiffer(stream[..|stream| - 1]);
    }
  }

  /** The entry is the fold of all the sources of its document. */
  ghost predicate Folds(entry: ChatSource, stream: seq<ChatSource>) {
    Of(stream, entry.resourceId) != [] && entry == Fold(Of(stream, entry.resourceId))
  }

  ghost predicate AllFold(merged: seq<ChatSource>, stream: seq<ChatSource>) {
    forall k :: 0 <= k < |merged| ==> Folds(merged[k], stream)
  }

  lemma {:induction false} OneMoreSource(before: seq<ChatSource>, last: ChatSource, d: Uuid)
    ensures Of(before + [last], d) == if last.resourceId == d then Of(before, d) + [last] else Of(before, d)
    ensures DistinctIds(before + [last]) ==
      if last.resourceId in DistinctIds(before) then DistinctIds(before)
      else DistinctIds(before) + [last.resourceId]
  {
    assert (before + [last])[..|before|] == before;
  }

  lemma {:induction false} EntryFolds(entry: ChatSource, before: seq<ChatSource>, last: ChatSource)
    requires Folds(entry, before)
    ensures Folds(if entry.resourceId == last.resourceId then Merged(entry, last) else entry, before + [last])
  {
    var d := entry.resourceId;
    OneMoreSource(before, last, d);
    assert (Of(before, d) + [last])[..|Of(before, d)|] == Of(before, d);
  }

  lemma {:induction false} NewEntryFolds(before: seq<ChatSource>, last: ChatSource)
    requires last.resourceId !in DistinctIds(before)
    ensures Folds(last, before + [last])
  {
    OfSome(before, last.resourceId);
    OneMoreSource(before, last, last.resourceId);
    assert Of(before + [last], last.resourceId) == [last];
  }

  ghost predicate Collected(merged: seq<ChatSource>, stream: seq<ChatSource>, limit: Option<nat>) {
    Ids(merged) == Limited(DistinctIds(stream), limit) && AllFold(merged, stream)
  }

  lemma {:induction false} MergedCollects(
    merged: seq<ChatSource>, before: seq<ChatSource>, last: ChatSource, limit: Option<nat>, i: nat)
    requires Collected(merged, before, limit)
    requires i < |merged| && merged[i].resourceId == last.resourceId
    ensures Collected(merged[i := Merged(merged[i], last)], before + [last], limit)
  {
    var after := merged[i := Merged(merged[i], last)];
    DistinctIdsDiffer(before);
    OneMoreSource(before, last, last.resourceId);
    assert Ids(after) == Ids(merged);
    assert last.resourceId == Limited(DistinctIds(before), limit)[i];
    forall k | 0 <= k < |after| ensures Folds(after[k], before + [last]) {
      EntryFolds(merged[k], before, last);
      assert k != i ==> Ids(merged)[k] != Ids(merged)[i];
    }
  }

  lemma {:induction false} UnknownCollects(merged: seq<ChatSource>, before: seq<ChatSource>, last: ChatSource)
    requires AllFold(merged, before) && last.resourceId !in Ids(merged)
    ensures AllFold(merged, before + [last])
  {
    forall k | 0 <= k < |merged| ensures Folds(merged[k], before + [last]) {
      EntryFolds(merged[k], before, last);
      assert Ids(merged)[k] in Ids(merged);
    }
  }

  lemma {:induction false} AppendedCollects(
    merged: seq<ChatSource>, before: seq<ChatSource>, last: ChatSource, limit: Option<nat>)
    requires Collected(merged, before, limit)
    requires last.resourceId !in Ids(merged) && !Full(merged, limit)
    ensures Collected(merged + [last], before + [last], limit)
  {
    var ids := DistinctIds(before);
    assert Ids(merged) == ids;
    UnknownCollects(merged, before, last);
    NewEntryFolds(before, last);
    OneMoreSource(before, last, last.resourceId);
    assert Ids(merged + [last]) == ids + [last.resourceId] == Limited(ids + [last.resourceId], limit);
  }

  lemma {:induction false} AddCollects(
    merged: seq<ChatSource>, before: seq<ChatSource>, last: ChatSource, limit: Option<nat>)
    requires Collected(merged, before, limit)
    ensures Collected(Add(merged, last, limit), before + [last], limit)
  {
    if last.resourceId in Ids(merged) {
      MergedCollects(merged, before, last, limit, PositionOf(Ids(merged), last.resourceId));
    } else if Full(merged, limit) {
      UnknownCollects(merged, before, last);
      OneMoreSource(before, last, last.resourceId);
    } else {
      AppendedCollects(merged, before, last, limit);
    }
  }

  /**
   * Collecting gives the first documents of the stream, up to the limit, each once, and each entry
   * is the fold of all the sources of its document in the whole stream.
   */
  lemma {:induction false} CollectSpec(stream: seq<ChatSource>, limit: Option<nat>)
    ensures Collected(Collect(stream, limit), stream, limit)
  {
    if stream != [] {
      var n := |stream| - 1;
      CollectSpec(stream[..n], limit);
      AddCollects(Collect(stream[..n], limit), stream[..n], stream[n], limit);
      assert stream[..n] + [stream[n]] == stream;
    }
  }

  /** The score of an entry is the best of its document's in the stream. */
  lemma {:induction false} EntryScore(stream: seq<ChatSource>, limit: Option<nat>, k: nat)
    requires k < |Collect(stream, limit)|
    ensures
      var entry := Collect(stream, limit)[k];
      && (forall s :: s in stream && s.resourceId == entry.resourceId ==> s.score <= entry.score)
      && (exists s :: s in stream && s.resourceId == entry.resourceId && s.score == entry.score)
  {
    var entry := Collect(stream, limit)[k];
    var mine := Of(stream, entry.resourceId);
    CollectSpec(stream, limit);
    assert Folds(entry, stream);
    FoldScore(mine);
    OfMembers(stream, entry.resourceId);
    var i :| 0 <= i < |mine| && mine[i].score == entry.score;
    assert mine[i] in mine;
    forall s | s in stream && s.resourceId == entry.resourceId ensures s.score <= entry.score {
      assert s in mine;
    }
  }

  /** An entry keeps the type and title of its document's first source in the stream. */
  lemma {:induction false} EntryKeepsFirst(stream: seq<ChatSource>, limit: Option<nat>, k: nat)
    requires k < |Collect(stream, limit)|
    ensures
      var entry := Collect(stream, limit)[k];
      var mine := Of(stream, entry.resourceId);
      mine != [] && entry.sourceType == mine[0].sourceType && entry.title == mine[0].title
  {
    var entry := Collect(stream, limit)[k];
    var mine := Of(stream, entry.resourceId);
    CollectSpec(stream, limit);
    assert Folds(entry, stream);
    OfMembers(stream, entry.resourceId);
    forall i | 0 <= i < |mine| ensures mine[i].resourceId == entry.resourceId {
      assert mine[i] in mine;
    }
    FoldKeeps(mine, entry.resourceId);
  }

  lemma {:induction false} OfMembers(stream: seq<ChatSource>, d: Uuid)
    ensures forall s :: s in Of(stream, d) <==> s in stream && s.resourceId == d
  {
    if stream != [] {
      var n := |stream| - 1;
      OfMembers(stream[..n], d);
      assert forall s :: s in stream <==> s in stream[..n] || s == stream[n];
    }
  }

  // ---------- Merging the rankings of several queries ----------

  /** The sources the first `k` queries have at one rank. */
  function Row(rankings: seq<seq<ChatSource>>, rank: nat, k: nat): seq<ChatSource>
    requires k <= |rankings|
  {
    if k == 0 then []
    else if rank < |rankings[k - 1]| then Row(rankings, rank, k - 1) + [rankings[k - 1][rank]]
    else Row(rankings, rank, k - 1)
  }

  /** All the sources of the first `ranks` ranks, rank by rank. */
  function Interleaved(rankings: seq<seq<ChatSource>>, ranks: nat): seq<ChatSource> {
    if ranks == 0 then []
    else Interleaved(rankings, ranks - 1) + Row(rankings, ranks - 1, |rankings|)
  }

  /** The merge in `search_queries_in_parallel`. */
  method MergeRankings(rankings: seq<seq<ChatSource>>, topN: nat) returns (merged: seq<ChatSource>)
    ensures merged == Collect(Interleaved(rankings, topN), Some(topN))
  {
    merged := [];
    var index: map<Uuid, nat> := map[];
    for rank := 0 to topN
      invariant Agrees(merged, index)
      invariant merged == Collect(Interleaved(rankings, rank), Some(topN))
    {
      merged, index := MergeRank(rankings, rank, topN, merged, index, Interleaved(rankings, rank));
    }
  }

  /** The inner loop. */
  method MergeRank(
    rankings: seq<seq<ChatSource>>, rank: nat, topN: nat, known: seq<ChatSource>, positions: map<Uuid, nat>,
    ghost done: seq<ChatSource>)
    returns (merged: seq<ChatSource>, index: map<Uuid, nat>)
    requires Agrees(known, positions) && known == Collect(done, Some(topN))
    ensures Agrees(merged, index)
    ensures merged == Collect(done + Row(rankings, rank, |rankings|), Some(topN))
  {
    merged, index := known, positions;
    ghost var stream := done;
    for k := 0 to |rankings|
      invariant stream == done + Row(rankings, rank, k)
      invariant Agrees(merged, index) && merged == Collect(stream, Some(topN))
    {
      if rank < |rankings[k]| {
        var source := rankings[k][rank];
        SeqAssociative(done, Row(rankings, rank, k), [source]);
        CollectOneMore(stream, source, Some(topN));
        merged, index := AddSource(merged, index, source, Some(topN));
        stream := stream + [source];
      }
    }
  }

  lemma {:induction false} CollectOneMore(before: seq<ChatSource>, last: ChatSource, limit: Option<nat>)
    ensures Collect(before + [last], limit) == Add(Collect(before, limit), last, limit)
  {
    assert (before + [last])[..|before|] == before;
  }

  lemma {:induction false} DistinctIdsGrow(stream: seq<ChatSource>, more: seq<ChatSource>)
    ensures DistinctIds(stream) <= DistinctIds(stream + more)
  {
    if more == [] {
      assert stream + more == stream;
    } else {
      var n := |more| - 1;
      DistinctIdsGrow(stream, more[..n]);
      assert stream + more == (stream + more[..n]) + [more[n]];
      OneMoreSource(stream + more[..n], more[n], 0);
    }
  }

  lemma {:induction false} RowSpec(rankings: seq<seq<ChatSource>>, rank: nat, k: nat, j: nat)
    requires k <= |rankings|
    ensures |Row(rankings, rank, k)| <= k
    ensures j < k && rank < |rankings[j]| ==> rankings[j][rank] in Row(rankings, rank, k)
  {
    if k > 0 {
      RowSpec(rankings, rank, k - 1, j);
    }
  }

  lemma {:induction false} OneMoreRow(length: nat, row: nat, ranks: nat, q: nat)
    requires ranks > 0 && length <= (ranks - 1) * q && row <= q
    ensures length + row <= ranks * q
  {
    assert (ranks - 1) * q + q == ranks * q;
  }

  lemma {:induction false} InterleavedLength(rankings: seq<seq<ChatSource>>, ranks: nat)
    ensures |Interleaved(rankings, ranks)| <= ranks * |rankings|
  {
    if ranks > 0 {
      InterleavedLength(rankings, ranks - 1);
      RowSpec(rankings, ranks - 1, |rankings|, 0);
      OneMoreRow(
        |Interleaved(rankings, ranks - 1)|, |Row(rankings, ranks - 1, |rankings|)|, ranks, |rankings|);
    }
  }

  lemma {:induction false} InterleavedGrows(rankings: seq<seq<ChatSource>>, fewer: nat, ranks: nat)
    requires fewer <= ranks
    ensures Interleaved(rankings, fewer) <= Interleaved(rankings, ranks)
    decreases ranks
  {
    if fewer < ranks {
      InterleavedGrows(rankings, fewer, ranks - 1);
    }
  }

  lemma {:induction false} TimesMonotone(a: nat, b: nat, q: nat)
    requires a <= b
    ensures a * q <= b * q
  {
  }

  lemma {:induction false} QuotientTimes(n: nat, q: nat)
    requires q > 0
    ensures n / q * q <= n
  {
  }

  /** (rank + 1) * q stays within topN for ranks below topN / q. */
  lemma {:induction false} ShareFits(rank: nat, topN: nat, q: nat)
    requires q > 0 && rank < topN / q
    ensures (rank + 1) * q <= topN && rank < topN
  {
    QuotientTimes(topN, q);
    TimesMonotone(rank + 1, topN / q, q);
    TimesMonotone(1, q, rank + 1);
  }

  /** The first `topN / q` documents of each of the `q` queries are among the merged ones. */
  lemma {:induction false} EveryQueryHasItsShare(rankings: seq<seq<ChatSource>>, topN: nat, j: nat, rank: nat)
    requires j < |rankings| && rank < |rankings[j]| && rank < topN / |rankings|
    ensures rankings[j][rank].resourceId in Ids(Collect(Interleaved(rankings, topN), Some(topN)))
  {
    var early, all := Interleaved(rankings, rank + 1), Interleaved(rankings, topN);
    var source := rankings[j][rank];
    ShareFits(rank, topN, |rankings|);
    InterleavedLength(rankings, rank + 1);
    InterleavedGrows(rankings, rank + 1, topN);
    RowSpec(rankings, rank, |rankings|, j);
    assert source in early;
    InDistinctIds(early, source);
    DistinctIdsDiffer(early);
    assert all == early + all[|early|..];
    DistinctIdsGrow(early, all[|early|..]);
    CollectSpec(all, Some(topN));
    var i := PositionOf(DistinctIds(early), source.resourceId);
    assert Limited(DistinctIds(all), Some(topN))[i] == source.resourceId;
  }

  lemma {:induction false} InDistinctIds(stream: seq<ChatSource>, source: ChatSource)
    requires source in stream
    ensures source.resourceId in DistinctIds(stream)
  {
    OfMembers(stream, source.resourceId);
    OfSome(stream, source.resourceId);
    assert source in Of(stream, source.resourceId);
  }

  // ---------- Ranking one query's chunks ----------

  /** `reverse=True` keeps equal scores in their order, like sorting by the negated score. */
  function NegatedScore(s: ChatSource): real {
    -s.score
  }

  function AtLeast(sources: seq<ChatSource>, threshold: real): seq<ChatSource> {
    if sources == [] then []
    else if sources[|sources| - 1].score >= threshold then
      AtLeast(sources[..|sources| - 1], threshold) + [sources[|sources| - 1]]
    else AtLeast(sources[..|sources| - 1], threshold)
  }

  function KeptChunks(sources: seq<ChatSource>, threshold: real): seq<ChatSource> {
    AtLeast(SortBy(sources, NegatedScore), threshold)
  }

  /** Every document with a kept chunk. */
  function Diversified(sources: seq<ChatSource>, threshold: real): seq<ChatSource> {
    Collect(KeptChunks(sources, threshold), None)
  }

  function Reranked(sources: seq<ChatSource>, threshold: real, topN: nat): seq<ChatSource> {
    Limited(Diversified(sources, threshold), Some(topN))
  }

  method Rerank(sources: seq<ChatSource>, threshold: real, topN: nat) returns (ranked: seq<ChatSource>)
    ensures ranked == Reranked(sources, threshold, topN)
  {
    var kept := KeptChunks(sources, threshold);
    ranked := [];
    var index: map<Uuid, nat> := map[];
    for i := 0 to |kept|
      invariant Agrees(ranked, index)
      invariant ranked == Collect(kept[..i], None)
    {
      assert kept[..i + 1] == kept[..i] + [kept[i]];
      CollectOneMore(kept[..i], kept[i], None);
      ranked, index := AddSource(ranked, index, kept[i], None);
    }
    assert kept[..|kept|] == kept;
    ranked := ranked[..Min(topN, |ranked|)];
  }

  ghost predicate Descending(sources: seq<ChatSource>) {
    forall i, j :: 0 <= i < j < |sources| ==> sources[i].score >= sources[j].score
  }

  lemma {:induction false} AtLeastSpec(sources: seq<ChatSource>, threshold: real)
    requires Descending(sources)
    ensures forall s :: s in AtLeast(sources, threshold) <==> s in sources && s.score >= threshold
    ensures Descending(AtLeast(sources, threshold))
  {
    if sources != [] {
      var n := |sources| - 1;
      AtLeastSpec(sources[..n], threshold);
      assert forall s :: s in sources <==> s in sources[..n] || s == sources[n];
      var before := AtLeast(sources[..n], threshold);
      forall i | 0 <= i < |before| ensures before[i].score >= sources[n].score {
        assert before[i] in sources[..n];
      }
    }
  }

  lemma {:induction false} KeptChunksSpec(sources: seq<ChatSource>, threshold: real)
    ensures forall s :: s in KeptChunks(sources, threshold) <==> s in sources && s.score >= threshold
    ensures Descending(KeptChunks(sources, threshold))
  {
    var sorted := SortBy(sources, NegatedScore);
    SortBySpec(sources, NegatedScore, 0.0);
    forall i, j | 0 <= i < j < |sorted| ensures sorted[i].score >= sorted[j].score {
      assert NegatedScore(sorted[i]) <= NegatedScore(sorted[j]);
    }
    AtLeastSpec(sorted, threshold);
    forall s ensures s in sorted <==> s in sources {
      SortByMembers(sources, NegatedScore, s);
    }
  }

  lemma {:induction false} WithKeySnoc(sources: seq<ChatSource>, last: ChatSource, k: real)
    ensures WithKey(sources + [last], NegatedScore, k)
         == WithKey(sources, NegatedScore, k) + if -last.score == k then [last] else []
  {
    if sources == [] {
      assert [last][1..] == [];
      assert sources + [last] == [last];
    } else {
      assert (sources + [last])[1..] == sources[1..] + [last];
      WithKeySnoc(sources[1..], last, k);
    }
  }

  lemma {:induction false} AtLeastKeepsAll(sources: seq<ChatSource>, threshold: real, k: real)
    ensures WithKey(AtLeast(sources, threshold), NegatedScore, k)
         == if -k >= threshold then WithKey(sources, NegatedScore, k) else []
  {
    if sources != [] {
      var n := |sources| - 1;
      AtLeastKeepsAll(sources[..n], threshold, k);
      assert sources == sources[..n] + [sources[n]];
      WithKeySnoc(sources[..n], sources[n], k);
      WithKeySnoc(AtLeast(sources[..n], threshold), sources[n], k);
    }
  }

  /** The chunks of one score that reach the threshold are all kept, as often as they stand, in their order. */
  lemma {:induction false} KeptChunksStable(sources: seq<ChatSource>, threshold: real, score: real)
    ensures WithKey(KeptChunks(sources, threshold), NegatedScore, -score)
         == if score >= threshold then WithKey(sources, NegatedScore, -score) else []
  {
    SortBySpec(sources, NegatedScore, -score);
    AtLeastKeepsAll(SortBy(sources, NegatedScore), threshold, -score);
  }

  /** Merging or appending a source that scores no better than any entry keeps the entries descending. */
  lemma {:induction false} AddDescends(merged: seq<ChatSource>, source: ChatSource)
    requires Descending(merged) && forall k :: 0 <= k < |merged| ==> merged[k].score >= source.score
    ensures Descending(Add(merged, source, None))
    ensures forall k :: 0 <= k < |Add(merged, source, None)| ==> Add(merged, source, None)[k].score >= source.score
  {
  }

  lemma {:induction false} CollectDescends(stream: seq<ChatSource>)
    requires Descending(stream)
    ensures Descending(Collect(stream, None))
    ensures stream != [] ==>
      forall k :: 0 <= k < |Collect(stream, None)| ==> Collect(stream, None)[k].score >= stream[|stream| - 1].score
  {
    if stream != [] {
      var n := |stream| - 1;
      CollectDescends(stream[..n]);
      var merged := Collect(stream[..n], None);
      if n > 0 {
        assert stream[n - 1].score >= stream[n].score;
      }
      AddDescends(merged, stream[n]);
    }
  }

  /** The score is the best any of the document's chunks has. */
  ghost predicate IsBestOf(sources: seq<ChatSource>, d: Uuid, best: real) {
    && (forall s :: s in sources && s.resourceId == d ==> s.score <= best)
    && (exists s :: s in sources && s.resourceId == d && s.score == best)
  }

  lemma {:induction false} DiversifiedEntry(sources: seq<ChatSource>, threshold: real, k: nat)
    requires k < |Diversified(sources, threshold)|
    ensures Diversified(sources, threshold)[k].score >= threshold
    ensures IsBestOf(sources, Diversified(sources, threshold)[k].resourceId, Diversified(sources, threshold)[k].score)
  {
    EntryScore(KeptChunks(sources, threshold), None, k);
    KeptChunksSpec(sources, threshold);
  }

  /**
   * The result lists different documents in descending order of their best chunk, each with that
   * chunk's score, which reaches the threshold.
   */
  lemma {:induction false} RerankedSpec(sources: seq<ChatSource>, threshold: real, topN: nat)
    ensures Distinct(Ids(Reranked(sources, threshold, topN)))
    ensures Descending(Reranked(sources, threshold, topN)) && |Reranked(sources, threshold, topN)| <= topN
    ensures forall k :: 0 <= k < |Reranked(sources, threshold, topN)| ==>
      var entry := Reranked(sources, threshold, topN)[k];
      entry.score >= threshold && IsBestOf(sources, entry.resourceId, entry.score)
  {
    var kept := KeptChunks(sources, threshold);
    KeptChunksSpec(sources, threshold);
    CollectSpec(kept, None);
    DistinctIdsDiffer(kept);
    CollectDescends(kept);
    forall k | 0 <= k < |Diversified(sources, threshold)|
      ensures
        var entry := Diversified(sources, threshold)[k];
        entry.score >= threshold && IsBestOf(sources, entry.resourceId, entry.score)
    {
      DiversifiedEntry(sources, threshold, k);
    }
    assert forall k :: 0 <= k < |Diversified(sources, threshold)| ==>
      Ids(Diversified(sources, threshold))[k] == Diversified(sources, threshold)[k].resourceId;
  }

  lemma {:induction false} LimitedHas(all: seq<ChatSource>, topN: nat, i: nat)
    requires i < |all| && i < topN
    ensures all[i].resourceId in Ids(Limited(all, Some(topN)))
  {
    assert Ids(Limited(all, Some(topN)))[i] == all[i].resourceId;
  }

  /** A document with a good enough chunk is left out only for `topN` documents at least as good. */
  lemma {:induction false} RerankedComplete(sources: seq<ChatSource>, threshold: real, topN: nat, s: ChatSource)
    requires s in sources && s.score >= threshold
    requires s.resourceId !in Ids(Reranked(sources, threshold, topN))
    ensures |Reranked(sources, threshold, topN)| == topN
    ensures forall k :: 0 <= k < topN ==> Reranked(sources, threshold, topN)[k].score >= s.score
  {
    var kept, all := KeptChunks(sources, threshold), Diversified(sources, threshold);
    KeptChunksSpec(sources, threshold);
    CollectSpec(kept, None);
    CollectDescends(kept);
    InDistinctIds(kept, s);
    var i := PositionOf(Ids(all), s.resourceId);
    DiversifiedEntry(sources, threshold, i);
    assert all[i].resourceId == s.resourceId;
    if i < topN {
      LimitedHas(all, topN, i);
    }
  }
}
