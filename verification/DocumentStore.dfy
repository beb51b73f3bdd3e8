/**
 * The chunk index: the points a document is stored as (app/workflows/document_indexing.py) and the
 * vector store that replaces and deletes them (app/rag/qdrant_vector_store.py).
 */
module DocumentStore {
  import opened Basics
  import opened Text
  import opened Uuids
  import Access = FeedbackAccess

  // ---------- Points ----------

  type PointId = NameUuid

  type Vector = seq<real>

  /** `Access.PayloadOf(document)` are the entries filters look at. */
  datatype Payload = Payload(
    document: Access.Document, chunkIndex: nat, chunkStrategyVersion: string, title: string, content: string)

  datatype Point = Point(id: PointId, vector: Vector, payload: Payload)

  /** A chunk with its embedding. */
  datatype Embedded = Embedded(content: string, vector: Vector)

  /** A document as one run of the indexing workflow stores it. */
  datatype Indexed = Indexed(document: Access.Document, title: string, version: string, chunks: seq<Embedded>)

  function PointName(documentId: string, chunkIndex: nat, version: string): string {
    documentId + ":" + Decimal(chunkIndex) + ":" + version
  }

  function PointOf(x: Indexed, i: nat): Point
    requires i < |x.chunks|
  {
    Point(
      Uuid5(PointName(ToText(x.document.documentId), i, x.version)),
      x.chunks[i].vector,
      Payload(x.document, i, x.version, x.title, x.chunks[i].content))
  }

  function PointsOf(x: Indexed): (points: seq<Point>)
    ensures |points| == |x.chunks|
    ensures forall i :: 0 <= i < |points| ==> points[i] == PointOf(x, i)
  {
    seq(|x.chunks|, i requires 0 <= i < |x.chunks| => PointOf(x, i))
  }

  /** The name of a point tells its document, its chunk and the strategy version. */
  lemma {:induction false} PointNameInjective(d: Uuid, e: Uuid, i: nat, j: nat, v: string, w: string)
    requires PointName(ToText(d), i, v) == PointName(ToText(e), j, w)
    ensures d == e && i == j && v == w
  {
    var name := PointName(ToText(d), i, v);
    assert name[..36] == ToText(d) && name[..36] == ToText(e);
    ToTextInjective(d, e);
    assert name[37..] == Decimal(i) + [':'] + v;
    assert name[37..] == Decimal(j) + [':'] + w;
    DecimalPrefixInjective(i, j, ':', v, w);
  }

  // ---------- The remote collection ----------

  type Points = map<PointId, Point>

  datatype Collection = Collection(dimension: Option<nat>, points: Points)

  datatype Store = Store(ensured: Option<nat>, collection: Option<Collection>)

  /** An `AiError`, or any other exception, such as that for a reply that is not JSON. */
  datatype StoreError = DocumentIndexFailed(retryable: bool) | UnexpectedStoreError

  datatype Outcome = Done | Failed(error: StoreError)

  /** A creation that was reported as failed may have happened all the same. */
  datatype CreationFault = CreationFault(error: StoreError, created: bool)

  /** A write that was reported as failed may have reached any of the points it was about. */
  datatype WriteFault = WriteFault(error: StoreError, reached: set<PointId>)

  /** What goes wrong with the requests of one operation. */
  datatype Faults = Faults(
    lookup: Option<StoreError>, creation: Option<CreationFault>, indexes: Option<StoreError>,
    deletion: Option<WriteFault>, upsert: Option<WriteFault>)

  datatype ReplaceRequest = ReplaceRequest(documentId: Uuid, vectorSize: nat, points: seq<Point>)

  predicate OfDocument(p: Point, documentId: Uuid) {
    p.payload.document.documentId == documentId
  }

  /** A filter on `sourceId` finds just the points of the document. */
  lemma {:induction false} FilterFindsDocument(p: Point, documentId: Uuid)
    ensures Access.Holds(Access.MatchValue("sourceId", ToText(documentId)), Access.PayloadOf(p.payload.document))
       <==> OfDocument(p, documentId)
  {
    var own := p.payload.document.documentId;
    assert Access.ValuesAt(Access.PayloadOf(p.payload.document), "sourceId") == [ToText(own)];
    if ToText(own) == ToText(documentId) {
      ToTextInjective(own, documentId);
    }
  }

  /** Deleting a document's points, when only those in `reached` go. */
  function Deleted(points: Points, documentId: Uuid, reached: set<PointId>): Points {
    map id | id in points && !(id in reached && OfDocument(points[id], documentId)) :: points[id]
  }

  /** The points of a list under their ids. */
  function MapOf(points: seq<Point>): Points {
    if points == [] then map[] else map[points[0].id := points[0]] + MapOf(points[1..])
  }

  function Restricted(points: Points, reached: set<PointId>): Points {
    map id | id in points && id in reached :: points[id]
  }

  function WithPoints(s: Store, points: Points): Store
    requires s.collection.Some?
  {
    s.(collection := Some(s.collection.value.(points := points)))
  }

  function PointsIn(s: Store): Points {
    if s.collection.None? then map[] else s.collection.value.points
  }

  // ---------- Operations ----------

  function FinishEnsuring(s: Store, vectorSize: nat, f: Faults): (Store, Outcome) {
    if f.indexes.Some? then (s, Failed(f.indexes.value)) else (s.(ensured := Some(vectorSize)), Done)
  }

  function EnsureCollection(s: Store, vectorSize: nat, f: Faults): (Store, Outcome) {
    var created := s.(collection := Some(Collection(Some(vectorSize), map[])));
    if s.ensured == Some(vectorSize) then (s, Done)
    else if f.lookup.Some? then (s, Failed(f.lookup.value))
    else if s.collection.None? then
      if f.creation.Some? then
        (if f.creation.value.created then created else s, Failed(f.creation.value.error))
      else FinishEnsuring(created, vectorSize, f)
    else
      var dimension := s.collection.value.dimension;
      if dimension.Some? && dimension.value != vectorSize then (s, Failed(DocumentIndexFailed(false)))
      else FinishEnsuring(s, vectorSize, f)
  }

  /** Without a collection the server answers 404, which is an error here like any status but 200. */
  function DeletePoints(s: Store, documentId: Uuid, f: Faults): (Store, Outcome) {
    if s.collection.None? then
      (s, Failed(if f.deletion.Some? then f.deletion.value.error else DocumentIndexFailed(true)))
    else if f.deletion.Some? then
      (WithPoints(s, Deleted(PointsIn(s), documentId, f.deletion.value.reached)), Failed(f.deletion.value.error))
    else (WithPoints(s, Deleted(PointsIn(s), documentId, PointsIn(s).Keys)), Done)
  }

  function UpsertPoints(s: Store, points: seq<Point>, f: Faults): (Store, Outcome) {
    if s.collection.None? then
      (s, Failed(if f.upsert.Some? then f.upsert.value.error else DocumentIndexFailed(true)))
    else if f.upsert.Some? then
      (WithPoints(s, PointsIn(s) + Restricted(MapOf(points), f.upsert.value.reached)), Failed(f.upsert.value.error))
    else (WithPoints(s, PointsIn(s) + MapOf(points)), Done)
  }

  function ReplaceDocument(s: Store, request: ReplaceRequest, f: Faults): (Store, Outcome) {
    if request.points == [] then (s, Failed(DocumentIndexFailed(false)))
    else
      var (s1, ensured) := EnsureCollection(s, request.vectorSize, f);
      if ensured.Failed? then (s1, ensured)
      else
        var (s2, deleted) := DeletePoints(s1, request.documentId, f);
        if deleted.Failed? then (s2, deleted) else UpsertPoints(s2, request.points, f)
  }

  /** The adapter; the collection it keeps up is the server's. */
  class QdrantVectorStore {
    var ensuredDimensions: Option<nat>
    var collection: Option<Collection>

    function Value(): Store
      reads this
    {
      Store(ensuredDimensions, collection)
    }

    constructor (collection: Option<Collection>)
      ensures Value() == Store(None, collection)
    {
      ensuredDimensions := None;
      this.collection := collection;
    }

    method Replace(request: ReplaceRequest, f: Faults) returns (outcome: Outcome)
      modifies this
      ensures (Value(), outcome) == ReplaceDocument(old(Value()), request, f)
    {
      if request.points == [] {
        return Failed(DocumentIndexFailed(false));
      }
      outcome := Ensure(request.vectorSize, f);
      if outcome.Failed? {
        return;
      }
      outcome := DeleteDocument(request.documentId, f);
      if outcome.Failed? {
        return;
      }
      outcome := Upsert(request.points, f);
    }

    method Ensure(vectorSize: nat, f: Faults) returns (outcome: Outcome)
      modifies this
      ensures (Value(), outcome) == EnsureCollection(old(Value()), vectorSize, f)
    {
      if ensuredDimensions == Some(vectorSize) {
        return Done;
      }
      if f.lookup.Some? {
        return Failed(f.lookup.value);
      }
      if collection.None? {
        if f.creation.None? || f.creation.value.created {
          collection := Some(Collection(Some(vectorSize), map[]));
        }
        if f.creation.Some? {
          return Failed(f.creation.value.error);
        }
      } else {
        var currentSize := collection.value.dimension;
        if currentSize.Some? && currentSize.value != vectorSize {
          return Failed(DocumentIndexFailed(false));
        }
      }
      if f.indexes.Some? {
        return Failed(f.indexes.value);
      }
      ensuredDimensions := Some(vectorSize);
      outcome := Done;
    }

    /** `delete_document`, and the deletion inside `replace_document`. */
    method DeleteDocument(documentId: Uuid, f: Faults) returns (outcome: Outcome)
      modifies this`collection
      ensures (Value(), outcome) == DeletePoints(old(Value()), documentId, f)
    {
      if collection.None? {
        return Failed(if f.deletion.Some? then f.deletion.value.error else DocumentIndexFailed(true));
      }
      var points := collection.value.points;
      var reached := if f.deletion.Some? then f.deletion.value.reached else points.Keys;
      collection := Some(collection.value.(points := Deleted(points, documentId, reached)));
      outcome := if f.deletion.Some? then Failed(f.deletion.value.error) else Done;
    }

    method Upsert(points: seq<Point>, f: Faults) returns (outcome: Outcome)
      modifies this`collection
      ensures (Value(), outcome) == UpsertPoints(old(Value()), points, f)
    {
      if collection.None? {
        return Failed(if f.upsert.Some? then f.upsert.value.error else DocumentIndexFailed(true));
      }
      var written := if f.upsert.Some? then Restricted(MapOf(points), f.upsert.value.reached) else MapOf(points);
      collection := Some(collection.value.(points := collection.value.points + written));
      outcome := if f.upsert.Some? then Failed(f.upsert.value.error) else Done;
    }
  }

  // ---------- What the points of a document are ----------

  /** The points a filter on one document's id finds. */
  function PointsOfDocument(points: Points, d: Uuid): Points {
    map id | id in points && OfDocument(points[id], d) :: points[id]
  }

  ghost predicate Within(a: Points, b: Points) {
    forall id :: id in a ==> id in b && a[id] == b[id]
  }

  lemma {:induction false} MapOfMember(points: seq<Point>, id: PointId) returns (i: nat)
    requires id in MapOf(points)
    ensures i < |points| && points[i].id == id && MapOf(points)[id] == points[i]
  {
    if id in MapOf(points[1..]) {
      i := MapOfMember(points[1..], id);
      i := i + 1;
    } else {
      i := 0;
    }
  }

  lemma {:induction false} MapOfHas(points: seq<Point>, i: nat)
    requires i < |points|
    requires forall a, b :: 0 <= a < b < |points| ==> points[a].id != points[b].id
    ensures points[i].id in MapOf(points) && MapOf(points)[points[i].id] == points[i]
  {
    var rest := MapOf(points[1..]);
    if i > 0 {
      MapOfHas(points[1..], i - 1);
    } else if points[0].id in rest {
      var j := MapOfMember(points[1..], points[0].id);
    }
  }

  lemma {:induction false} MapOfSize(points: seq<Point>)
    requires forall a, b :: 0 <= a < b < |points| ==> points[a].id != points[b].id
    ensures |MapOf(points)| == |points|
  {
    if points != [] {
      var rest := MapOf(points[1..]);
      MapOfSize(points[1..]);
      if points[0].id in rest {
        var j := MapOfMember(points[1..], points[0].id);
        assert false;
      }
      assert MapOf(points).Keys == {points[0].id} + rest.Keys;
    }
  }

  lemma {:induction false} PointIdsDiffer(x: Indexed)
    ensures forall a, b :: 0 <= a < b < |PointsOf(x)| ==> PointsOf(x)[a].id != PointsOf(x)[b].id
  {
    var d := x.document.documentId;
    forall a, b | 0 <= a < b < |PointsOf(x)| ensures PointOf(x, a).id != PointOf(x, b).id {
      if PointOf(x, a).id == PointOf(x, b).id {
        PointNameInjective(d, d, a, b, x.version, x.version);
      }
    }
  }

  /** The stored form of a document: one point for each chunk, all of them the document's own. */
  lemma {:induction false} PointsOfSpec(x: Indexed)
    ensures |MapOf(PointsOf(x))| == |x.chunks|
    ensures forall i :: 0 <= i < |x.chunks| ==>
      PointOf(x, i).id in MapOf(PointsOf(x)) && MapOf(PointsOf(x))[PointOf(x, i).id] == PointOf(x, i)
    ensures forall id :: id in MapOf(PointsOf(x)) ==>
      exists i :: 0 <= i < |x.chunks| && MapOf(PointsOf(x))[id] == PointOf(x, i) && id == PointOf(x, i).id
  {
    PointIdsDiffer(x);
    MapOfSize(PointsOf(x));
    forall i | 0 <= i < |x.chunks|
      ensures PointOf(x, i).id in MapOf(PointsOf(x)) && MapOf(PointsOf(x))[PointOf(x, i).id] == PointOf(x, i)
    {
      MapOfHas(PointsOf(x), i);
    }
    forall id | id in MapOf(PointsOf(x))
      ensures exists i :: 0 <= i < |x.chunks| && MapOf(PointsOf(x))[id] == PointOf(x, i) && id == PointOf(x, i).id
    {
      var i := MapOfMember(PointsOf(x), id);
    }
  }

  lemma {:induction false} OwnPoints(x: Indexed, id: PointId)
    requires id in MapOf(PointsOf(x))
    ensures OfDocument(MapOf(PointsOf(x))[id], x.document.documentId)
  {
    var i := MapOfMember(PointsOf(x), id);
  }

  /** Every point stands under the name its document, chunk and version give it. */
  ghost predicate WellNamed(points: Points) {
    forall id :: id in points ==> NamedFor(id, points[id].payload)
  }

  ghost predicate NamedFor(id: PointId, p: Payload) {
    id == Uuid5(PointName(ToText(p.document.documentId), p.chunkIndex, p.chunkStrategyVersion))
  }

  lemma {:induction false} PointsOfWellNamed(x: Indexed)
    ensures WellNamed(MapOf(PointsOf(x)))
  {
    forall id | id in MapOf(PointsOf(x)) ensures NamedFor(id, MapOf(PointsOf(x))[id].payload) {
      var i := MapOfMember(PointsOf(x), id);
    }
  }

  /** No two documents have points of the same name. */
  lemma {:induction false} NamesApart(points: Points, x: Indexed, id: PointId)
    requires WellNamed(points)
    requires id in points && id in MapOf(PointsOf(x))
    ensures OfDocument(points[id], x.document.documentId)
  {
    var i := MapOfMember(PointsOf(x), id);
    var p := points[id].payload;
    assert NamedFor(id, p);
    PointNameInjective(
      p.document.documentId, x.document.documentId, p.chunkIndex, i, p.chunkStrategyVersion, x.version);
  }
}
