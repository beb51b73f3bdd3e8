/**
 * Any history of indexing and removing documents, one operation after the other, whatever requests
 * fail on the way.
 */
module DocumentHistories {
  import opened Basics
  import opened Uuids
  import opened DocumentStore

  /** A restart of the process forgets which dimension was checked. */
  datatype Action =
    | Index(x: Indexed, vectorSize: nat, faults: Faults)
    | Remove(documentId: Uuid, faults: Faults)
    | Restart

  function Apply(s: Store, a: Action): (Store, Outcome) {
    match a
    case Index(x, vectorSize, faults) =>
      ReplaceDocument(s, ReplaceRequest(x.document.documentId, vectorSize, PointsOf(x)), faults)
    case Remove(d, faults) => DeletePoints(s, d, faults)
    case Restart => (s.(ensured := None), Done)
  }

  predicate About(a: Action, d: Uuid) {
    || (a.Index? && a.x.document.documentId == d)
    || (a.Remove? && a.documentId == d)
  }

  function Stored(x: Indexed): Points {
    MapOf(PointsOf(x))
  }

  // ---------- One operation ----------

  lemma {:induction false} DeletedPoints(points: Points, d: Uuid, reached: set<PointId>, e: Uuid)
    requires WellNamed(points)
    ensures WellNamed(Deleted(points, d, reached))
    ensures e != d ==> PointsOfDocument(Deleted(points, d, reached), e) == PointsOfDocument(points, e)
    ensures Within(PointsOfDocument(Deleted(points, d, reached), d), PointsOfDocument(points, d))
    ensures points.Keys <= reached ==> PointsOfDocument(Deleted(points, d, reached), d) == map[]
  {
  }

  lemma {:induction false} NoneOfDocument(points: Points, d: Uuid, id: PointId)
    requires PointsOfDocument(points, d) == map[] && id in points
    ensures !OfDocument(points[id], d)
  {
    assert id !in PointsOfDocument(points, d);
  }

  lemma {:induction false} AddedApart(points: Points, x: Indexed, more: Points, id: PointId)
    requires WellNamed(points) && Within(more, Stored(x)) && id in more
    requires PointsOfDocument(points, x.document.documentId) == map[]
    ensures id !in points && OfDocument(more[id], x.document.documentId)
  {
    OwnPoints(x, id);
    if id in points {
      NamesApart(points, x, id);
      NoneOfDocument(points, x.document.documentId, id);
    }
  }

  lemma {:induction false} AddedOf(points: Points, more: Points, d: Uuid, e: Uuid)
    requires forall id :: id in more ==> OfDocument(more[id], d)
    requires forall id :: id in points ==> !OfDocument(points[id], d)
    ensures PointsOfDocument(points + more, e) == if e == d then more else PointsOfDocument(points, e) - more.Keys
  {
  }

  lemma {:induction false} AddedWellNamed(points: Points, x: Indexed, more: Points)
    requires WellNamed(points) && Within(more, Stored(x))
    ensures WellNamed(points + more)
  {
    PointsOfWellNamed(x);
  }

  /** Adding points of `x` to points without any of its document. */
  lemma {:induction false} AddedPoints(points: Points, x: Indexed, more: Points, e: Uuid)
    requires WellNamed(points) && Within(more, Stored(x))
    requires PointsOfDocument(points, x.document.documentId) == map[]
    ensures WellNamed(points + more)
    ensures PointsOfDocument(points + more, e) ==
      if e == x.document.documentId then more else PointsOfDocument(points, e)
  {
    AddedWellNamed(points, x, more);
    forall id | id in more ensures id !in points && OfDocument(more[id], x.document.documentId) {
      AddedApart(points, x, more, id);
    }
    forall id | id in points ensures !OfDocument(points[id], x.document.documentId) {
      NoneOfDocument(points, x.document.documentId, id);
    }
    AddedOf(points, more, x.document.documentId, e);
    assert PointsOfDocument(points, e) - more.Keys == PointsOfDocument(points, e);
  }

  /** Making sure of the collection changes no point. */
  lemma {:induction false} EnsureKeepsPoints(s: Store, vectorSize: nat, f: Faults)
    ensures PointsIn(EnsureCollection(s, vectorSize, f).0) == PointsIn(s)
  {
  }

  /** What one operation does to the points of document `e`, whether it succeeds or fails. */
  lemma {:induction false} OnePoints(s: Store, a: Action, e: Uuid)
    requires WellNamed(PointsIn(s))
    ensures WellNamed(PointsIn(Apply(s, a).0))
    ensures !About(a, e) ==> PointsOfDocument(PointsIn(Apply(s, a).0), e) == PointsOfDocument(PointsIn(s), e)
    ensures About(a, e) && Apply(s, a).1.Done? ==>
      PointsOfDocument(PointsIn(Apply(s, a).0), e) == if a.Index? then Stored(a.x) else map[]
    ensures About(a, e) && Apply(s, a).1.Failed? ==>
      || Within(PointsOfDocument(PointsIn(Apply(s, a).0), e), PointsOfDocument(PointsIn(s), e))
      || (a.Index? && Within(PointsOfDocument(PointsIn(Apply(s, a).0), e), Stored(a.x)))
  {
    match a
    case Restart =>
    case Remove(d, f) =>
      RemovePoints(s, d, f, e);
    case Index(x, vectorSize, f) =>
      if PointsOf(x) != [] {
        EnsureKeepsPoints(s, vectorSize, f);
        var (s1, ensured) := EnsureCollection(s, vectorSize, f);
        if ensured.Done? {
          RemovePoints(s1, x.document.documentId, f, e);
          var (s2, deleted) := DeletePoints(s1, x.document.documentId, f);
          if deleted.Done? {
            RemovePoints(s1, x.document.documentId, f, x.document.documentId);
            UpsertedPoints(s2, x, f, e);
          }
        }
      }
  }

  lemma {:induction false} RemovePoints(s: Store, d: Uuid, f: Faults, e: Uuid)
    requires WellNamed(PointsIn(s))
    ensures var (s', outcome) := DeletePoints(s, d, f);
      && WellNamed(PointsIn(s'))
      && (e != d ==> PointsOfDocument(PointsIn(s'), e) == PointsOfDocument(PointsIn(s), e))
      && (e == d ==> Within(PointsOfDocument(PointsIn(s'), e), PointsOfDocument(PointsIn(s), e)))
      && (e == d && outcome.Done? ==> PointsOfDocument(PointsIn(s'), e) == map[])
  {
    var reached := if f.deletion.Some? then f.deletion.value.reached else PointsIn(s).Keys;
    DeletedPoints(PointsIn(s), d, reached, e);
  }

  lemma {:induction false} UpsertedPoints(s: Store, x: Indexed, f: Faults, e: Uuid)
    requires WellNamed(PointsIn(s)) && PointsOfDocument(PointsIn(s), x.document.documentId) == map[]
    ensures var (s', outcome) := UpsertPoints(s, PointsOf(x), f);
      && WellNamed(PointsIn(s'))
      && (e != x.document.documentId ==> PointsOfDocument(PointsIn(s'), e) == PointsOfDocument(PointsIn(s), e))
      && (e == x.document.documentId ==> Within(PointsOfDocument(PointsIn(s'), e), Stored(x)))
      && (e == x.document.documentId && outcome.Done? ==> PointsOfDocument(PointsIn(s'), e) == Stored(x))
  {
    var more := if f.upsert.Some? then Restricted(Stored(x), f.upsert.value.reached) else Stored(x);
    if s.collection.Some? {
      AddedPoints(PointsIn(s), x, more, e);
    }
  }

  // ---------- Whole histories ----------

  function Run(start: Store, actions: seq<Action>): Store {
    if actions == [] then start
    else Apply(Run(start, actions[..|actions| - 1]), actions[|actions| - 1]).0
  }

  function LastOutcome(start: Store, actions: seq<Action>): Outcome
    requires actions != []
  {
    Apply(Run(start, actions[..|actions| - 1]), actions[|actions| - 1]).1
  }

  /** Document by document, what the last successful replace stored, unless a removal succeeded since. */
  function Catalogue(start: Store, actions: seq<Action>): map<Uuid, Indexed> {
    if actions == [] then map[]
    else
      var before := Catalogue(start, actions[..|actions| - 1]);
      var a := actions[|actions| - 1];
      if LastOutcome(start, actions).Failed? then before
      else
        match a
        case Index(x, _, _) => before[x.document.documentId := x]
        case Remove(d, _) => before - {d}
        case Restart => before
  }

  /** The documents whose last operation failed. */
  function Unfinished(start: Store, actions: seq<Action>): set<Uuid> {
    if actions == [] then {}
    else
      var before := Unfinished(start, actions[..|actions| - 1]);
      var failed := LastOutcome(start, actions).Failed?;
      match actions[|actions| - 1]
      case Index(x, _, _) =>
        if failed then before + {x.document.documentId} else before - {x.document.documentId}
      case Remove(d, _) => if failed then before + {d} else before - {d}
      case Restart => before
  }

  lemma {:induction false} HistoryWellNamed(start: Store, actions: seq<Action>)
    requires PointsIn(start) == map[]
    ensures WellNamed(PointsIn(Run(start, actions)))
  {
    if actions != [] {
      var n := |actions| - 1;
      HistoryWellNamed(start, actions[..n]);
      OnePoints(Run(start, actions[..n]), actions[n], 0);
    }
  }

  /**
   * The points of every document whose last operation did not fail are exactly those of its last
   * replace, and none when it was removed or never stored, whatever failed before or elsewhere.
   */
  lemma {:induction false} StoreRepresentsCatalogue(start: Store, actions: seq<Action>, d: Uuid)
    requires PointsIn(start) == map[]
    ensures d !in Unfinished(start, actions) ==>
      PointsOfDocument(PointsIn(Run(start, actions)), d) ==
        var catalogue := Catalogue(start, actions);
        if d in catalogue then Stored(catalogue[d]) else map[]
  {
    if actions != [] {
      var n := |actions| - 1;
      StoreRepresentsCatalogue(start, actions[..n], d);
      HistoryWellNamed(start, actions[..n]);
      OnePoints(Run(start, actions[..n]), actions[n], d);
    }
  }

  /** When no last operation failed, every point in the store is one the catalogue accounts for. */
  lemma {:induction false} NoStrayPoint(start: Store, actions: seq<Action>, id: PointId) returns (d: Uuid)
    requires PointsIn(start) == map[]
    requires Unfinished(start, actions) == {} && id in PointsIn(Run(start, actions))
    ensures d in Catalogue(start, actions)
    ensures id in Stored(Catalogue(start, actions)[d])
    ensures PointsIn(Run(start, actions))[id] == Stored(Catalogue(start, actions)[d])[id]
  {
    var points := PointsIn(Run(start, actions));
    HistoryWellNamed(start, actions);
    d := points[id].payload.document.documentId;
    StoreRepresentsCatalogue(start, actions, d);
    assert id in PointsOfDocument(points, d);
  }

  /** Some action indexed document `d` with content that includes all of `points`. */
  ghost predicate OneVersion(actions: seq<Action>, d: Uuid, points: Points) {
    || points == map[]
    || exists a :: a in actions && a.Index? && About(a, d) && Within(points, Stored(a.x))
  }

  lemma {:induction false} SmallerVersion(actions: seq<Action>, d: Uuid, points: Points, fewer: Points)
    requires OneVersion(actions, d, points) && Within(fewer, points)
    ensures OneVersion(actions, d, fewer)
  {
    if points == map[] {
      assert fewer == map[];
    } else {
      var a :| a in actions && a.Index? && About(a, d) && Within(points, Stored(a.x));
      assert Within(fewer, Stored(a.x));
    }
  }

  /** A document is never stored as a mixture of two versions, not even after failures. */
  lemma {:induction false} NeverMixed(start: Store, actions: seq<Action>, d: Uuid)
    requires PointsIn(start) == map[]
    ensures OneVersion(actions, d, PointsOfDocument(PointsIn(Run(start, actions)), d))
  {
    if actions != [] {
      var n := |actions| - 1;
      var a, before := actions[n], Run(start, actions[..n]);
      NeverMixed(start, actions[..n], d);
      HistoryWellNamed(start, actions[..n]);
      OnePoints(before, a, d);
      assert actions == actions[..n] + [a];
      var after := PointsOfDocument(PointsIn(Apply(before, a).0), d);
      if Within(after, PointsOfDocument(PointsIn(before), d)) {
        SmallerVersion(actions, d, PointsOfDocument(PointsIn(before), d), after);
      } else if a.Index? && About(a, d) {
        assert a in actions;
      }
    }
  }

  // ---------- Trying again ----------

  lemma {:induction false} DeletedTwice(points: Points, d: Uuid, more: Points, reached: set<PointId>)
    requires forall id :: id in more ==> OfDocument(more[id], d) && (id in points ==> OfDocument(points[id], d))
    ensures
      var between := Deleted(points, d, reached) + more;
      Deleted(between, d, between.Keys) == Deleted(points, d, points.Keys)
  {
  }

  /** One try at indexing drops some points of the document and adds some of the new ones. */
  lemma {:induction false} IndexPoints(s: Store, a: Action) returns (reached: set<PointId>, more: Points)
    requires a.Index?
    ensures PointsIn(Apply(s, a).0) == Deleted(PointsIn(s), a.x.document.documentId, reached) + more
    ensures Within(more, Stored(a.x))
    ensures Apply(s, a).1.Done? ==> reached == PointsIn(s).Keys && more == Stored(a.x)
  {
    var d := a.x.document.documentId;
    reached, more := {}, map[];
    EnsureKeepsPoints(s, a.vectorSize, a.faults);
    var (s1, ensured) := EnsureCollection(s, a.vectorSize, a.faults);
    if PointsOf(a.x) != [] && ensured.Done? && s1.collection.Some? {
      reached := if a.faults.deletion.Some? then a.faults.deletion.value.reached else PointsIn(s).Keys;
      if a.faults.deletion.None? {
        more := if a.faults.upsert.Some? then Restricted(Stored(a.x), a.faults.upsert.value.reached) else Stored(a.x);
      }
    }
  }

  /**
   * Indexing again with the same chunks, after a first try that succeeded or failed anywhere,
   * leaves the points that one successful try would have left.
   */
  lemma {:induction false} RetryMakesWhole(s: Store, first: Action, second: Action)
    requires WellNamed(PointsIn(s))
    requires first.Index? && second.Index? && first.x == second.x
    requires Apply(Apply(s, first).0, second).1.Done?
    ensures PointsIn(Apply(Apply(s, first).0, second).0)
         == Deleted(PointsIn(s), first.x.document.documentId, PointsIn(s).Keys) + Stored(first.x)
    ensures Apply(s, first).1.Done? ==>
      PointsIn(Apply(Apply(s, first).0, second).0) == PointsIn(Apply(s, first).0)
  {
    var d := first.x.document.documentId;
    var reached, more := IndexPoints(s, first);
    var _, _ := IndexPoints(Apply(s, first).0, second);
    forall id | id in more
      ensures OfDocument(more[id], d) && (id in PointsIn(s) ==> OfDocument(PointsIn(s)[id], d))
    {
      OwnPoints(first.x, id);
      if id in PointsIn(s) {
        NamesApart(PointsIn(s), first.x, id);
      }
    }
    DeletedTwice(PointsIn(s), d, more, reached);
  }

  // ---------- The dimension ----------

  /** The checked dimension is that of the collection. */
  ghost predicate DimensionKept(s: Store) {
    s.ensured.Some? ==>
      && s.collection.Some?
      && (s.collection.value.dimension.None? || s.collection.value.dimension == s.ensured)
  }

  lemma {:induction false} OneKeepsDimension(s: Store, a: Action)
    requires DimensionKept(s)
    ensures DimensionKept(Apply(s, a).0)
    ensures s.collection.Some? ==>
      && Apply(s, a).0.collection.Some?
      && Apply(s, a).0.collection.value.dimension == s.collection.value.dimension
  {
  }

  lemma {:induction false} HistoryKeepsDimension(start: Store, actions: seq<Action>)
    requires start.ensured.None?
    ensures DimensionKept(Run(start, actions))
    ensures start.collection.Some? ==>
      && Run(start, actions).collection.Some?
      && Run(start, actions).collection.value.dimension == start.collection.value.dimension
  {
    if actions != [] {
      var n := |actions| - 1;
      HistoryKeepsDimension(start, actions[..n]);
      OneKeepsDimension(Run(start, actions[..n]), actions[n]);
    }
  }

  /**
   * A document with chunks is refused for its dimension just when the collection exists with
   * another one: with no request failing, indexing succeeds exactly otherwise.
   */
  lemma {:induction false} IndexSucceedsIff(start: Store, actions: seq<Action>, x: Indexed, vectorSize: nat)
    requires start.ensured.None?
    ensures
      var s := Run(start, actions);
      Apply(s, Index(x, vectorSize, Faults(None, None, None, None, None))).1.Done? <==>
        && x.chunks != []
        && (s.collection.Some? && s.collection.value.dimension.Some? ==>
              s.collection.value.dimension.value == vectorSize)
  {
    HistoryKeepsDimension(start, actions);
  }

  /**
   * With no request failing, a removal succeeds just when there is a collection; the adapter's
   * comment promises that it passes silently when there is none. Before the first indexing, every
   * removal therefore fails, and asks for a retry.
   */
  lemma {:induction false} RemoveNeedsCollection(start: Store, actions: seq<Action>, d: Uuid)
    ensures
      var s := Run(start, actions);
      Apply(s, Remove(d, Faults(None, None, None, None, None))).1
        == if s.collection.Some? then Done else Failed(DocumentIndexFailed(true))
    ensures start.collection.None? && (forall a :: a in actions ==> !a.Index?) ==>
      Run(start, actions).collection.None?
  {
    if actions != [] {
      var n := |actions| - 1;
      assert actions[n] in actions && forall a :: a in actions[..n] ==> a in actions;
      RemoveNeedsCollection(start, actions[..n], d);
    }
  }
}
