/** The parts of a well-formed export, table by table, and how each survives more rows. */
module CanonicalRows {
  import opened Schema
  import opened Staging

  /** `id` is one of the first `next` ids of the stream. */
  ghost predicate Drawn(uuid4: nat -> Id, next: nat, id: Id) {
    exists k: nat :: k < next && uuid4(k) == id
  }

  ghost predicate Injective(uuid4: nat -> Id) {
    forall i: nat, j: nat :: uuid4(i) == uuid4(j) ==> i == j
  }

  ghost predicate AllDrawn<T>(uuid4: nat -> Id, next: nat, rows: seq<Row<T>>) {
    DistinctIds(rows) && forall i | 0 <= i < |rows| :: Drawn(uuid4, next, rows[i].id)
  }

  lemma DrawnLater<T>(uuid4: nat -> Id, next: nat, later: nat, rows: seq<Row<T>>)
    requires AllDrawn(uuid4, next, rows) && next <= later
    ensures AllDrawn(uuid4, later, rows)
  {
  }

  /** Rows with the next ids in turn. */
  ghost predicate InTurn<T>(uuid4: nat -> Id, next: nat, rows: seq<Row<T>>) {
    forall k | 0 <= k < |rows| :: rows[k].id == uuid4(next + k)
  }

  // ---- table by table ----------------------------------------------------------------------------------

  ghost predicate RoutesWell(p: Platform, routes: seq<Row<RouteAttrs>>, versions: seq<Row<Version>>) {
    && |versions| == |routes|
    && (forall i | 0 <= i < |routes| ::
      p.uuid5(routes[i].cols.code) == routes[i].id
      && versions[i].cols.routeId == routes[i].id)
    && DistinctIds(routes)
  }

  ghost predicate DirectionsWell(uuid4: nat -> Id, next: nat, versions: set<Id>, rows: seq<Row<DirectionInfo>>) {
    && AllDrawn(uuid4, next, rows)
    && (forall i | 0 <= i < |rows| :: rows[i].cols.versionId in versions)
    && (forall i, j | 0 <= i < j < |rows| && rows[i].cols.versionId == rows[j].cols.versionId ::
      rows[i].cols.sequence != rows[j].cols.sequence)
  }

  /** Direction `d` of version `v` is among the rows. */
  ghost predicate DirectionAt(rows: seq<Row<DirectionInfo>>, d: Id, v: Id) {
    exists i :: 0 <= i < |rows| && rows[i].id == d && rows[i].cols.versionId == v
  }

  ghost predicate ServicesWell(uuid4: nat -> Id, next: nat, versions: set<Id>, directions: seq<Row<DirectionInfo>>,
      rows: seq<Row<Service>>) {
    && AllDrawn(uuid4, next, rows)
    && (forall i | 0 <= i < |rows| :: rows[i].cols.versionId in versions)
    && (forall i | 0 <= i < |rows| && rows[i].cols.directionId.Some? ::
      DirectionAt(directions, rows[i].cols.directionId.value, rows[i].cols.versionId))
    && (forall i, j | 0 <= i < j < |rows| && rows[i].cols.versionId == rows[j].cols.versionId ::
      rows[i].cols.departureLabel != rows[j].cols.departureLabel)
  }

  ghost predicate SegmentsWell(uuid4: nat -> Id, next: nat, versions: set<Id>, directions: seq<Row<DirectionInfo>>,
      rows: seq<Row<Segment>>) {
    && AllDrawn(uuid4, next, rows)
    && (forall i | 0 <= i < |rows| :: rows[i].cols.versionId in versions)
    && (forall i | 0 <= i < |rows| :: DirectionAt(directions, rows[i].cols.directionId, rows[i].cols.versionId))
    && (forall i, j | 0 <= i < j < |rows| && rows[i].cols.directionId == rows[j].cols.directionId ::
      rows[i].cols.sequence != rows[j].cols.sequence)
  }

  // ---- the parts make the whole --------------------------------------------------------------------------

  lemma RoutesWellMeans(p: Platform, e: Export)
    requires RoutesWell(p, e.routes, e.versions)
    ensures OneVersionEach(e) && forall row | row in e.routes :: p.uuid5(row.cols.code) == row.id
  {
  }

  lemma DirectionAtIs(rows: seq<Row<DirectionInfo>>, d: Id, v: Id)
    requires DirectionAt(rows, d, v)
    ensures HasDirection(rows, d, v)
  {
  }

  lemma PartsMakeWhole(p: Platform, uuid4: nat -> Id, next: nat, e: Export)
    requires RoutesWell(p, e.routes, e.versions) && DistinctIds(e.versions)
    requires GeometriesRead(p, e.segments) && GeometriesTaken(p, e.segments)
    requires DirectionsWell(uuid4, next, IdSet(e.versions), e.directions)
    requires ServicesWell(uuid4, next, IdSet(e.versions), e.directions, e.services)
    requires SegmentsWell(uuid4, next, IdSet(e.versions), e.directions, e.segments)
    ensures WellFormed(p, e)
  {
    RoutesWellMeans(p, e);
    forall row | row in e.services && row.cols.directionId.Some?
      ensures HasDirection(e.directions, row.cols.directionId.value, row.cols.versionId)
    {
      DirectionAtIs(e.directions, row.cols.directionId.value, row.cols.versionId);
    }
    forall row | row in e.segments ensures HasDirection(e.directions, row.cols.directionId, row.cols.versionId) {
      DirectionAtIs(e.directions, row.cols.directionId, row.cols.versionId);
    }
  }
}
