/** The keys of the schema, and that no stage breaks them, whatever rows it is given. */
module SchemaKeys {
  import opened Schema
  import opened Wkt
  import opened Invariant
  import opened Staging
  import opened Admission

  // ---- the schema ------------------------------------------------------------------------------------------

  ghost predicate RoutesHold(routes: map<Id, RouteAttrs>) {
    forall r, q | r in routes && q in routes && routes[r].code == routes[q].code :: r == q
  }

  ghost predicate SnapshotsHold(db: Db, snapshots: map<SnapshotKey, RouteAttrs>) {
    forall k | k in snapshots :: k.generation in db.generations && k.route in db.routes
  }

  ghost predicate VersionsHold(db: Db, versions: map<Id, Version>) {
    forall v | v in versions :: versions[v].routeId in db.routes
  }

  ghost predicate DirectionsHold(db: Db, directions: map<Id, Direction>) {
    && (forall d | d in directions :: directions[d].info.versionId in db.versions)
    && (forall d, e | d in directions && e in directions
          && directions[d].info.versionId == directions[e].info.versionId
          && directions[d].info.sequence == directions[e].info.sequence :: d == e)
  }

  ghost predicate ServicesHold(db: Db, services: map<Id, Service>) {
    && (forall s | s in services :: services[s].versionId in db.versions
          && (services[s].directionId.Some? ==> services[s].directionId.value in db.directions))
    && (forall s, t | s in services && t in services && services[s].versionId == services[t].versionId
          && services[s].departureLabel == services[t].departureLabel :: s == t)
  }

  ghost predicate SegmentsHold(p: Platform, db: Db, segments: map<Id, Segment>) {
    && (forall s | s in segments ::
          && segments[s].versionId in db.versions && segments[s].directionId in db.directions
          && Taken(p, segments[s].geometry))
    && (forall s, t | s in segments && t in segments && segments[s].versionId == segments[t].versionId
          && segments[s].directionId == segments[t].directionId && segments[s].sequence == segments[t].sequence ::
            s == t)
  }

  ghost predicate MembersHold(db: Db, members: set<Member>) {
    && (forall m | m in members :: m.generation in db.generations && m.route in db.routes && m.version in db.versions)
    && (forall m, n | m in members && n in members && m.generation == n.generation
          && (m.route == n.route || m.version == n.version) :: m == n)
  }

  /** Every unique key and every foreign key of the schema, and the type of the geography column. */
  ghost predicate SchemaHolds(p: Platform, db: Db) {
    && RoutesHold(db.routes)
    && SnapshotsHold(db, db.snapshots)
    && VersionsHold(db, db.versions)
    && DirectionsHold(db, db.directions)
    && ServicesHold(db, db.services)
    && SegmentsHold(p, db, db.segments)
    && MembersHold(db, db.members)
    && (forall g | g in db.counts :: g in db.generations)
    && (forall role | role in db.pointers :: db.pointers[role] in db.generations)
  }

  // ---- row by row ------------------------------------------------------------------------------------------

  /** What every fitting row keeps, the whole load keeps. */
  lemma {:induction false} LoadKeeps<K(!new), T(!new)>(table: map<K, T>, rows: seq<Keyed<K, T>>, n: nat,
      put: (map<K, T>, Keyed<K, T>) -> map<K, T>, fits: (map<K, T>, Keyed<K, T>) -> bool,
      holds: map<K, T> -> bool)
    requires n <= |rows| && FitTo(table, rows, n, put, fits) && holds(table)
    requires forall t, row | holds(t) && fits(t, row) :: holds(put(t, row))
    ensures holds(LoadedTo(table, rows, n, put))
  {
    if n > 0 {
      LoadKeeps(table, rows, n - 1, put, fits, holds);
      assert fits(LoadedTo(table, rows, n - 1, put), rows[n - 1]);
    }
  }

  lemma RoutesLoaded(routes: map<Id, RouteAttrs>, rows: seq<Row<RouteAttrs>>)
    requires AllFit(routes, rows, PutMissing, RouteFits) && RoutesHold(routes)
    ensures RoutesHold(Loaded(routes, rows, PutMissing))
  {
    LoadKeeps(routes, rows, |rows|, PutMissing, RouteFits, t => RoutesHold(t));
  }

  lemma SnapshotsLoaded(db: Db, snapshots: map<SnapshotKey, RouteAttrs>, rows: seq<Keyed<SnapshotKey, RouteAttrs>>)
    requires SnapshotsFit(db, snapshots, rows) && SnapshotsHold(db, snapshots)
    ensures SnapshotsHold(db, Loaded(snapshots, rows, Put))
  {
    LoadKeeps(snapshots, rows, |rows|, Put, (t, row) => SnapshotFits(db, t, row), t => SnapshotsHold(db, t));
  }

  lemma VersionsLoaded(db: Db, versions: map<Id, Version>, rows: seq<Row<Version>>)
    requires VersionsFit(db, versions, rows) && VersionsHold(db, versions)
    ensures VersionsHold(db, Loaded(versions, rows, Put))
  {
    LoadKeeps(versions, rows, |rows|, Put, (t, row) => VersionFits(db, t, row), t => VersionsHold(db, t));
  }

  lemma DirectionsLoaded(db: Db, directions: map<Id, Direction>, rows: seq<Row<Direction>>)
    requires DirectionsFit(db, directions, rows) && DirectionsHold(db, directions)
    ensures DirectionsHold(db, Loaded(directions, rows, Put))
  {
    LoadKeeps(directions, rows, |rows|, Put, (t, row) => DirectionFits(db, t, row), t => DirectionsHold(db, t));
  }

  lemma ServicesLoaded(db: Db, services: map<Id, Service>, rows: seq<Row<Service>>)
    requires ServicesFit(db, services, rows) && ServicesHold(db, services)
    ensures ServicesHold(db, Loaded(services, rows, Put))
  {
    LoadKeeps(services, rows, |rows|, Put, (t, row) => ServiceFits(db, t, row), t => ServicesHold(db, t));
  }

  lemma SegmentsLoaded(p: Platform, db: Db, segments: map<Id, Segment>, rows: seq<Row<Segment>>)
    requires SegmentsFit(p, db, segments, rows) && SegmentsHold(p, db, segments)
    ensures SegmentsHold(p, db, Loaded(segments, rows, Put))
  {
    LoadKeeps(segments, rows, |rows|, Put, (t, row) => SegmentFits(p, db, t, row), t => SegmentsHold(p, db, t));
  }

  lemma {:induction false} MembersLoaded(db: Db, g: Id, rows: seq<Row<Version>>, n: nat)
    requires n <= |rows| && MembersFit(db, g, rows) && MembersHold(db, db.members)
    ensures MembersHold(db, db.members + MembersFrom(g, rows[..n]))
  {
    if n > 0 {
      MembersLoaded(db, g, rows, n - 1);
      var m, before := Member(g, rows[n - 1].cols.routeId, rows[n - 1].id), db.members + MembersFrom(g, rows[..n - 1]);
      assert rows[..n] == rows[..n - 1] + [rows[n - 1]];
      assert db.members + MembersFrom(g, rows[..n]) == before + {m};
      assert MemberFits(db, before, m);
    } else {
      assert db.members + MembersFrom(g, rows[..0]) == db.members;
    }
  }

  // ---- keys that point to more -------------------------------------------------------------------------------

  /** `more` has every key that other tables may point to. */
  ghost predicate Widens(db: Db, more: Db) {
    && db.generations.Keys <= more.generations.Keys && db.routes.Keys <= more.routes.Keys
    && db.versions.Keys <= more.versions.Keys && db.directions.Keys <= more.directions.Keys
  }

  lemma WiderStillHolds(p: Platform, db: Db, more: Db)
    requires Widens(db, more)
    ensures forall t | SnapshotsHold(db, t) :: SnapshotsHold(more, t)
    ensures forall t | VersionsHold(db, t) :: VersionsHold(more, t)
    ensures forall t | DirectionsHold(db, t) :: DirectionsHold(more, t)
    ensures forall t | ServicesHold(db, t) :: ServicesHold(more, t)
    ensures forall t | SegmentsHold(p, db, t) :: SegmentsHold(p, more, t)
    ensures forall t | MembersHold(db, t) :: MembersHold(more, t)
  {
  }

  lemma {:induction false} LoadWidens<K(!new), T(!new)>(table: map<K, T>, rows: seq<Keyed<K, T>>, n: nat,
      put: (map<K, T>, Keyed<K, T>) -> map<K, T>)
    requires n <= |rows| && forall t: map<K, T>, row :: t.Keys <= put(t, row).Keys
    ensures table.Keys <= LoadedTo(table, rows, n, put).Keys
  {
    if n > 0 {
      LoadWidens(table, rows, n - 1, put);
    }
  }

  lemma StagingWidens(p: Platform, db: Db, g: Id, e: Export)
    ensures Widens(db, AfterRoutes(db, g, e))
    ensures Widens(AfterRoutes(db, g, e), AfterVersions(db, g, e))
    ensures Widens(AfterVersions(db, g, e), AfterDirections(p, db, g, e))
    ensures Widens(AfterDirections(p, db, g, e), Staged(p, db, g, e))
  {
    LoadWidens(db.routes, e.routes, |e.routes|, PutMissing);
    LoadWidens(db.versions, e.versions, |e.versions|, Put);
    LoadWidens(db.directions, DirectionRows(p, e), |e.directions|, Put);
  }

  // ---- the whole stage ---------------------------------------------------------------------------------------

  lemma BaseKeepsSchema(p: Platform, db: Db, g: Id, e: Export)
    requires SchemaHolds(p, db) && AcceptsBase(db, g, e)
    ensures SchemaHolds(p, AfterVersions(db, g, e))
  {
    var base, mid := AfterRoutes(db, g, e), AfterVersions(db, g, e);
    StagingWidens(p, db, g, e);
    RoutesLoaded(db.routes, e.routes);
    WiderStillHolds(p, db, base);
    SnapshotsLoaded(base, db.snapshots, SnapshotRows(g, e.routes));
    VersionsLoaded(base, db.versions, e.versions);
    WiderStillHolds(p, base, mid);
  }

  lemma DirectionsKeepSchema(p: Platform, db: Db, e: Export)
    requires SchemaHolds(p, db) && AcceptsDirections(p, db, e)
    ensures SchemaHolds(p, WithDirections(p, db, e))
  {
    LoadWidens(db.directions, DirectionRows(p, e), |e.directions|, Put);
    DirectionsLoaded(db, db.directions, DirectionRows(p, e));
    WiderStillHolds(p, db, WithDirections(p, db, e));
  }

  lemma TracksKeepSchema(p: Platform, db: Db, g: Id, e: Export)
    requires SchemaHolds(p, db) && AcceptsTracks(p, db, g, e) && g in db.generations
    ensures SchemaHolds(p, WithTracks(p, db, g, e))
  {
    var base, after := WithDirections(p, db, e), WithTracks(p, db, g, e);
    DirectionsKeepSchema(p, db, e);
    ServicesLoaded(base, base.services, e.services);
    SegmentsLoaded(p, base, base.segments, e.segments);
    MembersLoaded(base, g, e.versions, |e.versions|);
    assert e.versions[..|e.versions|] == e.versions;
    WiderStillHolds(p, base, after);
  }

  /** Whatever rows are staged, closed or not, the schema's keys hold afterwards. */
  lemma StageKeepsSchema(p: Platform, db: Db, g: Id, e: Export)
    requires SchemaHolds(p, db) && Accepts(p, db, g, e)
    ensures SchemaHolds(p, Staged(p, db, g, e))
  {
    BaseKeepsSchema(p, db, g, e);
    TracksKeepSchema(p, AfterVersions(db, g, e), g, e);
  }

  // ---- and it refuses nothing else -----------------------------------------------------------------------------

  /** New rows under new keys. */
  ghost predicate AreNew<K(!new), T(!new)>(table: map<K, T>, rows: seq<Keyed<K, T>>) {
    DistinctIds(rows) && forall row | row in rows :: row.id !in table
  }

  /** No primary key is used twice: neither within the export nor with the store. */
  ghost predicate IdsAreNew(p: Platform, db: Db, g: Id, e: Export) {
    && g !in db.generations && DistinctIds(e.routes)
    && AreNew(db.versions, e.versions) && AreNew(db.directions, DirectionRows(p, e))
    && AreNew(db.services, e.services) && AreNew(db.segments, e.segments)
  }

  /** What is in the table when row `n` comes stays there, under other keys, and so does the row. */
  lemma {:induction false} EarlierStays<K(!new), T(!new)>(table: map<K, T>, rows: seq<Keyed<K, T>>, n: nat)
    requires AreNew(table, rows) && n < |rows|
    ensures var before, after := LoadedTo(table, rows, n, Put), Loaded(table, rows, Put);
      && rows[n].id !in before && rows[n].id in after && after[rows[n].id] == rows[n].cols
      && forall k | k in before :: k in after && after[k] == before[k]
  {
    PrefixGrows(table, rows, n);
    FilledGrows(table, rows);
    assert rows[n] in rows;
    var before, after := LoadedTo(table, rows, n, Put), Loaded(table, rows, Put);
    forall k | k in before ensures k in after && after[k] == before[k] {
      if k !in table {
        var j :| 0 <= j < n && rows[j] == Row(k, before[k]);
        assert rows[j] in rows;
      }
    }
  }

  lemma {:induction false} MissingStays(table: map<Id, RouteAttrs>, rows: seq<Row<RouteAttrs>>, i: nat, n: nat)
    requires i <= n <= |rows|
    ensures forall r | r in LoadedTo(table, rows, i, PutMissing) ::
      r in LoadedTo(table, rows, n, PutMissing)
      && LoadedTo(table, rows, n, PutMissing)[r] == LoadedTo(table, rows, i, PutMissing)[r]
  {
    if i < n {
      MissingStays(table, rows, i, n - 1);
    }
  }

  lemma RoutesAllFit(routes: map<Id, RouteAttrs>, rows: seq<Row<RouteAttrs>>)
    requires RoutesHold(Loaded(routes, rows, PutMissing))
    ensures AllFit(routes, rows, PutMissing, RouteFits)
  {
    forall i | 0 <= i < |rows| ensures RouteFits(LoadedTo(routes, rows, i, PutMissing), rows[i]) {
      var id: Id, before, after := rows[i].id, LoadedTo(routes, rows, i, PutMissing), Loaded(routes, rows, PutMissing);
      MissingStays(routes, rows, i, |rows|);
      MissingStays(routes, rows, i + 1, |rows|);
      if id !in before {
        assert LoadedTo(routes, rows, i + 1, PutMissing) == before[id := rows[i].cols];
        assert id in after && after[id] == rows[i].cols;
        assert forall r | r in before :: r in after && after[r] == before[r];
      }
    }
  }

  lemma SnapshotsAllFit(db: Db, snapshots: map<SnapshotKey, RouteAttrs>, rows: seq<Keyed<SnapshotKey, RouteAttrs>>)
    requires AreNew(snapshots, rows) && SnapshotsHold(db, Loaded(snapshots, rows, Put))
    ensures SnapshotsFit(db, snapshots, rows)
  {
    forall i | 0 <= i < |rows| ensures SnapshotFits(db, LoadedTo(snapshots, rows, i, Put), rows[i]) {
      EarlierStays(snapshots, rows, i);
    }
  }

  lemma VersionsAllFit(db: Db, versions: map<Id, Version>, rows: seq<Row<Version>>)
    requires AreNew(versions, rows) && VersionsHold(db, Loaded(versions, rows, Put))
    ensures VersionsFit(db, versions, rows)
  {
    forall i | 0 <= i < |rows| ensures VersionFits(db, LoadedTo(versions, rows, i, Put), rows[i]) {
      EarlierStays(versions, rows, i);
      var id: Id, after := rows[i].id, Loaded(versions, rows, Put);
      assert id in after && after[id] == rows[i].cols;
      assert forall k | k in LoadedTo(versions, rows, i, Put) :: k in after;
    }
  }

  lemma DirectionsAllFit(db: Db, directions: map<Id, Direction>, rows: seq<Row<Direction>>)
    requires AreNew(directions, rows) && DirectionsHold(db, Loaded(directions, rows, Put))
    ensures DirectionsFit(db, directions, rows)
  {
    forall i | 0 <= i < |rows| ensures DirectionFits(db, LoadedTo(directions, rows, i, Put), rows[i]) {
      EarlierStays(directions, rows, i);
      var id: Id, after := rows[i].id, Loaded(directions, rows, Put);
      assert id in after && after[id] == rows[i].cols;
      assert forall k | k in LoadedTo(directions, rows, i, Put) :: k in after;
    }
  }

  lemma ServicesAllFit(db: Db, services: map<Id, Service>, rows: seq<Row<Service>>)
    requires AreNew(services, rows) && ServicesHold(db, Loaded(services, rows, Put))
    ensures ServicesFit(db, services, rows)
  {
    forall i | 0 <= i < |rows| ensures ServiceFits(db, LoadedTo(services, rows, i, Put), rows[i]) {
      EarlierStays(services, rows, i);
      var id: Id, after := rows[i].id, Loaded(services, rows, Put);
      assert id in after && after[id] == rows[i].cols;
      assert forall k | k in LoadedTo(services, rows, i, Put) :: k in after;
    }
  }

  lemma SegmentsAllFit(p: Platform, db: Db, segments: map<Id, Segment>, rows: seq<Row<Segment>>)
    requires AreNew(segments, rows) && SegmentsHold(p, db, Loaded(segments, rows, Put))
    ensures SegmentsFit(p, db, segments, rows)
  {
    forall i | 0 <= i < |rows| ensures SegmentFits(p, db, LoadedTo(segments, rows, i, Put), rows[i]) {
      EarlierStays(segments, rows, i);
      var id: Id, after := rows[i].id, Loaded(segments, rows, Put);
      assert id in after && after[id] == rows[i].cols;
      assert forall k | k in LoadedTo(segments, rows, i, Put) :: k in after;
    }
  }

  lemma MembersAllFit(db: Db, g: Id, rows: seq<Row<Version>>)
    requires DistinctIds(rows) && MembersHold(db, db.members + MembersFrom(g, rows))
    requires forall m | m in db.members :: m.generation != g
    ensures MembersFit(db, g, rows)
  {
    var whole := db.members + MembersFrom(g, rows);
    forall i | 0 <= i < |rows|
      ensures MemberFits(db, db.members + MembersFrom(g, rows[..i]), Member(g, rows[i].cols.routeId, rows[i].id))
    {
      var m := Member(g, rows[i].cols.routeId, rows[i].id);
      assert rows[i] in rows && m in whole;
      forall n | n in db.members + MembersFrom(g, rows[..i]) && n.generation == g
        ensures n.route != m.route && n.version != m.version
      {
        var row :| row in rows[..i] && n == Member(g, row.cols.routeId, row.id);
        var j :| 0 <= j < i && rows[j] == row;
        assert rows[j] in rows && n in whole;
      }
    }
  }

  lemma BaseAllFits(p: Platform, db: Db, g: Id, e: Export)
    requires SchemaHolds(p, db) && IdsAreNew(p, db, g, e) && SchemaHolds(p, Staged(p, db, g, e))
    ensures AcceptsBase(db, g, e)
  {
    var base := AfterRoutes(db, g, e);
    RoutesAllFit(db.routes, e.routes);
    SnapshotsAllFit(base, db.snapshots, SnapshotRows(g, e.routes));
    VersionsAllFit(base, db.versions, e.versions);
  }

  lemma TracksAllFit(p: Platform, db: Db, g: Id, e: Export)
    requires SchemaHolds(p, db) && IdsAreNew(p, db, g, e) && SchemaHolds(p, Staged(p, db, g, e))
    requires GeometriesRead(p, e.segments)
    ensures AcceptsTracks(p, AfterVersions(db, g, e), g, e)
  {
    var mid, full := AfterVersions(db, g, e), AfterDirections(p, db, g, e);
    DirectionsAllFit(mid, db.directions, DirectionRows(p, e));
    ServicesAllFit(full, db.services, e.services);
    SegmentsAllFit(p, full, db.segments, e.segments);
    MembersAllFit(full, g, e.versions);
  }

  lemma AcceptedIsNew(p: Platform, db: Db, g: Id, e: Export)
    requires Accepts(p, db, g, e)
    ensures IdsAreNew(p, db, g, e)
  {
    var base, mid, full := AfterRoutes(db, g, e), AfterVersions(db, g, e), AfterDirections(p, db, g, e);
    FittedIsNew(db.snapshots, SnapshotRows(g, e.routes), (t, row) => SnapshotFits(base, t, row));
    FittedIsNew(db.versions, e.versions, (t, row) => VersionFits(base, t, row));
    FittedIsNew(db.directions, DirectionRows(p, e), (t, row) => DirectionFits(mid, t, row));
    FittedIsNew(db.services, e.services, (t, row) => ServiceFits(full, t, row));
    FittedIsNew(db.segments, e.segments, (t, row) => SegmentFits(p, full, t, row));
    forall i, j | 0 <= i < j < |e.routes| ensures e.routes[i].id != e.routes[j].id {
      assert SnapshotRows(g, e.routes)[i].id != SnapshotRows(g, e.routes)[j].id;
    }
  }

  lemma FittedIsNew<K(!new), T(!new)>(table: map<K, T>, rows: seq<Keyed<K, T>>, fits: (map<K, T>, Keyed<K, T>) -> bool)
    requires AllFit(table, rows, Put, fits)
    requires forall t, row :: fits(t, row) ==> row.id !in t
    ensures AreNew(table, rows)
  {
    FittingIsFresh(table, rows);
  }

  /** A stage is accepted exactly if no id is used twice, every geometry reads, and the schema's keys hold with
      all the rows in place. */
  lemma AcceptedExactly(p: Platform, db: Db, g: Id, e: Export)
    requires SchemaHolds(p, db)
    ensures Accepts(p, db, g, e) <==>
      IdsAreNew(p, db, g, e) && GeometriesRead(p, e.segments) && SchemaHolds(p, Staged(p, db, g, e))
  {
    if Accepts(p, db, g, e) {
      AcceptedIsNew(p, db, g, e);
      StageKeepsSchema(p, db, g, e);
    }
    if IdsAreNew(p, db, g, e) && GeometriesRead(p, e.segments) && SchemaHolds(p, Staged(p, db, g, e)) {
      BaseAllFits(p, db, g, e);
      TracksAllFit(p, db, g, e);
    }
  }

  /** Every reachable store meets the schema. */
  lemma SoundMeetsSchema(p: Platform, db: Db)
    requires Inv(p, db)
    ensures SchemaHolds(p, db)
  {
    forall r, q | r in db.routes && q in db.routes && db.routes[r].code == db.routes[q].code ensures r == q {
      assert p.uuid5(db.routes[r].code) == r && p.uuid5(db.routes[q].code) == q;
    }
    forall k | k in db.snapshots ensures k.generation in db.generations && k.route in db.routes {
      assert k in MemberKeys(db.members);
    }
    DetailsMeetSchema(p, db);
  }

  lemma DetailsMeetSchema(p: Platform, db: Db)
    requires DetailsAttached(db) && DetailsUnique(db) && LinksInside(db) && GeometriesSound(p, db)
    ensures DirectionsHold(db, db.directions) && ServicesHold(db, db.services) && SegmentsHold(p, db, db.segments)
  {
  }
}
