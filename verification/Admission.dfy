/** A fresh, well-formed export is always accepted: no insert of the stage can violate the schema. */
module Admission {
  import opened Schema
  import opened Invariant
  import opened Staging

  lemma RoutesAdmitted(p: Platform, db: Db, e: Export)
    requires CodesSound(p, db) && forall row | row in e.routes :: p.uuid5(row.cols.code) == row.id
    ensures AllFit(db.routes, e.routes, PutMissing, RouteFits)
  {
    forall i | 0 <= i < |e.routes| ensures RouteFits(LoadedTo(db.routes, e.routes, i, PutMissing), e.routes[i]) {
      var table := LoadedTo(db.routes, e.routes, i, PutMissing);
      MergedToShape(db.routes, e.routes, i);
      forall r | r in table ensures p.uuid5(table[r].code) == r {
        if r !in db.routes {
          assert Row(r, table[r]) in e.routes;
        }
      }
      assert e.routes[i] in e.routes;
    }
  }

  /** Before row `n` the table holds its old keys and those of the earlier rows. */
  lemma {:induction false} PrefixGrows<K(!new), T(!new)>(table: map<K, T>, rows: seq<Keyed<K, T>>, n: nat)
    requires n < |rows| && DistinctIds(rows) && forall row | row in rows :: row.id !in table
    ensures Grown(table, rows[..n], LoadedTo(table, rows, n, Put))
    ensures rows[n].id !in LoadedTo(table, rows, n, Put)
    ensures forall k | k in LoadedTo(table, rows, n, Put) && k !in table ::
      exists j :: 0 <= j < n && rows[j] == Row(k, LoadedTo(table, rows, n, Put)[k])
  {
    var before := LoadedTo(table, rows, n, Put);
    FilledToGrows(table, rows, n);
    forall k | k in before && k !in table ensures exists j :: 0 <= j < n && rows[j] == Row(k, before[k]) {
      assert Row(k, before[k]) in rows[..n];
    }
    assert rows[n] in rows;
  }

  lemma VersionsAdmitted(db: Db, base: Db, e: Export)
    requires DistinctIds(e.versions) && forall row | row in e.versions :: row.id !in db.versions
    requires forall row | row in e.versions :: row.cols.routeId in base.routes
    ensures VersionsFit(base, db.versions, e.versions)
  {
    forall i | 0 <= i < |e.versions| ensures VersionFits(base, LoadedTo(db.versions, e.versions, i, Put),
      e.versions[i]) {
      PrefixGrows(db.versions, e.versions, i);
      assert e.versions[i] in e.versions;
    }
  }

  lemma SnapshotsAdmitted(db: Db, base: Db, g: Id, e: Export)
    requires DistinctIds(e.routes) && g in base.generations
    requires forall k | k in db.snapshots :: k.generation != g
    requires forall row | row in e.routes :: row.id in base.routes
    ensures SnapshotsFit(base, db.snapshots, SnapshotRows(g, e.routes))
  {
    var rows := SnapshotRows(g, e.routes);
    forall i | 0 <= i < |rows| ensures SnapshotFits(base, LoadedTo(db.snapshots, rows, i, Put), rows[i]) {
      PrefixGrows(db.snapshots, rows, i);
      assert e.routes[i] in e.routes;
    }
  }

  lemma DirectionsAdmitted(p: Platform, db: Db, base: Db, e: Export)
    requires DetailsAttached(db) && KeysUnique(e) && DistinctIds(e.directions)
    requires forall row | row in e.directions :: row.id !in db.directions && row.cols.versionId in IdSet(e.versions)
    requires forall v | v in IdSet(e.versions) :: v in base.versions && v !in db.versions
    ensures DirectionsFit(base, db.directions, DirectionRows(p, e))
  {
    var rows := DirectionRows(p, e);
    assert forall row | row in rows :: row.id !in db.directions;
    forall i | 0 <= i < |rows| ensures DirectionFits(base, LoadedTo(db.directions, rows, i, Put), rows[i]) {
      PrefixGrows(db.directions, rows, i);
      assert e.directions[i] in e.directions;
      var table := LoadedTo(db.directions, rows, i, Put);
      forall d | d in table && table[d].info.versionId == rows[i].cols.info.versionId
        ensures table[d].info.sequence != rows[i].cols.info.sequence
      {
        assert d !in db.directions;
        var j :| 0 <= j < i && rows[j] == Row(d, table[d]);
      }
    }
  }

  lemma ServicesAdmitted(p: Platform, db: Db, base: Db, e: Export)
    requires WellFormed(p, e) && DetailsAttached(db)
    requires forall row | row in e.services :: row.id !in db.services
    requires forall v | v in IdSet(e.versions) :: v in base.versions && v !in db.versions
    requires forall row | row in e.directions :: row.id in base.directions
    ensures ServicesFit(base, db.services, e.services)
  {
    var rows := e.services;
    forall i | 0 <= i < |rows| ensures ServiceFits(base, LoadedTo(db.services, rows, i, Put), rows[i]) {
      PrefixGrows(db.services, rows, i);
      assert rows[i] in rows;
      var table := LoadedTo(db.services, rows, i, Put);
      forall s | s in table && table[s].versionId == rows[i].cols.versionId
        ensures table[s].departureLabel != rows[i].cols.departureLabel
      {
        assert s !in db.services;
        var j :| 0 <= j < i && rows[j] == Row(s, table[s]);
      }
    }
  }

  lemma SegmentsAdmitted(p: Platform, db: Db, base: Db, e: Export)
    requires WellFormed(p, e) && DetailsAttached(db)
    requires forall row | row in e.segments :: row.id !in db.segments
    requires forall v | v in IdSet(e.versions) :: v in base.versions && v !in db.versions
    requires forall row | row in e.directions :: row.id in base.directions
    ensures SegmentsFit(p, base, db.segments, e.segments)
  {
    var rows := e.segments;
    forall i | 0 <= i < |rows| ensures SegmentFits(p, base, LoadedTo(db.segments, rows, i, Put), rows[i]) {
      PrefixGrows(db.segments, rows, i);
      assert rows[i] in rows;
      var table := LoadedTo(db.segments, rows, i, Put);
      forall s | s in table && table[s].versionId == rows[i].cols.versionId
        && table[s].directionId == rows[i].cols.directionId
        ensures table[s].sequence != rows[i].cols.sequence
      {
        assert s !in db.segments;
        var j :| 0 <= j < i && rows[j] == Row(s, table[s]);
      }
    }
  }

  lemma MembersAdmitted(base: Db, g: Id, e: Export)
    requires DistinctIds(e.versions) && OneVersionEach(e) && g in base.generations
    requires forall m | m in base.members :: m.generation != g
    requires forall row | row in e.versions :: row.id in base.versions && row.cols.routeId in base.routes
    ensures MembersFit(base, g, e.versions)
  {
  }

  /** The first half of the transaction: routes, snapshots, versions. */
  lemma BaseAdmitted(p: Platform, db: Db, g: Id, e: Export)
    requires Inv(p, db) && WellFormed(p, e) && Fresh(db, g, e)
    ensures AllFit(db.routes, e.routes, PutMissing, RouteFits)
    ensures SnapshotsFit(AfterRoutes(db, g, e), db.snapshots, SnapshotRows(g, e.routes))
    ensures VersionsFit(AfterRoutes(db, g, e), db.versions, e.versions)
  {
    var base := AfterRoutes(db, g, e);
    RoutesAdmitted(p, db, e);
    MergedShape(db.routes, e.routes);
    SnapshotsOlder(db, g);
    SnapshotsAdmitted(db, base, g, e);
    forall row | row in e.versions ensures row.cols.routeId in base.routes {
      assert row.cols.routeId in IdSet(e.routes);
    }
    VersionsAdmitted(db, base, e);
  }

  lemma SnapshotsOlder(db: Db, g: Id)
    requires MembersAttached(db) && db.snapshots.Keys == MemberKeys(db.members) && g !in db.generations
    ensures forall k | k in db.snapshots :: k.generation != g
    ensures forall m | m in db.members :: m.generation != g
  {
  }

  lemma VersionsLoaded(db: Db, e: Export)
    requires DistinctIds(e.versions) && forall row | row in e.versions :: row.id !in db.versions
    ensures forall v | v in IdSet(e.versions) :: v in Loaded(db.versions, e.versions, Put) && v !in db.versions
  {
    FilledGrows(db.versions, e.versions);
  }

  lemma DirectionsLoaded(p: Platform, db: Db, e: Export)
    requires DistinctIds(e.directions) && forall row | row in e.directions :: row.id !in db.directions
    ensures forall row | row in e.directions :: row.id in Loaded(db.directions, DirectionRows(p, e), Put)
  {
    var rows := DirectionRows(p, e);
    assert forall row | row in rows :: row.id !in db.directions;
    FilledGrows(db.directions, rows);
    forall row | row in e.directions ensures row.id in Loaded(db.directions, rows, Put) {
      var i :| 0 <= i < |e.directions| && e.directions[i] == row;
      assert rows[i] in rows;
    }
  }

  /** A fresh, well-formed export is accepted by every reachable store. */
  lemma FreshIsAccepted(p: Platform, db: Db, g: Id, e: Export)
    requires Inv(p, db) && WellFormed(p, e) && Fresh(db, g, e)
    ensures Accepts(p, db, g, e)
  {
    BaseAdmitted(p, db, g, e);
    VersionsLoaded(db, e);
    DirectionsLoaded(p, db, e);
    DirectionsAdmitted(p, db, AfterVersions(db, g, e), e);
    ServicesAdmitted(p, db, AfterDirections(p, db, g, e), e);
    SegmentsAdmitted(p, db, AfterDirections(p, db, g, e), e);
    SnapshotsOlder(db, g);
    MergedShape(db.routes, e.routes);
    forall row | row in e.versions ensures row.cols.routeId in Loaded(db.routes, e.routes, PutMissing) {
      assert row.cols.routeId in IdSet(e.routes);
    }
    MembersAdmitted(AfterDirections(p, db, g, e), g, e);
  }
}
