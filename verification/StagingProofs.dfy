/** A successful stage of a well-formed export keeps the invariant, and a fresh well-formed export
    is always accepted. */
module StagingProofs {
  import opened Schema
  import opened Sorting
  import opened Wkt
  import opened Denorm
  import opened Invariant
  import opened Staging

  /** How the tables of `after` differ from those of `db`. */
  ghost predicate Extends(p: Platform, db: Db, g: Id, e: Export, after: Db) {
    && g !in db.generations
    && after.generations == db.generations[g := Status.Staging]
    && after.members == db.members + MembersFrom(g, e.versions)
    && after.counts == db.counts[g := Expected(e)]
    && after.pointers == db.pointers
    && after.lease == db.lease
    && RoutesExtend(db, e, after)
    && Grown(db.snapshots, SnapshotRows(g, e.routes), after.snapshots)
    && Grown(db.versions, e.versions, after.versions)
    && Grown(db.directions, DirectionRows(p, e), after.directions)
    && Grown(db.services, e.services, after.services)
    && Grown(db.segments, e.segments, after.segments)
  }

  ghost predicate RoutesExtend(db: Db, e: Export, after: Db) {
    && (forall r | r in db.routes :: r in after.routes && after.routes[r] == db.routes[r])
    && (forall r | r in after.routes && r !in db.routes :: Row(r, after.routes[r]) in e.routes)
    && after.routes.Keys == db.routes.Keys + IdSet(e.routes)
  }

  lemma FittedGrows<K(!new), T(!new)>(table: map<K, T>, rows: seq<Keyed<K, T>>, fits: (map<K, T>, Keyed<K, T>) -> bool)
    requires AllFit(table, rows, Put, fits)
    requires forall t, row :: fits(t, row) ==> row.id !in t
    ensures Grown(table, rows, Loaded(table, rows, Put))
  {
    FittingIsFresh(table, rows);
    FilledGrows(table, rows);
  }

  lemma DetailsGrow(p: Platform, db: Db, g: Id, e: Export)
    requires Accepts(p, db, g, e)
    ensures Grown(db.services, e.services, Loaded(db.services, e.services, Put))
    ensures Grown(db.segments, e.segments, Loaded(db.segments, e.segments, Put))
  {
    var full := AfterDirections(p, db, g, e);
    FittedGrows(db.services, e.services, (t, row) => ServiceFits(full, t, row));
    FittedGrows(db.segments, e.segments, (t, row) => SegmentFits(p, full, t, row));
  }

  lemma SnapshotsAndVersionsGrow(p: Platform, db: Db, g: Id, e: Export)
    requires Accepts(p, db, g, e)
    ensures Grown(db.snapshots, SnapshotRows(g, e.routes), Loaded(db.snapshots, SnapshotRows(g, e.routes), Put))
    ensures Grown(db.versions, e.versions, Loaded(db.versions, e.versions, Put))
  {
    var base := AfterRoutes(db, g, e);
    FittedGrows(db.snapshots, SnapshotRows(g, e.routes), (t, row) => SnapshotFits(base, t, row));
    FittedGrows(db.versions, e.versions, (t, row) => VersionFits(base, t, row));
  }

  lemma DirectionsGrow(p: Platform, db: Db, g: Id, e: Export)
    requires Accepts(p, db, g, e)
    ensures Grown(db.directions, DirectionRows(p, e), Loaded(db.directions, DirectionRows(p, e), Put))
  {
    var base := AfterVersions(db, g, e);
    FittedGrows(db.directions, DirectionRows(p, e), (t, row) => DirectionFits(base, t, row));
  }

  lemma StagedExtends(p: Platform, db: Db, g: Id, e: Export)
    requires Accepts(p, db, g, e)
    ensures Extends(p, db, g, e, Staged(p, db, g, e))
  {
    MergedShape(db.routes, e.routes);
    SnapshotsAndVersionsGrow(p, db, g, e);
    DirectionsGrow(p, db, g, e);
    DetailsGrow(p, db, g, e);
  }

  // ---- The invariant, part by part ----------------------------------------------------------------

  lemma StagingKeepsPointers(p: Platform, db: Db, g: Id, e: Export, after: Db)
    requires Extends(p, db, g, e, after) && PointersSound(db)
    ensures PointersSound(after)
  {
  }

  lemma NewVersion(p: Platform, db: Db, g: Id, e: Export, after: Db, v: Id) returns (row: Row<Version>)
    requires Extends(p, db, g, e, after) && v in IdSet(e.versions)
    ensures row in e.versions && row.id == v && v in after.versions && v !in db.versions
      && after.versions[v] == row.cols
  {
    row :| row in e.versions && row.id == v;
  }

  lemma StagingAttaches(p: Platform, db: Db, g: Id, e: Export, after: Db)
    requires Extends(p, db, g, e, after) && WellFormed(p, e) && MembersAttached(db)
    ensures MembersAttached(after)
  {
    forall m | m in after.members
      ensures m.generation in after.generations && m.route in after.routes && m.version in after.versions
      ensures after.versions[m.version].routeId == m.route
    {
      if m !in db.members {
        var row :| row in e.versions && m == Member(g, row.cols.routeId, row.id);
        assert row.cols.routeId in IdSet(e.routes);
      }
    }
  }

  lemma StagedMember(p: Platform, db: Db, g: Id, e: Export, after: Db, m: Member) returns (i: nat)
    requires Extends(p, db, g, e, after) && m in after.members && m !in db.members
    ensures i < |e.versions| && m == Member(g, e.versions[i].cols.routeId, e.versions[i].id)
      && m.version !in db.versions
  {
    var row :| row in e.versions && m == Member(g, row.cols.routeId, row.id);
    i :| 0 <= i < |e.versions| && e.versions[i] == row;
  }

  lemma StagingKeepsUnique(p: Platform, db: Db, g: Id, e: Export, after: Db)
    requires Extends(p, db, g, e, after) && WellFormed(p, e) && MembersAttached(db) && MembersUnique(db)
    ensures MembersUnique(after)
  {
    forall m, n | m in after.members && n in after.members
      && (m.version == n.version || (m.generation == n.generation && m.route == n.route))
      ensures m == n
    {
      if m !in db.members && n !in db.members {
        var i := StagedMember(p, db, g, e, after, m);
        var j := StagedMember(p, db, g, e, after, n);
      } else if m !in db.members {
        var i := StagedMember(p, db, g, e, after, m);
      } else if n !in db.members {
        var j := StagedMember(p, db, g, e, after, n);
      }
    }
  }

  lemma StagingOrphansNoVersion(p: Platform, db: Db, g: Id, e: Export, after: Db)
    requires Extends(p, db, g, e, after) && db.versions.Keys == MemberVersions(db.members)
    ensures after.versions.Keys == MemberVersions(after.members)
  {
    forall v ensures v in after.versions <==> v in MemberVersions(after.members) {
      if v in after.versions && v !in db.versions {
        var row := Row(v, after.versions[v]);
        assert row in e.versions;
        assert Member(g, row.cols.routeId, row.id) in after.members;
      }
      if v in db.versions {
        var m :| m in db.members && m.version == v;
        assert m in after.members;
      }
      if v in MemberVersions(after.members) {
        var m :| m in after.members && m.version == v;
        if m in db.members {
          assert v in MemberVersions(db.members);
        }
      }
    }
  }

  lemma StagingOrphansNoRoute(p: Platform, db: Db, g: Id, e: Export, after: Db)
    requires Extends(p, db, g, e, after) && OneVersionEach(e) && db.routes.Keys == MemberRoutes(db.members)
    ensures after.routes.Keys == MemberRoutes(after.members)
  {
    forall r ensures r in after.routes <==> r in MemberRoutes(after.members) {
      if r in db.routes {
        var m :| m in db.members && m.route == r;
        assert m in after.members;
      } else if r in after.routes {
        assert r in IdSet(e.routes);
        var row :| row in e.versions && row.cols.routeId == r;
        assert Member(g, row.cols.routeId, row.id) in after.members;
      }
      if r in MemberRoutes(after.members) {
        var m :| m in after.members && m.route == r;
        if m in db.members {
          assert r in MemberRoutes(db.members);
        } else {
          assert r in IdSet(e.routes);
        }
      }
    }
  }

  lemma StagingOrphansNoSnapshot(p: Platform, db: Db, g: Id, e: Export, after: Db)
    requires Extends(p, db, g, e, after) && OneVersionEach(e) && db.snapshots.Keys == MemberKeys(db.members)
    ensures after.snapshots.Keys == MemberKeys(after.members)
  {
    forall k: SnapshotKey ensures k in after.snapshots <==> k in MemberKeys(after.members) {
      if k in after.snapshots {
        SnapshotHasMember(p, db, g, e, after, k);
      }
      if k in MemberKeys(after.members) {
        MemberHasSnapshot(p, db, g, e, after, k);
      }
    }
  }

  lemma SnapshotHasMember(p: Platform, db: Db, g: Id, e: Export, after: Db, k: SnapshotKey)
    requires Extends(p, db, g, e, after) && OneVersionEach(e) && db.snapshots.Keys == MemberKeys(db.members)
    requires k in after.snapshots
    ensures k in MemberKeys(after.members)
  {
    if k in db.snapshots {
      var m :| m in db.members && SnapshotKey(m.generation, m.route) == k;
      assert m in after.members;
    } else {
      var i :| 0 <= i < |e.routes| && SnapshotRows(g, e.routes)[i] == Row(k, after.snapshots[k]);
      assert k.route in IdSet(e.routes);
      var row :| row in e.versions && row.cols.routeId == k.route;
      assert Member(g, row.cols.routeId, row.id) in after.members;
    }
  }

  lemma MemberHasSnapshot(p: Platform, db: Db, g: Id, e: Export, after: Db, k: SnapshotKey)
    requires Extends(p, db, g, e, after) && OneVersionEach(e) && db.snapshots.Keys == MemberKeys(db.members)
    requires k in MemberKeys(after.members)
    ensures k in after.snapshots
  {
    var m :| m in after.members && SnapshotKey(m.generation, m.route) == k;
    if m in db.members {
      assert k in MemberKeys(db.members);
    } else {
      SnapshotStaged(p, db, g, e, after, k.route);
    }
  }

  lemma SnapshotStaged(p: Platform, db: Db, g: Id, e: Export, after: Db, r: Id)
    requires Grown(db.snapshots, SnapshotRows(g, e.routes), after.snapshots) && r in IdSet(e.routes)
    ensures SnapshotKey(g, r) in after.snapshots
  {
  }

  lemma StagingOrphansNothing(p: Platform, db: Db, g: Id, e: Export, after: Db)
    requires Extends(p, db, g, e, after) && OneVersionEach(e) && NothingOrphaned(db)
    ensures NothingOrphaned(after)
  {
    StagingOrphansNoVersion(p, db, g, e, after);
    StagingOrphansNoRoute(p, db, g, e, after);
    StagingOrphansNoSnapshot(p, db, g, e, after);
  }

  lemma NewDirection(p: Platform, db: Db, g: Id, e: Export, after: Db, d: Id) returns (i: nat)
    requires Extends(p, db, g, e, after) && d in after.directions && d !in db.directions
    ensures i < |e.directions| && e.directions[i].id == d
    ensures after.directions[d] == Direction(e.directions[i].cols, Derived(p, e.segments, d))
  {
    i :| 0 <= i < |e.directions| && DirectionRows(p, e)[i] == Row(d, after.directions[d]);
  }

  lemma StagedDirection(p: Platform, db: Db, g: Id, e: Export, after: Db, d: Id, v: Id)
    requires Extends(p, db, g, e, after) && HasDirection(e.directions, d, v)
    ensures d in after.directions && d !in db.directions && after.directions[d].info.versionId == v
  {
    var row :| row in e.directions && row.id == d && row.cols.versionId == v;
    var i :| 0 <= i < |e.directions| && e.directions[i] == row;
    assert DirectionRows(p, e)[i] in DirectionRows(p, e);
  }

  lemma StagingAttachesDetails(p: Platform, db: Db, g: Id, e: Export, after: Db)
    requires Extends(p, db, g, e, after) && WellFormed(p, e) && DetailsAttached(db)
    ensures DetailsAttached(after)
  {
    forall d | d in after.directions ensures after.directions[d].info.versionId in after.versions {
      if d !in db.directions {
        var i := NewDirection(p, db, g, e, after, d);
        var row := NewVersion(p, db, g, e, after, e.directions[i].cols.versionId);
      }
    }
    forall s | s in after.services ensures after.services[s].versionId in after.versions {
      if s !in db.services {
        assert Row(s, after.services[s]) in e.services;
        var row := NewVersion(p, db, g, e, after, after.services[s].versionId);
      }
    }
    forall s | s in after.segments ensures after.segments[s].versionId in after.versions {
      if s !in db.segments {
        assert Row(s, after.segments[s]) in e.segments;
        var row := NewVersion(p, db, g, e, after, after.segments[s].versionId);
      }
    }
  }

  lemma StagingKeepsLinks(p: Platform, db: Db, g: Id, e: Export, after: Db)
    requires Extends(p, db, g, e, after) && WellFormed(p, e) && LinksInside(db)
    ensures LinksInside(after)
  {
    forall s | s in after.services && after.services[s].directionId.Some?
      ensures after.services[s].directionId.value in after.directions
      ensures after.directions[after.services[s].directionId.value].info.versionId == after.services[s].versionId
    {
      if s !in db.services {
        assert Row(s, after.services[s]) in e.services;
        StagedDirection(p, db, g, e, after, after.services[s].directionId.value, after.services[s].versionId);
      }
    }
    forall s | s in after.segments
      ensures after.segments[s].directionId in after.directions
      ensures after.directions[after.segments[s].directionId].info.versionId == after.segments[s].versionId
    {
      if s !in db.segments {
        assert Row(s, after.segments[s]) in e.segments;
        StagedDirection(p, db, g, e, after, after.segments[s].directionId, after.segments[s].versionId);
      }
    }
  }

  // A detail row is old, with an old version, or new, with a new one: unique keys cannot clash.

  lemma DirectionAge(p: Platform, db: Db, g: Id, e: Export, after: Db, d: Id)
    requires Extends(p, db, g, e, after) && WellFormed(p, e) && DetailsAttached(db)
    requires d in after.directions
    ensures d in db.directions <==> after.directions[d].info.versionId in db.versions
  {
    if d !in db.directions {
      var i := NewDirection(p, db, g, e, after, d);
      var v := NewVersion(p, db, g, e, after, e.directions[i].cols.versionId);
    }
  }

  lemma DirectionsStayUnique(p: Platform, db: Db, g: Id, e: Export, after: Db, d: Id, c: Id)
    requires Extends(p, db, g, e, after) && WellFormed(p, e) && DetailsAttached(db) && DetailsUnique(db)
    requires d in after.directions && c in after.directions
    requires after.directions[d].info.versionId == after.directions[c].info.versionId
    requires after.directions[d].info.sequence == after.directions[c].info.sequence
    ensures d == c
  {
    DirectionAge(p, db, g, e, after, d);
    DirectionAge(p, db, g, e, after, c);
    if d !in db.directions {
      var i := NewDirection(p, db, g, e, after, d);
      var j := NewDirection(p, db, g, e, after, c);
      ExportedDirectionUnique(e, i, j);
    }
  }

  lemma ExportedDirectionUnique(e: Export, i: nat, j: nat)
    requires KeysUnique(e) && i < |e.directions| && j < |e.directions|
    requires e.directions[i].cols.versionId == e.directions[j].cols.versionId
    requires e.directions[i].cols.sequence == e.directions[j].cols.sequence
    ensures i == j
  {
  }

  lemma ServiceAge(p: Platform, db: Db, g: Id, e: Export, after: Db, s: Id)
    requires Extends(p, db, g, e, after) && WellFormed(p, e) && DetailsAttached(db)
    requires s in after.services
    ensures s in db.services <==> after.services[s].versionId in db.versions
  {
    if s !in db.services {
      assert Row(s, after.services[s]) in e.services;
      var v := NewVersion(p, db, g, e, after, after.services[s].versionId);
    }
  }

  lemma ServicesStayUnique(p: Platform, db: Db, g: Id, e: Export, after: Db, s: Id, t: Id)
    requires Extends(p, db, g, e, after) && WellFormed(p, e) && DetailsAttached(db) && DetailsUnique(db)
    requires s in after.services && t in after.services
    requires after.services[s].versionId == after.services[t].versionId
    requires after.services[s].departureLabel == after.services[t].departureLabel
    ensures s == t
  {
    ServiceAge(p, db, g, e, after, s);
    ServiceAge(p, db, g, e, after, t);
    if s !in db.services {
      assert Row(s, after.services[s]) in e.services && Row(t, after.services[t]) in e.services;
      ExportedServiceUnique(e, Row(s, after.services[s]), Row(t, after.services[t]));
    }
  }

  lemma ExportedServiceUnique(e: Export, x: Row<Service>, y: Row<Service>)
    requires KeysUnique(e) && x in e.services && y in e.services
    requires x.cols.versionId == y.cols.versionId && x.cols.departureLabel == y.cols.departureLabel
    ensures x == y
  {
  }

  lemma SegmentAge(p: Platform, db: Db, g: Id, e: Export, after: Db, s: Id)
    requires Extends(p, db, g, e, after) && WellFormed(p, e) && LinksInside(db)
    requires s in after.segments
    ensures s in db.segments <==> after.segments[s].directionId in db.directions
  {
    if s !in db.segments {
      assert Row(s, after.segments[s]) in e.segments;
      StagedDirection(p, db, g, e, after, after.segments[s].directionId, after.segments[s].versionId);
    }
  }

  lemma SegmentsStayUnique(p: Platform, db: Db, g: Id, e: Export, after: Db, s: Id, t: Id)
    requires Extends(p, db, g, e, after) && WellFormed(p, e) && LinksInside(db) && DetailsUnique(db)
    requires s in after.segments && t in after.segments
    requires after.segments[s].directionId == after.segments[t].directionId
    requires after.segments[s].sequence == after.segments[t].sequence
    ensures s == t
  {
    SegmentAge(p, db, g, e, after, s);
    SegmentAge(p, db, g, e, after, t);
    if s !in db.segments {
      assert Row(s, after.segments[s]) in e.segments && Row(t, after.segments[t]) in e.segments;
      ExportedSegmentUnique(e, Row(s, after.segments[s]), Row(t, after.segments[t]));
    }
  }

  lemma ExportedSegmentUnique(e: Export, x: Row<Segment>, y: Row<Segment>)
    requires KeysUnique(e) && x in e.segments && y in e.segments
    requires x.cols.directionId == y.cols.directionId && x.cols.sequence == y.cols.sequence
    ensures x == y
  {
  }

  lemma StagingKeepsDetailsUnique(p: Platform, db: Db, g: Id, e: Export, after: Db)
    requires Extends(p, db, g, e, after) && WellFormed(p, e) && DetailsAttached(db) && LinksInside(db)
      && DetailsUnique(db)
    ensures DetailsUnique(after)
  {
    forall d, c | d in after.directions && c in after.directions
        && after.directions[d].info.versionId == after.directions[c].info.versionId
        && after.directions[d].info.sequence == after.directions[c].info.sequence
      ensures d == c
    {
      DirectionsStayUnique(p, db, g, e, after, d, c);
    }
    forall s, t | s in after.services && t in after.services
        && after.services[s].versionId == after.services[t].versionId
        && after.services[s].departureLabel == after.services[t].departureLabel
      ensures s == t
    {
      ServicesStayUnique(p, db, g, e, after, s, t);
    }
    forall s, t | s in after.segments && t in after.segments
        && after.segments[s].directionId == after.segments[t].directionId
        && after.segments[s].sequence == after.segments[t].sequence
      ensures s == t
    {
      SegmentsStayUnique(p, db, g, e, after, s, t);
    }
  }

  lemma StagingKeepsCodes(p: Platform, db: Db, g: Id, e: Export, after: Db)
    requires Extends(p, db, g, e, after) && WellFormed(p, e) && CodesSound(p, db)
    ensures CodesSound(p, after)
  {
    forall r | r in after.routes ensures p.uuid5(after.routes[r].code) == r {
      if r !in db.routes {
        assert Row(r, after.routes[r]) in e.routes;
      }
    }
    forall k | k in after.snapshots ensures p.uuid5(after.snapshots[k].code) == k.route {
      if k !in db.snapshots {
        var i :| 0 <= i < |e.routes| && SnapshotRows(g, e.routes)[i] == Row(k, after.snapshots[k]);
        assert e.routes[i] in e.routes;
      }
    }
  }

  lemma StagingKeepsShown(p: Platform, db: Db, g: Id, e: Export, after: Db)
    requires Extends(p, db, g, e, after) && PointersSound(db) && CurrentShown(db)
    ensures CurrentShown(after)
  {
    if Current in after.pointers {
      assert forall row | row in SnapshotRows(g, e.routes) :: row.id.generation == g;
      assert forall k | k in after.snapshots && k !in db.snapshots :: Row(k, after.snapshots[k]).id.generation == g;
    }
  }

  lemma StagingKeepsDenorm(p: Platform, db: Db, g: Id, e: Export, after: Db)
    requires Extends(p, db, g, e, after) && WellFormed(p, e) && LinksInside(db) && DenormSound(p, db)
    ensures DenormSound(p, after)
  {
    forall d | d in after.directions ensures Mirrors(p, after.segments, d, after.directions[d].advice) {
      if d in db.directions {
        var rows :| Lists(db.segments, d, rows) && AllReadable(p, rows) && db.directions[d].advice == Items(p, rows);
        OldListStays(p, db, g, e, after, d, rows);
      } else {
        var i := NewDirection(p, db, g, e, after, d);
        NewListFills(p, db, g, e, after, d);
        NewListReadable(p, e, d);
      }
    }
  }

  lemma OldListStays(p: Platform, db: Db, g: Id, e: Export, after: Db, d: Id, rows: seq<Row<Segment>>)
    requires Extends(p, db, g, e, after) && WellFormed(p, e)
    requires d in db.directions && Lists(db.segments, d, rows)
    ensures Lists(after.segments, d, rows)
  {
    forall s | s in after.segments && after.segments[s].directionId == d ensures Row(s, after.segments[s]) in rows {
      if s !in db.segments {
        assert Row(s, after.segments[s]) in e.segments;
        StagedDirection(p, db, g, e, after, d, after.segments[s].versionId);
        assert false;
      }
    }
  }

  lemma {:induction false} NewListFills(p: Platform, db: Db, g: Id, e: Export, after: Db, d: Id)
    requires Extends(p, db, g, e, after) && WellFormed(p, e) && LinksInside(db)
    requires d !in db.directions
    ensures Lists(after.segments, d, SortBy(Grouped(e.segments, d), InSequence))
  {
    var rows := SortBy(Grouped(e.segments, d), InSequence);
    DerivedAscends(e.segments, d);
    forall s | s in after.segments && after.segments[s].directionId == d ensures Row(s, after.segments[s]) in rows {
      assert s !in db.segments;
      assert Row(s, after.segments[s]) in e.segments;
    }
  }

  lemma {:induction false} ReadableRows(p: Platform, all: seq<Row<Segment>>, rows: seq<Row<Segment>>)
    requires GeometriesRead(p, all) && forall row | row in rows :: row in all
    ensures AllReadable(p, rows)
  {
    if rows != [] {
      assert rows[0] in rows;
      ReadableRows(p, all, rows[1..]);
    }
  }

  lemma {:induction false} NewListReadable(p: Platform, e: Export, d: Id)
    requires WellFormed(p, e)
    ensures AllReadable(p, SortBy(Grouped(e.segments, d), InSequence))
  {
    DerivedAscends(e.segments, d);
    ReadableRows(p, e.segments, SortBy(Grouped(e.segments, d), InSequence));
  }

  lemma StagingKeepsGeometries(p: Platform, db: Db, g: Id, e: Export, after: Db)
    requires Grown(db.segments, e.segments, after.segments) && GeometriesTaken(p, e.segments) && GeometriesSound(p, db)
    ensures GeometriesSound(p, after)
  {
    forall s | s in after.segments ensures Taken(p, after.segments[s].geometry) {
      if s !in db.segments {
        assert Row(s, after.segments[s]) in e.segments;
      }
    }
  }

  // ---- The counts ---------------------------------------------------------------------------------

  lemma {:induction false} DistinctCard<T>(rows: seq<Row<T>>)
    requires DistinctIds(rows)
    ensures |IdSet(rows)| == |rows|
  {
    if rows != [] {
      var init, last := rows[..|rows| - 1], rows[|rows| - 1];
      DistinctCard(init);
      assert rows == init + [last];
      assert IdSet(rows) == IdSet(init) + {last.id};
      assert last.id !in IdSet(init);
    }
  }

  lemma {:induction false} MembersCard(g: Id, rows: seq<Row<Version>>)
    requires DistinctIds(rows)
    ensures |MembersFrom(g, rows)| == |rows|
  {
    if rows != [] {
      var init, last := rows[..|rows| - 1], rows[|rows| - 1];
      MembersCard(g, init);
      assert rows == init + [last];
      var m := Member(g, last.cols.routeId, last.id);
      assert MembersFrom(g, rows) == MembersFrom(g, init) + {m};
      assert m !in MembersFrom(g, init);
    }
  }

  lemma {:induction false} CountInAll(versions: set<Id>, ids: seq<Id>)
    requires forall i | 0 <= i < |ids| :: ids[i] in versions
    ensures CountIn(versions, ids) == |ids|
  {
    if ids != [] {
      CountInAll(versions, ids[..|ids| - 1]);
    }
  }

  /** In a well-formed export every detail row counts. */
  lemma ExpectedAll(p: Platform, e: Export)
    requires WellFormed(p, e)
    ensures Expected(e) == Counts(|e.versions|, |e.directions|, |e.services|, |e.segments|)
  {
    var versions := IdSet(e.versions);
    DistinctCard(e.versions);
    var ds := seq(|e.directions|, i requires 0 <= i < |e.directions| => e.directions[i].cols.versionId);
    forall i | 0 <= i < |ds| ensures ds[i] in versions {
      assert e.directions[i] in e.directions;
    }
    CountInAll(versions, ds);
    var ss := seq(|e.services|, i requires 0 <= i < |e.services| => e.services[i].cols.versionId);
    forall i | 0 <= i < |ss| ensures ss[i] in versions {
      assert e.services[i] in e.services;
    }
    CountInAll(versions, ss);
    var gs := seq(|e.segments|, i requires 0 <= i < |e.segments| => e.segments[i].cols.versionId);
    forall i | 0 <= i < |gs| ensures gs[i] in versions {
      assert e.segments[i] in e.segments;
    }
    CountInAll(versions, gs);
  }

  lemma NewMembers(p: Platform, db: Db, g: Id, e: Export, after: Db)
    requires Extends(p, db, g, e, after) && MembersAttached(db)
    ensures MembersOf(after, g) == MembersFrom(g, e.versions)
    ensures MemberVersions(MembersOf(after, g)) == IdSet(e.versions)
  {
    forall v ensures v in MemberVersions(MembersFrom(g, e.versions)) <==> v in IdSet(e.versions) {
      if v in IdSet(e.versions) {
        var row :| row in e.versions && row.id == v;
        assert Member(g, row.cols.routeId, row.id) in MembersFrom(g, e.versions);
      }
    }
  }

  lemma NewDirections(p: Platform, db: Db, g: Id, e: Export, after: Db)
    requires Extends(p, db, g, e, after) && WellFormed(p, e) && DetailsAttached(db)
    ensures DirectionsOn(after, IdSet(e.versions)) == IdSet(e.directions)
  {
    forall row | row in e.directions ensures row.id in DirectionsOn(after, IdSet(e.versions)) {
      StagedDirection(p, db, g, e, after, row.id, row.cols.versionId);
    }
    forall d | d in DirectionsOn(after, IdSet(e.versions)) ensures d in IdSet(e.directions) {
      assert after.directions[d].info.versionId !in db.versions;
      var i := NewDirection(p, db, g, e, after, d);
    }
  }

  lemma NewServices(p: Platform, db: Db, g: Id, e: Export, after: Db)
    requires Extends(p, db, g, e, after) && WellFormed(p, e) && DetailsAttached(db)
    ensures ServicesOn(after, IdSet(e.versions)) == IdSet(e.services)
  {
    forall s ensures s in ServicesOn(after, IdSet(e.versions)) <==> s in IdSet(e.services) {
      if s in ServicesOn(after, IdSet(e.versions)) {
        assert Row(s, after.services[s]) in e.services;
      }
    }
  }

  lemma NewSegments(p: Platform, db: Db, g: Id, e: Export, after: Db)
    requires Extends(p, db, g, e, after) && WellFormed(p, e) && DetailsAttached(db)
    ensures SegmentsOn(after, IdSet(e.versions)) == IdSet(e.segments)
  {
    forall s ensures s in SegmentsOn(after, IdSet(e.versions)) <==> s in IdSet(e.segments) {
      if s in SegmentsOn(after, IdSet(e.versions)) {
        assert Row(s, after.segments[s]) in e.segments;
      }
    }
  }

  lemma OldDirections(p: Platform, db: Db, g: Id, e: Export, after: Db, versions: set<Id>)
    requires Extends(p, db, g, e, after) && WellFormed(p, e) && DetailsAttached(db) && versions <= db.versions.Keys
    ensures DirectionsOn(after, versions) == DirectionsOn(db, versions)
  {
    forall d | d in DirectionsOn(after, versions) ensures d in db.directions {
      DirectionAge(p, db, g, e, after, d);
    }
  }

  lemma OldServices(p: Platform, db: Db, g: Id, e: Export, after: Db, versions: set<Id>)
    requires Extends(p, db, g, e, after) && WellFormed(p, e) && DetailsAttached(db) && versions <= db.versions.Keys
    ensures ServicesOn(after, versions) == ServicesOn(db, versions)
  {
    forall s | s in ServicesOn(after, versions) ensures s in db.services {
      ServiceAge(p, db, g, e, after, s);
    }
  }

  lemma OldSegments(p: Platform, db: Db, g: Id, e: Export, after: Db, versions: set<Id>)
    requires Extends(p, db, g, e, after) && WellFormed(p, e) && versions <= db.versions.Keys
    ensures SegmentsOn(after, versions) == SegmentsOn(db, versions)
  {
    forall s | s in SegmentsOn(after, versions) ensures s in db.segments {
      if s !in db.segments {
        assert Row(s, after.segments[s]) in e.segments;
        var v := NewVersion(p, db, g, e, after, after.segments[s].versionId);
      }
    }
  }

  lemma NewCounts(p: Platform, db: Db, g: Id, e: Export, after: Db)
    requires Extends(p, db, g, e, after) && WellFormed(p, e) && MembersAttached(db) && DetailsAttached(db)
    ensures ActualCounts(after, g) == Expected(e)
  {
    ExpectedAll(p, e);
    NewMembers(p, db, g, e, after);
    NewDirections(p, db, g, e, after);
    NewServices(p, db, g, e, after);
    NewSegments(p, db, g, e, after);
    MembersCard(g, e.versions);
    DistinctCard(e.directions);
    DistinctCard(e.services);
    DistinctCard(e.segments);
  }

  lemma OldCounts(p: Platform, db: Db, g: Id, e: Export, after: Db, x: Id)
    requires Extends(p, db, g, e, after) && WellFormed(p, e) && MembersAttached(db) && DetailsAttached(db) && x != g
    ensures ActualCounts(after, x) == ActualCounts(db, x)
  {
    assert MembersOf(after, x) == MembersOf(db, x);
    var versions := MemberVersions(MembersOf(db, x));
    assert forall v | v in versions :: v in db.versions;
    OldDirections(p, db, g, e, after, versions);
    OldServices(p, db, g, e, after, versions);
    OldSegments(p, db, g, e, after, versions);
  }

  lemma StagingKeepsCounts(p: Platform, db: Db, g: Id, e: Export, after: Db)
    requires Extends(p, db, g, e, after) && WellFormed(p, e)
    requires MembersAttached(db) && DetailsAttached(db) && CountsSound(db)
    ensures CountsSound(after)
  {
    NewCounts(p, db, g, e, after);
    forall x | x in db.generations ensures ActualCounts(after, x) == ActualCounts(db, x) {
      OldCounts(p, db, g, e, after, x);
    }
  }

  /** A successful stage of a well-formed export keeps the invariant. */
  lemma StagingKeepsInv(p: Platform, db: Db, g: Id, e: Export)
    requires Inv(p, db) && WellFormed(p, e) && Accepts(p, db, g, e)
    ensures Inv(p, Staged(p, db, g, e))
  {
    var after := Staged(p, db, g, e);
    StagedExtends(p, db, g, e);
    StagingKeepsPointers(p, db, g, e, after);
    StagingAttaches(p, db, g, e, after);
    StagingKeepsUnique(p, db, g, e, after);
    StagingOrphansNothing(p, db, g, e, after);
    StagingAttachesDetails(p, db, g, e, after);
    StagingKeepsDetailsUnique(p, db, g, e, after);
    StagingKeepsLinks(p, db, g, e, after);
    StagingKeepsCodes(p, db, g, e, after);
    StagingKeepsShown(p, db, g, e, after);
    StagingKeepsCounts(p, db, g, e, after);
    StagingKeepsDenorm(p, db, g, e, after);
    StagingKeepsGeometries(p, db, g, e, after);
  }
}
