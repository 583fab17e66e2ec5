/** What the collector does not look at: a snapshot of a remaining generation may name a route whose
    last version goes, and a version may point at a direction of another version that goes first.
    Well-formed exports never get there. */
module Strays {
  import opened Common
  import opened Schema
  import opened Invariant
  import opened Collector
  import opened Staging
  import opened StagingProofs
  import opened Admission
  import opened Lifecycle
  import opened GenerationStores

  ghost predicate Earlier(order: seq<Id>, w: Id, v: Id) {
    exists i, j :: 0 <= i < j < |order| && order[i] == w && order[j] == v
  }

  /** Exactly when deleting `gone` meets no foreign key. Every route a remaining snapshot names keeps a
      membership row, unless it had none in `gone` either. And whatever points from one version into
      another one that goes, goes itself, and earlier. */
  lemma DeletableExactly(db: Db, gone: set<Id>, order: seq<Id>)
    requires MembersAttached(db) && db.versions.Keys == MemberVersions(db.members)
    requires IsOrder(order, Doomed(db, gone))
    ensures Deletable(db, gone, order) <==>
      && (forall k | k in db.snapshots && k.generation !in gone ::
            k.route in MemberRoutes(Remaining(db, gone)) || k.route !in MemberRoutes(db.members - Remaining(db, gone)))
      && (forall w, v | Points(db, w, v) && v in Doomed(db, gone) && w != v :: Earlier(order, w, v))
  {
    SnapshotsExactly(db, gone);
    TurnsExactly(db, Doomed(db, gone), order);
  }

  lemma SnapshotsExactly(db: Db, gone: set<Id>)
    requires MembersAttached(db) && db.versions.Keys == MemberVersions(db.members)
    ensures SparesSnapshots(db, gone) <==>
      forall k | k in db.snapshots && k.generation !in gone ::
        k.route in MemberRoutes(Remaining(db, gone)) || k.route !in MemberRoutes(db.members - Remaining(db, gone))
  {
    forall r ensures r in DeadRoutes(db, gone, Doomed(db, gone)) <==>
      r !in MemberRoutes(Remaining(db, gone)) && r in MemberRoutes(db.members - Remaining(db, gone))
    {
      RouteDies(db, gone, r);
    }
  }

  lemma TurnsExactly(db: Db, doomed: set<Id>, order: seq<Id>)
    requires IsOrder(order, doomed)
    ensures FreedInTurn(db, order) <==> forall w, v | Points(db, w, v) && v in doomed && w != v :: Earlier(order, w, v)
  {
    if FreedInTurn(db, order) {
      forall w, v | Points(db, w, v) && v in doomed && w != v ensures Earlier(order, w, v) {
        var j :| 0 <= j < |order| && order[j] == v;
        var i :| 0 <= i < |order[..j + 1]| && order[..j + 1][i] == w;
        assert i != j && order[i] == w;
      }
    }
    if forall w, v | Points(db, w, v) && v in doomed && w != v :: Earlier(order, w, v) {
      forall j, w | 0 <= j < |order| && Points(db, w, order[j]) ensures w in order[..j + 1] {
        assert order[..j + 1][j] == order[j];
        if w != order[j] {
          assert order[j] in doomed && Earlier(order, w, order[j]);
          var i, k :| 0 <= i < k < |order| && order[i] == w && order[k] == order[j];
          assert k == j && order[..j + 1][i] == w;
        }
      }
    }
  }

  lemma RouteDies(db: Db, gone: set<Id>, r: Id)
    requires MembersAttached(db) && db.versions.Keys == MemberVersions(db.members)
    ensures r in DeadRoutes(db, gone, Doomed(db, gone)) <==>
      r !in MemberRoutes(Remaining(db, gone)) && r in MemberRoutes(db.members - Remaining(db, gone))
  {
    var dead, rest := Doomed(db, gone), Remaining(db, gone);
    if r in DeadRoutes(db, gone, dead) {
      var v :| v in dead && v in db.versions && db.versions[v].routeId == r;
      var m :| m in db.members - rest && m.version == v;
      assert m in db.members && m.route == r;
    }
    if r !in MemberRoutes(rest) && r in MemberRoutes(db.members - rest) {
      var m :| m in db.members - rest && m.route == r;
      forall v | v in db.versions && db.versions[v].routeId == r ensures v in dead {
        var n :| n in db.members && n.version == v;
        assert n.route == r;
        assert n !in rest;
        assert v !in MemberVersions(rest) by {
          assert forall o | o in rest && o.version == v :: o.route == r;
        }
      }
      assert m in db.members && db.versions[m.version].routeId == r;
    }
  }

  // ---- exports that get there ------------------------------------------------------------------------

  const ATTRS := RouteAttrs("code", "name", "slug", None, None, None, true)
  const OTHER_ATTRS := RouteAttrs("other", "name", "slug", None, None, None, true)

  function VersionOf(route: Id): Version {
    Version(route, "hash", None, "page", None, true)
  }

  const DIRECTION := DirectionInfo(5, "name", None, 1, "LINESTRING(0 0, 1 1)")

  /** One route with one version and one direction of it. */
  const SOLE_EXPORT := Export([Row(7, ATTRS)], [Row(5, VersionOf(7))], [Row(50, DIRECTION)], [], [])

  /** The same route again, without a version. */
  const STRAY_EXPORT := Export([Row(7, ATTRS)], [], [], [], [])

  /** A service of version `w` that points at the direction of version 5. */
  function CrossService(w: Id): Service {
    Service(w, Some(50), 1, "label", None, None, "high", "method", "{}")
  }

  /** The same route with another version, and a service of it on the old version's direction. */
  const CROSS_EXPORT := Export([Row(7, ATTRS)], [Row(6, VersionOf(7))], [], [Row(60, CrossService(6))], [])

  /** Two routes, and a service of the second on the direction of the first. */
  const MIXED_EXPORT := Export(
    [Row(7, ATTRS), Row(8, OTHER_ATTRS)], [Row(5, VersionOf(7)), Row(6, VersionOf(8))],
    [Row(50, DIRECTION)], [Row(60, CrossService(6))], [])

  /** The store after the first export is staged as generation 1. */
  ghost function SoleStore(p: Platform): Db {
    Run(p, EMPTY, [Step.Stage(1, SOLE_EXPORT)])
  }

  lemma SoleIsWellFormed(p: Platform)
    requires p.uuid5("code") == 7
    ensures WellFormed(p, SOLE_EXPORT)
  {
    var e := SOLE_EXPORT;
    assert e.versions[0] in e.versions && e.routes[0] in e.routes && e.directions[0] in e.directions;
    assert (set row | row in e.versions :: row.cols.routeId) == {7} == IdSet(e.routes);
    assert 5 in IdSet(e.versions);
  }

  lemma GrownFromNothing<K(!new), T(!new)>(rows: seq<Keyed<K, T>>, after: map<K, T>)
    requires Grown(map[], rows, after)
    ensures rows == [] ==> after == map[]
    ensures |rows| == 1 ==> after == map[rows[0].id := rows[0].cols]
  {
    if |rows| == 1 {
      assert rows[0] in rows;
      forall k | k in after ensures k == rows[0].id {
        assert Row(k, after[k]) in rows;
      }
    }
  }

  lemma RoutesFromNothing(e: Export, after: Db)
    requires RoutesExtend(EMPTY, e, after) && |e.routes| == 1
    ensures after.routes == map[e.routes[0].id := e.routes[0].cols]
  {
    assert e.routes[0] in e.routes;
    forall r | r in after.routes ensures r == e.routes[0].id && after.routes[r] == e.routes[0].cols {
      assert Row(r, after.routes[r]) in e.routes;
    }
  }

  /** The tables after the first export, as far as the next one meets them. */
  ghost predicate IsSole(db: Db) {
    && db.routes == map[7 := ATTRS] && db.versions == map[5 := VersionOf(7)]
    && db.directions.Keys == {50} && db.directions[50].info == DIRECTION
    && db.services == map[] && db.segments == map[]
    && db.generations == map[1 := Status.Staging] && db.counts.Keys == {1}
    && db.members == {Member(1, 7, 5)} && db.snapshots.Keys == {SnapshotKey(1, 7)} && db.pointers == map[]
  }

  lemma SoleRows(p: Platform, db: Db)
    requires Extends(p, EMPTY, 1, SOLE_EXPORT, db)
    ensures IsSole(db)
  {
    var e := SOLE_EXPORT;
    RoutesFromNothing(e, db);
    GrownFromNothing(e.versions, db.versions);
    GrownFromNothing(e.services, db.services);
    GrownFromNothing(e.segments, db.segments);
    GrownFromNothing(DirectionRows(p, e), db.directions);
    GrownFromNothing(SnapshotRows(1, e.routes), db.snapshots);
    assert MembersFrom(1, e.versions) == {Member(1, 7, 5)};
  }

  lemma SoleIsAccepted(p: Platform)
    requires p.uuid5("code") == 7
    ensures Accepts(p, EMPTY, 1, SOLE_EXPORT)
  {
    SoleIsWellFormed(p);
    EmptyInv(p);
    FreshIsAccepted(p, EMPTY, 1, SOLE_EXPORT);
  }

  lemma {:induction false} RunOnce(p: Platform, step: Step)
    ensures Run(p, EMPTY, [step]) == Apply(p, EMPTY, step).0
  {
    assert [step][..0] == [];
    assert Run(p, EMPTY, [step][..0]) == EMPTY;
  }

  /** The store is reachable ... */
  lemma SoleIsReached(p: Platform)
    requires p.uuid5("code") == 7
    ensures Inv(p, SoleStore(p))
  {
    SoleIsWellFormed(p);
    ReachableStoreInv(p, [Step.Stage(1, SOLE_EXPORT)]);
  }

  /** ... and generation 1 is staged, and alone. */
  lemma SoleIsSole(p: Platform)
    requires p.uuid5("code") == 7
    ensures IsSole(SoleStore(p))
  {
    RunOnce(p, Step.Stage(1, SOLE_EXPORT));
    SoleIsAccepted(p);
    StagedExtends(p, EMPTY, 1, SOLE_EXPORT);
    SoleRows(p, Staged(p, EMPTY, 1, SOLE_EXPORT));
  }

  lemma MembersFromOne(g: Id, rows: seq<Row<Version>>)
    requires |rows| == 1
    ensures MembersFrom(g, rows) == {Member(g, rows[0].cols.routeId, rows[0].id)}
  {
    assert rows[0] in rows;
  }

  lemma MembersFromTwo(g: Id, rows: seq<Row<Version>>)
    requires |rows| == 2
    ensures MembersFrom(g, rows) == {Member(g, rows[0].cols.routeId, rows[0].id),
      Member(g, rows[1].cols.routeId, rows[1].id)}
  {
    assert rows[0] in rows && rows[1] in rows;
  }

  /** The versions that go when one generation's membership rows are `mine`. */
  lemma DoomedAre(db: Db, g: Id, mine: set<Member>, others: set<Member>)
    requires db.members == mine + others
    requires (forall m | m in mine :: m.generation == g) && (forall m | m in others :: m.generation != g)
    ensures Remaining(db, {g}) == others
    ensures Doomed(db, {g}) == MemberVersions(mine) - MemberVersions(others)
  {
    assert db.members - Remaining(db, {g}) == mine;
  }

  lemma OneFits<K(!new), T(!new)>(table: map<K, T>, rows: seq<Keyed<K, T>>,
    put: (map<K, T>, Keyed<K, T>) -> map<K, T>, fits: (map<K, T>, Keyed<K, T>) -> bool)
    requires |rows| == 1
    ensures AllFit(table, rows, put, fits) <==> fits(table, rows[0])
    ensures Loaded(table, rows, put) == put(table, rows[0])
  {
    assert LoadedTo(table, rows, 0, put) == table;
  }

  // ---- a route without a version -----------------------------------------------------------------------

  lemma StrayIsAccepted(p: Platform, db: Db)
    requires IsSole(db)
    ensures Accepts(p, db, 2, STRAY_EXPORT) && !WellFormed(p, STRAY_EXPORT)
  {
    var e := STRAY_EXPORT;
    OneFits(db.routes, e.routes, PutMissing, RouteFits);
    var base := AfterRoutes(db, 2, e);
    OneFits(db.snapshots, SnapshotRows(2, e.routes), Put, (t, row) => SnapshotFits(base, t, row));
    assert DirectionRows(p, e) == [];
    assert e.routes[0] in e.routes && 7 in IdSet(e.routes);
  }

  lemma GrownNothing<K(!new), T(!new)>(table: map<K, T>, after: map<K, T>)
    requires Grown(table, [], after)
    ensures after == table
  {
  }

  lemma StrayBlocks(p: Platform, db: Db, after: Db)
    requires IsSole(db) && Extends(p, db, 2, STRAY_EXPORT, after)
    ensures !SparesSnapshots(after, {1})
  {
    var rows := SnapshotRows(2, STRAY_EXPORT.routes);
    assert rows[0] in rows && SnapshotKey(2, 7) in after.snapshots;
    GrownNothing(db.versions, after.versions);
    assert MembersFrom(2, STRAY_EXPORT.versions) == {};
    assert after.members == {Member(1, 7, 5)} + {};
    DoomedAre(after, 1, {Member(1, 7, 5)}, {});
    LastRouteDies(after, 1, 5, 7);
  }

  lemma LastRouteDies(db: Db, g: Id, v: Id, r: Id)
    requires Remaining(db, {g}) == {} && Doomed(db, {g}) == MemberVersions({Member(g, r, v)}) - MemberVersions({})
    requires db.versions.Keys == {v} && db.versions[v].routeId == r
    ensures r in DeadRoutes(db, {g}, Doomed(db, {g}))
  {
    assert Member(g, r, v) in {Member(g, r, v)};
    assert v in Doomed(db, {g}) && v in db.versions;
    assert !RouteHeld(db, {g}, Doomed(db, {g}), r);
  }

  /** Once the versionless route is staged, generation 1 cannot be deleted, in no order. */
  lemma VersionlessRouteBlocksDeletion(p: Platform, db: Db, order: seq<Id>)
    requires IsSole(db)
    ensures Accepts(p, db, 2, STRAY_EXPORT) && !WellFormed(p, STRAY_EXPORT)
    ensures !Deletable(Staged(p, db, 2, STRAY_EXPORT), {1}, order)
  {
    StrayIsAccepted(p, db);
    StagedExtends(p, db, 2, STRAY_EXPORT);
    StrayBlocks(p, db, Staged(p, db, 2, STRAY_EXPORT));
  }

  // ---- a service on another version's direction -----------------------------------------------------------

  lemma CrossIsAccepted(p: Platform, db: Db)
    requires IsSole(db)
    ensures Accepts(p, db, 2, CROSS_EXPORT) && !WellFormed(p, CROSS_EXPORT)
  {
    var e := CROSS_EXPORT;
    OneFits(db.routes, e.routes, PutMissing, RouteFits);
    var base := AfterRoutes(db, 2, e);
    OneFits(db.snapshots, SnapshotRows(2, e.routes), Put, (t, row) => SnapshotFits(base, t, row));
    OneFits(db.versions, e.versions, Put, (t, row) => VersionFits(base, t, row));
    assert DirectionRows(p, e) == [];
    var rest := AfterDirections(p, db, 2, e);
    OneFits(db.services, e.services, Put, (t, row) => ServiceFits(rest, t, row));
    assert e.services[0] in e.services && !HasDirection(e.directions, 50, 6);
  }

  lemma CrossRows(p: Platform, db: Db, after: Db)
    requires IsSole(db) && Extends(p, db, 2, CROSS_EXPORT, after)
    ensures after.members == {Member(1, 7, 5)} + {Member(2, 7, 6)}
    ensures 5 in after.versions && after.versions[5].routeId == 7 && after.versions.Keys == {5, 6}
  {
    var e := CROSS_EXPORT;
    MembersFromOne(2, e.versions);
    GrownKeys(db.versions, e.versions, after.versions);
  }

  lemma GrownKeys<T(!new)>(table: map<Id, T>, rows: seq<Row<T>>, after: map<Id, T>)
    requires Grown(table, rows, after) && |rows| == 1
    ensures after.Keys == table.Keys + {rows[0].id}
  {
    assert rows[0] in rows;
  }

  lemma CrossPoints(p: Platform, db: Db, after: Db)
    requires IsSole(db) && Extends(p, db, 2, CROSS_EXPORT, after)
    ensures Points(after, 6, 5)
  {
    assert CROSS_EXPORT.services[0] in CROSS_EXPORT.services;
    assert after.services[60] == CrossService(6);
    assert LeadsInto(after, after.services[60].directionId, 5);
  }

  lemma CrossSpares(db: Db)
    requires db.members == {Member(1, 7, 5)} + {Member(2, 7, 6)} && db.versions.Keys == {5, 6}
      && db.versions[5].routeId == 7
    ensures SparesSnapshots(db, {1}) && Doomed(db, {1}) == {5}
  {
    DoomedAre(db, 1, {Member(1, 7, 5)}, {Member(2, 7, 6)});
    assert MemberVersions({Member(1, 7, 5)}) == {5} && MemberVersions({Member(2, 7, 6)}) == {6};
    assert Member(2, 7, 6) in Remaining(db, {1}) && 7 in MemberRoutes(Remaining(db, {1}));
  }

  lemma NeverItsTurn(db: Db, order: seq<Id>, w: Id, v: Id)
    requires Points(db, w, v) && v in order && w !in order
    ensures !FreedInTurn(db, order)
  {
    var j :| 0 <= j < |order| && order[j] == v;
    assert w !in order[..j + 1] && Points(db, w, order[j]);
  }

  /** Once the cross link is staged, generation 1 cannot be deleted, in no order, though no snapshot is
      in the way. */
  lemma CrossLinkBlocksDeletion(p: Platform, db: Db, order: seq<Id>)
    requires IsSole(db) && IsOrder(order, Doomed(Staged(p, db, 2, CROSS_EXPORT), {1}))
    ensures Accepts(p, db, 2, CROSS_EXPORT) && !WellFormed(p, CROSS_EXPORT)
    ensures SparesSnapshots(Staged(p, db, 2, CROSS_EXPORT), {1})
    ensures !Deletable(Staged(p, db, 2, CROSS_EXPORT), {1}, order)
  {
    CrossIsAccepted(p, db);
    StagedExtends(p, db, 2, CROSS_EXPORT);
    CrossRows(p, db, Staged(p, db, 2, CROSS_EXPORT));
    CrossPoints(p, db, Staged(p, db, 2, CROSS_EXPORT));
    CrossSpares(Staged(p, db, 2, CROSS_EXPORT));
    NeverItsTurn(Staged(p, db, 2, CROSS_EXPORT), order, 6, 5);
  }

  // ---- two versions of the same generation ------------------------------------------------------------------

  lemma TwoFit<K(!new), T(!new)>(table: map<K, T>, rows: seq<Keyed<K, T>>,
    put: (map<K, T>, Keyed<K, T>) -> map<K, T>, fits: (map<K, T>, Keyed<K, T>) -> bool)
    requires |rows| == 2
    ensures AllFit(table, rows, put, fits) <==> fits(table, rows[0]) && fits(put(table, rows[0]), rows[1])
    ensures Loaded(table, rows, put) == put(put(table, rows[0]), rows[1])
  {
    assert LoadedTo(table, rows, 0, put) == table;
    assert LoadedTo(table, rows, 1, put) == put(table, rows[0]);
  }

  lemma MixedIsAccepted(p: Platform)
    ensures Accepts(p, EMPTY, 1, MIXED_EXPORT)
  {
    var db, e := EMPTY, MIXED_EXPORT;
    TwoFit(db.routes, e.routes, PutMissing, RouteFits);
    var base := AfterRoutes(db, 1, e);
    TwoFit(db.snapshots, SnapshotRows(1, e.routes), Put, (t, row) => SnapshotFits(base, t, row));
    TwoFit(db.versions, e.versions, Put, (t, row) => VersionFits(base, t, row));
    var mid := AfterVersions(db, 1, e);
    OneFits(db.directions, DirectionRows(p, e), Put, (t, row) => DirectionFits(mid, t, row));
    var rest := AfterDirections(p, db, 1, e);
    OneFits(db.services, e.services, Put, (t, row) => ServiceFits(rest, t, row));
  }

  lemma MixedMembers(p: Platform, after: Db)
    requires after.members == MembersFrom(1, MIXED_EXPORT.versions)
    requires Grown(map[], SnapshotRows(1, MIXED_EXPORT.routes), after.snapshots)
    ensures after.members == {Member(1, 7, 5), Member(1, 8, 6)}
    ensures forall k | k in after.snapshots :: k.generation == 1
  {
    MembersFromTwo(1, MIXED_EXPORT.versions);
    SnapshotsOfOne(MIXED_EXPORT.routes, after.snapshots);
  }

  lemma BothGo(db: Db)
    requires db.members == {Member(1, 7, 5), Member(1, 8, 6)} && forall k | k in db.snapshots :: k.generation == 1
    ensures Doomed(db, {1}) == {5, 6} && SparesSnapshots(db, {1})
  {
    var mine := {Member(1, 7, 5), Member(1, 8, 6)};
    DoomedAre(db, 1, mine, {});
    assert Member(1, 7, 5) in mine && Member(1, 8, 6) in mine;
    assert MemberVersions(mine) == {5, 6} && MemberVersions({}) == {};
  }

  lemma SnapshotsOfOne(routes: seq<Row<RouteAttrs>>, snapshots: map<SnapshotKey, RouteAttrs>)
    requires Grown(map[], SnapshotRows(1, routes), snapshots)
    ensures forall k | k in snapshots :: k.generation == 1
  {
    forall k | k in snapshots ensures k.generation == 1 {
      assert Row(k, snapshots[k]) in SnapshotRows(1, routes);
    }
  }

  /** The tables after it is staged, as far as deleting it meets them. */
  ghost predicate IsMixed(db: Db) {
    && db.members == {Member(1, 7, 5), Member(1, 8, 6)} && (forall k | k in db.snapshots :: k.generation == 1)
    && db.segments == map[] && db.services == map[60 := CrossService(6)]
    && db.directions.Keys == {50} && db.directions[50].info == DIRECTION
  }

  lemma MixedIsStaged(p: Platform)
    ensures Accepts(p, EMPTY, 1, MIXED_EXPORT) && IsMixed(Staged(p, EMPTY, 1, MIXED_EXPORT))
  {
    MixedIsAccepted(p);
    StagedExtends(p, EMPTY, 1, MIXED_EXPORT);
    MixedRows(p, Staged(p, EMPTY, 1, MIXED_EXPORT));
  }

  lemma MixedRows(p: Platform, after: Db)
    requires Extends(p, EMPTY, 1, MIXED_EXPORT, after)
    ensures IsMixed(after)
  {
    var e := MIXED_EXPORT;
    MixedMembers(p, after);
    GrownFromNothing(e.segments, after.segments);
    GrownFromNothing(e.services, after.services);
    GrownFromNothing(DirectionRows(p, e), after.directions);
  }

  /** Version 6 points into version 5, and nothing else points anywhere. */
  lemma OneLink(db: Db)
    requires IsMixed(db)
    ensures forall w, v :: Points(db, w, v) <==> w == 6 && v == 5
  {
    assert LeadsInto(db, db.services[60].directionId, 5);
  }

  /** Between versions of the deleted generation itself, the order decides. */
  lemma OrderDecides(db: Db)
    requires IsMixed(db)
    ensures IsOrder([5, 6], Doomed(db, {1})) && !Deletable(db, {1}, [5, 6])
    ensures IsOrder([6, 5], Doomed(db, {1})) && Deletable(db, {1}, [6, 5])
  {
    BothGo(db);
    OneLink(db);
    TwoTurns(db);
  }

  lemma TwoTurns(db: Db)
    requires forall w, v :: Points(db, w, v) <==> w == 6 && v == 5
    ensures !FreedInTurn(db, [5, 6]) && FreedInTurn(db, [6, 5])
  {
    assert [5, 6][..1] == [5] && Points(db, 6, [5, 6][0]);
    assert [6, 5][..2] == [6, 5];
  }

  // ---- what the store does about it ----------------------------------------------------------------------------

  lemma StagedAside(p: Platform, db: Db, g: Id, e: Export)
    requires IsSole(db) && g != 1
    ensures 1 in Staged(p, db, g, e).generations && Discarded(Staged(p, db, g, e), 1).1 == Done
  {
    UnpublishedIsDiscardable(Staged(p, db, g, e), 1);
  }

  lemma UnpublishedIsDiscardable(db: Db, g: Id)
    requires g in db.generations && db.generations[g] == Status.Staging && db.pointers == map[]
    ensures Discarded(db, g).1 == Done
  {
  }

  /** Discarding generation 1 raises and changes nothing, however its versions are ordered: after the
      versionless route ... */
  method DiscardAbortsAfterStray(store: GenerationStore, ghost before: Db) returns (outcome: Outcome)
    requires IsSole(before) && store.db.Rows() == Staged(store.p, before, 2, STRAY_EXPORT)
    modifies store.db
    ensures outcome == Failed(Rejected) && store.db.Rows() == old(store.db.Rows())
  {
    StrayIsAccepted(store.p, before);
    StagedAside(store.p, before, 2, STRAY_EXPORT);
    forall order ensures !Deletable(store.db.Rows(), {1}, order) {
      VersionlessRouteBlocksDeletion(store.p, before, order);
    }
    outcome := store.DiscardStaging(1);
  }

  /** ... and after the cross link. */
  method DiscardAbortsAfterCross(store: GenerationStore, ghost before: Db) returns (outcome: Outcome)
    requires IsSole(before) && store.db.Rows() == Staged(store.p, before, 2, CROSS_EXPORT)
    modifies store.db
    ensures outcome == Failed(Rejected) && store.db.Rows() == old(store.db.Rows())
  {
    CrossIsAccepted(store.p, before);
    StagedAside(store.p, before, 2, CROSS_EXPORT);
    forall order | IsOrder(order, Doomed(store.db.Rows(), {1})) ensures !Deletable(store.db.Rows(), {1}, order) {
      CrossLinkBlocksDeletion(store.p, before, order);
    }
    outcome := store.DiscardStaging(1);
  }
}
