/** The store's tables as one mutable object, the SQL statements that change them, and the garbage
    collector built from those statements. */
module Tables {
  import opened Common
  import opened Schema
  import opened Invariant
  import opened Collector
  import opened Sweeping
  import opened Lifecycle
  import opened Staging

  /** Every field is a table. A statement that a constraint may stop returns `ok`, and leaves its
      transaction to be rolled back when not. */
  class Database {
    var routes: map<Id, RouteAttrs>
    var versions: map<Id, Version>
    var directions: map<Id, Direction>
    var services: map<Id, Service>
    var segments: map<Id, Segment>
    var generations: map<Id, Status>
    var members: set<Member>
    var counts: map<Id, Counts>
    var snapshots: map<SnapshotKey, RouteAttrs>
    var pointers: map<Role, Id>
    var lease: Option<Lease>

    function Rows(): Db
      reads this
    {
      Db(routes, versions, directions, services, segments, generations, members, counts, snapshots, pointers, lease)
    }

    constructor ()
      ensures Rows() == EMPTY
    {
      routes, versions, directions, services, segments := map[], map[], map[], map[], map[];
      generations, members, counts, snapshots, pointers, lease := map[], {}, map[], map[], map[], None;
    }

    /** Roll back to the rows the transaction started from. */
    method Restore(saved: Db)
      modifies this
      ensures Rows() == saved
    {
      routes, versions, directions := saved.routes, saved.versions, saved.directions;
      services, segments, generations := saved.services, saved.segments, saved.generations;
      members, counts, snapshots := saved.members, saved.counts, saved.snapshots;
      pointers, lease := saved.pointers, saved.lease;
    }

    // ---- deletes -------------------------------------------------------------------------------------

    method DeletePointers(g: Id)
      modifies `pointers
      ensures pointers == Unlisted(old(Rows()), {g}).pointers
    {
      pointers := map role | role in pointers && pointers[role] != g :: pointers[role];
    }

    method DeleteSnapshots(g: Id)
      modifies `snapshots
      ensures snapshots == Unlisted(old(Rows()), {g}).snapshots
    {
      snapshots := map k | k in snapshots && k.generation != g :: snapshots[k];
    }

    method DeleteMembers(g: Id)
      modifies `members
      ensures members == Remaining(old(Rows()), {g})
    {
      members := set m | m in members && m.generation != g;
    }

    /** The five deletes that take a generation off every list. The generation row is deleted last,
        when nothing refers to it any more. */
    method Unlist(g: Id)
      modifies `pointers, `counts, `snapshots, `members, `generations
      ensures Rows() == Unlisted(old(Rows()), {g})
    {
      DeletePointers(g);
      counts := counts - {g};
      DeleteSnapshots(g);
      DeleteMembers(g);
      DeleteGenerationRow(g);
    }

    method DeleteGenerationRow(g: Id)
      requires forall m | m in members :: m.generation != g
      requires forall k | k in snapshots :: k.generation != g
      requires g !in counts && forall role | role in pointers :: pointers[role] != g
      modifies `generations
      ensures generations == old(generations) - {g}
    {
      generations := generations - {g};
    }

    method DeleteOwnRows(v: Id)
      modifies `segments, `services
      ensures segments == old(segments - SegmentsOn(Rows(), {v}))
      ensures services == old(services - ServicesOn(Rows(), {v}))
    {
      segments := map s | s in segments && segments[s].versionId != v :: segments[s];
      services := map s | s in services && services[s].versionId != v :: services[s];
    }

    method DeleteDetails(v: Id) returns (ok: bool)
      modifies `segments, `services, `directions
      ensures ok ==> segments == old(segments - SegmentsOn(Rows(), {v}))
      ensures ok ==> services == old(services - ServicesOn(Rows(), {v}))
      ensures ok ==> directions == old(directions - DirectionsOn(Rows(), {v}))
      ensures ok <==> OnlyOwn(old(Rows()), v)
    {
      ghost var db := Rows();
      DeleteOwnRows(v);
      OwnRowsGone(db, services, segments, v);
      ok := DeleteDirections(v);
    }

    /** No remaining service or segment may point at a deleted direction. */
    method DeleteDirections(v: Id) returns (ok: bool)
      modifies `directions
      ensures ok <==> forall d | d in old(directions) && old(directions)[d].info.versionId == v ::
        && (forall s | s in services :: services[s].directionId != Some(d))
        && (forall s | s in segments :: segments[s].directionId != d)
      ensures ok ==> directions == old(directions - DirectionsOn(Rows(), {v}))
    {
      ok := forall d | d in directions && directions[d].info.versionId == v ::
        && (forall s | s in services :: services[s].directionId != Some(d))
        && (forall s | s in segments :: segments[s].directionId != d);
      if ok {
        directions := map d | d in directions && directions[d].info.versionId != v :: directions[d];
      }
    }

    method DeleteVersionRow(v: Id)
      requires v !in MemberVersions(members)
      requires DirectionsOn(Rows(), {v}) == {} && ServicesOn(Rows(), {v}) == {} && SegmentsOn(Rows(), {v}) == {}
      modifies `versions
      ensures versions == old(versions) - {v}
    {
      versions := versions - {v};
    }

    /** No snapshot may name a deleted route. */
    method DeleteRouteRow(r: Id) returns (ok: bool)
      requires forall v | v in versions :: versions[v].routeId != r
      requires r !in MemberRoutes(members)
      modifies `routes
      ensures ok <==> forall k | k in snapshots :: k.route != r
      ensures ok ==> routes == old(routes) - {r}
    {
      ok := forall k | k in snapshots :: k.route != r;
      if ok {
        routes := routes - {r};
      }
    }

    /** A route that no version and no membership row names goes. */
    method DropRouteIfUnheld(r: Id) returns (ok: bool)
      modifies `routes
      ensures ok <==> forall k | k in snapshots :: k.route !in Unheld(old(Rows()), r)
      ensures ok ==> routes == old(routes) - Unheld(old(Rows()), r)
    {
      ok := true;
      if (forall w | w in versions :: versions[w].routeId != r) && r !in MemberRoutes(members) {
        ok := DeleteRouteRow(r);
      }
    }

    method DetachVersion(v: Id) returns (ok: bool)
      requires v !in MemberVersions(members)
      modifies `segments, `services, `directions, `versions
      ensures ok ==> Rows() == Detached(old(Rows()), v)
      ensures ok <==> OnlyOwn(old(Rows()), v)
    {
      ok := DeleteDetails(v);
      if ok {
        DeleteVersionRow(v);
      }
    }

    /** One version that no generation lists any more goes, with its details, and its route with it
        when that was the route's last trace among versions and members. */
    method DropVersion(v: Id) returns (ok: bool)
      requires v !in MemberVersions(members)
      modifies this
      ensures ok ==> Rows() == Dropped(old(Rows()), v)
      ensures ok <==> OnlyOwn(old(Rows()), v) && Droppable(old(Rows()), v)
    {
      LastTraceIs(Rows(), v);
      var route := if v in versions then Some(versions[v].routeId) else None;
      ok := DetachVersion(v);
      if ok && route.Some? {
        ok := DropRouteIfUnheld(route.value);
      }
    }

    /** `delete_generation`: its rows go from every list, then, in whatever order the query gave
        them, each of its versions that no other generation lists. What can stop it is a remaining
        snapshot of a dying route, or a version that points at a direction of another one whose turn
        comes earlier. */
    method DeleteGeneration(g: Id) returns (ok: bool, ghost order: seq<Id>)
      modifies this
      ensures IsOrder(order, Doomed(old(Rows()), {g}))
      ensures ok <==> Deletable(old(Rows()), {g}, order)
      ensures ok ==> Rows() == Without(old(Rows()), {g})
    {
      ghost var db := Rows();
      ghost var doomed := Doomed(db, {g});
      var versionIds := MemberVersions(MembersOf(Rows(), g));
      ListedVersions(db, g);
      Unlist(g);
      SweepNone(db, {g});
      ok, order := true, [];
      assert doomed - versionIds == {};
      while versionIds != {} && ok
        invariant versionIds <= MemberVersions(MembersOf(db, g))
        invariant ok ==> IsOrder(order, doomed - versionIds) && FreedInTurn(db, order)
        invariant ok ==> Rows() == Swept(db, {g}, doomed - versionIds) && Clean(db, {g}, doomed - versionIds)
        invariant !ok ==> IsOrder(order, doomed) && !Deletable(db, {g}, order)
      {
        var v :| v in versionIds;
        ghost var done := doomed - versionIds;
        versionIds := versionIds - {v};
        if v !in MemberVersions(members) {
          ok := DropVersion(v);
          order := TakenInTurn(db, g, order, done, v, ok);
          assert done + {v} == doomed - versionIds;
        } else {
          assert done == doomed - versionIds;
        }
      }
      assert ok ==> doomed - versionIds == doomed;
    }

    // ---- updates -------------------------------------------------------------------------------------

    method UpsertPointer(role: Role, g: Id) returns (ok: bool)
      modifies `pointers
      ensures ok <==> g in generations
      ensures ok ==> pointers == old(pointers)[role := g]
    {
      ok := g in generations;
      if ok {
        pointers := pointers[role := g];
      }
    }

    method DeletePointer(role: Role)
      modifies `pointers
      ensures pointers == old(pointers) - {role}
    {
      pointers := pointers - {role};
    }

    method UpdateStatus(g: Id, status: Status)
      modifies `generations
      ensures generations == if g in old(generations) then old(generations)[g := status] else old(generations)
    {
      if g in generations {
        generations := generations[g := status];
      }
    }

    /** The status update of validation, and how many rows it hit. */
    method MarkValidated(g: Id) returns (updated: nat)
      modifies `generations
      ensures updated == if g in old(generations) && old(generations)[g] == Status.Staging then 1 else 0
      ensures generations == if updated == 1 then old(generations)[g := Validated] else old(generations)
    {
      updated := 0;
      if g in generations && generations[g] == Status.Staging {
        generations := generations[g := Validated];
        updated := 1;
      }
    }

    /** An update of some routes, one row at a time and in any order. A row must not get a code that
        another row has at that moment; whether it may come to that depends only on the codes before
        and after. */
    method UpdateRoutes(updates: map<Id, RouteAttrs>) returns (ok: bool)
      requires updates.Keys <= routes.Keys
      modifies `routes
      ensures ok ==> routes == old(routes) + updates
      ensures CodesApart(old(routes), old(routes) + updates) ==> ok
    {
      var todo := updates.Keys;
      ghost var before, after := routes, routes + updates;
      ok := true;
      while todo != {}
        invariant ok && todo <= updates.Keys && routes.Keys == before.Keys
        invariant forall r | r in before :: routes[r] == if r in todo then before[r] else after[r]
      {
        assert (forall r :: r !in todo) ==> todo == {};
        var r :| r in todo;
        if exists s | s in routes :: s != r && routes[s].code == updates[r].code {
          ghost var s :| s in routes && s != r && routes[s].code == updates[r].code;
          assert after[r].code in {before[r].code, after[r].code} && after[r].code in {before[s].code, after[s].code};
          return false;
        }
        routes, todo := routes[r := updates[r]], todo - {r};
      }
      assert forall r | r in before :: routes[r] == after[r];
      assert routes == after;
    }

    /** `apply_generation_routes`: the routes that the generation has a snapshot of. */
    method ApplyGenerationRoutes(g: Id) returns (ok: bool)
      modifies `routes
      ensures ok ==> routes == Applied(old(Rows()), g)
      ensures CodesApart(old(routes), Applied(old(Rows()), g)) ==> ok
    {
      var updates := map r | r in routes && SnapshotKey(g, r) in snapshots :: snapshots[SnapshotKey(g, r)];
      assert routes + updates == Applied(Rows(), g);
      ok := UpdateRoutes(updates);
    }

    method UpsertLease(row: Lease)
      modifies `lease
      ensures lease == Some(row)
    {
      lease := Some(row);
    }

    method DeleteLease(holder: Id)
      modifies `lease
      ensures lease == if old(lease).Some? && old(lease).value.holder == holder then None else old(lease)
    {
      if lease.Some? && lease.value.holder == holder {
        lease := None;
      }
    }

    // ---- inserts -------------------------------------------------------------------------------------

    method InsertGeneration(g: Id) returns (ok: bool)
      modifies `generations
      ensures ok <==> g !in old(generations)
      ensures ok ==> generations == old(generations)[g := Status.Staging]
    {
      ok := g !in generations;
      generations := generations[g := Status.Staging];
    }

    method InsertRoutes(rows: seq<Row<RouteAttrs>>) returns (ok: bool)
      modifies `routes
      ensures ok <==> AllFit(old(routes), rows, PutMissing, RouteFits)
      ensures ok ==> routes == Loaded(old(routes), rows, PutMissing)
    {
      var loaded;
      ok, loaded := InsertAll(routes, rows, PutMissing, RouteFits);
      routes := loaded;
    }

    method InsertGenerationRoutes(g: Id, rows: seq<Row<RouteAttrs>>) returns (ok: bool)
      modifies `snapshots
      ensures ok <==> SnapshotsFit(old(Rows()), old(snapshots), SnapshotRows(g, rows))
      ensures ok ==> snapshots == Loaded(old(snapshots), SnapshotRows(g, rows), Put)
    {
      var loaded, base := snapshots, Rows();
      ok, loaded := InsertAll(snapshots, SnapshotRows(g, rows), Put, (t, row) => SnapshotFits(base, t, row));
      snapshots := loaded;
    }

    method InsertVersions(rows: seq<Row<Version>>) returns (ok: bool)
      modifies `versions
      ensures ok <==> VersionsFit(old(Rows()), old(versions), rows)
      ensures ok ==> versions == Loaded(old(versions), rows, Put)
    {
      var loaded, base := versions, Rows();
      ok, loaded := InsertAll(versions, rows, Put, (t, row) => VersionFits(base, t, row));
      versions := loaded;
    }

    method InsertDirections(rows: seq<Row<Direction>>) returns (ok: bool)
      modifies `directions
      ensures ok <==> DirectionsFit(old(Rows()), old(directions), rows)
      ensures ok ==> directions == Loaded(old(directions), rows, Put)
    {
      var loaded, base := directions, Rows();
      ok, loaded := InsertAll(directions, rows, Put, (t, row) => DirectionFits(base, t, row));
      directions := loaded;
    }

    method InsertServices(rows: seq<Row<Service>>) returns (ok: bool)
      modifies `services
      ensures ok <==> ServicesFit(old(Rows()), old(services), rows)
      ensures ok ==> services == Loaded(old(services), rows, Put)
    {
      var loaded, base := services, Rows();
      ok, loaded := InsertAll(services, rows, Put, (t, row) => ServiceFits(base, t, row));
      services := loaded;
    }

    method InsertSegments(p: Platform, rows: seq<Row<Segment>>) returns (ok: bool)
      modifies `segments
      ensures ok <==> SegmentsFit(p, old(Rows()), old(segments), rows)
      ensures ok ==> segments == Loaded(old(segments), rows, Put)
    {
      var loaded, base := segments, Rows();
      ok, loaded := InsertAll(segments, rows, Put, (t, row) => SegmentFits(p, base, t, row));
      segments := loaded;
    }

    method InsertMembership(g: Id, rows: seq<Row<Version>>) returns (ok: bool)
      modifies `members
      ensures ok <==> MembersFit(old(Rows()), g, rows)
      ensures ok ==> members == old(members) + MembersFrom(g, rows)
    {
      ghost var base := Rows();
      var i := 0;
      while i < |rows| && MemberFits(Rows(), members, Member(g, rows[i].cols.routeId, rows[i].id))
        invariant 0 <= i <= |rows| && members == base.members + MembersFrom(g, rows[..i])
        invariant MembersFit(base, g, rows[..i])
      {
        assert rows[..i + 1] == rows[..i] + [rows[i]];
        members := members + {Member(g, rows[i].cols.routeId, rows[i].id)};
        i := i + 1;
      }
      ok := i == |rows|;
      assert rows[..|rows|] == rows;
    }

    method InsertExpectedCounts(g: Id, expected: Counts) returns (ok: bool)
      requires g in generations
      modifies `counts
      ensures ok <==> g !in old(counts)
      ensures ok ==> counts == old(counts)[g := expected]
    {
      ok := g !in counts;
      counts := counts[g := expected];
    }
  }
}
