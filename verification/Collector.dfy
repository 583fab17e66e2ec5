/** Deleting generations: what the row-by-row collector leaves behind, and why it is exactly what
    the remaining generations reach. */
module Collector {
  import opened Common
  import opened Schema
  import opened Invariant
  import opened Denorm

  /** The membership rows of the generations outside `gone`. */
  ghost function Remaining(db: Db, gone: set<Id>): set<Member> {
    set m | m in db.members && m.generation !in gone
  }

  /** The versions whose last generation is in `gone`. */
  ghost function Doomed(db: Db, gone: set<Id>): set<Id> {
    MemberVersions(db.members - Remaining(db, gone)) - MemberVersions(Remaining(db, gone))
  }

  /** Route `r` keeps a version outside `dead`, or a membership row outside `gone`. */
  ghost predicate RouteHeld(db: Db, gone: set<Id>, dead: set<Id>, r: Id) {
    || (exists v :: v in db.versions && v !in dead && db.versions[v].routeId == r)
    || r in MemberRoutes(Remaining(db, gone))
  }

  /** The routes that lose their last version when the versions in `dead` go. */
  ghost function DeadRoutes(db: Db, gone: set<Id>, dead: set<Id>): set<Id> {
    set v | v in dead && v in db.versions && !RouteHeld(db, gone, dead, db.versions[v].routeId) ::
      db.versions[v].routeId
  }

  /** The tables once the generation rows of `gone` are deleted. */
  ghost function Unlisted(db: Db, gone: set<Id>): Db {
    db.(generations := db.generations - gone,
        members := Remaining(db, gone),
        counts := db.counts - gone,
        snapshots := map k | k in db.snapshots && k.generation !in gone :: db.snapshots[k],
        pointers := map role | role in db.pointers && db.pointers[role] !in gone :: db.pointers[role])
  }

  /** The tables once the generation rows of `gone` and the versions `dead` are deleted. */
  ghost function Swept(db: Db, gone: set<Id>, dead: set<Id>): Db {
    Unlisted(db, gone).(
      routes := db.routes - DeadRoutes(db, gone, dead),
      versions := db.versions - dead,
      directions := db.directions - DirectionsOn(db, dead),
      services := db.services - ServicesOn(db, dead),
      segments := db.segments - SegmentsOn(db, dead))
  }

  /** The tables after the collector deleted the generations `gone`. */
  ghost function Without(db: Db, gone: set<Id>): Db {
    Swept(db, gone, Doomed(db, gone))
  }

  // ---- What can stop it --------------------------------------------------------------------------

  /** No snapshot of a remaining generation names a route that is about to go. */
  ghost predicate SparesSnapshots(db: Db, gone: set<Id>) {
    forall k | k in db.snapshots && k.generation !in gone :: k.route !in DeadRoutes(db, gone, Doomed(db, gone))
  }

  ghost predicate LeadsInto(db: Db, d: Option<Id>, v: Id) {
    d.Some? && d.value in db.directions && db.directions[d.value].info.versionId == v
  }

  /** A service or segment of version `w` points at a direction of version `v`. */
  ghost predicate Points(db: Db, w: Id, v: Id) {
    || (exists s | s in db.services :: db.services[s].versionId == w && LeadsInto(db, db.services[s].directionId, v))
    || (exists s | s in db.segments ::
      db.segments[s].versionId == w
      && LeadsInto(db, Some(db.segments[s].directionId), v))
  }

  /** Whenever a version's turn comes, no version that is still there points into it. */
  ghost predicate FreedInTurn(db: Db, order: seq<Id>) {
    forall i, w | 0 <= i < |order| && Points(db, w, order[i]) :: w in order[..i + 1]
  }

  ghost predicate IsOrder(order: seq<Id>, ids: set<Id>) {
    (forall i, j | 0 <= i < j < |order| :: order[i] != order[j]) && forall x :: x in order <==> x in ids
  }

  /** The foreign keys the collector does not look at, when it takes the versions in this order. */
  ghost predicate Deletable(db: Db, gone: set<Id>, order: seq<Id>) {
    SparesSnapshots(db, gone) && FreedInTurn(db, order)
  }

  // ---- What the remaining generations reach: the reference definition -------------------------

  /** The rows of `table` whose key is in `keys`. */
  ghost function Only<T>(table: map<Id, T>, keys: set<Id>): map<Id, T> {
    map k | k in table && k in keys :: table[k]
  }

  /** The rows reachable from a generation outside `gone`. */
  ghost function Reachable(db: Db, gone: set<Id>): Db {
    var live := MemberVersions(Remaining(db, gone));
    Unlisted(db, gone).(
      routes := Only(db.routes, MemberRoutes(Remaining(db, gone))),
      versions := Only(db.versions, live),
      directions := Only(db.directions, DirectionsOn(db, live)),
      services := Only(db.services, ServicesOn(db, live)),
      segments := Only(db.segments, SegmentsOn(db, live)))
  }

  lemma DoomedIsUnreached(db: Db, gone: set<Id>)
    requires NothingOrphaned(db)
    ensures Doomed(db, gone) == db.versions.Keys - MemberVersions(Remaining(db, gone))
  {
  }

  lemma DeadRoutesAreUnreached(db: Db, gone: set<Id>)
    requires MembersAttached(db) && NothingOrphaned(db)
    ensures DeadRoutes(db, gone, Doomed(db, gone)) == db.routes.Keys - MemberRoutes(Remaining(db, gone))
  {
    var dead, lost := Doomed(db, gone), DeadRoutes(db, gone, Doomed(db, gone));
    DoomedIsUnreached(db, gone);
    forall r | r in db.routes && r !in MemberRoutes(Remaining(db, gone)) ensures r in lost {
      var m :| m in db.members && m.route == r;
      assert forall n | n in db.members && n.version in db.versions && db.versions[n.version].routeId == r ::
        n.route == r;
      assert m.version in dead && !RouteHeld(db, gone, dead, r);
    }
  }

  lemma DetailsSplit(db: Db, live: set<Id>, dead: set<Id>)
    requires DetailsAttached(db) && dead == db.versions.Keys - live
    ensures Only(db.directions, DirectionsOn(db, live)) == db.directions - DirectionsOn(db, dead)
    ensures Only(db.services, ServicesOn(db, live)) == db.services - ServicesOn(db, dead)
    ensures Only(db.segments, SegmentsOn(db, live)) == db.segments - SegmentsOn(db, dead)
  {
    assert forall d | d in db.directions :: d in DirectionsOn(db, live) <==> d !in DirectionsOn(db, dead);
    assert forall s | s in db.services :: s in ServicesOn(db, live) <==> s !in ServicesOn(db, dead);
    assert forall s | s in db.segments :: s in SegmentsOn(db, live) <==> s !in SegmentsOn(db, dead);
  }

  lemma OnlyIsTheRest<T>(table: map<Id, T>, live: set<Id>, dead: set<Id>)
    requires dead == table.Keys - live
    ensures Only(table, live) == table - dead
  {
  }

  /** Exactness: the collector keeps every row some remaining generation reaches and no other. */
  lemma CollectsExactlyTheUnreachable(db: Db, gone: set<Id>)
    requires MembersAttached(db) && NothingOrphaned(db) && DetailsAttached(db)
    ensures Without(db, gone) == Reachable(db, gone)
  {
    var rest := Remaining(db, gone);
    DoomedIsUnreached(db, gone);
    DeadRoutesAreUnreached(db, gone);
    OnlyIsTheRest(db.versions, MemberVersions(rest), Doomed(db, gone));
    OnlyIsTheRest(db.routes, MemberRoutes(rest), DeadRoutes(db, gone, Doomed(db, gone)));
    DetailsSplit(db, MemberVersions(rest), Doomed(db, gone));
  }

  lemma PointsInside(db: Db, w: Id, v: Id)
    requires LinksInside(db) && Points(db, w, v)
    ensures w == v
  {
  }

  lemma SnapshotsSpared(db: Db, gone: set<Id>)
    requires MembersAttached(db) && NothingOrphaned(db)
    ensures SparesSnapshots(db, gone)
  {
    DeadRoutesAreUnreached(db, gone);
    forall k | k in db.snapshots && k.generation !in gone ensures k.route in MemberRoutes(Remaining(db, gone)) {
      assert k in MemberKeys(db.members);
    }
  }

  /** In a sound state the collector never meets a foreign key, in whatever order it goes. */
  lemma AlwaysDeletable(db: Db, gone: set<Id>)
    requires MembersAttached(db) && NothingOrphaned(db) && LinksInside(db)
    ensures forall order | IsOrder(order, Doomed(db, gone)) :: Deletable(db, gone, order)
  {
    SnapshotsSpared(db, gone);
    forall order, i, w | IsOrder(order, Doomed(db, gone)) && 0 <= i < |order| && Points(db, w, order[i])
      ensures w in order[..i + 1]
    {
      PointsInside(db, w, order[i]);
      assert order[..i + 1][i] == order[i];
    }
  }

  // ---- What collecting preserves -----------------------------------------------------------------

  lemma SweepKeepsPointers(db: Db, gone: set<Id>)
    requires PointersSound(db)
    requires Current in db.pointers ==> db.pointers[Current] !in gone
    ensures PointersSound(Reachable(db, gone))
  {
    var after := Reachable(db, gone);
    forall g | g in after.generations ensures after.generations[g] == Published <==> PointedAt(after, g) {
      assert PointedAt(db, g) ==> exists role ::
        role in db.pointers && db.pointers[role] == g
        && role in after.pointers;
    }
  }

  lemma SweepKeepsMembers(db: Db, gone: set<Id>)
    requires MembersAttached(db) && MembersUnique(db)
    ensures MembersAttached(Reachable(db, gone)) && MembersUnique(Reachable(db, gone))
  {
    var after := Reachable(db, gone);
    forall m | m in after.members
      ensures m.generation in after.generations && m.route in after.routes && m.version in after.versions
    {
      assert m in db.members && m in Remaining(db, gone);
    }
  }

  lemma OnlyAll<T>(table: map<Id, T>, keys: set<Id>)
    requires keys <= table.Keys
    ensures Only(table, keys).Keys == keys
  {
  }

  lemma SweepKeepsSnapshots(db: Db, gone: set<Id>)
    requires db.snapshots.Keys == MemberKeys(db.members)
    ensures Unlisted(db, gone).snapshots.Keys == MemberKeys(Remaining(db, gone))
  {
    var after, rest := Unlisted(db, gone).snapshots, Remaining(db, gone);
    forall k: SnapshotKey ensures k in after <==> k in MemberKeys(rest) {
      if k in after {
        assert k in MemberKeys(db.members);
        var m :| m in db.members && SnapshotKey(m.generation, m.route) == k;
        assert m in rest;
      }
      if k in MemberKeys(rest) {
        var m :| m in rest && SnapshotKey(m.generation, m.route) == k;
        assert m in db.members;
        assert k in MemberKeys(db.members);
      }
    }
  }

  lemma SweepOrphansNothing(db: Db, gone: set<Id>)
    requires MembersAttached(db) && NothingOrphaned(db)
    ensures NothingOrphaned(Reachable(db, gone))
  {
    var after, rest := Reachable(db, gone), Remaining(db, gone);
    SweepKeepsSnapshots(db, gone);
    assert forall m | m in rest :: m in db.members;
    OnlyAll(db.versions, MemberVersions(rest));
    OnlyAll(db.routes, MemberRoutes(rest));
  }

  lemma SweepKeepsDetails(db: Db, gone: set<Id>)
    requires DetailsAttached(db) && DetailsUnique(db) && NothingOrphaned(db)
    ensures DetailsAttached(Reachable(db, gone)) && DetailsUnique(Reachable(db, gone))
  {
  }

  lemma SweepKeepsLinks(db: Db, gone: set<Id>)
    requires LinksInside(db)
    ensures LinksInside(Reachable(db, gone))
  {
  }

  lemma SweepKeepsCodes(p: Platform, db: Db, gone: set<Id>)
    requires CodesSound(p, db)
    ensures CodesSound(p, Reachable(db, gone))
  {
  }

  lemma SweepKeepsShown(db: Db, gone: set<Id>)
    requires CurrentShown(db) && NothingOrphaned(db)
    ensures CurrentShown(Reachable(db, gone))
  {
    var after := Reachable(db, gone);
    if Current in after.pointers {
      forall k | k in after.snapshots && k.generation == after.pointers[Current] ensures k.route in after.routes {
        assert k in MemberKeys(db.members);
        var m :| m in db.members && SnapshotKey(m.generation, m.route) == k;
        assert m in Remaining(db, gone);
      }
    }
  }

  lemma SweepKeepsCounts(db: Db, gone: set<Id>)
    requires CountsSound(db)
    ensures CountsSound(Reachable(db, gone))
  {
    var after := Reachable(db, gone);
    forall g | g in after.generations ensures g in after.counts && after.counts[g] == ActualCounts(after, g) {
      assert MembersOf(after, g) == MembersOf(db, g);
      var versions := MemberVersions(MembersOf(db, g));
      assert forall v | v in versions :: v in MemberVersions(Remaining(db, gone));
      assert DirectionsOn(after, versions) == DirectionsOn(db, versions);
      assert ServicesOn(after, versions) == ServicesOn(db, versions);
      assert SegmentsOn(after, versions) == SegmentsOn(db, versions);
    }
  }

  lemma SweepKeepsDenorm(p: Platform, db: Db, gone: set<Id>)
    requires DenormSound(p, db) && LinksInside(db)
    ensures DenormSound(p, Reachable(db, gone))
  {
    var after := Reachable(db, gone);
    forall d | d in after.directions ensures Mirrors(p, after.segments, d, after.directions[d].advice) {
      var rows :| Lists(db.segments, d, rows) && AllReadable(p, rows) && db.directions[d].advice == Items(p, rows);
      assert forall s | s in db.segments && db.segments[s].directionId == d :: s in after.segments;
      assert Lists(after.segments, d, rows);
    }
  }

  lemma SweepKeepsGeometries(p: Platform, db: Db, gone: set<Id>)
    requires GeometriesSound(p, db)
    ensures GeometriesSound(p, Reachable(db, gone))
  {
  }

  /** Deleting generations other than the current one preserves the invariant. */
  lemma CollectingKeepsInv(p: Platform, db: Db, gone: set<Id>)
    requires Inv(p, db)
    requires Current in db.pointers ==> db.pointers[Current] !in gone
    ensures Inv(p, Without(db, gone))
  {
    CollectsExactlyTheUnreachable(db, gone);
    SweepKeepsPointers(db, gone);
    SweepKeepsMembers(db, gone);
    SweepOrphansNothing(db, gone);
    SweepKeepsDetails(db, gone);
    SweepKeepsLinks(db, gone);
    SweepKeepsCodes(p, db, gone);
    SweepKeepsShown(db, gone);
    SweepKeepsCounts(db, gone);
    SweepKeepsDenorm(p, db, gone);
    SweepKeepsGeometries(p, db, gone);
  }

  /** Collecting in two passes is collecting at once. */
  lemma CollectingComposes(p: Platform, db: Db, gone: set<Id>, more: set<Id>)
    requires Inv(p, db)
    requires Current in db.pointers ==> db.pointers[Current] !in gone
    ensures Without(Without(db, gone), more) == Without(db, gone + more)
  {
    CollectingKeepsInv(p, db, gone);
    CollectsExactlyTheUnreachable(db, gone);
    CollectsExactlyTheUnreachable(Without(db, gone), more);
    CollectsExactlyTheUnreachable(db, gone + more);
    ReachableComposes(db, gone, more);
  }

  lemma RemainingComposes(db: Db, gone: set<Id>, more: set<Id>)
    ensures Remaining(Reachable(db, gone), more) == Remaining(db, gone + more)
    ensures MemberVersions(Remaining(db, gone + more)) <= MemberVersions(Remaining(db, gone))
    ensures MemberRoutes(Remaining(db, gone + more)) <= MemberRoutes(Remaining(db, gone))
  {
  }

  lemma OnlyTwice<T>(table: map<Id, T>, first: set<Id>, second: set<Id>, both: set<Id>)
    requires forall k | k in table :: k in first && k in second <==> k in both
    ensures Only(Only(table, first), second) == Only(table, both)
  {
    assert forall k :: k in Only(Only(table, first), second) <==> k in Only(table, both);
  }

  lemma DetailsCompose(db: Db, gone: set<Id>, live1: set<Id>, live2: set<Id>)
    requires live2 <= live1
    ensures var one := Reachable(db, gone);
      live1 == MemberVersions(Remaining(db, gone)) ==>
        && Only(one.directions, DirectionsOn(one, live2)) == Only(db.directions, DirectionsOn(db, live2))
        && Only(one.services, ServicesOn(one, live2)) == Only(db.services, ServicesOn(db, live2))
        && Only(one.segments, SegmentsOn(one, live2)) == Only(db.segments, SegmentsOn(db, live2))
  {
    var one := Reachable(db, gone);
    if live1 == MemberVersions(Remaining(db, gone)) {
      OnlyTwice(db.directions, DirectionsOn(db, live1), DirectionsOn(one, live2), DirectionsOn(db, live2));
      OnlyTwice(db.services, ServicesOn(db, live1), ServicesOn(one, live2), ServicesOn(db, live2));
      OnlyTwice(db.segments, SegmentsOn(db, live1), SegmentsOn(one, live2), SegmentsOn(db, live2));
    }
  }

  lemma ReachableComposes(db: Db, gone: set<Id>, more: set<Id>)
    ensures Reachable(Reachable(db, gone), more) == Reachable(db, gone + more)
  {
    var live1, live2 := MemberVersions(Remaining(db, gone)), MemberVersions(Remaining(db, gone + more));
    var routes1, routes2 := MemberRoutes(Remaining(db, gone)), MemberRoutes(Remaining(db, gone + more));
    RemainingComposes(db, gone, more);
    ListsCompose(db, gone, more);
    OnlyTwice(db.routes, routes1, routes2, routes2);
    OnlyTwice(db.versions, live1, live2, live2);
    DetailsCompose(db, gone, live1, live2);
  }

  lemma ListsCompose(db: Db, gone: set<Id>, more: set<Id>)
    ensures var both, two := Unlisted(Reachable(db, gone), more), Unlisted(db, gone + more);
      both.generations == two.generations && both.counts == two.counts && both.snapshots == two.snapshots
        && both.pointers == two.pointers
  {
    var both, two := Unlisted(Reachable(db, gone), more), Unlisted(db, gone + more);
    assert (db.generations - gone) - more == db.generations - (gone + more);
    assert (db.counts - gone) - more == db.counts - (gone + more);
    assert forall k :: k in both.snapshots <==> k in two.snapshots;
    assert forall role :: role in both.pointers <==> role in two.pointers;
  }
}
