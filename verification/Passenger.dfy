/** What passengers see: everything read through the `current` pointer. */
module Passenger {
  import opened Common
  import opened Schema
  import opened Invariant
  import opened Collector
  import opened Staging
  import opened StagingProofs
  import opened Lifecycle

  datatype View = View(
    members: set<Member>,
    routes: map<Id, RouteAttrs>,
    versions: map<Id, Version>,
    directions: map<Id, Direction>,
    services: map<Id, Service>,
    segments: map<Id, Segment>)

  /** The rows generation `g` reaches, with the shared route attributes. */
  ghost function Reached(db: Db, g: Id): View {
    var members := MembersOf(db, g);
    var versions := MemberVersions(members);
    View(
      members,
      Only(db.routes, MemberRoutes(members)),
      Only(db.versions, versions),
      Only(db.directions, DirectionsOn(db, versions)),
      Only(db.services, ServicesOn(db, versions)),
      Only(db.segments, SegmentsOn(db, versions)))
  }

  ghost function Seen(db: Db): View {
    if Current in db.pointers then Reached(db, db.pointers[Current])
    else View({}, map[], map[], map[], map[], map[])
  }

  /** Collecting other generations leaves what `g` reaches alone. */
  lemma CollectingKeepsReached(db: Db, gone: set<Id>, g: Id)
    requires MembersAttached(db) && NothingOrphaned(db) && DetailsAttached(db) && g !in gone
    ensures Reached(Without(db, gone), g) == Reached(db, g)
  {
    CollectsExactlyTheUnreachable(db, gone);
    ReachableKeepsReached(db, gone, g);
  }

  lemma ReachableKeepsReached(db: Db, gone: set<Id>, g: Id)
    requires g !in gone
    ensures Reached(Reachable(db, gone), g) == Reached(db, g)
  {
    var after := Reachable(db, gone);
    var members, rest := MembersOf(db, g), Remaining(db, gone);
    assert MembersOf(after, g) == members;
    assert forall m | m in members :: m in rest;
    var versions, routes := MemberVersions(members), MemberRoutes(members);
    var live, kept := MemberVersions(rest), MemberRoutes(rest);
    OnlyTwice(db.routes, kept, routes, routes);
    OnlyTwice(db.versions, live, versions, versions);
    DetailsCompose(db, gone, live, versions);
  }

  /** Staging leaves what an older generation reaches alone. */
  lemma StagingKeepsReached(p: Platform, db: Db, g: Id, e: Export, after: Db, x: Id)
    requires Extends(p, db, g, e, after) && WellFormed(p, e) && x != g
    requires MembersAttached(db) && DetailsAttached(db)
    ensures Reached(after, x) == Reached(db, x)
  {
    var members := MembersOf(db, x);
    assert MembersOf(after, x) == members;
    var versions := MemberVersions(members);
    assert forall v | v in versions :: v in db.versions;
    assert forall r | r in MemberRoutes(members) :: r in db.routes;
    OldDirections(p, db, g, e, after, versions);
    OldServices(p, db, g, e, after, versions);
    OldSegments(p, db, g, e, after, versions);
    ExtendsOnly(p, db, g, e, after, MemberRoutes(members), versions);
  }

  lemma ExtendsOnly(p: Platform, db: Db, g: Id, e: Export, after: Db, routes: set<Id>, versions: set<Id>)
    requires Extends(p, db, g, e, after) && routes <= db.routes.Keys && versions <= db.versions.Keys
    ensures Only(after.routes, routes) == Only(db.routes, routes)
    ensures Only(after.versions, versions) == Only(db.versions, versions)
    ensures Only(after.directions, DirectionsOn(db, versions)) == Only(db.directions, DirectionsOn(db, versions))
    ensures Only(after.services, ServicesOn(db, versions)) == Only(db.services, ServicesOn(db, versions))
    ensures Only(after.segments, SegmentsOn(db, versions)) == Only(db.segments, SegmentsOn(db, versions))
  {
    KeptOnly(db.routes, after.routes, routes);
    KeptOnly(db.versions, after.versions, versions);
    KeptOnly(db.directions, after.directions, DirectionsOn(db, versions));
    KeptOnly(db.services, after.services, ServicesOn(db, versions));
    KeptOnly(db.segments, after.segments, SegmentsOn(db, versions));
  }

  lemma KeptOnly<T(!new)>(table: map<Id, T>, after: map<Id, T>, keys: set<Id>)
    requires forall k | k in table :: k in after && after[k] == table[k]
    requires keys <= table.Keys
    ensures Only(after, keys) == Only(table, keys)
  {
    forall k | k in keys ensures k in table && k in after && after[k] == table[k] {
      assert k in table.Keys;
    }
    assert Only(after, keys).Keys == keys == Only(table, keys).Keys;
  }

  lemma CollectingKeepsSeen(db: Db, gone: set<Id>)
    requires MembersAttached(db) && NothingOrphaned(db) && DetailsAttached(db)
    requires Current in db.pointers ==> db.pointers[Current] !in gone
    ensures Seen(Without(db, gone)) == Seen(db)
  {
    if Current in db.pointers {
      CollectingKeepsReached(db, gone, db.pointers[Current]);
    }
  }

  lemma DiscardKeepsSeen(p: Platform, db: Db, g: Id)
    requires Inv(p, db)
    ensures Seen(Discarded(db, g).0) == Seen(db)
  {
    if !PointedAt(db, g) {
      CollectingKeepsSeen(db, {g});
    }
  }

  lemma LeaseKeepsSeen(db: Db, lease: Option<Lease>)
    ensures Seen(db.(lease := lease)) == Seen(db)
  {
  }

  lemma ClaimKeepsSeen(p: Platform, db: Db, holder: Id, now: Instant, ttl: int, force: bool)
    requires Inv(p, db)
    ensures Seen(Claimed(db, holder, now, ttl, force).0) == Seen(db)
  {
    OrphansSpareCurrent(db, None);
    CollectingKeepsSeen(db, Orphans(db, None));
    LeaseKeepsSeen(db, Some(Lease(holder, now, now + ttl)));
    LeaseKeepsSeen(Without(db, Orphans(db, None)), Some(Lease(holder, now, now + ttl)));
  }

  lemma StageKeepsSeen(p: Platform, db: Db, g: Id, e: Export)
    requires Inv(p, db) && WellFormed(p, e) && Accepts(p, db, g, e)
    ensures Seen(Staged(p, db, g, e)) == Seen(db)
  {
    StagedExtends(p, db, g, e);
    if Current in db.pointers {
      StagingKeepsReached(p, db, g, e, Staged(p, db, g, e), db.pointers[Current]);
    }
  }

  lemma ValidateKeepsSeen(p: Platform, db: Db, g: Id)
    requires Inv(p, db)
    ensures Seen(ValidatedDb(db, g).0) == Seen(db)
  {
    DiscardKeepsSeen(p, db, g);
    if Complaint(db, g).None? {
      StampKeepsSeen(db, g);
    }
  }

  lemma StampKeepsSeen(db: Db, g: Id)
    requires g in db.generations
    ensures Seen(db.(generations := db.generations[g := Validated])) == Seen(db)
  {
  }

  /** Only a successful publish changes what passengers see. */
  lemma StepKeepsSeen(p: Platform, db: Db, step: Step)
    requires Inv(p, db) && (step.Stage? ==> WellFormed(p, step.rows))
    requires !(step.Publish? && Apply(p, db, step).1.Done?)
    ensures Seen(Apply(p, db, step).0) == Seen(db)
  {
    match step
    case Stage(g, rows) =>
      if Accepts(p, db, g, rows) {
        StageKeepsSeen(p, db, g, rows);
      }
    case Validate(g) => ValidateKeepsSeen(p, db, g);
    case Publish(g) =>
    case Discard(g) => DiscardKeepsSeen(p, db, g);
    case Claim(holder, now, ttl, force) => ClaimKeepsSeen(p, db, holder, now, ttl, force);
    case Release(holder) => LeaseKeepsSeen(db, None);
  }

  /** Some step of the run publishes successfully. */
  ghost predicate Publishes(p: Platform, db: Db, steps: seq<Step>) {
    exists i :: 0 <= i < |steps| && steps[i].Publish? && Apply(p, Run(p, db, steps[..i]), steps[i]).1.Done?
  }

  /** Over any run without a successful publish, passengers see the same rows. */
  lemma {:induction false} RunKeepsSeen(p: Platform, db: Db, steps: seq<Step>)
    requires Inv(p, db) && WellFormedSteps(p, steps) && !Publishes(p, db, steps)
    ensures Seen(Run(p, db, steps)) == Seen(db)
  {
    if steps != [] {
      var init, last := steps[..|steps| - 1], steps[|steps| - 1];
      forall i | 0 <= i < |init| ensures init[..i] == steps[..i] && init[i] == steps[i] {
      }
      assert last in steps;
      RunKeepsSeen(p, db, init);
      RunKeepsInv(p, db, init);
      StepKeepsSeen(p, Run(p, db, init), last);
    }
  }

  /** A publish of `g` shows passengers what `g` reached while it was staged, with route attributes
      from its own snapshot. */
  lemma PublishShows(p: Platform, db: Db, g: Id)
    requires Inv(p, db) && g in db.generations && db.generations[g] == Validated
    ensures var seen, staged := Seen(PublishedDb(db, g).0), Reached(db, g);
      && seen.members == staged.members && seen.versions == staged.versions && seen.directions == staged.directions
      && seen.services == staged.services && seen.segments == staged.segments
      && seen.routes.Keys == MemberRoutes(staged.members)
      && (forall r | r in seen.routes ::
        SnapshotKey(g, r) in db.snapshots
        && seen.routes[r] == db.snapshots[SnapshotKey(g, r)])
  {
    var gone := db.generations.Keys - Survivors(db, g);
    PublishSees(p, db, g);
    PruningKeepsInv(p, db, g);
    CollectingKeepsReached(db, gone, g);
    FlippedReached(Without(db, gone), g);
  }

  lemma PublishSees(p: Platform, db: Db, g: Id)
    requires Inv(p, db) && g in db.generations && db.generations[g] == Validated
    ensures Seen(PublishedDb(db, g).0) == Reached(Flipped(Without(db, db.generations.Keys - Survivors(db, g)), g), g)
  {
    PublishMovesPointers(p, db, g);
    PruningKeepsInv(p, db, g);
  }

  lemma FlippedReached(db: Db, g: Id)
    requires MembersAttached(db) && NothingOrphaned(db)
    ensures var seen, before := Reached(Flipped(db, g), g), Reached(db, g);
      && seen.(routes := before.routes) == before
      && seen.routes.Keys == MemberRoutes(MembersOf(db, g))
      && (forall r | r in seen.routes ::
        SnapshotKey(g, r) in db.snapshots
        && seen.routes[r] == db.snapshots[SnapshotKey(g, r)])
  {
    FlippedKeepsTracks(db, g);
    FlippedRoutes(db, g);
  }

  lemma FlippedKeepsTracks(db: Db, g: Id)
    ensures var seen, before := Reached(Flipped(db, g), g), Reached(db, g);
      && seen.(routes := before.routes) == before
      && seen.routes == Only(Applied(db, g), MemberRoutes(MembersOf(db, g)))
  {
    ReachedAlike(Flipped(db, g), db, g);
  }

  lemma ReachedAlike(a: Db, b: Db, g: Id)
    requires a.members == b.members && a.versions == b.versions && a.directions == b.directions
    requires a.services == b.services && a.segments == b.segments
    ensures Reached(a, g).(routes := Reached(b, g).routes) == Reached(b, g)
    ensures Reached(a, g).routes == Only(a.routes, MemberRoutes(MembersOf(b, g)))
  {
    var versions := MemberVersions(MembersOf(b, g));
    assert MembersOf(a, g) == MembersOf(b, g);
    assert DirectionsOn(a, versions) == DirectionsOn(b, versions);
    assert ServicesOn(a, versions) == ServicesOn(b, versions);
    assert SegmentsOn(a, versions) == SegmentsOn(b, versions);
  }

  lemma FlippedRoutes(db: Db, g: Id)
    requires MembersAttached(db) && db.snapshots.Keys == MemberKeys(db.members)
    ensures var shown := Only(Applied(db, g), MemberRoutes(MembersOf(db, g)));
      && shown.Keys == MemberRoutes(MembersOf(db, g))
      && (forall r | r in shown :: SnapshotKey(g, r) in db.snapshots && shown[r] == db.snapshots[SnapshotKey(g, r)])
  {
    forall r | r in MemberRoutes(MembersOf(db, g)) ensures SnapshotKey(g, r) in db.snapshots && r in db.routes {
      var m :| m in MembersOf(db, g) && m.route == r;
      assert SnapshotKey(m.generation, m.route) in MemberKeys(db.members);
    }
  }

  /** In every sound state the route attributes passengers see are the current snapshot. */
  lemma SeenIsSnapshot(p: Platform, db: Db, r: Id)
    requires Inv(p, db) && Current in db.pointers && r in Seen(db).routes
    ensures SnapshotKey(db.pointers[Current], r) in db.snapshots
    ensures Seen(db).routes[r] == db.snapshots[SnapshotKey(db.pointers[Current], r)]
  {
    ReachedIsSnapshot(db, db.pointers[Current], r);
  }

  lemma ReachedIsSnapshot(db: Db, g: Id, r: Id)
    requires NothingOrphaned(db) && CurrentShown(db) && Pointer(db, Current) == Some(g)
    requires r in Reached(db, g).routes
    ensures SnapshotKey(g, r) in db.snapshots && Reached(db, g).routes[r] == db.snapshots[SnapshotKey(g, r)]
  {
    var m :| m in MembersOf(db, g) && m.route == r;
    assert SnapshotKey(m.generation, m.route) in MemberKeys(db.members);
  }
}
