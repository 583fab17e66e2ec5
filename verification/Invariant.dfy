/** What every reachable state of the store satisfies. */
module Invariant {
  import opened Schema
  import opened Wkt
  import opened Denorm

  /** `previous` implies `current` and differs from it, and the published generations are exactly
      the ones a pointer names. */
  ghost predicate PointersSound(db: Db) {
    && (Previous in db.pointers ==> Current in db.pointers && db.pointers[Previous] != db.pointers[Current])
    && (forall role | role in db.pointers :: db.pointers[role] in db.generations)
    && (forall g | g in db.generations :: db.generations[g] == Published <==> PointedAt(db, g))
  }

  /** Membership rows name stored rows, and a version of the route they name. */
  ghost predicate MembersAttached(db: Db) {
    forall m | m in db.members ::
      && m.generation in db.generations
      && m.route in db.routes
      && m.version in db.versions
      && db.versions[m.version].routeId == m.route
  }

  /** A version belongs to one generation, and a generation has one version of a route. */
  ghost predicate MembersUnique(db: Db) {
    && (forall m, n | m in db.members && n in db.members && m.version == n.version :: m == n)
    && (forall m, n | m in db.members && n in db.members && m.generation == n.generation && m.route == n.route ::
      m == n)
  }

  /** No version and no route is unreachable from a generation; a generation has an attribute
      snapshot for exactly its member routes, and a counts row. */
  ghost predicate NothingOrphaned(db: Db) {
    && db.versions.Keys == MemberVersions(db.members)
    && db.routes.Keys == MemberRoutes(db.members)
    && db.snapshots.Keys == MemberKeys(db.members)
    && db.counts.Keys == db.generations.Keys
  }

  /** Directions, services and segments hang off stored versions. */
  ghost predicate DetailsAttached(db: Db) {
    && (forall d | d in db.directions :: db.directions[d].info.versionId in db.versions)
    && (forall s | s in db.services :: db.services[s].versionId in db.versions)
    && (forall s | s in db.segments :: db.segments[s].versionId in db.versions)
  }

  /** The unique keys of directions, services and segments. */
  ghost predicate DetailsUnique(db: Db) {
    && (forall d, e | d in db.directions && e in db.directions
          && db.directions[d].info.versionId == db.directions[e].info.versionId
          && db.directions[d].info.sequence == db.directions[e].info.sequence :: d == e)
    && (forall s, t | s in db.services && t in db.services
          && db.services[s].versionId == db.services[t].versionId
          && db.services[s].departureLabel == db.services[t].departureLabel :: s == t)
    && (forall s, t | s in db.segments && t in db.segments
          && db.segments[s].directionId == db.segments[t].directionId
          && db.segments[s].sequence == db.segments[t].sequence :: s == t)
  }

  /** A service or segment points only at a direction of its own version. */
  ghost predicate LinksInside(db: Db) {
    && (forall s | s in db.services && db.services[s].directionId.Some? ::
          && db.services[s].directionId.value in db.directions
          && db.directions[db.services[s].directionId.value].info.versionId == db.services[s].versionId)
    && (forall s | s in db.segments ::
          && db.segments[s].directionId in db.directions
          && db.directions[db.segments[s].directionId].info.versionId == db.segments[s].versionId)
  }

  /** A route id is the name-based uuid of its code, in shared rows and in snapshots. */
  ghost predicate CodesSound(p: Platform, db: Db) {
    && (forall r | r in db.routes :: p.uuid5(db.routes[r].code) == r)
    && (forall k | k in db.snapshots :: p.uuid5(db.snapshots[k].code) == k.route)
  }

  /** The shared attributes of every current route are the current generation's snapshot. */
  ghost predicate CurrentShown(db: Db) {
    Current in db.pointers ==>
      forall k | k in db.snapshots && k.generation == db.pointers[Current] ::
        k.route in db.routes && db.routes[k.route] == db.snapshots[k]
  }

  function MembersOf(db: Db, g: Id): set<Member> {
    set m | m in db.members && m.generation == g
  }

  /** What the counting queries of validation find for generation `g`. */
  function ActualCounts(db: Db, g: Id): Counts {
    var versions := MemberVersions(MembersOf(db, g));
    Counts(|MembersOf(db, g)|, |DirectionsOn(db, versions)|, |ServicesOn(db, versions)|, |SegmentsOn(db, versions)|)
  }

  /** The expected counts recorded at stage time are what is stored. */
  ghost predicate CountsSound(db: Db) {
    forall g | g in db.generations :: g in db.counts && db.counts[g] == ActualCounts(db, g)
  }

  /** The geography column has taken every segment's geometry. */
  ghost predicate GeometriesSound(p: Platform, db: Db) {
    forall s | s in db.segments :: Taken(p, db.segments[s].geometry)
  }

  /** The invariant of every reachable state. */
  ghost predicate Inv(p: Platform, db: Db) {
    && PointersSound(db)
    && MembersAttached(db)
    && MembersUnique(db)
    && NothingOrphaned(db)
    && DetailsAttached(db)
    && DetailsUnique(db)
    && LinksInside(db)
    && CodesSound(p, db)
    && CurrentShown(db)
    && CountsSound(db)
    && DenormSound(p, db)
    && GeometriesSound(p, db)
  }
}
