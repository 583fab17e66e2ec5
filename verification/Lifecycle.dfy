/** The store's operations as functions on its tables, and the invariant over whole runs. */
module Lifecycle {
  import opened Common
  import opened Schema
  import opened Wkt
  import opened Denorm
  import opened Invariant
  import opened Collector
  import opened Staging
  import opened StagingProofs

  /** Why an operation raised. `Rejected` is a constraint violation reported by the database. */
  datatype Failure =
    | NotFound
    | NotStaging
    | NotValidated
    | CountsMissing
    | NoMembership
    | CountMismatch
    | MembershipInvalid
    | DenormMismatch
    | NotDiscardable
    | PassengerVisible
    | LeaseHeld
    | Rejected
    | Malformed(fault: Fault)

  datatype Outcome = Done | Failed(why: Failure)

  // ---- discard_staging ------------------------------------------------------------------------------

  ghost function Discarded(db: Db, g: Id): (Db, Outcome) {
    if g !in db.generations then (db, Done)
    else if db.generations[g] == Published then (db, Failed(NotDiscardable))
    else if PointedAt(db, g) then (db, Failed(PassengerVisible))
    else (Without(db, {g}), Done)
  }

  // ---- validate -------------------------------------------------------------------------------------

  function SegmentsAlong(db: Db, d: Id): set<Id> {
    set s | s in db.segments && db.segments[s].directionId == d
  }

  /** A generation lists a version once: `UNIQUE (generation_id, route_version_id)`. */
  ghost predicate VersionsOnce(members: set<Member>) {
    forall m, n | m in members && n in members && m.generation == n.generation && m.version == n.version :: m == n
  }

  /** What joining one more version adds to the sets that are counted. */
  lemma RowsOneMore(db: Db, done: set<Id>, v: Id)
    requires v !in done
    ensures |DirectionsOn(db, done + {v})| == |DirectionsOn(db, done)| + |DirectionsOn(db, {v})|
    ensures |ServicesOn(db, done + {v})| == |ServicesOn(db, done)| + |ServicesOn(db, {v})|
    ensures |SegmentsOn(db, done + {v})| == |SegmentsOn(db, done)| + |SegmentsOn(db, {v})|
  {
    assert DirectionsOn(db, done + {v}) == DirectionsOn(db, done) + DirectionsOn(db, {v});
    assert ServicesOn(db, done + {v}) == ServicesOn(db, done) + ServicesOn(db, {v});
    assert SegmentsOn(db, done + {v}) == SegmentsOn(db, done) + SegmentsOn(db, {v});
  }

  function CountsOn(db: Db, members: nat, versions: set<Id>): Counts {
    Counts(members, |DirectionsOn(db, versions)|, |ServicesOn(db, versions)|, |SegmentsOn(db, versions)|)
  }

  /** What joining the membership rows `members` to the detail tables counts. */
  ghost function CountedOver(db: Db, members: set<Member>): Counts {
    CountsOn(db, |members|, MemberVersions(members))
  }

  /** What joining one membership row counts. */
  function Joined(db: Db, v: Id): Counts {
    CountsOn(db, 1, {v})
  }

  function Plus(a: Counts, b: Counts): Counts {
    Counts(a.versions + b.versions, a.directions + b.directions, a.services + b.services, a.segments + b.segments)
  }

  lemma CountsOneMore(db: Db, n: nat, done: set<Id>, v: Id)
    requires v !in done
    ensures CountsOn(db, n + 1, done + {v}) == Plus(CountsOn(db, n, done), Joined(db, v))
  {
    RowsOneMore(db, done, v);
  }

  lemma CountedOneMore(db: Db, members: set<Member>, done: set<Member>, m: Member)
    requires VersionsOnce(members) && done <= members && m in members && m !in done
    requires forall n | n in members :: n.generation == m.generation
    ensures CountedOver(db, done + {m}) == Plus(CountedOver(db, done), Joined(db, m.version))
  {
    OneMoreMember(members, done, m);
    CountsOneMore(db, |done|, MemberVersions(done), m.version);
  }

  lemma CountedNone(db: Db)
    ensures CountedOver(db, {}) == Counts(0, 0, 0, 0)
  {
    assert DirectionsOn(db, {}) == {} && ServicesOn(db, {}) == {} && SegmentsOn(db, {}) == {};
    assert MemberVersions({}) == {};
  }

  lemma OneMoreMember(members: set<Member>, done: set<Member>, m: Member)
    requires VersionsOnce(members) && done <= members && m in members && m !in done
    requires forall n | n in members :: n.generation == m.generation
    ensures m.version !in MemberVersions(done) && MemberVersions(done + {m}) == MemberVersions(done) + {m.version}
  {
  }

  /** What the validation queries complain about first. */
  ghost function Complaint(db: Db, g: Id): Option<Failure> {
    if g !in db.generations then Some(NotFound)
    else if db.generations[g] != Status.Staging then Some(NotStaging)
    else if g !in db.counts then Some(CountsMissing)
    else if MembersOf(db, g) == {} then Some(NoMembership)
    else if ActualCounts(db, g) != db.counts[g] then Some(CountMismatch)
    else if exists m :: m in MembersOf(db, g) && m.version in db.versions && db.versions[m.version].routeId != m.route
      then Some(MembershipInvalid)
    else if exists d ::
      d in DirectionsOn(db, MemberVersions(MembersOf(db, g)))
      && |db.directions[d].advice| != |SegmentsAlong(db, d)| then Some(DenormMismatch)
    else None
  }

  ghost function ValidatedDb(db: Db, g: Id): (Db, Outcome) {
    match Complaint(db, g)
    case None => (db.(generations := db.generations[g := Validated]), Done)
    case Some(why) =>
      var (after, discarding) := Discarded(db, g);
      (after, if discarding.Done? then Failed(why) else discarding)
  }

  // ---- publish --------------------------------------------------------------------------------------

  /** Staging or validated generations that no pointer names, except the kept one. */
  function Orphans(db: Db, keep: Option<Id>): set<Id> {
    set g | g in db.generations && db.generations[g] != Published && !PointedAt(db, g) && Some(g) != keep
  }

  /** The former previous generation, which a publish drops. */
  ghost function Superseded(db: Db): set<Id> {
    if Previous in db.pointers && Pointer(db, Previous) != Pointer(db, Current) then {db.pointers[Previous]} else {}
  }

  /** The store when only the current generation and `g` are left. */
  ghost function Pruned(db: Db, g: Id): Db {
    var dropped := Without(db, Superseded(db));
    Without(dropped, Orphans(dropped, Some(g)))
  }

  /** `apply_generation_routes`: copy the snapshot of `g` onto the shared routes. */
  ghost function Applied(db: Db, g: Id): map<Id, RouteAttrs> {
    map r | r in db.routes :: if SnapshotKey(g, r) in db.snapshots then db.snapshots[SnapshotKey(g, r)]
      else db.routes[r]
  }

  /** The pointer rows once `g` is current and the former current generation, if any, previous. */
  ghost function Shifted(pointers: map<Role, Id>, g: Id): map<Role, Id> {
    if Current in pointers && pointers[Current] != g then pointers[Previous := pointers[Current]][Current := g]
    else if Previous in pointers && Current !in pointers then (pointers - {Previous})[Current := g]
    else pointers[Current := g]
  }

  /** The statuses once the former current generation and `g` are stamped published. */
  ghost function Restamped(db: Db, g: Id): map<Id, Status> {
    if Current in db.pointers && db.pointers[Current] != g
      then Stamped(Stamped(db.generations, db.pointers[Current]), g)
    else Stamped(db.generations, g)
  }

  /** The last part of a publish: flip the shared attributes with the pointers. */
  ghost function Flipped(db: Db, g: Id): Db {
    db.(routes := Applied(db, g), pointers := Shifted(db.pointers, g), generations := Restamped(db, g))
  }

  /** `UPDATE dataset_generations SET status = 'published' WHERE id = g`. */
  ghost function Stamped(generations: map<Id, Status>, g: Id): map<Id, Status> {
    if g in generations then generations[g := Published] else generations
  }

  ghost function PublishedDb(db: Db, g: Id): (Db, Outcome) {
    if g !in db.generations then (db, Failed(NotFound))
    else if db.generations[g] != Validated then (db, Failed(NotValidated))
    else (Flipped(Pruned(db, g), g), Done)
  }

  // ---- the lease ------------------------------------------------------------------------------------

  ghost predicate Expired(lease: Lease, now: Instant) {
    lease.expiresAt <= now
  }

  ghost function Claimed(db: Db, holder: Id, now: Instant, ttl: int, force: bool): (Db, Outcome) {
    var lease := Some(Lease(holder, now, now + ttl));
    if db.lease.None? then (db.(lease := lease), Done)
    else if db.lease.value.holder != holder && !Expired(db.lease.value, now) && !force then (db, Failed(LeaseHeld))
    else if Expired(db.lease.value, now) || force then (Without(db, Orphans(db, None)).(lease := lease), Done)
    else (db.(lease := lease), Done)
  }

  ghost function Released(db: Db, holder: Id): Db {
    if db.lease.Some? && db.lease.value.holder == holder then db.(lease := None) else db
  }

  // ---- runs -----------------------------------------------------------------------------------------

  datatype Step =
    | Stage(g: Id, rows: Export)
    | Validate(g: Id)
    | Publish(g: Id)
    | Discard(g: Id)
    | Claim(holder: Id, now: Instant, ttl: int, force: bool)
    | Release(holder: Id)

  ghost function Apply(p: Platform, db: Db, step: Step): (Db, Outcome) {
    match step
    case Stage(g, rows) => if Accepts(p, db, g, rows) then (Staged(p, db, g, rows), Done) else (db, Failed(Rejected))
    case Validate(g) => ValidatedDb(db, g)
    case Publish(g) => PublishedDb(db, g)
    case Discard(g) => Discarded(db, g)
    case Claim(holder, now, ttl, force) => Claimed(db, holder, now, ttl, force)
    case Release(holder) => (Released(db, holder), Done)
  }

  /** The tables after a run of steps, in any order and by any holders. */
  ghost function Run(p: Platform, db: Db, steps: seq<Step>): Db {
    if steps == [] then db else Apply(p, Run(p, db, steps[..|steps| - 1]), steps[|steps| - 1]).0
  }

  ghost predicate WellFormedSteps(p: Platform, steps: seq<Step>) {
    forall step | step in steps :: step.Stage? ==> WellFormed(p, step.rows)
  }

  // ---- the invariant, operation by operation -----------------------------------------------------------

  lemma EmptyInv(p: Platform)
    ensures Inv(p, EMPTY)
  {
  }

  lemma DiscardKeepsInv(p: Platform, db: Db, g: Id)
    requires Inv(p, db)
    ensures Inv(p, Discarded(db, g).0)
  {
    if g in db.generations && db.generations[g] != Published && !PointedAt(db, g) {
      CollectingKeepsInv(p, db, {g});
    }
  }

  /** `after` has the rows of `db`, except statuses, pointers, route attributes and the lease. */
  ghost predicate SameRows(db: Db, after: Db) {
    && after.routes.Keys == db.routes.Keys
    && after.generations.Keys == db.generations.Keys
    && after.versions == db.versions
    && after.directions == db.directions
    && after.services == db.services
    && after.segments == db.segments
    && after.members == db.members
    && after.counts == db.counts
    && after.snapshots == db.snapshots
  }

  lemma SameRowsMembers(db: Db, after: Db)
    requires SameRows(db, after) && MembersAttached(db) && MembersUnique(db) && NothingOrphaned(db)
    ensures MembersAttached(after) && MembersUnique(after) && NothingOrphaned(after)
  {
  }

  lemma SameRowsCounts(db: Db, after: Db)
    requires SameRows(db, after) && CountsSound(db)
    ensures CountsSound(after)
  {
  }

  lemma SameRowsDetails(p: Platform, db: Db, after: Db)
    requires SameRows(db, after)
    ensures DetailsAttached(db) ==> DetailsAttached(after)
    ensures DetailsUnique(db) ==> DetailsUnique(after)
    ensures LinksInside(db) ==> LinksInside(after)
    ensures DenormSound(p, db) ==> DenormSound(p, after)
    ensures GeometriesSound(p, db) ==> GeometriesSound(p, after)
  {
  }

  /** Only pointers, codes and the current routes are left to check. */
  lemma SameRowsKeepInv(p: Platform, db: Db, after: Db)
    requires Inv(p, db) && SameRows(db, after)
    requires PointersSound(after) && CodesSound(p, after) && CurrentShown(after)
    ensures Inv(p, after)
  {
    SameRowsMembers(db, after);
    SameRowsDetails(p, db, after);
    SameRowsCounts(db, after);
  }

  lemma StatusKeepsInv(p: Platform, db: Db, g: Id)
    requires Inv(p, db) && g in db.generations && db.generations[g] == Status.Staging
    ensures Inv(p, db.(generations := db.generations[g := Validated]))
  {
    var after := db.(generations := db.generations[g := Validated]);
    StatusKeepsPointers(db, g);
    SameRowsKeepInv(p, db, after);
  }

  lemma StatusKeepsPointers(db: Db, g: Id)
    requires PointersSound(db) && g in db.generations && db.generations[g] == Status.Staging
    ensures PointersSound(db.(generations := db.generations[g := Validated]))
  {
  }

  lemma ValidateKeepsInv(p: Platform, db: Db, g: Id)
    requires Inv(p, db)
    ensures Inv(p, ValidatedDb(db, g).0)
  {
    DiscardKeepsInv(p, db, g);
    if Complaint(db, g).None? {
      StatusKeepsInv(p, db, g);
    }
  }

  /** Under the invariant, a validated generation is not pointed at, so a publish drops only the
      former previous generation and the orphans. */
  lemma PruningKeepsInv(p: Platform, db: Db, g: Id)
    requires Inv(p, db) && g in db.generations && db.generations[g] == Validated
    ensures Inv(p, Pruned(db, g))
    ensures Pruned(db, g) == Without(db, db.generations.Keys - Survivors(db, g))
  {
    var dropped := Without(db, Superseded(db));
    CollectingKeepsInv(p, db, Superseded(db));
    assert Current in dropped.pointers ==> PointedAt(dropped, dropped.pointers[Current]);
    CollectingKeepsInv(p, dropped, Orphans(dropped, Some(g)));
    CollectingComposes(p, db, Superseded(db), Orphans(dropped, Some(g)));
    PrunedGenerations(db, g);
  }

  /** The generations a publish of `g` keeps: `g` and the current one. */
  ghost function Survivors(db: Db, g: Id): set<Id> {
    {g} + (if Current in db.pointers then {db.pointers[Current]} else {})
  }

  lemma PrunedGenerations(db: Db, g: Id)
    requires PointersSound(db) && g in db.generations && db.generations[g] == Validated
    ensures Superseded(db) + Orphans(Without(db, Superseded(db)), Some(g)) == db.generations.Keys - Survivors(db, g)
  {
    var dropped := Without(db, Superseded(db));
    forall x | x in db.generations
      ensures x in Superseded(db) || x in Orphans(dropped, Some(g)) <==> x !in Survivors(db, g)
    {
      assert PointedAt(db, x) ==> db.generations[x] == Published;
      PointedAtEither(db, x);
      PointedAtEither(dropped, x);
    }
  }

  lemma PointedAtEither(db: Db, x: Id)
    ensures PointedAt(db, x) <==> Pointer(db, Current) == Some(x) || Pointer(db, Previous) == Some(x)
  {
    if PointedAt(db, x) {
      var role :| role in db.pointers && db.pointers[role] == x;
      assert role == Current || role == Previous;
    }
  }

  lemma FlipMovesPointers(db: Db, g: Id)
    requires PointersSound(db) && g in db.generations && db.generations[g] == Validated && Previous !in db.pointers
    ensures var after := Flipped(db, g);
      && Pointer(after, Current) == Some(g) && Pointer(after, Previous) == Pointer(db, Current)
      && after.generations.Keys == db.generations.Keys
      && (forall x | x in after.generations :: after.generations[x] == Published <==> PointedAt(after, x))
  {
    var after := Flipped(db, g);
    PointedAtEither(db, g);
    if Current in db.pointers {
      assert PointedAt(db, db.pointers[Current]);
    }
    forall x | x in after.generations ensures after.generations[x] == Published <==> PointedAt(after, x) {
      PointedAtEither(db, x);
      PointedAtEither(after, x);
    }
  }

  /** No code a row has or gets is a code another row has or gets. */
  ghost predicate CodesApart(before: map<Id, RouteAttrs>, after: map<Id, RouteAttrs>)
    requires before.Keys == after.Keys
  {
    forall r, s | r in before && s in before && r != s ::
      {before[r].code, after[r].code} !! {before[s].code, after[s].code}
  }

  /** Applying a snapshot never gives two shared routes the same code, not even on the way. */
  lemma CodesStayApart(p: Platform, db: Db, g: Id)
    requires CodesSound(p, db)
    ensures CodesApart(db.routes, Applied(db, g))
  {
  }

  lemma AppliedShows(db: Db, g: Id)
    requires MembersAttached(db) && db.snapshots.Keys == MemberKeys(db.members)
    ensures forall k | k in db.snapshots && k.generation == g ::
      k.route in Applied(db, g)
      && Applied(db, g)[k.route] == db.snapshots[k]
  {
  }

  lemma FlipKeepsInv(p: Platform, db: Db, g: Id)
    requires Inv(p, db) && g in db.generations && db.generations[g] == Validated && Previous !in db.pointers
    ensures Inv(p, Flipped(db, g))
  {
    FlipKeepsPointers(db, g);
    FlipKeepsCodesAndShows(p, db, g);
    FlipKeepsRows(db, g);
    SameRowsKeepInv(p, db, Flipped(db, g));
  }

  lemma AppliedKeepsCodes(p: Platform, db: Db, g: Id)
    requires CodesSound(p, db)
    ensures forall r | r in Applied(db, g) :: p.uuid5(Applied(db, g)[r].code) == r
  {
    forall r | r in Applied(db, g) ensures p.uuid5(Applied(db, g)[r].code) == r {
      var k := SnapshotKey(g, r);
      assert k in db.snapshots ==> p.uuid5(db.snapshots[k].code) == k.route;
    }
  }

  lemma FlipKeepsCodesAndShows(p: Platform, db: Db, g: Id)
    requires CodesSound(p, db) && MembersAttached(db) && NothingOrphaned(db)
    ensures CodesSound(p, Flipped(db, g)) && CurrentShown(Flipped(db, g))
  {
    AppliedKeepsCodes(p, db, g);
    AppliedShows(db, g);
  }

  lemma FlipKeepsRows(db: Db, g: Id)
    requires PointersSound(db) && g in db.generations
    ensures SameRows(db, Flipped(db, g))
  {
  }

  lemma FlipKeepsPointers(db: Db, g: Id)
    requires PointersSound(db) && g in db.generations && db.generations[g] == Validated && Previous !in db.pointers
    ensures PointersSound(Flipped(db, g))
  {
    FlipMovesPointers(db, g);
    PointedAtEither(db, g);
  }

  lemma PrunedHasNoPrevious(db: Db, g: Id, pruned: Db)
    requires PointersSound(db) && g in db.generations && db.generations[g] == Validated
    requires pruned == Without(db, db.generations.Keys - Survivors(db, g))
    ensures Previous !in pruned.pointers && Pointer(pruned, Current) == Pointer(db, Current)
    ensures g in pruned.generations && pruned.generations[g] == Validated
    ensures pruned.generations.Keys == Survivors(db, g)
  {
  }

  lemma PublishKeepsInv(p: Platform, db: Db, g: Id)
    requires Inv(p, db)
    ensures Inv(p, PublishedDb(db, g).0)
  {
    if g in db.generations && db.generations[g] == Validated {
      PruningKeepsInv(p, db, g);
      PrunedHasNoPrevious(db, g, Pruned(db, g));
      FlipKeepsInv(p, Pruned(db, g), g);
    }
  }

  /** Publishing a validated generation succeeds and leaves exactly it, as current, and the old
      current generation, as previous. */
  lemma PublishMovesPointers(p: Platform, db: Db, g: Id)
    requires Inv(p, db) && g in db.generations && db.generations[g] == Validated
    ensures var (after, outcome) := PublishedDb(db, g);
      && outcome == Done
      && Pointer(after, Current) == Some(g)
      && Pointer(after, Previous) == Pointer(db, Current)
      && after.generations.Keys == Survivors(db, g)
      && (forall x | x in after.generations :: after.generations[x] == Published)
  {
    PruningKeepsInv(p, db, g);
    PrunedHasNoPrevious(db, g, Pruned(db, g));
    FlippedPrunedPointers(db, g, Pruned(db, g));
  }

  lemma FlippedPrunedPointers(db: Db, g: Id, pruned: Db)
    requires PointersSound(pruned) && g in pruned.generations && pruned.generations[g] == Validated
      && Previous !in pruned.pointers
    requires Pointer(pruned, Current) == Pointer(db, Current) && pruned.generations.Keys == Survivors(db, g)
    ensures var after := Flipped(pruned, g);
      && Pointer(after, Current) == Some(g)
      && Pointer(after, Previous) == Pointer(db, Current)
      && after.generations.Keys == Survivors(db, g)
      && (forall x | x in after.generations :: after.generations[x] == Published)
  {
  }

  /** The rows a publish leaves are what the two remaining generations reach, and the shared
      attributes of the new current generation's routes are its own snapshot. */
  lemma PublishKeepsExactly(p: Platform, db: Db, g: Id)
    requires Inv(p, db) && g in db.generations && db.generations[g] == Validated
    ensures var after := PublishedDb(db, g).0;
      var left := Reachable(db, db.generations.Keys - Survivors(db, g));
      && after.versions == left.versions && after.directions == left.directions
      && after.services == left.services && after.segments == left.segments
      && after.members == left.members && after.snapshots == left.snapshots
      && after.routes.Keys == left.routes.Keys
      && (forall k | k in after.snapshots && k.generation == g ::
        k.route in after.routes
        && after.routes[k.route] == after.snapshots[k])
  {
    PruningKeepsInv(p, db, g);
    CollectsExactlyTheUnreachable(db, db.generations.Keys - Survivors(db, g));
    AppliedShows(Pruned(db, g), g);
  }

  lemma OrphansSpareCurrent(db: Db, keep: Option<Id>)
    ensures Current in db.pointers ==> db.pointers[Current] !in Orphans(db, keep)
  {
  }

  /** Deleting one more generation that is not current. */
  lemma DeleteOneMore(p: Platform, db: Db, gone: set<Id>, g: Id)
    requires Inv(p, db)
    requires Current in db.pointers ==> db.pointers[Current] !in gone + {g}
    ensures Inv(p, Without(db, gone + {g})) && Without(Without(db, gone), {g}) == Without(db, gone + {g})
    ensures forall order | IsOrder(order, Doomed(Without(db, gone), {g})) :: Deletable(Without(db, gone), {g}, order)
  {
    CollectingKeepsInv(p, db, gone);
    CollectingKeepsInv(p, db, gone + {g});
    CollectingComposes(p, db, gone, {g});
    AlwaysDeletable(Without(db, gone), {g});
  }

  lemma WithoutNone(db: Db)
    ensures Without(db, {}) == db
  {
  }

  lemma ClaimKeepsInv(p: Platform, db: Db, holder: Id, now: Instant, ttl: int, force: bool)
    requires Inv(p, db)
    ensures Inv(p, Claimed(db, holder, now, ttl, force).0)
  {
    LeaseKeepsInv(p, db, Some(Lease(holder, now, now + ttl)));
    ReclaimKeepsInv(p, db, Some(Lease(holder, now, now + ttl)));
  }

  lemma ReclaimKeepsInv(p: Platform, db: Db, lease: Option<Lease>)
    requires Inv(p, db)
    ensures Inv(p, Without(db, Orphans(db, None)).(lease := lease))
  {
    OrphansSpareCurrent(db, None);
    CollectingKeepsInv(p, db, Orphans(db, None));
    LeaseKeepsInv(p, Without(db, Orphans(db, None)), lease);
  }

  lemma LeaseKeepsInv(p: Platform, db: Db, lease: Option<Lease>)
    requires Inv(p, db)
    ensures Inv(p, db.(lease := lease))
  {
    var after := db.(lease := lease);
    assert forall x :: PointedAt(after, x) <==> PointedAt(db, x);
    SameRowsKeepInv(p, db, after);
  }

  lemma StageKeepsInv(p: Platform, db: Db, g: Id, rows: Export)
    requires Inv(p, db) && WellFormed(p, rows)
    ensures Inv(p, if Accepts(p, db, g, rows) then Staged(p, db, g, rows) else db)
  {
    if Accepts(p, db, g, rows) {
      StagingKeepsInv(p, db, g, rows);
    }
  }

  lemma StepKeepsInv(p: Platform, db: Db, step: Step)
    requires Inv(p, db) && (step.Stage? ==> WellFormed(p, step.rows))
    ensures Inv(p, Apply(p, db, step).0)
  {
    match step
    case Stage(g, rows) => StageKeepsInv(p, db, g, rows);
    case Validate(g) => ValidateKeepsInv(p, db, g);
    case Publish(g) => PublishKeepsInv(p, db, g);
    case Discard(g) => DiscardKeepsInv(p, db, g);
    case Claim(holder, now, ttl, force) => ClaimKeepsInv(p, db, holder, now, ttl, force);
    case Release(holder) => LeaseKeepsInv(p, db, None);
  }

  /** Safety over whole runs: any interleaving of operations by any holders, on well-formed exports,
      keeps the invariant. */
  lemma {:induction false} RunKeepsInv(p: Platform, db: Db, steps: seq<Step>)
    requires Inv(p, db) && WellFormedSteps(p, steps)
    ensures Inv(p, Run(p, db, steps))
  {
    if steps != [] {
      RunKeepsInv(p, db, steps[..|steps| - 1]);
      assert steps[|steps| - 1] in steps;
      StepKeepsInv(p, Run(p, db, steps[..|steps| - 1]), steps[|steps| - 1]);
    }
  }

  lemma {:induction false} ReachableStoreInv(p: Platform, steps: seq<Step>)
    requires WellFormedSteps(p, steps)
    ensures Inv(p, Run(p, EMPTY, steps))
  {
    EmptyInv(p);
    RunKeepsInv(p, EMPTY, steps);
  }
}
