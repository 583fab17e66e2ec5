/** A discard undoes a stage: the store is back to the rows it had. */
module Undo {
  import opened Schema
  import opened Invariant
  import opened Collector
  import opened Staging
  import opened StagingProofs
  import opened Lifecycle
  import opened Passenger

  lemma OnlyItsKeys<T(!new)>(table: map<Id, T>, after: map<Id, T>)
    requires forall k | k in table :: k in after && after[k] == table[k]
    ensures Only(after, table.Keys) == table
  {
    KeptOnly(table, after, table.Keys);
    assert Only(table, table.Keys) == table;
  }

  lemma SnapshotsUndone(g: Id, rows: seq<Row<RouteAttrs>>, table: map<SnapshotKey, RouteAttrs>,
      after: map<SnapshotKey, RouteAttrs>)
    requires Grown(table, SnapshotRows(g, rows), after) && forall k | k in table :: k.generation != g
    ensures (map k | k in after && k.generation !in {g} :: after[k]) == table
  {
    var left := map k | k in after && k.generation !in {g} :: after[k];
    assert forall row | row in SnapshotRows(g, rows) :: row.id.generation == g;
    forall k: SnapshotKey ensures k in left <==> k in table {
      assert k in after && k !in table ==> Row(k, after[k]).id.generation == g;
    }
  }

  lemma MembersUndone(db: Db, g: Id, rows: seq<Row<Version>>, after: Db)
    requires after.members == db.members + MembersFrom(g, rows) && forall m | m in db.members :: m.generation != g
    ensures Remaining(after, {g}) == db.members
  {
  }

  lemma KeyUndone<T>(table: map<Id, T>, g: Id, x: T)
    requires g !in table
    ensures table[g := x] - {g} == table
  {
  }

  lemma PointersUndone(pointers: map<Role, Id>, g: Id)
    requires forall role | role in pointers :: pointers[role] != g
    ensures (map role | role in pointers && pointers[role] !in {g} :: pointers[role]) == pointers
  {
  }

  /** A generation that does not exist is on no list. */
  lemma UnknownGeneration(db: Db, g: Id)
    requires MembersAttached(db) && NothingOrphaned(db) && PointersSound(db) && g !in db.generations
    ensures g !in db.counts
    ensures forall k | k in db.snapshots :: k.generation != g
    ensures forall m | m in db.members :: m.generation != g
    ensures forall role | role in db.pointers :: db.pointers[role] != g
  {
    forall k | k in db.snapshots ensures k.generation != g {
      assert k in MemberKeys(db.members);
    }
    assert forall x :: x in db.counts.Keys <==> x in db.generations.Keys;
  }

  /** The lists once the generation's own entries are taken off again. */
  lemma ListsUndone(db: Db, g: Id, e: Export, after: Db)
    requires g !in db.generations && after.generations == db.generations[g := Status.Staging]
    requires g !in db.counts && after.counts == db.counts[g := Expected(e)]
    requires after.members == db.members + MembersFrom(g, e.versions) && after.pointers == db.pointers
    requires Grown(db.snapshots, SnapshotRows(g, e.routes), after.snapshots)
    requires forall k | k in db.snapshots :: k.generation != g
    requires forall m | m in db.members :: m.generation != g
    requires forall role | role in db.pointers :: db.pointers[role] != g
    ensures Remaining(after, {g}) == db.members
    ensures Unlisted(after, {g}) == after.(
      generations := db.generations, members := db.members, counts := db.counts, snapshots := db.snapshots,
        pointers := db.pointers)
  {
    SnapshotsUndone(g, e.routes, db.snapshots, after.snapshots);
    MembersUndone(db, g, e.versions, after);
    KeyUndone(db.generations, g, Status.Staging);
    KeyUndone(db.counts, g, Expected(e));
    PointersUndone(db.pointers, g);
  }

  /** Every detail row hangs off a listed version. */
  lemma DetailsListed(db: Db)
    requires NothingOrphaned(db) && DetailsAttached(db)
    ensures var live := MemberVersions(db.members);
      DirectionsOn(db, live) == db.directions.Keys && ServicesOn(db, live) == db.services.Keys
        && SegmentsOn(db, live) == db.segments.Keys
  {
    var live := db.versions.Keys;
    assert forall d :: d in DirectionsOn(db, live) <==> d in db.directions.Keys;
    assert forall s :: s in ServicesOn(db, live) <==> s in db.services.Keys;
    assert forall s :: s in SegmentsOn(db, live) <==> s in db.segments.Keys;
  }

  lemma RowsUndone(p: Platform, db: Db, g: Id, e: Export, after: Db)
    requires Extends(p, db, g, e, after) && WellFormed(p, e) && NothingOrphaned(db) && DetailsAttached(db)
    ensures var live := MemberVersions(db.members);
      && Only(after.routes, MemberRoutes(db.members)) == db.routes
      && Only(after.versions, live) == db.versions
      && Only(after.directions, DirectionsOn(after, live)) == db.directions
      && Only(after.services, ServicesOn(after, live)) == db.services
      && Only(after.segments, SegmentsOn(after, live)) == db.segments
  {
    var live := MemberVersions(db.members);
    DetailsListed(db);
    OldDirections(p, db, g, e, after, live);
    OldServices(p, db, g, e, after, live);
    OldSegments(p, db, g, e, after, live);
    ExtendedTables(p, db, g, e, after);
  }

  lemma ExtendedTables(p: Platform, db: Db, g: Id, e: Export, after: Db)
    requires Extends(p, db, g, e, after)
    ensures Only(after.routes, db.routes.Keys) == db.routes
    ensures Only(after.versions, db.versions.Keys) == db.versions
    ensures Only(after.directions, db.directions.Keys) == db.directions
    ensures Only(after.services, db.services.Keys) == db.services
    ensures Only(after.segments, db.segments.Keys) == db.segments
  {
    OnlyItsKeys(db.routes, after.routes);
    OnlyItsKeys(db.versions, after.versions);
    OnlyItsKeys(db.directions, after.directions);
    OnlyItsKeys(db.services, after.services);
    OnlyItsKeys(db.segments, after.segments);
  }

  /** Staging a well-formed export and discarding it gives back every table as it was. */
  lemma DiscardUndoesStage(p: Platform, db: Db, g: Id, e: Export)
    requires Inv(p, db) && WellFormed(p, e) && Accepts(p, db, g, e)
    ensures Discarded(Staged(p, db, g, e), g) == (db, Done)
  {
    var after := Staged(p, db, g, e);
    StagedExtends(p, db, g, e);
    StagingKeepsInv(p, db, g, e);
    CollectsExactlyTheUnreachable(after, {g});
    UnknownGeneration(db, g);
    ListsUndone(db, g, e, after);
    RowsUndone(p, db, g, e, after);
    PointedAtEither(db, g);
    PointedAtEither(after, g);
  }
}
