/** The migration that adds the advice column: it establishes on existing rows what every later
    operation preserves. */
module Migration {
  import opened Common
  import opened Schema
  import opened Wkt
  import opened Readers
  import opened Invariant
  import opened Denorm
  import opened AdviceColumn
  import opened Tables

  /** `_coords_from_segment_geometry` as a reader of rows. */
  function MigrationReader(p: Platform): Reader {
    (row: Row<Segment>) => match MigrationCoordinates(p, row.cols.geometry)
      case Some(points) => Ok(points)
      case None => Err(ValueError)
  }

  /** The column of every direction in `done` is built from its segments; the rest is unchanged. */
  ghost predicate Backfilled(read: Reader, before: map<Id, Direction>, after: map<Id, Direction>, done: set<Id>,
      select: Id -> seq<Row<Segment>>) {
    && after.Keys == before.Keys
    && (forall d | d in before && d in done ::
      after[d].info == before[d].info
      && ListOf(read, select(d), after[d].advice))
    && (forall d | d in before && d !in done :: after[d] == before[d])
  }

  /** `upgrade`: direction by direction, in any order; an unreadable geometry undoes everything.
      `select` gives the segment rows of a direction in sequence order. */
  method Backfill(read: Reader, db: Database, select: Id -> seq<Row<Segment>>) returns (ok: bool)
    modifies db`directions
    ensures ok <==> forall d | d in old(db.directions) :: AllRead(read, select(d))
    ensures ok ==> Backfilled(read, old(db.directions), db.directions, old(db.directions).Keys, select)
    ensures !ok ==> db.directions == old(db.directions)
  {
    var before, todo := db.directions, db.directions.Keys;
    while todo != {}
      invariant todo <= before.Keys
      invariant Backfilled(read, before, db.directions, before.Keys - todo, select)
      invariant forall d | d in before && d !in todo :: AllRead(read, select(d))
    {
      assert (forall d :: d !in todo) ==> todo == {};
      var d :| d in todo;
      var items := ReadEach(read, select(d));
      if items.Err? {
        db.directions := before;
        return false;
      }
      todo := todo - {d};
      db.directions := db.directions[d := Direction(before[d].info, items.value)];
    }
    ok := true;
  }

  lemma {:induction false} MigratedListIsItems(p: Platform, rows: seq<Row<Segment>>, items: seq<AdviceItem>)
    requires TakesOnlyLines(p) && ListOf(MigrationReader(p), rows, items)
    requires forall i | 0 <= i < |rows| :: Taken(p, rows[i].cols.geometry)
    ensures items == Items(p, rows) && AllReadable(p, rows)
  {
    if rows != [] {
      MigratedItem(p, rows[0]);
      MigratedListIsItems(p, rows[1..], items[1..]);
    }
  }

  lemma MigratedItem(p: Platform, row: Row<Segment>)
    requires TakesOnlyLines(p) && Taken(p, row.cols.geometry) && MigrationReader(p)(row).Ok?
    ensures StoredCoordinates(p, row.cols.geometry).Ok?
    ensures ItemWith(row, MigrationReader(p)(row).value) == ItemOf(p, row)
  {
    TakenIsMigrated(p, row.cols.geometry);
  }

  lemma MigratedIsMirrored(p: Platform, segments: map<Id, Segment>, d: Id, rows: seq<Row<Segment>>,
      items: seq<AdviceItem>)
    requires TakesOnlyLines(p) && Lists(segments, d, rows) && ListOf(MigrationReader(p), rows, items)
    requires forall s | s in segments :: Taken(p, segments[s].geometry)
    ensures Mirrors(p, segments, d, items)
  {
    forall i | 0 <= i < |rows| ensures Taken(p, rows[i].cols.geometry) {
      assert rows[i] in rows;
    }
    MigratedListIsItems(p, rows, items);
  }

  /** The upgraded column mirrors the segments, whatever geometries the table holds. */
  lemma BackfillIsSound(p: Platform, db: Db, after: Db, select: Id -> seq<Row<Segment>>)
    requires TakesOnlyLines(p) && GeometriesSound(p, db)
    requires forall d | d in db.directions :: Lists(db.segments, d, select(d))
    requires after.segments == db.segments
    requires Backfilled(MigrationReader(p), db.directions, after.directions, db.directions.Keys, select)
    ensures DenormSound(p, after)
  {
    forall d | d in after.directions ensures Mirrors(p, after.segments, d, after.directions[d].advice) {
      assert d in db.directions.Keys;
      MigratedIsMirrored(p, db.segments, d, select(d), after.directions[d].advice);
    }
  }

  /** The upgrade fails on the tables, and only those, on which stage would have failed. */
  lemma {:induction false} ReadAsStaged(p: Platform, rows: seq<Row<Segment>>)
    requires TakesOnlyLines(p) && forall i | 0 <= i < |rows| :: Taken(p, rows[i].cols.geometry)
    ensures AllRead(MigrationReader(p), rows) <==> AllReadable(p, rows)
  {
    if rows != [] {
      TakenIsMigrated(p, rows[0].cols.geometry);
      ReadAsStaged(p, rows[1..]);
      assert AllRead(MigrationReader(p), rows) <==>
        MigrationReader(p)(rows[0]).Ok? && AllRead(MigrationReader(p), rows[1..]);
    }
  }
}
