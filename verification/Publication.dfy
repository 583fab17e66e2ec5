/** From export to passengers: when validation passes, what a whole publication achieves, and when
    a deletion is blocked. */
module Publication {
  import opened Common
  import opened Schema
  import opened Denorm
  import opened Invariant
  import opened Collector
  import opened Staging
  import opened StagingProofs
  import opened Admission
  import opened Lifecycle
  import opened Passenger
  import opened Undo

  /** A direction's list has one row per segment of the direction. */
  lemma ListCard(db: Db, d: Id, rows: seq<Row<Segment>>)
    requires Lists(db.segments, d, rows)
    ensures |rows| == |SegmentsAlong(db, d)|
  {
    forall i, j | 0 <= i < j < |rows| ensures rows[i].id != rows[j].id {
      assert rows[i] in rows && rows[j] in rows;
      assert rows[i].cols.sequence < rows[j].cols.sequence;
    }
    DistinctCard(rows);
    forall s | s in SegmentsAlong(db, d) ensures s in IdSet(rows) {
      assert Row(s, db.segments[s]) in rows;
    }
    forall s | s in IdSet(rows) ensures s in SegmentsAlong(db, d) {
      var row :| row in rows && row.id == s;
    }
    assert IdSet(rows) == SegmentsAlong(db, d);
  }

  /** Validation accepts exactly the staging generations that have a route. */
  lemma ValidatesIff(p: Platform, db: Db, g: Id)
    requires Inv(p, db)
    ensures ValidatedDb(db, g).1 == Done <==>
      g in db.generations && db.generations[g] == Status.Staging && MembersOf(db, g) != {}
  {
    AdviceCard(p, db);
    ComplaintIff(db, g);
  }

  lemma ComplaintIff(db: Db, g: Id)
    requires MembersAttached(db) && CountsSound(db)
    requires forall d | d in db.directions :: |db.directions[d].advice| == |SegmentsAlong(db, d)|
    ensures Complaint(db, g) == None <==>
      g in db.generations && db.generations[g] == Status.Staging && MembersOf(db, g) != {}
  {
  }

  lemma AdviceCard(p: Platform, db: Db)
    requires DenormSound(p, db)
    ensures forall d | d in db.directions :: |db.directions[d].advice| == |SegmentsAlong(db, d)|
  {
    forall d | d in db.directions ensures |db.directions[d].advice| == |SegmentsAlong(db, d)| {
      var rows :| Lists(db.segments, d, rows) && AllReadable(p, rows) && db.directions[d].advice == Items(p, rows);
      ListCard(db, d, rows);
    }
  }

  /** Validating a generation twice raises and discards it. */
  lemma RevalidatingDiscards(p: Platform, db: Db, g: Id)
    requires Inv(p, db) && g in db.generations && db.generations[g] == Validated
    ensures ValidatedDb(db, g) == (Without(db, {g}), Failed(NotStaging))
    ensures g !in ValidatedDb(db, g).0.generations
  {
  }

  /** The three steps of a publication. */
  ghost function Publishing(g: Id, e: Export): seq<Step> {
    [Stage(g, e), Validate(g), Publish(g)]
  }

  lemma {:induction false} RunStep(p: Platform, db: Db, steps: seq<Step>, last: Step)
    ensures Run(p, db, steps + [last]) == Apply(p, Run(p, db, steps), last).0
  {
  }

  lemma {:induction false} RunThree(p: Platform, db: Db, a: Step, b: Step, c: Step)
    ensures Run(p, db, [a, b, c]) == Apply(p, Apply(p, Apply(p, db, a).0, b).0, c).0
  {
    RunStep(p, db, [], a);
    RunStep(p, db, [a], b);
    RunStep(p, db, [a, b], c);
    assert [] + [a] == [a] && [a] + [b] == [a, b] && [a, b] + [c] == [a, b, c];
  }

  /** `table` holds exactly the rows. */
  ghost predicate Holds<T(!new)>(table: map<Id, T>, rows: seq<Row<T>>) {
    && (forall row | row in rows :: row.id in table && table[row.id] == row.cols)
    && (forall k | k in table :: Row(k, table[k]) in rows)
  }

  /** The view shows the versions, directions, services and segments of `e` under generation `g`. */
  ghost predicate ShowsRows(p: Platform, seen: View, g: Id, e: Export) {
    && seen.members == MembersFrom(g, e.versions)
    && Holds(seen.versions, e.versions)
    && Holds(seen.directions, DirectionRows(p, e))
    && Holds(seen.services, e.services)
    && Holds(seen.segments, e.segments)
  }

  ghost predicate ShowsExport(p: Platform, seen: View, g: Id, e: Export) {
    ShowsRows(p, seen, g, e) && Holds(seen.routes, e.routes)
  }

  /** The store once the staged export is validated. */
  ghost function StagedAndValid(p: Platform, db: Db, g: Id, e: Export): Db {
    var staged := Staged(p, db, g, e);
    staged.(generations := staged.generations[g := Validated])
  }

  lemma ValidIsReady(p: Platform, db: Db, g: Id, e: Export)
    requires Inv(p, db) && WellFormed(p, e) && Accepts(p, db, g, e) && e.versions != []
    ensures var valid := StagedAndValid(p, db, g, e);
      && Inv(p, valid)
      && ValidatedDb(Staged(p, db, g, e), g) == (valid, Done)
  {
    StagingKeepsInv(p, db, g, e);
    StagedValidates(p, db, g, e);
    StatusKeepsInv(p, Staged(p, db, g, e), g);
  }

  lemma ValidReaches(p: Platform, db: Db, g: Id, e: Export)
    requires Inv(p, db) && WellFormed(p, e) && Accepts(p, db, g, e)
    ensures var valid := StagedAndValid(p, db, g, e);
      && g in valid.generations && valid.generations[g] == Validated && valid.pointers == db.pointers
      && ShowsRows(p, Reached(valid, g), g, e)
      && forall row | row in e.routes ::
        SnapshotKey(g, row.id) in valid.snapshots
        && valid.snapshots[SnapshotKey(g, row.id)] == row.cols
  {
    StagedReaches(p, db, g, e);
    StampKeepsReached(Staged(p, db, g, e), g);
    StagedSnapshots(p, db, g, e);
  }

  lemma StampIsForgotten(db: Db, g: Id)
    requires g in db.generations
    ensures Without(db.(generations := db.generations[g := Validated]), {g}) == Without(db, {g})
  {
    assert db.generations[g := Validated] - {g} == db.generations - {g};
  }

  lemma ValidOneIsDiscarded(p: Platform, db: Db, g: Id, e: Export)
    requires Inv(p, db) && WellFormed(p, e) && Accepts(p, db, g, e) && e.versions != []
    ensures ValidatedDb(StagedAndValid(p, db, g, e), g) == (db, Failed(NotStaging))
  {
    ValidIsReady(p, db, g, e);
    RevalidatingDiscards(p, StagedAndValid(p, db, g, e), g);
    StampIsForgotten(Staged(p, db, g, e), g);
    StagedIsUnpublished(p, db, g, e);
    DiscardUndoesStage(p, db, g, e);
  }

  lemma StagedIsUnpublished(p: Platform, db: Db, g: Id, e: Export)
    requires Inv(p, db) && WellFormed(p, e) && Accepts(p, db, g, e)
    ensures var staged := Staged(p, db, g, e);
      && g in staged.generations && staged.generations[g] == Status.Staging && !PointedAt(staged, g)
      && Discarded(staged, g) == (Without(staged, {g}), Done)
  {
    StagedExtends(p, db, g, e);
    StagingKeepsInv(p, db, g, e);
  }

  /** Validating a staged export a second time fails, and takes the export away again without a trace. */
  lemma {:induction false} RevalidatingUndoes(p: Platform, db: Db, g: Id, e: Export)
    requires Inv(p, db) && WellFormed(p, e) && Accepts(p, db, g, e) && e.versions != []
    ensures Apply(p, Run(p, db, [Stage(g, e), Validate(g)]), Validate(g)) == (db, Failed(NotStaging))
  {
    ValidIsReady(p, db, g, e);
    ValidOneIsDiscarded(p, db, g, e);
    RunTwo(p, db, Stage(g, e), Validate(g));
  }

  lemma {:induction false} RunTwo(p: Platform, db: Db, a: Step, b: Step)
    ensures Run(p, db, [a, b]) == Apply(p, Apply(p, db, a).0, b).0
  {
    RunStep(p, db, [], a);
    RunStep(p, db, [a], b);
    assert [] + [a] == [a] && [a] + [b] == [a, b];
  }

  /** An accepted, non-empty, well-formed export validates and publishes; then it is current, the
      old current generation is previous, and passengers see exactly its rows. */
  lemma AcceptedIsPublished(p: Platform, db: Db, g: Id, e: Export)
    requires Inv(p, db) && WellFormed(p, e) && Accepts(p, db, g, e) && e.versions != []
    ensures ValidatedDb(Staged(p, db, g, e), g) == (StagedAndValid(p, db, g, e), Done)
    ensures var (after, outcome) := PublishedDb(StagedAndValid(p, db, g, e), g);
      && outcome == Done
      && Pointer(after, Current) == Some(g)
      && Pointer(after, Previous) == Pointer(db, Current)
      && ShowsExport(p, Seen(after), g, e)
  {
    var valid := StagedAndValid(p, db, g, e);
    ValidIsReady(p, db, g, e);
    ValidReaches(p, db, g, e);
    PublishMovesPointers(p, valid, g);
    PublishedShowsExport(p, valid, g, e);
  }

  lemma {:induction false} PublishingRuns(p: Platform, db: Db, g: Id, e: Export)
    requires Accepts(p, db, g, e)
    ensures Run(p, db, Publishing(g, e)) == PublishedDb(ValidatedDb(Staged(p, db, g, e), g).0, g).0
  {
    var staged := Staged(p, db, g, e);
    RunThree(p, db, Stage(g, e), Validate(g), Publish(g));
    Applying(p, staged, g);
    Applying(p, ValidatedDb(staged, g).0, g);
  }

  lemma Applying(p: Platform, db: Db, g: Id)
    ensures Apply(p, db, Validate(g)) == ValidatedDb(db, g)
    ensures Apply(p, db, Publish(g)) == PublishedDb(db, g)
  {
  }

  /** Stage, validate, publish of a fresh, non-empty, well-formed export on any reachable store. */
  lemma {:induction false} ExportIsPublished(p: Platform, db: Db, g: Id, e: Export)
    requires Inv(p, db) && WellFormed(p, e) && Fresh(db, g, e) && e.versions != []
    ensures var after := Run(p, db, Publishing(g, e));
      && Pointer(after, Current) == Some(g)
      && Pointer(after, Previous) == Pointer(db, Current)
      && ShowsExport(p, Seen(after), g, e)
  {
    FreshIsAccepted(p, db, g, e);
    AcceptedIsPublished(p, db, g, e);
    PublishingRuns(p, db, g, e);
  }

  /** Validating a staged export that has no route fails, and leaves no trace of the export. */
  lemma EmptyExportIsDiscarded(p: Platform, db: Db, g: Id, e: Export)
    requires Inv(p, db) && WellFormed(p, e) && Accepts(p, db, g, e) && e.versions == []
    ensures ValidatedDb(Staged(p, db, g, e), g) == (db, Failed(NoMembership))
  {
    StagedExtends(p, db, g, e);
    DiscardUndoesStage(p, db, g, e);
    EmptyComplaint(p, db, g, e, Staged(p, db, g, e));
  }

  lemma EmptyComplaint(p: Platform, db: Db, g: Id, e: Export, after: Db)
    requires Extends(p, db, g, e, after) && MembersAttached(db) && e.versions == []
    ensures Complaint(after, g) == Some(NoMembership)
  {
  }

  /** Publishing a generation that reaches the rows of `e` shows `e`. */
  lemma PublishedShowsExport(p: Platform, db: Db, g: Id, e: Export)
    requires Inv(p, db) && g in db.generations && db.generations[g] == Validated
    requires OneVersionEach(e) && ShowsRows(p, Reached(db, g), g, e)
    requires forall row | row in e.routes ::
      SnapshotKey(g, row.id) in db.snapshots
      && db.snapshots[SnapshotKey(g, row.id)] == row.cols
    ensures ShowsExport(p, Seen(PublishedDb(db, g).0), g, e)
  {
    PublishShows(p, db, g);
    var seen := Seen(PublishedDb(db, g).0);
    RoutesOfExport(g, e);
    forall r | r in seen.routes ensures Row(r, seen.routes[r]) in e.routes {
      var row :| row in e.routes && row.id == r;
    }
  }

  lemma RoutesOfExport(g: Id, e: Export)
    requires OneVersionEach(e)
    ensures MemberRoutes(MembersFrom(g, e.versions)) == IdSet(e.routes)
  {
    forall r | r in IdSet(e.routes) ensures r in MemberRoutes(MembersFrom(g, e.versions)) {
      var row :| row in e.versions && row.cols.routeId == r;
      assert Member(g, row.cols.routeId, row.id) in MembersFrom(g, e.versions);
    }
    forall r | r in MemberRoutes(MembersFrom(g, e.versions)) ensures r in IdSet(e.routes) {
      var m :| m in MembersFrom(g, e.versions) && m.route == r;
    }
  }

  lemma StagedHasMembers(p: Platform, db: Db, g: Id, e: Export)
    requires MembersAttached(db) && Accepts(p, db, g, e) && e.versions != []
    ensures var staged := Staged(p, db, g, e);
      g in staged.generations && staged.generations[g] == Status.Staging && MembersOf(staged, g) != {}
  {
    StagedExtends(p, db, g, e);
    NewMembers(p, db, g, e, Staged(p, db, g, e));
    assert Member(g, e.versions[0].cols.routeId, e.versions[0].id) in MembersFrom(g, e.versions);
  }

  lemma StagedValidates(p: Platform, db: Db, g: Id, e: Export)
    requires Inv(p, db) && WellFormed(p, e) && Accepts(p, db, g, e) && e.versions != []
    ensures var staged := Staged(p, db, g, e);
      g in staged.generations && staged.generations[g] == Status.Staging
      && ValidatedDb(staged, g) == (staged.(generations := staged.generations[g := Validated]), Done)
  {
    StagingKeepsInv(p, db, g, e);
    StagedHasMembers(p, db, g, e);
    StagingValidates(p, Staged(p, db, g, e), g);
  }

  lemma StagingValidates(p: Platform, db: Db, g: Id)
    requires Inv(p, db) && g in db.generations && db.generations[g] == Status.Staging && MembersOf(db, g) != {}
    ensures ValidatedDb(db, g) == (db.(generations := db.generations[g := Validated]), Done)
  {
    ValidatesIff(p, db, g);
  }

  lemma StampKeepsReached(db: Db, g: Id)
    requires g in db.generations
    ensures Reached(db.(generations := db.generations[g := Validated]), g) == Reached(db, g)
  {
  }

  lemma StagedReaches(p: Platform, db: Db, g: Id, e: Export)
    requires Inv(p, db) && WellFormed(p, e) && Accepts(p, db, g, e)
    ensures ShowsRows(p, Reached(Staged(p, db, g, e), g), g, e)
  {
    var staged := Staged(p, db, g, e);
    StagedExtends(p, db, g, e);
    NewMembers(p, db, g, e, staged);
    NewDirections(p, db, g, e, staged);
    NewServices(p, db, g, e, staged);
    NewSegments(p, db, g, e, staged);
    DirectionRowIds(p, e);
    ExtendsHolds(p, db, g, e, staged);
  }

  lemma DirectionRowIds(p: Platform, e: Export)
    ensures IdSet(e.directions) == (set row | row in DirectionRows(p, e) :: row.id)
  {
    var rows := DirectionRows(p, e);
    forall d ensures d in IdSet(e.directions) <==> d in (set row | row in rows :: row.id) {
      if d in IdSet(e.directions) {
        var i :| 0 <= i < |e.directions| && e.directions[i].id == d;
        assert rows[i] in rows;
      }
      if d in (set row | row in rows :: row.id) {
        var i :| 0 <= i < |rows| && rows[i].id == d;
        assert e.directions[i] in e.directions;
      }
    }
  }

  lemma ExtendsHolds(p: Platform, db: Db, g: Id, e: Export, staged: Db)
    requires Extends(p, db, g, e, staged) && IdSet(e.directions) == (set row | row in DirectionRows(p, e) :: row.id)
    ensures Holds(Only(staged.versions, IdSet(e.versions)), e.versions)
    ensures Holds(Only(staged.directions, IdSet(e.directions)), DirectionRows(p, e))
    ensures Holds(Only(staged.services, IdSet(e.services)), e.services)
    ensures Holds(Only(staged.segments, IdSet(e.segments)), e.segments)
  {
  }

  /** The snapshot of the staged generation is the exported route rows. */
  lemma StagedSnapshots(p: Platform, db: Db, g: Id, e: Export)
    requires WellFormed(p, e) && Accepts(p, db, g, e)
    ensures var snapshots := Staged(p, db, g, e).snapshots;
      forall row | row in e.routes :: SnapshotKey(g, row.id) in snapshots
        && snapshots[SnapshotKey(g, row.id)] == row.cols
  {
    StagedExtends(p, db, g, e);
    var rows := SnapshotRows(g, e.routes);
    forall row | row in e.routes ensures Row(SnapshotKey(g, row.id), row.cols) in rows {
      var i :| 0 <= i < |e.routes| && e.routes[i] == row;
      assert rows[i] in rows;
    }
  }
}
