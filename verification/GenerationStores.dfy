/** The lifecycle operations: each one transaction, rolled back when it raises. */
module GenerationStores {
  import opened Common
  import opened Schema
  import opened Invariant
  import opened Collector
  import opened Staging
  import opened StagingProofs
  import opened Lifecycle
  import opened AdviceColumn
  import opened Tables

  /** No deletion goes for the generation that is current. */
  ghost predicate Spares(db: Db, ids: set<Id>) {
    Current in db.pointers ==> db.pointers[Current] !in ids
  }

  /** How a discard ends in any store: as specified if the deletion meets no foreign key, and as it began
      if it does. */
  ghost predicate Discards(db: Db, g: Id, after: Db, outcome: Outcome) {
    if g in db.generations && Discarded(db, g).1 == Done then
      exists order | IsOrder(order, Doomed(db, {g})) ::
        (after, outcome) == if Deletable(db, {g}, order) then Discarded(db, g) else (db, Failed(Rejected))
    else (after, outcome) == Discarded(db, g)
  }

  /** The generation that a publish drops as previous, if there is one, can be deleted. */
  ghost predicate DropsPrevious(db: Db) {
    Superseded(db) != {} ==> exists order ::
      IsOrder(order, Doomed(db, Superseded(db))) && Deletable(db, Superseded(db), order)
  }

  /** The former previous generation is gone, and there was none without a current one. */
  ghost predicate Shiftable(db: Db, g: Id, current: Option<Id>, previous: Option<Id>) {
    && g in db.generations && (previous.Some? ==> current.Some?) && Previous !in db.pointers
    && current == Pointer(db, Current) && (current.Some? ==> current.value in db.generations)
  }

  class GenerationStore {
    const p: Platform
    const db: Database

    constructor (p: Platform, db: Database)
      ensures this.p == p && this.db == db
    {
      this.p, this.db := p, db;
    }

    ghost predicate Valid()
      reads db
    {
      Inv(p, db.Rows())
    }

    // ---- the collector's callers ---------------------------------------------------------------------

    /** Generation by generation, and together exactly all of them; in a sound store no deletion is
        stopped by a constraint. */
    method DeleteEach(ids: set<Id>) returns (ok: bool)
      modifies db
      ensures old(Valid()) && Spares(old(db.Rows()), ids) ==> ok && db.Rows() == Without(old(db.Rows()), ids)
    {
      ghost var rows := db.Rows();
      ghost var gone: set<Id> := {};
      ghost var sound := Valid() && Spares(rows, ids);
      var todo := ids;
      ok := true;
      WithoutNone(rows);
      while todo != {} && ok
        invariant gone + todo == ids
        invariant sound ==> ok && db.Rows() == Without(rows, gone)
      {
        assert (forall id :: id !in todo) ==> todo == {};
        var id :| id in todo;
        if sound {
          DeleteOneMore(p, rows, gone, id);
        }
        ghost var order;
        ok, order := db.DeleteGeneration(id);
        gone, todo := gone + {id}, todo - {id};
      }
    }

    /** `delete_orphan_staging`. */
    method DeleteOrphanStaging(keep: Option<Id>) returns (ok: bool)
      modifies db
      ensures old(Valid()) ==> ok && Valid() && db.Rows() == Without(old(db.Rows()), Orphans(old(db.Rows()), keep))
    {
      if Valid() {
        OrphansSpareCurrent(db.Rows(), keep);
        CollectingKeepsInv(p, db.Rows(), Orphans(db.Rows(), keep));
      }
      ok := DeleteEach(Orphans(db.Rows(), keep));
    }

    /** `discard_staging`. In a sound store it ends as specified. In any other it may also meet a
        foreign key, and then nothing is changed. */
    method DiscardStaging(g: Id) returns (outcome: Outcome)
      modifies db
      ensures old(Valid()) ==> Valid() && (db.Rows(), outcome) == Discarded(old(db.Rows()), g)
      ensures Discards(old(db.Rows()), g, db.Rows(), outcome)
    {
      if Valid() {
        DiscardKeepsInv(p, db.Rows(), g);
        AlwaysDeletable(db.Rows(), {g});
      }
      if g !in db.generations {
        outcome := Done;
      } else if db.generations[g] != Status.Staging && db.generations[g] != Validated {
        outcome := Failed(NotDiscardable);
      } else if exists role | role in db.pointers :: db.pointers[role] == g {
        outcome := Failed(PassengerVisible);
      } else {
        var saved := db.Rows();
        var ok, order := db.DeleteGeneration(g);
        if !ok {
          db.Restore(saved);
        }
        outcome := if ok then Done else Failed(Rejected);
      }
    }

    // ---- the lease -----------------------------------------------------------------------------------

    method TakeLease(row: Lease)
      requires Valid()
      modifies db
      ensures Valid()
      ensures db.Rows() == old(db.Rows()).(lease := Some(row))
    {
      LeaseKeepsInv(p, db.Rows(), Some(row));
      db.UpsertLease(row);
    }

    method ClaimScrapeLease(holder: Id, now: Instant, ttl: int, force: bool) returns (outcome: Outcome)
      requires Valid()
      modifies db
      ensures Valid()
      ensures (db.Rows(), outcome) == Claimed(old(db.Rows()), holder, now, ttl, force)
    {
      if db.lease.Some? {
        var row := db.lease.value;
        var expired := row.expiresAt <= now;
        if row.holder != holder && !expired && !force {
          return Failed(LeaseHeld);
        }
        if expired || force {
          var ok := DeleteOrphanStaging(None);
        }
      }
      TakeLease(Lease(holder, now, now + ttl));
      outcome := Done;
    }

    method ReleaseScrapeLease(holder: Id)
      requires Valid()
      modifies db
      ensures Valid()
      ensures db.Rows() == Released(old(db.Rows()), holder)
    {
      LeaseKeepsInv(p, db.Rows(), None);
      db.DeleteLease(holder);
    }

    // ---- validate ------------------------------------------------------------------------------------

    method CountOver(rows: Db, members: set<Member>, g: Id) returns (counts: Counts)
      requires VersionsOnce(members) && forall m | m in members :: m.generation == g
      ensures counts == CountedOver(rows, members)
    {
      var todo := members;
      ghost var done: set<Member> := {};
      counts := Counts(0, 0, 0, 0);
      CountedNone(rows);
      while todo != {}
        invariant done + todo == members && done !! todo && counts == CountedOver(rows, done)
      {
        assert (forall m :: m !in todo) ==> todo == {};
        var m :| m in todo;
        CountedOneMore(rows, members, done, m);
        counts, todo := Plus(counts, Joined(rows, m.version)), todo - {m};
        done := done + {m};
      }
      assert done == members;
    }

    /** The counting joins, from the membership rows of `g` to each table of details. */
    method CountJoined(g: Id) returns (counts: Counts)
      requires VersionsOnce(db.members)
      ensures counts == ActualCounts(db.Rows(), g)
    {
      counts := CountOver(db.Rows(), MembersOf(db.Rows(), g), g);
    }

    /** `validate_generation`: the queries in order, and the first complaint. */
    method ValidateGeneration(g: Id) returns (complaint: Option<Failure>)
      requires VersionsOnce(db.members)
      ensures complaint == Complaint(db.Rows(), g)
    {
      if g !in db.generations {
        return Some(NotFound);
      }
      if db.generations[g] != Status.Staging {
        return Some(NotStaging);
      }
      if g !in db.counts {
        return Some(CountsMissing);
      }
      var expected := db.counts[g];
      var members := MembersOf(db.Rows(), g);
      var counts := CountJoined(g);
      if counts.versions == 0 {
        return Some(NoMembership);
      }
      if counts != expected {
        return Some(CountMismatch);
      }
      if exists m | m in members :: m.version in db.versions && db.versions[m.version].routeId != m.route {
        return Some(MembershipInvalid);
      }
      if exists d | d in DirectionsOn(db.Rows(), MemberVersions(members)) ::
        |db.directions[d].advice| != |SegmentsAlong(db.Rows(), d)| {
        return Some(DenormMismatch);
      }
      complaint := None;
    }

    /** The transaction of validation: queries and status update. */
    method Examine(g: Id) returns (complaint: Option<Failure>)
      requires VersionsOnce(db.members)
      modifies db`generations
      ensures complaint == Complaint(old(db.Rows()), g)
      ensures complaint.None? ==> g in old(db.generations) && old(db.generations)[g] == Status.Staging
      ensures db.Rows() == if complaint.None? then old(db.Rows()).(generations := old(db.generations)[g := Validated])
        else old(db.Rows())
    {
      complaint := ValidateGeneration(g);
      if complaint.None? {
        var updated := db.MarkValidated(g);
        if updated != 1 {
          complaint := Some(NotStaging);
        }
      }
    }

    method Validate(g: Id) returns (outcome: Outcome)
      requires Valid()
      modifies db
      ensures Valid()
      ensures (db.Rows(), outcome) == ValidatedDb(old(db.Rows()), g)
    {
      ghost var rows := db.Rows();
      var complaint := Examine(g);
      match complaint
      case None =>
        StatusKeepsInv(p, rows, g);
        outcome := Done;
      case Some(why) =>
        var discarding := DiscardStaging(g);
        outcome := if discarding.Done? then Failed(why) else discarding;
    }

    // ---- publish -------------------------------------------------------------------------------------

    /** Drop the former previous generation, then every orphan but `g`. */
    method Prune(g: Id, current: Option<Id>, previous: Option<Id>) returns (ok: bool)
      requires current == Pointer(db.Rows(), Current) && previous == Pointer(db.Rows(), Previous)
      modifies db
      ensures old(Valid()) ==> ok && Valid() && db.Rows() == Pruned(old(db.Rows()), g)
      ensures ok ==> DropsPrevious(old(db.Rows()))
    {
      ghost var sound := Valid();
      WithoutNone(db.Rows());
      if previous.Some? && previous != current {
        if sound {
          AlwaysDeletable(db.Rows(), {previous.value});
          CollectingKeepsInv(p, db.Rows(), {previous.value});
        }
        ghost var order;
        ok, order := db.DeleteGeneration(previous.value);
        if !ok {
          return;
        }
      }
      ok := DeleteOrphanStaging(Some(g));
    }

    /** Move the pointers and stamp the statuses. */
    method Shift(g: Id, current: Option<Id>, previous: Option<Id>) returns (ok: bool)
      modifies db`pointers, db`generations
      ensures Shiftable(old(db.Rows()), g, current, previous) ==>
        ok && db.pointers == Shifted(old(db.pointers), g) && db.generations == Restamped(old(db.Rows()), g)
    {
      ok := true;
      if current.Some? && current.value != g {
        ok := db.UpsertPointer(Previous, current.value);
        db.UpdateStatus(current.value, Published);
      } else if previous.Some? && current.None? {
        db.DeletePointer(Previous);
      }
      if ok {
        ok := db.UpsertPointer(Current, g);
        db.UpdateStatus(g, Published);
      }
    }

    /** Shared route attributes flip together with pointers and statuses. */
    method Flip(g: Id, current: Option<Id>, previous: Option<Id>) returns (ok: bool)
      modifies db`routes, db`pointers, db`generations
      ensures old(CodesApart(db.routes, Applied(db.Rows(), g))) && Shiftable(old(db.Rows()), g, current, previous) ==>
        ok && db.Rows() == Flipped(old(db.Rows()), g)
    {
      ghost var before := db.Rows();
      ok := db.ApplyGenerationRoutes(g);
      if ok {
        assert db.Rows() == before.(routes := Applied(before, g));
        ok := Shift(g, current, previous);
      }
    }

    /** The statements of a publish, after its two checks. */
    method Replace(g: Id) returns (ok: bool)
      requires g in db.generations && db.generations[g] == Validated
      modifies db
      ensures old(Valid()) ==> ok && Valid() && db.Rows() == PublishedDb(old(db.Rows()), g).0
      ensures ok ==> DropsPrevious(old(db.Rows()))
    {
      ghost var rows, sound := db.Rows(), Valid();
      var current, previous := Pointer(db.Rows(), Current), Pointer(db.Rows(), Previous);
      if sound {
        PruningKeepsInv(p, rows, g);
        PrunedHasNoPrevious(rows, g, Pruned(rows, g));
      }
      ok := Prune(g, current, previous);
      if !ok {
        return;
      }
      if sound {
        FlipKeepsInv(p, db.Rows(), g);
        CodesStayApart(p, db.Rows(), g);
      }
      ok := Flip(g, current, previous);
    }

    /** `publish`. In a sound store no statement is stopped by a constraint. In any other one may be, and
        then nothing is changed; that is so whenever the former previous generation cannot be deleted. */
    method Publish(g: Id) returns (outcome: Outcome)
      modifies db
      ensures old(Valid()) ==> Valid() && (db.Rows(), outcome) == PublishedDb(old(db.Rows()), g)
      ensures outcome.Failed? ==> db.Rows() == old(db.Rows())
      ensures outcome.Done? ==> DropsPrevious(old(db.Rows()))
    {
      if g !in db.generations {
        return Failed(NotFound);
      }
      if db.generations[g] != Validated {
        return Failed(NotValidated);
      }
      var saved := db.Rows();
      var ok := Replace(g);
      if !ok {
        db.Restore(saved);
      }
      outcome := if ok then Done else Failed(Rejected);
    }

    // ---- stage ---------------------------------------------------------------------------------------

    /** The generation row, shared routes, attribute snapshots and versions. */
    method InsertBase(g: Id, rows: Export) returns (ok: bool)
      modifies db
      ensures ok <==> AcceptsBase(old(db.Rows()), g, rows)
      ensures ok ==> db.Rows() == AfterVersions(old(db.Rows()), g, rows)
    {
      ghost var base := AfterRoutes(db.Rows(), g, rows);
      ok := db.InsertGeneration(g);
      if ok {
        ok := db.InsertRoutes(rows.routes);
      }
      if ok {
        assert db.Rows() == base;
        ok := db.InsertGenerationRoutes(g, rows.routes);
      }
      if ok {
        VersionsFitAlike(db.Rows(), base, db.versions, rows.versions);
        ok := db.InsertVersions(rows.versions);
      }
    }

    /** The directions, with the column derived from the exported segments. */
    method InsertDerived(rows: Export) returns (problem: Option<Failure>)
      modifies db`directions
      ensures problem.None? <==> AcceptsDirections(p, old(db.Rows()), rows)
      ensures problem.None? ==> db.directions == Loaded(old(db.directions), DirectionRows(p, rows), Put)
      ensures problem == match ColumnFault(StoredReader(p), rows.segments)
        case Some(fault) => Some(Malformed(fault))
        case None => if problem.None? then None else Some(Rejected)
    {
      var columns := AdviceSegmentsByDirection(p, rows.segments);
      if columns.Err? {
        return Some(Malformed(columns.error));
      }
      var directions := WithColumns(rows.directions, columns.value);
      ColumnsAreDerived(p, rows, columns.value, directions);
      var ok := db.InsertDirections(directions);
      problem := if ok then None else Some(Rejected);
    }

    method InsertDetails(rows: Export) returns (ok: bool)
      modifies db`services, db`segments
      ensures ok <==> AcceptsDetails(p, old(db.Rows()), rows)
      ensures ok ==> db.services == Loaded(old(db.services), rows.services, Put)
      ensures ok ==> db.segments == Loaded(old(db.segments), rows.segments, Put)
    {
      ghost var base := db.Rows();
      ok := db.InsertServices(rows.services);
      if ok {
        SegmentsFitAlike(p, db.Rows(), base, db.segments, rows.segments);
        ok := db.InsertSegments(p, rows.segments);
      }
    }

    /** Services, segments, membership and the counts row. */
    method InsertRest(g: Id, rows: Export) returns (ok: bool)
      requires g in db.generations
      modifies db`services, db`segments, db`members, db`counts
      ensures ok <==> AcceptsRest(p, old(db.Rows()), g, rows)
      ensures ok ==> db.services == Loaded(old(db.services), rows.services, Put)
      ensures ok ==> db.segments == Loaded(old(db.segments), rows.segments, Put)
      ensures ok ==> db.members == old(db.members) + MembersFrom(g, rows.versions)
      ensures ok ==> db.counts == old(db.counts)[g := Expected(rows)]
    {
      ghost var base := db.Rows();
      ok := InsertDetails(rows);
      if ok {
        MembersFitAlike(db.Rows(), base, g, rows.versions);
        ok := db.InsertMembership(g, rows.versions);
      }
      if ok {
        ok := db.InsertExpectedCounts(g, Expected(rows));
      }
    }

    /** Everything after the versions. */
    method InsertTracks(g: Id, rows: Export) returns (problem: Option<Failure>)
      requires g in db.generations
      modifies db`directions, db`services, db`segments, db`members, db`counts
      ensures problem.None? <==> AcceptsTracks(p, old(db.Rows()), g, rows)
      ensures problem.None? ==> db.Rows() == WithTracks(p, old(db.Rows()), g, rows)
      ensures problem == TracksFault(p, old(db.Rows()), g, rows)
    {
      ghost var base := db.Rows();
      problem := InsertDerived(rows);
      if problem.None? {
        assert db.Rows() == WithDirections(p, base, rows);
        var ok := InsertRest(g, rows);
        problem := if ok then None else Some(Rejected);
      }
    }

    /** The inserts in order; what was inserted before a failure is left for the rollback. */
    method InsertStaged(g: Id, rows: Export) returns (problem: Option<Failure>)
      modifies db
      ensures problem.None? <==> Accepts(p, old(db.Rows()), g, rows)
      ensures problem.None? ==> db.Rows() == Staged(p, old(db.Rows()), g, rows)
      ensures problem == StageFault(p, old(db.Rows()), g, rows)
    {
      var ok := InsertBase(g, rows);
      if !ok {
        return Some(Rejected);
      }
      problem := InsertTracks(g, rows);
    }

    /** A stage inserts everything or nothing, whatever rows it is given. */
    method Stage(g: Id, rows: Export) returns (outcome: Outcome)
      modifies db
      ensures outcome.Done? <==> Accepts(p, old(db.Rows()), g, rows)
      ensures db.Rows() == Apply(p, old(db.Rows()), Step.Stage(g, rows)).0
      ensures outcome.Failed? ==> StageFault(p, old(db.Rows()), g, rows) == Some(outcome.why)
      ensures old(Valid()) && WellFormed(p, rows) ==> Valid()
    {
      var saved := db.Rows();
      var problem := InsertStaged(g, rows);
      match problem
      case None =>
        if Inv(p, saved) && WellFormed(p, rows) {
          StagingKeepsInv(p, saved, g, rows);
        }
        outcome := Done;
      case Some(why) =>
        db.Restore(saved);
        outcome := Failed(why);
    }
  }
}
