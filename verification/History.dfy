/** What each operation is allowed to do, and what must have happened before a generation is seen. */
module History {
  import opened Common
  import opened Schema
  import opened Invariant
  import opened Collector
  import opened Staging
  import opened Lifecycle
  import opened Fencing

  // ---- one operation -----------------------------------------------------------------------------------------

  /** A publish succeeds exactly on a validated generation, and else says why and changes nothing. */
  lemma PublishExactly(p: Platform, db: Db, g: Id)
    ensures var (after, outcome) := Apply(p, db, Publish(g));
      && (outcome == Done <==> g in db.generations && db.generations[g] == Validated)
      && (outcome == Failed(NotFound) <==> g !in db.generations)
      && (outcome == Failed(NotValidated) <==> g in db.generations && db.generations[g] != Validated)
      && (outcome != Done ==> after == db)
  {
  }

  /** A discard takes only what is neither published nor pointed at, and else says why and changes
      nothing. */
  lemma DiscardExactly(p: Platform, db: Db, g: Id)
    ensures var (after, outcome) := Apply(p, db, Discard(g));
      && (outcome == Failed(NotDiscardable) <==> g in db.generations && db.generations[g] == Published)
      && (outcome == Failed(PassengerVisible) <==>
        g in db.generations && db.generations[g] != Published && exists role ::
          role in db.pointers
          && db.pointers[role] == g)
      && (outcome == Done || outcome == Failed(NotDiscardable) || outcome == Failed(PassengerVisible))
      && (outcome != Done || g !in db.generations ==> after == db)
      && (outcome == Done ==> after.generations == db.generations - {g})
  {
    if Apply(p, db, Discard(g)).1 == Done && g in db.generations {
      assert Without(db, {g}).generations == db.generations - {g};
    }
  }

  /** Version `v` is listed by generation `g`. */
  ghost predicate HasVersion(db: Db, g: Id, v: Id) {
    exists m :: m in db.members && m.generation == g && m.version == v
  }

  /** Generation `g` lists a route, has the counts it was staged with, lists every version under its own route,
      and has in every direction's column as many elements as the direction has segments. */
  ghost predicate IsWhole(db: Db, g: Id) {
    && (exists m :: m in db.members && m.generation == g)
    && g in db.counts
    && db.counts[g].versions == |set m | m in db.members && m.generation == g|
    && db.counts[g].directions == |set d | d in db.directions && HasVersion(db, g, db.directions[d].info.versionId)|
    && db.counts[g].services == |set s | s in db.services && HasVersion(db, g, db.services[s].versionId)|
    && db.counts[g].segments == |set s | s in db.segments && HasVersion(db, g, db.segments[s].versionId)|
    && (forall m | m in db.members && m.generation == g && m.version in db.versions ::
          db.versions[m.version].routeId == m.route)
    && (forall d | d in db.directions && HasVersion(db, g, db.directions[d].info.versionId) ::
          |db.directions[d].advice| == |set s | s in db.segments && db.segments[s].directionId == d|)
  }

  lemma CountsAre(db: Db, g: Id)
    ensures ActualCounts(db, g) == Counts(
      |set m | m in db.members && m.generation == g|,
      |set d | d in db.directions && HasVersion(db, g, db.directions[d].info.versionId)|,
      |set s | s in db.services && HasVersion(db, g, db.services[s].versionId)|,
      |set s | s in db.segments && HasVersion(db, g, db.segments[s].versionId)|)
  {
    var versions := MemberVersions(MembersOf(db, g));
    VersionsAre(db, g);
    assert DirectionsOn(db, versions)
      == set d | d in db.directions && HasVersion(db, g, db.directions[d].info.versionId);
    assert ServicesOn(db, versions) == set s | s in db.services && HasVersion(db, g, db.services[s].versionId);
    assert SegmentsOn(db, versions) == set s | s in db.segments && HasVersion(db, g, db.segments[s].versionId);
  }

  lemma VersionsAre(db: Db, g: Id)
    ensures forall v :: v in MemberVersions(MembersOf(db, g)) <==> HasVersion(db, g, v)
  {
    forall v ensures v in MemberVersions(MembersOf(db, g)) <==> HasVersion(db, g, v) {
      if m :| m in db.members && m.generation == g && m.version == v {
        assert m in MembersOf(db, g);
      }
    }
  }

  /** On any tables, validation accepts exactly the staging generations that are whole. */
  lemma ValidateExactly(p: Platform, db: Db, g: Id)
    ensures Apply(p, db, Validate(g)).1 == Done <==>
      g in db.generations && db.generations[g] == Status.Staging && IsWhole(db, g)
  {
    CountsAre(db, g);
    VersionsAre(db, g);
    if m :| m in db.members && m.generation == g {
      assert m in MembersOf(db, g);
    }
    if MembersOf(db, g) != {} {
      var m :| m in MembersOf(db, g);
    }
    forall d | d in db.directions
      ensures d in DirectionsOn(db, MemberVersions(MembersOf(db, g))) <==>
        HasVersion(db, g, db.directions[d].info.versionId)
    {
    }
    assert forall d :: SegmentsAlong(db, d) == set s | s in db.segments && db.segments[s].directionId == d;
  }

  // ---- whole runs ----------------------------------------------------------------------------------------------

  /** Step `i` of the run from the empty store was this one, and succeeded. */
  ghost predicate Did(p: Platform, steps: seq<Step>, i: nat, step: Step) {
    i < |steps| && steps[i] == step && Apply(p, Run(p, EMPTY, steps[..i]), step).1 == Done
  }

  ghost predicate DidStage(p: Platform, steps: seq<Step>, i: nat, g: Id) {
    i < |steps| && steps[i].Stage? && Did(p, steps, i, Stage(g, steps[i].rows))
  }

  lemma DidStays(p: Platform, steps: seq<Step>, i: nat, step: Step, last: Step)
    requires Did(p, steps, i, step)
    ensures Did(p, steps + [last], i, step)
  {
    assert (steps + [last])[..i] == steps[..i];
  }

  /** Generation `g` has got beyond staging. */
  ghost predicate IsBeyondStaging(db: Db, g: Id) {
    g in db.generations && db.generations[g] != Status.Staging
  }

  ghost predicate IsPublished(db: Db, g: Id) {
    g in db.generations && db.generations[g] == Published
  }

  /** From `db` to `after`, generation `g` gets beyond staging only by a successful validation, and from there
      published only by a successful publish. */
  ghost predicate Moves(db: Db, after: Db, g: Id, validated: bool, published: bool) {
    && (IsBeyondStaging(after, g) && !IsBeyondStaging(db, g) ==> validated)
    && (IsPublished(after, g) && !IsPublished(db, g) ==> published && IsBeyondStaging(db, g))
  }

  lemma StageMoves(p: Platform, db: Db, x: Id, rows: Export, g: Id)
    requires x !in db.generations
    ensures Moves(db, Staged(p, db, x, rows), g, false, false)
  {
    assert Staged(p, db, x, rows).generations == db.generations[x := Status.Staging];
  }

  lemma StageStepMoves(p: Platform, db: Db, x: Id, rows: Export, g: Id)
    ensures Moves(db, Apply(p, db, Stage(x, rows)).0, g, false, false)
  {
    if Accepts(p, db, x, rows) {
      StageMoves(p, db, x, rows, g);
    }
  }

  /** Only its own successful validation takes a generation beyond staging, and only its own successful
      publish publishes it. */
  lemma StatusMoves(p: Platform, db: Db, step: Step, g: Id)
    requires PointersSound(db)
    ensures var (after, outcome) := Apply(p, db, step);
      Moves(db, after, g, step == Validate(g) && outcome == Done, step == Publish(g) && outcome == Done)
  {
    match step
    case Stage(x, rows) => StageStepMoves(p, db, x, rows, g);
    case Validate(x) => ValidateMoves(db, x, g);
    case Publish(x) => PublishMoves(db, x, g);
    case Discard(x) => DiscardMoves(db, x, g);
    case Claim(holder, now, ttl, force) => ClaimMovesNone(db, holder, now, ttl, force);
    case Release(holder) => ReleaseMovesNone(db, holder);
  }

  lemma DiscardMoves(db: Db, x: Id, g: Id)
    ensures Moves(db, Discarded(db, x).0, g, false, false)
  {
    WithoutMovesNone(db, {x});
  }

  lemma ReleaseMovesNone(db: Db, holder: Id)
    ensures MovesNone(db, Released(db, holder))
  {
  }

  /** The generations left have the statuses they had. */
  ghost predicate MovesNone(db: Db, after: Db) {
    forall g | g in after.generations :: g in db.generations && after.generations[g] == db.generations[g]
  }

  lemma WithoutMovesNone(db: Db, gone: set<Id>)
    ensures MovesNone(db, Without(db, gone))
  {
    assert Without(db, gone).generations == db.generations - gone;
  }

  lemma ClaimMovesNone(db: Db, holder: Id, now: Instant, ttl: int, force: bool)
    ensures MovesNone(db, Claimed(db, holder, now, ttl, force).0)
  {
    WithoutMovesNone(db, Orphans(db, None));
    var after := Claimed(db, holder, now, ttl, force).0;
    assert after.generations == db.generations || after.generations == Without(db, Orphans(db, None)).generations;
  }

  lemma ValidateMoves(db: Db, x: Id, g: Id)
    ensures var (after, outcome) := ValidatedDb(db, x);
      Moves(db, after, g, g == x && outcome == Done, false)
  {
    DiscardMoves(db, x, g);
  }

  lemma PublishMoves(db: Db, x: Id, g: Id)
    requires PointersSound(db)
    ensures var (after, outcome) := PublishedDb(db, x);
      Moves(db, after, g, false, g == x && outcome == Done)
  {
    if x in db.generations && db.generations[x] == Validated {
      var dropped := Without(db, Superseded(db));
      WithoutMovesNone(db, Superseded(db));
      WithoutMovesNone(dropped, Orphans(dropped, Some(x)));
      FlipMoves(db, Pruned(db, x), x, g);
    }
  }

  lemma FlipMoves(db: Db, pruned: Db, x: Id, g: Id)
    requires PointersSound(db) && MovesNone(db, pruned)
    requires forall role | role in pruned.pointers :: role in db.pointers && pruned.pointers[role] == db.pointers[role]
    ensures var after := Flipped(pruned, x).generations;
      g in after ==> g in db.generations && (after[g] == db.generations[g] || g == x)
  {
    if Current in pruned.pointers {
      assert PointedAt(db, pruned.pointers[Current]);
    }
  }

  /** Whatever is current or previous after a run was staged, then validated, then published, each by a step
      that succeeded. */
  ghost predicate CameInOrder(p: Platform, steps: seq<Step>, g: Id) {
    exists i: nat, j: nat, k: nat :: i < j < k && DidStage(p, steps, i, g) && Did(p, steps, j, Validate(g))
      && Did(p, steps, k, Publish(g))
  }

  lemma {:induction false} WasStaged(p: Platform, steps: seq<Step>, g: Id) returns (i: nat)
    requires WellFormedSteps(p, steps) && g in Run(p, EMPTY, steps).generations
    ensures DidStage(p, steps, i, g)
  {
    var init, last := steps[..|steps| - 1], steps[|steps| - 1];
    assert steps == init + [last];
    if g in Run(p, EMPTY, init).generations {
      i := WasStaged(p, init, g);
      DidStays(p, init, i, Stage(g, init[i].rows), last);
    } else {
      i := |init|;
      if !(last.Stage? && last.g == g) {
        StepCreatesOnlyStaged(p, Run(p, EMPTY, init), last, g);
      }
    }
  }

  lemma {:induction false} WasValidated(p: Platform, steps: seq<Step>, g: Id) returns (i: nat, j: nat)
    requires WellFormedSteps(p, steps) && IsBeyondStaging(Run(p, EMPTY, steps), g)
    ensures i < j && DidStage(p, steps, i, g) && Did(p, steps, j, Validate(g))
  {
    var init, last := steps[..|steps| - 1], steps[|steps| - 1];
    assert steps == init + [last] && forall step | step in init :: step in steps;
    if IsBeyondStaging(Run(p, EMPTY, init), g) {
      i, j := WasValidated(p, init, g);
      DidStays(p, init, j, Validate(g), last);
    } else {
      ReachableStoreInv(p, init);
      StatusMoves(p, Run(p, EMPTY, init), last, g);
      i := WasStaged(p, init, g);
      j := |init|;
    }
    DidStays(p, init, i, Stage(g, init[i].rows), last);
  }

  lemma {:induction false} WasPublished(p: Platform, steps: seq<Step>, g: Id) returns (i: nat, j: nat, k: nat)
    requires WellFormedSteps(p, steps) && IsPublished(Run(p, EMPTY, steps), g)
    ensures i < j < k && DidStage(p, steps, i, g) && Did(p, steps, j, Validate(g)) && Did(p, steps, k, Publish(g))
  {
    var init, last := steps[..|steps| - 1], steps[|steps| - 1];
    assert steps == init + [last] && forall step | step in init :: step in steps;
    if IsPublished(Run(p, EMPTY, init), g) {
      i, j, k := WasPublished(p, init, g);
      DidStays(p, init, k, Publish(g), last);
    } else {
      ReachableStoreInv(p, init);
      StatusMoves(p, Run(p, EMPTY, init), last, g);
      i, j := WasValidated(p, init, g);
      k := |init|;
    }
    DidStays(p, init, i, Stage(g, init[i].rows), last);
    DidStays(p, init, j, Validate(g), last);
  }

  /** No generation is ever shown that was not staged, validated and published, in that order. */
  lemma {:induction false} ShownCameInOrder(p: Platform, steps: seq<Step>, role: Role)
    requires WellFormedSteps(p, steps) && role in Run(p, EMPTY, steps).pointers
    ensures CameInOrder(p, steps, Run(p, EMPTY, steps).pointers[role])
  {
    var db := Run(p, EMPTY, steps);
    ReachableStoreInv(p, steps);
    assert PointedAt(db, db.pointers[role]);
    var i, j, k := WasPublished(p, steps, db.pointers[role]);
  }
}
