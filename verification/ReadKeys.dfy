/** The keys that passenger reads rest on hold after every run. */
module ReadKeys {
  import opened Common
  import opened Schema
  import opened Invariant
  import opened Collector
  import opened Staging
  import opened StagingProofs
  import opened Lifecycle
  import opened Joins

  /** Services along one direction are numbered apart. */
  ghost predicate ServicesApart(services: map<Id, Service>) {
    forall s, t | s in services && t in services && SameNumber(services[s], services[t]) :: s == t
  }

  predicate SameNumber(s: Service, t: Service) {
    s.directionId.Some? && s.directionId == t.directionId && s.sequence == t.sequence
  }

  ghost predicate NumberedApart(rows: seq<Row<Service>>) {
    forall i, j | 0 <= i < j < |rows| :: !SameNumber(rows[i].cols, rows[j].cols)
  }

  ghost predicate Fewer<T(!new)>(before: map<Id, T>, after: map<Id, T>) {
    forall s | s in after :: s in before && after[s] == before[s]
  }

  /** No new services and no new segments. */
  ghost predicate AddsNone(db: Db, after: Db) {
    Fewer(db.services, after.services) && Fewer(db.segments, after.segments)
  }

  lemma FewerStayApart(before: map<Id, Service>, after: map<Id, Service>)
    requires ServicesApart(before) && Fewer(before, after)
    ensures ServicesApart(after)
  {
  }

  lemma WithoutAddsNone(db: Db, gone: set<Id>)
    ensures AddsNone(db, Without(db, gone))
  {
  }

  lemma DiscardAddsNone(db: Db, g: Id)
    ensures AddsNone(db, Discarded(db, g).0)
  {
    WithoutAddsNone(db, {g});
  }

  lemma PublishAddsNone(db: Db, g: Id)
    ensures AddsNone(db, PublishedDb(db, g).0)
  {
    var dropped := Without(db, Superseded(db));
    WithoutAddsNone(db, Superseded(db));
    WithoutAddsNone(dropped, Orphans(dropped, Some(g)));
  }

  lemma ValidateAddsNone(db: Db, g: Id)
    ensures AddsNone(db, ValidatedDb(db, g).0)
  {
    DiscardAddsNone(db, g);
  }

  lemma ClaimAddsNone(db: Db, holder: Id, now: Instant, ttl: int, force: bool)
    ensures AddsNone(db, Claimed(db, holder, now, ttl, force).0)
  {
    var after, recovered := Claimed(db, holder, now, ttl, force).0, Without(db, Orphans(db, None));
    assert || (after.services == db.services && after.segments == db.segments)
      || (after.services == recovered.services && after.segments == recovered.segments);
    WithoutAddsNone(db, Orphans(db, None));
  }

  lemma ReleaseAddsNone(db: Db, holder: Id)
    ensures AddsNone(db, Released(db, holder))
  {
  }

  /** No step but a stage adds or changes a service or a segment. */
  lemma OthersAddNone(p: Platform, db: Db, step: Step)
    requires !step.Stage?
    ensures AddsNone(db, Apply(p, db, step).0)
  {
    match step
    case Validate(g) => ValidateAddsNone(db, g);
    case Publish(g) => PublishAddsNone(db, g);
    case Discard(g) => DiscardAddsNone(db, g);
    case Claim(holder, now, ttl, force) => ClaimAddsNone(db, holder, now, ttl, force);
    case Release(holder) => ReleaseAddsNone(db, holder);
  }

  /** Services along older directions, and services along new ones. */
  lemma NewOnesStayApart(older: set<Id>, before: map<Id, Service>, rows: seq<Row<Service>>, after: map<Id, Service>)
    requires Grown(before, rows, after) && ServicesApart(before) && NumberedApart(rows)
    requires forall s | s in before && before[s].directionId.Some? :: before[s].directionId.value in older
    requires forall row | row in rows && row.cols.directionId.Some? :: row.cols.directionId.value !in older
    ensures ServicesApart(after)
  {
    forall s, t | s in after && t in after && SameNumber(after[s], after[t]) ensures s == t {
      assert s !in before ==> Row(s, after[s]) in rows;
      assert t !in before ==> Row(t, after[t]) in rows;
      if s !in before && t !in before {
        var i :| 0 <= i < |rows| && rows[i] == Row(s, after[s]);
        var j :| 0 <= j < |rows| && rows[j] == Row(t, after[t]);
        assert i != j ==> SameNumber(rows[i].cols, rows[j].cols) && SameNumber(rows[j].cols, rows[i].cols);
      }
    }
  }

  /** A direction of the export is none of the older ones. */
  lemma StagedIsNew(p: Platform, older: map<Id, Direction>, e: Export, after: map<Id, Direction>, d: Id, v: Id)
    requires Grown(older, DirectionRows(p, e), after) && HasDirection(e.directions, d, v)
    ensures d !in older
  {
    var row :| row in e.directions && row.id == d && row.cols.versionId == v;
    var i :| 0 <= i < |e.directions| && e.directions[i] == row;
    assert DirectionRows(p, e)[i] in DirectionRows(p, e);
  }

  lemma StagedStayApart(p: Platform, db: Db, g: Id, e: Export, after: Db)
    requires Extends(p, db, g, e, after) && LinksInside(db) && WellFormed(p, e)
    requires ServicesApart(db.services) && NumberedApart(e.services)
    ensures ServicesApart(after.services)
  {
    forall row | row in e.services
      && row.cols.directionId.Some? ensures row.cols.directionId.value !in db.directions.Keys {
      StagedIsNew(p, db.directions, e, after.directions, row.cols.directionId.value, row.cols.versionId);
    }
    NewOnesStayApart(db.directions.Keys, db.services, e.services, after.services);
  }

  lemma StepStaysApart(p: Platform, db: Db, step: Step)
    requires Inv(p, db) && ServicesApart(db.services)
    requires step.Stage? ==> WellFormed(p, step.rows) && NumberedApart(step.rows.services)
    ensures ServicesApart(Apply(p, db, step).0.services)
  {
    if step.Stage? {
      if Accepts(p, db, step.g, step.rows) {
        StagedExtends(p, db, step.g, step.rows);
        StagedStayApart(p, db, step.g, step.rows, Staged(p, db, step.g, step.rows));
      }
    } else {
      OthersAddNone(p, db, step);
      FewerStayApart(db.services, Apply(p, db, step).0.services);
    }
  }

  lemma {:induction false} RunStaysApart(p: Platform, steps: seq<Step>)
    requires WellFormedSteps(p, steps) && forall step | step in steps && step.Stage? ::
      NumberedApart(step.rows.services)
    ensures ServicesApart(Run(p, EMPTY, steps).services)
  {
    if steps != [] {
      var init, last := steps[..|steps| - 1], steps[|steps| - 1];
      assert last in steps;
      RunStaysApart(p, init);
      ReachableStoreInv(p, init);
      StepStaysApart(p, Run(p, EMPTY, init), last);
    }
  }

  lemma CodesAreUnique(p: Platform, db: Db)
    requires CodesSound(p, db)
    ensures forall r, q | r in db.routes && q in db.routes && db.routes[r].code == db.routes[q].code :: r == q
  {
    assert forall r | r in db.routes :: p.uuid5(db.routes[r].code) == r;
  }

  /** After every run over well-formed exports whose services are numbered apart, the keys hold. */
  lemma {:induction false} ReachableKeysHold(p: Platform, steps: seq<Step>)
    requires WellFormedSteps(p, steps) && forall step | step in steps && step.Stage? ::
      NumberedApart(step.rows.services)
    ensures KeysHold(Run(p, EMPTY, steps))
  {
    RunStaysApart(p, steps);
    ReachableStoreInv(p, steps);
    CodesAreUnique(p, Run(p, EMPTY, steps));
  }
}
