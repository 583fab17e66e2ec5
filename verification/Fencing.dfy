/** What the scrape lease guarantees over runs: reclaimed work can never become current, and a
    held lease is not taken away before it expires, is released, or is forced. */
module Fencing {
  import opened Common
  import opened Schema
  import opened Invariant
  import opened Collector
  import opened Lifecycle

  /** A claim that reclaims: it succeeds over a lease that expired, or by force. */
  ghost predicate Reclaims(db: Db, holder: Id, now: Instant, force: bool) {
    db.lease.Some? && (Expired(db.lease.value, now) || force)
  }

  /** Reclaiming deletes every generation that is not current or previous. */
  lemma ReclaimDeletesUnpublished(p: Platform, db: Db, holder: Id, now: Instant, ttl: int, force: bool, g: Id)
    requires Inv(p, db) && Reclaims(db, holder, now, force) && !PointedAt(db, g)
    ensures Claimed(db, holder, now, ttl, force).1 == Done
    ensures g !in Claimed(db, holder, now, ttl, force).0.generations
  {
  }

  ghost predicate Restages(steps: seq<Step>, g: Id) {
    exists step :: step in steps && step.Stage? && step.g == g
  }

  /** No step but its own stage creates a generation. */
  lemma StepCreatesOnlyStaged(p: Platform, db: Db, step: Step, g: Id)
    requires g !in db.generations && !(step.Stage? && step.g == g)
    ensures g !in Apply(p, db, step).0.generations
  {
    match step
    case Stage(x, rows) =>
    case Validate(x) => DiscardCreatesNothing(db, x, g);
    case Publish(x) => PublishCreatesNothing(db, x, g);
    case Discard(x) => DiscardCreatesNothing(db, x, g);
    case Claim(holder, now, ttl, force) => ClaimCreatesNothing(db, holder, now, ttl, force, g);
    case Release(holder) =>
  }

  lemma PublishCreatesNothing(db: Db, x: Id, g: Id)
    requires g !in db.generations
    ensures g !in PublishedDb(db, x).0.generations
  {
    if x in db.generations && db.generations[x] == Validated {
      assert g !in Pruned(db, x).generations;
    }
  }

  lemma ClaimCreatesNothing(db: Db, holder: Id, now: Instant, ttl: int, force: bool, g: Id)
    requires g !in db.generations
    ensures g !in Claimed(db, holder, now, ttl, force).0.generations
  {
  }

  lemma DiscardCreatesNothing(db: Db, x: Id, g: Id)
    requires g !in db.generations
    ensures g !in Discarded(db, x).0.generations && g !in ValidatedDb(db, x).0.generations
  {
  }

  lemma {:induction false} GoneStaysGone(p: Platform, db: Db, steps: seq<Step>, g: Id)
    requires g !in db.generations && !Restages(steps, g)
    ensures g !in Run(p, db, steps).generations
  {
    if steps != [] {
      var init, last := steps[..|steps| - 1], steps[|steps| - 1];
      assert last in steps && forall step | step in init :: step in steps;
      GoneStaysGone(p, db, init, g);
      StepCreatesOnlyStaged(p, Run(p, db, init), last, g);
    }
  }

  /** Fencing: whatever is unpublished when a lease is reclaimed never becomes current or previous,
      whatever anyone, including the old holder, does next, unless it is staged again. */
  lemma {:induction false} ReclaimedNeverCurrent(p: Platform, db: Db, holder: Id, now: Instant, ttl: int, force: bool,
      g: Id, steps: seq<Step>)
    requires Inv(p, db) && WellFormedSteps(p, steps)
    requires Reclaims(db, holder, now, force) && !PointedAt(db, g) && !Restages(steps, g)
    ensures var after := Run(p, Claimed(db, holder, now, ttl, force).0, steps);
      g !in after.generations && !PointedAt(after, g)
  {
    var reclaimed := Claimed(db, holder, now, ttl, force).0;
    ReclaimDeletesUnpublished(p, db, holder, now, ttl, force, g);
    ClaimKeepsInv(p, db, holder, now, ttl, force);
    GoneStaysGone(p, reclaimed, steps, g);
    RunKeepsInv(p, reclaimed, steps);
  }

  // ---- mutual exclusion -----------------------------------------------------------------------------

  ghost predicate HeldBy(db: Db, holder: Id) {
    db.lease.Some? && db.lease.value.holder == holder
  }

  /** The only steps that may take the lease from `holder`: its own release, a forced claim, and a
      claim at or after the expiry then in force. */
  ghost predicate MayTake(db: Db, holder: Id, step: Step) {
    || (step.Release? && step.holder == holder)
    || (step.Claim? && step.holder != holder && (step.force || (db.lease.Some? && Expired(db.lease.value, step.now))))
  }

  lemma StepKeepsLease(p: Platform, db: Db, holder: Id, step: Step)
    requires HeldBy(db, holder) && !MayTake(db, holder, step)
    ensures HeldBy(Apply(p, db, step).0, holder)
  {
    match step
    case Claim(other, now, ttl, force) => ClaimKeepsLease(db, holder, other, now, ttl, force);
    case Release(other) =>
    case _ => StepLeavesLease(p, db, step);
  }

  lemma ClaimKeepsLease(db: Db, holder: Id, other: Id, now: Instant, ttl: int, force: bool)
    requires HeldBy(db, holder) && (other == holder || (!force && !Expired(db.lease.value, now)))
    ensures HeldBy(Claimed(db, other, now, ttl, force).0, holder)
  {
  }

  lemma StepLeavesLease(p: Platform, db: Db, step: Step)
    requires !step.Claim? && !step.Release?
    ensures Apply(p, db, step).0.lease == db.lease
  {
  }

  /** Exclusion: if another holder has the lease at the end of a run, or nobody has, then some step
      of the run was allowed to take it. */
  lemma {:induction false} LeaseIsExclusive(p: Platform, db: Db, holder: Id, steps: seq<Step>)
    requires HeldBy(db, holder) && !HeldBy(Run(p, db, steps), holder)
    ensures exists i ::
      0 <= i < |steps| && HeldBy(Run(p, db, steps[..i]), holder)
      && MayTake(Run(p, db, steps[..i]), holder, steps[i])
  {
    var init, last := steps[..|steps| - 1], steps[|steps| - 1];
    if HeldBy(Run(p, db, init), holder) {
      if !MayTake(Run(p, db, init), holder, last) {
        StepKeepsLease(p, Run(p, db, init), holder, last);
      }
      assert steps[..|init|] == init;
    } else {
      LeaseIsExclusive(p, db, holder, init);
      var i :| 0 <= i < |init| && HeldBy(Run(p, db, init[..i]), holder)
        && MayTake(Run(p, db, init[..i]), holder, init[i]);
      assert init[..i] == steps[..i] && init[i] == steps[i];
    }
  }

  // ---- how long a claim holds -------------------------------------------------------------------------

  /** Holder `h` has the lease, and it expires at `until`. */
  ghost predicate HeldUntil(db: Db, h: Id, until: Instant) {
    HeldBy(db, h) && db.lease.value.expiresAt == until
  }

  /** A step that is no release and no claim by `h`, no forced claim, and no claim from `until` on. */
  ghost predicate Respects(h: Id, until: Instant, step: Step) {
    && !(step.Release? && step.holder == h)
    && (step.Claim? ==> step.holder != h && !step.force && step.now < until)
  }

  lemma StepKeepsHold(p: Platform, db: Db, h: Id, until: Instant, step: Step)
    requires HeldUntil(db, h, until) && Respects(h, until, step)
    ensures HeldUntil(Apply(p, db, step).0, h, until)
  {
    if !step.Claim? && !step.Release? {
      StepLeavesLease(p, db, step);
    }
  }

  lemma {:induction false} RunKeepsHold(p: Platform, db: Db, h: Id, until: Instant, steps: seq<Step>)
    requires HeldUntil(db, h, until) && forall step | step in steps :: Respects(h, until, step)
    ensures HeldUntil(Run(p, db, steps), h, until)
  {
    if steps != [] {
      var init, last := steps[..|steps| - 1], steps[|steps| - 1];
      assert last in steps && forall step | step in init :: step in steps;
      RunKeepsHold(p, db, h, until, init);
      StepKeepsHold(p, Run(p, db, init), h, until, last);
    }
  }

  /** A claim fails exactly if another holder has the lease, it has not expired, and nothing is forced;
      then it changes no table. */
  lemma ClaimFailsIff(p: Platform, db: Db, h: Id, now: Instant, ttl: int, force: bool)
    ensures var (after, outcome) := Apply(p, db, Claim(h, now, ttl, force));
      && (outcome == Done || (outcome == Failed(LeaseHeld) && after == db))
      && (outcome == Failed(LeaseHeld) <==>
        db.lease.Some? && db.lease.value.holder != h && now < db.lease.value.expiresAt && !force)
  {
  }

  /** A claim that succeeds takes the lease for `ttl` seconds from now. */
  lemma ClaimTakes(p: Platform, db: Db, h: Id, now: Instant, ttl: int, force: bool)
    requires Apply(p, db, Claim(h, now, ttl, force)).1 == Done
    ensures HeldUntil(Apply(p, db, Claim(h, now, ttl, force)).0, h, now + ttl)
    ensures Apply(p, db, Claim(h, now, ttl, force)).0.lease.value.claimedAt == now
  {
  }

  /** Of the other tables, a claim of a lease that is free, or the holder's own and not expired, changes
      none unless it is forced; any other deletes exactly the generations that are neither published nor
      pointed at. */
  lemma ClaimCollects(p: Platform, db: Db, h: Id, now: Instant, ttl: int, force: bool)
    requires Apply(p, db, Claim(h, now, ttl, force)).1 == Done
    ensures var after := Apply(p, db, Claim(h, now, ttl, force)).0;
      if db.lease.Some? && (force || db.lease.value.expiresAt <= now) then
        after.generations.Keys == set g | g in db.generations && (db.generations[g] == Published || PointedAt(db, g))
      else after.(lease := db.lease) == db
  {
    if db.lease.Some? && (force || db.lease.value.expiresAt <= now) {
      OrphansGo(db);
      assert Apply(p, db, Claim(h, now, ttl, force)).0.generations == Without(db, Orphans(db, None)).generations;
    }
  }

  lemma OrphansGo(db: Db)
    ensures Without(db, Orphans(db, None)).generations.Keys
      == set g | g in db.generations && (db.generations[g] == Published || PointedAt(db, g))
  {
    assert Without(db, Orphans(db, None)).generations == db.generations - Orphans(db, None);
  }

  /** A claim holds for its time and no longer. Over every run in which its holder neither releases nor
      claims again, nothing is forced, and nobody claims after its time: another holder's claim before
      that time fails and changes no table, and one from then on succeeds. */
  lemma {:induction false} ClaimHolds(p: Platform, db: Db, h: Id, now: Instant, ttl: int, force: bool,
      steps: seq<Step>, other: Id, at: Instant, more: int)
    requires Apply(p, db, Claim(h, now, ttl, force)).1 == Done && other != h
    requires forall step | step in steps :: Respects(h, now + ttl, step)
    ensures var held := Run(p, Apply(p, db, Claim(h, now, ttl, force)).0, steps);
      && (at < now + ttl ==> Apply(p, held, Claim(other, at, more, false)) == (held, Failed(LeaseHeld)))
      && (at >= now + ttl ==> Apply(p, held, Claim(other, at, more, false)).1 == Done)
  {
    var claimed := Apply(p, db, Claim(h, now, ttl, force)).0;
    ClaimTakes(p, db, h, now, ttl, force);
    RunKeepsHold(p, claimed, h, now + ttl, steps);
    ClaimFailsIff(p, Run(p, claimed, steps), other, at, more, false);
  }

  /** After its holder's release, and only then, a held lease is free. */
  lemma ReleaseFrees(p: Platform, db: Db, h: Id, holder: Id)
    requires HeldBy(db, h)
    ensures var after := Apply(p, db, Release(holder)).0;
      after.lease == (if holder == h then None else db.lease) && after.(lease := db.lease) == db
  {
  }
}
