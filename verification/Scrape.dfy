/** One scrape run: claim the lease, collect and publish with a bounded number of attempts, release. */
module Scrape {
  import opened Common
  import opened Schema
  import opened Wkt
  import opened Invariant
  import opened Collector
  import opened Staging
  import opened Admission
  import opened Lifecycle
  import opened Passenger
  import opened AdviceColumn
  import opened Publication
  import opened Fencing
  import opened GenerationStores

  /** What one call of the source gives: rows, an error worth a retry, or one that is not. */
  datatype Collected =
    | Collection(rows: Export, hardFailures: seq<string>, warnings: nat)
    | SourceFailed(message: string)
    | SourceBroken

  datatype Problem =
    | NothingTried
    | CollectError(message: string)
    | HardFailures(failures: seq<string>)
    | StoreError(why: Failure)
    | DiscardError(why: Failure, discarding: Failure)

  datatype ScrapeOutcome =
    | WasPublished(generation: Id, routeCount: nat, warningCount: nat)
    | WasFailed(problem: Problem, routeCount: nat, warningCount: nat)
    | LeaseWasHeld
    | Raised

  datatype Tried = Went | Retry(problem: Problem) | Broke

  /** What the source may hand over for an attempt on store `db`: anything, but rows that get as far
      as the store and that it takes are a well-formed export. */
  ghost predicate Admissible(p: Platform, db: Db, g: Id, c: Collected) {
    c.Collection? && c.hardFailures == [] && Accepts(p, db, g, c.rows) ==> WellFormed(p, c.rows)
  }

  ghost predicate AllAdmissible(p: Platform, db: Db, ids: nat -> Id, collect: nat -> Collected) {
    forall k: nat {:trigger Admissible(p, db, ids(k), collect(k))} ::
      ids(k) !in db.generations && Admissible(p, db, ids(k), collect(k))
  }

  /** Exactly when an attempt on store `db` publishes. */
  ghost predicate Publishable(p: Platform, db: Db, g: Id, rows: Export) {
    Accepts(p, db, g, rows) && rows.versions != []
  }

  ghost predicate Fruitful(p: Platform, db: Db, g: Id, c: Collected) {
    c.Collection? && c.hardFailures == [] && Publishable(p, db, g, c.rows)
  }

  /** Generation `g` with the rows of `e` is what passengers see; `before` was current until then. */
  ghost predicate Replaced(p: Platform, before: Db, after: Db, g: Id, e: Export) {
    && Pointer(after, Current) == Some(g)
    && Pointer(after, Previous) == Pointer(before, Current)
    && ShowsExport(p, Seen(after), g, e)
  }

  /** Validate, then publish if that went well. */
  ghost function Advanced(db: Db, g: Id): (Db, Outcome) {
    var (validated, outcome) := ValidatedDb(db, g);
    if outcome.Done? then PublishedDb(validated, g) else (validated, outcome)
  }

  /** The store after a stage, validate and publish that all went well. */
  ghost function PublishedFrom(p: Platform, db: Db, g: Id, rows: Export): Db {
    Advanced(Staged(p, db, g, rows), g).0
  }

  lemma AdvancingStaged(p: Platform, before: Db, g: Id, rows: Export)
    requires Inv(p, before) && WellFormed(p, rows) && Accepts(p, before, g, rows)
    ensures var (after, outcome) := Advanced(Staged(p, before, g, rows), g);
      if rows.versions == [] then after == before && outcome == Failed(NoMembership)
      else outcome == Done && after == PublishedFrom(p, before, g, rows)
  {
    if rows.versions == [] {
      EmptyExportIsDiscarded(p, before, g, rows);
    } else {
      AcceptedIsPublished(p, before, g, rows);
    }
  }

  /** After a store error: discard what the attempt may have left. */
  method CleanUp(store: GenerationStore, g: Id, why: Failure) returns (problem: Problem)
    requires store.Valid()
    modifies store.db
    ensures store.Valid()
    ensures store.db.Rows() == Discarded(old(store.db.Rows()), g).0
    ensures g !in old(store.db.generations) ==> problem == StoreError(why)
  {
    problem := StoreError(why);
    if g in store.db.generations {
      var discarding := store.DiscardStaging(g);
      if discarding.Failed? {
        problem := DiscardError(why, discarding.why);
      }
    }
  }

  /** What stops rows that are not published: what the stage raises, or that there is no route. */
  ghost function Obstacle(p: Platform, db: Db, g: Id, rows: Export): Failure {
    match StageFault(p, db, g, rows)
    case Some(why) => why
    case None => NoMembership
  }

  /** How a stage, validate and publish of rows end: published, or stopped. */
  ghost function Ending(p: Platform, db: Db, g: Id, rows: Export): Outcome {
    match StageFault(p, db, g, rows)
    case Some(why) => Failed(why)
    case None => if rows.versions == [] then Failed(NoMembership) else Done
  }

  lemma EndingIs(p: Platform, db: Db, g: Id, rows: Export)
    ensures Ending(p, db, g, rows) == Done <==> Publishable(p, db, g, rows)
    ensures Ending(p, db, g, rows).Failed? ==> Ending(p, db, g, rows).why == Obstacle(p, db, g, rows)
    ensures Ending(p, db, g, rows) == Failed(Malformed(IndexError)) <==>
      StageFault(p, db, g, rows) == Some(Malformed(IndexError))
  {
    if Accepts(p, db, g, rows) {
      AcceptedHasNoFault(p, db, g, rows);
    } else {
      RefusedHasFault(p, db, g, rows);
    }
  }

  /** One stage, validate, publish. Whatever stops it, the store is as it was. */
  method StageToPublish(store: GenerationStore, g: Id, rows: Export) returns (outcome: Outcome)
    requires store.Valid() && g !in store.db.generations
    requires Accepts(store.p, store.db.Rows(), g, rows) ==> WellFormed(store.p, rows)
    modifies store.db
    ensures store.Valid()
    ensures outcome == Ending(store.p, old(store.db.Rows()), g, rows)
    ensures outcome.Done? ==> store.db.Rows() == PublishedFrom(store.p, old(store.db.Rows()), g, rows)
    ensures outcome.Failed? ==> store.db.Rows() == old(store.db.Rows())
  {
    ghost var before := store.db.Rows();
    outcome := store.Stage(g, rows);
    if outcome.Done? {
      AcceptedHasNoFault(store.p, before, g, rows);
      AdvancingStaged(store.p, before, g, rows);
      outcome := Advance(store, g);
    }
  }

  /** The same under the retry policy for store errors. */
  method Try(store: GenerationStore, g: Id, rows: Export) returns (tried: Tried)
    requires store.Valid() && g !in store.db.generations
    requires Accepts(store.p, store.db.Rows(), g, rows) ==> WellFormed(store.p, rows)
    modifies store.db
    ensures store.Valid()
    ensures tried.Went? <==> Publishable(store.p, old(store.db.Rows()), g, rows)
    ensures tried.Went? ==> store.db.Rows() == PublishedFrom(store.p, old(store.db.Rows()), g, rows)
    ensures !tried.Went? ==> store.db.Rows() == old(store.db.Rows())
    ensures tried.Broke? <==> StageFault(store.p, old(store.db.Rows()), g, rows) == Some(Malformed(IndexError))
    ensures tried.Retry? ==> tried.problem == StoreError(Obstacle(store.p, old(store.db.Rows()), g, rows))
  {
    EndingIs(store.p, store.db.Rows(), g, rows);
    var outcome := StageToPublish(store, g, rows);
    match outcome
    case Done =>
      tried := Went;
    case Failed(why) =>
      if why == Malformed(IndexError) {
        tried := Broke;
      } else {
        var problem := CleanUp(store, g, why);
        tried := Retry(problem);
      }
  }

  method Advance(store: GenerationStore, g: Id) returns (outcome: Outcome)
    requires store.Valid()
    modifies store.db
    ensures store.Valid()
    ensures (store.db.Rows(), outcome) == Advanced(old(store.db.Rows()), g)
  {
    outcome := store.Validate(g);
    if outcome.Done? {
      outcome := store.Publish(g);
    }
  }

  /** An attempt that ends the run: an error of the source that is not worth a retry, or a geometry whose
      point has less than two numbers. */
  ghost predicate Fatal(p: Platform, db: Db, g: Id, c: Collected) {
    || c.SourceBroken?
    || (c.Collection? && c.hardFailures == [] && StageFault(p, db, g, c.rows) == Some(Malformed(IndexError)))
  }

  /** What a failed run reports of an attempt that is neither fruitful nor fatal. */
  ghost function ProblemOf(p: Platform, db: Db, g: Id, c: Collected): Problem {
    match c
    case SourceFailed(message) => CollectError(message)
    case Collection(rows, hardFailures, _) =>
      if hardFailures != [] then HardFailures(hardFailures) else StoreError(Obstacle(p, db, g, rows))
    case SourceBroken => NothingTried
  }

  /** What attempt `k` does to the store the attempts start from: whether it is fruitful or fatal, the
      problem if it is neither, and the store once its collection is published. */
  datatype Trial = Trial(fruitful: bool, fatal: bool, problem: Problem, after: Db)

  ghost function TrialOf(p: Platform, db: Db, g: Id, c: Collected): Trial {
    Trial(Fruitful(p, db, g, c), Fatal(p, db, g, c), ProblemOf(p, db, g, c),
      if c.Collection? then PublishedFrom(p, db, g, c.rows) else db)
  }

  ghost function Trials(p: Platform, db: Db, collect: nat -> Collected, ids: nat -> Id): nat -> Trial {
    (k: nat) => TrialOf(p, db, ids(k), collect(k))
  }

  ghost predicate AreTrials(trials: nat -> Trial, p: Platform, db: Db, collect: nat -> Collected, ids: nat -> Id) {
    forall k: nat {:trigger TrialOf(p, db, ids(k), collect(k))} :: trials(k) == TrialOf(p, db, ids(k), collect(k))
  }

  /** None of the first `n` attempts is fruitful or fatal. */
  ghost predicate Barren(trials: nat -> Trial, n: nat) {
    n == 0 || (Barren(trials, n - 1) && !trials(n - 1).fruitful && !trials(n - 1).fatal)
  }

  /** The rows and warnings of the last of the first `n` collections that the source gave. */
  ghost function LastCounts(collect: nat -> Collected, n: nat): Tally {
    if n == 0 then Tally(0, 0) else Counted(collect(n - 1), LastCounts(collect, n - 1))
  }

  datatype Tally = Tally(routes: nat, warnings: nat)

  function Counted(c: Collected, before: Tally): Tally {
    if c.Collection? then Tally(|c.rows.versions|, c.warnings) else before
  }

  /** The problem of the last of `n` attempts, and the last counts. */
  ghost predicate Standing(trials: nat -> Trial, collect: nat -> Collected, n: nat, problem: Problem, counts: Tally) {
    && problem == (if n > 0 then trials(n - 1).problem else NothingTried)
    && counts == LastCounts(collect, n)
  }

  /** How the attempts ended: published by the last one, which is fruitful; raised by the last one, which
      is fatal; or failed after all of them, with the problem of the last. No earlier one is fruitful or
      fatal. */
  ghost predicate Ended(trials: nat -> Trial, collect: nat -> Collected, ids: nat -> Id, maxAttempts: int,
    outcome: ScrapeOutcome, attempts: nat)
  {
    && attempts <= (if maxAttempts > 0 then maxAttempts else 0)
    && match outcome
       case WasPublished(g, routeCount, warningCount) =>
         && attempts > 0 && g == ids(attempts - 1) && Barren(trials, attempts - 1) && trials(attempts - 1).fruitful
         && collect(attempts - 1).Collection?
         && routeCount == |collect(attempts - 1).rows.versions| && warningCount == collect(attempts - 1).warnings
       case WasFailed(problem, routeCount, warningCount) =>
         && Barren(trials, attempts) && (maxAttempts > 0 ==> attempts == maxAttempts)
         && Standing(trials, collect, attempts, problem, Tally(routeCount, warningCount))
       case Raised => attempts > 0 && Barren(trials, attempts - 1) && trials(attempts - 1).fatal
       case LeaseWasHeld => false
  }

  /** The store the attempts leave: with the last collection published, or as it was. */
  ghost function Left(trials: nat -> Trial, claimed: Db, outcome: ScrapeOutcome, attempts: nat): Db {
    if outcome.WasPublished? && attempts > 0 then trials(attempts - 1).after else claimed
  }

  /** One pass of the loop: what the source gave, tried unless it reports hard failures. */
  method Attempt(store: GenerationStore, g: Id, collected: Collected) returns (tried: Tried)
    requires store.Valid() && g !in store.db.generations
    requires Admissible(store.p, store.db.Rows(), g, collected)
    modifies store.db
    ensures store.Valid()
    ensures tried.Went? <==> Fruitful(store.p, old(store.db.Rows()), g, collected)
    ensures tried.Went? ==> store.db.Rows() == PublishedFrom(store.p, old(store.db.Rows()), g, collected.rows)
    ensures !tried.Went? ==> store.db.Rows() == old(store.db.Rows())
    ensures tried.Broke? <==> Fatal(store.p, old(store.db.Rows()), g, collected)
    ensures tried.Retry? ==> tried.problem == ProblemOf(store.p, old(store.db.Rows()), g, collected)
  {
    match collected
    case SourceBroken =>
      tried := Broke;
    case SourceFailed(message) =>
      tried := Retry(CollectError(message));
    case Collection(rows, hardFailures, _) =>
      if hardFailures != [] {
        tried := Retry(HardFailures(hardFailures));
      } else {
        tried := Try(store, g, rows);
      }
  }

  /** Attempt `k`, as its trial says. */
  method AttemptNumber(store: GenerationStore, collect: nat -> Collected, ids: nat -> Id, k: nat,
      ghost trials: nat -> Trial)
    returns (tried: Tried)
    requires store.Valid()
    requires AllAdmissible(store.p, store.db.Rows(), ids, collect)
    requires AreTrials(trials, store.p, store.db.Rows(), collect, ids)
    modifies store.db
    ensures store.Valid()
    ensures tried.Went? <==> trials(k).fruitful
    ensures tried.Went? ==> store.db.Rows() == trials(k).after && collect(k).Collection?
    ensures !tried.Went? ==> store.db.Rows() == old(store.db.Rows())
    ensures tried.Broke? <==> trials(k).fatal
    ensures tried.Retry? ==> tried.problem == trials(k).problem
  {
    assert trials(k) == TrialOf(store.p, store.db.Rows(), ids(k), collect(k));
    assert Admissible(store.p, store.db.Rows(), ids(k), collect(k));
    tried := Attempt(store, ids(k), collect(k));
  }

  /** The attempts, under a lease that is already claimed. */
  method Attempts(store: GenerationStore, collect: nat -> Collected, ids: nat -> Id, maxAttempts: int,
      ghost trials: nat -> Trial)
    returns (outcome: ScrapeOutcome, attempts: nat)
    requires store.Valid()
    requires AllAdmissible(store.p, store.db.Rows(), ids, collect)
    requires AreTrials(trials, store.p, store.db.Rows(), collect, ids)
    modifies store.db
    ensures store.Valid()
    ensures Ended(trials, collect, ids, maxAttempts, outcome, attempts)
    ensures store.db.Rows() == Left(trials, old(store.db.Rows()), outcome, attempts)
  {
    ghost var before := store.db.Rows();
    var problem, counts := NothingTried, Tally(0, 0);
    attempts := 0;
    while attempts < maxAttempts
      invariant attempts <= if maxAttempts > 0 then maxAttempts else 0
      invariant store.db.Rows() == before
      invariant Barren(trials, attempts)
      invariant Standing(trials, collect, attempts, problem, counts)
    {
      var g, collected := ids(attempts), collect(attempts);
      var tried := AttemptNumber(store, collect, ids, attempts, trials);
      counts := Counted(collected, counts);
      attempts := attempts + 1;
      if tried.Went? {
        return WasPublished(g, counts.routes, counts.warnings), attempts;
      }
      if tried.Broke? {
        return Raised, attempts;
      }
      problem := tried.problem;
    }
    outcome := WasFailed(problem, counts.routes, counts.warnings);
  }

  /** The attempts, and the release that follows however they end. */
  method AttemptsAndRelease(store: GenerationStore, collect: nat -> Collected, ids: nat -> Id, holder: Id,
      maxAttempts: int)
    returns (outcome: ScrapeOutcome, attempts: nat)
    requires store.Valid()
    requires AllAdmissible(store.p, store.db.Rows(), ids, collect)
    modifies store.db
    ensures store.Valid()
    ensures !HeldBy(store.db.Rows(), holder)
    ensures var trials := Trials(store.p, old(store.db.Rows()), collect, ids);
      && Ended(trials, collect, ids, maxAttempts, outcome, attempts)
      && store.db.Rows() == Released(Left(trials, old(store.db.Rows()), outcome, attempts), holder)
  {
    ghost var trials := Trials(store.p, store.db.Rows(), collect, ids);
    outcome, attempts := Attempts(store, collect, ids, maxAttempts, trials);
    ReleasedIsNotHeld(store.db.Rows(), holder);
    store.ReleaseScrapeLease(holder);
  }

  lemma ReleasedIsNotHeld(db: Db, holder: Id)
    ensures !HeldBy(Released(db, holder), holder)
  {
  }

  lemma {:induction false} BarrenHasNone(trials: nat -> Trial, n: nat, k: nat)
    requires Barren(trials, n) && k < n
    ensures !trials(k).fruitful && !trials(k).fatal
  {
    if k < n - 1 {
      BarrenHasNone(trials, n - 1, k);
    }
  }

  lemma ReachesFruitful(trials: nat -> Trial, collect: nat -> Collected, ids: nat -> Id, maxAttempts: int,
      outcome: ScrapeOutcome, attempts: nat, k: nat)
    requires Ended(trials, collect, ids, maxAttempts, outcome, attempts) && k < maxAttempts
    requires trials(k).fruitful && !trials(k).fatal && forall j: nat | j < k :: !trials(j).fruitful && !trials(j).fatal
    ensures attempts == k + 1 && outcome.WasPublished? && outcome.generation == ids(k)
  {
    if attempts > k + 1 {
      BarrenHasNone(trials, attempts - 1, k);
    } else if attempts == k + 1 && outcome.WasFailed? {
      BarrenHasNone(trials, attempts, k);
    }
  }

  /** A collection that the store refuses or that has no route, for a reason worth a retry. */
  ghost predicate Refused(p: Platform, db: Db, g: Id, rows: Export) {
    if Accepts(p, db, g, rows) then rows.versions == []
    else StageFault(p, db, g, rows) != Some(Malformed(IndexError))
  }

  /** A source error worth a retry, hard failures, or a refused collection. */
  ghost predicate Passing(p: Platform, db: Db, g: Id, c: Collected) {
    || c.SourceFailed?
    || (c.Collection? && (c.hardFailures != [] || Refused(p, db, g, c.rows)))
  }

  lemma PassingIsNeither(p: Platform, db: Db, g: Id, c: Collected)
    requires Passing(p, db, g, c)
    ensures !Fruitful(p, db, g, c) && !Fatal(p, db, g, c)
  {
    if c.Collection? && Accepts(p, db, g, c.rows) {
      AcceptedHasNoFault(p, db, g, c.rows);
    }
  }

  /** Liveness: past source errors worth a retry, hard failures and refused collections, a run gets to its
      first attempt that can be published, and publishes it. */
  lemma FirstFruitfulIsPublished(p: Platform, db: Db, trials: nat -> Trial, collect: nat -> Collected, ids: nat -> Id,
      maxAttempts: int, outcome: ScrapeOutcome, attempts: nat, k: nat)
    requires AreTrials(trials, p, db, collect, ids) && Ended(trials, collect, ids, maxAttempts, outcome, attempts)
    requires k < maxAttempts && collect(k).Collection? && collect(k).hardFailures == []
    requires Accepts(p, db, ids(k), collect(k).rows) && collect(k).rows.versions != []
    requires forall j: nat | j < k :: Passing(p, db, ids(j), collect(j))
    ensures attempts == k + 1 && outcome.WasPublished? && outcome.generation == ids(k)
  {
    AcceptedHasNoFault(p, db, ids(k), collect(k).rows);
    assert trials(k) == TrialOf(p, db, ids(k), collect(k));
    forall j: nat | j < k ensures !trials(j).fruitful && !trials(j).fatal {
      assert trials(j) == TrialOf(p, db, ids(j), collect(j));
      PassingIsNeither(p, db, ids(j), collect(j));
    }
    ReachesFruitful(trials, collect, ids, maxAttempts, outcome, attempts, k);
  }

  /** A run raises only at a broken source, or at a collection without hard failures of which some
      geometry has a point of less than two numbers; and then it was not fruitful before. */
  lemma RaisedMeans(p: Platform, db: Db, trials: nat -> Trial, collect: nat -> Collected, ids: nat -> Id,
      maxAttempts: int, outcome: ScrapeOutcome, attempts: nat)
    requires AreTrials(trials, p, db, collect, ids) && Ended(trials, collect, ids, maxAttempts, outcome, attempts)
    requires outcome.Raised?
    ensures attempts > 0
    ensures var c := collect(attempts - 1);
      || c.SourceBroken?
      || (c.Collection? && c.hardFailures == []
          && SomeFault(StoredReader(p), c.rows.segments, IndexError))
    ensures forall j: nat | j < attempts - 1 :: !collect(j).SourceBroken? && !Fruitful(p, db, ids(j), collect(j))
  {
    assert trials(attempts - 1) == TrialOf(p, db, ids(attempts - 1), collect(attempts - 1));
    if !collect(attempts - 1).SourceBroken? {
      FaultIsOfRow(p, db, ids(attempts - 1), collect(attempts - 1).rows, IndexError);
    }
    forall j: nat | j < attempts - 1 ensures !collect(j).SourceBroken? && !Fruitful(p, db, ids(j), collect(j)) {
      BarrenHasNone(trials, attempts - 1, j);
      assert trials(j) == TrialOf(p, db, ids(j), collect(j));
    }
  }

  /** What stopped a collection: if the store accepted it, that it has no route; and else a constraint, or
      a geometry with an unreadable number. */
  ghost predicate IsObstacle(p: Platform, accepted: bool, rows: Export, why: Failure) {
    if accepted then
      rows.versions == [] && why == NoMembership
    else
      why != Malformed(IndexError) && IsRefusal(p, rows.segments, why)
  }

  lemma AcceptedObstacle(p: Platform, db: Db, g: Id, rows: Export)
    requires Accepts(p, db, g, rows) && !Publishable(p, db, g, rows)
    ensures rows.versions == [] && Obstacle(p, db, g, rows) == NoMembership
  {
    AcceptedHasNoFault(p, db, g, rows);
  }

  lemma RefusedObstacle(p: Platform, db: Db, g: Id, rows: Export)
    requires !Accepts(p, db, g, rows) && StageFault(p, db, g, rows) != Some(Malformed(IndexError))
    ensures IsObstacle(p, false, rows, Obstacle(p, db, g, rows))
  {
    RefusedMeans(p, db, g, rows);
  }

  lemma ObstacleTells(p: Platform, db: Db, g: Id, rows: Export, accepted: bool)
    requires !Publishable(p, db, g, rows) && StageFault(p, db, g, rows) != Some(Malformed(IndexError))
    requires accepted == Accepts(p, db, g, rows)
    ensures IsObstacle(p, accepted, rows, Obstacle(p, db, g, rows))
  {
    if accepted {
      AcceptedObstacle(p, db, g, rows);
    } else {
      RefusedObstacle(p, db, g, rows);
    }
  }

  /** What a failed run says of its last attempt. */
  ghost predicate Tells(p: Platform, accepted: bool, c: Collected, problem: Problem) {
    match c
    case SourceFailed(message) => problem == CollectError(message)
    case Collection(rows, hardFailures, warnings) =>
      if hardFailures != [] then problem == HardFailures(hardFailures)
      else problem.StoreError? && IsObstacle(p, accepted, rows, problem.why)
    case SourceBroken => false
  }

  ghost predicate TellsOf(p: Platform, db: Db, g: Id, c: Collected, problem: Problem) {
    Tells(p, WasAccepted(p, db, g, c), c, problem)
  }

  ghost predicate WasAccepted(p: Platform, db: Db, g: Id, c: Collected) {
    c.Collection? && Accepts(p, db, g, c.rows)
  }

  lemma ProblemTells(p: Platform, db: Db, g: Id, c: Collected)
    requires !Fruitful(p, db, g, c) && !Fatal(p, db, g, c)
    ensures TellsOf(p, db, g, c, ProblemOf(p, db, g, c))
  {
    if c.Collection? && c.hardFailures == [] {
      ObstacleTells(p, db, g, c.rows, WasAccepted(p, db, g, c));
    }
  }

  /** A failed run has used up its attempts, and reports the problem of the last one, with the counts of
      the last collection. */
  lemma FailedTells(p: Platform, db: Db, trials: nat -> Trial, collect: nat -> Collected, ids: nat -> Id,
      maxAttempts: int, outcome: ScrapeOutcome, attempts: nat)
    requires AreTrials(trials, p, db, collect, ids) && Ended(trials, collect, ids, maxAttempts, outcome, attempts)
    requires outcome.WasFailed? && maxAttempts > 0
    ensures attempts == maxAttempts
    ensures TellsOf(p, db, ids(attempts - 1), collect(attempts - 1), outcome.problem)
    ensures collect(attempts - 1).Collection? ==>
      && outcome.routeCount == |collect(attempts - 1).rows.versions|
      && outcome.warningCount == collect(attempts - 1).warnings
  {
    BarrenHasNone(trials, attempts, attempts - 1);
    TrialTells(p, db, trials, collect, ids, attempts - 1);
  }

  lemma TrialTells(p: Platform, db: Db, trials: nat -> Trial, collect: nat -> Collected, ids: nat -> Id, k: nat)
    requires AreTrials(trials, p, db, collect, ids) && !trials(k).fruitful && !trials(k).fatal
    ensures TellsOf(p, db, ids(k), collect(k), trials(k).problem)
  {
    assert trials(k) == TrialOf(p, db, ids(k), collect(k));
    ProblemTells(p, db, ids(k), collect(k));
  }

  /** What a run means to passengers: if it published, its last collection has replaced what was current;
      if not, they see what they saw, and the pointers and the generations they name are the same. */
  ghost predicate Shows(p: Platform, before: Db, collect: nat -> Collected, outcome: ScrapeOutcome, attempts: nat,
      after: Db) {
    if outcome.WasPublished? then
      && attempts > 0 && collect(attempts - 1).Collection?
      && Replaced(p, before, after, outcome.generation, collect(attempts - 1).rows)
    else Seen(after) == Seen(before) && SparesPointed(before, after)
  }

  lemma EndedShows(p: Platform, before: Db, claimed: Db, trials: nat -> Trial, collect: nat -> Collected,
      ids: nat -> Id, holder: Id, maxAttempts: int, outcome: ScrapeOutcome, attempts: nat)
    requires Ended(trials, collect, ids, maxAttempts, outcome, attempts)
    requires outcome.WasPublished? ==> collect(attempts - 1).Collection? && Replaced(p, before,
      Released(trials(attempts - 1).after, holder), ids(attempts - 1), collect(attempts - 1).rows)
    requires Seen(Released(claimed, holder)) == Seen(before) && SparesPointed(before, Released(claimed, holder))
    ensures Shows(p, before, collect, outcome, attempts,
      Released(Left(trials, claimed, outcome, attempts), holder))
  {
  }

  lemma TrialShows(p: Platform, before: Db, claimed: Db, trials: nat -> Trial, collect: nat -> Collected,
      ids: nat -> Id, holder: Id, now: Instant, ttl: int, force: bool, k: nat)
    requires Inv(p, before) && claimed == Claimed(before, holder, now, ttl, force).0
    requires AllAdmissible(p, claimed, ids, collect) && AreTrials(trials, p, claimed, collect, ids)
    requires trials(k).fruitful
    ensures collect(k).Collection?
    ensures Replaced(p, before, Released(trials(k).after, holder), ids(k), collect(k).rows)
  {
    assert trials(k) == TrialOf(p, claimed, ids(k), collect(k));
    assert Admissible(p, claimed, ids(k), collect(k));
    PublishedRunIsSeen(p, before, holder, now, ttl, force, ids(k), collect(k).rows);
  }

  lemma RunShows(p: Platform, before: Db, claimed: Db, trials: nat -> Trial, collect: nat -> Collected,
      ids: nat -> Id, holder: Id, now: Instant, ttl: int, force: bool, maxAttempts: int, outcome: ScrapeOutcome,
      attempts: nat)
    requires Inv(p, before) && claimed == Claimed(before, holder, now, ttl, force).0
    requires AllAdmissible(p, claimed, ids, collect) && AreTrials(trials, p, claimed, collect, ids)
    requires Ended(trials, collect, ids, maxAttempts, outcome, attempts)
    ensures Shows(p, before, collect, outcome, attempts, Released(Left(trials, claimed, outcome, attempts), holder))
  {
    if outcome.WasPublished? {
      TrialShows(p, before, claimed, trials, collect, ids, holder, now, ttl, force, attempts - 1);
    }
    UnpublishedRunIsUnseen(p, before, holder, now, ttl, force);
    EndedShows(p, before, claimed, trials, collect, ids, holder, maxAttempts, outcome, attempts);
  }

  /** `run_scrape` with no other writer in between. When the lease can be claimed, it publishes the
      first fruitful collection among its attempts. Otherwise, apart from what the claim itself
      recovered, the store is as it was. The lease is never left behind. */
  method RunScrape(store: GenerationStore, collect: nat -> Collected, ids: nat -> Id,
    holder: Id, now: Instant, ttl: int, force: bool, maxAttempts: int)
    returns (outcome: ScrapeOutcome, attempts: nat)
    requires store.Valid()
    requires AllAdmissible(store.p, Claimed(store.db.Rows(), holder, now, ttl, force).0, ids, collect)
    modifies store.db
    ensures store.Valid()
    ensures !HeldBy(store.db.Rows(), holder)
    ensures Shows(store.p, old(store.db.Rows()), collect, outcome, attempts, store.db.Rows())
    ensures var (claimed, claim) := Claimed(old(store.db.Rows()), holder, now, ttl, force);
      if claim == Failed(LeaseHeld) then outcome == LeaseWasHeld && attempts == 0
        && store.db.Rows() == old(store.db.Rows())
      else
        var trials := Trials(store.p, claimed, collect, ids);
        && Ended(trials, collect, ids, maxAttempts, outcome, attempts)
        && store.db.Rows() == Released(Left(trials, claimed, outcome, attempts), holder)
  {
    ClaimOutcome(store.db.Rows(), holder, now, ttl, force);
    var claim := store.ClaimScrapeLease(holder, now, ttl, force);
    if claim.Failed? {
      return LeaseWasHeld, 0;
    }
    ghost var claimed := store.db.Rows();
    outcome, attempts := AttemptsAndRelease(store, collect, ids, holder, maxAttempts);
    RunShows(store.p, old(store.db.Rows()), claimed, Trials(store.p, claimed, collect, ids), collect, ids, holder, now,
      ttl, force, maxAttempts, outcome, attempts);
  }

  /** A claim creates no generation, and leaves the lease with the holder when it succeeds. */
  lemma ClaimOutcome(db: Db, holder: Id, now: Instant, ttl: int, force: bool)
    ensures var (after, outcome) := Claimed(db, holder, now, ttl, force);
      && (forall g | g in after.generations :: g in db.generations)
      && (outcome == Done ==> HeldBy(after, holder))
      && (outcome != Done ==> after == db && outcome == Failed(LeaseHeld) && !HeldBy(db, holder))
  {
  }

  /** `after` has the pointers of `db`, no new generation, and every generation a pointer names. */
  ghost predicate SparesPointed(db: Db, after: Db) {
    && after.pointers == db.pointers
    && (forall g | g in after.generations :: g in db.generations)
    && (forall g | g in db.generations && PointedAt(db, g) :: g in after.generations)
  }

  lemma SparedPointers(db: Db, gone: set<Id>)
    requires forall g | g in gone :: !PointedAt(db, g)
    ensures SparesPointed(db, Without(db, gone))
  {
    var after := Without(db, gone);
    assert forall role | role in db.pointers :: PointedAt(db, db.pointers[role]);
    assert forall role :: role in after.pointers <==> role in db.pointers;
  }

  lemma SparesWithLease(db: Db, after: Db, lease: Option<Lease>)
    requires SparesPointed(db, after)
    ensures SparesPointed(db, after.(lease := lease))
  {
  }

  lemma ClaimSparesPointed(db: Db, holder: Id, now: Instant, ttl: int, force: bool)
    ensures SparesPointed(db, Claimed(db, holder, now, ttl, force).0)
  {
    var lease, recovered := Some(Lease(holder, now, now + ttl)), Without(db, Orphans(db, None));
    SparesWithLease(db, db, lease);
    SparedPointers(db, Orphans(db, None));
    SparesWithLease(db, recovered, lease);
    var after := Claimed(db, holder, now, ttl, force).0;
    assert after == db || after == db.(lease := lease) || after == recovered.(lease := lease);
  }

  lemma ReleaseKeepsSeen(db: Db, holder: Id)
    ensures Seen(Released(db, holder)) == Seen(db)
  {
  }

  /** What a run that publishes nothing leaves: both pointers, the generations they name, and what
      passengers see are as before, and no generation is new. */
  lemma UnpublishedRunIsUnseen(p: Platform, db: Db, holder: Id, now: Instant, ttl: int, force: bool)
    requires Inv(p, db)
    ensures var after := Released(Claimed(db, holder, now, ttl, force).0, holder);
      Seen(after) == Seen(db) && SparesPointed(db, after)
  {
    ClaimKeepsSeen(p, db, holder, now, ttl, force);
    ClaimSparesPointed(db, holder, now, ttl, force);
    ReleaseKeepsSeen(Claimed(db, holder, now, ttl, force).0, holder);
  }

  /** A fresh, non-empty, well-formed collection without hard failures is published. */
  lemma FreshCollectionIsFruitful(p: Platform, db: Db, g: Id, c: Collected)
    requires Inv(p, db) && c.Collection? && c.hardFailures == []
    requires WellFormed(p, c.rows) && Fresh(db, g, c.rows) && c.rows.versions != []
    ensures Fruitful(p, db, g, c)
  {
    FreshIsAccepted(p, db, g, c.rows);
  }

  /** A fruitful collection replaces what passengers see. */
  lemma FruitfulReplaces(p: Platform, db: Db, g: Id, rows: Export)
    requires Inv(p, db) && WellFormed(p, rows) && Publishable(p, db, g, rows)
    ensures Replaced(p, db, PublishedFrom(p, db, g, rows), g, rows)
  {
    AcceptedIsPublished(p, db, g, rows);
  }

  lemma ReleaseKeepsReplaced(p: Platform, before: Db, claimed: Db, after: Db, holder: Id, g: Id, rows: Export)
    requires Replaced(p, claimed, after, g, rows) && before.pointers == claimed.pointers
    ensures Replaced(p, before, Released(after, holder), g, rows)
  {
    ReleaseKeepsSeen(after, holder);
  }

  /** What a run that publishes shows: exactly the rows of its last collection, under its
      generation, with the former current generation as previous. */
  lemma PublishedRunIsSeen(p: Platform, before: Db, holder: Id, now: Instant, ttl: int, force: bool, g: Id,
      rows: Export)
    requires Inv(p, before) && WellFormed(p, rows)
      && Publishable(p, Claimed(before, holder, now, ttl, force).0, g, rows)
    ensures Replaced(p, before, Released(PublishedFrom(p, Claimed(before, holder, now, ttl, force).0, g, rows),
      holder), g, rows)
  {
    var claimed := Claimed(before, holder, now, ttl, force).0;
    ClaimKeepsInv(p, before, holder, now, ttl, force);
    ClaimSparesPointed(before, holder, now, ttl, force);
    FruitfulReplaces(p, claimed, g, rows);
    ReleaseKeepsReplaced(p, before, claimed, PublishedFrom(p, claimed, g, rows), holder, g, rows);
  }
}
