/** What an answer means: which error or reason is given when, what a success echoes, which stretch of the
    route it is about, and how the metres of that stretch decide side, shares and seat. */
module AdviceMeaning {
  import opened Common
  import opened Schema
  import opened Exposure
  import opened Joins
  import opened DirectionChoices
  import opened AdviceContext
  import opened Advice
  import P = Projection

  // ---- errors --------------------------------------------------------------------------------------------

  /** Each error is given for its own cause only: a mode or a missing location, no current version of the
      route, another current version, and a direction that the version does not have. */
  lemma ErrorsExactly(w: World, settings: Settings, request: Request, status: ContextStatus, tracks: seq<P.Track>,
      db: Db, route: Id, v: Id, d: Id)
    requires P.Drawn(tracks) && OneVersionPerRoute(db) && IsStatus(db, route, v, d, status)
    ensures var answer := AnswerOf(w, settings, request, status, tracks);
      && (answer == Err(Error.RouteNotFound) <==> request.mode != Unavailable && forall x ::
        !CurrentVersion(db, route, x))
      && (answer == Err(RouteVersionStale) <==>
        request.mode != Unavailable && exists x :: CurrentVersion(db, route, x) && x != v)
      && (answer == Err(RouteDirectionNotFound) <==>
        request.mode != Unavailable && CurrentVersion(db, route, v) && !Runs(db, d, v))
      && (answer == Err(ValidationFailed) <==>
        || request.mode == Unavailable
        || (request.mode == Onboard && request.location.None? && tracks != []
            && CurrentVersion(db, route, v) && Runs(db, d, v)))
  {
    forall x, y | CurrentVersion(db, route, x) && CurrentVersion(db, route, y) ensures x == y {
      CurrentVersionUnique(db, route, x, y);
    }
  }

  // ---- reasons for withholding -----------------------------------------------------------------------------

  /** A request on a direction that is there, with a location if it needs one. */
  predicate IsAsked(request: Request, status: ContextStatus) {
    && request.mode != Unavailable && status == Okay
    && (request.mode == Onboard ==> request.location.Some?)
  }

  /** The passenger is farther from the route than the threshold. */
  predicate IsOffRoute(w: World, settings: Settings, request: Request, tracks: seq<P.Track>)
    requires tracks != []
  {
    && request.mode == Onboard && request.location.Some?
    && P.Project(w.ground, request.location.value, tracks).offRoute > settings.offRouteThreshold
  }

  predicate IsWithheld(answer: Answer, reason: Reason) {
    answer.Ok? && answer.value.Withheld? && answer.value.reason == reason
  }

  /** Without segments the geometry is missing. With them a passenger off the route, who does not take the
      preview instead, is told so; a stretch of no length gets no advice; and everyone else gets advice. */
  lemma WithheldExactly(w: World, settings: Settings, request: Request, status: ContextStatus, tracks: seq<P.Track>)
    requires P.Drawn(tracks) && IsAsked(request, status)
    ensures var answer := AnswerOf(w, settings, request, status, tracks);
      && (IsWithheld(answer, MissingRouteGeometry) <==> tracks == [])
      && (tracks != [] ==>
        var away := IsOffRoute(w, settings, request, tracks) && !request.fallback;
        var road := P.Sum(P.Lengths(Considered(w, settings, request, tracks)));
        && (IsWithheld(answer, LocationOffRoute) <==> away)
        && (IsWithheld(answer, NoAdviceForSelectedHorizon) <==> !away && road <= 0.0)
        && (answer.Ok? && answer.value.Success? <==> !away && road > 0.0))
  {
  }

  /** Off the route with fallback, the answer is the answer to the preview request. */
  lemma FallbackIsPreview(w: World, settings: Settings, request: Request, tracks: seq<P.Track>)
    requires P.Drawn(tracks) && tracks != [] && IsOffRoute(w, settings, request, tracks) && request.fallback
    ensures AnswerOf(w, settings, request, Okay, tracks)
      == AnswerOf(w, settings, request.(mode := Preview), Okay, tracks)
  {
  }

  function PlaceFor(w: World, settings: Settings, request: Request, tracks: seq<P.Track>): Place
    requires P.Drawn(tracks) && tracks != []
  {
    if request.mode == Onboard && request.location.Some? && !IsOffRoute(w, settings, request, tracks) then
      var pos := P.Project(w.ground, request.location.value, tracks);
      Live(pos.point, pos.offRoute)
    else DirectionStart(tracks[0].coordinates[0])
  }

  // ---- what an answer echoes ---------------------------------------------------------------------------------

  /** Horizon, subject and moment are those of the request, and so is the mode, unless the preview was
      taken instead. Advice names the place it is given for: the passenger's on the route, or the start of the
      direction. */
  lemma AnswerEchoes(w: World, settings: Settings, request: Request, status: ContextStatus, tracks: seq<P.Track>)
    requires P.Drawn(tracks) && AnswerOf(w, settings, request, status, tracks).Ok?
    ensures var response := AnswerOf(w, settings, request, status, tracks).value;
      && response.horizon == request.horizon && response.subject == request.subject
      && response.computedAt == request.observedAt
      && response.mode == (if tracks != [] && IsOffRoute(w, settings, request, tracks) && request.fallback then Preview
        else request.mode)
      && (response.Success? ==> tracks != [])
      && (response.Success? ==> response.place == PlaceFor(w, settings, request, tracks))
  {
  }

  // ---- the stretch -------------------------------------------------------------------------------------------

  /** The road of a quarter of an hour at the nominal speed in kilometres per hour, or all of it. */
  function Limit(request: Request, settings: Settings): Option<real> {
    match request.horizon
    case Upcoming => Some(settings.speed * 250.0)
    case RemainingRoute => None
  }

  lemma LimitIsBudget(request: Request, settings: Settings)
    ensures Budget(request.horizon, settings) == Limit(request, settings)
  {
  }

  /** From the passenger at `pos`, within some segment, on. */
  ghost predicate CoversFrom(considered: seq<P.AdviceSegment>, tracks: seq<P.Track>, pos: P.Position,
      limit: Option<real>)
    requires P.Drawn(tracks) && tracks != []
  {
    exists k | 0 <= k < |tracks| :: tracks[k].sequence == pos.sequence
      && P.Covers(considered, tracks, k, tracks[|tracks| - 1].cumulative - pos.cumulative, limit)
  }

  lemma {:induction false} OnboardCovers(g: P.Ground, at: Point, tracks: seq<P.Track>, budget: Option<real>)
    requires P.IsGround(g) && P.IsRoute(tracks) && tracks != [] && (budget.Some? ==> budget.value >= 0.0)
    ensures P.Drawn(P.Ahead(tracks, P.Project(g, at, tracks).sequence))
    ensures CoversFrom(P.AllReady(P.After(tracks, P.Project(g, at, tracks), budget)), tracks, P.Project(g, at, tracks),
      budget)
  {
    P.AdviceCoversHorizon(g, at, tracks, budget);
    P.ProjectedWithin(g, at, tracks);
    assert tracks[P.Nearest(g, at, tracks, |tracks|)].sequence == P.Project(g, at, tracks).sequence;
  }

  /** The segments an answer is about run from the passenger on the route, or from the start of the
      direction, for a quarter of an hour or to the end. */
  lemma {:induction false} AnswerCoversHorizon(w: World, settings: Settings, request: Request, tracks: seq<P.Track>)
    requires P.IsGround(w.ground) && P.IsRoute(tracks) && tracks != [] && settings.speed >= 0.0
    requires request.mode == Onboard ==> request.location.Some?
    ensures var considered := Considered(w, settings, request, tracks);
      if request.mode == Onboard && !IsOffRoute(w, settings, request, tracks) then
        CoversFrom(considered, tracks, P.Project(w.ground, request.location.value, tracks), Limit(request, settings))
      else P.Covers(considered, tracks, 0, tracks[|tracks| - 1].cumulative, Limit(request, settings))
  {
    LimitIsBudget(request, settings);
    if request.mode == Onboard && !IsOffRoute(w, settings, request, tracks) {
      OnboardCovers(w.ground, request.location.value, tracks, Limit(request, settings));
    } else {
      P.PreviewCoversHorizon(tracks, Limit(request, settings));
    }
  }

  // ---- side, shares and seat -----------------------------------------------------------------------------------

  /** The side told leads, the shares are those of the metres, and the seat follows from both. */
  ghost predicate IsFor(samples: seq<Sample>, advised: Advised)
    requires Total(samples) > 0.0
  {
    Leads(samples, advised.side) && AreShares(samples, advised.shares) && IsSeat(samples, advised.shares, advised.seat)
  }

  lemma {:induction false} SummaryIsFor(samples: seq<Sample>)
    requires NonNegative(samples) && Total(samples) > 0.0
    ensures IsFor(samples, AdvisedBy(SummaryOf(samples)))
  {
    DominantLeads(samples);
    SharesAreOfMetres(samples);
    SeatIsExact(samples);
  }

  lemma ReplyIsFor(w: World, request: Request, selected: seq<P.AdviceSegment>, place: Place)
    requires P.NonNegative(P.Lengths(selected)) && Reply(w, request, selected, place).Success?
    ensures Total(SamplesOf(w, selected, request.observedAt)) > 0.0
    ensures IsFor(SamplesOf(w, selected, request.observedAt), Reply(w, request, selected, place).advised)
  {
    ReplyIsOnRealRoad(w, selected, request.observedAt);
    SummaryIsFor(SamplesOf(w, selected, request.observedAt));
  }

  /** Every success tells, for the segments it is about, the side that leads, its metres' shares, and exactly
      the seat that follows. */
  lemma AdviceIsExact(w: World, settings: Settings, request: Request, status: ContextStatus, tracks: seq<P.Track>)
    requires Travelled(tracks)
    ensures var answer := AnswerOf(w, settings, request, status, tracks);
      answer.Ok? && answer.value.Success? ==>
        && tracks != []
        && var samples := SamplesOf(w, Considered(w, settings, request, tracks), request.observedAt);
          Total(samples) > 0.0 && IsFor(samples, answer.value.advised)
  {
    var asked, place := SuccessIsReply(w, settings, request, status, tracks);
    var answer := AnswerOf(w, settings, request, status, tracks);
    if answer.Ok? && answer.value.Success? {
      ConsideredIsNonNegative(w, settings, request, tracks);
      ReplyIsFor(w, asked, Considered(w, settings, request, tracks), place);
    }
  }
}
