/** The advice decision: which segments count, when advice is withheld, and what is advised. */
module Advice {
  import opened Common
  import opened Schema
  import opened Exposure
  import opened AdviceContext
  import P = Projection

  datatype Mode = Onboard | Preview | Unavailable

  datatype Horizon = Upcoming | RemainingRoute

  datatype Subject = Subject(route: Id, version: Id, direction: Id)

  datatype Request = Request(subject: Subject, mode: Mode, horizon: Horizon, observedAt: Instant,
      location: Option<Point>, fallback: bool)

  datatype Settings = Settings(offRouteThreshold: real, speed: real)

  /** Distances along the ground, and where the sun stands. */
  datatype World = World(ground: P.Ground, sun: (Point, Instant) -> Sun)

  datatype Error = ValidationFailed | RouteNotFound | RouteVersionStale | RouteDirectionNotFound

  datatype Reason = MissingRouteGeometry | NoAdviceForSelectedHorizon | LocationOffRoute

  datatype Place = Live(at: Point, offRoute: real) | DirectionStart(at: Point)

  datatype Advised = Advised(side: Side, seat: Seat, condition: Condition, shares: Shares, flip: bool)

  datatype Response =
    | Withheld(mode: Mode, horizon: Horizon, subject: Subject, reason: Reason, computedAt: Instant)
    | Success(mode: Mode, horizon: Horizon, subject: Subject, advised: Advised, computedAt: Instant, place: Place)

  type Answer = Result<Response, Error>

  // ---- what is answered -----------------------------------------------------------------------------------

  /** `_max_distance_for_horizon`: fifteen minutes at the nominal speed, or no limit. */
  function Budget(horizon: Horizon, settings: Settings): Option<real> {
    match horizon
    case Upcoming => Some(settings.speed * 1000.0 * (15.0 / 60.0))
    case RemainingRoute => None
  }

  function ErrorOf(status: ContextStatus): Option<Error> {
    match status
    case RouteMissing => Some(RouteNotFound)
    case Stale => Some(RouteVersionStale)
    case DirectionMissing => Some(RouteDirectionNotFound)
    case Okay => None
  }

  function Suns(w: World, selected: seq<P.AdviceSegment>, at: Instant): (suns: seq<Sun>)
    ensures |suns| == |selected| && forall i | 0 <= i < |selected| :: suns[i] == w.sun(selected[i].midpoint, at)
  {
    seq(|selected|, i requires 0 <= i < |selected| => w.sun(selected[i].midpoint, at))
  }

  function SamplesOf(w: World, selected: seq<P.AdviceSegment>, at: Instant): seq<Sample> {
    Samples(selected, Suns(w, selected, at))
  }

  function AdvisedBy(summary: Summary): Advised {
    Advised(summary.side, SeatForHorizon(summary), summary.condition, summary.shares, summary.flip)
  }

  /** Advice on the selected segments, or none where they have no length. */
  function Reply(w: World, request: Request, selected: seq<P.AdviceSegment>, place: Place): Response {
    if P.Sum(P.Lengths(selected)) <= 0.0 then
      Withheld(request.mode, request.horizon, request.subject, NoAdviceForSelectedHorizon, request.observedAt)
    else
      Success(request.mode, request.horizon, request.subject,
        AdvisedBy(SummaryOf(SamplesOf(w, selected, request.observedAt))), request.observedAt, place)
  }

  /** Segments with coordinates and without negative distances, as every stored route has. */
  ghost predicate Travelled(tracks: seq<P.Track>) {
    P.Drawn(tracks) && forall i | 0 <= i < |tracks| :: tracks[i].distance >= 0.0
  }

  /** The reply from the start of the direction. */
  function PreviewReply(w: World, settings: Settings, request: Request, tracks: seq<P.Track>): Response
    requires P.Drawn(tracks) && tracks != []
  {
    Reply(w, request, P.AllReady(P.FromStart(tracks, Budget(request.horizon, settings))),
      DirectionStart(tracks[0].coordinates[0]))
  }

  /** The reply from where the passenger is. */
  function OnboardReply(w: World, settings: Settings, request: Request, tracks: seq<P.Track>, pos: P.Position): Response
    requires P.Drawn(P.Ahead(tracks, pos.sequence))
  {
    Reply(w, request, P.AllReady(P.After(tracks, pos, Budget(request.horizon, settings))),
      Live(pos.point, pos.offRoute))
  }

  /** The answer, given the status and the segments of the direction asked for. Being off the route
      with fallback is answered exactly as a preview is. */
  function AnswerOf(w: World, settings: Settings, request: Request, status: ContextStatus, tracks: seq<P.Track>): Answer
    requires P.Drawn(tracks)
  {
    if request.mode == Unavailable then Err(ValidationFailed)
    else if ErrorOf(status).Some? then Err(ErrorOf(status).value)
    else if tracks == [] then Ok(Withheld(request.mode, request.horizon, request.subject, MissingRouteGeometry,
      request.observedAt))
    else if request.mode == Preview then Ok(PreviewReply(w, settings, request, tracks))
    else if request.location.None? then Err(ValidationFailed)
    else
      var pos := P.Project(w.ground, request.location.value, tracks);
      P.AheadDrawn(tracks, pos.sequence);
      if pos.offRoute <= settings.offRouteThreshold then Ok(OnboardReply(w, settings, request, tracks, pos))
      else if request.fallback then Ok(PreviewReply(w, settings, request.(mode := Preview), tracks))
      else Ok(Withheld(request.mode, request.horizon, request.subject, LocationOffRoute, request.observedAt))
  }

  // ---- the decision ---------------------------------------------------------------------------------------

  /** The lengths handed on are never negative. */
  lemma ReadyIsNonNegative(tracks: seq<P.Track>, xs: seq<real>, budget: Option<real>, marks: seq<real>)
    requires P.Drawn(tracks) && |xs| == |tracks| == |marks| && P.NonNegative(xs)
    ensures P.NonNegative(P.Lengths(P.AllReady(P.Cut(tracks, P.Taken(xs, budget), marks))))
  {
    P.TakenPrefix(xs, budget);
  }

  lemma {:induction false} AheadTravelled(tracks: seq<P.Track>, s: int)
    requires Travelled(tracks)
    ensures Travelled(P.Ahead(tracks, s))
  {
    if tracks != [] {
      AheadTravelled(tracks[..|tracks| - 1], s);
    }
  }

  lemma StartIsNonNegative(tracks: seq<P.Track>, budget: Option<real>)
    requires Travelled(tracks)
    ensures P.NonNegative(P.Lengths(P.AllReady(P.FromStart(tracks, budget))))
  {
    ReadyIsNonNegative(tracks, P.Distances(tracks), budget, P.Cumulatives(tracks));
  }

  lemma {:induction false} AfterIsNonNegative(tracks: seq<P.Track>, pos: P.Position, budget: Option<real>)
    requires Travelled(tracks)
    ensures P.Drawn(P.Ahead(tracks, pos.sequence))
    ensures P.NonNegative(P.Lengths(P.AllReady(P.After(tracks, pos, budget))))
  {
    AheadTravelled(tracks, pos.sequence);
    var ahead := P.Ahead(tracks, pos.sequence);
    ReadyIsNonNegative(ahead, P.Available(ahead, pos), budget, P.Marks(ahead, pos));
  }

  /** `_build_advice_success`, after the check for a horizon of no length. */
  method BuildReply(w: World, request: Request, selected: seq<P.AdviceSegment>, place: Place)
      returns (response: Response)
    requires P.NonNegative(P.Lengths(selected))
    ensures response == Reply(w, request, selected, place)
  {
    if P.Sum(P.Lengths(selected)) <= 0.0 {
      return Withheld(request.mode, request.horizon, request.subject, NoAdviceForSelectedHorizon, request.observedAt);
    }
    assert forall i | 0 <= i < |selected| :: P.Lengths(selected)[i] >= 0.0;
    var summary := SummarizeHorizon(selected, Suns(w, selected, request.observedAt));
    response := Success(request.mode, request.horizon, request.subject,
      Advised(summary.side, SeatForHorizon(summary), summary.condition, summary.shares, summary.flip),
        request.observedAt, place);
  }

  /** `build_advice`. */
  method BuildAdvice(w: World, settings: Settings, request: Request, status: ContextStatus, tracks: seq<P.Track>)
      returns (answer: Answer)
    requires Travelled(tracks)
    ensures answer == AnswerOf(w, settings, request, status, tracks)
  {
    if request.mode != Onboard && request.mode != Preview {
      return Err(ValidationFailed);
    }
    var error := ErrorOf(status);
    if error.Some? {
      return Err(error.value);
    }
    if tracks == [] {
      return Ok(Withheld(request.mode, request.horizon, request.subject, MissingRouteGeometry, request.observedAt));
    }
    var budget := Budget(request.horizon, settings);
    if request.mode == Onboard {
      if request.location.None? {
        return Err(ValidationFailed);
      }
      var pos := P.Project(w.ground, request.location.value, tracks);
      if pos.offRoute > settings.offRouteThreshold {
        if request.fallback {
          var preview := request.(mode := Preview);
          var fromStart := P.SegmentsFromStart(tracks, budget);
          StartIsNonNegative(tracks, budget);
          var reply := BuildReply(w, preview, fromStart, DirectionStart(tracks[0].coordinates[0]));
          return Ok(reply);
        }
        return Ok(Withheld(request.mode, request.horizon, request.subject, LocationOffRoute, request.observedAt));
      }
      var after := P.SegmentsAfter(tracks, pos, budget);
      AfterIsNonNegative(tracks, pos, budget);
      var reply := BuildReply(w, request, after, Live(pos.point, pos.offRoute));
      return Ok(reply);
    }
    var selected := P.SegmentsFromStart(tracks, budget);
    StartIsNonNegative(tracks, budget);
    var reply := BuildReply(w, request, selected, DirectionStart(tracks[0].coordinates[0]));
    return Ok(reply);
  }

  // ---- onboard and preview ----------------------------------------------------------------------------------

  /** What a passenger is told, whatever the mode: everything but the mode and how the place was found. */
  function Told(answer: Answer): Answer {
    match answer
    case Err(_) => answer
    case Ok(Withheld(_, horizon, subject, reason, at)) => Ok(Withheld(Preview, horizon, subject, reason, at))
    case Ok(Success(_, horizon, subject, advised, at, place)) => Ok(Success(Preview, horizon, subject, advised, at,
      DirectionStart(place.at)))
  }

  /** A passenger exactly at the start of the direction is told what a preview tells, for both horizons
      and every route, also one that comes back to its start. */
  lemma StartIsToldThePreview(w: World, settings: Settings, request: Request, status: ContextStatus,
      tracks: seq<P.Track>)
    requires P.IsGround(w.ground) && P.IsRoute(tracks) && settings.offRouteThreshold >= 0.0
    requires request.mode == Onboard && (tracks != [] ==> request.location == Some(tracks[0].coordinates[0]))
    ensures Told(AnswerOf(w, settings, request, status, tracks)) == Told(AnswerOf(w, settings,
      request.(mode := Preview), status, tracks))
  {
    if tracks != [] {
      P.StartProjects(w.ground, tracks);
      P.StartIsPreview(w.ground, tracks, Budget(request.horizon, settings));
    }
  }

  // ---- coherence ---------------------------------------------------------------------------------------------

  /** No sun exactly at night, sun overhead exactly when the condition says so, whole shares of a
      hundred, and a seat on one side only against real sun on the other and none on its own. */
  ghost predicate Coherent(advised: Advised) {
    && (advised.side == Dark <==> advised.condition == Night)
    && (advised.side == Overhead <==> advised.condition == HighSun)
    && advised.shares.left >= 0 && advised.shares.right >= 0 && advised.shares.rest >= 0
    && advised.shares.left + advised.shares.right + advised.shares.rest == 100
    && (advised.flip <==> advised.shares.left > 0 && advised.shares.right > 0)
    && (advised.seat == LeftSeat ==> advised.side == Right && advised.shares.right >= 16 && advised.shares.left == 0)
    && (advised.seat == RightSeat ==> advised.side == Left && advised.shares.left >= 16 && advised.shares.right == 0)
  }

  /** A seat on one side is told only where under one hundredth of the metres has its sun there. */
  ghost predicate Shaded(samples: seq<Sample>, seat: Seat) {
    && (seat == LeftSeat ==> Metres(samples, Left) * 100.0 < Total(samples))
    && (seat == RightSeat ==> Metres(samples, Right) * 100.0 < Total(samples))
  }

  /** The segments an answer is about: ahead of a passenger on the route, or from the start. */
  function Considered(w: World, settings: Settings, request: Request, tracks: seq<P.Track>): seq<P.AdviceSegment>
    requires P.Drawn(tracks) && tracks != []
  {
    var budget := Budget(request.horizon, settings);
    if request.mode == Onboard && request.location.Some?
      && P.Project(w.ground, request.location.value, tracks).offRoute <= settings.offRouteThreshold
    then
      var pos := P.Project(w.ground, request.location.value, tracks);
      P.AheadDrawn(tracks, pos.sequence);
      P.AllReady(P.After(tracks, pos, budget))
    else P.AllReady(P.FromStart(tracks, budget))
  }

  lemma {:induction false} SumMore(xs: seq<real>, k: nat)
    requires k < |xs|
    ensures P.SumFrom(xs, k) == P.SumFrom(xs[..|xs| - 1], k) + xs[|xs| - 1]
    decreases |xs| - k
  {
    if k < |xs| - 1 {
      SumMore(xs, k + 1);
    }
  }

  lemma {:induction false} TotalIsSum(samples: seq<Sample>, xs: seq<real>)
    requires |samples| == |xs| && forall i | 0 <= i < |xs| :: samples[i].metres == xs[i]
    ensures Total(samples) == P.Sum(xs)
  {
    if xs != [] {
      TotalIsSum(samples[..|samples| - 1], xs[..|xs| - 1]);
      SumMore(xs, 0);
    }
  }

  lemma ReplyIsOnRealRoad(w: World, selected: seq<P.AdviceSegment>, at: Instant)
    requires P.NonNegative(P.Lengths(selected)) && P.Sum(P.Lengths(selected)) > 0.0
    ensures NonNegative(SamplesOf(w, selected, at)) && Total(SamplesOf(w, selected, at)) > 0.0
  {
    var xs := P.Lengths(selected);
    forall i | 0 <= i < |selected| ensures SamplesOf(w, selected, at)[i].metres == xs[i] >= 0.0 {
    }
    TotalIsSum(SamplesOf(w, selected, at), xs);
  }

  lemma {:induction false} SummaryIsCoherent(samples: seq<Sample>)
    requires NonNegative(samples) && Total(samples) > 0.0
    ensures Coherent(AdvisedBy(SummaryOf(samples))) && Shaded(samples, SeatForHorizon(SummaryOf(samples)))
  {
    SideFitsCondition(samples);
    SideSeatIsShaded(samples);
    SharesAreWhole(samples);
  }

  lemma ConsideredIsNonNegative(w: World, settings: Settings, request: Request, tracks: seq<P.Track>)
    requires Travelled(tracks) && tracks != []
    ensures P.NonNegative(P.Lengths(Considered(w, settings, request, tracks)))
  {
    var budget := Budget(request.horizon, settings);
    StartIsNonNegative(tracks, budget);
    if request.location.Some? {
      AfterIsNonNegative(tracks, P.Project(w.ground, request.location.value, tracks), budget);
    }
  }

  /** A success is the reply on the segments considered. */
  lemma SuccessIsReply(w: World, settings: Settings, request: Request, status: ContextStatus, tracks: seq<P.Track>)
      returns (asked: Request, place: Place)
    requires P.Drawn(tracks)
    ensures asked.observedAt == request.observedAt
    ensures var answer := AnswerOf(w, settings, request, status, tracks);
      answer.Ok? && answer.value.Success? ==>
        tracks != [] && answer.value == Reply(w, asked, Considered(w, settings, request, tracks), place)
  {
    asked, place := request, DirectionStart(Point(0.0, 0.0));
    if tracks != [] {
      place := DirectionStart(tracks[0].coordinates[0]);
      if request.mode == Onboard && request.location.Some? {
        var pos := P.Project(w.ground, request.location.value, tracks);
        if pos.offRoute <= settings.offRouteThreshold {
          place := Live(pos.point, pos.offRoute);
        } else {
          asked := request.(mode := Preview);
        }
      }
    }
  }

  /** Every successful advice is coherent, and its seat is shaded on the segments it is about. */
  lemma AdviceIsCoherent(w: World, settings: Settings, request: Request, status: ContextStatus, tracks: seq<P.Track>)
    requires Travelled(tracks)
    ensures var answer := AnswerOf(w, settings, request, status, tracks);
      answer.Ok? && answer.value.Success? ==>
        && tracks != [] && Coherent(answer.value.advised)
        && Shaded(SamplesOf(w, Considered(w, settings, request, tracks), request.observedAt), answer.value.advised.seat)
  {
    var asked, place := SuccessIsReply(w, settings, request, status, tracks);
    if tracks != [] {
      ConsideredIsNonNegative(w, settings, request, tracks);
      ReplyIsCoherent(w, asked, Considered(w, settings, request, tracks), place);
    }
  }

  lemma ReplyIsCoherent(w: World, request: Request, selected: seq<P.AdviceSegment>, place: Place)
    requires P.NonNegative(P.Lengths(selected))
    ensures var reply := Reply(w, request, selected, place);
      reply.Success? ==>
        Coherent(reply.advised) && Shaded(SamplesOf(w, selected, request.observedAt), reply.advised.seat)
  {
    if P.Sum(P.Lengths(selected)) > 0.0 {
      ReplyIsOnRealRoad(w, selected, request.observedAt);
      SummaryIsCoherent(SamplesOf(w, selected, request.observedAt));
    }
  }

  /** The condition told is the sun's at the middle of a segment that is longest among those with the
      sun on the side told. */
  ghost predicate SeenOn(w: World, selected: seq<P.AdviceSegment>, at: Instant, advised: Advised) {
    exists k | 0 <= k < |selected| ::
      var sun := w.sun(selected[k].midpoint, at);
      && SideOf(sun, selected[k].bearing) == advised.side && ConditionOf(sun) == advised.condition
      && forall i | 0 <= i < |selected| ::
        SideOf(w.sun(selected[i].midpoint, at), selected[i].bearing) == advised.side ==>
          selected[i].distance <= selected[k].distance
  }

  lemma ReplyIsSeen(w: World, request: Request, selected: seq<P.AdviceSegment>, place: Place)
    requires P.NonNegative(P.Lengths(selected)) && Reply(w, request, selected, place).Success?
    ensures SeenOn(w, selected, request.observedAt, Reply(w, request, selected, place).advised)
  {
    var samples := SamplesOf(w, selected, request.observedAt);
    ReplyIsOnRealRoad(w, selected, request.observedAt);
    ConditionIsOfLongest(samples);
    var k :| 0 <= k < |samples| && On(samples[k], Dominant(samples)) && DominantSun(samples) == samples[k].sun
      && forall i | 0 <= i < |samples| && On(samples[i], Dominant(samples)) :: samples[i].metres <= samples[k].metres;
    forall i | 0 <= i < |selected|
      && SideOf(w.sun(selected[i].midpoint, request.observedAt), selected[i].bearing) == Dominant(samples)
      ensures selected[i].distance <= selected[k].distance
    {
      assert On(samples[i], Dominant(samples));
    }
    var sun := w.sun(selected[k].midpoint, request.observedAt);
    assert sun == samples[k].sun;
  }
  /** So it is in every successful advice. */
  lemma ConditionIsSeen(w: World, settings: Settings, request: Request, status: ContextStatus, tracks: seq<P.Track>)
    requires Travelled(tracks)
    ensures var answer := AnswerOf(w, settings, request, status, tracks);
      answer.Ok? && answer.value.Success? ==>
        && tracks != []
        && SeenOn(w, Considered(w, settings, request, tracks), request.observedAt, answer.value.advised)
  {
    var asked, place := SuccessIsReply(w, settings, request, status, tracks);
    var answer := AnswerOf(w, settings, request, status, tracks);
    if answer.Ok? && answer.value.Success? {
      ConsideredIsNonNegative(w, settings, request, tracks);
      ReplyIsSeen(w, asked, Considered(w, settings, request, tracks), place);
    }
  }
}
