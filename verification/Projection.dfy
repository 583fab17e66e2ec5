/** Where a passenger is along a route, and which segments come next within a distance. */
module Projection {
  import opened Common
  import opened Schema
  import opened Polyline

  /** A route segment as advice reads it. */
  type Track = AdviceItem

  /** A segment, or the part of it within the horizon, ready for advice. */
  datatype AdviceSegment = AdviceSegment(id: Id, sequence: int, midpoint: Point, bearing: real, distance: real,
      cumulative: real)

  datatype Position = Position(sequence: int, point: Point, offRoute: real, cumulative: real)

  ghost predicate Drawn(tracks: seq<Track>) {
    forall i | 0 <= i < |tracks| :: tracks[i].coordinates != []
  }

  /** The distance before segment `i`. */
  function Before(tracks: seq<Track>, i: nat): real
    requires i < |tracks|
  {
    if i == 0 then 0.0 else tracks[i - 1].cumulative
  }

  /** Segments of one route in order: none is without coordinates, and each cumulative distance is
      the sum of the distances so far. */
  ghost predicate IsRoute(tracks: seq<Track>) {
    && Drawn(tracks)
    && (forall i | 0 <= i < |tracks| :: tracks[i].distance >= 0.0)
    && (forall i, j | 0 <= i < j < |tracks| :: tracks[i].sequence < tracks[j].sequence)
    && (forall i {:trigger Before(tracks, i)} | 0 <= i < |tracks| ::
      tracks[i].cumulative == Before(tracks, i) + tracks[i].distance)
  }

  // ---- projection --------------------------------------------------------------------------------------

  /** How points lie along segments: the fraction of a segment nearest to a point, the point and the
      length at a fraction, and distances. */
  datatype Ground = Ground(
    along: (Point, Track) -> real,
    place: (Track, real) -> Point,
    part: (real, real) -> real,
    distance: (Point, Point) -> real)

  ghost predicate IsGround(g: Ground) {
    && (forall at, t :: 0.0 <= g.along(at, t) <= 1.0)
    && (forall t: Track | t.coordinates != [] ::
      g.along(t.coordinates[0], t) == 0.0
      && g.place(t, 0.0) == t.coordinates[0])
    && (forall d, f | d >= 0.0 && 0.0 <= f <= 1.0 :: 0.0 <= g.part(d, f) <= d)
    && (forall d :: g.part(d, 0.0) == 0.0)
    && (forall a, b :: g.distance(a, b) >= 0.0)
    && (forall a :: g.distance(a, a) == 0.0)
  }

  function Clamp(x: real): real {
    if x < 0.0 then 0.0 else if x > 1.0 then 1.0 else x
  }

  /** The square of the way from `y` to `x`, and the product of two ways from `a`. */
  function Way2(x: real, y: real): real {
    (x - y) * (x - y)
  }

  function Ways(x: real, a: real, b: real): real {
    (x - a) * (b - a)
  }

  /** The squared planar distance, in degrees. */
  function Squared(a: Point, b: Point): real {
    Way2(a.lon, b.lon) + Way2(a.lat, b.lat)
  }

  /** The dot product of the ways from `a` to `at` and to `b`. */
  function Dot(at: Point, a: Point, b: Point): real {
    Ways(at.lon, a.lon, b.lon) + Ways(at.lat, a.lat, b.lat)
  }

  /** The clamped projection onto the straight line from the first to the last point. */
  function FractionAlong(at: Point, track: Track): real {
    if track.coordinates == [] then 0.0
    else
      var a, b := track.coordinates[0], track.coordinates[|track.coordinates| - 1];
      if Squared(b, a) == 0.0 then 0.0 else Clamp(Dot(at, a, b) / Squared(b, a))
  }

  function PointAlong(track: Track, fraction: real): Point {
    if track.coordinates == [] then Point(0.0, 0.0)
    else
      var a, b := track.coordinates[0], track.coordinates[|track.coordinates| - 1];
      Point(a.lon + (b.lon - a.lon) * fraction, a.lat + (b.lat - a.lat) * fraction)
  }

  function Part(distance: real, fraction: real): real {
    distance * fraction
  }

  /** `_project_to_segment` on the earth. */
  function GroundOf(e: Earth): Ground {
    Ground(FractionAlong, PointAlong, Part, e.distance)
  }

  lemma EarthIsGround(e: Earth)
    requires IsEarth(e)
    ensures IsGround(GroundOf(e))
  {
    forall d, f | d >= 0.0 && 0.0 <= f <= 1.0 ensures 0.0 <= Part(d, f) <= d {
      FractionOf(d, f);
    }
  }

  lemma FractionOf(d: real, f: real)
    requires d >= 0.0 && 0.0 <= f <= 1.0
    ensures 0.0 <= Part(d, f) <= d
  {
    assert d - Part(d, f) == d * (1.0 - f);
  }

  // ---- what the projection means -------------------------------------------------------------------------

  function First(track: Track): Point
    requires track.coordinates != []
  {
    track.coordinates[0]
  }

  function Last(track: Track): Point
    requires track.coordinates != []
  {
    track.coordinates[|track.coordinates| - 1]
  }

  /** The point that divides the straight line from `a` to `b` at `f`. */
  function Between(a: Point, b: Point, f: real): Point {
    Point((1.0 - f) * a.lon + f * b.lon, (1.0 - f) * a.lat + f * b.lat)
  }

  /** How far `at` is from the point at each place of the line, squared. */
  function Gap(at: Point, a: Point, b: Point): real -> real {
    f => Squared(at, Between(a, b, f))
  }

  ghost predicate IsLeast(gap: real -> real, f: real) {
    0.0 <= f <= 1.0 && forall x | 0.0 <= x <= 1.0 :: gap(f) <= gap(x)
  }

  /** Among all points of the line from `a` to `b`, the one at `f` is nearest to `at`; on a line of no
      length, `f` is zero. */
  ghost predicate IsFoot(at: Point, a: Point, b: Point, f: real) {
    IsLeast(Gap(at, a, b), f) && (a == b ==> f == 0.0)
  }

  lemma SquareOfDifference(w: real, u: real, f: real, d: real)
    requires w == u - f * d
    ensures w * w == u * u - 2.0 * f * (u * d) + f * f * (d * d)
  {
  }

  lemma WayAlong(x: real, a: real, b: real, f: real)
    ensures x - ((1.0 - f) * a + f * b) == (x - a) - f * (b - a)
  {
  }

  /** One coordinate of the squared distance to a point of the line. */
  lemma AxisAlong(x: real, a: real, b: real, f: real, ww: real, uu: real, ud: real, dd: real)
    requires ww == (x - ((1.0 - f) * a + f * b)) * (x - ((1.0 - f) * a + f * b))
    requires uu == (x - a) * (x - a) && ud == (x - a) * (b - a) && dd == (b - a) * (b - a)
    ensures ww == uu - 2.0 * f * ud + f * f * dd
  {
    WayAlong(x, a, b, f);
    SquareOfDifference(x - ((1.0 - f) * a + f * b), x - a, f, b - a);
  }

  lemma AxesAddUp(f: real, w1: real, w2: real, u1: real, u2: real, p1: real, p2: real, d1: real, d2: real,
      w: real, u: real, p: real, d: real)
    requires w1 == u1 - 2.0 * f * p1 + f * f * d1 && w2 == u2 - 2.0 * f * p2 + f * f * d2
    requires w == w1 + w2 && u == u1 + u2 && p == p1 + p2 && d == d1 + d2
    ensures w == u - 2.0 * f * p + f * f * d
  {
  }

  lemma SquaredAlong(at: Point, a: Point, b: Point, f: real)
    ensures Squared(at, Between(a, b, f)) == Squared(at, a) - 2.0 * f * Dot(at, a, b) + f * f * Squared(b, a)
  {
    var w := Between(a, b, f);
    var w1, w2, u1, u2 := Way2(at.lon, w.lon), Way2(at.lat, w.lat), Way2(at.lon, a.lon), Way2(at.lat, a.lat);
    var p1, p2, d1, d2 := Ways(at.lon, a.lon, b.lon), Ways(at.lat, a.lat, b.lat), Way2(b.lon, a.lon),
      Way2(b.lat, a.lat);
    AxisAlong(at.lon, a.lon, b.lon, f, w1, u1, p1, d1);
    AxisAlong(at.lat, a.lat, b.lat, f, w2, u2, p2, d2);
    AxesAddUp(f, w1, w2, u1, u2, p1, p2, d1, d2, Squared(at, w), Squared(at, a), Dot(at, a, b), Squared(b, a));
  }

  lemma FactorsOut(s: real, x: real, c: real, q: real)
    ensures (x * x * s - 2.0 * x * (q * s)) - (c * c * s - 2.0 * c * (q * s)) == s * ((x - c) * (x + c - 2.0 * q))
  {
    assert (x - c) * (x + c - 2.0 * q) == x * x - c * c - 2.0 * x * q + 2.0 * c * q;
  }

  /** Going from `c` to `x` along the line moves the squared distance by this much. */
  lemma GapGrows(gc: real, gx: real, uu: real, dot: real, s: real, c: real, x: real, q: real)
    requires dot == q * s
    requires gc == uu - 2.0 * c * dot + c * c * s && gx == uu - 2.0 * x * dot + x * x * s
    ensures gx - gc == s * ((x - c) * (x + c - 2.0 * q))
  {
    FactorsOut(s, x, c, q);
  }

  lemma PositiveProduct(x: real, y: real, xy: real)
    requires xy == x * y && x > 0.0 && y > 0.0
    ensures xy > 0.0
  {
  }

  lemma NegativeProduct(x: real, y: real, xy: real)
    requires xy == x * y && x < 0.0 && y < 0.0
    ensures xy > 0.0
  {
  }

  lemma NonZeroSquare(x: real, y: real, xy: real)
    requires xy == x * y && x == y && x != 0.0
    ensures xy > 0.0
  {
    if x > 0.0 {
      PositiveProduct(x, y, xy);
    } else {
      NegativeProduct(x, y, xy);
    }
  }

  lemma ZeroProduct(x: real, y: real, xy: real)
    requires xy == x * y && x == 0.0
    ensures xy == 0.0
  {
  }

  lemma Square(x: real, y: real, xy: real)
    requires xy == x * y && x == y
    ensures xy >= 0.0
    ensures xy == 0.0 <==> x == 0.0
  {
    if x != 0.0 {
      NonZeroSquare(x, y, xy);
    } else {
      ZeroProduct(x, y, xy);
    }
  }

  lemma SumOfSquares(x: real, y: real, sum: real)
    requires sum == x * x + y * y
    ensures sum >= 0.0
    ensures sum == 0.0 <==> x == 0.0 && y == 0.0
  {
    Square(x, x, x * x);
    Square(y, y, y * y);
  }

  lemma SquaredIsPositive(a: Point, b: Point)
    ensures Squared(b, a) >= 0.0
    ensures Squared(b, a) == 0.0 <==> a == b
  {
    SumOfSquares(b.lon - a.lon, b.lat - a.lat, Squared(b, a));
  }

  lemma BelowIsLeast(q: real, x: real, xy: real)
    requires 0.0 <= x && q < 0.0 && xy == x * (x - 2.0 * q)
    ensures xy >= 0.0 && (xy == 0.0 ==> x == 0.0)
  {
    if x > 0.0 {
      PositiveProduct(x, x - 2.0 * q, xy);
    }
  }

  lemma AboveIsLeast(q: real, x: real, xy: real)
    requires x <= 1.0 && q > 1.0 && xy == (x - 1.0) * (x + 1.0 - 2.0 * q)
    ensures xy >= 0.0 && (xy == 0.0 ==> x == 1.0)
  {
    if x < 1.0 {
      NegativeProduct(x - 1.0, x + 1.0 - 2.0 * q, xy);
    }
  }

  /** Clamping is the nearest there is within the bounds. */
  lemma ClampIsNearest(q: real, x: real, xy: real)
    requires 0.0 <= x <= 1.0 && xy == (x - Clamp(q)) * (x + Clamp(q) - 2.0 * q)
    ensures xy >= 0.0 && (xy == 0.0 ==> x == Clamp(q))
  {
    if q < 0.0 {
      BelowIsLeast(q, x, xy);
    } else if q > 1.0 {
      AboveIsLeast(q, x, xy);
    } else {
      Square(x - q, x + q - 2.0 * q, xy);
    }
  }

  lemma ProductSign(s: real, x: real, sx: real)
    requires s > 0.0 && x >= 0.0 && sx == s * x
    ensures sx >= 0.0 && (sx == 0.0 ==> x == 0.0)
  {
    if x > 0.0 {
      PositiveProduct(s, x, sx);
    } else {
      ZeroProduct(x, s, sx);
    }
  }

  lemma ClampIsLeast(gc: real, gx: real, uu: real, dot: real, s: real, q: real, x: real)
    requires s > 0.0 && dot == q * s && 0.0 <= x <= 1.0
    requires gc == uu - 2.0 * Clamp(q) * dot + Clamp(q) * Clamp(q) * s && gx == uu - 2.0 * x * dot + x * x * s
    ensures gc <= gx && (gc == gx ==> x == Clamp(q))
  {
    var xy := (x - Clamp(q)) * (x + Clamp(q) - 2.0 * q);
    GapGrows(gc, gx, uu, dot, s, Clamp(q), x, q);
    ClampIsNearest(q, x, xy);
    ProductSign(s, xy, gx - gc);
  }

  lemma Divided(d: real, s: real)
    requires s != 0.0
    ensures d == d / s * s
  {
  }

  /** On a line of some length, the clamped quotient is nearer than every other. */
  lemma QuotientIsLeast(at: Point, a: Point, b: Point, q: real, x: real)
    requires a != b && 0.0 <= x <= 1.0 && Dot(at, a, b) == q * Squared(b, a)
    ensures Squared(at, Between(a, b, Clamp(q))) <= Squared(at, Between(a, b, x))
    ensures Squared(at, Between(a, b, Clamp(q))) == Squared(at, Between(a, b, x)) ==> x == Clamp(q)
  {
    SquaredIsPositive(a, b);
    SquaredAlong(at, a, b, Clamp(q));
    SquaredAlong(at, a, b, x);
    ClampIsLeast(Squared(at, Between(a, b, Clamp(q))), Squared(at, Between(a, b, x)), Squared(at, a), Dot(at, a, b),
      Squared(b, a), q, x);
  }

  lemma FractionIs(at: Point, track: Track) returns (q: real)
    requires track.coordinates != [] && First(track) != Last(track)
    ensures Dot(at, First(track), Last(track)) == q * Squared(Last(track), First(track))
    ensures FractionAlong(at, track) == Clamp(q)
  {
    SquaredIsPositive(First(track), Last(track));
    q := Dot(at, First(track), Last(track)) / Squared(Last(track), First(track));
    Divided(Dot(at, First(track), Last(track)), Squared(Last(track), First(track)));
  }

  /** On a line of some length, the fraction computed is nearer than every other. */
  lemma FractionIsLeast(at: Point, track: Track, gap: real -> real, x: real)
    requires track.coordinates != [] && First(track) != Last(track) && 0.0 <= x <= 1.0
    requires gap == Gap(at, First(track), Last(track))
    ensures gap(FractionAlong(at, track)) <= gap(x)
    ensures gap(FractionAlong(at, track)) == gap(x) ==> x == FractionAlong(at, track)
  {
    var q := FractionIs(at, track);
    QuotientIsLeast(at, First(track), Last(track), q, x);
  }

  lemma Mixed(a: real, b: real, f: real, x: real)
    requires x == a + (b - a) * f
    ensures x == (1.0 - f) * a + f * b
  {
  }

  lemma PlaceIsBetween(track: Track, f: real)
    requires track.coordinates != []
    ensures PointAlong(track, f) == Between(First(track), Last(track), f)
  {
    var place := PointAlong(track, f);
    Mixed(First(track).lon, Last(track).lon, f, place.lon);
    Mixed(First(track).lat, Last(track).lat, f, place.lat);
  }

  lemma EndsAreBetween(a: Point, b: Point)
    ensures Between(a, b, 0.0) == a && Between(a, b, 1.0) == b
  {
  }

  lemma NowhereElse(at: Point, a: Point, f: real)
    ensures Between(a, a, f) == a && Gap(at, a, a)(f) == Squared(at, a)
  {
    Mixed(a.lon, a.lon, f, a.lon);
    Mixed(a.lat, a.lat, f, a.lat);
  }

  lemma FractionWithin(at: Point, track: Track)
    requires track.coordinates != []
    ensures 0.0 <= FractionAlong(at, track) <= 1.0
    ensures First(track) == Last(track) ==> FractionAlong(at, track) == 0.0
  {
    SquaredIsPositive(First(track), Last(track));
  }

  /** The fraction computed is the foot of the passenger on the segment, and there is no other. */
  lemma FractionIsFoot(at: Point, track: Track)
    requires track.coordinates != []
    ensures IsFoot(at, First(track), Last(track), FractionAlong(at, track))
  {
    var a, b, c := First(track), Last(track), FractionAlong(at, track);
    var gap := Gap(at, a, b);
    FractionWithin(at, track);
    forall x | 0.0 <= x <= 1.0 ensures gap(c) <= gap(x) {
      if a != b {
        FractionIsLeast(at, track, gap, x);
      } else {
        NowhereElse(at, a, c);
        NowhereElse(at, a, x);
      }
    }
  }

  lemma FootUnique(at: Point, track: Track, f: real)
    requires track.coordinates != [] && IsFoot(at, First(track), Last(track), f)
    ensures f == FractionAlong(at, track)
  {
    var gap, c := Gap(at, First(track), Last(track)), FractionAlong(at, track);
    FractionWithin(at, track);
    if First(track) != Last(track) {
      FractionIsLeast(at, track, gap, f);
      assert gap(f) <= gap(c);
    }
  }

  function OffTrack(g: Ground, at: Point, track: Track): real {
    g.distance(at, g.place(track, g.along(at, track)))
  }

  /** The first of the first `n` tracks that is nearest. */
  function Nearest(g: Ground, at: Point, tracks: seq<Track>, n: nat): (k: nat)
    requires 0 < n <= |tracks|
    ensures k < n
    ensures forall i | 0 <= i < n :: OffTrack(g, at, tracks[k]) <= OffTrack(g, at, tracks[i])
    ensures forall i | 0 <= i < k :: OffTrack(g, at, tracks[k]) < OffTrack(g, at, tracks[i])
  {
    if n == 1 then 0
    else
      var k := Nearest(g, at, tracks, n - 1);
      if OffTrack(g, at, tracks[n - 1]) < OffTrack(g, at, tracks[k]) then n - 1 else k
  }

  /** `project_location_to_segments`. */
  function Project(g: Ground, at: Point, tracks: seq<Track>): Position
    requires tracks != []
  {
    PositionOn(g, at, tracks[Nearest(g, at, tracks, |tracks|)])
  }

  function PositionOn(g: Ground, at: Point, track: Track): Position {
    var fraction := g.along(at, track);
    Position(track.sequence, g.place(track, fraction), OffTrack(g, at, track),
      track.cumulative - track.distance + g.part(track.distance, fraction))
  }

  /** The position is the foot `f` on `track`: its point, its distance off the route, and a cumulative
      distance that grows evenly from the start of the segment to its end. */
  ghost predicate IsPosition(e: Earth, at: Point, track: Track, f: real, pos: Position)
    requires track.coordinates != []
  {
    && IsFoot(at, First(track), Last(track), f)
    && pos.sequence == track.sequence
    && pos.point == Between(First(track), Last(track), f)
    && pos.offRoute == e.distance(at, pos.point)
    && pos.cumulative == track.cumulative - (1.0 - f) * track.distance
  }

  /** Nothing of track `i` is nearer to the passenger than the position, as measured at its foot. */
  ghost predicate NoNearer(e: Earth, at: Point, track: Track, pos: Position)
    requires track.coordinates != []
  {
    forall x | IsFoot(at, First(track), Last(track), x) ::
      pos.offRoute <= e.distance(at, Between(First(track), Last(track), x))
  }

  lemma OffTrackIsAtFoot(e: Earth, at: Point, track: Track, x: real)
    requires track.coordinates != [] && IsFoot(at, First(track), Last(track), x)
    ensures OffTrack(GroundOf(e), at, track) == e.distance(at, Between(First(track), Last(track), x))
  {
    FootUnique(at, track, x);
    PlaceIsBetween(track, x);
  }

  lemma PartIsEven(cumulative: real, distance: real, f: real, at: real)
    requires at == cumulative - distance + distance * f
    ensures at == cumulative - (1.0 - f) * distance
  {
  }

  /** The position on a segment is at its foot. */
  lemma PlacedAtFoot(e: Earth, at: Point, track: Track)
    requires track.coordinates != []
    ensures IsPosition(e, at, track, FractionAlong(at, track), PositionOn(GroundOf(e), at, track))
  {
    var f := FractionAlong(at, track);
    FractionIsFoot(at, track);
    PlaceIsBetween(track, f);
    PartIsEven(track.cumulative, track.distance, f, PositionOn(GroundOf(e), at, track).cumulative);
  }

  lemma NearestIsNoNearer(e: Earth, at: Point, track: Track, pos: Position)
    requires track.coordinates != [] && pos.offRoute <= OffTrack(GroundOf(e), at, track)
    ensures NoNearer(e, at, track, pos)
  {
    forall x | IsFoot(at, First(track), Last(track), x)
      ensures pos.offRoute <= e.distance(at, Between(First(track), Last(track), x))
    {
      OffTrackIsAtFoot(e, at, track, x);
    }
  }

  /** A passenger is placed at the foot on some segment, such that no other segment's foot is nearer. */
  lemma ProjectionIsNearestFoot(e: Earth, at: Point, tracks: seq<Track>)
    requires Drawn(tracks) && tracks != []
    ensures var pos := Project(GroundOf(e), at, tracks);
      && (forall i | 0 <= i < |tracks| :: NoNearer(e, at, tracks[i], pos))
      && exists k, f :: 0 <= k < |tracks| && IsPosition(e, at, tracks[k], f, pos)
  {
    var g, pos := GroundOf(e), Project(GroundOf(e), at, tracks);
    var k := Nearest(g, at, tracks, |tracks|);
    PlacedAtFoot(e, at, tracks[k]);
    forall i | 0 <= i < |tracks| ensures NoNearer(e, at, tracks[i], pos) {
      assert OffTrack(g, at, tracks[k]) <= OffTrack(g, at, tracks[i]);
      NearestIsNoNearer(e, at, tracks[i], pos);
    }
  }

  // ---- six decimals --------------------------------------------------------------------------------------

  /** Rounding to the nearest integer, ties to even. */
  function RoundEven(x: real): int {
    var low := x.Floor;
    if x - low as real < 0.5 then low
    else if x - low as real > 0.5 then low + 1
    else if low % 2 == 0 then low else low + 1
  }

  function Round6(x: real): real {
    RoundEven(x * 1000000.0) as real / 1000000.0
  }

  lemma RoundsNear(x: real)
    ensures -0.0000005 <= Round6(x) - x <= 0.0000005
  {
  }

  /** The nearest whole number, and of two equally near the even one. */
  lemma RoundsToEven(x: real)
    ensures -0.5 <= RoundEven(x) as real - x <= 0.5
    ensures RoundEven(x) as real - x == 0.5 || RoundEven(x) as real - x == -0.5 ==> RoundEven(x) % 2 == 0
  {
  }

  // ---- the budget ----------------------------------------------------------------------------------------

  function Min(a: real, b: real): real {
    if a <= b then a else b
  }

  function Max(a: real, b: real): real {
    if a >= b then a else b
  }

  ghost predicate NonNegative(xs: seq<real>) {
    forall i | 0 <= i < |xs| :: xs[i] >= 0.0
  }

  /** One distance cut to the budget, and the budget after it. */
  function CutTo(x: real, budget: Option<real>): real {
    if budget.None? then x else Min(x, budget.value)
  }

  function Less(x: real, budget: Option<real>): Option<real> {
    if budget.None? then None else Some(budget.value - CutTo(x, budget))
  }

  predicate UsedUp(budget: Option<real>) {
    budget.Some? && budget.value <= 0.0
  }

  /** The distances taken from index `k` on until the budget is used up. */
  function TakenFrom(xs: seq<real>, k: nat, budget: Option<real>): (taken: seq<real>)
    requires k <= |xs|
    ensures |taken| <= |xs| - k
    decreases |xs| - k
  {
    if k == |xs| || UsedUp(budget) then [] else [CutTo(xs[k], budget)] + TakenFrom(xs, k + 1, Less(xs[k], budget))
  }

  function SumFrom(xs: seq<real>, k: nat): real
    requires k <= |xs|
    decreases |xs| - k
  {
    if k == |xs| then 0.0 else xs[k] + SumFrom(xs, k + 1)
  }

  function Sum(xs: seq<real>): real {
    SumFrom(xs, 0)
  }

  function Taken(xs: seq<real>, budget: Option<real>): (taken: seq<real>)
    ensures |taken| <= |xs|
  {
    TakenFrom(xs, 0, budget)
  }

  lemma {:induction false} SumShift(xs: seq<real>, x: real, k: nat)
    requires k <= |xs|
    ensures SumFrom([x] + xs, k + 1) == SumFrom(xs, k)
    decreases |xs| - k
  {
    if k < |xs| {
      SumShift(xs, x, k + 1);
    }
  }

  lemma SumCons(x: real, xs: seq<real>)
    ensures Sum([x] + xs) == x + Sum(xs)
  {
    SumShift(xs, x, 0);
  }

  lemma {:induction false} TakenFromSum(xs: seq<real>, k: nat, budget: Option<real>)
    requires NonNegative(xs) && k <= |xs|
    ensures SumFrom(xs, k) >= 0.0
    ensures Sum(TakenFrom(xs, k, budget)) == if budget.None? then SumFrom(xs, k)
      else Max(0.0, Min(budget.value, SumFrom(xs, k)))
    decreases |xs| - k
  {
    if k < |xs| {
      TakenFromSum(xs, k + 1, Less(xs[k], budget));
      SumCons(CutTo(xs[k], budget), TakenFrom(xs, k + 1, Less(xs[k], budget)));
    }
  }

  /** Conservation: what is taken adds up to the budget, or to everything there is. */
  lemma TakenSum(xs: seq<real>, budget: Option<real>)
    requires NonNegative(xs)
    ensures Sum(xs) >= 0.0
    ensures Sum(Taken(xs, budget)) == if budget.None? then Sum(xs) else Max(0.0, Min(budget.value, Sum(xs)))
  {
    TakenFromSum(xs, 0, budget);
  }

  function At(xs: seq<real>, k: nat, i: nat): real
    requires k + i < |xs|
  {
    xs[k + i]
  }

  lemma {:induction false} TakenFromPrefix(xs: seq<real>, k: nat, budget: Option<real>)
    requires NonNegative(xs) && k <= |xs|
    ensures var taken := TakenFrom(xs, k, budget);
      && (forall i | 0 <= i < |taken| :: 0.0 <= taken[i] <= At(xs, k, i))
      && (forall i | 0 <= i < |taken| - 1 :: taken[i] == At(xs, k, i))
    decreases |xs| - k
  {
    if k < |xs| && !UsedUp(budget) {
      var taken, rest := TakenFrom(xs, k, budget), TakenFrom(xs, k + 1, Less(xs[k], budget));
      TakenFromPrefix(xs, k + 1, Less(xs[k], budget));
      assert rest != [] ==> CutTo(xs[k], budget) == xs[k];
      forall i | 0 <= i < |taken|
        ensures 0.0 <= taken[i] <= At(xs, k, i) && (i < |taken| - 1 ==> taken[i] == At(xs, k, i))
      {
        if i > 0 {
          assert taken[i] == rest[i - 1] && At(xs, k, i) == At(xs, k + 1, i - 1);
        }
      }
    }
  }

  /** Only the last distance taken is cut. */
  lemma TakenPrefix(xs: seq<real>, budget: Option<real>)
    requires NonNegative(xs)
    ensures forall i | 0 <= i < |Taken(xs, budget)| :: 0.0 <= Taken(xs, budget)[i] <= xs[i]
    ensures forall i | 0 <= i < |Taken(xs, budget)| - 1 :: Taken(xs, budget)[i] == xs[i]
  {
    TakenFromPrefix(xs, 0, budget);
    forall i | 0 <= i < |Taken(xs, budget)| ensures At(xs, 0, i) == xs[i] {
    }
  }

  // ---- the two selections ----------------------------------------------------------------------------------

  /** A track, how much of it is selected, and the distance travelled at its end. */
  datatype Pick = Pick(track: Track, distance: real, cumulative: real)

  /** The first tracks, one per distance taken. */
  function Cut(tracks: seq<Track>, taken: seq<real>, marks: seq<real>): (out: seq<Pick>)
    requires |taken| <= |tracks| == |marks|
    ensures |out| == |taken| && forall i | 0 <= i < |out| :: out[i] == Pick(tracks[i], taken[i], marks[i])
  {
    seq(|taken|, i requires 0 <= i < |taken| => Pick(tracks[i], taken[i], marks[i]))
  }

  function Midpoint(coordinates: seq<Point>): Point
    requires coordinates != []
  {
    var a, b := coordinates[0], coordinates[|coordinates| - 1];
    Point((a.lon + b.lon) / 2.0, (a.lat + b.lat) / 2.0)
  }

  /** A selected segment as advice sees it. */
  function Ready(pick: Pick): AdviceSegment
    requires pick.track.coordinates != []
  {
    AdviceSegment(pick.track.publicId, pick.track.sequence, Midpoint(pick.track.coordinates), pick.track.bearing,
      Round6(pick.distance), Round6(pick.cumulative))
  }

  function AllReady(picks: seq<Pick>): (out: seq<AdviceSegment>)
    requires forall i | 0 <= i < |picks| :: picks[i].track.coordinates != []
    ensures |out| == |picks| && forall i | 0 <= i < |picks| :: out[i] == Ready(picks[i])
  {
    seq(|picks|, i requires 0 <= i < |picks| => Ready(picks[i]))
  }

  function Distances(tracks: seq<Track>): (xs: seq<real>)
    ensures |xs| == |tracks| && forall i | 0 <= i < |tracks| :: xs[i] == tracks[i].distance
  {
    seq(|tracks|, i requires 0 <= i < |tracks| => tracks[i].distance)
  }

  function Cumulatives(tracks: seq<Track>): (xs: seq<real>)
    ensures |xs| == |tracks| && forall i | 0 <= i < |tracks| :: xs[i] == tracks[i].cumulative
  {
    seq(|tracks|, i requires 0 <= i < |tracks| => tracks[i].cumulative)
  }

  /** The tracks from sequence `s` on. */
  function Ahead(tracks: seq<Track>, s: int): seq<Track> {
    if tracks == [] then []
    else if tracks[|tracks| - 1].sequence < s then Ahead(tracks[..|tracks| - 1], s)
    else Ahead(tracks[..|tracks| - 1], s) + [tracks[|tracks| - 1]]
  }

  /** How much of each track ahead is still ahead of the position. */
  function Available(ahead: seq<Track>, at: Position): (xs: seq<real>)
    ensures |xs| == |ahead|
    ensures forall i | 0 <= i < |ahead| :: xs[i] == if i == 0 then Max(0.0, ahead[0].cumulative - at.cumulative)
      else ahead[i].distance
  {
    seq(|ahead|, i requires 0 <= i < |ahead| => if i == 0 then Max(0.0, ahead[0].cumulative - at.cumulative)
      else ahead[i].distance)
  }

  function Marks(ahead: seq<Track>, at: Position): (xs: seq<real>)
    ensures |xs| == |ahead|
    ensures forall i | 0 <= i < |ahead| :: xs[i] == if i == 0 then at.cumulative + Available(ahead, at)[0]
      else ahead[i].cumulative
  {
    seq(|ahead|, i requires 0 <= i < |ahead| => if i == 0 then at.cumulative + Available(ahead, at)[0]
      else ahead[i].cumulative)
  }

  /** What `segments_after_projection` selects. The cumulative of the first is not adjusted when the
      budget cuts it. */
  function After(tracks: seq<Track>, at: Position, budget: Option<real>): seq<Pick> {
    var ahead := Ahead(tracks, at.sequence);
    Cut(ahead, Taken(Available(ahead, at), budget), Marks(ahead, at))
  }

  /** What `_segments_from_direction_start` selects. */
  function FromStart(tracks: seq<Track>, budget: Option<real>): seq<Pick> {
    Cut(tracks, Taken(Distances(tracks), budget), Cumulatives(tracks))
  }

  /** One more distance taken. */
  lemma {:induction false} TakeOne(xs: seq<real>, exact: seq<real>, budget: Option<real>, remaining: Option<real>)
    requires |exact| < |xs| && !UsedUp(remaining)
    requires Taken(xs, budget) == exact + TakenFrom(xs, |exact|, remaining)
    ensures var x := xs[|exact|];
      Taken(xs, budget) == exact + [CutTo(x, remaining)] + TakenFrom(xs, |exact| + 1, Less(x, remaining))
  {
  }

  lemma {:induction false} TakeNoMore(xs: seq<real>, exact: seq<real>, budget: Option<real>, remaining: Option<real>)
    requires |exact| <= |xs| && (|exact| == |xs| || UsedUp(remaining))
    requires Taken(xs, budget) == exact + TakenFrom(xs, |exact|, remaining)
    ensures Taken(xs, budget) == exact
  {
  }

  /** The first `|exact|` picks, ready for advice. */
  ghost predicate Picked(selected: seq<AdviceSegment>, tracks: seq<Track>, exact: seq<real>, marks: seq<real>)
    requires Drawn(tracks)
  {
    |selected| == |exact| <= |tracks| == |marks| && forall k | 0 <= k < |exact| ::
      selected[k] == Ready(Pick(tracks[k], exact[k], marks[k]))
  }

  lemma PickOne(selected: seq<AdviceSegment>, tracks: seq<Track>, exact: seq<real>, marks: seq<real>, distance: real)
    requires Drawn(tracks) && Picked(selected, tracks, exact, marks) && |exact| < |tracks|
    ensures Picked(selected + [Ready(Pick(tracks[|exact|], distance, marks[|exact|]))], tracks, exact + [distance],
      marks)
  {
  }

  /** One more distance taken and one more segment picked. */
  lemma {:induction false} SelectOne(xs: seq<real>, exact: seq<real>, budget: Option<real>, remaining: Option<real>,
    selected: seq<AdviceSegment>, tracks: seq<Track>, marks: seq<real>)
    requires Drawn(tracks) && Picked(selected, tracks, exact, marks) && |exact| < |xs| == |tracks| && !UsedUp(remaining)
    requires Taken(xs, budget) == exact + TakenFrom(xs, |exact|, remaining)
    ensures var x := xs[|exact|]; var cut := CutTo(x, remaining);
      && Taken(xs, budget) == exact + [cut] + TakenFrom(xs, |exact| + 1, Less(x, remaining))
      && Picked(selected + [Ready(Pick(tracks[|exact|], cut, marks[|exact|]))], tracks, exact + [cut], marks)
  {
    TakeOne(xs, exact, budget, remaining);
    PickOne(selected, tracks, exact, marks, CutTo(xs[|exact|], remaining));
  }

  lemma PickedIsCut(selected: seq<AdviceSegment>, tracks: seq<Track>, exact: seq<real>, marks: seq<real>)
    requires Drawn(tracks) && Picked(selected, tracks, exact, marks)
    ensures selected == AllReady(Cut(tracks, exact, marks))
  {
  }

  /** `_segments_from_direction_start`. */
  method SegmentsFromStart(tracks: seq<Track>, budget: Option<real>) returns (selected: seq<AdviceSegment>)
    requires Drawn(tracks)
    ensures selected == AllReady(FromStart(tracks, budget))
  {
    var remaining := budget;
    ghost var xs, marks, exact: seq<real> := Distances(tracks), Cumulatives(tracks), [];
    selected := [];
    var i := 0;
    while i < |tracks| && !UsedUp(remaining)
      invariant |exact| == i <= |tracks| && Taken(xs, budget) == exact + TakenFrom(xs, i, remaining)
      invariant Picked(selected, tracks, exact, marks)
    {
      TakeOne(xs, exact, budget, remaining);
      var distance := CutTo(tracks[i].distance, remaining);
      PickOne(selected, tracks, exact, marks, distance);
      remaining := Less(tracks[i].distance, remaining);
      selected := selected + [Ready(Pick(tracks[i], distance, tracks[i].cumulative))];
      exact := exact + [distance];
      i := i + 1;
    }
    TakeNoMore(xs, exact, budget, remaining);
    PickedIsCut(selected, tracks, exact, marks);
  }

  lemma {:induction false} AheadAt(tracks: seq<Track>, s: int, i: nat)
    requires i <= |tracks|
    ensures |Ahead(tracks[..i], s)| <= |Ahead(tracks, s)|
    ensures i < |tracks| && tracks[i].sequence >= s ==>
      && |Ahead(tracks[..i], s)| < |Ahead(tracks, s)| && Ahead(tracks, s)[|Ahead(tracks[..i], s)|] == tracks[i]
      && Ahead(tracks[..i + 1], s) == Ahead(tracks[..i], s) + [tracks[i]]
    ensures i < |tracks| && tracks[i].sequence < s ==> Ahead(tracks[..i + 1], s) == Ahead(tracks[..i], s)
    decreases |tracks|
  {
    if i == |tracks| {
      assert tracks[..i] == tracks;
    } else {
      assert tracks[..i + 1][..i] == tracks[..i];
      var init := tracks[..|tracks| - 1];
      assert init[..i] == tracks[..i];
      AheadAt(init, s, i);
      if i == |tracks| - 1 {
        assert init == tracks[..i];
      }
    }
  }

  lemma {:induction false} AheadDrawn(tracks: seq<Track>, s: int)
    requires Drawn(tracks)
    ensures Drawn(Ahead(tracks, s))
  {
    if tracks != [] {
      AheadDrawn(tracks[..|tracks| - 1], s);
    }
  }

  /** `segments_after_projection`. */
  method SegmentsAfter(tracks: seq<Track>, at: Position, budget: Option<real>) returns (selected: seq<AdviceSegment>)
    requires Drawn(tracks)
    ensures Drawn(Ahead(tracks, at.sequence)) && selected == AllReady(After(tracks, at, budget))
  {
    var remaining, started := budget, false;
    ghost var ahead := Ahead(tracks, at.sequence);
    ghost var xs, marks, exact: seq<real> := Available(ahead, at), Marks(ahead, at), [];
    AheadDrawn(tracks, at.sequence);
    selected := [];
    var i := 0;
    while i < |tracks|
      invariant i <= |tracks| && |exact| == |Ahead(tracks[..i], at.sequence)| <= |ahead| && (started <==> exact != [])
      invariant Taken(xs, budget) == exact + TakenFrom(xs, |exact|, remaining)
      invariant Picked(selected, ahead, exact, marks)
    {
      var track := tracks[i];
      AheadAt(tracks, at.sequence, i);
      if track.sequence >= at.sequence {
        var distance, cumulative := track.distance, track.cumulative;
        if !started {
          started := true;
          distance := Max(0.0, track.cumulative - at.cumulative);
          cumulative := at.cumulative + distance;
        }
        if UsedUp(remaining) {
          break;
        }
        assert ahead[|exact|] == track && xs[|exact|] == distance && marks[|exact|] == cumulative;
        SelectOne(xs, exact, budget, remaining, selected, ahead, marks);
        selected := selected + [Ready(Pick(track, CutTo(distance, remaining), cumulative))];
        exact := exact + [CutTo(distance, remaining)];
        remaining := Less(distance, remaining);
      }
      i := i + 1;
    }
    assert tracks[..|tracks|] == tracks;
    TakeNoMore(xs, exact, budget, remaining);
    PickedIsCut(selected, ahead, exact, marks);
  }

  // ---- on one route ----------------------------------------------------------------------------------------

  /** On a route, what is ahead of the projected segment is a contiguous run to the end. */
  lemma {:induction false} AheadIsRun(tracks: seq<Track>, k: nat)
    requires k < |tracks| && forall i, j | 0 <= i < j < |tracks| :: tracks[i].sequence < tracks[j].sequence
    ensures Ahead(tracks, tracks[k].sequence) == tracks[k..]
    decreases |tracks|
  {
    var init, last := tracks[..|tracks| - 1], tracks[|tracks| - 1];
    if k < |tracks| - 1 {
      AheadIsRun(init, k);
      assert tracks[k..] == init[k..] + [last];
    } else {
      NoneAhead(init, last.sequence);
      assert tracks[k..] == [last];
    }
  }

  lemma {:induction false} NoneAhead(tracks: seq<Track>, s: int)
    requires forall i | 0 <= i < |tracks| :: tracks[i].sequence < s
    ensures Ahead(tracks, s) == []
  {
    if tracks != [] {
      NoneAhead(tracks[..|tracks| - 1], s);
    }
  }

  lemma {:induction false} RestSum(tracks: seq<Track>, k: nat, xs: seq<real>, j: nat)
    requires IsRoute(tracks) && k + j < |tracks| && |xs| == |tracks| - k
    requires forall i | 0 < i < |xs| :: xs[i] == tracks[k + i].distance
    ensures SumFrom(xs, j + 1) == tracks[|tracks| - 1].cumulative - tracks[k + j].cumulative
    decreases |tracks| - j
  {
    if k + j < |tracks| - 1 {
      RestSum(tracks, k, xs, j + 1);
      assert Before(tracks, k + j + 1) == tracks[k + j].cumulative;
    }
  }

  /** The projected distance is within its segment. */
  lemma {:induction false} ProjectedWithin(g: Ground, at: Point, tracks: seq<Track>)
    requires IsGround(g) && IsRoute(tracks) && tracks != []
    ensures var k, pos := Nearest(g, at, tracks, |tracks|), Project(g, at, tracks);
      && pos.sequence == tracks[k].sequence
      && tracks[k].cumulative - tracks[k].distance <= pos.cumulative <= tracks[k].cumulative
  {
    var track := tracks[Nearest(g, at, tracks, |tracks|)];
    assert 0.0 <= g.part(track.distance, g.along(at, track)) <= track.distance;
  }

  /** From a position within segment `k`, what is left of the route. */
  lemma {:induction false} RestOfRoute(tracks: seq<Track>, k: nat, pos: Position)
    requires IsRoute(tracks) && k < |tracks| && pos.sequence == tracks[k].sequence
    requires tracks[k].cumulative - tracks[k].distance <= pos.cumulative <= tracks[k].cumulative
    ensures Ahead(tracks, pos.sequence) == tracks[k..]
    ensures NonNegative(Available(tracks[k..], pos))
    ensures Sum(Available(tracks[k..], pos)) == tracks[|tracks| - 1].cumulative - pos.cumulative
  {
    AheadIsRun(tracks, k);
    RestSum(tracks, k, Available(tracks[k..], pos), 0);
  }

  /** Horizon conservation: from where the passenger is, the unrounded distances of the selected
      segments add up to the budget or to the rest of the route, whichever is less; they are the
      projected segment and those after it, and only the last is cut. */
  lemma {:induction false} HorizonConserved(g: Ground, at: Point, tracks: seq<Track>, budget: Option<real>)
    requires IsGround(g) && IsRoute(tracks) && tracks != []
    ensures var k, pos := Nearest(g, at, tracks, |tracks|), Project(g, at, tracks);
      var xs := Available(tracks[k..], pos);
      var rest := tracks[|tracks| - 1].cumulative - pos.cumulative;
      && After(tracks, pos, budget) == Cut(tracks[k..], Taken(xs, budget), Marks(tracks[k..], pos))
      && Sum(Taken(xs, budget)) == (if budget.None? then rest else Max(0.0, Min(budget.value, rest)))
      && (forall i | 0 <= i < |Taken(xs, budget)| - 1 :: Taken(xs, budget)[i] == xs[i])
  {
    var k, pos := Nearest(g, at, tracks, |tracks|), Project(g, at, tracks);
    ProjectedWithin(g, at, tracks);
    RestOfRoute(tracks, k, pos);
    TakenSum(Available(tracks[k..], pos), budget);
    TakenPrefix(Available(tracks[k..], pos), budget);
  }

  function Rounded(xs: seq<real>): (ys: seq<real>)
    ensures |ys| == |xs| && forall i | 0 <= i < |xs| :: ys[i] == Round6(xs[i])
  {
    seq(|xs|, i requires 0 <= i < |xs| => Round6(xs[i]))
  }

  /** Lists that differ by at most `d` at every place have sums that differ by at most `d` per place. */
  lemma {:induction false} SumsNear(xs: seq<real>, ys: seq<real>, d: real, k: nat)
    requires |xs| == |ys| && k <= |xs| && forall i | 0 <= i < |xs| :: -d <= ys[i] - xs[i] <= d
    ensures -d * (|xs| - k) as real <= SumFrom(ys, k) - SumFrom(xs, k) <= d * (|xs| - k) as real
    decreases |xs| - k
  {
    if k < |xs| {
      SumsNear(xs, ys, d, k + 1);
      OneMore(d, |xs| - k);
    }
  }

  lemma OneMore(d: real, n: nat)
    requires n > 0
    ensures d * n as real == d * (n - 1) as real + d
  {
  }

  /** Rounding each distance moves the sum by at most half a unit of the sixth decimal per segment. */
  lemma RoundedSumNear(xs: seq<real>)
    ensures -0.0000005 * |xs| as real <= Sum(Rounded(xs)) - Sum(xs) <= 0.0000005 * |xs| as real
  {
    forall i | 0 <= i < |xs| ensures -0.0000005 <= Rounded(xs)[i] - xs[i] <= 0.0000005 {
      RoundsNear(xs[i]);
    }
    SumsNear(xs, Rounded(xs), 0.0000005, 0);
  }

  // ---- the start of the route --------------------------------------------------------------------------------

  /** The first segment is nearest to its own start, even where the route comes back to it. */
  lemma {:induction false} StartIsNearest(g: Ground, tracks: seq<Track>)
    requires IsGround(g) && IsRoute(tracks) && tracks != []
    ensures Nearest(g, tracks[0].coordinates[0], tracks, |tracks|) == 0
    ensures OffTrack(g, tracks[0].coordinates[0], tracks[0]) == 0.0
  {
  }

  /** A passenger exactly at the start is projected to it. */
  lemma StartProjects(g: Ground, tracks: seq<Track>)
    requires IsGround(g) && IsRoute(tracks) && tracks != []
    ensures Project(g, tracks[0].coordinates[0], tracks) == Position(tracks[0].sequence, tracks[0].coordinates[0],
      0.0, 0.0)
  {
    StartIsNearest(g, tracks);
    var start := tracks[0].coordinates[0];
    assert g.along(start, tracks[0]) == 0.0;
    assert g.place(tracks[0], 0.0) == start;
    assert tracks[0].cumulative == Before(tracks, 0) + tracks[0].distance;
    assert g.part(tracks[0].distance, 0.0) == 0.0;
  }

  lemma WholeRoute(tracks: seq<Track>, pos: Position)
    requires tracks != [] && tracks[0].cumulative == tracks[0].distance >= 0.0 && pos.cumulative == 0.0
    ensures Available(tracks, pos) == Distances(tracks) && Marks(tracks, pos) == Cumulatives(tracks)
  {
  }

  /** Nothing of the route lies behind its start. */
  lemma {:induction false} AllAhead(tracks: seq<Track>, pos: Position)
    requires IsRoute(tracks) && tracks != [] && pos.sequence == tracks[0].sequence && pos.cumulative == 0.0
    ensures Ahead(tracks, pos.sequence) == tracks
    ensures Available(tracks, pos) == Distances(tracks) && Marks(tracks, pos) == Cumulatives(tracks)
  {
    AheadIsRun(tracks, 0);
    assert tracks[0..] == tracks;
    assert tracks[0].cumulative == Before(tracks, 0) + tracks[0].distance;
    WholeRoute(tracks, pos);
  }

  /** From the start, the onboard selection is the preview selection. */
  lemma StartIsPreview(g: Ground, tracks: seq<Track>, budget: Option<real>)
    requires IsGround(g) && IsRoute(tracks) && tracks != []
    ensures After(tracks, Project(g, tracks[0].coordinates[0], tracks), budget) == FromStart(tracks, budget)
  {
    StartProjects(g, tracks);
    AllAhead(tracks, Project(g, tracks[0].coordinates[0], tracks));
  }

  // ---- what advice receives ----------------------------------------------------------------------------------

  function Lengths(segments: seq<AdviceSegment>): (xs: seq<real>)
    ensures |xs| == |segments| && forall i | 0 <= i < |segments| :: xs[i] == segments[i].distance
  {
    seq(|segments|, i requires 0 <= i < |segments| => segments[i].distance)
  }

  lemma ReadyLengths(tracks: seq<Track>, taken: seq<real>, marks: seq<real>)
    requires Drawn(tracks) && |taken| <= |tracks| == |marks|
    ensures Lengths(AllReady(Cut(tracks, taken, marks))) == Rounded(taken)
  {
  }

  lemma MidpointIsMidway(track: Track)
    requires track.coordinates != []
    ensures Midpoint(track.coordinates) == Between(First(track), Last(track), 0.5)
  {
  }

  /** A selected segment is that of the track, with the sun read halfway along its line, and its cumulative
      distance is the track's. */
  ghost predicate IsOf(segment: AdviceSegment, track: Track)
    requires track.coordinates != []
  {
    && segment.id == track.publicId && segment.sequence == track.sequence && segment.bearing == track.bearing
    && segment.midpoint == Between(First(track), Last(track), 0.5)
    && segment.cumulative == Round6(track.cumulative)
  }

  lemma ReadyIsOf(tracks: seq<Track>, k: nat, taken: seq<real>, marks: seq<real>)
    requires Drawn(tracks) && k <= |tracks| && |taken| <= |tracks| - k == |marks| && marks == Cumulatives(tracks[k..])
    ensures forall i | 0 <= i < |taken| :: IsOf(AllReady(Cut(tracks[k..], taken, marks))[i], tracks[k + i])
  {
    forall i | 0 <= i < |taken| ensures IsOf(AllReady(Cut(tracks[k..], taken, marks))[i], tracks[k + i]) {
      MidpointIsMidway(tracks[k + i]);
    }
  }

  /** Marks are not moved by a position on the segment. */
  lemma MarksWithin(tracks: seq<Track>, k: nat, pos: Position)
    requires k < |tracks| && pos.cumulative <= tracks[k].cumulative
    ensures Marks(tracks[k..], pos) == Cumulatives(tracks[k..])
  {
  }

  /** The rounded distances of what the budget takes are near it. */
  lemma RoundedTaken(xs: seq<real>, budget: Option<real>)
    requires NonNegative(xs) && (budget.Some? ==> budget.value >= 0.0)
    ensures var taken, covered := Taken(xs, budget), if budget.None? then Sum(xs) else Min(budget.value, Sum(xs));
      -0.0000005 * |taken| as real <= Sum(Rounded(taken)) - covered <= 0.0000005 * |taken| as real
  {
    TakenSum(xs, budget);
    RoundedSumNear(Taken(xs, budget));
  }

  /** A run of segments from number `k` on, in order, whose lengths add up to the budget or to `rest`,
      to within half a unit of the sixth decimal each. */
  ghost predicate Covers(selected: seq<AdviceSegment>, tracks: seq<Track>, k: nat, rest: real, budget: Option<real>)
    requires Drawn(tracks)
  {
    var covered := if budget.None? then rest else Min(budget.value, rest);
    && k + |selected| <= |tracks| && (forall i | 0 <= i < |selected| :: IsOf(selected[i], tracks[k + i]))
    && -0.0000005 * |selected| as real <= Sum(Lengths(selected)) - covered <= 0.0000005 * |selected| as real
  }

  lemma SelectedCovers(tracks: seq<Track>, k: nat, pos: Position, budget: Option<real>)
    requires Drawn(tracks) && k < |tracks| && NonNegative(Available(tracks[k..], pos))
      && pos.cumulative <= tracks[k].cumulative && (budget.Some? ==> budget.value >= 0.0)
    ensures var selected := AllReady(Cut(tracks[k..], Taken(Available(tracks[k..], pos), budget),
      Marks(tracks[k..], pos)));
      Covers(selected, tracks, k, Sum(Available(tracks[k..], pos)), budget)
  {
    var xs := Available(tracks[k..], pos);
    RoundedTaken(xs, budget);
    ReadyLengths(tracks[k..], Taken(xs, budget), Marks(tracks[k..], pos));
    MarksWithin(tracks, k, pos);
    ReadyIsOf(tracks, k, Taken(xs, budget), Marks(tracks[k..], pos));
  }

  lemma {:induction false} AheadCovers(tracks: seq<Track>, k: nat, pos: Position, budget: Option<real>)
    requires Drawn(tracks) && k < |tracks| && NonNegative(Available(tracks[k..], pos))
      && pos.cumulative <= tracks[k].cumulative && (budget.Some? ==> budget.value >= 0.0)
    requires Ahead(tracks, pos.sequence) == tracks[k..]
    ensures Drawn(Ahead(tracks, pos.sequence))
    ensures Covers(AllReady(After(tracks, pos, budget)), tracks, k, Sum(Available(tracks[k..], pos)), budget)
  {
    SelectedCovers(tracks, k, pos, budget);
  }

  lemma {:induction false} RouteCovers(tracks: seq<Track>, k: nat, pos: Position, budget: Option<real>)
    requires IsRoute(tracks) && k < |tracks| && pos.sequence == tracks[k].sequence
      && (budget.Some? ==> budget.value >= 0.0)
    requires tracks[k].cumulative - tracks[k].distance <= pos.cumulative <= tracks[k].cumulative
    ensures Drawn(Ahead(tracks, pos.sequence))
    ensures Covers(AllReady(After(tracks, pos, budget)), tracks, k, tracks[|tracks| - 1].cumulative - pos.cumulative,
      budget)
  {
    RestOfRoute(tracks, k, pos);
    AheadCovers(tracks, k, pos, budget);
  }

  /** What advice receives covers the horizon: from the projected segment on, to the budget or to the
      end of the route. */
  lemma {:induction false} AdviceCoversHorizon(g: Ground, at: Point, tracks: seq<Track>, budget: Option<real>)
    requires IsGround(g) && IsRoute(tracks) && tracks != [] && (budget.Some? ==> budget.value >= 0.0)
    ensures var k, pos := Nearest(g, at, tracks, |tracks|), Project(g, at, tracks);
      Drawn(Ahead(tracks, pos.sequence)) &&
      Covers(AllReady(After(tracks, pos, budget)), tracks, k, tracks[|tracks| - 1].cumulative - pos.cumulative, budget)
  {
    ProjectedWithin(g, at, tracks);
    RouteCovers(tracks, Nearest(g, at, tracks, |tracks|), Project(g, at, tracks), budget);
  }

  /** The stored form of a materialised piece. */
  function TrackOf(id: Id, piece: Piece): Track {
    AdviceItem(id, piece.sequence, piece.coordinates, piece.bearing, piece.distance, piece.cumulative)
  }

  ghost predicate Stored(tracks: seq<Track>, pieces: seq<Piece>) {
    |tracks| == |pieces| && forall i | 0 <= i < |tracks| :: tracks[i] == TrackOf(tracks[i].publicId, pieces[i])
  }

  ghost predicate IsLine(e: Earth, track: Track) {
    && |track.coordinates| == 2
    && track.distance == e.distance(track.coordinates[0], track.coordinates[1])
    && track.bearing == e.bearing(track.coordinates[0], track.coordinates[1])
  }

  /** Every segment is a straight line with its distance and bearing on the earth, and they join end to
      end. */
  ghost predicate IsMeasured(e: Earth, tracks: seq<Track>) {
    && (forall i | 0 <= i < |tracks| :: IsLine(e, tracks[i]))
    && (forall i, j | 0 <= i < j < |tracks| && j == i + 1 :: tracks[i].coordinates[1] == tracks[j].coordinates[0])
  }

  lemma StoredLine(e: Earth, pieces: seq<Piece>, path: seq<Point>, tracks: seq<Track>, i: nat)
    requires Follows(e, pieces, path) && Stored(tracks, pieces) && i < |tracks|
    ensures tracks[i].coordinates == [path[i], path[i + 1]]
    ensures tracks[i].distance == e.distance(path[i], path[i + 1])
    ensures tracks[i].bearing == e.bearing(path[i], path[i + 1])
  {
    assert tracks[i] == TrackOf(tracks[i].publicId, pieces[i]);
    assert pieces[i].coordinates == [path[i], path[i + 1]];
  }

  lemma StoredIsMeasured(e: Earth, pieces: seq<Piece>, path: seq<Point>, tracks: seq<Track>)
    requires IsEarth(e) && Follows(e, pieces, path) && Stored(tracks, pieces)
    ensures IsMeasured(e, tracks)
    ensures tracks != [] ==> tracks[|tracks| - 1].coordinates[1] == path[|path| - 1]
  {
    forall i | 0 <= i < |tracks| ensures IsLine(e, tracks[i]) && tracks[i].coordinates == [path[i], path[i + 1]] {
      StoredLine(e, pieces, path, tracks, i);
    }
    forall i, j | 0 <= i < j < |tracks| && j == i + 1
      ensures |tracks[i].coordinates| == |tracks[j].coordinates| == 2
        && tracks[i].coordinates[1] == tracks[j].coordinates[0]
    {
      StoredLine(e, pieces, path, tracks, i);
      StoredLine(e, pieces, path, tracks, j);
    }
  }

  lemma StoredPiece(e: Earth, pieces: seq<Piece>, path: seq<Point>, tracks: seq<Track>, i: nat)
    requires IsEarth(e) && Follows(e, pieces, path) && Stored(tracks, pieces) && i < |tracks|
    ensures tracks[i].sequence == i + 1 && tracks[i].coordinates != [] && tracks[i].coordinates[0] == path[i]
      && tracks[i].distance >= 0.0
    ensures tracks[i].cumulative == Before(tracks, i) + tracks[i].distance
  {
    assert pieces[i].coordinates == [path[i], path[i + 1]];
    assert pieces[i].cumulative == Reached(pieces, i) + pieces[i].distance;
  }

  /** Materialised routes are what projection and selection expect. */
  lemma MaterializedIsRoute(e: Earth, pieces: seq<Piece>, path: seq<Point>, tracks: seq<Track>)
    requires IsEarth(e) && Follows(e, pieces, path) && Stored(tracks, pieces)
    ensures IsRoute(tracks)
    ensures tracks != [] ==> tracks[0].coordinates[0] == path[0]
  {
    forall i | 0 <= i < |tracks|
      ensures tracks[i].sequence == i + 1 && tracks[i].coordinates != [] && tracks[i].distance >= 0.0
    {
      StoredPiece(e, pieces, path, tracks, i);
    }
    forall i | 0 <= i < |tracks| ensures tracks[i].cumulative == Before(tracks, i) + tracks[i].distance {
      StoredPiece(e, pieces, path, tracks, i);
    }
    if tracks != [] {
      StoredPiece(e, pieces, path, tracks, 0);
    }
  }

  /** What a preview receives covers its horizon from the start of the route. */
  lemma {:induction false} PreviewCoversHorizon(tracks: seq<Track>, budget: Option<real>)
    requires IsRoute(tracks) && tracks != [] && (budget.Some? ==> budget.value >= 0.0)
    ensures Covers(AllReady(FromStart(tracks, budget)), tracks, 0, tracks[|tracks| - 1].cumulative, budget)
  {
    var start := Position(tracks[0].sequence, tracks[0].coordinates[0], 0.0, 0.0);
    AllAhead(tracks, start);
    assert tracks[0].cumulative == Before(tracks, 0) + tracks[0].distance;
    RouteCovers(tracks, 0, start, budget);
  }
}
