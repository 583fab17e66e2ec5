/** Materialised route segments, and the polyline passengers get back from them. */
module Polyline {
  import opened Schema

  datatype Piece = Piece(
    sequence: nat,
    source: nat,
    fractionStart: real,
    fractionEnd: real,
    coordinates: seq<Point>,
    bearing: real,
    distance: real,
    cumulative: real)

  /** What the earth supplies: distance in metres and bearing in degrees, and the longest edge that is
      not split. */
  datatype Earth = Earth(distance: (Point, Point) -> real, bearing: (Point, Point) -> real, longest: real)

  ghost predicate IsEarth(e: Earth) {
    e.longest > 0.0 && (forall a, b :: e.distance(a, b) >= 0.0) && forall a :: e.distance(a, a) == 0.0
  }

  function Ceiling(x: real): int {
    -((-x).Floor)
  }

  function Splits(e: Earth, a: Point, b: Point): (n: nat)
    requires e.longest > 0.0
    ensures n >= 1
  {
    var n := Ceiling(e.distance(a, b) / e.longest);
    if n > 1 then n else 1
  }

  /** `_interpolate`. */
  function Interpolate(a: Point, b: Point, fraction: real): Point {
    Point(a.lon + (b.lon - a.lon) * fraction, a.lat + (b.lat - a.lat) * fraction)
  }

  /** Equal fractions of an edge are equal ways along it: `n` steps divide it evenly. */
  lemma StepsAreEven(a: Point, b: Point, n: nat, k: nat)
    requires k < n
    ensures var from, to := Interpolate(a, b, Fraction(k, n)), Interpolate(a, b, Fraction(k + 1, n));
      && to.lon - from.lon == (b.lon - a.lon) / n as real
      && to.lat - from.lat == (b.lat - a.lat) / n as real
  {
    StepIsPart(b.lon - a.lon, n, k);
    StepIsPart(b.lat - a.lat, n, k);
  }

  lemma StepIsPart(d: real, n: nat, k: nat)
    requires k < n
    ensures d * Fraction(k + 1, n) - d * Fraction(k, n) == d / n as real
  {
    var x, y := Fraction(k, n), Fraction(k + 1, n);
    assert y - x == 1.0 / n as real;
    assert d * y - d * x == d * (y - x);
  }

  /** A way to divide an edge. */
  type Divider = (Point, Point, real) -> Point

  /** The ends of an edge are at fractions zero and one. */
  ghost predicate Divides(at: Divider) {
    forall a, b :: at(a, b, 0.0) == a && at(a, b, 1.0) == b
  }

  lemma InterpolateDivides()
    ensures Divides(Interpolate)
  {
  }

  function Fraction(k: nat, n: nat): real
    requires n >= 1
  {
    k as real / n as real
  }

  lemma FractionsRise(n: nat, k: nat)
    requires k < n
    ensures 0.0 <= Fraction(k, n) < Fraction(k + 1, n) <= 1.0
    ensures Fraction(0, n) == 0.0 && Fraction(n, n) == 1.0
  {
    assert Fraction(k + 1, n) - Fraction(k, n) == 1.0 / n as real;
  }

  /** The first `k` points after `a` when the edge is split in `n`. */
  function Steps(at: Divider, a: Point, b: Point, n: nat, k: nat): seq<Point>
    requires k <= n && n >= 1
  {
    if k == 0 then [] else Steps(at, a, b, n, k - 1) + [at(a, b, Fraction(k, n))]
  }

  /** The points along the first `i` edges. */
  function Path(e: Earth, at: Divider, coordinates: seq<Point>, i: nat): (path: seq<Point>)
    requires e.longest > 0.0 && i < |coordinates|
    ensures path != []
  {
    if i == 0 then [coordinates[0]]
    else
      var a, b := coordinates[i - 1], coordinates[i];
      Path(e, at, coordinates, i - 1) + Steps(at, a, b, Splits(e, a, b), Splits(e, a, b))
  }

  /** Every edge ends exactly at its vertex. */
  lemma {:induction false} PathReaches(e: Earth, at: Divider, coordinates: seq<Point>, i: nat)
    requires e.longest > 0.0 && i < |coordinates| && Divides(at)
    ensures Path(e, at, coordinates, i)[|Path(e, at, coordinates, i)| - 1] == coordinates[i]
  {
    if i > 0 {
      FractionsRise(Splits(e, coordinates[i - 1], coordinates[i]), 0);
    }
  }

  /** The distance before piece `k`. */
  function Reached(pieces: seq<Piece>, k: nat): real
    requires k <= |pieces|
  {
    if k == 0 then 0.0 else pieces[k - 1].cumulative
  }

  /** Sequences from 1, exact prefix sums, and consecutive points of `path` at both ends. */
  ghost predicate Follows(e: Earth, pieces: seq<Piece>, path: seq<Point>) {
    && |path| == |pieces| + 1
    && (forall k | 0 <= k < |pieces| ::
          && pieces[k].sequence == k + 1
          && pieces[k].coordinates == [path[k], path[k + 1]]
          && pieces[k].distance == e.distance(path[k], path[k + 1])
          && pieces[k].bearing == e.bearing(path[k], path[k + 1]))
    && (forall k {:trigger Reached(pieces, k)} | 0 <= k < |pieces| ::
      pieces[k].cumulative == Reached(pieces, k) + pieces[k].distance)
  }

  /** A piece lies on the edge and between the fractions it names. */
  ghost predicate OnSource(at: Divider, coordinates: seq<Point>, piece: Piece) {
    && 1 <= piece.source < |coordinates|
    && 0.0 <= piece.fractionStart < piece.fractionEnd <= 1.0
    && piece.coordinates == [
         at(coordinates[piece.source - 1], coordinates[piece.source], piece.fractionStart),
         at(coordinates[piece.source - 1], coordinates[piece.source], piece.fractionEnd)]
  }

  function Total(pieces: seq<Piece>): real {
    Reached(pieces, |pieces|)
  }

  /** The inner loop: the pieces of edge `i`, appended. */
  method SplitEdge(e: Earth, at: Divider, coordinates: seq<Point>, i: nat, before: seq<Piece>, ghost path: seq<Point>)
      returns (pieces: seq<Piece>)
    requires e.longest > 0.0 && Divides(at) && i + 1 < |coordinates|
    requires Follows(e, before, path) && path[|path| - 1] == coordinates[i]
    requires forall j | 0 <= j < |before| :: OnSource(at, coordinates, before[j])
    ensures var n := Splits(e, coordinates[i], coordinates[i + 1]);
      Follows(e, pieces, path + Steps(at, coordinates[i], coordinates[i + 1], n, n))
    ensures forall j | 0 <= j < |pieces| :: OnSource(at, coordinates, pieces[j])
  {
    var a, b := coordinates[i], coordinates[i + 1];
    var n := Splits(e, a, b);
    var cumulative := Total(before);
    pieces := before;
    assert path + Steps(at, a, b, n, 0) == path;
    for k := 0 to n
      invariant Follows(e, pieces, path + Steps(at, a, b, n, k)) && cumulative == Total(pieces)
      invariant forall j | 0 <= j < |pieces| :: OnSource(at, coordinates, pieces[j])
    {
      var piece := NextPiece(e, at, a, b, n, k, |pieces| + 1, i + 1, cumulative);
      FractionsRise(n, k);
      FollowsOn(e, pieces, path + Steps(at, a, b, n, k), piece);
      assert path + Steps(at, a, b, n, k + 1) == (path + Steps(at, a, b, n, k)) + [piece.coordinates[1]];
      cumulative := piece.cumulative;
      pieces := pieces + [piece];
    }
  }

  /** `materialize_route_segments`, for any way of dividing an edge. */
  method MaterializeWith(e: Earth, at: Divider, coordinates: seq<Point>) returns (pieces: seq<Piece>)
    requires e.longest > 0.0 && Divides(at)
    ensures |coordinates| < 2 ==> pieces == []
    ensures |coordinates| >= 2 ==> Follows(e, pieces, Path(e, at, coordinates, |coordinates| - 1))
    ensures forall i | 0 <= i < |pieces| :: OnSource(at, coordinates, pieces[i])
  {
    pieces := [];
    if |coordinates| < 2 {
      return;
    }
    for i := 0 to |coordinates| - 1
      invariant Follows(e, pieces, Path(e, at, coordinates, i))
      invariant forall j | 0 <= j < |pieces| :: OnSource(at, coordinates, pieces[j])
    {
      PathReaches(e, at, coordinates, i);
      pieces := SplitEdge(e, at, coordinates, i, pieces, Path(e, at, coordinates, i));
    }
  }

  function NextPiece(e: Earth, at: Divider, a: Point, b: Point, n: nat, k: nat, sequence: nat, source: nat,
      cumulative: real): Piece
    requires k < n
  {
    var start, end := at(a, b, Fraction(k, n)), at(a, b, Fraction(k + 1, n));
    Piece(sequence, source, Fraction(k, n), Fraction(k + 1, n), [start, end],
      e.bearing(start, end), e.distance(start, end), cumulative + e.distance(start, end))
  }

  lemma FollowsOn(e: Earth, pieces: seq<Piece>, path: seq<Point>, piece: Piece)
    requires Follows(e, pieces, path)
    requires piece.sequence == |pieces| + 1 && |piece.coordinates| == 2 && piece.coordinates[0] == path[|path| - 1]
    requires piece.distance == e.distance(piece.coordinates[0], piece.coordinates[1])
    requires piece.bearing == e.bearing(piece.coordinates[0], piece.coordinates[1])
    requires piece.cumulative == Total(pieces) + piece.distance
    ensures Follows(e, pieces + [piece], path + [piece.coordinates[1]])
  {
    var more, longer := pieces + [piece], path + [piece.coordinates[1]];
    forall k | 0 <= k < |more|
      ensures more[k].sequence == k + 1 && more[k].coordinates == [longer[k], longer[k + 1]]
      ensures more[k].distance == e.distance(longer[k], longer[k + 1])
        && more[k].bearing == e.bearing(longer[k], longer[k + 1])
    {
      if k < |pieces| {
        assert pieces[k].coordinates == [path[k], path[k + 1]];
      }
    }
    forall k | 0 <= k < |more| ensures more[k].cumulative == Reached(more, k) + more[k].distance {
      if k < |pieces| {
        assert pieces[k].cumulative == Reached(pieces, k) + pieces[k].distance;
      }
    }
  }

  /** `materialize_route_segments`. */
  method Materialize(e: Earth, coordinates: seq<Point>) returns (pieces: seq<Piece>)
    requires e.longest > 0.0
    ensures |coordinates| < 2 ==> pieces == []
    ensures |coordinates| >= 2 ==> Follows(e, pieces, Path(e, Interpolate, coordinates, |coordinates| - 1))
    ensures forall i | 0 <= i < |pieces| :: OnSource(Interpolate, coordinates, pieces[i])
  {
    InterpolateDivides();
    pieces := MaterializeWith(e, Interpolate, coordinates);
  }

  // ---- flattening -----------------------------------------------------------------------------------------

  /** A list without adjacent repeats: each element is kept unless it repeats the one before. */
  function Collapse(xs: seq<Point>): seq<Point> {
    if xs == [] then [] else Kept(Collapse(xs[..|xs| - 1]), xs[|xs| - 1])
  }

  function Kept(line: seq<Point>, x: Point): seq<Point> {
    if line != [] && line[|line| - 1] == x then line else line + [x]
  }

  function Joined(lists: seq<seq<Point>>): seq<Point> {
    if lists == [] then [] else Joined(lists[..|lists| - 1]) + lists[|lists| - 1]
  }

  lemma {:induction false} CollapseMore(xs: seq<Point>, x: Point)
    ensures Collapse(xs + [x]) == Kept(Collapse(xs), x)
  {
  }

  /** `flatten_route_polyline`. */
  method Flatten(lists: seq<seq<Point>>) returns (polyline: seq<Point>)
    ensures polyline == Collapse(Joined(lists))
  {
    polyline := [];
    for i := 0 to |lists|
      invariant polyline == Collapse(Joined(lists[..i]))
    {
      ghost var before := Joined(lists[..i]);
      assert before + lists[i][..0] == before;
      for k := 0 to |lists[i]|
        invariant polyline == Collapse(before + lists[i][..k])
      {
        var point := lists[i][k];
        CollapseMore(before + lists[i][..k], point);
        assert before + lists[i][..k + 1] == before + lists[i][..k] + [point];
        if polyline != [] && polyline[|polyline| - 1] == point {
          continue;
        }
        polyline := polyline + [point];
      }
      assert lists[i][..|lists[i]|] == lists[i] && lists[..i + 1][..i] == lists[..i];
    }
    assert lists[..|lists|] == lists;
  }

  ghost predicate NoRepeats(line: seq<Point>) {
    forall i | 0 < i < |line| :: line[i - 1] != line[i]
  }

  /** Collapsing leaves no adjacent repeat and keeps both ends. */
  lemma {:induction false} CollapseShape(xs: seq<Point>)
    ensures NoRepeats(Collapse(xs))
    ensures xs != [] ==>
      Collapse(xs) != [] && Collapse(xs)[0] == xs[0]
      && Collapse(xs)[|Collapse(xs)| - 1] == xs[|xs| - 1]
  {
    if xs != [] {
      CollapseShape(xs[..|xs| - 1]);
    }
  }

  function Ends(pieces: seq<Piece>): (lists: seq<seq<Point>>)
    ensures |lists| == |pieces| && forall k | 0 <= k < |pieces| :: lists[k] == pieces[k].coordinates
  {
    seq(|pieces|, k requires 0 <= k < |pieces| => pieces[k].coordinates)
  }

  ghost predicate Pairs(lists: seq<seq<Point>>, path: seq<Point>) {
    |path| == |lists| + 1 && forall k | 0 <= k < |lists| :: lists[k] == [path[k], path[k + 1]]
  }

  lemma {:induction false} CollapsePair(xs: seq<Point>, x: Point, y: Point)
    ensures Collapse(xs + [x, y]) == Kept(Kept(Collapse(xs), x), y)
  {
    assert xs + [x, y] == xs + [x] + [y];
    CollapseMore(xs + [x], y);
    CollapseMore(xs, x);
  }

  /** Joining the pairs of a path repeats its inner points, and collapsing undoes that. */
  lemma {:induction false} PairsCollapse(lists: seq<seq<Point>>, path: seq<Point>)
    requires lists != [] && Pairs(lists, path)
    ensures Collapse(Joined(lists)) == Collapse(path)
  {
    var n := |lists| - 1;
    var init, x, y := path[..n + 1], path[n], path[n + 1];
    CollapsePair(Joined(lists[..n]), x, y);
    assert path == init + [y];
    CollapseMore(init, y);
    if n == 0 {
      assert lists[..n] == [] && init == [] + [x];
      CollapseMore([], x);
    } else {
      PairsCollapse(lists[..n], init);
      CollapseShape(init);
    }
  }

  /** Where pieces follow a path, their flattened ends are the collapsed path. */
  lemma {:induction false} FlattenFollows(e: Earth, pieces: seq<Piece>, path: seq<Point>)
    requires pieces != [] && Follows(e, pieces, path)
    ensures Collapse(Joined(Ends(pieces))) == Collapse(path)
  {
    PairsCollapse(Ends(pieces), path);
  }

  // ---- the vertices are still there -------------------------------------------------------------------------

  /** `a` is left of `b` once some elements are dropped. */
  ghost predicate Within(a: seq<Point>, b: seq<Point>) {
    a == [] ||
    (b != [] &&
     ((a[|a| - 1] == b[|b| - 1] && Within(a[..|a| - 1], b[..|b| - 1])) || Within(a, b[..|b| - 1])))
  }

  lemma {:induction false} WithinMore(a: seq<Point>, b: seq<Point>, x: Point)
    requires Within(a, b)
    ensures Within(a, b + [x]) && Within(a + [x], b + [x])
  {
  }

  lemma {:induction false} WithinLonger(a: seq<Point>, b: seq<Point>, more: seq<Point>)
    requires Within(a, b)
    ensures Within(a, b + more)
    decreases |more|
  {
    if more == [] {
      assert b + more == b;
    } else {
      var init := more[..|more| - 1];
      WithinLonger(a, b, init);
      WithinMore(a, b + init, more[|more| - 1]);
      assert b + init + [more[|more| - 1]] == b + more;
    }
  }

  lemma {:induction false} KeptWithin(a: seq<Point>, b: seq<Point>, x: Point)
    requires Within(a, b)
    ensures Within(Kept(a, x), Kept(b, x))
  {
  }

  lemma {:induction false} WithinKept(a: seq<Point>, b: seq<Point>, x: Point)
    requires Within(a, b)
    ensures Within(a, Kept(b, x))
  {
  }

  /** Collapsing keeps containment. */
  lemma {:induction false} CollapseWithin(a: seq<Point>, b: seq<Point>)
    requires Within(a, b)
    ensures Within(Collapse(a), Collapse(b))
    decreases |b|
  {
    if a != [] {
      var init, x := b[..|b| - 1], b[|b| - 1];
      if a[|a| - 1] == x && Within(a[..|a| - 1], init) {
        CollapseWithin(a[..|a| - 1], init);
        KeptWithin(Collapse(a[..|a| - 1]), Collapse(init), x);
      } else {
        CollapseWithin(a, init);
        WithinKept(Collapse(a), Collapse(init), x);
      }
    }
  }

  lemma {:induction false} EdgeEnds(at: Divider, a: Point, b: Point, n: nat, before: seq<Point>)
    requires n >= 1 && Divides(at)
    ensures before + Steps(at, a, b, n, n) == before + Steps(at, a, b, n, n - 1) + [b]
  {
    FractionsRise(n, 0);
  }

  lemma WithinItself(x: Point)
    ensures Within([x], [x])
  {
    WithinMore([], [], x);
    assert [] + [x] == [x];
  }

  /** One more edge, ending in the next vertex. */
  lemma {:induction false} EdgeContains(at: Divider, vertices: seq<Point>, before: seq<Point>, a: Point, b: Point,
      n: nat)
    requires n >= 1 && Divides(at) && Within(vertices, before)
    ensures Within(vertices + [b], before + Steps(at, a, b, n, n))
  {
    var steps := Steps(at, a, b, n, n - 1);
    WithinLonger(vertices, before, steps);
    WithinMore(vertices, before + steps, b);
    EdgeEnds(at, a, b, n, before);
  }

  lemma {:induction false} PathContains(e: Earth, at: Divider, coordinates: seq<Point>, i: nat)
    requires e.longest > 0.0 && i < |coordinates| && Divides(at)
    ensures Within(coordinates[..i + 1], Path(e, at, coordinates, i))
  {
    if i == 0 {
      WithinItself(coordinates[0]);
      assert coordinates[..1] == [coordinates[0]];
    } else {
      var a, b := coordinates[i - 1], coordinates[i];
      PathContains(e, at, coordinates, i - 1);
      assert coordinates[..i + 1] == coordinates[..i] + [b];
      EdgeContains(at, coordinates[..i], Path(e, at, coordinates, i - 1), a, b, Splits(e, a, b));
    }
  }

  lemma {:induction false} PathStarts(e: Earth, at: Divider, coordinates: seq<Point>, i: nat)
    requires e.longest > 0.0 && i < |coordinates|
    ensures Path(e, at, coordinates, i)[0] == coordinates[0]
  {
    if i > 0 {
      PathStarts(e, at, coordinates, i - 1);
    }
  }

  lemma PathKeepsVertices(e: Earth, at: Divider, coordinates: seq<Point>)
    requires e.longest > 0.0 && Divides(at) && coordinates != []
    ensures var path := Path(e, at, coordinates, |coordinates| - 1);
      path[0] == coordinates[0] && path[|path| - 1] == coordinates[|coordinates| - 1] && Within(coordinates, path)
  {
    PathReaches(e, at, coordinates, |coordinates| - 1);
    PathStarts(e, at, coordinates, |coordinates| - 1);
    PathContains(e, at, coordinates, |coordinates| - 1);
    assert coordinates[..|coordinates|] == coordinates;
  }

  /** Materialised and flattened, a polyline has no adjacent repeats, its own ends, and all its
      vertices in order. */
  lemma {:induction false} FlattenedKeepsVertices(e: Earth, at: Divider, coordinates: seq<Point>, pieces: seq<Piece>)
    requires e.longest > 0.0 && Divides(at) && |coordinates| >= 2 && pieces != []
    requires Follows(e, pieces, Path(e, at, coordinates, |coordinates| - 1))
    ensures var flat := Collapse(Joined(Ends(pieces)));
      && NoRepeats(flat) && flat != []
      && flat[0] == coordinates[0] && flat[|flat| - 1] == coordinates[|coordinates| - 1]
      && Within(Collapse(coordinates), flat)
  {
    var path := Path(e, at, coordinates, |coordinates| - 1);
    FlattenFollows(e, pieces, path);
    CollapseShape(path);
    PathKeepsVertices(e, at, coordinates);
    CollapseWithin(coordinates, path);
  }

  /** An edge is split no more than needed: each even share of its length is within the longest, and
      with one piece less it would not be. */
  lemma SplitsEnough(e: Earth, a: Point, b: Point)
    requires IsEarth(e)
    ensures e.distance(a, b) <= Splits(e, a, b) as real * e.longest
    ensures Splits(e, a, b) > 1 ==> e.distance(a, b) > (Splits(e, a, b) as real - 1.0) * e.longest
  {
    var x, n := e.distance(a, b) / e.longest, Splits(e, a, b) as real;
    CeilingBounds(x);
    assert x <= n && (n > 1.0 ==> n - 1.0 < x);
    ScaleOrder(x, n, e.longest, e.distance(a, b));
    ScaleOrder(x, n - 1.0, e.longest, e.distance(a, b));
  }

  lemma ScaleOrder(x: real, n: real, longest: real, d: real)
    requires longest > 0.0 && x == d / longest
    ensures x <= n ==> d <= n * longest
    ensures n < x ==> n * longest < d
  {
    assert x * longest == d;
    assert (n - x) * longest == n * longest - d;
  }

  lemma CeilingBounds(x: real)
    ensures x <= Ceiling(x) as real < x + 1.0
  {
  }
}
