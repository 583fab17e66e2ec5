/** Which side of the bus the sun is on, how a stretch of road adds up, and the shares in whole percent. */
module Exposure {
  import opened Common
  import opened Sorting
  import Projection

  datatype Sun = Sun(azimuth: real, elevation: real)

  datatype Side = Left | Right | Front | Back | Overhead | Dark

  datatype Condition = Night | LowSun | HighSun | Daylight

  datatype Seat = LeftSeat | RightSeat | FrontSeat | BackSeat | NeutralSeat

  datatype Shares = Shares(left: int, right: int, rest: int)

  // ---- one moment ----------------------------------------------------------------------------------------

  /** Python's `%` by 360: the result is in [0, 360). */
  function Mod360(x: real): real {
    x - 360.0 * (x / 360.0).Floor as real
  }

  /** The sun's angle clockwise from straight ahead, in [-180, 180). */
  function Turn(azimuth: real, bearing: real): real {
    Mod360(azimuth - bearing + 180.0) - 180.0
  }

  function Abs(x: real): real {
    if x < 0.0 then -x else x
  }

  /** `exposure_direction`. */
  function SideOf(sun: Sun, bearing: real): Side {
    if sun.elevation < 0.0 then Dark
    else if sun.elevation >= 70.0 then Overhead
    else
      var turn := Turn(sun.azimuth, bearing);
      if Abs(turn) <= 20.0 then Front
      else if Abs(turn) >= 160.0 then Back
      else if turn > 0.0 then Right
      else Left
  }

  /** `sun_condition`. */
  function ConditionOf(sun: Sun): Condition {
    if sun.elevation < 0.0 then Night
    else if sun.elevation < 10.0 then LowSun
    else if sun.elevation >= 70.0 then HighSun
    else Daylight
  }

  /** Where the bounds of the conditions are: the horizon, ten degrees, and seventy. */
  lemma ConditionsAreBands(sun: Sun)
    ensures ConditionOf(sun) == Night <==> sun.elevation < 0.0
    ensures ConditionOf(sun) == LowSun <==> 0.0 <= sun.elevation < 10.0
    ensures ConditionOf(sun) == Daylight <==> 10.0 <= sun.elevation < 70.0
    ensures ConditionOf(sun) == HighSun <==> sun.elevation >= 70.0
  {
  }

  /** No side while the sun is down, and none while it is overhead. */
  lemma SidesByHeight(sun: Sun, bearing: real)
    ensures SideOf(sun, bearing) == Dark <==> sun.elevation < 0.0
    ensures SideOf(sun, bearing) == Overhead <==> sun.elevation >= 70.0
  {
  }

  function WholeTurns(k: int): real {
    360.0 * k as real
  }

  /** Some angle equal to `angle` up to whole turns is between the bounds. */
  ghost predicate FacesBetween(angle: real, low: real, high: real, open: bool) {
    exists k: int :: var a := angle + WholeTurns(k); if open then low < a < high else low <= a <= high
  }

  lemma TurnIsCongruent(azimuth: real, bearing: real) returns (k: int)
    ensures Turn(azimuth, bearing) == azimuth - bearing + WholeTurns(k)
    ensures -180.0 <= Turn(azimuth, bearing) < 180.0
  {
    k := -((azimuth - bearing + 180.0) / 360.0).Floor;
  }

  /** What the sides mean, whatever the whole turns in the angles: within 20 degrees of ahead, within 20
      of behind, and the open arcs to the right and to the left. */
  lemma SidesAreArcs(sun: Sun, bearing: real)
    requires 0.0 <= sun.elevation < 70.0
    ensures SideOf(sun, bearing) == Front <==> FacesBetween(sun.azimuth - bearing, -20.0, 20.0, false)
    ensures SideOf(sun, bearing) == Back <==> FacesBetween(sun.azimuth - bearing, 160.0, 200.0, false)
    ensures SideOf(sun, bearing) == Right <==> FacesBetween(sun.azimuth - bearing, 20.0, 160.0, true)
    ensures SideOf(sun, bearing) == Left <==> FacesBetween(sun.azimuth - bearing, -160.0, -20.0, true)
  {
    var angle, turn := sun.azimuth - bearing, Turn(sun.azimuth, bearing);
    var k := TurnIsCongruent(sun.azimuth, bearing);
    assert angle + WholeTurns(k + 1) == turn + 360.0;
    assert angle + WholeTurns(k) == turn;
    forall j: int
      ensures angle + WholeTurns(j) == turn || angle + WholeTurns(j) >= turn + 360.0
        || angle + WholeTurns(j) <= turn - 360.0
    {
      assert WholeTurns(j) - WholeTurns(k) == 360.0 * (j - k) as real;
    }
  }

  // ---- a stretch of road -----------------------------------------------------------------------------------

  /** A segment's length, with the sun at its middle. */
  datatype Sample = Sample(metres: real, bearing: real, sun: Sun)

  predicate On(sample: Sample, side: Side) {
    SideOf(sample.sun, sample.bearing) == side
  }

  /** The metres with the sun on one side. */
  function Metres(samples: seq<Sample>, side: Side): real {
    if samples == [] then 0.0
    else
      var last := samples[|samples| - 1];
      Metres(samples[..|samples| - 1], side) + if On(last, side) then last.metres else 0.0
  }

  function Total(samples: seq<Sample>): real {
    if samples == [] then 0.0 else Total(samples[..|samples| - 1]) + samples[|samples| - 1].metres
  }

  /** The first of the longest samples with the sun on one side. */
  function Longest(samples: seq<Sample>, side: Side): Option<Sample> {
    if samples == [] then None
    else
      var before, last := Longest(samples[..|samples| - 1], side), samples[|samples| - 1];
      if On(last, side) && (before.None? || last.metres > before.value.metres) then Some(last) else before
  }

  lemma {:induction false} LongestIsLongest(samples: seq<Sample>, side: Side)
    ensures Longest(samples, side).None? <==> forall i | 0 <= i < |samples| :: !On(samples[i], side)
    ensures Longest(samples, side).Some? ==>
      var best := Longest(samples, side).value;
      && On(best, side)
      && (forall i | 0 <= i < |samples| && On(samples[i], side) :: samples[i].metres <= best.metres)
      && exists k | 0 <= k < |samples| ::
           samples[k] == best && forall i | 0 <= i < k && On(samples[i], side) :: samples[i].metres < best.metres
  {
    if samples != [] {
      var init, last := samples[..|samples| - 1], samples[|samples| - 1];
      LongestIsLongest(init, side);
      forall i | 0 <= i < |init| ensures samples[i] == init[i] {
      }
      if Longest(samples, side) == Some(last) && Longest(init, side) != Some(last) {
        assert samples[|samples| - 1] == last;
      } else if Longest(init, side).Some? {
        var k :| 0 <= k < |init| && init[k] == Longest(init, side).value
          && forall i | 0 <= i < k && On(init[i], side) :: init[i].metres < init[k].metres;
        assert samples[k] == init[k];
      }
    }
  }

  /** Every metre is on exactly one side. */
  lemma {:induction false} MetresAddUp(samples: seq<Sample>)
    ensures Total(samples) == Metres(samples, Left) + Metres(samples, Right) + Metres(samples, Front)
      + Metres(samples, Back) + Metres(samples, Overhead) + Metres(samples, Dark)
  {
    if samples != [] {
      MetresAddUp(samples[..|samples| - 1]);
    }
  }

  ghost predicate NonNegative(samples: seq<Sample>) {
    forall i | 0 <= i < |samples| :: samples[i].metres >= 0.0
  }

  /** A side with metres has a sample. */
  lemma {:induction false} MetresHaveSample(samples: seq<Sample>, side: Side)
    requires NonNegative(samples)
    ensures Metres(samples, side) >= 0.0
    ensures Metres(samples, side) > 0.0 ==> Longest(samples, side).Some?
  {
    if samples != [] {
      MetresHaveSample(samples[..|samples| - 1], side);
    }
  }

  lemma {:induction false} NoSideIsNegative(samples: seq<Sample>)
    requires NonNegative(samples)
    ensures forall side :: Metres(samples, side) >= 0.0
  {
    forall side ensures Metres(samples, side) >= 0.0 {
      MetresHaveSample(samples, side);
    }
  }

  // ---- the dominant side ------------------------------------------------------------------------------------

  const ORDER: seq<Side> := [Left, Right, Front, Back, Overhead, Dark]

  /** The first of the first `n` sides with most metres. */
  function FirstMost(metres: Side -> real, n: nat): (side: Side)
    requires 0 < n <= |ORDER|
    ensures forall i | 0 <= i < n :: metres(ORDER[i]) <= metres(side)
    ensures exists k | 0 <= k < n :: ORDER[k] == side && forall i | 0 <= i < k :: metres(ORDER[i]) < metres(side)
  {
    if n == 1 then assert ORDER[0] == Left; Left
    else
      var best := FirstMost(metres, n - 1);
      assert ORDER[n - 1] == ORDER[n - 1];
      if metres(ORDER[n - 1]) > metres(best) then ORDER[n - 1] else best
  }

  /** The side with most metres, or none on a road of no length. */
  function Dominant(samples: seq<Sample>): Side {
    if Total(samples) == 0.0 then Dark else FirstMost(side => Metres(samples, side), |ORDER|)
  }

  function Place(side: Side): (k: nat)
    ensures k < |ORDER| && ORDER[k] == side
  {
    match side
    case Left => 0
    case Right => 1
    case Front => 2
    case Back => 3
    case Overhead => 4
    case Dark => 5
  }

  lemma {:induction false} DominantHasMost(samples: seq<Sample>)
    requires NonNegative(samples) && Total(samples) > 0.0
    ensures forall side :: Metres(samples, side) <= Metres(samples, Dominant(samples))
    ensures Metres(samples, Dominant(samples)) >= Total(samples) / 6.0
  {
    var metres := side => Metres(samples, side);
    forall side: Side ensures metres(side) <= metres(FirstMost(metres, |ORDER|)) {
      assert metres(ORDER[Place(side)]) <= metres(FirstMost(metres, |ORDER|));
    }
    forall side ensures Metres(samples, side) <= Metres(samples, Dominant(samples)) {
      assert metres(side) == Metres(samples, side);
    }
    MetresAddUp(samples);
  }

  /** The side leads: it has no fewer metres than any other, and more than every side named before it:
      left, right, front, back, overhead, none. */
  ghost predicate Leads(samples: seq<Sample>, side: Side) {
    var left, right, front := Metres(samples, Left), Metres(samples, Right), Metres(samples, Front);
    var back, overhead, dark := Metres(samples, Back), Metres(samples, Overhead), Metres(samples, Dark);
    match side
    case Left => left >= right && left >= front && left >= back && left >= overhead && left >= dark
    case Right => right > left && right >= front && right >= back && right >= overhead && right >= dark
    case Front => front > left && front > right && front >= back && front >= overhead && front >= dark
    case Back => back > left && back > right && back > front && back >= overhead && back >= dark
    case Overhead => overhead > left && overhead > right && overhead > front && overhead > back && overhead >= dark
    case Dark => dark > left && dark > right && dark > front && dark > back && dark > overhead
  }

  /** The dominant side leads, and no other does. */
  lemma {:induction false} DominantLeads(samples: seq<Sample>)
    requires Total(samples) != 0.0
    ensures forall side :: Leads(samples, side) <==> side == Dominant(samples)
  {
    var metres := side => Metres(samples, side);
    var best := FirstMost(metres, |ORDER|);
    var k :| 0 <= k < |ORDER| && ORDER[k] == best && forall i | 0 <= i < k :: metres(ORDER[i]) < metres(best);
    MostLeads(samples, metres, best, k);
    assert Leads(samples, best);
  }

  lemma {:induction false} MostLeads(samples: seq<Sample>, metres: Side -> real, best: Side, k: nat)
    requires forall side :: metres(side) == Metres(samples, side)
    requires k < |ORDER| && ORDER[k] == best && forall i | 0 <= i < k :: metres(ORDER[i]) < metres(best)
    requires forall i | 0 <= i < |ORDER| :: metres(ORDER[i]) <= metres(best)
    ensures Leads(samples, best)
  {
    assert metres(ORDER[0]) == metres(Left) && metres(ORDER[1]) == metres(Right) && metres(ORDER[2]) == metres(Front);
    assert metres(ORDER[3]) == metres(Back) && metres(ORDER[4]) == metres(Overhead) && metres(ORDER[5]) == metres(Dark);
  }

  // ---- whole percentages ------------------------------------------------------------------------------------

  /** The exact percentage. */
  function Raw(metres: real, total: real): real
    requires total > 0.0
  {
    metres / total * 100.0
  }

  lemma RawNonNegative(metres: real, total: real)
    requires 0.0 <= metres && total > 0.0
    ensures Raw(metres, total) >= 0.0
    ensures Raw(metres, total) == 0.0 <==> metres == 0.0
  {
  }

  lemma RawRises(a: real, b: real, total: real)
    requires a < b && total > 0.0
    ensures Raw(a, total) < Raw(b, total)
  {
    assert Raw(b, total) - Raw(a, total) == (b - a) / total * 100.0;
  }

  lemma RawsAddUp(a: real, b: real, c: real, total: real)
    requires a + b + c == total && total > 0.0
    ensures Raw(a, total) + Raw(b, total) + Raw(c, total) == 100.0
  {
    assert Raw(a, total) + Raw(b, total) + Raw(c, total) == (a + b + c) / total * 100.0;
  }

  /** Three exact percentages. */
  ghost predicate Percentages(raws: seq<real>) {
    |raws| == 3 && raws[0] + raws[1] + raws[2] == 100.0 && raws[0] >= 0.0 && raws[1] >= 0.0 && raws[2] >= 0.0
  }

  function Fraction(x: real): real {
    x - x.Floor as real
  }

  /** `j` is before `i` in line for a remaining point: larger fraction first, then smaller index. */
  predicate Before(raws: seq<real>, j: nat, i: nat)
    requires i < |raws| && j < |raws|
  {
    Fraction(raws[j]) > Fraction(raws[i]) || (Fraction(raws[j]) == Fraction(raws[i]) && j < i)
  }

  function One(b: bool): nat {
    if b then 1 else 0
  }

  /** How many are before `i` in line. */
  function Rank(raws: seq<real>, i: nat): nat
    requires |raws| == 3 && i < 3
  {
    One(Before(raws, 0, i)) + One(Before(raws, 1, i)) + One(Before(raws, 2, i))
  }

  function Remainder(raws: seq<real>): int
    requires |raws| == 3
  {
    100 - (raws[0].Floor + raws[1].Floor + raws[2].Floor)
  }

  /** The share of `i`: rounded down, and one more while points remain. */
  function Share(raws: seq<real>, i: nat): int
    requires |raws| == 3 && i < 3
  {
    raws[i].Floor + One(Rank(raws, i) < Remainder(raws))
  }

  lemma SharesAddUp(raws: seq<real>)
    requires Percentages(raws)
    ensures 0 <= Remainder(raws) <= 2
    ensures Share(raws, 0) + Share(raws, 1) + Share(raws, 2) == 100
  {
  }

  lemma SharesAreNear(raws: seq<real>, i: nat)
    requires Percentages(raws) && i < 3
    ensures raws[i] - 1.0 < Share(raws, i) as real < raws[i] + 1.0
    ensures raws[i] == 0.0 ==> Share(raws, i) == 0
    ensures 0 <= Share(raws, i) <= 100
  {
  }

  lemma SharesKeepOrder(raws: seq<real>, i: nat, j: nat)
    requires Percentages(raws) && i < 3 && j < 3 && raws[i] > raws[j]
    ensures Share(raws, i) >= Share(raws, j)
  {
  }

  /** A point left over goes to a larger fraction first, and among equal fractions to the left before the
      right before the rest. */
  lemma PointsGoByFraction(raws: seq<real>, i: nat, j: nat)
    requires Percentages(raws) && i < 3 && j < 3
    ensures Share(raws, i) == raws[i].Floor || Share(raws, i) == raws[i].Floor + 1
    ensures Share(raws, i) > raws[i].Floor && Share(raws, j) == raws[j].Floor && i != j ==>
      var f, g := raws[i] - raws[i].Floor as real, raws[j] - raws[j].Floor as real;
      f > g || (f == g && i < j)
  {
  }

  function RawsOf(left: real, right: real, rest: real): (raws: seq<real>)
    requires left + right + rest > 0.0
    ensures |raws| == 3
  {
    var total := left + right + rest;
    [Raw(left, total), Raw(right, total), Raw(rest, total)]
  }

  lemma RawsArePercentages(left: real, right: real, rest: real)
    requires left >= 0.0 && right >= 0.0 && rest >= 0.0 && left + right + rest > 0.0
    ensures Percentages(RawsOf(left, right, rest))
  {
    var total := left + right + rest;
    RawNonNegative(left, total);
    RawNonNegative(right, total);
    RawNonNegative(rest, total);
    RawsAddUp(left, right, rest, total);
  }

  /** The shares of a road with `left`, `right` and `rest` metres. */
  function SharesOf(left: real, right: real, rest: real): Shares {
    if left + right + rest <= 0.0 then Shares(0, 0, 100)
    else
      var raws := RawsOf(left, right, rest);
      Shares(Share(raws, 0), Share(raws, 1), Share(raws, 2))
  }

  /** A share's place in line for a remaining point. */
  datatype Claim = Claim(fraction: real, index: nat)

  predicate NoLater(a: Claim, b: Claim) {
    a.fraction > b.fraction || (a.fraction == b.fraction && a.index <= b.index)
  }

  function Claims(raws: seq<real>): (claims: seq<Claim>)
    requires |raws| == 3
    ensures |claims| == 3 && forall i | 0 <= i < 3 :: claims[i] == Claim(Fraction(raws[i]), i)
  {
    [Claim(Fraction(raws[0]), 0), Claim(Fraction(raws[1]), 1), Claim(Fraction(raws[2]), 2)]
  }

  lemma LineOf(raws: seq<real>, order: seq<Claim>)
    requires |raws| == 3 && order == SortBy(Claims(raws), NoLater)
    ensures |order| == 3 && Sorted(order, NoLater)
    ensures forall k | 0 <= k < 3 :: order[k] in Claims(raws)
    ensures order[0] != order[1] && order[0] != order[2] && order[1] != order[2]
  {
    SortBySorts(Claims(raws), NoLater);
    SortByKeeps(Claims(raws), NoLater);
    SortByDistinct(Claims(raws), NoLater);
  }

  lemma ClaimIndex(raws: seq<real>, claim: Claim)
    requires |raws| == 3 && claim in Claims(raws)
    ensures claim.index < 3 && claim == Claims(raws)[claim.index]
  {
  }

  /** In line, a place is the number of those before it. */
  lemma RankIsPlace(raws: seq<real>, order: seq<Claim>)
    requires |raws| == |order| == 3 && Sorted(order, NoLater)
    requires forall k | 0 <= k < 3 :: order[k].index < 3 && order[k] == Claims(raws)[order[k].index]
    requires order[0] != order[1] && order[0] != order[2] && order[1] != order[2]
    ensures Rank(raws, order[0].index) == 0 && Rank(raws, order[1].index) == 1 && Rank(raws, order[2].index) == 2
  {
  }

  ghost function Ranks(raws: seq<real>): (ranks: seq<nat>)
    requires |raws| == 3
    ensures |ranks| == 3 && forall i | 0 <= i < 3 :: ranks[i] == Rank(raws, i)
  {
    [Rank(raws, 0), Rank(raws, 1), Rank(raws, 2)]
  }

  /** The line and the ranks agree. */
  ghost predicate InLine(order: seq<Claim>, ranks: seq<nat>) {
    && |order| == |ranks| == 3
    && (forall k | 0 <= k < 3 :: order[k].index < 3)
    && (forall k, i | 0 <= k < 3 && 0 <= i < 3 :: ranks[i] == k <==> order[k].index == i)
  }

  lemma LineIsRanks(raws: seq<real>, order: seq<Claim>)
    requires |raws| == 3 && order == SortBy(Claims(raws), NoLater)
    ensures InLine(order, Ranks(raws))
  {
    LineOf(raws, order);
    forall k | 0 <= k < 3 ensures order[k].index < 3 && order[k] == Claims(raws)[order[k].index] {
      ClaimIndex(raws, order[k]);
    }
    RankIsPlace(raws, order);
    var ranks := Ranks(raws);
    forall k, i | 0 <= k < 3 && 0 <= i < 3 ensures ranks[i] == k <==> order[k].index == i {
      assert ranks[order[0].index] == 0 && ranks[order[1].index] == 1 && ranks[order[2].index] == 2;
    }
  }

  /** One more point to each of the first in line. */
  method GivePoints(floors: array<int>, order: seq<Claim>, remainder: nat, ghost ranks: seq<nat>)
    requires floors.Length == 3 && remainder <= 3 && InLine(order, ranks)
    modifies floors
    ensures forall i | 0 <= i < 3 :: floors[i] == old(floors[i]) + One(ranks[i] < remainder)
  {
    for k := 0 to remainder
      invariant forall i | 0 <= i < 3 :: floors[i] == old(floors[i]) + One(ranks[i] < k)
    {
      assert ranks[order[k].index] == k;
      floors[order[k].index] := floors[order[k].index] + 1;
    }
  }

  /** `_integer_percent_shares`. */
  method IntegerPercentShares(left: real, right: real, rest: real) returns (shares: Shares)
    requires left >= 0.0 && right >= 0.0 && rest >= 0.0
    ensures shares == SharesOf(left, right, rest)
  {
    if left + right + rest <= 0.0 {
      return Shares(0, 0, 100);
    }
    var raws := RawsOf(left, right, rest);
    RawsArePercentages(left, right, rest);
    SharesAddUp(raws);
    var floors := new int[3];
    floors[0], floors[1], floors[2] := raws[0].Floor, raws[1].Floor, raws[2].Floor;
    var order := SortBy(Claims(raws), NoLater);
    LineIsRanks(raws, order);
    GivePoints(floors, order, 100 - (floors[0] + floors[1] + floors[2]), Ranks(raws));
    shares := Shares(floors[0], floors[1], floors[2]);
  }

  /** Shares lie in 0..100 and add up to 100; each is within one point of its exact percentage; a side
      with no metres has none; and more metres never mean a smaller share. */
  lemma SharesAreFair(left: real, right: real, rest: real)
    requires left >= 0.0 && right >= 0.0 && rest >= 0.0 && left + right + rest > 0.0
    ensures var shares, total := SharesOf(left, right, rest), left + right + rest;
      && 0 <= shares.left <= 100 && 0 <= shares.right <= 100 && 0 <= shares.rest <= 100
      && shares.left + shares.right + shares.rest == 100
      && Raw(left, total) - 1.0 < shares.left as real < Raw(left, total) + 1.0
      && Raw(right, total) - 1.0 < shares.right as real < Raw(right, total) + 1.0
      && Raw(rest, total) - 1.0 < shares.rest as real < Raw(rest, total) + 1.0
      && (left == 0.0 ==> shares.left == 0) && (right == 0.0 ==> shares.right == 0)
        && (rest == 0.0 ==> shares.rest == 0)
      && (left > right ==> shares.left >= shares.right) && (right > left ==> shares.right >= shares.left)
      && (left > rest ==> shares.left >= shares.rest) && (rest > left ==> shares.rest >= shares.left)
      && (right > rest ==> shares.right >= shares.rest) && (rest > right ==> shares.rest >= shares.right)
  {
    var total, raws := left + right + rest, RawsOf(left, right, rest);
    RawsArePercentages(left, right, rest);
    SharesAddUp(raws);
    SharesAreNear(raws, 0);
    SharesAreNear(raws, 1);
    SharesAreNear(raws, 2);
    RawNonNegative(left, total);
    RawNonNegative(right, total);
    RawNonNegative(rest, total);
    MoreIsNoLess(raws, 0, 1, left, right, total);
    MoreIsNoLess(raws, 1, 0, right, left, total);
    MoreIsNoLess(raws, 0, 2, left, rest, total);
    MoreIsNoLess(raws, 2, 0, rest, left, total);
    MoreIsNoLess(raws, 1, 2, right, rest, total);
    MoreIsNoLess(raws, 2, 1, rest, right, total);
  }

  lemma MoreIsNoLess(raws: seq<real>, i: nat, j: nat, a: real, b: real, total: real)
    requires Percentages(raws) && i < 3 && j < 3 && total > 0.0
    requires raws[i] == Raw(a, total) && raws[j] == Raw(b, total)
    ensures a > b ==> Share(raws, i) >= Share(raws, j)
  {
    if a > b {
      RawRises(b, a, total);
      SharesKeepOrder(raws, i, j);
    }
  }

  // ---- the summary of a horizon ----------------------------------------------------------------------------

  datatype Summary = Summary(total: real, side: Side, condition: Condition, shares: Shares, flip: bool)

  /** The sun where nothing dominates. */
  const NO_SUN := Sun(0.0, -1.0)

  function DominantSun(samples: seq<Sample>): Sun {
    var best := Longest(samples, Dominant(samples));
    if best.None? then NO_SUN else best.value.sun
  }

  function Assembled(total: real, side: Side, sun: Sun, shares: Shares): Summary {
    Summary(Projection.Round6(total), side, ConditionOf(sun), shares, shares.left > 0 && shares.right > 0)
  }

  function SummaryOf(samples: seq<Sample>): Summary {
    var left, right := Metres(samples, Left), Metres(samples, Right);
    var shares := SharesOf(left, right, Total(samples) - left - right);
    Assembled(Total(samples), Dominant(samples), DominantSun(samples), shares)
  }

  /** Segments paired with the sun at their middles. */
  function Samples(segments: seq<Projection.AdviceSegment>, suns: seq<Sun>): (samples: seq<Sample>)
    requires |segments| == |suns|
    ensures |samples| == |segments|
    ensures forall i | 0 <= i < |segments| :: samples[i] == Sample(segments[i].distance, segments[i].bearing, suns[i])
  {
    seq(|segments|, i requires 0 <= i < |segments| => Sample(segments[i].distance, segments[i].bearing, suns[i]))
  }

  /** The metres so far per side, and the longest sample so far per side that has one. */
  ghost predicate Summed(samples: seq<Sample>, breakdown: map<Side, real>, best: map<Side, Sample>) {
    && (forall side :: side in breakdown && breakdown[side] == Metres(samples, side))
    && (forall side :: side in best <==> Longest(samples, side).Some?)
    && (forall side | side in best :: Longest(samples, side) == Some(best[side]))
  }

  lemma SumOne(samples: seq<Sample>, sample: Sample, breakdown: map<Side, real>, best: map<Side, Sample>)
    requires Summed(samples, breakdown, best)
    ensures var side := SideOf(sample.sun, sample.bearing);
      Summed(samples + [sample], breakdown[side := breakdown[side] + sample.metres],
        if side !in best || sample.metres > best[side].metres then best[side := sample] else best)
  {
  }

  /** `summarize_advice_horizon`. */
  method SummarizeHorizon(segments: seq<Projection.AdviceSegment>, suns: seq<Sun>) returns (summary: Summary)
    requires |segments| == |suns| && NonNegative(Samples(segments, suns))
    ensures summary == SummaryOf(Samples(segments, suns))
  {
    ghost var samples := Samples(segments, suns);
    var breakdown := map[Left := 0.0, Right := 0.0, Front := 0.0, Back := 0.0, Overhead := 0.0, Dark := 0.0];
    var best: map<Side, Sample> := map[];
    forall side: Side ensures side in breakdown && breakdown[side] == Metres([], side) {
      assert side == Left || side == Right || side == Front || side == Back || side == Overhead || side == Dark;
    }
    assert samples[..0] == [];
    for i := 0 to |segments|
      invariant Summed(samples[..i], breakdown, best)
    {
      var sample := Sample(segments[i].distance, segments[i].bearing, suns[i]);
      var side := SideOf(sample.sun, sample.bearing);
      SumOne(samples[..i], sample, breakdown, best);
      assert samples[..i + 1] == samples[..i] + [sample];
      breakdown := breakdown[side := breakdown[side] + sample.metres];
      if side !in best || sample.metres > best[side].metres {
        best := best[side := sample];
      }
    }
    assert samples[..|segments|] == samples;
    summary := Summarize(samples, breakdown, best);
  }

  function MetresIn(breakdown: map<Side, real>): Side -> real {
    side => if side in breakdown then breakdown[side] else 0.0
  }

  lemma {:induction false} DominantFrom(samples: seq<Sample>, breakdown: map<Side, real>)
    requires forall side :: side in breakdown && breakdown[side] == Metres(samples, side)
    ensures Total(samples) != 0.0 ==> Dominant(samples) == FirstMost(MetresIn(breakdown), |ORDER|)
  {
  }

  lemma {:induction false} BreakdownTotals(samples: seq<Sample>, breakdown: map<Side, real>)
    requires NonNegative(samples) && forall side :: side in breakdown && breakdown[side] == Metres(samples, side)
    ensures Total(samples) == breakdown[Left] + breakdown[Right] + breakdown[Front] + breakdown[Back]
        + breakdown[Overhead] + breakdown[Dark]
    ensures breakdown[Left] >= 0.0 && breakdown[Right] >= 0.0
      && Total(samples) - breakdown[Left] - breakdown[Right] >= 0.0
  {
    MetresAddUp(samples);
    NoSideIsNegative(samples);
  }

  lemma SunFrom(samples: seq<Sample>, breakdown: map<Side, real>, best: map<Side, Sample>)
    requires Summed(samples, breakdown, best)
    ensures var dominant := Dominant(samples);
      DominantSun(samples) == if dominant in best then best[dominant].sun else NO_SUN
  {
  }

  lemma {:induction false} SummaryIs(samples: seq<Sample>, total: real, side: Side, sun: Sun, shares: Shares)
    requires total == Total(samples) && side == Dominant(samples) && sun == DominantSun(samples)
    requires shares == SharesOf(Metres(samples, Left), Metres(samples, Right),
      total - Metres(samples, Left) - Metres(samples, Right))
    ensures Assembled(total, side, sun, shares) == SummaryOf(samples)
  {
  }

  /** The summary of what the loop has added up. */
  method Summarize(ghost samples: seq<Sample>, breakdown: map<Side, real>, best: map<Side, Sample>)
      returns (summary: Summary)
    requires NonNegative(samples) && Summed(samples, breakdown, best)
    ensures summary == SummaryOf(samples)
  {
    BreakdownTotals(samples, breakdown);
    DominantFrom(samples, breakdown);
    SunFrom(samples, breakdown, best);
    var total := breakdown[Left] + breakdown[Right] + breakdown[Front] + breakdown[Back]
        + breakdown[Overhead] + breakdown[Dark];
    var metres := MetresIn(breakdown);
    var dominant := if total != 0.0 then FirstMost(metres, |ORDER|) else Dark;
    var sun := if dominant in best then best[dominant].sun else NO_SUN;
    var left, right := breakdown[Left], breakdown[Right];
    var shares := IntegerPercentShares(left, right, total - left - right);
    SummaryIs(samples, total, dominant, sun, shares);
    summary := Assembled(total, dominant, sun, shares);
  }

  // ---- what the summary means --------------------------------------------------------------------------------

  /** `recommended_seat_area`. */
  function SeatFor(side: Side): Seat {
    match side
    case Left => RightSeat
    case Right => LeftSeat
    case Front => BackSeat
    case Back => FrontSeat
    case Overhead => NeutralSeat
    case Dark => NeutralSeat
  }

  /** `recommended_seat_area_for_horizon`. */
  function SeatForHorizon(summary: Summary): Seat {
    if summary.flip then NeutralSeat else SeatFor(summary.side)
  }

  /** The dominant side of a road of some length has a longest segment, and the condition is read off it. */
  lemma {:induction false} ConditionIsOfLongest(samples: seq<Sample>)
    requires NonNegative(samples) && Total(samples) > 0.0
    ensures exists k | 0 <= k < |samples| ::
      && On(samples[k], Dominant(samples))
      && (forall i | 0 <= i < |samples| && On(samples[i], Dominant(samples)) :: samples[i].metres <= samples[k].metres)
      && DominantSun(samples) == samples[k].sun
  {
    DominantHasMost(samples);
    MetresHaveSample(samples, Dominant(samples));
    LongestIsLongest(samples, Dominant(samples));
  }

  /** No sun exactly at night, and sun overhead exactly when the condition says so. */
  lemma {:induction false} SideFitsCondition(samples: seq<Sample>)
    requires NonNegative(samples) && Total(samples) > 0.0
    ensures var summary := SummaryOf(samples);
      && (summary.side == Dark <==> summary.condition == Night)
      && (summary.side == Overhead <==> summary.condition == HighSun)
  {
    ConditionIsOfLongest(samples);
  }

  /** A seat on one side is only recommended with real sun on the other and next to none on its own. */
  lemma {:induction false} SideSeatIsShaded(samples: seq<Sample>)
    requires NonNegative(samples) && Total(samples) > 0.0
    ensures var summary := SummaryOf(samples);
      && (SeatForHorizon(summary) == LeftSeat ==>
            summary.side == Right && summary.shares.right >= 16 && summary.shares.left == 0
              && Metres(samples, Left) * 100.0 < Total(samples))
      && (SeatForHorizon(summary) == RightSeat ==>
            summary.side == Left && summary.shares.left >= 16 && summary.shares.right == 0
              && Metres(samples, Right) * 100.0 < Total(samples))
  {
    DominantHasMost(samples);
    MetresAddUp(samples);
    NoSideIsNegative(samples);
    var left, right := Metres(samples, Left), Metres(samples, Right);
    OneSidedShares(left, right, Total(samples) - left - right);
  }

  lemma LeaderHasShare(left: real, right: real, rest: real)
    requires left >= 0.0 && right >= 0.0 && rest >= 0.0 && left + right + rest > 0.0
    ensures left >= (left + right + rest) / 6.0 ==> SharesOf(left, right, rest).left > 0
    ensures right >= (left + right + rest) / 6.0 ==> SharesOf(left, right, rest).right > 0
    ensures SharesOf(left, right, rest).left >= 0 && SharesOf(left, right, rest).right >= 0
  {
    var total, raws := left + right + rest, RawsOf(left, right, rest);
    RawsArePercentages(left, right, rest);
    SharesAreNear(raws, 0);
    SharesAreNear(raws, 1);
    if right >= total / 6.0 {
      SixthIsSixteen(right, total);
    }
    if left >= total / 6.0 {
      SixthIsSixteen(left, total);
    }
  }

  /** Which seat is recommended, for each of the five: across from a leading side with no share on the
      other side, away from the front or back, and none where both sides have a share or none leads. */
  ghost predicate IsSeat(samples: seq<Sample>, shares: Shares, seat: Seat) {
    var both := shares.left > 0 && shares.right > 0;
    && (seat == RightSeat <==> Leads(samples, Left) && shares.right == 0)
    && (seat == LeftSeat <==> Leads(samples, Right) && shares.left == 0)
    && (seat == BackSeat <==> Leads(samples, Front) && !both)
    && (seat == FrontSeat <==> Leads(samples, Back) && !both)
    && (seat == NeutralSeat <==> both || Leads(samples, Overhead) || Leads(samples, Dark))
  }

  lemma {:induction false} SeatIsExact(samples: seq<Sample>)
    requires NonNegative(samples) && Total(samples) > 0.0
    ensures IsSeat(samples, SummaryOf(samples).shares, SeatForHorizon(SummaryOf(samples)))
  {
    DominantLeads(samples);
    DominantHasMost(samples);
    MetresAddUp(samples);
    NoSideIsNegative(samples);
    var left, right := Metres(samples, Left), Metres(samples, Right);
    LeaderHasShare(left, right, Total(samples) - left - right);
  }

  predicate IsShare(share: int, metres: real, total: real)
    requires total > 0.0
  {
    metres / total * 100.0 - 1.0 < share as real < metres / total * 100.0 + 1.0 && (metres == 0.0 ==> share == 0)
  }

  /** The shares are the percentages of the metres on the left, on the right and elsewhere, each off by less
      than one, and none where there are no metres. */
  ghost predicate AreShares(samples: seq<Sample>, shares: Shares)
    requires Total(samples) > 0.0
  {
    var left, right, total := Metres(samples, Left), Metres(samples, Right), Total(samples);
    && IsShare(shares.left, left, total) && IsShare(shares.right, right, total)
    && IsShare(shares.rest, total - left - right, total)
  }

  /** The total told is that of all six sides, to half a unit of the sixth decimal. */
  lemma {:induction false} TotalIsTold(samples: seq<Sample>)
    ensures var sides := Metres(samples, Left) + Metres(samples, Right) + Metres(samples, Front)
        + Metres(samples, Back) + Metres(samples, Overhead) + Metres(samples, Dark);
      -0.0000005 <= SummaryOf(samples).total - sides <= 0.0000005
  {
    MetresAddUp(samples);
    Projection.RoundsNear(Total(samples));
  }

  lemma {:induction false} SharesAreOfMetres(samples: seq<Sample>)
    requires NonNegative(samples) && Total(samples) > 0.0
    ensures AreShares(samples, SummaryOf(samples).shares)
  {
    MetresAddUp(samples);
    NoSideIsNegative(samples);
    var left, right := Metres(samples, Left), Metres(samples, Right);
    SharesAre(left, right, Total(samples) - left - right);
  }

  lemma SharesAre(left: real, right: real, rest: real)
    requires left >= 0.0 && right >= 0.0 && rest >= 0.0 && left + right + rest > 0.0
    ensures var shares, total := SharesOf(left, right, rest), left + right + rest;
      IsShare(shares.left, left, total) && IsShare(shares.right, right, total) && IsShare(shares.rest, rest, total)
  {
    SharesAreFair(left, right, rest);
  }

  lemma OneSidedShares(left: real, right: real, rest: real)
    requires left >= 0.0 && right >= 0.0 && rest >= 0.0 && left + right + rest > 0.0
    ensures var shares, total := SharesOf(left, right, rest), left + right + rest;
      !(shares.left > 0 && shares.right > 0) ==>
        && (right >= total / 6.0 ==> shares.right >= 16 && shares.left == 0 && left * 100.0 < total)
        && (left >= total / 6.0 ==> shares.left >= 16 && shares.right == 0 && right * 100.0 < total)
  {
    var shares, total, raws := SharesOf(left, right, rest), left + right + rest, RawsOf(left, right, rest);
    RawsArePercentages(left, right, rest);
    SharesAreNear(raws, 0);
    SharesAreNear(raws, 1);
    if right >= total / 6.0 {
      SixthIsSixteen(right, total);
      ZeroIsUnderOne(left, total);
    }
    if left >= total / 6.0 {
      SixthIsSixteen(left, total);
      ZeroIsUnderOne(right, total);
    }
  }

  lemma SixthIsSixteen(metres: real, total: real)
    requires total > 0.0 && metres >= total / 6.0
    ensures Raw(metres, total) > 16.0
  {
  }

  lemma ZeroIsUnderOne(metres: real, total: real)
    requires total > 0.0 && metres >= 0.0
    ensures Raw(metres, total) < 1.0 ==> metres * 100.0 < total
  {
  }

  lemma {:induction false} SharesAreWhole(samples: seq<Sample>)
    requires NonNegative(samples) && Total(samples) > 0.0
    ensures var shares := SummaryOf(samples).shares;
      shares.left >= 0 && shares.right >= 0 && shares.rest >= 0 && shares.left + shares.right + shares.rest == 100
  {
    MetresAddUp(samples);
    NoSideIsNegative(samples);
    WholeShares(Metres(samples, Left), Metres(samples, Right),
      Total(samples) - Metres(samples, Left) - Metres(samples, Right));
  }

  lemma WholeShares(left: real, right: real, rest: real)
    requires left >= 0.0 && right >= 0.0 && rest >= 0.0 && left + right + rest > 0.0
    ensures var shares := SharesOf(left, right, rest);
      shares.left >= 0 && shares.right >= 0 && shares.rest >= 0 && shares.left + shares.right + shares.rest == 100
  {
    var raws := RawsOf(left, right, rest);
    RawsArePercentages(left, right, rest);
    SharesAddUp(raws);
    SharesAreNear(raws, 0);
    SharesAreNear(raws, 1);
    SharesAreNear(raws, 2);
  }

  /** A flip means road with the sun on both sides. */
  lemma {:induction false} FlipIsReal(samples: seq<Sample>)
    requires NonNegative(samples) && SummaryOf(samples).flip
    ensures Metres(samples, Left) > 0.0 && Metres(samples, Right) > 0.0
  {
    MetresAddUp(samples);
    NoSideIsNegative(samples);
    var left, right := Metres(samples, Left), Metres(samples, Right);
    SharesAreReal(left, right, Total(samples) - left - right);
  }

  lemma SharesAreReal(left: real, right: real, rest: real)
    requires left >= 0.0 && right >= 0.0 && rest >= 0.0
    ensures SharesOf(left, right, rest).left > 0 ==> left > 0.0
    ensures SharesOf(left, right, rest).right > 0 ==> right > 0.0
  {
    if left + right + rest > 0.0 {
      RawsArePercentages(left, right, rest);
      RawNonNegative(left, left + right + rest);
      RawNonNegative(right, left + right + rest);
      SharesAreNear(RawsOf(left, right, rest), 0);
      SharesAreNear(RawsOf(left, right, rest), 1);
    }
  }
}
