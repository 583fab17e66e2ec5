/** Nearby results by distance, except that results chained together by gaps of at most two metres
    are ordered by their keys. */
module Nearby {
  import opened Sorting

  const TIE: real := 2.0

  predicate NoFarther<T>(distance: T -> real, key: (T, T) -> bool, a: T, b: T) {
    distance(a) < distance(b) || (distance(a) == distance(b) && key(a, b))
  }

  /** Nearer first, equal distances by key. */
  function Nearer<T>(distance: T -> real, key: (T, T) -> bool): (T, T) -> bool {
    (a, b) => NoFarther(distance, key, a, b)
  }

  lemma NearerIsOrder<T(!new)>(distance: T -> real, key: (T, T) -> bool)
    requires TotalPreorder(key)
    ensures TotalPreorder(Nearer(distance, key))
  {
  }

  // ---- the algorithm ------------------------------------------------------------------------

  /** One more item: in a new band when it is more than the tie farther than the last one. */
  function AddTo<T>(bands: seq<seq<T>>, x: T, distance: T -> real): (more: seq<seq<T>>)
    requires bands != [] && bands[|bands| - 1] != []
  {
    var n := |bands| - 1;
    if distance(x) - distance(bands[n][|bands[n]| - 1]) > TIE then bands + [[x]] else bands[n := bands[n] + [x]]
  }

  function BandsOf<T>(xs: seq<T>, distance: T -> real): (bands: seq<seq<T>>)
    requires xs != []
    ensures bands != [] && bands[|bands| - 1] != []
    ensures bands[|bands| - 1][|bands[|bands| - 1]| - 1] == xs[|xs| - 1]
  {
    if |xs| == 1 then [xs] else AddTo(BandsOf(xs[..|xs| - 1], distance), xs[|xs| - 1], distance)
  }

  /** The bands one after the other, each by key. */
  function ByKey<T>(bands: seq<seq<T>>, key: (T, T) -> bool): seq<T> {
    if bands == [] then [] else ByKey(bands[..|bands| - 1], key) + SortBy(bands[|bands| - 1], key)
  }

  function NearbyOrder<T>(items: seq<T>, distance: T -> real, key: (T, T) -> bool): seq<T> {
    var ordered := SortBy(items, Nearer(distance, key));
    if ordered == [] then [] else ByKey(BandsOf(ordered, distance), key)
  }

  lemma AddToIs<T>(bands: seq<seq<T>>, x: T, distance: T -> real)
    requires bands != [] && bands[|bands| - 1] != []
    ensures var n := |bands| - 1;
      if distance(x) - distance(bands[n][|bands[n]| - 1]) > TIE then
        var grown := bands + [[]];
        AddTo(bands, x, distance) == grown[n + 1 := grown[n + 1] + [x]]
      else AddTo(bands, x, distance) == bands[n := bands[n] + [x]]
  {
    var empty: seq<T> := [];
    assert empty + [x] == [x];
  }

  /** The loop of `order_nearby_items`. */
  method Bands<T>(ordered: seq<T>, distance: T -> real) returns (bands: seq<seq<T>>)
    requires ordered != []
    ensures bands == BandsOf(ordered, distance)
  {
    bands := [[ordered[0]]];
    assert ordered[..1] == [ordered[0]];
    for i := 1 to |ordered|
      invariant bands == BandsOf(ordered[..i], distance)
    {
      var item, n := ordered[i], |bands| - 1;
      assert ordered[..i + 1][..i] == ordered[..i];
      AddToIs(bands, item, distance);
      if distance(item) - distance(bands[n][|bands[n]| - 1]) > TIE {
        bands := bands + [[]];
      }
      bands := bands[|bands| - 1 := bands[|bands| - 1] + [item]];
    }
    assert ordered[..|ordered|] == ordered;
  }

  /** `order_nearby_items`. */
  method OrderNearbyItems<T(!new)>(items: seq<T>, distance: T -> real, key: (T, T) -> bool) returns (out: seq<T>)
    ensures out == NearbyOrder(items, distance, key)
  {
    if |items| == 0 {
      assert items == [];
      return [];
    }
    var ordered := SortBy(items, Nearer(distance, key));
    SortByKeeps(items, Nearer(distance, key));
    var bands := Bands(ordered, distance);
    out := [];
    for b := 0 to |bands|
      invariant out == ByKey(bands[..b], key)
    {
      assert bands[..b + 1][..b] == bands[..b];
      out := out + SortBy(bands[b], key);
    }
    assert bands[..|bands|] == bands;
  }

  // ---- the same items ------------------------------------------------------------------------

  function Flat<T>(bands: seq<seq<T>>): seq<T> {
    if bands == [] then [] else Flat(bands[..|bands| - 1]) + bands[|bands| - 1]
  }

  lemma {:induction false} FlatBands<T>(xs: seq<T>, distance: T -> real)
    requires xs != []
    ensures Flat(BandsOf(xs, distance)) == xs
  {
    if |xs| > 1 {
      var init, x := xs[..|xs| - 1], xs[|xs| - 1];
      FlatBands(init, distance);
      var before, bands := BandsOf(init, distance), BandsOf(xs, distance);
      assert xs == init + [x];
      if |bands| == |before| {
        var n := |before| - 1;
        assert bands[..n] == before[..n];
        assert Flat(bands) == Flat(before[..n]) + (before[n] + [x]);
      } else {
        assert bands[..|bands| - 1] == before;
      }
    } else {
      assert BandsOf(xs, distance)[..0] == [];
    }
  }

  lemma {:induction false} ByKeyKeeps<T>(bands: seq<seq<T>>, key: (T, T) -> bool)
    ensures multiset(ByKey(bands, key)) == multiset(Flat(bands))
  {
    if bands != [] {
      ByKeyKeeps(bands[..|bands| - 1], key);
      SortByKeeps(bands[|bands| - 1], key);
    }
  }

  /** Nothing is lost or added. */
  lemma OrderKeeps<T>(items: seq<T>, distance: T -> real, key: (T, T) -> bool)
    ensures multiset(NearbyOrder(items, distance, key)) == multiset(items)
  {
    var ordered := SortBy(items, Nearer(distance, key));
    SortByKeeps(items, Nearer(distance, key));
    if ordered != [] {
      FlatBands(ordered, distance);
      ByKeyKeeps(BandsOf(ordered, distance), key);
    }
  }

  // ---- the order of the input does not matter ---------------------------------------------------------

  lemma SameFirst<T(!new)>(a: seq<T>, b: seq<T>, le: (T, T) -> bool)
    requires a != [] && b != [] && multiset(a) == multiset(b) && Sorted(a, le) && Sorted(b, le)
    requires forall x, y | x in a && y in a && le(x, y) && le(y, x) :: x == y
    ensures a[0] == b[0]
  {
    assert a[0] in multiset(b) && b[0] in multiset(a);
    var i :| 0 <= i < |b| && b[i] == a[0];
    var j :| 0 <= j < |a| && a[j] == b[0];
    if i != 0 && j != 0 {
      assert le(a[0], a[j]) && le(b[0], b[i]);
    }
  }

  lemma TailKeeps<T>(a: seq<T>, le: (T, T) -> bool)
    requires a != [] && Sorted(a, le)
    ensures multiset(a[1..]) == multiset(a) - multiset{a[0]}
    ensures Sorted(a[1..], le) && forall x | x in a[1..] :: x in a
  {
    assert a == [a[0]] + a[1..];
  }

  lemma SameLength<T>(a: seq<T>, b: seq<T>)
    requires multiset(a) == multiset(b)
    ensures |a| == |b|
  {
    assert |multiset(a)| == |multiset(b)|;
  }

  lemma SameTails<T>(a: seq<T>, b: seq<T>)
    requires a != [] && b != [] && a[0] == b[0] && a[1..] == b[1..]
    ensures a == b
  {
  }

  lemma {:induction false} SortedUnique<T(!new)>(a: seq<T>, b: seq<T>, le: (T, T) -> bool)
    requires multiset(a) == multiset(b) && Sorted(a, le) && Sorted(b, le)
    requires forall x, y | x in a && y in a && le(x, y) && le(y, x) :: x == y
    ensures a == b
  {
    SameLength(a, b);
    if a != [] {
      SameFirst(a, b, le);
      TailKeeps(a, le);
      TailKeeps(b, le);
      SortedUnique(a[1..], b[1..], le);
      SameTails(a, b);
    }
  }

  /** Where items with the same key are the same, the result depends on which items there are and not on
      their order. */
  lemma OrderIsOfTheItems<T(!new)>(a: seq<T>, b: seq<T>, distance: T -> real, key: (T, T) -> bool)
    requires TotalPreorder(key) && multiset(a) == multiset(b)
    requires forall x, y | x in a && y in a && key(x, y) && key(y, x) :: x == y
    ensures NearbyOrder(a, distance, key) == NearbyOrder(b, distance, key)
  {
    var le := Nearer(distance, key);
    NearerIsOrder(distance, key);
    SortBySorts(a, le);
    SortBySorts(b, le);
    SortByKeeps(a, le);
    SortByKeeps(b, le);
    SortedUnique(SortBy(a, le), SortBy(b, le), le);
  }

  // ---- bands ------------------------------------------------------------------------

  /** Place `k` is within two metres of the one before. */
  ghost predicate Close<T>(distance: T -> real, xs: seq<T>, k: nat)
    requires 0 < k < |xs|
  {
    -2.0 <= distance(xs[k]) - distance(xs[k - 1]) <= 2.0
  }

  ghost predicate Tight<T>(xs: seq<T>, distance: T -> real) {
    forall k: nat | 0 < k < |xs| :: Close(distance, xs, k)
  }

  /** Neighbours in the chain are close, and all of it is among the items. */
  ghost predicate Chain<T>(items: seq<T>, distance: T -> real, chain: seq<T>) {
    chain != [] && Tight(chain, distance) && forall k | 0 <= k < |chain| :: chain[k] in items
  }

  /** Some chain of items, each within two metres of the next, leads from one to the other. */
  ghost predicate Linked<T(!new)>(items: seq<T>, distance: T -> real, x: T, y: T) {
    exists chain :: Chain(items, distance, chain) && chain[0] == x && chain[|chain| - 1] == y
  }

  ghost predicate Apart<T(!new)>(low: seq<T>, high: seq<T>, distance: T -> real) {
    forall x, y | x in low && y in high :: distance(x) + 2.0 < distance(y)
  }

  /** Within a band neighbours are close; across bands everything is more than two metres apart. */
  ghost predicate Banded<T(!new)>(bands: seq<seq<T>>, distance: T -> real) {
    && (forall b | 0 <= b < |bands| :: Tight(bands[b], distance))
    && (forall a, b | 0 <= a < b < |bands| :: Apart(bands[a], bands[b], distance))
  }

  lemma {:induction false} FlatHasAll<T>(bands: seq<seq<T>>, b: nat, x: T)
    requires b < |bands| && x in bands[b]
    ensures x in Flat(bands)
  {
    if b < |bands| - 1 {
      FlatHasAll(bands[..|bands| - 1], b, x);
    }
  }

  lemma {:induction false} FlatHasOnly<T>(bands: seq<seq<T>>, x: T) returns (b: nat)
    requires x in Flat(bands)
    ensures b < |bands| && x in bands[b]
  {
    var n := |bands| - 1;
    if x in bands[n] {
      b := n;
    } else {
      b := FlatHasOnly(bands[..n], x);
    }
  }

  lemma TightMore<T>(xs: seq<T>, x: T, distance: T -> real)
    requires Tight(xs, distance) && xs != [] && 0.0 <= distance(x) - distance(xs[|xs| - 1]) <= TIE
    ensures Tight(xs + [x], distance)
  {
    forall k: nat | 0 < k < |xs + [x]| ensures Close(distance, xs + [x], k) {
      if k < |xs| {
        assert Close(distance, xs, k);
      }
    }
  }

  lemma ApartMore<T(!new)>(low: seq<T>, high: seq<T>, x: T, distance: T -> real)
    requires Apart(low, high, distance) && high != [] && distance(high[|high| - 1]) <= distance(x)
    ensures Apart(low, high + [x], distance)
  {
  }

  lemma ApartNew<T(!new)>(low: seq<T>, x: T, last: T, distance: T -> real)
    requires (forall y | y in low :: distance(y) <= distance(last)) && distance(x) - distance(last) > TIE
    ensures Apart(low, [x], distance)
  {
  }

  /** No item is farther than the last one. */
  ghost predicate UpTo<T(!new)>(bands: seq<seq<T>>, distance: T -> real, last: T) {
    forall b | 0 <= b < |bands| :: NoneFarther(bands[b], distance, last)
  }

  ghost predicate NoneFarther<T(!new)>(band: seq<T>, distance: T -> real, last: T) {
    forall y | y in band :: distance(y) <= distance(last)
  }

  lemma AddKeepsBanded<T(!new)>(bands: seq<seq<T>>, x: T, distance: T -> real)
    requires Banded(bands, distance) && bands != [] && bands[|bands| - 1] != []
    requires var n := |bands| - 1; var last := bands[n][|bands[n]| - 1];
      distance(last) <= distance(x) && UpTo(bands, distance, last)
    ensures Banded(AddTo(bands, x, distance), distance)
  {
    var n := |bands| - 1;
    var last := bands[n][|bands[n]| - 1];
    var more := AddTo(bands, x, distance);
    if distance(x) - distance(last) > TIE {
      forall a, b | 0 <= a < b < |more| ensures Apart(more[a], more[b], distance) {
        assert NoneFarther(bands[a], distance, last);
        if b <= n {
          assert Apart(bands[a], bands[b], distance);
        } else {
          ApartNew(bands[a], x, last, distance);
        }
      }
    } else {
      assert Tight(bands[n], distance);
      TightMore(bands[n], x, distance);
      forall a, b | 0 <= a < b < |more| ensures Apart(more[a], more[b], distance) {
        assert Apart(bands[a], bands[b], distance);
        if b == n {
          ApartMore(bands[a], bands[n], x, distance);
        }
      }
    }
  }

  lemma {:induction false} BandsUpTo<T(!new)>(xs: seq<T>, distance: T -> real)
    requires xs != [] && forall i, j | 0 <= i < j < |xs| :: distance(xs[i]) <= distance(xs[j])
    ensures UpTo(BandsOf(xs, distance), distance, xs[|xs| - 1])
  {
    FlatBands(xs, distance);
    var bands := BandsOf(xs, distance);
    forall b | 0 <= b < |bands| ensures NoneFarther(bands[b], distance, xs[|xs| - 1]) {
      forall y | y in bands[b] ensures distance(y) <= distance(xs[|xs| - 1]) {
        FlatHasAll(bands, b, y);
        var k :| 0 <= k < |xs| && xs[k] == y;
      }
    }
  }

  lemma {:induction false} BandsAreBanded<T(!new)>(xs: seq<T>, distance: T -> real)
    requires xs != [] && forall i, j | 0 <= i < j < |xs| :: distance(xs[i]) <= distance(xs[j])
    ensures Banded(BandsOf(xs, distance), distance)
  {
    if |xs| > 1 {
      var init, x := xs[..|xs| - 1], xs[|xs| - 1];
      assert forall i | 0 <= i < |init| :: init[i] == xs[i];
      BandsAreBanded(init, distance);
      BandsUpTo(init, distance);
      var bands := BandsOf(init, distance);
      assert distance(init[|init| - 1]) <= distance(x);
      AddKeepsBanded(bands, x, distance);
      assert BandsOf(xs, distance) == AddTo(bands, x, distance);
    } else {
      assert BandsOf(xs, distance) == [xs];
    }
  }

  // ---- links ------------------------------------------------------------------------

  /** From the bands up to `a`, one close step stays among them. */
  lemma StepStays<T(!new)>(bands: seq<seq<T>>, distance: T -> real, a: nat, b: nat, c: nat, x: T, y: T)
    requires Banded(bands, distance) && b <= a < |bands| && c < |bands| && x in bands[b] && y in bands[c]
    requires distance(y) - distance(x) <= TIE
    ensures c <= a
  {
  }

  /** A chain never leaves the bands up to `a`. */
  lemma {:induction false} ChainStays<T(!new)>(bands: seq<seq<T>>, distance: T -> real, chain: seq<T>, a: nat, b: nat)
      returns (c: nat)
    requires Banded(bands, distance) && b <= a < |bands| && Chain(Flat(bands), distance, chain) && chain[0] in bands[b]
    ensures c <= a && chain[|chain| - 1] in bands[c]
  {
    if |chain| == 1 {
      c := b;
    } else {
      var n := |chain| - 1;
      ChainStart(Flat(bands), distance, chain, n);
      var d := ChainStays(bands, distance, chain[..n], a, b);
      c := FlatHasOnly(bands, chain[n]);
      assert Close(distance, chain, n);
      StepStays(bands, distance, a, d, c, chain[n - 1], chain[n]);
    }
  }

  lemma ChainStart<T>(items: seq<T>, distance: T -> real, chain: seq<T>, n: nat)
    requires Chain(items, distance, chain) && 0 < n <= |chain|
    ensures Chain(items, distance, chain[..n])
  {
    forall k: nat | 0 < k < n ensures Close(distance, chain[..n], k) {
      assert Close(distance, chain, k);
    }
  }

  lemma NotInBoth<T(!new)>(bands: seq<seq<T>>, distance: T -> real, c: nat, b: nat, y: T)
    requires Banded(bands, distance) && c < b < |bands| && y in bands[c]
    ensures y !in bands[b]
  {
  }

  lemma {:induction false} AcrossIsUnlinked<T(!new)>(bands: seq<seq<T>>, distance: T -> real, a: nat, b: nat, x: T,
      y: T)
    requires Banded(bands, distance) && a < b < |bands| && x in bands[a] && y in bands[b]
    ensures !Linked(Flat(bands), distance, x, y)
  {
    if Linked(Flat(bands), distance, x, y) {
      var chain :| Chain(Flat(bands), distance, chain) && chain[0] == x && chain[|chain| - 1] == y;
      var c := ChainStays(bands, distance, chain, a, a);
      NotInBoth(bands, distance, c, b, y);
      assert false;
    }
  }

  function Backwards<T>(xs: seq<T>): (back: seq<T>)
    ensures |back| == |xs| && forall k | 0 <= k < |xs| :: back[k] == xs[|xs| - 1 - k]
  {
    seq(|xs|, k requires 0 <= k < |xs| => xs[|xs| - 1 - k])
  }

  lemma LinkedBack<T(!new)>(items: seq<T>, distance: T -> real, x: T, y: T)
    requires Linked(items, distance, x, y)
    ensures Linked(items, distance, y, x)
  {
    var chain :| Chain(items, distance, chain) && chain[0] == x && chain[|chain| - 1] == y;
    var back := Backwards(chain);
    forall k: nat | 0 < k < |back| ensures Close(distance, back, k) {
      assert Close(distance, chain, |chain| - k);
    }
    assert Chain(items, distance, back);
  }

  lemma {:induction false} PartIsChain<T(!new)>(bands: seq<seq<T>>, distance: T -> real, b: nat, low: nat, high: nat)
    requires Banded(bands, distance) && b < |bands| && low <= high < |bands[b]|
    ensures Chain(Flat(bands), distance, bands[b][low..high + 1])
    ensures Linked(Flat(bands), distance, bands[b][low], bands[b][high])
  {
    var band := bands[b];
    assert Tight(band, distance);
    var chain := band[low..high + 1];
    forall k | 0 <= k < |chain| ensures chain[k] in Flat(bands) {
      FlatHasAll(bands, b, chain[k]);
    }
    forall k: nat | 0 < k < |chain| ensures Close(distance, chain, k) {
      assert Close(distance, band, low + k);
    }
    assert chain[0] == band[low] && chain[|chain| - 1] == band[high];
  }

  lemma {:induction false} WithinIsLinked<T(!new)>(bands: seq<seq<T>>, distance: T -> real, b: nat, x: T, y: T)
    requires Banded(bands, distance) && b < |bands| && x in bands[b] && y in bands[b]
    ensures Linked(Flat(bands), distance, x, y)
  {
    var i :| 0 <= i < |bands[b]| && bands[b][i] == x;
    var j :| 0 <= j < |bands[b]| && bands[b][j] == y;
    if i <= j {
      PartIsChain(bands, distance, b, i, j);
    } else {
      PartIsChain(bands, distance, b, j, i);
      LinkedBack(Flat(bands), distance, y, x);
    }
  }

  // ---- what the order is ------------------------------------------------------------------------

  /** Of two results in order, the bands they come from are in order, and within a band their keys are. */
  lemma {:induction false} PlacesInBands<T(!new)>(bands: seq<seq<T>>, key: (T, T) -> bool, i: nat, j: nat)
      returns (a: nat, b: nat)
    requires TotalPreorder(key) && i < j < |ByKey(bands, key)|
    ensures a <= b < |bands| && ByKey(bands, key)[i] in bands[a] && ByKey(bands, key)[j] in bands[b]
    ensures a == b ==> key(ByKey(bands, key)[i], ByKey(bands, key)[j])
  {
    var n := |bands| - 1;
    var before, last := ByKey(bands[..n], key), SortBy(bands[n], key);
    SortByKeeps(bands[n], key);
    SortBySorts(bands[n], key);
    if j < |before| {
      a, b := PlacesInBands(bands[..n], key, i, j);
    } else {
      b := n;
      assert ByKey(bands, key)[j] == last[j - |before|];
      if i < |before| {
        assert before[i] in multiset(before);
        ByKeyKeeps(bands[..n], key);
        assert before[i] in multiset(Flat(bands[..n]));
        a := FlatHasOnly(bands[..n], before[i]);
      } else {
        a := n;
        assert ByKey(bands, key)[i] == last[i - |before|];
      }
    }
  }

  /** Linked results are in key order; unlinked ones are in distance order and more than two metres apart. */
  ghost predicate InBands<T(!new)>(items: seq<T>, distance: T -> real, key: (T, T) -> bool, x: T, y: T) {
    if Linked(items, distance, x, y) then key(x, y) else distance(x) + 2.0 < distance(y)
  }

  lemma LinkedAlike<T(!new)>(a: seq<T>, b: seq<T>, distance: T -> real, x: T, y: T)
    requires forall z :: z in a <==> z in b
    ensures Linked(a, distance, x, y) <==> Linked(b, distance, x, y)
  {
  }

  /** The order of any two results: a farther one comes first only where a chain of results, each
      within two metres of the next, leads from one to the other, and then their keys say so. */
  lemma OrderIsInBands<T(!new)>(items: seq<T>, distance: T -> real, key: (T, T) -> bool, i: nat, j: nat)
    requires TotalPreorder(key) && i < j < |NearbyOrder(items, distance, key)|
    ensures InBands(items, distance, key, NearbyOrder(items, distance, key)[i], NearbyOrder(items, distance, key)[j])
  {
    var le := Nearer(distance, key);
    var ordered, out := SortBy(items, le), NearbyOrder(items, distance, key);
    NearerIsOrder(distance, key);
    SortBySorts(items, le);
    SortByKeeps(items, le);
    var bands := BandsOf(ordered, distance);
    forall m, n | 0 <= m < n < |ordered| ensures distance(ordered[m]) <= distance(ordered[n]) {
      assert le(ordered[m], ordered[n]);
    }
    BandsAreBanded(ordered, distance);
    FlatBands(ordered, distance);
    var a, b := PlacesInBands(bands, key, i, j);
    LinkedAlike(ordered, items, distance, out[i], out[j]);
    if a == b {
      WithinIsLinked(bands, distance, a, out[i], out[j]);
    } else {
      assert Apart(bands[a], bands[b], distance);
      AcrossIsUnlinked(bands, distance, a, b, out[i], out[j]);
    }
  }
}
