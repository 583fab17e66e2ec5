/** Facts about lists that the read paths share: first occurrences, selections, and the uniqueness of
    strictly ascending lists. */
module Sequences {

  /** The elements of `xs` at their first occurrence. */
  function Dedup<T(==)>(xs: seq<T>): seq<T> {
    if xs == [] then []
    else
      var init, last := Dedup(xs[..|xs| - 1]), xs[|xs| - 1];
      if last in init then init else init + [last]
  }

  lemma {:induction false} DedupMembers<T>(xs: seq<T>)
    ensures forall x :: x in Dedup(xs) <==> x in xs
    ensures forall i | 0 <= i < |Dedup(xs)| :: Dedup(xs)[i] in xs
  {
    if xs != [] {
      DedupMembers(xs[..|xs| - 1]);
      assert xs == xs[..|xs| - 1] + [xs[|xs| - 1]];
    }
  }

  lemma {:induction false} DedupNoTwice<T>(xs: seq<T>)
    ensures forall i, j | 0 <= i < j < |Dedup(xs)| :: Dedup(xs)[i] != Dedup(xs)[j]
  {
    if xs != [] {
      DedupNoTwice(xs[..|xs| - 1]);
    }
  }

  /** Elements come in the order of their first occurrences. */
  lemma {:induction false} DedupFirst<T(!new)>(xs: seq<T>, i: nat, j: nat) returns (a: nat)
    requires i < j < |Dedup(xs)|
    ensures a < |xs| && xs[a] == Dedup(xs)[i] && forall b | 0 <= b < |xs| && xs[b] == Dedup(xs)[j] :: a < b
  {
    var init, last := xs[..|xs| - 1], xs[|xs| - 1];
    if j < |Dedup(init)| {
      a := DedupFirst(init, i, j);
    } else {
      DedupMembers(init);
      assert Dedup(init)[i] in init;
      a :| 0 <= a < |init| && init[a] == Dedup(init)[i];
      assert forall b | 0 <= b < |init| :: init[b] in init;
      assert Dedup(xs)[j] == last && last !in init;
    }
  }

  lemma {:induction false} DedupStep<T>(xs: seq<T>, x: T)
    ensures Dedup(xs + [x]) == if x in Dedup(xs) then Dedup(xs) else Dedup(xs) + [x]
  {
  }

  function Select<T>(xs: seq<T>, pick: T -> bool): seq<T> {
    if xs == [] then []
    else if pick(xs[|xs| - 1]) then Select(xs[..|xs| - 1], pick) + [xs[|xs| - 1]]
    else Select(xs[..|xs| - 1], pick)
  }

  lemma {:induction false} SelectMembers<T>(xs: seq<T>, pick: T -> bool)
    ensures forall x :: x in Select(xs, pick) <==> x in xs && pick(x)
    ensures forall i | 0 <= i < |Select(xs, pick)| :: Select(xs, pick)[i] in xs && pick(Select(xs, pick)[i])
  {
    if xs != [] {
      SelectMembers(xs[..|xs| - 1], pick);
      assert xs == xs[..|xs| - 1] + [xs[|xs| - 1]];
    }
  }

  ghost predicate Ascends<T>(xs: seq<T>, less: (T, T) -> bool) {
    forall i, j | 0 <= i < j < |xs| :: less(xs[i], xs[j])
  }

  /** A selection keeps every order between pairs. */
  lemma {:induction false} SelectAscends<T>(xs: seq<T>, pick: T -> bool, less: (T, T) -> bool)
    requires forall i, j | 0 <= i < j < |xs| && pick(xs[i]) && pick(xs[j]) :: less(xs[i], xs[j])
    ensures Ascends(Select(xs, pick), less)
  {
    if xs != [] {
      var init, last := xs[..|xs| - 1], xs[|xs| - 1];
      SelectAscends(init, pick, less);
      SelectMembers(init, pick);
      var kept := Select(init, pick);
      forall i | 0 <= i < |kept| && pick(last) ensures less(kept[i], last) {
        var k :| 0 <= k < |init| && init[k] == kept[i];
      }
    }
  }

  /** First occurrences keep every order between pairs of different elements. */
  lemma {:induction false} DedupAscends<T>(xs: seq<T>, less: (T, T) -> bool)
    requires forall i, j | 0 <= i < j < |xs| && xs[i] != xs[j] :: less(xs[i], xs[j])
    ensures Ascends(Dedup(xs), less)
  {
    if xs != [] {
      var init, last := xs[..|xs| - 1], xs[|xs| - 1];
      DedupAscends(init, less);
      DedupMembers(init);
      var kept := Dedup(init);
      forall i | 0 <= i < |kept| && last !in kept ensures less(kept[i], last) {
        var k :| 0 <= k < |init| && init[k] == kept[i];
      }
    }
  }

  /** Two strictly ascending lists of the same elements are the same list. */
  lemma {:induction false} AscendingSame<T(!new)>(a: seq<T>, b: seq<T>, less: (T, T) -> bool)
    requires Ascends(a, less) && Ascends(b, less)
    requires forall x, y :: !(less(x, y) && less(y, x))
    requires forall x :: x in a <==> x in b
    ensures a == b
  {
    assert a != [] ==> a[0] in b;
    assert b != [] ==> b[0] in a;
    if a != [] && b != [] {
      assert a[0] == b[0];
      assert !less(a[0], a[0]);
      assert a[0] !in a[1..] && b[0] !in b[1..];
      forall x ensures x in a[1..] <==> x in b[1..] {
        assert x in a <==> x == a[0] || x in a[1..];
        assert x in b <==> x == b[0] || x in b[1..];
      }
      AscendingSame(a[1..], b[1..], less);
      assert a == [a[0]] + a[1..] && b == [b[0]] + b[1..];
    }
  }

  function Mapped<T, U>(xs: seq<T>, f: T -> U): (ys: seq<U>)
    ensures |ys| == |xs| && forall i | 0 <= i < |xs| :: ys[i] == f(xs[i])
  {
    seq(|xs|, i requires 0 <= i < |xs| => f(xs[i]))
  }
}
