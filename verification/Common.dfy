/** Shared vocabulary: optional values, results, and a stable sort. */
module Common {

  datatype Option<+T> = None | Some(value: T)

  datatype Result<+T, +E> = Ok(value: T) | Err(error: E)
}

/** A stable sort by a total preorder: what `sorted` and `list.sort` compute. */
module Sorting {

  ghost predicate TotalPreorder<T(!new)>(le: (T, T) -> bool) {
    && (forall x, y :: le(x, y) || le(y, x))
    && (forall x, y, z :: le(x, y) && le(y, z) ==> le(x, z))
  }

  ghost predicate Sorted<T>(xs: seq<T>, le: (T, T) -> bool) {
    forall i, j | 0 <= i < j < |xs| :: le(xs[i], xs[j])
  }

  function Insert<T>(x: T, xs: seq<T>, le: (T, T) -> bool): seq<T> {
    if xs == [] || le(x, xs[0]) then [x] + xs else [xs[0]] + Insert(x, xs[1..], le)
  }

  function SortBy<T>(xs: seq<T>, le: (T, T) -> bool): seq<T> {
    if xs == [] then [] else Insert(xs[0], SortBy(xs[1..], le), le)
  }

  lemma {:induction false} InsertKeeps<T>(x: T, xs: seq<T>, le: (T, T) -> bool)
    ensures multiset(Insert(x, xs, le)) == multiset{x} + multiset(xs)
  {
    if xs != [] && !le(x, xs[0]) {
      InsertKeeps(x, xs[1..], le);
      assert xs == [xs[0]] + xs[1..];
    }
  }

  lemma {:induction false} InsertSorts<T(!new)>(x: T, xs: seq<T>, le: (T, T) -> bool)
    requires TotalPreorder(le) && Sorted(xs, le)
    ensures Sorted(Insert(x, xs, le), le)
  {
    if xs == [] || le(x, xs[0]) {
      assert forall i | 0 < i < |xs| :: le(xs[0], xs[i]);
    } else {
      InsertSorts(x, xs[1..], le);
      InsertKeeps(x, xs[1..], le);
      var rest := Insert(x, xs[1..], le);
      forall i | 0 <= i < |rest| ensures le(xs[0], rest[i]) {
        assert rest[i] in multiset(rest);
        if rest[i] != x {
          assert rest[i] in xs[1..];
        }
      }
    }
  }

  /** A sorted permutation. */
  lemma {:induction false} SortBySorts<T(!new)>(xs: seq<T>, le: (T, T) -> bool)
    requires TotalPreorder(le)
    ensures Sorted(SortBy(xs, le), le)
  {
    if xs != [] {
      SortBySorts(xs[1..], le);
      InsertSorts(xs[0], SortBy(xs[1..], le), le);
    }
  }

  lemma {:induction false} SortByPermutes<T>(xs: seq<T>, le: (T, T) -> bool)
    ensures multiset(SortBy(xs, le)) == multiset(xs)
  {
    if xs != [] {
      SortByPermutes(xs[1..], le);
      InsertKeeps(xs[0], SortBy(xs[1..], le), le);
      assert xs == [xs[0]] + xs[1..];
    }
  }

  lemma {:induction false} SortByKeeps<T>(xs: seq<T>, le: (T, T) -> bool)
    ensures multiset(SortBy(xs, le)) == multiset(xs)
    ensures |SortBy(xs, le)| == |xs|
    ensures forall x :: x in SortBy(xs, le) <==> x in xs
  {
    SortByPermutes(xs, le);
    assert |multiset(SortBy(xs, le))| == |multiset(xs)|;
    forall x ensures x in SortBy(xs, le) <==> x in xs {
      assert x in SortBy(xs, le) <==> x in multiset(SortBy(xs, le));
    }
  }

  lemma {:induction false} InsertDistinct<T>(x: T, xs: seq<T>, le: (T, T) -> bool)
    requires x !in xs && forall i, j | 0 <= i < j < |xs| :: xs[i] != xs[j]
    ensures forall i, j | 0 <= i < j < |Insert(x, xs, le)| :: Insert(x, xs, le)[i] != Insert(x, xs, le)[j]
    ensures forall i | 0 <= i < |Insert(x, xs, le)| :: Insert(x, xs, le)[i] == x || Insert(x, xs, le)[i] in xs
  {
    if xs != [] && !le(x, xs[0]) {
      InsertDistinct(x, xs[1..], le);
    }
  }

  /** Sorting a list without duplicates gives one. */
  lemma {:induction false} SortByDistinct<T>(xs: seq<T>, le: (T, T) -> bool)
    requires forall i, j | 0 <= i < j < |xs| :: xs[i] != xs[j]
    ensures forall i, j | 0 <= i < j < |SortBy(xs, le)| :: SortBy(xs, le)[i] != SortBy(xs, le)[j]
    ensures forall i | 0 <= i < |SortBy(xs, le)| :: SortBy(xs, le)[i] in xs
  {
    if xs != [] {
      SortByDistinct(xs[1..], le);
      SortByKeeps(xs[1..], le);
      InsertDistinct(xs[0], SortBy(xs[1..], le), le);
    }
  }
}
