/** The denormalised advice column: one list per direction, its segment rows in sequence order. */
module Denorm {
  import opened Schema
  import opened Sorting
  import opened Wkt

  function ItemWith(row: Row<Segment>, points: seq<Point>): AdviceItem {
    AdviceItem(row.id, row.cols.sequence, points, row.cols.bearing, row.cols.distance, row.cols.cumulative)
  }

  /** The column element made from one segment row. */
  function ItemOf(p: Platform, row: Row<Segment>): AdviceItem {
    ItemWith(row, match StoredCoordinates(p, row.cols.geometry) case Ok(points) => points case Err(_) => [])
  }

  function Items(p: Platform, rows: seq<Row<Segment>>): (items: seq<AdviceItem>)
    ensures |items| == |rows|
    ensures forall i | 0 <= i < |rows| :: items[i] == ItemOf(p, rows[i])
  {
    if rows == [] then [] else [ItemOf(p, rows[0])] + Items(p, rows[1..])
  }

  /** `rows` is what `SELECT ... WHERE route_direction_id = d ORDER BY sequence` returns. */
  ghost predicate Lists(segments: map<Id, Segment>, d: Id, rows: seq<Row<Segment>>) {
    && (forall row | row in rows :: row.id in segments && segments[row.id] == row.cols && row.cols.directionId == d)
    && (forall s | s in segments && segments[s].directionId == d :: Row(s, segments[s]) in rows)
    && (forall i, j | 0 <= i < j < |rows| :: rows[i].cols.sequence < rows[j].cols.sequence)
  }

  /** The column of every direction is its segment rows in sequence order. */
  ghost predicate DenormSound(p: Platform, db: Db) {
    forall d | d in db.directions :: Mirrors(p, db.segments, d, db.directions[d].advice)
  }

  ghost predicate Mirrors(p: Platform, segments: map<Id, Segment>, d: Id, advice: seq<AdviceItem>) {
    exists rows :: Lists(segments, d, rows) && AllReadable(p, rows) && advice == Items(p, rows)
  }

  /** Every row's geometry can be read. */
  ghost predicate AllReadable(p: Platform, rows: seq<Row<Segment>>) {
    rows == [] || (StoredCoordinates(p, rows[0].cols.geometry).Ok? && AllReadable(p, rows[1..]))
  }

  ghost predicate Ascending(rows: seq<Row<Segment>>) {
    forall i, j | 0 <= i < j < |rows| :: rows[i].cols.sequence < rows[j].cols.sequence
  }

  lemma {:induction false} AscendingUnique(a: seq<Row<Segment>>, b: seq<Row<Segment>>)
    requires Ascending(a) && Ascending(b)
    requires forall row :: row in a <==> row in b
    ensures a == b
  {
    assert a != [] ==> a[0] in b;
    assert b != [] ==> b[0] in a;
    if a != [] && b != [] {
      assert a[0] == b[0];
      forall row ensures row in a[1..] <==> row in b[1..] {
        assert row in a <==> row == a[0] || row in a[1..];
        assert row in b <==> row == b[0] || row in b[1..];
        assert a[0] !in a[1..] && b[0] !in b[1..];
      }
      AscendingUnique(a[1..], b[1..]);
      assert a == [a[0]] + a[1..] && b == [b[0]] + b[1..];
    }
  }

  lemma ListIncluded(segments: map<Id, Segment>, d: Id, a: seq<Row<Segment>>, b: seq<Row<Segment>>)
    requires Lists(segments, d, a) && Lists(segments, d, b)
    ensures forall row | row in a :: row in b
  {
    forall row | row in a ensures row in b {
      var s: Id := row.id;
      assert s in segments && segments[s].directionId == d;
      assert Row(s, segments[s]) in b;
    }
  }

  /** A direction has one list. */
  lemma ListUnique(segments: map<Id, Segment>, d: Id, a: seq<Row<Segment>>, b: seq<Row<Segment>>)
    requires Lists(segments, d, a) && Lists(segments, d, b)
    ensures a == b
  {
    ListIncluded(segments, d, a, b);
    ListIncluded(segments, d, b, a);
    AscendingUnique(a, b);
  }

  // ---- `advice_segments_by_direction` ----------------------------------------------------------

  function InSequence(a: Row<Segment>, b: Row<Segment>): bool {
    a.cols.sequence <= b.cols.sequence
  }

  /** The exported segment rows of direction `d`, in export order. */
  function Grouped(rows: seq<Row<Segment>>, d: Id): seq<Row<Segment>> {
    if rows == [] then []
    else if rows[|rows| - 1].cols.directionId == d then Grouped(rows[..|rows| - 1], d) + [rows[|rows| - 1]]
    else Grouped(rows[..|rows| - 1], d)
  }

  /** The column stage derives for direction `d`. */
  function Derived(p: Platform, rows: seq<Row<Segment>>, d: Id): seq<AdviceItem> {
    Items(p, SortBy(Grouped(rows, d), InSequence))
  }

  lemma {:induction false} GroupedMembers(rows: seq<Row<Segment>>, d: Id)
    ensures forall row :: row in Grouped(rows, d) <==> row in rows && row.cols.directionId == d
  {
    if rows != [] {
      GroupedMembers(rows[..|rows| - 1], d);
      assert rows == rows[..|rows| - 1] + [rows[|rows| - 1]];
    }
  }

  lemma {:induction false} GroupedDistinct(rows: seq<Row<Segment>>, d: Id)
    requires forall i, j | 0 <= i < j < |rows| && rows[i].cols.directionId == rows[j].cols.directionId
               :: rows[i].cols.sequence != rows[j].cols.sequence
    ensures forall i, j | 0 <= i < j < |Grouped(rows, d)| ::
      Grouped(rows, d)[i].cols.sequence != Grouped(rows, d)[j].cols.sequence
  {
    if rows != [] {
      var init, last := rows[..|rows| - 1], rows[|rows| - 1];
      GroupedDistinct(init, d);
      GroupedMembers(init, d);
      if last.cols.directionId == d {
        forall i | 0 <= i < |Grouped(init, d)| ensures Grouped(init, d)[i].cols.sequence != last.cols.sequence {
          assert Grouped(init, d)[i] in init;
        }
      }
    }
  }

  lemma InSequenceTotal()
    ensures TotalPreorder(InSequence)
  {
  }

  /** With distinct sequences per direction, the derived list is strictly ascending. */
  lemma {:induction false} DerivedAscends(rows: seq<Row<Segment>>, d: Id)
    requires forall i, j | 0 <= i < j < |rows| && rows[i].cols.directionId == rows[j].cols.directionId
               :: rows[i].cols.sequence != rows[j].cols.sequence
    ensures Ascending(SortBy(Grouped(rows, d), InSequence))
    ensures forall row :: row in SortBy(Grouped(rows, d), InSequence) <==> row in rows && row.cols.directionId == d
  {
    var group, sorted := Grouped(rows, d), SortBy(Grouped(rows, d), InSequence);
    GroupedMembers(rows, d);
    GroupedDistinct(rows, d);
    InSequenceTotal();
    SortBySorts(group, InSequence);
    SortByKeeps(group, InSequence);
    DistinctKeysStay(group, sorted);
    forall i, j | 0 <= i < j < |sorted| ensures sorted[i].cols.sequence < sorted[j].cols.sequence {
      assert InSequence(sorted[i], sorted[j]);
    }
  }

  ghost predicate DistinctSequences(rows: seq<Row<Segment>>) {
    forall i, j | 0 <= i < j < |rows| :: rows[i].cols.sequence != rows[j].cols.sequence
  }

  /** A permutation of rows with distinct sequences has distinct sequences. */
  lemma DistinctKeysStay(a: seq<Row<Segment>>, b: seq<Row<Segment>>)
    requires DistinctSequences(a) && multiset(a) == multiset(b)
    ensures DistinctSequences(b)
  {
    forall i, j | 0 <= i < j < |b| ensures b[i].cols.sequence != b[j].cols.sequence {
      assert b[i] in multiset(b) && b[j] in multiset(b);
      assert b[i] in a && b[j] in a;
      if b[i] == b[j] {
        TwiceTwice(b, i, j);
        OnceOnce(a, b[i]);
      }
    }
  }

  lemma TwiceTwice<T>(b: seq<T>, i: int, j: int)
    requires 0 <= i < j < |b| && b[i] == b[j]
    ensures multiset(b)[b[i]] >= 2
  {
    assert b == b[..j] + [b[j]] + b[j + 1..];
    assert b[i] in b[..j];
  }

  lemma {:induction false} OnceOnce(a: seq<Row<Segment>>, row: Row<Segment>)
    requires DistinctSequences(a)
    ensures multiset(a)[row] <= 1
  {
    if a != [] {
      OnceOnce(a[1..], row);
      assert a == [a[0]] + a[1..];
      if a[0] == row && row in a[1..] {
        assert false;
      }
    }
  }
}
