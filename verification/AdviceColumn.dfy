/** Filling the denormalised column: group the exported segments by direction, sort each group, and
    read its geometries. */
module AdviceColumn {
  import opened Common
  import opened Schema
  import opened Sorting
  import opened Wkt
  import opened Denorm
  import opened Staging
  import opened Lifecycle

  type Reader = Row<Segment> -> Result<seq<Point>, Fault>

  ghost predicate AllRead(read: Reader, rows: seq<Row<Segment>>) {
    forall row | row in rows :: read(row).Ok?
  }

  ghost predicate SomeFault(read: Reader, rows: seq<Row<Segment>>, fault: Fault) {
    exists row :: row in rows && read(row) == Err(fault)
  }

  /** The fault of the first row that cannot be read. */
  ghost function FirstFault(read: Reader, rows: seq<Row<Segment>>): Option<Fault> {
    if rows == [] then None
    else if FirstFault(read, rows[..|rows| - 1]).Some? then FirstFault(read, rows[..|rows| - 1])
    else match read(rows[|rows| - 1])
      case Ok(_) => None
      case Err(fault) => Some(fault)
  }

  lemma {:induction false} FaultStays(read: Reader, rows: seq<Row<Segment>>, i: nat)
    requires i <= |rows| && FirstFault(read, rows[..i]).Some?
    ensures FirstFault(read, rows) == FirstFault(read, rows[..i])
  {
    if i < |rows| {
      assert rows[..|rows| - 1][..i] == rows[..i];
      FaultStays(read, rows[..|rows| - 1], i);
    } else {
      assert rows[..i] == rows;
    }
  }

  lemma {:induction false} NoFaultWhenRead(read: Reader, rows: seq<Row<Segment>>)
    requires AllRead(read, rows)
    ensures FirstFault(read, rows) == None
  {
    if rows != [] {
      NoFaultWhenRead(read, rows[..|rows| - 1]);
    }
  }

  ghost predicate ListOf(read: Reader, rows: seq<Row<Segment>>, items: seq<AdviceItem>) {
    |items| == |rows| && forall i | 0 <= i < |rows| ::
      read(rows[i]).Ok?
      && items[i] == ItemWith(rows[i], read(rows[i]).value)
  }

  /** A list built row by row, up to the first geometry that cannot be read. */
  method ReadEach(read: Reader, rows: seq<Row<Segment>>) returns (r: Result<seq<AdviceItem>, Fault>)
    ensures r.Ok? <==> AllRead(read, rows)
    ensures r.Ok? ==> ListOf(read, rows, r.value)
    ensures r.Err? ==> SomeFault(read, rows, r.error) && FirstFault(read, rows) == Some(r.error)
  {
    var items: seq<AdviceItem> := [];
    for i := 0 to |rows|
      invariant ListOf(read, rows[..i], items)
    {
      var coordinates := read(rows[i]);
      if coordinates.Err? {
        NoFaultWhenRead(read, rows[..i]);
        assert rows[..i + 1][..i] == rows[..i] && rows[..i + 1][i] == rows[i];
        FaultStays(read, rows, i + 1);
        return Err(coordinates.error);
      }
      items := items + [ItemWith(rows[i], coordinates.value)];
    }
    assert rows[..|rows|] == rows;
    r := Ok(items);
  }

  /** The directions of the rows, at their first occurrence. */
  ghost function DirectionKeys(rows: seq<Row<Segment>>): seq<Id> {
    if rows == [] then []
    else
      var keys, last := DirectionKeys(rows[..|rows| - 1]), rows[|rows| - 1].cols.directionId;
      if last in keys then keys else keys + [last]
  }

  /** The first fault of the first of these directions that has one, each in sequence order. */
  ghost function GroupFault(read: Reader, rows: seq<Row<Segment>>, keys: seq<Id>): Option<Fault> {
    if keys == [] then None
    else if GroupFault(read, rows, keys[..|keys| - 1]).Some? then GroupFault(read, rows, keys[..|keys| - 1])
    else FirstFault(read, SortBy(Grouped(rows, keys[|keys| - 1]), InSequence))
  }

  /** What building the column out of `rows` raises, if anything. */
  ghost function ColumnFault(read: Reader, rows: seq<Row<Segment>>): Option<Fault> {
    GroupFault(read, rows, DirectionKeys(rows))
  }

  lemma {:induction false} GroupFaultStays(read: Reader, rows: seq<Row<Segment>>, keys: seq<Id>, j: nat)
    requires j <= |keys| && GroupFault(read, rows, keys[..j]).Some?
    ensures GroupFault(read, rows, keys) == GroupFault(read, rows, keys[..j])
  {
    if j < |keys| {
      assert keys[..|keys| - 1][..j] == keys[..j];
      GroupFaultStays(read, rows, keys[..|keys| - 1], j);
    } else {
      assert keys[..j] == keys;
    }
  }

  lemma {:induction false} NoGroupFaultWhenRead(read: Reader, rows: seq<Row<Segment>>, keys: seq<Id>)
    requires forall j | 0 <= j < |keys| :: AllRead(read, SortBy(Grouped(rows, keys[j]), InSequence))
    ensures GroupFault(read, rows, keys) == None
  {
    if keys != [] {
      NoGroupFaultWhenRead(read, rows, keys[..|keys| - 1]);
      NoFaultWhenRead(read, SortBy(Grouped(rows, keys[|keys| - 1]), InSequence));
    }
  }

  /** The dictionary of groups, with its keys in insertion order. */
  method GroupByDirection(rows: seq<Row<Segment>>) returns (grouped: map<Id, seq<Row<Segment>>>, keys: seq<Id>)
    ensures forall d :: d in grouped <==> exists row :: row in rows && row.cols.directionId == d
    ensures forall d | d in grouped :: grouped[d] == Grouped(rows, d)
    ensures forall d :: d in grouped <==> d in keys
    ensures keys == DirectionKeys(rows)
  {
    grouped, keys := map[], [];
    for i := 0 to |rows|
      invariant forall d :: d in grouped <==> exists k :: 0 <= k < i && rows[k].cols.directionId == d
      invariant forall d | d in grouped :: grouped[d] == Grouped(rows[..i], d)
      invariant forall d | d !in grouped :: Grouped(rows[..i], d) == []
      invariant forall d :: d in grouped <==> d in keys
      invariant keys == DirectionKeys(rows[..i])
    {
      var d := rows[i].cols.directionId;
      assert rows[..i + 1][..i] == rows[..i];
      var group := if d in grouped then grouped[d] else [];
      if d !in grouped {
        keys := keys + [d];
      }
      grouped := grouped[d := group + [rows[i]]];
    }
    assert rows[..|rows|] == rows;
  }

  /** One list per group, in key order, up to the first unreadable geometry. */
  method ReadGroups(read: Reader, ghost rows: seq<Row<Segment>>, grouped: map<Id, seq<Row<Segment>>>, keys: seq<Id>)
      returns (r: Result<map<Id, seq<AdviceItem>>, Fault>)
    requires forall d :: d in grouped <==> d in keys
    requires forall d | d in grouped :: grouped[d] == Grouped(rows, d)
    ensures r.Ok? <==> forall d | d in grouped :: AllRead(read, SortBy(grouped[d], InSequence))
    ensures r.Ok? ==> (forall d :: d in r.value <==> d in grouped) && forall d | d in grouped ::
      ListOf(read, SortBy(grouped[d], InSequence), r.value[d])
    ensures r.Err? ==> exists d :: d in grouped && SomeFault(read, SortBy(grouped[d], InSequence), r.error)
    ensures r.Err? ==> GroupFault(read, rows, keys) == Some(r.error)
  {
    var columns: map<Id, seq<AdviceItem>> := map[];
    for j := 0 to |keys|
      invariant forall d :: d in columns <==> d in keys[..j]
      invariant forall d | d in columns ::
        AllRead(read, SortBy(grouped[d], InSequence))
        && ListOf(read, SortBy(grouped[d], InSequence), columns[d])
    {
      var d := keys[j];
      var items := ReadEach(read, SortBy(grouped[d], InSequence));
      if items.Err? {
        NoGroupFaultWhenRead(read, rows, keys[..j]);
        assert keys[..j + 1][..j] == keys[..j] && keys[..j + 1][j] == d;
        GroupFaultStays(read, rows, keys, j + 1);
        return Err(items.error);
      }
      columns := columns[d := items.value];
    }
    r := Ok(columns);
  }

  /** The reader stage uses. */
  function StoredReader(p: Platform): Reader {
    (row: Row<Segment>) => StoredCoordinates(p, row.cols.geometry)
  }

  lemma {:induction false} ListOfIsItems(p: Platform, rows: seq<Row<Segment>>, items: seq<AdviceItem>)
    requires ListOf(StoredReader(p), rows, items)
    ensures items == Items(p, rows)
  {
  }

  lemma {:induction false} GroupCovers(rows: seq<Row<Segment>>, d: Id)
    ensures forall row: Row<Segment> :: row in SortBy(Grouped(rows, d), InSequence) <==>
      row in rows
      && row.cols.directionId == d
  {
    var group, sorted := Grouped(rows, d), SortBy(Grouped(rows, d), InSequence);
    GroupedMembers(rows, d);
    SortByKeeps(group, InSequence);
    forall row: Row<Segment> ensures row in sorted <==> row in rows && row.cols.directionId == d {
      assert row in sorted <==> row in multiset(sorted);
      assert row in group <==> row in multiset(group);
    }
  }

  lemma GroupsCoverRows(rows: seq<Row<Segment>>)
    ensures forall row | row in rows :: row in SortBy(Grouped(rows, row.cols.directionId), InSequence)
    ensures forall d, row | row in SortBy(Grouped(rows, d), InSequence) :: row in rows
  {
    forall d ensures forall row: Row<Segment> :: row in SortBy(Grouped(rows, d), InSequence) <==>
      row in rows
      && row.cols.directionId == d {
      GroupCovers(rows, d);
    }
  }

  /** `advice_segments_by_direction`: the column of every direction that has segments, or the fault
      of an unreadable geometry. */
  method AdviceSegmentsByDirection(p: Platform, rows: seq<Row<Segment>>)
      returns (r: Result<map<Id, seq<AdviceItem>>, Fault>)
    ensures r.Ok? <==> GeometriesRead(p, rows)
    ensures r.Ok? ==> forall d :: d in r.value <==> exists row :: row in rows && row.cols.directionId == d
    ensures r.Ok? ==> forall d | d in r.value :: r.value[d] == Derived(p, rows, d)
    ensures r.Err? ==> SomeFault(StoredReader(p), rows, r.error)
    ensures ColumnFault(StoredReader(p), rows) == if r.Ok? then None else Some(r.error)
  {
    var grouped, keys := GroupByDirection(rows);
    GroupsCoverRows(rows);
    assert AllRead(StoredReader(p), rows) <==> GeometriesRead(p, rows);
    r := ReadGroups(StoredReader(p), rows, grouped, keys);
    if r.Ok? {
      NoGroupFaultWhenRead(StoredReader(p), rows, keys);
      forall d | d in r.value ensures r.value[d] == Derived(p, rows, d) {
        ListOfIsItems(p, SortBy(Grouped(rows, d), InSequence), r.value[d]);
      }
    }
  }

  lemma {:induction false} NoSegmentsNoGroup(rows: seq<Row<Segment>>, d: Id)
    requires forall i | 0 <= i < |rows| :: rows[i].cols.directionId != d
    ensures Grouped(rows, d) == []
  {
    if rows != [] {
      NoSegmentsNoGroup(rows[..|rows| - 1], d);
    }
  }

  function ColumnOf(columns: map<Id, seq<AdviceItem>>, d: Id): seq<AdviceItem> {
    if d in columns then columns[d] else []
  }

  /** The direction rows with their column, empty where a direction has no segments. */
  method WithColumns(rows: seq<Row<DirectionInfo>>, columns: map<Id, seq<AdviceItem>>)
      returns (directions: seq<Row<Direction>>)
    ensures |directions| == |rows|
    ensures forall i | 0 <= i < |rows| ::
      directions[i] == Row(rows[i].id, Direction(rows[i].cols, ColumnOf(columns, rows[i].id)))
  {
    directions := [];
    for i := 0 to |rows|
      invariant |directions| == i
      invariant forall k | 0 <= k < i ::
        directions[k] == Row(rows[k].id, Direction(rows[k].cols, ColumnOf(columns, rows[k].id)))
    {
      directions := directions + [Row(rows[i].id, Direction(rows[i].cols, ColumnOf(columns, rows[i].id)))];
    }
  }

  lemma ColumnIsDerived(p: Platform, rows: seq<Row<Segment>>, columns: map<Id, seq<AdviceItem>>, d: Id)
    requires d in columns <==> exists row :: row in rows && row.cols.directionId == d
    requires d in columns ==> columns[d] == Derived(p, rows, d)
    ensures ColumnOf(columns, d) == Derived(p, rows, d)
  {
    if d !in columns {
      NoSegmentsNoGroup(rows, d);
    }
  }

  lemma ColumnsAreDerived(p: Platform, e: Export, columns: map<Id, seq<AdviceItem>>, directions: seq<Row<Direction>>)
    requires forall d :: d in columns <==> exists row :: row in e.segments && row.cols.directionId == d
    requires forall d | d in columns :: columns[d] == Derived(p, e.segments, d)
    requires |directions| == |e.directions|
    requires forall i | 0 <= i < |directions| ::
      directions[i] == Row(e.directions[i].id, Direction(e.directions[i].cols, ColumnOf(columns, e.directions[i].id)))
    ensures directions == DirectionRows(p, e)
  {
    forall i | 0 <= i < |directions| ensures directions[i] == DirectionRows(p, e)[i] {
      ColumnIsDerived(p, e.segments, columns, e.directions[i].id);
    }
  }

  /** What inserting the directions and what follows raises, if anything: the column comes first. */
  ghost function TracksFault(p: Platform, db: Db, g: Id, e: Export): Option<Failure> {
    match ColumnFault(StoredReader(p), e.segments)
    case Some(fault) => Some(Malformed(fault))
    case None => if AcceptsTracks(p, db, g, e) then None else Some(Rejected)
  }

  lemma {:induction false} FirstFaultIsOfRow(read: Reader, rows: seq<Row<Segment>>, fault: Fault)
    requires FirstFault(read, rows) == Some(fault)
    ensures SomeFault(read, rows, fault)
  {
    if FirstFault(read, rows[..|rows| - 1]).Some? {
      FirstFaultIsOfRow(read, rows[..|rows| - 1], fault);
    } else {
      assert rows[|rows| - 1] in rows;
    }
  }

  lemma {:induction false} GroupFaultIsOfRow(read: Reader, rows: seq<Row<Segment>>, keys: seq<Id>, fault: Fault)
    requires GroupFault(read, rows, keys) == Some(fault)
    ensures SomeFault(read, rows, fault)
  {
    if GroupFault(read, rows, keys[..|keys| - 1]).Some? {
      GroupFaultIsOfRow(read, rows, keys[..|keys| - 1], fault);
    } else {
      FirstFaultIsOfRow(read, SortBy(Grouped(rows, keys[|keys| - 1]), InSequence), fault);
      GroupsCoverRows(rows);
    }
  }

  lemma {:induction false} ReadHasNoFault(p: Platform, rows: seq<Row<Segment>>)
    requires GeometriesRead(p, rows)
    ensures ColumnFault(StoredReader(p), rows) == None
  {
    var keys := DirectionKeys(rows);
    GroupsCoverRows(rows);
    forall j | 0 <= j < |keys| ensures AllRead(StoredReader(p), SortBy(Grouped(rows, keys[j]), InSequence)) {
    }
    NoGroupFaultWhenRead(StoredReader(p), rows, keys);
  }

  /** A stage raises nothing exactly when the store accepts the rows. */
  lemma AcceptedHasNoFault(p: Platform, db: Db, g: Id, e: Export)
    requires Accepts(p, db, g, e)
    ensures StageFault(p, db, g, e) == None
  {
    ReadHasNoFault(p, e.segments);
  }

  lemma RefusedHasFault(p: Platform, db: Db, g: Id, e: Export)
    requires !Accepts(p, db, g, e)
    ensures StageFault(p, db, g, e).Some?
    ensures StageFault(p, db, g, e).value == Rejected || StageFault(p, db, g, e).value.Malformed?
  {
  }

  /** A constraint, or a geometry that cannot be read. */
  ghost predicate IsRefusal(p: Platform, rows: seq<Row<Segment>>, why: Failure) {
    why == Rejected || (why.Malformed? && SomeFault(StoredReader(p), rows, why.fault))
  }

  lemma RefusedMeans(p: Platform, db: Db, g: Id, e: Export)
    requires !Accepts(p, db, g, e)
    ensures StageFault(p, db, g, e).Some? && IsRefusal(p, e.segments, StageFault(p, db, g, e).value)
  {
    RefusedHasFault(p, db, g, e);
    var why := StageFault(p, db, g, e).value;
    if why.Malformed? {
      FaultIsOfRow(p, db, g, e, why.fault);
    }
  }

  /** A geometry that stops a stage is that of some row. */
  lemma FaultIsOfRow(p: Platform, db: Db, g: Id, e: Export, fault: Fault)
    requires StageFault(p, db, g, e) == Some(Malformed(fault))
    ensures SomeFault(StoredReader(p), e.segments, fault)
  {
    GroupFaultIsOfRow(StoredReader(p), e.segments, DirectionKeys(e.segments), fault);
  }

  /** What a stage raises, if anything. */
  ghost function StageFault(p: Platform, db: Db, g: Id, e: Export): Option<Failure> {
    if AcceptsBase(db, g, e) then TracksFault(p, AfterVersions(db, g, e), g, e) else Some(Rejected)
  }
}
