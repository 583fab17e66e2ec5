/** The geometry read behind advice: one joined row and the denormalised column, against the version,
    membership and segment reads it replaced. */
module AdviceContext {
  import opened Common
  import opened Schema
  import opened Wkt
  import opened Readers
  import opened Denorm
  import opened Invariant
  import opened Sequences
  import opened Joins
  import opened DirectionChoices

  datatype SegmentRow = SegmentRow(publicId: Id, sequence: int, geometry: string, bearing: real, distance: real,
      cumulative: real)

  datatype ContextStatus = RouteMissing | Stale | DirectionMissing | Okay

  /** One row of the joined statement. */
  datatype ContextRow = ContextRow(version: Id, direction: Option<Id>, advice: seq<AdviceItem>)

  // ---- status ------------------------------------------------------------------------------------------

  /** `resolve_advice_route_context_status`. */
  function ResolveStatus(current: Option<Id>, requested: Id, belongs: bool): ContextStatus {
    if current.None? then RouteMissing
    else if current.value != requested then Stale
    else if !belongs then DirectionMissing
    else Okay
  }

  /** What the status says about the route, version and direction asked for. */
  ghost predicate IsStatus(db: Db, route: Id, v: Id, d: Id, status: ContextStatus) {
    match status
    case RouteMissing => forall w :: !CurrentVersion(db, route, w)
    case Stale => exists w :: CurrentVersion(db, route, w) && w != v
    case DirectionMissing => CurrentVersion(db, route, v) && !Runs(db, d, v)
    case Okay => CurrentVersion(db, route, v) && Runs(db, d, v)
  }

  lemma StatusUnique(db: Db, route: Id, v: Id, d: Id, a: ContextStatus, b: ContextStatus)
    requires OneVersionPerRoute(db) && IsStatus(db, route, v, d, a) && IsStatus(db, route, v, d, b)
    ensures a == b
  {
    forall x, y | CurrentVersion(db, route, x) && CurrentVersion(db, route, y) ensures x == y {
      CurrentVersionUnique(db, route, x, y);
    }
  }

  // ---- the joined read -----------------------------------------------------------------------------------

  /** `rows` is a result of the one-round-trip statement. */
  ghost predicate ContextRows(db: Db, route: Id, d: Id, rows: seq<ContextRow>) {
    forall row: ContextRow :: row in rows <==>
      && CurrentVersion(db, route, row.version)
      && row == if Runs(db, d, row.version) then ContextRow(row.version, Some(d), db.directions[d].advice)
        else ContextRow(row.version, None, [])
  }

  function Reprint(p: Platform, item: AdviceItem): SegmentRow {
    SegmentRow(item.publicId, item.sequence, PrintLine(p, item.coordinates), item.bearing, item.distance,
      item.cumulative)
  }

  function Reprinted(p: Platform, advice: seq<AdviceItem>): (segments: seq<SegmentRow>)
    ensures |segments| == |advice| && forall i | 0 <= i < |advice| :: segments[i] == Reprint(p, advice[i])
  {
    if advice == [] then [] else [Reprint(p, advice[0])] + Reprinted(p, advice[1..])
  }

  /** `_segments_from_advice_denorm`. */
  method SegmentsFromAdvice(p: Platform, advice: seq<AdviceItem>) returns (segments: seq<SegmentRow>)
    ensures segments == Reprinted(p, advice)
  {
    segments := [];
    for i := 0 to |advice|
      invariant segments == Reprinted(p, advice)[..i]
    {
      segments := segments + [Reprint(p, advice[i])];
    }
  }

  /** The status is right, and the segments are the direction's column, printed. */
  ghost predicate IsJoinedAnswer(p: Platform, db: Db, route: Id, v: Id, d: Id, status: ContextStatus,
      segments: seq<SegmentRow>) {
    && IsStatus(db, route, v, d, status)
    && if status == Okay then segments == Reprinted(p, db.directions[d].advice) else segments == []
  }

  /** `load_advice_route_context`. */
  method LoadAdviceRouteContext(p: Platform, db: Db, route: Id, v: Id, d: Id, rows: seq<ContextRow>)
    returns (status: ContextStatus, segments: seq<SegmentRow>)
    requires OneVersionPerRoute(db) && ContextRows(db, route, d, rows)
    ensures IsJoinedAnswer(p, db, route, v, d, status, segments)
  {
    segments := [];
    if rows == [] {
      NoContextRows(db, route, d, rows);
      return RouteMissing, [];
    }
    assert rows[0] in rows;
    status := ResolveStatus(Some(rows[0].version), v, rows[0].direction.Some?);
    if status == Okay {
      segments := SegmentsFromAdvice(p, rows[0].advice);
    }
  }

  lemma NoContextRows(db: Db, route: Id, d: Id, rows: seq<ContextRow>)
    requires ContextRows(db, route, d, rows) && rows == []
    ensures forall w :: !CurrentVersion(db, route, w)
  {
    forall w ensures !CurrentVersion(db, route, w) {
      var row := if Runs(db, d, w) then ContextRow(w, Some(d), db.directions[d].advice) else ContextRow(w, None, []);
      assert row !in rows;
    }
  }

  // ---- the split reads -------------------------------------------------------------------------------------

  /** `rows` is a result of the segments statement for version `v` of the current generation. */
  ghost predicate SegmentRows(db: Db, v: Id, d: Id, rows: seq<Row<Segment>>) {
    && (forall row: Row<Segment> :: row in rows <==>
          row.id in db.segments && db.segments[row.id] == row.cols && row.cols.versionId == v
            && row.cols.directionId == d)
    && NoTwice(rows)
    && (forall i, j | 0 <= i < j < |rows| :: rows[i].cols.sequence <= rows[j].cols.sequence)
  }

  function Raw(row: Row<Segment>): SegmentRow {
    SegmentRow(row.id, row.cols.sequence, row.cols.geometry, row.cols.bearing, row.cols.distance, row.cols.cumulative)
  }

  /** `found` is a result of the membership statement for version `v` of the current generation. */
  ghost predicate MembershipRows(db: Db, v: Id, d: Id, found: seq<Id>) {
    (found != [] <==> Runs(db, d, v)) && forall x | x in found :: x == d
  }

  /** The status is right, and the segments are the direction's rows in sequence order. */
  ghost predicate IsSplitAnswer(db: Db, route: Id, v: Id, d: Id, status: ContextStatus, segments: seq<SegmentRow>) {
    && IsStatus(db, route, v, d, status)
    && if status == Okay then exists rows :: SegmentRows(db, v, d, rows) && segments == Mapped(rows, Raw)
      else segments == []
  }

  /** Version lookup, membership check, segments. */
  method LoadInSteps(db: Db, route: Id, v: Id, d: Id, versions: seq<Id>, found: seq<Id>, rows: seq<Row<Segment>>)
    returns (status: ContextStatus, segments: seq<SegmentRow>)
    requires OneVersionPerRoute(db) && VersionRows(db, route, versions)
    requires CurrentVersion(db, route, v) ==> MembershipRows(db, v, d, found) && SegmentRows(db, v, d, rows)
    ensures IsSplitAnswer(db, route, v, d, status, segments)
  {
    var current := if versions == [] then None else Some(versions[0]);
    assert current.Some? ==> current.value in versions;
    status := ResolveStatus(current, v, found != []);
    segments := if status == Okay then Mapped(rows, Raw) else [];
  }

  // ---- parsed, the two reads are the same --------------------------------------------------------------------

  /** What becomes of a row once its geometry is parsed for passengers. */
  function Parsed(p: Platform, row: SegmentRow): Option<AdviceItem> {
    match PassengerCoordinates(p, row.geometry)
    case None => None
    case Some(points) => Some(AdviceItem(row.publicId, row.sequence, points, row.bearing, row.distance, row.cumulative))
  }

  /** All rows parsed, or none when one of them cannot be. */
  function ParsedAll(p: Platform, rows: seq<SegmentRow>): Option<seq<AdviceItem>> {
    if rows == [] then Some([])
    else match (Parsed(p, rows[0]), ParsedAll(p, rows[1..]))
      case (Some(item), Some(items)) => Some([item] + items)
      case _ => None
  }

  /** Every geometry has its bracket right after the name, and ends with one. */
  ghost predicate AllBracketed(segments: seq<SegmentRow>) {
    segments == [] || (Plain(segments[0].geometry) && AllBracketed(segments[1..]))
  }

  lemma ReprintedItemParses(p: Platform, row: Row<Segment>)
    requires SoundCodec(p) && StoredCoordinates(p, row.cols.geometry).Ok?
    ensures Parsed(p, Reprint(p, ItemOf(p, row))) == Some(ItemOf(p, row))
  {
    ReprintReadsBack(p, row.cols.geometry);
  }

  lemma {:induction false} ReprintedParses(p: Platform, rows: seq<Row<Segment>>)
    requires SoundCodec(p) && AllReadable(p, rows)
    ensures ParsedAll(p, Reprinted(p, Items(p, rows))) == Some(Items(p, rows))
  {
    if rows != [] {
      ReprintedItemParses(p, rows[0]);
      ReprintedParses(p, rows[1..]);
      var segments := Reprinted(p, Items(p, rows));
      assert segments[1..] == Reprinted(p, Items(p, rows[1..]));
    }
  }

  lemma RawItemParses(p: Platform, row: Row<Segment>)
    requires TakesOnlyLines(p) && Taken(p, row.cols.geometry) && StoredCoordinates(p, row.cols.geometry).Ok?
    ensures Parsed(p, Raw(row)) == if Bracketed(Line(row.cols.geometry)) then Some(ItemOf(p, row)) else None
  {
    TakenIsLine(p, row.cols.geometry);
    PassengersAgree(p, row.cols.geometry);
  }

  lemma {:induction false} RawParses(p: Platform, rows: seq<Row<Segment>>)
    requires TakesOnlyLines(p) && AllReadable(p, rows)
    requires forall i | 0 <= i < |rows| :: Taken(p, rows[i].cols.geometry)
    ensures ParsedAll(p, Mapped(rows, Raw)) == if AllBracketed(Mapped(rows, Raw)) then Some(Items(p, rows)) else None
  {
    if rows != [] {
      var segments := Mapped(rows, Raw);
      assert segments[1..] == Mapped(rows[1..], Raw) && segments[0].geometry == rows[0].cols.geometry;
      RawItemParses(p, rows[0]);
      RawParses(p, rows[1..]);
    }
  }

  lemma SegmentRowsAreListed(db: Db, v: Id, d: Id, rows: seq<Row<Segment>>)
    requires LinksInside(db) && DetailsUnique(db) && Runs(db, d, v) && SegmentRows(db, v, d, rows)
    ensures Lists(db.segments, d, rows)
  {
    forall i, j | 0 <= i < j < |rows| ensures rows[i].cols.sequence < rows[j].cols.sequence {
      var a, b := rows[i], rows[j];
      assert a in rows && b in rows && a != b;
      assert db.segments[a.id] == a.cols && db.segments[b.id] == b.cols;
      assert a.cols.sequence == b.cols.sequence ==> a.id == b.id;
    }
  }

  lemma {:induction false} ColumnParses(p: Platform, db: Db, v: Id, d: Id, rows: seq<Row<Segment>>)
    requires LinksInside(db) && DetailsUnique(db) && DenormSound(p, db) && SoundCodec(p)
    requires Runs(db, d, v) && SegmentRows(db, v, d, rows)
    ensures db.directions[d].advice == Items(p, rows) && AllReadable(p, rows)
    ensures ParsedAll(p, Reprinted(p, db.directions[d].advice)) == Some(db.directions[d].advice)
  {
    SegmentRowsAreListed(db, v, d, rows);
    ColumnIsListed(p, db, d, rows);
    ReprintedParses(p, rows);
  }

  /** In every reachable state the two reads give the same status. When it is ok, the joined read parses
      to the direction's column, and the split read to the same, exactly when every geometry is bracketed
      the way passengers' texts are. */
  lemma {:induction false} ContextReadsAgree(p: Platform, db: Db, route: Id, v: Id, d: Id,
    joined: ContextStatus, reprinted: seq<SegmentRow>, split: ContextStatus, raw: seq<SegmentRow>)
    requires Inv(p, db) && SoundCodec(p) && TakesOnlyLines(p)
    requires IsJoinedAnswer(p, db, route, v, d, joined, reprinted) && IsSplitAnswer(db, route, v, d, split, raw)
    ensures joined == split
    ensures joined == Okay ==> ParsedAll(p, reprinted) == Some(db.directions[d].advice)
    ensures joined == Okay ==> ParsedAll(p, raw) == if AllBracketed(raw) then ParsedAll(p, reprinted) else None
  {
    StatusUnique(db, route, v, d, joined, split);
    if joined == Okay {
      var rows :| SegmentRows(db, v, d, rows) && raw == Mapped(rows, Raw);
      ColumnParses(p, db, v, d, rows);
      SegmentRowsAreTaken(p, db, v, d, rows);
      RawParses(p, rows);
    }
  }

  lemma SegmentRowsAreTaken(p: Platform, db: Db, v: Id, d: Id, rows: seq<Row<Segment>>)
    requires GeometriesSound(p, db) && SegmentRows(db, v, d, rows)
    ensures forall i | 0 <= i < |rows| :: Taken(p, rows[i].cols.geometry)
  {
    forall i | 0 <= i < |rows| ensures Taken(p, rows[i].cols.geometry) {
      assert rows[i] in rows;
      var s: Id := rows[i].id;
      assert s in db.segments && db.segments[s] == rows[i].cols;
    }
  }

  lemma {:induction false} ColumnIsListed(p: Platform, db: Db, d: Id, rows: seq<Row<Segment>>)
    requires DenormSound(p, db) && d in db.directions && Lists(db.segments, d, rows)
    ensures db.directions[d].advice == Items(p, rows) && AllReadable(p, rows)
  {
    var listed :| Lists(db.segments, d, listed) && AllReadable(p, listed)
      && db.directions[d].advice == Items(p, listed);
    ListUnique(db.segments, d, rows, listed);
  }
}
