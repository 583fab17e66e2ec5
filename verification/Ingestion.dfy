/** From snapshots to passengers. */
module Ingestion {
  import opened Common
  import opened Schema
  import opened Invariant
  import opened Staging
  import opened Lifecycle
  import opened Passenger
  import opened Publication
  import opened Polyline
  import opened CanonicalRows
  import opened Snapshots
  import opened ClosedExports
  import opened Wkt
  import opened Denorm
  import opened DirectionNames
  import P = Projection

  /** Staged, validated and published on any reachable store, non-empty clean snapshots always become
      the current generation, and passengers see exactly the rows made from them. */
  lemma {:induction false} SnapshotsArePublished(p: Platform, earth: Earth, uuid4: nat -> Id,
      snapshots: seq<Snapshot>, parts: seq<Part>, db: Db, g: Id)
    requires earth.longest > 0.0 && Injective(uuid4) && Clean(p, earth, snapshots) && snapshots != []
    requires AreParts(p, earth, uuid4, snapshots, parts) && |parts| == |snapshots|
    requires Inv(p, db) && Fresh(db, g, WithParts(parts))
    ensures var after := Run(p, db, Publishing(g, WithParts(parts)));
      && Pointer(after, Current) == Some(g)
      && Pointer(after, Previous) == Pointer(db, Current)
      && ShowsExport(p, Seen(after), g, WithParts(parts))
  {
    ExportIsWellFormed(p, earth, uuid4, snapshots, parts);
    ExportIsPublished(p, db, g, WithParts(parts));
  }

  lemma PieceItem(p: Platform, earth: Earth, d: SourceDirection, pieces: seq<Piece>, row: Row<Segment>, k: nat, v: Id,
      direction: Id)
    requires earth.longest > 0.0 && Prints(p, earth, d) && Materialised(earth, d, pieces) && k < |pieces|
    requires row.cols == SegmentCols(p, v, direction, pieces[k])
    ensures ItemOf(p, row) == P.TrackOf(row.id, pieces[k])
  {
    PieceCoordinates(p, earth, d, pieces, k);
    PrintedReadsBack(p, pieces[k].coordinates, PrintEwkt(p, pieces[k].coordinates));
  }

  lemma {:induction false} BlockIsStored(p: Platform, earth: Earth, uuid4: nat -> Id, next: nat, v: Id, name: string,
      d: SourceDirection, number: int, block: Block)
    requires earth.longest > 0.0 && IsBlock(p, earth, uuid4, next, v, name, d, number, block) && Prints(p, earth, d)
    ensures P.Stored(Items(p, block.rows), block.pieces)
  {
    var tracks := Items(p, block.rows);
    forall k | 0 <= k < |tracks| ensures tracks[k] == P.TrackOf(tracks[k].publicId, block.pieces[k]) {
      PieceItem(p, earth, d, block.pieces, block.rows[k], k, v, uuid4(next));
    }
  }

  /** Numbered segments with exact running distances, measured on the earth, from the first point of
      `source` to its last. */
  ghost predicate IsRouteOf(earth: Earth, advice: seq<AdviceItem>, source: seq<Point>) {
    && P.IsRoute(advice) && P.IsMeasured(earth, advice)
    && (|source| >= 2 ==>
          && advice != [] && advice[0].coordinates[0] == source[0]
          && advice[|advice| - 1].coordinates[1] == source[|source| - 1])
  }

  /** The segments of an ingested direction, as the column holds them: numbered in order, with exact
      running distances, from the first point of the direction on. */
  lemma {:induction false} IngestedIsRoute(p: Platform, earth: Earth, uuid4: nat -> Id, next: nat, v: Id,
      name: string, d: SourceDirection, number: int, block: Block)
    requires IsEarth(earth) && IsBlock(p, earth, uuid4, next, v, name, d, number, block) && Prints(p, earth, d)
    ensures IsRouteOf(earth, Items(p, block.rows), d.coordinates)
  {
    BlockIsStored(p, earth, uuid4, next, v, name, d, number, block);
    StoredIsRoute(earth, d, block.pieces, Items(p, block.rows));
  }

  lemma {:induction false} StoredIsRoute(earth: Earth, d: SourceDirection, pieces: seq<Piece>, advice: seq<AdviceItem>)
    requires IsEarth(earth) && Materialised(earth, d, pieces) && P.Stored(advice, pieces)
    ensures IsRouteOf(earth, advice, d.coordinates)
  {
    if |d.coordinates| >= 2 {
      var path := Path(earth, Interpolate, d.coordinates, |d.coordinates| - 1);
      P.MaterializedIsRoute(earth, pieces, path, advice);
      P.StoredIsMeasured(earth, pieces, path, advice);
      PathStarts(earth, Interpolate, d.coordinates, |d.coordinates| - 1);
      InterpolateDivides();
      PathReaches(earth, Interpolate, d.coordinates, |d.coordinates| - 1);
      PathIsLonger(earth, d.coordinates);
    }
  }

  lemma PathIsLonger(earth: Earth, coordinates: seq<Point>)
    requires earth.longest > 0.0 && |coordinates| >= 2
    ensures |Path(earth, Interpolate, coordinates, |coordinates| - 1)| >= 2
  {
  }
}
