/** What the segment rows of an export say of the directions they divide. */
module IngestedSegments {
  import opened Schema
  import opened Wkt
  import opened Staging
  import opened Polyline
  import opened CanonicalRows
  import opened Snapshots
  import opened ClosedExports
  import opened IngestedColumns
  import opened IngestedRows

  /** The row of a stretch of direction number `n`: from one fraction to another of the edge it names, with
      the distance and bearing of that stretch on the earth. */
  ghost predicate IsStretchOf(p: Platform, earth: Earth, s: Snapshot, n: int, row: Row<Segment>) {
    && 1 <= n <= |s.directions| && 1 <= row.cols.sourceSequence < |s.directions[n - 1].coordinates|
    && 0.0 <= row.cols.fractionStart < row.cols.fractionEnd <= 1.0
    && var i, line := row.cols.sourceSequence, s.directions[n - 1].coordinates;
      var from := Interpolate(line[i - 1], line[i], row.cols.fractionStart);
      var to := Interpolate(line[i - 1], line[i], row.cols.fractionEnd);
      && row.cols.geometry == PrintEwkt(p, [from, to])
      && row.cols.distance == earth.distance(from, to) && row.cols.bearing == earth.bearing(from, to)
  }

  /** The row belongs to a direction of the snapshot, and is a stretch of it. */
  ghost predicate TellsStretch(p: Platform, earth: Earth, e: Export, s: Snapshot, row: Row<Segment>) {
    exists n :: IsNumbered(e.directions, row.cols.directionId, row.cols.versionId, n)
      && IsStretchOf(p, earth, s, n, row)
  }

  lemma BlockStretch(p: Platform, earth: Earth, uuid4: nat -> Id, next: nat, v: Id, name: string, s: Snapshot,
      j: nat, block: Block, k: nat)
    requires earth.longest > 0.0 && j < |s.directions| && k < |block.rows|
    requires IsBlock(p, earth, uuid4, next, v, name, s.directions[j], j + 1, block)
    ensures IsStretchOf(p, earth, s, j + 1, block.rows[k])
    ensures block.row.cols.versionId == block.rows[k].cols.versionId == v && block.row.cols.sequence == j + 1
    ensures block.rows[k].cols.directionId == block.row.id
  {
    var line, piece := s.directions[j].coordinates, block.pieces[k];
    assert OnSource(Interpolate, line, piece);
    var path := Path(earth, Interpolate, line, |line| - 1);
    assert piece.coordinates == [path[k], path[k + 1]];
  }

  lemma {:induction false} SourceInBlocks(blocks: seq<Block>, row: Row<Segment>) returns (j: nat, k: nat)
    requires row in BlockSegments(blocks)
    ensures j < |blocks| && k < |blocks[j].rows| && blocks[j].rows[k] == row
  {
    var n := |blocks| - 1;
    if row in BlockSegments(blocks[..n]) {
      j, k := SourceInBlocks(blocks[..n], row);
    } else {
      j := n;
      k :| 0 <= k < |blocks[n].rows| && blocks[n].rows[k] == row;
    }
  }

  lemma {:induction false} SourceOfSegment(parts: seq<Part>, row: Row<Segment>) returns (i: nat, j: nat, k: nat)
    requires row in WithParts(parts).segments
    ensures i < |parts| && j < |parts[i].blocks| && k < |parts[i].blocks[j].rows|
    ensures parts[i].blocks[j].rows[k] == row
  {
    var n := |parts| - 1;
    if row in WithParts(parts[..n]).segments {
      i, j, k := SourceOfSegment(parts[..n], row);
    } else {
      i := n;
      j, k := SourceInBlocks(parts[n].blocks, row);
    }
  }

  lemma {:induction false} SegmentIsStretch(p: Platform, earth: Earth, uuid4: nat -> Id, snapshots: seq<Snapshot>,
      parts: seq<Part>, i: nat, row: Row<Segment>)
    requires earth.longest > 0.0 && AreParts(p, earth, uuid4, snapshots, parts) && i < |parts| == |snapshots|
    requires DistinctIds(WithParts(parts).versions)
    requires row in WithParts(parts).segments && row.cols.versionId == parts[i].version.id
    ensures TellsStretch(p, earth, WithParts(parts), snapshots[i], row)
  {
    var a, j, k := SourceOfSegment(parts, row);
    var next := PartAt(p, earth, uuid4, snapshots, parts, a);
    var at, name := PartOrigin(p, earth, uuid4, next, snapshots[a], parts[a], j);
    BlockStretch(p, earth, uuid4, at, parts[a].version.id, name, snapshots[a], j, parts[a].blocks[j], k);
    SamePart(parts, a, i);
    PartRowsAreIn(parts, a);
    assert IsNumbered(WithParts(parts).directions, row.cols.directionId, row.cols.versionId, j + 1);
  }

  /** In the export of clean snapshots, every segment row of a snapshot's version is a stretch of one of its
      directions. */
  lemma {:induction false} SegmentsTellEdges(p: Platform, earth: Earth, uuid4: nat -> Id, snapshots: seq<Snapshot>,
      parts: seq<Part>)
    requires earth.longest > 0.0 && Injective(uuid4) && Clean(p, earth, snapshots)
    requires AreParts(p, earth, uuid4, snapshots, parts) && |parts| == |snapshots|
    ensures var e := WithParts(parts);
      |e.versions| == |snapshots| && forall i, row | 0 <= i < |snapshots| && row in e.segments ::
        row.cols.versionId == e.versions[i].id ==> TellsStretch(p, earth, e, snapshots[i], row)
  {
    var e := WithParts(parts);
    ExportIsWellFormed(p, earth, uuid4, snapshots, parts);
    forall i, row | 0 <= i < |snapshots| && row in e.segments && row.cols.versionId == e.versions[i].id
      ensures TellsStretch(p, earth, e, snapshots[i], row)
    {
      VersionRowsOf(parts, i);
      SegmentIsStretch(p, earth, uuid4, snapshots, parts, i, row);
    }
  }
}
