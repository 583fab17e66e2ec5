/** The advice column of ingested directions: what stage groups and sorts out of an export is, for every
    direction, the segments that were materialised for it. */
module IngestedColumns {
  import opened Sorting
  import opened Schema
  import opened Invariant
  import opened Denorm
  import opened Staging
  import opened Lifecycle
  import opened Passenger
  import opened Publication
  import opened Polyline
  import P = Projection
  import opened DirectionNames
  import opened CanonicalRows
  import opened Snapshots
  import opened ClosedExports
  import opened Ingestion

  // ---- grouping ----------------------------------------------------------------------------------------

  lemma {:induction false} GroupedJoin(a: seq<Row<Segment>>, b: seq<Row<Segment>>, d: Id)
    ensures Grouped(a + b, d) == Grouped(a, d) + Grouped(b, d)
    decreases |b|
  {
    if b == [] {
      assert a + b == a;
    } else {
      var init, last := b[..|b| - 1], b[|b| - 1];
      GroupedJoin(a, init, d);
      assert (a + b)[..|a + b| - 1] == a + init && (a + b)[|a + b| - 1] == last;
    }
  }

  lemma {:induction false} GroupedAll(rows: seq<Row<Segment>>, d: Id)
    requires forall k | 0 <= k < |rows| :: rows[k].cols.directionId == d
    ensures Grouped(rows, d) == rows
  {
    if rows != [] {
      GroupedAll(rows[..|rows| - 1], d);
    }
  }

  lemma {:induction false} GroupedNone(rows: seq<Row<Segment>>, d: Id)
    requires forall k | 0 <= k < |rows| :: rows[k].cols.directionId != d
    ensures Grouped(rows, d) == []
  {
    if rows != [] {
      GroupedNone(rows[..|rows| - 1], d);
    }
  }

  /** A list in strict order is not moved by the sort. */
  lemma {:induction false} SortedStays(rows: seq<Row<Segment>>)
    requires Ascending(rows)
    ensures SortBy(rows, InSequence) == rows
  {
    if rows != [] {
      SortedStays(rows[1..]);
      assert rows == [rows[0]] + rows[1..];
    }
  }

  // ---- the blocks of an export ---------------------------------------------------------------------------

  ghost predicate IsOwn(block: Block) {
    && Ascending(block.rows)
    && forall k | 0 <= k < |block.rows| :: block.rows[k].cols.directionId == block.row.id
  }

  ghost predicate AllOwn(blocks: seq<Block>) {
    forall j | 0 <= j < |blocks| :: IsOwn(blocks[j])
  }

  ghost predicate DistinctRows(blocks: seq<Block>) {
    forall i, j | 0 <= i < j < |blocks| :: blocks[i].row.id != blocks[j].row.id
  }

  lemma {:induction false} OthersHaveNone(blocks: seq<Block>, d: Id)
    requires AllOwn(blocks) && forall j | 0 <= j < |blocks| :: blocks[j].row.id != d
    ensures Grouped(BlockSegments(blocks), d) == []
  {
    if blocks != [] {
      var n := |blocks| - 1;
      OthersHaveNone(blocks[..n], d);
      assert IsOwn(blocks[n]);
      GroupedNone(blocks[n].rows, d);
      GroupedJoin(BlockSegments(blocks[..n]), blocks[n].rows, d);
    }
  }

  lemma {:induction false} GroupedOfBlocks(blocks: seq<Block>, j: nat)
    requires AllOwn(blocks) && DistinctRows(blocks) && j < |blocks|
    ensures Grouped(BlockSegments(blocks), blocks[j].row.id) == blocks[j].rows
  {
    var n := |blocks| - 1;
    var init, last, d := blocks[..n], blocks[n], blocks[j].row.id;
    assert IsOwn(last) && AllOwn(init);
    GroupedJoin(BlockSegments(init), last.rows, d);
    if j == n {
      GroupedAll(last.rows, d);
      OthersHaveNone(init, d);
    } else {
      GroupedNone(last.rows, d);
      GroupedOfBlocks(init, j);
    }
  }

  function BlocksOf(parts: seq<Part>): seq<Block> {
    if parts == [] then [] else BlocksOf(parts[..|parts| - 1]) + parts[|parts| - 1].blocks
  }

  lemma {:induction false} SegmentsJoin(a: seq<Block>, b: seq<Block>)
    ensures BlockSegments(a + b) == BlockSegments(a) + BlockSegments(b)
    decreases |b|
  {
    if b == [] {
      assert a + b == a;
    } else {
      var init, last, whole := b[..|b| - 1], b[|b| - 1], a + b;
      SegmentsJoin(a, init);
      assert whole[..|whole| - 1] == a + init && whole[|whole| - 1] == last;
      assert BlockSegments(whole) == BlockSegments(a + init) + last.rows;
      assert BlockSegments(a) + (BlockSegments(init) + last.rows) == BlockSegments(a) + BlockSegments(init) + last.rows;
    }
  }

  lemma {:induction false} DirectionsJoin(a: seq<Block>, b: seq<Block>)
    ensures BlockDirections(a + b) == BlockDirections(a) + BlockDirections(b)
  {
  }

  lemma {:induction false} PartsAreBlocks(parts: seq<Part>)
    ensures WithParts(parts).segments == BlockSegments(BlocksOf(parts))
    ensures WithParts(parts).directions == BlockDirections(BlocksOf(parts))
  {
    if parts != [] {
      var n := |parts| - 1;
      PartsAreBlocks(parts[..n]);
      SegmentsJoin(BlocksOf(parts[..n]), parts[n].blocks);
      DirectionsJoin(BlocksOf(parts[..n]), parts[n].blocks);
    }
  }

  /** Every block's segments are its own and numbered in order. */
  lemma BlockIsOwn(p: Platform, earth: Earth, uuid4: nat -> Id, next: nat, v: Id, name: string, d: SourceDirection,
      number: int, block: Block)
    requires earth.longest > 0.0 && IsBlock(p, earth, uuid4, next, v, name, d, number, block)
    ensures IsOwn(block)
  {
    PieceRows(p, earth, uuid4, next, v, name, d, number, block);
  }

  /** Where block `j` of a snapshot comes from. */
  lemma {:induction false} BlockAt(p: Platform, earth: Earth, uuid4: nat -> Id, next: nat, v: Id, names: seq<string>,
      s: Snapshot,
    blocks: seq<Block>, j: nat) returns (at: nat)
    requires earth.longest > 0.0 && AreBlocks(p, earth, uuid4, next, v, names, s, blocks) && j < |blocks|
    ensures j < |s.directions| && j < |names|
      && IsBlock(p, earth, uuid4, at, v, names[j], s.directions[j], j + 1, blocks[j])
  {
    var n := |blocks| - 1;
    if j == n {
      at := NextAfter(next, blocks[..n]);
    } else {
      at := BlockAt(p, earth, uuid4, next, v, names, s, blocks[..n], j);
    }
  }

  /** Where part `i` comes from. */
  lemma {:induction false} PartAt(p: Platform, earth: Earth, uuid4: nat -> Id, snapshots: seq<Snapshot>,
      parts: seq<Part>, i: nat) returns (at: nat)
    requires earth.longest > 0.0 && AreParts(p, earth, uuid4, snapshots, parts) && i < |parts|
    ensures i < |snapshots| && IsPart(p, earth, uuid4, at, snapshots[i], parts[i])
  {
    var n := |parts| - 1;
    if i == n {
      at := PartsEnd(parts[..n]);
    } else {
      at := PartAt(p, earth, uuid4, snapshots, parts[..n], i);
    }
  }

  lemma PartIsOwn(p: Platform, earth: Earth, uuid4: nat -> Id, next: nat, s: Snapshot, part: Part)
    requires earth.longest > 0.0 && IsPart(p, earth, uuid4, next, s, part)
    ensures AllOwn(part.blocks)
  {
    forall j | 0 <= j < |part.blocks| ensures IsOwn(part.blocks[j]) {
      var at := BlockAt(p, earth, uuid4, next + 1, part.version.id, Names(s), s, part.blocks, j);
      BlockIsOwn(p, earth, uuid4, at, part.version.id, Names(s)[j], s.directions[j], j + 1, part.blocks[j]);
    }
  }

  lemma {:induction false} PartsAreOwn(p: Platform, earth: Earth, uuid4: nat -> Id, snapshots: seq<Snapshot>,
      parts: seq<Part>)
    requires earth.longest > 0.0 && AreParts(p, earth, uuid4, snapshots, parts)
    ensures AllOwn(BlocksOf(parts))
  {
    if parts != [] {
      var n := |parts| - 1;
      PartsAreOwn(p, earth, uuid4, snapshots, parts[..n]);
      PartIsOwn(p, earth, uuid4, PartsEnd(parts[..n]), snapshots[n], parts[n]);
    }
  }

  lemma {:induction false} BlockIndex(parts: seq<Part>, i: nat, j: nat) returns (k: nat)
    requires i < |parts| && j < |parts[i].blocks|
    ensures k < |BlocksOf(parts)| && BlocksOf(parts)[k] == parts[i].blocks[j]
  {
    var n := |parts| - 1;
    if i == n {
      k := |BlocksOf(parts[..n])| + j;
    } else {
      k := BlockIndex(parts[..n], i, j);
    }
  }

  // ---- the column -----------------------------------------------------------------------------------------

  /** What stage derives for a direction is its block, in order. */
  lemma {:induction false} DerivedIsBlock(p: Platform, parts: seq<Part>, i: nat, j: nat)
    requires AllOwn(BlocksOf(parts)) && DistinctIds(WithParts(parts).directions) && i < |parts| && j < |parts[i].blocks|
    ensures var block := parts[i].blocks[j];
      Derived(p, WithParts(parts).segments, block.row.id) == Items(p, block.rows)
  {
    var blocks := BlocksOf(parts);
    PartsAreBlocks(parts);
    assert DistinctRows(blocks) by {
      forall a, b | 0 <= a < b < |blocks| ensures blocks[a].row.id != blocks[b].row.id {
        assert WithParts(parts).directions[a].id != WithParts(parts).directions[b].id;
      }
    }
    var k := BlockIndex(parts, i, j);
    GroupedOfBlocks(blocks, k);
    assert IsOwn(blocks[k]);
    SortedStays(blocks[k].rows);
  }

  lemma PartOrigin(p: Platform, earth: Earth, uuid4: nat -> Id, next: nat, s: Snapshot, part: Part, j: nat)
      returns (at: nat, name: string)
    requires earth.longest > 0.0 && IsPart(p, earth, uuid4, next, s, part) && j < |part.blocks|
    ensures j < |s.directions| && IsBlock(p, earth, uuid4, at, part.version.id, name, s.directions[j], j + 1,
      part.blocks[j])
  {
    var names := Names(s);
    at := BlockAt(p, earth, uuid4, next + 1, part.version.id, names, s, part.blocks, j);
    name := names[j];
  }

  /** Where a block comes from: a direction of its snapshot. */
  lemma BlockOrigin(p: Platform, earth: Earth, uuid4: nat -> Id, snapshots: seq<Snapshot>, parts: seq<Part>, i: nat,
      j: nat)
    returns (at: nat, v: Id, name: string)
    requires earth.longest > 0.0 && AreParts(p, earth, uuid4, snapshots, parts) && i < |parts| && j < |parts[i].blocks|
    ensures i < |snapshots| && j < |snapshots[i].directions|
    ensures IsBlock(p, earth, uuid4, at, v, name, snapshots[i].directions[j], j + 1, parts[i].blocks[j])
  {
    var next := PartAt(p, earth, uuid4, snapshots, parts, i);
    v := parts[i].version.id;
    at, name := PartOrigin(p, earth, uuid4, next, snapshots[i], parts[i], j);
  }

  lemma {:induction false} BlockIsRoute(p: Platform, earth: Earth, uuid4: nat -> Id, snapshots: seq<Snapshot>,
      parts: seq<Part>, i: nat, j: nat)
    requires IsEarth(earth) && AreParts(p, earth, uuid4, snapshots, parts) && i < |parts| && j < |parts[i].blocks|
    requires forall a, b | 0 <= a < |snapshots| && 0 <= b < |snapshots[a].directions| ::
      Prints(p, earth, snapshots[a].directions[b])
    ensures i < |snapshots| && j < |snapshots[i].directions|
    ensures IsRouteOf(earth, Items(p, parts[i].blocks[j].rows), snapshots[i].directions[j].coordinates)
  {
    var at, v, name := BlockOrigin(p, earth, uuid4, snapshots, parts, i, j);
    IngestedIsRoute(p, earth, uuid4, at, v, name, snapshots[i].directions[j], j + 1, parts[i].blocks[j]);
  }

  lemma {:induction false} ColumnIsRoute(p: Platform, earth: Earth, uuid4: nat -> Id, snapshots: seq<Snapshot>,
      parts: seq<Part>, i: nat, j: nat)
    requires IsEarth(earth) && Injective(uuid4) && Clean(p, earth, snapshots)
    requires AreParts(p, earth, uuid4, snapshots, parts) && |parts| == |snapshots|
    requires i < |parts| && j < |parts[i].blocks|
    ensures j < |snapshots[i].directions|
    ensures IsRouteOf(earth, Derived(p, WithParts(parts).segments, parts[i].blocks[j].row.id),
      snapshots[i].directions[j].coordinates)
  {
    ExportIsWellFormed(p, earth, uuid4, snapshots, parts);
    PartsAreOwn(p, earth, uuid4, snapshots, parts);
    DerivedIsBlock(p, parts, i, j);
    BlockIsRoute(p, earth, uuid4, snapshots, parts, i, j);
  }

  /** The column passengers' advice is computed from, for every direction of every published snapshot:
      segments numbered in order, with exact running distances, from the direction's first point on. */
  lemma {:induction false} PublishedColumnsAreRoutes(p: Platform, earth: Earth, uuid4: nat -> Id,
      snapshots: seq<Snapshot>, parts: seq<Part>,
    db: Db, g: Id, i: nat, j: nat)
    requires IsEarth(earth) && Injective(uuid4) && Clean(p, earth, snapshots) && snapshots != []
    requires AreParts(p, earth, uuid4, snapshots, parts) && |parts| == |snapshots|
    requires Inv(p, db) && Fresh(db, g, WithParts(parts))
    requires i < |parts| && j < |parts[i].blocks|
    ensures j < |snapshots[i].directions|
    ensures var d, directions := parts[i].blocks[j].row.id,
      Seen(Run(p, db, Publishing(g, WithParts(parts)))).directions;
      d in directions && IsRouteOf(earth, directions[d].advice, snapshots[i].directions[j].coordinates)
  {
    SnapshotsArePublished(p, earth, uuid4, snapshots, parts, db, g);
    ColumnIsRoute(p, earth, uuid4, snapshots, parts, i, j);
    SeenColumn(p, WithParts(parts), Seen(Run(p, db, Publishing(g, WithParts(parts)))).directions, parts, i, j);
  }

  lemma {:induction false} SeenColumn(p: Platform, e: Export, directions: map<Id, Direction>, parts: seq<Part>,
      i: nat, j: nat)
    requires e == WithParts(parts) && Holds(directions, DirectionRows(p, e)) && i < |parts| && j < |parts[i].blocks|
    ensures var d := parts[i].blocks[j].row.id;
      d in directions && directions[d].advice == Derived(p, e.segments, d)
  {
    PartsAreBlocks(parts);
    var k := BlockIndex(parts, i, j);
    assert e.directions[k] == parts[i].blocks[j].row;
    assert DirectionRows(p, e)[k] in DirectionRows(p, e);
  }
}
