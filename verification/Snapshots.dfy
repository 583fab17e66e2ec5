/** From fetched route snapshots to one canonical export, closed under its references. */
module Snapshots {
  import opened Common
  import opened Schema
  import opened Wkt
  import opened Polyline
  import opened DirectionNames

  datatype Snapshot = Snapshot(
    attrs: RouteAttrs,
    sourceHash: string,
    mapHash: Option<string>,
    pageUrl: string,
    mapUrl: Option<string>,
    directions: seq<SourceDirection>,
    services: seq<SourceService>,
    matches: seq<Match>)

  // ---- the columns of each row -------------------------------------------------------------------------

  function RouteCols(s: Snapshot): RouteAttrs {
    s.attrs.(isCurrent := true)
  }

  function VersionCols(routeId: Id, s: Snapshot): Version {
    Version(routeId, s.sourceHash, s.mapHash, s.pageUrl, s.mapUrl, true)
  }

  function DirectionCols(p: Platform, versionId: Id, name: string, d: SourceDirection, number: int): DirectionInfo {
    DirectionInfo(versionId, name, d.kind, number, PrintEwkt(p, d.coordinates))
  }

  function SegmentCols(p: Platform, versionId: Id, directionId: Id, piece: Piece): Segment {
    Segment(versionId, directionId, piece.sequence, piece.source, piece.fractionStart, piece.fractionEnd,
      PrintEwkt(p, piece.coordinates), piece.bearing, piece.distance, piece.cumulative)
  }

  /** The direction a match names, by its number among the route's own directions. */
  function Linked(blocks: seq<Block>, m: Option<Match>): Option<Id> {
    if m.Some? && m.value.direction.Some? && 1 <= m.value.direction.value <= |blocks|
    then Some(blocks[m.value.direction.value - 1].row.id) else None
  }

  function ServiceCols(versionId: Id, blocks: seq<Block>, s: SourceService, m: Option<Match>): Service {
    Service(versionId, Linked(blocks, m), s.sequence, s.departureLabel, s.normalizedName, s.kind,
      if m.Some? then m.value.confidence else "none",
      if m.Some? then m.value.matchMethod else "unmatched",
      if m.Some? then m.value.notes else "{}")
  }

  // ---- one direction and its segments --------------------------------------------------------------------

  /** A direction row, the pieces of its polyline, and their rows. */
  datatype Block = Block(row: Row<DirectionInfo>, pieces: seq<Piece>, rows: seq<Row<Segment>>)

  ghost predicate Materialised(earth: Earth, s: SourceDirection, pieces: seq<Piece>)
    requires earth.longest > 0.0
  {
    if |s.coordinates| < 2 then pieces == []
    else Follows(earth, pieces, Path(earth, Interpolate, s.coordinates, |s.coordinates| - 1))
  }

  /** Every piece lies on the edge of the direction, and between the fractions, that it names. */
  ghost predicate OnEdges(s: SourceDirection, pieces: seq<Piece>) {
    forall k | 0 <= k < |pieces| :: OnSource(Interpolate, s.coordinates, pieces[k])
  }

  /** The rows of the first `n` pieces of direction `d`, with the next ids in turn. */
  ghost predicate RowsOf(p: Platform, uuid4: nat -> Id, next: nat, v: Id, d: Id, pieces: seq<Piece>,
      rows: seq<Row<Segment>>, n: nat)
    requires n <= |pieces|
  {
    |rows| == n && forall k | 0 <= k < n :: rows[k] == Row(uuid4(next + k), SegmentCols(p, v, d, pieces[k]))
  }

  /** The block of direction number `number`. */
  ghost predicate IsBlock(p: Platform, earth: Earth, uuid4: nat -> Id, next: nat, v: Id, name: string,
      d: SourceDirection, number: int, block: Block)
    requires earth.longest > 0.0
  {
    && block.row == Row(uuid4(next), DirectionCols(p, v, name, d, number))
    && Materialised(earth, d, block.pieces) && OnEdges(d, block.pieces)
    && RowsOf(p, uuid4, next + 1, v, uuid4(next), block.pieces, block.rows, |block.pieces|)
  }

  method SegmentRows(p: Platform, uuid4: nat -> Id, next0: nat, v: Id, d: Id, pieces: seq<Piece>)
      returns (next: nat, rows: seq<Row<Segment>>)
    ensures RowsOf(p, uuid4, next0, v, d, pieces, rows, |pieces|) && next == next0 + |rows|
  {
    next, rows := next0, [];
    for k := 0 to |pieces|
      invariant RowsOf(p, uuid4, next0, v, d, pieces, rows, k) && next == next0 + k
    {
      rows := rows + [Row(uuid4(next), SegmentCols(p, v, d, pieces[k]))];
      next := next + 1;
    }
  }

  method DirectionBlock(p: Platform, earth: Earth, uuid4: nat -> Id, next0: nat, v: Id, name: string,
      d: SourceDirection, number: int)
    returns (block: Block, next: nat)
    requires earth.longest > 0.0
    ensures IsBlock(p, earth, uuid4, next0, v, name, d, number, block) && next == next0 + 1 + |block.rows|
  {
    var pieces := Materialize(earth, d.coordinates);
    var rows;
    next, rows := SegmentRows(p, uuid4, next0 + 1, v, uuid4(next0), pieces);
    block := Block(Row(uuid4(next0), DirectionCols(p, v, name, d, number)), pieces, rows);
  }

  // ---- the directions of one snapshot ----------------------------------------------------------------------

  function NextAfter(next: nat, blocks: seq<Block>): nat {
    if blocks == [] then next else NextAfter(next, blocks[..|blocks| - 1]) + 1 + |blocks[|blocks| - 1].rows|
  }

  function BlockDirections(blocks: seq<Block>): (rows: seq<Row<DirectionInfo>>)
    ensures |rows| == |blocks| && forall i | 0 <= i < |blocks| :: rows[i] == blocks[i].row
  {
    if blocks == [] then [] else BlockDirections(blocks[..|blocks| - 1]) + [blocks[|blocks| - 1].row]
  }

  function BlockSegments(blocks: seq<Block>): seq<Row<Segment>> {
    if blocks == [] then [] else BlockSegments(blocks[..|blocks| - 1]) + blocks[|blocks| - 1].rows
  }

  /** The blocks are those of the first directions of the snapshot. */
  ghost predicate AreBlocks(p: Platform, earth: Earth, uuid4: nat -> Id, next: nat, v: Id, names: seq<string>,
      s: Snapshot, blocks: seq<Block>)
    requires earth.longest > 0.0
  {
    blocks == [] ||
    var n := |blocks| - 1;
    && n < |s.directions| && n < |names|
    && AreBlocks(p, earth, uuid4, next, v, names, s, blocks[..n])
    && IsBlock(p, earth, uuid4, NextAfter(next, blocks[..n]), v, names[n], s.directions[n], n + 1, blocks[n])
  }

  lemma {:induction false} BlocksMore(p: Platform, earth: Earth, uuid4: nat -> Id, next: nat, v: Id,
      names: seq<string>, s: Snapshot, blocks: seq<Block>, block: Block)
    requires earth.longest > 0.0 && AreBlocks(p, earth, uuid4, next, v, names, s, blocks)
      && |blocks| < |s.directions| == |names|
    requires IsBlock(p, earth, uuid4, NextAfter(next, blocks), v, names[|blocks|], s.directions[|blocks|],
      |blocks| + 1, block)
    ensures AreBlocks(p, earth, uuid4, next, v, names, s, blocks + [block])
    ensures NextAfter(next, blocks + [block]) == NextAfter(next, blocks) + 1 + |block.rows|
  {
  }

  method DirectionBlocks(p: Platform, earth: Earth, uuid4: nat -> Id, next0: nat, v: Id, names: seq<string>,
      s: Snapshot)
    returns (blocks: seq<Block>, next: nat)
    requires earth.longest > 0.0 && |names| == |s.directions|
    ensures AreBlocks(p, earth, uuid4, next0, v, names, s, blocks) && |blocks| == |s.directions|
      && next == NextAfter(next0, blocks)
  {
    blocks, next := [], next0;
    for j := 0 to |s.directions|
      invariant |blocks| == j && next == NextAfter(next0, blocks)
      invariant AreBlocks(p, earth, uuid4, next0, v, names, s, blocks)
    {
      var block, last := DirectionBlock(p, earth, uuid4, next, v, names[j], s.directions[j], j + 1);
      BlocksMore(p, earth, uuid4, next0, v, names, s, blocks, block);
      blocks, next := blocks + [block], last;
    }
  }

  // ---- one snapshot, all snapshots ---------------------------------------------------------------------------

  datatype Part = Part(route: Row<RouteAttrs>, version: Row<Version>, blocks: seq<Block>, services: seq<Row<Service>>)

  function PartEnd(next: nat, part: Part): nat {
    NextAfter(next + 1, part.blocks) + |part.services|
  }

  function Names(s: Snapshot): (names: seq<string>)
    ensures |names| == |s.directions|
  {
    seq(|s.directions|, i requires 0 <= i < |s.directions| =>
      NameOf(s.attrs.code, s.directions, OriginIn(Ordered(s.services), s.matches), i))
  }

  /** The row of service number `k` in sequence order. */
  function ServiceRow(uuid4: nat -> Id, next: nat, v: Id, blocks: seq<Block>, s: Snapshot, k: nat): Row<Service>
    requires k < |Ordered(s.services)|
  {
    var service := Ordered(s.services)[k];
    Row(uuid4(next + k), ServiceCols(v, blocks, service, MatchFor(s.matches, service.sequence)))
  }

  /** The first `n` services of a snapshot, with the next ids in turn. */
  ghost predicate AreServices(uuid4: nat -> Id, next: nat, v: Id, blocks: seq<Block>, s: Snapshot,
      rows: seq<Row<Service>>, n: nat)
    requires n <= |Ordered(s.services)|
  {
    |rows| == n && forall k | 0 <= k < n :: rows[k] == ServiceRow(uuid4, next, v, blocks, s, k)
  }

  lemma ServicesMore(uuid4: nat -> Id, next: nat, v: Id, blocks: seq<Block>, s: Snapshot, rows: seq<Row<Service>>,
      k: nat, found: Option<Match>)
    requires k < |Ordered(s.services)| && AreServices(uuid4, next, v, blocks, s, rows, k)
    requires found == MatchFor(s.matches, Ordered(s.services)[k].sequence)
    ensures AreServices(uuid4, next, v, blocks, s,
      rows + [Row(uuid4(next + k), ServiceCols(v, blocks, Ordered(s.services)[k], found))], k + 1)
  {
  }

  method ServiceRows(uuid4: nat -> Id, next0: nat, v: Id, blocks: seq<Block>, s: Snapshot)
      returns (rows: seq<Row<Service>>)
    ensures AreServices(uuid4, next0, v, blocks, s, rows, |Ordered(s.services)|)
  {
    var ordered := Ordered(s.services);
    var table := MatchTable(s.matches);
    rows := [];
    for k := 0 to |ordered|
      invariant AreServices(uuid4, next0, v, blocks, s, rows, k)
    {
      var service := ordered[k];
      var found := if service.sequence in table then Some(table[service.sequence]) else None;
      ServicesMore(uuid4, next0, v, blocks, s, rows, k, found);
      rows := rows + [Row(uuid4(next0 + k), ServiceCols(v, blocks, service, found))];
    }
  }

  /** The part of the export made from one snapshot. */
  ghost predicate IsPart(p: Platform, earth: Earth, uuid4: nat -> Id, next: nat, s: Snapshot, part: Part)
    requires earth.longest > 0.0
  {
    && part.route == Row(p.uuid5(s.attrs.code), RouteCols(s))
    && part.version == Row(uuid4(next), VersionCols(part.route.id, s))
    && |part.blocks| == |s.directions|
      && AreBlocks(p, earth, uuid4, next + 1, part.version.id, Names(s), s, part.blocks)
    && AreServices(uuid4, NextAfter(next + 1, part.blocks), part.version.id, part.blocks, s, part.services,
      |Ordered(s.services)|)
  }

  function WithPart(e: Export, part: Part): Export {
    Export(
      e.routes + [part.route],
      e.versions + [part.version],
      e.directions + BlockDirections(part.blocks),
      e.services + part.services,
      e.segments + BlockSegments(part.blocks))
  }

  function WithParts(parts: seq<Part>): Export {
    if parts == [] then Export([], [], [], [], []) else WithPart(WithParts(parts[..|parts| - 1]), parts[|parts| - 1])
  }

  function PartsEnd(parts: seq<Part>): nat {
    if parts == [] then 0 else PartEnd(PartsEnd(parts[..|parts| - 1]), parts[|parts| - 1])
  }

  ghost predicate AreParts(p: Platform, earth: Earth, uuid4: nat -> Id, snapshots: seq<Snapshot>, parts: seq<Part>)
    requires earth.longest > 0.0
  {
    parts == [] ||
    var n := |parts| - 1;
    && n < |snapshots|
    && AreParts(p, earth, uuid4, snapshots, parts[..n])
    && IsPart(p, earth, uuid4, PartsEnd(parts[..n]), snapshots[n], parts[n])
  }

  method SnapshotPart(p: Platform, earth: Earth, uuid4: nat -> Id, next: nat, s: Snapshot) returns (part: Part)
    requires earth.longest > 0.0
    ensures IsPart(p, earth, uuid4, next, s, part)
  {
    var route := Row(p.uuid5(s.attrs.code), RouteCols(s));
    var version := Row(uuid4(next), VersionCols(route.id, s));
    var names := PassengerFacingNames(s.attrs.code, s.directions, s.services, s.matches);
    assert names == Names(s);
    var blocks, last := DirectionBlocks(p, earth, uuid4, next + 1, version.id, names, s);
    var services := ServiceRows(uuid4, last, version.id, blocks, s);
    part := Part(route, version, blocks, services);
  }

  lemma {:induction false} PartsMore(p: Platform, earth: Earth, uuid4: nat -> Id, snapshots: seq<Snapshot>,
      parts: seq<Part>, part: Part)
    requires earth.longest > 0.0 && |parts| < |snapshots| && AreParts(p, earth, uuid4, snapshots, parts)
    requires IsPart(p, earth, uuid4, PartsEnd(parts), snapshots[|parts|], part)
    ensures AreParts(p, earth, uuid4, snapshots, parts + [part])
    ensures WithParts(parts + [part]) == WithPart(WithParts(parts), part)
      && PartsEnd(parts + [part]) == PartEnd(PartsEnd(parts), part)
  {
    assert (parts + [part])[..|parts|] == parts;
  }

  lemma {:induction false} PartRoutes(p: Platform, earth: Earth, uuid4: nat -> Id, snapshots: seq<Snapshot>,
      parts: seq<Part>)
    requires earth.longest > 0.0 && AreParts(p, earth, uuid4, snapshots, parts)
    ensures |parts| <= |snapshots| && |WithParts(parts).routes| == |WithParts(parts).versions| == |parts|
    ensures forall i | 0 <= i < |parts| ::
      WithParts(parts).routes[i] == Row(p.uuid5(snapshots[i].attrs.code), RouteCols(snapshots[i]))
  {
    if parts != [] {
      PartRoutes(p, earth, uuid4, snapshots, parts[..|parts| - 1]);
    }
  }

  /** `snapshots_to_canonical_rows`: one part per snapshot, in order, all ids from one stream. */
  method SnapshotsToCanonicalRows(p: Platform, earth: Earth, uuid4: nat -> Id, snapshots: seq<Snapshot>)
      returns (e: Export, ghost parts: seq<Part>)
    requires earth.longest > 0.0
    ensures AreParts(p, earth, uuid4, snapshots, parts) && |parts| == |snapshots| && e == WithParts(parts)
    ensures |e.routes| == |e.versions| == |snapshots|
    ensures forall i | 0 <= i < |snapshots| ::
      e.routes[i] == Row(p.uuid5(snapshots[i].attrs.code), RouteCols(snapshots[i]))
  {
    e, parts := Export([], [], [], [], []), [];
    var next := 0;
    for i := 0 to |snapshots|
      invariant |parts| == i && AreParts(p, earth, uuid4, snapshots, parts) && e == WithParts(parts)
        && next == PartsEnd(parts)
    {
      var part := SnapshotPart(p, earth, uuid4, next, snapshots[i]);
      PartsMore(p, earth, uuid4, snapshots, parts, part);
      parts := parts + [part];
      e := WithPart(e, part);
      next := PartEnd(next, part);
    }
    PartRoutes(p, earth, uuid4, snapshots, parts);
  }
}
