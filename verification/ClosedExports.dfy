/** Why the export made from snapshots is well formed: table by table, block by block, part by part. */
module ClosedExports {
  import opened Common
  import opened Schema
  import opened Sorting
  import opened Wkt
  import opened Readers
  import opened Staging
  import opened Polyline
  import opened DirectionNames
  import opened CanonicalRows
  import opened Snapshots

  // ---- directions --------------------------------------------------------------------------------------

  lemma {:induction false} BlockFacts(p: Platform, earth: Earth, uuid4: nat -> Id, next: nat, v: Id,
      names: seq<string>, s: Snapshot, blocks: seq<Block>)
    requires earth.longest > 0.0 && AreBlocks(p, earth, uuid4, next, v, names, s, blocks)
    ensures forall i | 0 <= i < |blocks| :: blocks[i].row.cols.versionId == v && blocks[i].row.cols.sequence == i + 1
  {
    if blocks != [] {
      BlockFacts(p, earth, uuid4, next, v, names, s, blocks[..|blocks| - 1]);
    }
  }

  lemma OneMoreDirection(uuid4: nat -> Id, next: nat, versions: set<Id>, rows: seq<Row<DirectionInfo>>,
      row: Row<DirectionInfo>)
    requires Injective(uuid4) && DirectionsWell(uuid4, next, versions, rows)
    requires row.id == uuid4(next) && row.cols.versionId in versions
    requires forall i | 0 <= i < |rows| && rows[i].cols.versionId == row.cols.versionId ::
      rows[i].cols.sequence != row.cols.sequence
    ensures DirectionsWell(uuid4, next + 1, versions, rows + [row])
  {
  }

  lemma DirectionsLater(uuid4: nat -> Id, next: nat, later: nat, versions: set<Id>, more: set<Id>,
      rows: seq<Row<DirectionInfo>>)
    requires DirectionsWell(uuid4, next, versions, rows) && next <= later && versions <= more
    ensures DirectionsWell(uuid4, later, more, rows)
  {
  }

  /** The numbers of the blocks of version `v` are taken up to their count. */
  lemma {:induction false} NumbersTaken(before: seq<Row<DirectionInfo>>, blocks: seq<Block>, v: Id)
    requires forall i | 0 <= i < |before| :: before[i].cols.versionId != v
    requires forall i | 0 <= i < |blocks| :: blocks[i].row.cols.sequence == i + 1
    ensures var rows := before + BlockDirections(blocks);
      forall i | 0 <= i < |rows| && rows[i].cols.versionId == v :: rows[i].cols.sequence <= |blocks|
  {
  }

  lemma {:induction false} BlocksKeepDirections(p: Platform, earth: Earth, uuid4: nat -> Id, next: nat, v: Id,
      names: seq<string>, s: Snapshot,
    versions: set<Id>, before: seq<Row<DirectionInfo>>, blocks: seq<Block>)
    requires earth.longest > 0.0 && Injective(uuid4) && AreBlocks(p, earth, uuid4, next, v, names, s, blocks)
    requires DirectionsWell(uuid4, next, versions, before) && v in versions
    requires forall i | 0 <= i < |before| :: before[i].cols.versionId != v
    ensures DirectionsWell(uuid4, NextAfter(next, blocks), versions, before + BlockDirections(blocks))
  {
    if blocks == [] {
      assert before + [] == before;
    } else {
      var init, last := blocks[..|blocks| - 1], blocks[|blocks| - 1];
      var rows := before + BlockDirections(init);
      BlocksKeepDirections(p, earth, uuid4, next, v, names, s, versions, before, init);
      BlockFacts(p, earth, uuid4, next, v, names, s, blocks);
      NumbersTaken(before, init, v);
      OneMoreDirection(uuid4, NextAfter(next, init), versions, rows, last.row);
      DirectionsLater(uuid4, NextAfter(next, init) + 1, NextAfter(next, blocks), versions, versions, rows + [last.row]);
      assert before + BlockDirections(blocks) == rows + [last.row];
    }
  }

  // ---- segments ----------------------------------------------------------------------------------------

  lemma DirectionStays(directions: seq<Row<DirectionInfo>>, more: seq<Row<DirectionInfo>>, d: Id, v: Id)
    requires DirectionAt(directions, d, v)
    ensures DirectionAt(directions + more, d, v)
  {
    var i :| 0 <= i < |directions| && directions[i].id == d && directions[i].cols.versionId == v;
    assert (directions + more)[i] == directions[i];
  }

  lemma SegmentsLater(uuid4: nat -> Id, next: nat, later: nat, versions: set<Id>, wider: set<Id>,
    directions: seq<Row<DirectionInfo>>, more: seq<Row<DirectionInfo>>, rows: seq<Row<Segment>>)
    requires SegmentsWell(uuid4, next, versions, directions, rows) && next <= later && versions <= wider
    ensures SegmentsWell(uuid4, later, wider, directions + more, rows)
  {
    DrawnLater(uuid4, next, later, rows);
    forall i | 0 <= i < |rows| ensures DirectionAt(directions + more, rows[i].cols.directionId,
      rows[i].cols.versionId) {
      DirectionStays(directions, more, rows[i].cols.directionId, rows[i].cols.versionId);
    }
  }

  /** A direction id not drawn yet has no segments. */
  lemma NewDirectionIsBare(uuid4: nat -> Id, next: nat, versions: set<Id>, directions: seq<Row<DirectionInfo>>,
      at: nat, rows: seq<Row<Segment>>)
    requires Injective(uuid4) && AllDrawn(uuid4, next, directions)
      && SegmentsWell(uuid4, at, versions, directions, rows)
    ensures forall i | 0 <= i < |rows| :: rows[i].cols.directionId != uuid4(next)
  {
  }

  /** The rows of one direction, appended. */
  lemma MoreSegments(uuid4: nat -> Id, next: nat, versions: set<Id>, directions: seq<Row<DirectionInfo>>, v: Id, d: Id,
    before: seq<Row<Segment>>, rows: seq<Row<Segment>>)
    requires Injective(uuid4) && SegmentsWell(uuid4, next, versions, directions, before) && InTurn(uuid4, next, rows)
    requires v in versions && DirectionAt(directions, d, v)
    requires forall i | 0 <= i < |before| :: before[i].cols.directionId != d
    requires forall k | 0 <= k < |rows| ::
      rows[k].cols.versionId == v && rows[k].cols.directionId == d
      && rows[k].cols.sequence == k + 1
    ensures SegmentsWell(uuid4, next + |rows|, versions, directions, before + rows)
  {
  }

  lemma PieceRows(p: Platform, earth: Earth, uuid4: nat -> Id, next: nat, v: Id, name: string, d: SourceDirection,
      number: int, block: Block)
    requires earth.longest > 0.0 && IsBlock(p, earth, uuid4, next, v, name, d, number, block)
    ensures InTurn(uuid4, next + 1, block.rows)
    ensures forall k | 0 <= k < |block.rows| ::
      block.rows[k].cols.versionId == v && block.rows[k].cols.directionId == uuid4(next)
        && block.rows[k].cols.sequence == k + 1
  {
  }

  lemma BlockKeepsSegments(p: Platform, earth: Earth, uuid4: nat -> Id, next: nat, v: Id, name: string,
      d: SourceDirection, number: int,
    versions: set<Id>, directions: seq<Row<DirectionInfo>>, before: seq<Row<Segment>>, block: Block)
    requires earth.longest > 0.0 && Injective(uuid4) && IsBlock(p, earth, uuid4, next, v, name, d, number, block)
    requires DirectionsWell(uuid4, next, versions, directions)
      && SegmentsWell(uuid4, next, versions, directions, before) && v in versions
    ensures SegmentsWell(uuid4, next + 1 + |block.rows|, versions, directions + [block.row], before + block.rows)
  {
    PieceRows(p, earth, uuid4, next, v, name, d, number, block);
    NewDirectionIsBare(uuid4, next, versions, directions, next, before);
    SegmentsLater(uuid4, next, next + 1, versions, versions, directions, [block.row], before);
    assert (directions + [block.row])[|directions|] == block.row;
    MoreSegments(uuid4, next + 1, versions, directions + [block.row], v, uuid4(next), before, block.rows);
  }

  lemma AppendBlock(directions: seq<Row<DirectionInfo>>, before: seq<Row<Segment>>, blocks: seq<Block>)
    requires blocks != []
    ensures var init, last := blocks[..|blocks| - 1], blocks[|blocks| - 1];
      && directions + BlockDirections(blocks) == directions + BlockDirections(init) + [last.row]
      && before + BlockSegments(blocks) == before + BlockSegments(init) + last.rows
  {
  }

  lemma {:induction false} BlocksKeepSegments(p: Platform, earth: Earth, uuid4: nat -> Id, next: nat, v: Id,
      names: seq<string>, s: Snapshot,
    versions: set<Id>, directions: seq<Row<DirectionInfo>>, before: seq<Row<Segment>>, blocks: seq<Block>)
    requires earth.longest > 0.0 && Injective(uuid4) && AreBlocks(p, earth, uuid4, next, v, names, s, blocks)
    requires DirectionsWell(uuid4, next, versions, directions) && v in versions
    requires forall i | 0 <= i < |directions| :: directions[i].cols.versionId != v
    requires SegmentsWell(uuid4, next, versions, directions, before)
    ensures SegmentsWell(uuid4, NextAfter(next, blocks), versions, directions + BlockDirections(blocks),
      before + BlockSegments(blocks))
  {
    if blocks == [] {
      assert directions + [] == directions && before + [] == before;
    } else {
      var n := |blocks| - 1;
      var init, last := blocks[..n], blocks[n];
      BlocksKeepSegments(p, earth, uuid4, next, v, names, s, versions, directions, before, init);
      BlocksKeepDirections(p, earth, uuid4, next, v, names, s, versions, directions, init);
      AppendBlock(directions, before, blocks);
      BlockKeepsSegments(p, earth, uuid4, NextAfter(next, init), v, names[n], s.directions[n], n + 1,
        versions, directions + BlockDirections(init), before + BlockSegments(init), last);
    }
  }

  // ---- geometries ----------------------------------------------------------------------------------------

  /** The coordinates of a direction's pieces can be printed and read back. */
  ghost predicate Prints(p: Platform, earth: Earth, d: SourceDirection)
    requires earth.longest > 0.0
  {
    |d.coordinates| >= 2 ==> AreFloats(p, Path(earth, Interpolate, d.coordinates, |d.coordinates| - 1))
  }

  lemma PieceCoordinates(p: Platform, earth: Earth, d: SourceDirection, pieces: seq<Piece>, k: nat)
    requires earth.longest > 0.0 && Prints(p, earth, d) && Materialised(earth, d, pieces) && k < |pieces|
    ensures |pieces[k].coordinates| == 2 && AreFloats(p, pieces[k].coordinates)
  {
    var path := Path(earth, Interpolate, d.coordinates, |d.coordinates| - 1);
    assert pieces[k].coordinates == [path[k], path[k + 1]];
    assert path[k] in path && path[k + 1] in path;
  }

  ghost predicate GeometriesPlain(rows: seq<Row<Segment>>) {
    forall row | row in rows :: Plain(row.cols.geometry)
  }

  /** Every geometry can be read, also by passengers, and the geography column takes it. */
  ghost predicate Storable(p: Platform, rows: seq<Row<Segment>>) {
    GeometriesRead(p, rows) && GeometriesTaken(p, rows) && GeometriesPlain(rows)
  }

  lemma PieceRead(p: Platform, points: seq<Point>)
    requires |points| >= 2 && AreFloats(p, points) && TakesPrinted(p)
    ensures StoredCoordinates(p, PrintEwkt(p, points)).Ok? && Taken(p, PrintEwkt(p, points))
    ensures Plain(PrintEwkt(p, points))
  {
    PrintedIsPlain(p, points);
    PrintedReadsBack(p, points, PrintEwkt(p, points));
    PrintedIsGeography(p, points);
  }

  lemma BlockRead(p: Platform, earth: Earth, uuid4: nat -> Id, next: nat, v: Id, name: string, d: SourceDirection,
      number: int, block: Block)
    requires earth.longest > 0.0 && IsBlock(p, earth, uuid4, next, v, name, d, number, block) && Prints(p, earth, d)
      && TakesPrinted(p)
    ensures Storable(p, block.rows)
  {
    forall row | row in block.rows
      ensures StoredCoordinates(p, row.cols.geometry).Ok? && Taken(p, row.cols.geometry) && Plain(row.cols.geometry)
    {
      var k: nat :| k < |block.rows| && block.rows[k] == row;
      PieceCoordinates(p, earth, d, block.pieces, k);
      PieceRead(p, block.pieces[k].coordinates);
    }
  }

  lemma ReadBoth(p: Platform, a: seq<Row<Segment>>, b: seq<Row<Segment>>)
    requires Storable(p, a) && Storable(p, b)
    ensures Storable(p, a + b)
  {
  }

  lemma {:induction false} BlocksRead(p: Platform, earth: Earth, uuid4: nat -> Id, next: nat, v: Id,
      names: seq<string>, s: Snapshot, blocks: seq<Block>)
    requires earth.longest > 0.0 && AreBlocks(p, earth, uuid4, next, v, names, s, blocks)
    requires TakesPrinted(p) && forall j | 0 <= j < |s.directions| :: Prints(p, earth, s.directions[j])
    ensures Storable(p, BlockSegments(blocks))
  {
    if blocks != [] {
      var n := |blocks| - 1;
      BlocksRead(p, earth, uuid4, next, v, names, s, blocks[..n]);
      BlockRead(p, earth, uuid4, NextAfter(next, blocks[..n]), v, names[n], s.directions[n], n + 1, blocks[n]);
      ReadBoth(p, BlockSegments(blocks[..n]), blocks[n].rows);
    }
  }

  // ---- services ------------------------------------------------------------------------------------------

  ghost predicate LabelsDiffer(services: seq<SourceService>) {
    forall i, j | 0 <= i < j < |services| :: services[i].departureLabel != services[j].departureLabel
  }

  lemma OrderedLabelsDiffer(services: seq<SourceService>)
    requires LabelsDiffer(services)
    ensures LabelsDiffer(Ordered(services))
  {
    var ordered := Ordered(services);
    SortByDistinct(services, BySequence);
    forall i, j | 0 <= i < j < |ordered| ensures ordered[i].departureLabel != ordered[j].departureLabel {
      var a :| 0 <= a < |services| && services[a] == ordered[i];
      var b :| 0 <= b < |services| && services[b] == ordered[j];
    }
  }

  lemma ServicesLater(uuid4: nat -> Id, next: nat, later: nat, versions: set<Id>, wider: set<Id>,
    directions: seq<Row<DirectionInfo>>, more: seq<Row<DirectionInfo>>, rows: seq<Row<Service>>)
    requires ServicesWell(uuid4, next, versions, directions, rows) && next <= later && versions <= wider
    ensures ServicesWell(uuid4, later, wider, directions + more, rows)
  {
    DrawnLater(uuid4, next, later, rows);
    forall i | 0 <= i < |rows| && rows[i].cols.directionId.Some?
      ensures DirectionAt(directions + more, rows[i].cols.directionId.value, rows[i].cols.versionId)
    {
      DirectionStays(directions, more, rows[i].cols.directionId.value, rows[i].cols.versionId);
    }
  }

  /** A link goes to a direction of the same version. */
  lemma {:induction false} LinksInsideVersion(p: Platform, earth: Earth, uuid4: nat -> Id, next: nat, v: Id,
      names: seq<string>, s: Snapshot,
    before: seq<Row<DirectionInfo>>, blocks: seq<Block>, m: Option<Match>)
    requires earth.longest > 0.0 && AreBlocks(p, earth, uuid4, next, v, names, s, blocks)
    ensures Linked(blocks, m).Some? ==> DirectionAt(before + BlockDirections(blocks), Linked(blocks, m).value, v)
  {
    BlockFacts(p, earth, uuid4, next, v, names, s, blocks);
    if Linked(blocks, m).Some? {
      var i := m.value.direction.value - 1;
      assert (before + BlockDirections(blocks))[|before| + i] == blocks[i].row;
    }
  }

  lemma MoreServices(uuid4: nat -> Id, next: nat, versions: set<Id>, directions: seq<Row<DirectionInfo>>, v: Id,
      before: seq<Row<Service>>, rows: seq<Row<Service>>)
    requires Injective(uuid4) && ServicesWell(uuid4, next, versions, directions, before) && InTurn(uuid4, next, rows)
    requires v in versions && forall i | 0 <= i < |before| :: before[i].cols.versionId != v
    requires forall k | 0 <= k < |rows| :: rows[k].cols.versionId == v
    requires forall k | 0 <= k < |rows| && rows[k].cols.directionId.Some? ::
      DirectionAt(directions, rows[k].cols.directionId.value, v)
    requires forall i, j | 0 <= i < j < |rows| :: rows[i].cols.departureLabel != rows[j].cols.departureLabel
    ensures ServicesWell(uuid4, next + |rows|, versions, directions, before + rows)
  {
  }

  lemma {:induction false} PartKeepsServices(p: Platform, earth: Earth, uuid4: nat -> Id, next: nat, s: Snapshot,
      part: Part, versions: set<Id>,
    directions: seq<Row<DirectionInfo>>, before: seq<Row<Service>>)
    requires earth.longest > 0.0 && Injective(uuid4) && IsPart(p, earth, uuid4, next, s, part)
      && LabelsDiffer(s.services)
    requires ServicesWell(uuid4, NextAfter(next + 1, part.blocks), versions,
      directions + BlockDirections(part.blocks), before)
    requires part.version.id in versions && forall i | 0 <= i < |before| :: before[i].cols.versionId != part.version.id
    ensures ServicesWell(uuid4, PartEnd(next, part), versions, directions + BlockDirections(part.blocks),
      before + part.services)
  {
    var v, rows := part.version.id, part.services;
    OrderedLabelsDiffer(s.services);
    forall k | 0 <= k < |rows| ensures rows[k].cols.versionId == v
      && (rows[k].cols.directionId.Some? ==>
        DirectionAt(directions + BlockDirections(part.blocks), rows[k].cols.directionId.value, v))
    {
      LinksInsideVersion(p, earth, uuid4, next + 1, v, Names(s), s, directions, part.blocks,
        MatchFor(s.matches, Ordered(s.services)[k].sequence));
    }
    MoreServices(uuid4, NextAfter(next + 1, part.blocks), versions, directions + BlockDirections(part.blocks), v,
      before, rows);
  }

  // ---- parts ---------------------------------------------------------------------------------------------

  lemma VersionIsNew(uuid4: nat -> Id, next: nat, versions: seq<Row<Version>>, version: Row<Version>)
    requires Injective(uuid4) && AllDrawn(uuid4, next, versions) && version.id == uuid4(next)
    ensures version.id !in IdSet(versions) && AllDrawn(uuid4, next + 1, versions + [version])
    ensures IdSet(versions + [version]) == IdSet(versions) + {version.id}
  {
  }

  lemma RouteMore(p: Platform, routes: seq<Row<RouteAttrs>>, versions: seq<Row<Version>>, route: Row<RouteAttrs>,
      version: Row<Version>)
    requires RoutesWell(p, routes, versions) && p.uuid5(route.cols.code) == route.id && version.cols.routeId == route.id
    requires forall i | 0 <= i < |routes| :: routes[i].id != route.id
    ensures RoutesWell(p, routes + [route], versions + [version])
  {
  }

  lemma {:induction false} NextGrows(next: nat, blocks: seq<Block>)
    ensures NextAfter(next, blocks) >= next
  {
    if blocks != [] {
      NextGrows(next, blocks[..|blocks| - 1]);
    }
  }

  lemma OlderAreOthers(uuid4: nat -> Id, next: nat, versions: set<Id>, directions: seq<Row<DirectionInfo>>, v: Id)
    requires DirectionsWell(uuid4, next, versions, directions) && v !in versions
    ensures forall i | 0 <= i < |directions| :: directions[i].cols.versionId != v
  {
  }

  lemma {:induction false} PartKeepsDirections(p: Platform, earth: Earth, uuid4: nat -> Id, next: nat, s: Snapshot,
      part: Part, versions: set<Id>, directions: seq<Row<DirectionInfo>>)
    requires earth.longest > 0.0 && Injective(uuid4) && IsPart(p, earth, uuid4, next, s, part)
      && part.version.id !in versions
    requires DirectionsWell(uuid4, next, versions, directions)
    ensures DirectionsWell(uuid4, NextAfter(next + 1, part.blocks), versions + {part.version.id},
      directions + BlockDirections(part.blocks))
  {
    var wider, v := versions + {part.version.id}, part.version.id;
    OlderAreOthers(uuid4, next, versions, directions, v);
    DirectionsLater(uuid4, next, next + 1, versions, wider, directions);
    BlocksKeepDirections(p, earth, uuid4, next + 1, v, Names(s), s, wider, directions, part.blocks);
  }

  lemma {:induction false} PartKeepsSegments(p: Platform, earth: Earth, uuid4: nat -> Id, next: nat, s: Snapshot,
      part: Part, versions: set<Id>, directions: seq<Row<DirectionInfo>>, segments: seq<Row<Segment>>)
    requires earth.longest > 0.0 && Injective(uuid4) && IsPart(p, earth, uuid4, next, s, part)
      && part.version.id !in versions
    requires DirectionsWell(uuid4, next, versions, directions)
      && SegmentsWell(uuid4, next, versions, directions, segments)
    ensures SegmentsWell(uuid4, NextAfter(next + 1, part.blocks), versions + {part.version.id},
      directions + BlockDirections(part.blocks), segments + BlockSegments(part.blocks))
  {
    var wider, v := versions + {part.version.id}, part.version.id;
    OlderAreOthers(uuid4, next, versions, directions, v);
    DirectionsLater(uuid4, next, next + 1, versions, wider, directions);
    SegmentsLater(uuid4, next, next + 1, versions, wider, directions, [], segments);
    assert directions + [] == directions;
    BlocksKeepSegments(p, earth, uuid4, next + 1, v, Names(s), s, wider, directions, segments, part.blocks);
  }

  /** Every table is well so far, and all ids are among the first `next`. */
  ghost predicate WellTo(p: Platform, uuid4: nat -> Id, next: nat, e: Export) {
    && RoutesWell(p, e.routes, e.versions) && AllDrawn(uuid4, next, e.versions)
    && DirectionsWell(uuid4, next, IdSet(e.versions), e.directions)
    && ServicesWell(uuid4, next, IdSet(e.versions), e.directions, e.services)
    && SegmentsWell(uuid4, next, IdSet(e.versions), e.directions, e.segments)
  }

  lemma PartAdded(p: Platform, earth: Earth, uuid4: nat -> Id, next: nat, e: Export, s: Snapshot, part: Part)
    requires earth.longest > 0.0 && Injective(uuid4) && IsPart(p, earth, uuid4, next, s, part)
      && LabelsDiffer(s.services)
    requires WellTo(p, uuid4, next, e) && forall i | 0 <= i < |e.routes| :: e.routes[i].id != part.route.id
    ensures WellTo(p, uuid4, PartEnd(next, part), WithPart(e, part))
  {
    var versions := IdSet(e.versions);
    var wider, middle, end := versions + {part.version.id}, NextAfter(next + 1, part.blocks), PartEnd(next, part);
    var directions := e.directions + BlockDirections(part.blocks);
    NextGrows(next + 1, part.blocks);
    VersionIsNew(uuid4, next, e.versions, part.version);
    DrawnLater(uuid4, next + 1, end, e.versions + [part.version]);
    RouteMore(p, e.routes, e.versions, part.route, part.version);
    PartKeepsDirections(p, earth, uuid4, next, s, part, versions, e.directions);
    PartKeepsSegments(p, earth, uuid4, next, s, part, versions, e.directions, e.segments);
    ServicesLater(uuid4, next, middle, versions, wider, e.directions, BlockDirections(part.blocks), e.services);
    PartKeepsServices(p, earth, uuid4, next, s, part, wider, e.directions, e.services);
    DirectionsLater(uuid4, middle, end, wider, wider, directions);
    SegmentsLater(uuid4, middle, end, wider, wider, directions, [], e.segments + BlockSegments(part.blocks));
    assert directions + [] == directions;
  }

  /** Routes with distinct ids, distinct labels on each route, and coordinates that can be printed, on a
      store that takes what is printed. */
  ghost predicate Clean(p: Platform, earth: Earth, snapshots: seq<Snapshot>)
    requires earth.longest > 0.0
  {
    && TakesPrinted(p)
    && (forall i, j | 0 <= i < j < |snapshots| :: p.uuid5(snapshots[i].attrs.code) != p.uuid5(snapshots[j].attrs.code))
    && (forall i | 0 <= i < |snapshots| :: LabelsDiffer(snapshots[i].services))
    && (forall i, j | 0 <= i < |snapshots| && 0 <= j < |snapshots[i].directions| ::
      Prints(p, earth, snapshots[i].directions[j]))
  }

  lemma PartRead(p: Platform, earth: Earth, uuid4: nat -> Id, next: nat, s: Snapshot, part: Part,
      before: seq<Row<Segment>>)
    requires earth.longest > 0.0 && IsPart(p, earth, uuid4, next, s, part) && Storable(p, before)
    requires TakesPrinted(p) && forall j | 0 <= j < |s.directions| :: Prints(p, earth, s.directions[j])
    ensures Storable(p, before + BlockSegments(part.blocks))
  {
    BlocksRead(p, earth, uuid4, next + 1, part.version.id, Names(s), s, part.blocks);
    ReadBoth(p, before, BlockSegments(part.blocks));
  }

  lemma {:induction false} PartsRead(p: Platform, earth: Earth, uuid4: nat -> Id, snapshots: seq<Snapshot>,
      parts: seq<Part>)
    requires earth.longest > 0.0 && AreParts(p, earth, uuid4, snapshots, parts)
    requires TakesPrinted(p) && forall i, j | 0 <= i < |snapshots| && 0 <= j < |snapshots[i].directions| ::
      Prints(p, earth, snapshots[i].directions[j])
    ensures Storable(p, WithParts(parts).segments)
  {
    if parts != [] {
      var n := |parts| - 1;
      PartsRead(p, earth, uuid4, snapshots, parts[..n]);
      PartRead(p, earth, uuid4, PartsEnd(parts[..n]), snapshots[n], parts[n], WithParts(parts[..n]).segments);
    }
  }

  /** The route of the next part is not among those before. */
  lemma {:induction false} RouteIsNew(p: Platform, earth: Earth, uuid4: nat -> Id, snapshots: seq<Snapshot>,
      parts: seq<Part>)
    requires earth.longest > 0.0 && AreParts(p, earth, uuid4, snapshots, parts) && |parts| < |snapshots|
    requires forall i, j | 0 <= i < j < |snapshots| ::
      p.uuid5(snapshots[i].attrs.code) != p.uuid5(snapshots[j].attrs.code)
    ensures forall i | 0 <= i < |WithParts(parts).routes| ::
      WithParts(parts).routes[i].id != p.uuid5(snapshots[|parts|].attrs.code)
  {
    PartRoutes(p, earth, uuid4, snapshots, parts);
  }

  lemma {:induction false} PartsWell(p: Platform, earth: Earth, uuid4: nat -> Id, snapshots: seq<Snapshot>,
      parts: seq<Part>)
    requires earth.longest > 0.0 && Injective(uuid4) && AreParts(p, earth, uuid4, snapshots, parts)
    requires forall i, j | 0 <= i < j < |snapshots| ::
      p.uuid5(snapshots[i].attrs.code) != p.uuid5(snapshots[j].attrs.code)
    requires forall i | 0 <= i < |snapshots| :: LabelsDiffer(snapshots[i].services)
    ensures WellTo(p, uuid4, PartsEnd(parts), WithParts(parts))
  {
    if parts != [] {
      var n := |parts| - 1;
      PartsWell(p, earth, uuid4, snapshots, parts[..n]);
      RouteIsNew(p, earth, uuid4, snapshots, parts[..n]);
      PartAdded(p, earth, uuid4, PartsEnd(parts[..n]), WithParts(parts[..n]), snapshots[n], parts[n]);
    }
  }

  /** For snapshots with distinct route codes and distinct labels per route, the export is closed
      under its references, and every snapshot is one route and one version of it. */
  lemma {:induction false} ExportIsWellFormed(p: Platform, earth: Earth, uuid4: nat -> Id, snapshots: seq<Snapshot>,
      parts: seq<Part>)
    requires earth.longest > 0.0 && Injective(uuid4) && Clean(p, earth, snapshots)
    requires AreParts(p, earth, uuid4, snapshots, parts) && |parts| == |snapshots|
    ensures WellFormed(p, WithParts(parts))
    ensures |WithParts(parts).routes| == |WithParts(parts).versions| == |snapshots|
    ensures forall i | 0 <= i < |snapshots| ::
      WithParts(parts).routes[i] == Row(p.uuid5(snapshots[i].attrs.code), RouteCols(snapshots[i]))
  {
    PartsWell(p, earth, uuid4, snapshots, parts);
    PartsRead(p, earth, uuid4, snapshots, parts);
    PartRoutes(p, earth, uuid4, snapshots, parts);
    PartsMakeWhole(p, uuid4, PartsEnd(parts), WithParts(parts));
  }
}
