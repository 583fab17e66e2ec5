/** What the rows of an export say of the snapshots they are made from, and that passengers see it. */
module IngestedRows {
  import opened Common
  import opened Schema
  import opened Sorting
  import opened Wkt
  import opened Invariant
  import opened Staging
  import opened Lifecycle
  import opened Passenger
  import opened Publication
  import opened Polyline
  import opened DirectionNames
  import opened CanonicalRows
  import opened Snapshots
  import opened ClosedExports
  import opened Ingestion
  import opened IngestedColumns

  // ---- the match of a service ----------------------------------------------------------------------------

  /** The last match of the service numbered `q` names direction number `n`. */
  ghost predicate Names(matches: seq<Match>, q: int, n: int) {
    exists m :: IsLastMatch(matches, q, m) && m.direction == Some(n)
  }

  lemma {:induction false} NamesIs(matches: seq<Match>, q: int, n: int)
    ensures Names(matches, q, n) <==> MatchFor(matches, q).Some? && MatchFor(matches, q).value.direction == Some(n)
  {
    MatchForIsLast(matches, q);
    if m :| IsLastMatch(matches, q, m) && m.direction == Some(n) {
      if MatchFor(matches, q).Some? {
        LastMatchUnique(matches, q, m, MatchFor(matches, q).value);
      }
    }
  }

  // ---- versions and directions -----------------------------------------------------------------------------

  lemma {:induction false} VersionRowsOf(parts: seq<Part>, i: nat)
    requires i < |parts|
    ensures |WithParts(parts).versions| == |parts| && WithParts(parts).versions[i] == parts[i].version
  {
    var n := |parts| - 1;
    if n > 0 {
      VersionRowsOf(parts[..n], if i < n then i else 0);
    }
  }

  /** The version row of a snapshot. */
  ghost predicate IsVersionOf(p: Platform, s: Snapshot, row: Row<Version>) {
    && row.cols.routeId == p.uuid5(s.attrs.code) && row.cols.isCurrent
    && row.cols.sourceHash == s.sourceHash && row.cols.mapHash == s.mapHash
    && row.cols.pageUrl == s.pageUrl && row.cols.mapUrl == s.mapUrl
  }

  /** The row of direction number `n` of a snapshot, under version `v`. */
  ghost predicate IsDirectionOf(p: Platform, s: Snapshot, v: Id, n: int, row: Row<DirectionInfo>) {
    && 1 <= n <= |s.directions|
    && row.cols.versionId == v && row.cols.sequence == n && row.cols.kind == s.directions[n - 1].kind
    && row.cols.name == NameOf(s.attrs.code, s.directions, OriginIn(Ordered(s.services), s.matches), n - 1)
    && row.cols.geometry == PrintEwkt(p, s.directions[n - 1].coordinates)
  }

  /** The row of a departure of a snapshot, under version `v`: its own columns, and what its last match says
      of it, if it has one. */
  ghost predicate IsServiceOf(s: Snapshot, v: Id, service: SourceService, row: Row<Service>) {
    && row.cols.versionId == v && row.cols.sequence == service.sequence
    && row.cols.departureLabel == service.departureLabel
    && row.cols.normalizedName == service.normalizedName && row.cols.kind == service.kind
    && (forall m | IsLastMatch(s.matches, service.sequence, m) ::
          row.cols.confidence == m.confidence && row.cols.matchMethod == m.matchMethod && row.cols.notes == m.notes)
    && ((forall j | 0 <= j < |s.matches| :: s.matches[j].service != service.sequence) ==>
          row.cols.confidence == "none" && row.cols.matchMethod == "unmatched" && row.cols.notes == "{}")
  }

  /** A row for every direction and for every departure of the snapshot, and none besides, under the version
      row of the snapshot. */
  ghost predicate TellsSnapshot(p: Platform, e: Export, s: Snapshot, version: Row<Version>) {
    && version in e.versions && IsVersionOf(p, s, version)
    && (forall n | 1 <= n <= |s.directions| :: HasDirectionRow(p, e, s, version.id, n))
    && (forall row | row in e.directions && row.cols.versionId == version.id ::
          IsDirectionOf(p, s, version.id, row.cols.sequence, row))
    && (forall service | service in s.services :: HasServiceRow(e, s, version.id, service))
    && (forall row | row in e.services && row.cols.versionId == version.id :: FromService(s, version.id, row))
  }

  ghost predicate HasDirectionRow(p: Platform, e: Export, s: Snapshot, v: Id, n: int) {
    exists row :: row in e.directions && IsDirectionOf(p, s, v, n, row)
  }

  ghost predicate HasServiceRow(e: Export, s: Snapshot, v: Id, service: SourceService) {
    exists row :: row in e.services && IsServiceOf(s, v, service, row)
  }

  ghost predicate FromService(s: Snapshot, v: Id, row: Row<Service>) {
    exists service :: service in s.services && IsServiceOf(s, v, service, row)
  }

  /** The departure is linked to the direction that its last match names by number, and to no other; if it
      has no match, or one that names no direction of the route, it is not linked. */
  ghost predicate IsLinked(e: Export, s: Snapshot, row: Row<Service>) {
    forall d :: row.cols.directionId == Some(d) <==>
      exists n :: 1 <= n <= |s.directions| && Names(s.matches, row.cols.sequence, n)
        && IsNumbered(e.directions, d, row.cols.versionId, n)
  }

  /** Direction `d` is number `n` of version `v`. */
  ghost predicate IsNumbered(directions: seq<Row<DirectionInfo>>, d: Id, v: Id, n: int) {
    exists row :: row in directions && row.id == d && row.cols.versionId == v && row.cols.sequence == n
  }

  // ---- one part --------------------------------------------------------------------------------------------

  lemma PartBlock(p: Platform, earth: Earth, uuid4: nat -> Id, next: nat, s: Snapshot, part: Part, j: nat)
    requires earth.longest > 0.0 && IsPart(p, earth, uuid4, next, s, part) && j < |part.blocks|
    ensures |part.blocks| == |s.directions| && IsDirectionOf(p, s, part.version.id, j + 1, part.blocks[j].row)
  {
    var at := BlockAt(p, earth, uuid4, next + 1, part.version.id, Snapshots.Names(s), s, part.blocks, j);
  }

  lemma PartService(p: Platform, earth: Earth, uuid4: nat -> Id, next: nat, s: Snapshot, part: Part, k: nat)
    requires earth.longest > 0.0 && IsPart(p, earth, uuid4, next, s, part) && k < |part.services|
    ensures |part.services| == |Ordered(s.services)|
    ensures IsServiceOf(s, part.version.id, Ordered(s.services)[k], part.services[k])
  {
    var q := Ordered(s.services)[k].sequence;
    MatchForIsLast(s.matches, q);
    forall m | IsLastMatch(s.matches, q, m) ensures MatchFor(s.matches, q) == Some(m) {
      if MatchFor(s.matches, q).Some? {
        LastMatchUnique(s.matches, q, m, MatchFor(s.matches, q).value);
      }
    }
  }

  /** Which direction a departure of a part is linked to. */
  lemma PartLink(p: Platform, earth: Earth, uuid4: nat -> Id, next: nat, s: Snapshot, part: Part, k: nat, d: Id)
    requires earth.longest > 0.0 && IsPart(p, earth, uuid4, next, s, part) && k < |part.services|
    ensures |part.blocks| == |s.directions|
    ensures part.services[k].cols.directionId == Some(d) <==>
      exists n :: 1 <= n <= |s.directions| && Names(s.matches, part.services[k].cols.sequence, n)
        && part.blocks[n - 1].row.id == d
  {
    var q := part.services[k].cols.sequence;
    assert q == Ordered(s.services)[k].sequence;
    forall n ensures Names(s.matches, q, n) <==>
      MatchFor(s.matches, q).Some? && MatchFor(s.matches, q).value.direction == Some(n)
    {
      NamesIs(s.matches, q, n);
    }
  }

  // ---- all parts -------------------------------------------------------------------------------------------

  /** The rows of each part are in the export. */
  lemma {:induction false} PartRowsAreIn(parts: seq<Part>, i: nat)
    requires i < |parts|
    ensures forall j | 0 <= j < |parts[i].blocks| :: parts[i].blocks[j].row in WithParts(parts).directions
    ensures forall k | 0 <= k < |parts[i].services| :: parts[i].services[k] in WithParts(parts).services
  {
    var n := |parts| - 1;
    if i < n {
      PartRowsAreIn(parts[..n], i);
    } else {
      forall j | 0 <= j < |parts[i].blocks| ensures parts[i].blocks[j].row in WithParts(parts).directions {
        assert BlockDirections(parts[n].blocks)[j] in BlockDirections(parts[n].blocks);
      }
    }
  }

  lemma {:induction false} SourceOfDirection(parts: seq<Part>, row: Row<DirectionInfo>) returns (i: nat, j: nat)
    requires row in WithParts(parts).directions
    ensures i < |parts| && j < |parts[i].blocks| && parts[i].blocks[j].row == row
  {
    var n := |parts| - 1;
    if row in WithParts(parts[..n]).directions {
      i, j := SourceOfDirection(parts[..n], row);
    } else {
      i := n;
      j :| 0 <= j < |parts[n].blocks| && BlockDirections(parts[n].blocks)[j] == row;
    }
  }

  lemma {:induction false} SourceOfService(parts: seq<Part>, row: Row<Service>) returns (i: nat, k: nat)
    requires row in WithParts(parts).services
    ensures i < |parts| && k < |parts[i].services| && parts[i].services[k] == row
  {
    var n := |parts| - 1;
    if row in WithParts(parts[..n]).services {
      i, k := SourceOfService(parts[..n], row);
    } else {
      i := n;
      k :| 0 <= k < |parts[n].services| && parts[n].services[k] == row;
    }
  }

  lemma {:induction false} SamePart(parts: seq<Part>, i: nat, j: nat)
    requires i < |parts| && j < |parts| && DistinctIds(WithParts(parts).versions)
    requires parts[i].version.id == parts[j].version.id
    ensures i == j
  {
    VersionRowsOf(parts, i);
    VersionRowsOf(parts, j);
  }

  /** A departure of the snapshot has its place in the sorted list. */
  lemma OrderedHas(services: seq<SourceService>, service: SourceService) returns (k: nat)
    requires service in services
    ensures k < |Ordered(services)| && Ordered(services)[k] == service
  {
    SortByKeeps(services, BySequence);
    assert service in multiset(services) && service in multiset(Ordered(services));
    k :| 0 <= k < |Ordered(services)| && Ordered(services)[k] == service;
  }

  lemma OrderedIsFrom(services: seq<SourceService>, k: nat)
    requires k < |Ordered(services)|
    ensures Ordered(services)[k] in services
  {
    SortByKeeps(services, BySequence);
    assert Ordered(services)[k] in multiset(Ordered(services));
  }

  lemma {:induction false} DirectionsAreTold(p: Platform, earth: Earth, uuid4: nat -> Id, snapshots: seq<Snapshot>,
      parts: seq<Part>,
      i: nat)
    requires earth.longest > 0.0 && AreParts(p, earth, uuid4, snapshots, parts) && i < |parts| == |snapshots|
    requires DistinctIds(WithParts(parts).versions)
    ensures forall n | 1 <= n <= |snapshots[i].directions| ::
      HasDirectionRow(p, WithParts(parts), snapshots[i], parts[i].version.id, n)
    ensures forall row | row in WithParts(parts).directions && row.cols.versionId == parts[i].version.id ::
      IsDirectionOf(p, snapshots[i], parts[i].version.id, row.cols.sequence, row)
  {
    var s, v := snapshots[i], parts[i].version.id;
    var next := PartAt(p, earth, uuid4, snapshots, parts, i);
    PartRowsAreIn(parts, i);
    forall n | 1 <= n <= |s.directions| ensures HasDirectionRow(p, WithParts(parts), s, v, n) {
      PartBlock(p, earth, uuid4, next, s, parts[i], n - 1);
      assert parts[i].blocks[n - 1].row in WithParts(parts).directions;
    }
    forall row | row in WithParts(parts).directions && row.cols.versionId == v
      ensures IsDirectionOf(p, s, v, row.cols.sequence, row)
    {
      var a, b := SourceOfDirection(parts, row);
      var at := PartAt(p, earth, uuid4, snapshots, parts, a);
      PartBlock(p, earth, uuid4, at, snapshots[a], parts[a], b);
      SamePart(parts, a, i);
    }
  }

  lemma {:induction false} ServicesAreTold(p: Platform, earth: Earth, uuid4: nat -> Id, snapshots: seq<Snapshot>,
      parts: seq<Part>,
      i: nat)
    requires earth.longest > 0.0 && AreParts(p, earth, uuid4, snapshots, parts) && i < |parts| == |snapshots|
    requires DistinctIds(WithParts(parts).versions)
    ensures forall service | service in snapshots[i].services ::
      HasServiceRow(WithParts(parts), snapshots[i], parts[i].version.id, service)
    ensures forall row | row in WithParts(parts).services && row.cols.versionId == parts[i].version.id ::
      FromService(snapshots[i], parts[i].version.id, row)
  {
    var s, v := snapshots[i], parts[i].version.id;
    var next := PartAt(p, earth, uuid4, snapshots, parts, i);
    PartRowsAreIn(parts, i);
    forall service | service in s.services ensures HasServiceRow(WithParts(parts), s, v, service) {
      var k := OrderedHas(s.services, service);
      PartService(p, earth, uuid4, next, s, parts[i], k);
      assert parts[i].services[k] in WithParts(parts).services;
    }
    forall row | row in WithParts(parts).services && row.cols.versionId == v ensures FromService(s, v, row) {
      var a, k := SourceOfService(parts, row);
      var at := PartAt(p, earth, uuid4, snapshots, parts, a);
      PartService(p, earth, uuid4, at, snapshots[a], parts[a], k);
      SamePart(parts, a, i);
      OrderedIsFrom(s.services, k);
    }
  }

  lemma {:induction false} VersionIsTold(p: Platform, earth: Earth, uuid4: nat -> Id, snapshots: seq<Snapshot>,
      parts: seq<Part>, i: nat)
    requires earth.longest > 0.0 && AreParts(p, earth, uuid4, snapshots, parts) && i < |parts| == |snapshots|
    ensures parts[i].version in WithParts(parts).versions && IsVersionOf(p, snapshots[i], parts[i].version)
  {
    var next := PartAt(p, earth, uuid4, snapshots, parts, i);
    VersionRowsOf(parts, i);
  }

  /** Which direction a departure is linked to, on the rows of the export alone. */
  lemma {:induction false} DepartureIsLinked(p: Platform, earth: Earth, uuid4: nat -> Id, snapshots: seq<Snapshot>,
      parts: seq<Part>,
      i: nat, row: Row<Service>)
    requires earth.longest > 0.0 && AreParts(p, earth, uuid4, snapshots, parts) && i < |parts| == |snapshots|
    requires WellFormed(p, WithParts(parts))
    requires row in WithParts(parts).services && row.cols.versionId == parts[i].version.id
    ensures IsLinked(WithParts(parts), snapshots[i], row)
  {
    var e, s, v := WithParts(parts), snapshots[i], parts[i].version.id;
    var a, k := SourceOfService(parts, row);
    var at := PartAt(p, earth, uuid4, snapshots, parts, a);
    PartService(p, earth, uuid4, at, snapshots[a], parts[a], k);
    SamePart(parts, a, i);
    PartRowsAreIn(parts, i);
    forall d ensures row.cols.directionId == Some(d) <==>
      exists n :: 1 <= n <= |s.directions| && Names(s.matches, row.cols.sequence, n)
        && IsNumbered(e.directions, d, v, n)
    {
      LinkInExport(p, earth, uuid4, at, s, parts[i], e, k, d);
    }
  }

  /** What a departure of a part is linked to, among all directions of the export. */
  lemma LinkInExport(p: Platform, earth: Earth, uuid4: nat -> Id, at: nat, s: Snapshot, part: Part, e: Export, k: nat,
      d: Id)
    requires earth.longest > 0.0 && IsPart(p, earth, uuid4, at, s, part) && k < |part.services| && KeysUnique(e)
    requires forall j | 0 <= j < |part.blocks| :: part.blocks[j].row in e.directions
    ensures part.services[k].cols.directionId == Some(d) <==>
      exists n :: 1 <= n <= |s.directions| && Names(s.matches, part.services[k].cols.sequence, n)
        && IsNumbered(e.directions, d, part.version.id, n)
  {
    PartLink(p, earth, uuid4, at, s, part, k, d);
    forall n | 1 <= n <= |s.directions|
      ensures part.blocks[n - 1].row.id == d <==> IsNumbered(e.directions, d, part.version.id, n)
    {
      PartBlock(p, earth, uuid4, at, s, part, n - 1);
      OneOfNumber(e, part.blocks[n - 1].row, d, part.version.id, n);
    }
  }

  lemma OneOfNumber(e: Export, row: Row<DirectionInfo>, d: Id, v: Id, n: int)
    requires KeysUnique(e) && row in e.directions && row.cols.versionId == v && row.cols.sequence == n
    ensures row.id == d <==> IsNumbered(e.directions, d, v, n)
  {
  }

  /** The export of clean snapshots: one version row per snapshot that tells it, and every departure linked
      as its last match says. */
  lemma {:induction false} ExportTellsSnapshots(p: Platform, earth: Earth, uuid4: nat -> Id, snapshots: seq<Snapshot>,
      parts: seq<Part>)
    requires earth.longest > 0.0 && Injective(uuid4) && Clean(p, earth, snapshots)
    requires AreParts(p, earth, uuid4, snapshots, parts) && |parts| == |snapshots|
    ensures var e := WithParts(parts);
      |e.versions| == |snapshots| && forall i | 0 <= i < |snapshots| ::
        && TellsSnapshot(p, e, snapshots[i], e.versions[i])
        && forall row | row in e.services && row.cols.versionId == e.versions[i].id :: IsLinked(e, snapshots[i], row)
  {
    var e := WithParts(parts);
    ExportIsWellFormed(p, earth, uuid4, snapshots, parts);
    forall i | 0 <= i < |snapshots|
      ensures TellsSnapshot(p, e, snapshots[i], e.versions[i])
      ensures forall row | row in e.services && row.cols.versionId == e.versions[i].id :: IsLinked(e, snapshots[i], row)
    {
      VersionRowsOf(parts, i);
      VersionIsTold(p, earth, uuid4, snapshots, parts, i);
      DirectionsAreTold(p, earth, uuid4, snapshots, parts, i);
      ServicesAreTold(p, earth, uuid4, snapshots, parts, i);
      forall row | row in e.services && row.cols.versionId == e.versions[i].id ensures IsLinked(e, snapshots[i], row) {
        DepartureIsLinked(p, earth, uuid4, snapshots, parts, i, row);
      }
    }
  }

  // ---- the view --------------------------------------------------------------------------------------------

  /** A departure that passengers see is linked to the direction they see under the number its last match
      names. */
  ghost predicate IsSeenLinked(seen: View, s: Snapshot, service: Service) {
    forall d :: service.directionId == Some(d) <==>
      && d in seen.directions && seen.directions[d].info.versionId == service.versionId
      && Names(s.matches, service.sequence, seen.directions[d].info.sequence)
  }

  lemma SeenNumbers(p: Platform, e: Export, directions: map<Id, Direction>, d: Id, v: Id, n: int)
    requires Holds(directions, DirectionRows(p, e))
    ensures IsNumbered(e.directions, d, v, n) <==>
      d in directions && directions[d].info.versionId == v && directions[d].info.sequence == n
  {
    if IsNumbered(e.directions, d, v, n) {
      var row :| row in e.directions && row.id == d && row.cols.versionId == v && row.cols.sequence == n;
      var i :| 0 <= i < |e.directions| && e.directions[i] == row;
      assert DirectionRows(p, e)[i] in DirectionRows(p, e);
    }
    if d in directions {
      var i :| 0 <= i < |e.directions| && DirectionRows(p, e)[i] == Row(d, directions[d]);
      assert e.directions[i] in e.directions;
    }
  }

  lemma LinkIsSeen(p: Platform, e: Export, seen: View, s: Snapshot, version: Row<Version>, row: Row<Service>)
    requires Holds(seen.directions, DirectionRows(p, e)) && TellsSnapshot(p, e, s, version)
    requires row in e.services && row.cols.versionId == version.id && IsLinked(e, s, row)
    ensures IsSeenLinked(seen, s, row.cols)
  {
    forall d ensures row.cols.directionId == Some(d) <==>
      && d in seen.directions && seen.directions[d].info.versionId == version.id
      && Names(s.matches, row.cols.sequence, seen.directions[d].info.sequence)
    {
      forall n ensures IsNumbered(e.directions, d, version.id, n) <==>
        d in seen.directions && seen.directions[d].info.versionId == version.id && seen.directions[d].info.sequence == n
      {
        SeenNumbers(p, e, seen.directions, d, version.id, n);
      }
      if d in seen.directions && seen.directions[d].info.versionId == version.id {
        var n := seen.directions[d].info.sequence;
        assert IsNumbered(e.directions, d, version.id, n);
        var told :| told in e.directions && told.id == d && told.cols.versionId == version.id
          && told.cols.sequence == n;
        assert IsDirectionOf(p, s, version.id, n, told);
      }
    }
  }

  /** Published, the departures of every clean snapshot are seen under its version, each linked to the
      direction that its last match names, and to no other. */
  lemma {:induction false} PassengersSeeLinks(p: Platform, earth: Earth, uuid4: nat -> Id, snapshots: seq<Snapshot>,
      parts: seq<Part>, db: Db, g: Id, i: nat, x: Id)
    requires earth.longest > 0.0 && Injective(uuid4) && Clean(p, earth, snapshots) && snapshots != []
    requires AreParts(p, earth, uuid4, snapshots, parts) && |parts| == |snapshots| && i < |snapshots|
    requires Inv(p, db) && Fresh(db, g, WithParts(parts))
    ensures |WithParts(parts).versions| == |snapshots|
    ensures var seen := Seen(Run(p, db, Publishing(g, WithParts(parts))));
      x in seen.services && seen.services[x].versionId == WithParts(parts).versions[i].id ==>
        IsSeenLinked(seen, snapshots[i], seen.services[x])
  {
    var e, seen := WithParts(parts), Seen(Run(p, db, Publishing(g, WithParts(parts))));
    SnapshotsArePublished(p, earth, uuid4, snapshots, parts, db, g);
    ExportTellsSnapshots(p, earth, uuid4, snapshots, parts);
    if x in seen.services && seen.services[x].versionId == e.versions[i].id {
      LinkIsSeen(p, e, seen, snapshots[i], e.versions[i], Row(x, seen.services[x]));
    }
  }
}
