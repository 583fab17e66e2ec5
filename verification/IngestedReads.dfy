/** From snapshots to what passengers choose from: after publishing, the direction choices of a route are the
    directions of its snapshot. */
module IngestedReads {
  import opened Common
  import opened Schema
  import opened Invariant
  import opened Staging
  import opened Lifecycle
  import opened Passenger
  import opened Publication
  import opened Joins
  import opened DirectionChoices
  import opened ReadMeaning
  import opened Polyline
  import N = DirectionNames
  import opened CanonicalRows
  import S = Snapshots
  import opened ClosedExports
  import opened Ingestion
  import R = IngestedRows

  // ---- reads and the view ------------------------------------------------------------------------------------

  /** The version that reads take as current is the one the view shows. */
  lemma CurrentIsSeen(db: Db, route: Id, v: Id)
    ensures CurrentVersion(db, route, v) <==> exists m :: m in Seen(db).members && m.route == route && m.version == v
  {
    if m :| IsCurrent(db, m) && m.route == route && m.version == v {
      assert m in Seen(db).members;
    }
    if m :| m in Seen(db).members && m.route == route && m.version == v {
      assert IsCurrent(db, m);
    }
  }

  /** The rows of a version that the view shows are all there are of it. */
  lemma RowsAreSeen(db: Db, v: Id)
    requires exists m :: m in Seen(db).members && m.version == v
    ensures forall d | d in db.directions && db.directions[d].info.versionId == v ::
      d in Seen(db).directions && Seen(db).directions[d] == db.directions[d]
    ensures forall s | s in db.services && db.services[s].versionId == v ::
      s in Seen(db).services && Seen(db).services[s] == db.services[s]
  {
    var m :| m in Seen(db).members && m.version == v;
    assert v in MemberVersions(Seen(db).members);
  }

  lemma SeenAreRows(db: Db)
    ensures forall d | d in Seen(db).directions :: d in db.directions && Seen(db).directions[d] == db.directions[d]
    ensures forall s | s in Seen(db).services :: s in db.services && Seen(db).services[s] == db.services[s]
  {
  }

  // ---- one choice --------------------------------------------------------------------------------------------

  /** The choice is direction number `c.sequence` of the snapshot, by its name and kind, and its labels are those
      of the departures whose last match publicly names it. */
  ghost predicate IsChoiceOf(s: S.Snapshot, c: Choice) {
    && 1 <= c.sequence <= |s.directions|
    && c.kind == s.directions[c.sequence - 1].kind
    && c.name == N.NameOf(s.attrs.code, s.directions, N.OriginIn(N.Ordered(s.services), s.matches), c.sequence - 1)
    && forall text :: text in c.labels <==> exists service ::
      service in s.services && service.departureLabel == text && N.DepartsPublicly(s.matches, service, c.sequence)
  }

  /** The store shows the export `e`, which tells the snapshot `s` under `version`. */
  ghost predicate ShowsSnapshot(p: Platform, db: Db, e: Export, s: S.Snapshot, version: Row<Version>) {
    && LinksInside(db) && KeysUnique(e) && DistinctIds(e.directions)
    && Holds(Seen(db).directions, DirectionRows(p, e)) && Holds(Seen(db).services, e.services)
    && (exists m :: m in Seen(db).members && m.version == version.id)
    && R.TellsSnapshot(p, e, s, version)
    && forall row | row in e.services && row.cols.versionId == version.id :: R.IsLinked(e, s, row)
  }

  lemma DirectionIsTold(p: Platform, db: Db, e: Export, s: S.Snapshot, version: Row<Version>, d: Id)
    requires ShowsSnapshot(p, db, e, s, version) && Runs(db, d, version.id)
    ensures var info := db.directions[d].info;
      R.IsDirectionOf(p, s, version.id, info.sequence, Row(d, info)) && Row(d, info) in e.directions
  {
    RowsAreSeen(db, version.id);
    var i :| 0 <= i < |e.directions| && DirectionRows(p, e)[i] == Row(d, db.directions[d]);
    assert e.directions[i] in e.directions && e.directions[i] == Row(d, db.directions[d].info);
  }

  lemma DepartureIsTold(p: Platform, db: Db, e: Export, s: S.Snapshot, version: Row<Version>, c: Choice, x: Id)
    requires ShowsSnapshot(p, db, e, s, version) && IsChoice(db, version.id, c) && Departs(db, x, c.id)
    ensures exists service ::
      && service in s.services && service.departureLabel == db.services[x].departureLabel
      && N.DepartsPublicly(s.matches, service, c.sequence)
  {
    assert db.services[x].versionId == version.id;
    RowsAreSeen(db, version.id);
    var row: Row<Service> := Row(x, db.services[x]);
    assert row in e.services;
    assert R.FromService(s, version.id, row) && R.IsLinked(e, s, row);
    var service :| service in s.services && R.IsServiceOf(s, version.id, service, row);
    var n :| 1 <= n <= |s.directions| && R.Names(s.matches, row.cols.sequence, n)
      && R.IsNumbered(e.directions, c.id, version.id, n);
    DirectionIsTold(p, db, e, s, version, c.id);
    SameNumber(e, c.id, version.id, n, db.directions[c.id].info);
    var m :| N.IsLastMatch(s.matches, row.cols.sequence, m) && m.direction == Some(n);
    assert N.DepartsPublicly(s.matches, service, c.sequence);
  }

  lemma SameNumber(e: Export, d: Id, v: Id, n: int, info: DirectionInfo)
    requires R.IsNumbered(e.directions, d, v, n) && Row(d, info) in e.directions && DistinctIds(e.directions)
    ensures info.sequence == n
  {
  }

  lemma PublicIsShown(p: Platform, db: Db, e: Export, s: S.Snapshot, version: Row<Version>, c: Choice,
      service: N.SourceService)
    requires ShowsSnapshot(p, db, e, s, version) && IsChoice(db, version.id, c)
    requires service in s.services && N.DepartsPublicly(s.matches, service, c.sequence)
    ensures exists x :: Departs(db, x, c.id) && db.services[x].departureLabel == service.departureLabel
  {
    DirectionIsTold(p, db, e, s, version, c.id);
    var m :| N.IsLastMatch(s.matches, service.sequence, m) && m.direction == Some(c.sequence)
      && (m.confidence == "high" || m.confidence == "medium");
    assert R.HasServiceRow(e, s, version.id, service);
    var row :| row in e.services && R.IsServiceOf(s, version.id, service, row);
    assert R.Names(s.matches, row.cols.sequence, c.sequence);
    assert R.IsNumbered(e.directions, c.id, version.id, c.sequence);
    assert R.IsLinked(e, s, row);
    assert row.cols.directionId == Some(c.id);
    SeenAreRows(db);
    var x: Id := row.id;
    assert x in Seen(db).services && Departs(db, x, c.id);
  }

  lemma ChoiceIsOfSnapshot(p: Platform, db: Db, e: Export, s: S.Snapshot, version: Row<Version>, c: Choice)
    requires ShowsSnapshot(p, db, e, s, version) && IsChoice(db, version.id, c)
    ensures IsChoiceOf(s, c)
  {
    DirectionIsTold(p, db, e, s, version, c.id);
    ChoiceHasLabels(db, version.id, c);
    forall text ensures text in c.labels <==> exists service ::
      service in s.services && service.departureLabel == text && N.DepartsPublicly(s.matches, service, c.sequence)
    {
      if text in c.labels {
        var x :| Departs(db, x, c.id) && db.services[x].departureLabel == text;
        DepartureIsTold(p, db, e, s, version, c, x);
      }
      if exists service ::
        service in s.services && service.departureLabel == text && N.DepartsPublicly(s.matches, service, c.sequence)
      {
        var service :| service in s.services && service.departureLabel == text
          && N.DepartsPublicly(s.matches, service, c.sequence);
        PublicIsShown(p, db, e, s, version, c, service);
      }
    }
  }

  // ---- all choices -------------------------------------------------------------------------------------------

  ghost predicate HasChoice(choices: seq<Choice>, n: int) {
    exists c :: c in choices && c.sequence == n
  }

  lemma DirectionHasChoice(p: Platform, db: Db, e: Export, s: S.Snapshot, version: Row<Version>, choices: seq<Choice>,
      n: int)
    requires ShowsSnapshot(p, db, e, s, version) && IsChoices(db, version.id, choices) && 1 <= n <= |s.directions|
    ensures HasChoice(choices, n)
  {
    assert R.HasDirectionRow(p, e, s, version.id, n);
    var row :| row in e.directions && R.IsDirectionOf(p, s, version.id, n, row);
    var i :| 0 <= i < |e.directions| && e.directions[i] == row;
    assert DirectionRows(p, e)[i] in DirectionRows(p, e);
    SeenAreRows(db);
    var d: Id := row.id;
    assert Runs(db, d, version.id);
    var c :| c in choices && c.id == d;
  }

  lemma {:induction false} PublishedIsSound(p: Platform, db: Db, g: Id, e: Export)
    requires Inv(p, db) && WellFormed(p, e)
    ensures Inv(p, Run(p, db, Publishing(g, e)))
  {
    RunKeepsInv(p, db, Publishing(g, e));
  }

  lemma SoundHasOneVersion(p: Platform, db: Db)
    requires Inv(p, db)
    ensures OneVersionPerRoute(db) && LinksInside(db)
  {
  }

  lemma ExportShowsSnapshot(p: Platform, after: Db, g: Id, e: Export, s: S.Snapshot, version: Row<Version>)
    requires LinksInside(after) && KeysUnique(e) && DistinctIds(e.directions)
    requires ShowsExport(p, Seen(after), g, e) && R.TellsSnapshot(p, e, s, version)
    requires forall row | row in e.services && row.cols.versionId == version.id :: R.IsLinked(e, s, row)
    ensures ShowsSnapshot(p, after, e, s, version)
    ensures CurrentVersion(after, p.uuid5(s.attrs.code), version.id)
  {
    var m := Member(g, version.cols.routeId, version.id);
    assert m in MembersFrom(g, e.versions);
    assert m in Seen(after).members;
    CurrentIsSeen(after, version.cols.routeId, version.id);
  }

  lemma {:induction false} ExportTells(p: Platform, earth: Earth, uuid4: nat -> Id, snapshots: seq<S.Snapshot>,
      parts: seq<S.Part>,
      e: Export, i: nat)
    requires earth.longest > 0.0 && Injective(uuid4) && Clean(p, earth, snapshots)
    requires S.AreParts(p, earth, uuid4, snapshots, parts) && |parts| == |snapshots| && i < |snapshots|
    requires e == S.WithParts(parts)
    ensures WellFormed(p, e) && |e.versions| == |snapshots|
    ensures R.TellsSnapshot(p, e, snapshots[i], e.versions[i])
    ensures forall row | row in e.services && row.cols.versionId == e.versions[i].id :: R.IsLinked(e, snapshots[i], row)
  {
    ExportIsWellFormed(p, earth, uuid4, snapshots, parts);
    R.ExportTellsSnapshots(p, earth, uuid4, snapshots, parts);
  }

  lemma {:induction false} StoreShowsSnapshot(p: Platform, earth: Earth, uuid4: nat -> Id, snapshots: seq<S.Snapshot>,
      parts: seq<S.Part>,
      db: Db, after: Db, g: Id, e: Export, i: nat)
    requires earth.longest > 0.0 && Injective(uuid4) && Clean(p, earth, snapshots) && snapshots != []
    requires S.AreParts(p, earth, uuid4, snapshots, parts) && |parts| == |snapshots| && i < |snapshots|
    requires e == S.WithParts(parts) && Inv(p, db) && Fresh(db, g, e) && after == Run(p, db, Publishing(g, e))
    ensures |e.versions| == |snapshots| && ShowsSnapshot(p, after, e, snapshots[i], e.versions[i])
    ensures CurrentVersion(after, p.uuid5(snapshots[i].attrs.code), e.versions[i].id)
    ensures OneVersionPerRoute(after)
  {
    ExportTells(p, earth, uuid4, snapshots, parts, e, i);
    SnapshotsArePublished(p, earth, uuid4, snapshots, parts, db, g);
    PublishedIsSound(p, db, g, e);
    SoundHasOneVersion(p, after);
    ExportShowsSnapshot(p, after, g, e, snapshots[i], e.versions[i]);
  }

  /** Published, the direction choices of a snapshot's route are one for each of its directions, under their
      names and kinds, each with the labels of the departures publicly matched to it, and none besides. */
  lemma {:induction false} ChoicesAreOfSnapshot(p: Platform, earth: Earth, uuid4: nat -> Id,
      snapshots: seq<S.Snapshot>, parts: seq<S.Part>, db: Db, g: Id, i: nat, context: Context)
    requires earth.longest > 0.0 && Injective(uuid4) && Clean(p, earth, snapshots) && snapshots != []
    requires S.AreParts(p, earth, uuid4, snapshots, parts) && |parts| == |snapshots| && i < |snapshots|
    requires Inv(p, db) && Fresh(db, g, S.WithParts(parts))
    requires IsContext(Run(p, db, Publishing(g, S.WithParts(parts))), p.uuid5(snapshots[i].attrs.code), None, context)
    ensures context.Choices?
    ensures forall c | c in context.directions :: IsChoiceOf(snapshots[i], c)
    ensures forall n | 1 <= n <= |snapshots[i].directions| :: HasChoice(context.directions, n)
  {
    var e, after := S.WithParts(parts), Run(p, db, Publishing(g, S.WithParts(parts)));
    var route, s := p.uuid5(snapshots[i].attrs.code), snapshots[i];
    StoreShowsSnapshot(p, earth, uuid4, snapshots, parts, db, after, g, e, i);
    CurrentVersionUnique(after, route, e.versions[i].id, context.version);
    forall c | c in context.directions ensures IsChoiceOf(s, c) {
      ChoiceIsOfSnapshot(p, after, e, s, e.versions[i], c);
    }
    forall n | 1 <= n <= |s.directions| ensures HasChoice(context.directions, n) {
      DirectionHasChoice(p, after, e, s, e.versions[i], context.directions, n);
    }
  }
}
