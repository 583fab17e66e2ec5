/** Staging one canonical export: what is inserted, when the schema accepts it, and why the
    invariant survives. */
module Staging {
  import opened Schema
  import opened Wkt
  import opened Denorm

  // ---- Inserting rows into one table -----------------------------------------------------------

  /** A plain insert, and one with `ON CONFLICT (id) DO NOTHING`. */
  function Put<K, T>(table: map<K, T>, row: Keyed<K, T>): map<K, T> {
    table[row.id := row.cols]
  }

  function PutMissing<K, T>(table: map<K, T>, row: Keyed<K, T>): map<K, T> {
    if row.id in table then table else table[row.id := row.cols]
  }

  /** The table after inserting the first `n` rows, in order. */
  function LoadedTo<K(!new), T(!new)>(table: map<K, T>, rows: seq<Keyed<K, T>>, n: nat, put: (map<K, T>, Keyed<K,
      T>) -> map<K, T>): map<K, T>
    requires n <= |rows|
  {
    if n == 0 then table else put(LoadedTo(table, rows, n - 1, put), rows[n - 1])
  }

  function Loaded<K(!new), T(!new)>(table: map<K, T>, rows: seq<Keyed<K, T>>, put: (map<K, T>, Keyed<K, T>) -> map<K,
      T>): map<K, T> {
    LoadedTo(table, rows, |rows|, put)
  }

  /** Every row meets the table's constraints when its turn comes. */
  ghost predicate AllFit<K(!new), T(!new)>(
    table: map<K, T>, rows: seq<Keyed<K, T>>,
    put: (map<K, T>, Keyed<K, T>) -> map<K, T>, fits: (map<K, T>, Keyed<K, T>) -> bool)
  {
    FitTo(table, rows, |rows|, put, fits)
  }

  ghost predicate FitTo<K(!new), T(!new)>(
    table: map<K, T>, rows: seq<Keyed<K, T>>, n: nat,
    put: (map<K, T>, Keyed<K, T>) -> map<K, T>, fits: (map<K, T>, Keyed<K, T>) -> bool)
    requires n <= |rows|
  {
    forall i | 0 <= i < n :: fits(LoadedTo(table, rows, i, put), rows[i])
  }

  /** One `executemany`: rows go in one by one, and the first violation stops it. */
  method InsertAll<K(!new), T(!new)>(
    table: map<K, T>, rows: seq<Keyed<K, T>>,
    put: (map<K, T>, Keyed<K, T>) -> map<K, T>, fits: (map<K, T>, Keyed<K, T>) -> bool)
    returns (ok: bool, loaded: map<K, T>)
    ensures ok <==> AllFit(table, rows, put, fits)
    ensures ok ==> loaded == Loaded(table, rows, put)
  {
    loaded := table;
    var i := 0;
    while i < |rows| && fits(loaded, rows[i])
      invariant 0 <= i <= |rows| && loaded == LoadedTo(table, rows, i, put)
      invariant FitTo(table, rows, i, put, fits)
    {
      assert fits(LoadedTo(table, rows, i, put), rows[i]);
      loaded := put(loaded, rows[i]);
      i := i + 1;
    }
    ok := i == |rows|;
  }

  predicate RouteFits(table: map<Id, RouteAttrs>, row: Row<RouteAttrs>) {
    row.id in table || forall r | r in table :: table[r].code != row.cols.code
  }

  // ---- The rows of each table and their constraints ----------------------------------------------

  function SnapshotRows(g: Id, rows: seq<Row<RouteAttrs>>): (out: seq<Keyed<SnapshotKey, RouteAttrs>>)
    ensures |out| == |rows|
    ensures forall i | 0 <= i < |rows| :: out[i] == Row(SnapshotKey(g, rows[i].id), rows[i].cols)
  {
    seq(|rows|, i requires 0 <= i < |rows| => Row(SnapshotKey(g, rows[i].id), rows[i].cols))
  }

  /** The direction rows with the advice column derived from the exported segments. */
  function DirectionRows(p: Platform, e: Export): (out: seq<Row<Direction>>)
    ensures |out| == |e.directions|
    ensures forall i | 0 <= i < |out| ::
      out[i] == Row(e.directions[i].id, Direction(e.directions[i].cols, Derived(p, e.segments, e.directions[i].id)))
  {
    seq(|e.directions|, i requires 0 <= i < |e.directions| =>
      Row(e.directions[i].id, Direction(e.directions[i].cols, Derived(p, e.segments, e.directions[i].id))))
  }

  ghost function MembersFrom(g: Id, rows: seq<Row<Version>>): set<Member> {
    set row | row in rows :: Member(g, row.cols.routeId, row.id)
  }

  function IdSet<T(==)>(rows: seq<Row<T>>): set<Id> {
    set row | row in rows :: row.id
  }

  predicate SnapshotFits(db: Db, table: map<SnapshotKey, RouteAttrs>, row: Keyed<SnapshotKey, RouteAttrs>) {
    row.id !in table && row.id.generation in db.generations && row.id.route in db.routes
  }

  predicate VersionFits(db: Db, table: map<Id, Version>, row: Row<Version>) {
    row.id !in table && row.cols.routeId in db.routes
  }

  predicate DirectionFits(db: Db, table: map<Id, Direction>, row: Row<Direction>) {
    && row.id !in table
    && row.cols.info.versionId in db.versions
    && forall d | d in table :: table[d].info.versionId == row.cols.info.versionId ==>
      table[d].info.sequence != row.cols.info.sequence
  }

  predicate ServiceFits(db: Db, table: map<Id, Service>, row: Row<Service>) {
    && row.id !in table
    && row.cols.versionId in db.versions
    && (row.cols.directionId.Some? ==> row.cols.directionId.value in db.directions)
    && forall s | s in table :: table[s].versionId == row.cols.versionId ==>
      table[s].departureLabel != row.cols.departureLabel
  }

  predicate SegmentFits(p: Platform, db: Db, table: map<Id, Segment>, row: Row<Segment>) {
    && row.id !in table
    && Taken(p, row.cols.geometry)
    && row.cols.versionId in db.versions
    && row.cols.directionId in db.directions
    && forall s | s in table ::
         table[s].versionId == row.cols.versionId && table[s].directionId == row.cols.directionId ==>
           table[s].sequence != row.cols.sequence
  }

  predicate MemberFits(db: Db, members: set<Member>, m: Member) {
    && m.generation in db.generations && m.route in db.routes && m.version in db.versions
    && forall n | n in members :: n.generation == m.generation ==> n.route != m.route && n.version != m.version
  }

  ghost predicate SnapshotsFit(db: Db, table: map<SnapshotKey, RouteAttrs>, rows: seq<Keyed<SnapshotKey, RouteAttrs>>) {
    AllFit(table, rows, Put, (t, row) => SnapshotFits(db, t, row))
  }

  ghost predicate VersionsFit(db: Db, table: map<Id, Version>, rows: seq<Row<Version>>) {
    AllFit(table, rows, Put, (t, row) => VersionFits(db, t, row))
  }

  ghost predicate DirectionsFit(db: Db, table: map<Id, Direction>, rows: seq<Row<Direction>>) {
    AllFit(table, rows, Put, (t, row) => DirectionFits(db, t, row))
  }

  ghost predicate ServicesFit(db: Db, table: map<Id, Service>, rows: seq<Row<Service>>) {
    AllFit(table, rows, Put, (t, row) => ServiceFits(db, t, row))
  }

  ghost predicate SegmentsFit(p: Platform, db: Db, table: map<Id, Segment>, rows: seq<Row<Segment>>) {
    AllFit(table, rows, Put, (t, row) => SegmentFits(p, db, t, row))
  }

  ghost predicate MembersFit(db: Db, g: Id, rows: seq<Row<Version>>) {
    forall i | 0 <= i < |rows| :: MemberFits(db, db.members + MembersFrom(g, rows[..i]),
      Member(g, rows[i].cols.routeId, rows[i].id))
  }

  /** Each constraint looks only at the tables its foreign keys point to. */
  lemma VersionsFitAlike(a: Db, b: Db, table: map<Id, Version>, rows: seq<Row<Version>>)
    requires a.routes == b.routes
    ensures VersionsFit(a, table, rows) <==> VersionsFit(b, table, rows)
  {
  }

  lemma SegmentsFitAlike(p: Platform, a: Db, b: Db, table: map<Id, Segment>, rows: seq<Row<Segment>>)
    requires a.versions == b.versions && a.directions == b.directions
    ensures SegmentsFit(p, a, table, rows) <==> SegmentsFit(p, b, table, rows)
  {
  }

  lemma MembersFitAlike(a: Db, b: Db, g: Id, rows: seq<Row<Version>>)
    requires a.generations == b.generations && a.routes == b.routes && a.versions == b.versions
      && a.members == b.members
    ensures MembersFit(a, g, rows) <==> MembersFit(b, g, rows)
  {
  }

  /** Every exported segment geometry can be read. */
  ghost predicate GeometriesRead(p: Platform, rows: seq<Row<Segment>>) {
    forall row | row in rows :: StoredCoordinates(p, row.cols.geometry).Ok?
  }

  /** Every exported segment geometry is taken by the geography column. */
  ghost predicate GeometriesTaken(p: Platform, rows: seq<Row<Segment>>) {
    forall row | row in rows :: Taken(p, row.cols.geometry)
  }

  function CountIn(versions: set<Id>, ids: seq<Id>): nat {
    if ids == [] then 0 else CountIn(versions, ids[..|ids| - 1]) + (if ids[|ids| - 1] in versions then 1 else 0)
  }

  /** The counts recorded for later validation. */
  function Expected(e: Export): Counts {
    var versions := IdSet(e.versions);
    Counts(
      |versions|,
      CountIn(versions, seq(|e.directions|, i requires 0 <= i < |e.directions| => e.directions[i].cols.versionId)),
      CountIn(versions, seq(|e.services|, i requires 0 <= i < |e.services| => e.services[i].cols.versionId)),
      CountIn(versions, seq(|e.segments|, i requires 0 <= i < |e.segments| => e.segments[i].cols.versionId)))
  }

  // ---- The whole transaction ----------------------------------------------------------------------

  ghost function AfterRoutes(db: Db, g: Id, e: Export): Db {
    db.(generations := db.generations[g := Status.Staging], routes := Loaded(db.routes, e.routes, PutMissing))
  }

  ghost function AfterVersions(db: Db, g: Id, e: Export): Db {
    AfterRoutes(db, g, e).(
      snapshots := Loaded(db.snapshots, SnapshotRows(g, e.routes), Put),
      versions := Loaded(db.versions, e.versions, Put))
  }

  ghost function WithDirections(p: Platform, db: Db, e: Export): Db {
    db.(directions := Loaded(db.directions, DirectionRows(p, e), Put))
  }

  /** Everything after the versions. */
  ghost function WithTracks(p: Platform, db: Db, g: Id, e: Export): Db {
    WithDirections(p, db, e).(
      services := Loaded(db.services, e.services, Put),
      segments := Loaded(db.segments, e.segments, Put),
      members := db.members + MembersFrom(g, e.versions),
      counts := db.counts[g := Expected(e)])
  }

  ghost function AfterDirections(p: Platform, db: Db, g: Id, e: Export): Db {
    WithDirections(p, AfterVersions(db, g, e), e)
  }

  /** The store after a successful stage. */
  ghost function Staged(p: Platform, db: Db, g: Id, e: Export): Db {
    WithTracks(p, AfterVersions(db, g, e), g, e)
  }

  ghost predicate AcceptsBase(db: Db, g: Id, e: Export) {
    && g !in db.generations
    && AllFit(db.routes, e.routes, PutMissing, RouteFits)
    && SnapshotsFit(AfterRoutes(db, g, e), db.snapshots, SnapshotRows(g, e.routes))
    && VersionsFit(AfterRoutes(db, g, e), db.versions, e.versions)
  }

  ghost predicate AcceptsDirections(p: Platform, db: Db, e: Export) {
    GeometriesRead(p, e.segments) && DirectionsFit(db, db.directions, DirectionRows(p, e))
  }

  ghost predicate AcceptsDetails(p: Platform, db: Db, e: Export) {
    ServicesFit(db, db.services, e.services) && SegmentsFit(p, db, db.segments, e.segments)
  }

  ghost predicate AcceptsRest(p: Platform, db: Db, g: Id, e: Export) {
    && AcceptsDetails(p, db, e)
    && MembersFit(db, g, e.versions)
    && g !in db.counts
  }

  ghost predicate AcceptsTracks(p: Platform, db: Db, g: Id, e: Export) {
    AcceptsDirections(p, db, e) && AcceptsRest(p, WithDirections(p, db, e), g, e)
  }

  /** The schema accepts every insert of the transaction, and every geometry can be read. */
  ghost predicate Accepts(p: Platform, db: Db, g: Id, e: Export) {
    AcceptsBase(db, g, e) && AcceptsTracks(p, AfterVersions(db, g, e), g, e)
  }

  // ---- Well-formed exports ------------------------------------------------------------------------

  ghost predicate DistinctIds<K, T>(rows: seq<Keyed<K, T>>) {
    forall i, j | 0 <= i < j < |rows| :: rows[i].id != rows[j].id
  }

  ghost predicate HasDirection(rows: seq<Row<DirectionInfo>>, d: Id, v: Id) {
    exists row :: row in rows && row.id == d && row.cols.versionId == v
  }

  /** A closed export: ids are unique, a route id is the uuid of its code, every route has exactly
      one version, references stay inside the export and inside one version, and the unique keys of
      the schema hold. */
  ghost predicate WellFormed(p: Platform, e: Export) {
    && (forall row | row in e.routes :: p.uuid5(row.cols.code) == row.id)
    && DistinctIds(e.routes) && DistinctIds(e.versions) && DistinctIds(e.directions) && DistinctIds(e.services)
      && DistinctIds(e.segments)
    && OneVersionEach(e)
    && (forall row | row in e.directions :: row.cols.versionId in IdSet(e.versions))
    && (forall row | row in e.services :: row.cols.versionId in IdSet(e.versions))
    && (forall row | row in e.segments :: row.cols.versionId in IdSet(e.versions))
    && (forall row | row in e.services && row.cols.directionId.Some? ::
      HasDirection(e.directions, row.cols.directionId.value, row.cols.versionId))
    && (forall row | row in e.segments :: HasDirection(e.directions, row.cols.directionId, row.cols.versionId))
    && KeysUnique(e)
    && GeometriesRead(p, e.segments) && GeometriesTaken(p, e.segments)
  }

  ghost predicate OneVersionEach(e: Export) {
    && (forall i, j | 0 <= i < j < |e.versions| :: e.versions[i].cols.routeId != e.versions[j].cols.routeId)
    && (set row | row in e.versions :: row.cols.routeId) == IdSet(e.routes)
  }

  ghost predicate KeysUnique(e: Export) {
    && (forall i, j | 0 <= i < j < |e.directions| ::
          e.directions[i].cols.versionId == e.directions[j].cols.versionId ==>
            e.directions[i].cols.sequence != e.directions[j].cols.sequence)
    && (forall i, j | 0 <= i < j < |e.services| ::
          e.services[i].cols.versionId == e.services[j].cols.versionId ==>
            e.services[i].cols.departureLabel != e.services[j].cols.departureLabel)
    && (forall i, j | 0 <= i < j < |e.segments| ::
          e.segments[i].cols.directionId == e.segments[j].cols.directionId ==>
            e.segments[i].cols.sequence != e.segments[j].cols.sequence)
  }

  /** None of the export's generated ids is in the store yet. */
  ghost predicate Fresh(db: Db, g: Id, e: Export) {
    && g !in db.generations
    && (forall row | row in e.versions :: row.id !in db.versions)
    && (forall row | row in e.directions :: row.id !in db.directions)
    && (forall row | row in e.services :: row.id !in db.services)
    && (forall row | row in e.segments :: row.id !in db.segments)
  }

  // ---- Shape of a filled table ---------------------------------------------------------------------

  /** `after` is `table` plus the new rows, none of which was there. */
  ghost predicate Grown<K(!new), T(!new)>(table: map<K, T>, rows: seq<Keyed<K, T>>, after: map<K, T>) {
    && (forall k | k in table :: k in after && after[k] == table[k])
    && (forall row | row in rows :: row.id !in table && row.id in after && after[row.id] == row.cols)
    && (forall k | k in after && k !in table :: Row(k, after[k]) in rows)
  }

  lemma {:induction false} FilledToGrows<K(!new), T(!new)>(table: map<K, T>, rows: seq<Keyed<K, T>>, n: nat)
    requires n <= |rows|
    requires DistinctIds(rows) && forall i | 0 <= i < n :: rows[i].id !in table
    ensures Grown(table, rows[..n], LoadedTo(table, rows, n, Put))
  {
    if n > 0 {
      var last := rows[n - 1];
      FilledToGrows(table, rows, n - 1);
      assert rows[..n] == rows[..n - 1] + [last];
      var before := LoadedTo(table, rows, n - 1, Put);
      forall k | k in before ensures k != last.id {
        if k !in table {
          assert Row(k, before[k]) in rows[..n - 1];
        }
      }
    }
  }

  lemma FilledGrows<K(!new), T(!new)>(table: map<K, T>, rows: seq<Keyed<K, T>>)
    requires DistinctIds(rows) && forall row | row in rows :: row.id !in table
    ensures Grown(table, rows, Loaded(table, rows, Put))
  {
    FilledToGrows(table, rows, |rows|);
    assert rows[..|rows|] == rows;
  }

  lemma {:induction false} FilledToKeys<K(!new), T(!new)>(table: map<K, T>, rows: seq<Keyed<K, T>>, n: nat, i: nat)
    requires i < n <= |rows|
    ensures rows[i].id in LoadedTo(table, rows, n, Put)
    ensures forall k | k in table :: k in LoadedTo(table, rows, n, Put)
  {
    if i < n - 1 {
      FilledToKeys(table, rows, n - 1, i);
    } else {
      FilledKeepsKeys(table, rows, n - 1);
    }
  }

  lemma {:induction false} FilledKeepsKeys<K(!new), T(!new)>(table: map<K, T>, rows: seq<Keyed<K, T>>, n: nat)
    requires n <= |rows|
    ensures forall k | k in table :: k in LoadedTo(table, rows, n, Put)
  {
    if n > 0 {
      FilledKeepsKeys(table, rows, n - 1);
    }
  }

  /** Rows that each met a "no such key yet" constraint have distinct, new keys. */
  lemma FittingIsFresh<K(!new), T(!new)>(table: map<K, T>, rows: seq<Keyed<K, T>>)
    requires forall i | 0 <= i < |rows| :: rows[i].id !in LoadedTo(table, rows, i, Put)
    ensures DistinctIds(rows) && forall row | row in rows :: row.id !in table
  {
    forall i, j | 0 <= i < j < |rows| ensures rows[i].id != rows[j].id {
      FilledToKeys(table, rows, j, i);
    }
    forall i | 0 <= i < |rows| ensures rows[i].id !in table {
      FilledKeepsKeys(table, rows, i);
    }
  }

  lemma {:induction false} MergedToShape(table: map<Id, RouteAttrs>, rows: seq<Row<RouteAttrs>>, n: nat)
    requires n <= |rows|
    ensures forall r | r in table ::
      r in LoadedTo(table, rows, n, PutMissing)
      && LoadedTo(table, rows, n, PutMissing)[r] == table[r]
    ensures forall r | r in LoadedTo(table, rows, n, PutMissing) && r !in table ::
      Row(r, LoadedTo(table, rows, n, PutMissing)[r]) in rows
    ensures forall i | 0 <= i < n :: rows[i].id in LoadedTo(table, rows, n, PutMissing)
  {
    if n > 0 {
      MergedToShape(table, rows, n - 1);
    }
  }

  lemma MergedShape(table: map<Id, RouteAttrs>, rows: seq<Row<RouteAttrs>>)
    ensures forall r | r in table ::
      r in Loaded(table, rows, PutMissing)
      && Loaded(table, rows, PutMissing)[r] == table[r]
    ensures forall r | r in Loaded(table, rows, PutMissing) && r !in table ::
      Row(r, Loaded(table, rows, PutMissing)[r]) in rows
    ensures Loaded(table, rows, PutMissing).Keys == table.Keys + IdSet(rows)
  {
    MergedToShape(table, rows, |rows|);
    forall r ensures r in Loaded(table, rows, PutMissing) <==> r in table || r in IdSet(rows) {
      if r in Loaded(table, rows, PutMissing) && r !in table {
        assert Row(r, Loaded(table, rows, PutMissing)[r]) in rows;
      }
    }
  }
}
