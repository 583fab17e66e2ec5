/** The Generation Store tables as one value, and the row types of a canonical export. */
module Schema {
  import opened Common

  /** A TEXT key. Keys are only ever compared for equality. */
  type Id = int

  /** An instant in seconds. */
  type Instant = int

  datatype Point = Point(lon: real, lat: real)

  /** What the platform supplies: the name-based uuid of a route code, the printing and reading of
      floats, and which texts `ST_GeogFromText` takes for a `geography(LINESTRING, 4326)` column. */
  datatype Platform = Platform(
    uuid5: string -> Id,
    show: real -> string,
    read: string -> Option<real>,
    takes: string -> bool)

  datatype RouteAttrs = RouteAttrs(
    code: string,
    name: string,
    slug: string,
    category: Option<string>,
    fareRegion: Option<string>,
    lastChanged: Option<string>,
    isCurrent: bool)

  datatype Version = Version(
    routeId: Id,
    sourceHash: string,
    mapHash: Option<string>,
    pageUrl: string,
    mapUrl: Option<string>,
    isCurrent: bool)

  datatype DirectionInfo = DirectionInfo(
    versionId: Id,
    name: string,
    kind: Option<string>,
    sequence: int,
    geometry: string)

  /** One element of the `advice_segments` column. */
  datatype AdviceItem = AdviceItem(
    publicId: Id,
    sequence: int,
    coordinates: seq<Point>,
    bearing: real,
    distance: real,
    cumulative: real)

  /** A stored direction: the exported columns and the denormalised advice column. */
  datatype Direction = Direction(info: DirectionInfo, advice: seq<AdviceItem>)

  datatype Service = Service(
    versionId: Id,
    directionId: Option<Id>,
    sequence: int,
    departureLabel: string,
    normalizedName: Option<string>,
    kind: Option<string>,
    confidence: string,
    matchMethod: string,
    notes: string)

  datatype Segment = Segment(
    versionId: Id,
    directionId: Id,
    sequence: int,
    sourceSequence: int,
    fractionStart: real,
    fractionEnd: real,
    geometry: string,
    bearing: real,
    distance: real,
    cumulative: real)

  datatype Status = Staging | Validated | Published

  datatype Role = Current | Previous

  /** A row of `dataset_route_versions`. */
  datatype Member = Member(generation: Id, route: Id, version: Id)

  /** The key of `generation_routes`. */
  datatype SnapshotKey = SnapshotKey(generation: Id, route: Id)

  datatype Counts = Counts(versions: nat, directions: nat, services: nat, segments: nat)

  datatype Lease = Lease(holder: Id, claimedAt: Instant, expiresAt: Instant)

  /** Every table of the store, keyed by primary key. */
  datatype Db = Db(
    routes: map<Id, RouteAttrs>,
    versions: map<Id, Version>,
    directions: map<Id, Direction>,
    services: map<Id, Service>,
    segments: map<Id, Segment>,
    generations: map<Id, Status>,
    members: set<Member>,
    counts: map<Id, Counts>,
    snapshots: map<SnapshotKey, RouteAttrs>,
    pointers: map<Role, Id>,
    lease: Option<Lease>)

  const EMPTY := Db(map[], map[], map[], map[], map[], map[], {}, map[], map[], map[], None)

  /** A row to insert: its primary key and the other columns. */
  datatype Keyed<+K, +T> = Row(id: K, cols: T)

  type Row<+T> = Keyed<Id, T>

  /** A canonical export with all its five tables. */
  datatype Export = Export(
    routes: seq<Row<RouteAttrs>>,
    versions: seq<Row<Version>>,
    directions: seq<Row<DirectionInfo>>,
    services: seq<Row<Service>>,
    segments: seq<Row<Segment>>)

  /** The id a pointer role names, if the pointer row exists. */
  function Pointer(db: Db, role: Role): Option<Id> {
    if role in db.pointers then Some(db.pointers[role]) else None
  }

  predicate PointedAt(db: Db, g: Id) {
    exists role :: role in db.pointers && db.pointers[role] == g
  }

  /** The versions, routes and (generation, route) pairs the membership table names. */
  function MemberVersions(members: set<Member>): set<Id> {
    set m | m in members :: m.version
  }

  function MemberRoutes(members: set<Member>): set<Id> {
    set m | m in members :: m.route
  }

  function MemberKeys(members: set<Member>): set<SnapshotKey> {
    set m | m in members :: SnapshotKey(m.generation, m.route)
  }

  /** The detail rows that hang off a set of versions. */
  function DirectionsOn(db: Db, versions: set<Id>): set<Id> {
    set d | d in db.directions && db.directions[d].info.versionId in versions
  }

  function ServicesOn(db: Db, versions: set<Id>): set<Id> {
    set s | s in db.services && db.services[s].versionId in versions
  }

  function SegmentsOn(db: Db, versions: set<Id>): set<Id> {
    set s | s in db.segments && db.segments[s].versionId in versions
  }
}
