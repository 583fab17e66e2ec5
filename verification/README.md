# Sombreado, verified

Sombreado tells bus passengers in Florianópolis which side of the bus to sit on. A scrape collects the
route catalogue, stages it as a *generation* in a PostGIS store, validates it and flips two pointers so
that passengers read the new generation and the one before it is kept. Passengers search routes, choose a
direction and ask for advice: their position is projected onto the route, the stretch ahead is selected,
the sun's side is summed up over it, and a seat is recommended.

This project models that logic in Dafny and proves what it promises: for every run of the store, for every
table content a read may meet, and for every route and passenger.

## Layout

The store:

- `Schema`, `Invariant`, `Denorm`: every table as one value, what every reachable state satisfies, and the
  denormalised `advice_segments` column.
- `Collector`, `Sweeping`, `Strays`: what deleting generations removes, why it removes exactly the rows only
  they reach, how the deletion loop gets there one version at a time, and the exports that block it.
- `Staging`, `StagingProofs`, `Admission`, `AdviceColumn`: staging an export table by table under every key
  of the schema.
- `SchemaKeys`: every key of the schema, and that stage accepts exactly what keeps them.
- `Lifecycle`, `Publication`, `Undo`, `Passenger`, `Fencing`, `History`: the operations as state transitions, and the
  theorems over whole runs.
- `Tables`, `GenerationStores`: the store as it is written, a class whose fields are the tables and a class
  whose methods are transactions over it, statement by statement, each proved to be its transition and to roll
  back on failure.
- `Scrape`: the retry loop under the lease.

Reads and ingestion:

- `Joins`, `Sequences`, `DirectionChoices`, `RouteSearch`, `AdviceContext`: the one-query reads and the split
  reads they replaced, both proved against a description of the right answer that has only one value.
- `ReadKeys`, `ReadMeaning`: the keys those reads rest on, over whole runs, and what their answers say of the
  stored rows.
- `Wkt`, `Readers`, `Migration`: the geometry texts, their three readers and the backfill.
- `DirectionNames`, `Polyline`, `CanonicalRows`, `Snapshots`, `ClosedExports`, `Ingestion`, `IngestedColumns`:
  from fetched snapshots to a closed export, and on to passengers.
- `IngestedRows`, `IngestedSegments`, `IngestedReads`: what every exported row says of its snapshot, that
  passengers see it, and that the direction choices they read are those of the snapshot.
- `IngestedStores`: what the reads may rely on in every store that ingestion reaches.

Advice:

- `Projection`, `Exposure`, `Advice`: where the passenger is, what lies ahead, the sun's side, whole
  percentages, the seat, and the decision when to give advice.
- `AdviceMeaning`: which error or reason is given when, which stretch an answer is about, and how its metres
  decide side, shares and seat.
- `Nearby`: the order of nearby results.

## Assumptions

- Transactions are serial. Only claiming a lease takes an explicit lock in the code.
- `uuid5` of a route code is the route's id, so that id and code determine each other; `uuid4` gives distinct
  new ids. Both are parameters.
- Floats are reals, except for rounding to six decimals. Printing and reading floats is a parameter whose
  texts read back to what was printed.
- Haversine distance is non-negative and zero from a point to itself; bearings and the sun's position are
  arbitrary functions.
- Which texts the column `geography(LINESTRING, 4326)` takes is a parameter. Where a result names
  `TakesOnlyLines`, it takes no line with a semicolon in it, and no line with a bracket in it but the name,
  spaces, and a pair of brackets to the end; where one names `TakesPrinted`, it takes printed lines of at least
  two points, also with a space before the bracket.
- A query result is a parameter that satisfies the statement's joins, conditions, order and limit.

## Findings

- Validating a generation that is already validated raises, and takes it away again without a trace
  (`Publication.RevalidatingUndoes`).
- An export that is not closed can make a generation undeletable: discarding it aborts on a foreign key
  (`Strays.DiscardAbortsAfterStray`, `Strays.DiscardAbortsAfterCross`), and so does every publish that has to
  drop such a generation as the former previous one (`GenerationStores.GenerationStore.Publish`); both leave the
  store unchanged. A route staged without a version keeps a snapshot that names it, and blocks the deletion of
  the generation with its only version (`Strays.VersionlessRouteBlocksDeletion`). A service or a segment of one
  version on a direction of another blocks the deletion of the generation with that direction
  (`Strays.CrossLinkBlocksDeletion`). Both start from a store that staging one well-formed export reaches.
  `Strays.DeletableExactly` is the exact condition for both, for any generations and any order in which the
  loop takes their versions; between two versions that both go, the order decides (`Strays.OrderDecides`). In
  every store reached with well-formed exports no deletion meets a foreign key, in any order
  (`Collector.AlwaysDeletable`).
- A geometry with a space between `LINESTRING` and its bracket is taken by the geography column, and read by the
  denormalised column and by the migration, but not by the split read of passengers
  (`Readers.SpacedLineIsUnread`). Of the geometries that the store holds, the split read parses exactly those
  with the bracket right after the name and at the end (`AdviceContext.ContextReadsAgree`). Ingestion prints
  only such, so that in every store it reaches the two reads agree (`IngestedStores.IngestedReadsAgree`).
- `publish` has a branch for a previous generation without a current one
  (`src/sombreado/store/generation.py:233-234`); no reachable store takes it, by the invariant.
- The adjustment of the cumulative distance at `src/sombreado/advice/projection.py:62-63` is never taken; the
  model leaves the cumulative distance of a truncated first segment as the code does.

## Model

| member | source | states |
|---|---|---|
| `Collector.CollectsExactlyTheUnreachable` | src/sombreado/store/generation_writes.py:500-550 | Deleting generations, with its cascade over versions, details and shared routes, leaves exactly the rows that some remaining generation reaches, unchanged |
| `Collector.AlwaysDeletable` | src/sombreado/store/generation_writes.py:500-550 | In a store where links stay inside versions and nothing is orphaned, no deletion of any set of generations meets a foreign key, neither from a snapshot to a route nor from a service or segment to a direction, in any order of the versions |
| `Collector.CollectingKeepsInv` | src/sombreado/store/generation_writes.py:500-550 | Deleting anything but the current generation keeps every key, link, count, snapshot and denormalised column sound |
| `Collector.CollectingComposes` | src/sombreado/store/generation_writes.py:470-497 | Deleting orphans in turn is deleting them all at once, in any order |
| `Sweeping.SweepOneMore` | src/sombreado/store/generation_writes.py:518-550 | One round of the version loop, with its still-referenced and orphan-route checks, is one step of the sweep |
| `Tables.Database.DeleteGeneration` | src/sombreado/store/generation_writes.py:500-550 | On any tables, the statements of the deletion end with exactly the rows of the specification, or fail; they fail if and only if a snapshot of another generation names a dying route, or a service or segment of a version not yet gone points at a direction whose turn comes |
| `Strays.DeletableExactly` | src/sombreado/store/generation_writes.py:518-550 | Deletion meets no foreign key if and only if every route a remaining snapshot names keeps a membership row or had none to lose, and whatever points at a direction of a dying version of another goes itself, and earlier |
| `Strays.SoleIsReached` | src/sombreado/store/generation_writes.py:35-51 | The store from which the next two start meets the invariant: it is reached from the empty one by staging one export (`SoleIsSole` gives its tables) |
| `Strays.VersionlessRouteBlocksDeletion` | src/sombreado/store/generation_writes.py:532-550 | Staging a route without a version there is accepted, and then the older generation cannot be deleted in any order |
| `Strays.CrossLinkBlocksDeletion` | src/sombreado/store/generation_writes.py:518-531 | Staging a service of a new version on the old direction there is accepted; no snapshot is in the way, yet the older generation cannot be deleted in any order |
| `Strays.OrderDecides` | src/sombreado/store/generation_writes.py:518-531 | With a link between two versions that both go, as after staging `MIXED_EXPORT` (`MixedIsStaged`), deletion succeeds in one order of the loop and fails in the other |
| `Strays.DiscardAbortsAfterStray` | src/sombreado/store/generation.py:253-278 | After the route without a version is staged, discarding the older generation raises and changes nothing |
| `Strays.DiscardAbortsAfterCross` | src/sombreado/store/generation.py:253-278 | So it does after the cross link |
| `AdviceColumn.AdviceSegmentsByDirection` | src/sombreado/store/generation_writes.py:164-184 | Grouping and sorting succeeds if and only if every geometry can be read, has a list for exactly the directions with segments, and each list is that direction's segments in sequence order |
| `AdviceColumn.ColumnsAreDerived` | src/sombreado/store/generation_writes.py:43-47 | The stored directions carry exactly the column derived from the exported segments |
| `Denorm.DerivedAscends` | src/sombreado/store/generation_writes.py:181 | With distinct sequences per direction, the derived list strictly ascends and loses no segment |
| `Tables.Database.InsertRoutes` | src/sombreado/store/generation_writes.py:54-80 | Missing shared routes are added, stored ones are not touched, and it fails exactly on a code already taken |
| `Tables.Database.UpdateRoutes` | src/sombreado/store/generation_writes.py:117-135 | Updating the shared routes row by row, in any order and with the unique code checked at every row, ends in the whole update or fails, and cannot fail when no route has or gets a code that another has or gets |
| `GenerationStores.GenerationStore.Stage` | src/sombreado/store/generation.py:151-167 | Staging succeeds if and only if every insert meets every primary, unique and foreign key, every geometry reads and the geography column takes it; otherwise no table changes |
| `SchemaKeys.AcceptedExactly` | migrations/versions/20260731_0001_postgis_generation_store.py:22-153 | A stage is accepted if and only if no id is used twice, every geometry reads, and with all its rows in place every unique key, every foreign key and the geography column hold |
| `SchemaKeys.StageKeepsSchema` | migrations/versions/20260731_0001_postgis_generation_store.py:22-153 | Whatever rows are staged, closed or not, every key of the schema still holds |
| `SchemaKeys.SoundMeetsSchema` | migrations/versions/20260731_0001_postgis_generation_store.py:22-153 | Every key of the schema holds in every reachable store |
| `AdviceColumn.FaultIsOfRow` | src/sombreado/store/generation_writes.py:187-190 | A geometry that stops a stage is that of some exported segment, with the fault that its reader raises |
| `Admission.FreshIsAccepted` | migrations/versions/20260731_0001_postgis_generation_store.py:22-153 | On a sound store, a well-formed export with unused ids meets every key of the schema |
| `StagingProofs.StagingKeepsInv` | src/sombreado/store/generation_writes.py:35-51 | Staging a well-formed export keeps the invariant: keys, links, counts, snapshots, column |
| `Undo.DiscardUndoesStage` | src/sombreado/store/generation.py:253-278 | Discarding a staged generation gives back every table exactly as it was, shared routes included |
| `GenerationStores.GenerationStore.CountJoined` | src/sombreado/store/generation_writes.py:378-417 | Adding up the joins from each membership row to its details counts every version, direction, service and segment of the generation exactly once |
| `Publication.ValidatesIff` | src/sombreado/store/generation_writes.py:357-459 | On a sound store, validation succeeds exactly for staging generations that have a route |
| `History.ValidateExactly` | src/sombreado/store/generation_writes.py:357-459 | On any tables validation accepts exactly the staging generations that list a route, have the counts they were staged with, list every version under its own route, and have as many column elements as segments in every direction |
| `GenerationStores.GenerationStore.Validate` | src/sombreado/store/generation.py:169-195 | Either the generation is marked validated, or the failure is reported and the staging is gone |
| `Publication.RevalidatingUndoes` | src/sombreado/store/generation.py:193-195 | Staging, validating and validating again raises and gives back every table as it was before the stage |
| `GenerationStores.GenerationStore.DiscardStaging` | src/sombreado/store/generation.py:253-278 | On any tables, only unpublished generations that no pointer names are deleted; a deletion that meets a foreign key is rolled back and reported, in sound stores none does; otherwise nothing changes and the reason is given |
| `History.DiscardExactly` | src/sombreado/store/generation.py:253-278 | A discard is refused exactly for published generations and for those that a pointer names, each with its reason, and a refused one changes nothing |
| `GenerationStores.GenerationStore.DeleteOrphanStaging` | src/sombreado/store/generation_writes.py:470-497 | The loop deletes every unpublished generation that neither a pointer nor the caller protects, whatever the order |
| `GenerationStores.GenerationStore.Publish` | src/sombreado/store/generation.py:197-251 | In a sound store the transaction never aborts on a constraint and ends in the specified tables; on any tables a failure changes nothing, and it fails whenever the former previous generation cannot be deleted |
| `Lifecycle.PublishMovesPointers` | src/sombreado/store/generation.py:210-247 | Publishing a validated generation of a sound store ends with it current, the old current previous, and no other generation left |
| `Lifecycle.PublishKeepsExactly` | src/sombreado/store/generation.py:213-218 | A publish keeps exactly the rows its two generations reach, and its routes show its own snapshot |
| `History.PublishExactly` | src/sombreado/store/generation.py:201-208 | A publish succeeds exactly on a validated generation; a missing one and one that is not validated are refused with their reasons, and nothing changes |
| `History.ShownCameInOrder` | src/sombreado/store/generation.py:151-251 | Over every run, whatever is current or previous was staged, then validated, then published, each by a step that succeeded |
| `Lifecycle.RunKeepsInv` | src/sombreado/store/generation.py:88-278 | Every interleaving of stage, validate, publish, discard, claim and release by anyone keeps the invariant |
| `Lifecycle.ReachableStoreInv` | src/sombreado/store/generation.py:88-278 | Every store reached from the empty one has sound pointers, keys, links, counts and columns, and no unreachable row |
| `Publication.AcceptedIsPublished` | src/sombreado/store/generation.py:151-251 | A staged, non-empty export validates and publishes, and passengers then see exactly its rows |
| `Publication.ExportIsPublished` | src/sombreado/store/generation.py:151-251 | Stage, validate, publish of a fresh non-empty well-formed export succeeds on every sound store |
| `Publication.EmptyExportIsDiscarded` | src/sombreado/store/generation_writes.py:421-422 | An export without versions fails validation and leaves the store as it was before staging |
| `Passenger.StepKeepsSeen` | src/sombreado/store/generation_writes.py:54-80 | No operation but a successful publish changes any row a passenger sees, shared route attributes included |
| `Passenger.RunKeepsSeen` | src/sombreado/store/generation.py:88-278 | Over any run without a successful publish passengers see the same rows |
| `Passenger.PublishShows` | src/sombreado/store/generation.py:216-247 | After a publish passengers see what that generation staged, with names and codes from its snapshot |
| `Passenger.SeenIsSnapshot` | src/sombreado/store/generation_writes.py:117-135 | In every sound store the route attributes passengers see are the current generation's snapshot |
| `GenerationStores.GenerationStore.ClaimScrapeLease` | src/sombreado/store/generation.py:88-131 | The claim ends in the specified lease and tables, or fails and changes nothing |
| `Fencing.ClaimFailsIff` | src/sombreado/store/generation.py:107-114 | A claim fails if and only if another holder has the lease, it has not expired, and the claim is not forced; then no table changes |
| `Fencing.ClaimHolds` | src/sombreado/store/generation.py:102-131 | After a claim at a time, over every run in which its holder neither releases nor claims again, nothing is forced and nobody claims from its expiry on, every claim of another holder before that time plus the seconds claimed fails and changes no table, and one from then on succeeds |
| `Fencing.ClaimCollects` | src/sombreado/store/generation.py:115-116 | A claim of a free lease, or of the own unexpired one without force, changes no other table; any other that succeeds deletes exactly the generations that are neither published nor pointed at |
| `GenerationStores.GenerationStore.ReleaseScrapeLease` | src/sombreado/store/generation.py:133-144 | Only the holder's lease is removed |
| `Fencing.ReleaseFrees` | src/sombreado/store/generation.py:133-144 | The lease is free after its holder's release and stays as it is after anyone else's, and no other table changes |
| `Fencing.ReclaimedNeverCurrent` | src/sombreado/store/generation.py:110-116 | Whatever is unpublished when a lease is reclaimed never becomes current or previous, whatever anyone does next, unless it is staged anew |
| `Fencing.LeaseIsExclusive` | src/sombreado/store/generation.py:107-144 | A holder loses the lease in a run only by its own release, a forced claim, or a claim at or after its latest expiry |
| `Scrape.RunScrape` | src/sombreado/ingestion/scrape.py:48-152 | For every sequence of well-formed collections, collections that the store rejects, hard failures and source errors, a run publishes only its last attempt, tries at most the allowed number of times, stops at the first success and never keeps its lease; if it published, passengers see its collection and the old current generation is previous, and if not, they see what they saw and no pointer or named generation has changed |
| `Scrape.FirstFruitfulIsPublished` | src/sombreado/ingestion/scrape.py:83-135 | Liveness: past source errors worth a retry, hard failures and collections that the store refuses or that have no route, a run gets to its first publishable collection within the attempts allowed and publishes it |
| `Scrape.RaisedMeans` | src/sombreado/ingestion/scrape.py:90-94 | A run raises only at a broken source or at a geometry with a point of less than two numbers, and nothing before was publishable |
| `Scrape.FailedTells` | src/sombreado/ingestion/scrape.py:83-149 | A failed run has used up its attempts and reports the problem of the last: the source's message, the hard failures, or what stopped the collection |
| `Scrape.UnpublishedRunIsUnseen` | src/sombreado/ingestion/scrape.py:83-152 | A run that does not publish leaves passengers' rows, both pointers and the generations they name alone |
| `Scrape.FreshCollectionIsFruitful` | src/sombreado/ingestion/scrape.py:96-106 | A collection without hard failures, well formed and non-empty, is published at its attempt |
| `Scrape.PublishedRunIsSeen` | src/sombreado/ingestion/scrape.py:102-135 | A published run ends with its generation current, the old current previous, and passengers seeing its collection |
| `DirectionChoices.ContextUnique` | src/sombreado/store/discovery.py:505-570 | For a store and a request there is only one right answer: status, version, directions in order, labels in order without repeats |
| `DirectionChoices.LoadDirectionChoicesForRoute` | src/sombreado/store/discovery.py:505-570 | The one-join read gives the right answer for every result the statement may return |
| `DirectionChoices.LoadDirectionChoices` | src/sombreado/store/discovery.py:468-502 | The choices and labels reads together give each direction of the version once, in kind and sequence order, with its public labels |
| `DirectionChoices.LoadInSteps` | src/sombreado/store/discovery.py:462-502 | The version, choices and labels reads give the same right answer, so the two agree |
| `ReadMeaning.ChoicesAreOrdered` | src/sombreado/store/discovery.py:493-501 | Choices come ida first, volta next and the rest last, and each kind by number |
| `ReadMeaning.ChoicesTellDirections` | src/sombreado/store/discovery.py:505-570 | The choices are the directions of the version under their own number, name and kind, and the labels of each are those of its departures of high or medium confidence, each once, in the order of their first departures |
| `RouteSearch.SearchUnique` | src/sombreado/store/discovery.py:99-115 | For a store, query and limit there is only one right list of candidates with hints |
| `RouteSearch.SearchRouteCandidates` | src/sombreado/store/discovery.py:372-423 | The one-join search gives it: the limit counts candidates, not joined rows, and hints are in order without repeats |
| `RouteSearch.DirectionHintsByVersion` | src/sombreado/store/discovery.py:688-700 | Each requested version has exactly its public labels, in order without repeats |
| `RouteSearch.SearchInSteps` | src/sombreado/store/discovery.py:372-423 | The limited candidate list with separately loaded hints gives the same list, so the two agree |
| `ReadMeaning.SearchFinds` | src/sombreado/store/discovery.py:99-148 | A search finds current routes that match, in code order, with their hints in order of direction and departure, and a match that is not found comes after all that are, with the limit used up |
| `AdviceContext.StatusUnique` | src/sombreado/store/discovery.py:75-88 | With one version of a route per generation, what a status says about route, version and direction holds for one status only |
| `AdviceContext.LoadAdviceRouteContext` | src/sombreado/store/discovery.py:636-685 | The one-row read gives the right status, and the direction's column reprinted exactly when the status is ok |
| `AdviceContext.LoadInSteps` | src/sombreado/store/discovery.py:573-612 | Version lookup, membership check and segment read give the right status, and the stored rows of the direction in sequence order exactly when it is ok |
| `AdviceContext.ContextReadsAgree` | src/sombreado/store/discovery.py:573-685 | In every reachable store the two reads give the same status; the joined one parses to the direction's column, and the split one to the same exactly when every geometry is bracketed as passengers' texts are |
| `Readers.PrintedIsPlain` | src/sombreado/ingestion/canonical.py:136-141 | Every geometry that ingestion prints is bracketed as passengers' texts are, and has no semicolon in its line |
| `ReadKeys.ReachableKeysHold` | migrations/versions/20260731_0001_postgis_generation_store.py:51-118 | After every run over well-formed exports whose services are numbered apart, the keys the reads rest on hold |
| `IngestedStores.IngestedKeysHold` | src/sombreado/ingestion/canonical.py:99-122 | They hold after every run over exports made from clean snapshots whose services have distinct sequences, so that each one-join read agrees there with the reads it replaced |
| `IngestedStores.IngestedReadsAgree` | src/sombreado/store/discovery.py:573-685 | After every such run the joined and the split read of the advice context give the same status and parse to the same segments, those of the column |
| `Wkt.PrintedIsGeography` | src/sombreado/store/generation_writes.py:553-568 | Texts printed with or without the SRID prefix normalise to the same text |
| `Wkt.PrintedReadsBack` | src/sombreado/store/generation_writes.py:187-190 | A printed coordinate list, with or without prefix, reads back unchanged by the column's, the passengers' and the migration's reader |
| `Readers.NormalisesExactly` | src/sombreado/store/generation_writes.py:553-568 | A text normalises if and only if it is a line string without prefix, or one with the prefix of SRID 4326 and no other; then to that prefix and the line |
| `Readers.LongitudeComesFirst` | src/sombreado/store/generation_writes.py:187-190 | In the text of a point the first number is the longitude and the second the latitude |
| `Readers.PassengersAgree` | src/sombreado/domain/geometry.py:17-26 | On geometries that normalise, unless the first semicolon is inside the line, the passengers' parser reads what the column's reader reads if and only if the bracket follows the name and ends the text, and nothing otherwise |
| `Readers.PassengersReadOn` | src/sombreado/domain/geometry.py:17-26 | Where the first semicolon is inside the line, passengers are read only what follows it |
| `Readers.SemicolonSplitsReaders` | src/sombreado/store/generation_writes.py:187-190 | As functions of a text the readers differ: of a family of texts with a semicolon inside, the column's reader takes one point while those of passengers and the migration take another |
| `Readers.SplitTextIsRefused` | src/sombreado/store/generation_writes.py:266-267 | The geography column refuses every text of that family, so that none is stored |
| `Readers.MigrationAgrees` | migrations/versions/20260815_0002_direction_advice_segments.py:28-37 | On normalisable geometries of the migration's shape, unless the first semicolon is inside the line, its reader and the column's reader give the same result |
| `Readers.TakenIsMigrated` | migrations/versions/20260815_0002_direction_advice_segments.py:28-37 | On every geometry that the geography column takes the two give the same result, failures included |
| `Readers.ReprintReadsBack` | src/sombreado/store/discovery.py:615-633 | Stored coordinates, reprinted for passengers, parse back to themselves |
| `Readers.SpacedLineIsUnread` | src/sombreado/domain/geometry.py:19-21 | A printed line with a space before its bracket is taken by the geography column and read by the denormalised column but not by passengers' parser, for every list of at least two points |
| `Migration.Backfill` | migrations/versions/20260815_0002_direction_advice_segments.py:47-82 | The backfill succeeds if and only if every geometry reads, and then every direction's column is its segments in order |
| `Migration.ReadAsStaged` | migrations/versions/20260815_0002_direction_advice_segments.py:47-82 | Of the geometries the store holds, the migration can read exactly those that staging could read, so it fails on no others |
| `Migration.BackfillIsSound` | migrations/versions/20260815_0002_direction_advice_segments.py:47-82 | A backfill that succeeds meets the invariant that staging keeps, whatever geometries the table holds |
| `DirectionNames.PassengerFacingNames` | src/sombreado/ingestion/directions.py:19-54 | One name per direction: the pair of origins, the origin, the kind or the given name, by the first public match |
| `DirectionNames.OriginIsFirst` | src/sombreado/ingestion/directions.py:28-37 | A direction's origin is the label of its first publicly matched service, and none means no service matches |
| `DirectionNames.PairIsNamed` | src/sombreado/ingestion/directions.py:39-48 | Two directions whose first public departures have different labels are named by both, each beginning with its own |
| `DirectionNames.OriginIsNamed` | src/sombreado/ingestion/directions.py:49-50 | Any other direction with a non-empty origin has its name |
| `DirectionNames.KindIsNamed` | src/sombreado/ingestion/directions.py:51-54 | Any direction without one is named by the code and its kind, or as the source names it |
| `DirectionNames.InferredStayInside` | src/sombreado/ingestion/directions.py:74-140 | Inferred matches cover every service in order, link only to directions of the route, and never two to the same |
| `DirectionNames.WaysAreInferred` | src/sombreado/ingestion/directions.py:74-140 | Of two departures the first goes ida and the second volta, unless the first alone leaves from a terminal; the matches are public exactly if one alone does, or both do under different labels |
| `DirectionNames.OthersAreUnmatched` | src/sombreado/ingestion/directions.py:82-83 | Unless there are two departures, one ida and one volta, nothing is matched |
| `Snapshots.SnapshotsToCanonicalRows` | src/sombreado/ingestion/canonical.py:23-129 | The five lists are the parts of the snapshots in order, with ids drawn in turn from one stream |
| `IngestedRows.ExportTellsSnapshots` | src/sombreado/ingestion/canonical.py:35-122 | On the exported rows alone: one version row per snapshot with its own columns, a direction row for every direction under its number, a service row for every departure with the columns of its last match, none besides, and every departure linked to a direction if and only if its last match names that direction's number |
| `IngestedRows.PassengersSeeLinks` | src/sombreado/ingestion/canonical.py:99-104 | Published, every departure is seen linked to the direction seen under the number its last match names, and to no other |
| `IngestedSegments.SegmentsTellEdges` | src/sombreado/ingestion/canonical.py:82-97 | On the exported rows alone: every segment row belongs to a numbered direction of its snapshot, and is the stretch from one fraction to another of the source edge it names, with the distance and bearing of that stretch |
| `IngestedReads.ChoicesAreOfSnapshot` | src/sombreado/ingestion/canonical.py:59-122 | Published, the choices read for a snapshot's route are one for each of its directions, under their names and kinds, with the labels of exactly the departures publicly matched to them |
| `ClosedExports.ExportIsWellFormed` | src/sombreado/ingestion/canonical.py:23-129 | With distinct route codes and distinct labels per route, the export is closed under its references, meets every key, and has one route and one version per snapshot |
| `Ingestion.SnapshotsArePublished` | src/sombreado/ingestion/canonical.py:23-129 | Such snapshots, staged, validated and published on any sound store, are what passengers see |
| `IngestedColumns.DerivedIsBlock` | src/sombreado/store/generation_writes.py:164-184 | Grouping and sorting the segments of a whole export gives each direction exactly the segments that were materialised for it |
| `IngestedColumns.PublishedColumnsAreRoutes` | src/sombreado/ingestion/canonical.py:82-97 | After clean snapshots are staged, validated and published, the column that passengers see for every direction of every snapshot is a route from the direction's first point to its last: numbered segments that join end to end, each with its distance and bearing on the earth, and exact running distances |
| `Polyline.Materialize` | src/sombreado/ingestion/segments.py:10-42 | Segments are numbered from one, join end to end, have exact prefix sums, and each lies on the source edge and fractions it names |
| `Polyline.StepsAreEven` | src/sombreado/ingestion/segments.py:23-26 | The pieces of a source edge divide it evenly, in longitude and in latitude |
| `Polyline.FlattenedKeepsVertices` | src/sombreado/domain/geometry.py:34-43 | The flattened segments have no adjacent repeats, keep both ends, and contain every source vertex in order |
| `Polyline.Flatten` | src/sombreado/domain/geometry.py:34-43 | The loop gives the joined coordinates with adjacent repeats collapsed |
| `Polyline.SplitsEnough` | src/sombreado/ingestion/segments.py:21-22 | The split count is the least whole number of longest edges that covers the source edge |
| `Projection.EarthIsGround` | src/sombreado/advice/projection.py:80-99 | The clamped fraction is in range, and a segment's first point projects to itself |
| `Projection.FractionIsFoot` | src/sombreado/advice/projection.py:80-90 | Among all points of the line from the first to the last point of a segment, the one at the fraction is nearest to the passenger in the plane |
| `Projection.ProjectionIsNearestFoot` | src/sombreado/advice/projection.py:16-33 | The position is such a foot on some segment, no segment's foot is nearer on the earth, and its cumulative distance grows evenly with the fraction from the start of the segment to its end |
| `Projection.ProjectedWithin` | src/sombreado/advice/projection.py:16-33 | The projected distance lies within the nearest segment |
| `Projection.SegmentsAfter` | src/sombreado/advice/projection.py:36-77 | The loop selects what the budget takes from the projected segment on, rounded to six decimals |
| `Projection.HorizonConserved` | src/sombreado/advice/projection.py:36-77 | The unrounded selected distances add up to the lesser of the budget and the rest of the route, from the projected segment on without gaps, and only the last is cut |
| `Projection.AdviceCoversHorizon` | src/sombreado/advice/projection.py:36-77 | The rounded distances add up to that within half a unit of the sixth decimal per segment, and every selected segment has its track's id, bearing and cumulative distance and its sun read halfway along |
| `Projection.MaterializedIsRoute` | src/sombreado/ingestion/segments.py:19-42 | Materialised segments meet everything projection and selection rest on |
| `Projection.SegmentsFromStart` | src/sombreado/advice/service.py:251-278 | The loop selects what the budget takes from the first segment on |
| `Projection.PreviewCoversHorizon` | src/sombreado/advice/service.py:251-278 | So it does for a preview, from the start of the route |
| `Projection.StartProjects` | src/sombreado/advice/projection.py:20-26 | A passenger at the first point is projected to distance zero on the first segment, even on a loop |
| `Projection.StartIsPreview` | src/sombreado/advice/service.py:251-278 | From the first point the onboard selection is the preview selection |
| `Exposure.SidesAreArcs` | src/sombreado/advice/exposure.py:29-42 | The sides are the arcs around the heading, whatever whole turns the two angles contain |
| `Exposure.ConditionsAreBands` | src/sombreado/advice/exposure.py:62-69 | Night below the horizon, low sun below ten degrees, overhead from seventy, daylight between |
| `Exposure.MetresAddUp` | src/sombreado/advice/exposure.py:78-86 | Every metre counts for exactly one side |
| `Exposure.TotalIsTold` | src/sombreado/advice/exposure.py:86-97 | The total told is the sum over the six sides, to half a unit of the sixth decimal |
| `Exposure.LongestIsLongest` | src/sombreado/advice/exposure.py:82-84 | The sample kept for a side is the first among its longest |
| `Exposure.DominantHasMost` | src/sombreado/advice/exposure.py:87 | The dominant side has no fewer metres than any other, and at least a sixth of all |
| `Exposure.DominantLeads` | src/sombreado/advice/exposure.py:87 | It is the first with most metres, in the order left, right, front, back, overhead, none, and no other is |
| `Exposure.SummarizeHorizon` | src/sombreado/advice/exposure.py:72-102 | The loop gives the summary of the segments' samples |
| `Exposure.IntegerPercentShares` | src/sombreado/advice/exposure.py:105-117 | Handing points out in sorted order gives each share its rounded-down value and one more exactly while its rank is below the remainder |
| `Exposure.SharesAreFair` | src/sombreado/advice/exposure.py:105-117 | Shares lie in 0..100, add up to 100, are within one of the exact percentage, are zero without metres, and never rank against the metres |
| `Exposure.PointsGoByFraction` | src/sombreado/advice/exposure.py:111-116 | A point left over goes to a larger fraction first, and among equal ones to left before right before the rest |
| `Exposure.FlipIsReal` | src/sombreado/advice/exposure.py:101 | A flip means metres on both sides |
| `Exposure.ConditionIsOfLongest` | src/sombreado/advice/exposure.py:87-99 | On a road of some length the sun read for the condition is that of a longest sample of the dominant side |
| `Exposure.SideFitsCondition` | src/sombreado/advice/exposure.py:62-69 | No sun exactly at night, overhead exactly when the condition says so |
| `Exposure.SeatIsExact` | src/sombreado/advice/exposure.py:45-59 | Each of the five seats if and only if: right or left where the other side leads and its own has no share, back or front where the front or back leads and not both sides have a share, neutral where both have or the sun is overhead or down |
| `Exposure.SideSeatIsShaded` | src/sombreado/advice/exposure.py:45-59 | A left or right seat is recommended only with a share of at least 16 on the other side, none on its own, and under one hundredth of the metres there |
| `Advice.BuildAdvice` | src/sombreado/advice/service.py:60-186 | Errors, withheld reasons and advice come in the code's order, and the duplicated branches come to one reply |
| `AdviceMeaning.ErrorsExactly` | src/sombreado/advice/service.py:60-106 | Each error if and only if: no current version, another current version, a direction the version does not have, and a bad mode or a missing location |
| `AdviceMeaning.WithheldExactly` | src/sombreado/advice/service.py:77-186 | Missing geometry, off the route and no advice for the horizon are told exactly then, and advice is given exactly otherwise |
| `AdviceMeaning.FallbackIsPreview` | src/sombreado/advice/service.py:106-131 | Off the route with fallback the answer is that of the preview request |
| `AdviceMeaning.AnswerEchoes` | src/sombreado/advice/service.py:77-186 | Horizon, subject, moment, mode and place of every answer are those of the request |
| `AdviceMeaning.AnswerCoversHorizon` | src/sombreado/advice/service.py:251-287 | The segments an answer is about run from the passenger on the route, or from the start, for a quarter of an hour at the nominal speed, or to the end |
| `AdviceMeaning.AdviceIsExact` | src/sombreado/advice/service.py:295-318 | Every advice tells the side that leads on those segments, the percentages of their metres, and exactly the seat that follows |
| `Advice.StartIsToldThePreview` | src/sombreado/advice/service.py:87-186 | A passenger exactly at the start is told what a preview tells, reasons for withholding included, for both horizons and every route |
| `Advice.AdviceIsCoherent` | src/sombreado/advice/service.py:295-318 | Every successful advice is coherent in side, condition, shares, flip and seat, and under one hundredth of the metres it is about has the sun on the side of a left or right seat |
| `Advice.ConditionIsSeen` | src/sombreado/advice/service.py:301-304 | In every successful advice the condition told is the sun's at the middle of a segment it is about that is longest among those of the told side |
| `Nearby.OrderNearbyItems` | src/sombreado/store/geodesic.py:73-88 | The loops give the items sorted by distance, cut into bands, each band by key |
| `Nearby.OrderKeeps` | src/sombreado/store/geodesic.py:73-88 | The result is a permutation of the items |
| `Nearby.OrderIsOfTheItems` | src/sombreado/store/geodesic.py:82-88 | With distinct keys the result does not depend on the order of the input |
| `Nearby.OrderIsInBands` | src/sombreado/store/geodesic.py:84-88 | Any two results are in key order if a chain of items with gaps of at most two metres links them, and otherwise the first is nearer by more than two metres |

## Left out

- Scrape.RunScrape: says nothing of a collection that the store accepts although it is not closed under its references; the exports of `ClosedExports.ExportIsWellFormed` are all closed, and `Strays` shows what such an export does to later deletions.
- GenerationStores.GenerationStore.Stage: which of several violated keys the database reports first is not told apart, because PostgreSQL's checking order is not part of the code.
- Overlapping transactions, and database errors other than constraint violations (connection loss, timeouts): every transaction is serial and either commits or rolls back.
- HTTP, request validation, settings, command line, logging and timings: adapters without a property of their own.
- PostGIS distances, the nearby query and its spatial index, GeographicLib, haversine, bearings and the solar position: taken as functions.
- What `ST_GeogFromText` makes of a text: only whether it takes it is modelled.
- The geography coverage check of validation: its column is `NOT NULL`, so the check cannot fail.
- An export without one of its five tables: the model's exports have all five.
- Ids are integers that are only compared; text operations are on ASCII, so case folding and white space outside ASCII are not modelled.
- `ILIKE` and the collation of names are an abstract predicate and an abstract total order.
- Ties that the statements leave open beyond the keys: the reads require services of a direction to be numbered apart, as they are in every store that ingestion reaches.
- Scrape-run recording and pruning, fixture publishing, the back-off sleep, and the message of an outcome.
- The legacy `build_onboard_advisory` and `summarize_exposure_window`: the same projection and sums without a decision.
- The classification of direction pairs by regular expression and the terminal tokens: `InferredStayInside` holds for any test of a label.
- The notes of a match are a text; their JSON form is not modelled.
- Float rounding other than to six decimals.
- The HTML and KML parsers, fares, schedules, and the fetcher.
