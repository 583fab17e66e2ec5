/** Direction Choices: one joined read, and the version, choices and labels reads it replaced. */
module DirectionChoices {
  import opened Common
  import opened Schema
  import opened Sequences
  import opened Sorting
  import opened Joins

  datatype Choice = Choice(id: Id, sequence: int, name: string, kind: Option<string>, labels: seq<string>)

  datatype Context =
    | RouteNotFound
    | VersionStale
    | Choices(version: Id, directions: seq<Choice>)

  function KindRank(kind: Option<string>): int {
    if kind == Some("ida") then 0 else if kind == Some("volta") then 1 else 2
  }

  function ChoiceLeq(a: Choice, b: Choice): bool {
    KindRank(a.kind) < KindRank(b.kind) || (KindRank(a.kind) == KindRank(b.kind) && a.sequence <= b.sequence)
  }

  function ChoiceLess(a: Choice, b: Choice): bool {
    KindRank(a.kind) < KindRank(b.kind) || (KindRank(a.kind) == KindRank(b.kind) && a.sequence < b.sequence)
  }

  function DirectionOf(hit: Hit): Option<Id> {
    hit.direction
  }

  // ---- what both reads have to give ------------------------------------------------------------------

  /** `c` describes direction `c.id` of version `v`, with its public labels. */
  ghost predicate IsChoice(db: Db, v: Id, c: Choice) {
    && Runs(db, c.id, v)
    && c.sequence == db.directions[c.id].info.sequence
    && c.name == db.directions[c.id].info.name
    && c.kind == db.directions[c.id].info.kind
    && AreLabels(db, v, WithKey(DirectionOf, c.id), c.labels)
  }

  /** One choice per direction of the version, `ida` before `volta` before the rest. */
  ghost predicate IsChoices(db: Db, v: Id, choices: seq<Choice>) {
    && Ascends(choices, ChoiceLess)
    && (forall c | c in choices :: IsChoice(db, v, c))
    && (forall d | Runs(db, d, v) :: exists c :: c in choices && c.id == d)
  }

  ghost predicate CurrentVersion(db: Db, route: Id, v: Id) {
    exists m :: IsCurrent(db, m) && m.route == route && m.version == v
  }

  ghost predicate IsContext(db: Db, route: Id, requested: Option<Id>, context: Context) {
    match context
    case RouteNotFound => forall v :: !CurrentVersion(db, route, v)
    case VersionStale => exists v :: CurrentVersion(db, route, v) && requested.Some? && requested.value != v
    case Choices(v, directions) =>
      && CurrentVersion(db, route, v)
      && (requested.None? || requested.value == v)
      && IsChoices(db, v, directions)
  }

  lemma CurrentVersionUnique(db: Db, route: Id, v: Id, w: Id)
    requires OneVersionPerRoute(db) && CurrentVersion(db, route, v) && CurrentVersion(db, route, w)
    ensures v == w
  {
  }

  lemma ChoiceUnique(db: Db, v: Id, a: Choice, b: Choice)
    requires IsChoice(db, v, a) && IsChoice(db, v, b) && a.id == b.id
    ensures a == b
  {
    LabelsUnique(db, v, WithKey(DirectionOf, a.id), a.labels, b.labels);
  }

  lemma ChoicesIncluded(db: Db, v: Id, a: seq<Choice>, b: seq<Choice>, c: Choice)
    requires IsChoices(db, v, a) && IsChoices(db, v, b) && c in a
    ensures c in b
  {
    assert Runs(db, c.id, v);
    var d :| d in b && d.id == c.id;
    ChoiceUnique(db, v, c, d);
  }

  lemma ChoicesUnique(db: Db, v: Id, a: seq<Choice>, b: seq<Choice>)
    requires IsChoices(db, v, a) && IsChoices(db, v, b)
    ensures a == b
  {
    forall c ensures c in a <==> c in b {
      if c in a {
        ChoicesIncluded(db, v, a, b, c);
      }
      if c in b {
        ChoicesIncluded(db, v, b, a, c);
      }
    }
    AscendingSame(a, b, ChoiceLess);
  }

  /** The context is determined: two reads that meet it agree. */
  lemma ContextUnique(db: Db, route: Id, requested: Option<Id>, a: Context, b: Context)
    requires KeysHold(db) && IsContext(db, route, requested, a) && IsContext(db, route, requested, b)
    ensures a == b
  {
    forall v, w | CurrentVersion(db, route, v) && CurrentVersion(db, route, w) ensures v == w {
      CurrentVersionUnique(db, route, v, w);
    }
    if a.Choices? && b.Choices? {
      ChoicesUnique(db, a.version, a.directions, b.directions);
    }
  }

  // ---- sorting the assembled choices -------------------------------------------------------------------

  lemma ChoiceOrderTotal()
    ensures TotalPreorder(ChoiceLeq)
  {
  }

  lemma DistinctChoicesDiffer(db: Db, v: Id, a: Choice, b: Choice)
    requires KeysHold(db) && IsChoice(db, v, a) && IsChoice(db, v, b) && a != b && ChoiceLeq(a, b)
    ensures ChoiceLess(a, b)
  {
    if a.sequence == b.sequence {
      ChoiceUnique(db, v, a, b);
    }
  }

  lemma {:induction false} SortingGivesChoices(db: Db, v: Id, list: seq<Choice>)
    requires KeysHold(db) && NoTwice(list)
    requires forall c | c in list :: IsChoice(db, v, c)
    requires forall d | Runs(db, d, v) :: exists c :: c in list && c.id == d
    ensures IsChoices(db, v, SortBy(list, ChoiceLeq))
  {
    var sorted := SortBy(list, ChoiceLeq);
    ChoiceOrderTotal();
    SortBySorts(list, ChoiceLeq);
    SortByKeeps(list, ChoiceLeq);
    SortByDistinct(list, ChoiceLeq);
    forall i, j | 0 <= i < j < |sorted| ensures ChoiceLess(sorted[i], sorted[j]) {
      DistinctChoicesDiffer(db, v, sorted[i], sorted[j]);
    }
    assert forall c: Choice :: c in sorted <==> c in list;
  }

  /** The choices of a list of direction ids, with the labels found for them. */
  function Described(db: Db, ids: seq<Id>, labels: map<Id, seq<string>>): (list: seq<Choice>)
    requires forall i | 0 <= i < |ids| :: ids[i] in db.directions
    ensures |list| == |ids| && forall i | 0 <= i < |ids| :: list[i].id == ids[i]
  {
    seq(|ids|, i requires 0 <= i < |ids| =>
      var info := db.directions[ids[i]].info;
      Choice(ids[i], info.sequence, info.name, info.kind, if ids[i] in labels then labels[ids[i]] else []))
  }

  /** `ids` lists the directions of version `v`. */
  ghost predicate IdsAre(db: Db, v: Id, ids: seq<Id>) {
    (forall i | 0 <= i < |ids| :: Runs(db, ids[i], v)) && (forall d | Runs(db, d, v) :: d in ids)
  }

  /** Sorting the described directions of version `v` gives its Direction Choices. */
  lemma DescribedAreChoices(db: Db, v: Id, ids: seq<Id>, labels: map<Id, seq<string>>)
    requires KeysHold(db) && NoTwice(ids)
    requires IdsAre(db, v, ids)
    requires forall d | d in ids :: AreLabels(db, v, WithKey(DirectionOf, d), if d in labels then labels[d] else [])
    ensures IsChoices(db, v, SortBy(Described(db, ids, labels), ChoiceLeq))
  {
    var list := Described(db, ids, labels);
    forall c | c in list ensures IsChoice(db, v, c) {
      var i :| 0 <= i < |list| && list[i] == c;
      assert ids[i] in ids;
    }
    forall d | Runs(db, d, v) ensures exists c :: c in list && c.id == d {
      var i :| 0 <= i < |ids| && ids[i] == d;
      assert list[i] in list;
    }
    SortingGivesChoices(db, v, list);
  }

  // ---- the joined read -----------------------------------------------------------------------------------

  /** `hits` is a result of the one-round-trip statement for `route`. */
  ghost predicate JoinedChoices(db: Db, route: Id, hits: seq<Hit>) {
    && (forall hit :: hit in hits <==> CurrentVersion(db, route, hit.version) && LeftJoins(db, hit.version, hit))
    && NoTwice(hits)
    && (forall i, j | 0 <= i < j < |hits| :: InOrder(db, hits[i], hits[j]))
  }

  lemma {:induction false} JoinedDirections(db: Db, route: Id, v: Id, hits: seq<Hit>, d: Id)
    requires KeysHold(db) && JoinedChoices(db, route, hits) && CurrentVersion(db, route, v)
    ensures d in KeysOf(hits, DirectionOf) <==> Runs(db, d, v)
    ensures AreLabels(db, v, WithKey(DirectionOf, d), Texts(db, hits, WithKey(DirectionOf, d)))
  {
    KeysOfMembers(hits, DirectionOf);
    forall hit | hit in hits ensures hit.version == v {
      CurrentVersionUnique(db, route, v, hit.version);
    }
    if Runs(db, d, v) {
      var hit := DirectionRow(db, v, d);
      assert hit in hits && DirectionOf(hit) == Some(d);
    }
    TextsAreLabels(db, v, hits, WithKey(DirectionOf, d));
  }

  /** `load_direction_choices_for_route`: status, version and choices from one result. */
  method LoadDirectionChoicesForRoute(db: Db, route: Id, requested: Option<Id>, hits: seq<Hit>)
      returns (context: Context)
    requires KeysHold(db) && JoinedChoices(db, route, hits)
    ensures IsContext(db, route, requested, context)
  {
    if hits == [] {
      NoRowsNoRoute(db, route, hits);
      return RouteNotFound;
    }
    var version := hits[0].version;
    assert hits[0] in hits;
    if requested.Some? && version != requested.value {
      return VersionStale;
    }
    var order, labels := Assemble(db, hits, DirectionOf);
    DedupMembers(KeysOf(hits, DirectionOf));
    DedupNoTwice(KeysOf(hits, DirectionOf));
    forall d ensures d in order <==> Runs(db, d, version) {
      JoinedDirections(db, route, version, hits, d);
    }
    forall i | 0 <= i < |order| ensures Runs(db, order[i], version) {
      assert order[i] in order;
    }
    forall d | d in order ensures AreLabels(db, version, WithKey(DirectionOf, d), labels[d]) {
      JoinedDirections(db, route, version, hits, d);
    }
    DescribedAreChoices(db, version, order, labels);
    context := Choices(version, SortBy(Described(db, order, labels), ChoiceLeq));
  }

  lemma NoRowsNoRoute(db: Db, route: Id, hits: seq<Hit>)
    requires JoinedChoices(db, route, hits) && hits == []
    ensures forall v :: !CurrentVersion(db, route, v)
  {
    forall v ensures !CurrentVersion(db, route, v) {
      var hit := LeftJoinRow(db, v);
      assert hit !in hits;
    }
  }

  // ---- the split reads -------------------------------------------------------------------------------------

  /** `versions` is a result of the current version statement. */
  ghost predicate VersionRows(db: Db, route: Id, versions: seq<Id>) {
    forall v :: v in versions <==> CurrentVersion(db, route, v)
  }

  /** `ids` is a result of the choices statement for a version of the current generation. */
  ghost predicate ChoiceRows(db: Db, v: Id, ids: seq<Id>) {
    IdsAre(db, v, ids) && NoTwice(ids)
  }

  /** `hits` is a result of the labels statement for a version of the current generation. */
  ghost predicate LabelRows(db: Db, v: Id, hits: seq<Hit>) {
    && (forall hit :: hit in hits <==> Labelled(db, v, hit))
    && NoTwice(hits)
    && (forall i, j | 0 <= i < j < |hits| :: InOrder(db, hits[i], hits[j]))
  }

  /** `load_direction_choices`. */
  method LoadDirectionChoices(db: Db, v: Id, ids: seq<Id>, hits: seq<Hit>) returns (choices: seq<Choice>)
    requires KeysHold(db) && ChoiceRows(db, v, ids) && LabelRows(db, v, hits)
    ensures IsChoices(db, v, choices)
  {
    var _, labels := Assemble(db, hits, DirectionOf);
    forall d | d in ids ensures AreLabels(db, v, WithKey(DirectionOf, d), if d in labels then labels[d] else []) {
      TextsAreLabels(db, v, hits, WithKey(DirectionOf, d));
    }
    DescribedAreChoices(db, v, ids, labels);
    choices := SortBy(Described(db, ids, labels), ChoiceLeq);
  }

  /** Version lookup, stale check, then choices and labels of that version. */
  method LoadInSteps(db: Db, route: Id, requested: Option<Id>, versions: seq<Id>, ids: Id -> seq<Id>,
      hits: Id -> seq<Hit>) returns (context: Context)
    requires KeysHold(db) && VersionRows(db, route, versions)
    requires forall v | CurrentVersion(db, route, v) :: ChoiceRows(db, v, ids(v)) && LabelRows(db, v, hits(v))
    ensures IsContext(db, route, requested, context)
  {
    if versions == [] {
      return RouteNotFound;
    }
    var version := versions[0];
    assert version in versions;
    if requested.Some? && version != requested.value {
      return VersionStale;
    }
    var choices := LoadDirectionChoices(db, version, ids(version), hits(version));
    context := Choices(version, choices);
  }
}
