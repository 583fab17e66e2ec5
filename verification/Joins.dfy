/** The joined rows passenger reads are made from, and how their labels are collected. */
module Joins {
  import opened Common
  import opened Schema
  import opened Sequences

  /** One row of a join from versions over directions to public services; outer joins leave the
      later columns empty. The other columns follow from the ids. */
  datatype Hit = Hit(version: Id, direction: Option<Id>, service: Option<Id>)

  predicate IsPublic(s: Service) {
    s.confidence == "high" || s.confidence == "medium"
  }

  predicate Links(db: Db, s: Id, d: Id) {
    s in db.services && db.services[s].directionId == Some(d) && IsPublic(db.services[s])
  }

  predicate Runs(db: Db, d: Id, v: Id) {
    d in db.directions && db.directions[d].info.versionId == v
  }

  ghost predicate IsCurrent(db: Db, m: Member) {
    m in db.members && Pointer(db, Current) == Some(m.generation)
  }

  /** A generation has one version of a route. */
  ghost predicate OneVersionPerRoute(db: Db) {
    forall m, n | m in db.members && n in db.members && m.generation == n.generation && m.route == n.route :: m == n
  }

  /** The primary and unique keys the reads rest on, and distinct service sequences along one
      direction. */
  ghost predicate KeysHold(db: Db) {
    && OneVersionPerRoute(db)
    && (forall m, n | m in db.members && n in db.members && m.generation == n.generation && m.version == n.version ::
      m == n)
    && (forall d, e | d in db.directions && e in db.directions
          && db.directions[d].info.versionId == db.directions[e].info.versionId
          && db.directions[d].info.sequence == db.directions[e].info.sequence :: d == e)
    && (forall s, t | s in db.services && t in db.services && db.services[s].directionId.Some?
          && db.services[s].directionId == db.services[t].directionId
          && db.services[s].sequence == db.services[t].sequence :: s == t)
    && (forall r, q | r in db.routes && q in db.routes && db.routes[r].code == db.routes[q].code :: r == q)
  }

  /** `version LEFT JOIN directions LEFT JOIN public services`, for version `v`. */
  ghost predicate LeftJoins(db: Db, v: Id, hit: Hit) {
    && hit.version == v
    && match hit.direction
       case None => hit.service.None? && forall d :: !Runs(db, d, v)
       case Some(d) => Runs(db, d, v) && LeftJoinsService(db, d, hit.service)
  }

  ghost predicate LeftJoinsService(db: Db, d: Id, service: Option<Id>) {
    match service
    case None => forall s :: !Links(db, s, d)
    case Some(s) => Links(db, s, d)
  }

  /** `version JOIN directions JOIN public services`, for version `v`. */
  predicate Labelled(db: Db, v: Id, hit: Hit) {
    && hit.version == v && hit.direction.Some? && hit.service.Some?
    && Runs(db, hit.direction.value, v) && Links(db, hit.service.value, hit.direction.value)
  }

  // ---- ORDER BY direction.sequence NULLS LAST, service.sequence NULLS LAST -------------------------

  function DirectionRank(db: Db, hit: Hit): Option<int> {
    if hit.direction.Some? && hit.direction.value in db.directions
    then Some(db.directions[hit.direction.value].info.sequence) else None
  }

  function ServiceRank(db: Db, hit: Hit): Option<int> {
    if hit.service.Some? && hit.service.value in db.services
    then Some(db.services[hit.service.value].sequence) else None
  }

  predicate NullsLast(a: Option<int>, b: Option<int>) {
    b.None? || (a.Some? && a.value <= b.value)
  }

  predicate InOrder(db: Db, a: Hit, b: Hit) {
    && NullsLast(DirectionRank(db, a), DirectionRank(db, b))
    && (DirectionRank(db, a) == DirectionRank(db, b) ==> NullsLast(ServiceRank(db, a), ServiceRank(db, b)))
  }

  ghost predicate NoTwice<T>(xs: seq<T>) {
    forall i, j | 0 <= i < j < |xs| :: xs[i] != xs[j]
  }

  /** Strictly earlier in that order, both columns present. */
  predicate Sooner(db: Db, a: Hit, b: Hit) {
    && DirectionRank(db, a).Some? && DirectionRank(db, b).Some? && ServiceRank(db, a).Some? && ServiceRank(db, b).Some?
    && (DirectionRank(db, a).value < DirectionRank(db, b).value
        || (DirectionRank(db, a) == DirectionRank(db, b) && ServiceRank(db, a).value < ServiceRank(db, b).value))
  }

  function SoonerIn(db: Db): (Hit, Hit) -> bool {
    (a, b) => Sooner(db, a, b)
  }

  /** Among the labelled rows of one version, the order has no ties. */
  lemma NoTies(db: Db, v: Id, a: Hit, b: Hit)
    requires KeysHold(db) && Labelled(db, v, a) && Labelled(db, v, b) && a != b && InOrder(db, a, b)
    ensures Sooner(db, a, b)
  {
  }

  // ---- labels ----------------------------------------------------------------------------------------

  function LabelOf(db: Db, hit: Hit): string {
    if hit.service.Some? && hit.service.value in db.services then db.services[hit.service.value].departureLabel else ""
  }

  function LabelIn(db: Db): Hit -> string {
    hit => LabelOf(db, hit)
  }

  function Append(bucket: seq<string>, text: string): seq<string> {
    if text in bucket then bucket else bucket + [text]
  }

  /** The distinct labels of the rows `group` picks, in order of first occurrence. */
  function Texts(db: Db, hits: seq<Hit>, group: Hit -> bool): seq<string> {
    if hits == [] then []
    else
      var rest, last := Texts(db, hits[..|hits| - 1], group), hits[|hits| - 1];
      if group(last) then Append(rest, LabelOf(db, last)) else rest
  }

  lemma {:induction false} TextsDedup(db: Db, hits: seq<Hit>, group: Hit -> bool)
    ensures Texts(db, hits, group) == Dedup(Mapped(Select(hits, group), LabelIn(db)))
  {
    if hits != [] {
      var init, last := hits[..|hits| - 1], hits[|hits| - 1];
      TextsDedup(db, init, group);
      if group(last) {
        var before, texts := Mapped(Select(init, group), LabelIn(db)), Mapped(Select(hits, group), LabelIn(db));
        assert texts == before + [LabelOf(db, last)];
        DedupStep(before, LabelOf(db, last));
      }
    }
  }

  /** What the labels of a group mean: those of exactly the labelled rows in the group, in order of
      direction and service sequence, each at its first occurrence. */
  ghost predicate AreLabels(db: Db, v: Id, group: Hit -> bool, labels: seq<string>) {
    exists list :: IsLabelList(db, v, group, list) && labels == Dedup(Mapped(list, LabelIn(db)))
  }

  ghost predicate IsLabelList(db: Db, v: Id, group: Hit -> bool, list: seq<Hit>) {
    Ascends(list, SoonerIn(db)) && forall hit: Hit :: hit in list <==> Labelled(db, v, hit) && group(hit)
  }

  lemma LabelsUnique(db: Db, v: Id, group: Hit -> bool, a: seq<string>, b: seq<string>)
    requires AreLabels(db, v, group, a) && AreLabels(db, v, group, b)
    ensures a == b
  {
    var x :| IsLabelList(db, v, group, x) && a == Dedup(Mapped(x, LabelIn(db)));
    var y :| IsLabelList(db, v, group, y) && b == Dedup(Mapped(y, LabelIn(db)));
    AscendingSame(x, y, SoonerIn(db));
  }

  /** The rows of a result picked by `group`, when they are the labelled rows of version `v` in the
      group and come in order, give the group's labels. */
  lemma {:induction false} TextsAreLabels(db: Db, v: Id, hits: seq<Hit>, group: Hit -> bool)
    requires KeysHold(db)
    requires forall hit: Hit | group(hit) :: hit in hits <==> Labelled(db, v, hit)
    requires forall i, j | 0 <= i < j < |hits| && group(hits[i]) && group(hits[j]) ::
      hits[i] != hits[j]
      && InOrder(db, hits[i], hits[j])
    ensures AreLabels(db, v, group, Texts(db, hits, group))
  {
    var list := Select(hits, group);
    TextsDedup(db, hits, group);
    SelectMembers(hits, group);
    forall i, j | 0 <= i < j < |hits| && group(hits[i]) && group(hits[j]) ensures SoonerIn(db)(hits[i], hits[j]) {
      assert hits[i] in hits && hits[j] in hits;
      NoTies(db, v, hits[i], hits[j]);
    }
    SelectAscends(hits, group, SoonerIn(db));
    assert IsLabelList(db, v, group, list);
  }

  // ---- the shared loop -------------------------------------------------------------------------------

  /** The rows with key `k` that carry a label. */
  function WithKey(keyOf: Hit -> Option<Id>, k: Id): Hit -> bool {
    (hit: Hit) => keyOf(hit) == Some(k) && hit.service.Some?
  }

  function KeysOf(hits: seq<Hit>, keyOf: Hit -> Option<Id>): seq<Id> {
    if hits == [] then []
    else
      var rest, key := KeysOf(hits[..|hits| - 1], keyOf), keyOf(hits[|hits| - 1]);
      if key.None? then rest else rest + [key.value]
  }

  lemma {:induction false} KeysOfMembers(hits: seq<Hit>, keyOf: Hit -> Option<Id>)
    ensures forall k :: k in KeysOf(hits, keyOf) <==> exists hit :: hit in hits && keyOf(hit) == Some(k)
  {
    if hits != [] {
      var init, last := hits[..|hits| - 1], hits[|hits| - 1];
      KeysOfMembers(init, keyOf);
      assert forall hit :: hit in hits <==> hit in init || hit == last;
    }
  }

  /** Every version has at least one row, and so has every direction of it. */
  lemma LeftJoinRow(db: Db, v: Id) returns (hit: Hit)
    ensures LeftJoins(db, v, hit)
  {
    if d :| Runs(db, d, v) {
      hit := DirectionRow(db, v, d);
    } else {
      hit := Hit(v, None, None);
    }
  }

  lemma DirectionRow(db: Db, v: Id, d: Id) returns (hit: Hit)
    requires Runs(db, d, v)
    ensures LeftJoins(db, v, hit) && hit.direction == Some(d)
  {
    if s :| Links(db, s, d) {
      hit := Hit(v, Some(d), Some(s));
    } else {
      hit := Hit(v, Some(d), None);
    }
  }

  /** The loop over joined rows that every read runs: keys at their first occurrence, and per key the
      distinct labels in row order. */
  method Assemble(db: Db, hits: seq<Hit>, keyOf: Hit -> Option<Id>)
      returns (order: seq<Id>, labels: map<Id, seq<string>>)
    ensures order == Dedup(KeysOf(hits, keyOf))
    ensures forall k :: k in labels <==> k in order
    ensures forall k | k in labels :: labels[k] == Texts(db, hits, WithKey(keyOf, k))
    ensures forall k | k !in labels :: Texts(db, hits, WithKey(keyOf, k)) == []
  {
    order, labels := [], map[];
    for i := 0 to |hits|
      invariant order == Dedup(KeysOf(hits[..i], keyOf))
      invariant forall k :: k in labels <==> k in order
      invariant forall k | k in labels :: labels[k] == Texts(db, hits[..i], WithKey(keyOf, k))
      invariant forall k | k !in labels :: Texts(db, hits[..i], WithKey(keyOf, k)) == []
    {
      var hit := hits[i];
      assert hits[..i + 1][..i] == hits[..i];
      if keyOf(hit).None? {
        continue;
      }
      var key := keyOf(hit).value;
      if key !in labels {
        order := order + [key];
        labels := labels[key := []];
      }
      if hit.service.None? {
        continue;
      }
      labels := labels[key := Append(labels[key], LabelOf(db, hit))];
    }
    assert hits[..|hits|] == hits;
  }
}
