/** Route Candidate search: one limited candidate list joined to its direction hints, and the
    candidate list with separately loaded hints. */
module RouteSearch {
  import opened Common
  import opened Schema
  import opened Sequences
  import opened Joins

  /** Text order of the database; total, and equal only on equal texts. */
  type Collation = (string, string) -> bool

  ghost predicate IsCollation(le: Collation) {
    && (forall a, b :: le(a, b) || le(b, a))
    && (forall a, b, c :: le(a, b) && le(b, c) ==> le(a, c))
    && (forall a, b :: le(a, b) && le(b, a) ==> a == b)
  }

  datatype Candidate = Candidate(route: Id, version: Id, code: string, name: string, hints: seq<string>)

  function AttrsOf(db: Db, m: Member): RouteAttrs {
    if m.route in db.routes then db.routes[m.route] else RouteAttrs("", "", "", None, None, None, false)
  }

  // ---- the limited candidate list --------------------------------------------------------------------

  function CodeLess(db: Db, le: Collation): (Member, Member) -> bool {
    (m, n) => le(AttrsOf(db, m).code, AttrsOf(db, n).code) && AttrsOf(db, m).code != AttrsOf(db, n).code
  }

  ghost predicate Matching(db: Db, matches: RouteAttrs -> bool, m: Member) {
    IsCurrent(db, m) && m.route in db.routes && matches(db.routes[m.route])
  }

  /** All current routes that match, in code order. Codes are unique, so the name never decides. */
  ghost predicate AllCandidates(db: Db, le: Collation, matches: RouteAttrs -> bool, all: seq<Member>) {
    Ascends(all, CodeLess(db, le)) && forall m: Member :: m in all <==> Matching(db, matches, m)
  }

  /** `ORDER BY code, name LIMIT limit`. */
  ghost predicate CandidateRows(db: Db, le: Collation, matches: RouteAttrs -> bool, limit: nat,
      candidates: seq<Member>) {
    exists all :: AllCandidates(db, le, matches, all) && candidates == all[..if limit < |all| then limit else |all|]
  }

  lemma CodesNeverTie(db: Db, le: Collation)
    requires IsCollation(le)
    ensures forall m, n :: !(CodeLess(db, le)(m, n) && CodeLess(db, le)(n, m))
  {
    forall m, n ensures !(CodeLess(db, le)(m, n) && CodeLess(db, le)(n, m)) {
      var a, b := AttrsOf(db, m).code, AttrsOf(db, n).code;
      assert le(a, b) && le(b, a) ==> a == b;
    }
  }

  lemma CandidateRowsUnique(db: Db, le: Collation, matches: RouteAttrs -> bool, limit: nat, a: seq<Member>,
      b: seq<Member>)
    requires IsCollation(le) && CandidateRows(db, le, matches, limit, a) && CandidateRows(db, le, matches, limit, b)
    ensures a == b
  {
    var x :| AllCandidates(db, le, matches, x) && a == x[..if limit < |x| then limit else |x|];
    var y :| AllCandidates(db, le, matches, y) && b == y[..if limit < |y| then limit else |y|];
    CodesNeverTie(db, le);
    AscendingSame(x, y, CodeLess(db, le));
  }

  /** `candidates` are current members with a route row, in code order. */
  lemma CandidatesAscend(db: Db, le: Collation, matches: RouteAttrs -> bool, limit: nat, candidates: seq<Member>)
    requires CandidateRows(db, le, matches, limit, candidates)
    ensures Listed(db, le, candidates)
  {
    var all :| AllCandidates(db, le, matches, all) && candidates == all[..if limit < |all| then limit else |all|];
    forall i | 0 <= i < |candidates| ensures Matching(db, matches, candidates[i]) {
      assert all[i] in all;
    }
  }

  // ---- what both searches have to give -----------------------------------------------------------------

  function VersionOf(hit: Hit): Option<Id> {
    Some(hit.version)
  }

  ghost predicate Describes(db: Db, m: Member, c: Candidate) {
    && c.route == m.route && c.version == m.version
    && c.code == AttrsOf(db, m).code && c.name == AttrsOf(db, m).name
    && AreLabels(db, m.version, WithKey(VersionOf, m.version), c.hints)
  }

  /** One result per limited candidate, in order, with all its hints: however many labels a route
      has, it takes one place of the limit. */
  ghost predicate IsSearch(db: Db, le: Collation, matches: RouteAttrs -> bool, limit: nat, found: seq<Candidate>) {
    exists candidates :: CandidateRows(db, le, matches, limit, candidates) && DescribesAll(db, candidates, found)
  }

  ghost predicate DescribesAll(db: Db, candidates: seq<Member>, found: seq<Candidate>) {
    |found| == |candidates| && forall i | 0 <= i < |found| :: Describes(db, candidates[i], found[i])
  }

  lemma SearchUnique(db: Db, le: Collation, matches: RouteAttrs -> bool, limit: nat, a: seq<Candidate>,
      b: seq<Candidate>)
    requires IsCollation(le) && IsSearch(db, le, matches, limit, a) && IsSearch(db, le, matches, limit, b)
    ensures a == b
  {
    var x: seq<Member> :| CandidateRows(db, le, matches, limit, x) && DescribesAll(db, x, a);
    var y: seq<Member> :| CandidateRows(db, le, matches, limit, y) && DescribesAll(db, y, b);
    CandidateRowsUnique(db, le, matches, limit, x, y);
    forall i | 0 <= i < |a| ensures a[i] == b[i] {
      LabelsUnique(db, x[i].version, WithKey(VersionOf, x[i].version), a[i].hints, b[i].hints);
    }
  }

  // ---- the joined search ---------------------------------------------------------------------------------

  /** One row of the joined statement: a candidate and what is joined to it. */
  datatype SearchRow = SearchRow(candidate: Member, hit: Hit)

  function HitOf(row: SearchRow): Hit {
    row.hit
  }

  /** `ORDER BY code, name, direction.sequence NULLS LAST, service.sequence NULLS LAST`. */
  ghost predicate RowOrder(db: Db, le: Collation, a: SearchRow, b: SearchRow) {
    var (x, y) := (AttrsOf(db, a.candidate), AttrsOf(db, b.candidate));
    if x.code != y.code then le(x.code, y.code)
    else if x.name != y.name then le(x.name, y.name)
    else InOrder(db, a.hit, b.hit)
  }

  ghost predicate JoinedSearch(db: Db, le: Collation, candidates: seq<Member>, rows: seq<SearchRow>) {
    && (forall row: SearchRow :: row in rows <==>
      row.candidate in candidates
      && LeftJoins(db, row.candidate.version, row.hit))
    && NoTwice(rows)
    && (forall i, j | 0 <= i < j < |rows| :: RowOrder(db, le, rows[i], rows[j]))
  }

  /** The candidates are current members, in code order. */
  ghost predicate Listed(db: Db, le: Collation, candidates: seq<Member>) {
    Ascends(candidates, CodeLess(db, le)) && forall m | m in candidates :: IsCurrent(db, m) && m.route in db.routes
  }

  lemma SameVersionSameMember(db: Db, le: Collation, candidates: seq<Member>, m: Member, n: Member)
    requires KeysHold(db) && Listed(db, le, candidates) && m in candidates && n in candidates
    ensures m.version == n.version ==> m == n
    ensures AttrsOf(db, m).code == AttrsOf(db, n).code ==> m == n
  {
  }

  /** The rows of one version come in label order ... */
  lemma RowsInOrder(db: Db, le: Collation, candidates: seq<Member>, rows: seq<SearchRow>, i: nat, j: nat)
    requires KeysHold(db) && Listed(db, le, candidates) && JoinedSearch(db, le, candidates, rows)
    requires i < j < |rows| && rows[i].hit.version == rows[j].hit.version
    ensures rows[i].hit != rows[j].hit && InOrder(db, rows[i].hit, rows[j].hit)
  {
    assert rows[i] in rows && rows[j] in rows;
    SameVersionSameMember(db, le, candidates, rows[i].candidate, rows[j].candidate);
    assert RowOrder(db, le, rows[i], rows[j]);
  }

  lemma VersionGroup(v: Id, hit: Hit)
    ensures WithKey(VersionOf, v)(hit) <==> hit.version == v && hit.service.Some?
  {
    assert VersionOf(hit) == Some(hit.version);
  }

  /** ... and are all its labelled rows. */
  lemma RowsCover(db: Db, le: Collation, candidates: seq<Member>, rows: seq<SearchRow>, m: Member, hit: Hit)
    requires JoinedSearch(db, le, candidates, rows) && m in candidates && WithKey(VersionOf, m.version)(hit)
    ensures hit in Mapped(rows, HitOf) <==> Labelled(db, m.version, hit)
  {
    var hits := Mapped(rows, HitOf);
    VersionGroup(m.version, hit);
    if hit in hits {
      var i :| 0 <= i < |hits| && hits[i] == hit;
      assert rows[i] in rows && HitOf(rows[i]) == hit;
      assert LeftJoins(db, m.version, hit);
    }
    if Labelled(db, m.version, hit) {
      var row := SearchRow(m, hit);
      assert LeftJoins(db, m.version, hit);
      assert row in rows;
      var i :| 0 <= i < |rows| && rows[i] == row;
      assert hits[i] == HitOf(row);
    }
  }

  lemma {:induction false} RowsGiveLabels(db: Db, le: Collation, candidates: seq<Member>, rows: seq<SearchRow>,
      m: Member)
    requires KeysHold(db) && Listed(db, le, candidates) && JoinedSearch(db, le, candidates, rows) && m in candidates
    ensures AreLabels(db, m.version, WithKey(VersionOf, m.version),
      Texts(db, Mapped(rows, HitOf), WithKey(VersionOf, m.version)))
  {
    var hits, group := Mapped(rows, HitOf), WithKey(VersionOf, m.version);
    forall i, j | 0 <= i < j < |hits| && group(hits[i]) && group(hits[j]) ensures hits[i] != hits[j]
      && InOrder(db, hits[i], hits[j]) {
      VersionGroup(m.version, hits[i]);
      VersionGroup(m.version, hits[j]);
      RowsInOrder(db, le, candidates, rows, i, j);
    }
    forall hit: Hit | group(hit) ensures hit in hits <==> Labelled(db, m.version, hit) {
      RowsCover(db, le, candidates, rows, m, hit);
    }
    TextsAreLabels(db, m.version, hits, group);
  }

  /** Order of versions by the code of their candidate. */
  ghost predicate Earlier(db: Db, le: Collation, candidates: seq<Member>, v: Id, w: Id) {
    exists m, n :: m in candidates && n in candidates && m.version == v && n.version == w && CodeLess(db, le)(m, n)
  }

  lemma EarlierNeverTies(db: Db, le: Collation, candidates: seq<Member>)
    requires IsCollation(le) && KeysHold(db) && Listed(db, le, candidates)
    ensures forall v, w :: !(Earlier(db, le, candidates, v, w) && Earlier(db, le, candidates, w, v))
  {
    forall v, w | Earlier(db, le, candidates, v, w) && Earlier(db, le, candidates, w, v) ensures false {
      var m, n :| m in candidates && n in candidates && m.version == v && n.version == w && CodeLess(db, le)(m, n);
      var k, l :| k in candidates && l in candidates && k.version == w && l.version == v && CodeLess(db, le)(k, l);
      SameVersionSameMember(db, le, candidates, m, l);
      SameVersionSameMember(db, le, candidates, n, k);
      CodesNeverTie(db, le);
    }
  }

  /** Versions appear in the result in candidate order. */
  lemma RowsAscend(db: Db, le: Collation, candidates: seq<Member>, rows: seq<SearchRow>, i: nat, j: nat)
    requires KeysHold(db) && Listed(db, le, candidates) && JoinedSearch(db, le, candidates, rows)
    requires i < j < |rows| && rows[i].hit.version != rows[j].hit.version
    ensures Earlier(db, le, candidates, rows[i].hit.version, rows[j].hit.version)
  {
    assert rows[i] in rows && rows[j] in rows;
    var m, n := rows[i].candidate, rows[j].candidate;
    SameVersionSameMember(db, le, candidates, m, n);
    assert RowOrder(db, le, rows[i], rows[j]);
    assert CodeLess(db, le)(m, n);
  }

  function VersionId(m: Member): Id {
    m.version
  }

  function HitVersion(row: SearchRow): Id {
    row.hit.version
  }

  /** The versions of the rows, at their first occurrence, are those of the candidates. */
  lemma FirstSeenAreCandidates(db: Db, le: Collation, candidates: seq<Member>, rows: seq<SearchRow>)
    requires IsCollation(le) && KeysHold(db) && Listed(db, le, candidates) && JoinedSearch(db, le, candidates, rows)
    ensures Dedup(Mapped(rows, HitVersion)) == Mapped(candidates, VersionId)
  {
    var seen, ids := Mapped(rows, HitVersion), Mapped(candidates, VersionId);
    var less := (v, w) => Earlier(db, le, candidates, v, w);
    forall i, j | 0 <= i < j < |seen| && seen[i] != seen[j] ensures less(seen[i], seen[j]) {
      RowsAscend(db, le, candidates, rows, i, j);
    }
    DedupAscends(seen, less);
    DedupMembers(seen);
    SeenIffListed(db, le, candidates, rows);
    forall i, j | 0 <= i < j < |ids| ensures less(ids[i], ids[j]) {
      assert candidates[i] in candidates && candidates[j] in candidates;
    }
    EarlierNeverTies(db, le, candidates);
    AscendingSame(Dedup(seen), ids, less);
  }

  lemma SeenIffListed(db: Db, le: Collation, candidates: seq<Member>, rows: seq<SearchRow>)
    requires JoinedSearch(db, le, candidates, rows)
    ensures forall v :: v in Mapped(rows, HitVersion) <==> v in Mapped(candidates, VersionId)
  {
    var seen, ids := Mapped(rows, HitVersion), Mapped(candidates, VersionId);
    forall v ensures v in seen <==> v in ids {
      if v in seen {
        var i :| 0 <= i < |seen| && seen[i] == v;
        assert rows[i] in rows;
        var j :| 0 <= j < |candidates| && candidates[j] == rows[i].candidate;
        assert ids[j] == v;
      }
      if v in ids {
        var j :| 0 <= j < |ids| && ids[j] == v;
        var hit := LeftJoinRow(db, v);
        assert SearchRow(candidates[j], hit) in rows;
        var i :| 0 <= i < |rows| && rows[i] == SearchRow(candidates[j], hit);
        assert seen[i] == v;
      }
    }
  }

  lemma {:induction false} VersionKeys(rows: seq<SearchRow>)
    ensures KeysOf(Mapped(rows, HitOf), VersionOf) == Mapped(rows, HitVersion)
  {
    if rows != [] {
      var init, hits := rows[..|rows| - 1], Mapped(rows, HitOf);
      VersionKeys(init);
      assert hits[..|hits| - 1] == Mapped(init, HitOf);
      assert Mapped(rows, HitVersion) == Mapped(init, HitVersion) + [rows[|rows| - 1].hit.version];
    }
  }

  /** The candidate columns of each version, from its first row. */
  method FirstRows(rows: seq<SearchRow>) returns (first: map<Id, Member>)
    requires forall row | row in rows :: row.candidate.version == row.hit.version
    ensures forall v :: v in first <==> v in Mapped(rows, HitVersion)
    ensures forall v | v in first :: first[v].version == v && exists i ::
      0 <= i < |rows|
      && rows[i].candidate == first[v]
  {
    first := map[];
    for i := 0 to |rows|
      invariant forall v :: v in first <==> exists k :: 0 <= k < i && rows[k].hit.version == v
      invariant forall v | v in first :: first[v].version == v && exists k ::
        0 <= k < i
        && rows[k].candidate == first[v]
    {
      var version := rows[i].hit.version;
      assert rows[i] in rows;
      if version !in first {
        first := first[version := rows[i].candidate];
      }
    }
    forall v ensures v in first <==> v in Mapped(rows, HitVersion) {
      if v in first {
        var k :| 0 <= k < |rows| && rows[k].hit.version == v;
        assert Mapped(rows, HitVersion)[k] == v;
      }
    }
  }

  function Described(db: Db, m: Member, hints: seq<string>): Candidate {
    Candidate(m.route, m.version, AttrsOf(db, m).code, AttrsOf(db, m).name, hints)
  }

  /** The candidate columns found for a version are those of its candidate. */
  lemma FirstIsCandidate(db: Db, le: Collation, candidates: seq<Member>, rows: seq<SearchRow>, first: Member, m: Member)
    requires KeysHold(db) && Listed(db, le, candidates) && JoinedSearch(db, le, candidates, rows) && m in candidates
    requires first.version == m.version && exists i :: 0 <= i < |rows| && rows[i].candidate == first
    ensures first == m
  {
    var i :| 0 <= i < |rows| && rows[i].candidate == first;
    assert rows[i] in rows;
    SameVersionSameMember(db, le, candidates, first, m);
  }

  /** `search_route_candidates`: candidates and hints from one result. */
  method SearchRouteCandidates(db: Db, ghost le: Collation, ghost matches: RouteAttrs -> bool, ghost limit: nat,
    ghost candidates: seq<Member>, rows: seq<SearchRow>)
    returns (found: seq<Candidate>)
    requires IsCollation(le) && KeysHold(db)
    requires CandidateRows(db, le, matches, limit, candidates) && JoinedSearch(db, le, candidates, rows)
    ensures IsSearch(db, le, matches, limit, found)
  {
    CandidatesAscend(db, le, matches, limit, candidates);
    var hits := Mapped(rows, HitOf);
    var order, hints := Assemble(db, hits, VersionOf);
    var first := FirstRows(rows);
    VersionKeys(rows);
    FirstSeenAreCandidates(db, le, candidates, rows);
    SeenIffListed(db, le, candidates, rows);
    assert order == Mapped(candidates, VersionId);
    assert forall i | 0 <= i < |order| :: order[i] in order;
    found := seq(|order|, i requires 0 <= i < |order| => Described(db, first[order[i]], hints[order[i]]));
    forall i | 0 <= i < |order| ensures Describes(db, candidates[i], found[i]) {
      assert candidates[i] in candidates;
      FirstIsCandidate(db, le, candidates, rows, first[order[i]], candidates[i]);
      RowsGiveLabels(db, le, candidates, rows, candidates[i]);
    }
    assert DescribesAll(db, candidates, found);
  }

  // ---- the candidate list with separate hints --------------------------------------------------------------

  /** `hits` is a result of the hints statement for versions of the current generation. */
  ghost predicate HintRows(db: Db, versionIds: seq<Id>, hits: seq<Hit>) {
    && (forall hit: Hit :: hit in hits <==> hit.version in versionIds && Labelled(db, hit.version, hit))
    && NoTwice(hits)
    && (forall i, j | 0 <= i < j < |hits| && hits[i].version == hits[j].version :: InOrder(db, hits[i], hits[j]))
  }

  /** `_direction_hints_by_version`. */
  method DirectionHintsByVersion(db: Db, versionIds: seq<Id>, hits: seq<Hit>) returns (hints: map<Id, seq<string>>)
    requires KeysHold(db) && HintRows(db, versionIds, hits)
    ensures forall v :: v in hints <==> v in versionIds
    ensures forall v | v in hints :: AreLabels(db, v, WithKey(VersionOf, v), hints[v])
  {
    var _, labels := Assemble(db, hits, VersionOf);
    hints := map v | v in versionIds :: if v in labels then labels[v] else [];
    forall v | v in hints ensures AreLabels(db, v, WithKey(VersionOf, v), hints[v]) {
      forall hit: Hit | WithKey(VersionOf, v)(hit) ensures hit.version == v {
        VersionGroup(v, hit);
      }
      TextsAreLabels(db, v, hits, WithKey(VersionOf, v));
    }
  }

  /** Candidates first, then the hints of their versions. */
  method SearchInSteps(db: Db, ghost le: Collation, ghost matches: RouteAttrs -> bool, ghost limit: nat,
    candidates: seq<Member>, hits: seq<Hit>)
    returns (found: seq<Candidate>)
    requires KeysHold(db) && CandidateRows(db, le, matches, limit, candidates)
    requires HintRows(db, Mapped(candidates, VersionId), hits)
    ensures IsSearch(db, le, matches, limit, found)
  {
    var hints := DirectionHintsByVersion(db, Mapped(candidates, VersionId), hits);
    assert forall i | 0 <= i < |candidates| :: Mapped(candidates, VersionId)[i] == candidates[i].version;
    found := seq(|candidates|, i requires 0 <= i < |candidates| => Described(db, candidates[i],
      hints[candidates[i].version]));
    assert DescribesAll(db, candidates, found);
  }
}
