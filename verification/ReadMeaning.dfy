/** What the answers of the passenger reads say of the stored rows. */
module ReadMeaning {
  import opened Common
  import opened Schema
  import opened Sequences
  import opened Joins
  import opened DirectionChoices
  import opened RouteSearch

  // ---- labels ----------------------------------------------------------------------------------------------

  /** Departure `s` is along direction `d` and matched well enough to be public. */
  ghost predicate Departs(db: Db, s: Id, d: Id) {
    && s in db.services && db.services[s].directionId == Some(d)
    && (db.services[s].confidence == "high" || db.services[s].confidence == "medium")
  }

  /** Direction `d` is of version `v`, and `s` is one of its public departures, under `label`. */
  ghost predicate Shows(db: Db, v: Id, d: Id, s: Id, text: string) {
    && d in db.directions && db.directions[d].info.versionId == v
    && Departs(db, s, d) && db.services[s].departureLabel == text
  }

  /** Departure `s` of direction `d` comes before `t` of `e`: by the numbers of the directions, and along one
      direction by those of the departures. */
  ghost predicate ComesBefore(db: Db, d: Id, s: Id, e: Id, t: Id)
    requires d in db.directions && e in db.directions && s in db.services && t in db.services
  {
    || db.directions[d].info.sequence < db.directions[e].info.sequence
    || (db.directions[d].info.sequence == db.directions[e].info.sequence
        && db.services[s].sequence < db.services[t].sequence)
  }

  lemma LabelledShows(db: Db, v: Id, hit: Hit)
    ensures Labelled(db, v, hit) <==>
      && hit.version == v && hit.direction.Some? && hit.service.Some?
      && Shows(db, v, hit.direction.value, hit.service.value, LabelOf(db, hit))
  {
  }

  /** The labels of a group are exactly those of its rows, each once. */
  lemma LabelsAreOfRows(db: Db, v: Id, group: Hit -> bool, labels: seq<string>)
    requires AreLabels(db, v, group, labels)
    ensures forall text :: text in labels <==> exists hit ::
      Labelled(db, v, hit) && group(hit)
      && LabelOf(db, hit) == text
    ensures forall i, j | 0 <= i < j < |labels| :: labels[i] != labels[j]
  {
    var list :| IsLabelList(db, v, group, list) && labels == Dedup(Mapped(list, LabelIn(db)));
    var texts := Mapped(list, LabelIn(db));
    DedupMembers(texts);
    DedupNoTwice(texts);
    forall text ensures text in texts <==>
      exists hit :: Labelled(db, v, hit) && group(hit) && LabelOf(db, hit) == text
    {
      if text in texts {
        var k :| 0 <= k < |texts| && texts[k] == text;
        assert list[k] in list && LabelIn(db)(list[k]) == LabelOf(db, list[k]);
      }
      if hit :| Labelled(db, v, hit) && group(hit) && LabelOf(db, hit) == text {
        assert hit in list;
        var k :| 0 <= k < |list| && list[k] == hit;
        assert texts[k] == LabelIn(db)(hit);
      }
    }
  }

  /** Of two labels, the earlier one has a row before every row of the later one. */
  lemma LabelsAreInOrder(db: Db, v: Id, group: Hit -> bool, labels: seq<string>, i: nat, j: nat) returns (first: Hit)
    requires AreLabels(db, v, group, labels) && i < j < |labels|
    ensures Labelled(db, v, first) && group(first) && LabelOf(db, first) == labels[i]
    ensures forall hit | Labelled(db, v, hit) && group(hit) && LabelOf(db, hit) == labels[j] :: Sooner(db, first, hit)
  {
    var list :| IsLabelList(db, v, group, list) && labels == Dedup(Mapped(list, LabelIn(db)));
    var texts := Mapped(list, LabelIn(db));
    var a := DedupFirst(texts, i, j);
    first := list[a];
    assert first in list && texts[a] == LabelIn(db)(first);
    forall hit | Labelled(db, v, hit) && group(hit) && LabelOf(db, hit) == labels[j] ensures Sooner(db, first, hit) {
      assert hit in list;
      var b :| 0 <= b < |list| && list[b] == hit;
      assert texts[b] == LabelIn(db)(hit);
      assert SoonerIn(db)(list[a], list[b]);
    }
  }

  // ---- direction choices -------------------------------------------------------------------------------------

  /** The labels of a choice are those of the public departures of its direction, each once, in the order of
      their first departures. */
  ghost predicate HasLabels(db: Db, c: Choice) {
    && (forall text :: text in c.labels <==>
          exists s :: Departs(db, s, c.id) && db.services[s].departureLabel == text)
    && (forall i, j | 0 <= i < j < |c.labels| ::
      c.labels[i] != c.labels[j]
      && HasEarlier(db, c, c.labels[i], c.labels[j]))
  }

  ghost predicate HasEarlier(db: Db, c: Choice, a: string, b: string) {
    exists s :: Departs(db, s, c.id) && db.services[s].departureLabel == a
      && forall t | Departs(db, t, c.id) && db.services[t].departureLabel == b ::
           db.services[s].sequence < db.services[t].sequence
  }

  lemma ChoiceGroup(db: Db, v: Id, d: Id, hit: Hit)
    requires Labelled(db, v, hit)
    ensures WithKey(DirectionOf, d)(hit) <==> hit.direction == Some(d)
  {
    assert DirectionOf(hit) == hit.direction;
  }

  lemma ChoiceHasLabels(db: Db, v: Id, c: Choice)
    requires IsChoice(db, v, c)
    ensures HasLabels(db, c)
  {
    var group := WithKey(DirectionOf, c.id);
    LabelsAreOfRows(db, v, group, c.labels);
    forall text ensures text in c.labels <==> exists s ::
      Departs(db, s, c.id)
      && db.services[s].departureLabel == text {
      if hit :| Labelled(db, v, hit) && group(hit) && LabelOf(db, hit) == text {
        ChoiceGroup(db, v, c.id, hit);
        assert Departs(db, hit.service.value, c.id);
      }
      if s :| Departs(db, s, c.id) && db.services[s].departureLabel == text {
        ChoiceRow(db, v, c.id, s);
      }
    }
    forall i, j | 0 <= i < j < |c.labels| ensures HasEarlier(db, c, c.labels[i], c.labels[j]) {
      ChoiceHasEarlier(db, v, c, i, j);
    }
  }

  lemma ChoiceRow(db: Db, v: Id, d: Id, s: Id)
    requires Runs(db, d, v) && Departs(db, s, d)
    ensures var hit := Hit(v, Some(d), Some(s));
      Labelled(db, v, hit) && WithKey(DirectionOf, d)(hit) && LabelOf(db, hit) == db.services[s].departureLabel
  {
    ChoiceGroup(db, v, d, Hit(v, Some(d), Some(s)));
  }

  lemma ChoiceHasEarlier(db: Db, v: Id, c: Choice, i: nat, j: nat)
    requires IsChoice(db, v, c) && i < j < |c.labels|
    ensures HasEarlier(db, c, c.labels[i], c.labels[j])
  {
    var first := LabelsAreInOrder(db, v, WithKey(DirectionOf, c.id), c.labels, i, j);
    ChoiceGroup(db, v, c.id, first);
    var s := first.service.value;
    assert Departs(db, s, c.id) && db.services[s].departureLabel == c.labels[i];
    forall t | Departs(db, t, c.id) && db.services[t].departureLabel == c.labels[j]
      ensures db.services[s].sequence < db.services[t].sequence
    {
      ChoiceRow(db, v, c.id, t);
      assert Sooner(db, first, Hit(v, Some(c.id), Some(t)));
    }
  }

  /** Choices come `ida` first, `volta` next and the rest last, and each kind by number. */
  lemma ChoicesAreOrdered(db: Db, v: Id, choices: seq<Choice>)
    requires IsChoices(db, v, choices)
    ensures forall i, j | 0 <= i < j < |choices| ::
      && (choices[j].kind == Some("ida") ==> choices[i].kind == Some("ida"))
      && (choices[j].kind == Some("volta") ==> choices[i].kind == Some("ida") || choices[i].kind == Some("volta"))
      && (choices[i].kind == choices[j].kind ==> choices[i].sequence < choices[j].sequence)
  {
  }

  /** The choices of a version are its directions, under their own number, name and kind, each with its public
      labels. */
  lemma ChoicesTellDirections(db: Db, v: Id, choices: seq<Choice>)
    requires IsChoices(db, v, choices)
    ensures forall c | c in choices ::
      && c.id in db.directions && db.directions[c.id].info.versionId == v
      && (c.sequence, c.name, c.kind)
        == (db.directions[c.id].info.sequence, db.directions[c.id].info.name, db.directions[c.id].info.kind)
      && HasLabels(db, c)
    ensures forall d | d in db.directions && db.directions[d].info.versionId == v :: exists c ::
      c in choices
      && c.id == d
  {
    forall c | c in choices ensures HasLabels(db, c) {
      ChoiceHasLabels(db, v, c);
    }
    forall d | d in db.directions && db.directions[d].info.versionId == v ensures exists c ::
      c in choices
      && c.id == d {
      assert Runs(db, d, v);
    }
  }

  // ---- candidates --------------------------------------------------------------------------------------------

  /** The hints of a candidate are the labels of the public departures of its version, each once, in the order
      of their first departures by direction and departure number. */
  ghost predicate HasHints(db: Db, c: Candidate) {
    && (forall text :: text in c.hints <==> exists d, s :: Shows(db, c.version, d, s, text))
    && (forall i, j | 0 <= i < j < |c.hints| ::
      c.hints[i] != c.hints[j]
      && HintIsEarlier(db, c, c.hints[i], c.hints[j]))
  }

  ghost predicate HintIsEarlier(db: Db, c: Candidate, a: string, b: string) {
    exists d, s :: Shows(db, c.version, d, s, a)
      && forall e, t | Shows(db, c.version, e, t, b) :: ComesBefore(db, d, s, e, t)
  }

  lemma CandidateHasHints(db: Db, m: Member, c: Candidate)
    requires Describes(db, m, c)
    ensures HasHints(db, c)
  {
    var v, group := m.version, WithKey(VersionOf, m.version);
    LabelsAreOfRows(db, v, group, c.hints);
    forall text ensures text in c.hints <==> exists d, s :: Shows(db, v, d, s, text) {
      if hit :| Labelled(db, v, hit) && group(hit) && LabelOf(db, hit) == text {
        LabelledShows(db, v, hit);
        assert Shows(db, v, hit.direction.value, hit.service.value, text);
      }
      if d, s :| Shows(db, v, d, s, text) {
        HintRow(db, v, d, s, text);
      }
    }
    forall i, j | 0 <= i < j < |c.hints| ensures HintIsEarlier(db, c, c.hints[i], c.hints[j]) {
      CandidateHasEarlier(db, m, c, i, j);
    }
  }

  lemma HintRow(db: Db, v: Id, d: Id, s: Id, text: string)
    requires Shows(db, v, d, s, text)
    ensures var hit := Hit(v, Some(d), Some(s));
      Labelled(db, v, hit) && WithKey(VersionOf, v)(hit) && LabelOf(db, hit) == text
  {
    VersionGroup(v, Hit(v, Some(d), Some(s)));
  }

  lemma CandidateHasEarlier(db: Db, m: Member, c: Candidate, i: nat, j: nat)
    requires Describes(db, m, c) && i < j < |c.hints|
    ensures HintIsEarlier(db, c, c.hints[i], c.hints[j])
  {
    var v := m.version;
    var first := LabelsAreInOrder(db, v, WithKey(VersionOf, v), c.hints, i, j);
    LabelledShows(db, v, first);
    var d, s := first.direction.value, first.service.value;
    assert Shows(db, v, d, s, c.hints[i]);
    forall e, t | Shows(db, v, e, t, c.hints[j]) ensures ComesBefore(db, d, s, e, t) {
      HintRow(db, v, e, t, c.hints[j]);
      assert Sooner(db, first, Hit(v, Some(e), Some(t)));
    }
  }

  /** Candidate `c` is a current route that matches, with its own code and name. */
  ghost predicate IsFound(db: Db, matches: RouteAttrs -> bool, c: Candidate) {
    && CurrentVersion(db, c.route, c.version) && c.route in db.routes && matches(db.routes[c.route])
    && c.code == db.routes[c.route].code && c.name == db.routes[c.route].name
  }

  /** A search finds current routes that match, in code order and with their hints, and no more than the limit
      allows; a current route that matches and is not found comes after all that are, and the limit is used
      up. */
  lemma SearchFinds(db: Db, le: Collation, matches: RouteAttrs -> bool, limit: nat, found: seq<Candidate>)
    requires IsSearch(db, le, matches, limit, found)
    ensures |found| <= limit
    ensures forall c | c in found :: IsFound(db, matches, c) && HasHints(db, c)
    ensures forall i, j | 0 <= i < j < |found| :: le(found[i].code, found[j].code) && found[i].code != found[j].code
    ensures forall r, v | CurrentVersion(db, r, v) && r in db.routes && matches(db.routes[r]) ::
      || (exists c :: c in found && c.route == r && c.version == v)
      || (|found| == limit && forall c | c in found :: le(c.code, db.routes[r].code) && c.code != db.routes[r].code)
  {
    var candidates: seq<Member> :| CandidateRows(db, le, matches, limit, candidates)
      && DescribesAll(db, candidates, found);
    var all :| AllCandidates(db, le, matches, all)
      && candidates == all[..if limit < |all| then limit else |all|];
    forall c | c in found ensures IsFound(db, matches, c) && HasHints(db, c) {
      var i :| 0 <= i < |found| && found[i] == c;
      assert candidates[i] == all[i] && all[i] in all;
      CandidateHasHints(db, candidates[i], c);
    }
    forall i, j | 0 <= i < j < |found| ensures le(found[i].code, found[j].code) && found[i].code != found[j].code {
      assert CodeLess(db, le)(all[i], all[j]);
    }
    forall r, v | CurrentVersion(db, r, v) && r in db.routes && matches(db.routes[r])
      ensures (exists c :: c in found && c.route == r && c.version == v)
        || (|found| == limit && forall c | c in found :: le(c.code, db.routes[r].code) && c.code != db.routes[r].code)
    {
      var m :| IsCurrent(db, m) && m.route == r && m.version == v;
      MatchIsFoundOrLater(db, le, matches, limit, all, candidates, found, m);
    }
  }

  lemma MatchIsFoundOrLater(db: Db, le: Collation, matches: RouteAttrs -> bool, limit: nat, all: seq<Member>,
      candidates: seq<Member>, found: seq<Candidate>, m: Member)
    requires AllCandidates(db, le, matches, all) && candidates == all[..if limit < |all| then limit else |all|]
    requires DescribesAll(db, candidates, found) && Matching(db, matches, m)
    ensures (exists c :: c in found && c.route == m.route && c.version == m.version)
      || (|found| == limit && forall c | c in found ::
           le(c.code, db.routes[m.route].code) && c.code != db.routes[m.route].code)
  {
    assert m in all;
    var k :| 0 <= k < |all| && all[k] == m;
    if k < |found| {
      assert candidates[k] == m && found[k] in found;
    } else {
      forall c | c in found ensures le(c.code, db.routes[m.route].code) && c.code != db.routes[m.route].code {
        var i :| 0 <= i < |found| && found[i] == c;
        assert candidates[i] == all[i] && Describes(db, candidates[i], found[i]);
        assert c.code == AttrsOf(db, all[i]).code && AttrsOf(db, all[k]) == db.routes[m.route];
        assert CodeLess(db, le)(all[i], all[k]);
      }
    }
  }
}
