/** What ingestion reads about a route, how services match its directions, and the names passengers
    see. */
module DirectionNames {
  import opened Common
  import opened Schema
  import opened Sorting
  import opened Wkt

  datatype SourceDirection = SourceDirection(name: string, kind: Option<string>, coordinates: seq<Point>)

  datatype SourceService = SourceService(sequence: int, departureLabel: string, normalizedName: Option<string>,
      kind: Option<string>)

  datatype Match = Match(service: int, direction: Option<int>, confidence: string, matchMethod: string, notes: string)

  function BySequence(a: SourceService, b: SourceService): bool {
    a.sequence <= b.sequence
  }

  function Ordered(services: seq<SourceService>): seq<SourceService> {
    SortBy(services, BySequence)
  }

  /** The entry a dictionary of the matches has for a service: the last one wins. */
  function MatchFor(matches: seq<Match>, service: int): Option<Match> {
    if matches == [] then None
    else if matches[|matches| - 1].service == service then Some(matches[|matches| - 1])
    else MatchFor(matches[..|matches| - 1], service)
  }

  /** `m` is the last of the matches for the service numbered `q`. */
  ghost predicate IsLastMatch(matches: seq<Match>, q: int, m: Match) {
    exists k :: 0 <= k < |matches| && matches[k] == m && m.service == q
      && forall j | k < j < |matches| :: matches[j].service != q
  }

  lemma {:induction false} MatchForIsLast(matches: seq<Match>, q: int)
    ensures MatchFor(matches, q).None? ==> forall j | 0 <= j < |matches| :: matches[j].service != q
    ensures MatchFor(matches, q).Some? ==> IsLastMatch(matches, q, MatchFor(matches, q).value)
  {
    if matches != [] {
      var init, last := matches[..|matches| - 1], matches[|matches| - 1];
      MatchForIsLast(init, q);
      if last.service == q {
        assert matches[|matches| - 1] == last;
      } else if MatchFor(init, q).Some? {
        var k :| 0 <= k < |init| && init[k] == MatchFor(init, q).value && init[k].service == q
          && forall j | k < j < |init| :: init[j].service != q;
        assert matches[k] == init[k];
        forall j | k < j < |matches| ensures matches[j].service != q {
          assert j < |init| ==> matches[j] == init[j];
        }
      }
    }
  }

  lemma LastMatchUnique(matches: seq<Match>, q: int, a: Match, b: Match)
    requires IsLastMatch(matches, q, a) && IsLastMatch(matches, q, b)
    ensures a == b
  {
  }

  method MatchTable(matches: seq<Match>) returns (table: map<int, Match>)
    ensures forall s :: (if s in table then Some(table[s]) else None) == MatchFor(matches, s)
  {
    table := map[];
    for i := 0 to |matches|
      invariant forall s :: (if s in table then Some(table[s]) else None) == MatchFor(matches[..i], s)
    {
      assert matches[..i + 1][..i] == matches[..i];
      table := table[matches[i].service := matches[i]];
    }
    assert matches[..|matches|] == matches;
  }

  predicate IsPublicMatch(m: Match) {
    m.confidence == "high" || m.confidence == "medium"
  }

  /** Service `s` publicly departs along direction number `index`. */
  predicate Departs(matches: seq<Match>, s: SourceService, index: int) {
    var m := MatchFor(matches, s.sequence);
    m.Some? && m.value.direction == Some(index) && IsPublicMatch(m.value)
  }

  /** The label of the first of the first `n` services that departs along direction `index`. */
  function Origin(services: seq<SourceService>, matches: seq<Match>, n: nat, index: int): Option<string>
    requires n <= |services|
  {
    if n == 0 then None
    else if Origin(services, matches, n - 1, index).Some? then Origin(services, matches, n - 1, index)
    else if Departs(matches, services[n - 1], index) then Some(services[n - 1].departureLabel)
    else None
  }

  predicate Truthy(s: Option<string>) {
    s.Some? && s.value != ""
  }

  predicate IsLetter(c: char) {
    'a' <= c <= 'z' || 'A' <= c <= 'Z'
  }

  function Lower(c: char): char {
    if 'A' <= c <= 'Z' then (c as int + 32) as char else c
  }

  /** Every word with a capital, and the rest of it in small letters. */
  function Titled(s: string): string {
    if s == "" then ""
    else
      var n := |s| - 1;
      Titled(s[..n]) + [if n > 0 && IsLetter(s[n - 1]) then Lower(s[n]) else Upper(s[n])]
  }

  /** The name of direction number `i`, counted from zero. */
  function NameOf(code: string, directions: seq<SourceDirection>, origin: int -> Option<string>, i: nat): string
    requires i < |directions|
  {
    var pair := |directions| == 2 && Truthy(origin(1)) && Truthy(origin(2)) && origin(1) != origin(2);
    if pair then origin(i + 1).value + " → " + origin(2 - i).value
    else if Truthy(origin(i + 1)) then origin(i + 1).value
    else if Truthy(directions[i].kind) then code + " - " + Titled(directions[i].kind.value)
    else directions[i].name
  }

  function OriginIn(services: seq<SourceService>, matches: seq<Match>): int -> Option<string> {
    index => Origin(services, matches, |services|, index)
  }

  /** The first public departure of each direction, in service order. */
  method Origins(services: seq<SourceService>, matches: seq<Match>) returns (origins: map<int, string>)
    ensures forall index :: (if index in origins then Some(origins[index]) else None) == Origin(services, matches,
      |services|, index)
  {
    var table := MatchTable(matches);
    origins := map[];
    for n := 0 to |services|
      invariant forall index :: (if index in origins then Some(origins[index]) else None) == Origin(services, matches,
        n, index)
    {
      var service := services[n];
      var found := if service.sequence in table then Some(table[service.sequence]) else None;
      assert found == MatchFor(matches, service.sequence);
      if found.None? || found.value.direction.None? || !IsPublicMatch(found.value)
        || found.value.direction.value in origins {
        continue;
      }
      origins := origins[found.value.direction.value := service.departureLabel];
    }
  }

  /** `passenger_facing_direction_names`: one name per direction. */
  method PassengerFacingNames(code: string, directions: seq<SourceDirection>, services: seq<SourceService>,
      matches: seq<Match>)
    returns (names: seq<string>)
    ensures |names| == |directions|
    ensures forall i | 0 <= i < |names| :: names[i] == NameOf(code, directions, OriginIn(Ordered(services), matches), i)
  {
    var ordered := Ordered(services);
    var origins := Origins(ordered, matches);
    var origin := (index: int) => if index in origins then Some(origins[index]) else None;
    names := [];
    for i := 0 to |directions|
      invariant |names| == i
      invariant forall k | 0 <= k < i :: names[k] == NameOf(code, directions, OriginIn(ordered, matches), k)
    {
      SameOrigins(code, directions, origin, OriginIn(ordered, matches), i);
      names := names + [NameOf(code, directions, origin, i)];
    }
  }

  lemma SameOrigins(code: string, directions: seq<SourceDirection>, f: int -> Option<string>,
      g: int -> Option<string>, i: nat)
    requires i < |directions| && forall index :: f(index) == g(index)
    ensures NameOf(code, directions, f, i) == NameOf(code, directions, g, i)
  {
  }

  /** Service `k` departs along direction `index` and none before it does. */
  ghost predicate FirstDeparture(services: seq<SourceService>, matches: seq<Match>, k: nat, index: int) {
    k < |services| && Departs(matches, services[k], index) && forall j | 0 <= j < k ::
      !Departs(matches, services[j], index)
  }

  /** The origin found is that of the first public departure. */
  lemma {:induction false} OriginIsFirst(services: seq<SourceService>, matches: seq<Match>, n: nat, index: int)
    requires n <= |services|
    ensures Origin(services, matches, n, index).None? ==> forall k | 0 <= k < n :: !Departs(matches, services[k], index)
    ensures Origin(services, matches, n, index).Some? ==>
      exists k: nat :: k < n && FirstDeparture(services, matches, k, index)
        && services[k].departureLabel == Origin(services, matches, n, index).value
  {
    if n > 0 {
      OriginIsFirst(services, matches, n - 1, index);
      assert Origin(services, matches, n - 1, index).None? && Departs(matches, services[n - 1], index) ==>
        FirstDeparture(services, matches, n - 1, index);
    }
  }

  // ---- what the names mean ---------------------------------------------------------------------------

  /** The last match of the service is public and names direction number `index`. */
  ghost predicate DepartsPublicly(matches: seq<Match>, s: SourceService, index: int) {
    exists m :: IsLastMatch(matches, s.sequence, m) && m.direction == Some(index)
      && (m.confidence == "high" || m.confidence == "medium")
  }

  lemma DepartsIs(matches: seq<Match>, s: SourceService, index: int)
    ensures Departs(matches, s, index) <==> DepartsPublicly(matches, s, index)
  {
    MatchForIsLast(matches, s.sequence);
    if m :| IsLastMatch(matches, s.sequence, m) && m.direction == Some(index) {
      if MatchFor(matches, s.sequence).Some? {
        LastMatchUnique(matches, s.sequence, m, MatchFor(matches, s.sequence).value);
      }
    }
  }

  /** `origin` is that of the first of the services that departs publicly along direction `index`. */
  ghost predicate IsOrigin(services: seq<SourceService>, matches: seq<Match>, index: int, origin: string) {
    exists k :: 0 <= k < |services| && DepartsPublicly(matches, services[k], index)
      && services[k].departureLabel == origin
      && forall j | 0 <= j < k :: !DepartsPublicly(matches, services[j], index)
  }

  lemma OriginIs(services: seq<SourceService>, matches: seq<Match>, index: int)
    ensures OriginIn(services, matches)(index).Some? ==>
      IsOrigin(services, matches, index, OriginIn(services, matches)(index).value)
    ensures OriginIn(services, matches)(index).None? ==> forall origin :: !IsOrigin(services, matches, index, origin)
  {
    OriginIsFirst(services, matches, |services|, index);
    forall k | 0 <= k < |services|
      ensures Departs(matches, services[k], index) <==> DepartsPublicly(matches, services[k], index)
    {
      DepartsIs(matches, services[k], index);
    }
  }

  lemma OriginUnique(services: seq<SourceService>, matches: seq<Match>, index: int, a: string, b: string)
    requires IsOrigin(services, matches, index, a) && IsOrigin(services, matches, index, b)
    ensures a == b
  {
  }

  lemma OriginIsLabel(services: seq<SourceService>, matches: seq<Match>, index: int, origin: string)
    ensures OriginIn(services, matches)(index) == Some(origin) <==> IsOrigin(services, matches, index, origin)
  {
    OriginIs(services, matches, index);
    if IsOrigin(services, matches, index, origin) && OriginIn(services, matches)(index).Some? {
      OriginUnique(services, matches, index, origin, OriginIn(services, matches)(index).value);
    }
  }

  /** Two directions with different origins are named by the pair, each from its own. */
  lemma PairIsNamed(code: string, directions: seq<SourceDirection>, services: seq<SourceService>, matches: seq<Match>,
      a: string, b: string)
    requires |directions| == 2 && a != "" && b != "" && a != b
    requires IsOrigin(services, matches, 1, a) && IsOrigin(services, matches, 2, b)
    ensures NameOf(code, directions, OriginIn(services, matches), 0) == a + " → " + b
    ensures NameOf(code, directions, OriginIn(services, matches), 1) == b + " → " + a
  {
    OriginIsLabel(services, matches, 1, a);
    OriginIsLabel(services, matches, 2, b);
  }

  predicate AreApart(a: string, b: string) {
    a != "" && b != "" && a != b
  }

  /** The two directions have different origins. */
  ghost predicate IsPair(directions: seq<SourceDirection>, services: seq<SourceService>, matches: seq<Match>) {
    && |directions| == 2
    && exists a, b :: IsOrigin(services, matches, 1, a) && IsOrigin(services, matches, 2, b) && AreApart(a, b)
  }

  lemma NoneApart(first: string -> bool, second: string -> bool, a: Option<string>, b: Option<string>)
    requires forall x, y | first(x) && second(y) :: !AreApart(x, y)
    requires (a.Some? ==> first(a.value)) && (b.Some? ==> second(b.value))
    ensures !(Truthy(a) && Truthy(b) && a != b)
  {
  }

  lemma NoPairNoNames(directions: seq<SourceDirection>, services: seq<SourceService>, matches: seq<Match>)
    requires !IsPair(directions, services, matches) && |directions| == 2
    ensures var origin := OriginIn(services, matches);
      !(Truthy(origin(1)) && Truthy(origin(2)) && origin(1) != origin(2))
  {
    OriginIs(services, matches, 1);
    OriginIs(services, matches, 2);
    NoneApart(a => IsOrigin(services, matches, 1, a), b => IsOrigin(services, matches, 2, b),
      OriginIn(services, matches)(1), OriginIn(services, matches)(2));
  }

  /** Any other direction is named by its origin, if that is not empty ... */
  lemma {:induction false} OriginIsNamed(code: string, directions: seq<SourceDirection>, services: seq<SourceService>,
      matches: seq<Match>, i: nat, origin: string)
    requires i < |directions| && !IsPair(directions, services, matches)
    requires IsOrigin(services, matches, i + 1, origin) && origin != ""
    ensures NameOf(code, directions, OriginIn(services, matches), i) == origin
  {
    OriginIsLabel(services, matches, i + 1, origin);
    if |directions| == 2 {
      NoPairNoNames(directions, services, matches);
    }
  }

  /** ... else by its kind, if it has one, and else as the source names it. */
  lemma {:induction false} KindIsNamed(code: string, directions: seq<SourceDirection>, services: seq<SourceService>,
      matches: seq<Match>, i: nat, number: int)
    requires i < |directions| && number == i + 1 && !IsPair(directions, services, matches)
    requires forall origin | IsOrigin(services, matches, number, origin) :: origin == ""
    ensures NameOf(code, directions, OriginIn(services, matches), i) == match directions[i].kind
      case Some(kind) => if kind != "" then code + " - " + Titled(kind) else directions[i].name
      case None => directions[i].name
  {
    OriginIs(services, matches, number);
    if |directions| == 2 {
      NoPairNoNames(directions, services, matches);
    }
  }

  lemma KindsAreTitled()
    ensures Titled("ida") == "Ida" && Titled("volta") == "Volta"
  {
    assert "ida"[..2] == "id" && "id"[..1] == "i" && "i"[..0] == "";
    assert "volta"[..4] == "volt" && "volt"[..3] == "vol" && "vol"[..2] == "vo" && "vo"[..1] == "v" && "v"[..0] == "";
  }

  // ---- inferred matches -------------------------------------------------------------------------------

  /** The number of the only direction of a kind, when the route has two directions. */
  function DirectionNumber(directions: seq<SourceDirection>, kind: string): Option<int> {
    if |directions| != 2 then None
    else if directions[0].kind == Some(kind) && directions[1].kind != Some(kind) then Some(1)
    else if directions[1].kind == Some(kind) && directions[0].kind != Some(kind) then Some(2)
    else None
  }

  function Unmatched(service: SourceService): Match {
    Match(service.sequence, None, "none", "unmatched", "")
  }

  const SEQUENCE_METHOD := "sequence_ida_volta"
  const ORDER_METHOD := "label_order_ida_volta"
  const IDA_NOTE := "first schedule group mapped to ida by observed source order"
  const VOLTA_NOTE := "second schedule group mapped to volta by observed source order"

  /** The first of two services goes `volta` only if it alone departs from a terminal. */
  function FirstIsIda(t1: bool, t2: bool): bool {
    t1 == t2 || !t1
  }

  /** One match of a pair of services on a route with one `ida` and one `volta`. */
  function PairMatch(service: SourceService, direction: int, t1: bool, t2: bool, differ: bool, note: string): Match {
    if t1 && t2 && differ then Match(service.sequence, Some(direction), "medium", SEQUENCE_METHOD,
      service.departureLabel)
    else if t1 != t2 then Match(service.sequence, Some(direction), "medium", ORDER_METHOD, service.departureLabel)
    else Match(service.sequence, Some(direction), "low", SEQUENCE_METHOD, note)
  }

  /** The matches of two services; `terminal` and `normal` stand for the text tests. */
  function Paired(first: SourceService, second: SourceService, ida: int, volta: int, terminal: string -> bool,
      normal: string -> string): (matches: seq<Match>)
    ensures |matches| == 2 && matches[0].service == first.sequence && matches[1].service == second.sequence
    ensures (matches[0].direction, matches[1].direction) == (Some(ida), Some(volta))
      || (matches[0].direction, matches[1].direction) == (Some(volta), Some(ida))
  {
    var t1, t2 := terminal(first.departureLabel), terminal(second.departureLabel);
    var differ := normal(first.departureLabel) != normal(second.departureLabel);
    var (d1, d2) := if FirstIsIda(t1, t2) then (ida, volta) else (volta, ida);
    [PairMatch(first, d1, t1, t2, differ, IDA_NOTE), PairMatch(second, d2, t1, t2, differ, VOLTA_NOTE)]
  }

  /** `infer_service_direction_matches`. */
  function Inferred(services: seq<SourceService>, directions: seq<SourceDirection>, terminal: string -> bool,
      normal: string -> string): seq<Match> {
    var ordered := Ordered(services);
    var ida, volta := DirectionNumber(directions, "ida"), DirectionNumber(directions, "volta");
    if ida.None? || volta.None? || |ordered| != 2 then
      seq(|ordered|, i requires 0 <= i < |ordered| => Unmatched(ordered[i]))
    else
      Paired(ordered[0], ordered[1], ida.value, volta.value, terminal, normal)
  }

  /** Inferred matches cover the services in order, name only directions of the route, and never the
      same direction twice. */
  lemma InferredStayInside(services: seq<SourceService>, directions: seq<SourceDirection>, terminal: string -> bool,
      normal: string -> string)
    ensures var matches := Inferred(services, directions, terminal, normal);
      && |matches| == |Ordered(services)|
      && (forall i | 0 <= i < |matches| :: matches[i].service == Ordered(services)[i].sequence)
      && (forall i | 0 <= i < |matches| && matches[i].direction.Some? ::
        1 <= matches[i].direction.value <= |directions|)
      && (forall i, j | 0 <= i < j < |matches| && matches[i].direction.Some? ::
        matches[i].direction != matches[j].direction)
  {
  }

  /** The route has one direction `ida`, number `ida`, and one direction `volta`, number `volta`. */
  predicate AreWays(directions: seq<SourceDirection>, ida: int, volta: int) {
    && |directions| == 2 && {ida, volta} == {1, 2} && ida != volta
    && directions[ida - 1].kind == Some("ida") && directions[volta - 1].kind == Some("volta")
  }

  /** Two departures of a route with both ways: the first goes `ida` and the second `volta`, unless the first
      alone leaves from a terminal. The matches are public if one alone does, or both do under different
      labels. */
  lemma {:induction false} WaysAreInferred(services: seq<SourceService>, directions: seq<SourceDirection>,
      terminal: string -> bool, normal: string -> string, ida: int, volta: int)
    requires AreWays(directions, ida, volta) && |Ordered(services)| == 2
    ensures var matches, ordered := Inferred(services, directions, terminal, normal), Ordered(services);
      var t1, t2 := terminal(ordered[0].departureLabel), terminal(ordered[1].departureLabel);
      var differ := normal(ordered[0].departureLabel) != normal(ordered[1].departureLabel);
      && matches[0].direction == Some(if t1 && !t2 then volta else ida)
      && matches[1].direction == Some(if t1 && !t2 then ida else volta)
      && forall i | 0 <= i < 2 ::
        && matches[i].confidence == (if t1 != t2 || (t1 && differ) then "medium" else "low")
        && matches[i].matchMethod == (if t1 != t2 then "label_order_ida_volta" else "sequence_ida_volta")
  {
  }

  /** Nothing is inferred of any other route. */
  lemma {:induction false} OthersAreUnmatched(services: seq<SourceService>, directions: seq<SourceDirection>,
      terminal: string -> bool, normal: string -> string)
    requires |Ordered(services)| != 2 || !exists ida, volta :: AreWays(directions, ida, volta)
    ensures forall m | m in Inferred(services, directions, terminal, normal) ::
      m.direction.None? && m.confidence == "none" && m.matchMethod == "unmatched"
  {
    var ida, volta := DirectionNumber(directions, "ida"), DirectionNumber(directions, "volta");
    if ida.Some? && volta.Some? {
      assert AreWays(directions, ida.value, volta.value);
    }
  }
}
