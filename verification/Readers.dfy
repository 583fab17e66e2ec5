/** When the three geometry readers agree on a stored text, printed or not. */
module Readers {
  import opened Common
  import opened Schema
  import opened Wkt

  /** Every float the reader accepts prints as one word that reads back. */
  ghost predicate SoundCodec(p: Platform) {
    forall s :: p.read(s).Some? ==> IsFloat(p, p.read(s).value)
  }

  function Readable<T>(r: Result<T, Fault>): Option<T> {
    match r case Ok(x) => Some(x) case Err(_) => None
  }

  ghost predicate Spaces(s: string) {
    forall i | 0 <= i < |s| :: IsSpace(s[i])
  }

  // ---- stripping -------------------------------------------------------------------------------------

  lemma {:induction false} StripLeftOf(lead: string, s: string)
    requires Spaces(lead)
    ensures StripLeft(lead + s) == StripLeft(s)
  {
    if lead == "" {
      assert lead + s == s;
    } else {
      assert (lead + s)[1..] == lead[1..] + s;
      StripLeftOf(lead[1..], s);
    }
  }

  lemma {:induction false} StripRightOf(s: string, trail: string)
    requires Spaces(trail)
    ensures StripRight(s + trail) == StripRight(s)
  {
    if trail == "" {
      assert s + trail == s;
    } else {
      assert (s + trail)[..|s + trail| - 1] == s + trail[..|trail| - 1];
      StripRightOf(s, trail[..|trail| - 1]);
    }
  }

  lemma {:induction false} LeadOf(s: string) returns (lead: string)
    ensures s == lead + StripLeft(s) && Spaces(lead)
  {
    if s != "" && IsSpace(s[0]) {
      var rest := LeadOf(s[1..]);
      lead := [s[0]] + rest;
    } else {
      lead := "";
    }
  }

  lemma {:induction false} TrailOf(s: string) returns (trail: string)
    ensures s == StripRight(s) + trail && Spaces(trail)
  {
    if s != "" && IsSpace(s[|s| - 1]) {
      var rest := TrailOf(s[..|s| - 1]);
      trail := rest + [s[|s| - 1]];
    } else {
      trail := "";
    }
  }

  /** Stripping removes spaces at both ends and nothing else. */
  lemma StripParts(s: string) returns (lead: string, trail: string)
    ensures s == lead + Strip(s) + trail && Spaces(lead) && Spaces(trail)
  {
    lead := LeadOf(s);
    trail := TrailOf(StripLeft(s));
    assert s == lead + (Strip(s) + trail);
  }

  lemma {:induction false} SpacesStrip(s: string)
    requires Spaces(s)
    ensures StripLeft(s) == "" && StripRight(s) == ""
  {
    StripLeftOf(s, "");
    StripRightOf("", s);
    assert s + "" == s && "" + s == s;
  }

  /** The two strips commute with spaces on the other side. */
  lemma {:induction false} StripLeftPast(s: string, trail: string)
    requires Spaces(trail)
    ensures StripLeft(s) != "" ==> StripLeft(s + trail) == StripLeft(s) + trail
    ensures StripLeft(s) == "" ==> StripLeft(s + trail) == ""
  {
    if s == "" {
      SpacesStrip(trail);
      assert s + trail == trail;
    } else {
      assert (s + trail)[1..] == s[1..] + trail;
      if IsSpace(s[0]) {
        StripLeftPast(s[1..], trail);
      }
    }
  }

  lemma StripOf(s: string, trail: string)
    requires Spaces(trail)
    ensures Strip(s + trail) == Strip(s)
  {
    StripLeftPast(s, trail);
    StripRightOf(StripLeft(s), trail);
  }

  // ---- words do not depend on stripping ----------------------------------------------------------------

  lemma {:induction false} WordLengthPast(s: string, trail: string)
    requires Spaces(trail)
    ensures WordLength(s + trail) == WordLength(s)
  {
    if s == "" {
      assert s + trail == trail;
    } else {
      assert (s + trail)[1..] == s[1..] + trail;
      if !IsSpace(s[0]) {
        WordLengthPast(s[1..], trail);
      }
    }
  }

  lemma {:induction false} WordsPast(s: string, trail: string)
    requires Spaces(trail)
    ensures Words(s + trail) == Words(s)
    decreases |s|
  {
    var t := StripLeft(s);
    StripLeftShape(s);
    StripLeftPast(s, trail);
    if t != "" {
      WordLengthPast(t, trail);
      var n := WordLength(t);
      assert (t + trail)[..n] == t[..n] && (t + trail)[n..] == t[n..] + trail;
      StripLeftShape(s + trail);
      WordsPast(t[n..], trail);
    }
  }

  lemma {:induction false} StrippedWords(s: string)
    ensures Words(Strip(s)) == Words(s)
  {
    var lead, trail := StripParts(s);
    WordsPast(lead + Strip(s), trail);
    StripLeftOf(lead, Strip(s));
  }

  /** The point readers agree on every list of texts. */
  lemma {:induction false} PointsAgree(p: Platform, texts: seq<string>)
    ensures TextPoints(p, texts) == Readable(StoredPoints(p, texts))
  {
    if texts != [] {
      StrippedWords(texts[0]);
      PointsAgree(p, texts[1..]);
    }
  }

  // ---- the text between prefix and end -------------------------------------------------------------------

  lemma {:induction false} FirstIn(a: string, b: string, c: char)
    requires First(a, c).Some?
    ensures First(a + b, c) == First(a, c)
  {
    assert (a + b)[1..] == a[1..] + b;
    if a[0] != c {
      FirstIn(a[1..], b, c);
    }
  }

  lemma {:induction false} StripRightTwice(s: string)
    ensures StripRight(StripRight(s)) == StripRight(s)
  {
    if s != "" && IsSpace(s[|s| - 1]) {
      StripRightTwice(s[..|s| - 1]);
    }
  }

  lemma StripTwice(s: string)
    ensures Strip(Strip(s)) == Strip(s)
  {
    var t := StripLeft(s);
    StripLeftShape(s);
    StripRightTwice(t);
    var trail := TrailOf(t);
    assert StripRight(t) != "" ==> StripRight(t)[0] == t[0];
  }

  /** The line string part of a text the store accepts. */
  function Line(g: string): string
    requires GeographyWkt(g).Ok?
  {
    GeographyWkt(g).value[10..]
  }

  /** The text is a prefix for SRID 4326, in any case, and after it a line string, both perhaps with spaces
      around. */
  ghost predicate IsPrefixedLine(g: string, line: string) {
    exists srid, body :: Strip(g) == srid + ";" + body && |srid| == 9 && StartsWithUpper(srid, "SRID=4326")
      && line == Strip(body) && StartsWithUpper(line, "LINESTRING")
  }

  lemma SridHasNoSemicolon(srid: string)
    requires |srid| == 9 && StartsWithUpper(srid, "SRID=4326")
    ensures ';' !in srid
  {
    forall i | 0 <= i < 9 ensures srid[i] != ';' {
      assert Upper(srid[i]) == "SRID=4326"[i];
    }
  }

  lemma PrefixedNormalises(g: string, srid: string, body: string)
    requires Strip(g) == srid + ";" + body && |srid| == 9 && StartsWithUpper(srid, "SRID=4326")
    requires StartsWithUpper(Strip(body), "LINESTRING")
    ensures GeographyWkt(g) == Ok("SRID=4326;" + Strip(body))
  {
    var text := Strip(g);
    SridHasNoSemicolon(srid);
    assert text == srid + (";" + body);
    FirstPast(srid, ";" + body, ';');
    assert text[10..] == body;
    assert forall i | 0 <= i < 9 :: text[i] == srid[i];
  }

  lemma NormalisedHasPrefix(g: string, line: string)
    requires GeographyWkt(g) == Ok("SRID=4326;" + line) && StartsWithUpper(Strip(g), "SRID=")
    ensures IsPrefixedLine(g, line)
  {
    var text := Strip(g);
    PrefixCutOff(line);
    PrefixCutOff(Strip(text[10..]));
    assert text == text[..9] + ";" + text[10..];
  }

  lemma NormalisedHasNone(g: string, line: string)
    requires !StartsWithUpper(Strip(g), "SRID=")
    ensures GeographyWkt(g) == Ok("SRID=4326;" + line) <==>
      StartsWithUpper(Strip(g), "LINESTRING") && line == Strip(g)
  {
    PrefixCutOff(line);
    PrefixCutOff(Strip(g));
  }

  lemma PrefixedIsPrefixed(g: string, line: string)
    requires IsPrefixedLine(g, line)
    ensures StartsWithUpper(Strip(g), "SRID=") && GeographyWkt(g) == Ok("SRID=4326;" + line)
  {
    var srid, body :| Strip(g) == srid + ";" + body && |srid| == 9 && StartsWithUpper(srid, "SRID=4326")
      && line == Strip(body) && StartsWithUpper(line, "LINESTRING");
    PrefixedNormalises(g, srid, body);
    assert forall i | 0 <= i < 5 :: Strip(g)[i] == srid[i];
  }

  /** A text normalises exactly if it is a line string without a prefix, or one with the prefix of this SRID
      and no other; then to that prefix and the line. */
  lemma NormalisesExactly(g: string, line: string)
    ensures GeographyWkt(g) == Ok("SRID=4326;" + line) <==>
      || (!StartsWithUpper(Strip(g), "SRID=") && StartsWithUpper(Strip(g), "LINESTRING") && line == Strip(g))
      || IsPrefixedLine(g, line)
  {
    if IsPrefixedLine(g, line) {
      PrefixedIsPrefixed(g, line);
    } else if StartsWithUpper(Strip(g), "SRID=") {
      if GeographyWkt(g) == Ok("SRID=4326;" + line) {
        NormalisedHasPrefix(g, line);
        assert false;
      }
    } else {
      NormalisedHasNone(g, line);
    }
  }

  lemma PrefixCutOff(line: string)
    ensures ("SRID=4326;" + line)[10..] == line
    ensures AfterSemicolon("SRID=4326;" + line) == line
  {
    var e := "SRID=4326;" + line;
    assert e == "SRID=4326" + (";" + line);
    FirstPast("SRID=4326", ";" + line, ';');
    assert e[10..] == line;
  }

  lemma LineIs(g: string)
    requires GeographyWkt(g).Ok?
    ensures GeographyWkt(g).value == "SRID=4326;" + Line(g)
    ensures Strip(Line(g)) == Line(g) && StartsWithUpper(Line(g), "LINESTRING")
  {
    var text := Strip(g);
    if StartsWithUpper(text, "SRID=") {
      var wkt := Strip(text[First(text, ';').value + 1..]);
      StripTwice(text[First(text, ';').value + 1..]);
      PrefixCutOff(wkt);
    } else {
      StripTwice(g);
      PrefixCutOff(text);
    }
  }

  lemma {:induction false} AfterSemicolonPast(lead: string, s: string)
    requires ';' !in lead && First(s, ';').Some?
    ensures AfterSemicolon(lead + s) == AfterSemicolon(s) && First(lead + s, ';').Some?
  {
    var i, t := First(s, ';').value, lead + s;
    FirstPast(lead, s, ';');
    assert First(t, ';') == Some(|lead| + i);
    assert t[|lead| + i + 1..] == s[i + 1..];
  }

  lemma {:induction false} AfterSemicolonIn(s: string, trail: string)
    requires First(s, ';').Some?
    ensures AfterSemicolon(s + trail) == AfterSemicolon(s) + trail && First(s + trail, ';').Some?
  {
    var i, t := First(s, ';').value, s + trail;
    FirstIn(s, trail, ';');
    assert First(t, ';') == Some(i);
    assert t[i + 1..] == s[i + 1..] + trail;
  }

  lemma {:induction false} PrefixedAfter(lead: string, text: string, trail: string)
    requires ';' !in lead && Spaces(trail) && First(text, ';').Some?
    ensures Strip(AfterSemicolon(lead + (text + trail))) == Strip(AfterSemicolon(text))
  {
    AfterSemicolonIn(text, trail);
    AfterSemicolonPast(lead, text + trail);
    StripOf(AfterSemicolon(text), trail);
  }

  lemma UnprefixedAfter(g: string)
    requires ';' !in g
    ensures AfterSemicolon(g) == g
  {
  }

  predicate Prefixed(g: string) {
    StartsWithUpper(Strip(g), "SRID=")
  }

  /** The first semicolon of the text, if there is one, is the one after the prefix. */
  predicate CutOnce(g: string)
    requires GeographyWkt(g).Ok?
  {
    Prefixed(g) || ';' !in Line(g)
  }

  /** What follows the first semicolon is the line, unless the line itself has the first semicolon. */
  lemma AfterSemicolonIsLine(g: string)
    requires GeographyWkt(g).Ok? && CutOnce(g)
    ensures Strip(AfterSemicolon(g)) == Line(g)
  {
    var text := Strip(g);
    var lead, trail := StripParts(g);
    assert ';' !in lead && ';' !in trail;
    assert g == lead + (text + trail);
    if StartsWithUpper(text, "SRID=") {
      PrefixedAfter(lead, text, trail);
    } else {
      UnprefixedAfter(g);
    }
  }

  // ---- agreement -----------------------------------------------------------------------------------------

  /** What follows the name and spaces. */
  function Rest(wkt: string): (rest: string)
    requires StartsWithUpper(wkt, "LINESTRING")
    ensures |rest| <= |wkt| - 10
  {
    StripLeftShape(wkt[10..]);
    StripLeft(wkt[10..])
  }

  /** `LINESTRING`, optional spaces, and brackets to the end. */
  predicate Shaped(wkt: string) {
    && StartsWithUpper(wkt, "LINESTRING")
    && |Rest(wkt)| >= 2 && Rest(wkt)[0] == '(' && Rest(wkt)[|Rest(wkt)| - 1] == ')'
  }

  function Inner(wkt: string): string
    requires Shaped(wkt)
  {
    Rest(wkt)[1..|Rest(wkt)| - 1]
  }

  lemma BracketedIsShaped(wkt: string)
    requires Bracketed(wkt)
    ensures Shaped(wkt) && Inner(wkt) == wkt[11..|wkt| - 1]
  {
  }

  lemma NameHasNoBracket(wkt: string)
    requires StartsWithUpper(wkt, "LINESTRING")
    ensures '(' !in wkt[..10]
  {
  }

  lemma RestEnds(wkt: string)
    requires StartsWithUpper(wkt, "LINESTRING")
    ensures wkt[|wkt| - |Rest(wkt)|..] == Rest(wkt)
    ensures '(' !in wkt[..|wkt| - |Rest(wkt)|]
  {
    var lead := LeadOf(wkt[10..]);
    assert wkt == (wkt[..10] + lead) + Rest(wkt);
    NameHasNoBracket(wkt);
    assert wkt[..|wkt| - |Rest(wkt)|] == wkt[..10] + lead;
  }

  /** Where the brackets of a shaped line are, and what is between them. */
  lemma {:induction false} ShapedMarks(wkt: string)
    requires Shaped(wkt)
    ensures First(wkt, '(') == Some(|wkt| - |Rest(wkt)|) && Last(wkt, ')') == Some(|wkt| - 1)
    ensures wkt[|wkt| - |Rest(wkt)| + 1..|wkt| - 1] == Inner(wkt)
  {
    var before := wkt[..|wkt| - |Rest(wkt)|];
    RestEnds(wkt);
    assert wkt == before + Rest(wkt);
    FirstPast(before, Rest(wkt), '(');
  }

  lemma {:induction false} StoredBetween(p: Platform, g: string, i: nat, j: nat)
    requires GeographyWkt(g).Ok? && i < j <= |Line(g)|
    requires First(Line(g), '(') == Some(i) && Last(Line(g), ')') == Some(j)
    ensures StoredCoordinates(p, g) == StoredPoints(p, SplitOn(Line(g)[i + 1..j], ','))
  {
    LineIs(g);
    PrefixCutOff(Line(g));
  }

  lemma {:induction false} StoredOfShaped(p: Platform, g: string)
    requires GeographyWkt(g).Ok? && Shaped(Line(g))
    ensures StoredCoordinates(p, g) == StoredPoints(p, SplitOn(Inner(Line(g)), ','))
  {
    ShapedMarks(Line(g));
    var i: nat, j: nat := First(Line(g), '(').value, Last(Line(g), ')').value;
    assert Line(g)[i + 1..j] == Inner(Line(g));
    StoredBetween(p, g, i, j);
  }

  lemma {:induction false} CapturedIsInner(wkt: string)
    requires Shaped(wkt)
    ensures Captured(wkt) == Some(Inner(wkt))
  {
  }

  lemma {:induction false} MigrationOfShaped(p: Platform, g: string)
    requires GeographyWkt(g).Ok? && CutOnce(g) && Shaped(Line(g))
    ensures MigrationCoordinates(p, g) == TextPoints(p, SplitOn(Inner(Line(g)), ','))
  {
    AfterSemicolonIsLine(g);
    CapturedIsInner(Line(g));
  }

  /** The migration reads what stage would store, whenever the whole line is `LINESTRING ( ... )` and
      the first semicolon is not inside it ... */
  lemma MigrationAgrees(p: Platform, g: string)
    requires GeographyWkt(g).Ok? && CutOnce(g) && Shaped(Line(g))
    ensures MigrationCoordinates(p, g) == Readable(StoredCoordinates(p, g))
  {
    MigrationOfShaped(p, g);
    StoredOfShaped(p, g);
    PointsAgree(p, SplitOn(Inner(Line(g)), ','));
  }

  /** ... and passengers read it exactly if the bracket also follows the name at once. */
  lemma PassengersAgree(p: Platform, g: string)
    requires GeographyWkt(g).Ok? && CutOnce(g)
    ensures PassengerCoordinates(p, g) == if Bracketed(Line(g)) then Readable(StoredCoordinates(p, g)) else None
  {
    AfterSemicolonIsLine(g);
    if Bracketed(Line(g)) {
      BracketedIsShaped(Line(g));
      StoredOfShaped(p, g);
      PointsAgree(p, SplitOn(Inner(Line(g)), ','));
    }
  }

  // ---- printed texts ---------------------------------------------------------------------------------------

  lemma LineOfEwkt(e: string, line: string)
    requires GeographyWkt(e) == Ok("SRID=4326;" + line)
    ensures Line(e) == line
  {
    PrefixCutOff(line);
  }

  lemma PrintedLineIsPlain(p: Platform, points: seq<Point>)
    requires AreFloats(p, points)
    ensures ';' !in PrintLine(p, points) && Bracketed(PrintLine(p, points))
  {
    JoinHasNone(p, points, ';');
    LineShape(JoinPoints(p, points));
  }

  /** Passengers' parser reads the text, if its numbers can be read. */
  ghost predicate Plain(g: string) {
    GeographyWkt(g).Ok? && Bracketed(Line(g))
  }

  /** Texts printed by ingestion are plain, and their line has no semicolon. */
  lemma PrintedIsPlain(p: Platform, points: seq<Point>)
    requires AreFloats(p, points)
    ensures Plain(PrintEwkt(p, points)) && CutOnce(PrintEwkt(p, points))
  {
    PrintedIsGeography(p, points);
    LineOfEwkt(PrintEwkt(p, points), PrintLine(p, points));
    PrintedLineIsPlain(p, points);
  }

  /** In the text of a point the longitude comes first; `PointsAgree` carries it to the other readers. */
  lemma {:induction false} LongitudeComesFirst(p: Platform, x: string, y: string)
    requires IsWord(x) && IsWord(y) && p.read(x).Some? && p.read(y).Some?
    ensures StoredPoint(p, x + " " + y) == Ok(Point(p.read(x).value, p.read(y).value))
  {
    WordsOfTwo("", x, y);
    var text := x + " " + y;
    assert "" + text == text;
  }

  // ---- texts the store holds -------------------------------------------------------------------------------

  /** What the geography column takes of normalised texts: no semicolon in the line and, if it has any
      bracket, a pair of brackets after the name and at the end. */
  ghost predicate TakesOnlyLines(p: Platform) {
    forall line | p.takes("SRID=4326;" + line) && StartsWithUpper(line, "LINESTRING") ::
      ';' !in line && ('(' in line ==> Shaped(line))
  }

  lemma TakenIsLine(p: Platform, g: string)
    requires TakesOnlyLines(p) && Taken(p, g)
    ensures CutOnce(g) && ('(' in Line(g) ==> Shaped(Line(g)))
  {
    LineIs(g);
  }

  lemma {:induction false} NoBracketIsGained(s: string)
    requires '(' !in s
    ensures '(' !in StripLeft(s)
  {
    if s != "" && IsSpace(s[0]) {
      NoBracketIsGained(s[1..]);
    }
  }

  lemma {:induction false} UnbracketedIsNotCaptured(wkt: string)
    requires '(' !in wkt
    ensures Captured(wkt) == None
  {
    if wkt != "" {
      if StartsWithUpper(wkt, "LINESTRING") {
        NoBracketIsGained(wkt[10..]);
      }
      UnbracketedIsNotCaptured(wkt[1..]);
    }
  }

  lemma UnbracketedIsNotStored(p: Platform, g: string)
    requires GeographyWkt(g).Ok? && '(' !in Line(g)
    ensures StoredCoordinates(p, g).Err?
  {
    LineIs(g);
    PrefixCutOff(Line(g));
  }

  /** The migration reads every text the store holds as stage did. */
  lemma {:induction false} TakenIsMigrated(p: Platform, g: string)
    requires TakesOnlyLines(p) && Taken(p, g)
    ensures MigrationCoordinates(p, g) == Readable(StoredCoordinates(p, g))
  {
    TakenIsLine(p, g);
    if '(' in Line(g) {
      MigrationAgrees(p, g);
    } else {
      AfterSemicolonIsLine(g);
      UnbracketedIsNotCaptured(Line(g));
      UnbracketedIsNotStored(p, g);
    }
  }

  // ---- texts it does not hold ------------------------------------------------------------------------------

  /** Where the first semicolon is inside the line, passengers see only what follows it. */
  lemma PassengersReadOn(p: Platform, g: string)
    requires GeographyWkt(g).Ok? && !CutOnce(g)
    ensures PassengerCoordinates(p, g) == ReadLine(p, Strip(AfterSemicolon(Line(g))))
  {
    var lead, trail := StripParts(g);
    assert Strip(g) == Line(g) && g == lead + (Line(g) + trail);
    FirstSemicolon(Line(g));
    PrefixedAfter(lead, Line(g), trail);
  }

  lemma {:induction false} FirstSemicolon(s: string)
    requires ';' in s
    ensures First(s, ';').Some?
  {
    if s[0] != ';' {
      FirstSemicolon(s[1..]);
    }
  }

  lemma {:induction false} FirstTwoWords(x: string, y: string, tail: string)
    requires IsWord(x) && IsWord(y)
    ensures |Words(x + " " + y + " " + tail)| >= 2
    ensures Words(x + " " + y + " " + tail)[0] == x && Words(x + " " + y + " " + tail)[1] == y
  {
    var s, t := x + " " + y + " " + tail, y + " " + tail;
    assert s == x + (" " + t) && s[0] == x[0] && x[0] in x;
    WordEnds(x, " " + t);
    assert s[..|x|] == x && s[|x|..] == " " + t;
    assert (" " + t)[1..] == t && t[0] == y[0] && y[0] in y;
    assert StripLeft(" " + t) == t;
    assert t == y + (" " + tail);
    WordEnds(y, " " + tail);
    assert t[..|y|] == y;
  }

  lemma {:induction false} NoneOfIt(s: string, c: char)
    requires c !in s
    ensures First(s, c) == None && SplitOn(s, c) == [s]
  {
    FirstPast(s, "", c);
    assert s + "" == s;
  }

  lemma {:induction false} OnePointStored(p: Platform, point: Point, tail: string)
    requires IsFloat(p, point.lon) && IsFloat(p, point.lat) && ',' !in tail
    ensures StoredPoints(p, SplitOn(PrintPoint(p, point) + " " + tail, ',')) == Ok([point])
  {
    var x, y := p.show(point.lon), p.show(point.lat);
    var text := PrintPoint(p, point) + " " + tail;
    assert text == x + " " + y + " " + tail;
    PointHasNone(p, point, ',');
    NoneOfIt(text, ',');
    FirstTwoWords(x, y, tail);
    var texts := [text];
    assert StoredPoint(p, texts[0]) == Ok(point) && texts[1..] == [] && StoredPoints(p, []) == Ok([]);
    assert StoredPoints(p, texts) == Ok([point] + []) && [point] + [] == [point];
    assert SplitOn(text, ',') == texts;
  }

  /** A text with the first semicolon in the line: one point, and then the line of another. */
  function SplitText(p: Platform, a: Point, b: Point): string {
    "LINESTRING(" + (PrintPoint(p, a) + " " + (";LINESTRING(" + PrintPoint(p, b))) + ")"
  }

  lemma SplitTextLine(p: Platform, a: Point, b: Point)
    ensures var g := SplitText(p, a, b);
      && GeographyWkt(g).Ok? && Line(g) == g && Bracketed(g) && !CutOnce(g)
      && g[11..|g| - 1] == PrintPoint(p, a) + " " + (";LINESTRING(" + PrintPoint(p, b))
  {
    var g := SplitText(p, a, b);
    var inner := PrintPoint(p, a) + " " + (";LINESTRING(" + PrintPoint(p, b));
    LineShape(inner);
    assert ("SRID=4326;" + g)[10..] == g;
    assert g[11..|g| - 1] == inner;
    assert (";LINESTRING(" + PrintPoint(p, b))[0] == ';';
    assert inner[|PrintPoint(p, a)| + 1] == ';' && g[11 + |PrintPoint(p, a)| + 1] == ';';
  }

  lemma SplitTextAfter(p: Platform, a: Point, b: Point)
    requires IsFloat(p, a.lon) && IsFloat(p, a.lat)
    ensures AfterSemicolon(SplitText(p, a, b)) == PrintLine(p, [b])
  {
    var lead := "LINESTRING(" + PrintPoint(p, a) + " ";
    var rest := "LINESTRING(" + PrintPoint(p, b) + ")";
    PointHasNone(p, a, ';');
    assert SplitText(p, a, b) == lead + (";" + rest);
    FirstPast(lead, ";" + rest, ';');
    assert (lead + (";" + rest))[|lead| + 1..] == rest;
  }

  lemma SplitTextInner(p: Platform, a: Point, b: Point)
    ensures var g := SplitText(p, a, b);
      && GeographyWkt(g).Ok? && Line(g) == g && Shaped(g)
      && Inner(g) == PrintPoint(p, a) + " " + (";LINESTRING(" + PrintPoint(p, b))
  {
    SplitTextLine(p, a, b);
    BracketedIsShaped(SplitText(p, a, b));
  }

  lemma SplitTextStored(p: Platform, a: Point, b: Point)
    requires AreFloats(p, [a]) && AreFloats(p, [b])
    ensures StoredCoordinates(p, SplitText(p, a, b)) == Ok([a])
  {
    var g := SplitText(p, a, b);
    assert a in [a] && b in [b];
    PointHasNone(p, b, ',');
    OnePointStored(p, a, ";LINESTRING(" + PrintPoint(p, b));
    SplitTextInner(p, a, b);
    StoredOfShaped(p, g);
  }

  lemma SameAfter(p: Platform, g: string, line: string)
    requires AfterSemicolon(g) == AfterSemicolon(line)
    ensures PassengerCoordinates(p, g) == PassengerCoordinates(p, line)
      && MigrationCoordinates(p, g) == MigrationCoordinates(p, line)
  {
  }

  /** The column's reader takes the one point there, and passengers and the migration the other ... */
  lemma SemicolonSplitsReaders(p: Platform, a: Point, b: Point)
    requires AreFloats(p, [a]) && AreFloats(p, [b])
    ensures StoredCoordinates(p, SplitText(p, a, b)) == Ok([a])
    ensures PassengerCoordinates(p, SplitText(p, a, b)) == Some([b])
    ensures MigrationCoordinates(p, SplitText(p, a, b)) == Some([b])
  {
    SplitTextStored(p, a, b);
    assert a in [a];
    SplitTextAfter(p, a, b);
    PrintedIsGeography(p, [b]);
    SameAfter(p, SplitText(p, a, b), PrintLine(p, [b]));
    PrintedReadsBack(p, [b], PrintLine(p, [b]));
  }

  /** ... and the geography column refuses such texts: none is ever stored. */
  lemma SplitTextIsRefused(p: Platform, a: Point, b: Point)
    requires TakesOnlyLines(p)
    ensures !Taken(p, SplitText(p, a, b))
  {
    SplitTextLine(p, a, b);
    if Taken(p, SplitText(p, a, b)) {
      TakenIsLine(p, SplitText(p, a, b));
      assert false;
    }
  }

  // ---- reprinting ----------------------------------------------------------------------------------------

  lemma {:induction false} PointsAreFloats(p: Platform, texts: seq<string>)
    requires SoundCodec(p) && StoredPoints(p, texts).Ok?
    ensures AreFloats(p, StoredPoints(p, texts).value) && |StoredPoints(p, texts).value| == |texts|
  {
    if texts != [] {
      PointsAreFloats(p, texts[1..]);
    }
  }

  lemma StoredAreFloats(p: Platform, g: string)
    requires SoundCodec(p) && StoredCoordinates(p, g).Ok?
    ensures StoredCoordinates(p, g).value != [] && AreFloats(p, StoredCoordinates(p, g).value)
  {
    var texts := StoredTexts(p, g);
    PointsAreFloats(p, texts);
  }

  lemma StoredTexts(p: Platform, g: string) returns (texts: seq<string>)
    requires StoredCoordinates(p, g).Ok?
    ensures texts != [] && StoredPoints(p, texts) == StoredCoordinates(p, g)
  {
    var body := AfterSemicolon(GeographyWkt(g).value);
    var i, j := First(body, '(').value, Last(body, ')').value;
    texts := SplitOn(if i + 1 <= j then body[i + 1..j] else "", ',');
  }

  /** Coordinates read from any stored text, printed again, are read by passengers as they were. */
  lemma ReprintReadsBack(p: Platform, g: string)
    requires SoundCodec(p) && StoredCoordinates(p, g).Ok?
    ensures PassengerCoordinates(p, PrintLine(p, StoredCoordinates(p, g).value)) == Some(StoredCoordinates(p, g).value)
  {
    var points := StoredCoordinates(p, g).value;
    StoredAreFloats(p, g);
    PrintedReadsBack(p, points, PrintLine(p, points));
  }

  lemma SpacedShape(inner: string)
    ensures var line := "LINESTRING (" + inner + ")";
      && Strip(line) == line && StartsWithUpper(line, "LINESTRING") && !StartsWithUpper(line, "SRID=")
      && Rest(line) == "(" + inner + ")" && !Bracketed(line)
  {
    var line := "LINESTRING (" + inner + ")";
    assert line[0] == 'L' && line[|line| - 1] == ')' && line[10] == ' ';
    assert Upper(line[0]) != "SRID="[0] && Upper(line[10]) != "LINESTRING("[10];
    assert line[10..] == " " + ("(" + inner + ")");
    StripLeftOf(" ", "(" + inner + ")");
  }

  lemma SpacedIsGeography(inner: string)
    ensures var line := "LINESTRING (" + inner + ")";
      GeographyWkt(line).Ok? && Line(line) == line && Shaped(line) && Inner(line) == inner && !Bracketed(line)
  {
    var line := "LINESTRING (" + inner + ")";
    SpacedShape(inner);
    assert ("SRID=4326;" + line)[10..] == line;
    assert ("(" + inner + ")")[1..|inner| + 1] == inner;
  }

  lemma {:induction false} JoinedReadBack(p: Platform, points: seq<Point>)
    requires points != [] && AreFloats(p, points)
    ensures StoredPoints(p, SplitOn(JoinPoints(p, points), ',')) == Ok(points)
  {
    SplitsIntoPieces(p, "", points);
    PiecesReadBack(p, "", points);
    assert "" + JoinPoints(p, points) == JoinPoints(p, points);
  }

  lemma {:induction false} UnbracketedIsUnread(p: Platform, g: string, points: seq<Point>)
    requires GeographyWkt(g).Ok? && Shaped(Line(g)) && !Bracketed(Line(g)) && CutOnce(g)
    requires StoredPoints(p, SplitOn(Inner(Line(g)), ',')) == Ok(points)
    ensures StoredCoordinates(p, g) == Ok(points) && PassengerCoordinates(p, g) == None
  {
    StoredOfShaped(p, g);
    PassengersAgree(p, g);
  }

  lemma {:induction false} SpacedHasNoSemicolon(p: Platform, points: seq<Point>)
    requires AreFloats(p, points)
    ensures ';' !in SpacedLine(p, points)
  {
    JoinHasNone(p, points, ';');
  }

  /** A space before the bracket is enough for the store to hold a text passengers cannot read. */
  lemma {:induction false} SpacedLineIsUnread(p: Platform, points: seq<Point>)
    requires |points| >= 2 && AreFloats(p, points) && TakesPrinted(p)
    ensures Taken(p, SpacedLine(p, points)) && StoredCoordinates(p, SpacedLine(p, points)) == Ok(points)
    ensures PassengerCoordinates(p, SpacedLine(p, points)) == None
  {
    SpacedIsGeography(JoinPoints(p, points));
    LineIs(SpacedLine(p, points));
    SpacedHasNoSemicolon(p, points);
    JoinedReadBack(p, points);
    UnbracketedIsUnread(p, SpacedLine(p, points), points);
  }
}
