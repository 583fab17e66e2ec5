/** Line strings as text: the printers, the three readers, and why they agree. White space and
    letter case are those of ASCII. */
module Wkt {
  import opened Common
  import opened Schema

  /** What a malformed geometry raises. */
  datatype Fault = ValueError | IndexError

  // ---- Text operations ------------------------------------------------------------------------

  predicate IsSpace(c: char) {
    c == ' ' || '\t' <= c <= '\r'
  }

  function StripLeft(s: string): string {
    if s != "" && IsSpace(s[0]) then StripLeft(s[1..]) else s
  }

  function StripRight(s: string): string {
    if s != "" && IsSpace(s[|s| - 1]) then StripRight(s[..|s| - 1]) else s
  }

  function Strip(s: string): string {
    StripRight(StripLeft(s))
  }

  function Upper(c: char): char {
    if 'a' <= c <= 'z' then (c as int - 32) as char else c
  }

  /** `s` starts with `prefix`, ignoring the case of `s`. */
  predicate StartsWithUpper(s: string, prefix: string) {
    |prefix| <= |s| && forall i | 0 <= i < |prefix| :: Upper(s[i]) == prefix[i]
  }

  function First(s: string, c: char): (at: Option<nat>)
    ensures at.Some? ==> at.value < |s| && s[at.value] == c
  {
    if s == "" then None
    else if s[0] == c then Some(0)
    else match First(s[1..], c) case None => None case Some(i) => Some(i + 1)
  }

  function Last(s: string, c: char): (at: Option<nat>)
    ensures at.Some? ==> at.value < |s| && s[at.value] == c
  {
    if s == "" then None
    else if s[|s| - 1] == c then Some(|s| - 1)
    else Last(s[..|s| - 1], c)
  }

  function SplitOn(s: string, c: char): seq<string>
    decreases |s|
  {
    match First(s, c)
    case None => [s]
    case Some(i) => [s[..i]] + SplitOn(s[i + 1..], c)
  }

  function WordLength(s: string): (n: nat)
    ensures n <= |s|
    ensures s != "" && !IsSpace(s[0]) ==> n > 0
  {
    if s == "" || IsSpace(s[0]) then 0 else 1 + WordLength(s[1..])
  }

  lemma {:induction false} StripLeftShape(s: string)
    ensures |StripLeft(s)| <= |s|
    ensures StripLeft(s) != "" ==> !IsSpace(StripLeft(s)[0])
  {
    if s != "" && IsSpace(s[0]) {
      StripLeftShape(s[1..]);
    }
  }

  /** The space-separated words of `s`. */
  function Words(s: string): seq<string>
    decreases |s|
  {
    var t := StripLeft(s);
    StripLeftShape(s);
    if t == "" then [] else [t[..WordLength(t)]] + Words(t[WordLength(t)..])
  }

  /** The text after the first semicolon, or all of it. */
  function AfterSemicolon(s: string): string {
    match First(s, ';') case None => s case Some(i) => s[i + 1..]
  }

  // ---- The readers ----------------------------------------------------------------------------

  /** The store's reader of one point: the first two words, read in order. */
  function StoredPoint(p: Platform, text: string): Result<Point, Fault> {
    var w := Words(text);
    if |w| == 0 then Err(IndexError)
    else if p.read(w[0]).None? then Err(ValueError)
    else if |w| == 1 then Err(IndexError)
    else if p.read(w[1]).None? then Err(ValueError)
    else Ok(Point(p.read(w[0]).value, p.read(w[1]).value))
  }

  function StoredPoints(p: Platform, texts: seq<string>): Result<seq<Point>, Fault> {
    if texts == [] then Ok([])
    else match StoredPoint(p, texts[0])
      case Err(fault) => Err(fault)
      case Ok(point) =>
        match StoredPoints(p, texts[1..])
        case Err(fault) => Err(fault)
        case Ok(rest) => Ok([point] + rest)
  }

  /** `geography_wkt`: the text handed to the geography column. */
  function GeographyWkt(geometry: string): Result<string, Fault> {
    var text := Strip(geometry);
    if StartsWithUpper(text, "SRID=") then
      match First(text, ';')
      case None => Err(ValueError)
      case Some(i) =>
        var wkt := Strip(text[i + 1..]);
        if i != 9 || !StartsWithUpper(text, "SRID=4326") || !StartsWithUpper(wkt, "LINESTRING") then Err(ValueError)
        else Ok("SRID=4326;" + wkt)
    else if !StartsWithUpper(text, "LINESTRING") then Err(ValueError)
    else Ok("SRID=4326;" + text)
  }

  /** `_linestring_coordinates`: what stage writes into the denormalised column. */
  function StoredCoordinates(p: Platform, geometry: string): Result<seq<Point>, Fault> {
    match GeographyWkt(geometry)
    case Err(fault) => Err(fault)
    case Ok(ewkt) =>
      var body := AfterSemicolon(ewkt);
      match (First(body, '('), Last(body, ')'))
      case (Some(i), Some(j)) => StoredPoints(p, SplitOn(if i + 1 <= j then body[i + 1..j] else "", ','))
      case _ => Err(ValueError)
  }

  /** The geography column takes the normalised text. */
  predicate Taken(p: Platform, geometry: string) {
    GeographyWkt(geometry).Ok? && p.takes(GeographyWkt(geometry).value)
  }

  /** The points of comma-separated texts, as the passenger reader and the migration read them. */
  function TextPoints(p: Platform, texts: seq<string>): Option<seq<Point>> {
    if texts == [] then Some([])
    else
      var w := Words(Strip(texts[0]));
      if |w| < 2 || p.read(w[0]).None? || p.read(w[1]).None? then None
      else match TextPoints(p, texts[1..])
        case None => None
        case Some(rest) => Some([Point(p.read(w[0]).value, p.read(w[1]).value)] + rest)
  }

  predicate Bracketed(wkt: string) {
    StartsWithUpper(wkt, "LINESTRING(") && wkt[|wkt| - 1] == ')'
  }

  function ReadLine(p: Platform, wkt: string): Option<seq<Point>> {
    if !Bracketed(wkt) then None else TextPoints(p, SplitOn(wkt[11..|wkt| - 1], ','))
  }

  /** `parse_linestring_wkt`: what passengers' geometry is read with. */
  function PassengerCoordinates(p: Platform, value: string): Option<seq<Point>> {
    ReadLine(p, Strip(AfterSemicolon(value)))
  }

  /** The text a leftmost search for the migration's pattern captures in stripped text. */
  function Captured(wkt: string): Option<string> {
    if wkt == "" then None
    else if StartsWithUpper(wkt, "LINESTRING") then
      var rest := StripLeft(wkt[10..]);
      if |rest| >= 2 && rest[0] == '(' && rest[|rest| - 1] == ')' then Some(rest[1..|rest| - 1])
      else Captured(wkt[1..])
    else Captured(wkt[1..])
  }

  /** `_coords_from_segment_geometry` of the denormalisation migration. */
  function MigrationCoordinates(p: Platform, value: string): Option<seq<Point>> {
    match Captured(Strip(AfterSemicolon(value)))
    case None => None
    case Some(inner) => TextPoints(p, SplitOn(inner, ','))
  }

  // ---- The printers ---------------------------------------------------------------------------

  function PrintPoint(p: Platform, point: Point): string {
    p.show(point.lon) + " " + p.show(point.lat)
  }

  function JoinPoints(p: Platform, points: seq<Point>): string {
    if points == [] then ""
    else if |points| == 1 then PrintPoint(p, points[0])
    else PrintPoint(p, points[0]) + ", " + JoinPoints(p, points[1..])
  }

  /** How discovery reprints denormalised coordinates. */
  function PrintLine(p: Platform, points: seq<Point>): string {
    "LINESTRING(" + JoinPoints(p, points) + ")"
  }

  /** How ingestion prints a geometry. */
  function PrintEwkt(p: Platform, points: seq<Point>): string {
    "SRID=4326;" + PrintLine(p, points)
  }

  /** A printed line with a space before its bracket. */
  function SpacedLine(p: Platform, points: seq<Point>): string {
    "LINESTRING (" + JoinPoints(p, points) + ")"
  }

  // ---- Round trips ----------------------------------------------------------------------------

  predicate IsWordChar(c: char) {
    !IsSpace(c) && c != ',' && c != '(' && c != ')' && c != ';'
  }

  /** A value the float printer and reader carry back and forth, printed as one word. */
  ghost predicate IsFloat(p: Platform, x: real) {
    && p.read(p.show(x)) == Some(x)
    && p.show(x) != ""
    && forall c | c in p.show(x) :: IsWordChar(c)
  }

  ghost predicate AreFloats(p: Platform, points: seq<Point>) {
    forall point | point in points :: IsFloat(p, point.lon) && IsFloat(p, point.lat)
  }

  /** The geography column takes printed lines of at least two points, with or without the space. */
  ghost predicate TakesPrinted(p: Platform) {
    forall points | |points| >= 2 && AreFloats(p, points) ::
      p.takes(PrintEwkt(p, points)) && p.takes("SRID=4326;" + SpacedLine(p, points))
  }

  lemma {:induction false} FirstPast(a: string, b: string, c: char)
    requires c !in a
    ensures First(a + b, c) == match First(b, c) case None => None case Some(i) => Some(|a| + i)
  {
    if a == "" {
      assert a + b == b;
    } else {
      assert (a + b)[1..] == a[1..] + b;
      FirstPast(a[1..], b, c);
    }
  }

  lemma {:induction false} WordEnds(a: string, b: string)
    requires forall c | c in a :: !IsSpace(c)
    requires b == "" || IsSpace(b[0])
    ensures WordLength(a + b) == |a|
  {
    if a == "" {
      assert a + b == b;
    } else {
      assert (a + b)[1..] == a[1..] + b;
      WordEnds(a[1..], b);
    }
  }

  ghost predicate IsWord(x: string) {
    x != "" && forall c | c in x :: !IsSpace(c)
  }

  lemma {:induction false} WordsOfOne(lead: string, y: string)
    requires lead == "" || lead == " "
    requires IsWord(y)
    ensures Words(lead + y) == [y]
  {
    assert y[0] in y;
    assert lead == " " ==> (lead + y)[1..] == y;
    assert StripLeft(lead + y) == y;
    WordEnds(y, "");
    assert y + "" == y && y[..|y|] == y && y[|y|..] == "";
    assert Words("") == [];
  }

  lemma {:induction false} WordsOfTwo(lead: string, x: string, y: string)
    requires lead == "" || lead == " "
    requires IsWord(x) && IsWord(y)
    ensures Words(lead + (x + " " + y)) == [x, y]
  {
    var s := x + " " + y;
    assert s[0] == x[0] && x[0] in x;
    assert lead == " " ==> (lead + s)[1..] == s;
    assert StripLeft(lead + s) == s;
    assert s == x + (" " + y);
    WordEnds(x, " " + y);
    assert s[..|x|] == x && s[|x|..] == " " + y;
    WordsOfOne(" ", y);
  }

  lemma {:induction false} WordsOfPoint(p: Platform, lead: string, point: Point)
    requires lead == "" || lead == " "
    requires IsFloat(p, point.lon) && IsFloat(p, point.lat)
    ensures Words(lead + PrintPoint(p, point)) == [p.show(point.lon), p.show(point.lat)]
  {
    WordsOfTwo(lead, p.show(point.lon), p.show(point.lat));
  }

  lemma StripsToPoint(p: Platform, lead: string, point: Point)
    requires lead == "" || lead == " "
    requires IsFloat(p, point.lon) && IsFloat(p, point.lat)
    ensures Strip(lead + PrintPoint(p, point)) == PrintPoint(p, point)
  {
    var x, y := p.show(point.lon), p.show(point.lat);
    var s := x + " " + y;
    assert s[0] == x[0] && x[0] in x;
    assert s[|s| - 1] == y[|y| - 1] && y[|y| - 1] in y;
    assert lead == " " ==> (lead + s)[1..] == s;
    assert StripLeft(lead + s) == s && StripRight(s) == s;
  }

  lemma PointHasNone(p: Platform, point: Point, c: char)
    requires IsFloat(p, point.lon) && IsFloat(p, point.lat)
    requires c == ',' || c == '(' || c == ')' || c == ';'
    ensures c !in PrintPoint(p, point)
  {
  }

  lemma {:induction false} HeadReadsBack(p: Platform, lead: string, point: Point, rest: seq<string>)
    requires lead == "" || lead == " "
    requires IsFloat(p, point.lon) && IsFloat(p, point.lat)
    ensures var texts := [lead + PrintPoint(p, point)] + rest;
      && StoredPoints(p, texts) == (match StoredPoints(p, rest) case Err(f) => Err(f) case Ok(t) => Ok([point] + t))
      && TextPoints(p, texts) == (match TextPoints(p, rest) case None => None case Some(t) => Some([point] + t))
  {
    WordsOfPoint(p, lead, point);
    WordsOfPoint(p, "", point);
    assert "" + PrintPoint(p, point) == PrintPoint(p, point);
    StripsToPoint(p, lead, point);
    assert ([lead + PrintPoint(p, point)] + rest)[1..] == rest;
  }

  /** The pieces of a joined list: all but the first keep a leading space. */
  function Pieces(p: Platform, lead: string, points: seq<Point>): seq<string>
    decreases |points|
  {
    if points == [] then [] else [lead + PrintPoint(p, points[0])] + Pieces(p, " ", points[1..])
  }

  lemma {:induction false} SplitHead(head: string, tail: string, c: char)
    requires c !in head
    ensures SplitOn(head, c) == [head]
    ensures SplitOn(head + [c] + tail, c) == [head] + SplitOn(tail, c)
  {
    FirstPast(head, "", c);
    assert head + "" == head;
    var s := head + [c] + tail;
    assert s == head + ([c] + tail);
    FirstPast(head, [c] + tail, c);
    assert s[..|head|] == head && s[|head| + 1..] == tail;
  }

  lemma {:induction false} JoinStep(p: Platform, lead: string, points: seq<Point>)
    requires |points| > 1
    ensures lead + JoinPoints(p, points) == lead + PrintPoint(p, points[0]) + [','] + (" " + JoinPoints(p, points[1..]))
  {
  }

  lemma {:induction false} SplitsIntoPieces(p: Platform, lead: string, points: seq<Point>)
    requires lead == "" || lead == " "
    requires points != [] && AreFloats(p, points)
    ensures SplitOn(lead + JoinPoints(p, points), ',') == Pieces(p, lead, points)
    decreases |points|
  {
    assert points[0] in points;
    PointHasNone(p, points[0], ',');
    if |points| == 1 {
      SplitHead(lead + PrintPoint(p, points[0]), "", ',');
    } else {
      SplitHead(lead + PrintPoint(p, points[0]), " " + JoinPoints(p, points[1..]), ',');
      JoinStep(p, lead, points);
      SplitsIntoPieces(p, " ", points[1..]);
    }
  }

  lemma {:induction false} PiecesReadBack(p: Platform, lead: string, points: seq<Point>)
    requires lead == "" || lead == " "
    requires AreFloats(p, points)
    ensures StoredPoints(p, Pieces(p, lead, points)) == Ok(points)
    ensures TextPoints(p, Pieces(p, lead, points)) == Some(points)
    decreases |points|
  {
    if points != [] {
      assert points[0] in points && points == [points[0]] + points[1..];
      PiecesReadBack(p, " ", points[1..]);
      HeadReadsBack(p, lead, points[0], Pieces(p, " ", points[1..]));
    }
  }

  lemma {:induction false} JoinHasNone(p: Platform, points: seq<Point>, c: char)
    requires AreFloats(p, points)
    requires c == '(' || c == ')' || c == ';'
    ensures c !in JoinPoints(p, points)
  {
    if points != [] {
      assert points[0] in points;
      PointHasNone(p, points[0], c);
      if |points| > 1 {
        JoinHasNone(p, points[1..], c);
      }
    }
  }

  lemma LineMarks(inner: string)
    requires '(' !in inner && ')' !in inner && ';' !in inner
    ensures var line := "LINESTRING(" + inner + ")";
      && First(line, ';') == None && First(line, '(') == Some(10) && Last(line, ')') == Some(|line| - 1)
      && line[11..|line| - 1] == inner
  {
    var line := "LINESTRING(" + inner + ")";
    assert line == "LINESTRING" + ("(" + inner + ")");
    FirstPast("LINESTRING", "(" + inner + ")", '(');
    assert ';' !in line;
    FirstPast(line, "", ';');
    assert line + "" == line;
  }

  lemma LineShape(inner: string)
    ensures var line := "LINESTRING(" + inner + ")";
      && Strip(line) == line && Bracketed(line)
      && StartsWithUpper(line, "LINESTRING") && !StartsWithUpper(line, "SRID=")
  {
  }

  lemma {:induction false} MigrationCaptures(inner: string)
    ensures Captured("LINESTRING(" + inner + ")") == Some(inner)
  {
    var line := "LINESTRING(" + inner + ")";
    LineShape(inner);
    var rest := line[10..];
    assert rest == "(" + inner + ")";
    assert StripLeft(rest) == rest && rest[1..|rest| - 1] == inner;
  }

  /** The three readers on printed text. */
  lemma {:induction false} ReadersOf(p: Platform, points: seq<Point>, text: string)
    requires AreFloats(p, points)
    requires AfterSemicolon(text) == PrintLine(p, points)
    requires GeographyWkt(text) == Ok(PrintEwkt(p, points))
    ensures var texts := SplitOn(JoinPoints(p, points), ',');
      && StoredCoordinates(p, text) == StoredPoints(p, texts)
      && PassengerCoordinates(p, text) == TextPoints(p, texts)
      && MigrationCoordinates(p, text) == TextPoints(p, texts)
  {
    var line, inner := PrintLine(p, points), JoinPoints(p, points);
    JoinHasNone(p, points, '(');
    JoinHasNone(p, points, ')');
    JoinHasNone(p, points, ';');
    LineMarks(inner);
    LineShape(inner);
    SridPrefix(line);
    MigrationCaptures(inner);
    assert AfterSemicolon(PrintEwkt(p, points)) == line;
  }

  lemma PrintedIsGeography(p: Platform, points: seq<Point>)
    requires AreFloats(p, points)
    ensures GeographyWkt(PrintLine(p, points)) == Ok(PrintEwkt(p, points))
    ensures GeographyWkt(PrintEwkt(p, points)) == Ok(PrintEwkt(p, points))
    ensures AfterSemicolon(PrintLine(p, points)) == AfterSemicolon(PrintEwkt(p, points)) == PrintLine(p, points)
  {
    JoinHasNone(p, points, '(');
    JoinHasNone(p, points, ')');
    JoinHasNone(p, points, ';');
    LineMarks(JoinPoints(p, points));
    LineShape(JoinPoints(p, points));
    SridPrefix(PrintLine(p, points));
  }

  /** The round trip: whatever non-empty list of floats is printed, with or without the SRID
      prefix, all three readers return that list. */
  lemma PrintedReadsBack(p: Platform, points: seq<Point>, text: string)
    requires points != [] && AreFloats(p, points)
    requires text == PrintLine(p, points) || text == PrintEwkt(p, points)
    ensures StoredCoordinates(p, text) == Ok(points)
    ensures PassengerCoordinates(p, text) == Some(points)
    ensures MigrationCoordinates(p, text) == Some(points)
  {
    PrintedIsGeography(p, points);
    ReadersOf(p, points, text);
    SplitsIntoPieces(p, "", points);
    PiecesReadBack(p, "", points);
    assert "" + JoinPoints(p, points) == JoinPoints(p, points);
  }

  lemma SridPrefix(line: string)
    requires Strip(line) == line && line != ""
    ensures var e := "SRID=4326;" + line;
      && First(e, ';') == Some(9) && e[10..] == line
      && Strip(e) == e && StartsWithUpper(e, "SRID=") && StartsWithUpper(e, "SRID=4326")
  {
    var e := "SRID=4326;" + line;
    assert e == "SRID=4326" + (";" + line);
    FirstPast("SRID=4326", ";" + line, ';');
    StrippedEnd(line);
    assert e[0] == 'S' && e[|e| - 1] == line[|line| - 1];
  }

  lemma {:induction false} StripRightShrinks(s: string)
    ensures |StripRight(s)| <= |s|
    ensures StripRight(s) == s && s != "" ==> !IsSpace(s[|s| - 1])
  {
    if s != "" && IsSpace(s[|s| - 1]) {
      StripRightShrinks(s[..|s| - 1]);
    }
  }

  lemma StrippedEnd(s: string)
    requires Strip(s) == s && s != ""
    ensures !IsSpace(s[0]) && !IsSpace(s[|s| - 1])
  {
    StripLeftShape(s);
    StripRightShrinks(StripLeft(s));
    StripLeftWhole(s);
  }

  lemma {:induction false} StripLeftWhole(s: string)
    ensures |StripLeft(s)| == |s| ==> StripLeft(s) == s
  {
    if s != "" && IsSpace(s[0]) {
      StripLeftShape(s[1..]);
    }
  }
}
