/** The stores that ingestion reaches: in each of them the keys that the reads rest on hold, and both
    reads of the advice context parse to the same segments, with no condition left. */
module IngestedStores {
  import opened Common
  import opened Sorting
  import opened Schema
  import opened Readers
  import opened Staging
  import opened StagingProofs
  import opened Lifecycle
  import opened Sequences
  import opened Joins
  import opened ReadKeys
  import opened AdviceContext
  import opened Polyline
  import opened DirectionNames
  import opened CanonicalRows
  import opened Snapshots
  import opened ClosedExports

  // ---- services are numbered apart -----------------------------------------------------------------------

  ghost predicate SequencesDiffer(services: seq<SourceService>) {
    forall i, j | 0 <= i < j < |services| :: services[i].sequence != services[j].sequence
  }

  ghost predicate AllDiffer(snapshots: seq<Snapshot>) {
    forall i | 0 <= i < |snapshots| :: SequencesDiffer(snapshots[i].services)
  }

  lemma OrderedSequencesDiffer(services: seq<SourceService>)
    requires SequencesDiffer(services)
    ensures SequencesDiffer(Ordered(services))
  {
    var ordered := Ordered(services);
    SortByDistinct(services, BySequence);
    forall i, j | 0 <= i < j < |ordered| ensures ordered[i].sequence != ordered[j].sequence {
      var a :| 0 <= a < |services| && services[a] == ordered[i];
      var b :| 0 <= b < |services| && services[b] == ordered[j];
    }
  }

  /** The services of each version are numbered apart. */
  ghost predicate NumberedByVersion(rows: seq<Row<Service>>) {
    forall i, j | 0 <= i < j < |rows| && rows[i].cols.versionId == rows[j].cols.versionId ::
      rows[i].cols.sequence != rows[j].cols.sequence
  }

  lemma PartIsNumbered(p: Platform, earth: Earth, uuid4: nat -> Id, next: nat, s: Snapshot, part: Part)
    requires earth.longest > 0.0 && IsPart(p, earth, uuid4, next, s, part) && SequencesDiffer(s.services)
    ensures NumberedByVersion(part.services)
    ensures forall k | 0 <= k < |part.services| :: part.services[k].cols.versionId == part.version.id
  {
    OrderedSequencesDiffer(s.services);
  }

  lemma NumberedBoth(a: seq<Row<Service>>, b: seq<Row<Service>>, v: Id)
    requires NumberedByVersion(a) && NumberedByVersion(b)
    requires forall i | 0 <= i < |a| :: a[i].cols.versionId != v
    requires forall k | 0 <= k < |b| :: b[k].cols.versionId == v
    ensures NumberedByVersion(a + b)
  {
  }

  lemma {:induction false} PartsAreNumbered(p: Platform, earth: Earth, uuid4: nat -> Id, snapshots: seq<Snapshot>,
      parts: seq<Part>)
    requires earth.longest > 0.0 && Injective(uuid4) && Clean(p, earth, snapshots) && AllDiffer(snapshots)
    requires AreParts(p, earth, uuid4, snapshots, parts)
    ensures NumberedByVersion(WithParts(parts).services)
  {
    if parts != [] {
      var n := |parts| - 1;
      var before, next := WithParts(parts[..n]), PartsEnd(parts[..n]);
      PartsAreNumbered(p, earth, uuid4, snapshots, parts[..n]);
      PartsWell(p, earth, uuid4, snapshots, parts[..n]);
      VersionIsNew(uuid4, next, before.versions, parts[n].version);
      PartIsNumbered(p, earth, uuid4, next, snapshots[n], parts[n]);
      NumberedBoth(before.services, parts[n].services, parts[n].version.id);
    }
  }

  lemma OneVersionOf(directions: seq<Row<DirectionInfo>>, d: Id, v: Id, w: Id)
    requires DistinctIds(directions) && HasDirection(directions, d, v) && HasDirection(directions, d, w)
    ensures v == w
  {
  }

  /** A direction has the services of one version only. */
  lemma NumberedIsApart(p: Platform, e: Export)
    requires WellFormed(p, e) && NumberedByVersion(e.services)
    ensures NumberedApart(e.services)
  {
    forall i, j | 0 <= i < j < |e.services| ensures !SameNumber(e.services[i].cols, e.services[j].cols) {
      var a, b := e.services[i], e.services[j];
      assert a in e.services && b in e.services;
      if SameNumber(a.cols, b.cols) {
        OneVersionOf(e.directions, a.cols.directionId.value, a.cols.versionId, b.cols.versionId);
      }
    }
  }

  // ---- ingested exports ------------------------------------------------------------------------------------

  /** An export made from clean snapshots whose services are numbered apart. */
  ghost predicate FromSnapshots(p: Platform, earth: Earth, e: Export)
    requires earth.longest > 0.0
  {
    exists uuid4, snapshots, parts :: AreParts(p, earth, uuid4, snapshots, parts)
      && |parts| == |snapshots| && e == WithParts(parts)
      && Injective(uuid4) && Clean(p, earth, snapshots) && AllDiffer(snapshots)
  }

  lemma IngestedExport(p: Platform, earth: Earth, e: Export)
    requires earth.longest > 0.0 && FromSnapshots(p, earth, e)
    ensures WellFormed(p, e) && NumberedApart(e.services) && GeometriesPlain(e.segments)
  {
    var uuid4, snapshots, parts :| AreParts(p, earth, uuid4, snapshots, parts)
      && |parts| == |snapshots| && e == WithParts(parts)
      && Injective(uuid4) && Clean(p, earth, snapshots) && AllDiffer(snapshots);
    ExportIsWellFormed(p, earth, uuid4, snapshots, parts);
    PartsAreNumbered(p, earth, uuid4, snapshots, parts);
    NumberedIsApart(p, e);
    PartsRead(p, earth, uuid4, snapshots, parts);
  }

  /** Whatever is staged comes from ingestion. */
  ghost predicate IngestedSteps(p: Platform, earth: Earth, steps: seq<Step>)
    requires earth.longest > 0.0
  {
    forall step | step in steps && step.Stage? :: FromSnapshots(p, earth, step.rows)
  }

  lemma IngestedStepsAre(p: Platform, earth: Earth, steps: seq<Step>)
    requires earth.longest > 0.0 && IngestedSteps(p, earth, steps)
    ensures WellFormedSteps(p, steps)
    ensures forall step | step in steps && step.Stage? ::
      NumberedApart(step.rows.services) && GeometriesPlain(step.rows.segments)
  {
    forall step | step in steps && step.Stage?
      ensures WellFormed(p, step.rows) && NumberedApart(step.rows.services) && GeometriesPlain(step.rows.segments)
    {
      IngestedExport(p, earth, step.rows);
    }
  }

  // ---- runs over them ----------------------------------------------------------------------------------------

  ghost predicate SegmentsPlain(segments: map<Id, Segment>) {
    forall s | s in segments :: Plain(segments[s].geometry)
  }

  lemma FewerStayPlain(before: map<Id, Segment>, after: map<Id, Segment>)
    requires SegmentsPlain(before) && Fewer(before, after)
    ensures SegmentsPlain(after)
  {
  }

  lemma MoreStayPlain(before: map<Id, Segment>, rows: seq<Row<Segment>>, after: map<Id, Segment>)
    requires SegmentsPlain(before) && GeometriesPlain(rows) && Grown(before, rows, after)
    ensures SegmentsPlain(after)
  {
    forall s | s in after ensures Plain(after[s].geometry) {
      if s !in before {
        assert Row(s, after[s]) in rows;
      }
    }
  }

  lemma StepStaysPlain(p: Platform, db: Db, step: Step)
    requires SegmentsPlain(db.segments) && (step.Stage? ==> GeometriesPlain(step.rows.segments))
    ensures SegmentsPlain(Apply(p, db, step).0.segments)
  {
    if step.Stage? {
      if Accepts(p, db, step.g, step.rows) {
        StagedExtends(p, db, step.g, step.rows);
        MoreStayPlain(db.segments, step.rows.segments, Staged(p, db, step.g, step.rows).segments);
      }
    } else {
      OthersAddNone(p, db, step);
      FewerStayPlain(db.segments, Apply(p, db, step).0.segments);
    }
  }

  lemma {:induction false} RunStaysPlain(p: Platform, steps: seq<Step>)
    requires forall step | step in steps && step.Stage? :: GeometriesPlain(step.rows.segments)
    ensures SegmentsPlain(Run(p, EMPTY, steps).segments)
  {
    if steps != [] {
      var init, last := steps[..|steps| - 1], steps[|steps| - 1];
      assert last in steps;
      RunStaysPlain(p, init);
      StepStaysPlain(p, Run(p, EMPTY, init), last);
    }
  }

  /** In every store that ingestion reaches, the keys hold under which each one-join read agrees with the
      reads it replaced. */
  lemma {:induction false} IngestedKeysHold(p: Platform, earth: Earth, steps: seq<Step>)
    requires earth.longest > 0.0 && IngestedSteps(p, earth, steps)
    ensures KeysHold(Run(p, EMPTY, steps))
  {
    IngestedStepsAre(p, earth, steps);
    ReachableKeysHold(p, steps);
  }

  lemma {:induction false} PlainIsBracketed(rows: seq<Row<Segment>>)
    requires GeometriesPlain(rows)
    ensures AllBracketed(Mapped(rows, Raw))
  {
    if rows != [] {
      assert rows[0] in rows;
      PlainIsBracketed(rows[1..]);
      assert Mapped(rows, Raw)[1..] == Mapped(rows[1..], Raw);
    }
  }

  lemma ReadIsPlain(db: Db, v: Id, d: Id, rows: seq<Row<Segment>>)
    requires SegmentsPlain(db.segments) && AdviceContext.SegmentRows(db, v, d, rows)
    ensures GeometriesPlain(rows)
  {
    forall row | row in rows ensures Plain(row.cols.geometry) {
      var s: Id := row.id;
      assert s in db.segments && db.segments[s] == row.cols;
    }
  }

  lemma {:induction false} SplitIsBracketed(db: Db, route: Id, v: Id, d: Id, raw: seq<SegmentRow>)
    requires SegmentsPlain(db.segments) && IsSplitAnswer(db, route, v, d, Okay, raw)
    ensures AllBracketed(raw)
  {
    var rows :| AdviceContext.SegmentRows(db, v, d, rows) && raw == Mapped(rows, Raw);
    ReadIsPlain(db, v, d, rows);
    PlainIsBracketed(rows);
  }

  /** In every store that ingestion reaches, the joined and the split read of the advice context give the
      same status and parse to the same segments, those of the direction's column. */
  lemma {:induction false} IngestedReadsAgree(p: Platform, earth: Earth, steps: seq<Step>, db: Db, route: Id, v: Id,
      d: Id, joined: ContextStatus, reprinted: seq<SegmentRow>, split: ContextStatus, raw: seq<SegmentRow>)
    requires earth.longest > 0.0 && IngestedSteps(p, earth, steps) && db == Run(p, EMPTY, steps)
    requires SoundCodec(p) && TakesOnlyLines(p)
    requires IsJoinedAnswer(p, db, route, v, d, joined, reprinted) && IsSplitAnswer(db, route, v, d, split, raw)
    ensures joined == split
    ensures joined == Okay ==> ParsedAll(p, reprinted) == ParsedAll(p, raw) == Some(db.directions[d].advice)
  {
    IngestedStepsAre(p, earth, steps);
    ReachableStoreInv(p, steps);
    RunStaysPlain(p, steps);
    ContextReadsAgree(p, db, route, v, d, joined, reprinted, split, raw);
    if joined == Okay {
      SplitIsBracketed(db, route, v, d, raw);
    }
  }
}
