/**
  Whole runs of the log: appends and group commits, ticks, truncations, process
  deaths, crashes that cut unsynced bytes, and reopening.
 */
module WalSystem {
  import opened Basics
  import opened LogPositions
  import opened WalFormat
  import opened WalRecovery
  import opened WalLog
  import opened WalCrash

  /**
    The log, and book-keeping for the statements below: every record appended and
    not lost with the position its caller was given, how many of them truncation has
    removed, how many the acknowledgements so far reach to, and how many appends of the
    current batch wait to be answered.
   */
  datatype System = System(log: Log, appended: seq<Placed>, removed: nat, acked: nat, waiting: nat)

  const NewSystem: System := System(Log([], None), [], 0, 0, 0)

  datatype Step =
    | Append(record: Record)
    | EndBatch(flush: bool)
    | SecondPasses
    | TruncateBefore(segmentId: nat)
    | Shutdown
    | Kill
    | Crash(cuts: seq<nat>)
    | Open

  predicate Enabled(s: System, step: Step) {
    match step
    case Crash(cuts) => ValidCuts(s.log.segments, cuts)
    case Open => s.log.writer.None?
    case _ => Running(s.log)
  }

  /** The record is written where the writer stands, and its caller waits for the batch to end. */
  function Recorded(s: System, r: Record): System
    requires Running(s.log)
  {
    s.(log := Written(s.log, r), appended := s.appended + [Placed(Position(s.log), r)], waiting := s.waiting + 1)
  }

  function Committed(cfg: Config, s: System, flush: bool): System
    requires Running(s.log)
  {
    s.(log := Commit(cfg, s.log, flush), acked := if s.waiting > 0 then |s.appended| else s.acked, waiting := 0)
  }

  function Shortened(s: System, segmentId: nat): System
    requires Running(s.log)
  {
    var kept := KeepFrom(s.log.segments, Cutoff(s.log, segmentId));
    var gone := |AllRecords(s.log.segments)| - |AllRecords(kept)|;
    s.(log := s.log.(segments := kept), removed := if gone < 0 then s.removed else s.removed + gone)
  }

  /** After a crash the log holds what is left in the files, whatever that is. */
  function Crashed(s: System, cuts: seq<nat>): System
    requires ValidCuts(s.log.segments, cuts)
  {
    var segments := CutAll(s.log.segments, cuts);
    var before := if s.removed <= |s.appended| then s.appended[..s.removed] else s.appended;
    var left := before + AllRecords(segments);
    System(Log(segments, None), left, s.removed, if s.acked <= |left| then s.acked else |left|, 0)
  }

  function Next(cfg: Config, s: System, step: Step): System
    requires Enabled(s, step)
  {
    match step
    case Append(r) =>
      if !WalFormat.Fits(r) then s
      else Recorded(s.(log := Prepared(cfg, s.log, r)), r)
    case EndBatch(flush) => Committed(cfg, s, flush)
    case SecondPasses => s.(log := Tick(cfg, s.log))
    case TruncateBefore(segmentId) => Shortened(s, segmentId)
    case Shutdown => var c := Committed(cfg, s, true); c.(log := c.log.(writer := None))
    case Kill => s.(log := s.log.(writer := None), waiting := 0)
    case Crash(cuts) => Crashed(s, cuts)
    case Open =>
      var result := Opened(cfg, s.log.segments);
      if result.Err? then s else s.(log := result.value)
  }

  /** The states of a run: `states[i]` is where `steps[i]` was taken. */
  predicate IsRun(cfg: Config, states: seq<System>, steps: seq<Step>) {
    && |states| == |steps| + 1
    && states[0] == NewSystem
    && forall i :: 0 <= i < |steps| ==> Enabled(states[i], steps[i]) && states[i + 1] == Next(cfg, states[i], steps[i])
  }

  /** No crash met an unsynced sealed segment: by `SurvivesIffSealedSynced`, the crashes the log can survive. */
  predicate CrashesSurvivable(states: seq<System>, steps: seq<Step>)
    requires |states| == |steps| + 1
  {
    forall i :: 0 <= i < |steps| && steps[i].Crash? ==> SealedSynced(states[i].log.segments)
  }

  // ----- Debts ---------------------------------------------------------------------------------

  /** The writer knows of bytes it has not synced. */
  predicate Dirty(log: Log) {
    log.writer.Some? && log.writer.value.dirty
  }

  /** The step leaves the active segment for a fresh one: an append that rolls, or opening onto a full segment. */
  predicate MovesOn(cfg: Config, log: Log, step: Step) {
    match step
    case Append(r) => log.writer.Some? && WalFormat.Fits(r) && MustRoll(cfg, log.writer.value, |Encode(r)|)
    case Open =>
      && log.segments != []
      && Opened(cfg, log.segments).Ok?
      && |Opened(cfg, log.segments).value.segments| > |log.segments|
    case _ => false
  }

  /** A roll syncs the segment it seals if the flag is up, except under `No`. */
  predicate SyncsOnRoll(cfg: Config, log: Log, step: Step) {
    step.Append? && Dirty(log) && !cfg.strategy.No?
  }

  predicate Syncs(cfg: Config, log: Log, step: Step) {
    && Dirty(log)
    && match step
       case EndBatch(flush) => flush || cfg.strategy.Always?
       case SecondPasses => cfg.strategy.Everysec?
       case Shutdown => true
       case _ => false
  }

  /** Whether the active segment is left with unsynced bytes that nobody's flag tells of. */
  predicate OwingAfter(cfg: Config, log: Log, step: Step, owing: bool) {
    match step
    case Kill => owing || Dirty(log)
    case Crash(_) => false
    case _ => owing && !Syncs(cfg, log, step) && !MovesOn(cfg, log, step)
  }

  /** The step moves on from a segment with unsynced bytes, and does not sync them. */
  predicate Neglecting(cfg: Config, log: Log, step: Step, owing: bool) {
    MovesOn(cfg, log, step) && (Dirty(log) || owing) && !SyncsOnRoll(cfg, log, step)
  }

  /** A process died with its flag up, and since then there was no sync, no move to a fresh segment and no crash. */
  predicate Owing(cfg: Config, states: seq<System>, steps: seq<Step>, i: nat)
    requires |states| == |steps| + 1 && i <= |steps|
  {
    i > 0 && OwingAfter(cfg, states[i - 1].log, steps[i - 1], Owing(cfg, states, steps, i - 1))
  }

  predicate Neglects(cfg: Config, states: seq<System>, steps: seq<Step>, i: nat)
    requires |states| == |steps| + 1 && i < |steps|
  {
    Neglecting(cfg, states[i].log, steps[i], Owing(cfg, states, steps, i))
  }

  /** Up to step `n` no segment was sealed with unsynced bytes. */
  predicate Careful(cfg: Config, states: seq<System>, steps: seq<Step>, n: nat)
    requires |states| == |steps| + 1 && n <= |steps|
  {
    forall i :: 0 <= i < n ==> !Neglects(cfg, states, steps, i)
  }

  /** The log is configured to sync, and processes die only with their flag down. */
  predicate CleanDeaths(cfg: Config, states: seq<System>, steps: seq<Step>)
    requires |states| == |steps| + 1
  {
    !cfg.strategy.No? && forall i :: 0 <= i < |steps| && steps[i].Kill? ==> !Dirty(states[i].log)
  }

  // ----- Positions ---------------------------------------------------------------------------

  predicate PositionsIncrease(records: seq<Placed>) {
    forall i, j :: 0 <= i < j < |records| ==> PositionLess(records[i].position, records[j].position)
  }

  predicate IdsIncrease(segments: seq<Segment>) {
    forall i, j :: 0 <= i < j < |segments| ==> segments[i].id < segments[j].id
  }

  lemma OffsetsInSegment(s: Segment)
    ensures PositionsIncrease(RecordsIn(s))
    ensures forall i :: 0 <= i < |RecordsIn(s)| ==> RecordsIn(s)[i].position.segmentId == s.id
  {
    hide Scan, EncodeAll;
    ScanReadsEncoding(s.data);
    var records := RecordsOf(Scan(s.data, 0).records);
    forall i, j | 0 <= i < j < |records| ensures Offset(records, i) < Offset(records, j) {
      OffsetsGrow(records, i, j);
    }
  }

  /** Records of files with increasing ids stand at increasing positions. */
  lemma {:induction false} PositionsInFiles(segments: seq<Segment>)
    requires IdsIncrease(segments)
    ensures PositionsIncrease(AllRecords(segments))
    ensures forall i :: 0 <= i < |AllRecords(segments)| ==>
              segments != [] &&
              segments[0].id <= AllRecords(segments)[i].position.segmentId <= segments[|segments| - 1].id
    decreases |segments|
  {
    hide Replayed, PlacedIn;
    if segments == [] {
      NoFiles();
    } else {
      var n := |segments| - 1;
      FilesLast(segments);
      OffsetsInSegment(segments[n]);
      PositionsInFiles(segments[..n]);
      var front, last := AllRecords(segments[..n]), RecordsIn(segments[n]);
      forall i | 0 <= i < |front| ensures front[i].position.segmentId < segments[n].id {
        assert front[i].position.segmentId <= segments[n - 1].id;
      }
    }
  }

  lemma NoFiles()
    ensures AllRecords([]) == []
  {
  }

  // ----- Order: what every run keeps --------------------------------------------------------------

  /** Truncated records were written before everything still in the files. */
  predicate RemovedOk(s: System) {
    && s.removed <= |s.appended|
    && PositionsIncrease(s.appended[..s.removed])
    && (s.log.segments == [] ==> s.removed == 0)
    && forall i :: 0 <= i < s.removed ==> s.appended[i].position.segmentId < s.log.segments[0].id
  }

  predicate SegmentsOk(segments: seq<Segment>) {
    IdsIncrease(segments) && WellKept(segments)
  }

  /** A segment is over the limit only if it holds a single record. */
  predicate SizeOk(cfg: Config, s: Segment) {
    |s.data| <= cfg.maxSegmentSize || |RecordsIn(s)| <= 1
  }

  predicate SizesOk(cfg: Config, segments: seq<Segment>) {
    forall i :: 0 <= i < |segments| ==> SizeOk(cfg, segments[i])
  }

  predicate WriterOk(log: Log) {
    log.writer.Some? ==>
      && log.segments != []
      && Clean(Active(log))
      && log.writer.value.segmentId == Active(log).id
      && log.writer.value.segmentLen == |Active(log).data|
  }

  predicate OrderInv(cfg: Config, s: System) {
    && SegmentsOk(s.log.segments)
    && SizesOk(cfg, s.log.segments)
    && WriterOk(s.log)
    && RemovedOk(s)
    && AllRecords(s.log.segments) == s.appended[s.removed..]
    && s.acked <= |s.appended|
  }

  /** The scan of a faultless file grows by exactly the record appended to it. */
  lemma AppendedScan(s: Segment, r: Record)
    requires Clean(s) && WalFormat.Fits(r)
    ensures var t := s.(data := s.data + Encode(r));
            Clean(t) && RecordsIn(t) == RecordsIn(s) + [Placed(WalPosition(s.id, |s.data|), r)]
  {
    hide Scan, Encode, EncodeAll;
    ScanReadsEncoding(s.data);
    var records := RecordsOf(Scan(s.data, 0).records);
    assert s.data[..|s.data|] == s.data;
    EncodeAllSnoc(records, r);
    ScanEncoded(records + [r]);
    LocatePrefix(records + [r], |records|);
    assert (records + [r])[..|records|] == records;
  }

  lemma EmptySegment(id: nat)
    ensures Clean(Segment(id, [], 0)) && RecordsIn(Segment(id, [], 0)) == []
  {
  }

  /** The same files with other sync marks hold the same records. */
  lemma SameFiles(a: seq<Segment>, b: seq<Segment>)
    requires Files(a) == Files(b)
    ensures AllRecords(a) == AllRecords(b)
  {
  }

  lemma SyncKeepsOrder(cfg: Config, s: System)
    requires OrderInv(cfg, s) && Running(s.log)
    ensures OrderInv(cfg, s.(log := SyncActive(s.log)))
    ensures Files(SyncActive(s.log).segments) == Files(s.log.segments)
  {
    hide ErrorOf, Replayed, PlacedIn;
    var a, b := s.log.segments, SyncActive(s.log).segments;
    assert |b| == |a| && forall i :: 0 <= i < |a| ==> FileOf(a[i]) == FileOf(b[i]);
    assert forall i :: 0 <= i < |a| ==> RecordsIn(a[i]) == RecordsIn(b[i]);
    assert forall i :: 0 <= i < |a| ==> a[i].id == b[i].id && a[i].data == b[i].data;
    assert Files(a) == Files(b);
    SameFiles(a, b);
  }

  lemma FreshSegmentKeepsOrder(cfg: Config, s: System, id: nat)
    requires OrderInv(cfg, s) && s.log.segments != [] && Clean(Active(s.log)) && id == Active(s.log).id + 1
    ensures OrderInv(cfg, s.(log := Log(s.log.segments + [Segment(id, [], 0)], Some(Writer(id, 0, false)))))
    ensures AllRecords(s.log.segments + [Segment(id, [], 0)]) == AllRecords(s.log.segments)
  {
    hide ErrorOf, Replayed, PlacedIn;
    var last := Segment(id, [], 0);
    var segments := s.log.segments + [last];
    EmptySegment(id);
    FilesLast(segments);
    assert segments[..|segments| - 1] == s.log.segments;
    forall i | 0 <= i < |segments| ensures SizeOk(cfg, segments[i]) {
      if i < |s.log.segments| {
        assert SizeOk(cfg, s.log.segments[i]);
      }
    }
  }

  lemma RollKeepsOrder(cfg: Config, s: System)
    requires OrderInv(cfg, s) && Running(s.log)
    ensures OrderInv(cfg, s.(log := Roll(cfg, s.log)))
  {
    hide ErrorOf, Replayed, PlacedIn;
    SyncKeepsOrder(cfg, s);
    var sealed := if s.log.writer.value.dirty && !cfg.strategy.No? then s.(log := SyncActive(s.log)) else s;
    FreshSegmentKeepsOrder(cfg, sealed, s.log.writer.value.segmentId + 1);
  }

  lemma WrittenKeepsOrder(cfg: Config, s: System, r: Record)
    requires OrderInv(cfg, s) && Running(s.log) && WalFormat.Fits(r) && !MustRoll(cfg, s.log.writer.value, |Encode(r)|)
    ensures OrderInv(cfg, Recorded(s, r))
  {
    hide ErrorOf, Replayed, PlacedIn, Encode;
    var t := Recorded(s, r);
    var a, b := s.log.segments, t.log.segments;
    var n := |a| - 1;
    AppendedScan(a[n], r);
    FilesLast(a);
    FilesLast(b);
    assert b[..n] == a[..n];
    assert t.appended[..t.removed] == s.appended[..s.removed];
    assert t.appended[t.removed..] == s.appended[s.removed..] + [Placed(Position(s.log), r)];
    forall i | 0 <= i < |b| ensures SizeOk(cfg, b[i]) {
      if i < n {
        assert SizeOk(cfg, a[i]);
      } else if s.log.writer.value.segmentLen == 0 {
        EmptyData(a[n]);
      }
    }
    assert forall i :: 0 <= i < n ==> Clean(b[i]);
  }

  lemma EmptyData(s: Segment)
    requires s.data == []
    ensures RecordsIn(s) == []
  {
  }

  lemma AppendKeepsOrder(cfg: Config, s: System, r: Record)
    requires OrderInv(cfg, s) && Running(s.log)
    ensures OrderInv(cfg, Next(cfg, s, Append(r)))
  {
    hide ErrorOf, Replayed, PlacedIn, Encode, OrderInv, Roll, Written;
    if WalFormat.Fits(r) {
      RollKeepsOrder(cfg, s);
      var p := s.(log := Prepared(cfg, s.log, r));
      FreshNeverRolls(cfg, s.log, r);
      WrittenKeepsOrder(cfg, p, r);
    }
  }

  lemma FreshNeverRolls(cfg: Config, log: Log, r: Record)
    requires Running(log)
    ensures !MustRoll(cfg, Prepared(cfg, log, r).writer.value, |Encode(r)|)
  {
  }

  lemma CommitKeepsOrder(cfg: Config, s: System, flush: bool)
    requires OrderInv(cfg, s) && Running(s.log)
    ensures OrderInv(cfg, Committed(cfg, s, flush))
  {
    hide ErrorOf, Replayed, PlacedIn;
    SyncKeepsOrder(cfg, s);
  }

  // ----- Truncation ------------------------------------------------------------------------------

  /** How many leading files lie below the cutoff. */
  function Below(segments: seq<Segment>, cutoff: nat): (k: nat)
    ensures k <= |segments|
  {
    if segments == [] || segments[0].id >= cutoff then 0 else 1 + Below(segments[1..], cutoff)
  }

  lemma {:induction false} BelowSplits(segments: seq<Segment>, cutoff: nat)
    requires IdsIncrease(segments)
    ensures forall i :: 0 <= i < Below(segments, cutoff) ==> segments[i].id < cutoff
    ensures forall i :: Below(segments, cutoff) <= i < |segments| ==> cutoff <= segments[i].id
  {
    if segments != [] && segments[0].id < cutoff {
      var rest := segments[1..];
      assert forall i :: 0 < i < |segments| ==> segments[i] == rest[i - 1];
      BelowSplits(rest, cutoff);
    }
  }

  /** In a directory with increasing ids, keeping from a cutoff drops a prefix. */
  lemma {:induction false} KeepFromIsSuffix(segments: seq<Segment>, cutoff: nat)
    requires IdsIncrease(segments)
    ensures KeepFrom(segments, cutoff) == segments[Below(segments, cutoff)..]
  {
    if segments != [] {
      if segments[0].id < cutoff {
        KeepFromIsSuffix(segments[1..], cutoff);
      } else {
        BelowSplits(segments, cutoff);
        AllKept(segments, cutoff);
      }
    }
  }

  lemma {:induction false} AllKept(segments: seq<Segment>, cutoff: nat)
    requires forall i :: 0 <= i < |segments| ==> cutoff <= segments[i].id
    ensures KeepFrom(segments, cutoff) == segments
  {
    if segments != [] {
      AllKept(segments[1..], cutoff);
    }
  }

  lemma FilesSplit(segments: seq<Segment>, k: nat)
    requires k <= |segments|
    ensures AllRecords(segments) == AllRecords(segments[..k]) + AllRecords(segments[k..])
  {
    hide Replayed;
    ReplayedConcat(Files(segments[..k]), Files(segments[k..]));
    assert Files(segments) == Files(segments[..k]) + Files(segments[k..]);
  }

  lemma SuffixKeepsSegments(cfg: Config, segments: seq<Segment>, k: nat)
    requires SegmentsOk(segments) && SizesOk(cfg, segments) && k < |segments|
    ensures SegmentsOk(segments[k..]) && SizesOk(cfg, segments[k..])
  {
    hide ErrorOf, PlacedIn;
    var kept := segments[k..];
    forall i | 0 <= i < |kept| ensures kept[i] == segments[k + i] && SizeOk(cfg, kept[i]) {
      assert SizeOk(cfg, segments[k + i]);
    }
    assert forall i :: 0 <= i < |kept| - 1 ==> Clean(kept[i]);
    assert kept[|kept| - 1] == segments[|segments| - 1];
  }

  /** The records of the dropped files move from the log to the removed part of the history. */
  lemma TruncatedRecords(s: System, k: nat)
    requires IdsIncrease(s.log.segments) && RemovedOk(s) && AllRecords(s.log.segments) == s.appended[s.removed..]
    requires k < |s.log.segments|
    ensures var gone := |AllRecords(s.log.segments)| - |AllRecords(s.log.segments[k..])|;
            gone >= 0 &&
            var t := s.(log := s.log.(segments := s.log.segments[k..]), removed := s.removed + gone);
            RemovedOk(t) && AllRecords(t.log.segments) == t.appended[t.removed..]
  {
    hide Replayed, Files;
    var a := s.log.segments;
    FilesSplit(a, k);
    var gone := AllRecords(a[..k]);
    var removed := s.removed + |gone|;
    assert s.appended[removed..] == s.appended[s.removed..][|gone|..];
    assert s.appended[..removed] == s.appended[..s.removed] + gone;
    PositionsInFiles(a[..k]);
    RemovedPositions(s, gone);
    forall i | 0 <= i < removed ensures s.appended[i].position.segmentId < a[k].id {
      if i >= s.removed {
        assert s.appended[i] == gone[i - s.removed];
        assert gone[i - s.removed].position.segmentId <= a[..k][k - 1].id;
      } else {
        assert s.appended[i].position.segmentId < a[0].id;
      }
    }
  }

  lemma TruncateKeepsOrder(cfg: Config, s: System, segmentId: nat)
    requires OrderInv(cfg, s) && Running(s.log)
    ensures OrderInv(cfg, Shortened(s, segmentId))
    ensures Running(Shortened(s, segmentId).log) && Active(Shortened(s, segmentId).log) == Active(s.log)
  {
    hide ErrorOf, Replayed, Files, SizesOk, RemovedOk, KeepFrom, PositionsIncrease;
    var cutoff := Cutoff(s.log, segmentId);
    var k := Below(s.log.segments, cutoff);
    KeepFromIsSuffix(s.log.segments, cutoff);
    BelowSplits(s.log.segments, cutoff);
    TruncatedRecords(s, k);
    SuffixKeepsSegments(cfg, s.log.segments, k);
  }

  lemma RemovedPositions(s: System, gone: seq<Placed>)
    requires RemovedOk(s) && PositionsIncrease(gone)
    requires gone != [] ==> s.log.segments != []
    requires forall i :: 0 <= i < |gone| ==> s.log.segments[0].id <= gone[i].position.segmentId
    ensures PositionsIncrease(s.appended[..s.removed] + gone)
  {
  }

  // ----- Crashes and opening -------------------------------------------------------------------------

  lemma CutKeepsSegments(cfg: Config, segments: seq<Segment>, cuts: seq<nat>)
    requires SegmentsOk(segments) && SizesOk(cfg, segments) && SealedSynced(segments) && ValidCuts(segments, cuts)
    ensures SegmentsOk(CutAll(segments, cuts)) && SizesOk(cfg, CutAll(segments, cuts))
  {
    hide ErrorOf, PlacedIn, Fault;
    var left := CutAll(segments, cuts);
    forall i | 0 <= i < |segments| - 1 ensures FileOf(left[i]) == FileOf(segments[i]) && Clean(left[i]) {
      WholeCut(segments[i]);
      assert Clean(segments[i]);
    }
    if segments != [] {
      LastAfterCrash(segments[|segments| - 1], cuts[|segments| - 1]);
    }
    forall i | 0 <= i < |left| ensures SizeOk(cfg, left[i]) {
      assert SizeOk(cfg, segments[i]);
    }
  }

  lemma CrashKeepsOrder(cfg: Config, s: System, cuts: seq<nat>)
    requires OrderInv(cfg, s) && ValidCuts(s.log.segments, cuts) && SealedSynced(s.log.segments)
    ensures OrderInv(cfg, Crashed(s, cuts))
    ensures AllRecords(Crashed(s, cuts).log.segments) <= AllRecords(s.log.segments)
  {
    hide SegmentsOk, SizesOk, SealedSynced, AllRecords, PositionsIncrease, ValidCuts, WellKept;
    var t := Crashed(s, cuts);
    assert t.appended[..t.removed] == s.appended[..s.removed];
    assert t.appended[t.removed..] == AllRecords(t.log.segments);
    assert t.log.segments != [] ==> t.log.segments[0].id == s.log.segments[0].id;
    CutKeepsSegments(cfg, s.log.segments, cuts);
    OrderIsKept(cfg, s);
    SealedSyncedSurvives(s.log.segments, cuts);
  }

  lemma OrderIsKept(cfg: Config, s: System)
    requires OrderInv(cfg, s)
    ensures WellKept(s.log.segments)
  {
    hide WellKept, SizesOk, RemovedOk, AllRecords;
  }

  lemma OpenKeepsOrder(cfg: Config, s: System)
    requires OrderInv(cfg, s) && s.log.writer.None?
    ensures OrderInv(cfg, Next(cfg, s, Open))
    ensures cfg.maxSegmentSize > HEADER_LEN ==> Opened(cfg, s.log.segments).Ok?
    ensures AllRecords(Next(cfg, s, Open).log.segments) == AllRecords(s.log.segments)
  {
    hide ErrorOf, Replayed, PlacedIn, Repaired, Files, SizesOk, RemovedOk, Recovered;
    var a := s.log.segments;
    NothingToForgive(a);
    if cfg.maxSegmentSize > HEADER_LEN {
      if a == [] {
        FirstOpenKeepsOrder(cfg, s);
      } else {
        var n := |a| - 1;
        var last := RepairedSegment(a[n]);
        var writer := Some(Writer(last.id, |last.data|, false));
        RepairKeepsOrder(cfg, s);
        var repaired := s.(log := Log(a[..n] + [last], writer));
        if |last.data| >= cfg.maxSegmentSize {
          FreshSegmentKeepsOrder(cfg, repaired, last.id + 1);
        }
      }
    }
  }

  lemma FirstOpenKeepsOrder(cfg: Config, s: System)
    requires OrderInv(cfg, s) && s.log.segments == []
    ensures OrderInv(cfg, s.(log := Log([Segment(1, [], 0)], Some(Writer(1, 0, false)))))
    ensures AllRecords([Segment(1, [], 0)]) == AllRecords([])
  {
    hide ErrorOf, Replayed, PlacedIn;
    NoFiles();
    EmptySegment(1);
    var first := [Segment(1, [], 0)];
    FilesLast(first);
    assert first[..0] == [];
  }

  lemma NothingToForgive(segments: seq<Segment>)
    requires SegmentsOk(segments)
    ensures Recovered(Files(segments)).Ok?
  {
    hide ErrorOf;
    var files := Files(segments);
    FirstFaultNone(files);
    forall i | 0 <= i < |files| ensures Fault(files[i], i == |files| - 1).None? {
      assert files[i] == FileOf(segments[i]);
      assert i < |segments| - 1 ==> Clean(segments[i]);
    }
  }

  lemma RepairKeepsOrder(cfg: Config, s: System)
    requires OrderInv(cfg, s) && s.log.segments != []
    ensures var n := |s.log.segments| - 1;
            var last := RepairedSegment(s.log.segments[n]);
            OrderInv(cfg, s.(log := Log(s.log.segments[..n] + [last], Some(Writer(last.id, |last.data|, false))))) &&
            AllRecords(s.log.segments[..n] + [last]) == AllRecords(s.log.segments)
  {
    hide ErrorOf, Replayed, PlacedIn, Repaired;
    var a := s.log.segments;
    var n := |a| - 1;
    var last := RepairedSegment(a[n]);
    var b := a[..n] + [last];
    RepairShortens(FileOf(a[n]));
    RepairedIsClean(FileOf(a[n]));
    assert FileOf(last) == Repaired(FileOf(a[n]));
    FilesLast(a);
    FilesLast(b);
    assert b[..n] == a[..n];
    forall i | 0 <= i < |b| ensures SizeOk(cfg, b[i]) {
      assert SizeOk(cfg, a[i]);
    }
    assert forall i :: 0 <= i < n ==> Clean(b[i]);
  }

  lemma RepairShortens(file: SegmentFile)
    ensures |Repaired(file).data| <= |file.data| && Repaired(file).id == file.id
  {
  }

  /** Every step keeps the order invariant, provided a crash meets no unsynced sealed segment. */
  lemma StepKeepsOrder(cfg: Config, s: System, step: Step)
    requires OrderInv(cfg, s) && Enabled(s, step) && (step.Crash? ==> SealedSynced(s.log.segments))
    ensures OrderInv(cfg, Next(cfg, s, step))
  {
    hide ErrorOf, Replayed, PlacedIn, SegmentsOk, SizesOk, Files;
    match step
    case Append(r) => AppendKeepsOrder(cfg, s, r);
    case EndBatch(flush) => CommitKeepsOrder(cfg, s, flush);
    case SecondPasses => SyncKeepsOrder(cfg, s);
    case TruncateBefore(segmentId) => TruncateKeepsOrder(cfg, s, segmentId);
    case Shutdown => CommitKeepsOrder(cfg, s, true);
    case Kill =>
    case Crash(cuts) => CrashKeepsOrder(cfg, s, cuts);
    case Open => OpenKeepsOrder(cfg, s);
  }

  // ----- Where records and files go, by lengths and ids ------------------------------------------------

  /**
    A record goes to the end of the active file, unless that file holds something and the
    record with its header would take it over the limit; then it begins the next file.
   */
  lemma AppendGoesTo(cfg: Config, s: System, r: Record)
    requires OrderInv(cfg, s) && Running(s.log) && WalFormat.Fits(r)
    ensures var file, t := Active(s.log), Next(cfg, s, Append(r));
            var full := |file.data| > 0 && |file.data| + 13 + |r.payload| > cfg.maxSegmentSize;
            var position := if full then WalPosition(file.id + 1, 0) else WalPosition(file.id, |file.data|);
            t.appended == s.appended + [Placed(position, r)] &&
            |t.log.segments| == |s.log.segments| + (if full then 1 else 0)
  {
    hide SegmentsOk, SizesOk, RemovedOk, AllRecords, Encode;
    EncodedLength(r);
  }

  /** Truncation leaves exactly the files from the given one on, and the active one. */
  lemma TruncateLeaves(cfg: Config, s: System, segmentId: nat)
    requires OrderInv(cfg, s) && Running(s.log)
    ensures forall file :: file in Shortened(s, segmentId).log.segments <==>
              file in s.log.segments && (segmentId <= file.id || file == Active(s.log))
  {
    hide SizesOk, RemovedOk, AllRecords, KeepFrom, WellKept;
    var a, cutoff := s.log.segments, Cutoff(s.log, segmentId);
    KeepFromIsSuffix(a, cutoff);
    BelowSplits(a, cutoff);
    var k, n := Below(a, cutoff), |a| - 1;
    forall file ensures file in a[k..] <==> file in a && (segmentId <= file.id || file == a[n]) {
      if file in a[k..] {
        var i :| 0 <= i < |a[k..]| && a[k..][i] == file;
        assert a[k + i] == file;
      }
      if file in a && (segmentId <= file.id || file == a[n]) {
        var i :| 0 <= i < |a| && a[i] == file;
        assert i >= k;
        assert a[k..][i - k] == file;
      }
    }
  }

  /** A writer opens in the first file of an empty directory, else where the last file ends, or in the next if it is full. */
  lemma OpenContinues(cfg: Config, s: System)
    requires OrderInv(cfg, s) && s.log.writer.None? && cfg.maxSegmentSize > 13
    ensures var t := Next(cfg, s, Open).log;
            Running(t) && !Dirty(t) && t.writer.value.segmentId == Active(t).id &&
            t.writer.value.segmentLen == |Active(t).data| &&
            if s.log.segments == [] then Active(t).id == 1 && Active(t).data == []
            else
              var last := s.log.segments[|s.log.segments| - 1];
              var kept := |Repaired(FileOf(last)).data|;
              if kept < cfg.maxSegmentSize then Active(t).id == last.id && |Active(t).data| == kept
              else Active(t).id == last.id + 1 && Active(t).data == []
  {
    hide SizesOk, RemovedOk, AllRecords, Recovered, Repaired, Files, Clean;
    OpenKeepsOrder(cfg, s);
  }
}
