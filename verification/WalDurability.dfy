/**
  Durability of group commit and order of the segmented log, over whole runs.
 */
module WalDurability {
  import opened Basics
  import opened LogPositions
  import opened WalFormat
  import opened WalRecovery
  import opened WalLog
  import opened WalCrash
  import opened WalSystem

  /** How many of the records in the files no crash can take. */
  function SafeRecords(segments: seq<Segment>): nat
    requires segments != [] ==> segments[|segments| - 1].synced <= |segments[|segments| - 1].data|
  {
    if segments == [] then 0
    else
      var n := |segments| - 1;
      |AllRecords(segments[..n])| + |RecordsIn(CutTo(segments[n], segments[n].synced))|
  }

  /**
    Sealed segments are on disk; so is the last one unless the writer's flag or an unpaid
    debt says otherwise. Under `Always` whoever waits has the flag up, and every
    acknowledged record is safe.
   */
  predicate SyncInv(cfg: Config, s: System, owing: bool)
    requires OrderInv(cfg, s)
  {
    && SealedSynced(s.log.segments)
    && (LastSynced(s.log.segments) <==> !owing && !Dirty(s.log))
    && (cfg.strategy.Always? ==>
          (s.waiting > 0 ==> Dirty(s.log)) && s.acked <= s.removed + SafeRecords(s.log.segments))
  }

  lemma AllSafeWhenSynced(segments: seq<Segment>)
    requires LastSynced(segments)
    ensures SafeRecords(segments) == |AllRecords(segments)|
  {
    hide Replayed, PlacedIn;
    if segments == [] {
      NoFiles();
    } else {
      FilesLast(segments);
      WholeCut(segments[|segments| - 1]);
    }
  }

  lemma OrderBounds(cfg: Config, s: System)
    requires OrderInv(cfg, s)
    ensures s.acked <= |s.appended| == s.removed + |AllRecords(s.log.segments)|
    ensures forall i :: 0 <= i < |s.log.segments| ==> s.log.segments[i].synced <= |s.log.segments[i].data|
  {
  }

  /** Syncing the active segment makes every record safe. */
  lemma SyncMakesSafe(cfg: Config, s: System, owing: bool)
    requires OrderInv(cfg, s) && SyncInv(cfg, s, owing) && Running(s.log)
    ensures OrderInv(cfg, s.(log := SyncActive(s.log)))
    ensures SealedSynced(SyncActive(s.log).segments) && LastSynced(SyncActive(s.log).segments)
    ensures SafeRecords(SyncActive(s.log).segments) == |AllRecords(s.log.segments)|
  {
    hide Replayed, PlacedIn, ErrorOf, OrderInv, Files;
    OrderBounds(cfg, s);
    SyncKeepsOrder(cfg, s);
    SameFiles(s.log.segments, SyncActive(s.log).segments);
    AllSafeWhenSynced(SyncActive(s.log).segments);
  }

  /** A roll that pays what is owed leaves everything on disk. */
  lemma RollSyncs(cfg: Config, s: System, owing: bool)
    requires OrderInv(cfg, s) && SyncInv(cfg, s, owing) && Running(s.log)
    requires (Dirty(s.log) || owing) ==> Dirty(s.log) && !cfg.strategy.No?
    ensures var t := s.(log := Roll(cfg, s.log));
            OrderInv(cfg, t) && SealedSynced(t.log.segments) && LastSynced(t.log.segments) &&
            SafeRecords(t.log.segments) == |AllRecords(s.log.segments)|
  {
    hide Replayed, PlacedIn, ErrorOf, OrderInv, Files;
    RollKeepsOrder(cfg, s);
    var t := s.(log := Roll(cfg, s.log));
    OrderBounds(cfg, s);
    OrderBounds(cfg, t);
    AllSafeWhenSynced(t.log.segments);
  }

  lemma WrittenKeepsSync(cfg: Config, s: System, r: Record, owing: bool)
    requires OrderInv(cfg, s) && Running(s.log)
    requires WalFormat.Fits(r) && !MustRoll(cfg, s.log.writer.value, |Encode(r)|)
    requires SealedSynced(s.log.segments)
    requires cfg.strategy.Always? ==> s.acked <= s.removed + SafeRecords(s.log.segments)
    ensures OrderInv(cfg, Recorded(s, r)) && SyncInv(cfg, Recorded(s, r), owing)
    ensures SafeRecords(Recorded(s, r).log.segments) == SafeRecords(s.log.segments)
  {
    hide Replayed, PlacedIn, ErrorOf, OrderInv, Files, Encode;
    WrittenKeepsOrder(cfg, s, r);
    OrderBounds(cfg, s);
    EncodedLength(r);
    var a, b := s.log.segments, Written(s.log, r).segments;
    var n := |a| - 1;
    assert b[..n] == a[..n];
    assert b[n].data[..b[n].synced] == a[n].data[..a[n].synced];
    assert CutTo(b[n], b[n].synced) == CutTo(a[n], a[n].synced);
  }

  lemma AppendKeepsSync(cfg: Config, s: System, r: Record, owing: bool)
    requires OrderInv(cfg, s) && SyncInv(cfg, s, owing) && Running(s.log)
    requires !Neglecting(cfg, s.log, Append(r), owing)
    ensures OrderInv(cfg, Next(cfg, s, Append(r)))
    ensures SyncInv(cfg, Next(cfg, s, Append(r)), OwingAfter(cfg, s.log, Append(r), owing))
    ensures SafeRecords(Next(cfg, s, Append(r)).log.segments) ==
            if MovesOn(cfg, s.log, Append(r)) then |AllRecords(s.log.segments)| else SafeRecords(s.log.segments)
  {
    hide Replayed, PlacedIn, ErrorOf, OrderInv, Encode, Roll, Written, SafeRecords, SealedSynced, LastSynced;
    if WalFormat.Fits(r) {
      OrderBounds(cfg, s);
      if MustRoll(cfg, s.log.writer.value, |Encode(r)|) {
        RollSyncs(cfg, s, owing);
      }
      FreshNeverRolls(cfg, s.log, r);
      WrittenKeepsSync(cfg, s.(log := Prepared(cfg, s.log, r)), r, OwingAfter(cfg, s.log, Append(r), owing));
    }
  }

  lemma CommitKeepsSync(cfg: Config, s: System, flush: bool, owing: bool)
    requires OrderInv(cfg, s) && SyncInv(cfg, s, owing) && Running(s.log)
    ensures OrderInv(cfg, Committed(cfg, s, flush))
    ensures SyncInv(cfg, Committed(cfg, s, flush), OwingAfter(cfg, s.log, EndBatch(flush), owing))
  {
    hide Replayed, PlacedIn, ErrorOf, OrderInv, Files, SafeRecords;
    CommitKeepsOrder(cfg, s, flush);
    OrderBounds(cfg, s);
    SyncMakesSafe(cfg, s, owing);
  }

  lemma TickKeepsSync(cfg: Config, s: System, owing: bool)
    requires OrderInv(cfg, s) && SyncInv(cfg, s, owing) && Running(s.log)
    ensures OrderInv(cfg, Next(cfg, s, SecondPasses))
    ensures SyncInv(cfg, Next(cfg, s, SecondPasses), OwingAfter(cfg, s.log, SecondPasses, owing))
  {
    hide Replayed, PlacedIn, ErrorOf, OrderInv, Files, SafeRecords;
    SyncKeepsOrder(cfg, s);
    SyncMakesSafe(cfg, s, owing);
  }

  lemma TruncateKeepsSync(cfg: Config, s: System, segmentId: nat, owing: bool)
    requires OrderInv(cfg, s) && SyncInv(cfg, s, owing) && Running(s.log)
    ensures OrderInv(cfg, Shortened(s, segmentId))
    ensures SyncInv(cfg, Shortened(s, segmentId), owing)
    ensures Shortened(s, segmentId).removed + SafeRecords(Shortened(s, segmentId).log.segments) ==
            s.removed + SafeRecords(s.log.segments)
  {
    hide Replayed, PlacedIn, ErrorOf, Files, KeepFrom;
    var a, t := s.log.segments, Shortened(s, segmentId);
    var cutoff := Cutoff(s.log, segmentId);
    var k := Below(a, cutoff);
    TruncateKeepsOrder(cfg, s, segmentId);
    KeepFromIsSuffix(a, cutoff);
    BelowSplits(a, cutoff);
    var n := |a| - 1;
    assert k <= n;
    var b := a[k..];
    assert b == t.log.segments;
    FilesLast(a);
    FilesLast(b);
    FilesSplit(a[..n], k);
    assert a[..n][k..] == b[..|b| - 1];
    assert a[..n][..k] == a[..k];
    FilesSplit(a, k);
    assert b[|b| - 1] == a[n];
  }

  lemma CrashKeepsSync(cfg: Config, s: System, cuts: seq<nat>, owing: bool)
    requires OrderInv(cfg, s) && SyncInv(cfg, s, owing) && ValidCuts(s.log.segments, cuts)
    ensures OrderInv(cfg, Crashed(s, cuts))
    ensures SyncInv(cfg, Crashed(s, cuts), false)
    ensures cfg.strategy.Always? ==> Crashed(s, cuts).acked == s.acked
  {
    hide Replayed, PlacedIn, ErrorOf, OrderInv, Files;
    var t := Crashed(s, cuts);
    CrashKeepsOrder(cfg, s, cuts);
    OrderBounds(cfg, s);
    OrderBounds(cfg, t);
    AllSafeWhenSynced(t.log.segments);
    SafeStaysSafe(cfg, s, cuts);
  }

  /** A crash leaves at least the safe records. */
  lemma SafeStaysSafe(cfg: Config, s: System, cuts: seq<nat>)
    requires OrderInv(cfg, s) && SealedSynced(s.log.segments) && ValidCuts(s.log.segments, cuts)
    ensures SafeRecords(s.log.segments) <= |AllRecords(CutAll(s.log.segments, cuts))|
  {
    hide Replayed, PlacedIn, ErrorOf;
    var a := s.log.segments;
    if a != [] {
      var n := |a| - 1;
      OnlyTailLost(a, cuts);
      if Clean(a[n]) {
        CutKeepsPrefix(a[n], a[n].synced, cuts[n]);
      }
    }
  }

  lemma OpenKeepsSync(cfg: Config, s: System, owing: bool)
    requires OrderInv(cfg, s) && SyncInv(cfg, s, owing) && s.log.writer.None? && !Neglecting(cfg, s.log, Open, owing)
    ensures OrderInv(cfg, Next(cfg, s, Open))
    ensures SyncInv(cfg, Next(cfg, s, Open), OwingAfter(cfg, s.log, Open, owing))
    ensures SafeRecords(Next(cfg, s, Open).log.segments) == SafeRecords(s.log.segments)
  {
    hide Replayed, PlacedIn, ErrorOf, OrderInv, Files, Repaired, SafeRecords, Recovered, Clean;
    OpenKeepsOrder(cfg, s);
    OrderBounds(cfg, s);
    var a, t := s.log.segments, Next(cfg, s, Open);
    OrderBounds(cfg, t);
    if LastSynced(a) {
      if a != [] {
        RepairShortens(FileOf(a[|a| - 1]));
      }
      AllSafeWhenSynced(a);
      AllSafeWhenSynced(t.log.segments);
    } else {
      UnsyncedIsClean(cfg, s);
      CleanNeedsNoRepair(a[|a| - 1]);
      assert t.log.segments == a;
    }
  }

  /** Every step that leaves no unsynced bytes behind keeps both invariants, and the debt stays exact. */
  lemma StepKeepsSync(cfg: Config, s: System, step: Step, owing: bool)
    requires OrderInv(cfg, s) && SyncInv(cfg, s, owing) && Enabled(s, step) && !Neglecting(cfg, s.log, step, owing)
    ensures OrderInv(cfg, Next(cfg, s, step))
    ensures SyncInv(cfg, Next(cfg, s, step), OwingAfter(cfg, s.log, step, owing))
  {
    hide ErrorOf, Replayed, PlacedIn, SegmentsOk, SizesOk, Files, SafeRecords, SealedSynced, LastSynced;
    match step
    case Append(r) => AppendKeepsSync(cfg, s, r, owing);
    case EndBatch(flush) => CommitKeepsSync(cfg, s, flush, owing);
    case SecondPasses => TickKeepsSync(cfg, s, owing);
    case TruncateBefore(segmentId) => TruncateKeepsSync(cfg, s, segmentId, owing);
    case Shutdown => CommitKeepsSync(cfg, s, true, owing);
    case Kill =>
    case Crash(cuts) => CrashKeepsSync(cfg, s, cuts, owing);
    case Open => OpenKeepsSync(cfg, s, owing);
  }

  lemma NewSystemOk(cfg: Config)
    ensures OrderInv(cfg, NewSystem)
    ensures SyncInv(cfg, NewSystem, false)
  {
    NoFiles();
  }

  lemma {:induction false} RunKeepsOrder(cfg: Config, states: seq<System>, steps: seq<Step>, i: nat)
    requires IsRun(cfg, states, steps) && CrashesSurvivable(states, steps) && i <= |steps|
    ensures OrderInv(cfg, states[i])
  {
    hide OrderInv, Next, Enabled, SealedSynced;
    if i == 0 {
      NewSystemOk(cfg);
    } else {
      RunKeepsOrder(cfg, states, steps, i - 1);
      StepKeepsOrder(cfg, states[i - 1], steps[i - 1]);
    }
  }

  /** As long as a run is careful, its flags and deaths tell exactly which bytes are on disk. */
  lemma {:induction false} RunKeepsSync(cfg: Config, states: seq<System>, steps: seq<Step>, i: nat)
    requires IsRun(cfg, states, steps) && i <= |steps| && Careful(cfg, states, steps, i)
    ensures OrderInv(cfg, states[i])
    ensures SyncInv(cfg, states[i], Owing(cfg, states, steps, i))
  {
    hide OrderInv, SyncInv, Next, OwingAfter, Neglecting;
    if i == 0 {
      NewSystemOk(cfg);
    } else {
      RunKeepsSync(cfg, states, steps, i - 1);
      assert !Neglects(cfg, states, steps, i - 1);
      StepKeepsSync(cfg, states[i - 1], steps[i - 1], Owing(cfg, states, steps, i - 1));
    }
  }

  // ----- When a run survives every crash ----------------------------------------------------------

  /** Moving on from unsynced bytes leaves a sealed segment a crash can break. */
  lemma NeglectUnseals(cfg: Config, s: System, step: Step, owing: bool)
    requires OrderInv(cfg, s) && SyncInv(cfg, s, owing) && Enabled(s, step) && Neglecting(cfg, s.log, step, owing)
    ensures OrderInv(cfg, Next(cfg, s, step))
    ensures !SealedSynced(Next(cfg, s, step).log.segments)
  {
    hide ErrorOf, Replayed, PlacedIn, SizesOk, Files, SafeRecords, Encode, Recovered, Repaired, RemovedOk;
    StepKeepsOrder(cfg, s, step);
    var n := |s.log.segments| - 1;
    var t := Next(cfg, s, step).log.segments;
    if step.Open? {
      CleanNeedsNoRepair(s.log.segments[n]);
    }
    assert t[n] == s.log.segments[n] && n < |t| - 1;
  }

  lemma CleanNeedsNoRepair(s: Segment)
    requires Clean(s) && s.synced <= |s.data|
    ensures RepairedSegment(s) == s
  {
    hide Scan;
  }

  /** Wherever a run stands, whatever a crash takes, recovery succeeds and yields a prefix of the log. */
  ghost predicate SurvivesEveryCrash(states: seq<System>) {
    forall i, cuts :: 0 <= i < |states| && ValidCuts(states[i].log.segments, cuts) ==>
      Survived(states[i].log.segments, cuts)
  }

  /**
    Exactly when a log survives: no roll and no opening onto a full segment met bytes
    that were unsynced, except a roll that saw the flag up and was configured to sync.
   */
  lemma RunSurvivesIff(cfg: Config, states: seq<System>, steps: seq<Step>)
    requires IsRun(cfg, states, steps)
    ensures SurvivesEveryCrash(states) <==> Careful(cfg, states, steps, |steps|)
  {
    hide OrderInv, Next, Neglecting, OwingAfter, Owing, SealedSynced, Survived;
    if Careful(cfg, states, steps, |steps|) {
      forall i, cuts | 0 <= i < |states| && ValidCuts(states[i].log.segments, cuts)
        ensures Survived(states[i].log.segments, cuts)
      {
        RunKeepsSync(cfg, states, steps, i);
        OrderIsKept(cfg, states[i]);
        SurvivesIffSealedSynced(states[i].log.segments);
      }
    } else {
      var i := FirstNeglect(cfg, states, steps, |steps|);
      RunKeepsSync(cfg, states, steps, i);
      NeglectUnseals(cfg, states[i], steps[i], Owing(cfg, states, steps, i));
      OrderIsKept(cfg, states[i + 1]);
      SurvivesIffSealedSynced(states[i + 1].log.segments);
    }
  }

  lemma {:induction false} FirstNeglect(cfg: Config, states: seq<System>, steps: seq<Step>, n: nat) returns (i: nat)
    requires |states| == |steps| + 1 && n <= |steps| && !Careful(cfg, states, steps, n)
    ensures i < n && Neglects(cfg, states, steps, i) && Careful(cfg, states, steps, i)
  {
    if Careful(cfg, states, steps, n - 1) {
      i := n - 1;
    } else {
      i := FirstNeglect(cfg, states, steps, n - 1);
    }
  }

  // ----- What group commit promises ---------------------------------------------------------------

  /**
    Durability of group commit: wherever a careful run stands, every crash is survived.
    Recovery succeeds and yields a prefix of the records still in the log; under `Always`
    that prefix holds every acknowledged record, whatever processes died before.
   */
  lemma GroupCommitIsDurable(cfg: Config, states: seq<System>, steps: seq<Step>, i: nat, cuts: seq<nat>)
    requires IsRun(cfg, states, steps) && i <= |steps| && Careful(cfg, states, steps, i)
    requires ValidCuts(states[i].log.segments, cuts)
    ensures var s := states[i];
            var left := CutAll(s.log.segments, cuts);
            Recovered(Files(left)).Ok? &&
            s.removed <= |s.appended| && Replayed(Recovered(Files(left)).value.files) <= s.appended[s.removed..] &&
            (cfg.strategy.Always? ==> s.acked <= s.removed + |Replayed(Recovered(Files(left)).value.files)|)
  {
    hide ErrorOf, PlacedIn, Files, Recovered, CutAll, Replayed, SegmentsOk;
    RunKeepsSync(cfg, states, steps, i);
    var s := states[i];
    CrashKeepsSync(cfg, s, cuts, Owing(cfg, states, steps, i));
    CrashKeepsOrder(cfg, s, cuts);
    var t := Crashed(s, cuts);
    NothingToForgive(t.log.segments);
    RecoveredIsClean(Files(t.log.segments));
  }

  /** A step meant to leave all on disk: a flush and a shutdown, a batch under `Always`, a tick under `Everysec`. */
  predicate SyncsAll(cfg: Config, step: Step) {
    match step
    case EndBatch(flush) => flush || cfg.strategy.Always?
    case SecondPasses => cfg.strategy.Everysec?
    case Shutdown => true
    case _ => false
  }

  /** No crash can take anything: recovery yields every record not truncated. */
  ghost predicate NothingToLose(s: System) {
    && s.removed <= |s.appended|
    && forall cuts :: ValidCuts(s.log.segments, cuts) ==>
         Recovered(Files(CutAll(s.log.segments, cuts))).Ok? &&
         Replayed(Recovered(Files(CutAll(s.log.segments, cuts))).value.files) == s.appended[s.removed..]
  }

  /**
    After such a step nothing can be lost, unless a dead process left unsynced bytes and
    the flag is down: then the step syncs nothing, and a crash can take a record.
   */
  lemma SyncLosesNothing(cfg: Config, states: seq<System>, steps: seq<Step>, i: nat)
    requires IsRun(cfg, states, steps) && i < |steps| && Careful(cfg, states, steps, i) && SyncsAll(cfg, steps[i])
    ensures NothingToLose(states[i + 1]) <==> Dirty(states[i].log) || !Owing(cfg, states, steps, i)
  {
    hide OrderInv, Next, Owing, NothingToLose, SealedSynced, LastSynced, SafeRecords, Dirty;
    RunKeepsSync(cfg, states, steps, i);
    var owing := Owing(cfg, states, steps, i);
    SyncingStep(cfg, states[i], steps[i], owing);
    NothingToLoseIff(cfg, states[i + 1], OwingAfter(cfg, states[i].log, steps[i], owing));
  }

  lemma SyncingStep(cfg: Config, s: System, step: Step, owing: bool)
    requires OrderInv(cfg, s) && SyncInv(cfg, s, owing) && Enabled(s, step) && SyncsAll(cfg, step)
    ensures OrderInv(cfg, Next(cfg, s, step)) && SyncInv(cfg, Next(cfg, s, step), OwingAfter(cfg, s.log, step, owing))
    ensures LastSynced(Next(cfg, s, step).log.segments) <==> Dirty(s.log) || !owing
  {
    hide OrderInv, SafeRecords, SealedSynced;
    StepKeepsSync(cfg, s, step, owing);
  }

  lemma UnsyncedIsClean(cfg: Config, s: System)
    requires OrderInv(cfg, s) && !LastSynced(s.log.segments)
    ensures Clean(s.log.segments[|s.log.segments| - 1])
  {
  }

  lemma NothingToLoseIff(cfg: Config, s: System, owing: bool)
    requires OrderInv(cfg, s) && SyncInv(cfg, s, owing)
    ensures NothingToLose(s) <==> LastSynced(s.log.segments)
  {
    hide ErrorOf, PlacedIn, Files, Recovered, Replayed, SegmentsOk, SizesOk, AllRecords, Clean, CutAll;
    forall cuts | ValidCuts(s.log.segments, cuts)
      ensures var left := Files(CutAll(s.log.segments, cuts));
              Recovered(left).Ok? && Replayed(Recovered(left).value.files) == AllRecords(CutAll(s.log.segments, cuts))
      ensures LastSynced(s.log.segments) ==> AllRecords(CutAll(s.log.segments, cuts)) == s.appended[s.removed..]
    {
      CrashKeepsOrder(cfg, s, cuts);
      SafeStaysSafe(cfg, s, cuts);
      if LastSynced(s.log.segments) {
        AllSafeWhenSynced(s.log.segments);
      }
      var t := Crashed(s, cuts);
      NothingToForgive(t.log.segments);
      RecoveredIsClean(Files(t.log.segments));
      AllRecordsAre(t.log.segments);
    }
    if !LastSynced(s.log.segments) {
      OrderBounds(cfg, s);
      var n := |s.log.segments| - 1;
      var cuts := LoseLastByte(s.log.segments, n);
      assert ValidCuts(s.log.segments, cuts);
      UnsyncedIsClean(cfg, s);
      LastByteMatters(s.log.segments[n]);
      OnlyTailLost(s.log.segments, cuts);
      FilesLast(s.log.segments);
    }
  }

  lemma AllRecordsAre(segments: seq<Segment>)
    ensures AllRecords(segments) == Replayed(Files(segments))
  {
  }

  /**
    Order of the segmented log: replay yields exactly the appended records that truncation
    has not removed, in order and at the positions their callers were given; positions
    strictly increase; only single-record segments exceed the limit; and the active
    segment is always among the files.
   */
  lemma LogIsOrdered(cfg: Config, states: seq<System>, steps: seq<Step>, i: nat)
    requires IsRun(cfg, states, steps) && CrashesSurvivable(states, steps) && i <= |steps|
    ensures var s := states[i];
            Recovered(Files(s.log.segments)).Ok? &&
            s.removed <= |s.appended| && Replayed(Files(s.log.segments)) == s.appended[s.removed..] &&
            PositionsIncrease(s.appended) &&
            (forall j :: 0 <= j < |s.log.segments| ==>
               |s.log.segments[j].data| <= cfg.maxSegmentSize || |PlacedIn(FileOf(s.log.segments[j]))| <= 1) &&
            (s.log.writer.Some? ==> s.log.segments != [] && Active(s.log).id == s.log.writer.value.segmentId)
  {
    hide ErrorOf, PlacedIn, Recovered, Replayed;
    RunKeepsOrder(cfg, states, steps, i);
    var s := states[i];
    NothingToForgive(s.log.segments);
    PositionsInFiles(s.log.segments);
    var kept := AllRecords(s.log.segments);
    if kept != [] {
      assert s.log.segments[0].id <= kept[0].position.segmentId;
    }
    RemovedPositions(s, kept);
    assert s.appended == s.appended[..s.removed] + s.appended[s.removed..];
    assert forall j :: 0 <= j < |s.log.segments| ==> SizeOk(cfg, s.log.segments[j]);
  }

  /** Careful runs meet only survivable crashes, so the order results hold of them as well. */
  lemma CarefulRunsSurvive(cfg: Config, states: seq<System>, steps: seq<Step>)
    requires IsRun(cfg, states, steps) && Careful(cfg, states, steps, |steps|)
    ensures CrashesSurvivable(states, steps)
  {
    hide OrderInv, Next, Enabled, SealedSynced, Neglects;
    forall i | 0 <= i < |steps| ensures SealedSynced(states[i].log.segments) {
      RunKeepsSync(cfg, states, steps, i);
    }
  }

  lemma CleanStep(cfg: Config, s: System, step: Step)
    requires !cfg.strategy.No? && Enabled(s, step) && (step.Kill? ==> !Dirty(s.log))
    ensures !Neglecting(cfg, s.log, step, false) && !OwingAfter(cfg, s.log, step, false)
  {
    hide Opened;
  }

  /** With a syncing strategy and processes that die only when nothing is left to sync, every run is careful. */
  lemma {:induction false} CleanDeathsAreCareful(cfg: Config, states: seq<System>, steps: seq<Step>, n: nat)
    requires |states| == |steps| + 1 && n <= |steps| && CleanDeaths(cfg, states, steps)
    requires forall i :: 0 <= i < |steps| ==> Enabled(states[i], steps[i])
    ensures Careful(cfg, states, steps, n) && !Owing(cfg, states, steps, n)
  {
    hide Syncs, OwingAfter, Neglecting, Enabled;
    if n > 0 {
      CleanDeathsAreCareful(cfg, states, steps, n - 1);
      CleanStep(cfg, states[n - 1], steps[n - 1]);
    }
  }

  // ----- Where durability fails ---------------------------------------------------------------------

  /** A record that fills a segment of the smallest allowed size. */
  const Full: Record := Record(Put, [0])

  const Tiny: Config := Config(14, Always)

  function OpenedOnce(): Log {
    Log([Segment(1, [], 0)], Some(Writer(1, 0, false)))
  }

  /**
    A process that dies with unsynced bytes leaves them unsynced for good: reopening
    starts from a clean flag. If the file is full, the next writer seals it by moving on,
    and a later crash can then leave a log that recovery refuses, even under `Always`.
   */
  lemma DirtyDeathIsUnsafe()
    ensures Opened(Tiny, []) == Ok(OpenedOnce())
    ensures var written := AppendTo(Tiny, OpenedOnce(), Full);
            written.writer.value.dirty && Opened(Tiny, written.segments).Ok? &&
            var again := Opened(Tiny, written.segments).value;
            AllClean(again.segments) && !SealedSynced(again.segments) &&
            exists cuts :: ValidCuts(again.segments, cuts) && Recovered(Files(CutAll(again.segments, cuts))).Err?
  {
    hide Encode, Opened, Recovered;
    EmptyDirectoryOpens();
    WrittenOnce(Tiny);
    FullSegmentReopens();
    var again := Opened(Tiny, [Unsynced(1)]).value;
    SealedLoss(again.segments);
  }

  /** One record written and not synced. */
  function Unsynced(id: nat): Segment {
    Segment(id, Encode(Full), 0)
  }

  lemma EmptyDirectoryOpens()
    ensures Opened(Tiny, []) == Ok(OpenedOnce())
  {
  }

  lemma WrittenOnce(cfg: Config)
    ensures var written := AppendTo(cfg, OpenedOnce(), Full);
            written == Log([Unsynced(1)], Some(Writer(1, |Encode(Full)|, true)))
  {
    hide Encode;
    assert [] + Encode(Full) == Encode(Full);
  }

  lemma FullIsClean(id: nat)
    ensures Clean(Unsynced(id)) && |Unsynced(id).data| == 14
  {
    hide Encode, ErrorOf;
    EncodedLength(Full);
    EmptySegment(id);
    AppendedScan(Segment(id, [], 0), Full);
    assert [] + Encode(Full) == Encode(Full);
  }

  lemma FullSegmentReopens()
    ensures var again := Opened(Tiny, [Unsynced(1)]);
            again.Ok? && again.value.segments == [Unsynced(1), Segment(2, [], 0)] && AllClean(again.value.segments) &&
            |again.value.segments[0].data| == 14
  {
    hide Encode, ErrorOf, Recovered;
    FullIsClean(1);
    EmptySegment(2);
    NothingToForgive([Unsynced(1)]);
    CleanNeedsNoRepair(Unsynced(1));
  }

  /** Under `No` a full segment is sealed without a sync. */
  lemma NoStrategyIsUnsafe()
    ensures var cfg := Tiny.(strategy := No);
            var written := AppendTo(cfg, AppendTo(cfg, OpenedOnce(), Full), Full);
            AllClean(written.segments) && !SealedSynced(written.segments) &&
            exists cuts :: ValidCuts(written.segments, cuts) && Recovered(Files(CutAll(written.segments, cuts))).Err?
  {
    hide Encode, ErrorOf, Recovered;
    var cfg := Tiny.(strategy := No);
    WrittenOnce(cfg);
    FullIsClean(1);
    FullIsClean(2);
    var written := AppendTo(cfg, AppendTo(cfg, OpenedOnce(), Full), Full);
    assert [] + Encode(Full) == Encode(Full);
    assert written.segments == [Unsynced(1), Unsynced(2)];
    SealedLoss(written.segments);
  }

  /** An unsynced first segment of two can lose its last byte. */
  lemma SealedLoss(segments: seq<Segment>)
    requires AllClean(segments) && |segments| == 2 && segments[0].synced < |segments[0].data| &&
             segments[1].synced <= |segments[1].data|
    ensures !SealedSynced(segments)
    ensures exists cuts :: ValidCuts(segments, cuts) && Recovered(Files(CutAll(segments, cuts))).Err?
  {
    hide ErrorOf, Replayed;
    var cuts := LoseLastByte(segments, 0);
    assert ValidCuts(segments, cuts);
    LastByteMatters(segments[0]);
    var files := Files(CutAll(segments, cuts));
    assert files[0] == FileOf(CutTo(segments[0], cuts[0]));
    FirstFaultNone(files);
    assert Fault(files[0], 0 == |files| - 1).Some?;
  }
}
