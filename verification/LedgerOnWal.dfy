/**
  The ledger on its log. Each step of the ledger is carried out by steps of the
  segmented log, and as long as the log seals no segment with unsynced bytes, it does
  what the ledger's steps say of it: the theorems about ledger runs hold of ledgers on
  real segment files.
 */
module LedgerOnWal {
  import opened Basics
  import opened LogPositions
  import opened LedgerModel
  import opened LedgerIndexes
  import opened LedgerOps
  import opened LedgerInvariant
  import opened LedgerSystem
  import opened LedgerRecovery
  import opened LedgerExamples
  import WalFormat
  import WalRecovery
  import WalLog
  import WalCrash
  import W = WalSystem
  import D = WalDurability

  /** What the ledger reads from a log record. */
  type Decoder = WalFormat.Record -> RecordKind

  function Entries(decode: Decoder, records: seq<WalRecovery.Placed>): (r: seq<Entry>)
    ensures |r| == |records|
  {
    seq(|records|, i requires 0 <= i < |records| => Entry(records[i].position, decode(records[i].record)))
  }

  lemma EntriesConcat(decode: Decoder, a: seq<WalRecovery.Placed>, b: seq<WalRecovery.Placed>)
    ensures Entries(decode, a + b) == Entries(decode, a) + Entries(decode, b)
  {
  }

  lemma EntriesPrefix(decode: Decoder, a: seq<WalRecovery.Placed>, b: seq<WalRecovery.Placed>)
    requires a <= b
    ensures Entries(decode, a) == Entries(decode, b)[..|a|]
  {
  }

  function ActiveId(segments: seq<WalLog.Segment>): nat {
    if segments == [] then 1 else segments[|segments| - 1].id
  }

  /** The log behaved so far: its records are in order, and exactly the bytes told of are not yet on disk. */
  predicate Sound(wal: WalLog.Config, w: W.System, owing: bool) {
    W.OrderInv(wal, w) && D.SyncInv(wal, w, owing)
  }

  /** The ledger's log is what the segment files hold; its durable part is what no crash can take. */
  predicate SameLog(wal: WalLog.Config, decode: Decoder, s: System, w: W.System)
    requires W.OrderInv(wal, w)
  {
    && s.disk.wal == Entries(decode, WalCrash.AllRecords(w.log.segments))
    && s.disk.active == ActiveId(w.log.segments)
    && |s.history| == |w.appended|
    && s.synced == w.removed + D.SafeRecords(w.log.segments)
    && s.dirty == W.Dirty(w.log)
    && (s.memory.Up? <==> w.log.writer.Some?)
  }

  /** Whoever the ledger answered, the log had answered before. */
  predicate SameAnswers(s: System, w: W.System) {
    w.waiting == 0 && forall i :: w.acked <= i < |s.history| ==> !s.history[i].told
  }

  // ----- One log step -------------------------------------------------------------------------

  lemma AppendShown(wal: WalLog.Config, decode: Decoder, s: System, w: W.System, owing: bool, record: WalFormat.Record,
                    entry: Logged)
    requires Sound(wal, w, owing) && SameLog(wal, decode, s, w) && s.memory.Up?
    requires WalFormat.Fits(record) && decode(record) == entry.kind
    requires !W.Neglecting(wal, w.log, W.Append(record), owing)
    ensures var position := WalLog.Position(WalLog.Prepared(wal, w.log, record));
            CanAppend(wal.strategy, s, position) &&
            W.OrderInv(wal, W.Next(wal, w, W.Append(record))) &&
            SameLog(wal, decode, Append(wal.strategy, s, position, entry), W.Next(wal, w, W.Append(record)))
  {
    hide WalRecovery.Replayed, WalRecovery.PlacedIn, WalRecovery.ErrorOf, WalFormat.Encode, D.SafeRecords,
         WalLog.Files, W.SegmentsOk, W.SizesOk, W.RemovedOk;
    var t := W.Next(wal, w, W.Append(record));
    D.AppendKeepsSync(wal, w, record, owing);
    D.OrderBounds(wal, w);
    var position := WalLog.Position(WalLog.Prepared(wal, w.log, record));
    var placed := WalRecovery.Placed(position, record);
    var before := WalCrash.AllRecords(w.log.segments);
    assert t.appended == w.appended + [placed] && t.removed == w.removed;
    assert t.appended[t.removed..] == w.appended[w.removed..] + [placed];
    EntriesConcat(decode, before, [placed]);
    LastComesBefore(wal, decode, t, before, placed);
    if W.MovesOn(wal, w.log, W.Append(record)) {
      if WalCrash.LastSynced(w.log.segments) {
        D.AllSafeWhenSynced(w.log.segments);
      }
    }
  }

  lemma LastComesBefore(wal: WalLog.Config, decode: Decoder, t: W.System, before: seq<WalRecovery.Placed>,
                        placed: WalRecovery.Placed)
    requires W.OrderInv(wal, t) && WalCrash.AllRecords(t.log.segments) == before + [placed]
    ensures before != [] ==> PositionLess(Entries(decode, before)[|before| - 1].position, placed.position)
  {
    hide WalRecovery.Replayed, WalRecovery.PlacedIn, WalRecovery.ErrorOf, WalLog.Files;
    W.PositionsInFiles(t.log.segments);
    var all := before + [placed];
    assert before != [] ==> PositionLess(all[|before| - 1].position, all[|before|].position);
  }

  /** A batch ends: the ledger's log is flushed if asked or under `Always`. */
  lemma CommitShown(wal: WalLog.Config, decode: Decoder, s: System, w: W.System, owing: bool, flush: bool)
    requires Sound(wal, w, owing) && SameLog(wal, decode, s, w) && s.memory.Up?
    ensures var t := W.Committed(wal, w, flush);
            W.OrderInv(wal, t) &&
            SameLog(wal, decode, if flush || wal.strategy.Always? then Flushed(s) else s, t)
  {
    hide WalRecovery.Replayed, WalRecovery.PlacedIn, WalRecovery.ErrorOf, D.SafeRecords, W.SegmentsOk, W.SizesOk,
         W.RemovedOk, WalLog.Files;
    W.CommitKeepsOrder(wal, w, flush);
    W.SyncKeepsOrder(wal, w);
    W.SameFiles(w.log.segments, WalLog.SyncActive(w.log).segments);
    D.SyncMakesSafe(wal, w, owing);
    D.OrderBounds(wal, w);
  }

  lemma TickShown(wal: WalLog.Config, decode: Decoder, s: System, w: W.System, owing: bool)
    requires Sound(wal, w, owing) && SameLog(wal, decode, s, w) && s.memory.Up? && wal.strategy.Everysec?
    ensures var t := W.Next(wal, w, W.SecondPasses);
            W.OrderInv(wal, t) && SameLog(wal, decode, Flushed(s), t)
  {
    hide WalRecovery.Replayed, WalRecovery.PlacedIn, WalRecovery.ErrorOf, D.SafeRecords, W.SegmentsOk, W.SizesOk,
         W.RemovedOk, WalLog.Files;
    W.SyncKeepsOrder(wal, w);
    W.SameFiles(w.log.segments, WalLog.SyncActive(w.log).segments);
    D.SyncMakesSafe(wal, w, owing);
    D.OrderBounds(wal, w);
  }

  lemma KillShown(wal: WalLog.Config, decode: Decoder, s: System, w: W.System, owing: bool)
    requires Sound(wal, w, owing) && SameLog(wal, decode, s, w) && s.memory.Up?
    ensures W.OrderInv(wal, W.Next(wal, w, W.Kill)) && SameLog(wal, decode, Stopped(s), W.Next(wal, w, W.Kill))
  {
    hide WalCrash.AllRecords, D.SafeRecords, W.SegmentsOk, W.SizesOk;
  }

  // ----- Truncation --------------------------------------------------------------------------------

  lemma {:induction false} KeptDropsFront(front: seq<Entry>, back: seq<Entry>, cutoff: nat)
    requires forall i :: 0 <= i < |front| ==> front[i].position.segmentId < cutoff
    requires forall i :: 0 <= i < |back| ==> cutoff <= back[i].position.segmentId
    ensures Kept(front + back, cutoff) == back
    decreases |front| + |back|
  {
    var all := front + back;
    if front != [] {
      assert all[1..] == front[1..] + back;
      KeptDropsFront(front[1..], back, cutoff);
    } else if back != [] {
      assert all == back;
      KeptDropsFront([], back[1..], cutoff);
      assert [] + back[1..] == back[1..];
    }
  }

  /** Dropping the files below the cutoff drops exactly the ledger's entries below it. */
  lemma KeptEntries(decode: Decoder, segments: seq<WalLog.Segment>, cutoff: nat)
    requires W.IdsIncrease(segments)
    ensures var kept := WalLog.KeepFrom(segments, cutoff);
            Kept(Entries(decode, WalCrash.AllRecords(segments)), cutoff) ==
            Entries(decode, WalCrash.AllRecords(kept))
  {
    hide WalCrash.AllRecords, WalLog.KeepFrom, Kept;
    var k := W.Below(segments, cutoff);
    W.KeepFromIsSuffix(segments, cutoff);
    W.BelowSplits(segments, cutoff);
    W.FilesSplit(segments, k);
    var below, above := segments[..k], segments[k..];
    var gone, kept := WalCrash.AllRecords(below), WalCrash.AllRecords(above);
    EntriesConcat(decode, gone, kept);
    W.PositionsInFiles(below);
    W.PositionsInFiles(above);
    forall i | 0 <= i < |gone| ensures Entries(decode, gone)[i].position.segmentId < cutoff {
      assert gone[i].position.segmentId <= below[k - 1].id;
    }
    forall i | 0 <= i < |kept| ensures cutoff <= Entries(decode, kept)[i].position.segmentId {
      assert above[0].id <= kept[i].position.segmentId;
    }
    KeptDropsFront(Entries(decode, gone), Entries(decode, kept), cutoff);
  }

  lemma TruncateShown(wal: WalLog.Config, decode: Decoder, s: System, w: W.System, owing: bool, segmentId: nat)
    requires Sound(wal, w, owing) && SameLog(wal, decode, s, w) && s.memory.Up?
    ensures var t := W.Shortened(w, segmentId);
            var cutoff := if segmentId < s.disk.active then segmentId else s.disk.active;
            W.OrderInv(wal, t) && SameLog(wal, decode, s.(disk := s.disk.(wal := Kept(s.disk.wal, cutoff))), t)
  {
    hide WalCrash.AllRecords, WalLog.KeepFrom, D.SafeRecords, W.SizesOk, W.RemovedOk, Kept, WalCrash.WellKept,
         WalCrash.Clean;
    W.TruncateKeepsOrder(wal, w, segmentId);
    D.TruncateKeepsSync(wal, w, segmentId, owing);
    KeptEntries(decode, w.log.segments, WalLog.Cutoff(w.log, segmentId));
  }

  // ----- Crashes and opening ---------------------------------------------------------------------------

  lemma CrashShown(wal: WalLog.Config, decode: Decoder, s: System, w: W.System, owing: bool, cuts: seq<nat>)
    requires Sound(wal, w, owing) && SameLog(wal, decode, s, w) && WalLog.ValidCuts(w.log.segments, cuts)
    ensures var t := W.Crashed(w, cuts);
            var keep := w.removed + |WalCrash.AllRecords(t.log.segments)|;
            s.synced <= keep <= |s.history| && W.OrderInv(wal, t) && SameLog(wal, decode, Lost(s, keep), t)
  {
    hide WalRecovery.Replayed, WalRecovery.PlacedIn, WalRecovery.ErrorOf, WalLog.Files, D.SafeRecords, W.SegmentsOk,
         W.SizesOk, W.RemovedOk;
    var t := W.Crashed(w, cuts);
    W.CrashKeepsOrder(wal, w, cuts);
    D.OrderBounds(wal, w);
    D.OrderBounds(wal, t);
    D.SafeStaysSafe(wal, w, cuts);
    D.AllSafeWhenSynced(t.log.segments);
    EntriesPrefix(decode, WalCrash.AllRecords(t.log.segments), WalCrash.AllRecords(w.log.segments));
  }

  lemma OpenShown(wal: WalLog.Config, decode: Decoder, s: System, w: W.System, owing: bool)
    requires Sound(wal, w, owing) && SameLog(wal, decode, s, w) && s.memory.Down? && Opened(s.disk).error.None?
    requires wal.maxSegmentSize > WalFormat.HEADER_LEN && !W.Neglecting(wal, w.log, W.Open, owing)
    ensures var t := W.Next(wal, w, W.Open);
            var roll := W.MovesOn(wal, w.log, W.Open);
            (roll ==> s.synced == |s.history|) && W.OrderInv(wal, t) && SameLog(wal, decode, Reopened(s, roll), t)
  {
    hide WalRecovery.Replayed, WalRecovery.PlacedIn, WalRecovery.ErrorOf, WalRecovery.Recovered, WalRecovery.Repaired,
         WalLog.Files, D.SafeRecords, W.SegmentsOk, W.SizesOk, W.RemovedOk, Opened, Uncovered;
    W.OpenKeepsOrder(wal, w);
    D.OpenKeepsSync(wal, w, owing);
    D.OrderBounds(wal, w);
    if WalCrash.LastSynced(w.log.segments) {
      D.AllSafeWhenSynced(w.log.segments);
    }
    if w.log.segments != [] {
      W.RepairShortens(WalLog.FileOf(w.log.segments[|w.log.segments| - 1]));
    }
  }

  // ----- One ledger step ----------------------------------------------------------------------------------

  /** A step of the ledger and the steps of the log that carried it out. */
  datatype Move = Move(step: Step, log: seq<W.Step>)

  /** The log step appends a record that reads back as the planned one, and this is the place it is given. */
  predicate Writes(wal: WalLog.Config, decode: Decoder, log: WalLog.Log, kind: RecordKind, position: WalPosition,
                   step: W.Step)
  {
    && step.Append?
    && WalLog.Running(log)
    && WalFormat.Fits(step.record)
    && decode(step.record) == kind
    && position == WalLog.Position(WalLog.Prepared(wal, log, step.record))
  }

  function Truncation(watermark: Option<WalPosition>): seq<W.Step> {
    match watermark
    case None => []
    case Some(p) => [W.TruncateBefore(p.segmentId + 1)]
  }

  /**
    What the ledger does to its log: an operation appends and waits for the batch to end,
    a snapshot flushes and then truncates, and so on. Only what concerns the requests is
    demanded beside it: fresh identifiers, a current watermark. An operation that writes
    nothing may carry any position the log could hand out.
   */
  ghost predicate CarriedOut(cfg: Config, wal: WalLog.Config, decode: Decoder, s: System, log: WalLog.Log, m: Move) {
    match m.step
    case Do(op, inp, position) =>
      && s.memory.Up?
      && NeverUsed(s.history, inp.newId)
      && var plan := PlanOf(cfg, s.memory.index, op, inp);
         if plan.Persist? then
           |m.log| == 2 && Writes(wal, decode, log, plan.kind, position, m.log[0]) && m.log[1] == W.EndBatch(false)
         else m.log == [] && CanAppend(wal.strategy, s, position)
    case DieDuring(op, inp, position, flushed) =>
      && s.memory.Up?
      && NeverUsed(s.history, inp.newId)
      && var plan := PlanOf(cfg, s.memory.index, op, inp);
         if plan.Persist? then
           && m.log != []
           && Writes(wal, decode, log, plan.kind, position, m.log[0])
           && m.log[1..] == (if flushed then [W.EndBatch(true)] else []) + [W.Kill]
         else m.log == [W.Kill] && CanAppend(wal.strategy, s, position)
    case Sync =>
      s.memory.Up? && (m.log == [W.EndBatch(true)] || (m.log == [W.SecondPasses] && wal.strategy.Everysec?))
    case Stop(flushed) => s.memory.Up? && m.log == [if flushed then W.Shutdown else W.Kill]
    case TakeSnapshot(state) =>
      && WatermarkCurrent(s.memory)
      && Collected(s.memory.index, state)
      && m.log == [W.EndBatch(true)] + Truncation(s.memory.lastWalPosition)
    case Crash(keep) =>
      && |m.log| == 1
      && m.log[0].Crash?
      && WalLog.ValidCuts(log.segments, m.log[0].cuts)
      && keep == Removed(s) + |WalCrash.AllRecords(WalLog.CutAll(log.segments, m.log[0].cuts))|
    case Reopen(roll) =>
      && s.memory.Down?
      && wal.maxSegmentSize > WalFormat.HEADER_LEN
      && m.log == [W.Open]
      && roll == W.MovesOn(wal, log, W.Open)
  }

  predicate Shows(wal: WalLog.Config, decode: Decoder, s: System, w: W.System) {
    W.OrderInv(wal, w) && SameLog(wal, decode, s, w) && SameAnswers(s, w)
  }

  lemma LogStep(wal: WalLog.Config, states: seq<W.System>, all: seq<W.Step>, i: nat, n: nat)
    requires W.IsRun(wal, states, all) && i < n <= |all| && W.Careful(wal, states, all, n)
    ensures |states| == |all| + 1
    ensures W.Enabled(states[i], all[i]) && states[i + 1] == W.Next(wal, states[i], all[i])
    ensures Sound(wal, states[i], W.Owing(wal, states, all, i))
    ensures Sound(wal, states[i + 1], W.Owing(wal, states, all, i + 1))
    ensures !W.Neglecting(wal, states[i].log, all[i], W.Owing(wal, states, all, i))
  {
    hide W.Next, W.Enabled, W.Neglecting, W.OwingAfter, W.OrderInv, D.SyncInv;
    D.RunKeepsSync(wal, states, all, i);
    D.RunKeepsSync(wal, states, all, i + 1);
    assert !W.Neglects(wal, states, all, i);
  }

  /** A careful run of the log carries out this move from its state `i`, where it shows the ledger's log. */
  ghost predicate Along(cfg: Config, wal: WalLog.Config, decode: Decoder, states: seq<W.System>, all: seq<W.Step>,
                        i: nat, s: System, m: Move)
  {
    && |states| == |all| + 1
    && i + |m.log| <= |all|
    && all[i..i + |m.log|] == m.log
    && W.IsRun(wal, states, all)
    && W.Careful(wal, states, all, i + |m.log|)
    && Shows(wal, decode, s, states[i])
    && SystemInv(s)
    && CarriedOut(cfg, wal, decode, s, states[i].log, m)
  }

  /** The move was a possible step of the ledger, and the log where it ends shows the ledger's log after it. */
  ghost predicate Landed(cfg: Config, wal: WalLog.Config, decode: Decoder, states: seq<W.System>, i: nat, s: System,
                         m: Move)
  {
    && i + |m.log| < |states|
    && Enabled(wal.strategy, s, m.step)
    && Shows(wal, decode, Next(cfg, wal.strategy, s, m.step), states[i + |m.log|])
  }

  lemma DoCarried(cfg: Config, wal: WalLog.Config, decode: Decoder, states: seq<W.System>, all: seq<W.Step>, i: nat,
                  s: System, m: Move)
    requires Along(cfg, wal, decode, states, all, i, s, m)
    requires m.step.Do?
    ensures Landed(cfg, wal, decode, states, i, s, m)
  {
    hide AppendThenDie, Snapshotted, Reopened, Collected, Opened, Uncovered, SystemInv, PlanOf, ApplyRecord,
         NeverUsed, W.OrderInv, WalCrash.AllRecords, D.SafeRecords, WalLog.Prepared, W.Owing, D.SyncInv, W.Neglecting,
         W.IsRun, W.Careful;
    var plan := PlanOf(cfg, s.memory.index, m.step.op, m.step.inp);
    if plan.Persist? {
      var entry := EntryOf(m.step.op, plan, true);
      LogStep(wal, states, all, i, i + 2);
      LogStep(wal, states, all, i + 1, i + 2);
      assert all[i] == m.log[0] && all[i + 1] == m.log[1];
      AppendShown(wal, decode, s, states[i], W.Owing(wal, states, all, i), m.log[0].record, entry);
      var logged := Append(wal.strategy, s, m.step.position, entry);
      CommitShown(wal, decode, logged, states[i + 1], W.Owing(wal, states, all, i + 1), false);
    }
  }

  lemma DieCarried(cfg: Config, wal: WalLog.Config, decode: Decoder, states: seq<W.System>, all: seq<W.Step>, i: nat,
                   s: System, m: Move)
    requires Along(cfg, wal, decode, states, all, i, s, m)
    requires m.step.DieDuring?
    ensures Landed(cfg, wal, decode, states, i, s, m)
  {
    hide Perform, Snapshotted, Reopened, Collected, Opened, Uncovered, SystemInv, PlanOf, ApplyRecord, NeverUsed,
         W.OrderInv, WalCrash.AllRecords, D.SafeRecords, WalLog.Prepared, W.Owing, D.SyncInv, W.Neglecting, W.IsRun,
         W.Careful;
    var plan := PlanOf(cfg, s.memory.index, m.step.op, m.step.inp);
    var n := i + |m.log|;
    LogStep(wal, states, all, i, n);
    assert all[i] == m.log[0];
    if plan.Persist? {
      var entry := EntryOf(m.step.op, plan, false);
      AppendShown(wal, decode, s, states[i], W.Owing(wal, states, all, i), m.log[0].record, entry);
      var logged := Append(wal.strategy, s, m.step.position, entry);
      LogStep(wal, states, all, i + 1, n);
      assert all[i + 1] == m.log[1..][0];
      if m.step.flushed {
        CommitShown(wal, decode, logged, states[i + 1], W.Owing(wal, states, all, i + 1), true);
        LogStep(wal, states, all, i + 2, n);
        assert all[i + 2] == m.log[1..][1];
        KillShown(wal, decode, Flushed(logged), states[i + 2], W.Owing(wal, states, all, i + 2));
      } else {
        KillShown(wal, decode, logged, states[i + 1], W.Owing(wal, states, all, i + 1));
      }
    } else {
      KillShown(wal, decode, s, states[i], W.Owing(wal, states, all, i));
    }
  }

  lemma SnapshotCarried(cfg: Config, wal: WalLog.Config, decode: Decoder, states: seq<W.System>, all: seq<W.Step>,
                        i: nat, s: System, m: Move)
    requires Along(cfg, wal, decode, states, all, i, s, m)
    requires m.step.TakeSnapshot?
    ensures Landed(cfg, wal, decode, states, i, s, m)
  {
    hide WalLog.KeepFrom, WalLog.Commit, WalLog.Cutoff, Entries, ActiveId;
    hide Perform, AppendThenDie, Reopened, PlanOf, ApplyRecord, NeverUsed, Opened, Uncovered, SystemInv, Collected,
         W.OrderInv, WalCrash.AllRecords, D.SafeRecords, W.Owing, D.SyncInv, W.Neglecting, W.IsRun, W.Careful, Kept;
    var n := i + |m.log|;
    LogStep(wal, states, all, i, n);
    assert all[i] == m.log[0];
    CommitShown(wal, decode, s, states[i], W.Owing(wal, states, all, i), true);
    if s.memory.lastWalPosition.Some? {
      LogStep(wal, states, all, i + 1, n);
      assert all[i + 1] == m.log[1];
      TruncateShown(wal, decode, Flushed(s), states[i + 1], W.Owing(wal, states, all, i + 1),
                    s.memory.lastWalPosition.value.segmentId + 1);
    }
  }

  lemma StopCarried(cfg: Config, wal: WalLog.Config, decode: Decoder, states: seq<W.System>, all: seq<W.Step>, i: nat,
                    s: System, m: Move)
    requires Along(cfg, wal, decode, states, all, i, s, m)
    requires m.step.Sync? || m.step.Stop?
    ensures Landed(cfg, wal, decode, states, i, s, m)
  {
    hide Perform, AppendThenDie, Snapshotted, Reopened, PlanOf, ApplyRecord, Collected, NeverUsed, Opened, Uncovered,
         SystemInv, W.OrderInv, WalCrash.AllRecords, D.SafeRecords, W.Owing, D.SyncInv, W.Neglecting, W.IsRun,
         W.Careful;
    LogStep(wal, states, all, i, i + 1);
    assert all[i] == m.log[0];
    var log, owing := states[i], W.Owing(wal, states, all, i);
    CommitShown(wal, decode, s, log, owing, true);
    if m.step.Stop? {
      KillShown(wal, decode, s, log, owing);
      ShutdownShown(wal, decode, s, log);
    } else if wal.strategy.Everysec? {
      TickShown(wal, decode, s, log, owing);
    }
  }

  lemma CrashCarried(cfg: Config, wal: WalLog.Config, decode: Decoder, states: seq<W.System>, all: seq<W.Step>, i: nat,
                     s: System, m: Move)
    requires Along(cfg, wal, decode, states, all, i, s, m)
    requires m.step.Crash?
    ensures Landed(cfg, wal, decode, states, i, s, m)
  {
    hide Perform, AppendThenDie, Snapshotted, Reopened, PlanOf, ApplyRecord, Collected, NeverUsed, Opened, Uncovered,
         SystemInv, W.OrderInv, WalCrash.AllRecords, D.SafeRecords, W.Owing, D.SyncInv, W.Neglecting, W.IsRun,
         W.Careful;
    LogStep(wal, states, all, i, i + 1);
    assert all[i] == m.log[0];
    CrashShown(wal, decode, s, states[i], W.Owing(wal, states, all, i), m.log[0].cuts);
    D.OrderBounds(wal, states[i]);
  }

  lemma ReopenCarried(cfg: Config, wal: WalLog.Config, decode: Decoder, states: seq<W.System>, all: seq<W.Step>,
                      i: nat, s: System, m: Move)
    requires Along(cfg, wal, decode, states, all, i, s, m)
    requires m.step.Reopen?
    ensures Landed(cfg, wal, decode, states, i, s, m)
  {
    hide Perform, AppendThenDie, Snapshotted, PlanOf, ApplyRecord, Collected, NeverUsed, SystemInv, W.OrderInv,
         WalCrash.AllRecords, D.SafeRecords, W.Owing, D.SyncInv, W.Neglecting, W.IsRun, W.Careful, Opened, Folded,
         Uncovered, W.MovesOn;
    LogStep(wal, states, all, i, i + 1);
    assert all[i] == m.log[0];
    OpensExactly(s);
    FoldsFine(s);
    OpenShown(wal, decode, s, states[i], W.Owing(wal, states, all, i));
  }

  lemma FoldsFine(s: System)
    requires SystemInv(s)
    ensures Folded(s.history).error.None?
  {
    hide Inv, Folded;
  }

  lemma ShutdownShown(wal: WalLog.Config, decode: Decoder, s: System, w: W.System)
    requires WalLog.Running(w.log) && W.OrderInv(wal, W.Committed(wal, w, true))
    requires SameLog(wal, decode, Flushed(s), W.Committed(wal, w, true))
    ensures W.OrderInv(wal, W.Next(wal, w, W.Shutdown))
    ensures SameLog(wal, decode, Stopped(Flushed(s)), W.Next(wal, w, W.Shutdown))
  {
    hide WalCrash.AllRecords, D.SafeRecords, W.SegmentsOk, W.SizesOk, WalLog.Commit;
  }

  /** Every move a careful run of the log carries out is a possible step of the ledger. */
  lemma MoveCarried(cfg: Config, wal: WalLog.Config, decode: Decoder, states: seq<W.System>, all: seq<W.Step>, i: nat,
                    s: System, m: Move)
    requires Along(cfg, wal, decode, states, all, i, s, m)
    ensures Landed(cfg, wal, decode, states, i, s, m)
  {
    hide Along, Shows, Enabled, Next;
    match m.step
    case Do(_, _, _) => DoCarried(cfg, wal, decode, states, all, i, s, m);
    case DieDuring(_, _, _, _) => DieCarried(cfg, wal, decode, states, all, i, s, m);
    case TakeSnapshot(_) => SnapshotCarried(cfg, wal, decode, states, all, i, s, m);
    case Crash(_) => CrashCarried(cfg, wal, decode, states, all, i, s, m);
    case Reopen(_) => ReopenCarried(cfg, wal, decode, states, all, i, s, m);
    case _ => StopCarried(cfg, wal, decode, states, all, i, s, m);
  }

  // ----- Whole runs ------------------------------------------------------------------------------------

  function LedgerSteps(moves: seq<Move>): (r: seq<Step>)
    ensures |r| == |moves|
  {
    seq(|moves|, i requires 0 <= i < |moves| => moves[i].step)
  }

  function LogSteps(moves: seq<Move>): seq<W.Step> {
    if moves == [] then [] else LogSteps(moves[..|moves| - 1]) + moves[|moves| - 1].log
  }

  /** Every move was carried out where it was made. */
  ghost predicate Carried(cfg: Config, wal: WalLog.Config, decode: Decoder, states: seq<W.System>, moves: seq<Move>)
    requires |LogSteps(moves)| < |states|
  {
    moves == [] ||
    var front, last := moves[..|moves| - 1], moves[|moves| - 1];
    Carried(cfg, wal, decode, states, front) &&
    CarriedOut(cfg, wal, decode, Run(cfg, wal.strategy, LedgerSteps(front)), states[|LogSteps(front)|].log, last)
  }

  lemma NewShown(wal: WalLog.Config, decode: Decoder)
    ensures Shows(wal, decode, NewSystem, W.NewSystem)
  {
    D.NewSystemOk(wal);
    W.NoFiles();
  }

  /** The log takes the steps of these moves first, without neglect, and they carry out the moves. */
  ghost predicate Behind(cfg: Config, wal: WalLog.Config, decode: Decoder, states: seq<W.System>, all: seq<W.Step>,
                         moves: seq<Move>)
  {
    && |states| == |all| + 1
    && LogSteps(moves) <= all
    && W.IsRun(wal, states, all)
    && W.Careful(wal, states, all, |LogSteps(moves)|)
    && Carried(cfg, wal, decode, states, moves)
  }

  lemma LastMove(cfg: Config, wal: WalLog.Config, decode: Decoder, states: seq<W.System>, all: seq<W.Step>,
                 moves: seq<Move>, s: System)
    requires Behind(cfg, wal, decode, states, all, moves) && moves != [] && SystemInv(s)
    requires s == Run(cfg, wal.strategy, LedgerSteps(moves[..|moves| - 1]))
    requires Shows(wal, decode, s, states[|LogSteps(moves[..|moves| - 1])|])
    ensures Along(cfg, wal, decode, states, all, |LogSteps(moves[..|moves| - 1])|, s, moves[|moves| - 1])
  {
    hide Run, Shows, CarriedOut, W.IsRun, SystemInv, W.Neglects;
    var front, last := moves[..|moves| - 1], moves[|moves| - 1];
    var i := |LogSteps(front)|;
    assert LogSteps(moves)[i..] == last.log;
    assert all[i..i + |last.log|] == LogSteps(moves)[i..i + |last.log|];
  }

  lemma FrontMoves(cfg: Config, wal: WalLog.Config, decode: Decoder, states: seq<W.System>, all: seq<W.Step>,
                   moves: seq<Move>)
    requires Behind(cfg, wal, decode, states, all, moves) && moves != []
    ensures Behind(cfg, wal, decode, states, all, moves[..|moves| - 1])
  {
    hide Run, CarriedOut, W.IsRun, W.Neglects;
    assert LogSteps(moves[..|moves| - 1]) <= LogSteps(moves);
  }

  /**
    A ledger on segment files: along every careful run of the log, the ledger's steps are
    possible ones, and its log is what the files hold. So what is proved of ledger runs
    holds of it.
   */
  lemma {:induction false} LedgerRunsOnWal(cfg: Config, wal: WalLog.Config, decode: Decoder, states: seq<W.System>,
                                           all: seq<W.Step>, moves: seq<Move>)
    requires Behind(cfg, wal, decode, states, all, moves)
    ensures Possible(cfg, wal.strategy, LedgerSteps(moves))
    ensures Shows(wal, decode, Run(cfg, wal.strategy, LedgerSteps(moves)), states[|LogSteps(moves)|])
    decreases |moves|
  {
    hide Possible, Run, Shows, Enabled, Next, Carried, W.IsRun, W.Careful, SystemInv, Along;
    if moves == [] {
      NewShown(wal, decode);
      NothingPossible(cfg, wal.strategy);
      RunStarts(wal, states, all);
    } else {
      var front, last := moves[..|moves| - 1], moves[|moves| - 1];
      FrontMoves(cfg, wal, decode, states, all, moves);
      LedgerRunsOnWal(cfg, wal, decode, states, all, front);
      RunKeepsInv(cfg, wal.strategy, LedgerSteps(front));
      var s := Run(cfg, wal.strategy, LedgerSteps(front));
      LastMove(cfg, wal, decode, states, all, moves, s);
      MoveCarried(cfg, wal, decode, states, all, |LogSteps(front)|, s, last);
      PossibleSnoc(cfg, wal.strategy, LedgerSteps(front), last.step);
      assert LedgerSteps(moves) == LedgerSteps(front) + [last.step];
    }
  }

  lemma RunStarts(wal: WalLog.Config, states: seq<W.System>, all: seq<W.Step>)
    requires W.IsRun(wal, states, all)
    ensures states[0] == W.NewSystem
  {
    hide W.Next, W.Enabled;
  }

  lemma NothingPossible(cfg: Config, strategy: Strategy)
    ensures Possible(cfg, strategy, []) && Run(cfg, strategy, []) == NewSystem
  {
  }

  /**
    From the files up: whatever a crash takes from a careful log, recovery succeeds, and
    opening the ledger on the records it yields gives exactly the indexes of the history
    up to them. Under `Always` no record whose caller was answered is missing.
   */
  lemma ServiceRecovers(cfg: Config, wal: WalLog.Config, decode: Decoder, states: seq<W.System>, moves: seq<Move>,
                        cuts: seq<nat>)
    requires Behind(cfg, wal, decode, states, LogSteps(moves), moves)
    requires WalLog.ValidCuts(states[|LogSteps(moves)|].log.segments, cuts)
    ensures var s := Run(cfg, wal.strategy, LedgerSteps(moves));
            var w := states[|LogSteps(moves)|];
            var left := WalLog.Files(WalLog.CutAll(w.log.segments, cuts));
            WalRecovery.Recovered(left).Ok? &&
            var replayed := WalRecovery.Replayed(WalRecovery.Recovered(left).value.files);
            var keep := w.removed + |replayed|;
            var rebuilt := Opened(s.disk.(wal := Entries(decode, replayed)));
            s.synced <= keep <= |s.history| && rebuilt == Folded(s.history[..keep]) &&
            rebuilt.error.None? && Inv(rebuilt.index) && (wal.strategy.Always? ==> ToldUpTo(s.history, keep))
  {
    hide Possible, Run, Enabled, Next, Carried, W.IsRun, Opened, Folded, Inv, W.OrderInv, D.SyncInv, D.SafeRecords,
         WalLog.CutAll, WalLog.Files, WalRecovery.Recovered, WalRecovery.Replayed, W.Owing, SystemInv;
    var s, n := Run(cfg, wal.strategy, LedgerSteps(moves)), |LogSteps(moves)|;
    var w := states[n];
    LedgerRunsOnWal(cfg, wal, decode, states, LogSteps(moves), moves);
    D.RunKeepsSync(wal, states, LogSteps(moves), n);
    CrashShown(wal, decode, s, w, W.Owing(wal, states, LogSteps(moves), n), cuts);
    var t := W.Crashed(w, cuts);
    var keep := w.removed + |WalCrash.AllRecords(t.log.segments)|;
    var steps := LedgerSteps(moves);
    CrashIsEnabled(wal.strategy, s, keep);
    PossibleSnoc(cfg, wal.strategy, steps, Crash(keep));
    CrashKeepsSynced(cfg, wal.strategy, steps, keep);
    RecoveryIsExact(cfg, wal.strategy, steps + [Crash(keep)]);
    CrashLeaves(cfg, wal.strategy, s, keep);
    CutRecovers(wal, t);
  }

  lemma CutRecovers(wal: WalLog.Config, t: W.System)
    requires W.OrderInv(wal, t)
    ensures var files := WalLog.Files(t.log.segments);
            WalRecovery.Recovered(files).Ok? &&
            WalRecovery.Replayed(WalRecovery.Recovered(files).value.files) == WalCrash.AllRecords(t.log.segments)
  {
    hide WalRecovery.Recovered, WalRecovery.Replayed, WalLog.Files, W.SizesOk, W.RemovedOk;
    W.NothingToForgive(t.log.segments);
    WalRecovery.RecoveredIsClean(WalLog.Files(t.log.segments));
  }
}
