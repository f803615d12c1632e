/**
  Snapshots without the guard: exactly which ones recovery survives.
 */
module LedgerStale {
  import opened Basics
  import opened CanonicalJson
  import opened EventChain
  import opened LedgerModel
  import opened LogPositions
  import opened LedgerIndexes
  import opened LedgerOps
  import opened LedgerInvariant
  import opened LedgerSystem
  import opened LedgerRecovery
  import opened LedgerReapply
  import opened LedgerHistory
  import opened LedgerExamples

  // ----- Suffixes of histories were written from their prefixes -----------------------------------

  lemma KindsSlice(h: seq<Logged>, m: nat, i: nat)
    requires m <= i <= |h|
    ensures Kinds(h)[m..][..i - m] == Kinds(h)[m..i]
    ensures Kinds(h[..i]) == Kinds(h)[..i]
    ensures Kinds(h)[..i] == Kinds(h)[..m] + Kinds(h)[m..i]
  {
  }

  /** Folding on from a prefix is folding a longer prefix. */
  lemma AfterIsFolded(h: seq<Logged>, m: nat, i: nat)
    requires Grown(h) && m <= i <= |h|
    ensures After(Folded(h[..m]).index, Kinds(h)[m..], i - m) == Folded(h[..i])
  {
    hide Inv, ApplyAll;
    KindsSlice(h, m, i);
    KindsSlice(h, m, m);
    assert Folded(h[..m]).error.None?;
    ApplyAllSplit(EmptyIndex, Kinds(h)[..m], Kinds(h)[m..i]);
  }

  lemma NeverUsedPrefix(h: seq<Logged>, n: nat, m: nat, id: Uuid)
    requires n <= m <= |h| && NeverUsed(h[..m], id)
    ensures NeverUsed(h[..n], id)
  {
    forall i | 0 <= i < n ensures h[..n][i] == h[..m][i] {
    }
  }

  /** A pruned identifier is never minted again. */
  lemma NotMinted(h: seq<Logged>, i: nat, j: nat, id: Uuid)
    requires Grown(h) && Grounded(h) && i < j <= |h| && NeverUsed(h[..j], id) && h[i].kind.RetentionApplied?
    ensures id !in h[i].kind.runIds && id !in h[i].kind.effectIds
  {
    hide Inv, Fits, Folded, NeverUsed;
    NeverUsedPrefix(h, i, j, id);
    assert Folded(h[..i]).error.None?;
    IdsComeFromHistory(h[..i], id);
    assert EntryGrounded(h, i);
  }

  lemma {:induction false} NoRebirthUpTo(h: seq<Logged>, n: nat)
    requires Grown(h) && Grounded(h) && n <= |h|
    ensures NoRebirth(Kinds(h)[..n])
  {
    hide Inv, Fits, Folded;
    if n > 0 {
      NoRebirthUpTo(h, n - 1);
      var kinds, j := Kinds(h)[..n], n - 1;
      assert kinds[..j] == Kinds(h)[..j];
      forall i | 0 <= i < j && kinds[i].RetentionApplied?
        ensures kinds[j].RunCreated? ==> kinds[j].run.id !in kinds[i].runIds
        ensures kinds[j].EffectApplied? ==> kinds[j].effect.id !in kinds[i].effectIds
      {
        NoRebirthAt(h, i, j);
      }
      forall i, k | 0 <= i < k < n && kinds[i].RetentionApplied?
        ensures kinds[k].RunCreated? ==> kinds[k].run.id !in kinds[i].runIds
        ensures kinds[k].EffectApplied? ==> kinds[k].effect.id !in kinds[i].effectIds
      {
        if k < j {
          assert kinds[..j][i] == kinds[i] && kinds[..j][k] == kinds[k];
        }
      }
    }
  }

  lemma NoRebirthAt(h: seq<Logged>, i: nat, j: nat)
    requires Grown(h) && Grounded(h) && i < j < |h| && NoRebirth(Kinds(h)[..j]) && h[i].kind.RetentionApplied?
    ensures h[j].kind.RunCreated? ==> h[j].kind.run.id !in h[i].kind.runIds
    ensures h[j].kind.EffectApplied? ==> h[j].kind.effect.id !in h[i].kind.effectIds
  {
    hide Inv, Fits, Folded, NeverUsed;
    assert EntryGrounded(h, j);
    var id :| NeverUsed(h[..j], id) && Identified(Folded(h[..j]).index, h[j].kind, id);
    NotMinted(h, i, j, id);
    if h[j].kind.EffectApplied? {
      var e := h[j].kind.effect.id;
      if e in h[i].kind.effectIds {
        WrittenPrefix(h, j);
        PrunedEffectIsGone(EmptyIndex, Kinds(h)[..j], i, j, e);
        assert Kinds(h)[..j][..j] == Kinds(h)[..j];
        FoldedKinds(h, j);
      }
    }
  }

  lemma FoldedKinds(h: seq<Logged>, j: nat)
    requires j <= |h|
    ensures Folded(h[..j]) == ApplyAll(EmptyIndex, Kinds(h)[..j])
  {
    assert Kinds(h[..j]) == Kinds(h)[..j];
  }

  lemma WrittenPrefix(h: seq<Logged>, n: nat)
    requires Grown(h) && Grounded(h) && n <= |h| && NoRebirth(Kinds(h)[..n])
    ensures Written(EmptyIndex, Kinds(h)[..n])
  {
    hide Inv, Fits, Folded, NoRebirth, ApplyAll;
    InvEmpty();
    var kinds := Kinds(h)[..n];
    forall i | 0 <= i < n ensures Fits(After(EmptyIndex, kinds, i).index, kinds[i]) {
      assert kinds[..i] == Kinds(h)[..i];
      FoldedKinds(h, i);
      assert EntryGrounded(h, i);
    }
  }

  /** The records after any point of a history were written from the indexes at that point. */
  lemma WrittenFrom(h: seq<Logged>, m: nat)
    requires Grown(h) && Grounded(h) && m <= |h|
    ensures Written(Folded(h[..m]).index, Kinds(h)[m..])
  {
    hide Inv, Fits, Folded, ApplyAll, After;
    NoRebirthUpTo(h, |h|);
    assert Kinds(h)[..|h|] == Kinds(h);
    var kinds := Kinds(h)[m..];
    forall i | 0 <= i < |kinds| ensures Fits(After(Folded(h[..m]).index, kinds, i).index, kinds[i]) {
      AfterIsFolded(h, m, m + i);
      assert EntryGrounded(h, m + i);
    }
    SuffixNoRebirth(Kinds(h), m);
  }

  lemma SuffixNoRebirth(kinds: seq<RecordKind>, m: nat)
    requires NoRebirth(kinds) && m <= |kinds|
    ensures NoRebirth(kinds[m..])
  {
  }

  // ----- What a snapshot leaves to be replayed ---------------------------------------------------

  function EntryKinds(wal: seq<Entry>): (r: seq<RecordKind>)
    ensures |r| == |wal|
  {
    seq(|wal|, i requires 0 <= i < |wal| => wal[i].kind)
  }

  /** In a log at growing positions, a watermark covers a prefix. */
  lemma {:induction false} CoversPrefix(wal: seq<Entry>, mark: Option<WalPosition>) returns (c: nat)
    requires PositionsGrow(wal)
    ensures c <= |wal| && Uncovered(wal, mark) == EntryKinds(wal)[c..]
    ensures forall i :: 0 <= i < c ==> Covered(mark, wal[i].position)
  {
    if wal == [] {
      c := 0;
    } else {
      var front, last := wal[..|wal| - 1], wal[|wal| - 1];
      assert forall i :: 0 <= i < |front| ==> PositionLess(front[i].position, last.position);
      c := CoversPrefix(front, mark);
      if Covered(mark, last.position) {
        AllCovered(front, mark, last.position);
        c := |wal|;
      } else {
        assert EntryKinds(wal)[c..] == EntryKinds(front)[c..] + [last.kind];
      }
    }
  }

  lemma {:induction false} AllCovered(wal: seq<Entry>, mark: Option<WalPosition>, last: WalPosition)
    requires Covered(mark, last) && forall i :: 0 <= i < |wal| ==> PositionLess(wal[i].position, last)
    ensures Uncovered(wal, mark) == []
    ensures forall i :: 0 <= i < |wal| ==> Covered(mark, wal[i].position)
  {
    if wal != [] {
      AllCovered(wal[..|wal| - 1], mark, last);
    }
  }

  /** What the next opening replays after a snapshot is a tail of the history. */
  lemma ReplaysTail(s: System, state: PersistedState) returns (m: nat)
    requires SystemInv(s) && s.memory.Up?
    ensures var t := Snapshotted(s, state);
            m <= |s.history| && Uncovered(t.disk.wal, Watermark(t.disk)) == Kinds(s.history)[m..]
  {
    hide Folded, Inv, SnapshotOk, MemoryOk, Uncovered, Kept;
    var t, wal := Snapshotted(s, state), s.disk.wal;
    var k := 0;
    if s.memory.lastWalPosition.Some? {
      var w := s.memory.lastWalPosition.value;
      k := KeptIsSuffix(wal, if w.segmentId + 1 < s.disk.active then w.segmentId + 1 else s.disk.active);
    }
    assert t.disk.wal == wal[k..];
    var c := CoversPrefix(t.disk.wal, s.memory.lastWalPosition);
    m := Removed(s) + k + c;
    assert EntryKinds(t.disk.wal)[c..] == Kinds(s.history)[m..];
  }

  /**
    Any snapshot at all, wherever a run stands and whatever its watermark: the next opening
    rebuilds exactly the history if and only if the records it will replay are harmless to
    apply twice.
   */
  lemma SnapshotExactIff(cfg: Config, strategy: Strategy, steps: seq<Step>, state: PersistedState)
    requires Possible(cfg, strategy, steps) && Run(cfg, strategy, steps).memory.Up?
    requires Collected(Run(cfg, strategy, steps).memory.index, state)
    ensures var s := Run(cfg, strategy, steps);
            var t := Snapshotted(s, state);
            Opened(t.disk) == Folded(s.history) <==> HarmlessTwice(Uncovered(t.disk.wal, Watermark(t.disk)))
  {
    hide Run, Possible, Inv, Written, HarmlessTwice, Uncovered, Listable, Collected;
    RunKeepsInv(cfg, strategy, steps);
    RunGrounded(cfg, strategy, steps);
    var s := Run(cfg, strategy, steps);
    var h, t := s.history, Snapshotted(s, state);
    var m := ReplaysTail(s, state);
    InvListable(s.memory.index);
    LoadCollected(s.memory.index, state);
    assert SnapshotIndex(t.disk) == Folded(h).index;
    WrittenFrom(h, m);
    FoldedSplit(h, m);
    ReapplyHarmlessIff(Folded(h[..m]).index, Kinds(h)[m..]);
  }

  // ----- Snapshots that lose events ------------------------------------------------------------------

  /** On a run set back, every append is acknowledged and dropped. */
  lemma SetBackDropsAppends(ix: Index, scope: Scope, runId: Uuid, eventType: string, occurredAtMs: int, payload: Json,
                            inp: Inputs)
    requires SetBack(ix, runId)
    ensures var plan := PlanAppendEvent(ix, scope, runId, eventType, occurredAtMs, payload, inp);
            (RunInScope(ix, scope, runId).Some? && ValidEventType(eventType) ==> plan.Persist?) &&
            (plan.Persist? ==>
               plan.reply.EventReply? && ApplyRecord(ix, plan.kind).error.None? &&
               EventsOf(ApplyRecord(ix, plan.kind).index, runId) == EventsOf(ix, runId))
  {
    hide ComputeEventHash, LengthWithin;
  }

  /**
    A snapshot that leaves a run record and a later event of the same run to be replayed,
    with no gap elsewhere: the next opening succeeds, all the events are there, but the run
    is set back, and the next append to it is acknowledged and dropped.
   */
  lemma StaleSnapshotDropsAppends(cfg: Config, strategy: Strategy, steps: seq<Step>, state: PersistedState, j: nat,
                                  scope: Scope, eventType: string, occurredAtMs: int, payload: Json, inp: Inputs)
    requires Possible(cfg, strategy, steps) && Run(cfg, strategy, steps).memory.Up?
    requires Collected(Run(cfg, strategy, steps).memory.index, state) && ValidEventType(eventType)
    requires var t := Snapshotted(Run(cfg, strategy, steps), state);
             var replay := Uncovered(t.disk.wal, Watermark(t.disk));
             j < |replay| && LateEvent(replay, j) && forall i :: 0 <= i < |replay| ==> FirstEventOk(replay, i)
    ensures var s := Run(cfg, strategy, steps);
            var t := Snapshotted(s, state);
            var r := EventOf(Uncovered(t.disk.wal, Watermark(t.disk))[j]).value.runId;
            var again := Opened(t.disk);
            again.error.None? && SetBack(again.index, r) &&
            EventsOf(again.index, r) == EventsOf(Folded(s.history).index, r) &&
            (RunInScope(again.index, scope, r).Some? ==>
               var plan := PlanAppendEvent(again.index, scope, r, eventType, occurredAtMs, payload, inp);
               plan.Persist? && plan.reply.EventReply? &&
               EventsOf(ApplyRecord(again.index, plan.kind).index, r) == EventsOf(again.index, r))
  {
    hide Run, Possible, Inv, Written, FirstEventOk, Uncovered, Listable, Collected, PlanAppendEvent,
         ApplyRecord, ValidEventType;
    RunKeepsInv(cfg, strategy, steps);
    RunGrounded(cfg, strategy, steps);
    var s := Run(cfg, strategy, steps);
    var h, t := s.history, Snapshotted(s, state);
    var m := ReplaysTail(s, state);
    InvListable(s.memory.index);
    LoadCollected(s.memory.index, state);
    assert SnapshotIndex(t.disk) == Folded(h).index;
    WrittenFrom(h, m);
    FoldedSplit(h, m);
    var base, replay := Folded(h[..m]).index, Kinds(h)[m..];
    assert replay[..|replay|] == replay;
    LateEventSetsBack(base, replay, j);
    var r := EventOf(replay[j]).value.runId;
    SetBackDropsAppends(Opened(t.disk).index, scope, r, eventType, occurredAtMs, payload, inp);
  }

  // ----- A run that gets there ------------------------------------------------------------------------

  lemma CreatedThenAppendedIsHarmful(run: RunRecord, e: EventRecord)
    requires e.runId == run.id
    ensures !HarmlessTwice([RunCreated(run), EventAppended(e)])
    ensures LateEvent([RunCreated(run), EventAppended(e)], 1)
  {
    var records := [RunCreated(run), EventAppended(e)];
    assert LastRun(records, 1, run.id) == Some(run);
    assert LateEvent(records, 1);
  }

  /** Open, create a run, append an event to it, flush, crash, reopen. */
  function ReplayedRun(create: Operation, created: Inputs, append: Operation, appended: Inputs, at: nat): seq<Step> {
    [Reopen(false), Do(create, created, WalPosition(1, 0)), Do(append, appended, WalPosition(1, at)), Sync, Crash(2),
     Reopen(false)]
  }

  /** Flush, crash without loss, and reopen: the log is as it was, and the ledger is up on it. */
  lemma CrashAndReopen(cfg: Config, strategy: Strategy, steps: seq<Step>, entries: seq<Entry>)
    requires Possible(cfg, strategy, steps) && Run(cfg, strategy, steps).memory.Up?
    requires Holding(Run(cfg, strategy, steps), entries)
    ensures var all := steps + [Sync, Crash(|entries|), Reopen(false)];
            Possible(cfg, strategy, all) && Run(cfg, strategy, all).memory.Up? &&
            Run(cfg, strategy, all).disk == Disk(entries, 1, None) &&
            Run(cfg, strategy, all).memory.lastWalPosition == None
  {
    hide Run, Possible, Enabled, SystemInv, Opened, Uncovered, Perform, AppendThenDie, Snapshotted;
    var s := Run(cfg, strategy, steps);
    var n := |entries|;
    SyncIsEnabled(strategy, s);
    PossibleSnoc(cfg, strategy, steps, Sync);
    CrashIsEnabled(strategy, Run(cfg, strategy, steps + [Sync]), n);
    PossibleSnoc(cfg, strategy, steps + [Sync], Crash(n));
    var crashed := steps + [Sync] + [Crash(n)];
    OpenIsEnabled(strategy, Run(cfg, strategy, crashed));
    PossibleSnoc(cfg, strategy, crashed, Reopen(false));
    RunKeepsInv(cfg, strategy, crashed);
    ReopenKeepsInv(Run(cfg, strategy, crashed), false);
    assert crashed + [Reopen(false)] == steps + [Sync, Crash(n), Reopen(false)];
  }

  /**
    It happens: whatever run is created and whatever is appended to it, after a crash and a
    reopening a snapshot at once makes the next opening differ from what was written.
   */
  lemma StaleSnapshotForgets(cfg: Config, strategy: Strategy, create: Operation, created: Inputs, append: Operation,
                             appended: Inputs, at: nat, state: PersistedState)
    requires create.CreateRun? && PlanOf(cfg, EmptyIndex, create, created).Persist?
    requires append.AppendEvent? && append.scope == create.scope && append.runId == created.newId
    requires ValidEventType(append.eventType) && appended.newId != created.newId && at > 0
    ensures var steps := ReplayedRun(create, created, append, appended, at);
            Possible(cfg, strategy, steps) && Run(cfg, strategy, steps).memory.Up? &&
            (Collected(Run(cfg, strategy, steps).memory.index, state) ==>
               Opened(Snapshotted(Run(cfg, strategy, steps), state).disk) != Folded(Run(cfg, strategy, steps).history))
  {
    hide Run, Possible, Folded, Opened, Snapshotted, Holding, ApplyRecord, LengthWithin, BuildEvent, Collected;
    FirstOpening(cfg, strategy);
    var one := [Reopen(false)];
    var run := PlanOf(cfg, EmptyIndex, create, created).kind.run;
    WritesNext(cfg, strategy, one, [], create, created, 0);
    var two := one + [Do(create, created, WalPosition(1, 0))];
    var s := Run(cfg, strategy, two);
    RunIsThere(run);
    var plan := PlanOf(cfg, s.memory.index, append, appended);
    assert [] + [Entry(WalPosition(1, 0), RunCreated(run))] == [Entry(WalPosition(1, 0), RunCreated(run))];
    WritesNext(cfg, strategy, two, [Entry(WalPosition(1, 0), RunCreated(run))], append, appended, at);
    var entries := [Entry(WalPosition(1, 0), RunCreated(run)), Entry(WalPosition(1, at), plan.kind)];
    var three := two + [Do(append, appended, WalPosition(1, at))];
    assert [Entry(WalPosition(1, 0), RunCreated(run))] + [Entry(WalPosition(1, at), plan.kind)] == entries;
    CrashAndReopen(cfg, strategy, three, entries);
    assert three + [Sync, Crash(2), Reopen(false)] == ReplayedRun(create, created, append, appended, at);
    EventIsOfRun(s.memory.index, append, appended, cfg);
    CreatedThenAppendedIsHarmful(run, plan.kind.appended);
    if Collected(Run(cfg, strategy, three + [Sync, Crash(2), Reopen(false)]).memory.index, state) {
      var last := Run(cfg, strategy, three + [Sync, Crash(2), Reopen(false)]);
      BothReplayed(last, entries, state);
      SnapshotExactIff(cfg, strategy, three + [Sync, Crash(2), Reopen(false)], state);
    }
  }

  lemma EventIsOfRun(ix: Index, append: Operation, inp: Inputs, cfg: Config)
    requires append.AppendEvent? && PlanOf(cfg, ix, append, inp).Persist?
    requires append.runId in ix.runs && ix.runs[append.runId].id == append.runId
    ensures PlanOf(cfg, ix, append, inp).kind.EventAppended? &&
            PlanOf(cfg, ix, append, inp).kind.appended.runId == append.runId
  {
    hide LengthWithin, ComputeEventHash;
  }

  lemma BothReplayed(s: System, entries: seq<Entry>, state: PersistedState)
    requires s.memory.Up? && s.disk.wal == entries && s.memory.lastWalPosition == None && |entries| == 2
    ensures var t := Snapshotted(s, state);
            Uncovered(t.disk.wal, Watermark(t.disk)) == [entries[0].kind, entries[1].kind]
  {
    assert entries[..1] == [entries[0]] && [entries[0]][..0] == [];
    assert Uncovered([entries[0]], None) == [entries[0].kind];
  }
}
