/**
  Crash recovery is exact: along every run of the system, opening the disk
  rebuilds the indexes that the whole surviving history defines.
 */
module LedgerRecovery {
  import opened Basics
  import opened LedgerModel
  import opened LogPositions
  import opened LedgerIndexes
  import opened LedgerOps
  import opened LedgerInvariant
  import opened LedgerSystem

  // ----- Folding histories ----------------------------------------------------------

  lemma KindsConcat(a: seq<Logged>, b: seq<Logged>)
    ensures Kinds(a + b) == Kinds(a) + Kinds(b)
  {
  }

  lemma FoldedAppend(h: seq<Logged>, e: Logged)
    requires Folded(h).error.None?
    ensures Folded(h + [e]) == ApplyRecord(Folded(h).index, e.kind)
  {
    hide ApplyRecord;
    KindsConcat(h, [e]);
    var all := Kinds(h + [e]);
    assert all[..|all| - 1] == Kinds(h) && all[|all| - 1] == e.kind;
  }

  lemma {:induction false} FoldedPrefix(h: seq<Logged>, n: nat)
    requires Folded(h).error.None? && n <= |h|
    ensures Folded(h[..n]).error.None?
    decreases |h|
  {
    if n < |h| {
      var front := h[..|h| - 1];
      assert Kinds(h)[..|h| - 1] == Kinds(front);
      assert Folded(front).error.None?;
      FoldedPrefix(front, n);
      assert front[..n] == h[..n];
    } else {
      assert h[..n] == h;
    }
  }

  lemma FoldedSplit(h: seq<Logged>, n: nat)
    requires Folded(h).error.None? && n <= |h|
    ensures ApplyAll(Folded(h[..n]).index, Kinds(h)[n..]) == Folded(h)
  {
    FoldedPrefix(h, n);
    assert Kinds(h) == Kinds(h[..n]) + Kinds(h)[n..];
    ApplyAllSplit(EmptyIndex, Kinds(h[..n]), Kinds(h)[n..]);
  }

  /** Every prefix of the history folds without corruption, to indexes that satisfy the ledger's invariant. */
  ghost predicate Grown(h: seq<Logged>) {
    forall n :: 0 <= n <= |h| ==> Folded(h[..n]).error.None? && Inv(Folded(h[..n]).index)
  }

  // ----- Opening a well-kept disk ---------------------------------------------------------

  lemma {:induction false} UncoveredTail(s: System, mark: Option<WalPosition>, n: nat, m: nat)
    requires LogOk(s) && Separates(s, mark, n) && Removed(s) <= n && m <= |s.disk.wal|
    ensures Uncovered(s.disk.wal[..m], mark)
         == if Removed(s) + m <= n then [] else Kinds(s.history)[n..Removed(s) + m]
    decreases m
  {
    hide LogOk, Separates, Kinds, Covered, Uncovered;
    if m == 0 {
      NothingUncovered(s.disk.wal, mark);
    } else {
      UncoveredTail(s, mark, n, m - 1);
      MarkAt(s, mark, n, m - 1);
      UncoveredStep(s.disk.wal, mark, m - 1);
      if Removed(s) + m > n {
        SliceGrows(Kinds(s.history), n, Removed(s) + m - 1);
      }
    }
  }

  lemma NothingUncovered(wal: seq<Entry>, mark: Option<WalPosition>)
    ensures Uncovered(wal[..0], mark) == []
  {
  }

  lemma UncoveredStep(wal: seq<Entry>, mark: Option<WalPosition>, m: nat)
    requires m < |wal|
    ensures Uncovered(wal[..m + 1], mark) ==
            Uncovered(wal[..m], mark) + if Covered(mark, wal[m].position) then [] else [wal[m].kind]
  {
    hide Covered;
    assert wal[..m + 1][..m] == wal[..m];
  }

  lemma SliceGrows(kinds: seq<RecordKind>, n: nat, m: nat)
    requires n <= m < |kinds|
    ensures kinds[n..m + 1] == kinds[n..m] + [kinds[m]]
  {
  }

  lemma MarkAt(s: System, mark: Option<WalPosition>, n: nat, i: nat)
    requires LogOk(s) && Separates(s, mark, n) && Removed(s) <= n && i < |s.disk.wal|
    ensures Covered(mark, s.disk.wal[i].position) <==> Removed(s) + i < n
    ensures s.disk.wal[i].kind == Kinds(s.history)[Removed(s) + i]
  {
  }

  lemma UncoveredIsTail(s: System)
    requires LogOk(s) && SnapshotOk(s)
    ensures Uncovered(s.disk.wal, Watermark(s.disk)) == Kinds(s.history)[s.snapshotted..]
  {
    var m := |s.disk.wal|;
    assert s.disk.wal[..m] == s.disk.wal;
    UncoveredTail(s, Watermark(s.disk), s.snapshotted, m);
    assert Removed(s) + m == |s.history|;
  }

  /** Opening rebuilds exactly what the whole history defines. */
  lemma OpensExactly(s: System)
    requires SystemInv(s)
    ensures Opened(s.disk) == Folded(s.history)
  {
    hide Inv, Uncovered, Folded, ApplyAll;
    UncoveredIsTail(s);
    FoldedSplit(s.history, s.snapshotted);
  }

  // ----- Each step keeps the invariant -------------------------------------------------------

  lemma AppendKeepsLog(strategy: Strategy, s: System, position: WalPosition, entry: Logged)
    requires LogOk(s) && NextPosition(s.disk, position)
    ensures LogOk(Append(strategy, s, position, entry))
    ensures Removed(Append(strategy, s, position, entry)) == Removed(s)
  {
    var t := Append(strategy, s, position, entry);
    var wal := t.disk.wal;
    forall i, j | 0 <= i < j < |wal| ensures PositionLess(wal[i].position, wal[j].position) {
      if j == |wal| - 1 && i < j - 1 {
        assert PositionLess(wal[i].position, wal[j - 1].position);
      }
    }
  }

  /** A mark keeps separating the same records when the log grows at its end. */
  lemma AppendKeepsMark(strategy: Strategy, s: System, position: WalPosition, entry: Logged,
                        mark: Option<WalPosition>, n: nat)
    requires LogOk(s) && NextPosition(s.disk, position) && Separates(s, mark, n) && Removed(s) <= n
    ensures Separates(Append(strategy, s, position, entry), mark, n)
  {
    var t := Append(strategy, s, position, entry);
    AppendKeepsLog(strategy, s, position, entry);
    if mark.Some? {
      var w := mark.value;
      var last := |t.disk.wal| - 1;
      assert !PositionLeq(position, w) by {
        if w.segmentId == s.disk.active {
          var k := n - 1 - Removed(s);
          assert s.disk.wal[k].position == w;
          if k < |s.disk.wal| - 1 {
            assert PositionLess(s.disk.wal[k].position, s.disk.wal[|s.disk.wal| - 1].position);
          }
        }
      }
      forall i | 0 <= i < |t.disk.wal| ensures PositionLeq(t.disk.wal[i].position, w) <==> Removed(t) + i < n {
        if i < last {
          assert t.disk.wal[i] == s.disk.wal[i];
        }
      }
    }
  }

  /** The position of the newest record separates all of the history from what comes later. */
  lemma AppendMarksAll(strategy: Strategy, s: System, position: WalPosition, entry: Logged)
    requires LogOk(s) && NextPosition(s.disk, position)
    ensures var t := Append(strategy, s, position, entry);
            Separates(t, Some(position), |t.history|)
  {
    var t := Append(strategy, s, position, entry);
    AppendKeepsLog(strategy, s, position, entry);
    var last := |t.disk.wal| - 1;
    forall i | 0 <= i < |t.disk.wal| ensures PositionLeq(t.disk.wal[i].position, position) {
      if i < last {
        assert PositionLess(t.disk.wal[i].position, t.disk.wal[last].position);
      }
    }
  }

  lemma AppendKeepsSnapshot(strategy: Strategy, s: System, position: WalPosition, entry: Logged)
    requires LogOk(s) && SnapshotOk(s) && NextPosition(s.disk, position)
    ensures SnapshotOk(Append(strategy, s, position, entry))
  {
    hide Folded, Separates;
    var t := Append(strategy, s, position, entry);
    AppendKeepsLog(strategy, s, position, entry);
    AppendKeepsMark(strategy, s, position, entry, Watermark(s.disk), s.snapshotted);
    assert t.history[..t.snapshotted] == s.history[..s.snapshotted];
  }

  /** Identifiers in the indexes come from records of the history. */
  lemma {:induction false} IdsComeFromHistory(h: seq<Logged>, id: Uuid)
    requires Folded(h).error.None? && NeverUsed(h, id)
    ensures id !in Folded(h).index.effectsById && id !in Folded(h).index.runs
  {
    if h != [] {
      var front, last := h[..|h| - 1], h[|h| - 1];
      FoldedPrefix(h, |h| - 1);
      assert h == front + [last];
      FoldedAppend(front, last);
      forall i | 0 <= i < |front| ensures front[i] == h[i] {}
      IdsComeFromHistory(front, id);
      ApplyAddsNoOtherId(Folded(front).index, last.kind, id);
    }
  }

  lemma ApplyAddsNoOtherId(ix: Index, kind: RecordKind, id: Uuid)
    requires id !in ix.effectsById && id !in ix.runs
    requires kind.EffectApplied? ==> kind.effect.id != id
    requires kind.RunCreated? || kind.RunUpdated? ==> kind.run.id != id
    ensures var after := ApplyRecord(ix, kind).index;
            id !in after.effectsById && id !in after.runs
  {
  }

  lemma DoKeepsInv(cfg: Config, strategy: Strategy, s: System, op: Operation, inp: Inputs, position: WalPosition,
                   flushed: bool)
    requires SystemInv(s) && s.memory.Up? && NextPosition(s.disk, position) && NeverUsed(s.history, inp.newId)
    ensures SystemInv(Perform(cfg, strategy, s, op, inp, position))
    ensures SystemInv(AppendThenDie(cfg, strategy, s, op, inp, position, flushed))
  {
    hide Inv, PlanOf, ApplyRecord, Folded, LogOk, SnapshotOk, Separates;
    SyncBounds(s);
    var plan := PlanOf(cfg, s.memory.index, op, inp);
    var t := Perform(cfg, strategy, s, op, inp, position);
    var d := AppendThenDie(cfg, strategy, s, op, inp, position, flushed);
    if plan.Persist? {
      IdsComeFromHistory(s.history, inp.newId);
      PersistNeverFails(cfg, s.memory.index, op, inp);
      AppendedKeepsInv(strategy, s, position, EntryOf(op, plan, true), t);
      AppendedKeepsInv(strategy, s, position, EntryOf(op, plan, false), d);
    } else {
      SameDisk(s, t);
      SameDisk(s, d);
    }
  }

  /** Any state with the log of this append, and memory to match or none, keeps the invariant. */
  lemma AppendedKeepsInv(strategy: Strategy, s: System, position: WalPosition, entry: Logged, t: System)
    requires SystemInv(s) && NextPosition(s.disk, position)
    requires var applied := ApplyRecord(Folded(s.history).index, entry.kind); applied.error.None? && Inv(applied.index)
    requires var a := Append(strategy, s, position, entry);
             t.disk == a.disk && t.history == a.history && t.snapshotted == a.snapshotted &&
             a.synced <= t.synced <= |t.history|
    requires t.memory.Up? ==>
               t.memory.index == ApplyRecord(Folded(s.history).index, entry.kind).index &&
               t.memory.lastWalPosition == Some(position) && (t.dirty || t.synced == |t.history|)
    ensures SystemInv(t)
  {
    hide Inv, ApplyRecord, Folded, LogOk, SnapshotOk, Separates;
    FoldedAppend(s.history, entry);
    AppendKeepsLog(strategy, s, position, entry);
    AppendKeepsSnapshot(strategy, s, position, entry);
    AppendMarksAll(strategy, s, position, entry);
    SameDisk(Append(strategy, s, position, entry), t);
  }

  /** The log, snapshot and mark conditions speak of the disk and the history only, and survive a sync. */
  lemma SameDisk(s: System, t: System)
    requires s.disk == t.disk && s.history == t.history && s.snapshotted == t.snapshotted
    requires s.synced <= t.synced <= |t.history|
    ensures LogOk(s) <==> LogOk(t)
    ensures SnapshotOk(s) ==> SnapshotOk(t)
    ensures forall mark, n: nat :: Separates(s, mark, n) <==> Separates(t, mark, n)
  {
    hide Folded;
  }

  lemma SyncBounds(s: System)
    requires SystemInv(s)
    ensures s.snapshotted <= s.synced <= |s.history|
  {
    hide Inv, Folded, LogOk, MemoryOk, Separates;
  }

  lemma {:induction false} KeptIsSuffix(wal: seq<Entry>, cutoff: nat) returns (k: nat)
    requires PositionsGrow(wal)
    ensures k <= |wal| && Kept(wal, cutoff) == wal[k..]
    ensures forall i :: 0 <= i < k ==> wal[i].position.segmentId < cutoff
  {
    if wal == [] {
      k := 0;
    } else if wal[0].position.segmentId < cutoff {
      var rest := wal[1..];
      assert PositionsGrow(rest);
      var j := KeptIsSuffix(rest, cutoff);
      k := j + 1;
      assert rest[j..] == wal[k..];
      forall i | 0 <= i < k ensures wal[i].position.segmentId < cutoff {
        if i > 0 { assert rest[i - 1] == wal[i]; }
      }
    } else {
      k := 0;
      KeptAll(wal, cutoff);
    }
  }

  lemma {:induction false} KeptAll(wal: seq<Entry>, cutoff: nat)
    requires PositionsGrow(wal) && (wal == [] || wal[0].position.segmentId >= cutoff)
    ensures Kept(wal, cutoff) == wal
  {
    if wal != [] {
      var rest := wal[1..];
      forall i, j | 0 <= i < j < |rest| ensures PositionLess(rest[i].position, rest[j].position) {
        assert PositionLess(wal[i + 1].position, wal[j + 1].position);
      }
      if rest != [] {
        assert PositionLess(wal[0].position, wal[1].position);
      }
      KeptAll(rest, cutoff);
      assert wal == [wal[0]] + rest;
    }
  }

  /** Dropping whole records from the front of the log moves no mark and loses no record past it. */
  lemma TruncationKeepsLog(s: System, t: System, k: nat, mark: Option<WalPosition>, n: nat)
    requires LogOk(s) && k <= |s.disk.wal|
    requires t.disk.wal == s.disk.wal[k..] && t.disk.active == s.disk.active && t.history == s.history
    requires Separates(s, mark, n) && n == |s.history|
    requires mark.None? ==> k == 0
    requires mark.Some? && mark.value.segmentId == s.disk.active ==> k < |s.disk.wal|
    ensures LogOk(t) && Separates(t, mark, n) && Removed(t) == Removed(s) + k
  {
    forall i, j | 0 <= i < j < |t.disk.wal| ensures PositionLess(t.disk.wal[i].position, t.disk.wal[j].position) {
      assert PositionLess(s.disk.wal[i + k].position, s.disk.wal[j + k].position);
    }
    forall i | 0 <= i < |t.disk.wal| ensures t.disk.wal[i] == s.disk.wal[i + k] {}
  }

  lemma SnapshotKeepsInv(s: System, state: PersistedState)
    requires SystemInv(s) && WatermarkCurrent(s.memory) && Collected(s.memory.index, state)
    ensures SystemInv(Snapshotted(s, state))
  {
    hide Inv, Folded, Collected, IndexOf, Kept;
    var t := Snapshotted(s, state);
    var mark := s.memory.lastWalPosition;
    var k: nat := 0;
    assert s.disk.wal[0..] == s.disk.wal;
    if mark.Some? {
      var cutoff := if mark.value.segmentId + 1 < s.disk.active then mark.value.segmentId + 1 else s.disk.active;
      k := KeptIsSuffix(s.disk.wal, cutoff);
      if mark.value.segmentId == s.disk.active {
        assert s.disk.wal[|s.disk.wal| - 1].position == mark.value;
      }
    }
    TruncationKeepsLog(s, t, k, mark, |s.history|);
    InvListable(s.memory.index);
    LoadCollected(s.memory.index, state);
    assert t.history[..t.snapshotted] == t.history;
  }

  /** Cutting the log at its end, past a mark, keeps the log and the mark. */
  lemma CutKeepsLog(s: System, keep: nat, mark: Option<WalPosition>, n: nat)
    requires LogOk(s) && Separates(s, mark, n) && Removed(s) <= n <= keep <= |s.history|
    ensures LogOk(Lost(s, keep)) && Separates(Lost(s, keep), mark, n) && Removed(Lost(s, keep)) == Removed(s)
  {
    var t := Lost(s, keep);
    var lost := |s.history| - keep;
    assert t.disk.wal == s.disk.wal[..|s.disk.wal| - lost];
    forall i | 0 <= i < |t.disk.wal| ensures t.disk.wal[i] == s.disk.wal[i] {}
    forall i, j | 0 <= i < j < |t.disk.wal| ensures PositionLess(t.disk.wal[i].position, t.disk.wal[j].position) {
      assert PositionLess(s.disk.wal[i].position, s.disk.wal[j].position);
    }
  }

  lemma CrashKeepsInv(s: System, keep: nat)
    requires SystemInv(s) && s.synced <= keep <= |s.history|
    requires Inv(Folded(s.history[..keep]).index)
    ensures SystemInv(Lost(s, keep))
  {
    hide Inv, Folded, IndexOf, LogOk, Separates;
    var t := Lost(s, keep);
    FoldedPrefix(s.history, keep);
    CutKeepsLog(s, keep, Watermark(s.disk), s.snapshotted);
    assert t.history[..t.snapshotted] == s.history[..s.snapshotted];
  }

  lemma ReopenKeepsInv(s: System, roll: bool)
    requires SystemInv(s) && s.memory.Down?
    ensures SystemInv(Reopened(s, roll)) && Reopened(s, roll).memory.Up?
  {
    hide Inv, Folded, Opened, Uncovered, IndexOf;
    OpensExactly(s);
    UncoveredIsTail(s);
  }

  /** The history grew record by record from nothing, each record fitting the indexes before it. */
  lemma {:induction false} StepKeepsInv(cfg: Config, strategy: Strategy, s: System, step: Step)
    requires SystemInv(s) && Grown(s.history) && Enabled(strategy, s, step)
    ensures SystemInv(Next(cfg, strategy, s, step)) && Grown(Next(cfg, strategy, s, step).history)
  {
    hide Inv, Folded, Collected, Perform, AppendThenDie, LogOk, SnapshotOk, MemoryOk, FlagOk, Flushed, Stopped;
    var t := Next(cfg, strategy, s, step);
    match step
    case Do(op, inp, position) =>
      DoKeepsInv(cfg, strategy, s, op, inp, position, false);
      DoGrows(cfg, strategy, s, op, inp, position, false);
      GrownAppend(s.history, t.history);
    case DieDuring(op, inp, position, flushed) =>
      DoKeepsInv(cfg, strategy, s, op, inp, position, flushed);
      DoGrows(cfg, strategy, s, op, inp, position, flushed);
      GrownAppend(s.history, t.history);
    case Sync => FlushKeepsInv(s);
    case Stop(flushed) => FlushKeepsInv(s);
    case TakeSnapshot(state) =>
      SnapshotKeepsInv(s, state);
      FlushKeepsInv(s);
    case Crash(keep) =>
      CrashKeepsInv(s, keep);
      forall n | 0 <= n <= keep ensures s.history[..keep][..n] == s.history[..n] {}
    case Reopen(roll) => ReopenKeepsInv(s, roll);
  }

  lemma FlushKeepsInv(s: System)
    requires SystemInv(s)
    ensures SystemInv(Flushed(s)) && SystemInv(Stopped(s)) && SystemInv(Stopped(Flushed(s)))
    ensures Flushed(s).history == s.history == Stopped(s).history == Stopped(Flushed(s)).history
  {
    hide Inv, Folded, LogOk, SnapshotOk, Separates;
    SyncBounds(s);
    SameDisk(s, Flushed(s));
    SameDisk(s, Stopped(s));
    SameDisk(s, Stopped(Flushed(s)));
  }

  /** The history after an operation that was answered, or that was not. */
  function HistoryAfter(cfg: Config, s: System, op: Operation, inp: Inputs, told: bool): seq<Logged>
    requires s.memory.Up?
  {
    var plan := PlanOf(cfg, s.memory.index, op, inp);
    if plan.Persist? then s.history + [EntryOf(op, plan, told)] else s.history
  }

  lemma DoGrows(cfg: Config, strategy: Strategy, s: System, op: Operation, inp: Inputs, position: WalPosition,
                flushed: bool)
    requires s.memory.Up?
    ensures Perform(cfg, strategy, s, op, inp, position).history == HistoryAfter(cfg, s, op, inp, true)
    ensures AppendThenDie(cfg, strategy, s, op, inp, position, flushed).history == HistoryAfter(cfg, s, op, inp, false)
    ensures forall told :: var h := HistoryAfter(cfg, s, op, inp, told);
                           h == s.history || exists e :: h == s.history + [e]
  {
    hide PlanOf, ApplyRecord;
  }

  lemma GrownAppend(h: seq<Logged>, g: seq<Logged>)
    requires Grown(h) && Folded(g).error.None? && Inv(Folded(g).index)
    requires g == h || exists e :: g == h + [e]
    ensures Grown(g)
  {
    hide Inv, Folded;
    forall n | 0 <= n <= |g| ensures Folded(g[..n]).error.None? && Inv(Folded(g[..n]).index) {
      if n == |g| {
        assert g[..n] == g;
      } else {
        assert g[..n] == h[..n];
      }
    }
  }

  lemma InitialInv()
    ensures SystemInv(NewSystem) && Grown(NewSystem.history)
  {
    InvEmpty();
    assert Folded([]) == Applied(EmptyIndex, None);
  }

  lemma {:induction false} RunKeepsInv(cfg: Config, strategy: Strategy, steps: seq<Step>)
    requires Possible(cfg, strategy, steps)
    ensures SystemInv(Run(cfg, strategy, steps)) && Grown(Run(cfg, strategy, steps).history)
  {
    hide SystemInv, Grown, Enabled, Next;
    if steps == [] {
      InitialInv();
    } else {
      var front := steps[..|steps| - 1];
      forall i | 0 <= i < |front| ensures front[..i] == steps[..i] && front[i] == steps[i] {}
      RunKeepsInv(cfg, strategy, front);
      StepKeepsInv(cfg, strategy, Run(cfg, strategy, front), steps[|steps| - 1]);
    }
  }

  lemma PossibleSnoc(cfg: Config, strategy: Strategy, front: seq<Step>, step: Step)
    requires Possible(cfg, strategy, front) && Enabled(strategy, Run(cfg, strategy, front), step)
    ensures Possible(cfg, strategy, front + [step])
    ensures Run(cfg, strategy, front + [step]) == Next(cfg, strategy, Run(cfg, strategy, front), step)
  {
    hide Enabled, Next, Run;
    var all := front + [step];
    forall i | 0 <= i < |all| ensures Enabled(strategy, Run(cfg, strategy, all[..i]), all[i]) {
      if i < |front| {
        assert all[..i] == front[..i] && all[i] == front[i];
      } else {
        assert all[..i] == front;
      }
    }
    RunSnoc(cfg, strategy, front, step);
  }

  lemma PossibleFront(cfg: Config, strategy: Strategy, front: seq<Step>, step: Step)
    requires Possible(cfg, strategy, front + [step])
    ensures Possible(cfg, strategy, front) && Enabled(strategy, Run(cfg, strategy, front), step)
  {
    hide Enabled, Run;
    var all := front + [step];
    forall i | 0 <= i < |front| ensures all[..i] == front[..i] && all[i] == front[i] {}
    assert all[..|front|] == front && all[|front|] == step;
  }

  lemma RunSnoc(cfg: Config, strategy: Strategy, front: seq<Step>, step: Step)
    ensures Run(cfg, strategy, front + [step]) == Next(cfg, strategy, Run(cfg, strategy, front), step)
  {
    hide Next;
    assert (front + [step])[..|front|] == front;
  }

  /**
    Along every run of operations, snapshots, truncations, crashes and reopenings:
    opening the disk as it stands succeeds and gives exactly the indexes obtained
    by applying every surviving record once, in order; those indexes satisfy the
    ledger's invariant; and a ledger that is up already has them in memory.
   */
  lemma RecoveryIsExact(cfg: Config, strategy: Strategy, steps: seq<Step>)
    requires Possible(cfg, strategy, steps)
    ensures var s := Run(cfg, strategy, steps);
            && Opened(s.disk) == Folded(s.history)
            && Opened(s.disk).error.None?
            && Inv(Opened(s.disk).index)
            && (s.memory.Up? ==> s.memory.index == Opened(s.disk).index)
  {
    hide Inv, Folded, Opened, Run, Possible;
    RunKeepsInv(cfg, strategy, steps);
    OpensExactly(Run(cfg, strategy, steps));
  }

  /** Nothing past this point of the history was ever answered. */
  predicate ToldUpTo(h: seq<Logged>, n: nat) {
    forall i :: n <= i < |h| ==> !h[i].told
  }

  lemma AlwaysStep(cfg: Config, s: System, step: Step)
    requires s.synced <= |s.history| && ToldUpTo(s.history, s.synced) && Enabled(Always, s, step)
    ensures var t := Next(cfg, Always, s, step); t.synced <= |t.history| && ToldUpTo(t.history, t.synced)
  {
    hide PlanOf, ApplyRecord, Opened, Truncated, Uncovered, NeverUsed, NextPosition, Collected, Watermark;
  }

  /**
    Under `Always`, every record whose caller was answered is on disk, so no crash loses
    it, and this with processes that die between the write and the sync.
   */
  lemma {:induction false} AlwaysSynced(cfg: Config, steps: seq<Step>)
    requires Possible(cfg, Always, steps)
    ensures var s := Run(cfg, Always, steps); s.synced <= |s.history| && ToldUpTo(s.history, s.synced)
  {
    if steps != [] {
      hide Enabled, Next, ToldUpTo;
      var front, step := steps[..|steps| - 1], steps[|steps| - 1];
      forall i | 0 <= i < |front| ensures front[..i] == steps[..i] && front[i] == steps[i] {}
      AlwaysSynced(cfg, front);
      AlwaysStep(cfg, Run(cfg, Always, front), step);
    }
  }

  lemma CrashLeaves(cfg: Config, strategy: Strategy, s: System, keep: nat)
    requires keep <= |s.history|
    ensures Next(cfg, strategy, s, Crash(keep)) == Lost(s, keep)
    ensures Lost(s, keep).disk == s.disk.(wal := Lost(s, keep).disk.wal) && |Lost(s, keep).history| == keep
  {
    hide Perform, AppendThenDie, Snapshotted, Reopened;
  }

  /**
    A crash loses nothing that was synced: the surviving history is a prefix that contains
    it. Under `Always` it contains every record whose caller was answered.
   */
  lemma CrashKeepsSynced(cfg: Config, strategy: Strategy, steps: seq<Step>, keep: nat)
    requires Possible(cfg, strategy, steps + [Crash(keep)])
    ensures var s := Run(cfg, strategy, steps);
            var t := Run(cfg, strategy, steps + [Crash(keep)]);
            && t.history <= s.history
            && s.history[..s.synced] <= t.history
            && Opened(t.disk) == Folded(s.history[..keep])
            && (strategy.Always? ==> ToldUpTo(s.history, |t.history|))
  {
    hide Run, Possible, Next, Folded, Opened, Inv;
    var s := Run(cfg, strategy, steps);
    PossibleFront(cfg, strategy, steps, Crash(keep));
    RunSnoc(cfg, strategy, steps, Crash(keep));
    RecoveryIsExact(cfg, strategy, steps + [Crash(keep)]);
    CrashLeaves(cfg, strategy, s, keep);
    if strategy.Always? {
      AlwaysSynced(cfg, steps);
    }
  }
}
