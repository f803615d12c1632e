/**
  Building runs step by step: an opening, operations that write, and the states they reach.
 */
module LedgerExamples {
  import opened Basics
  import opened LedgerModel
  import opened LogPositions
  import opened LedgerIndexes
  import opened LedgerOps
  import opened LedgerSystem
  import opened LedgerRecovery

  /** A system with these records in its first segment and no snapshot; a flush leaves all of them on disk. */
  predicate Holding(s: System, entries: seq<Entry>) {
    && s.disk == Disk(entries, 1, None)
    && |s.history| == |entries|
    && s.synced <= |s.history|
    && (s.memory.Up? ==> s.dirty || s.synced == |s.history|)
  }

  lemma FirstOpening(cfg: Config, strategy: Strategy)
    ensures Possible(cfg, strategy, [Reopen(false)])
    ensures var s := Run(cfg, strategy, [Reopen(false)]);
            Holding(s, []) && s.history == [] && s.memory == Up(EmptyIndex, None, 0, 0)
  {
    hide ApplyRecord, Enabled, Perform, AppendThenDie, Snapshotted;
    assert Possible(cfg, strategy, []);
    OpenIsEnabled(strategy, NewSystem);
    PossibleSnoc(cfg, strategy, [], Reopen(false));
    assert [] + [Reopen(false)] == [Reopen(false)];
  }

  lemma OpenIsEnabled(strategy: Strategy, s: System)
    requires s.memory.Down?
    ensures Enabled(strategy, s, Reopen(false))
  {
  }

  lemma DoIsEnabled(strategy: Strategy, s: System, op: Operation, inp: Inputs, position: WalPosition)
    requires s.memory.Up? && NextPosition(s.disk, position) && position.segmentId == s.disk.active
    requires NeverUsed(s.history, inp.newId)
    ensures Enabled(strategy, s, Do(op, inp, position))
  {
  }

  /** An operation that writes, in the first segment. */
  lemma WritesNext(cfg: Config, strategy: Strategy, steps: seq<Step>, entries: seq<Entry>, op: Operation, inp: Inputs,
                   at: nat)
    requires Possible(cfg, strategy, steps) && Holding(Run(cfg, strategy, steps), entries)
    requires Run(cfg, strategy, steps).memory.Up? && NextPosition(Disk(entries, 1, None), WalPosition(1, at))
    requires NeverUsed(Run(cfg, strategy, steps).history, inp.newId)
    requires PlanOf(cfg, Run(cfg, strategy, steps).memory.index, op, inp).Persist?
    ensures var s := Run(cfg, strategy, steps);
            var all := steps + [Do(op, inp, WalPosition(1, at))];
            var plan := PlanOf(cfg, s.memory.index, op, inp);
            var t := Run(cfg, strategy, all);
            Possible(cfg, strategy, all) && Holding(t, entries + [Entry(WalPosition(1, at), plan.kind)]) &&
            t.history == s.history + [EntryOf(op, plan, true)] && t.memory.Up? &&
            t.memory.index == ApplyRecord(s.memory.index, plan.kind).index
  {
    hide Run, PlanOf, ApplyRecord, NeverUsed, Possible, Enabled, Snapshotted, Reopened, AppendThenDie;
    var s := Run(cfg, strategy, steps);
    DoIsEnabled(strategy, s, op, inp, WalPosition(1, at));
    PossibleSnoc(cfg, strategy, steps, Do(op, inp, WalPosition(1, at)));
  }

  lemma SyncIsEnabled(strategy: Strategy, s: System)
    requires s.memory.Up?
    ensures Enabled(strategy, s, Sync)
  {
  }

  lemma CrashIsEnabled(strategy: Strategy, s: System, keep: nat)
    requires s.synced <= keep <= |s.history|
    ensures Enabled(strategy, s, Crash(keep))
  {
  }

  lemma RunIsThere(run: RunRecord)
    ensures var ix := ApplyRecord(EmptyIndex, RunCreated(run)).index;
            ix.runs == map[run.id := run] && ix.effectIds == map[]
  {
  }
}
