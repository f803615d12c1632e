/**
  The ledger as a state machine over its disk and its memory: operations,
  snapshots with log truncation, crashes that lose unsynced records, and reopening.

  Each operation, and each snapshot with its truncation, is one step.
 */
module LedgerSystem {
  import opened Basics
  import opened LedgerModel
  import opened LogPositions
  import opened LedgerIndexes
  import opened LedgerOps
  import opened LedgerInvariant

  // ----- State ----------------------------------------------------------------------

  datatype Entry = Entry(position: WalPosition, kind: RecordKind)

  datatype Snapshot = Snapshot(state: PersistedState, watermark: Option<WalPosition>)

  datatype Disk = Disk(wal: seq<Entry>, active: nat, snapshot: Option<Snapshot>)

  datatype Memory =
    | Down
    | Up(index: Index, lastWalPosition: Option<WalPosition>, replayed: nat, appended: nat)

  /** Why a record was written. */
  datatype Cause = Granted | Lapsed | Moved(transition: EffectTransition) | OtherCause

  /** A record, why it was written, and whether the process lived to answer the request. */
  datatype Logged = Logged(kind: RecordKind, cause: Cause, told: bool)

  /**
    `dirty` is the log writer's flag. `history`, `synced`, `snapshotted` and `replies`
    are book-keeping for the statements below: every record ever appended that has not
    been lost, how many of them are durable, how many the snapshot on disk contains,
    and every reply ever returned to a caller.
   */
  datatype System = System(disk: Disk, memory: Memory, dirty: bool, history: seq<Logged>, synced: nat,
                           snapshotted: nat, replies: seq<Reply>)

  const NewSystem: System := System(Disk([], 1, None), Down, false, [], 0, 0, [])

  function Kinds(history: seq<Logged>): (r: seq<RecordKind>)
    ensures |r| == |history|
  {
    seq(|history|, i requires 0 <= i < |history| => history[i].kind)
  }

  /** The indexes as the whole history defines them. */
  function Folded(history: seq<Logged>): Applied {
    ApplyAll(EmptyIndex, Kinds(history))
  }

  // ----- Opening ----------------------------------------------------------------------

  predicate Covered(watermark: Option<WalPosition>, position: WalPosition) {
    watermark.Some? && PositionLeq(position, watermark.value)
  }

  /** The records replay applies: those past the watermark, in log order. */
  function Uncovered(wal: seq<Entry>, watermark: Option<WalPosition>): seq<RecordKind> {
    if wal == [] then []
    else
      var front := Uncovered(wal[..|wal| - 1], watermark);
      if Covered(watermark, wal[|wal| - 1].position) then front else front + [wal[|wal| - 1].kind]
  }

  function Watermark(disk: Disk): Option<WalPosition> {
    if disk.snapshot.Some? then disk.snapshot.value.watermark else None
  }

  function SnapshotIndex(disk: Disk): Index {
    if disk.snapshot.Some? then IndexOf(disk.snapshot.value.state) else EmptyIndex
  }

  /** What opening this disk rebuilds. */
  function Opened(disk: Disk): Applied {
    ApplyAll(SnapshotIndex(disk), Uncovered(disk.wal, Watermark(disk)))
  }

  // ----- Truncation ---------------------------------------------------------------------

  /** The log without the segments below the cutoff. */
  function Kept(wal: seq<Entry>, cutoff: nat): seq<Entry> {
    if wal == [] then []
    else if wal[0].position.segmentId < cutoff then Kept(wal[1..], cutoff)
    else [wal[0]] + Kept(wal[1..], cutoff)
  }

  /** Segments the watermark covers go, but never the active one. */
  function Truncated(disk: Disk, watermark: Option<WalPosition>): seq<Entry> {
    match watermark
    case None => disk.wal
    case Some(w) => Kept(disk.wal, if w.segmentId + 1 < disk.active then w.segmentId + 1 else disk.active)
  }

  // ----- Steps -----------------------------------------------------------------------------

  datatype Step =
    | Do(op: Operation, inp: Inputs, position: WalPosition)
    | DieDuring(op: Operation, inp: Inputs, position: WalPosition, flushed: bool)
    | Sync
    | Stop(flushed: bool)
    | TakeSnapshot(state: PersistedState)
    | Crash(keep: nat)
    | Reopen(roll: bool)

  function CauseOf(op: Operation, reply: Reply): Cause {
    if op.Acquire? then (if reply.Decided? && reply.decision.Execute? then Granted else Lapsed)
    else if op.Transition? then Moved(op.update.transition)
    else OtherCause
  }

  /** The log hands out growing positions, in the active segment or a later one. */
  predicate NextPosition(disk: Disk, p: WalPosition) {
    && p.segmentId >= disk.active
    && (disk.wal != [] ==> PositionLess(disk.wal[|disk.wal| - 1].position, p))
  }

  /** No record ever written carries an identifier minted now. */
  predicate NeverUsed(history: seq<Logged>, id: Uuid) {
    forall i :: 0 <= i < |history| ==>
      && (history[i].kind.EffectApplied? ==> history[i].kind.effect.id != id)
      && (history[i].kind.RunCreated? ==> history[i].kind.run.id != id)
      && (history[i].kind.RunUpdated? ==> history[i].kind.run.id != id)
  }

  /** Something was persisted since the ledger was opened, or opening replayed nothing. */
  predicate WatermarkCurrent(m: Memory) {
    m.Up? && (m.appended > 0 || m.replayed == 0)
  }

  /**
    The log may leave its segment for the next: all of it is on disk, or the roll syncs
    it. A log that moves on regardless is one recovery can refuse, and no longer a run here.
   */
  predicate MayRoll(strategy: Strategy, s: System) {
    s.synced == |s.history| || (s.dirty && !strategy.No?)
  }

  predicate CanAppend(strategy: Strategy, s: System, position: WalPosition) {
    NextPosition(s.disk, position) && (position.segmentId > s.disk.active ==> MayRoll(strategy, s))
  }

  ghost predicate Enabled(strategy: Strategy, s: System, step: Step) {
    match step
    case Do(op, inp, position) =>
      s.memory.Up? && CanAppend(strategy, s, position) && NeverUsed(s.history, inp.newId)
    case DieDuring(op, inp, position, _) =>
      s.memory.Up? && CanAppend(strategy, s, position) && NeverUsed(s.history, inp.newId)
    case Sync => s.memory.Up?
    case Stop(_) => s.memory.Up?
    case TakeSnapshot(state) => WatermarkCurrent(s.memory) && Collected(s.memory.index, state)
    case Crash(keep) => s.synced <= keep <= |s.history|
    case Reopen(roll) => s.memory.Down? && (roll ==> s.synced == |s.history|)
  }

  /** The log after writing a record; leaving a segment syncs it first if the flag is up, except under `No`. */
  function Append(strategy: Strategy, s: System, position: WalPosition, entry: Logged): System {
    s.(disk := s.disk.(wal := s.disk.wal + [Entry(position, entry.kind)], active := position.segmentId),
       dirty := true,
       history := s.history + [entry],
       synced := if position.segmentId > s.disk.active && s.dirty && !strategy.No? then |s.history| else s.synced)
  }

  /** A sync happens only if the flag is up. */
  function Flushed(s: System): System {
    if s.dirty then s.(dirty := false, synced := |s.history|) else s
  }

  /** What happens before the appender is answered: a sync under `Always`. */
  function GroupCommit(strategy: Strategy, s: System): System {
    if strategy.Always? then Flushed(s) else s
  }

  function EntryOf(op: Operation, plan: Plan, told: bool): Logged
    requires plan.Persist?
  {
    Logged(plan.kind, CauseOf(op, plan.reply), told)
  }

  function Perform(cfg: Config, strategy: Strategy, s: System, op: Operation, inp: Inputs,
                   position: WalPosition): System
    requires s.memory.Up?
  {
    var plan := PlanOf(cfg, s.memory.index, op, inp);
    match plan
    case Refuse(_) => s
    case Answer(reply) => s.(replies := s.replies + [reply])
    case Persist(kind, reply) =>
      var logged := GroupCommit(strategy, Append(strategy, s, position, EntryOf(op, plan, true)));
      var applied := ApplyRecord(s.memory.index, kind);
      if applied.error.Some? then logged.(memory := s.memory.(index := applied.index))
      else logged.(memory := Up(applied.index, Some(position), s.memory.replayed, s.memory.appended + 1),
                   replies := s.replies + [reply])
  }

  /** The process is gone, and its flag with it. */
  function Stopped(s: System): System {
    s.(memory := Down, dirty := false)
  }

  /** The record is written, and perhaps synced, but nobody is left to answer. */
  function AppendThenDie(cfg: Config, strategy: Strategy, s: System, op: Operation, inp: Inputs,
                         position: WalPosition, flushed: bool): System
    requires s.memory.Up?
  {
    var plan := PlanOf(cfg, s.memory.index, op, inp);
    if !plan.Persist? then Stopped(s)
    else
      var logged := Append(strategy, s, position, EntryOf(op, plan, false));
      Stopped(if flushed then Flushed(logged) else logged)
  }

  function Snapshotted(s: System, state: PersistedState): System
    requires s.memory.Up?
  {
    var watermark := s.memory.lastWalPosition;
    Flushed(s).(disk := s.disk.(wal := Truncated(s.disk, watermark), snapshot := Some(Snapshot(state, watermark))),
                snapshotted := |s.history|)
  }

  function Lost(s: System, keep: nat): System
    requires keep <= |s.history|
  {
    var lost := |s.history| - keep;
    Stopped(s).(disk := s.disk.(wal := if lost <= |s.disk.wal| then s.disk.wal[..|s.disk.wal| - lost] else []),
                history := s.history[..keep], synced := keep)
  }

  /** Reopening starts with the flag down, whatever the dead process left unsynced. */
  function Reopened(s: System, roll: bool): System {
    var rebuilt := Opened(s.disk);
    if rebuilt.error.Some? then s
    else s.(disk := s.disk.(active := if roll then s.disk.active + 1 else s.disk.active),
            memory := Up(rebuilt.index, Watermark(s.disk), |Uncovered(s.disk.wal, Watermark(s.disk))|, 0),
            dirty := false)
  }

  function Next(cfg: Config, strategy: Strategy, s: System, step: Step): System {
    match step
    case Do(op, inp, position) => if s.memory.Up? then Perform(cfg, strategy, s, op, inp, position) else s
    case DieDuring(op, inp, position, flushed) =>
      if s.memory.Up? then AppendThenDie(cfg, strategy, s, op, inp, position, flushed) else s
    case Sync => Flushed(s)
    case Stop(flushed) => Stopped(if flushed then Flushed(s) else s)
    case TakeSnapshot(state) => if s.memory.Up? then Snapshotted(s, state) else s
    case Crash(keep) => if keep <= |s.history| then Lost(s, keep) else s
    case Reopen(roll) => Reopened(s, roll)
  }

  function Run(cfg: Config, strategy: Strategy, steps: seq<Step>): System {
    if steps == [] then NewSystem
    else Next(cfg, strategy, Run(cfg, strategy, steps[..|steps| - 1]), steps[|steps| - 1])
  }

  /** Every step was possible where it was taken. */
  ghost predicate Possible(cfg: Config, strategy: Strategy, steps: seq<Step>) {
    forall i :: 0 <= i < |steps| ==> Enabled(strategy, Run(cfg, strategy, steps[..i]), steps[i])
  }

  // ----- The invariant of the whole system ----------------------------------------------------

  /** How many records truncation has removed from the log. */
  function Removed(s: System): int {
    |s.history| - |s.disk.wal|
  }

  predicate PositionsGrow(wal: seq<Entry>) {
    forall i, j :: 0 <= i < j < |wal| ==> PositionLess(wal[i].position, wal[j].position)
  }

  /** The log is the tail of the history, at growing positions up to the active segment. */
  predicate LogOk(s: System) {
    && 0 <= Removed(s)
    && (forall i :: 0 <= i < |s.disk.wal| ==> s.disk.wal[i].kind == s.history[Removed(s) + i].kind)
    && PositionsGrow(s.disk.wal)
    && (forall i :: 0 <= i < |s.disk.wal| ==> s.disk.wal[i].position.segmentId <= s.disk.active)
  }

  /** A position that separates the first `n` records of the history from the rest, now and later. */
  predicate Separates(s: System, mark: Option<WalPosition>, n: nat) {
    match mark
    case None => n == 0
    case Some(w) =>
      && Removed(s) <= n <= |s.history|
      && (forall i :: 0 <= i < |s.disk.wal| ==> (PositionLeq(s.disk.wal[i].position, w) <==> Removed(s) + i < n))
      && w.segmentId <= s.disk.active
      && (w.segmentId == s.disk.active ==> Removed(s) < n && s.disk.wal[n - 1 - Removed(s)].position == w)
  }

  /** The snapshot holds exactly a durable prefix of the history, and its watermark marks that prefix. */
  predicate SnapshotOk(s: System) {
    && Removed(s) <= s.snapshotted <= s.synced <= |s.history|
    && (s.disk.snapshot.None? ==> s.snapshotted == 0)
    && Separates(s, Watermark(s.disk), s.snapshotted)
    && SnapshotIndex(s.disk) == Folded(s.history[..s.snapshotted]).index
  }

  predicate MemoryOk(s: System) {
    s.memory.Up? ==>
      && s.memory.index == Folded(s.history).index
      && (WatermarkCurrent(s.memory) ==> Separates(s, s.memory.lastWalPosition, |s.history|))
  }

  /** Where a snapshot may be taken, the flush before it leaves everything on disk. */
  predicate FlagOk(s: System) {
    WatermarkCurrent(s.memory) ==> s.dirty || s.synced == |s.history|
  }

  ghost predicate SystemInv(s: System) {
    && Folded(s.history).error.None?
    && Inv(Folded(s.history).index)
    && LogOk(s)
    && SnapshotOk(s)
    && MemoryOk(s)
    && FlagOk(s)
  }
}
