/**
  The log writer on values: what appending, rolling, group commit, truncation, a
  crash and opening do to the segment files and to the writer's own fields.
 */
module WalLog {
  import opened Basics
  import opened LogPositions
  import opened WalFormat
  import opened WalRecovery

  datatype Config = Config(maxSegmentSize: nat, strategy: Strategy)

  /** A file and how much of it is known to have reached the disk. */
  datatype Segment = Segment(id: nat, data: Bytes, synced: nat)

  datatype Writer = Writer(segmentId: nat, segmentLen: nat, dirty: bool)

  /** The directory, in id order, and the running writer if there is one. */
  datatype Log = Log(segments: seq<Segment>, writer: Option<Writer>)

  function FileOf(s: Segment): SegmentFile {
    SegmentFile(s.id, s.data)
  }

  function Files(segments: seq<Segment>): (r: seq<SegmentFile>)
    ensures |r| == |segments|
  {
    seq(|segments|, i requires 0 <= i < |segments| => FileOf(segments[i]))
  }

  /** A writer runs and has its active segment open: the last file. */
  predicate Running(log: Log) {
    log.writer.Some? && log.segments != []
  }

  function Active(log: Log): Segment
    requires log.segments != []
  {
    log.segments[|log.segments| - 1]
  }

  function WithActive(log: Log, s: Segment): seq<Segment>
    requires log.segments != []
  {
    log.segments[..|log.segments| - 1] + [s]
  }

  function Synced(s: Segment): Segment {
    s.(synced := |s.data|)
  }

  // ----- The writer -------------------------------------------------------------------------

  function Roll(cfg: Config, log: Log): (r: Log)
    requires Running(log)
    ensures Running(r)
  {
    var w := log.writer.value;
    var sealed := if w.dirty && !cfg.strategy.No? then WithActive(log, Synced(Active(log))) else log.segments;
    Log(sealed + [Segment(w.segmentId + 1, [], 0)], Some(Writer(w.segmentId + 1, 0, false)))
  }

  predicate MustRoll(cfg: Config, w: Writer, length: nat) {
    w.segmentLen > 0 && w.segmentLen + length > cfg.maxSegmentSize
  }

  /** The log the record is written to: the same one, or one with a fresh segment. */
  function Prepared(cfg: Config, log: Log, r: Record): (p: Log)
    requires Running(log)
    ensures Running(p)
  {
    if MustRoll(cfg, log.writer.value, |Encode(r)|) then Roll(cfg, log) else log
  }

  function Written(log: Log, r: Record): (l: Log)
    requires Running(log)
    ensures Running(l)
  {
    var w, s := log.writer.value, Active(log);
    Log(WithActive(log, s.(data := s.data + Encode(r))), Some(Writer(w.segmentId, w.segmentLen + |Encode(r)|, true)))
  }

  function Position(log: Log): WalPosition
    requires Running(log)
  {
    WalPosition(log.writer.value.segmentId, log.writer.value.segmentLen)
  }

  function AppendTo(cfg: Config, log: Log, r: Record): (l: Log)
    requires Running(log)
    ensures Running(l)
  {
    Written(Prepared(cfg, log, r), r)
  }

  function SyncActive(log: Log): (l: Log)
    requires Running(log)
    ensures Running(l)
  {
    Log(WithActive(log, Synced(Active(log))), Some(log.writer.value.(dirty := false)))
  }

  /** Group commit: at most one sync for the whole batch, before anyone is answered. */
  function Commit(cfg: Config, log: Log, flush: bool): (l: Log)
    requires Running(log)
    ensures Running(l)
  {
    if log.writer.value.dirty && (cfg.strategy.Always? || flush) then SyncActive(log) else log
  }

  function Tick(cfg: Config, log: Log): (l: Log)
    requires Running(log)
    ensures Running(l)
  {
    if cfg.strategy.Everysec? && log.writer.value.dirty then SyncActive(log) else log
  }

  // ----- Truncation ---------------------------------------------------------------------------

  function KeepFrom(segments: seq<Segment>, cutoff: nat): seq<Segment> {
    if segments == [] then []
    else (if segments[0].id < cutoff then [] else [segments[0]]) + KeepFrom(segments[1..], cutoff)
  }

  function Cutoff(log: Log, segmentId: nat): nat
    requires Running(log)
  {
    if segmentId < log.writer.value.segmentId then segmentId else log.writer.value.segmentId
  }

  // ----- Crashes and opening -----------------------------------------------------------------

  /** Each file may lose any part that was not yet synced. */
  predicate ValidCuts(segments: seq<Segment>, cuts: seq<nat>) {
    |cuts| == |segments| && forall i :: 0 <= i < |segments| ==> segments[i].synced <= cuts[i] <= |segments[i].data|
  }

  /** What survives is on disk for good. */
  function CutTo(s: Segment, n: nat): Segment
    requires n <= |s.data|
  {
    Segment(s.id, s.data[..n], n)
  }

  function CutAll(segments: seq<Segment>, cuts: seq<nat>): (r: seq<Segment>)
    requires ValidCuts(segments, cuts)
    ensures |r| == |segments|
  {
    seq(|segments|, i requires 0 <= i < |segments| => CutTo(segments[i], cuts[i]))
  }

  /** The last segment as recovery leaves it. */
  function RepairedSegment(s: Segment): Segment {
    var data := Repaired(FileOf(s)).data;
    Segment(s.id, data, if s.synced < |data| then s.synced else |data|)
  }

  datatype OpenError = SegmentsTooSmall | Damaged(corruption: Corruption)

  /** Appending continues in the last segment unless it is full. */
  function Opened(cfg: Config, segments: seq<Segment>): Result<Log, OpenError> {
    if cfg.maxSegmentSize <= HEADER_LEN then Err(SegmentsTooSmall)
    else if Recovered(Files(segments)).Err? then Err(Damaged(Recovered(Files(segments)).error))
    else if segments == [] then Ok(Log([Segment(1, [], 0)], Some(Writer(1, 0, false))))
    else
      var last := RepairedSegment(segments[|segments| - 1]);
      var repaired := segments[..|segments| - 1] + [last];
      if |last.data| < cfg.maxSegmentSize then Ok(Log(repaired, Some(Writer(last.id, |last.data|, false))))
      else Ok(Log(repaired + [Segment(last.id + 1, [], 0)], Some(Writer(last.id + 1, 0, false))))
  }
}
