/**
  The log writer as the object it is: a task that owns the active segment, rolls it,
  writes batches, commits them, and truncates old segments.
 */
module WalService {
  import opened Basics
  import opened LogPositions
  import opened WalFormat
  import opened WalRecovery
  import opened WalLog

  datatype Message = Append(record: Record) | Flush

  /** The log after the appends of a batch, before its commit. */
  function AfterMessages(cfg: Config, log: Log, messages: seq<Message>): (l: Log)
    requires Running(log)
    ensures Running(l)
  {
    if messages == [] then log
    else
      var before := AfterMessages(cfg, log, messages[..|messages| - 1]);
      match messages[|messages| - 1]
      case Append(r) => AppendTo(cfg, before, r)
      case Flush => before
  }

  /** Where each append of a batch went, in order. */
  function PositionsOf(cfg: Config, log: Log, messages: seq<Message>): seq<WalPosition>
    requires Running(log)
  {
    if messages == [] then []
    else
      var n := |messages| - 1;
      match messages[n]
      case Append(r) =>
        PositionsOf(cfg, log, messages[..n]) + [Position(Prepared(cfg, AfterMessages(cfg, log, messages[..n]), r))]
      case Flush => PositionsOf(cfg, log, messages[..n])
  }

  class WriterTask {
    const cfg: Config
    var segments: seq<Segment>
    var segmentId: nat
    var segmentLen: nat
    var dirty: bool

    constructor (cfg: Config, segments: seq<Segment>, segmentId: nat, segmentLen: nat)
      requires segments != []
      ensures this.cfg == cfg && Valid() && Contents() == Log(segments, Some(Writer(segmentId, segmentLen, false)))
    {
      this.cfg, this.segments, this.segmentId, this.segmentLen, dirty := cfg, segments, segmentId, segmentLen, false;
    }

    predicate Valid()
      reads this
    {
      segments != []
    }

    function Contents(): Log
      reads this
    {
      Log(segments, Some(Writer(segmentId, segmentLen, dirty)))
    }

    method FlushFile(syncData: bool)
      requires Valid()
      modifies this`segments
      ensures Valid()
      ensures segments == if syncData then WithActive(old(Contents()), Synced(Active(old(Contents())))) else old(segments)
    {
      if syncData {
        var n := |segments| - 1;
        segments := segments[n := segments[n].(synced := |segments[n].data|)];
      }
    }

    method RollSegment()
      requires Valid()
      modifies this
      ensures Valid() && Contents() == Roll(cfg, old(Contents()))
    {
      if dirty {
        FlushFile(!cfg.strategy.No?);
        dirty := false;
      }
      segmentId := segmentId + 1;
      segments := segments + [Segment(segmentId, [], 0)];
      segmentLen := 0;
    }

    /** Writes one record, in a fresh segment if it does not fit this one; says where it went. */
    method HandleAppend(record: Record) returns (position: WalPosition)
      requires Valid()
      modifies this
      ensures Valid() && Contents() == AppendTo(cfg, old(Contents()), record)
      ensures position == Position(Prepared(cfg, old(Contents()), record))
    {
      hide Encode;
      var encoded := EncodeRecord(record, []);
      assert encoded == Encode(record);
      if segmentLen > 0 && segmentLen + |encoded| > cfg.maxSegmentSize {
        RollSegment();
      }
      position := WalPosition(segmentId, segmentLen);
      var n := |segments| - 1;
      segments := segments[n := segments[n].(data := segments[n].data + encoded)];
      segmentLen := segmentLen + |encoded|;
      dirty := true;
    }

    /** One turn of the writer loop: drain the queue, sync at most once, then answer everyone. */
    method RunBatch(messages: seq<Message>) returns (acks: seq<WalPosition>)
      requires Valid()
      modifies this
      ensures Valid()
      ensures Contents() == Commit(cfg, AfterMessages(cfg, old(Contents()), messages), Flush in messages)
      ensures acks == PositionsOf(cfg, old(Contents()), messages)
      ensures cfg.strategy.Always? || Flush in messages ==> !dirty
    {
      hide AppendTo, Prepared, Position;
      ghost var start := Contents();
      acks := [];
      var flushers := 0;
      for i := 0 to |messages|
        invariant Valid()
        invariant Contents() == AfterMessages(cfg, start, messages[..i])
        invariant acks == PositionsOf(cfg, start, messages[..i])
        invariant flushers > 0 <==> Flush in messages[..i]
        invariant flushers >= 0
      {
        assert messages[..i + 1][..i] == messages[..i];
        assert messages[..i + 1] == messages[..i] + [messages[i]];
        match messages[i] {
          case Append(record) =>
            var position := HandleAppend(record);
            acks := acks + [position];
          case Flush =>
            flushers := flushers + 1;
        }
      }
      assert messages[..|messages|] == messages;
      var mustSync := dirty && (cfg.strategy.Always? || flushers > 0);
      if mustSync {
        FlushFile(true);
        dirty := false;
      }
    }

    /** The tick, taken only under `Everysec` and only with something to sync. */
    method OnTick()
      requires Valid()
      modifies this
      ensures Valid() && Contents() == Tick(cfg, old(Contents()))
    {
      if cfg.strategy.Everysec? && dirty {
        FlushFile(true);
        dirty := false;
      }
    }

    /** Deletes the files below the cutoff, which is never above the active segment. */
    method TruncateBefore(before: nat) returns (removed: nat)
      requires Valid()
      modifies this`segments
      ensures segments == KeepFrom(old(segments), Cutoff(old(Contents()), before))
      ensures removed == |old(segments)| - |segments|
    {
      var cutoff := if before < segmentId then before else segmentId;
      var kept: seq<Segment> := [];
      removed := 0;
      for i := 0 to |segments|
        invariant segments == old(segments)
        invariant kept + KeepFrom(segments[i..], cutoff) == KeepFrom(segments, cutoff)
        invariant removed == i - |kept|
      {
        assert segments[i..][1..] == segments[i + 1..];
        if segments[i].id < cutoff {
          removed := removed + 1;
        } else {
          kept := kept + [segments[i]];
        }
      }
      segments := kept;
    }
  }

  /** Recovers the directory and starts the writer where appending should continue. */
  method OpenWriter(cfg: Config, segments: seq<Segment>) returns (r: Result<WriterTask, OpenError>)
    ensures r.Err? <==> Opened(cfg, segments).Err?
    ensures r.Err? ==> r.error == Opened(cfg, segments).error
    ensures r.Ok? ==> fresh(r.value) && r.value.cfg == cfg && r.value.Valid() && r.value.Contents() == Opened(cfg, segments).value
  {
    hide Scan, FirstFault;
    if cfg.maxSegmentSize <= HEADER_LEN {
      return Err(SegmentsTooSmall);
    }
    var report := Recover(Files(segments));
    if report.Err? {
      return Err(Damaged(report.error));
    }
    var n := |segments|;
    var task: WriterTask;
    if n == 0 {
      task := new WriterTask(cfg, [Segment(1, [], 0)], 1, 0);
    } else {
      var file := report.value.files[n - 1];
      var kept := segments[n - 1].synced;
      var last := Segment(file.id, file.data, if kept < |file.data| then kept else |file.data|);
      var repaired := segments[..n - 1] + [last];
      if |file.data| < cfg.maxSegmentSize {
        task := new WriterTask(cfg, repaired, last.id, |file.data|);
      } else {
        task := new WriterTask(cfg, repaired + [Segment(last.id + 1, [], 0)], last.id + 1, 0);
      }
    }
    return Ok(task);
  }
}
