/**
  Recovery of a log directory, fail-closed, and replay over its segments.
 */
module WalRecovery {
  import opened Basics
  import opened LogPositions
  import opened WalFormat

  /** A segment file; a directory is listed in the order of its ids. */
  datatype SegmentFile = SegmentFile(id: nat, data: Bytes)

  /** A record and where it was written. */
  datatype Placed = Placed(position: WalPosition, record: Record)

  datatype Corruption =
    | TruncatedRecord(segmentId: nat, offset: nat)
    | CorruptRecord(segmentId: nat, offset: nat, reason: CorruptReason)

  datatype TailTruncation = TailTruncation(segmentId: nat, originalLen: nat, validLen: nat)

  datatype Report = Report(files: seq<SegmentFile>, truncated: Option<TailTruncation>, lastPosition: Option<WalPosition>)

  // ----- What a directory holds ---------------------------------------------------------

  function PlacedAt(id: nat, located: seq<Located>): (r: seq<Placed>)
    ensures |r| == |located|
  {
    seq(|located|, i requires 0 <= i < |located| => Placed(WalPosition(id, located[i].offset), located[i].record))
  }

  function PlacedIn(file: SegmentFile): seq<Placed> {
    PlacedAt(file.id, Scan(file.data, 0).records)
  }

  /** All complete records of a directory, in write order. */
  function Replayed(files: seq<SegmentFile>): seq<Placed> {
    if files == [] then [] else PlacedIn(files[0]) + Replayed(files[1..])
  }

  lemma {:induction false} ReplayedConcat(a: seq<SegmentFile>, b: seq<SegmentFile>)
    ensures Replayed(a + b) == Replayed(a) + Replayed(b)
  {
    hide PlacedIn;
    if a == [] {
      assert a + b == b;
    } else {
      assert (a + b)[1..] == a[1..] + b;
      ReplayedConcat(a[1..], b);
    }
  }

  lemma ReplayedLast(files: seq<SegmentFile>, last: SegmentFile)
    ensures Replayed(files + [last]) == Replayed(files) + PlacedIn(last)
  {
    hide PlacedIn;
    ReplayedConcat(files, [last]);
    assert [last][1..] == [];
  }

  // ----- Recovery -------------------------------------------------------------------------

  function ErrorOf(file: SegmentFile): Option<ScanError> {
    Scan(file.data, 0).error
  }

  /** The one fault recovery forgives is an incomplete record at the very end of the log. */
  function Fault(file: SegmentFile, isFinal: bool): Option<Corruption> {
    match ErrorOf(file)
    case None => None
    case Some(Truncated(validLen)) => if isFinal then None else Some(TruncatedRecord(file.id, validLen))
    case Some(Corrupt(offset, reason)) => Some(CorruptRecord(file.id, offset, reason))
  }

  function FirstFault(files: seq<SegmentFile>): Option<Corruption> {
    if files == [] then None
    else
      var fault := Fault(files[0], |files| == 1);
      if fault.Some? then fault else FirstFault(files[1..])
  }

  /** The file cut back to its complete records if it ends in an incomplete one. */
  function Repaired(file: SegmentFile): SegmentFile {
    match ErrorOf(file)
    case Some(Truncated(validLen)) => file.(data := if validLen <= |file.data| then file.data[..validLen] else file.data)
    case _ => file
  }

  function RepairedAll(files: seq<SegmentFile>): seq<SegmentFile> {
    if files == [] then [] else files[..|files| - 1] + [Repaired(files[|files| - 1])]
  }

  function TruncationOf(files: seq<SegmentFile>): Option<TailTruncation> {
    if files == [] then None
    else
      var last := files[|files| - 1];
      match ErrorOf(last)
      case Some(Truncated(validLen)) => Some(TailTruncation(last.id, |last.data|, validLen))
      case _ => None
  }

  function LastPosition(records: seq<Placed>): Option<WalPosition> {
    if records == [] then None else Some(records[|records| - 1].position)
  }

  function Recovered(files: seq<SegmentFile>): Result<Report, Corruption> {
    match FirstFault(files)
    case Some(fault) => Err(fault)
    case None => Ok(Report(RepairedAll(files), TruncationOf(files), LastPosition(Replayed(files))))
  }

  /**
    What recovery reports: a truncation exactly if the last file got shorter, with its id
    and both lengths, and the position of the last record there is.
   */
  lemma RecoveryReports(files: seq<SegmentFile>)
    requires Recovered(files).Ok? && files != []
    ensures var report, last := Recovered(files).value, files[|files| - 1];
            |report.files| == |files| && report.files[..|files| - 1] == files[..|files| - 1] &&
            var kept := report.files[|files| - 1];
            kept.id == last.id && kept.data <= last.data &&
            (report.truncated.Some? <==> ErrorOf(last).Some?) &&
            (report.truncated.Some? ==>
               report.truncated.value == TailTruncation(last.id, |last.data|, |kept.data|)) &&
            (report.truncated.None? ==> kept == last) &&
            (report.lastPosition.None? <==> Replayed(files) == []) &&
            (Replayed(files) != [] ==> report.lastPosition == Some(Replayed(files)[|Replayed(files)| - 1].position))
  {
    hide Scan, Replayed;
    FirstFaultNone(files);
    var last := files[|files| - 1];
    assert Fault(last, true).None?;
    ErrorWithin(last);
  }

  lemma ErrorWithin(file: SegmentFile)
    ensures match ErrorOf(file) case Some(Truncated(validLen)) => validLen <= |file.data| case _ => true
  {
    hide Scan;
    ScanReadsEncoding(file.data);
  }

  /** The first `i` files as recovery leaves them. */
  function KeptUpTo(files: seq<SegmentFile>, i: nat): seq<SegmentFile>
    requires i <= |files|
  {
    if i < |files| then files[..i] else RepairedAll(files)
  }

  method Recover(files: seq<SegmentFile>) returns (r: Result<Report, Corruption>)
    ensures r == Recovered(files)
  {
    hide Scan, FirstFault, KeptUpTo, Replayed, RepairedAll, TruncationOf;
    RecoverStart(files);
    var kept: seq<SegmentFile> := [];
    var truncated := None;
    var lastPosition := None;
    for i := 0 to |files|
      invariant FirstFault(files) == FirstFault(files[i..])
      invariant kept == KeptUpTo(files, i)
      invariant truncated == if i < |files| then None else TruncationOf(files)
      invariant lastPosition == LastPosition(Replayed(files[..i]))
    {
      var file := files[i];
      var records, error := ScanSegment(file.data);
      RecoverStep(files, i);
      var validLen := |file.data|;
      assert file.data[..validLen] == file.data;
      match error {
        case None =>
        case Some(Truncated(at)) =>
          if i + 1 == |files| {
            truncated := Some(TailTruncation(file.id, |file.data|, at));
            TruncatedInside(file);
            validLen := at;
          } else {
            return Err(TruncatedRecord(file.id, at));
          }
        case Some(Corrupt(offset, reason)) =>
          return Err(CorruptRecord(file.id, offset, reason));
      }
      if |records| > 0 {
        lastPosition := Some(WalPosition(file.id, records[|records| - 1].offset));
      }
      kept := kept + [SegmentFile(file.id, file.data[..validLen])];
    }
    assert files[..|files|] == files;
    return Ok(Report(kept, truncated, lastPosition));
  }

  lemma RecoverStart(files: seq<SegmentFile>)
    ensures FirstFault(files[0..]) == FirstFault(files)
    ensures FirstFault(files[|files|..]).None?
    ensures KeptUpTo(files, 0) == []
    ensures KeptUpTo(files, |files|) == RepairedAll(files)
    ensures LastPosition(Replayed(files[..0])) == None
    ensures files == [] ==> TruncationOf(files) == None
  {
    assert files[0..] == files;
  }

  /** What looking at one more file adds to each part of the report. */
  lemma RecoverStep(files: seq<SegmentFile>, i: nat)
    requires i < |files|
    ensures var fault := Fault(files[i], i + 1 == |files|);
            FirstFault(files[i..]) == (if fault.Some? then fault else FirstFault(files[i + 1..]))
    ensures Fault(files[i], i + 1 == |files|).None? ==>
              KeptUpTo(files, i + 1) == KeptUpTo(files, i) + [SegmentFile(files[i].id, Repaired(files[i]).data)] &&
              (i + 1 < |files| ==> Repaired(files[i]) == files[i])
    ensures i + 1 == |files| ==>
              TruncationOf(files) == match ErrorOf(files[i])
                                     case Some(Truncated(at)) => Some(TailTruncation(files[i].id, |files[i].data|, at))
                                     case _ => None
    ensures LastPosition(Replayed(files[..i + 1])) ==
            if PlacedIn(files[i]) == [] then LastPosition(Replayed(files[..i]))
            else Some(WalPosition(files[i].id, Scan(files[i].data, 0).records[|PlacedIn(files[i])| - 1].offset))
  {
    hide Scan, Replayed;
    assert files[i..][1..] == files[i + 1..];
    assert files[..i + 1] == files[..i] + [files[i]];
    ReplayedLast(files[..i], files[i]);
  }

  lemma TruncatedInside(file: SegmentFile)
    requires ErrorOf(file).Some? && ErrorOf(file).value.Truncated?
    ensures ErrorOf(file).value.validLen <= |file.data|
  {
    hide Scan;
    ScanReadsEncoding(file.data);
  }

  // ----- Recovering twice ----------------------------------------------------------------------

  /** A file without faults, or with an incomplete last record, is repaired to one without faults holding the same records. */
  lemma RepairedIsClean(file: SegmentFile)
    requires Fault(file, true).None?
    ensures ErrorOf(Repaired(file)).None? && PlacedIn(Repaired(file)) == PlacedIn(file)
  {
    hide Scan, EncodeAll;
    ScanReadsEncoding(file.data);
    var records := RecordsOf(Scan(file.data, 0).records);
    ScanEncoded(records);
    assert file.data[..|file.data|] == file.data;
    assert Repaired(file).data == EncodeAll(records);
  }

  lemma {:induction false} FirstFaultNone(files: seq<SegmentFile>)
    ensures FirstFault(files).None? <==>
            forall i :: 0 <= i < |files| ==> Fault(files[i], i == |files| - 1).None?
  {
    hide Fault;
    if files != [] {
      FirstFaultNone(files[1..]);
      if Fault(files[0], |files| == 1).None? && FirstFault(files[1..]).None? {
        forall i | 0 <= i < |files| ensures Fault(files[i], i == |files| - 1).None? {
          if i > 0 {
            assert files[1..][i - 1] == files[i];
          }
        }
      } else if FirstFault(files[1..]).Some? {
        var i :| 0 <= i < |files[1..]| && Fault(files[1..][i], i == |files[1..]| - 1).Some?;
        assert files[i + 1] == files[1..][i];
        assert Fault(files[i + 1], i + 1 == |files| - 1).Some?;
      }
    }
  }

  /** After a successful recovery every file is free of faults and holds the records it held. */
  lemma RecoveredIsClean(files: seq<SegmentFile>)
    requires Recovered(files).Ok?
    ensures forall i :: 0 <= i < |files| ==> ErrorOf(Recovered(files).value.files[i]).None?
    ensures Replayed(Recovered(files).value.files) == Replayed(files)
  {
    hide ErrorOf, PlacedIn, Replayed, Repaired;
    FirstFaultNone(files);
    if files != [] {
      var n := |files| - 1;
      var front, last := files[..n], files[n];
      assert Fault(last, true).None?;
      RepairedIsClean(last);
      assert files == front + [last];
      ReplayedLast(front, last);
      ReplayedLast(front, Repaired(last));
      forall i | 0 <= i < n ensures ErrorOf(files[i]).None? {
        assert Fault(files[i], false).None?;
      }
    }
  }

  /** Recovering a second time changes nothing. */
  lemma RecoverTwice(files: seq<SegmentFile>)
    requires Recovered(files).Ok?
    ensures var first := Recovered(files).value;
            Recovered(first.files) == Ok(Report(first.files, None, first.lastPosition))
  {
    hide ErrorOf, Replayed;
    RecoveredIsClean(files);
    var kept := Recovered(files).value.files;
    FirstFaultNone(kept);
    if kept != [] {
      assert ErrorOf(kept[|kept| - 1]).None?;
    }
  }

  // ----- Replay ------------------------------------------------------------------------------

  /** Records read so far as they can be read, and the fault that ends them. */
  datatype Reading = Reading(records: seq<Placed>, fault: Option<Corruption>)

  function FaultAt(id: nat, error: ScanError): Corruption {
    match error
    case Truncated(validLen) => TruncatedRecord(id, validLen)
    case Corrupt(offset, reason) => CorruptRecord(id, offset, reason)
  }

  /** What is left in the current buffer, then what `rest` gives. */
  function ReadHere(id: nat, scanned: Scanned, rest: Reading): Reading {
    if scanned.error.Some? then Reading(PlacedAt(id, scanned.records), Some(FaultAt(id, scanned.error.value)))
    else Reading(PlacedAt(id, scanned.records) + rest.records, rest.fault)
  }

  function ReadAll(files: seq<SegmentFile>): Reading {
    if files == [] then Reading([], None)
    else ReadHere(files[0].id, Scan(files[0].data, 0), ReadAll(files[1..]))
  }

  lemma {:induction false} CleanReadsAll(files: seq<SegmentFile>)
    requires forall i :: 0 <= i < |files| ==> ErrorOf(files[i]).None?
    ensures ReadAll(files) == Reading(Replayed(files), None)
  {
    if files != [] {
      assert ErrorOf(files[0]).None?;
      CleanReadsAll(files[1..]);
    }
  }

  /** The replay cursor. */
  class Replay {
    const segments: seq<SegmentFile>
    var nextSegment: nat
    var currentSegment: nat
    var buf: Bytes
    var offset: nat
    var finished: bool

    constructor (files: seq<SegmentFile>)
      ensures Valid() && Rest() == ReadAll(files)
    {
      segments, nextSegment, currentSegment, buf, offset, finished := files, 0, 0, [], 0, false;
      new;
      assert segments[0..] == files;
    }

    predicate Valid()
      reads this
    {
      nextSegment <= |segments| && offset <= |buf|
    }

    /** What the cursor has yet to yield. */
    ghost function Rest(): Reading
      requires Valid()
      reads this
    {
      if finished then Reading([], None)
      else ReadHere(currentSegment, Scan(buf, offset), ReadAll(segments[nextSegment..]))
    }

    /** Yields the next record, or the fault once, or nothing for ever after. */
    method Next() returns (item: Option<Result<Placed, Corruption>>)
      requires Valid()
      modifies this
      ensures Valid()
      ensures var was := old(Rest());
              item == (if was.records != [] then Some(Ok(was.records[0]))
                       else if was.fault.Some? then Some(Err(was.fault.value)) else None)
      ensures old(Rest()).records != [] ==> Rest() == old(Rest()).(records := old(Rest()).records[1..])
      ensures old(Rest()).records == [] ==> Rest() == Reading([], None)
    {
      hide ParseOne, Scan, ReadHere, ReadAll;
      if finished {
        return None;
      }
      while true
        invariant Valid() && !finished && Rest() == old(Rest())
        decreases |segments| - nextSegment
      {
        if offset < |buf| {
          ReadParsed(currentSegment, buf, offset, ReadAll(segments[nextSegment..]));
          match ParseOne(buf, offset)
          case Ok(p) =>
            var record := Placed(WalPosition(currentSegment, offset), p.record);
            offset := p.nextOffset;
            return Some(Ok(record));
          case Err(error) =>
            finished := true;
            return Some(Err(FaultAt(currentSegment, error)));
        }
        ReadEnd(currentSegment, buf, ReadAll(segments[nextSegment..]));
        ReadNextFile(segments, nextSegment);
        if nextSegment >= |segments| {
          finished := true;
          return None;
        }
        currentSegment := segments[nextSegment].id;
        buf := segments[nextSegment].data;
        offset := 0;
        nextSegment := nextSegment + 1;
      }
    }
  }

  lemma ReadParsed(id: nat, buf: Bytes, offset: nat, rest: Reading)
    requires offset < |buf|
    ensures ParseOne(buf, offset).Err? ==>
              ReadHere(id, Scan(buf, offset), rest) == Reading([], Some(FaultAt(id, ParseOne(buf, offset).error)))
    ensures ParseOne(buf, offset).Ok? ==>
              var r, p := ReadHere(id, Scan(buf, offset), rest), ParseOne(buf, offset).value;
              offset < p.nextOffset <= |buf| && r.records != [] &&
              r.records[0] == Placed(WalPosition(id, offset), p.record) &&
              Reading(r.records[1..], r.fault) == ReadHere(id, Scan(buf, p.nextOffset), rest)
  {
    if ParseOne(buf, offset).Ok? {
      var p := ParseOne(buf, offset).value;
      ConsReading(id, Located(offset, p.record), Scan(buf, p.nextOffset), rest);
    }
  }

  lemma ReadEnd(id: nat, buf: Bytes, rest: Reading)
    ensures ReadHere(id, Scan(buf, |buf|), rest) == rest
  {
    assert PlacedAt(id, []) + rest.records == rest.records;
  }

  lemma ReadNextFile(files: seq<SegmentFile>, n: nat)
    requires n <= |files|
    ensures n == |files| ==> ReadAll(files[n..]) == Reading([], None)
    ensures n < |files| ==> ReadAll(files[n..]) == ReadHere(files[n].id, Scan(files[n].data, 0), ReadAll(files[n + 1..]))
  {
    if n < |files| {
      assert files[n..][1..] == files[n + 1..];
    }
  }

  lemma ConsReading(id: nat, first: Located, rest: Scanned, after: Reading)
    ensures var r := ReadHere(id, Scanned([first] + rest.records, rest.error), after);
            r.records != [] && r.records[0] == Placed(WalPosition(id, first.offset), first.record) &&
            Reading(r.records[1..], r.fault) == ReadHere(id, rest, after)
  {
    assert PlacedAt(id, [first] + rest.records) == PlacedAt(id, [first]) + PlacedAt(id, rest.records);
  }

  /** Recovers the directory, then drains the cursor. */
  method ReplayAll(files: seq<SegmentFile>) returns (r: Result<seq<Placed>, Corruption>)
    ensures Recovered(files).Err? ==> r == Err(Recovered(files).error)
    ensures Recovered(files).Ok? ==> r == Ok(Replayed(files))
  {
    hide Recovered, Replayed, ReadAll, ReadHere, Scan;
    var recovered := Recover(files);
    if recovered.Err? {
      return Err(recovered.error);
    }
    RecoveredSameSize(files);
    RecoveredIsClean(files);
    CleanReadsAll(recovered.value.files);
    var replay := new Replay(recovered.value.files);
    var records: seq<Placed> := [];
    var item := replay.Next();
    ghost var rest := Replayed(files);
    while item.Some?
      invariant replay.Valid() && fresh(replay)
      invariant item == if rest == [] then None else Some(Ok(rest[0]))
      invariant replay.Rest() == Reading(if rest == [] then [] else rest[1..], None)
      invariant records + rest == Replayed(files)
      decreases |rest|
    {
      records := records + [item.value.value];
      rest := rest[1..];
      item := replay.Next();
    }
    assert records + [] == records;
    return Ok(records);
  }

  lemma RecoveredSameSize(files: seq<SegmentFile>)
    requires Recovered(files).Ok?
    ensures |Recovered(files).value.files| == |files|
  {
  }
}
