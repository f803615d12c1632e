/**
  The running ledger: the object that owns the indexes, writes the log first and
  the indexes second, takes snapshots and is rebuilt from disk.
 */
module LedgerService {
  import opened Basics
  import opened LedgerModel
  import opened LogPositions
  import opened LedgerIndexes
  import opened LedgerOps
  import opened LedgerSystem

  class Ledger {
    const indexes: Indexes
    var wal: seq<Entry>
    var active: nat
    var snapshot: Option<Snapshot>
    var lastWalPosition: Option<WalPosition>
    ghost var replayed: nat
    ghost var appended: nat

    constructor (disk: Disk, rebuilt: Indexes, rolled: bool, ghost replayed: nat)
      ensures indexes == rebuilt && lastWalPosition == Watermark(disk) && this.replayed == replayed && appended == 0
      ensures OnDisk() == disk.(active := if rolled then disk.active + 1 else disk.active)
    {
      indexes := rebuilt;
      wal, active, snapshot := disk.wal, if rolled then disk.active + 1 else disk.active, disk.snapshot;
      lastWalPosition := Watermark(disk);
      this.replayed, appended := replayed, 0;
    }

    function OnDisk(): Disk
      reads this
    {
      Disk(wal, active, snapshot)
    }

    ghost function InMemory(): Memory
      reads this, indexes
    {
      Up(indexes.Contents(), lastWalPosition, replayed, appended)
    }

    /** Log first, indexes second; the watermark moves only once both are done. */
    method Persist(kind: RecordKind, position: WalPosition) returns (error: Option<IndexError>)
      modifies this, indexes
      ensures OnDisk() == old(OnDisk()).(wal := old(wal) + [Entry(position, kind)], active := position.segmentId)
      ensures Applied(indexes.Contents(), error) == ApplyRecord(old(indexes.Contents()), kind)
      ensures InMemory() ==
              if error.Some? then Up(indexes.Contents(), old(lastWalPosition), old(replayed), old(appended))
              else Up(indexes.Contents(), Some(position), old(replayed), old(appended) + 1)
    {
      wal := wal + [Entry(position, kind)];
      active := position.segmentId;
      error := indexes.Apply(kind);
      if error.None? {
        lastWalPosition := Some(position);
        appended := appended + 1;
      }
    }

    /** One operation, from request to reply; its effect on disk and memory is the system step `Do`. */
    method Perform(cfg: Config, op: Operation, inp: Inputs, position: WalPosition) returns (r: Result<Reply,
                   LedgerError>)
      modifies this, indexes
      ensures var plan := PlanOf(cfg, old(indexes.Contents()), op, inp);
              match plan
              case Refuse(error) => r == Err(error)
              case Answer(reply) => r == Ok(reply)
              case Persist(kind, reply) =>
                var applied := ApplyRecord(old(indexes.Contents()), kind);
                r == if applied.error.Some? then Err(Corruption(applied.error.value)) else Ok(reply)
      ensures forall strategy, s: System :: s.disk == old(OnDisk()) && s.memory == old(InMemory()) ==>
                var t := Next(cfg, strategy, s, Do(op, inp, position));
                t.disk == OnDisk() && t.memory == InMemory()
    {
      hide PlanOf, ApplyRecord;
      var plan := PlanOf(cfg, indexes.Contents(), op, inp);
      match plan
      case Refuse(error) => r := Err(error);
      case Answer(reply) => r := Ok(reply);
      case Persist(kind, reply) =>
        var error := Persist(kind, position);
        if error.Some? {
          r := Err(Corruption(error.value));
        } else {
          r := Ok(reply);
        }
    }

    /** Saves the indexes with the current watermark, then drops the log segments it covers. */
    method TakeSnapshot() returns (state: PersistedState)
      modifies this
      ensures Collected(indexes.Contents(), state)
      ensures forall s: System :: s.disk == old(OnDisk()) && s.memory == old(InMemory()) ==>
                Snapshotted(s, state).disk == OnDisk() && Snapshotted(s, state).memory == InMemory()
    {
      var watermark := lastWalPosition;
      state := indexes.CollectState();
      snapshot := Some(Snapshot(state, watermark));
      if watermark.Some? {
        var w := watermark.value;
        TruncateBefore(w.segmentId + 1);
      }
    }

    /** Deletes the segments below the cutoff, never the active one. */
    method TruncateBefore(segmentId: nat)
      modifies this`wal
      ensures wal == Kept(old(wal), if segmentId < active then segmentId else active)
    {
      var cutoff := if segmentId < active then segmentId else active;
      var kept: seq<Entry> := [];
      for i := 0 to |wal|
        invariant kept + Kept(wal[i..], cutoff) == Kept(wal, cutoff)
        invariant wal == old(wal)
      {
        assert wal[i..][1..] == wal[i + 1..];
        if wal[i].position.segmentId >= cutoff {
          kept := kept + [wal[i]];
        }
      }
      wal := kept;
    }
  }

  /** Applies, oldest first, the records past the watermark; stops at the first corruption. */
  method Replay(indexes: Indexes, disk: Disk) returns (error: Option<IndexError>, ghost count: nat)
    requires indexes.Contents() == SnapshotIndex(disk)
    modifies indexes
    ensures Opened(disk).error == error
    ensures error.None? ==> Opened(disk).index == indexes.Contents() && count == |Uncovered(disk.wal, Watermark(disk))|
  {
    hide ApplyRecord, SnapshotIndex;
    var watermark := Watermark(disk);
    ghost var pending: seq<RecordKind> := [];
    for i := 0 to |disk.wal|
      invariant pending == Uncovered(disk.wal[..i], watermark)
      invariant ApplyAll(SnapshotIndex(disk), pending) == Applied(indexes.Contents(), None)
    {
      var record := disk.wal[i];
      assert disk.wal[..i + 1][..i] == disk.wal[..i];
      if !Covered(watermark, record.position) {
        ghost var before := pending;
        pending := pending + [record.kind];
        assert pending[..|pending| - 1] == before;
        error := indexes.Apply(record.kind);
        if error.Some? {
          RestStaysFailed(disk, i + 1);
          return error, |pending|;
        }
      }
    }
    assert disk.wal[..|disk.wal|] == disk.wal;
    return None, |pending|;
  }

  /** Loads the snapshot and replays the records past its watermark; any corruption is fatal. */
  method Open(disk: Disk, roll: bool) returns (r: Result<Ledger, IndexError>)
    ensures r.Err? <==> Opened(disk).error.Some?
    ensures r.Err? ==> r.error == Opened(disk).error.value
    ensures r.Ok? ==> fresh(r.value) && fresh(r.value.indexes)
    ensures r.Ok? ==> forall s: System :: s.disk == disk ==>
              Reopened(s, roll).disk == r.value.OnDisk() && Reopened(s, roll).memory == r.value.InMemory()
  {
    hide ApplyRecord, IndexOf;
    var indexes := new Indexes();
    if disk.snapshot.Some? {
      indexes.LoadState(disk.snapshot.value.state);
    }
    var error, count := Replay(indexes, disk);
    if error.Some? {
      return Err(error.value);
    }
    var ledger := new Ledger(disk, indexes, roll, count);
    return Ok(ledger);
  }

  lemma {:induction false} UncoveredPrefix(wal: seq<Entry>, mark: Option<WalPosition>, n: nat)
    requires n <= |wal|
    ensures Uncovered(wal[..n], mark) <= Uncovered(wal, mark)
    decreases |wal|
  {
    if n < |wal| {
      var front := wal[..|wal| - 1];
      UncoveredPrefix(front, mark, n);
      assert front[..n] == wal[..n];
    } else {
      assert wal[..n] == wal;
    }
  }

  lemma RestStaysFailed(disk: Disk, n: nat)
    requires n <= |disk.wal|
    requires ApplyAll(SnapshotIndex(disk), Uncovered(disk.wal[..n], Watermark(disk))).error.Some?
    ensures Opened(disk) == ApplyAll(SnapshotIndex(disk), Uncovered(disk.wal[..n], Watermark(disk)))
  {
    var part, all := Uncovered(disk.wal[..n], Watermark(disk)), Uncovered(disk.wal, Watermark(disk));
    UncoveredPrefix(disk.wal, Watermark(disk), n);
    assert all == part + all[|part|..];
    FailureStays(SnapshotIndex(disk), part, all[|part|..]);
  }
}
