/**
  Runs through a history: versions count updates, so an expected version is good for
  one update only; and a finished run stays finished.
 */
module LedgerRuns {
  import opened Basics
  import opened LedgerModel
  import opened LogPositions
  import opened LedgerIndexes
  import opened LedgerOps
  import opened LedgerInvariant
  import opened LedgerSystem
  import opened LedgerRecovery
  import opened LedgerHistory

  predicate Updates(l: Logged, r: Uuid) {
    l.kind.RunUpdated? && l.kind.run.id == r
  }

  function UpdateCount(h: seq<Logged>, r: Uuid): nat {
    if h == [] then 0 else UpdateCount(h[..|h| - 1], r) + if Updates(h[|h| - 1], r) then 1 else 0
  }

  /** What a record does to the run as far as updates go; events change other fields. */
  lemma RunAfter(ix: Index, kind: RecordKind, r: Uuid)
    ensures var after := ApplyRecord(ix, kind).index;
            r in after.runs ==>
              if (kind.RunCreated? || kind.RunUpdated?) && kind.run.id == r then after.runs[r] == kind.run
              else r in ix.runs && after.runs[r].version == ix.runs[r].version && after.runs[r].status == ix.runs[r].status
  {
  }

  lemma {:induction false} NeverUpdated(h: seq<Logged>, r: Uuid)
    requires NeverUsed(h, r)
    ensures UpdateCount(h, r) == 0
  {
    if h != [] {
      NeverUpdated(h[..|h| - 1], r);
    }
  }

  lemma LastStep(h: seq<Logged>)
    requires Grown(h) && Grounded(h) && h != []
    ensures var front := h[..|h| - 1];
            Grown(front) && Grounded(front) && EntryGrounded(h, |h| - 1) &&
            Folded(h) == ApplyRecord(Folded(front).index, h[|h| - 1].kind)
  {
    hide Inv, EntryGrounded, ApplyRecord;
    var front, last := h[..|h| - 1], h[|h| - 1];
    GroundedPrefix(h, |h| - 1);
    forall n | 0 <= n <= |front| ensures Folded(front[..n]).error.None? && Inv(Folded(front[..n]).index) {
      assert front[..n] == h[..n];
    }
    assert h == front + [last];
    FoldedAppend(front, last);
  }

  /** A run's version is one more than the number of updates it has had. */
  lemma {:induction false} VersionCountsUpdates(h: seq<Logged>, r: Uuid)
    requires Grown(h) && Grounded(h) && r in Folded(h).index.runs
    ensures Folded(h).index.runs[r].version == 1 + UpdateCount(h, r)
  {
    hide Grown, Grounded, Folded, Fits, ApplyRecord, NeverUsed;
    if h == [] {
      NoRuns();
    } else {
      var front, last := h[..|h| - 1], h[|h| - 1];
      LastStep(h);
      RunAfter(Folded(front).index, last.kind, r);
      if last.kind.RunCreated? && last.kind.run.id == r {
        NeverUpdated(front, r);
      } else {
        VersionCountsUpdates(front, r);
      }
    }
  }

  lemma NoRuns()
    ensures Folded([]).index.runs == map[]
  {
  }

  /** Versions only grow. */
  lemma {:induction false} VersionGrows(h: seq<Logged>, i: nat, r: Uuid)
    requires Grown(h) && Grounded(h) && i < |h| && Updates(h[i], r) && r in Folded(h).index.runs
    ensures h[i].kind.run.version <= Folded(h).index.runs[r].version
  {
    hide Grown, Grounded, Folded, Fits, ApplyRecord, NeverUsed;
    var front, last := h[..|h| - 1], h[|h| - 1];
    LastStep(h);
    RunAfter(Folded(front).index, last.kind, r);
    if i < |h| - 1 {
      if last.kind.RunCreated? && last.kind.run.id == r {
        NotCreatedAgain(h, i, r);
      } else {
        VersionGrows(front, i, r);
      }
    }
  }

  lemma NotCreatedAgain(h: seq<Logged>, i: nat, r: Uuid)
    requires i + 1 < |h| && EntryGrounded(h, |h| - 1) && Updates(h[i], r)
    requires h[|h| - 1].kind.RunCreated?
    ensures h[|h| - 1].kind.run.id != r
  {
    hide Fits, Folded;
    assert h[..|h| - 1][i] == h[i];
  }

  /**
    Optimistic updates: once an update has made a run's version `v`, no request that expects
    an earlier version is ever accepted again; so of several updates that expect the same
    version at most one succeeds.
   */
  lemma StaleVersionRefused(h: seq<Logged>, i: nat, r: Uuid, scope: Scope, status: RunStatus, expected: int, inp: Inputs)
    requires Grown(h) && Grounded(h) && i < |h| && Updates(h[i], r) && expected < h[i].kind.run.version
    ensures PlanUpdateRun(Folded(h).index, scope, r, status, Some(expected), inp).Refuse?
  {
    hide Grown, Grounded, Folded;
    if r in Folded(h).index.runs {
      VersionGrows(h, i, r);
    }
  }

  /** A finished run keeps its status for as long as it exists. */
  lemma {:induction false} FinishedRunStays(h: seq<Logged>, i: nat, r: Uuid)
    requires Grown(h) && Grounded(h) && i <= |h| && r in Folded(h[..i]).index.runs && r in Folded(h).index.runs
    requires IsTerminalRun(Folded(h[..i]).index.runs[r].status)
    ensures Folded(h).index.runs[r].status == Folded(h[..i]).index.runs[r].status
  {
    hide Grown, Grounded, Folded, Fits, ApplyRecord, NeverUsed;
    if i < |h| {
      var front, last := h[..|h| - 1], h[|h| - 1];
      LastStep(h);
      RunAfter(Folded(front).index, last.kind, r);
      assert front[..i] == h[..i];
      if last.kind.RunCreated? && last.kind.run.id == r {
        NotRecreated(h, i, r);
      } else {
        FinishedRunStays(front, i, r);
      }
    } else {
      assert h[..i] == h;
    }
  }

  lemma NotRecreated(h: seq<Logged>, i: nat, r: Uuid)
    requires Grown(h) && h != [] && EntryGrounded(h, |h| - 1) && i < |h| && r in Folded(h[..i]).index.runs
    requires h[|h| - 1].kind.RunCreated?
    ensures h[|h| - 1].kind.run.id != r
  {
    hide Fits, Folded, Inv;
    var front := h[..|h| - 1];
    if h[|h| - 1].kind.run.id == r {
      assert NeverUsed(front, r);
      forall j | 0 <= j < i ensures h[..i][j] == front[j] {}
      IdsComeFromHistory(h[..i], r);
      assert false;
    }
  }

  /** Every reachable history is one the statements above speak of. */
  lemma RunsAreGrounded(cfg: Config, strategy: Strategy, steps: seq<Step>)
    requires Possible(cfg, strategy, steps)
    ensures Grown(Run(cfg, strategy, steps).history) && Grounded(Run(cfg, strategy, steps).history)
  {
    hide Run, Possible, SystemInv, Grown, Grounded;
    RunKeepsInv(cfg, strategy, steps);
    RunGrounded(cfg, strategy, steps);
  }
}
