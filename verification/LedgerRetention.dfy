/**
  Retention: what a prune removes, what it leaves, and exactly when it spares every
  effect whose outcome is still open.
 */
module LedgerRetention {
  import opened Basics
  import opened CanonicalJson
  import opened Digests
  import opened LedgerModel
  import opened LedgerIndexes
  import opened LedgerOps
  import opened LedgerInvariant
  import opened LogPositions
  import opened LedgerSystem
  import opened LedgerRecovery
  import opened LedgerExamples

  /** The indexes after retention has been planned and applied. */
  function Retained(ix: Index, maxAgeMs: int, now: int): Index {
    var plan := PlanRetention(ix, maxAgeMs, now);
    if plan.Persist? then ApplyRecord(ix, plan.kind).index else ix
  }

  /** At least this old: no younger than the age asked for, a negative age counting as none. */
  predicate Aged(updatedAtMs: int, maxAgeMs: int, now: int) {
    updatedAtMs <= now && updatedAtMs + maxAgeMs <= now
  }

  /** A completed, failed or cancelled run of at least this age. */
  predicate OldRun(ix: Index, r: Uuid, maxAgeMs: int, now: int) {
    && r in ix.runs
    && ix.runs[r].status in {Completed, RunStatus.Failed, Cancelled}
    && Aged(ix.runs[r].updatedAtMs, maxAgeMs, now)
  }

  /** An effect settled for good, of at least this age. */
  predicate OldEffect(ix: Index, e: Uuid, maxAgeMs: int, now: int) {
    && e in ix.effectsById
    && ix.effectsById[e].state in {Committed, FailedTerminal, ReconciledCommitted, ReconciledFailed}
    && Aged(ix.effectsById[e].updatedAtMs, maxAgeMs, now)
  }

  predicate InOldRun(ix: Index, e: Uuid, maxAgeMs: int, now: int) {
    e in ix.effectsById && ix.effectsById[e].runId.Some? && OldRun(ix, ix.effectsById[e].runId.value, maxAgeMs, now)
  }

  lemma PrunedSets(ix: Index, maxAgeMs: int, now: int)
    requires Inv(ix)
    ensures forall r :: r in PrunedRuns(ix, Cutoff(maxAgeMs, now)) <==> OldRun(ix, r, maxAgeMs, now)
    ensures forall e :: e in PrunedEffects(ix, Cutoff(maxAgeMs, now)) <==>
              OldEffect(ix, e, maxAgeMs, now) || InOldRun(ix, e, maxAgeMs, now)
  {
    hide CheckpointsOk, TimelineOk, KeysInverse;
    var cutoff := Cutoff(maxAgeMs, now);
    var runs := PrunedRuns(ix, cutoff);
    forall r ensures r in runs <==> OldRun(ix, r, maxAgeMs, now) {
      assert r in ix.runs ==> ix.runs[r].id == r;
    }
    forall e
      ensures e in PrunedEffects(ix, cutoff) <==> OldEffect(ix, e, maxAgeMs, now) || InOldRun(ix, e, maxAgeMs, now)
    {
      if e in ix.effectsById {
        assert ix.effectsById[e].id == e;
        assert PrunesEffect(ix.effectsById[e], cutoff, runs) <==>
               OldEffect(ix, e, maxAgeMs, now) || InOldRun(ix, e, maxAgeMs, now);
      }
    }
  }

  /** Retention is exact: it removes old runs with all that hangs on them and old settled effects, and nothing else. */
  lemma RetentionRemovesExactly(ix: Index, maxAgeMs: int, now: int)
    requires Inv(ix)
    ensures var after := Retained(ix, maxAgeMs, now);
            (forall r :: r in after.runs <==> r in ix.runs && !OldRun(ix, r, maxAgeMs, now)) &&
            (forall r :: r in after.events <==> r in ix.events && !OldRun(ix, r, maxAgeMs, now)) &&
            (forall r :: r in after.checkpoints <==> r in ix.checkpoints && !OldRun(ix, r, maxAgeMs, now)) &&
            (forall e :: e in after.effectsById <==>
               e in ix.effectsById && !OldEffect(ix, e, maxAgeMs, now) && !InOldRun(ix, e, maxAgeMs, now)) &&
            (forall r :: r in after.runs ==> after.runs[r] == ix.runs[r]) &&
            (forall r :: r in after.events ==> after.events[r] == ix.events[r]) &&
            (forall r :: r in after.checkpoints ==> after.checkpoints[r] == ix.checkpoints[r]) &&
            (forall e :: e in after.effectsById ==> after.effectsById[e] == ix.effectsById[e])
    ensures Inv(Retained(ix, maxAgeMs, now))
  {
    hide Retained, Cutoff, Inv, PrunedRuns, PrunedEffects, OldRun, OldEffect, InOldRun;
    PrunedSets(ix, maxAgeMs, now);
    RetainedIsPruned(ix, maxAgeMs, now);
  }

  lemma RetainedIsPruned(ix: Index, maxAgeMs: int, now: int)
    requires Inv(ix)
    ensures var cutoff := Cutoff(maxAgeMs, now);
            Retained(ix, maxAgeMs, now) == Prune(ix, PrunedRuns(ix, cutoff), PrunedEffects(ix, cutoff))
    ensures Inv(Retained(ix, maxAgeMs, now))
  {
    hide SortedKeys, CountEvents, Inv, PrunedRuns, PrunedEffects, Cutoff, Prune;
    var cutoff := Cutoff(maxAgeMs, now);
    var runs, effects := PrunedRuns(ix, cutoff), PrunedEffects(ix, cutoff);
    RetentionFits(ix, maxAgeMs, now);
    var plan := PlanRetention(ix, maxAgeMs, now);
    assert Elements(SortedKeys(runs)) == runs && Elements(SortedKeys(effects)) == effects;
    if plan.Persist? {
      FitsKeepsInv(ix, plan.kind);
    } else {
      assert |SortedKeys(runs)| == 0 && |SortedKeys(effects)| == 0;
      assert runs == {} && effects == {};
      PruneNothing(ix);
    }
  }

  lemma PruneNothing(ix: Index)
    ensures Prune(ix, {}, {}) == ix
  {
  }

  // ----- What the caller is told -------------------------------------------------------------------

  /** Every event of these runs, by its run and its place in the timeline. */
  function Places(ix: Index, runs: set<Uuid>): set<(Uuid, int)> {
    set r, i | r in runs && 0 <= i < |EventsOf(ix, r)| :: (r, i)
  }

  lemma {:induction false} PlacesOfOne(r: Uuid, n: nat)
    ensures |set i | 0 <= i < n :: (r, i)| == n
  {
    var all := set i | 0 <= i < n :: (r, i);
    if n > 0 {
      PlacesOfOne(r, n - 1);
      var front := set i | 0 <= i < n - 1 :: (r, i);
      assert all == front + {(r, n - 1)};
    } else {
      assert all == {};
    }
  }

  lemma {:induction false} CountIsPlaces(ix: Index, ids: seq<Uuid>)
    requires forall i, j :: 0 <= i < j < |ids| ==> ids[i] != ids[j]
    ensures CountEvents(ix, ids) == |Places(ix, Elements(ids))|
  {
    if ids == [] {
      assert Places(ix, Elements(ids)) == {};
    } else {
      var r, rest := ids[0], ids[1..];
      CountIsPlaces(ix, rest);
      PlacesOfOne(r, |EventsOf(ix, r)|);
      var one, others := set i | 0 <= i < |EventsOf(ix, r)| :: (r, i), Places(ix, Elements(rest));
      assert r !in rest;
      assert Elements(ids) == {r} + Elements(rest);
      assert Places(ix, Elements(ids)) == one + others;
      assert one !! others;
    }
  }

  /** The runs, effects and events that were there before and are not afterwards. */
  function RunsGone(ix: Index, after: Index): set<Uuid> {
    ix.runs.Keys - after.runs.Keys
  }

  function EffectsGone(ix: Index, after: Index): set<Uuid> {
    ix.effectsById.Keys - after.effectsById.Keys
  }

  function EventsGone(ix: Index, after: Index): set<(Uuid, int)> {
    Places(ix, ix.events.Keys) - Places(after, after.events.Keys)
  }

  /** The report counts exactly what is gone, and something is written exactly when something is. */
  lemma RetentionReportsExactly(ix: Index, maxAgeMs: int, now: int)
    requires Inv(ix)
    ensures var plan, after := PlanRetention(ix, maxAgeMs, now), Retained(ix, maxAgeMs, now);
            !plan.Refuse? && plan.reply.RetentionReply? &&
            plan.reply.runsRemoved == |RunsGone(ix, after)| &&
            plan.reply.effectsRemoved == |EffectsGone(ix, after)| &&
            plan.reply.eventsRemoved == |EventsGone(ix, after)| &&
            plan.reply.cutoffMs + (if maxAgeMs < 0 then 0 else maxAgeMs) == now &&
            (plan.Persist? <==> RunsGone(ix, after) != {} || EffectsGone(ix, after) != {}) &&
            (plan.Persist? ==>
               && plan.kind.RetentionApplied?
               && plan.kind.cutoffMs == plan.reply.cutoffMs
               && Elements(plan.kind.runIds) == RunsGone(ix, after)
               && Elements(plan.kind.effectIds) == EffectsGone(ix, after))
  {
    hide Inv, Retained, SortedKeys, PrunedRuns, PrunedEffects, CountEvents, RunsGone, EffectsGone, EventsGone;
    WhatIsGone(ix, maxAgeMs, now);
    CountOfSorted(ix, PrunedRuns(ix, Cutoff(maxAgeMs, now)));
  }

  lemma WhatIsGone(ix: Index, maxAgeMs: int, now: int)
    requires Inv(ix)
    ensures var after, cutoff := Retained(ix, maxAgeMs, now), Cutoff(maxAgeMs, now);
            RunsGone(ix, after) == PrunedRuns(ix, cutoff) && EffectsGone(ix, after) == PrunedEffects(ix, cutoff) &&
            EventsGone(ix, after) == Places(ix, PrunedRuns(ix, cutoff))
  {
    hide Inv, Retained, OldRun, OldEffect, InOldRun, PrunedRuns, PrunedEffects, EventsGone, Places;
    var after, cutoff := Retained(ix, maxAgeMs, now), Cutoff(maxAgeMs, now);
    RetentionRemovesExactly(ix, maxAgeMs, now);
    PrunedSets(ix, maxAgeMs, now);
    OldRunsAreThere(ix, maxAgeMs, now);
    GonePlaces(ix, after, PrunedRuns(ix, cutoff));
  }

  lemma CountOfSorted(ix: Index, runs: set<Uuid>)
    ensures CountEvents(ix, SortedKeys(runs)) == |Places(ix, runs)|
  {
    hide SortedKeys, CountEvents, Places, LexLe;
    var ids := SortedKeys(runs);
    forall i, j | 0 <= i < j < |ids| ensures ids[i] != ids[j] {
      SortedKeysIncrease(runs, i, j);
    }
    CountIsPlaces(ix, ids);
    assert Elements(ids) == runs;
  }

  lemma OldRunsAreThere(ix: Index, maxAgeMs: int, now: int)
    ensures forall r :: OldRun(ix, r, maxAgeMs, now) ==> r in ix.runs
    ensures forall e :: OldEffect(ix, e, maxAgeMs, now) || InOldRun(ix, e, maxAgeMs, now) ==> e in ix.effectsById
  {
  }

  lemma GonePlaces(ix: Index, after: Index, runs: set<Uuid>)
    requires forall r :: r in after.events <==> r in ix.events && r !in runs
    requires forall r :: r in after.events ==> after.events[r] == ix.events[r]
    ensures EventsGone(ix, after) == Places(ix, runs)
  {
    forall p ensures p in EventsGone(ix, after) <==> p in Places(ix, runs) {
    }
  }

  /** No effect whose outcome is open disappears. */
  ghost predicate SparesOpenEffects(ix: Index, after: Index) {
    forall e :: e in ix.effectsById && !IsTerminal(ix.effectsById[e].state) ==> e in after.effectsById
  }

  /**
    Exactly when retention spares every claimed, running, retryable or outcome-unknown
    effect: none of them belongs to a finished run of that age.
   */
  lemma RetentionSparesOpenIff(ix: Index, maxAgeMs: int, now: int)
    requires Inv(ix)
    ensures SparesOpenEffects(ix, Retained(ix, maxAgeMs, now)) <==>
            forall e :: InOldRun(ix, e, maxAgeMs, now) ==> IsTerminal(ix.effectsById[e].state)
  {
    hide Inv, OldRun, Retained;
    RetentionRemovesExactly(ix, maxAgeMs, now);
    var after := Retained(ix, maxAgeMs, now);
    if e :| InOldRun(ix, e, maxAgeMs, now) && !IsTerminal(ix.effectsById[e].state) {
      assert e in ix.effectsById && e !in after.effectsById;
    }
  }

  // ----- Open effects that are pruned -----------------------------------------------------------

  /** An open effect of a run that is still going. */
  predicate OpenInLiveRun(ix: Index, e: Uuid, r: Uuid) {
    && e in ix.effectsById
    && !IsTerminal(ix.effectsById[e].state)
    && ix.effectsById[e].runId == Some(r)
    && r in ix.runs
    && !IsTerminalRun(ix.runs[r].status)
  }

  /** The effect's run was completed at this time. */
  predicate EndedAt(ix: Index, e: Uuid, r: Uuid, at: int) {
    && e in ix.effectsById
    && ix.effectsById[e].runId == Some(r)
    && r in ix.runs
    && ix.runs[r].status == Completed
    && ix.runs[r].updatedAtMs == at
  }

  /** The run is marked completed, then retention is applied. */
  function CompleteThenPrune(scope: Scope, r: Uuid, done: Inputs, p: WalPosition, maxAgeMs: int, prune: Inputs,
                             q: WalPosition): seq<Step>
  {
    [Do(UpdateRun(scope, r, Completed, None), done, p)] + [Do(ApplyRetention(maxAgeMs), prune, q)]
  }

  /**
    From every reachable state with an open effect in a live run, two requests take the
    effect away: the run is marked completed, and retention reaches that moment.
   */
  lemma OpenEffectIsPruned(cfg: Config, strategy: Strategy, steps: seq<Step>, e: Uuid, r: Uuid, scope: Scope,
                           done: Inputs, p: WalPosition, maxAgeMs: int, prune: Inputs, q: WalPosition)
    requires Possible(cfg, strategy, steps + CompleteThenPrune(scope, r, done, p, maxAgeMs, prune, q))
    requires var m := Run(cfg, strategy, steps).memory;
             m.Up? && OpenInLiveRun(m.index, e, r) && RunInScope(m.index, scope, r).Some?
    requires Aged(done.now, maxAgeMs, prune.now)
    ensures var m := Run(cfg, strategy, steps + CompleteThenPrune(scope, r, done, p, maxAgeMs, prune, q)).memory;
            m.Up? && e !in m.index.effectsById && r !in m.index.runs
  {
    hide Run, Possible, Inv, Next, Enabled, SystemInv, Retained, OpenInLiveRun, RunInScope, OldEffect;
    var first, second := Do(UpdateRun(scope, r, Completed, None), done, p), Do(ApplyRetention(maxAgeMs), prune, q);
    assert steps + CompleteThenPrune(scope, r, done, p, maxAgeMs, prune, q) == steps + [first] + [second];
    PossibleFront(cfg, strategy, steps + [first], second);
    PossibleFront(cfg, strategy, steps, first);
    RunKeepsInv(cfg, strategy, steps);
    RunKeepsInv(cfg, strategy, steps + [first]);
    RunSnoc(cfg, strategy, steps, first);
    RunSnoc(cfg, strategy, steps + [first], second);
    var s, t := Run(cfg, strategy, steps), Run(cfg, strategy, steps + [first]);
    MemoryInv(s);
    CompletedRun(cfg, strategy, s, e, r, scope, done, p);
    RetentionStep(cfg, strategy, t, maxAgeMs, prune, q);
    MemoryInv(t);
    RetentionRemovesExactly(t.memory.index, maxAgeMs, prune.now);
  }

  lemma MemoryInv(s: System)
    requires SystemInv(s) && s.memory.Up?
    ensures Inv(s.memory.index)
  {
    hide Inv, Folded;
  }

  lemma CompletedRun(cfg: Config, strategy: Strategy, s: System, e: Uuid, r: Uuid, scope: Scope, done: Inputs,
                     p: WalPosition)
    requires s.memory.Up? && Inv(s.memory.index) && OpenInLiveRun(s.memory.index, e, r)
    requires RunInScope(s.memory.index, scope, r).Some?
    ensures var t := Next(cfg, strategy, s, Do(UpdateRun(scope, r, Completed, None), done, p));
            t.memory.Up? && EndedAt(t.memory.index, e, r, done.now)
  {
    hide Inv, ApplyRecord, AppendThenDie, Snapshotted, Reopened, Append, GroupCommit;
    UpdateApplied(s.memory.index, e, r, done.now);
  }

  lemma UpdateApplied(ix: Index, e: Uuid, r: Uuid, now: int)
    requires Inv(ix) && OpenInLiveRun(ix, e, r)
    ensures var next := ix.runs[r].(status := Completed, version := ix.runs[r].version + 1, updatedAtMs := now);
            var after := ApplyRecord(ix, RunUpdated(next)).index;
            EndedAt(after, e, r, now)
  {
    hide CheckpointsOk, EffectsOk, TimelineOk;
    assert ix.runs[r].id == r;
  }

  lemma RetentionStep(cfg: Config, strategy: Strategy, s: System, maxAgeMs: int, prune: Inputs, q: WalPosition)
    requires s.memory.Up?
    ensures var t := Next(cfg, strategy, s, Do(ApplyRetention(maxAgeMs), prune, q));
            t.memory.Up? && t.memory.index == Retained(s.memory.index, maxAgeMs, prune.now)
  {
    hide PlanRetention, ApplyRecord, AppendThenDie, Snapshotted, Reopened;
  }

  /** Such states are reached: open, create a run, acquire an effect in it. */
  lemma OpenEffectIsReached(cfg: Config, strategy: Strategy, create: Operation, created: Inputs, acquire: Operation,
                            acquired: Inputs, at: nat)
    requires create.CreateRun? && PlanOf(cfg, EmptyIndex, create, created).Persist?
    requires acquire.Acquire? && acquire.scope == create.scope && acquire.acquire.runId == Some(created.newId)
    requires InvalidEffectField(acquire.acquire.scope, acquire.idempotencyKey, acquire.acquire.toolName).None?
    requires ResolveLeaseMs(cfg, acquire.acquire.leaseDurationSeconds).Some?
    requires acquired.newId != created.newId && at > 0
    ensures var steps :=
              [Reopen(false), Do(create, created, WalPosition(1, 0)), Do(acquire, acquired, WalPosition(1, at))];
            Possible(cfg, strategy, steps) &&
            var m := Run(cfg, strategy, steps).memory;
            m.Up? && OpenInLiveRun(m.index, acquired.newId, created.newId) &&
            RunInScope(m.index, create.scope, created.newId).Some?
  {
    hide Run, Possible, Holding, ApplyRecord, LengthWithin, InvalidEffectField, BuildEvent, Sha256Digest, Utf8, Print;
    FirstOpening(cfg, strategy);
    var one, run := [Reopen(false)], PlanOf(cfg, EmptyIndex, create, created).kind.run;
    WritesNext(cfg, strategy, one, [], create, created, 0);
    var two := one + [Do(create, created, WalPosition(1, 0))];
    var ix := Run(cfg, strategy, two).memory.index;
    RunIsThere(run);
    assert [] + [Entry(WalPosition(1, 0), RunCreated(run))] == [Entry(WalPosition(1, 0), RunCreated(run))];
    var plan := PlanOf(cfg, ix, acquire, acquired);
    WritesNext(cfg, strategy, two, [Entry(WalPosition(1, 0), RunCreated(run))], acquire, acquired, at);
    EffectIsThere(ix, plan.kind, created.newId);
    assert two + [Do(acquire, acquired, WalPosition(1, at))] ==
           [Reopen(false), Do(create, created, WalPosition(1, 0)), Do(acquire, acquired, WalPosition(1, at))];
  }

  lemma EffectIsThere(ix: Index, kind: RecordKind, r: Uuid)
    requires kind.EffectApplied? && r in ix.runs
    ensures var after := ApplyRecord(ix, kind).index;
            kind.effect.id in after.effectsById && after.effectsById[kind.effect.id] == kind.effect &&
            r in after.runs && after.runs[r].status == ix.runs[r].status &&
            after.runs[r].tenantId == ix.runs[r].tenantId && after.runs[r].projectId == ix.runs[r].projectId
  {
  }
}
