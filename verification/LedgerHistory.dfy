/**
  What every history is made of: each record was planned from the indexes its
  predecessors left, with identifiers that are new or already present.
 */
module LedgerHistory {
  import opened CanonicalJson
  import opened Digests
  import opened LedgerModel
  import opened LogPositions
  import opened LedgerIndexes
  import opened LedgerOps
  import opened LedgerInvariant
  import opened LedgerSystem
  import opened LedgerRecovery
  import opened LedgerSafety

  // ----- One record --------------------------------------------------------------------------

  /** A record's identifiers: minted now, or already there. */
  predicate Identified(ix: Index, kind: RecordKind, newId: Uuid) {
    && (kind.RunCreated? ==> kind.run.id == newId)
    && (kind.EffectApplied? ==> kind.effect.id in ix.effectsById || kind.effect.id == newId)
    && (kind.RetentionApplied? ==>
          (forall r :: r in kind.runIds ==> r in ix.runs) && (forall e :: e in kind.effectIds ==> e in ix.effectsById))
  }

  lemma PlanIdentified(cfg: Config, ix: Index, op: Operation, inp: Inputs)
    requires Inv(ix) && FreshFor(ix, inp)
    ensures var plan := PlanOf(cfg, ix, op, inp);
            plan.Persist? ==> Identified(ix, plan.kind, inp.newId)
  {
    hide Inv, PlanAcquire, PlanTransition, PlanRetention, Identified;
    InvEffects(ix);
    match op
    case Acquire(scope, key, req) =>
      AcquireStep(cfg, ix, scope, key, req, inp);
      EffectIdentified(ix, PlanAcquire(cfg, ix, scope, key, req, inp), inp.newId);
    case Transition(scope, id, req, canReconcile) =>
      TransitionStep(cfg, ix, scope, id, req, canReconcile, inp);
      EffectIdentified(ix, PlanTransition(cfg, ix, scope, id, req, canReconcile, inp), inp.newId);
    case ApplyRetention(maxAgeMs) => RetentionIdentified(ix, maxAgeMs, inp);
    case _ => OtherIdentified(cfg, ix, op, inp);
  }

  lemma EffectIdentified(ix: Index, plan: Plan, newId: Uuid)
    requires plan.Persist? ==> plan.kind.EffectApplied? && (plan.kind.effect.id in ix.effectsById || plan.kind.effect.id == newId)
    ensures plan.Persist? ==> Identified(ix, plan.kind, newId)
  {
  }

  lemma RetentionIdentified(ix: Index, maxAgeMs: int, inp: Inputs)
    requires Inv(ix)
    ensures var plan := PlanRetention(ix, maxAgeMs, inp.now);
            plan.Persist? ==> Identified(ix, plan.kind, inp.newId)
  {
    hide SortedKeys, CountEvents, CheckpointsOk, TimelineOk, KeysInverse;
    var cutoff := Cutoff(maxAgeMs, inp.now);
    forall r | r in SortedKeys(PrunedRuns(ix, cutoff)) ensures r in ix.runs {
      assert r in PrunedRuns(ix, cutoff);
    }
    forall e | e in SortedKeys(PrunedEffects(ix, cutoff)) ensures e in ix.effectsById {
      assert e in PrunedEffects(ix, cutoff);
    }
  }

  lemma OtherIdentified(cfg: Config, ix: Index, op: Operation, inp: Inputs)
    requires !op.Acquire? && !op.Transition? && !op.ApplyRetention?
    ensures var plan := PlanOf(cfg, ix, op, inp);
            plan.Persist? ==> Identified(ix, plan.kind, inp.newId)
  {
    hide BuildEvent, LengthWithin, Sha256Digest, Utf8, Print;
  }

  /** A run is created running at version 1; an update changes its status and raises its version by one. */
  predicate RunMoves(ix: Index, kind: RecordKind) {
    match kind
    case RunCreated(run) => run.version == 1 && run.status == Running
    case RunUpdated(run) =>
      && run.id in ix.runs
      && run == ix.runs[run.id].(status := run.status, version := run.version, updatedAtMs := run.updatedAtMs)
      && run.version == ix.runs[run.id].version + 1
      && (IsTerminalRun(ix.runs[run.id].status) ==> run.status == ix.runs[run.id].status)
    case _ => true
  }

  lemma PlanMovesRuns(cfg: Config, ix: Index, op: Operation, inp: Inputs)
    requires Inv(ix)
    ensures var plan := PlanOf(cfg, ix, op, inp);
            plan.Persist? ==> RunMoves(ix, plan.kind)
  {
    hide PlanAcquire, PlanTransition, CheckpointsOk, EffectsOk, TimelineOk, BuildEvent, LengthWithin, Sha256Digest, Utf8,
         Print, SortedKeys, CountEvents, CheckpointSequence;
    match op
    case Acquire(scope, key, req) => AcquireIsEffect(cfg, ix, scope, key, req, inp);
    case Transition(scope, id, req, canReconcile) => TransitionIsEffect(cfg, ix, scope, id, req, canReconcile, inp);
    case _ =>
  }

  lemma AcquireIsEffect(cfg: Config, ix: Index, scope: Scope, key: string, req: AcquireRequest, inp: Inputs)
    ensures var plan := PlanAcquire(cfg, ix, scope, key, req, inp);
            plan.Persist? ==> plan.kind.EffectApplied?
  {
    hide InvalidEffectField, BuildEvent, EffectEventPayload, Sha256Digest, Utf8, Print;
  }

  lemma TransitionIsEffect(cfg: Config, ix: Index, scope: Scope, id: Uuid, req: UpdateRequest, canReconcile: bool,
                           inp: Inputs)
    ensures var plan := PlanTransition(cfg, ix, scope, id, req, canReconcile, inp);
            plan.Persist? ==> plan.kind.EffectApplied?
  {
    hide Transitioned, Unauthorized, Legal, BuildEvent, EffectEventPayload;
  }

  // ----- Whole histories ---------------------------------------------------------------------

  /** The record fits where it was written, moves its run as it should, and its identifiers are new or present. */
  ghost predicate EntryGrounded(h: seq<Logged>, i: nat)
    requires i < |h|
  {
    var ix := Folded(h[..i]).index;
    && Fits(ix, h[i].kind)
    && RunMoves(ix, h[i].kind)
    && exists id :: NeverUsed(h[..i], id) && Identified(ix, h[i].kind, id)
  }

  ghost predicate Grounded(h: seq<Logged>) {
    forall i :: 0 <= i < |h| ==> EntryGrounded(h, i)
  }

  lemma DoGrounded(cfg: Config, s: System, op: Operation, inp: Inputs, told: bool)
    requires SystemInv(s) && s.memory.Up? && NeverUsed(s.history, inp.newId) && Grounded(s.history)
    ensures Grounded(HistoryAfter(cfg, s, op, inp, told))
  {
    hide Inv, PlanOf, ApplyRecord, Folded, LogOk, SnapshotOk, NeverUsed, Fits, Identified, RunMoves;
    var plan := PlanOf(cfg, s.memory.index, op, inp);
    if plan.Persist? {
      var h := s.history;
      var g := h + [EntryOf(op, plan, told)];
      IdsComeFromHistory(h, inp.newId);
      PlanFits(cfg, s.memory.index, op, inp);
      PlanIdentified(cfg, s.memory.index, op, inp);
      PlanMovesRuns(cfg, s.memory.index, op, inp);
      forall i | 0 <= i < |g| ensures EntryGrounded(g, i) {
        if i < |h| {
          assert EntryGrounded(h, i) && g[..i] == h[..i];
        } else {
          assert g[..i] == h;
        }
      }
    }
  }

  lemma GroundedPrefix(h: seq<Logged>, n: nat)
    requires Grounded(h) && n <= |h|
    ensures Grounded(h[..n])
  {
    hide Fits, Identified, RunMoves, NeverUsed, Folded;
    forall i | 0 <= i < n ensures EntryGrounded(h[..n], i) {
      assert EntryGrounded(h, i) && h[..n][..i] == h[..i];
    }
  }

  lemma {:induction false} RunGrounded(cfg: Config, strategy: Strategy, steps: seq<Step>)
    requires Possible(cfg, strategy, steps)
    ensures Grounded(Run(cfg, strategy, steps).history)
  {
    hide SystemInv, EntryGrounded, Perform, AppendThenDie, HistoryAfter;
    if steps != [] {
      var front, step := steps[..|steps| - 1], steps[|steps| - 1];
      forall i | 0 <= i < |front| ensures front[..i] == steps[..i] && front[i] == steps[i] {}
      RunGrounded(cfg, strategy, front);
      RunKeepsInv(cfg, strategy, front);
      var s := Run(cfg, strategy, front);
      assert Enabled(strategy, s, step);
      match step
      case Do(op, inp, position) =>
        DoGrounded(cfg, s, op, inp, true);
        DoGrows(cfg, strategy, s, op, inp, position, false);
      case DieDuring(op, inp, position, flushed) =>
        DoGrounded(cfg, s, op, inp, false);
        DoGrows(cfg, strategy, s, op, inp, position, flushed);
      case Crash(keep) => GroundedPrefix(s.history, keep);
      case _ =>
    }
  }
}
