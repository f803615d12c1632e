/**
  What a caller is told is what the indexes then hold, for every operation; and the
  outcome of an effect is what later requests are answered with.
 */
module LedgerReplies {
  import opened Basics
  import opened CanonicalJson
  import opened Digests
  import opened LedgerModel
  import opened LedgerIndexes
  import opened LedgerOps
  import opened LedgerInvariant
  import opened LedgerSystem
  import opened LedgerRecovery
  import opened LedgerSafety
  import opened LedgerReapply

  /** The indexes hold what the reply says. */
  ghost predicate Holds(ix: Index, reply: Reply) {
    match reply
    case Decided(_, effect, _, _) => HoldsEffect(ix, effect)
    case EffectReply(effect) => HoldsEffect(ix, effect)
    case RunReply(run) => run.id in ix.runs && ix.runs[run.id] == run
    case EventReply(event) =>
      var events := EventsOf(ix, event.runId);
      events != [] && events[|events| - 1] == event && |events| == event.sequence
    case CheckpointReply(checkpoint) => exists c :: c in CheckpointsOf(ix, checkpoint.runId) && c.id == checkpoint.id
    case RetentionReply(_, _, _, _) => true
  }

  /** Found by its identifier and by its key. */
  predicate HoldsEffect(ix: Index, effect: EffectRecord) {
    && effect.id in ix.effectsById && ix.effectsById[effect.id] == effect
    && EffectByKey(ix, EffectKeyOf(effect)) == Some(effect)
  }

  /** The reply that belongs to a record. */
  predicate Announces(reply: Reply, kind: RecordKind) {
    match kind
    case RunCreated(run) => reply == RunReply(run)
    case RunUpdated(run) => reply == RunReply(run)
    case EffectApplied(effect, _) => (reply.Decided? && reply.effect == effect) || reply == EffectReply(effect)
    case EventAppended(e) => reply == EventReply(e)
    case CheckpointCreated(c) => reply == CheckpointReply(c)
    case RetentionApplied(_, _, _) => reply.RetentionReply?
  }

  lemma PersistAnnounces(ix: Index, scope: Scope, effect: EffectRecord, eventType: string, detail: Json, inp: Inputs,
                         reply: Reply)
    requires (reply.Decided? && reply.effect == effect) || reply == EffectReply(effect)
    ensures var plan := PersistEffect(ix, scope, effect, eventType, detail, inp, reply);
            plan.Persist? ==> Announces(plan.reply, plan.kind)
  {
    hide PersistEffect;
    PersistEffectKind(ix, scope, effect, eventType, detail, inp, reply);
  }

  lemma ExistingAnnounces(ix: Index, scope: Scope, effect: EffectRecord, req: AcquireRequest, leaseMs: int, inp: Inputs)
    ensures var plan := PlanExisting(ix, scope, effect, req, leaseMs, inp);
            plan.Persist? ==> Announces(plan.reply, plan.kind)
  {
    hide PersistEffect, Announces, Sha256Digest, Utf8;
    var next, gone := Reacquired(effect, req, leaseMs, inp), Expired(effect, inp.now);
    var granted := Decided(Execute, next, Some(inp.leaseToken), None);
    PersistAnnounces(ix, scope, next, "effect.reacquired", Detail(String("failed_retryable"), "claimed"), inp, granted);
    PersistAnnounces(ix, scope, next, "effect.reacquired", DetailWithReason("claimed", "claimed", "lease_expired"), inp,
                     granted);
    PersistAnnounces(ix, scope, gone, "effect.outcome_unknown",
                     DetailWithReason("in_progress", "outcome_unknown", "lease_expired"), inp,
                     Decided(Reconcile, gone, None, None));
  }

  lemma AcquireAnnounces(cfg: Config, ix: Index, scope: Scope, key: string, req: AcquireRequest, inp: Inputs)
    ensures var plan := PlanAcquire(cfg, ix, scope, key, req, inp);
            plan.Persist? ==> Announces(plan.reply, plan.kind)
  {
    hide PersistEffect, PlanExisting, Announces, InvalidEffectField, Sha256Digest, Utf8, Print;
    var lease := ResolveLeaseMs(cfg, req.leaseDurationSeconds);
    if lease.Some? {
      match EffectByKey(ix, EffectKey(scope.tenantId, scope.projectId, req.scope, key))
      case Some(effect) => ExistingAnnounces(ix, scope, effect, req, lease.value, inp);
      case None =>
        var effect := NewEffect(scope, key, req, Sha256Digest(Utf8(Print(req.input))), lease.value, inp);
        PersistAnnounces(ix, scope, effect, "effect.acquired", Detail(Null, "claimed"), inp,
                         Decided(Execute, effect, Some(inp.leaseToken), None));
    }
  }

  lemma TransitionAnnounces(cfg: Config, ix: Index, scope: Scope, id: Uuid, req: UpdateRequest, canReconcile: bool,
                            inp: Inputs)
    ensures var plan := PlanTransition(cfg, ix, scope, id, req, canReconcile, inp);
            plan.Persist? ==> Announces(plan.reply, plan.kind)
  {
    hide PersistEffect, Announces, Unauthorized, Transitioned, Legal;
    if EffectInScope(ix, scope, id).Some? {
      var effect := ix.effectsById[id];
      var moved := Transitioned(cfg, effect, req, inp.now);
      if moved.Some? {
        var detail := Object(map[
          "from" := String(StatusName(effect.state)),
          "to" := String(StatusName(moved.value.state)),
          "transition" := String(TransitionName(req.transition))]);
        PersistAnnounces(ix, scope, moved.value, EventTypeOf(req.transition), detail, inp, EffectReply(moved.value));
      }
    }
  }

  lemma PlanAnnounces(cfg: Config, ix: Index, op: Operation, inp: Inputs)
    ensures var plan := PlanOf(cfg, ix, op, inp);
            plan.Persist? ==> Announces(plan.reply, plan.kind)
  {
    hide PlanAcquire, PlanTransition, BuildEvent, LengthWithin, Sha256Digest, Utf8, Print, SortedKeys, CountEvents;
    match op
    case Acquire(scope, key, req) => AcquireAnnounces(cfg, ix, scope, key, req, inp);
    case Transition(scope, id, req, canReconcile) => TransitionAnnounces(cfg, ix, scope, id, req, canReconcile, inp);
    case _ =>
  }

  lemma EventHeld(ix: Index, kind: RecordKind)
    requires Inv(ix) && Fits(ix, kind) && kind.EventAppended?
    ensures Holds(ApplyRecord(ix, kind).index, EventReply(kind.appended))
  {
    hide Inv, Fits, ApplyRecord, HeadHash;
    FittingEvent(ix, kind);
  }

  lemma EffectHeld(ix: Index, kind: RecordKind, reply: Reply)
    requires kind.EffectApplied? && Announces(reply, kind)
    ensures Holds(ApplyRecord(ix, kind).index, reply)
  {
  }

  lemma RecordHeld(ix: Index, kind: RecordKind, reply: Reply)
    requires Inv(ix) && Fits(ix, kind) && Announces(reply, kind)
    ensures Holds(ApplyRecord(ix, kind).index, reply)
  {
    hide Inv, Fits;
    match kind
    case EventAppended(_) => EventHeld(ix, kind);
    case EffectApplied(_, _) => EffectHeld(ix, kind, reply);
    case CheckpointCreated(c) =>
      var list := CheckpointsOf(ix, c.runId);
      if exists i :: 0 <= i < |list| && list[i].id == c.id {
        var i :| 0 <= i < |list| && list[i].id == c.id;
        assert list[i] in CheckpointsOf(ApplyRecord(ix, kind).index, c.runId);
      } else {
        assert c in CheckpointsOf(ApplyRecord(ix, kind).index, c.runId);
      }
    case _ =>
  }

  /** Whatever an operation persists, the indexes afterwards hold what its caller is told. */
  lemma RepliesAreHeld(cfg: Config, ix: Index, op: Operation, inp: Inputs)
    requires Inv(ix) && FreshFor(ix, inp) && PlanOf(cfg, ix, op, inp).Persist?
    ensures Holds(ApplyRecord(ix, PlanOf(cfg, ix, op, inp).kind).index, PlanOf(cfg, ix, op, inp).reply)
  {
    hide Inv, Fits, PlanOf, ApplyRecord, Holds, Announces;
    PlanAnnounces(cfg, ix, op, inp);
    PlanFits(cfg, ix, op, inp);
    RecordHeld(ix, PlanOf(cfg, ix, op, inp).kind, PlanOf(cfg, ix, op, inp).reply);
  }

  // ----- Outcomes -------------------------------------------------------------------------------

  /** What a transition that settles an effect reports: a result and receipt, or a failure. */
  predicate Reports(effect: EffectRecord, req: UpdateRequest) {
    match req.transition
    case Commit => effect.result == req.result && effect.externalReceipt == req.externalReceipt && effect.failure.None?
    case ReconcileCommitted => effect.result == req.result && effect.externalReceipt == req.externalReceipt
    case FailTerminal => effect.failure.Some? && (req.failure.Some? ==> effect.failure == req.failure)
    case ReconcileFailed => effect.failure.Some? && (req.failure.Some? ==> effect.failure == req.failure)
    case _ => true
  }

  lemma TransitionReports(cfg: Config, ix: Index, scope: Scope, id: Uuid, req: UpdateRequest, canReconcile: bool,
                          inp: Inputs)
    requires Inv(ix)
    ensures var plan := PlanTransition(cfg, ix, scope, id, req, canReconcile, inp);
            plan.Persist? ==>
              && plan.kind.EffectApplied?
              && Reports(plan.kind.effect, req)
              && plan.kind.effect.inputDigest == ix.effectsById[id].inputDigest
              && plan.kind.effect.toolName == ix.effectsById[id].toolName
              && EffectKeyOf(plan.kind.effect) == EffectKeyOf(ix.effectsById[id])
              && plan.kind.effect.state == TargetState(req.transition, ix.effectsById[id].state)
  {
    hide PersistEffect, Unauthorized, Legal, ResolveLeaseMs, Inv;
    if EffectInScope(ix, scope, id).Some? {
      var effect := ix.effectsById[id];
      var moved := Transitioned(cfg, effect, req, inp.now);
      if moved.Some? {
        var detail := Object(map[
          "from" := String(StatusName(effect.state)),
          "to" := String(StatusName(moved.value.state)),
          "transition" := String(TransitionName(req.transition))]);
        PersistEffectKind(ix, scope, moved.value, EventTypeOf(req.transition), detail, inp, EffectReply(moved.value));
      }
    }
  }

  /**
    An outcome, once reported, stays: wherever the history goes from there, as long as
    retention has not pruned the effect, every request that repeats the effect's own is
    answered with the committed result and receipt, or with the failure, and writes nothing.
   */
  lemma OutcomeIsReplayed(cfg: Config, h: seq<Logged>, n: nat, scope: Scope, id: Uuid, req: UpdateRequest,
                          canReconcile: bool, inp: Inputs, key: string, again: AcquireRequest, later: Inputs)
    requires Sound(h) && Grown(h) && n < |h|
    requires var before := Folded(h[..n]).index;
             var plan := PlanTransition(cfg, before, scope, id, req, canReconcile, inp);
             plan.Persist? && h[n].kind == plan.kind &&
             id in before.effectsById && IsTerminal(TargetState(req.transition, before.effectsById[id].state)) &&
             Repeats(cfg, before.effectsById[id], scope, key, again)
    requires id in Folded(h).index.effectsById
    ensures h[n].kind.EffectApplied? && Reports(h[n].kind.effect, req)
    ensures PlanOf(cfg, Folded(h).index, Acquire(scope, key, again), later) ==
            Answer(Decided(Replay, h[n].kind.effect, None, None))
  {
    hide PlanTransition, PlanOf, Inv, Folded, Reports, InvalidEffectField, Sha256Digest, Utf8, Print, HistoryLegal;
    var before := Folded(h[..n]).index;
    assert h[..|h|] == h;
    InvEffects(before);
    InvEffects(Folded(h).index);
    TransitionReports(cfg, before, scope, id, req, canReconcile, inp);
    TransitionStep(cfg, before, scope, id, req, canReconcile, inp);
    TerminalReplays(cfg, h, n, id, scope, key, again, later);
  }

  // ----- Forks ------------------------------------------------------------------------------------

  /** A fork names its parent and a point that lies within the parent's timeline, and starts an empty one of its own. */
  lemma ForkWithinParent(ix: Index, scope: Scope, runId: Uuid, fromEventSequence: Option<int>,
                         fromCheckpointId: Option<Uuid>, reason: string, metadata: Option<Json>, inp: Inputs)
    requires Inv(ix)
    ensures var plan := PlanForkRun(ix, scope, runId, fromEventSequence, fromCheckpointId, reason, metadata, inp);
            plan.Persist? ==>
              && plan.kind.RunCreated?
              && runId in ix.runs
              && plan.kind.run.parentRunId == Some(runId)
              && plan.kind.run.forkedFromEventSequence.Some?
              && 0 <= plan.kind.run.forkedFromEventSequence.value <= |EventsOf(ix, runId)|
              && plan.kind.run.lastEventSequence == 0
  {
    hide LengthWithin, Inv, CheckpointSequence;
    if runId in ix.runs {
      RunCounts(ix, runId);
      RunHasItsId(ix, runId);
      if fromCheckpointId.Some? {
        CheckpointWithin(ix, runId, fromCheckpointId.value);
      }
    }
  }

  lemma RunHasItsId(ix: Index, runId: Uuid)
    requires Inv(ix) && runId in ix.runs
    ensures ix.runs[runId].id == runId
  {
    hide CheckpointsOk, EffectsOk, TimelineOk;
  }

  lemma CheckpointWithin(ix: Index, runId: Uuid, id: Uuid)
    requires Inv(ix) && runId in ix.runs
    ensures var at := CheckpointSequence(CheckpointsOf(ix, runId), id);
            at.Some? ==> 0 <= at.value <= ix.runs[runId].lastEventSequence
  {
    hide EffectsOk, TimelineOk, CheckpointSequence;
    SequenceFromList(CheckpointsOf(ix, runId), id);
  }

  lemma {:induction false} SequenceFromList(list: seq<CheckpointRecord>, id: Uuid)
    ensures CheckpointSequence(list, id).Some? ==>
              exists i :: 0 <= i < |list| && list[i].id == id && list[i].eventSequence == CheckpointSequence(list, id).value
  {
    if list != [] && list[0].id != id {
      SequenceFromList(list[1..], id);
      if CheckpointSequence(list[1..], id).Some? {
        var i :| 0 <= i < |list[1..]| && list[1..][i].id == id &&
                 list[1..][i].eventSequence == CheckpointSequence(list[1..], id).value;
        assert list[i + 1] == list[1..][i];
      }
    }
  }
}
