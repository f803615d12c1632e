/**
  What a request asks for is what is recorded: for every operation, exactly when it is
  accepted and which record it writes; what the timeline tells of an effect; and that no
  operation touches another scope.
 */
module LedgerRequests {
  import opened Basics
  import opened CanonicalJson
  import opened Digests
  import opened EventChain
  import opened LedgerModel
  import opened LedgerIndexes
  import opened LedgerOps
  import opened LedgerInvariant
  import opened LedgerSafety
  import opened LedgerHistory
  import opened LedgerReapply
  import opened LedgerReplies

  /** A run of the caller's own tenant and project. */
  predicate Sees(ix: Index, scope: Scope, r: Uuid) {
    r in ix.runs && Scope(ix.runs[r].tenantId, ix.runs[r].projectId) == scope
  }

  lemma SeesIff(ix: Index, scope: Scope, r: Uuid)
    ensures RunInScope(ix, scope, r) == if Sees(ix, scope, r) then Some(ix.runs[r]) else None
  {
  }

  // ----- Runs --------------------------------------------------------------------------------

  /** A run as it begins: running, at version 1, with nothing on its timeline. */
  predicate Begins(run: RunRecord, scope: Scope, inp: Inputs) {
    && run.id == inp.newId
    && Scope(run.tenantId, run.projectId) == scope
    && run.status == Running
    && run.version == 1
    && run.lastEventSequence == 0
    && run.headHash == GenesisHash
    && run.createdAtMs == inp.now == run.updatedAtMs
  }

  /** A run is created exactly for names of the allowed lengths, as it was asked for. */
  lemma CreateRunRecords(cfg: Config, ix: Index, op: Operation, inp: Inputs)
    requires op.CreateRun?
    ensures var plan := PlanOf(cfg, ix, op, inp);
            (plan.Persist? <==> 1 <= |Utf8(op.externalId)| <= 255 && 1 <= |Utf8(op.agentName)| <= 200) &&
            (!plan.Persist? ==> plan.Refuse? && plan.error.Validation?) &&
            (plan.Persist? ==>
               && plan.kind.RunCreated?
               && plan.reply == RunReply(plan.kind.run)
               && Begins(plan.kind.run, op.scope, inp)
               && plan.kind.run.externalId == op.externalId
               && plan.kind.run.agentName == op.agentName
               && plan.kind.run.metadata == op.metadata
               && plan.kind.run.parentRunId.None?
               && plan.kind.run.forkedFromEventSequence.None?)
  {
    hide Utf8;
  }

  /**
    A run is updated exactly when it is in scope, has the version expected if one is, and
    is not finished in another status; its status is then the one asked for.
   */
  lemma UpdateRunRecords(cfg: Config, ix: Index, op: Operation, inp: Inputs)
    requires op.UpdateRun?
    ensures var plan := PlanOf(cfg, ix, op, inp);
            (plan.Persist? <==>
               && Sees(ix, op.scope, op.runId)
               && (op.expectedVersion.Some? ==> op.expectedVersion.value == ix.runs[op.runId].version)
               && (ix.runs[op.runId].status in {Completed, RunStatus.Failed, Cancelled} ==>
                     op.status == ix.runs[op.runId].status)) &&
            (!plan.Persist? ==> plan.Refuse?) &&
            (plan.Persist? ==>
               && plan.kind.RunUpdated?
               && plan.reply == RunReply(plan.kind.run)
               && var was, now := ix.runs[op.runId], plan.kind.run;
                  && now.status == op.status
                  && now.version == was.version + 1
                  && now.updatedAtMs == inp.now
                  && was == now.(status := was.status, version := was.version, updatedAtMs := was.updatedAtMs))
  {
    SeesIff(ix, op.scope, op.runId);
  }

  /** The point a fork starts from: the event asked for, or that of the checkpoint asked for. */
  ghost predicate ForkPoint(ix: Index, op: Operation, at: int)
    requires op.ForkRun?
  {
    if op.fromEventSequence.Some? then
      op.fromCheckpointId.None? && at == op.fromEventSequence.value && 0 <= at <= |EventsOf(ix, op.runId)|
    else
      op.fromCheckpointId.Some? &&
      exists c :: c in CheckpointsOf(ix, op.runId) && c.id == op.fromCheckpointId.value && c.eventSequence == at
  }

  /** A fork is made exactly for a reason of the allowed length, a run in scope and one point that is there. */
  lemma ForkRunRecords(cfg: Config, ix: Index, op: Operation, inp: Inputs)
    requires Inv(ix) && op.ForkRun?
    ensures var plan := PlanOf(cfg, ix, op, inp);
            (plan.Persist? <==>
               1 <= |Utf8(op.reason)| <= 500 && Sees(ix, op.scope, op.runId) && exists at :: ForkPoint(ix, op, at)) &&
            (!plan.Persist? ==> plan.Refuse?) &&
            (plan.Persist? ==>
               && plan.kind.RunCreated?
               && plan.reply == RunReply(plan.kind.run)
               && op.runId in ix.runs
               && var fork, parent := plan.kind.run, ix.runs[op.runId];
                  && Begins(fork, op.scope, inp)
                  && fork.forkedFromEventSequence.Some?
                  && ForkPoint(ix, op, fork.forkedFromEventSequence.value)
                  && fork.parentRunId == Some(op.runId)
                  && fork.externalId == parent.externalId + ":fork"
                  && fork.agentName == parent.agentName
                  && fork.metadata == op.metadata)
  {
    hide Inv, Utf8, CheckpointSequence;
    SeesIff(ix, op.scope, op.runId);
    if Sees(ix, op.scope, op.runId) {
      RunCounts(ix, op.runId);
      RunHasItsId(ix, op.runId);
      if op.fromCheckpointId.Some? {
        var list, id := CheckpointsOf(ix, op.runId), op.fromCheckpointId.value;
        SequenceFromList(list, id);
        SequenceFound(list, id);
        if CheckpointSequence(list, id).Some? && op.fromEventSequence.None? {
          assert ForkPoint(ix, op, CheckpointSequence(list, id).value);
        }
      } else if op.fromEventSequence.Some? && 0 <= op.fromEventSequence.value <= |EventsOf(ix, op.runId)| {
        assert ForkPoint(ix, op, op.fromEventSequence.value);
      }
    }
  }

  lemma {:induction false} SequenceFound(list: seq<CheckpointRecord>, id: Uuid)
    ensures (exists c :: c in list && c.id == id) ==> CheckpointSequence(list, id).Some?
  {
    if list != [] && list[0].id != id {
      SequenceFound(list[1..], id);
      if c :| c in list && c.id == id {
        assert c in list[1..];
      }
    }
  }

  // ----- Events and checkpoints ------------------------------------------------------------------

  /** A lower-case ASCII letter or a digit, or one of `-`, `.` and `_`, by its code. */
  predicate TypeCode(code: int) {
    97 <= code <= 122 || 48 <= code <= 57 || code in {45, 46, 95}
  }

  predicate NamesType(t: string) {
    1 <= |Utf8(t)| <= 200 && forall i :: 0 <= i < |t| ==> TypeCode(t[i] as int)
  }

  lemma NamesTypeIff(t: string)
    ensures ValidEventType(t) <==> NamesType(t)
  {
    hide Utf8, IsTypeChar, TypeCode;
    forall i | 0 <= i < |t| ensures IsTypeChar(t[i]) <==> TypeCode(t[i] as int) {
      TypeCodes(t[i]);
    }
    if forall c :: c in t ==> IsTypeChar(c) {
      assert forall i :: 0 <= i < |t| ==> t[i] in t;
    }
  }

  lemma TypeCodes(c: char)
    ensures IsTypeChar(c) <==> TypeCode(c as int)
  {
  }

  /** The event is the next of the run's timeline, chained to the last one. */
  predicate Continues(ix: Index, e: EventRecord, r: Uuid, inp: Inputs) {
    && e.runId == r
    && e.id == inp.eventId
    && e.recordedAtMs == inp.now
    && e.sequence == |EventsOf(ix, r)| + 1
    && e.previousHash == HeadHash(EventsOf(ix, r))
  }

  lemma BuiltContinues(ix: Index, scope: Scope, r: Uuid, eventType: string, occurredAtMs: int, payload: Json, inp: Inputs)
    requires Inv(ix) && Sees(ix, scope, r)
    ensures var e := BuildEvent(scope, ix.runs[r], inp.eventId, eventType, occurredAtMs, payload, inp.now);
            Continues(ix, e, r, inp) && Scope(e.tenantId, e.projectId) == scope && e.eventType == eventType &&
            e.occurredAtMs == occurredAtMs && e.payload == payload
  {
    hide CheckpointsOk, EffectsOk, ComputeEventHash, ChainOk;
    assert TimelineOk(ix.runs[r], EventsOf(ix, r));
  }

  /** An event is appended exactly for a well-formed type and a run in scope, with the caller's type, time and payload. */
  lemma AppendEventRecords(cfg: Config, ix: Index, op: Operation, inp: Inputs)
    requires Inv(ix) && op.AppendEvent?
    ensures var plan := PlanOf(cfg, ix, op, inp);
            (plan.Persist? <==> NamesType(op.eventType) && Sees(ix, op.scope, op.runId)) &&
            (!plan.Persist? ==> plan.Refuse?) &&
            (plan.Persist? ==>
               && plan.kind.EventAppended?
               && plan.reply == EventReply(plan.kind.appended)
               && var e := plan.kind.appended;
                  && Continues(ix, e, op.runId, inp)
                  && Scope(e.tenantId, e.projectId) == op.scope
                  && e.eventType == op.eventType
                  && e.occurredAtMs == op.occurredAtMs
                  && e.payload == op.payload)
  {
    hide Inv, BuildEvent, ValidEventType, NamesType, Continues;
    NamesTypeIff(op.eventType);
    SeesIff(ix, op.scope, op.runId);
    if Sees(ix, op.scope, op.runId) {
      BuiltContinues(ix, op.scope, op.runId, op.eventType, op.occurredAtMs, op.payload, inp);
    }
  }

  /** A checkpoint is made exactly for a run in scope at the version expected and a point on its timeline. */
  lemma CheckpointRecords(cfg: Config, ix: Index, op: Operation, inp: Inputs)
    requires Inv(ix) && op.CreateCheckpoint?
    ensures var plan := PlanOf(cfg, ix, op, inp);
            (plan.Persist? <==>
               && Sees(ix, op.scope, op.runId)
               && (op.expectedVersion.Some? ==> op.expectedVersion.value == ix.runs[op.runId].version)
               && 0 <= op.eventSequence <= |EventsOf(ix, op.runId)|) &&
            (!plan.Persist? ==> plan.Refuse?) &&
            (plan.Persist? ==>
               && plan.kind.CheckpointCreated?
               && plan.reply == CheckpointReply(plan.kind.checkpoint)
               && var c := plan.kind.checkpoint;
                  && c.id == inp.newId
                  && c.runId == op.runId
                  && Scope(c.tenantId, c.projectId) == op.scope
                  && c.eventSequence == op.eventSequence
                  && c.state == op.state
                  && c.stateDigest == Sha256Digest(Utf8(Print(op.state)))
                  && c.createdAtMs == inp.now)
  {
    hide Inv, Sha256Digest, Utf8, Print;
    SeesIff(ix, op.scope, op.runId);
    if Sees(ix, op.scope, op.runId) {
      RunCounts(ix, op.runId);
    }
  }

  // ----- What the timeline tells of an effect -------------------------------------------------------

  /** The event names the effect and its fence, where it came from and where it went. */
  predicate Tells(event: EventRecord, was: Option<EffectRecord>, now: EffectRecord) {
    && event.payload.Object?
    && var f := event.payload.fields;
       && f.Keys == {"effect_id", "scope", "idempotency_key", "tool_name", "fencing_token", "detail"}
       && f["effect_id"] == String(now.id)
       && f["scope"] == String(now.scope)
       && f["idempotency_key"] == String(now.idempotencyKey)
       && f["tool_name"] == String(now.toolName)
       && f["fencing_token"] == JsonInteger(now.fencingToken)
       && f["detail"].Object?
       && var d := f["detail"].fields;
          && "from" in d
          && "to" in d
          && d["from"] == (if was.Some? then String(StatusName(was.value.state)) else Null)
          && d["to"] == String(StatusName(now.state))
  }

  lemma PersistTells(ix: Index, scope: Scope, was: Option<EffectRecord>, now: EffectRecord, eventType: string,
                     detail: map<string, Json>, inp: Inputs, reply: Reply)
    requires Inv(ix) && "from" in detail && "to" in detail
    requires detail["from"] == if was.Some? then String(StatusName(was.value.state)) else Null
    requires detail["to"] == String(StatusName(now.state))
    ensures var plan := PersistEffect(ix, scope, now, eventType, Object(detail), inp, reply);
            plan.Persist? && now.runId.Some? ==>
              && plan.kind.EffectApplied?
              && plan.kind.event.Some?
              && plan.kind.event.value.eventType == eventType
              && plan.kind.event.value.occurredAtMs == inp.now
              && Continues(ix, plan.kind.event.value, now.runId.value, inp)
              && Tells(plan.kind.event.value, was, now)
  {
    hide Inv, BuildEvent, Continues;
    if now.runId.Some? {
      SeesIff(ix, scope, now.runId.value);
      if Sees(ix, scope, now.runId.value) {
        BuiltContinues(ix, scope, now.runId.value, eventType, inp.now, EffectEventPayload(now, Object(detail)), inp);
      }
    }
  }

  /** The event type of each transition. */
  const TransitionEvents: map<EffectTransition, string> := map[
    Start := "effect.started",
    Renew := "effect.renewed",
    Commit := "effect.committed",
    FailRetryable := "effect.failed",
    FailTerminal := "effect.failed",
    MarkOutcomeUnknown := "effect.outcome_unknown",
    ReconcileCommitted := "effect.reconciled",
    ReconcileFailed := "effect.reconciled"]

  /** An accepted transition of an effect in a run goes on the run's timeline. */
  lemma TransitionIsTold(cfg: Config, ix: Index, scope: Scope, id: Uuid, req: UpdateRequest, canReconcile: bool,
                         inp: Inputs)
    requires Inv(ix)
    ensures var plan := PlanTransition(cfg, ix, scope, id, req, canReconcile, inp);
            plan.Persist? && plan.kind.EffectApplied? && plan.kind.effect.runId.Some? ==>
              && plan.kind.event.Some?
              && id in ix.effectsById
              && Tells(plan.kind.event.value, Some(ix.effectsById[id]), plan.kind.effect)
              && Continues(ix, plan.kind.event.value, plan.kind.effect.runId.value, inp)
              && plan.kind.event.value.occurredAtMs == inp.now
              && req.transition in TransitionEvents
              && plan.kind.event.value.eventType == TransitionEvents[req.transition]
  {
    hide Inv, PersistEffect, Unauthorized, Transitioned, Legal, Tells, Continues;
    if EffectInScope(ix, scope, id).Some? {
      var effect := ix.effectsById[id];
      var moved := Transitioned(cfg, effect, req, inp.now);
      if moved.Some? {
        var detail := map[
          "from" := String(StatusName(effect.state)),
          "to" := String(StatusName(moved.value.state)),
          "transition" := String(TransitionName(req.transition))];
        PersistTells(ix, scope, Some(effect), moved.value, EventTypeOf(req.transition), detail, inp,
                     EffectReply(moved.value));
        PersistEffectKind(ix, scope, moved.value, EventTypeOf(req.transition), Object(detail), inp,
                          EffectReply(moved.value));
      }
    }
  }

  /** The effect stored under a request's key, if any. */
  function Known(ix: Index, scope: Scope, key: string, req: AcquireRequest): Option<EffectRecord> {
    EffectByKey(ix, EffectKey(scope.tenantId, scope.projectId, req.scope, key))
  }

  ghost predicate ToldAcquire(ix: Index, was: Option<EffectRecord>, plan: Plan, inp: Inputs) {
    plan.Persist? && plan.kind.EffectApplied? && plan.kind.effect.runId.Some? ==>
      && plan.kind.event.Some?
      && Tells(plan.kind.event.value, was, plan.kind.effect)
      && Continues(ix, plan.kind.event.value, plan.kind.effect.runId.value, inp)
      && plan.kind.event.value.occurredAtMs == inp.now
      && plan.kind.event.value.eventType == if was.None? then "effect.acquired"
                                            else if plan.kind.effect.state == Claimed then "effect.reacquired"
                                            else "effect.outcome_unknown"
  }

  lemma PersistIsTold(ix: Index, scope: Scope, was: Option<EffectRecord>, now: EffectRecord, eventType: string,
                      detail: map<string, Json>, inp: Inputs, reply: Reply)
    requires Inv(ix) && "from" in detail && "to" in detail
    requires detail["from"] == if was.Some? then String(StatusName(was.value.state)) else Null
    requires detail["to"] == String(StatusName(now.state))
    requires eventType == if was.None? then "effect.acquired"
                          else if now.state == Claimed then "effect.reacquired"
                          else "effect.outcome_unknown"
    ensures ToldAcquire(ix, was, PersistEffect(ix, scope, now, eventType, Object(detail), inp, reply), inp)
  {
    hide Inv, PersistEffect, Tells, Continues;
    PersistTells(ix, scope, was, now, eventType, detail, inp, reply);
    PersistEffectKind(ix, scope, now, eventType, Object(detail), inp, reply);
  }

  lemma AnswerIsTold(ix: Index, was: Option<EffectRecord>, plan: Plan, inp: Inputs)
    requires !plan.Persist?
    ensures ToldAcquire(ix, was, plan, inp)
  {
  }

  lemma RetryIsTold(ix: Index, scope: Scope, was: EffectRecord, now: EffectRecord, inp: Inputs, reply: Reply)
    requires Inv(ix) && was.state == FailedRetryable && now.state == Claimed
    ensures var detail := Detail(String("failed_retryable"), "claimed");
            ToldAcquire(ix, Some(was), PersistEffect(ix, scope, now, "effect.reacquired", detail, inp, reply), inp)
  {
    hide Inv, PersistEffect, ToldAcquire;
    var d := map["from" := String("failed_retryable"), "to" := String("claimed")];
    PersistIsTold(ix, scope, Some(was), now, "effect.reacquired", d, inp, reply);
  }

  lemma ReclaimIsTold(ix: Index, scope: Scope, was: EffectRecord, now: EffectRecord, inp: Inputs, reply: Reply)
    requires Inv(ix) && was.state == Claimed && now.state == Claimed
    ensures var detail := DetailWithReason("claimed", "claimed", "lease_expired");
            ToldAcquire(ix, Some(was), PersistEffect(ix, scope, now, "effect.reacquired", detail, inp, reply), inp)
  {
    hide Inv, PersistEffect, ToldAcquire;
    var d := map["from" := String("claimed"), "to" := String("claimed"), "reason" := String("lease_expired")];
    PersistIsTold(ix, scope, Some(was), now, "effect.reacquired", d, inp, reply);
  }

  lemma LapseIsTold(ix: Index, scope: Scope, was: EffectRecord, now: EffectRecord, inp: Inputs, reply: Reply)
    requires Inv(ix) && was.state == InProgress && now.state == OutcomeUnknown
    ensures var detail := DetailWithReason("in_progress", "outcome_unknown", "lease_expired");
            ToldAcquire(ix, Some(was), PersistEffect(ix, scope, now, "effect.outcome_unknown", detail, inp, reply), inp)
  {
    hide Inv, PersistEffect, ToldAcquire;
    var d := map["from" := String("in_progress"), "to" := String("outcome_unknown"), "reason" := String("lease_expired")];
    PersistIsTold(ix, scope, Some(was), now, "effect.outcome_unknown", d, inp, reply);
  }

  lemma ExistingIsTold(ix: Index, scope: Scope, effect: EffectRecord, req: AcquireRequest, leaseMs: int, inp: Inputs)
    requires Inv(ix)
    ensures ToldAcquire(ix, Some(effect), PlanExisting(ix, scope, effect, req, leaseMs, inp), inp)
  {
    hide Inv, PersistEffect, ToldAcquire, Sha256Digest, Utf8, Detail, DetailWithReason;
    var next, gone := Reacquired(effect, req, leaseMs, inp), Expired(effect, inp.now);
    var granted := Decided(Execute, next, Some(inp.leaseToken), None);
    var plan := PlanExisting(ix, scope, effect, req, leaseMs, inp);
    if !plan.Persist? {
      AnswerIsTold(ix, Some(effect), plan, inp);
    } else if effect.state.FailedRetryable? {
      RetryIsTold(ix, scope, effect, next, inp, granted);
    } else if effect.state.Claimed? {
      ReclaimIsTold(ix, scope, effect, next, inp, granted);
    } else {
      LapseIsTold(ix, scope, effect, gone, inp, Decided(Reconcile, gone, None, None));
    }
  }

  /** Whatever acquire writes of an effect in a run goes on the run's timeline. */
  lemma AcquireIsTold(cfg: Config, ix: Index, scope: Scope, key: string, req: AcquireRequest, inp: Inputs)
    requires Inv(ix)
    ensures ToldAcquire(ix, Known(ix, scope, key, req), PlanAcquire(cfg, ix, scope, key, req, inp), inp)
  {
    hide Inv, PersistEffect, PlanExisting, InvalidEffectField, Tells, Continues, Sha256Digest, Utf8, Print;
    var lease := ResolveLeaseMs(cfg, req.leaseDurationSeconds);
    if lease.Some? {
      match Known(ix, scope, key, req)
      case Some(effect) => ExistingIsTold(ix, scope, effect, req, lease.value, inp);
      case None =>
        var effect := NewEffect(scope, key, req, Sha256Digest(Utf8(Print(req.input))), lease.value, inp);
        var d := map["from" := Null, "to" := String("claimed")];
        var granted := Decided(Execute, effect, Some(inp.leaseToken), None);
        PersistIsTold(ix, scope, None, effect, "effect.acquired", d, inp, granted);
    }
  }

  // ----- Scopes --------------------------------------------------------------------------------------

  /** The run a record is about, if any. */
  function RunOf(kind: RecordKind): Option<Uuid> {
    match kind
    case RunCreated(run) => Some(run.id)
    case RunUpdated(run) => Some(run.id)
    case EffectApplied(effect, _) => effect.runId
    case EventAppended(e) => Some(e.runId)
    case CheckpointCreated(c) => Some(c.runId)
    case RetentionApplied(_, _, _) => None
  }

  /** A record changes the effect and the run it is about, and leaves every other as it was. */
  lemma RecordTouchesOnly(ix: Index, kind: RecordKind, id: Uuid)
    requires !kind.RetentionApplied?
    requires kind.EffectApplied? && kind.event.Some? ==> kind.effect.runId == Some(kind.event.value.runId)
    ensures var after := ApplyRecord(ix, kind).index;
            (!IsEffect(kind, id) ==> Lookup(after.effectsById, id) == Lookup(ix.effectsById, id)) &&
            (RunOf(kind) != Some(id) ==>
               && Lookup(after.runs, id) == Lookup(ix.runs, id)
               && Lookup(after.events, id) == Lookup(ix.events, id)
               && Lookup(after.checkpoints, id) == Lookup(ix.checkpoints, id))
  {
    hide ApplyEventRecord;
    if kind.EventAppended? {
      EventTouchesOnly(ix, kind.appended, id);
    } else if kind.EffectApplied? && kind.event.Some? {
      EventTouchesOnly(PutEffect(ix, kind.effect), kind.event.value, id);
    }
  }

  lemma EventTouchesOnly(ix: Index, e: EventRecord, id: Uuid)
    ensures var after := ApplyEventRecord(ix, e).index;
            after.effectsById == ix.effectsById && after.checkpoints == ix.checkpoints &&
            (e.runId != id ==>
               Lookup(after.runs, id) == Lookup(ix.runs, id) && Lookup(after.events, id) == Lookup(ix.events, id))
  {
  }

  /** The record is about effects and runs of this scope, or about ones not there yet. */
  ghost predicate WithinScope(ix: Index, kind: RecordKind, scope: Scope) {
    && (kind.EffectApplied? ==>
          && Scope(kind.effect.tenantId, kind.effect.projectId) == scope
          && (kind.event.Some? ==> kind.effect.runId == Some(kind.event.value.runId))
          && (kind.effect.id in ix.effectsById ==>
                var was := ix.effectsById[kind.effect.id]; Scope(was.tenantId, was.projectId) == scope))
    && (RunOf(kind).Some? && RunOf(kind).value in ix.runs ==> Sees(ix, scope, RunOf(kind).value))
  }

  lemma EffectWithinScope(ix: Index, scope: Scope, effect: EffectRecord, eventType: string, detail: Json, inp: Inputs,
                          reply: Reply)
    requires Scope(effect.tenantId, effect.projectId) == scope
    requires effect.id in ix.effectsById ==>
               Scope(ix.effectsById[effect.id].tenantId, ix.effectsById[effect.id].projectId) == scope
    requires Inv(ix)
    ensures var plan := PersistEffect(ix, scope, effect, eventType, detail, inp, reply);
            plan.Persist? ==> WithinScope(ix, plan.kind, scope)
  {
    hide CheckpointsOk, EffectsOk, TimelineOk, EffectEventPayload, ComputeEventHash;
    if effect.runId.Some? {
      SeesIff(ix, scope, effect.runId.value);
    }
  }

  lemma ExistingWithinScope(ix: Index, scope: Scope, effect: EffectRecord, req: AcquireRequest, leaseMs: int, inp: Inputs)
    requires Inv(ix) && Scope(effect.tenantId, effect.projectId) == scope
    requires effect.id in ix.effectsById && ix.effectsById[effect.id] == effect
    ensures var plan := PlanExisting(ix, scope, effect, req, leaseMs, inp);
            plan.Persist? ==> WithinScope(ix, plan.kind, scope)
  {
    hide Inv, PersistEffect, WithinScope, Sha256Digest, Utf8;
    var next, gone := Reacquired(effect, req, leaseMs, inp), Expired(effect, inp.now);
    var granted := Decided(Execute, next, Some(inp.leaseToken), None);
    EffectWithinScope(ix, scope, next, "effect.reacquired", Detail(String("failed_retryable"), "claimed"), inp, granted);
    EffectWithinScope(ix, scope, next, "effect.reacquired", DetailWithReason("claimed", "claimed", "lease_expired"), inp,
                      granted);
    EffectWithinScope(ix, scope, gone, "effect.outcome_unknown",
                      DetailWithReason("in_progress", "outcome_unknown", "lease_expired"), inp,
                      Decided(Reconcile, gone, None, None));
  }

  lemma AcquireWithinScope(cfg: Config, ix: Index, scope: Scope, key: string, req: AcquireRequest, inp: Inputs)
    requires Inv(ix) && inp.newId !in ix.effectsById
    ensures var plan := PlanAcquire(cfg, ix, scope, key, req, inp);
            plan.Persist? ==> WithinScope(ix, plan.kind, scope)
  {
    hide InvalidEffectField, PersistEffect, PlanExisting, WithinScope, Sha256Digest, Utf8, Print, RunsOk, CheckpointsOk,
         LeaseOk, OwnerOk;
    var lease := ResolveLeaseMs(cfg, req.leaseDurationSeconds);
    if lease.Some? {
      match Known(ix, scope, key, req)
      case Some(effect) =>
        assert EffectKeyOf(effect) == EffectKey(scope.tenantId, scope.projectId, req.scope, key);
        ExistingWithinScope(ix, scope, effect, req, lease.value, inp);
      case None =>
        var effect := NewEffect(scope, key, req, Sha256Digest(Utf8(Print(req.input))), lease.value, inp);
        EffectWithinScope(ix, scope, effect, "effect.acquired", Detail(Null, "claimed"), inp,
                          Decided(Execute, effect, Some(inp.leaseToken), None));
    }
  }

  lemma TransitionWithinScope(cfg: Config, ix: Index, scope: Scope, id: Uuid, req: UpdateRequest, canReconcile: bool,
                              inp: Inputs)
    requires Inv(ix)
    ensures var plan := PlanTransition(cfg, ix, scope, id, req, canReconcile, inp);
            plan.Persist? ==> WithinScope(ix, plan.kind, scope)
  {
    hide PersistEffect, WithinScope, Unauthorized, Legal, RunsOk, CheckpointsOk, LeaseOk, OwnerOk, KeysInverse,
         ResolveLeaseMs;
    if EffectInScope(ix, scope, id).Some? {
      var effect := ix.effectsById[id];
      var moved := Transitioned(cfg, effect, req, inp.now);
      if moved.Some? {
        var detail := Object(map[
          "from" := String(StatusName(effect.state)),
          "to" := String(StatusName(moved.value.state)),
          "transition" := String(TransitionName(req.transition))]);
        EffectWithinScope(ix, scope, moved.value, EventTypeOf(req.transition), detail, inp, EffectReply(moved.value));
      }
    }
  }

  lemma PlanWithinScope(cfg: Config, ix: Index, op: Operation, inp: Inputs)
    requires Inv(ix) && FreshFor(ix, inp) && !op.ApplyRetention?
    ensures var plan := PlanOf(cfg, ix, op, inp);
            plan.Persist? ==> !plan.kind.RetentionApplied? && WithinScope(ix, plan.kind, op.scope)
  {
    hide PlanAcquire, PlanTransition, CheckpointsOk, EffectsOk, TimelineOk, LengthWithin, ComputeEventHash, Sha256Digest,
         Utf8, Print, CheckpointSequence;
    match op
    case Acquire(scope, key, req) =>
      AcquireWithinScope(cfg, ix, scope, key, req, inp);
      AcquireIsEffect(cfg, ix, scope, key, req, inp);
    case Transition(scope, id, req, canReconcile) =>
      TransitionWithinScope(cfg, ix, scope, id, req, canReconcile, inp);
      TransitionIsEffect(cfg, ix, scope, id, req, canReconcile, inp);
    case _ =>
  }

  /** No operation changes an effect, a run, a timeline or a checkpoint of another tenant or project. */
  lemma OperationsStayInScope(cfg: Config, ix: Index, op: Operation, inp: Inputs, id: Uuid)
    requires Inv(ix) && FreshFor(ix, inp) && !op.ApplyRetention? && PlanOf(cfg, ix, op, inp).Persist?
    ensures var after := ApplyRecord(ix, PlanOf(cfg, ix, op, inp).kind).index;
            (id in ix.effectsById && Scope(ix.effectsById[id].tenantId, ix.effectsById[id].projectId) != op.scope ==>
               id in after.effectsById && after.effectsById[id] == ix.effectsById[id]) &&
            (id in ix.runs && !Sees(ix, op.scope, id) ==>
               id in after.runs && after.runs[id] == ix.runs[id] && EventsOf(after, id) == EventsOf(ix, id) &&
               CheckpointsOf(after, id) == CheckpointsOf(ix, id))
  {
    hide Inv, PlanOf, ApplyRecord;
    PlanWithinScope(cfg, ix, op, inp);
    RecordTouchesOnly(ix, PlanOf(cfg, ix, op, inp).kind, id);
  }
}
