/**
  The decisions of the ledger's operations: from the indexes and a request to a
  refusal, an answer, or one record to persist with the reply that follows it.
  Clock readings, new identifiers and lease tokens come in as inputs.
 */
module LedgerOps {
  import opened Basics
  import opened CanonicalJson
  import opened Digests
  import opened LedgerModel
  import opened LedgerIndexes
  import opened EventChain

  // ----- Requests, replies, errors -------------------------------------------------

  datatype Config = Config(defaultLeaseMs: int, minLeaseMs: int, maxLeaseMs: int)

  /** What one call reads from outside: the time, the identifiers it mints, its lease token. */
  datatype Inputs = Inputs(now: int, newId: Uuid, eventId: Uuid, leaseToken: string)

  datatype AcquireRequest = AcquireRequest(
    runId: Option<Uuid>,
    scope: string,
    toolName: string,
    input: Json,
    leaseDurationSeconds: Option<nat>)

  datatype UpdateRequest = UpdateRequest(
    transition: EffectTransition,
    leaseToken: Option<string>,
    fencingToken: int,
    leaseDurationSeconds: Option<nat>,
    result: Option<Json>,
    externalReceipt: Option<ExternalReceipt>,
    failure: Option<EffectFailure>)

  datatype Operation =
    | Acquire(scope: Scope, idempotencyKey: string, acquire: AcquireRequest)
    | Transition(scope: Scope, effectId: Uuid, update: UpdateRequest, canReconcile: bool)
    | CreateRun(scope: Scope, externalId: string, agentName: string, metadata: Option<Json>)
    | UpdateRun(scope: Scope, runId: Uuid, status: RunStatus, expectedVersion: Option<int>)
    | ForkRun(scope: Scope, runId: Uuid, fromEventSequence: Option<int>, fromCheckpointId: Option<Uuid>,
              reason: string, metadata: Option<Json>)
    | AppendEvent(scope: Scope, runId: Uuid, eventType: string, occurredAtMs: int, payload: Json)
    | CreateCheckpoint(scope: Scope, runId: Uuid, eventSequence: int, state: Json, expectedVersion: Option<int>)
    | ApplyRetention(maxAgeMs: int)

  datatype Decision = Execute | Replay | Wait | Reconcile

  datatype Reply =
    | Decided(decision: Decision, effect: EffectRecord, leaseToken: Option<string>, pollAfterMs: Option<int>)
    | EffectReply(effect: EffectRecord)
    | RunReply(run: RunRecord)
    | EventReply(event: EventRecord)
    | CheckpointReply(checkpoint: CheckpointRecord)
    | RetentionReply(runsRemoved: nat, effectsRemoved: nat, eventsRemoved: nat, cutoffMs: int)

  datatype LedgerError =
    | NotFound(resource: string, id: string)
    | IdempotencyConflict(existingDigest: string, requestedDigest: string)
    | StaleFencingToken(current: int, got: int)
    | Forbidden(reason: string)
    | InvalidTransition(from: string, transition: string)
    | Validation(field: string)
    | PreconditionFailed(expected: int, current: int)
    | Corruption(error: IndexError)

  datatype Plan =
    | Refuse(error: LedgerError)
    | Answer(reply: Reply)
    | Persist(kind: RecordKind, reply: Reply)

  // ----- Lookups and validation -----------------------------------------------------

  function RunInScope(ix: Index, scope: Scope, runId: Uuid): Option<RunRecord> {
    if runId in ix.runs && ix.runs[runId].tenantId == scope.tenantId && ix.runs[runId].projectId == scope.projectId
    then Some(ix.runs[runId])
    else None
  }

  function EffectInScope(ix: Index, scope: Scope, effectId: Uuid): Option<EffectRecord> {
    if effectId in ix.effectsById && ix.effectsById[effectId].tenantId == scope.tenantId
       && ix.effectsById[effectId].projectId == scope.projectId
    then Some(ix.effectsById[effectId])
    else None
  }

  function EffectByKey(ix: Index, key: EffectKey): Option<EffectRecord> {
    if key in ix.effectIds && ix.effectIds[key] in ix.effectsById
    then Some(ix.effectsById[ix.effectIds[key]])
    else None
  }

  function ResolveLeaseMs(cfg: Config, seconds: Option<nat>): Option<int> {
    var ms := if seconds.Some? then 1000 * seconds.value else cfg.defaultLeaseMs;
    if ms < cfg.minLeaseMs || ms > cfg.maxLeaseMs then None else Some(ms)
  }

  /** Length in bytes within `lo..=hi`. */
  predicate LengthWithin(s: string, lo: nat, hi: nat) {
    lo <= |Utf8(s)| <= hi
  }

  predicate IsKeyChar(c: char) {
    'a' <= c <= 'z' || 'A' <= c <= 'Z' || '0' <= c <= '9' || c == '.' || c == '_' || c == ':' || c == '-'
  }

  predicate IsTypeChar(c: char) {
    'a' <= c <= 'z' || '0' <= c <= '9' || c == '_' || c == '.' || c == '-'
  }

  function InvalidEffectField(scope: string, key: string, tool: string): Option<string> {
    if !LengthWithin(scope, 1, 500) then Some("scope")
    else if !(LengthWithin(key, 8, 255) && forall c :: c in key ==> IsKeyChar(c)) then Some("idempotency_key")
    else if !LengthWithin(tool, 1, 200) then Some("tool_name")
    else None
  }

  predicate ValidEventType(t: string) {
    LengthWithin(t, 1, 200) && forall c :: c in t ==> IsTypeChar(c)
  }

  // ----- Events ---------------------------------------------------------------------

  /** The next event of a run: numbered and chained after its last one. */
  function BuildEvent(scope: Scope, run: RunRecord, eventId: Uuid, eventType: string, occurredAtMs: int,
                      payload: Json, now: int): EventRecord {
    var blank := EventRecord(scope.tenantId, scope.projectId, eventId, run.id, run.lastEventSequence + 1, eventType,
                             occurredAtMs, now, payload, run.headHash, "");
    blank.(hash := ComputeEventHash(View(blank)))
  }

  function EffectEventPayload(effect: EffectRecord, detail: Json): Json {
    Object(map[
      "effect_id" := String(effect.id),
      "scope" := String(effect.scope),
      "idempotency_key" := String(effect.idempotencyKey),
      "tool_name" := String(effect.toolName),
      "fencing_token" := JsonInteger(effect.fencingToken),
      "detail" := detail])
  }

  /** Persists an effect with the event its run's timeline gets; no run, no event. */
  function PersistEffect(ix: Index, scope: Scope, effect: EffectRecord, eventType: string, detail: Json,
                         inp: Inputs, reply: Reply): Plan {
    match effect.runId
    case None => Persist(EffectApplied(effect, None), reply)
    case Some(runId) =>
      match RunInScope(ix, scope, runId)
      case None => Refuse(NotFound("run", runId))
      case Some(run) =>
        var event := BuildEvent(scope, run, inp.eventId, eventType, inp.now, EffectEventPayload(effect, detail), inp.now);
        Persist(EffectApplied(effect, Some(event)), reply)
  }

  // ----- Acquire ----------------------------------------------------------------------

  function NewEffect(scope: Scope, idempotencyKey: string, req: AcquireRequest, digest: string, leaseMs: int,
                     inp: Inputs): EffectRecord {
    EffectRecord(scope.tenantId, scope.projectId, inp.newId, req.runId, req.scope, idempotencyKey, req.toolName, digest,
                 Claimed, 1, Some(inp.now + leaseMs), leaseMs, Some(Sha256Digest(Utf8(inp.leaseToken))),
                 None, None, None, inp.now, inp.now)
  }

  /** A new lease epoch: claimed again, one fence up, a fresh token. */
  function Reacquired(effect: EffectRecord, req: AcquireRequest, leaseMs: int, inp: Inputs): EffectRecord {
    effect.(state := Claimed, fencingToken := effect.fencingToken + 1, leaseExpiresAtMs := Some(inp.now + leaseMs),
            leaseDurationMs := leaseMs, leaseTokenDigest := Some(Sha256Digest(Utf8(inp.leaseToken))),
            toolName := req.toolName, updatedAtMs := inp.now)
  }

  /** An in-progress effect whose lease ran out: the tool may have fired, so nobody gets a lease. */
  function Expired(effect: EffectRecord, now: int): EffectRecord {
    var failure := if effect.failure.Some? then effect.failure
                   else Some(EffectFailure("lease_expired_in_progress",
                                           "Lease expired while in progress; outcome cannot be proven", false));
    effect.(state := OutcomeUnknown, leaseExpiresAtMs := None, leaseTokenDigest := None, updatedAtMs := now, failure := failure)
  }

  function WaitReply(effect: EffectRecord, expires: int, now: int): Reply {
    Decided(Wait, effect, None, Some(if expires - now < 1 then 1 else expires - now))
  }

  function Detail(from: Json, to: string): Json {
    Object(map["from" := from, "to" := String(to)])
  }

  function DetailWithReason(from: string, to: string, reason: string): Json {
    Object(map["from" := String(from), "to" := String(to), "reason" := String(reason)])
  }

  function PlanExisting(ix: Index, scope: Scope, effect: EffectRecord, req: AcquireRequest, leaseMs: int,
                        inp: Inputs): Plan {
    var now := inp.now;
    var expires := if effect.leaseExpiresAtMs.Some? then effect.leaseExpiresAtMs.value else now;
    match effect.state
    case Committed => Answer(Decided(Replay, effect, None, None))
    case ReconciledCommitted => Answer(Decided(Replay, effect, None, None))
    case FailedTerminal => Answer(Decided(Replay, effect, None, None))
    case ReconciledFailed => Answer(Decided(Replay, effect, None, None))
    case OutcomeUnknown => Answer(Decided(Reconcile, effect, None, None))
    case FailedRetryable =>
      var next := Reacquired(effect, req, leaseMs, inp);
      PersistEffect(ix, scope, next, "effect.reacquired", Detail(String("failed_retryable"), "claimed"), inp,
                    Decided(Execute, next, Some(inp.leaseToken), None))
    case Claimed =>
      if now < expires then Answer(WaitReply(effect, expires, now))
      else
        var next := Reacquired(effect, req, leaseMs, inp);
        PersistEffect(ix, scope, next, "effect.reacquired", DetailWithReason("claimed", "claimed", "lease_expired"), inp,
                      Decided(Execute, next, Some(inp.leaseToken), None))
    case InProgress =>
      if now < expires then Answer(WaitReply(effect, expires, now))
      else
        var next := Expired(effect, now);
        PersistEffect(ix, scope, next, "effect.outcome_unknown",
                      DetailWithReason("in_progress", "outcome_unknown", "lease_expired"), inp,
                      Decided(Reconcile, next, None, None))
  }

  function PlanAcquire(cfg: Config, ix: Index, scope: Scope, idempotencyKey: string, req: AcquireRequest,
                       inp: Inputs): Plan {
    var bad := InvalidEffectField(req.scope, idempotencyKey, req.toolName);
    if bad.Some? then Refuse(Validation(bad.value))
    else
      var lease := ResolveLeaseMs(cfg, req.leaseDurationSeconds);
      if lease.None? then Refuse(Validation("lease_duration_seconds"))
      else
        var digest := Sha256Digest(Utf8(Print(req.input)));
        var key := EffectKey(scope.tenantId, scope.projectId, req.scope, idempotencyKey);
        match EffectByKey(ix, key)
        case None =>
          if req.runId.Some? && RunInScope(ix, scope, req.runId.value).None?
          then Refuse(NotFound("run", req.runId.value))
          else
            var effect := NewEffect(scope, idempotencyKey, req, digest, lease.value, inp);
            PersistEffect(ix, scope, effect, "effect.acquired", Detail(Null, "claimed"), inp,
                          Decided(Execute, effect, Some(inp.leaseToken), None))
        case Some(effect) =>
          if effect.inputDigest != digest || effect.toolName != req.toolName
          then Refuse(IdempotencyConflict(effect.inputDigest, digest))
          else PlanExisting(ix, scope, effect, req, lease.value, inp)
  }

  // ----- Transition ---------------------------------------------------------------------

  predicate Legal(t: EffectTransition, from: EffectStatus) {
    match t
    case Start => from.Claimed?
    case ReconcileCommitted => from.OutcomeUnknown?
    case ReconcileFailed => from.OutcomeUnknown?
    case _ => from.Claimed? || from.InProgress?
  }

  function FailureOr(given: Option<EffectFailure>, kind: string, message: string,
                     retryable: bool): Option<EffectFailure> {
    if given.Some? then given else Some(EffectFailure(kind, message, retryable))
  }

  /** The effect after a transition; `None` when a renewal asks for a lease out of bounds. */
  function Transitioned(cfg: Config, effect: EffectRecord, req: UpdateRequest, now: int): Option<EffectRecord> {
    var next := effect.(updatedAtMs := now);
    match req.transition
    case Start => Some(next.(state := InProgress))
    case Renew =>
      var lease := if req.leaseDurationSeconds.Some? then ResolveLeaseMs(cfg, req.leaseDurationSeconds)
                   else Some(effect.leaseDurationMs);
      if lease.None? then None
      else Some(next.(leaseExpiresAtMs := Some(now + lease.value), leaseDurationMs := lease.value))
    case Commit =>
      Some(next.(state := Committed, result := req.result, externalReceipt := req.externalReceipt, failure := None,
                 leaseExpiresAtMs := None, leaseTokenDigest := None))
    case FailRetryable =>
      Some(next.(state := FailedRetryable, failure := FailureOr(req.failure, "failed", "worker reported failure", true),
                 leaseExpiresAtMs := None, leaseTokenDigest := None))
    case FailTerminal =>
      Some(next.(state := FailedTerminal, failure := FailureOr(req.failure, "failed", "worker reported failure", false),
                 leaseExpiresAtMs := None, leaseTokenDigest := None))
    case MarkOutcomeUnknown =>
      Some(next.(state := OutcomeUnknown, failure := req.failure, leaseExpiresAtMs := None, leaseTokenDigest := None))
    case ReconcileCommitted =>
      Some(next.(state := ReconciledCommitted, result := req.result, externalReceipt := req.externalReceipt))
    case ReconcileFailed =>
      Some(next.(state := ReconciledFailed,
                 failure := FailureOr(req.failure, "reconciled_failed", "reconciliation proved the tool did not fire", false)))
  }

  function EventTypeOf(t: EffectTransition): string {
    match t
    case Start => "effect.started"
    case Renew => "effect.renewed"
    case Commit => "effect.committed"
    case FailRetryable => "effect.failed"
    case FailTerminal => "effect.failed"
    case MarkOutcomeUnknown => "effect.outcome_unknown"
    case ReconcileCommitted => "effect.reconciled"
    case ReconcileFailed => "effect.reconciled"
  }

  /** Why the caller may not make this transition, if so. */
  function Unauthorized(effect: EffectRecord, req: UpdateRequest, canReconcile: bool): Option<LedgerError> {
    if IsWorkerTransition(req.transition) then
      if req.leaseToken.None? then Some(Validation("lease_token"))
      else if effect.leaseTokenDigest != Some(Sha256Digest(Utf8(req.leaseToken.value)))
      then Some(Forbidden("lease token does not match the active lease"))
      else None
    else if !canReconcile then Some(Forbidden("reconcile transitions require the effects:reconcile capability"))
    else None
  }

  function PlanTransition(cfg: Config, ix: Index, scope: Scope, effectId: Uuid, req: UpdateRequest, canReconcile: bool,
                          inp: Inputs): Plan {
    match EffectInScope(ix, scope, effectId)
    case None => Refuse(NotFound("effect", effectId))
    case Some(effect) =>
      if req.fencingToken != effect.fencingToken then Refuse(StaleFencingToken(effect.fencingToken, req.fencingToken))
      else if !Legal(req.transition, effect.state)
      then Refuse(InvalidTransition(StatusName(effect.state), TransitionName(req.transition)))
      else
        var denied := Unauthorized(effect, req, canReconcile);
        if denied.Some? then Refuse(denied.value)
        else match Transitioned(cfg, effect, req, inp.now)
          case None => Refuse(Validation("lease_duration_seconds"))
          case Some(next) =>
            var detail := Object(map[
              "from" := String(StatusName(effect.state)),
              "to" := String(StatusName(next.state)),
              "transition" := String(TransitionName(req.transition))]);
            PersistEffect(ix, scope, next, EventTypeOf(req.transition), detail, inp, EffectReply(next))
  }

  // ----- Runs, events, checkpoints ----------------------------------------------------------

  function NewRun(scope: Scope, externalId: string, agentName: string, metadata: Option<Json>,
                  parent: Option<Uuid>, forkedFrom: Option<int>, inp: Inputs): RunRecord {
    RunRecord(scope.tenantId, scope.projectId, inp.newId, externalId, agentName, Running, 1, 0, GenesisHash,
              parent, forkedFrom, metadata, inp.now, inp.now)
  }

  function PlanCreateRun(scope: Scope, externalId: string, agentName: string, metadata: Option<Json>,
                         inp: Inputs): Plan {
    if !LengthWithin(externalId, 1, 255) then Refuse(Validation("external_id"))
    else if !LengthWithin(agentName, 1, 200) then Refuse(Validation("agent_name"))
    else
      var run := NewRun(scope, externalId, agentName, metadata, None, None, inp);
      Persist(RunCreated(run), RunReply(run))
  }

  function PlanUpdateRun(ix: Index, scope: Scope, runId: Uuid, status: RunStatus, expectedVersion: Option<int>,
                         inp: Inputs): Plan {
    match RunInScope(ix, scope, runId)
    case None => Refuse(NotFound("run", runId))
    case Some(run) =>
      if expectedVersion.Some? && expectedVersion.value != run.version
      then Refuse(PreconditionFailed(expectedVersion.value, run.version))
      else if IsTerminalRun(run.status) && status != run.status
      then Refuse(InvalidTransition(RunStatusName(run.status), RunStatusName(status)))
      else
        var next := run.(status := status, version := run.version + 1, updatedAtMs := inp.now);
        Persist(RunUpdated(next), RunReply(next))
  }

  function CheckpointSequence(checkpoints: seq<CheckpointRecord>, id: Uuid): Option<int> {
    if checkpoints == [] then None
    else if checkpoints[0].id == id then Some(checkpoints[0].eventSequence)
    else CheckpointSequence(checkpoints[1..], id)
  }

  function PlanForkRun(ix: Index, scope: Scope, runId: Uuid, fromEventSequence: Option<int>,
                       fromCheckpointId: Option<Uuid>, reason: string, metadata: Option<Json>, inp: Inputs): Plan {
    if !LengthWithin(reason, 1, 500) then Refuse(Validation("reason"))
    else match RunInScope(ix, scope, runId)
      case None => Refuse(NotFound("run", runId))
      case Some(parent) =>
        if fromEventSequence.Some? && fromCheckpointId.None? then
          var at := fromEventSequence.value;
          if at < 0 || at > parent.lastEventSequence then Refuse(Validation("from_event_sequence"))
          else PersistFork(scope, parent, at, metadata, inp)
        else if fromEventSequence.None? && fromCheckpointId.Some? then
          match CheckpointSequence(CheckpointsOf(ix, runId), fromCheckpointId.value)
          case None => Refuse(NotFound("checkpoint", fromCheckpointId.value))
          case Some(at) => PersistFork(scope, parent, at, metadata, inp)
        else Refuse(Validation("from_event_sequence"))
  }

  function PersistFork(scope: Scope, parent: RunRecord, at: int, metadata: Option<Json>, inp: Inputs): Plan {
    var fork := NewRun(scope, parent.externalId + ":fork", parent.agentName, metadata, Some(parent.id), Some(at), inp);
    Persist(RunCreated(fork), RunReply(fork))
  }

  function PlanAppendEvent(ix: Index, scope: Scope, runId: Uuid, eventType: string, occurredAtMs: int, payload: Json,
                           inp: Inputs): Plan {
    if !ValidEventType(eventType) then Refuse(Validation("type"))
    else match RunInScope(ix, scope, runId)
      case None => Refuse(NotFound("run", runId))
      case Some(run) =>
        var event := BuildEvent(scope, run, inp.eventId, eventType, occurredAtMs, payload, inp.now);
        Persist(EventAppended(event), EventReply(event))
  }

  function PlanCheckpoint(ix: Index, scope: Scope, runId: Uuid, eventSequence: int, state: Json,
                          expectedVersion: Option<int>, inp: Inputs): Plan {
    match RunInScope(ix, scope, runId)
    case None => Refuse(NotFound("run", runId))
    case Some(run) =>
      if expectedVersion.Some? && expectedVersion.value != run.version
      then Refuse(PreconditionFailed(expectedVersion.value, run.version))
      else if eventSequence < 0 || eventSequence > run.lastEventSequence then Refuse(Validation("event_sequence"))
      else
        var checkpoint := CheckpointRecord(scope.tenantId, scope.projectId, inp.newId, runId, eventSequence, state,
                                           Sha256Digest(Utf8(Print(state))), inp.now);
        Persist(CheckpointCreated(checkpoint), CheckpointReply(checkpoint))
  }

  // ----- Retention -------------------------------------------------------------------------

  function Cutoff(maxAgeMs: int, now: int): int {
    now - (if maxAgeMs > 0 then maxAgeMs else 0)
  }

  function PrunedRuns(ix: Index, cutoff: int): set<Uuid> {
    set r | r in ix.runs && IsTerminalRun(ix.runs[r].status) && ix.runs[r].updatedAtMs <= cutoff :: ix.runs[r].id
  }

  predicate PrunesEffect(e: EffectRecord, cutoff: int, prunedRuns: set<Uuid>) {
    (IsTerminal(e.state) && e.updatedAtMs <= cutoff) || (e.runId.Some? && e.runId.value in prunedRuns)
  }

  function PrunedEffects(ix: Index, cutoff: int): set<Uuid> {
    var prunedRuns := PrunedRuns(ix, cutoff);
    set e | e in ix.effectsById && PrunesEffect(ix.effectsById[e], cutoff, prunedRuns) :: ix.effectsById[e].id
  }

  function CountEvents(ix: Index, runIds: seq<Uuid>): nat {
    if runIds == [] then 0 else |EventsOf(ix, runIds[0])| + CountEvents(ix, runIds[1..])
  }

  function PlanRetention(ix: Index, maxAgeMs: int, now: int): Plan {
    var cutoff := Cutoff(maxAgeMs, now);
    var runIds := SortedKeys(PrunedRuns(ix, cutoff));
    var effectIds := SortedKeys(PrunedEffects(ix, cutoff));
    var reply := RetentionReply(|runIds|, |effectIds|, CountEvents(ix, runIds), cutoff);
    if runIds == [] && effectIds == [] then Answer(reply)
    else Persist(RetentionApplied(cutoff, runIds, effectIds), reply)
  }

  // ----- Any operation ----------------------------------------------------------------------

  function PlanOf(cfg: Config, ix: Index, op: Operation, inp: Inputs): Plan {
    match op
    case Acquire(scope, key, req) => PlanAcquire(cfg, ix, scope, key, req, inp)
    case Transition(scope, id, req, canReconcile) => PlanTransition(cfg, ix, scope, id, req, canReconcile, inp)
    case CreateRun(scope, externalId, agentName, metadata) => PlanCreateRun(scope, externalId, agentName, metadata, inp)
    case UpdateRun(scope, runId, status, expected) => PlanUpdateRun(ix, scope, runId, status, expected, inp)
    case ForkRun(scope, runId, fromSequence, fromCheckpoint, reason, metadata) =>
      PlanForkRun(ix, scope, runId, fromSequence, fromCheckpoint, reason, metadata, inp)
    case AppendEvent(scope, runId, eventType, occurredAt, payload) =>
      PlanAppendEvent(ix, scope, runId, eventType, occurredAt, payload, inp)
    case CreateCheckpoint(scope, runId, sequence, state, expected) =>
      PlanCheckpoint(ix, scope, runId, sequence, state, expected, inp)
    case ApplyRetention(maxAgeMs) => PlanRetention(ix, maxAgeMs, inp.now)
  }
}
