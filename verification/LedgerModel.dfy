/**
  The ledger's records: effects, runs, events, checkpoints, and the mutations
  its write-ahead log carries.
 */
module LedgerModel {
  import opened Basics
  import opened CanonicalJson

  /** The text form of a UUID. */
  type Uuid = string

  datatype Scope = Scope(tenantId: string, projectId: string)

  // ----- Effects -------------------------------------------------------------

  datatype EffectStatus =
    | Claimed
    | InProgress
    | Committed
    | FailedRetryable
    | FailedTerminal
    | OutcomeUnknown
    | ReconciledCommitted
    | ReconciledFailed

  /** The outcome is final; retention may prune the effect once it is old enough. */
  predicate IsTerminal(s: EffectStatus) {
    s.Committed? || s.FailedTerminal? || s.ReconciledCommitted? || s.ReconciledFailed?
  }

  /** A lease is out: some worker may act on the effect. */
  predicate HoldsLease(s: EffectStatus) {
    s.Claimed? || s.InProgress?
  }

  function StatusName(s: EffectStatus): string {
    match s
    case Claimed => "claimed"
    case InProgress => "in_progress"
    case Committed => "committed"
    case FailedRetryable => "failed_retryable"
    case FailedTerminal => "failed_terminal"
    case OutcomeUnknown => "outcome_unknown"
    case ReconciledCommitted => "reconciled_committed"
    case ReconciledFailed => "reconciled_failed"
  }

  datatype EffectTransition =
    | Start
    | Renew
    | Commit
    | FailRetryable
    | FailTerminal
    | MarkOutcomeUnknown
    | ReconcileCommitted
    | ReconcileFailed

  predicate IsWorkerTransition(t: EffectTransition) {
    !t.ReconcileCommitted? && !t.ReconcileFailed?
  }

  function TransitionName(t: EffectTransition): string {
    match t
    case Start => "start"
    case Renew => "renew"
    case Commit => "commit"
    case FailRetryable => "fail_retryable"
    case FailTerminal => "fail_terminal"
    case MarkOutcomeUnknown => "mark_outcome_unknown"
    case ReconcileCommitted => "reconcile_committed"
    case ReconcileFailed => "reconcile_failed"
  }

  datatype ExternalReceipt = ExternalReceipt(provider: string, id: string, metadata: Option<Json>)

  datatype EffectFailure = EffectFailure(kind: string, message: string, retryable: bool)

  datatype EffectRecord = EffectRecord(
    tenantId: string,
    projectId: string,
    id: Uuid,
    runId: Option<Uuid>,
    scope: string,
    idempotencyKey: string,
    toolName: string,
    inputDigest: string,
    state: EffectStatus,
    fencingToken: int,
    leaseExpiresAtMs: Option<int>,
    leaseDurationMs: int,
    leaseTokenDigest: Option<string>,
    result: Option<Json>,
    externalReceipt: Option<ExternalReceipt>,
    failure: Option<EffectFailure>,
    createdAtMs: int,
    updatedAtMs: int)

  /** What an idempotency key is unique within. */
  datatype EffectKey = EffectKey(tenantId: string, projectId: string, scope: string, idempotencyKey: string)

  function EffectKeyOf(e: EffectRecord): EffectKey {
    EffectKey(e.tenantId, e.projectId, e.scope, e.idempotencyKey)
  }

  // ----- Runs ------------------------------------------------------------------

  datatype RunStatus = Running | Suspended | Completed | Failed | Cancelled

  predicate IsTerminalRun(s: RunStatus) {
    s.Completed? || s.Failed? || s.Cancelled?
  }

  function RunStatusName(s: RunStatus): string {
    match s
    case Running => "running"
    case Suspended => "suspended"
    case Completed => "completed"
    case Failed => "failed"
    case Cancelled => "cancelled"
  }

  datatype RunRecord = RunRecord(
    tenantId: string,
    projectId: string,
    id: Uuid,
    externalId: string,
    agentName: string,
    status: RunStatus,
    version: int,
    lastEventSequence: int,
    headHash: string,
    parentRunId: Option<Uuid>,
    forkedFromEventSequence: Option<int>,
    metadata: Option<Json>,
    createdAtMs: int,
    updatedAtMs: int)

  // ----- Events and checkpoints --------------------------------------------------

  datatype EventRecord = EventRecord(
    tenantId: string,
    projectId: string,
    id: Uuid,
    runId: Uuid,
    sequence: int,
    eventType: string,
    occurredAtMs: int,
    recordedAtMs: int,
    payload: Json,
    previousHash: string,
    hash: string)

  datatype CheckpointRecord = CheckpointRecord(
    tenantId: string,
    projectId: string,
    id: Uuid,
    runId: Uuid,
    eventSequence: int,
    state: Json,
    stateDigest: string,
    createdAtMs: int)

  // ----- Log records ---------------------------------------------------------------

  /** One mutation.  An effect and its timeline event travel together, so no crash can part them. */
  datatype RecordKind =
    | RunCreated(run: RunRecord)
    | RunUpdated(run: RunRecord)
    | EffectApplied(effect: EffectRecord, event: Option<EventRecord>)
    | EventAppended(appended: EventRecord)
    | CheckpointCreated(checkpoint: CheckpointRecord)
    | RetentionApplied(cutoffMs: int, runIds: seq<Uuid>, effectIds: seq<Uuid>)
}
