/**
  Exactly when a transition is accepted and what it writes, and what a renewal is worth.
 */
module LedgerTransitions {
  import opened Basics
  import opened CanonicalJson
  import opened Digests
  import opened LedgerModel
  import opened LedgerIndexes
  import opened LedgerOps
  import opened LedgerInvariant
  import opened LedgerSystem
  import opened LedgerRecovery
  import opened LedgerSafety
  import opened LedgerLeases
  import opened LedgerAcquire

  // ----- When -----------------------------------------------------------------------------------

  /** Every transition there is, with the state it leaves and the state it leads to. */
  const Table: set<(EffectTransition, EffectStatus, EffectStatus)> := {
    (Start, Claimed, InProgress),
    (Renew, Claimed, Claimed),
    (Renew, InProgress, InProgress),
    (Commit, Claimed, Committed),
    (Commit, InProgress, Committed),
    (FailRetryable, Claimed, FailedRetryable),
    (FailRetryable, InProgress, FailedRetryable),
    (FailTerminal, Claimed, FailedTerminal),
    (FailTerminal, InProgress, FailedTerminal),
    (MarkOutcomeUnknown, Claimed, OutcomeUnknown),
    (MarkOutcomeUnknown, InProgress, OutcomeUnknown),
    (ReconcileCommitted, OutcomeUnknown, ReconciledCommitted),
    (ReconcileFailed, OutcomeUnknown, ReconciledFailed)
  }

  predicate InTable(t: EffectTransition, from: EffectStatus) {
    (t, from, TargetState(t, from)) in Table
  }

  lemma LegalIsTable(t: EffectTransition, from: EffectStatus)
    ensures Legal(t, from) <==> InTable(t, from)
    ensures InTable(t, from) <==> exists to :: (t, from, to) in Table
    ensures forall to :: (t, from, to) in Table ==> to == TargetState(t, from)
  {
    assert InTable(t, from) ==> (t, from, TargetState(t, from)) in Table;
  }

  /** A reconciler needs the capability; anyone else the token of the lease. */
  predicate MayMove(effect: EffectRecord, req: UpdateRequest, canReconcile: bool) {
    if req.transition in {ReconcileCommitted, ReconcileFailed} then canReconcile
    else req.leaseToken.Some? && effect.leaseTokenDigest == Some(Sha256Digest(Utf8(req.leaseToken.value)))
  }

  /** A renewal that asks for a lease asks for one within bounds. */
  predicate RenewalInBounds(cfg: Config, req: UpdateRequest) {
    req.transition == Renew && req.leaseDurationSeconds.Some? ==>
      cfg.minLeaseMs <= 1000 * req.leaseDurationSeconds.value <= cfg.maxLeaseMs
  }

  predicate InScope(ix: Index, scope: Scope, id: Uuid) {
    id in ix.effectsById && Scope(ix.effectsById[id].tenantId, ix.effectsById[id].projectId) == scope
  }

  lemma InScopeIff(ix: Index, scope: Scope, id: Uuid)
    ensures EffectInScope(ix, scope, id) == if InScope(ix, scope, id) then Some(ix.effectsById[id]) else None
  {
  }

  lemma MayMoveIff(effect: EffectRecord, req: UpdateRequest, canReconcile: bool)
    ensures Unauthorized(effect, req, canReconcile).None? <==> MayMove(effect, req, canReconcile)
  {
    hide Sha256Digest, Utf8;
  }

  lemma MovesSomewhere(cfg: Config, effect: EffectRecord, req: UpdateRequest, now: int)
    ensures Transitioned(cfg, effect, req, now).Some? <==> RenewalInBounds(cfg, req)
  {
  }

  /** An effect of a stored run is written with its event, never refused. */
  lemma OwnedPersists(ix: Index, scope: Scope, effect: EffectRecord, eventType: string, detail: Json, inp: Inputs,
                      reply: Reply)
    requires OwnerOk(ix.runs, effect) && effect.tenantId == scope.tenantId && effect.projectId == scope.projectId
    ensures var plan := PersistEffect(ix, scope, effect, eventType, detail, inp, reply);
            plan.Persist? && plan.kind.EffectApplied? && plan.kind.effect == effect && plan.reply == reply
  {
    hide BuildEvent, EffectEventPayload;
  }

  lemma NextIsOwned(cfg: Config, ix: Index, effect: EffectRecord, req: UpdateRequest, now: int)
    requires OwnerOk(ix.runs, effect) && Transitioned(cfg, effect, req, now).Some?
    ensures var next := Transitioned(cfg, effect, req, now).value;
            OwnerOk(ix.runs, next) && next.tenantId == effect.tenantId && next.projectId == effect.projectId
  {
  }

  /**
    A transition is accepted if and only if the effect is in the caller's scope, the fence
    is the current one, the table has the move, the caller may make it, and a renewal asks
    for a lease within bounds. Otherwise it is refused with the reason that comes first.
   */
  lemma TransitionPersistsIff(cfg: Config, ix: Index, scope: Scope, id: Uuid, req: UpdateRequest, canReconcile: bool,
                              inp: Inputs)
    requires Inv(ix)
    ensures var plan := PlanTransition(cfg, ix, scope, id, req, canReconcile, inp);
            if !InScope(ix, scope, id) then plan == Refuse(NotFound("effect", id))
            else
              var effect := ix.effectsById[id];
              if req.fencingToken != effect.fencingToken then
                plan == Refuse(StaleFencingToken(effect.fencingToken, req.fencingToken))
              else if !InTable(req.transition, effect.state) then
                plan == Refuse(InvalidTransition(StatusName(effect.state), TransitionName(req.transition)))
              else if !MayMove(effect, req, canReconcile) then
                plan.Refuse? && (plan.error.Forbidden? || plan.error == Validation("lease_token"))
              else if !RenewalInBounds(cfg, req) then plan == Refuse(Validation("lease_duration_seconds"))
              else
                && plan.Persist?
                && plan.kind.EffectApplied?
                && Transitioned(cfg, effect, req, inp.now) == Some(plan.kind.effect)
                && plan.reply == EffectReply(plan.kind.effect)
  {
    hide Table, InTable, MayMove, RenewalInBounds, RunsOk, CheckpointsOk, KeysInverse, PersistEffect, Transitioned, Legal,
         OwnerOk, LeaseOk;
    InScopeIff(ix, scope, id);
    if InScope(ix, scope, id) {
      var effect := ix.effectsById[id];
      LegalIsTable(req.transition, effect.state);
      MayMoveIff(effect, req, canReconcile);
      MovesSomewhere(cfg, effect, req, inp.now);
      if RenewalInBounds(cfg, req) {
        NextIsOwned(cfg, ix, effect, req, inp.now);
        var next := Transitioned(cfg, effect, req, inp.now).value;
        var detail := Object(map[
          "from" := String(StatusName(effect.state)),
          "to" := String(StatusName(next.state)),
          "transition" := String(TransitionName(req.transition))]);
        OwnedPersists(ix, scope, next, EventTypeOf(req.transition), detail, inp, EffectReply(next));
      }
    }
  }

  // ----- What -----------------------------------------------------------------------------------

  /** The part of an effect no transition touches. */
  predicate SameBut(was: EffectRecord, now: EffectRecord) {
    was == now.(state := was.state, leaseExpiresAtMs := was.leaseExpiresAtMs, leaseDurationMs := was.leaseDurationMs,
                leaseTokenDigest := was.leaseTokenDigest, result := was.result, externalReceipt := was.externalReceipt,
                failure := was.failure, updatedAtMs := was.updatedAtMs)
  }

  /** A result and a receipt come with a commit, and from nowhere else. */
  predicate ResultMoves(was: EffectRecord, now: EffectRecord, req: UpdateRequest) {
    if req.transition in {Commit, ReconcileCommitted}
    then now.result == req.result && now.externalReceipt == req.externalReceipt
    else now.result == was.result && now.externalReceipt == was.externalReceipt
  }

  /** A failure is on record after a failure, the one reported if any, and none after a commit. */
  predicate FailureMoves(was: EffectRecord, now: EffectRecord, req: UpdateRequest) {
    && (req.transition == Commit ==> now.failure.None?)
    && (req.transition == MarkOutcomeUnknown ==> now.failure == req.failure)
    && (req.transition in {Start, Renew, ReconcileCommitted} ==> now.failure == was.failure)
    && (req.transition in {FailRetryable, FailTerminal, ReconcileFailed} ==>
          && now.failure.Some?
          && (req.failure.Some? ==> now.failure == req.failure)
          && (req.failure.None? ==> (now.failure.value.retryable <==> req.transition == FailRetryable)))
  }

  /** A lease outlives only a start, unchanged, and a renewal, which sets it anew from now on. */
  predicate LeaseMoves(was: EffectRecord, now: EffectRecord, req: UpdateRequest, at: int) {
    && (req.transition == Start ==>
          now.leaseExpiresAtMs == was.leaseExpiresAtMs && now.leaseTokenDigest == was.leaseTokenDigest &&
          now.leaseDurationMs == was.leaseDurationMs)
    && (req.transition == Renew ==>
          && now.leaseTokenDigest == was.leaseTokenDigest
          && now.leaseExpiresAtMs == Some(at + now.leaseDurationMs)
          && now.leaseDurationMs == match req.leaseDurationSeconds case Some(n) => 1000 * n case None => was.leaseDurationMs)
    && (req.transition !in {Start, Renew} ==> now.leaseExpiresAtMs.None? && now.leaseTokenDigest.None?)
  }

  lemma TransitionedMoves(cfg: Config, effect: EffectRecord, req: UpdateRequest, now: int)
    requires Transitioned(cfg, effect, req, now).Some? && LeaseOk(effect) && Legal(req.transition, effect.state)
    ensures var next := Transitioned(cfg, effect, req, now).value;
            SameBut(effect, next) && ResultMoves(effect, next, req) && FailureMoves(effect, next, req) &&
            LeaseMoves(effect, next, req, now) && next.updatedAtMs == now &&
            next.state == TargetState(req.transition, effect.state)
  {
  }

  /** What an accepted transition writes and answers, field by field. */
  lemma TransitionWrites(cfg: Config, ix: Index, scope: Scope, id: Uuid, req: UpdateRequest, canReconcile: bool,
                         inp: Inputs)
    requires Inv(ix) && PlanTransition(cfg, ix, scope, id, req, canReconcile, inp).Persist?
    ensures var plan := PlanTransition(cfg, ix, scope, id, req, canReconcile, inp);
            plan.kind.EffectApplied? && id in ix.effectsById && plan.reply == EffectReply(plan.kind.effect) &&
            var was, now := ix.effectsById[id], plan.kind.effect;
            (req.transition, was.state, now.state) in Table && now.updatedAtMs == inp.now && SameBut(was, now) &&
            ResultMoves(was, now, req) && FailureMoves(was, now, req) && LeaseMoves(was, now, req, inp.now)
  {
    hide Table, MayMove, RenewalInBounds, RunsOk, CheckpointsOk, KeysInverse, OwnerOk, PlanTransition, Transitioned, Legal,
         ResultMoves, FailureMoves, LeaseMoves, SameBut;
    TransitionPersistsIff(cfg, ix, scope, id, req, canReconcile, inp);
    LegalIsTable(req.transition, ix.effectsById[id].state);
    TransitionedMoves(cfg, ix.effectsById[id], req, inp.now);
  }

  // ----- Renewals and holders over histories ----------------------------------------------------------

  /** The lease a renewal gives: the seconds asked for, or the length the lease had. */
  function RenewedMs(effect: EffectRecord, req: UpdateRequest): int {
    match req.leaseDurationSeconds
    case Some(n) => 1000 * n
    case None => effect.leaseDurationMs
  }

  /**
    A renewed lease keeps others out for exactly as long as it was renewed for: wherever
    the history goes from the renewal, while no later grant or renewal names the effect and
    it is still leased, a repeat of the effect's request waits for exactly the rest; and
    only from that time on is the lease granted to another, or the effect given up.
   */
  lemma RenewalKeepsOut(cfg: Config, h: seq<Logged>, n: nat, scope: Scope, id: Uuid, req: UpdateRequest,
                        canReconcile: bool, renewed: Inputs, caller: Scope, key: string, again: AcquireRequest,
                        inp: Inputs)
    requires Sound(h) && Grown(h) && n < |h| && req.transition == Renew
    requires var plan := PlanTransition(cfg, Folded(h[..n]).index, scope, id, req, canReconcile, renewed);
             plan.Persist? && h[n].kind == plan.kind && id in Folded(h[..n]).index.effectsById &&
             LastLease(h, n, id) && SameRequest(Folded(h[..n]).index.effectsById[id], caller, key, again)
    requires id in Folded(h).index.effectsById && HoldsLease(Folded(h).index.effectsById[id].state)
    requires WellFormed(cfg, key, again)
    ensures var until := renewed.now + RenewedMs(Folded(h[..n]).index.effectsById[id], req);
            KeepsOut(cfg, Folded(h).index.effectsById[id], until, again, inp,
                     PlanOf(cfg, Folded(h).index, Acquire(caller, key, again), inp))
  {
    hide Inv, Folded, PlanTransition, PlanOf, KeepsOut, HistoryLegal, WellFormed, LastLease, Table, ResultMoves,
         FailureMoves, Sha256Digest, Utf8, Print;
    var ix := Folded(h[..n]).index;
    TransitionWrites(cfg, ix, scope, id, req, canReconcile, renewed);
    StoredUnderId(ix, id);
    var until := renewed.now + RenewedMs(ix.effectsById[id], req);
    LeaseKeepsOut(cfg, h, n, id, until, caller, key, again, inp);
  }

  lemma StoredUnderId(ix: Index, id: Uuid)
    requires Inv(ix) && id in ix.effectsById
    ensures ix.effectsById[id].id == id
  {
    hide RunsOk, CheckpointsOk, KeysInverse, LeaseOk, OwnerOk;
  }

  /**
    Only the last grantee moves a leased effect: wherever the history goes from a grant,
    while no later one was given and the effect is still leased, a worker's transition is
    accepted if and only if it bears the grant's fence and a token with the digest of the
    one handed out, and the table and the bounds allow it.
   */
  lemma OnlyHolderMoves(cfg: Config, h: seq<Logged>, n: nat, scope: Scope, key: string, first: AcquireRequest,
                        granted: Inputs, req: UpdateRequest, canReconcile: bool, inp: Inputs)
    requires Sound(h) && Grown(h) && n < |h|
    requires var plan := PlanAcquire(cfg, Folded(h[..n]).index, scope, key, first, granted);
             GrantsLease(plan) && h[n].kind == plan.kind && plan.kind.EffectApplied?
    requires var e := h[n].kind.effect.id;
             (forall i :: n < i < |h| ==> !IsGrant(h[i], e)) &&
             e in Folded(h).index.effectsById && HoldsLease(Folded(h).index.effectsById[e].state)
    requires req.transition !in {ReconcileCommitted, ReconcileFailed}
    ensures var e := h[n].kind.effect.id;
            PlanOf(cfg, Folded(h).index, Transition(scope, e, req, canReconcile), inp).Persist? <==>
              && req.fencingToken == h[n].kind.effect.fencingToken
              && InTable(req.transition, Folded(h).index.effectsById[e].state)
              && req.leaseToken.Some?
              && Sha256Digest(Utf8(req.leaseToken.value)) == Sha256Digest(Utf8(granted.leaseToken))
              && RenewalInBounds(cfg, req)
  {
    hide Inv, Folded, PlanAcquire, PlanTransition, InTable, RenewalInBounds, HistoryLegal, WellFormed, Sha256Digest, Utf8,
         Print, Transitioned;
    assert h[..|h|] == h;
    var e, ix := h[n].kind.effect.id, Folded(h).index;
    GrantSets(cfg, Folded(h[..n]).index, scope, key, first, granted);
    DigestStays(h, n, e);
    TokenStays(h, n, e);
    TransitionPersistsIff(cfg, ix, scope, e, req, canReconcile, inp);
  }

  /** As long as no other lease is granted and the effect is leased, its token and fence are those of the grant. */
  lemma {:induction false} TokenStays(h: seq<Logged>, n: nat, e: Uuid)
    requires Sound(h) && n < |h| && About(h[n], e) && (forall i :: n < i < |h| ==> !IsGrant(h[i], e))
    requires e in Folded(h).index.effectsById && HoldsLease(Folded(h).index.effectsById[e].state)
    ensures var now := Folded(h).index.effectsById[e];
            now.leaseTokenDigest == h[n].kind.effect.leaseTokenDigest &&
            now.fencingToken == h[n].kind.effect.fencingToken
    decreases |h|
  {
    hide Folded;
    StoredAfter(h, e);
    var last := |h| - 1;
    if n < last {
      SoundPrefix(h, last);
      assert h[..|h|] == h;
      assert LastLegal(h);
      assert About(h[..last][n], e) && !IsGrant(h[last], e);
      if Stored(Folded(h[..last]).index, e).Some? && HoldsLease(Stored(Folded(h[..last]).index, e).value.state) {
        TokenStays(h[..last], n, e);
      }
    }
  }
}
