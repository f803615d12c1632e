/**
  How acquire and transition fit together: a granted lease is usable and exclusive,
  and an idempotency key answers only for the input it was first used with.
 */
module LedgerLeases {
  import opened Basics
  import opened CanonicalJson
  import opened Digests
  import opened LedgerModel
  import opened LedgerIndexes
  import opened LedgerOps
  import opened LedgerInvariant
  import opened LedgerSystem
  import opened LedgerRecovery
  import opened LedgerSafety

  /** The plan grants a lease. */
  predicate GrantsLease(plan: Plan) {
    plan.Persist? && plan.reply.Decided? && plan.reply.decision.Execute?
  }

  /** A worker's request with the credentials it was given. */
  function WithCredentials(reply: Reply, transition: EffectTransition): UpdateRequest
    requires reply.Decided?
  {
    UpdateRequest(transition, reply.leaseToken, reply.effect.fencingToken, None, None, None, None)
  }

  /** A claimed effect in the caller's scope whose token is the one handed out. */
  predicate LeasedOut(effect: EffectRecord, scope: Scope, inp: Inputs) {
    && effect.state == Claimed
    && effect.leaseTokenDigest == Some(Sha256Digest(Utf8(inp.leaseToken)))
    && effect.tenantId == scope.tenantId
    && effect.projectId == scope.projectId
  }

  predicate GoodGrant(plan: Plan, scope: Scope, inp: Inputs) {
    GrantsLease(plan) ==>
      && plan.kind.EffectApplied?
      && plan.kind.effect == plan.reply.effect
      && plan.reply.leaseToken == Some(inp.leaseToken)
      && LeasedOut(plan.kind.effect, scope, inp)
  }

  lemma PersistedGrant(ix: Index, scope: Scope, effect: EffectRecord, eventType: string, detail: Json, inp: Inputs,
                       reply: Reply)
    requires reply.Decided? && reply.effect == effect
    requires reply.decision.Execute? ==> reply.leaseToken == Some(inp.leaseToken) && LeasedOut(effect, scope, inp)
    ensures GoodGrant(PersistEffect(ix, scope, effect, eventType, detail, inp, reply), scope, inp)
  {
    hide PersistEffect, LeasedOut;
    PersistEffectKind(ix, scope, effect, eventType, detail, inp, reply);
  }

  lemma ExistingGrant(ix: Index, scope: Scope, effect: EffectRecord, req: AcquireRequest, leaseMs: int, inp: Inputs)
    requires effect.tenantId == scope.tenantId && effect.projectId == scope.projectId
    ensures GoodGrant(PlanExisting(ix, scope, effect, req, leaseMs, inp), scope, inp)
  {
    hide PersistEffect, Utf8, Sha256Digest;
    var next, expired := Reacquired(effect, req, leaseMs, inp), Expired(effect, inp.now);
    var granted := Decided(Execute, next, Some(inp.leaseToken), None);
    PersistedGrant(ix, scope, next, "effect.reacquired", Detail(String("failed_retryable"), "claimed"), inp, granted);
    PersistedGrant(ix, scope, next, "effect.reacquired", DetailWithReason("claimed", "claimed", "lease_expired"), inp, granted);
    PersistedGrant(ix, scope, expired, "effect.outcome_unknown",
                   DetailWithReason("in_progress", "outcome_unknown", "lease_expired"), inp, Decided(Reconcile, expired, None, None));
  }

  /** What a grant stores is what it hands out. */
  lemma GrantShape(cfg: Config, ix: Index, scope: Scope, key: string, req: AcquireRequest, inp: Inputs)
    requires Inv(ix)
    ensures GoodGrant(PlanAcquire(cfg, ix, scope, key, req, inp), scope, inp)
  {
    hide PersistEffect, PlanExisting, InvalidEffectField, Print, Utf8, Sha256Digest, RunsOk, CheckpointsOk;
    var k := EffectKey(scope.tenantId, scope.projectId, req.scope, key);
    var lease := ResolveLeaseMs(cfg, req.leaseDurationSeconds);
    if lease.Some? {
      match EffectByKey(ix, k)
      case Some(effect) =>
        assert EffectKeyOf(effect) == k;
        ExistingGrant(ix, scope, effect, req, lease.value, inp);
      case None =>
        var effect := NewEffect(scope, key, req, Sha256Digest(Utf8(Print(req.input))), lease.value, inp);
        PersistedGrant(ix, scope, effect, "effect.acquired", Detail(Null, "claimed"), inp,
                       Decided(Execute, effect, Some(inp.leaseToken), None));
    }
  }

  lemma StoredAfterPut(ix: Index, effect: EffectRecord, event: Option<EventRecord>)
    ensures var after := ApplyRecord(ix, EffectApplied(effect, event)).index;
            effect.id in after.effectsById && after.effectsById[effect.id] == effect
  {
  }

  /**
    A granted lease is usable: with the token and fence of the reply, the worker may start
    at once, and the ledger then shows the effect in progress under the same fence. With
    any token of another digest, or any other fence, it is refused.
   */
  lemma GrantIsUsable(cfg: Config, ix: Index, scope: Scope, key: string, req: AcquireRequest, inp: Inputs,
                      later: Inputs, other: UpdateRequest)
    requires Inv(ix) && FreshFor(ix, inp) && GrantsLease(PlanAcquire(cfg, ix, scope, key, req, inp))
    ensures var plan := PlanAcquire(cfg, ix, scope, key, req, inp);
            var after := ApplyRecord(ix, plan.kind);
            var effect := plan.reply.effect;
            after.error.None? &&
            var start := PlanTransition(cfg, after.index, scope, effect.id, WithCredentials(plan.reply, Start), false, later);
            start.Persist? && start.kind.EffectApplied? && start.kind.effect.state == InProgress &&
            start.kind.effect.fencingToken == effect.fencingToken && start.kind.effect.id == effect.id
    ensures var plan := PlanAcquire(cfg, ix, scope, key, req, inp);
            var after := ApplyRecord(ix, plan.kind).index;
            IsWorkerTransition(other.transition) &&
            (other.fencingToken != plan.reply.effect.fencingToken ||
             other.leaseToken.None? || Sha256Digest(Utf8(other.leaseToken.value)) != Sha256Digest(Utf8(inp.leaseToken))) ==>
            PlanTransition(cfg, after, scope, plan.reply.effect.id, other, false, later).Refuse?
  {
    hide PlanAcquire, PersistEffect, Inv, Sha256Digest, Utf8, ApplyRecord;
    GrantShape(cfg, ix, scope, key, req, inp);
    PersistNeverFails(cfg, ix, Acquire(scope, key, req), inp);
    var plan := PlanAcquire(cfg, ix, scope, key, req, inp);
    var effect, after := plan.kind.effect, ApplyRecord(ix, plan.kind).index;
    StoredAfterPut(ix, effect, plan.kind.event);
    StartAccepted(cfg, after, scope, effect, WithCredentials(plan.reply, Start), later);
  }

  lemma StartAccepted(cfg: Config, ix: Index, scope: Scope, effect: EffectRecord, req: UpdateRequest, inp: Inputs)
    requires Inv(ix) && EffectInScope(ix, scope, effect.id) == Some(effect)
    requires effect.state == Claimed && req.transition == Start && req.fencingToken == effect.fencingToken
    requires req.leaseToken.Some? && effect.leaseTokenDigest == Some(Sha256Digest(Utf8(req.leaseToken.value)))
    ensures var plan := PlanTransition(cfg, ix, scope, effect.id, req, false, inp);
            plan.Persist? && plan.kind.EffectApplied? &&
            plan.kind.effect == effect.(updatedAtMs := inp.now, state := InProgress)
  {
    hide Sha256Digest, Utf8, BuildEvent, EffectEventPayload, RunsOk, CheckpointsOk, KeysInverse;
    assert OwnerOk(ix.runs, effect);
  }

  /** While a lease is out and has not run out, a repeated request waits for exactly the rest of it, and nothing is written. */
  lemma LeaseExcludes(cfg: Config, ix: Index, e: Uuid, scope: Scope, key: string, req: AcquireRequest, inp: Inputs)
    requires Inv(ix) && e in ix.effectsById && HoldsLease(ix.effectsById[e].state)
    requires inp.now < ix.effectsById[e].leaseExpiresAtMs.value
    requires EffectKey(scope.tenantId, scope.projectId, req.scope, key) == EffectKeyOf(ix.effectsById[e])
    ensures var plan, effect := PlanAcquire(cfg, ix, scope, key, req, inp), ix.effectsById[e];
            plan.Refuse? || plan == Answer(Decided(Wait, effect, None, Some(effect.leaseExpiresAtMs.value - inp.now)))
  {
    hide InvalidEffectField, Print, Utf8, Sha256Digest, RunsOk, CheckpointsOk, PersistEffect;
    assert ix.effectIds[EffectKeyOf(ix.effectsById[e])] == e;
  }

  /** What an acquire writes carries the digest of its input, under its key. */
  lemma AcquireWrites(cfg: Config, ix: Index, scope: Scope, key: string, req: AcquireRequest, inp: Inputs)
    requires EffectsOk(ix)
    ensures var plan := PlanAcquire(cfg, ix, scope, key, req, inp);
            plan.Persist? ==>
              && plan.kind.EffectApplied?
              && plan.kind.effect.inputDigest == Sha256Digest(Utf8(Print(req.input)))
              && EffectKeyOf(plan.kind.effect) == EffectKey(scope.tenantId, scope.projectId, req.scope, key)
  {
    hide InvalidEffectField, Print, Utf8, Sha256Digest, PersistEffect, PlanExisting, LeaseOk, OwnerOk, EffectStep;
    var digest := Sha256Digest(Utf8(Print(req.input)));
    var k := EffectKey(scope.tenantId, scope.projectId, req.scope, key);
    var lease := ResolveLeaseMs(cfg, req.leaseDurationSeconds);
    if lease.Some? {
      match EffectByKey(ix, k)
      case Some(effect) =>
        var plan := PlanExisting(ix, scope, effect, req, lease.value, inp);
        if effect.toolName == req.toolName && plan.Persist? {
          ExistingStep(ix, scope, effect, req, lease.value, inp);
          SameIdentity(effect, plan.kind.effect, if plan.reply.decision.Execute? then Granted else Lapsed);
        }
      case None =>
        var effect := NewEffect(scope, key, req, digest, lease.value, inp);
        PersistEffectKind(ix, scope, effect, "effect.acquired", Detail(Null, "claimed"), inp,
                          Decided(Execute, effect, Some(inp.leaseToken), None));
    }
  }

  /**
    A key answers for one input only: wherever the history goes from the request that
    created or reacquired an effect, as long as retention has not pruned it, a request that
    reuses the key with a different JSON value is refused as a conflict, unless SHA-256
    collides on these two canonical texts.
   */
  lemma KeyReuseConflicts(cfg: Config, h: seq<Logged>, n: nat, scope: Scope, key: string, first: AcquireRequest,
                          before: Inputs, req: AcquireRequest, inp: Inputs)
    requires Sound(h) && Grown(h) && n < |h|
    requires var plan := PlanAcquire(cfg, Folded(h[..n]).index, scope, key, first, before);
             plan.Persist? && h[n].kind == plan.kind && plan.kind.EffectApplied? &&
             plan.kind.effect.id in Folded(h).index.effectsById
    requires InvalidEffectField(req.scope, key, req.toolName).None? &&
             ResolveLeaseMs(cfg, req.leaseDurationSeconds).Some?
    requires req.scope == first.scope && req.input != first.input
    requires Sha256(Utf8(Print(first.input))) == Sha256(Utf8(Print(req.input))) ==>
               Utf8(Print(first.input)) == Utf8(Print(req.input))
    ensures PlanAcquire(cfg, Folded(h).index, scope, key, req, inp) ==
            Refuse(IdempotencyConflict(Sha256Digest(Utf8(Print(first.input))), Sha256Digest(Utf8(Print(req.input)))))
  {
    hide InvalidEffectField, Print, Utf8, PlanAcquire, Folded, Sha256Digest, Inv, HistoryLegal;
    var e := h[n].kind.effect.id;
    assert h[..|h|] == h;
    InvEffects(Folded(h[..n]).index);
    InvEffects(Folded(h).index);
    AcquireWrites(cfg, Folded(h[..n]).index, scope, key, first, before);
    DigestStays(h, n, e);
    DifferentDigests(first.input, req.input);
    OtherInputRefused(cfg, Folded(h).index, e, scope, key, req, inp);
  }

  lemma OtherInputRefused(cfg: Config, ix: Index, e: Uuid, scope: Scope, key: string, req: AcquireRequest, inp: Inputs)
    requires EffectsOk(ix) && e in ix.effectsById
    requires EffectKey(scope.tenantId, scope.projectId, req.scope, key) == EffectKeyOf(ix.effectsById[e])
    requires InvalidEffectField(req.scope, key, req.toolName).None? &&
             ResolveLeaseMs(cfg, req.leaseDurationSeconds).Some?
    requires ix.effectsById[e].inputDigest != Sha256Digest(Utf8(Print(req.input)))
    ensures PlanAcquire(cfg, ix, scope, key, req, inp) ==
            Refuse(IdempotencyConflict(ix.effectsById[e].inputDigest, Sha256Digest(Utf8(Print(req.input)))))
  {
    hide InvalidEffectField, Print, Utf8, Sha256Digest, PersistEffect, LeaseOk, OwnerOk;
    assert ix.effectIds[EffectKeyOf(ix.effectsById[e])] == e;
  }

  lemma DifferentDigests(a: Json, b: Json)
    requires a != b
    requires Sha256(Utf8(Print(a))) == Sha256(Utf8(Print(b))) ==> Utf8(Print(a)) == Utf8(Print(b))
    ensures Sha256Digest(Utf8(Print(a))) != Sha256Digest(Utf8(Print(b)))
  {
    hide Print, Utf8;
    if Sha256Digest(Utf8(Print(a))) == Sha256Digest(Utf8(Print(b))) {
      RenderInjective(Sha256(Utf8(Print(a))), Sha256(Utf8(Print(b))));
      Utf8Injective(Print(a), Print(b));
      PrintUnambiguous(a, b, "", "");
      assert false;
    }
  }
}
