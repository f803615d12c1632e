/**
  What acquire answers, for every request and every stored state, and how long a lease
  keeps others out: stated by times and stored facts, over whole histories.
 */
module LedgerAcquire {
  import opened Basics
  import opened CanonicalJson
  import opened Digests
  import opened LedgerModel
  import opened LedgerIndexes
  import opened LedgerOps
  import opened LedgerInvariant
  import opened LedgerSystem
  import opened LedgerRecovery
  import opened LedgerSafety
  import opened LedgerLeases

  // ----- Well-formed requests -----------------------------------------------------------------

  /** The lease asked for, in milliseconds: a thousand for each second, or the default. */
  function AskedMs(cfg: Config, seconds: Option<nat>): int {
    match seconds
    case None => cfg.defaultLeaseMs
    case Some(n) => n * 1000
  }

  /** An ASCII letter or digit, or one of `-`, `.`, `:` and `_`, by its code. */
  predicate KeyCode(code: int) {
    65 <= code <= 90 || 97 <= code <= 122 || 48 <= code <= 57 || code in {45, 46, 58, 95}
  }

  predicate WellFormed(cfg: Config, key: string, req: AcquireRequest) {
    && 1 <= |Utf8(req.scope)| <= 500
    && 8 <= |Utf8(key)| <= 255
    && (forall i :: 0 <= i < |key| ==> KeyCode(key[i] as int))
    && 1 <= |Utf8(req.toolName)| <= 200
    && cfg.minLeaseMs <= AskedMs(cfg, req.leaseDurationSeconds) <= cfg.maxLeaseMs
  }

  lemma KeyCodes(c: char)
    ensures IsKeyChar(c) <==> KeyCode(c as int)
  {
  }

  lemma WellFormedIff(cfg: Config, key: string, req: AcquireRequest)
    ensures var plain := InvalidEffectField(req.scope, key, req.toolName).None?;
            var lease := ResolveLeaseMs(cfg, req.leaseDurationSeconds);
            (WellFormed(cfg, key, req) <==> plain && lease.Some?) &&
            (lease.Some? ==> lease.value == AskedMs(cfg, req.leaseDurationSeconds))
  {
    hide Utf8, IsKeyChar, KeyCode;
    forall i | 0 <= i < |key| ensures IsKeyChar(key[i]) <==> KeyCode(key[i] as int) {
      KeyCodes(key[i]);
    }
    if forall c :: c in key ==> IsKeyChar(c) {
      assert forall i :: 0 <= i < |key| ==> key[i] in key;
    }
  }

  // ----- One request --------------------------------------------------------------------------

  /** Some effect is stored under the key. */
  ghost predicate Taken(ix: Index, key: EffectKey) {
    exists e :: e in ix.effectsById && EffectKeyOf(ix.effectsById[e]) == key
  }

  lemma TakenIff(ix: Index, key: EffectKey)
    requires EffectsOk(ix)
    ensures EffectByKey(ix, key).Some? <==> Taken(ix, key)
    ensures forall e :: e in ix.effectsById && EffectKeyOf(ix.effectsById[e]) == key ==>
              EffectByKey(ix, key) == Some(ix.effectsById[e])
  {
    hide LeaseOk, OwnerOk;
    if EffectByKey(ix, key).Some? {
      assert EffectKeyOf(ix.effectsById[ix.effectIds[key]]) == key;
    }
    forall e | e in ix.effectsById && EffectKeyOf(ix.effectsById[e]) == key
      ensures EffectByKey(ix, key) == Some(ix.effectsById[e])
    {
      assert ix.effectIds[key] == e;
    }
  }

  /** A lease is handed out now, for so many milliseconds, with the token of this call. */
  ghost predicate HandsOut(plan: Plan, inp: Inputs, ms: int) {
    && plan.Persist?
    && plan.kind.EffectApplied?
    && plan.reply == Decided(Execute, plan.kind.effect, Some(inp.leaseToken), None)
    && var e := plan.kind.effect;
       && e.state == Claimed
       && e.leaseExpiresAtMs == Some(inp.now + ms)
       && e.leaseDurationMs == ms
       && e.leaseTokenDigest == Some(Sha256Digest(Utf8(inp.leaseToken)))
       && e.updatedAtMs == inp.now
  }

  lemma PersistHandsOut(ix: Index, scope: Scope, effect: EffectRecord, eventType: string, detail: Json, inp: Inputs,
                        ms: int)
    requires OwnerOk(ix.runs, effect) && effect.tenantId == scope.tenantId && effect.projectId == scope.projectId
    requires effect.state == Claimed && effect.leaseExpiresAtMs == Some(inp.now + ms) && effect.leaseDurationMs == ms
    requires effect.leaseTokenDigest == Some(Sha256Digest(Utf8(inp.leaseToken))) && effect.updatedAtMs == inp.now
    ensures var plan := PersistEffect(ix, scope, effect, eventType, detail, inp,
                                      Decided(Execute, effect, Some(inp.leaseToken), None));
            HandsOut(plan, inp, ms) && plan.kind.effect == effect
  {
    hide BuildEvent, EffectEventPayload, Sha256Digest, Utf8;
  }

  /** A new key creates the effect that was asked for, under its first lease. */
  lemma AcquireCreates(cfg: Config, ix: Index, scope: Scope, key: string, req: AcquireRequest, inp: Inputs)
    requires Inv(ix) && WellFormed(cfg, key, req)
    requires !Taken(ix, EffectKey(scope.tenantId, scope.projectId, req.scope, key))
    requires req.runId.Some? ==> RunInScope(ix, scope, req.runId.value).Some?
    ensures var plan := PlanAcquire(cfg, ix, scope, key, req, inp);
            HandsOut(plan, inp, AskedMs(cfg, req.leaseDurationSeconds)) &&
            var e := plan.kind.effect;
            e.id == inp.newId && e.tenantId == scope.tenantId && e.projectId == scope.projectId &&
            e.runId == req.runId && e.scope == req.scope && e.idempotencyKey == key && e.toolName == req.toolName &&
            e.inputDigest == Sha256Digest(Utf8(Print(req.input))) && e.fencingToken == 1 &&
            e.result.None? && e.externalReceipt.None? && e.failure.None? && e.createdAtMs == inp.now
  {
    hide WellFormed, InvalidEffectField, PersistEffect, HandsOut, Sha256Digest, Utf8, Print, RunsOk, CheckpointsOk;
    WellFormedIff(cfg, key, req);
    TakenIff(ix, EffectKey(scope.tenantId, scope.projectId, req.scope, key));
    var ms := AskedMs(cfg, req.leaseDurationSeconds);
    var effect := NewEffect(scope, key, req, Sha256Digest(Utf8(Print(req.input))), ms, inp);
    PersistHandsOut(ix, scope, effect, "effect.acquired", Detail(Null, "claimed"), inp, ms);
  }

  /** What a lease taken over keeps of the effect: everything but the fence, one up, and the lease. */
  predicate Regranted(was: EffectRecord, now: EffectRecord) {
    && now.fencingToken == was.fencingToken + 1
    && was == now.(state := was.state, fencingToken := was.fencingToken, leaseExpiresAtMs := was.leaseExpiresAtMs,
                   leaseDurationMs := was.leaseDurationMs, leaseTokenDigest := was.leaseTokenDigest,
                   updatedAtMs := was.updatedAtMs)
  }

  /** What an effect whose worker went silent becomes: nobody holds it, and a failure is on record. */
  predicate GivenUp(was: EffectRecord, now: EffectRecord) {
    && now.state == OutcomeUnknown
    && now.leaseExpiresAtMs.None?
    && now.leaseTokenDigest.None?
    && now.failure.Some?
    && (was.failure.Some? ==> now.failure == was.failure)
    && (was.failure.None? ==> !now.failure.value.retryable)
    && was == now.(state := was.state, leaseExpiresAtMs := was.leaseExpiresAtMs, failure := was.failure,
                   leaseTokenDigest := was.leaseTokenDigest, updatedAtMs := was.updatedAtMs)
  }

  /** The answer to a repeat of an effect's own request, by the state the effect is in and the time. */
  ghost predicate Answers(cfg: Config, effect: EffectRecord, req: AcquireRequest, inp: Inputs, plan: Plan) {
    match effect.state
    case Committed => plan == Answer(Decided(Replay, effect, None, None))
    case FailedTerminal => plan == Answer(Decided(Replay, effect, None, None))
    case ReconciledCommitted => plan == Answer(Decided(Replay, effect, None, None))
    case ReconciledFailed => plan == Answer(Decided(Replay, effect, None, None))
    case OutcomeUnknown => plan == Answer(Decided(Reconcile, effect, None, None))
    case FailedRetryable =>
      HandsOut(plan, inp, AskedMs(cfg, req.leaseDurationSeconds)) && Regranted(effect, plan.kind.effect)
    case Claimed =>
      && effect.leaseExpiresAtMs.Some?
      && (inp.now < effect.leaseExpiresAtMs.value ==>
            plan == Answer(Decided(Wait, effect, None, Some(effect.leaseExpiresAtMs.value - inp.now))))
      && (effect.leaseExpiresAtMs.value <= inp.now ==>
            HandsOut(plan, inp, AskedMs(cfg, req.leaseDurationSeconds)) && Regranted(effect, plan.kind.effect))
    case InProgress =>
      && effect.leaseExpiresAtMs.Some?
      && (inp.now < effect.leaseExpiresAtMs.value ==>
            plan == Answer(Decided(Wait, effect, None, Some(effect.leaseExpiresAtMs.value - inp.now))))
      && (effect.leaseExpiresAtMs.value <= inp.now ==>
            plan.Persist? && plan.kind.EffectApplied? && GivenUp(effect, plan.kind.effect) &&
            plan.kind.effect.updatedAtMs == inp.now && plan.reply == Decided(Reconcile, plan.kind.effect, None, None))
  }

  /** The same effect: its key, its input and its tool. */
  predicate SameRequest(effect: EffectRecord, scope: Scope, key: string, req: AcquireRequest) {
    && EffectKeyOf(effect) == EffectKey(scope.tenantId, scope.projectId, req.scope, key)
    && effect.inputDigest == Sha256Digest(Utf8(Print(req.input)))
    && effect.toolName == req.toolName
  }

  lemma ExistingAnswers(cfg: Config, ix: Index, scope: Scope, effect: EffectRecord, req: AcquireRequest, inp: Inputs)
    requires LeaseOk(effect) && OwnerOk(ix.runs, effect) && effect.toolName == req.toolName
    requires effect.tenantId == scope.tenantId && effect.projectId == scope.projectId
    ensures Answers(cfg, effect, req, inp,
                    PlanExisting(ix, scope, effect, req, AskedMs(cfg, req.leaseDurationSeconds), inp))
  {
    hide PersistEffect, HandsOut, Sha256Digest, Utf8;
    var ms := AskedMs(cfg, req.leaseDurationSeconds);
    var next := Reacquired(effect, req, ms, inp);
    PersistHandsOut(ix, scope, next, "effect.reacquired", Detail(String("failed_retryable"), "claimed"), inp, ms);
    PersistHandsOut(ix, scope, next, "effect.reacquired", DetailWithReason("claimed", "claimed", "lease_expired"), inp, ms);
    LapsePersists(ix, scope, effect, inp);
  }

  lemma LapsePersists(ix: Index, scope: Scope, effect: EffectRecord, inp: Inputs)
    requires OwnerOk(ix.runs, effect) && effect.tenantId == scope.tenantId && effect.projectId == scope.projectId
    ensures var gone := Expired(effect, inp.now);
            var detail := DetailWithReason("in_progress", "outcome_unknown", "lease_expired");
            var plan := PersistEffect(ix, scope, gone, "effect.outcome_unknown", detail, inp,
                                      Decided(Reconcile, gone, None, None));
            plan.Persist? && plan.kind.EffectApplied? && plan.kind.effect == gone &&
            plan.reply == Decided(Reconcile, gone, None, None)
  {
    hide BuildEvent, EffectEventPayload;
  }

  /** A repeat of a stored effect's request is answered by the effect's state and the clock, as the table says. */
  lemma AcquireDecides(cfg: Config, ix: Index, e: Uuid, scope: Scope, key: string, req: AcquireRequest, inp: Inputs)
    requires Inv(ix) && e in ix.effectsById && WellFormed(cfg, key, req)
    requires SameRequest(ix.effectsById[e], scope, key, req)
    ensures Answers(cfg, ix.effectsById[e], req, inp, PlanAcquire(cfg, ix, scope, key, req, inp))
  {
    hide WellFormed, InvalidEffectField, PlanExisting, Answers, Sha256Digest, Utf8, Print, RunsOk, CheckpointsOk;
    WellFormedIff(cfg, key, req);
    TakenIff(ix, EffectKey(scope.tenantId, scope.projectId, req.scope, key));
    ExistingAnswers(cfg, ix, scope, ix.effectsById[e], req, inp);
  }

  /**
    Exactly when acquire refuses: the request is malformed, its key stands for another
    input or tool, or it names a run that is not in the caller's scope for a new effect.
   */
  lemma AcquireRefusesIff(cfg: Config, ix: Index, scope: Scope, key: string, req: AcquireRequest, inp: Inputs)
    requires Inv(ix)
    ensures var k := EffectKey(scope.tenantId, scope.projectId, req.scope, key);
            PlanAcquire(cfg, ix, scope, key, req, inp).Refuse? <==>
              || !WellFormed(cfg, key, req)
              || (exists e :: e in ix.effectsById && EffectKeyOf(ix.effectsById[e]) == k &&
                    !SameRequest(ix.effectsById[e], scope, key, req))
              || (!Taken(ix, k) && req.runId.Some? && RunInScope(ix, scope, req.runId.value).None?)
  {
    hide WellFormed, InvalidEffectField, PersistEffect, PlanExisting, Answers, HandsOut, Sha256Digest, Utf8, Print,
         RunsOk, CheckpointsOk;
    var k := EffectKey(scope.tenantId, scope.projectId, req.scope, key);
    WellFormedIff(cfg, key, req);
    TakenIff(ix, k);
    if WellFormed(cfg, key, req) {
      if e :| e in ix.effectsById && EffectKeyOf(ix.effectsById[e]) == k {
        assert EffectByKey(ix, k) == Some(ix.effectsById[e]);
        if SameRequest(ix.effectsById[e], scope, key, req) {
          AcquireDecides(cfg, ix, e, scope, key, req, inp);
          AnswersNotRefused(cfg, ix.effectsById[e], req, inp, PlanAcquire(cfg, ix, scope, key, req, inp));
        }
      } else if req.runId.Some? ==> RunInScope(ix, scope, req.runId.value).Some? {
        AcquireCreates(cfg, ix, scope, key, req, inp);
        HandsOutPersists(PlanAcquire(cfg, ix, scope, key, req, inp), inp, AskedMs(cfg, req.leaseDurationSeconds));
      }
    }
  }

  lemma AnswersNotRefused(cfg: Config, effect: EffectRecord, req: AcquireRequest, inp: Inputs, plan: Plan)
    requires Answers(cfg, effect, req, inp, plan)
    ensures !plan.Refuse?
  {
  }

  lemma HandsOutPersists(plan: Plan, inp: Inputs, ms: int)
    requires HandsOut(plan, inp, ms)
    ensures plan.Persist?
  {
  }

  // ----- Leases over histories -------------------------------------------------------------------

  /** The record sets the effect's lease: a grant, or a renewal. */
  predicate SetsLease(l: Logged, e: Uuid) {
    IsGrant(l, e) || IsMove(l, e, Renew)
  }

  /** Nothing after record `n` set the effect's lease. */
  predicate LastLease(h: seq<Logged>, n: nat, e: Uuid) {
    forall i :: n < i < |h| ==> !SetsLease(h[i], e)
  }

  /** As long as the effect is leased, its lease is the one last set: until when, for how long, and to whom. */
  lemma {:induction false} LeaseStays(h: seq<Logged>, n: nat, e: Uuid)
    requires Sound(h) && n < |h| && About(h[n], e) && LastLease(h, n, e)
    requires e in Folded(h).index.effectsById && HoldsLease(Folded(h).index.effectsById[e].state)
    ensures var now, set' := Folded(h).index.effectsById[e], h[n].kind.effect;
            now.leaseExpiresAtMs == set'.leaseExpiresAtMs && now.leaseDurationMs == set'.leaseDurationMs &&
            now.leaseTokenDigest == set'.leaseTokenDigest && now.fencingToken == set'.fencingToken
    decreases |h|
  {
    hide Folded;
    StoredAfter(h, e);
    var last := |h| - 1;
    if n < last {
      SoundPrefix(h, last);
      assert h[..|h|] == h;
      assert LastLegal(h);
      assert About(h[..last][n], e);
      assert !SetsLease(h[last], e);
      forall i | n < i < last ensures !SetsLease(h[..last][i], e) {
        assert !SetsLease(h[i], e);
      }
      if Stored(Folded(h[..last]).index, e).Some? && HoldsLease(Stored(Folded(h[..last]).index, e).value.state) {
        LeaseStays(h[..last], n, e);
      }
    }
  }

  /** What a repeat of the request is told while a lease set to run out at `until` has not been set anew. */
  ghost predicate KeepsOut(cfg: Config, effect: EffectRecord, until: int, again: AcquireRequest, inp: Inputs, plan: Plan) {
    && (inp.now < until ==> plan == Answer(Decided(Wait, effect, None, Some(until - inp.now))))
    && (until <= inp.now && effect.state.Claimed? ==>
          HandsOut(plan, inp, AskedMs(cfg, again.leaseDurationSeconds)) && Regranted(effect, plan.kind.effect))
    && (until <= inp.now && effect.state.InProgress? ==>
          plan.Persist? && plan.kind.EffectApplied? && GivenUp(effect, plan.kind.effect) &&
          plan.reply == Decided(Reconcile, plan.kind.effect, None, None))
  }

  /** A lease keeps out until it runs out: the common part of a grant and a renewal. */
  lemma LeaseKeepsOut(cfg: Config, h: seq<Logged>, n: nat, e: Uuid, until: int, scope: Scope, key: string,
                      again: AcquireRequest, inp: Inputs)
    requires Sound(h) && Grown(h) && n < |h| && About(h[n], e) && LastLease(h, n, e)
    requires h[n].kind.effect.leaseExpiresAtMs == Some(until)
    requires SameRequest(h[n].kind.effect, scope, key, again) && WellFormed(cfg, key, again)
    requires e in Folded(h).index.effectsById && HoldsLease(Folded(h).index.effectsById[e].state)
    ensures KeepsOut(cfg, Folded(h).index.effectsById[e], until, again, inp,
                     PlanOf(cfg, Folded(h).index, Acquire(scope, key, again), inp))
  {
    hide Inv, Folded, HistoryLegal, PlanAcquire, WellFormed, HandsOut, Regranted, GivenUp, Sha256Digest, Utf8, Print;
    assert h[..|h|] == h;
    LeaseStays(h, n, e);
    DigestStays(h, n, e);
    AcquireDecides(cfg, Folded(h).index, e, scope, key, again, inp);
  }

  /**
    A granted lease keeps others out for exactly as long as was asked. Wherever the history
    goes from the grant, while no later grant or renewal names the effect and it is still
    leased, a repeat of the request before that time waits for exactly the rest. From that
    time on it is granted the lease, one fence up, if the tool was not started, and sent to
    reconcile if it was.
   */
  lemma GrantKeepsOut(cfg: Config, h: seq<Logged>, n: nat, scope: Scope, key: string, first: AcquireRequest,
                      granted: Inputs, again: AcquireRequest, inp: Inputs)
    requires Sound(h) && Grown(h) && n < |h|
    requires var plan := PlanAcquire(cfg, Folded(h[..n]).index, scope, key, first, granted);
             GrantsLease(plan) && h[n].kind == plan.kind && plan.kind.EffectApplied? &&
             LastLease(h, n, plan.kind.effect.id) && plan.kind.effect.id in Folded(h).index.effectsById &&
             HoldsLease(Folded(h).index.effectsById[plan.kind.effect.id].state)
    requires again.scope == first.scope && again.input == first.input && again.toolName == first.toolName
    requires cfg.minLeaseMs <= AskedMs(cfg, again.leaseDurationSeconds) <= cfg.maxLeaseMs
    ensures var now := Folded(h).index.effectsById[h[n].kind.effect.id];
            KeepsOut(cfg, now, granted.now + AskedMs(cfg, first.leaseDurationSeconds), again, inp,
                     PlanOf(cfg, Folded(h).index, Acquire(scope, key, again), inp))
  {
    hide Inv, Folded, PlanAcquire, PlanOf, KeepsOut, HistoryLegal, Sha256Digest, Utf8, Print, LastLease;
    GrantSets(cfg, Folded(h[..n]).index, scope, key, first, granted);
    var until := granted.now + AskedMs(cfg, first.leaseDurationSeconds);
    LeaseKeepsOut(cfg, h, n, h[n].kind.effect.id, until, scope, key, again, inp);
  }

  /** What a grant writes: a lease for the time asked, on the request's own effect. */
  lemma GrantSets(cfg: Config, ix: Index, scope: Scope, key: string, req: AcquireRequest, inp: Inputs)
    requires Inv(ix) && GrantsLease(PlanAcquire(cfg, ix, scope, key, req, inp))
    ensures var plan := PlanAcquire(cfg, ix, scope, key, req, inp);
            HandsOut(plan, inp, AskedMs(cfg, req.leaseDurationSeconds)) &&
            SameRequest(plan.kind.effect, scope, key, req) && WellFormed(cfg, key, req)
  {
    hide WellFormed, PlanAcquire, Answers, HandsOut, Sha256Digest, Utf8, Print, RunsOk, CheckpointsOk, LeaseOk, OwnerOk;
    var k := EffectKey(scope.tenantId, scope.projectId, req.scope, key);
    AcquireRefusesIff(cfg, ix, scope, key, req, inp);
    if e :| e in ix.effectsById && EffectKeyOf(ix.effectsById[e]) == k {
      assert SameRequest(ix.effectsById[e], scope, key, req);
      AcquireDecides(cfg, ix, e, scope, key, req, inp);
      GrantAmongAnswers(cfg, ix.effectsById[e], scope, key, req, inp, PlanAcquire(cfg, ix, scope, key, req, inp));
    } else {
      AcquireCreates(cfg, ix, scope, key, req, inp);
    }
  }

  lemma GrantAmongAnswers(cfg: Config, effect: EffectRecord, scope: Scope, key: string, req: AcquireRequest,
                          inp: Inputs, plan: Plan)
    requires Answers(cfg, effect, req, inp, plan) && GrantsLease(plan) && SameRequest(effect, scope, key, req)
    ensures HandsOut(plan, inp, AskedMs(cfg, req.leaseDurationSeconds))
    ensures SameRequest(plan.kind.effect, scope, key, req)
  {
    hide Sha256Digest, Utf8, Print;
  }
}
