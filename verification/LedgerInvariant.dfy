/**
  What every operation keeps: event chains that verify, effect indexes that
  invert each other, effects that live in existing runs, leases exactly where
  they belong.  It follows that applying a planned record never meets corruption.
 */
module LedgerInvariant {
  import opened Basics
  import opened CanonicalJson
  import opened Digests
  import opened LedgerModel
  import opened LedgerIndexes
  import opened LedgerOps
  import opened EventChain

  // ----- The invariant -------------------------------------------------------------

  /** A run's record agrees with its timeline, and the timeline verifies. */
  predicate TimelineOk(run: RunRecord, events: seq<EventRecord>) {
    && run.lastEventSequence == |events|
    && run.headHash == HeadHash(events)
    && EventsFrom(events, run.id)
    && ChainOk(Views(events))
    && forall i :: 0 <= i < |events| ==> events[i].tenantId == run.tenantId && events[i].projectId == run.projectId
  }

  ghost predicate RunsOk(ix: Index) {
    && (forall r :: r in ix.runs ==> ix.runs[r].id == r && TimelineOk(ix.runs[r], EventsOf(ix, r)))
    && (forall r :: r in ix.events ==> r in ix.runs && ix.events[r] != [])
  }

  predicate CheckpointListOk(list: seq<CheckpointRecord>, run: RunRecord) {
    && list != []
    && (forall i :: 0 <= i < |list| ==> list[i].runId == run.id && 0 <= list[i].eventSequence <= run.lastEventSequence)
    && (forall i, j :: 0 <= i < j < |list| ==> list[i].id != list[j].id)
  }

  ghost predicate CheckpointsOk(ix: Index) {
    forall r :: r in ix.checkpoints ==> r in ix.runs && CheckpointListOk(ix.checkpoints[r], ix.runs[r])
  }

  /** A lease expiry and a lease token are present exactly while a lease is out. */
  predicate LeaseOk(e: EffectRecord) {
    && (e.leaseExpiresAtMs.Some? <==> HoldsLease(e.state))
    && (e.leaseTokenDigest.Some? <==> HoldsLease(e.state))
    && e.fencingToken >= 1
  }

  /** An effect's run exists, in the effect's own tenant and project. */
  predicate OwnerOk(runs: map<Uuid, RunRecord>, e: EffectRecord) {
    e.runId.Some? ==>
      && e.runId.value in runs
      && runs[e.runId.value].tenantId == e.tenantId
      && runs[e.runId.value].projectId == e.projectId
  }

  ghost predicate EffectsOk(ix: Index) {
    && KeysInverse(ix)
    && forall e :: e in ix.effectsById ==>
         && ix.effectsById[e].id == e
         && LeaseOk(ix.effectsById[e])
         && OwnerOk(ix.runs, ix.effectsById[e])
  }

  ghost predicate Inv(ix: Index) {
    RunsOk(ix) && CheckpointsOk(ix) && EffectsOk(ix)
  }

  lemma InvEmpty()
    ensures Inv(EmptyIndex)
  {
  }

  /** Whatever satisfies the invariant survives being listed and reloaded. */
  lemma InvListable(ix: Index)
    requires Inv(ix)
    ensures Listable(ix)
  {
    hide ChainOk, KeysInverse;
    forall r | r in ix.events ensures ix.events[r] != [] && EventsFrom(ix.events[r], r) {
      assert EventsOf(ix, r) == ix.events[r];
    }
    forall r | r in ix.checkpoints ensures ix.checkpoints[r] != [] && CheckpointsFrom(ix.checkpoints[r], r) {
      assert ix.runs[r].id == r;
    }
  }

  // ----- Records that fit ----------------------------------------------------------------

  /** The next event of an existing run, correctly numbered, chained and hashed. */
  predicate NextEvent(ix: Index, e: EventRecord) {
    && e.runId in ix.runs
    && e.tenantId == ix.runs[e.runId].tenantId
    && e.projectId == ix.runs[e.runId].projectId
    && e.sequence == ix.runs[e.runId].lastEventSequence + 1
    && e.previousHash == ix.runs[e.runId].headHash
    && e.hash == ComputeEventHash(View(e))
  }

  /** The effect's key is its own: taken over from its last version, or not taken at all. */
  predicate KeyFits(ix: Index, e: EffectRecord) {
    if e.id in ix.effectsById then EffectKeyOf(ix.effectsById[e.id]) == EffectKeyOf(e)
    else EffectKeyOf(e) !in ix.effectIds
  }

  ghost predicate Fits(ix: Index, kind: RecordKind) {
    match kind
    case RunCreated(run) => run.id !in ix.runs && run.lastEventSequence == 0 && run.headHash == GenesisHash
    case RunUpdated(run) =>
      && run.id in ix.runs
      && run.tenantId == ix.runs[run.id].tenantId
      && run.projectId == ix.runs[run.id].projectId
      && run.lastEventSequence == ix.runs[run.id].lastEventSequence
      && run.headHash == ix.runs[run.id].headHash
    case EffectApplied(effect, event) =>
      && LeaseOk(effect)
      && OwnerOk(ix.runs, effect)
      && KeyFits(ix, effect)
      && (event.Some? <==> effect.runId.Some?)
      && (event.Some? ==> event.value.runId == effect.runId.value && NextEvent(ix, event.value))
    case EventAppended(e) => NextEvent(ix, e)
    case CheckpointCreated(c) => c.runId in ix.runs && 0 <= c.eventSequence <= ix.runs[c.runId].lastEventSequence
    case RetentionApplied(_, runIds, effectIds) =>
      forall e :: e in ix.effectsById && ix.effectsById[e].runId.Some? && ix.effectsById[e].runId.value in runIds ==> e in effectIds
  }

  lemma HeadOfViews(events: seq<EventRecord>)
    ensures Head(Views(events)) == HeadHash(events)
  {
  }

  lemma ViewsAppend(events: seq<EventRecord>, e: EventRecord)
    ensures Views(events + [e]) == Views(events) + [View(e)]
  {
  }

  lemma TimelineAppend(run: RunRecord, events: seq<EventRecord>, e: EventRecord)
    requires TimelineOk(run, events)
    requires e.runId == run.id && e.tenantId == run.tenantId && e.projectId == run.projectId
    requires e.sequence == run.lastEventSequence + 1 && e.previousHash == run.headHash &&
             e.hash == ComputeEventHash(View(e))
    ensures TimelineOk(run.(lastEventSequence := e.sequence, headHash := e.hash), events + [e])
  {
    hide ComputeEventHash, ChainOk, Views;
    HeadOfViews(events);
    ViewsAppend(events, e);
    ChainAppend(Views(events), View(e));
  }

  /** A fitting event is accepted: only its run's record and timeline change. */
  lemma EventAccepted(ix: Index, e: EventRecord)
    requires RunsOk(ix) && NextEvent(ix, e)
    ensures ApplyEventRecord(ix, e) == Applied(
              ix.(runs := ix.runs[e.runId := ix.runs[e.runId].(lastEventSequence := e.sequence, headHash := e.hash)],
                  events := ix.events[e.runId := EventsOf(ix, e.runId) + [e]]),
              None)
  {
    hide ComputeEventHash, TimelineOk, HeadHash;
    TimelineLength(ix.runs[e.runId], EventsOf(ix, e.runId));
  }

  lemma EventKeepsRuns(ix: Index, e: EventRecord)
    requires RunsOk(ix) && NextEvent(ix, e)
    ensures RunsOk(ApplyEventRecord(ix, e).index)
  {
    hide ComputeEventHash, TimelineOk, ApplyEventRecord;
    EventAccepted(ix, e);
    TimelineAppend(ix.runs[e.runId], EventsOf(ix, e.runId), e);
    var after := ApplyEventRecord(ix, e).index;
    forall r | r in after.runs ensures after.runs[r].id == r && TimelineOk(after.runs[r], EventsOf(after, r)) {
      if r != e.runId {
        assert EventsOf(after, r) == EventsOf(ix, r);
      }
    }
  }

  lemma EventKeepsCheckpoints(ix: Index, e: EventRecord)
    requires RunsOk(ix) && CheckpointsOk(ix) && NextEvent(ix, e)
    ensures CheckpointsOk(ApplyEventRecord(ix, e).index)
  {
    hide ComputeEventHash, RunsOk, ApplyEventRecord;
    EventAccepted(ix, e);
    var after := ApplyEventRecord(ix, e).index;
    forall r | r in after.checkpoints ensures r in after.runs && CheckpointListOk(after.checkpoints[r], after.runs[r]) {
      assert CheckpointListOk(ix.checkpoints[r], ix.runs[r]);
    }
  }

  /** Appending a fitting event succeeds and keeps the whole invariant. */
  lemma EventKeepsInv(ix: Index, e: EventRecord)
    requires Inv(ix) && NextEvent(ix, e)
    ensures ApplyEventRecord(ix, e).error.None?
    ensures Inv(ApplyEventRecord(ix, e).index)
  {
    hide ComputeEventHash, RunsOk, CheckpointsOk, EffectsOk, ApplyEventRecord;
    EventAccepted(ix, e);
    EventKeepsRuns(ix, e);
    EventKeepsCheckpoints(ix, e);
    EffectsKept(ix, ApplyEventRecord(ix, e).index);
  }

  lemma TimelineLength(run: RunRecord, events: seq<EventRecord>)
    requires TimelineOk(run, events)
    ensures run.lastEventSequence == |events| && run.headHash == HeadHash(events)
  {
  }

  /** Storing a fitting effect keeps the two effect indexes inverse. */
  lemma PutKeepsEffects(ix: Index, e: EffectRecord)
    requires EffectsOk(ix) && LeaseOk(e) && OwnerOk(ix.runs, e) && KeyFits(ix, e)
    ensures EffectsOk(PutEffect(ix, e))
  {
    hide LeaseOk, OwnerOk, EffectKeyOf;
    var after := PutEffect(ix, e);
    forall x | x in after.effectsById
      ensures EffectKeyOf(after.effectsById[x]) in after.effectIds &&
              after.effectIds[EffectKeyOf(after.effectsById[x])] == x
    {
    }
    forall k | k in after.effectIds
      ensures after.effectIds[k] in after.effectsById && EffectKeyOf(after.effectsById[after.effectIds[k]]) == k
    {
    }
  }

  /** Effects stay in order as long as no run disappears or moves to another tenant or project. */
  lemma EffectsKept(ix: Index, after: Index)
    requires EffectsOk(ix) && after.effectsById == ix.effectsById && after.effectIds == ix.effectIds
    requires forall r :: r in ix.runs ==>
               r in after.runs && after.runs[r].tenantId == ix.runs[r].tenantId &&
               after.runs[r].projectId == ix.runs[r].projectId
    ensures EffectsOk(after)
  {
    hide LeaseOk, EffectKeyOf;
    forall e | e in after.effectsById ensures OwnerOk(after.runs, after.effectsById[e]) {
      assert OwnerOk(ix.runs, ix.effectsById[e]);
    }
  }

  lemma EmptyTimeline(run: RunRecord)
    requires run.lastEventSequence == 0 && run.headHash == GenesisHash
    ensures TimelineOk(run, [])
  {
  }

  lemma RunCreatedKeepsInv(ix: Index, run: RunRecord)
    requires Inv(ix) && Fits(ix, RunCreated(run))
    ensures Inv(ix.(runs := ix.runs[run.id := run]))
  {
    hide EffectsOk, TimelineOk, CheckpointListOk;
    var after := ix.(runs := ix.runs[run.id := run]);
    EmptyTimeline(run);
    forall r | r in after.runs ensures after.runs[r].id == r && TimelineOk(after.runs[r], EventsOf(after, r)) {
      assert EventsOf(after, r) == if r == run.id then [] else EventsOf(ix, r);
    }
    EffectsKept(ix, after);
  }

  lemma RunUpdatedKeepsInv(ix: Index, run: RunRecord)
    requires Inv(ix) && Fits(ix, RunUpdated(run))
    ensures Inv(ix.(runs := ix.runs[run.id := run]))
  {
    hide ChainOk, EventsFrom, HeadHash, EffectsOk;
    var after := ix.(runs := ix.runs[run.id := run]);
    assert RunsOk(after) by {
      forall r | r in after.runs ensures after.runs[r].id == r && TimelineOk(after.runs[r], EventsOf(after, r)) {
        assert EventsOf(after, r) == EventsOf(ix, r);
        assert TimelineOk(ix.runs[r], EventsOf(ix, r));
      }
    }
    hide TimelineOk, RunsOk;
    forall r | r in after.checkpoints ensures r in after.runs && CheckpointListOk(after.checkpoints[r], after.runs[r]) {
      assert CheckpointListOk(ix.checkpoints[r], ix.runs[r]);
    }
    EffectsKept(ix, after);
  }

  lemma PutKeepsInv(ix: Index, e: EffectRecord)
    requires Inv(ix) && LeaseOk(e) && OwnerOk(ix.runs, e) && KeyFits(ix, e)
    ensures Inv(PutEffect(ix, e))
  {
    hide TimelineOk, CheckpointListOk, LeaseOk, KeyFits, OwnerOk, EffectsOk;
    var put := PutEffect(ix, e);
    PutKeepsEffects(ix, e);
    forall r | r in put.runs ensures put.runs[r].id == r && TimelineOk(put.runs[r], EventsOf(put, r)) {
      assert EventsOf(put, r) == EventsOf(ix, r);
    }
  }

  lemma EffectAppliedKeepsInv(ix: Index, effect: EffectRecord, event: Option<EventRecord>)
    requires Inv(ix) && Fits(ix, EffectApplied(effect, event))
    ensures ApplyRecord(ix, EffectApplied(effect, event)).error.None?
    ensures Inv(ApplyRecord(ix, EffectApplied(effect, event)).index)
  {
    hide Inv, LeaseOk, KeyFits, OwnerOk, ComputeEventHash, ApplyEventRecord;
    PutKeepsInv(ix, effect);
    if event.Some? {
      EventKeepsInv(PutEffect(ix, effect), event.value);
    }
  }

  lemma CheckpointKeepsInv(ix: Index, c: CheckpointRecord)
    requires Inv(ix) && Fits(ix, CheckpointCreated(c))
    ensures Inv(AddCheckpoint(ix, c))
  {
    hide TimelineOk, EffectsOk;
    var after := AddCheckpoint(ix, c);
    assert RunsOk(after) by {
      forall r | r in after.runs ensures after.runs[r].id == r && TimelineOk(after.runs[r], EventsOf(after, r)) {
        assert EventsOf(after, r) == EventsOf(ix, r);
      }
    }
    EffectsKept(ix, after);
    CheckpointListGrows(ix, c);
  }

  lemma CheckpointListGrows(ix: Index, c: CheckpointRecord)
    requires CheckpointsOk(ix) && c.runId in ix.runs && ix.runs[c.runId].id == c.runId
    requires 0 <= c.eventSequence <= ix.runs[c.runId].lastEventSequence
    ensures CheckpointsOk(AddCheckpoint(ix, c))
  {
    var list := CheckpointsOf(ix, c.runId);
    var after := AddCheckpoint(ix, c);
    assert c.runId in ix.checkpoints ==> CheckpointListOk(list, ix.runs[c.runId]);
    forall r | r in after.checkpoints ensures r in after.runs && CheckpointListOk(after.checkpoints[r], after.runs[r]) {
      if r != c.runId {
        assert CheckpointListOk(ix.checkpoints[r], ix.runs[r]);
      }
    }
  }

  lemma PruneKeepsInv(ix: Index, runIds: seq<Uuid>, effectIds: seq<Uuid>, cutoff: int)
    requires Inv(ix) && Fits(ix, RetentionApplied(cutoff, runIds, effectIds))
    ensures Inv(Prune(ix, Elements(runIds), Elements(effectIds)))
  {
    hide TimelineOk, CheckpointListOk, LeaseOk;
    var after := Prune(ix, Elements(runIds), Elements(effectIds));
    assert RunsOk(after) by {
      forall r | r in after.runs ensures after.runs[r].id == r && TimelineOk(after.runs[r], EventsOf(after, r)) {
        assert EventsOf(after, r) == EventsOf(ix, r);
      }
    }
    PruneKeepsKeys(ix, Elements(runIds), Elements(effectIds));
    forall e | e in after.effectsById ensures OwnerOk(after.runs, after.effectsById[e]) {
      assert OwnerOk(ix.runs, ix.effectsById[e]);
    }
  }

  lemma PruneKeepsKeys(ix: Index, runIds: set<Uuid>, effectIds: set<Uuid>)
    requires KeysInverse(ix)
    ensures KeysInverse(Prune(ix, runIds, effectIds))
  {
    hide EffectKeyOf;
    var after := Prune(ix, runIds, effectIds);
    forall e | e in after.effectsById
      ensures EffectKeyOf(after.effectsById[e]) in after.effectIds &&
              after.effectIds[EffectKeyOf(after.effectsById[e])] == e
    {
    }
  }

  /** A record that fits is applied without corruption, and the invariant holds after it. */
  lemma FitsKeepsInv(ix: Index, kind: RecordKind)
    requires Inv(ix) && Fits(ix, kind)
    ensures ApplyRecord(ix, kind).error.None?
    ensures Inv(ApplyRecord(ix, kind).index)
  {
    match kind
    case RunCreated(run) => RunCreatedKeepsInv(ix, run);
    case RunUpdated(run) => RunUpdatedKeepsInv(ix, run);
    case EffectApplied(effect, event) => EffectAppliedKeepsInv(ix, effect, event);
    case EventAppended(e) => EventKeepsInv(ix, e);
    case CheckpointCreated(c) => CheckpointKeepsInv(ix, c);
    case RetentionApplied(cutoff, runIds, effectIds) => PruneKeepsInv(ix, runIds, effectIds, cutoff);
  }

  // ----- Every planned record fits ------------------------------------------------------------

  /** The identifiers a call mints are new to the indexes. */
  predicate FreshFor(ix: Index, inp: Inputs) {
    inp.newId !in ix.effectsById && inp.newId !in ix.runs
  }

  lemma BuiltEventFits(ix: Index, scope: Scope, runId: Uuid, eventId: Uuid, eventType: string, occurredAt: int,
                       payload: Json, now: int)
    requires RunsOk(ix) && RunInScope(ix, scope, runId).Some?
    ensures NextEvent(ix, BuildEvent(scope, ix.runs[runId], eventId, eventType, occurredAt, payload, now))
  {
    hide ComputeEventHash;
    var e := BuildEvent(scope, ix.runs[runId], eventId, eventType, occurredAt, payload, now);
    HashIgnoresHash(View(e.(hash := "")), e.hash);
  }

  /** The hash does not cover itself. */
  lemma HashIgnoresHash(e: Event, hash: string)
    ensures ComputeEventHash(e.(hash := hash)) == ComputeEventHash(e)
  {
    var f := e.(hash := hash);
    assert HashedFields(f) == HashedFields(e);
    assert HashInput(f) == HashInput(e);
  }

  lemma PersistEffectFits(ix: Index, scope: Scope, effect: EffectRecord, eventType: string, detail: Json, inp: Inputs,
                          reply: Reply)
    requires Inv(ix) && LeaseOk(effect) && OwnerOk(ix.runs, effect) && KeyFits(ix, effect)
    requires effect.tenantId == scope.tenantId && effect.projectId == scope.projectId
    ensures var plan := PersistEffect(ix, scope, effect, eventType, detail, inp, reply);
            plan.Persist? && plan.kind.EffectApplied? && plan.kind.effect == effect && plan.reply == reply &&
            Fits(ix, plan.kind)
  {
    hide ComputeEventHash, RunsOk, CheckpointsOk, EffectsOk, EffectEventPayload, BuildEvent, NextEvent, LeaseOk, KeyFits;
    if effect.runId.Some? {
      BuiltEventFits(ix, scope, effect.runId.value, inp.eventId, eventType, inp.now, EffectEventPayload(effect, detail), inp.now);
      BuiltEventRun(ix, scope, effect.runId.value, inp.eventId, eventType, inp.now, EffectEventPayload(effect, detail), inp.now);
    }
  }

  lemma BuiltEventRun(ix: Index, scope: Scope, runId: Uuid, eventId: Uuid, eventType: string, occurredAt: int,
                      payload: Json, now: int)
    requires RunsOk(ix) && runId in ix.runs
    ensures BuildEvent(scope, ix.runs[runId], eventId, eventType, occurredAt, payload, now).runId == runId
  {
  }

  lemma AcquireFits(cfg: Config, ix: Index, scope: Scope, key: string, req: AcquireRequest, inp: Inputs)
    requires Inv(ix) && FreshFor(ix, inp)
    ensures var plan := PlanAcquire(cfg, ix, scope, key, req, inp);
            plan.Persist? ==> Fits(ix, plan.kind)
  {
    hide RunsOk, CheckpointsOk, PersistEffect, Fits, Sha256Digest, Utf8, InvalidEffectField, Print, NextEvent;
    var k := EffectKey(scope.tenantId, scope.projectId, req.scope, key);
    var lease := ResolveLeaseMs(cfg, req.leaseDurationSeconds);
    if lease.Some? {
      match EffectByKey(ix, k)
      case None =>
        if !(req.runId.Some? && RunInScope(ix, scope, req.runId.value).None?) {
          var digest := Sha256Digest(Utf8(Print(req.input)));
          var effect := NewEffect(scope, key, req, digest, lease.value, inp);
          PersistEffectFits(ix, scope, effect, "effect.acquired", Detail(Null, "claimed"), inp,
                            Decided(Execute, effect, Some(inp.leaseToken), None));
        }
      case Some(effect) =>
        if effect.toolName == req.toolName {
          ExistingFits(ix, scope, effect, req, lease.value, inp);
        }
    }
  }

  lemma ExistingFits(ix: Index, scope: Scope, effect: EffectRecord, req: AcquireRequest, leaseMs: int, inp: Inputs)
    requires Inv(ix) && effect.id in ix.effectsById && ix.effectsById[effect.id] == effect
    requires effect.tenantId == scope.tenantId && effect.projectId == scope.projectId && effect.toolName == req.toolName
    ensures var plan := PlanExisting(ix, scope, effect, req, leaseMs, inp);
            plan.Persist? ==> Fits(ix, plan.kind)
  {
    hide RunsOk, CheckpointsOk, PersistEffect, Fits, Sha256Digest, Utf8, Detail, DetailWithReason;
    if effect.state.InProgress? {
      var next := Expired(effect, inp.now);
      PersistEffectFits(ix, scope, next, "effect.outcome_unknown",
                        DetailWithReason("in_progress", "outcome_unknown", "lease_expired"), inp, Decided(Reconcile, next, None, None));
    } else {
      var next := Reacquired(effect, req, leaseMs, inp);
      PersistEffectFits(ix, scope, next, "effect.reacquired", Detail(String("failed_retryable"), "claimed"), inp,
                        Decided(Execute, next, Some(inp.leaseToken), None));
      PersistEffectFits(ix, scope, next, "effect.reacquired", DetailWithReason("claimed", "claimed", "lease_expired"), inp,
                        Decided(Execute, next, Some(inp.leaseToken), None));
    }
  }

  /** A legal transition keeps an effect's identity, and its lease where a lease belongs. */
  lemma TransitionedKeepsLease(cfg: Config, effect: EffectRecord, req: UpdateRequest, now: int)
    requires LeaseOk(effect) && Legal(req.transition, effect.state)
    requires Transitioned(cfg, effect, req, now).Some?
    ensures var next := Transitioned(cfg, effect, req, now).value;
            && LeaseOk(next)
            && next.id == effect.id && next.runId == effect.runId && EffectKeyOf(next) == EffectKeyOf(effect)
            && next.fencingToken == effect.fencingToken
  {
    hide ResolveLeaseMs;
  }

  lemma TransitionFits(cfg: Config, ix: Index, scope: Scope, id: Uuid, req: UpdateRequest, canReconcile: bool,
                       inp: Inputs)
    requires Inv(ix)
    ensures var plan := PlanTransition(cfg, ix, scope, id, req, canReconcile, inp);
            plan.Persist? ==> Fits(ix, plan.kind)
  {
    hide RunsOk, CheckpointsOk, PersistEffect, Fits, Unauthorized, Transitioned, Legal, LeaseOk;
    if EffectInScope(ix, scope, id).Some? {
      var effect := ix.effectsById[id];
      var moved := Transitioned(cfg, effect, req, inp.now);
      if Legal(req.transition, effect.state) && moved.Some? {
        var next := moved.value;
        TransitionedKeepsLease(cfg, effect, req, inp.now);
        var detail := Object(map[
          "from" := String(StatusName(effect.state)),
          "to" := String(StatusName(next.state)),
          "transition" := String(TransitionName(req.transition))]);
        PersistEffectFits(ix, scope, next, EventTypeOf(req.transition), detail, inp, EffectReply(next));
      }
    }
  }

  lemma RetentionFits(ix: Index, maxAgeMs: int, now: int)
    requires Inv(ix)
    ensures var plan := PlanRetention(ix, maxAgeMs, now);
            plan.Persist? ==> Fits(ix, plan.kind)
  {
    hide SortedKeys, CountEvents, RunsOk, CheckpointsOk;
    var cutoff := Cutoff(maxAgeMs, now);
    var runIds := SortedKeys(PrunedRuns(ix, cutoff));
    var effectIds := SortedKeys(PrunedEffects(ix, cutoff));
    forall e | e in ix.effectsById && ix.effectsById[e].runId.Some? && ix.effectsById[e].runId.value in runIds
      ensures e in effectIds
    {
      assert ix.effectsById[e].runId.value in PrunedRuns(ix, cutoff);
      assert PrunesEffect(ix.effectsById[e], cutoff, PrunedRuns(ix, cutoff));
      assert e in PrunedEffects(ix, cutoff);
    }
  }

  lemma RunPlanFits(cfg: Config, ix: Index, op: Operation, inp: Inputs)
    requires Inv(ix) && FreshFor(ix, inp)
    requires !op.Acquire? && !op.Transition? && !op.ApplyRetention?
    ensures var plan := PlanOf(cfg, ix, op, inp);
            plan.Persist? ==> Fits(ix, plan.kind)
  {
    hide CheckpointsOk, EffectsOk, TimelineOk, BuildEvent, LengthWithin, NextEvent, Print, Utf8, Sha256Digest;
    if op.AppendEvent? && RunInScope(ix, op.scope, op.runId).Some? {
      BuiltEventFits(ix, op.scope, op.runId, inp.eventId, op.eventType, op.occurredAtMs, op.payload, inp.now);
    }
  }

  /** Whatever an operation decides to persist fits the indexes it was decided on. */
  lemma PlanFits(cfg: Config, ix: Index, op: Operation, inp: Inputs)
    requires Inv(ix) && FreshFor(ix, inp)
    ensures var plan := PlanOf(cfg, ix, op, inp);
            plan.Persist? ==> Fits(ix, plan.kind)
  {
    hide Inv, Fits, PlanAcquire, PlanTransition, PlanRetention;
    match op
    case Acquire(scope, key, req) => AcquireFits(cfg, ix, scope, key, req, inp);
    case Transition(scope, id, req, canReconcile) => TransitionFits(cfg, ix, scope, id, req, canReconcile, inp);
    case ApplyRetention(maxAgeMs) => RetentionFits(ix, maxAgeMs, inp.now);
    case _ => RunPlanFits(cfg, ix, op, inp);
  }

  /** Applying a record after it was appended to the log never fails, and keeps the invariant. */
  lemma PersistNeverFails(cfg: Config, ix: Index, op: Operation, inp: Inputs)
    requires Inv(ix) && FreshFor(ix, inp) && PlanOf(cfg, ix, op, inp).Persist?
    ensures ApplyRecord(ix, PlanOf(cfg, ix, op, inp).kind).error.None?
    ensures Inv(ApplyRecord(ix, PlanOf(cfg, ix, op, inp).kind).index)
  {
    hide Inv, Fits, PlanOf, ApplyRecord;
    PlanFits(cfg, ix, op, inp);
    FitsKeepsInv(ix, PlanOf(cfg, ix, op, inp).kind);
  }
}
