/**
  Single execution over whole histories: what the fencing token counts, when a
  new lease may be granted, and why a terminal effect is final.

  All statements are about one effect id, over every history the system can
  produce.  Under `Always` that history holds every decision ever returned; otherwise it
  holds those that survived the crashes so far.
 */
module LedgerSafety {
  import opened Basics
  import opened CanonicalJson
  import opened Digests
  import opened LedgerModel
  import opened LogPositions
  import opened LedgerIndexes
  import opened LedgerOps
  import opened LedgerInvariant
  import opened LedgerSystem
  import opened LedgerRecovery

  predicate About(l: Logged, e: Uuid) {
    l.kind.EffectApplied? && l.kind.effect.id == e
  }

  /** An `execute` decision: a lease was granted on the effect. */
  predicate IsGrant(l: Logged, e: Uuid) {
    About(l, e) && l.cause.Granted?
  }

  predicate IsMove(l: Logged, e: Uuid, t: EffectTransition) {
    About(l, e) && l.cause == Moved(t)
  }

  function Grants(h: seq<Logged>, e: Uuid): nat {
    if h == [] then 0 else Grants(h[..|h| - 1], e) + if IsGrant(h[|h| - 1], e) then 1 else 0
  }

  // ----- What one record may do to an effect ---------------------------------------------

  function TargetState(t: EffectTransition, from: EffectStatus): EffectStatus {
    match t
    case Start => InProgress
    case Renew => from
    case Commit => Committed
    case FailRetryable => FailedRetryable
    case FailTerminal => FailedTerminal
    case MarkOutcomeUnknown => OutcomeUnknown
    case ReconcileCommitted => ReconciledCommitted
    case ReconcileFailed => ReconciledFailed
  }

  /** The state machine of one effect: creation, reacquisition, lapse, or a worker's or reconciler's move. */
  predicate EffectStep(was: Option<EffectRecord>, becomes: EffectRecord, cause: Cause) {
    match was
    case None => cause.Granted? && becomes.state.Claimed? && becomes.fencingToken == 1
    case Some(o) =>
      && becomes.id == o.id
      && EffectKeyOf(becomes) == EffectKeyOf(o)
      && becomes.inputDigest == o.inputDigest
      && becomes.toolName == o.toolName
      && (match cause
          case Granted =>
            && (o.state.Claimed? || o.state.FailedRetryable?)
            && becomes.state.Claimed?
            && becomes.fencingToken == o.fencingToken + 1
          case Lapsed => o.state.InProgress? && becomes.state.OutcomeUnknown? && becomes.fencingToken == o.fencingToken
          case Moved(t) =>
            && Legal(t, o.state)
            && becomes.state == TargetState(t, o.state)
            && becomes.fencingToken == o.fencingToken
            && (t.Start? ==> becomes.leaseExpiresAtMs == o.leaseExpiresAtMs && becomes.leaseDurationMs == o.leaseDurationMs)
            && (t.Start? || t.Renew? ==> becomes.leaseTokenDigest == o.leaseTokenDigest)
          case OtherCause => false)
  }

  function Stored(ix: Index, e: Uuid): Option<EffectRecord> {
    if e in ix.effectsById then Some(ix.effectsById[e]) else None
  }

  /** The last record follows the effect's state machine, and creates only effects never heard of. */
  ghost predicate LastLegal(h: seq<Logged>)
    requires h != []
  {
    var front, last := h[..|h| - 1], h[|h| - 1];
    if last.kind.EffectApplied? then
      var e := last.kind.effect;
      var was := Stored(Folded(front).index, e.id);
      EffectStep(was, e, last.cause) && (was.None? ==> NeverUsed(front, e.id))
    else last.cause.OtherCause?
  }

  ghost predicate HistoryLegal(h: seq<Logged>) {
    forall n :: 0 < n <= |h| ==> LastLegal(h[..n])
  }

  // ----- Every run produces legal histories ---------------------------------------------------

  lemma PersistEffectKind(ix: Index, scope: Scope, effect: EffectRecord, eventType: string, detail: Json, inp: Inputs,
                          reply: Reply)
    ensures var plan := PersistEffect(ix, scope, effect, eventType, detail, inp, reply);
            plan.Persist? ==> plan.kind.EffectApplied? && plan.kind.effect == effect && plan.reply == reply
  {
    hide BuildEvent, EffectEventPayload;
  }

  lemma ReacquiredStep(effect: EffectRecord, req: AcquireRequest, leaseMs: int, inp: Inputs)
    requires effect.state.Claimed? || effect.state.FailedRetryable?
    requires effect.toolName == req.toolName
    ensures EffectStep(Some(effect), Reacquired(effect, req, leaseMs, inp), Granted)
  {
    hide Sha256Digest, Utf8;
  }

  lemma ExpiredStep(effect: EffectRecord, now: int)
    requires effect.state.InProgress?
    ensures EffectStep(Some(effect), Expired(effect, now), Lapsed)
  {
  }

  lemma ExistingStep(ix: Index, scope: Scope, effect: EffectRecord, req: AcquireRequest, leaseMs: int, inp: Inputs)
    requires Stored(ix, effect.id) == Some(effect) && effect.toolName == req.toolName
    ensures var plan := PlanExisting(ix, scope, effect, req, leaseMs, inp);
            plan.Persist? ==>
              && plan.kind.EffectApplied?
              && plan.kind.effect.id == effect.id
              && plan.reply.Decided?
              && EffectStep(Some(effect), plan.kind.effect, if plan.reply.decision.Execute? then Granted else Lapsed)
  {
    hide PersistEffect, Detail, DetailWithReason, EffectStep, Reacquired, Expired;
    var next := Reacquired(effect, req, leaseMs, inp);
    var gone := Expired(effect, inp.now);
    if effect.state.Claimed? || effect.state.FailedRetryable? {
      ReacquiredStep(effect, req, leaseMs, inp);
      SameIdentity(effect, next, Granted);
    } else if effect.state.InProgress? {
      ExpiredStep(effect, inp.now);
      SameIdentity(effect, gone, Lapsed);
    }
    PersistEffectKind(ix, scope, next, "effect.reacquired", Detail(String("failed_retryable"), "claimed"), inp,
                      Decided(Execute, next, Some(inp.leaseToken), None));
    PersistEffectKind(ix, scope, next, "effect.reacquired", DetailWithReason("claimed", "claimed", "lease_expired"), inp,
                      Decided(Execute, next, Some(inp.leaseToken), None));
    PersistEffectKind(ix, scope, gone, "effect.outcome_unknown", DetailWithReason("in_progress", "outcome_unknown", "lease_expired"), inp,
                      Decided(Reconcile, gone, None, None));
  }

  lemma SameIdentity(effect: EffectRecord, becomes: EffectRecord, cause: Cause)
    requires EffectStep(Some(effect), becomes, cause)
    ensures becomes.id == effect.id && EffectKeyOf(becomes) == EffectKeyOf(effect)
    ensures becomes.inputDigest == effect.inputDigest
  {
  }

  lemma AcquireStep(cfg: Config, ix: Index, scope: Scope, key: string, req: AcquireRequest, inp: Inputs)
    requires EffectsOk(ix) && inp.newId !in ix.effectsById
    ensures var plan := PlanAcquire(cfg, ix, scope, key, req, inp);
            plan.Persist? ==>
              && plan.kind.EffectApplied?
              && EffectStep(Stored(ix, plan.kind.effect.id), plan.kind.effect, CauseOf(Acquire(scope, key, req), plan.reply))
              && (plan.kind.effect.id in ix.effectsById || plan.kind.effect.id == inp.newId)
  {
    hide PersistEffect, PlanExisting, InvalidEffectField, Sha256Digest, Utf8, Print, Detail, LeaseOk, OwnerOk;
    var lease := ResolveLeaseMs(cfg, req.leaseDurationSeconds);
    if lease.Some? {
      match EffectByKey(ix, EffectKey(scope.tenantId, scope.projectId, req.scope, key))
      case None =>
        var effect := NewEffect(scope, key, req, Sha256Digest(Utf8(Print(req.input))), lease.value, inp);
        PersistEffectKind(ix, scope, effect, "effect.acquired", Detail(Null, "claimed"), inp,
                          Decided(Execute, effect, Some(inp.leaseToken), None));
      case Some(effect) =>
        if effect.toolName == req.toolName {
          ExistingStep(ix, scope, effect, req, lease.value, inp);
        }
    }
  }

  lemma TransitionStep(cfg: Config, ix: Index, scope: Scope, id: Uuid, req: UpdateRequest, canReconcile: bool,
                       inp: Inputs)
    requires EffectsOk(ix)
    ensures var plan := PlanTransition(cfg, ix, scope, id, req, canReconcile, inp);
            plan.Persist? ==>
              && plan.kind.EffectApplied?
              && plan.kind.effect.id == id && id in ix.effectsById
              && EffectStep(Stored(ix, id), plan.kind.effect, Moved(req.transition))
  {
    hide PersistEffect, Unauthorized, Transitioned, LeaseOk, OwnerOk, Legal;
    if EffectInScope(ix, scope, id).Some? {
      var effect := ix.effectsById[id];
      var moved := Transitioned(cfg, effect, req, inp.now);
      if moved.Some? {
        var next := moved.value;
        TransitionedTarget(cfg, effect, req, inp.now);
        var detail := Object(map[
          "from" := String(StatusName(effect.state)),
          "to" := String(StatusName(next.state)),
          "transition" := String(TransitionName(req.transition))]);
        PersistEffectKind(ix, scope, next, EventTypeOf(req.transition), detail, inp, EffectReply(next));
      }
    }
  }

  lemma TransitionedTarget(cfg: Config, effect: EffectRecord, req: UpdateRequest, now: int)
    requires Transitioned(cfg, effect, req, now).Some?
    ensures var next := Transitioned(cfg, effect, req, now).value;
            next.id == effect.id && next.fencingToken == effect.fencingToken &&
            EffectKeyOf(next) == EffectKeyOf(effect) && next.inputDigest == effect.inputDigest &&
            next.toolName == effect.toolName &&
            (req.transition.Start? ==>
               next.leaseExpiresAtMs == effect.leaseExpiresAtMs && next.leaseDurationMs == effect.leaseDurationMs) &&
            (req.transition.Start? || req.transition.Renew? ==> next.leaseTokenDigest == effect.leaseTokenDigest) &&
            next.state == TargetState(req.transition, effect.state)
  {
    hide ResolveLeaseMs;
  }

  lemma OtherStep(cfg: Config, ix: Index, op: Operation, inp: Inputs)
    requires !op.Acquire? && !op.Transition?
    ensures var plan := PlanOf(cfg, ix, op, inp);
            plan.Persist? ==> !plan.kind.EffectApplied? && CauseOf(op, plan.reply).OtherCause?
  {
    hide BuildEvent, LengthWithin, Sha256Digest, Utf8, Print, SortedKeys;
  }

  lemma DoLegal(cfg: Config, s: System, op: Operation, inp: Inputs, told: bool)
    requires SystemInv(s) && s.memory.Up? && NeverUsed(s.history, inp.newId) && HistoryLegal(s.history)
    ensures HistoryLegal(HistoryAfter(cfg, s, op, inp, told))
  {
    hide Inv, PlanAcquire, PlanTransition, ApplyRecord, Folded, EffectStep, LogOk, SnapshotOk, NeverUsed;
    var plan := PlanOf(cfg, s.memory.index, op, inp);
    if plan.Persist? {
      var h, entry := s.history, EntryOf(op, plan, told);
      InvEffects(s.memory.index);
      IdsComeFromHistory(h, inp.newId);
      if op.Acquire? {
        AcquireStep(cfg, s.memory.index, op.scope, op.idempotencyKey, op.acquire, inp);
      } else if op.Transition? {
        TransitionStep(cfg, s.memory.index, op.scope, op.effectId, op.update, op.canReconcile, inp);
      } else {
        OtherStep(cfg, s.memory.index, op, inp);
      }
      assert (h + [entry])[..|h|] == h;
      assert LastLegal(h + [entry]);
      LegalAppend(h, entry);
    }
  }

  lemma InvEffects(ix: Index)
    requires Inv(ix)
    ensures EffectsOk(ix)
  {
  }

  lemma LegalAppend(h: seq<Logged>, e: Logged)
    requires HistoryLegal(h) && LastLegal(h + [e])
    ensures HistoryLegal(h + [e])
  {
    hide LastLegal;
    var g := h + [e];
    forall n | 0 < n <= |g| ensures LastLegal(g[..n]) {
      if n == |g| {
        assert g[..n] == g;
      } else {
        assert g[..n] == h[..n];
      }
    }
  }

  lemma LegalPrefix(h: seq<Logged>, n: nat)
    requires HistoryLegal(h) && n <= |h|
    ensures HistoryLegal(h[..n])
  {
    hide LastLegal;
    forall m | 0 < m <= n ensures LastLegal(h[..n][..m]) {
      assert h[..n][..m] == h[..m];
    }
  }

  lemma {:induction false} RunLegal(cfg: Config, strategy: Strategy, steps: seq<Step>)
    requires Possible(cfg, strategy, steps)
    ensures HistoryLegal(Run(cfg, strategy, steps).history)
  {
    hide SystemInv, LastLegal, Perform, AppendThenDie, HistoryAfter;
    if steps != [] {
      var front, step := steps[..|steps| - 1], steps[|steps| - 1];
      forall i | 0 <= i < |front| ensures front[..i] == steps[..i] && front[i] == steps[i] {}
      RunLegal(cfg, strategy, front);
      RunKeepsInv(cfg, strategy, front);
      var s := Run(cfg, strategy, front);
      assert Enabled(strategy, s, step);
      match step
      case Do(op, inp, position) =>
        DoLegal(cfg, s, op, inp, true);
        DoGrows(cfg, strategy, s, op, inp, position, false);
      case DieDuring(op, inp, position, flushed) =>
        DoLegal(cfg, s, op, inp, false);
        DoGrows(cfg, strategy, s, op, inp, position, flushed);
      case Crash(keep) => LegalPrefix(s.history, keep);
      case _ =>
    }
  }

  // ----- One effect through a history --------------------------------------------------------

  ghost predicate Sound(h: seq<Logged>) {
    HistoryLegal(h) && Folded(h).error.None?
  }

  lemma SoundPrefix(h: seq<Logged>, n: nat)
    requires Sound(h) && n <= |h|
    ensures Sound(h[..n])
  {
    LegalPrefix(h, n);
    FoldedPrefix(h, n);
  }

  /** A record about the effect becomes its stored version; any other record keeps or prunes it. */
  lemma StoredAfter(h: seq<Logged>, e: Uuid)
    requires h != [] && Folded(h).error.None?
    ensures var front, last := h[..|h| - 1], h[|h| - 1];
            var now := Stored(Folded(h).index, e);
            if About(last, e) then now == Some(last.kind.effect)
            else now.None? || now == Stored(Folded(front).index, e)
  {
    var front, last := h[..|h| - 1], h[|h| - 1];
    FoldedPrefix(h, |h| - 1);
    assert h == front + [last];
    FoldedAppend(front, last);
    ApplyStores(Folded(front).index, last.kind, e);
  }

  lemma ApplyStores(ix: Index, kind: RecordKind, e: Uuid)
    ensures var now := Stored(ApplyRecord(ix, kind).index, e);
            if kind.EffectApplied? && kind.effect.id == e then now == Some(kind.effect)
            else now.None? || now == Stored(ix, e)
  {
  }

  /** The whole history about an effect id that was never used is empty. */
  lemma {:induction false} NeverUsedNoGrants(h: seq<Logged>, e: Uuid)
    requires NeverUsed(h, e)
    ensures Grants(h, e) == 0
  {
    if h != [] {
      NeverUsedNoGrants(h[..|h| - 1], e);
    }
  }

  /** The fencing token is the number of leases ever granted on the effect. */
  lemma {:induction false} FenceCountsGrants(h: seq<Logged>, e: Uuid)
    requires Sound(h)
    ensures e in Folded(h).index.effectsById ==> Folded(h).index.effectsById[e].fencingToken == Grants(h, e)
  {
    if h == [] {
      assert Folded(h) == Applied(EmptyIndex, None);
    } else {
      hide Folded;
      var n := |h| - 1;
      SoundPrefix(h, n);
      FenceCountsGrants(h[..n], e);
      StoredAfter(h, e);
      assert h[..|h|] == h;
      assert LastLegal(h);
      if About(h[n], e) && Stored(Folded(h[..n]).index, e).None? {
        NeverUsedNoGrants(h[..n], e);
      }
    }
  }

  /** The fence carried by a record about the effect counts the grants up to and including it. */
  lemma FenceAt(h: seq<Logged>, i: nat, e: Uuid)
    requires Sound(h) && i < |h| && About(h[i], e)
    ensures h[i].kind.effect.fencingToken == Grants(h[..i + 1], e)
  {
    hide Folded;
    var upTo := h[..i + 1];
    SoundPrefix(h, i + 1);
    StoredAfter(upTo, e);
    FenceCountsGrants(upTo, e);
  }

  lemma {:induction false} GrantsMonotone(h: seq<Logged>, i: nat, j: nat, e: Uuid)
    requires i <= j <= |h|
    ensures Grants(h[..i], e) <= Grants(h[..j], e)
    ensures (forall k :: i <= k < j ==> !IsGrant(h[k], e)) ==> Grants(h[..i], e) == Grants(h[..j], e)
    decreases j
  {
    if i < j {
      GrantsMonotone(h, i, j - 1, e);
      assert h[..j][..j - 1] == h[..j - 1] && h[..j][j - 1] == h[j - 1];
    }
  }

  // ----- After a start -----------------------------------------------------------------------

  /** The tool was started and no retryable failure has been reported since. */
  predicate Started(h: seq<Logged>, e: Uuid) {
    if h == [] then false
    else if IsMove(h[|h| - 1], e, Start) then true
    else if IsMove(h[|h| - 1], e, FailRetryable) then false
    else Started(h[..|h| - 1], e)
  }

  lemma {:induction false} StartedWasUsed(h: seq<Logged>, e: Uuid)
    requires Started(h, e)
    ensures exists i :: 0 <= i < |h| && About(h[i], e)
  {
    var front := h[..|h| - 1];
    if !IsMove(h[|h| - 1], e, Start) {
      StartedWasUsed(front, e);
      var i :| 0 <= i < |front| && About(front[i], e);
      assert About(h[i], e);
    }
  }

  /** A started effect is in no state from which a lease could be granted. */
  lemma {:induction false} StartedNotGrantable(h: seq<Logged>, e: Uuid)
    requires Sound(h) && Started(h, e) && e in Folded(h).index.effectsById
    ensures var state := Folded(h).index.effectsById[e].state; !state.Claimed? && !state.FailedRetryable?
  {
    hide Folded;
    var n := |h| - 1;
    SoundPrefix(h, n);
    StoredAfter(h, e);
    assert h[..|h|] == h;
    assert LastLegal(h);
    if !IsMove(h[n], e, Start) {
      if Stored(Folded(h[..n]).index, e).Some? {
        StartedNotGrantable(h[..n], e);
      } else {
        StartedWasUsed(h[..n], e);
      }
    }
  }

  lemma GrantNotStarted(h: seq<Logged>, j: nat, e: Uuid)
    requires Sound(h) && j < |h| && IsGrant(h[j], e)
    ensures !Started(h[..j], e)
  {
    hide Folded;
    SoundPrefix(h, j);
    assert h[..j + 1][..j] == h[..j];
    assert LastLegal(h[..j + 1]);
    if Started(h[..j], e) {
      if Stored(Folded(h[..j]).index, e).Some? {
        StartedNotGrantable(h[..j], e);
      } else {
        StartedWasUsed(h[..j], e);
      }
    }
  }

  /** The first retryable failure after a start, found walking forward from it. */
  lemma {:induction false} FirstRetryable(h: seq<Logged>, i: nat, m: nat, j: nat, e: Uuid) returns (k: nat)
    requires i < m <= j <= |h| && Started(h[..m], e) && !Started(h[..j], e)
    requires forall x :: i < x < m ==> Started(h[..x], e)
    ensures m <= k < j && IsMove(h[k], e, FailRetryable)
    ensures forall x :: i < x <= k ==> Started(h[..x], e)
    decreases j - m
  {
    assert h[..m + 1][..m] == h[..m] && h[..m + 1][m] == h[m];
    if IsMove(h[m], e, FailRetryable) {
      k := m;
    } else {
      k := FirstRetryable(h, i, m + 1, j, e);
    }
  }

  /**
    After a start, no further lease is granted on the effect unless a retryable
    failure was reported in between, at the very fence the tool was started under.
   */
  lemma NoGrantAfterStart(h: seq<Logged>, i: nat, j: nat, e: Uuid)
    requires Sound(h) && i < j < |h| && IsMove(h[i], e, Start) && IsGrant(h[j], e)
    ensures exists k :: i < k < j && IsMove(h[k], e, FailRetryable)
                        && h[k].kind.effect.fencingToken == h[i].kind.effect.fencingToken
  {
    hide Sound, Grants;
    GrantNotStarted(h, j, e);
    assert h[..i + 1][i] == h[i];
    var k := FirstRetryable(h, i, i + 1, j, e);
    forall m | i + 1 <= m < k + 1 ensures !IsGrant(h[m], e) {
      if IsGrant(h[m], e) {
        GrantNotStarted(h, m, e);
      }
    }
    GrantsMonotone(h, i + 1, k + 1, e);
    FenceAt(h, i, e);
    FenceAt(h, k, e);
  }

  // ----- Superseded fences -------------------------------------------------------------------

  lemma StaleFenceRefused(cfg: Config, ix: Index, e: Uuid, scope: Scope, req: UpdateRequest, canReconcile: bool,
                          inp: Inputs)
    ensures e !in ix.effectsById || ix.effectsById[e].fencingToken != req.fencingToken ==>
              PlanOf(cfg, ix, Transition(scope, e, req, canReconcile), inp).Refuse?
  {
    hide PersistEffect, Transitioned, Unauthorized, Legal;
  }

  /** Once a later lease was granted, a request bearing an earlier fence is refused, whatever else it carries. */
  lemma SupersededFenceRefused(cfg: Config, h: seq<Logged>, i: nat, j: nat, e: Uuid,
                               scope: Scope, req: UpdateRequest, canReconcile: bool, inp: Inputs)
    requires Sound(h) && i < j < |h| && About(h[i], e) && IsGrant(h[j], e)
    requires req.fencingToken == h[i].kind.effect.fencingToken
    ensures PlanOf(cfg, Folded(h).index, Transition(scope, e, req, canReconcile), inp).Refuse?
  {
    hide Folded, PlanOf, HistoryLegal;
    StaleFenceRefused(cfg, Folded(h).index, e, scope, req, canReconcile, inp);
    FenceAt(h, i, e);
    FenceCountsGrants(h, e);
    GrantsMonotone(h, i + 1, j, e);
    assert h[..j + 1][..j] == h[..j] && h[..j + 1][j] == h[j];
    GrantsMonotone(h, j + 1, |h|, e);
    assert h[..|h|] == h;
    assert Grants(h, e) > req.fencingToken;
  }

  // ----- Terminal effects ----------------------------------------------------------------------

  /** After a record that leaves the effect terminal, the history never mentions the effect again. */
  lemma {:induction false} TerminalIsLast(h: seq<Logged>, i: nat, e: Uuid)
    requires Sound(h) && i < |h| && About(h[i], e) && IsTerminal(h[i].kind.effect.state)
    ensures forall j :: i < j < |h| ==> !About(h[j], e)
    ensures var now := Stored(Folded(h).index, e); now.None? || now == Some(h[i].kind.effect)
    decreases |h|
  {
    hide Folded;
    StoredAfter(h, e);
    var n := |h| - 1;
    if i < n {
      SoundPrefix(h, n);
      TerminalIsLast(h[..n], i, e);
      forall j | i < j < n ensures !About(h[j], e) { assert h[..n][j] == h[j]; }
      assert h[..|h|] == h;
      assert LastLegal(h);
      assert About(h[..n][i], e);
    }
  }

  /** The request names the effect's key, its input and its tool, and is itself well formed. */
  predicate Repeats(cfg: Config, effect: EffectRecord, scope: Scope, key: string, req: AcquireRequest) {
    && EffectKey(scope.tenantId, scope.projectId, req.scope, key) == EffectKeyOf(effect)
    && InvalidEffectField(req.scope, key, req.toolName).None?
    && ResolveLeaseMs(cfg, req.leaseDurationSeconds).Some?
    && Sha256Digest(Utf8(Print(req.input))) == effect.inputDigest
    && req.toolName == effect.toolName
  }

  /**
    A terminal effect is final: until retention prunes it, every acquire that
    repeats its request is answered with that very record, and writes nothing.
   */
  lemma TerminalReplays(cfg: Config, h: seq<Logged>, i: nat, e: Uuid, scope: Scope, key: string, req: AcquireRequest,
                        inp: Inputs)
    requires Sound(h) && i < |h| && About(h[i], e) && IsTerminal(h[i].kind.effect.state)
    requires e in Folded(h).index.effectsById && EffectsOk(Folded(h).index)
    requires Repeats(cfg, h[i].kind.effect, scope, key, req)
    ensures PlanOf(cfg, Folded(h).index, Acquire(scope, key, req), inp)
         == Answer(Decided(Replay, h[i].kind.effect, None, None))
  {
    hide Folded, InvalidEffectField, Sha256Digest, Utf8, Print, LeaseOk, OwnerOk;
    TerminalIsLast(h, i, e);
    var ix := Folded(h).index;
    assert ix.effectIds[EffectKeyOf(h[i].kind.effect)] == e;
  }

  /** An effect keeps for good the key, the tool and the input digest of any record ever written of it. */
  lemma {:induction false} DigestStays(h: seq<Logged>, n: nat, e: Uuid)
    requires Sound(h) && n < |h| && About(h[n], e) && e in Folded(h).index.effectsById
    ensures var now := Folded(h).index.effectsById[e];
            now.inputDigest == h[n].kind.effect.inputDigest && now.toolName == h[n].kind.effect.toolName &&
            EffectKeyOf(now) == EffectKeyOf(h[n].kind.effect)
    decreases |h|
  {
    hide Folded;
    StoredAfter(h, e);
    var last := |h| - 1;
    if n < last {
      SoundPrefix(h, last);
      assert h[..|h|] == h;
      assert LastLegal(h);
      assert About(h[..last][n], e);
      if Stored(Folded(h[..last]).index, e).Some? {
        DigestStays(h[..last], n, e);
      }
    }
  }

  // ----- The same for every run -----------------------------------------------------------------

  /** The facts above hold of every history the system can reach. */
  lemma RunSound(cfg: Config, strategy: Strategy, steps: seq<Step>)
    requires Possible(cfg, strategy, steps)
    ensures Sound(Run(cfg, strategy, steps).history)
  {
    hide Run, Possible, HistoryLegal, Inv;
    RunLegal(cfg, strategy, steps);
    RunKeepsInv(cfg, strategy, steps);
  }
}
