/**
  The decisions callers were given: under `Always` the fencing token of an effect is the
  number of `execute` decisions ever returned for it, and of those a process died with.
 */
module LedgerDecisions {
  import opened CanonicalJson
  import opened Digests
  import opened LedgerModel
  import opened LogPositions
  import opened LedgerIndexes
  import opened LedgerOps
  import opened LedgerInvariant
  import opened LedgerSystem
  import opened LedgerRecovery
  import opened LedgerSafety
  import opened LedgerReplies

  predicate IsExecute(reply: Reply, e: Uuid) {
    reply.Decided? && reply.decision.Execute? && reply.effect.id == e
  }

  /** How many `execute` decisions on the effect callers were given. */
  function Executes(replies: seq<Reply>, e: Uuid): nat {
    if replies == [] then 0
    else Executes(replies[..|replies| - 1], e) + if IsExecute(replies[|replies| - 1], e) then 1 else 0
  }

  /** The grants that were answered, or that were not. */
  function GrantsTold(h: seq<Logged>, e: Uuid, told: bool): nat {
    if h == [] then 0
    else GrantsTold(h[..|h| - 1], e, told) + if IsGrant(h[|h| - 1], e) && h[|h| - 1].told == told then 1 else 0
  }

  lemma {:induction false} GrantsSplit(h: seq<Logged>, e: Uuid)
    ensures Grants(h, e) == GrantsTold(h, e, true) + GrantsTold(h, e, false)
  {
    if h != [] {
      GrantsSplit(h[..|h| - 1], e);
    }
  }

  // ----- One operation -----------------------------------------------------------------------

  lemma TransitionDecidesNothing(cfg: Config, ix: Index, scope: Scope, id: Uuid, req: UpdateRequest, canReconcile: bool,
                                 inp: Inputs)
    ensures var plan := PlanTransition(cfg, ix, scope, id, req, canReconcile, inp);
            !plan.Answer? && (plan.Persist? ==> plan.reply.EffectReply?)
  {
    hide Transitioned, Unauthorized, Legal, BuildEvent, EffectEventPayload;
  }

  /** An acquire that writes nothing grants nothing. */
  lemma AnswerGrantsNothing(cfg: Config, ix: Index, scope: Scope, key: string, req: AcquireRequest, inp: Inputs)
    ensures var plan := PlanAcquire(cfg, ix, scope, key, req, inp);
            plan.Answer? ==> plan.reply.Decided? && !plan.reply.decision.Execute?
  {
    hide InvalidEffectField, BuildEvent, EffectEventPayload, Sha256Digest, Utf8, Print;
  }

  lemma OthersDecideNothing(cfg: Config, ix: Index, op: Operation, inp: Inputs)
    requires !op.Acquire? && !op.Transition?
    ensures var plan := PlanOf(cfg, ix, op, inp);
            !plan.Refuse? ==> !plan.reply.Decided?
  {
    hide BuildEvent, LengthWithin, Sha256Digest, Utf8, Print, SortedKeys;
  }

  /** A reply is an `execute` decision on the effect exactly when the operation wrote a grant of it. */
  lemma ExecuteIsGrant(cfg: Config, ix: Index, op: Operation, inp: Inputs, e: Uuid, told: bool)
    ensures var plan := PlanOf(cfg, ix, op, inp);
            (plan.Answer? ==> !IsExecute(plan.reply, e)) &&
            (plan.Persist? ==> (IsExecute(plan.reply, e) <==> IsGrant(EntryOf(op, plan, told), e)))
  {
    hide PlanAcquire, PlanTransition, PlanRetention, PlanForkRun, PlanCreateRun, PlanUpdateRun, PlanAppendEvent,
         PlanCheckpoint;
    PlanAnnounces(cfg, ix, op, inp);
    match op
    case Acquire(scope, key, req) => AnswerGrantsNothing(cfg, ix, scope, key, req, inp);
    case Transition(scope, id, req, canReconcile) =>
      TransitionDecidesNothing(cfg, ix, scope, id, req, canReconcile, inp);
    case _ => OthersDecideNothing(cfg, ix, op, inp);
  }

  // ----- Whole runs ------------------------------------------------------------------------------

  lemma ExecutesSnoc(replies: seq<Reply>, reply: Reply, e: Uuid)
    ensures Executes(replies + [reply], e) == Executes(replies, e) + if IsExecute(reply, e) then 1 else 0
  {
    assert (replies + [reply])[..|replies|] == replies;
  }

  lemma GrantsToldSnoc(h: seq<Logged>, entry: Logged, e: Uuid, told: bool)
    ensures GrantsTold(h + [entry], e, told) ==
            GrantsTold(h, e, told) + if IsGrant(entry, e) && entry.told == told then 1 else 0
  {
    assert (h + [entry])[..|h|] == h;
  }

  lemma {:induction false} CutKeepsTold(h: seq<Logged>, keep: nat, e: Uuid)
    requires keep <= |h| && ToldUpTo(h, keep)
    ensures GrantsTold(h[..keep], e, true) == GrantsTold(h, e, true)
    decreases |h|
  {
    if keep < |h| {
      var front := h[..|h| - 1];
      CutKeepsTold(front, keep, e);
      assert front[..keep] == h[..keep];
    } else {
      assert h[..keep] == h;
    }
  }

  lemma DoReturns(cfg: Config, strategy: Strategy, s: System, op: Operation, inp: Inputs, position: WalPosition,
                  flushed: bool, e: Uuid)
    requires SystemInv(s) && s.memory.Up? && NeverUsed(s.history, inp.newId)
    requires Executes(s.replies, e) == GrantsTold(s.history, e, true)
    ensures var t := Perform(cfg, strategy, s, op, inp, position);
            Executes(t.replies, e) == GrantsTold(t.history, e, true)
    ensures var t := AppendThenDie(cfg, strategy, s, op, inp, position, flushed);
            Executes(t.replies, e) == GrantsTold(t.history, e, true)
  {
    hide Inv, PlanOf, ApplyRecord, Folded, LogOk, SnapshotOk, NeverUsed, IsGrant, IsExecute, CauseOf, Executes,
         GrantsTold;
    var plan := PlanOf(cfg, s.memory.index, op, inp);
    ExecuteIsGrant(cfg, s.memory.index, op, inp, e, true);
    if plan.Persist? {
      IdsComeFromHistory(s.history, inp.newId);
      PersistNeverFails(cfg, s.memory.index, op, inp);
      GrantsToldSnoc(s.history, EntryOf(op, plan, true), e, true);
      GrantsToldSnoc(s.history, EntryOf(op, plan, false), e, true);
    }
    if !plan.Refuse? {
      ExecutesSnoc(s.replies, plan.reply, e);
    }
  }

  /** Under `Always` the grants still on record that were answered are exactly the `execute` decisions ever returned. */
  lemma {:induction false} EveryDecisionIsOnRecord(cfg: Config, steps: seq<Step>, e: Uuid)
    requires Possible(cfg, Always, steps)
    ensures var s := Run(cfg, Always, steps); Executes(s.replies, e) == GrantsTold(s.history, e, true)
  {
    hide SystemInv, Perform, AppendThenDie, Executes, GrantsTold, Opened, Truncated, Uncovered;
    if steps == [] {
      NothingReturned(e);
    } else {
      var front, step := steps[..|steps| - 1], steps[|steps| - 1];
      forall i | 0 <= i < |front| ensures front[..i] == steps[..i] && front[i] == steps[i] {}
      EveryDecisionIsOnRecord(cfg, front, e);
      RunKeepsInv(cfg, Always, front);
      AlwaysSynced(cfg, front);
      var s := Run(cfg, Always, front);
      assert Enabled(Always, s, step);
      match step
      case Do(op, inp, position) => DoReturns(cfg, Always, s, op, inp, position, false, e);
      case DieDuring(op, inp, position, flushed) => DoReturns(cfg, Always, s, op, inp, position, flushed, e);
      case Crash(keep) => CutKeepsTold(s.history, keep, e);
      case _ =>
    }
  }

  lemma NothingReturned(e: Uuid)
    ensures Executes([], e) == 0 && GrantsTold([], e, true) == 0
  {
  }

  predicate AllTold(h: seq<Logged>) {
    forall i :: 0 <= i < |h| ==> h[i].told
  }

  lemma {:induction false} NoneUntold(h: seq<Logged>, e: Uuid)
    requires AllTold(h)
    ensures GrantsTold(h, e, false) == 0
  {
    if h != [] {
      NoneUntold(h[..|h| - 1], e);
    }
  }

  lemma StepStaysTold(cfg: Config, strategy: Strategy, s: System, step: Step)
    requires AllTold(s.history) && Enabled(strategy, s, step) && !step.DieDuring?
    ensures AllTold(Next(cfg, strategy, s, step).history)
  {
    hide PlanOf, ApplyRecord, Opened, Truncated, Uncovered, NeverUsed, NextPosition, Collected, Watermark;
  }

  /** As long as no process died during an operation, every record was answered. */
  lemma {:induction false} NoDeathsAllTold(cfg: Config, strategy: Strategy, steps: seq<Step>)
    requires Possible(cfg, strategy, steps) && forall i :: 0 <= i < |steps| ==> !steps[i].DieDuring?
    ensures AllTold(Run(cfg, strategy, steps).history)
  {
    hide Enabled, Next, AllTold;
    if steps == [] {
      NothingUntold();
    } else {
      var front, step := steps[..|steps| - 1], steps[|steps| - 1];
      forall i | 0 <= i < |front| ensures front[..i] == steps[..i] && front[i] == steps[i] {}
      NoDeathsAllTold(cfg, strategy, front);
      StepStaysTold(cfg, strategy, Run(cfg, strategy, front), step);
    }
  }

  lemma NothingUntold()
    ensures AllTold([])
  {
  }

  /**
    Under `Always`, wherever a run stands: the fence of an effect is the number of
    `execute` decisions returned for it, plus the grants on record whose process died
    before it could answer. Without such deaths it is exactly the decisions returned.
   */
  lemma FenceCountsDecisions(cfg: Config, steps: seq<Step>, e: Uuid)
    requires Possible(cfg, Always, steps)
    requires e in Folded(Run(cfg, Always, steps).history).index.effectsById
    ensures var s := Run(cfg, Always, steps);
            var fence := Folded(s.history).index.effectsById[e].fencingToken;
            fence == Executes(s.replies, e) + GrantsTold(s.history, e, false) &&
            ((forall i :: 0 <= i < |steps| ==> !steps[i].DieDuring?) ==> fence == Executes(s.replies, e))
  {
    hide Run, Possible, Folded, Executes, GrantsTold, Sound;
    var s := Run(cfg, Always, steps);
    RunSound(cfg, Always, steps);
    FenceCountsGrants(s.history, e);
    GrantsSplit(s.history, e);
    EveryDecisionIsOnRecord(cfg, steps, e);
    if forall i :: 0 <= i < |steps| ==> !steps[i].DieDuring? {
      NoDeathsAllTold(cfg, Always, steps);
      NoneUntold(s.history, e);
    }
  }
}
