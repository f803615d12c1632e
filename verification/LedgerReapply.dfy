/**
  Applying records to indexes that already contain them: exactly when that is harmless.

  It happens when a snapshot is taken after a replay and before the next write: its
  watermark is the old one, so the next opening applies the replayed records once more.
 */
module LedgerReapply {
  import opened Basics
  import opened EventChain
  import opened LedgerModel
  import opened LedgerIndexes
  import opened LedgerInvariant

  // ----- What records say --------------------------------------------------------------

  predicate IsRunRecord(kind: RecordKind, r: Uuid) {
    (kind.RunCreated? || kind.RunUpdated?) && kind.run.id == r
  }

  function EventOf(kind: RecordKind): Option<EventRecord> {
    match kind
    case EventAppended(e) => Some(e)
    case EffectApplied(_, event) => event
    case _ => None
  }

  predicate IsEvent(kind: RecordKind, r: Uuid) {
    EventOf(kind).Some? && EventOf(kind).value.runId == r
  }

  predicate PrunesRun(kind: RecordKind, r: Uuid) {
    kind.RetentionApplied? && r in kind.runIds
  }

  predicate IsEffect(kind: RecordKind, e: Uuid) {
    kind.EffectApplied? && kind.effect.id == e
  }

  predicate HasKey(kind: RecordKind, k: EffectKey) {
    kind.EffectApplied? && EffectKeyOf(kind.effect) == k
  }

  /** One of the first `n` records is an event of the run; and so on. */
  predicate HasEvent(records: seq<RecordKind>, n: nat, r: Uuid)
    requires n <= |records|
  {
    exists i :: 0 <= i < n && IsEvent(records[i], r)
  }

  predicate Pruned(records: seq<RecordKind>, n: nat, r: Uuid)
    requires n <= |records|
  {
    exists i :: 0 <= i < n && PrunesRun(records[i], r)
  }

  predicate TouchedEffect(records: seq<RecordKind>, n: nat, e: Uuid)
    requires n <= |records|
  {
    exists i :: 0 <= i < n && IsEffect(records[i], e)
  }

  predicate TouchedKey(records: seq<RecordKind>, n: nat, k: EffectKey)
    requires n <= |records|
  {
    exists i :: 0 <= i < n && HasKey(records[i], k)
  }

  /** The last run record among the first `n`. */
  function LastRun(records: seq<RecordKind>, n: nat, r: Uuid): Option<RunRecord>
    requires n <= |records|
  {
    if n == 0 then None
    else if IsRunRecord(records[n - 1], r) then Some(records[n - 1].run)
    else LastRun(records, n - 1, r)
  }

  // ----- The records that were written ------------------------------------------------------

  /** The indexes after the first `n` records. */
  function After(base: Index, records: seq<RecordKind>, n: nat): Applied
    requires n <= |records|
  {
    ApplyAll(base, records[..n])
  }

  /** Nothing pruned comes back. */
  predicate NoRebirth(records: seq<RecordKind>) {
    forall i, j :: 0 <= i < j < |records| && records[i].RetentionApplied? ==>
      && (records[j].RunCreated? ==> records[j].run.id !in records[i].runIds)
      && (records[j].EffectApplied? ==> records[j].effect.id !in records[i].effectIds)
  }

  /** Every record was planned from the indexes its predecessors left. */
  ghost predicate Written(base: Index, records: seq<RecordKind>) {
    && Inv(base)
    && NoRebirth(records)
    && forall i :: 0 <= i < |records| ==> Fits(After(base, records, i).index, records[i])
  }

  lemma AfterStep(base: Index, records: seq<RecordKind>, n: nat)
    requires n < |records|
    ensures var before := After(base, records, n);
            After(base, records, n + 1) == if before.error.Some? then before else ApplyRecord(before.index, records[n])
  {
    assert records[..n + 1][..n] == records[..n];
  }

  lemma {:induction false} WrittenInv(base: Index, records: seq<RecordKind>, n: nat)
    requires Written(base, records) && n <= |records|
    ensures After(base, records, n).error.None? && Inv(After(base, records, n).index)
  {
    hide Inv, Fits, ApplyRecord;
    if n > 0 {
      WrittenInv(base, records, n - 1);
      AfterStep(base, records, n - 1);
      FitsKeepsInv(After(base, records, n - 1).index, records[n - 1]);
    }
  }

  function Lookup<K, V>(m: map<K, V>, k: K): Option<V> {
    if k in m then Some(m[k]) else None
  }

  // ----- What one fitting record does to a run and to an effect ----------------------------------

  /** A fitting record leaves a run it does not prune in place, and its lists only grow. */
  lemma FittingGrows(ix: Index, kind: RecordKind, r: Uuid)
    requires Inv(ix) && Fits(ix, kind) && !PrunesRun(kind, r)
    ensures var after := ApplyRecord(ix, kind).index;
            EventsOf(ix, r) <= EventsOf(after, r) && CheckpointsOf(ix, r) <= CheckpointsOf(after, r) &&
            (r in ix.runs ==> r in after.runs) &&
            (!IsRunRecord(kind, r) && !IsEvent(kind, r) ==> Lookup(after.runs, r) == Lookup(ix.runs, r))
  {
    hide Inv, Fits, ApplyRecord;
    if EventOf(kind).Some? {
      FittingEvent(ix, kind);
    } else {
      PlainGrows(ix, kind, r);
    }
  }

  lemma PlainGrows(ix: Index, kind: RecordKind, r: Uuid)
    requires EventOf(kind).None? && !PrunesRun(kind, r)
    ensures var after := ApplyRecord(ix, kind).index;
            EventsOf(ix, r) == EventsOf(after, r) && CheckpointsOf(ix, r) <= CheckpointsOf(after, r) &&
            (r in ix.runs ==> r in after.runs) &&
            (!IsRunRecord(kind, r) ==> Lookup(after.runs, r) == Lookup(ix.runs, r))
  {
  }

  lemma FittingEvent(ix: Index, kind: RecordKind)
    requires Inv(ix) && Fits(ix, kind) && EventOf(kind).Some?
    ensures var e, after := EventOf(kind).value, ApplyRecord(ix, kind).index;
            e.runId in ix.runs && e.sequence == |EventsOf(ix, e.runId)| + 1 &&
            e.previousHash == HeadHash(EventsOf(ix, e.runId)) &&
            after.runs == ix.runs[e.runId := ix.runs[e.runId].(lastEventSequence := e.sequence, headHash := e.hash)] &&
            after.events == ix.events[e.runId := EventsOf(ix, e.runId) + [e]] &&
            after.checkpoints == ix.checkpoints
  {
    hide ChainOk, KeysInverse, CheckpointsOk, ComputeEventHash;
    var e := EventOf(kind).value;
    assert TimelineOk(ix.runs[e.runId], EventsOf(ix, e.runId));
    if kind.EffectApplied? {
      var put := PutEffect(ix, kind.effect);
      assert EventsOf(put, e.runId) == EventsOf(ix, e.runId);
    }
  }

  // ----- Over a stretch of records -------------------------------------------------------------

  lemma {:induction false} RunGrows(base: Index, records: seq<RecordKind>, i: nat, j: nat, r: Uuid)
    requires Written(base, records) && i <= j <= |records|
    requires forall m :: i <= m < j ==> !PrunesRun(records[m], r)
    ensures var a, b := After(base, records, i).index, After(base, records, j).index;
            EventsOf(a, r) <= EventsOf(b, r) && CheckpointsOf(a, r) <= CheckpointsOf(b, r) && (r in a.runs ==> r in b.runs)
    decreases j
  {
    hide Inv, Fits, ApplyRecord, After;
    if i < j {
      RunGrows(base, records, i, j - 1, r);
      WrittenInv(base, records, j - 1);
      AfterStep(base, records, j - 1);
      FittingGrows(After(base, records, j - 1).index, records[j - 1], r);
    }
  }

  lemma {:induction false} RunStays(base: Index, records: seq<RecordKind>, i: nat, j: nat, r: Uuid)
    requires Written(base, records) && i <= j <= |records|
    requires forall m :: i <= m < j ==> !PrunesRun(records[m], r) && !IsRunRecord(records[m], r) && !IsEvent(records[m], r)
    ensures Lookup(After(base, records, i).index.runs, r) == Lookup(After(base, records, j).index.runs, r)
    decreases j
  {
    hide Inv, Fits, ApplyRecord, After, EventOf;
    if i < j {
      RunStays(base, records, i, j - 1, r);
      WrittenInv(base, records, j - 1);
      AfterStep(base, records, j - 1);
      FittingGrows(After(base, records, j - 1).index, records[j - 1], r);
    }
  }

  predicate Absent(ix: Index, r: Uuid) {
    r !in ix.runs && r !in ix.events && r !in ix.checkpoints
  }

  lemma StaysAbsent(ix: Index, kind: RecordKind, r: Uuid)
    requires Inv(ix) && Fits(ix, kind) && Absent(ix, r) && !(kind.RunCreated? && kind.run.id == r)
    ensures Absent(ApplyRecord(ix, kind).index, r)
  {
    hide Inv;
    if EventOf(kind).Some? {
      FittingEvent(ix, kind);
    }
  }

  lemma PruneMakesAbsent(ix: Index, kind: RecordKind, r: Uuid)
    requires PrunesRun(kind, r)
    ensures Absent(ApplyRecord(ix, kind).index, r)
  {
  }

  /** A pruned run is gone for good. */
  lemma {:induction false} PrunedIsGone(base: Index, records: seq<RecordKind>, n: nat, r: Uuid)
    requires Written(base, records) && n <= |records| && Pruned(records, n, r)
    ensures Absent(After(base, records, n).index, r)
    decreases n
  {
    hide Inv, Fits, ApplyRecord, After;
    WrittenInv(base, records, n - 1);
    AfterStep(base, records, n - 1);
    var ix := After(base, records, n - 1).index;
    if PrunesRun(records[n - 1], r) {
      PruneMakesAbsent(ix, records[n - 1], r);
    } else {
      var i :| 0 <= i < n && PrunesRun(records[i], r);
      PrunedIsGone(base, records, n - 1, r);
      StaysAbsent(ix, records[n - 1], r);
    }
  }

  /** So is a pruned effect. */
  lemma {:induction false} PrunedEffectIsGone(base: Index, records: seq<RecordKind>, i: nat, n: nat, e: Uuid)
    requires Written(base, records) && i < n <= |records| && records[i].RetentionApplied? && e in records[i].effectIds
    ensures e !in After(base, records, n).index.effectsById
    decreases n
  {
    hide Inv, Fits, After;
    WrittenInv(base, records, n - 1);
    AfterStep(base, records, n - 1);
    if i < n - 1 {
      PrunedEffectIsGone(base, records, i, n - 1, e);
      EffectsOnly(After(base, records, n - 1).index, records[n - 1]);
    }
  }

  /** What a record does to the two effect indexes. */
  lemma EffectsOnly(ix: Index, kind: RecordKind)
    ensures var after := ApplyRecord(ix, kind).index;
            (kind.EffectApplied? ==>
               after.effectsById == ix.effectsById[kind.effect.id := kind.effect] &&
               after.effectIds == ix.effectIds[EffectKeyOf(kind.effect) := kind.effect.id]) &&
            (kind.RetentionApplied? ==>
               var pruned := Prune(ix, Elements(kind.runIds), Elements(kind.effectIds));
               after.effectsById == pruned.effectsById && after.effectIds == pruned.effectIds) &&
            (!kind.EffectApplied? && !kind.RetentionApplied? ==>
               after.effectsById == ix.effectsById && after.effectIds == ix.effectIds)
  {
    hide ApplyEventRecord;
    if kind.EventAppended? {
      EventsOnly(ix, kind.appended);
    } else if kind.EffectApplied? && kind.event.Some? {
      EventsOnly(PutEffect(ix, kind.effect), kind.event.value);
    }
  }

  lemma EventsOnly(ix: Index, e: EventRecord)
    ensures var after := ApplyEventRecord(ix, e).index;
            after.effectsById == ix.effectsById && after.effectIds == ix.effectIds && after.checkpoints == ix.checkpoints
  {
  }

  // ----- Effects survive ------------------------------------------------------------------------

  /** An effect was written in the stretch exactly when its key was. */
  ghost predicate KeysTouched(now: Index, records: seq<RecordKind>, n: nat)
    requires n <= |records|
  {
    forall e :: e in now.effectsById ==> (TouchedEffect(records, n, e) <==> TouchedKey(records, n, EffectKeyOf(now.effectsById[e])))
  }

  lemma TouchedStep(records: seq<RecordKind>, n: nat)
    requires n < |records|
    ensures forall e :: TouchedEffect(records, n + 1, e) <==> TouchedEffect(records, n, e) || IsEffect(records[n], e)
    ensures forall k :: TouchedKey(records, n + 1, k) <==> TouchedKey(records, n, k) || HasKey(records[n], k)
  {
  }

  lemma KeysTouchedStep(now: Index, records: seq<RecordKind>, n: nat)
    requires n < |records| && KeysTouched(now, records, n) && KeysInverse(ApplyRecord(now, records[n]).index)
    ensures KeysTouched(ApplyRecord(now, records[n]).index, records, n + 1)
  {
    hide ApplyRecord, TouchedEffect, TouchedKey;
    TouchedStep(records, n);
    EffectsOnly(now, records[n]);
    var after := ApplyRecord(now, records[n]).index;
    forall e | e in after.effectsById
      ensures TouchedEffect(records, n + 1, e) <==> TouchedKey(records, n + 1, EffectKeyOf(after.effectsById[e]))
    {
      var k := EffectKeyOf(after.effectsById[e]);
      assert after.effectIds[k] == e;
      if IsEffect(records[n], e) {
        assert HasKey(records[n], k);
      } else {
        assert e in now.effectsById && after.effectsById[e] == now.effectsById[e];
        assert !HasKey(records[n], k);
      }
    }
  }

  lemma {:induction false} KeysTouchedAlways(base: Index, records: seq<RecordKind>, n: nat)
    requires Written(base, records) && n <= |records|
    ensures KeysTouched(After(base, records, n).index, records, n)
  {
    hide Fits, ApplyRecord, After, KeysTouched, RunsOk, CheckpointsOk;
    if n == 0 {
      NothingTouched(After(base, records, 0).index, records);
    } else {
      KeysTouchedAlways(base, records, n - 1);
      WrittenInv(base, records, n - 1);
      WrittenInv(base, records, n);
      AfterStep(base, records, n - 1);
      KeysTouchedStep(After(base, records, n - 1).index, records, n - 1);
    }
  }

  lemma NothingTouched(ix: Index, records: seq<RecordKind>)
    ensures KeysTouched(ix, records, 0)
  {
  }

  /** Where the stretch wrote an effect, reapplying has caught up with it; elsewhere nothing has changed. */
  ghost predicate EffectsAgree(whole: Index, now: Index, again: Index, records: seq<RecordKind>, n: nat)
    requires n <= |records|
  {
    && (forall e :: Lookup(again.effectsById, e) == Lookup(if TouchedEffect(records, n, e) then now.effectsById else whole.effectsById, e))
    && (forall k :: Lookup(again.effectIds, k) == Lookup(if TouchedKey(records, n, k) then now.effectIds else whole.effectIds, k))
  }

  lemma EffectWriteAgrees(whole: Index, now: Index, again: Index, records: seq<RecordKind>, n: nat)
    requires n < |records| && EffectsAgree(whole, now, again, records, n) && !records[n].RetentionApplied?
    ensures EffectsAgree(whole, ApplyRecord(now, records[n]).index, ApplyRecord(again, records[n]).index, records, n + 1)
  {
    hide ApplyRecord, TouchedEffect, TouchedKey;
    TouchedStep(records, n);
    EffectsOnly(now, records[n]);
    EffectsOnly(again, records[n]);
    var after, again' := ApplyRecord(now, records[n]).index, ApplyRecord(again, records[n]).index;
    forall e
      ensures Lookup(again'.effectsById, e) ==
              Lookup(if TouchedEffect(records, n + 1, e) then after.effectsById else whole.effectsById, e)
    {
      assert Lookup(again.effectsById, e) ==
             Lookup(if TouchedEffect(records, n, e) then now.effectsById else whole.effectsById, e);
      assert IsEffect(records[n], e) ==> Lookup(again'.effectsById, e) == Some(records[n].effect) == Lookup(after.effectsById, e);
    }
    forall k
      ensures Lookup(again'.effectIds, k) ==
              Lookup(if TouchedKey(records, n + 1, k) then after.effectIds else whole.effectIds, k)
    {
      assert Lookup(again.effectIds, k) ==
             Lookup(if TouchedKey(records, n, k) then now.effectIds else whole.effectIds, k);
      assert HasKey(records[n], k) ==> Lookup(again'.effectIds, k) == Some(records[n].effect.id) == Lookup(after.effectIds, k);
    }
  }

  /** The keys of the pruned effects. */
  function PrunedKeys(ix: Index, ids: set<Uuid>): set<EffectKey> {
    set e | e in ids && e in ix.effectsById :: EffectKeyOf(ix.effectsById[e])
  }

  lemma PruneAgrees(whole: Index, now: Index, again: Index, records: seq<RecordKind>, n: nat)
    requires n < |records| && EffectsAgree(whole, now, again, records, n) && records[n].RetentionApplied?
    requires KeysInverse(now) && KeysTouched(now, records, n)
    requires forall e :: e in records[n].effectIds ==> e !in whole.effectsById
    ensures EffectsAgree(whole, ApplyRecord(now, records[n]).index, ApplyRecord(again, records[n]).index, records, n + 1)
  {
    hide ApplyRecord, TouchedEffect, TouchedKey, KeysInverse, KeysTouched;
    TouchedStep(records, n);
    EffectsOnly(now, records[n]);
    EffectsOnly(again, records[n]);
    var ids := Elements(records[n].effectIds);
    var after, again' := ApplyRecord(now, records[n]).index, ApplyRecord(again, records[n]).index;
    PrunedKeysAgree(whole, now, again, records, n, ids);
    SubtractAgrees(whole, now, again, after, again', records, n, ids);
  }

  lemma SubtractAgrees(whole: Index, now: Index, again: Index, after: Index, again': Index, records: seq<RecordKind>,
                       n: nat, ids: set<Uuid>)
    requires n < |records| && EffectsAgree(whole, now, again, records, n) && records[n].RetentionApplied?
    requires after.effectsById == now.effectsById - ids && again'.effectsById == again.effectsById - ids
    requires after.effectIds == now.effectIds - PrunedKeys(now, ids) &&
             again'.effectIds == again.effectIds - PrunedKeys(again, ids)
    requires forall e :: e in ids ==> e !in whole.effectsById
    requires forall k :: k in PrunedKeys(again, ids) ==> TouchedKey(records, n, k)
    requires forall k :: TouchedKey(records, n, k) && k in now.effectIds ==> (k in PrunedKeys(again, ids) <==> k in PrunedKeys(now, ids))
    ensures EffectsAgree(whole, after, again', records, n + 1)
  {
    hide TouchedEffect, TouchedKey, PrunedKeys;
    TouchedStep(records, n);
    forall e
      ensures Lookup(again'.effectsById, e) ==
              Lookup(if TouchedEffect(records, n + 1, e) then after.effectsById else whole.effectsById, e)
    {
      assert Lookup(again.effectsById, e) ==
             Lookup(if TouchedEffect(records, n, e) then now.effectsById else whole.effectsById, e);
    }
    forall k
      ensures Lookup(again'.effectIds, k) ==
              Lookup(if TouchedKey(records, n + 1, k) then after.effectIds else whole.effectIds, k)
    {
      assert Lookup(again.effectIds, k) ==
             Lookup(if TouchedKey(records, n, k) then now.effectIds else whole.effectIds, k);
    }
  }

  lemma PrunedKeysAgree(whole: Index, now: Index, again: Index, records: seq<RecordKind>, n: nat, ids: set<Uuid>)
    requires n <= |records| && EffectsAgree(whole, now, again, records, n)
    requires KeysInverse(now) && KeysTouched(now, records, n)
    requires forall e :: e in ids ==> e !in whole.effectsById
    ensures forall k :: k in PrunedKeys(again, ids) ==> TouchedKey(records, n, k)
    ensures forall k :: TouchedKey(records, n, k) && k in now.effectIds ==> (k in PrunedKeys(again, ids) <==> k in PrunedKeys(now, ids))
  {
    hide TouchedEffect, TouchedKey;
    forall k | k in PrunedKeys(again, ids) ensures TouchedKey(records, n, k) && k in PrunedKeys(now, ids) {
      var e :| e in ids && e in again.effectsById && EffectKeyOf(again.effectsById[e]) == k;
      assert Lookup(again.effectsById, e) == Some(again.effectsById[e]);
      assert Lookup(whole.effectsById, e) == None;
      assert TouchedEffect(records, n, e);
      assert e in now.effectsById && now.effectsById[e] == again.effectsById[e];
    }
    forall k | TouchedKey(records, n, k) && k in now.effectIds && k in PrunedKeys(now, ids)
      ensures k in PrunedKeys(again, ids)
    {
      var e :| e in ids && e in now.effectsById && EffectKeyOf(now.effectsById[e]) == k;
      assert TouchedEffect(records, n, e);
      assert Lookup(again.effectsById, e) == Lookup(now.effectsById, e) == Some(now.effectsById[e]);
    }
  }

  // ----- Runs: what reapplying leaves ------------------------------------------------------------

  predicate IsCheckpoint(kind: RecordKind, r: Uuid) {
    kind.CheckpointCreated? && kind.checkpoint.runId == r
  }

  /**
    A run that survives the stretch has its last run record from it, if any, over what the
    whole stretch left. A run pruned in the stretch is absent from then on; until then its
    timeline is as it was, once it has an event.
   */
  ghost predicate RunAgrees(whole: Index, now: Index, again: Index, records: seq<RecordKind>, n: nat, r: Uuid)
    requires n <= |records|
  {
    if !Pruned(records, |records|, r) then
      && Lookup(again.runs, r) ==
           (if LastRun(records, n, r).Some? then LastRun(records, n, r) else Lookup(whole.runs, r))
      && Lookup(again.events, r) == Lookup(whole.events, r)
      && Lookup(again.checkpoints, r) == Lookup(whole.checkpoints, r)
    else if Pruned(records, n, r) then Absent(again, r)
    else Lookup(again.events, r) == if HasEvent(records, n, r) then Some(EventsOf(now, r)) else None
  }

  /** The first event of a doomed run in the stretch is its very first event. */
  predicate FirstEventOk(records: seq<RecordKind>, n: nat)
    requires n < |records|
  {
    var e := EventOf(records[n]);
    e.Some? && Pruned(records, |records|, e.value.runId) && !HasEvent(records, n, e.value.runId) ==> e.value.sequence == 1
  }

  lemma BookStep(records: seq<RecordKind>, n: nat, r: Uuid)
    requires n < |records|
    ensures HasEvent(records, n + 1, r) <==> HasEvent(records, n, r) || IsEvent(records[n], r)
    ensures Pruned(records, n + 1, r) <==> Pruned(records, n, r) || PrunesRun(records[n], r)
    ensures Pruned(records, n + 1, r) ==> Pruned(records, |records|, r)
    ensures LastRun(records, n + 1, r) ==
            if IsRunRecord(records[n], r) then Some(records[n].run) else LastRun(records, n, r)
  {
  }

  lemma EventTouchesOne(ix: Index, e: EventRecord, r: Uuid)
    requires r != e.runId
    ensures var after := ApplyEventRecord(ix, e).index;
            Lookup(after.runs, r) == Lookup(ix.runs, r) && Lookup(after.events, r) == Lookup(ix.events, r) &&
            Lookup(after.checkpoints, r) == Lookup(ix.checkpoints, r)
  {
  }

  /** A record that is not about a run leaves it alone. */
  lemma Unconcerned(ix: Index, kind: RecordKind, r: Uuid)
    requires !IsRunRecord(kind, r) && !IsEvent(kind, r) && !IsCheckpoint(kind, r) && !PrunesRun(kind, r)
    ensures var after := ApplyRecord(ix, kind).index;
            Lookup(after.runs, r) == Lookup(ix.runs, r) && Lookup(after.events, r) == Lookup(ix.events, r) &&
            Lookup(after.checkpoints, r) == Lookup(ix.checkpoints, r)
  {
    hide ApplyEventRecord;
    match kind
    case EventAppended(e) => EventTouchesOne(ix, e, r);
    case EffectApplied(effect, event) =>
      if event.Some? {
        EventTouchesOne(PutEffect(ix, effect), event.value, r);
      }
    case _ =>
  }

  lemma UnconcernedAgrees(whole: Index, now: Index, again: Index, records: seq<RecordKind>, n: nat, r: Uuid)
    requires n < |records| && RunAgrees(whole, now, again, records, n, r)
    requires !IsRunRecord(records[n], r) && !IsEvent(records[n], r) && !IsCheckpoint(records[n], r) &&
             !PrunesRun(records[n], r)
    ensures RunAgrees(whole, ApplyRecord(now, records[n]).index, ApplyRecord(again, records[n]).index, records, n + 1, r)
  {
    hide ApplyRecord, Pruned, HasEvent, LastRun;
    BookStep(records, n, r);
    Unconcerned(now, records[n], r);
    Unconcerned(again, records[n], r);
  }

  lemma RunRecordAgrees(whole: Index, now: Index, again: Index, records: seq<RecordKind>, n: nat, r: Uuid)
    requires n < |records| && RunAgrees(whole, now, again, records, n, r) && IsRunRecord(records[n], r) &&
             !Pruned(records, n, r)
    ensures RunAgrees(whole, ApplyRecord(now, records[n]).index, ApplyRecord(again, records[n]).index, records, n + 1, r)
  {
    hide Pruned, HasEvent, LastRun;
    BookStep(records, n, r);
  }

  lemma PruneRunAgrees(whole: Index, now: Index, again: Index, records: seq<RecordKind>, n: nat, r: Uuid)
    requires n < |records| && PrunesRun(records[n], r)
    ensures RunAgrees(whole, ApplyRecord(now, records[n]).index, ApplyRecord(again, records[n]).index, records, n + 1, r)
  {
    hide ApplyRecord, Pruned, HasEvent, LastRun;
    BookStep(records, n, r);
    PruneMakesAbsent(again, records[n], r);
  }

  // ----- Checkpoints and events of the run ----------------------------------------------------------

  predicate ListsCheckpoint(list: seq<CheckpointRecord>, id: Uuid) {
    exists i :: 0 <= i < |list| && list[i].id == id
  }

  lemma CheckpointListed(ix: Index, c: CheckpointRecord)
    ensures ListsCheckpoint(CheckpointsOf(AddCheckpoint(ix, c), c.runId), c.id)
  {
    var list, after := CheckpointsOf(ix, c.runId), CheckpointsOf(AddCheckpoint(ix, c), c.runId);
    if after == list + [c] {
      assert after[|list|].id == c.id;
    }
  }

  lemma CheckpointAgrees(whole: Index, now: Index, again: Index, records: seq<RecordKind>, n: nat, r: Uuid)
    requires n < |records| && RunAgrees(whole, now, again, records, n, r) && IsCheckpoint(records[n], r) &&
             !Pruned(records, n, r)
    requires !Pruned(records, |records|, r) ==> CheckpointsOf(AddCheckpoint(now, records[n].checkpoint), r) <= CheckpointsOf(whole, r)
    ensures RunAgrees(whole, ApplyRecord(now, records[n]).index, ApplyRecord(again, records[n]).index, records, n + 1, r)
  {
    hide Pruned, HasEvent, LastRun;
    BookStep(records, n, r);
    var c := records[n].checkpoint;
    if !Pruned(records, |records|, r) {
      CheckpointListed(now, c);
      var grown := CheckpointsOf(AddCheckpoint(now, c), r);
      var i :| 0 <= i < |grown| && grown[i].id == c.id;
      assert CheckpointsOf(whole, r)[i].id == c.id;
      assert CheckpointsOf(again, r) == CheckpointsOf(whole, r);
      assert r in again.checkpoints;
    }
  }

  /** The event part of a record, and the indexes it is applied to. */
  function BeforeEvent(ix: Index, kind: RecordKind): Index {
    if kind.EffectApplied? then PutEffect(ix, kind.effect) else ix
  }

  lemma EventPart(ix: Index, kind: RecordKind)
    requires EventOf(kind).Some?
    ensures ApplyRecord(ix, kind) == ApplyEventRecord(BeforeEvent(ix, kind), EventOf(kind).value)
    ensures BeforeEvent(ix, kind).runs == ix.runs && BeforeEvent(ix, kind).events == ix.events &&
            BeforeEvent(ix, kind).checkpoints == ix.checkpoints
  {
  }

  /** An event the timeline already holds changes nothing about its run. */
  lemma CoveredEvent(ix: Index, kind: RecordKind, r: Uuid)
    requires IsEvent(kind, r) && r in ix.events && EventOf(kind).value.sequence <= |ix.events[r]|
    ensures var after := ApplyRecord(ix, kind);
            after.error.None? && Lookup(after.index.runs, r) == Lookup(ix.runs, r) &&
            Lookup(after.index.events, r) == Lookup(ix.events, r) &&
            Lookup(after.index.checkpoints, r) == Lookup(ix.checkpoints, r)
  {
    hide PutEffect, ApplyRecord;
    EventPart(ix, kind);
  }

  /** An event that is next in number and hash is appended. */
  lemma NextInLine(ix: Index, kind: RecordKind, r: Uuid)
    requires IsEvent(kind, r) && EventOf(kind).value.sequence == |EventsOf(ix, r)| + 1
    requires EventOf(kind).value.previousHash == HeadHash(EventsOf(ix, r))
    ensures var after := ApplyRecord(ix, kind);
            after.error.None? && Lookup(after.index.events, r) == Some(EventsOf(ix, r) + [EventOf(kind).value])
  {
    hide PutEffect, ApplyRecord, HeadHash;
    EventPart(ix, kind);
    assert EventsOf(BeforeEvent(ix, kind), r) == EventsOf(ix, r);
  }

  /** An event further on is a gap. */
  lemma GapInLine(ix: Index, kind: RecordKind, r: Uuid)
    requires IsEvent(kind, r) && EventOf(kind).value.sequence > |EventsOf(ix, r)| + 1
    ensures ApplyRecord(ix, kind).error.Some?
  {
    hide PutEffect, ApplyRecord, HeadHash;
    EventPart(ix, kind);
    assert EventsOf(BeforeEvent(ix, kind), r) == EventsOf(ix, r);
  }

  // ----- One step ---------------------------------------------------------------------------------

  /** The indexes the whole stretch leaves. */
  function Whole(base: Index, records: seq<RecordKind>): Index {
    After(base, records, |records|).index
  }

  lemma NotYetPruned(base: Index, records: seq<RecordKind>, n: nat, r: Uuid)
    requires Written(base, records) && n <= |records| && r in After(base, records, n).index.runs
    ensures !Pruned(records, n, r)
  {
    hide Written, After, Pruned;
    if Pruned(records, n, r) {
      PrunedIsGone(base, records, n, r);
    }
  }

  lemma SurvivorGrows(base: Index, records: seq<RecordKind>, n: nat, r: Uuid)
    requires Written(base, records) && n <= |records| && !Pruned(records, |records|, r)
    ensures EventsOf(After(base, records, n).index, r) <= EventsOf(Whole(base, records), r)
    ensures CheckpointsOf(After(base, records, n).index, r) <= CheckpointsOf(Whole(base, records), r)
    ensures r in After(base, records, n).index.runs ==> r in Whole(base, records).runs
  {
    hide Written, After;
    RunGrows(base, records, n, |records|, r);
  }

  lemma EventAgrees(base: Index, records: seq<RecordKind>, n: nat, again: Index, r: Uuid)
    requires Written(base, records) && n < |records| && IsEvent(records[n], r) && FirstEventOk(records, n)
    requires RunAgrees(Whole(base, records), After(base, records, n).index, again, records, n, r)
    ensures ApplyRecord(again, records[n]).error.None?
    ensures RunAgrees(Whole(base, records), After(base, records, n + 1).index, ApplyRecord(again, records[n]).index, records, n + 1, r)
  {
    hide Written, After, ApplyRecord, Pruned, HasEvent, LastRun, Inv, Fits, Whole, HeadHash;
    var whole, now, e := Whole(base, records), After(base, records, n).index, EventOf(records[n]).value;
    WrittenInv(base, records, n);
    FitsAt(base, records, n);
    FittingEvent(now, records[n]);
    AfterStep(base, records, n);
    NotYetPruned(base, records, n, r);
    BookStep(records, n, r);
    var next := After(base, records, n + 1).index;
    assert EventsOf(next, r) == EventsOf(now, r) + [e];
    if !Pruned(records, |records|, r) {
      SurvivorGrows(base, records, n + 1, r);
      CoveredEvent(again, records[n], r);
    } else {
      assert EventsOf(again, r) == EventsOf(now, r);
      NextInLine(again, records[n], r);
    }
  }

  lemma FitsAt(base: Index, records: seq<RecordKind>, n: nat)
    requires Written(base, records) && n < |records|
    ensures Fits(After(base, records, n).index, records[n])
  {
  }

  lemma StepAgrees(base: Index, records: seq<RecordKind>, n: nat, again: Index, r: Uuid)
    requires Written(base, records) && n < |records| && FirstEventOk(records, n)
    requires RunAgrees(Whole(base, records), After(base, records, n).index, again, records, n, r)
    ensures RunAgrees(Whole(base, records), After(base, records, n + 1).index, ApplyRecord(again, records[n]).index, records, n + 1, r)
  {
    hide Written, After, ApplyRecord, Pruned, HasEvent, LastRun, Inv, Whole, HeadHash, RunAgrees, AddCheckpoint;
    var whole, now := Whole(base, records), After(base, records, n).index;
    WrittenInv(base, records, n);
    FitsAt(base, records, n);
    AfterStep(base, records, n);
    if IsEvent(records[n], r) {
      EventAgrees(base, records, n, again, r);
    } else if PrunesRun(records[n], r) {
      PruneRunAgrees(whole, now, again, records, n, r);
    } else if IsRunRecord(records[n], r) {
      RecordMeansPresent(base, records, n, r);
      RunRecordAgrees(whole, now, again, records, n, r);
    } else if IsCheckpoint(records[n], r) {
      NotYetPruned(base, records, n, r);
      if !Pruned(records, |records|, r) {
        SurvivorGrows(base, records, n + 1, r);
        CheckpointPart(now, records[n]);
      }
      CheckpointAgrees(whole, now, again, records, n, r);
    } else {
      UnconcernedAgrees(whole, now, again, records, n, r);
    }
  }

  lemma CheckpointPart(ix: Index, kind: RecordKind)
    requires kind.CheckpointCreated?
    ensures ApplyRecord(ix, kind) == Applied(AddCheckpoint(ix, kind.checkpoint), None)
  {
  }

  /** A run record comes before any prune of its run. */
  lemma RecordMeansPresent(base: Index, records: seq<RecordKind>, n: nat, r: Uuid)
    requires Written(base, records) && n < |records| && IsRunRecord(records[n], r)
    ensures !Pruned(records, n, r)
  {
    hide After, Inv;
    if records[n].RunUpdated? {
      FitsAt(base, records, n);
      NotYetPruned(base, records, n, r);
    }
  }

  lemma EffectsStepAgrees(base: Index, records: seq<RecordKind>, n: nat, again: Index)
    requires Written(base, records) && n < |records|
    requires EffectsAgree(Whole(base, records), After(base, records, n).index, again, records, n)
    ensures EffectsAgree(Whole(base, records), After(base, records, n + 1).index, ApplyRecord(again, records[n]).index, records, n + 1)
  {
    hide Written, After, ApplyRecord, EffectsAgree, KeysTouched, RunsOk, CheckpointsOk;
    WrittenInv(base, records, n);
    AfterStep(base, records, n);
    var whole, now := Whole(base, records), After(base, records, n).index;
    if records[n].RetentionApplied? {
      KeysTouchedAlways(base, records, n);
      forall e | e in records[n].effectIds ensures e !in whole.effectsById {
        PrunedEffectIsGone(base, records, n, |records|, e);
      }
      PruneAgrees(whole, now, again, records, n);
    } else {
      EffectWriteAgrees(whole, now, again, records, n);
    }
  }

  /** Reapplying the first `n` records to the indexes that hold them all. */
  lemma {:induction false} ReapplyAgrees(base: Index, records: seq<RecordKind>, n: nat)
    requires Written(base, records) && n <= |records|
    requires forall j :: 0 <= j < n ==> FirstEventOk(records, j)
    ensures After(Whole(base, records), records, n).error.None?
    ensures EffectsAgree(Whole(base, records), After(base, records, n).index, After(Whole(base, records), records, n).index, records, n)
    ensures forall r :: RunAgrees(Whole(base, records), After(base, records, n).index, After(Whole(base, records), records, n).index, records, n, r)
  {
    hide Written, After, ApplyRecord, EffectsAgree, RunAgrees, FirstEventOk, Whole;
    var whole := Whole(base, records);
    var now := After(base, records, n).index;
    if n == 0 {
      EffectsAgreeAtStart(base, records);
      forall r ensures RunAgrees(whole, now, whole, records, n, r) {
        RunAgreesAtStart(base, records, r);
      }
    } else {
      ReapplyAgrees(base, records, n - 1);
      var again, kind := After(whole, records, n - 1).index, records[n - 1];
      AfterStep(whole, records, n - 1);
      EffectsStepAgrees(base, records, n - 1, again);
      var again' := ApplyRecord(again, kind).index;
      forall r ensures RunAgrees(whole, now, again', records, n, r) {
        StepAgrees(base, records, n - 1, again, r);
      }
      NoErrorAt(base, records, n - 1, again);
    }
  }

  lemma EffectsAgreeAtStart(base: Index, records: seq<RecordKind>)
    ensures After(Whole(base, records), records, 0) == Applied(Whole(base, records), None)
    ensures EffectsAgree(Whole(base, records), After(base, records, 0).index, Whole(base, records), records, 0)
  {
    hide Whole;
  }

  lemma RunAgreesAtStart(base: Index, records: seq<RecordKind>, r: Uuid)
    requires Written(base, records)
    ensures RunAgrees(Whole(base, records), After(base, records, 0).index, Whole(base, records), records, 0, r)
  {
    hide Written, After;
    if Pruned(records, |records|, r) {
      PrunedIsGone(base, records, |records|, r);
    }
  }

  lemma NoErrorAt(base: Index, records: seq<RecordKind>, n: nat, again: Index)
    requires Written(base, records) && n < |records| && FirstEventOk(records, n)
    requires forall r :: RunAgrees(Whole(base, records), After(base, records, n).index, again, records, n, r)
    ensures ApplyRecord(again, records[n]).error.None?
  {
    hide Written, After, RunAgrees, FirstEventOk, Whole, ApplyEventRecord;
    if EventOf(records[n]).Some? {
      EventAgrees(base, records, n, again, EventOf(records[n]).value.runId);
    }
  }

  // ----- Exactly when reapplying is harmless ----------------------------------------------------------

  /** An event of a surviving run comes after the last run record of that run in the stretch. */
  predicate LateEvent(records: seq<RecordKind>, j: nat)
    requires j < |records|
  {
    var e := EventOf(records[j]);
    && e.Some?
    && !Pruned(records, |records|, e.value.runId)
    && LastRun(records, j, e.value.runId).Some?
    && forall k :: j < k < |records| ==> !IsRunRecord(records[k], e.value.runId)
  }

  predicate HarmlessTwice(records: seq<RecordKind>) {
    forall j :: 0 <= j < |records| ==> FirstEventOk(records, j) && !LateEvent(records, j)
  }

  lemma {:induction false} LastRunAt(records: seq<RecordKind>, n: nat, r: Uuid) returns (k: nat)
    requires n <= |records| && LastRun(records, n, r).Some?
    ensures k < n && IsRunRecord(records[k], r) && LastRun(records, n, r) == Some(records[k].run)
    ensures forall m :: k < m < n ==> !IsRunRecord(records[m], r)
  {
    if IsRunRecord(records[n - 1], r) {
      k := n - 1;
    } else {
      k := LastRunAt(records, n - 1, r);
    }
  }

  lemma {:induction false} RunRecordSeen(records: seq<RecordKind>, k: nat, n: nat, r: Uuid)
    requires k < n <= |records| && IsRunRecord(records[k], r)
    ensures LastRun(records, n, r).Some?
  {
    if k < n - 1 {
      RunRecordSeen(records, k, n - 1, r);
    }
  }

  lemma {:induction false} LastRunStays(records: seq<RecordKind>, m: nat, n: nat, r: Uuid)
    requires m <= n <= |records| && forall k :: m <= k < n ==> !IsRunRecord(records[k], r)
    ensures LastRun(records, n, r) == LastRun(records, m, r)
  {
    if m < n {
      LastRunStays(records, m, n - 1, r);
    }
  }

  /** With no late event, the last run record of a surviving run is how the run ends up. */
  lemma LastRunStands(base: Index, records: seq<RecordKind>, r: Uuid)
    requires Written(base, records) && HarmlessTwice(records)
    requires !Pruned(records, |records|, r) && LastRun(records, |records|, r).Some?
    ensures Lookup(Whole(base, records).runs, r) == LastRun(records, |records|, r)
  {
    hide Written, After;
    var k := LastRunAt(records, |records|, r);
    forall j | k + 1 <= j < |records| ensures !PrunesRun(records[j], r) && !IsEvent(records[j], r) {
      RunRecordSeen(records, k, j, r);
      assert !LateEvent(records, j);
    }
    WrittenInv(base, records, k);
    AfterStep(base, records, k);
    RunStays(base, records, k + 1, |records|, r);
  }

  lemma SameMap<K(!new), V>(a: map<K, V>, b: map<K, V>)
    requires forall k :: Lookup(a, k) == Lookup(b, k)
    ensures a == b
  {
    forall k ensures k in a <==> k in b {
      assert Lookup(a, k) == Lookup(b, k);
    }
    forall k | k in a ensures a[k] == b[k] {
      assert Lookup(a, k) == Lookup(b, k);
    }
  }

  lemma HarmlessSuffices(base: Index, records: seq<RecordKind>)
    requires Written(base, records) && HarmlessTwice(records)
    ensures After(Whole(base, records), records, |records|) == Applied(Whole(base, records), None)
  {
    hide Written, After, FirstEventOk, LateEvent, Pruned, LastRun, HasEvent, Whole;
    var n, whole := |records|, Whole(base, records);
    ReapplyAgrees(base, records, n);
    var again := After(whole, records, n).index;
    assert After(base, records, n).index == whole by {
      WholeIs(base, records);
    }
    forall r
      ensures Lookup(again.runs, r) == Lookup(whole.runs, r)
      ensures Lookup(again.events, r) == Lookup(whole.events, r)
      ensures Lookup(again.checkpoints, r) == Lookup(whole.checkpoints, r)
    {
      assert RunAgrees(whole, whole, again, records, n, r);
      if Pruned(records, n, r) {
        PrunedIsGone(base, records, n, r);
      } else if LastRun(records, n, r).Some? {
        LastRunStands(base, records, r);
      }
    }
    SameMap(again.runs, whole.runs);
    SameMap(again.events, whole.events);
    SameMap(again.checkpoints, whole.checkpoints);
    SameMap(again.effectsById, whole.effectsById);
    SameMap(again.effectIds, whole.effectIds);
  }

  lemma WholeIs(base: Index, records: seq<RecordKind>)
    ensures Whole(base, records) == After(base, records, |records|).index
  {
  }

  lemma {:induction false} FirstBad(records: seq<RecordKind>, j: nat) returns (first: nat)
    requires j < |records| && !FirstEventOk(records, j)
    ensures first <= j && !FirstEventOk(records, first)
    ensures forall i :: 0 <= i < first ==> FirstEventOk(records, i)
  {
    if i :| 0 <= i < j && !FirstEventOk(records, i) {
      first := FirstBad(records, i);
    } else {
      first := j;
    }
  }

  /** A doomed run whose first event in the stretch is not its very first leaves a gap, and opening fails. */
  lemma GapFails(base: Index, records: seq<RecordKind>, j: nat)
    requires Written(base, records) && j < |records| && !FirstEventOk(records, j)
    ensures After(Whole(base, records), records, |records|).error.Some?
  {
    hide Written, ApplyRecord, Inv, Fits, Whole;
    var n := FirstBad(records, j);
    var whole, r := Whole(base, records), EventOf(records[n]).value.runId;
    ReapplyAgrees(base, records, n);
    var again := After(whole, records, n).index;
    WrittenInv(base, records, n);
    FitsAt(base, records, n);
    FittingEvent(After(base, records, n).index, records[n]);
    NotYetPruned(base, records, n, r);
    assert RunAgrees(whole, After(base, records, n).index, again, records, n, r);
    assert EventsOf(again, r) == [];
    GapInLine(again, records[n], r);
    AfterStep(whole, records, n);
    assert records == records[..n + 1] + records[n + 1..];
    FailureStays(whole, records[..n + 1], records[n + 1..]);
    assert records[..|records|] == records;
  }

  /** A run record never claims more events than its run has. */
  lemma RecordCounts(base: Index, records: seq<RecordKind>, k: nat, r: Uuid)
    requires Written(base, records) && k < |records| && IsRunRecord(records[k], r)
    ensures records[k].run.lastEventSequence <= |EventsOf(After(base, records, k).index, r)|
  {
    hide After, CheckpointsOk, EffectsOk, ChainOk;
    WrittenInv(base, records, k);
    FitsAt(base, records, k);
    var now := After(base, records, k).index;
    if r in now.runs {
      assert TimelineOk(now.runs[r], EventsOf(now, r));
    }
  }

  lemma RunCounts(ix: Index, r: Uuid)
    requires Inv(ix) && r in ix.runs
    ensures ix.runs[r].lastEventSequence == |EventsOf(ix, r)|
  {
    hide CheckpointsOk, EffectsOk, ChainOk;
    assert TimelineOk(ix.runs[r], EventsOf(ix, r));
  }

  /** The run counts fewer events than its timeline holds. */
  predicate SetBack(ix: Index, r: Uuid) {
    r in ix.runs && ix.runs[r].id == r && ix.runs[r].lastEventSequence < |EventsOf(ix, r)|
  }

  /**
    A surviving run with a late event is set back: all its events are there, but its
    record is the last one before that event, and counts fewer of them.
   */
  lemma LateEventSetsBack(base: Index, records: seq<RecordKind>, j: nat)
    requires Written(base, records) && j < |records| && LateEvent(records, j)
    requires forall i :: 0 <= i < |records| ==> FirstEventOk(records, i)
    ensures var again, r := After(Whole(base, records), records, |records|), EventOf(records[j]).value.runId;
            again.error.None? && SetBack(again.index, r) &&
            LastRun(records, j, r) == Some(again.index.runs[r]) &&
            EventsOf(again.index, r) == EventsOf(Whole(base, records), r) &&
            again.index != Whole(base, records)
  {
    hide Written, After, Inv, Fits, Whole, FirstEventOk, Pruned, HasEvent;
    var n, whole, r := |records|, Whole(base, records), EventOf(records[j]).value.runId;
    var k := LastRunAt(records, j, r);
    LastRunStays(records, j + 1, n, r);
    assert !IsRunRecord(records[j], r);
    LastRunStays(records, j, j + 1, r);
    ReapplyAgrees(base, records, n);
    var again := After(whole, records, n).index;
    assert RunAgrees(whole, After(base, records, n).index, again, records, n, r);
    assert Lookup(again.runs, r) == Some(records[k].run);
    RecordCounts(base, records, k, r);
    NoPruneBefore(base, records, k, j, r);
    RunGrows(base, records, k, j, r);
    WrittenInv(base, records, j);
    FitsAt(base, records, j);
    FittingEvent(After(base, records, j).index, records[j]);
    AfterStep(base, records, j);
    SurvivorGrows(base, records, j + 1, r);
    SurvivorGrows(base, records, j, r);
    WrittenInv(base, records, n);
    WholeIs(base, records);
    RunCounts(whole, r);
  }

  lemma NoPruneBefore(base: Index, records: seq<RecordKind>, k: nat, j: nat, r: Uuid)
    requires k <= j <= |records| && !Pruned(records, |records|, r)
    ensures forall m :: k <= m < j ==> !PrunesRun(records[m], r)
  {
  }

  /**
    Applying records once more to indexes that already contain them changes nothing exactly
    when every event of a surviving run is followed by a run record of it, or preceded by
    none, in the stretch; and every run pruned in the stretch that has an event there has
    its very first event there.
   */
  lemma ReapplyHarmlessIff(base: Index, records: seq<RecordKind>)
    requires Written(base, records)
    ensures ApplyAll(ApplyAll(base, records).index, records) == Applied(ApplyAll(base, records).index, None) <==> HarmlessTwice(records)
  {
    hide Written, FirstEventOk, LateEvent;
    assert records[..|records|] == records;
    if HarmlessTwice(records) {
      HarmlessSuffices(base, records);
    } else if j :| 0 <= j < |records| && !FirstEventOk(records, j) {
      GapFails(base, records, j);
    } else {
      var j :| 0 <= j < |records| && LateEvent(records, j);
      LateEventSetsBack(base, records, j);
    }
  }
}
