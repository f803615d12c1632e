/**
  The in-memory indexes: what one log record does to them, and how a snapshot
  lists and reloads them.
 */
module LedgerIndexes {
  import opened Basics
  import opened Digests
  import opened LedgerModel

  /** The value of all indexes at one moment. */
  datatype Index = Index(
    effectsById: map<Uuid, EffectRecord>,
    effectIds: map<EffectKey, Uuid>,
    runs: map<Uuid, RunRecord>,
    events: map<Uuid, seq<EventRecord>>,
    checkpoints: map<Uuid, seq<CheckpointRecord>>)

  const EmptyIndex: Index := Index(map[], map[], map[], map[], map[])

  datatype IndexError =
    | SequenceGap(runId: Uuid, have: int, got: int)
    | BrokenChain(runId: Uuid, sequence: int)

  /** The indexes after a record, and the corruption it met, if any. */
  datatype Applied = Applied(index: Index, error: Option<IndexError>)

  function EventsOf(ix: Index, runId: Uuid): seq<EventRecord> {
    if runId in ix.events then ix.events[runId] else []
  }

  function CheckpointsOf(ix: Index, runId: Uuid): seq<CheckpointRecord> {
    if runId in ix.checkpoints then ix.checkpoints[runId] else []
  }

  function HeadHash(events: seq<EventRecord>): string {
    if events == [] then GenesisHash else events[|events| - 1].hash
  }

  // ----- One record -------------------------------------------------------------

  function ApplyEventRecord(ix: Index, e: EventRecord): Applied {
    var events := EventsOf(ix, e.runId);
    // Looking the list up creates it, whatever happens next.
    var touched := ix.(events := ix.events[e.runId := events]);
    if e.sequence <= |events| then Applied(touched, None)
    else if e.sequence != |events| + 1 then Applied(touched, Some(SequenceGap(e.runId, |events|, e.sequence)))
    else if e.previousHash != HeadHash(events) then Applied(touched, Some(BrokenChain(e.runId, e.sequence)))
    else
      var runs := if e.runId in ix.runs
                  then ix.runs[e.runId := ix.runs[e.runId].(lastEventSequence := e.sequence, headHash := e.hash)]
                  else ix.runs;
      Applied(ix.(runs := runs, events := ix.events[e.runId := events + [e]]), None)
  }

  function AddCheckpoint(ix: Index, c: CheckpointRecord): Index {
    var list := CheckpointsOf(ix, c.runId);
    if exists i :: 0 <= i < |list| && list[i].id == c.id
    then ix.(checkpoints := ix.checkpoints[c.runId := list])
    else ix.(checkpoints := ix.checkpoints[c.runId := list + [c]])
  }

  function PutEffect(ix: Index, e: EffectRecord): Index {
    ix.(effectIds := ix.effectIds[EffectKeyOf(e) := e.id], effectsById := ix.effectsById[e.id := e])
  }

  function Prune(ix: Index, runIds: set<Uuid>, effectIds: set<Uuid>): Index {
    var keys := set id | id in effectIds && id in ix.effectsById :: EffectKeyOf(ix.effectsById[id]);
    Index(ix.effectsById - effectIds, ix.effectIds - keys, ix.runs - runIds, ix.events - runIds, ix.checkpoints - runIds)
  }

  function Elements<T(==)>(s: seq<T>): set<T> {
    set x | x in s
  }

  function ApplyRecord(ix: Index, kind: RecordKind): Applied {
    match kind
    case RunCreated(run) => Applied(ix.(runs := ix.runs[run.id := run]), None)
    case RunUpdated(run) => Applied(ix.(runs := ix.runs[run.id := run]), None)
    case EffectApplied(effect, event) =>
      var put := PutEffect(ix, effect);
      (match event
       case None => Applied(put, None)
       case Some(e) => ApplyEventRecord(put, e))
    case EventAppended(e) => ApplyEventRecord(ix, e)
    case CheckpointCreated(c) => Applied(AddCheckpoint(ix, c), None)
    case RetentionApplied(_, runIds, effectIds) => Applied(Prune(ix, Elements(runIds), Elements(effectIds)), None)
  }

  /** Replay: records in order, stopping at the first corruption. */
  function ApplyAll(ix: Index, kinds: seq<RecordKind>): Applied {
    if kinds == [] then Applied(ix, None)
    else
      var before := ApplyAll(ix, kinds[..|kinds| - 1]);
      if before.error.Some? then before else ApplyRecord(before.index, kinds[|kinds| - 1])
  }

  lemma {:induction false} ApplyAllSplit(ix: Index, a: seq<RecordKind>, b: seq<RecordKind>)
    requires ApplyAll(ix, a).error.None?
    ensures ApplyAll(ix, a + b) == ApplyAll(ApplyAll(ix, a).index, b)
    decreases |b|
  {
    if b == [] {
      assert a + b == a;
    } else {
      var front := b[..|b| - 1];
      assert (a + b)[..|a + b| - 1] == a + front;
      ApplyAllSplit(ix, a, front);
    }
  }

  /** Replay stops at the first corruption. */
  lemma {:induction false} FailureStays(ix: Index, a: seq<RecordKind>, b: seq<RecordKind>)
    requires ApplyAll(ix, a).error.Some?
    ensures ApplyAll(ix, a + b) == ApplyAll(ix, a)
    decreases |b|
  {
    if b == [] {
      assert a + b == a;
    } else {
      assert (a + b)[..|a + b| - 1] == a + b[..|b| - 1];
      FailureStays(ix, a, b[..|b| - 1]);
    }
  }

  // ----- Snapshots --------------------------------------------------------------

  /** The indexes written out as flat lists, in whatever order they were visited. */
  datatype PersistedState = PersistedState(
    runs: seq<RunRecord>,
    effects: seq<EffectRecord>,
    events: seq<EventRecord>,
    checkpoints: seq<CheckpointRecord>)

  /** Inserts in order; a later pair overwrites an earlier one with the same key. */
  function InsertAll<K(==), V>(pairs: seq<(K, V)>): map<K, V> {
    if pairs == [] then map[]
    else InsertAll(pairs[..|pairs| - 1])[pairs[|pairs| - 1].0 := pairs[|pairs| - 1].1]
  }

  function EventsOfRun(events: seq<EventRecord>, runId: Uuid): seq<EventRecord> {
    if events == [] then []
    else
      var front := EventsOfRun(events[..|events| - 1], runId);
      if events[|events| - 1].runId == runId then front + [events[|events| - 1]] else front
  }

  function CheckpointsOfRun(checkpoints: seq<CheckpointRecord>, runId: Uuid): seq<CheckpointRecord> {
    if checkpoints == [] then []
    else
      var front := CheckpointsOfRun(checkpoints[..|checkpoints| - 1], runId);
      if checkpoints[|checkpoints| - 1].runId == runId then front + [checkpoints[|checkpoints| - 1]] else front
  }

  /** Stable insertion by sequence number. */
  function InsertBySequence(sorted: seq<EventRecord>, e: EventRecord): seq<EventRecord> {
    if sorted == [] || sorted[|sorted| - 1].sequence <= e.sequence then sorted + [e]
    else InsertBySequence(sorted[..|sorted| - 1], e) + [sorted[|sorted| - 1]]
  }

  function SortBySequence(events: seq<EventRecord>): seq<EventRecord> {
    if events == [] then [] else InsertBySequence(SortBySequence(events[..|events| - 1]), events[|events| - 1])
  }

  function RunPairs(runs: seq<RunRecord>): (r: seq<(Uuid, RunRecord)>)
    ensures |r| == |runs|
  {
    seq(|runs|, i requires 0 <= i < |runs| => (runs[i].id, runs[i]))
  }

  function EffectPairs(effects: seq<EffectRecord>): (r: seq<(Uuid, EffectRecord)>)
    ensures |r| == |effects|
  {
    seq(|effects|, i requires 0 <= i < |effects| => (effects[i].id, effects[i]))
  }

  function KeyPairs(effects: seq<EffectRecord>): (r: seq<(EffectKey, Uuid)>)
    ensures |r| == |effects|
  {
    seq(|effects|, i requires 0 <= i < |effects| => (EffectKeyOf(effects[i]), effects[i].id))
  }

  function GroupedEvents(list: seq<EventRecord>): map<Uuid, seq<EventRecord>> {
    map r | r in (set e | e in list :: e.runId) :: EventsOfRun(list, r)
  }

  function SortedGroups(groups: map<Uuid, seq<EventRecord>>): map<Uuid, seq<EventRecord>> {
    map r | r in groups :: SortBySequence(groups[r])
  }

  function GroupedCheckpoints(list: seq<CheckpointRecord>): map<Uuid, seq<CheckpointRecord>> {
    map r | r in (set c | c in list :: c.runId) :: CheckpointsOfRun(list, r)
  }

  /** The indexes rebuilt from the lists alone; the key index is not stored, it is derived. */
  function IndexOf(s: PersistedState): Index {
    Index(
      InsertAll(EffectPairs(s.effects)),
      InsertAll(KeyPairs(s.effects)),
      InsertAll(RunPairs(s.runs)),
      SortedGroups(GroupedEvents(s.events)),
      GroupedCheckpoints(s.checkpoints))
  }

  /** Every value of the map once, in some order. */
  ghost predicate Lists<K(!new), V(!new)>(values: seq<V>, m: map<K, V>) {
    |values| == |m| && forall v :: v in values <==> v in m.Values
  }

  ghost predicate Enumerates<K(!new)>(order: seq<K>, keys: set<K>) {
    (forall k :: k in order <==> k in keys) && forall i, j :: 0 <= i < j < |order| ==> order[i] != order[j]
  }

  /** The lists of a map, one after the other in the given key order. */
  function Chained<K(==), V>(m: map<K, seq<V>>, order: seq<K>): seq<V>
    requires forall k :: k in order ==> k in m
  {
    if order == [] then [] else Chained(m, order[..|order| - 1]) + m[order[|order| - 1]]
  }

  ghost predicate ChainedInSomeOrder<K(!new), V>(values: seq<V>, m: map<K, seq<V>>) {
    exists order :: Enumerates(order, m.Keys) && values == Chained(m, order)
  }

  /** A state file that lists exactly these indexes. */
  ghost predicate Collected(ix: Index, s: PersistedState) {
    && Lists(s.runs, ix.runs)
    && Lists(s.effects, ix.effectsById)
    && ChainedInSomeOrder(s.events, ix.events)
    && ChainedInSomeOrder(s.checkpoints, ix.checkpoints)
  }

  /** What makes an index recoverable from its lists. */
  ghost predicate Listable(ix: Index) {
    && (forall r :: r in ix.runs ==> ix.runs[r].id == r)
    && (forall e :: e in ix.effectsById ==> ix.effectsById[e].id == e)
    && KeysInverse(ix)
    && (forall r :: r in ix.events ==> ix.events[r] != [] && EventsFrom(ix.events[r], r))
    && (forall r :: r in ix.checkpoints ==> ix.checkpoints[r] != [] && CheckpointsFrom(ix.checkpoints[r], r))
  }

  /** The two effect indexes are inverse to each other. */
  ghost predicate KeysInverse(ix: Index) {
    && (forall e :: e in ix.effectsById ==>
          EffectKeyOf(ix.effectsById[e]) in ix.effectIds && ix.effectIds[EffectKeyOf(ix.effectsById[e])] == e)
    && (forall k :: k in ix.effectIds ==>
          ix.effectIds[k] in ix.effectsById && EffectKeyOf(ix.effectsById[ix.effectIds[k]]) == k)
  }

  /** The events of one run, numbered from 1 without gaps. */
  predicate EventsFrom(events: seq<EventRecord>, r: Uuid) {
    forall i :: 0 <= i < |events| ==> events[i].runId == r && events[i].sequence == i + 1
  }

  predicate CheckpointsFrom(checkpoints: seq<CheckpointRecord>, r: Uuid) {
    forall i :: 0 <= i < |checkpoints| ==> checkpoints[i].runId == r
  }

  lemma {:induction false} InsertAllExact<K, V>(pairs: seq<(K, V)>, m: map<K, V>)
    requires forall i :: 0 <= i < |pairs| ==> pairs[i].0 in m && m[pairs[i].0] == pairs[i].1
    requires forall k :: k in m ==> exists i :: 0 <= i < |pairs| && pairs[i].0 == k
    ensures InsertAll(pairs) == m
  {
    InsertAllWithin(pairs, m);
    forall k | k in m ensures k in InsertAll(pairs) {
      var i :| 0 <= i < |pairs| && pairs[i].0 == k;
      InsertAllHas(pairs, i);
    }
  }

  lemma {:induction false} InsertAllWithin<K, V>(pairs: seq<(K, V)>, m: map<K, V>)
    requires forall i :: 0 <= i < |pairs| ==> pairs[i].0 in m && m[pairs[i].0] == pairs[i].1
    ensures forall k :: k in InsertAll(pairs) ==> k in m && m[k] == InsertAll(pairs)[k]
  {
    if pairs != [] {
      InsertAllWithin(pairs[..|pairs| - 1], m);
    }
  }

  lemma {:induction false} InsertAllHas<K, V>(pairs: seq<(K, V)>, i: nat)
    requires i < |pairs|
    ensures pairs[i].0 in InsertAll(pairs)
  {
    if i < |pairs| - 1 {
      InsertAllHas(pairs[..|pairs| - 1], i);
    }
  }

  lemma InsertLast(sorted: seq<EventRecord>, e: EventRecord)
    requires sorted == [] || sorted[|sorted| - 1].sequence <= e.sequence
    ensures InsertBySequence(sorted, e) == sorted + [e]
  {
  }

  lemma {:induction false} SortedAlready(events: seq<EventRecord>, r: Uuid)
    requires EventsFrom(events, r)
    ensures SortBySequence(events) == events
  {
    hide InsertBySequence;
    if events != [] {
      var front, last := events[..|events| - 1], events[|events| - 1];
      SortedAlready(front, r);
      InsertLast(front, last);
      assert events == front + [last];
    }
  }

  lemma {:induction false} EventsOfRunConcat(a: seq<EventRecord>, b: seq<EventRecord>, r: Uuid)
    ensures EventsOfRun(a + b, r) == EventsOfRun(a, r) + EventsOfRun(b, r)
    decreases |b|
  {
    if b == [] {
      assert a + b == a;
    } else {
      var front := b[..|b| - 1];
      assert (a + b)[..|a + b| - 1] == a + front;
      EventsOfRunConcat(a, front, r);
    }
  }

  lemma {:induction false} EventsOfRunUniform(events: seq<EventRecord>, owner: Uuid, r: Uuid)
    requires EventsFrom(events, owner)
    ensures EventsOfRun(events, r) == if r == owner then events else []
  {
    if events != [] {
      var front := events[..|events| - 1];
      EventsOfRunUniform(front, owner, r);
      assert events == front + [events[|events| - 1]];
    }
  }

  lemma {:induction false} EventsOfRunChained(m: map<Uuid, seq<EventRecord>>, order: seq<Uuid>, r: Uuid)
    requires forall k :: k in order ==> k in m && EventsFrom(m[k], k)
    requires forall i, j :: 0 <= i < j < |order| ==> order[i] != order[j]
    ensures EventsOfRun(Chained(m, order), r) == if r in order then m[r] else []
  {
    hide EventsOfRun, EventsFrom;
    NoEventsOfRun(r);
    if order != [] {
      var front, last := order[..|order| - 1], order[|order| - 1];
      EventsOfRunChained(m, front, r);
      EventsOfRunConcat(Chained(m, front), m[last], r);
      EventsOfRunUniform(m[last], last, r);
      assert order == front + [last] && last !in front;
    }
  }

  lemma NoEventsOfRun(r: Uuid)
    ensures EventsOfRun([], r) == []
  {
  }

  lemma {:induction false} CheckpointsOfRunConcat(a: seq<CheckpointRecord>, b: seq<CheckpointRecord>, r: Uuid)
    ensures CheckpointsOfRun(a + b, r) == CheckpointsOfRun(a, r) + CheckpointsOfRun(b, r)
    decreases |b|
  {
    if b == [] {
      assert a + b == a;
    } else {
      var front := b[..|b| - 1];
      assert (a + b)[..|a + b| - 1] == a + front;
      CheckpointsOfRunConcat(a, front, r);
    }
  }

  lemma {:induction false} CheckpointsOfRunUniform(checkpoints: seq<CheckpointRecord>, owner: Uuid, r: Uuid)
    requires CheckpointsFrom(checkpoints, owner)
    ensures CheckpointsOfRun(checkpoints, r) == if r == owner then checkpoints else []
  {
    if checkpoints != [] {
      var front := checkpoints[..|checkpoints| - 1];
      CheckpointsOfRunUniform(front, owner, r);
      assert checkpoints == front + [checkpoints[|checkpoints| - 1]];
    }
  }

  lemma {:induction false} CheckpointsOfRunChained(m: map<Uuid, seq<CheckpointRecord>>, order: seq<Uuid>, r: Uuid)
    requires forall k :: k in order ==> k in m && CheckpointsFrom(m[k], k)
    requires forall i, j :: 0 <= i < j < |order| ==> order[i] != order[j]
    ensures CheckpointsOfRun(Chained(m, order), r) == if r in order then m[r] else []
  {
    hide CheckpointsOfRun, CheckpointsFrom;
    NoCheckpointsOfRun(r);
    if order != [] {
      var front, last := order[..|order| - 1], order[|order| - 1];
      CheckpointsOfRunChained(m, front, r);
      CheckpointsOfRunConcat(Chained(m, front), m[last], r);
      CheckpointsOfRunUniform(m[last], last, r);
      assert order == front + [last] && last !in front;
    }
  }

  lemma NoCheckpointsOfRun(r: Uuid)
    ensures CheckpointsOfRun([], r) == []
  {
  }

  /** Exactly the elements of the visited lists, nothing else. */
  lemma {:induction false} ChainedMembers<K, V>(m: map<K, seq<V>>, order: seq<K>)
    requires forall k :: k in order ==> k in m
    ensures forall v :: v in Chained(m, order) <==> exists k :: k in order && v in m[k]
  {
    if order != [] {
      var front, last := order[..|order| - 1], order[|order| - 1];
      ChainedMembers(m, front);
      assert order == front + [last];
      forall v ensures v in Chained(m, order) <==> exists k :: k in order && v in m[k] {
        if k :| k in order && v in m[k] {
          if k != last { assert k in front; }
        }
      }
    }
  }

  lemma LoadsRuns(ix: Index, s: PersistedState)
    requires Listable(ix) && Lists(s.runs, ix.runs)
    ensures InsertAll(RunPairs(s.runs)) == ix.runs
  {
    var pairs := RunPairs(s.runs);
    forall i | 0 <= i < |pairs| ensures pairs[i].0 in ix.runs && ix.runs[pairs[i].0] == pairs[i].1 {
      assert s.runs[i] in ix.runs.Values;
    }
    forall k | k in ix.runs ensures exists i :: 0 <= i < |pairs| && pairs[i].0 == k {
      assert ix.runs[k] in ix.runs.Values;
      var i :| 0 <= i < |s.runs| && s.runs[i] == ix.runs[k];
      assert pairs[i].0 == k;
    }
    InsertAllExact(pairs, ix.runs);
  }

  lemma LoadsEffects(ix: Index, s: PersistedState)
    requires Listable(ix) && Lists(s.effects, ix.effectsById)
    ensures InsertAll(EffectPairs(s.effects)) == ix.effectsById
  {
    hide KeysInverse;
    var pairs := EffectPairs(s.effects);
    forall i | 0 <= i < |pairs| ensures pairs[i].0 in ix.effectsById && ix.effectsById[pairs[i].0] == pairs[i].1 {
      assert s.effects[i] in ix.effectsById.Values;
    }
    forall k | k in ix.effectsById ensures exists i :: 0 <= i < |pairs| && pairs[i].0 == k {
      assert ix.effectsById[k] in ix.effectsById.Values;
      var i :| 0 <= i < |s.effects| && s.effects[i] == ix.effectsById[k];
      assert pairs[i].0 == k;
    }
    InsertAllExact(pairs, ix.effectsById);
  }

  lemma LoadsKeys(ix: Index, s: PersistedState)
    requires Listable(ix) && Lists(s.effects, ix.effectsById)
    ensures InsertAll(KeyPairs(s.effects)) == ix.effectIds
  {
    hide EffectKeyOf;
    var keys := KeyPairs(s.effects);
    forall i | 0 <= i < |keys| ensures keys[i].0 in ix.effectIds && ix.effectIds[keys[i].0] == keys[i].1 {
      assert s.effects[i] in ix.effectsById.Values;
    }
    forall k | k in ix.effectIds ensures exists i :: 0 <= i < |keys| && keys[i].0 == k {
      var e := ix.effectsById[ix.effectIds[k]];
      assert e in ix.effectsById.Values;
      var i :| 0 <= i < |s.effects| && s.effects[i] == e;
      assert keys[i].0 == k;
    }
    InsertAllExact(keys, ix.effectIds);
  }

  lemma LoadsEvents(ix: Index, s: PersistedState)
    requires Listable(ix) && ChainedInSomeOrder(s.events, ix.events)
    ensures IndexOf(s).events == ix.events
  {
    hide SortBySequence, EventsOfRun, Chained, KeysInverse;
    var order :| Enumerates(order, ix.events.Keys) && s.events == Chained(ix.events, order);
    ChainedMembers(ix.events, order);
    var loaded := IndexOf(s).events;
    forall r | r in ix.events ensures r in loaded {
      assert ix.events[r][0] in ix.events[r];
      assert ix.events[r][0] in s.events;
    }
    forall r | r in loaded ensures r in ix.events && loaded[r] == ix.events[r] {
      var e :| e in s.events && e.runId == r;
      var k :| k in order && e in ix.events[k];
      assert k == r;
      EventsOfRunChained(ix.events, order, r);
      SortedAlready(ix.events[r], r);
    }
  }

  lemma LoadsCheckpoints(ix: Index, s: PersistedState)
    requires Listable(ix) && ChainedInSomeOrder(s.checkpoints, ix.checkpoints)
    ensures IndexOf(s).checkpoints == ix.checkpoints
  {
    hide CheckpointsOfRun, Chained, KeysInverse;
    var order :| Enumerates(order, ix.checkpoints.Keys) && s.checkpoints == Chained(ix.checkpoints, order);
    ChainedMembers(ix.checkpoints, order);
    var loaded := IndexOf(s).checkpoints;
    forall r | r in ix.checkpoints ensures r in loaded {
      assert ix.checkpoints[r][0] in ix.checkpoints[r];
      assert ix.checkpoints[r][0] in s.checkpoints;
    }
    forall r | r in loaded ensures r in ix.checkpoints && loaded[r] == ix.checkpoints[r] {
      var c :| c in s.checkpoints && c.runId == r;
      var k :| k in order && c in ix.checkpoints[k];
      assert k == r;
      CheckpointsOfRunChained(ix.checkpoints, order, r);
    }
  }

  /** Loading a snapshot of an index gives the index back, whatever order it was listed in. */
  lemma LoadCollected(ix: Index, s: PersistedState)
    requires Listable(ix) && Collected(ix, s)
    ensures IndexOf(s) == ix
  {
    LoadsRuns(ix, s);
    LoadsEffects(ix, s);
    LoadsKeys(ix, s);
    LoadsEvents(ix, s);
    LoadsCheckpoints(ix, s);
  }

  // ----- The shared indexes --------------------------------------------------------

  class Indexes {
    var effectsById: map<Uuid, EffectRecord>
    var effectIds: map<EffectKey, Uuid>
    var runs: map<Uuid, RunRecord>
    var events: map<Uuid, seq<EventRecord>>
    var checkpoints: map<Uuid, seq<CheckpointRecord>>

    constructor ()
      ensures Contents() == EmptyIndex
    {
      effectsById, effectIds, runs, events, checkpoints := map[], map[], map[], map[], map[];
    }

    function Contents(): Index
      reads this
    {
      Index(effectsById, effectIds, runs, events, checkpoints)
    }

    /** Applies one persisted mutation; corruption is reported, and what was done before it stays done. */
    method Apply(kind: RecordKind) returns (error: Option<IndexError>)
      modifies this
      ensures Applied(Contents(), error) == ApplyRecord(old(Contents()), kind)
    {
      match kind
      case RunCreated(run) =>
        runs := runs[run.id := run];
        error := None;
      case RunUpdated(run) =>
        runs := runs[run.id := run];
        error := None;
      case EffectApplied(effect, event) =>
        effectIds := effectIds[EffectKeyOf(effect) := effect.id];
        effectsById := effectsById[effect.id := effect];
        error := None;
        if event.Some? {
          error := ApplyEvent(event.value);
        }
      case EventAppended(event) =>
        error := ApplyEvent(event);
      case CheckpointCreated(checkpoint) =>
        var list := CheckpointsOf(Contents(), checkpoint.runId);
        if !exists i :: 0 <= i < |list| && list[i].id == checkpoint.id {
          list := list + [checkpoint];
        }
        checkpoints := checkpoints[checkpoint.runId := list];
        error := None;
      case RetentionApplied(_, runIds, effectIds) =>
        RemoveRuns(runIds);
        RemoveEffects(effectIds);
        error := None;
    }

    method ApplyEvent(event: EventRecord) returns (error: Option<IndexError>)
      modifies this
      ensures Applied(Contents(), error) == ApplyEventRecord(old(Contents()), event)
    {
      var list := EventsOf(Contents(), event.runId);
      events := events[event.runId := list];
      if event.sequence <= |list| {
        return None;
      }
      if event.sequence != |list| + 1 {
        return Some(SequenceGap(event.runId, |list|, event.sequence));
      }
      var expectedPrevious := HeadHash(list);
      if event.previousHash != expectedPrevious {
        return Some(BrokenChain(event.runId, event.sequence));
      }
      if event.runId in runs {
        runs := runs[event.runId := runs[event.runId].(lastEventSequence := event.sequence, headHash := event.hash)];
      }
      events := events[event.runId := list + [event]];
      return None;
    }

    method RemoveRuns(runIds: seq<Uuid>)
      modifies this
      ensures Contents() == old(Contents()).(
                runs := old(runs) - Elements(runIds),
                events := old(events) - Elements(runIds),
                checkpoints := old(checkpoints) - Elements(runIds))
    {
      for i := 0 to |runIds|
        invariant runs == old(runs) - Elements(runIds[..i])
        invariant events == old(events) - Elements(runIds[..i])
        invariant checkpoints == old(checkpoints) - Elements(runIds[..i])
        invariant effectsById == old(effectsById) && effectIds == old(effectIds)
      {
        var runId := runIds[i];
        assert runIds[..i + 1] == runIds[..i] + [runId];
        runs := runs - {runId};
        events := events - {runId};
        checkpoints := checkpoints - {runId};
      }
      assert runIds[..|runIds|] == runIds;
    }

    method RemoveEffects(ids: seq<Uuid>)
      modifies this
      ensures Contents() == Prune(old(Contents()), {}, Elements(ids))
    {
      for i := 0 to |ids|
        invariant Contents() == Prune(old(Contents()), {}, Elements(ids[..i]))
      {
        var id := ids[i];
        assert ids[..i + 1] == ids[..i] + [id];
        PruneOneMore(old(Contents()), Elements(ids[..i]), id);
        if id in effectsById {
          var effect := effectsById[id];
          effectsById := effectsById - {id};
          effectIds := effectIds - {EffectKeyOf(effect)};
        }
        assert Elements(ids[..i + 1]) == Elements(ids[..i]) + {id};
      }
      assert ids[..|ids|] == ids;
    }

    /** Writes the indexes out as lists, visiting each map in an arbitrary order. */
    method CollectState() returns (s: PersistedState)
      ensures Collected(Contents(), s)
    {
      var runList := ListValues(runs);
      var effectList := ListValues(effectsById);
      var eventList := ListChained(events);
      var checkpointList := ListChained(checkpoints);
      s := PersistedState(runList, effectList, eventList, checkpointList);
    }

    /** Fills fresh indexes from a snapshot. */
    method LoadState(s: PersistedState)
      requires Contents() == EmptyIndex
      modifies this
      ensures Contents() == IndexOf(s)
    {
      LoadRuns(s.runs);
      LoadEffects(s.effects);
      LoadEvents(s.events);
      LoadCheckpoints(s.checkpoints);
    }

    method LoadRuns(list: seq<RunRecord>)
      requires runs == map[]
      modifies this
      ensures Contents() == old(Contents()).(runs := InsertAll(RunPairs(list)))
    {
      for i := 0 to |list|
        invariant Contents() == old(Contents()).(runs := InsertAll(RunPairs(list[..i])))
      {
        assert RunPairs(list[..i + 1])[..i] == RunPairs(list[..i]);
        runs := runs[list[i].id := list[i]];
      }
      assert list[..|list|] == list;
    }

    method LoadEffects(list: seq<EffectRecord>)
      requires effectIds == map[] && effectsById == map[]
      modifies this
      ensures Contents() == old(Contents()).(
                effectsById := InsertAll(EffectPairs(list)), effectIds := InsertAll(KeyPairs(list)))
    {
      for i := 0 to |list|
        invariant effectsById == InsertAll(EffectPairs(list[..i]))
        invariant effectIds == InsertAll(KeyPairs(list[..i]))
        invariant runs == old(runs) && events == old(events) && checkpoints == old(checkpoints)
      {
        assert EffectPairs(list[..i + 1])[..i] == EffectPairs(list[..i]);
        assert KeyPairs(list[..i + 1])[..i] == KeyPairs(list[..i]);
        effectIds := effectIds[EffectKeyOf(list[i]) := list[i].id];
        effectsById := effectsById[list[i].id := list[i]];
      }
      assert list[..|list|] == list;
    }

    method LoadEvents(list: seq<EventRecord>)
      requires events == map[]
      modifies this
      ensures Contents() == old(Contents()).(events := SortedGroups(GroupedEvents(list)))
    {
      hide SortBySequence, EventsOfRun;
      var byRun: map<Uuid, seq<EventRecord>> := map[];
      for i := 0 to |list|
        invariant byRun == GroupedEvents(list[..i])
        invariant Contents() == old(Contents())
      {
        var e := list[i];
        GroupOneMore(list[..i], e);
        assert list[..i + 1] == list[..i] + [e];
        byRun := byRun[e.runId := (if e.runId in byRun then byRun[e.runId] else []) + [e]];
      }
      assert list[..|list|] == list;
      events := SortedGroups(byRun);
    }

    method LoadCheckpoints(list: seq<CheckpointRecord>)
      requires checkpoints == map[]
      modifies this
      ensures Contents() == old(Contents()).(checkpoints := GroupedCheckpoints(list))
    {
      for i := 0 to |list|
        invariant Contents() == old(Contents()).(checkpoints := GroupedCheckpoints(list[..i]))
      {
        var c := list[i];
        GroupOneMoreCheckpoint(list[..i], c);
        assert list[..i + 1] == list[..i] + [c];
        checkpoints := checkpoints[c.runId := (if c.runId in checkpoints then checkpoints[c.runId] else []) + [c]];
      }
      assert list[..|list|] == list;
    }
  }

  lemma PruneOneMore(ix: Index, ids: set<Uuid>, id: Uuid)
    ensures var before := Prune(ix, {}, ids);
            Prune(ix, {}, ids + {id}) ==
            if id in before.effectsById
            then before.(effectsById := before.effectsById - {id},
                         effectIds := before.effectIds - {EffectKeyOf(before.effectsById[id])})
            else before
  {
    var before := Prune(ix, {}, ids);
    var keys := set i | i in ids && i in ix.effectsById :: EffectKeyOf(ix.effectsById[i]);
    var more := set i | i in ids + {id} && i in ix.effectsById :: EffectKeyOf(ix.effectsById[i]);
    if id in before.effectsById {
      assert more == keys + {EffectKeyOf(ix.effectsById[id])};
    } else {
      assert more == keys;
    }
  }

  lemma {:induction false} EventsOfRunEmpty(list: seq<EventRecord>, r: Uuid)
    requires r !in (set e | e in list :: e.runId)
    ensures EventsOfRun(list, r) == []
  {
    if list != [] {
      var front, last := list[..|list| - 1], list[|list| - 1];
      assert last in list;
      forall e | e in front ensures e in list {}
      EventsOfRunEmpty(front, r);
    }
  }

  lemma GroupOneMore(list: seq<EventRecord>, e: EventRecord)
    ensures var before := GroupedEvents(list);
            GroupedEvents(list + [e]) ==
            before[e.runId := (if e.runId in before then before[e.runId] else []) + [e]]
  {
    assert (list + [e])[..|list|] == list;
    if e.runId !in GroupedEvents(list) {
      EventsOfRunEmpty(list, e.runId);
    }
  }

  lemma {:induction false} CheckpointsOfRunEmpty(list: seq<CheckpointRecord>, r: Uuid)
    requires r !in (set c | c in list :: c.runId)
    ensures CheckpointsOfRun(list, r) == []
  {
    if list != [] {
      var front, last := list[..|list| - 1], list[|list| - 1];
      assert last in list;
      forall c | c in front ensures c in list {}
      CheckpointsOfRunEmpty(front, r);
    }
  }

  lemma GroupOneMoreCheckpoint(list: seq<CheckpointRecord>, c: CheckpointRecord)
    ensures var before := GroupedCheckpoints(list);
            GroupedCheckpoints(list + [c]) ==
            before[c.runId := (if c.runId in before then before[c.runId] else []) + [c]]
  {
    assert (list + [c])[..|list|] == list;
    if c.runId !in GroupedCheckpoints(list) {
      CheckpointsOfRunEmpty(list, c.runId);
    }
  }

  /** The values of a map with distinct values, in the order the map happens to be visited. */
  method ListValues<K(==, !new), V(!new)>(m: map<K, V>) returns (values: seq<V>)
    ensures Lists(values, m)
  {
    var keys := m.Keys;
    values := [];
    while keys != {}
      invariant keys <= m.Keys
      invariant |values| + |keys| == |m|
      invariant forall v :: v in values <==> exists k :: k in m.Keys - keys && m[k] == v
    {
      var k :| k in keys;
      values := values + [m[k]];
      keys := keys - {k};
    }
  }

  method ListChained<K(==, !new), V>(m: map<K, seq<V>>) returns (values: seq<V>)
    ensures ChainedInSomeOrder(values, m)
  {
    var keys := m.Keys;
    var order: seq<K> := [];
    values := [];
    while keys != {}
      invariant keys <= m.Keys
      invariant Enumerates(order, m.Keys - keys)
      invariant values == Chained(m, order)
    {
      var k :| k in keys;
      values := values + m[k];
      assert (order + [k])[..|order|] == order;
      order := order + [k];
      keys := keys - {k};
    }
  }
}
