/**
  What each stream operation does, on values: deliveries, acknowledgements, claims
  and the consumer book-keeping that must stay in step with the group's pending list.
 */
module StreamGroups {
  import opened Basics
  import opened StreamModel

  datatype ClaimOptions = ClaimOptions(
    minIdleMs: nat,
    setIdleMs: Option<nat>,
    setTimeMs: Option<nat>,
    setRetry: Option<nat>,
    force: bool,
    justId: bool)

  /** Subtraction that stops at zero. */
  function Since(now: nat, then': nat): nat {
    if then' <= now then now - then' else 0
  }

  /** Delivered at least this long ago. */
  predicate IdleFor(p: PendingEntry, minIdleMs: nat, nowMs: nat) {
    minIdleMs == 0 || p.deliveryTimeMs + minIdleMs <= nowMs
  }

  lemma IdleForIff(p: PendingEntry, minIdleMs: nat, nowMs: nat)
    ensures Since(nowMs, p.deliveryTimeMs) >= minIdleMs <==> IdleFor(p, minIdleMs, nowMs)
  {
  }

  // ----- Small pieces --------------------------------------------------------------

  /** The group with the consumer present, as new if it was not. */
  function WithConsumer(g: Group, name: string): Group {
    if name in g.consumers then g else g.(consumers := g.consumers[name := Consumer({}, 0, 0)])
  }

  /** The consumers after one of them, if present, lets go of an id. */
  function LetGo(consumers: map<string, Consumer>, name: string, id: StreamId): map<string, Consumer> {
    if name in consumers then consumers[name := consumers[name].(pending := consumers[name].pending - {id})] else consumers
  }

  /** An id leaves the pending list and its owner's set. */
  function Removed(g: Group, id: StreamId): Group {
    if id !in g.pending then g
    else g.(pending := g.pending - {id}, consumers := LetGo(g.consumers, g.pending[id].consumer, id))
  }

  /** An id enters the pending list and a present consumer's set. */
  function Handed(g: Group, id: StreamId, name: string, timeMs: nat, count: nat): Group {
    g.(pending := g.pending[id := PendingEntry(name, timeMs, count)],
       consumers := if name in g.consumers
                    then g.consumers[name := g.consumers[name].(pending := g.consumers[name].pending + {id})]
                    else g.consumers)
  }

  function Touched(g: Group, name: string, nowMs: nat, active: bool): Group {
    if name !in g.consumers then g
    else
      var c := g.consumers[name];
      g.(consumers := g.consumers[name := c.(seenTimeMs := nowMs, activeTimeMs := if active then nowMs else c.activeTimeMs)])
  }

  // ----- Operations on one group -------------------------------------------------------

  function DeliverOne(g: Group, id: StreamId, name: string, nowMs: nat, noack: bool): Group {
    var passed := g.(lastDeliveredId := id, entriesRead := g.entriesRead + 1);
    if noack then passed else Handed(passed, id, name, nowMs, 1)
  }

  function DeliverAll(g: Group, ids: seq<StreamId>, name: string, nowMs: nat, noack: bool): Group {
    if ids == [] then g
    else DeliverOne(DeliverAll(g, ids[..|ids| - 1], name, nowMs, noack), ids[|ids| - 1], name, nowMs, noack)
  }

  /** The ids a read for new entries delivers: the first ones past the group's mark. */
  ghost function NewIds(entries: map<StreamId, Fields>, after: StreamId, count: Option<nat>): seq<StreamId> {
    var ids := Ascending(set id | id in entries && IdLess(after, id));
    if count.Some? && count.value < |ids| then ids[..count.value] else ids
  }

  ghost function ReadNew(entries: map<StreamId, Fields>, g: Group, name: string, count: Option<nat>, nowMs: nat,
                         noack: bool): Group {
    var ids := NewIds(entries, g.lastDeliveredId, count);
    Touched(DeliverAll(WithConsumer(g, name), ids, name, nowMs, noack), name, nowMs, ids != [])
  }

  function AckAll(g: Group, ids: seq<StreamId>): Group {
    if ids == [] then g else Removed(AckAll(g, ids[..|ids| - 1]), ids[|ids| - 1])
  }

  function DropConsumer(g: Group, name: string): Group {
    if name !in g.consumers then g
    else g.(consumers := g.consumers - {name}, pending := g.pending - g.consumers[name].pending)
  }

  function AddConsumer(g: Group, name: string, nowMs: nat): Group {
    if name in g.consumers then g else g.(consumers := g.consumers[name := Consumer({}, nowMs, nowMs)])
  }

  /** An id changes hands: out of its owner's set if that is someone else, then to the claimer. */
  function Taken(g: Group, id: StreamId, name: string, timeMs: nat, count: nat, nowMs: nat): Group {
    var freed := if id in g.pending && g.pending[id].consumer != name
                 then g.(consumers := LetGo(g.consumers, g.pending[id].consumer, id)) else g;
    Touched(Handed(freed, id, name, timeMs, count), name, nowMs, true)
  }

  /** Whether a claim takes the id over. */
  predicate Claims(live: bool, g: Group, id: StreamId, opt: ClaimOptions, nowMs: nat) {
    && live
    && (id in g.pending || opt.force)
    && (id in g.pending ==> Since(nowMs, g.pending[id].deliveryTimeMs) >= opt.minIdleMs)
  }

  function ClaimOne(live: bool, g: Group, id: StreamId, name: string, opt: ClaimOptions, nowMs: nat): Group {
    if id !in g.pending && !opt.force then g
    else if !live then Removed(g, id)
    else if !Claims(live, g, id, opt, nowMs) then g
    else
      var before := if id in g.pending then g.pending[id].deliveryCount else 0;
      var timeMs := if opt.setTimeMs.Some? then opt.setTimeMs.value
                    else Since(nowMs, if opt.setIdleMs.Some? then opt.setIdleMs.value else 0);
      var count := if opt.setRetry.Some? then opt.setRetry.value else if opt.justId then before else before + 1;
      Taken(g, id, name, timeMs, count, nowMs)
  }

  function ClaimAll(entries: map<StreamId, Fields>, g: Group, ids: seq<StreamId>, name: string, opt: ClaimOptions,
                    nowMs: nat): Group {
    if ids == [] then g
    else
      var id := ids[|ids| - 1];
      ClaimOne(id in entries, ClaimAll(entries, g, ids[..|ids| - 1], name, opt, nowMs), id, name, opt, nowMs)
  }

  /** The ids a claim took over, in the order asked. */
  function ClaimedIds(entries: map<StreamId, Fields>, g: Group, ids: seq<StreamId>, name: string, opt: ClaimOptions,
                      nowMs: nat): seq<StreamId> {
    if ids == [] then []
    else
      var front, id := ids[..|ids| - 1], ids[|ids| - 1];
      var claimed := ClaimedIds(entries, g, front, name, opt, nowMs);
      if Claims(id in entries, ClaimAll(entries, g, front, name, opt, nowMs), id, opt, nowMs) then claimed + [id] else claimed
  }

  // ----- Autoclaim ------------------------------------------------------------------------

  /** What an autoclaim scan has done so far. */
  datatype Sweep = Sweep(group: Group, claimed: seq<StreamId>, deleted: seq<StreamId>)

  datatype AutoOptions = AutoOptions(name: string, minIdleMs: nat, nowMs: nat, justId: bool)

  predicate IdleEnough(g: Group, id: StreamId, opt: AutoOptions) {
    id in g.pending && Since(opt.nowMs, g.pending[id].deliveryTimeMs) >= opt.minIdleMs
  }

  function SweepOne(live: bool, s: Sweep, id: StreamId, opt: AutoOptions): Sweep {
    if !IdleEnough(s.group, id, opt) then s
    else if !live then s.(group := Removed(s.group, id), deleted := s.deleted + [id])
    else
      var before := s.group.pending[id].deliveryCount;
      s.(group := Taken(s.group, id, opt.name, opt.nowMs, if opt.justId then before else before + 1, opt.nowMs),
         claimed := s.claimed + [id])
  }

  function SweepAll(entries: map<StreamId, Fields>, s: Sweep, ids: seq<StreamId>, opt: AutoOptions): Sweep {
    if ids == [] then s
    else SweepOne(ids[|ids| - 1] in entries, SweepAll(entries, s, ids[..|ids| - 1], opt), ids[|ids| - 1], opt)
  }

  // ----- Agreement ---------------------------------------------------------------------------

  /** An id is pending for a consumer in the group's list exactly when it is in that consumer's own set. */
  ghost predicate Agrees(g: Group) {
    && (forall id :: id in g.pending ==>
          g.pending[id].consumer in g.consumers && id in g.consumers[g.pending[id].consumer].pending)
    && (forall name, id :: name in g.consumers && id in g.consumers[name].pending ==>
          id in g.pending && g.pending[id].consumer == name)
  }

  /** The id is pending for somebody else. */
  predicate HeldByOther(g: Group, id: StreamId, name: string) {
    id in g.pending && g.pending[id].consumer != name
  }

  lemma WithConsumerAgrees(g: Group, name: string)
    requires Agrees(g)
    ensures Agrees(WithConsumer(g, name)) && name in WithConsumer(g, name).consumers
  {
  }

  lemma TouchedAgrees(g: Group, name: string, nowMs: nat, active: bool)
    ensures Agrees(Touched(g, name, nowMs, active)) <==> Agrees(g)
  {
    var t := Touched(g, name, nowMs, active);
    assert forall n :: n in g.consumers <==> n in t.consumers;
    assert forall n :: n in g.consumers ==> t.consumers[n].pending == g.consumers[n].pending;
  }

  lemma RemovedAgrees(g: Group, id: StreamId)
    requires Agrees(g)
    ensures Agrees(Removed(g, id))
  {
  }

  lemma TakenAgrees(g: Group, id: StreamId, name: string, timeMs: nat, count: nat, nowMs: nat)
    requires Agrees(g) && name in g.consumers
    ensures Agrees(Taken(g, id, name, timeMs, count, nowMs))
    ensures Taken(g, id, name, timeMs, count, nowMs).consumers.Keys == g.consumers.Keys
  {
    var freed := if HeldByOther(g, id, name) then g.(consumers := LetGo(g.consumers, g.pending[id].consumer, id)) else g;
    var h := Handed(freed, id, name, timeMs, count);
    assert Agrees(h);
    TouchedAgrees(h, name, nowMs, true);
  }

  lemma {:induction false} AckAgrees(g: Group, ids: seq<StreamId>)
    requires Agrees(g)
    ensures Agrees(AckAll(g, ids))
  {
    hide Removed;
    if ids != [] {
      AckAgrees(g, ids[..|ids| - 1]);
      RemovedAgrees(AckAll(g, ids[..|ids| - 1]), ids[|ids| - 1]);
    }
  }

  lemma DropAgrees(g: Group, name: string)
    requires Agrees(g)
    ensures Agrees(DropConsumer(g, name))
  {
  }

  lemma AddConsumerAgrees(g: Group, name: string, nowMs: nat)
    requires Agrees(g)
    ensures Agrees(AddConsumer(g, name, nowMs))
  {
  }

  lemma RemovedKeepsNames(g: Group, id: StreamId)
    ensures Removed(g, id).consumers.Keys == g.consumers.Keys
  {
  }

  lemma {:induction false} ClaimAgrees(entries: map<StreamId, Fields>, g: Group, ids: seq<StreamId>, name: string,
                                       opt: ClaimOptions, nowMs: nat)
    requires Agrees(g) && name in g.consumers
    ensures Agrees(ClaimAll(entries, g, ids, name, opt, nowMs))
    ensures name in ClaimAll(entries, g, ids, name, opt, nowMs).consumers
  {
    hide Removed, Taken, Agrees, Claims;
    if ids != [] {
      var front, id := ids[..|ids| - 1], ids[|ids| - 1];
      ClaimAgrees(entries, g, front, name, opt, nowMs);
      var before := ClaimAll(entries, g, front, name, opt, nowMs);
      RemovedAgrees(before, id);
      RemovedKeepsNames(before, id);
      forall timeMs: nat, count: nat
        ensures Agrees(Taken(before, id, name, timeMs, count, nowMs)) &&
                name in Taken(before, id, name, timeMs, count, nowMs).consumers
      {
        TakenAgrees(before, id, name, timeMs, count, nowMs);
      }
    }
  }

  lemma {:induction false} SweepAgrees(entries: map<StreamId, Fields>, s: Sweep, ids: seq<StreamId>, opt: AutoOptions)
    requires Agrees(s.group) && opt.name in s.group.consumers
    ensures Agrees(SweepAll(entries, s, ids, opt).group)
    ensures opt.name in SweepAll(entries, s, ids, opt).group.consumers
  {
    hide Removed, Taken, Agrees;
    if ids != [] {
      var front, id := ids[..|ids| - 1], ids[|ids| - 1];
      SweepAgrees(entries, s, front, opt);
      var before := SweepAll(entries, s, front, opt).group;
      RemovedAgrees(before, id);
      RemovedKeepsNames(before, id);
      forall count: nat
        ensures Agrees(Taken(before, id, opt.name, opt.nowMs, count, opt.nowMs))
        ensures opt.name in Taken(before, id, opt.name, opt.nowMs, count, opt.nowMs).consumers
      {
        TakenAgrees(before, id, opt.name, opt.nowMs, count, opt.nowMs);
      }
    }
  }

  // ----- Deliveries: agreement, exactly when ----------------------------------------------------

  /** What a delivery of distinct ids leaves behind. */
  lemma {:induction false} Delivered(g: Group, ids: seq<StreamId>, name: string, nowMs: nat, noack: bool)
    requires name in g.consumers
    ensures var d := DeliverAll(g, ids, name, nowMs, noack);
            d.lastDeliveredId == (if ids == [] then g.lastDeliveredId else ids[|ids| - 1]) &&
            d.entriesRead == g.entriesRead + |ids| &&
            d.consumers.Keys == g.consumers.Keys &&
            (forall n :: n in g.consumers && n != name ==> d.consumers[n] == g.consumers[n]) &&
            d.consumers[name].pending ==
              (if noack then g.consumers[name].pending else g.consumers[name].pending + (set id | id in ids)) &&
            d.pending.Keys == (if noack then g.pending.Keys else g.pending.Keys + (set id | id in ids)) &&
            (forall id :: id in d.pending ==>
               d.pending[id] == if !noack && id in ids then PendingEntry(name, nowMs, 1) else g.pending[id])
  {
    if ids != [] {
      var front, last := ids[..|ids| - 1], ids[|ids| - 1];
      assert ids == front + [last];
      Delivered(g, front, name, nowMs, noack);
    }
  }

  /**
    A read for new entries keeps the pending list and the consumers' sets in agreement
    exactly when it needs no acknowledgement or delivers nothing that is pending for
    someone else.
   */
  lemma ReadNewAgreesIff(entries: map<StreamId, Fields>, g: Group, name: string, count: Option<nat>, nowMs: nat,
                         noack: bool)
    requires Agrees(g)
    ensures Agrees(ReadNew(entries, g, name, count, nowMs, noack)) <==>
            noack || forall id :: id in NewIds(entries, g.lastDeliveredId, count) ==> !HeldByOther(g, id, name)
  {
    hide NewIds, DeliverAll, Touched, Agrees, HeldByOther;
    var ids := NewIds(entries, g.lastDeliveredId, count);
    WithConsumerAgrees(g, name);
    var w := WithConsumer(g, name);
    DeliverAgreesIff(w, ids, name, nowMs, noack);
    TouchedAgrees(DeliverAll(w, ids, name, nowMs, noack), name, nowMs, ids != []);
    assert forall id :: HeldByOther(w, id, name) <==> HeldByOther(g, id, name) by {
      SameHolders(g, name);
    }
  }

  lemma SameHolders(g: Group, name: string)
    ensures forall id :: HeldByOther(WithConsumer(g, name), id, name) <==> HeldByOther(g, id, name)
  {
  }

  lemma DeliverAgreesIff(g: Group, ids: seq<StreamId>, name: string, nowMs: nat, noack: bool)
    requires Agrees(g) && name in g.consumers
    ensures Agrees(DeliverAll(g, ids, name, nowMs, noack)) <==> noack || forall id :: id in ids ==> !HeldByOther(g, id, name)
  {
    hide DeliverAll;
    Delivered(g, ids, name, nowMs, noack);
    var d := DeliverAll(g, ids, name, nowMs, noack);
    if !noack {
      if id :| id in ids && HeldByOther(g, id, name) {
        var other := g.pending[id].consumer;
        assert id in d.consumers[other].pending && d.pending[id].consumer == name;
      } else {
        forall n, id | n in d.consumers && id in d.consumers[n].pending
          ensures id in d.pending && d.pending[id].consumer == n
        {
          if n != name {
            assert id in g.consumers[n].pending;
          }
        }
      }
    }
  }

  // ----- What a claim decides -------------------------------------------------------------------

  function Lookup(g: Group, id: StreamId): Option<PendingEntry> {
    if id in g.pending then Some(g.pending[id]) else None
  }

  /** The pending entry a claim leaves an id with, judged on the group as it was. */
  function ClaimOutcome(live: bool, g: Group, id: StreamId, name: string, opt: ClaimOptions,
                        nowMs: nat): Option<PendingEntry> {
    if !live then (if id in g.pending || opt.force then None else Lookup(g, id))
    else if !Claims(live, g, id, opt, nowMs) then Lookup(g, id)
    else
      var before := if id in g.pending then g.pending[id].deliveryCount else 0;
      Some(PendingEntry(
             name,
             if opt.setTimeMs.Some? then opt.setTimeMs.value
             else Since(nowMs, if opt.setIdleMs.Some? then opt.setIdleMs.value else 0),
             if opt.setRetry.Some? then opt.setRetry.value else before + if opt.justId then 0 else 1))
  }

  lemma ClaimOneOutcome(live: bool, g: Group, id: StreamId, name: string, opt: ClaimOptions, nowMs: nat)
    ensures Lookup(ClaimOne(live, g, id, name, opt, nowMs), id) == ClaimOutcome(live, g, id, name, opt, nowMs)
    ensures forall x :: x != id ==> Lookup(ClaimOne(live, g, id, name, opt, nowMs), x) == Lookup(g, x)
  {
  }

  lemma SameEntrySameOutcome(live: bool, a: Group, b: Group, id: StreamId, name: string, opt: ClaimOptions, nowMs: nat)
    requires Lookup(a, id) == Lookup(b, id)
    ensures ClaimOutcome(live, a, id, name, opt, nowMs) == ClaimOutcome(live, b, id, name, opt, nowMs)
    ensures Claims(live, a, id, opt, nowMs) <==> Claims(live, b, id, opt, nowMs)
  {
  }

  /**
    A claim of distinct ids decides each on the group as it was, whatever the order: the ids
    with a live entry that are idle enough, or forced, are the claimer's; those without an
    entry are gone; the rest, and every id not listed, are as they were.
   */
  lemma {:induction false} ClaimDecidesEach(entries: map<StreamId, Fields>, g: Group, ids: seq<StreamId>, name: string,
                                            opt: ClaimOptions, nowMs: nat)
    requires forall i, j :: 0 <= i < j < |ids| ==> ids[i] != ids[j]
    ensures forall id :: Lookup(ClaimAll(entries, g, ids, name, opt, nowMs), id) ==
              if id in ids then ClaimOutcome(id in entries, g, id, name, opt, nowMs) else Lookup(g, id)
    ensures forall id :: id in ClaimedIds(entries, g, ids, name, opt, nowMs) <==>
              id in ids && Claims(id in entries, g, id, opt, nowMs)
  {
    hide ClaimOne, ClaimOutcome, Claims;
    if ids != [] {
      var front, last := ids[..|ids| - 1], ids[|ids| - 1];
      ClaimDecidesEach(entries, g, front, name, opt, nowMs);
      assert ids == front + [last] && last !in front;
      var before := ClaimAll(entries, g, front, name, opt, nowMs);
      ClaimOneOutcome(last in entries, before, last, name, opt, nowMs);
      SameEntrySameOutcome(last in entries, before, g, last, name, opt, nowMs);
    }
  }
}
