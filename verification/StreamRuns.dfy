/**
  Whole runs of a stream and one of its consumer groups: agreement of the pending
  lists, conservation of deliveries, and the delivery of new entries.
 */
module StreamRuns {
  import opened Basics
  import opened StreamModel
  import opened StreamGroups

  // ----- The log itself ------------------------------------------------------------------

  function Added(s: Stream, id: StreamId, fields: Fields): Stream {
    if id == MIN_ID || IdLeq(id, s.lastId) then s
    else s.(entries := s.entries[id := fields], lastId := id, entriesAdded := s.entriesAdded + 1)
  }

  function DeletedOne(s: Stream, id: StreamId): Stream {
    if id !in s.entries then s
    else s.(entries := s.entries - {id}, maxDeletedId := if IdLess(s.maxDeletedId, id) then id else s.maxDeletedId)
  }

  function DeletedAll(s: Stream, ids: seq<StreamId>): Stream {
    if ids == [] then s else DeletedOne(DeletedAll(s, ids[..|ids| - 1]), ids[|ids| - 1])
  }

  /** The oldest entries a trim removes. */
  ghost function Victims(s: Stream, maxLen: nat): seq<StreamId> {
    var ids := Ascending(s.entries.Keys);
    if |ids| <= maxLen then [] else ids[..|ids| - maxLen]
  }

  ghost function Trimmed(s: Stream, maxLen: nat): Stream {
    var victims := Victims(s, maxLen);
    if victims == [] then s
    else
      var largest := victims[|victims| - 1];
      s.(entries := s.entries - Members(victims),
         maxDeletedId := if IdLess(s.maxDeletedId, largest) then largest else s.maxDeletedId)
  }

  // ----- Autoclaim in batches --------------------------------------------------------------

  ghost function Candidates(g: Group, start: StreamId): seq<StreamId> {
    Ascending(set id | id in g.pending && IdLeq(start, id))
  }

  /** How many candidates a scan looks at before it has claimed enough. */
  function Examined(entries: map<StreamId, Fields>, g: Group, ids: seq<StreamId>, opt: AutoOptions, attempts: nat,
                    k: nat): (n: nat)
    requires k <= |ids|
    ensures k <= n <= |ids|
    decreases |ids| - k
  {
    if k == |ids| || |SweepAll(entries, Sweep(g, [], []), ids[..k], opt).claimed| >= attempts then k
    else Examined(entries, g, ids, opt, attempts, k + 1)
  }

  datatype AutoResult = AutoResult(sweep: Sweep, cursor: StreamId)

  ghost function Autoclaim(entries: map<StreamId, Fields>, g: Group, start: StreamId, count: nat,
                           opt: AutoOptions): AutoResult {
    var w := WithConsumer(g, opt.name);
    var ids := Candidates(w, start);
    var n := Examined(entries, w, ids, opt, if count == 0 then 1 else count, 0);
    AutoResult(SweepAll(entries, Sweep(w, [], []), ids[..n], opt), if n < |ids| then ids[n] else MIN_ID)
  }

  // ----- What an operation reports -----------------------------------------------------------

  /** The ids an acknowledgement counts. */
  function AckedIds(g: Group, ids: seq<StreamId>): seq<StreamId> {
    if ids == [] then []
    else
      var acked := AckedIds(g, ids[..|ids| - 1]);
      if ids[|ids| - 1] in AckAll(g, ids[..|ids| - 1]).pending then acked + [ids[|ids| - 1]] else acked
  }

  /** The ids a claim drops from the pending list because their entries are gone. */
  function PurgedIds(entries: map<StreamId, Fields>, g: Group, ids: seq<StreamId>, name: string, opt: ClaimOptions,
                     nowMs: nat): seq<StreamId> {
    if ids == [] then []
    else
      var front, id := ids[..|ids| - 1], ids[|ids| - 1];
      var purged := PurgedIds(entries, g, front, name, opt, nowMs);
      if id !in entries && id in ClaimAll(entries, g, front, name, opt, nowMs).pending then purged + [id] else purged
  }

  /** The ids a forced claim adds to the pending list. */
  function ForcedIds(entries: map<StreamId, Fields>, g: Group, ids: seq<StreamId>, name: string, opt: ClaimOptions,
                     nowMs: nat): seq<StreamId> {
    if ids == [] then []
    else
      var front, id := ids[..|ids| - 1], ids[|ids| - 1];
      var forced := ForcedIds(entries, g, front, name, opt, nowMs);
      if opt.force && id in entries && id !in ClaimAll(entries, g, front, name, opt, nowMs).pending
      then forced + [id] else forced
  }

  function OwnedBy(g: Group, name: string): set<StreamId> {
    if name in g.consumers then g.consumers[name].pending else {}
  }

  // ----- Steps ---------------------------------------------------------------------------------

  /**
    Book-keeping for the statements below. `owed` are deliveries that need an
    acknowledgement, `forced` pending entries made by forced claims; `acked`, `purged`
    and `dropped` are the three ways an id stops being pending. `delivered` lists all
    deliveries of new entries in order, `added` every id the stream has held, `missed`
    the ids removed while the group had yet to reach them.
   */
  datatype Books = Books(
    owed: multiset<StreamId>,
    forced: multiset<StreamId>,
    acked: multiset<StreamId>,
    purged: multiset<StreamId>,
    dropped: multiset<StreamId>,
    delivered: seq<StreamId>,
    added: set<StreamId>,
    missed: set<StreamId>)

  datatype System = System(stream: Stream, group: Group, books: Books)

  datatype Step =
    | Add(id: StreamId, fields: Fields)
    | Delete(ids: seq<StreamId>)
    | Trim(maxLen: nat)
    | SetLastId(id: StreamId)
    | SetGroupId(id: StreamId)
    | CreateConsumer(name: string, nowMs: nat)
    | DeleteConsumer(name: string)
    | Read(name: string, count: Option<nat>, nowMs: nat, noack: bool)
    | Ack(ids: seq<StreamId>)
    | Claim(name: string, ids: seq<StreamId>, claim: ClaimOptions, nowMs: nat)
    | AutoClaim(start: StreamId, limit: nat, auto: AutoOptions)

  /** A group freshly created over a stream. */
  function Start(stream: Stream, start: StreamId): System {
    System(stream, Group(start, map[], map[], 0),
           Books(multiset{}, multiset{}, multiset{}, multiset{}, multiset{}, [], stream.entries.Keys, {}))
  }

  function WithEntries(s: System, stream: Stream): System {
    var gone := set id | id in s.stream.entries && id !in stream.entries && IdLess(s.group.lastDeliveredId, id);
    s.(stream := stream, books := s.books.(added := s.books.added + stream.entries.Keys, missed := s.books.missed + gone))
  }

  ghost function Next(s: System, step: Step): System {
    var entries, g, b := s.stream.entries, s.group, s.books;
    match step
    case Add(id, fields) => WithEntries(s, Added(s.stream, id, fields))
    case Delete(ids) => WithEntries(s, DeletedAll(s.stream, ids))
    case Trim(maxLen) => WithEntries(s, Trimmed(s.stream, maxLen))
    case SetLastId(id) => s.(stream := s.stream.(lastId := id))
    case SetGroupId(id) => s.(group := g.(lastDeliveredId := id))
    case CreateConsumer(name, nowMs) => s.(group := AddConsumer(g, name, nowMs))
    case DeleteConsumer(name) =>
      s.(group := DropConsumer(g, name), books := b.(dropped := b.dropped + multiset(OwnedBy(g, name))))
    case Read(name, count, nowMs, noack) =>
      var ids := NewIds(entries, g.lastDeliveredId, count);
      s.(group := ReadNew(entries, g, name, count, nowMs, noack),
         books := b.(delivered := b.delivered + ids, owed := if noack then b.owed else b.owed + multiset(ids)))
    case Ack(ids) => s.(group := AckAll(g, ids), books := b.(acked := b.acked + multiset(AckedIds(g, ids))))
    case Claim(name, ids, opt, nowMs) =>
      var w := WithConsumer(g, name);
      s.(group := ClaimAll(entries, w, ids, name, opt, nowMs),
         books := b.(purged := b.purged + multiset(PurgedIds(entries, w, ids, name, opt, nowMs)),
                     forced := b.forced + multiset(ForcedIds(entries, w, ids, name, opt, nowMs))))
    case AutoClaim(start, limit, opt) =>
      var r := Autoclaim(entries, g, start, limit, opt);
      s.(group := r.sweep.group, books := b.(purged := b.purged + multiset(r.sweep.deleted)))
  }

  ghost function Run(s: System, steps: seq<Step>): System {
    if steps == [] then s else Next(Run(s, steps[..|steps| - 1]), steps[|steps| - 1])
  }

  /** Neither a backwards SETID nor a forced claim past the group's mark. */
  predicate Tame(s: System, step: Step) {
    match step
    case SetGroupId(id) => IdLeq(s.group.lastDeliveredId, id)
    case Claim(_, ids, opt, _) => opt.force ==> forall id :: id in ids ==> IdLeq(id, s.group.lastDeliveredId)
    case _ => true
  }

  ghost predicate TameRun(s: System, steps: seq<Step>) {
    forall i :: 0 <= i < |steps| ==> Tame(Run(s, steps[..i]), steps[i])
  }

  // ----- Agreement and conservation ---------------------------------------------------------------

  /** Nothing pending lies past the group's mark. */
  ghost predicate NothingAhead(g: Group) {
    forall id :: id in g.pending ==> IdLeq(id, g.lastDeliveredId)
  }

  /** Every id that had to be acknowledged is pending, acknowledged, purged or dropped, as often as it was handed out. */
  predicate Conserved(s: System) {
    s.books.owed + s.books.forced ==
    multiset(s.group.pending.Keys) + s.books.acked + s.books.purged + s.books.dropped
  }

  ghost predicate PendingInv(s: System) {
    Agrees(s.group) && NothingAhead(s.group) && Conserved(s)
  }

  lemma RemovedKeys(g: Group, id: StreamId)
    ensures Removed(g, id).pending.Keys == g.pending.Keys - {id}
    ensures Removed(g, id).lastDeliveredId == g.lastDeliveredId
  {
  }

  lemma MultisetDrop(s: set<StreamId>, id: StreamId)
    ensures id in s ==> multiset(s) == multiset(s - {id}) + multiset{id}
    ensures id !in s ==> multiset(s + {id}) == multiset(s) + multiset{id}
    ensures id !in s ==> s - {id} == s
    ensures id in s ==> s + {id} == s
  {
  }

  lemma MultisetSnoc(ids: seq<StreamId>, id: StreamId)
    ensures multiset(ids + [id]) == multiset(ids) + multiset{id}
  {
  }

  lemma {:induction false} AckConserves(g: Group, ids: seq<StreamId>)
    ensures multiset(AckAll(g, ids).pending.Keys) + multiset(AckedIds(g, ids)) == multiset(g.pending.Keys)
    ensures AckAll(g, ids).pending.Keys <= g.pending.Keys
    ensures AckAll(g, ids).lastDeliveredId == g.lastDeliveredId
  {
    hide Removed;
    if ids != [] {
      var front, id := ids[..|ids| - 1], ids[|ids| - 1];
      AckConserves(g, front);
      var before := AckAll(g, front);
      RemovedKeys(before, id);
      MultisetDrop(before.pending.Keys, id);
      MultisetSnoc(AckedIds(g, front), id);
    }
  }

  lemma ClaimOneKeys(live: bool, g: Group, id: StreamId, name: string, opt: ClaimOptions, nowMs: nat)
    ensures var c := ClaimOne(live, g, id, name, opt, nowMs);
            c.lastDeliveredId == g.lastDeliveredId &&
            c.pending.Keys == (if id in g.pending then (if live then g.pending.Keys else g.pending.Keys - {id})
                               else if opt.force && live then g.pending.Keys + {id} else g.pending.Keys)
  {
  }

  /** One id leaving, or one entering, keeps an account balanced. */
  lemma OneMoves(before: multiset<StreamId>, left: multiset<StreamId>, start: multiset<StreamId>,
                 entered: multiset<StreamId>, id: StreamId)
    requires before + left == start + entered
    ensures forall after: multiset<StreamId> :: after + multiset{id} == before ==> after + (left + multiset{id}) == start + entered
    ensures (before + multiset{id}) + left == start + (entered + multiset{id})
  {
    forall after: multiset<StreamId> | after + multiset{id} == before
      ensures after + (left + multiset{id}) == start + entered
    {
      assert after + (left + multiset{id}) == (after + multiset{id}) + left;
    }
    assert (before + multiset{id}) + left == (before + left) + multiset{id};
  }

  lemma {:induction false} ClaimConserves(entries: map<StreamId, Fields>, g: Group, ids: seq<StreamId>, name: string,
                                          opt: ClaimOptions, nowMs: nat)
    ensures multiset(ClaimAll(entries, g, ids, name, opt, nowMs).pending.Keys) + multiset(PurgedIds(entries, g, ids, name, opt, nowMs)) ==
            multiset(g.pending.Keys) + multiset(ForcedIds(entries, g, ids, name, opt, nowMs))
  {
    hide ClaimOne;
    if ids != [] {
      var front, id := ids[..|ids| - 1], ids[|ids| - 1];
      ClaimConserves(entries, g, front, name, opt, nowMs);
      var before, after := ClaimAll(entries, g, front, name, opt, nowMs), ClaimAll(entries, g, ids, name, opt, nowMs);
      var purged, forced := PurgedIds(entries, g, front, name, opt, nowMs), ForcedIds(entries, g, front, name, opt, nowMs);
      ClaimOneKeys(id in entries, before, id, name, opt, nowMs);
      MultisetDrop(before.pending.Keys, id);
      MultisetSnoc(purged, id);
      MultisetSnoc(forced, id);
      OneMoves(multiset(before.pending.Keys), multiset(purged), multiset(g.pending.Keys), multiset(forced), id);
    }
  }

  /** A claim adds ids to the pending list only by force, and does not move the group's mark. */
  lemma {:induction false} ClaimStaysWithin(entries: map<StreamId, Fields>, g: Group, ids: seq<StreamId>, name: string,
                                            opt: ClaimOptions, nowMs: nat)
    ensures var c := ClaimAll(entries, g, ids, name, opt, nowMs);
            c.lastDeliveredId == g.lastDeliveredId &&
            forall id :: id in c.pending ==> id in g.pending || (opt.force && id in ids)
  {
    hide ClaimOne;
    if ids != [] {
      var front, id := ids[..|ids| - 1], ids[|ids| - 1];
      ClaimStaysWithin(entries, g, front, name, opt, nowMs);
      var before := ClaimAll(entries, g, front, name, opt, nowMs);
      ClaimOneKeys(id in entries, before, id, name, opt, nowMs);
      var after := ClaimAll(entries, g, ids, name, opt, nowMs);
      forall x | x in after.pending ensures x in g.pending || (opt.force && x in ids) {
        assert x in before.pending || x == id;
      }
    }
  }

  lemma SweepOneKeys(live: bool, s: Sweep, id: StreamId, opt: AutoOptions)
    ensures var t := SweepOne(live, s, id, opt);
            t.group.lastDeliveredId == s.group.lastDeliveredId &&
            t.group.pending.Keys ==
            (if IdleEnough(s.group, id, opt) && !live then s.group.pending.Keys - {id} else s.group.pending.Keys) &&
            t.deleted == if IdleEnough(s.group, id, opt) && !live then s.deleted + [id] else s.deleted
  {
  }

  lemma {:induction false} SweepConserves(entries: map<StreamId, Fields>, s: Sweep, ids: seq<StreamId>,
                                          opt: AutoOptions)
    ensures var t := SweepAll(entries, s, ids, opt);
            multiset(t.group.pending.Keys) + multiset(t.deleted) ==
            multiset(s.group.pending.Keys) + multiset(s.deleted) &&
            t.group.pending.Keys <= s.group.pending.Keys && t.group.lastDeliveredId == s.group.lastDeliveredId
  {
    hide SweepOne;
    if ids != [] {
      var front, id := ids[..|ids| - 1], ids[|ids| - 1];
      SweepConserves(entries, s, front, opt);
      var before := SweepAll(entries, s, front, opt);
      SweepOneKeys(id in entries, before, id, opt);
      MultisetDrop(before.group.pending.Keys, id);
      MultisetSnoc(before.deleted, id);
    }
  }

  lemma {:induction false} IncreasingIsSet(ids: seq<StreamId>)
    requires Increasing(ids)
    ensures multiset(ids) == multiset(set id | id in ids)
  {
    if ids != [] {
      var front, last := ids[..|ids| - 1], ids[|ids| - 1];
      IncreasingIsSet(front);
      assert ids == front + [last];
      var s := set id | id in front;
      assert (set id | id in ids) == s + {last};
      MultisetDrop(s, last);
    }
  }

  lemma NewIdsAhead(entries: map<StreamId, Fields>, after: StreamId, count: Option<nat>)
    ensures var ids := NewIds(entries, after, count);
            Increasing(ids) && forall id :: id in ids ==> id in entries && IdLess(after, id)
  {
    var all, ids := Ascending(set id | id in entries && IdLess(after, id)), NewIds(entries, after, count);
    assert forall id :: id in ids ==> id in all;
  }

  lemma DisjointUnion(a: set<StreamId>, b: set<StreamId>)
    requires a !! b
    ensures multiset(a + b) == multiset(a) + multiset(b)
  {
    forall x ensures multiset(a + b)[x] == (multiset(a) + multiset(b))[x] {
      assert x in a + b <==> x in a || x in b;
    }
  }

  /** Ids that enter and ids that leave the pending list move between the two sides of the account. */
  lemma Rebalance(s: System, after: multiset<StreamId>, entered: multiset<StreamId>, left: multiset<StreamId>)
    requires Conserved(s)
    requires after + left == multiset(s.group.pending.Keys) + entered
    ensures s.books.owed + (s.books.forced + entered) ==
            after + s.books.acked + (s.books.purged + left) + s.books.dropped
    ensures (s.books.owed + entered) + s.books.forced ==
            after + s.books.acked + (s.books.purged + left) + s.books.dropped
  {
    var all := multiset(s.group.pending.Keys);
    var settled := s.books.acked + s.books.purged + s.books.dropped;
    assert s.books.owed + s.books.forced == all + settled;
    forall x
      ensures (s.books.owed + (s.books.forced + entered))[x] ==
              (after + s.books.acked + (s.books.purged + left) + s.books.dropped)[x]
    {
      assert (after + left)[x] == (all + entered)[x];
      assert (s.books.owed + s.books.forced)[x] == (all + settled)[x];
    }
  }

  /** With nothing ahead, what a read delivers is pending for nobody. */
  lemma NewIdsNotPending(entries: map<StreamId, Fields>, g: Group, count: Option<nat>)
    requires NothingAhead(g)
    ensures forall id :: id in NewIds(entries, g.lastDeliveredId, count) ==> id !in g.pending
  {
    hide NewIds;
    NewIdsAhead(entries, g.lastDeliveredId, count);
  }

  lemma ReadStaysAgreed(s: System, name: string, count: Option<nat>, nowMs: nat, noack: bool)
    requires PendingInv(s)
    ensures Agrees(ReadNew(s.stream.entries, s.group, name, count, nowMs, noack))
    ensures NothingAhead(ReadNew(s.stream.entries, s.group, name, count, nowMs, noack))
  {
    hide NewIds, Agrees, ReadNew;
    var entries, g := s.stream.entries, s.group;
    var ids := NewIds(entries, g.lastDeliveredId, count);
    NewIdsAhead(entries, g.lastDeliveredId, count);
    NewIdsNotPending(entries, g, count);
    ReadNewAgreesIff(entries, g, name, count, nowMs, noack);
    ReadKeys(entries, g, name, count, nowMs, noack);
    LastIsLargest(ids);
    if ids != [] {
      assert ids[|ids| - 1] in ids;
    }
  }

  lemma ReadEnters(s: System, name: string, count: Option<nat>, nowMs: nat, noack: bool)
    requires PendingInv(s)
    ensures var ids := if noack then [] else NewIds(s.stream.entries, s.group.lastDeliveredId, count);
            multiset(ReadNew(s.stream.entries, s.group, name, count, nowMs, noack).pending.Keys) ==
            multiset(s.group.pending.Keys) + multiset(ids)
  {
    hide NewIds, Agrees, ReadNew, NothingAhead, Conserved;
    var entries, g := s.stream.entries, s.group;
    ReadKeys(entries, g, name, count, nowMs, noack);
    if !noack {
      var ids := NewIds(entries, g.lastDeliveredId, count);
      NewIdsAhead(entries, g.lastDeliveredId, count);
      IncreasingIsSet(ids);
      NewIdsNotPending(entries, g, count);
      DisjointUnion(g.pending.Keys, set id | id in ids);
    }
  }

  lemma ReadConserves(s: System, name: string, count: Option<nat>, nowMs: nat, noack: bool)
    requires PendingInv(s)
    ensures PendingInv(Next(s, Read(name, count, nowMs, noack)))
  {
    hide NewIds, Agrees, ReadNew, NothingAhead;
    var entries, g := s.stream.entries, s.group;
    var ids, after := NewIds(entries, g.lastDeliveredId, count), ReadNew(entries, g, name, count, nowMs, noack);
    ReadStaysAgreed(s, name, count, nowMs, noack);
    ReadEnters(s, name, count, nowMs, noack);
    Rebalance(s, multiset(after.pending.Keys), multiset(if noack then [] else ids), multiset{});
  }

  lemma LastIsLargest(ids: seq<StreamId>)
    requires Increasing(ids)
    ensures forall id :: id in ids ==> IdLeq(id, ids[|ids| - 1])
  {
  }

  lemma ReadKeys(entries: map<StreamId, Fields>, g: Group, name: string, count: Option<nat>, nowMs: nat, noack: bool)
    requires Agrees(g)
    ensures var ids, r := NewIds(entries, g.lastDeliveredId, count), ReadNew(entries, g, name, count, nowMs, noack);
            r.pending.Keys == (if noack then g.pending.Keys else g.pending.Keys + (set id | id in ids)) &&
            r.lastDeliveredId == if ids == [] then g.lastDeliveredId else ids[|ids| - 1]
  {
    hide NewIds, DeliverAll, Agrees;
    WithConsumerAgrees(g, name);
    Delivered(WithConsumer(g, name), NewIds(entries, g.lastDeliveredId, count), name, nowMs, noack);
  }

  lemma DropConserves(s: System, name: string)
    requires PendingInv(s)
    ensures PendingInv(Next(s, DeleteConsumer(name)))
  {
    var g := s.group;
    DropAgrees(g, name);
    var own := OwnedBy(g, name);
    var rest := DropConsumer(g, name).pending.Keys;
    assert rest == g.pending.Keys - own;
    assert own <= g.pending.Keys;
    assert g.pending.Keys == rest + own;
    DisjointUnion(rest, own);
  }

  lemma AutoClaimConserves(s: System, start: StreamId, limit: nat, opt: AutoOptions)
    requires PendingInv(s)
    ensures PendingInv(Next(s, AutoClaim(start, limit, opt)))
  {
    hide Candidates, Examined, SweepAll, Agrees;
    var entries, w := s.stream.entries, WithConsumer(s.group, opt.name);
    WithConsumerAgrees(s.group, opt.name);
    var ids := Candidates(w, start);
    var n := Examined(entries, w, ids, opt, if limit == 0 then 1 else limit, 0);
    SweepAgrees(entries, Sweep(w, [], []), ids[..n], opt);
    SweepConserves(entries, Sweep(w, [], []), ids[..n], opt);
    var r, none: seq<StreamId> := SweepAll(entries, Sweep(w, [], []), ids[..n], opt), [];
    assert multiset(none) == multiset{};
    Rebalance(s, multiset(r.group.pending.Keys), multiset{}, multiset(r.deleted));
  }

  lemma AckStepConserves(s: System, ids: seq<StreamId>)
    requires PendingInv(s)
    ensures PendingInv(Next(s, Ack(ids)))
  {
    hide Agrees, AckAll, AckedIds;
    AckAgrees(s.group, ids);
    AckConserves(s.group, ids);
    assert Conserved(Next(s, Ack(ids)));
  }

  lemma ClaimStepConserves(s: System, name: string, ids: seq<StreamId>, opt: ClaimOptions, nowMs: nat)
    requires PendingInv(s) && Tame(s, Claim(name, ids, opt, nowMs))
    ensures PendingInv(Next(s, Claim(name, ids, opt, nowMs)))
  {
    hide Agrees, ClaimAll, PurgedIds, ForcedIds;
    var entries, w := s.stream.entries, WithConsumer(s.group, name);
    WithConsumerAgrees(s.group, name);
    ClaimAgrees(entries, w, ids, name, opt, nowMs);
    ClaimConserves(entries, w, ids, name, opt, nowMs);
    ClaimStaysWithin(entries, w, ids, name, opt, nowMs);
    assert w.pending == s.group.pending;
    Rebalance(s, multiset(ClaimAll(entries, w, ids, name, opt, nowMs).pending.Keys),
              multiset(ForcedIds(entries, w, ids, name, opt, nowMs)), multiset(PurgedIds(entries, w, ids, name, opt, nowMs)));
  }

  /** Every tame step keeps the lists in agreement and the deliveries accounted for. */
  lemma StepConserves(s: System, step: Step)
    requires PendingInv(s) && Tame(s, step)
    ensures PendingInv(Next(s, step))
  {
    hide Agrees, NewIds, ReadNew, Autoclaim, Ascending, AckAll, AckedIds, ClaimAll, PurgedIds, ForcedIds;
    match step
    case Read(name, count, nowMs, noack) => ReadConserves(s, name, count, nowMs, noack);
    case DeleteConsumer(name) => DropConserves(s, name);
    case AutoClaim(start, limit, opt) => AutoClaimConserves(s, start, limit, opt);
    case CreateConsumer(name, nowMs) => AddConsumerAgrees(s.group, name, nowMs);
    case Ack(ids) => AckStepConserves(s, ids);
    case Claim(name, ids, opt, nowMs) => ClaimStepConserves(s, name, ids, opt, nowMs);
    case SetGroupId(id) =>
      SetIdAgrees(s.group, id);
    case _ =>
  }

  lemma SetIdAgrees(g: Group, id: StreamId)
    requires Agrees(g)
    ensures Agrees(g.(lastDeliveredId := id))
  {
  }

  /**
    Pending-list agreement and conservation over every run without a backwards SETID and
    without forced claims past the group's mark.
   */
  lemma {:induction false} PendingConserved(stream: Stream, start: StreamId, steps: seq<Step>)
    requires TameRun(Start(stream, start), steps)
    ensures PendingInv(Run(Start(stream, start), steps))
    decreases |steps|
  {
    hide Next, Tame;
    if steps == [] {
    } else {
      var front := steps[..|steps| - 1];
      forall i | 0 <= i < |front| ensures Tame(Run(Start(stream, start), front[..i]), front[i]) {
        assert front[..i] == steps[..i];
      }
      PendingConserved(stream, start, front);
      assert steps[..|steps| - 1] == front;
      StepConserves(Run(Start(stream, start), front), steps[|steps| - 1]);
    }
  }

  // ----- Where agreement fails ---------------------------------------------------------------------

  const OnlyId: StreamId := StreamId(1, 1)

  const OneEntry: Stream := Stream(map[OnlyId := []], OnlyId, MIN_ID, 1, map[])

  lemma OnlyNewId()
    ensures NewIds(OneEntry.entries, MIN_ID, None) == [OnlyId]
  {
    var ids := NewIds(OneEntry.entries, MIN_ID, None);
    assert OnlyId in OneEntry.entries && OnlyId in ids;
    IncreasingUnique(ids, [OnlyId]);
  }

  /** After a backwards SETID the same entry is delivered again, and two consumers believe they own it. */
  lemma BackwardsMarkBreaksAgreement()
    ensures var first := Next(Start(OneEntry, MIN_ID), Read("a", None, 0, false));
            var moved := Next(first, SetGroupId(MIN_ID));
            Agrees(moved.group) && !Tame(first, SetGroupId(MIN_ID)) &&
            !Agrees(Next(moved, Read("b", None, 0, false)).group)
  {
    hide NewIds, Ascending;
    var g := Start(OneEntry, MIN_ID).group;
    OnlyNewId();
    ReadNewAgreesIff(OneEntry.entries, g, "a", None, 0, false);
    var moved := ReadNew(OneEntry.entries, g, "a", None, 0, false).(lastDeliveredId := MIN_ID);
    ReadKeys(OneEntry.entries, g, "a", None, 0, false);
    Delivered(WithConsumer(g, "a"), [OnlyId], "a", 0, false);
    SetIdAgrees(ReadNew(OneEntry.entries, g, "a", None, 0, false), MIN_ID);
    assert HeldByOther(moved, OnlyId, "b");
    ReadNewAgreesIff(OneEntry.entries, moved, "b", None, 0, false);
  }

  /** So does a forced claim of an entry the group has yet to reach. */
  lemma ForcedAheadBreaksAgreement()
    ensures var opt := ClaimOptions(0, None, None, None, true, false);
            var start := Start(OneEntry, MIN_ID);
            var claimed := Next(start, Claim("a", [OnlyId], opt, 0));
            Agrees(claimed.group) && !Tame(start, Claim("a", [OnlyId], opt, 0)) &&
            !Agrees(Next(claimed, Read("b", None, 0, false)).group)
  {
    hide NewIds, Ascending;
    var opt := ClaimOptions(0, None, None, None, true, false);
    var w := WithConsumer(Start(OneEntry, MIN_ID).group, "a");
    var claimed := ClaimAll(OneEntry.entries, w, [OnlyId], "a", opt, 0);
    assert OnlyId in [OnlyId];
    assert [OnlyId][..0] == [];
    ClaimAgrees(OneEntry.entries, w, [OnlyId], "a", opt, 0);
    assert HeldByOther(claimed, OnlyId, "b");
    OnlyNewId();
    ReadNewAgreesIff(OneEntry.entries, claimed, "b", None, 0, false);
  }
}
