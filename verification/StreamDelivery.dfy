/**
  Delivery of new entries, over every run that never moves a mark by hand: what a
  group is given, in what order, and what it misses.
 */
module StreamDelivery {
  import opened Basics
  import opened StreamModel
  import opened StreamGroups
  import opened StreamRuns

  predicate MovesNoMark(step: Step) {
    !step.SetLastId? && !step.SetGroupId?
  }

  /** A stream as `add` builds it: no entry past the last id. */
  ghost predicate WellFormed(stream: Stream) {
    forall id :: id in stream.entries ==> IdLeq(id, stream.lastId)
  }

  /** The ids the stream has held past the group's start and up to its mark. */
  predicate Passed(s: System, start: StreamId, id: StreamId) {
    id in s.books.added && IdLess(start, id) && IdLeq(id, s.group.lastDeliveredId)
  }

  ghost predicate DeliveryInv(s: System, start: StreamId) {
    && WellFormed(s.stream)
    && s.stream.entries.Keys <= s.books.added
    && s.books.missed <= s.books.added
    && (forall id :: id in s.books.added ==> IdLeq(id, s.stream.lastId))
    && IdLeq(start, s.group.lastDeliveredId)
    && (s.group.lastDeliveredId == start || IdLeq(s.group.lastDeliveredId, s.stream.lastId))
    && Increasing(s.books.delivered)
    && (forall id :: id in s.books.delivered <==> Passed(s, start, id) && id !in s.books.missed)
    && (forall id :: IdLess(s.group.lastDeliveredId, id) ==>
          (id in s.stream.entries <==> id in s.books.added && id !in s.books.missed))
  }

  /** Any step that only removes entries. */
  lemma RemovalKeepsDelivery(s: System, start: StreamId, stream: Stream)
    requires DeliveryInv(s, start)
    requires stream.lastId == s.stream.lastId && stream.entries.Keys <= s.stream.entries.Keys
    ensures DeliveryInv(WithEntries(s, stream), start)
  {
    var t := WithEntries(s, stream);
    assert t.books.added == s.books.added;
    forall id ensures id in t.books.delivered <==> Passed(t, start, id) && id !in t.books.missed {
      assert Passed(t, start, id) <==> Passed(s, start, id);
    }
  }

  lemma {:induction false} DeletedShrinks(s: Stream, ids: seq<StreamId>)
    ensures DeletedAll(s, ids).lastId == s.lastId && DeletedAll(s, ids).entries.Keys <= s.entries.Keys
  {
    if ids != [] {
      DeletedShrinks(s, ids[..|ids| - 1]);
    }
  }

  lemma AddKeepsDelivery(s: System, start: StreamId, id: StreamId, fields: Fields)
    requires DeliveryInv(s, start)
    ensures DeliveryInv(Next(s, Add(id, fields)), start)
  {
    var t := Next(s, Add(id, fields));
    if id != MIN_ID && !IdLeq(id, s.stream.lastId) {
      assert t.books.added == s.books.added + {id};
      assert t.books.missed == s.books.missed;
      assert id !in s.books.added;
      forall x ensures x in t.books.delivered <==> Passed(t, start, x) && x !in t.books.missed {
        assert x != id ==> (Passed(t, start, x) <==> Passed(s, start, x));
      }
    } else {
      assert t.books == s.books;
    }
  }

  /** The leading part of an increasing sequence holds exactly its elements up to a point. */
  lemma LeadingPart(all: seq<StreamId>, k: nat)
    requires Increasing(all) && 0 < k <= |all|
    ensures forall x :: x in all[..k] <==> x in all && IdLeq(x, all[k - 1])
  {
    forall x ensures x in all[..k] <==> x in all && IdLeq(x, all[k - 1]) {
      if x in all[..k] {
        var i :| 0 <= i < k && all[i] == x;
      }
      if x in all && IdLeq(x, all[k - 1]) {
        var i :| 0 <= i < |all| && all[i] == x;
        assert i < k;
        assert all[..k][i] == x;
      }
    }
  }

  /** A read delivers every entry between the old mark and the new one. */
  lemma NewIdsComplete(entries: map<StreamId, Fields>, after: StreamId, count: Option<nat>)
    ensures var ids := NewIds(entries, after, count);
            ids != [] ==>
              forall x :: x in ids <==> x in entries && IdLess(after, x) && IdLeq(x, ids[|ids| - 1])
  {
    var all := Ascending(set id | id in entries && IdLess(after, id));
    var ids := NewIds(entries, after, count);
    if ids != [] {
      LeadingPart(all, |ids|);
      assert ids == all[..|ids|];
    }
  }

  lemma ReadKeepsDelivery(s: System, start: StreamId, name: string, count: Option<nat>, nowMs: nat, noack: bool)
    requires DeliveryInv(s, start)
    ensures DeliveryInv(Next(s, Read(name, count, nowMs, noack)), start)
  {
    hide NewIds, ReadNew;
    var entries, g := s.stream.entries, s.group;
    var ids, t := NewIds(entries, g.lastDeliveredId, count), Next(s, Read(name, count, nowMs, noack));
    NewIdsAhead(entries, g.lastDeliveredId, count);
    NewIdsComplete(entries, g.lastDeliveredId, count);
    ReadMark(entries, g, name, count, nowMs, noack);
    if ids == [] {
      assert t.books.delivered == s.books.delivered;
    } else {
      var mark := ids[|ids| - 1];
      assert mark in ids;
      MoreDelivered(s, start, ids, mark);
      assert forall id :: Passed(t, start, id) <==> id in s.books.added && IdLess(start, id) && IdLeq(id, mark);
    }
  }

  lemma ReadMark(entries: map<StreamId, Fields>, g: Group, name: string, count: Option<nat>, nowMs: nat, noack: bool)
    ensures var ids := NewIds(entries, g.lastDeliveredId, count);
            ReadNew(entries, g, name, count, nowMs, noack).lastDeliveredId ==
            if ids == [] then g.lastDeliveredId else ids[|ids| - 1]
  {
    hide NewIds, DeliverAll;
    Delivered(WithConsumer(g, name), NewIds(entries, g.lastDeliveredId, count), name, nowMs, noack);
  }

  lemma MoreDelivered(s: System, start: StreamId, ids: seq<StreamId>, mark: StreamId)
    requires DeliveryInv(s, start) && Increasing(ids) && IdLess(s.group.lastDeliveredId, mark)
    requires forall x :: x in ids <==> x in s.stream.entries && IdLess(s.group.lastDeliveredId, x) && IdLeq(x, mark)
    ensures var all := s.books.delivered + ids;
            Increasing(all) &&
            forall id :: id in all <==> id in s.books.added && IdLess(start, id) && IdLeq(id, mark) && id !in s.books.missed
  {
    var all, old' := s.books.delivered + ids, s.group.lastDeliveredId;
    assert forall i :: 0 <= i < |s.books.delivered| ==> Passed(s, start, s.books.delivered[i]);
    assert forall i :: 0 <= i < |ids| ==> ids[i] in ids;
    forall id
      ensures id in all <==> id in s.books.added && IdLess(start, id) && IdLeq(id, mark) && id !in s.books.missed
    {
      assert id in all <==> id in s.books.delivered || id in ids;
      if IdLess(old', id) {
        assert id !in s.books.delivered;
      }
    }
  }

  /** The other operations leave the stream, the mark and these books alone. */
  lemma RestKeepsDelivery(s: System, start: StreamId, t: System)
    requires DeliveryInv(s, start)
    requires t.stream == s.stream && t.group.lastDeliveredId == s.group.lastDeliveredId
    requires t.books.delivered == s.books.delivered && t.books.added == s.books.added &&
             t.books.missed == s.books.missed
    ensures DeliveryInv(t, start)
  {
    assert forall id :: Passed(t, start, id) <==> Passed(s, start, id);
  }

  lemma StepKeepsDelivery(s: System, start: StreamId, step: Step)
    requires DeliveryInv(s, start) && MovesNoMark(step)
    ensures DeliveryInv(Next(s, step), start)
  {
    hide DeliveryInv, ReadNew, NewIds, Ascending, AckAll, ClaimAll, SweepAll, Examined, DeletedAll, PurgedIds, ForcedIds, AckedIds;
    var entries, t := s.stream.entries, Next(s, step);
    match step
    case Add(id, fields) => AddKeepsDelivery(s, start, id, fields);
    case Delete(ids) =>
      DeletedShrinks(s.stream, ids);
      RemovalKeepsDelivery(s, start, DeletedAll(s.stream, ids));
    case Trim(maxLen) => RemovalKeepsDelivery(s, start, Trimmed(s.stream, maxLen));
    case Read(name, count, nowMs, noack) => ReadKeepsDelivery(s, start, name, count, nowMs, noack);
    case Ack(ids) =>
      AckConserves(s.group, ids);
      RestKeepsDelivery(s, start, t);
    case Claim(name, ids, opt, nowMs) =>
      ClaimStaysWithin(entries, WithConsumer(s.group, name), ids, name, opt, nowMs);
      RestKeepsDelivery(s, start, t);
    case AutoClaim(from, limit, opt) =>
      AutoKeepsMark(entries, s.group, from, limit, opt);
      RestKeepsDelivery(s, start, t);
    case _ => RestKeepsDelivery(s, start, t);
  }

  lemma AutoKeepsMark(entries: map<StreamId, Fields>, g: Group, start: StreamId, limit: nat, opt: AutoOptions)
    ensures Autoclaim(entries, g, start, limit, opt).sweep.group.lastDeliveredId == g.lastDeliveredId
  {
    hide SweepAll, Examined, Candidates;
    var w := WithConsumer(g, opt.name);
    var ids := Candidates(w, start);
    var n := Examined(entries, w, ids, opt, if limit == 0 then 1 else limit, 0);
    SweepConserves(entries, Sweep(w, [], []), ids[..n], opt);
  }

  lemma {:induction false} RunKeepsDelivery(stream: Stream, start: StreamId, steps: seq<Step>)
    requires WellFormed(stream)
    requires forall i :: 0 <= i < |steps| ==> MovesNoMark(steps[i])
    ensures DeliveryInv(Run(Start(stream, start), steps), start)
    decreases |steps|
  {
    hide Next;
    if steps != [] {
      RunKeepsDelivery(stream, start, steps[..|steps| - 1]);
      StepKeepsDelivery(Run(Start(stream, start), steps[..|steps| - 1]), start, steps[|steps| - 1]);
    }
  }

  /**
    New-entry delivery: across all consumers of a group, deliveries of new entries are
    strictly increasing, so none is delivered twice; and of the entries past the group's
    start that its mark has reached, exactly those not removed beforehand were delivered.
   */
  lemma NewEntriesDeliveredOnce(stream: Stream, start: StreamId, steps: seq<Step>)
    requires WellFormed(stream)
    requires forall i :: 0 <= i < |steps| ==> MovesNoMark(steps[i])
    ensures var s := Run(Start(stream, start), steps);
            Increasing(s.books.delivered) &&
            (forall id :: id in s.books.delivered <==>
               id in s.books.added && IdLess(start, id) && IdLeq(id, s.group.lastDeliveredId) &&
               id !in s.books.missed) &&
            (forall id :: id in s.books.added && IdLess(s.group.lastDeliveredId, id) ==>
               (id in s.stream.entries <==> id !in s.books.missed))
  {
    hide Run;
    RunKeepsDelivery(stream, start, steps);
    var s := Run(Start(stream, start), steps);
    forall id
      ensures id in s.books.delivered <==>
              id in s.books.added && IdLess(start, id) && IdLeq(id, s.group.lastDeliveredId) && id !in s.books.missed
    {
      assert Passed(s, start, id) <==> id in s.books.added && IdLess(start, id) && IdLeq(id, s.group.lastDeliveredId);
    }
  }
}
