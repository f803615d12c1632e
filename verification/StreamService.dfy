/**
  The stream object: the operations as they run, entry by entry, each proved equal to
  the value it is specified by.
 */
module StreamService {
  import opened Basics
  import opened StreamModel
  import opened StreamGroups
  import opened StreamRuns
  import opened StreamExact

  datatype StreamError = ZeroId | IdTooSmall

  datatype AutoclaimReply = AutoclaimReply(cursor: StreamId, claimed: seq<Entry>, deleted: seq<StreamId>)

  /** Ids paired with the fields of their entries. */
  function WithFields(entries: map<StreamId, Fields>, ids: seq<StreamId>): (r: seq<Entry>)
    ensures |r| == |ids|
  {
    seq(|ids|, i requires 0 <= i < |ids| => Entry(ids[i], if ids[i] in entries then entries[ids[i]] else []))
  }

  method RemoveEach<V>(m: map<StreamId, V>, ids: seq<StreamId>) returns (r: map<StreamId, V>)
    ensures r == m - Members(ids)
  {
    r := m;
    for i := 0 to |ids|
      invariant r == m - Members(ids[..i])
    {
      assert ids[..i + 1] == ids[..i] + [ids[i]];
      r := r - {ids[i]};
    }
    assert ids[..|ids|] == ids;
  }

  /** Hands entries to a consumer one by one; the group's mark follows. */
  method DeliverEach(group: Group, ids: seq<StreamId>, consumer: string, nowMs: nat, noack: bool) returns (g: Group)
    ensures g == DeliverAll(group, ids, consumer, nowMs, noack)
  {
    hide Handed;
    g := group;
    for i := 0 to |ids|
      invariant g == DeliverAll(group, ids[..i], consumer, nowMs, noack)
    {
      assert ids[..i + 1][..i] == ids[..i];
      g := g.(lastDeliveredId := ids[i], entriesRead := g.entriesRead + 1);
      if !noack {
        g := Handed(g, ids[i], consumer, nowMs, 1);
      }
    }
    assert ids[..|ids|] == ids;
  }

  class StreamData {
    var entries: map<StreamId, Fields>
    var lastId: StreamId
    var maxDeletedId: StreamId
    var entriesAdded: nat
    var groups: map<string, Group>

    constructor ()
      ensures Contents() == Stream(map[], MIN_ID, MIN_ID, 0, map[])
    {
      entries, lastId, maxDeletedId, entriesAdded, groups := map[], MIN_ID, MIN_ID, 0, map[];
    }

    function Contents(): Stream
      reads this
    {
      Stream(entries, lastId, maxDeletedId, entriesAdded, groups)
    }

    method Add(id: StreamId, fields: Fields) returns (r: Result<StreamId, StreamError>)
      modifies this
      ensures Contents() == Added(old(Contents()), id, fields)
      ensures r.Ok? ==> entries == old(entries)[id := fields] && lastId == id && entriesAdded == old(entriesAdded) + 1
      ensures r.Err? ==> Contents() == old(Contents())
      ensures r == if id == MIN_ID then Err(ZeroId) else if IdLeq(id, old(lastId)) then Err(IdTooSmall) else Ok(id)
    {
      if id == MIN_ID {
        return Err(ZeroId);
      }
      if IdLeq(id, lastId) {
        return Err(IdTooSmall);
      }
      entries := entries[id := fields];
      lastId := id;
      entriesAdded := entriesAdded + 1;
      return Ok(id);
    }

    method Delete(ids: seq<StreamId>) returns (removed: nat)
      modifies this
      ensures Contents() == DeletedAll(old(Contents()), ids)
      ensures removed == |old(entries)| - |entries|
      ensures forall id :: id in entries <==> id in old(entries) && id !in ids
      ensures forall id :: id in entries ==> entries[id] == old(entries)[id]
      ensures MarksDeleted(maxDeletedId, old(maxDeletedId), old(entries).Keys - entries.Keys)
    {
      removed := 0;
      for i := 0 to |ids|
        invariant Contents() == DeletedAll(old(Contents()), ids[..i])
        invariant removed == |old(entries)| - |entries|
      {
        assert ids[..i + 1][..i] == ids[..i];
        var id := ids[i];
        if id in entries {
          assert |entries - {id}| == |entries| - 1 by {
            OneFewer(entries, id);
          }
          entries := entries - {id};
          removed := removed + 1;
          if IdLess(maxDeletedId, id) {
            maxDeletedId := id;
          }
        }
      }
      assert ids[..|ids|] == ids;
      DeleteExact(old(Contents()), ids);
    }

    /** Removes the oldest entries beyond a length. */
    method TrimMaxlen(maxLen: nat) returns (removed: nat)
      modifies this
      ensures KeepsNewest(old(Contents()), Contents(), maxLen)
      ensures removed == |old(entries)| - |entries|
      ensures Contents() == Trimmed(old(Contents()), maxLen)
    {
      hide Ascending, Members, KeepsNewest;
      TrimExact(Contents(), maxLen);
      var keys := Keys(entries.Keys);
      AscendingLength(entries.Keys);
      if |entries| <= maxLen {
        return 0;
      }
      var victims := keys[..|entries| - maxLen];
      assert victims == Victims(old(Contents()), maxLen);
      entries := RemoveEach(entries, victims);
      var largest := victims[|victims| - 1];
      if IdLess(maxDeletedId, largest) {
        maxDeletedId := largest;
      }
      return |victims|;
    }

    method CreateGroup(name: string, start: StreamId) returns (created: bool)
      modifies this`groups
      ensures created == (name !in old(groups))
      ensures groups == if created then old(groups)[name := Group(start, map[], map[], 0)] else old(groups)
    {
      if name in groups {
        return false;
      }
      groups := groups[name := Group(start, map[], map[], 0)];
      return true;
    }

    /** Gives a consumer up with everything it had pending; says how much that was. */
    method DelConsumer(group: string, consumer: string) returns (r: Option<nat>)
      modifies this`groups
      ensures group !in old(groups) ==> r == None && groups == old(groups)
      ensures group in old(groups) ==>
                r == Some(|OwnedBy(old(groups)[group], consumer)|) &&
                groups == old(groups)[group := DropConsumer(old(groups)[group], consumer)]
    {
      if group !in groups {
        return None;
      }
      var g := groups[group];
      if consumer !in g.consumers {
        assert groups == groups[group := g];
        return Some(0);
      }
      var c := g.consumers[consumer];
      var ids := Keys(c.pending);
      var pending := RemoveEach(g.pending, ids);
      assert Members(ids) == c.pending;
      groups := groups[group := g.(consumers := g.consumers - {consumer}, pending := pending)];
      return Some(|c.pending|);
    }

    /** Delivers entries past the group's mark and moves the mark with them. */
    method GroupReadNew(group: string, consumer: string, count: Option<nat>, nowMs: nat,
                        noack: bool) returns (r: Option<seq<Entry>>)
      modifies this`groups
      ensures group !in old(groups) ==> r == None && groups == old(groups)
      ensures group in old(groups) ==>
                r == Some(WithFields(entries, NewIds(entries, old(groups)[group].lastDeliveredId, count))) &&
                groups == old(groups)[group := ReadNew(entries, old(groups)[group], consumer, count, nowMs, noack)]
    {
      hide Ascending, DeliverAll;
      if group !in groups {
        return None;
      }
      var after := groups[group].lastDeliveredId;
      var ids := Keys(set id | id in entries && IdLess(after, id));
      if count.Some? && count.value < |ids| {
        ids := ids[..count.value];
      }
      assert ids == NewIds(entries, after, count);
      var g := DeliverEach(WithConsumer(groups[group], consumer), ids, consumer, nowMs, noack);
      groups := groups[group := Touched(g, consumer, nowMs, ids != [])];
      return Some(WithFields(entries, ids));
    }

    method Ack(group: string, ids: seq<StreamId>) returns (r: Option<nat>)
      modifies this`groups
      ensures group !in old(groups) ==> r == None && groups == old(groups)
      ensures group in old(groups) ==>
                group in groups && r == Some(|old(groups)[group].pending| - |groups[group].pending|) &&
                groups[group].pending == old(groups)[group].pending - Members(ids) &&
                groups == old(groups)[group := AckAll(old(groups)[group], ids)]
    {
      if group !in groups {
        return None;
      }
      ghost var before := groups[group];
      var g := groups[group];
      var n := 0;
      for i := 0 to |ids|
        invariant g == AckAll(before, ids[..i]) && n == |AckedIds(before, ids[..i])|
        invariant groups == old(groups)
      {
        assert ids[..i + 1][..i] == ids[..i];
        var id := ids[i];
        if id in g.pending {
          var owner := g.pending[id].consumer;
          g := g.(pending := g.pending - {id});
          n := n + 1;
          if owner in g.consumers {
            g := g.(consumers := g.consumers[owner := g.consumers[owner].(pending := g.consumers[owner].pending - {id})]);
          }
        }
      }
      assert ids[..|ids|] == ids;
      groups := groups[group := g];
      AckExact(before, ids);
      return Some(n);
    }

    method Claim(group: string, consumer: string, ids: seq<StreamId>, opt: ClaimOptions,
                 nowMs: nat) returns (r: Option<seq<Entry>>)
      modifies this`groups
      ensures group !in old(groups) ==> r == None && groups == old(groups)
      ensures group in old(groups) ==>
                var w := WithConsumer(old(groups)[group], consumer);
                r == Some(WithFields(entries, ClaimedIds(entries, w, ids, consumer, opt, nowMs))) &&
                groups == old(groups)[group := ClaimAll(entries, w, ids, consumer, opt, nowMs)]
    {
      hide Taken;
      if group !in groups {
        return None;
      }
      var g := WithConsumer(groups[group], consumer);
      ghost var w := g;
      var claimed: seq<StreamId> := [];
      for i := 0 to |ids|
        invariant g == ClaimAll(entries, w, ids[..i], consumer, opt, nowMs)
        invariant claimed == ClaimedIds(entries, w, ids[..i], consumer, opt, nowMs)
        invariant groups == old(groups)
      {
        assert ids[..i + 1][..i] == ids[..i];
        var id := ids[i];
        var isPending := id in g.pending;
        if isPending || opt.force {
          if id !in entries {
            g := Removed(g, id);
          } else if !isPending || Since(nowMs, g.pending[id].deliveryTimeMs) >= opt.minIdleMs {
            var previous := if isPending then g.pending[id].deliveryCount else 0;
            var timeMs := if opt.setTimeMs.Some? then opt.setTimeMs.value
                          else Since(nowMs, if opt.setIdleMs.Some? then opt.setIdleMs.value else 0);
            var count := if opt.setRetry.Some? then opt.setRetry.value else if opt.justId then previous else previous + 1;
            g := Taken(g, id, consumer, timeMs, count, nowMs);
            claimed := claimed + [id];
          }
        }
      }
      assert ids[..|ids|] == ids;
      groups := groups[group := g];
      return Some(WithFields(entries, claimed));
    }

    /** Scans the pending list from an id on until enough is claimed; says where to resume. */
    method AutoClaim(group: string, start: StreamId, count: nat, opt: AutoOptions) returns (r: Option<AutoclaimReply>)
      modifies this`groups
      ensures group !in old(groups) ==> r == None && groups == old(groups)
      ensures group in old(groups) ==>
                var done := Autoclaim(entries, old(groups)[group], start, count, opt);
                r == Some(AutoclaimReply(done.cursor, WithFields(entries, done.sweep.claimed), done.sweep.deleted)) &&
                groups == old(groups)[group := done.sweep.group]
    {
      hide Ascending, SweepOne, Examined;
      if group !in groups {
        return None;
      }
      var g := WithConsumer(groups[group], opt.name);
      ghost var w := g;
      var candidates := Keys(set id | id in g.pending && IdLeq(start, id));
      var attempts := if count == 0 then 1 else count;
      var sweep := Sweep(g, [], []);
      var cursor := MIN_ID;
      var i := 0;
      while i < |candidates|
        invariant 0 <= i <= |candidates|
        invariant sweep == SweepAll(entries, Sweep(w, [], []), candidates[..i], opt)
        invariant Examined(entries, w, candidates, opt, attempts, 0) ==
                  Examined(entries, w, candidates, opt, attempts, i)
        invariant groups == old(groups) && cursor == MIN_ID
      {
        ExaminedStep(entries, w, candidates, opt, attempts, i);
        if |sweep.claimed| >= attempts {
          cursor := candidates[i];
          break;
        }
        assert candidates[..i + 1][..i] == candidates[..i];
        sweep := SweepOne(candidates[i] in entries, sweep, candidates[i], opt);
        i := i + 1;
      }
      ExaminedStep(entries, w, candidates, opt, attempts, i);
      groups := groups[group := sweep.group];
      return Some(AutoclaimReply(cursor, WithFields(entries, sweep.claimed), sweep.deleted));
    }
  }
}
