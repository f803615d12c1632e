/**
  What the stream operations do, stated by ids, times and counts alone.
 */
module StreamExact {
  import opened Basics
  import opened StreamModel
  import opened StreamGroups
  import opened StreamRuns

  // ----- Deleting and trimming ---------------------------------------------------------------

  /** The mark of deletions after these ids went: the old one or one of them, whichever is greatest. */
  predicate MarksDeleted(mark: StreamId, before: StreamId, gone: set<StreamId>) {
    && (mark == before || mark in gone)
    && IdLeq(before, mark)
    && forall id :: id in gone ==> IdLeq(id, mark)
  }

  /** Deleting leaves exactly the entries not listed, and marks the greatest one that went. */
  lemma {:induction false} DeleteExact(s: Stream, ids: seq<StreamId>)
    ensures var t := DeletedAll(s, ids);
            (forall id :: id in t.entries <==> id in s.entries && id !in ids) &&
            (forall id :: id in t.entries ==> t.entries[id] == s.entries[id]) &&
            MarksDeleted(t.maxDeletedId, s.maxDeletedId, s.entries.Keys - t.entries.Keys) &&
            t == s.(entries := t.entries, maxDeletedId := t.maxDeletedId)
  {
    if ids != [] {
      var front, last := ids[..|ids| - 1], ids[|ids| - 1];
      DeleteExact(s, front);
      assert ids == front + [last];
      var before, after := DeletedAll(s, front), DeletedAll(s, ids);
      assert after == DeletedOne(before, last);
      var gone := s.entries.Keys - before.entries.Keys;
      assert s.entries.Keys - after.entries.Keys == if last in before.entries then gone + {last} else gone;
    }
  }

  /**
    The newest entries are kept with their fields, as many as asked for if there are that
    many: what goes is older than all that stays, and the greatest id that went is marked.
   */
  ghost predicate KeepsNewest(s: Stream, t: Stream, maxLen: nat) {
    && |t.entries| == (if |s.entries| < maxLen then |s.entries| else maxLen)
    && (forall id :: id in t.entries ==> id in s.entries && t.entries[id] == s.entries[id])
    && (forall gone, kept :: gone in s.entries && gone !in t.entries && kept in t.entries ==> IdLess(gone, kept))
    && MarksDeleted(t.maxDeletedId, s.maxDeletedId, s.entries.Keys - t.entries.Keys)
    && t == s.(entries := t.entries, maxDeletedId := t.maxDeletedId)
  }

  /** Trimming keeps the newest entries, and removes as many as it says. */
  lemma TrimExact(s: Stream, maxLen: nat)
    ensures KeepsNewest(s, Trimmed(s, maxLen), maxLen)
    ensures |Victims(s, maxLen)| == |s.entries| - |Trimmed(s, maxLen).entries|
  {
    hide Ascending, Trimmed, Victims, KeepsNewest, Increasing;
    AscendingLength(s.entries.Keys);
    if |Ascending(s.entries.Keys)| <= maxLen {
      TrimTakesNothing(s, maxLen);
      KeepsAll(s, maxLen);
    } else {
      TrimTakesFront(s, maxLen);
      FrontIsOldest(s, Trimmed(s, maxLen), maxLen);
    }
  }

  lemma KeepsAll(s: Stream, maxLen: nat)
    requires |s.entries| <= maxLen
    ensures KeepsNewest(s, s, maxLen)
  {
  }

  lemma FrontIsOldest(s: Stream, t: Stream, maxLen: nat)
    requires |Ascending(s.entries.Keys)| > maxLen
    requires var ids := Ascending(s.entries.Keys);
             var front := Members(ids[..|ids| - maxLen]);
             t.entries == s.entries - front && MarksDeleted(t.maxDeletedId, s.maxDeletedId, front)
    requires t == s.(entries := t.entries, maxDeletedId := t.maxDeletedId)
    ensures KeepsNewest(s, t, maxLen) && |t.entries| == maxLen
  {
    hide Ascending, MarksDeleted, Members, IdLess, Increasing, KeepsNewest;
    var ids := Ascending(s.entries.Keys);
    var n := |ids| - maxLen;
    SplitMembers(ids, n);
    AllMembers(ids, s.entries.Keys);
    AscendingLength(s.entries.Keys);
    OldestGone(s, t, Members(ids[..n]), Members(ids[n..]), maxLen);
  }

  lemma OldestGone(s: Stream, t: Stream, front: set<StreamId>, tail: set<StreamId>, maxLen: nat)
    requires s.entries.Keys == front + tail && front !! tail && |tail| == maxLen <= |s.entries|
    requires forall a, b :: a in front && b in tail ==> IdLess(a, b)
    requires t.entries == s.entries - front && MarksDeleted(t.maxDeletedId, s.maxDeletedId, front)
    requires t == s.(entries := t.entries, maxDeletedId := t.maxDeletedId)
    ensures KeepsNewest(s, t, maxLen) && |t.entries| == maxLen
  {
    hide MarksDeleted, IdLess;
    WithoutFront(s.entries, front, tail);
  }

  lemma TrimTakesNothing(s: Stream, maxLen: nat)
    requires |Ascending(s.entries.Keys)| <= maxLen
    ensures Victims(s, maxLen) == [] && Trimmed(s, maxLen) == s && MarksDeleted(s.maxDeletedId, s.maxDeletedId, {})
  {
    hide Ascending;
  }

  lemma TrimTakesFront(s: Stream, maxLen: nat)
    requires |Ascending(s.entries.Keys)| > maxLen
    ensures var ids, t := Ascending(s.entries.Keys), Trimmed(s, maxLen);
            var n := |ids| - maxLen;
            Victims(s, maxLen) == ids[..n] && t.entries == s.entries - Members(ids[..n]) &&
            MarksDeleted(t.maxDeletedId, s.maxDeletedId, Members(ids[..n])) &&
            t == s.(entries := t.entries, maxDeletedId := t.maxDeletedId)
  {
    hide Ascending, MarksDeleted, Members, IdLess;
    var ids := Ascending(s.entries.Keys);
    LastIsGreatest(ids, |ids| - maxLen, s.maxDeletedId);
  }

  lemma WithoutFront(entries: map<StreamId, Fields>, front: set<StreamId>, tail: set<StreamId>)
    requires entries.Keys == front + tail && front !! tail
    ensures var t := entries - front;
            t.Keys == tail && entries.Keys - t.Keys == front && |t| == |tail| &&
            forall id :: id in t ==> id in entries && t[id] == entries[id]
  {
    var t := entries - front;
    assert t.Keys == tail;
    assert |t| == |t.Keys|;
  }

  lemma AllMembers(ids: seq<StreamId>, s: set<StreamId>)
    requires forall id :: id in ids <==> id in s
    ensures Members(ids) == s
  {
  }

  /** An increasing list falls into two halves, the one below the other. */
  lemma SplitMembers(ids: seq<StreamId>, n: nat)
    requires Increasing(ids) && n <= |ids|
    ensures var front, tail := Members(ids[..n]), Members(ids[n..]);
            Members(ids) == front + tail && front !! tail && |tail| == |ids| - n &&
            forall a, b :: a in front && b in tail ==> IdLess(a, b)
  {
    var front, tail := Members(ids[..n]), Members(ids[n..]);
    assert ids == ids[..n] + ids[n..];
    forall a, b | a in front && b in tail ensures IdLess(a, b) {
      HalvesOrdered(ids, n, a, b);
    }
    hide Increasing;
    IncreasingTail(ids, n);
  }

  lemma IncreasingTail(ids: seq<StreamId>, n: nat)
    requires Increasing(ids) && n <= |ids|
    ensures |Members(ids[n..])| == |ids| - n
  {
    IncreasingLength(ids[n..]);
  }

  lemma HalvesOrdered(ids: seq<StreamId>, n: nat, a: StreamId, b: StreamId)
    requires Increasing(ids) && n <= |ids| && a in Members(ids[..n]) && b in Members(ids[n..])
    ensures IdLess(a, b)
  {
    var i :| 0 <= i < n && ids[i] == a;
    var j :| 0 <= j < |ids[n..]| && ids[n..][j] == b;
    assert ids[n + j] == b;
  }

  lemma LastIsGreatest(ids: seq<StreamId>, n: nat, before: StreamId)
    requires Increasing(ids) && 0 < n <= |ids|
    ensures var last := ids[..n][n - 1];
            MarksDeleted(if IdLess(before, last) then last else before, before, Members(ids[..n]))
  {
    var last := ids[n - 1];
    assert last in ids[..n];
    forall id | id in Members(ids[..n]) ensures IdLeq(id, last) {
      var i :| 0 <= i < n && ids[i] == id;
    }
  }

  // ----- Claiming -------------------------------------------------------------------------------

  /** The delivery time a claim leaves: the one given, or such that the entry has been idle for the time given, or now. */
  predicate StartsIdle(timeMs: nat, opt: ClaimOptions, nowMs: nat) {
    if opt.setTimeMs.Some? then timeMs == opt.setTimeMs.value
    else if opt.setIdleMs.Some? && opt.setIdleMs.value <= nowMs then timeMs + opt.setIdleMs.value == nowMs
    else if opt.setIdleMs.Some? then timeMs == 0
    else timeMs == nowMs
  }

  /** The delivery count a claim leaves: the one given, or one more than before, or as before if only ids were asked for. */
  predicate CountsOn(count: nat, before: nat, opt: ClaimOptions) {
    if opt.setRetry.Some? then count == opt.setRetry.value else if opt.justId then count == before else count == before + 1
  }

  /**
    What a claim of distinct ids does to each of them. With a live entry, a pending id
    changes hands exactly when it was delivered long enough ago, and another one exactly
    by force; without an entry it is no longer pending; otherwise it is as it was.
   */
  lemma ClaimExact(entries: map<StreamId, Fields>, g: Group, ids: seq<StreamId>, name: string, opt: ClaimOptions,
                   nowMs: nat, id: StreamId)
    requires forall i, j :: 0 <= i < j < |ids| ==> ids[i] != ids[j]
    ensures var after, claimed := ClaimAll(entries, g, ids, name, opt, nowMs), ClaimedIds(entries, g, ids, name, opt, nowMs);
            (id in claimed <==>
               && id in ids
               && id in entries
               && (if id in g.pending then IdleFor(g.pending[id], opt.minIdleMs, nowMs) else opt.force)) &&
            (id in claimed ==>
               && id in after.pending
               && after.pending[id].consumer == name
               && StartsIdle(after.pending[id].deliveryTimeMs, opt, nowMs)
               && var before := if id in g.pending then g.pending[id].deliveryCount else 0;
                  CountsOn(after.pending[id].deliveryCount, before, opt)) &&
            (id in ids && id !in entries ==> id !in after.pending) &&
            (id !in claimed && (id in entries || id !in ids) ==> Lookup(after, id) == Lookup(g, id))
  {
    hide ClaimAll, ClaimedIds;
    ClaimDecidesEach(entries, g, ids, name, opt, nowMs);
    var after := ClaimAll(entries, g, ids, name, opt, nowMs);
    assert Lookup(after, id) ==
           if id in ids then ClaimOutcome(id in entries, g, id, name, opt, nowMs) else Lookup(g, id);
    if id in g.pending {
      IdleForIff(g.pending[id], opt.minIdleMs, nowMs);
    }
  }

  /** The consumers stay, and no clock of theirs moves but the claimer's, which is set if something was claimed. */
  ghost predicate ClocksMove(was: Group, now: Group, name: string, nowMs: nat, claimed: bool) {
    && now.consumers.Keys == was.consumers.Keys
    && forall n :: n in was.consumers ==>
         if n == name && claimed then now.consumers[n].seenTimeMs == nowMs && now.consumers[n].activeTimeMs == nowMs
         else now.consumers[n].seenTimeMs == was.consumers[n].seenTimeMs &&
              now.consumers[n].activeTimeMs == was.consumers[n].activeTimeMs
  }

  lemma TakenClocks(g: Group, id: StreamId, name: string, timeMs: nat, count: nat, nowMs: nat)
    requires name in g.consumers
    ensures ClocksMove(g, Taken(g, id, name, timeMs, count, nowMs), name, nowMs, true)
  {
  }

  lemma RemovedClocks(g: Group, id: StreamId, name: string, nowMs: nat)
    ensures ClocksMove(g, Removed(g, id), name, nowMs, false)
  {
  }

  lemma ClocksAdd(a: Group, b: Group, c: Group, name: string, nowMs: nat, first: bool, second: bool)
    requires ClocksMove(a, b, name, nowMs, first) && ClocksMove(b, c, name, nowMs, second)
    ensures ClocksMove(a, c, name, nowMs, first || second)
  {
  }

  lemma ClocksStand(g: Group, name: string, nowMs: nat)
    ensures ClocksMove(g, g, name, nowMs, false)
  {
  }

  lemma ClaimOneClocks(live: bool, g: Group, id: StreamId, name: string, opt: ClaimOptions, nowMs: nat)
    requires name in g.consumers
    ensures ClocksMove(g, ClaimOne(live, g, id, name, opt, nowMs), name, nowMs, Claims(live, g, id, opt, nowMs))
  {
    hide Taken, Removed, ClocksMove;
    ClocksStand(g, name, nowMs);
    RemovedClocks(g, id, name, nowMs);
    var before := if id in g.pending then g.pending[id].deliveryCount else 0;
    var timeMs := if opt.setTimeMs.Some? then opt.setTimeMs.value
                  else Since(nowMs, if opt.setIdleMs.Some? then opt.setIdleMs.value else 0);
    var count := if opt.setRetry.Some? then opt.setRetry.value else if opt.justId then before else before + 1;
    TakenClocks(g, id, name, timeMs, count, nowMs);
  }

  /** A claim that takes something shows the claimer seen and active now, and no one else. */
  lemma {:induction false} ClaimClocks(entries: map<StreamId, Fields>, g: Group, ids: seq<StreamId>, name: string,
                                       opt: ClaimOptions, nowMs: nat)
    requires name in g.consumers
    ensures ClocksMove(g, ClaimAll(entries, g, ids, name, opt, nowMs), name, nowMs,
                       ClaimedIds(entries, g, ids, name, opt, nowMs) != [])
  {
    hide ClaimOne, Claims;
    if ids == [] {
      ClocksStand(g, name, nowMs);
    } else {
      var front, last := ids[..|ids| - 1], ids[|ids| - 1];
      ClaimClocks(entries, g, front, name, opt, nowMs);
      var before := ClaimAll(entries, g, front, name, opt, nowMs);
      ClaimOneClocks(last in entries, before, last, name, opt, nowMs);
      ClocksAdd(g, before, ClaimAll(entries, g, ids, name, opt, nowMs), name, nowMs,
                ClaimedIds(entries, g, front, name, opt, nowMs) != [], Claims(last in entries, before, last, opt, nowMs));
    }
  }

  /** So does an autoclaim scan. */
  lemma {:induction false} SweepClocks(entries: map<StreamId, Fields>, g: Group, ids: seq<StreamId>, opt: AutoOptions)
    requires opt.name in g.consumers
    ensures var t := SweepAll(entries, Sweep(g, [], []), ids, opt);
            ClocksMove(g, t.group, opt.name, opt.nowMs, t.claimed != [])
  {
    hide Taken, Removed, ClocksMove;
    if ids == [] {
      ClocksStand(g, opt.name, opt.nowMs);
    } else {
      var front, last := ids[..|ids| - 1], ids[|ids| - 1];
      SweepClocks(entries, g, front, opt);
      var before, after := SweepAll(entries, Sweep(g, [], []), front, opt), SweepAll(entries, Sweep(g, [], []), ids, opt);
      SweepKeepsName(g, before.group, opt, before.claimed != []);
      SweepOneClocks(last in entries, before, last, opt);
      ClocksAdd(g, before.group, after.group, opt.name, opt.nowMs, before.claimed != [], |after.claimed| > |before.claimed|);
    }
  }

  lemma SweepKeepsName(g: Group, t: Group, opt: AutoOptions, claimed: bool)
    requires opt.name in g.consumers && ClocksMove(g, t, opt.name, opt.nowMs, claimed)
    ensures opt.name in t.consumers
  {
  }

  lemma SweepOneClocks(live: bool, s: Sweep, id: StreamId, opt: AutoOptions)
    requires opt.name in s.group.consumers
    ensures var t := SweepOne(live, s, id, opt);
            ClocksMove(s.group, t.group, opt.name, opt.nowMs, |t.claimed| > |s.claimed|) &&
            |s.claimed| <= |t.claimed|
  {
    hide Taken, Removed, ClocksMove;
    ClocksStand(s.group, opt.name, opt.nowMs);
    RemovedClocks(s.group, id, opt.name, opt.nowMs);
    if id in s.group.pending {
      var before := s.group.pending[id].deliveryCount;
      TakenClocks(s.group, id, opt.name, opt.nowMs, if opt.justId then before else before + 1, opt.nowMs);
    }
  }

  // ----- Reading new entries ------------------------------------------------------------------------

  /** A read delivers, in order, the entries past the mark from the first on, as many as asked for if there are that many. */
  lemma NewIdsExact(entries: map<StreamId, Fields>, after: StreamId, count: Option<nat>)
    ensures var ids := NewIds(entries, after, count);
            var new' := set id | id in entries && IdLess(after, id);
            Increasing(ids) && (forall id :: id in ids ==> id in new') &&
            (forall id, x :: id in ids && x in new' && x !in ids ==> IdLess(id, x)) &&
            |ids| == if count.Some? && count.value < |new'| then count.value else |new'|
  {
    hide Ascending, IdLess;
    var new' := set id | id in entries && IdLess(after, id);
    var all := Ascending(new');
    AscendingLength(new');
    if count.Some? && count.value < |all| {
      var n := count.value;
      AllMembers(all, new');
      SplitMembers(all, n);
      forall id, x | id in all[..n] && x in new' && x !in all[..n] ensures IdLess(id, x) {
        assert id in Members(all[..n]) && x in Members(all[n..]);
      }
    }
  }

  /** The consumer's times after it was seen, and active if something came of it. */
  predicate SeenAt(c: Consumer, was: Consumer, nowMs: nat, active: bool) {
    c.seenTimeMs == nowMs && c.activeTimeMs == if active then nowMs else was.activeTimeMs
  }

  /** What a read of new entries leaves: the mark on the last, and each pending for the reader unless none is to be. */
  lemma ReadNewExact(entries: map<StreamId, Fields>, g: Group, name: string, count: Option<nat>, nowMs: nat, noack: bool)
    ensures var ids := NewIds(entries, g.lastDeliveredId, count);
            var r := ReadNew(entries, g, name, count, nowMs, noack);
            var was := if name in g.consumers then g.consumers[name] else Consumer({}, 0, 0);
            r.lastDeliveredId == (if ids == [] then g.lastDeliveredId else ids[|ids| - 1]) &&
            r.entriesRead == g.entriesRead + |ids| &&
            (forall id :: id in ids && !noack ==> Lookup(r, id) == Some(PendingEntry(name, nowMs, 1))) &&
            (forall id :: id !in ids || noack ==> Lookup(r, id) == Lookup(g, id)) &&
            r.consumers.Keys == g.consumers.Keys + {name} &&
            (forall n :: n in g.consumers && n != name ==> r.consumers[n] == g.consumers[n]) &&
            r.consumers[name].pending == (if noack then was.pending else was.pending + Members(ids)) &&
            SeenAt(r.consumers[name], was, nowMs, ids != [])
  {
    hide NewIds, DeliverAll, Touched, WithConsumer;
    var ids := NewIds(entries, g.lastDeliveredId, count);
    var w := WithConsumer(g, name);
    WithConsumerExact(g, name);
    Delivered(w, ids, name, nowMs, noack);
    DeliverKeepsTimes(w, ids, name, nowMs, noack);
    TouchedExact(DeliverAll(w, ids, name, nowMs, noack), name, nowMs, ids != []);
    assert Members(ids) == set id | id in ids;
  }

  lemma WithConsumerExact(g: Group, name: string)
    ensures var w := WithConsumer(g, name);
            w == g.(consumers := w.consumers) && w.consumers.Keys == g.consumers.Keys + {name} &&
            (forall n :: n in g.consumers ==> w.consumers[n] == g.consumers[n]) &&
            (name !in g.consumers ==> w.consumers[name] == Consumer({}, 0, 0))
  {
  }

  lemma TouchedExact(g: Group, name: string, nowMs: nat, active: bool)
    requires name in g.consumers
    ensures var t := Touched(g, name, nowMs, active);
            t == g.(consumers := t.consumers) && t.consumers.Keys == g.consumers.Keys &&
            (forall n :: n in g.consumers && n != name ==> t.consumers[n] == g.consumers[n]) &&
            t.consumers[name].pending == g.consumers[name].pending &&
            SeenAt(t.consumers[name], g.consumers[name], nowMs, active)
  {
  }

  lemma {:induction false} DeliverKeepsTimes(g: Group, ids: seq<StreamId>, name: string, nowMs: nat, noack: bool)
    requires name in g.consumers
    ensures var d := DeliverAll(g, ids, name, nowMs, noack);
            name in d.consumers && d.consumers[name].seenTimeMs == g.consumers[name].seenTimeMs &&
            d.consumers[name].activeTimeMs == g.consumers[name].activeTimeMs
  {
    if ids != [] {
      DeliverKeepsTimes(g, ids[..|ids| - 1], name, nowMs, noack);
    }
  }

  // ----- Acknowledging and dropping ------------------------------------------------------------------

  /** Acknowledging takes exactly the listed ids off the pending list, and counts those that were on it. */
  lemma {:induction false} AckExact(g: Group, ids: seq<StreamId>)
    ensures AckAll(g, ids).pending == g.pending - Members(ids)
    ensures |AckedIds(g, ids)| == |g.pending| - |AckAll(g, ids).pending|
    ensures AckAll(g, ids) == g.(pending := AckAll(g, ids).pending, consumers := AckAll(g, ids).consumers)
  {
    hide Removed, Members;
    if ids == [] {
      NoMembers(g.pending);
    } else {
      var front, last := ids[..|ids| - 1], ids[|ids| - 1];
      AckExact(g, front);
      RemovedExact(AckAll(g, front), last);
      LastMember(ids);
      MinusTwice(g.pending, Members(front), last);
    }
  }

  lemma NoMembers(m: map<StreamId, PendingEntry>)
    ensures m - Members([]) == m
  {
  }

  lemma MinusTwice(m: map<StreamId, PendingEntry>, s: set<StreamId>, id: StreamId)
    ensures m - (s + {id}) == (m - s) - {id}
  {
  }

  lemma LastMember(ids: seq<StreamId>)
    requires ids != []
    ensures Members(ids) == Members(ids[..|ids| - 1]) + {ids[|ids| - 1]}
  {
    assert ids == ids[..|ids| - 1] + [ids[|ids| - 1]];
  }

  lemma RemovedExact(g: Group, id: StreamId)
    ensures Removed(g, id).pending == g.pending - {id}
    ensures |Removed(g, id).pending| == |g.pending| - if id in g.pending then 1 else 0
    ensures Removed(g, id) == g.(pending := Removed(g, id).pending, consumers := Removed(g, id).consumers)
  {
    if id in g.pending {
      FewerByOne(g.pending, id);
    } else {
      assert g.pending - {id} == g.pending;
    }
  }

  lemma FewerByOne(m: map<StreamId, PendingEntry>, id: StreamId)
    requires id in m
    ensures |m - {id}| == |m| - 1
  {
    assert (m - {id}).Keys == m.Keys - {id};
    assert |m.Keys - {id}| == |m.Keys| - 1;
  }

  /** Deleting a consumer of a group in agreement takes exactly its pending entries along. */
  lemma DropExact(g: Group, name: string)
    requires Agrees(g)
    ensures var d := DropConsumer(g, name);
            d.consumers == g.consumers - {name} &&
            (forall id :: id in d.pending <==> id in g.pending && g.pending[id].consumer != name) &&
            (forall id :: id in d.pending ==> d.pending[id] == g.pending[id]) &&
            d == g.(pending := d.pending, consumers := d.consumers)
  {
  }

  /** A consumer that is created was seen and active now and holds nothing; one that is there is left alone. */
  lemma AddConsumerExact(g: Group, name: string, nowMs: nat)
    ensures var a := AddConsumer(g, name, nowMs);
            a.consumers.Keys == g.consumers.Keys + {name} &&
            (forall n :: n in g.consumers ==> a.consumers[n] == g.consumers[n]) &&
            (name !in g.consumers ==> a.consumers[name] == Consumer({}, nowMs, nowMs)) &&
            a == g.(consumers := a.consumers)
  {
  }

  // ----- Autoclaim in batches --------------------------------------------------------------------------

  lemma {:induction false} SweepClaimsOneEach(entries: map<StreamId, Fields>, s: Sweep, ids: seq<StreamId>,
                                              opt: AutoOptions, k: nat)
    requires k < |ids|
    ensures |SweepAll(entries, s, ids[..k + 1], opt).claimed| <= |SweepAll(entries, s, ids[..k], opt).claimed| + 1
  {
    hide Taken, Removed;
    assert ids[..k + 1][..k] == ids[..k];
  }

  lemma {:induction false} ExaminedStops(entries: map<StreamId, Fields>, g: Group, ids: seq<StreamId>, opt: AutoOptions,
                                         attempts: nat, k: nat)
    requires k <= |ids| && |SweepAll(entries, Sweep(g, [], []), ids[..k], opt).claimed| <= attempts
    ensures var n := Examined(entries, g, ids, opt, attempts, k);
            var claimed := SweepAll(entries, Sweep(g, [], []), ids[..n], opt).claimed;
            |claimed| <= attempts && (n < |ids| ==> |claimed| == attempts)
    decreases |ids| - k
  {
    hide SweepAll;
    ExaminedStep(entries, g, ids, opt, attempts, k);
    if k < |ids| && |SweepAll(entries, Sweep(g, [], []), ids[..k], opt).claimed| < attempts {
      SweepClaimsOneEach(entries, Sweep(g, [], []), ids, opt, k);
      ExaminedStops(entries, g, ids, opt, attempts, k + 1);
    }
  }

  /** One call claims at most as many as asked for, at least one allowed, and leaves a cursor only once it has them. */
  lemma AutoclaimFills(entries: map<StreamId, Fields>, g: Group, start: StreamId, count: nat, opt: AutoOptions)
    ensures var r := Autoclaim(entries, g, start, count, opt);
            var limit := if count == 0 then 1 else count;
            |r.sweep.claimed| <= limit && (r.cursor != MIN_ID ==> |r.sweep.claimed| == limit)
  {
    hide SweepAll, Examined, Candidates;
    var w := WithConsumer(g, opt.name);
    NothingSwept(entries, w, Candidates(w, start), opt);
    ExaminedStops(entries, w, Candidates(w, start), opt, if count == 0 then 1 else count, 0);
  }

  lemma NothingSwept(entries: map<StreamId, Fields>, g: Group, ids: seq<StreamId>, opt: AutoOptions)
    ensures SweepAll(entries, Sweep(g, [], []), ids[..0], opt) == Sweep(g, [], [])
  {
  }

  lemma OneFewer(entries: map<StreamId, Fields>, id: StreamId)
    requires id in entries
    ensures |entries - {id}| == |entries| - 1
  {
    assert (entries - {id}).Keys == entries.Keys - {id};
    assert |entries.Keys - {id}| == |entries.Keys| - 1;
  }

  lemma ExaminedStep(entries: map<StreamId, Fields>, g: Group, ids: seq<StreamId>, opt: AutoOptions, attempts: nat,
                     k: nat)
    requires k <= |ids|
    ensures Examined(entries, g, ids, opt, attempts, k) ==
            if k == |ids| || |SweepAll(entries, Sweep(g, [], []), ids[..k], opt).claimed| >= attempts then k
            else Examined(entries, g, ids, opt, attempts, k + 1)
  {
  }
}
