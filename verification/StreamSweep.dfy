/**
  Following XAUTOCLAIM's cursor to the end: it terminates, and however it is cut into
  batches it does what one scan of the whole pending list would do.
 */
module StreamSweep {
  import opened Basics
  import opened StreamModel
  import opened StreamGroups
  import opened StreamRuns

  function Ahead(g: Group, start: StreamId): set<StreamId> {
    set id | id in g.pending && IdLeq(start, id)
  }

  // ----- Scans compose ------------------------------------------------------------------

  lemma {:induction false} SweepSplit(entries: map<StreamId, Fields>, s: Sweep, a: seq<StreamId>, b: seq<StreamId>,
                                      opt: AutoOptions)
    ensures SweepAll(entries, s, a + b, opt) == SweepAll(entries, SweepAll(entries, s, a, opt), b, opt)
    decreases |b|
  {
    hide SweepOne;
    if b == [] {
      assert a + b == a;
    } else {
      var front := b[..|b| - 1];
      assert (a + b)[..|a + b| - 1] == a + front;
      SweepSplit(entries, s, a, front, opt);
    }
  }

  /** A scan only adds to what was claimed and deleted before it. */
  lemma {:induction false} SweepFrom(entries: map<StreamId, Fields>, g: Group, claimed: seq<StreamId>,
                                     deleted: seq<StreamId>, ids: seq<StreamId>, opt: AutoOptions)
    ensures var t := SweepAll(entries, Sweep(g, [], []), ids, opt);
            SweepAll(entries, Sweep(g, claimed, deleted), ids, opt) ==
            Sweep(t.group, claimed + t.claimed, deleted + t.deleted)
  {
    hide Removed, Taken;
    if ids != [] {
      SweepFrom(entries, g, claimed, deleted, ids[..|ids| - 1], opt);
    }
  }

  // ----- What a scan does ---------------------------------------------------------------

  /** The idle ids of a list whose entries are there, or are not. */
  function Chosen(entries: map<StreamId, Fields>, g: Group, ids: seq<StreamId>, opt: AutoOptions,
                  live: bool): seq<StreamId> {
    if ids == [] then []
    else
      var front, id := Chosen(entries, g, ids[..|ids| - 1], opt, live), ids[|ids| - 1];
      if IdleEnough(g, id, opt) && (id in entries <==> live) then front + [id] else front
  }

  /** The pending entry an id ends up with, if any. */
  function Outcome(entries: map<StreamId, Fields>, g: Group, id: StreamId, opt: AutoOptions): Option<PendingEntry> {
    if id !in g.pending then None
    else if !IdleEnough(g, id, opt) then Some(g.pending[id])
    else if id !in entries then None
    else Some(PendingEntry(opt.name, opt.nowMs, g.pending[id].deliveryCount + if opt.justId then 0 else 1))
  }

  lemma SweepOneTouchesOne(live: bool, s: Sweep, id: StreamId, opt: AutoOptions)
    ensures forall x :: x != id ==> Lookup(SweepOne(live, s, id, opt).group, x) == Lookup(s.group, x)
    ensures opt.name in s.group.consumers ==> opt.name in SweepOne(live, s, id, opt).group.consumers
  {
  }

  /** Every idle id of the list is taken over or purged, the others keep their owner, and ids off the list are not touched. */
  lemma {:induction false} SweepOutcome(entries: map<StreamId, Fields>, g: Group, ids: seq<StreamId>, opt: AutoOptions)
    requires Increasing(ids)
    ensures var t := SweepAll(entries, Sweep(g, [], []), ids, opt);
            t.claimed == Chosen(entries, g, ids, opt, true) &&
            t.deleted == Chosen(entries, g, ids, opt, false) &&
            (forall id :: Lookup(t.group, id) == if id in ids then Outcome(entries, g, id, opt) else Lookup(g, id)) &&
            (opt.name in g.consumers ==> opt.name in t.group.consumers)
  {
    if ids != [] {
      var front, id := ids[..|ids| - 1], ids[|ids| - 1];
      SweepOutcome(entries, g, front, opt);
      var before, after := SweepAll(entries, Sweep(g, [], []), front, opt), SweepAll(entries, Sweep(g, [], []), ids, opt);
      assert ids == front + [id];
      assert id !in front;
      SweepLast(entries, g, before, id, opt);
      SweepOneTouchesOne(id in entries, before, id, opt);
      forall x ensures Lookup(after.group, x) == if x in ids then Outcome(entries, g, x, opt) else Lookup(g, x) {
        assert x in ids <==> x in front || x == id;
      }
    }
  }

  lemma SweepLast(entries: map<StreamId, Fields>, g: Group, before: Sweep, id: StreamId, opt: AutoOptions)
    requires Lookup(before.group, id) == Lookup(g, id)
    ensures var after := SweepOne(id in entries, before, id, opt);
            Lookup(after.group, id) == Outcome(entries, g, id, opt) &&
            after.claimed ==
            (if IdleEnough(g, id, opt) && id in entries then before.claimed + [id] else before.claimed) &&
            after.deleted == if IdleEnough(g, id, opt) && id !in entries then before.deleted + [id] else before.deleted
  {
  }

  // ----- Following the cursor -------------------------------------------------------------

  lemma {:induction false} ExaminedEnough(entries: map<StreamId, Fields>, g: Group, ids: seq<StreamId>,
                                          opt: AutoOptions, attempts: nat, k: nat)
    requires k <= |ids| && 0 < attempts
    requires k == 0 ==> |SweepAll(entries, Sweep(g, [], []), ids[..0], opt).claimed| == 0
    ensures Examined(entries, g, ids, opt, attempts, k) < |ids| && k == 0 ==> 0 < Examined(entries, g, ids, opt, attempts, k)
    decreases |ids| - k
  {
    hide SweepAll;
  }

  /** What one call leaves for the next: exactly the candidates it did not look at. */
  lemma BatchLeavesRest(entries: map<StreamId, Fields>, g: Group, start: StreamId, count: nat, opt: AutoOptions)
    ensures var w := WithConsumer(g, opt.name);
            var ids := Candidates(w, start);
            var n := Examined(entries, w, ids, opt, if count == 0 then 1 else count, 0);
            var r := Autoclaim(entries, g, start, count, opt);
            n < |ids| ==>
              0 < n && r.cursor == ids[n] && IdLess(start, r.cursor) && opt.name in r.sweep.group.consumers &&
              Candidates(r.sweep.group, r.cursor) == ids[n..] && Ahead(r.sweep.group, r.cursor) < Ahead(g, start)
  {
    hide SweepAll, Examined;
    var w := WithConsumer(g, opt.name);
    var ids := Candidates(w, start);
    var attempts := if count == 0 then 1 else count;
    NothingYet(entries, w, ids, opt);
    ExaminedEnough(entries, w, ids, opt, attempts, 0);
    var n := Examined(entries, w, ids, opt, attempts, 0);
    if n < |ids| {
      var done := ids[..n];
      SweepOutcome(entries, w, done, opt);
      var g' := SweepAll(entries, Sweep(w, [], []), done, opt).group;
      RestUnchanged(w, g', ids, n, start);
      assert ids[0] in ids && ids[0] in Ahead(g, start) && ids[0] !in Ahead(g', ids[n]);
    }
  }

  lemma NothingYet(entries: map<StreamId, Fields>, g: Group, ids: seq<StreamId>, opt: AutoOptions)
    ensures SweepAll(entries, Sweep(g, [], []), ids[..0], opt) == Sweep(g, [], [])
  {
  }

  lemma RestUnchanged(g: Group, g': Group, ids: seq<StreamId>, n: nat, start: StreamId)
    requires ids == Candidates(g, start) && n < |ids|
    requires forall id :: id !in ids[..n] ==> Lookup(g', id) == Lookup(g, id)
    ensures Candidates(g', ids[n]) == ids[n..]
    ensures Ahead(g', ids[n]) <= Ahead(g, start)
    ensures forall id :: id in Ahead(g', ids[n]) ==> id in ids[n..]
  {
    forall id ensures id in Ahead(g', ids[n]) <==> id in ids[n..] {
      if id in ids[n..] {
        var i :| 0 <= i < |ids[n..]| && ids[n..][i] == id;
        assert ids[n + i] == id;
        assert id in ids;
        assert id !in ids[..n];
        assert Lookup(g', id) == Lookup(g, id);
      }
      if id in Ahead(g', ids[n]) {
        assert id !in ids[..n];
        assert Lookup(g', id) == Lookup(g, id);
        assert ids[n] in ids;
        assert id in ids;
        var i :| 0 <= i < |ids| && ids[i] == id;
        assert i >= n;
        assert ids[n..][i - n] == id;
      }
    }
    assert Increasing(ids[n..]);
    IncreasingUnique(Candidates(g', ids[n]), ids[n..]);
    forall id | id in Ahead(g', ids[n]) ensures id in Ahead(g, start) {
      assert id in ids[n..];
      assert id in ids;
    }
  }

  /** Calls the command again from each returned cursor until the cursor is `0-0`. */
  ghost function Followed(entries: map<StreamId, Fields>, g: Group, start: StreamId, count: nat,
                          opt: AutoOptions): Sweep
    decreases Ahead(g, start)
  {
    var r := Autoclaim(entries, g, start, count, opt);
    if r.cursor == MIN_ID then r.sweep
    else
      BatchLeavesRest(entries, g, start, count, opt);
      var rest := Followed(entries, r.sweep.group, r.cursor, count, opt);
      Sweep(rest.group, r.sweep.claimed + rest.claimed, r.sweep.deleted + rest.deleted)
  }

  /** However the scan is cut into batches, it does what one scan of all candidates does. */
  lemma {:induction false} BatchesAreInvisible(entries: map<StreamId, Fields>, g: Group, start: StreamId, count: nat,
                                               opt: AutoOptions)
    ensures var w := WithConsumer(g, opt.name);
            Followed(entries, g, start, count, opt) == SweepAll(entries, Sweep(w, [], []), Candidates(w, start), opt)
    decreases Ahead(g, start)
  {
    hide SweepAll, Examined, Candidates;
    var w := WithConsumer(g, opt.name);
    var ids := Candidates(w, start);
    var n := Examined(entries, w, ids, opt, if count == 0 then 1 else count, 0);
    var r := Autoclaim(entries, g, start, count, opt);
    BatchLeavesRest(entries, g, start, count, opt);
    if n < |ids| {
      var g' := r.sweep.group;
      BatchesAreInvisible(entries, g', r.cursor, count, opt);
      assert ids == ids[..n] + ids[n..];
      SweepSplit(entries, Sweep(w, [], []), ids[..n], ids[n..], opt);
      SweepFrom(entries, g', r.sweep.claimed, r.sweep.deleted, ids[n..], opt);
    } else {
      assert ids[..n] == ids;
    }
  }

  /**
    The XAUTOCLAIM sweep from `0-0`: the claimed and the purged ids are, in increasing
    order and each once, the sufficiently idle pending ids with and without a live entry;
    afterwards the claimer owns the former, the latter are gone, and all else is as it was.
   */
  lemma SweepVisitsEachOnce(entries: map<StreamId, Fields>, g: Group, count: nat, opt: AutoOptions)
    ensures var t := Followed(entries, g, MIN_ID, count, opt);
            Increasing(t.claimed) && Increasing(t.deleted) &&
            (forall id :: id in t.claimed <==>
               id in g.pending && IdleFor(g.pending[id], opt.minIdleMs, opt.nowMs) && id in entries) &&
            (forall id :: id in t.deleted <==>
               id in g.pending && IdleFor(g.pending[id], opt.minIdleMs, opt.nowMs) && id !in entries) &&
            (forall id :: id in t.claimed ==>
               Lookup(t.group, id) ==
               Some(PendingEntry(opt.name, opt.nowMs, g.pending[id].deliveryCount + if opt.justId then 0 else 1))) &&
            (forall id :: id in t.deleted ==> Lookup(t.group, id) == None) &&
            (forall id :: id !in t.claimed && id !in t.deleted ==> Lookup(t.group, id) == Lookup(g, id))
  {
    hide Followed, Increasing;
    SweepFollows(entries, g, count, opt);
    forall id
      ensures IdleEnough(g, id, opt) <==> id in g.pending && IdleFor(g.pending[id], opt.minIdleMs, opt.nowMs)
    {
      if id in g.pending {
        IdleForIff(g.pending[id], opt.minIdleMs, opt.nowMs);
      }
    }
  }

  lemma SweepFollows(entries: map<StreamId, Fields>, g: Group, count: nat, opt: AutoOptions)
    ensures var t := Followed(entries, g, MIN_ID, count, opt);
            Increasing(t.claimed) && Increasing(t.deleted) &&
            (forall id :: id in t.claimed <==> IdleEnough(g, id, opt) && id in entries) &&
            (forall id :: id in t.deleted <==> IdleEnough(g, id, opt) && id !in entries) &&
            (forall id :: Lookup(t.group, id) == Outcome(entries, g, id, opt))
  {
    hide SweepAll, Followed;
    var w := WithConsumer(g, opt.name);
    var ids := Candidates(w, MIN_ID);
    BatchesAreInvisible(entries, g, MIN_ID, count, opt);
    SweepOutcome(entries, w, ids, opt);
    ChosenExactly(entries, w, ids, opt, true);
    ChosenExactly(entries, w, ids, opt, false);
    forall id ensures id in ids <==> id in g.pending {
      assert IdLeq(MIN_ID, id);
    }
    var t := SweepAll(entries, Sweep(w, [], []), ids, opt);
    forall id ensures Lookup(t.group, id) == Outcome(entries, g, id, opt) {
      assert Outcome(entries, w, id, opt) == Outcome(entries, g, id, opt);
    }
    assert forall id :: IdleEnough(w, id, opt) <==> IdleEnough(g, id, opt);
  }

  lemma {:induction false} ChosenExactly(entries: map<StreamId, Fields>, g: Group, ids: seq<StreamId>,
                                         opt: AutoOptions, live: bool)
    requires Increasing(ids)
    ensures Increasing(Chosen(entries, g, ids, opt, live))
    ensures forall id :: id in Chosen(entries, g, ids, opt, live) <==> id in ids && IdleEnough(g, id, opt) && (id in entries <==> live)
  {
    if ids != [] {
      var front, last := ids[..|ids| - 1], ids[|ids| - 1];
      ChosenExactly(entries, g, front, opt, live);
      assert ids == front + [last];
      var chosen := Chosen(entries, g, front, opt, live);
      forall i | 0 <= i < |chosen| ensures IdLess(chosen[i], last) {
        assert chosen[i] in front;
      }
    }
  }
}
