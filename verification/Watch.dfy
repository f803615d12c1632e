/**
  The registry behind WATCH: versions of the keys somebody watches, under every
  interleaving of clients, including between the two halves of an unwatch.
 */
module Watch {
  /** A watched key's version and how many watches are on it. */
  datatype Tracked = Tracked(version: nat, watchers: nat)

  type Entries = map<string, Tracked>

  function Watched(entries: Entries, key: string): Entries {
    if key in entries then entries[key := entries[key].(watchers := entries[key].watchers + 1)]
    else entries[key := Tracked(0, 1)]
  }

  function Bumped(entries: Entries, key: string): Entries {
    if key in entries then entries[key := entries[key].(version := entries[key].version + 1)] else entries
  }

  /** The first half of an unwatch: one watch fewer. */
  function Decremented(entries: Entries, key: string): Entries {
    if key in entries && entries[key].watchers > 0
    then entries[key := entries[key].(watchers := entries[key].watchers - 1)] else entries
  }

  /** Whether the first half asks for the second. */
  predicate ShouldRemove(entries: Entries, key: string) {
    key in entries && entries[key].watchers == 0
  }

  /** The second half, which looks again: an entry with watches stays. */
  function RemovedIfIdle(entries: Entries, key: string): Entries {
    if ShouldRemove(entries, key) then entries - {key} else entries
  }

  function CurrentVersion(entries: Entries, key: string): nat {
    if key in entries then entries[key].version else 0
  }

  class WatchRegistry {
    var entries: Entries

    constructor ()
      ensures entries == map[]
    {
      entries := map[];
    }

    method Watch(key: string) returns (version: nat)
      modifies this
      ensures entries == Watched(old(entries), key)
      ensures version == CurrentVersion(entries, key) == CurrentVersion(old(entries), key)
    {
      if key in entries {
        entries := entries[key := entries[key].(watchers := entries[key].watchers + 1)];
      } else {
        entries := entries[key := Tracked(0, 1)];
      }
      return entries[key].version;
    }

    method Decrement(key: string) returns (shouldRemove: bool)
      modifies this
      ensures entries == Decremented(old(entries), key)
      ensures shouldRemove == ShouldRemove(entries, key)
    {
      if key !in entries {
        return false;
      }
      if entries[key].watchers > 0 {
        entries := entries[key := entries[key].(watchers := entries[key].watchers - 1)];
      }
      return entries[key].watchers == 0;
    }

    method RemoveIf(key: string)
      modifies this
      ensures entries == RemovedIfIdle(old(entries), key)
    {
      if key in entries && entries[key].watchers == 0 {
        entries := entries - {key};
      }
    }

    /** Both halves with nobody in between. */
    method Unwatch(key: string)
      modifies this
      ensures entries == RemovedIfIdle(Decremented(old(entries), key), key)
    {
      var shouldRemove := Decrement(key);
      if shouldRemove {
        RemoveIf(key);
      }
    }

    method Bump(key: string)
      modifies this
      ensures entries == Bumped(old(entries), key)
    {
      if key in entries {
        entries := entries[key := entries[key].(version := entries[key].version + 1)];
      }
    }

    method Current(key: string) returns (version: nat)
      ensures version == CurrentVersion(entries, key)
    {
      return if key in entries then entries[key].version else 0;
    }
  }

  // ----- Clients ------------------------------------------------------------------------

  /** A watch somebody holds: what was recorded, and how many writes to the key came since. */
  datatype Hold = Hold(key: string, recorded: nat, writes: nat)

  /** `leaving` are the unwatches between their two halves. */
  datatype System = System(entries: Entries, holds: map<nat, Hold>, leaving: multiset<string>)

  const Idle: System := System(map[], map[], multiset{})

  datatype Step =
    | BeginWatch(watch: nat, key: string)
    | Write(key: string)
    | EndWatch(watch: nat)
    | Finish(key: string)

  predicate Enabled(s: System, step: Step) {
    match step
    case BeginWatch(watch, _) => watch !in s.holds
    case Write(_) => true
    case EndWatch(watch) => watch in s.holds
    case Finish(key) => key in s.leaving
  }

  function Counted(holds: map<nat, Hold>, key: string): map<nat, Hold> {
    map w | w in holds :: if holds[w].key == key then holds[w].(writes := holds[w].writes + 1) else holds[w]
  }

  function Next(s: System, step: Step): System
    requires Enabled(s, step)
  {
    match step
    case BeginWatch(watch, key) =>
      var entries := Watched(s.entries, key);
      s.(entries := entries, holds := s.holds[watch := Hold(key, CurrentVersion(entries, key), 0)])
    case Write(key) => s.(entries := Bumped(s.entries, key), holds := Counted(s.holds, key))
    case EndWatch(watch) =>
      var key := s.holds[watch].key;
      var entries := Decremented(s.entries, key);
      System(entries, s.holds - {watch}, if ShouldRemove(entries, key) then s.leaving + multiset{key} else s.leaving)
    case Finish(key) => s.(entries := RemovedIfIdle(s.entries, key), leaving := s.leaving - multiset{key})
  }

  predicate IsRun(states: seq<System>, steps: seq<Step>) {
    && |states| == |steps| + 1
    && states[0] == Idle
    && forall i :: 0 <= i < |steps| ==> Enabled(states[i], steps[i]) && states[i + 1] == Next(states[i], steps[i])
  }

  function Holders(holds: map<nat, Hold>, key: string): set<nat> {
    set w | w in holds && holds[w].key == key
  }

  /** Counts are exact, and every held version differs from the recorded one by the writes since. */
  ghost predicate WatchInv(s: System) {
    && (forall key :: key in s.entries ==> s.entries[key].watchers == |Holders(s.holds, key)|)
    && (forall w :: w in s.holds ==>
          s.holds[w].key in s.entries && s.entries[s.holds[w].key].version == s.holds[w].recorded + s.holds[w].writes)
  }

  lemma HoldersAdd(holds: map<nat, Hold>, w: nat, h: Hold, key: string)
    requires w !in holds
    ensures Holders(holds[w := h], key) == if h.key == key then Holders(holds, key) + {w} else Holders(holds, key)
    ensures |Holders(holds[w := h], key)| == |Holders(holds, key)| + if h.key == key then 1 else 0
  {
    assert Holders(holds[w := h], key) == if h.key == key then Holders(holds, key) + {w} else Holders(holds, key);
  }

  lemma HoldersRemove(holds: map<nat, Hold>, w: nat, key: string)
    requires w in holds
    ensures |Holders(holds - {w}, key)| == |Holders(holds, key)| - if holds[w].key == key then 1 else 0
    ensures holds[w].key == key ==> |Holders(holds, key)| > 0
  {
    var rest := holds - {w};
    assert rest[w := holds[w]] == holds;
    HoldersAdd(rest, w, holds[w], key);
  }

  lemma HoldersCounted(holds: map<nat, Hold>, written: string, key: string)
    ensures Holders(Counted(holds, written), key) == Holders(holds, key)
  {
  }

  lemma BeginKeeps(s: System, watch: nat, key: string)
    requires WatchInv(s) && watch !in s.holds
    ensures WatchInv(Next(s, BeginWatch(watch, key)))
  {
    hide Holders;
    var t := Next(s, BeginWatch(watch, key));
    forall k | k in t.entries ensures t.entries[k].watchers == |Holders(t.holds, k)| {
      HoldersAdd(s.holds, watch, t.holds[watch], k);
      if k !in s.entries {
        NobodyHolds(s, k);
      }
    }
  }

  lemma NobodyHolds(s: System, key: string)
    requires WatchInv(s) && key !in s.entries
    ensures |Holders(s.holds, key)| == 0
  {
    assert Holders(s.holds, key) == {};
  }

  lemma WriteKeeps(s: System, key: string)
    requires WatchInv(s)
    ensures WatchInv(Next(s, Write(key)))
  {
    hide Holders;
    var t := Next(s, Write(key));
    forall k | k in t.entries ensures t.entries[k].watchers == |Holders(t.holds, k)| {
      HoldersCounted(s.holds, key, k);
    }
  }

  lemma EndKeeps(s: System, watch: nat)
    requires WatchInv(s) && watch in s.holds
    ensures WatchInv(Next(s, EndWatch(watch)))
  {
    hide Holders;
    var t := Next(s, EndWatch(watch));
    forall k | k in t.entries ensures t.entries[k].watchers == |Holders(t.holds, k)| {
      HoldersRemove(s.holds, watch, k);
    }
  }

  lemma FinishKeeps(s: System, key: string)
    requires WatchInv(s) && key in s.leaving
    ensures WatchInv(Next(s, Finish(key)))
  {
    var t := Next(s, Finish(key));
    forall w | w in t.holds ensures t.holds[w].key in t.entries {
      if t.holds[w].key == key {
        assert w in Holders(s.holds, key);
      }
    }
  }

  lemma {:induction false} RunKeepsInv(states: seq<System>, steps: seq<Step>, i: nat)
    requires IsRun(states, steps) && i <= |steps|
    ensures WatchInv(states[i])
  {
    if i > 0 {
      RunKeepsInv(states, steps, i - 1);
      var s := states[i - 1];
      match steps[i - 1]
      case BeginWatch(watch, key) => BeginKeeps(s, watch, key);
      case Write(key) => WriteKeeps(s, key);
      case EndWatch(watch) => EndKeeps(s, watch);
      case Finish(key) => FinishKeeps(s, key);
    }
  }

  /** An entry without watches is on its way out. */
  predicate NoLeak(s: System) {
    forall key :: key in s.entries && s.entries[key].watchers == 0 ==> key in s.leaving
  }

  /** Under every interleaving the registry holds only keys somebody watches or is just leaving; left alone, it is empty. */
  lemma {:induction false} NothingLeaks(states: seq<System>, steps: seq<Step>, i: nat)
    requires IsRun(states, steps) && i <= |steps|
    ensures NoLeak(states[i])
    ensures states[i].holds == map[] && states[i].leaving == multiset{} ==> states[i].entries == map[]
  {
    if i > 0 {
      NothingLeaks(states, steps, i - 1);
      StepLeaksNothing(states[i - 1], steps[i - 1]);
    }
    RunKeepsInv(states, steps, i);
    var s := states[i];
    if s.holds == map[] && s.leaving == multiset{} {
      forall key ensures key !in s.entries {
        assert Holders(s.holds, key) == {};
      }
    }
  }

  lemma StepLeaksNothing(s: System, step: Step)
    requires NoLeak(s) && Enabled(s, step)
    ensures NoLeak(Next(s, step))
  {
    hide Counted;
    var t := Next(s, step);
    match step
    case BeginWatch(_, _) =>
    case Write(_) =>
    case EndWatch(watch) =>
      var gone := s.holds[watch].key;
      forall key | key in t.entries && t.entries[key].watchers == 0 ensures key in t.leaving {
        assert key != gone ==> key in s.leaving;
      }
    case Finish(gone) =>
      forall key | key in t.entries && t.entries[key].watchers == 0 ensures key in t.leaving {
        assert key != gone && key in s.leaving;
      }
  }

  /**
    Under every interleaving: while a watch is held its entry stays, and the current
    version is the recorded one plus the writes to the key in between.
   */
  lemma WatchDetectsWrites(states: seq<System>, steps: seq<Step>, i: nat, watch: nat)
    requires IsRun(states, steps) && i <= |steps| && watch in states[i].holds
    ensures var s, h := states[i], states[i].holds[watch];
            h.key in s.entries && CurrentVersion(s.entries, h.key) == h.recorded + h.writes
  {
    RunKeepsInv(states, steps, i);
  }

  /** `writes` is what it says: the writes to the key after the step that began the watch. */
  lemma {:induction false} WritesAreCounted(states: seq<System>, steps: seq<Step>, began: nat, i: nat, watch: nat,
                                            key: string)
    requires IsRun(states, steps) && began < i <= |steps| && steps[began] == BeginWatch(watch, key)
    requires forall j :: began < j < i ==> steps[j] != EndWatch(watch)
    ensures watch in states[i].holds && states[i].holds[watch].key == key
    ensures states[i].holds[watch].recorded == CurrentVersion(states[began].entries, key)
    ensures states[i].holds[watch].writes == WritesIn(steps[began + 1..i], key)
  {
    hide Next;
    if i == began + 1 {
      BeginsHold(states[began], watch, key);
      assert steps[began + 1..i] == [];
    } else {
      WritesAreCounted(states, steps, began, i - 1, watch, key);
      HoldSurvives(states[i - 1], steps[i - 1], watch);
      var before, all := steps[began + 1..i - 1], steps[began + 1..i];
      assert all[..|all| - 1] == before && all[|all| - 1] == steps[i - 1];
    }
  }

  lemma BeginsHold(s: System, watch: nat, key: string)
    requires Enabled(s, BeginWatch(watch, key))
    ensures var t := Next(s, BeginWatch(watch, key));
            watch in t.holds && t.holds[watch] == Hold(key, CurrentVersion(s.entries, key), 0)
  {
  }

  lemma HoldSurvives(s: System, step: Step, watch: nat)
    requires Enabled(s, step) && watch in s.holds && step != EndWatch(watch)
    ensures var t, h := Next(s, step), s.holds[watch];
            watch in t.holds && t.holds[watch] == h.(writes := h.writes + if step == Write(h.key) then 1 else 0)
  {
  }

  function WritesIn(steps: seq<Step>, key: string): nat {
    if steps == [] then 0
    else WritesIn(steps[..|steps| - 1], key) + if steps[|steps| - 1] == Write(key) then 1 else 0
  }

  /** EXEC's test is sound and complete: versions match exactly when no write to the key came between WATCH and EXEC. */
  lemma ExecTestIsExact(states: seq<System>, steps: seq<Step>, began: nat, i: nat, watch: nat, key: string)
    requires IsRun(states, steps) && began < i <= |steps| && steps[began] == BeginWatch(watch, key)
    requires forall j :: began < j < i ==> steps[j] != EndWatch(watch)
    ensures key in states[i].entries
    ensures CurrentVersion(states[i].entries, key) == CurrentVersion(states[began + 1].entries, key) <==>
            forall j :: began < j < i ==> steps[j] != Write(key)
  {
    hide Next, WatchInv;
    WritesAreCounted(states, steps, began, i, watch, key);
    WritesAreCounted(states, steps, began, began + 1, watch, key);
    WatchDetectsWrites(states, steps, i, watch);
    WatchDetectsWrites(states, steps, began + 1, watch);
    assert steps[began + 1..began + 1] == [];
    NoWrites(steps[began + 1..i], key);
    if j :| began < j < i && steps[j] == Write(key) {
      assert steps[began + 1..i][j - (began + 1)] == Write(key);
    }
  }

  lemma {:induction false} NoWrites(steps: seq<Step>, key: string)
    ensures WritesIn(steps, key) == 0 <==> forall j :: 0 <= j < |steps| ==> steps[j] != Write(key)
  {
    if steps != [] {
      NoWrites(steps[..|steps| - 1], key);
    }
  }
}
