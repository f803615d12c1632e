/**
  Sorted sets: a map from members to scores and an ordered index over the same pairs,
  changed together, and the queries answered from the index.
 */
module SortedSets {
  import opened Basics

  type Score = real

  /** The index's key: by score, ties by member bytes. */
  datatype Key = Key(score: Score, member: Bytes)

  predicate BytesLess(a: Bytes, b: Bytes) {
    b != [] && (a == [] || a[0] < b[0] || (a[0] == b[0] && BytesLess(a[1..], b[1..])))
  }

  predicate KeyLess(a: Key, b: Key) {
    a.score < b.score || (a.score == b.score && BytesLess(a.member, b.member))
  }

  lemma {:induction false} BytesOrder(a: Bytes, b: Bytes)
    ensures a != b ==> BytesLess(a, b) || BytesLess(b, a)
    ensures BytesLess(a, b) ==> !BytesLess(b, a) && a != b
  {
    if a != [] && b != [] && a[0] == b[0] {
      BytesOrder(a[1..], b[1..]);
      assert a == [a[0]] + a[1..] && b == [b[0]] + b[1..];
    }
  }

  lemma {:induction false} BytesTransitive(a: Bytes, b: Bytes, c: Bytes)
    requires BytesLess(a, b) && BytesLess(b, c)
    ensures BytesLess(a, c)
  {
    if a != [] && a[0] == b[0] && b[0] == c[0] {
      BytesTransitive(a[1..], b[1..], c[1..]);
    }
  }

  /** Bytes compare at the first place they differ, and a beginning comes before what it begins. */
  lemma {:induction false} BytesLessIff(a: Bytes, b: Bytes)
    ensures BytesLess(a, b) <==>
            exists n :: 0 <= n <= |a| && n < |b| && a[..n] == b[..n] && (n == |a| || a[n] < b[n])
  {
    if BytesLess(a, b) {
      if a != [] && a[0] == b[0] {
        BytesLessIff(a[1..], b[1..]);
        var n :| 0 <= n <= |a[1..]| && n < |b[1..]| && a[1..][..n] == b[1..][..n] &&
                 (n == |a[1..]| || a[1..][n] < b[1..][n]);
        assert a[..n + 1] == [a[0]] + a[1..][..n] && b[..n + 1] == [b[0]] + b[1..][..n];
        assert n + 1 == |a| || a[n + 1] < b[n + 1];
      } else {
        assert a[..0] == b[..0];
      }
    } else if n :| 0 <= n <= |a| && n < |b| && a[..n] == b[..n] && (n == |a| || a[n] < b[n]) {
      BytesDecide(a, b, n);
    }
  }

  lemma {:induction false} BytesDecide(a: Bytes, b: Bytes, n: nat)
    requires n <= |a| && n < |b| && a[..n] == b[..n] && (n == |a| || a[n] < b[n])
    ensures BytesLess(a, b)
  {
    if n > 0 {
      assert a[0] == a[..n][0] == b[..n][0] == b[0];
      assert a[1..][..n - 1] == a[..n][1..] == b[..n][1..] == b[1..][..n - 1];
      BytesDecide(a[1..], b[1..], n - 1);
    }
  }

  lemma KeyOrder(a: Key, b: Key)
    ensures a != b ==> KeyLess(a, b) || KeyLess(b, a)
    ensures KeyLess(a, b) ==> !KeyLess(b, a) && a != b
  {
    BytesOrder(a.member, b.member);
  }

  lemma KeyTransitive(a: Key, b: Key, c: Key)
    requires KeyLess(a, b) && KeyLess(b, c)
    ensures KeyLess(a, c)
  {
    if a.score == b.score == c.score {
      BytesTransitive(a.member, b.member, c.member);
    }
  }

  // ----- Ordered lists ---------------------------------------------------------------------

  predicate Increasing(s: seq<Key>) {
    forall i, j :: 0 <= i < j < |s| ==> KeyLess(s[i], s[j])
  }

  /** The list holds exactly the map's pairs, in order: the one sorted list of the map. */
  ghost predicate Lists(s: seq<Key>, m: map<Bytes, Score>) {
    Increasing(s) && forall k :: k in s <==> k.member in m && m[k.member] == k.score
  }

  lemma {:induction false} IncreasingUnique(a: seq<Key>, b: seq<Key>)
    requires Increasing(a) && Increasing(b) && forall k :: k in a <==> k in b
    ensures a == b
  {
    assert (a != [] ==> a[0] in b) && (b != [] ==> b[0] in a);
    if a != [] {
      var j :| 0 <= j < |b| && b[j] == a[0];
      var i :| 0 <= i < |a| && a[i] == b[0];
      KeyOrder(a[0], b[0]);
      assert a[0] == b[0];
      forall k ensures k in a[1..] <==> k in b[1..] {
        TailMembers(a, k);
        TailMembers(b, k);
      }
      IncreasingUnique(a[1..], b[1..]);
    }
  }

  lemma TailMembers(s: seq<Key>, k: Key)
    requires Increasing(s) && s != []
    ensures k in s[1..] <==> k in s && k != s[0]
  {
    if k in s[1..] {
      var i :| 0 <= i < |s[1..]| && s[1..][i] == k;
      assert s[i + 1] == k;
      KeyOrder(s[0], k);
    }
  }

  /** A map has one sorted list: rebuilding the index from the map restores it. */
  lemma ListIsUnique(a: seq<Key>, b: seq<Key>, m: map<Bytes, Score>)
    requires Lists(a, m) && Lists(b, m)
    ensures a == b
  {
    IncreasingUnique(a, b);
  }

  /** How many keys of an ordered list come before this one. */
  function Before(s: seq<Key>, k: Key): (n: nat)
    ensures n <= |s|
  {
    if s == [] || !KeyLess(s[0], k) then 0 else 1 + Before(s[1..], k)
  }

  lemma {:induction false} BeforeSplits(s: seq<Key>, k: Key)
    requires Increasing(s)
    ensures forall i :: 0 <= i < Before(s, k) ==> KeyLess(s[i], k)
    ensures forall i :: Before(s, k) <= i < |s| ==> !KeyLess(s[i], k)
  {
    if s != [] {
      if KeyLess(s[0], k) {
        BeforeSplits(s[1..], k);
        assert forall i :: 0 < i < |s| ==> s[i] == s[1..][i - 1];
      } else {
        forall i | 0 <= i < |s| ensures !KeyLess(s[i], k) {
          if i > 0 && KeyLess(s[i], k) {
            KeyTransitive(s[0], s[i], k);
          }
        }
      }
    }
  }

  function With(s: seq<Key>, k: Key): seq<Key> {
    s[..Before(s, k)] + [k] + s[Before(s, k)..]
  }

  /** The list without one of its keys. */
  function Without(s: seq<Key>, k: Key): seq<Key> {
    var n := Before(s, k);
    if n < |s| && s[n] == k then s[..n] + s[n + 1..] else s
  }

  /** The position of a key is the number of keys before it. */
  lemma {:induction false} RankIsPosition(s: seq<Key>, i: nat)
    requires Increasing(s) && i < |s|
    ensures Before(s, s[i]) == i
  {
    hide KeyLess;
    KeyOrder(s[0], s[0]);
    if i > 0 {
      RankIsPosition(s[1..], i - 1);
    }
  }

  lemma MemberPosition(s: seq<Key>, k: Key)
    requires Increasing(s)
    ensures k in s <==> Before(s, k) < |s| && s[Before(s, k)] == k
  {
    hide KeyLess;
    if k in s {
      var i :| 0 <= i < |s| && s[i] == k;
      RankIsPosition(s, i);
    }
  }

  lemma SplitMembers(s: seq<Key>, n: nat, x: Key)
    requires n <= |s|
    ensures x in s <==> x in s[..n] || x in s[n..]
  {
    assert s == s[..n] + s[n..];
  }

  lemma WithKeeps(s: seq<Key>, k: Key)
    requires Increasing(s) && k !in s
    ensures Increasing(With(s, k))
    ensures forall x :: x in With(s, k) <==> x in s || x == k
  {
    hide KeyLess;
    WithIncreasing(s, k);
    forall x ensures x in With(s, k) <==> x in s || x == k {
      SplitMembers(s, Before(s, k), x);
    }
  }

  lemma WithIncreasing(s: seq<Key>, k: Key)
    requires Increasing(s) && k !in s
    ensures Increasing(With(s, k))
  {
    hide KeyLess;
    BeforeSplits(s, k);
    var n, w := Before(s, k), With(s, k);
    forall i | n <= i < |s| ensures KeyLess(k, s[i]) {
      KeyOrder(s[i], k);
      assert s[i] in s;
    }
    assert forall i :: 0 <= i < |w| ==> w[i] == if i < n then s[i] else if i == n then k else s[i - 1];
  }

  lemma WithoutKeeps(s: seq<Key>, k: Key)
    requires Increasing(s)
    ensures Increasing(Without(s, k))
    ensures forall x :: x in Without(s, k) <==> x in s && x != k
  {
    hide KeyLess;
    MemberPosition(s, k);
    var n := Before(s, k);
    if n < |s| && s[n] == k {
      forall x ensures x in Without(s, k) <==> x in s && x != k {
        SplitMembers(s, n, x);
        SplitMembers(s[n..], 1, x);
        assert s[n..][1..] == s[n + 1..] && s[n..][..1] == [k];
        OnlyOnce(s, n);
      }
    }
  }

  lemma OnlyOnce(s: seq<Key>, n: nat)
    requires Increasing(s) && n < |s|
    ensures s[n] !in s[..n] && s[n] !in s[n + 1..]
  {
    hide KeyLess;
    forall i | 0 <= i < |s| && i != n ensures s[i] != s[n] {
      KeyOrder(s[i], s[n]);
    }
  }

  // ----- Index ranges -----------------------------------------------------------------------------

  /** A Redis index counted from the end when negative. */
  function FromEnd(index: int, len: nat): int {
    if index < 0 then len + index else index
  }

  function NormalizeIndexRange(start: int, stop: int, len: nat): (r: Option<(nat, nat)>)
    ensures r.Some? ==> r.value.0 <= r.value.1 < len
  {
    if len == 0 then None
    else
      var lo := if FromEnd(start, len) < 0 then 0 else FromEnd(start, len);
      var low := if FromEnd(stop, len) < 0 then 0 else FromEnd(stop, len);
      var hi := if low >= len then len - 1 else low;
      if lo > hi || lo >= len then None else Some((lo, hi))
  }

  /** The position lies in the requested window. */
  predicate InWindow(start: int, stop: int, len: nat, i: nat) {
    i < len && FromEnd(start, len) <= i <= FromEnd(stop, len)
  }

  predicate Selected(start: int, stop: int, len: nat, i: nat) {
    var r := NormalizeIndexRange(start, stop, len);
    r.Some? && r.value.0 <= i <= r.value.1
  }

  /**
    Exactly when the normalised range is the requested window: an end that lies before the
    first element is clamped onto it, so the first element is returned for a window that
    holds nothing.
   */
  lemma WindowExactIff(start: int, stop: int, len: nat)
    ensures (forall i: nat :: Selected(start, stop, len, i) <==> InWindow(start, stop, len, i)) <==>
            len == 0 || FromEnd(stop, len) >= 0 || FromEnd(start, len) > 0
  {
    if len > 0 && FromEnd(stop, len) < 0 && FromEnd(start, len) <= 0 {
      assert Selected(start, stop, len, 0) && !InWindow(start, stop, len, 0);
    }
  }

  lemma StopBeforeFirst()
    ensures Selected(0, -10, 3, 0) && !InWindow(0, -10, 3, 0)
  {
  }

  function Reversed(s: seq<Key>): (r: seq<Key>)
    ensures |r| == |s|
  {
    seq(|s|, i requires 0 <= i < |s| => s[|s| - 1 - i])
  }

  function Slice(s: seq<Key>, start: int, stop: int): seq<Key> {
    match NormalizeIndexRange(start, stop, |s|)
    case None => []
    case Some(r) => s[r.0..r.1 + 1]
  }

  // ----- Score ranges --------------------------------------------------------------------------------

  datatype ScoreBound = Inclusive(value: Score) | Exclusive(value: Score) | NegInf | PosInf

  predicate AboveMin(score: Score, min: ScoreBound) {
    match min
    case Inclusive(v) => score >= v
    case Exclusive(v) => score > v
    case NegInf => true
    case PosInf => false
  }

  predicate BelowMax(score: Score, max: ScoreBound) {
    match max
    case Inclusive(v) => score <= v
    case Exclusive(v) => score < v
    case NegInf => false
    case PosInf => true
  }

  predicate InBounds(score: Score, min: ScoreBound, max: ScoreBound) {
    AboveMin(score, min) && BelowMax(score, max)
  }

  function Between(s: seq<Key>, min: ScoreBound, max: ScoreBound): seq<Key> {
    if s == [] then []
    else
      var front := Between(s[..|s| - 1], min, max);
      if InBounds(s[|s| - 1].score, min, max) then front + [s[|s| - 1]] else front
  }

  lemma {:induction false} BetweenExact(s: seq<Key>, min: ScoreBound, max: ScoreBound)
    requires Increasing(s)
    ensures Increasing(Between(s, min, max))
    ensures forall k :: k in Between(s, min, max) <==> k in s && InBounds(k.score, min, max)
  {
    if s != [] {
      var front, last := s[..|s| - 1], s[|s| - 1];
      BetweenExact(front, min, max);
      assert s == front + [last];
      var kept := Between(front, min, max);
      forall i | 0 <= i < |kept| ensures KeyLess(kept[i], last) {
        assert kept[i] in front;
      }
    }
  }

  /** Keys stand in the order of their scores. */
  lemma ScoresGrow(s: seq<Key>, i: nat, j: nat)
    requires Increasing(s) && i <= j < |s|
    ensures s[i].score <= s[j].score
  {
  }

  /** The scores a range holds, bound by bound: an inclusive bound belongs to it, an exclusive one does not. */
  lemma BoundsExact(s: seq<Key>, min: ScoreBound, max: ScoreBound, k: Key)
    requires Increasing(s) && k in s
    ensures k in Between(s, min, max) <==>
              && min != PosInf
              && max != NegInf
              && (min.Inclusive? ==> min.value <= k.score)
              && (min.Exclusive? ==> min.value < k.score)
              && (max.Inclusive? ==> k.score <= max.value)
              && (max.Exclusive? ==> k.score < max.value)
  {
    BetweenExact(s, min, max);
  }

  /** A score cuts the list in two, whichever side it is counted to. */
  lemma SplitAtScore(s: seq<Key>, v: Score)
    requires Increasing(s)
    ensures s == Between(s, NegInf, Inclusive(v)) + Between(s, Exclusive(v), PosInf)
    ensures s == Between(s, NegInf, Exclusive(v)) + Between(s, Inclusive(v), PosInf)
  {
    hide Increasing;
    SplitAfter(s, v);
    SplitBefore(s, v);
  }

  lemma {:induction false} SplitAfter(s: seq<Key>, v: Score)
    requires Increasing(s)
    ensures s == Between(s, NegInf, Inclusive(v)) + Between(s, Exclusive(v), PosInf)
  {
    if s != [] {
      var front, last := s[..|s| - 1], s[|s| - 1];
      SplitAfter(front, v);
      hide KeyLess, Increasing;
      assert s == front + [last];
      if last.score <= v {
        NoneBetween(s, Exclusive(v));
      }
    }
  }

  lemma {:induction false} SplitBefore(s: seq<Key>, v: Score)
    requires Increasing(s)
    ensures s == Between(s, NegInf, Exclusive(v)) + Between(s, Inclusive(v), PosInf)
  {
    if s != [] {
      var front, last := s[..|s| - 1], s[|s| - 1];
      SplitBefore(front, v);
      hide KeyLess, Increasing;
      assert s == front + [last];
      if last.score < v {
        NoneBetween(s, Inclusive(v));
      }
    }
  }

  /** A bound the last key does not reach, no key before it does. */
  lemma NoneBetween(s: seq<Key>, min: ScoreBound)
    requires Increasing(s) && s != [] && !AboveMin(s[|s| - 1].score, min)
    ensures Between(s[..|s| - 1], min, PosInf) == []
  {
    var n := |s| - 1;
    var front := s[..n];
    BetweenExact(front, min, PosInf);
    forall i | 0 <= i < n ensures !AboveMin(front[i].score, min) {
      ScoresGrow(s, i, n);
    }
    FirstIsIn(Between(front, min, PosInf));
  }

  lemma FirstIsIn(s: seq<Key>)
    ensures s == [] || s[0] in s
  {
  }

  function Limited(s: seq<Key>, offset: nat, count: Option<nat>): seq<Key> {
    var rest := if offset <= |s| then s[offset..] else [];
    if count.Some? && count.value < |rest| then rest[..count.value] else rest
  }

  /** An offset skips, a count limits, and the rest is in order. */
  lemma LimitedExact(s: seq<Key>, offset: nat, count: Option<nat>)
    ensures var r, left := Limited(s, offset, count), if offset <= |s| then |s| - offset else 0;
            |r| == (if count.Some? && count.value < left then count.value else left) &&
            forall i :: 0 <= i < |r| ==> offset + i < |s| && r[i] == s[offset + i]
  {
  }

  /** The members that come before this one: those with a lower score, and of equal score those with lower bytes. */
  function Ahead(m: map<Bytes, Score>, member: Bytes): set<Bytes>
    requires member in m
  {
    set x | x in m && (m[x] < m[member] || (m[x] == m[member] && BytesLess(x, member)))
  }

  function MembersOf(s: seq<Key>): set<Bytes> {
    set k | k in s :: k.member
  }

  lemma {:induction false} MembersCount(s: seq<Key>, m: map<Bytes, Score>)
    requires Increasing(s) && forall k :: k in s ==> k.member in m && m[k.member] == k.score
    ensures |MembersOf(s)| == |s|
  {
    hide KeyLess;
    if s != [] {
      var front, last := s[..|s| - 1], s[|s| - 1];
      MembersCount(front, m);
      assert s == front + [last];
      assert MembersOf(s) == MembersOf(front) + {last.member};
      forall i | 0 <= i < |front| ensures front[i].member != last.member {
        KeyOrder(s[i], last);
        assert s[i] in s && last in s;
      }
    }
  }

  /** A rank counts the members that come before. */
  lemma RankCounts(s: seq<Key>, m: map<Bytes, Score>, i: nat)
    requires Lists(s, m) && i < |s|
    ensures s[i].member in m && i == |Ahead(m, s[i].member)|
  {
    hide BytesLess;
    assert s[i] in s;
    var front := s[..i];
    forall k | k in front ensures k in s {
    }
    MembersCount(front, m);
    forall x ensures x in Ahead(m, s[i].member) <==> x in MembersOf(front) {
      if x in m {
        BeforeIff(s, m, i, x);
      }
    }
    assert Ahead(m, s[i].member) == MembersOf(front);
  }

  lemma BeforeIff(s: seq<Key>, m: map<Bytes, Score>, i: nat, x: Bytes)
    requires Lists(s, m) && i < |s| && x in m && s[i].member in m
    ensures x in MembersOf(s[..i]) <==> KeyLess(Key(m[x], x), s[i])
  {
    hide KeyLess;
    var k := Key(m[x], x);
    assert k in s;
    var j :| 0 <= j < |s| && s[j] == k;
    if j < i {
      assert s[..i][j] == k;
    } else {
      KeyOrder(s[i], s[j]);
      forall n | 0 <= n < i ensures s[n].member != x {
        assert s[n] in s;
        KeyOrder(s[n], s[j]);
      }
    }
  }

  // ----- The object ---------------------------------------------------------------------------------

  /** The map without the members of some keys. */
  function Unmapped(m: map<Bytes, Score>, keys: seq<Key>): map<Bytes, Score> {
    m - (set k | k in keys :: k.member)
  }

  class SortedSet {
    var scores: map<Bytes, Score>
    var index: seq<Key>

    constructor ()
      ensures Valid() && scores == map[]
    {
      scores, index := map[], [];
    }

    /** The index is the sorted list of the map. */
    ghost predicate Valid()
      reads this
    {
      Lists(index, scores)
    }

    method Insert(member: Bytes, score: Score) returns (added: bool)
      requires Valid()
      modifies this
      ensures Valid() && scores == old(scores)[member := score]
      ensures added == (member !in old(scores))
    {
      hide KeyLess, With, Without;
      var key := Key(score, member);
      if member in scores {
        var previous := scores[member];
        if previous != score {
          WithoutKeeps(index, Key(previous, member));
          index := Without(index, Key(previous, member));
          WithKeeps(index, key);
          index := With(index, key);
        }
        added := false;
      } else {
        WithKeeps(index, key);
        index := With(index, key);
        added := true;
      }
      scores := scores[member := score];
    }

    method Remove(member: Bytes) returns (removed: bool)
      requires Valid()
      modifies this
      ensures Valid() && scores == old(scores) - {member}
      ensures removed == (member in old(scores))
    {
      hide KeyLess, With, Without;
      removed := member in scores;
      if removed {
        WithoutKeeps(index, Key(scores[member], member));
        index := Without(index, Key(scores[member], member));
        scores := scores - {member};
      }
    }

    /** The number of keys before the member's: its position in the sorted list. */
    method Rank(member: Bytes) returns (rank: Option<nat>)
      requires Valid()
      ensures rank.Some? <==> member in scores
      ensures rank.Some? ==> rank.value < |index| && index[rank.value] == Key(scores[member], member)
      ensures rank.Some? ==> rank.value == |Ahead(scores, member)|
    {
      hide KeyLess;
      if member !in scores {
        return None;
      }
      var key := Key(scores[member], member);
      var n := 0;
      MemberPosition(index, key);
      BeforeSplits(index, key);
      while n < |index| && KeyLess(index[n], key)
        invariant 0 <= n <= Before(index, key)
      {
        n := n + 1;
      }
      assert n == Before(index, key);
      RankCounts(index, scores, n);
      return Some(n);
    }

    method RangeByIndex(start: int, stop: int, rev: bool) returns (r: seq<Key>)
      requires Valid()
      ensures r == if rev then Reversed(Slice(index, start, stop)) else Slice(index, start, stop)
    {
      var range := NormalizeIndexRange(start, stop, |index|);
      if range.None? {
        return [];
      }
      var (lo, hi) := range.value;
      if rev {
        var skipped := Reversed(index)[|index| - 1 - hi..];
        r := skipped[..hi - lo + 1];
        assert forall i :: 0 <= i < |r| ==> r[i] == index[hi - i];
      } else {
        r := index[lo..][..hi - lo + 1];
      }
    }

    method RangeByScore(min: ScoreBound, max: ScoreBound, rev: bool, offset: nat,
                        count: Option<nat>) returns (r: seq<Key>)
      requires Valid()
      ensures var found := Between(index, min, max);
              r == Limited(if rev then Reversed(found) else found, offset, count)
    {
      r := FilterByScore(min, max);
      if rev {
        r := Reversed(r);
      }
      r := Limited(r, offset, count);
    }

    method FilterByScore(min: ScoreBound, max: ScoreBound) returns (r: seq<Key>)
      ensures r == Between(index, min, max)
    {
      r := [];
      for i := 0 to |index|
        invariant r == Between(index[..i], min, max)
      {
        assert index[..i + 1][..i] == index[..i];
        if InBounds(index[i].score, min, max) {
          r := r + [index[i]];
        }
      }
      assert index[..|index|] == index;
    }

    /** Takes keys out of both structures. */
    method RemoveKeys(victims: seq<Key>)
      requires Valid() && forall k :: k in victims ==> k in index
      modifies this
      ensures Valid() && scores == Unmapped(old(scores), victims)
      ensures forall k :: k in index <==> k in old(index) && k !in victims
    {
      hide KeyLess, Without;
      for i := 0 to |victims|
        invariant Valid() && scores == Unmapped(old(scores), victims[..i])
        invariant forall k :: k in index <==> k in old(index) && k !in victims[..i]
      {
        var victim := victims[i];
        assert victims[..i + 1] == victims[..i] + [victim];
        WithoutKeeps(index, victim);
        scores := scores - {victim.member};
        index := Without(index, victim);
      }
      assert victims[..|victims|] == victims;
    }

    /** Removes and returns the lowest keys, lowest first. */
    method PopMin(count: nat) returns (victims: seq<Key>)
      requires Valid()
      modifies this
      ensures Valid() && scores == Unmapped(old(scores), victims)
      ensures old(index) == victims + index && |victims| == if count < |old(index)| then count else |old(index)|
      ensures forall k, m :: k in victims && m in scores ==> k.score <= scores[m]
    {
      hide KeyLess;
      ghost var all := index;
      victims := if count < |index| then index[..count] else index;
      ghost var rest := index[|victims|..];
      assert all == victims + rest;
      RemoveKeys(victims);
      HalvesApart(victims, rest);
      IncreasingUnique(index, rest);
      forall k, m | k in victims && m in scores ensures k.score <= scores[m] {
        assert Key(scores[m], m) in index;
        LowerHalf(victims, index, k, Key(scores[m], m));
      }
    }

    /** Removes and returns the highest keys, highest first. */
    method PopMax(count: nat) returns (victims: seq<Key>)
      requires Valid()
      modifies this
      ensures Valid() && scores == Unmapped(old(scores), victims)
      ensures old(index) == index + Reversed(victims) &&
              |victims| == if count < |old(index)| then count else |old(index)|
      ensures forall k, m :: k in victims && m in scores ==> scores[m] <= k.score
    {
      hide KeyLess;
      ghost var all := index;
      var backwards := Reversed(index);
      victims := if count < |backwards| then backwards[..count] else backwards;
      ghost var n := |all| - |victims|;
      ghost var rest := all[..n];
      assert Reversed(victims) == all[n..];
      assert all == rest + Reversed(victims);
      SameMembers(victims);
      RemoveKeys(victims);
      HalvesApart(rest, Reversed(victims));
      IncreasingUnique(index, rest);
      forall k, m | k in victims && m in scores ensures scores[m] <= k.score {
        assert Key(scores[m], m) in index;
        LowerHalf(index, Reversed(victims), Key(scores[m], m), k);
      }
    }

    method RemoveRangeByRank(start: int, stop: int) returns (removed: nat)
      requires Valid()
      modifies this
      ensures Valid() && scores == Unmapped(old(scores), Slice(old(index), start, stop))
      ensures removed == |Slice(old(index), start, stop)|
    {
      var victims := RangeByIndex(start, stop, false);
      RemoveKeys(victims);
      return |victims|;
    }

    method RemoveRangeByScore(min: ScoreBound, max: ScoreBound) returns (removed: nat)
      requires Valid()
      modifies this
      ensures Valid() && scores == Unmapped(old(scores), Between(old(index), min, max))
      ensures forall k :: k in index <==> k in old(index) && !InBounds(k.score, min, max)
      ensures removed == |Between(old(index), min, max)|
    {
      var victims := FilterByScore(min, max);
      BetweenExact(index, min, max);
      RemoveKeys(victims);
      return |victims|;
    }

    /** Builds the index from the map alone, visiting members in any order. */
    method RebuildIndex()
      modifies this`index
      ensures Valid()
    {
      hide KeyLess, With;
      index := [];
      var rest := scores.Keys;
      while rest != {}
        invariant rest <= scores.Keys
        invariant Increasing(index)
        invariant forall k :: k in index <==> k.member in scores.Keys - rest && scores[k.member] == k.score
        decreases |rest|
      {
        var member :| member in rest;
        var key := Key(scores[member], member);
        WithKeeps(index, key);
        index := With(index, key);
        rest := rest - {member};
      }
    }
  }

  lemma HalvesApart(a: seq<Key>, b: seq<Key>)
    requires Increasing(a + b)
    ensures Increasing(a) && Increasing(b)
    ensures forall k :: k in a ==> k !in b
  {
    hide KeyLess;
    var s := a + b;
    forall i, j | 0 <= i < |a| && 0 <= j < |b| ensures a[i] != b[j] {
      assert KeyLess(s[i], s[|a| + j]);
      KeyOrder(a[i], b[j]);
    }
    assert forall i :: 0 <= i < |a| ==> a[i] == s[i];
    assert forall i :: 0 <= i < |b| ==> b[i] == s[|a| + i];
  }

  lemma LowerHalf(a: seq<Key>, b: seq<Key>, x: Key, y: Key)
    requires Increasing(a + b) && x in a && y in b
    ensures x.score <= y.score
  {
    hide KeyLess;
    var i :| 0 <= i < |a| && a[i] == x;
    var j :| 0 <= j < |b| && b[j] == y;
    ScoresGrow(a + b, i, |a| + j);
  }

  lemma SameMembers(s: seq<Key>)
    ensures forall k :: k in Reversed(s) <==> k in s
  {
    forall k ensures k in Reversed(s) <==> k in s {
      if k in s {
        var i :| 0 <= i < |s| && s[i] == k;
        assert Reversed(s)[|s| - 1 - i] == k;
      }
    }
  }

  // ----- Queries fit together ----------------------------------------------------------------------

  /** Rank and index range invert each other. */
  lemma RankInvertsRange(s: seq<Key>, i: nat)
    requires Increasing(s) && i < |s|
    ensures Slice(s, i, i) == [s[i]]
    ensures Before(s, s[i]) == i
    ensures Slice(s, Before(s, s[i]), Before(s, s[i])) == [s[i]]
  {
    RankIsPosition(s, i);
  }

  /** Counted from the end, an index names the same element of the reversed list. */
  lemma NegativeIndex(s: seq<Key>, i: nat)
    requires i < |s|
    ensures Slice(s, -1 - i, -1 - i) == [s[|s| - 1 - i]] == Slice(Reversed(s), i, i)
  {
  }
}
