/**
  Streams and consumer groups as values, and ids in ascending order.
 */
module StreamModel {
  import opened Basics

  datatype StreamId = StreamId(ms: nat, seqNo: nat)

  const MIN_ID: StreamId := StreamId(0, 0)

  predicate IdLess(a: StreamId, b: StreamId) {
    a.ms < b.ms || (a.ms == b.ms && a.seqNo < b.seqNo)
  }

  predicate IdLeq(a: StreamId, b: StreamId) {
    a == b || IdLess(a, b)
  }

  /** The order of ids is that of the numbers `ms` and `seqNo` make together, however wide the second is. */
  lemma IdOrder(a: StreamId, b: StreamId, width: nat)
    requires a.seqNo < width && b.seqNo < width
    ensures IdLess(a, b) <==> a.ms * width + a.seqNo < b.ms * width + b.seqNo
  {
    if a.ms < b.ms {
      Wider(a.ms, b.ms, width);
    } else if b.ms < a.ms {
      Wider(b.ms, a.ms, width);
    }
  }

  lemma Wider(low: nat, high: nat, width: nat)
    requires low < high
    ensures low * width + width <= high * width
  {
    assert (low + 1) * width <= high * width;
  }

  type Fields = seq<(Bytes, Bytes)>

  datatype Entry = Entry(id: StreamId, fields: Fields)

  /** A delivered entry nobody has acknowledged yet. */
  datatype PendingEntry = PendingEntry(consumer: string, deliveryTimeMs: nat, deliveryCount: nat)

  datatype Consumer = Consumer(pending: set<StreamId>, seenTimeMs: nat, activeTimeMs: nat)

  datatype Group = Group(
    lastDeliveredId: StreamId,
    pending: map<StreamId, PendingEntry>,
    consumers: map<string, Consumer>,
    entriesRead: nat)

  datatype Stream = Stream(
    entries: map<StreamId, Fields>,
    lastId: StreamId,
    maxDeletedId: StreamId,
    entriesAdded: nat,
    groups: map<string, Group>)

  // ----- Ascending order ------------------------------------------------------------

  predicate Increasing(ids: seq<StreamId>) {
    forall i, j :: 0 <= i < j < |ids| ==> IdLess(ids[i], ids[j])
  }

  function Members(ids: seq<StreamId>): set<StreamId> {
    set id | id in ids
  }

  lemma {:induction false} Least(s: set<StreamId>) returns (m: StreamId)
    requires s != {}
    ensures m in s && forall x :: x in s ==> IdLeq(m, x)
    decreases |s|
  {
    m :| m in s;
    var rest := s - {m};
    if rest != {} {
      var other := Least(rest);
      assert forall x :: x in s ==> x == m || x in rest;
      if IdLess(other, m) {
        m := other;
      }
    }
  }

  lemma LeastExists(s: set<StreamId>)
    requires s != {}
    ensures exists m :: m in s && forall x :: x in s ==> IdLeq(m, x)
  {
    var m := Least(s);
  }

  /** The elements of a set, smallest first. */
  ghost function Ascending(s: set<StreamId>): (r: seq<StreamId>)
    ensures Increasing(r)
    ensures forall x :: x in r <==> x in s
    decreases |s|
  {
    if s == {} then []
    else
      LeastExists(s);
      var m :| m in s && forall x :: x in s ==> IdLeq(m, x);
      [m] + Ascending(s - {m})
  }

  /** An increasing sequence is determined by its elements. */
  lemma {:induction false} IncreasingUnique(a: seq<StreamId>, b: seq<StreamId>)
    requires Increasing(a) && Increasing(b)
    requires forall x :: x in a <==> x in b
    ensures a == b
  {
    assert (a != [] ==> a[0] in b) && (b != [] ==> b[0] in a);
    if a != [] {
      var j :| 0 <= j < |b| && b[j] == a[0];
      var i :| 0 <= i < |a| && a[i] == b[0];
      assert a[0] == b[0];
      forall x ensures x in a[1..] <==> x in b[1..] {
        if x in a[1..] {
          var k :| 0 <= k < |a[1..]| && a[1..][k] == x;
          assert a[k + 1] == x && x != a[0] && x in b;
        }
        if x in b[1..] {
          var k :| 0 <= k < |b[1..]| && b[1..][k] == x;
          assert b[k + 1] == x && x != b[0] && x in a;
        }
      }
      IncreasingUnique(a[1..], b[1..]);
    }
  }

  lemma {:induction false} AscendingLength(s: set<StreamId>)
    ensures |Ascending(s)| == |s|
  {
    IncreasingLength(Ascending(s));
    assert (set x | x in Ascending(s)) == s;
  }

  lemma {:induction false} IncreasingLength(ids: seq<StreamId>)
    requires Increasing(ids)
    ensures |set x | x in ids| == |ids|
  {
    if ids != [] {
      var front, last := ids[..|ids| - 1], ids[|ids| - 1];
      IncreasingLength(front);
      assert ids == front + [last];
      assert (set x | x in ids) == (set x | x in front) + {last};
    }
  }

  /** Walks an ordered map's keys from the smallest up. */
  method Keys(s: set<StreamId>) returns (r: seq<StreamId>)
    ensures r == Ascending(s)
  {
    r := [];
    var rest := s;
    while rest != {}
      invariant rest <= s
      invariant forall x :: x in s <==> x in r || x in rest
      invariant Increasing(r)
      invariant forall x, y :: x in r && y in rest ==> IdLess(x, y)
      decreases rest
    {
      LeastExists(rest);
      var m :| m in rest && forall x :: x in rest ==> IdLeq(m, x);
      rest := rest - {m};
      r := r + [m];
    }
    IncreasingUnique(r, Ascending(s));
  }
}
