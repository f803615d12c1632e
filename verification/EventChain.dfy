/**
  The per-run hash chain over events, its verification, and why a verified
  chain is tamper-evident.
 */
module EventChain {
  import opened Basics
  import opened CanonicalJson
  import opened Decimals
  import opened Digests
  import opened LedgerModel
  import opened Timestamps

  /** The API view of an event: what the hash covers and what an auditor sees. */
  datatype Event = Event(
    id: Uuid,
    runId: Uuid,
    sequence: int,
    eventType: string,
    occurredAt: string,
    recordedAt: string,
    payload: Json,
    previousHash: string,
    hash: string)

  function View(e: EventRecord): Event {
    Event(e.id, e.runId, e.sequence, e.eventType, FormatTimestamp(e.occurredAtMs),
          FormatTimestamp(e.recordedAtMs), e.payload, e.previousHash, e.hash)
  }

  function Views(es: seq<EventRecord>): (r: seq<Event>)
    ensures |r| == |es|
  {
    seq(|es|, i requires 0 <= i < |es| => View(es[i]))
  }

  lemma IntegerIsNumberText(n: int)
    ensures IsNumberText(Integer(n))
  {
    var s := Integer(n);
    forall i | 0 <= i < |s| ensures IsNumberChar(s[i]) {
      if n < 0 {
        if i > 0 { assert s[i] == Natural(-n)[i - 1]; assert IsDigit(Natural(-n)[i - 1]); }
      } else {
        assert IsDigit(s[i]);
      }
    }
  }

  function JsonInteger(n: int): Json {
    IntegerIsNumberText(n);
    Number(Integer(n))
  }

  /** The hashed fields: everything in the view except the two hashes. */
  function HashedFields(e: Event): Json {
    Object(map[
      "id" := String(e.id),
      "run_id" := String(e.runId),
      "sequence" := JsonInteger(e.sequence),
      "type" := String(e.eventType),
      "occurred_at" := String(e.occurredAt),
      "recorded_at" := String(e.recordedAt),
      "payload" := e.payload])
  }

  function PreviousBytes(hash: string): Digest {
    match DigestBytes(hash)
    case Some(d) => d
    case None => seq(32, _ => 0)
  }

  /** What is hashed: the 32 bytes of the previous hash, then the canonical JSON of the fields. */
  function HashInput(e: Event): Bytes {
    PreviousBytes(e.previousHash) + Utf8(Print(HashedFields(e)))
  }

  function ComputeEventHash(e: Event): string {
    Sha256Digest(HashInput(e))
  }

  /** The same bytes filled into a buffer: previous hash first, then the fields. */
  method EventHash(e: Event) returns (hash: string)
    ensures hash == ComputeEventHash(e)
  {
    var bytes := PreviousBytes(e.previousHash);
    var text := CanonicalJsonInto(HashedFields(e), "");
    assert text == Print(HashedFields(e));
    bytes := bytes + Utf8(text);
    hash := Sha256Digest(bytes);
  }

  /**
    What an event's hash covers, by name: the fields the API shows of the stored event, after
    the bytes of the hash before it.
   */
  lemma HashCovers(e: EventRecord, previous: Digest)
    requires e.previousHash == Render(previous)
    ensures var f := HashedFields(View(e)).fields;
            f.Keys == {"id", "run_id", "sequence", "type", "occurred_at", "recorded_at", "payload"} &&
            f["id"] == String(e.id) && f["run_id"] == String(e.runId) && f["sequence"] == JsonInteger(e.sequence) &&
            f["type"] == String(e.eventType) && f["occurred_at"] == String(FormatTimestamp(e.occurredAtMs)) &&
            f["recorded_at"] == String(FormatTimestamp(e.recordedAtMs)) && f["payload"] == e.payload
    ensures ComputeEventHash(View(e)) == Render(Sha256(previous + Utf8(Print(HashedFields(View(e))))))
  {
    hide FormatTimestamp, Print, Utf8;
    DigestRoundTrip(previous);
  }

  // ----- Verification --------------------------------------------------------------

  /** The hash the next event must carry as its previous hash. */
  function Head(events: seq<Event>): string {
    if events == [] then GenesisHash else events[|events| - 1].hash
  }

  /** A well-linked event at place `i` after the given predecessors. */
  predicate LinkOk(events: seq<Event>, i: nat)
    requires i < |events|
  {
    && events[i].sequence == i + 1
    && events[i].previousHash == Head(events[..i])
    && events[i].hash == ComputeEventHash(events[i])
  }

  predicate ChainOk(events: seq<Event>) {
    forall i :: 0 <= i < |events| ==> LinkOk(events, i)
  }

  method VerifyEventChain(events: seq<Event>) returns (ok: bool)
    ensures ok <==> ChainOk(events)
  {
    hide ComputeEventHash;
    var expectedPrevious := GenesisHash;
    var index := 0;
    while index < |events|
      invariant 0 <= index <= |events|
      invariant expectedPrevious == Head(events[..index])
      invariant forall i :: 0 <= i < index ==> LinkOk(events, i)
    {
      var event := events[index];
      if event.sequence != index + 1 {
        assert !LinkOk(events, index);
        return false;
      }
      if event.previousHash != expectedPrevious {
        assert !LinkOk(events, index);
        return false;
      }
      var hash := EventHash(event);
      if event.hash != hash {
        assert !LinkOk(events, index);
        return false;
      }
      expectedPrevious := event.hash;
      index := index + 1;
    }
    return true;
  }

  /** Appending a well-linked event keeps the chain. */
  lemma ChainAppend(events: seq<Event>, e: Event)
    requires ChainOk(events)
    requires e.sequence == |events| + 1 && e.previousHash == Head(events) && e.hash == ComputeEventHash(e)
    ensures ChainOk(events + [e])
  {
    var all := events + [e];
    forall i | 0 <= i < |all| ensures LinkOk(all, i) {
      if i < |events| {
        assert LinkOk(events, i);
        assert all[..i] == events[..i];
      } else {
        assert all[..i] == events;
      }
    }
  }

  lemma ChainPrefix(events: seq<Event>, n: nat)
    requires ChainOk(events) && n <= |events|
    ensures ChainOk(events[..n])
  {
    forall i | 0 <= i < n ensures LinkOk(events[..n], i) {
      assert LinkOk(events, i);
      assert events[..n][..i] == events[..i];
    }
  }

  /** Every hash in a chain is a rendered digest, so its bytes come back out of it. */
  lemma HeadIsRendered(events: seq<Event>)
    requires ChainOk(events)
    ensures Head(events) == Sha256Digest(HeadInput(events))
    ensures PreviousBytes(Head(events)) == Sha256(HeadInput(events))
  {
    if events != [] {
      assert LinkOk(events, |events| - 1);
    }
    DigestRoundTrip(Sha256(HeadInput(events)));
  }

  /** The bytes whose digest is the head of a chain. */
  function HeadInput(events: seq<Event>): Bytes {
    if events == [] then [] else HashInput(events[|events| - 1])
  }

  // ----- Tamper evidence --------------------------------------------------------------

  /** All the byte strings a chain hashes, with the empty string behind the genesis hash. */
  function HashedInputs(events: seq<Event>): set<Bytes> {
    {[]} + set i | 0 <= i < |events| :: HashInput(events[i])
  }

  /** SHA-256 maps no two of the given inputs to the same digest. */
  ghost predicate CollisionFreeOn(inputs: set<Bytes>) {
    forall x, y :: x in inputs && y in inputs && Sha256(x) == Sha256(y) ==> x == y
  }

  /** The hashed bytes determine every hashed field and the previous digest. */
  lemma HashInputInjective(a: Event, b: Event)
    requires HashInput(a) == HashInput(b)
    ensures PreviousBytes(a.previousHash) == PreviousBytes(b.previousHash)
    ensures a.id == b.id && a.runId == b.runId && a.sequence == b.sequence && a.eventType == b.eventType
    ensures a.occurredAt == b.occurredAt && a.recordedAt == b.recordedAt && a.payload == b.payload
  {
    var x, y := HashInput(a), HashInput(b);
    var p, q := Print(HashedFields(a)), Print(HashedFields(b));
    assert x[..32] == PreviousBytes(a.previousHash) && y[..32] == PreviousBytes(b.previousHash);
    assert x[32..] == Utf8(p) && y[32..] == Utf8(q);
    Utf8Injective(p, q);
    assert p + "" == q + "";
    PrintUnambiguous(HashedFields(a), HashedFields(b), "", "");
    HashedFieldsInjective(a, b);
  }

  lemma HashedFieldsInjective(a: Event, b: Event)
    requires HashedFields(a) == HashedFields(b)
    ensures a.id == b.id && a.runId == b.runId && a.sequence == b.sequence && a.eventType == b.eventType
    ensures a.occurredAt == b.occurredAt && a.recordedAt == b.recordedAt && a.payload == b.payload
  {
    hide JsonInteger;
    var f, g := HashedFields(a).fields, HashedFields(b).fields;
    assert f["id"] == g["id"];
    assert f["run_id"] == g["run_id"];
    assert f["sequence"] == g["sequence"];
    assert f["type"] == g["type"];
    assert f["occurred_at"] == g["occurred_at"];
    assert f["recorded_at"] == g["recorded_at"];
    assert f["payload"] == g["payload"];
    JsonIntegerInjective(a.sequence, b.sequence);
  }

  lemma JsonIntegerInjective(a: int, b: int)
    requires JsonInteger(a) == JsonInteger(b)
    ensures a == b
  {
    IntegerRoundTrip(a);
    IntegerRoundTrip(b);
  }

  /**
    Two chains that verify and end in the same hash are the same chain: same
    length, same events in the same order, every field equal.  The only way out
    is a SHA-256 collision between bytes these very chains hash.
   */
  lemma {:induction false} TamperEvidence(a: seq<Event>, b: seq<Event>)
    requires ChainOk(a) && ChainOk(b) && Head(a) == Head(b)
    requires CollisionFreeOn(HashedInputs(a) + HashedInputs(b))
    ensures a == b
    decreases |a| + |b|
  {
    hide ComputeEventHash, HashInput, PreviousBytes, Sha256Digest, Render;
    HeadIsRendered(a);
    HeadIsRendered(b);
    RenderInjective(Sha256(HeadInput(a)), Sha256(HeadInput(b)));
    HeadInputListed(a);
    HeadInputListed(b);
    assert HeadInput(a) == HeadInput(b);
    if a != [] && b != [] {
      var n, m := |a| - 1, |b| - 1;
      assert LinkOk(a, n) && LinkOk(b, m);
      HashInputInjective(a[n], b[m]);
      ChainPrefix(a, n);
      ChainPrefix(b, m);
      HeadIsRendered(a[..n]);
      HeadIsRendered(b[..m]);
      assert Head(a[..n]) == Head(b[..m]);
      HashedInputsPrefix(a, n);
      HashedInputsPrefix(b, m);
      TamperEvidence(a[..n], b[..m]);
      assert a[n] == b[m];
      assert a == a[..n] + [a[n]] && b == b[..m] + [b[m]];
    } else {
      assert a == [] <==> b == [];
    }
  }

  lemma HashedInputsPrefix(a: seq<Event>, n: nat)
    requires n <= |a|
    ensures HashedInputs(a[..n]) <= HashedInputs(a)
  {
    hide HashInput;
    forall x | x in HashedInputs(a[..n]) ensures x in HashedInputs(a) {
      if x != [] {
        var i :| 0 <= i < n && x == HashInput(a[..n][i]);
        assert x == HashInput(a[i]);
      }
    }
  }

  lemma HeadInputListed(a: seq<Event>)
    ensures HeadInput(a) in HashedInputs(a)
    ensures HeadInput(a) == [] <==> a == []
  {
  }

  /** On the stored records: whatever the hash covers is equal, down to the millisecond. */
  lemma TamperEvidenceOfRecords(a: seq<EventRecord>, b: seq<EventRecord>)
    requires ChainOk(Views(a)) && ChainOk(Views(b)) && Head(Views(a)) == Head(Views(b))
    requires CollisionFreeOn(HashedInputs(Views(a)) + HashedInputs(Views(b)))
    ensures |a| == |b|
    ensures forall i :: 0 <= i < |a| ==>
              a[i] == b[i].(tenantId := a[i].tenantId, projectId := a[i].projectId)
  {
    TamperEvidence(Views(a), Views(b));
    forall i | 0 <= i < |a|
      ensures a[i] == b[i].(tenantId := a[i].tenantId, projectId := a[i].projectId)
    {
      assert Views(a)[i] == Views(b)[i];
      TimestampInjective(a[i].occurredAtMs, b[i].occurredAtMs);
      TimestampInjective(a[i].recordedAtMs, b[i].recordedAtMs);
    }
  }
}
