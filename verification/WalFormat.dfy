/**
  The byte format of log records, and scanning a segment for them.
 */
module WalFormat {
  import opened Basics

  const HEADER_LEN := 13
  const CHECKED_LEN := 9
  const FORMAT_VERSION := 1
  const MAX_PAYLOAD := 0xFFFF_FFFF

  type Word = w: int | 0 <= w < 0x1_0000_0000

  /** CRC32C of a byte string; nothing is assumed about it. */
  const Crc32c: Bytes -> Word

  datatype RecordType = Put | Checkpoint

  datatype Record = Record(recordType: RecordType, payload: Bytes)

  /** What the writer accepts: a payload whose length fits the header. */
  predicate Fits(r: Record) {
    |r.payload| <= MAX_PAYLOAD
  }

  function TypeCode(t: RecordType): byte {
    if t.Put? then 0 else 1
  }

  function TypeOf(code: byte): Option<RecordType> {
    if code == 0 then Some(Put) else if code == 1 then Some(Checkpoint) else None
  }

  // ----- Little-endian words -------------------------------------------------------

  function Byte(n: int): byte {
    (n % 256) as byte
  }

  function Le16(n: nat): (r: Bytes)
    ensures |r| == 2
  {
    [Byte(n), Byte(n / 0x100)]
  }

  function Le32(n: nat): (r: Bytes)
    ensures |r| == 4
  {
    [Byte(n), Byte(n / 0x100), Byte(n / 0x1_0000), Byte(n / 0x100_0000)]
  }

  function FromLe16(b: Bytes): nat
    requires |b| == 2
  {
    b[0] as nat + 0x100 * (b[1] as nat)
  }

  function FromLe32(b: Bytes): nat
    requires |b| == 4
  {
    b[0] as nat + 0x100 * (b[1] as nat) + 0x1_0000 * (b[2] as nat) + 0x100_0000 * (b[3] as nat)
  }

  lemma Le32RoundTrip(n: nat)
    requires n < 0x1_0000_0000
    ensures FromLe32(Le32(n)) == n
  {
    var a, b, c := n / 0x100, n / 0x1_0000, n / 0x100_0000;
    assert n == 0x100 * a + n % 256;
    assert b == a / 0x100 && a == 0x100 * b + a % 256;
    assert c == b / 0x100 && b == 0x100 * c + b % 256;
    assert c < 256;
  }

  lemma Le32Onto(b: Bytes)
    requires |b| == 4
    ensures FromLe32(b) < 0x1_0000_0000
    ensures Le32(FromLe32(b)) == b
  {
    var b0, b1, b2, b3 := b[0] as nat, b[1] as nat, b[2] as nat, b[3] as nat;
    var n := FromLe32(b);
    assert n == b0 + 0x100 * (b1 + 0x100 * (b2 + 0x100 * b3));
    assert n / 0x100 == b1 + 0x100 * (b2 + 0x100 * b3);
    assert n / 0x1_0000 == n / 0x100 / 0x100 == b2 + 0x100 * b3;
    assert n / 0x100_0000 == n / 0x1_0000 / 0x100 == b3;
  }

  // ----- Encoding ------------------------------------------------------------------

  const MAGIC: Bytes := [0x43, 0x57]

  /** The nine bytes the checksum covers before the payload. */
  function CheckedHeader(r: Record): (h: Bytes)
    ensures |h| == CHECKED_LEN
  {
    MAGIC + Le16(FORMAT_VERSION) + [TypeCode(r.recordType)] + Le32(|r.payload| % 0x1_0000_0000)
  }

  function Header(r: Record): (h: Bytes)
    ensures |h| == HEADER_LEN
  {
    CheckedHeader(r) + Le32(Crc32c(CheckedHeader(r) + r.payload))
  }

  function Encode(r: Record): (b: Bytes)
    ensures |b| == HEADER_LEN + |r.payload|
  {
    Header(r) + r.payload
  }

  /** Where each field of a record stands, and which number it is, lowest byte first. */
  lemma EncodeLayout(r: Record)
    requires Fits(r)
    ensures var b := Encode(r);
            b[0] as int == 67 && b[1] as int == 87 && b[2] as int + 256 * (b[3] as int) == 1 &&
            b[4] as int == (if r.recordType == Put then 0 else 1) &&
            FromLe32(b[5..9]) == |r.payload| && FromLe32(b[9..13]) == Crc32c(b[..9] + r.payload) && b[13..] == r.payload
  {
    hide Le32;
    Le32RoundTrip(|r.payload|);
    Le32RoundTrip(Crc32c(CheckedHeader(r) + r.payload));
    var b := Encode(r);
    assert b[..9] == CheckedHeader(r);
    assert b[5..9] == Le32(|r.payload|);
    assert b[9..13] == Le32(Crc32c(CheckedHeader(r) + r.payload));
  }

  /** Appends one record to a buffer, field by field. */
  method EncodeRecord(r: Record, buffer: Bytes) returns (out: Bytes)
    ensures out == buffer + Encode(r)
  {
    var start := |buffer|;
    out := buffer + MAGIC;
    out := out + Le16(FORMAT_VERSION);
    out := out + [TypeCode(r.recordType)];
    out := out + Le32(|r.payload| % 0x1_0000_0000);
    assert out[start..start + CHECKED_LEN] == CheckedHeader(r);
    var crc := Crc32c(out[start..start + CHECKED_LEN] + r.payload);
    out := out + Le32(crc);
    out := out + r.payload;
  }

  function EncodeAll(records: seq<Record>): Bytes {
    if records == [] then [] else EncodeAll(records[..|records| - 1]) + Encode(records[|records| - 1])
  }

  // ----- Parsing ---------------------------------------------------------------------

  datatype CorruptReason = BadMagic | UnsupportedVersion(version: int) | UnknownType(code: byte) | CrcMismatch

  datatype ScanError = Truncated(validLen: nat) | Corrupt(offset: nat, reason: CorruptReason)

  datatype Parsed = Parsed(record: Record, nextOffset: nat)

  /** The record starting at an offset, fully validated. */
  function ParseOne(buf: Bytes, offset: nat): (r: Result<Parsed, ScanError>)
    requires offset <= |buf|
  {
    if |buf| - offset < HEADER_LEN then Err(Truncated(offset))
    else
      var header := buf[offset..offset + HEADER_LEN];
      if header[0..2] != MAGIC then Err(Corrupt(offset, BadMagic))
      else
        var version := FromLe16(header[2..4]);
        if version != FORMAT_VERSION then Err(Corrupt(offset, UnsupportedVersion(version)))
        else
          var recordType := TypeOf(header[4]);
          if recordType.None? then Err(Corrupt(offset, UnknownType(header[4])))
          else
            var end := offset + HEADER_LEN + FromLe32(header[5..9]);
            if end > |buf| then Err(Truncated(offset))
            else
              var payload := buf[offset + HEADER_LEN..end];
              if Crc32c(header[..CHECKED_LEN] + payload) != FromLe32(header[9..13])
              then Err(Corrupt(offset, CrcMismatch))
              else Ok(Parsed(Record(recordType.value, payload), end))
  }

  /** What a complete record's header says, wherever it stands in a buffer. */
  lemma HeaderFields(r: Record, buf: Bytes, offset: nat)
    requires Fits(r)
    requires offset + HEADER_LEN <= |buf| && buf[offset..offset + HEADER_LEN] == Header(r)
    ensures var header := buf[offset..offset + HEADER_LEN];
            header[0..2] == MAGIC && FromLe16(header[2..4]) == FORMAT_VERSION &&
            TypeOf(header[4]) == Some(r.recordType) &&
            FromLe32(header[5..9]) == |r.payload| && header[..CHECKED_LEN] == CheckedHeader(r) &&
            FromLe32(header[9..13]) == Crc32c(CheckedHeader(r) + r.payload)
  {
    var h := Header(r);
    assert h[..CHECKED_LEN] == CheckedHeader(r);
    assert h[0..2] == MAGIC;
    assert h[2..4] == Le16(FORMAT_VERSION);
    assert h[5..9] == Le32(|r.payload|);
    assert h[9..13] == Le32(Crc32c(CheckedHeader(r) + r.payload));
    Le32RoundTrip(|r.payload|);
    Le32RoundTrip(Crc32c(CheckedHeader(r) + r.payload));
  }

  /** A complete record parses back, whatever follows it. */
  lemma ParseEncoded(r: Record, buf: Bytes, offset: nat)
    requires Fits(r)
    requires offset + |Encode(r)| <= |buf| && buf[offset..offset + |Encode(r)|] == Encode(r)
    ensures ParseOne(buf, offset) == Ok(Parsed(r, offset + |Encode(r)|))
  {
    var end := offset + |Encode(r)|;
    assert buf[offset..offset + HEADER_LEN] == buf[offset..end][..HEADER_LEN] == Header(r);
    assert buf[offset + HEADER_LEN..end] == buf[offset..end][HEADER_LEN..] == r.payload;
    HeaderFields(r, buf, offset);
  }

  /** A record cut short is reported as truncated, never as corrupt. */
  lemma ParseCut(r: Record, buf: Bytes, offset: nat)
    requires Fits(r)
    requires offset <= |buf| < offset + |Encode(r)| && buf[offset..] == Encode(r)[..|buf| - offset]
    ensures ParseOne(buf, offset) == Err(Truncated(offset))
  {
    if |buf| - offset >= HEADER_LEN {
      assert buf[offset..offset + HEADER_LEN] == buf[offset..][..HEADER_LEN] == Header(r);
      HeaderFields(r, buf, offset);
    }
  }

  lemma ParsedParts(buf: Bytes, offset: nat)
    requires offset <= |buf| && ParseOne(buf, offset).Ok?
    ensures offset + HEADER_LEN <= |buf|
    ensures var p, header := ParseOne(buf, offset).value, buf[offset..offset + HEADER_LEN];
            header[0..2] == MAGIC && FromLe16(header[2..4]) == FORMAT_VERSION &&
            header[4] == TypeCode(p.record.recordType) && FromLe32(header[5..9]) == |p.record.payload| &&
            p.nextOffset == offset + HEADER_LEN + |p.record.payload| <= |buf| &&
            p.record.payload == buf[offset + HEADER_LEN..p.nextOffset] &&
            FromLe32(header[9..13]) == Crc32c(header[..CHECKED_LEN] + p.record.payload)
  {
    hide FromLe16, FromLe32;
  }

  /** What parses is the encoding of what was parsed. */
  lemma ParsedIsEncoded(buf: Bytes, offset: nat)
    requires offset <= |buf| && ParseOne(buf, offset).Ok?
    ensures var p := ParseOne(buf, offset).value;
            Fits(p.record) && p.nextOffset == offset + |Encode(p.record)| <= |buf| &&
            buf[offset..p.nextOffset] == Encode(p.record)
  {
    hide ParseOne, Le32, Le16, FromLe16, FromLe32;
    ParsedParts(buf, offset);
    var p := ParseOne(buf, offset).value;
    var header := buf[offset..offset + HEADER_LEN];
    VersionBytes(header[2..4]);
    Le32Onto(header[5..9]);
    Le32Onto(header[9..13]);
    HeaderParts(header);
    assert header == Header(p.record);
    assert buf[offset..p.nextOffset] == header + p.record.payload;
  }

  lemma HeaderParts(header: Bytes)
    requires |header| == HEADER_LEN
    ensures header[..CHECKED_LEN] == header[0..2] + header[2..4] + [header[4]] + header[5..9]
    ensures header == header[..CHECKED_LEN] + header[9..13]
  {
  }

  lemma VersionBytes(b: Bytes)
    requires |b| == 2
    ensures FromLe16(b) == FORMAT_VERSION ==> b == Le16(FORMAT_VERSION)
  {
  }

  // ----- Scanning a segment ------------------------------------------------------------

  datatype Located = Located(offset: nat, record: Record)

  datatype Scanned = Scanned(records: seq<Located>, error: Option<ScanError>)

  /** The records from an offset on, up to the end or the first bad one. */
  function Scan(buf: Bytes, offset: nat): (s: Scanned)
    requires offset <= |buf|
    decreases |buf| - offset
  {
    if offset == |buf| then Scanned([], None)
    else
      match ParseOne(buf, offset)
      case Err(e) => Scanned([], Some(e))
      case Ok(p) =>
        var rest := Scan(buf, p.nextOffset);
        Scanned([Located(offset, p.record)] + rest.records, rest.error)
  }

  method ScanSegment(buf: Bytes) returns (records: seq<Located>, error: Option<ScanError>)
    ensures Scanned(records, error) == Scan(buf, 0)
  {
    records := [];
    var offset := 0;
    while offset < |buf|
      invariant offset <= |buf|
      invariant Scan(buf, 0) == Scanned(records + Scan(buf, offset).records, Scan(buf, offset).error)
    {
      match ParseOne(buf, offset)
      case Err(e) =>
        assert Scan(buf, offset).records == [];
        return records, Some(e);
      case Ok(p) =>
        records := records + [Located(offset, p.record)];
        offset := p.nextOffset;
    }
    return records, None;
  }

  // ----- Crash tails --------------------------------------------------------------------

  predicate AllFit(records: seq<Record>) {
    forall i :: 0 <= i < |records| ==> Fits(records[i])
  }

  /** Where record `i` starts. */
  function Offset(records: seq<Record>, i: nat): nat
    requires i <= |records|
  {
    |EncodeAll(records[..i])|
  }

  /** How many leading records lie wholly within the first `n` bytes. */
  function Complete(records: seq<Record>, n: nat): (c: nat)
    ensures c <= |records|
  {
    if records == [] then 0
    else if |EncodeAll(records)| <= n then |records|
    else Complete(records[..|records| - 1], n)
  }

  /** The records of a segment at the offsets where they were written. */
  function Locate(records: seq<Record>): (r: seq<Located>)
    ensures |r| == |records|
  {
    seq(|records|, i requires 0 <= i < |records| => Located(Offset(records, i), records[i]))
  }

  function RecordsOf(located: seq<Located>): (r: seq<Record>)
    ensures |r| == |located|
  {
    seq(|located|, i requires 0 <= i < |located| => located[i].record)
  }

  lemma OffsetNext(records: seq<Record>, i: nat)
    requires i < |records|
    ensures Offset(records, i + 1) == Offset(records, i) + |Encode(records[i])|
    ensures Offset(records, i) < Offset(records, i + 1)
    ensures EncodeAll(records[..i + 1]) == EncodeAll(records[..i]) + Encode(records[i])
  {
    assert records[..i + 1][..i] == records[..i];
  }

  lemma {:induction false} EncodeAllPrefix(records: seq<Record>, i: nat)
    requires i <= |records|
    ensures Offset(records, i) <= |EncodeAll(records)|
    ensures EncodeAll(records)[..Offset(records, i)] == EncodeAll(records[..i])
    decreases |records|
  {
    if i == |records| {
      assert records[..i] == records;
    } else {
      var front := records[..|records| - 1];
      EncodeAllPrefix(front, i);
      assert front[..i] == records[..i];
      assert EncodeAll(records)[..Offset(records, i)] == EncodeAll(front)[..Offset(records, i)];
    }
  }

  /** The bytes of record `i`, in place. */
  lemma RecordBytes(records: seq<Record>, i: nat)
    requires i < |records|
    ensures Offset(records, i) + |Encode(records[i])| == Offset(records, i + 1) <= |EncodeAll(records)|
    ensures EncodeAll(records)[Offset(records, i)..Offset(records, i + 1)] == Encode(records[i])
  {
    hide Encode;
    OffsetNext(records, i);
    EncodeAllPrefix(records, i + 1);
    var all, lo, hi := EncodeAll(records), Offset(records, i), Offset(records, i + 1);
    assert all[lo..hi] == all[..hi][lo..];
  }

  lemma {:induction false} CompleteSplits(records: seq<Record>, n: nat)
    ensures Offset(records, Complete(records, n)) <= n
    ensures Complete(records, n) < |records| ==> n < Offset(records, Complete(records, n) + 1)
    decreases |records|
  {
    hide Encode;
    if records != [] {
      if |EncodeAll(records)| <= n {
        assert records[..|records|] == records;
      } else {
        var front, c := records[..|records| - 1], Complete(records, n);
        CompleteSplits(front, n);
        assert front[..c] == records[..c];
        if c < |front| {
          assert front[..c + 1] == records[..c + 1];
        } else {
          assert records[..c + 1] == records;
        }
      }
    }
  }

  lemma {:induction false} OffsetsGrow(records: seq<Record>, i: nat, j: nat)
    requires i <= j <= |records|
    ensures i == j ==> Offset(records, i) == Offset(records, j)
    ensures i < j ==> Offset(records, i) < Offset(records, j)
    decreases j - i
  {
    if i < j {
      OffsetNext(records, j - 1);
      OffsetsGrow(records, i, j - 1);
    }
  }

  lemma {:induction false} ScanCutFrom(records: seq<Record>, n: nat, k: nat)
    requires AllFit(records) && n <= |EncodeAll(records)| && k <= Complete(records, n)
    requires Offset(records, k) <= n
    ensures var c := Complete(records, n);
            Scan(EncodeAll(records)[..n], Offset(records, k)) ==
            Scanned(Locate(records)[k..c], if n == Offset(records, c) then None else Some(Truncated(Offset(records, c))))
    decreases |records| - k
  {
    hide Encode, EncodeAll, ParseOne, Complete, Offset;
    var c, all := Complete(records, n), EncodeAll(records);
    var buf, at := all[..n], Offset(records, k);
    CompleteSplits(records, n);
    if k < c {
      var next := Offset(records, k + 1);
      OffsetsGrow(records, k + 1, c);
      RecordBytes(records, k);
      assert next <= n;
      SliceOfPrefix(all, n, at, next);
      ParseEncoded(records[k], buf, at);
      ScanCutFrom(records, n, k + 1);
      assert Locate(records)[k..c] == [Located(at, records[k])] + Locate(records)[k + 1..c];
    } else if at < n {
      WholeLength(records);
      RecordBytes(records, k);
      TailOfPrefix(all, n, at, Offset(records, k + 1));
      ParseCut(records[k], buf, at);
    }
  }

  lemma SliceOfPrefix(all: Bytes, n: nat, lo: nat, hi: nat)
    requires lo <= hi <= n <= |all|
    ensures all[..n][lo..hi] == all[lo..hi]
  {
  }

  lemma TailOfPrefix(all: Bytes, n: nat, lo: nat, hi: nat)
    requires lo <= n <= hi <= |all|
    ensures all[..n][lo..] == all[lo..hi][..n - lo]
  {
  }

  lemma WholeLength(records: seq<Record>)
    ensures Offset(records, |records|) == |EncodeAll(records)|
  {
    assert records[..|records|] == records;
  }

  /**
    Crash tails are classified exactly: any cut of any segment scans to precisely the
    records that survived whole, and a cut inside a record is `Truncated` at that
    record's start, never `Corrupt`.
   */
  lemma ScanCut(records: seq<Record>, n: nat)
    requires AllFit(records) && n <= |EncodeAll(records)|
    ensures var c := Complete(records, n);
            Scan(EncodeAll(records)[..n], 0) ==
            Scanned(Locate(records[..c]), if n == Offset(records, c) then None else Some(Truncated(Offset(records, c))))
  {
    hide Encode, EncodeAll, Complete, Scan;
    var c := Complete(records, n);
    assert Offset(records, 0) == 0 by {
      EmptyOffset(records);
    }
    ScanCutFrom(records, n, 0);
    LocatePrefix(records, c);
  }

  lemma EmptyOffset(records: seq<Record>)
    ensures Offset(records, 0) == 0
  {
  }

  lemma LocatePrefix(records: seq<Record>, c: nat)
    requires c <= |records|
    ensures Locate(records)[..c] == Locate(records[..c])
  {
    hide EncodeAll;
    forall i | 0 <= i < c ensures Locate(records)[i] == Locate(records[..c])[i] {
      assert records[..c][..i] == records[..i];
    }
  }

  /** A whole segment scans to exactly its records. */
  lemma ScanEncoded(records: seq<Record>)
    requires AllFit(records)
    ensures Scan(EncodeAll(records), 0) == Scanned(Locate(records), None)
  {
    hide Encode, Scan, Locate;
    var n := |EncodeAll(records)|;
    assert EncodeAll(records)[..n] == EncodeAll(records);
    assert records[..|records|] == records;
    ScanCut(records, n);
    assert Complete(records, n) == |records|;
  }

  // ----- Every buffer, not only written ones ------------------------------------------------

  function ErrorOffset(e: ScanError): nat {
    match e
    case Truncated(validLen) => validLen
    case Corrupt(offset, _) => offset
  }

  lemma {:induction false} EncodeAllCons(r: Record, rest: seq<Record>)
    ensures EncodeAll([r] + rest) == Encode(r) + EncodeAll(rest)
    decreases |rest|
  {
    hide Encode;
    if rest == [] {
      assert [r] + rest == [r];
      assert [r][..0] == [];
    } else {
      var front := rest[..|rest| - 1];
      assert ([r] + rest)[..|rest|] == [r] + front;
      EncodeAllCons(r, front);
    }
  }

  lemma {:induction false} ScanReadsEncodingFrom(buf: Bytes, offset: nat)
    requires offset <= |buf|
    ensures var s := Scan(buf, offset);
            AllFit(RecordsOf(s.records)) &&
            var end := offset + |EncodeAll(RecordsOf(s.records))|;
            end <= |buf| && buf[offset..end] == EncodeAll(RecordsOf(s.records)) &&
            (s.error.None? <==> end == |buf|) && (s.error.Some? ==> ErrorOffset(s.error.value) == end)
    decreases |buf| - offset
  {
    hide Encode, EncodeAll, ParseOne;
    var s := Scan(buf, offset);
    NoRecords();
    if offset < |buf| {
      match ParseOne(buf, offset)
      case Err(e) =>
        ErrorIsHere(buf, offset);
        assert RecordsOf(s.records) == [];
      case Ok(p) =>
        ParsedIsEncoded(buf, offset);
        var rest := Scan(buf, p.nextOffset);
        ScanReadsEncodingFrom(buf, p.nextOffset);
        var tail := RecordsOf(rest.records);
        assert RecordsOf(s.records) == [p.record] + tail;
        EncodeAllCons(p.record, tail);
        var end := p.nextOffset + |EncodeAll(tail)|;
        assert buf[offset..end] == buf[offset..p.nextOffset] + buf[p.nextOffset..end];
    }
  }

  lemma NoRecords()
    ensures EncodeAll([]) == []
  {
  }

  lemma ErrorIsHere(buf: Bytes, offset: nat)
    requires offset <= |buf| && ParseOne(buf, offset).Err?
    ensures ErrorOffset(ParseOne(buf, offset).error) == offset
  {
  }

  /**
    The converse: for every byte string, the bytes before the first fault are exactly the
    encoding of the records reported; there is no fault exactly when that is all of it.
   */
  lemma ScanReadsEncoding(buf: Bytes)
    ensures var s := Scan(buf, 0);
            AllFit(RecordsOf(s.records)) &&
            var end := |EncodeAll(RecordsOf(s.records))|;
            end <= |buf| && buf[..end] == EncodeAll(RecordsOf(s.records)) &&
            (s.error.None? <==> end == |buf|) && (s.error.Some? ==> ErrorOffset(s.error.value) == end) &&
            s.records == Locate(RecordsOf(s.records))
  {
    hide Encode, EncodeAll, ParseOne, Scan;
    var s := Scan(buf, 0);
    ScanReadsEncodingFrom(buf, 0);
    NoRecords();
    ScanLocatesFrom(buf, 0, []);
    assert [] + RecordsOf(s.records) == RecordsOf(s.records);
  }

  /** Offsets reported by a scan are where the records start. */
  lemma {:induction false} ScanLocatesFrom(buf: Bytes, offset: nat, before: seq<Record>)
    requires offset <= |buf| && offset == |EncodeAll(before)|
    ensures var s := Scan(buf, offset);
            s.records == Locate(before + RecordsOf(s.records))[|before|..]
    decreases |buf| - offset
  {
    hide Encode, EncodeAll, ParseOne;
    var s := Scan(buf, offset);
    if offset < |buf| && ParseOne(buf, offset).Ok? {
      var p := ParseOne(buf, offset).value;
      ParsedIsEncoded(buf, offset);
      var rest := Scan(buf, p.nextOffset);
      EncodeAllSnoc(before, p.record);
      ScanLocatesFrom(buf, p.nextOffset, before + [p.record]);
      var all := before + RecordsOf(s.records);
      assert all == before + [p.record] + RecordsOf(rest.records);
      assert all[..|before|] == before;
      assert Locate(all)[|before|..] == [Located(offset, p.record)] + Locate(all)[|before| + 1..];
    }
  }

  lemma EncodeAllSnoc(records: seq<Record>, r: Record)
    ensures EncodeAll(records + [r]) == EncodeAll(records) + Encode(r)
  {
    assert (records + [r])[..|records|] == records;
  }

  /** A byte string scans without fault exactly when it is the encoding of some records. */
  lemma CleanIffEncoding(buf: Bytes)
    ensures Scan(buf, 0).error.None? <==> exists records :: AllFit(records) && buf == EncodeAll(records)
  {
    hide Scan, EncodeAll;
    ScanReadsEncoding(buf);
    var records := RecordsOf(Scan(buf, 0).records);
    if Scan(buf, 0).error.None? {
      assert buf[..|buf|] == buf;
      assert AllFit(records) && buf == EncodeAll(records);
    }
    forall found | AllFit(found) && buf == EncodeAll(found) ensures Scan(buf, 0).error.None? {
      ScanEncoded(found);
    }
  }
}
