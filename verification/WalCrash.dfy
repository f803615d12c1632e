/**
  What a crash can do to segment files, and exactly when recovery survives every crash.
 */
module WalCrash {
  import opened WalFormat
  import opened WalRecovery
  import opened WalLog

  predicate Clean(s: Segment) {
    ErrorOf(FileOf(s)).None?
  }

  predicate AllClean(segments: seq<Segment>) {
    forall i :: 0 <= i < |segments| ==> Clean(segments[i])
  }

  /** Every segment but the last is wholly on disk. */
  predicate SealedSynced(segments: seq<Segment>) {
    forall i :: 0 <= i < |segments| - 1 ==> segments[i].synced == |segments[i].data|
  }

  predicate LastSynced(segments: seq<Segment>) {
    segments != [] ==> segments[|segments| - 1].synced == |segments[|segments| - 1].data|
  }

  /** Faultless, or ending in an incomplete record that is all on disk: what a crash leaves until it is repaired. */
  predicate TailOk(s: Segment) {
    Clean(s) || (Fault(FileOf(s), true).None? && s.synced == |s.data|)
  }

  /** Sealed segments are faultless; the last may end in an incomplete record until it is reopened. */
  predicate WellKept(segments: seq<Segment>) {
    && (forall i :: 0 <= i < |segments| - 1 ==> Clean(segments[i]))
    && (forall i :: 0 <= i < |segments| ==> segments[i].synced <= |segments[i].data|)
    && (segments != [] ==> TailOk(segments[|segments| - 1]))
  }

  function RecordsIn(s: Segment): seq<Placed> {
    PlacedIn(FileOf(s))
  }

  function AllRecords(segments: seq<Segment>): seq<Placed> {
    Replayed(Files(segments))
  }

  // ----- One segment ------------------------------------------------------------------------

  lemma {:induction false} CompleteMonotone(records: seq<Record>, n: nat, m: nat)
    requires n <= m
    ensures Complete(records, n) <= Complete(records, m)
    decreases |records|
  {
    hide EncodeAll;
    if records != [] && |EncodeAll(records)| > m {
      CompleteMonotone(records[..|records| - 1], n, m);
    }
  }

  lemma PlacedAtPrefix(id: nat, records: seq<Record>, a: nat, b: nat)
    requires a <= b <= |records|
    ensures PlacedAt(id, Locate(records[..a])) <= PlacedAt(id, Locate(records[..b]))
  {
    hide EncodeAll;
    LocatePrefix(records, a);
    LocatePrefix(records, b);
  }

  /** Cutting a segment shorter keeps a shorter prefix of its records and never looks like corruption. */
  lemma CutKeepsPrefix(s: Segment, n: nat, m: nat)
    requires Clean(s) && n <= m <= |s.data|
    ensures Fault(FileOf(CutTo(s, n)), true).None?
    ensures RecordsIn(CutTo(s, n)) <= RecordsIn(CutTo(s, m))
  {
    hide Scan, EncodeAll, Complete, Locate;
    ScanReadsEncoding(s.data);
    var records := RecordsOf(Scan(s.data, 0).records);
    assert s.data[..|s.data|] == s.data;
    ScanCut(records, n);
    ScanCut(records, m);
    CompleteMonotone(records, n, m);
    PlacedAtPrefix(s.id, records, Complete(records, n), Complete(records, m));
  }

  lemma WholeCut(s: Segment)
    ensures CutTo(s, |s.data|) == Synced(s)
    ensures FileOf(CutTo(s, |s.data|)) == FileOf(s)
  {
    assert s.data[..|s.data|] == s.data;
  }

  /** Losing just the last byte already leaves an incomplete record, and one record fewer. */
  lemma LastByteMatters(s: Segment)
    requires Clean(s) && s.data != []
    ensures Fault(FileOf(CutTo(s, |s.data| - 1)), false).Some?
    ensures |RecordsIn(CutTo(s, |s.data| - 1))| < |RecordsIn(s)|
  {
    hide Scan, Encode, Locate;
    ScanReadsEncoding(s.data);
    var records := RecordsOf(Scan(s.data, 0).records);
    var n := |s.data| - 1;
    assert s.data[..|s.data|] == s.data;
    ScanCut(records, n);
    CompleteSplits(records, n);
    var c := Complete(records, n);
    WholeLength(records);
    OffsetNext(records, |records| - 1);
    if c < |records| - 1 {
      OffsetsGrow(records, c, |records| - 1);
    }
    assert |Encode(records[|records| - 1])| >= HEADER_LEN by {
      EncodedLength(records[|records| - 1]);
    }
    assert c < |records|;
  }

  lemma EncodedLength(r: Record)
    ensures |Encode(r)| == HEADER_LEN + |r.payload|
  {
  }

  // ----- A whole directory --------------------------------------------------------------------

  lemma FilesLast(segments: seq<Segment>)
    requires segments != []
    ensures Files(segments) == Files(segments[..|segments| - 1]) + [FileOf(segments[|segments| - 1])]
    ensures AllRecords(segments) == AllRecords(segments[..|segments| - 1]) + RecordsIn(segments[|segments| - 1])
  {
    hide Replayed, PlacedIn;
    ReplayedLast(Files(segments[..|segments| - 1]), FileOf(segments[|segments| - 1]));
  }

  /** With its sealed segments on disk, a directory loses at most a tail of its last segment. */
  lemma OnlyTailLost(segments: seq<Segment>, cuts: seq<nat>)
    requires SealedSynced(segments) && ValidCuts(segments, cuts) && segments != []
    ensures var n := |segments| - 1;
            Files(CutAll(segments, cuts)) == Files(segments[..n]) + [FileOf(CutTo(segments[n], cuts[n]))] &&
            AllRecords(CutAll(segments, cuts)) == AllRecords(segments[..n]) + RecordsIn(CutTo(segments[n], cuts[n]))
  {
    hide Replayed, PlacedIn;
    var n := |segments| - 1;
    forall i | 0 <= i < n ensures FileOf(CutTo(segments[i], cuts[i])) == FileOf(segments[i]) {
      WholeCut(segments[i]);
    }
    ReplayedLast(Files(segments[..n]), FileOf(CutTo(segments[n], cuts[n])));
  }

  /** A crash leaves the last segment with a prefix of its records and no fault but an incomplete one. */
  lemma LastAfterCrash(last: Segment, cut: nat)
    requires last.synced <= cut <= |last.data|
    requires TailOk(last)
    ensures Fault(FileOf(CutTo(last, cut)), true).None?
    ensures RecordsIn(CutTo(last, cut)) <= RecordsIn(last)
  {
    hide ErrorOf, PlacedIn;
    WholeCut(last);
    if Clean(last) {
      CutKeepsPrefix(last, cut, |last.data|);
    }
  }

  /** Then every crash is survived: recovery succeeds and yields a prefix of what was written. */
  lemma SealedSyncedSurvives(segments: seq<Segment>, cuts: seq<nat>)
    requires WellKept(segments) && SealedSynced(segments) && ValidCuts(segments, cuts)
    ensures Recovered(Files(CutAll(segments, cuts))).Ok?
    ensures AllRecords(CutAll(segments, cuts)) <= AllRecords(segments)
  {
    hide Replayed, PlacedIn, ErrorOf;
    var files := Files(CutAll(segments, cuts));
    FirstFaultNone(files);
    if segments != [] {
      var n := |segments| - 1;
      var last := segments[n];
      OnlyTailLost(segments, cuts);
      FilesLast(segments);
      LastAfterCrash(last, cuts[n]);
      forall i | 0 <= i < n ensures Fault(files[i], false).None? {
        assert files[i] == FileOf(segments[i]) && Clean(segments[i]);
      }
    }
  }

  /** The cuts of a crash that costs one segment its last byte and the others nothing. */
  function LoseLastByte(segments: seq<Segment>, i: nat): (cuts: seq<nat>)
    requires i < |segments| && segments[i].data != []
    ensures |cuts| == |segments|
  {
    seq(|segments|, j requires 0 <= j < |segments| => if j == i then |segments[j].data| - 1 else |segments[j].data|)
  }

  /** After this crash recovery succeeds and yields a prefix of the records. */
  predicate Survived(segments: seq<Segment>, cuts: seq<nat>)
    requires ValidCuts(segments, cuts)
  {
    Recovered(Files(CutAll(segments, cuts))).Ok? && AllRecords(CutAll(segments, cuts)) <= AllRecords(segments)
  }

  /**
    Exactly when recovery survives every crash: an unsynced byte in any segment but the
    last is one a crash can take, and that is a hard failure.
   */
  lemma SurvivesIffSealedSynced(segments: seq<Segment>)
    requires WellKept(segments)
    ensures (forall cuts :: ValidCuts(segments, cuts) ==> Survived(segments, cuts)) <==> SealedSynced(segments)
  {
    hide Replayed, PlacedIn, ErrorOf;
    if SealedSynced(segments) {
      forall cuts | ValidCuts(segments, cuts) ensures Survived(segments, cuts) {
        SealedSyncedSurvives(segments, cuts);
      }
    } else {
      var i :| 0 <= i < |segments| - 1 && segments[i].synced != |segments[i].data|;
      var cuts := LoseLastByte(segments, i);
      assert ValidCuts(segments, cuts);
      var files := Files(CutAll(segments, cuts));
      LastByteMatters(segments[i]);
      assert files[i] == FileOf(CutTo(segments[i], cuts[i]));
      FirstFaultNone(files);
      assert Fault(files[i], i == |files| - 1).Some?;
    }
  }
}
