# Calod: a verified model

Calod is an in-memory data store with a durable effect ledger. This project models, in Dafny, the parts whose
correctness is hard to see from the code, and proves what they promise.

**The ledger** hands out leases on side effects so that each runs at most once. Every mutation is one log record, applied to
in-memory indexes; snapshots carry a watermark into the log. `LedgerModel`, `LedgerIndexes` and `LedgerOps` hold the records,
the indexes and the decisions of every operation; `LedgerInvariant` what every operation keeps; `LedgerSystem` the state
machine of operations, syncs, snapshots with truncation, process deaths, crashes and reopens; `LedgerAcquire`,
`LedgerTransitions`, `LedgerRequests` and `LedgerRetention` what each operation does, by times, fields and stored states;
`LedgerRecovery`, `LedgerSafety`, `LedgerDecisions`, `LedgerLeases`, `LedgerReplies`, `LedgerHistory`, `LedgerRuns`,
`LedgerReapply` and `LedgerStale` the results over histories and runs, with `LedgerExamples` to build runs; `LedgerOnWal` puts the ledger on
the segment files of its log; `LedgerService` is the running object. `CanonicalJson`, `Digests`, `Decimals`, `Calendar`,
`Timestamps` and `EventChain` are what its hashes and timestamps rest on.

**The write-ahead log** stores records in checksummed segments with group commit. `WalFormat` is the byte format,
`WalRecovery` fail-closed recovery and replay, `WalLog` the writer on values, `WalCrash` what a crash can do, `WalSystem` and
`WalDurability` whole runs, `WalService` the writer task. What the ledger's state machine says of its log (growing positions,
which records a sync, a process death, a reopening and a crash leave durable, when the log may move to a fresh segment) is
what this log does: `LedgerOnWal.LedgerRunsOnWal` proves it for every run of the log that seals no segment with unsynced
bytes, and `WalDurability.RunSurvivesIff` that these are exactly the runs in which recovery survives every crash.

**Streams** keep a pending list per consumer group and a set per consumer that must agree. `StreamModel` and `StreamGroups`
are the data and the operations, `StreamExact` what they do by ids, times and counts, `StreamRuns`, `StreamDelivery` and `StreamSweep` the results over runs, `StreamService` the
object.

**Kernels**: `Glob` (two wildcard matchers), `Watch` (the WATCH registry under interleavings), `SortedSets` (map and ordered
index), `Morton` and `GeoSearch` (geohash cells and ranges).

## Conventions and assumptions

- One public ledger operation is one atomic step, and so is a snapshot with the truncation that follows it.
- Clock readings, new identifiers and lease tokens are inputs. Identifiers minted now occur in no earlier record.
- SHA-256 and CRC32C are functions about which nothing is assumed. Where a result needs collision freedom it says on which
  inputs: those hashed by the lists or values it speaks of. A checksum continued over a payload is the checksum of header and
  payload together.
- A crash cuts each log file anywhere between its synced and its written length; what survives is on disk for good. A file,
  once created or deleted, stays so.
- Rust strings are sequences of Unicode scalar values; bytes enter where something is hashed or measured. Integers are
  unbounded except where a width matters: record lengths, Morton codes.

Where code and comments disagree the code is followed:

- Retention is said never to prune active data, yet the effects of a pruned run go whatever their state
  (calod/crates/calod-ledger/src/ledger.rs:1259 and 1284-1285). `LedgerRetention` states exactly when the promise holds.
- Applying a record is said to be idempotent (calod/crates/calod-ledger/src/ledger.rs:174). Run records replace the run
  wholesale and covered events are skipped, so applying a suffix of the log again is not always harmless. Opening seeds the
  watermark from the snapshot, not from the last replayed record (line 402), so a snapshot taken after a replay and before
  the next write asks for just that. The runs of `LedgerSystem` take a snapshot only once something was persisted since
  opening, or if opening replayed nothing; `LedgerStale` states, for snapshots without that guard, exactly which ones recovery
  survives.
- Dropping a log writer is said to leave at worst a recoverable tail (calod/crates/calod-storage/src/wal.rs:697-701), and a
  flush to sync everything written so far (lines 784-785). A writer opens with its dirty flag down whatever a dead process left
  unsynced (line 744), and syncs only if the flag is up (lines 661-665). So the next writer may seal those bytes unsynced
  (`WalDurability.DirtyDeathIsUnsafe`), and a flush may sync nothing. `WalDurability.RunSurvivesIff` and
  `WalDurability.SyncLosesNothing` state exactly when each promise holds, from the steps taken and the flags seen.
- An index range out of bounds is said to be empty, but an end before the first element is moved onto it
  (calod/crates/calod-core/src/store/sorted_set.rs:457-466). `SortedSets.WindowExactIff` states exactly when the range is the
  window asked for.

## Model

| member | source | states |
|---|---|---|
| LedgerRecovery.RecoveryIsExact | calod/crates/calod-ledger/src/ledger.rs:343-410 | wherever a run of operations, syncs, snapshots, process deaths, crashes and reopens stands, opening the disk succeeds and rebuilds exactly the fold of every record appended and not lost: none missing, none applied twice |
| LedgerRecovery.RunKeepsInv | calod/crates/calod-ledger/src/ledger.rs:1408-1418 | every reachable system keeps the index invariant, a log that is the tail of the history at growing positions, and a snapshot that is a durable prefix marked by its watermark |
| LedgerRecovery.CrashKeepsSynced | calod/crates/calod-ledger/src/ledger.rs:427-455 | a crash loses no synced record: what remains is a prefix of the history at least as long as what was synced; under Always it holds every record whose caller was answered |
| LedgerRecovery.AlwaysSynced | calod/crates/calod-ledger/src/ledger.rs:1408-1418 | under Always every record whose caller was answered is durable at every moment, processes dying between the write and the sync included |
| LedgerOnWal.LedgerRunsOnWal | calod/crates/calod-ledger/src/ledger.rs:343-455 | a ledger whose operations, flushes, snapshots, deaths, crashes and openings are carried out by the segmented log: along every run of the log that seals no unsynced bytes, its steps are possible steps of the ledger's state machine, its log is what the files hold, and its durable part is what no crash can take |
| LedgerOnWal.MoveCarried | calod/crates/calod-ledger/src/ledger.rs:1408-1418 | the same for one step: what the ledger demands of its log (a next position, a synced segment before a roll, a crash that keeps what was synced) the log provides |
| LedgerOnWal.ServiceRecovers | calod/crates/calod-ledger/src/ledger.rs:343-410 | whatever a crash takes from the segment files, recovery succeeds, and opening the ledger on the records it yields gives exactly the fold of the history up to them; under Always no record whose caller was answered is missing |
| LedgerStale.SnapshotExactIff | calod/crates/calod-ledger/src/ledger.rs:427-455 | any snapshot, at any point of any run and with whatever watermark: the next opening rebuilds exactly the history if and only if the records it will replay are harmless to apply twice |
| LedgerReapply.ReapplyHarmlessIff | calod/crates/calod-ledger/src/ledger.rs:174-252 | applying records again to indexes that contain them changes nothing exactly when no event of a surviving run comes after the last run record of that run in the stretch, and every run pruned in the stretch that has an event there has its very first event there |
| LedgerReapply.LateEventSetsBack | calod/crates/calod-ledger/src/ledger.rs:178-182 | a surviving run with such an event is set back: all its events are there, but its record is the last one written before that event and counts fewer of them |
| LedgerReapply.GapFails | calod/crates/calod-ledger/src/ledger.rs:222-252 | a pruned run with only some of its events in the stretch makes opening fail |
| LedgerStale.StaleSnapshotDropsAppends | calod/crates/calod-ledger/src/ledger.rs:222-252 | after any snapshot, anywhere in any run, that leaves such an event to be replayed and no gap: the next opening succeeds with the run set back, and the next append to it is acknowledged and dropped |
| LedgerStale.StaleSnapshotForgets | calod/crates/calod-ledger/src/ledger.rs:402-402 | it happens: open, create any run, append any event, flush, crash, reopen is a possible run, and a snapshot there makes the next opening differ from the history |
| LedgerStale.SetBackDropsAppends | calod/crates/calod-ledger/src/ledger.rs:222-227 | on a run set back, an append of a valid event in scope is accepted, acknowledged and dropped |
| LedgerIndexes.LoadCollected | calod/crates/calod-ledger/src/ledger.rs:254-307 | loading the lists a snapshot collected, in whatever order the maps were visited, gives back the same indexes, the key index included, which is not stored |
| LedgerIndexes.Indexes.Apply | calod/crates/calod-ledger/src/ledger.rs:176-220 | one record changes the five indexes exactly as the specification says, and reports the corruption it meets |
| LedgerIndexes.Indexes.ApplyEvent | calod/crates/calod-ledger/src/ledger.rs:222-252 | an event is skipped if covered, appended if it is next in number and hash, and corruption otherwise |
| LedgerIndexes.Indexes.CollectState | calod/crates/calod-ledger/src/ledger.rs:254-274 | the lists hold every run, effect, event and checkpoint once |
| LedgerIndexes.Indexes.LoadState | calod/crates/calod-ledger/src/ledger.rs:276-307 | the indexes become those the lists define |
| LedgerService.Open | calod/crates/calod-ledger/src/ledger.rs:343-410 | opening loads the snapshot, replays the records past its watermark in order, fails exactly on the first corruption, and otherwise is the system's reopen step |
| LedgerService.Replay | calod/crates/calod-ledger/src/ledger.rs:368-382 | the replay loop over the log computes the fold over the uncovered records, up to the first corruption |
| LedgerService.Ledger.Persist | calod/crates/calod-ledger/src/ledger.rs:1408-1418 | the log grows first, the indexes follow, and the watermark moves only when both succeeded |
| LedgerService.Ledger.Perform | calod/crates/calod-ledger/src/ledger.rs:464-1323 | an operation refuses, answers, or persists one record, and its effect on disk and memory is the system step the run theorems are about |
| LedgerService.Ledger.TakeSnapshot | calod/crates/calod-ledger/src/ledger.rs:427-455 | a snapshot saves the indexes with the current watermark and drops the segments it covers, never the active one |
| LedgerInvariant.PersistNeverFails | calod/crates/calod-ledger/src/ledger.rs:1408-1418 | whatever the operation, applying the record it persists meets no corruption and keeps the invariant |
| LedgerInvariant.PlanFits | calod/crates/calod-ledger/src/ledger.rs:464-1323 | every record any operation plans fits the indexes it was planned from |
| LedgerInvariant.FitsKeepsInv | calod/crates/calod-ledger/src/ledger.rs:176-252 | a fitting record keeps every chain verified and counted, the two effect indexes inverse, every effect's run in its own tenant and project, and leases exactly where a lease is out |
| LedgerInvariant.BuiltEventFits | calod/crates/calod-ledger/src/ledger.rs:1456-1481 | a built event is the next of its run: numbered, chained and hashed |
| LedgerInvariant.AcquireFits | calod/crates/calod-ledger/src/ledger.rs:464-658 | the same for acquire, with and without a run |
| LedgerInvariant.TransitionFits | calod/crates/calod-ledger/src/ledger.rs:664-827 | the same for every transition |
| LedgerInvariant.RetentionFits | calod/crates/calod-ledger/src/ledger.rs:1263-1323 | retention lists every effect of every run it removes |
| LedgerInvariant.InvListable | calod/crates/calod-ledger/src/ledger.rs:254-307 | what satisfies the invariant survives being listed and reloaded |
| LedgerSafety.FenceCountsGrants | calod/crates/calod-ledger/src/ledger.rs:506-626 | an effect's fencing token equals the number of leases granted on it in the history |
| LedgerDecisions.FenceCountsDecisions | calod/crates/calod-ledger/src/ledger.rs:506-626 | under Always, wherever a run stands, it equals the number of Execute decisions ever returned for the effect plus the grants on record whose process died before answering; without such deaths, exactly the decisions returned |
| LedgerDecisions.EveryDecisionIsOnRecord | calod/crates/calod-ledger/src/ledger.rs:1408-1418 | under Always the Execute decisions ever returned for an effect are exactly the answered grants still in the history, whatever crashed since |
| LedgerSafety.NoGrantAfterStart | calod/crates/calod-ledger/src/ledger.rs:506-809 | after a start, no further Execute is issued for the effect unless a retryable failure at that same fence came in between |
| LedgerSafety.SupersededFenceRefused | calod/crates/calod-ledger/src/ledger.rs:686-692 | once a later lease was granted, a transition bearing an earlier fence is refused whatever else it carries |
| LedgerSafety.TerminalIsLast | calod/crates/calod-ledger/src/ledger.rs:694-726 | once terminal, an effect never changes again: no later record mentions it |
| LedgerSafety.TerminalReplays | calod/crates/calod-ledger/src/ledger.rs:550-559 | until it is pruned, every acquire that repeats a terminal effect's request is answered with that very record and writes nothing |
| LedgerSafety.RunSound | calod/crates/calod-ledger/src/ledger.rs:464-827 | the statements above about histories hold of the history of every run, deaths, crashes and reopens included |
| LedgerLeases.GrantIsUsable | calod/crates/calod-ledger/src/ledger.rs:664-827 | the token and fence an Execute hands out let the worker start at once under that fence; any other fence, or a token of another digest, is refused |
| LedgerLeases.LeaseExcludes | calod/crates/calod-ledger/src/ledger.rs:577-598 | while an unexpired lease is out, a repeated request waits for exactly the rest of it and nothing is written |
| LedgerAcquire.GrantKeepsOut | calod/crates/calod-ledger/src/ledger.rs:506-626 | wherever the history goes after a grant at t0 for L ms (a thousand times the seconds asked, or the default), while no later grant or renewal names the effect and it is leased: a repeat of the request at t < t0 + L waits t0 + L - t; from t0 + L on it is granted with the fence one up if the tool was not started, and sent to reconcile if it was |
| LedgerAcquire.AcquireDecides | calod/crates/calod-ledger/src/ledger.rs:550-626 | the answer to a repeat of an effect's request for each stored state: settled states replay, unknown outcomes reconcile, retryable failures and lapsed claims are granted anew, a lapsed start is given up as outcome unknown, a running lease waits for its rest |
| LedgerAcquire.AcquireCreates | calod/crates/calod-ledger/src/ledger.rs:506-540 | a new key creates the effect asked for, every field of it, under its first lease |
| LedgerAcquire.AcquireRefusesIff | calod/crates/calod-ledger/src/ledger.rs:464-549 | acquire refuses exactly malformed requests, keys that stand for another input or tool, and runs outside the scope |
| LedgerAcquire.LeaseStays | calod/crates/calod-ledger/src/ledger.rs:746-760 | while an effect is leased, its expiry, length, token and fence are those last set by a grant or renewal |
| LedgerTransitions.RenewalKeepsOut | calod/crates/calod-ledger/src/ledger.rs:754-760 | after an accepted renewal at t0 for L ms (the seconds asked, or the length the lease had), a repeat of the request at t < t0 + L waits t0 + L - t, wherever the history goes |
| LedgerTransitions.TransitionPersistsIff | calod/crates/calod-ledger/src/ledger.rs:664-744 | a transition is accepted if and only if the effect is in scope, the fence is current, the move is in the table of thirteen, a worker's token digest matches or a reconciler has the capability, and a renewal's seconds are within bounds; otherwise it is refused with the reason that comes first |
| LedgerTransitions.TransitionWrites | calod/crates/calod-ledger/src/ledger.rs:746-809 | what an accepted transition writes: result and receipt come with a commit, a failure with a failure, the lease survives only a start and a renewal, all else stays |
| LedgerTransitions.OnlyHolderMoves | calod/crates/calod-ledger/src/ledger.rs:686-744 | wherever the history goes after a grant, while no later lease is granted and the effect is leased, a worker's transition needs that grant's fence and a token with the digest of the one handed out |
| LedgerLeases.KeyReuseConflicts | calod/crates/calod-ledger/src/ledger.rs:541-549 | wherever the history goes after an acquire has created or reacquired an effect, until the effect is pruned, its idempotency key reused with a different JSON input is a conflict, unless SHA-256 collides on the two canonical texts |
| LedgerSafety.DigestStays | calod/crates/calod-ledger/src/ledger.rs:506-809 | an effect keeps for good the key and the input digest it was created with |
| LedgerReplies.RepliesAreHeld | calod/crates/calod-ledger/src/ledger.rs:464-1323 | whatever an operation persists, the indexes afterwards hold the effect (by id and by key), run, event or checkpoint its caller is told of |
| LedgerReplies.OutcomeIsReplayed | calod/crates/calod-ledger/src/ledger.rs:745-809 | wherever the history goes after an outcome was reported, until the effect is pruned, every request that repeats the effect's own is answered with it: the committed result and receipt, or the failure |
| LedgerRuns.RunsAreGrounded | calod/crates/calod-ledger/src/ledger.rs:464-1323 | the statements about runs below hold of the history of every run of the system |
| LedgerReplies.ForkWithinParent | calod/crates/calod-ledger/src/ledger.rs:960-1028 | a fork names its parent and a point within the parent's timeline, and starts an empty timeline of its own |
| LedgerRequests.CreateRunRecords | calod/crates/calod-ledger/src/ledger.rs:877-912 | a run is created exactly for names of the allowed lengths, with the names and metadata asked for, running at version 1 |
| LedgerRequests.UpdateRunRecords | calod/crates/calod-ledger/src/ledger.rs:922-956 | a run takes the status asked for exactly when it is in scope, at the version expected, and not finished in another status |
| LedgerRequests.ForkRunRecords | calod/crates/calod-ledger/src/ledger.rs:960-1028 | a fork is made exactly for one point that is there, and starts from that point: the event asked for or the checkpoint's |
| LedgerRequests.AppendEventRecords | calod/crates/calod-ledger/src/ledger.rs:1077-1102 | an event is appended exactly for a well-formed type and a run in scope, next in number and chain, with the type, time and payload asked for |
| LedgerRequests.CheckpointRecords | calod/crates/calod-ledger/src/ledger.rs:1165-1208 | a checkpoint is made exactly at a point of the timeline and the version expected, with the state asked for and its digest |
| LedgerRequests.AcquireIsTold | calod/crates/calod-ledger/src/ledger.rs:1422-1481 | what acquire writes of an effect in a run is told on its timeline: the effect, its fence, and the states it came from and went to |
| LedgerRequests.TransitionIsTold | calod/crates/calod-ledger/src/ledger.rs:1422-1481 | so is every accepted transition, under the event type of its kind |
| LedgerRequests.OperationsStayInScope | calod/crates/calod-ledger/src/ledger.rs:1505-1527 | no operation changes an effect, run, timeline or checkpoint of another tenant or project |
| LedgerHistory.RunGrounded | calod/crates/calod-ledger/src/ledger.rs:464-1323 | in every reachable history each record fits the indexes before it, moves its run as it should, and mints only identifiers never used before |
| LedgerRuns.VersionCountsUpdates | calod/crates/calod-ledger/src/ledger.rs:922-956 | a run's version is one more than the number of updates it has had |
| LedgerRuns.StaleVersionRefused | calod/crates/calod-ledger/src/ledger.rs:922-956 | a request that expects a version already passed is refused for ever, so of several updates expecting the same version at most one succeeds |
| LedgerRuns.FinishedRunStays | calod/crates/calod-ledger/src/ledger.rs:922-956 | a finished run keeps its status for as long as it exists |
| LedgerRetention.RetentionRemovesExactly | calod/crates/calod-ledger/src/ledger.rs:1263-1323 | a run goes, with its events, checkpoints and effects, exactly if it is completed, failed or cancelled and its last update plus the age asked for (or nothing, if negative) is not after now; likewise a settled effect; everything else stays as it was |
| LedgerRetention.RetentionReportsExactly | calod/crates/calod-ledger/src/ledger.rs:1263-1323 | the three counts reported are the runs, effects and events that were there before and are not afterwards; a record listing them is written exactly if there are any |
| LedgerRetention.RetentionSparesOpenIff | calod/crates/calod-ledger/src/ledger.rs:1252-1286 | retention spares every effect whose outcome is open exactly when none of them belongs to a finished run of the age asked for |
| LedgerRetention.OpenEffectIsPruned | calod/crates/calod-ledger/src/ledger.rs:1259-1286 | at every reachable state with an open effect in a live run, completing the run and then applying retention takes the effect away |
| LedgerRetention.OpenEffectIsReached | calod/crates/calod-ledger/src/ledger.rs:506-549 | such states are reached: open, create any run, acquire any effect in it |
| EventChain.TamperEvidence | calod/crates/calod-ledger/src/model.rs:622-663 | two event lists that both verify and end in the same hash are the same list, length included, unless SHA-256 collides on what they hash |
| EventChain.TamperEvidenceOfRecords | calod/crates/calod-ledger/src/model.rs:583-663 | the same for stored event records, up to the fields the hash does not cover |
| EventChain.VerifyEventChain | calod/crates/calod-ledger/src/model.rs:648-663 | the loop accepts exactly the chains whose every link is numbered, chained and hashed correctly from genesis on |
| EventChain.EventHash | calod/crates/calod-ledger/src/model.rs:628-643 | the hash is SHA-256 over the previous digest bytes followed by the canonical JSON of the event's fields |
| EventChain.HashCovers | calod/crates/calod-ledger/src/model.rs:622-643 | the hash covers, by name, the seven fields the API shows of the stored event, after the bytes of the hash before it |
| EventChain.ChainAppend | calod/crates/calod-ledger/src/model.rs:648-663 | appending a correctly linked event to a verified chain gives a verified chain |
| CanonicalJson.PrintUnambiguous | calod/crates/calod-ledger/src/digest.rs:17-63 | two JSON values print to the same text exactly when they are equal up to object key order, and no printed value runs into what follows it |
| CanonicalJson.ReadPrint | calod/crates/calod-ledger/src/digest.rs:17-56 | a reader recovers any printed value and its end, whatever text follows |
| CanonicalJson.CanonicalJsonInto | calod/crates/calod-ledger/src/digest.rs:17-56 | the recursive printer appends exactly the canonical text: keys sorted, no white space, minimal escapes |
| CanonicalJson.SortedKeysIncrease | calod/crates/calod-ledger/src/digest.rs:41-42 | object keys are taken in strictly increasing order |
| CanonicalJson.EscapeIsShortest | calod/crates/calod-ledger/src/digest.rs:17-26 | a character is escaped only where JSON demands it, and in the shortest form JSON has |
| CanonicalJson.AppendItems | calod/crates/calod-ledger/src/digest.rs:27-36 | the array loop appends the items in order, separated by commas |
| CanonicalJson.AppendFields | calod/crates/calod-ledger/src/digest.rs:37-54 | the object loop appends the fields in key order |
| Digests.HexEncodeInto | calod/crates/calod-ledger/src/digest.rs:66-74 | the loop writes two lower-case hex digits per byte |
| Digests.HexIsLowerCase | calod/crates/calod-ledger/src/digest.rs:66-74 | two digits a byte, all decimal digits or lower-case letters |
| Digests.Utf8Spells | calod/crates/calod-ledger/src/digest.rs:91-94 | the bytes hashed for a character spell its number as section 3 of RFC 3629 says |
| Digests.HexRoundTrip | calod/crates/calod-ledger/src/digest.rs:66-88 | decoding an encoded digest gives back its bytes |
| Digests.DigestRoundTrip | calod/crates/calod-ledger/src/digest.rs:91-99 | the bytes behind a rendered digest are recovered from its text |
| Digests.RenderInjective | calod/crates/calod-ledger/src/digest.rs:91-94 | different digests render differently |
| Calendar.CivilFromDaysSuccessor | calod/crates/calod-ledger/src/digest.rs:125-138 | day 0 is 1970-01-01 and each day maps to the calendar successor of the day before, for every integer day |
| Calendar.CivilFromDaysValid | calod/crates/calod-ledger/src/digest.rs:127-138 | every integer day maps to a valid proleptic Gregorian date, and counting days back from that date gives the day |
| Calendar.CivilDaysBijection | calod/crates/calod-ledger/src/digest.rs:127-138 | days and valid dates correspond one to one |
| Timestamps.TimestampRoundTrip | calod/crates/calod-ledger/src/digest.rs:107-123 | the rendered timestamp reads back to the millisecond, for every integer |
| Timestamps.TimestampInjective | calod/crates/calod-ledger/src/digest.rs:107-123 | different instants render differently |
| Timestamps.TimestampIsRfc3339 | calod/crates/calod-ledger/src/digest.rs:107-123 | for years 0000 to 9999 the text has the form of section 5.6 of RFC 3339 |
| WalFormat.EncodeRecord | calod/crates/calod-storage/src/wal.rs:495-504 | the buffer grows by exactly the encoded record |
| WalFormat.EncodeLayout | calod/crates/calod-storage/src/wal.rs:495-504 | magic, version, type, length, checksum and payload stand at their offsets, numbers lowest byte first |
| WalFormat.ScanSegment | calod/crates/calod-storage/src/wal.rs:310-321 | the loop reports the records up to the end or the first fault |
| WalFormat.ParseEncoded | calod/crates/calod-storage/src/wal.rs:257-306 | a complete record parses back, whatever follows it |
| WalFormat.ParsedIsEncoded | calod/crates/calod-storage/src/wal.rs:257-306 | whatever parses is the encoding of the record parsed |
| WalFormat.ScanCut | calod/crates/calod-storage/src/wal.rs:257-321 | any cut of any segment scans to exactly the records that survived whole; a cut inside a record is Truncated at that record's start, never Corrupt |
| WalFormat.ScanReadsEncoding | calod/crates/calod-storage/src/wal.rs:310-321 | for every byte string, the bytes before the first fault are the encoding of the records reported, and the fault is where they end |
| WalFormat.CleanIffEncoding | calod/crates/calod-storage/src/wal.rs:257-321 | a byte string scans without fault exactly when it is the encoding of some records |
| WalRecovery.Recover | calod/crates/calod-storage/src/wal.rs:330-384 | recovery accepts a directory whose only fault is an incomplete last record, cuts that off, and reports the first fault otherwise |
| WalRecovery.RecoverTwice | calod/crates/calod-storage/src/wal.rs:330-384 | recovering a second time changes nothing |
| WalRecovery.RecoveredIsClean | calod/crates/calod-storage/src/wal.rs:341-361 | after recovery every file is faultless and holds the records it held |
| WalRecovery.RecoveryReports | calod/crates/calod-storage/src/wal.rs:363-384 | a truncation is reported exactly if the last file got shorter, with its id and both lengths, and so is the last record's position |
| WalRecovery.Replay.Next | calod/crates/calod-storage/src/wal.rs:429-487 | the cursor yields the records of all segments in order, a fault once, then nothing |
| WalRecovery.ReplayAll | calod/crates/calod-storage/src/wal.rs:490-492 | replaying a recovered directory yields all its records; otherwise the fault of recovery |
| WalCrash.SurvivesIffSealedSynced | calod/crates/calod-storage/src/wal.rs:555-576 | every possible crash is survived, with a prefix of the records, exactly when every segment but the last is wholly synced |
| WalCrash.SealedSyncedSurvives | calod/crates/calod-storage/src/wal.rs:330-384 | with sealed segments synced, recovery after any crash succeeds and yields a prefix |
| WalDurability.RunSurvivesIff | calod/crates/calod-storage/src/wal.rs:555-755 | at every point of a run every crash is survived, with a prefix of the records, if and only if no roll and no opening onto a full segment met bytes that a dead process or the running writer had not synced, except a roll that saw the dirty flag up and was configured to sync |
| WalDurability.GroupCommitIsDurable | calod/crates/calod-storage/src/wal.rs:587-690 | at every point of every such run, whatever processes died before, recovery from any crash succeeds and yields a prefix of the records in the log; under Always that prefix holds every acknowledged record |
| WalDurability.SyncLosesNothing | calod/crates/calod-storage/src/wal.rs:634-690 | after a flush, a shutdown, a batch under Always or a tick under Everysec no crash can lose anything, exactly when the dirty flag was up or no dead process had left unsynced bytes in the active segment |
| WalDurability.LogIsOrdered | calod/crates/calod-storage/src/wal.rs:555-632 | replay yields exactly the appended records not removed by truncation, in order, at the positions returned; positions strictly increase; only single-record segments exceed the limit; the active segment is never removed |
| WalSystem.AppendGoesTo | calod/crates/calod-storage/src/wal.rs:607-632 | a record goes to the end of the active file, unless that holds something and the record with its header would exceed the limit; then it begins the next file |
| WalSystem.TruncateLeaves | calod/crates/calod-storage/src/wal.rs:800-812 | truncation leaves exactly the files from the given one on, and the active one |
| WalSystem.OpenContinues | calod/crates/calod-storage/src/wal.rs:714-755 | a writer continues where the last file ends after repair, in the next file if that is full, or in file 1 |
| WalDurability.CarefulRunsSurvive | calod/crates/calod-storage/src/wal.rs:555-576 | runs that seal no unsynced bytes meet only survivable crashes, so the order results hold of them |
| WalDurability.CleanDeathsAreCareful | calod/crates/calod-storage/src/wal.rs:555-576 | under Always or Everysec, with processes dying only with the flag down, no segment is ever sealed with unsynced bytes |
| WalDurability.DirtyDeathIsUnsafe | calod/crates/calod-storage/src/wal.rs:714-755 | a process that dies with unsynced bytes in a full segment can leave, after reopening and a later crash, a log that recovery refuses |
| WalDurability.NoStrategyIsUnsafe | calod/crates/calod-storage/src/wal.rs:555-562 | without syncs a roll seals an unsynced segment, and a crash can leave a log that recovery refuses |
| WalService.WriterTask.RollSegment | calod/crates/calod-storage/src/wal.rs:555-576 | the old segment is synced if dirty (except under No), and an empty next segment becomes active |
| WalService.WriterTask.HandleAppend | calod/crates/calod-storage/src/wal.rs:607-632 | the record is written to the active segment, or to a fresh one if it does not fit, at the position returned |
| WalService.WriterTask.RunBatch | calod/crates/calod-storage/src/wal.rs:634-690 | a batch is written in order, synced at most once before anyone is answered, and acknowledged with its positions |
| WalService.WriterTask.OnTick | calod/crates/calod-storage/src/wal.rs:684-687 | the tick syncs under Everysec when there is something to sync |
| WalService.WriterTask.TruncateBefore | calod/crates/calod-storage/src/wal.rs:800-812 | exactly the files below the cutoff go, and the cutoff is never above the active segment |
| WalService.OpenWriter | calod/crates/calod-storage/src/wal.rs:714-755 | the writer recovers the directory and continues in the last segment, in a fresh one if that is full, or in segment 1 |
| StreamRuns.PendingConserved | calod/crates/calod-core/src/store/stream.rs:351-688 | over every run without a backwards SETID or a forced claim past the group's mark, an id is pending for a consumer in the group list exactly when it is in the consumer's set, and ids handed out equal ids pending, acknowledged, purged and dropped, as multisets |
| StreamGroups.ReadNewAgreesIff | calod/crates/calod-core/src/store/stream.rs:369-414 | a read of new entries keeps the two lists in agreement exactly when it needs no acknowledgement or delivers nothing that is pending for someone else |
| StreamRuns.BackwardsMarkBreaksAgreement | calod/crates/calod-core/src/store/stream.rs:315-323 | after a backwards SETID two consumers own the same entry |
| StreamRuns.ForcedAheadBreaksAgreement | calod/crates/calod-core/src/store/stream.rs:525-600 | so they do after a forced claim of an entry the group has yet to reach |
| StreamGroups.ClaimAgrees | calod/crates/calod-core/src/store/stream.rs:525-600 | claiming keeps the lists in agreement |
| StreamGroups.ClaimDecidesEach | calod/crates/calod-core/src/store/stream.rs:525-600 | a claim of distinct ids decides each on the group as it was: idle or forced ids with an entry are the claimer's, with the time and count asked for, those without an entry are gone, all others are untouched |
| StreamExact.ClaimExact | calod/crates/calod-core/src/store/stream.rs:525-600 | of distinct ids listed, a pending one with an entry, delivered at d, changes hands exactly if the idle time asked for is 0 or d plus it is not after now, and one not pending exactly by force; its new delivery time plus the idle time given is now, its count as asked; ids without an entry are no longer pending, all others as they were |
| StreamExact.ClaimClocks | calod/crates/calod-core/src/store/stream.rs:585-592 | a claim that takes something shows the claimer seen and active now, and no one else |
| StreamGroups.SweepAgrees | calod/crates/calod-core/src/store/stream.rs:608-688 | so does autoclaiming |
| StreamGroups.DropAgrees | calod/crates/calod-core/src/store/stream.rs:351-363 | so does deleting a consumer |
| StreamDelivery.NewEntriesDeliveredOnce | calod/crates/calod-core/src/store/stream.rs:145-236 | over every run without SETID, deliveries are strictly increasing across consumers, and of the entries past the group's start that its mark has reached exactly those not removed beforehand were delivered |
| StreamSweep.SweepVisitsEachOnce | calod/crates/calod-core/src/store/stream.rs:608-688 | following XAUTOCLAIM's cursor from 0-0, the claimed and the purged ids are, each once and in order, the pending ids delivered at least the time asked ago, with and without an entry; the claimer owns the former from now on, the latter are gone, all else is unchanged |
| StreamSweep.BatchesAreInvisible | calod/crates/calod-core/src/store/stream.rs:608-688 | however the sweep is cut into batches it does what one scan of all candidates does |
| StreamSweep.BatchLeavesRest | calod/crates/calod-core/src/store/stream.rs:638-655 | a returned cursor moves forward and leaves exactly the candidates not yet looked at, strictly fewer each time |
| StreamExact.AutoclaimFills | calod/crates/calod-core/src/store/stream.rs:638-655 | a call claims at most as many as asked for, at least one allowed, and returns a cursor only once it has them |
| StreamService.StreamData.Add | calod/crates/calod-core/src/store/stream.rs:145-156 | an id that is zero or not past the last id is refused; otherwise the entry is added |
| StreamService.StreamData.Delete | calod/crates/calod-core/src/store/stream.rs:200-211 | exactly the entries not listed are left, with their fields; the count says how many went, and the greatest that went is marked |
| StreamService.StreamData.TrimMaxlen | calod/crates/calod-core/src/store/stream.rs:219-236 | the newest entries stay with their fields, as many as asked for if there are that many; what goes is older than all that stays, the count says how many went, and the greatest that went is marked |
| StreamExact.TrimExact | calod/crates/calod-core/src/store/stream.rs:219-236 | the same of the trim on values |
| StreamExact.DeleteExact | calod/crates/calod-core/src/store/stream.rs:200-211 | the same of deletion on values |
| StreamModel.IdOrder | calod/crates/calod-core/src/store/stream.rs:48-57 | ids are ordered as the numbers their two parts make together |
| StreamService.StreamData.CreateGroup | calod/crates/calod-core/src/store/stream.rs:300-312 | a new group starts at the given id with nothing pending; an existing one is left alone |
| StreamService.StreamData.DelConsumer | calod/crates/calod-core/src/store/stream.rs:351-363 | the consumer and everything pending for it go, and the count says how much that was |
| StreamExact.DropExact | calod/crates/calod-core/src/store/stream.rs:351-363 | of a group in agreement, exactly the consumer and its pending entries go |
| StreamExact.AddConsumerExact | calod/crates/calod-core/src/store/stream.rs:332-346 | a consumer that is created was seen and active now and holds nothing |
| StreamService.StreamData.GroupReadNew | calod/crates/calod-core/src/store/stream.rs:369-414 | the first entries past the mark are delivered in order and the mark moves with them |
| StreamExact.NewIdsExact | calod/crates/calod-core/src/store/stream.rs:369-386 | a read delivers, in order, the entries past the mark from the first on, as many as asked for if there are that many |
| StreamExact.ReadNewExact | calod/crates/calod-core/src/store/stream.rs:387-414 | the mark moves to the last entry delivered, each is pending for the reader once delivered now unless none is due, and the reader was seen now |
| StreamService.StreamData.Ack | calod/crates/calod-core/src/store/stream.rs:450-462 | pending ids leave both lists, and the count says how many were pending |
| StreamExact.AckExact | calod/crates/calod-core/src/store/stream.rs:450-462 | exactly the listed ids leave the pending list, and those that were on it are counted |
| StreamService.StreamData.Claim | calod/crates/calod-core/src/store/stream.rs:525-600 | each listed id is taken over, purged or left alone as its entry, idle time and FORCE demand |
| StreamService.StreamData.AutoClaim | calod/crates/calod-core/src/store/stream.rs:608-688 | the scan stops once enough is claimed and returns the next candidate, or 0-0 at the end |
| Glob.GlobMatch | calod/crates/calod-core/src/store/config_registry.rs:126-152 | the loop terminates and, on every text without a star, answers as the recursive matcher does |
| Glob.LatestStarSuffices | calod/crates/calod-core/src/store/config_registry.rs:137-144 | once a later star is reached, an earlier one need not be tried again |
| Glob.MatchesConcat | calod/crates/calod-core/src/store/calod_shard.rs:36-49 | one pattern after another matches exactly the texts that fall into a match of each |
| Glob.MatchesOne | calod/crates/calod-core/src/store/calod_shard.rs:36-49 | a star matches any text, a question mark any one character, any other character itself |
| Glob.AgreeIffNoStar | calod/crates/calod-core/src/store/calod_shard.rs:36-49 | the two matchers agree on every pattern exactly for the texts without a star |
| Watch.ExecTestIsExact | calod/crates/calod-core/src/store/watch.rs:51-94 | under every interleaving, between a WATCH and its release the versions match exactly when the key was not written in between |
| Watch.WatchDetectsWrites | calod/crates/calod-core/src/store/watch.rs:51-94 | while a watch is held its entry is present and its version is the recorded one plus the writes since |
| Watch.NothingLeaks | calod/crates/calod-core/src/store/watch.rs:62-80 | under every interleaving the registry holds only keys somebody watches or is just leaving; left alone, it is empty |
| Watch.WatchRegistry.Watch | calod/crates/calod-core/src/store/watch.rs:51-58 | the watch is counted and the current version returned, 0 for a new key |
| Watch.WatchRegistry.Decrement | calod/crates/calod-core/src/store/watch.rs:62-73 | the first half of an unwatch: one watch fewer, and whether none is left |
| Watch.WatchRegistry.RemoveIf | calod/crates/calod-core/src/store/watch.rs:75-79 | the second half: the entry goes only if nobody watches it now |
| Watch.WatchRegistry.Unwatch | calod/crates/calod-core/src/store/watch.rs:62-80 | both halves with nobody in between: the last watcher takes the entry along |
| Watch.WatchRegistry.Current | calod/crates/calod-core/src/store/watch.rs:92-94 | the version of a watched key, 0 for any other |
| Watch.WatchRegistry.Bump | calod/crates/calod-core/src/store/watch.rs:85-89 | a write raises the version of a watched key and does nothing else |
| SortedSets.ListIsUnique | calod/crates/calod-core/src/store/sorted_set.rs:376-392 | a map has one sorted list, so rebuilding the index restores it |
| SortedSets.RankInvertsRange | calod/crates/calod-core/src/store/sorted_set.rs:151-188 | rank and index range invert each other |
| SortedSets.RankCounts | calod/crates/calod-core/src/store/sorted_set.rs:151-155 | a rank is the number of members with a lower score, or an equal score and lower bytes |
| SortedSets.BytesLessIff | calod/crates/calod-core/src/store/sorted_set.rs:76-82 | bytes compare at the first place they differ, and a beginning comes before what it begins |
| SortedSets.BoundsExact | calod/crates/calod-core/src/store/sorted_set.rs:197-225 | a score range holds an inclusive bound and leaves out an exclusive one, on either side |
| SortedSets.SplitAtScore | calod/crates/calod-core/src/store/sorted_set.rs:197-225 | a score cuts the list in two, whichever side it is counted to |
| SortedSets.LimitedExact | calod/crates/calod-core/src/store/sorted_set.rs:197-216 | an offset skips, a count limits, and what is left is in order |
| SortedSets.NegativeIndex | calod/crates/calod-core/src/store/sorted_set.rs:447-472 | an index counted from the end names the same element of the reversed list |
| SortedSets.WindowExactIff | calod/crates/calod-core/src/store/sorted_set.rs:447-472 | the normalised range is the requested window exactly when the window's end is not before the first element, or its start is past it |
| SortedSets.StopBeforeFirst | calod/crates/calod-core/src/store/sorted_set.rs:456-464 | with three elements, the window from 0 to -10 is empty, yet the first element is selected |
| SortedSets.SortedSet.Insert | calod/crates/calod-core/src/store/sorted_set.rs:122-137 | the member gets its score in map and index alike, and the answer says whether it was new |
| SortedSets.SortedSet.Remove | calod/crates/calod-core/src/store/sorted_set.rs:140-148 | the member leaves map and index alike |
| SortedSets.SortedSet.Rank | calod/crates/calod-core/src/store/sorted_set.rs:151-155 | the rank is the member's position in the sorted list of the map: how many members come before it |
| SortedSets.SortedSet.RangeByIndex | calod/crates/calod-core/src/store/sorted_set.rs:166-191 | the slice of the sorted list, reversed if asked |
| SortedSets.SortedSet.RangeByScore | calod/crates/calod-core/src/store/sorted_set.rs:197-216 | the keys within bounds in sorted order, reversed if asked, then offset and limit |
| SortedSets.BetweenExact | calod/crates/calod-core/src/store/sorted_set.rs:197-225 | the selection holds exactly the keys within bounds, in order |
| SortedSets.SortedSet.PopMin | calod/crates/calod-core/src/store/sorted_set.rs:259-271 | the lowest keys leave both structures and are returned lowest first; no score left is below one returned |
| SortedSets.SortedSet.PopMax | calod/crates/calod-core/src/store/sorted_set.rs:274-287 | the highest keys leave both structures and are returned highest first; no score left is above one returned |
| SortedSets.SortedSet.RemoveRangeByRank | calod/crates/calod-core/src/store/sorted_set.rs:291-298 | the slice leaves both structures |
| SortedSets.SortedSet.RemoveRangeByScore | calod/crates/calod-core/src/store/sorted_set.rs:302-314 | exactly the keys within bounds leave both structures |
| SortedSets.SortedSet.RebuildIndex | calod/crates/calod-core/src/store/sorted_set.rs:376-381 | whatever the index was, it becomes the sorted list of the map |
| Morton.InterleaveWeaves | calod/crates/calod-core/src/store/geo.rs:66-93 | the word-parallel spreading computes the number whose binary digits alternate between the two coordinates |
| Morton.SquashGathers | calod/crates/calod-core/src/store/geo.rs:78-86 | the word-parallel gathering computes the digits at even positions |
| Morton.InterleaveRoundTrip | calod/crates/calod-core/src/store/geo.rs:88-101 | coordinates survive interleaving and deinterleaving |
| Morton.ScoreRoundTrip | calod/crates/calod-core/src/store/geo.rs:88-101 | so does every 52-bit score the other way round |
| GeoSearch.CellExact | calod/crates/calod-core/src/store/geo.rs:237-256 | a score is in a cell's range exactly when its coordinates are in the cell |
| GeoSearch.SearchRanges | calod/crates/calod-core/src/store/geo.rs:272-311 | the ranges cover exactly the 52-bit scores in the centre cell or a neighbour, latitude stopping at the poles and longitude wrapping, and come out sorted, disjoint and with gaps between them |
| GeoSearch.MergeRanges | calod/crates/calod-core/src/store/geo.rs:315-334 | merging keeps the union and leaves sorted ranges with a gap between any two |

## Left out

- LedgerRecovery.RecoveryIsExact: a run here moves its log to a fresh segment only when the old one is on disk or the roll syncs it; of the other runs WalDurability.RunSurvivesIff says that a crash can leave a log recovery refuses. The same guard stands in every result over runs of the ledger.
- Interleavings inside one ledger operation: building an effect's event releases the run lock before persisting, retention takes no locks, and truncation runs after the commit lock is released.
- I/O errors and the writer's error replies; every write and sync in the model succeeds or the machine crashes. The names of segment files.
- Durability of directory entries: creating or deleting a segment file takes effect at once.
- Snapshot files, their checksums and schema versions; a saved snapshot is an atomic pair of state and watermark. The encoding of ledger records as log payloads is taken as given.
- Saturating and overflowing 64-bit arithmetic on times, versions and counters.
- Listing, paging, exporting, statistics, counters and the API views of ledger records: easy members.
- Floating point: haversine distances, step estimation, coordinates to cells, NaN and negative zero or infinite scores. Scores are real numbers, cell indices come in as integers, and JSON numbers are identified with their text.
- GeoSearch.SearchRanges: takes the centre cell and the step as inputs, because both are computed in floating point. Shifts of Morton prefixes appear as products and quotients of integers; that the bit code computes these numbers is Morton.InterleaveWeaves.
- Glob.GlobMatch: case folding is left out, and both matchers work on characters; the recursive one in the source works on bytes, which differs for a question mark against a multi-byte character.
- Lexicographic ranges and random members of sorted sets: easy members beside the score ranges.
- Reading a consumer's own history, pending summaries, group and consumer information, destroying groups: easy queries and removals.
- A run of StreamRuns follows one consumer group; operations on other groups touch neither its state nor the entries.
- The rest of calod_shard.rs, whose size counter is not maintained by commands that create collections; its other commands are one-step wrappers.
- REST, TLS, RESP, configuration, metrics, HyperLogLog, directory, API keys and scripts.
