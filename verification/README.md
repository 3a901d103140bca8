# perima: job queue, scan, clock and hashing model

A Dafny model of the application-layer state machines of perima, a media indexer, and of the
small algorithms they rest on, with proofs of what they promise.

| file | what it models |
|---|---|
| `Transcription.dfy` | the transcription protocol as a step relation: Start calls (insert token, read queue length, try to send, remove on full), Cancel calls (take token, fire it), the worker (including the stamping of segment ids), and the writer's insert transaction with its primary key, all interleaving freely |
| `TranscriptionInvariants.dfy` | the invariant of that protocol, one preservation lemma per concern and process |
| `TranscriptionTheorems.dfy` | terminal events, persistence, segment ids, the cancellation window, token map, queue bounds |
| `TranscriptionVerdicts.dfy` | which terminal event a job gets, and why one fails when nothing breaks down |
| `TranscriptionLiveness.dfy` | no deadlock, termination of draining |
| `TranscriptionOrder.dfy` | Completed events come in enqueue order |
| `TranscriptionOvertaking.dfy` | what interleaving does to queue positions and to the order of events: exact formula, concrete runs |
| `TranscriptionMethods.dfy` | whole Start and Cancel calls with everybody else at work between their sections, the writer's insert loop, segment stamping, as methods |
| `ScanResolve.dfy`, `ScanTheorems.dfy` | resolving walked files through the identity cache, its agreement with hashing every file, and when a cached full hash is lost |
| `ScanReport.dfy` | the accounting loop |
| `IdentityCache.dfy` | the tombstoned cache table as a map |
| `Hlc.dfy` | the hybrid logical clock |
| `FullHashBatch.dfy` | concurrent full-hash batches and their cancellation, as a step relation |
| `FullHashMethods.dfy` | a whole cancel call, one file's compute and the batch loop, as methods |
| `StreamingHash.dfy` | the read loops of the content hasher |
| `Backfill.dfy` | the fingerprint backfill loop |
| `Collisions.dfy` | collision groups, marking, promotion |
| `Hex.dfy` | the hash text form |
| `VolumeList.dfy` | merging joined rows into volume records |
| `Prelude.dfy` | shared datatypes |

Assumptions.  Ids (UUIDv7) are fresh whenever minted; segment ids that an adapter assigns itself
are arbitrary.  Adapters and ports return, they do not panic.  A transaction that is dropped or
whose commit fails leaves the tables as they were.  The segment table may hold rows of earlier
processes, none with the nil id.  BLAKE3 is an arbitrary function of the absorbed bytes, a
memory-mapped update absorbs the whole file, and a parallel map keeps order.  During the scans
compared, the file systems do not change and equal stat triples on a volume mean equal content.
Port failures, cancellation sightings, short reads and interleavings are unconstrained: they are
inputs, nondeterministic choices, or actions that may be taken at any time.

## Where code and comments differ

The model follows the code.

- The writer actor's general pattern (crates/db/src/writer/mod.rs:11-31) is to emit, then reply, and
  the worker's comment (crates/app/src/transcription.rs:438-440) takes Completed as emitted once the
  reply is there. The transcript handler replies first (crates/db/src/writer/transcript.rs:70-81), so
  a job's Completed can come after the next job's Started and even its Failed.
  `FinishedHasTerminal` gives the exact condition, `CompletedCanBeOvertaken` an interleaving; among
  themselves Completed events keep the order (`CompletedInEnqueueOrder`).
- The stamping comment (crates/app/src/transcription.rs:390-392) says adapters set nil ids. The loop
  also lets ids through that an adapter assigned, and when one is taken the segment table's primary
  key refuses the whole transcript (`RefusedIffAdapterClash`); this is the one way a job fails with
  nothing broken down (`FaultFreeOutcome`), and it can happen (`AdapterCanClash`).
- `queue_position` is documented as the 1-based position at the moment of enqueue
  (crates/app/src/transcription.rs:94); it is the queue length read before the send, plus one. It
  exceeds the real place by the jobs the worker takes in between and falls short by those that get in
  first, so it is exact iff the length at the send is the length that was read (`PlaceTold`). Two
  waiting jobs can both be told 1 (`BothFirst`); in general it lies in 1..33 (`QueueBounds`).
  Likewise `QueueFull` is documented as carrying the number of jobs in the queue
  (crates/core/src/transcription.rs:216); it carries the earlier reading (`QueuedTold`).
- `Hlc::now` is described as monotonic; at the last packed value it steps back
  (`TickExact`, `IncreasingIffFits` give the exact point).
- The collision query is described as keeping fingerprints with at least one unmarked file; the
  statement needs two unmarked files. They differ exactly when one file of several is left unmarked
  (`RuleDiffersIff`; `OneUnmarkedIsNotEnough` shows one).
- Promoting a full hash rewrites the file row only, while the collision query matches locations by
  content hash, so a promoted file's locations leave its group unless they are filed under the new
  hash (`PromotionKeepsOnlyRefiled`; `PromotionCanDropFile` shows one). The content hash is the
  table's primary key: when another row has the new hash, promotion fails (`PromotionKeepsKeys`).
- The backfill is described as announcing every 100 processed rows; rows skipped on a boundary
  repeat the announcement (`RunBackfill` counts them, `SkippedRowRepeats` shows one), and
  `skipped_no_active_location` is never counted up.
- The cache port's comment says the scan soft-deletes stale rows; it does not. Its entry type says
  the full hash is filled in by the backfill worker (crates/core/src/ports/identity_cache.rs:53-55);
  nothing does, the scan being the cache's only writer and always storing none. So scans alone agree
  with each other (`NoFullStays`, `ScansAgree`). If something did fill it in, a lookup that fails
  while all else about the file goes well would erase it, and nothing else would
  (`FullHashSurvivesIff`); `SameResultIff` says when two passes in a row would then agree on a file,
  `LookupCostsFullHash` shows, from such a cache, a file whose content hash one failed lookup changes.
- The quick hash of a resolved file is never absent outside a dry run (`ResolveIsHashing`).

## Model

| member | source | states |
|---|---|---|
| TranscriptionInvariants.ReachableInv | crates/app/src/transcription.rs:210-444 | in every interleaving: ids started, the id in hand, and the queue are exactly the accepted ids in enqueue order; a waiting worker's command is in one place only; event counts match the stored transcripts; open transactions hold one partial transcript |
| TranscriptionTheorems.EventsAtAnyTime | crates/app/src/transcription.rs:210-444 | jobs start in enqueue order, no event of a job precedes its Started, no job has two terminal events, rejected and unknown jobs have no event |
| TranscriptionTheorems.ProgressPerReport | crates/app/src/transcription.rs:334-361 | in any run each adapter report about a job gives one Progress event of that job, and there are no others |
| TranscriptionTheorems.FinishedHasTerminal | crates/db/src/writer/transcript.rs:48-84 | a job the worker is done with has its one terminal event unless the writer is between replying and emitting, and a job without one is stored |
| TranscriptionTheorems.ExactlyOneTerminal | crates/app/src/transcription.rs:283-475 | at rest every accepted job was started once and has exactly one terminal event, Completed iff stored |
| TranscriptionVerdicts.CancelledOnlyIfFired | crates/app/src/transcription.rs:379-456 | if adapters report Cancelled only for fired tokens, so do the events |
| TranscriptionVerdicts.FaultFreeOutcome | crates/app/src/transcription.rs:309-444 | when no port, statement or writer breaks down: each accepted job ends stored and Completed, or Cancelled after its token fired, or Failed because a segment id its adapter assigned is taken; an uncancelled job fails exactly then |
| TranscriptionVerdicts.ClashFreeOutcome | crates/app/src/transcription.rs:309-444 | without such an id no job fails: each is stored and Completed, or Cancelled after its token fired and not stored |
| TranscriptionVerdicts.AdapterCanClash | crates/db/src/writer/transcript.rs:137-168 | some interleaving has the key refuse the second of two segments an adapter gave the same id, and the job Failed |
| TranscriptionVerdicts.ObstacleIsFinal | crates/app/src/transcription.rs:309-456 | each obstacle (no backend, adapter error, fired token seen at a check, failed statement, writer gone) settles its job: at rest its one terminal event is Cancelled or Failed as the obstacle says, and nothing is stored |
| TranscriptionTheorems.CommitIsAtomic | crates/db/src/writer/transcript.rs:89-171 | the tables change only by one whole new transcript, header and all segments, of the waiting job: the adapter's texts in order under the stamped ids, and no stored row has an id minted for it |
| TranscriptionTheorems.CompletedIffStored | crates/app/src/transcription.rs:390-444 | Completed is emitted for a job iff its transcript is committed (and not still owed); the stored rows have the adapter's texts in order, keep the ids it assigned, and have a non-nil id found nowhere else in the transcript where it left nil |
| TranscriptionTheorems.SegmentIdsAreKeys | crates/db/migrations/V012__transcripts.sql:39-40 | in every reachable state no two stored segments, earlier processes' included, share an id and none has the nil id |
| TranscriptionTheorems.RefusedIffAdapterClash | crates/app/src/transcription.rs:390-397 | the primary key refuses a segment iff the adapter itself assigned its id and a row of another transcript or an earlier segment of the answer has it; never a minted id |
| TranscriptionTheorems.CancelWindow | crates/db/src/writer/transcript.rs:100-170 | a job whose token has fired can still be stored, in some continuation, iff the writer has made its last check of the token and the key of a segment still to insert is free |
| TranscriptionTheorems.FiredNeverStored | crates/app/src/transcription.rs:399-405 | a token fired before the writer's last check keeps the job out of the tables in every continuation |
| TranscriptionTheorems.FiredNeverSubmitted | crates/app/src/transcription.rs:399-405 | a token fired before the worker's own check keeps the job from ever being handed to the writer |
| TranscriptionTheorems.TokensNeverLeak | crates/app/src/transcription.rs:218-298 | the map holds the tokens of exactly the jobs being started, queued or run that no Cancel has taken; at rest it is empty |
| TranscriptionTheorems.CancelReaches | crates/app/src/transcription.rs:252-266 | a Cancel of a job being started, queued or run gets the token and fires it, once |
| TranscriptionTheorems.CancelReachesStages | crates/app/src/transcription.rs:218-298 | stage by stage, from the insertion of the token until the worker lets go of the job or its Start is rejected, a first Cancel takes the token and fires it |
| TranscriptionTheorems.CancelIsNoOp | crates/app/src/transcription.rs:252-266 | Cancel of an id that is unknown, rejected, or that the worker has let go of changes nothing |
| TranscriptionTheorems.CancelTouchesOneToken | crates/app/src/transcription.rs:252-266 | Cancel of one id leaves every other job's token and everything else alone |
| TranscriptionTheorems.QueueBounds | crates/app/src/transcription.rs:225-290 | the queue holds at most 32; positions and sizes lie in 1..33; Enqueued is answered exactly for accepted jobs |
| TranscriptionLiveness.NeverStuck | crates/app/src/transcription.rs:283-298 | unless everything rests, some internal step is possible |
| TranscriptionLiveness.StepShrinks | crates/app/src/transcription.rs:283-444 | every internal step decreases a well-founded measure, whatever the ports answer |
| TranscriptionLiveness.EveryJobSettles | crates/app/src/transcription.rs:283-444 | from every reachable state internal steps lead to one where each accepted job was started and has one terminal event |
| TranscriptionOvertaking.PlaceTold | crates/app/src/transcription.rs:225-250 | whatever happens between length reading and send, the position told is the real place plus the jobs taken meanwhile minus those accepted meanwhile; exact iff both lengths agree |
| TranscriptionOvertaking.QueuedTold | crates/app/src/transcription.rs:225-245 | a rejected Start failed on a queue of exactly 32 and is told 32 plus the jobs taken meanwhile minus those accepted meanwhile; 32 iff it had counted 32 |
| TranscriptionOvertaking.BothFirst | crates/app/src/transcription.rs:225-250 | some interleaving leaves two jobs queued, both told position 1 |
| TranscriptionOvertaking.Enqueue | crates/app/src/transcription.rs:218-250 | an uninterrupted Start is told its exact 1-based place in the queue |
| TranscriptionOvertaking.Start | crates/app/src/transcription.rs:283-328 | uninterrupted, Started carries the number of jobs behind it plus one |
| TranscriptionOvertaking.CompletedCanBeOvertaken | crates/db/src/writer/transcript.rs:66-81 | some interleaving emits Started 1, Started 2, Failed 2, Completed 1 |
| TranscriptionOrder.CompletedInEnqueueOrder | crates/db/src/writer/transcript.rs:66-84 | in every interleaving Completed events come in the order the jobs were enqueued |
| TranscriptionMethods.TranscriptionUseCase.Start | crates/app/src/transcription.rs:212-250 | whatever the others do between its sections: answers Enqueued iff the job is accepted and last in the queue, else the job has no token, no place and no event; alone, the place is exact and a rejection leaves no trace |
| TranscriptionMethods.TranscriptionUseCase.Cancel | crates/app/src/transcription.rs:252-266 | gets the token iff the job is held and nobody cancelled it; on return the token has fired, and from then on the job can be stored iff the writer's last look is over |
| TranscriptionMethods.TranscriptStore.Insert | crates/db/src/writer/transcript.rs:89-170 | all or nothing; Inserted iff no statement fails, no look sees the token fired and no segment id is taken; Cancelled iff the first obstacle is a fired token; ids stay unique |
| TranscriptionMethods.StampSegments | crates/app/src/transcription.rs:393-397 | in place, the protocol's stamping: texts and assigned ids stay, nil ids become new ids found nowhere else in the transcript |
| ScanResolve.LookupPhase | crates/app/src/scan.rs:735-773 | hits and early errors in walk order, misses with their keys in walk order |
| ScanResolve.HashPhase | crates/app/src/scan.rs:775-787 | one hash task per miss, in order, none once its task sees the cancel |
| ScanResolve.StorePhase | crates/app/src/scan.rs:789-813 | outcomes of the misses in order, and exactly the fresh hashes that reach the cache |
| ScanResolve.ResolveWithCache | crates/app/src/scan.rs:724-815 | the three phases together: results, number of hash calls and final cache |
| ScanTheorems.ResolveIsHashing | crates/app/src/scan.rs:737-815 | a file fails only by its own bad luck, else carries its true fingerprint, and its true full hash when the cache has it |
| ScanTheorems.FailureCauses | crates/app/src/scan.rs:737-813 | which mishap each error stands for |
| ScanTheorems.HashTaskCovers | crates/app/src/scan.rs:776-786 | the bytes hashed for a miss, also when its size changed since the walk |
| ScanTheorems.HashCallsAt | crates/app/src/scan.rs:775-787 | one hash call for each file that misses and is not cancelled by then |
| ScanTheorems.EachFileOnce | crates/app/src/scan.rs:735-814 | every file appears in the output exactly once, settled files first, both groups in walk order |
| ScanTheorems.CacheStaysSound | crates/app/src/scan.rs:789-813 | a sound cache stays sound under any failures and cancellation |
| ScanTheorems.OtherPlacesUntouched | crates/app/src/scan.rs:824-832 | a scan touches no cache entry of another device or volume, even for equal stat triples |
| ScanTheorems.OtherPlacesStaySound | crates/app/src/scan.rs:824-832 | what the cache says about other volumes stays true |
| ScanTheorems.FinalCacheKeys | crates/app/src/scan.rs:789-813 | exactly which keys are live afterwards |
| ScanTheorems.SecondPassHashes | crates/app/src/scan.rs:740-771 | after any first pass, a second pass goes on to hash a file iff it is neither cancelled nor fails its stat, and its lookup fails, its size is out of range, or the cache had no entry for its key and the first pass stored none |
| ScanTheorems.RescanIsFree | crates/app/src/scan.rs:737-815 | after an error-free pass the rescan makes no hash call, keeps the cache, and gives every file the same path, hash and quick hash |
| ScanTheorems.FullHashSurvivesIff | crates/app/src/scan.rs:752-807 | a cached full hash outlives a pass, with its whole entry, iff no file of its key has a failed lookup and otherwise goes well |
| ScanTheorems.SameResultIff | crates/app/src/scan.rs:735-815 | two passes in a row that both resolve a file give it the same result iff its two hashes coincide, no full hash was cached or its size is out of range, or the first pass missed the entry exactly if the second misses it or finds it overwritten |
| ScanTheorems.NoFullStays | crates/app/src/scan.rs:794-799 | a pass puts no full hash into a cache that has none |
| ScanTheorems.ScansAgree | crates/app/src/scan.rs:735-832 | starting from an empty cache, whatever volumes are scanned and whatever goes wrong, all scans of a volume agree on every file they resolve: both its hashes are its fingerprint |
| ScanTheorems.LookupCostsFullHash | crates/app/src/scan.rs:763-807 | were a full hash in the cache, one failed lookup would change the file's content hash to its fingerprint from then on |
| ScanReport.PersistFile | crates/app/src/scan.rs:854-868 | content row first, location row only if that succeeded |
| ScanReport.Account | crates/app/src/scan.rs:534-617 | the report of these entries, and the repository gets exactly their calls in order, none in a dry run |
| ScanReport.ReportAccounts | crates/app/src/scan.rs:534-617 | that report counts every entry once as new, updated or errored; bytes, per-file lines, manifest, callbacks and metadata queue are exactly those of the resolved and persisted entries, in order; a dry run persists nothing |
| ScanReport.CallsAt | crates/app/src/scan.rs:854-868 | entry by entry, the content row with its hash and quick hash, then the location row with volume and path, and no other calls |
| ScanReport.ListsAt | crates/app/src/scan.rs:542-611 | entry by entry, what per-file lines, manifest and metadata queue hold |
| ScanReport.NotifiedAt | crates/app/src/scan.rs:573-575 | the persist callback is told the relative path of every persisted file, in order |
| ScanReport.CountersAt | crates/app/src/scan.rs:534-617 | entry by entry, which counter goes up: inserted, updated or unchanged, anything else; and the byte counter, modulo 2^64 |
| ScanReport.HashedBytesIsTotal | crates/app/src/scan.rs:546 | the byte counter is the total of the listed sizes modulo 2^64 |
| ScanReport.ManifestBounds | crates/app/src/scan.rs:542-617 | how many files are new, persisted, resolved and sent to the repository |
| ScanReport.Scan | crates/app/src/scan.rs:498-617 | resolution followed by accounting; in a dry run each file comes with its full hash and no quick hash, and cache and repository stay untouched |
| IdentityCache.InsertRepresents | crates/db/src/writer/cache.rs:119-143 | inserting a row for an absent key is map insertion |
| IdentityCache.RewriteRepresents | crates/db/src/writer/cache.rs:144-154 | updating the live row is map update |
| IdentityCache.BuryRepresents | crates/db/src/writer/cache.rs:179-190 | tombstoning the live row is map removal |
| IdentityCache.CacheTable.FindLive | crates/db/src/identity_cache_repo.rs:70-85 | a live row is found iff the key is present, and it is the only one |
| IdentityCache.CacheTable.Lookup | crates/db/src/identity_cache_repo.rs:62-98 | the entry of the key, or none; an error iff the database is down or the size does not fit |
| IdentityCache.CacheTable.Upsert | crates/db/src/writer/cache.rs:82-159 | on success the map gains exactly this entry, on error nothing changes |
| IdentityCache.CacheTable.SoftDelete | crates/db/src/writer/cache.rs:165-194 | on success the map loses exactly this key and the row stays as a tombstone |
| HybridClock.PackBijection | crates/core/src/hlc.rs:115-131 | pack and unpack are inverse between in-range values and non-negative i64 |
| HybridClock.PackIsOrderEmbedding | crates/core/src/hlc.rs:109-119 | packed order is (ms, counter) order |
| HybridClock.PackBitsIsPack | crates/core/src/hlc.rs:115-119 | mask, shift and or on 64-bit words are that arithmetic, bit 63 stays clear |
| HybridClock.UnpackBitsIsUnpack | crates/core/src/hlc.rs:126-131 | shift and masks are that arithmetic |
| HybridClock.Clock.Now | crates/core/src/hlc.rs:83-107 | on the raw reading: a later millisecond is taken over with counter 0, readings above 2^47 - 1 count as that, an earlier one or none is one tick; together the two-field clock refines the single-integer clock |
| HybridClock.TickExact | crates/core/src/hlc.rs:89-106 | a call is max(wall, previous + 1), and later than before, iff the clock is not at 2^63 - 1 |
| HybridClock.IdealIsMaxPlus | crates/core/src/hlc.rs:89-106 | closed form of the last reading over any wall readings |
| HybridClock.IncreasingIffFits | crates/core/src/hlc.rs:67-74 | all readings strictly increase iff that closed form fits in an i64, and then it is the last reading |
| HybridClock.DriftBound | crates/core/src/hlc.rs:83-107 | after n calls ms exceeds start and largest wall by at most ceil(n / 65536) |
| FullHashBatch.BatchEvents | crates/app/src/dedup.rs:126-195 | a batch reports a prefix of its files in order, report i carrying i + 1 of the number of files (both at most 4294967295) and that file's outcome, then one VerifyComplete; everything if never cancelled |
| FullHashBatch.FilesAsStarted | crates/app/src/dedup.rs:123-143 | a batch is there iff it was started, and works on the files it was started with |
| FullHashBatch.HeardIsGiven | crates/app/src/dedup.rs:241-281 | the answers a task records are exactly those its ports gave in the run, in order |
| FullHashBatch.NewBatchRuns | crates/app/src/dedup.rs:123-195 | a new batch can be started at any time and run to its end |
| FullHashBatch.UnknownBatchSilent | crates/app/src/dedup.rs:141-195 | no events for batches never started |
| FullHashBatch.ComputedIffStored | crates/app/src/dedup.rs:149-194 | the hashes reported as computed are exactly the successful writes of that batch, in order |
| FullHashBatch.StoredByAt | crates/app/src/dedup.rs:149-173 | each Computed outcome stands for one write, of its own file and hash, in the same order |
| FullHashBatch.OutcomeIff | crates/app/src/dedup.rs:241-281 | in every interleaving the i-th outcome of a batch is Computed(f, h) iff its lookup found the file, hashing gave h and the update succeeded; the exact answers behind each failure |
| FullHashBatch.CancelOnce | crates/app/src/dedup.rs:209-227 | cancel succeeds at most once, exactly while the task is there and not cancelled yet, and then fires the token; a finished task leaves none |
| FullHashBatch.CancelStopsBatch | crates/app/src/dedup.rs:144-147 | after the token fires, one more file is reported exactly when one is in hand, none otherwise |
| FullHashBatch.TurnsAreBounded | crates/app/src/dedup.rs:141-195 | in every run a task takes at most the steps it has left, whatever the ports answer and the others do, and has exited when it took them all |
| FullHashBatch.CanAdvanceIff | crates/app/src/dedup.rs:141-195 | a task can take a step iff it has not exited |
| FullHashBatch.TaskTerminates | crates/app/src/dedup.rs:141-195 | from every reachable state every task can run, by its own steps alone, to its exit, with its last event VerifyComplete |
| FullHashMethods.FullHashUseCase.CancelBatch | crates/app/src/dedup.rs:209-227 | succeeds iff the task is there and not cancelled yet; once it has returned, no continuation reports more than the file then in hand |
| FullHashMethods.ComputeOne | crates/app/src/dedup.rs:241-281 | the hash iff every port succeeds, and then it has been stored; which failure is reported |
| FullHashMethods.RunTask | crates/app/src/dedup.rs:126-195 | the loop reports and stores the outcomes of the files before the stop, report i carrying i + 1 of the number of files up to the u32 limit, then completes |
| StreamingHash.Absorb | crates/hash/src/blake3_service.rs:75-98 | the read loop absorbs min(limit, what is left) bytes whatever the read sizes, or reports a failed read |
| StreamingHash.HashFile | crates/hash/src/blake3_service.rs:222-245 | H of the first min(cap, length) bytes; an error iff an I/O call failed |
| StreamingHash.QuickHashPrefixSuffix | crates/hash/src/blake3_service.rs:59-102 | H of the bytes covered for the declared size; an error iff I/O failed or the seek falls before the file |
| StreamingHash.DeclaredSizeExact | crates/hash/src/blake3_service.rs:64-98 | exactly which declared sizes give the fingerprint of the real file |
| StreamingHash.FingerprintCoverage | crates/hash/src/blake3_service.rs:17-25 | the two regions are disjoint; what equal fingerprint input says about two files |
| StreamingHash.DispatchHash | crates/hash/src/blake3_service.rs:179-220 | every branch hashes the whole file; which regime is chosen when |
| Backfill.HandleRow | crates/app/src/backfill.rs:198-215 | one row: counters, write, announcement |
| Backfill.RunBackfill | crates/app/src/backfill.rs:155-231 | handled rows are processed or skipped, writes are those of the processed rows, nothing is left unannounced, and the exact number of announcements |
| Backfill.WritesAt | crates/app/src/backfill.rs:198-215 | row by row, the digest of the fingerprint bytes is written under the row's content hash iff neither port fails |
| Backfill.SkippedRowRepeats | crates/app/src/backfill.rs:212-221 | a hundred rows that go well and one that fails: the announcement is repeated once |
| Backfill.AnnouncedAfter | crates/app/src/backfill.rs:218-221 | every processed row has an announcement after it |
| Backfill.WindowBound | crates/app/src/backfill.rs:212-215 | no stretch between announcements has more than 100 processed rows |
| Collisions.ParseRow | crates/db/src/file_repo.rs:662-690 | a row yields its record iff status, size and hash are well formed |
| Collisions.StatusTexts | crates/db/src/file_repo.rs:667-678 | each of the four stored texts is its own status |
| Collisions.ListCollisions | crates/db/src/file_repo.rs:604-711 | an answer iff every row of every colliding fingerprint is well formed; one group per fingerprint with a location left, ascending |
| Collisions.ListingMeaning | crates/db/src/file_repo.rs:604-711 | listed iff two live unmarked files share the fingerprint and it has a live location; a group holds exactly the live locations of its live files |
| Collisions.GroupColumns | crates/db/src/file_repo.rs:632-690 | column by column, a group has a record for every live location joined to a live file of its fingerprint, with that file's id, size and hash and that location's volume and path, and no other |
| Collisions.GroupedColumns | crates/db/src/file_repo.rs:604-641 | column by column, which fingerprints have a group |
| Collisions.NoLocationTwice | crates/db/src/file_repo.rs:632-641 | a location is in one group |
| Collisions.FileTable.MarkVerifiedDistinct | crates/db/src/writer/file.rs:689-738 | flags exactly the live rows with the given ids and counts one per listed id that names one; an error iff a statement fails, and then nothing changes; no id, no transaction |
| Collisions.MarkingOnlyRemoves | crates/db/src/file_repo.rs:355-372 | a fingerprint stays iff two of its files remain unmarked; what stays keeps its locations |
| Collisions.RuleDiffersIff | crates/db/src/file_repo.rs:596-615 | the statement departs from its description exactly when one alone of several live files is unmarked, and then by not listing it |
| Collisions.OneUnmarkedIsNotEnough | crates/db/src/file_repo.rs:596-615 | two live files with live locations, one marked: meets the description, not listed |
| Collisions.FileTable.PromoteFullHash | crates/db/src/writer/file.rs:647-681 | rewrites the live row's hash, or changes nothing: no such row, another row has the hash, or a failed statement |
| Collisions.PromotionKeepsKeys | crates/db/migrations/V001__initial.sql:6-12 | promotion is refused exactly when going ahead would break the keys |
| Collisions.PromotionFrame | crates/db/src/writer/file.rs:647-681 | promotion changes the content hash of the one live row with the id, and nothing else |
| Collisions.PromotionRefusals | crates/db/src/writer/file.rs:662-677 | not found iff no live row has the id; refused iff one has and another row holds the hash |
| Collisions.PromotionKeepsOnlyRefiled | crates/db/src/writer/file.rs:647-681 | after a successful promotion a live location is found for the file iff it is filed under the new hash; the fingerprint collides as before |
| Collisions.PromotionCanDropFile | crates/db/src/file_repo.rs:632-641 | a listed file whose promotion leaves its group with the other file alone |
| Hex.NibbleCodec | crates/core/src/types.rs:97-114 | digits and nibbles correspond one to one, in order |
| Hex.HexAlphabet | crates/core/src/types.rs:55-63 | the characters are 0-9 and lowercase a-f, high nibble first |
| Hex.ToHex | crates/core/src/types.rs:55-63 | two lowercase digits a byte, high nibble first |
| Hex.ParseHex | crates/core/src/types.rs:71-88 | accepts exactly the hex forms of hashes and inverts them; else the length or the first bad position |
| Hex.HexInjective | crates/core/src/types.rs:55-88 | no two byte strings share a hex form |
| Hex.HexOrder | crates/core/src/types.rs:55-63 | hex string order is byte order |
| VolumeList.List | crates/db/src/volume_repo.rs:126-160 | an answer iff all rows are well formed; one record per volume in first-seen order, from its first row, with its non-null mounts in row order |
| VolumeList.RecordColumns | crates/db/src/volume_repo.rs:126-160 | column by column, a record is the first row of its volume |
| VolumeList.MountsAt | crates/db/src/volume_repo.rs:126-160 | row by row, which mounts a record has, in row order |
| VolumeList.Find | crates/db/src/volume_repo.rs:140 | a record with the id, if there is one |
| VolumeList.MergeUnique | crates/db/src/volume_repo.rs:126-160 | that description determines the answer |

## Left out

- TranscriptionTheorems.ExactlyOneTerminal: counts emission attempts; the event bus may drop events when subscribers lag.
- TranscriptionMethods.TranscriptionUseCase.Start: the queue is a plain bounded FIFO; a send to a vanished worker, which the source also answers with QueueFull, does not occur because the worker does not stop before the use case does.
- TranscriptionTheorems.CompletedIffStored: the search-index event emitted after Completed, timestamps, device and clock columns are not modelled.
- ScanReport.Account: files_errored and the other counters are unbounded; only the byte counter wraps.
- Collisions.ListCollisions: the order of locations inside a group (relative path, from the query) and the parsing of file and volume ids are not modelled; first_seen is omitted.
- HybridClock.Clock.Now: the process-wide clock is one object; its mutex makes calls atomic, so calls form a sequence.
- StreamingHash.File.Read: a file's bytes do not change while it is read.
- Backfill.RunBackfill: the rate limiter's waiting time; a cancel seen while waiting is a cancel before the row.
- Interleaved code (Start, Cancel, worker, writer; batches) is a step relation on values. The call methods run their sections on one object that holds that state; the separate mutex, channel and token objects, and the handles the worker keeps to them, are not modelled.
- Watcher and location-rename rules, sentinel migration, volume detection and mounting, metadata and thumbnail queues: separate subsystems.
- SQL engine, migrations, triggers, full-text search, connection pooling: statements appear as the tables' change or as a description of their answer.
- User interfaces, command-line dispatch, configuration, logging, media decoding, audio extraction and network adapters: I/O around the modelled code.
- Backup guard, tag normalization, path relativizing: thin checks that would add only easy members.
