# Verified model of kuttidb

kuttidb is a small C database. This project models, in Dafny 4.11, the parts of it that have to be right for
reasons that do not show in any one function, and proves what those parts promise:

- **the job engine**: durable keyed state, atomic job completions and idempotency receipts over the Queue
  write-ahead log, with crash recovery, checkpoints, delivery proofs, its hash and its record formats;
- **the embedded cache**: a first-fit heap and a sharded chained hash table over offsets in one shared-memory region;
- **the local cache**: sharded chains with doubling bucket arrays, deadlines, an expiry sweep and paged scans;
- **the management API's bounded parts**: the mutation rate limiter, the keyset-paged inventories and the
  reversible identifiers.

`dafny verify dfyconfig.toml` checks everything.

## How it is laid out

The job engine is modelled twice. `JobEngine` is a class with the source's fields, counters and loops; each of its
methods is proved equal to a function in `JobAdmission`, `JobImage` or `JobCheckpoint`. `JobRuns` is a state machine
whose steps are those functions: direct mutations, the four phases of a completion in any interleaving of threads,
deliveries, garbage collection, first attachment, checkpoints in two phases, crashes with an append of unknown
durability, and restarts. `JobRefinement` proves that the class's mutations, completions, opening and checkpoints are
the machine's steps; a collection pass is the same function in both. Over every run `JobFencing` keeps threads, Queue
locks and proofs apart (`FencedRun`) and `JobSafety` keeps log, memory and ledger sound (`RunSound`); on runs in which no
checkpoint is published over newer commits, memory moreover mirrors the committed history (`JobMirror`, `RunKeeps`).
`JobTheorems`, `JobOnce`, `JobLedger` and `JobBudget` read the promises off these, `JobOutcomes`, `JobRetention` and
`JobEffects` say in the request's and the engine's own fields who is admitted, for how long and with what effect, and
`JobLimits` and `JobWitness` show where the promises stop. A row says "covered run" where it needs the mirror, and
"every run" where it does not. The caches are classes over the source's own memory (block headers, chain words,
counters), each proved against a value-level description (`EmbeddedRegion`, `LocalTable`) whose steps preserve an
invariant.

| part | files |
|---|---|
| bytes, arithmetic, sums, counters | `Bytes`, `Arithmetic`, `PowersOfTwo`, `MapSum`, `Ticks` |
| SHA-256 and the intent digest | `BlockStream`, `Sha256`, `Sha256Tables`, `Sha256Vector`, `JobIntent` |
| log records | `JobRecord`, `JobEncode` |
| replay, checkpoints, history | `JobImage`, `JobCheckpoint`, `JobHistory` |
| admission, runs, safety | `JobAdmission`, `JobOutcomes`, `JobReservations`, `JobCore`, `JobMirror`, `JobRuns`, `JobFencing`, `JobSafety` |
| promises and their limits | `JobRetention`, `JobTheorems`, `JobEffects`, `JobOnce`, `JobLedger`, `JobBudget`, `JobLimits`, `JobWitness` |
| the engine and its refinement | `JobEngine`, `JobRefinement` |
| embedded cache | `LinkedWords`, `EmbeddedRegion`, `EmbeddedSteps`, `EmbeddedSweep`, `EmbeddedCache`, `EmbeddedPlan` |
| local cache | `LocalTable`, `LocalSteps`, `LocalSweep`, `LocalCache`, `LocalRuns`, `LocalPaging` |
| management API | `RateLimiter`, `Selection`, `KeyOrder`, `DurableInventory`, `ReceiptInventory`, `Base64`, `RouteIds` |

## Where the code does not keep a promise

Each is modelled as the code has it, with an input that shows it and the exact condition under which the promise
holds.

1. A checkpoint writes a receipt's kind where replay expects the record format (src/job_state.c:1435-1436 against
   src/queue.c:1848), so only completion receipts come back: a checkpoint taken while the receipt of a put or delete
   is live ends in a store that does not open. `CheckpointReplay`, `Recovery` and `CrashRecovery` are stated as
   equivalences with that condition; `CheckpointAfterPut` is a three-step run that shows it.
2. An operation id used twice on one log makes replay refuse to open. `Recovery` makes "no id twice" the other half
   of its condition.
3. A completion checks the ledger for its operation id, releases the lock and prepares later without looking again.
   Whoever commits the same id in between, a direct mutation or a completion on other Queues, overtakes it; if it then
   still reaches the log, the id is there twice and the store does not open again (`OvertakenCommitsTwice`, with the
   runs `PutOvertakes` and `CompletionOvertakes`). On every run in which no completion that reached the log was
   overtaken, effects happen at most once: every commit's receipt is in the ledger, and an id commits again only
   one retention after it completed (`AtMostOnce`). While receipts last, a completion's receipt is linked if and only if
   nobody overtook it (`CompletionLinkedIff`).
4. A direct mutation takes only the state lock, so it can commit to the old log after a checkpoint's cut. Publishing
   the checkpoint then loses it, and its version and commit id are issued again after a restart
   (`UncoveredPublishLoses`; `VersionIssuedTwice` is a run in which one key shows two values under one version). A
   deleted entry comes back beside what was admitted in its place, so the state can outgrow its budget
   (`RestartExceedsBudget`): a restart leaves it within the budget if and only if the checkpoint's state and what the
   commits after it add fit (`RestartInBudgetIff`), which on covered runs they always do (`CoveredInBudget`). A step
   takes applied history back if and only if it publishes a checkpoint over newer commits (`StepExtends`). Promises
   that fail on such runs are stated for covered runs; fencing, retries, at-most-once effects, the ledger's caps and
   the condition for reopening hold on every run.
5. A completion record can be 21 bytes longer than the bound its request was admitted under. Every validated
   completion replays if and only if the operation bound leaves those 21 bytes below the log's record limit
   (`CompletionsReplayIff`, `OversizedCompletion`); the configuration of a run is assumed to. Otherwise such a record
   reads as corrupt: at the end of the log it is cut off, so the store opens as if the completion had never been
   acknowledged, and before anything else it keeps the store from opening (`OversizedIsDropped`).
6. The receipt inventory looks for its largest kept receipt from the second place on, so a page can miss receipts:
   it is right for every order of the ledger if and only if it keeps one, or at most one match does not fit
   (`ReceiptsSelectedIff`).
7. Shrinking a directly allocated local entry in place leaves the difference charged when the entry is freed. After
   any operations in a row the byte counter is exact if and only if none of them was a put that did so
   (`LocalRuns.Run`, `ShrinkThenDelete`).
8. Identifiers decode from more than one text: an accepted text is the canonical one if and only if the spare bits of
   its last digit are zero (`CanonicalIff`, `RouteIdCanonicalIff`, `TwoTexts`).
9. The allocation guard of the embedded heap lets through fifteen sizes for which rounding up wraps to zero
   (`NeedCovers`); no caller asks for them.
10. Replay enters every receipt on the log, whatever the ledger's caps and however long ago it expired. A restart
    leaves the ledger within its caps if and only if the checkpoint's receipts and one for every commit after it fit
    them (`RestartFitsIff`); `RestartExceedsCap` is a run that ends with two receipts under a cap of one. Everything
    else keeps the caps (`LedgerStaysInBudget`).
11. A local lookup that finds its key expired releases the read lock and comes back with the write lock to remove it,
    without looking at the deadline again (src/kuttidb.c:481-496). A value put in between is lost (`LostPut`); the
    removal is what the deadlines allow if and only if the key is still expired then, or gone (`ReapRightIff`).
12. The embedded sweep hashes its ticket to pick a shard (src/embed_kuttidb.c:408) but counts through the buckets with
    the ticket itself, so as many tickets as buckets do not reach every bucket: the first 512 tickets over two shards
    miss one that may hold an expired entry (`RoundMisses`). A round reaches a bucket if and only if one of the tickets
    that count to it is hashed to its shard (`RoundReachesIff`). The local sweep does reach every bucket (`SweptAll`).
13. The comment at src/job_state.c:201-209 and the design document lay the intent's pre-image out with its spans
    interleaved; the code writes an 85-byte fixed header first and the spans after it. The model follows the code.

## Model

| member | source | states |
|---|---|---|
| Bytes.LERoundTrip | src/job_int.h:221-249 | a number that fits its little-endian field is read back unchanged |
| Bytes.LEByte | src/job_int.h:221-249 | byte number i of a field is the one that counts in units of 256 to the power of i |
| Bytes.PutLE | src/job_int.h:221-249 | the field writers put exactly the little-endian bytes and touch nothing else |
| Bytes.GetLE | src/job_int.h:241-249 | the accumulating reader returns the number the bytes spell |
| Sha256.Stream.Update | src/job_state.c:109-124 | absorbing appends exactly the data to what was absorbed, whatever the buffer held, and counts bits modulo 2^64 |
| Sha256.Stream.Pad | src/job_state.c:126-135 | the padding loop ends with eight bytes to go and has absorbed 0x80 and the least zeros (section 5.1.1 of FIPS 180-4) |
| BlockStream.PaddingShape | src/job_state.c:126-145 | the padding of any message is 0x80, only zeros and its bit length modulo 2^64 as eight big-endian bytes, and none that fills the block is shorter |
| Sha256.Stream.Final | src/job_state.c:126-145 | the digest is the block fold over everything absorbed plus its padding, compressed by the in-place loop |
| Sha256.FillSchedule | src/job_state.c:71-82 | the in-place message schedule is the recurrence of section 6.2.2 of FIPS 180-4 |
| Sha256.CompressBlock | src/job_state.c:71-98 | the loop over working variables is the standard's compression function; its constants, its rotation and a whole digest are checked below |
| Sha256.HashParts | src/job_state.c:147-154 | hashing parts is hashing their concatenation, however it is split, with the digest of abc the known one |
| Sha256Tables.FirstPrimes | src/job_state.c:47-58 | the table of primes the constants are checked against is the first sixty-four, each the next after the one before |
| Sha256Tables.RoundConstants | src/job_state.c:47-58 | the round constants are the first 32 bits of the fractional parts of the cube roots of those primes (section 4.2.2 of FIPS 180-4) |
| Sha256Tables.InitialHash | src/job_state.c:100-107 | the initial hash is the first 32 bits of the fractional parts of the square roots of the first eight (section 5.3.3) |
| Sha256Tables.RorBit | src/job_state.c:67-69 | bit i of a word rotated right by n is bit i + n of the word, counted around |
| Sha256Vector.HashAbc | src/job_state.c:71-154 | the digest of the message abc, through its padding, schedule and sixty-four rounds, is the one FIPS 180 gives |
| JobIntent.ParsePreimage | src/job_state.c:211-288 | the hashed pre-image starts with its tag, flags input and output with one or zero, and can be read back: nothing of the request is lost |
| JobIntent.PreimageInjective | src/job_state.c:211-288 | different requests never hash the same bytes |
| JobIntent.CanonicalDigest | src/job_state.c:211-288 | the in-place header and span list hash to the digest of that pre-image |
| JobRecord.ParseStatePayload | src/job_state.c:724-744 | a state record is read back exactly, or refused exactly when its fields are out of range |
| JobRecord.ParseCompletionPayload | src/queue.c:1573-1740 | a completion record is read back exactly, with every digest field, or refused when the output name is too long |
| JobRecord.DecodeEncode | src/queue.c:1801-1930 | a record comes back from the log unchanged if and only if it is replayable, and is never misread |
| JobRecord.DirectReceiptIsRefused | src/job_state.c:1426-1464 | a checkpointed put or delete receipt is refused by replay |
| JobEncode.EncodeState | src/job_state.c:728-744 | the encoder fills exactly its computed length with the record |
| JobEncode.EncodeCompletion | src/job_completion.c:352-403 | a short buffer is refused; otherwise exactly the computed length is filled with the record |
| JobEncode.EncodeReceipt | src/job_state.c:1426-1464 | the checkpoint's receipt writer fills exactly the record, kind first |
| JobImage.ReplayCommit | src/job_state.c:1281-1349 | replaying a commit's record does what the live commit did, with the digest recomputed equal to the live one; a reused id refuses |
| JobImage.ReplayAgain | src/job_state.c:655-687 | a record that was already replayed is accepted again and changes nothing |
| JobImage.ReplayConcat | src/queue.c:1801-1930 | replaying a log in two pieces is replaying it whole |
| JobCheckpoint.CheckpointReplay | src/job_state.c:1389-1469 | replaying a checkpoint gives the same state, versions, ids and marks and exactly the live receipts, if and only if those are completions; else it refuses |
| JobHistory.VersionPinsEntry | src/job_state.c:895-912 | a key that still shows an old version was not touched since |
| JobHistory.TailReplay | src/job_state.c:1281-1349 | the log after the last checkpoint replays to exactly its commits, or refuses exactly when an id is reused |
| JobHistory.TailReceipts | src/job_state.c:1281-1368 | replay keeps every earlier receipt and gains every commit's own, unchanged |
| JobAdmission.PutFootprint | src/job_state.c:477-542 | a put changes the state footprint by exactly its planned growth |
| JobAdmission.DeleteFootprint | src/job_state.c:578-589 | a delete gives back exactly the entry's footprint |
| JobAdmission.FnvVectors | src/job_state.c:420-430 | the bucket hash of the receipt ledger is 32-bit FNV-1a on its known answers |
| JobOutcomes.Defaults | src/job_state.c:305-310 | an option left zero is 64 MiB, 64 MiB, 100000 receipts, a day and 128 KiB, and one that is set stays |
| JobOutcomes.MalformedDirect | src/job_state.c:985-1010 | a put or delete is refused as invalid if and only if its key is empty, its id zero or a delete names no version, and otherwise as too large if and only if key, value and 64 bytes exceed the bound; nothing changes |
| JobOutcomes.MalformedCompletion | src/job_completion.c:447-486 | a completion is refused as invalid if and only if a name, the key, the id, an incarnation or the message is missing or a name too long; then as unsupported without a log, unavailable without an identity, too large beyond the bound |
| JobOutcomes.ExhaustedLatches | src/job_state.c:941-945 | when the marks run out the engine latches and refuses instead of wrapping around |
| JobOutcomes.NoMemory | src/job_state.c:952-983 | without memory for its receipt a mutation is refused, and only its version and commit id are spent |
| JobOutcomes.PutAdmittedIff | src/job_state.c:895-939 | a put that nothing else hinders is reserved if and only if it creates an absent key or names the version the key has; otherwise it is a version conflict that changes nothing |
| JobOutcomes.PutExhaustedIff | src/job_state.c:914-939 | a put of the right version runs out of room if and only if the state would outgrow its budget and what it was, or the ledger its caps even after a collection |
| JobOutcomes.DeleteAdmittedIff | src/job_state.c:895-912 | a delete that nothing else hinders is reserved if and only if the key has the version it names; an absent key is not found, another version a conflict |
| JobOutcomes.DirectIsCurrent | src/job_state.c:873-912 | whatever is reserved is of an id without receipt or doubt, and creates an absent key or names the version the key has |
| JobOutcomes.DirectAnew | src/job_state.c:985-1091 | whatever is acknowledged anew was so, and did what it says under the next version and commit id |
| JobOutcomes.DirectCarries | src/job_state.c:941-956 | a reserved mutation carries its request, the next version and commit id, the clock it was given and a deadline one retention later |
| JobOutcomes.Charges | src/job_state.c:914-939 | an entry is charged 160 bytes over its key and value, a receipt 248 over its queue names |
| JobOutcomes.CompletionAdmittedIff | src/job_completion.c:242-350 | with room and marks to spare a completion is reserved if and only if it names the version the key has, or creates it, and its proof is of this epoch, queue, incarnation and message with time left; the first that fails is the answer, and nothing changes |
| JobOutcomes.UnboundIsNotReserved | src/job_completion.c:300-316 | whatever else holds, nothing is reserved without such a proof |
| JobOutcomes.CompletionCarries | src/job_completion.c:318-345 | a reserved completion carries its request, the next version and commit id, the id of its output message if it has one, the clock it was given and a deadline one retention later |
| JobOutcomes.ForeignDelivery | src/job_completion.c:533-548 | a completion no receipt answers whose proof is missing, or names another queue, incarnation or message, is not owned, and engine and log stay as they are |
| JobOutcomes.QueueRefuses | src/job_completion.c:589-608 | a completion that holds its delivery but that the Queue refuses is told the Queue's reason, or that its delivery expired, and nothing changes |
| JobOutcomes.CompletionAnswered | src/job_completion.c:447-613 | with room to spare, a completion that holds its delivery is a version conflict, an expired delivery, acknowledged or in doubt, exactly as the key's version, the proof's time and the append decide; a refusal changes nothing |
| JobOutcomes.LatchedRefuses | src/job_completion.c:515-524 | after an append of unknown durability its id is answered with doubt and every other new one with unavailability, and nothing changes |
| JobOutcomes.AcknowledgedIsOwned | src/job_completion.c:405-423 | a completion acknowledged anew had a live proof of its very delivery, which is gone afterwards |
| JobOutcomes.UnboundWritesNothing | src/job_completion.c:294-316 | without one, log and state stay as they are |
| JobOutcomes.ExpiredDelivery | src/job_completion.c:590-607 | a completion not owned is told that it expired if and only if its proof is of its very delivery and has run out |
| JobCore.Recovery | src/queue.c:1801-1930 | a log replays to what its base and the commits after it amount to, if and only if no id is twice on it and the last checkpoint carried completions only; a base that stands for the history it replaced gives the whole committed state |
| JobCore.CommitKeeps | src/job_state.c:985-1038 | a commit keeps log, memory, ledger and marks sound, whether its append is acknowledged or fails with the record kept or lost |
| JobCore.CutKeeps | src/job_state.c:1389-1424 | taking a checkpoint's cut keeps them so |
| JobCore.PublishKeeps | src/queue.c:3560-3600 | replacing the log by the checkpoint keeps them so, even over commits made since the cut |
| JobCore.CrashKeeps | src/job_state.c:985-1091 | so does a crash, with an unresolved record on the log or not |
| JobCore.RestartKeeps | src/job_state.c:1281-1385 | so does a restart |
| JobMirror.CommitMirrors | src/job_state.c:985-1038 | a commit that fits the budget leaves memory showing exactly the history, with no receipt but its commits' |
| JobMirror.PublishMirrors | src/queue.c:3560-3600 | so does a publication with nothing committed since its cut |
| JobMirror.RecoveredShows | src/job_state.c:1281-1385 | what a restart recovers shows exactly the history, if the base did |
| JobReservations.DirectReserved | src/job_state.c:873-983 | a reserved direct mutation is new to the ledger, passed its version check, fits the state budget and both ledger caps, and is well formed and numbered above every mark |
| JobReservations.PrepareReserved | src/job_completion.c:242-350 | a prepared completion passed its version check, fits, and names a registered proof whose epoch, queue, incarnation and message are the engine's and the request's and whose time has not come |
| JobFencing.ProofIsUnused | src/job_completion.c:405-423 | a proof that matches under the Queue lock has backed no commit |
| JobFencing.FencedStep | src/job_completion.c:447-613 | every step of every kind keeps Queue locks exclusive, requests validated and used proofs fenced, whatever log and memory hold |
| JobFencing.FencedRun | src/job_completion.c:447-613 | so does every run of any length |
| JobSafety.StepSound | src/job_completion.c:447-613 | every step of every kind keeps log, memory, ledger and identity sound |
| JobSafety.RunSound | src/job_completion.c:447-613 | so does every run of any length |
| JobSafety.StepKeeps | src/job_completion.c:447-613 | a covered step keeps memory a mirror of the history too |
| JobSafety.RunKeeps | src/job_completion.c:447-613 | so does every covered run |
| JobTheorems.CrashRecovery | src/job_state.c:1281-1385 | after a crash anywhere in every run the store reopens if and only if the condition holds; on a covered run with exactly the committed state, the operation in doubt wholly there or wholly absent, and every unexpired receipt of memory back unchanged |
| JobRetention.StepAdds | src/job_state.c:941-950 | every step keeps a beginning of the history or adds one commit, completed at the clock the step was given and to be forgotten one retention later |
| JobRetention.RunRemembers | src/job_completion.c:318-323 | so every commit of a run's history was completed at a clock one of its steps was given, with its deadline one retention later |
| JobRetention.ClockIsGiven | src/job_state.c:788-811 | receipts are only collected or cut at clocks the steps were given |
| JobTheorems.Retention | src/job_state.c:941-950 | both of every run of a new store, with the retention of a day if none is configured |
| JobTheorems.RetryReturnsOriginal | src/job_state.c:873-893 | on every run, until one retention after it completed, repeating a commit of the log's history, directly or as a whole completion, answers with the original receipt and changes nothing |
| JobTheorems.ReusedIdConflicts | src/job_state.c:873-893 | on every run, until one retention after a commit completed, its id with another request is a conflict that changes nothing and wins over every other check |
| JobTheorems.VersionsGrow | src/job_state.c:941-947 | on every run versions and commit ids strictly increase along the history the log stands for, and memory's marks are above them |
| JobTheorems.StepExtends | src/queue.c:3497-3580 | a step takes applied history back if and only if it publishes a checkpoint over commits made since its cut |
| JobTheorems.HistoryExtends | src/job_state.c:985-1091 | over a covered run applied history is never taken back by later steps, crashes, restarts or checkpoints |
| JobTheorems.NoAba | src/job_state.c:895-912 | on a covered run a mutation expecting a version read earlier is admitted only if nothing committed to the key since |
| JobTheorems.ProofsBackOneCommit | src/job_completion.c:405-423 | over every run no proof backs two commits |
| JobTheorems.QueuesExclusive | src/queue.c:3117-3163 | on every run no two completions hold a Queue in common, to read from or to write to |
| JobTheorems.FailedAppendIsFinal | src/job_state.c:1013-1038 | an append that is not acknowledged leaves the state as it was, the engine failed with its id in doubt, and the log failed |
| JobTheorems.FailedLogIsFinal | src/queue.c:845-902 | from then on nothing is committed until the store is opened again |
| JobTheorems.CompletionNeedsProof | src/job_completion.c:300-316 | on every run a completion reaches the log only with a registered proof, unused until then and with time left, whose epoch, queue, incarnation and message are the engine's and the request's; it is then one more commit, backed by that proof |
| JobEffects.PutCommits | src/job_state.c:985-1091 | a put with nothing else in its way that creates an absent key or names the version the key has commits: value, version, commit id and receipt are spelled out, memory, log and history grow by it |
| JobEffects.DeleteCommits | src/job_state.c:985-1091 | so does a delete that names the version the key has, and the key is gone |
| JobEffects.ReadThenWriteCommits | src/job_state.c:895-1091 | wherever a covered run ends, updating a key at the version just read commits, and so does deleting it |
| JobEffects.CompletionCommits | src/job_completion.c:318-423 | so does a completion with a live proof of its delivery; its receipt names both queues, the message consumed and the message put out |
| JobEffects.ForeignProofWritesNothing | src/job_completion.c:294-316 | a completion step whose proof is missing, of another epoch, queue, incarnation or message, or run out, changes neither history nor log nor state |
| JobOnce.AtMostOnce | src/job_completion.c:222-350 | on every run in which no completion that reached the log was overtaken since its recheck, every commit of the log's history can be retried, and no id commits again until a step was given a clock one retention after it completed |
| JobOnce.CompletionLinkedIff | src/job_completion.c:222-240 | on every run, while receipts of its id last, a completion's receipt is linked if and only if nobody committed its id since its recheck |
| JobOnce.OvertakenCommitsTwice | src/job_completion.c:222-350 | on every run, an overtaken completion that reaches the log puts its id there twice, and the store does not open again |
| JobOnce.HeldStep | src/job_completion.c:222-240 | every step keeps that a held id has no receipt until it is overtaken, and that the first to overtake it was linked |
| JobLedger.DirectFits | src/job_state.c:914-939 | a direct mutation keeps the ledger within its caps, and an acknowledged one leaves it so |
| JobLedger.CompletionFits | src/job_completion.c:267-292 | so does a completion |
| JobLedger.RestartFitsIff | src/job_state.c:1281-1385 | a restart leaves the ledger within its caps if and only if the checkpoint's receipts and those of the commits after it fit |
| JobLedger.LedgerStaysInBudget | src/job_completion.c:267-292 | on every run whose restarts found a log that fits, the ledger stays within its count and byte caps |
| JobBudget.DirectInBudget | src/job_state.c:914-939 | a direct mutation leaves the state within its budget or no larger than it was |
| JobBudget.CompletionInBudget | src/job_completion.c:266-280 | so does a completion |
| JobBudget.RestartInBudgetIff | src/job_state.c:1281-1315 | a restart leaves the state within its budget if and only if the checkpoint's state and what the commits after it add fit |
| JobBudget.StateStaysInBudget | src/job_state.c:914-939 | on every run whose restarts found a log that fits, durable state stays within its budget |
| JobBudget.CoveredInBudget | src/job_state.c:914-939 | on a covered run the log always fits, and durable state never outgrows its budget |
| JobRefinement.DirectIsStep | src/job_state.c:985-1091 | a direct mutation of the engine is one step of the runs |
| JobRefinement.CommitIsStep | src/job_completion.c:352-423 | committing a prepared completion is one step, its latch or retirement the next |
| JobRefinement.CompleteIsRun | src/job_completion.c:447-613 | a completion nothing interleaves with is exactly its four steps |
| JobRefinement.OpensAsReplayed | src/queue.c:1825-1840 | no record of a run's log reads as corrupt, so opening it cuts nothing off |
| JobRefinement.OpenIsStep | src/queue.c:1801-1930 | a restart is a fresh engine over exactly what opening the log yields |
| JobRefinement.CheckpointIsSteps | src/queue.c:3497-3600 | a cut and its publication leave the log exactly as the emitted checkpoint |
| JobLimits.UncoveredPublishLoses | src/queue.c:3497-3580 | publishing a checkpoint over newer commits restores the history of the cut only, with marks below every version and commit id they were given |
| JobLimits.CheckpointWindowLosesCommit | src/queue.c:3497-3580 | the first direct mutation admitted between cut and publication is acknowledged, and what the published log restores is the state before it, not after |
| JobLimits.CommitChangesState | src/job_state.c:524-589 | a commit above the version mark always changes the state |
| JobLimits.CompletionRecordFits | src/job_completion.c:190-195 | a completion record is at most 21 bytes over its request's aggregate, and survives replay if and only if it is within the record limit |
| JobLimits.OversizedCompletion | src/job_completion.c:190-195 | any bound within 20 bytes of the record limit admits a completion that does not replay |
| JobLimits.CompletionsReplayIff | src/job_completion.c:190-195 | every validated completion replays if and only if the bound leaves 21 bytes below the record limit |
| JobLimits.OversizedIsDropped | src/queue.c:1825-1944 | an oversized completion at the end of the log is cut off on opening, and anywhere else keeps the store from opening |
| JobLimits.SixtyFourPassesCollectAll | src/job_state.c:788-811 | sixty-four passes at one time remove every receipt whose deadline is not after it and no other |
| JobWitness.CheckpointRefusesOpen | src/job_state.c:1426-1464 | any checkpoint taken while a direct receipt is live ends in a log that does not open |
| JobWitness.CheckpointAfterPut | src/job_state.c:1426-1464 | one put, one checkpoint and one crash do |
| JobWitness.PutOvertakes | src/job_completion.c:222-350 | a run in which a put and a completion with one id are both acknowledged and the store does not open again |
| JobWitness.CompletionOvertakes | src/job_completion.c:222-350 | a run in which two completions on different queues are |
| JobWitness.RestartExceedsCap | src/job_state.c:1281-1368 | a run that restarts with two receipts under a cap of one |
| JobWitness.RestartExceedsBudget | src/job_state.c:1281-1315 | a run that restarts with two entries under a budget for one |
| JobWitness.VersionIssuedTwice | src/queue.c:3497-3580 | a run in which one key shows two values under one version and commit id |
| JobEngine.QueueLog.AppendSync | src/queue.c:845-902 | an append is acknowledged with the record last on the log, or latches the log with the record kept or lost |
| JobEngine.JobEngine.ReceiptGc | src/job_state.c:788-811 | one pass removes exactly the expired receipts of the buckets it visits and keeps both counters exact |
| JobEngine.JobEngine.LinkReceipt | src/job_state.c:689-702 | linking keeps the receipt count and byte counter equal to the ledger's |
| JobEngine.JobEngine.PutEntry | src/job_state.c:498-576 | applying a put charges exactly the growth |
| JobEngine.JobEngine.DeleteEntry | src/job_state.c:578-589 | applying a delete releases exactly the entry |
| JobEngine.JobEngine.MakeRoom | src/job_state.c:914-939 | when the ledger is full one collection pass is tried, and the answer is whether there is room then |
| JobEngine.JobEngine.Admit | src/job_state.c:873-983 | admission in the source's order: receipt, failure, version, budgets, marks, allocation; what is reserved is new and creates an absent key or names the version the key has |
| JobEngine.JobEngine.Mutate | src/job_state.c:985-1091 | a put or delete is exactly the specified transition, result, log and counters included; acknowledged anew, it was of a new id at the version the key had, and leaves the value, or nothing, under the next version |
| JobEngine.JobEngine.LookUpCompletion | src/job_completion.c:500-524 | the first lookup answers replays and conflicts before anything else |
| JobEngine.JobEngine.PrepareCompletion | src/job_completion.c:242-350 | prepare is exactly the specified transition, and reserves nothing without a live proof of this very epoch, queue, incarnation and message |
| JobEngine.JobEngine.CompleteJob | src/job_completion.c:447-613 | a whole completion is exactly the specified transition; acknowledged anew it had a live proof of this very delivery, which is gone; with none that names the delivery it is not owned, and engine and log stay as they are |
| JobEngine.JobEngine.Open | src/queue.c:1801-1944 | opening cuts off corrupt records at the end and applies the rest record by record, or refuses exactly when a corrupt record precedes an intact one or replay refuses |
| JobEngine.JobEngine.EmitCheckpoint | src/job_state.c:1389-1469 | the emitted records are exactly the checkpoint's frames |
| LinkedWords.ChainUnique | src/embed_kuttidb.c:254-296 | the words in memory determine the list they spell |
| LinkedWords.Removed | src/embed_kuttidb.c:144-151 | storing an element's successor where it was referred to removes just it |
| EmbeddedPlan.PlanShards | src/embed_kuttidb.c:192-199 | the shard count is the least power of two of at least two and the request, or none fits |
| EmbeddedPlan.Plan | src/embed_kuttidb.c:189-237 | a layout that is accepted keeps header, shard records and bucket arrays apart and inside the region, and is sound whenever its shard bits fit the 32-bit hash |
| EmbeddedCache.NeedCovers | src/embed_kuttidb.c:84-87 | the rounded block size covers the request if and only if it is not one of the last fifteen sizes, and is then the least multiple of sixteen that does |
| EmbeddedCache.FitsIff | src/embed_kuttidb.c:90-116 | a block can be had if and only if some free block or the unused end is large enough |
| EmbeddedCache.EmbeddedCache.constructor | src/embed_kuttidb.c:206-236 | a new region is empty, sound and exactly accounted |
| EmbeddedCache.EmbeddedCache.SearchFree | src/embed_kuttidb.c:90-112 | the walk stops at the first free block large enough |
| EmbeddedCache.EmbeddedCache.HeapAlloc | src/embed_kuttidb.c:84-126 | allocation succeeds if and only if a free block or the unused end fits, takes the first fit, and otherwise changes nothing |
| EmbeddedSteps.TakeFreeKeeps | src/embed_kuttidb.c:99-108 | unlinking a free block keeps blocks disjoint, lists acyclic and bytes conserved |
| EmbeddedSteps.GrowKeeps | src/embed_kuttidb.c:113-125 | so does cutting a block off the unused end |
| EmbeddedSteps.ReleaseKeeps | src/embed_kuttidb.c:128-142 | so does freeing a block |
| EmbeddedCache.EmbeddedCache.Detach | src/embed_kuttidb.c:128-151 | unlinking, freeing and counting down are exactly the specified writes |
| EmbeddedCache.EmbeddedCache.RemoveLocked | src/embed_kuttidb.c:144-151 | removal takes exactly that key out of the map and keeps everything sound |
| EmbeddedCache.EmbeddedCache.Scan | src/embed_kuttidb.c:250-296 | the chain walk finds the key's entry if and only if the map has it |
| EmbeddedCache.EmbeddedCache.PutLocked | src/embed_kuttidb.c:249-318 | a put is the map's put; it fails if and only if neither the entry nor the heap has room, and then changes nothing |
| EmbeddedCache.EmbeddedCache.Put | src/embed_kuttidb.c:239-318 | without a budget, or below it and rewriting in place, exactly that; with one, a part of what the put made of what eviction left, every entry missing counted as evicted; below the budget a failed put changes nothing |
| EmbeddedCache.EmbeddedCache.Get | src/embed_kuttidb.c:320-369 | a key is found before its deadline and always without one; from the deadline on it is not found and removed |
| EmbeddedCache.EmbeddedCache.Delete | src/embed_kuttidb.c:371-394 | a delete is the map's |
| EmbeddedCache.EmbeddedCache.EvictOne | src/embed_kuttidb.c:170-185 | an eviction from a shard removes exactly one entry if and only if the shard counts any |
| EmbeddedCache.EmbeddedCache.EvictUnderBudget | src/embed_kuttidb.c:162-187 | eviction only removes, counts what it removes, at most its work, does nothing within budget, and over budget takes an entry of the first shard drawn if it has one |
| EmbeddedCache.EmbeddedCache.SweepBucket | src/embed_kuttidb.c:412-424 | sweeping a bucket's chain of words removes exactly its expired entries |
| EmbeddedCache.EmbeddedCache.SweepExpired | src/embed_kuttidb.c:401-428 | a key is gone after a sweep if and only if its deadline has come and a ticket names its bucket, across a wrap of their counter too; the early exit loses nothing |
| EmbeddedSweep.SweptKeeps | src/embed_kuttidb.c:401-428 | the same of the map: a key survives unless its deadline has come and a ticket names its bucket |
| EmbeddedSweep.RoundReachesIff | src/embed_kuttidb.c:405-413 | a round of tickets reaches a bucket if and only if one that counts to it is hashed to its shard |
| EmbeddedSweep.RoundMisses | src/embed_kuttidb.c:405-413 | with two shards a round leaves an expired entry of one bucket behind |
| EmbeddedCache.EmbeddedCache.Count | src/embed_kuttidb.c:429-440 | the shards' counts add up to the number of keys |
| EmbeddedCache.CountsAddUp | src/embed_kuttidb.c:429-440 | the same for every sound region |
| EmbeddedCache.DeadlinesCounted | src/embed_kuttidb.c:264-283 | the deadline counter is the number of keys with a deadline |
| EmbeddedCache.KeyHasOnePlace | src/embed_kuttidb.c:239-318 | every key of the map is once in the chain its hash selects and in no other place |
| EmbeddedCache.EntryInside | src/embed_kuttidb.c:84-126 | every live entry is 16-aligned, within its block, inside the heap and past the bucket arrays |
| EmbeddedCache.EntriesApart | src/embed_kuttidb.c:84-126 | no two live entries share a byte |
| EmbeddedCache.EntryNotFree | src/embed_kuttidb.c:84-142 | no live entry shares a byte with a free block |
| EmbeddedCache.BytesConserved | src/embed_kuttidb.c:113-142 | bytes claimed are bytes bumped since the heap start, and bytes in use plus bytes free |
| LocalCache.ClassFor | src/kuttidb.c:148-159 | the class loop finds the least class that holds the size, or a direct block above 4096 |
| LocalCache.RoundBuckets | src/kuttidb.c:217-222 | bucket counts are rounded up to the next power of two of at least sixteen, or refused when none fits |
| LocalCache.LocalCache.constructor | src/kuttidb.c:223-237 | a new cache is empty and charged exactly its bucket arrays, with nothing left behind |
| LocalCache.NewCache | src/kuttidb.c:217-237 | a cache is made with the rounded bucket count, or not at all exactly when it cannot be rounded |
| LocalCache.LocalCache.Scan | src/kuttidb.c:372-411 | the chain walk finds the key's entry if and only if the map has it |
| LocalCache.LocalCache.Rehash | src/kuttidb.c:273-286 | the doubling loop leaves exactly the shard's entries, each in the bucket its hash selects |
| LocalCache.LocalCache.MaybeResize | src/kuttidb.c:269-297 | a shard doubles if and only if it holds over two entries a bucket and memory allows; the map is unchanged |
| LocalSteps.ResizeKeeps | src/kuttidb.c:269-297 | doubling keeps every entry filed and the counters exact |
| LocalSteps.InsertKeeps | src/kuttidb.c:413-425 | so does a new entry |
| LocalSteps.ReplaceKeeps | src/kuttidb.c:376-408 | so does replacing one, in place or by a new block |
| LocalSteps.RemoveKeeps | src/kuttidb.c:304-310 | so does removing one, and no counter runs below zero |
| LocalCache.LocalCache.EvictOne | src/kuttidb.c:329-340 | an eviction from a shard that counts an entry removes exactly one |
| LocalCache.LocalCache.EvictUnderBudget | src/kuttidb.c:322-343 | eviction only removes, counts what it removes, at most its work, does nothing within budget, and over budget takes an entry of the first shard drawn if it has one |
| LocalCache.LocalCache.PutLocked | src/kuttidb.c:371-428 | a put is the map's put, fails if and only if it needs memory there is not, and leaves charged exactly the bytes a direct entry shrank by |
| LocalCache.LocalCache.Put | src/kuttidb.c:361-431 | the same of the whole put without a budget; with one, of what eviction left, every entry missing counted as evicted |
| LocalCache.LocalCache.Delete | src/kuttidb.c:516-538 | a delete is the map's |
| LocalCache.LocalCache.Look | src/kuttidb.c:444-480 | under the read lock a key is found before its deadline and always without one; from the deadline on it is not found and reported stale |
| LocalCache.LocalCache.Reap | src/kuttidb.c:482-497 | under the write lock whatever the key has by then is removed and counted as expired |
| LocalCache.LocalCache.Get | src/kuttidb.c:471-499 | with nothing in between the two are a lookup that finds a key before its deadline and removes it from then on |
| LocalRuns.LostPut | src/kuttidb.c:481-497 | a put between the two is lost although it succeeded and has not expired |
| LocalRuns.ReapRightIff | src/kuttidb.c:481-497 | the removal is what the deadlines allow if and only if the key is still expired then, or gone |
| LocalCache.BytesCovered | src/kuttidb.c:148-200 | the byte counter never drops below bucket bytes plus live capacities, and equals them if and only if nothing was left charged |
| LocalRuns.Run | src/kuttidb.c:184-200 | after any operations from an exact counter it is exact if and only if no put among them shrank a direct entry in place |
| LocalRuns.ShrinkThenDelete | src/kuttidb.c:184-200 | shrinking a large entry and deleting it leaves the difference charged in an empty cache |
| LocalCache.NoDeadlines | src/kuttidb.c:545-545 | the deadline counter is zero only when no entry has a deadline |
| LocalCache.LocalCache.SweepBucket | src/kuttidb.c:553-562 | sweeping a bucket removes exactly its expired entries |
| LocalCache.LocalCache.SweepExpired | src/kuttidb.c:540-565 | a sweep removes exactly the expired entries of the buckets its tickets name, across a wrap of their counter too; whatever has no deadline, or has it ahead, stays as it is, and no charge is left behind; the early exit loses nothing |
| LocalSweep.SweptKeeps | src/kuttidb.c:540-565 | a sweep of any length removes nothing without a deadline or before it, and changes nothing it keeps |
| LocalSweep.SweptTwice | src/kuttidb.c:540-565 | sweeps add up: two calls do what one with all their tickets does |
| LocalSweep.AllVisited | src/kuttidb.c:547-553 | shards times the largest bucket count tickets visit every bucket, from any cursor |
| LocalSweep.WrapIsFree | src/kuttidb.c:548-552 | with shard and bucket counts that divide its range, a wrap of the ticket counter changes nothing |
| LocalSweep.SweptAll | src/kuttidb.c:540-565 | so many tickets, from any cursor and across a wrap, leave exactly the entries without a deadline or with one ahead |
| LocalCache.FullSweep | src/kuttidb.c:540-565 | the same for every sound cache, whose bucket counts are powers of two |
| LocalPaging.Page | src/kuttidb.c:669-701 | a page is the next entries of the filtered scan, at most the limit, and says if and where there is more |
| LocalPaging.ScanMetadata | src/kuttidb.c:647-667 | the unpaged scan is a prefix of the filtered scan, whole unless the limit cut it |
| LocalPaging.PagesAreScan | src/kuttidb.c:669-701 | following cursors with any positive limits delivers exactly the scan, and ends |
| LocalPaging.ScanIsIndex | src/kuttidb.c:647-667 | the scan lists every live matching entry, each key once, and nothing else |
| RateLimiter.RateLimiter.Measure | src/admin_http.c:1666-1674 | the loop over the ring counts exactly the history's last second and last minute and finds the minute's oldest admission |
| RateLimiter.RateLimiter.Allow | src/admin_http.c:1665-1694 | a mutation is admitted if and only if fewer than 512 in the last second, 1024 in the last minute and 16 MiB with it leave room, and recorded; a refusal says to wait one second when the second or the ring is full, and otherwise until the oldest admission of the minute has left |
| RateLimiter.WindowsHold | src/admin_http.c:1665-1694 | every 1000 ms window has at most 512 admissions, every 60000 ms window at most 1024 and 16 MiB |
| RateLimiter.RecentCounts | src/admin_http.c:1666-1670 | the count of a window is the number of admissions younger than it |
| RateLimiter.RecentIsWindow | src/admin_http.c:1666-1674 | what counts as recent, in number and in bytes, is what falls into the window that ends now |
| RateLimiter.OldestOfRing | src/admin_http.c:1670-1683 | the oldest recent sample of the ring is the oldest recent admission |
| RateLimiter.MinuteInRing | src/admin_http.c:1686-1692 | an admission less than a minute old is still in the ring |
| RateLimiter.OldestDecides | src/admin_http.c:1684-1689 | a full ring whose oldest sample is recent means exactly that the minute is full |
| Selection.SelectsSmallest | src/admin_http.c:1439-1467 | the bounded selection holds exactly the smallest matches of a walk in any order |
| Selection.Selector.Add | src/admin_http.c:1449-1467 | taking one match in place is one step of that selection |
| Selection.Sort | src/admin_http.c:1982-1982 | the insertion sort is ascending and a permutation |
| KeyOrder.KeyOrderTotal | src/admin_http.c:1432-1437 | the key comparison is a strict total order |
| KeyOrder.KeyLessIff | src/admin_http.c:1432-1437 | a key comes first if and only if it is smaller at the first difference, or a proper prefix |
| DurableInventory.Walk | src/admin_http.c:1439-1467 | the walk selects from exactly the matching keys and notes a key too long |
| DurableInventory.MatchesIff | src/admin_http.c:1439-1450 | a key matches if and only if it starts with the prefix byte for byte and the first difference puts it behind the cursor |
| DurableInventory.Page | src/admin_http.c:1971-1992 | a page is the smallest matching keys in order, with a cursor if and only if some match is left; it is refused if and only if a key is too long |
| DurableInventory.CursorsListAll | src/admin_http.c:1971-1992 | following the cursor lists every matching key once in strictly ascending order |
| DurableInventory.TurnsBounded | src/admin_http.c:1971-1992 | and takes at most as many turns as there are keys |
| ReceiptInventory.Scan | src/job_state.c:1137-1206 | the receipt scan delivers, in order, what its selection kept, and counts the matches |
| ReceiptInventory.WantedIff | src/job_state.c:1152-1158 | a receipt is wanted if and only if it is of the kind asked for and later than the cursor, or as late with its id behind |
| ReceiptInventory.MarksMember | src/job_state.c:1149-1160 | the matches are exactly the wanted receipts |
| ReceiptInventory.RightWhenFew | src/job_state.c:1158-1184 | with room for one, or at most one match too many, it keeps the smallest |
| ReceiptInventory.WrongWhenMany | src/job_state.c:1178-1182 | otherwise some ledger makes it keep a receipt and miss a smaller one |
| ReceiptInventory.ReceiptsSelectedIff | src/job_state.c:1137-1206 | the two together, as an equivalence |
| Base64.EncodeText | src/admin_http.c:1358-1371 | the three-bytes-at-a-time loop writes the encoding |
| Base64.Alphabet | src/admin_http.c:451-452 | the digits are those of tables 1 and 2 of RFC 4648, in order, and no other character has a value |
| Base64.Vectors | src/admin_http.c:1358-1371 | the encodings of f, fo, foo and foobar are those of section 10 of RFC 4648 |
| Base64.DecodeText | src/admin_json.c:237-252 | the accumulator loop decodes or refuses exactly as specified |
| Base64.DecodeEncode | src/admin_json.c:228-252 | decoding undoes padded standard and unpadded URL-safe encoding (sections 4 and 5 of RFC 4648), if and only if the buffer is large enough |
| Base64.CanonicalIff | src/admin_json.c:237-252 | an accepted URL-safe text is the encoding of what it decodes to if and only if its spare bits are zero |
| Base64.TwoTexts | src/admin_json.c:237-252 | two texts decode to one byte string |
| RouteIds.RouteId | src/admin_http.c:459-467 | a route is listed under the encoding of its length-prefixed queue and key |
| RouteIds.RouteIdLayout | src/admin_http.c:459-467 | the identifier is the prefix and the text of two little-endian lengths, each before its bytes |
| RouteIds.DecodeRouteId | src/admin_http.c:582-595 | an identifier is read back or refused exactly as specified |
| RouteIds.RouteRoundTrip | src/admin_http.c:582-595 | decoding a route's identifier returns exactly its queue and routing key, for every legal pair |
| RouteIds.RouteIdsDiffer | src/admin_http.c:459-467 | distinct routes have distinct identifiers |
| RouteIds.RouteIdCanonicalIff | src/admin_http.c:578-595 | an accepted identifier is the route's own if and only if its spare bits are zero |

## Left out

- Queue engine: messages, leases, acknowledgements and the output effects of a completion are parameters or absent; the log is a sequence of frames with an append of known or unknown fate.
- Record checksums, torn bytes within a frame and non-feature log records are not modelled; a frame is there or not.
- Stream engine, exchange routing, the server loop, HTTP, TLS, JSON and the wire clients.
- Process locks and their dead-owner recovery; a locked section is one atomic step.
- Clocks, random bytes and drawn identifiers are parameters; proofs are assumed distinct when drawn and the wall clock far enough from 2^64 for a deadline.
- Collision resistance and the two cache hash functions: the digest is SHA-256 itself, the bucket hashes are arbitrary functions.
- Bucket chains of the job engine's indexes: the indexes are maps, and bucket order enters only through the order a checkpoint or inventory walks them in.
- JobEngine.JobEngine.EmitCheckpoint: the meta record and the emitted state are one cut, while the source reads the marks shortly before it takes the state lock.
- A checkpoint that fails after its rename, with the old log still open for appends or with no log open; one that fails before is a step.
- The bound on the number of delivery proofs and the proof table's layout.
- job_state_record_decode, which replay does not use.
- Fail-closed branches for a corrupted shared region: in a sound region none of them is taken.
- The embedded foreach, which repeats the local one over the embedded chains.
- EmbeddedCache.EmbeddedCache.HeapAlloc: the fifteen sizes whose rounding wraps are excluded; no caller asks for them.
- The embedded shard count is assumed to take at most 32 bits of the hash; above that the source's shift is undefined.
- Slab cursors, class free lists and the allocator-owned byte counter of the local cache; an allocation succeeds or not.
- The local cache's chains are sequences, so link rewriting and aliasing there are not captured; the embedded chains are words.
- A scan callback that asks to stop early.
- DurableInventory.Page: the version, commit id and size copied beside each key.
- Query-string parsing, response rendering and the percent-encoding around identifiers.
