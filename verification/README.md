# rocksdb-js: a model and its proofs

A Dafny model of the parts of rocksdb-js whose correctness is hard to see from any
one function, with proofs of what those parts promise.

* **Verification table.** `SlotWords` is the slot encoding. `WriteIntents` is the
  write-intent lifecycle as a step system over any number of writers, sweeps,
  populates and cancels, on a heap whose addresses are reused; `IntentSafety` proves
  what every run keeps. `Freshness` puts readers, writers, bulk deletes and snapshots
  around it, with a multi-version history; `FreshnessProofs`, `FreshnessTheorems` and
  `FreshnessLimits` prove when a published version is current, and exactly when it
  need not be. `TableObject` is the table as an object with its mutex-protected
  methods, each proved equal to steps of the lifecycle.
* **Streaming backup.** `BackupHandshake` is the worker/JS hand-over with its shared
  reference count. `TarFormat`, `TarArchive` and `TarEncoder` are the USTAR printer and
  a reader for it (the ustar interchange format of the `pax` utility in IEEE Std
  1003.1, with GNU base-256 numbers). `BackupEvents` runs the native file walk into
  the encoder.
* **Locks and closing.** `LockQueue` is the per-key `withLock` queue, `CloseDrain` the
  operation count that a closer waits for.
* **Transaction log.** `LogFormat` is the file format with printer and parser,
  `LogReader`, `LogCursor` and `LogQuery` the resumable reader over growing, rotating
  files, and `LogQueryLimits` the runs in which it fails.
* **Ranges, batches, snapshots.** `RangeIterator`, `PutManyFrames` and `PutMany`,
  `LogSnapshot`.

Concurrent code is modelled as steps (`Can`, `Do`) and runs; a step that would touch
freed memory sets a fault that is proved never to occur. A "world" may interleave
steps in any order, so a theorem about runs is about every schedule.

## Findings

Where the code does less than its comments or documentation say, the model follows
the code and states the exact condition.

* A version observed in a slot shared by two keys can be republished by the other key
  after a write cycle, so a stale version can be published; freshness of every
  publish holds exactly when the key is alone in its slot
  (`FreshnessLimits.FreshExactlyWhenAlone`).
* `cancelForDB` settles a lock by the database that installed the tracker, so a writer
  of another database that joined it loses its lock while still holding its intent
  (`IntentSafety.CancelUnlocksJoiners`). A cancel takes an intent's lock exactly when
  its tracker was installed by the database being closed
  (`TableObject.CancelTakesLock`).
* `verifyVersion` refuses zero and lock patterns but accepts a settled-empty pattern, and
  so does the fast path of `getSync` (`SlotWords.VerifyConfirmsVersionsOnly`,
  `SlotWords.FastPathConfirmsVersionsOnly`).
* A tar size of 256^11 or more is accepted and silently truncated
  (`TarFormat.NumberRoundTrip`). A name of 101 bytes whose only usable slash is its
  first byte loses that slash, and a name with a NUL is cut
  (`TarFormat.PathRoundTrip`). A finished archive reads back as exactly the files
  added when and only when neither happens (`TarArchive.ArchiveRoundTrip`).
* Reverse ranges apply `exclusiveStart` to the `end` option and `inclusiveEnd` to the
  `start` option; they mean what they document only when the flags trade places, as
  the defaults do, or when the bounds make no difference
  (`RangeIterator.RangeAsDocumented`). `key` together with `reverse`
  and default flags finds nothing (`RangeIterator.KeyShortcut`).
* A log file followed by one to seven zero bytes does not parse
  (`LogFormat.PrintThenParse`).
* The size of a log file is kept in a buffer object that all queries of a log share, and
  a query that leaves entries out stores the size of the file it advances into even
  while that file grows. Another query, even one for everything, then takes that size
  for the file's final one and skips what was added
  (`LogQueryLimits.OtherQueryMakesThisOneSkip`). No query skips exactly when each kept
  size of a file before the last committed one is its final size
  (`LogCursor.GapFreeExactlyWhenFinal`).
* The search for a query's start looks at the file being written, so it can end in a
  file after the last committed one. Such a query shows uncommitted entries, keeps the
  size of a growing file, and then bounds that file by another file's committed size,
  which can make it fail (`LogQueryLimits.StartAheadShowsUncommitted`,
  `LogQueryLimits.StartAheadThenFails`). A start is sound exactly when it lies no later
  than the last committed file (`LogCursor.StartIsSoundExactly`); queries for everything
  that start so never spoil the kept sizes.
* The advance of a query that leaves entries out can leave entries of its old file behind
  and read uncommitted ones in the new (`LogQueryLimits.AdvanceLeavesAnEntryBehind`,
  `LogQueryLimits.AdvanceReadsAnUncommittedEntry`; exactly when:
  `LogCursor.AdvanceIsSoundExactly`).
* When handing a lock callback to JS is lost, because the environment is closing, there
  is no function, or the wrapper on the JS thread gives up before calling it, the flag of
  that key stays set and nobody completes it; every later callback of the key is
  stranded. Nothing is stranded exactly when no hand-over is lost
  (`LockQueue.CallbacksRunInTurn`, `LockQueue.LostHandOverStrands`).
* The first log snapshot below a backup directory creates the root of all log snapshots,
  and the directory above that root is never synced: after a reported success a power
  failure may leave nothing (`LogSnapshot.FirstSnapshotMayVanish`). A success survives
  exactly when the root's own entry was durable
  (`LogSnapshot.SuccessSurvivesExactlyWhenRootDurable`).
* A header comment in `verification_table.h` speaks of slots returning to zero; the
  code settles them to a new generation, which is what the proofs need.

## Model

| member | source | states |
|---|---|---|
| SlotWords.DecodeEncode | src/binding/core/verification_table.h:47-76 | every word that fits its bit fields survives encoding and decoding |
| SlotWords.EncodeDecode | src/binding/core/verification_table.h:54-76 | every 64-bit pattern has exactly one meaning and encodes back to itself |
| SlotWords.SameWordSameMeaning | src/binding/core/verification_table.h:62-76 | a compare-and-swap on raw words compares meanings |
| SlotWords.VerifyConfirmsVersionsOnly | src/binding/core/verification_table.cpp:116-125 | a verification confirms only versions, whatever the slot holds, if and only if the expected pattern is not settled-empty |
| SlotWords.FastPathConfirmsVersionsOnly | src/binding/database/database.h:23-33 | the fast path answers fresh only for versions, whatever the slot holds, if and only if the caller's number is not settled-empty |
| SlotWords.VerifyIsExact | src/binding/core/verification_table.cpp:116-125 | a version verifies if and only if the slot holds that version |
| SlotWords.FastPathIsExact | src/binding/database/database.cpp:1045-1061 | and so it does on the fast path of a read |
| SlotWords.WordLiterals | src/binding/core/verification_table.h:47-76 | where the bits of each kind of word lie |
| IntentSafety.StepKeeps | src/binding/core/verification_table.cpp:156-333 | every step of every operation keeps all parts of the invariant |
| IntentSafety.TrackerLifetime | src/binding/core/verification_table.cpp:199-314 | in every run, cancels included, no freed tracker is touched, reference counts are holders plus temporaries, a lock word names a live held tracker of its slot, and each allocation is freed exactly once |
| IntentSafety.HeldSlotStaysLocked | src/binding/core/verification_table.cpp:199-240 | in every run a held intent's slot holds its lock word if and only if no cancel cut its tracker |
| IntentSafety.HeldUnlessInstallerCancelled | src/binding/core/verification_table.cpp:199-314 | in every run a held intent has its lock as long as no cancel of the database that installed its tracker was started |
| IntentSafety.UncancelledRunCutsNothing | src/binding/core/verification_table.cpp:289-314 | a run in which no cancel starts cuts no tracker |
| IntentSafety.WakeExactlyOnce | src/binding/core/verification_table.cpp:316-333 | an accepted wake callback runs at most once, has run once its tracker has no holder, and not before unless a cancel woke it |
| IntentSafety.OnlyCancelCuts | src/binding/core/verification_table.cpp:289-314 | only a cancel's visit to a slot locked by that database's own tracker cuts it |
| IntentSafety.CancelUnlocksJoiners | src/binding/core/verification_table.cpp:289-314 | a run in which a joined writer of another database loses its lock while holding its intent |
| FreshnessProofs.SafeStep | src/binding/database/database.cpp:1023-1116 | every step of readers, writers, sweeps and snapshots keeps what readers know about slot, log and snapshots |
| FreshnessTheorems.PublishIsFresh | src/binding/core/verification_table.cpp:156-197 | a publish that takes effect installs the key's current version, seen by every open snapshot |
| FreshnessTheorems.PublishTakesEffect | src/binding/core/verification_table.cpp:156-180 | after the swap the slot shows the version if and only if the swap takes effect or the slot showed it before; no other slot and nothing in the database changes |
| FreshnessTheorems.ReaderJudgesExactly | src/binding/database/database.h:102-119 | a read is trusted if and only if it was made without a snapshot or at one nothing was committed after; else the current version is taken instead |
| FreshnessTheorems.GatesLetThrough | src/binding/database/database.h:139-168 | undisturbed, the two gates let a version through if and only if no snapshot is open, or the oldest is not older than the version's date and has seen the latest write |
| FreshnessTheorems.EnvironmentIsFree | src/binding/database/database.cpp:1023-1052 | bulk deletes and snapshots may come at any time, and a read of any key observes what its slot holds |
| FreshnessTheorems.CommitIsVisible | src/binding/database/database.cpp:1045-1116 | a committed value is current at once, and a snapshot keeps seeing what it saw |
| FreshnessTheorems.FreshStep | src/binding/database/database.cpp:1045-1116 | while a slot keeps showing a fresh version no step makes it stale |
| FreshnessTheorems.PublishedVersionStaysCurrent | src/binding/database/database.h:83-172 | in every run a publish from a cold slot, or of a key alone in its slot with versions not reused, is of the latest committed version as every open snapshot sees it, and stays so while the slot shows it |
| FreshnessTheorems.VerifiedVersionIsCurrent | src/binding/database/database.cpp:1045-1061 | whatever version a slot shows at any moment is the current one, in every snapshot, for a key alone in its slot |
| FreshnessTheorems.SweptVersionNeverVerifies | src/binding/database/db_handle.cpp:101-118 | once the sweep has passed, no version committed before the delete verifies, whoever was between observe and publish, whichever slots were locked and skipped and whatever is deleted later; until the key is deleted again what the slot shows is current; for a key alone in its slot with versions not reused |
| FreshnessLimits.CollisionPublishesStale | src/binding/core/verification_table.cpp:156-197 | for any two keys sharing a slot, a run that publishes a superseded version with none reused |
| FreshnessLimits.PublishCycle | src/binding/core/verification_table.cpp:156-180 | an undisturbed read cycle of a key with a version warms its slot, whatever word that is no lock it held |
| FreshnessLimits.FreshExactlyWhenAlone | src/binding/core/verification_table.cpp:156-197 | every publish in every run is fresh if and only if no other key shares the slot |
| TableObject.VerificationTable.constructor | src/binding/core/verification_table.cpp:78-95 | a new table is the initial state of the lifecycle: every slot empty, nothing held, nothing allocated |
| TableObject.VerificationTable.PopulateVersionIfUnchanged | src/binding/core/verification_table.cpp:156-180 | the slot holds the version afterwards if it held the observed word, which is no lock, and the version is positive; otherwise it and every other slot are as before; it answers true exactly when slot and version are there, the observed word is no lock, and it is still there or is the version itself; the new state is the lifecycle's own step |
| TableObject.VerificationTable.LockSlotForWrite | src/binding/core/verification_table.cpp:199-221 | joins the tracker in the slot or installs a new one; the new state is the lifecycle's two steps |
| TableObject.VerificationTable.ReleaseWriteIntent | src/binding/core/verification_table.cpp:223-240 | the new state is that of the release steps; only the given intent is gone |
| TableObject.VerificationTable.RefTrackerIfLocked | src/binding/core/verification_table.cpp:242-250 | takes a temporary reference exactly when the slot is locked |
| TableObject.VerificationTable.UnrefTracker | src/binding/core/verification_table.cpp:252-256 | gives the reference up, freeing the tracker with the last one |
| TableObject.VerificationTable.AddWakeCallback | src/binding/core/verification_table.cpp:316-323 | the callback is registered with the tracker if and only if the tracker was not woken; nothing else changes |
| TableObject.VerificationTable.SettleAllSlots | src/binding/core/verification_table.cpp:258-287 | every slot that is not locked gets the one new generation, nothing else changes |
| TableObject.SweepStepsPass | src/binding/core/verification_table.cpp:258-287 | the steps of a sweep pass a slot as the whole sweep does: a lock stays, anything else gets the sweep's generation |
| TableObject.VerificationTable.CancelForDB | src/binding/core/verification_table.cpp:289-314 | the new state is the one cancel pass |
| TableObject.ReleasedKeeps | src/binding/core/verification_table.cpp:223-240 | a whole release equals its steps one after the other and keeps the invariant |
| TableObject.LockedKeeps | src/binding/core/verification_table.cpp:199-221 | after a lock the slot is locked by the caller's tracker and every other intent is as before |
| TableObject.LockThenReleaseFree | src/binding/core/verification_table.cpp:199-240 | locking and releasing a free slot leaves nothing but a newly settled slot |
| TableObject.LockThenReleaseHeld | src/binding/core/verification_table.cpp:199-240 | joining a held lock and leaving it changes no slot and no count |
| TableObject.CancelSlotKeeps | src/binding/core/verification_table.cpp:289-314 | cancelling one slot is the lifecycle's own steps and keeps the invariant |
| TableObject.CancelledClears | src/binding/core/verification_table.cpp:289-314 | a cancel changes a slot if and only if it is locked by a tracker the database installed, each to an unused generation, and leaves no such slot; holders, references and every other slot are as before |
| TableObject.CancelledWakes | src/binding/core/verification_table.cpp:289-314 | a cancel wakes exactly the trackers whose locks it settles, and after it their callbacks have run and no others |
| TableObject.CancelTakesLock | src/binding/core/verification_table.cpp:289-314 | an intent that has its lock loses it in a cancel if and only if its tracker was installed by that database |
| CloseDrain.DrainIsSafe | src/binding/database/database.h:210-255 | in every run the count is exact, one closer drains, no admitted operation is active once the wait loop is left nor later, and a sleeping closer with count zero has a notify due |
| CloseDrain.NotifyWakesEveryCloser | src/binding/database/db_descriptor.cpp:142-164 | a due notification can always be carried out in at most two steps, after which no closer sleeps |
| CloseDrain.AdmittedExactlyWhileOpen | src/binding/database/database.h:244-255 | in every run an operation that checks is admitted if and only if no close has begun, and only one closer is not refused |
| CloseDrain.CloserDrains | src/binding/database/db_descriptor.cpp:160-163 | with the count at zero the closer, awake or asleep, can leave its wait loop in at most four steps |
| CloseDrain.OperationCanFinish | src/binding/database/database.h:210-225 | an admitted operation can always finish, on its own thread or through a worker, and then holds no count |
| LockQueue.LockRegistry.EnqueueCallback | src/binding/database/db_descriptor.cpp:517-577 | creates the handle if missing, appends to the key's queue what is a function, and touches no other key |
| LockQueue.LockRegistry.StartNext | src/binding/database/db_descriptor.cpp:426-510 | claims the flag and takes the front callback, or removes an empty handle, of this key only |
| LockQueue.LockRegistry.MarkComplete | src/binding/database/db_descriptor.cpp:913-994 | clears the running flag of this key only |
| LockQueue.CallbacksRunInTurn | src/binding/database/db_descriptor.cpp:426-577 | in every run callbacks are taken in enqueue order across handle removal and re-creation, one at a time, and somebody is responsible for every handle if and only if no hand-over was lost |
| LockQueue.LostHandOverStrands | src/binding/database/db_descriptor.cpp:489-507 | after a lost hand-over no callback of the key is ever taken again |
| LockQueue.QuietMeansEmpty | src/binding/database/db_descriptor.cpp:913-994 | when no thread has a step left, the handle is gone, with every callback taken, if and only if no hand-over was lost |
| BackupHandshake.SharedStateIsSafe | src/binding/database/backup_stream.cpp:85-348 | in every interleaving, teardown included, the shared state is freed once and only after everybody let go, is not touched afterwards, and no chunk is copied from a buffer no longer lent |
| BackupHandshake.WaitingWorkerIsServed | src/binding/database/backup_stream.cpp:85-201 | a waiting worker's own event is queued, in the trampoline or awaiting settlement, and its buffer is lent |
| BackupHandshake.RejectionStopsTheWorker | src/binding/database/backup_stream.cpp:146-200 | in every run a worker that goes on reading has had no event refused, one that stopped has had an event refused, a failed post or a teardown, and an acked worker stops if and only if one of these happened |
| BackupHandshake.EventCanBeDelivered | src/binding/database/backup_stream.cpp:161-334 | from a reading worker the hand-over can be carried through and leads back to reading, the buffer given back |
| BackupHandshake.TeardownFreesTheWorker | src/binding/database/backup_stream.cpp:186-198 | teardown never leaves the worker waiting |
| BackupHandshake.EndFreesTheState | src/binding/database/backup_stream.cpp:336-348 | once the worker is done and nothing is in flight, completion and finalizer can run and free the shared state |
| TarFormat.NumberRoundTrip | src/tar.ts:79-97 | a reader gets a number back, octal or base-256, if and only if it is below 256 to the field's digits |
| TarFormat.HugeSizeIsLost | src/tar.ts:79-97 | the first size that is accepted and misread |
| TarFormat.PathRoundTrip | src/tar.ts:128-158 | an accepted path is rejoined unchanged if and only if it has no NUL and does not split at a lone leading slash |
| TarFormat.SplitsExactly | src/tar.ts:128-158 | a path is accepted if and only if it is short or has an admissible slash, and a long one is cut at the last of these |
| TarArchive.SealVerifies | src/tar.ts:104-118 | the checksum fits six octal digits and a reader's recomputation agrees |
| TarArchive.ChecksumLiteral | src/tar.ts:104-118 | the checksum is the sum of all bytes, with the eight of its own field worth 256 whatever they hold |
| TarArchive.HeaderRoundTrip | src/tar.ts:164-182 | a reader that tests checksum, magic, version and type gets path and size back exactly when the size fits and the path is not mangled |
| TarArchive.ModeAndTimeRoundTrip | src/tar.ts:164-182 | a reader finds the mode's twelve bits, owner and group zero, and the time exactly when it fits |
| TarArchive.HeaderLiteral | src/tar.ts:164-182 | magic, version, type flag and the end of the checksum field, byte by byte |
| TarArchive.HeaderIsNotZero | src/tar.ts:164-182 | no header can be taken for the end marker |
| TarArchive.ArchiveRoundTrip | src/tar.ts:203-290 | reading a finished archive gives exactly the files added, in order, if and only if every size fits its header and no path is mangled |
| TarArchive.WholeBlocks | src/tar.ts:203-290 | completed entries fill whole blocks |
| TarEncoder.WriteField | src/tar.ts:65-71 | stores the value at its offset, or refuses it when too long |
| TarEncoder.WriteOctal | src/tar.ts:79-97 | fills the field with the octal or base-256 form and leaves the rest of the block |
| TarEncoder.WriteChecksum | src/tar.ts:104-118 | seals the block with its checksum |
| TarEncoder.SplitTarName | src/tar.ts:128-158 | finds the last admissible slash, or none |
| TarEncoder.BuildHeader | src/tar.ts:164-182 | builds the header of the format, or refuses exactly the names that do not split |
| TarEncoder.Encoder.AddFile | src/tar.ts:220-236 | refuses in exactly the documented cases without changing anything, else appends the header and starts the entry |
| TarEncoder.Encoder.WriteData | src/tar.ts:244-263 | appends the chunk to the output and to the last entry, with the padding when that is complete; refuses overruns unchanged |
| TarEncoder.Encoder.Finalize | src/tar.ts:279-290 | appends the two zero blocks only when nothing is owed; the length is then a multiple of 512, and a USTAR reader finds exactly the files added if and only if every size fits and no path is mangled |
| BackupEvents.StreamContents | src/binding/database/backup_stream.cpp:468-479 | inline contents reach the encoder whole, or the run was aborted |
| BackupEvents.StreamFilePrefix | src/binding/database/backup_stream.cpp:374-407 | exactly the first bytes up to the limit reach the encoder, whatever the read sizes; a short file is reported only if it is short |
| BackupEvents.StreamLiveFile | src/binding/database/backup_stream.cpp:449-491 | one live file becomes one complete entry |
| BackupEvents.StreamLogFile | src/binding/database/backup_stream.cpp:497-545 | one log file becomes one complete entry, or none when purged before its header |
| BackupEvents.LogPathIsSpelled | src/binding/database/backup_stream.cpp:498 | the path of a log entry, spelled out |
| BackupEvents.BackupToStream | src/backup-stream.ts:77-94 | the encoder refuses nothing but an unsplittable name; a run that nobody aborts succeeds if and only if no file is shorter than recorded and every name splits; a successful run ends with an archive that reads back as exactly the live files and log prefixes if and only if every size fits and no path is mangled |
| LogFormat.ParseTransactionLog | src/parse-transaction-log.ts:57-141 | the imperative parser computes the specified parse on every input |
| LogFormat.PrintThenParse | src/binding/transaction_log/transaction_log_entry.h:35-50 | printing then parsing gives the entries back if and only if the padding is empty or at least eight bytes and no timestamp is zero |
| LogFormat.ParseThenPrint | src/parse-transaction-log.ts:87-141 | printing any successful parse reproduces the file up to the reported size, where it ends or a zero timestamp follows |
| LogFormat.PaddingIsIgnored | src/parse-transaction-log.ts:96-103 | cutting a file at the reported size parses alike |
| LogFormat.PrintLiteral | src/binding/transaction_log/transaction_log_file.h:43 | a log file starts with the bytes of "WOOF" and a one, then its timestamp |
| LogFormat.HeaderErrors | src/parse-transaction-log.ts:74-86 | which files are refused for being empty, for their token or for their version, if and only if |
| LogFormat.TornEntryIsRefused | src/parse-transaction-log.ts:105-116 | a last entry that declares more bytes than are left is refused as corrupt, after any entries |
| LogFormat.Word32 | src/binding/core/encoding.h:20-25 | a big-endian 32-bit word reads back modulo its width |
| LogFormat.Word32Back | src/binding/core/encoding.h:47-52 | any four bytes are written back unchanged |
| LogFormat.Word64 | src/binding/core/encoding.h:9-18 | a big-endian 64-bit word reads back |
| LogFormat.Word64Back | src/binding/core/encoding.h:36-45 | any eight bytes are written back unchanged |
| LogFormat.WordIsBigEndian | src/binding/core/encoding.h:20-25 | the four bytes are the base-256 digits, most significant first |
| LogFormat.DoubleIsBigEndian | src/binding/core/encoding.h:9-18 | the eight bytes are the high word and then the low |
| LogReader.GrowthKeepsLog | src/transaction-log-reader.ts:300-328 | growth and rotation leave every entry where it was |
| LogCursor.StartedStands | src/transaction-log-reader.ts:61-119 | wherever a query begins it stands before the entry it was given; up to the last committed file it may read what is committed there and no more |
| LogCursor.StartIsSoundExactly | src/transaction-log-reader.ts:84-119 | a start leaves kept sizes to frozen files if and only if it lies no later than the last committed file; its bound is then within what is committed, and otherwise covers every entry already written |
| LogCursor.Refresh | src/transaction-log-reader.ts:127-158 | the new place and the new kept sizes, as the specification says |
| LogCursor.RefreshedStands | src/transaction-log-reader.ts:127-158 | with final kept sizes asking for more never skips or repeats an entry, lets the cursor read nothing uncommitted, and leaves nothing readable only for a reason |
| LogCursor.GapFreeExactlyWhenFinal | src/transaction-log-reader.ts:135-150 | no refresh of any cursor up to the last committed file passes over an entry if and only if each kept size of a file before that one is its final size |
| LogCursor.OnlyFrozenGrows | src/transaction-log-reader.ts:138-150 | sizes kept of frozen files only stay final while the log grows |
| LogCursor.AdvanceIsSoundExactly | src/transaction-log-reader.ts:233-258 | the in-loop advance leaves no entry behind if and only if the file has not grown since its size was taken, and may read nothing uncommitted if and only if the next file is frozen, holds nothing uncommitted, or had its size taken before it did |
| LogQuery.FetchAt | src/transaction-log-reader.ts:160-231 | the loads and bound checks find the entry at an offset if and only if the bound does not cut it |
| LogQuery.FetchFinds | src/transaction-log-reader.ts:160-231 | below a bound that is an entry boundary the entry that belongs there is always found |
| LogQuery.FetchEnds | src/transaction-log-reader.ts:160-172 | a zero timestamp ends the data |
| LogQuery.ShownIsJustRead | src/transaction-log-reader.ts:220-231 | what is shown of an entry is what lies in the mapped bytes right before the cursor: its timestamp, the lowest bit of its flag byte, and its data |
| LogQuery.Scan | src/transaction-log-reader.ts:160-261 | stops at the first entry asked for, passing over none that was and showing none uncommitted, with that entry's own timestamp, flag and data, and terminates |
| LogQuery.Cursor.constructor | src/transaction-log-reader.ts:46-119 | a query may start at any entry boundary written, committed or not; it can read nothing uncommitted, and keeps sizes of frozen files only, if it begins no later than the last committed file |
| LogQuery.Cursor.Next | src/transaction-log-reader.ts:125-261 | for a query that began so, when kept sizes of frozen files are final: what has been yielded is exactly what the query asks for of the log from where it began to where it stands, never past the committed position and never an error; a call that yields nothing has passed everything committed, waits for a file to map, or stands in a file without entries; what is yielded is the last entry's own timestamp, flag and data, which are the mapped bytes right before the cursor |
| LogQuery.YieldsTheLog | src/transaction-log-reader.ts:125-261 | for a query that matches everything that is a gap-free, repeat-free run of the log |
| LogQueryLimits.OtherQueryMakesThisOneSkip | src/transaction-log-reader.ts:233-258 | a run in which one query's advance makes a query for everything skip an entry |
| LogQueryLimits.AdvanceLeavesAnEntryBehind | src/transaction-log-reader.ts:233-258 | an advance that passes over a committed entry |
| LogQueryLimits.AdvanceReadsAnUncommittedEntry | src/transaction-log-reader.ts:248-257 | an advance after which an uncommitted entry is read |
| LogQueryLimits.StartAheadShowsUncommitted | src/transaction-log-reader.ts:114-119 | a start after the last committed file that shows an uncommitted entry and keeps a growing file's size |
| LogQueryLimits.StartAheadThenFails | src/transaction-log-reader.ts:127-134 | the refresh after it, whose bound cuts an entry |
| RangeIterator.InclusiveEnd | src/binding/iterator/db_iterator_handle.cpp:79-85 | a key is below the end key followed by a zero byte if and only if it is not above the end key |
| RangeIterator.ViewIsAllowed | src/binding/iterator/db_iterator_handle.cpp:67-111 | the bounded view without its excluded start key is exactly the allowed keys, in order |
| RangeIterator.WantedIsOrdered | src/binding/iterator/db_iterator_handle.cpp:67-111 | the wanted keys are exactly the allowed ones in strict order of the direction |
| RangeIterator.Cursor.constructor | src/binding/iterator/db_iterator_handle.cpp:67-111 | after init and seek the keys to come are the allowed keys, reversed if asked |
| RangeIterator.Cursor.Next | src/binding/iterator/db_iterator.cpp:262-341 | yields the first key to come and advances past it, or reports the end |
| RangeIterator.Collect | src/binding/iterator/db_iterator.cpp:262-341 | walking to the end gives exactly the allowed keys, strictly descending when reverse and strictly ascending otherwise |
| RangeIterator.GetRange | src/store.ts:637-690 | zero-length bounds are refused; all else yields keys strictly descending when `reverse` and strictly ascending otherwise, and of these exactly the documented ones for a forward range, and for a reverse one where `RangeAsDocumented` says so; for any reverse range those between the bounds as the code takes them, and with `key` that key alone or nothing |
| RangeIterator.RangeAsDocumented | src/store.ts:637-657 | for all options a range is as documented if and only if it runs forward, or its bounds are crossed, or both readings agree on its one key, or the flags trade places |
| RangeIterator.KeyShortcut | src/store.ts:637-657 | which keys the `key` shortcut finds, for every flag combination |
| PutManyFrames.LengthRoundTrip | src/binding/napi/helpers.h:46-51 | a little-endian length reads back if and only if it fits 32 bits |
| PutManyFrames.LengthsAreLittleEndian | src/binding/napi/helpers.h:46-51 | the four length bytes are the base-256 digits, least significant first |
| PutManyFrames.Encode | src/store.ts:921-952 | the two loops fill a buffer of exactly the needed size with the frames |
| PutManyFrames.FramesRoundTrip | src/binding/database/database.cpp:1601-1616 | walking the two encoded buffers gives back every entry list |
| PutManyFrames.FaultsAreNamed | src/binding/database/database.cpp:1603-1616 | which of the four faults a walk ends with, after any number of good entries |
| PutMany.LastPutWins | src/binding/database/database.cpp:1588-1630 | the last entry for a key decides its value |
| PutMany.OtherKeysStay | src/binding/database/database.cpp:1588-1630 | keys without an entry stay |
| PutMany.Database.LockKey | src/binding/database/database.cpp:1618-1622 | the key's slot is locked, all earlier locks stay |
| PutMany.Database.Write | src/binding/database/database.cpp:1628-1632 | the store's own write, which may be called only in a state in which the slot of every key of the batch is locked |
| PutMany.Database.ReleaseAll | src/binding/database/database.cpp:1634-1636 | exactly the locks taken are released |
| PutMany.Database.PutManySync | src/binding/database/database.cpp:1588-1637 | for arbitrary buffers all entries are written in order or none; the states the call passes through, from its first to its last, are locks, the write and releases, and the one step that changes the store is taken while the slot of each key is locked; on every path the held intents are as before |
| PutMany.PutEntries | src/store.ts:906-955 | from entry list to store a batch has the effect of its puts in order; parts too long for their length word are refused unsent |
| LogSnapshot.StepKeeps | src/binding/database/backup_transaction_logs.cpp:196-288 | every step keeps staging in order and the published directory complete |
| LogSnapshot.CrashLeavesAllOrNothing | src/binding/database/backup_transaction_logs.cpp:304-347 | after any run the final directory is absent or holds every entry in full, skipped ones excepted, and a run that reports success has published |
| LogSnapshot.SnapshotCanSucceed | src/binding/database/backup_transaction_logs.cpp:196-347 | for any collected entries none of which is shorter than recorded, a run that reports success with every entry published in full |
| LogSnapshot.LinkStagesWhole | src/binding/database/backup_transaction_logs.cpp:225-240 | a rotated file that is still there can be linked, which stages it whole |
| LogSnapshot.FailedCopyIsLookedInto | src/binding/database/backup_transaction_logs.cpp:252-264 | a failed copy is skipped if its source was purged, and else aborts and clears the staging directory |
| LogSnapshot.FailuresAreNoticed | src/binding/database/backup_transaction_logs.cpp:214-271 | a failed copy is looked into, any other failure aborts |
| LogSnapshot.PowerLossLeavesAllOrNothing | src/binding/database/backup_transaction_logs.cpp:304-347 | with syncing, what survives a power failure at any point is nothing or every entry in full, skipped ones excepted |
| LogSnapshot.SuccessSurvivesExactlyWhenRootDurable | src/binding/database/backup_transaction_logs.cpp:326-340 | after a reported success the snapshot is certain to survive a power failure if and only if the entry of the snapshots' root was durable |
| LogSnapshot.FirstSnapshotMayVanish | src/binding/database/backup_transaction_logs.cpp:196-288 | for any collected entries, a successful, fully synced first snapshot of which a power failure may leave nothing |

## Left out

- Node-API, threadsafe-function internals, promises, garbage collection and RocksDB itself: abstract steps or a multi-version map.
- The force-set `populateVersion`: it publishes whatever its caller asserts.
- The asynchronous get's populate: it skips the snapshot gates.
- Freshness assumes that versions satisfy `vtIsVersion`, that the integer properties the gates read are available and that an open snapshot has a non-zero time.
- `DBRegistry::OpenDB`'s wait for a closing entry.
- `tryLock` and `unlock` beside `withLock`: unlock deliberately fires all queued callbacks.
- Generations and tags: settle generations are unbounded and never wrap; an allocator's choice of address is a parameter.
- Minting a settle generation and swapping it in are one step for a release and a cancel, and so are taking a tracker's callbacks and running them.
- A disabled table's null slot is a slot index outside the table.
- Hashing of keys to slots: any function, so collisions are included.
- Transactional batched puts, commit order, log rotation and flush tracking: their sources are not part of this model.
- LogQuery.Cursor.Next: assumes that the query began no later than the last committed file and that each kept size of a file before that one is its final size; a query that leaves entries out is claimed exact only on a store that is not being written, whose files map and of which no kept size is old. These limits are the code's: see `StartIsSoundExactly`, `GapFreeExactlyWhenFinal` and `AdvanceIsSoundExactly`.
- LogCursor.GapFreeExactlyWhenFinal: assumes that a kept size is an entry boundary of its file; that buffer objects may be collected, which only forgets sizes, is not modelled.
- LogQuery.Cursor.constructor: `exactStart`, `exclusiveStart` and reading uncommitted entries are not modelled; the query is any predicate on timestamps, its search returns an entry boundary, files keep no padding, and everything before the committed position is committed.
- LockQueue.CallbacksRunInTurn: who owns and frees the data passed to a callback's completion is not modelled.
- LogFormat.ParseTransactionLog: timestamps are bit patterns, so JavaScript's freedom to change the bits of a NaN is not modelled, nor are the reported anomalies or reading without data.
- RangeIterator.Cursor.Next: the choice between shared buffers and a fresh object, values, and limits are not modelled.
- PutManyFrames.Encode: one buffer at a time, where the source fills two in one loop.
- BackupEvents.BackupToStream: assumes that inline contents have their declared size; gzip and file times of live files are left out.
- TarFormat.PathRoundTrip: names are byte strings; UTF-8 transcoding is left out.
- LogSnapshot.CrashLeavesAllOrNothing: assumes a fresh staging directory, an atomic rename and distinct entry paths; file times are left out, and a partial file of a skipped entry that could not be removed may remain.
- LogSnapshot.PowerLossLeavesAllOrNothing: assumes that syncing a directory makes its entries durable; the code does nothing on Windows and takes file systems that refuse it for synced.
- File locks, statistics, options parsing, events, settings, benchmarks and build files.
