# Waloy replication, verified

Waloy copies a running SQLite database to an object store. A `BackupManager` turns the growing
write-ahead log (WAL) into segments, describes them in a manifest, and publishes snapshot, marker
and manifest with single uploads; restore functions rebuild the database from whatever the store
holds. This project models that replication state machine, the restore functions and everything
underneath them, and proves that a restore gives back the database: at every single durable state,
across uploads and deletions that fail half-way, with the application writing all the time.

## What is modelled

- **The world** (`Live.dfy`, `History.dfy`). A live database is a file and a sequence of WAL epochs.
  The application appends bytes (whole frames or torn ones), checkpoints backfill any initial part
  of the WAL, a reset starts a new epoch with a new salt. All of this happens between and *during* the
  manager's operations, after every upload. The history is never forgotten, so "the database at a
  position" (`StateAt`) has a meaning that does not depend on any backup.
- **The store** (`S3.dfy`). A map from key to bytes under a client prefix. What becomes of the n-th put
  or delete is the world's choice, fixed beforehand in `fate`: done, done although reported as failed,
  or not done. A ghost `trace` records the durable state after each of them: what a crash at that
  moment would leave. `failures` counts the reported failures among them; the client's invariant ties
  it to `fate`.
- **The manager** (`Manager.dfy`). The class with the source's fields, its methods written as the
  real sequence of store calls. Ghost fields say which epoch is followed, what was shipped, for each
  durable state in the trace the position of the history that it restores to (`points`), and for each
  generation in the store which epoch it was taken from (`ledger`). `Valid` is the agreement between
  bookkeeping, store and live database; `Intact` is what is left of it after an operation that failed.
- **Restore** (`Durable.dfy`, `Restore.dfy`, `PointInTime.dfy`, `Past.dfy`, `Ledger.dfy`,
  `Fallback.dfy`). The files that a restore places, as functions of the store; the methods that
  download them are proved equal to these functions. `Open` is what SQLite then shows: the file
  overlaid with the committed frames.
- **Bytes and keys** (`Wal.dfy`, `Replay.dfy`, `Pipeline.dfy`, `Keys.dfy`, `Order.dfy`). Frame
  alignment, replay up to the last commit, magic-prefixed framing, key formatting, sorted listing.
- **Maintenance** (`Compaction.dfy`, `Recutting.dfy`, `Retention.dfy`, `Steps.dfy`). The chunk
  arithmetic, what chunks come back as, which generations are removed, and what one upload or
  deletion does to a published generation.
- **Whole runs** (`Runs.dfy`): one manager, or any number of them one after the other on the same
  store and database, each ending wherever it fails.
- **Where the guarantees end** (`ResetLimits.dfy`, `StaleTail.dfy`, `SnapshotLimits.dfy`,
  `SyncLimits.dfy`, `CompactionLimits.dfy`, on WAL files built byte by byte in `Images.dfy` and
  databases of whole pages in `Samples.dfy`).

How to read the main contracts: `RestoresEither(n, a, b)` says that every durable state from number
`n` on restores to `a` or to `b`. `Placed(points, n)` says that from state `n` on every state has a
known position, never in an earlier epoch than before, `Ascending(points, n)` also that the positions
never go back. `Tracked`, part of
`Intact`, says that a state with a recorded position really restores to the database at that
position; `Accounted`, also part of it, that every generation in the store is what the ledger says.
`Onward(a, b)` says that from moment `a` to moment `b` no restore to a time before `a` has changed.
Failures have a cause: an operation that returns an error has raised `failures` by one, or the encoder
refused its input (`Able(cfg)` says that it never does; `Pipeline.EncodeFails` says when it does), or
the TRUNCATE was refused (`refuses`, a choice of the world like `fate`); one that succeeds has raised nothing.

## What the theorems assume

The code does not keep its promises without these; the ones marked (L) have lemmas that say what goes
wrong otherwise, and exactly when.

- A failed upload of a manifest ends the run, and so does an error while a new generation is started
  (L: `SyncLimits`). `Intact` is still promised: the store is as good as before, and a new manager
  may start on it. After other errors the run goes on (`SyncFailed`, `CompactionFailed`). The syncs
  inside `checkpoint` and `shutdown` follow the code: the first returns the error, the second
  swallows it and stops. The loop that the repository's README.md recommends, which ignores every
  error of `sync_wal`, is covered until a manifest cannot be uploaded.
- Within one epoch the WAL only grows: no stale tail of an earlier epoch behind the header
  (L: `StaleTail`), and no uncommitted frames that are overwritten. The code looks at length and page
  size only. All complete frames are taken to be valid; SQLite also looks at their salts and checksums.
- Whenever the database grows, the pages that come into view have been written to the WAL since they
  were last out of view (`GrowthWritten`).
- The database file is read as a whole, and a checkpoint that is held up or interrupted leaves it as
  of one prefix of the WAL (L: `Replay.TornFileHeals`).
- A reset happens after a complete backfill, and its salt was never used before. No reset happens
  between a manager's read of the database file and its first sync that captures a salt
  (L: `ResetLimits`); the pinned read transaction is what the code
  relies on for this. A doc comment says that a snapshot is taken under that transaction
  (src/manager.rs:188-189), but `recover` and `checkpoint` take theirs with it released.
- Without compression no frame, whole or torn, and no WAL begins with a compression magic. A frame begins with its
  page number, so this excludes the pages numbered 0x574C3401 and 0x575A5301. With LZ4 or zstd
  nothing is assumed.
- `compact` is called on two or more segments only if its chunk size is not 0, where its loop would
  not end, and no chunk begins with a compression magic, or compression is on
  (L: `Recutting`, `CompactionLimits`). `MayCompact` finds out beforehand.
- Codecs, cipher, JSON and UTF-8 undo what they did, and a serialised manifest begins with a brace.
  `Consistency.LawfulExists` shows that for every choice of settings such a configuration exists.
- The clock does not run backwards. Generation ids are fresh and contain no slash.
- The part of the bucket under the client's prefix is written by this program only and is sound to
  begin with (`Registered`, `Sound`); an empty bucket is (`Runs.FromScratch`). Downloads and listings
  do not fail for other reasons than a missing key.

## Where the code and its documentation differ

The model follows the code. The layout in the repository's README.md shows segment keys `wal/0` and
`wal/1`; the code pads to eight digits, and the listing fallback needs that. The comment at the end
of `compact` says that orphans go away with the next compaction; the code deletes only what the
manifest named (`CompactionLimits.OrphansOutliveCompaction`). Retention deletes the manifest first, so an
interrupted deletion leaves objects that no later retention finds (`Retention.RetentionSpares`: only
a generation with a readable manifest expires). The marker is said to be updated only after
the snapshot is uploaded and so to name a valid generation; that is proved, including the window in
which that generation has no manifest yet and the listing stands in for it.

## Model

| member | source | states |
|---|---|---|
| Manager.BackupManager.SyncWal | src/manager.rs:220-279 | When it returns true, the store restores to exactly what the application saw when the WAL was read. Every durable state on the way restores to the shipped bytes before or after, no older position than any before, and failure at any point keeps that. It ships if and only if complete frames are waiting; a reset leads to a new generation and touches no other one. No restore to a time past changes. After an error the manager is in order, and may go on, if and only if its manifest is what it was. It fails only if one store call of it failed or the encoder refused its input, and succeeds only if none did. The salt is captured from any WAL longer than its header; the read transaction is held after a recovery exactly if that succeeded, and else left alone; a generation keeps its time of creation. |
| Manager.BackupManager.SyncFacts | src/manager.rs:234-247 | On a live WAL with frames, recovery starts if and only if the epoch being followed has ended: appends never trigger it, a reset always does. |
| Manager.BackupManager.ShippingReachesTip | src/manager.rs:249-256 | The aligned part of the live WAL extends what was shipped, its new piece survives the pipeline, and snapshot plus that part opens to the live content. |
| Manager.BackupManager.SyncFollowed | src/manager.rs:240-278 | The decision, the new segment's index, offset, size and time, and the bytes shipped, all exactly; the position reached is the end of the history as read. An error has a failed store call or a refusing encoder behind it. |
| Manager.BackupManager.ShipSegment | src/manager.rs:256-277 | Segment first, manifest second: at every moment a reader gets the bytes shipped before or all of the new ones. A failure leaves the manager in order if and only if the manifest has not changed; else it says exactly what is left behind. |
| Manager.BackupManager.LeftBehindIsOut | src/manager.rs:271-277 | A manager whose manifest names a segment that index and offset have not passed is never in order, whatever became of the upload. |
| Manager.BackupManager.UploadSegment | src/manager.rs:256-259 | A segment uploaded under an index not in use changes no restore, and whatever segment list it is to extend would then hold the longer data. |
| Manager.BackupManager.UploadManifest | src/manager.rs:400-406 | Either nothing has changed for a reader, or the generation is published with exactly the data that the manifest names. |
| Manager.BackupManager.PipelineEncode | src/manager.rs:159-167 | Whatever was encoded decodes to the payload, for every salt and nonce drawn. |
| Manager.BackupManager.Snapshot | src/manager.rs:190-216 | What each of the three uploads shows a reader, exactly: for a new generation the state before, then the file; for a published one whose segments fit the file (`Tidy`), the segments' end and then the file; always a database of the history. Otherwise the ledger counts a mixture. Afterwards tracking starts over with no segments. Segments, times, offset, index and salt are given for success, and for failure: untouched or started over. |
| Manager.BackupManager.TidyBelongs | src/manager.rs:190-216 | With no segments, segments of the current epoch that reach at least as far as the backfill, or all segments of the epoch before and nothing backfilled since, snapshot and segments show one state of one epoch. |
| History.OlderEpochFits | src/manager.rs:190-216 | A file that a reset left, and nothing has been backfilled into since, is the epoch before with all its frames. |
| Manager.BackupManager.Restart | src/manager.rs:300-305 | A fresh id, an empty manifest and a snapshot; no object of another generation changes. The manifest is stamped with the time of the restart. |
| Manager.BackupManager.Recover | src/manager.rs:292-311 | After a reset a new generation is published without a reader ever being taken back. The WAL is pinned again if and only if that succeeded. |
| Manager.BackupManager.Checkpoint | src/manager.rs:315-340 | While the epoch lasts everything complete in the WAL is shipped first; a checkpoint is asked for once; a new generation is published. Whatever happens, a reader always gets a database of the history and never one of an earlier epoch; unless the TRUNCATE was held up, never an earlier one at all, also when any step fails. On success readers are not taken back if and only if the backfill reached the position synced. For every exit it is said whether the WAL is pinned: as the sync leaves it if the sync fails, not if the TRUNCATE is refused, and pinned once the TRUNCATE has reported success, also if the snapshot then fails; and which of the three causes an error has. |
| Manager.BackupManager.Truncate | src/manager.rs:322-324 | The connection's counter moves if and only if a TRUNCATE reported success and left the WAL in place. It is refused exactly inside the connection's own transaction or when the world refuses it. |
| Manager.BackupManager.Shutdown | src/manager.rs:376-395 | One last sync with all its guarantees, its error swallowed, then the read transaction is released; as long as no call fails everything complete has been shipped and restores to what the application saw. A second call does nothing. |
| Manager.BackupManager.New | src/manager.rs:84-131 | On any sound store, whatever earlier managers left in it, the manager starts in agreement with store and database; while it does, a reader gets what was there before or the new snapshot, and no restore to a time past changes. `Ledger.NothingKnown`: it can be started without knowing anything about the generations in the store. Its generation is stamped with the time at which it starts, and has no segments. It fails only if a call does. |
| Manager.BackupManager.BeginReadTransaction | src/manager.rs:134-143 | Afterwards the connection pins the WAL; the bookkeeping is untouched. |
| Manager.BackupManager.EndReadTransaction | src/manager.rs:146-152 | Afterwards the connection pins nothing; the bookkeeping is untouched. |
| Manager.BackupManager.Compact | src/manager.rs:489-564 | Called when `CanCompact` holds for the size asked for, or for 4 MB: no durable state during it, failed or not, restores anything else than before. The new segments tile the same bytes in full chunks of that size but the last, as few as any cutting allows, not more than before when no old one was larger; indices continue the old ones; the old objects are gone; nothing else in the manifest changes. Restores to times before the snapshot stay. An error has a cause, and after it the manager is in order unless it was the manifest that could not be uploaded. |
| Manager.BackupManager.TimesForgotten | src/manager.rs:529-534 | What compaction costs: every time from the snapshot to the compaction restores the bare snapshot. |
| Manager.BackupManager.MayCompact | src/manager.rs:510-523 | A caller can decide from the store alone whether chunks of the size asked for, or of 4 MB, make progress and are all carried. |
| Manager.BackupManager.UploadChunks | src/manager.rs:518-538 | The loop ends, the chunks hold the old data under unused indices, and no reader notices one of them. |
| Manager.BackupManager.SwapSegments | src/manager.rs:542-548 | Replacing the segment list changes nothing for a reader; offsets stay true WAL offsets, so syncing goes on from here. |
| Manager.BackupManager.RemoveObjects | src/manager.rs:550-552 | Deleting objects that the manifest does not name, all of them or only some, changes no restore. |
| Manager.BackupManager.SegmentsHoldShipped | src/manager.rs:529-534 | In every valid state the segments tile the first `wal_offset` bytes, each can be fetched, and together they are exactly the bytes shipped. |
| Manager.BackupManager.EnforceRetention | src/manager.rs:410-436 | On success a generation other than the current one is gone if and only if it has a readable manifest and was created longer ago than the retention period; every other one is byte for byte as it was, and the count is right. Every state on the way has lost only objects of those, keeps every restore of the latest backup, and keeps all bookkeeping valid. It fails only if a deletion does. |
| Retention.RetentionPast | src/manager.rs:410-436 | For every time: the generation chosen stays the same, and with it the files restored, if and only if it is not one of those removed. |
| Manager.BackupManager.ListGenerationManifests | src/manager.rs:439-458 | The loop finds what `Retention.FoundInStore` characterises. |
| Manager.BackupManager.DeleteGeneration | src/manager.rs:472-482 | Every object under the other generation's prefix goes, and nothing else at any time. |
| Manager.BackupManager.PresentIsLatest | src/manager.rs:739-770 | In every valid state in which the current snapshot is the latest one, a restore to the present equals a restore of the latest backup and opens to the tracked position. |
| Manager.BackupManager.AnyTimeShowsPast | src/manager.rs:714-804 | After every operation, failed or not, and for every time: the generation that the restore chooses gives its snapshot and a prefix of the WAL of one epoch; if the cut fits the snapshot, as it always does in a generation never compacted, they open to the history at an explicit position. |
| Manager.BackupManager.ValidWhile | src/manager.rs:59-66 | Whatever the application does once a salt is captured, the bookkeeping stays true. |
| Runs.Execute | src/manager.rs:190-564 | Every operation keeps the invariant, the history and the pinned WAL; a failed sync, compaction or retention can be left at that unless it was a manifest that could not be uploaded. A reader is taken back only by a bare snapshot or a checkpoint that was held up, never to an earlier epoch, and gets a mixture only from a snapshot beside segments that do not fit it. It fails only if a call does, and if none does each command has achieved what it is for. |
| Runs.RunAll | src/manager.rs:190-564 | For every sequence of operations, interleaved with the application in any way, going on after errors that do no harm: without bare snapshots and held-up checkpoints no reader is ever taken back; held up or not, never to an earlier epoch, and every durable state restores to a database of the history; without compaction restores to all times do; and operations that only add change no restore to a time past. A run gets to its end unless a store call fails, the encoder refuses its input or a checkpoint is refused. |
| Runs.SyncThenRestore | src/manager.rs:611-685 | End to end: after a sync that shipped something, the restored files open, under any configuration with the same key, to what the application saw. The sync succeeds unless a call fails. |
| Runs.FromScratch | src/manager.rs:84-131 | From an empty bucket, with no hypothesis about the store, starting and running any script has all these guarantees. In a world in which no call fails the manager starts and the script runs to its end. |
| Runs.RunLives | src/manager.rs:84-131 | Any number of managers one after the other, each ended at any point by a failure, with the database running on in between: once a durable state can be restored, all later ones restore to databases of the history; restores to times past keep their meaning across all lives. |
| Runs.LivesFromScratch | src/manager.rs:84-131 | The same from an empty bucket, with no hypothesis about the store: without bare snapshots, once restorable the store always restores to a database of the history; without compaction it does so for every time asked for. |
| Runs.RestoreAsOf | src/manager.rs:611-625 | A restore to a time past gives what a restore of the latest backup gave at that time, whatever has been synced, checkpointed, recovered or crashed since, under any configuration with the same key. |
| Replay.ReplayAbsorbsBackfill | src/manager.rs:201-204 | A database file with an initial part of the WAL already in it, followed by the whole WAL from its start, is the original file followed by the WAL: why the offset may restart at 0 after an incomplete checkpoint. |
| Replay.LookalikeReplays | src/manager.rs:201-204 | The same for a file that only looks so to a reader, and may be cut off at its size, if pages that come into view have been written. |
| Replay.TornFileHeals | src/manager.rs:190-192 | A file read in the middle of a checkpoint, each page as of another prefix of the WAL, is as good as any once the WAL follows it that far. |
| Replay.OverlayAbsorbs | src/manager.rs:201-204 | Writing frames over a prefix of themselves is writing them once. |
| History.SnapshotPlusWal | src/manager.rs:677-680 | A snapshot plus at least as many frames as were backfilled into it opens to the history at the last of these frames. |
| Live.LiveDatabase.ContentIsTip | src/manager.rs:322-324 | Backfilled or not, the application sees the end of the history. |
| Live.LiveDatabase.CheckpointTruncate | src/manager.rs:322-324 | Refused inside the connection's own read transaction; else complete, or held up after a partial backfill with the WAL left alone. |
| Tracking.DiscontinuityIsReset | src/manager.rs:808-830 | With distinct salts the check is exact: it fires on a WAL with frames if and only if its epoch is not the one followed. |
| Wal.CheckIsExact | src/manager.rs:808-830 | Against what was shipped, a WAL passes if and only if it is no shorter and carries the same salt, so every continuation passes; a shorter one never does, whether a salt was captured or not. |
| Tracking.BelongsShows | src/manager.rs:201-204 | A snapshot with shipped bytes of one single epoch opens to the history at the position they amount to. |
| Tracking.FollowingStable | src/manager.rs:281-289 | What was shipped stays a prefix of its own epoch's WAL, whatever is appended and however often it is reset. |
| Tracking.ShipNext | src/manager.rs:249-276 | Shipping up to the aligned length stays within the epoch, ends on a frame boundary, reaches the end of the history and never goes back. |
| Wal.AlignedLenIsGreatest | src/manager.rs:21-36 | No header plus whole number of frames inside the WAL is longer than the aligned length. |
| Wal.AlignedLenHoldsFrames | src/manager.rs:21-36 | The aligned length is itself the header plus all complete frames; without any it is the header, or what there is of it. |
| Wal.AlignedLenMonotone | src/manager.rs:21-36 | Appending bytes never moves the boundary or the frame count back. |
| Wal.Be32ReadsBack | src/manager.rs:27-28 | The reading of the page size undoes the big-endian writing of every 32-bit number. |
| Wal.AlignedPrefix | src/manager.rs:21-36 | A WAL cut at any frame boundary is aligned exactly there, with that many frames. |
| Wal.FramesOfAligned | src/manager.rs:249-256 | Dropping the torn tail loses no complete frame, and aligning again changes nothing. |
| Wal.FramesPrefix | src/manager.rs:249-256 | The frames of a prefix of the WAL are a prefix of its frames. |
| Pipeline.RoundTrip | src/manager.rs:159-184 | Decoding undoes encoding for every payload, algorithm, key, salt and nonce, and under any algorithm configured for decoding; without compression for every payload that does not begin with a magic. |
| Pipeline.UncompressedRoundTrip | src/compression.rs:33-63 | Without compression, what comes back for every payload: itself, or for a payload beginning with a magic whatever the decoder makes of its tail. |
| Pipeline.UncompressedLosesMagicPayload | src/compression.rs:9-11 | Such a payload exists for every lawful codec: it comes back empty. |
| Pipeline.ObjectLayout | src/encryption.rs:23-45 | The positions of magic, salt, nonce and sealed body in an encrypted object, and of the algorithm's magic in a compressed one; each part decodes to what went in. |
| Pipeline.EncodeFails | src/manager.rs:159-167 | Encoding fails if and only if zstd, the key derivation or the cipher refuses its input. |
| Pipeline.MissingKeyUnnoticed | src/manager.rs:170-184 | Decoding an encrypted object without a key does not fail: it gives the stored bytes themselves. |
| Pipeline.KeyAddedLater | src/encryption.rs:49-52 | Objects written before a key was configured stay readable with it: all compressed ones, and the uncompressed ones that do not themselves look encrypted. |
| Pipeline.LookalikeUnsealed | src/encryption.rs:49-66 | An uncompressed object that looks encrypted is taken apart and unsealed with the key. |
| Pipeline.ManifestRoundTrip | src/manager.rs:461-469 | A manifest survives the pipeline under every configuration, uncompressed ones included. |
| Keys.SegmentKeyInjective | src/manager.rs:258 | Different indices never share a key, at any number of digits. |
| Keys.SegmentKeyOrder | src/manager.rs:258 | Below 10^8 the listing order of segment keys is the order of their indices. |
| Keys.SegmentKeyOrderBreaks | src/manager.rs:258 | At 10^8 it is not: the key with nine digits sorts in front. |
| Keys.ValueOfPadded | src/manager.rs:258 | The digits of a segment key denote its index. |
| Keys.PaddedLength | src/manager.rs:258 | The padded index has eight digits if and only if it is below 10^8, and never fewer. |
| Keys.LessIsNumeric | src/s3.rs:145 | On digit strings of one length lexicographic order is numeric order. |
| Keys.GenerationsDisjoint | src/manager.rs:473-475 | No key lies under the prefixes of two generations. |
| Keys.TrimManifestKey | src/manager.rs:444-445 | Trimming undoes the construction of a manifest key, and trims no more. |
| Keys.OtherKeysAreNotManifests | src/manager.rs:725 | No other key that the manager writes is taken for a manifest. |
| S3.S3Client.ListKeys | src/s3.rs:122-149 | The keys under the prefix, each once, relative and strictly sorted, whatever pages the bucket answers with and whatever else it holds. |
| S3.ClientsApart | src/s3.rs:41-47 | Two clients of one bucket with different prefixes never meet on a key. |
| S3.S3Client.PutObject | src/s3.rs:78-88 | The one object is replaced; on failure it is or it is not. Whether it is reported as failed is the world's choice for this call, and counted. |
| S3.S3Client.DeleteObject | src/s3.rs:103-113 | The one object is gone; on failure it is or it is not. Whether it is reported as failed is the world's choice for this call, and counted. |
| S3.S3Client.DeleteObjects | src/s3.rs:115-120 | Every state on the way lacks exactly an initial part of the keys; on success all are gone. It stops at the first failure. |
| Order.SortedKeysUnique | src/s3.rs:145 | There is only one strictly sorted enumeration of a set of keys. |
| Order.SortGivesListing | src/s3.rs:145 | Sorting a duplicate-free enumeration of the keys gives that enumeration. |
| Durable.HoldsFetch | src/manager.rs:656-662 | Fetching what the segments name gives exactly the data that they hold. |
| Durable.HoldsTiles | src/manager.rs:271-277 | Segments that hold data cover it contiguously from 0, none of them empty. |
| Durable.HoldsAppend | src/manager.rs:256-272 | A piece uploaded under a higher index and added to the list extends what is held by just that piece. |
| Durable.HoldsPrefix | src/manager.rs:766-779 | An initial part of the segments holds an initial part of the data, up to the next one's offset. |
| Durable.PublishedRestores | src/manager.rs:627-685 | A generation that is published restores to its snapshot and exactly the shipped bytes. |
| Durable.PublishedFrame | src/manager.rs:485-488 | Objects that the marker, the manifest and its list do not name play no part in a restore. |
| Durable.RestoreFrame | src/manager.rs:635-662 | A restore reads only the marker and what lies under the generation that it names. |
| Durable.SoundStep | src/manager.rs:516-552 | A change within one generation cannot make the manifest of another promise what is not there. |
| Steps.SegmentFits | src/manager.rs:256-259 | Between the upload of a segment and that of the manifest a reader sees nothing new. |
| Steps.ManifestUploaded | src/manager.rs:400-406 | Once all that it names is there, uploading the manifest publishes it. |
| Steps.FirstSnapshotUploaded | src/manager.rs:193-194 | The snapshot of a generation that is not yet marked changes no restore. |
| Steps.MarkerUploaded | src/manager.rs:197-199 | A marker that names a generation with a snapshot and no manifest yet restores that snapshot, with no WAL. |
| Steps.NewIdUnused | src/manager.rs:300-301 | No object in the store and no marker belongs to a freshly drawn id. |
| Steps.DeletionFits | src/manager.rs:550-552 | The loss of any initial part of a list of orphans is noticed by no reader. |
| Steps.OldSegmentsAreOrphans | src/manager.rs:503-526 | When the manifest names only indices from the old `wal_index` on, none of the deleted keys is one that it names. |
| Compaction.ChunkCount | src/manager.rs:522-540 | Full chunks and a last one number the total divided by the chunk size, rounded up. |
| Compaction.FewestChunks | src/manager.rs:522-540 | No other cutting into pieces of at most the chunk size has fewer pieces. |
| Recutting.CompactedRestores | src/manager.rs:522-552 | What a store restores to after compaction, safe or not: the snapshot and the chunks as they read back, or the first error. |
| Recutting.ReadBackIsExact | src/manager.rs:525-527 | What a chunk reads back as, exactly, for every salt and nonce. |
| Recutting.SafeToCompactIsExact | src/manager.rs:522-527 | Compaction keeps the data under all lawful codecs if and only if no chunk begins with a compression magic, or compression is on. |
| Retention.FoundInStore | src/manager.rs:439-458 | The listing yields each generation with a readable manifest once, under its own id, and nothing else. |
| Retention.RetentionSpares | src/manager.rs:420-428 | A generation expires if and only if it is not the current one, has a readable manifest and was created before the cutoff; the marker and all other generations stay byte for byte, nothing of an expired one stays. |
| Retention.CutoffMeetsPeriod | src/manager.rs:416-425 | The cutoff of a subtraction that saturates at 0 expires exactly the generations created longer ago than the period. |
| Retention.ManifestListedFirst | src/manager.rs:472-475 | The first key deleted of a generation is its manifest, so a half-deleted generation never promises what is gone. |
| Retention.RemovalFits | src/manager.rs:472-482 | Every state during the deletion of another generation restores what it did, and no manifest in it names a lost object. |
| Restore.FetchSegments | src/manager.rs:656-662 | The download loop gives the concatenation that `Durable.HoldsFetch` is about, or the first error. |
| Restore.FetchReads | src/manager.rs:656-662 | The download succeeds if and only if every object asked for is there and decodes. |
| Restore.FetchJoins | src/manager.rs:657-662 | Each object's decoded bytes stand behind those of the keys before it and in front of those of the keys behind it. |
| Restore.SegmentKeysFromManifest | src/manager.rs:689-707 | The manifest's keys in list order, or the sorted listing if there is no readable manifest. |
| Restore.RestoreLatestFiles | src/manager.rs:627-671 | The method computes the function of the store that all the theorems about readers are about, errors included; `Restore.LatestInventsNothing` says when that succeeds and with which snapshot. |
| Restore.LatestInventsNothing | src/manager.rs:635-671 | In any store: the restore succeeds if and only if the marker names a generation whose snapshot and segments, by manifest or by listing, are all there and decode; the database file is that snapshot. A missing marker, a marker that is no text and a missing snapshot give their errors. |
| Restore.CollectManifests | src/manager.rs:720-731 | The loop gathers the readable manifests, the same that `PointInTime.AllManifestsAre` characterises. |
| Restore.RestorePitrFiles | src/manager.rs:714-791 | The same for a point in time; its meaning is `PointInTime.PitrRestores`. |
| Restore.PitrInventsNothing | src/manager.rs:733-779 | In any store: the restore to a time succeeds if and only if a generation is chosen and its snapshot and all its segments uploaded by then are there and decode; the database file is that snapshot. |
| PointInTime.SortThenFind | src/manager.rs:739-750 | Sorting latest first and taking the first not after the time equals one pass that keeps the best so far. |
| PointInTime.BestIsLatest | src/manager.rs:742-750 | The best is in the list, not after the time, and no candidate is later; there is none if and only if all are after the time. |
| PointInTime.AllManifestsAre | src/manager.rs:720-731 | In a store of the manager's shape the manifests found are exactly those of its generations. |
| PointInTime.UpToIsPrefix | src/manager.rs:766-770 | Since times never decrease, the filter keeps exactly an initial part of the segments. |
| Restore.UpToKeeps | src/manager.rs:766-770 | The filter keeps a segment if and only if it was uploaded by the time asked for. |
| PointInTime.WalUpToIsPrefix | src/manager.rs:766-779 | The WAL placed for a time is an initial part of what was shipped, with all that was uploaded by then and nothing later. |
| PointInTime.LaterTimeExtends | src/manager.rs:766-779 | In one generation a later time gives an extension of what an earlier time gives. |
| PointInTime.PitrRestores | src/manager.rs:714-804 | In every sound store the restore succeeds if and only if some generation was snapshotted by then; it uses the latest such one and an initial part of its WAL. |
| PointInTime.PitrMeetsLatest | src/manager.rs:720-779 | Past every timestamp, and with the marked generation's snapshot strictly the latest, both restores place the same files. |
| Ledger.PitrShowsHistory | src/manager.rs:714-804 | For every generation of the history, current or superseded, and every time: the files are its snapshot and a prefix of one epoch's WAL, and open to the history at an explicit position if the cut fits; it does, on a frame boundary, in every generation never compacted. |
| Ledger.CutShows | src/manager.rs:766-779 | Any cut of a WAL, whole frames or not, that holds no frame or all that the snapshot holds, opens to the history at that cut. |
| Ledger.EveryTimeShown | src/manager.rs:714-804 | With every generation known and never compacted, a restore to any time opens to a database that the history went through. |
| Ledger.AccountedStep | src/manager.rs:516-552 | A change within one generation leaves what is known about all others true. |
| Past.ChosenIsFirst | src/manager.rs:739-750 | The generation chosen, ties included: the latest snapshot not after the time, and of several equally late ones the one listed first. |
| Past.FirstIsChosen | src/manager.rs:739-750 | The converse: a generation that comes first in this order is the one chosen. |
| Past.PastStands | src/manager.rs:714-779 | A change within one generation that leaves its own offers for the past alone changes no restore to a time past. |
| Past.UnnamedPast | src/manager.rs:256-259 | Uploading a segment not named yet, a first snapshot or the marker changes no point-in-time restore. |
| Past.ManifestPast | src/manager.rs:271-273 | Uploading a manifest that starts a generation now, or adds segments stamped now, changes no restore to an earlier time. |
| PointInTime.RestoreIgnoresAlgorithm | src/manager.rs:170-184 | No restore, latest or at any time, depends on the compression configured for it. |
| Fallback.ListingIsManifest | src/manager.rs:704-706 | Below index 10^8 the listing is the manifest's key list if and only if just the manifest's segments lie under the prefix. |
| Fallback.FallbackRestores | src/manager.rs:689-707 | In that case losing the manifest changes no restore. |
| Fallback.FailedDownloadRestores | src/manager.rs:694-706 | Nor does a failed download of a manifest that is there. |
| ResetLimits.ResetBeforeSaltSafe | src/manager.rs:204 | If the WAL is reset between a snapshot and the first sync, what is shipped later shows what the live database shows, for all databases and WALs, if and only if the backfill had reached the last commit when the snapshot was taken. |
| ResetLimits.ResetBeforeSaltShips | src/manager.rs:204 | In that case no discontinuity is seen, and what the next sync ships opens to the live database. |
| ResetLimits.ResetBeforeSaltLoses | src/manager.rs:204 | A history of two frames, a snapshot and a reset, in which the next sync leaves a store that restores to no database of the history. |
| StaleTail.FirstSyncHarmless | src/manager.rs:21-36 | Where a reset restarts the WAL in place, the first sync ships old frames behind the new ones; the frames with the current salt are the same. |
| StaleTail.LaterSyncAgrees | src/manager.rs:808-830 | A later sync sees no discontinuity; what is shipped then is the WAL's own beginning if and only if the bytes shipped before still are. |
| StaleTail.OverwrittenUnseen | src/manager.rs:249-254 | A restarted WAL whose old frame is overwritten after the first sync: the next sync finds nothing to ship while the application sees the new frame. |
| SnapshotLimits.TidyIsExact | src/manager.rs:190-212 | For every number of frames shipped and backfilled: a snapshot fits the segments beside it, for all databases and WALs, if and only if there are none or they reach at least as far as the backfill. |
| SnapshotLimits.TidyAcrossIsExact | src/manager.rs:190-212 | Segments of the epoch before fit the file if and only if there are none, or they are all of it and nothing has been backfilled since. |
| SnapshotLimits.SnapshotAheadOfSegmentsMixes | src/manager.rs:190-212 | For all numbers that fail the first condition there is a published generation of one epoch whose new snapshot, before the manifest follows, restores to no database of the history. |
| SnapshotLimits.SnapshotOfLaterEpochMixes | src/manager.rs:190-212 | So there is for all segments of an epoch beside a file with one later frame in it. |
| SyncLimits.RepeatIsExact | src/manager.rs:271-277 | A piece of the WAL may be repeated, for all databases and all frames before it, if and only if it ends with a commit or has none. |
| SyncLimits.CarryingOnRestoresTwice | src/manager.rs:271-277 | From what a failed upload of the manifest leaves behind, the next sync makes a store that restores to the segment's bytes twice in a row, and a list that tiles nothing. |
| SyncLimits.CarryingOnMixes | src/manager.rs:271-277 | A generation following a WAL of three frames in which going on leaves a store that restores to no database of the history. |
| CompactionLimits.CompactionLosesData | src/manager.rs:522-527 | Without compression there are a WAL of two frames, shipped in two segments that read back well, and a chunk size for which the chunks come back shorter, without an error. |
| CompactionLimits.OrphansOutliveCompaction | src/manager.rs:550-552 | Orphans of an earlier failure stay in the store, and the listing then never equals the manifest's list. |

## Left out

- Manager.BackupManager.Snapshot: for a published generation whose segments do not fit the file it gives no position for the states in between; `SnapshotLimits` shows that the guard is exact within an epoch and from one epoch to the next; segments of a still earlier epoch count as not fitting.
- Manager.BackupManager.Compact: is called only when `CanCompact` holds; `Recutting.CompactedRestores` says what it does otherwise, as a theorem about the store and not as a run, and `Runs.Execute` skips such a call.
- Manager.BackupManager.BeginReadTransaction: opening the transaction never fails here; the source returns the error.
- Manager.BackupManager.Checkpoint: whether other readers hold a TRUNCATE up is the environment's choice, counted on the connection.
- Runs.RestoreAsOf: admits scripts that only add; what compaction and retention do to a time past is said by `TimesForgotten`, the contract of `Compact` and `Retention.RetentionPast`.
- ResetLimits.ResetBeforeSaltShips: the window between a snapshot and the first sync is excluded from the runs.
- StaleTail.OverwrittenUnseen: is about the bytes shipped and read, not a run; runs have no stale tails.
- SyncLimits.CarryingOnMixes: the steps after a failed manifest upload are taken on the store, since the manager's methods need its bookkeeping in order.
- Pipeline.MissingKeyUnnoticed: says what the decoder returns, not what SQLite or the JSON parser then makes of it.
- Live.LiveDatabase.CheckpointTruncate: locking, busy timeouts and SQL are not modelled; the outcome is failure, completion or a partial backfill. That a pinned reader also limits backfills and resets by others is not used, so the environment may do more than SQLite allows.
- Segment indices and counts are unbounded here; the source's `u32` would wrap after 2^32 segments of one generation, `u64` times and offsets are not bounded either.
- Operations that go on after a failed manifest upload, and errors swallowed by `end_read_transaction`.
- Frames overwritten after a rollback, and checksums.
- The retry loop, delays, network, regions and credentials of the S3 client: a put or delete that fails after its retries is one ambiguous failure.
- Failing downloads and listings other than a missing key; the source then returns the error, skips the manifest or uses an empty list.
- Concurrent managers on one prefix, and other programs writing under it.
- LZ4, zstd, AES-GCM, Argon2, JSON and UTF-8 themselves; they are function values with their inversion as hypothesis.
- Builds without the compression or encryption features; all features are on.
- `auto_restore` in `new`, file paths, fsync, writing the restored files, and removing a stale `-wal` file next to the target.
- `maybe_snapshot`, the statistics, `Drop`, the command line program, benches and logging.
