# Verified model of the storage control plane and runtime

A storage control plane keeps uploaded objects on a primary provider target and on replicas, makes image derivatives
from them, versions the configuration that says where objects go, and delivers them again. This project models the parts
where a mistake loses data, does work twice, or serves the wrong bytes, and proves what they promise.

* **Replica protection** (`Replica*.dfy`). `ReplicaTables` holds the registry rows and each store transaction as a
  function on them; `ReplicaStore` is the store with its scans and updates, proved against those functions.
  `ReplicaProtocol` lets any number of workers interleave, one transaction or provider call a step, with crashes, rolled
  back transactions and lost acknowledgements. `ReplicaSafety` finds the invariant, `ReplicaTheorems` draws the
  conclusions, `ReplicaStreams` covers the chunked reads and writes, `ReplicaWorkers` shows that the repair and
  retention programs only take steps of that protocol, `ReplicaProgress` says what a worker achieves that nobody disturbs
  and what incomplete protection leads to, and `ReplicaLeases` says exactly when a provider call made without a lease does
  harm.
* **PNG derivatives** (`Png*.dfy`). Filters, checksum, chunks, decoder, encoder, upload check, scaling and the whole
  processor, and the round trips between them. The chunk walks of decoder and upload check are specified turn by turn, as
  the loops go; what they mean is said apart from them, by `PngAcceptance.DecodesExactly` and
  `PngVerification.AcceptsExactlyLaidFiles`.
* **MP4 upload check** (`Mp4*.dfy`). Box reading, the recursive traversal under one shared counter, which headers have a
  duration (`Mp4Duration`), which files count as MP4 (`Mp4FileType`), and the picture a file of written tracks is reported
  with (`Mp4Picture`).
* **Derivative queue** (`Derivative*.dfy`). A leased job queue with bounded attempts, its invariant, fencing and end, and what a
  worker can do with a job for how long (`DerivativeLeases`).
* **Configuration** (`Configuration*.dfy`). Validator, version lifecycle, what ends up in each version
  (`ConfigurationDrafts`), the tables a document is written to and read from, what one write does to the other versions,
  and the resolver's check of what is stored.
* **Idempotency** (`CanonicalJson`, `CanonicalOrder`, `CanonicalTheorem`, `JsonText`, `Idempotency`, `IdempotencySessions`,
  `DuplicateMemory`). The canonical printer behind fingerprints and both duplicate-protection stores, calls that join an
  enclosing transaction included.
* **Delivery** (`ByteRanges`, `Delivery`, `DeliveryOutcome`, `DeliveryStream`). Range requests, fallback between copies and
  which copy answers, and the stream.

`dafny verify dfyconfig.toml` checks everything.

Where the code falls short of what one would expect of it, the code is kept, a failing input is given, and the exact
condition is proved: an odd movie timescale throws (`Mp4Duration.DurationIsRounded`), a failure that an enclosing transaction
swallows lets an operation run twice (`IdempotencySessions.JoinedCallIsOnceExactly`), map keys of the in-memory store can
collide (`DuplicateMemory.MapKeyCollides`), undefined prints like null (`CanonicalTheorem.UndefinedPrintsLikeNull`), version
numbers of deleted drafts may come back (`ConfigurationVersions.DeletedNumberIsReused`), a later draft can change what an
active version reads (`ConfigurationSharing.OtherVersionReadsTheSame`), and a provider call after a lost lease can destroy
the last good copy (`ReplicaLeases.UnleasedCleanupLosesData`, `ReplicaLeases.CleanupKeepsGuardExactly`).

## Model

| member | source | states |
|---|---|---|
| ReplicaTheorems.LastGoodCopyIsNeverDeleted | src/runtime-replica-protection.ts:1156-1308 | Over every interleaving of repair and retention workers, crashes and lost acknowledgements included: once the primary, or a replica recorded as verified, holds the exact bytes, some such target holds them ever after |
| ReplicaTheorems.RegistryTellsTheTruth | src/runtime-replica-protection.ts:1052-1308 | If uploads record replicas honestly, then after any run every replica recorded as verified with the object's digest really holds bytes of that checksum and length |
| ReplicaTheorems.RetentionGuardHolds | src/runtime-replica-protection.ts:900-976 | Whenever a retention wins its compare-and-set, every listed replica is still recorded exact, the EXISTS guard on the object update holds, and the object becomes active while its primary copy becomes deleted |
| ReplicaTheorems.AttemptsAreCounted | src/runtime-replica-protection-postgres.ts:169-201 | After any run the attempts per copy and operation are exactly 1 to n, n is at most 8, and only the highest may be in progress |
| ReplicaTheorems.SupersededChangesNothing | src/runtime-replica-protection.ts:482-1045 | A worker whose attempt was followed by a later one is refused by completion and failure of either kind at every time, so it changes no row |
| ReplicaTheorems.ClockNeverFences | src/runtime-replica-protection.ts:1156-1162 | Because a worker records its outcome with its claim time, its lease never looks expired: token and in-progress state alone decide |
| ReplicaTheorems.FailedRepairIsRetried | src/runtime-replica-protection-postgres.ts:169-330 | A failed repair is a candidate again exactly when its failure was retryable, it was not the eighth attempt, a minute has passed, the object is neither deleted nor about to be, and tenant, object and source are as every repair needs them |
| ReplicaTheorems.FailedRetentionIsRetried | src/runtime-replica-protection-postgres.ts:427-515 | A failed deletion is a candidate again exactly when its failure was retryable, it was not the eighth attempt, a minute has passed, and primary, due date, tenant and object allow it; finding a replica wrong makes the object degraded first |
| ReplicaTheorems.ClaimLastsForItsLease | src/runtime-replica-protection-postgres.ts:245-387 | A claimed repair is a candidate again exactly when its lease is over and it was not the eighth attempt |
| ReplicaTheorems.HistoryOverRun | src/runtime-replica-protection-postgres.ts:245-387 | Attempt rows are never removed or renumbered, and a finished attempt never changes again |
| ReplicaTheorems.UploadIsNeverLost | src/runtime-replica-protection.ts:1156-1308 | From its upload on, an object has in every state of every run some target with its verified bytes |
| ReplicaLeases.CleanupKeepsGuardExactly | src/runtime-replica-protection.ts:1168-1177 | A cleanup that takes effect, made with or without a lease, leaves an object guarded exactly when a copy other than the one removed guards it |
| ReplicaLeases.WriteKeepsGuardExactly | src/runtime-replica-protection.ts:1197-1204 | A write, with or without a lease, leaves an object guarded exactly when another copy guards it or the bytes left at a copy that counts match |
| ReplicaLeases.DeletionKeepsGuardExactly | src/runtime-replica-protection.ts:1287-1294 | A deletion of a primary, with or without a lease, leaves an object guarded exactly when another copy guards it |
| ReplicaLeases.UnleasedCleanupLosesData | src/runtime-replica-protection.ts:1218-1226 | A run from an initial state ends with a worker that has lost its lease and still means to clean up, while its replica holds the last good bytes; that cleanup leaves the object unguarded |
| ReplicaTheorems.DeletionLeavesReplica | src/runtime-replica-protection.ts:1265-1296 | The step that deletes a primary leaves a replica that is recorded exact and holds the exact bytes |
| ReplicaTheorems.NewRecordIsRepair | src/runtime-replica-protection.ts:482-598 | No step other than a completed repair ever makes a replica count as recorded exact |
| ReplicaTheorems.RepairedBytesExact | src/runtime-replica-protection.ts:1158-1245 | When a repair records success under its lease, the replica holds exactly the expected content, and the object was verified with that content |
| ReplicaTheorems.RunKeepsInv | src/runtime-replica-protection.ts:1156-1308 | In every reachable state rows are linked, attempts are numbered and leased, and what each live worker has seen at the providers is still so |
| ReplicaSafety.StepKeepsInv | src/runtime-replica-protection.ts:1156-1308 | Each single database transaction or provider call of any worker keeps that invariant |
| ReplicaSafety.CallLeavesOthers | src/runtime-replica-protection.ts:1156-1308 | A provider call of one live worker changes nothing another live worker relies on |
| ReplicaSafety.RecordLeavesOthers | src/runtime-replica-protection.ts:482-1045 | A completion or failure transaction of one worker changes no row another live worker relies on |
| ReplicaSafety.RepairTargetIsPrivate | src/runtime-replica-protection-postgres.ts:245-387 | The replica under a live repair is neither listed by a live deletion nor under another live repair |
| ReplicaSafety.RetentionIsPrivate | src/runtime-replica-protection-postgres.ts:427-640 | Two live deletions never concern the same object |
| ReplicaSafety.ClaimRepairKeepsTables | src/runtime-replica-protection-postgres.ts:245-387 | A repair claim expires the old lease, numbers the next attempt without gap and leaves the tables consistent |
| ReplicaSafety.ClaimRetentionKeepsTables | src/runtime-replica-protection-postgres.ts:427-640 | A retention claim does so too, whether it starts a deletion or reports incomplete protection |
| ReplicaSafety.ClaimRetentionDrops | src/runtime-replica-protection-postgres.ts:427-640 | A retention claim takes the verified state only from replicas whose digest differs from the object's |
| ReplicaSafety.HistoryIsAppendOnly | src/runtime-replica-protection.ts:482-1045 | No step removes, renumbers or reopens an attempt |
| ReplicaSafety.LivenessOnlyEnds | src/runtime-replica-protection-postgres.ts:245-387 | A worker that has lost its lease never regains it |
| ReplicaStore.ProtectionStore.MayTry | src/runtime-replica-protection-postgres.ts:169-201 | True exactly when no latest attempt forbids another and fewer than eight were made |
| ReplicaStore.ProtectionStore.PickCandidate | src/runtime-replica-protection-postgres.ts:245-330 | The row taken is a candidate, unlocked, and before every other candidate; none is answered only when there is none |
| ReplicaStore.ProtectionStore.ListReplicas | src/runtime-replica-protection-postgres.ts:530-547 | Exactly the configured replicas with an active connection, in target order and then by identifier |
| ReplicaStore.ProtectionStore.ClaimRepair | src/runtime-replica-protection-postgres.ts:235-425 | Idle leaves rows alone and means no candidate; a claim starts the next attempt for the foremost candidate with a usable source; an unusable connection is an error that rolls back |
| ReplicaStore.ProtectionStore.ClaimRetention | src/runtime-replica-protection-postgres.ts:427-640 | The same for deletions, whose claim is blocked unless every listed replica is recorded exact |
| ReplicaStore.ProtectionStore.CompleteRepair | src/runtime-replica-protection-store.ts:74-211 | The new rows are those of the completion transaction, or an error code and unchanged rows |
| ReplicaStore.ProtectionStore.Ready | src/runtime-replica-protection-store.ts:162-189 | The object counts as protected exactly when it has one configured primary, some configured replica, and all of them recorded exact |
| ReplicaStore.ProtectionStore.FailRepair | src/runtime-replica-protection.ts:601-665 | The attempt closes with its retry time while budget remains, the copy becomes failed, the object degraded; or an error code and unchanged rows |
| ReplicaStore.ProtectionStore.CompleteRetention | src/runtime-replica-protection.ts:900-976 | The new rows are those of the deletion transaction, or an error code and unchanged rows |
| ReplicaStore.ProtectionStore.FailRetention | src/runtime-replica-protection.ts:978-1045 | The attempt closes, a replica named as wrong loses its verified state; or an error code and unchanged rows |
| ReplicaStore.ProtectionStore.MarkRepairRequired | src/runtime-replica-protection-postgres.ts:152-167 | Degrades the object unless it is being or has been deleted |
| ReplicaStreams.VerifyProviderObject | src/runtime-replica-protection.ts:1052-1089 | Whatever the chunking: verified exactly when the declared length, the counted length and the checksum are the expected ones and the stream did not break; an error exactly when it broke before the length was exceeded |
| ReplicaStreams.SourceMirror.Pull | src/runtime-replica-protection.ts:1097-1113 | Chunks pass in order and unchanged, too many bytes or a broken source raise an error, completion is claimed only after the last chunk |
| ReplicaStreams.SourceMirror.ResultIsMirror | src/runtime-replica-protection.ts:1091-1121 | After any number of pulls the mirrored bytes are a prefix of the source within the limit, and all of it when completion is claimed |
| ReplicaStreams.SourceMirror.Intact | src/runtime-replica-protection.ts:1218-1226 | The check after a write passes exactly when the whole source went through with the expected length and checksum |
| ReplicaWorkers.Site.ProcessRepair | src/runtime-replica-protection.ts:1156-1256 | Whatever providers, store and other workers do in between, the program only takes steps of the protocol, ends by handing its outcome to the store unless it lost its lease, and reports completion only if its completion was the last thing applied; which outcome it reaches is `ReplicaProgress.UndisturbedRepairHeals` |
| ReplicaWorkers.Site.CopySource | src/runtime-replica-protection.ts:1193-1229 | A failed write goes on only after the target verified; a copy counts only when the mirror saw the whole expected source; everything else ends in a pending failure |
| ReplicaWorkers.Site.ProcessRetention | src/runtime-replica-protection.ts:1258-1308 | The primary is deleted only after every listed replica was read back exact; processed is reported only if the completion was the last thing applied |
| ReplicaWorkers.Site.NothingIsLost | src/runtime-replica-protection.ts:1156-1308 | While any such program runs among others, no object loses its last good copy |
| ReplicaWorkers.Site.CompletedRepairIsExact | src/runtime-replica-protection.ts:1231-1245 | A repair that reports completion has left exact bytes at its replica, recorded as verified |
| ReplicaWorkers.Site.CompletedRetentionIsProtected | src/runtime-replica-protection.ts:1265-1296 | A deletion that reports success leaves every replica its claim listed exact, the primary deleted and the object active |
| ReplicaProgress.UndisturbedRepairHeals | src/runtime-replica-protection.ts:1156-1256 | A live repair whose calls all answer truthfully and take effect ends within seven steps: a replica that held the exact bytes keeps them, one that was missing or held other bytes holds the exact bytes of its source, and either is recorded as verified; with nothing exact at hand the attempt has failed, to be retried only if the source could not be read. Stated on what providers and rows hold before and after |
| ReplicaProgress.UndisturbedRepairEnds | src/runtime-replica-protection.ts:1156-1256 | Whatever the replica holds, such a repair never stops short: any such run can be continued to its end |
| ReplicaProgress.ClaimedRepairStarts | src/runtime-replica-protection-postgres.ts:245-387 | In every reachable state a claimed repair is one that can start, its lease running and its source a primary |
| ReplicaProgress.PassingTroubleIsRetried | src/runtime-replica-protection.ts:1246-1256 | Among any other workers: a repair that meets only failures marked as passing, from a source that holds the verified bytes, leaves a retryable attempt with its retry a minute later, unless it was the eighth |
| ReplicaProgress.UndisturbedRetentionFreesPrimary | src/runtime-replica-protection.ts:1258-1308 | A deletion whose calls all take effect ends within two steps more than it has replicas listed: if each of them held the exact bytes the primary is gone, recorded as deleted, and the object active; otherwise nothing is deleted, and exactly the first wrong replica loses its record |
| ReplicaProgress.UndisturbedRetentionEnds | src/runtime-replica-protection.ts:1258-1308 | Such a deletion can always be continued to its end |
| ReplicaProgress.DeletionWaitsForRetention | src/runtime-replica-protection-postgres.ts:427-515 | Whatever happens in between, a primary is deleted only for a claim made when the configured days since its last verification were over |
| ReplicaProgress.UnprotectedObjectIsDegraded | src/runtime-replica-protection-postgres.ts:427-640 | A retention claim starts a deletion exactly when a replica is listed and every listed one is recorded exact; otherwise it degrades the object; and every listed replica recorded with another digest can be repaired |
| ReplicaProgress.RepairCompletesProtection | src/runtime-replica-protection-store.ts:162-211 | A completed repair makes its object active and fully verified exactly when every configured copy is then recorded exact, and degraded otherwise |
| ReplicaProgress.WithdrawnReplicaIsRepaired | src/runtime-replica-protection.ts:978-1045 | A replica that a deletion found wrong is a repair candidate exactly when its own attempts allow one and tenant, object and source are as every repair needs them |
| ReplicaStore.ForemostWaitedLongest | src/runtime-replica-protection-postgres.ts:245-330 | The candidate taken is the one unchanged for longest, or for deletions the one verified first |
| PngFilters.UnfilterUndoesFilter | src/image-derivative-png.ts:136-158 | For any pixels and any filter type per row, what the decoder rebuilds from the filtered stream is the pixels |
| PngFilters.FilterUndoesUnfilter | src/image-derivative-png.ts:136-158 | Conversely a stream is the filtered form of exactly one image, the rebuilt one |
| PngFilters.UnfilteredFilterAll | src/image-derivative-png.ts:136-158 | Decoding any filtered form gives the image when all types are 0 to 4, and the unsupported-filter error otherwise |
| PngFilters.Unfilter | src/image-derivative-png.ts:136-159 | The in-place scanline loop, every neighbour read in bounds, computes the rebuilt image |
| PngFilters.UnfilterByte | src/image-derivative-png.ts:142-156 | One turn of the inner loop extends the rebuilt prefix by one byte and disturbs none before it |
| PngFilters.Paeth | src/image-derivative-png.ts:43-50 | The neighbour nearest to left + above - upperLeft, ties to left and then above |
| PngFilters.WriteScanlines | src/image-derivative-png.ts:217-225 | The encoder's loop writes each row behind a zero filter type |
| PngChunks.ReadFrame | src/image-derivative-png.ts:70-78 | A framed chunk in a file is read back with its type, data and checksum |
| PngChunks.FrameOfChunkAt | src/image-derivative-png.ts:207-215 | Framing what was read gives back the bytes it was read from |
| PngCodec.ReadChunks | src/image-derivative-png.ts:57-119 | The chunk loop equals the walk over the file, with each error where the walk has it |
| PngCodec.ScanFrames | src/image-derivative-png.ts:65-119 | Walking the bytes of framed chunks is processing the chunks in order |
| PngCodec.DecodePng | src/image-derivative-png.ts:52-160 | The decoder answers what its specification does, on every input |
| PngRoundTrip.DecodeGivesThePixels | src/image-derivative-png.ts:52-160 | Any filters, any split into IDAT chunks, any other chunks between or after: the decoder gives exactly the pixels |
| PngRoundTrip.DecodeUndoesEncode | src/image-derivative-png.ts:217-245 | For every complete image and every quality, if encoding succeeds then decoding gives the image back |
| PngAcceptance.DecodesExactly | src/image-derivative-png.ts:52-160 | A file decodes to an image exactly when it is the signature and a list of chunks with one header of that shape, image data only behind it, an end that is the last, and data that inflates to known filter types over the image's pixels; what follows the end is ignored |
| PngRoundTrip.EncodePng | src/image-derivative-png.ts:217-245 | The encoder answers what its specification does |
| PngRoundTrip.Level | src/image-derivative-png.ts:234 | The quality over twelve, rounded to nearest with halves up, and kept between 1 and 9 |
| PngRoundTrip.WriteChunk | src/image-derivative-png.ts:207-215 | Length, type, data and checksum in that order |
| PngCrc.Crc32 | src/image-derivative-png.ts:199-205 | The table-driven loop equals the bit-by-bit checksum of section 3.4 of RFC 2083 on every byte sequence |
| PngCrc.BuildTable | src/image-derivative-png.ts:187-197 | Entry k is the register k after eight zero bits |
| PngCrc.TableFeedsByte | src/image-derivative-png.ts:199-205 | One table lookup is eight bit steps |
| PngCrc.OneWrongByteIsDetected | src/image-derivative-png.ts:199-205 | Two inputs of one length that differ in at most one place and share a checksum are equal |
| PngVerification.VerifyPng | src/runtime-media-verification.ts:132-185 | The upload check answers what its specification does, on every input |
| PngVerification.AcceptsExactlyLaidFiles | src/runtime-media-verification.ts:132-185 | Accepted, with a given size, exactly when the bytes are the signature and framed chunks with letter types, a header of that size within the limit only first, and an empty IEND only last |
| PngVerification.LaidFileIsJudgedByItsHeader | src/runtime-media-verification.ts:132-185 | For files laid out that way the first chunk alone decides |
| PngVerification.VerifyAcceptsEncoded | src/runtime-media-verification.ts:132-185 | Every encoder output is accepted with the image's own width and height, up to the verifier's own pixel limit |
| PngResize.HeightWithinHalfARow | src/image-derivative-png.ts:163 | Before clamping the target height is within half a row of the exact proportion |
| PngResize.SampleIsFloor | src/image-derivative-png.ts:168-171 | The sampled index is the floor of the scaled index; its clamp never acts |
| PngResize.SampleMonotone | src/image-derivative-png.ts:168-171 | Sampling keeps the order of rows and columns |
| PngResize.SampleIdentity | src/image-derivative-png.ts:168-171 | At equal size each index samples itself |
| PngResize.ScaledSamples | src/image-derivative-png.ts:162-185 | An image of the target shape is the scaled one exactly when every byte of every pixel comes from the sampled source pixel |
| PngResize.ResizePixels | src/image-derivative-png.ts:162-185 | The copying loop reads whole pixels in bounds and produces the scaled image or the pixel-limit error |
| PngResize.ResizeToOwnWidth | src/image-derivative-png.ts:162-185 | Scaling to the image's own width is the identity |
| PngProcessor.ProcessImage | src/image-derivative-png.ts:247-276 | The processor answers what its specification does for every admitted job |
| PngProcessor.ProcessedPassesItsCheck | src/image-derivative.ts:196-245 | Output for any job that passed the source check passes the output check, with the requested width |
| PngProcessor.DerivativeShowsTheScaledImage | src/image-derivative-png.ts:247-276 | The derivative decodes to the source image scaled to the requested width, at every quality |
| PngProcessor.DerivativeAtOwnWidthIsLossless | src/image-derivative-png.ts:247-276 | At the source's own width it decodes to exactly the source pixels |
| PngProcessor.ProcessesExactly | src/image-derivative-png.ts:247-276 | An admitted job yields output exactly when its body has the recorded length and hash and decodes, and the scaled image keeps the pixel limit and its encoding the length limit; a body of another length or hash never does |
| PngProcessor.EncodesExactly | src/image-derivative-png.ts:217-245 | Encoding is refused exactly when 57 bytes and the compressed data exceed 16 MiB |
| PngProcessor.ResizesExactly | src/image-derivative-png.ts:162-166 | Scaling is refused exactly when the target has more than 64 Mi pixels |
| Mp4Boxes.WalkUndoesSerialize | src/runtime-media-verification.ts:200-227 | Serializing any well-formed box list with 32-bit, 64-bit or to-end sizes and walking it gives the list back, or the limit error when there are too many |
| Mp4Boxes.SiblingsTile | src/runtime-media-verification.ts:200-227 | A successful walk covers its parent without gap or overlap, in strictly advancing boxes, within the box limit |
| Mp4Boxes.NextBox | src/runtime-media-verification.ts:200-227 | A box that is accepted starts where asked, has room for its header and ends inside its parent |
| Mp4Boxes.ReadU64Loop | src/runtime-media-verification.ts:84-91 | Shifting byte after byte reads the big-endian 64-bit number |
| Mp4Duration.DurationIsRounded | src/runtime-media-verification.ts:229-249 | A timing has a duration exactly when its timescale is even and positive and the nearest whole number of milliseconds is positive and safe, and it is that number; an odd timescale with a positive duration throws, everything else is invalid |
| Mp4Duration.ReadTimingExactly | src/runtime-media-verification.ts:229-242 | A timing is read exactly when the header bytes, of the short or the long form, hold it |
| Mp4Duration.HeaderDurationExactly | src/runtime-media-verification.ts:229-249 | The same condition on header bytes, for the duration and for the throw |
| Mp4Duration.FilmIsJudgedByItsTiming | src/runtime-media-verification.ts:352-408 | A file of a file type and a movie with nothing but its header is accepted with the duration of its timing, or refused with that timing's error |
| Mp4Duration.OddTimescaleThrows | src/runtime-media-verification.ts:243-244 | Concrete files: a second at an odd timescale makes the whole check throw, one at an even timescale is accepted, and a quarter of a millisecond at an even timescale is invalid |
| Mp4Traversal.Traversal.Next | src/runtime-media-verification.ts:200-227 | The shared counter grows by one with every box looked at |
| Mp4Traversal.Traversal.FindSampleDescription | src/runtime-media-verification.ts:283-303 | The recursive search terminates and answers what its specification does |
| Mp4Traversal.Traversal.ParseTrackBox | src/runtime-media-verification.ts:305-350 | Same for a track |
| Mp4Traversal.VerifyMp4 | src/runtime-media-verification.ts:352-408 | Same for the file; what it answers is the rows below |
| Mp4Picture.FilmShowsItsLastVideoTrack | src/runtime-media-verification.ts:251-408 | For any list of written tracks, whatever their handlers, codecs, sizes and filling: within seven boxes a track and a depth of four the file is accepted with its header's duration and exactly the codec and size of its last video track, the sample's size when both numbers are positive and otherwise the track header's |
| Mp4Picture.ShallowLimitEndsTheTraversal | src/runtime-media-verification.ts:283-350 | With a depth limit below four such a file ends the traversal, as soon as it has a track |
| Mp4FileType.FileTypeExactly | src/runtime-media-verification.ts:364-375 | A file type is accepted exactly when it has its two fields, all its brands are printable, and one of them is isom, iso2, mp41, mp42, avc1 or M4V |
| Mp4Theorems.AcceptedFileIsCovered | src/runtime-media-verification.ts:352-408 | An accepted file is tiled by its boxes, movies, tracks and media by theirs; it starts with its only file-type box; its duration comes from the last movie header; at most the allowed number of boxes was visited |
| Mp4Theorems.MovieCovers | src/runtime-media-verification.ts:368-392 | A movie box that parses is tiled by children, its tracks are covered, and its duration is that of its last header |
| Mp4Theorems.TrackCovers | src/runtime-media-verification.ts:305-350 | The same for tracks and their media |
| Mp4Theorems.FindStaysWithin | src/runtime-media-verification.ts:283-303 | The search for a sample description never exceeds the box limit |
| DerivativeSafety.ReachableInv | src/image-derivative-postgres-recovery.ts:150-437 | In every queue reachable from the empty tables attempts stay within the maximum, leases exist exactly while processing, succeeded jobs are exactly those with one output row, and its registry object still backs it |
| DerivativeSafety.RunKeepsInv | src/image-derivative-postgres-recovery.ts:150-437 | Any run from a queue of that kind leads to one |
| DerivativeSafety.EventKeepsInv | src/image-derivative-postgres-recovery.ts:217-437 | Each transaction keeps that |
| DerivativeSafety.OldestIsOldest | src/image-derivative-postgres-recovery.ts:217-294 | The job chosen is claimable and none claimable is older |
| DerivativeSafety.RecoveryIsComplete | src/image-derivative-postgres-recovery.ts:223-255 | Within the batch size, recovery leaves no job on an expired last lease |
| DerivativeSafety.RecoverTouchesExpired | src/image-derivative-postgres-recovery.ts:223-255 | Recovery fails only jobs whose last lease has run out |
| DerivativeSafety.HolderKnowsTheRow | src/image-derivative-postgres-recovery.ts:150-174 | A worker that still holds the lease has an up-to-date copy of the row |
| DerivativeTheorems.SuccessIsFinal | src/image-derivative-postgres-recovery.ts:296-392 | A succeeded job and its output row never change again in any run |
| DerivativeTheorems.LostLeaseStaysLost | src/image-derivative-postgres-recovery.ts:296-437 | Once its token is gone from the row, a worker is refused by complete, fail, reserve and mark-verified for ever |
| DerivativeTheorems.ClaimFencesTheOldHolder | src/image-derivative-postgres-recovery.ts:217-294 | Claiming a job takes the lease from whoever held it before |
| DerivativeTheorems.WorkIsBounded | src/image-derivative-postgres-recovery.ts:217-437 | With no new jobs, at most two events per attempt left and one per job in hand change any row |
| DerivativeTheorems.ClaimsUseAttempts | src/image-derivative-postgres-recovery.ts:217-294 | Claims in a run plus the attempts left at its end are the attempts left at its start |
| DerivativeTheorems.QuietClaimMeansClosed | src/image-derivative-postgres-recovery.ts:217-294 | When a claim past all deadlines changes nothing, every job has succeeded or failed for good |
| DerivativeTheorems.CrashLoopCloses | src/image-derivative-postgres-recovery.ts:217-294 | Claiming past the deadlines closes every job even if every worker dies on every lease, the last one included |
| DerivativeTheorems.AbandonedQueueEnds | src/image-derivative-postgres-recovery.ts:217-294 | From the empty tables, after any history: enough such claims leave every job succeeded, or failed with no retry ahead under any limit |
| DerivativeTheorems.FailedJobIsRetried | src/image-derivative-postgres-recovery.ts:394-437 | A failed job is claimable again exactly when the worker allowed a retry, attempts are left under both limits, and the delay is over |
| DerivativeLeases.ClaimFindsTheOldestDue | src/image-derivative-postgres-recovery.ts:256-294 | A claim hands out a job exactly when one has attempts left under both limits and is new, due for a retry or past its lease, and then the one enqueued first |
| DerivativeLeases.ClaimHoldsForItsLease | src/image-derivative-postgres-recovery.ts:272-288 | In any later tables in which nothing happened to the row, the claimed job's lease is active exactly before the claim time plus its length |
| DerivativeLeases.FailsWithinItsLease | src/image-derivative-postgres-recovery.ts:394-437 | Its worker can fail it exactly that long, with the retry time and the untouched rows stated |
| DerivativeLeases.ReservesWithinItsLease | src/image-derivative-postgres-recovery.ts:516-715 | It can reserve an output exactly that long, if the job has an object or the target can be used, and an object is added only when there was none |
| DerivativeLeases.VerifiesWithinItsLease | src/image-derivative-postgres-recovery.ts:717-793 | It can mark its own object verified exactly that long |
| DerivativeLeases.CompletesWithinItsLease | src/image-derivative-postgres-recovery.ts:296-392 | It can complete the job exactly that long, when the registry backs the output and there is none yet or this very output is there already; the job has then succeeded with it |
| DerivativeLeases.DueAgainAfterItsLease | src/image-derivative-postgres-recovery.ts:256-294 | The job is claimable again exactly when the lease is over and attempts are left under both limits |
| DerivativeLeases.UndisturbedJobSucceeds | src/image-derivative-postgres-recovery.ts:217-793 | In every reachable queue, claiming a job and reserving, verifying and completing its output before the lease is over succeeds at every step, and leaves exactly the verified content as its output |
| DerivativeTheorems.EventStepsRows | src/image-derivative-postgres-recovery.ts:217-437 | Every update of a row is one the state machine of the table allows |
| DerivativeStore.OperationNow | src/image-derivative-postgres-recovery.ts:193-203 | The time used is the later of the caller's and the store's own, and an invalid own clock is an error |
| DerivativeStore.JobStore.FindOldest | src/image-derivative-postgres-recovery.ts:217-294 | The scan finds the oldest wanted row |
| DerivativeStore.JobStore.RecoverExpired | src/image-derivative-postgres-recovery.ts:223-255 | At most a hundred expired last leases are failed, oldest first |
| DerivativeStore.JobStore.ClaimNext | src/image-derivative-postgres-recovery.ts:217-294 | New rows and job are those of the claim transaction; how long the job is held is `DerivativeLeases.ClaimHoldsForItsLease` |
| DerivativeStore.JobStore.Complete | src/image-derivative-postgres-recovery.ts:296-392 | New rows are those of the completion transaction, or an error code and unchanged rows |
| DerivativeStore.JobStore.Fail | src/image-derivative-postgres-recovery.ts:394-437 | New rows are those of the failure transaction, or an error code and unchanged rows |
| DerivativeStore.JobStore.ReserveOutput | src/image-derivative-postgres-recovery.ts:516-715 | The job's single object is reused or inserted under a live lease, and the reservation remembers that lease |
| DerivativeStore.JobStore.MarkOutputVerified | src/image-derivative-postgres-recovery.ts:717-793 | Object and copy become verified only under the lease the very reservation was handed out for |
| DerivativeStore.JobStore.MarkOutputFailed | src/image-derivative-postgres.ts:837-860 | A verified copy and an active object are left alone |
| DerivativeStore.JobStore.EnqueueVerifiedSource | src/image-derivative-postgres.ts:276-342 | One job per width that had none; the number answered is the number of new rows |
| DerivativeStore.EnqueueCovers | src/image-derivative-postgres.ts:276-342 | Afterwards every width has exactly one job and old rows are untouched |
| DerivativeLeases.EnqueuedJobsAreDue | src/image-derivative-postgres.ts:276-342 | What enqueueing adds are untaken jobs of the preset with the given maximum, due at once |
| DerivativeStore.EnqueueAgainAddsNothing | src/image-derivative-postgres.ts:276-342 | Enqueueing again adds nothing |
| CanonicalTheorem.CanonicalTextIsEquality | src/runtime-service.ts:116-127 | Canonical texts are equal exactly when the values are equal up to key order at every level |
| CanonicalTheorem.ReadsBack | src/runtime-service.ts:116-127 | A printed value inside a larger text determines the value, up to key order, and where it ends |
| CanonicalTheorem.UndefinedPrintsLikeNull | src/runtime-service.ts:116-127 | Outside JSON the printer is not injective: undefined and null under a key print alike |
| CanonicalOrder.SortIncreases | src/runtime-service.ts:121-124 | Sorted keys are strictly increasing |
| CanonicalOrder.SortKeeps | src/runtime-service.ts:121-124 | Sorting keeps every field |
| CanonicalOrder.IncreasingUnique | src/runtime-service.ts:121-124 | There is one such order |
| JsonText.QuoteReadsBack | src/runtime-service.ts:116-127 | A quoted string, escapes and surrogates included, determines the string and where it ends |
| Idempotency.AtMostOnce | src/runtime-storage-registry-duplicate.ts:32-164 | Over any sequence of calls, at most one call per caller, operation and key ever commits effects, exactly one when a record appears, and no record is left in progress |
| Idempotency.LaterCallsReplay | src/runtime-storage-registry-duplicate.ts:32-164 | Every later call under the key replays the stored result or, with another fingerprint, is refused, and changes nothing |
| Idempotency.CallCommits | src/runtime-storage-registry-duplicate.ts:32-164 | A call either adds its own finished record together with exactly its operation's effects, or changes nothing at all |
| Idempotency.FirstCallRuns | src/runtime-storage-registry-duplicate.ts:32-164 | The first call under a key runs its operation, and succeeds, storing the result and the effects, exactly when the operation returns a result that can be stored |
| Idempotency.ScopeNamesItsCaller | src/runtime-storage-registry-support.ts:96-119 | A scope is accepted exactly when it spells an application, maybe a service, and an operation, none with a colon in it, and then names exactly these |
| IdempotencySessions.JoinedCallEffects | src/runtime-storage-registry-duplicate.ts:32-164 | A call joined to an open transaction changes something exactly by running its operation, and the effects stay whether or not it finishes |
| IdempotencySessions.SwallowedFailureStaysInProgress | src/runtime-storage-registry-support.ts:128-131 | A joined call leaves all records finished exactly when it is refused, its key has a record, or its operation returns a result that can be stored |
| IdempotencySessions.SettledThroughout | src/runtime-storage-registry-support.ts:128-148 | Over any joined calls all records are finished at every point exactly when every operation that runs finishes |
| IdempotencySessions.JoinedCallIsOnceExactly | src/runtime-storage-registry-duplicate.ts:32-164 | After a transaction committed with a joined call under a new key, its operation runs at most once over every continuation exactly when it finished |
| IdempotencySessions.AtMostOnceAcross | src/runtime-storage-registry-duplicate.ts:32-164 | Over any calls on their own and any enclosing transactions, as long as none commits over a joined call that ran and did not finish: each operation runs at most once, exactly once when a record appears |
| IdempotencySessions.SwallowedFailureRunsTwice | src/runtime-storage-registry-duplicate.ts:84-110 | A concrete call that fails inside two transactions that swallow it and commit: the first commits a record in progress, the second runs the operation again |
| Idempotency.DuplicateStore.Enclose | src/runtime-storage-registry-support.ts:128-148 | An operation that swallows the failures of the calls it makes commits all they left behind, or nothing when it throws |
| Idempotency.DuplicateStore.Execute | src/runtime-storage-registry-duplicate.ts:32-164 | Opens and commits or rolls back a transaction of its own, or joins the open one without rollback |
| DuplicateMemory.AtMostOneUnfailed | src/runtime-service.ts:559-591 | Of all operations ever begun under one map key, at most one is running or has succeeded, however calls interleave |
| DuplicateMemory.SuccessIsReplayed | src/runtime-service.ts:559-591 | After a success every later call under that key waits on the same result or is refused for another fingerprint |
| DuplicateMemory.CallFollowsTheStandingOperation | src/runtime-service.ts:562-585 | A call begins an operation when none was begun under its key; while one stands it waits for that one, or is refused for another fingerprint; a failed one that was cleaned up makes way |
| DuplicateMemory.MapKeyCollides | src/runtime-service.ts:569-570 | Two requests share a map key exactly when they are equal or one scope continues into the other's key |
| DuplicateMemory.CallersWithoutColonsAreApart | src/runtime-service.ts:162-164 | Callers whose application names hold no colon never share a map key |
| DuplicateMemory.StrangersCollide | src/runtime-service.ts:569-577 | Callers whose names hold colons can: the second is refused for the first one's fingerprint or waits on its operation |
| DuplicateMemory.MemoryStore.Begin | src/runtime-service.ts:562-579 | The synchronous part of a call refuses, waits or begins as the interleaving model says |
| DuplicateMemory.MemoryStore.AfterFailure | src/runtime-service.ts:580-585 | A failed call removes the entry only if it is still its own |
| ByteRanges.ParseSelectsTheRequestedBytes | src/runtime-read-delivery.ts:349-390 | A header is answered exactly when it is one satisfiable range of safe positions, and then with exactly the positions section 14.1.2 of RFC 9110 selects |
| ByteRanges.Parse | src/runtime-read-delivery.ts:349-390 | The range parsed satisfies start <= end < total |
| ByteRanges.RequestedUndoesWrite | src/runtime-read-delivery.ts:349-390 | Writing a range of safe positions and parsing it gives the range |
| ByteRanges.PaddingIsIgnored | src/runtime-read-delivery.ts:353-357 | White space around a range is no part of it |
| ByteRanges.ProviderRangeReadsBack | src/runtime-read-delivery.ts:349-390 | The range text passed to the provider parses to the same range |
| Delivery.Deliver | src/runtime-read-delivery.ts:586-735 | The coordinator's loop answers and logs what its specification does; what that is, on the fields of the copies, is `DeliveryOutcome.ServedExactly` and the rows beside it |
| Delivery.DeliveryKeepsOrder | src/runtime-read-delivery.ts:586-849 | Copies are tried in order at most once each; every failed attempt's finish is requested before the next begins; only a copy with the object's checksum and length is tried or served, and the one served is the last tried |
| DeliveryOutcome.FirstUnpassedDecides | src/runtime-read-delivery.ts:641-662 | The first copy that is neither unverified, nor matching but never verified, nor tried and given up for a provider error that allows a fallback, decides: a conflict when it is verified with another digest, its own bytes when its attempt succeeds, otherwise its attempt's error; exactly the ready copies up to it were attempted |
| DeliveryOutcome.ServedExactly | src/runtime-read-delivery.ts:641-662 | A copy is served exactly when it is verified, was ever verified, matches, its attempt succeeds, and every copy before it was passed over in that sense |
| DeliveryOutcome.ConflictExactly | src/runtime-read-delivery.ts:408-422 | The conflict is answered exactly when the first copy not passed over is verified with another checksum or length, or its attempt ends with an error that a provider named so |
| DeliveryOutcome.UnavailableExactly | src/runtime-read-delivery.ts:663-668 | The object cannot be had exactly when every copy was passed over, or an attempt ends with an error that a provider named so |
| Delivery.SortedOrders | src/runtime-read-delivery.ts:634-640 | The order tried has all copies, replicas before primaries, then by target order and identifier |
| Delivery.LegacyIsAList | src/runtime-read-delivery.ts:670-735 | Delivery from a hot and a canonical copy is delivery from the list of the two, but for how the last error is named |
| DeliveryOutcome.LegacyAnswersLikeTheList | src/runtime-read-delivery.ts:670-735 | The answer is that of the list, except that a provider error of the canonical copy that allows no fallback loses its name |
| DeliveryStream.DeliveredOnce | src/runtime-read-delivery.ts:470-545 | From the start of a stream, under any interleaving of pulls, chunks, aborts and cancellation the attempt is finished at most once, with success only if exactly the whole source was emitted in order; a stream nobody works on any more is finished |
| DeliveryStream.FinishedOnce | src/runtime-read-delivery.ts:470-545 | The same from any state on, and what was finished or emitted is never taken back |
| DeliveryStream.UndisturbedDeliverySucceeds | src/runtime-read-delivery.ts:470-545 | A stream that nobody aborts or cancels and whose source does not break never fails and never stops short: after two steps for each chunk and three more it is closed, everything was sent and the attempt is a success |
| DeliveryStream.FailureHasACause | src/runtime-read-delivery.ts:484-545 | An attempt is recorded as failed only if somebody aborted or cancelled or the source broke |
| DeliveryStream.SafeStream.FailOnce | src/runtime-read-delivery.ts:486-492 | Only the first failure is recorded |
| DeliveryStream.SafeStream.OnPull | src/runtime-read-delivery.ts:503-514 | A pull asks the source only while the stream is open |
| DeliveryStream.SafeStream.OnRecorded | src/runtime-read-delivery.ts:515-519 | Success closes the stream only once it was recorded |
| DeliveryStream.SafeStream.OnCancel | src/runtime-read-delivery.ts:535-543 | Cancelling finishes the attempt as failed |
| ConfigurationDocument.NoErrorsMeansValid | src/client-storage-configuration.ts:275-376 | The validator reports nothing exactly for documents whose names are unique, references known and values in range, with one primary and distinct vaults per route |
| ConfigurationDocument.Validate | src/client-storage-configuration.ts:275-376 | The validator's loops collect every error code once, in order of first occurrence |
| ConfigurationVersions.ReachableLifecycle | src/client-storage-configuration.ts:516-650 | In every state reachable from the empty store a scope has at most one active version and distinct numbers; a version once activated keeps its valid document in all that follows and never becomes a draft again |
| ConfigurationVersions.LifecycleHolds | src/client-storage-configuration.ts:516-650 | The same from any state that has these properties |
| ConfigurationVersions.EventKeeps | src/client-storage-configuration.ts:516-650 | Each operation keeps that |
| ConfigurationDrafts.VersionsHoldWhatWasGiven | src/client-storage-configuration.ts:516-650 | In every state reachable from the empty store the versions are exactly those created or cloned and not deleted, and each holds the document last accepted for it by creation, cloning from its source, or replacement |
| ConfigurationDrafts.ActivationPublishesWhatWasGiven | src/client-storage-configuration.ts:597-636 | An activated version keeps for good exactly the document last accepted for it before, and that document is valid |
| ConfigurationDrafts.CreateExactly | src/client-storage-configuration.ts:516-547 | A draft is created exactly for a known client and storable connections; it holds the document, its errors and the next number, and nothing else changes |
| ConfigurationDrafts.ReplaceExactly | src/client-storage-configuration.ts:558-582 | A replacement is accepted exactly for a draft of the scope and storable connections; the draft then holds the given document and its errors, with number, origin and creation time as before and every other version unchanged |
| ConfigurationDrafts.DeleteExactly | src/client-storage-configuration.ts:584-595 | Exactly a draft of the scope is deleted, and nothing else |
| ConfigurationDrafts.ActivateExactly | src/client-storage-configuration.ts:597-636 | A draft is activated exactly when its document is valid; what was active in its scope is superseded, everything else stays |
| ConfigurationDrafts.CloneExactly | src/client-storage-configuration.ts:638-650 | A version of the scope with storable connections, in whatever state, is cloned into a draft of exactly its document that names it as origin |
| ConfigurationVersions.DeletedNumberIsReused | src/client-storage-configuration.ts:525-530 | After any draft is deleted, the next draft of its scope gets the same number exactly when the deleted one had the highest and no gap lay below it |
| ConfigurationVersions.ReuseDependsOnGaps | src/client-storage-configuration.ts:584-595 | Two concrete runs from the empty store: one in which the number of a deleted draft comes back after an activation, and one in which it does not |
| ConfigurationVersions.VersionStore.CreateDraft | src/client-storage-configuration.ts:516-547 | The new state and answer are those of the lifecycle model |
| ConfigurationVersions.VersionStore.ReplaceDraft | src/client-storage-configuration.ts:558-582 | The same; what the draft then holds is `ConfigurationDrafts.ReplaceExactly` |
| ConfigurationVersions.VersionStore.DeleteDraft | src/client-storage-configuration.ts:584-595 | The same, drafts only |
| ConfigurationVersions.VersionStore.ActivateDraft | src/client-storage-configuration.ts:597-636 | The active version found is the only one, is superseded, and the valid draft takes its place |
| ConfigurationVersions.VersionStore.CloneVersion | src/client-storage-configuration.ts:638-650 | A new draft with the source's document |
| ConfigurationVersions.VersionStore.HighestNumber | src/client-storage-configuration.ts:525-530 | The largest number in the scope |
| ConfigurationPersistence.WrittenDocumentReadsBack | src/client-storage-configuration-postgres.ts:284-601 | A valid document written under a new version never fails and reads back the same, up to order of connections, unused connections and primary-first targets |
| ConfigurationResolver.ReadBackPassesValidation | src/client-storage-configuration-postgres.ts:284-601 | What is read back passes the validator |
| ConfigurationResolver.StoredRoutesAreWellOrdered | src/runtime-active-configuration.ts:274-316 | The target rows of every stored route pass the resolver's check |
| ConfigurationResolver.NormalizeTargets | src/runtime-active-configuration.ts:274-316 | Accepts exactly rows with one primary at order 0 and replicas at distinct positive orders, and names which part failed |
| ConfigurationResolver.PrimaryFirstReorders | src/client-storage-configuration-postgres.ts:405-410 | With exactly one primary, putting it first only reorders targets |
| ConfigurationSharing.OtherVersionsKeep | src/client-storage-configuration-postgres.ts:284-437 | Whatever document is written without failing, valid or not: every other version reads its vaults, presets, routes and the identifiers of its connections as before |
| ConfigurationSharing.OtherVersionReadsTheSame | src/client-storage-configuration-postgres.ts:233-282 | It reads the same document as before exactly when none of the connections it uses is overwritten with another |
| ConfigurationSharing.SharedConnectionIsOverwritten | src/client-storage-configuration-postgres.ts:233-282 | For valid documents: exactly when every connection of the document whose row the other version uses was stored just so already |
| ConfigurationSharing.LaterDraftChangesActiveVersion | src/client-storage-configuration-postgres.ts:848-906 | Draft, activate, then draft another connection under an identifier the active version uses: the version is still active and reads differently |
| ConfigurationSharing.RelabellingChangesActiveVersion | src/client-storage-configuration-postgres.ts:848-906 | There are such documents: changing the label of a connection is enough |
| ConfigurationWriter.ConfigurationRows.InsertDocument | src/client-storage-configuration-postgres.ts:284-437 | All rows are written, or on an unknown reference none |
| ConfigurationWriter.ConfigurationRows.UpsertProviderConnections | src/client-storage-configuration-postgres.ts:233-282 | One row per client, environment and identifier, updated in place |
| ConfigurationWriter.ConfigurationRows.InsertRouteRows | src/client-storage-configuration-postgres.ts:377-436 | Routes with their targets, primary at order 0 and replicas from 1 |

## Left out

Assumptions of the replica protocol:

- A worker calls providers only while its attempt still holds its token; `ReplicaLeases.UnleasedCleanupLosesData` shows why this is needed.
- Distinct copies name distinct provider objects, and only this protocol changes their contents; the validator enforces neither.
- A provider reports an object's stored length truthfully and answers one read from one moment; the chunk loops themselves make no such assumption.
- Each database transaction is one atomic step on the rows it selects; isolation levels, row locks and snapshot races between claim statements are not part of the model, rows locked by others are a parameter.
- Identifiers and lease tokens are fresh, an object has one configured primary, and checksum and length columns are set together.
- Liveness of an eighth attempt whose lease expires is not claimed: the code never closes it.
- "All replicas" in a retention claim means those with an active connection, as in the code; that a repair never removes an exact replica is not claimed.
- Row versions, lease owners, diagnostics, finish times and the batch loops of the worker are not modelled.

Members stated weaker than one might wish:

- ReplicaTheorems.RegistryTellsTheTruth: assumes that uploads which record a replica as exact have stored it exactly, because the upload path is not modelled.
- ReplicaWorkers.Site.ProcessRepair: a worker that lost its lease stops at its next provider call instead of making it, which is the assumption above.
- ReplicaProgress.UndisturbedRepairHeals: one worker runs by itself and every call takes effect; what repeated claims achieve while providers fail for ever is not claimed.
- Mp4Picture.FilmShowsItsLastVideoTrack: tracks hold only the boxes named, in short form, and the movie header comes first; other layouts are covered by the tiling theorems.
- PngRoundTrip.DecodeUndoesEncode: takes lossless compression as its only assumption about deflate and inflate, which are parameters.
- PngVerification.VerifyAcceptsEncoded: holds up to the verifier's own pixel limit, which may be smaller than the encoder's.
- DerivativeSafety.RecoveryIsComplete: one claim recovers at most a hundred jobs.
- ConfigurationPersistence.WrittenDocumentReadsBack: valid documents only, because writing drops a second primary target, and rows come back in insertion order where the queries sort them by identifier.
- Idempotency.AtMostOnce: the operation and the result codec do not touch the idempotency records themselves.
- Delivery.Deliver: begins where the copies are known; the checks before that on grant, method, registry state and stored digest are short comparisons and are not modelled.
- DerivativeStore.JobStore.ReserveOutput: the already-verified answer is left out because the lookup that would give it never does, and the target's locator data are a flag.
- DerivativeStore.JobStore.EnqueueVerifiedSource: takes the widths as they come from the preset; the lookup of the source and the range check of widths are not modelled.
- Delivery.SortedOrders: the collation order of identifiers is a rank given with each copy.

Not modelled:

- SHA-256, deflate and inflate are parameters; nothing is assumed of the hash.
- The decoder ignores chunk checksums, as the code does.
- Divisions in floating point are exact integer divisions here; under the size limits every product is an exact double.
- The source-read deadline that wraps the processor, and other timers.
- Numbers are their printed text in canonical JSON; BigInt, dates, cyclic values and objects with a `toJSON` method are not modelled.
- A derivative's object row and its one copy row are a single record; whether a succeeded job's provider object still exists is not claimed, since a failure cleanup may delete it.
- File offsets of MP4 boxes beyond the safe integers.
- `clear` of the in-memory duplicate store, and enclosing transactions that write besides making calls.
- Trimming and case folding cover ASCII; nested metadata is checked by a parameter.
- The ORDER BY of loaded lists is insertion order; timestamps, audit rows, connection status and secret resolution are not stored.
- The database version of the lifecycle beyond drafting and activating, integration tokens and overviews.
- The fingerprint and shared-authority checks of the active-configuration resolver, which are short comparisons.
- HTTP routing, user interface, S3 clients, SQL text, encryption, environment parsing and composition.
