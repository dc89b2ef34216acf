# cudackpt: a verified model of checkpoint images

cudackpt turns the live GPU memory of a process into an image on disk and back. This project models the
logic of that way in Dafny and proves what it is for: that the memory which comes back is the memory that
was there.

## The parts

* **Checksum** (`Polynomial`, `Crc32c`, `Verify`). The table-driven CRC32C is bit-serial polynomial division
  (section 12.1 of RFC 3720); from that follows which damage the validator always finds.
* **Snapshot and restore** (`Memory`, `Coalesce`, `PinnedPool`, `CopyWorkers`, `CopyOutcome`, `Snapshot`, `Restore`,
  `RoundTrip`, `Sorting`, `Tracker`). GPU and host memory are maps from address to byte. The copy workers are a
  step relation over shared tasks, an atomic counter, a failure flag and the buffer pool; every theorem about
  them holds for every schedule. The driver is a parameter that may refuse any call.
* **Images** (`Format`, `Delta`, `Sparse`, `Dedup`, `Text`, `ImageStore`, `Pipeline`). A file system maps a path
  to the files of an image directory. What an image *stands for* is a function of the store
  (`ImageStore.Logical`); each operation is proved to keep it, or the exact condition under which it does is
  given. The compressor is a pair of functions with `dec(enc(x)) == x`. The digest is any function without
  collisions among the contents at hand.
* **File formats** (`Codec`, `ManifestFile`, `MetaFile`, `SparseFile`, `ModulesFile`). Writers over byte streams,
  readers with a cursor, and round trips.
* **Control** (`Ipc`, `Rpc`). The shim's two copies of its state under all interleavings of threads, and the
  composition of the client's and the server's byte streams.
* **Publication** (`Publish`, `Checkpoint`, `Drift`). Staging, the COMPLETE mark and the rename with a stop at any
  step; one checkpoint attempt and its retries over the file system; comparison of two images.

`Checkpoint.CheckpointThenRestore` joins snapshot, pipeline, publication, materialisation and restore. The
checksum theorem, the tracker, the file formats and the control protocol stand beside it; `Tracker.SnapshotIsLive` and
`Verify.SnapshotVerifies` are where the first two meet it.

Loops and updates in place are methods, proved against functions; those functions carry the lemmas. A
`ghost rank` argument is the witness that the parent relation has no cycle; any such witness can be made fit for a given
call (`ImageStore.SuitableRanking`, `Checkpoint.GoodRankExists`), and nothing depends on which one it is
(`ImageStore.SameAlongChain`). A driver that is *willing* refuses neither host memory nor copies; one that is not may refuse
any call of any worker, and `CopyOutcome.Refused` says of a run whether it did.

## Where the code does not do what one might expect

* An image with both the compressed and the delta flag stands for its compressed contents until it is materialised and
  for its delta from then on (`ImageStore.MaterializeTwoFaced`). Materialising changes no contents if and only if, along
  the parent chain, the two forms agree wherever both are there, which is called *harmony*
  (`ImageStore.FileSystem.EnsureDeviceMaterialized`). `Pipeline.ProcessImage` says when such images arise.
* A delta skips chunks by pointer, size and checksum, but leaves them at the *child's* offset. A delta of a tiled
  image is wrong if and only if it carries something and some skipped chunk's bytes differ in the parent at that offset, be
  it that it moved or that two contents share a checksum (`Delta.MovedChunkIsLost`, `Pipeline.DifferingChunkIsLost`).
* The drift report looks from the left only. It can be empty although the images differ exactly for left manifests with
  repeated pointers whose repeats agree (`Drift.RepeatedPointersHideDrift`, `Drift.FooledIff`).
* The destination is removed before the staging directory is renamed. A stop in between leaves no image there until
  another attempt succeeds, which begins by removing the finished one (`Publish.TornReplacementLosesBoth`,
  `Publish.CompleteIsOldOrNew`).
* A parent that descends from the destination is accepted. Writing the delta then materialises the old destination, which a
  failing attempt leaves changed; and a success, if anything is carried, makes the two images descend from each other, so that
  neither can be materialised again (`Checkpoint.CheckpointIntoOtherSlot`, `ImageStore.LinkingKeepsAcyclic`,
  `Checkpoint.DestinationAfterDump`). Other deltas of a replaced destination silently follow it
  (`Checkpoint.ChildOfDestination`).
* A parent that descends from the staging directory itself is accepted too; a delta against it stands for nothing once the
  staging directory is gone (`Checkpoint.MovedLinks`).
* A snapshot whose workers fail, or that cannot open device.bin, and a restore that fails in loading or copying keep the
  buffers they have acquired, so the pool grows with every retry (`Snapshot.SnapshotWrite`, `Restore.RestoreLoad`,
  `PinnedPool.HoldingCounts`).
* The server answers one request on each connection, so the ping, restore and resume that
  `pkg/control/shimctl.go:119-137` sends over one connection end after the ping (`Rpc.OneRequestPerConnection`). The joined
  theorem follows the restore that has a connection of its own, `pkg/control/shimctl.go:92-105`.
* The server keeps at most 255 bytes of its secret, the client sends all of it (`Rpc.SharedSecretWorksIffShort`).
* The retry loop would stop for an error with the code for an unsupported process, but no error of `doCheckpoint` has it
  (`Checkpoint.RetriesNeverStopEarly`).
* The pool refuses requests of size 0. So, where no call fails otherwise, a snapshot fails exactly when some block is empty,
  which for distinct addresses means an empty allocation that merges with no neighbour; and an image with any empty
  allocation can never be restored
  (`RoundTrip.EmptyAllocationsFail`, `RoundTrip.SnapshotThenRestore`, `Coalesce.EmptyBlockIffLoneEmpty`).

## Model

| member | source | states |
|---|---|---|
| `Crc32c.Table.Init` | shim/snapshot.cu:21-30 | the table is filled once; entry i is the register i pushed through eight bit steps |
| `Crc32c.Table.Compute` | shim/snapshot.cu:32-39 | the table-driven loop computes the bit-serial checksum of every byte string |
| `Crc32c.TableStep` | shim/snapshot.cu:36-37 | one table lookup and shift is eight bit steps on the register combined with the byte, by linearity of the bit step |
| `Crc32c.Constants` | shim/snapshot.cu:26-38 | the reflected polynomial is 0x82F63B78 and the initial and final masks are 0xFFFFFFFF |
| `Crc32c.CrcIsBitwise` | shim/snapshot.cu:21-39 | the checksum is the bitwise CRC32C as arithmetic on 32-bit numbers: from 0xFFFFFFFF, each byte is exclusive-ored in and eight times the number is halved, with 0x82F63B78 exclusive-ored in if it was odd; then it is complemented |
| `Crc32c.DataBitIs` | shim/snapshot.cu:36-37 | bytes enter in order, each from its lowest bit: bit j of byte i is transmitted as number 8i+j |
| `Crc32c.ChecksumIsRemainder` | shim/snapshot.cu:32-39 | the checksum is the complement of the remainder, by the Castagnoli generator, of the message with its first 32 bits complemented and 32 zero bits appended (section 12.1 of RFC 3720) |
| `Polynomial.FeedIsRemainder` | shim/snapshot.cu:23-37 | the serial register after a message is the remainder of long division of that message |
| `Polynomial.StepsLinear` | shim/snapshot.cu:25-26 | any number of bit steps distributes over exclusive or |
| `Polynomial.BurstChangesRegister` | shim/snapshot.cu:36-37 | two messages whose differences span at most 32 bits leave different registers, whatever follows |
| `Crc32c.BurstChangesCrc` | shim/snapshot.cu:32-39 | two strings of one length that differ only inside 32 consecutive transmitted bits have different checksums |
| `Crc32c.WindowChangesCrc` | shim/snapshot.cu:32-39 | two strings of one length that differ only inside four consecutive bytes have different checksums |
| `Verify.VerifyDevice` | pkg/control/orchestrator.go:104-113 | good exactly when every chunk is readable and has its checksum; otherwise the verdict of the first chunk that is not good |
| `Verify.VerifyImage` | pkg/control/orchestrator.go:84-114 | accepts exactly when the contents that the image stands for verify; in an image in harmony no image's contents change |
| `Verify.SnapshotVerifies` | pkg/control/shimctl.go:82-88 | the validation right after a snapshot accepts the snapshot's own device.bin |
| `Verify.NarrowDamageIsSeen` | pkg/image/format.go:131-141 | a chunk with damage confined to four consecutive bytes fails VerifyChunk |
| `Verify.ScatteredDamageIsRejected` | pkg/control/orchestrator.go:104-112 | damage in any number of chunks, in each of them inside a window of four bytes, is rejected |
| `Verify.WindowDamageIsRejected` | pkg/control/orchestrator.go:104-112 | any damage inside four consecutive bytes of a tiled device.bin is rejected, also across the border of two chunks |
| `Verify.TruncationIsRejected` | pkg/image/format.go:135-141 | a device.bin shorter than the manifest says is rejected, for any checksum |
| `Coalesce.CoalesceAllocs` | shim/coalesce.cpp:4-34 | computes the blocks: their parts in order are the input, each is contiguous in one context, and no two neighbours could still be merged |
| `Coalesce.EmptyBlockIffLoneEmpty` | shim/coalesce.cpp:15-32 | for distinct addresses, some block is empty if and only if some empty allocation merges with no neighbour |
| `Coalesce.BlockEntriesAreNaive` | shim/snapshot.cu:153-160 | the bytes and entries made from a block are those of writing its parts alone, one after another |
| `Coalesce.NaiveChunk` | shim/snapshot.cu:155-160 | entry i describes allocation i and its range of device.bin holds exactly that allocation |
| `Coalesce.NaiveTiles` | shim/snapshot.cu:128-160 | the entries tile device.bin from 0 without gaps, in allocation order |
| `PinnedPool.Pool.Acquire` | shim/pinned_pool.cpp:9-22 | hands out the first free buffer that is large enough, else a new one of exactly the size, else null |
| `PinnedPool.Pool.Release` | shim/pinned_pool.cpp:24-33 | frees the buffer with that pointer and nothing else |
| `PinnedPool.AcquireKeepsValid` | shim/pinned_pool.cpp:9-22 | buffers stay apart; the one handed out was free, is large enough and is now in use; the others are untouched |
| `PinnedPool.ReleaseFreesSlot` | shim/pinned_pool.cpp:24-33 | releasing a buffer's pointer changes exactly that buffer's free mark |
| `PinnedPool.HoldersAreDisjoint` | shim/pinned_pool.cpp:9-33 | over every run of acquire and release, no two holders share any byte and each buffer is at least as large as its request |
| `PinnedPool.UniformRequestsAllocatePeak` | shim/pinned_pool.cpp:9-33 | for requests of one nonzero size the number of buffers is the peak number held at once |
| `PinnedPool.HoldingCounts` | shim/snapshot.cu:143-148 | buffers that a failed call keeps raise the number in use by exactly their number |
| `CopyWorkers.StepKeepsControl` | shim/snapshot.cu:72-115 | every step of every worker keeps: indices claimed in order, a claimed task done, in its claimer's hand or the run failed, every error code in or about to enter the flag |
| `CopyWorkers.StepKeepsContent` | shim/snapshot.cu:80-113 | every step keeps: destinations are buffers of their own, and finished tasks hold exactly their bytes and checksum |
| `CopyWorkers.ExecKeepsInvariants` | shim/snapshot.cu:137-143 | both hold after every interleaving of any number of workers |
| `CopyWorkers.ClaimedOnce` | shim/snapshot.cu:76-78 | no index is claimed twice |
| `CopyWorkers.JoinOutcome` | shim/snapshot.cu:143-148 | after the join, no failure means that every task was copied and checksummed, and a failure means that some task has a nonzero code |
| `CopyWorkers.ExecKeepsHolding` | shim/snapshot.cu:81-87 | after any interleaving the pool differs from the one before only in the buffers that the tasks hold |
| `CopyOutcome.StepDecreases` | shim/snapshot.cu:75-114 | every step of an unfinished worker brings the join nearer |
| `CopyOutcome.CodeReachesFlag` | shim/snapshot.cu:81-111 | a worker without a buffer leaves with code -16, one whose copy fails with the driver's code; the task has it first, the shared flag after it |
| `CopyOutcome.JoinVerdict` | shim/snapshot.cu:143-148 | whatever the interleaving, the run succeeds if and only if the driver refused nothing and, where buffers come from the pool, no task is empty |
| `CopyOutcome.Join` | shim/snapshot.cu:141-143 | some interleaving runs until all workers have returned, with all invariants; a willing driver refuses nothing |
| `Snapshot.Layout` | shim/snapshot.cu:128-132 | each block's offset is the size of the blocks before it |
| `Snapshot.WriteParts` | shim/snapshot.cu:155-160 | the entries of one block, with the checksum of each part's bytes |
| `Snapshot.WriteChunks` | shim/snapshot.cu:149-162 | device.bin and manifest are those of the allocations written one by one, and every buffer is back in the pool |
| `Snapshot.FirstError` | shim/snapshot.cu:144-148 | zero exactly when no task has an error code, and else the first one |
| `Snapshot.FetchBlocks` | shim/snapshot.cu:137-148 | the workers' part succeeds exactly when no block is empty and nothing was refused, and then every block is in a host buffer; either way exactly the buffers of the tasks are held |
| `Snapshot.SnapshotWrite` | shim/snapshot.cu:117-196 | returns 0 exactly when the calls around the workers succeed, no block is empty and the driver refuses nothing; then device.bin and manifest are the naive ones and the pool has everything back; after a worker's failure nothing is written; after that, or if device.bin cannot be opened, exactly the tasks' buffers stay in use; the code for an unsupported process is its negated number, -25 if the device cannot be brought to rest |
| `Sorting.SortSorts` | shim/restore.cu:129-130 | the sort orders by the recorded number and keeps the elements |
| `Sorting.SortOfOrdered` | shim/restore.cu:128-131 | entries in order already stay as they are |
| `Sorting.SortIsStable` | shim/restore.cu:129-130 | elements with equal keys keep their order |
| `Restore.ReplayOrder` | shim/restore.cu:124-131 | any manifest is replayed in ascending order of its numbers, equal numbers in the order of the file, with the same entries; one without numbers as it stands |
| `Restore.LoadEntry` | shim/restore.cu:163-181 | succeeds exactly when the address can be had, the pool gives a buffer and the chunk is in the file, else returns -5, -17 or -9 for the first of these that fails; then the buffer holds exactly the chunk; the buffer is held even if the chunk cannot be read |
| `Restore.LoadEntries` | shim/restore.cu:160-182 | succeeds exactly when every entry loads; the addresses are asked for in replay order; every buffer acquired is held, and there is one exactly if the first entry got so far |
| `Restore.EmptyEntryNeverLoads` | shim/restore.cu:176-178 | an entry of size 0 never loads, whatever the driver answers |
| `Restore.WillingLoads` | shim/restore.cu:163-181 | with a driver that refuses no host memory an entry loads if and only if it is not empty, its address can be had and its chunk is in the file |
| `Restore.CopyBack` | shim/restore.cu:183-198 | under every interleaving: 0 exactly when the driver refused no copy, and then every address holds what the host buffer of its entry holds |
| `Restore.LoadedIsCopied` | shim/restore.cu:97-181 | after loading, the host buffers that the workers copy from hold exactly the chunks |
| `Restore.RestoreLoad` | shim/restore.cu:106-215 | returns 0 exactly when the calls around succeed, every entry loads and no copy is refused; then the chunk of every entry is at its address, by way of the host buffers, whatever was there, asked for in replay order, and every buffer is back; buffers stay in use exactly if loading or copying fails after the first was acquired |
| `RoundTrip.ManifestReplays` | shim/restore.cu:124-131 | a snapshot's manifest is in replay order, so the stable sort changes nothing, and its ranges are disjoint |
| `RoundTrip.RestoreImage` | shim/restore.cu:106-215 | restoring a snapshot's image gives back every byte of every allocation and the order of allocation; it never succeeds with an empty allocation, and with a willing driver only that, the addresses and the calls around can fail |
| `RoundTrip.SnapshotThenRestore` | shim/snapshot.cu:117-196 | when both calls return 0 the round trip is the identity on every live allocation, under every interleaving of either phase; with willing drivers and succeeding calls around, the snapshot returns 0 if and only if no block is empty and both do if and only if no allocation is |
| `RoundTrip.EmptyAllocationsFail` | shim/restore.cu:177-178 | an empty allocation alone, which no snapshot takes, and one merged with its neighbour, which is snapshotted but cannot be restored |
| `Tracker.Tracker.TrackAlloc` | shim/tracker.cpp:17-27 | a null pointer is ignored; otherwise the record gets the next number and goes to its shard |
| `Tracker.Tracker.UntrackAlloc` | shim/tracker.cpp:29-34 | removes the pointer from its shard and nothing else |
| `Tracker.Tracker.LookupAlloc` | shim/tracker.cpp:36-43 | finds exactly what the single map has for the pointer |
| `Tracker.Tracker.AllocsSnapshot` | shim/tracker.cpp:45-55 | with no concurrent caller: every record of the map once, strictly ordered by number |
| `Tracker.Tracker.AllocCount` | shim/tracker.cpp:57-64 | the size of the single map |
| `Tracker.Tracker.TotalBytes` | shim/tracker.cpp:66-73 | the sum of the sizes over the single map |
| `Tracker.InsertMerged` | shim/tracker.cpp:24-26 | inserting into a shard is inserting into the single map |
| `Tracker.EraseMerged` | shim/tracker.cpp:29-34 | erasing from a shard is erasing from the single map |
| `Tracker.NextKeepsConsistent` | shim/tracker.cpp:17-34 | every critical section of every thread keeps pointers in their own shards and all recorded and in-flight numbers distinct and below the next one, and acts on the single map as on one map |
| `Tracker.TrackIsTwoSections` | shim/tracker.cpp:17-27 | a call of track_alloc is its two critical sections |
| `Tracker.ReachableIsConsistent` | shim/tracker.cpp:17-34 | this holds in every state that any interleaving reaches |
| `Tracker.ListTotal` | shim/tracker.cpp:66-73 | the sizes in any listing of the records add up to the total |
| `Tracker.SnapshotIsLive` | shim/snapshot.cu:125-126 | the sorted snapshot meets what ckpt_snapshot_write needs of its allocations |
| `Delta.MakeByPtr` | pkg/image/delta.go:33-36 | entries by pointer, the last of several winning |
| `Delta.SkippedIff` | pkg/image/delta.go:33-47 | a chunk is skipped exactly when the last entry of the parent at its pointer has its size and checksum |
| `Delta.MakeDiff` | pkg/image/delta.go:41-54 | records and patch of every chunk that the parent lacks; fails exactly where a slice would leave the capacity of the buffer |
| `Delta.Reconstruct` | pkg/image/delta.go:127-151 | the parent resized to the largest chunk end with the records copied in, or failure for a record out of range |
| `Delta.PatchedByte` | pkg/image/delta.go:145-151 | reconstruction from its own records never fails; a carried position has the child's byte, any other the resized parent's |
| `Delta.DeltaExact` | pkg/image/delta.go:41-57 | for any manifest, the reconstruction never fails and equals the child's device.bin if and only if the chunks end where it does and the resized parent has its byte at every position that no carried chunk covers |
| `Delta.TiledServes` | pkg/image/delta.go:127-138 | for a tiled manifest that is: every skipped chunk's range of the resized parent equals the child's |
| `Delta.UnmovedChunksAgree` | pkg/image/delta.go:43-47 | skipped chunks at unchanged offsets with equal bytes are enough for that |
| `Delta.RebuildAgreesIff` | pkg/image/delta.go:115-151 | one delta rebuilds the same contents from two parents if and only if these agree, once resized, wherever no record writes |
| `Delta.MovedChunkIsLost` | pkg/image/delta.go:43-57 | with one chunk carried and one skipped that moved, a delta is written and rebuilds something else |
| `Pipeline.DifferingChunkIsLost` | pkg/image/delta.go:43-57 | a delta does not keep a tiled image if and only if it carries some chunk and skips one whose range of the resized parent differs |
| `Pipeline.MovedChunkDoesNotFit` | pkg/image/delta.go:43-57 | the moved chunk is such a case |
| `ImageStore.FileSystem.EnsureDeviceMaterialized` | pkg/image/compress.go:66-83 | terminates on every acyclic parent relation, succeeds exactly when the image stands for something, then device.bin holds it; only the chain is touched, and a materialised image not at all; no image's contents change if and only if the chain is in harmony, and otherwise the image stands for its delta afterwards |
| `ImageStore.FileSystem.ApplyDelta` | pkg/image/delta.go:88-153 | succeeds exactly when the delta can be rebuilt from what the parent stands for, and device.bin is that; without delta.bin it does nothing |
| `ImageStore.FileSystem.DecompressDevice` | pkg/image/compress.go:37-64 | device.bin becomes the decompressed contents and the flag is cleared; without the flag it does nothing |
| `ImageStore.FileSystem.MaterializeAll` | pkg/image/compress.go:66-83 | any images in harmony, in any order: each ends materialised with the contents it stood for at the beginning, or fails if it stood for nothing |
| `ImageStore.SettledStays` | pkg/image/compress.go:66-83 | a materialised image stays so, whatever else is materialised |
| `ImageStore.ReplaceKeepsLogical` | pkg/image/delta.go:115-152 | an image replaced by one with the same contents changes no descendant |
| `ImageStore.HarmonyStays` | pkg/image/compress.go:66-83 | what keeps every image's contents keeps harmony |
| `ImageStore.ExclusiveIsHarmonious` | pkg/image/compress.go:71-78 | images without an ancestor that has both flags are in harmony |
| `ImageStore.MaterializeTwoFaced` | pkg/image/compress.go:66-83 | materialising an image with both flags gives its compressed contents, and it stands for its delta from then on |
| `ImageStore.SameAlongChain` | pkg/image/compress.go:66-83 | what an image stands for, its chain, harmony and being materialised depend on the images of its chain only, and not on the ranking that shows the parent relation acyclic |
| `ImageStore.LinkingKeepsAcyclic` | pkg/image/delta.go:70-85 | making an image a delta of a parent keeps the parent relation acyclic if and only if the parent does not descend from the image |
| `ImageStore.SuitableRanking` | pkg/image/delta.go:18-21 | every acyclic parent relation has a ranking as WriteDelta's contract uses it |
| `ImageStore.RewrittenIff` | pkg/image/compress.go:66-83 | materialising rewrites an image if and only if its device.bin is not up to date or its compressed flag is set |
| `ImageStore.ChildOfReplaced` | pkg/image/delta.go:107-152 | a delta whose parent was replaced stands for what it did if and only if the old and the new parent agree wherever the delta does not write |
| `ImageStore.DescendantFollows` | pkg/image/delta.go:107-152 | an image keeps its contents if the ancestor through which it descends from a changed image keeps its own |
| `Sparse.IsZero` | pkg/image/sparse.go:66-73 | true exactly for strings of zeros |
| `Sparse.FindZeroRuns` | pkg/image/sparse.go:29-41 | the runs of the all-zero chunks of at least 4096 bytes; fails exactly if some chunk of at least 4096 bytes is not in the file |
| `Sparse.IndexedIffZero` | pkg/image/sparse.go:30-40 | a run is listed if and only if it is the range of a chunk of at least 4096 bytes that lies in the file and holds only zeros |
| `Sparse.RunsAreOrdered` | pkg/image/sparse.go:30-40 | the runs of a tiled image are in file order and do not overlap |
| `Dedup.ContentStore.Put` | pkg/storage/cas.go:23-41 | returns the digest, files the blob under it if it was not there, alters no existing blob |
| `Dedup.ContentStore.Get` | pkg/storage/cas.go:43-50 | in a genuine store, a blob found has the digest asked for |
| `Dedup.ContentStore.DedupChunks` | pkg/image/dedup.go:28-42 | succeeds exactly when every chunk is readable; entries get the digests of their chunks and the store every chunk |
| `Dedup.StoredFinds` | pkg/storage/cas.go:23-45 | the blob under a chunk's digest is that chunk |
| `Dedup.DedupIsLossless` | pkg/image/dedup.go:28-42 | the blobs that the entries name, in order, make up device.bin |
| `Dedup.SharedHashIffEqual` | pkg/image/dedup.go:33-37 | two entries share a digest exactly when their chunks are equal |
| `Dedup.FreshStoreCount` | pkg/storage/cas.go:23-41 | a store that was empty has as many blobs as there are distinct chunks |
| `Dedup.WriteListing` | pkg/image/dedup.go:48-54 | device.map has one printed line for each entry |
| `Dedup.ListingRoundTrip` | pkg/image/dedup.go:48-54 | every line gives back its digest, size and pointer |
| `Text.Itoa64` | pkg/image/dedup.go:63-75 | prints every 64-bit number in decimal without leaving its 32-byte buffer |
| `Text.DecimalRoundTrip` | pkg/image/dedup.go:63-75 | the printed number parses back |
| `Text.ParseHashIff` | pkg/storage/cas.go:61-72 | accepts exactly the 64-digit printings of a digest, in either letter case |
| `Text.HashRoundTrip` | pkg/storage/cas.go:57-72 | a printed digest parses back |
| `Bytes.LittleEndian` | pkg/image/format.go:48-74 | the weights of the bytes of a field, lowest first |
| `Pipeline.ApplySparse` | pkg/image/sparse.go:17-64 | writes the index of exactly the all-zero chunks of at least 4096 bytes, and the flag, only if there is one; device.bin and entries stay |
| `Pipeline.DedupDevice` | pkg/image/dedup.go:10-61 | on success every chunk is in the store under its digest, a version 2 manifest names it, device.map tells digest, size and pointer of each entry, the flag is set, and nothing else changes; on failure only blobs were added |
| `Pipeline.DedupedImageIsLossless` | pkg/image/dedup.go:28-59 | the blobs named by the entries that a version 2 manifest keeps make up device.bin |
| `Pipeline.CompressDevice` | pkg/image/compress.go:14-35 | device.zst, which decompresses to device.bin, and the flag are added and device.bin stays; device.zst is written even if the manifest then cannot be read |
| `Pipeline.DedupOutputs` | pkg/image/dedup.go:28-60 | the deduplicated image by its contents: chunks under their digests, digests in a version 2 manifest, and a device.map that parses back to digest, size and pointer of every chunk |
| `Pipeline.InstallDelta` | pkg/image/delta.go:33-85 | writes patch, delta.bin and flag exactly when something is carried and everything carried can be sliced |
| `Pipeline.WriteDelta` | pkg/image/delta.go:18-86 | for images in harmony: succeeds exactly when both stand for something and the carried chunks can be sliced; afterwards the image stands for its old contents if and only if nothing is carried or the parent serves; images that do not descend from it keep their contents; the parent relation gets a cycle exactly if a delta is written and the parent descends from the image; no materialised image is rewritten |
| `Pipeline.DiffIgnoresHashes` | pkg/image/delta.go:43-54 | the delta does not depend on digests |
| `Pipeline.StagesKeepContents` | pkg/image/pipeline.go:16-30 | sparse, dedup and compress keep what every image stands for, and harmony, if device.bin is up to date |
| `Pipeline.ProcessImage` | pkg/image/pipeline.go:15-37 | for every combination of options and any parent: each stage asked for leaves its files and its flag, and no other does; for an image whose device.bin is up to date, with or without flags: exactly when it succeeds, same chunks, other images kept, the contents kept if and only if no delta was asked for or it fits, and both flags only on an image that was a delta and got no new one; a cycle exactly if a delta is written against a descendant |
| `Pipeline.ProcessThenMaterialize` | pkg/image/pipeline.go:15-37 | after processing that makes no cycle, materialising succeeds and gives back device.bin, with every entry, digests aside, exactly under that condition |
| `ManifestFile.WriteManifestFlags` | pkg/image/format.go:36-80 | appends the encoding of the manifest to the stream |
| `ManifestFile.ReadManifest` | pkg/image/format.go:82-129 | reads exactly what decoding gives, and fails exactly when it does |
| `ManifestFile.FlagsRoundTrip` | pkg/image/flags.go:6-16 | the flag word gives back its bits and fits 16 bits exactly if the rest does |
| `ManifestFile.EntryRoundTrip` | pkg/image/format.go:58-129 | an entry reads back, whatever follows it; version 1 replaces the digest by zeros |
| `ManifestFile.ManifestRoundTrip` | pkg/image/format.go:36-129 | every manifest reads back, whatever follows it; version 1 replaces the digests by zeros |
| `ManifestFile.ManifestBytes` | pkg/image/format.go:36-56 | the header by byte positions: magic number, version, the flag bits 1, 2, 4 and 8, count, total |
| `ManifestFile.EntryBytes` | pkg/image/format.go:58-80 | an entry by byte positions: pointer, size, offset, checksum, order and, from version 2, the digest |
| `ManifestFile.EntryPosition` | pkg/image/format.go:51-55 | entry i starts 64 i bytes behind the 20 of the header, 32 i in version 1 |
| `ManifestFile.ForeignFileIsRejected` | pkg/image/format.go:88-94 | a file that is shorter than a header or has another magic number is rejected |
| `ManifestFile.TruncatedManifestIsRejected` | pkg/image/format.go:82-129 | a manifest that lost any bytes at its end is rejected |
| `SparseFile.WriteSparse` | pkg/image/sparse.go:46-61 | appends the encoding of the runs to the stream |
| `SparseFile.ReadSparse` | pkg/image/sparse.go:75-102 | reads exactly what decoding gives; a missing file is an empty index |
| `SparseFile.SparseRoundTrip` | pkg/image/sparse.go:46-102 | every list of runs reads back |
| `SparseFile.SparseBytes` | pkg/image/sparse.go:46-61 | the file by byte positions: magic number, count, runs |
| `SparseFile.RunBytes` | pkg/image/sparse.go:57-61 | a run by byte positions: offset and size |
| `SparseFile.RunPosition` | pkg/image/sparse.go:57-61 | run i is the 16 bytes at 8 + 16 i |
| `MetaFile.WriteMeta` | pkg/image/meta.go:20-37 | the buffer filled in place is the encoding of the record |
| `MetaFile.ReadMeta` | pkg/image/meta.go:39-75 | never indexes outside the file; fails exactly for fewer than 16 bytes or a wrong magic number |
| `MetaFile.MetaRoundTrip` | pkg/image/meta.go:20-75 | every record reads back, as version 2, for any two strings |
| `MetaFile.MetaBytes` | pkg/image/meta.go:20-37 | the file by byte positions: magic number, version 2, flags, pid, device, and the two strings behind their lengths |
| `ModulesFile.WriteModules` | shim/module_io.cpp:22-54 | appends the encoding of the module list to the stream |
| `ModulesFile.RestoreModules` | shim/module_io.cpp:56-108 | returns and tracks exactly what replaying the file gives, for every file; -31 and nothing for another magic number |
| `ModulesFile.NamesRoundTrip` | shim/module_io.cpp:47-105 | of a symbol list, exactly the names that the driver finds are tracked, in order |
| `ModulesFile.ModuleRoundTrip` | shim/module_io.cpp:34-106 | a module is reloaded from its image, or from its path if it has none, or its loading error is returned |
| `ModulesFile.ModulesRoundTrip` | shim/module_io.cpp:22-108 | any module list is replayed up to the first module that does not load |
| `ModulesFile.WillingDriverReloadsAll` | shim/module_io.cpp:22-108 | if everything loads and is found, only the paths of modules with an image are lost |
| `ModulesFile.ModulesBytes` | shim/module_io.cpp:26-33 | the header by byte positions: magic number, version 1, two zero bytes, count |
| `ModulesFile.ModuleBytes` | shim/module_io.cpp:34-52 | a module by byte positions: context, kind, length, contents, number of names, names |
| `Ipc.StepKeepsAgreement` | shim/ipc.c:89-95 | a step keeps: the two states differ only while some thread is between its own tracker write and the second write of its set_state |
| `Ipc.StepKeepsWakeups` | shim/ipc.c:307-321 | a step keeps: a waiter sleeps through its awaited state only while a broadcast is about to come |
| `Ipc.EveryInterleaving` | shim/ipc.c:89-321 | for any number of threads and any interleaving: the states differ only while a thread is unsettled; who waits for a frozen process sleeps while it is frozen or snapped, and who waits for a running one while it runs or is restored, only if the holder of the mutex is about to signal; a wait returns frozen or snapped in the one case, running or restored in the other |
| `Ipc.SettledStatesAgree` | shim/ipc.c:89-95 | when no thread is inside an operation the states agree, the mutex is free, nobody waits for a frozen process that is frozen or snapped, nor for a running one that runs or is restored |
| `Ipc.OperationTakesEffect` | shim/ipc.c:89-95 | an operation that nobody interrupts leaves both copies in its state, frozen for a freeze, the mutex free and every sleeper awake |
| `Ipc.WaitReturnsOrSleeps` | shim/ipc.c:307-321 | a wait that nobody interrupts returns at once exactly in one of its two states and sleeps otherwise |
| `Ipc.ReportPrecedesLock` | shim/ipc.c:186-187 | the states can differ with nobody inside set_state, because the snapshot reports to the tracker first |
| `Rpc.SecretsMatch` | shim/ipc.c:112-124 | true exactly when there is no secret or the token's C string equals it, although the length difference is cut to one byte |
| `Rpc.RequireAuth` | shim/ipc.c:126-140 | admits, answers and consumes exactly as the authentication prescribes |
| `Rpc.HandleClient` | shim/ipc.c:150-217 | executes and answers exactly one request of the stream |
| `Rpc.Authenticate` | pkg/rpc/proto.go:105-123 | sends the secret only if there is one, and succeeds exactly on the answer 0 |
| `Rpc.Call` | pkg/rpc/proto.go:125-135 | sends opcode and, where needed, path, and reads one word |
| `Rpc.GetStatsReply` | pkg/rpc/proto.go:196-247 | succeeds exactly if eleven words arrive, the first of them 0, and assigns each to its field |
| `Rpc.AdmitCases` | shim/ipc.c:126-140 | the client's bytes pass with equal secrets, both empty included; the answer otherwise is 2 without and 1 with a wrong secret; a server without a secret passes an unasked one on to the opcode, where it fails |
| `Rpc.SessionExecutes` | shim/ipc.c:150-217 | of the client's stream the server executes exactly the client's operation and path, if and only if the secrets are equal and the path fits; else nothing |
| `Rpc.ExecutedByNumber` | shim/ipc.c:150-217 | by opcode number: 1 executes ping, 2 status, 3 freeze, 4 a snapshot and 5 a restore of the path, 6 resume, 7 quit, 8 the statistics, each with its reply words, 0 for success and 1 for failure |
| `Rpc.RefusedByNumber` | shim/ipc.c:150-217 | a path of 512 bytes or more and any other opcode execute nothing and are answered 1 |
| `Rpc.CallOnWire` | pkg/rpc/proto.go:125-135 | the bytes of a call: opcode as four bytes, highest first, and for 4 and 5 the path behind its length |
| `Rpc.AuthOnWire` | pkg/rpc/proto.go:105-123 | the bytes of the authentication: opcode 9 and the secret behind its length |
| `Rpc.ReplyReaches` | pkg/rpc/proto.go:117-135 | an admitted client reads the greeting as success and the server's return code as its own |
| `Rpc.StatsRoundTrip` | shim/ipc.c:97-110 | the ten words rebuild the statistics, the 64-bit total included |
| `Rpc.SharedSecretWorksIffShort` | shim/ipc.c:288-293 | one secret given to both sides works if and only if it has at most 255 bytes |
| `Rpc.OneRequestPerConnection` | pkg/control/shimctl.go:119-137 | of any list of calls over one connection the first is executed and no other, so all are if and only if there is at most one |
| `Drift.CompareImages` | pkg/control/drift.go:26-89 | every row is true, every difference of flags, counts, device, visible devices and entries looked at has its row, and each part is empty exactly when there is none |
| `Drift.CompareEntries` | pkg/control/drift.go:60-87 | every row is true, each left entry looked at that is missing or differs in size or checksum has its row, and there is none exactly when all match |
| `Drift.NoDriftIffSameMap` | pkg/control/drift.go:41-87 | with distinct pointers on the left: no manifest drift if and only if counts and the maps from pointer to size and checksum are equal |
| `Drift.NoDriftIsSymmetric` | pkg/control/drift.go:41-87 | with distinct pointers on both sides the verdict is equality of the maps, and symmetric |
| `Drift.NoDriftMeans` | pkg/control/drift.go:41-87 | for any two manifests without drift: the maps are equal if and only if the right one has no pointer that the left one lacks |
| `Drift.FooledIff` | pkg/control/drift.go:64-87 | an empty report can mislead for exactly those left manifests that have repeated pointers whose repeats all agree |
| `Drift.RepeatedPointersHideDrift` | pkg/control/drift.go:64-87 | two such manifests, for which the report is not symmetric either |
| `Publish.NextKeepsSound` | pkg/image/finalize.go:14-40 | every step, and a stop before any step, keeps the destination old or fully built, up to materialisation by a builder |
| `Publish.CompleteIsOldOrNew` | pkg/image/finalize.go:14-40 | over every run of attempts stopped anywhere: a COMPLETE destination is the old image or one a builder finished, at most materialised, and exactly that unless a builder has changed it; an old destination is missing if and only if it is between removal and rename or a stop there has not been followed by a successful attempt |
| `Publish.FailedBuilderLeavesNothing` | pkg/image/finalize.go:29-38 | a failed builder leaves no staging directory and has at most materialised other images; the destination is as it was unless the builder changed it |
| `Publish.TornReplacementLosesBoth` | pkg/image/finalize.go:18-31 | a stop between removal and rename, then a failing attempt, leaves neither image |
| `Publish.UninterruptedRun` | pkg/image/finalize.go:14-40 | an uninterrupted attempt replaces the destination by exactly the built image, marked COMPLETE |
| `Checkpoint.Finalize` | pkg/image/finalize.go:14-22 | the destination becomes the staging directory with its mark, and the staging directory is gone |
| `Checkpoint.SnapshotInto` | pkg/control/shimctl.go:76-90 | succeeds exactly when the snapshot does, and then the staging directory is the verified snapshot; otherwise it has what the failing snapshot left |
| `Checkpoint.BuildImage` | pkg/control/orchestrator.go:56-80 | stays within what publication allows, and materialises only unmaterialised ancestors of the parent; the error names the step that failed; a success has left the files and exactly the flags of the transformations asked for, and the record of the process; for a parent in harmony that does not descend from the staging directory, succeeds exactly when process, shim and CRIU cooperate and the parent stands for something |
| `Checkpoint.DoCheckpoint` | pkg/control/orchestrator.go:50-82 | for any parent: a success is an uninterrupted publication of an image marked COMPLETE, with the files and flags of the transformations asked for and a record with the pid, the device number of dev.bin or 0, the preload library and the visible devices; a failure names its step and has at most materialised ancestors of the parent that were not; the parent relation stays acyclic if and only if no delta against a descendant of the destination is published; for a parent in harmony, apart from the staging directory, it succeeds exactly when BuildImage does, the image then stands for the process's memory exactly if the parent fits, and unrelated images keep their contents |
| `Checkpoint.MovedLinks` | pkg/image/finalize.go:14-22 | after the rename of a delta: a cycle if its parent descends from the destination; otherwise none, but the image stands for nothing if its parent descends from the staging directory |
| `Checkpoint.GoodRankExists` | pkg/control/orchestrator.go:50-82 | every acyclic parent relation has a ranking as the contract of DoCheckpoint uses it, whatever destination and parent |
| `Checkpoint.DestinationAfterDump` | pkg/control/orchestrator.go:65-67 | when CRIU fails and the parent descends from the destination, the destination has been rewritten if and only if it was not up to date or was compressed |
| `Checkpoint.CheckpointIntoOtherSlot` | pkg/control/orchestrator.go:50-82 | for two images used in turn, run through DoCheckpoint: a failing dump has changed the destination, and a success makes the two images deltas of each other |
| `Checkpoint.ChildOfDestination` | pkg/image/finalize.go:14-22 | a delta of the replaced destination keeps its contents if and only if the old destination and the published memory agree wherever the delta does not write |
| `Checkpoint.RetriesNeverStopEarly` | pkg/control/queue.go:56-61 | no error of doCheckpoint has the code that ends the retries early |
| `Checkpoint.CheckpointWithRetry` | pkg/control/queue.go:27-71 | the first success is published; without one exactly the allowed number of attempts is made, the caller's or else the configured one or else one, and only ancestors of the parent were materialised; an attempt that cannot fail is the last at the latest |
| `Checkpoint.PreflightIff` | pkg/control/preflight.go:11-46 | any directory passes exactly if it is marked COMPLETE, has manifest, record and CRIU's files, names a preload library, has an entry, and has the form of the contents that the flags announce |
| `Checkpoint.PublishedPassesPreflight` | pkg/control/preflight.go:11-46 | a published image passes exactly when the process had a preload library and an allocation |
| `Checkpoint.CheckpointThenRestore` | pkg/control/shimctl.go:92-105 | from live memory through snapshot, processing, publication, preflight and materialisation and back, for a checkpoint that makes no cycle: if all report success and the parent fits, every byte is back at its address, in allocation order; with willing drivers, exactly when all do report success |

## Left out

- CUDA driver interposition, symbol loading and contexts (`shim/interpose.c`): foreign calls. The driver appears as answers that are parameters; `map_at` as one answer, without its rounding to the allocation granularity.
- Byte compatibility of the two manifest writers: the C++ structures have padding and no digest, the Go reader expects neither. One abstract manifest crosses that border, in which the shim's entries have an empty digest; the Go byte format is proved on its own.
- `EntrySize` (`pkg/image/format.go:29-30`): its constants do not describe what `writeEntry` emits.
- Stream restore: the tracker is cleared first (`shim/restore.cu:156-159`), so nothing is updated.
- Garbage collection, promotion and pins: they do not look at parents and would add only easier members.
- The meaning of `Status` after a failed handshake: it returns the raw reply word. The protocol is stated on the server's side.
- The signal handler, socket set-up, file ownership and process lifecycle; the status request's read under the mutex.
- CRIU, zstd and SHA-256 internals: functions with the stated properties only.
- The bytes of delta.bin, dev.bin, ctx.bin and streams.bin: record lists of the kind shown for sparse.bin.
- Failing disk writes and short socket reads in the middle of a stream; recursive removal is one step; the text of snapshot.err and restore.err.
- 64-bit wrap-around of addresses and sizes: allocations end below 2^64, device.bin is shorter than 2^63 bytes, sequence numbers stay below 2^32. These are the bounds in the `requires` clauses.
- Tracker.Tracker.AllocsSnapshot: states the result for a moment without concurrent callers, because the shards are locked one after another.
- Tracker.Tracker.TrackAlloc: the class method is the call as one thread makes it; `Tracker.Next` has its two critical sections as separate steps, and `Tracker.TrackIsTwoSections` connects them.
- CopyOutcome.Join: threads are states and steps, not language threads; a copy is one step for each byte.
- Ipc.EveryInterleaving: threads are states and steps; a pthread condition is a broadcast that makes every sleeper ask for the mutex again, with spurious wake-ups.
- Delta.Reconstruct: a record that points outside the buffers fails; in Go the spare capacity of a slice may let a malformed delta file through.
- Pipeline.WriteDelta: for images that are not in harmony it states only which directories may change.
- Pipeline.ProcessImage: for an image whose device.bin is missing or out of date, or that is not in harmony, it states only which directories may change, the cycle, and what each stage leaves.
- Checkpoint.CheckpointThenRestore: assumes that the parent is in harmony, does not descend from the staging directory, and makes no cycle, after which the materialisation would not end; `Checkpoint.DoCheckpoint` states without these what publication keeps.
- Checkpoint.DoCheckpoint: for a parent that is not in harmony or descends from the staging directory it does not say exactly when the attempt succeeds.
- Pipeline.ProcessThenMaterialize: assumes that processing makes no cycle, after which the materialisation would not end.
- ImageStore.FileSystem.EnsureDeviceMaterialized: assumes an acyclic parent relation; on a cycle the source does not end.
- Verify.ScatteredDamageIsRejected: nothing is claimed about damage wider than four bytes in one chunk, which a 32-bit checksum cannot always see.
- Restore polling, watch loops, retry sleeps, configuration, command line, health probes, metrics, logging, reports, benchmarks and packaging.
