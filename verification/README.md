# Clone: a verified model of its stateful cores

Clone is a virtual machine monitor for KVM. This project models the parts of it
that keep state in which a mistake is silent, and proves what each of them is for:

- **QCOW2 images** (`Qcow2*.dfy`). An open image is a class whose fields are the
  host file, the L1 table, the refcount table, the write-back cache of L2 tables and
  the allocation cursor. Guest reads and writes go through the two-level mapping,
  copy-on-write from a backing file (raw, or another image, recursively), LRU
  eviction and the allocator of clusters and refcount blocks. The abstract state is
  the flat guest disk. `Qcow2Ops` gives every elementary operation as a function
  from state to state, `Qcow2Correct` proves what it does to the invariant and to
  the disk, and the class `Qcow2File` computes these functions in place. `Qcow2Flush`
  flushes it, with the move of a refcount table that has outgrown its place.
- **Live migration** (`Migration*.dfy`). The wire format; the sender's round and the
  receiver's message loop; and the whole protocol as interleaved steps of an
  arbitrary guest, the sender and the receiver, with torn page reads.
- **Virtqueues** (`Virtqueue*.dfy`, `NetRx*.dfy`). Descriptor chains, the rings in
  guest memory with their 16-bit wrapping indices, the drain loop of the MMIO
  transport, and the receive path of the network device beside the transport's, with
  the arrival of a frame in the guest's buffers.
- **Snapshots** (`DirtyPages.dfy`, `Snapshot*.dfy`). Dirty bitmaps, incremental
  diffs, and chains of snapshots that are walked, resolved and compacted.
- **Smaller kernels**: guest memory around the MMIO hole (`GuestMemory.dfy`), the
  boot page tables (`PageTables.dfy`), the balloon policy over time (`Balloon.dfy`)
  and the seccomp filter compiler (`Seccomp.dfy`).

Formats follow the QCOW2 specification (sections "Header", "Cluster mapping" and
"Host cluster management"), VIRTIO 1.1 (sections 2.6.5, 2.6.6 and 2.6.8) and the
Intel SDM, volume 3A, section 4.5.

## Where the code and its promises part

The model follows the code. Where a promise fails, the exact condition is proved.

- A migration is exact in every run if and only if the bitmap that the converging
  round fetches is carried into the final round, which the code does not do
  (`MigrationLoss.ExactIffCarried`). The losing run exists for every threshold and
  every bound on the rounds.
- Of a vCPU only the general and special registers reach the receiver
  (`MigrationWire.VcpuRoundTrip`, `MigrationWire.LapicLost`).
- Version 3 header fields overlap `snapshots_offset`; a header survives being
  written and read back if and only if the shared bytes agree
  (`Qcow2Header.HeaderRoundTrip`).
- `create` does not revise the number of refcount blocks; the L1 table of a new
  image is empty if and only if the planned blocks suffice (`Qcow2Create.InitialL1`),
  and `Qcow2Create.CreateOverruns` is a disk for which they do not. The table covers
  the disk if and only if its size fits 32 bits (`Qcow2Create.NewCovers`); with
  512-byte clusters a disk of 2^47 bytes gets no entry at all
  (`Qcow2Create.CoverageLost`).
- When the host has room for one more cluster, but not for the refcount block that it
  lacks, allocation leaves it in the file without refcount, and opening the image again
  cannot tell; that is the only case (`Qcow2Layout.RefcountLost`). The refcount
  invariant then holds as long as the file can still grow
  (`Qcow2Layout.RefcountsAreOne`).
- A refcount table that outgrows its clusters moves to the end of the file. Every cluster
  is then counted if and only if the clusters of the table do not outlast the first
  range that begins among them (`Qcow2Move.LoopCounts`, `Qcow2Move.CoveringIs`):
  otherwise the refcount block for that range lies outside it and stays uncounted
  (`Qcow2Relocate.LongMove` is such a move). The table fits the clusters computed for
  it if and only if counting them does not make it too long (`Qcow2Relocate.MoveMeans`,
  `Qcow2Relocate.TightMove`); otherwise it is written over the blocks behind, and
  opening the image again cuts it off. The guest disk survives both.
- A write to part of a cluster that is not allocated, over a QCOW2 backing image that
  ends inside that cluster, fails. Apart from the end of the disk and a host that
  refuses to grow the file, `Qcow2File.Qcow2File.WriteAt` succeeds if and only if no
  such cluster is in its way; `Qcow2Life.ShortBackingRefused` is the smallest case.
- The cache of L2 tables is meant to hold 256. Loading a table keeps to that, but a new
  table enters without eviction, so that a full cache grows
  (`Qcow2Ops.CacheAfterLoad`, `Qcow2Ops.CacheAfterNew`); reads never make it grow past
  256 (`Qcow2File.Qcow2File.ReadAt`).
- A range that starts below the MMIO hole and runs past it spills into the memory
  above (`GuestMemory.RangeTranslation`, `GuestMemory.SpillsOver`).
- The seccomp filter enforces the last 255 entries of its list
  (`Seccomp.FilterMeans`, `Seccomp.FirstEntryKilled`), because jump distances have 8
  bits.
- A compacted snapshot is shadowed by incremental metadata in its directory; it then
  resolves to the original if and only if these have the same vCPU states, device
  states and memory (`SnapshotResolve.CompactShadowed`).
- The network device follows a chain without a bound, so that its loop ends if and
  only if the chain is acyclic (`VirtqueueChains.EndsIffAcyclic`).

## Model

| member | source | states |
|---|---|---|
| `Qcow2Header.HeaderRoundTrip` | src/storage/qcow2.rs:88-197 | Reading a written header gives it back, whatever follows in the file, if and only if it is representable: in version 3 the low half of the snapshot offset equals the high half of the incompatible features, in version 2 the extension fields hold their defaults. |
| `Qcow2Header.SnapshotOffsetLost` | src/storage/qcow2.rs:135-139 | Supported version 3 headers with a snapshot table at 4096 do not survive. |
| `Qcow2Header.AcceptsExactly` | src/storage/qcow2.rs:88-155 | Parsing accepts a file if and only if its bytes are "QFI" and 0xfb, version 2 or 3, a cluster size between 512 bytes and 2 MB and no encryption, and the header is all there. |
| `Qcow2Header.ReadThenWrite` | src/storage/qcow2.rs:88-197 | Every header that is parsed survives being written and read back, and writing it gives the bytes that were read, up to the padding at 100. |
| `Qcow2Image.TableRoundTrip` | src/storage/qcow2.rs:968-990 | Decoding an encoded table of 64-bit big-endian entries gives the table. |
| `Bytes.BytePlaces` | src/storage/qcow2.rs:968-990 | The big-endian bytes of a number are its little-endian bytes reversed, and the first of those is the lowest. |
| `Qcow2Image.Masks` | src/storage/qcow2.rs:40-53 | The masks take bits 9 to 55 and 9 to 61 of an entry, and the compression flag is bit 62, for all values of the other bits. |
| `Qcow2Image.Digits` | src/storage/qcow2.rs:700-718 | A guest offset is (64u * L1 index + L2 index) * 512u plus its place in the cluster, and its indices are the only numbers for which that holds. |
| `Qcow2Image.MissingBlock` | src/storage/qcow2.rs:895-940 | When every cluster below n is counted, the refcount block for n is missing only if n is the first cluster of its range; a block that is added right after n lies in its own range, so that allocating single clusters never reaches the case that the code leaves unhandled. |
| `Qcow2Count.SetRefcountCore` | src/storage/qcow2.rs:895-940 | Setting a refcount, with the block that this may add wherever it lies, keeps the layout, every earlier role, the L1 table and the disk; it fails only past the limit of the host, and then the file is as it was. |
| `Qcow2Count.SetRefcountCounts` | src/storage/qcow2.rs:895-940 | Setting the refcount of the first uncounted cluster of a run leaves exactly one cluster fewer uncounted, if a block that is added for it covers itself. |
| `Qcow2Correct.FlushInv` | src/storage/qcow2.rs:850-863 | Writing a cached table back keeps the invariant, every logical table and the guest disk, and leaves the table clean. |
| `Qcow2Correct.EvictInv` | src/storage/qcow2.rs:831-848 | Evicting a table, dirty or not, keeps the invariant, every logical table and the guest disk. |
| `Qcow2Correct.EnsureInv` | src/storage/qcow2.rs:797-829 | Loading a table, with eviction when the cache is full, succeeds, keeps the invariant, every logical table and the guest disk, and leaves the table cached. |
| `Qcow2Correct.TranslateInv` | src/storage/qcow2.rs:700-750 | Translation never rejects an image in the invariant, and answers with the host cluster that the logical tables give, or with none. |
| `Qcow2Ops.EntryMeans` | src/storage/qcow2.rs:731-750 | An L2 entry with bit 62 is refused, one without it leads to the host offset in bits 9 to 61, and one with no offset is as good as none. |
| `Qcow2Correct.AllocInv` | src/storage/qcow2.rs:672-691 | Allocation keeps the invariant, every earlier role and the disk; on success the cluster had no role before, and every cluster below the cursor, new blocks included, has refcount one; it fails only past the limit of the host. |
| `Qcow2Correct.PutEntryInv` | src/storage/qcow2.rs:788-794 | Linking a cluster changes the mapping of exactly one guest cluster and keeps the invariant. |
| `Qcow2Correct.WriteAllocated` | src/storage/qcow2.rs:610-621 | Overwriting part of an allocated cluster patches the guest disk exactly there. |
| `Qcow2Correct.WriteLinked` | src/storage/qcow2.rs:584-621 | Linking a prepared cluster and writing into it patches the guest disk exactly where it is written. |
| `Qcow2Layout.LayoutDisjoint` | src/storage/qcow2.rs:672-691 | Header, L1 table, refcount table, refcount blocks, L2 tables and data clusters are aligned, lie below the allocation cursor and share no byte; in particular no two guest clusters share a host cluster. |
| `Qcow2Layout.ByteLives` | src/storage/qcow2.rs:505-556 | Byte k of cluster j of table i of the guest disk is byte k behind the host offset in the L2 entry, where the L1 and the L2 entry have bit 63 set, or the byte of the base where there is no entry. |
| `Qcow2Layout.RefcountsAreOne` | src/storage/qcow2.rs:870-940 | Every cluster below the allocation cursor has refcount one, unless growing the file has failed or a move of the refcount table has spoilt the counts. |
| `Qcow2Layout.RefcountLost` | src/storage/qcow2.rs:672-691 | Allocation leaves a cluster of the file without refcount if and only if the host has room for it but not for the refcount block that it lacks; the allocation then fails, with the file one cluster longer. |
| `Qcow2Layout.RefcountPlace` | src/storage/qcow2.rs:870-940 | The refcount of cluster 256u * k + r is the big-endian two bytes at 2r in the k-th refcount block. |
| `Qcow2Layout.AgesDiffer` | src/storage/qcow2.rs:797-848 | No two cached tables have the same access stamp. |
| `Qcow2Ops.CacheAfterLoad` | src/storage/qcow2.rs:797-829 | Loading a table adds one to the cache while fewer than 256 are there, and with 256 or more takes the place of another. |
| `Qcow2Ops.CacheAfterNew` | src/storage/qcow2.rs:754-794 | A new table enters the cache without eviction, so that the cache stays within 256 tables if and only if it was not full. |
| `Qcow2File.Qcow2File.LeastRecentlyUsed` | src/storage/qcow2.rs:831-840 | The victim is the unique least recently used table; there is none only for an empty cache. |
| `Qcow2File.Qcow2File.FlushL2Table` | src/storage/qcow2.rs:850-863 | The method computes the specified state change, so that the lemma on flushing applies. |
| `Qcow2File.Qcow2File.EnsureL2Cached` | src/storage/qcow2.rs:797-829 | The method computes the specified state change with the least recently used table as victim. |
| `Qcow2File.Qcow2File.SetRefcount` | src/storage/qcow2.rs:895-940 | The method computes the specified state change, including table growth and a new block. |
| `Qcow2File.Qcow2File.AllocCluster` | src/storage/qcow2.rs:672-691 | The method computes the specified state change and returns the old cursor. |
| `Qcow2File.Qcow2File.SetL2Entry` | src/storage/qcow2.rs:754-794 | The entry of exactly one guest cluster changes, after an L2 table has been loaded or added; on failure nothing but the cache and the free space has changed. |
| `Qcow2File.Qcow2File.ReadBacking` | src/storage/qcow2.rs:244-260 | Without a backing file every byte read is zero; a raw one yields its own bytes, and zeros past its end; over a QCOW2 image the read succeeds if and only if that image has every byte, and yields them. |
| `Qcow2File.Qcow2File.ReadAt` | src/storage/qcow2.rs:505-556 | A read succeeds if and only if its range lies in the disk and is readable, returns that slice of the flat disk and leaves the disk as it is; a read that fails returns nothing. It leaves no more than 256 tables in the cache, or no more than there were. |
| `Qcow2File.Qcow2File.WriteAt` | src/storage/qcow2.rs:561-627 | A write that succeeds changes the flat disk on exactly its range; one that fails has written a prefix. It moves the cursor by at most four clusters for each that it touches, and fails for lack of room only if the limit leaves less. Apart from that and from a range that leaves the disk, it succeeds if and only if no cluster is in its way: not allocated, covered only in part, and not readable in the base. |
| `Qcow2Writes.ReadableBase` | src/storage/qcow2.rs:591-597 | No cluster is in the way of any write when there is no base, a raw base, or a readable image of whole clusters that goes far enough. |
| `Qcow2Writes.ShortBase` | src/storage/qcow2.rs:591-597 | A write to byte 600 alone, over an image of 700 bytes with 512-byte clusters, has a cluster in its way. |
| `Qcow2Flush.Flush` | src/storage/qcow2.rs:630-653 | After a flush the cache is clean, the L1 table is on disk and the guest disk, the mapping and the rest of the header are the same; everything that opening reads is on disk exactly when the refcount table still fits its clusters, or can be followed when it moves and the end of the file after the move, which can be computed beforehand, is within the limit. A move keeps the refcounts if and only if it is tidy and roomy; without a move nothing but bytes of the file and the cache has changed. |
| `Qcow2Flush.ReserveTable` | src/storage/qcow2.rs:1001-1011 | The clusters reserved at the end of the file are unused and zero, and followed by exactly the blocks that they lack, in a state with the invariant that extends the old one; it succeeds exactly when these clusters and blocks are within the limit; if a block does not cover itself, the cluster behind the reserved ones has refcount zero. |
| `Qcow2Flush.MoveTable` | src/storage/qcow2.rs:993-1025 | A move keeps the invariant, the L1 table on disk and the guest disk, changes only the two header fields, and writes the whole table to its new place, also where it spills over the blocks behind; it succeeds exactly when the file can grow by what it costs. |
| `Qcow2Move.CountOne` | src/storage/qcow2.rs:1007-1011 | Each turn of the counting loop counts one more reserved cluster, adds a block exactly for a range that lacks one, and keeps what is counted and what is missed. |
| `Qcow2Move.LoopCounts` | src/storage/qcow2.rs:1007-1011 | After the whole loop every cluster of the file is counted if and only if the blocks that were added cover themselves; otherwise the cluster behind the reserved ones is a block with refcount zero. |
| `Qcow2Move.CoveringIs` | src/storage/qcow2.rs:913-930 | Every block that counting a run can add covers itself if and only if the first range that begins in the run reaches beyond its end. |
| `Qcow2Move.BlockOutside` | src/storage/qcow2.rs:927-930 | A block that is added to a range other than its own, which has none yet, is left with refcount zero. |
| `Qcow2Move.MissedKept` | src/storage/qcow2.rs:895-940 | Setting the refcount of another cluster, with the block that this may add, leaves a cluster with refcount zero as it is. |
| `Qcow2Relocate.MoveMeans` | src/storage/qcow2.rs:993-1025 | Adopting the reserved clusters and rewriting the header keeps the invariant, the L1 table and the guest disk, and the header says where the table is; the table, which counting may have made longer, fits there if and only if a condition on cursor and number of clusters holds beforehand. |
| `Qcow2Relocate.SpillInv` | src/storage/qcow2.rs:1018-1023 | Writing a table that is longer than its clusters, but ends within the refcount blocks behind them, spoils refcounts and nothing else. |
| `Qcow2Relocate.ReachingMoves` | src/storage/qcow2.rs:993-1025 | A table that reaches the range of the cursor can always be followed when it moves, however long counting makes it. |
| `Qcow2Relocate.MoveSpoils` | src/storage/qcow2.rs:993-1025 | A move that is not both tidy and roomy leaves a cluster of the file that the table read by `open` does not count. |
| `Qcow2Relocate.TightMove` | src/storage/qcow2.rs:993-1025 | A table of 128 entries at cluster 32767 of 512 bytes that does not fit the two clusters computed for it. |
| `Qcow2Relocate.LongMove` | src/storage/qcow2.rs:1007-1011 | A table of 19190 entries that fits the 300 clusters computed for it, among which, from cluster 4912630 on, a range begins that ends before they do. |
| `Qcow2Relocate.LongMoveMisses` | src/storage/qcow2.rs:1007-1011 | After the counting loop of this move, cluster 4912930 has refcount zero. |
| `Qcow2Persist.FlushThenOpen` | src/storage/qcow2.rs:296-351 | Opening a flushed image, also one whose file could not be grown or whose table spilled, reads back header, L1 table, refcount table (cut off or filled up with zero entries at the end of its clusters) and backing path, and sets the cursor to the end of the file, which is where it was unless growing failed; the state has the invariant and the same disk. |
| `Qcow2Create.Create` | src/storage/qcow2.rs:363-492 | The file that is written, byte for byte, and exactly when creation fails. |
| `Qcow2Create.InitialL1` | src/storage/qcow2.rs:394-479 | The L1 table of a new image is empty if and only if the planned refcount blocks suffice. |
| `Qcow2Create.CreateOverruns` | src/storage/qcow2.rs:394-406 | A disk of 1067450368 bytes with 512-byte clusters for which they do not. |
| `Qcow2Create.NewCovers` | src/storage/qcow2.rs:377-381 | The L1 table covers the disk if and only if the number of entries that it needs fits 32 bits. |
| `Qcow2Create.CoverageLost` | src/storage/qcow2.rs:377-381 | A disk of 2^47 bytes with 512-byte clusters gets an L1 table without entries, which covers nothing. |
| `Qcow2Create.NewImageInv` | src/storage/qcow2.rs:408-479 | A new image whose blocks suffice satisfies the whole invariant, refcounts included. |
| `Qcow2Create.CreateThenOpen` | src/storage/qcow2.rs:363-492 | Opening what `create` wrote gives the planned tables and cursor in a state with the invariant. |
| `Qcow2Life.CreateImage` | src/storage/qcow2.rs:363-492 | It fails exactly when `create` does; the new file is a well-formed image exactly when the plan is one; then the image has the planned header, geometry and cursor and nothing allocated, and shows zeros, the bytes of its raw backing file followed by zeros, or the disk of its QCOW2 backing image. |
| `Qcow2Life.Reopen` | src/storage/qcow2.rs:630-653 | Flushing and opening again, with a move of the refcount table if it needs one, gives an image with the same disk, mapping, L1 table and refcount table, as far as this fits its place, and the cursor at the end of the file; whether it is possible can be told from cursor, table and room beforehand. |
| `Qcow2Life.Serve` | src/storage/qcow2.rs:505-653 | Over any run of reads, writes, flushes and restarts, in which the refcount table may move, every request is answered from the flat disk; a write within the disk fails only when four clusters for each that it touches would pass the limit, or when a cluster is in its way, and in the latter case it must; a flush or restart succeeds exactly when the refcount table has a place or there is room for its move. |
| `Qcow2Life.Session` | src/storage/qcow2.rs:363-653 | The same for every run from `create`, which starts with zeros, with the bytes of the raw backing file followed by zeros, or with the disk of the backing image. |
| `Qcow2Life.WriteThenRead` | src/storage/qcow2.rs:505-627 | A write that succeeds is read back. |
| `Qcow2Life.ReadApart` | src/storage/qcow2.rs:505-627 | A range apart from a write reads as before the write, or fails as before, whether the write succeeds or not. |
| `Qcow2Runs.RunIsFlat` | src/storage/qcow2.rs:505-653 | A run for which the host has room, computed from the requests and from cursor, refcount table and its room at the beginning, over a base that suffices, is the run of a flat disk: exactly the requests within the disk are carried out, and the disk is what the writes make of it. |
| `Qcow2Runs.ChargeWithin` | src/storage/qcow2.rs:505-653 | The computed bounds on cursor, refcount table and its room hold after every request, moves of the table included. |
| `Qcow2Runs.NeededSuffices` | src/storage/qcow2.rs:561-627 | As long as the refcount table need not outgrow its room, a run moves the cursor by no more than four bytes for each that is written and eight clusters for each write. |
| `Qcow2Runs.FlatSession` | src/storage/qcow2.rs:363-653 | A new disk over a raw backing file, or over none, for which the host has room is a flat file of the backing bytes and zeros behind them: exactly the requests within the disk are carried out, and the disk is what the writes make of it. |
| `Qcow2Life.ShortBackingRefused` | src/storage/qcow2.rs:591-597 | A 700-byte overlay over a 700-byte image with 512-byte clusters refuses a write to byte 600, with room for four more clusters for no other reason than the base. |
| `MigrationWire.FrameRoundTrip` | src/migration/mod.rs:90-110 | A frame is read back, with the stream continuing after it, if and only if its length fits 32 bits. |
| `MigrationWire.EncodePageBatch` | src/migration/mod.rs:118-127 | The loop writes the count and the records of a batch. |
| `MigrationWire.DecodePageBatch` | src/migration/mod.rs:130-149 | The loop yields the announced records, and fails exactly when the payload is too short for them. |
| `MigrationWire.BatchRoundTrip` | src/migration/mod.rs:118-149 | Decoding inverts encoding if and only if the number of pages fits 32 bits. |
| `MigrationWire.VcpuRoundTrip` | src/migration/mod.rs:377-385 | A vCPU state arrives intact if and only if it has nothing but general and special registers. |
| `MigrationWire.LapicLost` | src/migration/mod.rs:377-385 | A state with one byte of local APIC arrives without it. |
| `MigrationWire.VcpuParts` | src/migration/mod.rs:715-743 | The registers that were encoded are the ones that are decoded. |
| `MigrationLoops.SendRound` | src/migration/mod.rs:225-253 | Whatever the guest does, a round sends every selected page exactly once, in ascending order, in batches of 64 of which only the last may be smaller, and adds their number to the total. |
| `MigrationRounds.RoundSends` | src/migration/mod.rs:225-253 | Every round of a run of the protocol, whatever the guest does meanwhile, sends what a round of the sender sends: full batches and a last one, with one record for each selected page, in ascending order; after the first round the selected pages are exactly those of the bitmap. |
| `MigrationRounds.RoundBegins` | src/migration/mod.rs:265-362 | A fetch of the bitmap ends the rounds if and only if the number of dirty pages of memory is below the threshold or the bound on the rounds is reached; otherwise it begins a round with that bitmap, and so does the final fetch with what is dirty then. |
| `MigrationRounds.FullUnique` | src/migration/mod.rs:225-253 | Two ways to cut a list into full batches and a last one are the same. |
| `MigrationRounds.SendRoundOf` | src/migration/mod.rs:225-253 | The sender's loop, on what a round of a run selected and read, puts exactly the messages of that round on the wire. |
| `MigrationLoops.PickedAll` | src/migration/mod.rs:290-317 | The pages of a round are the selected ones, strictly ascending. |
| `MigrationLoops.ListedIs` | src/migration/mod.rs:290-317 | The records of a round are those pages with what was read of them. |
| `MigrationLoops.CountDirty` | src/migration/mod.rs:268-277 | The loop counts the marked pages of usable memory. |
| `MigrationLoops.CountAgrees` | src/migration/mod.rs:268-277 | The count that decides about convergence is the number of marked pages. |
| `MigrationLoops.MigrationTarget.Run` | src/migration/mod.rs:516-564 | The receiver's loop consumes the stream as specified, and fails exactly on a malformed stream or a missing final-round marker. |
| `MigrationLoops.ConsumeSent` | src/migration/mod.rs:522-560 | On the bytes of any sendable message sequence that ends with Complete, the loop does what the messages say. |
| `Migration.Step` | src/migration/mod.rs:215-362 | Every step of guest, sender and receiver keeps the invariant: once everything in flight has arrived, each page equals the source or is known to be stale. |
| `Migration.RunPaced` | src/migration/mod.rs:265-287 | In every run the round counter is the number of fetches; while the sender iterates, the pages of the bitmap number at least the threshold and rounds are left, and once it has converged the discarded pages number fewer than the threshold or the rounds are used up. |
| `Migration.NextRoundDecides` | src/migration/mod.rs:265-287 | When a round is over, the next fetch is possible, and it converges if and only if fewer pages than the threshold are dirty or the bound on the rounds is reached. |
| `Migration.Migrated` | src/migration/mod.rs:215-362 | In every completed run memory agrees on every page outside the discarded bitmap, and on every page if it is carried; fewer pages than the threshold differ, unless the rounds were used up; page counts agree, registers and device state arrive, and the rounds are bounded. |
| `MigrationLoss.ExactIffCarried` | src/migration/mod.rs:265-287 | Every completed run moves memory exactly if and only if the discarded bitmap is carried over (or there is no memory). |
| `MigrationLoss.LosingRun` | src/migration/mod.rs:265-287 | For every threshold and every bound on the rounds, a run that completes with a different page. |
| `MigrationStream.LogSendable` | src/migration/mod.rs:225-253 | Every message that a run sends fits its frame: batches of at most 64 pages with offsets in memory, and machine state of 32-bit length. |
| `MigrationStream.CompleteLast` | src/migration/mod.rs:386-411 | A run sends Complete exactly when it finishes, once, as its last message. |
| `MigrationStream.StreamMigrates` | src/migration/mod.rs:215-564 | On the bytes of a completed run the receiver's loop ends in exactly the receiver state of the protocol. |
| `MigrationStream.ReceiveRun` | src/migration/mod.rs:516-564 | The receiver, fed the byte stream of any completed run, succeeds, and its memory, page count, registers and device state are those that the protocol guarantees. |
| `DirtyPages.GetDirtyBitmap` | src/memory/overcommit.rs:92-116 | A page is marked in the byte bitmap if and only if its bit is set in the log of 64-bit words. |
| `DirtyPages.BitPlace` | src/memory/overcommit.rs:92-116 | Bit k of a number is its binary digit with the weight of the k-th power of two. |
| `DirtyPages.CollectDirtyPages` | src/memory/overcommit.rs:123-164 | The collected data are the marked pages of usable memory, in ascending order. |
| `DirtyPages.ApplyDiff` | src/boot/template.rs:609-639 | In place, exactly the marked pages that fit the memory and the data are replaced, each by the data of its rank; the early exits of the loop change nothing of this. |
| `DirtyPages.DiffRoundTrip` | src/boot/template.rs:609-639 | Applying the collected diff to the old memory gives the current memory if and only if the log covers every page that differs. |
| `DirtyPages.SnapshotAndRestore` | src/memory/overcommit.rs:92-164 | The same for log, repacking, collection and application one after the other. |
| `SnapshotChain.WalkChain` | src/boot/template.rs:549-595 | The loop, of at most 257 loads, returns the nodes of the chain from root to leaf, with the tag, kind and depth that the metadata record: the first directory is a full snapshot without parent, and each later one names the one before as its parent tag or, without a tag, as its base template. It fails exactly when no such chain of at most 257 directories leads to the leaf. |
| `SnapshotChain.ChainIsRecorded` | src/boot/template.rs:549-595 | Directories are the chain of a leaf if and only if they lead from a full snapshot without parent to it, each naming the one before, within the limit. |
| `SnapshotChain.ChainIsPath` | src/boot/template.rs:549-595 | There is a chain if and only if a root is at most 256 steps away, and it is the reversed path of parents. |
| `SnapshotChain.CycleFails` | src/boot/template.rs:553-591 | Walking fails on every cycle. |
| `SnapshotChain.ChainDistinct` | src/boot/template.rs:549-595 | The directories of a chain are distinct. |
| `SnapshotResolve.ResolveChain` | src/boot/template.rs:646-672 | The loop yields the root's memory with all diffs applied in order, with the leaf's machine state, or fails where something cannot be read. |
| `SnapshotResolve.HistoryRestored` | src/boot/template.rs:646-672 | Replaying a chain of snapshots, each taken under a covering log, restores the memory of the last one. |
| `SnapshotResolve.HistoryResolved` | src/boot/template.rs:549-672 | When each snapshot names the one before, the first is a full one without parent, there are at most 257 and each was taken under a covering log, the last one resolves to the memory that it was taken of, with its own machine state. |
| `SnapshotResolve.SnapshotStore.CompactChain` | src/boot/template.rs:678-728 | Compaction succeeds if and only if the chain resolves; it then writes the memory to one file and one template, with these fields, in the output directory, and changes nothing else; the second walk never fails. |
| `SnapshotResolve.CompactEquivalent` | src/boot/template.rs:678-728 | The compacted snapshot resolves to the same memory and machine state, if its directory holds no incremental metadata. |
| `SnapshotResolve.CompactKeepsOriginal` | src/boot/template.rs:678-728 | The original still resolves to the same, if the output directory is off its chain and no snapshot of it reads the file written there. |
| `SnapshotResolve.CompactShadowed` | src/boot/template.rs:549-570 | With incremental metadata in the output directory, it resolves to their machine state and the memory of their own chain, as before the compaction unless another snapshot reads the file that is written; so it resolves to the original if and only if vCPU states, device states and that memory agree beforehand. |
| `SnapshotResolve.ShadowedStore` | src/boot/template.rs:678-728 | A store in which compacting one snapshot into the directory of another does not take effect. |
| `SnapshotResolve.ShadowMemory` | src/boot/template.rs:678-728 | Compaction leaves the memory that these metadata stand for, or their failure to resolve, as it was, if no other snapshot reads the file that is written. |
| `VirtqueueChains.AcceptsGoodChains` | src/virtio/queue.rs:250-282 | The walk bounded by the table size accepts a chain if and only if following `next` stays in the table and is acyclic: the bound never rejects a good chain. |
| `VirtqueueChains.ChainDistinct` | src/virtio/queue.rs:250-282 | No accepted chain visits a descriptor twice. |
| `VirtqueueChains.EndsIffAcyclic` | src/virtio/net.rs:567-597 | Following `next` without a bound, within the table, ends if and only if the chain is acyclic. |
| `VirtqueueChains.SelfLoop` | src/virtio/net.rs:567-597 | A table of one descriptor that points to itself, on which it never ends, while the bounded walk rejects it. |
| `VirtqueueChains.FlagBits` | src/virtio/queue.rs:28-29 | The next and write flags are bits 0 and 1, for all values of the other bits. |
| `Virtqueue.CollectChain` | src/virtio/queue.rs:250-282 | The loop collects the descriptors of the chain, or fails. |
| `Virtqueue.ReadChainExact` | src/virtio/queue.rs:250-282 | What it collects are the visited descriptors, none twice, exactly for good chains. |
| `Virtqueue.Virtqueue.PopAvail` | src/virtio/queue.rs:233-287 | The result is the specified chain, and the cursor advances with wrap-around exactly when there is one. |
| `Virtqueue.PopExact` | src/virtio/queue.rs:233-287 | With a readable table, a pop succeeds if and only if there is an available entry whose chain stays in the table and is acyclic. |
| `Virtqueue.Virtqueue.PushUsed` | src/virtio/queue.rs:294-314 | The three writes, with what remains of them when a later one fails. |
| `VirtqueueRings.PopIs` | src/virtio/queue.rs:233-287 | Popping through guest memory is popping from the values that the rings hold. |
| `VirtqueueRings.DescriptorIs` | src/virtio/queue.rs:23-32 | Sixteen bytes of the table, little-endian address, length, flags and next, are read as the descriptor that they encode. |
| `VirtqueueRings.PushRings` | src/virtio/queue.rs:294-314 | Pushing posts one element at the used index and advances the index with wrap-around; the table and the available ring stay. |
| `VirtqueueRings.ElementIs` | src/virtio/queue.rs:294-314 | Eight bytes of the used ring, little-endian head and length, are the element that they encode. |
| `VirtqueueRings.BufferWrite` | src/virtio/mmio.rs:477-480 | A write outside the three areas leaves what they hold. |
| `VirtqueueDrain.HasPending` | src/virtio/queue.rs:218-228 | The queue has something available exactly when a published chain is ahead of the cursor, counted with wrap-around; otherwise a pop yields nothing. |
| `VirtqueueDrain.WantsInterrupt` | src/virtio/queue.rs:321-332 | The driver is interrupted exactly when bit 0 of the flags that the available ring holds is clear. |
| `VirtqueueDrain.ProcessQueueDescriptors` | src/virtio/mmio.rs:451-493 | For every device, with any state of its own, that keeps off the rings wherever the buffers do, and from any index values: draining ends; it serves the published chains in order, handing each result to the next; it posts one used element each, with the bytes that the device reports; it stops at the published index or at the first chain that leaves the table or is cyclic; and it raises an interrupt exactly when something was served and the driver wants it. |
| `VirtqueueDrain.PostAllSlots` | src/virtio/queue.rs:294-314 | With a ring size that divides 65536 and no more elements than slots, each posted element is in its slot and every other slot is as before. |
| `VirtqueueDrain.UsedRingHolds` | src/virtio/mmio.rs:451-493 | After draining at most `size` outstanding entries, the j-th new used element names the j-th published head. |
| `NetRx.RxPopIs` | src/virtio/net.rs:508-520 | The cursorless pop sees the head at the used index, and nothing when the indices agree. |
| `NetRx.RxPostIs` | src/virtio/net.rs:523-535 | Posting through raw pointers leaves the same memory as posting through the queue. |
| `NetRx.FillsAgree` | src/virtio/net.rs:567-597 | Filling header and frame separately leaves the same memory and count as the transport's loop over their concatenation. |
| `NetRxArrival.FillArrives` | src/virtio/mmio.rs:533-548 | For writable buffers that lie in memory and share no byte, filling puts the bytes into them in chain order as far as there is room, counts the smaller of bytes and room, and changes no byte outside the buffers. |
| `NetRxRuns.NetDevice.ProcessRx` | src/virtio/net.rs:549-601 | The loop, which ends because the chain does, leaves the specified memory. With buffers of the next chain that share no byte, reading them back in order gives the first `written` bytes of twelve zeros followed by the frame, where `written` is the smaller of both lengths and the room; one used element names the head and `written`; every byte outside the buffers and the used ring is as before; and the frame counts as delivered if and only if there is a chain with room. |
| `NetRxRuns.InjectRxFrame` | src/virtio/mmio.rs:510-556 | The transport's method computes the specified memory and cursor, delivers exactly when a chain is popped, and raises an interrupt exactly when it delivers and the driver wants it. With good buffers that share no byte, the frame arrives in the chain that is popped: twelve zeros and the frame, cut off where there is no room, one used element, and nothing else changed. |
| `NetRxRuns.ReceivedArrives` | src/virtio/net.rs:549-601 | The arrival of the frame as a statement about the whole receive path of the device. |
| `NetRxRuns.FillerPolite` | src/virtio/mmio.rs:533-547 | A device that fills the writable buffers of its chains keeps off the rings wherever the buffers do, so that it may be drained. |
| `NetRxRuns.FrameAgrees` | src/virtio/net.rs:508-601 | Receiving one frame either way leaves the same memory, and the cursors agree again. |
| `NetRxRuns.RunsAgree` | src/virtio/net.rs:508-601 | Over every run with equal initial cursors both paths leave the same guest memory, used ring included, whatever the guest does in between. |
| `GuestMemory.TranslationBijective` | src/memory/mod.rs:80-102 | Translation is a bijection from the backed addresses, which are those below the physical size outside the hole, onto the offsets. |
| `GuestMemory.TranslationOrdered` | src/virtio/queue.rs:142-157 | It keeps order, and distances on each side of the hole. |
| `GuestMemory.NetAgrees` | src/virtio/net.rs:498-505 | The network device's two translations agree with it on every backed address. |
| `GuestMemory.RangeTranslation` | src/memory/mod.rs:112-121 | A range that passes the bounds checks is translated address by address if and only if it lies on one side of the hole. |
| `GuestMemory.FitsIffBacked` | src/memory/mod.rs:112-134 | A range on one side of the hole passes the bounds checks if and only if each of its addresses is backed. |
| `GuestMemory.SpillsOver` | src/memory/mod.rs:112-121 | Two bytes written across the start of the hole pass the bounds checks, and the second lands above the hole. |
| `GuestMemory.WriteExact` | src/memory/mod.rs:112-121 | A write on one side changes exactly the addressed bytes. |
| `GuestMemory.ReadExact` | src/memory/mod.rs:124-134 | A read on one side returns the addressed bytes. |
| `GuestMemory.ReadAfterWrite` | src/memory/mod.rs:112-134 | Reading back what was written gives it, wherever it lies. |
| `GuestMemory.GuestMem.WriteAt` | src/memory/mod.rs:112-121 | The write succeeds exactly when the range fits, and changes nothing otherwise. |
| `GuestMemory.GuestMem.ReadAt` | src/memory/mod.rs:124-134 | The bytes of the range, or a failure exactly when it does not fit. |
| `PageTables.IdentityMapped` | src/memory/mod.rs:232-260 | With the tables built, the processor's walk from 0x9000 maps every address below the mapped gigabytes to itself. |
| `PageTables.SetupPageTables` | src/memory/mod.rs:232-260 | The tables are built, without a later write disturbing an earlier one, exactly when there is room for them; every address below the memory size, up to 64 GB, is then mapped to itself, and nothing outside the tables has changed. |
| `Balloon.BalloonPolicy.ReportActivity` | src/memory/balloon.rs:71-138 | The method computes the specified policy and action. |
| `Balloon.RunMeans` | src/memory/balloon.rs:71-138 | Over every run the fields are what the reports say: balance of inflations and deflations, last deflation, last activity, state. |
| `Balloon.RunRecords` | src/memory/balloon.rs:76-81 | The recorded transitions are the changes of state within five minutes before the last one. |
| `Balloon.BalloonRun` | src/memory/balloon.rs:71-138 | Inflations minus deflations are the balloon, whose size is zero, a quarter, a half or all of what may be reclaimed, zero after an active report, and never eats into the floor. |
| `Balloon.InflationRule` | src/memory/balloon.rs:97-149 | No inflation within 60 seconds of the last deflation (180 with three recorded transitions), within 30 seconds of activity, or with under a quarter of memory available. |
| `Balloon.BalloonSize` | src/memory/balloon.rs:71-138 | The size of the balloon after any report of any run: zero after an active one; as before within 60 seconds of the last deflation (180 with three transitions in five minutes) or with under a quarter of memory available; otherwise at least all, a half or a quarter of what may be reclaimed, for idle times above 300, 120 or 30 seconds, and as before for shorter ones. |
| `Balloon.FirstInflation` | src/memory/balloon.rs:97-138 | With 1000 pages to reclaim, a first idle report after 61 seconds inflates 250. |
| `Seccomp.BuildFilter` | src/control/jailer.rs:207-237 | The loop emits the specified program. |
| `Seccomp.FilterMeans` | src/control/jailer.rs:207-237 | For every list of any length and every syscall the program stays in bounds, ends, and allows exactly the last 255 entries. |
| `Seccomp.FilterExact` | src/control/jailer.rs:207-237 | The filter is the list if and only if every entry is among the last 255, in particular for up to 255 entries. |
| `Seccomp.FirstEntryKilled` | src/control/jailer.rs:207-237 | With the first 256 syscalls allowed, syscall 0 is killed. |

## Left out

- Qcow2Flush.Flush: does not make, and reports as not done, a move of the refcount table for which the table would need 2^32 clusters or more, or would run past the refcount blocks behind its clusters into the end of the file; the latter is excluded for a table that reaches the range of the cursor (`Qcow2Relocate.ReachingMoves`).
- Qcow2Life.CreateImage: does not follow an image whose plan is not well-formed beyond the file that is written.
- PageTables.SetupPageTables: does not model a hole in memory that begins below 0x50000; the boot code places it at 3 GB.
- NetRxRuns.NetDevice.ProcessRx: does not model a chain that is cyclic, on which the loop of the source never ends, nor a buffer outside guest memory, where the source writes through a raw pointer without a check.
- I/O errors other than the refusal to grow a file past a limit, which is a parameter of at most 2^56 bytes, the reach of the L1 mask.
- QCOW2 images that this code did not write (compressed clusters, internal snapshots, zero-flag entries), `refcount_increment` and `refcount_decrement`, the detection of a backing file's format and the resolution of its path; an empty backing path counts as none.
- 64-bit overflow in address and size arithmetic: addresses and sizes are unbounded integers, except where a field's width is stated.
- Migration: connection set-up, the JSON messages, statistics of time, and what happens after the acknowledgement; pausing is one step that stops guest writes; every guest write is assumed to be logged; a partial page at the end of memory is not transferred by the code and not modelled.
- The MMIO register machine, device status, feature negotiation, and saving and restoring transport state; ring properties are stated for the queue's own size, which the driver's choice never reaches.
- A null guest memory pointer, and memory that the guest changes while a queue is being drained.
- vhost-net, the TAP device and the transmit path of the network device.
- JSON and SHA-256 in snapshots: metadata are values that parse or are absent; the fields that compaction copies from the root (runtime type, block device, clock, overlay, address) and the memory hash are not part of the model.
- `gc_snapshots`: it keeps by tag and deletes by directory name, so that the wanted claim does not follow.
- The dirty log is taken at the moment of the fetch; that an incremental snapshot clears it just before pausing (src/control/sync_server.rs:383-395) makes its diff relative to that moment, which the model leaves to the caller.
- Boot layout: page directories for 16 gigabytes and more overlap the command line at 0x20000; only the page tables themselves are modelled.
- Balloon targets are rounded down from exact fractions; rounding of 64-bit floating point numbers above 2^53 pages is not modelled.
- The kernel's limits on the length of a BPF program, and system calls made through another architecture's table.
- src/virtio/fs.rs, src/virtio/balloon.rs, src/pci/, src/net/, the control plane and the command line: mostly system calls, or easier members.
