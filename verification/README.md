# Verified models of the kernel's storage, memory and parsing core

This project models eight components of a Rust kernel and the crates it vendors, and proves what each of them
is for. Run `dafny verify dfyconfig.toml` in this directory to check all of it.

| component | source | files |
|---|---|---|
| delayed sparse writes over ext4 | `crates/lwext4_rust/src/file.rs` | `SparseRuns`, `SparseBuffers`, `SparseStore`, `SparseVolume`, `SparseRace` |
| whole-file write-back cache | `crates/lwext4_rust/src/file.rs` | `DenseCache`, `DenseProtocol`, `DenseDiscard`, `DenseProgress` |
| buddy heap on intrusive free lists | `crates/buddy_system_allocator` | `BuddyBits`, `BuddyTiling`, `BuddyLists`, `BuddyCanonical`, `BuddyUnique`, `BuddyGreedy`, `BuddyAccounting`, `BuddyFreeLists`, `BuddyHeap` |
| cross-hart TLB shootdown | `os/src/mm/remote_tlb.rs`, `os/src/mm/memory_set/handle.rs` | `RemoteTlb`, `RemoteTlbRuns`, `RemoteTlbHistory`, `RemoteTlbWait`, `RemoteTlbProgress` |
| file page cache | `os/src/fs/page_cache.rs` | `PageCache`, `PageCacheBound`, `PageCacheDrain`, `PageCacheOps`, `PageCacheReads`, `PageCacheLoads`, `PageCacheProtocol` |
| block-device adapter | `os/src/drivers/disk.rs` | `DiskQueue`, `DiskProtocol`, `DiskProgress`, `DiskIo` |
| mount table | `os/src/fs/mount.rs` | `MountPaths`, `MountPropagation`, `MountOps`, `MountTheorems`, `MountLands`, `MountEffects`, `MountTable` |
| IPv6 text parser | `crates/smoltcp/src/parsers.rs` | `Ipv6Text`, `Ipv6Reads`, `Ipv6Forms`, `Ipv6Inverse`, `Ipv6Unique`, `Ipv6Language`, `Ipv6Standard`, `Ipv6Print`, `Ipv6Parser` |

`Basics` holds what all of them share, `ByteFile` what files are to the storage components (a byte sequence, pwrite and
pread), `MapSums` sums over maps.

Most components come in two layers. Functions on values say what an operation does, and lemmas say what that means:
an invariant, a round trip, a plain file that received the same writes. Classes and loops, in the shape of the code,
are proved to compute those functions. Protocols whose point is concurrency are state machines over their atomic
steps, and their theorems speak about every run from the initial state: what no run does wrong, and what every state can
still get done.

What the outside world does is a parameter: the result of each device write and how much of it was stored, failed
opens and closes, allocation failures, the frames left, the order in which concurrent steps happen. Machine words are
natural numbers with the code's own overflow checks written out; 64-bit counters (revisions, sequence numbers,
tickets, groups) are taken not to wrap.

## Where the code does not do what one would expect

* A hart that leaves its address space for a kernel operation is marked active again on its way back, and `with_vma_mut`
  (plain mmap), a present-page fault, a fault that has dropped its locks and a failed mprotect do so without a flush. If
  another hart changed the page table and finished its shootdown in between, the hart is active with an old translation.
  On riscv64 installing the page table flushes, so this lasts until the hart returns to user mode (`ReturnRepairs`). On
  LoongArch installing the same root flushes nothing, and `activate_for_user` skips its own flush because the hart is
  marked active (`OldTranslationAfterMmap`). `RejoinSafeIff` and `RejoinSafeByHistory` say exactly when each way back is
  safe. A later shootdown repairs the hart; `LateRejoinIff` says exactly when a way back spoils one.
* The whole-file cache claims an entry before FIFO eviction removes it, but a write past the size limit or into a hole, a
  truncation and a rename remove the entry without a claim. A write that is acknowledged after the write-back, or through
  an entry looked up before, is lost (`DiscardCanLoseWrite`, `FirstWriteCanBeLost`); `DropLosesNothingIff` gives the exact
  condition.
* A sparse flush that fails puts its runs back with a plain insertion. A write buffered meanwhile, which needs no
  mount-wide lock, is replaced (`FailedFlushCanLoseWrite`); `PutBackKeepsIff` gives the exact condition. Nor are the
  budgets looked at, so the pending bytes can exceed 8 MiB by up to 512 KiB (`PutBackCanExceed`, `BudgetOvershoot`).
* Memory added to a buddy heap range by range is not joined across ranges until a block is released there
  (`AdjacentRangesLeavePair`); `AddLeavesNoPairIff` gives the exact condition.
* An empty write beyond the end of a file in the whole-file cache moves the end of file although pwrite(2) does not
  (`EmptyWriteGrowsFile`); `WrittenIsPWriteIff` shows this is the only such case.
* Page-cache eviction looks at a page's dirty flag before its reference counts. A holder that marks the page dirty and
  drops its reference between the two looks loses the mark with the page (`DirtyPageCanBeDropped`); `DropsDirtyIff`
  shows this is the only way a dirty page is evicted. Nothing in the repository marks cached pages dirty yet.
* Invalidating a byte range leaves the very last page of the 64-bit offset range in the cache (`RangeIsCoveredIff`).
* The IPv6 parser refuses "::" for a single zero group at either end of an address and accepts it inside, where it
  also accepts it for no group at all (`CompressedForm`, `CompressedRoundTrip`). It accepts ":::" between groups
  (`ThreeColonsForm`) and groups behind the dotted quad of "::ffff:a.b.c.d" (`GroupsAfterQuad`). `AcceptedIff` gives its
  language and `AcceptedIsStandardIff` says which accepted texts RFC 4291 allows. It refuses some texts that RFC 4291
  allows, such as "::13.1.68.3" (`CompatibleIsRefused`); `StandardIsAcceptedIff` says which.

## Model

| member | source | states |
|---|---|---|
| `SparseRuns.RunsAreCanonical` | crates/lwext4_rust/src/file.rs:2750-2863 | Sorted, disjoint, non-adjacent runs are determined by the bytes they denote, so fixing the byte map after an insertion fixes the run list |
| `SparseRuns.InsertIsPWrite` | crates/lwext4_rust/src/file.rs:2822-2863 | A run list overridden by one write shows readers the old view after the same pwrite, end of file included |
| `SparseRuns.EndAfterInsert` | crates/lwext4_rust/src/file.rs:1046-1056 | The end of file readers see after an insertion is the larger of the old end and the end of the write |
| `SparseRuns.OverlayIsFlush` | crates/lwext4_rust/src/file.rs:1239-1306 | The overlay of pending runs over the disk file equals the file that flushing every run would leave |
| `SparseRuns.PartialWriteInvisible` | crates/lwext4_rust/src/file.rs:1239-1290 | Storing any prefix of a pending run on disk changes nothing a reader sees while the run is pending |
| `SparseRuns.FullWriteRetires` | crates/lwext4_rust/src/file.rs:1239-1290 | Dropping the first run after all of it was stored keeps the view and the run invariants |
| `SparseRuns.TotalBytesBound` | crates/lwext4_rust/src/file.rs:2750-2821 | Disjoint runs never hold more bytes than the offsets below their end, so the byte counter stays in machine range |
| `SparseBuffers.PlanConnected` | crates/lwext4_rust/src/file.rs:2766-2820 | The plan names the connected runs, their merged span, the insertion index and the new byte count exactly |
| `SparseBuffers.PlanInsert` | crates/lwext4_rust/src/file.rs:2751-2820 | Overflow and allocation failure are reported exactly when they occur; otherwise the plan is the exact one and nothing has changed |
| `SparseBuffers.CopySelected` | crates/lwext4_rust/src/file.rs:2834-2845 | The merged span holds every selected run at its own place |
| `SparseBuffers.RemoveSelected` | crates/lwext4_rust/src/file.rs:2855-2860 | Removing the selected indices from the highest down leaves exactly the other runs in order |
| `SparseBuffers.InsertCorrect` | crates/lwext4_rust/src/file.rs:2822-2863 | Replacing the connected runs by the merged one keeps runs separated, overrides the byte map by exactly the write, and makes the byte count the planned one |
| `SparseBuffers.Coalesce` | crates/lwext4_rust/src/file.rs:2822-2863 | The in-place coalescing loop yields such a run list: no hole byte is invented and no other byte changes |
| `SparseBuffers.ApplyInsert` | crates/lwext4_rust/src/file.rs:2822-2863 | On success the buffers are overridden by the write with the exact count; on allocation failure they are unchanged |
| `SparseStore.SparseWriteBufferStore.constructor` | crates/lwext4_rust/src/file.rs:2876-2879 | The empty table is valid |
| `SparseStore.SparseWriteBufferStore.Insert` | crates/lwext4_rust/src/file.rs:2898-2904 | The table keeps `total_bytes` equal to the true sum over all inodes within the 8 MiB budget when an entry is added or replaced |
| `SparseStore.SparseWriteBufferStore.Remove` | crates/lwext4_rust/src/file.rs:2906-2910 | Removing an entry returns it and subtracts exactly its bytes |
| `SparseStore.SparseWriteBufferStore.TryInsert` | crates/lwext4_rust/src/file.rs:2916-3004 | Which of buffered, flush (with its cause), direct and EFBIG a write gets, exactly; with memory at hand it is buffered whenever a run list with its bytes keeps both budgets; a buffered write overrides the inode's byte map, any other answer changes nothing; both budgets are kept |
| `SparseVolume.FlushRuns` | crates/lwext4_rust/src/file.rs:1249-1300 | The write loop succeeds exactly when every device write stores all its bytes; what is left is a suffix of the runs and the view never changes |
| `SparseVolume.FlushOne` | crates/lwext4_rust/src/file.rs:1249-1285 | One run is retired exactly when it was stored completely, else put back, with the view unchanged either way |
| `SparseVolume.OverlayRead` | crates/lwext4_rust/src/file.rs:1066-1145 | The overlay read returns exactly the count and bytes of a read of the overlaid file, for every offset, length, end of file and run set |
| `SparseVolume.CopyPending` | crates/lwext4_rust/src/file.rs:1115-1140 | Every pending byte inside the request, and no other, replaces what the disk gave |
| `SparseVolume.SparseVolume.Flush` | crates/lwext4_rust/src/file.rs:1159-1306 | A flush fails exactly when the open, the close or one of its writes fails; no view changes whatever fails, the runs not stored stay pending, and success leaves the flushed file on disk |
| `SparseVolume.SparseVolume.FlushWithCause` | crates/lwext4_rust/src/file.rs:1177-1306 | The same for one inode, with every other inode's file and runs untouched |
| `SparseVolume.SparseVolume.CommitRuns` | crates/lwext4_rust/src/file.rs:1210-1306 | Runs taken out of the table are stored or put back, so the view of the inode is what it was |
| `SparseVolume.SparseVolume.TryBuffer` | crates/lwext4_rust/src/file.rs:2916-3004 | A buffered write shows readers the pwrite itself; a first write with room in both budgets is always buffered |
| `SparseVolume.SparseVolume.BufferWrite` | crates/lwext4_rust/src/file.rs:1316-1355 | Too large writes and full budgets flush first; a write that keeps both budgets is buffered without touching the disk; `Ok(false)` leaves nothing pending that could later overwrite the direct write; a failed flush leaves the view alone |
| `SparseVolume.SparseVolume.FlushAndRetry` | crates/lwext4_rust/src/file.rs:1330-1355 | After a successful flush the write is buffered or sent to the direct path with nothing pending |
| `SparseVolume.SparseVolume.WriteAt` | crates/lwext4_rust/src/file.rs:1508-1603 | The view becomes the old view after a pwrite of the bytes stored; a reported count is that number; a fault-free write is stored in full, in memory only when both budgets allow it |
| `SparseVolume.SparseVolume.ReadAt` | crates/lwext4_rust/src/file.rs:1013-1038 | A read returns exactly the bytes and count of a read of the view, and fails exactly when the device read fails or the range overflows |
| `SparseVolume.SparseVolume.Step` | crates/lwext4_rust/src/file.rs:1013-1603 | One operation of a run: only the written file changes, by a pwrite of the bytes stored, and a read that succeeds returns the bytes of the file as it was |
| `SparseVolume.SparseVolume.Replay` | crates/lwext4_rust/src/file.rs:1013-1355 | After any run of writes, reads and flushes under any faults, every file reads as a plain file that received the stored part of each write in order, and every read inside the run that succeeded returned the bytes of that plain file at its point of the run |
| `SparseVolume.SparseVolume.StoreTaken` | crates/lwext4_rust/src/file.rs:1239-1306 | With the device open, the taken runs are stored, or the ones not stored are put back |
| `SparseRace.StepFile` | crates/lwext4_rust/src/file.rs:1177-1306 | While a flush is under way, buffering a write is a pwrite of the file and every step of the flush leaves the file alone, if putting runs back replaces nothing new |
| `SparseRace.PutBackKeepsIff` | crates/lwext4_rust/src/file.rs:2898-2904 | Putting runs back after a failed flush keeps the file if and only if every byte buffered meanwhile was shown already |
| `SparseRace.FileFollowsWrites` | crates/lwext4_rust/src/file.rs:1177-1306 | Over every interleaving of unlocked writers with flushes that fail anywhere, the file is the one that received the acknowledged writes, unless runs put back replaced newer ones |
| `SparseRace.FailedFlushCanLoseWrite` | crates/lwext4_rust/src/file.rs:1357-1385 | The failing family: whenever writes are pending and another byte fits the budget, a flush that fails at once loses a write buffered meanwhile |
| `SparseRace.NoEntryRepeats` | crates/lwext4_rust/src/file.rs:1227-1276 | Putting runs back is safe if no write was buffered meanwhile, which a flush could test |
| `SparseRace.ReadSeesWrites` | crates/lwext4_rust/src/file.rs:1013-1038 | While no flush is under way a read returns the bytes the acknowledged writes left |
| `SparseRace.PutBackWithinIff` | crates/lwext4_rust/src/file.rs:2898-2904 | Putting runs back stays within the budgets if and only if they still fit beside the other inodes |
| `SparseRace.BudgetOvershoot` | crates/lwext4_rust/src/file.rs:2898-2904 | In every run the pending bytes stay below the global budget and one inode's budget together |
| `SparseRace.PutBackCanExceed` | crates/lwext4_rust/src/file.rs:2898-2904 | The failing family: other inodes fill the table during a flush, and putting runs back exceeds the global budget by their size |
| `SparseBuffers.SortRuns` | crates/lwext4_rust/src/file.rs:2763-2765 | Sorting before planning changes nothing, because insertion keeps the runs sorted |
| `SparseBuffers.FirstAfter` | crates/lwext4_rust/src/file.rs:2805-2808 | The position search finds the first run that starts after the offset |
| `SparseBuffers.InsertIndex` | crates/lwext4_rust/src/file.rs:2804-2811 | The insertion index is where the connected runs are, or would be |
| `SparseVolume.CopyRun` | crates/lwext4_rust/src/file.rs:1120-1134 | The part of one run inside the request, and nothing else, is copied |
| `SparseStore.PlanCounts` | crates/lwext4_rust/src/file.rs:2766-2820 | The planned byte count is that of any run list with the bytes of the write over the pending ones |
| `DenseCache.WriteLocked` | crates/lwext4_rust/src/file.rs:3335-3362 | An accepted write found the entry not evicting, stored the whole buffer and left the entry dirty; a refused one changed nothing |
| `DenseCache.WriteBufIsPWrite` | crates/lwext4_rust/src/file.rs:2435-2471 | A write at or before the end is a pwrite of the cached file |
| `DenseCache.WrittenIsPWriteIff` | crates/lwext4_rust/src/file.rs:3335-3362 | An acknowledged write is a pwrite of the cached file if and only if it is not an empty write beyond the end |
| `DenseCache.EmptyWriteGrowsFile` | crates/lwext4_rust/src/file.rs:2435-2471 | The failing case: an empty write at offset 5 of a 2-byte file makes it 5 bytes long |
| `DenseCache.ReadLockedIsPRead` | crates/lwext4_rust/src/file.rs:3260-3273 | A cached read is a read of the cached file |
| `DenseCache.VFileCache.constructor` | crates/lwext4_rust/src/file.rs:2418-2429 | A fresh entry |
| `DenseCache.VFileCache.WriteBuffer` | crates/lwext4_rust/src/file.rs:2435-2471 | The in-place write, byte by byte for small buffers, computes `WriteBuf` |
| `DenseCache.VFileCache.SnapshotForWriteback` | crates/lwext4_rust/src/file.rs:2610-2628 | The snapshot is the dirty bytes with their revision, nothing for a clean entry, or an error when memory runs out |
| `DenseCache.VFileCache.MarkCleanIfUnchanged` | crates/lwext4_rust/src/file.rs:2630-2638 | The dirty flag is cleared only under the snapshot's revision |
| `DenseCache.VFileCache.ClaimCleanForEviction` | crates/lwext4_rust/src/file.rs:2640-2647 | A clean, unclaimed entry is claimed; any other is left alone |
| `DenseCache.VFileCache.CancelEviction` | crates/lwext4_rust/src/file.rs:2649-2651 | The claim is withdrawn |
| `DenseCache.VFileCache.WriteCachedAt` | crates/lwext4_rust/src/file.rs:3335-3362 | The locked body of `write_cached_at` computes `WriteLocked` |
| `DenseCache.VFileCache.ReadCachedAt` | crates/lwext4_rust/src/file.rs:3260-3273 | The locked body of `read_cached_at` computes `ReadLocked` |
| `DenseProtocol.CleanEntriesAreOnDisk` | crates/lwext4_rust/src/file.rs:2610-2651 | In every reachable state a clean table entry has its exact bytes on disk, and the FIFO is bounded |
| `DenseProtocol.StepKeepsBase` | crates/lwext4_rust/src/file.rs:3335-3627 | Every locked region of readers, writers, write-back, FIFO eviction and unclaimed discarding keeps what entries, table, queue and agent say about each other |
| `DenseProtocol.RunKeepsBase` | crates/lwext4_rust/src/file.rs:3335-3627 | So does every interleaving |
| `DenseProtocol.StepKeeps` | crates/lwext4_rust/src/file.rs:3335-3627 | A thread that holds an entry of a path holds the table's own entry or one that turns it away; every step keeps this except the removal of an entry of that path that a thread holds |
| `DenseProtocol.RunKeeps` | crates/lwext4_rust/src/file.rs:3335-3627 | So does every interleaving that drops no held entry of that path |
| `DenseProtocol.EvictedEntryTurnsAway` | crates/lwext4_rust/src/file.rs:3335-3362 | In such a run a thread whose entry of the path has left the table can neither write nor read through it |
| `DenseProtocol.DropView` | crates/lwext4_rust/src/file.rs:3392-3395 | Removing an entry leaves the file readers see if and only if the entry's bytes are on disk |
| `DenseProtocol.StepView` | crates/lwext4_rust/src/file.rs:3437-3627 | Loading, write-back, eviction, careful discarding, and whatever happens to other paths change no file; an acknowledged write is a pwrite |
| `DenseProtocol.ViewFollowsWrites` | crates/lwext4_rust/src/file.rs:3335-3627 | From any state of the invariant, a run whose discards of this path are careful leaves its file as a plain file that received its acknowledged writes, whatever happens to other files |
| `DenseProtocol.NoAcknowledgedWriteIsLost` | crates/lwext4_rust/src/file.rs:3335-3627 | Over every interleaving with FIFO eviction, any discards of other files, and discards of this one while its entry is stored and unheld, the file reads as a plain file that received its acknowledged writes in order |
| `DenseProtocol.CachedReadSeesFile` | crates/lwext4_rust/src/file.rs:3260-3273 | In every run that drops no held entry of the path, a cached read that answers returns the bytes of the file at that moment |
| `DenseDiscard.CleanIsStored` | crates/lwext4_rust/src/file.rs:1543-1555 | A clean entry that is being discarded has its bytes on disk |
| `DenseDiscard.DropLosesNothingIff` | crates/lwext4_rust/src/file.rs:1543-1555 | The removal without a claim loses nothing of its own file in any continuation if and only if the entry's bytes are on disk and no thread holds it, and never anything of another file |
| `DenseDiscard.DiscardCanLoseWrite` | crates/lwext4_rust/src/file.rs:1783-1840 | The failing family: whenever a thread holds the clean entry of a file, a discard of that file can lose the thread's next acknowledged write |
| `DenseDiscard.FirstWriteCanBeLost` | crates/lwext4_rust/src/file.rs:1543-1555 | From any initial state a run with one thread and one discard loses the first write |
| `DenseProgress.FlushStores` | crates/lwext4_rust/src/file.rs:3520-3627 | An undisturbed write-back leaves the file on disk as every reader sees it, the entry clean, and everything else as it was |
| `DenseProgress.AgentCanFinish` | crates/lwext4_rust/src/file.rs:3437-3627 | From every state of the invariant the serialized work can be finished, whatever was written behind its back; a file being loaded is then in the table, and in the FIFO unless it is pinned |
| `DenseProgress.LoadCanFinish` | crates/lwext4_rust/src/file.rs:860-915 | Every load can be finished from every state, evicting as many files as it takes; a pinned one leaves the FIFO alone |
| `DenseProgress.QueueAfter` | crates/lwext4_rust/src/file.rs:3437-3518 | What each step does to the FIFO: touched to the back, admitted at the back, the front dropped only when it is not cached, a failed victim requeued |
| `DenseProgress.TouchMovesToBack` | crates/lwext4_rust/src/file.rs:3429-3435 | An acknowledged write makes its file the last to be evicted and leaves the order of all others |
| `DenseProgress.QueuedOnce` | crates/lwext4_rust/src/file.rs:3437-3518 | In every run no path is in the FIFO twice |
| `DenseProgress.ListedStays` | crates/lwext4_rust/src/file.rs:3508-3518 | In every run a cached file in the FIFO stays there while it is cached, unless it is being discarded |
| `DenseProgress.ReadLeavesNoTrace` | crates/lwext4_rust/src/file.rs:3260-3273 | A cached read leaves the whole state as it was |
| `BuddyBits.PrevPowerOfTwoBounds` | crates/buddy_system_allocator/src/lib.rs:408-410 | `prev_power_of_two` is the largest power of two not above its argument |
| `BuddyBits.NextPowerOfTwoBounds` | crates/buddy_system_allocator/src/lib.rs:108-111 | The rounded size is at least the requested one and less than twice it |
| `BuddyBits.LowBitIsPow2` | crates/buddy_system_allocator/src/lib.rs:91-92 | `x & (!x + 1)` is two to the number of trailing zeros |
| `BuddyBits.BuddyOf` | crates/buddy_system_allocator/src/lib.rs:163 | XOR with the block size is the adjacent block: above a block aligned one order up, below any other |
| `BuddyBits.BuddyInvolution` | crates/buddy_system_allocator/src/lib.rs:163 | The buddy is aligned, different, and its buddy is the block again |
| `BuddyLists.AllocSound` | crates/buddy_system_allocator/src/lib.rs:107-145 | An allocation hands out bytes that were free, aligned to its class, and keeps free and live blocks an exact disjoint tiling of the added ranges |
| `BuddyLists.AllocFails` | crates/buddy_system_allocator/src/lib.rs:107-145 | An allocation fails exactly when every list from its class up is empty |
| `BuddyLists.DeallocSound` | crates/buddy_system_allocator/src/lib.rs:148-187 | Releasing a live block keeps the tiling, through however many merges follow |
| `BuddyLists.FreeBytesAreTheRest` | crates/buddy_system_allocator/src/lib.rs:80-251 | The free bytes are exactly the bytes of the added ranges that no live block covers |
| `BuddyLists.BoundedFreesSameBytes` | crates/buddy_system_allocator/src/lib.rs:203-251 | For every budget a bounded release frees exactly the bytes an unbounded one frees, and keeps the tiling |
| `BuddyCanonical.AllocThenDeallocRestores` | crates/buddy_system_allocator/src/lib.rs:107-187 | From a heap with no free buddy pair, alloc followed by dealloc of the result restores every free list as a sequence |
| `BuddyCanonical.AllocLeavesNoPair` | crates/buddy_system_allocator/src/lib.rs:107-145 | Allocation creates no free buddy pair below the top class |
| `BuddyCanonical.DeallocLeavesNoPair` | crates/buddy_system_allocator/src/lib.rs:148-187 | Release leaves no free buddy pair below the top class |
| `BuddyCanonical.InspectsAtMostBudget` | crates/buddy_system_allocator/src/lib.rs:222-247 | The bounded merge looks at no more list nodes than its budget |
| `BuddyCanonical.LargeBudgetIsUnbounded` | crates/buddy_system_allocator/src/lib.rs:203-251 | With a budget of at least the free nodes plus MAX_ORDER the bounded release leaves identical lists |
| `BuddyAccounting.AllocBytes` | crates/buddy_system_allocator/src/lib.rs:107-145 | An allocation takes exactly its block size from the free bytes |
| `BuddyAccounting.DeallocBytes` | crates/buddy_system_allocator/src/lib.rs:148-251 | A release, bounded or not, gives exactly its block size back |
| `BuddyFreeLists.FreeLists.constructor` | crates/buddy_system_allocator/src/linked_list.rs:19-25 | Empty lists whose heads are null |
| `BuddyFreeLists.FreeLists.Push` | crates/buddy_system_allocator/src/linked_list.rs:33-36 | The block becomes the head; the only word written is the first word of that block |
| `BuddyFreeLists.FreeLists.Pop` | crates/buddy_system_allocator/src/linked_list.rs:39-49 | The head block is returned and unlinked; no word is written |
| `BuddyFreeLists.FreeLists.FindAndUnlink` | crates/buddy_system_allocator/src/lib.rs:165-172 | The walk finds the buddy exactly when it is listed within the budget, counts the nodes it looked at, and writes only its predecessor's word |
| `BuddyFreeLists.FreeLists.Unlink` | crates/buddy_system_allocator/src/linked_list.rs:104-141 | The cursor's `pop` removes exactly the current node from the list |
| `BuddyHeap.ClassFits` | crates/buddy_system_allocator/src/lib.rs:108-112 | The class is the order of a block that is large enough and aligned enough for the layout |
| `BuddyGreedy.GreedyBlock` | crates/buddy_system_allocator/src/lib.rs:90-97 | The greedily chosen block is aligned, has a list, and fits in front of the end |
| `BuddyGreedy.GreedyIsMaximal` | crates/buddy_system_allocator/src/lib.rs:89-96 | A block of the cut that is aligned for twice its size could not be twice as large |
| `BuddyGreedy.AddLeavesNoPairIff` | crates/buddy_system_allocator/src/lib.rs:80-99 | Adding a range to a coalesced heap leaves it coalesced if and only if none of its blocks meets a free buddy of its own size |
| `BuddyGreedy.FirstRangeLeavesNoPair` | crates/buddy_system_allocator/src/lib.rs:101-104 | A heap that was given one range is coalesced |
| `BuddyGreedy.ApartRangeLeavesNoPair` | crates/buddy_system_allocator/src/lib.rs:80-99 | So is one that was given a further range which touches nothing it had |
| `BuddyGreedy.AdjacentRangesLeavePair` | crates/buddy_system_allocator/src/lib.rs:80-99 | The failing family: two words that belong together, added one after the other, stay a free pair |
| `BuddyUnique.FreeBlocksAreDetermined` | crates/buddy_system_allocator/src/lib.rs:146-183 | Two coalesced heaps with the same memory and the same live blocks have the same free blocks, however they came about |
| `BuddyGreedy.ReleasedHeapIsGreedy` | crates/buddy_system_allocator/src/lib.rs:146-183 | Once everything is released, a coalesced heap of one range is again the range as it was first cut |
| `BuddyHeap.AllocConsistent` | crates/buddy_system_allocator/src/lib.rs:107-145 | Allocation keeps `user`, `allocated` and `total` exact and the tiling intact |
| `BuddyHeap.ReleaseConsistent` | crates/buddy_system_allocator/src/lib.rs:148-251 | Release keeps the three counters exact and the tiling intact |
| `BuddyHeap.Heap.constructor` | crates/buddy_system_allocator/src/lib.rs:65-72 | The empty heap is valid |
| `BuddyHeap.Heap.AddToHeap` | crates/buddy_system_allocator/src/lib.rs:80-99 | The word-rounded range, cut greedily, and no other byte, joins the heap; no live word is touched; `total` grows by its length |
| `BuddyHeap.AddRange` | crates/buddy_system_allocator/src/lib.rs:85-99 | The cutting loop computes the greedy cut, tiles the range with proper blocks and counts its bytes |
| `BuddyHeap.Heap.UserWrite` | crates/buddy_system_allocator/src/lib.rs:129-138 | A store into a block that was handed out keeps the heap valid and its lists as they are |
| `BuddyHeap.Heap.Alloc` | crates/buddy_system_allocator/src/lib.rs:107-145 | In memory: the block and lists are those of the list-level allocation, live words are untouched; it fails if and only if no block large enough and aligned enough is free, and then changes nothing |
| `BuddyHeap.FindOrder` | crates/buddy_system_allocator/src/lib.rs:113-116 | The loop finds the smallest class at or above the request with a free block |
| `BuddyHeap.TakeBlock` | crates/buddy_system_allocator/src/lib.rs:113-135 | Find, split and unlink compute the list-level allocation |
| `BuddyHeap.Split` | crates/buddy_system_allocator/src/lib.rs:118-128 | The splitting loop computes the list-level split and writes inside free blocks only |
| `BuddyHeap.Heap.Dealloc` | crates/buddy_system_allocator/src/lib.rs:148-187 | In memory: the lists are those of the list-level release, live words are untouched, counters drop by the layout |
| `BuddyHeap.Heap.DeallocWithBoundedMerge` | crates/buddy_system_allocator/src/lib.rs:203-251 | The same with at most the budget of nodes inspected |
| `BuddyHeap.Heap.Release` | crates/buddy_system_allocator/src/lib.rs:148-251 | The shared body of both releases |
| `BuddyHeap.MergeOnce` | crates/buddy_system_allocator/src/lib.rs:161-184 | One merge round joins exactly when the buddy is found within the budget |
| `BuddyHeap.MergeRounds` | crates/buddy_system_allocator/src/lib.rs:161-184 | The loop of rounds computes the list-level merge |
| `BuddyHeap.AddBlock` | crates/buddy_system_allocator/src/lib.rs:90-97 | One pushed block extends the tiling by exactly its bytes |
| `BuddyHeap.SplitOnce` | crates/buddy_system_allocator/src/lib.rs:118-124 | One split replaces a block by its two halves and keeps the tiling |
| `BuddyHeap.PushAndMerge` | crates/buddy_system_allocator/src/lib.rs:156-184 | Push and merge of a released block compute the list-level release |
| `BuddyHeap.ClassIsLeast` | crates/buddy_system_allocator/src/lib.rs:108-112 | The class is the smallest whose blocks are large enough, word-sized at least, and aligned enough for the layout |
| `BuddyHeap.AllocFailsIff` | crates/buddy_system_allocator/src/lib.rs:107-145 | Allocation fails if and only if every list whose blocks would fit the layout is empty |
| `RemoteTlb.StepKeepsBase` | os/src/mm/remote_tlb.rs:75-182 | Every atomic step of polls, refills, activations, detachments, shootdowns and unflushed ways back keeps polls, locks and mailboxes consistent |
| `RemoteTlb.RunKeepsBase` | os/src/mm/remote_tlb.rs:75-182 | So does every interleaving |
| `RemoteTlb.StepKeepsCovered` | os/src/mm/remote_tlb.rs:94-182 | Once a shootdown has loaded its mask, an active hart is up to date or will be waited for; every step keeps this for a hart, except its own way back behind the mask with an old translation |
| `RemoteTlb.StepKeepsCurrent` | os/src/mm/remote_tlb.rs:75-182 | Every step keeps an active hart free of old translations of a space, except that hart's own unflushed way back to that space when its condition does not allow it |
| `RemoteTlbRuns.RunKeepsCurrent` | os/src/mm/remote_tlb.rs:75-182 | So does every interleaving, whatever other harts do and whatever happens to other spaces |
| `RemoteTlbRuns.ActiveHartsSeeCurrentTables` | os/src/mm/remote_tlb.rs:94-182 | In every run in which a hart comes back to a space only when allowed, it caches only current translations of the space while active, unless a changed page table has a shootdown that has not returned; other harts and other spaces are unrestricted |
| `RemoteTlbRuns.ShootdownIsComplete` | os/src/mm/remote_tlb.rs:103-182 | When `shootdown` returns, an active hart holds no translation older than the update, whatever any hart did before the mask was loaded, in every run in which this hart does not come back behind the mask with an old translation |
| `RemoteTlbRuns.LateRejoinIff` | os/src/mm/remote_tlb.rs:103-182 | Coming back behind a loaded mask leaves some shootdown incomplete if and only if the hart holds an old translation that the update will not flush |
| `RemoteTlbRuns.NoRequestIsLost` | os/src/mm/remote_tlb.rs:131-177 | In every run, from posting until acknowledgement a request is pending or its target is inside `poll` and will store its number |
| `RemoteTlbRuns.RunKeepsServing` | os/src/mm/remote_tlb.rs:75-92 | A target inside `poll` that will acknowledge a request stays so until it does or a later request replaces it |
| `RemoteTlbRuns.NextPollAcknowledges` | os/src/mm/remote_tlb.rs:75-92 | The first poll begun after posting acknowledges the request, however the steps interleave |
| `RemoteTlbRuns.RejoinAfterShootdown` | os/src/mm/memory_set/handle.rs:119-141 | A hart may always be marked active again after its own shootdown, before it drops its locks |
| `RemoteTlbRuns.RejoinAfterFlush` | os/src/mm/memory_set/handle.rs:153-168 | So may the hart that changed the page table alone, right after its local flush |
| `RemoteTlbRuns.RejoinUnderLock` | os/src/mm/memory_set/handle.rs:849-857 | Under the write lock and without a flush, an active hart sees the current page table if and only if its own translations are current |
| `RemoteTlbRuns.ReturnRepairs` | os/src/mm/memory_set/handle.rs:794-806 | Where installing a page table flushes by itself, as on riscv64, the next return to user mode leaves no old translation |
| `RemoteTlbRuns.RejoinSafeIff` | os/src/mm/memory_set/handle.rs:446-471 | Being marked active without a flush is safe in every continuation, whatever others do, if and only if nobody relies on an empty mask of the space and the hart's translations are current or an update is about to flush it |
| `RemoteTlbHistory.HistoryIsExact` | os/src/mm/memory_set/handle.rs:820-841 | In every run a hart holds an old translation if and only if it cached one, the page table changed since, and it has not flushed since |
| `RemoteTlbHistory.RejoinBreaksIff` | os/src/mm/memory_set/handle.rs:849-857 | In every run the way back of mmap and of a present-page fault leaves an old translation if and only if that happened between the hart's last flush and its way back |
| `RemoteTlbHistory.RejoinSafeByHistory` | os/src/mm/memory_set/handle.rs:438-548 | The same for every way back, a fault that has dropped its locks and a failed mprotect included |
| `RemoteTlbHistory.OldTranslationAfterMmap` | os/src/mm/memory_set/handle.rs:849-857 | The failing run: after another hart's shootdown a hart leaves mmap marked active with its old translation, and where installing the same root flushes nothing, as on LoongArch, it returns to user mode with it |
| `RemoteTlbWait.AnswersEndTheWait` | os/src/mm/remote_tlb.rs:164-182 | Once every target not yet waited for has acknowledged its number, the sender returns by looking at each of them once |
| `RemoteTlbWait.WaitGoesPastIff` | os/src/mm/remote_tlb.rs:171-176 | The wait goes past a target in exactly two cases: it has acknowledged its number, or it is seen inactive |
| `RemoteTlbWait.SilentTargetIsAwaited` | os/src/mm/remote_tlb.rs:171-176 | In every run a target that stays active and does not answer is still being waited for |
| `RemoteTlbWait.ShootdownCanFinish` | os/src/mm/remote_tlb.rs:103-182 | From every point of a shootdown the steps of the sender and the polls of its targets bring it to its end, without anybody leaving the space |
| `RemoteTlbProgress.EveryUpdateCanFinish` | os/src/mm/memory_set/handle.rs:119-141 | From every state of the invariant an update can be carried through: readers and lone writers get out of its way, the page table is changed once, every target has answered |
| `RemoteTlbProgress.RefusedUpdateLeavesNoTrace` | os/src/mm/memory_set/handle.rs:172-186 | An update that fails before changing anything leaves the whole state as it was |
| `RemoteTlbProgress.LockPutBack` | os/src/mm/memory_set/handle.rs:157-170 | A hart that takes the write lock and finds the space in use drops it with the state as before |
| `RemoteTlbProgress.LoneChangeEnds` | os/src/mm/memory_set/handle.rs:153-169 | A hart that finds nobody active changes the page table, flushes its own translations and comes back active if it was, with everybody else untouched |
| `PageCache.ScanDrops` | os/src/fs/page_cache.rs:294-356 | A scan drops at most the page it reports, which was neither dirty nor held |
| `PageCache.ScanKeepsQueues` | os/src/fs/page_cache.rs:294-356 | A scan keeps every resident key exactly once in exactly one queue |
| `PageCache.EvictSound` | os/src/fs/page_cache.rs:277-363 | `try_evict_one` keeps count and queues exact and drops at most one page, clean and unheld |
| `PageCache.PublishSound` | os/src/fs/page_cache.rs:369-387 | Publication turns one reservation into one resident page, exactly when the key is free |
| `PageCache.InvalidateSound` | os/src/fs/page_cache.rs:741-791 | Invalidation leaves exactly the pages outside its region, in both queues too |
| `PageCacheBound.FullPass` | os/src/fs/page_cache.rs:294-356 | A full pass drops a page exactly when one can be dropped at once, else sorts candidates into second chances and the rest |
| `PageCacheBound.Batch` | os/src/fs/page_cache.rs:140-150 | Two calls after a cooldown drop a page or move a whole batch of 16 to the back |
| `PageCacheBound.QuietBound` | os/src/fs/page_cache.rs:140-363 | With an empty CLOCK queue and an evictable page at position p of the deferred queue, some page is dropped within 258*(p/16+1) calls, whatever second-chance bits pages carry |
| `PageCacheDrain.Drain` | os/src/fs/page_cache.rs:277-363 | Calls on any queues drop a page or work the CLOCK queue off, within (candidates + second chances)/128 + 2 calls, without ever deferring an evictable page |
| `PageCacheDrain.ActiveBound` | os/src/fs/page_cache.rs:277-363 | In every sound cache an evictable page in the CLOCK queue bounds the calls until some page is dropped by that number |
| `PageCacheDrain.EvictionBound` | os/src/fs/page_cache.rs:140-363 | In every sound cache an evictable page at position p of the deferred queue bounds them by that number plus 258*(p/16+1) |
| `PageCacheOps.FilePageCache.constructor` | os/src/fs/page_cache.rs:216-222 | The empty cache is sound |
| `PageCacheOps.FilePageCache.RefillActiveFromDeferred` | os/src/fs/page_cache.rs:140-150 | The loop moves the first batch of deferred keys to the end of the CLOCK queue |
| `PageCacheOps.FilePageCache.ScanCandidates` | os/src/fs/page_cache.rs:294-356 | The scanning loop computes `Scan` |
| `PageCacheOps.FilePageCache.TryEvictOne` | os/src/fs/page_cache.rs:277-363 | The method computes `Evict`, cooldown included |
| `PageCacheOps.FilePageCache.TryReservePage` | os/src/fs/page_cache.rs:241-257 | A slot is reserved exactly below the cap |
| `PageCacheOps.FilePageCache.ReleasePageReservation` | os/src/fs/page_cache.rs:260-262 | A reservation is given back |
| `PageCacheOps.FilePageCache.PublishReservedPage` | os/src/fs/page_cache.rs:369-387 | The method computes `Publish` |
| `PageCacheOps.FilePageCache.RemovePages` | os/src/fs/page_cache.rs:750-761 | The loop removes and counts exactly the resident pages of the range |
| `PageCacheOps.FilePageCache.InvalidatePathRange` | os/src/fs/page_cache.rs:741-775 | The pages that remain are exactly those of other files and those the byte range does not touch, unchanged; an empty range changes nothing |
| `PageCacheOps.FilePageCache.InvalidatePath` | os/src/fs/page_cache.rs:781-791 | Exactly the pages of other files remain, unchanged |
| `PageCacheOps.RangeIsCoveredIff` | os/src/fs/page_cache.rs:741-748 | The page of a byte of the range is invalidated if and only if it is not the very last page of the address range, which the saturating additions leave out |
| `PageCacheReads.ExtendedReads` | os/src/fs/page_cache.rs:456-470 | A page that mirrors its file extends a read by exactly the file's next bytes, and one that ends at the read position ends the file there |
| `PageCacheReads.ReadCachedAt` | os/src/fs/page_cache.rs:449-473 | When the pages mirror their file, a read that answers gives exactly the bytes and length of a direct read; it gives up only where a page is missing |
| `PageCacheReads.ReserveOrEvict` | os/src/fs/page_cache.rs:269-271 | Reserving, with one eviction if need be, keeps accounting and mirroring; below the cap it always succeeds and drops nothing |
| `PageCacheReads.PublishOrRelease` | os/src/fs/page_cache.rs:369-387 | A page is published under its reservation, or the reservation is given back |
| `PageCacheReads.ReadCoversPage` | os/src/fs/page_cache.rs:489-502 | The part of a full read that covers a page is that page's slice of the file |
| `PageCacheReads.InsertReadRange` | os/src/fs/page_cache.rs:481-537 | Every published page mirrors its file; with room and frames, every completely covered page is resident afterwards and none has left |
| `PageCacheLoads.ChunkIsSlice` | os/src/fs/page_cache.rs:636-681 | The i-th page of a full readahead read is the i-th slice of the file from the faulting page |
| `PageCacheLoads.CutPages` | os/src/fs/page_cache.rs:659-682 | A read is cut into full pages; the first is kept even if empty, an empty later one ends the list |
| `PageCacheLoads.NothingCutOff` | os/src/fs/page_cache.rs:605-626 | A full read has bytes for every page it was asked for, so readahead loads all of them |
| `PageCacheLoads.PublishReadahead` | os/src/fs/page_cache.rs:703-725 | Readahead keeps mirroring and accounting, skips resident pages, stops when the cache is full, and with room makes every page resident |
| `PageCacheLoads.GetOrLoad` | os/src/fs/page_cache.rs:550-735 | The page returned mirrors its file slice whether hit, loaded or uncached; ENOMEM and read errors are reported exactly when they occur; with room the page and its readahead pages are resident |
| `PageCacheProtocol.StepKeeps` | os/src/fs/page_cache.rs:241-387 | Every atomic access of reserve, publish, release, evict, invalidate and of page holders keeps the invariant |
| `PageCacheProtocol.CountIsExact` | os/src/fs/page_cache.rs:241-387 | In every interleaving `page_count` covers resident pages plus outstanding reservations, never exceeds the cap, and equals their sum whenever no subtraction is under way |
| `PageCacheProtocol.EachKeyQueuedOnce` | os/src/fs/page_cache.rs:277-387 | Every resident key sits exactly once in exactly one queue, except the one candidate in the scanner's hand |
| `PageCacheProtocol.HeldPagesStay` | os/src/fs/page_cache.rs:304-334 | A page leaves only by invalidation, or by eviction while nothing outside the cache holds it |
| `PageCacheProtocol.DropsDirtyIff` | os/src/fs/page_cache.rs:304-334 | An eviction drops a dirty page if and only if a holder marked it between the scanner's dirty check and its reference check |
| `PageCacheProtocol.DirtyPageCanBeDropped` | os/src/fs/page_cache.rs:304-334 | The failing case: from the empty cache, any published page can be marked and let go inside that window and dropped dirty |
| `PageCacheProtocol.ScanAloneIsScan` | os/src/fs/page_cache.rs:294-356 | Left alone, the steps of a scan, reference checks and count included, compute the atomic scan |
| `PageCacheProtocol.EvictionAloneIsEvict` | os/src/fs/page_cache.rs:277-363 | Left alone, the steps of an eviction compute `Evict` |
| `PageCacheReads.LookUpPage` | os/src/fs/page_cache.rs:403-413 | A lookup returns the page as it was and leaves only its access mark behind |
| `PageCacheReads.InsertOnePage` | os/src/fs/page_cache.rs:489-535 | One round publishes the page if the read covers it, keeps mirroring, and ends the loop only without a frame |
| `PageCacheLoads.WantedPages` | os/src/fs/page_cache.rs:612-623 | After a cached page a load asks for all the file has left, up to four pages; otherwise for one |
| `PageCacheLoads.PublishAhead` | os/src/fs/page_cache.rs:706-725 | One readahead page is resident afterwards whenever there is room |
| `PageCacheLoads.PublishLoaded` | os/src/fs/page_cache.rs:684-703 | The page answered mirrors its file whether it was published, lost a race or found no slot |
| `PageCacheProtocol.RunKeeps` | os/src/fs/page_cache.rs:241-387 | So does every interleaving |
| `PageCacheBound.RetriesAreSpaced` | os/src/fs/page_cache.rs:282-291 | After a scan that leaves only deferred pages, the next 256 calls touch no page and no queue |
| `PageCacheOps.RegionIsExact` | os/src/fs/page_cache.rs:741-748 | A byte range stands for exactly the pages that hold one of its bytes, the last page of the address range left out |
| `PageCacheReads.FreshPage` | os/src/fs/page_cache.rs:489-535 | A new page holds the bytes read followed by zeros, clean and marked accessed |
| `PageCacheReads.CoversIff` | os/src/fs/page_cache.rs:489-520 | A page is published from a plain read if and only if the file has a byte in it and every one it has was read |
| `PageCacheProtocol.InvalidationAloneIsInvalidate` | os/src/fs/page_cache.rs:741-791 | Left alone, the removal of a region and the correction of the count that follows compute `Invalidate` |
| `PageCacheProtocol.ReleaseUndoesReserve` | os/src/fs/page_cache.rs:241-264 | A reservation that is released leaves the whole state as it was |
| `PageCacheProtocol.LookedUpPageStays` | os/src/fs/page_cache.rs:304-334 | A page somebody looked up stays with its bytes in every run until they let go of it or it is invalidated |
| `PageCacheProtocol.MarkedIsPassedOver` | os/src/fs/page_cache.rs:304-316 | A page marked before the scan comes to it loses the mark and goes to the back of the queue |
| `DiskQueue.IndexOf` | os/src/drivers/disk.rs:164-174 | The position of a ticket is its first occurrence, or the length of the queue |
| `DiskQueue.DeviceSubmission.constructor` | os/src/drivers/disk.rs:37-43 | No owner, first ticket 1, nobody waiting |
| `DiskQueue.DeviceSubmission.TryAcquire` | os/src/drivers/disk.rs:97-107 | The token is taken exactly when free and the caller is the front ticket, or a newcomer to an empty queue |
| `DiskQueue.DeviceSubmission.PollFuture` | os/src/drivers/disk.rs:232-284 | A poll enters, refreshes its waker, or joins the back with a new ticket; what the refreshed waker is for is `NoWakeUpIsLost` |
| `DiskQueue.DeviceSubmission.Position` | os/src/drivers/disk.rs:167-173 | The search loop finds the ticket |
| `DiskQueue.DeviceSubmission.Release` | os/src/drivers/disk.rs:148-162 | The token is given up and the front's waker returned |
| `DiskQueue.DeviceSubmission.CancelTicket` | os/src/drivers/disk.rs:164-180 | Exactly that ticket is removed, and the front woken only if it was there |
| `DiskQueue.DeviceSubmission.CancelTid` | os/src/drivers/disk.rs:182-195 | Exactly the tickets of that id are removed, in one retaining pass |
| `DiskProtocol.StepKeeps` | os/src/drivers/disk.rs:97-292 | Every critical section of contending, waiting, cancelled and releasing tasks keeps the invariant |
| `DiskProtocol.OneOwner` | os/src/drivers/disk.rs:97-120 | Never two tasks between taking the token and giving it back |
| `DiskProtocol.GuardNeverFails` | os/src/drivers/disk.rs:109-162 | In every interleaving the `try_lock` in `guard` finds the device free, and the owner check in `release` holds |
| `DiskProtocol.TicketsEnterInOrder` | os/src/drivers/disk.rs:229-284 | Tickets are granted in the order they were handed out |
| `DiskProtocol.NoWakeUpIsLost` | os/src/drivers/disk.rs:56-62 | While the device is free and somebody waits, the front ticket belongs to a live task whose next poll enters, and that task has been woken, or is about to be, through the waker of its last poll; a wake-up through an older waker counts for nothing |
| `DiskProtocol.CancelTakesOut` | os/src/drivers/disk.rs:164-195 | Either cancellation takes exactly the cancelled task's ticket out of the queue |
| `DiskProtocol.NobodyOvertakes` | os/src/drivers/disk.rs:45-54 | Whoever enters was ahead of every waiting ticket; a ticket's place only improves |
| `DiskProtocol.WaitIsBounded` | os/src/drivers/disk.rs:45-54 | While a ticket waits, at most the tickets that were ahead of it enter |
| `DiskIo.ReadModifyWrite` | os/src/drivers/disk.rs:423-427 | Reading a block, changing part of it and writing it back changes that part only |
| `DiskIo.TornOn` | os/src/drivers/disk.rs:408-434 | A torn write of part of a request leaves every byte outside the request as it was |
| `DiskIo.Disk.ReadAt` | os/src/drivers/disk.rs:346-390 | A read returns exactly the requested bytes for every offset and length, out-of-range requests are refused untouched, and only a device error fails it |
| `DiskIo.Disk.WriteAt` | os/src/drivers/disk.rs:393-438 | A write changes exactly the requested byte range of the flat image; after a device error each byte of the range is old or new and no other byte has changed |
| `DiskIo.Disk.ReadOnward` | os/src/drivers/disk.rs:366-383 | One round of the read loop extends the filled part of the buffer by exactly the next bytes |
| `DiskIo.Disk.WriteOnward` | os/src/drivers/disk.rs:413-431 | One round of the write loop extends the written part of the request by exactly the next bytes |
| `DiskIo.Disk.WritePart` | os/src/drivers/disk.rs:423-430 | The unaligned path writes exactly its chunk |
| `DiskProtocol.RunKeeps` | os/src/drivers/disk.rs:97-292 | So does every interleaving |
| `DiskIo.Disk.ReadBlock` | os/src/drivers/disk.rs:370 | A block read returns the blocks of the image |
| `DiskIo.Disk.WriteBlock` | os/src/drivers/disk.rs:417 | A block write stores its data, or on failure any prefix of it |
| `DiskProgress.EveryWaiterCanEnter` | os/src/drivers/disk.rs:97-284 | From every state of the invariant each waiting task can enter with nobody giving up and nobody polling unless woken: holders finish, wake-ups arrive, the tickets ahead enter one after the other |
| `DiskProgress.EveryTaskCanEnter` | os/src/drivers/disk.rs:122-146 | Every task that asks for the device can get it, whatever the others are doing |
| `DiskProgress.TryEntersIff` | os/src/drivers/disk.rs:122-146 | A try enters if and only if the token is free and nobody waits; otherwise a task goes to wait and code outside tasks tries again |
| `DiskProgress.NewcomerIsLast` | os/src/drivers/disk.rs:255-283 | The first poll that does not enter takes the last place |
| `MountPaths.TopAt` | os/src/fs/mount.rs:242-248 | The visible mount at a path is the last entry mounted exactly there |
| `MountPaths.TopFor` | os/src/fs/mount.rs:230-237 | The mount covering a path is the one with the longest target, the latest among equals |
| `MountPaths.TrimStartIsSuffix` | os/src/fs/mount.rs:309-311 | Trimming a relative path takes off its leading slashes and nothing else |
| `MountPaths.TopMountIndexAtPath` | os/src/fs/mount.rs:242-248 | The backwards search finds it |
| `MountPaths.TopMountIndexForPath` | os/src/fs/mount.rs:230-237 | The maximum search finds it |
| `MountPropagation.VisitsExactlyReachable` | os/src/fs/mount.rs:313-382 | The worklist terminates having visited exactly the mounts reachable over event-group, shared and slave edges |
| `MountPropagation.TargetsAreExact` | os/src/fs/mount.rs:306-384 | The targets are the requested path first and one path per edge the event crosses: none missing, none unjustified, none twice; which paths they are is `TargetsLand` |
| `MountPropagation.PropagationTargets` | os/src/fs/mount.rs:306-384 | The worklist loop computes those targets |
| `MountPropagation.CollectReceivers` | os/src/fs/mount.rs:322-350 | The three passes collect the receivers in table order |
| `MountPropagation.DeliverAll` | os/src/fs/mount.rs:352-381 | The delivery loop adds one target per new path |
| `MountTheorems.MountKeeps` | os/src/fs/mount.rs:498-687 | Every mount, move, remount and propagation change keeps the table within 256 entries and every group identifier older than the counter |
| `MountTheorems.UmountKeeps` | os/src/fs/mount.rs:821-830 | So does every unmount |
| `MountTheorems.NeverTooLong` | os/src/fs/mount.rs:603-606 | No sequence of operations makes the table longer than 256 entries |
| `MountTheorems.UmountUndoesMount` | os/src/fs/mount.rs:498-687 | From every reachable table, a successful mount that creates something, then an unmount of any one of its targets, restores the list of entries exactly |
| `MountTheorems.NewMountIsVisible` | os/src/fs/mount.rs:633-668 | Right after a mount the new entry of every target is the visible one there |
| `MountTheorems.OtherPathsUnaffected` | os/src/fs/mount.rs:498-687 | A path that no new target covers keeps the mount it had |
| `MountTheorems.UmountIsExact` | os/src/fs/mount.rs:821-830 | An unmount succeeds exactly when something is mounted there, and removes exactly that mount's event |
| `MountTheorems.MovedListLength` | os/src/fs/mount.rs:410-413 | A move adds exactly the entries it is charged for |
| `MountTheorems.MoveKeepsRoot` | os/src/fs/mount.rs:434-464 | The root of a moved tree is at the new path |
| `MountTheorems.MoveKeepsShape` | os/src/fs/mount.rs:434-464 | A moved tree keeps its shape below the new path |
| `MountTheorems.CopiesHearEachOther` | os/src/fs/mount.rs:323-335 | Copies of one mount below shared mounts hear each other: the next event at one reaches every other |
| `MountTheorems.SharedIsMutual` | os/src/fs/mount.rs:274-280 | A mount made shared hears from and is heard by every visible copy of its event |
| `MountTheorems.SlaveIsOneWay` | os/src/fs/mount.rs:281-289 | A mount made slave passes nothing on but still hears from its master's group, or from the peers it had if it had no master |
| `MountTheorems.PrivateIsCutOff` | os/src/fs/mount.rs:290-298 | A mount made private or unbindable passes nothing on and hears from copies of its own event only |
| `MountTable.MountTable.constructor` | os/src/fs/mount.rs:838-843 | The empty table |
| `MountTable.MountTable.NextGroup` | os/src/fs/mount.rs:195-199 | Identifiers are handed out in order |
| `MountTable.MountTable.SetPropagation` | os/src/fs/mount.rs:255-299 | Selecting and retyping in place computes the new table |
| `MountTable.MountTable.CreateMount` | os/src/fs/mount.rs:555-687 | Refusals leave the table alone; otherwise an entry is pushed for every target |
| `MountTable.MountTable.MoveMount` | os/src/fs/mount.rs:389-470 | The tree is relocated in place and copied for every further target, or the table is unchanged |
| `MountTable.MountTable.Mount` | os/src/fs/mount.rs:498-687 | The dispatcher computes the operation its flags ask for and keeps the table invariant |
| `MountTable.MountTable.Umount` | os/src/fs/mount.rs:821-830 | The retaining pass removes exactly the event of the visible mount |
| `MountPropagation.VisitMount` | os/src/fs/mount.rs:316-381 | Looking at one mount is one round of the worklist |
| `MountTheorems.ReplayKeeps` | os/src/fs/mount.rs:498-830 | Every table that any sequence of operations produces is within its limit with all identifiers older than the counter |
| `MountTable.FindTargets` | os/src/fs/mount.rs:593-601 | A mount without a covering parent goes to its own path only, any other to its propagation targets |
| `MountTable.CollectSubtree` | os/src/fs/mount.rs:401-406 | The subtree is collected in table order |
| `MountTable.MirrorPairs` | os/src/fs/mount.rs:682-686 | A bind reports every target but the source itself |
| `MountTable.MountTable.Refusal` | os/src/fs/mount.rs:555-573 | EINVAL for binding something unbindable, EBUSY for a regular mount over another, nothing else |
| `MountTable.MountTable.PushEntries` | os/src/fs/mount.rs:633-668 | One entry per target is appended, with the propagation state it inherits |
| `MountTable.MountTable.Remounted` | os/src/fs/mount.rs:538-547 | A remount replaces source, type and flags of the visible entry only |
| `MountTable.MountTable.RetypeSelected` | os/src/fs/mount.rs:274-298 | Exactly the selected entries change type |
| `MountTable.MountTable.RelocateTree` | os/src/fs/mount.rs:434-447 | Exactly the entries of the moved tree are relocated |
| `MountTable.MountTable.PushTree` | os/src/fs/mount.rs:451-463 | A copy of the subtree is appended at the target |
| `MountTable.MountTable.PushCopies` | os/src/fs/mount.rs:448-464 | One copy for every target after the first |
| `MountTable.MountTable.RetainOthers` | os/src/fs/mount.rs:826-829 | Exactly the entries of other events stay, in order |
| `MountLands.AtOrBelowIff` | os/src/fs/mount.rs:205-211 | A path is at or below a directory if and only if it is the directory or the directory, a slash and more |
| `MountLands.AppendIsChild` | os/src/fs/mount.rs:216-226 | Appending a relative path gives that path below the base, with no doubled slash |
| `MountLands.RelativeIs` | os/src/fs/mount.rs:306-312 | The relative path of a mount is what follows the mount point of its parent |
| `MountLands.BindLands` | os/src/fs/mount.rs:352-371 | An event at x below a bind of d/off lands at d/off/x below a receiver at d, for an empty x, an empty off and the root directory too |
| `MountLands.PlainLands` | os/src/fs/mount.rs:372-374 | An event at x below any other mount lands at d/x |
| `MountLands.MappedLands` | os/src/fs/mount.rs:352-374 | Both cases in one for every table with normal paths |
| `MountLands.TargetsLand` | os/src/fs/mount.rs:306-384 | A mount at x below its parent goes there and, for every edge its event crosses, to x below the receiver, or below the source of the bind when that lies in the receiver: no more, no fewer, none twice |
| `MountEffects.CreateFailsIff` | os/src/fs/mount.rs:555-606 | EINVAL, EBUSY and ENOSPC each if and only if something unbindable is bound, a regular mount covers another, or the copies do not fit; a refused mount changes nothing |
| `MountEffects.NewCopyShowsRequest` | os/src/fs/mount.rs:649-668 | Every copy of a new mount shows the request at its target, under one event number that no mount had before |
| `MountEffects.NewCopyInherits` | os/src/fs/mount.rs:633-650 | Its groups are those of what it binds, or else those of the mount it lies in |
| `MountEffects.CopiesShareQuota` | os/src/fs/mount.rs:615-631 | All copies count against one quota: for ext4 a third of the device but a mebibyte at least, for a bind that of what it binds |
| `MountEffects.MirrorsAre` | os/src/fs/mount.rs:678-686 | The mirrors are one per target other than the source itself |
| `MountEffects.BindAsksForMirrors` | os/src/fs/mount.rs:670-686 | A bind, and nothing else, asks for exactly those mirrors |
| `MountEffects.RemountIs` | os/src/fs/mount.rs:535-547 | A remount gives the visible mount the source, type and flags of the request and changes nothing else; it fails if and only if nothing is mounted there |
| `MountEffects.RetypeIs` | os/src/fs/mount.rs:255-299 | A change of type puts the mount at the path, with MS_REC all below it, with MS_SHARED all copies of its event, into the new state, and no other |
| `MountEffects.MoveFailsIff` | os/src/fs/mount.rs:389-413 | A move is EINVAL if and only if nothing is mounted at the source or the target lies in it; a refused move changes nothing |
| `MountEffects.RelocatedLands` | os/src/fs/mount.rs:436-446 | A moved entry goes from x below the source to x below the target, and only the root of the tree takes over the state of the mount it now lies in |
| `MountEffects.MoveTakesTree` | os/src/fs/mount.rs:434-447 | A move takes everything at or below the source along, and nothing else |
| `MountEffects.MoveCopiesTree` | os/src/fs/mount.rs:448-464 | Every entry of the moved tree is copied to its place below every further target, under its own event number |
| `MountEffects.MoveAddsCopiesOnly` | os/src/fs/mount.rs:448-464 | A move adds no other entry |
| `MountEffects.ReplayKeepsNormal` | os/src/fs/mount.rs:498-830 | Requests with normal paths never put a doubled or trailing slash into the table |
| `MountEffects.EventsLandAlways` | os/src/fs/mount.rs:306-384 | In every table such requests produce, a mount goes to exactly the paths of `TargetsLand` |
| `Ipv6Text.AcceptPart` | crates/smoltcp/src/parsers.rs:163-246 | On any input the recursion terminates and the head and tail counts of a success add up to at most eight |
| `Ipv6Reads.NumberReads` | crates/smoltcp/src/parsers.rs:109-125 | Any spelling of a number with up to the allowed digits reads back as that number and stops at the next non-digit |
| `Ipv6Inverse.NumberTaken` | crates/smoltcp/src/parsers.rs:109-125 | A number that is read was spelled by digits of its value in front of the rest |
| `Ipv6Reads.OctetsRead` | crates/smoltcp/src/parsers.rs:283-292 | Spelled octets joined by dots read back as their values |
| `Ipv6Inverse.OctetsTaken` | crates/smoltcp/src/parsers.rs:283-292 | Octets that are read were spelled that way |
| `Ipv6Reads.FullMappedParses` | crates/smoltcp/src/parsers.rs:193-205 | "0:0:0:0:0:ffff:a.b.c.d" parses to the mapped address |
| `Ipv6Reads.MappedParses` | crates/smoltcp/src/parsers.rs:206-244 | "::ffff:a.b.c.d", with any of the leading zero groups written out and with up to three groups behind it, parses to the address its groups spell |
| `Ipv6Inverse.FormTaken` | crates/smoltcp/src/parsers.rs:163-281 | An accepted text has one of the accepted forms |
| `Ipv6Unique.FormUnique` | crates/smoltcp/src/parsers.rs:163-281 | No text has two forms |
| `Ipv6Language.GoodParses` | crates/smoltcp/src/parsers.rs:163-281 | An accepted form parses to the address it spells |
| `Ipv6Language.ParsesExactly` | crates/smoltcp/src/parsers.rs:163-281 | A form parses if and only if it is one of the accepted ones |
| `Ipv6Language.AcceptedIff` | crates/smoltcp/src/parsers.rs:72-79 | `Parse` succeeds on a text if and only if the text has an accepted form |
| `Ipv6Language.FullForm` | crates/smoltcp/src/parsers.rs:163-281 | Groups joined by single colons, in either case and with leading zeros, parse back if and only if there are eight |
| `Ipv6Language.CompressedForm` | crates/smoltcp/src/parsers.rs:163-281 | One "::" parses to the address with the missing groups zero if and only if at most six groups stand on either side and at most eight in all |
| `Ipv6Language.ThreeColonsForm` | crates/smoltcp/src/parsers.rs:169-190 | ":::" does so too if and only if groups stand on both sides, although no standard allows it |
| `Ipv6Language.ThreeColonsExample` | crates/smoltcp/src/parsers.rs:169-190 | "1:::2" parses to 1:0:0:0:0:0:0:2 |
| `Ipv6Language.GroupsAfterQuad` | crates/smoltcp/src/parsers.rs:206-244 | Up to three groups behind the dotted quad of "::ffff:a.b.c.d" are accepted, although no standard allows them |
| `Ipv6Language.GroupAfterQuadExample` | crates/smoltcp/src/parsers.rs:206-244 | "::ffff:1.2.3.4:5" parses to 0:0:0:0:ffff:102:304:5 |
| `Ipv6Standard.AcceptedIsStandardIff` | crates/smoltcp/src/parsers.rs:72-79 | An accepted text is one of section 2.2 of RFC 4291 if and only if it has no three colons in a row, no colon behind a dot, and at most seven colons, six with a dotted quad |
| `Ipv6Standard.StandardIsAcceptedIff` | crates/smoltcp/src/parsers.rs:163-281 | A text of RFC 4291 parses if and only if it has at most seven colons or, with a dotted quad, the groups before the quad are those of an IPv4-mapped address |
| `Ipv6Standard.CompatibleIsRefused` | crates/smoltcp/src/parsers.rs:206-217 | The failing family: "::a.b.c.d" is a text of RFC 4291 and is refused |
| `Ipv6Print.FullRoundTrip` | crates/smoltcp/src/parsers.rs:249-281 | Every address printed in full form parses back to itself |
| `Ipv6Print.CompressedRoundTrip` | crates/smoltcp/src/parsers.rs:163-281 | Every address printed with "::" for a run of zero groups parses back to itself if the run has two or more groups; a run of one group parses back if and only if it is inside the address |
| `Ipv6Print.MappedRoundTrip` | crates/smoltcp/src/parsers.rs:151-217 | Every IPv4-mapped address printed in dotted form parses back to itself |
| `Ipv6Parser.Parser.TakeNumber` | crates/smoltcp/src/parsers.rs:109-125 | The digit loop reads the number, with failed attempts put back |
| `Ipv6Parser.Parser.TakeOctets` | crates/smoltcp/src/parsers.rs:283-292 | The octet loop reads four dotted octets |
| `Ipv6Parser.Parser.TryMapped` | crates/smoltcp/src/parsers.rs:151-160 | The attempt at an IPv4 tail succeeds completely or puts the position back |
| `Ipv6Parser.Parser.TakeSeparator` | crates/smoltcp/src/parsers.rs:169-190 | The separator logic, "::" included |
| `Ipv6Parser.Parser.TakeGroup` | crates/smoltcp/src/parsers.rs:192-231 | One group goes to the head or tail array, never out of range |
| `Ipv6Parser.Parser.TakePart` | crates/smoltcp/src/parsers.rs:163-246 | The recursion over arrays and indices computes `AcceptPart` on any input and never indexes out of range |
| `Ipv6Parser.Parser.TakeIpv6` | crates/smoltcp/src/parsers.rs:249-281 | The tail is copied to the end of the address |
| `Ipv6Parser.ParseIpv6` | crates/smoltcp/src/parsers.rs:72-79 | A whole text parses to exactly what `Parse` says |
| `Ipv6Parser.Parser.Advance` | crates/smoltcp/src/parsers.rs:40-48 | The next character, or the end with the position unchanged |
| `Ipv6Parser.Parser.TakeStr` | crates/smoltcp/src/parsers.rs:89-94 | A fixed text is accepted exactly when the input starts with it |
| `Ipv6Parser.Parser.TryDigit` | crates/smoltcp/src/parsers.rs:96-107 | A digit, or the position put back |
| `Ipv6Parser.Parser.TryNumber` | crates/smoltcp/src/parsers.rs:50-62 | A number, or the position put back |
| `Ipv6Parser.Parser.StoreHead` | crates/smoltcp/src/parsers.rs:193-205 | A head group is stored in range, with the IPv4 tail after the mapped prefix |
| `Ipv6Parser.Parser.StoreTail` | crates/smoltcp/src/parsers.rs:206-218 | A tail group is stored in range, with the IPv4 tail after "::ffff" |
| `Ipv6Print.MappedBytes` | crates/smoltcp/src/parsers.rs:151-162 | An IPv4-mapped address in network order ends in the four octets as they were written |
| `Ipv6Print.DigitIs` | crates/smoltcp/src/parsers.rs:96-107 | A digit is one of sixteen characters in either case, of the first ten in a decimal number |

## Left out

- File offsets, cached sizes of open descriptors, rename, unlink and truncate in `crates/lwext4_rust/src/file.rs`: bookkeeping around the two caches.
- The choice between the sparse path and the direct path per inode: the sparse model takes every inode as sparse-enabled.
- SparseVolume.SparseVolume.WriteAt: takes the inode as one without a whole-file cache entry, because that branch is the model of `DenseProtocol`.
- DenseProtocol.NoAcknowledgedWriteIsLost: restricts the discards of its own file to stored, unheld entries, because other discards do lose writes, as `DenseDiscard` shows.
- DenseProtocol.EvictedEntryTurnsAway: restricts them to unheld entries, because a thread that holds a discarded entry can still write through it.
- Whole-file cache entries dropped on purpose without a write-back (unlink, O_TRUNC), runtime files under /proc, path aliases of one inode, and allocation failure inside `writebuf`.
- DenseProgress.ListedStays: leaves out pinning a file that is already queued, because `pin_write_back_cache` takes it out of the FIFO on purpose.
- Theorems that something can finish say that a run to the end exists from every state, not that a scheduler takes it.
- `FrameAllocator`: after a merge it leaves a block in its old class, so the tiling proved for `Heap` does not hold of it.
- RemoteTlbRuns.ActiveHartsSeeCurrentTables: restricts the hart's own unflushed ways back to the space, because others do leave old translations, as `CarelessRejoin` shows.
- RemoteTlbRuns.ShootdownIsComplete: restricts the hart's own ways back behind a loaded mask, because `LateRejoinIff` shows that the others spoil the shootdown.
- Page-table, page-fault and memory-set code beyond leaving, locking, changing, flushing and coming back: which translations a change affects is not modelled, and a change of permissions that needs no shootdown counts as none.
- Weak memory orders, interrupt delivery and re-entrant polls: every atomic access is one step of a sequentially consistent run.
- PageCacheLoads.GetOrLoad: the second lookups after losing a race are not modelled, because the method runs alone; the races are those of `PageCacheProtocol`.
- Path strings of cached pages are one flat key with the page index instead of a map of maps, and bytes beyond a page's valid length are zeros.
- `DiskProtocol`: a poll, a release and a cancellation are one step each under the queue's lock; spinning outside any task is repeated attempts.
- DiskIo.Disk.ReadAt: says nothing about the buffer after a device error, because the device may leave anything in it.
- The device flush and the registry of disks in `os/src/drivers/disk.rs`: they only pass a call on.
- MountLands.TargetsLand: takes the paths in the table as free of doubled and trailing slashes, because the table compares them as text; `ReplayKeepsNormal` shows that normal requests keep them so.
- Mount quotas: the counter of used bytes may drift from the per-file sizes, so only who shares a quota is modelled.
- The text of /proc/mounts and the lookups that only copy an entry's fields.
- Ports, IPv4 and Ethernet addresses and CIDR suffixes in `crates/smoltcp/src/parsers.rs`: the same combinators on simpler formats.
- Bindings to the C library, performance counters, boot, console, logging, examples and build files.
