# xv6 with shared memory: a verified model

This project models the parts of an x86 xv6 kernel, with its shared-memory extension, whose
correctness rests on more than one function: the crash-safe storage stack, the memory managers,
the blocking protocols and two text tools. Integers that wrap in C are wrapped explicitly; a panic
is a failure result or a flag of the state.

- **Storage.** `LogMachine` is the redo log and the buffer cache as a step relation with crashes
  before any block write; `LogSafety`, `LogCrash`, `LogBudget`, `LogTheorems` and `LogReserve` prove what every
  run keeps. `LogCode` has the loops of `kernel/log.c` in place, with a ghost record of the disk
  after every write. `Bio` is the LRU ring on the heap. `Bitmap`, `FsSpec`, `FsSteps`, `Fs`, `FileIo`
  and `Mkfs` are bitmap bytes, block ownership, file contents, the inode operations, `filewrite` and
  the initial image; `FsTight` and `FsTightState` show that the log budget of a write is exact, and
  `DiskFormat` and `Storage` lay files out in disk blocks and join them with the log. `Icache` and `IcacheStale` are the inode cache under concurrency.
  `Ide` is the driver's queue on the heap, `IdeProtocol` its refinement of the in-memory disk.
- **Memory.** `FreeList` and `Umalloc` are the Kernighan and Ritchie allocator (section 8.7 of The
  C Programming Language, 2nd edition). `VmSpec`, `VmRange` and `Vm` are page ownership and the
  address-space operations over two-level page tables; `Shared` is the shared-memory extension.
- **Processes.** `SleepLock`, `Pipe`, `PipeProtocol`, `ProcTable` and `ExitWait` hold for any number
  of processes.
- **Text.** `Grep` is the matcher, `ShGrammar`, `ShOrder` and `Sh` the shell's command
  language, the order of words in it, and its parser.

`dafny verify dfyconfig.toml` checks everything.

## Hypotheses

- A single block write is atomic, and logged home blocks lie outside the log area.
- `log.size` and the number of buffers are parameters; the shipped image and kernel have
  `log.size == NBUF == LOGSIZE`. What begin_op reserves is proved for every log. The theorems about
  crashes hold for every run in which `write_log` begins only with a list that fits the log area;
  `LogTheorems.RunsFit` and `LogTheorems.BoundedFits` say which runs those are, and
  `LogReserve.AtomicWithinIff` says exactly when all of them are.
- A buffer's identity is unique only for `dev != 0`, and a changed buffer is written or logged before
  it is released.
- Stretches that hold a spin lock are one step; `sleep` is split into steps in `SleepLock`, where
  the split is the point, and atomic elsewhere.
- One disk interrupt comes for each request issued, and the device makes no errors.
- A changed inode is written back before it is unlocked; `Icache.WriteThrough` rests on it.
- An end of a pipe is closed when no process is inside the operation of that end.
- `sbrk` returns unit-aligned addresses at or above the old break.

## Where the code does less than it promises

- With `log.size <= LOGSIZE`, as on the shipped image, operations within their budget make `log_write`
  panic (`LogReserve.PanicFreeIff`), and from two blocks on racing ones overrun the log area
  (`LogReserve.RaceOverrunsLog`). If there are more buffers than blocks in the log, a crash then leaves
  a disk that recovers to the state after no prefix of the history (`LogReserve.OverrunTears`); crash
  atomicity holds exactly for `log.size > LOGSIZE`, for a log of the header alone, and for a log with as
  many blocks as there are buffers (`LogReserve.AtomicWithinIff`). The shipped image is in the last case,
  by one buffer (`LogReserve.ShippedImageAtomic`).
- The cache has NBUF == LOGSIZE buffers, and the commit of a full log needs one more: operations within
  their budget reach a commit in which every buffer is dirty and `bget` panics
  (`LogReserve.FullLogStarves`; `LogTheorems.CommitBuffers` gives the exact condition).
- Re-logging a block with a full budget can panic whatever the size (`LogReserve.AbsorbedWritePanics`;
  `LogTheorems.CheckPanicsIff` gives the exact condition).
- A directory entry can name an inode that has been freed, for instance the `..` of a removed directory
  that is still somebody's working directory; `ilock` then panics on an inode without a type
  (`Icache.StaleNamePanics`; `IcacheStale.SafeIff` gives the exact condition on an `iget`).
- Two racing `iput` calls can each see the other's reference and leave an inode without links
  allocated (`Icache.RaceLeaks`; `Icache.PutFreesIff` gives the exact condition for freeing).
- A writer killed after it filled a pipe returns without waking the readers
  (`PipeProtocol.ReaderStranded`; `PipeProtocol.StepSleep` gives the exact step).
- `fork` leaves a parent pointer in an unused entry when the shared-region table is full, so `wait`
  can sleep with no child left (`ExitWait.StrandedWait`; `ExitWait.StepClean` gives the exact step).
- `kill` also finds its pid in entries that are not in use, and neither a failed `fork` nor `allocproc`
  clears the mark, so a new process can be born killed (`ExitWait.BornMarked`;
  `ExitWait.StepUnmarked` gives the exact steps).
- A shared region that starts inside a page is mapped only to the end of its rounded size
  (`Shared.AliasedIff` for any byte of any region, `Shared.CoveredIff`, `Shared.LostByte`).
- `share_mem` can fill all MAXSHARED entries of the table, and `linkphysaddr` and `fork` then look for
  its end behind it; `Shared.LinkPhysAddr` reports such a table as a failure.
- `malloc` returns a block that is too small when the rounding wraps, and `morecore` asks for a wrapped
  size, above exact limits (`Umalloc.Heap.Malloc`, `Umalloc.WrappedSize`, `Umalloc.RequestFits`).

## Model

| member | source | states |
|---|---|---|
| LogTheorems.CrashAtomicity | kernel/log.c:69-202 | on a log of any size, in every run whose commits fit the log area: at every point, also inside a commit or a recovery that crashed before, recovering the disk gives the state after a prefix of the logged history that is closed under operations and contains every acknowledged commit |
| LogTheorems.QuietAcked | kernel/log.c:146-202 | in every run, whenever no operation is open and nothing is being committed, all that ended is durable, and acknowledged if anything ended since the last start |
| LogTheorems.Finishes | kernel/log.c:69-202 | a commit that fits, or a recovery, while nobody holds a buffer, comes to an end within a number of steps given by the list: the log is empty, and after a commit all is durable and acknowledged |
| LogTheorems.RunsFit | kernel/log.c:214-232 | such are all runs on a log larger than LOGSIZE or of the header alone, and on any log those in which no log_write overtakes another between its test and its append |
| LogTheorems.BoundedFits | kernel/log.c:177-190 | and all runs with no more buffers than the log has blocks, because the commit of a longer list finds no buffer |
| LogTheorems.WholeOperations | kernel/log.c:11-15 | the writes of an operation are all before the durable point or all after it |
| LogTheorems.NeverLost | kernel/log.c:146-174 | over any continuation, crashes included, what is durable and acknowledged stays so and stays the same |
| LogTheorems.RecoveryRestores | kernel/log.c:115-122 | recovery turns every disk of a commit into its image and empties the log, and its result recovers to itself |
| LogTheorems.InstalledIs | kernel/log.c:69-82 | k rounds of install_trans put k blocks home and touch no other block |
| LogTheorems.ReadsAreCoherent | kernel/bio.c:96-105 | in every reachable state bread returns the logged contents, through evictions, commits and crashes |
| LogTheorems.WriteAhead | kernel/log.c:177-232 | until the header write no home block of the open transaction has changed on disk, and its blocks stay cached, dirty and equal to the logged state |
| LogTheorems.ReservationHolds | kernel/log.c:126-174 | on a log of any size and under every interleaving the logged blocks are distinct and with the unused reservations fit LOGSIZE, and a commit means no outstanding operation |
| LogTheorems.StrictRunsDoNotPanic | kernel/log.c:214-221 | operations within their budget never meet the panic, although the capacity test precedes the lock |
| LogTheorems.CheckPanicsIff | kernel/log.c:218-219 | on a log of any size, in every reachable state, the capacity test fails if and only if the list holds LOGSIZE blocks or reaches the last log block, and in a list of LOGSIZE blocks every open operation has used its whole budget |
| LogTheorems.CommitBuffers | kernel/log.c:178-190 | with nobody holding a buffer, clean buffers can be recycled so that a round of write_log fits n buffers if and only if n exceeds the number of logged blocks |
| LogTheorems.RunKeeps | kernel/log.c:69-233 | the invariant of log, cache, disk and reservations holds throughout every run whose commits fit |
| LogTheorems.BootInv | kernel/log.c:54-66 | a machine that boots on a recoverable disk satisfies it |
| LogBudget.RunAccounted | kernel/log.c:126-233 | reservations, the header and the buffers of home blocks stay in order in every run on a log of any size |
| LogBudget.RaceFreeFits | kernel/log.c:218-230 | without a race between test and append the list never reaches the end of the log area |
| LogCrash.StepKeeps | kernel/log.c:69-233 | every step keeps it: reads, evictions, operations, each block write of commit and recovery, crashes; only a write_log that begins with too long a list is excluded |
| LogCrash.CommitHeadKeeps | kernel/log.c:101-113 | the header write makes the whole group durable at once |
| LogCrash.WriteLogKeeps | kernel/log.c:178-190 | copying into the log area changes nothing that recovery sees |
| LogCrash.InstallKeeps | kernel/log.c:69-82 | a crash between any two installs recovers to the new image |
| LogCrash.CrashKeeps | kernel/log.c:115-122 | a crash leaves the durable image as the new state |
| LogCrash.ReinstallKeeps | kernel/log.c:115-122 | a crash during recovery recovers to the same image |
| LogSafety.LogWriteKeeps | kernel/log.c:214-233 | log_write appends or absorbs within its reservation and pins the buffer |
| LogSafety.EvictKeeps | kernel/bio.c:77-90 | evicting a clean unreferenced buffer loses nothing |
| LogSafety.EndOpKeeps | kernel/log.c:146-174 | only the last operation out starts a commit |
| LogSafety.BeginOpKeeps | kernel/log.c:126-141 | admission by the reservation keeps room for every open operation |
| LogSafety.HeadRoundTrip | kernel/log.c:84-113 | a header written and read back names the same blocks |
| LogReserve.PanicFreeIff | kernel/log.c:218-219 | the panic is unreachable for operations within their budget if and only if log.size > LOGSIZE |
| LogReserve.SmallLogPanics | kernel/log.c:218-219 | otherwise three operations within their budget reach it |
| LogReserve.RaceOverrunsLog | kernel/log.c:214-232 | with a log of 2 to LOGSIZE blocks two racing log_writes fill the list past the log area |
| LogReserve.OverrunTears | kernel/log.c:177-190 | then, with more buffers than log blocks, write_log overwrites a home block, and a crash leaves a disk that recovers to the state after no prefix of the history |
| LogReserve.AtomicIff | kernel/log.c:69-233 | without a limit on buffers, crashes are atomic in every run if and only if the log is larger than LOGSIZE or is the header alone |
| LogReserve.AtomicWithinIff | kernel/log.c:69-233 | with m buffers, crashes are atomic in every run if and only if the log is larger than LOGSIZE, is the header alone or has at least m blocks |
| LogReserve.AbsorbedWritePanics | kernel/log.c:218-230 | re-logging an own block after using the whole budget can panic for any log size |
| LogReserve.ShippedImagePanics | tools/mkfs.c:25-25 | the image as shipped has such a log, so the panic is reachable there |
| LogReserve.ShippedImageAtomic | tools/mkfs.c:25-25 | crashes on it are atomic with NBUF buffers and would not be with one more |
| LogReserve.FullLogStarves | kernel/bio.c:77-92 | on any log of at least LOGSIZE blocks, a kernel with NBUF buffers and operations within their budget reach a commit in which every buffer is dirty and none is that of the log block |
| LogCode.Log.Commit | kernel/log.c:192-202 | commit makes 2n+2 block writes; recovery gives the old image after each of the first n and the new image from the next one on, and home blocks hold the new image at the end |
| LogCode.Log.RecoverFromLog | kernel/log.c:115-122 | recovery computes the image, empties the log, and each of its writes leaves a disk with the same image |
| LogCode.Log.WriteLog | kernel/log.c:177-190 | the log area receives the cached contents of the logged blocks, home blocks do not change, and each write keeps the old image |
| LogCode.Log.InstallTrans | kernel/log.c:68-82 | home blocks equal the image afterwards and every write keeps it recoverable |
| LogCode.Log.MakeDurable | kernel/log.c:196-197 | the header write is the one that switches images |
| LogCode.Log.Finish | kernel/log.c:198-200 | installing and clearing never lose the image |
| LogCode.Log.LogWrite | kernel/log.c:213-233 | the block is logged exactly once, whether appended or absorbed; the panics are the capacity test and a call outside any transaction |
| LogCode.Log.WriteHead | kernel/log.c:101-113 | the header block on disk spells the in-memory list |
| LogCode.Log.ReadHead | kernel/log.c:85-96 | the in-memory list becomes the one on disk |
| Bio.Bcache.Binit | kernel/bio.c:38-55 | one ring through head and all buffers, both ways |
| Bio.Bcache.AddBuffer | kernel/bio.c:48-54 | one more buffer at the front of the ring |
| Bio.Bcache.Lookup | kernel/bio.c:68-75 | the cached buffer of the block if there is one |
| Bio.Bcache.Victim | kernel/bio.c:80-81 | the last buffer that is unreferenced and clean |
| Bio.Bcache.Bget | kernel/bio.c:60-92 | fails exactly when the block is not cached and no buffer is free and clean; otherwise the one buffer of the block, recycled from the least recently released |
| Bio.Bcache.Bread | kernel/bio.c:95-105 | the contents of an uncached block map, one more reference, dirty only if it was; every other buffer untouched, all of them on failure |
| Bio.Bcache.Bwrite | kernel/bio.c:108-115 | map and disk take the contents; the panic is not holding the lock |
| Bio.Bcache.Publish | kernel/log.c:231-231 | marking a held buffer dirty pins it |
| Bio.Bcache.Brelse | kernel/bio.c:119-140 | the buffer becomes the most recently released when its last reference goes |
| Bio.Bcache.MoveToFront | kernel/bio.c:130-137 | the pointer surgery moves one buffer to the front and keeps the rest in order |
| Bio.Bcache.Iderw | kernel/memide.c:38-60 | buffer, map and disk agree afterwards and the buffer is clean |
| Bio.PushFront | kernel/bio.c:49-53 | links a buffer in behind head, keeping one ring |
| Bio.Unlink | kernel/bio.c:131-132 | takes a buffer out, keeping one ring |
| Bio.Relink | kernel/bio.c:131-136 | moves a buffer to the front, keeping one ring |
| Bitmap.MarkIs | kernel/fs.c:66-68 | or-ing the mask in sets that bit and no other |
| Bitmap.ClearIs | kernel/fs.c:88-92 | and-ing its complement clears that bit and no other |
| Bitmap.TakeBit | kernel/fs.c:65-74 | the scan of a bitmap block finds and sets the first clear bit, if there is one |
| Bitmap.DropBit | kernel/fs.c:88-92 | clears the bit; the panic is a clear bit |
| Bitmap.FirstBits | tools/mkfs.c:309-319 | exactly the first bits are set |
| FsSpec.OwnedMeans | kernel/fs.c:53-95 | a data block is marked exactly when some slot of some inode holds it, and no block is held twice |
| FsSpec.AllocSlot | kernel/fs.c:376-386 | putting a fresh block into an inode slot keeps exact ownership and every file's bytes |
| FsSpec.AllocEntry | kernel/fs.c:389-392 | so does putting one into an indirect table |
| FsSpec.DataWrite | kernel/fs.c:497-498 | writing data that is no table leaves ownership as it is |
| FsSpec.FreeSlot | kernel/fs.c:413-416 | a held block is never found free, and clearing its slot and bit keeps ownership exact |
| FsSpec.FreeEntry | kernel/fs.c:422-425 | the same for an indirect entry |
| FsSpec.PutWordIs | kernel/fs.c:388-391 | storing a 32-bit word changes that word of a block and no other |
| FsSteps.ChunkFits | kernel/file.c:126-132 | at any offset and alignment a chunk logs at most nine blocks besides the inode |
| FsTight.TenBlocks | kernel/file.c:122-129 | on a consistent file system with four free blocks on four bitmap blocks, and a file that ends in its last direct block, any transaction that writes a chunk logs ten blocks |
| FsTightState.FullGood | tools/mkfs.c:171-180 | there is such a file system, of 12289 blocks |
| FsTightState.BudgetAttained | kernel/param.h:10-10 | so the budget of MAXOPBLOCKS is attained |
| FsSteps.WrittenIsSplice | kernel/fs.c:494-505 | the bytes after the loop are the old ones with the new ones spliced in, across the indirect boundary |
| FsSteps.WrittenOthers | kernel/fs.c:494-505 | other files keep inode and bytes, and a file that does not grow keeps its inode |
| FsSteps.CutBits | kernel/fs.c:405-433 | the bits cleared are exactly those of the blocks the inode held |
| Fs.FileSystem.LogWrite | kernel/log.c:214-233 | counts the distinct blocks an operation logs |
| Fs.FileSystem.Balloc | kernel/fs.c:42-78 | the lowest free block, zeroed and marked, both writes logged; fails exactly when the bitmap is full |
| Fs.FileSystem.AllocInto | kernel/fs.c:376-386 | ownership stays exact when a slot receives a block |
| Fs.FileSystem.AllocEntryInto | kernel/fs.c:389-392 | ownership stays exact when an entry receives a block, and the table is logged |
| Fs.FileSystem.Bmap | kernel/fs.c:370-398 | an existing block is found without any change; a missing one is allocated with all its writes logged and no byte changed; failure means out of range or a full disk |
| Fs.FileSystem.BmapDirect | kernel/fs.c:376-380 | the direct case |
| Fs.FileSystem.BmapOldTable | kernel/fs.c:383-395 | the case of an existing indirect table |
| Fs.FileSystem.BmapNewTable | kernel/fs.c:383-395 | the case that allocates the table first |
| Fs.FileSystem.BmapEntry | kernel/fs.c:387-394 | finding or allocating an entry of a table |
| Fs.FileSystem.WriteBlock | kernel/fs.c:495-499 | one round writes its bytes into its block and logs it |
| Fs.FileSystem.WriteLoop | kernel/fs.c:494-500 | the loop writes exactly the given bytes within its log bound |
| Fs.FileSystem.WriteI | kernel/fs.c:477-507 | return value by the range checks; contents become the splice; other files, and everything on failure, unchanged; every changed block logged; a chunk stays within ten logged blocks; the inode is written back whenever it changed |
| Fs.FileSystem.ReadI | kernel/fs.c:449-473 | returns the slice of the contents clamped to the size and never allocates, logs or changes anything |
| Fs.FileSystem.IUpdate | kernel/fs.c:219-235 | disk inode becomes the in-memory one, logged |
| Fs.FileSystem.Bfree | kernel/fs.c:81-95 | clears the bit and logs its bitmap block; the panic is a clear bit |
| Fs.FileSystem.ITrunc | kernel/fs.c:405-433 | frees exactly the inode's blocks and never panics; the bitmap block of every bit it clears and the inode's block are logged, and no other block |
| Fs.FileSystem.FreeDirect | kernel/fs.c:412-417 | a direct slot is freed, the others kept; every cleared bit is logged |
| Fs.FileSystem.FreeEntries | kernel/fs.c:420-425 | every entry of the table is freed, each cleared bit logged |
| Fs.FileSystem.FreeTable | kernel/fs.c:419-429 | the entries and then the table itself are freed, each cleared bit logged |
| Fs.FileSystem.IFree | kernel/fs.c:338-343 | the freeing part of iput releases exactly the inode's blocks and leaves a free inode on disk; all it changes is in the blocks it logs, which are bitmap blocks and the inode's |
| Fs.FileSystem.IAlloc | kernel/fs.c:193-213 | the lowest free inode, reinitialised, its block and no other logged; fails exactly when there is none |
| FsSteps.FreeingFits | kernel/fs.c:405-433 | a transaction that only frees logs at most the bitmap and one block more, and stays within its reservation on a disk of up to eight bitmap blocks |
| FileIo.WriteChunk | kernel/file.c:139-144 | one transaction splices its bytes in or changes nothing, everything it changes lies in the blocks it logs, and these never exceed its reservation |
| FileIo.PutLast | kernel/fs.c:331-351 | the transaction that drops the last reference to an inode without links: its blocks and no others become free, and everything it changes lies in the blocks it logs |
| FileIo.WriteNext | kernel/file.c:134-151 | one round of the loop: a whole chunk more, an error that changes nothing, or the panic on a device that takes part of a chunk, as the device answers |
| FileIo.FileWrite | kernel/file.c:116-155 | the accepted bytes are those the offset advanced by, spliced in chunk by chunk; all or -1, exactly when they fit; a device leaves the disk alone, took every piece before the offset whole, and refused the next one or panicked the kernel by taking part of it; no chunk exceeds its reservation |
| FileIo.SpliceMore | kernel/file.c:134-151 | splicing chunk after chunk is splicing the whole |
| Storage.ChangesSurvive | kernel/file.c:122-151 | wherever a run of such transactions, writing chunks and freeing inodes, stops, the disk recovers to an image that spells out a consistent file system, the one after a whole number of them, with every acknowledged one among them |
| Storage.AfterNext | kernel/file.c:139-144 | each of those file systems follows from the one before by one chunk written or one inode freed |
| Storage.OpSpells | kernel/fs.c:217-235 | a transaction that logs what it changes turns an image of the old file system into one of the new |
| Storage.CutSpells | kernel/log.c:11-15 | a history cut between operations gives the image after the operations before the cut |
| Storage.SpeltSpells | kernel/fs.h:13-48 | every consistent file system whose fields fit has an image that spells it out |
| Storage.SpellsOne | kernel/fs.h:13-48 | an image spells out one file system only |
| DiskFormat.PutBitInIs | kernel/fs.c:54-60 | a bit written into a bitmap block is read back, and every other bit is as before |
| DiskFormat.PutDinodeInIs | kernel/fs.c:225-234 | an inode copied into its block is read back field by field, and the other inodes of the block are as before |
| Mkfs.Image.constructor | tools/mkfs.c:170-192 | the empty image owns its metadata blocks only |
| Mkfs.Image.IAlloc | tools/mkfs.c:294-306 | the next inode, with nothing in it |
| Mkfs.Image.IAppend | tools/mkfs.c:326-368 | contents grow by exactly the given bytes, the rest of the inode and other files unchanged; fails only when blocks or file size run out |
| Mkfs.Image.AppendBlock | tools/mkfs.c:340-361 | one round of it |
| Mkfs.Image.FindBlock | tools/mkfs.c:342-357 | block fbn is found or taken from the counter |
| Mkfs.Image.FindEntry | tools/mkfs.c:348-356 | the same through the indirect table |
| Mkfs.Image.TakeSlot | tools/mkfs.c:343-350 | a fresh block enters a slot |
| Mkfs.Image.TakeEntry | tools/mkfs.c:352-355 | a fresh block enters a table |
| Mkfs.Image.Balloc | tools/mkfs.c:308-322 | the finished image satisfies the ownership and no-holes invariant; fails exactly when the bitmap exceeds a block |
| Icache.WriteThrough | kernel/fs.c:194-235 | in every run, whatever inodes iget is asked for, a valid unlocked cached inode equals the one on disk, also while iput frees inodes and ialloc reuses them |
| Icache.OneEntry | kernel/fs.c:240-282 | an inode has at most one entry in use, and its count is the number of references |
| Icache.NoTypelessLock | kernel/fs.c:286-351 | as long as every iget is safe, ilock never meets a free inode, and the inode iput frees has no other user |
| Icache.IgetTypedIff | kernel/fs.c:240-271 | iget keeps the invariant for every inode; it keeps all references to allocated inodes if and only if the inode is allocated, nobody is freeing it and no other ialloc is about to get it |
| Icache.StepTypedIff | kernel/fs.c:194-351 | no other step loses that property |
| Icache.LinkedSafe | kernel/fs.c:533-538 | an iget of an allocated inode with links is safe |
| Icache.StaleNamePanics | kernel/fs.c:308-309 | an inode that was unlinked and freed and is named once more makes ilock panic |
| IcacheStale.SafeIff | kernel/fs.c:240-309 | an iget is safe if and only if nothing that can happen after it, short of another lookup, makes ilock meet an inode without a type |
| IcacheStale.UnsafePanics | kernel/fs.c:208-351 | after an iget that is not safe some continuation panics, also for an inode that another ialloc has marked and not got yet |
| Icache.PutFreesIff | kernel/fs.c:333-345 | iput frees exactly when the entry is valid, the inode has no links and nobody else refers to it, not even while dropping its reference |
| Icache.RaceLeaks | kernel/fs.c:331-351 | two racing iputs can drop the last references without freeing the inode |
| Icache.IgetScan | kernel/fs.c:240-271 | the entry in use for the inode, else the first empty slot, in one pass |
| Icache.LocalKeeps | kernel/fs.c:286-346 | locking, loading, changing, writing back, unlocking and the steps of iput keep the invariant |
| Icache.IallocGetKeeps | kernel/fs.c:208-208 | so does the end of ialloc |
| Icache.IdupKeeps | kernel/fs.c:275-282 | so does duplicating a reference |
| Icache.DropKeeps | kernel/fs.c:348-350 | so does dropping one |
| Icache.IallocKeeps | kernel/fs.c:200-207 | so does taking any free inode, which no live entry describes |
| Icache.RunKeeps | kernel/fs.c:194-351 | the invariant holds throughout every run |
| Ide.Driver.Enqueue | kernel/ide.c:148-158 | the request goes to the end of the queue, and the device starts on it exactly when the queue was empty |
| Ide.Driver.IdeIntr | kernel/ide.c:104-131 | the first request completes with the data read or as written, the rest stay, and the device goes on with the next |
| IdeProtocol.Refines | kernel/ide.c:104-167 | a device finishing a request is the in-memory disk's iderw on the first queued buffer; queueing, interrupts, wakeups and returns change nothing there; a holder's own changes are the same on both sides |
| IdeProtocol.RunRefines | kernel/ide.c:74-167 | every run is a run of the in-memory disk |
| IdeProtocol.QuiescentIsSynchronous | kernel/memide.c:39-60 | with no request outstanding disk and buffers are those the in-memory disk leaves |
| IdeProtocol.FifoOnce | kernel/ide.c:108-131 | requests complete in order, each exactly once, and the device works on the oldest one left |
| IdeProtocol.ReturnsSynced | kernel/ide.c:160-163 | iderw returns exactly when its request is complete, with buffer clean, equal to the disk and, for a write, as given |
| IdeProtocol.ValidAgrees | kernel/bio.c:95-105 | in every run a valid buffer that is not dirty has what the disk has, so bread need not ask for it |
| IdeProtocol.SleepersQueued | kernel/ide.c:124-163 | a sleeper's request is still queued and the device at work |
| IdeProtocol.RunKeeps | kernel/ide.c:74-167 | the invariant of queue, device and waiters holds throughout |
| IdeProtocol.MemIderw | kernel/memide.c:38-60 | the in-memory disk leaves buffer and disk equal and the buffer clean |
| FreeList.InsertSorts | user/umalloc.c:30-42 | freeing a block that overlaps nothing keeps the list address-ordered with no two free blocks adjacent |
| FreeList.InsertCovers | user/umalloc.c:33-42 | merging loses and gains no unit |
| FreeList.TakeSorts | user/umalloc.c:78-88 | carving keeps order and separation, and the piece overlaps no free block |
| FreeList.TakeCovers | user/umalloc.c:78-88 | free units before are free units after plus the piece |
| FreeList.LinkInsert | user/umalloc.c:36-43 | the pointer writes of free realise the insertion |
| FreeList.LinkJoin | user/umalloc.c:33-40 | and those of a merge the merge |
| FreeList.LinkTake | user/umalloc.c:79-85 | and those of malloc the carving |
| Umalloc.FreeAccounts | user/umalloc.c:25-44 | free and live units still make up the units obtained, without overlap |
| Umalloc.TakeAccounts | user/umalloc.c:78-88 | the same after an allocation, at an address not live before |
| Umalloc.GrowAccounts | user/umalloc.c:54-58 | the same after sbrk |
| Umalloc.Heap.Free | user/umalloc.c:24-44 | the block goes into its place in the ring, merged with its neighbours, and is live no more |
| Umalloc.Heap.LinkBlock | user/umalloc.c:33-43 | all four merge cases |
| Umalloc.Heap.Morecore | user/umalloc.c:46-61 | one sbrk for the larger of the request and 4096 units; null, and nothing changed, exactly when it fails; otherwise the new block has been freed into its place in the list |
| Umalloc.Heap.Malloc | user/umalloc.c:63-93 | next fit: n units off the first block behind freep that has them; sbrk is called, once, if and only if no block in the list has them, as always on the first call; null if and only if that sbrk fails, with list and live blocks as they were; otherwise a fresh block, large enough if and only if the rounding did not wrap, and nothing else live changes |
| Umalloc.Heap.Search | user/umalloc.c:77-92 | the loop: first fit from freep on, sbrk exactly when a whole round found nothing, then first fit in the grown list |
| Umalloc.Heap.Carve | user/umalloc.c:78-87 | the whole block or its end is taken, and freep is left at the block before |
| Umalloc.Heap.Start | user/umalloc.c:73-76 | the first call makes a ring of one empty block |
| Umalloc.UnitsFit | user/umalloc.c:72-72 | the rounded size holds the request if and only if the addition does not wrap, and is then the smallest that does |
| Umalloc.WrappedSize | user/umalloc.c:72-72 | the largest argument gets a block that is all header |
| Umalloc.RequestFits | user/umalloc.c:52-54 | sbrk is asked for the needed bytes if and only if there are fewer than 2^28 units |
| Umalloc.SizeLimit | user/umalloc.c:54-72 | both together are one limit on the argument |
| VmRange.NoSharing | kernel/vm.c:95-108 | a page of user memory appears at one address of one address space, is no page table and is not free |
| VmSpec.AddTable | kernel/vm.c:44-57 | a new table, its directory entry writable and for the user, changes no mapping and keeps ownership |
| VmRange.PageDecides | kernel/vm.c:52-57 | directory entries never restrict: whether an address may be written, or used by user code, is decided by its page's flags |
| VmSpec.AddUser | kernel/vm.c:76-79 | mapping a page makes it that address's page and changes no other mapping |
| VmSpec.RemoveUser | kernel/vm.c:283-290 | a mapped user page is owned by that address; unmapping and freeing it changes no other |
| VmSpec.AddOther | kernel/vm.c:76-79 | mappings above user memory change no ownership |
| VmSpec.DropSpace | kernel/vm.c:298-312 | freeing a directory with its tables keeps every other address space |
| VmRange.SkipTable | kernel/vm.c:281-282 | where a directory entry is absent the rest of its 4MB holds no page |
| VmRange.GrowUndone | kernel/vm.c:248-260 | growing part way and then freeing the range leaves nothing behind but tables |
| VmRange.DropNew | kernel/vm.c:365-367 | dropping an address space that was just made gives back exactly what it took |
| Vm.Machine.Kalloc | kernel/kalloc.c:82-95 | the head of the free list, or 0 exactly when it is empty |
| Vm.Machine.Release | kernel/kalloc.c:59-77 | giving back an unmapped page keeps every mapping |
| Vm.Machine.FreeRange | kernel/kalloc.c:46-53 | exactly the given pages join, as free ones |
| Vm.Machine.Walk | kernel/vm.c:35-60 | the table for the address; 0 exactly when absent and not made; no mapping changes |
| Vm.Machine.Lookup | kernel/vm.c:35-60 | the entry of an address, without allocation |
| Vm.Machine.MapPage | kernel/vm.c:73-84 | one mapping is entered and no other changes; the panic is an entry already present; failure changes nothing |
| Vm.Machine.MapPages | kernel/vm.c:65-87 | a range is mapped to consecutive frames, and nothing outside it |
| Vm.Machine.AllocDirectory | kernel/vm.c:131-133 | a new empty directory |
| Vm.Machine.SetupKvm | kernel/vm.c:124-147 | a fresh address space with the kernel map and nothing below it or between memory and devices, or 0 and everything given back |
| VmRange.KernelLinear | kernel/vm.c:111-122 | from 2GB to the top of physical memory a page is mapped to its address minus 2GB, devices to themselves, text and read-only data not writable, none of it for the user |
| Vm.Machine.AllocUvm | kernel/vm.c:234-263 | fresh zeroed pages in exactly the new range, or, only when memory ran out, every user page it added freed again |
| Vm.Machine.AddPage | kernel/vm.c:247-260 | one zeroed page is added, or nothing is mapped |
| Vm.Machine.UndoWithPage | kernel/vm.c:255-260 | giving up with a page in hand frees that page too |
| Vm.Machine.DeallocUvm | kernel/vm.c:269-293 | exactly the mapped pages of the range are unmapped and freed, none lost by the 4MB skip |
| Vm.Machine.UnmapOne | kernel/vm.c:283-290 | one page is freed and its entry cleared |
| Vm.Machine.FreeVm | kernel/vm.c:297-312 | every page of the address space is free afterwards and no other page |
| Vm.Machine.FreeTables | kernel/vm.c:305-310 | each table of the directory is freed once |
| Vm.Machine.CopyUvm | kernel/vm.c:329-368 | the kernel map, fresh pages with equal contents and flags and nothing else below the kernel, or, only when memory ran out, everything given back |
| Vm.Machine.CopyPage | kernel/vm.c:341-361 | one page of it |
| Shared.MapPa2Va | kernel/vm.c:418-453 | the child's pages are the parent's from the region's first page on; -1 if the limit, an absent parent page or a taken child page is in the way, and otherwise only for lack of memory |
| Shared.LinkPhysAddr | kernel/vm.c:457-487 | all regions follow each other in the child, each of their pages for the user and writable exactly when asked for, the table points at them, nothing else changes; fails only by lack of memory, a region that cannot be mapped or a table without an end |
| Shared.LinkRegion | kernel/vm.c:476-483 | one region behind the others, which stay shared |
| Shared.Aliased | kernel/vm.c:428-452 | byte i has the same physical address in both as long as it lies within the rounded size counted from the first page |
| Shared.AliasedIff | kernel/vm.c:428-452 | any byte counted from any region, all in the parent's user memory: it is shared if and only if its page in the child belongs to that region or to a later one that lies equally far from the parent's pages |
| Shared.InRegion | kernel/vm.c:428-452 | wherever the regions lie: a byte whose page in the child belongs to region j is shared if and only if the parent has the same frame at both places |
| Shared.CoveredIff | kernel/vm.c:429-431 | the last region, with nothing mapped behind it, is shared byte for byte if and only if its offset and size fit the rounded size |
| Shared.LostByte | kernel/vm.c:429-431 | a parent with two pages, in a state the invariant allows, shares two bytes across their boundary: the child does not have the second |
| Shared.Disjoint | kernel/vm.c:482-483 | regions occupy disjoint ranges from SHAREBASE on |
| Shared.FreeChild | kernel/vm.c:298-312 | freeing the child leaves every page of the parent mapped, owned and unchanged |
| SleepLock.MutualExclusion | kernel/sleeplock.c:22-42 | at most one process holds the lock, in every run of any number of processes |
| SleepLock.NoLostWakeup | kernel/sleeplock.c:23-42 | a sleeper means the lock is held or a releaser with the inner lock is about to wake everybody |
| SleepLock.WakeupArrives | kernel/proc.c:489-506 | a pending wakeup stays pending until nobody sleeps on the lock |
| SleepLock.HoldingSleep | kernel/sleeplock.c:44-53 | holdingsleep is true for the holder and for nobody else, and the recorded pid is zero exactly when the lock is free |
| SleepLock.NoDeadlock | kernel/sleeplock.c:22-42 | while anybody is inside acquiresleep, the critical section or releasesleep, one of them can act |
| SleepLock.RunKeeps | kernel/proc.c:449-485 | the invariant survives the release of the lock before the state change |
| Pipe.Ring.Put | kernel/pipe.c:91-91 | the byte joins the queue, across wrap-around of the counters |
| Pipe.Ring.Get | kernel/pipe.c:114-114 | the oldest byte leaves the queue |
| Pipe.Ring.Tests | kernel/pipe.c:83-104 | the comparisons of the counters are full and empty |
| Pipe.Ring.Fill | kernel/pipe.c:82-92 | as many bytes go in as fit, in order |
| Pipe.Ring.Drain | kernel/pipe.c:111-115 | as many bytes come out as there are and were asked for, in order |
| PipeProtocol.ReadsArePrefix | kernel/pipe.c:76-119 | under every interleaving the bytes read are a prefix of the bytes that entered the pipe, at most PIPESIZE behind |
| PipeProtocol.WritesArrive | kernel/pipe.c:76-97 | the bytes that entered, taken writer by writer, are exactly what each writer was given, in order, less the rest a call in progress still holds; a call that returned its count has put in all it was given |
| PipeProtocol.ReadGives | kernel/pipe.c:100-119 | a read that returns bytes takes the oldest, as many as asked for or all there are, and gives back just those; from an empty pipe that can still be written it fails exactly when killed and sleeps otherwise |
| PipeProtocol.WriteGoes | kernel/pipe.c:82-96 | a write returns its count when its bytes are in; with bytes left and the pipe full it fails exactly when killed or nobody can read, and sleeps otherwise |
| PipeProtocol.CloseEnds | kernel/pipe.c:58-73 | once the writing end is closed nothing more enters and no reader sleeps, once the reading end is closed nothing more leaves and no writer sleeps |
| PipeProtocol.StepSleep | kernel/pipe.c:59-119 | sleepers stay justified by every step except exactly a killed writer's return that leaves readers asleep |
| PipeProtocol.RunSleep | kernel/pipe.c:59-119 | without that return a sleeping writer faces a full pipe with a reader and a sleeping reader an empty one with a writer |
| PipeProtocol.ReaderStranded | kernel/pipe.c:84-87 | that return leaves a reader asleep beside a full pipe |
| ProcTable.Ptable.Wakeup1 | kernel/proc.c:489-497 | exactly the sleepers on the channel become runnable |
| ProcTable.Ptable.Kill | kernel/proc.c:511-529 | the first entry with the pid is marked and, if asleep, made runnable, all else kept; fails exactly when there is none |
| ProcTable.Ptable.AllocProc | kernel/proc.c:80-94 | the first unused entry becomes an embryo with a new pid |
| ProcTable.Ptable.Exit | kernel/proc.c:280-295 | the parent is woken, children go to init, which is woken if it inherits a zombie, and the caller becomes a zombie |
| ProcTable.Ptable.PassChildren | kernel/proc.c:286-292 | the interleaved scan and wakeups amount to that |
| ProcTable.Ptable.Wait | kernel/proc.c:309-341 | the first zombie child is reaped, which leaves an unused entry without pid, parent or mark, or -1 without children or when killed, or sleep |
| ExitWait.ParentsLive | kernel/proc.c:192-298 | in every run each live or zombie process but init has a live parent |
| ExitWait.NoMissedExit | kernel/proc.c:280-340 | nobody sleeps in wait beside a zombie child, after reparenting too |
| ExitWait.ReapedOnce | kernel/proc.c:303-342 | nobody exits or is reaped twice, and those that exited are exactly the zombies and the reaped |
| ExitWait.ReapedByParent | kernel/proc.c:313-330 | only wait reaps, and only a zombie whose parent is the caller |
| ExitWait.StepClean | kernel/proc.c:224-230 | only fork's exit on a full table leaves an unused entry with a parent |
| ExitWait.WaitEnds | kernel/proc.c:303-342 | without that exit, who sleeps in wait has a child that can still exit |
| ExitWait.StrandedWait | kernel/proc.c:224-340 | with it, a child of init comes to sleep in wait though it has no child |
| ExitWait.KillReaches | kernel/proc.c:511-529 | kill marks the first entry with the pid, leaves it not asleep, and changes nothing else |
| ExitWait.StepUnmarked | kernel/proc.c:80-529 | unused entries stay unmarked by every step except exactly a kill whose pid is found in one and a fork that gives up on a killed child |
| ExitWait.BornUnmarked | kernel/proc.c:80-94 | without those a new process starts unmarked |
| ExitWait.BornMarked | kernel/proc.c:511-529 | a kill of pid 0 finds an unused entry, and the next process is born marked |
| ExitWait.ExitKeeps | kernel/proc.c:253-298 | exit keeps the invariant |
| ExitWait.WaitKeeps | kernel/proc.c:303-342 | wait keeps it |
| ExitWait.ForkKeeps | kernel/proc.c:199-234 | fork's unlocked writes keep it |
| ExitWait.AllocKeeps | kernel/proc.c:75-122 | taking an entry keeps it |
| ExitWait.RunKeeps | kernel/proc.c:192-529 | it holds throughout every run |
| Grep.Match | user/grep.c:72-82 | true if and only if some substring, anchored as written, is in the pattern's language |
| Grep.MatchHere | user/grep.c:85-97 | true if and only if some prefix is |
| Grep.MatchStar | user/grep.c:100-108 | true if and only if the rest matches after some number of fitting characters |
| Grep.AcceptsCons | user/grep.c:85-97 | a pattern matches by splitting the text between its first item and the rest |
| Grep.DollarCases | user/grep.c:90-93 | the order of the tests makes "$*" a starred dollar sign and an inner dollar an ordinary character |
| ShGrammar.LexWords | user/sh.c:268-311 | the words of a line are its maximal runs of word characters, each once |
| ShGrammar.LineWords | user/sh.c:347-449 | a tree holds exactly the words of the tokens it stands for |
| ShOrder.LineOrder | user/sh.c:347-449 | in a tree for a tidy stretch of tokens arguments stand in the order of the text, pipes and lists keep left before right, an outer redirection is behind an inner one, and a word is a file exactly when a redirection sign stands before it, with the mode and descriptor of that sign |
| ShOrder.LineTidy | user/sh.c:268-311 | the tokens of a line follow each other in it |
| Sh.Parser.GetToken | user/sh.c:268-311 | the next token, by kind, with its bounds |
| Sh.Parser.Peek | user/sh.c:313-323 | whether the next token starts with one of the symbols |
| Sh.Parser.ParseRedirs | user/sh.c:377-400 | all redirections that follow, in order; fails exactly when a file is missing |
| Sh.Parser.ParseExec | user/sh.c:418-449 | the simple command that is there, or failure exactly when none is |
| Sh.Parser.ParseArgs | user/sh.c:434-447 | the loop over arguments, within MAXARGS: the one simple command of the grammar |
| Sh.Parser.ParseBlock | user/sh.c:402-416 | the block that is there, or failure exactly when none is |
| Sh.Parser.ParsePipe | user/sh.c:364-375 | the pipe that is there, or failure exactly when none is |
| Sh.Parser.ParseLine | user/sh.c:347-362 | the line that is there, or failure exactly when none is |
| Sh.Parser.Nulterminate | user/sh.c:452-496 | a NUL exactly where a word of the tree ends |
| Sh.Parser.ParseCmd | user/sh.c:330-345 | accepts exactly the lines of the grammar with fewer than MAXARGS arguments per command, returns the only tree, which holds each word of the line once, arguments in the order of the text, an outer redirection behind an inner one, each word in the part its neighbour in the text gives it, and leaves every word readable as a string of its own in the shared buffer |

## Left out

- Boot code, interrupt controllers, console, traps and context switch: hardware set-up; the disk is a block map and a switch is a scheduling step.
- The scheduler's fairness and the liveness of sleepers: only safety is proved.
- `sys_get_shared`: its sleep on something that is not a lock and its use of program names have no contract.
- Directories, path lookup, `exec`, system-call arguments and file descriptors: mostly easy members on top of what is here.
- Link counts of directories: the initial image does not start with exact ones.
- Names and modes in the shell beyond the open flags, `runcmd`, and grep's line buffering.
- `initsleeplock`, `idup`'s callers, `stati` and other small members.
- Bio.Bcache.Bget: `acquiresleep` is modelled where the lock is free; waiting for it is the subject of SleepLock.
- Bio.Bcache.Bread: as for Bio.Bcache.Bget, the buffer's lock is free.
- Bio.Bcache.Brelse: a buffer changed and neither written nor logged before its release is outside the model.
- Shared.MapPa2Va: the clean-up after a failed mapping is not modelled, so nothing is said of the memory after a failure.
- Shared.LinkPhysAddr: its error return is never taken in the code because an unsigned size is compared with zero; nothing is said of the memory after a failed region, nor of what lies behind a full table.
- Shared.AliasedIff: regions of the parent that lie in its own shared area may name a frame twice; Shared.InRegion covers them.
- ExitWait.ReapedOnce: process ids are unbounded; the wrap-around of `nextpid` is not modelled.
- Icache.WriteThrough: one device; the panic for a full cache is a step that is not taken.
- IdeProtocol.Refines: the panics on a block number out of range and on a missing disk are outside the machine.
- LogTheorems.CrashAtomicity: excludes runs in which write_log begins with a list as long as the log area; LogReserve.OverrunTears shows what happens there.
- LogTheorems.NeverLost: the same runs.
- LogTheorems.ReadsAreCoherent: the same runs.
- LogTheorems.RunKeeps: the same runs.
- LogCode.Log.Commit: the same, for the loops: the list is shorter than the log area.
- LogCode.Log.RecoverFromLog: the disk is one a commit or a recovery can leave, so its header names blocks that fit.
- LogCode.Log.ReadHead: a header whose count is no count of blocks is outside the model; no write produces one.
- Storage.ChangesSurvive: the transactions of the history follow each other; reads, commits and crashes interleave with them as in any run.
- Umalloc.Heap.Malloc: sizes of 2^28 units and more, for which morecore asks sbrk for a wrapped size.
- Umalloc.Heap.Morecore: the same requests.
- Vm.Machine.MapPages: whole pages from SHAREBASE on that are not mapped yet, as `setupkvm` and `mappa2va` use it; a single page of user memory is Vm.Machine.MapPage.
- Vm.Machine.DeallocUvm: sizes up to SHAREBASE; only the clean-up of a failed mapping in `mappa2va`, left out above, passes more.
- Fs.FileSystem.Balloc: the bitmap is a sequence of truth values here; Bitmap relates it to the bytes of a block.
