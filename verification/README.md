# GreenOS kernel and user tools: models and proofs

GreenOS is xv6-riscv with an energy-aware scheduler. This project models the parts of it whose
correctness is a matter of whole runs, and proves what they keep. Every module stands for one
component:

| files | component |
|---|---|
| `param.dfy` | the constants of `kernel/param.h` that several components share |
| `log_model.dfy`, `log_safety.dfy`, `log_theorems.dfy`, `log_progress.dfy`, `log_witness.dfy`, `log_code.dfy` | the write-ahead log over the buffer cache: a state machine in which every cache operation and every single block write is one step and a crash may fall between any two; its invariant; the theorems over all runs; when there is a buffer to be had; runs that reach the panics of `log_write` and `bget`; and `log.c` as a class each of whose block writes is a step of that machine, while other threads use the same buffers |
| `buffer_ring.dfy` | the doubly linked LRU ring of `bio.c` |
| `fs_format.dfy`, `fs_model.dfy`, `fs_layout.dfy`, `fs_code.dfy` | bitmap allocator, inode block maps, `readi`, `writei`, `itrunc` and the inode branch of `filewrite`, over the bytes of disk blocks, and where each byte is |
| `fs_threads.dfy`, `fs_threads_safety.dfy`, `fs_threads_theorems.dfy`, `fs_threads_own.dfy` | any number of threads inside those calls at once, interleaved between any two buffer accesses |
| `fs_log.dfy` | the file system's threads on top of the log machine, with crashes |
| `vm_format.dfy`, `vm_model.dfy`, `vm_pages.dfy`, `vm_code.dfy` | physical pages and Sv39 page tables over the bytes of memory, and the flat map they stand for |
| `vm_image.dfy`, `vm_layout.dfy`, `vm_user.dfy` | what a process sees of its memory, down to bits and bytes: `sbrk`, page faults, `copyin`, `copyout`, fork |
| `proc_model.dfy`, `proc_safety.dfy`, `proc_theorems.dfy`, `proc_sleep.dfy`, `proc_family.dfy`, `proc_progress.dfy`, `energy.dfy` | processes, CPUs and locks of `proc.c` as interleaved steps; sleep, wakeup and kill; parents and children; the order in which locks are taken; and the energy ranking |
| `free_list.dfy` | `malloc` and `free` of `umalloc.c` |
| `virtio_disk.dfy`, `virtio_state.dfy`, `virtio_progress.dfy`, `virtio_code.dfy` | driver, interrupt handler and device around the virtio queue (sections 2.6 and 5.2 of VIRTIO 1.1) |
| `shell_grammar.dfy`, `shell_laws.dfy`, `shell_lex.dfy`, `shell_code.dfy` | the shell's parser: the parse functions on tokens, the language as a grammar apart from them, how tokens are spelled, and the cursor code of `sh.c` |
| `grep.dfy`, `grep_laws.dfy` | the matcher and the line loop of `grep.c`, and what patterns match |

`dafny verify dfyconfig.toml` checks everything.

## How the parts are stated

**Log.** A run is any sequence of enabled steps from any disk whose log recovers to some contents.
`base` is what the disk recovers to and `txns` the transactions committed so far. `CrashAtomicity` says
that after every run, with crashes anywhere and recoveries interrupted any number of times, the home
blocks recover to the transactions whose first `write_head` happened, all of them and nothing else.
`Durability` says the same between any two points of a run: whatever the disk recovered to at the
first, it recovers at the second to that followed by the transactions committed in between. The
machine's cache carries reference counts, locks and pins, so the proof covers eviction: a logged block
cannot leave the cache before it is installed, and what `write_log` copies is the last update of the
block, also while readers recycle buffers. `log_write` tests for a full log before it looks for the
block (`kernel/log.c:221`), so it also panics on a block that would have been absorbed;
`LogReservation` states exactly when, and `AbsorbedWriteCanPanic` gives a run of operations within
their reservations that gets there. Every method of `LogCode.Log` that reads blocks says why it may
fail: all NBUF buffers are referenced, or a lock is held by a thread that does nothing more. With no
other thread using a buffer, recovery never fails, and the end of the last operation commits if and only
if the log has fewer than NBUF blocks. It can have that many: NBUF equals LOGBLOCKS, so operations that
keep to their reservations can fill the log with as many pinned buffers as the cache has
(`FullLogCannotCommit`), and then `write_log` panics in `bget` (`kernel/bio.c:88`).

**File system.** `FsOk` relates the bitmap bytes, the inodes and the indirect blocks through one owner
per block, apart from blocks that some thread has on their way into or out of an inode. The class
`FileSystem` is one thread's calls among others with blocks of their own in transit (`others`), and
`FsThreads` is the machine in which all threads interleave between any two buffer accesses, each with
its own inode locked. In every state of every interleaving the invariant holds, and when no thread is
inside a call `QuietIsExact` restates it without the ghost owner: the bitmap is exact. `OwnStep` and
`FileStays` say what each step does to the file that its thread has locked, and to all others. A file is the
byte sequence `File(blk, inode)`; `FsLayout` says which byte of which block each byte of it is, and where
the fields of an inode and the bits of the bitmap are. `FileSystem.Run` shows that any sequence of reads, writes and
truncations behaves as the same sequence on plain byte strings, with a short write only on a full
disk. A `filewrite` chunk is 3072 bytes; `Writei` proves that it logs at most MAXOPBLOCKS blocks, the
bound on which the log's reservation rests. The bound is exactly 10 and needs that an unaligned write
starts in a block that is already mapped. `FsLog` runs the threads' block writes through the log:
wherever a run stops, the disk recovers to a file system that was the current one at a moment of that
run with no thread inside a call.

**Virtual memory.** `VmOk` gives each physical page one use. `TreeRefinesMap` says that the three-level
walk of section 4.4.1 of the RISC-V privileged architecture (version 20211203) finds exactly what the
flat map says; `VmLayout` says which bytes and bits those entries are. `starved` records that `kalloc` has
returned 0. Every call either does what its specification on byte strings says, or the free list was
shorter than three pages for each page that the call may have to map (the page and two tables), the call
reports failure and the memory that the process sees is as before, but for the part that `copyout` had
already stored. `LazyEqualsEager` runs the
same calls with any two choices of lazy and eager growth and observes the same bytes, given enough
memory. A user access in the part of the last page above `sz` is outside that statement: `vmfault`
refuses it, so it succeeds exactly if the page is already there (`Process.Touch`).

**Processes.** A step is what happens between two lock operations of one CPU. `History` is any
interleaving on any number of CPUs and processes. A scheduler keeps the lock of the best process so far
while it takes the next one; `NoDeadlock` follows every wait to a CPU that can go on. `StateDiagram` gives
the state of every process after every step, both what changes it and what does not, and with it what the
counters of the energy profile count. `NoLostWakeup` and `WakeupReachesAll` are what sleep and wakeup promise;
`ParentsChange`, `EveryoneHasParent` and `WaitGivesUp` what fork, exit and wait do. The energy ranking
is advertised as favouring processes that sleep; `ActivityHelpsUnlessFirst` gives the exact case where it
does not.

**Disk.** The driver's steps are allocating and formatting a chain, storing its head in the avail ring,
and advancing the index; the device's are taking a chain, carrying it out or failing to, storing the
answer and advancing the index; the interrupt handler's is reading one answer. Any of these may come
between any two others. `hist` numbers the requests, so that `Run` can say over a whole run that each is
released at most once and with its own buffer, returns after that, and none is lost. `Drain` is the
other half: from wherever a run has come to, as long as the device reports no error, some step is
possible until every process has returned, and each brings that nearer by one. Eight descriptors make two
requests at a time: `Prepare` has to wait exactly if two are outstanding.

**Shell.** `ShellLaws` defines the language without reference to the parser: words and redirections in any
order, pipelines, lists, background commands and groups, each with the tree that it means. `ShellLex` does
the same for the text of tokens. `ParseCommand` panics exactly on a text that is not in the language, and
otherwise returns what it means.

**Allocator.** `Malloc` takes the first block after `freep` that is large enough, or the end of it, and the next
search starts from the node before; `OneChoice` says that this determines the result.

**grep.** A line of 1024 bytes or more including its newline fills the buffer and ends the scan
(`user/grep.c:18`), so the output is the matching lines before the first such line, and a last line
without a newline is never printed. The scan for newlines also stops at a NUL for good, so what follows a NUL is never printed.
`Search` and `PrintsMatchingLines` state this for all inputs, and the plain statement for inputs without
long lines. `GrepLaws` says what a pattern matches in terms of its characters.

## Model

| member | source | states |
|---|---|---|
| `LogModel.HeaderRoundTrip` | kernel/log.c:87-115 | read_head reads back exactly the list of block numbers that write_head encoded: the count in word 0, the numbers from word 1 on, and the words after them as they were |
| `LogModel.RecoveryWrittenOut` | kernel/log.c:66-98 | what a disk recovers to, in words of its header: block number i of the header recovers to the i-th block behind it, and all others stay |
| `LogSafety.StepKeeps` | kernel/log.c:66-236 | every step of the log and cache machine, including a crash, keeps the whole invariant |
| `LogSafety.InstallIsIdempotent` | kernel/log.c:66-84 | copying a log entry home, once or again, changes nothing about what the disk recovers to |
| `LogSafety.CommitHeadStores` | kernel/log.c:103-115 | the header write that commits turns "recovers to the old contents" into "recovers to the old contents with the whole transaction applied" |
| `LogSafety.DiskIsCurrent` | kernel/bio.c:58-103 | a block that is neither pinned nor being modified is current on disk, so filling a recycled buffer never loses a logged update |
| `LogSafety.RecycleKeeps` | kernel/bio.c:58-89 | evicting any unreferenced buffer keeps the invariant: no pinned block is ever evicted |
| `LogSafety.RoomForReserved` | kernel/log.c:127-143 | an operation with unused reservation always finds room in the log |
| `LogTheorems.RunKeeps` | kernel/log.c:66-204 | after any run the invariant holds and the recoverable contents are the initial ones with the committed transactions replayed |
| `LogTheorems.CrashAtomicity` | kernel/log.c:66-124 | over any run with any crashes, the disk recovers to exactly the transactions whose first write_head reached the disk, and while running the home blocks hold them |
| `LogTheorems.Durability` | kernel/log.c:194-204 | whatever contents the disk recovers to at some point of a run, at any later point, crashes included, it recovers to those followed by exactly the transactions committed since, in order; and while the log is idle every home block holds that |
| `LogTheorems.RecoveryIsUnique` | kernel/log.c:117-124 | a disk with its log recovers to only one contents of the home blocks |
| `LogTheorems.OperationsAreAtomic` | kernel/log.c:127-176 | committed transactions contain only ended operations, and no operation is split over two commits |
| `LogTheorems.CachedReadIsOverlay` | kernel/log.c:179-236 | in every run, in every phase outside recovery, a held buffer of a home block equals the committed history overlaid with the open transaction, which is also the disk overlaid with it while nothing is being installed; and every logged block stays cached with those contents until it is installed |
| `LogTheorems.WriteLogCapturesLast` | kernel/log.c:179-192 | while write_log runs, everything the open transaction changed is listed, and every log block already written holds the last update of its block |
| `LogTheorems.LogReservation` | kernel/log.c:127-236 | in every reachable state the list has at most LOGBLOCKS distinct blocks; log_write panics exactly on a full list, and then its block is already listed and no operation has reservation left |
| `LogProgress.SpareBuffer` | kernel/bio.c:58-89 | in every reachable state in which only one client uses buffers, there is a buffer that is free or unreferenced as long as the blocks pinned by the log and those that the client has are fewer than NBUF |
| `LogProgress.FullHasNone` | kernel/bio.c:77-88 | while a log of NBUF blocks is being written, every buffer is referenced and none holds a log block |
| `LogProgress.CacheFits` | kernel/param.h:11 | no run brings more than NBUF blocks into the cache |
| `LogWitness.AbsorbedWriteCanPanic` | kernel/log.c:215-236 | a run from boot, by operations within their reservations, after which log_write of a block that is already listed panics |
| `LogWitness.FullLogCannotCommit` | kernel/bio.c:58-89 | a run from boot, by operations within their reservations that have all ended, after which the log is full, no buffer is in use by anyone, and yet bget finds none for the first log block |
| `LogCode.Log.constructor` | kernel/log.c:53-63 | a log over any recoverable disk starts in the machine's boot state |
| `LogCode.Log.Crash` | kernel/log.c:117-124 | from any reached state the loss of memory leads to boot, with the committed transactions unchanged |
| `LogCode.Log.Bget` | kernel/bio.c:58-89 | takes a reference on the cached buffer, whoever else uses it, or recycles an unreferenced one, evicting nothing else; fails exactly if the block is not cached and all NBUF buffers are referenced |
| `LogCode.Log.Recycle` | kernel/bio.c:77-88 | a block that is not cached takes a new or an unreferenced buffer; a referenced one is never evicted |
| `LogCode.Log.Bread` | kernel/bio.c:92-103 | while other threads go on using buffers, the caller ends up holding the block besides what it held, and nothing but the cache changes; it fails only if all NBUF buffers are referenced or another thread holds the lock and does nothing more; alone, exactly if the block is not cached and all buffers are referenced |
| `LogCode.Log.LockFilled` | kernel/bio.c:92-103 | a referenced buffer is locked and valid in the end, with the disk's contents if it was not; fails only if its lock is never released |
| `LogCode.OthersOnlyUseBuffers` | kernel/log.c:127-204 | while a commit or a recovery runs, every step that another thread can take changes nothing but the cache |
| `LogCode.Log.OtherStep` | kernel/bio.c:58-137 | another thread's use of a buffer is a step of the machine and leaves every buffer that the running thread uses or has locked as it was |
| `LogCode.Log.Others` | kernel/bio.c:58-137 | the same for any number of such steps |
| `LogCode.Log.AcquireSleep` | kernel/bio.c:69-71 | waits until the buffer's lock is free, takes it, and the caller's other buffers are undisturbed; fails only if another thread still holds it when no thread does anything more |
| `LogCode.Log.LockBuf` | kernel/bio.c:69-71 | a referenced unlocked buffer becomes the caller's |
| `LogCode.Log.FillBuf` | kernel/bio.c:92-103 | a locked buffer becomes valid, with the disk's contents if it was not |
| `LogCode.Log.Put` | kernel/bio.c:116-137 | one reference and the lock of that buffer are given up, nothing else |
| `LogCode.Log.Brelse` | kernel/bio.c:116-137 | the caller gives up exactly that buffer, while other threads go on |
| `LogCode.Log.ReadEntry` | kernel/log.c:75-76 | log block and home block of an entry are both held, or there was no buffer, or a lock that is never released; alone, it succeeds wherever the log leaves a buffer for the log block, and fails while a log of NBUF blocks is being written |
| `LogCode.Log.ReleaseEntry` | kernel/log.c:81-82 | both buffers of an entry are released |
| `LogCode.Log.WriteHead` | kernel/log.c:103-115 | with n > 0 the transaction is committed, with n == 0 the log is erased, in one block write; it fails only for want of a buffer or of a lock that is never released, and alone not where the log leaves a buffer for the header |
| `LogCode.Log.PutHead` | kernel/log.c:107-113 | the encoded header is written in one block write, which commits or erases as above |
| `LogCode.Log.EncodeHead` | kernel/log.c:107-112 | the loop writes the count and the block numbers into the header buffer and leaves its other words |
| `LogCode.Log.WriteLogEntry` | kernel/log.c:184-191 | one turn of write_log's loop advances the machine by one copied block; alone, it fails exactly if the log has NBUF blocks |
| `LogCode.Log.CopyCacheToLog` | kernel/log.c:187-188 | the cached contents reach the log block |
| `LogCode.Log.WriteLog` | kernel/log.c:179-192 | all listed blocks are in the log; it fails only for want of a buffer or of a lock that is never released; alone, exactly if the log has NBUF blocks |
| `LogCode.Log.InstallEntry` | kernel/log.c:71-83 | one turn of install_trans advances the machine by one installed block; alone, it does not fail in recovery or with fewer than NBUF blocks in the log |
| `LogCode.Log.CopyLogHome` | kernel/log.c:77-80 | the log block reaches its home block and, unless recovering, is unpinned |
| `LogCode.Log.InstallTrans` | kernel/log.c:66-84 | all listed blocks are home, in commit and in recovery; it fails only for the same causes; alone, not in recovery and not with fewer than NBUF blocks in the log |
| `LogCode.Log.Commit` | kernel/log.c:194-204 | every home block on disk equals the open transaction's view; the transaction is appended to the committed ones unless it was empty; it fails only if all NBUF buffers are referenced or a lock is held by a thread that does nothing more; alone, exactly if the log has NBUF blocks |
| `LogCode.Log.ReadHeader` | kernel/log.c:87-98 | the in-memory list becomes the one on disk; alone, it never fails |
| `LogCode.Log.CopyHead` | kernel/log.c:91-95 | the loop copies the count and the block numbers of the header |
| `LogCode.Log.RecoverFromLog` | kernel/log.c:117-124 | every home block on disk equals the recoverable contents, and no transaction is added or lost; alone, it never fails |
| `LogCode.Log.BeginOp` | kernel/log.c:127-143 | admits the operation exactly if no commit is in progress and MAXOPBLOCKS for each outstanding operation still fit |
| `LogCode.Log.EndOp` | kernel/log.c:147-176 | the last operation to end commits: the home blocks on disk equal the view; otherwise only the operation ends; it fails only as the last and for the causes above; alone, it succeeds exactly if it is not the last or the log has fewer than NBUF blocks |
| `LogCode.Log.CommitLast` | kernel/log.c:165-175 | the commit by the last operation: home blocks on disk equal the view, the log is empty and begin_op is admitted again; alone, it succeeds exactly if the log has fewer than NBUF blocks |
| `LogCode.Log.LogWrite` | kernel/log.c:215-236 | appends the block unless it is already listed; fails exactly on a full list |
| `BufferRing.RelinkKeeps` | kernel/bio.c:126-134 | unlinking a buffer and inserting it after the head gives the cycle with that buffer moved to the front, next and prev still inverse |
| `BufferRing.FrontStaysSorted` | kernel/bio.c:116-137 | moving the buffer released last to the front keeps the ring sorted by time of release |
| `BufferRing.LastUnreferenced` | kernel/bio.c:77-87 | the first unreferenced buffer from the back is the least recently released one |
| `BufferRing.Bcache.constructor` | kernel/bio.c:36-53 | binit builds one cycle through the head and all NBUF buffers |
| `BufferRing.Bcache.Find` | kernel/bio.c:66-73 | finds the buffer of a block if there is one |
| `BufferRing.Bcache.LeastRecent` | kernel/bio.c:77-88 | finds the least recently released unreferenced buffer, or none is unreferenced |
| `BufferRing.Bcache.Bget` | kernel/bio.c:58-89 | hit, recycling of the least recently released unreferenced buffer, or failure exactly when all are referenced; at most one buffer per block of a device other than 0 |
| `BufferRing.Bcache.MoveToFront` | kernel/bio.c:128-133 | the ring stays one cycle and sorted, with this buffer first |
| `BufferRing.Bcache.Brelse` | kernel/bio.c:116-137 | one reference fewer; at zero the buffer becomes the most recently released |
| `BufferRing.Bcache.Bpin` | kernel/bio.c:139-144 | one reference more, nothing else |
| `BufferRing.Bcache.Bunpin` | kernel/bio.c:146-151 | one reference fewer on a held buffer, order unchanged |
| `FsFormat.SetBit` | kernel/fs.c:76-78 | sets one bit of a bitmap block and no other |
| `FsFormat.ClearBit` | kernel/fs.c:99-103 | clears one bit of a bitmap block and no other |
| `FsFormat.PutWord` | kernel/fs.c:431-436 | writes one little-endian word of a block and no other |
| `FsModel.BitmapIsExact` | kernel/fs.c:66-106 | a bitmap bit is set exactly for metadata and for blocks that some inode refers to, directly or through its indirect block, and then from one place only |
| `FsModel.AllocKeeps` | kernel/fs.c:66-89 | a block with a clear bit is no metadata and unowned, and taking it keeps the invariant |
| `FsModel.MarkKeeps` | kernel/fs.c:76-79 | setting a clear bit puts an unowned block in transit and changes no reference, whatever other blocks are in transit |
| `FsModel.TransitWriteKeeps` | kernel/fs.c:52-61 | writing a block in transit keeps the invariant and every reference |
| `FsModel.FreeKeeps` | kernel/fs.c:92-106 | a block in transit has its bit set, so freeing it never meets a free block |
| `FsModel.LinkEntryKeeps` | kernel/fs.c:430-438 | storing a new block in an indirect entry keeps the invariant and every other reference |
| `FsModel.UnlinkDirectKeeps` | kernel/fs.c:455-460 | a truncated inode's direct block is owned by that slot only |
| `FsModel.DetachIndirectKeeps` | kernel/fs.c:462-472 | detaching the indirect block releases exactly it and the blocks it lists |
| `FsModel.WrittenPatches` | kernel/fs.c:528-562 | blocks written at an offset up to the size give the file with those bytes replaced, and leave no hole |
| `FsModel.ChunkFits` | kernel/file.c:148-173 | a chunk of at most 3072 bytes dirties at most 10 blocks, counting data, bitmap, indirect and inode blocks, for any bitmap size |
| `FsModel.NamedByTable` | kernel/fs.c:421-441 | the block of file block bn from 12 on is named by word bn - 12 of the block that the last address names |
| `FsModel.EmptyDiskOk` | kernel/fs.h:1-60 | a concrete disk image satisfies the invariant |
| `FsLayout.DirectByte` | kernel/fs.c:411-419 | byte o of a file, below 12288, is byte o % 1024 of the block that address o / 1024 of its inode names |
| `FsLayout.IndirectByte` | kernel/fs.c:421-441 | from there on the block number is the little-endian value of bytes 4 (o / 1024 - 12) to + 3 of the block that the thirteenth address names |
| `FsLayout.SizeOnDisk` | kernel/fs.h:31-45 | the size of inode i is the little-endian word at byte 64 (i % 16) + 8 of block inodestart + i / 16 |
| `FsLayout.AddressOnDisk` | kernel/fs.h:31-45 | address k of inode i is the word at byte 64 (i % 16) + 12 + 4 k of that block |
| `FsLayout.BitsOfByte` | kernel/fs.c:76 | the eight bits of a byte, lowest first |
| `FsLayout.MarkOnDisk` | kernel/fs.h:47-51 | block x is marked exactly if bit x % 8 of byte x % 8192 / 8 of block bmapstart + x / 8192 is set |
| `FsLayout.PatchAt` | kernel/fs.c:528-562 | what a write makes of a file, byte by byte |
| `FsCode.FileSystem.constructor` | kernel/fs.c:41-48 | any image that satisfies the invariant is a file system, with any blocks in transit of other threads |
| `FsCode.FileSystem.Balloc` | kernel/fs.c:66-89 | returns the first free block, marked and zeroed, or 0 exactly when every block is marked |
| `FsCode.FileSystem.Bfree` | kernel/fs.c:92-106 | the freed block's bit was set (no panic) and only that bit is cleared |
| `FsCode.FileSystem.AllocDirect` | kernel/fs.c:411-429 | an empty address gets a fresh zeroed block owned by it; on a full disk nothing changes |
| `FsCode.FileSystem.AllocEntry` | kernel/fs.c:430-439 | an empty indirect entry gets a fresh zeroed block owned by it; on a full disk nothing changes |
| `FsCode.FileSystem.Bmap` | kernel/fs.c:405-444 | returns the mapped block unchanged, or a fresh zeroed one owned by exactly that slot; it is the block that address bn of the inode names, or from 12 on word bn - 12 of the indirect block; fails only on a full disk; bounds the blocks it logs |
| `FsCode.FileSystem.BmapEntry` | kernel/fs.c:430-439 | the same for a block behind the indirect block |
| `FsCode.FileSystem.Iupdate` | kernel/fs.c:226-242 | the disk inode reads back as the in-memory one, other inodes and blocks are unchanged |
| `FsCode.FileSystem.EncodeInode` | kernel/fs.c:233-239 | the inode's words in its block read back as its size and addresses, and no other word of the block changes |
| `FsCode.FileSystem.FreeDirect` | kernel/fs.c:455-460 | exactly the direct blocks of the inode lose their owner |
| `FsCode.FileSystem.FreeSlot` | kernel/fs.c:456-459 | exactly the block in one slot loses its owner |
| `FsCode.FileSystem.FreeEntries` | kernel/fs.c:463-469 | exactly the blocks listed in the indirect block are freed |
| `FsCode.FileSystem.FreeIndirect` | kernel/fs.c:462-472 | exactly the indirect block and what it lists lose their owner |
| `FsCode.FileSystem.Itrunc` | kernel/fs.c:448-476 | the inode is empty, exactly its blocks are unmarked, and every other file is unchanged |
| `FsCode.FileSystem.ReadPiece` | kernel/fs.c:505-517 | one turn of readi's loop returns that slice of the file and allocates nothing |
| `FsCode.FileSystem.ReadRange` | kernel/fs.c:505-517 | the loop returns the whole slice, across direct and indirect blocks |
| `FsCode.FileSystem.Readi` | kernel/fs.c:494-519 | returns exactly the requested slice cut at the file's size, nothing for an offset past the end or an overflow; changes nothing; which bytes of which blocks the file is, is `FsLayout` |
| `FsCode.FileSystem.WritePiece` | kernel/fs.c:540-550 | one turn of writei's loop overwrites those bytes of this file only, or the disk is full |
| `FsCode.FileSystem.WriteStep` | kernel/fs.c:539-551 | the bytes written so far grow by one block's worth, and the logged blocks stay within the tally |
| `FsCode.FileSystem.WriteLoop` | kernel/fs.c:539-551 | a prefix of the source is written, all of it unless the disk is full |
| `FsCode.FileSystem.Extend` | kernel/fs.c:553-559 | the size becomes the larger of old size and end, the inode is written back, no file's bytes change |
| `FsCode.FileSystem.Writei` | kernel/fs.c:528-562 | -1 exactly when the range is refused, and then nothing changed; otherwise exactly the first tot bytes replace the file's bytes at off, other files are unchanged, tot falls short only on a full disk, and a chunk of at most 3072 bytes logs at most MAXOPBLOCKS blocks |
| `FsCode.FileSystem.WriteChunk` | kernel/file.c:160-171 | one transaction of filewrite continues the write, within its reservation |
| `FsCode.FileSystem.Filewrite` | kernel/file.c:148-174 | the offset advances by what was written, which replaces exactly those bytes; returns n exactly if all was written, and otherwise says why not |
| `FsCode.FileSystem.Do` | kernel/fs.c:448-562 | one read, write or truncation answers and acts as on plain byte strings; a write falls short only on a full disk |
| `FsCode.FileSystem.Run` | kernel/fs.c:405-562 | any sequence of calls on any inodes, traced from image to image, behaves as the same sequence on plain byte strings, keeps the ownership invariant throughout, and every short write left the disk full |
| `FsThreadsSafety.StepKeeps` | kernel/fs.c:66-562 | every step of every thread inside bmap, writei or itrunc keeps the invariant: one owner or one thread per block, disk inodes up to date where no thread has yet to call iupdate, and no panic |
| `FsThreadsTheorems.InterleavingKeeps` | kernel/fs.c:66-562 | in every state that any interleaving of any number of threads reaches, the ownership invariant holds with the threads' blocks in transit |
| `FsThreadsTheorems.NoFreeBlockFreed` | kernel/fs.c:92-106 | over every interleaving, a block passed to bfree is marked, and belonged to this thread's inode or was in transit with this thread alone |
| `FsThreadsTheorems.QuietIsExact` | kernel/fs.c:66-476 | whenever no thread is inside a call the bitmap is exact, no block has two references, and the disk inodes equal the in-memory ones |
| `FsThreadsTheorems.FileStays` | kernel/fs.c:405-562 | while no thread that has a file locked acts, its inode and its bytes stay the same, whatever other threads allocate, write, truncate and free |
| `FsThreadsOwn.OwnStep` | kernel/fs.c:405-562 | what each step of a thread does to the file it has locked, whatever others are in the middle of: taking, clearing and linking blocks leaves its bytes; a write changes exactly the bytes of that block; growing keeps all bytes; from the start of itrunc on it is empty |
| `FsThreadsOwn.TruncEnds` | kernel/fs.c:448-476 | when itrunc ends the inode has size 0 and no addresses, and no block belongs to it |
| `FsLog.EventKeeps` | kernel/log.c:127-236 | every step of file system threads, log and committing thread, and every crash, keeps the joint invariant: the log's view is the threads' disk, byte for byte |
| `FsLog.RecoversToGoodFileSystem` | kernel/log.c:66-204 | wherever a run of the file system on the log stops, all that the disk can recover to is a file system with an exact bitmap and up-to-date inodes, with no call half done |
| `FsLog.SavedWasCurrent` | kernel/log.c:147-176 | that file system was the current one at some earlier moment of the same run, with no thread inside a call |
| `FsLog.NothingPending` | kernel/log.c:194-204 | once no update waits for a commit, the recoverable file system is the current one, block for block |
| `VmFormat.PutEntry` | kernel/riscv.h:347-348 | writes one 64-bit page-table entry of a page and no other |
| `VmFormat.PteParts` | kernel/riscv.h:358-369 | frame and flags of a composed entry read back |
| `VmLayout.EntryBits` | kernel/riscv.h:358-369 | the bits of an entry: V, R, W, X and U are bits 0 to 4, of value 1, 2, 4, 8 and 16, the flags are the low ten bits and the page number starts at bit 10; what is valid, readable, writable, the user's and a leaf follows from them exactly |
| `VmLayout.EntryBytes` | kernel/riscv.h:347-348 | entry i of a table is the little-endian value of bytes 8 i to 8 i + 7 |
| `VmModel.TreeRefinesMap` | kernel/vm.c:97-115 | walking the three levels from a root finds exactly the flat map's entry for every virtual page |
| `VmLayout.ThreeEntries` | kernel/riscv.h:371-374 | a mapped page is reached by entry page / 2^18 of the root, entry page / 2^9 % 2^9 of the table that names and entry page % 2^9 of the next, the first two with V alone |
| `VmModel.AddTableKeeps` | kernel/vm.c:108-111 | adding an empty table below an empty entry keeps the invariant and the flat map |
| `VmModel.MapKeeps` | kernel/vm.c:163-167 | filling an empty leaf entry adds exactly one page to the flat map |
| `VmModel.DetachKeeps` | kernel/vm.c:206-210 | removing a mapping releases exactly its frame |
| `VmModel.RetireKeeps` | kernel/vm.c:268-277 | a table whose parent entry is gone can be released |
| `VmPages.PagesConserved` | kernel/kalloc.c:46-82 | free list, page tables, user mappings and kernel-held pages are pairwise disjoint, are together all pages after the kernel image, and their numbers always add up to the same total |
| `VmCode.Vm.constructor` | kernel/kalloc.c:26-40 | kinit makes every page after the kernel image free |
| `VmCode.Vm.Kfree` | kernel/kalloc.c:46-63 | the page goes on top of the free list; no other page changes |
| `VmCode.Vm.Kalloc` | kernel/kalloc.c:68-82 | takes the top of the free list, filled with 5s; 0 exactly on an empty list, and then nothing changes |
| `VmCode.Vm.AddTable` | kernel/vm.c:108-111 | a zeroed page becomes the next table, or nothing changes |
| `VmCode.Vm.WalkDown` | kernel/vm.c:104-112 | one level of walk reaches or creates the table below |
| `VmCode.Vm.Walk` | kernel/vm.c:97-115 | returns the leaf slot of the page; the flat map is unchanged even when allocation fails midway; without alloc nothing at all changes; takes at most two pages, and fails for want of memory only if it runs out of those |
| `VmCode.Vm.MapLeaf` | kernel/vm.c:165-167 | adds one page to the flat map |
| `VmCode.Vm.MapPage` | kernel/vm.c:163-172 | one turn of mappages adds one page, or the flat map is unchanged and memory is exhausted |
| `VmCode.Vm.Mappages` | kernel/vm.c:145-174 | 0 exactly if the whole range was added to the flat map; on failure a prefix of it was |
| `VmCode.Vm.UnmapLeaf` | kernel/vm.c:206-210 | removes one page from the flat map and frees its frame if asked |
| `VmCode.Vm.UnmapPage` | kernel/vm.c:202-210 | as above, and nothing for a page that was never mapped |
| `VmCode.Vm.Uvmunmap` | kernel/vm.c:192-212 | removes exactly the range from the flat map and frees exactly its frames if asked |
| `VmCode.Vm.Uvmdealloc` | kernel/vm.c:246-258 | removes exactly the pages between the rounded sizes |
| `VmCode.Vm.MapNew` | kernel/vm.c:227-237 | a fresh page with the given contents is mapped, or it is given back and the flat map is unchanged; fails only with fewer than three free pages |
| `VmCode.Vm.Uvmalloc` | kernel/vm.c:216-240 | on success every new page is mapped to a fresh zeroed frame; on failure the flat map is as before, and there were fewer than three free pages for each new one |
| `VmCode.Vm.FreeEntry` | kernel/vm.c:267-275 | one entry of a table is cleared and everything below it freed; the leaf panic is not reached |
| `VmCode.Vm.Freewalk` | kernel/vm.c:262-278 | every table of the subtree is freed, once, without reaching the leaf panic |
| `VmCode.Vm.Uvmfree` | kernel/vm.c:282-288 | every page of the address space returns to the free list, and other address spaces are unchanged |
| `VmCode.Vm.Uvmcreate` | kernel/vm.c:178-187 | a fresh root with no mappings, or 0 without memory |
| `VmCode.Vm.CopyPage` | kernel/vm.c:305-317 | one page of uvmcopy: skipped if not mapped, else copied to a fresh frame with the same flags |
| `VmCode.Vm.Uvmcopy` | kernel/vm.c:296-324 | success gives the child equal contents and flags on fresh frames; failure leaves the flat map as before, and there were fewer than three free pages for each mapped one |
| `VmImage.FillUnseen` | kernel/vm.c:452-473 | filling a missing page with zeros does not change what any process sees |
| `VmImage.GrowthSeen` | kernel/sysproc.c:50-63 | lazy growth and eager growth show the same memory |
| `VmImage.ShrinkSeen` | kernel/vm.c:246-258 | shrinking shows the memory cut at the new size |
| `VmImage.CopySeen` | kernel/vm.c:296-324 | after uvmcopy parent and child both see the parent's old memory |
| `VmImage.UndoneSpace` | kernel/proc.c:296-302 | an address space that was begun and taken apart again leaves exactly the same pages free and every process's memory as it was |
| `VmImage.FedLives` | kernel/sysproc.c:39-65 | a run in which memory never ran out gives exactly the specified observations |
| `VmImage.ReadOnlyRefuses` | kernel/vm.c:360-363 | copyout onto a page with U and without W, flags 19, 25 or 27, returns -1 and stores nothing |
| `VmLayout.AccessBits` | kernel/riscv.h:358-362 | the user may touch a page exactly with U, load from it exactly with U and R, and store to it exactly with U and W |
| `VmLayout.UntouchedBits` | kernel/vm.c:452-473 | a page never touched has V, R, W and U and is all zero |
| `VmLayout.CopyinWhen` | kernel/vm.c:380-403 | copyin succeeds exactly if every address of the range is in a page that the process may touch |
| `VmLayout.CopyinByte` | kernel/vm.c:393-400 | and then returns the byte at each address, in order |
| `VmLayout.CopyoutWhen` | kernel/vm.c:342-375 | copyout succeeds exactly if every address of the range is in a page that may be touched and written |
| `VmLayout.CopyoutByte` | kernel/vm.c:365-372 | each address of the range gets its byte, every other keeps its own, and flags stay |
| `VmLayout.SbrkBytes` | kernel/sysproc.c:39-65 | sbrk returns the old break and moves the size by n, refuses to pass the trapframe, ignores a shrink below zero; kept pages stay and new ones are zero |
| `VmLayout.LoadStoreByte` | kernel/trap.c:71-78 | an allowed load sees the byte, an allowed store changes that byte and no other, and neither happens otherwise |
| `VmUser.Process.Walkaddr` | kernel/vm.c:120-138 | the physical address of the page exactly if it is mapped for users, else 0 |
| `VmUser.Process.Ismapped` | kernel/vm.c:475-486 | true exactly for a page in the flat map |
| `VmUser.Process.Vmfault` | kernel/vm.c:452-473 | maps a zeroed page exactly for a missing page below sz, unseen by the process; otherwise returns 0, for want of memory only with fewer than three free pages |
| `VmUser.Process.Resolve` | kernel/vm.c:353-358 | the walkaddr-else-vmfault step finds every page that the process may reach |
| `VmUser.Process.CopyIn` | kernel/vm.c:380-403 | the bytes that the process's memory holds there, or failure exactly where the range leaves it; a failure elsewhere only with fewer than three free pages for each page touched; the memory is unchanged in any case |
| `VmUser.Process.CopyOutPage` | kernel/vm.c:349-368 | one page of copyout stores the bytes, or refuses pages that are unreachable or read-only |
| `VmUser.Process.CopyOut` | kernel/vm.c:342-375 | the process's memory changes exactly as the byte-level specification says, including a prefix on failure; a range that begins in a page without W gets -1 and leaves the memory; a failure for want of memory only with fewer than three free pages for each page touched, and then exactly a prefix of the bytes is stored and -1 returned |
| `VmUser.Process.Touch` | kernel/trap.c:71-78 | a load or store succeeds exactly if the page permits it and the address is below sz or its page is already present |
| `VmUser.Process.UserLoad` | kernel/trap.c:71-78 | a load below sz sees the process's memory whether or not the page was present, or there were fewer than three free pages and the process is killed |
| `VmUser.Process.UserStore` | kernel/trap.c:71-78 | a store below sz changes exactly that byte, or there were fewer than three free pages, nothing changes and the process is killed |
| `VmUser.Process.Growproc` | kernel/proc.c:261-280 | eager growth and shrinking as the specification of sbrk says; only with fewer than three free pages for each new one it may fail, with -1 and the memory as before |
| `VmUser.Process.Shrink` | kernel/proc.c:275-278 | shrinking cuts the memory at the new size, and never fails; below zero it changes nothing |
| `VmUser.Process.SysSbrk` | kernel/sysproc.c:39-65 | lazy and eager sbrk have the same result and show the same memory, for every 32-bit argument; only eager growth can fail for want of memory, with fewer than three free pages for each new one, and then changes nothing |
| `VmUser.Process.Fork` | kernel/proc.c:284-302 | the child sees exactly the parent's memory and the parent's is unchanged; it fails only with fewer than one free page and three for each mapped one, and then leaves the mappings and exactly the free pages as they were |
| `VmUser.Process.Do` | kernel/sysproc.c:39-65 | one call, lazily or eagerly, gives the specified observation and memory, or there were too few free pages for it and it fails without a trace but copyout's prefix |
| `VmUser.Process.Run` | kernel/sysproc.c:39-65 | any sequence of calls, for every choice of lazy and eager growth, is a sequence of such steps |
| `VmUser.LazyEqualsEager` | kernel/sysproc.c:50-63 | two processes with the same memory observe the same bytes under any two choices of lazy and eager growth, given enough memory |
| `ProcSafety.StepKeeps` | kernel/proc.c:284-756 | every step of every CPU keeps the invariant on states, locks, parents and sleepers; what each step does to a process is `ProcSleep.StateDiagram` and `ProcFamily.ParentsChange` |
| `ProcTheorems.BootInv` | kernel/proc.c:244-257 | the state after userinit satisfies the invariant |
| `ProcTheorems.HistoryInv` | kernel/proc.c:284-756 | the invariant holds in every state of every history |
| `ProcTheorems.CurrentOnOneCpu` | kernel/proc.c:449-587 | a RUNNING process is current on exactly one CPU, and an unlocked process that is not RUNNING on none |
| `ProcTheorems.SwitchHoldsOneLock` | kernel/proc.c:494-576 | each switch, in either direction, happens with exactly the chosen process's lock held |
| `ProcTheorems.SeenWasThere` | kernel/proc.c:470-491 | each priority a scan recorded was that slot's recomputed priority when this same scan looked at it |
| `ProcTheorems.BestHeldSince` | kernel/proc.c:470-491 | from the moment a scan looked at its best process until now that process has been its best, RUNNABLE, of the priority recorded, and locked by this CPU |
| `ProcTheorems.ChoiceIsFirstBest` | kernel/proc.c:466-499 | the choice is the first slot of maximal priority among those seen RUNNABLE in this scan, and since the scan looked at it it has been locked, RUNNABLE and of that priority; none is chosen exactly if none was seen |
| `ProcTheorems.NoLostExit` | kernel/proc.c:335-440 | whenever wait_lock is free, no parent is ZOMBIE or UNUSED and none sleeps in kwait with a ZOMBIE child |
| `ProcTheorems.ReapedIsOff` | kernel/proc.c:407-426 | a process that kwait frees is current on no CPU |
| `ProcTheorems.ZombieIsFound` | kernel/proc.c:404-429 | a scan in kwait never passes over a ZOMBIE child |
| `ProcTheorems.Choose` | kernel/proc.c:467-491 | the scan loop picks the first slot of maximal priority among the RUNNABLE ones, or none if there is none |
| `ProcSleep.StateDiagram` | kernel/proc.c:125-756 | in every history a process moves along the edges of its state diagram exactly when the diagram says: by fork, scheduler, yield, sleep, wakeup or kill, exit and wait; ticks, sleeps and wakes are counted once each; a sleeper keeps its channel |
| `ProcSleep.WakeupBegins` | kernel/proc.c:663-680 | a call of wakeup starts at the first slot |
| `ProcSleep.WakeupReachesAll` | kernel/proc.c:663-680 | from the beginning of a wakeup to its end no other process sleeps on the channel all the time |
| `ProcSleep.TurnIsNotLost` | kernel/proc.c:628-680 | wakeup's turn at a process that has committed to sleep comes after that process slept, and makes it RUNNABLE |
| `ProcSleep.NoLostWakeup` | kernel/proc.c:628-680 | a process that has committed to sleep when another begins a wakeup of that channel, or before, has slept and been made RUNNABLE by the end of it |
| `ProcSleep.KilledStays` | kernel/proc.c:737-756 | a killed process is marked and not SLEEPING at once, and stays marked as long as it has its slot |
| `ProcFamily.ParentsChange` | kernel/proc.c:181-431 | in every history the parent of a process is who forked it, init after that one's exit, and nobody once it is reaped; nothing else changes it |
| `ProcFamily.EveryoneHasParent` | kernel/proc.c:284-440 | in every state of every history, every process that has run, but the first, has a parent until it is reaped |
| `ProcFamily.ScanNotices` | kernel/proc.c:404-429 | a scan in kwait has noted exactly whether it has passed a child |
| `ProcFamily.WaitGivesUp` | kernel/proc.c:431-440 | kwait gives up exactly if its caller was killed or has no child, and otherwise goes to sleep |
| `ProcProgress.LockOrder` | kernel/proc.c:335-499 | a CPU that needs a lock holds only locks before it in one fixed order: wait_lock, then process locks by slot |
| `ProcProgress.NoDeadlock` | kernel/proc.c:335-756 | in every state of every history each CPU can take a step that gets it somewhere, or waits through a chain of lock holders for a CPU that can |
| `Energy.TicksNeverHelp` | kernel/proc.c:686-732 | with the same sleep and wake counts, more CPU time never lowers the score or raises the priority |
| `Energy.ActivityHelpsUnlessFirst` | kernel/proc.c:686-732 | with the same CPU time, more sleep and wake activity never lowers the priority, except from none at all, and then exactly if the intensity term exceeds the bonus |
| `Energy.FirstSleepCanHurt` | kernel/proc.c:697-705 | a concrete case in which the first sleep lowers the priority |
| `Energy.PriorityAtLeast` | kernel/proc.c:686-732 | the exact condition for a rank of at least r, without division: 10000 less the ticks, less a hundredfold of them shared among the activities and one, plus ten for each activity |
| `FreeList.OneOrderedCycle` | user/umalloc.c:24-44 | following ptr from base visits the free blocks in address order and returns to base; no two free blocks are adjacent and no two blocks overlap |
| `FreeList.UnitsPartitioned` | user/umalloc.c:24-90 | every unit obtained lies in exactly one free or live block, and no other unit does |
| `FreeList.OneChoice` | user/umalloc.c:74-86 | the rule of the first fit from freep determines the address handed out and the new freep |
| `FreeList.FreeKeeps` | user/umalloc.c:33-43 | coalescing with either neighbour, both or none keeps the heap invariant and frees exactly the block's units |
| `FreeList.TakeTailKeeps` | user/umalloc.c:78-83 | splitting off the tail of a free block keeps the heap invariant |
| `FreeList.TakeWholeKeeps` | user/umalloc.c:76-83 | unlinking a free block of the exact size keeps the heap invariant |
| `FreeList.Units` | user/umalloc.c:69 | the smallest number of units that holds the bytes and a header |
| `FreeList.Heap.constructor` | user/umalloc.c:21-22 | a heap that has never been used |
| `FreeList.Heap.FindSlot` | user/umalloc.c:29-32 | terminates at the free block just below the freed one, around the wrap |
| `FreeList.Heap.Free` | user/umalloc.c:24-44 | exactly the block's units become free, other live blocks keep their sizes, and the next search starts below the block |
| `FreeList.Heap.UpdateHeaders` | user/umalloc.c:33-43 | the headers after joining with the upper and lower neighbours |
| `FreeList.Heap.Morecore` | user/umalloc.c:46-61 | at least 4096 more units are free and the request now fits; or nothing changes |
| `FreeList.Heap.CarveWhole` | user/umalloc.c:76-83 | the block becomes live |
| `FreeList.Heap.CarveTail` | user/umalloc.c:78-83 | the tail becomes live, the rest keeps its place in the list |
| `FreeList.Heap.Carve` | user/umalloc.c:76-84 | the end of the block found, of exactly the size asked for, becomes live, and freep is the node before it |
| `FreeList.Heap.Lap` | user/umalloc.c:74-86 | one lap around the list finds the first block from freep on that is large enough, exactly if there is one |
| `FreeList.Heap.Allocate` | user/umalloc.c:74-89 | takes the first block after freep that is large enough, or the end of it; fails exactly if none is and no more memory is granted; needs one lap after morecore |
| `FreeList.Heap.Initialise` | user/umalloc.c:70-73 | the empty list is set up once |
| `FreeList.Heap.Malloc` | user/umalloc.c:63-90 | returns the body of a new live block of exactly the needed units, from the first block after freep that is large enough if there is one, without asking for more memory; all other live blocks are unchanged; fails exactly if nothing fits and nothing is granted |
| `VirtioDisk.FreeOrChained` | kernel/virtio_disk.c:156-213 | a descriptor is free exactly if it is in no request's chain, and is in at most one |
| `VirtioProgress.FreeDescriptors` | kernel/virtio_disk.c:156-213 | with k requests outstanding, exactly 8 - 3 k descriptors are free |
| `VirtioProgress.RequestFormat` | kernel/virtio_disk.c:238-265 | what the device finds behind the head of a request: type 1 for a write and 0 for a read, sector twice the block number, then 16, 1024 and 1 bytes with flags 1, 1 or 3, and 2 |
| `VirtioProgress.SomeStep` | kernel/virtio_disk.c:271-327 | while a request is outstanding and not done, the driver, the device or the handler has a step to make |
| `VirtioDisk.StoreKeeps` | kernel/virtio_disk.c:271-272 | storing an entry at the index of a ring with room overwrites no unread entry, also across the 16-bit wrap, and shows the reader nothing yet |
| `VirtioDisk.PublishKeeps` | kernel/virtio_disk.c:276-277 | advancing the index appends exactly the stored entry to what the reader will read |
| `VirtioDisk.PopKeeps` | kernel/virtio_disk.c:312-323 | the entry at the reader's index is the oldest unread one, and reading it leaves the others |
| `VirtioDisk.EmptyTest` | kernel/virtio_disk.c:312 | equal indices mean that nothing is unread, also across the 16-bit wrap |
| `VirtioDisk.RoomFor` | kernel/virtio_disk.c:271-277 | each ring always has room, because entries are heads of distinct chains |
| `VirtioDisk.HistRelease` | kernel/virtio_disk.c:312-324 | releasing a request that was not released before keeps the history: each release once, with its own buffer |
| `VirtioDisk.AllServed` | kernel/virtio_disk.c:283-291 | a request that has returned was released |
| `VirtioCode.Disk.constructor` | kernel/virtio_disk.c:144-146 | all descriptors free, both rings empty |
| `VirtioCode.Disk.AllocDesc` | kernel/virtio_disk.c:156-166 | takes the first free descriptor; -1 exactly if there is none |
| `VirtioCode.Disk.FreeDesc` | kernel/virtio_disk.c:169-182 | the descriptor was not free (no panic) and is cleared and free |
| `VirtioCode.Disk.Alloc3Desc` | kernel/virtio_disk.c:201-213 | three distinct descriptors exactly if three are free, else none taken |
| `VirtioCode.Disk.UndoAlloc` | kernel/virtio_disk.c:206-210 | a partial allocation is given back exactly |
| `VirtioCode.Disk.FreeChain` | kernel/virtio_disk.c:185-197 | frees exactly the three descriptors of the chain |
| `VirtioCode.Disk.MakeChain` | kernel/virtio_disk.c:238-269 | three held descriptors become one request's chain, recorded for the interrupt handler, with status 0xff |
| `VirtioCode.Disk.Prepare` | kernel/virtio_disk.c:218-269 | a new request for this buffer has its chain, unseen by the device; nothing changes, for lack of descriptors, exactly if two requests are outstanding |
| `VirtioCode.Disk.StoreAvail` | kernel/virtio_disk.c:271-272 | the head is in the next slot of the avail ring, where it overwrites no head that the device has yet to read |
| `VirtioCode.Disk.PublishAvail` | kernel/virtio_disk.c:276-277 | exactly that head joins the end of the heads that the device will read |
| `VirtioCode.Disk.Fetch` | kernel/virtio_disk.c:271-281 | the device takes the oldest published request, at any moment, or finds none exactly if there is none |
| `VirtioCode.Disk.CarryOut` | kernel/virtio_disk.c:238-265 | the device, following the chain, moves the block between disk and the request's own buffer and reports success; or reports failure and moves nothing |
| `VirtioCode.Disk.StoreUsed` | kernel/virtio_disk.c:309-314 | the device stores the head in the used ring without overwriting an unread answer |
| `VirtioCode.Disk.PublishUsed` | kernel/virtio_disk.c:309-314 | exactly that answer joins the end of those that the handler will read |
| `VirtioCode.Disk.IntrOne` | kernel/virtio_disk.c:312-324 | one used entry is consumed, the oldest, and releases exactly the buffer that submitted it; the panic is taken exactly if the device reported an error for it |
| `VirtioCode.Disk.Intr` | kernel/virtio_disk.c:294-327 | all used entries are consumed, each once; it panics exactly if one of them reports an error |
| `VirtioCode.Disk.Finish` | kernel/virtio_disk.c:283-291 | the submitter finds its buffer released with the block that was transferred and its three descriptors are free again |
| `VirtioCode.Disk.DriverStep` | kernel/virtio_disk.c:215-292 | any step of a process inside virtio_disk_rw keeps the invariant and the record of who is inside; entering succeeds exactly if fewer than two requests are outstanding, and every other step brings one request one stage on |
| `VirtioCode.Disk.OtherStep` | kernel/virtio_disk.c:294-327 | so does any step of the device or of the interrupt handler, at any moment; a panic comes only from an interrupt over a reported error |
| `VirtioCode.Disk.Turn` | kernel/virtio_disk.c:215-327 | the same for whoever's turn it is |
| `VirtioCode.Disk.Next` | kernel/virtio_disk.c:215-327 | as long as a process is inside virtio_disk_rw some step of the driver, the device or the handler is enabled |
| `VirtioCode.Disk.Drain` | kernel/virtio_disk.c:215-327 | from any reached state, as long as the device reports no error, such steps bring every process out, its request served and all descriptors free, after exactly as many steps as the requests have stages left |
| `VirtioCode.Disk.Run` | kernel/virtio_disk.c:215-327 | over every interleaving of these steps each request is released at most once and with its own buffer, returns at most once and after that, and is either outstanding or has returned; once no process is inside, all have returned and all descriptors are free |
| `ShellGrammar.RoundTrip` | user/sh.c:333-452 | parsing the parenthesised printed form of a tree yields that tree and consumes all input |
| `ShellGrammar.TreeBack` | user/sh.c:350-452 | the parser reads a printed tree back in front of any closing context |
| `ShellGrammar.LexShow` | user/sh.c:271-314 | tokenising printed tokens gives the tokens |
| `ShellGrammar.ArgsBack` | user/sh.c:421-452 | fewer than MAXARGS words are read back as the argument list |
| `ShellLaws.ParserIsGrammar` | user/sh.c:333-452 | a sequence of tokens is parsed to a tree exactly if it is a line of the language that means that tree |
| `ShellLaws.RedirectedCommand` | user/sh.c:421-452 | words and redirections in any order: all words in order, inside the redirections, the first innermost |
| `ShellLaws.PipedCommands` | user/sh.c:367-378 | a | b | c groups to the right |
| `ShellLaws.ListedCommands` | user/sh.c:350-365 | a ; b & ; c & groups to the right, and & belongs to the command before it |
| `ShellLaws.PipeInList` | user/sh.c:350-378 | a pipe binds closer than a list |
| `ShellLaws.RedirectedGroup` | user/sh.c:405-419 | a redirection after a group is of the whole group |
| `ShellLaws.TooManyWords` | user/sh.c:445-446 | ten words or more are refused |
| `ShellLex.Characters` | user/sh.c:268-269 | which characters are blanks and which are symbols |
| `ShellLex.LexIsSpelling` | user/sh.c:271-314 | a text has these tokens exactly if it is they, written with blanks as one likes and with a blank where two would run together |
| `ShellCode.Parser.Skip` | user/sh.c:278-279 | skipping blanks leaves the remaining tokens as they are |
| `ShellCode.Parser.GetToken` | user/sh.c:271-314 | returns and removes the first remaining token, with the span of a word |
| `ShellCode.Parser.ScanWord` | user/sh.c:302-305 | the span covers exactly the word token |
| `ShellCode.Parser.Peek` | user/sh.c:316-326 | tells whether the next token starts with one of the symbols and removes nothing |
| `ShellCode.Parser.Redirs` | user/sh.c:380-403 | agrees with the grammar's redirections on the remaining tokens |
| `ShellCode.Parser.Args` | user/sh.c:437-448 | agrees with the parse of an argument list, including redirections after any word and the failure at MAXARGS; what that is, is `ShellLaws.ParserIsGrammar` |
| `ShellCode.Parser.ExecLine` | user/sh.c:421-452 | agrees with the grammar's simple command or block |
| `ShellCode.Parser.Block` | user/sh.c:405-419 | agrees with the grammar's parenthesised block |
| `ShellCode.Parser.PipeLine` | user/sh.c:367-378 | agrees with the grammar's pipeline |
| `ShellCode.Parser.Backs` | user/sh.c:356-359 | agrees with the grammar's background markers |
| `ShellCode.Parser.Line` | user/sh.c:350-365 | agrees with the grammar's line |
| `ShellCode.Parser.Command` | user/sh.c:333-348 | agrees with the grammar on the whole string, including the failure on leftovers |
| `ShellCode.NulTerminate` | user/sh.c:455-499 | puts NULs at exactly the ends of the tree's words |
| `ShellCode.WordsRead` | user/sh.c:455-499 | after that every argument and file name reads as exactly its token |
| `ShellCode.LineRead` | user/sh.c:333-348 | a parser that agrees with the parse functions on the tokens of a text accepts exactly the texts of the language, each for what it means |
| `ShellCode.RedirectionOpens` | user/sh.c:390-400 | < opens for reading as descriptor 0; > and >> open for writing as descriptor 1 and create, and only > truncates |
| `ShellCode.ParseCommand` | user/sh.c:333-348 | for every NUL-free line: terminates; panics exactly if the text is no line of the language, and otherwise returns what it means; yields the tree whose printed form it is, and leaves each word readable as its token |
| `Grep.MatchHere` | user/grep.c:84-96 | true exactly if some prefix of the text satisfies the declarative meaning of the pattern |
| `Grep.MatchStar` | user/grep.c:98-106 | true exactly if some number of repetitions, possibly none, is followed by a match of the rest |
| `Grep.Match` | user/grep.c:72-82 | true exactly if some substring satisfies the meaning of literals, dot, star, leading ^ and trailing $ |
| `Grep.BeginsStar` | user/grep.c:98-106 | the declarative meaning of c* unfolds to a number of repetitions |
| `GrepLaws.SimpleThen` | user/grep.c:85-96 | a pattern that begins with characters without * fits a text exactly if those do, one by one with . for any, and the rest of the pattern fits the rest |
| `GrepLaws.SimplePattern` | user/grep.c:72-96 | a pattern without *, ^ and final $ matches exactly the texts that have its characters somewhere, with . for any |
| `GrepLaws.PatternAtStart` | user/grep.c:75-76 | with ^ in front, exactly those that begin with them |
| `GrepLaws.PatternAtEnd` | user/grep.c:91-92 | with $ behind, exactly those that end with them |
| `GrepLaws.WholePattern` | user/grep.c:72-96 | with both, exactly those that are them |
| `GrepLaws.StarPattern` | user/grep.c:98-106 | ^rx*q$ matches exactly the characters of r, then any number that x fits, then the characters of q |
| `GrepLaws.LooseStar` | user/grep.c:98-106 | a final x* without $ asks for nothing |
| `Grep.FindNewline` | user/grep.c:21 | the first newline before any NUL, or none exactly if there is none |
| `Grep.OneLine` | user/grep.c:22-28 | prints the line with its newline exactly if it matches, and leaves the rest of the buffer alone |
| `Grep.ScanLines` | user/grep.c:20-29 | the complete lines of the buffer up to a NUL are printed if they match, and what remains has no newline before a NUL |
| `Grep.Fill` | user/grep.c:18-19 | a read appends its bytes to the buffer |
| `Grep.MoveDown` | user/grep.c:30-33 | the unfinished line moves to the front of the buffer |
| `Grep.Search` | user/grep.c:11-35 | however reads are chunked, the output is the matching lines of the input up to its first NUL |
| `Grep.PrintsMatchingLines` | user/grep.c:11-35 | the output is exactly the matching newline-terminated lines, in order, up to the first line that does not fit the buffer |
| `Grep.LinesOf` | user/grep.c:20-29 | a text made of lines and a rest without a newline has exactly those lines |

## Left out

- Spinlocks and sleep locks: their internals are taken as mutual exclusion; that no CPUs wait for each other in a circle is shown for the locks of `proc.c` only.
- Hardware, boot and assembly: `swtch` is an atomic transfer that keeps the held lock; device registers and memory barriers do not appear.
- `bget: no buffers`: NBUF equals LOGBLOCKS, so running out of buffers is reachable; the panic is a failure that `Bget` and everything that reads blocks returns, and the machine stops there.
- Log clients are assumed to modify a held buffer, call `log_write` and then `brelse`, and to stay within MAXOPBLOCKS new blocks per operation; that `filewrite` stays within it is proved, other system calls are not modelled.
- The log class runs one thread of `log.c` at a time, with the buffer accesses of other threads between its steps; several operations at once are in the state machine, over which the theorems range.
- LogCode.Log.BeginOp: an operation that would sleep for space or for a commit is told so instead, and may try again.
- LogCode.Log.Recycle: takes any unreferenced buffer, so that what is proved of the log does not depend on the choice; that the source takes the least recently released one is `BufferRing`.
- LogCode.Log.OtherStep: while operations execute, only readers release buffers here, since an operation may have changed one and not logged it yet; the state machine has all releases.
- LogCode.Log.AcquireSleep: what other threads do while it waits is a list of their steps; if the lock is still held at the end of it, the wait is reported as a failure.
- FsCode.FileSystem.constructor: the super block is a parameter; reading it from the disk and checking its magic number are not modelled.
- FsThreads: the inode lock and the reference that keeps an inode in memory are taken as given, so a thread enters only an inode that no other has locked; which free block `balloc` finds is left open.
- FsLog: end_op comes after the thread has left its call and updated its inode, as in the source's callers; that a call stays within its reservation is `FsCode.FileSystem.Writei`.
- FsCode.FileSystem.Writei: a failing copy from the source buffer is not modelled, because it can leave a buffer changed but not logged.
- FsCode.FileSystem.Readi: a failing copy to the destination is not modelled, as user addresses belong to the memory part.
- FsCode.FileSystem.Filewrite: a negative length, for which the source writes nothing and returns -1, has no byte sequence to stand for it.
- FsCode.FileSystem.Iupdate: the type, device numbers and link count of a disk inode are carried along unchanged and have no meaning here.
- Directories, path names, link counts and the inode cache of `fs.c`; pipes and the console.
- `mkfs`: the file system starts from any image that satisfies the invariant; one concrete image is given.
- VmCode.Vm.Mappages: on failure the pages mapped so far stay, as in the source; its callers map one page at a time.
- The trampoline and trapframe pages of a process, the kernel's own page table and `exec`.
- `copyinstr`, which does not fault lazy pages in, and text pages loaded lazily.
- VmUser.Process.Vmfault: takes the given page table to be the current process's, as the callers do.
- VmUser.Process.Growproc: sizes stay below the trapframe, as the source checks; arithmetic on sizes cannot wrap there except for negative growth, which is modelled.
- The order in which processes are found by pid or by free slot: forks may use any UNUSED slot and kills may hit any process.
- Sleep channels other than a process's own are a number; the condition a sleeper waits for, other than a child's exit, and the lock that goes with it are not modelled.
- ProcTheorems.Choose: the loop over a table that does not change meanwhile; the scan that others interleave with is `ChoiceIsFirstBest`.
- Energy budgets, power modes and the idle governor's counters; the energy counters are unbounded integers, where the source's wrap.
- FreeList.Heap.Malloc: sizes are unbounded integers and `sbrk` is a parameter that grants an address above everything obtained before, or nothing.
- VirtioCode.Disk.Prepare: a submitter that finds too few descriptors sleeps in the source, until another frees a chain; here it returns -1 and may try again.
- VirtioCode.Disk.Drain: says what happens once nobody enters any more; that a device in the end does what it can is its hypothesis.
- VirtioCode.Disk.OtherStep: the device and the handler are not held back by vdisk_lock, which allows more than the source; only a second submitter waits for it. Memory is taken to be read in the order in which it was written, which is what the barriers are for.
- `virtio_disk_init` apart from the free map.
- ShellCode.ParseCommand: memory for the tree is always available, and the line holds no NUL before its end.
- Running commands: `runcmd`, `getcmd` and the built-in `cd`.
- Grep.Search: a read error ends the input, as in the source, so it is not a separate case.
