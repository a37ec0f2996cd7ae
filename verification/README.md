# xv6 on ARMv8, modelled in Dafny

This project models the parts of the xv6 port where the hard promises are made, and proves them for every
input, every run or every reachable state: crash recovery of the log and of the file system above it, page
tables, the process protocol, the virtio queue, the buffer cache, pipes, and three user-level pieces
(allocator, shell parser, pattern matcher).

How the pieces are modelled:

- Code that updates memory step by step is a class whose methods are proved against functions of the old
  state. Code that several processes, cores or devices interleave is a transition system: a state, a set
  of steps, an invariant kept by each step, and theorems about every run.
- Panics of the original are results (`panicked`, `Panic`, a result constructor) or, where the source makes
  them the caller's duty, preconditions.
- Disk reads and writes, `kalloc` running dry, failing copies from or to user memory, and `sbrk` refusing are
  parameters or part of the state, so that the error paths are covered.

| file | what it models |
|---|---|
| `LogDisk`, `LogSystem`, `LogRuns`, `LogDevice` | `kernel/log.c`: what a disk means, group commit with crashes, whole runs, the code |
| `FsLayout`, `FsState`, `FsBytes`, `FsTrunc`, `FsOps`, `FsSuper`, `Mkfs` | `kernel/fs.c`, `filewrite` of `kernel/file.c`, `mkfs/mkfs.c` |
| `FsCrash`, `FsSerial` | the file system over the log: what a crash leaves of it |
| `VmState`, `VmPhys`, `VmView`, `VmFree`, `VmCopy`, `VmOps` | `kernel/vm.c`, `kernel/kalloc.c`, the address space that `kernel/exec.c` builds |
| `ProcSys`, `ProcInv`, `ProcRest`, `ProcSteps`, `ProcRuns` | `kernel/proc.c`, `kernel/sleeplock.c`, `kernel/spinlock.c` |
| `VirtioState`, `VirtioSteps`, `VirtioDisk` | `kernel/virtio_disk.c` with the device (section 2.6 of VIRTIO 1.1) |
| `BioList`, `Bio`, `Pipe` | `kernel/bio.c`, `kernel/pipe.c` |
| `HeapState`, `HeapFree`, `HeapTake`, `UMalloc` | `user/umalloc.c` |
| `ShellLex`, `ShellParse`, `ShellPrint`, `Shell`, `Grep` | `user/sh.c`, `user/grep.c` |
| `Collections` | options, sequences, sets and division, as several of these use them |

Where the code does not keep what one would expect of it, the model keeps the code and states exactly when
it does:

- `begin_op` reserves against LOGSIZE, but a log of `size` blocks holds `size - 1`. An append within its
  budget is safe in every reachable state if and only if `size > LOGSIZE`; mkfs makes `size == LOGSIZE`.
- `log_write` tests the size before it looks for absorption, so rewriting a block that is already logged
  panics exactly when the header is full. No such panic can meet an operation that has logged fewer than
  MAXOPBLOCKS different blocks before each of its log_writes, and the chunks of `filewrite` are such
  operations: their tenth block is that of the inode, and it is logged last.
- mkfs rounds the size of the root directory up even when it is already whole; the image has a hole there
  exactly when the number of directory entries is a multiple of 64.
- `uvmdealloc`'s comment allows an `oldsz` above the process size; the code panics in that case. Its page
  count is an int: it visits the pages it was asked to if and only if there are fewer than 2^31 of them.
- `freewalk` cannot tell a page entry from a table entry (both have type 3), so its "leaf" panic never fires
  in any user space, and at a page that is still mapped it goes on into the bytes of the page. It goes astray
  in this way if and only if a page is mapped; a space in which it does is constructed.
- Nothing in `uvmalloc` stops at MAXVA, where `walk` would come round to page 0; it gets there only from a size
  so near to MAXVA that the free frames suffice for the rest.
- `morecore` passes its byte count to `sbrk(int)`; it gets the units it records if and only if the request is
  below 2147483617 bytes.
- `piperead` takes a byte out of the ring before `copyout` can fail, so that byte is lost; and `pipewrite`
  returns -1 to a killed writer although the bytes before are in the pipe.

## Model

| member | source | states |
|---|---|---|
| `LogDisk.LoggingKeepsLogical` | kernel/log.c:122-135 | filling log slots under an empty header changes nothing that recovery would produce |
| `LogDisk.HeadWriteCommits` | kernel/log.c:100-111 | the header write is the commit point: what recovery produces jumps to the cached contents, all at once |
| `LogDisk.InstallKeepsLogical` | kernel/log.c:67-82 | installing one logged block changes nothing logical and extends the installed prefix |
| `LogDisk.ClearKeepsLogical` | kernel/log.c:137-147 | erasing the header after every block is installed changes nothing logical |
| `LogDisk.RecoverIsLogical` | kernel/log.c:113-119 | a completed recovery empties the log and puts each home block at its logical content |
| `LogDisk.RecoverIdempotent` | kernel/log.c:113-119 | recovering a recovered disk changes nothing |
| `LogSystem.BudgetLeavesRoom` | kernel/log.c:183-204 | an open operation with budget left always finds room in the header |
| `LogSystem.EndKeepsInv` | kernel/log.c:208-240 | end_op keeps the invariant and never meets its "log.committing" panic |
| `LogSystem.StepKeepsInv` | kernel/log.c:67-240 | every step of every process, every block write and every crash, also one after a panic, keeps the log's invariant |
| `LogRuns.CrashAtomicity` | kernel/log.c:67-147 | after any run with any crashes, recovery gives the effect of the durable prefix of the writes, which holds whole operations only and nothing of an open one |
| `LogRuns.CacheShowsEveryWrite` | kernel/log.c:158-180 | between crashes the cache shows every write made so far; an idle log has them all at home |
| `LogRuns.DurableStaysDurable` | kernel/log.c:137-147 | no step, crashes included, takes back a durable write, and a finished commit has made every write durable |
| `LogRuns.DurableForever` | kernel/log.c:137-147 | what is durable at some point of a run is durable at its end |
| `LogRuns.CommittedSurvives` | kernel/log.c:137-147 | once a committing end_op has returned, every write made so far is in the durable part, through every later step and crash |
| `LogRuns.CrashLeadsToQuietMoment` | kernel/log.c:67-240 | after any run with any crashes, recovery gives all home blocks what the kernel showed at one and the same earlier moment, at which no operation was open |
| `LogRuns.PanicLosesNothingDurable` | kernel/log.c:161-166 | after a panic a restart is the only step left, and it comes back with what was durable |
| `LogRuns.Admission` | kernel/log.c:183-240 | in every reachable state: committing excludes open operations, an idle log is empty, admits the next begin_op and leaves nobody asleep, and the header never exceeds LOGSIZE |
| `LogRuns.WhenLogWritePanics` | kernel/log.c:158-180 | in a large enough log an enabled log_write panics exactly when it would be absorbed and the header is full |
| `LogRuns.AppendsSafeIffLogBigEnough` | kernel/log.c:158-204 | appends within budget are safe in every reachable state if and only if the log has more than LOGSIZE blocks |
| `LogRuns.FullLogPanicsOnAbsorbedWrite` | kernel/log.c:158-180 | the run in which an absorbed write panics exists |
| `LogRuns.PacedNeverPanics` | kernel/log.c:158-204 | in a log of more than LOGSIZE blocks, no run panics in which every operation has logged fewer than MAXOPBLOCKS different blocks before each of its log_writes, however full the others have made the log |
| `LogDevice.Log.constructor` | kernel/log.c:54-64 | initlog: the disk is the recovered one with an empty log, and every content on the way was logically the one found |
| `LogDevice.Log.LogWrite` | kernel/log.c:158-180 | the header gains the block or absorbs it, the cache shows the new data there and the old data elsewhere; when it panics nothing changes |
| `LogDevice.Log.WriteLog` | kernel/log.c:122-135 | the log slots hold what the cache shows, and every disk content on the way is logically the old one |
| `LogDevice.Log.WriteHead` | kernel/log.c:100-111 | one disk write that replaces the header |
| `LogDevice.Log.ReadHead` | kernel/log.c:85-95 | memory takes over the header on disk |
| `LogDevice.Log.InstallTrans` | kernel/log.c:67-82 | every logged block goes home, buffers are unpinned only when committing, and no disk content on the way differs logically |
| `LogDevice.Log.RecoverFromLog` | kernel/log.c:113-119 | the disk is the recovered one at the end and logically the same at every write before, so a crash anywhere in recovery is harmless |
| `LogDevice.Log.Commit` | kernel/log.c:137-147 | every disk content met is logically the one before or the one after, in that order; after it every home block holds what the cache showed |
| `FsState.ReferencedOnce` | kernel/fs.c:367-411 | under the invariant every referenced block is an allocated data block referenced from one place |
| `FsBytes.InodeRoundTrip` | kernel/fs.c:212-227 | an inode written to its 64 bytes reads back, and its 15 neighbours are unchanged |
| `FsBytes.WriteThenRead` | kernel/fs.c:463-533 | readi at the offset of a writei gives the bytes that were written |
| `FsTrunc.ItruncFacts` | kernel/fs.c:415-446 | after truncation and iupdate the file is empty, exactly its blocks are free, and the others are untouched |
| `FsSuper.SuperRoundTrip` | mkfs/mkfs.c:91-98 | the super block that mkfs writes describes, as the kernel reads it, mkfs's own layout |
| `FsSuper.Fsinit` | kernel/fs.c:15-32 | panics exactly without the magic number; on what mkfs puts in front of the inodes it finds mkfs's layout |
| `FsSuper.DirentRoundTrip` | mkfs/mkfs.c:149-151 | a directory entry gives back its inode number and the first 14 bytes of its name |
| `FsOps.FileSystem.Balloc` | kernel/fs.c:49-74 | the first free data block, marked and zeroed; 0 exactly when all are allocated |
| `FsOps.FileSystem.Bfree` | kernel/fs.c:77-90 | clears the one bit, and panics exactly when it was clear |
| `FsOps.FileSystem.Iupdate` | kernel/fs.c:212-227 | the in-core inode is on disk, the invariant holds, one inode block is logged and only that one changes |
| `FsOps.FileSystem.Bmap` | kernel/fs.c:367-411 | the entry of the block, allocated with its indirect block if need be; ownership and bitmap stay exact, no file's bytes change, 0 only on a full disk, nothing happens when the block was mapped |
| `FsOps.FileSystem.Readi` | kernel/fs.c:463-489 | the slice of the content clamped at the size, and with no holes nothing is allocated or logged |
| `FsOps.FileSystem.Writei` | kernel/fs.c:498-533 | splices a prefix of the source at the offset, all of it unless the disk is full or a copy fails; other files are untouched, holes are not introduced, the inode is on disk; every block it changes is logged, the inode's last; a chunk of at most 3 blocks logs at most MAXOPBLOCKS blocks, and fewer before that last log_write |
| `FsOps.FileSystem.Itrunc` | kernel/fs.c:415-446 | never meets "freeing free block", frees exactly the file's blocks, changes no other file, and logs every block it changes |
| `FsOps.FileSystem.WriteChunk` | kernel/file.c:163-184 | one transaction of filewrite extends the written prefix, logs at most MAXOPBLOCKS distinct blocks and every one it changes, at the pace with which LogRuns.PacedNeverPanics excludes a panic, and leaves all inodes on disk if they were |
| `FsOps.FileSystem.FileWrite` | kernel/file.c:138-193 | the chunks amount to one splice of a prefix of the source; -1 unless all was written; each transaction stays within its budget and keeps the pace |
| `FsCrash.OperationIsTx` | kernel/log.c:158-180 | an operation that logged every block it changed and left all inodes on disk is a transaction: its log_writes, in any order and with any repetition, are the change from one complete file system to another |
| `FsCrash.FileSystemSurvives` | kernel/log.c:67-240 | if at every quiet moment the operations so far amount to transactions, then after any run with any crashes recovery gives a complete file system: ownership, bitmap and inodes right, no file with a hole that had none, the result of a first part of the transactions |
| `FsCrash.RecoveredMounts` | kernel/fs.c:24-32 | read as bytes, the recovered disk satisfies every invariant of the file system, has no new hole and is, outside the log, that file system block by block |
| `FsCrash.FreshImageFormatted` | mkfs/mkfs.c:106-111 | the log of the image that mkfs makes is empty |
| `FsSerial.SerialIsWhole` | kernel/log.c:158-240 | when operations run one at a time, the history is one of whole transactions at every quiet moment, whatever crashes there are |
| `FsSerial.SerialSurvives` | kernel/log.c:67-240 | when operations run one at a time, then after any run with any crashes recovery gives exactly the file system that was there at the last commit, complete and with no new hole |
| `Mkfs.Balloc` | mkfs/mkfs.c:226-240 | a bitmap block with exactly the first bits set |
| `Mkfs.Image.constructor` | mkfs/mkfs.c:91-111 | the zeroed image with its super block satisfies the file system's invariant with every inode blank |
| `Mkfs.Image.Winode` | mkfs/mkfs.c:180-191 | the image shows the updated inode |
| `Mkfs.Image.Rinode` | mkfs/mkfs.c:193-203 | the inode read from the image is the one it stands for |
| `Mkfs.Image.Ialloc` | mkfs/mkfs.c:213-224 | the next inode, empty and of the given type, all other files as before |
| `Mkfs.Image.Iappend` | mkfs/mkfs.c:244-292 | the file's content grows by exactly the given bytes, other files are as before, invariant and absence of holes are kept |
| `Mkfs.RoundedHole` | mkfs/mkfs.c:160-165 | rounding the size leaves no hole if and only if the size was not a whole number of blocks |
| `Mkfs.Image.Finish` | mkfs/mkfs.c:160-167 | the finished image satisfies the kernel's invariant, up to that hole, and still has its super block and an empty log |
| `Mkfs.AppendFile` | mkfs/mkfs.c:154-155 | a file copied in pieces has the content of the file |
| `Mkfs.StartRoot` | mkfs/mkfs.c:113-124 | the root directory with the entries "." and ".." |
| `Mkfs.AddFile` | mkfs/mkfs.c:126-158 | one more file, under its argument without "user/" and a leading underscore, the files before unchanged; refused only when inodes or blocks run out, the file is too large or a slash is left in the name |
| `Mkfs.Seal` | mkfs/mkfs.c:160-167 | the finished image still has every directory entry and file |
| `Mkfs.MakeImage` | mkfs/mkfs.c:65-170 | the image has a super block and an empty log, satisfies the kernel's invariant, holds the given files and a directory of their names in order, and has a hole in the root directory exactly when the number of entries is a multiple of 64; it fails only for too many files, a file beyond the maximum size, a slash in a name, or no block left |
| `VmState.SlotDeterminesPage` | kernel/vm.c:42-42 | distinct pages reach distinct entries |
| `VmState.MmuFindsLeaf` | kernel/vm.c:18-43 | following the tables in memory level by level finds, for every page, what the model says is mapped |
| `VmState.GrowLeaves` | kernel/vm.c:33-39 | adding a table changes the mapping of no page |
| `VmState.WithEntryLeaf` | kernel/vm.c:73-73 | writing the entry of one page changes that page and no other |
| `VmOps.Machine.Kalloc` | kernel/kalloc.c:69-82 | the first free frame, filled with 5; fails exactly when none is free |
| `VmOps.Machine.Kfree` | kernel/kalloc.c:45-63 | panics exactly for a frame outside the memory it manages; otherwise a frame that was not free becomes the first free one, and the free list stays without duplicates |
| `VmOps.Machine.Walk` | kernel/vm.c:18-43 | the table with the entry of the page; it may add tables but changes no mapping and no foreign memory, and with alloc fails only for want of frames |
| `VmOps.Machine.Mappages` | kernel/vm.c:50-82 | maps exactly the pages named, in order, up to the first that is mapped already (a panic) or for which memory runs out; which of the two it was; the pages done were unmapped before |
| `VmOps.Machine.Uvmcreate` | kernel/vm.c:147-155 | an empty space on a frame that was free |
| `VmOps.Machine.Uvmunmap` | kernel/vm.c:88-113 | clears exactly the pages named and panics at the first page that is not mapped; with do_free their frames go to the free list, without it they keep their bytes and belong to nobody |
| `VmOps.Machine.Uvmdealloc` | kernel/vm.c:313-325 | clears the pages it visits and panics exactly when one of them is not mapped, for every pair of sizes |
| `VmView.VisitedAll` | kernel/vm.c:318-322 | those are the pages between the two sizes if and only if there are fewer than 2^31 of them |
| `VmOps.Machine.Uvmalloc` | kernel/vm.c:329-355 | zeroed pages on fresh frames up to the new size, which were unmapped before; or every page and frame as before, with fewer than four free frames per page; or a panic, with one of the pages mapped already; or it passes MAXVA, with every page up to there unmapped before and as many free frames |
| `VmOps.Machine.Uvmcopy` | kernel/vm.c:376-403 | the child's pages have the parent's bytes and permissions on frames of their own, or the child is as before; the parent never changes; it panics only at a page that the parent has not or the child has mapped |
| `VmOps.Machine.Freewalk` | kernel/vm.c:117-134 | goes astray exactly when a page is mapped below the given table; otherwise every table at and below it goes to the free list once, nothing else changes |
| `VmOps.Machine.Uvmfree` | kernel/vm.c:138-143 | panics exactly when a page below the size is not mapped, and goes astray exactly when one at or above it is; otherwise the free list afterwards holds each frame it had and each frame of the space, once |
| `VmOps.Machine.Walkaddr` | kernel/vm.c:195-212 | succeeds exactly on mapped user pages below MAXVA and gives their frame |
| `VmOps.Machine.Copyout` | kernel/vm.c:288-307 | writes the bytes up to the first page a user may not touch, and changes no other byte, mapping or foreign frame |
| `VmOps.Machine.Copyin` | kernel/vm.c:264-283 | the bytes at the address, up to the first page a user may not touch |
| `VmCopy.CopyRoundTrip` | kernel/vm.c:264-307 | copyin after copyout gives the same bytes, across pages |
| `VmView.FramesDistinct` | kernel/vm.c:376-403 | two pages of a space never share a frame |
| `VmView.FillThenClear` | kernel/vm.c:336-353 | clearing the pages just filled restores every page and every frame |
| `VmView.Bystander` | kernel/vm.c:376-403 | whatever is done to one space leaves every space that shares no frame with it as it was |
| `VmFree.UnmapThenFree` | kernel/vm.c:138-143 | unmapping all pages and freeing all tables returns exactly the frames of the space |
| `VmFree.BegunReturned` | kernel/vm.c:138-155 | a space that is freed leaves free the frames that were free when it was created, and changes no others |
| `VmOps.Machine.ExecSpace` | kernel/exec.c:75-166 | exec's address space has exactly the pages below its size; an exec that fails at any segment frees what it took, every frame once, and meets none of the panics of vm.c |
| `VmFree.CleanIffUnmapped` | kernel/vm.c:117-134 | the tables lead freewalk into no page if and only if no page of the space is mapped |
| `VmFree.LeafPanicIsDead` | kernel/vm.c:128-131 | no table of any space, whatever is mapped, has an entry at which the "leaf" panic fires |
| `VmFree.MappedPageIsWalked` | kernel/vm.c:122-127 | at a page that is still mapped freewalk takes the page for a table |
| `VmFree.MappedPageEscapes` | kernel/vm.c:117-134 | a space with a mapped page and without any entry at which freewalk would panic |
| `ProcInv.ZombieIsOff` | kernel/proc.c:469-482 | a zombie whose lock is free has left its core for good |
| `ProcSteps.SleepReleaseWake` | kernel/proc.c:343-348 | giving up the condition lock in sleep hides from no wakeup whose caller holds that lock |
| `ProcSteps.SleepReleaseZombies` | kernel/proc.c:551-592 | wait goes to sleep only when no child is a zombie |
| `ProcSteps.WakeFinds` | kernel/proc.c:362-378 | wakeup finds every process that waits on its channel asleep on it and makes it runnable |
| `ProcSteps.ReparentOneZombies` | kernel/proc.c:424-436 | a zombie handed to init comes with a wakeup for init |
| `ProcSteps.SetSleepSleepers` | kernel/sleeplock.c:16-26 | setting lk->locked makes no other process's test of it stale: whoever has tested it holds lk->lk |
| `ProcSteps.ClearSleepSleepers` | kernel/sleeplock.c:28-35 | clearing it leaves nobody on the way to sleep, and everyone asleep to the wakeup that follows |
| `ProcSteps.IntrFinds` | kernel/proc.c:362-378 | the wakeup of an interrupt handler finds every process that waits on its channel asleep on it |
| `ProcRuns.StepKeepsInv` | kernel/proc.c:230-672 | every step of every core, process and interrupt handler keeps the invariant |
| `ProcRuns.Boot` | kernel/proc.c:173-202 | the machine after procinit and userinit, for any number of slots and cores |
| `ProcRuns.InitInv` | kernel/proc.c:46-58 | the state after procinit and userinit satisfies it |
| `ProcRuns.RunningOnOneCore` | kernel/proc.c:230-319 | in every reachable state, while p->lock is free, p is RUNNING exactly when one core, and only one, has c->proc == p |
| `ProcRuns.OneCoreAtMost` | kernel/proc.c:230-264 | at most one core is on the kernel stack of a process or switching to or from it |
| `ProcRuns.ParentsAlive` | kernel/proc.c:424-593 | no parent pointer ever names an unused slot, a half-made process or a zombie |
| `ProcRuns.NoLostWakeup` | kernel/proc.c:333-378 | when a wakeup by a holder of a lock ends, nobody is left who gave up that lock in a sleep on the channel and was not woken |
| `ProcRuns.NoLostWakeupByHandler` | kernel/proc.c:362-378 | the same of a wakeup by an interrupt handler on a core that runs no process |
| `ProcRuns.WaiterIsAsleep` | kernel/proc.c:333-358 | once its lock can be taken, a process waits exactly if it is SLEEPING, on the channel it asked for |
| `ProcRuns.NoZombieMissed` | kernel/proc.c:441-593 | while wait_lock is free, nobody sleeps in wait who has a zombie child |
| `ProcRuns.ReapedOnce` | kernel/proc.c:542-593 | no pid is reaped twice and no live process has a reaped pid |
| `ProcRuns.StackFreedLast` | kernel/proc.c:75-93 | a kernel stack is freed only when its process is a zombie that no core is on |
| `ProcRuns.SchedChecks` | kernel/proc.c:273-292 | sched's checks never fail and the panic after it in exit is not reached |
| `ProcRuns.SleepLockExclusive` | kernel/sleeplock.c:16-35 | a sleep lock has at most one owner, although testing and setting it are separate steps |
| `ProcRuns.HoldingSleepIsOwning` | kernel/sleeplock.c:37-46 | holdingsleep is true exactly for the process that owns the lock |
| `ProcRuns.TestIsFresh` | kernel/sleeplock.c:16-26 | when acquiresleep sets the lock it is free and nobody owns it |
| `ProcRuns.NoSleeperOnFreeLock` | kernel/sleeplock.c:16-35 | while a sleep lock and the spinlock in it are free, nobody sleeps for it |
| `VirtioState.AtMostTwo` | kernel/virtio_disk.c:198-211 | at most two requests are in flight |
| `VirtioState.RingPush` | kernel/virtio_disk.c:271-276 | a head stored at the ring index overwrites no pending one, also across the wrap of the 16-bit index |
| `VirtioState.RingPop` | kernel/virtio_disk.c:314-327 | the indices differ exactly when something is pending, and the oldest entry is read |
| `VirtioSteps.SubmitKeeps` | kernel/virtio_disk.c:224-276 | a request on three free descriptors keeps chains disjoint, formatted and complementary to the free set, and both rings right |
| `VirtioSteps.TakeKeeps` | kernel/virtio_disk.c:271-280 | the device takes the oldest request it has not seen |
| `VirtioSteps.CompleteMoves` | kernel/virtio_disk.c:237-268 | a device that follows the descriptors moves exactly the block that was asked for between disk and the buffer of that request |
| `VirtioSteps.CompleteKeeps` | kernel/virtio_disk.c:237-268 | completion in any order keeps the invariant |
| `VirtioSteps.AckFinds` | kernel/virtio_disk.c:314-327 | every completion the handler finds has status 0 and the non-null buffer of its own request |
| `VirtioSteps.AckKeeps` | kernel/virtio_disk.c:314-327 | seeing a completion keeps the invariant |
| `VirtioSteps.FinishKeeps` | kernel/virtio_disk.c:289-292 | freeing the chain keeps the invariant and the buffer is not pending |
| `VirtioDisk.Fresh` | kernel/virtio_disk.c:117-143 | the queue after virtio_disk_init, over any disk |
| `VirtioDisk.StepKeepsInv` | kernel/virtio_disk.c:153-330 | every step of driver and device keeps the invariant |
| `VirtioDisk.QueueIsFaithful` | kernel/virtio_disk.c:213-330 | over every run of driver and device: at most two in flight, and both sides find in their rings what was put there first |
| `VirtioDisk.ReadReturnsBlock` | kernel/virtio_disk.c:213-330 | over every run: when a process that asked for a read frees its chain, its buffer holds the block the disk held when the request was served |
| `VirtioDisk.WriteReachesDisk` | kernel/virtio_disk.c:213-330 | over every run: a write whose completion the handler has seen was served at some step, which put at its sector the data its buffer held when it was submitted; the sector keeps them until another write to it is served |
| `VirtioDisk.Driver.AllocDesc` | kernel/virtio_disk.c:153-164 | the first free descriptor, or none is free |
| `VirtioDisk.Driver.FreeDesc` | kernel/virtio_disk.c:167-179 | one taken descriptor becomes zero and free, so one more is free |
| `VirtioDisk.Driver.Alloc3Desc` | kernel/virtio_disk.c:198-211 | three different free descriptors exactly when three are free, otherwise none is kept |
| `VirtioDisk.Driver.FreeChain` | kernel/virtio_disk.c:182-194 | the loop frees exactly the three descriptors of the chain |
| `VirtioDisk.Driver.Rw` | kernel/virtio_disk.c:213-280 | the request is queued with its own buffer and block exactly when fewer than two are in flight |
| `VirtioDisk.Driver.Intr` | kernel/virtio_disk.c:295-330 | all completions are seen, and exactly their buffers stop being pending |
| `VirtioDisk.Driver.Finish` | kernel/virtio_disk.c:289-292 | the chain is gone, everything else in flight is untouched |
| `BioList.Unlink` | kernel/bio.c:136-137 | taking a buffer out leaves next and prev inverse around the rest |
| `BioList.PushFront` | kernel/bio.c:138-141 | putting it behind the head leaves them inverse with it in front |
| `Bio.Cache.constructor` | kernel/bio.c:34-51 | one circle with all buffers, all empty |
| `Bio.Cache.Find` | kernel/bio.c:62-72 | a buffer of the block, if one has it |
| `Bio.Cache.FindUnused` | kernel/bio.c:76-88 | the unused buffer released longest ago, if any is unused |
| `Bio.Cache.Bget` | kernel/bio.c:56-92 | no two buffers get the same block; it panics exactly when the block is not cached and all buffers are in use; what is evicted is unpinned and on disk |
| `Bio.Cache.Lock` | kernel/bio.c:68-69 | a process with a reference takes the buffer's sleep lock |
| `Bio.Cache.Fill` | kernel/bio.c:95-107 | the locked buffer holds its block, read from disk only if it was not valid |
| `Bio.Cache.Bwrite` | kernel/bio.c:110-118 | the disk block takes the buffer's data and every other buffer stays right |
| `Bio.Cache.Unlock` | kernel/bio.c:122-129 | the holder's unlock leaves every valid unlocked unpinned buffer equal to its disk block, its reference still counted |
| `Bio.Cache.Drop` | kernel/bio.c:131-145 | the reference is given up, whoever has locked the buffer since, and the last one moves it to the front |
| `Bio.Cache.Bpin` | kernel/bio.c:147-152 | one more reference that keeps the buffer from eviction |
| `Bio.Cache.Bunpin` | kernel/bio.c:154-159 | the pin is given up, by a holder or after the block is home |
| `Pipe.Full` | kernel/pipe.c:92-92 | the two counter tests mean full and empty, also when the counters have wrapped |
| `Pipe.Put` | kernel/pipe.c:105-105 | a stored byte goes to the end of the contents, also across the wrap |
| `Pipe.Get` | kernel/pipe.c:135-135 | the byte fetched is the oldest and the rest stays in order |
| `Pipe.Ring.constructor` | kernel/pipe.c:22-55 | an empty pipe |
| `Pipe.Ring.Write` | kernel/pipe.c:79-113 | appends a prefix of the bytes to what was ever written; where it stops and whether it sleeps or fails is given by the room, the reader, the kill and the fault |
| `Pipe.Ring.Read` | kernel/pipe.c:127-141 | returns the next bytes ever written, in order; how many, and that a byte is lost exactly when the copy of one that is there fails; bytes taken out followed by the ring are the bytes written |
| `HeapFree.StopsAtPlace` | user/umalloc.c:32-34 | the search loop of free stops exactly at the place of the block |
| `HeapFree.InsertShape` | user/umalloc.c:40-48 | inserting keeps the circle, the order, the live blocks and the count of units |
| `HeapFree.MergeShape` | user/umalloc.c:35-46 | merging two touching blocks keeps them too |
| `HeapTake.TakeWhole` | user/umalloc.c:83-84 | a block of the right size leaves the list whole |
| `HeapTake.TakeTailOrder` | user/umalloc.c:85-90 | the tail of a larger block becomes a live block that overlaps nothing |
| `UMalloc.SbrkHonest` | user/umalloc.c:52-66 | morecore gets the units it records if and only if the request is below 2147483617 bytes |
| `UMalloc.Allocator.constructor` | user/umalloc.c:24-25 | an empty heap |
| `UMalloc.Allocator.FindPrevious` | user/umalloc.c:32-34 | the loop ends at the free block after which bp belongs |
| `UMalloc.Allocator.Join` | user/umalloc.c:35-49 | the block joins the list, coalesced with both neighbours, no unit is lost |
| `UMalloc.Allocator.Free` | user/umalloc.c:27-50 | the block is no longer live, the others are, free plus live units are the units obtained |
| `UMalloc.Allocator.Morecore` | user/umalloc.c:52-66 | a free block of the size asked for, exactly if that size fits sbrk's int and sbrk has the memory; exactly when sbrk is asked for another amount and does not refuse |
| `UMalloc.Allocator.Take` | user/umalloc.c:81-93 | exactly n units become live, the whole block or its tail |
| `UMalloc.Allocator.Malloc` | user/umalloc.c:68-98 | a new live block with room for the bytes, disjoint from all others; in a started heap morecore is called exactly when no free block fits, then once, and the heap grows by what it asks for; NULL only if sbrk refuses; from 2147483617 bytes on morecore never helps |
| `ShellParse.ParseSound` | user/sh.c:336-456 | whatever parses consists of whole words of the line with at most MAXARGS - 1 arguments per command |
| `ShellPrint.ReadsBack` | user/sh.c:353-456 | a printed tree, wherever it stands in the line, is parsed as that tree |
| `ShellPrint.RoundTrip` | user/sh.c:336-456 | parsing the parenthesised printing of a legal tree gives the tree |
| `ShellPrint.SoundLegal` | user/sh.c:336-456 | every line that parses stands for a legal tree |
| `ShellPrint.Reparse` | user/sh.c:336-456 | printing what was parsed and parsing again changes nothing |
| `Shell.Parser.Gettoken` | user/sh.c:272-316 | the token and the position that the specification gives |
| `Shell.Parser.Peek` | user/sh.c:320-329 | skips white space and tells whether the next character is one of those asked for |
| `Shell.Parser.Parseredirs` | user/sh.c:384-408 | the redirections in order, or a panic for a missing file |
| `Shell.Parser.Parseexec` | user/sh.c:425-456 | words and redirections of one command, or a block |
| `Shell.Parser.Parseblock` | user/sh.c:410-423 | a line in parentheses with its redirections |
| `Shell.Parser.Parsepipe` | user/sh.c:371-382 | commands joined by pipes |
| `Shell.Parser.Parseline` | user/sh.c:353-369 | pipes, background and lists; the parser terminates on every line |
| `Shell.NulledAt` | user/sh.c:459-503 | NULs are written at the ends of words and nowhere else |
| `Shell.WordsReadBack` | user/sh.c:459-503 | after nulterminate every argument and file name reads as exactly its token |
| `Shell.Nulterminate` | user/sh.c:459-503 | the recursive writes to the line amount to that |
| `Shell.Parsecmd` | user/sh.c:336-351 | panics exactly on lines that do not parse; otherwise each word is, in memory, the C string of its token |
| `Grep.HereCons` | user/grep.c:90-112 | a piece followed by a match further on is a match |
| `Grep.HereSplit` | user/grep.c:90-112 | a match of a pattern splits into one of its first piece and one of the rest |
| `Grep.Matchhere` | user/grep.c:90-101 | true exactly when a prefix of the text is in the language of the pattern, all of it under a final dollar sign |
| `Grep.Matchstar` | user/grep.c:104-112 | true exactly when some number of repeats is followed by a match |
| `Grep.Match` | user/grep.c:77-87 | true exactly when a substring of the text, or a prefix under a circumflex, is in the language |

## Left out

- Directories, paths, links, inode and file reference counts (`kernel/fs.c:232-355`, `537-695`, `kernel/sysfile.c`, most of `kernel/file.c`): mostly easy cases over the operations modelled here.
- Boot, traps, the interrupt controller, devices other than the disk, printing, exec beyond its address space and the remaining user programs.
- `copyinstr`, `uvmfirst`, `uvmclear`, `uvmswitch`, `growproc`, `setkilled`, `procdump`, `pipeclose`: they add nothing hard to the operations beside them.
- Liveness: that a runnable process is eventually chosen or a spinning acquire succeeds is not stated.
- Interrupt nesting (`push_off`, `pop_off`, `noff`, `intena`): a core that holds a spinlock is not preempted, which is how yield is modelled.
- The memory model of ARMv8: steps of the transition systems are sequentially consistent, and the exclusive-load loop of acquire is one test-and-set.
- ProcRuns.StepKeepsInv: a critical section that touches only fields guarded by the lock it holds is one step, taken when the lock is free; wait_lock, the condition locks of sleep and the hand-over of p->lock across swtch are held across steps.
- ProcRuns.SchedChecks: that a process comes to sched without another spinlock is asked of the callers of yield, sleep and exit by the guards of those steps; the theorem adds that nothing in between gives it one.
- ProcRuns.NoLostWakeupByHandler: a handler takes one spinlock and calls wakeup with it, as those of the console, the disk and the timer do.
- ProcRuns.ReapedOnce: process ids are unbounded, so the wrap of the int `nextpid` is not captured.
- ProcRuns.SleepLockExclusive: a process exits with no sleep lock held, only the owner releases one, and a caller of acquiresleep that holds a spinlock finds the lock free, as iput does.
- FsOps.FileSystem.Writei: buffers are the disk blocks themselves and `order` the blocks passed to log_write; a copy that fails part way is taken to leave the buffer alone, where the source may leave some of its bytes there, unlogged.
- FsOps.FileSystem.FileWrite: one writer; what other processes write to the file between two transactions is not considered.
- FsCrash.FileSystemSurvives: that the operations between two quiet moments amount to a transaction is a hypothesis; FsSerial.SerialIsWhole discharges it where operations run one at a time, and the interleaving of several under inode locks is not modelled.
- FsSerial.SerialSurvives: no two operations overlap; `done` says what file system each leaves, and what FsOps promises of an operation ties that to its log_writes.
- Mkfs.MakeImage: files are given with their contents; running out of inodes or blocks, which mkfs does not test, is the result `fits == false`.
- VmOps.Machine.Uvmunmap: addresses are page numbers below MAXVA.
- VmOps.Machine.Uvmalloc: at most 32768 free frames (the 128 MB of PHY_STOP); where it passes MAXVA (`past`) it is not followed further.
- VmOps.Machine.Freewalk: where it takes a page for a table (`stray`) it is not followed into the bytes of the page; the same holds of VmOps.Machine.Uvmfree.
- VmOps.Machine.ExecSpace: reading the program and filling the stack are the flag that a segment fails; the guard page keeps its frame.
- VmOps.Machine.Kfree: frames are numbers, so an address that is not page-aligned has no counterpart.
- VmState.MmuFindsLeaf: permission bits are those that vm.c sets and tests; the packing of entries into 64-bit words is not modelled.
- VirtioDisk.Driver.Rw: sleeping until descriptors are free is the result `ok == false`; register writes and barriers are not modelled.
- Bio.Cache.Bget: devices are numbered from 1, as ROOTDEV is.
- Bio.Cache.Unlock: a client has written or pinned the buffer, and Bio.Cache.Bunpin follows the write home, as log.c does.
- Pipe.Ring.Write: one stretch between two sleeps; the sleeping itself is covered by the process protocol.
- UMalloc.Allocator.Malloc: what happens after sbrk was asked for an amount that its int does not hold (`wild`) is not followed; sbrk returns the break, which otherwise only moves up.
- Shell.Parser.Parseexec: argument arrays and nested command structures are values, so the in-place growth of argv under an already built redirection is not captured.
- Grep.Match: strings end where C strings end, so a NUL inside a text has no counterpart.
