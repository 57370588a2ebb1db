# xv6: verified models of its hardest parts

This project models parts of xv6 for x86, a small Unix-like teaching kernel, and proves what they are for.

- **The file system stack.** `log.c` is a physical redo log with group commit on top of the buffer cache `bio.c`. `LogMachine` is the log, the cache and the disk as one state machine with crashes between any two block writes; `Log` is the same code as loops over buffers; `LogPanics` says exactly when its panics are ruled out, when its list fits the log area, and for which sizes of the area a transaction is atomic at all. `Bio` and `BioRuns` are the cache's own list and its use by any number of processes. `Ownership`, `Inodes`, `Fs` and `File` are block allocation, the block map of an inode, reading, writing and truncating; `Space` and `Maps` are the bill of a write and of a truncation, in blocks to allocate and blocks to log, `Tight` shows that the limit of ten logged blocks is reached, `FileLog` ties it to the log's reservation, and `UnlinkLog` is the transaction of an unlink that frees a file. `Links` and `Sysfile` are directories, link counts and the directory tree, `LinkRuns` is link, unlink and create by any number of processes at once, and `Removed` what they do in a directory that has been removed.
- **Processes.** `Proc`, `Family` and `ProcRuns` are the process table on any number of CPUs, with `ptable.lock` handed across `swtch`. `SleepLock` is the sleep lock over `sleep`, `wakeup` and `kill`.
- **Memory.** `FreeList` and `Umalloc` are the user-level allocator. `Frames` and `Vm` are page tables and the frame allocator, and `PageBill` is the number of frames that mapping a range takes.
- **Smaller programs.** `Pipe` is the ring buffer, `Grep` the pattern matcher, `Grammar` the shell's command language and `Sh` its parser.

Sequential code is modelled as classes and methods with the loops of the source, each tied to a specification. Protocols among processes are modelled as states and steps; a theorem about a protocol is about every reachable state or every run, for any number of processes, CPUs, locks or buffers. A panic is a result after which nothing is promised, or a step that cannot be taken; where a panic is unreachable that is proved.

Where the code and its documentation disagree the model follows the code. `begin_op` reserves log space against `LOGSIZE`, but `mkfs` gives the log one block fewer than that besides its header, so an operation within its reservation can meet "too big a transaction"; `LogPanics.ReservationHonouredIff` gives the exact condition. The test also comes before absorption (`LogPanics.AbsorptionIff`). And it is made without `log.lock`, which `log_write` takes only for the append, so several operations can pass it before any of them appends and the list can become longer than the log area. `LogPanics.ListFitsIff` says when that is ruled out. With an area of 1 to 28 blocks the overlong list then overwrites a home block before the header is written; `LogPanics.AtomicIff` says that the log is atomic exactly for other sizes. The 29 blocks of `mkfs` are among those, because there an overlong list pins all buffers and none is left to write the log with. For the same reason a commit of LOGSIZE blocks, which is as many as there are buffers, meets "bget: no buffers" (`LogPanics.CommitServedIff`). An unlink frees a file's blocks in its own transaction, which stays within MAXOPBLOCKS only on disks with few bitmap blocks (`UnlinkLog.UnlinkFitsIff`). create, link and mkdir do not look at the parent's link count, so in a removed working directory they leave wrong counts (`Removed.CreateSoundIff`). `kalloc`, `sbrk`, the timer, crashes and the choices of the scheduler are arguments of the steps.

## Model

| member | source | states |
|---|---|---|
| `LogMachine.StepCorrect` | log.c:125-233 | every step of begin_op, log_write's test, its append, end_op, commit, recovery, buffers loaded, held, released and evicted, and a crash, keeps the invariant and does to the disk with transactions exactly one event: nothing, one update, commit everything, lose everything uncommitted; the log area has no blocks or at least NBUF-1 |
| `LogMachine.RunRefines` | log.c:69-233 | every run, whatever the interleaving, also between log_write's test and its append, the evictions and the crashes, simulates a disk with atomic durable transactions, for the same sizes of the log area; LogPanics.AtomicIff shows that for no others it does |
| `LogMachine.CopyStepRefines` | log.c:177-190 | write_log copies a block only if the whole list fits the log area, although the tests that should bound the list may be out of date |
| `LogMachine.OverlongIsStuck` | bio.c:78-92 | a commit of a list that does not fit has no buffer for any log block |
| `LogMachine.CrashAtomicity` | log.c:69-122 | after a commit with crashes anywhere, also in recovery and any number of times, the home blocks are all as before the transaction or all as after it; and as before if the header was not written |
| `LogMachine.HomeIsCommitted` | log.c:204-233 | between log_write and install the home blocks on disk are exactly the last committed ones |
| `LogMachine.CommitInstallsAll` | log.c:192-202 | when commit returns the disk holds every logged write, the last one winning |
| `LogMachine.LogWrittenRefines` | log.c:222-231 | the append of log_write, with or without room in the log area, changes what readers see of one block and nothing of what a crash would leave |
| `LogMachine.AppendHasEntry` | log.c:222-231 | at the append the array of LOGSIZE entries has one left for an operation within its reservation, however old its test |
| `LogMachine.CleanChangeRefines` | bio.c:78-91 | loading and recycling buffers is invisible, because blocks pinned by B_DIRTY stay cached |
| `LogMachine.OneInstalledRefines` | log.c:69-82 | each home write of install_trans leaves what a crash restores unchanged |
| `LogMachine.HeadWrittenRefines` | log.c:101-113 | the header write is the commit point |
| `LogMachine.HeadClearedRefines` | log.c:199-200 | erasing the log changes nothing that a crash restores |
| `LogMachine.OpsDoNotMeetCommit` | log.c:152-153 | a process inside an operation never meets "log.committing" nor "log_write outside of trans" |
| `LogMachine.SleepersWillBeWoken` | log.c:125-174 | while a process sleeps in begin_op there is a commit or an operation in progress; the end of a commit wakes it, and so does the end of an operation unless that starts a commit |
| `LogMachine.StepAdmits` | log.c:125-233 | whatever the size of the log area every step keeps: lh.n plus the unused reservations of all operations is at most LOGSIZE |
| `LogMachine.BegunAdmits` | log.c:125-141 | begin_op does, when it goes on and when it sleeps |
| `LogMachine.EndedAdmits` | log.c:145-174 | end_op does, and starts a commit only when no operation is left |
| `LogPanics.FreshWriteFits` | log.c:218-219 | with LOGSIZE blocks besides the header an operation below MAXOPBLOCKS can always log another block |
| `LogPanics.ShortLogBreaksReservation` | log.c:132 | with a shorter log there is a run in which an operation within its reservation is refused |
| `LogPanics.ReservationHonouredIff` | log.c:218-219 | the reservation is honoured in every reachable state if and only if the log has at least LOGSIZE blocks besides its header |
| `LogPanics.AbsorptionIff` | log.c:218-230 | then an operation that has logged k different blocks is never refused, also when it writes one of them again, if and only if k is less than MAXOPBLOCKS |
| `LogPanics.ListFitsIff` | log.c:218-232 | in every reachable state the list fits the log area if and only if the area has no blocks or at least LOGSIZE: the test without log.lock does not bound it |
| `LogPanics.OverwriteBreaks` | log.c:177-232 | for 1 to 28 blocks there is a run, two operations passing the test before either appends, in which write_log changes a home block before the commit |
| `LogPanics.AtomicIff` | log.c:69-233 | every run from boot simulates the disk with transactions if and only if the log area has no blocks or at least NBUF-1 |
| `LogPanics.HasBufferIff` | bio.c:78-92 | in every reachable state, whoever asks, a block that is not cached can be loaded, after evictions if need be, if and only if fewer than NBUF buffers, of home blocks and of the log area together, are pinned or held; the committer holds at most one of the log area |
| `LogPanics.CommitHasBufferIff` | log.c:177-190 | during write_log that is so if and only if the listed blocks, the clean buffers that other processes hold and the log block that the committer holds are together fewer than NBUF |
| `LogPanics.CommitServedIff` | log.c:177-190 | for the log areas of LogPanics.AtomicIff, write_log always finds a buffer when no reader holds one if and only if there is no log area: a list of NBUF blocks can be committed and then pins them all |
| `Log.Encode` | log.c:101-113 | write_head's stores: the header block then names exactly the list, and words past it keep their value |
| `Log.WriteAheadLog.Bread` | bio.c:95-106 | bread returns the current contents and changes nothing that readers see |
| `Log.WriteAheadLog.FindLogged` | log.c:224-227 | the first place of a block number in the list, or the end |
| `Log.WriteAheadLog.TestRoom` | log.c:218-219 | true exactly if neither the array nor the log area is full |
| `Log.WriteAheadLog.LogAppend` | log.c:222-232 | readers see the new block; the number is listed once; no room in the log area is assumed |
| `Log.WriteAheadLog.WriteLogBlocks` | log.c:177-190 | a crash after any of its writes restores the old contents |
| `Log.WriteAheadLog.InstallTrans` | log.c:69-82 | a crash after any of its writes restores the same contents |
| `Log.WriteAheadLog.WriteHeadCommits` | log.c:197 | after this one write a crash restores the new contents |
| `Log.WriteAheadLog.Commit` | log.c:192-202 | for a list that fits the log area: of its 2n+2 block writes, a crash after one of the first n restores all home blocks to the old contents, after any later one to the new; at the end they are on disk |
| `Log.WriteAheadLog.ReadHead` | log.c:85-96 | the in-memory list is the header's |
| `Log.WriteAheadLog.RecoverFromLog` | log.c:115-122 | recovery leaves what the disk restores to, and so does a crash after any of its writes |
| `Bio.BufferCache.constructor` | bio.c:38-56 | binit links all buffers, the last one first |
| `Bio.BufferCache.FindCached` | bio.c:68-76 | the first buffer in list order that caches the block |
| `Bio.BufferCache.FindFree` | bio.c:78-91 | the last buffer in list order that is unused and clean |
| `Bio.BufferCache.Bget` | bio.c:61-93 | the sections under bcache.lock: one more use of a cached block, or the victim recycled; the panic only if the block is not cached and no buffer is free |
| `Bio.BufferCache.Brelse` | bio.c:128-140 | one use fewer; at zero the buffer moves to the front and the linked list stays a permutation |
| `Bio.MoveLinks` | bio.c:132-137 | the six pointer assignments of brelse move one buffer to the front and keep the rest of the doubly linked list |
| `BioRuns.IdentityIsStable` | bio.c:61-141 | in every run refcnt counts exactly the uses, and every holder or waiter still finds its own block in its buffer |
| `BioRuns.OneBufferPerBlock` | bio.c:61-93 | in every run no two buffers, in use or not, cache the same block of a device other than 0 |
| `BioRuns.OneHolderPerBlock` | bio.c:61-93 | two uses of such a block are uses of one buffer, and at most one of them holds it |
| `BioRuns.ListIsLru` | bio.c:128-138 | the list is a permutation of the buffers in the order of their last release |
| `BioRuns.VictimIsOldest` | bio.c:78-91 | bget recycles the buffer released longest ago among those it may recycle |
| `Ownership.OwnedOnceMeans` | fs.c:56-95 | a bitmap bit is set exactly for metadata and for blocks that one slot of one inode holds; no two slots hold the same block |
| `Ownership.AllocKeeps` | fs.c:372-400 | giving a free block to an empty slot keeps that |
| `Ownership.FreeKeeps` | fs.c:407-435 | a held block has its bit set, and freeing it together with its slot keeps ownership exact |
| `Fs.FileSystem.Balloc` | fs.c:56-78 | the first free block, marked and zeroed; failure only if every bit is set |
| `Fs.FileSystem.Bfree` | fs.c:81-95 | clears one bit; fails exactly on a free block |
| `Fs.FileSystem.Iupdate` | fs.c:220-236 | the inode on disk becomes the one in memory |
| `Fs.FileSystem.Bmap` | fs.c:372-400 | the block of a file by number, allocated if need be, in two stages for indirect blocks; ownership stays exact and other files keep their blocks; the panic exactly if the number is out of range or fewer blocks are free than are missing |
| `Fs.FileSystem.Readi` | fs.c:452-476 | exactly a slice of the file's bytes, across direct and indirect blocks, without allocating; -1 in the two cases of the code |
| `Fs.FileSystem.Writei` | fs.c:481-511 | the file's bytes overwritten and extended at the offset, other files unchanged, no holes, the cached inode equal to the disk inode; -1 in the three cases of the code; the panic for lack of space exactly if fewer blocks are free than the write needs, and as many are taken; log_write is called for exactly the written blocks, the bitmap blocks of new ones, the indirect block if it is new or gains an entry, and last for the inode's block if the file grows |
| `Fs.LogsWithin` | fs.c:481-511 | so at each call of log_write only blocks other than the inode's have been logged, fewer than MAXOPBLOCKS for a chunk of filewrite |
| `Fs.WrittenIsOverwrite` | fs.c:498-504 | the loop's byte-by-byte effect is overwrite-and-extend of one byte sequence |
| `Fs.LoopEffect` | fs.c:498-504 | the loop as a whole: the bytes are written, there are no holes up to their end, other files are as before, and what has been logged is told by the block map before and after |
| `Fs.ChunksLog` | fs.c:498-504 | after any number of iterations the log holds exactly what writing those blocks calls for |
| `Fs.ChunksSpend` | fs.c:498-504 | free blocks less the blocks still needed is an amount that no iteration changes |
| `Fs.ChunksFail` | fs.c:56-78 | "out of blocks" in the middle of a write means that the whole write needed more blocks than were free |
| `Fs.BmapSpends` | fs.c:372-400 | bmap takes exactly the missing blocks off the free ones, two if the indirect block is missing too |
| `Space.NeedWithoutHoles` | fs.c:372-400 | for a file without holes the blocks a write needs are those past the old end, and the indirect block if the write is the first to pass the direct ones |
| `Space.NeedIsGrowth` | fs.c:372-400 | that is what the file takes more after the write than before, so free blocks and the file's blocks balance |
| `Space.LogBound` | fs.c:372-400 | a write logs at most its blocks, a bitmap block for each new one, and two for the indirect block |
| `Space.ChunkLogBound` | file.c:127-133 | at most three blocks' worth of bytes log at most nine blocks besides the inode, given no holes: an unaligned first block was there |
| `Tight.DearCount` | file.c:127-133 | an unaligned chunk that adds three blocks and the indirect one logs six blocks and the bitmap blocks of the four, so ten exactly if those are different |
| `Tight.NewWasFree` | fs.c:56-78 | a block newly mapped by a write was free before |
| `Tight.DiskIsOwned` | fs.c:56-95 | a disk of four groups of blocks, full except for one block in each, on which every block of the data area that is in use has one owner |
| `Tight.LaidOut` | mkfs.c:92-104 | boot block, superblock, log, inodes, bitmap and data follow each other on that disk as mkfs lays them out |
| `Tight.NoFileHasHoles` | fs.c:372-400 | every file of that disk has the blocks its size calls for and no others |
| `Tight.TenLogged` | file.c:127-133 | on that disk one chunk of filewrite succeeds and its transaction has exactly MAXOPBLOCKS blocks: the limit is tight |
| `Fs.KeptFileReadsSame` | fs.c:452-511 | a file whose blocks a write leaves alone reads the same afterwards |
| `Fs.BmapGrows` | fs.c:372-400 | on a file without holes bmap below the size allocates nothing, and at the size keeps the file without holes |
| `Fs.FileSystem.Itrunc` | fs.c:407-435 | every slot of the inode is empty, "freeing free block" is not met, the inode is on disk, and exactly the bitmap blocks of its blocks and the inode's block are logged |
| `Fs.ExactlyFreed` | fs.c:407-435 | exactly the blocks the inode held have become free |
| `Maps.MapsIs` | fs.c:81-95 | the bitmap blocks counted for a truncation are those with the bit of one of the inode's blocks |
| `UnlinkLog.Unlink` | sysfile.c:217-229 | from the clearing of the entry on, for the last link to an inode nobody uses: both inodes end up on disk, and the transaction is exactly the entry's block, the parent's inode if a directory goes, the inode's, and the bitmap blocks of all it held; the last call of log_write repeats one |
| `UnlinkLog.WithinIff` | sysfile.c:217-229 | so no call of log_write comes when MAXOPBLOCKS blocks are logged if and only if there are fewer of them in all |
| `UnlinkLog.BoundedIff` | fs.c:407-435 | on all disks with up to n bitmap blocks such a transaction stays within a limit if and only if n plus two, or three for a directory, does |
| `UnlinkLog.UnlinkFitsIff` | log.c:125-141 | it stays within its reservation if and only if there are up to seven bitmap blocks for a directory and eight for a file, and below it for one fewer |
| `File.WriteTxn` | file.c:140-145 | one transaction of filewrite logs at most MAXOPBLOCKS blocks, fewer before each call of log_write, and overwrites one stretch; a failing one changes nothing; the panic exactly if the free blocks do not suffice for the file to grow that far |
| `File.Filewrite` | file.c:117-156 | as many bytes are written at the offset, which moves on, as fit into the largest file: all, or the whole chunks that fit and -1, or none past the end of the file; the panic exactly if the free blocks do not suffice for the file to grow that far; blocks only move from the free ones to the file |
| `File.StopsAtReach` | file.c:133-154 | what filewrite leaves unwritten begins at a chunk that writei refuses |
| `FileLog.CallWithinReservation` | file.c:127-145 | each call of log_write in a transaction of filewrite leaves the operation with at most MAXOPBLOCKS blocks, which is what the log assumes of it |
| `FileLog.FilewriteIsNotRefused` | file.c:127-145 | with LOGSIZE blocks in the log area none of these calls meets "too big a transaction", whatever other operations are in progress |
| `Links.MakeFile` | sysfile.c:260-280 | a new file in a linked directory keeps: nlink of every inode is the number of entries other than "." that name it in linked directories, and the linked directories form a tree |
| `Links.MakeDir` | sysfile.c:260-280 | so does a new directory, with its ".." counted for the parent |
| `Links.MakeLink` | sysfile.c:140-151 | so does another name for a file |
| `Links.UnlinkFile` | sysfile.c:218-229 | so does removing a name; the count was at least one |
| `Links.UnlinkDir` | sysfile.c:213-229 | so does removing an empty directory, which had exactly one link |
| `Links.OnlyLink` | sysfile.c:211-216 | an empty directory has one link, the entry in its parent |
| `Links.FreeInode` | fs.c:331-352 | freeing an inode without links keeps it |
| `Links.NamedHasLink` | sysfile.c:211-212 | the panic "unlink: nlink < 1" is unreachable |
| `Sysfile.FileTree.Dirlookup` | fs.c:524-548 | the first entry in use with the name |
| `Sysfile.FileTree.Dirlink` | fs.c:551-578 | fails exactly on a taken name, panics exactly if else the directory is full; else the first empty entry is used |
| `Sysfile.FileTree.Isdirempty` | sysfile.c:168-181 | true exactly if no entry after the first two is in use |
| `Sysfile.FileTree.Namex` | fs.c:624-657 | the inode that the path leads to, or its parent; 0 exactly if there is none |
| `Sysfile.FileTree.Iput` | fs.c:331-352 | an inode with neither links nor references is freed, and the invariant stays |
| `Sysfile.FileTree.Create` | sysfile.c:241-283 | an existing file, or a new inode named by the first empty entry of the parent; fails, changing nothing, exactly if there is no parent or the name is taken otherwise than by a file where a file is asked for; panics exactly if there is no free inode or no room in the parent; the invariant stays |
| `Sysfile.FileTree.DirDots` | sysfile.c:269-275 | both entries of a new directory are made, so the panic "create dots" is unreachable |
| `Sysfile.FileTree.Link` | sysfile.c:118-165 | one more name for a file; fails, also after nlink was raised, exactly if the old path leads to no file or the new name has no parent or is taken, and leaves everything as it was; panics exactly if else the directory is full; the invariant stays |
| `Sysfile.FileTree.Unlink` | sysfile.c:184-239 | succeeds exactly if the parent is found and the name, neither "." nor "..", is there and names no directory or an empty one; then the entry is cleared and the counts lowered, else nothing changes; the invariant stays and no panic is met |
| `Sysfile.WalkIsLinked` | fs.c:624-657 | from a linked directory paths lead only to linked directories and to other inodes |
| `Sysfile.WalkIsUnique` | fs.c:624-657 | a path leads to one inode at most |
| `Sysfile.ReachedFromRoot` | sysfile.c:241-283 | every linked directory is reached from the root by a path as long as it is deep |
| `Sysfile.UpToRoot` | sysfile.c:269-275 | its depth in steps of ".." leads to the root, so there are no cycles |
| `LinkRuns.CountsWithInFlight` | sysfile.c:118-239 | in every interleaving of link, unlink, create, mkdir, rmdir, open and close, nlink of every inode in use is the number of entries that name it, in directories that are not being removed, plus the calls in progress that have raised it before making an entry or have yet to lower it after clearing one |
| `LinkRuns.StepKeeps` | sysfile.c:118-283 | each step keeps: with nlink less the calls in progress, counts and tree are those of Links |
| `LinkRuns.QuietIsOk` | sysfile.c:118-239 | when no call is in progress the invariant of Links holds as it stands |
| `LinkRuns.UnlinkFindsLink` | sysfile.c:211-212 | "unlink: nlink < 1" is unreachable among concurrent system calls too |
| `Removed.CreateSoundIff` | sysfile.c:247-280 | for any consistent inodes and any directory as parent, removed or not, counts and tree are right after create if and only if the parent is linked |
| `Removed.LinkSoundIff` | sysfile.c:140-151 | so after link |
| `Removed.MkdirSoundIff` | sysfile.c:265-275 | and after mkdir, which gives a removed parent a link but no place in the tree |
| `Removed.RemovedParentBreaks` | sysfile.c:247-280 | a concrete case: a file created in a removed directory has a link count of one and no entry that counts |
| `Proc.SchedulerSafe` | proc.c:322-356 | each step of a CPU's scheduler keeps the agreement of process states, c->proc, stacks, page directories and the owner of ptable.lock |
| `Proc.ThreadSafe` | proc.c:73-497 | so does each step of allocproc, fork, exit, wait, sched, yield, forkret, sleep, wakeup1 and kill |
| `Family.GoKeeps` | proc.c:180-312 | each statement keeps ownership of stacks and page directories, parents, and the progress of fork, exit and wait |
| `ProcRuns.RunningIsCurrent` | proc.c:322-413 | in every run a process is current on one CPU at most, and when ptable.lock is free it is RUNNING exactly if it is current on some CPU |
| `ProcRuns.ReapedIsNotInUse` | proc.c:287-300 | while wait frees a slot no CPU is on its kernel stack or its page directory or has it as current |
| `ProcRuns.NothingFreedInUse` | proc.c:264-300 | no CPU is ever on a kernel stack or a page directory that has been freed |
| `ProcRuns.ParentsAreLive` | proc.c:180-312 | every live or zombie process but init has a live parent; an UNUSED slot has no parent and owns nothing |
| `ProcRuns.ZombiesAreNoticed` | proc.c:250-312 | when ptable.lock is free no process that sleeps in wait has a zombie child |
| `ProcRuns.ReapedOnce` | proc.c:287-300 | no pid is reaped twice, nor while a process in the table has it |
| `SleepLock.ApplyKeeps` | sleeplock.c:22-53 | each statement of acquiresleep, releasesleep, holdingsleep, sleep, wakeup and kill keeps the invariant |
| `SleepLock.MutualExclusion` | sleeplock.c:22-42 | in every run a sleep lock has one holder at most |
| `SleepLock.NoLostWakeup` | proc.c:417-474 | while a process sleeps on a lock some process holds it, or is in releasesleep between clearing it and looking at the sleeper |
| `SleepLock.ReleaseWakesAll` | sleeplock.c:34-42 | when the wakeup of releasesleep is over nobody sleeps on the lock or is about to |
| `SleepLock.HoldingIsExact` | sleeplock.c:44-53 | holdingsleep answers whether its caller holds the lock |
| `FreeList.InsertSorted` | umalloc.c:33-42 | joining a block to a sorted, coalesced list and merging it with both neighbours keeps the list so |
| `FreeList.InsertUnits` | umalloc.c:33-42 | the list then covers its old units and the block's |
| `FreeList.CarveSorted` | umalloc.c:75-82 | taking n units off a block, or the whole block, keeps the list sorted and coalesced |
| `FreeList.CarveUnits` | umalloc.c:75-82 | the units are split between the list and the block taken |
| `FreeList.Canonical` | umalloc.c:24-44 | a sorted, coalesced list is determined by the units it covers |
| `Umalloc.StopsAtPred` | umalloc.c:30-32 | free's two tests stop at the block's place in address order and nowhere else, also around the wrap |
| `Umalloc.FreedLinked` | umalloc.c:33-42 | free's stores into headers make the circular list of the joined blocks |
| `Umalloc.TakenLinked` | umalloc.c:75-83 | malloc's stores make the circular list of what is left |
| `Umalloc.UnitsCoverIff` | umalloc.c:69 | the rounded size covers the request exactly unless the sum wraps in 32 bits |
| `Umalloc.AsksForAllIff` | umalloc.c:46-56 | morecore asks sbrk for the memory it then uses exactly for requests of at most 0x7FFFFFF0 bytes, or whose rounding wraps |
| `Umalloc.Heap.FindPred` | umalloc.c:30-32 | the search terminates at the predecessor in address order |
| `Umalloc.Heap.Free` | umalloc.c:24-44 | the block leaves the live ones and its units join the free ones; list, disjointness and the share-out of all units stay |
| `Umalloc.Heap.Morecore` | umalloc.c:46-61 | the new memory becomes free units, and then some block fits |
| `Umalloc.Heap.Search` | umalloc.c:74-86 | one lap ends, and finds a block exactly if one fits |
| `Umalloc.Heap.Malloc` | umalloc.c:63-90 | a new block of the rounded size, disjoint from all live ones; morecore is called at most once, and only if nothing fits; 0 exactly if then sbrk fails |
| `Frames.OwnedOnce` | vm.c:32-345 | every frame is referred to from exactly one place: the free list, one directory or one of its tables, or code that has just allocated it |
| `Frames.LinkTable` | vm.c:45-52 | linking a cleared frame as page table keeps that, and maps nothing |
| `Frames.LinkPage` | vm.c:71-73 | mapping a frame as a user page keeps it, and changes one entry |
| `Frames.CutPage` | vm.c:269-276 | unmapping a user page keeps it, and changes one entry |
| `Frames.ElsewherePages` | vm.c:221-298 | work on one directory leaves what others map alone |
| `PageBill.BillCounts` | vm.c:35-55 | the bill for tables, reckoned page by page, is the number of tables that the range needs and that are not there |
| `PageBill.NoTableForPage` | vm.c:233-246 | no frame for a table in the middle of a range means that the whole range needed more frames than were free |
| `Vm.PhysMem.Kalloc` | kalloc.c:82-95 | the head of the free list, or failure exactly if it is empty |
| `Vm.PhysMem.Kfree` | kalloc.c:59-77 | the frame, filled with junk, goes to the head of the free list |
| `Vm.PhysMem.WalkAlloc` | vm.c:35-55 | the page table for an address, allocated and cleared if need be; no mapping changes; failure exactly if there is no table and no free frame |
| `Vm.PhysMem.MapUser` | vm.c:60-80 | one page is mapped to the frame, all else stays; failure changes nothing and comes exactly if there is no table and no free frame; "remap" exactly if the page was present |
| `Vm.PhysMem.MapKernel` | vm.c:60-80 | a range is mapped page by page; with ranges in ascending order there is no "remap"; it fails exactly if fewer frames are free than tables are missing in the range |
| `Vm.PhysMem.Setupkvm` | vm.c:118-136 | a directory with exactly the kernel's mappings; it fails exactly if fewer than 65 frames are free, and then returns every frame |
| `Vm.PhysMem.Allocuvm` | vm.c:221-249 | the new pages are cleared frames that were free; it fails exactly if the size reaches the kernel or fewer frames are free than the new pages and the missing page tables, and then leaves every user page, bytes included, as before |
| `Vm.PhysMem.Deallocuvm` | vm.c:255-279 | no page of the range is left, skipping an absent table misses none, pages outside stay, and only the range's frames become free |
| `Vm.PhysMem.Freevm` | vm.c:283-298 | exactly the directory's frames become free, each once |
| `Vm.PhysMem.Copyuvm` | vm.c:315-345 | the child has the parent's bytes and flags in frames that were free, and the kernel's mappings; it fails exactly if fewer frames are free than the kernel part, the tables and the pages up to the first missing one take, and then returns every frame; a panic exactly if it gets to a page below sz that is missing |
| `Pipe.FullAndEmpty` | pipe.c:85-114 | the tests for full and empty are exact although the counters wrap at 2^32 |
| `Pipe.WrapPlace` | pipe.c:93 | a wrapped counter finds the right place in the ring |
| `Pipe.Stored` | pipe.c:93 | storing overwrites no byte that is still to be read |
| `Pipe.Taken` | pipe.c:116 | the next byte taken is the oldest one stored |
| `Pipe.Pipe.Write` | pipe.c:78-98 | between two sleeps: the bytes are appended in order; it sleeps or gives up only when the ring is full |
| `Pipe.Pipe.Read` | pipe.c:100-121 | between two sleeps: as many of the oldest bytes as asked for and there; it sleeps or gives up only when the ring is empty and open for writing |
| `Pipe.Schedule` | pipe.c:78-121 | for any schedule of any number of readers and writers the bytes read are a prefix of the bytes stored, at most PIPESIZE behind, and every writer's bytes are stored in its own order without loss |
| `Grep.BeginsCons` | grep.c:98-106 | an item followed by others begins a text exactly if some stretch fits the item and the others begin the rest |
| `Grep.StarStops` | grep.c:101-104 | a starred item takes no longer stretch than matchstar tries |
| `Grep.MatchHere` | grep.c:84-96 | terminates, and is true exactly if the pattern's items begin the text |
| `Grep.MatchStar` | grep.c:98-106 | terminates, and is true exactly if some stretch of accepted characters is followed by the rest of the pattern |
| `Grep.Match` | grep.c:72-82 | terminates, and is true exactly if the pattern matches at the start (with '^') or anywhere |
| `Sh.Parser.GetToken` | sh.c:265-308 | the next symbol, ">>" or maximal word, with the blanks around it |
| `Sh.Parser.Peek` | sh.c:310-320 | skips blanks; whether the next character is one of a set |
| `Sh.Parser.ParseRedirs` | sh.c:374-397 | terminates; the stretch reads as the redirections returned and as no others; a panic exactly if no sequence of redirections can end there |
| `Sh.Parser.ParseLine` | sh.c:344-359 | terminates; the stretch reads as the command by the grammar's rule for lines, no other command reads there up to where one can end, and a panic means that none does |
| `Sh.Parser.ParseBacks` | sh.c:350-353 | the loop over ampersands finds the one background command |
| `Sh.Parser.ParsePipe` | sh.c:361-372 | as for lines, by the rule for pipes |
| `Sh.Parser.ParseBlock` | sh.c:399-413 | so by the rule for blocks; the panic "parseblock" is unreachable |
| `Sh.Parser.ParseExec` | sh.c:415-446 | so by the rule for simple commands, with fewer than MAXARGS words, and blocks |
| `Sh.Parser.ParseArg` | sh.c:431-442 | one word with the redirections after it; each of the three panics means that no command reads there |
| `Grammar.ReadsCovers` | sh.c:344-446 | whatever reads as a command by the grammar contains exactly the words that the command refers to |
| `Grammar.RedirsUnique` | sh.c:374-397 | as many redirections from the same place are the same redirections |
| `Grammar.ArgsUnique` | sh.c:415-446 | as many words, with all redirections around them, are the same words and redirections |
| `Grammar.ArgsCompare` | sh.c:431-442 | the words read so far are a prefix of those of any whole command there |
| `Grammar.PlainFound` | sh.c:415-446 | where words and redirections stop no other simple command reads, and none at all if nothing may follow |
| `Grammar.BlockFound` | sh.c:399-413 | the grammar's blocks are found part by part |
| `Grammar.PipeFound` | sh.c:361-372 | so are its pipes |
| `Grammar.BackFound` | sh.c:350-353 | so are its background commands, although the rule is left-recursive and the code a loop |
| `Grammar.ListFound` | sh.c:354-357 | so are its lists |
| `Sh.Shell.Nulterminate` | sh.c:449-493 | a NUL at the end of every string of the command and no other change |
| `Sh.Terminated` | sh.c:449-493 | no terminator lands inside a word, so every string is then a C string equal to its word |
| `Sh.Shell.ParseCmd` | sh.c:327-342 | a command exactly if the line reads as one, and then the only one; it refers to exactly the line's words, and each is afterwards a C string equal to its word |

## Left out

- Tight.TenLogged: the disk has four groups of blocks under one bitmap block each; FSSIZE in param.h gives one, so the shipped image cannot reach the limit. What its directories contain is not modelled.
- UnlinkLog.Unlink: only the case in which the inode is freed; the shipped image, with one bitmap block, is within the bound.
- Fs.FileSystem.Bmap: the bitmap, the inode table and the blocks are separate fields instead of areas of one disk, and only the indirect block is modelled down to its bytes; packing of bits and inodes into blocks is not modelled.
- Fs.FileSystem.Iupdate: the inode's type, device numbers and link count are carried along in one record; device inodes (T_DEV) in readi and writei are not modelled.
- Log.WriteAheadLog.Commit: a list longer than the log area is excluded by a precondition; LogMachine has that case and LogPanics.ListFitsIff says when it does not arise.
- Log.WriteAheadLog.Bread: eviction and the number of buffers are in LogMachine, not in this class; the disk is the synchronous one of memide.c.
- Bio.BufferCache.Bget: acquiresleep after the section under bcache.lock is a step of BioRuns; the contents of buffers are in LogMachine.
- Sysfile.FileTree.Link: system calls run one after another here; the starting directory of a path is one that has not been removed, and dirlink does not run out of disk blocks. LinkRuns interleaves these calls, and Removed has the theorem for a removed parent.
- Sysfile.FileTree.Create: the same two assumptions, on the starting directory and on disk blocks.
- Sysfile.FileTree.Unlink: the same assumption on the starting directory.
- LinkRuns.StepKeeps: mkdir is a single step, because both inodes stay locked throughout, and an entry is made in a directory that is still linked.
- Sysfile.FileTree.Namex: paths are given as their elements; skipelem and the truncation of names to DIRSIZ are not modelled.
- Links.MakeLink: link counts do not overflow a 16-bit integer.
- ProcRuns.ReapedOnce: pids do not wrap around.
- Proc.ThreadSafe: open files, the working directory, names, trap frames and exec are not modelled; straight-line statements under ptable.lock that touch one slot are one step.
- SleepLock.ApplyKeeps: switching through the scheduler is one step here; it is taken apart in Proc.
- Umalloc.Heap.Malloc: addresses are in units of a header and do not wrap; sbrk returns memory above all it returned before, and a request for which Umalloc.AsksForAllIff shows that sbrk is asked for something else is modelled only where sbrk is not needed or fails.
- Vm.PhysMem.Kfree: the links of the free list, which the code keeps inside the free pages, are a sequence; the panic on an address that is no frame's, and the lock kmem.lock, are not modelled.
- Vm.PhysMem.Allocuvm: assumes that no page above the old size is present, as the callers keep it.
- Sh.Parser.ParseExec: redirections are wrapped around the command when it is complete, where the code wraps the same command node earlier and fills it afterwards.
- Grep.Match: the line buffering of grep() is not modelled.
- Drivers, interrupts, the boot code, spin locks below acquire and release, exec, the console, mkfs and running of shell commands are not modelled.
- iget, ilock and the inode cache's reference counts are not modelled, beyond a number of outside references to an inode.
