# Models of the repository's core algorithms

A Dafny 4.11 project that models, and proves properties of, the parts of the
repository in which an invariant has to survive every step of every run. Check
everything with `dafny verify dfyconfig.toml`.

| file | models | main results |
|---|---|---|
| `log.dfy` | xv6 write-ahead log | a crash between any two disk writes, in recovery too, leaves all of a transaction or none; exactly when `log_write` cannot panic |
| `vm.dfy` | xv6 Sv39 page tables and page pool | a tree of pages behaves as a flat map; no frame is lost, shared or freed twice; failures give everything back |
| `usercopy.dfy` | copies to and from user memory | exactly the accessible bytes are copied, across pages; processes, after fork too, do not see each other's writes |
| `fs.dfy` | xv6 inode blocks | files are byte sequences over a bitmap, inodes and indirect blocks; each block has one owner |
| `transaction.dfy` | file operations over the log | what an operation logs covers what it changed and fits its share, or exactly when not; after a crash anywhere every file is old or every file is new, for groups of operations too |
| `umalloc.dfy` | K&R user allocator | one address-ordered cycle, coalesced; blocks tile the heap; the search ends |
| `sleep.dfy` | sleep, wakeup, scheduler | no lost wakeup in any interleaving, wakers preempted or not |
| `family.dfy` | fork, exit, wait | every parent is alive; no pid is reaped twice; nobody sleeps in wait on a zombie child |
| `bio.dfy` | buffer cache | cache and disk together are one plain disk; the ring is in order of use |
| `virtio.dfy` | virtio block driver | free descriptors, chains and wrapping rings agree in any order of driver and device |
| `pipe.dfy` | pipes | bytes taken out are a prefix of bytes put in |
| `lottery.dfy` | lottery scheduler | each process wins exactly its tickets; all runnable processes behind the winner run too |
| `grep.dfy` | grep's matcher and line loop | sound and complete for the pattern's language |
| `paging.dfy` | replacement policies of `mmap2.c` | LRU and Clock evict alike |
| `binalloc.dfy` | Raspberry Pi bin allocator, intrusive lists | aligned blocks tile memory; no merge ever happens |
| `path.dfy` | path components | a lazy parser that agrees with itself from both ends |
| `xmodem.dfy` | XMODEM, both sides | alterations are found; what arrives is a prefix of the input, and all of it unless one packet fails ten times |

Two styles occur. Where steps of several parties interleave (log, sleep, family,
xmodem), a state machine has one step per disk write, byte or shared-memory access,
and the results are about every run. Elsewhere the code is a class whose methods
have the source's loops and branches, with contracts that state the whole new state.
In the machines, `Apply` gives the steps: in `log.dfy` for log.c, where a class with
the code's loops is shown to take such steps only; in `sleep.dfy` `StepOf` for sleep,
yield and sched, `SchedOf` for scheduler, `ScanOf` for wakeup and kill; in `family.dfy`
`ForkOf`, `ExitOf` and `WaitOf` for fork, exit with reparent, and wait; in `xmodem.dfy` `Sender` and `Receiver` for
the two sides of lib.rs, where again a class with the code's loops takes such steps only.
Fields declared `ghost` are proof state and have no counterpart in the source. A
panic in the source is a precondition, or a step that is shown not to be reached.

Where code and comments disagree the code is followed. `mkfs.c:25` reserves
`LOGSIZE` blocks for the log, of which one is the header, so `log_write`'s check
can fire within the promised budget (`NeverPanicsIff`, `PanicsIff`). `bin.rs:139` probes half
a block away from the block being freed, so its merge branch is dead
(`PairIsInside`). In `umalloc.c` the byte count for `sbrk` passes through a C `int`, so a
request of 2 GiB or more makes a block of memory that was not granted (`BackedIff`).
A copy from user memory that fails midway leaves its first bytes in a cached block
(`fs.c:522-524`): they show in the file, though they are neither reported nor logged
(`FailedCopy`; when exactly: `FailedCopyIff`, `HarmlessLogged`, `UnloggedUncovered`).
`itrunc` logs every bitmap block under which the file has a block, which on a large disk
can be more than an operation may log (`TruncFitsIff`, `TruncCanExceed`). The comments of
`linked_list.rs:32-58` let each node of a walk be popped; popping two neighbours leaves
the second in the list (`WalkRightIff`).

## Model

| member | source | states |
|---|---|---|
| `WriteAheadLog.StepInv` | CLab/xv6/kernel/log.c:126-235 | every step of every thread, and a crash, keeps: logged blocks distinct and homes outside the log, list length plus unspent budgets within LOGSIZE, memory equal to disk off the list |
| `WriteAheadLog.StepRefines` | CLab/xv6/kernel/log.c:177-203 | each step looks to files like nothing, one write, one atomic commit, or a loss of what was not committed |
| `WriteAheadLog.CrashSafety` | CLab/xv6/kernel/log.c:67-123 | after any run with crashes anywhere, recovery included, the replayed disk is the last committed state and running on shows all writes |
| `WriteAheadLog.CommitIsQuiescent` | CLab/xv6/kernel/log.c:147-174 | commit runs only with no operation active, and none can start meanwhile |
| `WriteAheadLog.NeverPanicsIff` | CLab/xv6/kernel/log.c:220-221 | a log_write within its operation's budget cannot panic in any run if and only if the log has more than LOGSIZE blocks |
| `WriteAheadLog.RelogCanPanic` | CLab/xv6/kernel/log.c:220-228 | a reachable state, for every log size, in which logging a block that is already in the list panics: the check comes before absorption |
| `WriteAheadLog.PanicsIff` | CLab/xv6/kernel/log.c:220-228 | in every reachable state log_write panics, be the block new or listed, if and only if the list has its greatest length; and then every active operation has spent its budget |
| `WriteAheadLog.LogDevice.Restart` | CLab/xv6/kernel/log.c:54-65 | memory after a restart is the disk, in the state a crash leaves |
| `WriteAheadLog.LogDevice.Bwrite` | CLab/xv6/kernel/log.c:77 | one block of the disk changes, memory agrees with it |
| `WriteAheadLog.LogDevice.ReadHead` | CLab/xv6/kernel/log.c:85-97 | the in-memory list becomes the one on disk |
| `WriteAheadLog.LogDevice.WriteHead` | CLab/xv6/kernel/log.c:102-114 | the header block gets the list, and keeps its other words |
| `WriteAheadLog.LogDevice.BeginOp` | CLab/xv6/kernel/log.c:126-142 | admits exactly when no commit runs and the budget fits, as a step of the machine |
| `WriteAheadLog.LogDevice.Absorb` | CLab/xv6/kernel/log.c:225-233 | the list gains the block if and only if it was not there |
| `WriteAheadLog.LogDevice.LogWrite` | CLab/xv6/kernel/log.c:214-235 | the block is in the list and its contents in memory, as a step of the machine |
| `WriteAheadLog.LogDevice.EndOp` | CLab/xv6/kernel/log.c:146-175 | the last operation to end commits the whole group |
| `WriteAheadLog.LogDevice.WriteLog` | CLab/xv6/kernel/log.c:178-191 | each listed block reaches its slot by steps of the machine |
| `WriteAheadLog.LogDevice.InstallTrans` | CLab/xv6/kernel/log.c:68-83 | each listed block reaches its home by steps of the machine |
| `WriteAheadLog.LogDevice.Commit` | CLab/xv6/kernel/log.c:193-203 | everything written is durable and the log empty again |
| `WriteAheadLog.LogDevice.RecoverFromLog` | CLab/xv6/kernel/log.c:116-123 | after recovery the home blocks are the replayed disk |
| `WriteAheadLog.LogDevice.Settled` | CLab/xv6/kernel/log.c:67-123 | whatever steps the code took, the disk is what the abstract files say |
| `Umalloc.Units` | CLab/xv6/user/umalloc.c:69 | header units that hold the request and its header, and no unit more |
| `Umalloc.SbrkArgumentIff` | CLab/xv6/user/umalloc.c:52-54 | the int that sbrk gets is the number of bytes wanted if and only if fewer than 2^27 units are asked for |
| `Umalloc.BackedIff` | CLab/xv6/user/umalloc.c:46-61 | what the heap takes from sbrk for a request was granted by it if and only if fewer than 2^27 units were asked for |
| `Umalloc.CycleInOrder` | CLab/xv6/user/umalloc.c:27-44 | the list from base is one cycle through all free blocks in address order |
| `Umalloc.FreeOk` | CLab/xv6/user/umalloc.c:33-43 | splicing a block in, joined to its neighbours or not, keeps order, the cycle, coalescing and the tiling |
| `Umalloc.TakenTailOk` | CLab/xv6/user/umalloc.c:79-81 | giving away the upper end of a block keeps them |
| `Umalloc.TakenWholeOk` | CLab/xv6/user/umalloc.c:76-77 | giving away a whole block keeps them |
| `Umalloc.GrownOk` | CLab/xv6/user/umalloc.c:57-59 | memory from sbrk is a new live block apart from all others |
| `Umalloc.StepCloser` | CLab/xv6/user/umalloc.c:30-32 | free's search comes nearer to its place with each node |
| `Umalloc.PassedStep` | CLab/xv6/user/umalloc.c:74-89 | malloc's search has met every node by the time it is back at freep |
| `Umalloc.Heap.FindPlace` | CLab/xv6/user/umalloc.c:30-32 | the loop ends at the node after which the block belongs |
| `Umalloc.Heap.Splice` | CLab/xv6/user/umalloc.c:33-43 | the list, sizes and pointers after linking, joined on either side exactly when adjacent |
| `Umalloc.Heap.Free` | CLab/xv6/user/umalloc.c:24-44 | the block is free again, every other live block untouched |
| `Umalloc.Heap.Morecore` | CLab/xv6/user/umalloc.c:46-61 | at least 4096 units more are free, or nothing has changed; what sbrk granted for the count that it got |
| `Umalloc.Heap.TakeWhole` | CLab/xv6/user/umalloc.c:76-77 | the node leaves the cycle |
| `Umalloc.Heap.TakeTail` | CLab/xv6/user/umalloc.c:79-81 | the node shrinks by what its end gives away |
| `Umalloc.Heap.Malloc` | CLab/xv6/user/umalloc.c:63-90 | for every request: a block large enough, apart from all live ones, which stay; null only if sbrk failed; ends after at most one sbrk that succeeds |
| `Umalloc.Heap.LiveApart` | CLab/xv6/user/umalloc.c:63-90 | blocks handed out do not overlap |
| `PageTables.MakePte` | CLab/xv6/kernel/riscv.h:386-390 | address and flags can be read back from an entry, and when it looks like one of an upper level |
| `PageTables.PxIndices` | CLab/xv6/kernel/riscv.h:393-395 | PX cuts a virtual page number into its three indices |
| `PageTables.LeafWritten` | CLab/xv6/kernel/vm.c:165 | storing a leaf entry changes the flat map at that page of that tree and nowhere else |
| `PageTables.NewTableOk` | CLab/xv6/kernel/vm.c:96-99 | a new interior page changes no address's entry, no data, and no other tree |
| `PageTables.LinkRead` | CLab/xv6/kernel/vm.c:92-94 | an upper entry is valid exactly if there is a page below it, and names that page |
| `PageTables.FreeIsTheRest` | CLab/xv6/kernel/kalloc.c:46-82 | the free list has each frame of the pool that is neither held nor a page table, once |
| `PageTables.Machine.constructor` | CLab/xv6/kernel/kalloc.c:21-24 | at boot all frames are held, the list is empty and there is no page table, in order |
| `PageTables.Machine.Freerange` | CLab/xv6/kernel/kalloc.c:26-40 | the free list gains exactly the whole pages between the two addresses |
| `PageTables.Undone` | CLab/xv6/kernel/vm.c:244-253 | unmapping what was added gives the flat map and the frames back |
| `PageTables.Machine.Kalloc` | CLab/xv6/kernel/kalloc.c:68-82 | the head of the chain of free frames, full of junk, or 0 if there is none |
| `PageTables.Machine.Kfree` | CLab/xv6/kernel/kalloc.c:46-63 | a held frame goes to the head of the chain |
| `PageTables.Machine.Walk` | CLab/xv6/kernel/vm.c:85-103 | the place of the page's leaf entry, or 0 if there is no page for it; the flat map, data and held frames never change; with alloc it fails only out of memory |
| `PageTables.Machine.Mappages` | CLab/xv6/kernel/vm.c:143-172 | the flat map gains exactly the range, or on -1 a prefix of it |
| `PageTables.Machine.Uvmunmap` | CLab/xv6/kernel/vm.c:177-199 | the flat map loses exactly the range, and with do_free each of its frames goes back once |
| `PageTables.Machine.Uvmdealloc` | CLab/xv6/kernel/vm.c:262-274 | the pages between the rounded sizes go, or none |
| `PageTables.Machine.AddPage` | CLab/xv6/kernel/vm.c:243-253 | one page mapped to a new frame with given contents, or nothing changed |
| `PageTables.Machine.Uvmalloc` | CLab/xv6/kernel/vm.c:232-256 | the whole range in zeroed frames of its own; or 0 with the flat map and frames as before, and then only if fewer free frames than three a page were there |
| `PageTables.Machine.Uvmcopy` | CLab/xv6/kernel/vm.c:312-340 | the child gets equal pages in frames of its own, the parent is untouched; or -1 with flat maps and frames as before |
| `PageTables.Machine.Uvmcreate` | CLab/xv6/kernel/vm.c:203-212 | a tree that maps nothing, or 0 |
| `PageTables.Machine.Freewalk` | CLab/xv6/kernel/vm.c:278-294 | it ends, frees the pages at and below a node once each, and leaves all other pages as they were |
| `PageTables.Machine.Uvmfree` | CLab/xv6/kernel/vm.c:298-304 | all of one tree goes, its data frames and its pages; every other tree's map stays |
| `UserCopy.PutThenGet` | CLab/xv6/kernel/vm.c:376 | storing a byte of a word changes that byte and no other |
| `UserCopy.MovedAt` | CLab/xv6/kernel/vm.c:376 | memmove within a page: the bytes are where they were put, the others stay |
| `UserCopy.Walkaddr` | CLab/xv6/kernel/vm.c:109-126 | the frame of a page that the user may read, and 0 for every other address |
| `UserCopy.Copyout` | CLab/xv6/kernel/vm.c:359-383 | the user's memory gets the longest prefix of the bytes that lies where the user may write, and 0 exactly if that is all; page tables, other data and rights stay |
| `UserCopy.Copyin` | CLab/xv6/kernel/vm.c:389-408 | the user's bytes up to the first that cannot be read, and 0 exactly if that is all of them; nothing changes |
| `UserCopy.Copyinstr` | CLab/xv6/kernel/vm.c:415-451 | 0 exactly if a NUL comes within max readable bytes, and then the bytes up to it |
| `UserCopy.WriteThenRead` | CLab/xv6/kernel/vm.c:359-408 | copyin gives back what copyout wrote |
| `UserCopy.OthersKept` | CLab/xv6/kernel/vm.c:359-383 | writing to one process's memory changes no byte that another can read |
| `UserCopy.TablesKept` | CLab/xv6/kernel/vm.c:359-383 | no page-table page and no free frame is written to |
| `UserCopy.SameToBoth` | CLab/xv6/kernel/vm.c:312-340 | after uvmcopy parent and child read the same bytes with the same rights |
| `UserCopy.ForkedApart` | CLab/xv6/kernel/vm.c:312-340 | after uvmcopy no frame that one of them reaches is the other's |
| `UserCopy.RunIsolates` | CLab/xv6/kernel/vm.c:359-383 | in every run of writes to two processes each one's memory is what its own writes make of it |
| `UserCopy.ForkIsolates` | CLab/xv6/kernel/vm.c:312-383 | after fork and any sequence of writes to either process, each reads what the parent had but for its own last writes |
| `FileBlocks.MarksApart` | CLab/xv6/kernel/fs.c:75-77 | setting a block's bit changes no other block's bit |
| `FileBlocks.UnmarksApart` | CLab/xv6/kernel/fs.c:98-102 | clearing a block's bit changes no other block's bit |
| `FileBlocks.WordSet` | CLab/xv6/kernel/fs.c:408-413 | an entry of an indirect block reads back, the others stay |
| `FileBlocks.MarkedIffReferenced` | CLab/xv6/kernel/fs.c:65-105 | the bitmap marks exactly the metadata and the blocks that some inode or indirect block refers to, each from one place |
| `FileBlocks.FreshOk` | CLab/xv6/kernel/fs.h:8-24 | a file system of empty files is in order |
| `FileBlocks.TakenFacts` | CLab/xv6/kernel/fs.c:76-81 | a block that balloc finds is no file's, and taking it changes no file |
| `FileBlocks.RefDropped` | CLab/xv6/kernel/fs.c:98-104 | giving a block back with its one reference keeps the bitmap exact |
| `FileBlocks.FileSystem.Balloc` | CLab/xv6/kernel/fs.c:66-88 | the lowest free block, zeroed; 0 only if every bit is set |
| `FileBlocks.FileSystem.Bfree` | CLab/xv6/kernel/fs.c:91-105 | that bit alone is cleared; the panic on a free block is the precondition |
| `FileBlocks.FileSystem.NewAddr` | CLab/xv6/kernel/fs.c:389-393 | one address of one inode gains a new zeroed block, all other references and data stay |
| `FileBlocks.FileSystem.NewEntry` | CLab/xv6/kernel/fs.c:409-414 | one entry of one indirect block gains a new zeroed block, all other references and data stay |
| `FileBlocks.FileSystem.Bmap` | CLab/xv6/kernel/fs.c:382-421 | the block at an index; if there was one nothing changes, else only that index gains a zeroed block; 0 only on a full disk; every block changed is logged, the inode's aside |
| `FileBlocks.FileSystem.Readi` | CLab/xv6/kernel/fs.c:471-496 | exactly the file's bytes in the range, cut at its size, as far as the reader's memory can be written, -1 if not all; nothing on disk changes, and bmap never has to allocate |
| `FileBlocks.FileSystem.Writei` | CLab/xv6/kernel/fs.c:505-539 | the file is its old bytes with a prefix of the new ones over them, grown if need be; all other files stay; -1 exactly for a bad range; how many bytes are reported and how many show, from what can be read and whether the next block is there; what changed was logged, in at most LogBound blocks and the inode's, which comes last, or else one block that was there before has changed and was not |
| `FileBlocks.CopyDecides` | CLab/xv6/kernel/fs.c:517-528 | with a block free, or within the file's size, the number of bytes reported is fixed by what can be read: all, or up to the last whole block |
| `FileBlocks.WholeIff` | CLab/xv6/kernel/fs.c:517-528 | all that is copied is also reported if and only if everything can be read, or nothing, or what can be read ends with a block |
| `FileBlocks.ShowsReportedIff` | CLab/xv6/kernel/fs.c:522-524 | after a copy that fails midway the file shows what was reported exactly if the bytes copied within its size equal those that were there |
| `FileBlocks.FailedCopyIff` | CLab/xv6/kernel/fs.c:517-528 | the same from the call's inputs alone: for any file, offset, bytes and number of bytes that can be read |
| `FileBlocks.FailedCopy` | CLab/xv6/kernel/fs.c:522-524 | a call for which it fails: nothing is reported, the file has changed, and its block was not logged |
| `FileBlocks.HarmlessLogged` | CLab/xv6/kernel/fs.c:522-526 | the caller can tell before the call that all will be logged: the block in which the copy fails is not there yet, or holds these bytes, as when the copy fails between blocks or not at all; and unless the disk is full before that, all is logged only then |
| `FileBlocks.UnloggedUncovered` | CLab/xv6/kernel/fs.c:522-526 | in every other case the log does not cover the change |
| `FileBlocks.LoggedShows` | CLab/xv6/kernel/fs.c:522-526 | if all was logged the file shows just what is reported |
| `FileBlocks.CoversTrans` | CLab/xv6/kernel/log.c:214-235 | what two steps log together covers what they change together |
| `FileBlocks.AccountedBound` | CLab/xv6/kernel/fs.c:512-527 | a loop of k calls of bmap, a of which took a block, logs at most k + a + 2 blocks |
| `FileBlocks.FileSystem.Itrunc` | CLab/xv6/kernel/fs.c:425-453 | the file is empty, its blocks and only they are free, no other file changed, and bfree is never called on a free block; what is logged covers the change, and is exactly the bitmap blocks of the file's blocks and then the inode's |
| `FileBlocks.TruncFitsIff` | CLab/xv6/kernel/fs.c:425-453 | that is within a share of n blocks if and only if the file's blocks lie under fewer than n bitmap blocks |
| `FileBlocks.ScatteredOk` | CLab/xv6/kernel/param.h:17 | a disk of 200000 blocks in order with a file whose 12 blocks lie under 12 bitmap blocks |
| `FileBlocks.WriteThenRead` | CLab/xv6/kernel/fs.c:471-539 | readi returns what writei reported as written, which is all but on a full disk or after a failed copy |
| `Transactions.FilesOnDisk` | CLab/xv6/kernel/fs.h:31-51 | reading inodes, indirect blocks and data from nothing but a disk's blocks gives the files of the file system that it holds |
| `Transactions.UpdatedHas` | CLab/xv6/kernel/log.c:214-235 | writing the logged blocks of an operation whose log covers its change brings a disk from the old file system to the new |
| `Transactions.ChunkFits` | CLab/xv6/kernel/file.c:148-155 | filewrite's chunk size is right: wherever a chunk starts and whatever it allocates, it logs at most MAXOPBLOCKS blocks |
| `Transactions.CrashAnywhere` | CLab/xv6/kernel/log.c:67-123 | a crash at any step of a transaction, and recovery: every file is as before it, or every file is as after it |
| `Transactions.LogAll` | CLab/xv6/kernel/log.c:214-235 | no log_write of an operation that fits its share panics, and what is current becomes the new file system |
| `Transactions.GroupHas` | CLab/xv6/kernel/log.c:214-235 | the log_writes of any number of operations, in any order: if what they name covers the change and the last one of each block is up to date, what is current is the new file system |
| `Transactions.GroupOldOrNew` | CLab/xv6/kernel/log.c:126-235 | so such a group becomes durable as a whole or not at all, at every step |
| `Transactions.WriteChunk` | CLab/xv6/kernel/file.c:162-167 | begin_op, writei and end_op, admitted exactly by begin_op's guards: the file is written and no other changed; what is current, and with the last end_op what is durable, is the new file system if and only if all that changed was logged; then at every step what is durable is all old or all new |
| `Transactions.WriteBoth` | CLab/xv6/kernel/file.c:162-167 | two chunks on different files whose changes and log_writes interleave in one group, in any order: both files are written, no other changed, and at every step what is durable is all old or has both writes |
| `Transactions.Truncate` | CLab/xv6/kernel/fs.c:425-453 | itrunc as a transaction, for a file that fits: admitted exactly by begin_op's guards; the file is empty and no other changed, and at every step what is durable is all old or all new |
| `Transactions.TruncFits` | CLab/xv6/kernel/fs.c:425-453 | every file fits if the disk has fewer than MAXOPBLOCKS bitmap blocks |
| `Transactions.TruncCanExceed` | CLab/xv6/kernel/param.h:12-17 | on a disk of the size that param.h allows a file can need more than an operation's share |
| `SleepWakeup.InvKept` | CLab/xv6/kernel/proc.c:444-616 | after any step of anyone, yields between two entries of a wakeup's or kill's loop included, who holds a process's lock is who its code position says, and its state agrees with where it is |
| `SleepWakeup.InvAlways` | CLab/xv6/kernel/proc.c:444-616 | so in every run |
| `SleepWakeup.InvInit` | CLab/xv6/kernel/proc.c:444-481 | with all processes runnable and all locks free it holds |
| `SleepWakeup.LoopAtSleeper` | CLab/xv6/kernel/proc.c:583-591 | a waker that gets a sleeper's lock finds it asleep on the channel, or already woken |
| `SleepWakeup.NoLostWakeup` | CLab/xv6/kernel/proc.c:547-592 | if a process gives up lk in sleep(chan, lk) and later a call of wakeup(chan) begins and returns, it is no longer stuck in that sleep, whatever ran in between |
| `SleepWakeup.WakerAfterGiveUp` | CLab/xv6/kernel/proc.c:552-560 | whoever holds lk finds no process between its call of sleep and its giving up lk |
| `SleepWakeup.SchedNeverPanics` | CLab/xv6/kernel/proc.c:490-508 | at sched() the process holds its own lock, no other, and is not RUNNING |
| `SleepWakeup.OneProcessor` | CLab/xv6/kernel/proc.c:444-481 | no process runs, or is about to, on two processors |
| `Family.InvKept` | CLab/xv6/kernel/proc.c:280-435 | every step keeps parents alive, slots and pids apart, what each loop has settled so far, and parents of exiting processes awake |
| `Family.FamilySafety` | CLab/xv6/kernel/proc.c:331-435 | in every run: a parent is always alive, a zombie always has one, and wait returns each pid at most once |
| `Family.WaitMissesNothing` | CLab/xv6/kernel/proc.c:399-434 | wait sleeps only if no child is a zombie, and reports no children only if there are none |
| `Family.NoZombieSleptOn` | CLab/xv6/kernel/proc.c:331-434 | in every run nobody sleeps in wait while a child of his is a zombie, handed on to init or not |
| `Family.InvInit` | CLab/xv6/kernel/proc.c:233-256 | with init alone the invariant holds |
| `Family.ReapedIsGone` | CLab/xv6/kernel/proc.c:403-421 | a zombie leaves the table only by its parent's wait, off its kernel stack, and its pid is what wait returns |
| `BufferCache.Unlinked` | CLab/xv6/kernel/bio.c:128-129 | the two stores take one buffer out of the ring |
| `BufferCache.Linked` | CLab/xv6/kernel/bio.c:130-133 | the four stores put a buffer at the front |
| `BufferCache.Oldest` | CLab/xv6/kernel/bio.c:77-78 | the first unused buffer from the back is the one moved to the front longest ago |
| `BufferCache.RecycledOk` | CLab/xv6/kernel/bio.c:78-82 | recycling changes no block's contents: an unused buffer has nothing that the disk has not |
| `BufferCache.BCache.constructor` | CLab/xv6/kernel/bio.c:36-53 | a ring of all buffers, and the cache stands for the disk |
| `BufferCache.BCache.Bget` | CLab/xv6/kernel/bio.c:58-89 | the block's only buffer, or the least recently used of those not in use; contents of no block change |
| `BufferCache.BCache.Bread` | CLab/xv6/kernel/bio.c:92-103 | the last contents stored for the block |
| `BufferCache.BCache.Store` | CLab/xv6/kernel/fs.c:76 | changing a buffer in use changes the contents of its block and of no other |
| `BufferCache.BCache.Bwrite` | CLab/xv6/kernel/bio.c:106-112 | the buffer is on the disk; contents of no block change |
| `BufferCache.BCache.Brelse` | CLab/xv6/kernel/bio.c:116-137 | one use less, to the front if it was the last; contents of no block change |
| `BufferCache.BCache.Bpin` | CLab/xv6/kernel/bio.c:140-144 | a pinned buffer is in use, so it is not recycled |
| `BufferCache.BCache.Bunpin` | CLab/xv6/kernel/bio.c:147-151 | one use less |
| `VirtioDisk.RingPushed` | CLab/xv6/kernel/virtio_disk.c:272-277 | an entry added at a 16-bit index modulo the ring's size overwrites no unread one, even as the index wraps |
| `VirtioDisk.RingPopped` | CLab/xv6/kernel/virtio_disk.c:312-324 | the entry at the index is the oldest unread one |
| `VirtioDisk.RingEmptyIff` | CLab/xv6/kernel/virtio_disk.c:312 | equal indices mean that nothing is unread, and nothing else |
| `VirtioDisk.FreeIffUnused` | CLab/xv6/kernel/virtio_disk.c:41-51 | free[] is the complement of the chains in flight, which are three descriptors each and share none |
| `VirtioDisk.Disk.AllocDesc` | CLab/xv6/kernel/virtio_disk.c:156-166 | a free descriptor becomes used, -1 only if there is none |
| `VirtioDisk.Disk.FreeDesc` | CLab/xv6/kernel/virtio_disk.c:169-182 | the descriptor is cleared and free; both panics are the precondition |
| `VirtioDisk.Disk.Alloc3` | CLab/xv6/kernel/virtio_disk.c:201-213 | three distinct descriptors, or none if fewer than three are free |
| `VirtioDisk.PublishedOk` | CLab/xv6/kernel/virtio_disk.c:272-277 | moving the index over a slot that is filled in makes the request the device's, and keeps everything in order |
| `VirtioDisk.SlottedOk` | CLab/xv6/kernel/virtio_disk.c:272 | the slot is written before the index moves, and is none that the device may read |
| `VirtioDisk.Disk.FreeChain` | CLab/xv6/kernel/virtio_disk.c:185-197 | following the next flags frees exactly the chain's three descriptors |
| `VirtioDisk.Disk.Begin` | CLab/xv6/kernel/virtio_disk.c:216-281 | while the device runs between any two stores: the request is published for it in a chain of its own; or, only if fewer than three descriptors were free, nothing has changed but that free descriptors are cleared |
| `VirtioDisk.Disk.End` | CLab/xv6/kernel/virtio_disk.c:288-291 | a buffer given back by the device has a finished request, and its descriptors and no others become free |
| `VirtioDisk.Disk.Intr` | CLab/xv6/kernel/virtio_disk.c:295-327 | while the device runs on: exactly the requests that the device has finished become done, each once, and none of an unfinished one; the status panic is not reached |
| `VirtioDisk.Disk.DeviceTake` | CLab/xv6/kernel/virtio_disk.c:271-281 | the device sees requests in the order in which they were published |
| `VirtioDisk.Disk.DeviceComplete` | CLab/xv6/kernel/virtio_disk.c:238-265 | a device that follows the descriptors moves exactly the request's buffer and block, in the right direction |
| `Pipes.Counters` | CLab/xv6/kernel/pipe.c:88 | the wrapping counters say exactly when the ring is full and when it is empty |
| `Pipes.PipeDev.Write` | CLab/xv6/kernel/pipe.c:77-103 | what was accepted grows by the bytes reported; it sleeps only when full, and fails only if closed or killed |
| `Pipes.PipeDev.Read` | CLab/xv6/kernel/pipe.c:106-130 | the next accepted bytes, in order; a failed copy loses exactly one byte |
| `Pipes.PipeDev.Close` | CLab/xv6/kernel/pipe.c:59-74 | one end closes, the bytes stay, and the page is freed exactly when both ends are closed |
| `Lottery.TotalTickets` | CLab/xv6/kernel/proc_our.c:575-581 | the tickets of all runnable processes |
| `Lottery.Dispatch` | CLab/xv6/kernel/proc_our.c:595-647 | the first to run is the ticket's winner; every later runnable process runs too |
| `Lottery.FairShare` | CLab/xv6/kernel/proc_our.c:592-609 | exactly its number of tickets of the winning tickets make a process the first to run |
| `Lottery.Scheduler.Turn` | CLab/xv6/kernel/proc_our.c:568-654 | one turn draws from the generator and runs the winner and then exactly the runnable processes behind it, in order; with no tickets nothing is drawn and nobody runs |
| `Grep.HereStar` | CLab/xv6/user/grep.c:98-106 | trying the rest after each repetition finds a match exactly if there is one |
| `Grep.HereSingle` | CLab/xv6/user/grep.c:93-94 | one character and then the rest |
| `Grep.HereAnchor` | CLab/xv6/user/grep.c:91-92 | a final dollar matches the end of the text only |
| `Grep.MatchHere` | CLab/xv6/user/grep.c:85-96 | true exactly if the text begins with a word of the pattern's language |
| `Grep.MatchStar` | CLab/xv6/user/grep.c:99-106 | true exactly if after some repetitions the rest matches |
| `Grep.Match` | CLab/xv6/user/grep.c:72-82 | sound and complete: true exactly if the pattern selects the text |
| `Grep.SelectedOn` | CLab/xv6/user/grep.c:18-34 | cutting the input anywhere and keeping the unfinished line selects the same lines |
| `Grep.Lines` | CLab/xv6/user/grep.c:21-33 | the selected whole lines of the buffer, and what is left after the last newline |
| `Grep.GrepFile` | CLab/xv6/user/grep.c:11-35 | for any sizes of reads the output is the selected lines of the input, up to its end or to a line that fills the buffer |
| `Paging.Cache.LeastRecent` | CLab/mmap2.c:121-134 | the least time stamp is in the slot filled longest ago |
| `Paging.Cache.MostRecent` | CLab/mmap2.c:135-148 | the greatest is always in the last slot |
| `Paging.Cache.Sweep` | CLab/mmap2.c:149-168 | the clock stops at the slot filled longest ago, after at most one look more than there are slots |
| `Paging.Cache.Fault` | CLab/mmap2.c:99-208 | the state is the one that the policy's own loop gives; the page replaces the victim's in its slot, cached pages stay distinct and are the mapped ones |
| `Paging.SameFaults` | CLab/mmap2.c:115-199 | for all accesses and slot counts the outcomes under LRU and under Clock, hit or victim at each access, are the same |
| `Paging.ChosenIs` | CLab/mmap2.c:115-169 | what the loop of each policy finds, in any state that can be reached: the oldest slot, or for MRU the last |
| `Paging.SearchClears` | CLab/mmap2.c:149-168 | from the first slot with all bits set the clock clears every bit and stops where it began |
| `Paging.Run` | CLab/mmap2.c:99-208 | a run of the code has these outcomes |
| `BinAllocator.NextBlock` | kern/src/allocator/bin.rs:57-66 | the next block fits, is a power of two from 8 on, and is aligned to its size |
| `BinAllocator.BinFits` | kern/src/allocator/bin.rs:99-101 | a layout's bin has blocks of the rounded size, large and aligned enough |
| `BinAllocator.HalvedOk` | kern/src/allocator/bin.rs:105-111 | splitting a block keeps the tiling and the alignment |
| `BinAllocator.FlipAdds` | kern/src/allocator/bin.rs:138-140 | toggling a bit below the alignment adds it, and leaves an address that is not so aligned |
| `BinAllocator.PairIsInside` | kern/src/allocator/bin.rs:137-149 | the pair that dealloc looks for is inside the block, so it is in no list |
| `BinAllocator.PopPicked` | kern/src/allocator/linked_list.rs:158-192 | what a walk of iter_mut leaves in memory when it pops any choice of nodes on its way |
| `BinAllocator.WalkRightIff` | kern/src/allocator/linked_list.rs:32-58 | such a walk leaves exactly the nodes that were not popped if and only if no two popped nodes are neighbours |
| `BinAllocator.Unlinked` | kern/src/allocator/linked_list.rs:158-166 | one store takes one node out of an intrusive list |
| `BinAllocator.LiveApart` | kern/src/allocator/bin.rs:76-117 | a block handed out overlaps no other block |
| `BinAllocator.Allocator.constructor` | kern/src/allocator/bin.rs:53-73 | aligned power-of-two blocks tile the region but for fewer than 8 bytes at its end |
| `BinAllocator.Allocator.Push` | kern/src/allocator/linked_list.rs:88-91 | the list is the old one with the address in front |
| `BinAllocator.Allocator.Pop` | kern/src/allocator/linked_list.rs:94-98 | the first address, and the rest of the list |
| `BinAllocator.Allocator.RemoveOne` | kern/src/allocator/linked_list.rs:178-192 | a walk that removes one node finds the value exactly if it is there, and removes one occurrence |
| `BinAllocator.Allocator.Split` | kern/src/allocator/bin.rs:106-110 | the first block of one bin leaves it and its two halves are in front in the bin below, live blocks as before |
| `BinAllocator.Allocator.Alloc` | kern/src/allocator/bin.rs:98-117 | a new block of the layout's size and alignment; null exactly if no bin from the layout's on has a block; byte counts balance |
| `BinAllocator.Allocator.Dealloc` | kern/src/allocator/bin.rs:132-156 | the block is first in its bin's list and nothing is merged; byte counts balance |
| `PathComponents.BodyConcat` | lib/shim/src/no_std/path.rs:733-769 | a slash separates the components on its two sides |
| `PathComponents.Reparse` | lib/shim/src/no_std/path.rs:696-705 | a trimmed rest of a path, parsed again, has the components that were left |
| `PathComponents.Components.constructor` | lib/shim/src/no_std/path.rs:2128-2138 | a new iterator has all components of the split-on-slash definition before it |
| `PathComponents.Components.Next` | lib/shim/src/no_std/path.rs:875-920 | the first of the components left, None exactly if none is left |
| `PathComponents.Components.NextBack` | lib/shim/src/no_std/path.rs:925-966 | the last of the components left, None exactly if none is left |
| `PathComponents.Components.TrimLeft` | lib/shim/src/no_std/path.rs:773-782 | no component is lost, and the rest starts with one |
| `PathComponents.Components.TrimRight` | lib/shim/src/no_std/path.rs:785-794 | no component is lost, and the rest ends with one or has no body left |
| `PathComponents.Components.AsPath` | lib/shim/src/no_std/path.rs:696-705 | in any state, a path whose components are exactly those left |
| `PathComponents.Drain` | lib/shim/src/no_std/path.rs:872-968 | for every mix of calls from both ends the iterator answers each as if the components had been split up beforehand |
| `PathComponents.EachOnce` | lib/shim/src/no_std/path.rs:872-968 | what came from the front, what is left, and what came from the back reversed are the components: each comes out once |
| `PathComponents.ForwardIsBackwardReversed` | lib/shim/src/no_std/path.rs:872-968 | draining from the front gives all components, and the reverse of draining from the back |
| `PathComponents.IterAfter` | lib/shim/src/no_std/path.rs:288-304 | exactly if one iterator's components come first in the other's, the rest of it |
| `PathComponents.StripPrefix` | lib/shim/src/no_std/path.rs:1908-1912 | succeeds exactly for component prefixes, and leaves the other components |
| `PathComponents.Push` | lib/shim/src/no_std/path.rs:1165-1199 | the components of the old path and then of the new, or of the new alone if it is absolute |
| `PathComponents.StripThenPush` | lib/shim/src/no_std/path.rs:1165-1912 | base joined with what strip_prefix leaves has the path's components |
| `PathComponents.Parent` | lib/shim/src/no_std/path.rs:1807-1815 | all components but the last; None exactly for no components or a root alone |
| `Xmodem.OneByteShows` | lib/xmodem/src/lib.rs:122-124 | changing one byte changes the checksum |
| `Xmodem.PacketIsPadded` | lib/xmodem/src/lib.rs:58-59 | packets cut the zero-padded input |
| `Xmodem.CheckTells` | lib/xmodem/src/lib.rs:303-310 | the receiver finds every alteration of a payload or checksum byte, and nothing else wrong |
| `Xmodem.InvKept` | lib/xmodem/src/lib.rs:257-390 | every step of either side keeps channels, positions, packet numbers and tries in agreement |
| `Xmodem.Safety` | lib/xmodem/src/lib.rs:51-119 | in every run the output is a prefix of the padded input, numbers agree modulo 256 between packets, and only ten failures of one packet end it early, for both |
| `Xmodem.Complete` | lib/xmodem/src/lib.rs:61-64 | a finished transfer has the padded input and the byte counts that are promised |
| `Xmodem.NoDeadlock` | lib/xmodem/src/lib.rs:51-119 | until both have ended one of them can step |
| `Xmodem.StepCloser` | lib/xmodem/src/lib.rs:66-75 | every step brings the end nearer, whatever is altered |
| `Xmodem.RunsEnd` | lib/xmodem/src/lib.rs:51-119 | no run is longer than a bound from its start |
| `Xmodem.Outcome` | lib/xmodem/src/lib.rs:51-119 | a run that cannot go on is a whole transfer, or one packet failed ten times on both sides |
| `Xmodem.Port.ExpectOrCancel` | lib/xmodem/src/lib.rs:184-202 | a wrong byte is answered with CAN, as a step of the machine |
| `Xmodem.Port.ExpectByte` | lib/xmodem/src/lib.rs:215-232 | a wrong byte ends the transfer, as a step of the machine |
| `Xmodem.Port.EndOfTransfer` | lib/xmodem/src/lib.rs:269-274 | NAK, a second EOT, ACK, by steps of the machine |
| `Xmodem.Port.Answer` | lib/xmodem/src/lib.rs:303-315 | ACK and the next number exactly if the checksum is right, by steps of the machine |
| `Xmodem.Port.ReadPacket` | lib/xmodem/src/lib.rs:257-318 | for any bytes on the stream: its result, fields, reads and writes are those of the machine's receiver |
| `Xmodem.Port.Receive` | lib/xmodem/src/lib.rs:95-119 | the code returns what the machine ends with: output, byte count, or the error |
| `Xmodem.Port.PutFrame` | lib/xmodem/src/lib.rs:370-375 | the 132 bytes of the frame go out in order |
| `Xmodem.Port.TakeReply` | lib/xmodem/src/lib.rs:377-389 | the next number after ACK, a retry after NAK, CAN after anything else |
| `Xmodem.Port.WritePacket` | lib/xmodem/src/lib.rs:350-390 | for any bytes on the stream: its result, fields, reads and writes are those of the machine's sender |
| `Xmodem.Port.Transmit` | lib/xmodem/src/lib.rs:51-79 | the code returns what the machine ends with: byte count without padding, or the error |

## Left out

- Log: interrupts between memory accesses inside one critical section; sections under `log.lock` are single steps. Buffers of logged blocks are taken to stay cached, which `bio.dfy` proves from pinning.
- BufferCache.BCache.Bget: leaves out the buffer's sleeplock, so that a process waits for another which uses the buffer.
- BufferCache.BCache.Bread: is one step, where the code reads from disk between two steps with the sleeplock held.
- Buffer cache: device number 0 means no device, as in a cache never used. Callers keep the rule that a changed buffer is written or pinned before its last release; `Brelse` and `Bunpin` require it.
- Page tables: `uvmclear`, the kernel's own page table, and the TLB. What a user can reach is taken to be data frames, one to a page, as `Uvmalloc` and `Uvmcopy` leave it. Frames below 2^54 and 64-bit addresses are taken not to overflow.
- Files: directories, links, `ialloc` and device files. An inode is modelled once, not as cached and on-disk copies.
- Transactions.WriteChunk: says of a copy that fails inside a block that was there before only that neither what is current nor what is durable is then the new file system: the code leaves that block changed and unlogged (`fs.c:522-524`). Its log_writes are taken to come after its changes; `GroupOldOrNew` does without this. A dinode's type and link count are not among its fields here.
- Transactions.Truncate: requires that the file fits its share. An operation that exceeds its share (`TruncCanExceed`) is no step of the log's machine.
- User allocator: the choice of address is `sbrk`'s and a parameter, with the premise that what lies above it is not in use.
- Sleep and wakeup: the set of processes is fixed; exiting is not a step, a device interrupt while a process runs acts as a call by that process, and one that arrives inside its `wakeup` or `kill` is left out (a timer interrupt there is not).
- Sleep and family: the loops of proc.c are steps of a machine, with any steps of others in between, and not loops of a method.
- Family: a wakeup of a process in `wait` is one step, which `sleep.dfy` justifies; pids are taken not to wrap around at 2^31. Open files, memory and names are not modelled; failing allocations are a choice of each step.
- Virtio: registers, memory barriers and interrupt acknowledgement. The device is any that follows the descriptors, and may finish requests in any order.
- Pipes: sleeping and waking, which `sleep.dfy` covers; a section that would sleep says so.
- Lottery: changes to the table between the two walks, and how uniform the generator is.
- Grep: NUL characters in the input, and errors of `read`.
- Paging: `mmap`, `munmap`, signals and square roots; the access counter is taken not to reach 2^64.
- Bin allocator: bit tricks are given by what they compute (`n & (!n + 1)` as the largest power of two that divides n, `leading_zeros` as a logarithm). The region is aligned to 8, not at 0, and below 2^33.
- Paths: prefixes, file stems and extensions, ancestors, comparison and display.
- XMODEM: altered header or reply bytes and lost bytes (the code's own steps are shown for any bytes that arrive), errors of the streams other than their end, buffers shorter than a packet, and progress callbacks.
- FAT32, ELF loading, system calls, device drivers other than virtio, and boot code.
