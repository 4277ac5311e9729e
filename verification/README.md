# xv6: a verified model of the kernel's hard parts

This project models the xv6 kernel in `xv6-public_pa2` with its user-space allocator, shell parser
and pattern matcher, and proves what they are for. All addresses of frames and virtual pages are page numbers,
all counters that wrap are written out modulo 2^32, and a panic is a stop: a result that ends the
run, never a claim that it cannot happen unless a lemma says so.

## How it is organised

| files | what they hold |
|---|---|
| `Params` | The constants that several parts share. |
| `LogMachine`, `LogSafety`, `LogBudget`, `LogBuffers`, `LogDevice` | The write-ahead log over NBUF buffers. A machine whose steps are single sector writes, critical sections, reads, releases and evictions of buffers, and power failures; the proofs over all its runs; when a commit runs out of buffers; and the functions of `log.c` in place, each loop round being one step of the machine. |
| `FileBlocks`, `FileBudget`, `FileWrites`, `FileSystem`, `FileTight`, `FileLog`, `SetFacts` | The block map: every pointer has one owner in a ghost inverse map, files have no holes, and every write says exactly which blocks it logs; a write that uses its whole budget, a truncation that exceeds it; and what the budget means to the log. |
| `FreeList`, `Umalloc` | The K&R allocator: the list as a value, and the headers relinked in place. |
| `SleepLock`, `ProcTable`, `LifeCycle`, `FairScheduling` | Sleep and wakeup as single steps; the table scans in place; fork, exit and wait over whole runs; the weighted scheduler over whole runs. |
| `PageTables`, `AddressSpaces`, `FrameCounts`, `ScarceMemory`, `Vm` | Two-level page tables over the frame free list, with a ghost map from each frame to its one use, and how many frames an address space takes. |
| `Pipe` | The ring with wrapping counters, as a queue over all interleavings. |
| `BufferRing`, `BufferCache` | The LRU ring and the cache that must look like the plain disk. |
| `ShellGrammar`, `Shell` | The command grammar, the recursive descent parser, and the NULs it writes into its input. |
| `Grep` | The Kernighan-Pike matcher against a declarative language. |

The same pattern is used throughout. What a method must do is a function or relation on values; the
class that does it in place is proved equal to it; and what the kernel promises is proved about
the values, for all inputs and all runs.

## Where the code does not do what it is for

- A log area of LOGSIZE blocks, header included, is what `mkfs.c:25` makes, but `begin_op` reserves
  as if LOGSIZE blocks could be logged: `LogBudget.BudgetSufficesIff` and `LogBudget.SmallLogPanics`.
- `log_write` tests its limit before it looks for the block (log.c:218), so a full header panics even
  for a block that would be absorbed. Budgets keep full headers possible, so no size of the log makes them
  suffice: `LogBudget.AbsorbedWritePanics`, `LogBudget.BudgetNeverSuffices`, `LogBudget.BigLogPanicsIffFull`.
  The test is made outside the lock; the model takes test and append as one step.
- NBUF is LOGSIZE (param.h:11-12), and logged blocks keep their buffers dirty until the commit, which needs one more
  for the log (log.c:183). So a full log makes the commit panic, with the log of mkfs as soon as one process is
  reading: `LogBuffers.CommitFinishesIff` says exactly when, `LogBuffers.FullLogPanics` and `LogBuffers.MkfsLogPanics`
  are such runs. What was durable stays so.
- A truncation can log more than MAXOPBLOCKS blocks once the disk has ten bitmap blocks: `FileTight.TruncLogsEleven`.
- A writer that returns -1 at a full pipe (pipe.c:86-89) leaves sleeping readers asleep:
  `Pipe.WakeupKeptIff`, `Pipe.WhoForgetsReaders` and `Pipe.KilledWriterForgets`.
- `wakeup1` reads a vruntime as a signed int (proc.c:567): `ProcTable.WakeupPlacesInFront` says exactly
  when a woken process is placed within one charge of the others.
- Fairness fails exactly when a vruntime wraps: `FairScheduling.TickKeepsFairIff`.
- The time slice does not bound a turn: trap gives the CPU up at every tick (trap.c:143-145), and a
  used-up slice adds a second yield: `FairScheduling.OneTickPerTurn`, `FairScheduling.TurnOwesYieldIff`.
- `kill` looks at every table entry with the pid, unused ones included, and `allocproc` does not clear the mark:
  `LifeCycle.BornKilledIff` and `LifeCycle.KillZeroIsInherited`.
- A failed `allocuvm` returns its pages but keeps the page tables it made: `AddressSpaces.AllFramesBackIff` says
  exactly when every frame comes back, and `ScarceMemory.ScarceGrowthLeaksTable` is an input where one does not.
- Every buffer starts with the name (0,0) (`BufferCache.Cache.constructor`), so names are unique only among
  buffers that are valid or in use: `BufferCache.BusyUnique`.
- A buffer released with a change that was neither written nor logged can be recycled, and the change is lost:
  `BufferCache.NextShows` says exactly when, `BufferCache.SavingRunsLoseNothing` how callers avoid it.
- `malloc` of 2^31 bytes or more asks sbrk for a negative or zero size (`Umalloc.SbrkGrowsIff`), and morecore takes the
  old break for the new block. The header store traps, or, inside the last mapped page (`Umalloc.StoreTraps`), succeeds:
  then `Umalloc.Heap.Malloc` returns a block above the break, and the heap is not sound.
- `allocuvm` that fails on its way to a page that is mapped already unmaps that page too: `Vm.Memory.Allocuvm`. Its
  callers grow into unmapped pages.

## Model

| member | source | states |
|---|---|---|
| LogMachine.HeaderRoundTrip | xv6-public_pa2/log.c:86-113 | read_head gives back exactly the block list that write_head stored, whatever was in the sector before, for every list that fits LOGSIZE |
| LogMachine.InitInv | xv6-public_pa2/log.c:54-66 | a machine booting on the disk mkfs wrote satisfies the invariant of the log |
| LogMachine.BreadKeeps | xv6-public_pa2/log.c:75-76 | filling the buffer cache at any moment, commit and recovery included, keeps the invariant |
| LogMachine.EvictKeeps | xv6-public_pa2/bio.c:81-90 | recycling a clean buffer that nobody uses, at any moment, keeps the invariant, under which only logged blocks are dirty |
| LogMachine.LogWriteKeeps | xv6-public_pa2/log.c:214-233 | log_write adds or absorbs the block: the latest disk gets the new contents, the committed disk stays |
| LogMachine.LogOneKeeps | xv6-public_pa2/log.c:182-189 | one sector written by write_log keeps the on-disk state recoverable to the committed disk |
| LogMachine.CommitHeadRecoverable | xv6-public_pa2/log.c:198-202 | the header write turns a disk that recovers to the old contents into one that recovers to the new, in one sector |
| LogMachine.CommitHeadKeeps | xv6-public_pa2/log.c:102-113 | after the header write the pending writes are the committed ones and the invariant of installation holds |
| LogMachine.InstallOneKeeps | xv6-public_pa2/log.c:74-81 | one installed block keeps the disk recoverable to the same contents, after a commit and after a reboot |
| LogMachine.InstallDoneKeeps | xv6-public_pa2/log.c:198-199 | when all blocks are installed every home block is up to date and no buffer is dirty |
| LogMachine.ClearHeadKeeps | xv6-public_pa2/log.c:200 | erasing the log keeps the disk recoverable to the committed contents |
| LogMachine.ReadHeadKeeps | xv6-public_pa2/log.c:118 | the header read at boot names distinct home blocks that fit the log |
| LogMachine.CrashKeepsCore | xv6-public_pa2/log.c:115-122 | a power failure in any state leaves a state that recovery can start from |
| LogSafety.StepKeepsInv | xv6-public_pa2/log.c:126-233 | every step of any interleaving keeps the invariant that ties disk, cache and header to the durable and pending writes |
| LogSafety.RunKeepsInv | xv6-public_pa2/log.c:126-233 | the invariant holds after every run, power failures anywhere included |
| LogSafety.RecoverableMeansRecovered | xv6-public_pa2/log.c:70-82 | replaying the on-disk header over a recoverable disk gives the committed home blocks |
| LogSafety.DiskAlwaysRecoversToDurable | xv6-public_pa2/log.c:69-122 | after every run recovery of the disk yields exactly the durable log_writes in order and none of the pending ones |
| LogSafety.ReadersSeeLatest | xv6-public_pa2/log.c:204-233 | outside recovery bread returns the latest write of every home block, absorbed or not, committed or not |
| LogSafety.CrashThenRecover | xv6-public_pa2/log.c:115-122 | power failure in any reachable state, then recovery cut short any number of times: when it completes the home blocks are the durable contents at the failure and the log is empty |
| LogSafety.CommitProgress | xv6-public_pa2/log.c:193-202 | every step of commit and of recovery that finds its buffers is taken and decreases a measure; one that does not find them is the panic of bget |
| LogSafety.OperationsAllOrNothing | xv6-public_pa2/log.c:146-174 | in every reachable state the durable part of an operation is nothing, or everything it ever logged and it has ended |
| LogBuffers.EvictUnseen | xv6-public_pa2/bio.c:81-90 | recycling a clean buffer that nobody uses changes neither what bread returns nor whether it finds a buffer |
| LogBuffers.RunKeepsBuffers | xv6-public_pa2/bio.c:79-92 | in every state of every run no more than NBUF buffers are dirty or in use |
| LogBuffers.StepPanicsIff | xv6-public_pa2/log.c:178-202 | a step of commit or recovery panics for want of a buffer if and only if the logged blocks not yet home, the blocks whose buffers processes use and the blocks it reads are more than NBUF |
| LogBuffers.CommitFinishesIff | xv6-public_pa2/log.c:146-202 | left alone, the commit that the last end_op starts runs to its end if and only if, as end_op is called, every block of the log area that it reads has a buffer in use or can get one |
| LogBuffers.RoomyIf | xv6-public_pa2/log.c:146-202 | that holds when the logged blocks and the buffers that others use are fewer than NBUF |
| LogBuffers.CommitAmongOthers | xv6-public_pa2/log.c:178-202 | under that condition the next step of a commit is no panic, and nothing that other processes do takes it further from its end |
| LogBuffers.RecoveryFinishesIff | xv6-public_pa2/log.c:116-122 | left alone, recovery runs to its end if and only if the header, and each log block together with its destination, can have their buffers; two unused buffers suffice |
| LogBuffers.FullLogPanics | xv6-public_pa2/log.c:183 | with a log area of more than LOGSIZE blocks, three operations within their budgets make every buffer dirty, and the commit panics at its first bread; the run is given |
| LogBuffers.MkfsLogPanics | xv6-public_pa2/mkfs.c:25 | with the log area that mkfs makes, they make all buffers but one dirty, and the commit panics if one process is reading another block; the run is given |
| LogBudget.ReservationHolds | xv6-public_pa2/log.c:126-139 | if operations keep to MAXOPBLOCKS distinct blocks, the header plus all unused budgets fits LOGSIZE in every reachable state, and the header has no duplicates |
| LogBudget.CommitExcludesOperations | xv6-public_pa2/log.c:150-157 | committing implies that no operation is outstanding and none can start; the panic in end_op is unreachable |
| LogBudget.LogWritePanicsIffFull | xv6-public_pa2/log.c:218-221 | inside an operation log_write panics if and only if the header is full, even for a block it would have absorbed |
| LogBudget.BigLogNeverPanics | xv6-public_pa2/log.c:129-139 | with a log area of more than LOGSIZE blocks no operation within its budget panics when it logs a block that the header does not have yet |
| LogBudget.SmallLogPanics | xv6-public_pa2/mkfs.c:25 | with a log area of LOGSIZE blocks header included, as mkfs makes it, three operations within their budgets reach the panic; the run is given |
| LogBudget.BudgetSufficesIff | xv6-public_pa2/log.c:218-219 | for blocks that the header does not have yet, budgets keep log_write from panicking if and only if the log area has more than LOGSIZE blocks |
| LogBudget.AbsorbedWritePanics | xv6-public_pa2/log.c:218-226 | whatever the size of the log area, three operations within their budgets fill the header, and writing its first block once more, which would be absorbed, panics; the run is given |
| LogBudget.BudgetNeverSuffices | xv6-public_pa2/log.c:218-226 | so for writes in general no size of the log area makes the budgets suffice |
| LogBudget.BigLogPanicsIffFull | xv6-public_pa2/log.c:218-226 | with more than LOGSIZE blocks a write within budget panics if and only if the header has LOGSIZE blocks, and then the block is one of them |
| LogBudget.WaitingHasReason | xv6-public_pa2/log.c:130-135 | begin_op waits only for a commit or for operations that are outstanding, and a log at rest has an empty header and nothing pending |
| LogBudget.NoLostLogWakeup | xv6-public_pa2/log.c:126-173 | in every state of every run those asleep in begin_op could not be admitted, and a commit or an open operation is there to wake them |
| FileLog.PlannedIsDisciplined | xv6-public_pa2/file.c:133-151 | operations that log no more than the sets of blocks their chunks log form a disciplined run of the log |
| FileLog.PlannedNeverPanics | xv6-public_pa2/file.c:133-151 | over a log area of more than LOGSIZE blocks such operations panic in log_write only for a block that a full header already has |
| LogDevice.Log.constructor | xv6-public_pa2/log.c:54-65 | a powered-up machine on a recoverable disk: nothing cached, recovery next |
| LogDevice.Log.Bread | xv6-public_pa2/bio.c:96-106 | returns the cached contents, else those of the sector, as the machine step does; panics if and only if the block has no buffer in use and all NBUF are |
| LogDevice.Log.Bwrite | xv6-public_pa2/bio.c:110-116 | one sector write, recorded in the history of disks a failure can leave |
| LogDevice.Log.ReadHeader | xv6-public_pa2/log.c:86-96 | the copying loop of read_head is one machine step: the in-memory list is the one on disk; panics exactly when the header cannot have a buffer |
| LogDevice.Log.FillHeader | xv6-public_pa2/log.c:106-110 | the copying loop of write_head produces the header sector for the in-memory list, other words untouched |
| LogDevice.Log.WriteHead | xv6-public_pa2/log.c:102-113 | one machine step and one sector write; it is the commit point when the log is full and the erasure otherwise; panics exactly when the header cannot have a buffer |
| LogDevice.Log.WriteLog | xv6-public_pa2/log.c:178-190 | n + 1 machine steps; a failure after any of its sectors recovers to the contents before the commit; panics exactly when a log block cannot have a buffer |
| LogDevice.Log.InstallTrans | xv6-public_pa2/log.c:70-82 | n + 1 machine steps; home blocks end up committed; a failure after any of its sectors recovers to the same contents, also when it stops for want of a buffer, which with room it never does |
| LogDevice.Log.Commit | xv6-public_pa2/log.c:193-202 | pending writes become durable and home; a failure after any sector write recovers to all of them or to none; stops if and only if a block of the log area cannot have a buffer |
| LogDevice.Log.RecoverFromLog | xv6-public_pa2/log.c:116-122 | ends with the committed contents home and an empty log, and a failure after any of its own sector writes is harmless; stops if and only if the header, or a log block with its destination, cannot have a buffer |
| LogDevice.Log.BeginOp | xv6-public_pa2/log.c:126-141 | admits exactly when no commit runs and the reservation fits, and is then the machine step; otherwise the process joins those asleep on the log |
| LogDevice.Log.LogWrite | xv6-public_pa2/log.c:214-233 | appends or absorbs in the block array exactly as the machine step does, or panics with nothing changed |
| LogDevice.Log.EndOp | xv6-public_pa2/log.c:146-174 | the last operation out commits the whole group; before that nothing reaches the disk; crash safety throughout, and in the stop; it stops if and only if a commit runs already or the one it starts cannot have its buffers; those asleep are woken |
| FileBlocks.WordRoundTrip | xv6-public_pa2/fs.c:389-393 | storing an entry in an indirect block changes that entry and no other |
| FileBlocks.LittleEndian | xv6-public_pa2/fs.c:389-393 | an entry of an indirect block is four bytes, the low one first |
| FileBlocks.Layout | xv6-public_pa2/fs.h:24-45 | 128 entries fill an indirect block, 8 inodes of 64 bytes an inode block, 4096 bits a bitmap block, and a file has at most 70 KB |
| FileBlocks.ContentsByBlock | xv6-public_pa2/fs.c:465-470 | the bytes of a file from 512 bn on are those of the block of its slot bn, direct or through the indirect block |
| FileBlocks.GiveKeepsOwned | xv6-public_pa2/fs.c:378-397 | storing a freshly allocated block in an empty slot changes only that slot and keeps every block with exactly one owner |
| FileBlocks.DataKeepsOwned | xv6-public_pa2/fs.c:501-502 | overwriting a data block changes no pointer and no ownership |
| FileBlocks.DropDirect | xv6-public_pa2/fs.c:414-419 | the block in a direct slot is marked in the bitmap, and freeing it and clearing the slot keeps ownership |
| FileBlocks.DropEntry | xv6-public_pa2/fs.c:424-427 | a block named by an indirect entry is still marked when itrunc frees it, so bfree does not panic |
| FileBudget.ChunkFits | xv6-public_pa2/file.c:127-138 | for every offset, alignment and file size, direct to indirect crossing included, a chunk costs at most MAXOPBLOCKS distinct blocks |
| FileBudget.ChunkIsLargest | xv6-public_pa2/file.c:133 | the bound on the cost of a chunk reaches the budget, and with one more block per chunk exceeds it |
| FileTight.ChunkLogsTen | xv6-public_pa2/file.c:127-133 | appending one chunk to a file whose last block is half full, on a disk whose free blocks lie under different bitmap blocks, logs exactly MAXOPBLOCKS distinct blocks |
| FileTight.BeforeIsValid | xv6-public_pa2/fs.c:57-67 | that file and disk satisfy the invariant of the file system |
| FileTight.TightChunk | xv6-public_pa2/fs.c:482-511 | writei on that file system writes the whole chunk and logs ten blocks |
| FileBudget.TruncFitsIff | xv6-public_pa2/fs.c:408-435 | all bitmap blocks and the inode fit MAXOPBLOCKS, and so the log of any itrunc, if and only if the disk has at most nine bitmap blocks |
| FileTight.WideIsValid | xv6-public_pa2/fs.c:57-67 | a file of ten blocks, each under another of ten bitmap blocks, satisfies the invariant of the file system |
| FileTight.TruncLogsEleven | xv6-public_pa2/fs.c:408-435 | itrunc of that file logs MAXOPBLOCKS + 1 blocks |
| FileBudget.SpliceTwice | xv6-public_pa2/file.c:135-151 | two consecutive chunks write what one write of both would |
| FileBudget.SpliceReads | xv6-public_pa2/fs.c:482-511 | the bytes written are read back and every other byte of the file is as before |
| FileWrites.GiveIsMapped | xv6-public_pa2/fs.c:378-381 | allocating the block itself satisfies the specification of bmap |
| FileWrites.IndirectThenMapped | xv6-public_pa2/fs.c:387-394 | allocating the indirect block first and the entry after it satisfies the specification of bmap |
| FileWrites.WriteStep | xv6-public_pa2/fs.c:498-504 | one round of the loop of writei extends the written range by m bytes and disturbs nothing else |
| FileWrites.WriteContents | xv6-public_pa2/fs.c:482-511 | after a whole writei the file is its old contents with the bytes spliced in, and every other file is unchanged |
| FileWrites.SameAddrs | xv6-public_pa2/fs.c:506-509 | a write that does not grow the file has changed no pointer of its inode, so skipping iupdate is right |
| FileWrites.TruncDone | xv6-public_pa2/fs.c:408-435 | after itrunc the invariant holds, the file is empty, the others are unchanged and exactly its blocks are free |
| FileSystem.FileSys.constructor | xv6-public_pa2/fs.c:172-186 | a file system whose metadata blocks are in use, whose other blocks are free and whose inodes are empty |
| FileSystem.FileSys.Balloc | xv6-public_pa2/fs.c:57-78 | returns the lowest free block, marked and zeroed, or panics exactly when the bitmap is full |
| FileSystem.FileSys.Bfree | xv6-public_pa2/fs.c:82-95 | clears the bit and logs its bitmap block; panics, logging nothing, if and only if the bit was already clear |
| FileSystem.FileSys.Iupdate | xv6-public_pa2/fs.c:221-236 | the disk copy of the inode becomes the in-memory one |
| FileSystem.FileSys.Bmap | xv6-public_pa2/fs.c:373-400 | the block of index bn, allocated with its indirect block if missing; no other pointer, size or block changes; it says exactly what it logs; it panics only beyond MAXFILE or with fewer free blocks than it needs |
| FileSystem.FileSys.ReadSlot | xv6-public_pa2/fs.c:379-391 | reads the pointer of a data block from the inode or the indirect block |
| FileSystem.FileSys.Readi | xv6-public_pa2/fs.c:453-476 | -1 exactly for a bad range; otherwise the bytes of the file, truncated at its end; it never allocates or logs |
| FileSystem.FileSys.WriteBlock | xv6-public_pa2/fs.c:498-504 | one round of the loop, with the blocks it allocates and logs accounted for |
| FileSystem.FileSys.WriteLoop | xv6-public_pa2/fs.c:498-504 | the whole loop; it panics only with fewer free blocks than the range is missing |
| FileSystem.FileSys.Writei | xv6-public_pa2/fs.c:482-511 | -1 exactly for a bad range and then nothing changed; otherwise all bytes spliced in and every other file unchanged; it logs exactly the blocks written, those that allocation takes and the inode if the file grows; it panics for want of free blocks if and only if they are fewer than the range is missing |
| FileSystem.FileSys.TruncDirect | xv6-public_pa2/fs.c:414-419 | frees the direct blocks and no others, without a panic |
| FileSystem.FileSys.TruncIndirect | xv6-public_pa2/fs.c:421-431 | frees every block the indirect block names and then that block, without a panic |
| FileSystem.FileSys.Itrunc | xv6-public_pa2/fs.c:408-435 | bfree never panics, exactly the blocks of this inode become free, no other file changes, and it logs exactly the bitmap blocks of those blocks and the inode |
| FileSystem.FileSys.AllocatedBelow | xv6-public_pa2/fs.c:465-470 | every block index below the size of a file is allocated, so reading it costs nothing |
| FileSystem.FileSys.WriteChunk | xv6-public_pa2/file.c:140-151 | one chunk is one operation that logs at most MAXOPBLOCKS distinct blocks; writei is never short |
| FileSystem.FileSys.Filewrite | xv6-public_pa2/file.c:133-154 | returns n exactly when the range is acceptable; the end of the file offset and the number of operations follow from the arguments: all n bytes in ceil(n / CHUNK) operations, or the whole chunks below MAXFILE blocks and one refused operation more, or nothing for a bad offset; every operation stays within MAXOPBLOCKS; it panics for want of free blocks if and only if they are fewer than that range is missing |
| FileSystem.FileSys.EndsAt | xv6-public_pa2/file.c:133-151 | in numbers: up to 71680 bytes every chunk but the last has 1536 bytes; beyond that the write ends after the whole chunks of 1536 that fit below 71680 |
| FreeList.InsertGood | xv6-public_pa2/umalloc.c:33-43 | freeing a block anywhere keeps the list in address order, without overlaps and with no two adjacent free blocks |
| FreeList.InsertCovers | xv6-public_pa2/umalloc.c:33-43 | exactly the units of the freed block become free |
| FreeList.TakeGood | xv6-public_pa2/umalloc.c:75-82 | cutting a block keeps the list well formed and the cut block outside it |
| FreeList.TakeCovers | xv6-public_pa2/umalloc.c:75-82 | exactly the units of the block handed out stop being free |
| FreeList.Canonical | xv6-public_pa2/umalloc.c:25-44 | the set of free units determines the whole list: blocks, boundaries and order |
| FreeList.FreeCommutes | xv6-public_pa2/umalloc.c:25-44 | freeing two blocks gives the same list in either order |
| FreeList.FreeUndoesMalloc | xv6-public_pa2/umalloc.c:75-84 | freeing the block just cut restores the list exactly |
| Umalloc.EnoughUnits | xv6-public_pa2/umalloc.c:69 | the units computed for a request hold it exactly when the 32-bit sum does not wrap, and are then the fewest that do |
| Umalloc.SbrkGrowsIff | xv6-public_pa2/umalloc.c:54 | morecore asks sbrk for the bytes it needs exactly below 2^31; from there on the int it passes is zero or negative |
| Umalloc.StoreTraps | xv6-public_pa2/proc.c:191-207 | sbrk maps whole pages: a header stored at a break between two pages traps, and one stored at a break inside a page, when sbrk gave nothing, does not |
| Umalloc.RelinkedIsInsert | xv6-public_pa2/umalloc.c:33-42 | the pointer and size assignments of free build the specified list, in all four coalescing cases |
| Umalloc.TakeLinked | xv6-public_pa2/umalloc.c:76-82 | the assignments of malloc build the specified list, whole block and split |
| Umalloc.ExitsAtPred | xv6-public_pa2/umalloc.c:30-32 | the two exit tests of the search in free succeed at the predecessor and at no other block of the ring |
| Umalloc.InsertSound | xv6-public_pa2/umalloc.c:25-44 | a freed block moves its units from live to free: every unit from sbrk stays in exactly one block |
| Umalloc.TakeSound | xv6-public_pa2/umalloc.c:75-84 | an allocated block moves its units from free to live: every unit from sbrk stays in exactly one block |
| Umalloc.Heap.constructor | xv6-public_pa2/umalloc.c:21-22 | an allocator that has asked for nothing yet |
| Umalloc.Heap.Release | xv6-public_pa2/umalloc.c:30-43 | the search ends at the predecessor and the list becomes the specified insertion, for every ring and starting point |
| Umalloc.Heap.Free | xv6-public_pa2/umalloc.c:25-44 | free of a live block: it is live no more, the list is the insertion, all units accounted for |
| Umalloc.Heap.Sbrk | xv6-public_pa2/umalloc.c:54-56 | fresh memory at or above the end of the data segment, a failure that changes nothing, or for a negative size memory given back |
| Umalloc.Heap.Morecore | xv6-public_pa2/umalloc.c:47-61 | asks sbrk once, for max(nu, 4096) units, and merges exactly those into the list, wherever they join, or changes nothing; from 2^31 bytes on it fails, traps at its header store above the last mapped page, or merges in units at the break that do not exist, and then the heap is not sound |
| Umalloc.Heap.Cut | xv6-public_pa2/umalloc.c:75-84 | hands out n units of a block that was free and not live |
| Umalloc.Heap.Search | xv6-public_pa2/umalloc.c:74-89 | takes the first block of the ring after freep that is big enough, and leaves freep before it; without one it calls morecore exactly once; only for 2^31 bytes or more that no free block holds does it trap or hand out memory above the break |
| Umalloc.Heap.Malloc | xv6-public_pa2/umalloc.c:64-90 | for every request a block disjoint from every live one with the computed units, the first that fits, or 0 with nothing handed out; one request to sbrk exactly when no free block fits; 2^31 bytes or more that no free block holds give 0, a trap in morecore, or a block that starts at or above the break and leaves the heap unsound |
| SleepLock.ReachKeepsInv | xv6-public_pa2/sleeplock.c:22-42 | lock ownership and the wakeup discipline hold in every reachable state, each acquire, release, sleep and wakeup being its own step |
| SleepLock.MutualExclusion | xv6-public_pa2/sleeplock.c:23-32 | in every reachable state at most one process holds the sleeplock |
| SleepLock.NoLostWakeup | xv6-public_pa2/proc.c:523-558 | whenever the inner lock is free, a process asleep on the lock or about to be implies that another process holds it with its release to come, kills included |
| SleepLock.NeverStuck | xv6-public_pa2/sleeplock.c:35-42 | in every reachable state some process can step; never are all asleep |
| ProcTable.MinIsLeast | xv6-public_pa2/proc.c:573-588 | the least vruntime of the runnable processes, or none |
| ProcTable.WeightsFall | xv6-public_pa2/proc.c:10-20 | a step of nice divides the weight by 6/5 to 23/18, and nice 0, 20 and 39 weigh 88761, 1024 and 15 |
| ProcTable.TickCosts | xv6-public_pa2/trap.c:67-72 | a tick costs floor(1000 times the weight of nice 20 / weight), which is 1000 at nice 20 |
| ProcTable.WakeupAlone | xv6-public_pa2/proc.c:573-604 | with nobody runnable a woken process starts at vruntime 0 |
| ProcTable.TotalOfOne | xv6-public_pa2/proc.c:376-382 | the weight of a table of one process is its own if it is runnable and 0 otherwise |
| ProcTable.TotalIsSum | xv6-public_pa2/proc.c:376-382 | the total weight of two parts of the table is the sum of theirs |
| ProcTable.WakeupPlacesInFront | xv6-public_pa2/proc.c:590-604 | a woken process starts behind no runnable process, and within one charge of the least exactly while that reads as a positive int |
| ProcTable.SliceInRange | xv6-public_pa2/proc.c:402 | the time_slice stored for a picked process is between 1 and 10000, and the division is never by zero |
| ProcTable.SliceIsOneIff | xv6-public_pa2/proc.c:402 | the stored slice is used up by one tick if and only if 10000 times the weight is at most the total weight |
| ProcTable.Table.constructor | xv6-public_pa2/proc.c:22-29 | an empty table whose next pid is 1 |
| ProcTable.Table.Wakeup1 | xv6-public_pa2/proc.c:564-605 | the three scans make runnable exactly the processes asleep on the channel, placed by the least vruntime |
| ProcTable.Table.Exit | xv6-public_pa2/proc.c:289-304 | children go to init, parent and (for a zombie child) init are woken and placed, in that order, every other field stays, the caller is a zombie; whoever slept on its parent is runnable |
| ProcTable.Table.WaitScan | xv6-public_pa2/proc.c:320-349 | reaps the first zombie child, whose pid it returns and whose entry it clears; fails exactly when no child is a zombie and there are no children or the caller is killed; otherwise sleeps on the caller itself |
| ProcTable.Table.Kill | xv6-public_pa2/proc.c:620-637 | marks the first table entry with the pid, in use or not, and wakes it if it sleeps; fails exactly when no entry has the pid |
| ProcTable.Table.AllocProc | xv6-public_pa2/proc.c:95-123 | takes the first unused entry with a fresh pid and zero accounts, or fails exactly when there is none |
| ProcTable.Table.SetNice | xv6-public_pa2/proc.c:704-726 | sets the nice value of the first table entry with the pid, in use or not; succeeds exactly for a value below 40 and a pid that some entry has |
| ProcTable.Table.SumWeights | xv6-public_pa2/proc.c:376-382 | the total weight of the runnable processes |
| ProcTable.Table.PickLeast | xv6-public_pa2/proc.c:389-398 | the first runnable process of least vruntime below ~0, or none |
| ProcTable.Table.Schedule | xv6-public_pa2/proc.c:376-416 | one pass of the scheduler: that process runs with its slice, or nothing changed |
| ProcTable.Table.Tick | xv6-public_pa2/trap.c:61-82 | charges runtime and vruntime in 32-bit arithmetic, counts down the slice and yields |
| LifeCycle.NextKeepsInv | xv6-public_pa2/proc.c:212-351 | fork, sleep, wakeup, kill, exit and wait, in any order, keep the bookkeeping of parents, pids and exits |
| LifeCycle.RunKeepsInv | xv6-public_pa2/proc.c:212-351 | that bookkeeping holds in every state of every run from boot |
| LifeCycle.ExitIsNeverMissed | xv6-public_pa2/proc.c:291-304 | whenever ptable.lock is free no process asleep on its own process has a zombie child |
| LifeCycle.WaiterIsOnChannel | xv6-public_pa2/proc.c:349 | over every run a process that went to sleep in wait, and has neither run nor called wait since, is asleep on itself, where exit of a child wakes it, or has been made runnable |
| LifeCycle.WaiterHasNoZombie | xv6-public_pa2/proc.c:291-349 | over every run a process that went to sleep in wait, has not run since and still sleeps, has no zombie child |
| LifeCycle.StateDiagram | xv6-public_pa2/proc.c:212-637 | no step moves an entry but along the six-state diagram, and fork, exit, wait, sleep, yield and wakeup each move theirs |
| LifeCycle.ChildInherits | xv6-public_pa2/proc.c:232-242 | a child has the nice value, runtime and vruntime of its parent, and a pid of its own |
| LifeCycle.ZombieHasLiveParent | xv6-public_pa2/proc.c:294-301 | the parent of every zombie is a live process |
| LifeCycle.ReapedExactlyOnce | xv6-public_pa2/proc.c:326-339 | wait never returns a pid twice, returns only pids of processes that exited, and every other exited process is still a zombie |
| LifeCycle.KilledIff | xv6-public_pa2/proc.c:620-637 | in every run an entry is marked killed if and only if a kill hit it or its process faulted (trap.c:132) and no wait has reaped it since |
| LifeCycle.BornKilledIff | xv6-public_pa2/proc.c:95-113 | a new process starts out killed if and only if a kill hit its entry while no process had yet run in it, and it has not been reaped since; a fault never counts, since a process that faults is reaped before its entry is free |
| LifeCycle.KillZeroIsInherited | xv6-public_pa2/proc.c:620-637 | kill(0) with an unused entry of pid 0 succeeds, and the next process in that entry starts out killed |
| FairScheduling.TickKeepsFairIff | xv6-public_pa2/trap.c:67-72 | in a fair state a tick keeps fairness if and only if the 32-bit vruntime does not wrap |
| FairScheduling.RunIsFair | xv6-public_pa2/proc.c:376-416 | every state of every run without wrap is fair and books each vruntime as start plus ticks times charge |
| FairScheduling.WeightedFairness | xv6-public_pa2/proc.c:389-398 | no process is ahead of another by more than one of its own charges of floor(1024000 / weight), so charged ticks are in that proportion |
| FairScheduling.NoStarvation | xv6-public_pa2/proc.c:389-398 | after T ticks among n processes every process has run: T is at most n (1 + 6206 ticks of it), and each has run once T exceeds n |
| FairScheduling.TicksProgress | xv6-public_pa2/trap.c:77-81 | however often the trap yields a second time, a quarter of all steps but one charge someone |
| FairScheduling.OneTickPerTurn | xv6-public_pa2/trap.c:143-145 | after a dispatch the very next step gives the CPU up, with at most one tick charged, and only to the process dispatched |
| FairScheduling.TurnOwesYieldIff | xv6-public_pa2/trap.c:73-81 | the tick of a turn owes a second yield if and only if 10000 times the weight is at most the total weight at dispatch |
| PageTables.RefersIsRole | xv6-public_pa2/vm.c:35-55 | a live table names a frame in a place if and only if the frame has that use |
| PageTables.ExactlyOneUse | xv6-public_pa2/vm.c:283-298 | free frames, directories and frames held elsewhere are named by no live table; every other frame is named in exactly one place |
| PageTables.NoSharing | xv6-public_pa2/vm.c:315-345 | no two processes and no two pages of one process share a frame |
| PageTables.TakenKeeps | xv6-public_pa2/kalloc.c:83-95 | popping the free list keeps the invariant and every mapping |
| PageTables.PutKeeps | xv6-public_pa2/kalloc.c:60-77 | pushing a frame nobody uses keeps the invariant and every mapping |
| PageTables.LinkedTableKeeps | xv6-public_pa2/vm.c:45-53 | a new zeroed page table keeps the invariant and changes no mapping |
| PageTables.SetEntryLookup | xv6-public_pa2/vm.c:69-73 | writing one entry changes what is found for that page of that directory and nothing else |
| PageTables.SetEntryKeeps | xv6-public_pa2/vm.c:73-77 | mapping or unmapping a page together with the use of its frame keeps the invariant |
| AddressSpaces.WalkedKeeps | xv6-public_pa2/vm.c:36-55 | walkpgdir gives the table of the page, new at the cost of one frame if it was missing, and changes no mapping |
| AddressSpaces.RemapTest | xv6-public_pa2/vm.c:70-72 | the present bit that mappages tests is set if and only if the directory maps the page |
| AddressSpaces.MapsOne | xv6-public_pa2/vm.c:69-73 | one round of mappages maps exactly that page |
| AddressSpaces.ShrinksOne | xv6-public_pa2/vm.c:269-276 | though the frame is freed before its entry is cleared, the page ends up unmapped, its frame free, and nothing else changed |
| AddressSpaces.SkipsTable | xv6-public_pa2/vm.c:267-268 | skipping to the next directory entry misses no mapped page |
| AddressSpaces.FreeingEnds | xv6-public_pa2/vm.c:284-298 | after the tables and the directory are freed all that the directory owned is free and the rest is unchanged |
| AddressSpaces.GrowFails | xv6-public_pa2/vm.c:235-245 | unmapping after a failed growth leaves every page mapped as before; what may stay behind are page tables |
| AddressSpaces.GrowFailed | xv6-public_pa2/vm.c:234-238 | when kalloc has no page, exactly the tables made for the earlier pages stay behind, and the free list is shorter by their number |
| AddressSpaces.GrowUndone | xv6-public_pa2/vm.c:240-245 | the same when mappages has no table and the page in hand is freed |
| AddressSpaces.AllFramesBackIff | xv6-public_pa2/vm.c:222-249 | after a failed growth every frame has its old use if and only if every page that the free list could have reached with a frame to spare had its table before the call |
| ScarceMemory.ScarceIsReady | xv6-public_pa2/vm.c:118-136 | a directory with the kernel mappings of setupkvm and two free frames satisfies the invariant |
| ScarceMemory.ScarceGrowthLeaksTable | xv6-public_pa2/vm.c:222-249 | growing that process, still without user pages, by two pages fails and leaves one of the frames as the table of entry 0 |
| AddressSpaces.KernelMapComplete | xv6-public_pa2/vm.c:105-115 | the four lines of kmap give every page its kernel mapping: memory at KERNBASE with read-only text, devices in place, nothing else |
| AddressSpaces.MemoryMap | xv6-public_pa2/memlayout.h:3-8 | page numbers and byte addresses of the memory layout agree |
| FrameCounts.KernelTables | xv6-public_pa2/vm.c:118-136 | a directory with the kernel mappings, and tables only where they need them, has exactly the 64 page tables of entries 512 to 567 and 1016 to 1023 |
| FrameCounts.CopyTabsNext | xv6-public_pa2/vm.c:324-338 | the copy of page i takes one frame, and one more for a table if and only if i is a multiple of 1024 |
| AddressSpaces.AddThenGone | xv6-public_pa2/vm.c:129-134 | building a directory and then freeing it gives every frame back and changes no mapping and no page in use |
| AddressSpaces.ForkThenFree | xv6-public_pa2/vm.c:315-345 | copying an address space and freeing the copy restores the use of every frame and leaves every page as it was |
| Vm.Memory.constructor | xv6-public_pa2/kalloc.c:20-24 | no frames yet |
| Vm.Memory.Kfree | xv6-public_pa2/kalloc.c:60-77 | the frame is first on the free list and each of its bytes is 1; panics if and only if the address is not a page between the end of the kernel and PHYSTOP |
| Vm.Memory.Kalloc | xv6-public_pa2/kalloc.c:83-95 | the first frame of the free list, or 0 exactly when it is empty |
| Vm.Memory.Freerange | xv6-public_pa2/kalloc.c:47-53 | exactly the whole pages between the two addresses become free frames; stops in the panic of kfree if and only if one of them is out of range |
| Vm.Memory.Walkpgdir | xv6-public_pa2/vm.c:36-55 | finds or makes the page table, a new directory entry being present, writable and for users; fails exactly when it may not allocate or cannot |
| Vm.Memory.Mappages | xv6-public_pa2/vm.c:61-80 | maps the pages, kernel or user, to consecutive frames with the rights given; or a prefix of them, and -1 when no table can be had, or the remap panic exactly at a page already mapped; the free list is shorter by the number of tables made |
| Vm.Memory.Deallocuvm | xv6-public_pa2/vm.c:256-279 | unmaps and frees exactly the user pages between the two sizes, the free list longer by the number that were mapped; kfree never panics |
| Vm.Memory.FreePage | xv6-public_pa2/vm.c:269-276 | the page found is freed, then its entry cleared; kfree takes it |
| Vm.Memory.Freevm | xv6-public_pa2/vm.c:284-298 | every frame the directory owned is free; every other frame, mapping and page is unchanged |
| Vm.Memory.Allocuvm | xv6-public_pa2/vm.c:222-249 | over unmapped pages it succeeds if and only if the free list covers the pages and the missing tables: then all new pages are mapped to fresh frames whose 4096 bytes are each 0 and the free list is shorter by exactly that; otherwise all mappings are as before and exactly the tables made for the pages before the failing one stay behind; over a mapped page it panics, or fails before it and unmaps it |
| Vm.Memory.Setupkvm | xv6-public_pa2/vm.c:118-136 | succeeds if and only if 65 frames are free, and takes exactly those: a directory with exactly the kernel mappings, none for users; otherwise every frame is given back |
| Vm.Memory.Copyuvm | xv6-public_pa2/vm.c:316-345 | the child has the same pages with equal bytes and rights in fresh frames, the parent is unchanged, and the free list is shorter by 65, the pages and one table per 1024 of them; with all pages mapped it succeeds if and only if the free list covers these; on failure every frame is given back, and no frame was left for the page it stopped at; it panics exactly at the first page below the size that is not mapped, if it gets there |
| Pipe.FirstInFirstOut | xv6-public_pa2/pipe.c:79-121 | over every interleaving of partial reads and writes the bytes delivered, followed by those in the ring, are the bytes stored in order |
| Pipe.WriteReturnsStored | xv6-public_pa2/pipe.c:79-98 | over all the bursts of one call, sleeps included, and whatever others do in between, pipewrite has stored a prefix of its bytes; it returns a number if and only if it has stored all, and the number is theirs |
| Pipe.ReadReturnsDelivered | xv6-public_pa2/pipe.c:101-121 | piperead returns the number of bytes it delivers, which is all it asked for or all there are, and 0 only at the end of the data |
| Pipe.WakeupKeptIff | xv6-public_pa2/pipe.c:85-97 | a burst keeps sleeping readers and writers justified if and only if it is not a failing write beside a sleeping reader |
| Pipe.WhoForgetsReaders | xv6-public_pa2/pipe.c:86-89 | that write is exactly one of more than 512 bytes by a killed writer or with the read end closed |
| Pipe.KilledWriterForgets | xv6-public_pa2/pipe.c:86-89 | a killed writer of 513 bytes leaves a reader asleep beside a full pipe |
| Pipe.RunsKeepWakeups | xv6-public_pa2/pipe.c:79-121 | without such writes sleepers always have reason to sleep, and readers and writers never sleep at the same time |
| Pipe.SlotOfCounter | xv6-public_pa2/pipe.c:93 | the 32-bit counter and the position in the whole stream agree on the slot, because 512 divides 2^32 |
| Pipe.CountersCompare | xv6-public_pa2/pipe.c:85 | the tests for full and empty on wrapped counters are exact |
| Pipe.Ring.constructor | xv6-public_pa2/pipe.c:33-36 | an open empty pipe |
| Pipe.Ring.Pipeclose | xv6-public_pa2/pipe.c:60-75 | closes one end, wakes the other side, and frees the pipe exactly when both are closed |
| Pipe.Ring.Pipewrite | xv6-public_pa2/pipe.c:79-98 | stores bytes in order until done, full and failing, or full and asleep, exactly as the queue does; done means that all are stored, and returns their number |
| Pipe.Ring.Piperead | xv6-public_pa2/pipe.c:101-121 | delivers the oldest bytes and returns their number, or fails or sleeps on an empty pipe, exactly as the queue does |
| BufferRing.UnlinkKeepsRing | xv6-public_pa2/bio.c:132-133 | unlinking a buffer leaves one ring over the others, wherever it stood |
| BufferRing.InsertKeepsRing | xv6-public_pa2/bio.c:134-137 | linking a buffer after the head leaves one ring with it in front |
| BufferCache.BusyUnique | xv6-public_pa2/bio.c:68-89 | at most one valid or used buffer per block |
| BufferCache.RefinesPlainDisk | xv6-public_pa2/bio.c:96-106 | a valid buffer holds what was last written to its block, and without one the disk does |
| BufferCache.HitKeeps | xv6-public_pa2/bio.c:69-75 | a hit keeps the invariant of the cache |
| BufferCache.RecycleKeeps | xv6-public_pa2/bio.c:81-90 | recycling keeps the invariant, never takes a locked buffer, and loses no contents but an unsaved change in the buffer taken |
| BufferCache.RecyclesLeastRecent | xv6-public_pa2/bio.c:81-90 | the recycled buffer is the one released longest ago among the idle clean ones |
| BufferCache.UsedBuffersStay | xv6-public_pa2/bio.c:79-82 | bget never renames a buffer that is used or dirty |
| BufferCache.DropKeeps | xv6-public_pa2/bio.c:128-138 | releasing keeps the invariant; the order by release time survives the move to the front |
| BufferCache.NextKeepsInv | xv6-public_pa2/bio.c:60-141 | every step of any process keeps the invariant of the cache |
| BufferCache.RunKeepsInv | xv6-public_pa2/bio.c:60-141 | the invariant holds in every state of every interleaving |
| BufferCache.BufferStays | xv6-public_pa2/bio.c:62-106 | over every interleaving a process that got a buffer for a block is among its users and the buffer has that name until its brelse; once loaded by anyone it stays valid until then |
| BufferCache.BreadYieldsLatest | xv6-public_pa2/bio.c:96-106 | over every interleaving, from the load in bread to brelse the buffer is valid and holds what any process last wrote to the block, unless an unsaved change of the block was thrown away |
| BufferCache.NextShows | xv6-public_pa2/bio.c:81-90 | the contents shown for a block change only by a write to it, or when bget recycles its buffer with an unsaved change |
| BufferCache.SavingRunsLoseNothing | xv6-public_pa2/bio.c:121-141 | if brelse always comes after the change was saved, nothing is ever thrown away, in any interleaving |
| BufferCache.Cache.constructor | xv6-public_pa2/bio.c:39-56 | one ring over all buffers, all of the same name (0,0) and none valid, the disk shown as it is |
| BufferCache.Cache.Cached | xv6-public_pa2/bio.c:69-76 | the first buffer of the ring with the name, or none |
| BufferCache.Cache.LastIdle | xv6-public_pa2/bio.c:81-91 | the last idle clean buffer of the ring, or none |
| BufferCache.Cache.Bget | xv6-public_pa2/bio.c:62-93 | a hit or the recycling of the last idle clean buffer; panics exactly when neither exists |
| BufferCache.Cache.Iderw | xv6-public_pa2/ide.c:138-168 | a dirty buffer is written, an invalid one is read; afterwards it is valid and clean and equals the disk |
| BufferCache.Cache.Fill | xv6-public_pa2/bio.c:102-105 | the tail of bread by the holder: the buffer is valid with the latest contents |
| BufferCache.Cache.Bread | xv6-public_pa2/bio.c:96-106 | a buffer of the block with the caller among its users: locked, valid and with the latest contents when the lock is free; otherwise the caller waits for its holder; panics exactly as bget does |
| BufferCache.Cache.Wake | xv6-public_pa2/bio.c:96-106 | the rest of bread once the holder has let go: locked, valid and with the latest contents of the name the buffer has |
| BufferCache.Cache.Bwrite | xv6-public_pa2/bio.c:110-116 | afterwards the disk holds the latest contents of the block and no other block changed |
| BufferCache.Cache.Modify | xv6-public_pa2/log.c:208-212 | the holder changes the bytes of its buffer, and these are from then on the contents of the block |
| BufferCache.Cache.Releasesleep | xv6-public_pa2/bio.c:126 | the holder gives up the lock and nothing else changes, whether or not it saved its change |
| BufferCache.Cache.Drop | xv6-public_pa2/bio.c:128-138 | the last user moves the buffer to the front of the ring |
| BufferCache.Cache.Brelse | xv6-public_pa2/bio.c:121-141 | one user less; in front of the ring if it was the last; no other buffer changes; no condition on what was saved |
| ShellGrammar.RedirsSound | xv6-public_pa2/sh.c:380-396 | accepted redirections are spelled by the tokens consumed, later ones outermost |
| ShellGrammar.ArgsSound | xv6-public_pa2/sh.c:431-442 | accepted arguments and redirections are spelled by the tokens consumed; the words are the argv in order, fewer than MAXARGS |
| ShellGrammar.LineSound | xv6-public_pa2/sh.c:345-359 | every accepted line prefix is spelled by a tree of the grammar that means the command built |
| ShellGrammar.CommandComplete | xv6-public_pa2/sh.c:416-446 | every command of the grammar is accepted with its meaning, before whatever may follow it |
| ShellGrammar.LineComplete | xv6-public_pa2/sh.c:345-359 | every line of the grammar is accepted with its meaning, at the end of the input or before a closing parenthesis |
| ShellGrammar.ParserIsGrammar | xv6-public_pa2/sh.c:328-446 | the parser succeeds with a command on exactly the token strings of the grammar that mean it, consuming all of them |
| ShellGrammar.Unambiguous | xv6-public_pa2/sh.c:328-446 | two trees with the same spelling mean the same command |
| ShellGrammar.RedirectionMeans | xv6-public_pa2/sh.c:375-397 | the redirection for input opens its file to read as descriptor 0, the one for output and the one for appending open theirs to write and create as descriptor 1; later redirections come outermost |
| ShellGrammar.WordsAlone | xv6-public_pa2/sh.c:416-446 | fewer than ten words are a command with them as its arguments in order; ten are the panic |
| ShellGrammar.TypedIsParsed | xv6-public_pa2/sh.c:328-446 | every command tree, nested in any way from pipes, lists, background commands, redirections for input and output, and commands of fewer than ten words, is what the parser makes of its spelling with parentheses |
| Shell.TokensAreWords | xv6-public_pa2/sh.c:295-300 | every word token is a non-empty stretch of word characters that cannot be extended |
| Shell.TokensSpell | xv6-public_pa2/sh.c:266-308 | the tokens of a line spell it in order with only blanks between and around them: two greater-than signs are one token, a single one is followed by no other, and words are maximal |
| Shell.SpellingUnique | xv6-public_pa2/sh.c:266-308 | no other list of tokens spells the line so |
| Shell.PeekMeans | xv6-public_pa2/sh.c:311-320 | looking at one character asks about the next token |
| Shell.EveryWordUsed | xv6-public_pa2/sh.c:328-446 | the argv and file strings of a parsed command are exactly the words of the line |
| Shell.NulsFallBetweenWords | xv6-public_pa2/sh.c:450-493 | a NUL at the end of every word falls inside no other word: each string reads back as its token |
| Shell.Parser.constructor | xv6-public_pa2/sh.c:328-334 | the cursor at the start of the line |
| Shell.Parser.Skip | xv6-public_pa2/sh.c:272-273 | moves over white space and no further |
| Shell.Parser.Gettoken | xv6-public_pa2/sh.c:266-308 | returns the next token with its span and moves to the one after it |
| Shell.Parser.Peek | xv6-public_pa2/sh.c:311-320 | tells whether the next token begins with one of the characters, and consumes none |
| Shell.Parser.ParseLine | xv6-public_pa2/sh.c:345-359 | on characters, what the token parser does on tokens, panics included |
| Shell.Parser.ParsePipe | xv6-public_pa2/sh.c:362-372 | on characters, what the token parser does on tokens, panics included |
| Shell.Parser.ParseRedirs | xv6-public_pa2/sh.c:375-397 | on characters, what the token parser does on tokens, panics included |
| Shell.Parser.ParseBlock | xv6-public_pa2/sh.c:400-413 | on characters, what the token parser does on tokens, panics included |
| Shell.Parser.ParseExec | xv6-public_pa2/sh.c:416-446 | on characters, what the token parser does on tokens, panics included; argv is never overrun |
| Shell.Nulterminate | xv6-public_pa2/sh.c:450-493 | exactly the ends of the strings of the command become NUL |
| Shell.Parsecmd | xv6-public_pa2/sh.c:328-342 | on the one list of tokens that spells the line: the command it means with each string cut out as its token, or the panic the grammar calls for with the line untouched |
| Grep.CutFirst | xv6-public_pa2/grep.c:85-96 | a word of a pattern language is a piece for the first item and a word for the rest |
| Grep.ReadSpells | xv6-public_pa2/grep.c:73-96 | every string is read as a pattern that spells it |
| Grep.ReadUnique | xv6-public_pa2/grep.c:73-96 | and as no other, where a star always belongs to the character before it |
| Grep.LiteralIsSubstring | xv6-public_pa2/grep.c:73-82 | without special characters a match is the occurrence of the pattern in the text |
| Grep.DotsMatchAnything | xv6-public_pa2/grep.c:85-96 | n dots match any n characters and no fewer |
| Grep.PrefixOne | xv6-public_pa2/grep.c:93-94 | a literal or dot takes one character that fits |
| Grep.PrefixStar | xv6-public_pa2/grep.c:99-106 | a star takes nothing, or one fitting character and goes on |
| Grep.Match | xv6-public_pa2/grep.c:73-82 | 1 if and only if the text has a substring in the language of the pattern, at its start for ^ |
| Grep.Matchhere | xv6-public_pa2/grep.c:85-96 | 1 if and only if a prefix of the text, all of it for a final $, is in the language; terminates on every pattern |
| Grep.Matchstar | xv6-public_pa2/grep.c:99-106 | 1 if and only if a prefix is in the language of the starred character followed by the rest |

## Left out

- Hardware and drivers (disk queue and interrupts, console, APICs, boot, context switch): the disk is a map from
  block number to contents on which a write is atomic.
- File system operations of different processes interleaving inside one operation: each call of the
  file-block methods runs to its end, as inode locks make it for one inode; the bitmap is shared only between calls. The log and the buffer cache do interleave.
- The layout of dinodes and bitmap bytes inside their sectors, and inode type, link count and device
  numbers: the bitmap is a sequence of bits, an inode its size and pointers.
- Device inodes in readi and writei, and pipes and read-only files in filewrite.
- Path names, directories, link counts, inode allocation and reference counts, exec, system call argument checks.
- Umalloc.Heap.Sbrk: the break is a multiple of the header size, as exec leaves it (exec.c:65-66); a process that
  calls sbrk itself with other sizes is not modelled.
- Umalloc.Heap.Malloc: the sum of an address and a size of 2^31 bytes or more is not taken modulo 2^32, and nothing is
  said of a heap after it has handed out memory above the break.
- Other calls of sbrk between mallocs are covered (regions need not touch), but not ones that give memory back.
- Fairness is stated for one CPU and a fixed set of always-runnable processes of fixed nice
  and equal starting vruntime; sleepers placed
  by wakeup1 and several CPUs are not part of it.
- The runtime_d_weight field, which is only printed.
- Files, working directory and memory of a process are not part of its table entry; sleep on a
  channel other than a process is one step in LifeCycle, and is taken apart in SleepLock.
- The spin locks themselves: code under one lock is one step, except in SleepLock where acquire and release are steps.
- Accessed and dirty bits that the hardware sets in page table entries, and clearpteu.
- Vm.Memory.Mappages: addresses and sizes are whole pages, as all its callers pass them.
- The disk beyond its last block.
- Waiting for the sleep lock of a buffer is in BufferCache, not in the log's machine: a step of a commit is taken when
  its locks are free, and takes and gives back its buffers at once, so that a reader's panic during such a step is
  not seen.
- One call of Pipewrite or Piperead in the model is one burst, from taking the lock or waking up until it sleeps or returns;
  pipewrite repeats it with the byte it stopped at.
- In parseexec the exec node is a value to which AddArg appends inside the redirections around it, where
  the code keeps a second pointer to it; memory for nodes is not modelled.
- runcmd, fork1, cd and the prompt of the shell; the line buffering of grep.
- Shared swap and mmap code of the other course copies.
