# xv6 in Dafny

A model, with proofs, of the parts of this RISC-V teaching kernel and its user programs
whose correctness is hard to see: the crash-safe disk, the file system on it, virtual
memory, three concurrent protocols, the user-level allocator, and two small languages.

* **Log and buffer cache** (`LogDisk`, `LogMachine`, `CacheMachine`, `BufferCache`, `Log`,
  `LogRuns`).
  The disk changes one block at a time and power may fail between any two block writes,
  also during recovery. `LogMachine` runs the logging layer as interleaved steps;
  `CacheMachine` does the same for any number of processes on the cache. `BufferCache` and
  `Log` are the code, with its linked list, pins and loops, proved to take exactly those
  steps. `trace` in the cache is the sequence of disk states, one for each write.
* **Files and directories** (`Bytes`, `FsImage`, `FsContents`, `FileSystem`, `Directory`,
  `FsRuns`).
  Every block is free or owned by one direct, indirect-pointer or indirect-entry slot; a
  file is a byte sequence, a directory a map from names cut to 14 bytes to inode numbers;
  the blocks a call logs are counted.
* **Virtual memory** (`PageTable`, `TableCost`, `Vm`, `UserCopy`, `Spaces`). Every page is on
  the linked free list or has one role; the three-level Sv39 tree of a root denotes a flat
  map from page numbers to entries; all failure paths are part of it, and so are the bytes
  that copyout and copyin move; when memory runs out is counted, page by page and table by
  table. `Spaces` puts these together as the kernel's process code does: each process has
  the pages of its size, all its own, in every run.
* **exit, wait and fork** (`ExitWait`, `WaitRuns`). Steps are sections under one lock. The
  loops of wakeup, reparent and wait are walked slot by slot, so every other process may
  move in between; a process lock held across a context switch is part of the state.
  `WaitRuns` has what follows for wait, kill and the locks over whole runs.
* **Accounting and the priority scheduler** (`Ticks`).
* **The virtio disk driver** (`VirtioRing`), with the device as the other party, and
  **pipes** (`Pipe`): each method is one critical section, or one step of the device, and a
  run is any sequence of calls.
* **malloc and free** (`FreeList`, `Umalloc`), over header words in memory.
* **The shell's parser** (`Grammar`, `Shell`) and **grep's matcher** (`Grep`).

A panic of the kernel is a result of the method (`false`, `None`, or a constructor of its
own), and the contract says when it happens. What the code gets from elsewhere is a
parameter: what sbrk returns, which bytes copyin and copyout can move, when a process is
killed, the status the device reports.

Where the code and its comments or documentation differ, the model follows the code:

* the log's limit is tested against `nlog - 1` as well as LOGSIZE, and before absorption,
  so a log of LOGSIZE blocks is too short (`LogMachine.ShortLogPanics`) and a full log
  refuses even an absorbed write (`LogMachine.AbsorbedWritePanics`); `PanicsExactly` has the
  exact condition;
* commit panics when a block of the log is not cached and no buffer is idle, which is the
  exact condition (`Log.Log.Commit`); NBUF equals LOGSIZE, so LOGSIZE logged blocks are
  enough for that (`LogRuns.FullLogPanics`), and so is one block less together with a
  process that reads a file meanwhile (`LogRuns.ReaderPanics`);
* the scheduler's comparison of two processes is the documented one exactly as long as they
  do not cross (`Ticks.TieBreakExact`); its choice from the table is a documented one exactly
  when some first process is followed by none of its priority that was created before it
  (`Ticks.PickEarliest`);
* a call's reservation of MAXOPBLOCKS covers filewrite's chunks on any disk
  (`FileSystem.ChunkBound`), but itrunc exactly on disks of up to nine free map blocks
  (`FsRuns.TruncFitsExactly`, `FsRuns.TruncNeedsEleven`);
* writei whose copy fails has put the bytes before the fault into the block, without
  counting or logging them (`FileSystem.FileSystem.Writei`);
* growproc reports success, and changes nothing, when its 32-bit sum wraps
  (`Spaces.Spaces.Growproc`);
* kill wakes a process that sleeps, but one that is killed after wait has tested for that
  and before it has its own lock goes to sleep killed; `WaitRuns.KilledAsleep` says that
  this is the only way, `WaitRuns.SleepsInWait` has such a run;
* a writer killed in the middle of pipewrite does not wake the readers
  (`Pipe.LostWakeup`); `Pipe.Pipe.Write` says, over its inputs, exactly when that leaves
  one asleep beside bytes.

## Model

| member | source | states |
|---|---|---|
| `LogDisk.SlotWriteKeepsView` | kernel/log.c:178-191 | filling a log slot while the header on disk is empty changes nothing that a crash could show |
| `LogDisk.HeadWriteCommits` | kernel/log.c:102-114 | the single header write switches what the disk shows from the old contents to all logged contents at once |
| `LogDisk.InstallKeepsView` | kernel/log.c:68-83 | copying one slot home never changes what the disk shows, and extends the installed prefix by one |
| `LogDisk.ClearKeepsView` | kernel/log.c:198-201 | emptying the header once every slot is home leaves the same thing showing |
| `LogDisk.InstalledShows` | kernel/log.c:68-83 | a recovery stopped after any number of copies still shows what was committed |
| `LogDisk.BootShows` | kernel/log.c:116-123 | a boot cut short after any number of block writes shows what the crashed disk showed; a boot that completes has it in the home blocks and an empty log |
| `LogDisk.RecoveryAfterCrashes` | kernel/log.c:116-123 | any number of boots, each cut short after any block write, followed by one complete recovery, leaves exactly what the disk showed at the first crash |
| `LogMachine.BudgetBelow` | kernel/log.c:133-136 | the unspent budget of an open call is part of what begin_op has reserved |
| `LogMachine.HeadCommits` | kernel/log.c:102-114 | after the header write the disk shows the replay of every write logged so far |
| `LogMachine.StepKeepsInv` | kernel/log.c:126-235 | every step of every interleaving of begin_op, log_write, end_op, commit, recovery and power failure keeps the invariant that ties disk, cache, log header and history |
| `LogMachine.RunKeepsInv` | kernel/log.c:126-235 | the same over whole runs |
| `LogMachine.CrashAtomicity` | kernel/log.c:178-203 | stop any run anywhere, even inside recovery, and reboot any number of times: one complete recovery leaves the effect of the committed writes and of no others, and the commit point splits no call |
| `LogMachine.CommitsAreForever` | kernel/log.c:193-203 | what is committed stays committed through all later steps and crashes |
| `LogMachine.IdleIsDurable` | kernel/log.c:146-175 | when no call is open and no commit is running, every write made so far is in its home block |
| `LogMachine.GroupCommit` | kernel/log.c:126-175 | logged blocks plus unspent reservations never exceed LOGSIZE, a commit has no call open, no block is logged twice, and the cache holds the newest contents |
| `LogMachine.AdmitsExactly` | kernel/log.c:126-142 | in every run, one more call is let in exactly when no commit is running and the log has room after every open call and this one add ten blocks each |
| `LogMachine.CallsGoOn` | kernel/log.c:126-175 | in every run, a call in progress can end at any time, and can log any home block that is in the log already or while one of its ten blocks is left |
| `LogMachine.Advances` | kernel/log.c:178-203 | a commit or recovery in progress always has a next step and never a choice between two |
| `LogMachine.CommitEnds` | kernel/log.c:193-203 | from any state of any run with no call open, the commit or recovery in progress is over after an exact number of steps, at most twice the logged blocks plus three: the log is empty and every write made so far is in its home block |
| `LogMachine.BootIsRecovery` | kernel/log.c:116-123 | the disk of a boot cut short after k block writes is the one after k steps from power-on: one entry taken home by each, the header cleared by the last |
| `LogMachine.PanicsExactly` | kernel/log.c:214-226 | in any run only log_write can panic, exactly when the log is at LOGSIZE or at nlog - 1 entries; with nlog > LOGSIZE a call within its budget never panics on a block new to the log |
| `LogMachine.ShortLogPanics` | kernel/log.c:214-226 | with nlog <= LOGSIZE, the value the image builder uses, that guarantee fails: a run in which a call within its budget panics on a fresh block |
| `LogMachine.AbsorbedWritePanics` | kernel/log.c:214-226 | the size test comes before absorption: a run in which logging a block that is already in the log panics |
| `CacheMachine.StepKeepsInv` | kernel/bio.c:58-151 | every step of any number of processes on the cache keeps: reference counts equal users plus pins, valid unchanged buffers agree with the logical disk, and unwritten contents are pinned |
| `CacheMachine.RunKeepsInv` | kernel/bio.c:58-151 | the same over whole runs from binit |
| `CacheMachine.CacheAgreesWithLogicalDisk` | kernel/bio.c:58-151 | in every run whose callers log or write a changed buffer before releasing it: a locked filled buffer holds the last logged or written contents of its block, no two buffers of a device other than 0 hold the same block, and a block whose newest contents are not on disk sits in a valid pinned buffer |
| `BufferCache.MoveFront` | kernel/bio.c:128-133 | the six pointer writes of brelse, in their order, turn the ring of buffers into the ring with that buffer in front |
| `BufferCache.Cache.constructor` | kernel/bio.c:36-53 | binit builds a well-formed ring of all NBUF buffers, none of them valid |
| `BufferCache.Cache.FindCached` | kernel/bio.c:65-73 | the forward scan finds a buffer of the block if and only if there is one |
| `BufferCache.Cache.FindIdle` | kernel/bio.c:75-88 | the backward scan finds the least recently used idle buffer, or there is none |
| `BufferCache.Cache.Bget` | kernel/bio.c:58-89 | bget is the machine's Get on the cached buffer or else on the least recently used idle one; it panics exactly when the block is not cached and every buffer is in use |
| `BufferCache.Cache.Bread` | kernel/bio.c:91-103 | bread returns a locked buffer with the logical contents of the block, whether it was cached or had to be read; one reference more and nothing else changes |
| `BufferCache.Cache.Bwrite` | kernel/bio.c:105-112 | bwrite writes the locked buffer's block, filled or not, and only that, in one disk write; it panics exactly for a buffer not locked by the caller |
| `BufferCache.Cache.MoveToFront` | kernel/bio.c:128-133 | the relinking keeps the ring and moves one buffer to the front |
| `BufferCache.Cache.Brelse` | kernel/bio.c:116-137 | brelse drops lock and reference; the last user's release moves the buffer to the front and any other leaves the order alone |
| `BufferCache.Cache.Bpin` | kernel/bio.c:139-144 | bpin is the machine's LogWrite: the buffer's contents become the logical contents and it stays in the cache |
| `BufferCache.Cache.Bunpin` | kernel/bio.c:146-151 | bunpin gives up that reference once the block is on disk |
| `Log.Log.constructor` | kernel/log.c:54-65 | initlog over the disk a crash left, up to read_head, is the machine's start state |
| `Log.CopyThrough` | kernel/log.c:183-189 | one block copied through the cache, slot read first, source released first: the destination on disk gets the logical contents of the source in one write, and no buffer that another process has changes; with the home block in use it panics exactly when the slot is not cached and no buffer is idle |
| `Log.Log.CopyToLog` | kernel/log.c:183-189 | one round of write_log is one CopyBlock step with one disk write; whatever buffers other processes hold, it panics exactly when the slot is not cached and no buffer is idle |
| `Log.Log.CopyHome` | kernel/log.c:73-82 | one round of install_trans is one InstallBlock step; it drops the pin of that block unless it is recovery, and leaves the buffers of other processes alone |
| `Log.Log.WriteLog` | kernel/log.c:178-191 | write_log copies the newest contents of every logged block, every disk state on the way shows the old contents, and it panics exactly when some slot can get no buffer |
| `Log.Log.InstallTrans` | kernel/log.c:68-83 | install_trans takes every slot home, and every disk state on the way shows the same |
| `Log.FillHead` | kernel/log.c:108-111 | the loop of write_head stores the count and the entries in the header block and leaves the words after them alone |
| `Log.Log.CommitHead` | kernel/log.c:102-114 | write_head of the filled header is the commit step, one disk write; it panics exactly when the header can get no buffer |
| `Log.Log.ClearHead` | kernel/log.c:198-201 | write_head of the emptied header ends the transaction |
| `Log.Log.CommitWritten` | kernel/log.c:197-201 | from the header write on every disk state shows every logged write |
| `Log.Log.Commit` | kernel/log.c:193-203 | commit shows the old contents up to one disk write and all logged contents from it on, so a crash anywhere in it is all or nothing; other processes may hold any buffers but those of the log, and it panics exactly when a block of the log is not cached and no buffer is idle |
| `Log.QuietRoom` | kernel/log.c:178-203 | when nobody else uses the cache that is exactly when the log holds NBUF blocks |
| `LogRuns.FullLogPanics` | kernel/log.c:178-191 | a run of the code from boot in which LOGSIZE logged blocks fill the cache and commit panics, for every disk whose log is long enough |
| `LogRuns.ReaderPanics` | kernel/log.c:178-191 | a run that panics with one block less, so also with the log the image builder makes: a process outside any transaction has the last buffer |
| `LogRuns.AloneCommits` | kernel/log.c:178-203 | the same run without that process commits |
| `Log.Log.RecoverFromLog` | kernel/log.c:116-123 | recovery ends with an empty log and the committed contents in the home blocks; every disk state on the way shows the same |
| `Log.Log.BeginOp` | kernel/log.c:126-142 | begin_op goes ahead exactly when no commit is running and the logged blocks plus ten for each call in progress and for this one are at most thirty |
| `Log.FindBlock` | kernel/log.c:225-228 | the absorption search finds the entry of the block if and only if it is logged |
| `Log.Log.Record` | kernel/log.c:225-233 | a block new to the log is appended and its buffer pinned once; a block already there is absorbed |
| `Log.Log.LogWrite` | kernel/log.c:214-235 | log_write is the machine's LogWrite step and the cache's, and panics exactly where the machine does |
| `Log.Log.EndOp` | kernel/log.c:146-175 | end_op of any call but the last touches no disk; the last one commits everything, switching once, and panics exactly when a block of the log can get no buffer |
| `FsImage.AllocKeeps` | kernel/fs.c:63-86 | a block that balloc hands out belonged to nobody, and no other block changes hands |
| `FsImage.AttachKeeps` | kernel/fs.c:383-402 | storing a fresh block number in an empty slot keeps all direct, indirect-pointer and indirect-entry numbers distinct and marked used |
| `FsImage.DetachKeeps` | kernel/fs.c:416-421 | freeing a direct block keeps that invariant, and the block was marked used |
| `FsImage.FreeEntryKeeps` | kernel/fs.c:426-429 | freeing an indirect entry's block keeps it for all blocks not yet freed, and the block was marked used |
| `FsImage.DropPointerKeeps` | kernel/fs.c:430-433 | freeing the indirect block itself completes it, and the block was marked used |
| `FsImage.ReleasedIsTruncated` | kernel/fs.c:409-437 | having freed direct blocks, entries and pointer is having freed exactly the inode's blocks |
| `FsContents.HoldsIsContents` | kernel/fs.c:377-405 | the block map determines the bytes of a file |
| `FsContents.WriteChunk` | kernel/fs.c:497-506 | copying bytes into one mapped block overwrites exactly that range of the file's byte sequence |
| `FsContents.PutOthers` | kernel/fs.c:497-506 | and changes no other file |
| `FsContents.AddedGrows` | kernel/fs.c:377-405 | allocating and mapping a block changes the bytes of no file |
| `FsContents.AddedTook` | kernel/fs.c:63-86 | the blocks that got an owner are exactly the ones taken off the free map |
| `FsContents.NewWasFree` | kernel/fs.c:377-405 | a block that a file gained was marked free before |
| `FsContents.PaidThen` | kernel/fs.c:377-405 | mapping a range of blocks takes as many free blocks as the range lacks, the indirect block included |
| `FileSystem.FileSystem.Balloc` | kernel/fs.c:63-86 | balloc takes the lowest free block, zeroed, and logs its bitmap block and itself; it panics exactly when none is free |
| `FileSystem.FileSystem.FindFree` | kernel/fs.c:72-80 | the inner loop stops at the first clear bit of one bitmap block |
| `FileSystem.FileSystem.Bmap` | kernel/fs.c:377-405 | bmap returns the number of the file's bn-th block, changes nothing if it is there, and otherwise maps blocks that were free; it panics exactly out of range or when it lacks more blocks than are free |
| `FileSystem.FileSystem.Bfree` | kernel/fs.c:88-103 | bfree clears one bit; the panic is exactly for a free block |
| `FileSystem.FileSystem.Itrunc` | kernel/fs.c:409-437 | itrunc frees exactly the blocks of the inode, each once, never reaches the freeing-free-block panic, and logs exactly their free map blocks and the inode's block |
| `FileSystem.TruncBound` | kernel/fs.c:409-437 | on a disk of at most nine free map blocks itrunc logs at most MAXOPBLOCKS blocks, whatever the file |
| `FsRuns.TruncNeedsEleven` | kernel/fs.c:409-437 | a run of itrunc, on any larger disk, that logs more than MAXOPBLOCKS blocks |
| `FsRuns.TruncFitsExactly` | kernel/fs.c:409-437 | over disk sizes: every itrunc fits the reservation if and only if the disk has at most nine free map blocks |
| `FileSystem.FileSystem.Writei` | kernel/fs.c:486-517 | writei overwrites the byte sequence of the file from off on with what it copied and no other file, a failing copy leaving its bytes before the fault in place but neither counted nor logged; it refuses exactly the calls the code refuses, runs out of blocks exactly when the blocks it maps lack more than are free, and logs exactly the blocks of the write set |
| `FileSystem.FileSystem.Readi` | kernel/fs.c:455-477 | readi returns the slice of the byte sequence, cut at the size, and changes nothing: it never allocates and never logs, so fileread needs no transaction |
| `FileSystem.FileSystem.FileWrite` | kernel/file.c:149-175 | filewrite counts exactly the bytes of the pieces that fit the largest file and can be read, all of them if nothing stands in the way; it overwrites the byte sequence with them, at a fault with all bytes before it; it panics exactly when the blocks it maps lack more than are free; no transaction logs more than MAXOPBLOCKS blocks |
| `FileSystem.MetaPlaces` | kernel/fs.h:41-51 | IBLOCK and BBLOCK name the block in which the 64 bytes of the inode, or the bit of the block, lie |
| `FileSystem.FileSystem.WriteTransaction` | kernel/file.c:162-167 | one of its transactions: the bytes counted, the exact panic, and at most MAXOPBLOCKS blocks logged |
| `FileSystem.FileSystem.WritePiece` | kernel/file.c:157-175 | one round of its loop, over everything written so far |
| `FileSystem.RunCounts` | kernel/file.c:149-175 | what fits and can be read is counted, but for less than a block before a fault |
| `FileSystem.NeedJoin` | kernel/fs.c:377-405 | the blocks that a range lacks are those its first part lacked and those the rest lacks then |
| `FileSystem.ChunkBound` | kernel/file.c:149-167 | one chunk of at most 3 * BSIZE bytes logs at most MAXOPBLOCKS distinct blocks, at any offset, for any file without holes and any disk size, also when the copy stops early |
| `FileSystem.ChunkBoundReached` | kernel/file.c:149-167 | the bound is tight: writes that log exactly MAXOPBLOCKS blocks, for any file and disk where the new blocks lie in four free map blocks |
| `FsRuns.ChunkNeedsTen` | kernel/file.c:149-167 | a disk and a call of writei on it that logs exactly MAXOPBLOCKS blocks |
| `Directory.PaddedName` | kernel/string.c:70-81 | strncpy into a name field and reading it back gives the name cut to DIRSIZ bytes |
| `Directory.SameName` | kernel/string.c:60-68 | strncmp over DIRSIZ bytes decides equality of cut names |
| `Directory.EntriesAfterWrite` | kernel/fs.c:577-580 | writing 16 bytes at a multiple of 16 replaces or appends exactly one entry |
| `Directory.BindingsAdd` | kernel/fs.c:556-583 | filling a free entry, or one past the end, with a new name adds exactly one binding |
| `Directory.BindingsDrop` | kernel/sysfile.c:218-220 | zeroing an entry removes exactly its binding |
| `Directory.Dirlookup` | kernel/fs.c:527-553 | dirlookup agrees with the map of names to inode numbers, in both directions, and gives the offset of the entry |
| `Directory.FindUnused` | kernel/fs.c:569-575 | the search ends at an unused entry, and at the end of the directory exactly when there is none |
| `Directory.WriteEntry` | kernel/fs.c:577-580 | writei of an entry replaces or appends it and touches no other file; it panics exactly when the entry is past the largest file or lacks more blocks than are free |
| `Directory.RoomInside` | kernel/fs.c:486-517 | an entry inside the directory always has room |
| `Directory.Dirlink` | kernel/fs.c:556-583 | dirlink adds exactly the binding of the cut name, or refuses exactly when the name is there and then changes nothing; names stay unique; it panics exactly when the name is new, every entry is in use and the directory cannot grow |
| `Directory.IsDirEmpty` | kernel/sysfile.c:169-182 | isdirempty finds out whether an entry after the first two is in use |
| `Directory.Unlink` | kernel/sysfile.c:203-220 | sys_unlink removes exactly the binding of the cut name and touches no other file; it refuses exactly . and .., a name that is not there, and a directory with entries, and then changes nothing; its writei panic is never reached |
| `PageTable.IndicesUnique` | kernel/riscv.h:354-363 | distinct page numbers below MAXVA never share an entry |
| `PageTable.EntryParts` | kernel/riscv.h:347-352 | an entry splits into page number and flags, and its permission bits are those of the flags |
| `PageTable.TakenKeeps` | kernel/kalloc.c:68-82 | kalloc takes a page that nobody used and disturbs no tree |
| `PageTable.ReturnedKeeps` | kernel/kalloc.c:46-64 | kfree of a page that is no page table keeps the partition of all pages and every tree |
| `PageTable.WithMidKeeps` | kernel/vm.c:90-95 | hooking a zeroed page into a root changes no mapping |
| `PageTable.WithLowKeeps` | kernel/vm.c:90-95 | nor does hooking one in a level below |
| `PageTable.WithEntryKeeps` | kernel/vm.c:153-153 | storing a last-level entry changes the flat map at that page number and nowhere else, in any address space |
| `PageTable.WithoutLowKeeps` | kernel/vm.c:272-276 | freeing an empty last-level table and clearing its entry changes no mapping |
| `PageTable.WithoutMidKeeps` | kernel/vm.c:272-276 | nor does freeing an empty second-level table |
| `PageTable.WithoutRootKeeps` | kernel/vm.c:281-281 | freeing an empty root leaves every other address space alone |
| `Vm.Machine.constructor` | kernel/kalloc.c:26-31 | kinit leaves every page between the kernel's end and PHYSTOP on the free list and none in use |
| `Vm.Machine.Freerange` | kernel/kalloc.c:33-40 | freerange frees every page of the range once |
| `Vm.Machine.Kalloc` | kernel/kalloc.c:68-82 | kalloc takes the first page of the linked list, returns 0 exactly when it is empty, and no page in use changes |
| `Vm.Machine.Kfree` | kernel/kalloc.c:46-64 | kfree puts the page in front of the list; the panic is exactly for a page outside the range |
| `Vm.Machine.Walk` | kernel/vm.c:80-99 | walk finds the last-level table of a page number or says it is missing; with alloc it adds exactly the tables that lack on the path, fails exactly when there are fewer free pages, and changes no mapping, even when memory runs out halfway; it panics exactly at MAXVA |
| `TableCost.NextCost` | kernel/vm.c:80-99 | over a range of pages each table is paid for once, with the first page that uses it |
| `TableCost.MapCostGrows` | kernel/vm.c:80-99 | n pages take at most 2 * n tables |
| `Vm.Machine.NewTable` | kernel/vm.c:91-94 | the allocating part of a round of walk: a new table, no new mapping |
| `Vm.Machine.SetEntry` | kernel/vm.c:151-153 | one entry of the flat map changes |
| `Vm.PagesTouched` | kernel/vm.c:146-155 | the pages mappages walks over are exactly those that hold a byte of the range |
| `Vm.Machine.Mappages` | kernel/vm.c:137-160 | mappages maps exactly the pages of the range in order; it runs out of memory exactly when there are fewer free pages than tables lacking for the pages before the first one that is mapped already or lies past MAXVA, and otherwise panics exactly at that one, and for size 0 |
| `Vm.Machine.MapOne` | kernel/vm.c:149-153 | one round of mappages, with its exact panic |
| `Vm.Machine.Uvmunmap` | kernel/vm.c:165-187 | uvmunmap takes away exactly its range, and with do_free exactly the user pages of it; it panics exactly at the first page that is not mapped, or for an unaligned address |
| `Vm.Machine.AddPage` | kernel/vm.c:231-241 | one round of uvmalloc or uvmcopy: a page of its own with the given contents and permissions, or, exactly without a free page for it and each table it lacks, everything as before but for page-table pages; it panics exactly at a page mapped already or past MAXVA |
| `Vm.AddedThenGone` | kernel/vm.c:231-241 | taking away the pages just added restores mappings, roles and contents |
| `Vm.Machine.Uvmalloc` | kernel/vm.c:220-244 | uvmalloc adds exactly the zeroed pages between the two sizes; it restores everything and returns 0 exactly when the free pages do not cover them and their tables; otherwise it panics exactly at a page already mapped or past MAXVA |
| `Vm.DemandAtMost` | kernel/vm.c:220-244 | three free pages for each page asked for are always enough |
| `Vm.Machine.Uvmdealloc` | kernel/vm.c:250-262 | uvmdealloc removes and frees exactly the pages that the new size does not need, and panics exactly when one of them is not mapped |
| `Vm.Machine.Uvmcopy` | kernel/vm.c:300-328 | uvmcopy gives the child pages of its own with the parent's bytes and flags, and changes nothing else; it restores everything exactly when the free pages do not cover them and their tables; otherwise it panics exactly where the parent has no page or the child has one |
| `Vm.Machine.FindEntry` | kernel/vm.c:309-312 | uvmcopy's look at the parent's entry |
| `Vm.Machine.CopyPage` | kernel/vm.c:308-322 | one round of its loop |
| `Vm.CopyIsFaithful` | kernel/vm.c:300-328 | after a successful copy each page of the child reads as the parent's did, with the same flags, from a page nobody used before |
| `Vm.Machine.Freewalk` | kernel/vm.c:266-282 | freewalk frees every table under a table and the table itself, and panics exactly when a mapping is left below |
| `Vm.Machine.Uvmfree` | kernel/vm.c:286-292 | uvmfree puts every page of the address space, tables and memory, back on the free list once and touches no other, exactly when the pages mapped are those of its size; otherwise it panics |
| `Vm.Machine.Uvmcreate` | kernel/vm.c:191-200 | uvmcreate adds a root with an empty map and no tables, or returns 0 exactly when there is no page |
| `UserCopy.BytesBack` | kernel/vm.c:347-391 | a page can hold any bytes, little-endian |
| `UserCopy.WordsBack` | kernel/vm.c:347-391 | the bytes of a page determine its words |
| `UserCopy.SpliceByte` | kernel/vm.c:346-366 | one memmove into a page changes exactly the bytes of its range |
| `UserCopy.Walkaddr` | kernel/vm.c:103-121 | walkaddr returns the page that user code reaches, exactly when there is one |
| `UserCopy.Copyout` | kernel/vm.c:346-366 | copyout writes exactly its bytes, or those before the first page that user code does not reach, and fails exactly then; no other user memory of this or any other address space changes, and no page table |
| `UserCopy.Copyin` | kernel/vm.c:371-391 | copyin returns what user code would read, fails exactly when it does not reach a page, and changes nothing |
| `UserCopy.AddedStaysPrivate` | kernel/vm.c:220-328 | successful uvmalloc and uvmcopy keep what user code reaches in every address space its own memory |
| `UserCopy.RestoredStaysPrivate` | kernel/vm.c:220-328 | so do failing ones |
| `UserCopy.UnmappedStaysPrivate` | kernel/vm.c:165-187 | so does uvmunmap |
| `UserCopy.ReleasedStaysPrivate` | kernel/vm.c:286-292 | so does uvmfree |
| `UserCopy.CreatedStaysPrivate` | kernel/vm.c:191-200 | so does uvmcreate |
| `UserCopy.MappedStaysPrivate` | kernel/vm.c:137-160 | and so does mappages without PTE_U |
| `UserCopy.CopyBack` | kernel/vm.c:346-391 | what copyout put in, copyin brings back |
| `Spaces.Spaces.ProcPagetable` | kernel/proc.c:282-311 | proc_pagetable makes an address space of size 0 that maps the last page to the trampoline, for reading and executing, and the one below it to the trapframe, for reading and writing, both closed to user code; or it undoes what it did and returns 0, exactly when fewer than three pages are free; memory and kernel pages of other processes stay as they are |
| `Spaces.Spaces.FinishPagetable` | kernel/proc.c:302-310 | its second half, which maps the trapframe and leaves the trampoline, and whose failure path needs a table that is always there |
| `Spaces.KernelCost` | kernel/proc.c:292-308 | an empty root lacks two tables for the trampoline, and then none for the trapframe |
| `Spaces.Spaces.FreePagetable` | kernel/proc.c:315-321 | proc_freepagetable takes exactly that address space away, and none of its calls can panic |
| `Spaces.Spaces.Growproc` | kernel/proc.c:367-385 | growproc: the size becomes the sum, smaller for a negative number; memory below the smaller size keeps its bytes, new memory reads as zero, the kernel's two pages stay mapped as they are and no other process changes; a 32-bit sum that wraps changes nothing and succeeds; it fails exactly when a sum that does not wrap asks for more pages and tables than are free, and it never panics |
| `Spaces.Spaces.Grow` | kernel/proc.c:376-379 | the growing branch, to the size uvmalloc returns, with the exact condition for failing |
| `Spaces.FreeAbove` | kernel/vm.c:220-244 | growing below the kernel's pages meets no page that is mapped |
| `Spaces.Spaces.Shrink` | kernel/proc.c:380-381 | the shrinking branch, which never panics |
| `Spaces.Spaces.CopySpace` | kernel/proc.c:401-407 | fork's copy: afterwards the child reads at every address what the parent does and keeps its own trampoline and trapframe; it never panics, and fails, leaving the child empty, exactly when the pages and their tables are more than are free |
| `Spaces.SpacesPrivate` | kernel/vm.c:103-121 | in every state these calls can reach, the pages user code reaches are its own and no other process's |
| `Spaces.Spaces.PutAndGet` | kernel/vm.c:346-391 | copyout followed by copyin returns the same bytes, within the size of the process, keeps every kernel page and changes no other process; it is refused exactly when a page is not reached |
| `Spaces.CopiedBytes` | kernel/vm.c:300-328 | a copied page reads the same at every address, with the same user permission |
| `Spaces.GrownSpace` | kernel/vm.c:220-244 | adding the pages between two sizes gives an address space of the larger size |
| `Spaces.ShrunkSpace` | kernel/vm.c:250-262 | taking them away gives one of the smaller size |
| `FreeList.BlocksDisjoint` | user/umalloc.c:24-90 | two blocks, free or in use, never share a unit |
| `FreeList.UnitsConserved` | user/umalloc.c:24-90 | units free plus units in use are the units obtained from sbrk |
| `FreeList.FreedInv` | user/umalloc.c:24-44 | linking a block in and merging it with the neighbours it touches keeps the list circular, in address order and fully coalesced, keeps every unit, and writes no header word inside a block in use |
| `FreeList.FreedUsed` | user/umalloc.c:24-44 | exactly the freed block leaves the blocks in use |
| `FreeList.FreedWords` | user/umalloc.c:33-42 | the header words that result, in the four cases of merging |
| `FreeList.UnlinkedInv` | user/umalloc.c:76-77 | taking a block that fits exactly keeps the invariant |
| `FreeList.SplitInv` | user/umalloc.c:78-82 | so does cutting the end off a larger one |
| `FreeList.GrownInv` | user/umalloc.c:52-58 | and so does fresh memory above everything obtained so far |
| `Umalloc.UnitsEnough` | user/umalloc.c:69-69 | the units asked for hold the bytes and a header, with no unit to spare |
| `Umalloc.Allocator.FindPlace` | user/umalloc.c:30-32 | free's search terminates, at the one place in the ring where the block belongs |
| `Umalloc.Allocator.Relink` | user/umalloc.c:33-42 | free's assignments, as new header words |
| `Umalloc.Allocator.Free` | user/umalloc.c:24-44 | free keeps the invariant, takes exactly that block out of use, keeps every unit, and touches no other block in use |
| `Umalloc.Allocator.Morecore` | user/umalloc.c:46-61 | morecore adds at least 4096 fresh units to the free list, enough for the request, or does nothing when sbrk fails |
| `Umalloc.Allocator.SetUp` | user/umalloc.c:57-58 | the fresh units become one block in use, above all others |
| `Umalloc.Allocator.Take` | user/umalloc.c:75-84 | taking a block, whole or by its end, puts exactly one new block of that size in use |
| `Umalloc.Allocator.Malloc` | user/umalloc.c:63-90 | malloc terminates, calling sbrk at most once; it returns a block of the right size that was not in use, touching no block in use, and 0 exactly when no free block fits and sbrk fails |
| `VirtioRing.TwoAtMost` | kernel/virtio_disk.c:187-201 | eight descriptors in disjoint three-link chains leave room for two requests |
| `VirtioRing.ShortQueues` | kernel/virtio_disk.c:259-265 | at most two entries wait in either ring |
| `VirtioRing.PlaceAfterWrap` | kernel/virtio_disk.c:259-265 | 16-bit wraparound of a ring index does not disturb ring places |
| `VirtioRing.RingMore` | kernel/virtio_disk.c:259-265 | a new ring entry overwrites none that is still waiting |
| `VirtioRing.RingEmpty` | kernel/virtio_disk.c:300-300 | the two indices meet exactly when nothing is waiting, across wraparound |
| `VirtioRing.PostedInv` | kernel/virtio_disk.c:223-265 | posting a request keeps every descriptor free or in exactly one chain, with every chain spelling out its request |
| `VirtioRing.RetiredInv` | kernel/virtio_disk.c:276-277 | freeing a completed request's chain keeps that |
| `VirtioRing.OwnComplete` | kernel/virtio_disk.c:271-277 | b->disk is clear only after the completion of b's own request has been handled |
| `VirtioRing.Disk.constructor` | kernel/virtio_disk.c:132-138 | all descriptors start free and no request is outstanding |
| `VirtioRing.Disk.AllocDesc` | kernel/virtio_disk.c:143-154 | alloc_desc takes the first free descriptor, or there is none |
| `VirtioRing.Disk.FreeDesc` | kernel/virtio_disk.c:156-170 | free_desc frees one descriptor; it panics exactly out of range or for a free one |
| `VirtioRing.Disk.Alloc3` | kernel/virtio_disk.c:187-201 | alloc3_desc takes three distinct free descriptors, or puts everything back exactly when fewer than three are free |
| `VirtioRing.Disk.Start` | kernel/virtio_disk.c:203-269 | virtio_disk_rw up to its sleep posts the request of b at the end of the avail ring, for the sectors that start at the block's byte of the device exactly when the block number is below 2^31, or waits for descriptors with nothing posted |
| `VirtioRing.SectorsApart` | kernel/virtio_disk.c:206-206 | below that bound different blocks have no byte of the device in common; above it the 32-bit product wraps to the blocks from 0 on |
| `VirtioRing.Disk.Format` | kernel/virtio_disk.c:223-257 | the three descriptors, the command header and the in-flight record of the request |
| `VirtioRing.Disk.DeviceRead` | kernel/virtio_disk.c:259-265 | the device, reading the avail ring and following the chain, finds the oldest unread request exactly as it was posted |
| `VirtioRing.Disk.DeviceFinish` | kernel/virtio_disk.c:297-302 | completions may come in any order and fit in the used ring |
| `VirtioRing.Disk.Intr` | kernel/virtio_disk.c:282-315 | virtio_disk_intr handles exactly the completions reported when it starts if no more come in, releasing exactly their buffers; it panics exactly when one has a bad status |
| `VirtioRing.Disk.IntrRound` | kernel/virtio_disk.c:300-312 | one round of its loop handles the oldest completion not handled yet, whatever the device reports between rounds, and panics exactly for a bad status |
| `VirtioRing.Disk.FreeChain` | kernel/virtio_disk.c:172-185 | free_chain frees the three descriptors of a chain and never panics |
| `VirtioRing.Disk.Finish` | kernel/virtio_disk.c:271-280 | virtio_disk_rw after its sleep returns exactly its own three descriptors, without a panic |
| `ExitWait.RousesWakes` | kernel/proc.c:486-492 | once wakeup has passed the parent's slot, the parent is not asleep in wait until the exiting process lets go of wait_lock |
| `ExitWait.AdoptsKeeps` | kernel/proc.c:448-459 | handing a child to init keeps the invariant: init, if asleep with a zombie child, is about to be woken |
| `ExitWait.DiesKeeps` | kernel/proc.c:494-500 | becoming a zombie keeps it: no children are left and the parent is not asleep |
| `ExitWait.ReapsKeeps` | kernel/proc.c:526-540 | reaping keeps it: the slot is free and the pid is reaped for the first time |
| `ExitWait.ScanEndKeeps` | kernel/proc.c:545-552 | going to sleep in wait keeps it: no child is a zombie then |
| `ExitWait.StepKeepsInv` | kernel/proc.c:389-554 | every step of every interleaving of fork, exit, reparent, wait, kill, sleep, wakeup and scheduling keeps the invariant of the process table |
| `ExitWait.RunKeepsInv` | kernel/proc.c:389-554 | the same over whole runs from boot |
| `ExitWait.NoLostExit` | kernel/proc.c:464-554 | whenever wait_lock is free, no process asleep in wait has a zombie child |
| `ExitWait.LiveParent` | kernel/proc.c:448-459 | every started process but init has a live parent at every moment |
| `ExitWait.ReapedOnce` | kernel/proc.c:509-554 | an exited pid is either a zombie in exactly one slot or has been reaped exactly once |
| `ExitWait.ReapedOffProcessor` | kernel/proc.c:522-540 | wait frees a child only when it is a zombie of the caller that has left the processor |
| `WaitRuns.ParentsFixed` | kernel/proc.c:434-436 | while a process has wait_lock no other process changes anybody's parent |
| `WaitRuns.StepKeepsKids` | kernel/proc.c:389-554 | every step keeps: havekids says exactly whether a slot passed so far holds a child; a half-made process has one fork, which has its lock exactly until it is set up, and no parent before it is linked |
| `WaitRuns.RunKeepsKids` | kernel/proc.c:389-554 | the same over whole runs from boot |
| `WaitRuns.MadeByOneFork` | kernel/proc.c:389-445 | a process that is in use but not started is being made by exactly one fork |
| `WaitRuns.WaitSleepsExactly` | kernel/proc.c:519-552 | in every run, at the end of its scan wait returns -1 exactly when the caller is killed or no slot of the table holds a child of it, and otherwise goes to sleep; then no child is a zombie |
| `WaitRuns.WokenExactly` | kernel/proc.c:804-845 | a process asleep in wait is woken exactly by its own kill, by a child of it in exit, or, being init, by an exit that gives it a child |
| `WaitRuns.ReapsExactly` | kernel/proc.c:521-543 | wait stops at a slot exactly when it holds a zombie child of the caller; it reaps it if the status can be copied out and otherwise leaves it as it is, and nothing else is ever reaped |
| `WaitRuns.KilledAsleep` | kernel/proc.c:545-552 | a killed process sleeps in wait, or is on its way to, exactly when it was killed between the test of killed and the lock in sleep and has not been woken since |
| `WaitRuns.SleepsInWait` | kernel/proc.c:545-552 | a run in which init forks and sleeps in wait beside its running child, and one in which it does so although it is killed |
| `WaitRuns.NoDeadlock` | kernel/proc.c:464-554 | in every run the process that has wait_lock can take its next step, or waits for one process lock whose holder can |
| `WaitRuns.CallMoves` | kernel/proc.c:389-554 | a running process in fork or wait without wait_lock can take its next step unless it needs that lock and another has it |
| `WaitRuns.CallsBegin` | kernel/proc.c:389-517 | a running process can fork into every unused slot, and can wait, and exit if it is not init, exactly when wait_lock is free |
| `Ticks.TickedCharged` | kernel/proc.c:932-967 | one tick is charged to running or to waiting, priority stays in 0..100, and a zombie's running time stays within its life |
| `Ticks.TickedNiceness` | kernel/proc.c:939-963 | a tick leaves the niceness as the tenths of the counted time spent asleep, rounded down, and the priority within five of the static one, five above for a process that never slept and five below for one that only slept |
| `Ticks.SleepersFirst` | kernel/proc.c:956-963 | of two processes with the same static priority the one that slept for the larger share of its time gets the smaller niceness-adjusted priority number, so it is scheduled first |
| `Ticks.Table.UpdateVals` | kernel/proc.c:932-967 | update_vals brings every entry up to date in place |
| `Ticks.Table.UpdateEntry` | kernel/proc.c:936-965 | one round of its loop brings one entry up to date and leaves the others alone |
| `Ticks.Table.Clockintr` | kernel/trap.c:192-200 | after every tick, run plus wait time of every process is the ticks since its creation |
| `Ticks.Table.Allocproc` | kernel/proc.c:166-235 | allocproc takes the first unused entry and starts its accounts at the current tick |
| `Ticks.Table.Freeproc` | kernel/proc.c:240-278 | freeproc empties the entry and keeps the accounts of all others |
| `Ticks.Table.SetState` | kernel/proc.c:740-845 | going to sleep, waking, being killed, yielding and being scheduled leave the accounts as they are |
| `Ticks.Table.Exit` | kernel/proc.c:494-498 | exit records the end time within the charged time |
| `Ticks.Table.WaitxTimes` | kernel/proc.c:1008-1012 | the times waitx reports are not negative and add up to end time minus creation time, however late it is called |
| `Ticks.PickLeast` | kernel/proc.c:622-632 | the scan of the priority scheduler ends at a runnable process of least priority |
| `Ticks.TieBreakExact` | kernel/proc.c:628-628 | the scheduler's comparison agrees with the documented order exactly when the two processes do not cross in runs and creation time |
| `Ticks.PickEarliest` | kernel/proc.c:622-632 | the scan picks a first process of the documented order exactly when some such process is followed in the table by none of its priority that was created before it |
| `Ticks.UncrossedEarliest` | kernel/proc.c:622-632 | in particular it does when no two runnable processes cross |
| `Ticks.TieBreakFails` | kernel/proc.c:628-628 | with crossing processes it can pick one that the documented order puts second; with the same two processes in the other order it picks right |
| `Ticks.Table.Choose` | kernel/proc.c:622-632 | the loop makes that choice, finds none exactly when nothing is runnable, and meets the documented order exactly when a first process is not overtaken |
| `Ticks.Table.Start` | kernel/proc.c:633-652 | starting the chosen process resets its counts if it is still runnable |
| `Ticks.Table.SetPriority` | kernel/proc.c:969-988 | priority_updater changes the static priority of exactly the processes with that pid and reports the old one of the last of them, -1 if there is none |
| `Pipe.PlaceAfterWrap` | kernel/pipe.c:95-95 | PIPESIZE divides 2^32, so wrapping counters keep ring places |
| `Pipe.TestsExact` | kernel/pipe.c:88-88 | the full and empty tests on 32-bit counters decide about the counts themselves |
| `Pipe.Pipe.Fifo` | kernel/pipe.c:76-130 | bytes taken followed by bytes buffered are the bytes written, in order |
| `Pipe.Pipe.Write` | kernel/pipe.c:76-103 | what one pipewrite section puts in, exactly when it sleeps at a full pipe, fails or returns, and over the inputs exactly when readers are left asleep beside bytes: the writer is killed before its last byte, before a fault and before it has to sleep, and it or an earlier writer has put in a byte |
| `Pipe.Pipe.PutBytes` | kernel/pipe.c:82-98 | the loop puts bytes in until it is done, fails, faults or finds the pipe full |
| `Pipe.Pipe.Read` | kernel/pipe.c:105-130 | what one piperead section takes out: never more than asked for, nothing past a failing copyout; exactly when it sleeps, fails or loses the one byte that copyout refused |
| `Pipe.Pipe.Close` | kernel/pipe.c:58-74 | pipeclose shuts one side and wakes the other; the second close frees the pipe, with nobody asleep in it |
| `Pipe.LostWakeup` | kernel/pipe.c:83-87 | a run that ends with a reader asleep beside a byte, because a writer was killed in the middle of its write |
| `Grep.OneItem` | user/grep.c:91-92 | a single character matches exactly by taking one accepted character and going on |
| `Grep.ParseReads` | user/grep.c:82-94 | every pattern text is one pattern, whose items and final $ written out again give that text |
| `Grep.ParseWritten` | user/grep.c:82-94 | and every pattern that can be written is read back as itself |
| `Grep.StarItem` | user/grep.c:96-104 | a starred character matches exactly by taking some accepted characters and going on |
| `Grep.MatchHere` | user/grep.c:82-94 | matchhere holds exactly when the text from here can be cut into one piece per item of the pattern, up to the end for a final $ |
| `Grep.MatchStar` | user/grep.c:96-104 | matchstar holds exactly when some number of accepted characters is followed by a match of the rest |
| `Grep.Match` | user/grep.c:70-80 | match holds exactly when the pattern matches somewhere, or with ^ at the start; it terminates on all patterns and texts |
| `Grep.PlainIsSubstring` | user/grep.c:70-104 | a pattern without special characters matches exactly the texts that contain it |
| `Grammar.ParseBack` | user/sh.c:344-446 | parsing the canonical tokens of any tree with at most nine words to a command gives back the tree |
| `Grammar.LineBack` | user/sh.c:344-358 | a line in canonical form is read up to what follows it |
| `Grammar.PipeBack` | user/sh.c:361-371 | so is a pipeline |
| `Grammar.ExecBack` | user/sh.c:399-446 | and a simple command or a block with its redirections |
| `Shell.Parser.Peek` | user/sh.c:310-320 | peek skips white space only and answers whether the next token begins with one of the symbols |
| `Shell.Parser.Gettoken` | user/sh.c:265-307 | gettoken takes exactly the next token: end, symbol, >> or the longest word with its place |
| `Shell.Parser.ParseRedirs` | user/sh.c:374-396 | parseredirs takes the redirections the grammar allows here, or panics exactly where a file is missing |
| `Shell.Parser.ParseArgs` | user/sh.c:429-445 | the loop of parseexec takes at most nine words and the redirections between them, and panics exactly otherwise |
| `Shell.Parser.ParseExec` | user/sh.c:415-446 | parseexec agrees with the grammar |
| `Shell.Parser.ParseBlock` | user/sh.c:399-412 | parseblock agrees with the grammar, with the panic for a missing parenthesis |
| `Shell.Parser.ParsePipe` | user/sh.c:361-371 | parsepipe agrees with the grammar |
| `Shell.Parser.ParseLine` | user/sh.c:344-358 | parseline agrees with the grammar; the mutual recursion terminates because the remaining tokens shrink |
| `Shell.Parser.NulTerminate` | user/sh.c:449-493 | nulterminate writes a NUL at the end of every recorded word and nowhere else |
| `Shell.ReadsBack` | user/sh.c:449-493 | no NUL lands inside a recorded word |
| `Shell.Parser.ParseCmd` | user/sh.c:327-342 | parsecmd gives the tree of the grammar, panics exactly where there is none, and leaves every recorded word readable in the buffer as exactly its token |
| `Shell.LexSpell` | user/sh.c:265-307 | tokens written with spaces between them are read back as those tokens |
| `Shell.Separators` | user/sh.c:262-307 | between two words the five blanks, newline and tab among them, separate, the seven symbols are tokens of their own, and any other character joins the words |
| `Shell.RoundTrip` | user/sh.c:265-446 | parsing the canonical text of any tree with at most nine words to a command gives back that tree |

## Left out

- copyinstr: copyin that stops at a NUL.
- BufferCache.Cache.Bget: `dev` is ROOTDEV, the one device the disk driver has.
- BufferCache.Cache.Bread: at the moment the block's lock is free; a process that finds it locked is between `Bget` and `Acquire`.
- BufferCache.Cache.Brelse: a changed buffer has been logged or written first; released otherwise its contents would differ from what the disk will hold, which is the caller's error.
- BufferCache.Cache.Bpin: as log_write calls it, on a locked buffer that is not pinned.
- BufferCache.Cache.Bunpin: as install_trans calls it, on a pinned buffer whose block has been written.
- Log.Log.Commit: other processes keep the buffers they have while it runs; how they move between its steps is in `CacheMachine` and `LogMachine`, not at the level of the code.
- Log.CopyThrough: at the moment the locks it needs are free; where another process has one, the code sleeps.
- Log.Log.CopyToLog: the same.
- Log.Log.CopyHome: the same.
- Log.Log.WriteLog: the same.
- Log.Log.InstallTrans: the same.
- Log.Log.CommitHead: the same.
- Log.Log.ClearHead: the same.
- Log.Log.CommitWritten: the same.
- Log.Log.EndOp: the same, for the last call.
- Log.Log.LogWrite: a call adds no more than MAXOPBLOCKS blocks to the log, its side of the reservation.
- UserCopy.Walkaddr: asks that the pages user code reaches are its own memory, which `Spaces.SpacesPrivate` shows of every state the process code can reach.
- UserCopy.Copyout: the same.
- UserCopy.Copyin: the same.
- Vm.Machine.Uvmunmap: asks that the pages it frees are the table's own, which the methods of `Spaces` show at each of their calls.
- Vm.Machine.Uvmdealloc: the same.
- Vm.Machine.Uvmcopy: the same of the pages it copies.
- Vm.Machine.Uvmfree: the same.
- The kernel's own page table, and the trapframe page's allocation: fixed mappings that no failure path touches.
- Inode cache and link counts (iget, iput, ialloc, create, link): directory removal can leave an unreferenced directory open for create, so the simple count law does not hold.
- Path lookup (namex): repeated dirlookup.
- The inode's on-disk layout: an inode is a record, and iupdate logs its block.
- The bitmap is one sequence of bytes rather than part of the blocks; the block that holds a bit is computed as the code does.
- FileSystem.FileSystem.Writei: the bytes that a failing copy leaves in a buffer that is not logged are in the file only until the cache recycles that buffer, which the image does not follow.
- FileSystem.FileSystem.FileWrite: files only, not devices or pipes.
- Directory.Unlink: which inodes are directories is a parameter, and link counts are not part of the image.
- Spaces.Spaces.Growproc: address spaces that exec has built, with a guard page below the stack, are not among the states.
- The MLFQ scheduler: exit and freeproc never take a process off its queue and kill adds it twice, so its queues keep no invariant worth stating.
- Liveness: that a process asleep is eventually woken, scheduled or served.
- Memory ordering and the spinlocks themselves: a section under a lock is one step.
- Wraparound of ticks and of pids.
- Sizes and addresses of user memory near 2^64: page numbers are unbounded there, and everything at or above MAXVA takes the code's own exits.
- Vm.Machine.Kfree: pages are known by number, so the panic for an unaligned address does not arise; freeing a page that is free already, which the code does not detect, is the caller's error.
- Vm.Machine.Mappages: the permissions must allow reading, writing or executing, as they do in every call in the kernel; without one the entry would read as a pointer to a table.
- Vm.Machine.Undo: stands for uvmdealloc and uvmunmap on the failure paths, with sizes that are whole pages.
- Umalloc.Allocator.Malloc: sbrk gives as many units as asked for, above all earlier ones and on a unit boundary; a request of 2^31 bytes or more, which does not fit sbrk's argument, is not modelled.
- ExitWait: a model on values; the table is a sequence that each step replaces, and pids do not wrap.
- exec, ELF loading, runcmd, grep's read loop, and all device code but virtio.
- Shell.Parser.ParseArgs: the redirections of a simple command are kept in a list until its node is complete; the code wraps the node first and fills it afterwards, with the same tree in the end.
