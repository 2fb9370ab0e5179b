# RVDOS, modelled and verified

RVDOS is a small multi-hart RISC-V kernel with a FAT32 file system and a user library.
This project models its hard core in Dafny and proves what that core is for:

- **FAT32 engine** (`Fat*.dfy`).  The disk is an array of 512-byte sectors.  The FAT, the
  chains it links, the bytes a chain denotes and the records of every directory are
  functions of the disk; `FatVolume` and `FatFiles` carry the operations as methods on
  sectors, `FatRun` speaks about whole runs, and `FatLayout` says byte by byte what all of them
  mean on the disk.
- **Process protocol** (`Scheduler*.dfy`).  Any number of harts as interleaved steps with a
  control point each: the scheduler, yield, sleep, wakeup, exit, spawn with its allocpid, wait
  and kill, the lock handed over through `swtch`, and the timer and UART handlers.
  `SchedulerInv`, `SchedulerWake` and `SchedulerCond` hold the safety results, `SchedulerExit`,
  `SchedulerMiss`, `SchedulerPaged`, `SchedulerWait` and `SchedulerProgress` say exactly when the protocol
  panics, misses an exit, loses a hart or gets stuck, and `SchedulerStuck` has a run to each of
  these.
- **Spinlocks and interrupts** (`SpinLock.dfy`), one step per memory operation, and
  **priorities** on one hart (`Priority.dfy`).
- **Memory**: the three-level page tables (`PageTable`, `PageRange`, `PageCost`, `PageTear`,
  `PageSpace`, `PageRegion`, `PageLife`, `PageGrow`, `PageBreak`), the bitmap of pages (`PageBitmap`),
  the slab allocator (`Slab`, `Kmalloc`) and the user-side malloc (`HeapList`,
  `HeapBlocks`, `HeapAlloc`).
- **Console ring** (`Console.dfy`) and **capabilities** (`Capability.dfy`, `CapabilityGrant.dfy`).

Code that updates things in place is a class or an array with methods; each method is
tied to a function or relation on values, and the theorems are about those.

The environment enters as parameters: what `sbrk` or `kalloc` return to a caller, the bytes
that arrive, whether a process stays runnable.  Disk operations succeed.  The page tables
use `kalloc` and `kfree` as what `PageBitmap` proves them to be: a set of free pages.

What the code does not meet, with the exact condition:

- A file name beginning with byte 0xE5 makes a record that looks deleted; one named `.` or `..`
  in the root is taken for a link.  Creating a file or directory under such a name loses its
  cluster, and renaming a file to it loses the file (`FatMatch.CreateNeedsName`,
  `FatMatch.MakeDirNeedsName`, `FatMatch.RenameNeedsName`).  Renaming a `.` or `..` record away
  gives a chain two owners, and unlinking one frees a chain that others own
  (`FatMatch.UnlinkNeedsName`).
- A `malloc` of 2^27 units or more wraps `sbrk`'s int argument, and the allocator then
  manages memory it was never given (`HeapAlloc.Heap.Malloc`).
- A `growproc` that gives up mapped pages, adds pages below USERBASE, or runs out of memory after
  adding one, strands pages on which teardown panics.  As long as no call asks for less than
  nothing that is for good (`PageBreak.HeapTeardownIff`); a negative argument can also wrap the
  size, which covers everything from USERBASE on, and then teardown frees the trapframe, which
  `wait` frees again (`PageBreak.TeardownIff`, `PageBreak.TrapframeFreed`).
- Harts can wait for each other in a circle, and then do so for ever.  Each such circle contains
  an `exit` waiting for a slot below its own or an `allocproc` waiting for the pool; without
  these two waits there is none (`SchedulerWait.CycleForever`, `SchedulerProgress.NobodyStuck`).
  A hart is stuck for good iff it leads into one or to a halted hart
  (`SchedulerProgress.StuckIff`).
- `wait` can miss its child's exit, because `exit` wakes without the lock that `wait` checks under
  (`SchedulerMiss.MissedIff`).
- A process that is killed before it leaves `sleep` calls `exit` with its condition lock held;
  `sched` panics and the lock is lost (`SchedulerExit.SchedPanicsIff`,
  `SchedulerExit.DoomForever`).
- A slot that a failed `allocproc` leaves has no page table; `kill` makes it runnable, and a hart
  that dispatches it is lost (`SchedulerPaged.BareIff`).
- A line of 128 bytes or more is committed before its end, which is then lost unless a reader has
  made room (`Console.TypeTooLong`).
- A cache of objects whose blocks exceed a page hands out a null block
  (`Kmalloc.KHeap.CacheAlloc`).

`walk` accepts an address equal to MAXVA although its purpose is to refuse what lies
beyond; the model follows the code.

## Model

| member | source | states |
|---|---|---|
| `FatRun.NothingLostOrShared` | kernelspace/fs/fs.c:310-356 | over every sequence of create, write growth, truncate, mkdir, unlink and move: a cluster is in use iff it is on the chain of the root or of a file or directory with a live record, never on two chains, no chain has two records, and every directory stays searchable |
| `FatRun.StepKeeps` | kernelspace/fs/fs.c:419-433 | each of the eleven operations keeps the whole-volume invariant (partition of the FAT into chains, one record per chain, well-formed directories) |
| `FatRun.ReachLonger` | kernelspace/fs/fs.c:717-761 | a write that lengthens a chain by any number of clusters is so many single extensions of the abstract volume |
| `FatTree.EveryClusterAccounted` | kernelspace/fs/fs.c:332-356 | the invariant means: FAT entry non-zero iff the cluster is owned through exactly one record |
| `FatTree.TreeCreate` | kernelspace/fs/fs.c:577-590 | O_CREATE in the first free slot keeps the invariant |
| `FatTree.TreeMakeDir` | kernelspace/fs/fs.c:916-959 | MakeDir keeps it, with the new cluster as a directory that owns nothing |
| `FatTree.TreeGrow` | kernelspace/fs/fs.c:491-498 | a full directory grown by a zeroed cluster keeps it |
| `FatTree.TreeAttach` | kernelspace/fs/fs.c:710-715 | a file without a chain gets its first cluster and keeps it |
| `FatTree.TreeUnlink` | kernelspace/fs/fs.c:1057-1065 | unlinking a record frees exactly its chain and keeps the invariant |
| `FatTree.TreeMove` | kernelspace/fs/fs.c:1149-1159 | copying the record to another directory and deleting it here keeps the invariant |
| `FatChain.ChainUnique` | kernelspace/fs/fs.c:310-319 | the FAT determines the chain of a cluster |
| `FatChain.ChainDistinct` | kernelspace/fs/fs.c:310-319 | a chain that ends in EOC has no cycle |
| `FatLayout.ChainEntries` | kernelspace/fs/fs.c:310-319 | what a chain is, entry by entry: clusters from 2 on, each leading to the next, and an entry of 0x0FFFFFF8 or more at the end |
| `FatPartition.UsedIffOwned` | kernelspace/fs/fs.c:332-356 | in a partitioned FAT an entry is non-zero iff some chain holds the cluster |
| `FatPartition.PartitionExtend` | kernelspace/fs/fs.c:750-760 | linking a free cluster behind the last one of a chain keeps every other chain |
| `FatPartition.AllocTakes` | kernelspace/fs/fs.c:332-356 | allocating uses up exactly one of the free clusters |
| `FatPartition.PartitionTruncate` | kernelspace/fs/fs.c:535-547 | O_TRUNC frees exactly the tail of one chain |
| `FatDisk.WithFatEntryExact` | kernelspace/fs/fs.c:321-330 | writing a FAT entry changes that entry only: no other entry of the sector, no data sector |
| `FatLayout.FatEntryAt` | kernelspace/fs/fs.c:310-319 | entry c is the four bytes at 4c of the FAT, low byte first, without the top four bits |
| `FatLayout.FatEntryWrite` | kernelspace/fs/fs.c:321-330 | setting it changes these four bytes of the disk to the value and no other byte |
| `FatLayout.TextAt` | kernelspace/fs/fs.c:306-308 | byte x of sector s of the i-th cluster of a chain is that byte of disk sector first data + (cluster - 2) * sectors per cluster + s |
| `FatLayout.RecordAt` | kernelspace/fs/fs.c:449-454 | record j of a directory is bytes 32j to 32j + 31 of its chain's string |
| `FatLayout.RecordFields` | kernelspace/fs/fs.c:240-253 | name, attributes, first cluster and size in bytes of the record; in use, live, directory and dot records by their bytes |
| `FatLayout.NewRecord` | kernelspace/fs/fs.c:577-590 | all 32 bytes of a new record |
| `FatLayout.RecordUpdate` | kernelspace/fs/fs.c:662-689 | all 32 bytes of a record whose cluster or size is rewritten |
| `FatVolume.Volume.GetNextCluster` | kernelspace/fs/fs.c:310-319 | reads the 28-bit entry the FAT function denotes |
| `FatVolume.Volume.SetNextCluster` | kernelspace/fs/fs.c:321-330 | changes exactly one entry of the FAT and no data |
| `FatVolume.Volume.AllocCluster` | kernelspace/fs/fs.c:332-356 | the lowest free cluster becomes a zeroed one-cluster chain; 0 iff the FAT is full; nothing else changes |
| `FatVolume.Volume.ClearClusterChain` | kernelspace/fs/fs.c:419-433 | terminates on every in-range FAT, cyclic ones included, and computes the cleared FAT |
| `FatClear.ClearChainFrees` | kernelspace/fs/fs.c:419-433 | on a well-formed chain exactly that chain is freed |
| `FatClear.ClearChainOnlyReached` | kernelspace/fs/fs.c:419-433 | on any FAT, an entry changes only to free and only if the links reach it |
| `FatClear.ClearChainAllReached` | kernelspace/fs/fs.c:419-433 | on any FAT, every cluster the links reach is freed |
| `FatVolume.Volume.ReadFile` | kernelspace/fs/fs.c:618-660 | the reader that divides: nothing at or behind the recorded size; otherwise byte i of the result is byte offset + i of the chain's string, and it is cut short only by the request, the size or the end of the chain |
| `FatVolume.Volume.ReadFileOffset` | kernelspace/fs/fs.c:860-900 | the same of the reader that subtracts, byte by byte |
| `FatVolume.Volume.WriteChain` | kernelspace/fs/fs.c:717-761 | the first n bytes replace the chain's bytes from the offset on, zero-filled where it grew, and no other chain changes; it stops short only when no cluster is free, exactly at the end of the chain, and at once if the offset cannot be reached |
| `FatWrite.WroteMore` | kernelspace/fs/fs.c:732-748 | patching one cluster extends the written stretch and leaves all other chains' bytes |
| `FatWrite.WroteExtend` | kernelspace/fs/fs.c:750-760 | lengthening the chain by a zeroed cluster keeps what was written |
| `FatMatch.WriteThenRead` | kernelspace/fs/fs.c:707-771 | reading back at the same place returns the bytes written, from either reader |
| `FatMatch.WriteKeepsRest` | kernelspace/fs/fs.c:707-771 | bytes outside the written range stay |
| `FatMatch.ReadAfterWrite` | kernelspace/fs/fs.c:691-771 | after a write, whatever is read holds at each position the byte written there, else the old byte, else, behind the old chain, zero |
| `FatMatch.StillRead` | kernelspace/fs/fs.c:763-767 | every byte that could be read before a write and was not overwritten is read after it, whatever the offset and length of the read |
| `FatMatch.UpdatedFields` | kernelspace/fs/fs.c:662-689 | the write-back changes the cluster iff one is given, the size unless told not to, and no other byte |
| `FatLayout.OverlaidBytes` | kernelspace/fs/fs.c:717-761 | what it means that s was written at o: position by position, with zeros where the string grew |
| `FatFiles.FileSystem.WriteFile` | kernelspace/fs/fs.c:691-771 | through a handle opened by bare name: -1 iff the file has no chain and no cluster is free; less than asked only when no cluster is left and the chain ends there; the size never shrinks and after n > 0 bytes is the greater of the old size and the end of the write; the record keeps name, attributes and all but the new size and first cluster; no other record of any directory and no chain but the file's and the directory's changes; a sequence of steps of the abstract volume |
| `FatFiles.FileSystem.ReadFile` | kernelspace/fs/fs.c:615-660 | the next bytes of the file, byte by byte, none at its end; the offset moves past them |
| `FatFiles.FileSystem.Lookup` | kernelspace/fs/fs.c:442-467 | find_dir_entry succeeds iff a live record has the name, and returns it |
| `FatMatch.LookupExact` | kernelspace/fs/fs.c:442-467 | the scan that stops at an end marker misses no live record |
| `FatFiles.FileSystem.FindFreeDirEntry` | kernelspace/fs/fs.c:469-499 | succeeds iff a slot is free or a cluster is; the first free slot; only a full directory grows, by one zeroed cluster; all else stays |
| `FatLayout.GrewRecords` | kernelspace/fs/fs.c:491-498 | a directory that grew has one cluster more and records of 32 zero bytes behind its own; nothing else differs |
| `FatFiles.FileSystem.CreateFile` | kernelspace/fs/fs.c:577-594 | succeeds iff enough clusters are free, one more if the directory is full; then exactly one record is added, with a fresh one-cluster chain, and every other record stays; the volume stays consistent iff the name is good |
| `FatLayout.CreatedRecord` | kernelspace/fs/fs.c:577-590 | the record of a created file: name, archive attribute, first cluster, size 0; every other record of every directory the same |
| `FatLayout.RoomNeeded` | kernelspace/fs/fs.c:469-499 | a record needs one cluster more iff no first byte of the directory is 0 or 0xE5 |
| `FatMatch.OtherFilesStay` | kernelspace/fs/fs.c:577-594 | after that every other file is still found by its name and reads the same |
| `FatMatch.OtherFilesSame` | kernelspace/fs/fs.c:707-771 | the same after a write |
| `FatLayout.KeptChains` | kernelspace/fs/fs.c:332-356 | a chain that a call does not name keeps its clusters and every byte |
| `FatFiles.FileSystem.TruncateFile` | kernelspace/fs/fs.c:535-553 | the chain is cut to its first cluster and the size set to 0; a file without a chain gets one, unless no cluster is free, which is exactly when 0 is returned; no other record changes |
| `FatLayout.TruncatedRecord` | kernelspace/fs/fs.c:535-553 | the record of a truncated file: size 0, the new first cluster if it got one, and no other byte changed |
| `FatFiles.FileSystem.MakeDir` | kernelspace/fs/fs.c:908-961 | succeeds iff the name is absent and enough clusters are free; then exactly one record is added, for a fresh directory c whose record 0 is `.` with first cluster c and whose record 1 is `..` with first cluster k, or 0 if k is the root, and nothing else; if the name exists nothing changes; consistent iff the name is good |
| `FatMatch.MadeDirHolds` | kernelspace/fs/fs.c:940-957 | the new directory and its record field by field: names, directory bit, first clusters, size 0, and no other record in use |
| `FatFiles.FileSystem.Unlink` | kernelspace/fs/fs.c:1019-1070 | succeeds iff the name exists and is no non-empty directory; the record is deleted and the FAT is what clear_cluster_chain makes of it, for an own chain exactly that chain freed; the volume stays consistent iff the record is not a `.` or `..` that points to clusters in use |
| `FatLayout.UnlinkedRecord` | kernelspace/fs/fs.c:1057-1065 | first byte 0xE5, all other bytes of all remaining records the same, and no directory gone but the one unlinked |
| `FatLayout.OccupiedBy` | kernelspace/fs/fs.c:1033-1056 | a directory cannot be removed iff some record is neither free nor deleted nor named `.` or `..` |
| `FatFiles.FileSystem.Rename` | kernelspace/fs/fs.c:1165-1178 | succeeds iff the old name exists and the new one does not; only the name of the record changes; the volume stays consistent iff the record owns a chain after it as before, for every old and new name, `.` and `..` included |
| `FatLayout.RenamedRecord` | kernelspace/fs/fs.c:1165-1178 | the eleven bytes of the name and no other byte of any record |
| `FatFiles.FileSystem.MoveInto` | kernelspace/fs/fs.c:1133-1163 | succeeds iff the name is here, not there, and a slot or a cluster is to be had there; the record moves unchanged and no other record changes; otherwise nothing happens |
| `FatLayout.MovedRecord` | kernelspace/fs/fs.c:1149-1159 | all 32 bytes arrive, the old slot keeps all but its first byte, every other record is the same |
| `FatMatch.MoveKeepsPayloads` | kernelspace/fs/fs.c:1149-1159 | a move holds every payload (cluster, size, attributes) as often as before |
| `FatMatch.RenameKeepsPayloads` | kernelspace/fs/fs.c:1165-1175 | a rename holds every payload in the same places, except that a new name beginning with 0xE5 loses exactly the record's own |
| `FatMatch.CreateNeedsName` | kernelspace/fs/fs.c:577-594 | creating keeps the volume consistent iff the name is good: it does not begin with 0xE5, which makes the record dead on arrival, and is not `.` or `..`, which the root lets through |
| `FatMatch.MakeDirNeedsName` | kernelspace/fs/fs.c:908-961 | the same for MakeDir |
| `FatMatch.RenameNeedsName` | kernelspace/fs/fs.c:1165-1175 | renaming any live record keeps it iff a record that owns a chain gets a good name, and a `.` or `..` record with a cluster or of a directory does not |
| `FatMatch.UnlinkNeedsName` | kernelspace/fs/fs.c:1057-1065 | for any live record, whatever cluster it points to: some chains and records make the volume consistent afterwards iff the record is not `.` or `..`, or points to no cluster in use |
| `FatName.LostName` | kernelspace/fs/fs.c:391-417 | the strings `\xE5A` and `.` are such names: creating them on a freshly formatted volume loses the cluster |
| `FatName.ToFatName` | kernelspace/fs/fs.c:391-417 | the loops compute the 8.3 name, `.` and `..` apart |
| `FatName.UsableNames` | kernelspace/fs/fs.c:391-417 | a string gives a usable name iff it is neither `.` nor `..` and does not begin with 0xE5 |
| `FatName.CaseIgnored` | kernelspace/fs/fs.c:391-417 | strings that differ in case only give the same name |
| `FatName.NameFields` | kernelspace/fs/fs.c:391-417 | the eleven bytes from the source string: up to 8 before the first period, up to 3 behind it, capitals for small letters, spaces for padding |
| `FatName.NamesApart` | kernelspace/fs/fs.c:391-417 | two strings with stems of up to 8 and extensions of up to 3 bytes that get one name agree, but for case, in stem and in extension |
| `SchedulerInv.OneHartPerProcess` | kernelspace/core/process.c:185-251 | in every state of every run no two harts have the same process, and whenever a process lock is free the process is RUNNING iff some hart has it |
| `SchedulerInv.NextKeeps` | kernelspace/core/process.c:185-385 | every step of every hart keeps the protocol invariant |
| `SchedulerExit.SchedPanicsIff` | kernelspace/core/process.c:283-298 | over every run sched is called with the own process locked, no other, and a state other than RUNNING; a second lock is held, on which it panics, iff the process was found killed on leaving sleep |
| `SchedulerExit.DoomIff` | kernelspace/core/process.c:328-338 | over every run: a hart is in exit with a condition lock held iff its process left sleep killed |
| `SchedulerExit.DoomForever` | kernelspace/core/process.c:336-338 | from then on that lock is never given back |
| `SchedulerExit.RunDead` | kernelspace/core/process.c:366-385 | over every run exit never returns: no hart resumes a process that has left through it, not even in a slot that kill made runnable again |
| `SchedulerPaged.BareIff` | kernelspace/core/process.c:719-745 | over every run: a slot is RUNNABLE or RUNNING without a page table iff kill hit it before, left SLEEPING by a failed allocproc |
| `SchedulerPaged.FaultNeedsKill` | kernelspace/core/process.c:219-232 | over every run a hart is lost on loading a null page table only for a slot that kill hit so |
| `SchedulerPaged.FaultForever` | kernelspace/core/process.c:219-232 | and stays lost, with the slot locked |
| `SchedulerInv.ResumedHoldsOwnLock` | kernelspace/core/process.c:699-703 | on both sides of swtch the process lock is held by the hart that will release it |
| `SchedulerWake.NoLostWakeup` | kernelspace/core/process.c:312-362 | in every state of every run a process asleep on the tick or console channel although its condition holds has a waker coming for it that still holds the condition lock; that the woken process tests again is `SchedulerCond.SleeperRetests` |
| `SchedulerWake.NextWake` | kernelspace/core/trap.c:62-68 | every step, the two interrupt handlers included, keeps that guarantee |
| `SchedulerCond.SleeperRetests` | kernelspace/core/trap.c:521-543 | over every run: a process that slept on a channel and is again anywhere but in that wait loop or in exit, as in its own code, has in between tested its condition and found it true: its tick had come or it was killed, or a byte was there |
| `SchedulerCond.SleepLasts` | kernelspace/core/trap.c:530-543 | over every run: sys_sleep is about to return only when its tick has come or it is killed |
| `SchedulerCond.ReadNeedsByte` | kernelspace/drivers/uart.c:128-154 | over every run: the console reader leaves its wait loop only from its test with a byte there, and sleeps only from its test with none |
| `SchedulerCond.WokenRechecks` | kernelspace/core/process.c:328-338 | over every run: from sleep a process goes back to its test, or to exit with the condition lock iff it is killed |
| `SchedulerCond.ConditionsGuarded` | kernelspace/core/trap.c:62-68 | over every run: the clock and the console's bytes change under their locks only, up by a handler, down by one by a reader |
| `SchedulerCond.HandlerRaises` | kernelspace/core/trap.c:62-68 | over every run: the timer advances the clock by one before it wakes, from the first slot on; the console handler wakes iff it committed bytes |
| `SchedulerCond.LifeCycle` | kernelspace/core/process.c:185-490 | over every run: a process changes its state only under its lock and along its life cycle: allocated, woken on its own channel or killed, dispatched where it left, descheduled by its own hart, reaped by the wait for that slot |
| `SchedulerCond.ComesBack` | kernelspace/core/process.c:231-232 | over every run: a process that left for the scheduler and is dispatched again, on whatever hart, comes back at the place it left from |
| `SchedulerCond.KillSweeps` | kernelspace/core/process.c:341-362 | over every run: the wakeup in kill passes every slot, and leaves none behind asleep on the pool channel but its own process's |
| `SchedulerMiss.MissedIff` | kernelspace/core/process.c:366-490 | over every run: a process comes to sleep in wait for a dead child that will not wake it iff the child's exit passes its slot between its check and its sleep |
| `SchedulerMiss.RunDeaths` | kernelspace/core/process.c:421-455 | over every run the child wait locks is dead and stays so, and a process in exit's wakeup loop is dead |
| `SchedulerMiss.SilentForever` | kernelspace/core/process.c:312-362 | over every run: when nothing runs and all sleepers wait for an exit, no interrupt ever makes anything run again |
| `SchedulerWait.CycleForever` | kernelspace/core/process.c:185-385 | over every run: harts that wait for each other in a circle do so for ever, and one of them is in exit waiting for a slot below its own, or in allocproc waiting for the pool with a slot locked |
| `SchedulerWait.CycleNeedsBackward` | kernelspace/core/process.c:79-126 | every other wait goes upwards: condition locks before process locks, those in slot order |
| `SchedulerProgress.StuckIff` | kernelspace/core/process.c:185-385 | over every run a hart can move or waits, through finitely many others, for one that can, iff it does not wait for a halted one or into a circle |
| `SchedulerProgress.StuckForever` | kernelspace/core/process.c:185-385 | over every run a hart that waits for a halted one or into a circle never moves again |
| `SchedulerProgress.StuckWhy` | kernelspace/core/process.c:185-385 | the circle is the end of its walk, and one of its harts waits in one of the two ways above |
| `SchedulerProgress.NobodyStuck` | kernelspace/core/process.c:185-385 | so with no hart halted and none of the two waits every hart's waiting leads to one that moves |
| `SchedulerStuck.ExitsCanCross` | kernelspace/core/process.c:366-385 | a run to such a circle: two exits, since exit keeps its own lock while wakeup takes all others |
| `SchedulerStuck.SearchCanCross` | kernelspace/core/process.c:194-212 | another: one exit and the scheduler's search, which keeps its candidate locked |
| `SchedulerStuck.SpawnCanCross` | kernelspace/core/process.c:79-126 | another, without exit: allocproc, which takes the pool's lock with a slot locked, and kill, which does the reverse |
| `SchedulerStuck.ExitCanBeMissed` | kernelspace/core/process.c:366-490 | a run in which wait sleeps for a child that is gone, and nothing runs any more |
| `SchedulerStuck.KillCanPanic` | kernelspace/core/process.c:719-757 | a run in which killing a sleeper makes sched panic with the tick lock held |
| `SchedulerStuck.KillCanFault` | kernelspace/core/process.c:719-757 | a run in which killing a slot left by a failed allocproc makes a hart load a null page table |
| `SpinLock.MutualExclusion` | kernelspace/lib/lock.c:16-40 | over every run, at the level of single memory operations, at most one hart is inside a lock |
| `SpinLock.PanicsRightly` | kernelspace/lib/lock.c:10-14 | accquire_lock panics iff the hart has the lock, release_lock iff it does not, pop_off never |
| `SpinLock.HoldingExact` | kernelspace/lib/lock.c:10-14 | holding is true for a hart iff that hart has the lock |
| `SpinLock.InterruptsRestored` | kernelspace/core/intr.c:7-26 | interrupts are off while nlock > 0, nlock counts the locks held plus the bare push_offs of myproc, and after the last pop_off they are as outside |
| `SpinLock.BaseKept` | kernelspace/core/intr.c:7-26 | what outside means cannot change while a lock is held, even under nested interrupts |
| `Priority.Search` | kernelspace/core/process.c:194-217 | the search loop finds the runnable process of greatest effective priority, then least pid, or none iff none is runnable |
| `Priority.BestUnique` | kernelspace/core/process.c:204-215 | with distinct pids that choice is unique |
| `Priority.Table.Round` | kernelspace/core/process.c:194-268 | one turn of the scheduler charges the chosen process and ages every runnable one |
| `Priority.RangeForever` | kernelspace/core/process.c:240-268 | over every run priorities stay within 1..100 |
| `Priority.WaitingGains` | kernelspace/core/process.c:253-268 | a process passed over gains one per five rounds up to 100, in closed form |
| `Priority.RunningLoses` | kernelspace/core/process.c:240-250 | a process chosen every round loses one per five rounds down to 3, in closed form |
| `Priority.OtherUpdates` | kernelspace/core/process.c:343-358 | a wakeup lifts a process by one up to 15; a run at whose end it blocks costs one in five, down to 1; a new process starts at 10 |
| `Priority.BoundedWait` | kernelspace/core/process.c:194-268 | with exactly two processes, always runnable, each is chosen within 247 rounds |
| `PageTable.SlotsDistinct` | include/arch/riscv.h:290-299 | distinct pages never share a PTE slot |
| `PageTable.AccessBits` | include/arch/riscv.h:46-50 | an entry grants access iff one of R, W and X is set |
| `PageTable.HangKeepsMap` | kernelspace/mm/pagetable.c:36-47 | creating a table on the way changes no translation |
| `PageTable.LeafWrite` | kernelspace/mm/pagetable.c:65 | writing a leaf slot changes the translation of exactly one page |
| `PageTable.OtherTreeSame` | kernelspace/mm/pagetable.c:32-72 | writes outside a tree's table pages leave its translation alone |
| `PageRange.PXIndices` | include/arch/riscv.h:297-299 | the shifts of PX select the three index fields of the page number |
| `PageSpace.Space.Walk` | kernelspace/mm/pagetable.c:32-49 | finds the slot without changing any translation, making exactly the missing tables; fails exactly beyond MAXVA or where a table is missing and may not be made or the free pages before the call do not suffice |
| `PageSpace.Space.MapPages` | kernelspace/mm/pagetable.c:52-72 | adds exactly the pages of its range, for exactly the missing tables; on failure exactly the prefix that the map and the free pages before the call allow, and why |
| `PageRange.TouchedPages` | kernelspace/mm/pagetable.c:52-72 | the pages mappages goes through are those that the bytes of the range touch |
| `PageCost.NextCost` | kernelspace/mm/pagetable.c:52-72 | what the next page of a range costs in the tree so far, told from the tree before the call |
| `PageCost.TabledMore` | kernelspace/mm/pagetable.c:32-49 | after each page exactly the tables on the way to the pages so far have been added and paid for |
| `PageSpace.Space.UvmUnmap` | kernelspace/mm/pagetable.c:141-163 | removes exactly its range and frees exactly the frames behind it, each once when they are distinct; panics iff unaligned or an entry is no leaf |
| `PageRange.UnmapsAll` | kernelspace/mm/pagetable.c:141-163 | below the end of the address space uvmunmap goes through all the pages it is told to |
| `PageSpace.Space.FreeWalk` | kernelspace/mm/pagetable.c:166-182 | panics iff a leaf is left; otherwise frees the table and all below it, each once |
| `PageLife.UvmCreate` | kernelspace/mm/pagetable.c:105-138 | a new space maps RAM, the five device regions and the trapframe, all of them unless memory ran out, and nothing else: every page with V, R and W and without U, RAM alone with X, each to its own frame, the trapframe's page to the context; no page in use is written |
| `PageRegion.KernelEntryIs` | kernelspace/mm/pagetable.c:111-123 | the seven regions and their entries as numbers |
| `PageRegion.KernelAccess` | kernelspace/mm/pagetable.c:111-138 | what every page of the kernel's map grants, whether or not memory ran out |
| `PageLife.UserPages` | include/arch/riscv.h:53-58 | which pages belong to the user at size sz: the stack page two below the trapframe's, and those from the end of RAM on that begin below sz |
| `PageLife.UpPageLeast` | include/arch/riscv.h:290 | PGROUNDUP: the pages below it are those that begin below sz, and none when rounding wraps |
| `PageLife.UnmapUser` | kernelspace/mm/pagetable.c:186-193 | the first steps of uvmfree: the user's pages go and every other page keeps its entry, the kernel's included |
| `PageLife.UvmFree` | kernelspace/mm/pagetable.c:186-209 | gets past both panics iff every mapped page is one it unmaps; then exactly the table pages and user frames return to the pool, each once, and only table pages were written |
| `PageLife.NoLeafIffEmpty` | kernelspace/mm/pagetable.c:166-182 | no table holds a leaf iff nothing is mapped |
| `PageGrow.CreatedOk` | kernelspace/mm/pagetable.c:125-138 | a fresh space, whose trapframe is in use and no table, is in order, and uvmfree can take it down at every size |
| `PageGrow.GrowProc` | kernelspace/core/process.c:759-788 | for every space, size and argument: succeeds iff, before the call, the bound holds, every page to add is vacant, and the free pages cover the pages plus their missing tables; then exactly these pages are added, zeroed, with the size moved in 64-bit arithmetic; otherwise exactly the pages that could be added stay; pages in use keep their contents, and a space in order stays so |
| `PageGrow.CalledPages` | kernelspace/core/process.c:759-788 | page by page: what was mapped keeps its entry, so the kernel's pages do; what is added lies between the old and the new size, below the stack page, with R, W and U and without X; after a success every page between the sizes is mapped |
| `PageBreak.AddsExact` | kernelspace/core/process.c:771-784 | a page is mapped after a call iff it was, or it is in the range and all pages up to it are vacant and can be paid for before the call |
| `PageBreak.MapIs` | kernelspace/core/process.c:759-788 | over every run of calls the map is what it was plus what the calls added so |
| `PageBreak.TeardownIff` | kernelspace/core/process.c:759-788 | over every run of calls, whatever their arguments and however the size wraps: uvmfree can take the space down iff the size now covers every heap page that was there or was added |
| `PageBreak.HeapTeardownIff` | kernelspace/core/process.c:759-788 | over every run in which no call asks for less than nothing: iff no call stranded a page |
| `PageBreak.WrappedTeardownIff` | kernelspace/core/process.c:785 | over every run, at a size wrapped below nothing: iff no heap page below USERBASE was ever there, and none at all in the last page of the address space |
| `PageBreak.CoverStep` | kernelspace/core/process.c:759-788 | one call at every size: it can afterwards iff the call strands no page and no page astray before stays so |
| `PageBreak.StrandsWhen` | kernelspace/core/process.c:759-788 | a call strands a page iff, as told from the state before it, the new size gives up a mapped one, it adds one below USERBASE, or it adds one and fails |
| `PageBreak.AstrayWhen` | kernelspace/core/process.c:759-788 | from USERBASE on the last two come down to: the first page can be added and not all can |
| `PageBreak.ShrinkStrands` | kernelspace/core/process.c:785 | a space, a size and three calls: giving up a page strands it, and wrapping the size covers it again |
| `PageBreak.HalfGrown` | kernelspace/core/process.c:771-784 | a space with one free page in which growing by two pages strands the first |
| `PageBreak.FreeReady` | kernelspace/mm/pagetable.c:186-209 | a space in order meets what UvmFree asks for at every size below 2^64, its leaves if all are covered or grant some access |
| `PageBreak.LeafyForever` | kernelspace/core/process.c:759-788 | over every run all leaves go on granting some access |
| `PageBreak.TrapframeFreed` | kernelspace/mm/pagetable.c:188-190 | uvmfree returns the trapframe to the pool iff the size reaches beyond its page |
| `PageBitmap.BitLaws` | kernelspace/mm/kalloc.c:56-80 | setting or clearing a bit leaves the other bits alone |
| `PageBitmap.BitPowers` | kernelspace/mm/kalloc.c:69-81 | the masks are the powers of two from bit 0 up |
| `PageBitmap.Kmem.Kinit` | kernelspace/mm/kalloc.c:37-54 | all pages are free but the bitmap's own |
| `PageBitmap.Kmem.Kfree` | kernelspace/mm/kalloc.c:56-70 | adds exactly the page to the free set; addresses outside the pool are ignored |
| `PageBitmap.Kmem.Kalloc` | kernelspace/mm/kalloc.c:72-92 | takes the lowest free page; fails iff none is free |
| `PageBitmap.PoolConserved` | kernelspace/mm/kalloc.c:56-92 | over every run in which only pages handed out are given back, pages are conserved and the bitmap's page is never handed out |
| `Slab.FreeHasNoMagic` | kernelspace/mm/kmalloc.c:80-90 | a block carries the magic iff it is live, since the link stored over a free block is below 2^32 |
| `Slab.CarveKeeps` | kernelspace/mm/kmalloc.c:59-64 | each carved block is in its page, 16-aligned and disjoint from all others |
| `Slab.AllocKeeps` | kernelspace/mm/kmalloc.c:67-75 | taking the head of the free list keeps the cache invariant |
| `Slab.ObjectsApart` | kernelspace/mm/kmalloc.c:35-76 | an object lies in a page of its cache and touches neither the object nor the 8-byte header of any other block |
| `Slab.HeaderWord` | kernelspace/mm/kmalloc.c:72-73 | a live block's header holds the size and 0xdeadbeef |
| `Slab.FreeKeeps` | kernelspace/mm/kmalloc.c:90-95 | returning a live block keeps it |
| `Slab.UpdateOne` | kernelspace/mm/kmalloc.c:35-97 | a step of one cache leaves every other cache in order |
| `Kmalloc.KHeap.CacheAlloc` | kernelspace/mm/kmalloc.c:35-76 | a block that was not live becomes live; out of memory, and the null block of an object larger than a page, exactly when stated |
| `Kmalloc.KHeap.CacheFree` | kernelspace/mm/kmalloc.c:78-97 | panics iff the block is still on the free list; otherwise it joins it |
| `Kmalloc.BucketIdx` | kernelspace/mm/kmalloc.c:100-105 | the smallest bucket that holds the size, -1 iff none does |
| `Kmalloc.BucketPowers` | kernelspace/mm/kmalloc.c:12 | the bucket sizes are the powers of two from 8 to 2048 |
| `Kmalloc.KHeap.Kmalloc` | kernelspace/mm/kmalloc.c:107-116 | an object of the smallest bucket that holds the size, never page aligned; it fails iff that bucket is empty and one of the two pages is refused, and then changes nothing; one page above the largest bucket |
| `Kmalloc.KHeap.Kmfree` | kernelspace/mm/kmalloc.c:118-133 | a page goes to the page pool, a live object to the bucket it came from, a freed one is ignored |
| `Kmalloc.SameBucket` | kernelspace/mm/kmalloc.c:100-105 | a bucket's own size leads back to it |
| `Kmalloc.FitsIsQuotient` | kernelspace/mm/kmalloc.c:59-64 | a fresh page holds as many blocks as fit |
| `HeapList.InsertJoined` | userspace/include/stdlib.c:49-51 | a block adjacent to its upper neighbour swallows it and the cycle stays ordered |
| `HeapList.JoinPrevious` | userspace/include/stdlib.c:54-56 | a block adjacent to its lower neighbour joins it and the cycle stays ordered |
| `HeapBlocks.FreeDone` | userspace/include/stdlib.c:49-60 | both steps together: one ordered cycle without adjacent blocks, the partition of the units kept, and sums conserved |
| `HeapBlocks.LivePlace` | userspace/include/stdlib.c:46-48 | every live block has a place between two free ones |
| `HeapBlocks.AllocKeepsParted` | userspace/include/stdlib.c:84-95 | handing out free units keeps free and live blocks a partition |
| `HeapAlloc.ListShape` | userspace/include/stdlib.c:43-60 | in every state in order the links lead once around in address order, with a gap behind every free block, so no two are left unmerged |
| `HeapAlloc.LiveApart` | userspace/include/stdlib.c:84-95 | live blocks do not overlap and lie within the managed units |
| `HeapAlloc.FreeApart` | userspace/include/stdlib.c:84-95 | nor does a live block overlap a free one |
| `HeapAlloc.StopsAt` | userspace/include/stdlib.c:46-48 | the search of free stops exactly at that place, wrap-around included |
| `HeapAlloc.Heap.FindPlace` | userspace/include/stdlib.c:46-48 | the search stops within one turn of the cycle |
| `HeapAlloc.Heap.Free` | userspace/include/stdlib.c:43-60 | the block leaves the live ones; the list stays one address-ordered cycle through base, disjoint, never adjacent; free plus live equals obtained |
| `HeapAlloc.Heap.Morecore` | userspace/include/stdlib.c:62-74 | at least 4096 new units enter through free, after which some block is large enough |
| `HeapAlloc.Heap.Malloc` | userspace/include/stdlib.c:76-100 | a new live block with room for the request; sbrk asked at most once and only if nothing fits; fails only if sbrk does; the allocator manages exactly what sbrk provided iff no request of 2^27 units or more reached it |
| `HeapAlloc.UnitsLeast` | userspace/include/stdlib.c:79 | a request gets the fewest 16-byte units that hold it behind a header unit |
| `HeapAlloc.CoreLeast` | userspace/include/stdlib.c:65-66 | morecore asks for the least number that covers the request and 4096 |
| `HeapAlloc.BlockUnits` | userspace/include/stdlib.c:70-72 | the units of a block are n consecutive ones |
| `HeapAlloc.Heap.Search` | userspace/include/stdlib.c:84-99 | each block is looked at once, and once more only if sbrk was asked: a fit is found within one further turn |
| `HeapAlloc.ScanFacts` | userspace/include/stdlib.c:84-99 | a whole turn without a fit means there is none, so a second turn succeeds even when new space merged into freep |
| `HeapAlloc.GrantedIff` | userspace/include/syscall.c:122-124 | sbrk's int argument covers the request iff it is below 2^27 units |
| `Console.RunSound` | kernelspace/drivers/uart.c:128-191 | over every interleaving of received bytes and reads: at most 128 bytes, editing never takes back committed bytes, readers have consumed a prefix of what was committed, in order |
| `Console.TypeThenRead` | kernelspace/drivers/uart.c:128-191 | a line of up to 127 ordinary bytes that is typed, ended by Return or newline, and read comes back as typed with a newline, and nothing is left |
| `Console.TypeTooLong` | kernelspace/drivers/uart.c:180-187 | of a longer line 128 bytes are committed and the rest is lost, its end included, until a reader makes room |
| `Console.ByteClasses` | kernelspace/drivers/uart.c:163-190 | every byte by its class: erased, dropped, added to the line, or committing the whole line; Return counts as newline |
| `Console.ReceivedSound` | kernelspace/drivers/uart.c:159-191 | a received byte keeps that and only appends to what is committed |
| `Console.TookSound` | kernelspace/drivers/uart.c:136-140 | a reader's step keeps it and leaves the line alone |
| `Console.BackspaceUndoes` | kernelspace/drivers/uart.c:169-178 | backspace undoes an ordinary byte iff that byte did not fill the ring |
| `Console.Ring.Receive` | kernelspace/drivers/uart.c:159-191 | on wrapping 32-bit counters, exactly the abstract step; readers are woken iff bytes were committed |
| `Console.Ring.TakeByte` | kernelspace/drivers/uart.c:136-140 | exactly the abstract step, Ctrl-D pushed back intact after other bytes |
| `Console.Ring.Read` | kernelspace/drivers/uart.c:128-154 | delivers the next committed bytes in order up to n bytes, a newline or a Ctrl-D |
| `Capability.NoPowerBelowShell` | kernelspace/core/trap.c:641-663 | over every run no descendant of a SHELL_NORMAL shell executes panic, poweroff or reboot |
| `Capability.AncestorsEntitled` | kernelspace/core/trap.c:641-663 | whatever a process executes, all its ancestors were entitled to; only writes to handles 1 and 2 need no capability |
| `Capability.Entitled` | kernelspace/core/trap.c:554-671 | which calls run, by number and bit, both ways: an entitled call runs, any other is refused or unknown |
| `Capability.DescendantWithin` | include/abi/capability.h:39-47 | a descendant's capabilities are within its ancestor's |
| `Capability.CapsFixed` | kernelspace/core/process.c:519 | capabilities never change after creation |
| `Capability.ChildWithin` | kernelspace/core/trap.c:192-201 | a child gets nothing its parent lacks and never the control bit; refused iff custom without CAP_PROC_SANDBOX |
| `CapabilityGrant.ChildGreatest` | kernelspace/core/trap.c:192-201 | and everything it may: exactly the masks within its parent's and within the one asked for without the control bit, or the default |
| `Capability.ChildGets` | kernelspace/core/trap.c:204-236 | spawn without the control bit gives the default, spawn with it and sandbox the mask asked for, which takes CAP_PROC_SANDBOX; within the parent's each time |
| `Capability.Profiles` | include/abi/capability.h:49-70 | the profiles as numbers and how they relate; the maintenance shell has every capability |

## Left out

- Path resolution: operations are stated for a directory given by its first cluster, because `mv` does not update the `..` record of a moved directory and does not check for a move under itself.
- The handle table, `file_dup`, reference counts and `fs_ls`: easy members.
- Long file names: `FatFiles.FileSystem.UpdateDirEntryInfo` assumes that no long-name record carries the eleven bytes of the file's name, because the write-back compares raw bytes.
- The second FAT copy, free-space information and disk errors: the code does not maintain or recover them.
- FAT geometry: every FAT entry is assumed to have its cluster on the disk, because `alloc_cluster` scans the FAT sectors without a cluster count.
- Writes whose offset plus length reaches 2^32 - 1, and the size write-back of a handle used from another directory than it was opened in.
- SchedulerWake.NoLostWakeup: stated for the tick and console channels; on the channel of `wait` it is false, and `SchedulerMiss.MissedIff` says when.
- Parents, pids and the shell's non-blocking wait: a `wait` or `kill` is about any one slot, and may give up at any time.
- SchedulerInv.OneHartPerProcess: priorities are abstracted to any choice among the runnable processes the search has locked; the choice itself is `Priority.Search`, on one hart.
- Fairness of spinlocks and of the harts' speeds: `SchedulerProgress` shows that some hart can move, not that each one does.
- SpinLock.MutualExclusion: `lock_count` is assumed to start outside the hart ids, because `init_lock` does not set it; weak memory ordering is not modelled.
- `sched` saving `intena` across `swtch`: the process protocol does not track it.
- PageSpace.Space.FreeWalk: assumes every leaf that is left has R, W or X; one with U alone would be followed as a pointer.  `PageLife.UvmFree` asks this only of pages it does not unmap itself.
- FatFiles.FileSystem.Unlink: a `.` or `..` record that is unlinked must not be stale: its cluster is within the FAT, and a directory if it is marked as one.  A move leaves `..` stale, and the code then scans whatever the cluster holds now; `FatMatch.UnlinkNeedsName` covers the outcome for every cluster within the FAT.
- ELF loading, argument copying and the `bad` path of `spawn`; `satp`, `sstatus` and TLB effects.
- PageBitmap.PoolConserved: assumes that only pages handed out are given back; `kfree` of the bitmap's own address would mark it free.
- `kmem_cache_create` and `kmem_cache_destroy`, and the records of slab pages beyond their list: easy members; object sizes near 2^32, where the aligned size wraps.
- Kmalloc.KHeap.Kmalloc: sizes above a page still get one page, as in the code.
- HeapAlloc.Heap.Malloc: sbrk is assumed to return addresses beyond all earlier ones and below 2^32 units; user writes outside a live block are excluded.
- Console echo, and console readers on several harts at once beyond any interleaving of their single steps.
- VirtIO, PLIC, SBI, UART registers, boot code, trap vectors, formatting, string helpers and the user programs.
