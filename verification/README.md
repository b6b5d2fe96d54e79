# Proofs about the xv6 kernel

This project models the parts of the xv6 RISC-V kernel and its user library whose
correctness rests on invariants over many steps, and proves those invariants in Dafny.

| file | what it models |
|---|---|
| RedoLog.dfy | the on-disk redo log: commit and recovery as methods over a disk that records every state it passes through; crash atomicity |
| TxSystem.dfy | buffer cache and log with any number of processes, crashes and recoveries, as a state machine that refines a disk with atomic group commit |
| TxAdmission.dfy | the space accounting of begin_op, end_op and log_write |
| FileSystem.dfy, FileOps.dfy, ChunkCost.dfy, ChunkCrash.dfy | free map, direct and indirect blocks, file contents as byte sequences, the size of a write transaction, and what a crash in the middle of filewrite leaves |
| BufferCache.dfy, CacheSteps.dfy | the doubly linked list of the buffer cache and its replacement order, and that its operations are steps of the machine in TxSystem.dfy |
| SleepWakeup.dfy | sleep, wakeup, yield and the scheduler, CPU by CPU at lock granularity |
| ExitWait.dfy, WaitOutcome.dfy | fork, exit, reparent, wait and kill at lock granularity, and what wait and its callers may count on |
| PageTable.dfy, TableTree.dfy, TableCount.dfy, UserMemory.dfy, UserCopy.dfy | Sv39 page tables, ownership of physical pages, how many pages a mapping takes, user address spaces, and copying to and from them |
| ProcMemory.dfy | the memory of a process from allocproc through growproc and fork to freeproc |
| Virtio.dfy, VirtioQueue.dfy | the virtio block driver against a device that completes requests in any order |
| Umalloc.dfy | the K&R allocator of the user library |
| Pipe.dfy | pipes with wrapping counters and sleepers |
| Net.dfy | Internet checksum, UDP/IP/Ethernet encoder and decoder |
| Grep.dfy | the backtracking matcher of grep |
| Common.dfy, Modular.dfy, Bytes.dfy, ProcTable.dfy | lock holders and lists without repeats, remainders, copying into a page or block, and the types of the process table |

Code that runs under one lock or alone is modelled as classes whose methods have the
source's loops and assignments, and each method is proved against a specification.
Protocols between CPUs, processes or a device are state machines: a state datatype, one
predicate per step, an invariant that every step keeps, and theorems about every state of
every run. Who owns a page, a descriptor, a disk block or a heap unit is recorded in ghost
fields or history fields that the invariants tie to the real data.

`dafny verify dfyconfig.toml` checks the project. The formats follow section 4.4 (Sv39) of
the RISC-V Privileged Architecture, sections 2.6 and 5.2 of VIRTIO 1.1, section 3.1 of
RFC 791, section 1 of RFC 1071 and the Fields section of RFC 768.

Where the code does not do what one would first expect, the proofs say exactly when it
does:

- log_write of a block that is new to the header, by an operation within its budget, can
  panic if and only if the log is not larger than LOGSIZE (`TxAdmission.LogWriteSafeIff`;
  mkfs makes it exactly LOGSIZE).
- log_write tests for a full log before it looks for the block in the header. So even with a
  larger log, and every operation within its budget, logging a block once more panics; this
  happens exactly when the header holds LOGSIZE blocks, and then all budgets are spent
  (`TxAdmission.LogWritePanicsExactly`, and a run in `TxAdmission.AbsorbedWritePanics`).
- A killed pipe writer leaves a reader asleep if and only if it had stored bytes that it had
  not announced and a reader sleeps (`Pipe.KilledExactly`, for whole runs
  `Pipe.SleepersRightIff`).
- The second failure path of proc_pagetable cannot be taken (`ProcMemory.ProcPagetable`).

## Model

| member | source | states |
|---|---|---|
| `RedoLog.FirstIndex` | xv6-labs-2020/kernel/log.c:225-228 | the search loop of log_write finds the first position of the block in the header, and runs off the end exactly when the block is not in it |
| `RedoLog.HeadBlockDecodes` | xv6-labs-2020/kernel/log.c:87-114 | a header written by write_head over any old header block is the count followed by the block numbers, and is read back by read_head as the same list |
| `RedoLog.LogWrittenAt` | xv6-labs-2020/kernel/log.c:179-191 | after k turns of write_log exactly the first k log blocks hold the copies and every other block is as before |
| `RedoLog.InstalledAt` | xv6-labs-2020/kernel/log.c:69-83 | after k turns of install_trans exactly the first k home blocks hold their log copies |
| `RedoLog.LogWritesInvisible` | xv6-labs-2020/kernel/log.c:179-191 | a crash anywhere in write_log leaves the contents that recovery would produce unchanged |
| `RedoLog.HeadWriteCommits` | xv6-labs-2020/kernel/log.c:103-114 | the single write of the header switches the recovered contents from all old to all new blocks of the transaction |
| `RedoLog.InstallInvisible` | xv6-labs-2020/kernel/log.c:69-83 | installing any number of the logged blocks does not change the recovered contents |
| `RedoLog.ClearInvisible` | xv6-labs-2020/kernel/log.c:198-202 | erasing the header once every block is home does not change the recovered contents |
| `RedoLog.CleanupCrashSafe` | xv6-labs-2020/kernel/log.c:117-123 | recovery, or the second half of commit, may stop after any write: the log stays sound and the contents the same |
| `RedoLog.CommitCrashAtomic` | xv6-labs-2020/kernel/log.c:194-203 | stopping commit after any of its 2n+2 block writes leaves the contents wholly old before write n and wholly new from it on |
| `RedoLog.RepeatedCrashes` | xv6-labs-2020/kernel/log.c:69-123 | after any sequence of reboots whose recoveries stop anywhere, one complete recovery puts exactly the committed contents into the home blocks and empties the log |
| `RedoLog.RecoverIdempotent` | xv6-labs-2020/kernel/log.c:117-123 | recovering a recovered disk changes nothing |
| `RedoLog.LogDevice.constructor` | xv6-labs-2020/kernel/log.c:55-65 | power on: memory is empty, the disk is as it was left |
| `RedoLog.LogDevice.Bread` | xv6-labs-2020/kernel/bio.c:93-103 | returns the cached block, or the disk block, and caches it |
| `RedoLog.LogDevice.Bwrite` | xv6-labs-2020/kernel/bio.c:107-112 | the block reaches the disk as one step of the recorded history |
| `RedoLog.LogDevice.WriteHead` | xv6-labs-2020/kernel/log.c:103-114 | the header block becomes the count and the block numbers in order, and keeps its other words |
| `RedoLog.LogDevice.ReadHead` | xv6-labs-2020/kernel/log.c:87-97 | the in-memory header becomes the list the disk header encodes |
| `RedoLog.LogDevice.CopyToLog` | xv6-labs-2020/kernel/log.c:183-190 | one turn of write_log: one log block gets the latest cached contents, no home block changes in memory or on disk |
| `RedoLog.LogDevice.WriteLog` | xv6-labs-2020/kernel/log.c:179-191 | the disk passes through exactly the states of the trace whose crash safety is proved |
| `RedoLog.LogDevice.CopyHome` | xv6-labs-2020/kernel/log.c:73-82 | one turn of install_trans copies one log block home |
| `RedoLog.LogDevice.InstallTrans` | xv6-labs-2020/kernel/log.c:69-83 | the disk passes through exactly the states of the install trace |
| `RedoLog.LogDevice.InstallAndErase` | xv6-labs-2020/kernel/log.c:199-201 | install, then erase the header; nothing stays dirty |
| `RedoLog.LogDevice.WriteLogAndHead` | xv6-labs-2020/kernel/log.c:197-198 | the disk passes through the log writes and ends at the commit point |
| `RedoLog.LogDevice.Commit` | xv6-labs-2020/kernel/log.c:194-203 | the disk history of commit is exactly the trace of the crash theorem, and the contents change by exactly the logged blocks |
| `RedoLog.LogDevice.RecoverFromLog` | xv6-labs-2020/kernel/log.c:117-123 | recovery writes exactly the recovery trace and leaves the committed contents in the home blocks |
| `TxSystem.BgetRefines` | xv6-labs-2020/kernel/bio.c:59-89 | a step of bget is invisible to the transactional disk and keeps the invariant |
| `TxSystem.FillRefines` | xv6-labs-2020/kernel/bio.c:93-103 | a disk read into a buffer yields what operations currently see of the block |
| `TxSystem.BrelseRefines` | xv6-labs-2020/kernel/bio.c:117-137 | releasing a buffer whose changes are logged changes nothing operations see |
| `TxSystem.EvictRefines` | xv6-labs-2020/kernel/bio.c:76-87 | only clean, unpinned buffers can be recycled, so nothing operations see is lost |
| `TxSystem.BeginOpRefines` | xv6-labs-2020/kernel/log.c:127-142 | begin_op adds exactly one active operation |
| `TxSystem.EndOpRefines` | xv6-labs-2020/kernel/log.c:147-175 | end_op removes it; the last one starts the commit |
| `TxSystem.ModifyRefines` | xv6-labs-2020/kernel/log.c:205-213 | a client write is seen by all operations at once and by no crash |
| `TxSystem.LogWriteRefines` | xv6-labs-2020/kernel/log.c:215-235 | where it does not panic, log_write pins the buffer or absorbs the write, and changes nothing operations see |
| `TxSystem.CopyToLogRefines` | xv6-labs-2020/kernel/log.c:179-191 | write_log copies the latest contents of every pinned buffer |
| `TxSystem.WriteHeadRefines` | xv6-labs-2020/kernel/log.c:103-114 | writing the header makes the current contents durable, all at once, with no operation active |
| `TxSystem.CopyHomeRefines` | xv6-labs-2020/kernel/log.c:69-83 | installing and unpinning changes neither the current nor the durable contents |
| `TxSystem.EraseHeadRefines` | xv6-labs-2020/kernel/log.c:199-202 | erasing the header changes neither the current nor the durable contents |
| `TxSystem.CommitDoneRefines` | xv6-labs-2020/kernel/log.c:163-174 | the end of the commit is invisible |
| `TxSystem.CrashRefines` | xv6-labs-2020/kernel/log.c:87-97 | a crash in any state leaves exactly the durable contents |
| `TxSystem.RecoverHomeRefines` | xv6-labs-2020/kernel/log.c:69-83 | each write of recovery is invisible |
| `TxSystem.RecoverEraseRefines` | xv6-labs-2020/kernel/log.c:117-123 | the end of recovery is invisible |
| `TxSystem.StepRefines` | xv6-labs-2020/kernel/log.c:126-235 | every step of cache, log, crash and recovery refines a disk with atomic group commit |
| `TxSystem.RunInv` | xv6-labs-2020/kernel/bio.c:58-151 | the invariant holds in every state of every run, through any number of crashes |
| `TxSystem.RunRefines` | xv6-labs-2020/kernel/log.c:126-235 | every run refines the atomic transaction disk, step by step |
| `TxSystem.OperationNotSplit` | xv6-labs-2020/kernel/log.c:126-175 | durable contents do not change while an operation is active: no begin_op/end_op pair is split over two commits |
| `TxSystem.OperationsKeep` | xv6-labs-2020/kernel/log.c:55-203 | whatever the operations of a process keep, each as a whole, holds of the durable contents in every state of every run, through any crashes in operations, commits and recoveries |
| `TxSystem.HomeChangesInRun` | xv6-labs-2020/kernel/log.c:69-123 | in every step of every run a block outside the log changes on disk only while commit installs a transaction whose header is on disk, or in recovery, and becomes what was durable already |
| `TxAdmission.RunAdmitted` | xv6-labs-2020/kernel/log.c:127-142 | in every reachable state logged blocks plus unspent budgets of all active operations fit in LOGSIZE |
| `TxAdmission.EndOpAndBeginOpSafe` | xv6-labs-2020/kernel/log.c:127-175 | end_op never panics, and an idle log is empty and admits an operation |
| `TxAdmission.BeginOpExactly` | xv6-labs-2020/kernel/log.c:127-142 | in every reachable state begin_op goes on exactly when no commit is under way and a full budget for every active operation and this one fits in LOGSIZE |
| `TxAdmission.LogWriteSafe` | xv6-labs-2020/kernel/log.c:215-235 | log_write by an operation with budget left does not panic when the log has more blocks than LOGSIZE |
| `TxAdmission.LogWriteSafeIff` | xv6-labs-2020/kernel/log.c:215-235 | this holds in every reachable state if and only if the log has more blocks than LOGSIZE; otherwise a run is built in which an operation with budget left panics |
| `TxAdmission.LogWritePanicsExactly` | xv6-labs-2020/kernel/log.c:215-235 | in every reachable state log_write within budget panics exactly when the header is full; with more log blocks than LOGSIZE that means LOGSIZE blocks, all budgets spent, and a block that is in the header already |
| `TxAdmission.AbsorbedWritePanics` | xv6-labs-2020/kernel/log.c:219-228 | for every log larger than LOGSIZE, a reachable state in which no operation is over budget and logging any block of the header once more panics |
| `SleepWakeup.SchedulerSafe` | xv6-labs-2020/kernel/proc.c:464-526 | scheduler and sched steps lose no wakeup |
| `SleepWakeup.SleepSafe` | xv6-labs-2020/kernel/proc.c:563-592 | the steps of sleep lose no wakeup, in particular the release of lk before the process is asleep |
| `SleepWakeup.TableSafe` | xv6-labs-2020/kernel/proc.c:530-537 | yield, and changes made under p->lock by kill, fork and wait, lose no wakeup |
| `SleepWakeup.WakeSafe` | xv6-labs-2020/kernel/proc.c:597-608 | the scan of wakeup loses no wakeup |
| `SleepWakeup.StepInv` | xv6-labs-2020/kernel/proc.c:464-608 | every step of every CPU keeps lock ownership, current processes and the wakeup invariant |
| `SleepWakeup.RunInv` | xv6-labs-2020/kernel/proc.c:464-608 | the invariant holds in every state of every run |
| `SleepWakeup.SchedulingSafe` | xv6-labs-2020/kernel/proc.c:464-608 | in every reachable state, for locks that guard any number of channels and a wakeup that may come any time before the release: a process waiting for a true condition has a waker that holds the lock and has not passed it, no process is current on two CPUs, and the checks of sched succeed: p->lock is held, no other lock is, and the process is not RUNNING |
| `SleepWakeup.StepChange` | xv6-labs-2020/kernel/proc.c:464-644 | a step changes the state or the channel of a process only as dispatch, sleep, the return of sleep, yield, exit, kill, fork, wait, or a visit of wakeup may: that visit only a process asleep on this very channel |
| `SleepWakeup.RunChanges` | xv6-labs-2020/kernel/proc.c:464-644 | this holds in every step of every run |
| `SleepWakeup.SleepsOn` | xv6-labs-2020/kernel/proc.c:563-608 | over runs, a process asleep stays asleep on its channel until a wakeup on that channel visits it or kill has it |
| `SleepWakeup.WakeupWakesAll` | xv6-labs-2020/kernel/proc.c:597-608 | when wakeup returns, no process sleeps on its channel or is about to |
| `SleepWakeup.ChannelsExact` | xv6-labs-2020/kernel/proc.c:576-587 | in every reachable state a process asleep has a channel, and a process that runs outside sleep has none |
| `ExitWait.StepInv` | xv6-labs-2020/kernel/proc.c:266-454 | every step of fork, exit, reparent, wait, kill and wakeup1 keeps the family invariant |
| `ExitWait.RunInv` | xv6-labs-2020/kernel/proc.c:266-454 | it holds in every state of every run |
| `ExitWait.FamilySafe` | xv6-labs-2020/kernel/proc.c:312-454 | every live or zombie process but init has a parent that is neither UNUSED nor ZOMBIE, and a parent other than init does not sleep in wait while it has a zombie child |
| `ExitWait.FreedByParent` | xv6-labs-2020/kernel/proc.c:405-454 | a zombie leaves that state only by being freed in wait by its parent, and is then UNUSED |
| `WaitOutcome.RunChanges` | xv6-labs-2020/kernel/proc.c:266-644 | in every step of every run a process changes its own state only as the scheduler, yield, sleep, wait or exit do, and another's slot only as kill, wakeup1, fork, reparent and freeproc do |
| `WaitOutcome.SleepsOn` | xv6-labs-2020/kernel/proc.c:612-641 | over runs, a process asleep stays asleep until it is killed, or, if it sleeps in wait, until wakeup1 of it |
| `WaitOutcome.RunRanked` | xv6-labs-2020/kernel/proc.c:290-331 | in every reachable state the parent links are a tree below init |
| `WaitOutcome.WaitFails` | xv6-labs-2020/kernel/proc.c:405-454 | wait gives up only if the process was killed or has no child, also for init, which gets children while it scans |
| `WaitOutcome.WaiterHasChild` | xv6-labs-2020/kernel/proc.c:405-454 | a process asleep in wait has a child, has not been killed, and unless it is init no child of its is a zombie |
| `Umalloc.LoopTest` | xv6-labs-2020/user/umalloc.c:30-32 | the test of the loop in free succeeds at exactly one place of the circular list: where the block belongs |
| `Umalloc.BlocksApart` | xv6-labs-2020/user/umalloc.c:25-90 | blocks never overlap, and two free blocks never even touch |
| `Umalloc.TotalUnits` | xv6-labs-2020/user/umalloc.c:25-90 | the sizes of free and live blocks add up to the memory obtained from sbrk |
| `Umalloc.Allocator.constructor` | xv6-labs-2020/user/umalloc.c:21-22 | no memory yet, freep is null |
| `Umalloc.Allocator.FindPlace` | xv6-labs-2020/user/umalloc.c:29-32 | the loop of free ends at the list position of the block |
| `Umalloc.Allocator.TakeUpper` | xv6-labs-2020/user/umalloc.c:33-37 | a free block that touches from above is taken in; every word of the other live blocks stays |
| `Umalloc.Allocator.TakeLower` | xv6-labs-2020/user/umalloc.c:38-43 | the block joins the one below or is linked in; the list is whole again, and every word of the live blocks stays |
| `Umalloc.Allocator.Free` | xv6-labs-2020/user/umalloc.c:25-44 | the heap invariant is kept, exactly this block stops being live, every word of every other live block stays, no memory is lost, and its units lie in the block at freep or the next one |
| `Umalloc.Allocator.MoreCore` | xv6-labs-2020/user/umalloc.c:47-61 | sbrk failing changes nothing; otherwise exactly the new range joins the free list, near freep; every word of the live blocks stays |
| `Umalloc.Allocator.Begin` | xv6-labs-2020/user/umalloc.c:69-73 | the first call makes the one-element circular list |
| `Umalloc.Allocator.Carve` | xv6-labs-2020/user/umalloc.c:75-85 | a block of exactly nunits that was not live is handed out, whole or as the tail of a larger one, and freep is the block before; every word of the live blocks stays |
| `Umalloc.Allocator.Refill` | xv6-labs-2020/user/umalloc.c:86-88 | after morecore the search is certain to succeed |
| `Umalloc.Allocator.Malloc` | xv6-labs-2020/user/umalloc.c:64-90 | terminates; morecore is called at most once and exactly when no free block has room for the bytes and a header; null exactly when that call fails; otherwise a fresh block, the smallest that holds the bytes, disjoint from all others, with every word of every other live block, header and data, as it was; without morecore it is the end of the first free block with room behind freep, and freep is left before it; with it the heap grows by the larger of 4096 units and the block |
| `Umalloc.UnitsLeast` | xv6-labs-2020/user/umalloc.c:69 | nunits is the least number of units that hold the bytes and a header |
| `PageTable.EncodeDecodes` | xv6-labs-2020/kernel/riscv.h:336-340 | PTE2PA and PTE_FLAGS undo PA2PTE and the or with the flags and PTE_V, for all flags |
| `PageTable.FlagBits` | xv6-labs-2020/kernel/riscv.h:329-333 | V, R, W, X and U are bits 0 to 4, and the three permissions used are what their names say |
| `PageTable.SameEntryIffSamePage` | xv6-labs-2020/kernel/riscv.h:342-345 | two addresses below MAXVA use the same page table entry if and only if they lie in the same page |
| `PageTable.PathOwners` | xv6-labs-2020/kernel/vm.c:92-109 | the tables a walk passes through are the ones that belong to this place of this tree |
| `PageTable.SetLeafView` | xv6-labs-2020/kernel/vm.c:157-163 | writing one entry changes exactly one translation in exactly one address space |
| `PageTable.SetLeafOk` | xv6-labs-2020/kernel/vm.c:149-197 | writing or clearing an entry keeps all trees and page owners consistent |
| `PageTable.AddTableView` | xv6-labs-2020/kernel/vm.c:97-107 | a new table page changes no translation anywhere |
| `PageTable.AddTableOk` | xv6-labs-2020/kernel/vm.c:97-107 | and keeps all trees and page owners consistent |
| `PageTable.AddRootOk` | xv6-labs-2020/kernel/vm.c:202-210 | a zeroed page is an address space with nothing mapped |
| `TableCount.OneTable` | xv6-labs-2020/kernel/vm.c:97-107 | a table added on the way to a page leaves one less missing there, and no other place of the tree gains one |
| `TableCount.MissingAfter` | xv6-labs-2020/kernel/vm.c:92-109 | once a page has its tables, exactly the pages of the same 512, and of the same 512 * 512, lack fewer |
| `TableCount.MappedNext` | xv6-labs-2020/kernel/vm.c:149-168 | mapping pages in turn adds exactly the tables that TablesNeeded counts |
| `TableTree.WholeTree` | xv6-labs-2020/kernel/vm.c:278-293 | with no leaf mapped, all tables of an address space are reachable from its root |
| `TableTree.BranchOk` | xv6-labs-2020/kernel/vm.c:282-290 | an entry in use met by freewalk is never a leaf, and leads to a subtree not yet freed |
| `TableTree.BranchFreed` | xv6-labs-2020/kernel/vm.c:283-288 | freeing a child and clearing its entry completes one more branch |
| `TableTree.AllFreed` | xv6-labs-2020/kernel/vm.c:278-293 | with all branches gone the table itself is freed last, and nothing else changed |
| `TableTree.TreeRemoved` | xv6-labs-2020/kernel/vm.c:278-293 | without the tree, memory is consistent and every other address space translates as before |
| `UserMemory.Vm.constructor` | xv6-labs-2020/kernel/kalloc.c:27-40 | kinit puts every managed page on the free list |
| `UserMemory.Vm.Kalloc` | xv6-labs-2020/kernel/kalloc.c:69-82 | takes the first free page, changes no translation; 0 exactly when there is none |
| `UserMemory.Vm.Kfree` | xv6-labs-2020/kernel/kalloc.c:47-63 | the page goes to the front of the free list, which has no duplicates |
| `UserMemory.Vm.UvmCreate` | xv6-labs-2020/kernel/vm.c:202-210 | a new empty address space on a page taken from the free list, or nothing |
| `UserMemory.Vm.Descend` | xv6-labs-2020/kernel/vm.c:97-107 | one level of walk, with or without allocation |
| `UserMemory.Vm.Walk` | xv6-labs-2020/kernel/vm.c:92-109 | finds the table for the page, allocates exactly the missing tables of this tree, changes no translation, and fails exactly when the free list is shorter than that |
| `UserMemory.Vm.MapOne` | xv6-labs-2020/kernel/vm.c:156-163 | maps one page, or fails, exactly for want of table pages, without changing a translation |
| `UserMemory.Vm.MapPages` | xv6-labs-2020/kernel/vm.c:149-168 | exactly the pages that the byte range touches become mapped to consecutive physical pages; every other translation stays; it fails exactly when there are fewer free pages than missing tables, with a prefix mapped |
| `UserMemory.Vm.UnmapOne` | xv6-labs-2020/kernel/vm.c:182-196 | none of the three panics is possible for a mapped page |
| `UserMemory.Vm.UvmUnmap` | xv6-labs-2020/kernel/vm.c:174-197 | exactly the requested range is unmapped, and exactly its pages are freed if asked |
| `UserMemory.Undone` | xv6-labs-2020/kernel/vm.c:241-253 | unmapping what a failed allocation had mapped restores every translation; only table pages were added |
| `UserMemory.Vm.UvmDealloc` | xv6-labs-2020/kernel/vm.c:262-273 | exactly the pages above the new size are unmapped and freed |
| `UserMemory.RoundUpMeans` | xv6-labs-2020/kernel/riscv.h:326 | a page is below PGROUNDUP exactly when its first byte is below the size |
| `UserMemory.Vm.UndoAlloc` | xv6-labs-2020/kernel/vm.c:243-252 | the failure path gives back all pages taken so far |
| `UserMemory.Vm.NewPage` | xv6-labs-2020/kernel/vm.c:241-253 | a page with given contents is mapped, or none is kept; it fails exactly when there are fewer free pages than one and the missing tables |
| `UserMemory.Vm.UvmAlloc` | xv6-labs-2020/kernel/vm.c:232-255 | all pages up to the new size, zeroed, fresh and owned, if and only if there are enough free pages for them and their tables; otherwise failure with every translation and every user page as before |
| `UserMemory.Vm.UvmCopy` | xv6-labs-2020/kernel/vm.c:312-339 | the child gets an equal image, flags included, on pages of its own and the parent is untouched, if and only if there are enough free pages; otherwise failure with nothing kept but tables |
| `UserMemory.Vm.FreeWalk` | xv6-labs-2020/kernel/vm.c:278-293 | every table of the subtree is freed exactly once, no leaf panic |
| `UserMemory.Vm.UvmFree` | xv6-labs-2020/kernel/vm.c:298-303 | exactly the pages of this address space return to the free list |
| `UserMemory.Vm.ProcFreePagetable` | xv6-labs-2020/kernel/proc.c:198-203 | trampoline and trapframe mappings go without their pages, whether the trapframe page is still held or already free; then each page the process owns is freed exactly once, without a panic |
| `ProcMemory.SpaceStays` | xv6-labs-2020/kernel/proc.c:99-203 | creating, growing, copying or freeing one process leaves every other process whole: its image, its trapframe page, its mappings and all their bytes |
| `ProcMemory.ProcPagetable` | xv6-labs-2020/kernel/proc.c:164-193 | a page table with trampoline and trapframe mapped, or 0 with every page returned; it fails exactly with fewer than three free pages, and never at the trapframe |
| `ProcMemory.FreeProc` | xv6-labs-2020/kernel/proc.c:143-160 | frees the trapframe page first, then the page table that still maps it; exactly the trapframe page and the pages of this process become free, for a process with a page table, with a trapframe only, or with neither |
| `ProcMemory.AllocProc` | xv6-labs-2020/kernel/proc.c:113-130 | a trapframe page, a root and two tables, all taken from the free list; succeeds exactly with four free pages; on failure every page is where it was |
| `ProcMemory.GrowProc` | xv6-labs-2020/kernel/proc.c:245-261 | the image grows by zeroed pages or shrinks, pages that stay, and all pages of other processes and of the kernel, keep their contents, with 32-bit wrap-around of the size; -1 exactly for want of pages |
| `ProcMemory.Lifecycle` | xv6-labs-2020/kernel/proc.c:99-261 | after allocproc, any calls of growproc and freeproc, every physical page has the owner it had before, trapframe and tables included, every address space translates as before, and every page in use has the bytes it had |
| `ProcMemory.ForkMemory` | xv6-labs-2020/kernel/proc.c:271-283 | the child has an equal image on its own pages, the parent is untouched; it fails exactly when pages run out, and then every page is where it was |
| `UserCopy.UserPageOwned` | xv6-labs-2020/kernel/vm.c:115-132 | a page user code can reach belongs to that page of that address space only |
| `UserCopy.WalkAddr` | xv6-labs-2020/kernel/vm.c:115-132 | the physical page of a user-accessible address, 0 otherwise, also beyond MAXVA |
| `UserCopy.CopyOut` | xv6-labs-2020/kernel/vm.c:358-377 | succeeds exactly when all pages are user pages, and then the user sees the bytes there and no other byte of memory changed, in any address space or in the kernel's pages; on failure a prefix was copied |
| `UserCopy.CopyIn` | xv6-labs-2020/kernel/vm.c:384-403 | succeeds exactly when all pages are user pages, and returns what the user sees |
| `UserCopy.CopyInStr` | xv6-labs-2020/kernel/vm.c:410-446 | succeeds exactly when a NUL is within reach and within max, and returns the bytes before the first one |
| `UserCopy.FirstZero` | xv6-labs-2020/kernel/vm.c:427-440 | the inner loop stops at the first NUL of the page part |
| `UserCopy.CopyRoundTrip` | xv6-labs-2020/kernel/vm.c:358-403 | copyout followed by copyin over the same range succeeds exactly for a user range and returns the same bytes |
| `FileSystem.WordSet` | xv6-labs-2020/kernel/fs.c:395-397 | storing a block number in an indirect block changes that entry only, and reads back |
| `FileSystem.InFileIffUse` | xv6-labs-2020/kernel/fs.c:378-405 | a block is reachable from an inode exactly when it is recorded as used by it |
| `FileSystem.BlocksConserved` | xv6-labs-2020/kernel/fs.c:65-103 | the set bits of the free map are exactly the metadata blocks and the blocks reachable from inodes, and no block is in two files: no block is lost or shared |
| `FileSystem.AllocOk` | xv6-labs-2020/kernel/fs.c:65-86 | marking and zeroing a free block keeps free map, addresses and uses in agreement |
| `FileSystem.EnterDirect` | xv6-labs-2020/kernel/fs.c:383-387 | entering a block at a direct address keeps the agreement and changes one address |
| `FileSystem.EnterIndirect` | xv6-labs-2020/kernel/fs.c:392-394 | a zeroed indirect block makes no address appear: no stale pointers |
| `FileSystem.EnterEntry` | xv6-labs-2020/kernel/fs.c:394-399 | entering a block in the indirect block changes one address of one file |
| `FileSystem.WriteOk` | xv6-labs-2020/kernel/fs.c:497-506 | writing a data block keeps the agreement |
| `FileSystem.WriteBytes` | xv6-labs-2020/kernel/fs.c:497-506 | writing a data block changes that block of that file and no byte of any other |
| `FileSystem.TruncatedOk` | xv6-labs-2020/kernel/fs.c:410-437 | freeing exactly the blocks of a file keeps the agreement |
| `FileSystem.TruncatedBytes` | xv6-labs-2020/kernel/fs.c:410-437 | truncation changes no byte of any other file |
| `FileOps.Disk.Balloc` | xv6-labs-2020/kernel/fs.c:65-86 | the first block whose bit is clear, now set and zeroed; fails exactly when every bit is set |
| `FileOps.Disk.Bfree` | xv6-labs-2020/kernel/fs.c:90-103 | exactly one bit is cleared |
| `FileOps.Disk.BmapDirect` | xv6-labs-2020/kernel/fs.c:383-387 | the direct case of bmap: the block goes to this file and nowhere else; fails exactly when a block is needed and none is free |
| `FileOps.Disk.EnsureIndirect` | xv6-labs-2020/kernel/fs.c:391-394 | the indirect block is allocated if missing, and all addresses stay; fails exactly when it is needed and no block is free |
| `FileOps.Disk.BmapIndirect` | xv6-labs-2020/kernel/fs.c:390-402 | the indirect case of bmap: takes exactly the one or two blocks that are missing, and fails exactly when there are fewer |
| `FileOps.Disk.Bmap` | xv6-labs-2020/kernel/fs.c:378-405 | the address of the block, allocated if there was none; every other address and all data stay; nothing changes for a mapped block; no block is lost; fails exactly when fewer blocks are free than needed |
| `FileOps.Disk.Iupdate` | xv6-labs-2020/kernel/fs.c:222-237 | the inode on disk equals the inode in memory |
| `FileOps.Disk.FreeEntries` | xv6-labs-2020/kernel/fs.c:424-429 | each block listed in the indirect block is in use when freed, and freed once |
| `FileOps.Disk.Itrunc` | xv6-labs-2020/kernel/fs.c:410-437 | exactly the blocks of this file become free, none was free before, the file is empty and on disk, and free map and reachable blocks agree |
| `FileOps.Disk.Iput` | xv6-labs-2020/kernel/fs.c:333-358 | the last reference to an unlinked file frees exactly its blocks and its inode; any other changes nothing |
| `FileOps.Disk.Readi` | xv6-labs-2020/kernel/fs.c:456-477 | nothing for an offset behind the end or a sum that wraps; otherwise as many bytes as asked for or as are left, each the byte of the file at off plus its place; allocates and changes nothing |
| `FileOps.Disk.ReadPart` | xv6-labs-2020/kernel/fs.c:466-475 | one turn of the loop of readi: the next bytes of the file, and nothing changes |
| `FileOps.Disk.WritePart` | xv6-labs-2020/kernel/fs.c:497-506 | one turn of the loop of writei; fails exactly when bmap does |
| `FileOps.Disk.WriteParts` | xv6-labs-2020/kernel/fs.c:497-506 | the loop of writei: exactly the touched blocks appear in the file, exactly the blocks they need leave the free map, and it stops early only when these are more than were free |
| `FileOps.Disk.Writei` | xv6-labs-2020/kernel/fs.c:487-517 | -1 exactly for a bad range; otherwise it succeeds exactly when the needed blocks are free, and then the bytes are spliced in at off, the size is the maximum, type and link count stay, every other file is unchanged, all blocks below the size are mapped, the set bits are exactly metadata and reachable blocks, and the logged blocks are bounded |
| `FileOps.WriteDone` | xv6-labs-2020/kernel/fs.c:508-516 | after the loop and the size update the file is the splice and all files are complete |
| `FileOps.ChunkBound` | xv6-labs-2020/kernel/file.c:159-166 | a chunk of at most three blocks may log at most MAXOPBLOCKS, and reaches it exactly when it touches four blocks |
| `FileOps.Disk.FileWrite` | xv6-labs-2020/kernel/file.c:146-187 | every chunk logs at most MAXOPBLOCKS distinct blocks; succeeds exactly when the blocks for the accepted bytes are free; then exactly these bytes are at f->off, all of them or, beyond the largest file, the whole chunks that fit, and no block is lost; type and link count stay; each transaction on the way ends with the bytes up to the end of a chunk written |
| `FileOps.Disk.WriteChunk` | xv6-labs-2020/kernel/file.c:170-175 | one transaction of filewrite logs at most MAXOPBLOCKS blocks and writes its chunk whole, or nothing |
| `FileOps.Rejected` | xv6-labs-2020/kernel/file.c:159-183 | where a chunk is refused, the bytes before it are exactly the accepted ones |
| `FileOps.NeededTwice` | xv6-labs-2020/kernel/file.c:159-183 | chunk after chunk takes exactly the blocks that the whole range takes, also where two chunks share a block |
| `ChunkCost.TenBlocks` | xv6-labs-2020/kernel/file.c:159-166 | on a disk that mkfs lays out for 29375 blocks and 111 inodes, whose last four free blocks lie under four map blocks, a full unaligned chunk that enters the indirect range logs ten different blocks, whatever is allocated |
| `ChunkCost.TenBlockChunk` | xv6-labs-2020/kernel/file.c:159-166 | the bound is attained: writei of that chunk on that disk, all other blocks of which belong to other files, succeeds and logs exactly MAXOPBLOCKS blocks |
| `ChunkCrash.WholeChunksSurvive` | xv6-labs-2020/kernel/file.c:159-183 | in every state of every run in which the transactions of filewrite are operations of the logged disk, with any crashes and recoveries, what recovery leaves of the file is its old bytes with a whole number of chunks written |
| `Virtio.Driver.AllocDesc` | xv6-labs-2020/kernel/virtio_disk.c:145-154 | takes the first free descriptor, -1 exactly when there is none |
| `Virtio.Driver.FreeDesc` | xv6-labs-2020/kernel/virtio_disk.c:158-170 | clears the descriptor and marks it free |
| `Virtio.Driver.FreeChain` | xv6-labs-2020/kernel/virtio_disk.c:174-185 | frees exactly the three descriptors of a request |
| `Virtio.Driver.Alloc3Desc` | xv6-labs-2020/kernel/virtio_disk.c:190-201 | takes the first three free descriptors; or none, and then exactly the free descriptors are cleared and no other changes |
| `Virtio.Driver.GiveBack` | xv6-labs-2020/kernel/virtio_disk.c:194-197 | the free set is as before the failed attempt, exactly the descriptors given back are cleared |
| `VirtioQueue.Room` | xv6-labs-2020/kernel/virtio_disk.c:260-265 | the rings never overflow, because queued chains use different descriptors |
| `VirtioQueue.QueuePush` | xv6-labs-2020/kernel/virtio_disk.c:260-265 | publishing appends to the ring, across 16-bit wrap |
| `VirtioQueue.QueuePop` | xv6-labs-2020/kernel/virtio_disk.c:300-311 | consuming takes the oldest entry, across 16-bit wrap |
| `VirtioQueue.ReadsRequest` | xv6-labs-2020/kernel/virtio_disk.c:226-253 | the device reads from the chain exactly the request the driver wrote |
| `VirtioQueue.FormatInv` | xv6-labs-2020/kernel/virtio_disk.c:213-260 | allocating and formatting keeps the protocol invariant |
| `VirtioQueue.RetryInv` | xv6-labs-2020/kernel/virtio_disk.c:216-221 | so does a failed attempt at three descriptors, which clears free ones |
| `VirtioQueue.PublishInv` | xv6-labs-2020/kernel/virtio_disk.c:262-274 | so does publishing |
| `VirtioQueue.ConsumeInv` | xv6-labs-2020/kernel/virtio_disk.c:300-312 | so does a turn of the interrupt handler |
| `VirtioQueue.FinishInv` | xv6-labs-2020/kernel/virtio_disk.c:272-279 | so does the end of virtio_disk_rw |
| `VirtioQueue.UsedEntry` | xv6-labs-2020/kernel/virtio_disk.c:300-311 | every used entry the handler meets names an unfinished request with a non-null buffer and status 0 |
| `VirtioQueue.FinishSafe` | xv6-labs-2020/kernel/virtio_disk.c:272-279 | b->disk == 0 implies that the device performed this request, and free_desc finds three descriptors in use |
| `VirtioQueue.RequestIsNew` | xv6-labs-2020/kernel/virtio_disk.c:204-260 | a request is not among the performed ones when it is made |
| `VirtioQueue.StepInv` | xv6-labs-2020/kernel/virtio_disk.c:204-315 | every driver step and every device step, in any order, keeps the invariant |
| `VirtioQueue.RunInv` | xv6-labs-2020/kernel/virtio_disk.c:204-315 | it holds in every state of every run |
| `VirtioQueue.RunSafe` | xv6-labs-2020/kernel/virtio_disk.c:143-315 | in every reachable state descriptors are free or in exactly one chain, used entries are good, and virtio_disk_rw returns only after the device performed that very request |
| `VirtioQueue.CallPerformed` | xv6-labs-2020/kernel/virtio_disk.c:203-280 | between call and return of virtio_disk_rw the device performed a request with the buffer, the sector and the direction of that call |
| `BufferCache.Unlink` | xv6-labs-2020/kernel/bio.c:128-129 | taking a buffer out leaves a consistent doubly linked cycle |
| `BufferCache.LinkFront` | xv6-labs-2020/kernel/bio.c:130-133 | putting it after the head leaves a consistent cycle |
| `BufferCache.MoveToFront` | xv6-labs-2020/kernel/bio.c:128-133 | the six assignments of brelse move the buffer to the front and keep all others in order |
| `BufferCache.LastIsOldest` | xv6-labs-2020/kernel/bio.c:76-87 | the last unreferenced buffer of the list was released before all other unreferenced ones |
| `BufferCache.Cache.constructor` | xv6-labs-2020/kernel/bio.c:37-53 | binit links all buffers into one cycle |
| `BufferCache.Cache.Lookup` | xv6-labs-2020/kernel/bio.c:64-73 | finds a buffer of the block exactly when there is one |
| `BufferCache.Cache.Victim` | xv6-labs-2020/kernel/bio.c:76-87 | picks the unreferenced buffer released longest ago; fails exactly when all are referenced |
| `BufferCache.Cache.Bget` | xv6-labs-2020/kernel/bio.c:59-89 | returns the cached buffer, or recycles the least recently used unreferenced one; at most one buffer per block of a device; no referenced buffer is recycled |
| `BufferCache.Cache.Brelse` | xv6-labs-2020/kernel/bio.c:117-137 | the last release moves the buffer to the front and makes it the most recent |
| `BufferCache.Cache.Bpin` | xv6-labs-2020/kernel/bio.c:140-144 | one more reference |
| `BufferCache.Cache.Bunpin` | xv6-labs-2020/kernel/bio.c:147-151 | one reference less |
| `CacheSteps.BgetSteps` | xv6-labs-2020/kernel/bio.c:59-89 | bget of the linked list is a bget of the transaction machine, preceded by an eviction if it recycles a buffer |
| `CacheSteps.BrelseSteps` | xv6-labs-2020/kernel/bio.c:117-137 | brelse of the linked list is a brelse of the transaction machine |
| `CacheSteps.BinitSteps` | xv6-labs-2020/kernel/bio.c:37-53 | the list that binit makes is the empty cache of the transaction machine |
| `CacheSteps.LogWriteSteps` | xv6-labs-2020/kernel/log.c:225-233 | bpin of a newly logged block is a log_write of the transaction machine |
| `CacheSteps.InstallSteps` | xv6-labs-2020/kernel/log.c:73-82 | bread, bunpin and brelse of a pinned block are an install step of the transaction machine |
| `Pipe.TestsMean` | xv6-labs-2020/kernel/pipe.c:88-113 | the tests for full and empty on wrapped counters mean 512 bytes in the ring and none |
| `Pipe.WaitingIs` | xv6-labs-2020/kernel/pipe.c:77-130 | the ring read off the wrapped counters is exactly what was stored and not yet taken |
| `Pipe.StepRing` | xv6-labs-2020/kernel/pipe.c:58-130 | every step keeps the ring |
| `Pipe.StepPlace` | xv6-labs-2020/kernel/pipe.c:58-130 | every step keeps lock ownership, and the bytes a read has got are consecutive |
| `Pipe.StepQuiet` | xv6-labs-2020/kernel/pipe.c:58-130 | every step keeps: sleepers have something to wait for or are about to be woken |
| `Pipe.Fifo` | xv6-labs-2020/kernel/pipe.c:77-130 | in every reachable state the bytes taken out followed by the ring are the bytes put in, over any number of counter wraps; each writer has put in exactly the first i bytes of its argument, in order; a read in progress has got consecutive bytes |
| `Pipe.ReadReturns` | xv6-labs-2020/kernel/pipe.c:105-130 | a read returns the next bytes of the pipe, as many as asked for or as there are, and none only when the write end is closed |
| `Pipe.WriteReturns` | xv6-labs-2020/kernel/pipe.c:82-100 | a write that returns has put all its bytes into the pipe, in order and after all that its process wrote before; after a failed copyin a proper prefix, with the read end open and the process not killed |
| `Pipe.WriteStores` | xv6-labs-2020/kernel/pipe.c:76-100 | from call to return, the bytes passed to a write are the last that its process has put into the pipe |
| `Pipe.ReadGets` | xv6-labs-2020/kernel/pipe.c:103-130 | from call to return, a read gets the next bytes of the pipe, fewer than asked for only if the pipe is then empty |
| `Pipe.WriteGivesUp` | xv6-labs-2020/kernel/pipe.c:84-87 | a write returns -1 only with bytes left and the read end closed or its process killed |
| `Pipe.ReadFaults` | xv6-labs-2020/kernel/pipe.c:120-125 | a read whose copyout fails loses exactly the byte it had taken |
| `Pipe.Awakes` | xv6-labs-2020/kernel/pipe.c:58-130 | a step wakes exactly the sleepers of the channel it calls wakeup on, and a killed one |
| `Pipe.SleepsOn` | xv6-labs-2020/kernel/pipe.c:58-130 | over runs, a sleeper stays where it is until such a step |
| `Pipe.NeverStuck` | xv6-labs-2020/kernel/pipe.c:76-130 | in every reachable state the holder of the lock has a next step, and so has every process that wants the lock when it is free |
| `Pipe.SleepersWait` | xv6-labs-2020/kernel/pipe.c:77-130 | whenever the lock is free readers sleep only on an empty pipe and writers only on a full one, if no writer was killed with unannounced bytes while a reader slept |
| `Pipe.SleepersRightIff` | xv6-labs-2020/kernel/pipe.c:77-130 | over whole runs: sleepers wait rightly in every state with the lock free if and only if no writer was killed with unannounced bytes while a reader slept |
| `Pipe.KilledExactly` | xv6-labs-2020/kernel/pipe.c:84-87 | the early return of a killed writer keeps this if and only if its bytes were announced or no reader sleeps |
| `Pipe.ReaderMissesByte` | xv6-labs-2020/kernel/pipe.c:84-87 | a run in which a reader sleeps on a pipe with a byte in it |
| `Net.OnesSumIsResidue` | xv6-labs-2020/kernel/net.c:142-151 | the plain sum of the words, reduced, is their one's complement sum |
| `Net.FoldIsResidue` | xv6-labs-2020/kernel/net.c:154-158 | the two folds reduce every 32-bit sum correctly |
| `Net.InCksum` | xv6-labs-2020/kernel/net.c:130-160 | in_cksum is the checksum of RFC 1071 for every length up to 2^17, odd lengths included |
| `Net.StoredChecksum` | xv6-labs-2020/kernel/net.c:182-195 | storing the checksum over a zeroed field makes the checksum zero |
| `Net.UdpRoundTrip` | xv6-labs-2020/kernel/net.c:203-317 | the UDP decoder returns ports and payload of the UDP encoder, whatever padding follows |
| `Net.IpHeaderFields` | xv6-labs-2020/kernel/net.c:182-196 | the IP header carries the addresses and length and passes its checksum test |
| `Net.RoundTrip` | xv6-labs-2020/kernel/net.c:203-374 | a frame of net_tx_udp plus any padding is delivered with the same source, ports and payload at the host that owns the destination, and dropped at every other host |
| `Net.EthBytes` | xv6-labs-2020/kernel/net.c:164-174 | byte by byte: broadcast, the local address, the type high byte first, then the contents |
| `Net.IpBytes` | xv6-labs-2020/kernel/net.c:182-199 | byte by byte: every field of the IP header, with a one's complement sum of all ones |
| `Net.UdpBytes` | xv6-labs-2020/kernel/net.c:203-217 | byte by byte: ports, length, no checksum, then the payload |
| `Net.DecodeExactly` | xv6-labs-2020/kernel/net.c:286-374 | a frame is delivered exactly if it is an unfragmented UDP packet for this host with a good IP header and lengths that agree and fit, with the source, ports and payload found at their offsets; ARP packets go to ARP and all else is dropped |
| `Net.Mbuf.Pull` | xv6-labs-2020/kernel/net.c:21-29 | strips bytes from the front, or fails when too few are there |
| `Net.Mbuf.PushHeader` | xv6-labs-2020/kernel/net.c:33-40 | puts a header in front of the contents |
| `Net.Mbuf.Trim` | xv6-labs-2020/kernel/net.c:56-62 | strips bytes from the end, or fails when too few are there |
| `Net.Mbuf.TxEth` | xv6-labs-2020/kernel/net.c:164-174 | byte by byte: bytes 0 to 5 are 0xff, 6 to 11 the local address, 12 and 13 the type, and the contents follow |
| `Net.Mbuf.TxIp` | xv6-labs-2020/kernel/net.c:182-199 | the contents get the IP header, every field at its offset and with a good checksum, and the Ethernet header in front |
| `Net.Mbuf.TxUdp` | xv6-labs-2020/kernel/net.c:203-217 | the payload becomes the frame of the round trip, every byte of its three headers fixed |
| `Net.Mbuf.RxUdp` | xv6-labs-2020/kernel/net.c:286-317 | decodes the UDP part, with 16-bit length arithmetic |
| `Net.Mbuf.RxIp` | xv6-labs-2020/kernel/net.c:321-352 | checks version, checksum, fragmentation, address and protocol |
| `Net.Mbuf.Receive` | xv6-labs-2020/kernel/net.c:356-374 | net_rx decodes exactly as the reference decoder of the round trip, and so delivers exactly the frames of DecodeExactly |
| `Grep.PlainItem` | xv6-labs-2020/user/grep.c:83-94 | a plain first character matches one character and then the rest |
| `Grep.StarRun` | xv6-labs-2020/user/grep.c:97-104 | such a run is of this character, or of any characters for a dot |
| `Grep.StarItem` | xv6-labs-2020/user/grep.c:97-104 | a starred first character matches a run of any length and then the rest |
| `Grep.EndMark` | xv6-labs-2020/user/grep.c:89-90 | a lone $ matches the empty rest only |
| `Grep.MatchHere` | xv6-labs-2020/user/grep.c:83-94 | true if and only if a prefix of the text is denoted by the pattern |
| `Grep.MatchStar` | xv6-labs-2020/user/grep.c:97-104 | true if and only if some run of the character leaves a match of the rest |
| `Grep.Match` | xv6-labs-2020/user/grep.c:71-80 | true if and only if the text satisfies the pattern at some start offset, at 0 after ^ |

## Left out

- Assembly, CSRs, traps, UART, PLIC, PCI and boot: no semantics to prove against.
- kernel/e1000.c and kernel/sysnet.c: not modelled.
- kernel/sysfile.c, directories, path lookup, ialloc, the inode cache and its locking, exec: not modelled.
- The memory model: steps are sequentially consistent, and fences are not modelled.
- Deadlock freedom and liveness: only safety is proved; loops of the sequential code are shown to terminate.
- RedoLog and TxSystem: a log header is a list of integers in a block of integers; byte order is not modelled.
- TxSystem: log blocks are read and written on disk directly, their cached copies are part of RedoLog; clients are assumed to log every buffer they change before they release it, and an operation adds at most MAXOPBLOCKS blocks.
- TxSystem.LogWriteRefines: a log_write that panics is no step; its process stays where it is while others go on. When that happens is stated in TxAdmission.
- SleepWakeup and ExitWait: two machines with the detail each property needs, not one; wait addresses, exit status copying and file closing are not modelled.
- Umalloc.Allocator.Malloc: assumes that sbrk returns memory above all earlier memory and that the request in bytes fits its int argument; sizes are unbounded integers, not uint.
- UserMemory: pages have one of the roles table or data, instead of being raw bytes.
- UserMemory.Vm.MapPages: asks that permissions include R, W or X and that pages mapped for the user are held by the caller, as all callers do; uvminit, uvmclear and the kernel page table are not modelled.
- UserMemory.Vm.ProcFreePagetable: asks that the process image is mapped from 0 to its size and nothing else but trampoline and trapframe.
- WaitOutcome.WaiterHasChild: a zombie child of init is excepted, because init may miss the wakeup of a process that dies with zombie children, as the comment in exit says.
- ProcMemory: the search for an unused process, pids, kernel stacks and contexts, the contents of the trapframe, and fork's open files are not modelled; operations of different processes follow each other, they do not interleave.
- ChunkCrash.WholeChunksSurvive: how blocks encode inodes and the free map is a parameter, and no other process writes the file meanwhile (filewrite gives up the inode's lock between chunks).
- FileOps.Disk.Writei: the copy from user memory does not fail; a partial copy leaves a changed, unlogged buffer in the code.
- FileOps.Disk.Readi: the copy to user memory does not fail.
- FileOps.Disk.Balloc: running out of blocks, a panic in the kernel, is a false result, after which nothing is promised of the operation; the bits of a free map block are booleans, not bits of bytes.
- FileOps.Disk.Iput: the reference count is a parameter, and the cached inode is taken to be valid.
- BufferCache.Cache.Bunpin: asks that the caller still holds the buffer, as install_trans does; a bunpin that drops the last reference would not move the buffer to the front.
- VirtioQueue: the device always succeeds; device initialisation, notification and interrupt acknowledgement are not modelled; a buffer is passed to the driver by the holder of its sleep lock only.
- Pipe: file table handling and freeing the page on the last close are not modelled; an end is closed only when no process is inside an operation on it.
- Net: ARP replies, sockets and mbufput are not modelled; headroom for the headers is assumed.
- Grep: reading lines and the main program are not modelled; strings do not contain NUL.
