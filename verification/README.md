# LionOS: proofs about the kernel's hard parts

LionOS is a 32-bit x86 hobby kernel. This project models four linked parts of it and proves what they are
for. Code that changes state step by step is a class or a loop; each such method is proved equal to a
function of the old state, or against a statement about its result, and the hard results are lemmas about
those functions, over all inputs, all runs or all interleavings.

1. **Memory and processes.** `Memory` (frames), `Paging` and `PageTables` (the three-level walk, after
   section 4.4 of the Intel SDM, volume 3A), `Supervisor` and `SupervisorRun` (the kernel's entries in every
   space), `Demand` (how many frames a mapping takes), `Cow`, `Fork`, `ForkProof`, `ForkEnds`, `VmRun`,
   `AgreeRun` and `ProcessTable` (copy-on-write fork, write faults, teardown), `Elf`, `Loader`, `Exec` and
   `ExecRun` (from a file to a process), `Scenarios` (runs of a small machine), `Heap`. The main result is
   `SystemRun.RunFromStart`: from a machine without processes, over any run of program starts, forks, user
   stores with their write faults, and reaps of processes whose `user_pages` agree with their page table,
   every process sees exactly the bytes it would see if fork copied every page at once;
   `SupervisorRun.RunStands` adds that the kernel's entries stand in every page table. Along these runs a
   `user_pages` agrees until its process makes a store that copies, and exactly that long (`AgreeRun`); such
   a process is not reaped in them, and what its teardown does is `VmRun.ReapBalancedIff`.
2. **Files.** `DiskFs`, `DiskFsProof`, `DiskFsCrash` and `DiskFsDriver` (LionFS on sectors: crash atomicity
   and agreement of memory and disk, over runs with any number of crashes), `VfsPath`, `Vfs`, `ZLog` (paths,
   descriptors, the rotating log).
3. **Scheduling and blocking.** `Scheduler`, `SchedulerProof`, `SchedulerEnds`, `SchedulerCurrent` and
   `SchedulerTable` (invariant over all operations, exact choice, bounded waiting), `Pipe`, `Ipc`,
   `Blocking`, `BlockingProof` and `BlockingOwner` (every lock, critical section, sleep and wakeup a step of
   its own: no wakeup is lost and there is no deadlock on locks; a process asleep on its own pipe can still
   wait for ever, see below).
4. **Rings.** `TrbRing` (cycle-bit rings, the controller after sections 4.9.2, 4.9.3 and 6.4.4.1 of xHCI
   1.2), `LogRing` and `LogRingProof` (the sequence-checked log).

`dafny verify dfyconfig.toml` checks everything.

## What does not hold, and exactly when it does

- Teardown frees by `user_pages`, which a fault that copies does not update (`src/paging.c:223-228`,
  `src/process.c:127`). It balances if and only if that list agrees with the page table
  (`VmRun.ReapBalancedIff`). Starting and forking make lists that agree (`ExecRun.SpawnAgrees`,
  `ForkEnds.ForkedAgree`); a copying fault always breaks one (`VmRun.CopyBreaksAgreement`), and the first
  store to a forked page is such a fault (`ForkEnds.FirstStoreBreaks`; from start-up,
  `Scenarios.ListGoesStale`).
- The restore loop of a failed fork walks the first `cowed` pages (`src/process.c:116`). A failed fork
  leaves the page tables as they were if and only if it failed before it marked anything, or no read-only
  page stands before a writable one in the parent's list (`ForkEnds.ForkExact`). A program just started with
  a read-only page fails that test (`ForkEnds.StartedReadOnlyFirst`; from start-up,
  `Scenarios.FailedForkShows`). The pages missed stay copy-on-write with count 1, and the next write makes
  them writable in place (`ForkProof.ForkCorrect`).
- `write_user_u32` does not look at the writable bit (`src/process.c:41`); `VmRun.KernelStoreOnReadOnly`
  says exactly which pages keep their bytes, and after a fork such a store for the child shows at the parent
  (`ForkEnds.KernelStoreReachesParent`; from start-up, `Scenarios.KernelStoreShows`).
- A mapping keeps the kernel's entries of its space if and only if its address is not below `USER_BASE`
  (`Supervisor.MapStandsIff`; on a machine, `Scenarios.MapBelowShows`); `paging_map_user_page_in` itself
  does not test that. Its callers stay above: the entries stand after every run (`SupervisorRun.RunStands`).
- Slot 0 can block in exactly one way, joining a kernel thread that has not ended
  (`SchedulerProof.StepKeepsOk`), and can from start-up on (`SchedulerEnds.BootstrapCanBlock`).
- An ended process stays ended unless it is sent a stop signal, or the CPU that still has it as current
  makes a sleep, waitpid or join that blocks, and in exactly these cases it comes back
  (`SchedulerEnds.EndedIff`). Both happen from start-up on (`SchedulerEnds.StopRevives`,
  `SchedulerEnds.SleepRevives`).
- A task can be running and current on two CPUs (`SchedulerCurrent.CurrentTwice`): killed and reaped while
  it runs, its slot is used again elsewhere. A step leads there if and only if it is a tick that takes up a
  task another CPU still has as current (`SchedulerCurrent.OneEachIff`); without a step that makes a task
  in, or clears, a slot still current on another CPU it never happens (`SchedulerCurrent.TiedIff`,
  `SchedulerCurrent.BootApart`).
- `pipe_read` and `pipe_write` refuse every process but the owner of the pipe (`src/pipe.c:13-14`), so an
  owner that sleeps on its own empty or full pipe is woken by no other process: only from outside, by a
  wakeup still owed from an earlier owner of the slot, or by mail for the one process number that shares the
  channel (`BlockingOwner.OwnerStep`, `BlockingOwner.OwnerSleepsOn`, `BlockingOwner.MailChannels`; from
  start-up, `BlockingOwner.OwnerAlone`).
- A creation cut short can leave a file that was never written, in exactly one case: a removal cut short has
  left the slot with the size and place of a file, the slot straddles two sectors, and only the first of
  them was written (`DiskFsProof.TornEntry`, `DiskFsProof.CreateCrash`). Only such a removal makes that
  possible (`DiskFsCrash.StaysNoneStale`).
- A log line can be lost although there is room: when rotation keeps nothing of the file in RAM and so
  uncovers a file of the same name on the disk without room for the line (`ZLog.AppendSucceeds`).
- Pipe slot 0 hands out handles nothing accepts (`Pipe.HandleRoundTrip`).
- Messages to one receiver arrive in sending order if and only if each goes to a slot with no message for
  that receiver behind it (`Ipc.SendOrderIff`, `Ipc.OrderIff`, `Ipc.ArriveInOrder`); a run where they do not
  is `Ipc.SecondMayArriveFirst`.
- A ring of TRBs takes one more block if and only if less than a whole turn is then outstanding, or exactly
  one and the controller does not rest at a link; otherwise the controller never moves again
  (`TrbRing.ExecutesIff`, `TrbRing.SomeRunSticks`). The driver stays within that by waiting for each command
  and each report (`TrbRing.CommandRing`, `TrbRing.ReportRing`).
- A frame reserved at start-up can be lost by retaining it, and in no other way (`Memory.WithheldStep`).

## Model

| member | source | states |
|---|---|---|
| Memory.WriteBit | src/memory.c:21-23 | setting or clearing bit p % 32 of word p / 32 changes the flag of frame p and of no other |
| Memory.AllocExact | src/memory.c:26 | allocation returns the lowest run of free frames above the reserved ones, each with count 1, and fails on a valid count only when there is none |
| Memory.AllocValid | src/memory.c:26 | allocation keeps `free_pages` equal to the clear bits and free frames at count 0 |
| Memory.RetainValid | src/memory.c:28 | so does retaining |
| Memory.FreeValid | src/memory.c:30 | so does freeing |
| Memory.StepValid | src/memory.c:26-30 | so does every operation, from any state that has the property |
| Memory.Run | src/memory.c:26-30 | over any sequence of allocations, retains and frees the allocator state stays valid |
| Memory.WithheldStep | src/memory.c:24-30 | a frame reserved at initialisation stays reserved across an operation if and only if the operation does not retain it |
| Memory.WithheldForever | src/memory.c:24-30 | over every run that never retains it, a reserved frame is never handed out |
| Memory.AllocLends | src/memory.c:26 | what an allocation takes was free, and nothing else changes |
| Memory.GiveBack | src/memory.c:30 | freeing a frame taken once undoes exactly its taking |
| Memory.AllReturned | src/memory.c:26-30 | when everything taken is given back, every field of the allocator is as before |
| Memory.FrameAllocator.PageAllocContiguous | src/memory.c:26 | the scanning loops over bitmap words compute the lowest free run and take it |
| Memory.FrameAllocator.PageRetain | src/memory.c:28 | guards, saturation at 0xFFFF, and the count of one frame |
| Memory.FrameAllocator.PageRefcount | src/memory.c:29 | the count of a managed frame in use, else 0 |
| Memory.FrameAllocator.PageFree | src/memory.c:30 | one owner less; the bit clears and `free_pages` grows when the last goes |
| Memory.FrameAllocator.ReserveRange | src/memory.c:24 | exactly the pages a range meets are marked used, each counted once |
| Memory.FrameAllocator.MemoryInit | src/memory.c:25 | after start-up a frame is free exactly when it lies wholly inside an available range, above the reserved frames, and meets no reserved range |
| Paging.SplitInjective | src/paging.c:160-177 | two addresses with equal root, directory and table index lie on one page |
| Paging.MapRefines | src/paging.c:160-192 | mapping a page-aligned user address makes lookup return it for that page in that space only, keeps all table frames distinct, and fails exactly when a table is needed and there is no frame |
| Paging.SetFlagsRefines | src/paging.c:194-204 | re-flagging changes the flags of one page and nothing else, and fails exactly on an unmapped page |
| Paging.MapKeepsSupervisor | src/paging.c:160-192 | a directory entry without the user bit keeps its value across a mapping if and only if the address does not go through it |
| Paging.ResolveRefines | src/paging.c:212-232 | resolving a copy-on-write page makes that page writable, in place for count 1, else on a copied frame whose old owner count drops, and touches no other lookup |
| Paging.CreateRefines | src/paging.c:141-158 | a new space shares no frame with any other and maps nothing; a failure changes nothing |
| Paging.DestroyReturns | src/paging.c:256-277 | destroying a space gives back exactly the frames of its root, directories and private tables |
| Paging.DestroyKeepsOthers | src/paging.c:256-277 | every other space looks up what it looked up, and no other frame changes |
| Paging.CreateMapDestroy | src/paging.c:141-277 | create, any maps, successful or not, then destroy: every allocator field is restored |
| PageTables.LiveSpaceWalkable | src/paging.c:45-57 | in a sound state the walk of a live space stays inside memory |
| PageTables.Mmu.PagingInit | src/paging.c:76-100 | start-up leaves every entry of the four kernel directories: the 128 identity tables below 256 MiB and the 128 MMIO tables from 0xF0000000, supervisor and writable, in order, and nothing else; in the identity tables each address below 256 MiB names its own frame, and the MMIO tables are empty |
| PageTables.Mmu.GetUserPage | src/paging.c:234-254 | the walk in place equals lookup |
| PageTables.Mmu.MapUserPageIn | src/paging.c:160-192 | mapping in place equals the map function |
| PageTables.Mmu.SetUserPageFlags | src/paging.c:194-204 | re-flagging in place equals its function |
| PageTables.Mmu.MarkCow | src/paging.c:205-211 | marking copy-on-write in place equals its function |
| PageTables.Mmu.ResolveCow | src/paging.c:212-232 | resolving in place, copy loop included, equals its function |
| PageTables.Mmu.CreateAddressSpace | src/paging.c:141-158 | creating in place, copy loops included, equals its function |
| PageTables.Mmu.DestroyAddressSpace | src/paging.c:256-277 | destroying in place equals its function |
| Supervisor.UserRange | src/paging.c:76-100 | the kernel directories have an entry for an address below 3 GiB exactly below USER_BASE |
| Supervisor.CreateStands | src/paging.c:141-158 | a new space has every kernel entry, without the user bit, and every other space keeps them |
| Supervisor.MapStandsIff | src/paging.c:160-192 | a mapping keeps every kernel entry of its space if and only if the address is not below USER_BASE |
| Supervisor.MapStandsElsewhere | src/paging.c:160-192 | it keeps those of every other space wherever it maps |
| Supervisor.FlagsStand | src/paging.c:194-204 | re-flagging keeps them in every space |
| Supervisor.MarkStands | src/paging.c:205-211 | so does marking copy-on-write |
| Supervisor.ResolveStands | src/paging.c:212-232 | so does resolving a write fault |
| Supervisor.DestroyStands | src/paging.c:256-277 | destroying a space leaves those of every other |
| SupervisorRun.ForkStands | src/process.c:59-122 | a fork, however it ends, leaves the kernel entries in every process page table and every list in the user range |
| SupervisorRun.StoreStands | src/idt.c:26 | so does a user store with its write fault |
| SupervisorRun.ReapStands | src/process.c:127 | so does a teardown, whether or not the list agrees |
| SupervisorRun.RunStands | src/paging.c:141-277 | so they stand in every process page table after any run from start-up |
| Demand.OneFree | src/memory.c:26 | one frame can be allocated exactly when one is free |
| Demand.MapTables | src/paging.c:160-192 | a mapping succeeds exactly when its table is there or a frame is free, and takes a frame exactly for a new table |
| Cow.CountsNeverSaturate | src/memory.c:28 | under the invariant a count is at most 16 * 128, so saturation is never reached |
| Cow.TwoMappings | src/process.c:59-114 | two mappings of one frame count it at least twice |
| Cow.WritableIsPrivate | src/process.c:59-114 | a frame mapped writable is in no other process |
| Cow.ForkSimulates | src/process.c:73-85 | sharing read-only keeps counts equal to mappings and looks like an eager copy |
| Cow.ReflagSimulates | src/process.c:116 | giving some pages their old flags back changes nothing a process sees |
| Cow.ResolveInPlaceSimulates | src/paging.c:221-222 | a resolve in place is invisible on the eager machine |
| Cow.ResolveByCopySimulates | src/paging.c:223-228 | so is a resolve by copy |
| Cow.WriteSimulates | src/paging.c:212-232 | a store through a writable mapping changes one byte of one process |
| Cow.LeaveSimulates | src/process.c:127 | dropping a process leaves every other process as it was |
| ForkProof.ShareLoop | src/process.c:73-80 | after any number of rounds of the first loop: entries shared read-only, each frame retained once, all table frames distinct |
| ForkProof.MarkLoop | src/process.c:81-85 | the marking loop never fails on a sound state and counts the writable pages |
| ForkProof.RestoreLoop | src/process.c:116 | what the restore loop does: old flags for the first `cowed` entries |
| ForkProof.RestoreExact | src/process.c:115-116 | on the list of entries: giving the first `cowed` their old flags back restores all of them if and only if the writable ones come first |
| ForkEnds.RestoresAll | src/process.c:115-116 | that is, if and only if no read-only page stands before a writable one |
| ForkEnds.ReadOnlyPageFirst | src/process.c:115-116 | on a list of a read-only and a writable page the loop restores the first and leaves the second copy-on-write |
| ForkEnds.StartedPages | src/exec.c:105-159 | the list of a program just started is the pages of its segments and the stack page |
| ForkEnds.StartedReadOnlyFirst | src/exec.c:146-159 | a program just started has such a list whenever it has a page it may not write |
| ForkEnds.SharingEnds | src/process.c:63-80 | the sharing loop gets through exactly when there is a slot, a run of five frames, and a frame for each directory entry of the list |
| ForkEnds.ForkExact | src/process.c:59-122 | fork succeeds exactly when the sharing loop gets through and a frame is left for the kernel stack; a failed fork leaves the page tables as they were if and only if it failed before marking or no read-only page stands before a writable one |
| ForkEnds.StartedForkLeavesMarks | src/process.c:115-121 | a program just started, with a page it may not write, whose fork lacks only the frame of the kernel stack: its page table is left changed |
| ForkEnds.ForkIs | src/process.c:73-114 | after a successful fork parent and child map the same frames, copy-on-write where they were writable |
| ForkEnds.ForkedAgree | src/process.c:87-97 | the list of the child agrees with its page table, and every list that agreed still does |
| ForkEnds.FirstStoreBreaks | src/paging.c:223-228 | the first store of parent or child to a page that was writable breaks that agreement |
| ForkEnds.KernelStoreReachesParent | src/process.c:41 | a kernel store for the child to a page that was not writable shows at the parent exactly when it changes the byte |
| ForkProof.AbandonRestores | src/process.c:117-121 | giving up restores every allocator field and every other space |
| ForkProof.ForkCorrect | src/process.c:59-122 | fork either gives a child that sees all the parent sees while nobody else sees a change, or leaves every count, bit and byte as it was and each formerly writable page writable or copy-on-write with count 1 |
| ForkProof.SharePrefix | src/process.c:73-80 | after any prefix of the first loop both spaces can still be walked |
| ForkProof.MarkPrefix | src/process.c:81-85 | after any prefix of the second loop the parent can still be walked |
| ForkProof.RestorePrefix | src/process.c:116 | after any prefix of the restore loop too |
| ProcessTable.Processes.ForkCurrent | src/process.c:59-122 | fork in place, with its early exits, equals the fork function |
| ProcessTable.Processes.ShareOne | src/process.c:74-85 | one round of the first loop in place |
| ProcessTable.Processes.MarkPages | src/process.c:81-85 | the second loop in place |
| ProcessTable.Processes.RestorePages | src/process.c:116 | the restore loop in place |
| ProcessTable.Processes.FinishFork | src/process.c:81-121 | marking, the kernel stack, and the way back |
| ProcessTable.Processes.AbandonFork | src/process.c:117-121 | the release loop and the destroyed space |
| ProcessTable.Processes.Reap | src/process.c:127 | teardown in place equals the reap function |
| ProcessTable.Processes.Store | src/idt.c:26 | a user store with its write fault in place |
| Scenarios.Start | src/exec.c:182-215 | on a machine with any number of free frames exec_run_file takes its step on a program of a code and a data page |
| Scenarios.MapBelowShows | src/paging.c:160-192 | with 20 free frames a page mapped at address 0 takes the place of a kernel entry |
| Scenarios.FailedForkShows | src/process.c:115-121 | with 18 free frames that program starts, and its fork fails after marking and leaves its page table changed |
| Scenarios.ListGoesStale | src/paging.c:223-228 | with 20 it starts and forks, and the first store of the child to its stack page loses the agreement of its list |
| Scenarios.KernelStoreShows | src/process.c:41 | with 20, some kernel store for the child to its code page changes what the parent sees |
| VmRun.ResolveCorrect | src/paging.c:212-232 | a write fault keeps every invariant and no process sees anything but its result |
| VmRun.StoreCorrect | src/idt.c:26 | a user store is refused exactly when the page is absent, not writable and not copy-on-write, or shared with no frame left; otherwise it is the store of the eager machine |
| VmRun.ReapBalancedIff | src/process.c:127 | freeing by `user_pages` takes away one count per mapping from every frame if and only if that list agrees with the page table |
| VmRun.ReapCorrect | src/process.c:127 | given that agreement, teardown keeps every invariant and every other process |
| VmRun.CopyBreaksAgreement | src/paging.c:223-228 | a fault that copies moves the page but not its list entry: the agreement is lost |
| VmRun.KernelStoreOnWritable | src/process.c:41 | on a page the process may write, the kernel store is a user store |
| VmRun.KernelStoreOnReadOnly | src/process.c:41 | on any other page it goes to the frame: another page keeps its bytes if and only if it lies in another frame or the byte was there already |
| Elf.TableTest | src/elf.c:20-22 | the wrap-free test with a division is the exact bound on the program header table |
| Elf.ReadSegment | src/elf.c:26-27 | neither the product nor the sum that finds a header wraps |
| Elf.CheckLoad | src/elf.c:30-33 | the tests on a loaded segment, in unbounded terms |
| Elf.Validate | src/elf.c:8-39 | a file is accepted exactly when header, table, segments and entry are as they should be |
| Elf.StackPageTest | src/exec.c:54 | pages reach the stack page exactly when the segment ends behind its first byte |
| Elf.CheckSegment | src/exec.c:40-54 | the tests on an occupied segment: at most 128 pages, none the stack page; the repeated ones cannot fail |
| Elf.ExecValidate | src/exec.c:27-60 | an image is accepted exactly when it is well formed, fits, and occupies some memory |
| Loader.FindPage | src/exec.c:62-66 | the place of a page in the list, or -1 when it is not there |
| Loader.NewPage | src/exec.c:118-125 | a new frame, cleared, on the list; or an entry without a frame |
| Loader.AddPage | src/exec.c:115-128 | after page va the list holds exactly the pages up to it, each writable where some segment so far may write; it fails exactly when a new page is needed and the list is full or no frame is free |
| Loader.AddSegment | src/exec.c:105-129 | all pages of a segment; no address wraps, and it fails exactly when the pages so far exceed the list or the free frames |
| Loader.AddAll | src/exec.c:105-129 | after the first loop the list holds exactly the pages some segment touches, cleared; it succeeds exactly when these are at most 128 and at most the free frames |
| Loader.CopyByte | src/exec.c:136-143 | byte n of a segment lands where lookup will find it; its page is always in the list |
| Loader.CopySegment | src/exec.c:131-144 | the bytes of a segment replace those of earlier ones |
| Loader.CopyAll | src/exec.c:131-144 | every byte is that of the last segment in table order covering it, else zero |
| Loader.TouchedIff | src/exec.c:105-129 | a page is wanted exactly when a segment has a byte on it, and writable exactly when a writable segment has |
| Exec.BuildInitialStack | src/exec.c:68-89 | the stack page byte for byte; it fails exactly for names over 32 bytes |
| Exec.StackReads | src/exec.c:68-89 | read back, the stack holds one argument and a pointer to the terminated name |
| Exec.AddStack | src/exec.c:146-159 | the stack page joins the list, built; it fails exactly on a full list, without a frame, or on a name over 32 bytes |
| Exec.MapAllPages | src/exec.c:164-169 | after the mapping loop lookup returns exactly the list; on failure the half-built space is gone and nothing else changed; it succeeds exactly when a frame is free for each directory entry |
| Exec.FreeAll | src/exec.c:176-179 | the loop at the failure label restores the allocator exactly |
| Exec.LoadImage | src/exec.c:91-180 | on success each address has the byte, presence and writability the file demands and nobody else notices; on failure every allocator field is restored. It succeeds exactly when the image is loadable, the name fits, the pages with the stack page are at most 128, and the frames suffice for pages, space and tables |
| ExecRun.SpawnOk | src/process.c:52 | creating the process keeps every invariant and every other view |
| ExecRun.SpawnAgrees | src/process.c:52 | a new process has a list that agrees with its page table |
| ExecRun.SpawnReap | src/process.c:127 | load, create, reap: every allocator field is restored |
| ExecRun.RunFile | src/exec.c:182-215 | a process that is the image, exactly when there is a slot and the frames for it, with the allocator after it given; else nothing changed at all. Either way the kernel entries still stand in every space |
| SystemRun.ExecStep | src/exec.c:182-215 | starting a program is a step of the run below: a new process exactly when there is room for it, else nothing |
| SystemRun.StepSimulates | src/process.c:59-114 | every step of the machine (program start, fork, store, reap of a process whose list agrees with its page table) is a step of the eager one |
| SystemRun.RunSimulates | src/process.c:59-127 | over any run of program starts, forks, stores with their faults and reaps of processes whose list agrees with their page table, every process sees the bytes it would see on the machine that copies eagerly |
| SystemRun.RunFromStart | src/process.c:45-127 | the same from a machine without processes: after every such run the state is sound and every process sees the eager bytes |
| AgreeRun.StoreAgrees | src/idt.c:26 | a store leaves a list that agrees in agreement if and only if it is not a store of that process whose fault copies |
| AgreeRun.StepAgrees | src/process.c:45-127 | so does any step: program starts, forks, reaps, and stores and faults of other processes always leave it in agreement |
| AgreeRun.RunAgrees | src/process.c:45-127 | from a machine without processes, after any run: the list of every process that has made no copying store agrees with its page table |
| SchedulerProof.BootOk | src/process.c:45 | the state after start-up is sound |
| SchedulerProof.OneRunningPerCpu | src/process.c:247-337 | two running tasks of one CPU are the same task |
| SchedulerCurrent.OneEachIff | src/process.c:247-337 | a step keeps every task current on at most one CPU if and only if it is not a tick that takes up a task another CPU still has as current |
| SchedulerCurrent.TiedIff | src/process.c:52-337 | a step keeps what is current on a CPU owned by that CPU if and only if it does not make a task in, or clear, a slot another CPU still has as current |
| SchedulerCurrent.BootApart | src/process.c:45-337 | from start-up, over any run without such a step, no task is ever current on two CPUs |
| SchedulerCurrent.CurrentTwice | src/process.c:127-145 | from start-up: a process killed and reaped while it runs on CPU 1, its slot used again on CPU 0: one task is running and current on both |
| SchedulerProof.StepKeepsOk | src/process.c:147-337 | every operation keeps: a running task is the current one of its CPU, slot 0 never blocks, stops or dies; the one exception is exactly slot 0 joining a live kernel thread |
| SchedulerProof.RunKeepsOk | src/process.c:147-337 | so it holds over every interleaving without that one step |
| SchedulerProof.JoinOk | src/process.c:226-234 | joining keeps the invariant if and only if it is not that step |
| SchedulerProof.PickIsBest | src/process.c:281-289 | the nested scan returns the first ready task, around the table, of the best level, and nothing only when there is none |
| SchedulerProof.ScheduleChooses | src/process.c:247-337 | a tick that ends a quantum runs that task and never idles while one is ready |
| SchedulerProof.AheadShrinks | src/process.c:281-289 | moving to the next peer takes exactly that peer out of what is ahead of anyone else |
| SchedulerProof.TickBringsCloser | src/process.c:262-309 | each tick brings a waiting peer closer; each switch by exactly one place |
| SchedulerProof.EveryPeerRuns | src/process.c:262-309 | among n peers at the lowest level every one runs once the CPU has made n - 1 ticks that switch, or 12 (n - 1) ticks of any kind, whatever other steps leave the queue alone |
| SchedulerProof.OtherCpuDoesNotDisturb | src/process.c:247-337 | a tick of another CPU leaves the queue alone |
| SchedulerProof.StopContinueRevives | src/process.c:186 | stop then continue makes any process ready, even one that had ended |
| SchedulerEnds.EndedIff | src/process.c:147-234 | a step brings a zombie back if and only if it is a stop signal to it, or a sleep, waitpid or join that blocks on the CPU that still has it as current |
| SchedulerEnds.EndedRun | src/process.c:147-337 | over any run without such a step an ended process stays ended until its slot is cleared |
| SchedulerEnds.SleepRevives | src/process.c:148-180 | from start-up: a process killed while it runs sleeps at its next call, and the wakeup makes it ready |
| SchedulerEnds.StopRevives | src/process.c:186 | from start-up: a killed process is stopped and continued, and is ready |
| SchedulerEnds.BootstrapCanBlock | src/process.c:226-234 | from start-up: slot 0 joins a live kernel thread, and waits |
| SchedulerTable.Slots.CreateTask | src/process.c:52 | process creation in place ends in the table the function of the same operation gives |
| SchedulerTable.Slots.ForkCurrent | src/process.c:87-97 | the scheduling part of fork in place ends in the table the function of the same operation gives |
| SchedulerTable.Slots.WakeWaitingParent | src/process.c:182 | waking the first waiting parent in place ends in the table the function of the same operation gives |
| SchedulerTable.Slots.ExitCurrent | src/process.c:183 | exit of a process or thread in place ends in the table the function of the same operation gives |
| SchedulerTable.Slots.ReapProcess | src/process.c:127 | clearing a zombie slot in place ends in the table the function of the same operation gives |
| SchedulerTable.Slots.WaitFor | src/process.c:147 | waitpid in place ends in the table the function of the same operation gives |
| SchedulerTable.Slots.SleepOn | src/process.c:148-167 | going to sleep in place ends in the table the function of the same operation gives |
| SchedulerTable.Slots.WakeChannel | src/process.c:169-180 | waking a channel in place ends in the table the function of the same operation gives |
| SchedulerTable.Slots.SendSignal | src/process.c:186 | signals in place ends in the table the function of the same operation gives |
| SchedulerTable.Slots.ScanReady | src/process.c:281-289 | the nested scan in place ends in the table the function of the same operation gives |
| SchedulerTable.Slots.ChargeTick | src/process.c:262-274 | charging the tick in place ends in the table the function of the same operation gives |
| SchedulerTable.Slots.DispatchTo | src/process.c:296-311 | switching in place ends in the table the function of the same operation gives |
| SchedulerTable.Slots.FallBack | src/process.c:312-335 | falling back to slot 0 or to nothing in place ends in the table the function of the same operation gives |
| SchedulerTable.Slots.Tick | src/process.c:247-337 | the timer tick in place ends in the table the function of the same operation gives |
| Pipe.HandleRoundTrip | src/pipe.c:10-12 | a handle decodes to the pipe and side it was made for in every slot but slot 0, whose handles are rejected |
| Pipe.Ring.Open | src/pipe.c:12 | a fresh pipe is empty whatever the ring held |
| Pipe.Ring.Take | src/pipe.c:13 | reading takes the oldest bytes in order |
| Pipe.Ring.Append | src/pipe.c:14 | writing adds bytes behind the newest |
| Pipe.Ring.ReadTurn | src/pipe.c:13 | one turn of the read loop on the bytes in the pipe |
| Pipe.Ring.WriteTurn | src/pipe.c:14 | one turn of the write loop |
| Pipe.Ring.CloseTurn | src/pipe.c:15 | closing a side |
| Pipe.Ring.Write | src/pipe.c:14 | undisturbed, a non-negative result is exactly the bytes appended; PIPE_BLOCKED means none were and the pipe is full |
| Pipe.StreamKept | src/pipe.c:13-15 | bytes written equal bytes read followed by the bytes in the ring, across every operation |
| Ipc.Queue.SendMessage | src/ipc.c:14-31 | the first free slot takes the message; -1 when it is malformed or all are used |
| Ipc.Queue.ReceiveMessage | src/ipc.c:33-52 | the first message for the receiver, cut to its room |
| Ipc.Queue.CountPending | src/ipc.c:54-62 | the number of messages for a receiver |
| Ipc.FailsOnlyWhen | src/ipc.c:17-43 | sending fails exactly when all slots are used, receiving exactly when nothing is addressed to the receiver |
| Ipc.SendKeeps | src/ipc.c:14-31 | sending keeps every letter in exactly one slot or on exactly one receipt |
| Ipc.ReceiveKeeps | src/ipc.c:33-52 | so does receiving, which moves a letter of the receiver |
| Ipc.TakenOnce | src/ipc.c:33-52 | two receipts are for two letters |
| Ipc.SendOrderIff | src/ipc.c:14-31 | an accepted letter keeps the letters of a receiver in sending order if and only if it is for somebody else or no letter for the receiver lies behind its slot |
| Ipc.ReceiveOldest | src/ipc.c:33-52 | receiving keeps every such order and takes the oldest letter for the receiver |
| Ipc.ArriveInOrder | src/ipc.c:14-52 | letters arrive in sending order over every run in which each send to the receiver passes that test |
| Ipc.ArriveFromStart | src/ipc.c:9-52 | so from the empty queue on |
| Ipc.OrderIff | src/ipc.c:14-52 | with the letters so far in order: whatever is received after one more letter arrives in order if and only if it passed the test |
| Ipc.SecondMayArriveFirst | src/ipc.c:14-52 | a run from the empty queue after which the later of two letters has arrived first |
| BlockingProof.ActWakes | src/pipe.c:13-15 | a critical section makes nothing ready without then owing that wakeup |
| BlockingProof.ActSleeps | src/pipe.c:13-14 | a process goes to sleep only when what it wants is not there |
| BlockingProof.LocksKept | src/spinlock.c:11-33 | every lock is held by exactly the process inside, after every step |
| BlockingProof.StepKeeps | src/process.c:148-180 | every step of every interleaving keeps the invariant |
| BlockingProof.NoLostWakeup | src/process.c:148-180 | in every reachable state a process asleep on a channel whose condition is true is owed a wakeup |
| BlockingProof.WakeWakes | src/process.c:169-180 | the wakeup leaves nobody asleep on that channel |
| BlockingProof.QuietMeansNothingToDo | src/ipc.c:64-74 | when no process is inside a call, every sleeper has nothing to do |
| BlockingProof.SomebodyMoves | src/process.c:148-180 | no deadlock on locks: while any process is inside a call, some process can take its next step; the process lock is only ever taken last |
| BlockingProof.RunResults | src/pipe.c:13-15 | in every reachable state each stream is intact, each letter is in one place, and each write about to return reports exactly the bytes it appended |
| BlockingOwner.OthersRefused | src/pipe.c:13-15 | a call of a process that does not own a pipe leaves it alone and owes no wakeup for it |
| BlockingOwner.OwnerStep | src/pipe.c:13-15 | with distinct pids, a step leaves a process asleep on its own pipe as it is, and owes it nothing new, unless the step is a wakeup on that channel or comes from outside |
| BlockingOwner.OwnerSleepsOn | src/pipe.c:13-15 | with distinct pids, an owner asleep on its pipe with no wakeup still owed from an earlier owner of the slot sleeps on over every run that leaves it alone from outside: nobody else can fill or drain the pipe |
| BlockingOwner.MailChannels | src/ipc.c:64-74 | the one process number below 2^32 whose mail is waited for on the channel of a pipe |
| BlockingOwner.OwnerAlone | src/pipe.c:13 | from start-up: the owner of a pipe sleeps on it and nobody owes it a wakeup |
| DiskFs.ParseRoundTrip | src/diskfs.c:23-24 | an entry written byte for byte parses back, across a sector boundary too |
| DiskFs.CString | src/diskfs.c:20-21 | the string before the first zero byte |
| DiskFs.Find | src/diskfs.c:23 | the first live entry with this name |
| DiskFs.FreeEntry | src/diskfs.c:44 | the first entry not in use |
| DiskFsProof.MountAgrees | src/diskfs.c:37 | mounting a disk that agrees with memory gives memory back |
| DiskFsProof.TornEntry | src/diskfs.c:25-32 | an entry of which only the first of two sectors was rewritten has the first byte of the new name and the old size and place, and mounts as in use exactly when both are those of a file |
| DiskFsProof.WriteAgrees | src/diskfs.c:44 | after a write memory and disk agree, the name holds the new bytes and no other name changes |
| DiskFsProof.RemoveAgrees | src/diskfs.c:45 | after a remove they agree, the name is gone and no other changes |
| DiskFsProof.CreateCrash | src/diskfs.c:44 | after any prefix of the sector writes of a new file, mounting finds exactly the old or the new files; the one exception is exact: the slot straddles two sectors, only its first sector was written, and the slot still has the size and place of a file from a removal cut short before |
| DiskFsProof.RemoveCrash | src/diskfs.c:45 | after any prefix of the sector writes of a remove, exactly the old or the new files |
| DiskFsCrash.MountedAgreesIff | src/diskfs.c:37 | a mounted disk agrees with memory if and only if every file on it has a terminated name and no two have the same |
| DiskFsCrash.FormattedAgrees | src/diskfs.c:34-37 | a formatted disk mounts, agrees with memory and holds no file |
| DiskFsCrash.AttemptAgrees | src/diskfs.c:37-45 | any operation, whole or cut short at any sector write and mounted again: memory and disk agree, and every name holds what it should, except one that was being written over |
| DiskFsCrash.CrashRun | src/diskfs.c:37-45 | so over any run of operations, any of them cut short |
| DiskFsCrash.FormattedRun | src/diskfs.c:34-45 | so from a formatted disk on |
| DiskFsCrash.StaysNoneStale | src/diskfs.c:37-45 | the exceptional creation needs a removal that was cut short between the two sectors of its entry: no other step makes it possible |
| DiskFsProof.HistoryAgrees | src/diskfs.c:37-45 | after any history a fresh mount gives memory back, `file_count` counts the live entries, and every name reads the last bytes written to it |
| DiskFsDriver.Driver.WriteDirectorySector | src/diskfs.c:24 | one directory sector from the packed table |
| DiskFsDriver.Driver.WriteEntrySectors | src/diskfs.c:25-32 | the one or two sectors of an entry, as far as the device lets them through |
| DiskFsDriver.Driver.SaveSuper | src/diskfs.c:33 | the superblock |
| DiskFsDriver.Driver.ClaimSlot | src/diskfs.c:44 | finding or naming a slot in memory only |
| DiskFsDriver.Driver.WriteFile | src/diskfs.c:44 | the write, wherever the device stops: which writes are on disk, what memory holds, what is returned |
| DiskFsDriver.Driver.RemoveFile | src/diskfs.c:45 | the remove likewise |
| DiskFsDriver.Driver.ReadFile | src/diskfs.c:43 | sector by sector, the file content or -1 |
| DiskFsDriver.Driver.Mount | src/diskfs.c:37 | the table and count mounting leaves |
| VfsPath.PathNormalize | src/vfs.c:17-41 | equals splitting at slashes and folding `.` and `..`, with the 64-byte limits at every part |
| VfsPath.NormalForm | src/vfs.c:17-41 | a result is under 64 bytes, has no empty, `.` or `..` part, and is its own normal form |
| VfsPath.PartsOfJoin | src/vfs.c:35-38 | splitting gives back the parts that were joined |
| Vfs.Files.OpenSlot | src/vfs.c:49-70 | the lowest free descriptor, its file and offset, which file is created, and exactly when it fails |
| Vfs.Files.ReadSlot | src/vfs.c:72-85 | the bytes from the offset on, and exactly when it fails |
| Vfs.Files.WriteSlot | src/vfs.c:86-112 | the whole file from offset 0, or the old bytes followed by the new within the backend limit; the new offset, and exactly when it fails |
| Vfs.PutReadsBack | src/vfs.c:86-112 | a stored file reads back and no other name changes |
| Vfs.RemoveExact | src/vfs.c:145 | removing takes away one file; a disk file hidden behind a RAM file then shows |
| ZLog.FormatLine | src/zlog.c:36-57 | tag, message cut to fit, newline; shorter than the buffer |
| ZLog.AppendKeeps | src/zlog.c:82-127 | one append keeps the file within the limit, a suffix of everything appended, starting behind a newline |
| ZLog.RunKeeps | src/zlog.c:82-127 | so over any run of lines; the newest line comes last |
| ZLog.LogFile.EnsureLogFile | src/zlog.c:73-79 | the file exists, as it was or empty |
| ZLog.LogFile.Append | src/zlog.c:82-127 | it succeeds exactly when, and leaves exactly the files that, the specification says: ensure, read, cut, remove, rewrite, append |
| ZLog.AppendContent | src/zlog.c:82-127 | a successful append that stays on its backend leaves exactly the appended or rotated content |
| ZLog.AppendSucceeds | src/zlog.c:82-127 | an append succeeds if and only if there is a descriptor and memory for the copy and the file is there or can be made, except where rotation keeps nothing and uncovers a full file of that name on the disk |
| ZLog.LogPathNormal | src/zlog.c:8 | the log path has the normal form the file is stored under |
| LogRing.Log.Record | src/gui_lion.c:92-107 | undisturbed, the record is in its entry |
| LogRing.Log.Read | src/gui_lion.c:114-136 | undisturbed, the index-th of the last 64 records, cut to the room, or -1 |
| LogRingProof.StepKeeps | src/gui_lion.c:92-136 | every load and store of every thread keeps the invariant |
| LogRingProof.ReadIsWhole | src/gui_lion.c:114-136 | a read that returns 0 gives level and text of the one record it selected, whatever writers do meanwhile |
| LogRingProof.QuietRingHoldsAll | src/gui_lion.c:109-123 | with no writer under way each of the last 64 records is there, whole |
| TrbRing.Producer.Write | src/xhci.c:567-576 | writing a block in place, link handed over after the last of a segment |
| TrbRing.Producer.AdvanceLink | src/xhci.c:525-530 | the link changes hands, and the cycle with Toggle Cycle |
| TrbRing.ReportQueue.SubmitReport | src/xhci.c:1091-1119 | an error without an endpoint, nothing while a report is pending, else one block |
| TrbRing.ReportQueue.SubmitKeyboardReport | src/xhci.c:1121-1141 | nothing before configuration, without an endpoint or while a report is pending, else one block |
| TrbRing.SetupOk | src/xhci.c:513-543 | the rings start in order |
| TrbRing.FetchExact | src/xhci.c:567-576 | the controller takes a block exactly when there is one, and it is the next one submitted |
| TrbRing.FollowExact | src/xhci.c:525-530 | in a ring in order a controller at a link always gets across |
| TrbRing.SubmitSticks | src/xhci.c:525-530 | a block that does not fit leaves the controller unable to take another step |
| TrbRing.SubmitKeeps | src/xhci.c:1098-1112 | submitting a block that fits keeps every block and link in order |
| TrbRing.ExecutesInOrder | src/xhci.c:567-576 | over any interleaving of submissions that fit and controller steps, and any number of turns, what is executed is a prefix of what was submitted, in order |
| TrbRing.Drains | src/xhci.c:567-576 | left alone the controller executes all of it, in two steps a block |
| TrbRing.ExecutesIff | src/xhci.c:525-530 | after one more block everything is executed in the end if and only if the block fits: afterwards less than a whole turn is outstanding, or exactly one and the controller does not rest at a link |
| TrbRing.SomeRunSticks | src/xhci.c:525-576 | a run from the fresh ring that ends with a whole turn outstanding and a controller that never moves again |
| TrbRing.CommandRing | src/xhci.c:567-576 | the command ring, one segment, one command at a time: every run executes what was submitted, in order |
| TrbRing.ReportRing | src/xhci.c:1091-1119 | the interrupt ring, four segments: over any run of reports, controller steps and completions the pending flag keeps at most one report outstanding, and all are executed in order |
| TrbRing.ReportsFromStart | src/xhci.c:1091-1119 | from start-up: what is submitted are the accepted reports, and what is executed is a prefix of them, at most one short |
| TrbRing.EventQueue.NextEvent | src/xhci.c:614-629 | taking an event in place |
| TrbRing.EventQueue.AvailableCount | src/xhci.c:579-602 | the snapshot in place |
| TrbRing.TakeExact | src/xhci.c:614-629 | an event is seen exactly when one is there that was not taken, and it is the next one |
| TrbRing.AvailableExact | src/xhci.c:579-602 | the snapshot counts exactly the events published and not taken |
| TrbRing.PublishKeeps | src/xhci.c:614-629 | the ring stays in order while at most 256 events are outstanding |
| TrbRing.EventsInOrder | src/xhci.c:579-629 | over any run of publishing within that bound and taking, the taken events are the first of the published ones and the snapshot counts the rest |
| TrbRing.EventsFromStart | src/xhci.c:579-629 | so from the empty event ring on |
| Heap.Allocator.Malloc | src/heap.c:25-50 | kmalloc in place |
| Heap.Allocator.Free | src/heap.c:52-68 | kfree in place |
| Heap.MallocKeeps | src/heap.c:25-50 | live blocks stay disjoint, the block has the fewest pages that hold the size, and free plus live pages stay the same |
| Heap.MallocExact | src/heap.c:25-50 | it fails exactly for size 0, a size too big, 1024 live blocks, or no free run of so many frames |
| Heap.StartOk | src/heap.c:17-23 | the table after heap_init is in order |
| Heap.RunConserves | src/heap.c:17-68 | over any run of kmalloc and kfree, whatever sizes and pointers, live blocks stay disjoint and free plus live pages stay what was free at the start |
| Heap.FreeKeeps | src/heap.c:52-68 | so with kfree, which changes something exactly for the base of a live block |
| Heap.MallocFree | src/heap.c:25-68 | kmalloc, then kfree: allocator and table are as they were |

## Left out

- Hardware: port I/O, ATA polling, PCI, LAPIC, PIT, GDT, IDT, TSS, TLB and assembly. A sector read or write,
  a page fault and a device step are atomic. Memory is sequentially consistent.
- User interface, network, shell, USB enumeration, control transfers, the EP0 ring and command recovery.
- Multiboot parsing: start-up takes lists of ranges below 2^44.
- A bitmap word is its 32 bits and a page-table entry is a frame number with a record of its flag bits; the
  bit masks themselves are not modelled. A TRB is a record too, and its address, length and type bits are
  one parameter.
- Frames keep page-table words and user bytes in two separate arrays: the model does not capture a table
  frame read as bytes.
- `load_image`, process creation and `exec_run_file` work on memory passed as a value, with the loops of the
  source; the frame allocator, the page tables, fork and reap also in place.
- `process_exec_replace_current`, user-thread stacks, FPU state, file descriptors and saved frames of a
  process.
- The scheduler's memory effects (allocation, status words written to user memory) are boolean arguments;
  the process table with memory is modelled apart, in `ProcessTable`. Creating kernel and user threads,
  joining and setting a priority are functions of the table only.
- `schedule_count` and `steal_count`, work stealing (disabled in the source) and a tick dropped because the
  lock is taken.
- Restart of a blocked system call: after a sleep a process may make any call; so may a process whose
  partial write has returned its count while it was marked WAITING.
- Pids and other counters in `Blocking`, `Ipc` and `LogRing` do not wrap; a log record is started only when
  no writer is on its entry.
- The content of an existing file whose overwriting is cut short: its sectors are written in place
  (`DiskFsCrash.Overwrites`); every other file is kept.
- `DiskFsDriver.Driver.Mount` reads each entry from the sectors rather than overlaying the table's bytes, on
  a device whose sectors can be read.
- `Vfs`: the device performs every request and the backends are maps with the limits of the source; writes
  above 256 bytes to RAM are cut there while the full length is reported, and the log never makes one.
- ZLog.LogFile.Append: does not say what a failed append leaves behind.
- The RAM file table, the boot-time session header of the log and `contains_bytes`.
- `paging_map_kernel_page` and the contents of the kernel's identity and MMIO tables after start-up; these
  tables are arrays of their own, outside physical memory as the model has it.
