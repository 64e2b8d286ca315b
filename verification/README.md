# Verification of a teaching kernel with demand swapping

This project models the parts of the kernel, its user library and its file server whose
correctness depends on several functions at once, and proves what they promise.

* **Memory manager** (`VmState`, `VmMove`, `VmSteps`, `VmClock`, `VmEvict`, `VmOps`, `VmLookup`,
  `VmShare`, `Kernel`, `Syscalls`, `Envs`, `VmUser`). `VmState.Vm` is the whole state of
  `kern/pmap.c` as one value: frames, reference counts, page tables, the two reverse maps, the swap queue, the swap disk
  with its bitmap, the record pool and the TLB. `VmState.Inv` is the invariant that ties these
  redundant structures together. Class `Kernels.Kernel` holds the same state and its methods
  follow the C functions; each is proved against a state change on the value, and each state
  change is proved to keep the invariant and to be invisible, or local, to user programs. What
  user programs see is `ViewAt` (contents and permissions of a page) and `Shares` (which pages
  a store reaches).
* **Copy-on-write** (`Cow`, `ForkRun`): `fork`, `duppage` and `cow_entry` as sequences of those
  system calls, the isolation invariant `CowInv`, and `fork` among steps of other processes.
* **Scheduling and messages** (`Tailq`, `Sched`, `RoundRobin`): the intrusive tail queue at the
  level of its pointers, `schedule`, the environment system calls, blocking receive and
  one-slot send with delivery histories, and weighted round robin over runs of timer ticks.
* **Pipes** (`Pipe`, `PipeClose`): the ring buffer with preemption between any two statements,
  and close detection by reference counts that are read one after the other.
* **File server** (`FsState`, `Fs`, `Path`): block ownership under mapping and truncation, and
  path resolution with creation and removal.
* **Loops** (`Elf`, `PrintNum`): loading an ELF segment, printing a number.

An operation that can stop the machine returns `Outcome`: `Done`, or `Panic` with its reason.
Panics for lack of frames, swap blocks or records are results; the kernel's consistency checks
(on entries and reference counts in `swap` and `swap_back`, the two panics of `read_block`) are
asserted and never fail where the invariant holds. A non-ghost field is state of the program; the components `loc`,
`kind`, `reg` and `owner` of `Vm`, `owner` and `reserved` of the file system, `depth` of a
directory node and the message histories belong to the proof.

## Results that differ from what the code or its comments suggest

* `page_insert` of a queued frame can evict that frame with its own `page_alloc`
  (kern/pmap.c:251-252, 272). The model stops there with `SourceEvicted`. `PageInsert` says exactly
  when, for any queue: the call needs a frame, none is free, frames can be evicted, and the frame
  is among the victims that the clock chooses (`VmClock.Victims`; with at most 100 queued frames
  these are all of them). `MemMap` gives the exact condition for the system call before its two
  lookups (`SourceLost`), and `LostExample` a state in which it holds.
* `sys_mem_map` registers a page a second time when the destination already shares the source's
  registered frame (kern/syscall_all.c:218-221), for example when the same call is made twice
  (`SecondMapDoubles`). `MapDone` says exactly when: `Doubled`; the invariant is then lost
  whatever the bookkeeping (`NeverTwoRecords`). With source UCOW it can leave a frame partly
  registered; `Balanced` is the exact condition, and `CowFault` shows that the whole of
  `cow_entry` restores order.
* `cow_entry` is user code. Between its mapping of UCOW and the unmapping, the frame of a page that
  was not registered (the top page of the stack, for instance) is partly registered. If another
  process then runs `swap` and that frame is the victim, the check for a zero count fails;
  `WindowCounts` says that this is exactly the case in which it does.
* `sys_ipc_try_send` maps a page at address 0 if the receiver has passed 0 (kern/syscall_all.c:377,
  448). In the space with id 0 the refill of that page writes a TLB entry that a cleared entry also
  matches: `TlbRefill` keeps the TLB in order exactly if the page is not one of the first two of
  that space (`RefillIff`).
* `env_alloc` without a free address-space id never gives back the frame of the directory, and
  leaves the new id in the free environment (kern/env.c:265-281): `EnvAlloc` ends in the state
  `Leaked`, `Exofork` in `IdWasted`.
* `env_free` removes an environment from the run queue even if it is not on it (kern/env.c:449).
  `EnvDestroy` keeps the scheduler's invariant exactly if the environment is runnable, or waits for
  no message and has old links that do no harm (`UnlinkIff`); an environment that was never queued
  is removed through a null pointer. `SecondRemovalLoses` takes a runnable environment off the
  queue; an environment destroyed while it waits keeps `env_ipc_recving` (`DestroyedIff`).
* A freed file block stays in the block cache, and `map_block` does not clear a cached block, so
  a new indirect block can read as old data (fs/fs.c:138-149). `FileMapBlock` keeps ownership
  exactly unless `StaleAhead`: an indirect block is needed and the lowest free block does not read
  as zero. `StaleArises` shows how such a block comes about.
* `file_set_size` lets a file grow past ten blocks without an indirect block; making it smaller
  again stops the server (`FileSetSize`, `TruncatePanics`, `GrowTight`).
* `elf_load_seg` maps the first page twice unless the segment begins on a page, or its file part
  fills the first page, or it has no zero part (`MappedOnceIff`). The first page then ends up zero
  (`OthersImage`), and the last page may stay unmapped, because the zero pages are counted from
  the end of the file part; `LoadedIff` says exactly when the segment is loaded right.
* The pipe positions are 32-bit counters that are compared as numbers. What is read stays a prefix
  of what is written in every run (`Fifo`), but the reader's test for an empty pipe is right exactly
  until 2^32 bytes have been written (`TestsAreRight`). From then on a reader that is at its test
  never reads again, although bytes are unread (`WrapLosesBytes`); such a run exists
  (`WrapReached`).
* A pipe is tested for emptiness first and for the other end afterwards. A reader can therefore
  report the end of the file with bytes unread (`UnreadAtAnswer`), and a writer give up with room
  in the pipe (`RoomAtAnswer`). `PipeRead` and `PipeWrite` say what a short count does mean: the
  pipe was empty, or full, at the last test.

## Model

| member | source | states |
|---|---|---|
| Kernels.Kernel.constructor | kern/pmap.c:97-122 | after boot the frames above the kernel, all swap blocks and all records are free and no address space exists |
| VmSteps.BootKeeps | kern/pmap.c:586-602 | the invariant of the memory manager holds after boot, for any memory and TLB size |
| Kernels.Kernel.SdBlockAlloc | kern/pmap.c:823-833 | the lowest free swap block is taken; it panics exactly when none is free |
| Kernels.Kernel.TlbOut | kern/tlb_asm.S:3-33 | no entry for the address is left and no other entry changes, given that entries are unique |
| Kernels.Kernel.Turn | kern/pmap.c:722-738 | the clock loop ends within (queued frames with accessed set) + 100 steps and its victim is queued, wherever the hand was left |
| Kernels.Kernel.PickVictim | kern/pmap.c:717-740 | the victim is the one of the second chance: the 100th frame with a clear flag in queue order after the hand, or the hand's own frame if it comes first; exactly the frames passed lose their flags, no flag is set, and the next hand is the frame after the victim |
| VmClock.SweepMeans | kern/pmap.c:726-738 | the loop, from any state it reaches, computes that victim, also if the hand has left the queue and the loop goes around more than once |
| VmClock.OneRound | kern/pmap.c:726-738 | with the hand in the queue no frame is passed twice |
| VmClock.VictimsQueued | kern/pmap.c:717-740 | n calls of swap choose min(n, queued) frames, all of them queued, and every queued frame if there are at most n |
| Tailqs.Tailq.NextPointer | include/queue.h:186-235 | the stored next pointer of any element is its successor in the queue, and null outside the queue |
| Kernels.Kernel.AimRecordsAtBlock | kern/pmap.c:748-768 | the checks on entries never fire during the walk, and the frame's count falls by the length of its list |
| Kernels.Kernel.AimRecordsAtFrame | kern/pmap.c:680-702 | the checks on entries never fire during the walk back, and the count ends as the length of the list |
| VmEvict.WalkChecks | kern/pmap.c:748-768 | under the invariant every record of a list names an existing, matching entry at the moment the walk reaches it |
| VmEvict.WalkEnd | kern/pmap.c:607-665 | a record list is as long as the set of pages that live there, and the walk rewrites exactly those pages |
| VmEvict.QueuedCounts | kern/pmap.c:770-774 | a queued frame's pp_ref is its list length and its number of mappings, so the check for a zero count cannot fire |
| VmEvict.OddCounts | kern/pmap.c:748-774 | with a frame that may be partly registered the check fires exactly for that frame if it is |
| VmMove.SwapOutKeeps | kern/pmap.c:742-796 | evicting a queued frame keeps every part of the invariant, including TLB coherence |
| VmMove.SwapOutInvisible | kern/pmap.c:742-796 | no user program sees an eviction: contents, permissions and sharing stay as they were |
| VmMove.SwapInKeeps | kern/pmap.c:667-714 | bringing a block back keeps the invariant although no TLB entry is flushed |
| VmMove.SwapInInvisible | kern/pmap.c:667-714 | no user program sees a block come back |
| VmEvict.EvictsKeeps | kern/pmap.c:717-796 | the statements of swap amount to such an eviction |
| Kernels.Kernel.Swap | kern/pmap.c:717-796 | one queued frame goes to the lowest free block; it panics exactly when a frame is queued and the disk is full |
| Kernels.Kernel.SwapMany | kern/pmap.c:141 | a run of 100 calls evicts exactly the victims of the clock, and panics exactly when fewer blocks are free than frames are to be evicted |
| Kernels.Kernel.PageAlloc | kern/pmap.c:137-158 | a frame is obtained exactly when one is free, or one is queued and min(100, queued) blocks are free; user programs see nothing |
| VmOps.AllocatedFresh | kern/pmap.c:149-156 | the frame is zeroed, unmapped and not queued, and the invariant holds with it in hand |
| Kernels.Kernel.SwapBack | kern/pmap.c:667-714 | when its page_alloc has evicted the victims of the clock, the block is still in use with its records and is brought back; it panics exactly when page_alloc finds no frame |
| VmEvict.BringsBack | kern/pmap.c:667-679 | the block's bit survives the run of evictions |
| VmOps.BackPaged | kern/pmap.c:667-714 | afterwards all pages of the block are valid at the new frame, invisibly, and frames not evicted keep use and count |
| Kernels.Kernel.PageLookup | kern/pmap.c:292-321 | finds a frame iff the page is mapped, in memory or on disk, and leaves it valid; user programs see nothing; it panics exactly if the page is on disk and no frame can be had |
| Kernels.Kernel.PageDecref | kern/pmap.c:328-335 | the frame is freed exactly when the last reference goes |
| Kernels.Kernel.SwapRegister | kern/pmap.c:607-632 | a free record is moved to the frame's list and a frame without records joins the tail of the queue; it panics exactly when the pool is empty |
| VmSteps.RegisterKeeps | kern/pmap.c:607-632 | registering the last unregistered mapping of a frame keeps the invariant |
| Kernels.Kernel.SwapUnregister | kern/pmap.c:634-665 | a registered mapping loses its record, any other call changes nothing |
| VmSteps.UnregisterKeeps | kern/pmap.c:634-665 | the frame leaves the queue with its last record, and only that frame may be incomplete until the entry is cleared |
| Kernels.Kernel.PageRemove | kern/pmap.c:341-359 | the page is unmapped, nothing is seen to change elsewhere, no frame is lost; it panics exactly if the page is on disk and no frame can be had |
| VmOps.RemoveKeeps | kern/pmap.c:341-359 | unmapping keeps the invariant, also for the odd frame of a copy-on-write fault |
| Kernels.Kernel.WalkCreate | kern/pmap.c:192-228 | the page table exists afterwards and nothing that a mapping relies on has changed |
| Kernels.Kernel.PageInsert | kern/pmap.c:244-283 | the page is mapped to the frame with the permissions and the frame counts as accessed; for every state exactly one of: done, out of frames, own frame evicted, count full |
| VmOps.InsertedKeeps | kern/pmap.c:244-283 | the insertion keeps the invariant up to registration of that frame and is seen at that page only |
| VmOps.InsertedRegisters | kern/pmap.c:607-632 | registering after the insertion restores the full invariant for a fresh or a queued frame |
| VmOps.FreshPrivate | kern/pmap.c:244-283 | a fresh frame that is inserted is used by that page alone and reads as before |
| VmUser.FreeIffUnreferenced | kern/pmap.c:328-335 | between calls the free list is exactly the frames with reference count zero |
| VmUser.UsedIsReachable | kern/pmap.c:137-158 | a frame in use belongs to the kernel, is a directory or page table, or is mapped by somebody |
| VmUser.RecordPlace | kern/pmap.c:586-665 | every SwapInfo record is on exactly one of pool, frame lists and block lists |
| VmUser.RecordsMirror | kern/pmap.c:607-796 | a non-empty list names exactly the pages that live at its frame or block, each once |
| VmUser.SwappedOnce | kern/pmap.c:667-714 | a swapped page has exactly one record, on the list of its block, whose bit is set |
| Syscalls.FreshFrame | kern/pmap.c:137-158 | page_alloc as callers see it: a fresh frame, the same memory, no other frame in hand; it fails exactly if OutOfMemory |
| Syscalls.MapFresh | kern/syscall_all.c:143-157 | the page gets the zeroed frame for itself and is registered iff wanted; it fails exactly if a further frame or a record is missing |
| Syscalls.MemAlloc | kern/syscall_all.c:134-160 | an illegal address is refused without effect; otherwise the page gets a zeroed, swappable frame of its own, exactly if TwoFrames and a record can be had |
| VmLookup.TakenTwo | kern/syscall_all.c:143-153 | whether page_insert will have its frame after page_alloc is decided before both |
| Syscalls.PassiveAlloc | kern/tlbex.c:20-44 | panics on an address exactly in the forbidden ranges; otherwise a zeroed page that may be written at once, registered below the top of the stack, exactly if frames and record can be had |
| Syscalls.MemUnmap | kern/syscall_all.c:239-250 | an illegal address is refused; otherwise the page is unmapped and nothing else is seen to change, exactly unless it is on the disk and no frame can be had |
| Syscalls.FindPages | kern/syscall_all.c:194-206 | the two lookups tell whether the destination is to be registered, invisibly to user programs; whether the source will be lost is decided before them |
| Syscalls.MapInto | kern/syscall_all.c:208-226 | with the source in memory the destination gets its frame, with the exact effect on the records |
| Syscalls.MemMap | kern/syscall_all.c:180-227 | refused exactly for illegal addresses or an unmapped source; otherwise the destination reads as the source and shares with exactly its sharers, and is swappable afterwards as SwappableAfter says; it loses the source's frame exactly if SourceLost; with both pages in memory it succeeds exactly if Maps and a record is left; with Room it succeeds wherever the pages are |
| Syscalls.SendPage | kern/syscall_all.c:441-454 | the page part of sys_ipc_try_send: refused exactly for an unmapped page; otherwise the receiver's page reads as and shares with the sender's, the invariant is kept exactly unless Doubled; it loses the frame exactly if SendLost and succeeds with Room |
| VmLookup.SendLostAfter | kern/syscall_all.c:443-448 | the condition before the lookup is the one of page_insert after it |
| VmLookup.LostBefore | kern/syscall_all.c:194-199 | looking the destination up does not change whether the source's frame will be lost |
| VmLookup.LostAfter | kern/syscall_all.c:199-208 | after the lookup of the source the condition is the one of page_insert |
| VmLookup.LostExample | kern/pmap.c:251-272 | a state that satisfies the invariant and in which sys_mem_map loses the frame it maps |
| VmShare.SecondMapDoubles | kern/syscall_all.c:218-221 | mapping a registered page at the same destination again is the case in which a page gets two records |
| VmShare.WroteRegistered | kern/syscall_all.c:216-221 | a registering call leaves two records exactly if destination and source shared a registered frame before |
| VmShare.WroteUnregistered | kern/syscall_all.c:216-226 | a call that does not register keeps the invariant exactly in the balanced cases |
| VmShare.NeverTwoRecords | kern/syscall_all.c:218-221 | a page with two records contradicts the invariant for any bookkeeping |
| VmShare.QueuedIffRegistered | kern/syscall_all.c:197-206 | the test for a non-empty list says whether the page at hand is registered |
| Syscalls.TlbRefill | kern/tlbex.c:49-72 | the refilled entry equals the current entries of the pair; the TLB stays coherent exactly unless the page is one of the first two in the space with id 0; an unmapped page gets a zeroed, writable page first; it succeeds exactly if Refills, and panics for the address exactly on forbidden ones |
| VmSteps.RefillKeeps | kern/tlb_asm.S:35-57 | writing the pair over any TLB entry keeps uniqueness and coherence of all entries, unless its address and id are both zero |
| VmSteps.RefillIff | kern/tlb_asm.S:35-57 | for a mapped page that is exactly when they are kept |
| VmUser.HitIsCurrent | kern/tlbex.c:69-71 | in every state a valid TLB half is the page's current entry |
| VmUser.OneHit | kern/tlb_asm.S:3-33 | at most one entry translates a page |
| VmUser.UserStore | kern/tlb_asm.S:35-57 | a store through the TLB is seen by exactly the pages that share the memory |
| VmUser.UserLoad | kern/tlb_asm.S:35-57 | a load through the TLB reads what the page denotes |
| Envs.Spaces.AsidAlloc | kern/env.c:31-43 | the lowest unused id, or nothing exactly when all are used |
| Envs.Spaces.EnvAlloc | kern/env.c:203-302 | a new, empty address space with the lowest id, or the error with one frame lost exactly when all ids are used; no frame exactly if OutOfMemory |
| Envs.Spaces.FreePages | kern/env.c:427-433 | every entry of a page table is removed while pages come in and others are evicted |
| Envs.Spaces.EnvFree | kern/env.c:408-450 | no page, table or record of the space is left, its id is free, no frame is lost, and all others see the same memory; it succeeds if the pages are in memory, and otherwise stops only where a page is on the disk and no frame is to be had |
| Envs.FreeingEnd | kern/env.c:408-450 | dropping the emptied space keeps the invariant |
| Cow.StoreIsolated | user/lib/fork.c:21-113 | a store changes no other page unless that is a library page |
| Cow.CowPrivate | user/lib/fork.c:21-67 | giving a page a frame of its own keeps the isolation invariant |
| Cow.AllocIsolated | kern/syscall_all.c:134-160 | allocation keeps the isolation invariant unless asked for a page both writable and copy-on-write |
| Cow.UnmapIsolated | kern/syscall_all.c:239-250 | unmapping keeps it |
| Cow.RefillIsolated | kern/tlbex.c:49-72 | refills and passive allocation keep it |
| Cow.TeardownIsolated | kern/env.c:408-450 | the end of an environment keeps it |
| Cow.CowShared | kern/syscall_all.c:180-227 | sharing keeps it if no writable private page is shared afterwards |
| Cow.DupPage | user/lib/fork.c:90-113 | child and parent read what the parent read and share it; in both a private writable page is copy-on-write and read-only, any other keeps its permissions; isolation holds again after the second call; for a page in memory it succeeds exactly if Maps and a record is left |
| Cow.CopySpace | user/lib/fork.c:142-145 | after the loop the child denotes the parent's contents at every page from UTEMP to the top of the stack and nobody else changes; it succeeds if Affords |
| Cow.Fork | user/lib/fork.c:126-152 | the same for the new space made by sys_exofork, with the permissions of every page as duppage promises, or the error without effect on memory; with AffordsFork it succeeds and has a child exactly if an address-space id is free |
| Cow.FaultUndoesFork | user/lib/fork.c:21-113 | a fault on a page that fork has split, in parent or child, is not refused while the page is in memory, and gives back contents and permissions from before the fork, privately |
| Cow.FaultThenFork | user/lib/fork.c:21-113 | a private page that has faulted and is forked again is out of the reach of everybody else's stores |
| ForkRun.ChildKeeps | user/lib/fork.c:142-145 | with any isolation-keeping steps of others and of the parent between the rounds, a page of the child reads from its round on as the parent's page read then; a library page keeps its permissions |
| Cow.CopyContents | user/lib/fork.c:48 | the target page reads as the source page, whatever the refills of the copy evict |
| Cow.LoneRecord | kern/pmap.c:634-665 | if the mapping of UCOW left the frame partly registered, UCOW has its only record |
| Cow.WindowCounts | user/lib/fork.c:50-54 | between the last two calls of cow_entry swap's check of the count fails exactly if the victim is the frame of a page that was not registered |
| Cow.CowFault | user/lib/fork.c:21-67 | the page becomes a private writable copy of what it read, not copy-on-write, library and dirty bit and swappability as before, nothing else changes, and records are in order again; user_panic exactly for a page not present or not copy-on-write; with two free frames and a record it succeeds |
| Tailqs.Tailq.InsertTail | include/queue.h:202-208 | the pointers represent the queue with the element appended |
| Tailqs.Tailq.InsertHead | include/queue.h:192-200 | the pointers represent the queue with the element in front |
| Tailqs.Tailq.Remove | include/queue.h:228-235 | a member is unlinked; an element just removed is removed again without changing any pointer |
| Tailqs.UnlinkIdempotent | include/queue.h:228-235 | the writes of a second removal with nothing in between restore the same pointers |
| Tailqs.UnlinkIff | include/queue.h:228-235 | removing an element that is not in the queue leaves the queue intact exactly if its old links agree with the pointers of the members they name |
| Tailqs.SecondRemovalLoses | kern/env.c:446-449 | if another element was appended after the last one was removed, removing the latter again takes the former off the queue |
| Tailqs.Tailq.RemoveAny | include/queue.h:228-235 | the macro's writes for any element with a back link; the queue survives exactly for members and harmless links |
| Tailqs.Tailq.RemoveAndClear | kern/pmap.c:658-664 | elements outside the queue keep null links |
| Sched.Scheduler.constructor | kern/env.c:160-173 | all environments are free and the run queue is empty |
| Sched.Scheduler.Schedule | kern/sched.c:17-62 | keeps the invariant; a runnable curenv with slices left that does not yield goes on, otherwise it goes to the tail, the others keep their order and the head runs with its env_pri slices, so a yielding curenv runs again only if it is the only one; fails exactly when nothing is runnable; a second removal is harmless |
| SchedState.ScheduledTurns | kern/sched.c:7-10 | the specification of schedule has this meaning for every state in which it may be called |
| SchedState.ScheduledKeeps | kern/sched.c:17-62 | after schedule the queue again holds each runnable environment once and curenv is runnable |
| Sched.Scheduler.Exofork | kern/syscall_all.c:266-288 | the first free environment becomes a stopped child with a new id, the caller as parent and its priority; fails exactly without a free environment, with no effect, or without an address-space id, with only an id used up |
| Sched.Scheduler.EnvCreate | kern/env.c:388-404 | the new environment is runnable with the given priority, at the head of the queue |
| Sched.Scheduler.Lookup | kern/env.c:116-153 | the live environment with this id that the caller may use, or none exactly if there is none |
| SchedState.IdsUnique | kern/env.c:94-101 | live environments have different ids, and the next id is above every id ever made |
| Sched.Scheduler.SetEnvStatus | kern/syscall_all.c:302-326 | error cases without effect; otherwise only the status changes, and the environment joins the head of the queue or leaves it; the invariant is kept exactly unless the target waits for a message or the caller stops itself |
| Sched.Scheduler.IpcRecv | kern/syscall_all.c:375-398 | the caller blocks and another environment runs, or none exactly if no other is runnable |
| Sched.Scheduler.IpcTrySend | kern/syscall_all.c:416-456 | error cases in order; a waiting target gets value and sender, is runnable at the tail of the queue and is otherwise as before, even if the call then fails on an unmapped page |
| SchedState.DeliveredKeeps | kern/syscall_all.c:428-439 | delivery overwrites no message that is still to be read |
| Sched.Scheduler.ReadFrom | user/lib/ipc.c:26-28 | reading the sender first keeps the invariant under preemption |
| Sched.Scheduler.ReadValue | user/lib/ipc.c:24-32 | ipc_recv returns the last delivered message, value and sender together |
| SchedState.ExactlyOnce | user/lib/ipc.c:12-32 | returned messages are the delivered ones in order, except one that may be on its way; a receiver that waits is not runnable |
| Sched.Scheduler.EnvDestroy | kern/env.c:408-465 | any live environment is freed, or the kernel writes through a null pointer exactly if it was never queued; the invariant survives exactly if it is runnable, or waits for no message and has harmless links; if it was the caller another one runs, or none exactly if none is runnable |
| SchedState.DestroyedIff | kern/env.c:446-449 | freeing an environment keeps the tables in order exactly if it is not waiting for a message |
| RoundRobin.TickTurns | kern/sched.c:36-61 | a timer tick turns the queue as the specification says and keeps all priorities |
| RoundRobin.CycleBegins | kern/sched.c:36-61 | the first dispatch after boot, or after the end of the running process, begins a cycle |
| RoundRobin.CycleOrder | kern/sched.c:17-62 | after as many ticks as the sum of priorities the queue is in the same order |
| RoundRobin.CycleSlices | kern/sched.c:17-62 | within a cycle each environment runs exactly its env_pri consecutive slices |
| RoundRobin.FairWindow | kern/sched.c:17-62 | in every window of one period, wherever it begins, each environment runs exactly env_pri slices |
| RoundRobin.TickOwner | kern/env.c:484-519 | the environment that runs between two ticks is the one the turning queue names |
| PipeData.Fifo | user/lib/pipe.c:132-205 | in every run of every interleaving what is read is a prefix of what is written and at most 32 bytes are in between |
| PipeData.TestsAreRight | user/lib/pipe.c:148-193 | the test of the read loop is right exactly while fewer than 2^32 bytes have been written; that of the write loop always |
| PipeData.WrapLosesBytes | user/lib/pipe.c:148 | once 2^32 bytes have been written, a reader at its test has bytes left to read and reads none of them in any continuation of the run |
| PipeData.WrapReached | user/lib/pipe.c:148 | a run reaches that state |
| Pipes.Pipe.PipeRead | user/lib/pipe.c:132-162 | the buffer receives the next unread bytes in order, whatever the writer does between statements; fewer than n only after a positive answer of _pipe_is_closed, and if the last test found every byte read, or 2^32 bytes written; three statements for each byte are enough if the bytes are there, or once every answer is positive |
| Pipes.Pipe.PipeWrite | user/lib/pipe.c:175-205 | a prefix of the bytes is written, all of them unless _pipe_is_closed answered yes and the last test found the pipe full; three statements for each byte are enough if there is room, or once every answer is positive |
| PipeData.UnreadAtAnswer | user/lib/pipe.c:148-150 | a run in which a reader comes to the answer of _pipe_is_closed with a byte unread |
| PipeData.RoomAtAnswer | user/lib/pipe.c:183-185 | a run in which a writer comes to the answer with a free slot |
| PipeClose.CountsOrdered | user/lib/pipe.c:95-117 | the pipe page has at least as many references as both descriptors together |
| PipeClose.StepKeeps | user/lib/fd.c:94-176 | every step of dup, close, fork, exit and of the check keeps this, under any interleaving |
| PipeClose.ClosedIsSound | user/lib/pipe.c:107-116 | with unchanged env_runs both counts are of one moment, and equal counts mean that the other end is referenced nowhere |
| PipeClose.OpenIsSound | user/lib/pipe.c:107-116 | unequal counts mean that the other end is open, unless somebody is between two steps of dup or close |
| PipeClose.AlwaysSound | user/lib/pipe.c:95-117 | the same for every state of every run from the creation of the pipe |
| PipeClose.ClosedForever | user/lib/fd.c:128-176 | an end that is referenced nowhere never comes back, however the run goes on |
| PipeClose.OrderMatters | user/lib/pipe.c:242-248 | with the order of pipe_close reversed the counts would be equal while the other end is open |
| Fs.FileSystem.AllocBlockNum | fs/fs.c:212-225 | the lowest free block from 3 on, or nothing exactly when none is free |
| Fs.FileSystem.AllocBlock | fs/fs.c:229-245 | the lowest free block; NoDisk exactly if none is free, and only otherwise NoMem; a failed mapping leaves the bitmap as it was |
| Fs.FileSystem.FreeBlock | fs/fs.c:194-204 | an invalid number changes nothing |
| Fs.FileSystem.FileBlockWalk | fs/fs.c:364-399 | exact answer in every case; a new indirect block is the lowest free one, and ownership is kept exactly if that reads as zero; the panics of read_block do not fire |
| Fs.FileSystem.FileMapBlock | fs/fs.c:414-438 | exact answer in every case: the block of a used slot, a free block for an empty one if wanted, each error only for its reason; ownership is kept exactly unless a stale block becomes the indirect block, and then the slot names the returned block and all other places are as before |
| FsState.NewSlotKeeps | fs/fs.c:425-433 | a free block given to an empty slot keeps every block with exactly one owner |
| FsState.NewIndirectIff | fs/fs.c:376-392 | a new indirect block keeps ownership exactly if its words read as zero |
| FsState.StaleIndirect | fs/fs.c:138-149 | stale words cannot be squared with any assignment of owners |
| FsState.StaleFilled | fs/fs.c:425-433 | nor can they after another slot of the file has been filled |
| FsState.StaleArises | fs/fs.c:138-149 | a data block that is written and then freed is such a stale block unless its words are zero |
| FsState.StaleExample | fs/fs.c:376-392 | the smallest state in which ownership is lost |
| FsState.OwnDistinct | fs/fs.c:364-438 | no two places name the same block and named blocks are in use |
| FsState.Conservation | fs/fs.c:194-245 | free, owned and reserved blocks together are always all blocks |
| Fs.FileSystem.FileClearBlock | fs/fs.c:444-458 | exact error cases; otherwise one slot is emptied and its block freed |
| Fs.FileSystem.FileTruncate | fs/fs.c:706-730 | every block that holds a byte below the new size keeps its slot, all others are emptied, and the indirect block if not needed; it panics exactly if a slot past the tenth cannot be reached |
| FsState.FreedExactly | fs/fs.c:706-730 | a block becomes free exactly if the place that owned it was emptied |
| Fs.FileSystem.FileSetSize | fs/fs.c:734-750 | shrinking truncates, growing changes the size only |
| FsState.GrowTight | fs/fs.c:734-750 | growing keeps the indirect-block rule exactly if the file has an indirect block when it needs one |
| FsState.MappedTight | fs/fs.c:414-438 | mapping a block below the size keeps slots past the size empty |
| Tree.SlashSeparates | fs/fs.c:578-583 | the components of a path with a slash are the components of its two parts |
| Tree.TrailingSlash | fs/fs.c:593-651 | trailing slashes do not matter |
| Tree.RepeatedSlash | fs/fs.c:593-651 | repeated slashes do not matter |
| Tree.ResolveMeans | fs/fs.c:593-651 | each result of walk_path with the structures it has passed: only directories, names that fit, and why it stopped |
| Tree.FoundIff | fs/fs.c:593-651 | a file is found exactly if a chain of directory entries with the components as names leads to it |
| Paths.Directories.DirLookup | fs/fs.c:505-535 | the first structure with the name, if there is one |
| Paths.Directories.WalkPath | fs/fs.c:593-651 | the result of looking up the non-empty components one after the other from the root, with the parent and last name exactly when only the last is missing |
| Paths.Directories.FileCreate | fs/fs.c:672-692 | error cases without effect; otherwise the first free structure of the directory has the name, in a new block exactly if there was none, and nothing else has changed |
| Tree.SlotGives | fs/fs.c:540-574 | the structure given out is the first free one, and the directory grows by a block of free ones exactly if it has none |
| Tree.CreateThenOpen | fs/fs.c:672-692 | opening the path after creation yields the created slot, and names stay unique |
| Tree.CreatedKeeps | fs/fs.c:540-574 | every path that was found before creation names the same file afterwards |
| Paths.Directories.FileRemove | fs/fs.c:796-818 | error cases without effect; otherwise the file is emptied and its name cleared, the root included, unless file_truncate stops the server |
| Tree.RemoveThenOpen | fs/fs.c:796-818 | opening the path after removal finds only the directory and the missing name |
| Tree.RemoveRoot | fs/fs.c:796-818 | after the removal of the root only the root itself can be opened |
| Tree.RemovedOthers | fs/fs.c:796-818 | removing a file that is no directory changes no other path |
| Elf.ElfLoadSeg | lib/elfloader.c:25-61 | the mapper is called exactly as specified, up to its first failure |
| Elf.GoodLoads | lib/elfloader.c:25-61 | in the good cases the calls map consecutive pages, each once, with the right bytes |
| Elf.SegmentLoaded | kern/env.c:321-345 | every byte below p_filesz is the file byte and every byte up to p_memsz is zero |
| Elf.MappedOnceIff | lib/elfloader.c:25-61 | each page is mapped exactly once iff the segment is one of the good cases |
| Elf.OthersImage | lib/elfloader.c:25-61 | in the other cases the first page ends up zero, and which pages are mapped |
| Elf.LoadedIff | lib/elfloader.c:25-61 | every byte is loaded right iff the segment is one of the good cases, or its file part is zero and the zero pages reach its end |
| PrintNum.Print | lib/print.c:209-282 | the output is sign, digits and padding: spaces after a left-adjusted number, zeros after the sign, other padding in front; letters are of the case asked for; all accesses lie within length + 70 characters |
| PrintNum.OutputLength | lib/print.c:239-263 | exactly max(width, digits + sign) characters |
| PrintNum.RoundTrip | lib/print.c:209-282 | reading the output back gives sign and number, for every 32-bit number, base, width, alignment and padding |

## Left out

- Update in place of the memory manager's tables: arrays are used for RAM, swap disk, bitmap, TLB and the file system's bitmap; reference counts, lists and page tables are sequences and maps that the methods reassign. The run queue is the pointer-level tail queue; the swap queue and the free lists are the sequences such lists represent.
- Page-table entries: one entry per mapped page with flags V, SWAPPED, D, COW, LIBRARY and DIRTY; the constant cacheability bits, the G bit and the bits of the page directory are not modelled. Virtual addresses are page numbers.
- Addresses from UTOP on: the mappings of UPAGES and UENVS, the self-map at UVPT and what user code reads through it (vpt, vpd); TlbRefill is stated below UTOP, PassiveAlloc below UVPT.
- Cow.Fork: the method runs the loop without steps of others between two duppages; ForkRun states what holds with them, on runs whose steps are given by their effect. A single duppage is one step. That it succeeds is stated for a parent in memory with enough free frames and records (`AffordsFork`), not exactly.
- Cow.CowFault: the calls of cow_entry are one step but for WindowCounts, and its memcpy is one load and one store of a page. That it succeeds is stated for two free frames and a free record. A fault on UCOW itself is not modelled.
- Sched.Scheduler.IpcTrySend: the scheduler and the memory manager are separate models; whether the page to be sent is mapped is a parameter here, and Syscalls.SendPage is the page part.
- Permission checks of the memory system calls: environments are given by their page directory. envid2env is modelled for the environment calls.
- RoundRobin.FairWindow: the set of runnable environments is fixed and priorities are positive; env_runs and envids do not wrap.
- PipeClose.AlwaysSound: creation, fork and the end of a process are single steps; the counter env_runs does not wrap around between two reads.
- Directory blocks: a new directory block reads as zero, lookups of directory blocks do not fail, and directories are trees; block numbers and directory contents are separate models, so whether file_truncate returns is a parameter of FileRemove.
- Disk contents of files, flushing, dirty bits, the super block and crash consistency.
- Segment addresses and sizes are unbounded numbers; the ELF header check and the loop over program headers only select segments.
- PrintNum.Print: the width is not negative, which is what the format parser passes.
- Devices, trap frames, boot memory allocation, format strings, the shell and the user utilities.
