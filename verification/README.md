# A verified model of the FTL kernel's core

FTL is a small microkernel in Rust. This project models the parts of it whose correctness depends on loops, shared
state and several files at once, and proves what they promise, for every input, every run and every interleaving.

`dafny verify dfyconfig.toml` checks the whole project. No file depends on anything outside this directory.

## What is modelled

**Threads, scheduler and upcalls** (`monitor.dfy`, `protocol*.dfy`, `kernel.dfy`, `system_calls.dfy`). A step machine
over any number of CPUs. A step is one effect on shared memory: a critical section, a reference-count update, a
run-queue operation, an access to the upcall's user data. `unblock` holds the thread's lock over several steps. Server
code runs on the kernel stack with no lock held and may call any thread operation on any thread it can reach. A monitor
that sees only events, and knows nothing of queues, program counters or counters, judges whole runs. The proof keeps
books: per thread, twelve counts of what the frames on all kernel stacks hold, balanced against the thread's fields by
every step. `kernel.dfy` takes the code function by function: each is a sequence of the machine's steps on one CPU.
Between any two steps of a function every other CPU may take any steps that it can, and a function that needs a
thread's lock waits until the lock is free, which `protocol_locks.dfy` proves to end. What a function returns is stated
by the state in which its critical section ran.

**Page allocator** (`alignment.dfy`, `memory.dfy`). Bitwise operators defined digit by digit, so that the masks of the
alignment helpers are proved to be division; an in-place bubble sort; the subtraction of reserved ranges from RAM; the
bump regions; and the allocator that boot fills and every other part draws from.

**Kernel heap** (`heap.dfy`, `malloc.dfy`, `global_allocator.dfy`). `HeapSpec.Heap` says what the heap means: blocks
that tile chunks, and an order of free blocks. The laws are proved of it, over runs. `LinkedListAllocator` is headers
in memory chained by `next` fields, proved to refine it; `GlobalAllocator` grows it from the page allocator.

**Virtual memory** (`paging.dfy`, `pagetree.dfy`, `machine.dfy`, `pagetable.dfy`, `vmarea.dfy`, `vmspace.dfy`). `Walk`
is the processor's four-level walk (Intel SDM volume 3A, "4-Level Paging"), with huge pages and the access rights of
all levels. The tables of a space are a tree of distinct frames; `map` is proved against `Walk`. The tables below the
boot table are shared by all spaces. Whatever maps pages only extends the machine: it fills empty entries of its own
tables and the kernel's, so every space it does not own keeps every load (`VmSpaces.VmSpace.Bystander`). A `VmArea` is
a flat array of bytes. `Load` is the byte that a user-mode load gives; `read_bytes` and the process image are stated
by it.

**Process image** (`stack.dfy`, `stack_builder.dfy`, `process.dfy`). What a process finds at `sp`, as section 3.4.1 of
the System V AMD64 ABI lays it out, and in its segments (System V gABI chapter 5, "Program Header"), through page
tables, areas and allocator down to physical frames.

**Initial file system** (`initfs.dfy`). The archive reader (cpio(5), "New ASCII Format"), with an encoder as its
inverse.

## Behaviours stated as the code has them

- `VmSpace::map` does not undo page-table entries when it fails part-way. `VmSpaces.VmSpace.Map` says how many pages
  stay, that they translate to the area's frames, and that nothing else changed.
- `read_bytes` returns Ok after filling a prefix when the range runs off the last mapping.
  `VmSpaces.VmSpace.ReadBytes` says exactly when, and how far.
- A comment in `scheduler.rs` (line 84) says that a thread can be blocked while it is in the run queue. In no run can
  it: an entry found not runnable is of a terminated thread (`ProtocolTheorems.SchedulerIsSafe`).
- The guard of the page table's `map` is meant to keep kernel mappings immutable, and does not for some addresses.
  `PageTables.PageTable.Map` proves that the kernel's tables are unchanged if and only if the address does not stray
  (`PageTables.Strays`: it is in the kernel's slot and nothing is mapped there yet), or a table is missing and no page
  can be had for it. `PageTables.StraysExactly` names the addresses that stray while the boot table is as boot made
  it; a stray page leaves all the others stray (`PageTables.StraysStill`), and every space sees it
  (`PageTree.KernelIsShared`). No user address below 2^47 strays (`PageTables.UserNeverStrays`), no present entry ever
  changes, and user code can load nothing through the kernel's slot (`VmSpaces.KernelSlotFaults`).
- The list of mappings and the hardware can disagree: a failed `map` leaves pages behind, and addresses 2^48 apart
  share a page, so that a mapping at 2^48 makes loads at 0 succeed (`VmSpaces.HighMappingShares`).
  `VmSpaces.VmSpace.LoadsExactly` names the pages from which user code can load, and `VmSpaces.VmSpace.AgreesExactly`
  proves exactly when the list agrees.
- In a debug build `align_up` panics when `value + align` overflows; in a release build it wraps to zero. Both are
  stated (`Alignment.CheckedAlignUpIsCeiling`, `Alignment.AlignUpIsCeiling`), and so is what follows for a segment of a
  huge size (`Processes.LoadSegment`).

## Model

| member | source | states |
|---|---|---|
| ProtocolTheorems.RunsAreLawful | kernel/src/thread.rs:89-181 | every run over any number of CPUs, in any interleaving, is accepted by a monitor that sees only events |
| ProtocolTheorems.TerminatedUpcallIsLast | kernel/src/thread.rs:103-139 | in every run the Terminated upcall comes after a request, when as many Syscall upcalls have ended as began; none begins or ends afterwards; it is issued at most once |
| ProtocolTheorems.TerminatedUpcallIsDue | kernel/src/thread.rs:106-139 | in every reachable state `in_upcalls` is the number of upcalls in flight, and a terminated thread with none has had its upcall issued or has exactly one activation about to issue it |
| ProtocolTheorems.RightToRun | kernel/src/scheduler.rs:60-93 | queue entries, CPUs running the thread and CPUs about to number one if Runnable, none if Blocked outside unblock's window, at most one if Terminated |
| ProtocolTheorems.SchedulerIsSafe | kernel/src/thread.rs:89-181 | a thread is entered, and its registers touched, only while no CPU runs it; the assertion in handle_syscall never fails; only entries of threads asked to terminate are discarded |
| ProtocolTheorems.WakeUpIsKept | kernel/src/thread.rs:143-153 | when unblock has enqueued a thread that entry is its one right to run and the next step makes it Runnable; when the queue could not grow there is none and it stays Blocked |
| ProtocolLocks.LockHolderAdvances | kernel/src/thread.rs:143-153 | in every reachable state in which a thread is locked, the CPU that its lock names holds it inside unblock, can take its next step whatever the others do, and is at most three steps from the release |
| ProtocolLocks.HolderProgresses | kernel/src/thread.rs:143-153 | in every step of every run the holder's move brings the release one nearer, the last one releases, and no other CPU's move changes holder or distance |
| ProtocolLocks.LockIsReleased | kernel/src/thread.rs:143-153 | over any stretch of a run in which a CPU keeps a thread's lock, it moves at most twice |
| ProtocolLocks.NoDeadlock | kernel/src/thread.rs:89-181 | in every reachable state a CPU in the kernel can move, or waits for a thread's lock that another CPU holds which can move |
| ProtocolLocks.RunLocks | kernel/src/thread.rs:143-153 | in every reachable state a CPU is inside unblock's window on a thread if and only if the thread's lock names that CPU |
| ProtocolTheorems.UserDataIsLive | libs/rust/ftl_api/src/upcall.rs:12-73 | no upcall borrows or reclaims the user data before it was written or after it was reclaimed |
| ProtocolTheorems.ReferencesAreConserved | kernel/src/shared_ref.rs:114-255 | in every reachable state the counter is the number of queue entries, references held by CPUs and the handle; it is zero exactly when the object was freed |
| ProtocolTheorems.FreedIsLast | kernel/src/shared_ref.rs:219-238 | an object is freed at most once, and nothing happens to it afterwards |
| ProtocolTheorems.NoUseAfterFree | kernel/src/shared_ref.rs:219-255 | in every reachable state, every thread named by the run queue, by a CPU's current thread or by any frame of any kernel stack exists and has not been freed |
| ProtocolTheorems.UserModeHoldsNothingElse | kernel/src/thread.rs:212-281 | a CPU in user mode holds the one reference of its current thread and no other, although the calls that led there never returned |
| ProtocolTheorems.Step | kernel/src/syscall.rs:4-13 | every step of every CPU keeps the invariant and reports only what the monitor allows |
| ProtocolTheorems.RunInv | kernel/src/thread.rs:89-281 | every state of every run satisfies the invariant with what the run has reported |
| KernelCode.Kernel.AwaitLock | kernel/src/thread.rs:93-106 | waiting for a thread's lock ends, since its holder can always move on, and only the other CPUs have moved meanwhile |
| KernelCode.Kernel.HandleSyscall | kernel/src/syscall.rs:4-13 | from the SYSCALL instruction on, whatever the other CPUs do between its steps: the first step reports that the thread left user mode and changes no thread; the thread that trapped is the current one; its upcall starts, and is reported, exactly if it is runnable when the critical section runs, else it was terminated; the CPU ends without a current thread, in the upcall or in return_to_user |
| SystemCalls.TrapIsAnswered | kernel/src/arch/x64/syscall.rs:48-50 | in every run, between a system call on a CPU and the next time that CPU enters user mode, it started the upcall of the calling thread, or found it terminated in the critical section |
| SystemCalls.UpcallAnswersTrap | kernel/src/thread.rs:92-106 | in every run, a Syscall upcall begins only on a CPU on which its thread made a system call that nothing has answered since |
| KernelCode.Kernel.HandleInterrupt | kernel/src/arch/x64/idt.rs:176-201 | from user mode or idle: the first step changes no thread and not the queue; then all that return_to_user promises, with the interrupted thread as the current one |
| KernelCode.Kernel.FinishBoot | kernel/src/boot.rs:25-30 | once the server has been started, return_to_user without a current thread |
| KernelCode.Kernel.CreateThread | libs/rust/ftl_api/src/thread.rs:117-127 | the kernel object is allocated before the user data is written, both before other server code can reach the thread, which is blocked then; if the allocation fails only the box is released |
| KernelCode.Kernel.UseArc | libs/rust/ftl_api/src/thread.rs:151-162 | cloning and dropping an Arc in server code count it; the handle lives as long as an Arc does, and the thread is freed, and that reported, exactly if the last drop takes its last reference |
| KernelCode.Kernel.FinishTerminated | libs/rust/ftl_api/src/thread.rs:105-108 | the Arc taken out of the user data keeps the handle until the upcall is over; the thread is freed, and that reported, exactly if the last Arc goes and no other reference is left; the CPU goes on where the upcall was called |
| KernelCode.Kernel.EnterUpcall | kernel/src/thread.rs:92-101 | in the state in which the critical section runs the thread is runnable or terminated, so the assertion holds; if runnable it is blocked next, with one more upcall in flight |
| KernelCode.Kernel.LeaveUpcall | kernel/src/thread.rs:106-111 | the upcall is counted down; the Terminated upcall is due exactly if the state just after has no upcall in flight and is terminated |
| KernelCode.Kernel.FinishSyscall | kernel/src/thread.rs:105-116 | the upcall is counted down and its end reported; the CPU goes on in the Terminated upcall of that thread exactly if it is due, which is reported, otherwise in return_to_user |
| KernelCode.Kernel.ReturnToUser | kernel/src/scheduler.rs:60-93 | a current thread that is runnable when it is asked becomes the first in the queue, or the CPU panics because the queue cannot grow; otherwise it ends in user mode in a thread found runnable, or idle having found the queue empty; every queue entry thrown away on the way was of a terminated thread |
| KernelCode.Kernel.PickNext | kernel/src/scheduler.rs:73-92 | the pop loop ends in a thread found runnable, or idle having found the queue empty; it goes on for as many turns only if the queue was that long or pushes were that many meanwhile; every entry thrown away was of a terminated thread |
| KernelCode.Kernel.PoppedIsRunnable | kernel/src/scheduler.rs:84-88 | a popped thread found not runnable is terminated in the state in which it was looked at |
| KernelCode.Kernel.Terminate | kernel/src/thread.rs:122-140 | by the state in which its critical section runs: an error exactly if already terminated, otherwise the request is reported; the CPU ends in the Terminated upcall, which is reported, exactly if none is in flight |
| KernelCode.Kernel.Unblock | kernel/src/thread.rs:143-153 | an error exactly if not blocked when the lock is taken, or the queue cannot grow; when the lock is released the thread is still blocked and becomes runnable with one right to run, or stays blocked with none |
| KernelCode.Kernel.AccessContext | kernel/src/thread.rs:156-181 | allowed exactly if the thread is blocked when its critical section runs, and reported exactly then |
| KernelCode.HolderIsNotBlocked | kernel/src/thread.rs:92-101 | in every reachable state, a CPU about to start an upcall or to enter a popped thread finds the thread not blocked |
| KernelCode.DiscardIsTerminated | kernel/src/scheduler.rs:82-88 | in every step of every run that throws a popped thread away, the thread is terminated |
| ProtocolProof.ThreadStep | kernel/src/thread.rs:89-281 | every step keeps the books of every thread balanced |
| ProtocolInvariant.InitialOk | kernel/src/thread.rs:204-209 | a machine that was just powered on satisfies the invariant |
| Alignment.AlignDownIsFloor | libs/rust/ftl_utils/src/alignment.rs:16-18 | for every word and power of two the mask form is the largest multiple not above |
| Alignment.AlignUpIsCeiling | libs/rust/ftl_utils/src/alignment.rs:38-42 | where overflow wraps: the smallest multiple not below, if and only if the sum does not wrap; zero if it does |
| Alignment.CheckedAlignUpIsCeiling | libs/rust/ftl_utils/src/alignment.rs:38-42 | where overflow is checked: a panic exactly where the wrapped result would be below the value or the value is the largest multiple; else the smallest multiple not below |
| Alignment.IsAlignedIsMultiple | libs/rust/ftl_utils/src/alignment.rs:59-61 | the mask test holds exactly for multiples |
| Alignment.AndRange | libs/rust/ftl_utils/src/alignment.rs:16-61 | a mask of consecutive ones cuts digits out of a number: the digit-wise AND is a difference of remainders |
| PageAllocation.BubbleSort | kernel/src/memory.rs:198-210 | sorts in place: ascending by start, and a permutation |
| PageAllocation.VisitUnusedRegions | kernel/src/memory.rs:155-192 | for reserved ranges that may overlap, nest or be empty: ascending, disjoint, non-empty ranges whose union is the clipped RAM minus the reserved ranges |
| PageAllocation.Carve | libs/rust/ftl_bump_allocator/src/lib.rs:32-42 | the highest aligned block inside the region, or none exactly when no aligned block fits |
| PageAllocation.CarvePages | libs/rust/ftl_bump_allocator/src/lib.rs:32-42 | a region serves a request of whole pages exactly if it has as many whole pages left, and has exactly as many fewer afterwards; from an aligned end, the end moves by the length |
| PageAllocation.PagesAreConserved | kernel/src/memory.rs:121-148 | over every run of requests of whole pages, the bytes handed out and the whole pages left add up to what there was |
| PageAllocation.EveryPageServes | kernel/src/memory.rs:121-148 | over every run of one-page requests, they are served until every whole page of every region has been handed out, and fail from then on |
| PageAllocation.BlocksApart | kernel/src/memory.rs:121-148 | any two blocks ever handed out are disjoint |
| PageAllocation.RunsAreSafe | kernel/src/memory.rs:121-148 | over every run of requests, every block ever handed out is page-aligned, not empty, inside its region and below the end of the direct map, and no two share a byte |
| PageAllocation.RunsUseFreeRam | kernel/src/memory.rs:121-241 | over every run from a boot, every byte of every block is RAM that the firmware reported and neither kernel nor module occupies |
| PageAllocation.PageAllocator.AddRegion | kernel/src/memory.rs:108-115 | adds a region all of which is free, or drops the ninth; keeps the record of blocks sound |
| PageAllocation.PageAllocator.Alloc | kernel/src/memory.rs:121-148 | hands out the highest fresh block of the first region with room, and fails exactly when none has room |
| PageAllocation.PageAllocator.Init | kernel/src/memory.rs:212-241 | the ranges found are disjoint and together exactly the RAM that is neither kernel nor module; regions are the first eight of them, all free; all free RAM is in a region if and only if no more than eight were found |
| HeapSpec.RunsAreSafe | libs/rust/ftl_malloc/src/lib.rs:93-201 | over every run of add_chunk, malloc and valid free: chunks are tiled by blocks, live allocations overlap no header and no other, the free list holds exactly the free blocks once, and bytes add up to the bytes added |
| HeapSpec.BytesConserved | libs/rust/ftl_malloc/src/lib.rs:53-201 | headers, free bytes and allocated bytes are the bytes of the chunks |
| HeapSpec.ByteIsInBlock | libs/rust/ftl_malloc/src/lib.rs:53-201 | every byte of a chunk belongs to a block |
| HeapSpec.AllocateIsComplete | libs/rust/ftl_malloc/src/lib.rs:127-180 | malloc fails exactly when the size is over the limit or no free block has the rounded capacity and alignment |
| HeapSpec.AllocateServes | libs/rust/ftl_malloc/src/lib.rs:127-180 | the result is aligned, was not allocated, is large enough and no more than 31 bytes larger than the rounded size, and leaves every other allocation alone |
| HeapSpec.AllocateKeeps | libs/rust/ftl_malloc/src/lib.rs:127-180 | malloc, splitting or not, keeps a heap well-formed |
| HeapSpec.AddChunkKeeps | libs/rust/ftl_malloc/src/lib.rs:93-121 | add_chunk keeps a heap well-formed |
| HeapSpec.ReleaseKeeps | libs/rust/ftl_malloc/src/lib.rs:189-201 | free keeps a heap well-formed |
| HeapSpec.FreedIsReusedFirst | libs/rust/ftl_malloc/src/lib.rs:189-201 | a freed block serves the next request that fits it |
| HeapSpec.GrowthServes | kernel/src/memory.rs:44-76 | after growing by a page-aligned 128 KiB chunk, a request not served before is served if and only if its rounded size is at most 131056 and its alignment at most 16 |
| HeapSpec.FirstFit | libs/rust/ftl_malloc/src/lib.rs:142-177 | the first block in list order that fits, and no earlier one does |
| Malloc.LinkedListAllocator.AddChunk | libs/rust/ftl_malloc/src/lib.rs:93-121 | writing a header and moving `head` refines adding a block in front |
| Malloc.LinkedListAllocator.Malloc | libs/rust/ftl_malloc/src/lib.rs:127-180 | the pointer walk ends and refines first fit; every header met is marked free |
| Malloc.LinkedListAllocator.TakeBlock | libs/rust/ftl_malloc/src/lib.rs:53-174 | splitting, marking and relinking headers refines taking a block |
| Malloc.LinkedListAllocator.Free | libs/rust/ftl_malloc/src/lib.rs:189-201 | refines releasing a block; the header found is marked allocated |
| GlobalAllocation.GlobalAllocator.Alloc | kernel/src/memory.rs:44-76 | panics exactly when the heap cannot serve and there are no 128 KiB or the request does not fit a fresh chunk; otherwise serves from the old heap or the start of the new chunk |
| GlobalAllocation.GlobalAllocator.Dealloc | kernel/src/memory.rs:78-82 | releases the block |
| GlobalAllocation.GrowthIsOwned | kernel/src/memory.rs:53-66 | a block just handed out overlaps no chunk of the heap |
| Paging.PteFields | kernel/src/arch/x64/vmspace.rs:56-75 | an entry made of a frame and flags gives back that frame and those flags |
| Paging.IndexIsMod | kernel/src/arch/x64/vmspace.rs:116-130 | shift and mask pick base-512 digits of the page number |
| Paging.DirectMapRoundTrip | kernel/src/arch/x64/vmspace.rs:77-83 | the direct map's two conversions are inverse below 2^47 |
| PageTree.LinkTree | kernel/src/arch/x64/vmspace.rs:98-114 | linking a fresh table keeps the tables a tree of distinct frames |
| PageTree.LinkWalks | kernel/src/arch/x64/vmspace.rs:98-114 | and changes no translation |
| PageTree.FillWalk | kernel/src/arch/x64/vmspace.rs:201-208 | writing a leaf entry changes the translation of its page to that entry and of no other |
| PageTree.LeafReached | kernel/src/arch/x64/vmspace.rs:198-203 | if an address has a last-level table, the walk reads the entry that map would write |
| PageTree.SamePage | kernel/src/arch/x64/vmspace.rs:116-130 | two addresses share all four indices exactly when they share a page number |
| PageTree.Elsewhere | kernel/src/arch/x64/vmspace.rs:175-209 | a space whose tables are untouched is still a tree with the same translations |
| PageTree.TranslationStays | kernel/src/arch/x64/vmspace.rs:98-208 | if present entries stay, whatever translates, in any space and below any table, translates as before |
| PageTree.KernelFilled | kernel/src/arch/x64/vmspace.rs:98-208 | entries below the boot table lead, place by place, to tables of the kernel only, and filling one keeps that |
| PageTree.KernelFillDescend | kernel/src/arch/x64/vmspace.rs:201-208 | filling a leaf entry below the boot table changes the translation of its own page only |
| PageTree.KernelIsShared | kernel/src/arch/x64/vmspace.rs:150-151 | all spaces translate the kernel's slot alike |
| PageTables.PageTable.EnsureNextTable | kernel/src/arch/x64/vmspace.rs:98-114 | the four cases of an entry, in any table; no present entry changes, and no table but the one given |
| PageTables.PageTable.Map | kernel/src/arch/x64/vmspace.rs:175-209 | for every address: every error case; success changes the translation of exactly that page, to the given frame and rights or, in the kernel's slot, without access; failure changes none; AlreadyExists exactly if a small page is mapped there, Unsupported exactly if a huge one is; no present entry and no table of another space changes; the kernel's tables change exactly if the address strays and the tables it lacks can be had; the same of the boot table alone |
| PageTables.PageTable.Spared | kernel/src/arch/x64/vmspace.rs:175-209 | a space's tables stay a tree with the same translations while those of others and of the kernel change |
| PageTables.PageTable.New | kernel/src/arch/x64/vmspace.rs:142-158 | a fresh space translates nothing outside the kernel's slot, whatever the boot table holds by then; no table there was changes |
| PageTables.StraysExactly | kernel/src/arch/x64/vmspace.rs:191-194 | the addresses that stray while the boot table is as boot made it, as a range of address bits; one is exhibited |
| PageTables.StraysStill | kernel/src/arch/x64/vmspace.rs:175-209 | after a stray page is mapped, every other address that would stray still does |
| PageTables.UserNeverStrays | kernel/src/arch/x64/vmspace.rs:191-201 | no address below 2^47 strays, whatever has been mapped |
| PageTables.MappedIsLeaf | kernel/src/arch/x64/vmspace.rs:207 | the entry written reads as user-accessible, and writable exactly if WRITE was given |
| Machinery.Machine.AllocFrame | kernel/src/memory.rs:121-148 | a frame from the allocator is the highest page of the first region with one, none that is in use, nor the boot table |
| Machinery.LaterIsFresh | kernel/src/memory.rs:121-148 | a block handed out later is another frame than any before, and than any outside the regions |
| VmAreas.VmArea.NewAnonymous | kernel/src/vmarea.rs:56-74 | the error cases, or an area that reads as zeros |
| VmAreas.VmArea.GetOrFill | kernel/src/vmarea.rs:34-45 | fills at most one page with a fresh frame and changes no byte |
| VmAreas.VmArea.EnsurePage | kernel/src/vmarea.rs:80-88 | out of bounds exactly past the last page; otherwise the page's frame |
| VmAreas.VmArea.Write | kernel/src/vmarea.rs:90-117 | for every offset and length: replaces that stretch of the flat array; out of bounds changes nothing; out of memory changed only a prefix; no other area's frame changes |
| VmAreas.VmArea.Read | kernel/src/vmarea.rs:122-150 | for every offset and length: the buffer gets that stretch of the flat array, or a prefix when memory runs out; never fails for memory on a populated area |
| VmAreas.PokeFlat | kernel/src/vmarea.rs:99-114 | writing within one page is a splice of the flat array |
| VmAreas.FillKeepsFlat | kernel/src/vmarea.rs:34-45 | a page filled with zeros changes no byte of the flat array |
| VmAreas.AreasApart | kernel/src/vmarea.rs:90-150 | what one area does changes no byte of another |
| VmSpaces.InsertKeepsSorted | kernel/src/vmspace.rs:94-106 | inserting at the partition point keeps mappings sorted, aligned and disjoint |
| VmSpaces.LayPage | kernel/src/vmspace.rs:86-91 | one more page entered, exactly; or none |
| VmSpaces.PageTried | kernel/src/vmspace.rs:86-91 | and why not: mapped before, a huge page there, no memory, or past KERNEL_BASE |
| VmSpaces.LoadsLaid | kernel/src/vmspace.rs:86-91 | user loads from laid pages give the bytes of the area |
| VmSpaces.VmSpace.GrantsMapping | kernel/src/arch/x64/vmspace.rs:205-207 | user code has access to every address of a mapping, and can write there exactly if the mapping says so |
| VmSpaces.VmSpace.New | kernel/src/vmspace.rs:41-49 | a fresh space in which every load faults |
| VmSpaces.VmSpace.Map | kernel/src/vmspace.rs:55-108 | for every range: list and hardware agree after success and after failure (sorted disjoint mappings, each page of each translating to its area's frame with its rights; outside the kernel's slot exactly the pages of mappings and those left behind are mapped); the exact pages left behind by a failure; an overlap always fails; every error with its cause, and in user space only three can occur; no table of another space changes |
| VmSpaces.VmSpace.LoadsExactly | kernel/src/vmspace.rs:55-108 | user code can load from an address if and only if it is canonical, outside the kernel's slot, and on a page of a mapping or one left behind |
| VmSpaces.VmSpace.AgreesExactly | kernel/src/vmspace.rs:55-148 | below 2^47 the list covers exactly what user code can load, if and only if it covers the pages left behind and those that high mappings share; so it does if nothing was left behind and all mappings end by 2^48 |
| VmSpaces.HighMappingShares | kernel/src/arch/x64/vmspace.rs:116-130 | an input for which it does not: a mapping at 2^48 shares the page of address 0 |
| VmSpaces.VmSpace.AfterWrite | kernel/src/vmarea.rs:90-117 | writing to an area changes user loads exactly at the pages that map it, where they give the area's new bytes; the space stays valid |
| VmAreas.VmArea.Unwritten | kernel/src/vmarea.rs:90-117 | writing to an area leaves every other one valid, with the bytes it had |
| VmSpaces.VmSpace.Bystander | kernel/src/vmspace.rs:55-108 | isolation: while pages are mapped elsewhere and frames are taken, any other space stays valid, its areas keep their bytes, and every load in it gives what it gave or faults as it did |
| VmSpaces.KernelSlotFaults | kernel/src/arch/x64/vmspace.rs:150-151 | user code can load nothing through the kernel's slot, whatever is mapped there |
| VmSpaces.VmSpace.MapPages | kernel/src/vmspace.rs:81-91 | the loop enters a prefix of the pages, all of them exactly if it succeeds |
| VmSpaces.VmSpace.ReadBytes | kernel/src/vmspace.rs:110-148 | the buffer gets the bytes of the mapped areas, which are what user loads would give, as far as mappings cover the range; the exact condition for Ok and for the error; no allocation |
| InitialStack.ImageReads | servers/lx/src/elf.rs:140-201 | for all argv and env that fit: argc, pointers to exactly each string, both NULLs, every auxiliary entry, AT_RANDOM pointing at the random bytes, 16-byte aligned sp |
| InitialStack.WordRoundTrip | servers/lx/src/elf.rs:59-65 | a word's bytes read back as the word |
| InitialStack.ConcatAt | servers/lx/src/elf.rs:187-193 | each string sits where the lengths before it add up to |
| StackBuilder.StackWriter.WriteBytes | servers/lx/src/elf.rs:49-57 | appends, or fails exactly when there is no room |
| StackBuilder.StackWriter.WriteUsize | servers/lx/src/elf.rs:59-65 | appends a word, or fails exactly when unaligned or without room |
| StackBuilder.StackWriter.Align16 | servers/lx/src/elf.rs:67-76 | pads with zeros to the next multiple of 16, or fails |
| StackBuilder.StackWriter.Finish | servers/lx/src/elf.rs:78-82 | the buffer lands at the end of the area |
| StackBuilder.Estimate | servers/lx/src/elf.rs:92-138 | the layout, or which of the two errors, from the strings alone |
| StackBuilder.Fill | servers/lx/src/elf.rs:164-197 | no write of the second pass fails, and together they produce the image |
| StackBuilder.BuildInitialStack | servers/lx/src/elf.rs:140-201 | after a successful estimate only memory can run out; on success sp is where the image lies and it reads as the ABI promises |
| Processes.LoadSegment | servers/lx/src/process.rs:52-87 | for every program header, overflow checked or wrapping: user memory holds the file's bytes, then zeros if the file size is at most the memory size and the length does not overflow; every page of it can be written exactly if the header's flags say so; one mapping is added, with the rights of the flags; whatever was there stays; it crashes only outside the file or where overflow is checked and the length or its rounding overflows, and then always; every other failure with its cause |
| Processes.LoadSegments | servers/lx/src/process.rs:50-87 | all loadable segments at once, their mappings and no others, and the address for AT_PHDR; why it stops |
| Processes.TableLoads | servers/lx/src/process.rs:57-65 | AT_PHDR is an address from which user loads give the program header table as the first segment that holds it has it, or no segment holds it and it is zero |
| Processes.AttrsAre | servers/lx/src/process.rs:78-84 | a segment's mapping can be read, written exactly if PF_W is set, and executed exactly if PF_X is |
| Processes.SetUpStack | servers/lx/src/process.rs:89-99 | user memory holds the stack, zeros and at sp the image; every page of it can be written; the image tells the name hello, no environment, sixteen fours, and the size, number and entry point of the headers; whatever was there stays; why it stops |
| Processes.Create | servers/lx/src/process.rs:45-114 | on success user loads give every segment, with its rights, and the stack, and below 2^47 nothing else unless a segment reaches higher; the stack tells the process its headers, and where they are in its memory; it panics only on a segment outside the file, a checked overflow, or without memory for the stack; it refuses only for lack of memory or a segment that is empty, too large, too high or overlaps another or the stack; an executable whose segments are in the file, within bounds and on pages of their own is created unless memory runs out; whatever the outcome, every load in every other space gives what it gave |
| Processes.LoadableIsFit | servers/lx/src/process.rs:50-100 | such an executable is refused for none of its segments and never crashes the caller |
| Processes.NothingElseLoads | servers/lx/src/process.rs:50-100 | below 2^47 a process can load from the pages of its segments and its stack, and from no others |
| VmSpaces.ExtendingKeepsLoads | kernel/src/vmspace.rs:81-91 | mapping pages changes no load that did not fault, in any space |
| InitFs.ParseHex | kernel/src/initfs.rs:30-44 | the number that the digits stand for, in either case, or None if one is no digit |
| InitFs.HexRoundTrip | kernel/src/initfs.rs:30-44 | printed numbers read back, whatever the case of each letter |
| InitFs.HexIsPrinted | kernel/src/initfs.rs:30-44 | and nothing else reads as a number: bytes that do are that number printed, in the cases of their letters |
| InitFs.Parse | kernel/src/initfs.rs:69-100 | on arbitrary bytes an item advances the offset by at least 110 and lies in the file |
| InitFs.InitFsLoader.Next | kernel/src/initfs.rs:69-100 | the item at the offset; at the end the offset stays, so the end is final |
| InitFs.RoundTrip | kernel/src/initfs.rs:66-101 | for every list of files not named like the trailer with sizes below 2^32, whatever the cases of the size fields, the other header fields and the padding, iterating over the archive yields exactly the list |
| InitFs.ItemsArePacked | kernel/src/initfs.rs:66-101 | on any bytes, iterating yields exactly the files of the entries packed at the front, up to the first place where there is none |
| InitFs.ReadAll | kernel/src/initfs.rs:66-101 | iterating ends on any bytes |

## Left out

- Boot, GDT, IDT, APIC, timer, console and all assembly: hardware effects without state in this model; entering user
  mode and returning to the kernel are steps of the machine.
- Parsing of ELF files, multiboot, PVH and MP tables: program headers, RAM and modules are inputs.
- `kernel/src/loader.rs`, `kernel/src/server.rs`, `servers/lx/src/syscall.rs`, the wrappers in `ftl_api`, `ArrayVec`:
  they would only add easy members.
- Memory orderings of `SpinLock` and `SharedRef`: steps are atomic and sequentially consistent.
- KernelCode.Kernel.PickNext: its loop has a number of turns as a parameter, because other CPUs may push for ever.
- KernelCode.Kernel.HandleInterrupt: an exception that the kernel does not handle panics, which is not modelled; what
  the timer does is left out.
- A reference is a thread identifier, so aliasing is exact; the destruction of the VM space that a thread refers to is
  not modelled.
- Fairness of the scheduler: nothing is said about how soon a runnable thread runs.
- Whether the kernel heap can hold a page list, a mapping or a run-queue slot is an input (`room`, `ok`, `heap`), not
  computed by the heap model.
- `ftl_api/src/allocator.rs`: the same growth logic as the kernel's.
- PageAllocation.PageAllocator.Init: takes RAM parts that do not overlap each other, as firmware reports them, and
  ranges with start not above end.
- Malloc.LinkedListAllocator.Malloc: takes a positive size and a power of two, which the source asserts in debug
  builds.
- PageTables.PageTable.Map: takes a physical address of at most 52 bits and attributes made of READ, WRITE and EXEC.
- Processes.Create: of a segment that reaches past 2^47, where user code cannot load, only the part below is stated.
  Whether overflow is checked, as in a debug build, or wraps around is an input. The file is shorter than 2^64 bytes.
- StackBuilder.BuildInitialStack: the lengths of all strings together stay below 2^64.
- InitFs.InitFsLoader.Next: the archive is shorter than 2^63 bytes.
