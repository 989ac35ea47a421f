# Twokernel: a verified model of its memory stack, loader, scheduler and drivers

Twokernel is a small x86-64 kernel. This project models its hand-written pointer code in Dafny and proves the
invariants that code relies on. `dafny verify dfyconfig.toml` checks everything.

| file | module | what it models |
|---|---|---|
| `bits.dfy`, `bytes.dfy` | `Bits`, `Bytes` | bitwise operators on machine words, the byte view of word memory |
| `pmm.dfy` | `Pmm` | the physical page allocator, whose free list lives inside the free pages |
| `vmm.dfy`, `vmm_laws.dfy`, `vmm_runs.dfy` | `Vmm`, `VmmLaws`, `VmmRuns` | four-level page tables in allocator frames, the flat map they refine, and whole runs of calls |
| `teardown.dfy`, `teardown_laws.dfy`, `teardown_leak.dfy` | `Teardown`, `TeardownLaws`, `TeardownLeak` | giving a page-table tree back, what exactly comes back, and a page that does not |
| `elf.dfy`, `elf_codec.dfy`, `elf_loader.dfy` | `Elf`, `ElfCodec`, `ElfLoader` | ELF64 validation, the file layout it reads, and loading on top of both layers |
| `sched_spec.dfy`, `sched_core.dfy` | `SchedSpec`, `SchedCore` | the scheduler as steps on a value, with the lock resolved |
| `sched_laws.dfy`, `sched_runs.dfy`, `sched_calls.dfy` | `SchedLaws`, `SchedRuns`, `SchedCalls` | where threads are: the wake-up loop, placement, conservation, and what each call leaves behind |
| `sched_time.dfy`, `sched_budget.dfy`, `sched_wake.dfy`, `sched_lock.dfy` | `SchedTime`, `SchedBudget`, `SchedWake`, `SchedLock` | bounded waiting, budgets, sleeping, contexts, postponed switches |
| `sched_wrap.dfy` | `SchedWrap` | runs from the constructor to a wrapped budget, a lost thread and a thread in two places |
| `deque.dfy`, `scheduler.dfy` | `Deque`, `Scheduler` | the intrusive queue and the scheduler object, proved to be the steps of `SchedSpec` |
| `spinlock.dfy` | `Spinlock` | the interrupt-saving spinlock as an N-processor protocol |
| `ring_buffer.dfy`, `keyboard.dfy` | `RingBuffers`, `Keyboard` | the key buffer and the PS/2 byte-stream decoder |
| `printing.dfy` | `Printing` | the integer conversions of the formatter |

## How the layers fit

Physical memory is one sequence of 64-bit words; the word at physical address `pa` has index `pa / 8`. The kernel
reaches physical memory through a direct map, so a pointer into it is written as the physical address it stands for,
and null as 0. The allocator object holds that memory. The page-table object holds an allocator and a ghost map from
tree nodes to frames, and the loader works on the page-table object, so its theorem goes all the way down: a byte of a
loaded segment is found by reading page-table words from memory, as the hardware does.

Operations that change state are methods of classes. Each one states its new state as a function of the old state, and
the laws are lemmas about those functions, over all inputs and over whole runs. `ok == false` stands for the panic
that halts the machine. The scheduler's laws are proved for any type of thread identity; the class `ThreadScheduler`
uses them with thread blocks linked through one shared hook.

Numbers are unbounded except where the width matters: page-table words, addresses and ELF fields are 64 bits wide, the
quantum subtraction is 64-bit, and the two lock counters are bytes.

## Where the code falls short of the obvious property

These are stated as exact conditions, not assumed away:

- The virtual range test of the loader uses an unsigned subtraction that wraps. It keeps a segment in user space
  exactly when `p_vaddr` does not exceed the end of user space (`Elf.RangeOkMeans`, with an input in
  `Elf.RangeTestWraps`). `ElfLoad` takes this as its hypothesis.
- Asked for no pages, `alloc` returns the address of a region that stays free (`Pmm.AllocOfNone`). `elf_load` asks for
  none for an empty, page-aligned segment.
- Without memory for the next segment `elf_load` returns, and the segments before it stay mapped and outstanding
  (`ElfLoader.ElfLoad`).
- Teardown visits entries 0 to 255 at every level, not only at the root. A table of the lower half comes back if and
  only if all its indices are below 256 (`TeardownLaws.TableGivenBack`), and a page if and only if bits 20, 29, 38 and 47
  of its address are clear (`TeardownLaws.PageGivenBack`, `TeardownLaws.LowBits`). The rest stays outstanding, as the
  page mapped at 0x100000 in `TeardownLeak.LeakExample` does.
- `yield` with nothing else ready leaves the caller both running and queued (`SchedLaws.YieldTidies`, with a reachable
  state in `SchedWrap.YieldIsUntidy`).
- Unblocking a thread onto the idle processor leaves it running but marked Ready (`SchedRuns.UnblockSound`), and the
  next switch then loses it (`SchedRuns.SwitchLoses`, with a reachable state in `SchedWrap.ThreadIsLost`). Runs without that step lose no thread (`SchedRuns.RunConserves`).
- When a quantum ends with nothing else ready, the quantum is not subtracted from the budget
  (`SchedBudget.TickIsCharged`).
- A switch away from a thread that is not Running leaves the quantum flag up (`SchedBudget.FlagAfterSwitch`). The next
  switch then subtracts the quantum from a thread that never used it, and a budget below 100 wraps to nearly 2^64
  (`SchedBudget.ChargeIsTrue`, `SchedBudget.QuantumWraps`, and a run from the constructor in
  `SchedWrap.WrapIsReached`). Runs that lose no thread never underflow (`SchedBudget.NoUnderflow`).
- A thread that another one's `sleep`, `yield`, `block` or `schedule` call dispatches does not get its saved frame back:
  the next tick overwrites it (`SchedWake.HandedBackByTicks`).
- The lock counters are bytes: at a depth divisible by 256 a requested switch is not postponed (`SchedLock.DepthWraps`).
- Giving back spinlocks out of order can unmask interrupts under a lock that is still held
  (`Spinlock.OutOfOrderRelease`, with a run in `Spinlock.OutOfOrderExample`).
- Teardown gives the pages of a multi-page segment back one by one. The counter then counts too little, and if it runs
  out the remaining pages are refused; count and pages are both right if and only if there is one page
  (`TeardownLaws.PagewiseFreeMiscounts`).
- The decoder looks for replies and the prefix before anything else. A release whose byte equals the prefix, or a reply
  after a prefix, makes it read the next press as the extended twin (`Keyboard.StrokeMisread`); without such releases
  every press comes through (`Keyboard.StrokesDecoded`).
- `%d` prints only the sign of the smallest int (`Printing.SignedRoundTrip`). Negating it is undefined in C++; the model
  takes the overflow to wrap.

## Model

| member | source | states |
|---|---|---|
| `Bits.AlignUpIs` | src/include/util/align.hpp:6-8 | `align_up` is the least page boundary not below its argument, or 0 exactly when the sum wraps |
| `Bits.AlignDownIs` | src/include/util/align.hpp:10-12 | `align_down` is the greatest page boundary not above its argument |
| `Pmm.ListIsUnique` | src/kernel/memory/pmm.cpp:10-45 | the free list in memory has exactly one reading: it is acyclic and unambiguous |
| `Pmm.ClientWriteKeepsInv` | src/kernel/memory/pmm.cpp:79-87 | whatever clients write into pages they hold, the decoded free list and the whole invariant stay |
| `Pmm.FirstFit` | src/kernel/memory/pmm.cpp:16-41 | the first region that is large enough, with every earlier one too small |
| `Pmm.AllocKeepsInv` | src/kernel/memory/pmm.cpp:10-45 | allocation keeps the list well formed, the regions disjoint and the pool exactly split between free and outstanding pages |
| `Pmm.AllocKeepsOthers` | src/kernel/memory/pmm.cpp:10-45 | allocation changes no word of any page already handed out |
| `Pmm.AllocGivesFreshPages` | src/kernel/memory/pmm.cpp:10-45 | allocation fails if and only if no region is large enough; otherwise its pages were free, start the first region that is, and are apart from all earlier ones |
| `Pmm.AllocOfNone` | src/kernel/memory/pmm.cpp:10-45 | the returned pages are off the free list if and only if any were asked for; asked for none, the first region is returned and stays free |
| `Pmm.AllocFails` | src/kernel/memory/pmm.cpp:43-44 | a failed allocation changes nothing |
| `Pmm.FreeKeepsInv` | src/kernel/memory/pmm.cpp:47-59 | a matched free is never refused by the counter and keeps the invariant |
| `Pmm.StrayFree` | src/kernel/memory/pmm.cpp:47-59 | a free keeps the invariant if and only if the region is outstanding or the count is zero, and then it is ignored |
| `Pmm.FreeKeepsOthers` | src/kernel/memory/pmm.cpp:47-59 | freeing a region changes no word of any other outstanding one |
| `Pmm.FreeThenAlloc` | src/kernel/memory/pmm.cpp:10-59 | freeing and reallocating the same number of pages gives the same address back and restores the list |
| `Pmm.RunKeepsInv` | src/kernel/memory/pmm.cpp:10-59 | over every run of allocations, matched frees and client writes: conservation of pages, a right count, and after a write the words in memory still decode to the list there was before |
| `Pmm.RunKeepsData` | src/kernel/memory/pmm.cpp:10-59 | over every run of allocations, frees and writes of others, an outstanding region keeps every word |
| `Pmm.GrownKeepsInv` | src/kernel/memory/pmm.cpp:61-77 | start-up keeps the invariant after every entry, and leaves the remaining ones acceptable |
| `Pmm.GrownIs` | src/kernel/memory/pmm.cpp:61-77 | stated through the memory map alone: a page is in the pool after start-up if and only if it was before or it is a whole page of a usable entry, the same for the free list, and nothing counts as allocated |
| `Pmm.GrowAdds` | src/kernel/memory/pmm.cpp:79-95 | handing a region over adds exactly its pages to the pool and to the free list |
| `Pmm.PageAllocator.PushList` | src/kernel/memory/pmm.cpp:79-87 | the three node words written into the region itself, and the new head |
| `Pmm.PageAllocator.FindFit` | src/kernel/memory/pmm.cpp:13-41 | the walk over list words in memory stops at the first fit and its predecessor |
| `Pmm.PageAllocator.Unlink` | src/kernel/memory/pmm.cpp:18-23 | the found node leaves the list, at the head or behind its predecessor |
| `Pmm.PageAllocator.PushRest` | src/kernel/memory/pmm.cpp:25-31 | the unused tail of a split region becomes the head of the list |
| `Pmm.PageAllocator.Take` | src/kernel/memory/pmm.cpp:17-37 | unlinking, splitting and counting together are the allocation step |
| `Pmm.PageAllocator.Alloc` | src/kernel/memory/pmm.cpp:10-45 | `alloc` computes the allocation step and returns the first fit's address or 0 |
| `Pmm.PageAllocator.Free` | src/kernel/memory/pmm.cpp:47-59 | `free` computes the free step; on an outstanding region it keeps the allocator valid |
| `Pmm.PageAllocator.InitPmm` | src/kernel/memory/pmm.cpp:61-77 | the loop over the memory map computes the start-up state of `Pmm.GrownIs`, with the list words in memory |
| `Pmm.PageAllocator.ReclaimBootloader` | src/kernel/memory/pmm.cpp:89-95 | only non-empty bootloader regions are handed over |
| `Vmm.WalkReadsFlat` | src/kernel/memory/vmm.cpp:153-164 | walking the words in memory from a root reads the flat map |
| `Vmm.KernelHalfCoherent` | src/kernel/memory/vmm.cpp:166-182 | every directory resolves an upper-half page to the same leaf slot |
| `Vmm.LinkKeepsVm` | src/kernel/memory/vmm.cpp:120-151 | hanging a new table changes no leaf entry and no data, and tables stay a tree of distinct frames |
| `Vmm.LeafKeepsVm` | src/kernel/memory/vmm.cpp:99 | storing a leaf entry keeps the trees and all data pages |
| `Vmm.LeafUpdatesFlat` | src/kernel/memory/vmm.cpp:99 | a leaf store updates exactly one page of the flat map, in every directory that shares it |
| `Vmm.EntryFields` | src/include/memory/vmm.hpp:38-45 | an entry built from a frame and flags gives both back |
| `Vmm.TableEntryPermits` | src/kernel/memory/vmm.cpp:141-145 | a new table is writeable, and open to user mode exactly when the mapping's flags say so |
| `Vmm.IndicesOf` | src/kernel/memory/vmm.cpp:90-93 | the four shifts and masks cut out the four table indices |
| `Vmm.PageTables.GetNextLevel` | src/kernel/memory/vmm.cpp:120-151 | the child table, null, or a fresh zeroed one behind an entry with the right flags; leaf entries never change; it fails only without memory |
| `Vmm.PageTables.NewTable` | src/kernel/memory/vmm.cpp:131-148 | the allocating branch: one more table, in a frame that was free, and of all table words only its entry changes, to that frame with the right flags; it fails only without memory |
| `Vmm.PageTables.Map` | src/kernel/memory/vmm.cpp:83-101 | `map` updates the flat map on exactly the pages of the range and nowhere else |
| `Vmm.PageTables.MapPage` | src/kernel/memory/vmm.cpp:85-100 | one pass of the loop: one page gets `pa` or-ed with the flags |
| `Vmm.PageTables.Unmap` | src/kernel/memory/vmm.cpp:103-118 | `unmap` clears exactly the pages of the range |
| `Vmm.PageTables.VaToPa` | src/kernel/memory/vmm.cpp:153-164 | the address is read off the flat map |
| `Vmm.PageTables.NewPagemap` | src/include/memory/vmm.hpp:92-103 | a zeroed frame that disturbs nothing, or nothing at all and only without memory |
| `Vmm.PageTables.FillKernelEntries` | src/kernel/memory/vmm.cpp:166-182 | every upper-half entry of the kernel points to a table of its own, not open to user mode, and no translation changes; it fails only without memory |
| `Vmm.PageTables.ProcessFillUserEntries` | src/kernel/memory/vmm.cpp:221-235 | every lower-half entry points to a table of its own, open to user mode, and no translation changes; it fails only without memory |
| `Vmm.PageTables.InitKernelDirectory` | src/kernel/memory/vmm.cpp:20-21 | the first directory with its upper half preallocated; it fails only without memory |
| `Vmm.PageTables.ProcessFillKernelEntries` | src/kernel/memory/vmm.cpp:215-219 | copying the upper half makes a new directory that shares the kernel's tables, entry by entry, over an empty lower half |
| `VmmLaws.PagesDiffer` | src/kernel/memory/vmm.cpp:90-93 | different pages have different indices, so no two pages of a range share a slot |
| `VmmLaws.NumberOfPage` | src/kernel/memory/vmm.cpp:90-93 | the four indices, root first, are the digits of the page number |
| `VmmLaws.OverlayInside` | src/kernel/memory/vmm.cpp:83-101 | page k of the range gets frame k with the flags |
| `VmmLaws.OverlayOutside` | src/kernel/memory/vmm.cpp:83-101 | a page outside the range keeps its entry |
| `VmmLaws.MapThenTranslate` | src/kernel/memory/vmm.cpp:83-164 | the entry given to each byte's page translates it to its own physical byte |
| `VmmLaws.MappedRangeTranslates` | src/kernel/memory/vmm.cpp:83-164 | after `map`, `va_to_pa(va + k) == pa + k` across the whole range |
| `VmmLaws.MapThenUnmap` | src/kernel/memory/vmm.cpp:83-118 | unmapping a mapped range clears it and restores every other page |
| `VmmRuns.Perform` | src/kernel/memory/vmm.cpp:83-118 | one call keeps the tables valid and preallocated, changes every flat entry as the operation says, and stops only without memory or at a null table |
| `VmmRuns.Execute` | src/kernel/memory/vmm.cpp:83-182 | any sequence of `map` and `unmap` calls on any directories, from any valid preallocated tables: at every point every upper-half address is looked up in one slot through all roots in the actual memory, and lower-half calls on other directories change no leaf entry of this one or of the kernel half |
| `VmmRuns.UserHalvesAreIsolated` | src/kernel/memory/vmm.cpp:83-118 | over any run in the lower halves of other directories, a directory's own entries and all upper-half entries stay |
| `VmmRuns.ValidIsCoherent` | src/kernel/memory/vmm.cpp:166-182 | in valid tables every upper-half page has one last-level table through all directories |
| `Teardown.ReachedSame` | src/kernel/memory/vmm.cpp:184-201 | which frames are given back depends only on the tree's own words |
| `Teardown.FreeTable` | src/kernel/memory/vmm.cpp:184-201 | gives back exactly the frames reached through present entries 0 to 255 at every level, each once, children first; its looks at entries and its frees happen exactly in the order of the trace |
| `Teardown.FreePagemap` | src/kernel/memory/vmm.cpp:203-213 | the same from the root, and then the root; in its trace no entry of a frame is looked at after the frame was given back; a null directory is left alone |
| `Teardown.TraceSafe` | src/kernel/memory/vmm.cpp:184-201 | if no frame is reached twice, no freed frame is read again |
| `Teardown.TraceGives` | src/kernel/memory/vmm.cpp:184-201 | the frees of the trace are the reached frames, in order |
| `TeardownLaws.ReachedIsUser` | src/kernel/memory/vmm.cpp:184-213 | every frame given back is a table or a mapped page of the directory's own lower half |
| `TeardownLaws.ReachedIff` | src/kernel/memory/vmm.cpp:184-201 | a frame comes back if and only if it is a table with all indices below 256 or a page mapped in a slot with all four below 256 |
| `TeardownLaws.TableGivenBack` | src/kernel/memory/vmm.cpp:184-201 | a table not mapped as a page comes back if and only if all its indices are below 256 |
| `TeardownLaws.PageGivenBack` | src/kernel/memory/vmm.cpp:184-201 | a page mapped once comes back if and only if all four indices are below 256 |
| `TeardownLaws.SlotVisited` | src/kernel/memory/vmm.cpp:185-190 | a leaf slot is looked at if and only if all four indices are below 256 |
| `TeardownLaws.LowBits` | src/kernel/memory/vmm.cpp:90-93 | that is so if and only if bits 20, 29, 38 and 47 of the address are clear |
| `TeardownLeak.LeakExample` | src/kernel/memory/vmm.cpp:184-213 | memory in which 0x100000 translates to a page that does not come back |
| `TeardownLaws.KernelHalfKept` | src/kernel/memory/vmm.cpp:184-213 | no table of the kernel half and no other directory's root is given back |
| `TeardownLaws.FreedKeepsInv` | src/kernel/memory/vmm.cpp:184-213 | giving back frames that were handed out one by one keeps the allocator's whole invariant, and exactly they stop being outstanding |
| `TeardownLaws.TeardownKeepsVm` | src/kernel/memory/vmm.cpp:203-213 | the tables of all other directories stay well formed and their translations as they were |
| `TeardownLaws.FreeDirectory` | src/kernel/memory/vmm.cpp:203-213 | `free_pagemap` on a directory leaves allocator and remaining page tables valid; of the directory's own tables exactly those with an index of 256 or more on the way stay outstanding, so none does if and only if there are none |
| `TeardownLaws.PagewiseFreeMiscounts` | src/kernel/memory/pmm.cpp:47-59 | a region given back page by page puts min(count, pages) pages on the list; all come back if and only if the counter covers them, the counter is right if and only if there was one page or one count, and both if and only if there was one page |
| `Bytes.PutThenByteAt` | src/libc/string.cpp:7-16 | a byte store changes that byte of memory and no other |
| `Bytes.CopiedBytes` | src/libc/string.cpp:7-16 | `memcpy` puts every byte in place and leaves all others |
| `Elf.PhdrInside` | src/kernel/exe/elf_loader.cpp:83-95 | after the header tests every program header lies inside the buffer |
| `Elf.RangeOkMeans` | src/kernel/exe/elf_loader.cpp:109-112 | the range test keeps a segment in user space if and only if it starts there |
| `Elf.RangeTestWraps` | src/kernel/exe/elf_loader.cpp:109-112 | a header outside user space that passes the test |
| `Elf.ValidateSegments` | src/kernel/exe/elf_loader.cpp:94-130 | the first loop accepts if and only if all LOAD segments pass and ascend; it returns first base and greatest end |
| `Elf.ValidateFile` | src/kernel/exe/elf_loader.cpp:67-134 | validation succeeds if and only if the file is acceptable; `ElfCodec.FileIsAccepted` says what that means in terms of the file format |
| `Elf.SegmentPages` | src/kernel/exe/elf_loader.cpp:114-160 | the page range tested in the first loop is the one mapped in the second, and no 64-bit sum wraps |
| `Elf.SegmentsAscend` | src/kernel/exe/elf_loader.cpp:114-121 | accepted segments occupy pairwise disjoint page ranges |
| `Elf.ImageBounds` | src/kernel/exe/elf_loader.cpp:122-130 | the image bounds are the true minimum and maximum over the LOAD segments |
| `ElfCodec.FieldOfLe` | src/include/exe/elf.hpp:87-113 | a field reads back the value whose little-endian bytes lie there |
| `ElfCodec.LeOfField` | src/include/exe/elf.hpp:87-113 | and a field's value encodes to the very bytes it was read from |
| `ElfCodec.WordBytes` | src/libc/string.cpp:7-16 | the bytes of a word in memory are in little-endian order |
| `ElfCodec.PhdrRoundTrip` | src/include/exe/elf.hpp:104-113 | a program header laid out field by field reads back, whatever lies around it |
| `ElfCodec.RecordWritesBack` | src/include/exe/elf.hpp:104-113 | encoding a program header that was read gives the bytes of the file |
| `ElfCodec.EhdrRoundTrip` | src/include/exe/elf.hpp:87-102 | the file header laid out field by field reads back |
| `ElfCodec.EhdrWritesBack` | src/include/exe/elf.hpp:87-102 | encoding the file header that was read gives the first 64 bytes of the file |
| `ElfCodec.HeaderAccepted` | src/kernel/exe/elf_loader.cpp:14-86 | the header tests pass if and only if the encoded header has the magic, 64-bit little-endian class, machine 62, type 1 or 2, and a table of allowed size inside the file |
| `ElfCodec.TableReads` | src/kernel/exe/elf_loader.cpp:94-95 | the program headers read are those of the encoded table, `e_phentsize` apart, in order |
| `ElfCodec.EveryFileEncodes` | src/kernel/exe/elf_loader.cpp:67-86 | every file that passes the header tests is an encoded one |
| `ElfCodec.FileIsAccepted` | src/kernel/exe/elf_loader.cpp:67-134 | an encoded file whose LOAD segments start in user space is accepted if and only if its header is recognised, every header of type 1 fits file and user space, the page ranges of any two ascend, and the entry point is at or past the start of one and before the end of one |
| `ElfLoader.MemCpy` | src/libc/string.cpp:7-16 | the byte loop is the copy |
| `ElfLoader.LoadSegment` | src/kernel/exe/elf_loader.cpp:136-174 | one segment: its pages mapped to a region of its own that holds its bytes; it gives up only without pages for the segment, and halts only without one for a table |
| `ElfLoader.LeafPermits` | src/kernel/exe/elf_loader.cpp:148-155 | the leaf is present, open to user mode, and writeable and executable exactly as the header says |
| `ElfLoader.StaysLoaded` | src/kernel/exe/elf_loader.cpp:136-174 | loading a later segment, with all its page-table allocations, disturbs no earlier one |
| `ElfLoader.LoadSegments` | src/kernel/exe/elf_loader.cpp:136-174 | the second loop loads every LOAD segment, or those before the one it has no pages for, or halts without a page for a table; every page outside them, and of other directories, keeps its entry |
| `ElfLoader.ElfLoad` | src/kernel/exe/elf_loader.cpp:67-184 | rejects exactly the unacceptable files and then changes nothing; on success every byte of every LOAD segment, found by walking the table words in memory from the root, lies behind a present user leaf with the header's write and execute permission and is the file's byte or zero past `p_filesz`, and the reported bounds are right; no page outside the segments and none of another directory translates differently; without memory for the next segment those loaded so far stay mapped and outstanding; it halts only when not one page is left, so with memory to spare an acceptable file is loaded |
| `ElfLoader.ImageIsFaithful` | src/kernel/exe/elf_loader.cpp:136-174 | segments held in regions of their own read as the file says, with its permissions, through the words in memory alone |
| `SchedCore.UnlockSwitches` | src/kernel/arch/x86-64/proc/scheduler.cpp:35-55 | a switch requested under one lock happens once, at the unlock |
| `SchedCore.TickIs` | src/kernel/arch/x86-64/proc/scheduler.cpp:82-117 | a timer tick with its nested locks is save, wake, test, switch |
| `SchedLaws.DrainedIs` | src/kernel/arch/x86-64/proc/scheduler.cpp:91-103 | the wake-up loop keeps exactly the undue waiters in order and appends the due ones in order, the first taking an idle processor |
| `SchedLaws.DrainedMoves` | src/kernel/arch/x86-64/proc/scheduler.cpp:91-103 | the wake-up loop loses and duplicates no thread |
| `SchedLaws.ScheduleMoves` | src/kernel/arch/x86-64/proc/scheduler.cpp:119-165 | a switch keeps every thread's place, dropping the running one exactly when it is neither idle nor requeued |
| `SchedLaws.YieldTidies` | src/kernel/arch/x86-64/proc/scheduler.cpp:179-189 | yielding keeps one place per thread if and only if another thread is ready |
| `SchedLaws.InitialIsTidy` | src/include/arch/x86-64/proc/scheduler.hpp:73-80 | the constructor's state is a legal start of a run: both queues empty and idle Running at the start of a slice |
| `SchedLaws.StepKeepsTidy` | src/kernel/arch/x86-64/proc/scheduler.cpp:57-215 | every operation keeps each thread in at most one place, idle out of both queues, and the slice below the quantum |
| `SchedRuns.RunKeepsTidy` | src/kernel/arch/x86-64/proc/scheduler.cpp:57-215 | the same over every run |
| `SchedRuns.UnblockSound` | src/kernel/arch/x86-64/proc/scheduler.cpp:201-215 | after an unblock the running thread is Running or idle if and only if it did not take the processor from idle |
| `SchedRuns.SwitchLoses` | src/kernel/arch/x86-64/proc/scheduler.cpp:144-148 | a switch keeps the running thread if and only if it is marked Running |
| `SchedRuns.StepConserves` | src/kernel/arch/x86-64/proc/scheduler.cpp:57-215 | one step that avoids that branch keeps every thread in its one place and the running one Running or idle |
| `SchedRuns.RunConserves` | src/kernel/arch/x86-64/proc/scheduler.cpp:57-215 | over every such run each admitted thread is in exactly one place |
| `SchedRuns.PlacementFromStart` | src/include/arch/x86-64/proc/scheduler.hpp:73-80 | from the constructor on, a thread is in exactly one place once admitted and in none before, and the running thread is Running or idle |
| `SchedCalls.TickDoes` | src/kernel/arch/x86-64/proc/scheduler.cpp:82-142 | after a tick the due threads stand behind the ready ones; if the slice reached the budget or the quantum, the running thread stands behind them all and the head of the queue runs, otherwise nobody moved |
| `SchedCalls.RescheduleDoes` | src/kernel/arch/x86-64/proc/scheduler.cpp:119-165 | a preemption hands the processor to the head of the queue and puts the running thread at its end with budget 6; the other blocks stay |
| `SchedCalls.SleepDoes` | src/kernel/arch/x86-64/proc/scheduler.cpp:167-177 | the caller waits at the end with its sleep time set, the head of the queue starts a slice, the other blocks stay |
| `SchedCalls.YieldDoes` | src/kernel/arch/x86-64/proc/scheduler.cpp:179-189 | the caller goes to the end of the queue, Ready and with budget 6 whatever it had left, the head starts a slice, the other blocks and the waiting queue stay |
| `SchedCalls.BlockDoes` | src/kernel/arch/x86-64/proc/scheduler.cpp:191-199 | the caller waits at the end, marked Blocked and otherwise unchanged, the head of the queue starts a slice, the other blocks stay |
| `SchedCalls.UnblockDoes` | src/kernel/arch/x86-64/proc/scheduler.cpp:201-215 | the thread leaves the waiting queue, Ready and with its budget kept, for the end of the ready queue, or for the processor exactly when idle has it and nobody is ready |
| `SchedCalls.AdmissionDoes` | src/kernel/arch/x86-64/proc/scheduler.cpp:70-80 | a new thread joins the end of the queue, Ready and with budget 6, and nothing else changes |
| `SchedCalls.BudgetDoes` | src/kernel/arch/x86-64/proc/thread.cpp:77-79 | setting a budget changes one field of one block |
| `SchedTime.StepAdvances` | src/kernel/arch/x86-64/proc/scheduler.cpp:57-165 | while threads are ready, a step either leaves the running one or dispatches the head of the queue |
| `SchedTime.BoundedWaiting` | src/kernel/arch/x86-64/proc/scheduler.cpp:57-165 | the thread at index k of the ready queue runs within 100 * (k + 1) ticks of every legal run |
| `SchedTime.StepKeepsReady` | src/kernel/arch/x86-64/proc/scheduler.cpp:57-165 | no step changes a ready thread except by dispatching it |
| `SchedBudget.TickIsCharged` | src/kernel/arch/x86-64/proc/scheduler.cpp:105-136 | what one tick does to the running thread's budget and place, in all four cases |
| `SchedBudget.RunLedger` | src/kernel/arch/x86-64/proc/scheduler.cpp:70-80 | over a run, charged ticks, dispatches and remaining budget always balance |
| `SchedBudget.BudgetAccounting` | src/kernel/arch/x86-64/proc/scheduler.cpp:105-136 | budget B is charged exactly B ticks over ceil(B / 100) dispatches, and only then resets to 6 |
| `SchedBudget.NoUnderflow` | src/kernel/arch/x86-64/proc/scheduler.cpp:130-136 | over every clean run, the state any next step dispatches from has a budget above 100 whenever the flag says to subtract the quantum, and the flag is down between steps |
| `SchedBudget.StepDispatches` | src/kernel/arch/x86-64/proc/scheduler.cpp:119-142 | the states named there are the ones the step really dispatches from |
| `SchedBudget.ChargeIsTrue` | src/kernel/arch/x86-64/proc/scheduler.cpp:130-136 | the subtraction is a true one if and only if the budget covers the quantum |
| `SchedBudget.FlagAfterSwitch` | src/kernel/arch/x86-64/proc/scheduler.cpp:70-80 | a switch leaves the quantum flag up if and only if it was up and the running thread is not requeued |
| `SchedBudget.QuantumWraps` | src/kernel/arch/x86-64/proc/scheduler.cpp:105-136 | when a quantum ends under a thread that is not Running, the next switch wraps its successor's budget |
| `SchedWrap.WrapIsReached` | src/kernel/arch/x86-64/proc/scheduler.cpp:57-215 | a legal run from the constructor ends with a budget of 2^64 - 94 |
| `SchedWrap.ThreadIsLost` | src/kernel/arch/x86-64/proc/scheduler.cpp:144-215 | a reachable state in which a thread runs, and after whose next switch it is nowhere |
| `SchedWrap.YieldIsUntidy` | src/kernel/arch/x86-64/proc/scheduler.cpp:179-189 | a reachable state whose yield leaves a thread running and queued |
| `SchedWake.SleepWakesExactly` | src/kernel/arch/x86-64/proc/scheduler.cpp:91-103 | a thread sleeping n ms leaves the waiting queue on exactly tick max(1, n), wherever it stands, and with a budget is then ready or running |
| `SchedWake.BlockedStays` | src/kernel/arch/x86-64/proc/scheduler.cpp:191-199 | a blocked thread stays in the waiting queue over every run until it is unblocked |
| `SchedWake.BlocksUntilUnblocked` | src/kernel/arch/x86-64/proc/scheduler.cpp:191-199 | the same from the call of `block` on |
| `SchedWake.StepFrames` | src/kernel/arch/x86-64/proc/scheduler.cpp:82-117 | a saved frame is written by the ticks that find its thread running and by nothing else |
| `SchedWake.ContextPreserved` | src/kernel/arch/x86-64/proc/scheduler.cpp:82-117 | the frame handed back to a resumed thread is the one saved when it was last preempted, or its entry frame |
| `SchedWake.TicksOnlyPreempt` | src/kernel/arch/x86-64/proc/scheduler.cpp:82-117 | runs of ticks and admissions meet the condition of the previous law for every thread |
| `SchedWake.HandedBackByTicks` | src/kernel/arch/x86-64/proc/scheduler.cpp:82-165 | a saved frame is handed back before it is overwritten if and only if a tick dispatches its thread |
| `SchedLock.NothingSwitches` | src/kernel/arch/x86-64/proc/scheduler.cpp:35-55 | under any nesting below 256 nothing happens but counting and remembering a request |
| `SchedLock.NoSwitches` | src/kernel/arch/x86-64/proc/scheduler.cpp:35-55 | no dispatch is made while the lock is held |
| `SchedLock.PostponedSwitch` | src/kernel/arch/x86-64/proc/scheduler.cpp:41-55 | the dispatches of a locked section are none before the outermost unlock, and there exactly one, under masked interrupts, if and only if one was requested; all counters are back to zero |
| `SchedLock.DepthWraps` | src/kernel/arch/x86-64/proc/scheduler.cpp:119-123 | a request under n locks is postponed if and only if 256 does not divide n |
| `Deque.SingleDeque.Empty` | src/include/std/single_deque.hpp:64-66 | true exactly of the empty queue |
| `Deque.SingleDeque.Size` | src/include/std/single_deque.hpp:51-62 | iterating counts the nodes |
| `Deque.SingleDeque.ClearAll` | src/include/std/single_deque.hpp:68-71 | empties the queue |
| `Deque.SingleDeque.PushHead` | src/include/std/single_deque.hpp:81-91 | prepends, links stay consistent |
| `Deque.SingleDeque.PushTail` | src/include/std/single_deque.hpp:93-104 | appends, links stay consistent |
| `Deque.SingleDeque.PopHead` | src/include/std/single_deque.hpp:106-118 | the first element, or null on an empty queue |
| `Deque.SingleDeque.PopTail` | src/include/std/single_deque.hpp:120-142 | the last element, or null on an empty queue |
| `Deque.SingleDeque.Remove` | src/include/std/single_deque.hpp:144-168 | unlinks the node; a node not linked here, or null, is a terminating no-op |
| `Scheduler.TidyIsSafe` | src/kernel/arch/x86-64/proc/scheduler.cpp:57-215 | every reachable state meets the preconditions of the methods below |
| `Scheduler.ThreadScheduler.constructor` | src/include/arch/x86-64/proc/scheduler.hpp:73-80 | the initial state, with idle running |
| `Scheduler.ThreadScheduler.LockScheduler` | src/kernel/arch/x86-64/proc/scheduler.cpp:35-39 | is the lock step |
| `Scheduler.ThreadScheduler.UnlockScheduler` | src/kernel/arch/x86-64/proc/scheduler.cpp:41-55 | is the unlock step; a dispatch it makes is recorded with the interrupt flag it was made under |
| `Scheduler.ThreadScheduler.AddReadyThreads` | src/kernel/arch/x86-64/proc/scheduler.cpp:70-80 | is the admission step on the linked queue |
| `Scheduler.ThreadScheduler.SwitchTask` | src/kernel/arch/x86-64/proc/scheduler.cpp:144-165 | is the switch step; the current thread is never null |
| `Scheduler.ThreadScheduler.Schedule` | src/kernel/arch/x86-64/proc/scheduler.cpp:119-142 | is the dispatch step, postponed under the lock; each dispatch is recorded with the interrupt flag |
| `Scheduler.ThreadScheduler.Sleep` | src/kernel/arch/x86-64/proc/scheduler.cpp:167-177 | is the sleep step, with exactly one dispatch, masked |
| `Scheduler.ThreadScheduler.Yield` | src/kernel/arch/x86-64/proc/scheduler.cpp:179-189 | is the yield step of `SchedCalls.YieldDoes`, with exactly one dispatch, masked |
| `Scheduler.ThreadScheduler.Block` | src/kernel/arch/x86-64/proc/scheduler.cpp:191-199 | is the block step, with exactly one dispatch, masked |
| `Scheduler.ThreadScheduler.WakeThread` | src/kernel/arch/x86-64/proc/scheduler.cpp:204-212 | is the wake-up between the lock and the unlock of `unblock` |
| `Scheduler.ThreadScheduler.Unblock` | src/kernel/arch/x86-64/proc/scheduler.cpp:201-215 | is the unblock step |
| `Scheduler.ThreadScheduler.UpdateScheduledTime` | src/kernel/arch/x86-64/proc/thread.cpp:77-79 | sets one thread's budget and nothing else |
| `Scheduler.ThreadScheduler.WakeSleepers` | src/kernel/arch/x86-64/proc/scheduler.cpp:91-103 | the iterator visits exactly the threads that were waiting, in order, although woken ones are relinked meanwhile |
| `Scheduler.ThreadScheduler.PitIrqHandler` | src/kernel/arch/x86-64/proc/scheduler.cpp:82-117 | is the tick step, hands back the resumed thread's frame, and dispatches once, masked, exactly when the slice is over |
| `Spinlock.StepKeepsInv` | src/include/util/spinlocks.hpp:24-67 | every atomic access keeps the protocol invariant, in whatever order locks are given back: a word is set exactly while its recorded owner, one of the processors, holds the lock |
| `Spinlock.WordMeansOwned` | src/include/util/spinlocks.hpp:24-67 | in every reachable state a lock's word is set if and only if some processor owns it |
| `Spinlock.ExchangeTakes` | src/include/util/spinlocks.hpp:24-26 | from every reachable state an exchange takes the lock if and only if nobody owned it, and otherwise changes nothing for the processor |
| `Spinlock.ReleaseFrees` | src/include/util/spinlocks.hpp:28-67 | from every reachable state, after a release the word is clear, nobody owns the lock, other locks and processors are as they were, and the next exchange by any waiting processor takes it |
| `Spinlock.MutualExclusion` | src/include/util/spinlocks.hpp:24-58 | over every interleaving and every order of releases at most one processor owns a lock |
| `Spinlock.OwnerIsMasked` | src/include/util/spinlocks.hpp:51-67 | under LIFO nesting the owner of a lock has interrupts masked |
| `Spinlock.ReleaseReadsOwnFlags` | src/include/util/spinlocks.hpp:51-67 | release reads the value the same processor saved at acquire |
| `Spinlock.OnlyOutermostRestores` | src/include/util/spinlocks.hpp:60-67 | under any LIFO nesting only the outermost release restores the flag, and to its original value |
| `Spinlock.OutOfOrderRelease` | src/include/util/spinlocks.hpp:60-67 | after a LIFO run, the three accesses of releasing any held lock keep interrupts masked for the rest if and only if it is the only one, not the oldest, or interrupts were off to begin with |
| `Spinlock.ReleaseUnmasks` | src/include/util/spinlocks.hpp:60-67 | the same condition from every reachable state, whatever the order of releases so far |
| `Spinlock.OutOfOrderExample` | src/include/util/spinlocks.hpp:51-67 | a run that ends with interrupts on under a lock still held |
| `RingBuffers.RingBuffer.BufRead` | src/include/std/ring_buffer.hpp:18-25 | drops the oldest element, or panics exactly on an empty buffer |
| `RingBuffers.RingBuffer.BufWrite` | src/include/std/ring_buffer.hpp:27-35 | appends, or panics exactly when all but one slot are used |
| `RingBuffers.RingBuffer.GetRead` | src/include/std/ring_buffer.hpp:37-39 | the oldest element |
| `RingBuffers.RingBuffer.IsFull` | src/include/std/ring_buffer.hpp:45-47 | full means one slot less than the array |
| `RingBuffers.RingBuffer.IsEmpty` | src/include/std/ring_buffer.hpp:49-51 | empty means no element |
| `RingBuffers.RingBuffer.GetSize` | src/include/std/ring_buffer.hpp:53-55 | the size is the number of elements and `write - read` modulo the length |
| `Keyboard.Ps2Keyboard.OnReceive` | src/kernel/drivers/ps2.cpp:12-49 | the new device state, the bytes sent out, and when it panics |
| `Keyboard.Ps2Keyboard.TakeKey` | src/kernel/util/terminal_support.cpp:49-58 | a reader takes the oldest key |
| `Keyboard.StreamDecoded` | src/kernel/drivers/ps2.cpp:12-49 | for every stream and every interleaving with reads, keys taken plus keys buffered are the decode of the stream without replies; the counters stay in bounds |
| `Keyboard.StrokesDecoded` | src/kernel/drivers/ps2.cpp:28-48 | round trip: a stream of plain and prefixed presses and releases decodes to the keys pressed, plain codes as they are and prefixed ones 0x80 higher |
| `Keyboard.StrokeMisread` | src/kernel/drivers/ps2.cpp:28-48 | exactly the releases whose byte is the prefix, or a reply after a prefix, make the next press read wrong |
| `Keyboard.KeyCodes` | src/include/arch/x86-64/arch/event.hpp:113-123 | a press gives its own code, or 0x80 more after the prefix; a release gives none |
| `Keyboard.RetriesGiveUp` | src/kernel/drivers/ps2.cpp:14-28 | n refusals in a row end in an error exactly when 3 divides n, and an acknowledgement forgets them |
| `Keyboard.CodesDiffer` | src/include/arch/x86-64/arch/event.hpp:113-123 | plain and extended key codes never collide |
| `Printing.Fill` | src/kernel/util/kernel_logger.cpp:41-48 | the digit loop stays inside its buffer and leaves the digits, last first |
| `Printing.CopyBackwards` | src/kernel/util/kernel_logger.cpp:49-51 | the copy loop reverses them into the output and touches nothing else |
| `Printing.PutDecimal` | src/kernel/util/kernel_logger.cpp:109-122 | `%u` and `%llu` print the decimal text; 20 digits suffice |
| `Printing.PutHex` | src/kernel/util/kernel_logger.cpp:73-108 | `%x` and `%llx` print the hexadecimal text; 16 digits suffice |
| `Printing.PutSigned` | src/kernel/util/kernel_logger.cpp:36-53 | `%d` prints the sign and the decimal text and touches nothing else |
| `Printing.TextRoundTrip` | src/kernel/util/kernel_logger.cpp:55-122 | the text of every number parses back to it |
| `Printing.NoLeadingZero` | src/kernel/util/kernel_logger.cpp:55-122 | only zero starts with the digit 0 |
| `Printing.SignedRoundTrip` | src/kernel/util/kernel_logger.cpp:36-53 | `%d` parses back if and only if the number is not the smallest int |

## Left out

- Process exit and the removal of a dead process's threads: the repository's teardown there is unfinished.
- CR3, the task-state segment, TLB flushes, fences, MSRs, port programming, descriptor tables and assembly stubs: hardware effects.
- Effective user and write permission across table levels: existing upper-level entries are never upgraded; addresses and leaf permissions are modelled.
- The direct map itself: its constant offset is dropped from every pointer.
- The lock inside the allocator: `alloc` and `free` are modelled as atomic.
- Rest of the memory manager's start-up: only the kernel directory and its upper half are modelled, not the mapping of the kernel image and the framebuffer.
- Framebuffer, terminal, log buffer, the rest of the format parser and its unbounded output length: the caller provides the room.
- System calls, address-space regions, `kmalloc` and the character helpers: stubs or thin wrappers.
- The branch of the admission code for a scheduler without a current thread: the constructor always sets one.
- Interrupt handlers that take locks between the two halves of another processor's `acquire`: the protocol has one activity per processor.
- The plain spinlock's `try_lock` and the end of spinning: each exchange is one step, and no bound on the number of failed ones is claimed.
- The wrap-around of the 64-bit clock, run-time totals and allocation counter: they are unbounded here. Elapsed time is a plain difference, which every reachable state keeps between 0 and 99.
- ElfLoader.ElfLoad: assumes that LOAD segments start in user space, because the range test does not establish it.
- ElfCodec.FileIsAccepted: assumes the same; `Elf.RangeOkMeans` says what the test does to the other segments.
- Vmm.PageTables.Unmap: requires the tables on the way to exist, because the code follows a null pointer otherwise.
- Vmm.PageTables.VaToPa: requires the tables on the way to exist, for the same reason.
- Pmm.PageAllocator.InitPmm: requires a memory map of page-aligned, disjoint, non-empty regions with non-zero base.
- Pmm.AllocGivesFreshPages: speaks of at least one page; `Pmm.AllocOfNone` says what happens when none is asked for.
- Teardown.FreePagemap: requires that no frame is reached twice and that the outstanding count covers the frames.
- Teardown.FreeTable: requires the same; a frame reached twice would be freed twice.
- Vmm.PageTables.GetNextLevel: does not allocate a missing upper-half table below a root, because preallocation has made them all and a private one would break the sharing.
- Vmm.PageTables.ProcessFillUserEntries: requires a lower half without tables, because the code overwrites the entries and loses what they pointed to.
- Deque.SingleDeque.PushHead: requires a node that is not linked here, because linking it twice makes the list a cycle.
- Deque.SingleDeque.PushTail: requires the same.
