# Verified models of the PatchworkOS kernel cores

PatchworkOS is a small x86_64 kernel. This project models the parts of it that keep state, and proves what they keep:
four-level page tables and the address spaces built on them, the two physical page allocators, the multiprocessor
scheduler, the path canonicaliser of the virtual file system, the ticket lock and interrupt nesting, pipes, the
intrusive list, file and volume reference counts, and number printing. `dafny verify dfyconfig.toml` checks everything.

| file | models |
|---|---|
| `Paging.dfy` | entries, table walks and the flat map that a tree of tables stands for |
| `FlatRanges.dfy` | range updates of the flat map, page by page |
| `PageTable.dfy` | `pml.c`: the operations on tables in memory, as range updates of the flat map |
| `PageTree.dfy` | what the recursive free visits; access rights |
| `AddressSpace.dfy` | `pml_free_level` and `space.c` |
| `Vmm.dfy` | `vmm.c` |
| `VmmLife.dfy` | every sequence of calls on one address space |
| `Spaces.dfy` | the kernel's tree and all address spaces together |
| `PageStack.dfy`, `PageBitmap.dfy` | the two halves of `pmm.c` |
| `Sched.dfy`, `SchedSteps.dfy`, `Scheduler.dfy` | `sched.c`: states, steps with their invariant, and the code |
| `SchedOrder.dfy` | the order in which blocked threads wait and wake |
| `SchedFates.dfy` | whom a search takes, who leaves and why, and what becomes of the running thread |
| `Path.dfy` | path parsing in `vfs.c` and `vfs.h` |
| `TicketLock.dfy` | `lock.h`, and `cli_push`, `cli_pop` and `trap_handler` in `trap.c` |
| `Pipe.dfy` | `ring.h` and `pipe.c` |
| `IntrusiveList.dfy` | `sys/list.h` and `queue.h` |
| `FileRefs.dfy` | reference counts in `vfs.c`, `vfs_context.c` and `syscall.c` |
| `NumberText.dfy` | `ulltoa` and `lltoa` |

## How to read the models

Page tables. A page is named by its frame number; the kernel's pointer to it is the higher-half alias, a bijection. Memory
is a map from frames to 512 entries, tables and data pages alike. `Walk` follows indices from a root, and `Flat` is the
partial map from 36-bit virtual page numbers to leaf entries that a tree stands for. Addresses are 64-bit and wrap. The
allocator is a set of free pages; giving a page back may rewrite the contents of any free page, because free pages hold the
allocator's own lists, so use after free would be visible in the proofs. Running out of memory is a panic in the kernel; the
methods report it as `ok == false` or `Panic` and promise nothing more then. An operation is given, for its proof only, a bound
`hi` on the entries of the root that its pages start with: 256 for the lower half, which is a process's own, and 512 for all.
`World` is the invariant of the kernel's tree and all spaces: they share tables of the upper half and nothing else.

Scheduler. A state holds every CPU's run slot, ready queues and graveyard, every list of blocked threads, the live threads and
the reference counts of processes. A step is one call under its locks. `InvOut(s, out)` says that every live thread is in
exactly one place, apart from the one thread that the middle of a step has in its hands; `Inv` is the same between steps.

Paths. The meaning of a path is a fold over its names on a stack of components. The parser works on text that it grows and cuts
back; the text of a location is its volume label, `:` and `/name` for every component.

Pipes. A run is any sequence of events of any number of threads: a handle copied or dropped, a call begun, its attempt under the
lock, its entry into the list of sleepers, its call of `sched_unblock`, and its return, which gives its handle back. These are the
points at which the code can be interrupted by other calls.

## What the proofs found

- A successful `realpath` result is not always a fixed point: `//` resolves to `sys:/`, which resolves to `sys:`
  (`Path.DoubleSlashIsNotFixed`), and from a process whose working directory is `sys:/` even `.` is not (`Path.DotIsNotFixed`).
  `Path.FixedPointIff` gives the exact condition on working directory and path: reading the names backwards and letting each `..`
  take one away, what stands last must not be an empty name, or an empty component of the working directory.
- `vmm_unmap`, `vmm_protect`, `vmm_alloc` and `vmm_map` work on exactly the pages their range touches if and only if the length
  arithmetic stays below 2^64 and the range is not empty at an unaligned address (`Vmm.CountsTouchedPagesIff`). An empty range in the
  middle of a page counts as one page; an overflowing length counts as at most one.
- `page_stack_alloc` drops one page for good each time it steps back onto an older buffer, and the counter of free pages goes on
  counting it (`PageStack.RunAccounted`); 513 frees and one allocation do it (`PageStack.StepsBack`).
- The ticket lock is right up to and including 2^32 threads at once; one more gets a duplicate of the ticket being served
  (`TicketLock.DuplicateTicketIff`), and then two threads are inside (`TicketLock.OneTooMany`).
- `vmm_alloc` and `vmm_map` search without end, with the lock of the space held, exactly if every address the search comes by is
  fully mapped; a length within a page of 2^64 always does that, because it asks for no pages (`Vmm.NoPagesSearch`).
- Regions found over the life of a space stay apart, and every search succeeds, as long as the pages that the calls' lengths ask for
  fit into the lower half (`VmmLife.RegionsDisjoint`, `VmmLife.LifeFinds`). Beyond that `freeAddress` can wrap, and regions overlap
  (`VmmLife.WrapOverlaps`); 2^17 pages more are enough for two searches to choose the same region (`VmmLife.NearlyTight`).
- Calls on the lower half of one address space reach no other. In the upper half a changed entry is changed in every address space
  (`Spaces.UpperStoreIsShared`).
- What the kernel maps in its own tree, as every growth of its heap does, every existing address space maps too, if and only if the range
  starts with no new entry in the upper half of the kernel's root (`Spaces.KernelMapKeepsIff`); an address space does not see a new
  entry made after it was created (`Spaces.MapAfterSpace`).
- Once a page was freed, the page stack never hands out NULL: when its pages run out it is drained instead, and asking it again reads
  through NULL before the assertion on the result is reached (`PageStack.DrainedIff`, `PageStack.NeverNull`).
- The path parser writes past its 256-byte buffer on paths that it accepts: its limit counts from the label's `:` and leaves out the
  label, the last slash and empty names. `Path.BufferFitsIff` gives the exact condition; from the initial working directory n slashes
  take n + 5 bytes (`Path.SlashesOverrun`), and a single name fits up to 249 of the 253 characters it may have (`Path.LongNameOverrun`).
- `vmm_alloc` on unmapped pages followed by `vmm_unmap` gives back exactly the frames taken if and only if the range has at most 2^36
  pages; a longer one maps pages twice and loses the first frames. It restores the map if and only if no page of the range was mapped
  (`Vmm.AllocThenUnmap`). Both `vmm_alloc` and `vmm_map` refuse only a range that is mapped as a whole, and an owned page in one that is
  not loses its frame for good (`Vmm.AllocOverLoses`, `Vmm.MapOverLoses`).
- A reader or writer of a pipe can sleep for ever although it need not wait: when its condition comes true between its test and its
  entry into the list of sleepers (`Pipe.MissedWrite`), or because the other end is closed, which wakes nobody (`Pipe.MissedClose`).
  Over every run these are the only two ways (`Pipe.Overslept`). The state of a pipe is never freed under a sleeper
  (`Pipe.FreedWithoutWaiters`).

## Model

| member | source | states |
|---|---|---|
| EntryWord.WordIsEntry | src/kernel/pml.c:10-13 | for all 64-bit flags: the low bits of a word are the flags with PRESENT, the address field the aligned physical address and what the flags have there; with flags in the low twelve bits the two do not disturb each other |
| Paging.FrameHolds | src/kernel/pml.c:10-13 | the frame in an entry is the page that holds the physical address, aligned or not |
| Paging.IndicesOfVpn | src/kernel/pml.h:28 | the four table indices of an address are determined by its virtual page number |
| Paging.VpnDetermined | src/kernel/pml.h:28 | two pages with the same four indices are the same page |
| Paging.NextVpn | src/kernel/pml.c:153-154 | stepping an address by a page, with 64-bit wrap, steps the page number modulo 2^36 and the frame modulo 2^40 |
| Paging.LeafStore | src/kernel/pml.c:151 | overwriting one leaf entry of a well-formed tree moves no table, keeps the tree well formed, and is one update of the flat map |
| Paging.TreeGrow | src/kernel/pml.c:37-42 | hanging a fresh zeroed table adds exactly one table, keeps all tables pairwise disjoint and maps nothing |
| Paging.TreeFrame | src/kernel/pml.c:15-25 | a tree and its flat map depend on nothing but the tables reached from its root |
| PageTable.OtherTreeUnchanged | src/kernel/pml.c:142-156 | an operation on part of one tree leaves the flat map of every tree that has no table in that part unchanged |
| PageTable.Machine.PmmAlloc | src/kernel/pmm.c:209-215 | the allocator hands out a page from its free set, may lose others, and has none to hand out exactly when the set is empty |
| PageTable.Machine.PmlNew | src/kernel/pml.c:70-76 | a new root maps nothing, and its tree is well formed and owns nothing |
| PageTable.Machine.PmmFree | src/kernel/pmm.c:225-230 | a page is given back once, may disturb only free pages, and low pages do not return to the stack |
| PageTable.Machine.GetOrAllocate | src/kernel/pml.c:27-44 | the child table is found or made from a free page, and the flat map does not change |
| PageTable.Machine.MapPage | src/kernel/pml.c:146-151 | one turn of the mapping loop is one update of the flat map, and touches only this tree and free pages |
| PageTable.Machine.Map | src/kernel/pml.c:142-156 | mapping any range is exactly the range update of the flat map, even when levels are allocated in mid-loop; of the root only entries that the range starts with and that were absent change |
| PageTable.Machine.IsMapped | src/kernel/pml.c:106-138 | true if and only if every page of the range is in the flat map |
| PageTable.Machine.PhysAddr | src/kernel/pml.c:93-104 | the higher-half alias of the frame in the flat map, plus the offset |
| PageTable.Machine.Unmap | src/kernel/pml.c:158-177 | exactly the range leaves the flat map, its owned frames are given back in order, and ownership stays sound |
| PageTable.Machine.ChangeFlags | src/kernel/pml.c:179-199 | the code computes the range update of the flags, and touches only leaves of this tree |
| PageTable.ReflagOwned | src/kernel/pml.c:188-194 | a changed entry is present, and owned exactly if it was or the new flags say so |
| PageTable.ClearedOwnership | src/kernel/pml.c:167-171 | giving back the owned frame of a page and clearing its entry keeps owned frames distinct, never tables, never free |
| FlatRanges.MapRangeHit | src/kernel/pml.c:142-156 | the page a range visits last at step k is mapped to the k-th frame with the given flags |
| FlatRanges.MapRangeMiss | src/kernel/pml.c:142-156 | pages outside the range keep their entries |
| FlatRanges.UnmapRangeAt | src/kernel/pml.c:158-177 | a page is mapped afterwards if and only if it was and the range does not visit it |
| FlatRanges.ReflagRangeAt | src/kernel/pml.c:179-199 | exactly the visited pages keep their frame and of their old flags the ownership bit alone, next to the new flags, however often they are visited |
| FlatRanges.AfterInjective | src/kernel/pml.c:153 | a range of at most 2^36 pages visits no page twice |
| FlatRanges.AllocUnmapRoundTrip | src/kernel/vmm.c:131-135 | on flat maps: allocating a range and unmapping it again restores the map if and only if nothing was mapped there |
| FlatRanges.FramesComeBack | src/kernel/vmm.c:131-135 | and gives back exactly the frames taken, whatever was mapped there |
| PageTree.FreeFromLeaf | src/kernel/pml.c:53-66 | at level 0 the contents of a page, read as entries, add nothing: the recursion ends |
| PageTree.FreeListNodes | src/kernel/pml.c:46-68 | the recursive free gives back only tables and owned pages below its start, none of them twice |
| PageTree.NodeInFreeList | src/kernel/pml.c:46-68 | every table and every owned page below the start is given back |
| PageTree.NodesDistinct | src/kernel/pml.h:19 | in a well-formed tree with sound ownership, tables and owned pages are pairwise distinct |
| PageTree.EffectiveRights | src/kernel/pml.c:146-151 | write and user rights, as the AND over all four levels, equal the leaf's flags |
| AddressSpace.FreeLevel | src/kernel/pml.c:46-68 | exactly the pages of the free list are given back, in order, although each give-back may rewrite free pages |
| AddressSpace.CleanupList | src/kernel/space.c:21-29 | once the upper half is cleared, the free list holds each lower-half table and each page owned there once, and nothing else |
| AddressSpace.UpperHalfKept | src/kernel/space.c:23-26 | a table reached through the shared kernel half is never given back |
| AddressSpace.Space.Init | src/kernel/space.c:8-19 | a new space maps exactly the kernel half; the kernel's own tree and what it owns are unchanged, and no page but the new root is written |
| AddressSpace.Space.Cleanup | src/kernel/space.c:21-29 | teardown gives back every lower-half table and every page owned there exactly once; exactly these become free, low ones excepted, and no other page in use changes |
| Vmm.CountsTouchedPagesIff | src/kernel/vmm.c:34-39 | the pages a call works on are exactly those its byte range touches if and only if the lengths fit and the range is not empty at an unaligned address |
| Vmm.ProtFlags | src/kernel/vmm.c:41-49 | readable protections give user pages, writable exactly if asked, never owned |
| Vmm.FindFreeRegion | src/kernel/vmm.c:18-32 | the search ends at the first address on its way whose region is not all mapped, with freeAddress moved past it, or at the last page of the address space, or never, each exactly when it should |
| Vmm.SearchIsDetermined | src/kernel/vmm.c:22-31 | of these three endings exactly one is the search's |
| Vmm.BusyForEver | src/kernel/vmm.c:22 | a search that finds nothing in 2^52 turns has come round and never ends |
| Vmm.NoPagesSearch | src/kernel/vmm.c:20-22 | a length asks for no pages exactly if it is within a page of 2^64, and then the search never ends |
| Vmm.Alloc | src/kernel/vmm.c:105-140 | each error exactly on its condition and without effect; a panic only without memory or at the end of the address space, a hang exactly if the search has no end; otherwise every page of the range is mapped to a distinct frame just taken, and owned, and freeAddress moves past a region searched for |
| Vmm.MapPhysical | src/kernel/vmm.c:142-178 | the same for consecutive frames that are not owned |
| Vmm.AllocAllocates | src/kernel/vmm.c:131-137 | what the map left by vmm_alloc means: each page of the range is a user page with exactly the rights asked for, through all four levels, that owns a frame taken; the frames stand in order if no page is visited twice |
| Vmm.MapMaps | src/kernel/vmm.c:165-175 | the same for vmm_map, with the frames from the given one on and none owned |
| Vmm.Unmap | src/kernel/vmm.c:180-195 | nothing changes unless every page counted is mapped; otherwise exactly those are unmapped and their owned frames given back |
| Vmm.Protect | src/kernel/vmm.c:197-218 | nothing changes unless every page counted is mapped; otherwise each of them keeps frame and ownership, can be written exactly if asked, can be reached by user code, and keeps no other old flag; no other page changes |
| Vmm.TakenOwnership | src/kernel/vmm.c:131-135 | mapping a frame just taken keeps owned frames distinct, never tables, never free |
| Vmm.AllocThenUnmap | src/kernel/vmm.c:105-195 | vmm_alloc and then vmm_unmap give back exactly the frames taken if and only if the range has at most 2^36 pages, and leave the map as it was if and only if none of them was mapped |
| Vmm.AllocOverLoses | src/kernel/vmm.c:126-135 | an owned page in a range that vmm_alloc maps over loses its frame: nothing owns it, and it is not free |
| Vmm.MapOverLoses | src/kernel/vmm.c:170-175 | so does one that vmm_map maps over |
| VmmLife.Execute | src/kernel/vmm.c:105-218 | every call that returns is turned down or accepted, and changes mapped pages and freeAddress, as Next says |
| VmmLife.CallInBudget | src/kernel/vmm.c:18-32 | a search passes over nothing but pages that earlier calls paid for, so freeAddress and the pages ahead of it stay within the pages asked for |
| VmmLife.RegionsDisjoint | src/kernel/vmm.c:18-32 | over every sequence of calls whose lengths ask for no more pages than the lower half has, the regions found lie in the lower half, one after the other |
| VmmLife.LifeFinds | src/kernel/vmm.c:18-32 | within that budget every search finds a region: it neither panics nor hangs |
| VmmLife.WrapOverlaps | src/kernel/vmm.c:26 | beyond it freeAddress wraps, and two regions overlap |
| VmmLife.NearlyTight | src/kernel/vmm.c:22-27 | the budget is nearly tight: with 2^17 pages more there is a life whose first and last searches choose the same region |
| Spaces.WorldKept | src/kernel/space.c:8-19 | a change to the lower half of one space keeps the invariant of all spaces and the flat map of every other |
| Spaces.OthersKept | src/kernel/space.c:21-29 | whatever becomes of the lower half of one space, the kernel and the other spaces stay as they are |
| Spaces.WorldGrows | src/kernel/space.c:8-19 | a new space joins the others without changing what they map |
| Spaces.UpperStoreIsShared | src/kernel/space.c:15-18 | a leaf entry written through one space changes what another maps if and only if the page is in the upper half and the entry is a new one |
| Spaces.Kernel.constructor | src/kernel/vmm.c:51-55 | the kernel's tree starts as a zeroed page, and the invariant of all spaces holds |
| Spaces.KernelOpKeeps | src/kernel/space.c:15-18 | as long as the upper half of its root stays, whatever the kernel maps in its own tree every space maps too, and their lower halves stay |
| Spaces.KernelMapKeepsIff | src/kernel/vmm.c:92-103 | with spaces there, mapping a range keeps them all if and only if it starts with no new entry in the upper half of the root |
| Spaces.NewEntryIsMissed | src/kernel/space.c:15-18 | a page under a new entry is in no space that was there before |
| Spaces.Kernel.KernelMap | src/kernel/vmm.c:92-103 | vmm_kernel_map is the range update of the kernel's map; the invariant of all spaces stays, and they follow, exactly under that condition |
| Spaces.MapAfterSpace | src/kernel/vmm.c:92-103 | of any range that the kernel maps, the pages under a root entry that was absent are mapped by the kernel and by no address space there at the time, and sharing ends |
| Spaces.Kernel.NewSpace | src/kernel/space.c:8-19 | any number of spaces can be created, each leaving the others unchanged |
| Spaces.Kernel.EndSpace | src/kernel/space.c:21-29 | tearing one space down keeps all others, with all they map |
| Spaces.Kernel.VmmAlloc | src/kernel/vmm.c:105-140 | vmm_alloc in the lower half keeps the invariant of all spaces, and every other space's map |
| Spaces.Kernel.VmmMap | src/kernel/vmm.c:142-178 | so does vmm_map |
| Spaces.Kernel.VmmUnmap | src/kernel/vmm.c:180-195 | so does vmm_unmap, although it gives frames back |
| Spaces.Kernel.VmmProtect | src/kernel/vmm.c:197-218 | so does vmm_protect |
| PageStack.Stack.Alloc | src/kernel/pmm.c:48-72 | the register and memory effect of one allocation, step back included |
| PageStack.Stack.Free | src/kernel/pmm.c:74-95 | the register and memory effect of one free, new buffers included |
| PageStack.LastFreedFirst | src/kernel/pmm.c:48-95 | the page freed last is handed out first, and if it did not start a buffer the stack is then as it was |
| PageStack.AllocKeeps | src/kernel/pmm.c:48-72 | an allocation hands out a page nobody holds; pages stay partitioned into held, listed and dropped |
| PageStack.FreeKeeps | src/kernel/pmm.c:74-95 | freeing a held page lists it and nothing else |
| PageStack.WriteKeeps | src/kernel/pmm.h:9-19 | holders may write anything into their pages without disturbing the lists kept in free pages |
| PageStack.RunAccounted | src/kernel/pmm.c:48-95 | over every run each page is held, listed or dropped and never two of these, and the counter is the listed pages plus one per step back |
| PageStack.NeverHandedOutTwice | src/kernel/pmm.c:48-72 | in every run no page is handed out while it is held |
| PageStack.FreedInBetween | src/kernel/pmm.c:48-95 | between two allocations of the same page lies a free of it |
| PageStack.StepsBack | src/kernel/pmm.c:58-62 | a run of 513 frees and one allocation drops a page: 511 pages are listed, and the counter says 512 |
| PageStack.AllocRefines | src/kernel/pmm.c:48-72 | seen as a set of free pages, an allocation takes one and loses at most the dropped one, and the set is empty exactly when there is no buffer |
| PageStack.DrainedIff | src/kernel/pmm.c:50-66 | over every run, a stack without a buffer is drained if and only if some page was freed before |
| PageStack.NeverNull | src/kernel/pmm.c:211-213 | after the first free no allocation that may be made hands out NULL |
| PageStack.FreeRefines | src/kernel/pmm.c:74-95 | seen as a set of free pages, a free adds the page |
| PageBitmap.FreeSetChange | src/kernel/pmm.c:114 | setting or clearing the bit of a page changes the set of free pages by that page alone |
| PageBitmap.Bitmap.Reserved | src/kernel/pmm.c:103-107 | the bit of a page says whether it is reserved |
| PageBitmap.Bitmap.Reserve | src/kernel/pmm.c:109-117 | exactly the range leaves the free set, and the counter stays right if and only if all of it was free |
| PageBitmap.Bitmap.Scan | src/kernel/pmm.c:128-141 | the inner loop finds the free run, cut at the count or at a reserved page or the limit |
| PageBitmap.NoFitBefore | src/kernel/pmm.c:143 | the skip past an obstacle jumps over no aligned fit |
| PageBitmap.Bitmap.FindFit | src/kernel/pmm.c:124-147 | the search ends with the lowest aligned fit, or with none if none exists |
| PageBitmap.Bitmap.Alloc | src/kernel/pmm.c:119-148 | the lowest aligned free run that ends below the limit is taken; NULL, without effect, only if there is none |
| PageBitmap.StrideMeetsAlignment | src/kernel/pmm.c:121 | aligning to the stride meets the requested alignment unless rounding it up overflows |
| PageBitmap.LimitMeets | src/kernel/pmm.c:122 | the search stays below the address asked for and inside the pages that the bitmap covers, and nowhere short of them |
| PageBitmap.AddressInPage | src/kernel/pmm.c:152 | a freed address is taken for the page it lies in |
| PageBitmap.Bitmap.Free | src/kernel/pmm.c:150-158 | the page is free afterwards, the search start stays 0, and the counter stays right exactly if the page was reserved |
| Sched.LeastLoaded | src/kernel/sched.c:268-294 | the chosen CPU is the first of the least loaded |
| Sched.InsertSorted | src/kernel/sched.c:54-69 | insertion keeps a list sorted by deadline |
| Sched.CpuStep | src/kernel/sched.h:90-95 | a change of one CPU that only moves threads between it and the thread in hand keeps every thread in exactly one place |
| Sched.FreeOutKeeps | src/kernel/thread.c:135-144 | freeing a thread keeps process->ref the number of its threads; the process goes exactly with its last thread |
| SchedSteps.RunningIsNowhereElse | src/kernel/sched.c:338-388 | a running thread is in no queue, list or graveyard and on no other CPU |
| SchedSteps.UnblockAll | src/kernel/sched.c:193-210 | unblocking empties the list and keeps the invariant |
| SchedSteps.TimeoutsFrom | src/kernel/sched.c:296-315 | the timeout pass keeps the invariant, every run slot and every thread |
| SchedSteps.EmptyGraveyard | src/kernel/sched.c:319-328 | exactly the buried threads are freed |
| SchedSteps.Bury | src/kernel/sched.c:330-335 | a doomed running thread is buried, not freed |
| SchedSteps.Find | src/kernel/sched.c:97-134 | the search returns a live thread of the highest non-empty level, or none only if all levels searched are empty, and ends |
| SchedFates.FindIs | src/kernel/sched.c:97-134 | the search takes the first thread of its queue that is not of a killed process in user mode, with only such threads on the levels above; it frees just those before it, and all others keep their place |
| SchedSteps.DispatchRunning | src/kernel/sched.c:371-387 | a steady thread is replaced only by a strictly higher priority, and nothing ready outranks what runs but a thread whose slice just ended |
| SchedSteps.Schedule | src/kernel/sched.c:338-388 | after scheduling, the CPU is idle only with empty queues, and nothing ready there outranks what runs except a thread whose slice just ended |
| SchedSteps.ReplacedOnlyByHigher | src/kernel/sched.c:371-387 | an unkilled, unblocked thread within its slice keeps its CPU or yields to strictly higher priority |
| SchedSteps.RunningSurvives | src/kernel/sched.c:317-388 | scheduling frees no thread that was running on any CPU when it began |
| SchedSteps.HeadTestIsComplete | src/kernel/sched.c:306-307 | if the head of a list is not overdue, no thread of the list is |
| SchedOrder.PassDropsHeads | src/kernel/sched.c:301-314 | a pass over the deadlines drops the head of exactly the lists whose head is overdue |
| SchedOrder.PassWakesHeads | src/kernel/sched.c:307-313 | it wakes exactly these threads, with the result of a timeout, and changes no other |
| SchedOrder.PassesDropOverdue | src/kernel/sched.c:296-315 | repeated passes wake the overdue threads of every list in list order, and no others |
| SchedOrder.OverdueInFront | src/kernel/sched.c:306-307 | the overdue threads of a list are exactly those in front |
| SchedOrder.StepTurns | src/kernel/sched.c:179-388 | every event drops threads from the front of a list, inserts at most one in its place, and changes none that stay |
| SchedOrder.OrderKept | src/kernel/sched.c:179-388 | over every run, whoever stood behind a thread still does as long as that one waits |
| SchedOrder.TimeoutWaitsForTurn | src/kernel/sched.c:306-313 | who stands behind another leaves only when the whole list is unblocked, never by a timeout |
| SchedOrder.FirstInFirstOut | src/kernel/sched.c:58-68 | over every run, a thread that joins behind one with the same deadline stays behind it as long as that one waits |
| SchedOrder.DeadlineOrder | src/kernel/sched.c:54-69 | over every run, as long as a thread with an earlier deadline waits, none with a later one times out |
| SchedOrder.NeverTimesOut | src/kernel/sched.c:307 | over every run, a thread that waits for ever stays in its list, unchanged, until the list is unblocked |
| SchedOrder.NeverWakesNormally | src/kernel/sched.c:193-210 | and then it wakes with a normal result |
| SchedFates.StepIsKept | src/kernel/sched.c:179-388 | every event keeps the order of ready queues, buries only a running thread that must go, frees only the buried and the dead, and changes no thread's process or priority |
| SchedFates.ReadyInOrder | src/kernel/sched.c:81-84 | over every run ready queues are first in, first out: what is left of a queue stands in front, in its order |
| SchedFates.LeavesOnly | src/kernel/sched.c:97-134 | over every run a thread leaves only in sched_schedule: buried before, as a running thread that was killed or trapped from user mode after its process was killed, or ready, in user mode, with its process killed |
| SchedFates.NobodyLeavesUnasked | src/kernel/sched.c:244-266 | over every run a thread that leaves had called for its own exit, or a thread of its process for that of the process |
| SchedFates.BuriedIff | src/kernel/sched.c:330-335 | over every run the running thread is buried exactly if it is killed, or its process is and the trap came from user mode; otherwise it goes on unchanged or is saved in the mode of the trap |
| SchedFates.DisplacedIsReady | src/kernel/sched.c:377-386 | one that is displaced and does not block is ready on its CPU at its priority |
| SchedFates.SliceStarts | src/kernel/thread.c:175-176 | over every run a thread that takes over gets one slice from the time of loading, and is not of a killed process in user mode |
| SchedFates.RunsOn | src/kernel/sched.c:338-388 | over every run a running thread is touched by nothing but its own calls and sched_schedule on its CPU |
| SchedFates.ExitIsFinal | src/kernel/sched.c:244-266 | over every run a thread that exits is buried by the next call of sched_schedule on its CPU and freed by the one after |
| SchedFates.BlocksWhereItAsked | src/kernel/sched.c:179-191 | over every run a thread that blocks is in the list it named, with the deadline it asked for, never if it asked for none, after the next call of sched_schedule on its CPU |
| SchedFates.YieldGivesWay | src/kernel/sched.c:235-242 | over every run a thread that yielded goes on only if nothing is ready on its CPU |
| SchedFates.ExpiredGivesWay | src/kernel/sched.c:375-377 | so does one whose slice is over |
| SchedFates.SpawnedIsReady | src/kernel/thread.c:89-116 | over every run a new thread has the process and priority asked for and stands last in its queue on the first of the least loaded CPUs |
| SchedFates.WokenIsReady | src/kernel/sched.c:205-208 | and so does one that is woken, by unblocking or by a timeout |
| SchedFates.LoadCounts | src/kernel/sched.c:86-95 | the load of a CPU is the number of threads that run or are ready on it |
| SchedSteps.Step | src/kernel/sched.c:179-388 | every event of the scheduler keeps the invariant |
| SchedSteps.BootInv | src/kernel/sched.c:136-154 | the state after initialisation satisfies the invariant |
| SchedSteps.ExactlyOnePlace | src/kernel/sched.c:179-388 | in every reachable state every live thread is in exactly one place, and no freed thread is anywhere |
| SchedSteps.RunningOutlivesEvent | src/kernel/sched.c:179-388 | in every run a running thread outlives the next event, whatever it is |
| Scheduler.Kernel.PushThread | src/kernel/sched.c:268-294 | the loop over the CPUs, with its early exit, picks the first least loaded one |
| Scheduler.Kernel.BlockerPush | src/kernel/sched.c:54-69 | the insertion loop computes sorted insertion |
| Scheduler.Kernel.FreeThread | src/kernel/thread.c:135-144 | computes the freeing step |
| Scheduler.Kernel.UnblockThreads | src/kernel/sched.c:193-210 | the loop computes the unblocking step |
| Scheduler.Kernel.UpdateBlockers | src/kernel/sched.c:296-315 | the loop computes the timeout pass |
| Scheduler.Kernel.UpdateGraveyard | src/kernel/sched.c:317-336 | computes emptying and burying |
| Scheduler.FindSkipsEmpty | src/kernel/sched.c:107 | a search that starts over at the top finds what it would have found going on |
| Scheduler.Kernel.FindReady | src/kernel/sched.c:97-134 | the loops with their restarting recursion compute the search, and end |
| Scheduler.Kernel.Schedule | src/kernel/sched.c:338-388 | the code computes the scheduling step |
| Path.NameCompare | src/kernel/vfs.h:258-273 | true if and only if the leading names are equal and shorter than MAX_PATH |
| Path.PopName | src/kernel/vfs.c:94-105 | cuts back to the last slash before the end, and fails exactly if none is left after the label |
| Path.PushName | src/kernel/vfs.c:109-121 | appends the name and a slash, and fails exactly on an invalid character or past the limit counted from the label |
| Path.EnterName | src/kernel/vfs.c:88-122 | one turn of the loop does to the text what entering the name does to the stack |
| Path.MakeCanonical | src/kernel/vfs.c:83-134 | the text-level loop computes the fold over the names, including when it fails |
| Path.ScanLabel | src/kernel/vfs.c:152-170 | the label scan rejects exactly invalid characters and a separator inside a name |
| Path.ParsePath | src/kernel/vfs.c:136-195 | for every well-formed working directory and every path the parser returns the text of the resolved location, or fails exactly when there is none, and writes exactly BufferUse bytes |
| Path.VolumeIs | src/kernel/vfs.c:141-190 | for every working directory and path with a result, the volume is that of the directory, unless the first name is a label, and then it is that |
| Path.ResolvesIff | src/kernel/vfs.c:151-173 | a path has a result exactly if a ':' in its first name makes it a label and its names can be followed |
| Path.ResolveIsFold | src/kernel/vfs.c:141-190 | and its components are what following its names, from the root or from the working directory, leaves |
| Path.RejectedIff | src/kernel/vfs.c:92-106 | names that fit are rejected exactly if somewhere they climb out of the root, and otherwise lead as deep as they say |
| Path.BufferFitsIff | src/kernel/vfs.c:109-121 | 256 bytes are enough if and only if every text on the way, with a slash and a NUL, and the written part of a refused name fit |
| Path.ShortFits | src/kernel/vfs.c:187-193 | they are if the texts of working directory and path have 253 characters together |
| Path.SlashesOverrun | src/kernel/vfs.c:117-120 | a path of n slashes is accepted and writes n + 5 bytes |
| Path.LongNameOverrun | src/kernel/vfs.c:111-114 | a single name fits if and only if it has at most 249 characters, and is accepted if and only if it has at most 253 |
| Path.ResolveOk | src/kernel/vfs.c:136-195 | resolving keeps locations well formed |
| Path.ReachableCwdOk | src/kernel/vfs.c:289-313 | every reachable working directory is well formed |
| Path.OnlyConfirmedCount | src/kernel/vfs.c:289-312 | a request that finds no directory leaves the working directory as it was: over every history only the confirmed ones count |
| Path.OneColon | src/kernel/vfs_context.c:8-13 | the text of a well-formed location has exactly one ':', right after the label |
| Path.TextDetermines | src/kernel/vfs.c:311 | two well-formed locations with the same text are the same |
| Path.ResolveAgain | src/kernel/vfs.c:277-287 | under every working directory, parsing a canonical path again drops one trailing empty component and nothing else |
| Path.LastOfFold | src/kernel/vfs.c:83-134 | reading the names backwards finds what walking them forwards leaves at each distance from the top |
| Path.FixedPointIff | src/kernel/vfs.c:277-287 | for every working directory and path, a successful result is a fixed point under every working directory if and only if the path does not end empty |
| Path.NoEmptyNamesFixed | src/kernel/vfs.c:277-287 | a relative, root or absolute path without empty names gives a fixed point without "." and "..", except exactly when it is relative and climbs back to an empty component |
| Path.NoEmptyHistoryFixed | src/kernel/vfs.c:277-313 | a process that never used an empty name sees only fixed points |
| Path.DoubleSlashIsNotFixed | src/kernel/vfs.c:109-121 | "//" gives "sys:/", which gives "sys:" |
| Path.DotIsNotFixed | src/kernel/vfs.c:289-313 | after changing directory to "//", even "." gives no fixed point |
| TicketLock.EnterIsNext | src/kernel/lock.h:30 | only the oldest unserved ticket can enter, and only when nobody is inside |
| TicketLock.MutualExclusion | src/kernel/lock.h:24-41 | with at most 2^32 threads at once, however often the counters wrap, at most one thread is inside |
| TicketLock.FirstComeFirstServed | src/kernel/lock.h:24-41 | threads enter in exactly the order in which they took tickets |
| TicketLock.LongestWaiterCanEnter | src/kernel/lock.h:24-34 | while the lock is free the longest waiter can enter |
| TicketLock.DuplicateTicketIff | src/kernel/lock.h:28-29 | a new ticket equals the one being served if and only if 2^32 threads are there already |
| TicketLock.OneTooMany | src/kernel/lock.h:28-29 | there are runs with 2^32 threads, and with one more two threads are inside |
| InterruptNesting.FlagRestored | src/kernel/trap.c:12-47 | any nest of pushes, pops, interrupt handlers and thread switches in them keeps interrupts off while a push is open or a handler runs, and leaves them as they were |
| InterruptNesting.PopIsSafe | src/kernel/trap.c:40 | a pop that keeps to the nesting never fails the underflow assertion |
| InterruptNesting.BeforeSmp | src/kernel/trap.c:14-17 | over every sequence of operations before the other processors are up, leaving out all pushes and pops changes neither what is possible nor how it ends |
| Pipe.Ring.Write | src/kernel/ring.h:40-64 | appends all bytes, in two pieces if need be, or nothing if they do not fit |
| Pipe.Ring.Read | src/kernel/ring.h:66-90 | takes the oldest bytes, in two pieces if need be, or nothing if there are too few |
| Pipe.AppendSpan | src/kernel/ring.h:47-61 | copying into a ring across its end appends to its contents |
| Pipe.Shared.ReadBytes | src/kernel/pipe.c:19-45 | hands over the oldest bytes of the ring and takes just these away, as many as asked for, or all once the writer closed; each other reply exactly on its condition and without effect; computes the attempt of the protocol |
| Pipe.Shared.WriteBytes | src/kernel/pipe.c:47-75 | adds all bytes behind those in the ring, or gives each other reply exactly on its condition and without effect; computes the attempt of the protocol |
| Pipe.Shared.ReadCleanup | src/kernel/pipe.c:93-107 | computes the cleanup of the reading file, which wakes nobody |
| Pipe.Shared.WriteCleanup | src/kernel/pipe.c:109-123 | computes the cleanup of the writing file, which wakes nobody |
| Pipe.PipeIsFifo | src/kernel/pipe.c:19-123 | in every interleaving, what the readers were handed, followed by what is in the ring, is what the writers gave |
| Pipe.BytesConserved | src/kernel/pipe.c:19-75 | no event makes a byte up, loses one or changes their order |
| Pipe.FreedOnce | src/kernel/pipe.c:93-123 | over every run the state is freed once, when neither file has a handle left |
| Pipe.FreedWithoutWaiters | src/kernel/pipe.c:12-17 | over every run, when the state is freed no call is in progress, so the list is empty and the panic of blocker_cleanup never fires; nothing follows |
| Pipe.WokenIff | src/kernel/pipe.c:93-123 | a sleeper is woken by a call that leaves and by nothing else; a close wakes nobody |
| Pipe.Overslept | src/kernel/sched.h:42-57 | over every run, a sleeper that need not wait and that nobody is about to wake went to sleep although it was ready, or an end was closed while it slept |
| Pipe.SleepsOn | src/kernel/sched.h:42-57 | without a call that leaves it sleeps on |
| Pipe.MissedWrite | src/kernel/sched.h:50-52 | a run in which a write comes between the test and the sleep of a reader: it sleeps although its bytes are there and no other call is in progress |
| Pipe.MissedClose | src/kernel/pipe.c:109-123 | a run in which the writer closes while the reader sleeps: it sleeps on although it need not wait |
| Pipe.DrainAfterClose | src/kernel/pipe.c:35-38 | after the writer closed, reading on hands out everything that is left |
| IntrusiveList.Add | include/stdlib/sys/list.h:53-59 | inserting between neighbours keeps the ring closed in both directions |
| IntrusiveList.Remove | include/stdlib/sys/list.h:71-77 | removing closes the ring again and leaves the entry on its own; an entry already on its own stays so |
| IntrusiveList.List.IsEmpty | include/stdlib/sys/list.h:48-51 | true if and only if the list has no elements |
| IntrusiveList.List.Push | src/kernel/queue.h:23-29 | appends, and the length is the number of elements |
| IntrusiveList.List.InsertBefore | include/stdlib/sys/list.h:66-69 | inserts right before the given element |
| IntrusiveList.List.Pop | src/kernel/queue.h:31-41 | takes the first element, or null from an empty queue |
| FileRefs.FileSystem.constructor | src/kernel/vfs_context.c:8-13 | at boot, with empty tables and mounted volumes, all counts are right |
| FileRefs.DropRefKeeps | src/kernel/vfs.c:65-79 | dropping a handle keeps all counts, and every file that ever was is there or was cleaned up once; it goes exactly at the last drop and gives its volume back |
| FileRefs.FileSystem.Deref | src/kernel/vfs.c:65-79 | with the last reference the file goes and its cleanup runs; otherwise its counter drops by one and nothing is cleaned up |
| FileRefs.FileSystem.Open | src/kernel/vfs_context.c:26-40 | the first free slot takes a reference, or nothing changes if there is none |
| FileRefs.FileSystem.OpenAt | src/kernel/vfs_context.c:57-73 | the given slot takes a reference exactly if it is in range and free |
| FileRefs.FileSystem.Close | src/kernel/vfs_context.c:42-55 | the slot's reference is dropped, with the file's cleanup if it was the last, or nothing changes |
| FileRefs.FileSystem.Get | src/kernel/vfs_context.c:75-85 | a handle on the file in the slot, or nothing |
| FileRefs.FileSystem.ContextCleanup | src/kernel/vfs_context.c:15-24 | every reference of the table is dropped, no handle is left, and just the files with no reference elsewhere are cleaned up |
| FileRefs.FileSystem.MakePipe | src/kernel/pipe.c:137-171 | two new files with a handle each |
| FileRefs.FileSystem.SyscallPipe | src/kernel/syscall.c:395-426 | on every path the handles are given back; success fills two slots, failure none, and then both ends are cleaned up |
| FileRefs.FileSystem.SpawnFiles | src/kernel/syscall.c:116-143 | on every path the handles are given back; success fills the child's slots, failure empties its table |
| FileRefs.FileSystem.PollTake | src/kernel/syscall.c:288-303 | a handle on the file of every descriptor, or, exactly if one of the slots is empty, none at all |
| FileRefs.FileSystem.PollDrop | src/kernel/syscall.c:307-311 | exactly the given handles are dropped, from any state in which they are still held, and just the files with no other reference are cleaned up |
| FileRefs.FileSystem.SyscallPoll | src/kernel/syscall.c:276-314 | on every path the handles are given back and no slot changes |
| FileRefs.FileSystem.OpenOnVolume | src/kernel/vfs.c:356-390 | no volume reference stays behind but that of the new file |
| FileRefs.FileSystem.QueryVolume | src/kernel/vfs.c:392-421 | the volume reference is given back on every path |
| FileRefs.FileSystem.Unmount | src/kernel/vfs.c:257-272 | a volume is unmounted only if no file is open on it and no call holds it, and then exactly if it is willing |
| FileRefs.Quiescent | src/kernel/vfs.c:19-79 | with no call in progress, file->ref is its slots and volume->ref one more than its files |
| FileRefs.EveryFile | src/kernel/vfs.c:41-79 | over every run of reference operations a file that was made is there, with one reference for each slot and handle and for as long as it has any, or was cleaned up exactly once |
| FileRefs.WhoIsCleaned | src/kernel/vfs.c:65-79 | between any two states without a new file in between, the files that went are cleaned up once and are those without references |
| NumberText.CountDigits | src/stdlib/stdlib.c:161-166 | the first loop counts the digits |
| NumberText.WriteDigits | src/stdlib/stdlib.c:169-175 | the second loop writes exactly the numeral and touches nothing else |
| NumberText.Ulltoa | src/stdlib/stdlib.c:156-178 | writing ends at the first character, and decoding the text gives the number back |
| NumberText.Lltoa | src/stdlib/stdlib.c:126-154 | a sign exactly for negative numbers, then the numeral of the absolute value |
| NumberText.SignedDetermines | src/stdlib/stdlib.c:126-154 | the text of a number with a sign determines it |
| NumberText.SignedMeans | src/stdlib/stdlib.c:126-154 | a sign stands in front exactly of negative numbers, and what follows decodes to the absolute value |
| NumberText.NumeralLength | src/stdlib/stdlib.c:161-175 | a numeral has as many characters as the counting loop counts, so a buffer that holds it is enough |
| NumberText.NumeralDecodes | src/stdlib/stdlib.c:156-178 | a numeral in base 2 to 36 decodes to its number |
| NumberText.NoLeadingZero | src/stdlib/stdlib.c:156-178 | only zero has a numeral that starts with 0 |

## Left out

- Vmm.FindFreeRegion: leaves the source's unbounded loop after 2^52 turns, when it has come round, and reports that it never ends.
- Vmm.Alloc: promises nothing about the space after a panic, except what can have caused it; so does Vmm.MapPhysical.
- VmmLife.RegionsDisjoint: says nothing about lives that ask for up to 2^17 pages more than its budget.
- VmmLife.Execute: leaves out what other processes do to the shared upper half between two calls.
- FileRefs.FileSystem.MakePipe: leaves out the failing branches of pipe_init. The kernel's malloc returns NULL only for a size of 0, so none of them runs; cleaning up an end there would lock through a pointer that is not set yet.
- FileRefs.FileSystem.Get: requires a descriptor below CONFIG_MAX_FD, because vfs_context_get reads the slot without checking it, and beyond the table there is nothing to say.
- FileRefs.FileSystem.SpawnFiles: requires the parent's descriptors to be in range, for the same reason.
- FileRefs.FileSystem.PollTake: requires descriptors in range, for the same reason.
- FileRefs.FileSystem.SyscallPoll: requires descriptors in range, for the same reason, and leaves out the wait itself and the events it reports.
- NumberText.Lltoa: leaves out the least 64-bit number, whose negation overflows.
- Scheduler.Kernel.PushThread: does not model the initial INT64_MAX bound on the length of a queue.
- PageTable.Machine.PmmAlloc: is the allocator seen from its callers; `PageStack` and `PageBitmap` model its two halves. Its None stands for the end of the run: the panic, or the read through NULL of a drained stack.
- The removal of a list of blocked threads, and in the scheduler's model the panic of blocker_cleanup, which the pipe's model covers.
- Wake-up liveness of blockers other than the pipe's.
- Interleavings inside one scheduler step: each step is taken as atomic, under the locks the source holds.
- Path.ParsePath: the output is text that grows; bytes beyond the 256 of the source's buffers are counted, not followed into other memory.
- Volume lookup by label, mounting, and the sysfs resource counts.
- malloc, free and realloc, apart from the fact that a new object is new.
- Hardware: TLB invalidation, CR3 loads, saved registers other than the privilege level, timers, interrupts' delivery.
- Boot loader, graphics, windows, input devices, logging.
